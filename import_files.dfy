/** The app's original PDB reader (`parsePDB(rawText:proteinViewModel:)`):
    a single set of per-element arrays for the whole file, TITLE text
    collected into the description, no subunits and no PDB id. It uses the
    same column constants as the current reader. */
module ImportFiles {
  import opened Wrappers
  import Text
  import opened Geometry
  import opened PdbConstants
  import opened PdbAtoms

  datatype ParsingError = EmptyAtomCount

  /** What the reader hands to `Protein(pdbID:description:…)`. */
  datatype OriginalProtein = OriginalProtein(
    pdbId: Option<string>, description: Option<string>,
    atoms: seq<Vec3>, atomIdentifiers: seq<nat>, composition: Tally, sequence: seq<string>)

  /** The accepted atoms, the residues and the TITLE text of `pre + [line]`,
      each as one step from those of `pre`. */
  lemma OriginalScanStep(pre: seq<string>, line: string, parseReal: string -> Option<real>, parseInt: string -> Option<int>,
                         atomId: string -> nat)
    ensures AcceptedAtoms(pre + [line], parseReal, atomId) ==
      match AcceptedAtom(line, parseReal, atomId)
      case Some(a) => AcceptedAtoms(pre, parseReal, atomId) + [a]
      case None => AcceptedAtoms(pre, parseReal, atomId)
    ensures Residues(pre + [line], parseInt) == ResidueStep(Residues(pre, parseInt), line, parseInt)
    ensures JoinedText(pre + [line], TitleKeyword) == JoinStep(JoinedText(pre, TitleKeyword), line, TitleKeyword)
  {
    var lines := pre + [line];
    assert lines[..|lines| - 1] == pre;
  }

  /** The ATOM branch of the line closure: the length check, the residue
      bookkeeping, the coordinates and the element switch. */
  method ReadOriginalAtom(line: string, buckets: ElementBuckets,
                          currentResId: int, sequenceIdentifiers: seq<int>, sequenceArray: seq<string>,
                          parseReal: string -> Option<real>, parseInt: string -> Option<int>, atomId: string -> nat)
    returns (buckets': ElementBuckets, currentResId': int, sequenceIdentifiers': seq<int>, sequenceArray': seq<string>)
    requires Text.StartsWith(line, AtomKeyword)
    ensures buckets' == match AcceptedAtom(line, parseReal, atomId)
      case Some(a) => AddAtom(buckets, a)
      case None => buckets
    ensures ResidueTrack(currentResId', sequenceIdentifiers', sequenceArray') ==
      ResidueStep(ResidueTrack(currentResId, sequenceIdentifiers, sequenceArray), line, parseInt)
  {
    buckets', currentResId', sequenceIdentifiers', sequenceArray' := buckets, currentResId, sequenceIdentifiers, sequenceArray;
    if |line| < ExpectedLineLength {
      return;
    }
    var resId := parseInt(Field(line, ResIdRange));
    if resId.Some? && currentResId != resId.value {
      currentResId' := resId.value;
      sequenceIdentifiers' := sequenceIdentifiers + [resId.value];
      sequenceArray' := sequenceArray + [Field(line, ResNameRange)];
    }
    var element := atomId(Field(line, ElementRange));
    var position := ReadPosition(line, parseReal);
    if position.None? {
      return;
    }
    var p := position.value;
    if element == CarbonCode {
      buckets' := buckets.(carbon := buckets.carbon + [p]);
    } else if element == NitrogenCode {
      buckets' := buckets.(nitrogen := buckets.nitrogen + [p]);
    } else if element == HydrogenCode {
      buckets' := buckets.(hydrogen := buckets.hydrogen + [p]);
    } else if element == OxygenCode {
      buckets' := buckets.(oxygen := buckets.oxygen + [p]);
    } else if element == SulfurCode {
      buckets' := buckets.(sulfur := buckets.sulfur + [p]);
    } else {
      buckets' := buckets.(others := buckets.others + [p], othersIds := buckets.othersIds + [element]);
    }
  }

  /** The line closure: a TITLE line extends the description (the first one
      returns early), an ATOM line is read as above. The record names
      exclude each other, so at most one branch applies. */
  method ReadOriginalLine(line: string, description: Option<string>, buckets: ElementBuckets,
                          currentResId: int, sequenceIdentifiers: seq<int>, sequenceArray: seq<string>,
                          parseReal: string -> Option<real>, parseInt: string -> Option<int>, atomId: string -> nat)
    returns (description': Option<string>, buckets': ElementBuckets,
             currentResId': int, sequenceIdentifiers': seq<int>, sequenceArray': seq<string>)
    ensures description' == JoinStep(description, line, TitleKeyword)
    ensures buckets' == match AcceptedAtom(line, parseReal, atomId)
      case Some(a) => AddAtom(buckets, a)
      case None => buckets
    ensures ResidueTrack(currentResId', sequenceIdentifiers', sequenceArray') ==
      ResidueStep(ResidueTrack(currentResId, sequenceIdentifiers, sequenceArray), line, parseInt)
  {
    description', buckets' := description, buckets;
    currentResId', sequenceIdentifiers', sequenceArray' := currentResId, sequenceIdentifiers, sequenceArray;
    Text.PrefixesDiffer(line, TitleKeyword, AtomKeyword, 0);
    if Text.StartsWith(line, TitleKeyword) {
      NotAtomRecord(line, parseReal, parseInt, atomId);
      var rawTitleLine := HeaderText(line);
      if description.Some? {
        description' := Some(description.value + rawTitleLine);
      } else {
        assert "" + rawTitleLine == rawTitleLine;
        description' := Some(rawTitleLine);
        return;
      }
    }
    if Text.StartsWith(line, AtomKeyword) {
      buckets', currentResId', sequenceIdentifiers', sequenceArray' :=
        ReadOriginalAtom(line, buckets, currentResId, sequenceIdentifiers, sequenceArray, parseReal, parseInt, atomId);
    } else {
      NotAtomRecord(line, parseReal, parseInt, atomId);
    }
  }

  /** The arrays appended C, N, H, O, S, others, with the identifiers
      repeated per counter in the same order. */
  method ConcatenateBuckets(buckets: ElementBuckets, ghost xs: seq<ParsedAtom>)
    returns (atomArray: seq<Vec3>, atomIdentifiers: seq<nat>)
    requires buckets == BucketsOf(xs)
    ensures atomArray == Positions(Grouped(xs))
    ensures atomIdentifiers == Codes(Grouped(xs))
    ensures |atomArray| == |xs|
  {
    atomArray := buckets.carbon + buckets.nitrogen + buckets.hydrogen + buckets.oxygen + buckets.sulfur + buckets.others;
    atomIdentifiers := Repeat(CarbonCode, |buckets.carbon|) + Repeat(NitrogenCode, |buckets.nitrogen|) +
      Repeat(HydrogenCode, |buckets.hydrogen|) + Repeat(OxygenCode, |buckets.oxygen|) +
      Repeat(SulfurCode, |buckets.sulfur|) + buckets.othersIds;
    BucketsLayout(xs);
  }

  /** `parsePDB(rawText:)` over the text's lines: the accepted atoms, grouped
      C, N, H, O, S, others with aligned identifiers, the de-duplicated
      residue names, the joined TITLE text and no PDB id; `emptyAtomCount`
      exactly when no atom is accepted. */
  method ParsePdbOriginal(lines: seq<string>, parseReal: string -> Option<real>, parseInt: string -> Option<int>,
                          atomId: string -> nat)
    returns (r: Result<OriginalProtein, ParsingError>)
    ensures r.Err? <==> AcceptedAtoms(lines, parseReal, atomId) == []
    ensures r.Ok? ==>
      var p := r.value;
      var xs := AcceptedAtoms(lines, parseReal, atomId);
      && p.pdbId == None
      && p.description == JoinedText(lines, TitleKeyword)
      && p.atoms == Positions(Grouped(xs))
      && p.atomIdentifiers == Codes(Grouped(xs))
      && p.composition == TallyOf(BucketsOf(xs))
      && p.sequence == Residues(lines, parseInt).names
  {
    var pdbId: Option<string> := None;
    var description: Option<string> := None;
    var buckets := NoBuckets;
    var sequenceArray: seq<string> := [];
    var sequenceIdentifiers: seq<int> := [];
    var currentResId: int := -1;
    var currentLine: nat := 0;
    BucketsOfEmpty();

    while currentLine < |lines|
      invariant currentLine <= |lines|
      invariant buckets == BucketsOf(AcceptedAtoms(lines[..currentLine], parseReal, atomId))
      invariant ResidueTrack(currentResId, sequenceIdentifiers, sequenceArray) == Residues(lines[..currentLine], parseInt)
      invariant description == JoinedText(lines[..currentLine], TitleKeyword)
    {
      var line := lines[currentLine];
      ghost var pre := lines[..currentLine];
      Text.TakeSnoc(lines, currentLine);
      OriginalScanStep(pre, line, parseReal, parseInt, atomId);
      if AcceptedAtom(line, parseReal, atomId).Some? {
        BucketsSnoc(AcceptedAtoms(pre, parseReal, atomId), AcceptedAtom(line, parseReal, atomId).value);
      }
      currentLine := currentLine + 1;
      description, buckets, currentResId, sequenceIdentifiers, sequenceArray :=
        ReadOriginalLine(line, description, buckets, currentResId, sequenceIdentifiers, sequenceArray,
                         parseReal, parseInt, atomId);
    }
    assert lines[..currentLine] == lines;
    ghost var xs := AcceptedAtoms(lines, parseReal, atomId);

    var atomArray, atomIdentifiers := ConcatenateBuckets(buckets, xs);
    if |atomArray| == 0 {
      return Err(EmptyAtomCount);
    }
    r := Ok(OriginalProtein(pdbId, description, atomArray, atomIdentifiers, TallyOf(buckets), sequenceArray));
  }
}
