/** The app's legacy PDB reader (`LegacyPDBParser`): ATOM and HETATM
    records are read into the last subunit of the current model, TER opens
    a subunit, ENDMDL turns the current model into a protein and starts a
    fresh one; a water residue is skipped at the atom that starts it. */
module LegacyPdb {
  import opened Wrappers
  import Text
  import opened Geometry
  import opened PdbConstants
  import opened PdbAtoms
  import opened ParsePdb

  // ---------------------------------------------------------------------
  // Specification.

  /** `ProteinFileInfo` as far as the reader touches it. */
  datatype FileInfo = FileInfo(pdbId: Option<string>, description: Option<string>, authors: Option<string>,
                               warningIndices: seq<nat>)

  /** One model as `createNewProtein` hands it to `Protein(...)`. */
  datatype LegacyProtein = LegacyProtein(
    subunitCount: nat, subunits: seq<Subunit>, atoms: seq<Vec3>, atomIdentifiers: seq<nat>,
    composition: Tally, sequence: seq<string>)

  /** The per-model part of the reader's state: the atoms of each subunit
      (type and position together), the TER count and the residue
      bookkeeping. */
  datatype ModelScan = ModelScan(groups: seq<seq<ParsedAtom>>, subunitCount: nat,
                                 currentResId: int, ids: seq<int>, names: seq<string>)

  /** The state `resetProteinVariables` restores: one empty subunit of id 0,
      no residues, residue id -1. */
  const FreshModel := ModelScan([[]], 0, -1, [], [])

  /** The whole reader state between lines. */
  datatype LegacyScan = LegacyScan(model: ModelScan, proteins: seq<LegacyProtein>, info: FileInfo)

  /** Both ATOM and HETATM records are read. */
  predicate IsAtomRecord(line: string) {
    Text.StartsWith(line, AtomKeyword) || Text.StartsWith(line, HetatmKeyword)
  }

  /** The atom a long enough line describes, with z negated to fix the
      chirality under the left-handed projection. */
  function LegacyReading(line: string, parseReal: string -> Option<real>, atomId: string -> nat): (a: Option<ParsedAtom>)
    requires |line| >= ExpectedLineLength
    ensures a.Some? <==> ReadPosition(line, parseReal).Some?
    ensures a.Some? ==> var p := ReadPosition(line, parseReal).value;
      a.value.position == Vec3(p.x, p.y, -p.z) && a.value.code == atomId(Field(line, ElementRange))
  {
    match ReadPosition(line, parseReal)
    case Some(p) => Some(ParsedAtom(atomId(Field(line, ElementRange)), Vec3(p.x, p.y, -p.z)))
    case None => None
  }

  /** The line starts a new residue whose name contains "HOH". */
  predicate StartsWater(m: ModelScan, line: string, parseInt: string -> Option<int>)
    requires |line| >= ExpectedLineLength
    ensures StartsWater(m, line, parseInt) ==>
      exists i: nat :: Text.OccursAt(Field(line, ResNameRange), "HOH", i)
  {
    var r := parseInt(Field(line, ResIdRange));
    r.Some? && r.value != m.currentResId && Text.Contains(Field(line, ResNameRange), "HOH")
  }

  /** `currentSubunits.last?.…append(…)`: a no-op on an empty list. */
  function AppendToLast(gs: seq<seq<ParsedAtom>>, a: ParsedAtom): (r: seq<seq<ParsedAtom>>)
    ensures |r| == |gs|
  {
    if gs == [] then gs else gs[|gs| - 1 := gs[|gs| - 1] + [a]]
  }

  /** The residue bookkeeping of `parseAtom`: a readable id different
      from the current one becomes current and is recorded, and so is its
      name unless the residue is water. */
  function AfterResidue(m: ModelScan, line: string, parseInt: string -> Option<int>): ModelScan
    requires |line| >= ExpectedLineLength
  {
    var r := parseInt(Field(line, ResIdRange));
    if r.Some? && r.value != m.currentResId then
      m.(currentResId := r.value, ids := m.ids + [r.value],
         names := if StartsWater(m, line, parseInt) then m.names else m.names + [Field(line, ResNameRange)])
    else m
  }

  /** `parseAtom` on the model: after the residue bookkeeping, an atom
      with readable coordinates joins the last subunit, unless it starts a
      water residue. */
  function ModelAfterAtom(m: ModelScan, line: string, parseReal: string -> Option<real>, parseInt: string -> Option<int>,
                          atomId: string -> nat): ModelScan
  {
    if |line| < ExpectedLineLength then m
    else
      var m1 := AfterResidue(m, line, parseInt);
      if StartsWater(m, line, parseInt) then m1
      else
        match LegacyReading(line, parseReal, atomId)
        case Some(a) => m1.(groups := AppendToLast(m1.groups, a))
        case None => m1
  }

  /** The line numbers `parseAtom` records: a short line; an unreadable
      residue id; unreadable coordinates, unless the line was dropped as
      water before they were read. */
  function AtomWarnings(m: ModelScan, line: string, n: nat, parseReal: string -> Option<real>,
                        parseInt: string -> Option<int>): (w: seq<nat>)
    ensures |w| <= 2 && forall k :: 0 <= k < |w| ==> w[k] == n
  {
    if |line| < ExpectedLineLength then [n]
    else
      (if parseInt(Field(line, ResIdRange)).None? then [n] else []) +
      (if StartsWater(m, line, parseInt) || ReadPosition(line, parseReal).Some? then [] else [n])
  }

  /** `createNewProtein` on a model: subunits concatenated in order, the
      non-empty ones listed with prefix-sum start indices. */
  function ProteinOf(m: ModelScan): LegacyProtein {
    ProteinFrom(m.groups, m.names)
  }

  function ProteinFrom(gs: seq<seq<ParsedAtom>>, names: seq<string>): LegacyProtein {
    var subs := Kept(gs);
    var xs := Flatten(gs);
    LegacyProtein(|subs|, subs, Positions(xs), Codes(xs), TallyOfAtoms(xs), names)
  }

  /** What one line does, by the first record name it starts with. A
      HEADER line is sliced up to the id code unless the id is known. */
  function LineStep(s: LegacyScan, line: string, n: nat, known: KnownInfo,
                    parseReal: string -> Option<real>, parseInt: string -> Option<int>, atomId: string -> nat): LegacyScan
    requires Text.StartsWith(line, HeaderKeyword) && known.pdbId.None? ==> |line| >= PdbIdEnd
  {
    if IsAtomRecord(line) then
      s.(model := ModelAfterAtom(s.model, line, parseReal, parseInt, atomId),
         info := s.info.(warningIndices := s.info.warningIndices + AtomWarnings(s.model, line, n, parseReal, parseInt)))
    else if Text.StartsWith(line, HelixKeyword) || Text.StartsWith(line, SheetKeyword) then s
    else if Text.StartsWith(line, HeaderKeyword) then
      if known.pdbId.Some? then s else s.(info := s.info.(pdbId := Some(Field(line, PdbIdRange))))
    else if Text.StartsWith(line, TitleKeyword) then
      if known.description.Some? then s
      else s.(info := s.info.(description := JoinStep(s.info.description, line, TitleKeyword)))
    else if Text.StartsWith(line, AuthorKeyword) then
      if known.authors.Some? then s
      else s.(info := s.info.(authors := JoinStep(s.info.authors, line, AuthorKeyword)))
    else if Text.StartsWith(line, TerKeyword) then
      s.(model := s.model.(groups := s.model.groups + [[]], subunitCount := s.model.subunitCount + 1))
    else if Text.StartsWith(line, EndmdlKeyword) then
      s.(proteins := s.proteins + [ProteinOf(s.model)], model := FreshModel)
    else s
  }

  /** The state `parsePDB` starts its loop from: the models and proteins
      the parser already holds, and file info taken from what is known. */
  function Begin(m: ModelScan, proteins: seq<LegacyProtein>, known: KnownInfo): LegacyScan {
    LegacyScan(m, proteins, FileInfo(known.pdbId, known.description, known.authors, []))
  }

  /** The state after the line loop from `s0`; the line counter stood at
      `first`, and it is incremented before each line is read. */
  function Run(s0: LegacyScan, lines: seq<string>, first: nat, known: KnownInfo, parseReal: string -> Option<real>,
               parseInt: string -> Option<int>, atomId: string -> nat): LegacyScan
    requires known.pdbId.None? ==> HeadersReadable(lines)
    decreases |lines|
  {
    if lines == [] then s0
    else
      var init := lines[..|lines| - 1];
      assert forall i :: 0 <= i < |init| ==> init[i] == lines[i];
      LineStep(Run(s0, init, first, known, parseReal, parseInt, atomId), lines[|lines| - 1], first + |lines|,
               known, parseReal, parseInt, atomId)
  }

  /** One more line is one more step of the fold. */
  lemma RunSnoc(s0: LegacyScan, lines: seq<string>, i: nat, first: nat, known: KnownInfo,
                parseReal: string -> Option<real>, parseInt: string -> Option<int>, atomId: string -> nat)
    requires i < |lines|
    requires known.pdbId.None? ==> HeadersReadable(lines)
    ensures known.pdbId.None? ==> HeadersReadable(lines[..i]) && HeadersReadable(lines[..i + 1])
    ensures Text.StartsWith(lines[i], HeaderKeyword) && known.pdbId.None? ==> |lines[i]| >= PdbIdEnd
    ensures Run(s0, lines[..i + 1], first, known, parseReal, parseInt, atomId) ==
      LineStep(Run(s0, lines[..i], first, known, parseReal, parseInt, atomId), lines[i], first + i + 1,
               known, parseReal, parseInt, atomId)
  {
    Text.TakeSnoc(lines, i);
    assert forall k :: 0 <= k <= i ==> lines[..i + 1][k] == lines[k];
  }

  /** `createLastProteinIfNeeded`: the current model becomes a protein only
      when no ENDMDL produced one. */
  function FinalProteins(s: LegacyScan): (r: seq<LegacyProtein>)
    ensures |r| >= 1
    ensures s.proteins != [] ==> r == s.proteins
    ensures s.proteins == [] ==> |r| == 1
  {
    if s.proteins == [] then [ProteinOf(s.model)] else s.proteins
  }

  function EndmdlCount(lines: seq<string>): nat
    decreases |lines|
  {
    if lines == [] then 0
    else EndmdlCount(lines[..|lines| - 1]) + (if Text.StartsWith(lines[|lines| - 1], EndmdlKeyword) then 1 else 0)
  }

  /** `emptyAtomCount`: some protein has no atoms. */
  predicate HasEmptyProtein(ps: seq<LegacyProtein>) {
    exists k :: 0 <= k < |ps| && |ps[k].atoms| == 0
  }

  // ---------------------------------------------------------------------
  // Properties.

  /** A line starting with ENDMDL is none of the records checked before it. */
  lemma EndmdlIsOnlyEndmdl(line: string)
    requires Text.StartsWith(line, EndmdlKeyword)
    ensures !IsAtomRecord(line) && !Text.StartsWith(line, HelixKeyword) && !Text.StartsWith(line, SheetKeyword)
    ensures !Text.StartsWith(line, HeaderKeyword) && !Text.StartsWith(line, TitleKeyword)
    ensures !Text.StartsWith(line, AuthorKeyword) && !Text.StartsWith(line, TerKeyword)
  {
    Text.PrefixesDiffer(line, EndmdlKeyword, AtomKeyword, 0);
    Text.PrefixesDiffer(line, EndmdlKeyword, HetatmKeyword, 0);
    Text.PrefixesDiffer(line, EndmdlKeyword, HelixKeyword, 0);
    Text.PrefixesDiffer(line, EndmdlKeyword, SheetKeyword, 0);
    Text.PrefixesDiffer(line, EndmdlKeyword, HeaderKeyword, 0);
    Text.PrefixesDiffer(line, EndmdlKeyword, TitleKeyword, 0);
    Text.PrefixesDiffer(line, EndmdlKeyword, AuthorKeyword, 0);
    Text.PrefixesDiffer(line, EndmdlKeyword, TerKeyword, 0);
  }

  /** Only ENDMDL adds a protein, and it adds exactly one. */
  lemma LineStepProteins(s: LegacyScan, line: string, n: nat, known: KnownInfo,
                         parseReal: string -> Option<real>, parseInt: string -> Option<int>, atomId: string -> nat)
    requires Text.StartsWith(line, HeaderKeyword) && known.pdbId.None? ==> |line| >= PdbIdEnd
    ensures var s' := LineStep(s, line, n, known, parseReal, parseInt, atomId);
      s'.proteins == if Text.StartsWith(line, EndmdlKeyword) then s.proteins + [ProteinOf(s.model)] else s.proteins
  {
    if Text.StartsWith(line, EndmdlKeyword) {
      EndmdlIsOnlyEndmdl(line);
    }
  }

  /** One protein per ENDMDL record. */
  lemma {:induction false} ProteinCount(s0: LegacyScan, lines: seq<string>, first: nat, known: KnownInfo,
                                        parseReal: string -> Option<real>, parseInt: string -> Option<int>, atomId: string -> nat)
    requires known.pdbId.None? ==> HeadersReadable(lines)
    ensures |Run(s0, lines, first, known, parseReal, parseInt, atomId).proteins| == |s0.proteins| + EndmdlCount(lines)
    decreases |lines|
  {
    if lines != [] {
      var init := lines[..|lines| - 1];
      assert forall i :: 0 <= i < |init| ==> init[i] == lines[i];
      ProteinCount(s0, init, first, known, parseReal, parseInt, atomId);
      LineStepProteins(Run(s0, init, first, known, parseReal, parseInt, atomId), lines[|lines| - 1], first + |lines|,
                       known, parseReal, parseInt, atomId);
    }
  }

  /** Proteins are only ever appended: the proteins after a prefix of the
      lines are a prefix of the final ones. */
  lemma {:induction false} ProteinsGrow(s0: LegacyScan, lines: seq<string>, i: nat, first: nat, known: KnownInfo,
                                        parseReal: string -> Option<real>, parseInt: string -> Option<int>, atomId: string -> nat)
    requires i <= |lines|
    requires known.pdbId.None? ==> HeadersReadable(lines)
    ensures known.pdbId.None? ==> HeadersReadable(lines[..i])
    ensures Run(s0, lines[..i], first, known, parseReal, parseInt, atomId).proteins <=
      Run(s0, lines, first, known, parseReal, parseInt, atomId).proteins
    decreases |lines| - i
  {
    if i < |lines| {
      ProteinsGrow(s0, lines, i + 1, first, known, parseReal, parseInt, atomId);
      RunSnoc(s0, lines, i, first, known, parseReal, parseInt, atomId);
      var before := Run(s0, lines[..i], first, known, parseReal, parseInt, atomId);
      LineStepProteins(before, lines[i], first + i + 1, known, parseReal, parseInt, atomId);
      Text.PrefixStep(before.proteins, Run(s0, lines[..i + 1], first, known, parseReal, parseInt, atomId).proteins,
                      Run(s0, lines, first, known, parseReal, parseInt, atomId).proteins, ProteinOf(before.model));
    } else {
      assert lines[..i] == lines;
    }
  }

  /** Lines without ENDMDL leave the protein list alone. */
  lemma {:induction false} ProteinsStable(s0: LegacyScan, lines: seq<string>, i: nat, first: nat, known: KnownInfo,
                                          parseReal: string -> Option<real>, parseInt: string -> Option<int>, atomId: string -> nat)
    requires i <= |lines|
    requires forall j :: i <= j < |lines| ==> !Text.StartsWith(lines[j], EndmdlKeyword)
    requires known.pdbId.None? ==> HeadersReadable(lines)
    ensures known.pdbId.None? ==> HeadersReadable(lines[..i])
    ensures Run(s0, lines[..i], first, known, parseReal, parseInt, atomId).proteins ==
      Run(s0, lines, first, known, parseReal, parseInt, atomId).proteins
    decreases |lines| - i
  {
    if i < |lines| {
      ProteinsStable(s0, lines, i + 1, first, known, parseReal, parseInt, atomId);
      RunSnoc(s0, lines, i, first, known, parseReal, parseInt, atomId);
      LineStepProteins(Run(s0, lines[..i], first, known, parseReal, parseInt, atomId), lines[i], first + i + 1,
                       known, parseReal, parseInt, atomId);
    } else {
      assert lines[..i] == lines;
    }
  }

  /** Lines after the last ENDMDL leave the protein list alone: when the
      file has an ENDMDL, the atoms after the last one are discarded. */
  lemma AfterLastEndmdlDiscarded(s0: LegacyScan, lines: seq<string>, k: nat, first: nat, known: KnownInfo,
                                 parseReal: string -> Option<real>, parseInt: string -> Option<int>, atomId: string -> nat)
    requires k < |lines| && Text.StartsWith(lines[k], EndmdlKeyword)
    requires forall j :: k < j < |lines| ==> !Text.StartsWith(lines[j], EndmdlKeyword)
    requires known.pdbId.None? ==> HeadersReadable(lines)
    ensures known.pdbId.None? ==> HeadersReadable(lines[..k + 1])
    ensures FinalProteins(Run(s0, lines, first, known, parseReal, parseInt, atomId)) ==
      Run(s0, lines[..k + 1], first, known, parseReal, parseInt, atomId).proteins
  {
    ProteinsStable(s0, lines, k + 1, first, known, parseReal, parseInt, atomId);
    RunSnoc(s0, lines, k, first, known, parseReal, parseInt, atomId);
    LineStepProteins(Run(s0, lines[..k], first, known, parseReal, parseInt, atomId), lines[k], first + k + 1,
                     known, parseReal, parseInt, atomId);
    assert Run(s0, lines[..k + 1], first, known, parseReal, parseInt, atomId).proteins != [];
  }

  /** On a fresh model, an ENDMDL before any atom produces an empty
      protein, so the file is rejected with `emptyAtomCount`. */
  lemma LeadingEndmdlFails(s0: LegacyScan, lines: seq<string>, first: nat, known: KnownInfo,
                           parseReal: string -> Option<real>, parseInt: string -> Option<int>, atomId: string -> nat)
    requires s0.model == FreshModel
    requires lines != [] && Text.StartsWith(lines[0], EndmdlKeyword)
    requires known.pdbId.None? ==> HeadersReadable(lines)
    ensures HasEmptyProtein(FinalProteins(Run(s0, lines, first, known, parseReal, parseInt, atomId)))
  {
    ProteinsGrow(s0, lines, 1, first, known, parseReal, parseInt, atomId);
    var one := lines[..1];
    assert one[..0] == [];
    LineStepProteins(s0, lines[0], first + 1, known, parseReal, parseInt, atomId);
    var ps := Run(s0, lines, first, known, parseReal, parseInt, atomId).proteins;
    assert ps[|s0.proteins|] == ProteinOf(FreshModel);
    assert Flatten([[]]) == [];
  }

  /** The model keeps one more subunit than TER records counted. */
  predicate Shaped(m: ModelScan) {
    |m.groups| == m.subunitCount + 1
  }

  lemma {:induction false} RunKeepsShape(s0: LegacyScan, lines: seq<string>, first: nat, known: KnownInfo,
                                         parseReal: string -> Option<real>, parseInt: string -> Option<int>, atomId: string -> nat)
    requires Shaped(s0.model)
    requires known.pdbId.None? ==> HeadersReadable(lines)
    ensures Shaped(Run(s0, lines, first, known, parseReal, parseInt, atomId).model)
    decreases |lines|
  {
    if lines != [] {
      var init := lines[..|lines| - 1];
      assert forall i :: 0 <= i < |init| ==> init[i] == lines[i];
      RunKeepsShape(s0, init, first, known, parseReal, parseInt, atomId);
    }
  }

  /** The header, title and author records are none of the records the
      chain tests before them. */
  lemma HeaderRecordsExclusive(line: string)
    ensures Text.StartsWith(line, HeaderKeyword) ==>
      !IsAtomRecord(line) && !Text.StartsWith(line, HelixKeyword) && !Text.StartsWith(line, SheetKeyword)
    ensures Text.StartsWith(line, TitleKeyword) ==>
      !IsAtomRecord(line) && !Text.StartsWith(line, HelixKeyword) && !Text.StartsWith(line, SheetKeyword) &&
      !Text.StartsWith(line, HeaderKeyword)
    ensures Text.StartsWith(line, AuthorKeyword) ==>
      !IsAtomRecord(line) && !Text.StartsWith(line, HelixKeyword) && !Text.StartsWith(line, SheetKeyword) &&
      !Text.StartsWith(line, HeaderKeyword) && !Text.StartsWith(line, TitleKeyword)
  {
    RecordNamesExclusive(line);
    Text.PrefixesDiffer(line, HeaderKeyword, HelixKeyword, 2);
    Text.PrefixesDiffer(line, HeaderKeyword, SheetKeyword, 0);
    Text.PrefixesDiffer(line, TitleKeyword, HelixKeyword, 0);
    Text.PrefixesDiffer(line, TitleKeyword, SheetKeyword, 0);
    Text.PrefixesDiffer(line, AuthorKeyword, HelixKeyword, 0);
    Text.PrefixesDiffer(line, AuthorKeyword, SheetKeyword, 0);
  }

  /** What one line does to the file info. */
  lemma LineStepInfo(s: LegacyScan, line: string, n: nat, known: KnownInfo,
                     parseReal: string -> Option<real>, parseInt: string -> Option<int>, atomId: string -> nat)
    requires Text.StartsWith(line, HeaderKeyword) && known.pdbId.None? ==> |line| >= PdbIdEnd
    ensures var info := LineStep(s, line, n, known, parseReal, parseInt, atomId).info;
      && info.pdbId == (if Text.StartsWith(line, HeaderKeyword) && known.pdbId.None? then Some(Field(line, PdbIdRange))
                        else s.info.pdbId)
      && info.description == (if known.description.Some? then s.info.description
                              else JoinStep(s.info.description, line, TitleKeyword))
      && info.authors == (if known.authors.Some? then s.info.authors else JoinStep(s.info.authors, line, AuthorKeyword))
      && info.warningIndices == s.info.warningIndices +
           (if IsAtomRecord(line) then AtomWarnings(s.model, line, n, parseReal, parseInt) else [])
  {
    HeaderRecordsExclusive(line);
  }

  /** A known id is kept; otherwise the id is that of the last HEADER line. */
  lemma {:induction false} RunPdbId(s0: LegacyScan, lines: seq<string>, first: nat, known: KnownInfo,
                                    parseReal: string -> Option<real>, parseInt: string -> Option<int>, atomId: string -> nat)
    requires s0.info.pdbId == known.pdbId
    requires known.pdbId.None? ==> HeadersReadable(lines)
    ensures Run(s0, lines, first, known, parseReal, parseInt, atomId).info.pdbId ==
      if known.pdbId.Some? then known.pdbId else LastHeaderId(lines)
    decreases |lines|
  {
    if lines != [] {
      var init := lines[..|lines| - 1];
      assert forall i :: 0 <= i < |init| ==> init[i] == lines[i];
      RunPdbId(s0, init, first, known, parseReal, parseInt, atomId);
      LineStepInfo(Run(s0, init, first, known, parseReal, parseInt, atomId), lines[|lines| - 1], first + |lines|,
                   known, parseReal, parseInt, atomId);
    }
  }

  /** A known description is kept; otherwise it is the joined TITLE text. */
  lemma {:induction false} RunDescription(s0: LegacyScan, lines: seq<string>, first: nat, known: KnownInfo,
                                          parseReal: string -> Option<real>, parseInt: string -> Option<int>, atomId: string -> nat)
    requires s0.info.description == known.description
    requires known.pdbId.None? ==> HeadersReadable(lines)
    ensures Run(s0, lines, first, known, parseReal, parseInt, atomId).info.description ==
      if known.description.Some? then known.description else JoinedText(lines, TitleKeyword)
    decreases |lines|
  {
    if lines != [] {
      var init := lines[..|lines| - 1];
      assert forall i :: 0 <= i < |init| ==> init[i] == lines[i];
      RunDescription(s0, init, first, known, parseReal, parseInt, atomId);
      LineStepInfo(Run(s0, init, first, known, parseReal, parseInt, atomId), lines[|lines| - 1], first + |lines|,
                   known, parseReal, parseInt, atomId);
    }
  }

  /** Known authors are kept; otherwise they are the joined AUTHOR text. */
  lemma {:induction false} RunAuthors(s0: LegacyScan, lines: seq<string>, first: nat, known: KnownInfo,
                                      parseReal: string -> Option<real>, parseInt: string -> Option<int>, atomId: string -> nat)
    requires s0.info.authors == known.authors
    requires known.pdbId.None? ==> HeadersReadable(lines)
    ensures Run(s0, lines, first, known, parseReal, parseInt, atomId).info.authors ==
      if known.authors.Some? then known.authors else JoinedText(lines, AuthorKeyword)
    decreases |lines|
  {
    if lines != [] {
      var init := lines[..|lines| - 1];
      assert forall i :: 0 <= i < |init| ==> init[i] == lines[i];
      RunAuthors(s0, init, first, known, parseReal, parseInt, atomId);
      LineStepInfo(Run(s0, init, first, known, parseReal, parseInt, atomId), lines[|lines| - 1], first + |lines|,
                   known, parseReal, parseInt, atomId);
    }
  }

  /** `n` numbers an ATOM or HETATM line of `lines`, counted from `first`. */
  predicate WarnsAtomLine(lines: seq<string>, first: nat, n: nat) {
    first < n <= first + |lines| && IsAtomRecord(lines[n - first - 1])
  }

  /** Every warning recorded is the number of an ATOM or HETATM line. */
  lemma {:induction false} RunWarnings(s0: LegacyScan, lines: seq<string>, first: nat, known: KnownInfo,
                                       parseReal: string -> Option<real>, parseInt: string -> Option<int>, atomId: string -> nat)
    requires s0.info.warningIndices == []
    requires known.pdbId.None? ==> HeadersReadable(lines)
    ensures forall k :: 0 <= k < |Run(s0, lines, first, known, parseReal, parseInt, atomId).info.warningIndices| ==>
      WarnsAtomLine(lines, first, Run(s0, lines, first, known, parseReal, parseInt, atomId).info.warningIndices[k])
    decreases |lines|
  {
    if lines != [] {
      var init := lines[..|lines| - 1];
      assert forall i :: 0 <= i < |init| ==> init[i] == lines[i];
      RunWarnings(s0, init, first, known, parseReal, parseInt, atomId);
      var s := Run(s0, init, first, known, parseReal, parseInt, atomId);
      var line := lines[|lines| - 1];
      LineStepInfo(s, line, first + |lines|, known, parseReal, parseInt, atomId);
      var ws := Run(s0, lines, first, known, parseReal, parseInt, atomId).info.warningIndices;
      var old_ws := s.info.warningIndices;
      var added := if IsAtomRecord(line) then AtomWarnings(s.model, line, first + |lines|, parseReal, parseInt) else [];
      assert ws == old_ws + added;
      forall k | 0 <= k < |ws|
        ensures WarnsAtomLine(lines, first, ws[k])
      {
        if k < |old_ws| {
          assert ws[k] == old_ws[k];
          assert WarnsAtomLine(init, first, ws[k]);
        } else {
          assert added != [];
          assert ws[k] == added[k - |old_ws|];
        }
      }
    }
  }

  /** A water atom is dropped only when it starts a new residue; its
      residue id is still recorded (its name is not). A later atom of the
      same residue is kept. */
  lemma WaterDroppedOnlyAtNewResidue(m: ModelScan, line: string, parseReal: string -> Option<real>,
                                     parseInt: string -> Option<int>, atomId: string -> nat)
    requires |line| >= ExpectedLineLength && Text.Contains(Field(line, ResNameRange), "HOH")
    requires parseInt(Field(line, ResIdRange)).Some?
    ensures var r := parseInt(Field(line, ResIdRange)).value;
      var m' := ModelAfterAtom(m, line, parseReal, parseInt, atomId);
      if r != m.currentResId then
        m'.groups == m.groups && m'.ids == m.ids + [r] && m'.names == m.names && m'.currentResId == r
      else
        m'.groups == (match LegacyReading(line, parseReal, atomId)
          case Some(a) => AppendToLast(m.groups, a)
          case None => m.groups)
  {
  }

  /** Sizes add up under flattening. */
  lemma {:induction false} SizeSumIsFlattenLength(gs: seq<seq<ParsedAtom>>)
    ensures SizeSum(gs) == |Flatten(gs)|
    decreases |gs|
  {
    if gs != [] {
      SizeSumIsFlattenLength(gs[..|gs| - 1]);
    }
  }

  /** A protein's arrays are aligned and counted: one identifier per
      position, the composition total equals the atom count, and the
      subunits are consecutive slices covering all atoms. */
  lemma ProteinOfLayout(m: ModelScan)
    ensures var p := ProteinOf(m);
      && |p.atoms| == |p.atomIdentifiers| == SizeSum(m.groups)
      && TotalCount(p.composition) == |p.atoms|
      && p.subunitCount == |p.subunits|
      && Packed(p.subunits, |p.atoms|)
  {
    SizeSumIsFlattenLength(m.groups);
    TallyOfAtomsTotal(Flatten(m.groups));
    KeptPacked(m.groups);
  }

  // ---------------------------------------------------------------------
  // The parser object.

  /** A subunit being read: its id and its atoms, each atom's type and
      position kept together. */
  datatype LegacySubunit = LegacySubunit(id: int, atoms: seq<ParsedAtom>)

  /** What `parsePDB` returns: the models and the file info. */
  datatype LegacyFile = LegacyFile(models: seq<LegacyProtein>, fileInfo: FileInfo)

  function AtomsOf(subs: seq<LegacySubunit>): (gs: seq<seq<ParsedAtom>>)
    ensures |gs| == |subs| && forall k :: 0 <= k < |subs| ==> gs[k] == subs[k].atoms
  {
    seq(|subs|, k requires 0 <= k < |subs| => subs[k].atoms)
  }

  /** Appending to the last subunit's arrays appends to its atoms. */
  lemma AtomsOfAppendToLast(subs: seq<LegacySubunit>, a: ParsedAtom)
    requires subs != []
    ensures var last := subs[|subs| - 1];
      AtomsOf(subs[|subs| - 1 := last.(atoms := last.atoms + [a])]) == AppendToLast(AtomsOf(subs), a)
  {
  }

  /** The loop `while last?.isWhitespace { dropLast() }`. */
  method StripTrailingWhitespace(s: string) returns (r: string)
    ensures r == Text.TrimTrailingWhitespace(s)
  {
    r := s;
    while |r| > 0 && Text.IsWhitespace(r[|r| - 1])
      invariant Text.TrimTrailingWhitespace(r) == Text.TrimTrailingWhitespace(s)
      decreases |r|
    {
      r := r[..|r| - 1];
    }
  }

  /** The text of a TITLE or AUTHOR line: keyword columns dropped, newlines
      trimmed, trailing whitespace stripped. */
  method RecordText(line: string) returns (t: string)
    ensures t == HeaderText(line)
  {
    var raw := if |line| <= TitleKeywordLength then [] else line[TitleKeywordLength..];
    raw := Text.TrimNewlines(raw);
    t := StripTrailingWhitespace(raw);
  }

  /** The first loop of `createNewProtein`: the number of atoms, used only
      to reserve capacity. */
  method CountAtoms(subunits: seq<LegacySubunit>) returns (totalCount: nat)
    ensures totalCount == SizeSum(AtomsOf(subunits))
  {
    ghost var gs := AtomsOf(subunits);
    totalCount := 0;
    var j := 0;
    while j < |subunits|
      invariant j <= |subunits|
      invariant totalCount == SizeSum(gs[..j])
    {
      KeptSnoc(gs, j);
      totalCount := totalCount + |subunits[j].atoms|;
      j := j + 1;
    }
    assert gs[..j] == gs;
  }

  /** The concatenation loop: every subunit's positions and types appended
      in subunit order, line order within a subunit. */
  method AppendSubunitAtoms(atomArray: seq<Vec3>, atomIdentifiers: seq<nat>, subunits: seq<LegacySubunit>)
    returns (atomArray': seq<Vec3>, atomIdentifiers': seq<nat>)
    ensures atomArray' == atomArray + Positions(Flatten(AtomsOf(subunits)))
    ensures atomIdentifiers' == atomIdentifiers + Codes(Flatten(AtomsOf(subunits)))
  {
    ghost var gs := AtomsOf(subunits);
    atomArray', atomIdentifiers' := atomArray, atomIdentifiers;
    var j := 0;
    while j < |subunits|
      invariant j <= |subunits|
      invariant atomArray' == atomArray + Positions(Flatten(gs[..j]))
      invariant atomIdentifiers' == atomIdentifiers + Codes(Flatten(gs[..j]))
    {
      FlattenTakeSnoc(atomArray, atomIdentifiers, gs, j);
      atomArray' := atomArray' + Positions(subunits[j].atoms);
      atomIdentifiers' := atomIdentifiers' + Codes(subunits[j].atoms);
      j := j + 1;
    }
    assert gs[..j] == gs;
  }

  /** One more subunit's positions and types at the end of the flat arrays. */
  lemma FlattenTakeSnoc(ps: seq<Vec3>, cs: seq<nat>, gs: seq<seq<ParsedAtom>>, j: nat)
    requires j < |gs|
    ensures ps + Positions(Flatten(gs[..j])) + Positions(gs[j]) == ps + Positions(Flatten(gs[..j + 1]))
    ensures cs + Codes(Flatten(gs[..j])) + Codes(gs[j]) == cs + Codes(Flatten(gs[..j + 1]))
  {
    var f := Flatten(gs[..j]);
    Text.TakeSnoc(gs, j);
    FlattenSnoc(gs[..j], gs[j]);
    assert Flatten(gs[..j + 1]) == f + gs[j];
    PositionsAppend(f, gs[j]);
    CodesAppend(f, gs[j]);
    Text.SeqAssociative(ps, Positions(f), Positions(gs[j]));
    Text.SeqAssociative(cs, Codes(f), Codes(gs[j]));
  }

  /** The per-subunit compositions summed in subunit order. */
  function SubunitsTally(gs: seq<seq<ParsedAtom>>): Tally
    decreases |gs|
  {
    if gs == [] then Tally(0, 0, 0, 0, 0, 0)
    else AddTally(SubunitsTally(gs[..|gs| - 1]), TallyOfAtoms(gs[|gs| - 1]))
  }

  /** Summing per subunit counts every atom once. */
  lemma {:induction false} SubunitsTallyCountsAll(gs: seq<seq<ParsedAtom>>)
    ensures SubunitsTally(gs) == TallyOfAtoms(Flatten(gs))
    decreases |gs|
  {
    if gs != [] {
      SubunitsTallyCountsAll(gs[..|gs| - 1]);
      TallyOfAtomsAppend(Flatten(gs[..|gs| - 1]), gs[|gs| - 1]);
    }
  }

  /** The composition loop: each subunit's element counts added to the
      total. */
  method MergeSubunitCompositions(total: Tally, subunits: seq<LegacySubunit>) returns (total': Tally)
    ensures total' == AddTally(total, TallyOfAtoms(Flatten(AtomsOf(subunits))))
  {
    ghost var gs := AtomsOf(subunits);
    total' := total;
    var j := 0;
    while j < |subunits|
      invariant j <= |subunits|
      invariant total' == AddTally(total, SubunitsTally(gs[..j]))
    {
      SubunitsTallySnoc(gs, j);
      AddTallyAssociative(total, SubunitsTally(gs[..j]), TallyOfAtoms(gs[j]));
      total' := AddTally(total', TallyOfAtoms(subunits[j].atoms));
      j := j + 1;
    }
    assert j == |gs| && gs[..j] == gs;
    SubunitsTallyCountsAll(gs);
  }

  lemma SubunitsTallySnoc(gs: seq<seq<ParsedAtom>>, j: nat)
    requires j < |gs|
    ensures SubunitsTally(gs[..j + 1]) == AddTally(SubunitsTally(gs[..j]), TallyOfAtoms(gs[j]))
  {
    assert gs[..j + 1][..j] == gs[..j];
  }

  lemma AddTallyAssociative(a: Tally, b: Tally, c: Tally)
    ensures AddTally(AddTally(a, b), c) == AddTally(a, AddTally(b, c))
  {
  }

  /** The subunit list loop: empty subunits skipped, each kept one starting
      where the previous kept one ended. */
  method ListLegacySubunits(subunits: seq<LegacySubunit>) returns (proteinSubunits: seq<Subunit>)
    requires forall k :: 0 <= k < |subunits| ==> subunits[k].id == k
    ensures proteinSubunits == Kept(AtomsOf(subunits))
  {
    ghost var gs := AtomsOf(subunits);
    var subunitIndex: nat := 0;
    proteinSubunits := [];
    var j := 0;
    while j < |subunits|
      invariant j <= |subunits|
      invariant proteinSubunits == Kept(gs[..j])
      invariant subunitIndex == SizeSum(gs[..j])
    {
      var s := subunits[j];
      KeptSnoc(gs, j);
      if |s.atoms| != 0 {
        proteinSubunits := proteinSubunits + [Subunit(s.id, |s.atoms|, subunitIndex)];
        subunitIndex := subunitIndex + |s.atoms|;
      }
      j := j + 1;
    }
    assert gs[..j] == gs;
  }

  /** The body of `createNewProtein` before the reset, on the parser's
      fields: the flat arrays and the composition filled from the
      subunits, then the protein built from them. */
  method AssembleProtein(subunits: seq<LegacySubunit>, sequence: seq<string>, atomArray: seq<Vec3>,
                         atomIdentifiers: seq<nat>, total: Tally)
    returns (protein: LegacyProtein, atomArray': seq<Vec3>, atomIdentifiers': seq<nat>, total': Tally)
    requires forall k :: 0 <= k < |subunits| ==> subunits[k].id == k
    requires atomArray == [] && atomIdentifiers == [] && total == Tally(0, 0, 0, 0, 0, 0)
    ensures protein == ProteinFrom(AtomsOf(subunits), sequence)
  {
    var totalCount := CountAtoms(subunits);
    atomArray', atomIdentifiers' := AppendSubunitAtoms(atomArray, atomIdentifiers, subunits);
    total' := MergeSubunitCompositions(total, subunits);
    var proteinSubunits := ListLegacySubunits(subunits);
    protein := LegacyProtein(|proteinSubunits|, proteinSubunits, atomArray', atomIdentifiers', total', sequence);
  }

  /** The wrap-up loop: the first protein without atoms stops the import. */
  method AllHaveAtoms(proteins: seq<LegacyProtein>) returns (ok: bool)
    ensures ok <==> !HasEmptyProtein(proteins)
  {
    var k := 0;
    while k < |proteins|
      invariant k <= |proteins|
      invariant forall j :: 0 <= j < k ==> |proteins[j].atoms| > 0
    {
      if |proteins[k].atoms| == 0 {
        return false;
      }
      k := k + 1;
    }
    return true;
  }

  class LegacyPdbParser {
    var fileInfo: FileInfo
    var proteins: seq<LegacyProtein>
    var currentAtomArray: seq<Vec3>
    var currentAtomIdentifiers: seq<nat>
    var currentTotalComposition: Tally
    var currentSubunits: seq<LegacySubunit>
    var currentSubunitCount: nat
    var currentSequenceArray: seq<string>
    var currentSequenceIdentifiers: seq<int>
    var currentResId: int
    var currentLine: nat

    /** Between calls: one subunit per TER plus the first, each numbered by
        its position, and the flat arrays empty (they are filled and reset
        within `createNewProtein`). */
    ghost predicate Valid()
      reads this
    {
      && |currentSubunits| == currentSubunitCount + 1
      && (forall k :: 0 <= k < |currentSubunits| ==> currentSubunits[k].id == k)
      && currentAtomArray == [] && currentAtomIdentifiers == []
      && currentTotalComposition == Tally(0, 0, 0, 0, 0, 0)
    }

    function Model(): ModelScan
      reads this
    {
      ModelScan(AtomsOf(currentSubunits), currentSubunitCount, currentResId,
                currentSequenceIdentifiers, currentSequenceArray)
    }

    function State(): LegacyScan
      reads this
    {
      LegacyScan(Model(), proteins, fileInfo)
    }

    constructor ()
      ensures Valid()
      ensures State() == LegacyScan(FreshModel, [], FileInfo(None, None, None, [])) && currentLine == 0
    {
      fileInfo := FileInfo(None, None, None, []);
      proteins := [];
      currentAtomArray := [];
      currentAtomIdentifiers := [];
      currentTotalComposition := Tally(0, 0, 0, 0, 0, 0);
      currentSubunits := [LegacySubunit(0, [])];
      currentSubunitCount := 0;
      currentSequenceArray := [];
      currentSequenceIdentifiers := [];
      currentResId := -1;
      currentLine := 0;
    }

    /** `parseHeaderLine`: the id code, spaces removed. */
    method ParseHeaderLine(line: string)
      requires |line| >= PdbIdEnd
      modifies this`fileInfo
      ensures fileInfo == old(fileInfo).(pdbId := Some(Field(line, PdbIdRange)))
    {
      var pdbIdString := Field(line, PdbIdRange);
      fileInfo := fileInfo.(pdbId := Some(pdbIdString));
    }

    /** `parseTitleLine`: the line's text appended to the description, or
        starting it. */
    method ParseTitleLine(line: string)
      modifies this`fileInfo
      ensures fileInfo == old(fileInfo).(description := Some(old(fileInfo).description.GetOr("") + HeaderText(line)))
    {
      var rawTitleLine := RecordText(line);
      if fileInfo.description.Some? {
        fileInfo := fileInfo.(description := Some(fileInfo.description.value + rawTitleLine));
      } else {
        assert "" + rawTitleLine == rawTitleLine;
        fileInfo := fileInfo.(description := Some(rawTitleLine));
        return;
      }
    }

    /** `parseAuthorLine`: the same for the authors. */
    method ParseAuthorLine(line: string)
      modifies this`fileInfo
      ensures fileInfo == old(fileInfo).(authors := Some(old(fileInfo).authors.GetOr("") + HeaderText(line)))
    {
      var rawAuthorLine := RecordText(line);
      if fileInfo.authors.Some? {
        fileInfo := fileInfo.(authors := Some(fileInfo.authors.value + rawAuthorLine));
      } else {
        assert "" + rawAuthorLine == rawAuthorLine;
        fileInfo := fileInfo.(authors := Some(rawAuthorLine));
        return;
      }
    }

    /** The residue part of `parseAtom`: it reports whether the line starts
        a water residue, where the source returns early. */
    method ReadResidue(line: string, parseInt: string -> Option<int>) returns (isWater: bool)
      requires |line| >= ExpectedLineLength
      modifies this`fileInfo, this`currentResId, this`currentSequenceIdentifiers, this`currentSequenceArray
      ensures isWater == StartsWater(old(Model()), line, parseInt)
      ensures Model() == AfterResidue(old(Model()), line, parseInt)
      ensures fileInfo == old(fileInfo).(warningIndices := old(fileInfo).warningIndices +
        if parseInt(Field(line, ResIdRange)).None? then [currentLine] else [])
    {
      isWater := false;
      var resId := parseInt(Field(line, ResIdRange));
      if resId.Some? {
        if currentResId != resId.value {
          currentResId := resId.value;
          currentSequenceIdentifiers := currentSequenceIdentifiers + [resId.value];
          var resName := Field(line, ResNameRange);
          if Text.Contains(resName, "HOH") {
            isWater := true;
            return;
          }
          currentSequenceArray := currentSequenceArray + [resName];
        }
      } else {
        fileInfo := fileInfo.(warningIndices := fileInfo.warningIndices + [currentLine]);
      }
    }

    /** `parseAtom`: the length guard, then the rest of the record. */
    method ParseAtom(line: string, parseReal: string -> Option<real>, parseInt: string -> Option<int>,
                     atomId: string -> nat)
      requires Valid()
      modifies this`fileInfo, this`currentResId, this`currentSequenceIdentifiers, this`currentSequenceArray,
        this`currentSubunits
      ensures Valid()
      ensures Model() == ModelAfterAtom(old(Model()), line, parseReal, parseInt, atomId)
      ensures fileInfo == old(fileInfo).(warningIndices := old(fileInfo).warningIndices +
        AtomWarnings(old(Model()), line, currentLine, parseReal, parseInt))
    {
      if |line| < ExpectedLineLength {
        fileInfo := fileInfo.(warningIndices := fileInfo.warningIndices + [currentLine]);
        return;
      }
      ParseLongAtom(line, parseReal, parseInt, atomId);
    }

    /** The part of `parseAtom` past the length guard: the residue
        bookkeeping with its early return on water, then the coordinates. */
    method ParseLongAtom(line: string, parseReal: string -> Option<real>, parseInt: string -> Option<int>,
                         atomId: string -> nat)
      requires Valid() && |line| >= ExpectedLineLength
      modifies this`fileInfo, this`currentResId, this`currentSequenceIdentifiers, this`currentSequenceArray,
        this`currentSubunits
      ensures Valid()
      ensures Model() == ModelAfterAtom(old(Model()), line, parseReal, parseInt, atomId)
      ensures fileInfo == old(fileInfo).(warningIndices := old(fileInfo).warningIndices +
        AtomWarnings(old(Model()), line, currentLine, parseReal, parseInt))
    {
      var isWater := ReadResidue(line, parseInt);
      if isWater {
        return;
      }
      ReadCoordinates(line, parseReal, atomId);
    }

    /** The coordinates of `parseAtom`: unreadable ones record a warning,
        readable ones put the atom, z negated, at the end of the last
        subunit. */
    method ReadCoordinates(line: string, parseReal: string -> Option<real>, atomId: string -> nat)
      requires Valid() && |line| >= ExpectedLineLength
      modifies this`fileInfo, this`currentSubunits
      ensures Valid()
      ensures Model() == match LegacyReading(line, parseReal, atomId)
        case Some(a) => old(Model()).(groups := AppendToLast(old(Model()).groups, a))
        case None => old(Model())
      ensures fileInfo == old(fileInfo).(warningIndices := old(fileInfo).warningIndices +
        if ReadPosition(line, parseReal).Some? then [] else [currentLine])
    {
      var element := atomId(Field(line, ElementRange));
      var position := ReadPosition(line, parseReal);
      if position.None? {
        fileInfo := fileInfo.(warningIndices := fileInfo.warningIndices + [currentLine]);
        return;
      }
      var p := position.value;
      var z := -p.z;
      var atom := ParsedAtom(element, Vec3(p.x, p.y, z));
      assert LegacyReading(line, parseReal, atomId) == Some(atom);
      var last := currentSubunits[|currentSubunits| - 1];
      AtomsOfAppendToLast(currentSubunits, atom);
      ghost var m := Model().(groups := AppendToLast(Model().groups, atom));
      currentSubunits := currentSubunits[|currentSubunits| - 1 := last.(atoms := last.atoms + [atom])];
      assert Model() == m;
    }

    /** `resetProteinVariables`: back to one empty subunit of id 0, no
        residues and empty flat arrays. */
    method ResetProteinVariables()
      modifies this`currentAtomArray, this`currentAtomIdentifiers, this`currentTotalComposition, this`currentSubunits,
        this`currentSubunitCount, this`currentSequenceArray, this`currentSequenceIdentifiers, this`currentResId
      ensures Valid() && Model() == FreshModel
    {
      currentAtomArray := [];
      currentAtomIdentifiers := [];
      currentTotalComposition := Tally(0, 0, 0, 0, 0, 0);
      currentSubunits := [LegacySubunit(0, [])];
      currentSubunitCount := 0;
      currentSequenceArray := [];
      currentSequenceIdentifiers := [];
      currentResId := -1;
    }

    /** `createNewProtein`: the current model becomes the next protein and
        the model is reset. */
    method CreateNewProtein()
      requires Valid()
      modifies this`proteins, this`currentAtomArray, this`currentAtomIdentifiers, this`currentTotalComposition,
        this`currentSubunits, this`currentSubunitCount, this`currentSequenceArray, this`currentSequenceIdentifiers,
        this`currentResId
      ensures Valid() && Model() == FreshModel
      ensures proteins == old(proteins) + [ProteinOf(old(Model()))]
    {
      var protein;
      protein, currentAtomArray, currentAtomIdentifiers, currentTotalComposition :=
        AssembleProtein(currentSubunits, currentSequenceArray, currentAtomArray, currentAtomIdentifiers,
                        currentTotalComposition);
      proteins := proteins + [protein];
      ResetProteinVariables();
    }

    /** `createLastProteinIfNeeded`: without any ENDMDL, the whole model is
        the one protein. */
    method CreateLastProteinIfNeeded()
      requires Valid()
      modifies this`proteins, this`currentAtomArray, this`currentAtomIdentifiers, this`currentTotalComposition,
        this`currentSubunits, this`currentSubunitCount, this`currentSequenceArray, this`currentSequenceIdentifiers,
        this`currentResId
      ensures Valid()
      ensures proteins == FinalProteins(old(State()))
      ensures Model() == if old(proteins) == [] then FreshModel else old(Model())
    {
      if |proteins| == 0 {
        CreateNewProtein();
      }
    }

    /** One pass of the line loop: the record chain, with the guards that
        keep known header fields. */
    method ParseLine(line: string, known: KnownInfo, parseReal: string -> Option<real>, parseInt: string -> Option<int>,
                     atomId: string -> nat)
      requires Valid()
      requires Text.StartsWith(line, HeaderKeyword) && known.pdbId.None? ==> |line| >= PdbIdEnd
      modifies this`fileInfo, this`proteins, this`currentAtomArray, this`currentAtomIdentifiers,
        this`currentTotalComposition, this`currentSubunits, this`currentSubunitCount, this`currentSequenceArray,
        this`currentSequenceIdentifiers, this`currentResId
      ensures Valid()
      ensures State() == LineStep(old(State()), line, currentLine, known, parseReal, parseInt, atomId)
    {
      if Text.StartsWith(line, AtomKeyword) || Text.StartsWith(line, HetatmKeyword) {
        ParseAtom(line, parseReal, parseInt, atomId);
      } else {
        ParseOtherRecord(line, known, parseReal, parseInt, atomId);
      }
    }

    /** The chain past the ATOM and HETATM records: HELIX and SHEET are
        ignored, the header records fill what is not known. */
    method ParseOtherRecord(line: string, known: KnownInfo, parseReal: string -> Option<real>,
                            parseInt: string -> Option<int>, atomId: string -> nat)
      requires Valid() && !IsAtomRecord(line)
      requires Text.StartsWith(line, HeaderKeyword) && known.pdbId.None? ==> |line| >= PdbIdEnd
      modifies this`fileInfo, this`proteins, this`currentAtomArray, this`currentAtomIdentifiers,
        this`currentTotalComposition, this`currentSubunits, this`currentSubunitCount, this`currentSequenceArray,
        this`currentSequenceIdentifiers, this`currentResId
      ensures Valid()
      ensures State() == LineStep(old(State()), line, currentLine, known, parseReal, parseInt, atomId)
    {
      if Text.StartsWith(line, HelixKeyword) {
      } else if Text.StartsWith(line, SheetKeyword) {
      } else if Text.StartsWith(line, HeaderKeyword) || Text.StartsWith(line, TitleKeyword)
             || Text.StartsWith(line, AuthorKeyword) {
        ParseInfoRecord(line, known, parseReal, parseInt, atomId);
      } else {
        ParseModelRecord(line, known, parseReal, parseInt, atomId);
      }
    }

    /** The header records fill what is not known. */
    method ParseInfoRecord(line: string, known: KnownInfo, parseReal: string -> Option<real>,
                           parseInt: string -> Option<int>, atomId: string -> nat)
      requires Valid() && !IsAtomRecord(line)
      requires !Text.StartsWith(line, HelixKeyword) && !Text.StartsWith(line, SheetKeyword)
      requires Text.StartsWith(line, HeaderKeyword) || Text.StartsWith(line, TitleKeyword)
               || Text.StartsWith(line, AuthorKeyword)
      requires Text.StartsWith(line, HeaderKeyword) && known.pdbId.None? ==> |line| >= PdbIdEnd
      modifies this`fileInfo
      ensures Valid()
      ensures State() == LineStep(old(State()), line, currentLine, known, parseReal, parseInt, atomId)
    {
      if Text.StartsWith(line, HeaderKeyword) {
        if known.pdbId.Some? {
          return;
        }
        ParseHeaderLine(line);
      } else if Text.StartsWith(line, TitleKeyword) {
        if known.description.Some? {
          return;
        }
        ParseTitleLine(line);
      } else {
        if known.authors.Some? {
          return;
        }
        ParseAuthorLine(line);
      }
    }

    /** The end of the chain: TER opens the next subunit, ENDMDL turns the
        model into a protein. */
    method ParseModelRecord(line: string, known: KnownInfo, parseReal: string -> Option<real>,
                            parseInt: string -> Option<int>, atomId: string -> nat)
      requires Valid() && !IsAtomRecord(line)
      requires !Text.StartsWith(line, HelixKeyword) && !Text.StartsWith(line, SheetKeyword)
      requires !Text.StartsWith(line, HeaderKeyword) && !Text.StartsWith(line, TitleKeyword)
      requires !Text.StartsWith(line, AuthorKeyword)
      modifies this`proteins, this`currentAtomArray, this`currentAtomIdentifiers,
        this`currentTotalComposition, this`currentSubunits, this`currentSubunitCount, this`currentSequenceArray,
        this`currentSequenceIdentifiers, this`currentResId
      ensures Valid()
      ensures State() == LineStep(old(State()), line, currentLine, known, parseReal, parseInt, atomId)
    {
      if Text.StartsWith(line, TerKeyword) {
        currentSubunitCount := currentSubunitCount + 1;
        currentSubunits := currentSubunits + [LegacySubunit(currentSubunitCount, [])];
      } else if Text.StartsWith(line, EndmdlKeyword) {
        CreateNewProtein();
      }
    }

    /** The line loop of `parsePDB`: the counter is advanced, then the line
        is read. */
    method ReadLines(lines: seq<string>, known: KnownInfo, parseReal: string -> Option<real>,
                     parseInt: string -> Option<int>, atomId: string -> nat)
      requires Valid()
      requires known.pdbId.None? ==> HeadersReadable(lines)
      modifies this`fileInfo, this`proteins, this`currentAtomArray, this`currentAtomIdentifiers,
        this`currentTotalComposition, this`currentSubunits, this`currentSubunitCount, this`currentSequenceArray,
        this`currentSequenceIdentifiers, this`currentResId, this`currentLine
      ensures Valid()
      ensures currentLine == old(currentLine) + |lines|
      ensures State() == Run(old(State()), lines, old(currentLine), known, parseReal, parseInt, atomId)
    {
      ghost var s0, first := State(), currentLine;
      var i := 0;
      while i < |lines|
        invariant i <= |lines|
        invariant Valid()
        invariant currentLine == first + i
        invariant State() == Run(s0, lines[..i], first, known, parseReal, parseInt, atomId)
      {
        var line := lines[i];
        RunSnoc(s0, lines, i, first, known, parseReal, parseInt, atomId);
        currentLine := currentLine + 1;
        ParseLine(line, known, parseReal, parseInt, atomId);
        i := i + 1;
      }
      assert lines[..i] == lines;
    }

    /** `parsePDB`: the file info starts from what is known, the lines of
        the text are read in order with the counter advanced before each,
        the last model becomes a protein if no ENDMDL did, and the file is
        rejected when any protein has no atoms. */
    method ParsePdb(rawText: string, known: KnownInfo, parseReal: string -> Option<real>,
                    parseInt: string -> Option<int>, atomId: string -> nat)
      returns (r: Result<LegacyFile, ImportError>)
      requires Valid()
      requires known.pdbId.None? ==> HeadersReadable(Text.Split(rawText, '\n'))
      modifies this
      ensures Valid()
      ensures var lines := Text.Split(rawText, '\n');
        var s := Run(Begin(old(Model()), old(proteins), known), lines, old(currentLine), known, parseReal, parseInt, atomId);
        && currentLine == old(currentLine) + |lines|
        && fileInfo == s.info
        && proteins == FinalProteins(s)
        && (r.Err? <==> HasEmptyProtein(proteins))
        && (r.Ok? ==> r.value == LegacyFile(proteins, fileInfo))
    {
      ghost var m0, p0 := Model(), proteins;
      fileInfo := FileInfo(known.pdbId, known.description, known.authors, []);
      assert State() == Begin(m0, p0, known);
      var lines := Text.Split(rawText, '\n');
      ReadLines(lines, known, parseReal, parseInt, atomId);
      CreateLastProteinIfNeeded();
      var allHaveAtoms := AllHaveAtoms(proteins);
      if !allHaveAtoms {
        return Err(EmptyAtomCount);
      }
      r := Ok(LegacyFile(proteins, fileInfo));
    }
  }
}
