/** The app's current PDB reader (`parsePDBLike`): one pass over the lines
    collects HEADER/TITLE/AUTHOR information, opens a new subunit at every
    TER record and files every accepted ATOM record into the per-element
    arrays of the current subunit; afterwards the subunits are laid out one
    after another, each in C, N, H, O, S, others order, and the non-empty
    subunits are listed with their start offsets. */
module ParsePdb {
  import opened Wrappers
  import Text
  import opened Geometry
  import opened PdbConstants
  import opened PdbAtoms

  /** The header values the caller already knows (`originalFileInfo`); a
      known value is never overwritten. */
  datatype KnownInfo = KnownInfo(pdbId: Option<string>, description: Option<string>, authors: Option<string>)

  /** `ProteinFileInfo(pdbID: originalFileInfo?.pdbID, ...)`: the caller's
      values, or none at all when it passed no file info. */
  function Inherited(originalFileInfo: Option<KnownInfo>): (r: KnownInfo)
    ensures originalFileInfo.Some? ==> r == originalFileInfo.value
    ensures originalFileInfo.None? ==> r.pdbId.None? && r.description.None? && r.authors.None?
  {
    match originalFileInfo
    case Some(k) => k
    case None => KnownInfo(None, None, None)
  }

  /** The app's `ProteinSubunit(id:atomCount:indexStart:)`. */
  datatype Subunit = Subunit(id: int, atomCount: nat, indexStart: nat)

  /** One `ParsedSubunit`: its id and its per-element arrays. */
  datatype ParsedSubunit = ParsedSubunit(id: int, buckets: ElementBuckets)

  datatype ImportError = EmptyAtomCount

  /** What the reader hands to `Protein` and `ProteinFileInfo`. */
  datatype PdbFile = PdbFile(
    configurationCount: nat, subunitCount: nat, subunits: seq<Subunit>,
    atoms: seq<Vec3>, atomIdentifiers: seq<nat>, composition: Tally,
    sequence: seq<string>, sequenceIdentifiers: seq<int>,
    pdbId: Option<string>, description: Option<string>, authors: Option<string>,
    warningIndices: seq<nat>)

  // ---------------------------------------------------------------------
  // Specification of the line scan, one concern at a time.

  /** Number of TER records. */
  function TerCount(lines: seq<string>): nat
    decreases |lines|
  {
    if lines == [] then 0
    else TerCount(lines[..|lines| - 1]) + (if Text.StartsWith(lines[|lines| - 1], TerKeyword) then 1 else 0)
  }

  /** The accepted atoms of each subunit, in reading order: the list starts
      with one empty subunit, a TER record opens the next one, and an
      accepted atom joins the last one. */
  function Groups(lines: seq<string>, parseReal: string -> Option<real>, atomId: string -> nat): (gs: seq<seq<ParsedAtom>>)
    ensures |gs| == TerCount(lines) + 1
    decreases |lines|
  {
    if lines == [] then [[]]
    else
      var gs := Groups(lines[..|lines| - 1], parseReal, atomId);
      var line := lines[|lines| - 1];
      if Text.StartsWith(line, TerKeyword) then gs + [[]]
      else
        match AcceptedAtom(line, parseReal, atomId)
        case Some(a) => gs[..|gs| - 1] + [gs[|gs| - 1] + [a]]
        case None => gs
  }

  function Flatten(gs: seq<seq<ParsedAtom>>): seq<ParsedAtom>
    decreases |gs|
  {
    if gs == [] then [] else Flatten(gs[..|gs| - 1]) + gs[|gs| - 1]
  }

  function SizeSum(gs: seq<seq<ParsedAtom>>): nat
    decreases |gs|
  {
    if gs == [] then 0 else SizeSum(gs[..|gs| - 1]) + |gs[|gs| - 1]|
  }

  /** The output layout: the subunits one after another, each grouped by
      element. */
  function Layout(gs: seq<seq<ParsedAtom>>): (xs: seq<ParsedAtom>)
    ensures |xs| == SizeSum(gs)
    decreases |gs|
  {
    if gs == [] then []
    else
      GroupedPermutation(gs[|gs| - 1]);
      Layout(gs[..|gs| - 1]) + Grouped(gs[|gs| - 1])
  }

  /** Kept subunits are consecutive slices of the layout: the first starts
      at 0, each starts where the previous one ends, and the last ends at
      `total`. */
  predicate Packed(subs: seq<Subunit>, total: nat) {
    (subs == [] ==> total == 0) &&
    (subs != [] ==> subs[0].indexStart == 0 && subs[|subs| - 1].indexStart + subs[|subs| - 1].atomCount == total) &&
    (forall k :: 0 <= k < |subs| - 1 ==> subs[k + 1].indexStart == subs[k].indexStart + subs[k].atomCount)
  }

  /** The subunit list: one entry per non-empty group, with the group's
      position as id, its size as atom count and the sizes of the groups
      before it as start index. */
  function Kept(gs: seq<seq<ParsedAtom>>): (subs: seq<Subunit>)
    ensures forall k :: 0 <= k < |subs| ==>
      0 <= subs[k].id < |gs| && subs[k].atomCount == |gs[subs[k].id]| && subs[k].atomCount > 0
    decreases |gs|
  {
    if gs == [] then []
    else
      var init := gs[..|gs| - 1];
      var prev := Kept(init);
      assert forall k :: 0 <= k < |prev| ==> init[prev[k].id] == gs[prev[k].id];
      if |gs[|gs| - 1]| == 0 then prev
      else prev + [Subunit(|gs| - 1, |gs[|gs| - 1]|, SizeSum(init))]
  }

  /** Kept subunits appear in group order. */
  lemma {:induction false} KeptIdsIncrease(gs: seq<seq<ParsedAtom>>)
    ensures forall i, j :: 0 <= i < j < |Kept(gs)| ==> Kept(gs)[i].id < Kept(gs)[j].id
    decreases |gs|
  {
    if gs != [] {
      var init := gs[..|gs| - 1];
      KeptIdsIncrease(init);
      var prev := Kept(init);
      var subs := Kept(gs);
      if |gs[|gs| - 1]| > 0 {
        assert subs == prev + [Subunit(|gs| - 1, |gs[|gs| - 1]|, SizeSum(init))];
        forall i, j | 0 <= i < j < |subs| ensures subs[i].id < subs[j].id {
          assert subs[i] == prev[i];
          if j < |prev| {
            assert subs[j] == prev[j];
          }
        }
      }
    }
  }

  /** Every non-empty group is kept (and, by `Kept`'s contract, only
      those). */
  lemma {:induction false} KeptComplete(gs: seq<seq<ParsedAtom>>, i: int)
    requires 0 <= i < |gs| && |gs[i]| > 0
    ensures exists k :: 0 <= k < |Kept(gs)| && Kept(gs)[k].id == i
    decreases |gs|
  {
    var init := gs[..|gs| - 1];
    var prev := Kept(init);
    if i < |gs| - 1 {
      assert init[i] == gs[i];
      KeptComplete(init, i);
      var k :| 0 <= k < |prev| && prev[k].id == i;
      assert Kept(gs)[k] == prev[k];
    } else {
      assert Kept(gs)[|Kept(gs)| - 1].id == i;
    }
  }

  /** The kept subunits are consecutive slices covering the whole layout. */
  lemma {:induction false} KeptPacked(gs: seq<seq<ParsedAtom>>)
    ensures Packed(Kept(gs), SizeSum(gs))
    decreases |gs|
  {
    if gs != [] {
      var init := gs[..|gs| - 1];
      KeptPacked(init);
      var prev := Kept(init);
      if |gs[|gs| - 1]| > 0 {
        var subs := Kept(gs);
        assert subs == prev + [Subunit(|gs| - 1, |gs[|gs| - 1]|, SizeSum(init))];
        forall k | 0 <= k < |subs| - 1
          ensures subs[k + 1].indexStart == subs[k].indexStart + subs[k].atomCount
        {
          if k < |prev| - 1 {
            assert subs[k] == prev[k] && subs[k + 1] == prev[k + 1];
          }
        }
      }
    }
  }

  /** The warnings one line records, by 1-based line number `n`: a short
      ATOM line records one; a long one records one for an unreadable
      residue id and one for unreadable coordinates. */
  function LineWarnings(line: string, n: nat, parseReal: string -> Option<real>, parseInt: string -> Option<int>): (r: seq<nat>)
    ensures forall k :: 0 <= k < |r| ==> r[k] == n
  {
    if !Text.StartsWith(line, AtomKeyword) then []
    else if |line| < ExpectedLineLength then [n]
    else
      (if parseInt(Field(line, ResIdRange)).None? then [n] else []) +
      (if ReadPosition(line, parseReal).None? then [n] else [])
  }

  function Warnings(lines: seq<string>, parseReal: string -> Option<real>, parseInt: string -> Option<int>): seq<nat>
    decreases |lines|
  {
    if lines == [] then []
    else Warnings(lines[..|lines| - 1], parseReal, parseInt) + LineWarnings(lines[|lines| - 1], |lines|, parseReal, parseInt)
  }

  /** HEADER lines are sliced up to the end of the id code; a shorter one
      traps in the source, so callers must not pass one. */
  predicate HeadersReadable(lines: seq<string>) {
    forall i :: 0 <= i < |lines| && Text.StartsWith(lines[i], HeaderKeyword) ==> |lines[i]| >= PdbIdEnd
  }

  /** The id code of the last HEADER line, if any. */
  function LastHeaderId(lines: seq<string>): Option<string>
    requires HeadersReadable(lines)
    decreases |lines|
  {
    if lines == [] then None
    else if Text.StartsWith(lines[|lines| - 1], HeaderKeyword) then Some(Field(lines[|lines| - 1], PdbIdRange))
    else
      assert forall i :: 0 <= i < |lines| - 1 ==> lines[..|lines| - 1][i] == lines[i];
      LastHeaderId(lines[..|lines| - 1])
  }

  /** `atomArrayComposition` counters of a run of atoms: how many carry
      each code. */
  function TallyOfAtoms(xs: seq<ParsedAtom>): Tally {
    Tally(|WithCode(xs, CarbonCode)|, |WithCode(xs, NitrogenCode)|, |WithCode(xs, HydrogenCode)|,
          |WithCode(xs, OxygenCode)|, |WithCode(xs, SulfurCode)|, |OthersOf(xs)|)
  }

  /** The sum of the subunits' compositions, as `+=` accumulates it. */
  function GroupsTally(gs: seq<seq<ParsedAtom>>): Tally
    decreases |gs|
  {
    if gs == [] then Tally(0, 0, 0, 0, 0, 0)
    else AddTally(GroupsTally(gs[..|gs| - 1]), TallyOf(BucketsOf(gs[|gs| - 1])))
  }

  // ---------------------------------------------------------------------
  // Properties of the specification.

  lemma FlattenSnoc(gs: seq<seq<ParsedAtom>>, g: seq<ParsedAtom>)
    ensures Flatten(gs + [g]) == Flatten(gs) + g
  {
    assert (gs + [g])[..|gs|] == gs;
  }

  /** Reading the subunits back in order gives the accepted atoms in line
      order: grouping into subunits loses and reorders nothing. */
  lemma {:induction false} GroupsFlatten(lines: seq<string>, parseReal: string -> Option<real>, atomId: string -> nat)
    ensures Flatten(Groups(lines, parseReal, atomId)) == AcceptedAtoms(lines, parseReal, atomId)
    decreases |lines|
  {
    if lines != [] {
      var init := lines[..|lines| - 1];
      var line := lines[|lines| - 1];
      var gs := Groups(init, parseReal, atomId);
      GroupsFlatten(init, parseReal, atomId);
      TerIsNotAtom(line);
      if Text.StartsWith(line, TerKeyword) {
        FlattenSnoc(gs, []);
      } else if AcceptedAtom(line, parseReal, atomId).Some? {
        GroupStepFlatten(gs, AcceptedAtom(line, parseReal, atomId).value);
      }
    }
  }

  /** An atom added to the last subunit comes last when the subunits are
      read back in order. */
  lemma GroupStepFlatten(gs: seq<seq<ParsedAtom>>, a: ParsedAtom)
    requires gs != []
    ensures Flatten(gs[..|gs| - 1] + [gs[|gs| - 1] + [a]]) == Flatten(gs) + [a]
  {
    var front, g := gs[..|gs| - 1], gs[|gs| - 1];
    assert gs == front + [g];
    FlattenSnoc(front, g);
    FlattenSnoc(front, g + [a]);
    var f := Flatten(front);
    assert Flatten(gs) == f + g;
    Text.SeqAssociative(f, g, [a]);
  }

  lemma TerIsNotAtom(line: string)
    ensures Text.StartsWith(line, TerKeyword) ==> !Text.StartsWith(line, AtomKeyword)
  {
    Text.PrefixesDiffer(line, TerKeyword, AtomKeyword, 0);
  }

  lemma {:induction false} LayoutPermutation(gs: seq<seq<ParsedAtom>>)
    ensures multiset(Layout(gs)) == multiset(Flatten(gs))
    decreases |gs|
  {
    if gs != [] {
      LayoutPermutation(gs[..|gs| - 1]);
      GroupedPermutation(gs[|gs| - 1]);
    }
  }

  /** The output atoms are a permutation of the accepted atoms. */
  lemma LayoutIsPermutationOfAccepted(lines: seq<string>, parseReal: string -> Option<real>, atomId: string -> nat)
    ensures multiset(Layout(Groups(lines, parseReal, atomId))) == multiset(AcceptedAtoms(lines, parseReal, atomId))
    ensures |Layout(Groups(lines, parseReal, atomId))| == |AcceptedAtoms(lines, parseReal, atomId)|
  {
    var gs := Groups(lines, parseReal, atomId);
    LayoutPermutation(gs);
    GroupsFlatten(lines, parseReal, atomId);
    assert |multiset(Layout(gs))| == |multiset(AcceptedAtoms(lines, parseReal, atomId))|;
  }

  lemma TallyOfBuckets(xs: seq<ParsedAtom>)
    ensures TallyOf(BucketsOf(xs)) == TallyOfAtoms(xs)
  {
  }

  lemma CountAppend(xs: seq<ParsedAtom>, ys: seq<ParsedAtom>, c: nat)
    ensures |WithCode(xs + ys, c)| == |WithCode(xs, c)| + |WithCode(ys, c)|
  {
    WithCodeAppend(xs, ys, c);
  }

  lemma OthersCountAppend(xs: seq<ParsedAtom>, ys: seq<ParsedAtom>)
    ensures |OthersOf(xs + ys)| == |OthersOf(xs)| + |OthersOf(ys)|
  {
    OthersAppend(xs, ys);
  }

  lemma {:induction false} TallyOfAtomsAppend(xs: seq<ParsedAtom>, ys: seq<ParsedAtom>)
    ensures TallyOfAtoms(xs + ys) == AddTally(TallyOfAtoms(xs), TallyOfAtoms(ys))
  {
    CountAppend(xs, ys, CarbonCode);
    CountAppend(xs, ys, NitrogenCode);
    CountAppend(xs, ys, HydrogenCode);
    CountAppend(xs, ys, OxygenCode);
    CountAppend(xs, ys, SulfurCode);
    OthersCountAppend(xs, ys);
  }

  /** The merged composition counts, per code, the atoms of all subunits. */
  lemma {:induction false} GroupsTallyCountsAll(gs: seq<seq<ParsedAtom>>)
    ensures GroupsTally(gs) == TallyOfAtoms(Flatten(gs))
    decreases |gs|
  {
    if gs != [] {
      GroupsTallyCountsAll(gs[..|gs| - 1]);
      TallyOfBuckets(gs[|gs| - 1]);
      TallyOfAtomsAppend(Flatten(gs[..|gs| - 1]), gs[|gs| - 1]);
    }
  }

  /** The composition's total is the number of atoms it counts. */
  lemma TallyOfAtomsTotal(xs: seq<ParsedAtom>)
    ensures TotalCount(TallyOfAtoms(xs)) == |xs|
  {
    BucketsLayout(xs);
    TallyOfBuckets(xs);
  }

  /** A warning at line `n` means that line is an ATOM record that was cut
      short or had an unreadable field; nothing else records one. */
  lemma {:induction false} WarningsMeaning(lines: seq<string>, n: nat, parseReal: string -> Option<real>, parseInt: string -> Option<int>)
    ensures n in Warnings(lines, parseReal, parseInt) <==>
      1 <= n <= |lines| && LineWarnings(lines[n - 1], n, parseReal, parseInt) != []
    decreases |lines|
  {
    if lines != [] {
      var init := lines[..|lines| - 1];
      WarningsMeaning(init, n, parseReal, parseInt);
      var last := LineWarnings(lines[|lines| - 1], |lines|, parseReal, parseInt);
      assert Warnings(lines, parseReal, parseInt) == Warnings(init, parseReal, parseInt) + last;
      assert n in last <==> n == |lines| && last != [] by {
        if last != [] { assert last[0] == |lines|; }
      }
      if n < |lines| && n >= 1 {
        assert init[n - 1] == lines[n - 1];
      }
    }
  }

  /** Every ATOM record that yields no atom records a warning. */
  lemma RejectedAtomIsWarned(line: string, n: nat, parseReal: string -> Option<real>, parseInt: string -> Option<int>, atomId: string -> nat)
    requires Text.StartsWith(line, AtomKeyword)
    ensures AcceptedAtom(line, parseReal, atomId).None? ==> n in LineWarnings(line, n, parseReal, parseInt)
    ensures AcceptedAtom(line, parseReal, atomId).Some? ==>
      (n in LineWarnings(line, n, parseReal, parseInt) <==> LineResidueId(line, parseInt).None?)
  {
  }

  // ---------------------------------------------------------------------
  // The reader.

  /** The parsed subunits hold, in order, the buckets of the groups. */
  predicate Mirrors(subunits: seq<ParsedSubunit>, gs: seq<seq<ParsedAtom>>) {
    |subunits| == |gs| && forall k :: 0 <= k < |subunits| ==> subunits[k] == ParsedSubunit(k, BucketsOf(gs[k]))
  }

  /** The ATOM branch of the line closure, for line number `currentLine`:
      length check, residue bookkeeping, element lookup, coordinates, and
      the element switch on the last subunit. */
  method ReadAtomRecord(line: string, currentLine: nat, subunits: seq<ParsedSubunit>, warningIndices: seq<nat>,
                        currentResId: int, sequenceIdentifiers: seq<int>, sequenceArray: seq<string>,
                        parseReal: string -> Option<real>, parseInt: string -> Option<int>, atomId: string -> nat)
    returns (subunits': seq<ParsedSubunit>, warningIndices': seq<nat>,
             currentResId': int, sequenceIdentifiers': seq<int>, sequenceArray': seq<string>)
    requires Text.StartsWith(line, AtomKeyword) && |subunits| > 0
    ensures ResidueTrack(currentResId', sequenceIdentifiers', sequenceArray') ==
      ResidueStep(ResidueTrack(currentResId, sequenceIdentifiers, sequenceArray), line, parseInt)
    ensures warningIndices' == warningIndices + LineWarnings(line, currentLine, parseReal, parseInt)
    ensures var last := subunits[|subunits| - 1];
      subunits' == subunits[|subunits| - 1 := match AcceptedAtom(line, parseReal, atomId)
        case Some(a) => last.(buckets := AddAtom(last.buckets, a))
        case None => last]
  {
    subunits', warningIndices' := subunits, warningIndices;
    currentResId', sequenceIdentifiers', sequenceArray' := currentResId, sequenceIdentifiers, sequenceArray;
    if |line| < ExpectedLineLength {
      warningIndices' := warningIndices' + [currentLine];
      return;
    }
    var resId := parseInt(Field(line, ResIdRange));
    if resId.Some? {
      if currentResId != resId.value {
        currentResId' := resId.value;
        sequenceIdentifiers' := sequenceIdentifiers + [resId.value];
        sequenceArray' := sequenceArray + [Field(line, ResNameRange)];
      }
    } else {
      warningIndices' := warningIndices' + [currentLine];
    }
    var element := atomId(Field(line, ElementRange));
    var position := ReadPosition(line, parseReal);
    if position.None? {
      warningIndices' := warningIndices' + [currentLine];
      return;
    }
    var last := subunits[|subunits| - 1];
    var b := last.buckets;
    var p := position.value;
    if element == CarbonCode {
      b := b.(carbon := b.carbon + [p]);
    } else if element == NitrogenCode {
      b := b.(nitrogen := b.nitrogen + [p]);
    } else if element == HydrogenCode {
      b := b.(hydrogen := b.hydrogen + [p]);
    } else if element == OxygenCode {
      b := b.(oxygen := b.oxygen + [p]);
    } else if element == SulfurCode {
      b := b.(sulfur := b.sulfur + [p]);
    } else {
      b := b.(others := b.others + [p], othersIds := b.othersIds + [element]);
    }
    subunits' := subunits[|subunits| - 1 := last.(buckets := b)];
  }

  /** One step of the specification: how the accepted-atom groups evolve
      over an ATOM line. */
  lemma GroupsStepAtom(pre: seq<string>, line: string, subunits: seq<ParsedSubunit>, parseReal: string -> Option<real>, atomId: string -> nat)
    requires Text.StartsWith(line, AtomKeyword)
    requires Mirrors(subunits, Groups(pre, parseReal, atomId))
    ensures var last := subunits[|subunits| - 1];
      Mirrors(subunits[|subunits| - 1 := match AcceptedAtom(line, parseReal, atomId)
        case Some(a) => last.(buckets := AddAtom(last.buckets, a))
        case None => last], Groups(pre + [line], parseReal, atomId))
  {
    var lines := pre + [line];
    assert lines[..|lines| - 1] == pre;
    TerIsNotAtom(line);
    var gs := Groups(pre, parseReal, atomId);
    var gs' := Groups(lines, parseReal, atomId);
    var n := |subunits| - 1;
    var last := subunits[n];
    match AcceptedAtom(line, parseReal, atomId)
    case Some(a) =>
      assert gs' == gs[..n] + [gs[n] + [a]];
      MirrorsAddLast(subunits, gs, a);
    case None =>
      assert gs' == gs;
  }

  /** An atom filed into the last subunit is an atom appended to the last
      group. */
  lemma MirrorsAddLast(subunits: seq<ParsedSubunit>, gs: seq<seq<ParsedAtom>>, a: ParsedAtom)
    requires |subunits| > 0 && Mirrors(subunits, gs)
    ensures var n := |subunits| - 1;
      Mirrors(subunits[n := subunits[n].(buckets := AddAtom(subunits[n].buckets, a))], gs[..n] + [gs[n] + [a]])
  {
    var n := |subunits| - 1;
    var subs' := subunits[n := subunits[n].(buckets := AddAtom(subunits[n].buckets, a))];
    var gs' := gs[..n] + [gs[n] + [a]];
    BucketsSnoc(gs[n], a);
    forall k | 0 <= k < |subs'| ensures subs'[k] == ParsedSubunit(k, BucketsOf(gs'[k])) {
      if k < n {
        assert subs'[k] == subunits[k] && gs'[k] == gs[k];
      }
    }
  }

  /** Laying out one more group appends its grouped positions and codes. */
  lemma LayoutSnoc(gs: seq<seq<ParsedAtom>>, j: nat)
    requires j < |gs|
    ensures Positions(Layout(gs[..j + 1])) == Positions(Layout(gs[..j])) + Positions(Grouped(gs[j]))
    ensures Codes(Layout(gs[..j + 1])) == Codes(Layout(gs[..j])) + Codes(Grouped(gs[j]))
  {
    var front := gs[..j + 1];
    assert front[..j] == gs[..j] && front[j] == gs[j];
    assert Layout(front) == Layout(gs[..j]) + Grouped(gs[j]);
    PositionsAppend(Layout(gs[..j]), Grouped(gs[j]));
    CodesAppend(Layout(gs[..j]), Grouped(gs[j]));
  }

  /** Listing one more group keeps the list, or appends the group when it
      is not empty. */
  lemma KeptSnoc(gs: seq<seq<ParsedAtom>>, j: nat)
    requires j < |gs|
    ensures Kept(gs[..j + 1]) ==
      if |gs[j]| == 0 then Kept(gs[..j]) else Kept(gs[..j]) + [Subunit(j, |gs[j]|, SizeSum(gs[..j]))]
    ensures SizeSum(gs[..j + 1]) == SizeSum(gs[..j]) + |gs[j]|
  {
    var front := gs[..j + 1];
    assert front[..j] == gs[..j] && front[j] == gs[j];
  }

  /** The concatenation loop: every subunit's arrays in C, N, H, O, S,
      others order, with the identifiers built in the same order. */
  method ConcatenateSubunits(subunits: seq<ParsedSubunit>, ghost gs: seq<seq<ParsedAtom>>)
    returns (atomArray: seq<Vec3>, atomIdentifiers: seq<nat>)
    requires Mirrors(subunits, gs)
    ensures atomArray == Positions(Layout(gs))
    ensures atomIdentifiers == Codes(Layout(gs))
  {
    atomArray, atomIdentifiers := [], [];
    var j := 0;
    while j < |subunits|
      invariant j <= |subunits|
      invariant atomArray == Positions(Layout(gs[..j]))
      invariant atomIdentifiers == Codes(Layout(gs[..j]))
    {
      var b := subunits[j].buckets;
      var positions := b.carbon + b.nitrogen + b.hydrogen + b.oxygen + b.sulfur + b.others;
      var codes := Repeat(CarbonCode, |b.carbon|) + Repeat(NitrogenCode, |b.nitrogen|) +
        Repeat(HydrogenCode, |b.hydrogen|) + Repeat(OxygenCode, |b.oxygen|) +
        Repeat(SulfurCode, |b.sulfur|) + b.othersIds;
      BucketsLayout(gs[j]);
      LayoutSnoc(gs, j);
      atomArray := atomArray + positions;
      atomIdentifiers := atomIdentifiers + codes;
      j := j + 1;
    }
    assert gs[..j] == gs;
  }

  /** `totalAtomArrayComposition += subunit.atomArrayComposition` over all
      subunits. */
  method MergeCompositions(subunits: seq<ParsedSubunit>, ghost gs: seq<seq<ParsedAtom>>) returns (total: Tally)
    requires Mirrors(subunits, gs)
    ensures total == TallyOfAtoms(Flatten(gs))
  {
    total := Tally(0, 0, 0, 0, 0, 0);
    var j := 0;
    while j < |subunits|
      invariant j <= |subunits|
      invariant total == GroupsTally(gs[..j])
    {
      total := AddTally(total, TallyOf(subunits[j].buckets));
      assert gs[..j + 1][..j] == gs[..j];
      j := j + 1;
    }
    assert gs[..j] == gs;
    GroupsTallyCountsAll(gs);
  }

  /** The subunit list loop: empty subunits are skipped, and each kept one
      starts where the previous kept one ended. */
  method ListSubunits(subunits: seq<ParsedSubunit>, ghost gs: seq<seq<ParsedAtom>>) returns (proteinSubunits: seq<Subunit>)
    requires Mirrors(subunits, gs)
    ensures proteinSubunits == Kept(gs)
  {
    var subunitIndex: nat := 0;
    proteinSubunits := [];
    var j := 0;
    while j < |subunits|
      invariant j <= |subunits|
      invariant proteinSubunits == Kept(gs[..j])
      invariant subunitIndex == SizeSum(gs[..j])
    {
      var s := subunits[j];
      BucketsLayout(gs[j]);
      KeptSnoc(gs, j);
      var count := TotalCount(TallyOf(s.buckets));
      if count != 0 {
        proteinSubunits := proteinSubunits + [Subunit(s.id, count, subunitIndex)];
        subunitIndex := subunitIndex + count;
      }
      j := j + 1;
    }
    assert gs[..j] == gs;
  }

  /** How one line changes the parsed subunits: a TER record opens the
      next subunit, numbered by the TER count; an accepted atom joins the
      last one. */
  function SubunitsStep(subunits: seq<ParsedSubunit>, subunitCount: nat, line: string,
                        parseReal: string -> Option<real>, atomId: string -> nat): seq<ParsedSubunit>
    requires |subunits| > 0
  {
    if Text.StartsWith(line, TerKeyword) then subunits + [ParsedSubunit(subunitCount + 1, NoBuckets)]
    else
      var last := subunits[|subunits| - 1];
      match AcceptedAtom(line, parseReal, atomId)
      case Some(a) => subunits[|subunits| - 1 := last.(buckets := AddAtom(last.buckets, a))]
      case None => subunits
  }

  /** The subunit step keeps the subunits in step with the groups. */
  lemma MirrorsStep(pre: seq<string>, line: string, subunits: seq<ParsedSubunit>, subunitCount: nat,
                    parseReal: string -> Option<real>, atomId: string -> nat)
    requires Mirrors(subunits, Groups(pre, parseReal, atomId)) && subunitCount == TerCount(pre)
    ensures Mirrors(SubunitsStep(subunits, subunitCount, line, parseReal, atomId), Groups(pre + [line], parseReal, atomId))
  {
    var lines := pre + [line];
    assert lines[..|lines| - 1] == pre;
    if Text.StartsWith(line, TerKeyword) {
      var gs := Groups(pre, parseReal, atomId);
      var subs' := SubunitsStep(subunits, subunitCount, line, parseReal, atomId);
      var gs' := Groups(lines, parseReal, atomId);
      assert gs' == gs + [[]];
      BucketsOfEmpty();
      forall k | 0 <= k < |subs'| ensures subs'[k] == ParsedSubunit(k, BucketsOf(gs'[k])) {
        if k < |subunits| {
          assert subs'[k] == subunits[k] && gs'[k] == gs[k];
        }
      }
    } else if Text.StartsWith(line, AtomKeyword) {
      GroupsStepAtom(pre, line, subunits, parseReal, atomId);
    } else {
      NotAtomRecord(line, parseReal, (_: string) => None, atomId);
    }
  }

  /** The other scan results of `pre + [line]`, each as one step from those
      of `pre`. */
  lemma ScanStep(pre: seq<string>, line: string, parseReal: string -> Option<real>, parseInt: string -> Option<int>,
                 atomId: string -> nat)
    ensures TerCount(pre + [line]) == TerCount(pre) + (if Text.StartsWith(line, TerKeyword) then 1 else 0)
    ensures Residues(pre + [line], parseInt) == ResidueStep(Residues(pre, parseInt), line, parseInt)
    ensures Warnings(pre + [line], parseReal, parseInt) ==
      Warnings(pre, parseReal, parseInt) + LineWarnings(line, |pre| + 1, parseReal, parseInt)
    ensures JoinedText(pre + [line], TitleKeyword) == JoinStep(JoinedText(pre, TitleKeyword), line, TitleKeyword)
    ensures JoinedText(pre + [line], AuthorKeyword) == JoinStep(JoinedText(pre, AuthorKeyword), line, AuthorKeyword)
    ensures HeadersReadable(pre + [line]) ==>
      && HeadersReadable(pre)
      && LastHeaderId(pre + [line]) ==
        if Text.StartsWith(line, HeaderKeyword) then Some(Field(line, PdbIdRange)) else LastHeaderId(pre)
  {
    CountsStep(pre, line, parseReal, parseInt);
    TextsStep(pre, line);
    HeadersStep(pre, line);
  }

  lemma CountsStep(pre: seq<string>, line: string, parseReal: string -> Option<real>, parseInt: string -> Option<int>)
    ensures TerCount(pre + [line]) == TerCount(pre) + (if Text.StartsWith(line, TerKeyword) then 1 else 0)
    ensures Residues(pre + [line], parseInt) == ResidueStep(Residues(pre, parseInt), line, parseInt)
    ensures Warnings(pre + [line], parseReal, parseInt) ==
      Warnings(pre, parseReal, parseInt) + LineWarnings(line, |pre| + 1, parseReal, parseInt)
  {
    var lines := pre + [line];
    assert lines[..|lines| - 1] == pre;
  }

  lemma TextsStep(pre: seq<string>, line: string)
    ensures JoinedText(pre + [line], TitleKeyword) == JoinStep(JoinedText(pre, TitleKeyword), line, TitleKeyword)
    ensures JoinedText(pre + [line], AuthorKeyword) == JoinStep(JoinedText(pre, AuthorKeyword), line, AuthorKeyword)
  {
    var lines := pre + [line];
    assert lines[..|lines| - 1] == pre;
  }

  lemma HeadersStep(pre: seq<string>, line: string)
    ensures HeadersReadable(pre + [line]) ==>
      && HeadersReadable(pre)
      && (Text.StartsWith(line, HeaderKeyword) ==> |line| >= PdbIdEnd)
      && LastHeaderId(pre + [line]) ==
        if Text.StartsWith(line, HeaderKeyword) then Some(Field(line, PdbIdRange)) else LastHeaderId(pre)
  {
    var lines := pre + [line];
    assert lines[..|lines| - 1] == pre;
    if HeadersReadable(lines) {
      forall i | 0 <= i < |pre| && Text.StartsWith(pre[i], HeaderKeyword) ensures |pre[i]| >= PdbIdEnd {
        assert lines[i] == pre[i];
      }
      assert lines[|pre|] == line;
    }
  }

  /** The TITLE and AUTHOR branches: the line's text is appended to what
      was collected, or starts it. */
  method AppendText(collected: Option<string>, line: string) returns (collected': Option<string>)
    ensures collected' == Some(collected.GetOr("") + HeaderText(line))
  {
    var rawLine := HeaderText(line);
    if collected.Some? {
      collected' := Some(collected.value + rawLine);
    } else {
      assert "" + rawLine == rawLine;
      collected' := Some(rawLine);
    }
  }

  /** The line closure: the record's name decides which of the branches
      runs (`currentLine` already counts this line). */
  method ReadLine(line: string, currentLine: nat, known: KnownInfo, subunits: seq<ParsedSubunit>, subunitCount: nat,
                  pdbId: Option<string>, description: Option<string>, authors: Option<string>,
                  warningIndices: seq<nat>, currentResId: int, sequenceIdentifiers: seq<int>, sequenceArray: seq<string>,
                  parseReal: string -> Option<real>, parseInt: string -> Option<int>, atomId: string -> nat)
    returns (subunits': seq<ParsedSubunit>, subunitCount': nat,
             pdbId': Option<string>, description': Option<string>, authors': Option<string>,
             warningIndices': seq<nat>, currentResId': int, sequenceIdentifiers': seq<int>, sequenceArray': seq<string>)
    requires |subunits| > 0
    requires known.pdbId.None? && Text.StartsWith(line, HeaderKeyword) ==> |line| >= PdbIdEnd
    ensures subunits' == SubunitsStep(subunits, subunitCount, line, parseReal, atomId)
    ensures subunitCount' == subunitCount + (if Text.StartsWith(line, TerKeyword) then 1 else 0)
    ensures pdbId' == if known.pdbId.None? && Text.StartsWith(line, HeaderKeyword) then Some(Field(line, PdbIdRange)) else pdbId
    ensures description' == if known.description.None? then JoinStep(description, line, TitleKeyword) else description
    ensures authors' == if known.authors.None? then JoinStep(authors, line, AuthorKeyword) else authors
    ensures warningIndices' == warningIndices + LineWarnings(line, currentLine, parseReal, parseInt)
    ensures ResidueTrack(currentResId', sequenceIdentifiers', sequenceArray') ==
      ResidueStep(ResidueTrack(currentResId, sequenceIdentifiers, sequenceArray), line, parseInt)
  {
    subunits', subunitCount', pdbId', description', authors' := subunits, subunitCount, pdbId, description, authors;
    warningIndices', currentResId', sequenceIdentifiers', sequenceArray' := warningIndices, currentResId, sequenceIdentifiers, sequenceArray;
    RecordNamesExclusive(line);
    if Text.StartsWith(line, HeaderKeyword) {
      NotAtomRecord(line, parseReal, parseInt, atomId);
      assert !Text.StartsWith(line, TitleKeyword) && !Text.StartsWith(line, AuthorKeyword);
      if known.pdbId.None? {
        pdbId' := Some(Field(line, PdbIdRange));
      }
    } else if Text.StartsWith(line, TitleKeyword) {
      NotAtomRecord(line, parseReal, parseInt, atomId);
      assert !Text.StartsWith(line, AuthorKeyword) && !Text.StartsWith(line, TerKeyword);
      if known.description.None? {
        description' := AppendText(description, line);
      }
    } else if Text.StartsWith(line, AuthorKeyword) {
      NotAtomRecord(line, parseReal, parseInt, atomId);
      assert !Text.StartsWith(line, TerKeyword);
      if known.authors.None? {
        authors' := AppendText(authors, line);
      }
    } else if Text.StartsWith(line, TerKeyword) {
      NotAtomRecord(line, parseReal, parseInt, atomId);
      subunitCount' := subunitCount + 1;
      subunits' := subunits + [ParsedSubunit(subunitCount', NoBuckets)];
    } else if Text.StartsWith(line, AtomKeyword) {
      assert !Text.StartsWith(line, TerKeyword);
      subunits', warningIndices', currentResId', sequenceIdentifiers', sequenceArray' :=
        ReadAtomRecord(line, currentLine, subunits, warningIndices, currentResId, sequenceIdentifiers,
                       sequenceArray, parseReal, parseInt, atomId);
    } else {
      NotAtomRecord(line, parseReal, parseInt, atomId);
    }
  }

  /** The values the line loop of `parsePDBLike` carries from line to
      line. */
  datatype LikeScan = LikeScan(subunits: seq<ParsedSubunit>, subunitCount: nat, pdbId: Option<string>,
                               description: Option<string>, authors: Option<string>, warningIndices: seq<nat>,
                               track: ResidueTrack)

  /** The loop values after the first `i` lines: each the specification
      of its concern on those lines. */
  ghost predicate Scanned(lines: seq<string>, i: nat, known: KnownInfo, s: LikeScan,
                          parseReal: string -> Option<real>, parseInt: string -> Option<int>, atomId: string -> nat)
    requires i <= |lines|
  {
    var pre := lines[..i];
    && s.subunitCount == TerCount(pre)
    && Mirrors(s.subunits, Groups(pre, parseReal, atomId))
    && s.track == Residues(pre, parseInt)
    && s.warningIndices == Warnings(pre, parseReal, parseInt)
    && (known.pdbId.None? ==> HeadersReadable(pre) && s.pdbId == LastHeaderId(pre))
    && (known.pdbId.Some? ==> s.pdbId == known.pdbId)
    && s.description == (if known.description.Some? then known.description else JoinedText(pre, TitleKeyword))
    && s.authors == (if known.authors.Some? then known.authors else JoinedText(pre, AuthorKeyword))
  }

  /** What the line closure does to the loop values, line `n` being `line`. */
  function LikeStep(s: LikeScan, line: string, n: nat, known: KnownInfo,
                    parseReal: string -> Option<real>, parseInt: string -> Option<int>, atomId: string -> nat): LikeScan
    requires |s.subunits| > 0
    requires known.pdbId.None? && Text.StartsWith(line, HeaderKeyword) ==> |line| >= PdbIdEnd
  {
    LikeScan(SubunitsStep(s.subunits, s.subunitCount, line, parseReal, atomId),
             s.subunitCount + (if Text.StartsWith(line, TerKeyword) then 1 else 0),
             if known.pdbId.None? && Text.StartsWith(line, HeaderKeyword) then Some(Field(line, PdbIdRange)) else s.pdbId,
             if known.description.None? then JoinStep(s.description, line, TitleKeyword) else s.description,
             if known.authors.None? then JoinStep(s.authors, line, AuthorKeyword) else s.authors,
             s.warningIndices + LineWarnings(line, n, parseReal, parseInt),
             ResidueStep(s.track, line, parseInt))
  }

  lemma HeadersReadableTake(lines: seq<string>, i: nat)
    requires i <= |lines| && HeadersReadable(lines)
    ensures HeadersReadable(lines[..i])
  {
    forall k | 0 <= k < i && Text.StartsWith(lines[..i][k], HeaderKeyword)
      ensures |lines[..i][k]| >= PdbIdEnd
    {
      assert lines[..i][k] == lines[k];
    }
  }

  /** The closure on line `i + 1` keeps the loop values in step with the
      specification. */
  lemma ScannedStep(lines: seq<string>, i: nat, known: KnownInfo, s: LikeScan,
                    parseReal: string -> Option<real>, parseInt: string -> Option<int>, atomId: string -> nat)
    requires i < |lines| && (known.pdbId.None? ==> HeadersReadable(lines))
    requires Scanned(lines, i, known, s, parseReal, parseInt, atomId)
    ensures |s.subunits| > 0
    ensures known.pdbId.None? && Text.StartsWith(lines[i], HeaderKeyword) ==> |lines[i]| >= PdbIdEnd
    ensures Scanned(lines, i + 1, known, LikeStep(s, lines[i], i + 1, known, parseReal, parseInt, atomId),
                    parseReal, parseInt, atomId)
  {
    var pre := lines[..i];
    var line := lines[i];
    Text.TakeSnoc(lines, i);
    ScanStep(pre, line, parseReal, parseInt, atomId);
    MirrorsStep(pre, line, s.subunits, s.subunitCount, parseReal, atomId);
    if known.pdbId.None? {
      HeadersReadableTake(lines, i + 1);
    }
  }

  /** The line loop of `parsePDBLike`: the closure applied to every line in
      order, `currentLine` counting the lines read. */
  method ScanLines(lines: seq<string>, known: KnownInfo,
                   parseReal: string -> Option<real>, parseInt: string -> Option<int>, atomId: string -> nat)
    returns (scan: LikeScan)
    requires known.pdbId.None? ==> HeadersReadable(lines)
    ensures Scanned(lines, |lines|, known, scan, parseReal, parseInt, atomId)
  {
    BucketsOfEmpty();
    scan := LikeScan([ParsedSubunit(0, NoBuckets)], 0, known.pdbId, known.description, known.authors, [],
                     ResidueTrack(-1, [], []));
    var currentLine: nat := 0;
    while currentLine < |lines|
      invariant currentLine <= |lines|
      invariant Scanned(lines, currentLine, known, scan, parseReal, parseInt, atomId)
    {
      var line := lines[currentLine];
      ScannedStep(lines, currentLine, known, scan, parseReal, parseInt, atomId);
      ghost var next := LikeStep(scan, line, currentLine + 1, known, parseReal, parseInt, atomId);
      currentLine := currentLine + 1;
      var subunits, subunitCount, pdbId, description, authors, warningIndices, currentResId, sequenceIdentifiers, sequenceArray :=
        ReadLine(line, currentLine, known, scan.subunits, scan.subunitCount, scan.pdbId, scan.description, scan.authors,
                 scan.warningIndices, scan.track.currentResId, scan.track.ids, scan.track.names, parseReal, parseInt, atomId);
      scan := LikeScan(subunits, subunitCount, pdbId, description, authors, warningIndices,
                       ResidueTrack(currentResId, sequenceIdentifiers, sequenceArray));
      assert scan == next;
    }
  }

  /** `parsePDBLike` over the text's lines. HEADER lines must be long enough
      to slice unless the id is already known. */
  method ParsePdbLike(lines: seq<string>, known: KnownInfo,
                      parseReal: string -> Option<real>, parseInt: string -> Option<int>, atomId: string -> nat)
    returns (r: Result<PdbFile, ImportError>)
    requires known.pdbId.None? ==> HeadersReadable(lines)
    ensures r.Err? <==> AcceptedAtoms(lines, parseReal, atomId) == []
    ensures r.Ok? ==>
      var f := r.value;
      var gs := Groups(lines, parseReal, atomId);
      var track := Residues(lines, parseInt);
      && f.configurationCount == 1
      && f.subunitCount == TerCount(lines)
      && f.atoms == Positions(Layout(gs))
      && f.atomIdentifiers == Codes(Layout(gs))
      && f.composition == TallyOfAtoms(AcceptedAtoms(lines, parseReal, atomId))
      && f.subunits == Kept(gs)
      && f.sequence == track.names && f.sequenceIdentifiers == track.ids
      && f.warningIndices == Warnings(lines, parseReal, parseInt)
      && f.pdbId == (if known.pdbId.Some? then known.pdbId else LastHeaderId(lines))
      && f.description == (if known.description.Some? then known.description else JoinedText(lines, TitleKeyword))
      && f.authors == (if known.authors.Some? then known.authors else JoinedText(lines, AuthorKeyword))
  {
    var scan := ScanLines(lines, known, parseReal, parseInt, atomId);
    assert lines[..|lines|] == lines;
    ghost var gs := Groups(lines, parseReal, atomId);
    var subunits := scan.subunits;

    var atomArray, atomIdentifiers := ConcatenateSubunits(subunits, gs);
    var totalComposition := MergeCompositions(subunits, gs);
    var proteinSubunits := ListSubunits(subunits, gs);
    GroupsFlatten(lines, parseReal, atomId);
    LayoutIsPermutationOfAccepted(lines, parseReal, atomId);
    if |atomArray| == 0 {
      return Err(EmptyAtomCount);
    }
    r := Ok(PdbFile(1, scan.subunitCount, proteinSubunits, atomArray, atomIdentifiers, totalComposition,
                    scan.track.names, scan.track.ids, scan.pdbId, scan.description, scan.authors, scan.warningIndices));
  }
}
