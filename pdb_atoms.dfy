/** What an ATOM line of a PDB file contributes, shared by the app's PDB
    readers: the accepted atom (element code and position), the per-element
    buckets the readers fill, the element-grouped layout they concatenate,
    the residue de-duplication and the TITLE/AUTHOR text concatenation. */
module PdbAtoms {
  import opened Wrappers
  import Text
  import opened Geometry
  import opened PdbConstants

  /** The renderer's `AtomType` codes, in the C, H, N, O, S, others slot
      order of its radius and colour tables. */
  const CarbonCode: nat := 0
  const HydrogenCode: nat := 1
  const NitrogenCode: nat := 2
  const OxygenCode: nat := 3
  const SulfurCode: nat := 4
  const UnknownCode: nat := 5

  /** The `default:` branch of the element switch: any code that is not one
      of the five named ones. */
  predicate IsOtherCode(c: nat) {
    c > SulfurCode
  }

  /** Position of a code in the C, N, H, O, S, others output order. */
  function Rank(c: nat): (k: nat)
    ensures k <= 5
    ensures k == 5 <==> IsOtherCode(c)
  {
    if c == CarbonCode then 0
    else if c == NitrogenCode then 1
    else if c == HydrogenCode then 2
    else if c == OxygenCode then 3
    else if c == SulfurCode then 4
    else 5
  }

  /** One accepted atom: the code `getAtomId` gave its element field and its
      three coordinates. */
  datatype ParsedAtom = ParsedAtom(code: nat, position: Vec3)

  /** The atom an ATOM line yields: the line must start with "ATOM" (so
      HETATM is not read), be at least 78 characters long, and have all
      three coordinates readable. */
  function AcceptedAtom(line: string, parseReal: string -> Option<real>, atomId: string -> nat): Option<ParsedAtom> {
    if Text.StartsWith(line, AtomKeyword) && |line| >= ExpectedLineLength then
      match ReadPosition(line, parseReal)
      case Some(p) => Some(ParsedAtom(atomId(Field(line, ElementRange)), p))
      case None => None
    else None
  }

  /** Whether an accepted atom's coordinates are exactly the three fields,
      read in full: no line produces a partial atom. */
  lemma AcceptedAtomIsComplete(line: string, parseReal: string -> Option<real>, atomId: string -> nat)
    ensures AcceptedAtom(line, parseReal, atomId).Some? <==>
      Text.StartsWith(line, AtomKeyword) && |line| >= ExpectedLineLength &&
      parseReal(Field(line, XRange)).Some? && parseReal(Field(line, YRange)).Some? &&
      parseReal(Field(line, ZRange)).Some?
    ensures AcceptedAtom(line, parseReal, atomId).Some? ==>
      AcceptedAtom(line, parseReal, atomId).value.position ==
        Vec3(parseReal(Field(line, XRange)).value, parseReal(Field(line, YRange)).value, parseReal(Field(line, ZRange)).value)
  {
  }

  /** HETATM records never yield an atom. */
  lemma HetatmNotAccepted(line: string, parseReal: string -> Option<real>, atomId: string -> nat)
    requires Text.StartsWith(line, HetatmKeyword)
    ensures AcceptedAtom(line, parseReal, atomId) == None
  {
    RecordNamesExclusive(line);
  }

  /** Only ATOM records yield atoms or residue ids. */
  lemma NotAtomRecord(line: string, parseReal: string -> Option<real>, parseInt: string -> Option<int>, atomId: string -> nat)
    requires !Text.StartsWith(line, AtomKeyword)
    ensures AcceptedAtom(line, parseReal, atomId) == None
    ensures LineResidueId(line, parseInt) == None
  {
  }

  /** The accepted atoms of a run of lines, in line order. */
  function AcceptedAtoms(lines: seq<string>, parseReal: string -> Option<real>, atomId: string -> nat): (xs: seq<ParsedAtom>)
    ensures |xs| <= |lines|
    decreases |lines|
  {
    if lines == [] then []
    else
      var xs := AcceptedAtoms(lines[..|lines| - 1], parseReal, atomId);
      match AcceptedAtom(lines[|lines| - 1], parseReal, atomId)
      case Some(a) => xs + [a]
      case None => xs
  }

  /** No atom is accepted exactly when no line yields one. */
  lemma {:induction false} AcceptedAtomsEmpty(lines: seq<string>, parseReal: string -> Option<real>, atomId: string -> nat)
    ensures AcceptedAtoms(lines, parseReal, atomId) == [] <==>
      forall i :: 0 <= i < |lines| ==> AcceptedAtom(lines[i], parseReal, atomId).None?
    decreases |lines|
  {
    if lines != [] {
      var init := lines[..|lines| - 1];
      AcceptedAtomsEmpty(init, parseReal, atomId);
      assert forall i :: 0 <= i < |init| ==> init[i] == lines[i];
    }
  }

  /** The atoms of `xs` with element code `c`, in order. */
  function WithCode(xs: seq<ParsedAtom>, c: nat): (r: seq<ParsedAtom>)
    ensures |r| <= |xs|
    ensures forall k :: 0 <= k < |r| ==> r[k].code == c
  {
    if xs == [] then []
    else WithCode(xs[..|xs| - 1], c) + (if xs[|xs| - 1].code == c then [xs[|xs| - 1]] else [])
  }

  /** The atoms of `xs` whose code is none of the five named ones. */
  function OthersOf(xs: seq<ParsedAtom>): (r: seq<ParsedAtom>)
    ensures |r| <= |xs|
    ensures forall k :: 0 <= k < |r| ==> IsOtherCode(r[k].code)
  {
    if xs == [] then []
    else OthersOf(xs[..|xs| - 1]) + (if IsOtherCode(xs[|xs| - 1].code) then [xs[|xs| - 1]] else [])
  }

  /** The output order of one group of atoms: carbons, nitrogens,
      hydrogens, oxygens, sulfurs, then everything else, each block in
      reading order. */
  function Grouped(xs: seq<ParsedAtom>): seq<ParsedAtom> {
    WithCode(xs, CarbonCode) + WithCode(xs, NitrogenCode) + WithCode(xs, HydrogenCode) +
    WithCode(xs, OxygenCode) + WithCode(xs, SulfurCode) + OthersOf(xs)
  }

  function Positions(xs: seq<ParsedAtom>): (ps: seq<Vec3>)
    ensures |ps| == |xs|
    ensures forall k :: 0 <= k < |xs| ==> ps[k] == xs[k].position
  {
    if xs == [] then [] else Positions(xs[..|xs| - 1]) + [xs[|xs| - 1].position]
  }

  function Codes(xs: seq<ParsedAtom>): (cs: seq<nat>)
    ensures |cs| == |xs|
    ensures forall k :: 0 <= k < |xs| ==> cs[k] == xs[k].code
  {
    if xs == [] then [] else Codes(xs[..|xs| - 1]) + [xs[|xs| - 1].code]
  }

  /** `Array(repeating: c, count: n)`. */
  function Repeat(c: nat, n: nat): (r: seq<nat>)
    ensures |r| == n
    ensures forall k :: 0 <= k < n ==> r[k] == c
  {
    if n == 0 then [] else Repeat(c, n - 1) + [c]
  }

  lemma WithCodeAppend(xs: seq<ParsedAtom>, ys: seq<ParsedAtom>, c: nat)
    ensures WithCode(xs + ys, c) == WithCode(xs, c) + WithCode(ys, c)
    decreases |ys|
  {
    if ys != [] {
      var init := ys[..|ys| - 1];
      assert (xs + ys)[..|xs + ys| - 1] == xs + init;
      WithCodeAppend(xs, init, c);
    } else {
      assert xs + ys == xs;
    }
  }

  lemma OthersAppend(xs: seq<ParsedAtom>, ys: seq<ParsedAtom>)
    ensures OthersOf(xs + ys) == OthersOf(xs) + OthersOf(ys)
    decreases |ys|
  {
    if ys != [] {
      var init := ys[..|ys| - 1];
      assert (xs + ys)[..|xs + ys| - 1] == xs + init;
      OthersAppend(xs, init);
    } else {
      assert xs + ys == xs;
    }
  }

  lemma WithCodeSnoc(xs: seq<ParsedAtom>, a: ParsedAtom, c: nat)
    ensures WithCode(xs + [a], c) == WithCode(xs, c) + (if a.code == c then [a] else [])
  {
    assert (xs + [a])[..|xs|] == xs;
  }

  lemma OthersSnoc(xs: seq<ParsedAtom>, a: ParsedAtom)
    ensures OthersOf(xs + [a]) == OthersOf(xs) + (if IsOtherCode(a.code) then [a] else [])
  {
    assert (xs + [a])[..|xs|] == xs;
  }

  /** How often an atom occurs in a block: as often as in the input when
      it carries the block's code, never otherwise. */
  lemma {:induction false} WithCodeCount(xs: seq<ParsedAtom>, c: nat, x: ParsedAtom)
    ensures multiset(WithCode(xs, c))[x] == if x.code == c then multiset(xs)[x] else 0
    decreases |xs|
  {
    if xs != [] {
      var init := xs[..|xs| - 1];
      assert xs == init + [xs[|xs| - 1]];
      WithCodeCount(init, c, x);
    }
  }

  lemma {:induction false} OthersCount(xs: seq<ParsedAtom>, x: ParsedAtom)
    ensures multiset(OthersOf(xs))[x] == if IsOtherCode(x.code) then multiset(xs)[x] else 0
    decreases |xs|
  {
    if xs != [] {
      var init := xs[..|xs| - 1];
      assert xs == init + [xs[|xs| - 1]];
      OthersCount(init, x);
    }
  }

  /** Grouping a run of atoms keeps every atom, each exactly once. */
  lemma GroupedPermutation(xs: seq<ParsedAtom>)
    ensures multiset(Grouped(xs)) == multiset(xs)
    ensures |Grouped(xs)| == |xs|
  {
    forall x | true
      ensures multiset(Grouped(xs))[x] == multiset(xs)[x]
    {
      WithCodeCount(xs, CarbonCode, x);
      WithCodeCount(xs, NitrogenCode, x);
      WithCodeCount(xs, HydrogenCode, x);
      WithCodeCount(xs, OxygenCode, x);
      WithCodeCount(xs, SulfurCode, x);
      OthersCount(xs, x);
    }
    assert multiset(Grouped(xs)) == multiset(xs);
    assert |multiset(Grouped(xs))| == |multiset(xs)|;
  }

  /** All atoms of `s` have rank at most `k`, and ranks never decrease. */
  predicate RankedUpTo(s: seq<ParsedAtom>, k: nat) {
    (forall i :: 0 <= i < |s| ==> Rank(s[i].code) <= k) &&
    (forall i, j :: 0 <= i < j < |s| ==> Rank(s[i].code) <= Rank(s[j].code))
  }

  lemma RankedAppend(s: seq<ParsedAtom>, j: nat, block: seq<ParsedAtom>, k: nat)
    requires j <= k && RankedUpTo(s, j)
    requires forall i :: 0 <= i < |block| ==> Rank(block[i].code) == k
    ensures RankedUpTo(s + block, k)
  {
    forall i, j | 0 <= i < j < |s + block|
      ensures Rank((s + block)[i].code) <= Rank((s + block)[j].code)
    {
      if j < |s| {
        assert (s + block)[i] == s[i] && (s + block)[j] == s[j];
      } else if i < |s| {
        assert (s + block)[i] == s[i] && (s + block)[j] == block[j - |s|];
      } else {
        assert (s + block)[i] == block[i - |s|] && (s + block)[j] == block[j - |s|];
      }
    }
  }

  /** The grouped layout really is in C, N, H, O, S, others order. */
  lemma GroupedIsOrdered(xs: seq<ParsedAtom>)
    ensures forall i, j :: 0 <= i < j < |Grouped(xs)| ==> Rank(Grouped(xs)[i].code) <= Rank(Grouped(xs)[j].code)
  {
    var c := WithCode(xs, CarbonCode);
    var n := WithCode(xs, NitrogenCode);
    var h := WithCode(xs, HydrogenCode);
    var o := WithCode(xs, OxygenCode);
    var s := WithCode(xs, SulfurCode);
    var others := OthersOf(xs);
    assert Rank(CarbonCode) == 0 && Rank(NitrogenCode) == 1 && Rank(HydrogenCode) == 2;
    assert Rank(OxygenCode) == 3 && Rank(SulfurCode) == 4;
    RankedAppend([], 0, c, 0);
    assert [] + c == c;
    var s1 := c + n;
    RankedAppend(c, 0, n, 1);
    var s2 := s1 + h;
    RankedAppend(s1, 1, h, 2);
    var s3 := s2 + o;
    RankedAppend(s2, 2, o, 3);
    var s4 := s3 + s;
    RankedAppend(s3, 3, s, 4);
    RankedAppend(s4, 4, others, 5);
    assert Grouped(xs) == s4 + others;
  }

  /** The per-element arrays a reader fills while scanning (`carbonArray`,
      …, `othersArray`, `othersIDs`). */
  datatype ElementBuckets = ElementBuckets(
    carbon: seq<Vec3>, nitrogen: seq<Vec3>, hydrogen: seq<Vec3>, oxygen: seq<Vec3>,
    sulfur: seq<Vec3>, others: seq<Vec3>, othersIds: seq<nat>)

  const NoBuckets := ElementBuckets([], [], [], [], [], [], [])

  /** `atomArrayComposition` of a set of buckets: one counter per array,
      bumped with every append. */
  datatype Tally = Tally(carbon: nat, nitrogen: nat, hydrogen: nat, oxygen: nat, sulfur: nat, others: nat)

  function TotalCount(t: Tally): nat {
    t.carbon + t.nitrogen + t.hydrogen + t.oxygen + t.sulfur + t.others
  }

  function TallyOf(b: ElementBuckets): Tally {
    Tally(|b.carbon|, |b.nitrogen|, |b.hydrogen|, |b.oxygen|, |b.sulfur|, |b.others|)
  }

  /** `lhs += rhs` on compositions: counter-wise sums. */
  function AddTally(a: Tally, b: Tally): (r: Tally)
    ensures TotalCount(r) == TotalCount(a) + TotalCount(b)
  {
    Tally(a.carbon + b.carbon, a.nitrogen + b.nitrogen, a.hydrogen + b.hydrogen,
          a.oxygen + b.oxygen, a.sulfur + b.sulfur, a.others + b.others)
  }

  /** The element switch: the position goes to the array of its code, and
      an "others" atom also records its code. */
  function AddAtom(b: ElementBuckets, a: ParsedAtom): ElementBuckets {
    if a.code == CarbonCode then b.(carbon := b.carbon + [a.position])
    else if a.code == NitrogenCode then b.(nitrogen := b.nitrogen + [a.position])
    else if a.code == HydrogenCode then b.(hydrogen := b.hydrogen + [a.position])
    else if a.code == OxygenCode then b.(oxygen := b.oxygen + [a.position])
    else if a.code == SulfurCode then b.(sulfur := b.sulfur + [a.position])
    else b.(others := b.others + [a.position], othersIds := b.othersIds + [a.code])
  }

  /** The buckets after reading `xs`: each array holds the positions of the
      atoms with its code, in reading order. */
  function BucketsOf(xs: seq<ParsedAtom>): ElementBuckets {
    ElementBuckets(
      Positions(WithCode(xs, CarbonCode)), Positions(WithCode(xs, NitrogenCode)),
      Positions(WithCode(xs, HydrogenCode)), Positions(WithCode(xs, OxygenCode)),
      Positions(WithCode(xs, SulfurCode)), Positions(OthersOf(xs)), Codes(OthersOf(xs)))
  }

  /** Reading one more atom is one step of the element switch. */
  lemma BucketsSnoc(xs: seq<ParsedAtom>, a: ParsedAtom)
    ensures BucketsOf(xs + [a]) == AddAtom(BucketsOf(xs), a)
  {
    var b, b' := BucketsOf(xs), BucketsOf(xs + [a]);
    PositionsWithCodeSnoc(xs, a, CarbonCode);
    PositionsWithCodeSnoc(xs, a, NitrogenCode);
    PositionsWithCodeSnoc(xs, a, HydrogenCode);
    PositionsWithCodeSnoc(xs, a, OxygenCode);
    PositionsWithCodeSnoc(xs, a, SulfurCode);
    OthersArraysSnoc(xs, a);
    ElementSwitchCases(b, b', a);
  }

  /** The element switch, array by array. */
  lemma ElementSwitchCases(b: ElementBuckets, b': ElementBuckets, a: ParsedAtom)
    requires b'.carbon == b.carbon + (if a.code == CarbonCode then [a.position] else [])
    requires b'.nitrogen == b.nitrogen + (if a.code == NitrogenCode then [a.position] else [])
    requires b'.hydrogen == b.hydrogen + (if a.code == HydrogenCode then [a.position] else [])
    requires b'.oxygen == b.oxygen + (if a.code == OxygenCode then [a.position] else [])
    requires b'.sulfur == b.sulfur + (if a.code == SulfurCode then [a.position] else [])
    requires b'.others == b.others + (if IsOtherCode(a.code) then [a.position] else [])
    requires b'.othersIds == b.othersIds + (if IsOtherCode(a.code) then [a.code] else [])
    ensures b' == AddAtom(b, a)
  {
    assert b.carbon + [] == b.carbon && b.nitrogen + [] == b.nitrogen && b.hydrogen + [] == b.hydrogen;
    assert b.oxygen + [] == b.oxygen && b.sulfur + [] == b.sulfur;
    assert b.others + [] == b.others && b.othersIds + [] == b.othersIds;
  }

  lemma PositionsWithCodeSnoc(xs: seq<ParsedAtom>, a: ParsedAtom, c: nat)
    ensures Positions(WithCode(xs + [a], c)) == Positions(WithCode(xs, c)) + (if a.code == c then [a.position] else [])
  {
    WithCodeSnoc(xs, a, c);
    if a.code == c {
      PositionsAppend(WithCode(xs, c), [a]);
    } else {
      assert WithCode(xs, c) + [] == WithCode(xs, c);
      assert Positions(WithCode(xs, c)) + [] == Positions(WithCode(xs, c));
    }
  }

  lemma OthersArraysSnoc(xs: seq<ParsedAtom>, a: ParsedAtom)
    ensures Positions(OthersOf(xs + [a])) == Positions(OthersOf(xs)) + (if IsOtherCode(a.code) then [a.position] else [])
    ensures Codes(OthersOf(xs + [a])) == Codes(OthersOf(xs)) + (if IsOtherCode(a.code) then [a.code] else [])
  {
    OthersSnoc(xs, a);
    if IsOtherCode(a.code) {
      PositionsAppend(OthersOf(xs), [a]);
      CodesAppend(OthersOf(xs), [a]);
    } else {
      assert OthersOf(xs) + [] == OthersOf(xs);
      assert Positions(OthersOf(xs)) + [] == Positions(OthersOf(xs));
      assert Codes(OthersOf(xs)) + [] == Codes(OthersOf(xs));
    }
  }

  lemma BucketsOfEmpty()
    ensures BucketsOf([]) == NoBuckets
  {
  }

  lemma PositionsAppend(xs: seq<ParsedAtom>, ys: seq<ParsedAtom>)
    ensures Positions(xs + ys) == Positions(xs) + Positions(ys)
  {
  }

  lemma CodesAppend(xs: seq<ParsedAtom>, ys: seq<ParsedAtom>)
    ensures Codes(xs + ys) == Codes(xs) + Codes(ys)
  {
  }

  lemma CodesOfWithCode(xs: seq<ParsedAtom>, c: nat)
    ensures Codes(WithCode(xs, c)) == Repeat(c, |WithCode(xs, c)|)
  {
  }

  /** Concatenating the buckets in C, N, H, O, S, others order, with the
      identifiers repeated per counter, lists exactly the grouped layout:
      identifier `k` describes position `k`. */
  lemma BucketsLayout(xs: seq<ParsedAtom>)
    ensures var b := BucketsOf(xs);
      Positions(Grouped(xs)) == b.carbon + b.nitrogen + b.hydrogen + b.oxygen + b.sulfur + b.others
    ensures var b := BucketsOf(xs);
      Codes(Grouped(xs)) == Repeat(CarbonCode, |b.carbon|) + Repeat(NitrogenCode, |b.nitrogen|) +
        Repeat(HydrogenCode, |b.hydrogen|) + Repeat(OxygenCode, |b.oxygen|) +
        Repeat(SulfurCode, |b.sulfur|) + b.othersIds
    ensures TotalCount(TallyOf(BucketsOf(xs))) == |xs|
  {
    var c := WithCode(xs, CarbonCode);
    var n := WithCode(xs, NitrogenCode);
    var h := WithCode(xs, HydrogenCode);
    var o := WithCode(xs, OxygenCode);
    var s := WithCode(xs, SulfurCode);
    var others := OthersOf(xs);
    PositionsAppend(c + n + h + o + s, others);
    PositionsAppend(c + n + h + o, s);
    PositionsAppend(c + n + h, o);
    PositionsAppend(c + n, h);
    PositionsAppend(c, n);
    CodesAppend(c + n + h + o + s, others);
    CodesAppend(c + n + h + o, s);
    CodesAppend(c + n + h, o);
    CodesAppend(c + n, h);
    CodesAppend(c, n);
    CodesOfWithCode(xs, CarbonCode);
    CodesOfWithCode(xs, NitrogenCode);
    CodesOfWithCode(xs, HydrogenCode);
    CodesOfWithCode(xs, OxygenCode);
    CodesOfWithCode(xs, SulfurCode);
    GroupedPermutation(xs);
  }

  /** The residue bookkeeping: the last residue id seen (-1 before any) and
      the de-duplicated identifier and name lists. */
  datatype ResidueTrack = ResidueTrack(currentResId: int, ids: seq<int>, names: seq<string>)

  const NoResidues := ResidueTrack(-1, [], [])

  /** The residue id an ATOM line carries, when the line is long enough to
      be read and the id field parses. */
  function LineResidueId(line: string, parseInt: string -> Option<int>): Option<int> {
    if Text.StartsWith(line, AtomKeyword) && |line| >= ExpectedLineLength then
      parseInt(Field(line, ResIdRange))
    else None
  }

  /** One line of residue bookkeeping: an id different from the current one
      is recorded together with the line's residue name. The check happens
      before the coordinates are read, so an atom later dropped for bad
      coordinates still records its residue. */
  function ResidueStep(t: ResidueTrack, line: string, parseInt: string -> Option<int>): ResidueTrack {
    match LineResidueId(line, parseInt)
    case Some(r) =>
      if r != t.currentResId then
        ResidueTrack(r, t.ids + [r], t.names + [Field(line, ResNameRange)])
      else t
    case None => t
  }

  function Residues(lines: seq<string>, parseInt: string -> Option<int>): ResidueTrack
    decreases |lines|
  {
    if lines == [] then NoResidues
    else ResidueStep(Residues(lines[..|lines| - 1], parseInt), lines[|lines| - 1], parseInt)
  }

  /** The de-duplicated lists grow together, no two neighbours are equal,
      the current id is the last one recorded, and an id equal to the
      initial -1 is never recorded first. */
  predicate WellTracked(t: ResidueTrack) {
    |t.ids| == |t.names| &&
    (forall k :: 0 < k < |t.ids| ==> t.ids[k - 1] != t.ids[k]) &&
    (if t.ids == [] then t.currentResId == -1 else t.currentResId == t.ids[|t.ids| - 1] && t.ids[0] != -1)
  }

  lemma {:induction false} ResiduesWellTracked(lines: seq<string>, parseInt: string -> Option<int>)
    ensures WellTracked(Residues(lines, parseInt))
    decreases |lines|
  {
    if lines != [] {
      ResiduesWellTracked(lines[..|lines| - 1], parseInt);
    }
  }

  /** TITLE and AUTHOR text: every line starting with the keyword
      contributes its text, concatenated in order; `None` when there is
      none. */
  function JoinedText(lines: seq<string>, keyword: string): (t: Option<string>)
    ensures t.Some? <==> exists i :: 0 <= i < |lines| && Text.StartsWith(lines[i], keyword)
    decreases |lines|
  {
    if lines == [] then None
    else
      var prev := JoinedText(lines[..|lines| - 1], keyword);
      var line := lines[|lines| - 1];
      assert forall i :: 0 <= i < |lines| - 1 ==> lines[..|lines| - 1][i] == lines[i];
      JoinStep(prev, line, keyword)
  }

  /** One TITLE or AUTHOR line: its text is appended to what was collected,
      or starts it. */
  function JoinStep(collected: Option<string>, line: string, keyword: string): Option<string> {
    if Text.StartsWith(line, keyword) then Some(collected.GetOr("") + HeaderText(line)) else collected
  }

  /** A line's own text is a suffix of the joined text. */
  lemma JoinedTextEndsWithLast(lines: seq<string>, keyword: string)
    requires lines != [] && Text.StartsWith(lines[|lines| - 1], keyword)
    ensures JoinedText(lines, keyword).Some?
    ensures var t := JoinedText(lines, keyword).value;
      var h := HeaderText(lines[|lines| - 1]);
      |h| <= |t| && t[|t| - |h|..] == h
  {
  }
}
