/** The app's XYZ reader (`parseXYZ`): every atom line is filed into the
    carbon, nitrogen, hydrogen, oxygen, sulfur or "others" array of the last
    configuration, and a configuration is meant to end at the first short or
    unreadable line after an atom line. As written, the test for an empty
    configuration looks at a composition that is never filled in, so the
    reader never opens a second configuration. */
module ParseXyz {
  import opened Wrappers
  import opened Geometry
  import opened AtomElements
  import opened ElementCompositions
  import opened ProteinSubunits
  import Proteins
  import opened XyzLines
  import ParsePdb
  import XyzParser
  import Text

  // ---------------------------------------------------------------------
  // The per-element arrays.

  /** `carbonArray`, …, `othersArray` of one configuration. */
  datatype Buckets = Buckets(
    carbon: seq<Vec3>, nitrogen: seq<Vec3>, hydrogen: seq<Vec3>, oxygen: seq<Vec3>,
    sulfur: seq<Vec3>, others: seq<Vec3>)

  const NoBuckets := Buckets([], [], [], [], [], [])

  /** The array an element's atoms go to: 0 to 4 for carbon, nitrogen,
      hydrogen, oxygen and sulfur, 5 for every other element. */
  function BucketOf(e: AtomElement): (k: nat)
    ensures k <= 5
  {
    match e
    case Carbon => 0
    case Nitrogen => 1
    case Hydrogen => 2
    case Oxygen => 3
    case Sulfur => 4
    case _ => 5
  }

  function Bucket(b: Buckets, k: nat): seq<Vec3>
    requires k <= 5
  {
    match k
    case 0 => b.carbon
    case 1 => b.nitrogen
    case 2 => b.hydrogen
    case 3 => b.oxygen
    case 4 => b.sulfur
    case _ => b.others
  }

  /** One more position at the end of array `k`. */
  function Put(b: Buckets, k: nat, position: Vec3): Buckets
    requires k <= 5
  {
    match k
    case 0 => b.(carbon := b.carbon + [position])
    case 1 => b.(nitrogen := b.nitrogen + [position])
    case 2 => b.(hydrogen := b.hydrogen + [position])
    case 3 => b.(oxygen := b.oxygen + [position])
    case 4 => b.(sulfur := b.sulfur + [position])
    case _ => b.(others := b.others + [position])
  }

  /** The element switch of the line closure. */
  function Filed(b: Buckets, element: AtomElement, position: Vec3): Buckets {
    Put(b, BucketOf(element), position)
  }

  /** The arrays appended to each other in C, N, H, O, S, others order. */
  function Flatten(b: Buckets): seq<Vec3> {
    b.carbon + b.nitrogen + b.hydrogen + b.oxygen + b.sulfur + b.others
  }

  /** Filing an atom appends it to the array of its element and to no other. */
  lemma FiledBuckets(b: Buckets, element: AtomElement, position: Vec3)
    ensures forall k :: 0 <= k <= 5 ==>
      Bucket(Filed(b, element, position), k) == Bucket(b, k) + (if k == BucketOf(element) then [position] else [])
  {
    var f := Filed(b, element, position);
    forall k | 0 <= k <= 5
      ensures Bucket(f, k) == Bucket(b, k) + (if k == BucketOf(element) then [position] else [])
    {
      if k != BucketOf(element) {
        assert Bucket(f, k) == Bucket(b, k);
      }
    }
  }

  /** Arrays `k` to 5 appended to each other. */
  function FlattenFrom(b: Buckets, k: nat): seq<Vec3>
    requires k <= 6
    decreases 6 - k
  {
    if k == 6 then [] else Bucket(b, k) + FlattenFrom(b, k + 1)
  }

  lemma FlattenIsFlattenFrom(b: Buckets)
    ensures Flatten(b) == FlattenFrom(b, 0)
  {
    assert FlattenFrom(b, 5) == b.others;
    assert FlattenFrom(b, 4) == b.sulfur + b.others;
    assert FlattenFrom(b, 3) == b.oxygen + (b.sulfur + b.others);
  }

  /** When `f` is `b` with one more position at the end of array `j`, arrays
      `k` to 5 of `f` hold one more occurrence of it than those of `b` if
      array `j` is among them, and the same otherwise. */
  lemma {:induction false} OneMoreFrom(b: Buckets, f: Buckets, j: nat, position: Vec3, k: nat)
    requires j <= 5 && k <= 6
    requires forall i :: k <= i <= 5 ==> Bucket(f, i) == Bucket(b, i) + (if i == j then [position] else [])
    ensures multiset(FlattenFrom(f, k)) ==
      multiset(FlattenFrom(b, k)) + (if k <= j then multiset{position} else multiset{})
    decreases 6 - k
  {
    if k < 6 {
      OneMoreFrom(b, f, j, position, k + 1);
      assert FlattenFrom(f, k) == Bucket(f, k) + FlattenFrom(f, k + 1);
      assert FlattenFrom(b, k) == Bucket(b, k) + FlattenFrom(b, k + 1);
    }
  }

  /** Filing an atom adds one occurrence of it to the arrays. */
  lemma FiledMultiset(b: Buckets, element: AtomElement, position: Vec3)
    ensures multiset(Flatten(Filed(b, element, position))) == multiset(Flatten(b)) + multiset{position}
  {
    var f := Filed(b, element, position);
    FlattenIsFlattenFrom(b);
    FlattenIsFlattenFrom(f);
    FiledBuckets(b, element, position);
    OneMoreFrom(b, f, BucketOf(element), position, 0);
  }

  // ---------------------------------------------------------------------
  // Specification, on values.

  /** The state of one `ParsedConfiguration` object. */
  datatype Configuration = Configuration(
    id: int, energy: Option<real>, buckets: Buckets, atomElements: seq<AtomElement>,
    atomArrayComposition: Composition)

  /** `ParsedConfiguration(id:)`. */
  function EmptyConfiguration(id: int): Configuration {
    Configuration(id, None, NoBuckets, [], Empty)
  }

  /** `createNewConfigurationUnlessEmpty()` as written: the test is on the
      last configuration's composition. */
  function CreateUnlessEmpty(cs: seq<Configuration>): (r: seq<Configuration>)
    requires cs != []
    ensures |r| == |cs| || |r| == |cs| + 1
    ensures r[..|cs|] == cs
    ensures |r| == |cs| + 1 <==> XyzParser.Last(cs).atomArrayComposition.totalCount != 0
    ensures |r| > |cs| ==> r[|cs|] == EmptyConfiguration(|cs|)
  {
    if XyzParser.Last(cs).atomArrayComposition.totalCount != 0 then cs + [EmptyConfiguration(|cs|)] else cs
  }

  /** The energy branch of the line closure. */
  function WithEnergy(cs: seq<Configuration>, energyText: Option<string>, parseReal: string -> Option<real>): (r: seq<Configuration>)
    requires cs != []
  {
    match energyText
    case Some(e) => XyzParser.ReplaceLast(cs, XyzParser.Last(cs).(energy := parseReal(e)))
    case None => cs
  }

  /** The line closure on values. */
  function LineStep(cs: seq<Configuration>, info: LineInfo, parseReal: string -> Option<real>): (r: seq<Configuration>)
    requires cs != []
    ensures r != []
  {
    match info.kind
    case Short => CreateUnlessEmpty(cs)
    case BadCoordinates => CreateUnlessEmpty(WithEnergy(cs, info.energyText, parseReal))
    case AtomRow(element, position) =>
      var c := WithEnergy(cs, info.energyText, parseReal);
      var l := XyzParser.Last(c);
      XyzParser.ReplaceLast(c, l.(buckets := Filed(l.buckets, element, position), atomElements := l.atomElements + [element]))
  }

  function ScanFrom(cs: seq<Configuration>, infos: seq<LineInfo>, parseReal: string -> Option<real>): (r: seq<Configuration>)
    requires cs != []
    ensures r != []
    decreases |infos|
  {
    if infos == [] then cs else LineStep(ScanFrom(cs, infos[..|infos| - 1], parseReal), infos[|infos| - 1], parseReal)
  }

  /** The configurations after the file's lines. */
  function Scan(infos: seq<LineInfo>, parseReal: string -> Option<real>): (r: seq<Configuration>)
    ensures r != []
  {
    ScanFrom([EmptyConfiguration(0)], infos, parseReal)
  }

  lemma ScanFromSnoc(cs: seq<Configuration>, pre: seq<LineInfo>, info: LineInfo, parseReal: string -> Option<real>)
    requires cs != []
    ensures ScanFrom(cs, pre + [info], parseReal) == LineStep(ScanFrom(cs, pre, parseReal), info, parseReal)
  {
    assert (pre + [info])[..|pre|] == pre;
  }

  /** Every configuration's arrays, configuration after configuration. */
  function AllAtoms(cs: seq<Configuration>): seq<Vec3> {
    if cs == [] then [] else AllAtoms(cs[..|cs| - 1]) + Flatten(XyzParser.Last(cs).buckets)
  }

  function EnergiesOf(cs: seq<Configuration>): Option<seq<real>> {
    if cs == [] then None
    else
      var pre := EnergiesOf(cs[..|cs| - 1]);
      match XyzParser.Last(cs).energy
      case Some(e) => Some((if pre.Some? then pre.value else []) + [e])
      case None => pre
  }

  // ---------------------------------------------------------------------
  // Reference definitions on the lines.

  /** The positions of the atom lines whose element goes to array `k`, in
      line order. */
  function PositionsIn(infos: seq<LineInfo>, k: nat): seq<Vec3> {
    if infos == [] then []
    else
      var pre := PositionsIn(infos[..|infos| - 1], k);
      var kind := infos[|infos| - 1].kind;
      if kind.AtomRow? && BucketOf(kind.element) == k then pre + [kind.position] else pre
  }

  /** The arrays as the atom lines fill them: each the positions of its
      elements' atom lines, in line order. */
  function Regrouped(infos: seq<LineInfo>): (b: Buckets)
    ensures forall k :: 0 <= k <= 5 ==> Bucket(b, k) == PositionsIn(infos, k)
  {
    Buckets(PositionsIn(infos, 0), PositionsIn(infos, 1), PositionsIn(infos, 2),
            PositionsIn(infos, 3), PositionsIn(infos, 4), PositionsIn(infos, 5))
  }

  lemma RegroupedSnoc(infos: seq<LineInfo>)
    requires infos != []
    ensures var kind := infos[|infos| - 1].kind;
      var pre := Regrouped(infos[..|infos| - 1]);
      Regrouped(infos) == if kind.AtomRow? then Filed(pre, kind.element, kind.position) else pre
  {
    var kind := infos[|infos| - 1].kind;
    if kind.AtomRow? {
      FiledBuckets(Regrouped(infos[..|infos| - 1]), kind.element, kind.position);
    }
  }

  /** The energy the last line with four or more tokens and an `energy=`
      annotation gives, or none. */
  function LastEnergy(infos: seq<LineInfo>, parseReal: string -> Option<real>): Option<real> {
    if infos == [] then None
    else
      var info := infos[|infos| - 1];
      if !info.kind.Short? && info.energyText.Some? then parseReal(info.energyText.value)
      else LastEnergy(infos[..|infos| - 1], parseReal)
  }

  // ---------------------------------------------------------------------
  // Properties.

  /** The one configuration the reader ever has: number 0, its composition
      untouched. */
  ghost predicate Single(cs: seq<Configuration>) {
    |cs| == 1 && cs[0].id == 0 && cs[0].atomArrayComposition == Empty
  }

  /** A line keeps the single configuration single: an atom line files its
      atom and appends its element; a line of four or more tokens sets the
      energy when it has energy text; nothing else changes. */
  lemma LineStepKeepsSingle(cs: seq<Configuration>, info: LineInfo, parseReal: string -> Option<real>)
    requires Single(cs)
    ensures var r := LineStep(cs, info, parseReal);
      var kind := info.kind;
      && Single(r)
      && r[0].buckets == (if kind.AtomRow? then Filed(cs[0].buckets, kind.element, kind.position) else cs[0].buckets)
      && r[0].atomElements == cs[0].atomElements + (if kind.AtomRow? then [kind.element] else [])
      && r[0].energy == (if !kind.Short? && info.energyText.Some? then parseReal(info.energyText.value) else cs[0].energy)
  {
    match info.kind
    case Short =>
      SingleNeverSplits(cs);
    case BadCoordinates =>
      SingleWithEnergy(cs, info.energyText, parseReal);
      SingleNeverSplits(WithEnergy(cs, info.energyText, parseReal));
    case AtomRow(element, position) =>
      SingleWithEnergy(cs, info.energyText, parseReal);
      var c := WithEnergy(cs, info.energyText, parseReal);
      var l := XyzParser.Last(c);
      assert l == c[0];
      var r := XyzParser.ReplaceLast(c, l.(buckets := Filed(l.buckets, element, position), atomElements := l.atomElements + [element]));
      assert |r| == 1 && r[0] == l.(buckets := Filed(l.buckets, element, position), atomElements := l.atomElements + [element]);
  }

  /** The composition of the one configuration is never updated, so the
      blank-line branch never opens a second one. */
  lemma SingleNeverSplits(cs: seq<Configuration>)
    requires Single(cs)
    ensures CreateUnlessEmpty(cs) == cs
  {
    assert XyzParser.Last(cs) == cs[0];
  }

  /** The energy branch on the single configuration sets its energy only. */
  lemma SingleWithEnergy(cs: seq<Configuration>, energyText: Option<string>, parseReal: string -> Option<real>)
    requires Single(cs)
    ensures var r := WithEnergy(cs, energyText, parseReal);
      && Single(r)
      && r[0] == cs[0].(energy := if energyText.Some? then parseReal(energyText.value) else cs[0].energy)
  {
    if energyText.Some? {
      var r := XyzParser.ReplaceLast(cs, XyzParser.Last(cs).(energy := parseReal(energyText.value)));
      assert XyzParser.Last(cs) == cs[0];
      assert |r| == 1 && r[0] == cs[0].(energy := parseReal(energyText.value));
    }
  }

  /** Whatever the file, the reader ends with its one configuration, which
      holds every atom line's element in line order, each array holding the
      atom lines of its elements in line order, and the last energy. */
  lemma {:induction false} ScanIsSingle(infos: seq<LineInfo>, parseReal: string -> Option<real>)
    ensures var cs := Scan(infos, parseReal);
      && Single(cs)
      && cs[0].atomElements == AtomElementsOf(infos)
      && cs[0].buckets == Regrouped(infos)
      && cs[0].energy == LastEnergy(infos, parseReal)
    decreases |infos|
  {
    if infos != [] {
      var pre := infos[..|infos| - 1];
      ScanIsSingle(pre, parseReal);
      LineStepKeepsSingle(Scan(pre, parseReal), infos[|infos| - 1], parseReal);
      RegroupedSnoc(infos);
    }
  }

  /** The arrays filed from the lines hold the atom lines' positions, each as
      often as it occurs. */
  lemma {:induction false} RegroupedPermutation(infos: seq<LineInfo>)
    ensures multiset(Flatten(Regrouped(infos))) == multiset(AtomPositions(infos))
    decreases |infos|
  {
    if infos != [] {
      var pre := infos[..|infos| - 1];
      RegroupedPermutation(pre);
      RegroupedSnoc(infos);
      var kind := infos[|infos| - 1].kind;
      if kind.AtomRow? {
        FiledMultiset(Regrouped(pre), kind.element, kind.position);
      }
    }
  }

  /** The atoms and energies of a single configuration. */
  lemma SingleContents(cs: seq<Configuration>)
    requires |cs| == 1
    ensures AllAtoms(cs) == Flatten(cs[0].buckets)
    ensures EnergiesOf(cs) == if cs[0].energy.Some? then Some([cs[0].energy.value]) else None
  {
    assert cs[..0] == [];
    assert XyzParser.Last(cs) == cs[0];
    assert EnergiesOf(cs[..0]) == None;
    if cs[0].energy.Some? {
      var e := cs[0].energy.value;
      assert EnergiesOf(cs) == Some([] + [e]);
      assert [] + [e] == [e];
    }
  }

  /** The atoms the reader returns are the atom lines' positions, grouped by
      element: a permutation of them, not in line order. */
  lemma AtomsArePermutation(infos: seq<LineInfo>, parseReal: string -> Option<real>)
    ensures multiset(AllAtoms(Scan(infos, parseReal))) == multiset(AtomPositions(infos))
  {
    ScanIsSingle(infos, parseReal);
    SingleContents(Scan(infos, parseReal));
    RegroupedPermutation(infos);
  }

  /** Two blocks of atom lines with a blank line between them make two
      configurations for the package reader and only one for the app. */
  lemma AsWrittenMergesBlocks(infos: seq<LineInfo>, parseReal: string -> Option<real>)
    ensures |Scan(infos, parseReal)| == 1
    ensures |XyzParser.Scan(infos, parseReal)| == 1 + BlockEnds(infos)
  {
    ScanIsSingle(infos, parseReal);
    XyzParser.ScanCountsBlocks(infos, parseReal);
  }

  /** The atoms come out grouped by element, C, N, H, O, S, others, while
      the element list keeps line order: atom `i` need not have element `i`
      as soon as, say, an oxygen line comes before a carbon line. */
  lemma AtomsGroupedByElement(infos: seq<LineInfo>, parseReal: string -> Option<real>)
    ensures AllAtoms(Scan(infos, parseReal)) ==
      PositionsIn(infos, 0) + PositionsIn(infos, 1) + PositionsIn(infos, 2)
      + PositionsIn(infos, 3) + PositionsIn(infos, 4) + PositionsIn(infos, 5)
    ensures Scan(infos, parseReal)[0].atomElements == AtomElementsOf(infos)
  {
    ScanIsSingle(infos, parseReal);
    SingleContents(Scan(infos, parseReal));
  }

  // ---------------------------------------------------------------------
  // Atoms and elements side by side.

  /** The atom lines filed into array `k`, in line order. */
  function RowsIn(infos: seq<LineInfo>, k: nat): (rs: seq<LineKind>)
    ensures forall r :: r in rs ==> r.AtomRow? && BucketOf(r.element) == k
  {
    if infos == [] then []
    else
      var pre := RowsIn(infos[..|infos| - 1], k);
      var kind := infos[|infos| - 1].kind;
      if kind.AtomRow? && BucketOf(kind.element) == k then pre + [kind] else pre
  }

  function RowPositions(rs: seq<LineKind>): (ps: seq<Vec3>)
    requires forall r :: r in rs ==> r.AtomRow?
    ensures |ps| == |rs| && forall i :: 0 <= i < |rs| ==> ps[i] == rs[i].position
  {
    seq(|rs|, i requires 0 <= i < |rs| => rs[i].position)
  }

  function RowElements(rs: seq<LineKind>): (es: seq<AtomElement>)
    requires forall r :: r in rs ==> r.AtomRow?
    ensures |es| == |rs| && forall i :: 0 <= i < |rs| ==> es[i] == rs[i].element
  {
    seq(|rs|, i requires 0 <= i < |rs| => rs[i].element)
  }

  lemma RowPositionsAppend(a: seq<LineKind>, b: seq<LineKind>)
    requires forall r :: r in a ==> r.AtomRow?
    requires forall r :: r in b ==> r.AtomRow?
    ensures RowPositions(a + b) == RowPositions(a) + RowPositions(b)
  {
  }

  /** Every row filed into an array is an atom line of the file. */
  lemma {:induction false} RowsInAreLines(infos: seq<LineInfo>, k: nat)
    ensures forall r :: r in RowsIn(infos, k) ==> exists j :: 0 <= j < |infos| && infos[j].kind == r
    decreases |infos|
  {
    if infos != [] {
      var init := infos[..|infos| - 1];
      RowsInAreLines(init, k);
      forall r | r in RowsIn(infos, k)
        ensures exists j :: 0 <= j < |infos| && infos[j].kind == r
      {
        if r in RowsIn(init, k) {
          var j :| 0 <= j < |init| && init[j].kind == r;
          assert infos[j].kind == r;
        } else {
          assert infos[|infos| - 1].kind == r;
        }
      }
    }
  }

  /** The positions of the rows filed into array `k` are that array. */
  lemma {:induction false} RowsInPositions(infos: seq<LineInfo>, k: nat)
    ensures RowPositions(RowsIn(infos, k)) == PositionsIn(infos, k)
    decreases |infos|
  {
    if infos != [] {
      var init := infos[..|infos| - 1];
      RowsInPositions(init, k);
      var kind := infos[|infos| - 1].kind;
      if kind.AtomRow? && BucketOf(kind.element) == k {
        RowPositionsAppend(RowsIn(init, k), [kind]);
      }
    }
  }

  /** The atom lines in the order the atom array lays them out. */
  function GroupedRows(infos: seq<LineInfo>): (rs: seq<LineKind>)
    ensures forall r :: r in rs ==> r.AtomRow?
  {
    RowsIn(infos, 0) + RowsIn(infos, 1) + RowsIn(infos, 2) + RowsIn(infos, 3) + RowsIn(infos, 4) + RowsIn(infos, 5)
  }

  /** The element list as evidently intended: laid out like the atoms, so
      that element `i` belongs to atom `i`. */
  function GroupedElements(infos: seq<LineInfo>): seq<AtomElement> {
    RowElements(GroupedRows(infos))
  }

  /** With the grouped element list, atom `i` and element `i` come from one
      and the same atom line of the file, for every `i`. */
  lemma GroupedElementsAlign(infos: seq<LineInfo>, parseReal: string -> Option<real>)
    ensures |GroupedElements(infos)| == |AllAtoms(Scan(infos, parseReal))|
    ensures forall i :: 0 <= i < |GroupedElements(infos)| ==>
      exists j :: 0 <= j < |infos| && infos[j].kind == AtomRow(GroupedElements(infos)[i], AllAtoms(Scan(infos, parseReal))[i])
  {
    AtomsGroupedByElement(infos, parseReal);
    var r0, r1, r2, r3, r4, r5 := RowsIn(infos, 0), RowsIn(infos, 1), RowsIn(infos, 2), RowsIn(infos, 3), RowsIn(infos, 4), RowsIn(infos, 5);
    RowsInPositions(infos, 0); RowsInPositions(infos, 1); RowsInPositions(infos, 2);
    RowsInPositions(infos, 3); RowsInPositions(infos, 4); RowsInPositions(infos, 5);
    RowsInAreLines(infos, 0); RowsInAreLines(infos, 1); RowsInAreLines(infos, 2);
    RowsInAreLines(infos, 3); RowsInAreLines(infos, 4); RowsInAreLines(infos, 5);
    RowPositionsAppend(r0, r1);
    RowPositionsAppend(r0 + r1, r2);
    RowPositionsAppend(r0 + r1 + r2, r3);
    RowPositionsAppend(r0 + r1 + r2 + r3, r4);
    RowPositionsAppend(r0 + r1 + r2 + r3 + r4, r5);
    var rows := GroupedRows(infos);
    var atoms := AllAtoms(Scan(infos, parseReal));
    assert atoms == RowPositions(rows);
    forall i | 0 <= i < |rows|
      ensures exists j :: 0 <= j < |infos| && infos[j].kind == AtomRow(GroupedElements(infos)[i], atoms[i])
    {
      var r := rows[i];
      assert r in rows;
      assert r == AtomRow(GroupedElements(infos)[i], atoms[i]);
    }
  }

  /** An oxygen line and then a carbon line, as the fold files them. */
  lemma OxygenThenCarbon(infos: seq<LineInfo>, o: Vec3, c: Vec3)
    requires |infos| == 2 && infos[0].kind == AtomRow(Oxygen, o) && infos[1].kind == AtomRow(Carbon, c)
    ensures var es := AtomElementsOf(infos); |es| == 2 && es[0] == Oxygen && es[1] == Carbon
    ensures var ps := PositionsIn(infos, 0) + PositionsIn(infos, 1) + PositionsIn(infos, 2)
      + PositionsIn(infos, 3) + PositionsIn(infos, 4) + PositionsIn(infos, 5);
      |ps| == 2 && ps[0] == c && ps[1] == o
    ensures var es := GroupedElements(infos); |es| == 2 && es[0] == Carbon && es[1] == Oxygen
  {
    assert infos[..1] == [infos[0]];
    assert infos[..1][..0] == [];
    assert BucketOf(Carbon) == 0 && BucketOf(Oxygen) == 3;
    forall k | 0 <= k <= 5
      ensures PositionsIn(infos, k) == (if k == 0 then [c] else []) + (if k == 3 then [o] else [])
      ensures RowsIn(infos, k) == (if k == 0 then [AtomRow(Carbon, c)] else []) + (if k == 3 then [AtomRow(Oxygen, o)] else [])
    {
      assert PositionsIn(infos[..1], k) == if k == 3 then [o] else [];
      assert RowsIn(infos[..1], k) == if k == 3 then [AtomRow(Oxygen, o)] else [];
    }
    assert GroupedRows(infos) == [AtomRow(Carbon, c), AtomRow(Oxygen, o)];
  }

  /** As written, an oxygen line before a carbon line lays out the carbon
      atom first while the element list starts with oxygen; the grouped
      element list starts with carbon. */
  lemma AsWrittenMisalignsElements(infos: seq<LineInfo>, o: Vec3, c: Vec3, parseReal: string -> Option<real>)
    requires |infos| == 2 && infos[0].kind == AtomRow(Oxygen, o) && infos[1].kind == AtomRow(Carbon, c)
    ensures AllAtoms(Scan(infos, parseReal)) == [c, o]
    ensures Scan(infos, parseReal)[0].atomElements == [Oxygen, Carbon]
    ensures GroupedElements(infos) == [Carbon, Oxygen]
  {
    AtomsGroupedByElement(infos, parseReal);
    OxygenThenCarbon(infos, o, c);
    var ps := PositionsIn(infos, 0) + PositionsIn(infos, 1) + PositionsIn(infos, 2)
      + PositionsIn(infos, 3) + PositionsIn(infos, 4) + PositionsIn(infos, 5);
    PairDisplay(ps, c, o);
    PairDisplay(AtomElementsOf(infos), Oxygen, Carbon);
    PairDisplay(GroupedElements(infos), Carbon, Oxygen);
  }

  lemma PairDisplay<T>(s: seq<T>, a: T, b: T)
    requires |s| == 2 && s[0] == a && s[1] == b
    ensures s == [a, b]
  {
  }

  // ---------------------------------------------------------------------
  // The result.

  /** What `parseXYZ` builds from its configurations; the file has the
      package reader's shape. */
  function Assembled(cs: seq<Configuration>, fileName: string, fileExtension: string, byteSize: Option<int>,
                     originalFileInfo: Option<ParsePdb.KnownInfo>, uuid: Proteins.Uuid)
    : Result<XyzParser.XyzFile, ParsePdb.ImportError>
    requires cs != []
  {
    var atoms := AllAtoms(cs);
    if |atoms| == 0 then Err(ParsePdb.EmptyAtomCount)
    else
      var first := cs[0];
      var subunit := ProteinSubunits.Make(first.id, UnknownKind, first.atomArrayComposition.totalCount, 0);
      var protein := Proteins.Make(uuid, |cs|, EnergiesOf(cs), 1, [subunit], atoms, Counted(first.atomElements),
                                   first.atomElements, None, None, None, None);
      Ok(XyzParser.XyzFile(if |cs| > 1 then XyzParser.DynamicStructure else XyzParser.StaticStructure,
                           fileName, fileExtension, [protein], ParsePdb.Inherited(originalFileInfo), byteSize))
  }

  /** The app's file: `emptyAtomCount` exactly when there is no atom line;
      otherwise a static structure with one configuration, whose atoms are
      the atom lines' positions grouped by element, whose element list is
      every atom line's element in line order, whose energy is the last one
      given, and whose one subunit claims 0 atoms. */
  lemma AssembledMeaning(infos: seq<LineInfo>, fileName: string, fileExtension: string, byteSize: Option<int>,
                         originalFileInfo: Option<ParsePdb.KnownInfo>, uuid: Proteins.Uuid, parseReal: string -> Option<real>)
    ensures var cs := Scan(infos, parseReal);
      var r := Assembled(cs, fileName, fileExtension, byteSize, originalFileInfo, uuid);
      && (r.Err? <==> AtomPositions(infos) == [])
      && (r.Ok? ==>
            var p := r.value.models[0];
            && |r.value.models| == 1 && r.value.fileType == XyzParser.StaticStructure
            && multiset(p.atoms) == multiset(AtomPositions(infos))
            && p.atomElements == AtomElementsOf(infos)
            && p.atomCount == |AtomPositions(infos)|
            && p.configurationCount == 1
            && p.configurationEnergies == (if LastEnergy(infos, parseReal).Some? then Some([LastEnergy(infos, parseReal).value]) else None)
            && p.subunits == [ProteinSubunit(0, UnknownKind, 0, 0)])
  {
    var cs := Scan(infos, parseReal);
    ScanIsSingle(infos, parseReal);
    SingleContents(cs);
    AtomsArePermutation(infos, parseReal);
    if |AllAtoms(cs)| == 0 {
      assert multiset(AtomPositions(infos)) == multiset{};
    }
  }

  // ---------------------------------------------------------------------
  // The reader's objects.

  /** `ParsedConfiguration`. */
  class ParsedConfiguration {
    var id: int
    var energy: Option<real>
    var carbonArray: seq<Vec3>
    var nitrogenArray: seq<Vec3>
    var hydrogenArray: seq<Vec3>
    var oxygenArray: seq<Vec3>
    var sulfurArray: seq<Vec3>
    var othersArray: seq<Vec3>
    var atomElements: seq<AtomElement>
    var atomArrayComposition: Composition

    function Value(): Configuration
      reads this
    {
      Configuration(id, energy, Buckets(carbonArray, nitrogenArray, hydrogenArray, oxygenArray, sulfurArray, othersArray),
                    atomElements, atomArrayComposition)
    }

    constructor(id: int)
      ensures Value() == EmptyConfiguration(id)
    {
      this.id := id;
      energy := None;
      carbonArray, nitrogenArray, hydrogenArray, oxygenArray, sulfurArray, othersArray := [], [], [], [], [], [];
      atomElements := [];
      atomArrayComposition := Empty;
    }

    /** `energy = ...`. */
    method SetEnergy(energy: Option<real>)
      modifies this
      ensures Value() == old(Value()).(energy := energy)
    {
      this.energy := energy;
    }

    /** The element switch and the append of the element. */
    method FileAtom(element: AtomElement, position: Vec3)
      modifies this
      ensures Value() == old(Value()).(buckets := Filed(old(Value()).buckets, element, position),
                                       atomElements := old(atomElements) + [element])
    {
      match element {
        case Carbon => carbonArray := carbonArray + [position];
        case Nitrogen => nitrogenArray := nitrogenArray + [position];
        case Hydrogen => hydrogenArray := hydrogenArray + [position];
        case Oxygen => oxygenArray := oxygenArray + [position];
        case Sulfur => sulfurArray := sulfurArray + [position];
        case _ => othersArray := othersArray + [position];
      }
      atomElements := atomElements + [element];
    }
  }

  ghost predicate Distinct(cs: seq<ParsedConfiguration>) {
    forall i, j :: 0 <= i < j < |cs| ==> cs[i] != cs[j]
  }

  /** The states of a list of configuration objects. */
  function Values(cs: seq<ParsedConfiguration>): (r: seq<Configuration>)
    reads cs
    ensures |r| == |cs| && forall k :: 0 <= k < |cs| ==> r[k] == cs[k].Value()
  {
    if cs == [] then [] else Values(cs[..|cs| - 1]) + [cs[|cs| - 1].Value()]
  }

  /** The last configuration object, the only one a line may change. */
  function LastOnly(cs: seq<ParsedConfiguration>): (r: set<ParsedConfiguration>)
    ensures forall c :: c in r ==> c in cs
  {
    if cs == [] then {} else {cs[|cs| - 1]}
  }

  /** When only the last of distinct objects changed, only the last state
      changed. */
  twostate lemma ValuesAfterLastChanged(cs: seq<ParsedConfiguration>)
    requires cs != []
    requires forall k :: 0 <= k < |cs| - 1 ==> unchanged(cs[k])
    ensures Values(cs) == XyzParser.ReplaceLast(old(Values(cs)), cs[|cs| - 1].Value())
  {
    var r := Values(cs);
    var o := old(Values(cs));
    var t := XyzParser.ReplaceLast(o, cs[|cs| - 1].Value());
    forall k | 0 <= k < |cs|
      ensures r[k] == t[k]
    {
      if k < |cs| - 1 {
        ValueUnchanged(cs[k]);
        assert t[k] == t[..|cs| - 1][k] == o[k];
      }
    }
  }

  twostate lemma ValueUnchanged(c: ParsedConfiguration)
    requires unchanged(c)
    ensures c.Value() == old(c.Value())
  {
  }

  /** One more configuration's atoms and energy. */
  lemma AllAtomsTake(cs: seq<Configuration>, i: nat)
    requires i < |cs|
    ensures AllAtoms(cs[..i + 1]) == AllAtoms(cs[..i]) + Flatten(cs[i].buckets)
    ensures EnergiesOf(cs[..i + 1]) ==
      match cs[i].energy
      case Some(e) => Some((if EnergiesOf(cs[..i]).Some? then EnergiesOf(cs[..i]).value else []) + [e])
      case None => EnergiesOf(cs[..i])
  {
    assert cs[..i + 1][..i] == cs[..i];
  }

  lemma ValuesSnoc(cs: seq<ParsedConfiguration>, c: ParsedConfiguration)
    ensures Values(cs + [c]) == Values(cs) + [c.Value()]
  {
    assert (cs + [c])[..|cs|] == cs;
  }

  /** `createNewConfigurationUnlessEmpty()`, on the closure's captured list. */
  method CreateNewConfigurationUnlessEmpty(configurations: seq<ParsedConfiguration>)
    returns (updated: seq<ParsedConfiguration>)
    requires configurations != [] && Distinct(configurations)
    ensures updated != [] && Distinct(updated)
    ensures Values(updated) == CreateUnlessEmpty(Values(configurations))
    ensures forall c :: c in updated ==> c in configurations || fresh(c)
  {
    updated := configurations;
    if configurations[|configurations| - 1].atomArrayComposition.totalCount == 0 {
      return;
    }
    var configuration := new ParsedConfiguration(|configurations|);
    ValuesSnoc(configurations, configuration);
    updated := configurations + [configuration];
  }

  /** The energy branch of the closure, on the last configuration object. */
  method RecordEnergy(configurations: seq<ParsedConfiguration>, energyText: Option<string>, parseReal: string -> Option<real>)
    requires configurations != [] && Distinct(configurations)
    modifies LastOnly(configurations)
    ensures Values(configurations) == WithEnergy(old(Values(configurations)), energyText, parseReal)
  {
    if energyText.Some? {
      var last := configurations[|configurations| - 1];
      last.SetEnergy(parseReal(energyText.value));
      ValuesAfterLastChanged(configurations);
    }
  }

  /** The line closure of `enumerateLines`: the line read into its kind
      (`ReadLine` states the token count and coordinate checks) and its
      energy text, and the configurations stepped by it. */
  method ParseLine(configurations: seq<ParsedConfiguration>, line: string, parseReal: string -> Option<real>)
    returns (updated: seq<ParsedConfiguration>)
    requires configurations != [] && Distinct(configurations)
    modifies LastOnly(configurations)
    ensures updated != [] && Distinct(updated)
    ensures Values(updated) == LineStep(old(Values(configurations)), Info(line, parseReal), parseReal)
    ensures forall c :: c in updated ==> c in configurations || fresh(c)
  {
    var kind := ReadLine(line, parseReal);
    var energyText := EnergyText(line);
    updated := ApplyLine(configurations, LineInfo(kind, energyText), parseReal);
  }

  /** The branches of the closure: a short line asks for a new
      configuration; a longer one first records its energy, then asks for a
      new configuration when its coordinates do not parse and files its atom
      when they do. */
  method ApplyLine(configurations: seq<ParsedConfiguration>, info: LineInfo, parseReal: string -> Option<real>)
    returns (updated: seq<ParsedConfiguration>)
    requires configurations != [] && Distinct(configurations)
    modifies LastOnly(configurations)
    ensures updated != [] && Distinct(updated)
    ensures Values(updated) == LineStep(old(Values(configurations)), info, parseReal)
    ensures forall c :: c in updated ==> c in configurations || fresh(c)
  {
    match info.kind {
      case Short =>
        updated := CreateNewConfigurationUnlessEmpty(configurations);
      case BadCoordinates =>
        RecordEnergy(configurations, info.energyText, parseReal);
        updated := CreateNewConfigurationUnlessEmpty(configurations);
      case AtomRow(element, position) =>
        RecordEnergy(configurations, info.energyText, parseReal);
        FileIntoLast(configurations, element, position);
        updated := configurations;
    }
  }

  /** `configurations.last?` receives the atom. */
  method FileIntoLast(configurations: seq<ParsedConfiguration>, element: AtomElement, position: Vec3)
    requires configurations != [] && Distinct(configurations)
    modifies LastOnly(configurations)
    ensures var l := XyzParser.Last(old(Values(configurations)));
      Values(configurations) == XyzParser.ReplaceLast(old(Values(configurations)),
        l.(buckets := Filed(l.buckets, element, position), atomElements := l.atomElements + [element]))
  {
    var last := configurations[|configurations| - 1];
    last.FileAtom(element, position);
    ValuesAfterLastChanged(configurations);
  }

  /** `rawText.enumerateLines`: the closure run on every line in order. */
  method ParseLines(lines: seq<string>, parseReal: string -> Option<real>) returns (configurations: seq<ParsedConfiguration>)
    ensures configurations != [] && Distinct(configurations)
    ensures Values(configurations) == Scan(Infos(lines, parseReal), parseReal)
  {
    var first := new ParsedConfiguration(0);
    configurations := [first];
    for i := 0 to |lines|
      invariant configurations != [] && Distinct(configurations)
      invariant fresh(set c | c in configurations)
      invariant Values(configurations) == Scan(Infos(lines[..i], parseReal), parseReal)
    {
      InfosSnoc(lines, i, parseReal);
      ScanFromSnoc([EmptyConfiguration(0)], Infos(lines[..i], parseReal), Info(lines[i], parseReal), parseReal);
      configurations := ParseLine(configurations, lines[i], parseReal);
    }
    assert lines[..|lines|] == lines;
  }

  /** The configuration loop: the arrays of every configuration appended in
      C, N, H, O, S, others order, and the energies collected. */
  method ConcatenateConfigurations(configurations: seq<ParsedConfiguration>)
    returns (atomArray: seq<Vec3>, energyArray: Option<seq<real>>)
    ensures atomArray == AllAtoms(Values(configurations)) && energyArray == EnergiesOf(Values(configurations))
  {
    ghost var cs := Values(configurations);
    atomArray := [];
    energyArray := None;
    for i := 0 to |configurations|
      invariant atomArray == AllAtoms(cs[..i])
      invariant energyArray == EnergiesOf(cs[..i])
    {
      AllAtomsTake(cs, i);
      var configuration := configurations[i];
      ghost var before := atomArray;
      atomArray := atomArray + configuration.carbonArray;
      atomArray := atomArray + configuration.nitrogenArray;
      atomArray := atomArray + configuration.hydrogenArray;
      atomArray := atomArray + configuration.oxygenArray;
      atomArray := atomArray + configuration.sulfurArray;
      atomArray := atomArray + configuration.othersArray;
      assert cs[i].buckets == Buckets(configuration.carbonArray, configuration.nitrogenArray, configuration.hydrogenArray,
                                      configuration.oxygenArray, configuration.sulfurArray, configuration.othersArray);
      ConcatSix(before, configuration.carbonArray, configuration.nitrogenArray, configuration.hydrogenArray,
                configuration.oxygenArray, configuration.sulfurArray, configuration.othersArray);
      if configuration.energy.Some? {
        if energyArray.None? {
          energyArray := Some([]);
        }
        energyArray := Some(energyArray.value + [configuration.energy.value]);
      }
    }
    assert cs[..|configurations|] == cs;
  }

  lemma ConcatSix<T>(x: seq<T>, a: seq<T>, b: seq<T>, c: seq<T>, d: seq<T>, e: seq<T>, f: seq<T>)
    ensures x + a + b + c + d + e + f == x + (a + b + c + d + e + f)
  {
  }

  /** `parseXYZ(...)`: `lines` is the text as `enumerateLines` hands it
      over, `uuid` the protein's random identity. */
  method ParseXyzFile(fileName: string, fileExtension: string, byteSize: Option<int>, lines: seq<string>,
                      originalFileInfo: Option<ParsePdb.KnownInfo>, uuid: Proteins.Uuid, parseReal: string -> Option<real>)
    returns (r: Result<XyzParser.XyzFile, ParsePdb.ImportError>)
    ensures r == Assembled(Scan(Infos(lines, parseReal), parseReal), fileName, fileExtension, byteSize, originalFileInfo, uuid)
  {
    var configurations := ParseLines(lines, parseReal);
    r := AssembleFile(fileName, fileExtension, byteSize, configurations, originalFileInfo, uuid);
  }

  /** The part of `parseXYZ(...)` after the line loop. */
  method AssembleFile(fileName: string, fileExtension: string, byteSize: Option<int>,
                      configurations: seq<ParsedConfiguration>, originalFileInfo: Option<ParsePdb.KnownInfo>,
                      uuid: Proteins.Uuid)
    returns (r: Result<XyzParser.XyzFile, ParsePdb.ImportError>)
    requires configurations != []
    ensures r == Assembled(Values(configurations), fileName, fileExtension, byteSize, originalFileInfo, uuid)
  {
    var fileInfo := ParsePdb.Inherited(originalFileInfo);
    ghost var cs := Values(configurations);
    var firstConfiguration := configurations[0];
    var configurationCount := |configurations|;
    var atomArray, energyArray := ConcatenateConfigurations(configurations);
    if |atomArray| == 0 {
      return Err(ParsePdb.EmptyAtomCount);
    }
    var atomElements: seq<AtomElement> := [] + firstConfiguration.atomElements;
    assert atomElements == cs[0].atomElements;
    var atomArrayComposition := CountElements(atomElements);
    var proteinSubunits := [ProteinSubunits.Make(firstConfiguration.id, UnknownKind,
                                                 firstConfiguration.atomArrayComposition.totalCount, 0)];
    var protein := Proteins.Make(uuid, configurationCount, energyArray, 1, proteinSubunits, atomArray,
                                 atomArrayComposition, atomElements, None, None, None, None);
    var fileType := if |configurations| > 1 then XyzParser.DynamicStructure else XyzParser.StaticStructure;
    r := Ok(XyzParser.XyzFile(fileType, fileName, fileExtension, [protein], fileInfo, byteSize));
  }
}
