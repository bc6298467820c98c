/** Per-element atom counts of a structure: the counting initialiser, the
    merging `+=` and the count of C/H/N/O/S atoms. The package copy and the
    older app copy of this type have the same code and share this model. */
module ElementCompositions {
  import opened AtomElements

  datatype Composition = Composition(elementCounts: map<AtomElement, int>, totalCount: int)

  /** `elementCounts[e] ?? 0`. */
  function Get(m: map<AtomElement, int>, e: AtomElement): int {
    if e in m then m[e] else 0
  }

  /** `init()`: no counts, total 0. */
  const Empty: Composition := Composition(map[], 0)

  /** How often each element occurs in a list, for the elements that occur. */
  function CountsOf(xs: seq<AtomElement>): map<AtomElement, int> {
    map e | e in xs :: multiset(xs)[e]
  }

  /** The composition that counting `xs` should produce. */
  function Counted(xs: seq<AtomElement>): Composition {
    Composition(CountsOf(xs), |xs|)
  }

  /** Sum of the counts of the listed elements (`Get` per element). */
  function SumOver(cases: seq<AtomElement>, m: map<AtomElement, int>): int {
    if cases == [] then 0 else SumOver(cases[..|cases| - 1], m) + Get(m, cases[|cases| - 1])
  }

  /** `init(elements:)`. The first loop counts every element into the
      dictionary; the second adds the dictionary's values into `totalCount`.
      Dictionary iteration order is unspecified, so the values are visited
      in `allCases` order, which gives the same sum. */
  method CountElements(elements: seq<AtomElement>) returns (c: Composition)
    ensures c == Counted(elements)
  {
    var counts: map<AtomElement, int> := map[];
    var i := 0;
    while i < |elements|
      invariant 0 <= i <= |elements|
      invariant counts == CountsOf(elements[..i])
    {
      var e := elements[i];
      CountsOfSnoc(elements[..i], e);
      assert elements[..i + 1] == elements[..i] + [e];
      if e in counts {
        counts := counts[e := counts[e] + 1];
      } else {
        counts := counts[e := 1];
      }
      i := i + 1;
    }
    assert elements[..i] == elements;
    var total := SumCounts(AllCases, counts);
    SumOverAllCases(elements);
    c := Composition(counts, total);
  }

  /** The second loop of `init(elements:)`: the dictionary's values added up,
      visited in the order of `cases`, absent keys skipped. */
  method SumCounts(cases: seq<AtomElement>, counts: map<AtomElement, int>) returns (total: int)
    ensures total == SumOver(cases, counts)
  {
    total := 0;
    var k := 0;
    while k < |cases|
      invariant 0 <= k <= |cases|
      invariant total == SumOver(cases[..k], counts)
    {
      assert cases[..k + 1][..k] == cases[..k];
      if cases[k] in counts {
        total := total + counts[cases[k]];
      }
      k := k + 1;
    }
    assert cases[..k] == cases;
  }

  /** A counted composition has a key for exactly the elements that occur,
      counts each as often as it occurs and totals the number of elements. */
  lemma CountedMeaning(xs: seq<AtomElement>)
    ensures forall e :: e in Counted(xs).elementCounts <==> e in xs
    ensures forall e :: Get(Counted(xs).elementCounts, e) == multiset(xs)[e]
    ensures Counted(xs).totalCount == |xs|
  {
  }

  lemma CountsOfSnoc(xs: seq<AtomElement>, e: AtomElement)
    ensures CountsOf(xs + [e]) == CountsOf(xs)[e := Get(CountsOf(xs), e) + 1]
  {
    assert multiset(xs + [e]) == multiset(xs) + multiset{e};
  }

  /** Adding one to the count of `e` adds to the sum once per listing of `e`. */
  lemma {:induction false} SumOverBump(cases: seq<AtomElement>, m: map<AtomElement, int>, e: AtomElement)
    ensures SumOver(cases, m[e := Get(m, e) + 1]) == SumOver(cases, m) + multiset(cases)[e]
    decreases |cases|
  {
    if cases != [] {
      var init := cases[..|cases| - 1];
      SumOverBump(init, m, e);
      assert cases == init + [cases[|cases| - 1]];
      assert multiset(cases) == multiset(init) + multiset{cases[|cases| - 1]};
    }
  }

  /** A list without repetitions holds each of its members exactly once. */
  lemma {:induction false} MultisetOfDistinct(s: seq<AtomElement>, e: AtomElement)
    requires forall i, j :: 0 <= i < j < |s| ==> s[i] != s[j]
    ensures multiset(s)[e] == if e in s then 1 else 0
    decreases |s|
  {
    if s != [] {
      assert s == [s[0]] + s[1..];
      assert multiset(s) == multiset{s[0]} + multiset(s[1..]);
      MultisetOfDistinct(s[1..], e);
      if e == s[0] {
        assert e !in s[1..];
      }
    }
  }

  lemma RawIndexOfCase(i: int)
    requires 0 <= i < |AllCases|
    ensures RawIndex(AllCases[i]) == i
  {
    if i < 8 {
      if i == 0 {} else if i == 1 {} else if i == 2 {} else if i == 3 {}
      else if i == 4 {} else if i == 5 {} else if i == 6 {} else {}
    } else {
      if i == 8 {} else if i == 9 {} else if i == 10 {} else if i == 11 {}
      else if i == 12 {} else if i == 13 {} else if i == 14 {} else {}
    }
  }

  /** Every case is listed exactly once in `allCases`. */
  lemma AllCasesOnce(e: AtomElement)
    ensures multiset(AllCases)[e] == 1
  {
    forall i, j | 0 <= i < j < |AllCases| ensures AllCases[i] != AllCases[j] {
      RawIndexOfCase(i);
      RawIndexOfCase(j);
    }
    AllCasesComplete(e);
    MultisetOfDistinct(AllCases, e);
  }

  /** Over a list naming every element exactly once, the counts add up to
      the number of elements counted. */
  lemma {:induction false} SumOverComplete(cases: seq<AtomElement>, xs: seq<AtomElement>)
    requires forall e :: multiset(cases)[e] == 1
    ensures SumOver(cases, CountsOf(xs)) == |xs|
    decreases |xs|
  {
    if xs == [] {
      SumOverZero(cases, CountsOf(xs));
    } else {
      var init, e := xs[..|xs| - 1], xs[|xs| - 1];
      assert xs == init + [e];
      SumOverComplete(cases, init);
      CountsOfSnoc(init, e);
      SumOverBump(cases, CountsOf(init), e);
    }
  }

  /** The counts of all cases add up to the number of elements counted. */
  lemma SumOverAllCases(xs: seq<AtomElement>)
    ensures SumOver(AllCases, CountsOf(xs)) == |xs|
  {
    forall e ensures multiset(AllCases)[e] == 1 {
      AllCasesOnce(e);
    }
    SumOverComplete(AllCases, xs);
  }

  lemma {:induction false} SumOverZero(cases: seq<AtomElement>, m: map<AtomElement, int>)
    requires m == map[]
    ensures SumOver(cases, m) == 0
    decreases |cases|
  {
    if cases != [] {
      SumOverZero(cases[..|cases| - 1], m);
    }
  }

  /** `+=`: the dictionaries are merged adding the counts of shared keys, and
      the totals are added. Missing keys count as 0. */
  function Merge(lhs: Composition, rhs: Composition): (r: Composition)
    ensures r.elementCounts.Keys == lhs.elementCounts.Keys + rhs.elementCounts.Keys
    ensures forall e :: Get(r.elementCounts, e) == Get(lhs.elementCounts, e) + Get(rhs.elementCounts, e)
    ensures r.totalCount == lhs.totalCount + rhs.totalCount
  {
    var keys := lhs.elementCounts.Keys + rhs.elementCounts.Keys;
    Composition(
      map e | e in keys :: Get(lhs.elementCounts, e) + Get(rhs.elementCounts, e),
      lhs.totalCount + rhs.totalCount)
  }

  /** Merging the counts of two lists is counting their concatenation. */
  lemma MergeCounted(a: seq<AtomElement>, b: seq<AtomElement>)
    ensures Merge(Counted(a), Counted(b)) == Counted(a + b)
  {
    var l, r := Merge(Counted(a), Counted(b)).elementCounts, CountsOf(a + b);
    forall e ensures e in l <==> e in r {
      assert e in a + b <==> e in a || e in b;
    }
    forall e ensures Get(l, e) == Get(r, e) {
      GetCountsOf(a, e);
      GetCountsOf(b, e);
      GetCountsOf(a + b, e);
      assert multiset(a + b) == multiset(a) + multiset(b);
    }
    SameCounts(l, r);
  }

  /** The count `Get` reads from a counted list is the element's multiplicity. */
  lemma GetCountsOf(xs: seq<AtomElement>, e: AtomElement)
    ensures Get(CountsOf(xs), e) == multiset(xs)[e]
  {
  }

  /** Two count dictionaries with the same keys and the same counts are equal. */
  lemma SameCounts(l: map<AtomElement, int>, r: map<AtomElement, int>)
    requires forall e :: e in l <==> e in r
    requires forall e :: Get(l, e) == Get(r, e)
    ensures l == r
  {
    forall e | e in l ensures l[e] == r[e] {
      assert Get(l, e) == Get(r, e);
    }
  }

  /** The empty composition is the identity of `+=`, on both sides. */
  lemma {:induction false} MergeEmpty(c: Composition)
    ensures Merge(Empty, c) == c
    ensures Merge(c, Empty) == c
  {
    var l, r := Merge(Empty, c).elementCounts, Merge(c, Empty).elementCounts;
    assert l.Keys == c.elementCounts.Keys;
    assert r.Keys == c.elementCounts.Keys;
    assert forall e | e in l :: l[e] == c.elementCounts[e];
    assert forall e | e in r :: r[e] == c.elementCounts[e];
  }

  /** `+=` is commutative. */
  lemma MergeCommutes(a: Composition, b: Composition)
    ensures Merge(a, b) == Merge(b, a)
  {
  }

  /** `importantElementCount`: the loop over `importantElements` adding each
      element's count, 0 when absent. */
  method ImportantElementCount(c: Composition) returns (sum: int)
    ensures sum == Get(c.elementCounts, Carbon) + Get(c.elementCounts, Hydrogen)
      + Get(c.elementCounts, Nitrogen) + Get(c.elementCounts, Oxygen)
      + Get(c.elementCounts, Sulfur)
    ensures sum == SumOver(ImportantElements, c.elementCounts)
  {
    sum := 0;
    var k := 0;
    while k < |ImportantElements|
      invariant 0 <= k <= |ImportantElements|
      invariant sum == SumOver(ImportantElements[..k], c.elementCounts)
    {
      assert ImportantElements[..k + 1][..k] == ImportantElements[..k];
      sum := sum + Get(c.elementCounts, ImportantElements[k]);
      k := k + 1;
    }
    assert ImportantElements[..k] == ImportantElements;
    ImportantSumSpelledOut(c.elementCounts);
  }

  /** Every important element is listed once in `importantElements`, the
      others not at all. */
  lemma ImportantOnce(e: AtomElement)
    ensures multiset(ImportantElements)[e] == if IsImportant(e) then 1 else 0
  {
    ImportantMembership(e);
    MultisetOfDistinct(ImportantElements, e);
  }

  /** The important count spelt out over C, H, N, O and S. */
  lemma ImportantSumSpelledOut(m: map<AtomElement, int>)
    ensures SumOver(ImportantElements, m)
      == Get(m, Carbon) + Get(m, Hydrogen) + Get(m, Nitrogen) + Get(m, Oxygen) + Get(m, Sulfur)
  {
    var s := ImportantElements;
    assert s[..4] == [Carbon, Hydrogen, Nitrogen, Oxygen];
    assert SumOver(s, m) == SumOver([Carbon, Hydrogen, Nitrogen, Oxygen], m) + Get(m, Sulfur);
    assert [Carbon, Hydrogen, Nitrogen, Oxygen][..3] == [Carbon, Hydrogen, Nitrogen];
    assert SumOver([Carbon, Hydrogen, Nitrogen, Oxygen], m) == SumOver([Carbon, Hydrogen, Nitrogen], m) + Get(m, Oxygen);
    assert [Carbon, Hydrogen, Nitrogen][..2] == [Carbon, Hydrogen];
    assert SumOver([Carbon, Hydrogen, Nitrogen], m) == SumOver([Carbon, Hydrogen], m) + Get(m, Nitrogen);
    assert [Carbon, Hydrogen][..1] == [Carbon];
    assert SumOver([Carbon, Hydrogen], m) == SumOver([Carbon], m) + Get(m, Hydrogen);
    assert [Carbon][..0] == [];
    assert SumOver([Carbon], m) == Get(m, Carbon);
  }

  /** Number of important atoms in a list. */
  function ImportantAtoms(xs: seq<AtomElement>): nat {
    if xs == [] then 0
    else ImportantAtoms(xs[..|xs| - 1]) + (if IsImportant(xs[|xs| - 1]) then 1 else 0)
  }

  /** For a counted composition, the important count is the number of
      important atoms, hence at most `totalCount`. */
  lemma ImportantCountOfCounted(xs: seq<AtomElement>)
    ensures SumOver(ImportantElements, CountsOf(xs)) == ImportantAtoms(xs)
    ensures ImportantAtoms(xs) <= Counted(xs).totalCount
  {
    forall e ensures multiset(ImportantElements)[e] == if IsImportant(e) then 1 else 0 {
      ImportantOnce(e);
    }
    SumOverImportant(ImportantElements, xs);
  }

  /** Over a list naming each important element once and nothing else, the
      counts add up to the number of important atoms. */
  lemma {:induction false} SumOverImportant(cases: seq<AtomElement>, xs: seq<AtomElement>)
    requires forall e :: multiset(cases)[e] == if IsImportant(e) then 1 else 0
    ensures SumOver(cases, CountsOf(xs)) == ImportantAtoms(xs)
    ensures ImportantAtoms(xs) <= |xs|
    decreases |xs|
  {
    if xs == [] {
      SumOverZero(cases, CountsOf(xs));
    } else {
      var init, e := xs[..|xs| - 1], xs[|xs| - 1];
      assert xs == init + [e];
      SumOverImportant(cases, init);
      CountsOfSnoc(init, e);
      SumOverBump(cases, CountsOf(init), e);
    }
  }
}
