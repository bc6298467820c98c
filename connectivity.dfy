/** `ConnectivityGenerator.computeConnectivity`: within each configuration
    block of the atom array, every unordered pair of atoms is examined once and
    a bond cylinder is emitted for each close pair; per-configuration bond
    counts and the index where each configuration's bonds start accompany the
    bonds. The distance test `distance(a, b) < 1.6` is the parameter
    `close`, and `Task.isCancelled` before row `indexA` is `cancelled(indexA)`. */
module Connectivity {
  import opened Wrappers
  import opened Geometry
  import Proteins

  datatype Bond = Bond(atomA: Vec3, atomB: Vec3, cylinderCenter: Vec3, bondRadius: real)

  datatype ProteinConnectivity = ProteinConnectivity(
    computedBonds: seq<Bond>,
    computedBondCounts: seq<int>,
    computedBondConfigurationStarts: seq<int>)

  const BondRadius: real := 0.05

  /** The cylinder between two atoms: centred on their midpoint. */
  function MakeBond(a: Vec3, b: Vec3): (bond: Bond)
    ensures bond.atomA == a && bond.atomB == b && bond.bondRadius == BondRadius
    ensures Add(bond.cylinderCenter, bond.cylinderCenter) == Add(a, b)
  {
    Bond(a, b, Vec3((a.x + b.x) / 2.0, (a.y + b.y) / 2.0, (a.z + b.z) / 2.0), BondRadius)
  }

  /** The bonds of row `a`: partners `start <= j < b`, in increasing `j`. */
  function Row(atoms: seq<Vec3>, close: (Vec3, Vec3) -> bool, start: nat, a: nat, b: nat): seq<Bond>
    requires start <= b <= a < |atoms|
    decreases b - start
  {
    if b == start then []
    else
      var partner := if close(atoms[a], atoms[b - 1]) then [MakeBond(atoms[a], atoms[b - 1])] else [];
      Row(atoms, close, start, a, b - 1) + partner
  }

  /** The bonds of the rows `start <= a < k`, row after row. */
  function Block(atoms: seq<Vec3>, close: (Vec3, Vec3) -> bool, start: nat, k: nat): seq<Bond>
    requires start <= k <= |atoms|
    decreases k - start
  {
    if k == start then [] else Block(atoms, close, start, k - 1) + Row(atoms, close, start, k - 1, k - 1)
  }

  /** Where configuration `c` starts in the atom array: `c * n`, as a sum. */
  function Offset(c: nat, n: nat): nat {
    if c == 0 then 0 else Offset(c - 1, n) + n
  }

  lemma {:induction false} OffsetIsProduct(c: nat, n: nat)
    ensures Offset(c, n) == c * n
  {
    if c > 0 {
      OffsetIsProduct(c - 1, n);
      assert (c - 1) * n + n == c * n;
    }
  }

  lemma {:induction false} OffsetMonotone(k: nat, c: nat, n: nat)
    requires k <= c
    ensures Offset(k, n) <= Offset(c, n)
    decreases c - k
  {
    if k < c {
      OffsetMonotone(k, c - 1, n);
    }
  }

  /** The bonds of configuration `k`, which owns atoms `[k * n, k * n + n)`. */
  function ConfigBlock(atoms: seq<Vec3>, close: (Vec3, Vec3) -> bool, n: nat, k: nat): seq<Bond>
    requires Offset(k, n) + n <= |atoms|
  {
    Block(atoms, close, Offset(k, n), Offset(k, n) + n)
  }

  /** The bonds of configurations `0 .. c - 1`, configuration after
      configuration. */
  function All(atoms: seq<Vec3>, close: (Vec3, Vec3) -> bool, n: nat, c: nat): seq<Bond>
    requires Offset(c, n) <= |atoms|
  {
    if c == 0 then [] else All(atoms, close, n, c - 1) + ConfigBlock(atoms, close, n, c - 1)
  }

  /** The number of bonds of each of configurations `0 .. c - 1`. */
  function Counts(atoms: seq<Vec3>, close: (Vec3, Vec3) -> bool, n: nat, c: nat): (counts: seq<int>)
    requires Offset(c, n) <= |atoms|
    ensures |counts| == c
  {
    if c == 0 then [] else Counts(atoms, close, n, c - 1) + [|ConfigBlock(atoms, close, n, c - 1)|]
  }

  function SumSeq(s: seq<int>): int {
    if |s| == 0 then 0 else SumSeq(s[..|s| - 1]) + s[|s| - 1]
  }

  /** The exclusive prefix sums: where each configuration's bonds start. */
  function Starts(counts: seq<int>): (starts: seq<int>)
    ensures |starts| == |counts|
    ensures forall k :: 0 <= k < |counts| ==> starts[k] == SumSeq(counts[..k])
  {
    seq(|counts|, k requires 0 <= k < |counts| => SumSeq(counts[..k]))
  }

  /** What a run that is not cancelled hands to the data source. */
  function Expected(atoms: seq<Vec3>, close: (Vec3, Vec3) -> bool, n: nat, c: nat): ProteinConnectivity
    requires Offset(c, n) <= |atoms|
  {
    var counts := Counts(atoms, close, n, c);
    ProteinConnectivity(All(atoms, close, n, c), counts, Starts(counts))
  }

  /** The innermost loop: the bonds of row `a`, appended one close partner at
      a time. */
  method AppendRow(atoms: seq<Vec3>, close: (Vec3, Vec3) -> bool, start: nat, a: nat, bonds: seq<Bond>, count: int)
    returns (bonds': seq<Bond>, count': int)
    requires start <= a < |atoms|
    ensures bonds' == bonds + Row(atoms, close, start, a, a)
    ensures count' == count + |Row(atoms, close, start, a, a)|
  {
    bonds', count' := bonds, count;
    for indexB := start to a
      invariant bonds' == bonds + Row(atoms, close, start, a, indexB)
      invariant count' == count + |Row(atoms, close, start, a, indexB)|
    {
      var atomA, atomB := atoms[a], atoms[indexB];
      if close(atomA, atomB) {
        bonds' := bonds' + [MakeBond(atomA, atomB)];
        count' := count' + 1;
      }
    }
  }

  /** The middle loop over the rows of one configuration, checking for
      cancellation before each row. */
  method ScanConfiguration(atoms: seq<Vec3>, close: (Vec3, Vec3) -> bool, start: nat, end: nat,
                           cancelled: nat -> bool, bonds: seq<Bond>)
    returns (bonds': seq<Bond>, count: int, completed: bool)
    requires start <= end <= |atoms|
    ensures completed <==> forall a :: start <= a < end ==> !cancelled(a)
    ensures completed ==> bonds' == bonds + Block(atoms, close, start, end) && count == |Block(atoms, close, start, end)|
  {
    bonds', count := bonds, 0;
    for indexA := start to end
      invariant bonds' == bonds + Block(atoms, close, start, indexA)
      invariant count == |Block(atoms, close, start, indexA)|
      invariant forall a :: start <= a < indexA ==> !cancelled(a)
    {
      if cancelled(indexA) {
        return bonds', count, false;
      }
      bonds', count := AppendRow(atoms, close, start, indexA, bonds', count);
    }
    completed := true;
  }

  /** `computeConnectivity(protein:dataSource:progress:)`: `None` exactly when
      the running `Task` is cancelled before some row, and then nothing is handed on;
      otherwise the bonds of all configurations, their counts and their start
      indices. */
  method ComputeConnectivity(protein: Proteins.Protein, close: (Vec3, Vec3) -> bool, cancelled: nat -> bool)
    returns (result: Option<ProteinConnectivity>)
    requires protein.configurationCount >= 0 && protein.atomCount >= 0
    requires protein.configurationCount * protein.atomCount <= |protein.atoms|
    ensures Offset(protein.configurationCount, protein.atomCount) == protein.configurationCount * protein.atomCount
    ensures result.None? <==> exists a :: 0 <= a < protein.configurationCount * protein.atomCount && cancelled(a)
    ensures result.Some? ==> result.value == Expected(protein.atoms, close, protein.atomCount, protein.configurationCount)
  {
    var atoms, n, count := protein.atoms, protein.atomCount, protein.configurationCount;
    OffsetIsProduct(count, n);
    var computedBonds: seq<Bond> := [];
    var computedBondCounts: seq<int> := [];
    var runningTotals: seq<int> := [];
    for configurationIndex := 0 to count
      invariant Offset(configurationIndex, n) <= |atoms|
      invariant computedBonds == All(atoms, close, n, configurationIndex)
      invariant computedBondCounts == Counts(atoms, close, n, configurationIndex)
      invariant RunningTotals(runningTotals, computedBondCounts)
      invariant forall a :: 0 <= a < Offset(configurationIndex, n) ==> !cancelled(a)
    {
      OffsetMonotone(configurationIndex + 1, count, n);
      var configurationStartIndex, configurationEndIndex := ConfigurationRange(configurationIndex, n);
      var bondCountInCurrentConfiguration, completed;
      computedBonds, bondCountInCurrentConfiguration, completed :=
        ScanConfiguration(atoms, close, configurationStartIndex, configurationEndIndex, cancelled, computedBonds);
      if !completed {
        OffsetMonotone(configurationIndex + 1, count, n);
        return None;
      }
      runningTotals := AppendTotal(runningTotals, computedBondCounts, bondCountInCurrentConfiguration);
      computedBondCounts := computedBondCounts + [bondCountInCurrentConfiguration];
    }
    var computedBondConfigurationStarts := [0] + runningTotals;
    computedBondConfigurationStarts := computedBondConfigurationStarts[..|computedBondConfigurationStarts| - 1];
    ShiftedTotalsAreStarts(runningTotals, computedBondCounts, computedBondConfigurationStarts);
    result := Some(ProteinConnectivity(computedBonds, computedBondCounts, computedBondConfigurationStarts));
  }

  /** `configurationIndex * atomCount` and the end of that configuration. */
  method ConfigurationRange(c: nat, n: nat) returns (start: nat, end: nat)
    ensures start == Offset(c, n) && end == Offset(c + 1, n)
  {
    OffsetIsProduct(c, n);
    start, end := c * n, c * n + n;
  }

  /** The inclusive running totals of the counts. */
  predicate RunningTotals(totals: seq<int>, counts: seq<int>) {
    |totals| == |counts| && forall k :: 0 <= k < |totals| ==> totals[k] == SumSeq(counts[..k + 1])
  }

  /** `append((computedBondConfigurationStarts.last ?? 0) + bondCount)`. */
  method AppendTotal(totals: seq<int>, counts: seq<int>, count: int) returns (totals': seq<int>)
    requires RunningTotals(totals, counts)
    ensures RunningTotals(totals', counts + [count])
    ensures totals' == totals + [(if |totals| == 0 then 0 else totals[|totals| - 1]) + count]
  {
    var counts' := counts + [count];
    assert counts'[..|counts|] == counts;
    var last := if |totals| == 0 then 0 else totals[|totals| - 1];
    assert last == SumSeq(counts'[..|counts|]) by {
      if |totals| > 0 {
        assert counts[..|counts|] == counts;
      }
    }
    assert counts'[..|counts| + 1] == counts';
    totals' := totals + [last + count];
    forall k | 0 <= k < |totals|
      ensures totals'[k] == SumSeq(counts'[..k + 1])
    {
      assert counts'[..k + 1] == counts[..k + 1];
    }
  }

  /** Inserting 0 in front of the running totals and dropping the last one
      gives the exclusive prefix sums. */
  lemma {:induction false} ShiftedTotalsAreStarts(totals: seq<int>, counts: seq<int>, starts: seq<int>)
    requires RunningTotals(totals, counts)
    requires starts == ([0] + totals)[..|totals|]
    ensures starts == Starts(counts)
  {
    forall k | 0 <= k < |counts|
      ensures starts[k] == SumSeq(counts[..k])
    {
      if k > 0 {
        assert starts[k] == totals[k - 1];
      } else {
        assert counts[..0] == [];
      }
    }
  }

  /** A row holds exactly the bonds to the close partners before `b`. */
  lemma {:induction false} RowMembers(atoms: seq<Vec3>, close: (Vec3, Vec3) -> bool, start: nat, a: nat, b: nat, bond: Bond)
    requires start <= b <= a < |atoms|
    ensures bond in Row(atoms, close, start, a, b) <==>
      exists j :: start <= j < b && close(atoms[a], atoms[j]) && bond == MakeBond(atoms[a], atoms[j])
    decreases b - start
  {
    if b > start {
      RowMembers(atoms, close, start, a, b - 1, bond);
    }
  }

  /** A configuration block holds exactly the bonds of its close pairs
      `j < i`, each unordered pair examined once. */
  lemma {:induction false} BlockMembers(atoms: seq<Vec3>, close: (Vec3, Vec3) -> bool, start: nat, k: nat, bond: Bond)
    requires start <= k <= |atoms|
    ensures bond in Block(atoms, close, start, k) <==>
      exists i, j :: start <= j < i < k && close(atoms[i], atoms[j]) && bond == MakeBond(atoms[i], atoms[j])
    decreases k - start
  {
    if k > start {
      BlockMembers(atoms, close, start, k - 1, bond);
      RowMembers(atoms, close, start, k - 1, k - 1, bond);
    }
  }

  /** The counts add up to the number of bonds. */
  lemma {:induction false} CountsSumToBonds(atoms: seq<Vec3>, close: (Vec3, Vec3) -> bool, n: nat, c: nat)
    requires Offset(c, n) <= |atoms|
    ensures SumSeq(Counts(atoms, close, n, c)) == |All(atoms, close, n, c)|
  {
    if c > 0 {
      var counts := Counts(atoms, close, n, c);
      assert counts[..c - 1] == Counts(atoms, close, n, c - 1);
      CountsSumToBonds(atoms, close, n, c - 1);
    }
  }

  /** Earlier configurations keep their bonds and counts as more follow. */
  lemma {:induction false} PrefixStable(atoms: seq<Vec3>, close: (Vec3, Vec3) -> bool, n: nat, k: nat, c: nat)
    requires k <= c && Offset(c, n) <= |atoms|
    ensures Offset(k, n) <= |atoms|
    ensures |All(atoms, close, n, k)| <= |All(atoms, close, n, c)|
    ensures All(atoms, close, n, c)[..|All(atoms, close, n, k)|] == All(atoms, close, n, k)
    ensures Counts(atoms, close, n, c)[..k] == Counts(atoms, close, n, k)
    decreases c - k
  {
    OffsetMonotone(k, c, n);
    if k < c {
      PrefixStable(atoms, close, n, k, c - 1);
      var all, before := All(atoms, close, n, c), All(atoms, close, n, c - 1);
      assert all[..|before|] == before;
      var counts, countsBefore := Counts(atoms, close, n, c), Counts(atoms, close, n, c - 1);
      assert counts[..c - 1] == countsBefore;
    }
  }

  /** The bonds of configuration `k` are the slice of the bond list from its
      start index, as long as its count; configurations come in order. */
  lemma {:induction false} ConfigurationSlice(atoms: seq<Vec3>, close: (Vec3, Vec3) -> bool, n: nat, c: nat, k: nat)
    requires k < c && Offset(c, n) <= |atoms|
    ensures Offset(k, n) + n <= |atoms|
    ensures Expected(atoms, close, n, c).computedBondConfigurationStarts[k] == |All(atoms, close, n, k)|
    ensures Expected(atoms, close, n, c).computedBondCounts[k] == |ConfigBlock(atoms, close, n, k)|
    ensures |All(atoms, close, n, k)| + |ConfigBlock(atoms, close, n, k)| <= |All(atoms, close, n, c)|
    ensures var e := Expected(atoms, close, n, c);
      var s := e.computedBondConfigurationStarts[k];
      e.computedBonds[s..s + e.computedBondCounts[k]] == ConfigBlock(atoms, close, n, k)
  {
    StartIsBondsBefore(atoms, close, n, c, k);
    CountIsBlockSize(atoms, close, n, c, k);
    PrefixStable(atoms, close, n, k + 1, c);
    SliceOfPrefix(All(atoms, close, n, c), All(atoms, close, n, k), ConfigBlock(atoms, close, n, k));
  }

  /** Configuration `k` starts after the bonds of the configurations before
      it. */
  lemma {:induction false} StartIsBondsBefore(atoms: seq<Vec3>, close: (Vec3, Vec3) -> bool, n: nat, c: nat, k: nat)
    requires k < c && Offset(c, n) <= |atoms|
    ensures Offset(k, n) <= |atoms|
    ensures Starts(Counts(atoms, close, n, c))[k] == |All(atoms, close, n, k)|
  {
    PrefixStable(atoms, close, n, k, c);
    CountsSumToBonds(atoms, close, n, k);
  }

  /** Configuration `k`'s count is the size of its block, and the block
      follows the bonds before it. */
  lemma {:induction false} CountIsBlockSize(atoms: seq<Vec3>, close: (Vec3, Vec3) -> bool, n: nat, c: nat, k: nat)
    requires k < c && Offset(c, n) <= |atoms|
    ensures Offset(k, n) + n <= |atoms|
    ensures Counts(atoms, close, n, c)[k] == |ConfigBlock(atoms, close, n, k)|
    ensures All(atoms, close, n, k + 1) == All(atoms, close, n, k) + ConfigBlock(atoms, close, n, k)
  {
    PrefixStable(atoms, close, n, k + 1, c);
    var counts := Counts(atoms, close, n, c);
    assert Counts(atoms, close, n, k + 1)[k] == |ConfigBlock(atoms, close, n, k)|;
    assert counts[..k + 1][k] == counts[k];
  }

  /** A piece of a prefix is a slice of the whole. */
  lemma {:induction false} SliceOfPrefix(whole: seq<Bond>, before: seq<Bond>, block: seq<Bond>)
    requires |before| + |block| <= |whole| && whole[..|before| + |block|] == before + block
    ensures whole[|before|..|before| + |block|] == block
  {
    assert whole[|before|..|before| + |block|] == (before + block)[|before|..];
  }
}
