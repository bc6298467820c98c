/** The element-composition donut chart: each segment covers an interval of
    the chart's angle values as wide as its count, and a selected angle
    value picks the segment it falls in. `CompositionItem`'s colour is not
    modelled and its equality is taken to be structural; the haptic
    feedback on selection is left out. */
module CompositionChart {
  import opened Wrappers

  datatype CompositionItem = CompositionItem(name: string, count: int, fraction: real)

  /** The total count of the segments before segment `k`: where segment
      `k` starts. */
  function Before(segments: seq<CompositionItem>, k: nat): int
    requires k <= |segments|
  {
    if k == 0 then 0 else Before(segments, k - 1) + segments[k - 1].count
  }

  /** Segment `k`'s closed interval holds `value`. */
  predicate Hits(segments: seq<CompositionItem>, value: int, k: nat)
    requires k < |segments|
  {
    Before(segments, k) <= value <= Before(segments, k) + segments[k].count
  }

  /** The segment picked by scanning from segment `k`, which starts at
      `start`. */
  function PickFrom(segments: seq<CompositionItem>, value: int, k: nat, start: int): Option<CompositionItem>
    requires k <= |segments|
    decreases |segments| - k
  {
    if k == |segments| then None
    else if start <= value && start + segments[k].count >= value then Some(segments[k])
    else PickFrom(segments, value, k + 1, start + segments[k].count)
  }

  function Pick(segments: seq<CompositionItem>, value: int): Option<CompositionItem> {
    PickFrom(segments, value, 0, 0)
  }

  /** The scan from segment `k` picks the first segment from `k` on whose
      interval holds the value, and nothing when none does. */
  lemma {:induction false} PickFromIsFirstHit(segments: seq<CompositionItem>, value: int, k: nat)
    requires k <= |segments|
    ensures PickFrom(segments, value, k, Before(segments, k)).None? <==>
      forall j :: k <= j < |segments| ==> !Hits(segments, value, j)
    ensures forall j :: k <= j < |segments| && Hits(segments, value, j) && (forall i :: k <= i < j ==> !Hits(segments, value, i)) ==>
      PickFrom(segments, value, k, Before(segments, k)) == Some(segments[j])
    decreases |segments| - k
  {
    if k < |segments| {
      PickFromIsFirstHit(segments, value, k + 1);
      assert Before(segments, k + 1) == Before(segments, k) + segments[k].count;
      if !Hits(segments, value, k) {
        assert (forall j :: k <= j < |segments| ==> !Hits(segments, value, j)) <==>
          (forall j :: k + 1 <= j < |segments| ==> !Hits(segments, value, j));
      }
    }
  }

  /** `setSelectedSegment(from:)` selects the first segment whose closed
      interval holds the value, so a value on a shared boundary selects the
      earlier segment; with no such segment nothing is selected. */
  lemma {:induction false} PickIsFirstHit(segments: seq<CompositionItem>, value: int)
    ensures Pick(segments, value).None? <==> forall j :: 0 <= j < |segments| ==> !Hits(segments, value, j)
    ensures forall j :: 0 <= j < |segments| && Hits(segments, value, j) && (forall i :: 0 <= i < j ==> !Hits(segments, value, i)) ==>
      Pick(segments, value) == Some(segments[j])
  {
    PickFromIsFirstHit(segments, value, 0);
  }

  /** With counts that are not negative the intervals lie within
      `[0, total]`. */
  lemma {:induction false} BeforeBounds(segments: seq<CompositionItem>, k: nat)
    requires k <= |segments|
    requires forall j :: 0 <= j < |segments| ==> segments[j].count >= 0
    ensures 0 <= Before(segments, k) <= Before(segments, |segments|)
    decreases |segments| - k
  {
    BeforeStarts(segments, k);
    if k < |segments| {
      BeforeBounds(segments, k + 1);
    }
  }

  lemma {:induction false} BeforeStarts(segments: seq<CompositionItem>, k: nat)
    requires k <= |segments|
    requires forall j :: 0 <= j < |segments| ==> segments[j].count >= 0
    ensures Before(segments, k) >= 0
  {
    if k > 0 {
      BeforeStarts(segments, k - 1);
    }
  }

  /** With counts that are not negative, a value below 0 or above the total
      count selects nothing. */
  lemma {:induction false} OutsideSelectsNothing(segments: seq<CompositionItem>, value: int)
    requires forall j :: 0 <= j < |segments| ==> segments[j].count >= 0
    requires value < 0 || value > Before(segments, |segments|)
    ensures Pick(segments, value).None?
  {
    PickIsFirstHit(segments, value);
    forall j | 0 <= j < |segments|
      ensures !Hits(segments, value, j)
    {
      BeforeBounds(segments, j);
      BeforeBounds(segments, j + 1);
    }
  }

  class FileCompositionChart {
    const segments: seq<CompositionItem>
    var selectedSegment: Option<CompositionItem>

    constructor (segments: seq<CompositionItem>, selectedSegment: Option<CompositionItem>)
      ensures this.segments == segments && this.selectedSegment == selectedSegment
    {
      this.segments := segments;
      this.selectedSegment := selectedSegment;
    }

    /** `setSelectedSegment(from:)`: a running total walks the segments. */
    method SetSelectedSegment(value: int)
      modifies this`selectedSegment
      ensures selectedSegment == Pick(segments, value)
    {
      var currentCount := 0;
      var i := 0;
      while i < |segments|
        invariant 0 <= i <= |segments|
        invariant currentCount == Before(segments, i)
        invariant PickFrom(segments, value, i, currentCount) == Pick(segments, value)
        decreases |segments| - i
      {
        var segment := segments[i];
        var startValue := currentCount;
        var endValue := currentCount + segment.count;
        if startValue <= value && endValue >= value {
          selectedSegment := Some(segment);
          return;
        }
        currentCount := currentCount + segment.count;
        i := i + 1;
      }
      selectedSegment := None;
    }

    /** The chart's `onChange(of: selectedValue)`: a cleared angle selection
        keeps the selected segment. */
    method SelectedValueChanged(newValue: Option<int>)
      modifies this`selectedSegment
      ensures newValue.None? ==> selectedSegment == old(selectedSegment)
      ensures newValue.Some? ==> selectedSegment == Pick(segments, newValue.value)
    {
      if newValue.Some? {
        SetSelectedSegment(newValue.value);
      }
    }

    /** `segmentOpacity(segment:)`: full for every segment while nothing is
        selected and for the selected one, dimmed for the others. */
    function SegmentOpacity(segment: CompositionItem): (opacity: real)
      reads this
      ensures opacity == 1.0 <==> selectedSegment.None? || segment == selectedSegment.value
      ensures opacity == 1.0 || opacity == 0.3
    {
      match selectedSegment
      case None => 1.0
      case Some(selected) => if segment == selected then 1.0 else 0.3
    }
  }
}
