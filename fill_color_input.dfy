/** `FillColorInputUtility.interpolateFillColorInput`: the crossfade between
    two colourings, computed slot by slot into local tables that start
    clear, then written back into a fresh `FillColorInput()`. */
module FillColorInputUtility {
  import opened ShaderTypes

  /** `start * (1 - fraction) + end * fraction`. */
  function Mix(start: real, end: real, fraction: real): real {
    start * (1.0 - fraction) + end * fraction
  }

  function MixColor(start: Rgba, end: Rgba, fraction: real): Rgba {
    Rgba(Mix(start.r, end.r, fraction), Mix(start.g, end.g, fraction),
      Mix(start.b, end.b, fraction), Mix(start.a, end.a, fraction))
  }

  /** One accumulation loop: `colors[index] += source[index] * weight` for
      every slot of the capacity. */
  method Accumulate(colors: seq<Rgba>, source: seq<Rgba>, weight: real) returns (r: seq<Rgba>)
    requires |source| == |colors|
    ensures |r| == |colors|
    ensures forall i :: 0 <= i < |r| ==> r[i] == AddColor(colors[i], ScaleColor(source[i], weight))
  {
    r := colors;
    for index := 0 to |colors|
      invariant |r| == |colors|
      invariant forall i :: 0 <= i < index ==> r[i] == AddColor(colors[i], ScaleColor(source[i], weight))
      invariant forall i :: index <= i < |r| ==> r[i] == colors[i]
    {
      r := r[index := AddColor(r[index], ScaleColor(source[index], weight))];
    }
  }

  /** One table's crossfade: a clear table, the start table weighted by
      `1 - fraction`, then the end table weighted by `fraction`. */
  method BlendTable(start: seq<Rgba>, end: seq<Rgba>, fraction: real) returns (r: seq<Rgba>)
    requires |start| == |end|
    ensures |r| == |start|
    ensures forall i :: 0 <= i < |r| ==> r[i] == MixColor(start[i], end[i], fraction)
  {
    r := seq(|start|, i => Clear);
    r := Accumulate(r, start, 1.0 - fraction);
    r := Accumulate(r, end, fraction);
  }

  /** One write-back loop: the first `min(|colors|, |table|)` slots of
      `table` take the values of `colors`. */
  method WriteBack(table: seq<Rgba>, colors: seq<Rgba>) returns (r: seq<Rgba>)
    ensures |r| == |table|
    ensures var m := if |colors| < |table| then |colors| else |table|;
      && (forall i :: 0 <= i < m ==> r[i] == colors[i])
      && (forall i :: m <= i < |table| ==> r[i] == table[i])
  {
    var m := if |colors| < |table| then |colors| else |table|;
    r := table;
    for index := 0 to m
      invariant |r| == |table|
      invariant forall i :: 0 <= i < index ==> r[i] == colors[i]
      invariant forall i :: index <= i < |table| ==> r[i] == table[i]
    {
      r := r[index := colors[index]];
    }
  }

  /** The crossfade of two fills: every weight and every colour slot of the
      three tables is its start value weighted by `1 - fraction` plus its end
      value weighted by `fraction`. */
  method InterpolateFillColorInput(start: FillColorInput, end: FillColorInput, fraction: real)
    returns (fill: FillColorInput)
    requires FullFill(start) && FullFill(end)
    ensures FullFill(fill)
    ensures fill.colorByElement == Mix(start.colorByElement, end.colorByElement, fraction)
    ensures fill.colorByResidue == Mix(start.colorByResidue, end.colorByResidue, fraction)
    ensures fill.colorBySubunit == Mix(start.colorBySubunit, end.colorBySubunit, fraction)
    ensures forall i :: 0 <= i < MaxElementColors ==>
      fill.elementColor[i] == MixColor(start.elementColor[i], end.elementColor[i], fraction)
    ensures forall i :: 0 <= i < MaxResidueColors ==>
      fill.residueColor[i] == MixColor(start.residueColor[i], end.residueColor[i], fraction)
    ensures forall i :: 0 <= i < MaxSubunitColors ==>
      fill.subunitColor[i] == MixColor(start.subunitColor[i], end.subunitColor[i], fraction)
  {
    fill := BlankFill();
    fill := fill.(colorByElement := Mix(start.colorByElement, end.colorByElement, fraction));
    fill := fill.(colorByResidue := Mix(start.colorByResidue, end.colorByResidue, fraction));
    fill := fill.(colorBySubunit := Mix(start.colorBySubunit, end.colorBySubunit, fraction));
    var elementColors := BlendTable(start.elementColor, end.elementColor, fraction);
    var residueColors := BlendTable(start.residueColor, end.residueColor, fraction);
    var subunitColors := BlendTable(start.subunitColor, end.subunitColor, fraction);
    var elementTable := WriteBack(fill.elementColor, elementColors);
    var residueTable := WriteBack(fill.residueColor, residueColors);
    var subunitTable := WriteBack(fill.subunitColor, subunitColors);
    fill := FillColorInput(fill.colorByElement, fill.colorByResidue, fill.colorBySubunit,
      elementTable, residueTable, subunitTable);
  }

  /** A fill whose three slots of a table agree slot by slot with the
      crossfade of two others (the contract of the interpolation). */
  predicate Crossfade(fill: FillColorInput, start: FillColorInput, end: FillColorInput, fraction: real)
    requires FullFill(fill) && FullFill(start) && FullFill(end)
  {
    && fill.colorByElement == Mix(start.colorByElement, end.colorByElement, fraction)
    && fill.colorByResidue == Mix(start.colorByResidue, end.colorByResidue, fraction)
    && fill.colorBySubunit == Mix(start.colorBySubunit, end.colorBySubunit, fraction)
    && (forall i :: 0 <= i < MaxElementColors ==>
      fill.elementColor[i] == MixColor(start.elementColor[i], end.elementColor[i], fraction))
    && (forall i :: 0 <= i < MaxResidueColors ==>
      fill.residueColor[i] == MixColor(start.residueColor[i], end.residueColor[i], fraction))
    && (forall i :: 0 <= i < MaxSubunitColors ==>
      fill.subunitColor[i] == MixColor(start.subunitColor[i], end.subunitColor[i], fraction))
  }

  /** Over the reals the crossfade at fraction 0 is the start fill and at
      fraction 1 the end fill. */
  lemma {:induction false} CrossfadeEnds(fill: FillColorInput, start: FillColorInput, end: FillColorInput, fraction: real)
    requires FullFill(fill) && FullFill(start) && FullFill(end)
    requires Crossfade(fill, start, end, fraction)
    ensures fraction == 0.0 ==> fill == start
    ensures fraction == 1.0 ==> fill == end
  {
    if fraction == 0.0 {
      assert fill.elementColor == start.elementColor;
      assert fill.residueColor == start.residueColor;
      assert fill.subunitColor == start.subunitColor;
    }
    if fraction == 1.0 {
      assert fill.elementColor == end.elementColor;
      assert fill.residueColor == end.residueColor;
      assert fill.subunitColor == end.subunitColor;
    }
  }

  /** Exactly-one-mode weights: each in [0, 1], summing to 1. */
  predicate ConvexWeights(fill: FillColorInput) {
    && 0.0 <= fill.colorByElement <= 1.0
    && 0.0 <= fill.colorByResidue <= 1.0
    && 0.0 <= fill.colorBySubunit <= 1.0
    && fill.colorByElement + fill.colorByResidue + fill.colorBySubunit == 1.0
  }

  lemma {:induction false} MixBetween(a: real, b: real, f: real)
    requires 0.0 <= a <= 1.0 && 0.0 <= b <= 1.0 && 0.0 <= f <= 1.0
    ensures 0.0 <= Mix(a, b, f) <= 1.0
  {
    assert 0.0 <= a * (1.0 - f) <= 1.0 - f;
    assert 0.0 <= b * f <= f;
  }

  /** A crossfade at a fraction in [0, 1] between two fills with convex
      weights has convex weights. */
  lemma {:induction false} CrossfadeKeepsConvexWeights(fill: FillColorInput, start: FillColorInput, end: FillColorInput, fraction: real)
    requires ConvexWeights(start) && ConvexWeights(end) && 0.0 <= fraction <= 1.0
    requires fill.colorByElement == Mix(start.colorByElement, end.colorByElement, fraction)
    requires fill.colorByResidue == Mix(start.colorByResidue, end.colorByResidue, fraction)
    requires fill.colorBySubunit == Mix(start.colorBySubunit, end.colorBySubunit, fraction)
    ensures ConvexWeights(fill)
  {
    MixBetween(start.colorByElement, end.colorByElement, fraction);
    MixBetween(start.colorByResidue, end.colorByResidue, fraction);
    MixBetween(start.colorBySubunit, end.colorBySubunit, fraction);
    var s := start.colorByElement + start.colorByResidue + start.colorBySubunit;
    var e := end.colorByElement + end.colorByResidue + end.colorBySubunit;
    assert fill.colorByElement + fill.colorByResidue + fill.colorBySubunit == s * (1.0 - fraction) + e * fraction;
  }
}
