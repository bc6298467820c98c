/** The colouring state of the protein view model: the colouring mode, the
    element, residue and subunit colour palettes, their initialisation and
    the `FillColorInput` handed to the renderer. SwiftUI colours are RGB
    values; their conversion to `simd_float4` can fail and is the parameter
    `toSimd`; random colours are the parameter `draws`. */
module ProteinColorModel {
  import opened Wrappers
  import opened ShaderTypes
  import AtomElements

  /** `ProteinColorByOption`. */
  datatype ColorByOption = ByElement | BySubunit | ByResidue

  /** `shortcutKey`. */
  function ShortcutKey(option: ColorByOption): (key: char)
    ensures key in "123"
  {
    match option
    case ByElement => '1'
    case BySubunit => '2'
    case ByResidue => '3'
  }

  /** Each option has its own shortcut key. */
  lemma {:induction false} ShortcutKeysDistinct(a: ColorByOption, b: ColorByOption)
    ensures ShortcutKey(a) == ShortcutKey(b) <==> a == b
  {
  }

  type Color = AtomElements.Rgb

  /** The eight preselected subunit colours, in order. */
  function FixedColorPalette(): (palette: seq<Color>)
    ensures |palette| == 8
  {
    [ AtomElements.Rgb(0.0 / 255.0, 177.0 / 255.0, 228.0 / 255.0),
      AtomElements.Rgb(199.0 / 255.0, 0.0 / 255.0, 156.0 / 255.0),
      AtomElements.Rgb(194.0 / 255.0, 104.0 / 255.0, 1.0 / 255.0),
      AtomElements.Rgb(27.0 / 255.0, 170.0 / 255.0, 0.0 / 255.0),
      AtomElements.Rgb(0.917, 0.085, 0.183),
      AtomElements.Rgb(0.225, 0.129, 0.650),
      AtomElements.Rgb(0.894, 0.682, 0.203),
      AtomElements.Rgb(0.216, 0.945, 0.657) ]
  }

  /** The default colour of element slot `i`: that of the element whose raw
      value is `i`, or `unknown`'s when there is none. */
  function ElementSlotColor(i: nat): (c: Color)
    requires i < 256
    ensures forall e :: AtomElements.RawValue(e) == i ==> c == AtomElements.DefaultColor(e)
    ensures (forall e :: AtomElements.RawValue(e) != i) ==> c == AtomElements.DefaultColor(AtomElements.Unknown)
  {
    match AtomElements.FromRawValue(i)
    case Some(e) => AtomElements.DefaultColor(e)
    case None => AtomElements.DefaultColor(AtomElements.Unknown)
  }

  /** One table fill of `updatedFillColor`: slot by slot over the first
      `min(|colors|, |table|)` colours, each converted and stored, until a
      conversion fails; `written` is the number stored. */
  method FillTable(table: seq<Rgba>, colors: seq<Color>, toSimd: Color -> Option<Rgba>)
    returns (r: seq<Rgba>, written: nat)
    ensures |r| == |table|
    ensures written <= |colors| && written <= |table|
    ensures forall i :: 0 <= i < written ==> toSimd(colors[i]) == Some(r[i])
    ensures written < |colors| && written < |table| ==> toSimd(colors[written]).None?
    ensures forall i :: written <= i < |table| ==> r[i] == table[i]
  {
    var m := if |colors| < |table| then |colors| else |table|;
    r, written := table, 0;
    for index := 0 to m
      invariant written == index
      invariant |r| == |table|
      invariant forall i :: 0 <= i < index ==> toSimd(colors[i]) == Some(r[i])
      invariant forall i :: index <= i < |table| ==> r[i] == table[i]
    {
      var simdColor := toSimd(colors[index]);
      if simdColor.None? {
        return;
      }
      r := r[index := simdColor.value];
      written := written + 1;
    }
  }

  /** The part of `ProteinViewModel` that holds the colouring. */
  class ColorModel {
    var colorBy: ColorByOption
    var elementColors: seq<Color>
    var residueColors: seq<Color>
    var subunitColors: seq<Color>

    constructor (colorBy: ColorByOption)
      ensures this.colorBy == colorBy
      ensures elementColors == residueColors == subunitColors == []
    {
      this.colorBy := colorBy;
      elementColors, residueColors, subunitColors := [], [], [];
    }

    /** `initElementColors()`: one colour per atom type slot. */
    method InitElementColors()
      modifies this`elementColors
      ensures |elementColors| == AtomTypeCount
      ensures forall i :: 0 <= i < AtomTypeCount ==> elementColors[i] == ElementSlotColor(i)
    {
      elementColors := [];
      for atomElementIndex := 0 to AtomTypeCount
        invariant |elementColors| == atomElementIndex
        invariant forall i :: 0 <= i < atomElementIndex ==> elementColors[i] == ElementSlotColor(i)
      {
        var element := AtomElements.FromRawValue(atomElementIndex);
        if element.Some? {
          elementColors := elementColors + [AtomElements.DefaultColor(element.value)];
        } else {
          elementColors := elementColors + [AtomElements.DefaultColor(AtomElements.Unknown)];
        }
      }
    }

    /** `initResidueColors()`: the default colour of every residue case, in
        case order. `Residue` is not part of this model: its cases arrive as
        `residues` with their colours given by `defaultColor`. */
    method InitResidueColors<R>(residues: seq<R>, defaultColor: R -> Color)
      modifies this`residueColors
      ensures |residueColors| == |residues|
      ensures forall i :: 0 <= i < |residues| ==> residueColors[i] == defaultColor(residues[i])
    {
      residueColors := [];
      for k := 0 to |residues|
        invariant |residueColors| == k
        invariant forall i :: 0 <= i < k ==> residueColors[i] == defaultColor(residues[i])
      {
        residueColors := residueColors + [defaultColor(residues[k])];
      }
    }

    /** `initSubunitColors()`: the fixed palette, cut at the capacity, then
        random colours up to the capacity; `draws(k)` is the `k`-th random
        colour. */
    method InitSubunitColors(draws: nat -> Color)
      modifies this`subunitColors
      ensures |subunitColors| == MaxSubunitColors
      ensures subunitColors[..8] == FixedColorPalette()
      ensures forall k :: 8 <= k < MaxSubunitColors ==> subunitColors[k] == draws(k - 8)
    {
      subunitColors := [];
      var fixedColorPalette := FixedColorPalette();
      for index := 0 to |fixedColorPalette|
        invariant subunitColors == fixedColorPalette[..index]
      {
        if index >= MaxSubunitColors {
          return;
        }
        subunitColors := subunitColors + [fixedColorPalette[index]];
      }
      for k := |fixedColorPalette| to MaxSubunitColors
        invariant |subunitColors| == k
        invariant subunitColors[..8] == fixedColorPalette
        invariant forall j :: 8 <= j < k ==> subunitColors[j] == draws(j - 8)
      {
        subunitColors := subunitColors + [draws(k - 8)];
        assert subunitColors[..8] == fixedColorPalette by {
          assert subunitColors[..8] == (subunitColors[..k])[..8];
        }
      }
    }

    /** `updatedFillColor()`: the weight of the selected mode is 1 and the
        other two are 0; each table holds the converted palette up to the
        capacity or up to the first colour that fails to convert, and the
        `FillColorInput()` default after that. */
    method UpdatedFillColor(toSimd: Color -> Option<Rgba>) returns (fill: FillColorInput)
      ensures FullFill(fill)
      ensures fill.colorByElement == (if colorBy == ByElement then 1.0 else 0.0)
      ensures fill.colorByResidue == (if colorBy == ByResidue then 1.0 else 0.0)
      ensures fill.colorBySubunit == (if colorBy == BySubunit then 1.0 else 0.0)
      ensures exists n :: Converted(fill.elementColor, elementColors, toSimd, n)
      ensures exists n :: Converted(fill.residueColor, residueColors, toSimd, n)
      ensures exists n :: Converted(fill.subunitColor, subunitColors, toSimd, n)
    {
      fill := BlankFill();
      fill := fill.(colorByElement := 0.0, colorByResidue := 0.0, colorBySubunit := 0.0);
      match colorBy {
        case ByElement => fill := fill.(colorByElement := 1.0);
        case ByResidue => fill := fill.(colorByResidue := 1.0);
        case BySubunit => fill := fill.(colorBySubunit := 1.0);
      }
      var elementTable, n1 := FillTable(fill.elementColor, elementColors, toSimd);
      var residueTable, n2 := FillTable(fill.residueColor, residueColors, toSimd);
      var subunitTable, n3 := FillTable(fill.subunitColor, subunitColors, toSimd);
      fill := fill.(elementColor := elementTable, residueColor := residueTable, subunitColor := subunitTable);
      assert Converted(fill.elementColor, elementColors, toSimd, n1);
      assert Converted(fill.residueColor, residueColors, toSimd, n2);
      assert Converted(fill.subunitColor, subunitColors, toSimd, n3);
    }
  }

  /** A colour table of `FillColorInput()` after a fill from `colors`: the
      first `n` colours converted, `n` stopping at the capacity, at the end
      of the palette or at the first colour that fails to convert, and clear
      slots after that. */
  predicate Converted(table: seq<Rgba>, colors: seq<Color>, toSimd: Color -> Option<Rgba>, n: nat) {
    && n <= |colors| && n <= |table|
    && (forall i :: 0 <= i < n ==> toSimd(colors[i]) == Some(table[i]))
    && (n < |colors| && n < |table| ==> toSimd(colors[n]).None?)
    && (forall i :: n <= i < |table| ==> table[i] == Clear)
  }

  /** The number of converted slots is determined: two readings of the same
      table agree. */
  lemma {:induction false} ConvertedCountUnique(table: seq<Rgba>, colors: seq<Color>, toSimd: Color -> Option<Rgba>, n: nat, m: nat)
    requires Converted(table, colors, toSimd, n) && Converted(table, colors, toSimd, m)
    ensures n == m
  {
  }

  /** When every colour converts, the whole palette up to the capacity is
      copied in order. */
  lemma {:induction false} AllConvertedCopiesPrefix(table: seq<Rgba>, colors: seq<Color>, toSimd: Color -> Option<Rgba>, n: nat)
    requires Converted(table, colors, toSimd, n)
    requires forall i :: 0 <= i < |colors| ==> toSimd(colors[i]).Some?
    ensures n == if |colors| < |table| then |colors| else |table|
    ensures forall i :: 0 <= i < n ==> table[i] == toSimd(colors[i]).value
  {
  }
}
