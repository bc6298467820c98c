/** The C structures the Swift code shares with the GPU shaders, as Swift
    sees them: a fixed-size C array is imported as a tuple and becomes a
    sequence of its fixed length here. The capacities are declared in the
    shader headers, which are not part of this model. */
module ShaderTypes {

  /** `ATOM_TYPE_COUNT`: the radius slots of `AtomRadii`. */
  const AtomTypeCount: nat := 64
  /** `MAX_ELEMENT_COLORS`, `MAX_RESIDUE_COLORS`, `MAX_SUBUNIT_COLORS`: the
      colour table slots of `FillColorInput`. */
  const MaxElementColors: nat := 128
  const MaxResidueColors: nat := 35
  const MaxSubunitColors: nat := 512

  /** `simd_float4`, an RGBA colour. */
  datatype Rgba = Rgba(r: real, g: real, b: real, a: real)

  /** `simd_float4.zero`. */
  const Clear: Rgba := Rgba(0.0, 0.0, 0.0, 0.0)

  function AddColor(p: Rgba, q: Rgba): Rgba {
    Rgba(p.r + q.r, p.g + q.g, p.b + q.b, p.a + q.a)
  }

  function ScaleColor(p: Rgba, k: real): Rgba {
    Rgba(p.r * k, p.g * k, p.b * k, p.a * k)
  }

  /** `AtomRadii`: one radius per atom type. */
  datatype AtomRadii = AtomRadii(atomRadius: seq<real>)

  predicate FullRadii(radii: AtomRadii) {
    |radii.atomRadius| == AtomTypeCount
  }

  /** `AtomRadii()`: the C initialiser zero-fills every slot. */
  function BlankRadii(): (radii: AtomRadii)
    ensures FullRadii(radii)
    ensures forall i :: 0 <= i < AtomTypeCount ==> radii.atomRadius[i] == 0.0
  {
    AtomRadii(seq(AtomTypeCount, i => 0.0))
  }

  /** `FillColorInput`: the weights of the three colouring modes and their
      colour tables. */
  datatype FillColorInput = FillColorInput(
    colorByElement: real,
    colorByResidue: real,
    colorBySubunit: real,
    elementColor: seq<Rgba>,
    residueColor: seq<Rgba>,
    subunitColor: seq<Rgba>)

  predicate FullFill(fill: FillColorInput) {
    && |fill.elementColor| == MaxElementColors
    && |fill.residueColor| == MaxResidueColors
    && |fill.subunitColor| == MaxSubunitColors
  }

  /** `FillColorInput()`: zero weights and clear tables. */
  function BlankFill(): (fill: FillColorInput)
    ensures FullFill(fill)
    ensures fill.colorByElement == fill.colorByResidue == fill.colorBySubunit == 0.0
  {
    FillColorInput(0.0, 0.0, 0.0,
      seq(MaxElementColors, i => Clear), seq(MaxResidueColors, i => Clear), seq(MaxSubunitColors, i => Clear))
  }
}
