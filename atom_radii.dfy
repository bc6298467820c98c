/** The radius tables of `AtomRadii`: all zero, the van der Waals radius of
    each atom type, one fixed radius, a scaled van der Waals table and the
    slot-by-slot crossfade between two tables used by radius animations.
    Each table is written slot by slot over the `ATOM_TYPE_COUNT` slots. */
module AtomRadiiTables {
  import opened ShaderTypes
  import AtomElements

  /** `defaultFixedRadius`. */
  const DefaultFixedRadius: real := 0.4

  /** The radius `.vanDerWaals` gives slot `index`: that of
      `AtomElement(index:)`, which is `unknown`'s 1.0 when `index` is no
      element's raw value. */
  function VanDerWaalsSlot(index: nat): (r: real)
    requires index < AtomTypeCount
    ensures (forall e :: AtomElements.RawValue(e) != index) ==> r == 1.0
    ensures forall e :: AtomElements.RawValue(e) == index ==> r == AtomElements.VanDerWaalsRadius(e)
  {
    AtomElements.VanDerWaalsRadius(AtomElements.FromIndex(index))
  }

  /** `.zero`. */
  method Zero() returns (radii: AtomRadii)
    ensures FullRadii(radii)
    ensures forall i :: 0 <= i < AtomTypeCount ==> radii.atomRadius[i] == 0.0
  {
    radii := BlankRadii();
    for index := 0 to AtomTypeCount
      invariant FullRadii(radii)
      invariant forall i :: 0 <= i < AtomTypeCount ==> radii.atomRadius[i] == 0.0
    {
      radii := radii.(atomRadius := radii.atomRadius[index := 0.0]);
    }
  }

  /** `.vanDerWaals`. */
  method VanDerWaals() returns (radii: AtomRadii)
    ensures FullRadii(radii)
    ensures forall i :: 0 <= i < AtomTypeCount ==> radii.atomRadius[i] == VanDerWaalsSlot(i)
  {
    radii := BlankRadii();
    for index := 0 to AtomTypeCount
      invariant FullRadii(radii)
      invariant forall i :: 0 <= i < index ==> radii.atomRadius[i] == VanDerWaalsSlot(i)
    {
      radii := radii.(atomRadius := radii.atomRadius[index := VanDerWaalsSlot(index)]);
    }
  }

  /** `.defaultFixed`. */
  method DefaultFixed() returns (radii: AtomRadii)
    ensures FullRadii(radii)
    ensures forall i :: 0 <= i < AtomTypeCount ==> radii.atomRadius[i] == DefaultFixedRadius
  {
    radii := BlankRadii();
    for index := 0 to AtomTypeCount
      invariant FullRadii(radii)
      invariant forall i :: 0 <= i < index ==> radii.atomRadius[i] == DefaultFixedRadius
    {
      radii := radii.(atomRadius := radii.atomRadius[index := DefaultFixedRadius]);
    }
  }

  /** `scaledVanDerWaals(scale:)`: the common scale 1 returns `.vanDerWaals`
      itself; both branches give every slot its van der Waals radius times
      `scale`. */
  method ScaledVanDerWaals(scale: real) returns (radii: AtomRadii)
    ensures FullRadii(radii)
    ensures forall i :: 0 <= i < AtomTypeCount ==> radii.atomRadius[i] == VanDerWaalsSlot(i) * scale
  {
    if scale == 1.0 {
      radii := VanDerWaals();
      forall i | 0 <= i < AtomTypeCount
        ensures radii.atomRadius[i] == VanDerWaalsSlot(i) * scale
      {
        assert VanDerWaalsSlot(i) * 1.0 == VanDerWaalsSlot(i);
      }
      return;
    }
    radii := ScaleSlots(scale);
  }

  /** The slot loop of `scaledVanDerWaals(scale:)`. */
  method ScaleSlots(scale: real) returns (radii: AtomRadii)
    ensures FullRadii(radii)
    ensures forall i :: 0 <= i < AtomTypeCount ==> radii.atomRadius[i] == VanDerWaalsSlot(i) * scale
  {
    radii := BlankRadii();
    for index := 0 to AtomTypeCount
      invariant FullRadii(radii)
      invariant forall i :: 0 <= i < index ==> radii.atomRadius[i] == VanDerWaalsSlot(i) * scale
    {
      var scaled := VanDerWaalsSlot(index) * scale;
      radii := radii.(atomRadius := radii.atomRadius[index := scaled]);
    }
  }

  /** `fixed(radius:)`: the default radius returns `.defaultFixed`; both
      branches give every slot `radius`. */
  method Fixed(radius: real) returns (radii: AtomRadii)
    ensures FullRadii(radii)
    ensures forall i :: 0 <= i < AtomTypeCount ==> radii.atomRadius[i] == radius
  {
    if radius == DefaultFixedRadius {
      radii := DefaultFixed();
      return;
    }
    radii := BlankRadii();
    for index := 0 to AtomTypeCount
      invariant FullRadii(radii)
      invariant forall i :: 0 <= i < index ==> radii.atomRadius[i] == radius
    {
      radii := radii.(atomRadius := radii.atomRadius[index := radius]);
    }
  }

  /** One slot of the crossfade: `(final - initial) * progress + initial`. */
  function Lerp(initial: real, final: real, progress: real): real {
    (final - initial) * progress + initial
  }

  /** `interpolated(initial:final:progress:)`: every slot is the crossfade of
      the two tables. At progress 0 the result is `initial`, at progress 1
      it is `final`, and equal tables stay put at any progress. */
  method Interpolated(initial: AtomRadii, final: AtomRadii, progress: real) returns (radii: AtomRadii)
    requires FullRadii(initial) && FullRadii(final)
    ensures FullRadii(radii)
    ensures forall i :: 0 <= i < AtomTypeCount ==>
      radii.atomRadius[i] == Lerp(initial.atomRadius[i], final.atomRadius[i], progress)
    ensures progress == 0.0 ==> radii == initial
    ensures progress == 1.0 ==> radii == final
    ensures initial == final ==> radii == initial
  {
    radii := BlankRadii();
    for index := 0 to AtomTypeCount
      invariant FullRadii(radii)
      invariant forall i :: 0 <= i < index ==>
        radii.atomRadius[i] == Lerp(initial.atomRadius[i], final.atomRadius[i], progress)
    {
      var slot := (final.atomRadius[index] - initial.atomRadius[index]) * progress + initial.atomRadius[index];
      radii := radii.(atomRadius := radii.atomRadius[index := slot]);
    }
    if progress == 0.0 {
      assert radii.atomRadius == initial.atomRadius;
    }
    if progress == 1.0 {
      assert radii.atomRadius == final.atomRadius;
    }
    if initial == final {
      assert radii.atomRadius == initial.atomRadius;
    }
  }
}
