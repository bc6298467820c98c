/** `AtomRadiiGenerator`: radius tables whose first six slots hold the
    radii of carbon, hydrogen, nitrogen, oxygen, sulfur and all other
    elements, in that order; the remaining slots keep the zero of
    `AtomRadii()`. */
module AtomRadiiGenerator {
  import opened ShaderTypes

  /** The six slots the generator writes. */
  const GeneratorSlots: nat := 6

  /** A table whose slots from the sixth on are zero. */
  predicate ZeroBeyondSix(radii: AtomRadii) {
    && FullRadii(radii)
    && forall i :: GeneratorSlots <= i < AtomTypeCount ==> radii.atomRadius[i] == 0.0
  }

  /** `AtomRadii()` with its first six slots set to `six`, one assignment
      per slot as the source writes them. */
  function WithSixSlots(six: seq<real>): (radii: AtomRadii)
    requires |six| >= GeneratorSlots
    ensures ZeroBeyondSix(radii)
    ensures radii.atomRadius[..GeneratorSlots] == six[..GeneratorSlots]
  {
    var s := BlankRadii().atomRadius;
    var r := AtomRadii(s[0 := six[0]][1 := six[1]][2 := six[2]][3 := six[3]][4 := six[4]][5 := six[5]]);
    assert r.atomRadius[..GeneratorSlots] == six[..GeneratorSlots] by {
      forall k | 0 <= k < GeneratorSlots
        ensures r.atomRadius[k] == six[k]
      {
      }
    }
    r
  }

  /** `vanDerWaalsRadii()`: C 1.70, H 1.10, N 1.55, O 1.52, S 1.80 and
      others 1.50. */
  function VanDerWaalsRadii(): (radii: AtomRadii)
    ensures ZeroBeyondSix(radii)
    ensures radii.atomRadius[..GeneratorSlots] == [1.70, 1.10, 1.55, 1.52, 1.80, 1.50]
  {
    WithSixSlots([1.70, 1.10, 1.55, 1.52, 1.80, 1.50])
  }

  /** `fixedRadii(radius:)`: the same radius in all six slots. */
  function FixedRadii(radius: real): (radii: AtomRadii)
    ensures ZeroBeyondSix(radii)
    ensures forall i :: 0 <= i < GeneratorSlots ==> radii.atomRadius[i] == radius
  {
    var r := WithSixSlots([radius, radius, radius, radius, radius, radius]);
    assert forall i :: 0 <= i < GeneratorSlots ==> r.atomRadius[i] == r.atomRadius[..GeneratorSlots][i];
    r
  }

  /** `fixedRadii()`, with the default radius. */
  const DefaultRadius: real := 0.4

  /** `createAtomRadii(radii:)`: fewer than six radii fall back to the van
      der Waals table; otherwise the first six go to the six slots in order
      and any further ones are ignored. */
  function CreateAtomRadii(radii: seq<real>): (r: AtomRadii)
    ensures ZeroBeyondSix(r)
    ensures |radii| < GeneratorSlots ==> r == VanDerWaalsRadii()
    ensures |radii| >= GeneratorSlots ==> r.atomRadius[..GeneratorSlots] == radii[..GeneratorSlots]
  {
    if |radii| < GeneratorSlots then VanDerWaalsRadii() else WithSixSlots(radii)
  }

  /** A table is determined by its six slots: reading them back and
      creating a table from them gives the same table. */
  lemma {:induction false} CreateFromOwnSlots(radii: AtomRadii)
    requires ZeroBeyondSix(radii)
    ensures CreateAtomRadii(radii.atomRadius[..GeneratorSlots]) == radii
  {
    var r := CreateAtomRadii(radii.atomRadius[..GeneratorSlots]);
    forall i | 0 <= i < AtomTypeCount
      ensures r.atomRadius[i] == radii.atomRadius[i]
    {
      if i < GeneratorSlots {
        assert r.atomRadius[..GeneratorSlots][i] == radii.atomRadius[..GeneratorSlots][i];
      }
    }
    assert r.atomRadius == radii.atomRadius;
  }

  /** Passing more than six radii changes nothing beyond the first six. */
  lemma {:induction false} ExtraRadiiIgnored(radii: seq<real>, extra: seq<real>)
    requires |radii| == GeneratorSlots
    ensures CreateAtomRadii(radii + extra) == CreateAtomRadii(radii)
  {
    assert (radii + extra)[..GeneratorSlots] == radii[..GeneratorSlots];
    var a := CreateAtomRadii(radii + extra);
    var b := CreateAtomRadii(radii);
    forall i | 0 <= i < AtomTypeCount
      ensures a.atomRadius[i] == b.atomRadius[i]
    {
      if i < GeneratorSlots {
        assert a.atomRadius[..GeneratorSlots][i] == b.atomRadius[..GeneratorSlots][i];
      }
    }
    assert a.atomRadius == b.atomRadius;
  }

  /** `fixedRadii(radius:)` is `createAtomRadii` of six copies of the radius. */
  lemma {:induction false} FixedIsCreated(radius: real)
    ensures FixedRadii(radius) == CreateAtomRadii([radius, radius, radius, radius, radius, radius])
  {
    var six := [radius, radius, radius, radius, radius, radius];
    var a := FixedRadii(radius);
    CreateFromOwnSlots(a);
    assert a.atomRadius[..GeneratorSlots] == six;
  }
}
