/** `ProteinMath`: the centroid of a set of atom positions, centring them in
    place, the axis-aligned bounding box and the approximate bounding sphere.
    Float infinities appear as the `Bound` ends of an empty box, and NaN (the
    centroid or sphere of no atoms) as `None`. */
module ProteinMath {
  import opened Wrappers
  import opened Geometry
  import Proteins

  /** The component-wise sum of the positions. */
  function Sum(atoms: seq<Vec3>): Vec3 {
    if |atoms| == 0 then Zero else Add(Sum(atoms[..|atoms| - 1]), atoms[|atoms| - 1])
  }

  /** `averagePosition(atoms:)`: the sum divided by the count, accumulated
      atom by atom. With no atoms the Float quotient is NaN, here `None`. */
  method AveragePosition(atoms: seq<Vec3>) returns (mean: Option<Vec3>)
    ensures mean.None? <==> |atoms| == 0
    ensures mean.Some? ==> mean.value == Scale(Sum(atoms), 1.0 / (|atoms| as real))
  {
    var meanPosition := Zero;
    for i := 0 to |atoms|
      invariant meanPosition == Sum(atoms[..i])
    {
      assert atoms[..i + 1][..i] == atoms[..i];
      meanPosition := Add(meanPosition, atoms[i]);
    }
    assert atoms[..|atoms|] == atoms;
    if |atoms| == 0 {
      return None;
    }
    mean := Some(Scale(meanPosition, 1.0 / (|atoms| as real)));
  }

  /** Every position moved by `-center`. */
  function Shifted(atoms: seq<Vec3>, center: Vec3): (r: seq<Vec3>)
    ensures |r| == |atoms|
  {
    seq(|atoms|, i requires 0 <= i < |atoms| => Sub(atoms[i], center))
  }

  /** `normalizeAtomPositions(atoms:center:)`: subtracts `center` from every
      position in place; the length stays. */
  method NormalizeAtomPositions(atoms: array<Vec3>, center: Vec3)
    modifies atoms
    ensures atoms[..] == Shifted(old(atoms[..]), center)
  {
    for i := 0 to atoms.Length
      invariant forall k :: 0 <= k < i ==> atoms[k] == Sub(old(atoms[k]), center)
      invariant forall k :: i <= k < atoms.Length ==> atoms[k] == old(atoms[k])
    {
      atoms[i] := Sub(atoms[i], center);
    }
  }

  /** Shifting every position by `center` shifts the sum by `count * center`. */
  lemma {:induction false} SumShifted(atoms: seq<Vec3>, center: Vec3)
    ensures Sum(Shifted(atoms, center)) == Sub(Sum(atoms), Scale(center, |atoms| as real))
    decreases |atoms|
  {
    if |atoms| > 0 {
      var n := |atoms| - 1;
      assert Shifted(atoms, center)[..n] == Shifted(atoms[..n], center);
      SumShifted(atoms[..n], center);
    }
  }

  /** Centring a non-empty set of positions on its average leaves positions
      whose sum, and so whose average, is zero. */
  lemma {:induction false} CentredAverageIsZero(atoms: seq<Vec3>)
    requires |atoms| > 0
    ensures Sum(Shifted(atoms, Scale(Sum(atoms), 1.0 / (|atoms| as real)))) == Zero
  {
    var n := |atoms| as real;
    var s := Sum(atoms);
    var c := Scale(s, 1.0 / n);
    SumShifted(atoms, c);
    assert Scale(c, n) == s by {
      assert s.x * (1.0 / n) * n == s.x;
      assert s.y * (1.0 / n) * n == s.y;
      assert s.z * (1.0 / n) * n == s.z;
    }
  }

  /** One end of an interval of Floats: finite, or one of the infinities. */
  datatype Bound = NegInfinity | Finite(value: real) | PosInfinity

  /** `x > bound` for a finite Float `x`. */
  predicate Above(x: real, bound: Bound) {
    bound.NegInfinity? || (bound.Finite? && x > bound.value)
  }

  /** `x < bound` for a finite Float `x`. */
  predicate Below(x: real, bound: Bound) {
    bound.PosInfinity? || (bound.Finite? && x < bound.value)
  }

  datatype Axis = X | Y | Z

  function Coord(a: Vec3, axis: Axis): real {
    match axis
    case X => a.x
    case Y => a.y
    case Z => a.z
  }

  /** The running minimum along an axis, starting at `+infinity`. */
  function Lo(atoms: seq<Vec3>, axis: Axis): Bound {
    if |atoms| == 0 then PosInfinity
    else
      var last := Coord(atoms[|atoms| - 1], axis);
      if Below(last, Lo(atoms[..|atoms| - 1], axis)) then Finite(last) else Lo(atoms[..|atoms| - 1], axis)
  }

  /** The running maximum along an axis, starting at `-infinity`. */
  function Hi(atoms: seq<Vec3>, axis: Axis): Bound {
    if |atoms| == 0 then NegInfinity
    else
      var last := Coord(atoms[|atoms| - 1], axis);
      if Above(last, Hi(atoms[..|atoms| - 1], axis)) then Finite(last) else Hi(atoms[..|atoms| - 1], axis)
  }

  datatype BoundingBox = BoundingBox(minX: Bound, maxX: Bound, minY: Bound, maxY: Bound, minZ: Bound, maxZ: Bound)

  /** The box of running minima and maxima on the three axes. */
  function Box(atoms: seq<Vec3>): BoundingBox {
    BoundingBox(Lo(atoms, X), Hi(atoms, X), Lo(atoms, Y), Hi(atoms, Y), Lo(atoms, Z), Hi(atoms, Z))
  }

  /** `computeBoundingBox(atoms:)`: the six running extremes updated atom by
      atom; with no atoms the minima stay `+infinity` and the maxima
      `-infinity`. */
  method ComputeBoundingBox(atoms: seq<Vec3>) returns (box: BoundingBox)
    ensures box == Box(atoms)
    ensures |atoms| == 0 ==> box == BoundingBox(PosInfinity, NegInfinity, PosInfinity, NegInfinity, PosInfinity, NegInfinity)
  {
    var minX, maxX, minY, maxY, minZ, maxZ := PosInfinity, NegInfinity, PosInfinity, NegInfinity, PosInfinity, NegInfinity;
    for i := 0 to |atoms|
      invariant BoundingBox(minX, maxX, minY, maxY, minZ, maxZ) == Box(atoms[..i])
    {
      assert atoms[..i + 1][..i] == atoms[..i];
      var x, y, z := atoms[i].x, atoms[i].y, atoms[i].z;
      if Above(x, maxX) {
        maxX := Finite(x);
      }
      if Below(x, minX) {
        minX := Finite(x);
      }
      if Above(y, maxY) {
        maxY := Finite(y);
      }
      if Below(y, minY) {
        minY := Finite(y);
      }
      if Above(z, maxZ) {
        maxZ := Finite(z);
      }
      if Below(z, minZ) {
        minZ := Finite(z);
      }
    }
    assert atoms[..|atoms|] == atoms;
    box := BoundingBox(minX, maxX, minY, maxY, minZ, maxZ);
  }

  /** For at least one atom both ends along an axis are finite, they
      enclose every atom's coordinate and each is some atom's coordinate. */
  lemma {:induction false} BoundsEncloseAndAttain(atoms: seq<Vec3>, axis: Axis)
    requires |atoms| > 0
    ensures Lo(atoms, axis).Finite? && Hi(atoms, axis).Finite?
    ensures forall i :: 0 <= i < |atoms| ==>
      Lo(atoms, axis).value <= Coord(atoms[i], axis) <= Hi(atoms, axis).value
    ensures exists i :: 0 <= i < |atoms| && Coord(atoms[i], axis) == Lo(atoms, axis).value
    ensures exists j :: 0 <= j < |atoms| && Coord(atoms[j], axis) == Hi(atoms, axis).value
    decreases |atoms|
  {
    var n := |atoms| - 1;
    var prefix := atoms[..n];
    if n == 0 {
      assert Lo(prefix, axis) == PosInfinity && Hi(prefix, axis) == NegInfinity;
      assert Lo(atoms, axis) == Finite(Coord(atoms[0], axis));
      assert Hi(atoms, axis) == Finite(Coord(atoms[0], axis));
    } else {
      BoundsEncloseAndAttain(prefix, axis);
      forall i | 0 <= i < n
        ensures atoms[i] == prefix[i]
      {
      }
      var lo, hi := Lo(prefix, axis).value, Hi(prefix, axis).value;
      var i :| 0 <= i < n && Coord(prefix[i], axis) == lo;
      var j :| 0 <= j < n && Coord(prefix[j], axis) == hi;
      if Coord(atoms[n], axis) < lo {
        assert Coord(atoms[n], axis) == Lo(atoms, axis).value;
      } else {
        assert Coord(atoms[i], axis) == Lo(atoms, axis).value;
      }
      if Coord(atoms[n], axis) > hi {
        assert Coord(atoms[n], axis) == Hi(atoms, axis).value;
      } else {
        assert Coord(atoms[j], axis) == Hi(atoms, axis).value;
      }
    }
  }

  datatype BoundingSphere = BoundingSphere(center: Vec3, radius: real)

  /** The corner of the box with the smallest coordinates. */
  function LowCorner(box: BoundingBox): Vec3
    requires box.minX.Finite? && box.minY.Finite? && box.minZ.Finite?
  {
    Vec3(box.minX.value, box.minY.value, box.minZ.value)
  }

  function HighCorner(box: BoundingBox): Vec3
    requires box.maxX.Finite? && box.maxY.Finite? && box.maxZ.Finite?
  {
    Vec3(box.maxX.value, box.maxY.value, box.maxZ.value)
  }

  /** The sphere around a box: centred on its middle, with radius half its
      diagonal (the square root of length² + width² + depth², by `sqrt`)
      plus the margin. */
  function SphereOfBox(lo: Vec3, hi: Vec3, extraMargin: real, sqrt: real -> real): BoundingSphere {
    var center := Vec3((lo.x + hi.x) / 2.0, (lo.y + hi.y) / 2.0, (lo.z + hi.z) / 2.0);
    var radius := sqrt(DistanceSquared(hi, lo)) / 2.0;
    BoundingSphere(center, radius + extraMargin)
  }

  /** `computeBoundingSphere(atoms:extraMargin:)`: one atom gives a sphere on
      that atom with radius `extraMargin`; more give the sphere around their
      bounding box. With no atoms the Float centre is NaN, here `None`. */
  function ComputeBoundingSphere(atoms: seq<Vec3>, extraMargin: real, sqrt: real -> real): (sphere: Option<BoundingSphere>)
    ensures sphere.None? <==> |atoms| == 0
    ensures |atoms| == 1 ==> sphere == Some(BoundingSphere(atoms[0], extraMargin))
  {
    if |atoms| == 1 then Some(BoundingSphere(atoms[0], extraMargin))
    else if |atoms| == 0 then None
    else
      BoundsEncloseAndAttain(atoms, X);
      BoundsEncloseAndAttain(atoms, Y);
      BoundsEncloseAndAttain(atoms, Z);
      var box := Box(atoms);
      Some(SphereOfBox(LowCorner(box), HighCorner(box), extraMargin, sqrt))
  }

  function DistanceSquared(a: Vec3, b: Vec3): real {
    (a.x - b.x) * (a.x - b.x) + (a.y - b.y) * (a.y - b.y) + (a.z - b.z) * (a.z - b.z)
  }

  lemma {:induction false} DistanceSquaredNonNegative(a: Vec3, b: Vec3)
    ensures DistanceSquared(a, b) >= 0.0
  {
    SquareBelow(a.x - b.x, if a.x - b.x >= 0.0 then a.x - b.x else b.x - a.x);
    SquareBelow(0.0, if a.x - b.x >= 0.0 then a.x - b.x else b.x - a.x);
    SquareBelow(0.0, if a.y - b.y >= 0.0 then a.y - b.y else b.y - a.y);
    SquareBelow(0.0, if a.z - b.z >= 0.0 then a.z - b.z else b.z - a.z);
    assert (a.y - b.y) * (a.y - b.y) == (if a.y - b.y >= 0.0 then a.y - b.y else b.y - a.y) * (if a.y - b.y >= 0.0 then a.y - b.y else b.y - a.y);
    assert (a.z - b.z) * (a.z - b.z) == (if a.z - b.z >= 0.0 then a.z - b.z else b.z - a.z) * (if a.z - b.z >= 0.0 then a.z - b.z else b.z - a.z);
    assert (a.x - b.x) * (a.x - b.x) == (if a.x - b.x >= 0.0 then a.x - b.x else b.x - a.x) * (if a.x - b.x >= 0.0 then a.x - b.x else b.x - a.x);
  }

  /** `|u| <= v` gives `u * u <= v * v`. */
  lemma {:induction false} SquareBelow(u: real, v: real)
    requires -v <= u <= v
    ensures u * u <= v * v
  {
    if u >= 0.0 {
      assert u * u <= u * v <= v * v;
    } else {
      assert u * u <= u * (-v) <= v * v;
    }
  }

  /** One axis of the enclosure: a coordinate between the box ends lies
      within half the extent of the midpoint. */
  lemma {:induction false} AxisWithinHalfExtent(c: real, lo: real, hi: real)
    requires lo <= c <= hi
    ensures (c - (lo + hi) / 2.0) * (c - (lo + hi) / 2.0) <= ((hi - lo) / 2.0) * ((hi - lo) / 2.0)
  {
    SquareBelow(c - (lo + hi) / 2.0, (hi - lo) / 2.0);
  }

  /** A point inside the box `[lo, hi]` lies within half the diagonal
      `root / 2` of the box middle. */
  lemma {:induction false} InsideBoxWithinHalfDiagonal(a: Vec3, lo: Vec3, hi: Vec3, root: real)
    requires lo.x <= a.x <= hi.x && lo.y <= a.y <= hi.y && lo.z <= a.z <= hi.z
    requires root * root == (hi.x - lo.x) * (hi.x - lo.x) + (hi.y - lo.y) * (hi.y - lo.y) + (hi.z - lo.z) * (hi.z - lo.z)
    ensures DistanceSquared(a, Vec3((lo.x + hi.x) / 2.0, (lo.y + hi.y) / 2.0, (lo.z + hi.z) / 2.0)) <= (root / 2.0) * (root / 2.0)
  {
    AxisWithinHalfExtent(a.x, lo.x, hi.x);
    AxisWithinHalfExtent(a.y, lo.y, hi.y);
    AxisWithinHalfExtent(a.z, lo.z, hi.z);
    var q := root * root;
    assert (root / 2.0) * (root / 2.0) == q / 4.0;
  }

  /** When `sqrt` is a square root, the sphere of several atoms encloses
      every atom with at least the margin to spare. */
  lemma {:induction false} SphereEnclosesAtoms(atoms: seq<Vec3>, extraMargin: real, sqrt: real -> real, i: nat)
    requires |atoms| > 1 && i < |atoms|
    requires forall x :: x >= 0.0 ==> sqrt(x) >= 0.0 && sqrt(x) * sqrt(x) == x
    ensures var s := ComputeBoundingSphere(atoms, extraMargin, sqrt).value;
      var half := s.radius - extraMargin;
      half >= 0.0 && DistanceSquared(atoms[i], s.center) <= half * half
  {
    AtomInBox(atoms, i);
    var box := Box(atoms);
    var lo, hi := LowCorner(box), HighCorner(box);
    assert ComputeBoundingSphere(atoms, extraMargin, sqrt).value == SphereOfBox(lo, hi, extraMargin, sqrt);
    var q := DistanceSquared(hi, lo);
    DistanceSquaredNonNegative(hi, lo);
    var root := sqrt(q);
    assert root >= 0.0 && root * root == q;
    SphereOfBoxEncloses(atoms[i], lo, hi, root, extraMargin, sqrt);
  }

  /** Every atom lies in the bounding box of the atoms. */
  lemma {:induction false} AtomInBox(atoms: seq<Vec3>, i: nat)
    requires i < |atoms|
    ensures var box := Box(atoms);
      && box.minX.Finite? && box.minY.Finite? && box.minZ.Finite?
      && box.maxX.Finite? && box.maxY.Finite? && box.maxZ.Finite?
      && LowCorner(box).x <= atoms[i].x <= HighCorner(box).x
      && LowCorner(box).y <= atoms[i].y <= HighCorner(box).y
      && LowCorner(box).z <= atoms[i].z <= HighCorner(box).z
  {
    BoundsEncloseAndAttain(atoms, X);
    BoundsEncloseAndAttain(atoms, Y);
    BoundsEncloseAndAttain(atoms, Z);
    assert Coord(atoms[i], X) == atoms[i].x && Coord(atoms[i], Y) == atoms[i].y && Coord(atoms[i], Z) == atoms[i].z;
  }

  /** The sphere of the box `[lo, hi]` holds every point of the box with the
      margin to spare. */
  lemma {:induction false} SphereOfBoxEncloses(a: Vec3, lo: Vec3, hi: Vec3, root: real, extraMargin: real, sqrt: real -> real)
    requires lo.x <= a.x <= hi.x && lo.y <= a.y <= hi.y && lo.z <= a.z <= hi.z
    requires root == sqrt(DistanceSquared(hi, lo)) && root >= 0.0 && root * root == DistanceSquared(hi, lo)
    ensures var s := SphereOfBox(lo, hi, extraMargin, sqrt);
      s.radius - extraMargin >= 0.0 && DistanceSquared(a, s.center) <= (s.radius - extraMargin) * (s.radius - extraMargin)
  {
    InsideBoxWithinHalfDiagonal(a, lo, hi, root);
  }

  /** All atoms of the proteins, protein after protein. */
  function AllAtoms(proteins: seq<Proteins.Protein>): seq<Vec3> {
    if |proteins| == 0 then [] else AllAtoms(proteins[..|proteins| - 1]) + proteins[|proteins| - 1].atoms
  }

  /** `computeBoundingSphere(proteins:extraMargin:)`: the sphere of all the
      proteins' atoms taken together. */
  method ComputeBoundingSphereOfProteins(proteins: seq<Proteins.Protein>, extraMargin: real, sqrt: real -> real)
    returns (sphere: Option<BoundingSphere>)
    ensures sphere == ComputeBoundingSphere(AllAtoms(proteins), extraMargin, sqrt)
    ensures sphere.None? <==> forall k :: 0 <= k < |proteins| ==> |proteins[k].atoms| == 0
  {
    var allAtoms: seq<Vec3> := [];
    for k := 0 to |proteins|
      invariant allAtoms == AllAtoms(proteins[..k])
      invariant |allAtoms| == 0 <==> forall j :: 0 <= j < k ==> |proteins[j].atoms| == 0
    {
      assert proteins[..k + 1][..k] == proteins[..k];
      allAtoms := allAtoms + proteins[k].atoms;
    }
    assert proteins[..|proteins|] == proteins;
    sphere := ComputeBoundingSphere(allAtoms, extraMargin, sqrt);
  }
}
