/** The immutable structure record built by every parser: atoms, element
    composition, subunits, configurations and per-atom annotations, with an
    identity used for equality and the combined atom count of a list. */
module Proteins {
  import opened Wrappers
  import opened Geometry
  import opened AtomElements
  import opened ElementCompositions
  import opened ProteinSubunits

  /** The `UUID` assigned at creation. It is drawn at random by the source,
      so the model receives it as an argument. */
  type Uuid = nat

  /** `Residue` and `SecondaryStructure` values are carried as opaque codes. */
  type ResidueCode = nat

  /** `ProteinResidueComposition`, the number of atoms of each residue type. */
  type ResidueComposition = map<ResidueCode, nat>

  datatype Protein = Protein(
    id: Uuid,
    configurationCount: int,
    configurationEnergies: Option<seq<real>>,
    subunitCount: int,
    subunits: seq<ProteinSubunit>,
    atomCount: int,
    atoms: seq<Vec3>,
    elementComposition: Composition,
    atomElements: seq<AtomElement>,
    residueComposition: Option<ResidueComposition>,
    atomResidues: Option<seq<ResidueCode>>,
    atomSecondaryStructure: Option<seq<nat>>,
    sequence: Option<seq<ResidueCode>>)

  /** The record invariant the initialiser establishes. */
  predicate CountConsistent(p: Protein) {
    p.atomCount == p.elementComposition.totalCount
  }

  /** `Protein.init`: every argument is stored and `atomCount` is taken from
      the composition's total, not from the atom array. The bounding volume
      the initialiser also computes is not part of this model. */
  function Make(
    id: Uuid,
    configurationCount: int,
    configurationEnergies: Option<seq<real>>,
    subunitCount: int,
    subunits: seq<ProteinSubunit>,
    atoms: seq<Vec3>,
    elementComposition: Composition,
    atomElements: seq<AtomElement>,
    residueComposition: Option<ResidueComposition>,
    atomResidues: Option<seq<ResidueCode>>,
    atomSecondaryStructure: Option<seq<nat>>,
    sequence: Option<seq<ResidueCode>>): (p: Protein)
    ensures CountConsistent(p)
    ensures p.atomCount == elementComposition.totalCount
    ensures p.id == id && p.configurationCount == configurationCount
    ensures p.configurationEnergies == configurationEnergies
    ensures p.subunitCount == subunitCount && p.subunits == subunits
    ensures p.atoms == atoms && p.elementComposition == elementComposition
    ensures p.atomElements == atomElements && p.residueComposition == residueComposition
    ensures p.atomResidues == atomResidues
    ensures p.atomSecondaryStructure == atomSecondaryStructure && p.sequence == sequence
  {
    Protein(id, configurationCount, configurationEnergies, subunitCount, subunits,
            elementComposition.totalCount, atoms, elementComposition, atomElements,
            residueComposition, atomResidues, atomSecondaryStructure, sequence)
  }

  /** When the composition was counted from the atom elements, the stored
      atom count is the number of atom elements. */
  lemma MakeCountsElements(
    id: Uuid, configurationCount: int, subunits: seq<ProteinSubunit>,
    atoms: seq<Vec3>, atomElements: seq<AtomElement>)
    ensures Make(id, configurationCount, None, |subunits|, subunits, atoms,
                 Counted(atomElements), atomElements, None, None, None, None).atomCount
            == |atomElements|
  {
  }

  /** `==` compares identities only. */
  predicate Same(a: Protein, b: Protein) {
    a.id == b.id
  }

  /** Identity equality is an equivalence, and it ignores every other field:
      re-initialising with another identity never equals the original. */
  lemma SameIsIdentity(a: Protein, b: Protein, c: Protein)
    ensures Same(a, a)
    ensures Same(a, b) ==> Same(b, a)
    ensures Same(a, b) && Same(b, c) ==> Same(a, c)
    ensures a.id != b.id ==> !Same(a, b)
    ensures Same(a, a.(atoms := [], atomCount := 0))
  {
  }

  /** `combinedAtomCount`: the `reduce` adding every protein's `atomCount`. */
  function CombinedAtomCount(ps: seq<Protein>): int {
    if ps == [] then 0 else CombinedAtomCount(ps[..|ps| - 1]) + ps[|ps| - 1].atomCount
  }

  /** The combined count adds over concatenation. */
  lemma {:induction false} CombinedAtomCountAppend(a: seq<Protein>, b: seq<Protein>)
    ensures CombinedAtomCount(a + b) == CombinedAtomCount(a) + CombinedAtomCount(b)
    decreases |b|
  {
    if b != [] {
      assert (a + b)[..|a + b| - 1] == a + b[..|b| - 1];
      CombinedAtomCountAppend(a, b[..|b| - 1]);
    } else {
      assert a + b == a;
    }
  }

  /** For proteins whose compositions were counted, the combined count is the
      total number of atom elements, and it is never negative. */
  lemma {:induction false} CombinedAtomCountOfCounted(ps: seq<Protein>)
    requires forall k :: 0 <= k < |ps| ==> CountConsistent(ps[k]) && ps[k].elementComposition == Counted(ps[k].atomElements)
    ensures CombinedAtomCount(ps) == ElementTotal(ps)
    ensures CombinedAtomCount(ps) >= 0
    decreases |ps|
  {
    if ps != [] {
      CombinedAtomCountOfCounted(ps[..|ps| - 1]);
    }
  }

  /** Total number of atom elements over a list of proteins. */
  function ElementTotal(ps: seq<Protein>): nat {
    if ps == [] then 0 else ElementTotal(ps[..|ps| - 1]) + |ps[|ps| - 1].atomElements|
  }
}
