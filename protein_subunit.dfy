/** A subunit of a structure as the package's model type describes it: its
    index in the protein, its kind, its atom count and the offset of its atoms
    in the protein's atom array, plus the name shown for it. */
module ProteinSubunits {
  import Text
  import ChainIds

  datatype SubunitKind = Chain | NonChain | UnknownKind

  datatype ProteinSubunit = ProteinSubunit(
    indexInProtein: int,
    kind: SubunitKind,
    atomCount: int,
    startIndex: int)

  /** The memberwise initialiser keeps every argument. */
  function Make(indexInProtein: int, kind: SubunitKind, atomCount: int, startIndex: int): (s: ProteinSubunit)
    ensures s.indexInProtein == indexInProtein && s.kind == kind
    ensures s.atomCount == atomCount && s.startIndex == startIndex
  {
    ProteinSubunit(indexInProtein, kind, atomCount, startIndex)
  }

  /** `subunitName`. For chains and unknown subunits `letters[index]` traps
      on a negative index, so a non-negative index is required there. */
  function SubunitName(s: ProteinSubunit): (n: string)
    requires s.kind != NonChain ==> s.indexInProtein >= 0
    ensures s.kind == NonChain ==> n == "Non-chain atoms"
    ensures s.kind != NonChain && s.indexInProtein < 26 ==>
      n == "Subunit " + ChainIds.Letter(s.indexInProtein)
    ensures s.kind != NonChain && s.indexInProtein >= 26 ==>
      n == "Subunit " + Text.NatToString(s.indexInProtein)
  {
    match s.kind
    case NonChain => "Non-chain atoms"
    case _ =>
      if s.indexInProtein < 26 then
        ChainIds.LettersAreLetter(s.indexInProtein);
        "Subunit " + ChainIds.Letters[s.indexInProtein]
      else "Subunit " + Text.NatToString(s.indexInProtein)
  }

  /** Different indices of chain subunits get different names. */
  lemma {:induction false} SubunitNamesDistinct(a: ProteinSubunit, b: ProteinSubunit)
    requires a.kind != NonChain && b.kind != NonChain
    requires a.indexInProtein >= 0 && b.indexInProtein >= 0
    requires a.indexInProtein != b.indexInProtein
    ensures SubunitName(a) != SubunitName(b)
  {
    var na, nb := SubunitName(a), SubunitName(b);
    if a.indexInProtein >= 26 && b.indexInProtein >= 26 {
      Text.NatToStringRoundTrip(a.indexInProtein);
      Text.NatToStringRoundTrip(b.indexInProtein);
      assert na[8..] == Text.NatToString(a.indexInProtein);
      assert nb[8..] == Text.NatToString(b.indexInProtein);
      assert na[8..] != nb[8..];
    } else {
      assert na[8] != nb[8];
    }
  }
}
