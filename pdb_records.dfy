/** The PDB parser package's record-scoped column ranges (HEADER, ATOM,
    HELIX and SHEET records of the wwPDB Atomic Coordinate Entry Format
    v3.3), 0-based and end-exclusive. */
module PdbRecords {
  import opened PdbConstants

  const PackageExpectedLineLength: nat := 78
  const PackageTitleKeywordLength: nat := 10

  /** `HeaderRecord.pdbIDStart..<pdbIDEnd`. */
  const HeaderPdbId := ColumnRange(62, 66)

  /** `AtomRecord`. */
  const AtomResName := ColumnRange(17, 20)
  const AtomChainId := ColumnRange(21, 22)
  const AtomResId := ColumnRange(22, 26)
  const AtomX := ColumnRange(30, 38)
  const AtomY := ColumnRange(38, 46)
  const AtomZ := ColumnRange(46, 54)
  const AtomElement := ColumnRange(76, 78)

  /** `HelixRecord`. */
  const HelixInitChainId := ColumnRange(19, 20)
  const HelixInitResId := ColumnRange(21, 25)
  const HelixFinalChainId := ColumnRange(31, 32)
  const HelixFinalResId := ColumnRange(33, 37)

  /** `SheetRecord`. */
  const SheetInitChainId := ColumnRange(21, 22)
  const SheetInitResId := ColumnRange(22, 26)
  const SheetFinalChainId := ColumnRange(32, 33)
  const SheetFinalResId := ColumnRange(33, 37)

  /** The HEADER id code: columns 63-66 in the standard's 1-based
      numbering (section 2, HEADER record), four characters. */
  function HeaderRanges(): (fs: seq<ColumnRange>)
    ensures |fs| == 1 && fs[0].start + 1 == 63 && fs[0].end == 66 && Width(fs[0]) == 4
    ensures FitIn(fs, PackageExpectedLineLength)
  {
    [HeaderPdbId]
  }

  /** The seven ATOM fields (residue name, chain id, residue id, x, y, z,
      element) do not overlap and fit in the minimum line length. */
  function AtomRanges(): (fs: seq<ColumnRange>)
    ensures |fs| == 7
    ensures PairwiseDisjoint(fs)
    ensures FitIn(fs, PackageExpectedLineLength)
    ensures Contiguous(fs[3], fs[4]) && Contiguous(fs[4], fs[5])
    ensures Width(fs[3]) == 8 && Width(fs[4]) == 8 && Width(fs[5]) == 8
  {
    [AtomResName, AtomChainId, AtomResId, AtomX, AtomY, AtomZ, AtomElement]
  }

  /** The HELIX start/end chain-id and residue-id fields. */
  function HelixRanges(): (fs: seq<ColumnRange>)
    ensures |fs| == 4
    ensures PairwiseDisjoint(fs)
    ensures FitIn(fs, PackageExpectedLineLength)
  {
    [HelixInitChainId, HelixInitResId, HelixFinalChainId, HelixFinalResId]
  }

  /** The SHEET start/end chain-id and residue-id fields. */
  function SheetRanges(): (fs: seq<ColumnRange>)
    ensures |fs| == 4
    ensures PairwiseDisjoint(fs)
    ensures FitIn(fs, PackageExpectedLineLength)
  {
    [SheetInitChainId, SheetInitResId, SheetFinalChainId, SheetFinalResId]
  }

  /** The package's ranges and the app's flat constants describe the same
      columns. */
  lemma PackageAgreesWithApp()
    ensures HeaderPdbId == PdbIdRange
    ensures AtomResName == ResNameRange && AtomResId == ResIdRange
    ensures AtomX == XRange && AtomY == YRange && AtomZ == ZRange
    ensures AtomElement == ElementRange
    ensures PackageExpectedLineLength == ExpectedLineLength
    ensures PackageTitleKeywordLength == TitleKeywordLength
  {
  }
}
