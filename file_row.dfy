/** The byte-size label of a file row. The number formatting of
    `String(format:)` is left out: a label is its unit and the number it
    formats. As written, the gigabyte label shows the size in megabytes;
    `BytesStringAsWritten` keeps that and `BytesString` divides by 1024 once
    more. Sizes are Swift `Int` values, so none exceeds `Int.max` and the
    last range covers every size from 1024^3 on. */
module FileRow {
  const KiB: int := 1024
  const MiB: int := 1024 * 1024
  const GiB: int := 1024 * 1024 * 1024

  datatype SizeText = Bytes(count: int) | Kilobytes(value: real) | Megabytes(value: real) | Gigabytes(value: real)

  /** `getBytesString(byteSize:)` as written. The megabyte range is written
      from 1024, but the kilobyte case is tried first. */
  function BytesStringAsWritten(byteSize: int): (r: SizeText)
    ensures r.Bytes? <==> byteSize < KiB
    ensures r.Kilobytes? <==> KiB <= byteSize < MiB
    ensures r.Megabytes? <==> MiB <= byteSize < GiB
    ensures r.Gigabytes? <==> GiB <= byteSize
    ensures r.Gigabytes? ==> r.value * (MiB as real) == byteSize as real
  {
    if 0 <= byteSize < KiB then Bytes(byteSize)
    else if KiB <= byteSize < MiB then Kilobytes(byteSize as real / 1024.0)
    else if KiB <= byteSize < GiB then Megabytes(byteSize as real / 1024.0 / 1024.0)
    else if GiB <= byteSize then Gigabytes(byteSize as real / 1024.0 / 1024.0)
    else Bytes(byteSize)
  }

  /** The label with the gigabyte value in gigabytes. */
  function BytesString(byteSize: int): (r: SizeText)
    ensures r.Bytes? <==> byteSize < KiB
    ensures r.Kilobytes? <==> KiB <= byteSize < MiB
    ensures r.Megabytes? <==> MiB <= byteSize < GiB
    ensures r.Gigabytes? <==> GiB <= byteSize
    ensures r.Gigabytes? ==> r.value * (GiB as real) == byteSize as real
  {
    if 0 <= byteSize < KiB then Bytes(byteSize)
    else if KiB <= byteSize < MiB then Kilobytes(byteSize as real / 1024.0)
    else if KiB <= byteSize < GiB then Megabytes(byteSize as real / 1024.0 / 1024.0)
    else if GiB <= byteSize then Gigabytes(byteSize as real / 1024.0 / 1024.0 / 1024.0)
    else Bytes(byteSize)
  }

  /** How many bytes one unit of a label stands for. */
  function UnitBytes(shown: SizeText): int {
    match shown
    case Bytes(_) => 1
    case Kilobytes(_) => KiB
    case Megabytes(_) => MiB
    case Gigabytes(_) => GiB
  }

  function Amount(shown: SizeText): real {
    match shown
    case Bytes(count) => count as real
    case Kilobytes(value) => value
    case Megabytes(value) => value
    case Gigabytes(value) => value
  }

  /** Each size falls in exactly one bucket; the label's number times its
      unit is the size, and from a kilobyte on the number lies in
      [1, 1024), or is at least 1 for gigabytes. Negative sizes are shown
      in bytes. */
  lemma {:induction false} LabelMeansSize(byteSize: int)
    ensures BytesString(byteSize).Bytes? <==> byteSize < KiB
    ensures BytesString(byteSize).Kilobytes? <==> KiB <= byteSize < MiB
    ensures BytesString(byteSize).Megabytes? <==> MiB <= byteSize < GiB
    ensures BytesString(byteSize).Gigabytes? <==> GiB <= byteSize
    ensures Amount(BytesString(byteSize)) * (UnitBytes(BytesString(byteSize)) as real) == byteSize as real
    ensures KiB <= byteSize < GiB ==> 1.0 <= Amount(BytesString(byteSize)) < 1024.0
    ensures GiB <= byteSize ==> Amount(BytesString(byteSize)) >= 1.0
  {
    var shown := BytesString(byteSize);
    var n := byteSize as real;
    if KiB <= byteSize < MiB {
      assert Amount(shown) == n / 1024.0;
    } else if MiB <= byteSize < GiB {
      assert Amount(shown) == n / 1048576.0;
    } else if GiB <= byteSize {
      assert Amount(shown) == n / 1073741824.0;
    }
  }

  /** The corrected label differs from the written one only in the
      gigabyte value. */
  lemma {:induction false} OnlyGigabytesDiffer(byteSize: int)
    ensures byteSize < GiB ==> BytesString(byteSize) == BytesStringAsWritten(byteSize)
    ensures GiB <= byteSize ==> Amount(BytesStringAsWritten(byteSize)) == 1024.0 * Amount(BytesString(byteSize))
  {
  }

  /** The discrepancy: one gibibyte is labelled "1024.00 GB". */
  lemma {:induction false} OneGigabyteShownAs1024()
    ensures BytesStringAsWritten(GiB) == Gigabytes(1024.0)
    ensures BytesString(GiB) == Gigabytes(1.0)
  {
  }
}
