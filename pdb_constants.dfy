/** The app's flat column constants for fixed-column PDB records (the wwPDB
    Atomic Coordinate Entry Format v3.3, title section 2 and coordinate
    section 9), with 0-based, end-exclusive ranges, and the field readers
    the app's PDB parsers build on them. */
module PdbConstants {
  import Text
  import opened Wrappers
  import opened Geometry

  /** A 0-based, end-exclusive column range `start..<end`. */
  datatype ColumnRange = ColumnRange(start: nat, end: nat)

  function Width(r: ColumnRange): int {
    r.end - r.start
  }

  predicate WellFormed(r: ColumnRange) {
    r.start < r.end
  }

  predicate Disjoint(a: ColumnRange, b: ColumnRange) {
    a.end <= b.start || b.end <= a.start
  }

  predicate PairwiseDisjoint(rs: seq<ColumnRange>) {
    forall i, j :: 0 <= i < j < |rs| ==> Disjoint(rs[i], rs[j])
  }

  predicate FitIn(rs: seq<ColumnRange>, length: nat) {
    forall i :: 0 <= i < |rs| ==> WellFormed(rs[i]) && rs[i].end <= length
  }

  /** `x..<y`, `y..<z` touch: the second starts where the first ends. */
  predicate Contiguous(a: ColumnRange, b: ColumnRange) {
    a.end == b.start
  }

  const ExpectedLineLength: nat := 78
  const PdbIdStart: nat := 62
  const PdbIdEnd: nat := 66
  const TitleKeywordLength: nat := 10
  const ResNameStart: nat := 17
  const ResNameEnd: nat := 20
  const ResIdStart: nat := 22
  const ResIdEnd: nat := 26
  const XPositionStart: nat := 30
  const XPositionEnd: nat := 38
  const YPositionStart: nat := 38
  const YPositionEnd: nat := 46
  const ZPositionStart: nat := 46
  const ZPositionEnd: nat := 54
  const ElementStart: nat := 76
  const ElementEnd: nat := 78

  const PdbIdRange := ColumnRange(PdbIdStart, PdbIdEnd)
  const ResNameRange := ColumnRange(ResNameStart, ResNameEnd)
  const ResIdRange := ColumnRange(ResIdStart, ResIdEnd)
  const XRange := ColumnRange(XPositionStart, XPositionEnd)
  const YRange := ColumnRange(YPositionStart, YPositionEnd)
  const ZRange := ColumnRange(ZPositionStart, ZPositionEnd)
  const ElementRange := ColumnRange(ElementStart, ElementEnd)

  /** The ATOM fields the parsers slice: residue name, residue id, x, y, z
      and element. They do not overlap and all lie inside the minimum line
      length, so a line that passes the length check can be sliced. */
  function AtomFieldRanges(): (fs: seq<ColumnRange>)
    ensures |fs| == 6
    ensures PairwiseDisjoint(fs)
    ensures FitIn(fs, ExpectedLineLength)
  {
    [ResNameRange, ResIdRange, XRange, YRange, ZRange, ElementRange]
  }

  /** The coordinates are three contiguous 8-column fields. */
  lemma CoordinateFieldsContiguous()
    ensures Width(XRange) == 8 && Width(YRange) == 8 && Width(ZRange) == 8
    ensures Contiguous(XRange, YRange) && Contiguous(YRange, ZRange)
  {
  }

  /** The HEADER id code is 4 columns wide, and the TITLE keyword prefix
      ends before the first ATOM field. */
  lemma HeaderAndTitleLayout()
    ensures Width(PdbIdRange) == 4
    ensures TitleKeywordLength < ResNameStart
  {
  }

  /** Characters `r.start..<r.end` of a line; the source's index offsetting
      traps past the end, so the range must fit. */
  function Slice(line: string, r: ColumnRange): (s: string)
    requires r.start <= r.end <= |line|
    ensures |s| == r.end - r.start
    ensures forall k :: 0 <= k < |s| ==> s[k] == line[r.start + k]
  {
    line[r.start..r.end]
  }

  /** A field with its spaces removed, as every field read does. */
  function Field(line: string, r: ColumnRange): (s: string)
    requires r.start <= r.end <= |line|
    ensures ' ' !in s && |s| <= Width(r)
  {
    Text.RemoveSpaces(Slice(line, r))
  }

  /** The three coordinates, each read from its field with spaces removed;
      one failure discards all three. */
  function ReadPosition(line: string, parseReal: string -> Option<real>): (p: Option<Vec3>)
    requires |line| >= ExpectedLineLength
    ensures p.Some? <==>
      parseReal(Field(line, XRange)).Some? && parseReal(Field(line, YRange)).Some? &&
      parseReal(Field(line, ZRange)).Some?
    ensures p.Some? ==>
      p.value == Vec3(parseReal(Field(line, XRange)).value, parseReal(Field(line, YRange)).value,
                      parseReal(Field(line, ZRange)).value)
  {
    match (parseReal(Field(line, XRange)), parseReal(Field(line, YRange)), parseReal(Field(line, ZRange)))
    case (Some(x), Some(y), Some(z)) => Some(Vec3(x, y, z))
    case _ => None
  }

  /** `String(line.dropFirst(titleKeywordLength))` with newlines trimmed and
      trailing whitespace stripped: the text of a TITLE or AUTHOR line. */
  function HeaderText(line: string): (t: string)
    ensures |t| <= |line|
    ensures t == [] || !Text.IsWhitespace(t[|t| - 1])
  {
    var rest := if |line| <= TitleKeywordLength then [] else line[TitleKeywordLength..];
    Text.TrimTrailingWhitespace(Text.TrimNewlines(rest))
  }

  /** The record names the parsers test for. */
  const HeaderKeyword := "HEADER"
  const TitleKeyword := "TITLE"
  const AuthorKeyword := "AUTHOR"
  const TerKeyword := "TER"
  const AtomKeyword := "ATOM"
  const HetatmKeyword := "HETATM"
  const EndmdlKeyword := "ENDMDL"
  const HelixKeyword := "HELIX"
  const SheetKeyword := "SHEET"

  /** No record name is a prefix of another, so a line starts with at most
      one of them: the source's chains of independent `if`s and its
      `else if` chains classify lines identically. */
  lemma RecordNamesExclusive(line: string)
    ensures Text.StartsWith(line, HeaderKeyword) ==> !Text.StartsWith(line, TitleKeyword) && !Text.StartsWith(line, AuthorKeyword) && !Text.StartsWith(line, TerKeyword) && !Text.StartsWith(line, AtomKeyword) && !Text.StartsWith(line, HetatmKeyword)
    ensures Text.StartsWith(line, TitleKeyword) ==> !Text.StartsWith(line, AuthorKeyword) && !Text.StartsWith(line, TerKeyword) && !Text.StartsWith(line, AtomKeyword) && !Text.StartsWith(line, HetatmKeyword)
    ensures Text.StartsWith(line, AuthorKeyword) ==> !Text.StartsWith(line, TerKeyword) && !Text.StartsWith(line, AtomKeyword) && !Text.StartsWith(line, HetatmKeyword)
    ensures Text.StartsWith(line, TerKeyword) ==> !Text.StartsWith(line, AtomKeyword) && !Text.StartsWith(line, HetatmKeyword) && !Text.StartsWith(line, EndmdlKeyword)
    ensures Text.StartsWith(line, AtomKeyword) ==> !Text.StartsWith(line, HetatmKeyword) && !Text.StartsWith(line, EndmdlKeyword)
    ensures Text.StartsWith(line, HetatmKeyword) ==> !Text.StartsWith(line, EndmdlKeyword)
  {
    Text.PrefixesDiffer(line, HeaderKeyword, TitleKeyword, 0);
    Text.PrefixesDiffer(line, HeaderKeyword, AuthorKeyword, 0);
    Text.PrefixesDiffer(line, HeaderKeyword, TerKeyword, 0);
    Text.PrefixesDiffer(line, HeaderKeyword, AtomKeyword, 0);
    Text.PrefixesDiffer(line, HeaderKeyword, HetatmKeyword, 2);
    Text.PrefixesDiffer(line, TitleKeyword, AuthorKeyword, 0);
    Text.PrefixesDiffer(line, TitleKeyword, TerKeyword, 1);
    Text.PrefixesDiffer(line, TitleKeyword, AtomKeyword, 0);
    Text.PrefixesDiffer(line, TitleKeyword, HetatmKeyword, 0);
    Text.PrefixesDiffer(line, AuthorKeyword, TerKeyword, 0);
    Text.PrefixesDiffer(line, AuthorKeyword, AtomKeyword, 1);
    Text.PrefixesDiffer(line, AuthorKeyword, HetatmKeyword, 0);
    Text.PrefixesDiffer(line, TerKeyword, AtomKeyword, 0);
    Text.PrefixesDiffer(line, TerKeyword, HetatmKeyword, 0);
    Text.PrefixesDiffer(line, TerKeyword, EndmdlKeyword, 0);
    Text.PrefixesDiffer(line, AtomKeyword, HetatmKeyword, 0);
    Text.PrefixesDiffer(line, AtomKeyword, EndmdlKeyword, 0);
    Text.PrefixesDiffer(line, HetatmKeyword, EndmdlKeyword, 0);
  }
}
