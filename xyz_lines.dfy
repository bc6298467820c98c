/** How both XYZ readers look at one line of an XYZ file: the blank-separated
    tokens, the optional `energy=` annotation and the element and
    coordinates of an atom line. */
module XyzLines {
  import opened Wrappers
  import Text
  import opened Geometry
  import AtomElements

  /** `XYZConstants.atomLineNumberOfComponents`. */
  const AtomLineNumberOfComponents: nat := 4

  const EnergyTag: string := "energy="

  /** `line.components(separatedBy: .whitespaces).filter { !$0.isEmpty }`. */
  function LineElements(line: string): (r: seq<string>)
    ensures forall k :: 0 <= k < |r| ==> |r[k]| > 0
    ensures forall k, j :: 0 <= k < |r| && 0 <= j < |r[k]| ==> !Text.IsBlank(r[k][j])
  {
    Text.SplitBy(line, Text.IsBlank)
  }

  /** The lower-cased line with every whitespace or newline character
      deleted. */
  function NormalizedLine(line: string): (r: string)
    ensures forall k :: 0 <= k < |r| ==> !Text.IsWhitespace(r[k])
  {
    Text.RemoveWhere(Text.Lowercased(line), Text.IsWhitespace)
  }

  /** The energy text of a line: `components(separatedBy: "energy=")[1]` of
      the normalised line when it contains the tag. */
  function EnergyText(line: string): (r: Option<string>)
    ensures r.Some? <==> Text.Contains(NormalizedLine(line), EnergyTag)
  {
    var n := NormalizedLine(line);
    if Text.Contains(n, EnergyTag) then
      var components := Text.ComponentsSeparatedBy(n, EnergyTag);
      if |components| >= 2 then Some(components[1]) else None
    else None
  }

  /** A line has energy text exactly when its normalised form contains
      `energy=`; the text is what follows the first occurrence, up to the
      next occurrence or the end of the line. */
  lemma EnergyTextMeaning(line: string)
    ensures var n := NormalizedLine(line);
      && (EnergyText(line).Some? <==> Text.Contains(n, EnergyTag))
      && (EnergyText(line).Some? ==>
            var i := Text.FirstOccurrence(n, EnergyTag).value;
            var rest := n[i + |EnergyTag|..];
            var e := EnergyText(line).value;
            && e <= rest && !Text.Contains(e, EnergyTag)
            && (e == rest || Text.OccursAt(rest, EnergyTag, |e|)))
  {
  }

  /** What a line is to the readers. */
  datatype LineKind =
    | Short
    | BadCoordinates
    | AtomRow(element: AtomElements.AtomElement, position: Vec3)

  /** The element token with spaces removed, read by `AtomElement(string:)`. */
  function ElementOf(token: string): (r: AtomElements.AtomElement)
    ensures r != AtomElements.Unknown && r != AtomElements.Chlorine ==>
      Text.Uppercased(Text.RemoveSpaces(token)) == AtomElements.UpperSymbol(r)
  {
    AtomElements.FromStringAsWritten(Text.RemoveSpaces(token))
  }

  /** A line with fewer than four tokens is short; otherwise tokens 1 to 3
      must all parse as coordinates, and the atom keeps x and y and the
      negated z (the chirality fix). */
  function ReadLine(line: string, parseReal: string -> Option<real>): (r: LineKind)
    ensures r.Short? <==> |LineElements(line)| < AtomLineNumberOfComponents
    ensures r.AtomRow? <==>
      var t := LineElements(line);
      |t| >= AtomLineNumberOfComponents && parseReal(t[1]).Some? && parseReal(t[2]).Some? && parseReal(t[3]).Some?
    ensures r.AtomRow? ==>
      var t := LineElements(line);
      && r.position == Vec3(parseReal(t[1]).value, parseReal(t[2]).value, -parseReal(t[3]).value)
      && r.element == ElementOf(t[0])
  {
    var t := LineElements(line);
    if |t| < AtomLineNumberOfComponents then Short
    else
      match (parseReal(t[1]), parseReal(t[2]), parseReal(t[3]))
      case (Some(x), Some(y), Some(z)) => AtomRow(ElementOf(t[0]), Vec3(x, y, -z))
      case _ => BadCoordinates
  }

  /** What the readers take from a line: its kind and its energy text. */
  datatype LineInfo = LineInfo(kind: LineKind, energyText: Option<string>)

  function Info(line: string, parseReal: string -> Option<real>): LineInfo {
    LineInfo(ReadLine(line, parseReal), EnergyText(line))
  }

  /** The information of every line, in order. */
  function Infos(lines: seq<string>, parseReal: string -> Option<real>): (r: seq<LineInfo>)
    ensures |r| == |lines| && forall k :: 0 <= k < |lines| ==> r[k] == Info(lines[k], parseReal)
  {
    if lines == [] then [] else Infos(lines[..|lines| - 1], parseReal) + [Info(lines[|lines| - 1], parseReal)]
  }

  /** One more line adds its information. */
  lemma InfosSnoc(lines: seq<string>, i: nat, parseReal: string -> Option<real>)
    requires i < |lines|
    ensures Infos(lines[..i + 1], parseReal) == Infos(lines[..i], parseReal) + [Info(lines[i], parseReal)]
  {
    assert lines[..i + 1][..i] == lines[..i];
  }

  predicate IsAtomLine(info: LineInfo) {
    info.kind.AtomRow?
  }

  /** The positions of the atom lines, in line order. */
  function AtomPositions(infos: seq<LineInfo>): (r: seq<Vec3>)
    ensures |r| <= |infos|
  {
    if infos == [] then []
    else
      var pre := AtomPositions(infos[..|infos| - 1]);
      var kind := infos[|infos| - 1].kind;
      if kind.AtomRow? then pre + [kind.position] else pre
  }

  /** The elements of the atom lines, in line order. */
  function AtomElementsOf(infos: seq<LineInfo>): (r: seq<AtomElements.AtomElement>)
    ensures |r| == |AtomPositions(infos)|
  {
    if infos == [] then []
    else
      var pre := AtomElementsOf(infos[..|infos| - 1]);
      var kind := infos[|infos| - 1].kind;
      if kind.AtomRow? then pre + [kind.element] else pre
  }

  /** The number of lines that are not atom lines and directly follow an
      atom line: the ends of the blocks of atom lines. */
  function BlockEnds(infos: seq<LineInfo>): nat {
    if |infos| < 2 then 0
    else
      BlockEnds(infos[..|infos| - 1])
      + (if !IsAtomLine(infos[|infos| - 1]) && IsAtomLine(infos[|infos| - 2]) then 1 else 0)
  }
}
