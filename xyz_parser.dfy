/** The package's XYZ reader (`XYZParser`): an actor whose `configurations`
    collect the atoms of each block of atom lines, a new configuration being
    opened at the first short or unreadable line after a non-empty one. */
module XyzParser {
  import opened Wrappers
  import Text
  import opened Geometry
  import opened AtomElements
  import opened ElementCompositions
  import opened ProteinSubunits
  import Proteins
  import opened XyzLines
  import ParsePdb

  // ---------------------------------------------------------------------
  // Specification, on values.

  /** The state of one `XYZParsedConfiguration` object. Its composition is
      never updated by the reader. */
  datatype Configuration = Configuration(
    id: int, energy: Option<real>, atomArray: seq<Vec3>, atomElements: seq<AtomElement>,
    atomArrayComposition: Composition)

  /** `XYZParsedConfiguration(id:)`. */
  function EmptyConfiguration(id: int): Configuration {
    Configuration(id, None, [], [], Empty)
  }

  function Last<T>(s: seq<T>): T
    requires s != []
  {
    s[|s| - 1]
  }

  function ReplaceLast<T>(s: seq<T>, x: T): (r: seq<T>)
    requires s != []
    ensures |r| == |s| && r[..|s| - 1] == s[..|s| - 1] && r[|s| - 1] == x
  {
    s[..|s| - 1] + [x]
  }

  /** `createNewConfigurationUnlessEmpty()` on values. */
  function CreateUnlessEmpty(cs: seq<Configuration>): (r: seq<Configuration>)
    requires cs != []
    ensures |r| == |cs| || |r| == |cs| + 1
    ensures r[..|cs|] == cs
    ensures |r| == |cs| + 1 <==> |Last(cs).atomElements| != 0
    ensures |r| > |cs| ==> r[|cs|] == EmptyConfiguration(|cs|)
  {
    if |Last(cs).atomElements| != 0 then cs + [EmptyConfiguration(|cs|)] else cs
  }

  /** The energy branch: when the line has energy text, the last
      configuration's energy becomes its parse, possibly nil. */
  function WithEnergy(cs: seq<Configuration>, energyText: Option<string>, parseReal: string -> Option<real>): (r: seq<Configuration>)
    requires cs != []
  {
    match energyText
    case Some(e) => ReplaceLast(cs, Last(cs).(energy := parseReal(e)))
    case None => cs
  }

  /** `parseLine` on values: a short line requests a new configuration;
      a longer one first records any energy, then either requests a new
      configuration (bad coordinates) or appends the atom to the last one. */
  function LineStep(cs: seq<Configuration>, info: LineInfo, parseReal: string -> Option<real>): (r: seq<Configuration>)
    requires cs != []
    ensures r != []
  {
    match info.kind
    case Short => CreateUnlessEmpty(cs)
    case BadCoordinates => CreateUnlessEmpty(WithEnergy(cs, info.energyText, parseReal))
    case AtomRow(element, position) =>
      var c := WithEnergy(cs, info.energyText, parseReal);
      ReplaceLast(c, Last(c).(atomArray := Last(c).atomArray + [position], atomElements := Last(c).atomElements + [element]))
  }

  /** The configurations after reading the lines of `infos` from `cs`. */
  function ScanFrom(cs: seq<Configuration>, infos: seq<LineInfo>, parseReal: string -> Option<real>): (r: seq<Configuration>)
    requires cs != []
    ensures r != []
    decreases |infos|
  {
    if infos == [] then cs else LineStep(ScanFrom(cs, infos[..|infos| - 1], parseReal), infos[|infos| - 1], parseReal)
  }

  /** The configurations after `resetParser()` and the file's lines. */
  function Scan(infos: seq<LineInfo>, parseReal: string -> Option<real>): (r: seq<Configuration>)
    ensures r != []
  {
    ScanFrom([EmptyConfiguration(0)], infos, parseReal)
  }

  lemma ScanFromSnoc(cs: seq<Configuration>, pre: seq<LineInfo>, info: LineInfo, parseReal: string -> Option<real>)
    requires cs != []
    ensures ScanFrom(cs, pre + [info], parseReal) == LineStep(ScanFrom(cs, pre, parseReal), info, parseReal)
  {
    assert (pre + [info])[..|pre|] == pre;
  }

  /** Every configuration's atoms, in configuration order. */
  function AllAtoms(cs: seq<Configuration>): seq<Vec3> {
    if cs == [] then [] else AllAtoms(cs[..|cs| - 1]) + Last(cs).atomArray
  }

  /** The energies of the configurations that have one, in order. */
  function PresentEnergies(cs: seq<Configuration>): seq<real> {
    if cs == [] then []
    else PresentEnergies(cs[..|cs| - 1]) + (if Last(cs).energy.Some? then [Last(cs).energy.value] else [])
  }

  /** The energy loop: nil until the first configuration with an energy,
      then that list extended by each later energy. */
  function EnergiesOf(cs: seq<Configuration>): Option<seq<real>> {
    if cs == [] then None
    else
      var pre := EnergiesOf(cs[..|cs| - 1]);
      match Last(cs).energy
      case Some(e) => Some((if pre.Some? then pre.value else []) + [e])
      case None => pre
  }

  // ---------------------------------------------------------------------
  // Properties.

  /** The reader's configurations are numbered by position, hold parallel
      position and element lists, keep the initial composition, and only
      the last one may be empty. */
  ghost predicate WellFormed(cs: seq<Configuration>) {
    && cs != []
    && (forall k :: 0 <= k < |cs| ==> cs[k].id == k)
    && (forall k :: 0 <= k < |cs| ==> |cs[k].atomArray| == |cs[k].atomElements|)
    && (forall k :: 0 <= k < |cs| ==> cs[k].atomArrayComposition == Empty)
    && (forall k :: 0 <= k < |cs| - 1 ==> |cs[k].atomElements| > 0)
  }

  /** A new configuration is appended, numbered by the current count, iff
      the last one has an element; otherwise nothing changes. */
  lemma CreateUnlessEmptyMeaning(cs: seq<Configuration>)
    requires WellFormed(cs)
    ensures |Last(cs).atomElements| != 0 <==> |CreateUnlessEmpty(cs)| == |cs| + 1
    ensures |CreateUnlessEmpty(cs)| == |cs| + 1 ==>
      CreateUnlessEmpty(cs)[..|cs|] == cs && Last(CreateUnlessEmpty(cs)) == EmptyConfiguration(|cs|)
    ensures |CreateUnlessEmpty(cs)| == |cs| ==> CreateUnlessEmpty(cs) == cs
  {
    if |Last(cs).atomElements| != 0 {
      assert CreateUnlessEmpty(cs)[..|cs|] == cs;
    }
  }

  /** Recording an energy changes only the last configuration's energy. */
  lemma WithEnergyKeepsAtoms(cs: seq<Configuration>, energyText: Option<string>, parseReal: string -> Option<real>)
    requires WellFormed(cs)
    ensures var r := WithEnergy(cs, energyText, parseReal);
      && WellFormed(r) && |r| == |cs|
      && r[..|cs| - 1] == cs[..|cs| - 1]
      && Last(r) == Last(cs).(energy := Last(r).energy)
      && AllAtoms(r) == AllAtoms(cs)
  {
    var r := WithEnergy(cs, energyText, parseReal);
    if energyText.Some? {
      forall k | 0 <= k < |r|
        ensures r[k].id == k && |r[k].atomArray| == |r[k].atomElements| && r[k].atomArrayComposition == Empty
        ensures k < |r| - 1 ==> |r[k].atomElements| > 0
      {
        if k < |cs| - 1 {
          assert r[k] == r[..|cs| - 1][k] == cs[k];
        }
      }
      assert r[..|r| - 1] == cs[..|cs| - 1];
    }
  }

  /** Appending an atom to the last configuration extends the atom list by
      that atom. */
  lemma AllAtomsReplaceLast(cs: seq<Configuration>, c: Configuration, p: Vec3)
    requires cs != [] && c.atomArray == Last(cs).atomArray + [p]
    ensures AllAtoms(ReplaceLast(cs, c)) == AllAtoms(cs) + [p]
  {
    var r := ReplaceLast(cs, c);
    assert r[..|r| - 1] == cs[..|cs| - 1];
  }

  /** A configuration appended after well-formed ones keeps them well
      formed and adds no atom. */
  lemma AppendEmptyKeepsWellFormed(cs: seq<Configuration>)
    requires WellFormed(cs) && |Last(cs).atomElements| != 0
    ensures WellFormed(cs + [EmptyConfiguration(|cs|)])
    ensures AllAtoms(cs + [EmptyConfiguration(|cs|)]) == AllAtoms(cs)
  {
    var r := cs + [EmptyConfiguration(|cs|)];
    assert r[..|cs|] == cs;
    assert AllAtoms(r) == AllAtoms(cs) + [];
  }

  /** A request for a new configuration keeps the configurations well formed
      and adds no atom. */
  lemma CreateKeepsWellFormed(cs: seq<Configuration>)
    requires WellFormed(cs)
    ensures WellFormed(CreateUnlessEmpty(cs)) && AllAtoms(CreateUnlessEmpty(cs)) == AllAtoms(cs)
  {
    if |Last(cs).atomElements| != 0 {
      AppendEmptyKeepsWellFormed(cs);
    }
  }

  /** An atom appended to the last configuration keeps the configurations
      well formed and extends the atom list by its position. */
  lemma AppendAtomKeepsWellFormed(cs: seq<Configuration>, element: AtomElement, position: Vec3)
    requires WellFormed(cs)
    ensures var r := ReplaceLast(cs, Last(cs).(atomArray := Last(cs).atomArray + [position],
                                               atomElements := Last(cs).atomElements + [element]));
      WellFormed(r) && AllAtoms(r) == AllAtoms(cs) + [position]
  {
    var l := Last(cs).(atomArray := Last(cs).atomArray + [position], atomElements := Last(cs).atomElements + [element]);
    var r := ReplaceLast(cs, l);
    AllAtomsReplaceLast(cs, l, position);
    forall k | 0 <= k < |r|
      ensures r[k].id == k && |r[k].atomArray| == |r[k].atomElements| && r[k].atomArrayComposition == Empty
      ensures k < |r| - 1 ==> |r[k].atomElements| > 0
    {
      if k < |cs| - 1 {
        assert r[k] == r[..|cs| - 1][k] == cs[k];
      }
    }
  }

  /** Every line keeps the configurations well formed, and the atom list
      grows exactly by the line's atom, if any. */
  lemma LineStepKeepsWellFormed(cs: seq<Configuration>, info: LineInfo, parseReal: string -> Option<real>)
    requires WellFormed(cs)
    ensures WellFormed(LineStep(cs, info, parseReal))
    ensures AllAtoms(LineStep(cs, info, parseReal)) ==
      if info.kind.AtomRow? then AllAtoms(cs) + [info.kind.position] else AllAtoms(cs)
  {
    var kind := info.kind;
    if kind.Short? {
      CreateKeepsWellFormed(cs);
    } else {
      var c := WithEnergy(cs, info.energyText, parseReal);
      WithEnergyKeepsAtoms(cs, info.energyText, parseReal);
      if kind.BadCoordinates? {
        CreateKeepsWellFormed(c);
      } else {
        AppendAtomKeepsWellFormed(c, kind.element, kind.position);
      }
    }
  }

  /** Reading a file keeps the configurations well formed, and their atoms,
      in configuration order, are the atom lines' positions in line order. */
  lemma {:induction false} ScanShape(infos: seq<LineInfo>, parseReal: string -> Option<real>)
    ensures WellFormed(Scan(infos, parseReal))
    ensures AllAtoms(Scan(infos, parseReal)) == AtomPositions(infos)
    decreases |infos|
  {
    if infos == [] {
      assert AllAtoms([EmptyConfiguration(0)]) == AllAtoms([]) + [];
    } else {
      var pre := infos[..|infos| - 1];
      ScanShape(pre, parseReal);
      LineStepKeepsWellFormed(Scan(pre, parseReal), infos[|infos| - 1], parseReal);
    }
  }

  /** After an atom line the last configuration holds atoms; after any other
      line it is empty, and a configuration was appended exactly when the
      last one had held atoms. */
  lemma LineStepOpensAtBlockEnd(cs: seq<Configuration>, info: LineInfo, parseReal: string -> Option<real>)
    requires cs != []
    ensures var r := LineStep(cs, info, parseReal);
      && (IsAtomLine(info) ==> |r| == |cs| && |Last(r).atomElements| > 0)
      && (!IsAtomLine(info) ==>
            && |Last(r).atomElements| == 0
            && |r| == (if |Last(cs).atomElements| > 0 then |cs| + 1 else |cs|))
  {
    var c := WithEnergy(cs, info.energyText, parseReal);
    assert |c| == |cs| && Last(c).atomElements == Last(cs).atomElements;
  }

  /** The reader opens one configuration, and one more at the end of each
      block of atom lines; the last configuration holds atoms exactly when
      the file ends with an atom line. */
  lemma {:induction false} ScanCountsBlocks(infos: seq<LineInfo>, parseReal: string -> Option<real>)
    ensures |Scan(infos, parseReal)| == 1 + BlockEnds(infos)
    ensures |Last(Scan(infos, parseReal)).atomElements| > 0 <==> infos != [] && IsAtomLine(Last(infos))
    decreases |infos|
  {
    if infos != [] {
      var pre := infos[..|infos| - 1];
      ScanCountsBlocks(pre, parseReal);
      LineStepOpensAtBlockEnd(Scan(pre, parseReal), Last(infos), parseReal);
      if |infos| >= 2 {
        assert Last(pre) == infos[|infos| - 2];
      }
    }
  }

  /** The energy list is nil exactly when no configuration has an energy,
      and otherwise lists the present energies in order. */
  lemma {:induction false} EnergiesArePresent(cs: seq<Configuration>)
    ensures EnergiesOf(cs) == if PresentEnergies(cs) == [] then None else Some(PresentEnergies(cs))
    decreases |cs|
  {
    if cs != [] {
      var pre := cs[..|cs| - 1];
      EnergiesArePresent(pre);
      if Last(cs).energy.Some? {
        assert PresentEnergies(cs) == PresentEnergies(pre) + [Last(cs).energy.value];
      } else {
        assert EnergiesOf(cs) == EnergiesOf(pre);
        assert PresentEnergies(cs) == PresentEnergies(pre) + [];
        assert PresentEnergies(cs) == PresentEnergies(pre);
      }
    }
  }

  /** A configuration's energy is listed or the configuration has none. */
  lemma {:induction false} PresentEnergiesMembers(cs: seq<Configuration>)
    ensures forall k :: 0 <= k < |cs| && cs[k].energy.Some? ==> cs[k].energy.value in PresentEnergies(cs)
    ensures |PresentEnergies(cs)| <= |cs|
    decreases |cs|
  {
    if cs != [] {
      var pre := cs[..|cs| - 1];
      PresentEnergiesMembers(pre);
      forall k | 0 <= k < |cs| - 1 && cs[k].energy.Some?
        ensures cs[k].energy.value in PresentEnergies(cs)
      {
        assert cs[k] == pre[k];
      }
    }
  }

  // ---------------------------------------------------------------------
  // The result.

  datatype XyzParserError = EmptyAtomCount

  datatype FileType = StaticStructure | DynamicStructure

  datatype XyzFile = XyzFile(fileType: FileType, fileName: string, fileExtension: string,
                             models: seq<Proteins.Protein>, fileInfo: ParsePdb.KnownInfo, byteSize: Option<int>)

  /** What `parseXYZ` builds from its configurations: one protein with
      every atom, the first configuration's elements and one subunit. The
      random identity of the protein is the argument `uuid`. */
  function Assembled(cs: seq<Configuration>, fileName: string, fileExtension: string, byteSize: Option<int>,
                     originalFileInfo: Option<ParsePdb.KnownInfo>, uuid: Proteins.Uuid): Result<XyzFile, XyzParserError>
    requires cs != []
  {
    var atoms := AllAtoms(cs);
    if |atoms| == 0 then Err(EmptyAtomCount)
    else
      var first := cs[0];
      var subunit := ProteinSubunits.Make(first.id, UnknownKind, first.atomArrayComposition.totalCount, 0);
      var protein := Proteins.Make(uuid, |cs|, EnergiesOf(cs), 1, [subunit], atoms, Counted(first.atomElements),
                                   first.atomElements, None, None, None, None);
      Ok(XyzFile(if |cs| > 1 then DynamicStructure else StaticStructure, fileName, fileExtension, [protein],
                 ParsePdb.Inherited(originalFileInfo), byteSize))
  }

  /** The file of a well-formed scan: `emptyAtomCount` exactly when there
      is no atom line; otherwise one protein whose atoms are the atom lines'
      positions, whose element list and count are the first configuration's,
      whose energies are the present ones, and which is dynamic exactly when
      there is more than one configuration. Its one subunit has the first
      configuration's id 0 and, since that composition is never updated,
      atom count 0. */
  lemma AssembledMeaning(infos: seq<LineInfo>, fileName: string, fileExtension: string, byteSize: Option<int>,
                         originalFileInfo: Option<ParsePdb.KnownInfo>, uuid: Proteins.Uuid, parseReal: string -> Option<real>)
    ensures var cs := Scan(infos, parseReal);
      var r := Assembled(cs, fileName, fileExtension, byteSize, originalFileInfo, uuid);
      && (r.Err? <==> AtomPositions(infos) == [])
      && (r.Ok? ==>
            var p := r.value.models[0];
            && |r.value.models| == 1
            && p.atoms == AtomPositions(infos)
            && p.atomElements == cs[0].atomElements
            && p.atomCount == |cs[0].atomElements| && |cs[0].atomElements| == |cs[0].atomArray|
            && p.configurationCount == |cs|
            && p.configurationEnergies == (if PresentEnergies(cs) == [] then None else Some(PresentEnergies(cs)))
            && p.subunits == [ProteinSubunit(0, UnknownKind, 0, 0)]
            && (r.value.fileType == DynamicStructure <==> |cs| > 1))
  {
    var cs := Scan(infos, parseReal);
    ScanShape(infos, parseReal);
    EnergiesArePresent(cs);
  }

  // ---------------------------------------------------------------------
  // The reader's objects.

  /** `XYZParsedConfiguration`: a configuration the reader fills in place. */
  class XyzParsedConfiguration {
    var id: int
    var energy: Option<real>
    var atomArray: seq<Vec3>
    var atomElements: seq<AtomElement>
    var atomArrayComposition: Composition

    function Value(): Configuration
      reads this
    {
      Configuration(id, energy, atomArray, atomElements, atomArrayComposition)
    }

    constructor(id: int)
      ensures Value() == EmptyConfiguration(id)
    {
      this.id := id;
      energy := None;
      atomArray := [];
      atomElements := [];
      atomArrayComposition := Empty;
    }

    /** `energy = ...`. */
    method SetEnergy(energy: Option<real>)
      modifies this
      ensures Value() == old(Value()).(energy := energy)
    {
      this.energy := energy;
    }

    /** `atomArray.append(...)` and `atomElements.append(...)`. */
    method Append(element: AtomElement, position: Vec3)
      modifies this
      ensures Value() == old(Value()).(atomArray := old(atomArray) + [position], atomElements := old(atomElements) + [element])
    {
      atomArray := atomArray + [position];
      atomElements := atomElements + [element];
    }
  }

  ghost predicate Distinct(cs: seq<XyzParsedConfiguration>) {
    forall i, j :: 0 <= i < j < |cs| ==> cs[i] != cs[j]
  }

  /** The states of a list of configuration objects. */
  function Values(cs: seq<XyzParsedConfiguration>): (r: seq<Configuration>)
    reads cs
    ensures |r| == |cs| && forall k :: 0 <= k < |cs| ==> r[k] == cs[k].Value()
  {
    if cs == [] then [] else Values(cs[..|cs| - 1]) + [cs[|cs| - 1].Value()]
  }

  /** The last configuration object, the only one a line may change. */
  function LastOnly(cs: seq<XyzParsedConfiguration>): (r: set<XyzParsedConfiguration>)
    ensures forall c :: c in r ==> c in cs
  {
    if cs == [] then {} else {cs[|cs| - 1]}
  }

  /** When only the last of distinct objects changed, only the last state
      changed. */
  twostate lemma ValuesAfterLastChanged(cs: seq<XyzParsedConfiguration>)
    requires cs != []
    requires forall k :: 0 <= k < |cs| - 1 ==> unchanged(cs[k])
    ensures Values(cs) == ReplaceLast(old(Values(cs)), Last(cs).Value())
  {
    var r := Values(cs);
    var o := old(Values(cs));
    var t := ReplaceLast(o, Last(cs).Value());
    forall k | 0 <= k < |cs|
      ensures r[k] == t[k]
    {
      if k < |cs| - 1 {
        ValueUnchanged(cs[k]);
        assert t[k] == t[..|cs| - 1][k] == o[k];
      }
    }
  }

  twostate lemma ValueUnchanged(c: XyzParsedConfiguration)
    requires unchanged(c)
    ensures c.Value() == old(c.Value())
  {
  }

  /** The states of the objects and one more. */
  lemma ValuesSnoc(cs: seq<XyzParsedConfiguration>, c: XyzParsedConfiguration)
    ensures Values(cs + [c]) == Values(cs) + [c.Value()]
  {
    assert (cs + [c])[..|cs|] == cs;
  }

  /** Number of `"\n"` characters of the text (`totalLineCount`). */
  function NewlineCount(s: string): (n: nat)
    ensures n == multiset(s)['\n'] && n <= |s|
  {
    if s == [] then 0
    else
      assert s == s[..|s| - 1] + [s[|s| - 1]];
      NewlineCount(s[..|s| - 1]) + (if s[|s| - 1] == '\n' then 1 else 0)
  }

  /** The `XYZParser` actor. `progress`, reported to the status view after
      every line, is not part of this model. */
  class XyzParser {
    var currentLine: int
    var totalLineCount: int
    var configurations: seq<XyzParsedConfiguration>

    ghost predicate Valid()
      reads this
    {
      configurations != [] && Distinct(configurations)
    }

    function Configurations(): seq<Configuration>
      reads this, configurations
    {
      Values(configurations)
    }

    constructor()
      ensures Valid() && currentLine == 0 && totalLineCount == 1
      ensures Configurations() == [EmptyConfiguration(0)] && fresh(configurations[0])
    {
      currentLine := 0;
      totalLineCount := 1;
      var first := new XyzParsedConfiguration(0);
      configurations := [first];
    }

    /** `resetParser()`. */
    method ResetParser()
      modifies this
      ensures Valid() && currentLine == 0 && totalLineCount == 1
      ensures |configurations| == 1 && fresh(configurations[0])
      ensures Configurations() == [EmptyConfiguration(0)]
    {
      currentLine := 0;
      totalLineCount := 1;
      var first := new XyzParsedConfiguration(0);
      configurations := [first];
    }

    /** `createNewConfigurationUnlessEmpty()`. */
    method CreateNewConfigurationUnlessEmpty()
      requires Valid()
      modifies this`configurations
      ensures Valid()
      ensures Configurations() == CreateUnlessEmpty(old(Configurations()))
      ensures forall c :: c in configurations ==> c in old(configurations) || fresh(c)
    {
      ghost var cs := Configurations();
      if |configurations[|configurations| - 1].atomElements| == 0 {
        return;
      }
      var configuration := new XyzParsedConfiguration(|configurations|);
      ValuesSnoc(configurations, configuration);
      configurations := configurations + [configuration];
    }

    /** The energy branch of `parseLine`: the text after `energy=` in the
      normalised line, when there is one, parsed into the last
      configuration's energy. */
    method RecordEnergy(energyText: Option<string>, parseReal: string -> Option<real>)
      requires Valid()
      modifies LastOnly(configurations)
      ensures Configurations() == WithEnergy(old(Configurations()), energyText, parseReal)
    {
      if energyText.Some? {
        SetLastEnergy(parseReal(energyText.value));
      }
    }

    /** `configurations.last?.energy = ...`. */
    method SetLastEnergy(energy: Option<real>)
      requires Valid()
      modifies LastOnly(configurations)
      ensures Configurations() == ReplaceLast(old(Configurations()), old(Last(Configurations())).(energy := energy))
    {
      var last := configurations[|configurations| - 1];
      last.SetEnergy(energy);
      ValuesAfterLastChanged(configurations);
    }

    /** The append at the end of `parseLine`: position and element go to the
      last configuration together. */
    method AppendAtom(element: AtomElement, position: Vec3)
      requires Valid()
      modifies LastOnly(configurations)
      ensures Configurations() == ReplaceLast(old(Configurations()),
        old(Last(Configurations())).(atomArray := old(Last(Configurations())).atomArray + [position],
                                     atomElements := old(Last(Configurations())).atomElements + [element]))
    {
      var last := configurations[|configurations| - 1];
      last.Append(element, position);
      ValuesAfterLastChanged(configurations);
    }

    /** `parseLine(_:...)`: one more line counted, the line read into its
      kind (`ReadLine` states the token count and coordinate checks) and
      its energy text, and the configurations stepped by it. */
    method ParseLine(line: string, parseReal: string -> Option<real>)
      requires Valid()
      modifies this, LastOnly(configurations)
      ensures Valid()
      ensures currentLine == old(currentLine) + 1 && totalLineCount == old(totalLineCount)
      ensures Configurations() == LineStep(old(Configurations()), Info(line, parseReal), parseReal)
      ensures forall c :: c in configurations ==> c in old(configurations) || fresh(c)
    {
      currentLine := currentLine + 1;
      assert Configurations() == old(Configurations());
      var kind := ReadLine(line, parseReal);
      var energyText := EnergyText(line);
      ApplyLine(LineInfo(kind, energyText), parseReal);
    }

    /** The branches of `parseLine`: a short line ends the configuration; a
      longer one first records its energy, then ends the configuration when
      its coordinates do not parse and appends its atom when they do. */
    method ApplyLine(info: LineInfo, parseReal: string -> Option<real>)
      requires Valid()
      modifies this`configurations, LastOnly(configurations)
      ensures Valid()
      ensures Configurations() == LineStep(old(Configurations()), info, parseReal)
      ensures forall c :: c in configurations ==> c in old(configurations) || fresh(c)
    {
      match info.kind {
        case Short =>
          CreateNewConfigurationUnlessEmpty();
        case BadCoordinates =>
          RecordEnergy(info.energyText, parseReal);
          CreateNewConfigurationUnlessEmpty();
        case AtomRow(element, position) =>
          RecordEnergy(info.energyText, parseReal);
          AppendAtom(element, position);
      }
    }

    /** The line loop of `parseXYZ`: every line of `lines` parsed in order. */
    method ParseLines(lines: seq<string>, parseReal: string -> Option<real>)
      requires Valid()
      modifies this, configurations
      ensures Valid() && Configurations() == ScanFrom(old(Configurations()), Infos(lines, parseReal), parseReal)
      ensures currentLine == old(currentLine) + |lines| && totalLineCount == old(totalLineCount)
    {
      ghost var start := Configurations();
      ghost var infos := Infos(lines, parseReal);
      for i := 0 to |lines|
        invariant Valid() && currentLine == old(currentLine) + i && totalLineCount == old(totalLineCount)
        invariant forall c :: c in configurations ==> c in old(configurations) || fresh(c)
        invariant Configurations() == ScanFrom(start, infos[..i], parseReal)
      {
        Text.TakeSnoc(infos, i);
        ScanFromSnoc(start, infos[..i], infos[i], parseReal);
        ParseLine(lines[i], parseReal);
      }
      assert infos[..|lines|] == infos;
    }

    /** `parseXYZ(...)`: the parser is reset, every line of `lines` (the text
      as `enumerateLines` hands it over) is parsed, and the file is
      assembled from the configurations. */
    method ParseXyz(fileName: string, fileExtension: string, byteSize: Option<int>, rawText: string,
                    lines: seq<string>, originalFileInfo: Option<ParsePdb.KnownInfo>, uuid: Proteins.Uuid,
                    parseReal: string -> Option<real>)
      returns (r: Result<XyzFile, XyzParserError>)
      modifies this
      ensures Valid() && Configurations() == Scan(Infos(lines, parseReal), parseReal)
      ensures currentLine == |lines| && totalLineCount == NewlineCount(rawText)
      ensures r == Assembled(Scan(Infos(lines, parseReal), parseReal), fileName, fileExtension, byteSize, originalFileInfo, uuid)
    {
      ResetParser();
      totalLineCount := NewlineCount(rawText);
      var fileInfo := ParsePdb.Inherited(originalFileInfo);
      ParseLines(lines, parseReal);
      ghost var cs := Scan(Infos(lines, parseReal), parseReal);
      assert Values(configurations) == cs;
      r := Collect(configurations, fileName, fileExtension, byteSize, fileInfo, originalFileInfo, uuid);
    }
  }

  /** The configuration loop of `parseXYZ`: every configuration's atoms
      concatenated, and the energies collected. */
  method ConcatenateConfigurations(configurations: seq<XyzParsedConfiguration>)
    returns (atomArray: seq<Vec3>, energyArray: Option<seq<real>>)
    ensures atomArray == AllAtoms(Values(configurations)) && energyArray == EnergiesOf(Values(configurations))
  {
    ghost var cs := Values(configurations);
    atomArray := [];
    energyArray := None;
    for i := 0 to |configurations|
      invariant atomArray == AllAtoms(cs[..i])
      invariant energyArray == EnergiesOf(cs[..i])
    {
      Text.TakeSnoc(cs, i);
      var configuration := configurations[i];
      atomArray := atomArray + configuration.atomArray;
      if configuration.energy.Some? {
        if energyArray.None? {
          energyArray := Some([]);
        }
        energyArray := Some(energyArray.value + [configuration.energy.value]);
      }
    }
    assert cs[..|configurations|] == cs;
  }

  /** The tail of `parseXYZ`: the configurations' atoms and energies, the
      empty check, the composition of the first configuration's elements and
      the protein. */
  method Collect(configurations: seq<XyzParsedConfiguration>, fileName: string, fileExtension: string,
                 byteSize: Option<int>, fileInfo: ParsePdb.KnownInfo, originalFileInfo: Option<ParsePdb.KnownInfo>,
                 uuid: Proteins.Uuid)
    returns (r: Result<XyzFile, XyzParserError>)
    requires configurations != [] && fileInfo == ParsePdb.Inherited(originalFileInfo)
    ensures r == Assembled(Values(configurations), fileName, fileExtension, byteSize, originalFileInfo, uuid)
  {
    var firstConfiguration := configurations[0];
    var configurationCount := |configurations|;
    var atomArray, energyArray := ConcatenateConfigurations(configurations);
    if |atomArray| == 0 {
      return Err(EmptyAtomCount);
    }
    var atomElements: seq<AtomElement> := [] + firstConfiguration.atomElements;
    assert atomElements == Values(configurations)[0].atomElements;
    var atomArrayComposition := CountElements(atomElements);
    var proteinSubunits := [ProteinSubunits.Make(firstConfiguration.id, UnknownKind,
                                                 firstConfiguration.atomArrayComposition.totalCount, 0)];
    var protein := Proteins.Make(uuid, configurationCount, energyArray, 1, proteinSubunits, atomArray,
                                 atomArrayComposition, atomElements, None, None, None, None);
    var fileType := if |configurations| > 1 then DynamicStructure else StaticStructure;
    r := Ok(XyzFile(fileType, fileName, fileExtension, [protein], fileInfo, byteSize));
  }
}
