/** The chemical elements the viewer distinguishes, their 8-bit raw values,
    the C/H/N/O/S versus "other" partition, the string and index
    initialisers, and the per-element radius and default colour tables. */
module AtomElements {
  import opened Wrappers
  import Text

  datatype AtomElement =
    | Unknown | Hydrogen | Carbon | Nitrogen | Oxygen | Fluorine | Sodium
    | Magnesium | Phosphorus | Sulfur | Chlorine | Potassium | Calcium
    | Iron | Zinc | Iodine

  /** The enum's `UInt8` raw value (the atomic number, 0 for unknown). */
  function RawValue(e: AtomElement): (r: nat)
    ensures r < 256
    ensures r == 0 <==> e == Unknown
  {
    match e
    case Unknown => 0
    case Hydrogen => 1
    case Carbon => 6
    case Nitrogen => 7
    case Oxygen => 8
    case Fluorine => 9
    case Sodium => 11
    case Magnesium => 12
    case Phosphorus => 15
    case Sulfur => 16
    case Chlorine => 17
    case Potassium => 19
    case Calcium => 20
    case Iron => 26
    case Zinc => 30
    case Iodine => 52
  }

  /** Raw values are distinct: the raw value identifies the case. */
  lemma RawValueInjective(a: AtomElement, b: AtomElement)
    ensures RawValue(a) == RawValue(b) ==> a == b
  {
  }

  /** `allCases`, in declaration order. */
  const AllCases: seq<AtomElement> :=
    [Unknown, Hydrogen, Carbon, Nitrogen, Oxygen, Fluorine, Sodium, Magnesium,
     Phosphorus, Sulfur, Chlorine, Potassium, Calcium, Iron, Zinc, Iodine]

  /** `importantElements`. */
  const ImportantElements: seq<AtomElement> := [Carbon, Hydrogen, Nitrogen, Oxygen, Sulfur]

  /** `allCases` filtered by a predicate, in case order. */
  function FilterCases(s: seq<AtomElement>, keep: AtomElement -> bool): (r: seq<AtomElement>)
    ensures forall e :: e in r <==> e in s && keep(e)
    ensures |r| <= |s|
  {
    if s == [] then []
    else (if keep(s[0]) then [s[0]] else []) + FilterCases(s[1..], keep)
  }

  /** The cases appear in the order `allCases` lists them, each once. */
  predicate InCaseOrder(s: seq<AtomElement>) {
    forall i, j :: 0 <= i < j < |s| ==> RawIndex(s[i]) < RawIndex(s[j])
  }

  /** Filtering keeps the order of the list filtered. */
  lemma {:induction false} FilterKeepsOrder(s: seq<AtomElement>, keep: AtomElement -> bool)
    requires InCaseOrder(s)
    ensures InCaseOrder(FilterCases(s, keep))
  {
    if s != [] {
      var tail := s[1..];
      assert forall i, j :: 0 <= i < j < |tail| ==> RawIndex(tail[i]) < RawIndex(tail[j]) by {
        forall i, j | 0 <= i < j < |tail| ensures RawIndex(tail[i]) < RawIndex(tail[j]) {
          assert tail[i] == s[i + 1] && tail[j] == s[j + 1];
        }
      }
      FilterKeepsOrder(tail, keep);
      var rest := FilterCases(tail, keep);
      forall k | 0 <= k < |rest| ensures RawIndex(s[0]) < RawIndex(rest[k]) {
        assert rest[k] in tail;
        var j :| 0 <= j < |tail| && tail[j] == rest[k];
        assert tail[j] == s[j + 1];
      }
    }
  }

  /** `allCases` is in its own order. */
  lemma AllCasesInOrder()
    ensures InCaseOrder(AllCases)
  {
    forall i | 0 <= i < |AllCases|
      ensures RawIndex(AllCases[i]) == i
    {
    }
  }

  /** Membership in `importantElements`. */
  predicate IsImportant(e: AtomElement) {
    e.Carbon? || e.Hydrogen? || e.Nitrogen? || e.Oxygen? || e.Sulfur?
  }

  lemma ImportantMembership(e: AtomElement)
    ensures e in ImportantElements <==> IsImportant(e)
  {
    if IsImportant(e) {
      match e
      case Carbon => assert ImportantElements[0] == e;
      case Hydrogen => assert ImportantElements[1] == e;
      case Nitrogen => assert ImportantElements[2] == e;
      case Oxygen => assert ImportantElements[3] == e;
      case Sulfur => assert ImportantElements[4] == e;
    }
  }

  /** `allCases` lists every case. */
  lemma AllCasesComplete(e: AtomElement)
    ensures e in AllCases
  {
    assert AllCases[RawIndex(e)] == e;
  }

  /** Position of a case in `allCases`. */
  function RawIndex(e: AtomElement): (i: nat)
    ensures i < |AllCases| && AllCases[i] == e
  {
    match e
    case Unknown => 0
    case Hydrogen => 1
    case Carbon => 2
    case Nitrogen => 3
    case Oxygen => 4
    case Fluorine => 5
    case Sodium => 6
    case Magnesium => 7
    case Phosphorus => 8
    case Sulfur => 9
    case Chlorine => 10
    case Potassium => 11
    case Calcium => 12
    case Iron => 13
    case Zinc => 14
    case Iodine => 15
  }

  /** `otherElements`: every case that is neither important nor unknown,
      in the order of `allCases`. */
  function OtherElements(): (r: seq<AtomElement>)
    ensures forall e :: e in r <==> IsOther(e)
    ensures InCaseOrder(r)
  {
    AllCasesInOrder();
    FilterKeepsOrder(AllCases, IsOther);
    var r := FilterCases(AllCases, IsOther);
    forall e ensures e in r <==> IsOther(e) {
      AllCasesComplete(e);
    }
    r
  }

  predicate IsOther(e: AtomElement) {
    !IsImportant(e) && e != Unknown
  }

  /** Every case is in exactly one of `importantElements`, `otherElements`
      and `{unknown}`. */
  lemma ElementPartition(e: AtomElement)
    ensures e in AllCases
    ensures e != Unknown ==> (e in ImportantElements) != (e in OtherElements())
    ensures e == Unknown ==> e !in ImportantElements && e !in OtherElements()
  {
    AllCasesComplete(e);
    ImportantMembership(e);
  }

  /** `AtomElement(rawValue:)`, the failable raw-value lookup. */
  function FromRawValue(raw: int): (r: Option<AtomElement>)
    ensures forall e :: r == Some(e) <==> RawValue(e) == raw
  {
    if raw == 0 then Some(Unknown)
    else if raw == 1 then Some(Hydrogen)
    else if raw == 6 then Some(Carbon)
    else if raw == 7 then Some(Nitrogen)
    else if raw == 8 then Some(Oxygen)
    else if raw == 9 then Some(Fluorine)
    else if raw == 11 then Some(Sodium)
    else if raw == 12 then Some(Magnesium)
    else if raw == 15 then Some(Phosphorus)
    else if raw == 16 then Some(Sulfur)
    else if raw == 17 then Some(Chlorine)
    else if raw == 19 then Some(Potassium)
    else if raw == 20 then Some(Calcium)
    else if raw == 26 then Some(Iron)
    else if raw == 30 then Some(Zinc)
    else if raw == 52 then Some(Iodine)
    else None
  }

  /** `init(index:)`. The conversion `UInt8(index)` traps outside 0..255, so
      that range is required; an index that is no raw value gives `unknown`. */
  function FromIndex(index: int): (e: AtomElement)
    requires 0 <= index < 256
    ensures (exists x :: RawValue(x) == index) ==> RawValue(e) == index
    ensures (forall x :: RawValue(x) != index) ==> e == Unknown
  {
    FromRawValue(index).GetOr(Unknown)
  }

  /** `init(index: e.rawValue) == e`. */
  lemma FromIndexRoundTrip(e: AtomElement)
    ensures FromIndex(RawValue(e)) == e
  {
  }

  /** The element symbol `name` (the localised "Unknown" for `unknown`). */
  function Name(e: AtomElement): string {
    match e
    case Unknown => "Unknown"
    case Hydrogen => "H"
    case Carbon => "C"
    case Nitrogen => "N"
    case Oxygen => "O"
    case Fluorine => "F"
    case Sodium => "Na"
    case Magnesium => "Mg"
    case Phosphorus => "P"
    case Sulfur => "S"
    case Chlorine => "Cl"
    case Potassium => "K"
    case Calcium => "Ca"
    case Iron => "Fe"
    case Zinc => "Zn"
    case Iodine => "I"
  }

  /** The upper-cased symbol of a known element, the key it is read by. */
  function UpperSymbol(e: AtomElement): string
    requires e != Unknown
  {
    match e
    case Hydrogen => "H"
    case Carbon => "C"
    case Nitrogen => "N"
    case Oxygen => "O"
    case Fluorine => "F"
    case Sodium => "NA"
    case Magnesium => "MG"
    case Phosphorus => "P"
    case Sulfur => "S"
    case Chlorine => "CL"
    case Potassium => "K"
    case Calcium => "CA"
    case Iron => "FE"
    case Zinc => "ZN"
    case Iodine => "I"
  }

  /** The key of an element is its symbol upper-cased. */
  lemma {:induction false} UpperSymbolOfName(e: AtomElement)
    requires e != Unknown
    ensures UpperSymbol(e) == Text.Uppercased(Name(e))
  {
    var n := Name(e);
    if |n| == 1 {
      assert Text.Uppercased(n) == [Text.UpperChar(n[0])];
    } else {
      assert Text.Uppercased(n) == [Text.UpperChar(n[0]), Text.UpperChar(n[1])];
    }
  }

  /** `init(string:)` as written: the upper-cased input is compared with
      "H", "C", …, where the chlorine case is spelt "Cl", a string no
      upper-cased input can equal. */
  function FromStringAsWritten(s: string): (r: AtomElement)
    ensures r != Unknown && r != Chlorine ==> Text.Uppercased(s) == UpperSymbol(r)
  {
    match Text.Uppercased(s)
    case "H" => Hydrogen
    case "C" => Carbon
    case "N" => Nitrogen
    case "O" => Oxygen
    case "F" => Fluorine
    case "NA" => Sodium
    case "MG" => Magnesium
    case "P" => Phosphorus
    case "S" => Sulfur
    case "Cl" => Chlorine
    case "K" => Potassium
    case "CA" => Calcium
    case "FE" => Iron
    case "ZN" => Zinc
    case "I" => Iodine
    case _ => Unknown
  }

  /** As written, no input string yields chlorine. */
  lemma {:induction false} AsWrittenNeverChlorine(s: string)
    ensures FromStringAsWritten(s) != Chlorine
  {
    var u := Text.Uppercased(s);
    if |u| == 2 {
      assert u[1] == Text.UpperChar(s[1]);
    }
  }

  /** Chlorine's own symbol, in either spelling, is read as `unknown`. */
  lemma ChlorineUnreachable()
    ensures FromStringAsWritten("Cl") == Unknown
    ensures FromStringAsWritten("CL") == Unknown
  {
    assert Text.Uppercased("Cl") == "CL";
    assert Text.Uppercased("CL") == "CL";
  }

  /** The table of `init(string:)` on an upper-cased symbol, with the
      chlorine case spelt "CL" as evidently intended. */
  function FromUppercased(u: string): (r: AtomElement)
    ensures r != Unknown ==> u == UpperSymbol(r)
  {
    match u
    case "H" => Hydrogen
    case "C" => Carbon
    case "N" => Nitrogen
    case "O" => Oxygen
    case "F" => Fluorine
    case "NA" => Sodium
    case "MG" => Magnesium
    case "P" => Phosphorus
    case "S" => Sulfur
    case "CL" => Chlorine
    case "K" => Potassium
    case "CA" => Calcium
    case "FE" => Iron
    case "ZN" => Zinc
    case "I" => Iodine
    case _ => Unknown
  }

  /** `init(string:)` as evidently intended. The readers call the as-written
      initialiser, as the source does. */
  function FromString(s: string): (r: AtomElement)
    ensures r != Unknown ==> Text.Uppercased(s) == UpperSymbol(r)
  {
    FromUppercased(Text.Uppercased(s))
  }

  /** Reading back an element's symbol gives that element, for every element
      (chlorine included), and reading is case-insensitive. */
  lemma {:induction false} FromStringReadsName(e: AtomElement)
    requires e != Unknown
    ensures FromString(Name(e)) == e
    ensures FromString(Text.Uppercased(Name(e))) == e
  {
    var n := Name(e);
    var u := Text.Uppercased(n);
    UppercasedIdempotent(n);
    if |n| == 1 {
      assert u == [Text.UpperChar(n[0])];
    } else {
      assert |n| == 2;
      assert u == [Text.UpperChar(n[0]), Text.UpperChar(n[1])];
    }
  }

  lemma UppercasedIdempotent(s: string)
    ensures Text.Uppercased(Text.Uppercased(s)) == Text.Uppercased(s)
  {
  }

  /** As written and as intended agree on every input that does not
      upper-case to "CL". */
  lemma AsWrittenAgreesExceptChlorine(s: string)
    ensures Text.Uppercased(s) != "CL" ==> FromStringAsWritten(s) == FromString(s)
  {
  }

  /** `vanDerWaalsRadius`, in ångström. */
  function VanDerWaalsRadius(e: AtomElement): (r: real)
    ensures r > 0.0
    ensures e == Unknown ==> r == 1.0
    ensures 1.0 <= r <= 2.8
  {
    match e
    case Unknown => 1.0
    case Hydrogen => 1.10
    case Carbon => 1.50
    case Nitrogen => 1.55
    case Oxygen => 1.52
    case Fluorine => 1.47
    case Sodium => 2.27
    case Magnesium => 1.73
    case Phosphorus => 1.80
    case Sulfur => 1.80
    case Chlorine => 1.75
    case Potassium => 2.80
    case Calcium => 2.31
    case Iron => 1.94
    case Zinc => 1.39
    case Iodine => 1.98
  }

  /** An RGB colour with components in [0, 1]. */
  datatype Rgb = Rgb(red: real, green: real, blue: real)

  predicate InUnitCube(c: Rgb) {
    0.0 <= c.red <= 1.0 && 0.0 <= c.green <= 1.0 && 0.0 <= c.blue <= 1.0
  }

  const Grey: Rgb := Rgb(0.517, 0.517, 0.517)

  /** `defaultColor`: a specific colour for each important element and one
      shared grey for all the others. */
  function DefaultColor(e: AtomElement): (c: Rgb)
    ensures InUnitCube(c)
    ensures e !in ImportantElements ==> c == Grey
    ensures e in ImportantElements ==> c != Grey
  {
    match e
    case Hydrogen => Rgb(1.0, 1.0, 1.0)
    case Carbon => Rgb(0.423, 0.733, 0.235)
    case Nitrogen => Rgb(0.091, 0.148, 0.556)
    case Oxygen => Rgb(1.0, 0.149, 0.0)
    case Sulfur => Rgb(1.0, 0.780, 0.349)
    case _ => Grey
  }

  /** The important elements have pairwise different default colours. */
  lemma ImportantColorsDistinct(a: AtomElement, b: AtomElement)
    requires a in ImportantElements && b in ImportantElements && a != b
    ensures DefaultColor(a) != DefaultColor(b)
  {
  }
}
