/** Chain identifiers: a 16-bit raw value, the "A"…"Z" letter mapping used
    when reading chain names from a file, and the display name. */
module ChainIds {
  import opened Wrappers
  import Text

  /** `ChainID.rawValue` is a `UInt16`. */
  const RawLimit: nat := 65536

  datatype ChainID = ChainID(rawValue: nat)

  predicate ValidChain(c: ChainID) {
    c.rawValue < RawLimit
  }

  /** The one-letter string of the `i`-th capital letter. */
  function Letter(i: int): (s: string)
    requires 0 <= i < 26
    ensures |s| == 1 && 'A' <= s[0] <= 'Z' && s[0] as int - 'A' as int == i
  {
    [('A' as int + i) as char]
  }

  /** The keys of `defaultMapping`: "A" … "Z". */
  const MappingKeys: set<string> := set i: int | 0 <= i < 26 :: Letter(i)

  /** `defaultMapping`: "A" ↦ 0, "B" ↦ 1, …, "Z" ↦ 25. */
  const DefaultMapping: map<string, int> := map s | s in MappingKeys :: s[0] as int - 'A' as int

  /** The keys are exactly the one-letter capital strings. */
  lemma {:induction false} MappingKeysAreCapitals(s: string)
    ensures s in DefaultMapping <==> |s| == 1 && 'A' <= s[0] <= 'Z'
  {
    if |s| == 1 && 'A' <= s[0] <= 'Z' {
      var i := s[0] as int - 'A' as int;
      assert Letter(i) == s;
    }
  }

  /** The mapping sends the i-th letter to i, so it is a bijection onto
      0 … 25. */
  lemma MappingSendsLetterToIndex(i: int)
    requires 0 <= i < 26
    ensures Letter(i) in DefaultMapping && DefaultMapping[Letter(i)] == i
  {
  }

  lemma MappingInjective(s: string, t: string)
    requires s in DefaultMapping && t in DefaultMapping
    requires DefaultMapping[s] == DefaultMapping[t]
    ensures s == t
  {
  }

  /** `.zero`. */
  const Zero: ChainID := ChainID(0)

  /** `init?(rawValue:)` never fails and keeps the raw value. */
  function FromRawValue(raw: nat): (r: Option<ChainID>)
    requires raw < RawLimit
    ensures r.Some? && r.value.rawValue == raw && ValidChain(r.value)
  {
    Some(ChainID(raw))
  }

  /** `init?(string:)`: a key of `defaultMapping` gives its value, anything
      else (lower case, several letters, the empty string) gives nil. */
  function FromString(s: string): (r: Option<ChainID>)
    ensures r.Some? <==> |s| == 1 && 'A' <= s[0] <= 'Z'
    ensures r.Some? ==> r.value.rawValue == s[0] as int - 'A' as int && r.value.rawValue < 26
  {
    MappingKeysAreCapitals(s);
    if s in DefaultMapping then Some(ChainID(DefaultMapping[s])) else None
  }

  /** `.zero` is chain "A". */
  lemma ZeroIsChainA()
    ensures FromString("A") == Some(Zero)
  {
  }

  /** The 26 letters of `displayName`. */
  const Letters: seq<string> :=
    ["A", "B", "C", "D", "E", "F", "G", "H", "I", "J", "K", "L", "M",
     "N", "O", "P", "Q", "R", "S", "T", "U", "V", "W", "X", "Y", "Z"]

  lemma LettersAreLetter(i: nat)
    requires i < 26
    ensures Letters[i] == Letter(i)
  {
  }

  /** `displayName`: "Chain " then the letter below 26, the decimal raw value
      from 26 on. */
  function DisplayName(c: ChainID): (n: string)
    ensures Text.StartsWith(n, "Chain ")
    ensures c.rawValue < 26 ==> n == "Chain " + Letter(c.rawValue)
    ensures c.rawValue >= 26 ==> n == "Chain " + Text.NatToString(c.rawValue)
  {
    if c.rawValue < 26 then
      LettersAreLetter(c.rawValue);
      "Chain " + Letters[c.rawValue]
    else "Chain " + Text.NatToString(c.rawValue)
  }

  /** Reading a chain letter and displaying it gives back "Chain " and that
      letter. */
  lemma {:induction false} DisplayNameOfLetter(s: string)
    requires FromString(s).Some?
    ensures DisplayName(FromString(s).value) == "Chain " + s
  {
    var i: nat := s[0] as int - 'A' as int;
    assert Letter(i) == s;
  }

  /** Past the alphabet the display name spells the raw value in decimal. */
  lemma {:induction false} DisplayNameNumber(c: ChainID)
    requires c.rawValue >= 26
    ensures Text.DecimalValue(DisplayName(c)[6..]) == c.rawValue
  {
    assert DisplayName(c)[6..] == Text.NatToString(c.rawValue);
    Text.NatToStringRoundTrip(c.rawValue);
  }
}
