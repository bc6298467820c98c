/** `decodeDynamicUTI(uti:)` of the drop delegate: Apple's dynamic type
    identifiers carry the file extension as base-32 text after a five
    character prefix; each character stands for five bits, read most
    significant first, and every full eight bits are one UTF-8 code unit. */
module DynamicUti {
  import opened Wrappers
  import Text

  newtype Byte = x: int | 0 <= x < 256

  /** The 32 characters; each stands for its position. */
  function Alphabet(): (s: string)
    ensures |s| == 32
  {
    seq(32, p requires 0 <= p < 32 => Symbol(p))
  }

  /** `suffix(from: 5)`: the characters before this index are skipped. */
  const PrefixLength: nat := 5

  const Separator: char := '='

  predicate IsSeparator(c: char) {
    c == Separator
  }

  /** Character `p` of the alphabet, by ranges of character codes. */
  function Symbol(p: nat): char
    requires p < 32
  {
    if p < 8 then ('a' as int + p) as char
    else if p == 8 then 'k'
    else if p < 11 then ('m' as int + p - 9) as char
    else if p < 22 then ('p' as int + p - 11) as char
    else ('0' as int + p - 22) as char
  }

  /** The alphabet is the 32 characters; letters i, j, l, o are left out. */
  lemma {:induction false} AlphabetText()
    ensures Alphabet() == "abcdefghkmnpqrstuvwxyz0123456789"
  {
    var t := "abcdefghkmnpqrstuvwxyz0123456789";
    forall p | 0 <= p < 32
      ensures Alphabet()[p] == t[p]
    {
      SymbolText(p);
    }
  }

  lemma {:induction false} SymbolText(p: nat)
    requires p < 32
    ensures Symbol(p) == "abcdefghkmnpqrstuvwxyz0123456789"[p]
  {
  }

  lemma {:induction false} SymbolInjective(p: nat, q: nat)
    requires p < q < 32
    ensures Symbol(p) != Symbol(q)
  {
  }

  /** The alphabet has 32 distinct characters. */
  lemma {:induction false} AlphabetIsBase32()
    ensures |Alphabet()| == 32
    ensures forall i, j :: 0 <= i < j < |Alphabet()| ==> Alphabet()[i] != Alphabet()[j]
  {
    forall i, j | 0 <= i < j < 32
      ensures Alphabet()[i] != Alphabet()[j]
    {
      SymbolInjective(i, j);
    }
  }

  /** `vec.firstIndex(of:)`. */
  function FirstIndex(s: string, c: char): (r: Option<nat>)
    ensures r.Some? ==> r.value < |s|
  {
    if s == [] then None
    else if s[0] == c then Some(0)
    else
      match FirstIndex(s[1..], c)
      case Some(i) => Some(i + 1)
      case None => None
  }

  /** The index found is the first occurrence, and there is none exactly
      when `c` does not occur. */
  lemma {:induction false} FirstIndexMeaning(s: string, c: char)
    ensures var r := FirstIndex(s, c);
      && (r.None? <==> c !in s)
      && (r.Some? ==> s[r.value] == c && c !in s[..r.value])
    decreases |s|
  {
    if s != [] && s[0] != c {
      FirstIndexMeaning(s[1..], c);
      assert s == [s[0]] + s[1..];
      var r := FirstIndex(s[1..], c);
      if r.Some? {
        assert s[..r.value + 1] == [s[0]] + s[1..][..r.value];
      }
    }
  }

  /** A character's five bits, if it is one of the alphabet's: its index in
      the alphabet (`vec.firstIndex(of:)`). */
  function PositionOf(c: char): (r: Option<nat>)
    ensures r.Some? ==> r.value < 32
  {
    FirstIndex(Alphabet(), c)
  }

  /** Each character of the alphabet stands for its own position. */
  lemma {:induction false} PositionOfSymbol(p: nat)
    requires p < 32
    ensures PositionOf(Alphabet()[p]) == Some(p)
  {
    AlphabetIsBase32();
    FirstIndexMeaning(Alphabet(), Alphabet()[p]);
    var r := PositionOf(Alphabet()[p]);
    assert Alphabet()[r.value] == Alphabet()[p];
  }

  /** The positions of the characters, or nothing when one is outside the
      alphabet. */
  function Positions(s: string): (r: Option<seq<nat>>)
    ensures r.Some? ==> |r.value| == |s| && forall k :: 0 <= k < |s| ==> r.value[k] < 32
  {
    if s == [] then Some([])
    else
      match Positions(s[..|s| - 1])
      case None => None
      case Some(ps) =>
        match PositionOf(s[|s| - 1])
        case None => None
        case Some(p) => Some(ps + [p])
  }

  /** Every character of the alphabet has a position, and no other. */
  lemma {:induction false} PositionsMeaning(s: string)
    ensures Positions(s).Some? <==> forall k :: 0 <= k < |s| ==> s[k] in Alphabet()
  {
    PositionsSome(s);
    forall k | 0 <= k < |s| {
      FirstIndexMeaning(Alphabet(), s[k]);
    }
  }

  lemma {:induction false} PositionsSome(s: string)
    ensures Positions(s).Some? <==> forall k :: 0 <= k < |s| ==> PositionOf(s[k]).Some?
    decreases |s|
  {
    if s != [] {
      var init := s[..|s| - 1];
      PositionsSome(init);
      assert forall k :: 0 <= k < |init| ==> init[k] == s[k];
    }
  }

  /** Once a prefix has a character outside the alphabet, so does the whole. */
  lemma {:induction false} PositionsNoneExtends(s: string, j: nat)
    requires j <= |s| && Positions(s[..j]).None?
    ensures Positions(s).None?
    decreases |s| - j
  {
    if j < |s| {
      assert s[..j + 1][..j] == s[..j];
      PositionsNoneExtends(s, j + 1);
    } else {
      assert s[..j] == s;
    }
  }

  // ---------------------------------------------------------------------
  // The decoder's accumulator.

  function Pow2(n: nat): (p: nat)
    ensures p >= 1
  {
    if n == 0 then 1 else 2 * Pow2(n - 1)
  }

  /** The accumulator of the loop: the bytes emitted, the pending bits'
      value and their number. */
  datatype Decoder = Decoder(result: seq<Byte>, decoded: nat, decodedBits: nat)

  /** Between iterations fewer than eight bits are pending and their value
      fits in them. */
  predicate Pending(d: Decoder) {
    d.decodedBits < 8 && d.decoded < Pow2(d.decodedBits)
  }

  /** `v >> n`: `n` halvings. */
  function Shr(v: nat, n: nat): nat {
    if n == 0 then v else Shr(v / 2, n - 1)
  }

  /** `v & ((1 << n) - 1)`: the low `n` bits. */
  function Low(v: nat, n: nat): nat {
    if n == 0 then 0 else 2 * Low(v / 2, n - 1) + v % 2
  }

  /** The low `n` bits are fewer than `2^n`. */
  lemma {:induction false} LowBound(v: nat, n: nat)
    ensures Low(v, n) < Pow2(n)
    decreases n
  {
    if n > 0 {
      LowBound(v / 2, n - 1);
    }
  }

  /** Shifting out `n` of `n + m` bits leaves at most `m`. */
  lemma {:induction false} ShrBound(v: nat, n: nat, m: nat)
    requires v < Pow2(n + m)
    ensures Shr(v, n) < Pow2(m)
    decreases n
  {
    if n > 0 {
      assert Pow2(n + m) == 2 * Pow2(n - 1 + m);
      ShrBound(v / 2, n - 1, m);
    }
  }

  /** Five more bits: `(decoded << 5) | pos` stays below `2^(bits + 5)`. */
  lemma {:induction false} ShiftIn(v: nat, bits: nat, pos: nat)
    requires v < Pow2(bits) && pos < 32
    ensures v * 32 + pos < Pow2(bits + 5)
  {
    Pow2Add(bits, 5);
    assert Pow2(5) == 32;
  }

  /** One character at position `pos`: five more bits; once eight or more are
      pending, the top eight are emitted as a byte and only the low `extra`
      bits are kept. `(decoded << 5) | pos` is `decoded * 32 + pos` because
      `pos < 32`. */
  function Step(d: Decoder, pos: nat): (r: Decoder)
    requires Pending(d) && pos < 32
    ensures Pending(r)
  {
    var value := d.decoded * 32 + pos;
    var bits := d.decodedBits + 5;
    ShiftIn(d.decoded, d.decodedBits, pos);
    if bits >= 8 then
      var extra := bits - 8;
      Pow2Small();
      ShrBound(value, extra, 8);
      LowBound(value, extra);
      Decoder(d.result + [Shr(value, extra) as Byte], Low(value, extra), extra)
    else
      Decoder(d.result, value, bits)
  }

  /** `Step` in the two cases of its test, for `value` the shifted-in bits
      and `bits` their number. */
  lemma {:induction false} StepCases(d: Decoder, pos: nat, value: nat, bits: nat)
    requires Pending(d) && pos < 32
    requires value == d.decoded * 32 + pos && bits == d.decodedBits + 5
    ensures bits >= 8 ==>
      && Shr(value, bits - 8) < 256
      && Step(d, pos) == Decoder(d.result + [Shr(value, bits - 8) as Byte], Low(value, bits - 8), bits - 8)
    ensures bits < 8 ==> Step(d, pos) == Decoder(d.result, value, bits)
  {
    ShiftIn(d.decoded, d.decodedBits, pos);
    Pow2Small();
    if bits >= 8 {
      ShrBound(value, bits - 8, 8);
    }
  }

  lemma {:induction false} Pow2Add(a: nat, b: nat)
    ensures Pow2(a + b) == Pow2(a) * Pow2(b)
    decreases a
  {
    if a > 0 {
      Pow2Add(a - 1, b);
    }
  }

  predicate Symbols(ps: seq<nat>) {
    forall k :: 0 <= k < |ps| ==> ps[k] < 32
  }

  /** The accumulator after the characters at positions `ps`. */
  function Run(ps: seq<nat>): (d: Decoder)
    requires Symbols(ps)
    ensures Pending(d)
  {
    if ps == [] then Decoder([], 0, 0) else Step(Run(ps[..|ps| - 1]), ps[|ps| - 1])
  }

  lemma {:induction false} RunSnoc(ps: seq<nat>, p: nat)
    requires Symbols(ps) && p < 32
    ensures Symbols(ps + [p]) && Run(ps + [p]) == Step(Run(ps), p)
  {
    assert (ps + [p])[..|ps|] == ps;
  }

  /** The decoded text's extension: the last non-empty piece between `=`
      signs (`split(separator: "=").last`). */
  function LastPiece(s: string): Option<string> {
    var pieces := Text.SplitBy(s, IsSeparator);
    if pieces == [] then None else Some(pieces[|pieces| - 1])
  }

  /** `decodeDynamicUTI(uti:)`. `String(decoding:as:)` is the parameter
      `utf8`. The source traps on an identifier shorter than the prefix. */
  function Decode(uti: string, utf8: seq<Byte> -> string): Option<string>
    requires |uti| >= PrefixLength
  {
    match Positions(uti[PrefixLength..])
    case None => None
    case Some(ps) =>
      var d := Run(ps);
      if d.decoded != 0 then None else LastPiece(utf8(d.result))
  }

  /** One character of the loop: a character outside the alphabet makes the
      whole payload undecodable, another one extends the positions and the
      accumulator by one step. */
  lemma {:induction false} ScanStep(s: string, i: nat, ps: seq<nat>)
    requires i < |s| && Positions(s[..i]) == Some(ps) && Symbols(ps)
    ensures PositionOf(s[i]).None? ==> Positions(s).None?
    ensures PositionOf(s[i]).Some? ==>
      var p := PositionOf(s[i]).value;
      && Positions(s[..i + 1]) == Some(ps + [p])
      && Symbols(ps + [p])
      && Run(ps + [p]) == Step(Run(ps), p)
  {
    Text.TakeSnoc(s, i);
    var t := s[..i + 1];
    assert t[..|t| - 1] == s[..i];
    if PositionOf(s[i]).None? {
      PositionsNoneExtends(s, i + 1);
    } else {
      RunSnoc(ps, PositionOf(s[i]).value);
    }
  }

  /** The body of the loop for a character at position `pos`: shift its
      five bits in and, once eight are pending, emit the top byte. */
  method Absorb(result: seq<Byte>, decoded: nat, decodedBits: nat, pos: nat)
    returns (result': seq<Byte>, decoded': nat, decodedBits': nat)
    requires Pending(Decoder(result, decoded, decodedBits)) && pos < 32
    ensures Decoder(result', decoded', decodedBits') == Step(Decoder(result, decoded, decodedBits), pos)
  {
    result', decoded', decodedBits' := result, decoded * 32 + pos, decodedBits + 5;
    StepCases(Decoder(result, decoded, decodedBits), pos, decoded', decodedBits');
    if decodedBits' >= 8 {
      var extra := decodedBits' - 8;
      result' := result' + [Shr(decoded', extra) as Byte];
      decoded' := Low(decoded', extra);
      decodedBits' := extra;
    }
  }

  /** The decoder loop. */
  method DecodeDynamicUti(uti: string, utf8: seq<Byte> -> string) returns (r: Option<string>)
    requires |uti| >= PrefixLength
    ensures r == Decode(uti, utf8)
  {
    var encoded := uti[PrefixLength..];
    var result: seq<Byte> := [];
    var decoded: nat := 0;
    var decodedBits: nat := 0;
    ghost var ps: seq<nat> := [];
    for i := 0 to |encoded|
      invariant Positions(encoded[..i]) == Some(ps) && Symbols(ps)
      invariant Decoder(result, decoded, decodedBits) == Run(ps)
    {
      var pos := PositionOf(encoded[i]);
      ScanStep(encoded, i, ps);
      if pos.None? {
        return None;
      }
      result, decoded, decodedBits := Absorb(result, decoded, decodedBits, pos.value);
      ps := ps + [pos.value];
    }
    assert encoded[..|encoded|] == encoded;
    if decoded != 0 {
      return None;
    }
    r := LastPiece(utf8(result));
  }

  // ---------------------------------------------------------------------
  // The bit stream.

  /** MSB-first value of a bit string. */
  function Value(b: seq<bool>): (v: nat)
    ensures v < Pow2(|b|)
  {
    if b == [] then 0 else 2 * Value(b[..|b| - 1]) + (if b[|b| - 1] then 1 else 0)
  }

  /** The low `n` bits of `v`, most significant first. */
  function ToBits(v: nat, n: nat): (b: seq<bool>)
    ensures |b| == n
  {
    if n == 0 then [] else ToBits(v / 2, n - 1) + [v % 2 == 1]
  }

  lemma {:induction false} ValueOfToBits(v: nat, n: nat)
    requires v < Pow2(n)
    ensures Value(ToBits(v, n)) == v
    decreases n
  {
    if n > 0 {
      var b := ToBits(v, n);
      assert b[..n - 1] == ToBits(v / 2, n - 1);
      ValueOfToBits(v / 2, n - 1);
    }
  }

  lemma {:induction false} ToBitsOfValue(b: seq<bool>)
    ensures ToBits(Value(b), |b|) == b
    decreases |b|
  {
    if b != [] {
      var init := b[..|b| - 1];
      ToBitsOfValue(init);
      var v := Value(b);
      assert v / 2 == Value(init) && (v % 2 == 1) == b[|b| - 1];
      assert b == init + [b[|b| - 1]];
    }
  }

  lemma {:induction false} ValueAppend(a: seq<bool>, b: seq<bool>)
    ensures Value(a + b) == Value(a) * Pow2(|b|) + Value(b)
    decreases |b|
  {
    if b == [] {
      assert a + b == a;
    } else {
      var init := b[..|b| - 1];
      ValueAppend(a, init);
      assert (a + b)[..|a + b| - 1] == a + init;
      var x := if b[|b| - 1] then 1 else 0;
      assert Value(a + b) == 2 * Value(a + init) + x;
      assert Value(b) == 2 * Value(init) + x;
      assert Pow2(|b|) == 2 * Pow2(|init|);
      Distribute(Value(a), Pow2(|init|), Value(init), x);
    }
  }

  lemma {:induction false} Distribute(a: int, p: int, v: int, x: int)
    ensures 2 * (a * p + v) + x == a * (2 * p) + (2 * v + x)
  {
  }

  /** The bits of the characters at positions `ps`, five each. */
  function SymbolBits(ps: seq<nat>): (b: seq<bool>)
    ensures |b| == 5 * |ps|
  {
    if ps == [] then [] else SymbolBits(ps[..|ps| - 1]) + ToBits(ps[|ps| - 1], 5)
  }

  /** The `k` bytes of a bit string of `8 * k` bits, eight bits each. */
  function Chunks8(b: seq<bool>, k: nat): (r: seq<Byte>)
    requires |b| == 8 * k
    ensures |r| == k
  {
    if k == 0 then []
    else
      Pow2Small();
      var v := Value(b[8 * (k - 1)..]);
      Chunks8(b[..8 * (k - 1)], k - 1) + [v as Byte]
  }

  /** The accumulator `d` after the bit stream `b`: its bytes are the full
      bytes of `b` in order, and the fewer than eight bits after them are
      pending, with their value. */
  predicate Emitted(d: Decoder, b: seq<bool>) {
    var n := 8 * |d.result|;
    && |b| == n + d.decodedBits
    && Chunks8(b[..n], |d.result|) == d.result
    && Value(b[n..]) == d.decoded
  }

  /** The decoder emits the bytes of its bit stream in order. */
  lemma {:induction false} RunMeaning(ps: seq<nat>)
    requires Symbols(ps)
    ensures Emitted(Run(ps), SymbolBits(ps))
    decreases |ps|
  {
    if ps != [] {
      var init := ps[..|ps| - 1];
      RunMeaning(init);
      StepEmits(Run(init), SymbolBits(init), ps[|ps| - 1]);
    }
  }

  /** One more character keeps `Emitted`. */
  lemma {:induction false} StepEmits(d0: Decoder, b0: seq<bool>, pos: nat)
    requires Pending(d0) && pos < 32 && Emitted(d0, b0)
    ensures Emitted(Step(d0, pos), b0 + ToBits(pos, 5))
  {
    var n0 := 8 * |d0.result|;
    var s := ToBits(pos, 5);
    var full := b0[..n0];
    var rest := b0[n0..] + s;
    assert b0 + s == full + rest;
    ValueAppend(b0[n0..], s);
    ValueOfToBits(pos, 5);
    Pow2Small();
    assert Value(rest) == d0.decoded * 32 + pos;
    StepCases(d0, pos, Value(rest), |rest|);
    if |rest| >= 8 {
      EmitBits(d0.result, full, rest);
    } else {
      assert Step(d0, pos) == Decoder(d0.result, Value(rest), |rest|);
    }
  }

  /** Eight bits or more after the full bytes: the first eight are one more
      byte and the rest stay pending. */
  lemma {:induction false} EmitBits(result: seq<Byte>, full: seq<bool>, rest: seq<bool>)
    requires |full| == 8 * |result| && Chunks8(full, |result|) == result && |rest| >= 8
    ensures Shr(Value(rest), |rest| - 8) < 256
    ensures Emitted(Decoder(result + [Shr(Value(rest), |rest| - 8) as Byte], Low(Value(rest), |rest| - 8), |rest| - 8),
                    full + rest)
  {
    var extra := |rest| - 8;
    var head := rest[..8];
    var tail := rest[8..];
    ShrValue(rest, extra);
    LowValue(rest, extra);
    Pow2Small();
    var d := Decoder(result + [Value(head) as Byte], Value(tail), extra);
    var n := 8 * |d.result|;
    assert n == |full| + 8;
    Text.SliceParts(full, rest, 8);
    ChunkSnoc(full, |result|, head);
    assert Chunks8((full + rest)[..n], |d.result|) == d.result;
    assert Value((full + rest)[n..]) == d.decoded;
  }

  /** Shifting out the last `k` bits leaves the value of the others. */
  lemma {:induction false} ShrValue(b: seq<bool>, k: nat)
    requires k <= |b|
    ensures Shr(Value(b), k) == Value(b[..|b| - k])
    decreases k
  {
    if k == 0 {
      assert b[..|b|] == b;
    } else {
      var init := b[..|b| - 1];
      assert Value(b) / 2 == Value(init);
      ShrValue(init, k - 1);
      assert init[..|init| - (k - 1)] == b[..|b| - k];
    }
  }

  /** The low `k` bits are the value of the last `k` bits. */
  lemma {:induction false} LowValue(b: seq<bool>, k: nat)
    requires k <= |b|
    ensures Low(Value(b), k) == Value(b[|b| - k..])
    decreases k
  {
    if k == 0 {
      assert b[|b|..] == [];
    } else {
      var init := b[..|b| - 1];
      var t := b[|b| - k..];
      assert Value(b) / 2 == Value(init);
      LowValue(init, k - 1);
      assert t[..|t| - 1] == init[|init| - (k - 1)..];
      assert t[|t| - 1] == b[|b| - 1];
    }
  }

  lemma {:induction false} Pow2Small()
    ensures Pow2(5) == 32 && Pow2(8) == 256
  {
  }

  /** Eight more bits are one more byte. */
  lemma {:induction false} ChunkSnoc(a: seq<bool>, k: nat, head: seq<bool>)
    requires |a| == 8 * k && |head| == 8
    ensures Chunks8(a + head, k + 1) == Chunks8(a, k) + [Value(head) as Byte]
  {
    var c := a + head;
    assert c[..|c| - 8] == a;
    assert c[|c| - 8..] == head;
  }

  /** Pending bits of value zero are all zero bits. */
  lemma {:induction false} ValueZero(b: seq<bool>)
    ensures Value(b) == 0 <==> forall k :: 0 <= k < |b| ==> !b[k]
    decreases |b|
  {
    if b != [] {
      var init := b[..|b| - 1];
      ValueZero(init);
      assert forall k :: 0 <= k < |init| ==> init[k] == b[k];
    }
  }

  /** A decoded identifier: every payload character is in the alphabet, the
      bits after the last full byte are all zero, and the extension is the
      last `=`-separated piece of the bytes' text. */
  lemma {:induction false} DecodeMeaning(uti: string, utf8: seq<Byte> -> string)
    requires |uti| >= PrefixLength
    ensures Decode(uti, utf8).Some? ==>
      var payload := uti[PrefixLength..];
      && (forall k :: 0 <= k < |payload| ==> payload[k] in Alphabet())
      && var b := SymbolBits(Positions(payload).value);
         var n := 8 * (|b| / 8);
         && (forall k :: n <= k < |b| ==> !b[k])
         && Decode(uti, utf8) == LastPiece(utf8(Chunks8(b[..n], |b| / 8)))
  {
    var payload := uti[PrefixLength..];
    PositionsMeaning(payload);
    if Decode(uti, utf8).Some? {
      var ps := Positions(payload).value;
      RunMeaning(ps);
      var d := Run(ps);
      var b := SymbolBits(ps);
      assert Emitted(d, b);
      assert |b| / 8 == |d.result|;
      var n := 8 * |d.result|;
      ValueZero(b[n..]);
      assert forall k :: n <= k < |b| ==> b[k] == b[n..][k - n];
    }
  }

  // ---------------------------------------------------------------------
  // The encoding the decoder inverts.

  /** The bytes' bits, eight each, most significant first. */
  function BytesBits(bytes: seq<Byte>): (b: seq<bool>)
    ensures |b| == 8 * |bytes|
  {
    if bytes == [] then [] else BytesBits(bytes[..|bytes| - 1]) + ToBits(bytes[|bytes| - 1] as nat, 8)
  }

  /** The zero bits that complete the last group of five. */
  function Padding(n: nat): (r: nat)
    ensures r < 5 && (n + r) % 5 == 0
  {
    (5 - n % 5) % 5
  }

  function Zeros(n: nat): (b: seq<bool>)
    ensures |b| == n && forall k :: 0 <= k < n ==> !b[k]
  {
    if n == 0 then [] else Zeros(n - 1) + [false]
  }

  /** The positions of a bit string cut into groups of five. */
  function Groups5(b: seq<bool>): (ps: seq<nat>)
    requires |b| % 5 == 0
    ensures Symbols(ps)
  {
    if b == [] then []
    else
      var v := Value(b[|b| - 5..]);
      Groups5(b[..|b| - 5]) + [v]
  }

  lemma {:induction false} SymbolBitsOfGroups(b: seq<bool>)
    requires |b| % 5 == 0
    ensures SymbolBits(Groups5(b)) == b
    decreases |b|
  {
    if b != [] {
      var init := b[..|b| - 5];
      SymbolBitsOfGroups(init);
      var g := Groups5(b);
      assert g[..|g| - 1] == Groups5(init);
      ToBitsOfValue(b[|b| - 5..]);
      assert b == init + b[|b| - 5..];
    }
  }

  lemma {:induction false} ChunksOfBytesBits(bytes: seq<Byte>)
    ensures Chunks8(BytesBits(bytes), |bytes|) == bytes
    decreases |bytes|
  {
    if bytes != [] {
      var init := bytes[..|bytes| - 1];
      ChunksOfBytesBits(init);
      var x := bytes[|bytes| - 1];
      var last := ToBits(x as nat, 8);
      assert BytesBits(bytes) == BytesBits(init) + last;
      Pow2Small();
      ValueOfToBits(x as nat, 8);
      ChunkSnoc(BytesBits(init), |init|, last);
      assert bytes == init + [x];
    }
  }

  /** The characters of a position list. */
  function Characters(ps: seq<nat>): (s: string)
    requires Symbols(ps)
    ensures |s| == |ps|
  {
    if ps == [] then [] else Characters(ps[..|ps| - 1]) + [Alphabet()[ps[|ps| - 1]]]
  }

  /** The base-32 text of `bytes`: their bits, zero-padded to a multiple of
      five, five bits per character. */
  function Encode(bytes: seq<Byte>): string {
    var b := BytesBits(bytes);
    Characters(Groups5(b + Zeros(Padding(|b|))))
  }

  lemma {:induction false} PositionsOfCharacters(ps: seq<nat>)
    requires Symbols(ps)
    ensures Positions(Characters(ps)) == Some(ps)
    decreases |ps|
  {
    if ps != [] {
      var init := ps[..|ps| - 1];
      PositionsOfCharacters(init);
      var s := Characters(ps);
      assert s[..|s| - 1] == Characters(init);
      var p := ps[|ps| - 1];
      PositionOfSymbol(p);
      assert ps == init + [p];
    }
  }

  /** Round trip: any five characters followed by the encoding of `bytes`
      decode to `bytes`, so the extension is the last piece of their text. */
  lemma {:induction false} RoundTrip(prefix: string, bytes: seq<Byte>, utf8: seq<Byte> -> string)
    requires |prefix| == PrefixLength
    ensures Positions((prefix + Encode(bytes))[PrefixLength..]).Some?
    ensures Run(Positions((prefix + Encode(bytes))[PrefixLength..]).value).result == bytes
    ensures Decode(prefix + Encode(bytes), utf8) == LastPiece(utf8(bytes))
  {
    var b := BytesBits(bytes);
    var z := Zeros(Padding(|b|));
    var full := b + z;
    var ps := Groups5(full);
    var uti := prefix + Encode(bytes);
    assert uti[PrefixLength..] == Characters(ps);
    PositionsOfCharacters(ps);
    assert Positions(uti[PrefixLength..]) == Some(ps);
    var d := Run(ps);
    RunMeaning(ps);
    SymbolBitsOfGroups(full);
    assert Emitted(d, full);
    SameCount(|d.result|, |bytes|, d.decodedBits, |z|);
    var n := 8 * |d.result|;
    assert full[..n] == b;
    assert full[n..] == z;
    ChunksOfBytesBits(bytes);
    assert d.result == bytes;
    ValueZero(z);
    assert d.decoded == 0;
  }

  lemma {:induction false} SameCount(k: nat, m: nat, x: nat, y: nat)
    requires 8 * k + x == 8 * m + y && x < 8 && y < 5
    ensures k == m && x == y
  {
  }

  /** The extension is the text after the last `=`, when it is not empty. */
  lemma {:induction false} LastPieceAfterSeparator(pre: string, t: string)
    requires t != [] && Separator !in t
    ensures LastPiece(pre + [Separator] + t) == Some(t)
  {
    Text.SplitAtSeparator(pre, Separator, t, IsSeparator);
    Text.SplitWithoutSeparator(t, IsSeparator);
  }

  /** The example from the source: the text "?0=6:1=pdb" gives "pdb". */
  lemma {:induction false} PdbExample()
    ensures LastPiece("?0=6:1=pdb") == Some("pdb")
  {
    assert "?0=6:1=pdb" == "?0=6:1" + [Separator] + "pdb";
    LastPieceAfterSeparator("?0=6:1", "pdb");
  }
}
