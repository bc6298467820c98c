/** String helpers standing in for the Foundation string operations that the
    parsers call: prefix tests, substring search, character removal,
    trimming and splitting. Strings are sequences of characters; no Unicode
    normalisation or grapheme clustering is modelled. */
module Text {
  import opened Wrappers

  /** `s.starts(with: p)` / `s.hasPrefix(p)`. */
  predicate StartsWith(s: string, p: string) {
    |p| <= |s| && s[..|p|] == p
  }

  /** Two prefixes that differ at a shared position cannot both start `s`. */
  lemma PrefixesDiffer(s: string, p: string, q: string, k: nat)
    requires k < |p| && k < |q| && p[k] != q[k]
    ensures !(StartsWith(s, p) && StartsWith(s, q))
  {
    if StartsWith(s, p) {
      assert s[k] == s[..|p|][k] == p[k];
    }
  }

  /** Taking one more element of a sequence appends that element; the line
      loops advance over their input this way. */
  lemma SeqAssociative<T>(a: seq<T>, b: seq<T>, c: seq<T>)
    ensures a + b + c == a + (b + c)
  {
  }

  /** A list that grew by at most one element and is a prefix of a third
      list was a prefix of it before the growth. */
  lemma PrefixStep<T>(a: seq<T>, b: seq<T>, c: seq<T>, x: T)
    requires b == a || b == a + [x]
    requires b <= c
    ensures a <= c
  {
    assert a <= b;
  }

  /** The parts of a concatenation on either side of a cut `k` into its second
      half. */
  lemma SliceParts<T>(a: seq<T>, b: seq<T>, k: nat)
    requires k <= |b|
    ensures (a + b)[..|a| + k] == a + b[..k] && (a + b)[|a| + k..] == b[k..]
  {
  }

  lemma TakeSnoc<T>(s: seq<T>, i: nat)
    requires i < |s|
    ensures s[..i + 1] == s[..i] + [s[i]]
    ensures (s[..i] + [s[i]])[..i] == s[..i]
  {
  }

  /** Swift's `Character.isWhitespace` and `CharacterSet.whitespacesAndNewlines`:
      the Unicode `White_Space` characters, blanks and newlines. */
  predicate IsWhitespace(c: char)
    ensures IsWhitespace(c) <==> c in UnicodeWhiteSpace
  {
    IsBlank(c) || IsNewline(c)
  }

  /** The 25 characters Unicode gives the `White_Space` property. */
  const UnicodeWhiteSpace: set<char> := {
    '\t', '\n', '\U{000B}', '\U{000C}', '\r', ' ', '\U{0085}', '\U{00A0}', '\U{1680}',
    '\U{2000}', '\U{2001}', '\U{2002}', '\U{2003}', '\U{2004}', '\U{2005}', '\U{2006}', '\U{2007}', '\U{2008}', '\U{2009}', '\U{200A}',
    '\U{2028}', '\U{2029}', '\U{202F}', '\U{205F}', '\U{3000}'}

  /** Members of `CharacterSet.newlines`. */
  predicate IsNewline(c: char) {
    c == '\n' || c == '\r' || c == '\U{000B}' || c == '\U{000C}' ||
    c == '\U{0085}' || c == '\U{2028}' || c == '\U{2029}'
  }

  /** `CharacterSet.whitespaces`: the tab and the space separators of
      Unicode category Zs, without newlines. */
  predicate IsBlank(c: char) {
    || c == ' ' || c == '\t' || c == '\U{00A0}' || c == '\U{1680}'
    || '\U{2000}' <= c <= '\U{200A}'
    || c == '\U{202F}' || c == '\U{205F}' || c == '\U{3000}'
  }

  /** True when `t` occurs in `s` starting at offset `i`. */
  predicate OccursAt(s: string, t: string, i: nat) {
    i + |t| <= |s| && s[i..i + |t|] == t
  }

  /** `s.contains(t)` for a non-character argument: a substring test. */
  function Contains(s: string, t: string): (b: bool)
    ensures b <==> exists i: nat :: OccursAt(s, t, i)
    decreases |s|
  {
    if |s| < |t| then
      assert forall i: nat :: !OccursAt(s, t, i);
      false
    else if s[..|t|] == t then
      assert OccursAt(s, t, 0);
      true
    else
      ContainsStep(s, t);
      Contains(s[1..], t)
  }

  /** Without an occurrence at 0, `t` occurs in `s` exactly when it occurs
      in `s` past the first character. */
  lemma ContainsStep(s: string, t: string)
    requires |s| > 0 && |s| >= |t| && s[..|t|] != t
    ensures (exists i: nat :: OccursAt(s, t, i)) <==> (exists i: nat :: OccursAt(s[1..], t, i))
  {
    if exists i: nat :: OccursAt(s, t, i) {
      var i: nat :| OccursAt(s, t, i);
      assert i > 0;
      OccursShift(s, t, i - 1);
    }
    if exists i: nat :: OccursAt(s[1..], t, i) {
      var i: nat :| OccursAt(s[1..], t, i);
      OccursShift(s, t, i);
    }
  }

  /** Shifting an occurrence past the first character. */
  lemma OccursShift(s: string, t: string, i: nat)
    requires |s| > 0
    ensures OccursAt(s, t, i + 1) <==> OccursAt(s[1..], t, i)
  {
    if i + 1 + |t| <= |s| {
      assert s[i + 1..i + 1 + |t|] == s[1..][i..i + |t|];
    }
  }

  /** The offset of the first occurrence of `t` in `s`, if any. */
  function FirstOccurrence(s: string, t: string): (r: Option<nat>)
    ensures r.Some? ==> OccursAt(s, t, r.value)
    ensures r.Some? ==> forall j: nat :: j < r.value ==> !OccursAt(s, t, j)
    ensures r.None? <==> !Contains(s, t)
    decreases |s|
  {
    if |s| < |t| then
      assert forall i: nat :: !OccursAt(s, t, i);
      None
    else if s[..|t|] == t then
      assert OccursAt(s, t, 0);
      Some(0)
    else
      assert !OccursAt(s, t, 0);
      var r := FirstOccurrence(s[1..], t);
      assert forall i: nat :: OccursAt(s, t, i + 1) <==> OccursAt(s[1..], t, i) by {
        forall i: nat ensures OccursAt(s, t, i + 1) <==> OccursAt(s[1..], t, i) {
          OccursShift(s, t, i);
        }
      }
      match r
      case Some(i) =>
        assert forall j: nat :: j < i + 1 ==> !OccursAt(s, t, j) by {
          forall j: nat | j < i + 1 ensures !OccursAt(s, t, j) {
            if j > 0 {
              assert !OccursAt(s[1..], t, j - 1);
            }
          }
        }
        Some(i + 1)
      case None =>
        assert forall i: nat :: !OccursAt(s, t, i) by {
          forall i: nat ensures !OccursAt(s, t, i) {
            if i > 0 {
              assert !OccursAt(s[1..], t, i - 1);
            }
          }
        }
        None
  }

  /** `s.components(separatedBy: t)` for a non-empty string separator: the
      pieces between the occurrences of `t`, found left to right. */
  function ComponentsSeparatedBy(s: string, t: string): (r: seq<string>)
    requires |t| > 0
    ensures |r| >= 1
    ensures |r| >= 2 <==> Contains(s, t)
    ensures r[0] <= s && !Contains(r[0], t)
    ensures r[0] == s || OccursAt(s, t, |r[0]|)
    decreases |s|
  {
    match FirstOccurrence(s, t)
    case None => [s]
    case Some(i) =>
      var head := s[..i];
      assert !Contains(head, t) by {
        forall j: nat ensures !OccursAt(head, t, j) {
          if OccursAt(head, t, j) {
            assert s[j..j + |t|] == head[j..j + |t|];
            assert OccursAt(s, t, j);
          }
        }
      }
      [head] + ComponentsSeparatedBy(s[i + |t|..], t)
  }

  /** The characters of `s` that do not satisfy `p`, in order (for
      `components(separatedBy:)` followed by `joined()`). */
  function RemoveWhere(s: string, p: char -> bool): (r: string)
    ensures |r| <= |s|
    ensures forall k :: 0 <= k < |r| ==> !p(r[k])
    ensures forall x :: !p(x) ==> multiset(r)[x] == multiset(s)[x]
  {
    if s == [] then []
    else
      var head: string := if p(s[0]) then [] else [s[0]];
      var rest := RemoveWhere(s[1..], p);
      assert s == [s[0]] + s[1..];
      assert multiset(s) == multiset([s[0]]) + multiset(s[1..]);
      assert multiset(head + rest) == multiset(head) + multiset(rest);
      head + rest
  }

  /** `s.replacingOccurrences(of: String(c), with: "")`: every `c` deleted,
      the other characters kept in order. */
  function Remove(s: string, c: char): (r: string)
    ensures c !in r
    ensures |r| <= |s|
    ensures forall x :: x != c ==> multiset(r)[x] == multiset(s)[x]
    ensures c !in s ==> r == s
  {
    if s == [] then []
    else
      assert s == [s[0]] + s[1..];
      (if s[0] == c then [] else [s[0]]) + Remove(s[1..], c)
  }

  /** `s.replacingOccurrences(of: " ", with: "")`. */
  function RemoveSpaces(s: string): (r: string)
    ensures ' ' !in r
    ensures forall x :: x != ' ' ==> multiset(r)[x] == multiset(s)[x]
  {
    Remove(s, ' ')
  }

  /** The loop `while last?.isWhitespace { dropLast() }`: the longest prefix
      that does not end in whitespace. */
  function TrimTrailingWhitespace(s: string): (r: string)
    ensures r <= s
    ensures r == [] || !IsWhitespace(r[|r| - 1])
    ensures forall k :: |r| <= k < |s| ==> IsWhitespace(s[k])
  {
    if s == [] || !IsWhitespace(s[|s| - 1]) then s
    else TrimTrailingWhitespace(s[..|s| - 1])
  }

  /** Drops leading characters satisfying `p`. */
  function TrimStart(s: string, p: char -> bool): (r: string)
    ensures |r| <= |s| && r == s[|s| - |r|..]
    ensures r == [] || !p(r[0])
    ensures forall k :: 0 <= k < |s| - |r| ==> p(s[k])
  {
    if s == [] || !p(s[0]) then s else TrimStart(s[1..], p)
  }

  /** Drops trailing characters satisfying `p`. */
  function TrimEnd(s: string, p: char -> bool): (r: string)
    ensures r <= s
    ensures r == [] || !p(r[|r| - 1])
    ensures forall k :: |r| <= k < |s| ==> p(s[k])
  {
    if s == [] || !p(s[|s| - 1]) then s else TrimEnd(s[..|s| - 1], p)
  }

  /** `s.trimmingCharacters(in: .newlines)`. */
  function TrimNewlines(s: string): string {
    TrimEnd(TrimStart(s, IsNewline), IsNewline)
  }

  /** `s.trimmingCharacters(in: .whitespaces)`: the slice of `s` after its
      leading blanks, followed only by blanks, and neither starting nor
      ending with one. */
  function TrimBlanks(s: string): (r: string)
    ensures TrimmedSlice(s, r, IsBlank)
    ensures r == [] || (!IsBlank(r[0]) && !IsBlank(r[|r| - 1]))
  {
    TrimmedPartsAreSlice(s, IsBlank, TrimEnd(s, IsBlank), TrimStart(TrimEnd(s, IsBlank), IsBlank));
    TrimStart(TrimEnd(s, IsBlank), IsBlank)
  }

  /** The number of leading characters satisfying `p`. */
  function LeadingRun(s: string, p: char -> bool): (n: nat)
    ensures n <= |s|
    ensures forall k :: 0 <= k < n ==> p(s[k])
    ensures n == |s| || !p(s[n])
  {
    if s == [] || !p(s[0]) then 0 else 1 + LeadingRun(s[1..], p)
  }

  /** The leading run is the only prefix of matching characters followed by
      the end or by a character that does not match. */
  lemma LeadingRunUnique(s: string, p: char -> bool, n: nat)
    requires n <= |s|
    requires forall k :: 0 <= k < n ==> p(s[k])
    requires n == |s| || !p(s[n])
    ensures n == LeadingRun(s, p)
  {
  }

  /** `r` is `s` with its leading and trailing runs of `p` removed: the slice
      of `s` that starts after the leading run and is followed by matching
      characters only. */
  predicate TrimmedSlice(s: string, r: string, p: char -> bool) {
    && LeadingRun(s, p) + |r| <= |s|
    && r == s[LeadingRun(s, p)..LeadingRun(s, p) + |r|]
    && forall k :: LeadingRun(s, p) + |r| <= k < |s| ==> p(s[k])
  }

  /** Trimming at the end and then at the start leaves that slice: when `e`
      is `s` without its trailing run and `t` is `e` without its leading
      run. */
  lemma TrimmedPartsAreSlice(s: string, p: char -> bool, e: string, t: string)
    requires e <= s && forall k :: |e| <= k < |s| ==> p(s[k])
    requires |t| <= |e| && t == e[|e| - |t|..]
    requires t == [] || !p(t[0])
    requires forall k :: 0 <= k < |e| - |t| ==> p(e[k])
    ensures TrimmedSlice(s, t, p)
  {
    var i := |e| - |t|;
    assert forall k :: 0 <= k < |e| ==> e[k] == s[k];
    if t != [] {
      assert s[i] == t[0];
      LeadingRunUnique(s, p, i);
      assert t == s[i..|e|];
    } else {
      LeadingRunUnique(s, p, |s|);
    }
  }

  /** `s.trimmingCharacters(in: .whitespacesAndNewlines)`: the input with its
      leading and trailing whitespace removed. */
  function TrimWhitespace(s: string): (r: string)
    ensures TrimmedSlice(s, r, IsWhitespace)
    ensures r == [] || (!IsWhitespace(r[0]) && !IsWhitespace(r[|r| - 1]))
    ensures r == [] ==> forall k :: 0 <= k < |s| ==> IsWhitespace(s[k])
  {
    TrimmedPartsAreSlice(s, IsWhitespace, TrimEnd(s, IsWhitespace), TrimStart(TrimEnd(s, IsWhitespace), IsWhitespace));
    TrimStart(TrimEnd(s, IsWhitespace), IsWhitespace)
  }

  /** Length of the leading run of characters that are not separators. */
  function TokenLength(s: string, isSep: char -> bool): (n: nat)
    ensures n <= |s|
    ensures forall k :: 0 <= k < n ==> !isSep(s[k])
    ensures n == |s| || isSep(s[n])
  {
    if s == [] || isSep(s[0]) then 0 else 1 + TokenLength(s[1..], isSep)
  }

  /** Swift's `split(separator:)` with a separator predicate: the maximal runs
      of non-separator characters, empty pieces omitted. */
  function SplitBy(s: string, isSep: char -> bool): (r: seq<string>)
    ensures forall k :: 0 <= k < |r| ==> |r[k]| > 0
    ensures forall k, j :: 0 <= k < |r| && 0 <= j < |r[k]| ==> !isSep(r[k][j])
    decreases |s|
  {
    if s == [] then []
    else if isSep(s[0]) then SplitBy(s[1..], isSep)
    else
      var n := TokenLength(s, isSep);
      [s[..n]] + SplitBy(s[n..], isSep)
  }

  /** A token stops at the first separator. */
  lemma {:induction false} TokenBeforeSeparator(a: string, c: char, b: string, isSep: char -> bool)
    requires isSep(c)
    ensures TokenLength(a + [c] + b, isSep) == TokenLength(a, isSep)
    decreases |a|
  {
    var s := a + [c] + b;
    if a != [] && !isSep(a[0]) {
      assert s[1..] == a[1..] + [c] + b;
      TokenBeforeSeparator(a[1..], c, b, isSep);
    }
  }

  /** A separator splits the pieces of both sides apart. */
  lemma {:induction false} SplitAtSeparator(a: string, c: char, b: string, isSep: char -> bool)
    requires isSep(c)
    ensures SplitBy(a + [c] + b, isSep) == SplitBy(a, isSep) + SplitBy(b, isSep)
    decreases |a|
  {
    var s := a + [c] + b;
    if a == [] {
      assert s[1..] == b;
    } else if isSep(a[0]) {
      assert s[1..] == a[1..] + [c] + b;
      SplitAtSeparator(a[1..], c, b, isSep);
    } else {
      var n := TokenLength(a, isSep);
      TokenBeforeSeparator(a, c, b, isSep);
      assert s[..n] == a[..n];
      assert s[n..] == a[n..] + [c] + b;
      SplitAtSeparator(a[n..], c, b, isSep);
    }
  }

  /** Text without separators is one piece, unless it is empty. */
  lemma {:induction false} SplitWithoutSeparator(t: string, isSep: char -> bool)
    requires t != [] && forall k :: 0 <= k < |t| ==> !isSep(t[k])
    ensures SplitBy(t, isSep) == [t]
  {
    TokenWithoutSeparator(t, isSep);
    assert t[..|t|] == t;
  }

  lemma {:induction false} TokenWithoutSeparator(t: string, isSep: char -> bool)
    requires forall k :: 0 <= k < |t| ==> !isSep(t[k])
    ensures TokenLength(t, isSep) == |t|
    decreases |t|
  {
    if t != [] {
      TokenWithoutSeparator(t[1..], isSep);
    }
  }

  /** The pieces written one after another. */
  function Concat(pieces: seq<string>): string
    decreases |pieces|
  {
    if pieces == [] then [] else pieces[0] + Concat(pieces[1..])
  }

  lemma AppendAssoc(a: string, b: string, c: string)
    ensures a + (b + c) == (a + b) + c
  {
  }

  lemma HeadAndTail(s: string, n: nat)
    requires 0 < n <= |s|
    ensures s[..n] == [s[0]] + s[1..][..n - 1]
    ensures s[1..][n - 1..] == s[n..]
    ensures forall k :: 0 <= k < n - 1 ==> s[1..][k] == s[k + 1]
  {
  }

  /** Removing the characters of a leading run that holds no separator
      keeps that run in front. */
  lemma {:induction false} RemoveWhereKeepsRun(s: string, p: char -> bool, n: nat)
    requires n <= |s| && forall k :: 0 <= k < n ==> !p(s[k])
    ensures RemoveWhere(s, p) == s[..n] + RemoveWhere(s[n..], p)
    decreases n
  {
    if n > 0 {
      var tail := s[1..];
      HeadAndTail(s, n);
      RemoveWhereKeepsRun(tail, p, n - 1);
      var rest := RemoveWhere(s[n..], p);
      assert RemoveWhere(s, p) == [s[0]] + (tail[..n - 1] + rest);
      AppendAssoc([s[0]], tail[..n - 1], rest);
    }
  }

  /** The pieces, in order, are the input with its separators deleted:
      nothing but separators is dropped and nothing is reordered. */
  lemma {:induction false} SplitKeepsText(s: string, isSep: char -> bool)
    ensures Concat(SplitBy(s, isSep)) == RemoveWhere(s, isSep)
    decreases |s|
  {
    if s != [] {
      if isSep(s[0]) {
        SplitKeepsText(s[1..], isSep);
      } else {
        var n := TokenLength(s, isSep);
        var rest := SplitBy(s[n..], isSep);
        SplitKeepsText(s[n..], isSep);
        RemoveWhereKeepsRun(s, isSep, n);
        assert ([s[..n]] + rest)[1..] == rest;
      }
    }
  }

  /** `s.split(separator: c)`. */
  function Split(s: string, c: char): (r: seq<string>)
    ensures forall k :: 0 <= k < |r| ==> |r[k]| > 0
    ensures forall k, j :: 0 <= k < |r| && 0 <= j < |r[k]| ==> r[k][j] != c
  {
    SplitBy(s, x => x == c)
  }

  /** ASCII upper-casing of one character. */
  function UpperChar(c: char): char {
    if 'a' <= c <= 'z' then (c as int - 32) as char else c
  }

  /** ASCII lower-casing of one character. */
  function LowerChar(c: char): char {
    if 'A' <= c <= 'Z' then (c as int + 32) as char else c
  }

  /** `s.uppercased()` restricted to ASCII letters. */
  function Uppercased(s: string): (r: string)
    ensures |r| == |s|
    ensures forall k :: 0 <= k < |s| ==> r[k] == UpperChar(s[k])
  {
    if s == [] then [] else [UpperChar(s[0])] + Uppercased(s[1..])
  }

  /** `s.lowercased()` restricted to ASCII letters. */
  function Lowercased(s: string): (r: string)
    ensures |r| == |s|
    ensures forall k :: 0 <= k < |s| ==> r[k] == LowerChar(s[k])
  {
    if s == [] then [] else [LowerChar(s[0])] + Lowercased(s[1..])
  }

  /** Decimal digit character of `d`. */
  function Digit(d: nat): (c: char)
    requires d < 10
    ensures '0' <= c <= '9'
  {
    ('0' as int + d) as char
  }

  /** String interpolation `"\(n)"` of a non-negative integer. */
  function NatToString(n: nat): (s: string)
    ensures |s| > 0
    ensures forall k :: 0 <= k < |s| ==> '0' <= s[k] <= '9'
    decreases n
  {
    if n < 10 then [Digit(n)] else NatToString(n / 10) + [Digit(n % 10)]
  }

  /** Value of a string of decimal digits. */
  function DecimalValue(s: string): int
    decreases |s|
  {
    if s == [] then 0
    else DecimalValue(s[..|s| - 1]) * 10 + (s[|s| - 1] as int - '0' as int)
  }

  /** The decimal rendering of a number reads back as that number. */
  lemma {:induction false} NatToStringRoundTrip(n: nat)
    ensures DecimalValue(NatToString(n)) == n
    decreases n
  {
    if n >= 10 {
      NatToStringRoundTrip(n / 10);
      var s := NatToString(n);
      assert s[..|s| - 1] == NatToString(n / 10);
    }
  }

  /** The rendering is canonical: it has no leading zero unless it is "0". */
  lemma {:induction false} NatToStringNoLeadingZero(n: nat)
    ensures NatToString(n)[0] == '0' <==> n == 0
    decreases n
  {
    if n >= 10 {
      NatToStringNoLeadingZero(n / 10);
      assert NatToString(n)[0] == NatToString(n / 10)[0];
    }
  }
}
