/** The unit label markup: `^{...}` raises the braced text as a superscript
    and `_{...}` lowers it as a subscript. The SwiftUI `Text` the view builds
    is modelled as the list of its pieces, each plain, superscript or
    subscript; fonts and baseline offsets are left out. */
module UnitText {
  import opened Wrappers

  datatype Segment = Plain(text: string) | Superscript(text: string) | Subscript(text: string)

  predicate IsMarker(c: char) {
    c == '_' || c == '^'
  }

  predicate NoMarkers(s: string) {
    forall i :: 0 <= i < |s| ==> !IsMarker(s[i])
  }

  predicate NoClose(s: string) {
    forall i :: 0 <= i < |s| ==> s[i] != '}'
  }

  /** `firstIndex(where:)` for a marker, from index `from` on. */
  function FirstMarkerFrom(s: string, from: nat): (r: Option<nat>)
    requires from <= |s|
    ensures r.Some? ==> from <= r.value < |s| && IsMarker(s[r.value])
    ensures r.Some? ==> forall i :: from <= i < r.value ==> !IsMarker(s[i])
    ensures r.None? ==> forall i :: from <= i < |s| ==> !IsMarker(s[i])
    decreases |s| - from
  {
    if from == |s| then None
    else if IsMarker(s[from]) then Some(from)
    else FirstMarkerFrom(s, from + 1)
  }

  /** `firstIndex(where: { $0 == "}" })`, from index `from` on. */
  function FirstCloseFrom(s: string, from: nat): (r: Option<nat>)
    requires from <= |s|
    ensures r.Some? ==> from <= r.value < |s| && s[r.value] == '}'
    ensures r.Some? ==> forall i :: from <= i < r.value ==> s[i] != '}'
    ensures r.None? ==> forall i :: from <= i < |s| ==> s[i] != '}'
    decreases |s| - from
  {
    if from == |s| then None
    else if s[from] == '}' then Some(from)
    else FirstCloseFrom(s, from + 1)
  }

  /** Pieces already built, put in front of the pieces still to come; an
      abandoned scan stays abandoned. */
  function Prepend(text: seq<Segment>, rest: Option<seq<Segment>>): Option<seq<Segment>> {
    match rest
    case None => None
    case Some(pieces) => Some(text + pieces)
  }

  /** The pieces of a string, or nothing when a `{` after a marker is never
      closed. */
  function Scan(s: string): Option<seq<Segment>>
    decreases |s|
  {
    match FirstMarkerFrom(s, 0)
    case None => Some([Plain(s)])
    case Some(i) =>
      var before := s[..i];
      var tail := s[i..];
      if |tail| < 3 then Some([Plain(before), Plain(tail)])
      else
        var marker := tail[0];
        var rest := tail[1..];
        if rest[0] != '{' then
          Prepend([Plain(before), Plain([marker])], Scan(rest))
        else
          match FirstCloseFrom(rest, 0)
          case None => None
          case Some(j) =>
            var content := rest[1..j];
            var piece := if marker == '^' then Superscript(content) else Subscript(content);
            Prepend([Plain(before), piece], Scan(rest[j + 1..]))
  }

  /** What `body` shows: the pieces, or a single empty text when a brace is
      left open. */
  function Render(s: string): seq<Segment> {
    match Scan(s)
    case None => [Plain("")]
    case Some(pieces) => pieces
  }

  /** `body`: repeatedly emits the text before the next marker and the
      marked piece, until no marker remains. */
  method UnitTextView(inputString: string) returns (text: seq<Segment>)
    ensures text == Render(inputString)
  {
    var remaining := inputString;
    text := [];
    PrependEmpty(Scan(inputString));
    while FirstMarkerFrom(remaining, 0).Some?
      invariant Scan(inputString) == Prepend(text, Scan(remaining))
      decreases |remaining|
    {
      var validIndex := FirstMarkerFrom(remaining, 0).value;
      var before := remaining[..validIndex];
      var tail := remaining[validIndex..];
      if |tail| < 3 {
        PrependJoin(text, [Plain(before), Plain(tail)], Some([]));
        return text + [Plain(before), Plain(tail)];
      }
      var subscriptType := tail[0];
      tail := tail[1..];
      var piece: Segment;
      if tail[0] != '{' {
        piece := Plain([subscriptType]);
      } else if FirstCloseFrom(tail, 0).Some? {
        var subStringIndex := FirstCloseFrom(tail, 0).value;
        var content := tail[1..subStringIndex];
        tail := tail[subStringIndex + 1..];
        piece := if subscriptType == '^' then Superscript(content) else Subscript(content);
      } else {
        return [Plain("")];
      }
      assert Scan(remaining) == Prepend([Plain(before), piece], Scan(tail));
      PrependJoin(text, [Plain(before), piece], Scan(tail));
      text := text + [Plain(before), piece];
      remaining := tail;
    }
    PrependJoin(text, [Plain(remaining)], Some([]));
    text := text + [Plain(remaining)];
  }

  lemma {:induction false} PrependEmpty(rest: Option<seq<Segment>>)
    ensures Prepend([], rest) == rest
  {
    if rest.Some? {
      assert [] + rest.value == rest.value;
    }
  }

  /** Pieces put in front in two steps are the pieces put in front at once. */
  lemma {:induction false} PrependJoin(text: seq<Segment>, more: seq<Segment>, rest: Option<seq<Segment>>)
    ensures Prepend(text, Prepend(more, rest)) == Prepend(text + more, rest)
    ensures rest == Some([]) ==> Prepend(text, Prepend(more, rest)) == Some(text + more)
  {
    if rest.Some? {
      assert text + (more + rest.value) == (text + more) + rest.value;
    }
    if rest == Some([]) {
      assert more + [] == more;
      assert text + more + [] == text + more;
    }
  }

  /** Text without markers is shown as it is. */
  lemma {:induction false} NoMarkersIsPlain(s: string)
    requires NoMarkers(s)
    ensures Render(s) == [Plain(s)]
  {
  }

  /** Where the first marker of a string is when the text before it has
      none. */
  lemma {:induction false} MarkerAfter(before: string, tail: string)
    requires NoMarkers(before) && |tail| > 0 && IsMarker(tail[0])
    ensures FirstMarkerFrom(before + tail, 0) == Some(|before|)
    ensures (before + tail)[..|before|] == before && (before + tail)[|before|..] == tail
  {
    var s := before + tail;
    assert IsMarker(s[|before|]);
    assert forall i :: 0 <= i < |before| ==> !IsMarker(s[i]) by {
      assert forall i :: 0 <= i < |before| ==> s[i] == before[i];
    }
  }

  /** `^{c}` and `_{c}` give the text before the marker, then the braced
      text raised or lowered, then the pieces of what follows. */
  lemma {:induction false} BracedPiece(before: string, marker: char, content: string, after: string)
    requires NoMarkers(before) && IsMarker(marker) && NoClose(content)
    ensures Scan(before + [marker, '{'] + content + ['}'] + after) ==
      Prepend([Plain(before), if marker == '^' then Superscript(content) else Subscript(content)], Scan(after))
  {
    var tail := BracedSlices(before, marker, content, after);
    BracedRest(content, after);
    BracedTail(before, tail, |content| + 1);
  }

  /** The pieces of `m{c}t` after the marker. */
  lemma {:induction false} BracedSlices(before: string, marker: char, content: string, after: string)
      returns (tail: string)
    ensures tail == [marker] + (['{'] + content + ['}'] + after)
    ensures before + [marker, '{'] + content + ['}'] + after == before + tail
    ensures |tail| >= 3 && tail[0] == marker && tail[1] == '{'
    ensures tail[1..] == ['{'] + content + ['}'] + after
    ensures tail[2..|content| + 2] == content && tail[|content| + 3..] == after
  {
    tail := [marker] + (['{'] + content + ['}'] + after);
    assert tail[2..|content| + 2] == content;
    assert tail[|content| + 3..] == after;
  }

  /** The first `}` of `{c}t` closes the brace when `c` holds none. */
  lemma {:induction false} BracedRest(content: string, after: string)
    requires NoClose(content)
    ensures FirstCloseFrom(['{'] + content + ['}'] + after, 0) == Some(|content| + 1)
  {
    var rest := ['{'] + content + ['}'] + after;
    assert rest[0] == '{' && rest[|content| + 1] == '}';
    assert forall i :: 1 <= i < |content| + 1 ==> rest[i] == content[i - 1];
  }

  /** How the scan reads a marker that opens a brace closed at index
      `close` of the text after the marker. */
  lemma {:induction false} BracedTail(before: string, tail: string, close: nat)
    requires NoMarkers(before) && |tail| >= 3 && IsMarker(tail[0]) && tail[1] == '{'
    requires FirstCloseFrom(tail[1..], 0) == Some(close)
    ensures close + 2 <= |tail|
    ensures Scan(before + tail) ==
      Prepend([Plain(before), if tail[0] == '^' then Superscript(tail[2..close + 1]) else Subscript(tail[2..close + 1])],
              Scan(tail[close + 2..]))
  {
    MarkerAfter(before, tail);
    var rest := tail[1..];
    assert rest[1..close] == tail[2..close + 1];
    assert rest[close + 1..] == tail[close + 2..];
  }

  /** Fewer than three characters from the marker on are shown literally
      and end the scan. */
  lemma {:induction false} ShortTail(before: string, tail: string)
    requires NoMarkers(before) && 0 < |tail| < 3 && IsMarker(tail[0])
    ensures Render(before + tail) == [Plain(before), Plain(tail)]
  {
    MarkerAfter(before, tail);
  }

  /** A marker not followed by `{` is shown as itself, and the scan goes on
      from the character after it. */
  lemma {:induction false} MarkerWithoutBrace(before: string, marker: char, rest: string)
    requires NoMarkers(before) && IsMarker(marker) && |rest| >= 2 && rest[0] != '{'
    ensures Scan(before + [marker] + rest) == Prepend([Plain(before), Plain([marker])], Scan(rest))
  {
    var tail := [marker] + rest;
    assert before + [marker] + rest == before + tail;
    MarkerAfter(before, tail);
    assert tail[1..] == rest;
  }

  /** A `{` after a marker that no `}` closes blanks the whole label. */
  lemma {:induction false} UnclosedBraceBlanks(before: string, marker: char, rest: string)
    requires NoMarkers(before) && IsMarker(marker) && |rest| >= 1 && NoClose(rest)
    ensures Render(before + [marker, '{'] + rest) == [Plain("")]
  {
    var tail := [marker, '{'] + rest;
    assert before + [marker, '{'] + rest == before + tail;
    MarkerAfter(before, tail);
    var inner := tail[1..];
    assert inner == ['{'] + rest;
    assert forall i :: 0 <= i < |inner| ==> inner[i] != '}' by {
      assert forall i :: 1 <= i < |inner| ==> inner[i] == rest[i - 1];
    }
  }
}
