/** The mmCIF reader (`CIFParser`): a line-by-line state machine over `loop_`
    blocks that keeps the values of a few `_atom_site` categories, followed by
    the extraction of one structure per atom-site loop. The directive and
    category names are the standard mmCIF ones. */
module CifParser {
  import opened Wrappers
  import Text
  import opened Geometry
  import opened AtomElements
  import opened ElementCompositions
  import ChainIds
  import ParsePdb

  // ---------------------------------------------------------------------
  // Directives and category names.

  const CommentDirective: string := "#"
  const LoopDirective: string := "loop_"
  const HeaderPrefix: string := "_"
  const EntryIdTag: string := "_entry.id"
  const GroupPdb: string := "_atom_site.group_PDB"
  const CartnX: string := "_atom_site.Cartn_x"
  const CartnY: string := "_atom_site.Cartn_y"
  const CartnZ: string := "_atom_site.Cartn_z"
  const TypeSymbol: string := "_atom_site.type_symbol"
  const CompId: string := "_atom_site.label_comp_id"
  const AuthAsymId: string := "_atom_site.auth_asym_id"

  /** `categoriesToSave`: the categories whose values are kept. */
  const CategoriesToSave: set<string> := {GroupPdb, CartnX, CartnY, CartnZ, TypeSymbol, CompId, AuthAsymId}

  /** The residue name of water, whose atoms are skipped. */
  const Water: string := "HOH"

  // ---------------------------------------------------------------------
  // Header helpers.

  /** The `subscript(safe:)` extension: the element when the index is in
      bounds, nil otherwise. */
  function SafeGet<T>(s: seq<T>, i: int): (r: Option<T>)
    ensures r.Some? <==> 0 <= i < |s|
    ensures r.Some? ==> r.value == s[i]
  {
    if 0 <= i < |s| then Some(s[i]) else None
  }

  /** `parseEntryID(line:)`: the second space-separated token, nil when the
      line has fewer than two tokens. */
  function ParseEntryId(line: string): (r: Option<string>)
    ensures r.None? <==> |Text.Split(line, ' ')| < 2
    ensures r.Some? ==> r.value == Text.Split(line, ' ')[1]
    ensures r.Some? ==> |r.value| > 0 && ' ' !in r.value
  {
    var tokens := Text.Split(line, ' ');
    var r := SafeGet(tokens, 1);
    assert r.Some? ==> forall j :: 0 <= j < |r.value| ==> r.value[j] != ' ';
    r
  }

  // ---------------------------------------------------------------------
  // Specification of the line scan, on values.

  /** The state of one `LoopMetadata` object. */
  datatype Loop = Loop(categoryNames: seq<string>, values: map<string, seq<string>>, willBeDiscarded: bool)

  /** `LoopMetadata(loopCategoryNames: [])`. */
  const EmptyLoop: Loop := Loop([], map[], false)

  /** The reader's state between lines: `parsedData.entryID` and the loops
      read so far, in order. */
  datatype CifState = CifState(entryId: Option<string>, loops: seq<Loop>)

  const Start: CifState := CifState(None, [])

  /** Number of listed categories that are saved (the `filter(...).count`). */
  function SavedCount(names: seq<string>): (n: nat)
    ensures n == 0 <==> forall k :: 0 <= k < |names| ==> names[k] !in CategoriesToSave
    ensures n <= |names|
  {
    if names == [] then 0
    else SavedCount(names[..|names| - 1]) + (if names[|names| - 1] in CategoriesToSave then 1 else 0)
  }

  /** The token at `index`, or "" when the line has fewer tokens. */
  function TokenOr(tokens: seq<string>, index: int): string {
    match SafeGet(tokens, index)
    case Some(t) => t
    case None => ""
  }

  /** One category of a data row: a saved category present in the map
      gains the token at position `k`. */
  function RowStep(v: map<string, seq<string>>, c: string, k: int, tokens: seq<string>): map<string, seq<string>> {
    if c in CategoriesToSave && c in v then v[c := v[c] + [TokenOr(tokens, k)]] else v
  }

  /** The value map after one data row: for each listed category that is
      saved and present, the token at its position is appended. */
  function RowValues(values: map<string, seq<string>>, names: seq<string>, tokens: seq<string>): (r: map<string, seq<string>>)
    ensures r.Keys == values.Keys
    ensures forall c :: c in values && (c !in CategoriesToSave || c !in names) ==> r[c] == values[c]
    decreases |names|
  {
    if names == [] then values
    else
      var k := |names| - 1;
      RowStep(RowValues(values, names[..k], tokens), names[k], k, tokens)
  }

  lemma RowValuesSnoc(values: map<string, seq<string>>, names: seq<string>, i: nat, tokens: seq<string>)
    requires i < |names|
    ensures RowValues(values, names[..i + 1], tokens) == RowStep(RowValues(values, names[..i], tokens), names[i], i, tokens)
  {
    assert names[..i + 1][..i] == names[..i];
  }

  predicate IsComment(line: string) {
    Text.StartsWith(line, CommentDirective)
  }

  predicate IsLoopStart(line: string) {
    Text.StartsWith(line, LoopDirective)
  }

  predicate IsHeader(line: string) {
    Text.StartsWith(line, HeaderPrefix)
  }

  /** What a non-comment, non-`loop_` line does to the current loop: a
      header adds its category with an empty value list; a data row is
      ignored by a discarded loop, discards a loop without saved categories,
      and otherwise adds one value per saved category. */
  function LoopLineStep(l: Loop, line: string): (r: Loop)
    ensures !IsHeader(line) ==> r.categoryNames == l.categoryNames && r.values.Keys == l.values.Keys
    ensures IsHeader(line) ==> r.values.Keys == l.values.Keys + {Text.TrimWhitespace(line)}
    ensures r.willBeDiscarded <==> l.willBeDiscarded || (!IsHeader(line) && SavedCount(l.categoryNames) == 0)
  {
    if IsHeader(line) then
      var c := Text.TrimWhitespace(line);
      Loop(l.categoryNames + [c], l.values[c := []], l.willBeDiscarded)
    else if l.willBeDiscarded then l
    else if SavedCount(l.categoryNames) == 0 then l.(willBeDiscarded := true)
    else l.(values := RowValues(l.values, l.categoryNames, Text.Split(line, ' ')))
  }

  function Last<T>(s: seq<T>): T
    requires s != []
  {
    s[|s| - 1]
  }

  /** `s` with its last element replaced. */
  function ReplaceLast<T>(s: seq<T>, x: T): (r: seq<T>)
    requires s != []
    ensures |r| == |s| && r[..|s| - 1] == s[..|s| - 1] && r[|s| - 1] == x
  {
    s[..|s| - 1] + [x]
  }

  /** `parseLine(line:into:allLoopMetadata:)` on values. */
  function LineStep(st: CifState, line: string): (r: CifState)
    ensures |r.loops| == if !IsComment(line) && IsLoopStart(line) then |st.loops| + 1 else |st.loops|
    ensures r.entryId != st.entryId ==> st.loops == [] && Text.StartsWith(line, EntryIdTag)
  {
    if IsComment(line) then st
    else if IsLoopStart(line) then st.(loops := st.loops + [EmptyLoop])
    else if st.loops != [] then st.(loops := ReplaceLast(st.loops, LoopLineStep(Last(st.loops), line)))
    else if Text.StartsWith(line, EntryIdTag) && ParseEntryId(line).Some? then st.(entryId := ParseEntryId(line))
    else st
  }

  /** The state after reading `lines` in order from `st`. */
  function RunFrom(st: CifState, lines: seq<string>): CifState
    decreases |lines|
  {
    if lines == [] then st else LineStep(RunFrom(st, lines[..|lines| - 1]), lines[|lines| - 1])
  }

  /** The state after the file's lines from a fresh `ParsedData` and no loops. */
  function Run(lines: seq<string>): CifState {
    RunFrom(Start, lines)
  }

  lemma RunFromSnoc(st: CifState, pre: seq<string>, line: string)
    ensures RunFrom(st, pre + [line]) == LineStep(RunFrom(st, pre), line)
  {
    assert (pre + [line])[..|pre|] == pre;
  }

  // ---------------------------------------------------------------------
  // Properties of one line.

  /** Comment lines change nothing. */
  lemma CommentIgnored(st: CifState, line: string)
    requires IsComment(line)
    ensures LineStep(st, line) == st
  {
  }

  /** The record prefixes that select a branch exclude each other. */
  lemma DirectivesExclusive(line: string)
    ensures !(IsComment(line) && IsLoopStart(line))
    ensures !(IsComment(line) && IsHeader(line))
    ensures !(IsLoopStart(line) && IsHeader(line))
    ensures IsComment(line) ==> !Text.StartsWith(line, EntryIdTag)
    ensures IsLoopStart(line) ==> !Text.StartsWith(line, EntryIdTag)
  {
    Text.PrefixesDiffer(line, CommentDirective, LoopDirective, 0);
    Text.PrefixesDiffer(line, CommentDirective, HeaderPrefix, 0);
    Text.PrefixesDiffer(line, LoopDirective, HeaderPrefix, 0);
    Text.PrefixesDiffer(line, CommentDirective, EntryIdTag, 0);
    Text.PrefixesDiffer(line, LoopDirective, EntryIdTag, 0);
  }

  /** A `loop_` line opens a new, empty loop after the existing ones and
      keeps the entry id. */
  lemma LoopLineOpensLoop(st: CifState, line: string)
    requires IsLoopStart(line)
    ensures LineStep(st, line).loops == st.loops + [Loop([], map[], false)]
    ensures LineStep(st, line).entryId == st.entryId
  {
    DirectivesExclusive(line);
  }

  /** Once a loop exists, every other line acts on the last loop only: the
      earlier loops and the entry id stay as they are, and the loop count
      grows by at most one. */
  lemma LineStepTouchesLastLoop(st: CifState, line: string)
    requires st.loops != []
    ensures var r := LineStep(st, line);
      && r.entryId == st.entryId
      && |st.loops| <= |r.loops| <= |st.loops| + 1
      && r.loops[..|st.loops| - 1] == st.loops[..|st.loops| - 1]
  {
    var r := LineStep(st, line);
    if IsLoopStart(line) && !IsComment(line) {
      assert r.loops[..|st.loops| - 1] == (st.loops + [EmptyLoop])[..|st.loops| - 1];
    }
  }

  /** A header line inside a loop adds its trimmed name and resets that
      category's values to the empty list. */
  lemma HeaderAddsCategory(st: CifState, line: string)
    requires st.loops != [] && IsHeader(line)
    ensures var r := LineStep(st, line);
      var c := Text.TrimWhitespace(line);
      && |r.loops| == |st.loops|
      && Last(r.loops).categoryNames == Last(st.loops).categoryNames + [c]
      && Last(r.loops).values == Last(st.loops).values[c := []]
      && Last(r.loops).willBeDiscarded == Last(st.loops).willBeDiscarded
  {
    DirectivesExclusive(line);
  }

  /** Discarding: the first data row of a loop without saved categories
      marks it discarded and changes nothing else; data rows of a discarded
      loop change nothing at all. */
  lemma DataRowDiscards(st: CifState, line: string)
    requires st.loops != [] && !IsComment(line) && !IsLoopStart(line) && !IsHeader(line)
    ensures Last(st.loops).willBeDiscarded ==> LineStep(st, line) == st
    ensures !Last(st.loops).willBeDiscarded && SavedCount(Last(st.loops).categoryNames) == 0 ==>
      LineStep(st, line) == st.(loops := ReplaceLast(st.loops, Last(st.loops).(willBeDiscarded := true)))
  {
    if Last(st.loops).willBeDiscarded {
      assert ReplaceLast(st.loops, Last(st.loops)) == st.loops;
    }
  }

  /** Before any `loop_`, an entry-id line with a second token sets the
      entry id to that token; any other line before the first loop, and
      every line after it, leaves the entry id alone. */
  lemma EntryIdLine(st: CifState, line: string)
    ensures st.loops == [] && !IsComment(line) && !IsLoopStart(line) && Text.StartsWith(line, EntryIdTag)
              && |Text.Split(line, ' ')| >= 2 ==>
      LineStep(st, line).entryId == Some(Text.Split(line, ' ')[1])
    ensures LineStep(st, line).entryId != st.entryId ==>
      st.loops == [] && Text.StartsWith(line, EntryIdTag) && LineStep(st, line).entryId == ParseEntryId(line)
  {
  }

  /** Every saved category present in a loop with distinct names gains
      exactly the token at its header's position. */
  lemma {:induction false} RowValuesAppendOne(values: map<string, seq<string>>, names: seq<string>, tokens: seq<string>)
    requires forall i, j :: 0 <= i < j < |names| ==> names[i] != names[j]
    requires forall k :: 0 <= k < |names| ==> names[k] in values
    ensures forall k :: 0 <= k < |names| && names[k] in CategoriesToSave ==>
      RowValues(values, names, tokens)[names[k]] == values[names[k]] + [TokenOr(tokens, k)]
    decreases |names|
  {
    if names != [] {
      var n := |names| - 1;
      var pre := names[..n];
      RowValuesAppendOne(values, pre, tokens);
      var v := RowValues(values, pre, tokens);
      assert names[n] !in pre;
      forall k | 0 <= k < |names| && names[k] in CategoriesToSave
        ensures RowValues(values, names, tokens)[names[k]] == values[names[k]] + [TokenOr(tokens, k)]
      {
        if k < n {
          assert pre[k] == names[k];
          assert names[k] != names[n];
        } else {
          assert v[names[n]] == values[names[n]];
        }
      }
    }
  }

  /** Well-formed loop: the value map has exactly the listed categories as
      keys, and categories that are not saved keep empty lists. */
  ghost predicate LoopShape(l: Loop) {
    && (forall c :: c in l.values <==> c in l.categoryNames)
    && (forall c :: c in l.values && c !in CategoriesToSave ==> l.values[c] == [])
  }

  ghost predicate AllShaped(loops: seq<Loop>) {
    forall k :: 0 <= k < |loops| ==> LoopShape(loops[k])
  }

  ghost predicate DistinctNames(l: Loop) {
    forall i, j :: 0 <= i < j < |l.categoryNames| ==> l.categoryNames[i] != l.categoryNames[j]
  }

  /** Saved value lists grow together: in a well-formed loop with distinct
      category names, a kept data row adds one value to every saved list and
      leaves every other list as it was. */
  lemma SavedListsGrowTogether(l: Loop, line: string)
    requires LoopShape(l) && DistinctNames(l)
    requires !IsHeader(line) && !l.willBeDiscarded && SavedCount(l.categoryNames) > 0
    ensures var r := LoopLineStep(l, line);
      && r.categoryNames == l.categoryNames
      && r.values.Keys == l.values.Keys
      && (forall c :: c in l.values && c in CategoriesToSave ==> |r.values[c]| == |l.values[c]| + 1)
      && (forall c :: c in l.values && c !in CategoriesToSave ==> r.values[c] == l.values[c])
  {
    var tokens := Text.Split(line, ' ');
    RowValuesAppendOne(l.values, l.categoryNames, tokens);
    var r := LoopLineStep(l, line);
    forall c | c in l.values && c in CategoriesToSave
      ensures |r.values[c]| == |l.values[c]| + 1
    {
      var k :| 0 <= k < |l.categoryNames| && l.categoryNames[k] == c;
    }
  }

  /** A line read into a well-formed loop leaves it well formed. */
  lemma LoopLineStepKeepsShape(l: Loop, line: string)
    requires LoopShape(l)
    ensures LoopShape(LoopLineStep(l, line))
  {
    if IsHeader(line) {
      HeaderKeepsShape(l, line);
    } else if !l.willBeDiscarded && SavedCount(l.categoryNames) != 0 {
      var v := RowValues(l.values, l.categoryNames, Text.Split(line, ' '));
      assert LoopLineStep(l, line) == l.(values := v);
      forall x | x in v && x !in CategoriesToSave ensures v[x] == [] {
        assert v[x] == l.values[x];
      }
    }
  }

  lemma HeaderKeepsShape(l: Loop, line: string)
    requires LoopShape(l) && IsHeader(line)
    ensures LoopShape(LoopLineStep(l, line))
  {
    var c := Text.TrimWhitespace(line);
    var l' := Loop(l.categoryNames + [c], l.values[c := []], l.willBeDiscarded);
    assert LoopLineStep(l, line) == l';
    forall x ensures x in l'.values <==> x in l'.categoryNames {
      assert x in l.categoryNames + [c] <==> x in l.categoryNames || x == c;
    }
    forall x | x in l'.values && x !in CategoriesToSave ensures l'.values[x] == [] {
      if x != c {
        assert l'.values[x] == l.values[x];
      }
    }
  }

  /** Every line keeps every loop well formed. */
  lemma LineStepKeepsShape(st: CifState, line: string)
    requires AllShaped(st.loops)
    ensures AllShaped(LineStep(st, line).loops)
  {
    var r := LineStep(st, line);
    if !IsComment(line) && IsLoopStart(line) {
      assert r.loops == st.loops + [EmptyLoop];
      assert LoopShape(EmptyLoop);
    } else if !IsComment(line) && st.loops != [] {
      var l := Last(st.loops);
      assert LoopShape(l);
      var l' := LoopLineStep(l, line);
      LoopLineStepKeepsShape(l, line);
      assert r.loops == ReplaceLast(st.loops, l');
      forall k | 0 <= k < |r.loops|
        ensures LoopShape(r.loops[k])
      {
        if k < |st.loops| - 1 {
          assert r.loops[k] == r.loops[..|st.loops| - 1][k] == st.loops[k];
        }
      }
    }
  }

  // ---------------------------------------------------------------------
  // Properties of the whole scan.

  /** Reading lines keeps every loop well formed. */
  lemma {:induction false} RunKeepsShape(st: CifState, lines: seq<string>)
    requires AllShaped(st.loops)
    ensures AllShaped(RunFrom(st, lines).loops)
    decreases |lines|
  {
    if lines != [] {
      RunKeepsShape(st, lines[..|lines| - 1]);
      LineStepKeepsShape(RunFrom(st, lines[..|lines| - 1]), lines[|lines| - 1]);
    }
  }

  /** Every loop of a file's scan is well formed. */
  lemma ScanLoopsShaped(lines: seq<string>)
    ensures AllShaped(Run(lines).loops)
  {
    RunKeepsShape(Start, lines);
  }

  /** Once a loop is open, later lines never change the earlier loops or
      the entry id, and never remove a loop. */
  lemma {:induction false} RunFreezesEarlierLoops(st: CifState, lines: seq<string>)
    requires st.loops != []
    ensures var r := RunFrom(st, lines);
      && r.entryId == st.entryId
      && |r.loops| >= |st.loops|
      && r.loops[..|st.loops| - 1] == st.loops[..|st.loops| - 1]
    decreases |lines|
  {
    if lines != [] {
      var pre := lines[..|lines| - 1];
      RunFreezesEarlierLoops(st, pre);
      var m := RunFrom(st, pre);
      LineStepTouchesLastLoop(m, lines[|lines| - 1]);
      var r := RunFrom(st, lines);
      assert r.loops[..|m.loops| - 1] == m.loops[..|m.loops| - 1];
      assert r.loops[..|st.loops| - 1] == r.loops[..|m.loops| - 1][..|st.loops| - 1];
      assert m.loops[..|st.loops| - 1] == m.loops[..|m.loops| - 1][..|st.loops| - 1];
    }
  }

  /** The scan splits at any line. */
  lemma {:induction false} RunFromAppend(st: CifState, a: seq<string>, b: seq<string>)
    ensures RunFrom(st, a + b) == RunFrom(RunFrom(st, a), b)
    decreases |b|
  {
    if b == [] {
      assert a + b == a;
    } else {
      var pre := b[..|b| - 1];
      RunFromAppend(st, a, pre);
      assert (a + b)[..|a + b| - 1] == a + pre;
    }
  }

  /** The entry id of a file is fixed by the lines before its first
      `loop_`: lines after a `loop_` line (comments aside) never change it. */
  lemma EntryIdBeforeFirstLoop(a: seq<string>, loopLine: string, b: seq<string>)
    requires IsLoopStart(loopLine)
    ensures Run(a + [loopLine] + b).entryId == Run(a).entryId
  {
    RunFromAppend(Start, a + [loopLine], b);
    RunFromSnoc(Start, a, loopLine);
    LoopLineOpensLoop(Run(a), loopLine);
    RunFreezesEarlierLoops(RunFrom(Start, a + [loopLine]), b);
  }

  // ---------------------------------------------------------------------
  // Atom-site extraction, on values.

  /** The columns of one atom-site loop that passed the guard: `n` is the
      `group_PDB` count and the four mandatory columns have that length. */
  datatype AtomColumns = AtomColumns(
    n: nat, x: seq<string>, y: seq<string>, z: seq<string>, types: seq<string>,
    residues: Option<seq<string>>, subunits: Option<seq<string>>)

  predicate ColumnsOk(c: AtomColumns) {
    |c.x| == c.n && |c.y| == c.n && |c.z| == c.n && |c.types| == c.n
  }

  /** `residueValues.count == rawAtomCount`. */
  predicate ResiduesAligned(c: AtomColumns) {
    c.residues.Some? && |c.residues.value| == c.n
  }

  /** `subunitValues.count == rawAtomCount`. */
  predicate SubunitsAligned(c: AtomColumns) {
    c.subunits.Some? && |c.subunits.value| == c.n
  }

  /** The guard of the model loop: `group_PDB` and the coordinate and
      element lists are present and all have the `group_PDB` count. */
  function ColumnsOf(l: Loop): (r: Option<AtomColumns>)
    ensures r.Some? <==>
      && GroupPdb in l.values && CartnX in l.values && CartnY in l.values && CartnZ in l.values && TypeSymbol in l.values
      && |l.values[CartnX]| == |l.values[GroupPdb]| && |l.values[CartnY]| == |l.values[GroupPdb]|
      && |l.values[CartnZ]| == |l.values[GroupPdb]| && |l.values[TypeSymbol]| == |l.values[GroupPdb]|
    ensures r.Some? ==> ColumnsOk(r.value) && r.value.n == |l.values[GroupPdb]|
    ensures r.Some? ==> r.value.x == l.values[CartnX] && r.value.y == l.values[CartnY] && r.value.z == l.values[CartnZ]
    ensures r.Some? ==> r.value.types == l.values[TypeSymbol]
    ensures r.Some? ==> r.value.residues == (if CompId in l.values then Some(l.values[CompId]) else None)
    ensures r.Some? ==> r.value.subunits == (if AuthAsymId in l.values then Some(l.values[AuthAsymId]) else None)
  {
    if GroupPdb in l.values && CartnX in l.values && CartnY in l.values && CartnZ in l.values && TypeSymbol in l.values then
      var n := |l.values[GroupPdb]|;
      if |l.values[CartnX]| == n && |l.values[CartnY]| == n && |l.values[CartnZ]| == n && |l.values[TypeSymbol]| == n then
        Some(AtomColumns(n, l.values[CartnX], l.values[CartnY], l.values[CartnZ], l.values[TypeSymbol],
                         if CompId in l.values then Some(l.values[CompId]) else None,
                         if AuthAsymId in l.values then Some(l.values[AuthAsymId]) else None))
      else None
    else None
  }

  /** A row whose residue is water, when the residue list is usable. */
  predicate WaterRow(c: AtomColumns, i: nat)
    requires i < c.n
  {
    ResiduesAligned(c) && c.residues.value[i] == Water
  }

  /** A non-water row whose three coordinates parse. */
  predicate CoordinatesParse(c: AtomColumns, i: nat, parseReal: string -> Option<real>)
    requires ColumnsOk(c) && i < c.n
  {
    parseReal(c.x[i]).Some? && parseReal(c.y[i]).Some? && parseReal(c.z[i]).Some?
  }

  /** One atom as the model loop appends it. */
  datatype CifAtom = CifAtom(position: Vec3, element: AtomElement)

  /** Row `i` of the model loop: skipped when a coordinate does not parse or
      the residue is water; otherwise its position with z negated (the
      chirality fix) and the element read from `type_symbol`. */
  function RowAtom(c: AtomColumns, i: nat, parseReal: string -> Option<real>): (r: Option<CifAtom>)
    requires ColumnsOk(c) && i < c.n
    ensures r.Some? <==> CoordinatesParse(c, i, parseReal) && !WaterRow(c, i)
    ensures r.Some? ==>
      && r.value.position == Vec3(parseReal(c.x[i]).value, parseReal(c.y[i]).value, -parseReal(c.z[i]).value)
      && r.value.element == AtomElements.FromStringAsWritten(c.types[i])
  {
    match (parseReal(c.x[i]), parseReal(c.y[i]), parseReal(c.z[i]))
    case (Some(px), Some(py), Some(pz)) =>
      if WaterRow(c, i) then None else Some(CifAtom(Vec3(px, py, -pz), AtomElements.FromStringAsWritten(c.types[i])))
    case _ => None
  }

  /** The atoms of rows `0..k`. */
  function AtomsUpTo(c: AtomColumns, k: nat, parseReal: string -> Option<real>): seq<CifAtom>
    requires ColumnsOk(c) && k <= c.n
  {
    if k == 0 then []
    else
      var pre := AtomsUpTo(c, k - 1, parseReal);
      match RowAtom(c, k - 1, parseReal)
      case Some(a) => pre + [a]
      case None => pre
  }

  /** `ChainID(string:) ?? .zero`. */
  function ChainOf(s: string): (r: ChainIds.ChainID)
    ensures |s| == 1 && 'A' <= s[0] <= 'Z' ==> r.rawValue == s[0] as int - 'A' as int
    ensures !(|s| == 1 && 'A' <= s[0] <= 'Z') ==> r == ChainIds.Zero
  {
    match ChainIds.FromString(s)
    case Some(id) => id
    case None => ChainIds.Zero
  }

  /** The chain ids of rows `0..k`, water rows skipped. */
  function ChainsUpTo(c: AtomColumns, k: nat): seq<ChainIds.ChainID>
    requires SubunitsAligned(c) && k <= c.n
  {
    if k == 0 then []
    else
      var pre := ChainsUpTo(c, k - 1);
      if WaterRow(c, k - 1) then pre else pre + [ChainOf(c.subunits.value[k - 1])]
  }

  /** The residue names of rows `0..k`, water rows skipped. */
  function ResiduesUpTo(c: AtomColumns, k: nat): seq<string>
    requires ResiduesAligned(c) && k <= c.n
  {
    if k == 0 then []
    else
      var pre := ResiduesUpTo(c, k - 1);
      if WaterRow(c, k - 1) then pre else pre + [c.residues.value[k - 1]]
  }

  /** Number of non-water rows among `0..k`. */
  function KeptRows(c: AtomColumns, k: nat): nat
    requires k <= c.n
  {
    if k == 0 then 0 else KeptRows(c, k - 1) + (if WaterRow(c, k - 1) then 0 else 1)
  }

  /** Number of non-water rows among `0..k` whose coordinates do not parse. */
  function BadRows(c: AtomColumns, k: nat, parseReal: string -> Option<real>): nat
    requires ColumnsOk(c) && k <= c.n
  {
    if k == 0 then 0
    else BadRows(c, k - 1, parseReal) + (if WaterRow(c, k - 1) || CoordinatesParse(c, k - 1, parseReal) then 0 else 1)
  }

  /** The atoms are exactly the accepted rows, each once: an atom comes
      from some earlier row, and every accepted row gives an atom. */
  lemma {:induction false} AtomsAreAcceptedRows(c: AtomColumns, k: nat, parseReal: string -> Option<real>)
    requires ColumnsOk(c) && k <= c.n
    ensures forall a :: a in AtomsUpTo(c, k, parseReal) ==> exists i :: 0 <= i < k && RowAtom(c, i, parseReal) == Some(a)
    ensures forall i :: 0 <= i < k && RowAtom(c, i, parseReal).Some? ==> RowAtom(c, i, parseReal).value in AtomsUpTo(c, k, parseReal)
    decreases k
  {
    if k > 0 {
      AtomsAreAcceptedRows(c, k - 1, parseReal);
      var pre := AtomsUpTo(c, k - 1, parseReal);
      match RowAtom(c, k - 1, parseReal)
      case Some(b) =>
        assert AtomsUpTo(c, k, parseReal) == pre + [b];
        forall a | a in pre + [b]
          ensures exists i :: 0 <= i < k && RowAtom(c, i, parseReal) == Some(a)
        {
          if a !in pre {
            assert RowAtom(c, k - 1, parseReal) == Some(a);
          }
        }
      case None =>
        assert AtomsUpTo(c, k, parseReal) == pre;
    }
  }

  /** Chain and residue lists have one entry per non-water row; the atom
      list misses the non-water rows whose coordinates fail to parse. So the
      three lists line up exactly when every non-water row parses. */
  lemma {:induction false} ColumnsAlign(c: AtomColumns, k: nat, parseReal: string -> Option<real>)
    requires ColumnsOk(c) && k <= c.n
    ensures |AtomsUpTo(c, k, parseReal)| + BadRows(c, k, parseReal) == KeptRows(c, k)
    ensures SubunitsAligned(c) ==> |ChainsUpTo(c, k)| == KeptRows(c, k)
    ensures ResiduesAligned(c) ==> |ResiduesUpTo(c, k)| == KeptRows(c, k)
    decreases k
  {
    if k > 0 {
      ColumnsAlign(c, k - 1, parseReal);
    }
  }

  /** As written, a non-water row whose coordinates do not parse is skipped
      by the atom loop but still gets a chain id and a residue, so those
      lists run ahead of the atoms and from that row on entry `i` no longer
      belongs to atom `i`. */
  lemma AsWrittenColumnsRunAhead(c: AtomColumns, k: nat, parseReal: string -> Option<real>)
    requires ColumnsOk(c) && k <= c.n && BadRows(c, k, parseReal) > 0
    ensures SubunitsAligned(c) ==> |ChainsUpTo(c, k)| > |AtomsUpTo(c, k, parseReal)|
    ensures ResiduesAligned(c) ==> |ResiduesUpTo(c, k)| > |AtomsUpTo(c, k, parseReal)|
  {
    ColumnsAlign(c, k, parseReal);
  }

  /** The rows among `0..k` that give an atom, in order. */
  function AcceptedRows(c: AtomColumns, k: nat, parseReal: string -> Option<real>): (rows: seq<nat>)
    requires ColumnsOk(c) && k <= c.n
    ensures forall i :: 0 <= i < |rows| ==> rows[i] < k && RowAtom(c, rows[i], parseReal).Some?
  {
    if k == 0 then []
    else
      var pre := AcceptedRows(c, k - 1, parseReal);
      if RowAtom(c, k - 1, parseReal).Some? then pre + [k - 1] else pre
  }

  /** The chain ids as evidently intended: one for each row that gives an
      atom. */
  function AlignedChainsUpTo(c: AtomColumns, k: nat, parseReal: string -> Option<real>): seq<ChainIds.ChainID>
    requires ColumnsOk(c) && SubunitsAligned(c) && k <= c.n
  {
    if k == 0 then []
    else
      var pre := AlignedChainsUpTo(c, k - 1, parseReal);
      if RowAtom(c, k - 1, parseReal).Some? then pre + [ChainOf(c.subunits.value[k - 1])] else pre
  }

  /** The residue names as evidently intended: one for each row that gives
      an atom. */
  function AlignedResiduesUpTo(c: AtomColumns, k: nat, parseReal: string -> Option<real>): seq<string>
    requires ColumnsOk(c) && ResiduesAligned(c) && k <= c.n
  {
    if k == 0 then []
    else
      var pre := AlignedResiduesUpTo(c, k - 1, parseReal);
      if RowAtom(c, k - 1, parseReal).Some? then pre + [c.residues.value[k - 1]] else pre
  }

  /** Atom `i` comes from the `i`-th row that gives an atom. */
  lemma {:induction false} AcceptedRowsGiveAtoms(c: AtomColumns, k: nat, parseReal: string -> Option<real>)
    requires ColumnsOk(c) && k <= c.n
    ensures |AcceptedRows(c, k, parseReal)| == |AtomsUpTo(c, k, parseReal)|
    ensures forall i :: 0 <= i < |AtomsUpTo(c, k, parseReal)| ==>
      RowAtom(c, AcceptedRows(c, k, parseReal)[i], parseReal) == Some(AtomsUpTo(c, k, parseReal)[i])
    decreases k
  {
    if k > 0 {
      AcceptedRowsGiveAtoms(c, k - 1, parseReal);
    }
  }

  /** With the aligned chain list, chain id `i` comes from the row of atom
      `i`, for every `i`. */
  lemma {:induction false} AlignedChainsMatchAtoms(c: AtomColumns, k: nat, parseReal: string -> Option<real>)
    requires ColumnsOk(c) && SubunitsAligned(c) && k <= c.n
    ensures |AlignedChainsUpTo(c, k, parseReal)| == |AcceptedRows(c, k, parseReal)|
    ensures forall i :: 0 <= i < |AcceptedRows(c, k, parseReal)| ==>
      AlignedChainsUpTo(c, k, parseReal)[i] == ChainOf(c.subunits.value[AcceptedRows(c, k, parseReal)[i]])
    decreases k
  {
    if k > 0 {
      AlignedChainsMatchAtoms(c, k - 1, parseReal);
    }
  }

  /** With the aligned residue list, residue `i` comes from the row of atom
      `i`, for every `i`. */
  lemma {:induction false} AlignedResiduesMatchAtoms(c: AtomColumns, k: nat, parseReal: string -> Option<real>)
    requires ColumnsOk(c) && ResiduesAligned(c) && k <= c.n
    ensures |AlignedResiduesUpTo(c, k, parseReal)| == |AcceptedRows(c, k, parseReal)|
    ensures forall i :: 0 <= i < |AcceptedRows(c, k, parseReal)| ==>
      AlignedResiduesUpTo(c, k, parseReal)[i] == c.residues.value[AcceptedRows(c, k, parseReal)[i]]
    decreases k
  {
    if k > 0 {
      AlignedResiduesMatchAtoms(c, k - 1, parseReal);
    }
  }

  /** No water residue is listed. */
  lemma {:induction false} ResiduesSkipWater(c: AtomColumns, k: nat)
    requires ResiduesAligned(c) && k <= c.n
    ensures Water !in ResiduesUpTo(c, k)
    decreases k
  {
    if k > 0 {
      ResiduesSkipWater(c, k - 1);
    }
  }

  function Positions(xs: seq<CifAtom>): (ps: seq<Vec3>)
    ensures |ps| == |xs| && forall k :: 0 <= k < |xs| ==> ps[k] == xs[k].position
  {
    seq(|xs|, k requires 0 <= k < |xs| => xs[k].position)
  }

  function Elements(xs: seq<CifAtom>): (es: seq<AtomElement>)
    ensures |es| == |xs| && forall k :: 0 <= k < |xs| ==> es[k] == xs[k].element
  {
    seq(|xs|, k requires 0 <= k < |xs| => xs[k].element)
  }

  /** The arguments handed to `Protein(...)` for one atom-site loop. The
      chain and residue compositions are not part of this model. */
  datatype CifModel = CifModel(
    configurationCount: nat, configurationEnergies: Option<seq<real>>,
    atoms: seq<Vec3>, elementComposition: Composition, atomElements: seq<AtomElement>,
    atomChainIds: Option<seq<ChainIds.ChainID>>, atomResidues: Option<seq<string>>,
    atomSecondaryStructure: Option<seq<nat>>)

  /** The structure built from one atom-site loop's columns. */
  function ModelOf(c: AtomColumns, parseReal: string -> Option<real>): CifModel
    requires ColumnsOk(c)
  {
    var xs := AtomsUpTo(c, c.n, parseReal);
    CifModel(1, None, Positions(xs), Counted(Elements(xs)), Elements(xs),
             if SubunitsAligned(c) then Some(ChainsUpTo(c, c.n)) else None,
             if ResiduesAligned(c) then Some(ResiduesUpTo(c, c.n)) else None,
             None)
  }

  /** One configuration without energies; the composition counts the
      element list, which has one entry per atom; the optional lists are
      present exactly when their columns have the `group_PDB` count, and
      then have one entry per non-water row, which is the atom count as
      soon as no non-water row has a bad coordinate. */
  lemma ModelShape(c: AtomColumns, parseReal: string -> Option<real>)
    requires ColumnsOk(c)
    ensures var m := ModelOf(c, parseReal);
      && m.configurationCount == 1 && m.configurationEnergies.None? && m.atomSecondaryStructure.None?
      && |m.atoms| == |m.atomElements| && m.elementComposition.totalCount == |m.atoms|
      && (m.atomChainIds.Some? <==> SubunitsAligned(c))
      && (m.atomResidues.Some? <==> ResiduesAligned(c))
      && (m.atomChainIds.Some? ==> |m.atomChainIds.value| == KeptRows(c, c.n))
      && (m.atomResidues.Some? ==> |m.atomResidues.value| == KeptRows(c, c.n) && Water !in m.atomResidues.value)
      && (BadRows(c, c.n, parseReal) == 0 <==> |m.atoms| == KeptRows(c, c.n))
  {
    ColumnsAlign(c, c.n, parseReal);
    if ResiduesAligned(c) {
      ResiduesSkipWater(c, c.n);
    }
  }

  /** Loops the model loop looks at: those listing `group_PDB`. */
  predicate IsAtomLoop(l: Loop) {
    GroupPdb in l.categoryNames
  }

  /** What the model loop makes of one loop. */
  type LoopBuilder = Loop -> Option<CifModel>

  /** The model loop's body: loops listing `group_PDB` that pass the guard
      give the structure of their columns, the others give nothing. */
  function Builder(parseReal: string -> Option<real>): LoopBuilder {
    l => if IsAtomLoop(l) && ColumnsOf(l).Some? then Some(ModelOf(ColumnsOf(l).value, parseReal)) else None
  }

  /** The models of a list of loops, in loop order. */
  function ModelsOf(loops: seq<Loop>, build: LoopBuilder): seq<CifModel> {
    if loops == [] then []
    else
      var pre := ModelsOf(loops[..|loops| - 1], build);
      match build(Last(loops))
      case Some(m) => pre + [m]
      case None => pre
  }

  ghost predicate BuiltFrom(m: CifModel, loops: seq<Loop>, build: LoopBuilder) {
    exists k :: 0 <= k < |loops| && build(loops[k]) == Some(m)
  }

  /** Every model comes from a loop that gives one, and every such loop's
      model is listed; there are never more models than loops. */
  lemma {:induction false} ModelsFromLoops(loops: seq<Loop>, build: LoopBuilder)
    ensures |ModelsOf(loops, build)| <= |loops|
    ensures forall m :: m in ModelsOf(loops, build) ==> BuiltFrom(m, loops, build)
    ensures forall k :: 0 <= k < |loops| && build(loops[k]).Some? ==> build(loops[k]).value in ModelsOf(loops, build)
    decreases |loops|
  {
    if loops != [] {
      var n := |loops| - 1;
      var pre := loops[..n];
      ModelsFromLoops(pre, build);
      forall m | m in ModelsOf(pre, build)
        ensures BuiltFrom(m, loops, build)
      {
        var k :| 0 <= k < |pre| && build(pre[k]) == Some(m);
        assert loops[k] == pre[k];
      }
      if build(loops[n]).Some? {
        assert BuiltFrom(build(loops[n]).value, loops, build);
      }
      forall k | 0 <= k < n && build(loops[k]).Some?
        ensures build(loops[k]).value in ModelsOf(loops, build)
      {
        assert loops[k] == pre[k];
      }
    }
  }

  /** A loop gives a model exactly when it lists `group_PDB` and passes the
      guard, and the model is the one of its columns. */
  lemma BuilderMeaning(l: Loop, parseReal: string -> Option<real>)
    ensures Builder(parseReal)(l).Some? <==> IsAtomLoop(l) && ColumnsOf(l).Some?
    ensures Builder(parseReal)(l).Some? ==> Builder(parseReal)(l).value == ModelOf(ColumnsOf(l).value, parseReal)
  {
  }

  // ---------------------------------------------------------------------
  // The reader's objects and methods.

  /** `ParsedData`: the header values found outside loops. */
  class ParsedData {
    var entryID: Option<string>

    constructor()
      ensures entryID == None
    {
      entryID := None;
    }
  }

  /** `LoopMetadata`: one loop's headers, saved values and discard flag,
      updated in place by the line reader. */
  class LoopMetadata {
    var categoryNames: seq<string>
    var values: map<string, seq<string>>
    var willBeDiscarded: bool

    function Value(): Loop
      reads this
    {
      Loop(categoryNames, values, willBeDiscarded)
    }

    constructor(loopCategoryNames: seq<string>)
      ensures Value() == Loop(loopCategoryNames, map[], false)
    {
      categoryNames := loopCategoryNames;
      values := map[];
      willBeDiscarded := false;
    }
  }

  /** The loop objects of `allLoopMetadata` are pairwise distinct. */
  ghost predicate Distinct(ls: seq<LoopMetadata>) {
    forall i, j :: 0 <= i < j < |ls| ==> ls[i] != ls[j]
  }

  /** The states of a list of loop objects. */
  function Values(ls: seq<LoopMetadata>): (r: seq<Loop>)
    reads ls
    ensures |r| == |ls| && forall k :: 0 <= k < |ls| ==> r[k] == ls[k].Value()
  {
    if ls == [] then [] else Values(ls[..|ls| - 1]) + [ls[|ls| - 1].Value()]
  }

  /** The reader's whole state as a value. */
  function State(parsedData: ParsedData, ls: seq<LoopMetadata>): CifState
    reads parsedData, ls
  {
    CifState(parsedData.entryID, Values(ls))
  }

  /** The last loop object, the only one a line may change. */
  function LastOnly(ls: seq<LoopMetadata>): (r: set<LoopMetadata>)
    ensures forall l :: l in r ==> l in ls
  {
    if ls == [] then {} else {ls[|ls| - 1]}
  }

  /** The loop over `categoryNames.enumerated()` for one data row. */
  method AppendRow(lineValues: seq<string>, categoryNames: seq<string>, values: map<string, seq<string>>)
    returns (values': map<string, seq<string>>)
    ensures values' == RowValues(values, categoryNames, lineValues)
  {
    values' := values;
    var index := 0;
    while index < |categoryNames|
      invariant 0 <= index <= |categoryNames|
      invariant values' == RowValues(values, categoryNames[..index], lineValues)
    {
      var categoryName := categoryNames[index];
      RowValuesSnoc(values, categoryNames, index, lineValues);
      ghost var before := values';
      if categoryName in CategoriesToSave {
        var categoryValue := SafeGet(lineValues, index);
        if categoryName in values' {
          if categoryValue.Some? {
            values' := values'[categoryName := values'[categoryName] + [categoryValue.value]];
          } else {
            values' := values'[categoryName := values'[categoryName] + [""]];
          }
        }
      }
      assert values' == RowStep(before, categoryName, index, lineValues);
      index := index + 1;
    }
    assert categoryNames[..index] == categoryNames;
  }

  /** The loop branch of `parseLine` for the last loop object: a header or
      a data row. */
  method ReadLoopLine(line: string, loopMetadata: LoopMetadata)
    requires !IsComment(line) && !IsLoopStart(line)
    modifies loopMetadata
    ensures loopMetadata.Value() == LoopLineStep(old(loopMetadata.Value()), line)
  {
    if IsHeader(line) {
      var categoryName := Text.TrimWhitespace(line);
      loopMetadata.categoryNames := loopMetadata.categoryNames + [categoryName];
      loopMetadata.values := loopMetadata.values[categoryName := []];
    } else {
      if loopMetadata.willBeDiscarded {
        return;
      } else if SavedCount(loopMetadata.categoryNames) == 0 {
        loopMetadata.willBeDiscarded := true;
        return;
      }
      var lineValues := Text.Split(line, ' ');
      var values := AppendRow(lineValues, loopMetadata.categoryNames, loopMetadata.values);
      loopMetadata.values := values;
    }
  }

  /** The loop objects after the last one read a line inside a loop: the
      earlier ones are untouched. */
  method ReadLastLoop(line: string, allLoopMetadata: seq<LoopMetadata>)
    requires allLoopMetadata != [] && Distinct(allLoopMetadata)
    requires !IsComment(line) && !IsLoopStart(line)
    modifies LastOnly(allLoopMetadata)
    ensures Values(allLoopMetadata) == ReplaceLast(old(Values(allLoopMetadata)), LoopLineStep(old(Last(Values(allLoopMetadata))), line))
  {
    var n := |allLoopMetadata| - 1;
    var loopMetadata := allLoopMetadata[n];
    ghost var pre := allLoopMetadata[..n];
    assert allLoopMetadata == pre + [loopMetadata];
    assert loopMetadata !in pre;
    ghost var before := Values(pre);
    assert Values(allLoopMetadata) == before + [loopMetadata.Value()];
    ReadLoopLine(line, loopMetadata);
    assert Values(pre) == before;
    assert Values(allLoopMetadata) == Values(pre) + [loopMetadata.Value()];
  }

  /** The `loop_` branch of `parseLine`: a fresh, empty loop object is
      appended. */
  method OpenLoop(allLoopMetadata: seq<LoopMetadata>) returns (allLoopMetadata': seq<LoopMetadata>)
    requires Distinct(allLoopMetadata)
    ensures Distinct(allLoopMetadata')
    ensures |allLoopMetadata'| == |allLoopMetadata| + 1 && allLoopMetadata'[..|allLoopMetadata|] == allLoopMetadata
    ensures fresh(allLoopMetadata'[|allLoopMetadata|])
    ensures Values(allLoopMetadata') == Values(allLoopMetadata) + [EmptyLoop]
  {
    var loopMetadata := new LoopMetadata([]);
    allLoopMetadata' := allLoopMetadata + [loopMetadata];
    assert allLoopMetadata'[..|allLoopMetadata|] == allLoopMetadata;
  }

  /** The branch of `parseLine` outside any loop. */
  method ReadEntryLine(line: string, parsedData: ParsedData)
    modifies parsedData
    ensures parsedData.entryID ==
      if Text.StartsWith(line, EntryIdTag) && ParseEntryId(line).Some? then ParseEntryId(line) else old(parsedData.entryID)
  {
    if Text.StartsWith(line, EntryIdTag) {
      var entryID := ParseEntryId(line);
      if entryID.Some? {
        parsedData.entryID := entryID;
      }
    }
  }

  /** `parseLine(line:into:allLoopMetadata:)`: the state after the line is
      the value-level step from the state before it; a `loop_` line appends
      a fresh loop object, every other line changes at most the last one. */
  method ParseLine(line: string, parsedData: ParsedData, allLoopMetadata: seq<LoopMetadata>)
    returns (allLoopMetadata': seq<LoopMetadata>)
    requires Distinct(allLoopMetadata)
    modifies parsedData, LastOnly(allLoopMetadata)
    ensures Distinct(allLoopMetadata')
    ensures allLoopMetadata' == allLoopMetadata ||
      (|allLoopMetadata'| == |allLoopMetadata| + 1 && allLoopMetadata'[..|allLoopMetadata|] == allLoopMetadata &&
       fresh(allLoopMetadata'[|allLoopMetadata|]))
    ensures State(parsedData, allLoopMetadata') == LineStep(old(State(parsedData, allLoopMetadata)), line)
  {
    ghost var st := State(parsedData, allLoopMetadata);
    allLoopMetadata' := allLoopMetadata;
    if IsComment(line) {
      return;
    }
    if IsLoopStart(line) {
      allLoopMetadata' := OpenLoop(allLoopMetadata);
      assert LineStep(st, line) == st.(loops := st.loops + [EmptyLoop]);
      return;
    }
    ReadContentLine(line, parsedData, allLoopMetadata);
  }

  /** A line that is neither a comment nor `loop_`: read by the last loop
      object if there is one, otherwise as an entry line. */
  method ReadContentLine(line: string, parsedData: ParsedData, allLoopMetadata: seq<LoopMetadata>)
    requires Distinct(allLoopMetadata)
    requires !IsComment(line) && !IsLoopStart(line)
    modifies parsedData, LastOnly(allLoopMetadata)
    ensures State(parsedData, allLoopMetadata) == LineStep(old(State(parsedData, allLoopMetadata)), line)
  {
    ghost var st := State(parsedData, allLoopMetadata);
    if |allLoopMetadata| > 0 {
      ReadLastLoop(line, allLoopMetadata);
      assert LineStep(st, line) == st.(loops := ReplaceLast(st.loops, LoopLineStep(Last(st.loops), line)));
    } else {
      ReadEntryLine(line, parsedData);
    }
  }

  /** A row that is not accepted leaves the atoms as they are. */
  lemma AtomsSkip(c: AtomColumns, index: nat, parseReal: string -> Option<real>)
    requires ColumnsOk(c) && index < c.n && RowAtom(c, index, parseReal).None?
    ensures AtomsUpTo(c, index + 1, parseReal) == AtomsUpTo(c, index, parseReal)
  {
  }

  /** An accepted row appends its atom. */
  lemma AtomsTake(c: AtomColumns, index: nat, parseReal: string -> Option<real>, a: CifAtom)
    requires ColumnsOk(c) && index < c.n && RowAtom(c, index, parseReal) == Some(a)
    ensures AtomsUpTo(c, index + 1, parseReal) == AtomsUpTo(c, index, parseReal) + [a]
  {
  }

  /** Both parallel lists grow by the appended atom's part. */
  lemma PartsSnoc(xs: seq<CifAtom>, a: CifAtom)
    ensures Positions(xs + [a]) == Positions(xs) + [a.position]
    ensures Elements(xs + [a]) == Elements(xs) + [a.element]
  {
  }

  /** The model loop's body from the first coordinate guard to the append:
      rows `0..n`, the accepted ones as positions and elements. */
  method ReadAtoms(c: AtomColumns, parseReal: string -> Option<real>)
    returns (atoms: seq<Vec3>, elements: seq<AtomElement>)
    requires ColumnsOk(c)
    ensures atoms == Positions(AtomsUpTo(c, c.n, parseReal))
    ensures elements == Elements(AtomsUpTo(c, c.n, parseReal))
  {
    atoms, elements := [], [];
    var residuesAligned := c.residues.Some? && |c.residues.value| == c.n;
    for index := 0 to c.n
      invariant atoms == Positions(AtomsUpTo(c, index, parseReal))
      invariant elements == Elements(AtomsUpTo(c, index, parseReal))
    {
      ghost var xs := AtomsUpTo(c, index, parseReal);
      var xValue := parseReal(c.x[index]);
      var yValue := parseReal(c.y[index]);
      var zValue := parseReal(c.z[index]);
      if xValue.None? || yValue.None? || zValue.None? {
        AtomsSkip(c, index, parseReal);
        continue;
      }
      if residuesAligned && c.residues.value[index] == Water {
        assert WaterRow(c, index);
        AtomsSkip(c, index, parseReal);
        continue;
      }
      var element := c.types[index];
      var position := Vec3(xValue.value, yValue.value, -zValue.value);
      AtomsTake(c, index, parseReal, CifAtom(position, AtomElements.FromStringAsWritten(element)));
      PartsSnoc(xs, CifAtom(position, AtomElements.FromStringAsWritten(element)));
      atoms := atoms + [position];
      elements := elements + [AtomElements.FromStringAsWritten(element)];
    }
  }

  /** The chain loop: present only when the subunit column has the
      `group_PDB` count, water rows skipped. */
  method ReadChainIds(c: AtomColumns) returns (chainIDs: Option<seq<ChainIds.ChainID>>)
    ensures chainIDs == if SubunitsAligned(c) then Some(ChainsUpTo(c, c.n)) else None
  {
    chainIDs := None;
    if c.subunits.Some? && |c.subunits.value| == c.n {
      var subunitValues := c.subunits.value;
      var tempChainIDs: seq<ChainIds.ChainID> := [];
      for index := 0 to c.n
        invariant tempChainIDs == ChainsUpTo(c, index)
      {
        if c.residues.Some? && |c.residues.value| == c.n && c.residues.value[index] == Water {
          continue;
        }
        var rawChainID := subunitValues[index];
        tempChainIDs := tempChainIDs + [ChainOf(rawChainID)];
      }
      chainIDs := Some(tempChainIDs);
    }
  }

  /** The residue loop: present only when the residue column has the
      `group_PDB` count, water rows skipped. */
  method ReadResidues(c: AtomColumns) returns (residues: Option<seq<string>>)
    ensures residues == if ResiduesAligned(c) then Some(ResiduesUpTo(c, c.n)) else None
  {
    residues := None;
    if c.residues.Some? && |c.residues.value| == c.n {
      var residueValues := c.residues.value;
      var tempResidues: seq<string> := [];
      for index := 0 to c.n
        invariant tempResidues == ResiduesUpTo(c, index)
      {
        if residueValues[index] == Water {
          continue;
        }
        tempResidues := tempResidues + [residueValues[index]];
      }
      residues := Some(tempResidues);
    }
  }

  /** One iteration of the model loop after the guard. */
  method BuildModel(c: AtomColumns, parseReal: string -> Option<real>) returns (m: CifModel)
    requires ColumnsOk(c)
    ensures m == ModelOf(c, parseReal)
  {
    var atoms, elements := ReadAtoms(c, parseReal);
    var chainIDs := ReadChainIds(c);
    var residues := ReadResidues(c);
    var composition := CountElements(elements);
    m := CifModel(1, None, atoms, composition, elements, chainIDs, residues, None);
  }

  datatype FileType = StaticStructure

  /** `ProteinFile` as this reader returns it. */
  datatype CifFile = CifFile(fileType: FileType, fileName: string, fileExtension: string,
                             models: seq<CifModel>, fileInfo: ParsePdb.KnownInfo, byteSize: Option<int>)

  /** The line loop of `parseCIF`: a fresh `ParsedData` and the loop
      objects, in the state the value-level scan describes. */
  method ReadLines(rawLines: seq<string>) returns (parsedData: ParsedData, allLoopMetadata: seq<LoopMetadata>)
    ensures fresh(parsedData) && Distinct(allLoopMetadata)
    ensures State(parsedData, allLoopMetadata) == Run(rawLines)
  {
    parsedData := new ParsedData();
    allLoopMetadata := [];
    for i := 0 to |rawLines|
      invariant Distinct(allLoopMetadata)
      invariant fresh(set l | l in allLoopMetadata)
      invariant State(parsedData, allLoopMetadata) == Run(rawLines[..i])
    {
      allLoopMetadata := ReadLineAt(rawLines, i, parsedData, allLoopMetadata);
    }
    assert rawLines[..|rawLines|] == rawLines;
  }

  /** One pass of the line loop of `parseCIF`: line `i` read into the state
      of the lines before it. */
  method ReadLineAt(rawLines: seq<string>, i: nat, parsedData: ParsedData, allLoopMetadata: seq<LoopMetadata>)
    returns (allLoopMetadata': seq<LoopMetadata>)
    requires i < |rawLines| && Distinct(allLoopMetadata)
    requires State(parsedData, allLoopMetadata) == Run(rawLines[..i])
    modifies parsedData, LastOnly(allLoopMetadata)
    ensures Distinct(allLoopMetadata')
    ensures forall l :: l in allLoopMetadata' ==> l in allLoopMetadata || fresh(l)
    ensures State(parsedData, allLoopMetadata') == Run(rawLines[..i + 1])
  {
    Text.TakeSnoc(rawLines, i);
    RunFromSnoc(Start, rawLines[..i], rawLines[i]);
    allLoopMetadata' := ParseLine(rawLines[i], parsedData, allLoopMetadata);
    assert forall k :: 0 <= k < |allLoopMetadata| ==> allLoopMetadata'[k] == allLoopMetadata[k];
  }

  /** The model loop of `parseCIF` over the loop objects. */
  method BuildModels(allLoopMetadata: seq<LoopMetadata>, parseReal: string -> Option<real>) returns (models: seq<CifModel>)
    ensures models == ModelsOf(Values(allLoopMetadata), Builder(parseReal))
  {
    ghost var loops := Values(allLoopMetadata);
    models := [];
    for i := 0 to |allLoopMetadata|
      invariant models == ModelsOf(loops[..i], Builder(parseReal))
    {
      Text.TakeSnoc(loops, i);
      var atomLoop := allLoopMetadata[i];
      if GroupPdb in atomLoop.categoryNames {
        var columns := ColumnsOf(atomLoop.Value());
        if columns.Some? {
          var protein := BuildModel(columns.value, parseReal);
          models := models + [protein];
        }
      }
    }
    assert loops[..|allLoopMetadata|] == loops;
  }

  /** `parseCIF(...)`: the lines of the text are read in order, then one
      model is built per atom loop passing the guard, in loop order; the PDB
      id is the caller's when it gave one, else the entry id. */
  method ParseCif(fileName: string, fileExtension: string, byteSize: Option<int>, rawText: string,
                  originalFileInfo: Option<ParsePdb.KnownInfo>, parseReal: string -> Option<real>)
    returns (file: CifFile)
    ensures var scan := Run(Text.Split(rawText, '\n'));
      && file.models == ModelsOf(scan.loops, Builder(parseReal))
      && file.fileInfo.pdbId == (if ParsePdb.Inherited(originalFileInfo).pdbId.Some? then ParsePdb.Inherited(originalFileInfo).pdbId else scan.entryId)
      && file.fileInfo.description == ParsePdb.Inherited(originalFileInfo).description
      && file.fileInfo.authors == ParsePdb.Inherited(originalFileInfo).authors
    ensures file.fileType == StaticStructure && file.fileName == fileName && file.fileExtension == fileExtension
    ensures file.byteSize == byteSize
  {
    var fileInfo := ParsePdb.Inherited(originalFileInfo);
    var rawLines := Text.Split(rawText, '\n');
    var parsedData, allLoopMetadata := ReadLines(rawLines);
    var models := BuildModels(allLoopMetadata, parseReal);
    if fileInfo.pdbId.None? {
      fileInfo := fileInfo.(pdbId := parsedData.entryID);
    }
    file := CifFile(StaticStructure, fileName, fileExtension, models, fileInfo, byteSize);
  }
}
