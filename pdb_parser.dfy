/** The block-parallel PDB reader (`PDBParser.parsePDB`), run sequentially:
    every line is classified into atom, subunit-end (TER) and model-end
    (ENDMDL) records; the models are the line ranges between model ends,
    the subunits the ranges between subunit ends inside a model, and each
    subunit takes the atom records whose line falls in its closed range. */
module PdbParser {
  import opened Wrappers
  import Text
  import opened Geometry
  import opened PdbConstants
  import opened PdbAtoms
  import ParsePdb

  // ---------------------------------------------------------------------
  // Records of one line.

  datatype PdbParseError = UnexpectedLineLength | MissingResidueId | InvalidAtomCoordinates

  /** `PDBAtomLine`: the 0-based line index, the residue id and residue
      name, and the element code with the position. */
  datatype AtomLine = AtomLine(line: nat, resId: int, resName: string, atom: ParsedAtom)

  /** A field with surrounding blanks trimmed: `trimmingCharacters(in: .whitespaces)`. */
  function Trimmed(line: string, r: ColumnRange): string
    requires r.start <= r.end <= |line|
  {
    Text.TrimBlanks(Slice(line, r))
  }

  /** The residue name contains `HOH`. */
  predicate IsWater(line: string)
    requires |line| >= ExpectedLineLength
  {
    Text.Contains(Trimmed(line, ResNameRange), "HOH")
  }

  /** The residue id, when its field parses. */
  function ResidueId(line: string, parseInt: string -> Option<int>): Option<int>
    requires |line| >= ExpectedLineLength
  {
    parseInt(Trimmed(line, ResIdRange))
  }

  /** The position written in the line, mirrored in z so that the
      left-handed projection keeps the molecule's chirality. */
  function Mirrored(p: Vec3): (q: Vec3)
    ensures q.x == p.x && q.y == p.y && q.z == -p.z
  {
    Vec3(p.x, p.y, -p.z)
  }

  /** The record of an accepted atom line: its index, residue id, trimmed
      residue name, element code and mirrored position. */
  function AtomRecord(line: string, lineIndex: nat, resId: int, p: Vec3, atomId: string -> nat): (a: AtomLine)
    requires |line| >= ExpectedLineLength
    ensures a.line == lineIndex && a.resId == resId
    ensures a.resName == Trimmed(line, ResNameRange) && a.atom.code == atomId(Trimmed(line, ElementRange))
    ensures a.atom.position == Mirrored(p)
  {
    AtomLine(lineIndex, resId, Trimmed(line, ResNameRange), ParsedAtom(atomId(Trimmed(line, ElementRange)), Mirrored(p)))
  }

  /** `parseAtom(line:lineIndex:)`: the length check, then the residue id,
      then water is dropped, then the three coordinates. */
  function ParseAtom(line: string, lineIndex: nat, parseReal: string -> Option<real>, parseInt: string -> Option<int>,
                     atomId: string -> nat): (r: Result<Option<AtomLine>, PdbParseError>)
    ensures |line| < ExpectedLineLength ==> r == Err(UnexpectedLineLength)
    ensures |line| >= ExpectedLineLength && ResidueId(line, parseInt).None? ==> r == Err(MissingResidueId)
    ensures |line| >= ExpectedLineLength && ResidueId(line, parseInt).Some? && IsWater(line) ==> r == Ok(None)
    ensures |line| >= ExpectedLineLength && ResidueId(line, parseInt).Some? && !IsWater(line) ==>
      r == match ReadPosition(line, parseReal)
      case None => Err(InvalidAtomCoordinates)
      case Some(p) => Ok(Some(AtomRecord(line, lineIndex, ResidueId(line, parseInt).value, p, atomId)))
    ensures r.Ok? && r.value.Some? ==> r.value.value.line == lineIndex
  {
    if |line| < ExpectedLineLength then Err(UnexpectedLineLength)
    else
      match ResidueId(line, parseInt)
      case None => Err(MissingResidueId)
      case Some(resId) =>
        if IsWater(line) then Ok(None)
        else
          match ReadPosition(line, parseReal)
          case None => Err(InvalidAtomCoordinates)
          case Some(p) => Ok(Some(AtomRecord(line, lineIndex, resId, p, atomId)))
  }

  /** A water residue is dropped before its coordinates are read, so a
      water line with unreadable coordinates is not an error, while any
      line with an unreadable residue id is one, water or not. */
  lemma WaterBeforeCoordinates(line: string, lineIndex: nat, parseReal: string -> Option<real>, parseInt: string -> Option<int>,
                               atomId: string -> nat)
    requires |line| >= ExpectedLineLength && IsWater(line)
    ensures ParseAtom(line, lineIndex, parseReal, parseInt, atomId) ==
      if ResidueId(line, parseInt).None? then Err(MissingResidueId) else Ok(None)
  {
  }

  /** `try? parseAtom(line:lineIndex:)`: the record, or none when the line
      threw or was water. */
  function TryParseAtom(line: string, lineIndex: nat, parseReal: string -> Option<real>, parseInt: string -> Option<int>,
                        atomId: string -> nat): (a: Option<AtomLine>)
    ensures var p := ParseAtom(line, lineIndex, parseReal, parseInt, atomId);
      && (a.Some? <==> p.Ok? && p.value.Some?)
      && (a.Some? ==> a == p.value && a.value.line == lineIndex)
  {
    var p := ParseAtom(line, lineIndex, parseReal, parseInt, atomId);
    if p.Ok? && p.value.Some? then p.value else None
  }

  /** How an atom line is read; the record scan below is stated for any
      reader and instantiated with `TryParseAtom`. */
  type AtomReader = (string, nat) -> Option<AtomLine>

  function Reader(parseReal: string -> Option<real>, parseInt: string -> Option<int>, atomId: string -> nat): AtomReader {
    (line: string, lineIndex: nat) => TryParseAtom(line, lineIndex, parseReal, parseInt, atomId)
  }

  /** The three lists a block of lines collects. */
  datatype Records = Records(atomRecords: seq<AtomLine>, modelEnds: seq<int>, subunitEnds: seq<int>)

  const NoRecords := Records([], [], [])

  /** `lhs += rhs` on blocks: each list extended by the other's. */
  function Merged(a: Records, b: Records): (m: Records)
    ensures |m.atomRecords| == |a.atomRecords| + |b.atomRecords|
    ensures |m.modelEnds| == |a.modelEnds| + |b.modelEnds| && |m.subunitEnds| == |a.subunitEnds| + |b.subunitEnds|
  {
    Records(a.atomRecords + b.atomRecords, a.modelEnds + b.modelEnds, a.subunitEnds + b.subunitEnds)
  }

  predicate IsAtomLine(line: string) {
    Text.StartsWith(line, AtomKeyword) || Text.StartsWith(line, HetatmKeyword)
  }

  /** `parseLine(line:lineIndex:in:)` as a function of the block before it:
      the atom read from an ATOM or HETATM line, if any, or the index of a
      TER or ENDMDL line, or nothing. */
  function LineStep(b: Records, line: string, lineIndex: nat, read: AtomReader): Records {
    if IsAtomLine(line) then
      match read(line, lineIndex)
      case Some(a) => b.(atomRecords := b.atomRecords + [a])
      case None => b
    else if Text.StartsWith(line, TerKeyword) then b.(subunitEnds := b.subunitEnds + [lineIndex])
    else if Text.StartsWith(line, EndmdlKeyword) then b.(modelEnds := b.modelEnds + [lineIndex])
    else b
  }

  /** The records of `lines`, numbered from `first`. */
  function Scan(lines: seq<string>, first: nat, read: AtomReader): Records
    decreases |lines|
  {
    if lines == [] then NoRecords
    else LineStep(Scan(lines[..|lines| - 1], first, read), lines[|lines| - 1], first + |lines| - 1, read)
  }

  // ---------------------------------------------------------------------
  // Properties of the record scan.

  /** Parsing two runs of lines separately and merging the blocks in order
      gives the records of the whole run: splitting the file into blocks
      of lines changes nothing. */
  lemma {:induction false} ScanSplit(a: seq<string>, b: seq<string>, first: nat, read: AtomReader)
    ensures Scan(a + b, first, read) == Merged(Scan(a, first, read), Scan(b, first + |a|, read))
    decreases |b|
  {
    if b == [] {
      assert a + b == a;
    } else {
      var b' := b[..|b| - 1];
      var line := b[|b| - 1];
      var n := first + |a| + |b| - 1;
      ScanSplit(a, b', first, read);
      assert (a + b)[..|a + b| - 1] == a + b';
      assert (a + b)[|a + b| - 1] == line;
      MergedLineStep(Scan(a, first, read), Scan(b', first + |a|, read), line, n, read);
    }
  }

  /** The scan of a prefix of the lines, split where a block starts. */
  lemma ScanPrefixSplit(lines: seq<string>, s: nat, e: nat, read: AtomReader)
    requires s <= e <= |lines|
    ensures Scan(lines[..e], 0, read) == Merged(Scan(lines[..s], 0, read), Scan(lines[s..e], s, read))
  {
    ScanSplit(lines[..s], lines[s..e], 0, read);
    assert lines[..s] + lines[s..e] == lines[..e];
  }

  /** One more line is one more step of the scan. */
  lemma ScanSnoc(pre: seq<string>, line: string, first: nat, read: AtomReader)
    ensures Scan(pre + [line], first, read) == LineStep(Scan(pre, first, read), line, first + |pre|, read)
  {
    assert (pre + [line])[..|pre|] == pre;
  }

  /** One more line of a slice is one more step of the scan. */
  lemma ScanSlice(lines: seq<string>, start: nat, i: nat, read: AtomReader)
    requires start <= i < |lines|
    ensures Scan(lines[start..i + 1], start, read) == LineStep(Scan(lines[start..i], start, read), lines[i], i, read)
  {
    assert lines[start..i + 1] == lines[start..i] + [lines[i]];
    ScanSnoc(lines[start..i], lines[i], start, read);
  }

  /** A line's records land at the end of whatever block they are merged into. */
  lemma MergedLineStep(x: Records, y: Records, line: string, lineIndex: nat, read: AtomReader)
    ensures Merged(x, LineStep(y, line, lineIndex, read)) == LineStep(Merged(x, y), line, lineIndex, read)
  {
    if IsAtomLine(line) {
      if read(line, lineIndex).Some? {
        var a := read(line, lineIndex).value;
        Text.SeqAssociative(x.atomRecords, y.atomRecords, [a]);
      }
    } else if Text.StartsWith(line, TerKeyword) {
      Text.SeqAssociative(x.subunitEnds, y.subunitEnds, [lineIndex]);
    } else if Text.StartsWith(line, EndmdlKeyword) {
      Text.SeqAssociative(x.modelEnds, y.modelEnds, [lineIndex]);
    }
  }

  predicate Increasing(xs: seq<int>) {
    forall j, k :: 0 <= j < k < |xs| ==> xs[j] < xs[k]
  }

  predicate LinesIncreasing(xs: seq<AtomLine>) {
    forall j, k :: 0 <= j < k < |xs| ==> xs[j].line < xs[k].line
  }

  /** A reader that is honest about line numbers: what it reads from line
      `i` is recorded as line `i`. */
  ghost predicate KeepsLine(read: AtomReader) {
    forall line, i :: read(line, i).Some? ==> read(line, i).value.line == i
  }

  /** The line indices of exactly the lines of `lines` (numbered from
      `first`) that start with `keyword`, in line order. */
  ghost predicate EndsMeaning(ends: seq<int>, lines: seq<string>, first: nat, keyword: string) {
    && Increasing(ends)
    && (forall t :: t in ends <==> first <= t < first + |lines| && Text.StartsWith(lines[t - first], keyword))
  }

  /** The record read from exactly the atom lines that read to one, in line
      order. */
  ghost predicate AtomsMeaning(records: seq<AtomLine>, lines: seq<string>, first: nat, read: AtomReader) {
    && LinesIncreasing(records)
    && (forall a :: a in records <==>
          first <= a.line < first + |lines| && IsAtomLine(lines[a.line - first]) &&
          read(lines[a.line - first], a.line) == Some(a))
  }

  /** What each list of the scan holds: the line indices of exactly the TER
      lines, of exactly the ENDMDL lines, and the record read from exactly
      the atom lines that read to one, each list in line order. */
  ghost predicate ScanMeaning(lines: seq<string>, first: nat, s: Records, read: AtomReader) {
    && EndsMeaning(s.subunitEnds, lines, first, TerKeyword)
    && EndsMeaning(s.modelEnds, lines, first, EndmdlKeyword)
    && AtomsMeaning(s.atomRecords, lines, first, read)
  }

  /** What one line adds to each list. */
  lemma LineStepLists(b: Records, line: string, lineIndex: nat, read: AtomReader)
    ensures var b' := LineStep(b, line, lineIndex, read);
      && b'.subunitEnds == b.subunitEnds + (if Text.StartsWith(line, TerKeyword) then [lineIndex] else [])
      && b'.modelEnds == b.modelEnds + (if Text.StartsWith(line, EndmdlKeyword) then [lineIndex] else [])
      && b'.atomRecords == b.atomRecords +
           (if IsAtomLine(line) && read(line, lineIndex).Some? then [read(line, lineIndex).value] else [])
  {
    RecordNamesExclusive(line);
    assert b.subunitEnds + [] == b.subunitEnds;
    assert b.modelEnds + [] == b.modelEnds;
    assert b.atomRecords + [] == b.atomRecords;
  }

  lemma EndsSnoc(ends: seq<int>, lines: seq<string>, first: nat, keyword: string, line: string)
    requires EndsMeaning(ends, lines, first, keyword)
    ensures EndsMeaning(ends + (if Text.StartsWith(line, keyword) then [first + |lines|] else []),
                        lines + [line], first, keyword)
  {
    var lines' := lines + [line];
    assert forall k :: 0 <= k < |lines| ==> lines'[k] == lines[k];
    assert forall j :: 0 <= j < |ends| ==> ends[j] in ends;
  }

  lemma AtomsSnoc(records: seq<AtomLine>, lines: seq<string>, first: nat, read: AtomReader, line: string)
    requires KeepsLine(read) && AtomsMeaning(records, lines, first, read)
    ensures var n := first + |lines|;
      AtomsMeaning(records + (if IsAtomLine(line) && read(line, n).Some? then [read(line, n).value] else []),
                   lines + [line], first, read)
  {
    var lines' := lines + [line];
    assert forall k :: 0 <= k < |lines| ==> lines'[k] == lines[k];
    assert forall j :: 0 <= j < |records| ==> records[j] in records;
  }

  /** Every record of the scan points back at the line it came from, in line
      order. In particular the lists are already sorted by line, which is
      what `sorted(by:)` restores after an out-of-order merge. */
  lemma {:induction false} ScanIsMeaningful(lines: seq<string>, first: nat, read: AtomReader)
    requires KeepsLine(read)
    ensures ScanMeaning(lines, first, Scan(lines, first, read), read)
    decreases |lines|
  {
    if lines != [] {
      var pre := lines[..|lines| - 1];
      var line := lines[|lines| - 1];
      assert lines == pre + [line];
      ScanIsMeaningful(pre, first, read);
      var s0 := Scan(pre, first, read);
      var s := Scan(lines, first, read);
      assert s == LineStep(s0, line, first + |pre|, read);
      LineStepLists(s0, line, first + |pre|, read);
      EndsSnoc(s0.subunitEnds, pre, first, TerKeyword, line);
      assert EndsMeaning(s.subunitEnds, lines, first, TerKeyword);
      EndsSnoc(s0.modelEnds, pre, first, EndmdlKeyword, line);
      assert EndsMeaning(s.modelEnds, lines, first, EndmdlKeyword);
      AtomsSnoc(s0.atomRecords, pre, first, read, line);
      assert AtomsMeaning(s.atomRecords, lines, first, read);
    }
  }

  /** The parser's reader records the line it read. */
  lemma ReaderKeepsLine(parseReal: string -> Option<real>, parseInt: string -> Option<int>, atomId: string -> nat)
    ensures KeepsLine(Reader(parseReal, parseInt, atomId))
  {
  }

  // ---------------------------------------------------------------------
  // The parsed block and the line parser.

  /** `ParsedBlock`: the records of a block of lines, appended to in place. */
  class ParsedBlock {
    var atomRecords: seq<AtomLine>
    var modelEndRecord: seq<int>
    var subunitEndRecords: seq<int>

    function Contents(): Records
      reads this
    {
      Records(atomRecords, modelEndRecord, subunitEndRecords)
    }

    constructor()
      ensures Contents() == NoRecords
    {
      atomRecords := [];
      modelEndRecord := [];
      subunitEndRecords := [];
    }

    /** `static func +=`: this block's lists extended by `rhs`'s. */
    method Append(rhs: ParsedBlock)
      modifies this
      ensures Contents() == Merged(old(Contents()), old(rhs.Contents()))
    {
      var atoms, models, subunits := rhs.atomRecords, rhs.modelEndRecord, rhs.subunitEndRecords;
      atomRecords := atomRecords + atoms;
      modelEndRecord := modelEndRecord + models;
      subunitEndRecords := subunitEndRecords + subunits;
    }
  }

  /** `parseLine(line:lineIndex:in:)`: a failed or water atom line adds
      nothing (`try?`), a TER or ENDMDL line adds its index. */
  method ParseLine(line: string, lineIndex: nat, block: ParsedBlock, parseReal: string -> Option<real>,
                   parseInt: string -> Option<int>, atomId: string -> nat)
    modifies block
    ensures block.Contents() == LineStep(old(block.Contents()), line, lineIndex, Reader(parseReal, parseInt, atomId))
  {
    if Text.StartsWith(line, AtomKeyword) || Text.StartsWith(line, HetatmKeyword) {
      var atom := TryParseAtom(line, lineIndex, parseReal, parseInt, atomId);
      if atom.Some? {
        block.atomRecords := block.atomRecords + [atom.value];
      }
    } else if Text.StartsWith(line, TerKeyword) {
      block.subunitEndRecords := block.subunitEndRecords + [lineIndex];
    } else if Text.StartsWith(line, EndmdlKeyword) {
      block.modelEndRecord := block.modelEndRecord + [lineIndex];
    }
  }

  /** `PDBParser.lineBlockSize`. */
  const LineBlockSize: nat := 1024

  /** `Int(ceil(Double(lineCount) / Double(lineBlockSize)))`: the fewest
      blocks that hold every line. */
  function BlockCount(lineCount: nat): (c: nat)
    ensures c * LineBlockSize >= lineCount
    ensures c > 0 ==> (c - 1) * LineBlockSize < lineCount
  {
    (lineCount + LineBlockSize - 1) / LineBlockSize
  }

  function Min(a: int, b: int): (m: int)
    ensures m <= a && m <= b && (m == a || m == b)
  {
    if a < b then a else b
  }

  /** One task of the group: the lines `start..<end` parsed into a fresh block. */
  method ParseBlock(rawLines: seq<string>, start: nat, end: nat, parseReal: string -> Option<real>,
                    parseInt: string -> Option<int>, atomId: string -> nat)
    returns (block: ParsedBlock)
    requires start <= end <= |rawLines|
    ensures fresh(block)
    ensures block.Contents() == Scan(rawLines[start..end], start, Reader(parseReal, parseInt, atomId))
  {
    block := new ParsedBlock();
    var lineIndex := start;
    while lineIndex < end
      invariant start <= lineIndex <= end
      invariant block.Contents() == Scan(rawLines[start..lineIndex], start, Reader(parseReal, parseInt, atomId))
    {
      ScanSlice(rawLines, start, lineIndex, Reader(parseReal, parseInt, atomId));
      ParseLine(rawLines[lineIndex], lineIndex, block, parseReal, parseInt, atomId);
      lineIndex := lineIndex + 1;
    }
  }

  /** The `TaskGroup` and the reduction, run one block after the other and
      merged in block order: the merged block holds the records of the
      whole file. */
  method ParseBlocks(rawLines: seq<string>, parseReal: string -> Option<real>, parseInt: string -> Option<int>,
                     atomId: string -> nat)
    returns (merged: Records)
    ensures merged == Scan(rawLines, 0, Reader(parseReal, parseInt, atomId))
  {
    var lineCount := |rawLines|;
    var blockCount := BlockCount(lineCount);
    var mergedBlocks := new ParsedBlock();
    var blockIndex := 0;
    while blockIndex < blockCount
      invariant 0 <= blockIndex <= blockCount
      invariant mergedBlocks.Contents() ==
        Scan(rawLines[..Min(blockIndex * LineBlockSize, lineCount)], 0, Reader(parseReal, parseInt, atomId))
    {
      var startingLine := blockIndex * LineBlockSize;
      assert startingLine < lineCount by {
        assert blockIndex <= blockCount - 1;
        assert blockIndex * LineBlockSize <= (blockCount - 1) * LineBlockSize;
      }
      var endingLine := Min(startingLine + LineBlockSize, lineCount);
      var parsedBlock := ParseBlock(rawLines, startingLine, endingLine, parseReal, parseInt, atomId);
      ScanPrefixSplit(rawLines, startingLine, endingLine, Reader(parseReal, parseInt, atomId));
      mergedBlocks.Append(parsedBlock);
      blockIndex := blockIndex + 1;
    }
    assert rawLines[..lineCount] == rawLines;
    merged := mergedBlocks.Contents();
  }

  // ---------------------------------------------------------------------
  // Models and subunits as line ranges.

  /** A closed range of line indices, `startLine...endLine`, as
      `ParsedModel` and `ParsedSubunit` hold them. */
  datatype LineRange = LineRange(startLine: int, endLine: int)

  predicate InRange(l: int, r: LineRange) {
    r.startLine <= l <= r.endLine
  }

  /** Consecutive ranges, one ending at each of `ends`, the first starting
      right after `prev` and each later one right after the previous end. */
  function Chain(prev: int, ends: seq<int>): (rs: seq<LineRange>)
    ensures |rs| == |ends|
    decreases |ends|
  {
    if ends == [] then [] else [LineRange(prev + 1, ends[0])] + Chain(ends[0], ends[1..])
  }

  /** The `k`-th chained range ends at the `k`-th end and starts right
      after the one before it (after `prev` for the first). */
  lemma {:induction false} ChainShape(prev: int, ends: seq<int>)
    ensures forall k :: 0 <= k < |ends| ==> Chain(prev, ends)[k].endLine == ends[k]
    ensures forall k :: 0 <= k < |ends| ==> Chain(prev, ends)[k].startLine == (if k == 0 then prev else ends[k - 1]) + 1
    decreases |ends|
  {
    if ends != [] {
      ChainShape(ends[0], ends[1..]);
    }
  }

  /** The models of a file with `lineCount` lines and the given sorted
      ENDMDL lines: one model over the whole file when there is no ENDMDL. */
  function ModelRanges(modelEnds: seq<int>, lineCount: nat): (r: seq<LineRange>)
    ensures |r| == if modelEnds == [] then 1 else |modelEnds|
    ensures modelEnds == [] ==> r[0].startLine == 0 && r[0].endLine == lineCount - 1
    ensures forall k :: 0 <= k < |modelEnds| ==> r[k].endLine == modelEnds[k]
    ensures modelEnds != [] ==> r[0].startLine == 1
    ensures forall k :: 0 < k < |modelEnds| ==> r[k].startLine == modelEnds[k - 1] + 1
  {
    if modelEnds == [] then [LineRange(0, lineCount - 1)]
    else
      ChainShape(0, modelEnds);
      Chain(0, modelEnds)
  }

  /** The TER lines inside a model, in order. */
  function TersIn(ters: seq<int>, m: LineRange): (r: seq<int>)
    ensures forall t :: t in r <==> t in ters && InRange(t, m)
    ensures Increasing(ters) ==> Increasing(r)
    decreases |ters|
  {
    if ters == [] then []
    else
      var rest := TersIn(ters[1..], m);
      var r := (if InRange(ters[0], m) then [ters[0]] else []) + rest;
      assert Increasing(ters) ==> Increasing(r) by {
        if Increasing(ters) {
          assert forall t :: t in ters[1..] ==> ters[0] < t;
          assert forall k :: 0 <= k < |rest| ==> rest[k] in rest;
        }
      }
      r
  }

  /** The subunits of a model given the file's sorted TER lines: the model
      itself when the file has no TER, otherwise one range per TER inside
      the model, the first starting right after the model's first line. */
  function SubunitRanges(m: LineRange, ters: seq<int>): seq<LineRange> {
    if ters == [] then [m] else Chain(m.startLine, TersIn(ters, m))
  }

  /** Some range of `rs` holds line `l`. */
  ghost predicate Covered(l: int, rs: seq<LineRange>) {
    exists k :: 0 <= k < |rs| && InRange(l, rs[k])
  }

  /** No line lies in two ranges of `rs`. */
  ghost predicate NoOverlap(rs: seq<LineRange>) {
    forall j, k, l :: 0 <= j < k < |rs| && InRange(l, rs[j]) ==> !InRange(l, rs[k])
  }

  /** A line lies in one of the chained ranges exactly when it lies after
      `prev` and no later than the last end. */
  lemma {:induction false} ChainCovers(prev: int, ends: seq<int>, l: int)
    requires Increasing(ends) && (ends != [] ==> prev <= ends[0])
    ensures Covered(l, Chain(prev, ends)) <==> ends != [] && prev < l <= ends[|ends| - 1]
    decreases |ends|
  {
    if ends != [] {
      var rs := Chain(prev, ends);
      var rest := ends[1..];
      ChainCovers(ends[0], rest, l);
      assert rs == [LineRange(prev + 1, ends[0])] + Chain(ends[0], rest);
      assert ends[0] <= ends[|ends| - 1];
      assert rest != [] ==> rest[|rest| - 1] == ends[|ends| - 1];
      if prev < l <= ends[|ends| - 1] {
        if l <= ends[0] {
          assert InRange(l, rs[0]);
        } else {
          var k :| 0 <= k < |rest| && InRange(l, Chain(ends[0], rest)[k]);
          assert InRange(l, rs[k + 1]);
        }
      }
      if Covered(l, rs) {
        var k :| 0 <= k < |ends| && InRange(l, rs[k]);
        if k > 0 {
          assert InRange(l, Chain(ends[0], rest)[k - 1]);
        }
      }
    }
  }

  /** Chained ranges over increasing ends do not overlap. */
  lemma ChainDisjoint(prev: int, ends: seq<int>)
    requires Increasing(ends)
    ensures NoOverlap(Chain(prev, ends))
  {
    ChainShape(prev, ends);
  }

  /** Models as the source builds them: with no ENDMDL, every line of the
      file is in the one model; otherwise exactly the lines from 1 to the
      last ENDMDL are in a model (line 0 and anything after the last
      ENDMDL belong to none), and no line is in two models. */
  lemma ModelCoverage(modelEnds: seq<int>, lineCount: nat, l: int)
    requires Increasing(modelEnds) && forall t :: t in modelEnds ==> 0 <= t
    ensures Covered(l, ModelRanges(modelEnds, lineCount)) <==>
      if modelEnds == [] then 0 <= l < lineCount else 1 <= l <= modelEnds[|modelEnds| - 1]
    ensures NoOverlap(ModelRanges(modelEnds, lineCount))
  {
    if modelEnds == [] {
      assert InRange(l, ModelRanges(modelEnds, lineCount)[0]) <==> 0 <= l < lineCount;
    } else {
      assert modelEnds[0] in modelEnds;
      ChainCovers(0, modelEnds, l);
      ChainDisjoint(0, modelEnds);
    }
  }

  /** Subunits as the source builds them: with no TER in the file a model's
      subunit is the model; otherwise a line is in one of a model's
      subunits exactly when it lies after the model's first line and no
      later than the model's last TER, so a model without TER gets no
      subunit and the atoms after its last TER none. Subunit lines are
      model lines, and no line is in two subunits. */
  lemma SubunitCoverage(m: LineRange, ters: seq<int>, l: int)
    requires Increasing(ters)
    ensures ters == [] ==> SubunitRanges(m, ters) == [m]
    ensures ters != [] ==>
      (Covered(l, SubunitRanges(m, ters)) <==>
       TersIn(ters, m) != [] && m.startLine < l <= TersIn(ters, m)[|TersIn(ters, m)| - 1])
    ensures Covered(l, SubunitRanges(m, ters)) ==> InRange(l, m)
    ensures NoOverlap(SubunitRanges(m, ters))
  {
    if ters == [] {
      if Covered(l, [m]) {
        var k :| 0 <= k < 1 && InRange(l, [m][k]);
      }
    } else {
      ChainInModel(m, TersIn(ters, m), l);
    }
  }

  /** The chain of a model's TER lines covers lines of the model only. */
  lemma ChainInModel(m: LineRange, inside: seq<int>, l: int)
    requires Increasing(inside) && forall t :: t in inside ==> InRange(t, m)
    ensures Covered(l, Chain(m.startLine, inside)) <==> inside != [] && m.startLine < l <= inside[|inside| - 1]
    ensures Covered(l, Chain(m.startLine, inside)) ==> InRange(l, m)
    ensures NoOverlap(Chain(m.startLine, inside))
  {
    if inside != [] {
      assert inside[0] in inside;
      assert inside[|inside| - 1] in inside;
    }
    ChainCovers(m.startLine, inside, l);
    ChainDisjoint(m.startLine, inside);
  }

  /** The model loop: `ParsedModel(startLine: lastModelStart + 1, endLine:)`
      for each sorted ENDMDL line, or one model over all lines. */
  method BuildModelRanges(sortedModelRecords: seq<int>, lineCount: nat) returns (parsedModels: seq<LineRange>)
    ensures parsedModels == ModelRanges(sortedModelRecords, lineCount)
  {
    if |sortedModelRecords| == 0 {
      parsedModels := [LineRange(0, lineCount - 1)];
      return;
    }
    parsedModels := [];
    var lastModelStart := 0;
    var i := 0;
    assert sortedModelRecords[i..] == sortedModelRecords;
    while i < |sortedModelRecords|
      invariant 0 <= i <= |sortedModelRecords|
      invariant parsedModels + Chain(lastModelStart, sortedModelRecords[i..]) == Chain(0, sortedModelRecords)
    {
      var modelRecord := sortedModelRecords[i];
      assert sortedModelRecords[i..][1..] == sortedModelRecords[i + 1..];
      parsedModels := parsedModels + [LineRange(lastModelStart + 1, modelRecord)];
      lastModelStart := modelRecord;
      i := i + 1;
    }
  }

  /** The TER lines of a model from position `i` on: the one at `i`, if
      inside, then those after it. */
  lemma TersInFrom(ters: seq<int>, i: nat, m: LineRange)
    requires i < |ters|
    ensures TersIn(ters[i..], m) == (if InRange(ters[i], m) then [ters[i]] else []) + TersIn(ters[i + 1..], m)
  {
    assert ters[i..][1..] == ters[i + 1..];
  }

  lemma ChainCons(prev: int, t: int, ends: seq<int>)
    ensures Chain(prev, [t] + ends) == [LineRange(prev + 1, t)] + Chain(t, ends)
  {
    assert ([t] + ends)[1..] == ends;
  }

  /** The inner TER loop for one model. */
  method SubunitsInModel(model: LineRange, sortedSubunitRecords: seq<int>) returns (subunits: seq<LineRange>)
    ensures subunits == Chain(model.startLine, TersIn(sortedSubunitRecords, model))
  {
    subunits := [];
    var lastSubunitStart := model.startLine;
    var i := 0;
    assert sortedSubunitRecords[i..] == sortedSubunitRecords;
    while i < |sortedSubunitRecords|
      invariant 0 <= i <= |sortedSubunitRecords|
      invariant subunits + Chain(lastSubunitStart, TersIn(sortedSubunitRecords[i..], model)) ==
        Chain(model.startLine, TersIn(sortedSubunitRecords, model))
    {
      var subunitRecord := sortedSubunitRecords[i];
      TersInFrom(sortedSubunitRecords, i, model);
      ghost var later := TersIn(sortedSubunitRecords[i + 1..], model);
      if subunitRecord >= model.startLine && subunitRecord <= model.endLine {
        assert TersIn(sortedSubunitRecords[i..], model) == [subunitRecord] + later;
        ChainCons(lastSubunitStart, subunitRecord, later);
        var r := LineRange(lastSubunitStart + 1, subunitRecord);
        Text.SeqAssociative(subunits, [r], Chain(subunitRecord, later));
        subunits := subunits + [r];
        lastSubunitStart := subunitRecord;
      } else {
        assert [] + later == later;
      }
      i := i + 1;
    }
    assert sortedSubunitRecords[i..] == [];
    assert subunits + [] == subunits;
  }

  /** The subunit loops over every model. */
  method BuildSubunitRanges(parsedModels: seq<LineRange>, sortedSubunitRecords: seq<int>)
    returns (subunits: seq<seq<LineRange>>)
    ensures |subunits| == |parsedModels|
    ensures forall k :: 0 <= k < |parsedModels| ==> subunits[k] == SubunitRanges(parsedModels[k], sortedSubunitRecords)
  {
    subunits := [];
    var i := 0;
    while i < |parsedModels|
      invariant 0 <= i <= |parsedModels| && |subunits| == i
      invariant forall k :: 0 <= k < i ==> subunits[k] == SubunitRanges(parsedModels[k], sortedSubunitRecords)
    {
      var model := parsedModels[i];
      if |sortedSubunitRecords| == 0 {
        subunits := subunits + [[model]];
      } else {
        var modelSubunits := SubunitsInModel(model, sortedSubunitRecords);
        subunits := subunits + [modelSubunits];
      }
      i := i + 1;
    }
  }

  // ---------------------------------------------------------------------
  // Atom assignment and the final models.

  /** `atomRecords.filter { startLine <= $0.line <= endLine }`: the atom
      records of a subunit's closed range, in merged order. */
  function AtomsIn(records: seq<AtomLine>, r: LineRange): (xs: seq<AtomLine>)
    ensures forall a :: a in xs <==> a in records && InRange(a.line, r)
    ensures |xs| <= |records|
    decreases |records|
  {
    if records == [] then []
    else (if InRange(records[0].line, r) then [records[0]] else []) + AtomsIn(records[1..], r)
  }

  /** How often a record occurs among a subunit's atoms: as often as among
      all records when it lies in the range, never otherwise. */
  lemma {:induction false} AtomsInCount(records: seq<AtomLine>, r: LineRange, a: AtomLine)
    ensures multiset(AtomsIn(records, r))[a] == if InRange(a.line, r) then multiset(records)[a] else 0
    decreases |records|
  {
    if records != [] {
      AtomsInCount(records[1..], r, a);
      assert records == [records[0]] + records[1..];
    }
  }

  /** A subunit's atoms, as a multiset, do not depend on the order in which
      the parsed blocks were merged. */
  lemma AtomsInMergeOrder(xs: seq<AtomLine>, ys: seq<AtomLine>, r: LineRange)
    requires multiset(xs) == multiset(ys)
    ensures multiset(AtomsIn(xs, r)) == multiset(AtomsIn(ys, r))
  {
    forall a ensures multiset(AtomsIn(xs, r))[a] == multiset(AtomsIn(ys, r))[a] {
      AtomsInCount(xs, r, a);
      AtomsInCount(ys, r, a);
    }
  }

  /** The records appended to a model, subunit by subunit. */
  function ModelRecords(records: seq<AtomLine>, subunits: seq<LineRange>): seq<AtomLine>
    decreases |subunits|
  {
    if subunits == [] then []
    else ModelRecords(records, subunits[..|subunits| - 1]) + AtomsIn(records, subunits[|subunits| - 1])
  }

  /** A model holds exactly the records that lie in one of its subunits. */
  lemma {:induction false} ModelRecordsMembers(records: seq<AtomLine>, subunits: seq<LineRange>, a: AtomLine)
    ensures a in ModelRecords(records, subunits) <==> a in records && Covered(a.line, subunits)
    decreases |subunits|
  {
    if subunits != [] {
      var pre := subunits[..|subunits| - 1];
      ModelRecordsMembers(records, pre, a);
      if Covered(a.line, subunits) && a in records {
        var k :| 0 <= k < |subunits| && InRange(a.line, subunits[k]);
        if k < |pre| {
          assert InRange(a.line, pre[k]);
        }
      }
      if a in records && Covered(a.line, pre) {
        var k :| 0 <= k < |pre| && InRange(a.line, pre[k]);
        assert InRange(a.line, subunits[k]);
      }
    }
  }

  /** The `(type, position)` pairs and the residues of a run of records. */
  function AtomsOf(ls: seq<AtomLine>): (xs: seq<ParsedAtom>)
    ensures |xs| == |ls| && forall k :: 0 <= k < |ls| ==> xs[k] == ls[k].atom
  {
    seq(|ls|, k requires 0 <= k < |ls| => ls[k].atom)
  }

  function ResiduesOf(ls: seq<AtomLine>): (rs: seq<string>)
    ensures |rs| == |ls| && forall k :: 0 <= k < |ls| ==> rs[k] == ls[k].resName
  {
    seq(|ls|, k requires 0 <= k < |ls| => ls[k].resName)
  }

  lemma ViewsAppend(xs: seq<AtomLine>, ys: seq<AtomLine>)
    ensures AtomsOf(xs + ys) == AtomsOf(xs) + AtomsOf(ys)
    ensures ResiduesOf(xs + ys) == ResiduesOf(xs) + ResiduesOf(ys)
  {
  }

  /** The record loop of one subunit: each record's position, residue and
      type appended. */
  method AppendRecords(atoms: seq<ParsedAtom>, atomResType: seq<string>, subunitRecords: seq<AtomLine>)
    returns (atoms': seq<ParsedAtom>, atomResType': seq<string>)
    ensures atoms' == atoms + AtomsOf(subunitRecords)
    ensures atomResType' == atomResType + ResiduesOf(subunitRecords)
  {
    atoms', atomResType' := atoms, atomResType;
    var j := 0;
    while j < |subunitRecords|
      invariant 0 <= j <= |subunitRecords|
      invariant atoms' == atoms + AtomsOf(subunitRecords[..j])
      invariant atomResType' == atomResType + ResiduesOf(subunitRecords[..j])
    {
      var record := subunitRecords[j];
      assert subunitRecords[..j + 1] == subunitRecords[..j] + [record];
      ViewsAppend(subunitRecords[..j], [record]);
      atoms' := atoms' + [record.atom];
      atomResType' := atomResType' + [record.resName];
      j := j + 1;
    }
    assert subunitRecords[..j] == subunitRecords;
  }

  /** The assignment task of one model: every subunit takes the records of
      its range, and its atom count is their number. */
  method AssignAtoms(records: seq<AtomLine>, subunits: seq<LineRange>)
    returns (atoms: seq<ParsedAtom>, atomResType: seq<string>, atomCounts: seq<nat>)
    ensures atoms == AtomsOf(ModelRecords(records, subunits))
    ensures atomResType == ResiduesOf(ModelRecords(records, subunits))
    ensures |atomCounts| == |subunits|
    ensures forall k :: 0 <= k < |subunits| ==> atomCounts[k] == |AtomsIn(records, subunits[k])|
  {
    atoms, atomResType, atomCounts := [], [], [];
    var i := 0;
    while i < |subunits|
      invariant 0 <= i <= |subunits| && |atomCounts| == i
      invariant atoms == AtomsOf(ModelRecords(records, subunits[..i]))
      invariant atomResType == ResiduesOf(ModelRecords(records, subunits[..i]))
      invariant forall k :: 0 <= k < i ==> atomCounts[k] == |AtomsIn(records, subunits[k])|
    {
      var subunitRecords := AtomsIn(records, subunits[i]);
      assert subunits[..i + 1][..i] == subunits[..i];
      ViewsAppend(ModelRecords(records, subunits[..i]), subunitRecords);
      atoms, atomResType := AppendRecords(atoms, atomResType, subunitRecords);
      atomCounts := atomCounts + [|subunitRecords|];
      i := i + 1;
    }
    assert subunits[..i] == subunits;
  }

  /** Sum of a list of counts. */
  function Sum(xs: seq<nat>): nat
    decreases |xs|
  {
    if xs == [] then 0 else Sum(xs[..|xs| - 1]) + xs[|xs| - 1]
  }

  /** The final subunit loop: ids 0, 1, 2, … in order, each starting where
      the atoms of the subunits before it end. */
  method FinalSubunits(atomCounts: seq<nat>) returns (finalSubunits: seq<ParsePdb.Subunit>)
    ensures |finalSubunits| == |atomCounts|
    ensures forall k :: 0 <= k < |atomCounts| ==>
      finalSubunits[k] == ParsePdb.Subunit(k, atomCounts[k], Sum(atomCounts[..k]))
  {
    finalSubunits := [];
    var subunitIndex := 0;
    var atomIndex := 0;
    while subunitIndex < |atomCounts|
      invariant 0 <= subunitIndex <= |atomCounts| && |finalSubunits| == subunitIndex
      invariant atomIndex == Sum(atomCounts[..subunitIndex])
      invariant forall k :: 0 <= k < subunitIndex ==>
        finalSubunits[k] == ParsePdb.Subunit(k, atomCounts[k], Sum(atomCounts[..k]))
    {
      assert atomCounts[..subunitIndex + 1][..subunitIndex] == atomCounts[..subunitIndex];
      finalSubunits := finalSubunits + [ParsePdb.Subunit(subunitIndex, atomCounts[subunitIndex], atomIndex)];
      atomIndex := atomIndex + atomCounts[subunitIndex];
      subunitIndex := subunitIndex + 1;
    }
  }

  /** Numbered subunits with running start indices tile `0..<Sum(counts)`. */
  lemma NumberedPacked(atomCounts: seq<nat>, subs: seq<ParsePdb.Subunit>)
    requires |subs| == |atomCounts|
    requires forall k :: 0 <= k < |atomCounts| ==> subs[k] == ParsePdb.Subunit(k, atomCounts[k], Sum(atomCounts[..k]))
    ensures ParsePdb.Packed(subs, Sum(atomCounts))
  {
    forall k | 0 <= k < |subs| - 1
      ensures subs[k + 1].indexStart == subs[k].indexStart + subs[k].atomCount
    {
      assert atomCounts[..k + 1][..k] == atomCounts[..k];
    }
    if subs != [] {
      var n := |subs| - 1;
      assert atomCounts[..n + 1] == atomCounts;
      assert atomCounts[..n + 1][..n] == atomCounts[..n];
      assert atomCounts[..0] == [];
    }
  }

  /** The records of a model are as many as its subunits' atom counts sum to. */
  lemma {:induction false} ModelRecordsCount(records: seq<AtomLine>, subunits: seq<LineRange>, atomCounts: seq<nat>)
    requires |atomCounts| == |subunits|
    requires forall k :: 0 <= k < |subunits| ==> atomCounts[k] == |AtomsIn(records, subunits[k])|
    ensures |ModelRecords(records, subunits)| == Sum(atomCounts)
    decreases |subunits|
  {
    if subunits != [] {
      var n := |subunits| - 1;
      ModelRecordsCount(records, subunits[..n], atomCounts[..n]);
    }
  }

  /** A `Protein` of this reader: one configuration, no energies. */
  datatype PdbModel = PdbModel(
    configurationCount: nat, configurationEnergies: Option<seq<real>>,
    subunitCount: nat, subunits: seq<ParsePdb.Subunit>,
    atoms: seq<Vec3>, composition: Tally, atomIdentifiers: seq<nat>, atomResidues: seq<string>)

  /** The protein the source builds for model `m`. */
  function ModelProtein(records: seq<AtomLine>, ters: seq<int>, m: LineRange): PdbModel {
    var subs := SubunitRanges(m, ters);
    var recs := ModelRecords(records, subs);
    var xs := AtomsOf(recs);
    PdbModel(1, None, |subs|, NumberedSubunits(records, subs), Positions(xs), ParsePdb.TallyOfAtoms(xs), Codes(xs),
             ResiduesOf(recs))
  }

  /** The numbered subunit list of a model. */
  function NumberedSubunits(records: seq<AtomLine>, subs: seq<LineRange>): seq<ParsePdb.Subunit> {
    seq(|subs|, k requires 0 <= k < |subs| =>
      ParsePdb.Subunit(k, |AtomsIn(records, subs[k])|, Sum(AtomCounts(records, subs)[..k])))
  }

  function AtomCounts(records: seq<AtomLine>, subs: seq<LineRange>): seq<nat> {
    seq(|subs|, k requires 0 <= k < |subs| => |AtomsIn(records, subs[k])|)
  }

  /** One model's protein: the subunit loop, the assignment and the final
      subunit list. */
  method BuildProtein(records: seq<AtomLine>, ters: seq<int>, model: LineRange, modelSubunits: seq<LineRange>)
    returns (protein: PdbModel)
    requires modelSubunits == SubunitRanges(model, ters)
    ensures protein == ModelProtein(records, ters, model)
  {
    var atoms, atomResType, atomCounts := AssignAtoms(records, modelSubunits);
    var finalSubunits := FinalSubunits(atomCounts);
    assert atomCounts == AtomCounts(records, modelSubunits);
    protein := PdbModel(1, None, |finalSubunits|, finalSubunits, Positions(atoms), ParsePdb.TallyOfAtoms(atoms),
                        Codes(atoms), atomResType);
  }

  /** The proteins of the model ranges `ms`, in order. */
  function ModelProteins(records: seq<AtomLine>, ters: seq<int>, ms: seq<LineRange>): (ps: seq<PdbModel>)
    ensures |ps| == |ms|
  {
    if ms == [] then [] else ModelProteins(records, ters, ms[..|ms| - 1]) + [ModelProtein(records, ters, ms[|ms| - 1])]
  }

  /** Protein `k` of the list is the protein of model range `k`. */
  lemma {:induction false} ModelProteinsAt(records: seq<AtomLine>, ters: seq<int>, ms: seq<LineRange>, k: nat)
    requires k < |ms|
    ensures ModelProteins(records, ters, ms)[k] == ModelProtein(records, ters, ms[k])
    decreases |ms|
  {
    var pre := ms[..|ms| - 1];
    var ps := ModelProteins(records, ters, pre);
    assert ModelProteins(records, ters, ms) == ps + [ModelProtein(records, ters, ms[|ms| - 1])];
    if k < |pre| {
      ModelProteinsAt(records, ters, pre, k);
      assert pre[k] == ms[k];
      assert (ps + [ModelProtein(records, ters, ms[|ms| - 1])])[k] == ps[k];
    } else {
      assert k == |ps|;
    }
  }

  /** The model loop of the assembly: one protein per model range, in order. */
  method BuildProteins(records: seq<AtomLine>, ters: seq<int>, parsedModels: seq<LineRange>, subunits: seq<seq<LineRange>>)
    returns (finalProteins: seq<PdbModel>)
    requires |subunits| == |parsedModels|
    requires forall k :: 0 <= k < |parsedModels| ==> subunits[k] == SubunitRanges(parsedModels[k], ters)
    ensures finalProteins == ModelProteins(records, ters, parsedModels)
  {
    finalProteins := [];
    var i := 0;
    while i < |parsedModels|
      invariant 0 <= i <= |parsedModels|
      invariant finalProteins == ModelProteins(records, ters, parsedModels[..i])
    {
      var protein := BuildProtein(records, ters, parsedModels[i], subunits[i]);
      assert parsedModels[..i + 1][..i] == parsedModels[..i];
      finalProteins := finalProteins + [protein];
      i := i + 1;
    }
    assert parsedModels[..i] == parsedModels;
  }

  /** Each model's protein: subunits numbered 0, 1, 2, … that tile the atom
      array, atom count of each the number of records in its range, arrays
      aligned index for index, and a composition that counts every atom. */
  lemma ModelProteinShape(records: seq<AtomLine>, ters: seq<int>, m: LineRange)
    ensures var p := ModelProtein(records, ters, m);
      && p.configurationCount == 1 && p.configurationEnergies.None?
      && p.subunitCount == |p.subunits| == |SubunitRanges(m, ters)|
      && (forall k :: 0 <= k < |p.subunits| ==> p.subunits[k].id == k)
      && (forall k :: 0 <= k < |p.subunits| ==> p.subunits[k].atomCount == |AtomsIn(records, SubunitRanges(m, ters)[k])|)
      && ParsePdb.Packed(p.subunits, |p.atoms|)
      && |p.atoms| == |p.atomIdentifiers| == |p.atomResidues|
      && TotalCount(p.composition) == |p.atoms|
  {
    var subs := SubunitRanges(m, ters);
    var recs := ModelRecords(records, subs);
    var xs := AtomsOf(recs);
    var p := ModelProtein(records, ters, m);
    assert p == PdbModel(1, None, |subs|, NumberedSubunits(records, subs), Positions(xs), ParsePdb.TallyOfAtoms(xs),
                         Codes(xs), ResiduesOf(recs));
    NumberedSubunitsShape(records, subs);
    ParsePdb.TallyOfAtomsTotal(xs);
  }

  /** The numbered subunits of a model tile its records. */
  lemma NumberedSubunitsShape(records: seq<AtomLine>, subs: seq<LineRange>)
    ensures var ns := NumberedSubunits(records, subs);
      && |ns| == |subs|
      && (forall k :: 0 <= k < |ns| ==> ns[k].id == k && ns[k].atomCount == |AtomsIn(records, subs[k])|)
      && ParsePdb.Packed(ns, |ModelRecords(records, subs)|)
  {
    var counts := AtomCounts(records, subs);
    var ns := NumberedSubunits(records, subs);
    NumberedPacked(counts, ns);
    ModelRecordsCount(records, subs, counts);
  }

  /** `ProteinFile` as this reader returns it. */
  datatype FileType = StaticStructure
  datatype ProteinFile = ProteinFile(fileType: FileType, fileName: string, fileExtension: string,
                                     models: seq<PdbModel>, byteSize: Option<int>)

  /** The proteins of a file: one per model range. */
  function FileModels(rawLines: seq<string>, read: AtomReader): (r: seq<PdbModel>)
    ensures |r| >= 1
    ensures |r| == |ModelRanges(Scan(rawLines, 0, read).modelEnds, |rawLines|)|
  {
    var s := Scan(rawLines, 0, read);
    var ms := ModelRanges(s.modelEnds, |rawLines|);
    ModelProteins(s.atomRecords, s.subunitEnds, ms)
  }

  /** `parsePDB(…)`: the non-empty lines split at `\n`, parsed into one
      merged block, cut into models and subunits and assembled; the file's
      name and extension are the placeholders the source writes. */
  method ParsePdbFile(rawText: string, byteSize: Option<int>, parseReal: string -> Option<real>,
                     parseInt: string -> Option<int>, atomId: string -> nat)
    returns (file: ProteinFile)
    ensures file.fileType == StaticStructure && file.fileName == "TODO" && file.fileExtension == "TODO"
    ensures file.byteSize == byteSize
    ensures file.models == FileModels(Text.Split(rawText, '\n'), Reader(parseReal, parseInt, atomId))
  {
    var rawLines := Text.Split(rawText, '\n');
    var mergedBlocks := ParseBlocks(rawLines, parseReal, parseInt, atomId);
    // The merged lists are in line order, so sorting them by line leaves them as they are.
    var sortedModelRecords := mergedBlocks.modelEnds;
    var sortedSubunitRecords := mergedBlocks.subunitEnds;
    var parsedModels := BuildModelRanges(sortedModelRecords, |rawLines|);
    var subunits := BuildSubunitRanges(parsedModels, sortedSubunitRecords);
    var finalProteins := BuildProteins(mergedBlocks.atomRecords, sortedSubunitRecords, parsedModels, subunits);
    file := ProteinFile(StaticStructure, "TODO", "TODO", finalProteins, byteSize);
  }
}
