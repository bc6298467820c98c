/** The file-source view's model: the lines of the imported file are shown
    in batches of 200, and the next batch is fetched when the row 50 lines
    before the end of the loaded ones appears. `loadedLines` is optional in
    the source but set to an empty list by the initialiser and never reset,
    so it is a plain list here. */
module FileSource {
  import opened Wrappers

  const BatchSize: nat := 200
  const PrefetchDistance: nat := 50

  /** `ProteinFileInfo` as far as this view reads it: the optional source
      lines and the 1-based numbers of the lines that raised warnings. */
  datatype SourceInfo = SourceInfo(sourceLines: SourceLines, warningIndices: seq<int>)
  datatype SourceLines = NoLines | Lines(lines: seq<string>)

  function Min(a: int, b: int): int {
    if a < b then a else b
  }

  class FileSourceViewModel {
    const fileInfo: Option<SourceInfo>
    var batchCount: nat
    var loadedLines: seq<string>

    /** The loaded lines are the first `batchCount` batches, the last one
        possibly short; without source lines nothing is loaded. */
    ghost predicate Valid()
      reads this
    {
      if fileInfo.Some? && fileInfo.value.sourceLines.Lines? then
        var lines := fileInfo.value.sourceLines.lines;
        loadedLines == lines[..Min(BatchSize * batchCount, |lines|)]
      else
        loadedLines == [] && batchCount == 0
    }

    /** `init(fileInfo:)`: the first batch, or as many lines as there are
        when fewer, and one batch counted; nothing without source lines. */
    constructor (fileInfo: Option<SourceInfo>)
      ensures Valid()
      ensures this.fileInfo == fileInfo
      ensures fileInfo.Some? && fileInfo.value.sourceLines.Lines? ==>
        && batchCount == 1
        && loadedLines == fileInfo.value.sourceLines.lines[..Min(BatchSize, |fileInfo.value.sourceLines.lines|)]
      ensures !(fileInfo.Some? && fileInfo.value.sourceLines.Lines?) ==> batchCount == 0 && loadedLines == []
    {
      this.fileInfo := fileInfo;
      loadedLines := [];
      batchCount := 0;
      new;
      if fileInfo.None? {
        return;
      }
      if fileInfo.value.sourceLines.NoLines? {
        return;
      }
      var sourceLines := fileInfo.value.sourceLines.lines;
      loadedLines := loadedLines + sourceLines[0..Min(BatchSize, |sourceLines|)];
      batchCount := batchCount + 1;
    }

    /** `shouldLoadMore(index:)`. */
    predicate ShouldLoadMore(index: int)
      reads this
    {
      index == batchCount * BatchSize - 1 - PrefetchDistance
    }

    /** The slice `loadMore` takes is in range: the source does not clamp
        it, so a short last batch would trap. */
    predicate NextBatchInRange()
      reads this
    {
      fileInfo.Some? && fileInfo.value.sourceLines.Lines? ==>
        BatchSize * (batchCount + 1) <= |fileInfo.value.sourceLines.lines|
    }

    /** `loadMore()`: the next batch is appended and counted; nothing
        happens without file info or source lines. */
    method LoadMore()
      requires Valid() && NextBatchInRange()
      modifies this`loadedLines, this`batchCount
      ensures Valid()
      ensures fileInfo.Some? && fileInfo.value.sourceLines.Lines? ==>
        && batchCount == old(batchCount) + 1
        && loadedLines == old(loadedLines) + fileInfo.value.sourceLines.lines[BatchSize * old(batchCount)..BatchSize * batchCount]
      ensures !(fileInfo.Some? && fileInfo.value.sourceLines.Lines?) ==>
        batchCount == old(batchCount) && loadedLines == old(loadedLines)
    {
      if fileInfo.None? {
        return;
      }
      if fileInfo.value.sourceLines.NoLines? {
        return;
      }
      var sourceLines := fileInfo.value.sourceLines.lines;
      var startRange := batchCount * BatchSize;
      var endRange := startRange + BatchSize;
      assert loadedLines == sourceLines[..startRange];
      loadedLines := loadedLines + sourceLines[startRange..endRange];
      assert loadedLines == sourceLines[..endRange];
      batchCount := batchCount + 1;
    }

    /** `hasWarning(index:)`: row `index` is line `index + 1` of the file. */
    function HasWarning(index: int): (r: bool)
      reads this
      ensures fileInfo.None? ==> !r
      ensures fileInfo.Some? ==>
        (r <==> exists k :: 0 <= k < |fileInfo.value.warningIndices| && fileInfo.value.warningIndices[k] == index + 1)
    {
      if fileInfo.None? then false
      else index + 1 in fileInfo.value.warningIndices
    }
  }

  /** While every loaded batch is full, the prefetch row is the one 50 rows
      before the last loaded line: the next batch is asked for while the
      view still has rows to show. */
  lemma {:induction false} PrefetchRowIsLoaded(model: FileSourceViewModel, index: int)
    requires model.Valid()
    requires model.fileInfo.Some? && model.fileInfo.value.sourceLines.Lines?
    requires BatchSize * model.batchCount <= |model.fileInfo.value.sourceLines.lines|
    requires model.batchCount >= 1
    ensures model.ShouldLoadMore(index) <==> index == |model.loadedLines| - 1 - PrefetchDistance
    ensures model.ShouldLoadMore(index) ==> 0 <= index < |model.loadedLines|
  {
  }

  /** The loaded lines are always a prefix of the file's lines. */
  lemma {:induction false} LoadedIsPrefix(model: FileSourceViewModel)
    requires model.Valid()
    requires model.fileInfo.Some? && model.fileInfo.value.sourceLines.Lines?
    ensures |model.loadedLines| <= |model.fileInfo.value.sourceLines.lines|
    ensures model.loadedLines == model.fileInfo.value.sourceLines.lines[..|model.loadedLines|]
  {
  }
}
