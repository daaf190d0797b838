/** What a document says about every changed file: one block each, in order, whose rows turn the file's old text
    into its new one. */
module DiffBlocks {
  import opened Wrappers
  import opened DiffEngine
  import opened DiffReplay
  import opened DiffWindow
  import opened DiffWrap
  import opened DiffDocument

  // ---------- one file ----------

  /** The text a file had at HEAD; a new file had none. */
  function OldText(file: ChangedFile, sources: Sources): Result<seq<Line>> {
    match file.kind
    case Added => Ok([])
    case IntentToAdd => Ok([])
    case _ => sources.head(file.path)
  }

  /** The text a file has in the worktree; a removed file has none. */
  function NewText(file: ChangedFile, sources: Sources): Result<seq<Line>> {
    match file.kind
    case Removed => Ok([])
    case _ => sources.worktree(file.path)
  }

  /** A file fails exactly if a text that is needed cannot be read, with that text's error, the old one's first. */
  lemma FileFailsExactly(file: ChangedFile, sources: Sources)
    ensures FileRows(file, sources).Err? <==> OldText(file, sources).Err? || NewText(file, sources).Err?
    ensures OldText(file, sources).Err? ==> FileRows(file, sources) == Err(OldText(file, sources).error)
    ensures OldText(file, sources).Ok? && NewText(file, sources).Err? ==>
      FileRows(file, sources) == Err(NewText(file, sources).error)
  {
    hide SideBySideRows;
  }

  /** A hunk replaces something or puts something in. */
  predicate Changes(h: Hunk) {
    h.beforeStart < h.beforeEnd || h.afterStart < h.afterEnd
  }

  /** What a differ reports for two texts: hunks in order that change something, with equal lines between them. */
  predicate IsDiff(before: seq<Line>, after: seq<Line>, hunks: seq<Hunk>) {
    Valid(before, after, hunks) && forall i :: 0 <= i < |hunks| ==> Changes(hunks[i])
  }

  /** The rows turn the old text into the new one, and mirrored the new one into the old; or there is the single row
      that says so, exactly if the differ reports no hunks. */
  ghost predicate ShowsDiff(body: seq<DiffLine>, before: seq<Line>, after: seq<Line>, hunks: seq<Hunk>) {
    && NoHeaders(body) && body != []
    && (hunks == [] ==> body == [NoChangesRow()])
    && (hunks != [] && IsDiff(before, after, hunks) ==>
          && Replay(body, Shown(before)) == Some(Shown(after))
          && Replay(FlipRows(body), Shown(after)) == Some(Shown(before))
          && body != [NoChangesRow()])
  }

  ghost predicate ShowsFile(body: seq<DiffLine>, file: ChangedFile, sources: Sources) {
    && OldText(file, sources).Ok? && NewText(file, sources).Ok?
    && var before, after := OldText(file, sources).value, NewText(file, sources).value;
       ShowsDiff(body, before, after, sources.diff(before, after))
  }

  /** No diff has a row that is neither numbered nor collapsed. */
  lemma NoChangesIsNoRow(before: seq<Line>, after: seq<Line>, hunks: seq<Hunk>)
    requires Valid(before, after, hunks)
    ensures SideBySideRows(before, after, hunks) != [NoChangesRow()]
  {
    EveryRowFaithful(before, after, hunks);
    hide SideBySideRows;
    assert !RowFaithful(NoChangesRow(), before, after);
    assert NoChangesRow() in [NoChangesRow()];
  }

  /** A first hunk that changes something leaves a row. */
  lemma HunksLeaveRows(before: seq<Line>, after: seq<Line>, hunks: seq<Hunk>)
    requires hunks != [] && IsDiff(before, after, hunks)
    ensures SideBySideRows(before, after, hunks) != []
  {
    assert Changes(hunks[0]);
    ValidIsOrdered(before, after, hunks, 0, 0);
    assert |HunkRows(before, after, hunks[0])| > 0;
    hide HunkRows, StretchRows;
  }

  lemma FileShown(file: ChangedFile, sources: Sources)
    requires FileRows(file, sources).Ok?
    ensures FileBlock(file, FileRows(file, sources).value) != []
    ensures FileBlock(file, FileRows(file, sources).value)[0] == FileHeaderRow(file)
    ensures ShowsFile(FileBlock(file, FileRows(file, sources).value)[1..], file, sources)
  {
    hide Replay, RowsFrom, Valid;
    var rows := FileRows(file, sources).value;
    var before, after := OldText(file, sources).value, NewText(file, sources).value;
    var hunks := sources.diff(before, after);
    assert rows == SideBySideRows(before, after, hunks);
    var body := if rows == [] then [NoChangesRow()] else rows;
    assert FileBlock(file, rows)[1..] == body;
    RowsNoHeaders(before, after, hunks, true, 0, 0);
    if hunks != [] && IsDiff(before, after, hunks) {
      HunksLeaveRows(before, after, hunks);
      ReplayForward(before, after, hunks);
      ReplayBackward(before, after, hunks);
      NoChangesIsNoRow(before, after, hunks);
    }
  }

  /** The header row names the file: its kind and path can be read off it. */
  lemma HeaderTellsFile(file1: ChangedFile, file2: ChangedFile)
    requires FileHeaderRow(file1) == FileHeaderRow(file2)
    ensures file1 == file2
  {
    var text1, text2 := FileHeaderRow(file1).leftText, FileHeaderRow(file2).leftText;
    assert text1[0] == ChangeCode(file1.kind)[0] && text2[0] == ChangeCode(file2.kind)[0];
    assert text1[2..] == file1.path && text2[2..] == file2.path;
  }

  // ---------- the document ----------

  /** The row at which the block of file k starts. */
  function BlockStart(files: seq<ChangedFile>, sources: Sources, k: nat): nat
    requires k <= |files|
  {
    if DocumentOf(files[..k], sources).Ok? then |DocumentOf(files[..k], sources).value.rows| else 0
  }

  lemma NextBlock(files: seq<ChangedFile>, sources: Sources, k: nat)
    requires k < |files| && DocumentOf(files[..k + 1], sources).Ok?
    ensures DocumentOf(files[..k], sources).Ok? && FileRows(files[k], sources).Ok?
    ensures DocumentOf(files[..k + 1], sources).value.rows
         == DocumentOf(files[..k], sources).value.rows + FileBlock(files[k], FileRows(files[k], sources).value)
  {
    hide FileRows, FileBlock;
    assert files[..k + 1][..k] == files[..k];
  }

  lemma {:induction false} RowsGrow(files: seq<ChangedFile>, sources: Sources, k: nat)
    requires k <= |files| && DocumentOf(files, sources).Ok?
    ensures DocumentOf(files[..k], sources).Ok?
    ensures DocumentOf(files[..k], sources).value.rows <= DocumentOf(files, sources).value.rows
    decreases |files| - k
  {
    hide DocumentOf;
    if k == |files| {
      assert files[..k] == files;
    } else {
      RowsGrow(files, sources, k + 1);
      NextBlock(files, sources, k);
    }
  }

  /** The document is one block for each changed file, in list order: the file's header, then rows none of which is a
      header and that show the file, then the next block. */
  lemma DocumentShowsFiles(files: seq<ChangedFile>, sources: Sources, k: nat)
    requires DocumentOf(files, sources).Ok? && k < |files|
    ensures var rows := DocumentOf(files, sources).value.rows;
      var start, end := BlockStart(files, sources, k), BlockStart(files, sources, k + 1);
      && start < end <= |rows|
      && (k == 0 ==> start == 0) && (k + 1 == |files| ==> end == |rows|)
      && rows[start] == FileHeaderRow(files[k])
      && ShowsFile(rows[start + 1..end], files[k], sources)
  {
    hide DocumentOf, FileRows, FileBlock, ShowsFile;
    var rows := DocumentOf(files, sources).value.rows;
    var start, end := BlockStart(files, sources, k), BlockStart(files, sources, k + 1);
    RowsGrow(files, sources, k + 1);
    NextBlock(files, sources, k);
    FileShown(files[k], sources);
    var block := FileBlock(files[k], FileRows(files[k], sources).value);
    Ends(files, sources);
    assert k + 1 == |files| ==> files[..k + 1] == files;
    assert rows[..end] == rows[..start] + block;
    BlockWithin(rows, start, end, block);
  }

  lemma Ends(files: seq<ChangedFile>, sources: Sources)
    ensures BlockStart(files, sources, 0) == 0
  {
    assert files[..0] == [];
  }

  lemma BlockWithin<T>(rows: seq<T>, start: nat, end: nat, block: seq<T>)
    requires start <= end <= |rows| && rows[..end] == rows[..start] + block && block != []
    ensures start < end && rows[start] == block[0] && rows[start + 1..end] == block[1..]
  {
    assert |rows[..end]| == end && |rows[..start] + block| == start + |block|;
    assert forall i :: 0 <= i < |block| ==> rows[start + i] == rows[..end][start + i] == block[i];
  }

  predicate Fails(files: seq<ChangedFile>, sources: Sources, k: nat) {
    k < |files| && FileRows(files[k], sources).Err?
  }

  /** The document fails exactly if some file does, with the error of the first that does. */
  lemma DocumentFailsExactly(files: seq<ChangedFile>, sources: Sources)
    ensures DocumentOf(files, sources).Err? <==> exists k: nat :: Fails(files, sources, k)
    ensures DocumentOf(files, sources).Err? ==>
      exists k: nat :: Fails(files, sources, k) && (forall i: nat :: i < k ==> !Fails(files, sources, i))
                       && DocumentOf(files, sources) == Err(FileRows(files[k], sources).error)
  {
    if DocumentOf(files, sources).Err? {
      var k := FirstFailure(files, sources);
    } else {
      forall k: nat
        ensures !Fails(files, sources, k)
      {
        if k < |files| {
          RowsGrow(files, sources, k + 1);
          NextBlock(files, sources, k);
        }
      }
    }
  }

  lemma {:induction false} FirstFailure(files: seq<ChangedFile>, sources: Sources) returns (k: nat)
    requires DocumentOf(files, sources).Err?
    ensures Fails(files, sources, k) && forall i: nat :: i < k ==> !Fails(files, sources, i)
    ensures DocumentOf(files, sources) == Err(FileRows(files[k], sources).error)
    decreases |files|
  {
    hide FileRows, FileBlock;
    var n := |files| - 1;
    if DocumentOf(files[..n], sources).Err? {
      k := FirstFailure(files[..n], sources);
      assert forall i: nat :: i < n ==> files[..n][i] == files[i];
      assert forall i: nat :: i < k ==> Fails(files[..n], sources, i) == Fails(files, sources, i);
    } else {
      k := n;
      forall i: nat | i < n
        ensures !Fails(files, sources, i)
      {
        RowsGrow(files[..n], sources, i + 1);
        NextBlock(files[..n], sources, i);
        assert files[..n][i] == files[i];
      }
    }
  }
}
