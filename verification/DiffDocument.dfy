/** The document of a worktree: one header and the diff rows of every changed file, with an index from
    path to header row, and what is left of that index after re-wrapping to any column width. */
module DiffDocument {
  import opened Wrappers
  import opened DiffEngine
  import opened DiffWrap
  import opened DiffReplay
  import opened DiffAccounting

  datatype ChangeKind =
    Added | Modified | Removed | Renamed | Copied | TypeChange | Conflict | IntentToAdd

  datatype ChangedFile = ChangedFile(path: string, kind: ChangeKind)

  datatype Result<+T> = Ok(value: T) | Err(error: string)

  /** The world outside: file contents at HEAD and on disk, and the line differ. */
  datatype Sources = Sources(
    head: string -> Result<seq<Line>>,
    worktree: string -> Result<seq<Line>>,
    diff: (seq<Line>, seq<Line>) -> seq<Hunk>)

  datatype Document = Document(rows: seq<DiffLine>, index: map<string, nat>)

  function ChangeCode(kind: ChangeKind): string {
    match kind
    case Added => "A"
    case Modified => "M"
    case Removed => "D"
    case Renamed => "R"
    case Copied => "C"
    case TypeChange => "T"
    case Conflict => "U"
    case IntentToAdd => "I"
  }

  function FileHeaderRow(file: ChangedFile): DiffLine {
    HeaderRow(ChangeCode(file.kind) + " " + file.path)
  }

  function NoChangesRow(): DiffLine {
    DiffLine(None, None, "  no textual changes", "", Context, None)
  }

  /** A file that is new has no old side, a removed one no new side; an unreadable side is an error. */
  function FileRows(file: ChangedFile, sources: Sources): Result<seq<DiffLine>> {
    var head := if file.kind.Added? || file.kind.IntentToAdd? then Ok([]) else sources.head(file.path);
    if head.Err? then Err(head.error)
    else
      var worktree := if file.kind.Removed? then Ok([]) else sources.worktree(file.path);
      if worktree.Err? then Err(worktree.error)
      else Ok(SideBySideRows(head.value, worktree.value, sources.diff(head.value, worktree.value)))
  }

  /** The rows a file contributes. */
  function FileBlock(file: ChangedFile, rows: seq<DiffLine>): seq<DiffLine> {
    [FileHeaderRow(file)] + if rows == [] then [NoChangesRow()] else rows
  }

  function DocumentOf(files: seq<ChangedFile>, sources: Sources): Result<Document> {
    if files == [] then Ok(Document([], map[]))
    else
      var last := files[|files| - 1];
      match DocumentOf(files[..|files| - 1], sources)
      case Err(e) => Err(e)
      case Ok(doc) =>
        match FileRows(last, sources)
        case Err(e) => Err(e)
        case Ok(rows) => Ok(Document(doc.rows + FileBlock(last, rows), doc.index[last.path := |doc.rows|]))
  }

  method BuildFileDiffLines(file: ChangedFile, sources: Sources) returns (lines: Result<seq<DiffLine>>)
    ensures lines == FileRows(file, sources)
  {
    var head: Result<seq<Line>> := Ok([]);
    if !file.kind.Added? && !file.kind.IntentToAdd? {
      head := sources.head(file.path);
    }
    if head.Err? {
      return Err(head.error);
    }
    var worktree: Result<seq<Line>> := Ok([]);
    if !file.kind.Removed? {
      worktree := sources.worktree(file.path);
    }
    if worktree.Err? {
      return Err(worktree.error);
    }
    var rows := BuildSideBySideDiffLines(head.value, worktree.value, sources.diff(head.value, worktree.value));
    lines := Ok(rows);
  }

  /** An error in any file discards the whole document: the first failing prefix already fails. */
  lemma {:induction false} ErrorStays(files: seq<ChangedFile>, sources: Sources, k: nat)
    requires k <= |files| && DocumentOf(files[..k], sources).Err?
    ensures DocumentOf(files, sources) == DocumentOf(files[..k], sources)
    decreases |files|
  {
    if k == |files| {
      assert files[..k] == files;
    } else {
      assert files[..|files| - 1][..k] == files[..k];
      ErrorStays(files[..|files| - 1], sources, k);
    }
  }

  method BuildWorktreeDiffDocument(files: seq<ChangedFile>, sources: Sources) returns (result: Result<Document>)
    ensures result == DocumentOf(files, sources)
  {
    hide FileRows;
    var lines: seq<DiffLine>, index: map<string, nat> := [], map[];
    for i := 0 to |files|
      invariant DocumentOf(files[..i], sources) == Ok(Document(lines, index))
    {
      var file := files[i];
      ghost var rows0 := lines;
      assert files[..i + 1][..i] == files[..i];
      index := index[file.path := |lines|];
      lines := lines + [DiffLine(None, None, ChangeCode(file.kind) + " " + file.path, "", FileHeader, None)];
      var fileLines := BuildFileDiffLines(file, sources);
      if fileLines.Err? {
        ErrorStays(files, sources, i + 1);
        return Err(fileLines.error);
      }
      if fileLines.value == [] {
        lines := lines + [NoChangesRow()];
      } else {
        lines := lines + fileLines.value;
      }
      assert lines == rows0 + FileBlock(file, fileLines.value);
    }
    assert files[..|files|] == files;
    result := Ok(Document(lines, index));
  }

  // ---------- the index ----------

  /** File j is the last one with its path. */
  predicate LastWithPath(files: seq<ChangedFile>, path: string, j: nat) {
    j < |files| && files[j].path == path && forall k :: j < k < |files| ==> files[k].path != path
  }

  /** The row starts the block of file j. */
  predicate BlockAt(rows: seq<DiffLine>, row: nat, file: ChangedFile, sources: Sources) {
    && row < |rows|
    && FileRows(file, sources).Ok?
    && FileBlock(file, FileRows(file, sources).value) <= rows[row..]
  }

  lemma BlockStays(rows: seq<DiffLine>, more: seq<DiffLine>, row: nat, file: ChangedFile, sources: Sources)
    requires BlockAt(rows, row, file, sources)
    ensures BlockAt(rows + more, row, file, sources)
  {
    hide FileRows, FileBlock;
    assert (rows + more)[row..] == rows[row..] + more;
  }

  lemma NewBlock(rows: seq<DiffLine>, file: ChangedFile, sources: Sources)
    requires FileRows(file, sources).Ok?
    ensures BlockAt(rows + FileBlock(file, FileRows(file, sources).value), |rows|, file, sources)
  {
    hide FileRows;
    var block := FileBlock(file, FileRows(file, sources).value);
    assert (rows + block)[|rows|..] == block;
  }

  ghost predicate HasPath(files: seq<ChangedFile>, path: string) {
    exists j: nat :: LastWithPath(files, path, j)
  }

  /** A changed path, and no other, is indexed, at the block of the last file with that path. */
  ghost predicate IndexFits(doc: Document, files: seq<ChangedFile>, sources: Sources, path: string) {
    && (path in doc.index <==> HasPath(files, path))
    && (path in doc.index ==>
          forall j: nat :: LastWithPath(files, path, j) ==> BlockAt(doc.rows, doc.index[path], files[j], sources))
  }

  lemma {:induction false} IndexPointsAtBlocks(files: seq<ChangedFile>, sources: Sources, path: string)
    requires DocumentOf(files, sources).Ok?
    ensures IndexFits(DocumentOf(files, sources).value, files, sources, path)
    decreases |files|
  {
    hide FileRows, BlockAt, FileBlock;
    if files == [] {
      assert !HasPath(files, path);
    } else {
      var n := |files| - 1;
      var doc := DocumentOf(files[..n], sources).value;
      IndexPointsAtBlocks(files[..n], sources, path);
      if path == files[n].path {
        assert LastWithPath(files, path, n);
        NewBlock(doc.rows, files[n], sources);
      } else {
        SameLastBefore(files, path);
        if path in doc.index {
          var j: nat :| LastWithPath(files[..n], path, j);
          BlockStays(doc.rows, FileBlock(files[n], FileRows(files[n], sources).value), doc.index[path], files[j], sources);
          assert forall i: nat :: LastWithPath(files, path, i) ==> i == j;
        }
      }
    }
  }

  /** A file with another path changes nothing about who is last. */
  lemma SameLastBefore(files: seq<ChangedFile>, path: string)
    requires files != [] && files[|files| - 1].path != path
    ensures forall j: nat :: LastWithPath(files, path, j) <==> LastWithPath(files[..|files| - 1], path, j)
    ensures HasPath(files, path) <==> HasPath(files[..|files| - 1], path)
  {
    var shorter := files[..|files| - 1];
    if HasPath(files, path) {
      var j: nat :| LastWithPath(files, path, j);
      assert LastWithPath(shorter, path, j);
    }
    if HasPath(shorter, path) {
      var j: nat :| LastWithPath(shorter, path, j);
      assert LastWithPath(files, path, j);
    }
  }

  // ---------- headers have no right text ----------

  predicate PlainHeaders(rows: seq<DiffLine>) {
    forall i :: 0 <= i < |rows| && rows[i].kind == FileHeader ==> rows[i].rightText == ""
  }

  predicate NoHeaders(rows: seq<DiffLine>) {
    forall i :: 0 <= i < |rows| ==> rows[i].kind != FileHeader
  }

  lemma StretchNoHeaders(before: seq<Line>, after: seq<Line>, b0: nat, b1: nat, a0: nat, a1: nat,
                         lead: nat, trail: nat)
    ensures NoHeaders(StretchRows(before, after, b0, b1, a0, a1, lead, trail))
  {
    hide GapText, RopeDisplayLine, PairedRows, LeftOnlyRows, RightOnlyRows;
  }

  lemma {:induction false} RowsNoHeaders(before: seq<Line>, after: seq<Line>, hunks: seq<Hunk>,
                                         first: bool, bc: nat, ac: nat)
    ensures NoHeaders(RowsFrom(before, after, hunks, first, bc, ac))
    decreases |hunks|
  {
    hide StretchRows, RopeDisplayLine;
    if hunks == [] {
      StretchNoHeaders(before, after, bc, |before|, ac, |after|, DIFF_HUNK_CONTEXT_LINES, 0);
    } else {
      var h := hunks[0];
      StretchNoHeaders(before, after, bc, h.beforeStart, ac, h.afterStart, LeadingContext(first), DIFF_HUNK_CONTEXT_LINES);
      RowsNoHeaders(before, after, hunks[1..], false, h.beforeEnd, h.afterEnd);
    }
  }

  lemma {:induction false} DocumentPlainHeaders(files: seq<ChangedFile>, sources: Sources)
    requires DocumentOf(files, sources).Ok?
    ensures PlainHeaders(DocumentOf(files, sources).value.rows)
    decreases |files|
  {
    hide RowsFrom;
    if files != [] {
      var n := |files| - 1;
      DocumentPlainHeaders(files[..n], sources);
      var rows := FileRows(files[n], sources).value;
      BlockPlainHeaders(files[n], sources);
    }
  }

  lemma BlockPlainHeaders(file: ChangedFile, sources: Sources)
    requires FileRows(file, sources).Ok?
    ensures PlainHeaders(FileBlock(file, FileRows(file, sources).value))
  {
    hide RowsFrom;
    forall before, after, hunks
      ensures NoHeaders(RowsFrom(before, after, hunks, true, 0, 0))
    {
      RowsNoHeaders(before, after, hunks, true, 0, 0);
    }
  }

  // ---------- composition with wrapping ----------

  /** The slice of the wrapped document that raw row i turned into. */
  function WrappedSlice(raw: seq<DiffLine>, wrapColumns: nat, i: nat): seq<DiffLine>
    requires i < |raw|
    ensures WrapStart(raw, wrapColumns, i) < WrapStart(raw, wrapColumns, i + 1) <= |WrapAll(raw, wrapColumns)|
  {
    WrapSlices(raw, wrapColumns, i);
    WrapAll(raw, wrapColumns)[WrapStart(raw, wrapColumns, i)..WrapStart(raw, wrapColumns, i + 1)]
  }

  /** Every raw row of a built document keeps, in its slice of the wrapped one, its kind, its numbers on the
      first row only, and both texts. */
  lemma SlicesKeepRows(files: seq<ChangedFile>, sources: Sources, wrapColumns: nat, i: nat)
    requires DocumentOf(files, sources).Ok? && i < |DocumentOf(files, sources).value.rows|
    ensures var raw := DocumentOf(files, sources).value.rows;
      && WrapsTo(raw[i], WrappedSlice(raw, wrapColumns, i))
      && Joined(RightTexts(WrappedSlice(raw, wrapColumns, i))) == raw[i].rightText
  {
    var raw := DocumentOf(files, sources).value.rows;
    var slice := WrappedSlice(raw, wrapColumns, i);
    hide DocumentOf, WrapAll, WrapsTo, WrapLine, WrappedSlice;
    SliceIsWrapped(raw, wrapColumns, i);
    WrapLineKeeps(raw[i], wrapColumns);
    DocumentPlainHeaders(files, sources);
    if raw[i].kind == FileHeader {
      HeaderRightEmpty(raw[i], wrapColumns);
    } else {
      KeepsRight(raw[i], slice);
    }
  }

  lemma SliceIsWrapped(raw: seq<DiffLine>, wrapColumns: nat, i: nat)
    requires i < |raw|
    ensures WrappedSlice(raw, wrapColumns, i) == WrapLine(raw[i], wrapColumns)
  {
    hide WrapLine, WrapAll;
    WrapSlices(raw, wrapColumns, i);
  }

  lemma KeepsRight(line: DiffLine, parts: seq<DiffLine>)
    requires WrapsTo(line, parts) && line.kind != FileHeader
    ensures Joined(RightTexts(parts)) == line.rightText
  {
  }

  lemma {:induction false} JoinedEmpty(texts: seq<string>)
    requires forall i :: 0 <= i < |texts| ==> texts[i] == ""
    ensures Joined(texts) == ""
    decreases |texts|
  {
    if texts != [] {
      JoinedEmpty(texts[1..]);
    }
  }

  lemma HeaderRightEmpty(line: DiffLine, wrapColumns: nat)
    requires line.kind == FileHeader
    ensures Joined(RightTexts(WrapLine(line, wrapColumns))) == ""
  {
    hide Chunks;
    JoinedEmpty(RightTexts(WrapLine(line, wrapColumns)));
  }

  /** At every width, each path's index is the first wrapped row of the header of the last file with that
      path: a header row whose slice spells out the header, followed by the wrapped rows of the file. */
  lemma IndexSurvivesWrapping(files: seq<ChangedFile>, sources: Sources, wrapColumns: nat, path: string, j: nat)
    requires DocumentOf(files, sources).Ok? && LastWithPath(files, path, j)
    ensures var doc := DocumentOf(files, sources).value;
      var wrapped, index := WrapAll(doc.rows, wrapColumns), WrapIndex(doc.rows, doc.index, wrapColumns);
      && path in doc.index && path in index
      && BlockAt(doc.rows, doc.index[path], files[j], sources)
      && doc.rows[doc.index[path]] == FileHeaderRow(files[j])
      && index[path] == WrapStart(doc.rows, wrapColumns, doc.index[path])
      && index[path] < |wrapped|
      && wrapped[index[path]].kind == FileHeader
      && Joined(LeftTexts(WrappedSlice(doc.rows, wrapColumns, doc.index[path]))) == FileHeaderRow(files[j]).leftText
  {
    hide FileRows, WrapAll, WrapLine;
    var doc := DocumentOf(files, sources).value;
    IndexPointsAtBlocks(files, sources, path);
    var row := doc.index[path];
    HeaderStartsBlock(doc.rows, row, files[j], sources);
    WrapSlices(doc.rows, wrapColumns, row);
    WrapLineKeeps(doc.rows[row], wrapColumns);
    SliceIsWrapped(doc.rows, wrapColumns, row);
    assert WrappedSlice(doc.rows, wrapColumns, row)[0] == WrapAll(doc.rows, wrapColumns)[WrapStart(doc.rows, wrapColumns, row)];
  }

  lemma HeaderStartsBlock(rows: seq<DiffLine>, row: nat, file: ChangedFile, sources: Sources)
    requires BlockAt(rows, row, file, sources)
    ensures rows[row] == FileHeaderRow(file)
  {
    hide FileRows;
    var block := FileBlock(file, FileRows(file, sources).value);
    assert block[0] == FileHeaderRow(file);
    assert rows[row..][0] == block[0];
  }

  // ---------- accounting after wrapping ----------

  lemma WrapLineReads(line: DiffLine, wrapColumns: nat, c: nat)
    requires line.kind != FileHeader && (line.leftNumber.Some? ==> line.leftNumber.value == c + 1)
    ensures LeftReads(WrapLine(line, wrapColumns), c)
    ensures LeftSpan(WrapLine(line, wrapColumns)) == LeftWidth(line)
  {
    var parts := WrapLine(line, wrapColumns);
    WrapLineKeeps(line, wrapColumns);
    hide WrapLine, Joined;
    BlankReads(parts[1..], c + LeftWidth(line));
  }

  lemma {:induction false} WrapReads(raw: seq<DiffLine>, wrapColumns: nat, c: nat)
    requires NoHeaders(raw) && LeftReads(raw, c)
    ensures LeftReads(WrapAll(raw, wrapColumns), c)
    ensures LeftSpan(WrapAll(raw, wrapColumns)) == LeftSpan(raw)
    decreases |raw|
  {
    hide WrapLine;
    if raw != [] {
      var line, rest := raw[0], raw[1..];
      WrapLineReads(line, wrapColumns, c);
      WrapReads(rest, wrapColumns, c + LeftWidth(line));
      assert raw == [line] + rest;
      WrapAppend([line], rest, wrapColumns);
      WrapOne(line, wrapColumns);
      JoinReads(WrapLine(line, wrapColumns), WrapAll(rest, wrapColumns), c);
    }
  }

  lemma WrapOne(line: DiffLine, wrapColumns: nat)
    ensures WrapAll([line], wrapColumns) == WrapLine(line, wrapColumns)
  {
    hide WrapLine;
    assert [line][..0] == [];
    assert [] + WrapLine(line, wrapColumns) == WrapLine(line, wrapColumns);
  }

  /** A row that is not a header wraps in its mirror to the mirror of what it wraps to. */
  lemma FlipWrapLine(line: DiffLine, wrapColumns: nat)
    requires line.kind != FileHeader
    ensures FlipRows(WrapLine(line, wrapColumns)) == WrapLine(FlipRow(line), wrapColumns)
  {
    hide Chunks;
  }

  lemma {:induction false} FlipWrap(raw: seq<DiffLine>, wrapColumns: nat)
    requires NoHeaders(raw)
    ensures FlipRows(WrapAll(raw, wrapColumns)) == WrapAll(FlipRows(raw), wrapColumns)
    decreases |raw|
  {
    hide WrapLine;
    if raw != [] {
      var n := |raw| - 1;
      FlipWrap(raw[..n], wrapColumns);
      FlipWrapLine(raw[n], wrapColumns);
      FlipAppend(WrapAll(raw[..n], wrapColumns), WrapLine(raw[n], wrapColumns));
      assert FlipRows(raw)[..n] == FlipRows(raw[..n]);
    }
  }

  lemma LeftAccountedAfterWrapping(before: seq<Line>, after: seq<Line>, hunks: seq<Hunk>, wrapColumns: nat)
    requires hunks != [] && Ordered(before, after, hunks)
    ensures LeftAccounted(WrapAll(SideBySideRows(before, after, hunks), wrapColumns), |before|)
  {
    hide LeftReads, LeftSpan, LeftAccounted, RowsFrom, WrapAll;
    var rows := SideBySideRows(before, after, hunks);
    RowsRead(before, after, hunks, true, 0, 0);
    RowsNoHeaders(before, after, hunks, true, 0, 0);
    WrapReads(rows, wrapColumns, 0);
    ReadingAccounts(WrapAll(rows, wrapColumns));
  }

  /** Wrapping loses no line either: at every width each line of either text is numbered on exactly one row or
      counted in exactly one collapsed row. */
  lemma WrappedLinesAccountedFor(before: seq<Line>, after: seq<Line>, hunks: seq<Hunk>, wrapColumns: nat)
    requires hunks != [] && Ordered(before, after, hunks)
    ensures LeftAccounted(WrapAll(SideBySideRows(before, after, hunks), wrapColumns), |before|)
    ensures LeftAccounted(FlipRows(WrapAll(SideBySideRows(before, after, hunks), wrapColumns)), |after|)
  {
    hide LeftAccounted, RowsFrom, WrapAll;
    LeftAccountedAfterWrapping(before, after, hunks, wrapColumns);
    FlipOrdered(hunks, 0, 0, |before|, |after|);
    LeftAccountedAfterWrapping(after, before, FlipHunks(hunks), wrapColumns);
    Mirror(before, after, hunks);
    RowsNoHeaders(before, after, hunks, true, 0, 0);
    FlipWrap(SideBySideRows(before, after, hunks), wrapColumns);
  }
}
