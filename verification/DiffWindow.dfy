/** What is visible: a line is shown exactly when it is within three lines of a hunk, and every row
    says the truth about the lines it shows. */
module DiffWindow {
  import opened Wrappers
  import opened DiffEngine
  import opened DiffReplay
  import opened DiffAccounting

  ghost predicate ShowsLeft(rows: seq<DiffLine>, line: nat) {
    exists r :: 0 <= r < |rows| && rows[r].leftNumber == Some(line + 1)
  }

  /** The line lies in some hunk or within the context distance of one of its edges. */
  ghost predicate NearHunk(hunks: seq<Hunk>, line: nat) {
    exists k :: 0 <= k < |hunks| && InReach(hunks[k], line)
  }

  predicate InReach(h: Hunk, line: nat) {
    h.beforeStart <= line + DIFF_HUNK_CONTEXT_LINES && line < h.beforeEnd + DIFF_HUNK_CONTEXT_LINES
  }

  lemma ShowsAppend(rows1: seq<DiffLine>, rows2: seq<DiffLine>, line: nat)
    ensures ShowsLeft(rows1 + rows2, line) <==> ShowsLeft(rows1, line) || ShowsLeft(rows2, line)
  {
    var rows := rows1 + rows2;
    if ShowsLeft(rows1, line) {
      var r :| 0 <= r < |rows1| && rows1[r].leftNumber == Some(line + 1);
      assert rows[r] == rows1[r];
    }
    if ShowsLeft(rows2, line) {
      var r :| 0 <= r < |rows2| && rows2[r].leftNumber == Some(line + 1);
      assert rows[|rows1| + r] == rows2[r];
    }
    if ShowsLeft(rows, line) {
      var r :| 0 <= r < |rows| && rows[r].leftNumber == Some(line + 1);
      assert if r < |rows1| then rows[r] == rows1[r] else rows[r] == rows2[r - |rows1|];
    }
  }

  /** The first `count` rows are numbered from b on and the others are not. */
  lemma RunShows(rows: seq<DiffLine>, b: nat, count: nat, line: nat)
    requires count <= |rows|
    requires forall i :: 0 <= i < |rows| ==> rows[i].leftNumber == if i < count then Some(b + i + 1) else None
    ensures ShowsLeft(rows, line) <==> b <= line < b + count
  {
    if b <= line < b + count {
      assert rows[line - b].leftNumber == Some(line + 1);
    }
  }

  lemma ContextShows(before: seq<Line>, after: seq<Line>, b: nat, bCount: nat, a: nat, aCount: nat, line: nat)
    ensures ShowsLeft(ContextRows(before, after, b, bCount, a, aCount), line) <==> b <= line < b + bCount
  {
    hide PairedRows, LeftOnlyRows, RightOnlyRows, RopeDisplayLine;
    var n := Min(bCount, aCount);
    var paired, left, right := PairedRows(before, after, b, a, n),
      LeftOnlyRows(before, after, b + n, bCount - n), RightOnlyRows(before, after, a + n, aCount - n);
    RunShows(paired, b, n, line);
    RunShows(left, b + n, bCount - n, line);
    RunShows(right, 0, 0, line);
    hide ShowsLeft;
    ShowsAppend(paired, left, line);
    ShowsAppend(paired + left, right, line);
  }

  lemma HunkShows(before: seq<Line>, after: seq<Line>, h: Hunk, line: nat)
    requires h.beforeStart <= h.beforeEnd
    ensures ShowsLeft(HunkRows(before, after, h), line) <==> h.beforeStart <= line < h.beforeEnd
  {
    hide ShowsLeft, RopeDisplayLine;
    RunShows(HunkRows(before, after, h), h.beforeStart, h.beforeEnd - h.beforeStart, line);
  }

  lemma StretchShows(before: seq<Line>, after: seq<Line>, b0: nat, b1: nat, a0: nat, a1: nat,
                     lead: nat, trail: nat, line: nat)
    requires b0 <= b1
    ensures ShowsLeft(StretchRows(before, after, b0, b1, a0, a1, lead, trail), line)
       <==> b0 <= line < b1 && (line < b0 + lead || b1 <= line + trail)
  {
    hide ContextRows, GapText;
    var bc, ac := b1 - b0, SaturatingSub(a1, a0);
    var bl, bt := LeadShown(bc, lead), TrailShown(bc, lead, trail);
    var al, at := LeadShown(ac, lead), TrailShown(ac, lead, trail);
    var head, gap, tail := ContextRows(before, after, b0, bl, a0, al),
      GapRows(HiddenCount(bc, lead, trail), HiddenCount(ac, lead, trail)),
      ContextRows(before, after, b1 - bt, bt, a1 - at, at);
    RunShows(gap, 0, 0, line);
    hide ShowsLeft, GapRows;
    ContextShows(before, after, b0, bl, a0, al, line);
    ContextShows(before, after, b1 - bt, bt, a1 - at, at, line);
    ShowsAppend(head, gap, line);
    ShowsAppend(head + gap, tail, line);
  }

  /** Later hunks start no earlier than the cursor. */
  lemma {:induction false} StartsAfter(hunks: seq<Hunk>, bc: nat, ac: nat, beforeLen: nat, afterLen: nat, k: nat)
    requires OrderedFrom(hunks, bc, ac, beforeLen, afterLen) && k < |hunks|
    ensures bc <= hunks[k].beforeStart <= hunks[k].beforeEnd
    decreases k
  {
    if k > 0 {
      StartsAfter(hunks[1..], hunks[0].beforeEnd, hunks[0].afterEnd, beforeLen, afterLen, k - 1);
    }
  }

  /** Which hunks reach a line: the first one, or one of the rest; before the first hunk only the first matters. */
  lemma NearSplit(hunks: seq<Hunk>, bc: nat, ac: nat, beforeLen: nat, afterLen: nat, line: nat)
    requires hunks != [] && OrderedFrom(hunks, bc, ac, beforeLen, afterLen)
    ensures NearHunk(hunks, line) <==> InReach(hunks[0], line) || NearHunk(hunks[1..], line)
    ensures line < hunks[0].beforeStart && NearHunk(hunks[1..], line) ==> InReach(hunks[0], line)
  {
    if NearHunk(hunks, line) {
      var k :| 0 <= k < |hunks| && InReach(hunks[k], line);
      assert k > 0 ==> hunks[1..][k - 1] == hunks[k];
    }
    if NearHunk(hunks[1..], line) {
      var k :| 0 <= k < |hunks[1..]| && InReach(hunks[1..][k], line);
      assert hunks[k + 1] == hunks[1..][k];
      StartsAfter(hunks[1..], hunks[0].beforeEnd, hunks[0].afterEnd, beforeLen, afterLen, k);
    }
  }

  lemma {:induction false} WindowFrom(before: seq<Line>, after: seq<Line>, hunks: seq<Hunk>,
                                      first: bool, bc: nat, ac: nat, line: nat)
    requires OrderedFrom(hunks, bc, ac, |before|, |after|)
    requires first ==> hunks != []
    ensures ShowsLeft(RowsFrom(before, after, hunks, first, bc, ac), line)
       <==> bc <= line < |before| && (line < bc + LeadingContext(first) || NearHunk(hunks, line))
    decreases |hunks|
  {
    hide ShowsLeft, StretchRows, HunkRows;
    if hunks == [] {
      StretchShows(before, after, bc, |before|, ac, |after|, DIFF_HUNK_CONTEXT_LINES, 0, line);
    } else {
      var h, lead := hunks[0], LeadingContext(first);
      var stretch := StretchRows(before, after, bc, h.beforeStart, ac, h.afterStart, lead, DIFF_HUNK_CONTEXT_LINES);
      StretchShows(before, after, bc, h.beforeStart, ac, h.afterStart, lead, DIFF_HUNK_CONTEXT_LINES, line);
      HunkShows(before, after, h, line);
      WindowFrom(before, after, hunks[1..], false, h.beforeEnd, h.afterEnd, line);
      ValidEnd(hunks, bc, ac, |before|, |after|);
      NearSplit(hunks, bc, ac, |before|, |after|, line);
      hide NearHunk;
      ShowsAppend(stretch, HunkRows(before, after, h), line);
      ShowsAppend(stretch + HunkRows(before, after, h),
                  RowsFrom(before, after, hunks[1..], false, h.beforeEnd, h.afterEnd), line);
    }
  }

  lemma {:induction false} ValidEnd(hunks: seq<Hunk>, bc: nat, ac: nat, beforeLen: nat, afterLen: nat)
    requires OrderedFrom(hunks, bc, ac, beforeLen, afterLen)
    ensures bc <= beforeLen && ac <= afterLen
    ensures hunks != [] ==> hunks[0].beforeEnd <= beforeLen && hunks[0].afterEnd <= afterLen
    decreases |hunks|
  {
    if hunks != [] {
      ValidEnd(hunks[1..], hunks[0].beforeEnd, hunks[0].afterEnd, beforeLen, afterLen);
    }
  }

  /** A line of either text is shown if and only if it lies within three lines of a hunk; all others are
      counted in a collapsed row (LinesAccountedFor). */
  lemma ContextWindow(before: seq<Line>, after: seq<Line>, hunks: seq<Hunk>, line: nat)
    requires hunks != [] && Ordered(before, after, hunks)
    ensures ShowsLeft(SideBySideRows(before, after, hunks), line) <==> line < |before| && NearHunk(hunks, line)
    ensures ShowsLeft(FlipRows(SideBySideRows(before, after, hunks)), line)
       <==> line < |after| && NearHunk(FlipHunks(hunks), line)
  {
    WindowFrom(before, after, hunks, true, 0, 0, line);
    FlipOrdered(hunks, 0, 0, |before|, |after|);
    WindowFrom(after, before, FlipHunks(hunks), true, 0, 0, line);
    Mirror(before, after, hunks);
  }

  /** No changed line is ever folded away. */
  lemma HunkLinesNeverHidden(before: seq<Line>, after: seq<Line>, hunks: seq<Hunk>, k: nat, line: nat, r: nat)
    requires Ordered(before, after, hunks) && k < |hunks|
    requires hunks[k].beforeStart <= line < hunks[k].beforeEnd
    requires Covers(SideBySideRows(before, after, hunks), r, line)
    ensures SideBySideRows(before, after, hunks)[r].leftNumber == Some(line + 1)
  {
    hide Covers, SideBySideRows;
    var rows := SideBySideRows(before, after, hunks);
    LinesAccountedFor(before, after, hunks);
    ContextWindow(before, after, hunks, line);
    LineInText(hunks, 0, 0, |before|, |after|, k);
    assert InReach(hunks[k], line);
    var shown :| 0 <= shown < |rows| && rows[shown].leftNumber == Some(line + 1);
    NumberedCovers(rows, shown, line);
  }

  lemma NewLinesNeverHidden(before: seq<Line>, after: seq<Line>, hunks: seq<Hunk>, k: nat, line: nat, r: nat)
    requires Ordered(before, after, hunks) && k < |hunks|
    requires hunks[k].afterStart <= line < hunks[k].afterEnd
    requires Covers(FlipRows(SideBySideRows(before, after, hunks)), r, line)
    ensures SideBySideRows(before, after, hunks)[r].rightNumber == Some(line + 1)
  {
    hide SideBySideRows;
    FlipOrdered(hunks, 0, 0, |before|, |after|);
    Mirror(before, after, hunks);
    HunkLinesNeverHidden(after, before, FlipHunks(hunks), k, line, r);
    assert FlipRows(SideBySideRows(before, after, hunks))[r] == FlipRow(SideBySideRows(before, after, hunks)[r]);
  }

  lemma NumberedCovers(rows: seq<DiffLine>, r: nat, line: nat)
    requires r < |rows| && rows[r].leftNumber == Some(line + 1)
    ensures Covers(rows, r, line)
  {
  }

  lemma {:induction false} LineInText(hunks: seq<Hunk>, bc: nat, ac: nat, beforeLen: nat, afterLen: nat, k: nat)
    requires OrderedFrom(hunks, bc, ac, beforeLen, afterLen) && k < |hunks|
    ensures hunks[k].beforeEnd <= beforeLen
    decreases k
  {
    if k == 0 {
      ValidEnd(hunks, bc, ac, beforeLen, afterLen);
    } else {
      LineInText(hunks[1..], hunks[0].beforeEnd, hunks[0].afterEnd, beforeLen, afterLen, k - 1);
    }
  }

  // ---------- truthful rows ----------

  /** A column shows the text of the line it numbers. */
  predicate ColumnFaithful(number: Option<nat>, text: string, lines: seq<Line>) {
    match number
    case Some(n) => 1 <= n <= |lines| && text == lines[n - 1].Shown()
    case None => text == ""
  }

  /** A collapsed row hides equally many lines, at least one, on both sides; any other row shows what it
      numbers, a context row shows equal lines, and the kind tells which sides are present. */
  predicate RowFaithful(row: DiffLine, before: seq<Line>, after: seq<Line>) {
    match row.gap
    case Some(g) =>
      g.before == g.after > 0 && row.kind == Context && row.leftNumber.None? && row.rightNumber.None?
    case None =>
      && ColumnFaithful(row.leftNumber, row.leftText, before)
      && ColumnFaithful(row.rightNumber, row.rightText, after)
      && match row.kind
         case Context => row.leftNumber.Some? && row.rightNumber.Some?
                         && before[row.leftNumber.value - 1] == after[row.rightNumber.value - 1]
         case Modified => row.leftNumber.Some? && row.rightNumber.Some?
         case Removed => row.leftNumber.Some? && row.rightNumber.None?
         case Added => row.leftNumber.None? && row.rightNumber.Some?
         case FileHeader => false
  }

  predicate RowsFaithful(rows: seq<DiffLine>, before: seq<Line>, after: seq<Line>) {
    forall row :: row in rows ==> RowFaithful(row, before, after)
  }

  lemma PairedRowFaithful(before: seq<Line>, after: seq<Line>, b: nat, a: nat)
    requires b < |before| && a < |after| && before[b] == after[a]
    ensures RowFaithful(PairedRow(before, after, b, a), before, after)
  {
    hide DisplayText;
  }

  lemma ChangedRowFaithful(before: seq<Line>, after: seq<Line>, b: nat, bCount: nat, a: nat, aCount: nat, i: nat)
    requires b + bCount <= |before| && a + aCount <= |after| && i < Max(bCount, aCount)
    ensures RowFaithful(ChangedRow(before, after, b, bCount, a, aCount, i), before, after)
  {
    hide DisplayText;
  }

  /** Parts of equal stretches are equal. */
  lemma SameWithin(before: seq<Line>, after: seq<Line>, b0: nat, a0: nat, count: nat, i: nat, j: nat)
    requires b0 + count <= |before| && a0 + count <= |after| && i <= j <= count
    requires before[b0..b0 + count] == after[a0..a0 + count]
    ensures before[b0 + i..b0 + j] == after[a0 + i..a0 + j]
  {
    var part1, part2 := before[b0 + i..b0 + j], after[a0 + i..a0 + j];
    forall k | 0 <= k < j - i
      ensures part1[k] == part2[k]
    {
      assert before[b0..b0 + count][i + k] == after[a0..a0 + count][i + k];
    }
  }

  lemma PairedFaithful(before: seq<Line>, after: seq<Line>, b: nat, a: nat, count: nat)
    requires b + count <= |before| && a + count <= |after|
    requires before[b..b + count] == after[a..a + count]
    ensures RowsFaithful(PairedRows(before, after, b, a, count), before, after)
  {
    hide RowFaithful, PairedRow, PairedRows;
    forall row | row in PairedRows(before, after, b, a, count)
      ensures RowFaithful(row, before, after)
    {
      var i :| 0 <= i < count && row == PairedRows(before, after, b, a, count)[i];
      assert before[b + i] == before[b..b + count][i] == after[a..a + count][i] == after[a + i];
      PairedRowFaithful(before, after, b + i, a + i);
    }
  }

  lemma HunkFaithful(before: seq<Line>, after: seq<Line>, h: Hunk)
    requires h.beforeStart <= h.beforeEnd <= |before| && h.afterStart <= h.afterEnd <= |after|
    ensures RowsFaithful(HunkRows(before, after, h), before, after)
  {
    hide RowFaithful, ChangedRow, ChangedRows;
    forall row | row in HunkRows(before, after, h)
      ensures RowFaithful(row, before, after)
    {
      var i :| 0 <= i < |HunkRows(before, after, h)| && row == HunkRows(before, after, h)[i];
      ChangedRowFaithful(before, after, h.beforeStart, h.beforeEnd - h.beforeStart,
                         h.afterStart, h.afterEnd - h.afterStart, i);
    }
  }

  lemma StretchFaithful(before: seq<Line>, after: seq<Line>, b0: nat, a0: nat, count: nat, lead: nat, trail: nat)
    requires b0 + count <= |before| && a0 + count <= |after|
    requires before[b0..b0 + count] == after[a0..a0 + count]
    ensures RowsFaithful(StretchRows(before, after, b0, b0 + count, a0, a0 + count, lead, trail), before, after)
  {
    hide StretchRows, RowsFaithful, PairedRows, GapRows;
    var l, t := LeadShown(count, lead), TrailShown(count, lead, trail);
    StretchShape(before, after, b0, a0, count, lead, trail);
    SameWithin(before, after, b0, a0, count, 0, l);
    SameWithin(before, after, b0, a0, count, count - t, count);
    PairedFaithful(before, after, b0, a0, l);
    GapFaithful(before, after, count - l - t);
    PairedFaithful(before, after, b0 + count - t, a0 + count - t, t);
    var head, gap := PairedRows(before, after, b0, a0, l), GapRows(count - l - t, count - l - t);
    JoinFaithful(head, gap, before, after);
    JoinFaithful(head + gap, PairedRows(before, after, b0 + count - t, a0 + count - t, t), before, after);
  }

  lemma JoinFaithful(rows1: seq<DiffLine>, rows2: seq<DiffLine>, before: seq<Line>, after: seq<Line>)
    requires RowsFaithful(rows1, before, after) && RowsFaithful(rows2, before, after)
    ensures RowsFaithful(rows1 + rows2, before, after)
  {
    hide RowFaithful;
  }

  lemma GapFaithful(before: seq<Line>, after: seq<Line>, hidden: nat)
    ensures RowsFaithful(GapRows(hidden, hidden), before, after)
  {
    hide GapText;
  }

  lemma {:induction false} FaithfulFrom(before: seq<Line>, after: seq<Line>, hunks: seq<Hunk>,
                                        first: bool, bc: nat, ac: nat)
    requires ValidFrom(before, after, hunks, bc, ac)
    ensures RowsFaithful(RowsFrom(before, after, hunks, first, bc, ac), before, after)
    decreases |hunks|
  {
    hide RowFaithful, StretchRows, HunkRows;
    ValidIsOrdered(before, after, hunks, bc, ac);
    ValidEnd(hunks, bc, ac, |before|, |after|);
    if hunks == [] {
      assert |before[bc..|before|]| == |after[ac..|after|]|;
      StretchFaithful(before, after, bc, ac, |before| - bc, DIFF_HUNK_CONTEXT_LINES, 0);
    } else {
      var h := hunks[0];
      assert |before[bc..h.beforeStart]| == |after[ac..h.afterStart]|;
      StretchFaithful(before, after, bc, ac, h.beforeStart - bc, LeadingContext(first), DIFF_HUNK_CONTEXT_LINES);
      HunkFaithful(before, after, h);
      FaithfulFrom(before, after, hunks[1..], false, h.beforeEnd, h.afterEnd);
    }
  }

  lemma EveryRowFaithful(before: seq<Line>, after: seq<Line>, hunks: seq<Hunk>)
    requires Valid(before, after, hunks)
    ensures RowsFaithful(SideBySideRows(before, after, hunks), before, after)
  {
    if hunks != [] {
      FaithfulFrom(before, after, hunks, true, 0, 0);
    }
  }
}
