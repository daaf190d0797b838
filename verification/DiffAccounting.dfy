/** No line of either text is lost or shown twice: each is numbered on exactly one row or counted in
    exactly one collapsed row. Everything is stated for the left column; the right column is the left
    column of the mirrored rows. */
module DiffAccounting {
  import opened Wrappers
  import opened DiffEngine
  import opened DiffReplay

  /** How many before-lines a row stands for. */
  function LeftWidth(row: DiffLine): nat {
    if row.leftNumber.Some? then 1
    else if row.gap.Some? then row.gap.value.before
    else 0
  }

  function LeftSpan(rows: seq<DiffLine>): nat {
    if rows == [] then 0 else LeftWidth(rows[0]) + LeftSpan(rows[1..])
  }

  /** Reading down from line `c`, every numbered row carries the number of the next line not yet met. */
  predicate LeftReads(rows: seq<DiffLine>, c: nat)
    decreases |rows|
  {
    rows != [] ==>
      && (rows[0].leftNumber.Some? ==> rows[0].leftNumber.value == c + 1)
      && LeftReads(rows[1..], c + LeftWidth(rows[0]))
  }

  /** Row r shows the given before-line, or counts it among the lines it hides. */
  predicate Covers(rows: seq<DiffLine>, r: nat, line: nat) {
    && r < |rows|
    && if rows[r].leftNumber.Some? then rows[r].leftNumber.value == line + 1
       else rows[r].gap.Some? && LeftSpan(rows[..r]) <= line < LeftSpan(rows[..r]) + rows[r].gap.value.before
  }

  ghost predicate Covered(rows: seq<DiffLine>, line: nat) {
    exists r :: Covers(rows, r, line)
  }

  /** The left column accounts for a text of `count` lines: numbers are in range and strictly increasing,
      and each line is covered by exactly one row. */
  ghost predicate LeftAccounted(rows: seq<DiffLine>, count: nat) {
    && (forall r :: 0 <= r < |rows| && rows[r].leftNumber.Some? ==> 1 <= rows[r].leftNumber.value <= count)
    && (forall r, s :: 0 <= r < s < |rows| && rows[r].leftNumber.Some? && rows[s].leftNumber.Some? ==>
          rows[r].leftNumber.value < rows[s].leftNumber.value)
    && (forall line :: 0 <= line < count ==> Covered(rows, line))
    && (forall line, r, s :: Covers(rows, r, line) && Covers(rows, s, line) ==> r == s)
  }

  // ---------- from reading in order to the account ----------

  lemma {:induction false} SpanAppend(rows1: seq<DiffLine>, rows2: seq<DiffLine>)
    ensures LeftSpan(rows1 + rows2) == LeftSpan(rows1) + LeftSpan(rows2)
    decreases |rows1|
  {
    if rows1 == [] {
      assert rows1 + rows2 == rows2;
    } else {
      SpanAppend(rows1[1..], rows2);
      assert (rows1 + rows2)[1..] == rows1[1..] + rows2;
    }
  }

  lemma {:induction false} ReadsAppend(rows1: seq<DiffLine>, rows2: seq<DiffLine>, c: nat)
    requires LeftReads(rows1, c) && LeftReads(rows2, c + LeftSpan(rows1))
    ensures LeftReads(rows1 + rows2, c)
    decreases |rows1|
  {
    if rows1 == [] {
      assert rows1 + rows2 == rows2;
    } else {
      ReadsAppend(rows1[1..], rows2, c + LeftWidth(rows1[0]));
      assert (rows1 + rows2)[1..] == rows1[1..] + rows2;
    }
  }

  /** Where row r starts, and what follows it. */
  lemma {:induction false} ReadsAt(rows: seq<DiffLine>, c: nat, r: nat)
    requires LeftReads(rows, c) && r < |rows|
    ensures rows[r].leftNumber.Some? ==> rows[r].leftNumber.value == c + LeftSpan(rows[..r]) + 1
    decreases r
  {
    if r == 0 {
      assert rows[..0] == [];
    } else {
      ReadsAt(rows[1..], c + LeftWidth(rows[0]), r - 1);
      assert rows[..r][1..] == rows[1..][..r - 1];
    }
  }

  lemma SpanBefore(rows: seq<DiffLine>, r: nat, s: nat)
    requires r < s <= |rows|
    ensures LeftSpan(rows[..r]) + LeftWidth(rows[r]) <= LeftSpan(rows[..s])
  {
    SpanAppend(rows[..r], rows[r..s]);
    assert rows[..r] + rows[r..s] == rows[..s];
  }

  lemma {:induction false} FindCover(rows: seq<DiffLine>, line: nat) returns (r: nat)
    requires line < LeftSpan(rows)
    ensures r < |rows| && LeftSpan(rows[..r]) <= line < LeftSpan(rows[..r]) + LeftWidth(rows[r])
    decreases |rows|
  {
    if line < LeftWidth(rows[0]) {
      r := 0;
      assert rows[..0] == [];
    } else {
      var s := FindCover(rows[1..], line - LeftWidth(rows[0]));
      r := s + 1;
      assert rows[..r][1..] == rows[1..][..s];
    }
  }

  lemma CoversIs(rows: seq<DiffLine>, r: nat, line: nat)
    requires LeftReads(rows, 0) && r < |rows|
    ensures Covers(rows, r, line) <==> LeftSpan(rows[..r]) <= line < LeftSpan(rows[..r]) + LeftWidth(rows[r])
  {
    ReadsAt(rows, 0, r);
  }

  lemma ReadingAccounts(rows: seq<DiffLine>)
    requires LeftReads(rows, 0)
    ensures LeftAccounted(rows, LeftSpan(rows))
  {
    hide LeftReads;
    forall r | 0 <= r < |rows| && rows[r].leftNumber.Some?
      ensures 1 <= rows[r].leftNumber.value <= LeftSpan(rows)
    {
      ReadsAt(rows, 0, r);
      SpanBefore(rows, r, |rows|);
      assert rows[..|rows|] == rows;
    }
    forall r, s | 0 <= r < s < |rows| && rows[r].leftNumber.Some? && rows[s].leftNumber.Some?
      ensures rows[r].leftNumber.value < rows[s].leftNumber.value
    {
      ReadsAt(rows, 0, r);
      ReadsAt(rows, 0, s);
      SpanBefore(rows, r, s);
    }
    forall line | 0 <= line < LeftSpan(rows)
      ensures Covered(rows, line)
    {
      var r := FindCover(rows, line);
      CoversIs(rows, r, line);
    }
    forall line, r, s | Covers(rows, r, line) && Covers(rows, s, line)
      ensures r == s
    {
      CoversIs(rows, r, line);
      CoversIs(rows, s, line);
      if r < s {
        SpanBefore(rows, r, s);
      } else if s < r {
        SpanBefore(rows, s, r);
      }
    }
  }

  // ---------- the sorts of rows ----------

  lemma {:induction false} RunReads(rows: seq<DiffLine>, c: nat)
    requires forall i :: 0 <= i < |rows| ==> rows[i].leftNumber == Some(c + i + 1)
    ensures LeftReads(rows, c) && LeftSpan(rows) == |rows|
    decreases |rows|
  {
    if rows != [] {
      RunReads(rows[1..], c + 1);
    }
  }

  lemma {:induction false} BlankReads(rows: seq<DiffLine>, c: nat)
    requires forall i :: 0 <= i < |rows| ==> rows[i].leftNumber.None? && rows[i].gap.None?
    ensures LeftReads(rows, c) && LeftSpan(rows) == 0
    decreases |rows|
  {
    if rows != [] {
      BlankReads(rows[1..], c);
    }
  }

  lemma GapReads(hiddenBefore: nat, hiddenAfter: nat, c: nat)
    ensures LeftReads(GapRows(hiddenBefore, hiddenAfter), c)
    ensures LeftSpan(GapRows(hiddenBefore, hiddenAfter)) == hiddenBefore
  {
    hide GapText;
    var rows := GapRows(hiddenBefore, hiddenAfter);
    if rows != [] {
      assert rows[1..] == [];
      assert LeftSpan(rows) == LeftWidth(rows[0]) + LeftSpan(rows[1..]);
      assert LeftReads(rows[1..], c + LeftWidth(rows[0]));
    }
  }

  /** Two parts read in a row. */
  lemma JoinReads(rows1: seq<DiffLine>, rows2: seq<DiffLine>, c: nat)
    requires LeftReads(rows1, c) && LeftReads(rows2, c + LeftSpan(rows1))
    ensures LeftReads(rows1 + rows2, c)
    ensures LeftSpan(rows1 + rows2) == LeftSpan(rows1) + LeftSpan(rows2)
  {
    ReadsAppend(rows1, rows2, c);
    SpanAppend(rows1, rows2);
  }

  lemma ContextReads(before: seq<Line>, after: seq<Line>, b: nat, bCount: nat, a: nat, aCount: nat)
    ensures LeftReads(ContextRows(before, after, b, bCount, a, aCount), b)
    ensures LeftSpan(ContextRows(before, after, b, bCount, a, aCount)) == bCount
  {
    hide LeftReads, LeftSpan, PairedRows, LeftOnlyRows, RightOnlyRows, RopeDisplayLine;
    var n := Min(bCount, aCount);
    var paired, left, right := PairedRows(before, after, b, a, n),
      LeftOnlyRows(before, after, b + n, bCount - n), RightOnlyRows(before, after, a + n, aCount - n);
    RunReads(paired, b);
    RunReads(left, b + n);
    BlankReads(right, b + bCount);
    JoinReads(paired, left, b);
    JoinReads(paired + left, right, b);
  }

  lemma HunkReads(before: seq<Line>, after: seq<Line>, h: Hunk)
    requires h.beforeStart <= h.beforeEnd
    ensures LeftReads(HunkRows(before, after, h), h.beforeStart)
    ensures LeftSpan(HunkRows(before, after, h)) == h.beforeEnd - h.beforeStart
  {
    hide LeftReads, LeftSpan;
    var rows, n := HunkRows(before, after, h), h.beforeEnd - h.beforeStart;
    RunReads(rows[..n], h.beforeStart);
    BlankReads(rows[n..], h.beforeEnd);
    JoinReads(rows[..n], rows[n..], h.beforeStart);
    assert rows[..n] + rows[n..] == rows;
  }

  lemma StretchReads(before: seq<Line>, after: seq<Line>, b0: nat, b1: nat, a0: nat, a1: nat, lead: nat, trail: nat)
    requires b0 <= b1
    ensures LeftReads(StretchRows(before, after, b0, b1, a0, a1, lead, trail), b0)
    ensures LeftSpan(StretchRows(before, after, b0, b1, a0, a1, lead, trail)) == b1 - b0
  {
    hide LeftReads, LeftSpan, ContextRows, GapRows;
    var bc, ac := b1 - b0, SaturatingSub(a1, a0);
    var bl, bt := LeadShown(bc, lead), TrailShown(bc, lead, trail);
    var al, at := LeadShown(ac, lead), TrailShown(ac, lead, trail);
    var head, gap, tail := ContextRows(before, after, b0, bl, a0, al),
      GapRows(HiddenCount(bc, lead, trail), HiddenCount(ac, lead, trail)),
      ContextRows(before, after, b1 - bt, bt, a1 - at, at);
    ContextReads(before, after, b0, bl, a0, al);
    GapReads(HiddenCount(bc, lead, trail), HiddenCount(ac, lead, trail), b0 + bl);
    ContextReads(before, after, b1 - bt, bt, a1 - at, at);
    JoinReads(head, gap, b0);
    JoinReads(head + gap, tail, b0);
  }

  lemma {:induction false} RowsRead(before: seq<Line>, after: seq<Line>, hunks: seq<Hunk>,
                                    first: bool, bc: nat, ac: nat)
    requires OrderedFrom(hunks, bc, ac, |before|, |after|)
    ensures bc <= |before|
    ensures LeftReads(RowsFrom(before, after, hunks, first, bc, ac), bc)
    ensures LeftSpan(RowsFrom(before, after, hunks, first, bc, ac)) == |before| - bc
    decreases |hunks|
  {
    hide LeftReads, LeftSpan, StretchRows, HunkRows;
    if hunks == [] {
      StretchReads(before, after, bc, |before|, ac, |after|, DIFF_HUNK_CONTEXT_LINES, 0);
    } else {
      var h := hunks[0];
      var stretch := StretchRows(before, after, bc, h.beforeStart, ac, h.afterStart,
                                 LeadingContext(first), DIFF_HUNK_CONTEXT_LINES);
      StretchReads(before, after, bc, h.beforeStart, ac, h.afterStart, LeadingContext(first), DIFF_HUNK_CONTEXT_LINES);
      HunkReads(before, after, h);
      RowsRead(before, after, hunks[1..], false, h.beforeEnd, h.afterEnd);
      JoinReads(stretch, HunkRows(before, after, h), bc);
      JoinReads(stretch + HunkRows(before, after, h),
                RowsFrom(before, after, hunks[1..], false, h.beforeEnd, h.afterEnd), bc);
    }
  }

  lemma LeftColumnAccounts(before: seq<Line>, after: seq<Line>, hunks: seq<Hunk>)
    requires hunks != [] && Ordered(before, after, hunks)
    ensures LeftAccounted(SideBySideRows(before, after, hunks), |before|)
  {
    hide LeftReads, LeftSpan, LeftAccounted, RowsFrom;
    RowsRead(before, after, hunks, true, 0, 0);
    ReadingAccounts(SideBySideRows(before, after, hunks));
  }

  /** Both columns account for their text, even when the unchanged stretches have unequal lengths. */
  lemma LinesAccountedFor(before: seq<Line>, after: seq<Line>, hunks: seq<Hunk>)
    requires hunks != [] && Ordered(before, after, hunks)
    ensures LeftAccounted(SideBySideRows(before, after, hunks), |before|)
    ensures LeftAccounted(FlipRows(SideBySideRows(before, after, hunks)), |after|)
  {
    LeftColumnAccounts(before, after, hunks);
    FlipOrdered(hunks, 0, 0, |before|, |after|);
    LeftColumnAccounts(after, before, FlipHunks(hunks));
    Mirror(before, after, hunks);
  }

  // ---------- changed-line counts ----------

  datatype DiffLineSummary = DiffLineSummary(additions: nat, deletions: nat)

  function Deletions(hunks: seq<Hunk>): nat {
    if hunks == [] then 0
    else SaturatingSub(hunks[0].beforeEnd, hunks[0].beforeStart) + Deletions(hunks[1..])
  }

  function Additions(hunks: seq<Hunk>): nat {
    if hunks == [] then 0
    else SaturatingSub(hunks[0].afterEnd, hunks[0].afterStart) + Additions(hunks[1..])
  }

  /** The totals the change list shows next to a file. */
  method DiffLineStats(hunks: seq<Hunk>) returns (summary: DiffLineSummary)
    requires forall h :: h in hunks ==> h.beforeStart <= h.beforeEnd && h.afterStart <= h.afterEnd
    ensures summary == DiffLineSummary(Additions(hunks), Deletions(hunks))
  {
    var additions, deletions := 0, 0;
    for i := 0 to |hunks|
      invariant additions + Additions(hunks[i..]) == Additions(hunks)
      invariant deletions + Deletions(hunks[i..]) == Deletions(hunks)
    {
      var hunk := hunks[i];
      assert hunks[i..][1..] == hunks[i + 1..];
      deletions := deletions + (hunk.beforeEnd - hunk.beforeStart);
      additions := additions + (hunk.afterEnd - hunk.afterStart);
    }
    summary := DiffLineSummary(additions, deletions);
  }

  /** Rows that show a before-line as gone. */
  predicate LosesLine(row: DiffLine) {
    row.kind == Removed || row.kind == Modified
  }

  function LossCount(rows: seq<DiffLine>): nat {
    if rows == [] then 0 else (if LosesLine(rows[0]) then 1 else 0) + LossCount(rows[1..])
  }

  lemma {:induction false} LossAppend(rows1: seq<DiffLine>, rows2: seq<DiffLine>)
    ensures LossCount(rows1 + rows2) == LossCount(rows1) + LossCount(rows2)
    decreases |rows1|
  {
    if rows1 == [] {
      assert rows1 + rows2 == rows2;
    } else {
      LossAppend(rows1[1..], rows2);
      assert (rows1 + rows2)[1..] == rows1[1..] + rows2;
    }
  }

  /** The losing rows come first. */
  lemma {:induction false} LossOf(rows: seq<DiffLine>, k: nat)
    requires k <= |rows|
    requires forall i :: 0 <= i < |rows| ==> (LosesLine(rows[i]) <==> i < k)
    ensures LossCount(rows) == k
    decreases |rows|
  {
    if rows != [] {
      LossOf(rows[1..], if k == 0 then 0 else k - 1);
    }
  }

  lemma StretchLosesNothing(before: seq<Line>, after: seq<Line>, b0: nat, a0: nat, count: nat, lead: nat, trail: nat)
    ensures LossCount(StretchRows(before, after, b0, b0 + count, a0, a0 + count, lead, trail)) == 0
  {
    hide LossCount, GapText, StretchRows;
    StretchShape(before, after, b0, a0, count, lead, trail);
    LossOf(StretchRows(before, after, b0, b0 + count, a0, a0 + count, lead, trail), 0);
  }

  lemma {:induction false} LossesFrom(before: seq<Line>, after: seq<Line>, hunks: seq<Hunk>,
                                      first: bool, bc: nat, ac: nat)
    requires ValidFrom(before, after, hunks, bc, ac)
    ensures LossCount(RowsFrom(before, after, hunks, first, bc, ac)) == Deletions(hunks)
    decreases |hunks|
  {
    hide LossCount, StretchRows;
    if hunks == [] {
      assert |before[bc..|before|]| == |after[ac..|after|]|;
      StretchLosesNothing(before, after, bc, ac, |before| - bc, DIFF_HUNK_CONTEXT_LINES, 0);
    } else {
      var h := hunks[0];
      assert |before[bc..h.beforeStart]| == |after[ac..h.afterStart]|;
      var stretch := StretchRows(before, after, bc, h.beforeStart, ac, h.afterStart,
                                 LeadingContext(first), DIFF_HUNK_CONTEXT_LINES);
      StretchLosesNothing(before, after, bc, ac, h.beforeStart - bc, LeadingContext(first), DIFF_HUNK_CONTEXT_LINES);
      LossOf(HunkRows(before, after, h), h.beforeEnd - h.beforeStart);
      hide HunkRows;
      LossesFrom(before, after, hunks[1..], false, h.beforeEnd, h.afterEnd);
      LossAppend(stretch, HunkRows(before, after, h));
      LossAppend(stretch + HunkRows(before, after, h),
                 RowsFrom(before, after, hunks[1..], false, h.beforeEnd, h.afterEnd));
    }
  }

  lemma {:induction false} FlipCounts(hunks: seq<Hunk>)
    ensures Deletions(FlipHunks(hunks)) == Additions(hunks)
    decreases |hunks|
  {
    if hunks != [] {
      FlipCounts(hunks[1..]);
      assert FlipHunks(hunks)[1..] == FlipHunks(hunks[1..]);
    }
  }

  /** The rows show exactly as many deletions and additions as the change list counts on the same hunks. */
  lemma RowsMatchStats(before: seq<Line>, after: seq<Line>, hunks: seq<Hunk>)
    requires Valid(before, after, hunks)
    ensures LossCount(SideBySideRows(before, after, hunks)) == Deletions(hunks)
    ensures LossCount(FlipRows(SideBySideRows(before, after, hunks))) == Additions(hunks)
  {
    if hunks == [] {
      assert FlipRows([]) == [];
    } else {
      LossesFrom(before, after, hunks, true, 0, 0);
      FlipValid(before, after, hunks, 0, 0);
      LossesFrom(after, before, FlipHunks(hunks), true, 0, 0);
      Mirror(before, after, hunks);
      FlipCounts(hunks);
    }
  }
}
