/** Reading the rows as a patch: they turn the old text into the new one, and read in the mirror
    they turn the new text back into the old one. */
module DiffReplay {
  import opened Wrappers
  import opened DiffEngine

  /** The lines of a text as they are displayed. */
  function Shown(lines: seq<Line>): (texts: seq<string>)
    ensures |texts| == |lines|
    ensures forall i :: 0 <= i < |lines| ==> texts[i] == lines[i].Shown()
  {
    seq(|lines|, i requires 0 <= i < |lines| => lines[i].Shown())
  }

  function Prepend(head: seq<string>, rest: Option<seq<string>>): Option<seq<string>> {
    match rest
    case Some(tail) => Some(head + tail)
    case None => None
  }

  /** What one row does to the lines it meets: how many it consumes and what it puts in their place. */
  datatype Edit = Edit(consumed: nat, output: seq<string>)

  /** One row read as a patch instruction, from its kind, texts and hidden count alone: a collapsed row
      copies as many lines as it hides, a context row copies the line it shows, a removed row drops it,
      a modified row replaces it and an added row inserts one. There is no edit when the row does not
      show the line it meets. */
  function RowEdit(row: DiffLine, source: seq<string>): (edit: Option<Edit>)
    ensures edit.Some? ==> edit.value.consumed <= |source|
  {
    if row.gap.Some? then
      var hidden := row.gap.value.before;
      if hidden <= |source| then Some(Edit(hidden, source[..hidden])) else None
    else if row.kind == Added then Some(Edit(0, [row.rightText]))
    else if row.kind == FileHeader || source == [] || row.leftText != source[0] then None
    else if row.kind == Context then Some(Edit(1, [source[0]]))
    else if row.kind == Modified then Some(Edit(1, [row.rightText]))
    else Some(Edit(1, []))
  }

  /** Applies the rows to `source` in order; lines left over at the end make the patch fail. */
  function Replay(rows: seq<DiffLine>, source: seq<string>): Option<seq<string>>
    decreases |rows|
  {
    if rows == [] then
      if source == [] then Some([]) else None
    else
      match RowEdit(rows[0], source)
      case None => None
      case Some(edit) => Prepend(edit.output, Replay(rows[1..], source[edit.consumed..]))
  }

  lemma ReplayNil(source: seq<string>)
    ensures Replay([], source) == if source == [] then Some([]) else None
  {
  }

  lemma ReplayCons(rows: seq<DiffLine>, source: seq<string>)
    requires rows != []
    ensures Replay(rows, source)
         == if RowEdit(rows[0], source).None? then None
            else Prepend(RowEdit(rows[0], source).value.output,
                         Replay(rows[1..], source[RowEdit(rows[0], source).value.consumed..]))
  {
    hide RowEdit;
  }

  lemma RowEditAppend(row: DiffLine, source: seq<string>, more: seq<string>)
    requires RowEdit(row, source).Some?
    ensures RowEdit(row, source + more) == RowEdit(row, source)
  {
    var k := RowEdit(row, source).value.consumed;
    assert (source + more)[..k] == source[..k];
  }

  /** Replaying one row list after another is replaying the whole. */
  lemma {:induction false} ReplayAppend(rows1: seq<DiffLine>, rows2: seq<DiffLine>,
                                        source1: seq<string>, source2: seq<string>,
                                        target1: seq<string>, target2: seq<string>)
    requires Replay(rows1, source1) == Some(target1)
    requires Replay(rows2, source2) == Some(target2)
    ensures Replay(rows1 + rows2, source1 + source2) == Some(target1 + target2)
    decreases |rows1|
  {
    hide RowEdit, Replay;
    if rows1 == [] {
      ReplayNil(source1);
      assert rows1 + rows2 == rows2 && source1 + source2 == source2 && target1 + target2 == target2;
    } else {
      ReplayCons(rows1, source1);
      ReplayCons(rows1 + rows2, source1 + source2);
      var edit := RowEdit(rows1[0], source1).value;
      var tail := Replay(rows1[1..], source1[edit.consumed..]).value;
      RowEditAppend(rows1[0], source1, source2);
      ReplayAppend(rows1[1..], rows2, source1[edit.consumed..], source2, tail, target2);
      assert (rows1 + rows2)[1..] == rows1[1..] + rows2;
      assert (source1 + source2)[edit.consumed..] == source1[edit.consumed..] + source2;
      assert edit.output + (tail + target2) == edit.output + tail + target2;
    }
  }

  // ---------- the three sorts of rows ----------

  lemma {:induction false} ReplayCopies(rows: seq<DiffLine>, source: seq<string>)
    requires |rows| == |source|
    requires forall i :: 0 <= i < |rows| ==>
      rows[i].gap.None? && rows[i].kind == Context && rows[i].leftText == source[i]
    ensures Replay(rows, source) == Some(source)
    decreases |rows|
  {
    hide Replay;
    if rows == [] {
      ReplayNil(source);
    } else {
      ReplayCons(rows, source);
      ReplayCopies(rows[1..], source[1..]);
      assert source == [source[0]] + source[1..];
    }
  }

  lemma ReplayPaired(before: seq<Line>, after: seq<Line>, b: nat, a: nat, count: nat)
    requires b + count <= |before|
    ensures Replay(PairedRows(before, after, b, a, count), Shown(before[b..b + count]))
         == Some(Shown(before[b..b + count]))
  {
    var rows, source := PairedRows(before, after, b, a, count), Shown(before[b..b + count]);
    forall i | 0 <= i < count
      ensures rows[i].gap.None? && rows[i].kind == Context && rows[i].leftText == source[i]
    {
      assert rows[i] == PairedRow(before, after, b + i, a + i);
      assert before[b..b + count][i] == before[b + i];
    }
    ReplayCopies(rows, source);
  }

  /** Row i of a hunk shows line i of each side that still has one. */
  predicate ShowsChange(row: DiffLine, gone: seq<string>, came: seq<string>, i: nat) {
    && row.gap.None?
    && (i < |gone| ==> row.leftText == gone[i])
    && (i < |came| ==> row.rightText == came[i])
    && row.kind == (if i < |gone| && i < |came| then Modified else if i < |gone| then Removed else Added)
  }

  lemma {:induction false} ReplayChange(rows: seq<DiffLine>, gone: seq<string>, came: seq<string>)
    requires |rows| == Max(|gone|, |came|)
    requires forall i :: 0 <= i < |rows| ==> ShowsChange(rows[i], gone, came, i)
    ensures Replay(rows, gone) == Some(came)
    decreases |rows|
  {
    hide Replay;
    if rows == [] {
      ReplayNil(gone);
    } else {
      assert ShowsChange(rows[0], gone, came, 0);
      var gone', came' := if gone == [] then [] else gone[1..], if came == [] then [] else came[1..];
      forall i | 0 <= i < |rows| - 1
        ensures ShowsChange(rows[1..][i], gone', came', i)
      {
        assert ShowsChange(rows[i + 1], gone, came, i + 1);
      }
      ReplayChange(rows[1..], gone', came');
      ReplayCons(rows, gone);
      assert gone[RowEdit(rows[0], gone).value.consumed..] == gone';
      assert came == RowEdit(rows[0], gone).value.output + came';
    }
  }

  lemma ReplayHunk(before: seq<Line>, after: seq<Line>, h: Hunk)
    requires h.beforeStart <= h.beforeEnd <= |before|
    requires h.afterStart <= h.afterEnd <= |after|
    ensures Replay(HunkRows(before, after, h), Shown(before[h.beforeStart..h.beforeEnd]))
         == Some(Shown(after[h.afterStart..h.afterEnd]))
  {
    var gone, came := Shown(before[h.beforeStart..h.beforeEnd]), Shown(after[h.afterStart..h.afterEnd]);
    var rows := HunkRows(before, after, h);
    forall i | 0 <= i < |rows|
      ensures ShowsChange(rows[i], gone, came, i)
    {
    }
    ReplayChange(rows, gone, came);
  }

  lemma ReplayGap(source: seq<string>, hiddenAfter: nat)
    requires |source| > 0 || hiddenAfter == 0
    ensures Replay(GapRows(|source|, hiddenAfter), source) == Some(source)
  {
    if |source| > 0 {
      var row := GapRow(|source|, hiddenAfter);
      assert Replay([row], source) == Prepend(source[..|source|], Replay([row][1..], source[|source|..]));
      assert [row][1..] == [] && source[|source|..] == [] && source[..|source|] == source;
      assert source + [] == source;
    }
  }

  // ---------- an unchanged stretch ----------

  lemma ShownSplit(lines: seq<Line>, i: nat, j: nat, k: nat)
    requires i <= j <= k <= |lines|
    ensures Shown(lines[i..k]) == Shown(lines[i..j]) + Shown(lines[j..k])
  {
  }

  lemma ShownThree(lines: seq<Line>, i: nat, j: nat, k: nat, m: nat)
    requires i <= j <= k <= m <= |lines|
    ensures Shown(lines[i..m]) == Shown(lines[i..j]) + Shown(lines[j..k]) + Shown(lines[k..m])
  {
    ShownSplit(lines, i, j, k);
    ShownSplit(lines, i, k, m);
  }

  lemma ReplayThree(rows1: seq<DiffLine>, rows2: seq<DiffLine>, rows3: seq<DiffLine>,
                    text1: seq<string>, text2: seq<string>, text3: seq<string>)
    requires Replay(rows1, text1) == Some(text1)
    requires Replay(rows2, text2) == Some(text2)
    requires Replay(rows3, text3) == Some(text3)
    ensures Replay(rows1 + rows2 + rows3, text1 + text2 + text3) == Some(text1 + text2 + text3)
  {
    hide Replay;
    ReplayAppend(rows1, rows2, text1, text2, text1, text2);
    ReplayAppend(rows1 + rows2, rows3, text1 + text2, text3, text1 + text2, text3);
  }

  lemma SameCount(before: seq<Line>, after: seq<Line>, b: nat, a: nat, count: nat)
    ensures ContextRows(before, after, b, count, a, count) == PairedRows(before, after, b, a, count)
  {
  }

  lemma ReplayStretch(before: seq<Line>, after: seq<Line>, b0: nat, b1: nat, a0: nat, a1: nat,
                      lead: nat, trail: nat)
    requires SameLines(before, after, b0, b1, a0, a1)
    ensures Replay(StretchRows(before, after, b0, b1, a0, a1, lead, trail), Shown(before[b0..b1]))
         == Some(Shown(after[a0..a1]))
  {
    hide Replay, StretchRows;
    var count := b1 - b0;
    assert |before[b0..b1]| == |after[a0..a1]|;
    var l, t := LeadShown(count, lead), TrailShown(count, lead, trail);
    assert Shown(before[b0..b1]) == Shown(after[a0..a1]);
    StretchShape(before, after, b0, a0, count, lead, trail);
    ReplayShape(before, after, b0, a0, l, count - l - t, t);
  }

  /** With equally long sides every shown line has its partner. */
  lemma StretchShape(before: seq<Line>, after: seq<Line>, b0: nat, a0: nat, count: nat, lead: nat, trail: nat)
    ensures var l, t := LeadShown(count, lead), TrailShown(count, lead, trail);
      && l + t <= count
      && StretchRows(before, after, b0, b0 + count, a0, a0 + count, lead, trail)
         == PairedRows(before, after, b0, a0, l) + GapRows(count - l - t, count - l - t)
            + PairedRows(before, after, b0 + count - t, a0 + count - t, t)
  {
    hide PairedRows, GapRows;
    var l, t := LeadShown(count, lead), TrailShown(count, lead, trail);
    SameCount(before, after, b0, a0, l);
    SameCount(before, after, b0 + count - t, a0 + count - t, t);
    StretchParts(before, after, b0, b0 + count, a0, a0 + count, lead, trail, count, count);
    hide ContextRows, PairedRows, GapRows, StretchRows;
  }

  lemma ReplayShape(before: seq<Line>, after: seq<Line>, b: nat, a: nat, l: nat, hidden: nat, t: nat)
    requires b + l + hidden + t <= |before|
    ensures Replay(PairedRows(before, after, b, a, l) + GapRows(hidden, hidden)
                   + PairedRows(before, after, b + l + hidden, a + l + hidden, t),
                   Shown(before[b..b + l + hidden + t]))
         == Some(Shown(before[b..b + l + hidden + t]))
  {
    hide Replay, PairedRows, GapRows;
    var m1, m2, end := b + l, b + l + hidden, b + l + hidden + t;
    ReplayPaired(before, after, b, a, l);
    ReplayGap(Shown(before[m1..m2]), hidden);
    ReplayPaired(before, after, m2, a + l + hidden, t);
    ReplayThree(PairedRows(before, after, b, a, l), GapRows(hidden, hidden),
                PairedRows(before, after, m2, a + l + hidden, t),
                Shown(before[b..m1]), Shown(before[m1..m2]), Shown(before[m2..end]));
    ShownThree(before, b, m1, m2, end);
  }

  // ---------- the whole file ----------

  lemma {:induction false} ReplayFrom(before: seq<Line>, after: seq<Line>, hunks: seq<Hunk>,
                                      first: bool, bc: nat, ac: nat)
    requires ValidFrom(before, after, hunks, bc, ac)
    ensures bc <= |before| && ac <= |after|
    ensures Replay(RowsFrom(before, after, hunks, first, bc, ac), Shown(before[bc..])) == Some(Shown(after[ac..]))
    decreases |hunks|
  {
    hide Replay, Shown, StretchRows, HunkRows;
    ValidIsOrdered(before, after, hunks, bc, ac);
    if hunks == [] {
      ReplayStretch(before, after, bc, |before|, ac, |after|, DIFF_HUNK_CONTEXT_LINES, 0);
      assert before[bc..|before|] == before[bc..] && after[ac..|after|] == after[ac..];
    } else {
      var h, rest := hunks[0], hunks[1..];
      ValidIsOrdered(before, after, rest, h.beforeEnd, h.afterEnd);
      var lead := LeadingContext(first);
      var stretch := StretchRows(before, after, bc, h.beforeStart, ac, h.afterStart, lead, DIFF_HUNK_CONTEXT_LINES);
      ReplayStretch(before, after, bc, h.beforeStart, ac, h.afterStart, lead, DIFF_HUNK_CONTEXT_LINES);
      ReplayHunk(before, after, h);
      ReplayFrom(before, after, rest, false, h.beforeEnd, h.afterEnd);
      JoinReplay(before, after, bc, h, ac, stretch, HunkRows(before, after, h),
                 RowsFrom(before, after, rest, false, h.beforeEnd, h.afterEnd));
    }
  }

  lemma JoinReplay(before: seq<Line>, after: seq<Line>, bc: nat, h: Hunk, ac: nat,
                   stretch: seq<DiffLine>, change: seq<DiffLine>, rest: seq<DiffLine>)
    requires bc <= h.beforeStart <= h.beforeEnd <= |before|
    requires ac <= h.afterStart <= h.afterEnd <= |after|
    requires Replay(stretch, Shown(before[bc..h.beforeStart])) == Some(Shown(after[ac..h.afterStart]))
    requires Replay(change, Shown(before[h.beforeStart..h.beforeEnd])) == Some(Shown(after[h.afterStart..h.afterEnd]))
    requires Replay(rest, Shown(before[h.beforeEnd..])) == Some(Shown(after[h.afterEnd..]))
    ensures Replay(stretch + change + rest, Shown(before[bc..])) == Some(Shown(after[ac..]))
  {
    hide Replay;
    ShownSplit(before, bc, h.beforeStart, h.beforeEnd);
    ShownSplit(before, bc, h.beforeEnd, |before|);
    ShownSplit(after, ac, h.afterStart, h.afterEnd);
    ShownSplit(after, ac, h.afterEnd, |after|);
    assert before[bc..] == before[bc..|before|] && before[h.beforeEnd..] == before[h.beforeEnd..|before|];
    assert after[ac..] == after[ac..|after|] && after[h.afterEnd..] == after[h.afterEnd..|after|];
    ReplayAppend(stretch, change, Shown(before[bc..h.beforeStart]), Shown(before[h.beforeStart..h.beforeEnd]),
                 Shown(after[ac..h.afterStart]), Shown(after[h.afterStart..h.afterEnd]));
    ReplayAppend(stretch + change, rest, Shown(before[bc..h.beforeEnd]), Shown(before[h.beforeEnd..]),
                 Shown(after[ac..h.afterEnd]), Shown(after[h.afterEnd..]));
  }

  /** The displayed rows rebuild the new text from the old one. */
  lemma ReplayForward(before: seq<Line>, after: seq<Line>, hunks: seq<Hunk>)
    requires hunks != [] && Valid(before, after, hunks)
    ensures Replay(SideBySideRows(before, after, hunks), Shown(before)) == Some(Shown(after))
  {
    ReplayFrom(before, after, hunks, true, 0, 0);
    assert before[0..] == before && after[0..] == after;
  }

  // ---------- the mirror ----------

  function FlipKind(kind: DiffLineKind): DiffLineKind {
    match kind
    case Added => Removed
    case Removed => Added
    case _ => kind
  }

  /** A row with its two columns exchanged. */
  function FlipRow(row: DiffLine): DiffLine {
    DiffLine(row.rightNumber, row.leftNumber, row.rightText, row.leftText, FlipKind(row.kind),
             match row.gap { case Some(g) => Some(GapCounts(g.after, g.before)) case None => None })
  }

  function FlipRows(rows: seq<DiffLine>): (mirrored: seq<DiffLine>)
    ensures |mirrored| == |rows|
    ensures forall i :: 0 <= i < |rows| ==> mirrored[i] == FlipRow(rows[i])
  {
    seq(|rows|, i requires 0 <= i < |rows| => FlipRow(rows[i]))
  }

  function FlipHunk(h: Hunk): Hunk {
    Hunk(h.afterStart, h.afterEnd, h.beforeStart, h.beforeEnd)
  }

  function FlipHunks(hunks: seq<Hunk>): seq<Hunk> {
    seq(|hunks|, i requires 0 <= i < |hunks| => FlipHunk(hunks[i]))
  }

  lemma FlipAppend(rows1: seq<DiffLine>, rows2: seq<DiffLine>)
    ensures FlipRows(rows1 + rows2) == FlipRows(rows1) + FlipRows(rows2)
  {
  }

  lemma FlipPaired(before: seq<Line>, after: seq<Line>, b: nat, a: nat, n: nat)
    ensures FlipRows(PairedRows(before, after, b, a, n)) == PairedRows(after, before, a, b, n)
  {
    forall i | 0 <= i < n
      ensures FlipRows(PairedRows(before, after, b, a, n))[i] == PairedRows(after, before, a, b, n)[i]
    {
    }
  }

  lemma FlipOneSided(before: seq<Line>, after: seq<Line>, k: nat, n: nat)
    ensures FlipRows(LeftOnlyRows(before, after, k, n)) == RightOnlyRows(after, before, k, n)
    ensures FlipRows(RightOnlyRows(before, after, k, n)) == LeftOnlyRows(after, before, k, n)
  {
    forall i | 0 <= i < n
      ensures FlipRows(LeftOnlyRows(before, after, k, n))[i] == RightOnlyRows(after, before, k, n)[i]
      ensures FlipRows(RightOnlyRows(before, after, k, n))[i] == LeftOnlyRows(after, before, k, n)[i]
    {
    }
  }

  lemma FlipContext(before: seq<Line>, after: seq<Line>, b: nat, bCount: nat, a: nat, aCount: nat)
    ensures ContextRows(after, before, a, aCount, b, bCount) == FlipRows(ContextRows(before, after, b, bCount, a, aCount))
  {
    var n := Min(bCount, aCount);
    var paired, left, right := PairedRows(before, after, b, a, n),
      LeftOnlyRows(before, after, b + n, bCount - n), RightOnlyRows(before, after, a + n, aCount - n);
    FlipPaired(before, after, b, a, n);
    FlipOneSided(before, after, b + n, bCount - n);
    FlipOneSided(before, after, a + n, aCount - n);
    FlipAppend(paired, left);
    FlipAppend(paired + left, right);
    assert left == [] || right == [];
  }

  lemma FlipHunkRows(before: seq<Line>, after: seq<Line>, h: Hunk)
    ensures HunkRows(after, before, FlipHunk(h)) == FlipRows(HunkRows(before, after, h))
  {
  }

  lemma FlipStretch(before: seq<Line>, after: seq<Line>, b0: nat, b1: nat, a0: nat, a1: nat, lead: nat, trail: nat)
    ensures StretchRows(after, before, a0, a1, b0, b1, lead, trail)
         == FlipRows(StretchRows(before, after, b0, b1, a0, a1, lead, trail))
  {
    hide GapText, ContextRows;
    var bc, ac := SaturatingSub(b1, b0), SaturatingSub(a1, a0);
    var bt, at := TrailShown(bc, lead, trail), TrailShown(ac, lead, trail);
    var head := ContextRows(before, after, b0, LeadShown(bc, lead), a0, LeadShown(ac, lead));
    var gap := GapRows(HiddenCount(bc, lead, trail), HiddenCount(ac, lead, trail));
    var tail := ContextRows(before, after, b1 - bt, bt, a1 - at, at);
    FlipContext(before, after, b0, LeadShown(bc, lead), a0, LeadShown(ac, lead));
    FlipContext(before, after, b1 - bt, bt, a1 - at, at);
    assert GapRows(HiddenCount(ac, lead, trail), HiddenCount(bc, lead, trail)) == FlipRows(gap);
    hide ContextRows, GapRows;
    FlipAppend(head, gap);
    FlipAppend(head + gap, tail);
  }

  lemma {:induction false} MirrorFrom(before: seq<Line>, after: seq<Line>, hunks: seq<Hunk>,
                                      first: bool, bc: nat, ac: nat)
    ensures RowsFrom(after, before, FlipHunks(hunks), first, ac, bc)
         == FlipRows(RowsFrom(before, after, hunks, first, bc, ac))
    decreases |hunks|
  {
    hide StretchRows, HunkRows;
    if hunks == [] {
      FlipStretch(before, after, bc, |before|, ac, |after|, DIFF_HUNK_CONTEXT_LINES, 0);
    } else {
      var h := hunks[0];
      var lead := LeadingContext(first);
      var stretch := StretchRows(before, after, bc, h.beforeStart, ac, h.afterStart, lead, DIFF_HUNK_CONTEXT_LINES);
      FlipStretch(before, after, bc, h.beforeStart, ac, h.afterStart, lead, DIFF_HUNK_CONTEXT_LINES);
      FlipHunkRows(before, after, h);
      MirrorFrom(before, after, hunks[1..], false, h.beforeEnd, h.afterEnd);
      assert FlipHunks(hunks)[1..] == FlipHunks(hunks[1..]);
      FlipAppend(stretch, HunkRows(before, after, h));
      FlipAppend(stretch + HunkRows(before, after, h),
                 RowsFrom(before, after, hunks[1..], false, h.beforeEnd, h.afterEnd));
    }
  }

  /** Diffing in the other direction exchanges the two columns and changes nothing else, whatever the hunks. */
  lemma Mirror(before: seq<Line>, after: seq<Line>, hunks: seq<Hunk>)
    ensures SideBySideRows(after, before, FlipHunks(hunks)) == FlipRows(SideBySideRows(before, after, hunks))
  {
    MirrorFrom(before, after, hunks, true, 0, 0);
  }

  lemma {:induction false} FlipOrdered(hunks: seq<Hunk>, bc: nat, ac: nat, beforeLen: nat, afterLen: nat)
    requires OrderedFrom(hunks, bc, ac, beforeLen, afterLen)
    ensures OrderedFrom(FlipHunks(hunks), ac, bc, afterLen, beforeLen)
    decreases |hunks|
  {
    if hunks != [] {
      FlipOrdered(hunks[1..], hunks[0].beforeEnd, hunks[0].afterEnd, beforeLen, afterLen);
      assert FlipHunks(hunks)[1..] == FlipHunks(hunks[1..]);
    }
  }

  lemma {:induction false} FlipValid(before: seq<Line>, after: seq<Line>, hunks: seq<Hunk>, bc: nat, ac: nat)
    requires ValidFrom(before, after, hunks, bc, ac)
    ensures ValidFrom(after, before, FlipHunks(hunks), ac, bc)
    decreases |hunks|
  {
    if hunks != [] {
      FlipValid(before, after, hunks[1..], hunks[0].beforeEnd, hunks[0].afterEnd);
      assert FlipHunks(hunks)[1..] == FlipHunks(hunks[1..]);
    }
  }

  /** Read in the mirror, the same rows rebuild the old text from the new one. */
  lemma ReplayBackward(before: seq<Line>, after: seq<Line>, hunks: seq<Hunk>)
    requires hunks != [] && Valid(before, after, hunks)
    ensures Replay(FlipRows(SideBySideRows(before, after, hunks)), Shown(after)) == Some(Shown(before))
  {
    FlipValid(before, after, hunks, 0, 0);
    ReplayForward(after, before, FlipHunks(hunks));
    Mirror(before, after, hunks);
  }
}
