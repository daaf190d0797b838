/** Side-by-side diff rows: a hunk list over two line sequences becomes numbered rows, three lines
    of context around each hunk, and one collapsed row for every longer unchanged stretch.

    The functions say which rows are produced; the methods append them to a shared buffer the way
    the program does, with the same saturating bounds. */
module DiffEngine {
  import opened Wrappers

  const DIFF_HUNK_CONTEXT_LINES: nat := 3

  datatype DiffLineKind = FileHeader | Context | Added | Removed | Modified

  /** How many lines of each side one collapsed row stands for. */
  datatype GapCounts = GapCounts(before: nat, after: nat)

  datatype DiffLine = DiffLine(
    leftNumber: Option<nat>,
    rightNumber: Option<nat>,
    leftText: string,
    rightText: string,
    kind: DiffLineKind,
    gap: Option<GapCounts>)

  /** Half-open line ranges that replace each other. */
  datatype Hunk = Hunk(beforeStart: nat, beforeEnd: nat, afterStart: nat, afterEnd: nat)

  // ---------- the text of a row ----------

  function StripLineEnd(text: string): string {
    if text != [] && (text[|text| - 1] == '\n' || text[|text| - 1] == '\r')
    then StripLineEnd(text[..|text| - 1])
    else text
  }

  function ExpandTabs(text: string): string {
    if text == [] then []
    else (if text[0] == '\t' then "    " else [text[0]]) + ExpandTabs(text[1..])
  }

  function DisplayText(line: string): string {
    ExpandTabs(StripLineEnd(line))
  }

  predicate IsLineEnd(c: char) {
    c == '\n' || c == '\r'
  }

  /** Stripping cuts off the longest stretch of line ends at the end. */
  lemma {:induction false} StripsLineEnds(text: string) returns (k: nat)
    ensures k <= |text| && StripLineEnd(text) == text[..k]
    ensures forall i :: k <= i < |text| ==> IsLineEnd(text[i])
    ensures k > 0 ==> !IsLineEnd(text[k - 1])
    decreases |text|
  {
    k := |text|;
    if text != [] && IsLineEnd(text[|text| - 1]) {
      k := StripsLineEnds(text[..|text| - 1]);
      assert text[..|text| - 1][..k] == text[..k];
    } else {
      assert text[..k] == text;
    }
  }

  /** What stands for one character. */
  function Expansion(c: char): string {
    if c == '\t' then "    " else [c]
  }

  /** Every character stands where the expansions before it end. */
  lemma {:induction false} ExpandsEach(text: string, i: nat)
    requires i < |text|
    ensures ExpandTabs(text) == ExpandTabs(text[..i]) + Expansion(text[i]) + ExpandTabs(text[i + 1..])
  {
    if i == 0 {
      assert text[..0] == [];
    } else {
      var rest := text[1..];
      ExpandsEach(rest, i - 1);
      assert text[..i][1..] == rest[..i - 1] && rest[i..] == text[i + 1..];
      ExpandsFirst(text);
      ExpandsFirst(text[..i]);
      hide ExpandTabs, Expansion;
      Assoc(Expansion(text[0]), ExpandTabs(rest[..i - 1]) + Expansion(text[i]), ExpandTabs(text[i + 1..]));
      Assoc(Expansion(text[0]), ExpandTabs(rest[..i - 1]), Expansion(text[i]));
    }
  }

  lemma ExpandsFirst(text: string)
    requires text != []
    ensures ExpandTabs(text) == Expansion(text[0]) + ExpandTabs(text[1..])
  {
  }

  lemma {:induction false} ExpandsOnlyTabs(text: string)
    ensures forall i :: 0 <= i < |ExpandTabs(text)| ==> ExpandTabs(text)[i] != '\t'
    ensures (forall i :: 0 <= i < |text| ==> text[i] != '\t') ==> ExpandTabs(text) == text
  {
    if text != [] {
      ExpandsOnlyTabs(text[1..]);
    }
  }

  /** A displayed line is the line without the line ends at its end, with every tab as four spaces in its place. */
  lemma DisplayedLine(text: string) returns (k: nat)
    ensures k <= |text| && (forall i :: k <= i < |text| ==> IsLineEnd(text[i])) && (k > 0 ==> !IsLineEnd(text[k - 1]))
    ensures forall i :: 0 <= i < k ==>
      DisplayText(text) == ExpandTabs(text[..i]) + Expansion(text[i]) + ExpandTabs(text[i + 1..k])
    ensures forall i :: 0 <= i < |DisplayText(text)| ==> DisplayText(text)[i] != '\t'
    ensures (forall i :: 0 <= i < k ==> text[i] != '\t') ==> DisplayText(text) == text[..k]
  {
    k := StripsLineEnds(text);
    hide StripLineEnd, ExpandTabs;
    ExpandsOnlyTabs(text[..k]);
    forall i | 0 <= i < k
      ensures DisplayText(text) == ExpandTabs(text[..i]) + Expansion(text[i]) + ExpandTabs(text[i + 1..k])
    {
      ExpandsEach(text[..k], i);
      assert text[..k][..i] == text[..i] && text[..k][i + 1..] == text[i + 1..k];
    }
  }

  /** One line of a text, its line end included. */
  datatype Line = Line(raw: string) {
    /** The form in which the line is displayed. */
    function Shown(): string {
      DisplayText(raw)
    }
  }

  function RopeDisplayLine(rope: seq<Line>, index: nat): string {
    if index < |rope| then rope[index].Shown() else ""
  }

  function Decimal(n: nat): string {
    var digit := ['0' + (n % 10) as char];
    if n < 10 then digit else Decimal(n / 10) + digit
  }

  function GapText(hidden: nat): string {
    "\U{2026} " + Decimal(hidden) + " unchanged lines hidden"
  }

  lemma {:induction false} DecimalInjective(m: nat, n: nat)
    requires Decimal(m) == Decimal(n)
    ensures m == n
  {
    var s := Decimal(m);
    DecimalSplits(m);
    DecimalSplits(n);
    if |s| > 1 {
      DecimalInjective(m / 10, n / 10);
    }
  }

  /** The last digit is the remainder, and the digits before it are those of the quotient. */
  lemma DecimalSplits(n: nat)
    ensures var s := Decimal(n);
      && s != [] && s[|s| - 1] == '0' + (n % 10) as char
      && (|s| == 1 <==> n < 10)
      && (n >= 10 ==> s[..|s| - 1] == Decimal(n / 10))
  {
    if n >= 10 {
      assert Decimal(n / 10) != [];
    }
  }

  /** The text of a collapsed row tells how many lines it hides, so the two counts a row carries are no more than what
      its two texts say. */
  lemma GapTextTellsCount(m: nat, n: nat)
    requires GapText(m) == GapText(n)
    ensures m == n
  {
    var front, back := "\U{2026} ", " unchanged lines hidden";
    Unwrapped(front, Decimal(m), back);
    Unwrapped(front, Decimal(n), back);
    hide Decimal;
    DecimalInjective(m, n);
  }

  /** A number read digit by digit. */
  function ValueOf(digits: string): nat
    requires forall i :: 0 <= i < |digits| ==> '0' <= digits[i] <= '9'
  {
    if digits == [] then 0
    else ValueOf(digits[..|digits| - 1]) * 10 + (digits[|digits| - 1] as int - '0' as int)
  }

  lemma {:induction false} DecimalReads(n: nat)
    ensures forall i :: 0 <= i < |Decimal(n)| ==> '0' <= Decimal(n)[i] <= '9'
    ensures ValueOf(Decimal(n)) == n
  {
    DecimalSplits(n);
    if n >= 10 {
      DecimalReads(n / 10);
    } else {
      assert Decimal(n)[..0] == [];
    }
  }

  /** The digits between the two fixed parts of a collapsed row's text read back as the count. */
  lemma GapTextReads(hidden: nat) returns (digits: string)
    ensures GapText(hidden) == "\U{2026} " + digits + " unchanged lines hidden"
    ensures digits != "" && (forall i :: 0 <= i < |digits| ==> '0' <= digits[i] <= '9') && ValueOf(digits) == hidden
  {
    digits := Decimal(hidden);
    DecimalReads(hidden);
    DecimalSplits(hidden);
    hide Decimal;
  }

  lemma Unwrapped(front: string, middle: string, back: string)
    ensures var whole := front + middle + back;
      |front| + |back| <= |whole| && whole[|front|..|whole| - |back|] == middle
  {
  }

  // ---------- which rows there are ----------

  function NumberedRow(before: seq<Line>, after: seq<Line>, left: Option<nat>, right: Option<nat>,
                       kind: DiffLineKind): DiffLine
  {
    DiffLine(
      if left.Some? then Some(left.value + 1) else None,
      if right.Some? then Some(right.value + 1) else None,
      if left.Some? then RopeDisplayLine(before, left.value) else "",
      if right.Some? then RopeDisplayLine(after, right.value) else "",
      kind, None)
  }

  function GapRow(hiddenBefore: nat, hiddenAfter: nat): DiffLine {
    DiffLine(None, None, GapText(hiddenBefore), GapText(hiddenAfter), Context,
             Some(GapCounts(hiddenBefore, hiddenAfter)))
  }

  function GapRows(hiddenBefore: nat, hiddenAfter: nat): seq<DiffLine> {
    if hiddenBefore > 0 || hiddenAfter > 0 then [GapRow(hiddenBefore, hiddenAfter)] else []
  }

  function PairedRow(before: seq<Line>, after: seq<Line>, b: nat, a: nat): DiffLine {
    NumberedRow(before, after, Some(b), Some(a), Context)
  }

  function LeftOnlyRow(before: seq<Line>, after: seq<Line>, b: nat): DiffLine {
    NumberedRow(before, after, Some(b), None, Removed)
  }

  function RightOnlyRow(before: seq<Line>, after: seq<Line>, a: nat): DiffLine {
    NumberedRow(before, after, None, Some(a), Added)
  }

  /** `count` unchanged lines shown next to each other. */
  function PairedRows(before: seq<Line>, after: seq<Line>, b: nat, a: nat, count: nat): (rows: seq<DiffLine>)
    ensures |rows| == count
    ensures forall i :: 0 <= i < count ==> rows[i] == PairedRow(before, after, b + i, a + i)
  {
    seq(count, i requires 0 <= i < count => PairedRow(before, after, b + i, a + i))
  }

  function LeftOnlyRows(before: seq<Line>, after: seq<Line>, b: nat, count: nat): (rows: seq<DiffLine>)
    ensures |rows| == count
    ensures forall i :: 0 <= i < count ==> rows[i] == LeftOnlyRow(before, after, b + i)
  {
    seq(count, i requires 0 <= i < count => LeftOnlyRow(before, after, b + i))
  }

  function RightOnlyRows(before: seq<Line>, after: seq<Line>, a: nat, count: nat): (rows: seq<DiffLine>)
    ensures |rows| == count
    ensures forall i :: 0 <= i < count ==> rows[i] == RightOnlyRow(before, after, a + i)
  {
    seq(count, i requires 0 <= i < count => RightOnlyRow(before, after, a + i))
  }

  /** Two unchanged stretches side by side; lines without a partner come last. */
  function ContextRows(before: seq<Line>, after: seq<Line>, b: nat, bCount: nat, a: nat, aCount: nat)
    : seq<DiffLine>
  {
    var paired := Min(bCount, aCount);
    PairedRows(before, after, b, a, paired)
    + LeftOnlyRows(before, after, b + paired, bCount - paired)
    + RightOnlyRows(before, after, a + paired, aCount - paired)
  }

  /** How much of an unchanged stretch of `count` lines is shown at its two ends, and how much is not. */
  function LeadShown(count: nat, lead: nat): nat { Min(lead, count) }

  function TrailShown(count: nat, lead: nat, trail: nat): nat { Min(trail, count - LeadShown(count, lead)) }

  function HiddenCount(count: nat, lead: nat, trail: nat): nat {
    count - LeadShown(count, lead) - TrailShown(count, lead, trail)
  }

  /** The rows of the unchanged stretch before[b0..b1] beside after[a0..a1]. */
  function StretchRows(before: seq<Line>, after: seq<Line>, b0: nat, b1: nat, a0: nat, a1: nat,
                       lead: nat, trail: nat): seq<DiffLine>
  {
    var bc, ac := SaturatingSub(b1, b0), SaturatingSub(a1, a0);
    var bt, at := TrailShown(bc, lead, trail), TrailShown(ac, lead, trail);
    ContextRows(before, after, b0, LeadShown(bc, lead), a0, LeadShown(ac, lead))
    + GapRows(HiddenCount(bc, lead, trail), HiddenCount(ac, lead, trail))
    + ContextRows(before, after, b1 - bt, bt, a1 - at, at)
  }

  function ChangedRow(before: seq<Line>, after: seq<Line>, b: nat, bCount: nat, a: nat, aCount: nat, i: nat)
    : DiffLine
  {
    NumberedRow(before, after,
                if i < bCount then Some(b + i) else None,
                if i < aCount then Some(a + i) else None,
                if i < bCount && i < aCount then Modified
                else if i < bCount then Removed
                else if i < aCount then Added
                else Context)
  }

  /** The rows of one hunk: replaced lines beside their replacements. */
  function ChangedRows(before: seq<Line>, after: seq<Line>, b: nat, bCount: nat, a: nat, aCount: nat)
    : (rows: seq<DiffLine>)
    ensures |rows| == Max(bCount, aCount)
    ensures forall i :: 0 <= i < |rows| ==> rows[i] == ChangedRow(before, after, b, bCount, a, aCount, i)
  {
    seq(Max(bCount, aCount), i requires 0 <= i < Max(bCount, aCount) =>
      ChangedRow(before, after, b, bCount, a, aCount, i))
  }

  function HunkRows(before: seq<Line>, after: seq<Line>, h: Hunk): seq<DiffLine> {
    ChangedRows(before, after, h.beforeStart, SaturatingSub(h.beforeEnd, h.beforeStart),
                h.afterStart, SaturatingSub(h.afterEnd, h.afterStart))
  }

  /** Context lines shown right after the cursor: none before the first hunk. */
  function LeadingContext(first: bool): nat {
    if first then 0 else DIFF_HUNK_CONTEXT_LINES
  }

  /** The rows from two cursors on, with `hunks` still to come. */
  function RowsFrom(before: seq<Line>, after: seq<Line>, hunks: seq<Hunk>, first: bool, bc: nat, ac: nat)
    : seq<DiffLine>
  {
    if hunks == [] then
      StretchRows(before, after, bc, |before|, ac, |after|, DIFF_HUNK_CONTEXT_LINES, 0)
    else
      var h := hunks[0];
      StretchRows(before, after, bc, h.beforeStart, ac, h.afterStart, LeadingContext(first), DIFF_HUNK_CONTEXT_LINES)
      + HunkRows(before, after, h)
      + RowsFrom(before, after, hunks[1..], false, h.beforeEnd, h.afterEnd)
  }

  /** The rows of two texts and the hunks between them; no hunks, no rows. */
  function SideBySideRows(before: seq<Line>, after: seq<Line>, hunks: seq<Hunk>): seq<DiffLine> {
    if hunks == [] then [] else RowsFrom(before, after, hunks, true, 0, 0)
  }

  // ---------- which hunk lists describe a diff ----------

  /** Hunks in order, disjoint and inside both texts, from two cursors on. */
  predicate OrderedFrom(hunks: seq<Hunk>, bc: nat, ac: nat, beforeLen: nat, afterLen: nat) {
    if hunks == [] then bc <= beforeLen && ac <= afterLen
    else
      var h := hunks[0];
      && bc <= h.beforeStart <= h.beforeEnd
      && ac <= h.afterStart <= h.afterEnd
      && OrderedFrom(hunks[1..], h.beforeEnd, h.afterEnd, beforeLen, afterLen)
  }

  predicate Ordered(before: seq<Line>, after: seq<Line>, hunks: seq<Hunk>) {
    OrderedFrom(hunks, 0, 0, |before|, |after|)
  }

  /** before[b0..b1] and after[a0..a1] hold the same lines. */
  predicate SameLines(before: seq<Line>, after: seq<Line>, b0: nat, b1: nat, a0: nat, a1: nat) {
    b0 <= b1 <= |before| && a0 <= a1 <= |after| && before[b0..b1] == after[a0..a1]
  }

  /** Ordered hunks between which nothing changed. */
  predicate ValidFrom(before: seq<Line>, after: seq<Line>, hunks: seq<Hunk>, bc: nat, ac: nat) {
    if hunks == [] then SameLines(before, after, bc, |before|, ac, |after|)
    else
      var h := hunks[0];
      && SameLines(before, after, bc, h.beforeStart, ac, h.afterStart)
      && h.beforeStart <= h.beforeEnd
      && h.afterStart <= h.afterEnd
      && ValidFrom(before, after, hunks[1..], h.beforeEnd, h.afterEnd)
  }

  predicate Valid(before: seq<Line>, after: seq<Line>, hunks: seq<Hunk>) {
    ValidFrom(before, after, hunks, 0, 0)
  }

  lemma ValidIsOrdered(before: seq<Line>, after: seq<Line>, hunks: seq<Hunk>, bc: nat, ac: nat)
    requires ValidFrom(before, after, hunks, bc, ac)
    ensures OrderedFrom(hunks, bc, ac, |before|, |after|)
    ensures bc <= |before| && ac <= |after|
  {
  }

  // ---------- the appending methods ----------

  /** The growing row list the push functions share. */
  class DiffLines {
    var rows: seq<DiffLine>

    constructor ()
      ensures rows == []
    {
      rows := [];
    }

    method Push(row: DiffLine)
      modifies this
      ensures rows == old(rows) + [row]
    {
      rows := rows + [row];
    }
  }

  method PushDiffLine(output: DiffLines, before: seq<Line>, after: seq<Line>,
                      left: Option<nat>, right: Option<nat>, kind: DiffLineKind)
    modifies output
    ensures output.rows == old(output.rows) + [NumberedRow(before, after, left, right, kind)]
  {
    var row := DiffLine(
      match left { case Some(i) => Some(i + 1) case None => None },
      match right { case Some(i) => Some(i + 1) case None => None },
      match left { case Some(i) => RopeDisplayLine(before, i) case None => "" },
      match right { case Some(i) => RopeDisplayLine(after, i) case None => "" },
      kind, None);
    assert row == NumberedRow(before, after, left, right, kind);
    output.Push(row);
  }

  method PushCollapsedGapLine(output: DiffLines, hiddenBefore: nat, hiddenAfter: nat)
    modifies output
    ensures output.rows == old(output.rows) + [GapRow(hiddenBefore, hiddenAfter)]
  {
    output.Push(DiffLine(None, None, GapText(hiddenBefore), GapText(hiddenAfter), Context,
                         Some(GapCounts(hiddenBefore, hiddenAfter))));
  }

  lemma NextPrefix<T>(start: seq<T>, all: seq<T>, k: nat)
    requires k < |all|
    ensures start + all[..k] + [all[k]] == start + all[..k + 1]
  {
  }

  method PushContextDiffLines(output: DiffLines, before: seq<Line>, after: seq<Line>,
                              beforeStart: nat, beforeEnd: nat, afterStart: nat, afterEnd: nat)
    modifies output
    ensures output.rows == old(output.rows)
                           + ContextRows(before, after, beforeStart, SaturatingSub(beforeEnd, beforeStart),
                                         afterStart, SaturatingSub(afterEnd, afterStart))
  {
    var beforeCount := SaturatingSub(beforeEnd, beforeStart);
    var afterCount := SaturatingSub(afterEnd, afterStart);
    var paired := Min(beforeCount, afterCount);
    PushPaired(output, before, after, beforeStart, afterStart, paired);
    PushLeftOnly(output, before, after, beforeStart + paired, beforeCount - paired);
    PushRightOnly(output, before, after, afterStart + paired, afterCount - paired);
  }

  /** The first loop of PushContextDiffLines: lines shown side by side. */
  method PushPaired(output: DiffLines, before: seq<Line>, after: seq<Line>, beforeStart: nat, afterStart: nat,
                    count: nat)
    modifies output
    ensures output.rows == old(output.rows) + PairedRows(before, after, beforeStart, afterStart, count)
  {
    hide PairedRows, NumberedRow;
    ghost var rows0, all := output.rows, PairedRows(before, after, beforeStart, afterStart, count);
    for offset := 0 to count
      invariant output.rows == rows0 + all[..offset]
    {
      PushDiffLine(output, before, after, Some(beforeStart + offset), Some(afterStart + offset), Context);
      assert all[offset] == PairedRow(before, after, beforeStart + offset, afterStart + offset);
      NextPrefix(rows0, all, offset);
    }
  }

  /** The second loop of PushContextDiffLines: before-lines left without a partner. */
  method PushLeftOnly(output: DiffLines, before: seq<Line>, after: seq<Line>, start: nat, count: nat)
    modifies output
    ensures output.rows == old(output.rows) + LeftOnlyRows(before, after, start, count)
  {
    hide LeftOnlyRows, NumberedRow;
    ghost var rows0, all := output.rows, LeftOnlyRows(before, after, start, count);
    for offset := 0 to count
      invariant output.rows == rows0 + all[..offset]
    {
      PushDiffLine(output, before, after, Some(start + offset), None, Removed);
      assert all[offset] == LeftOnlyRow(before, after, start + offset);
      NextPrefix(rows0, all, offset);
    }
  }

  /** The third loop of PushContextDiffLines: after-lines left without a partner. */
  method PushRightOnly(output: DiffLines, before: seq<Line>, after: seq<Line>, start: nat, count: nat)
    modifies output
    ensures output.rows == old(output.rows) + RightOnlyRows(before, after, start, count)
  {
    hide RightOnlyRows, NumberedRow;
    ghost var rows0, all := output.rows, RightOnlyRows(before, after, start, count);
    for offset := 0 to count
      invariant output.rows == rows0 + all[..offset]
    {
      PushDiffLine(output, before, after, None, Some(start + offset), Added);
      assert all[offset] == RightOnlyRow(before, after, start + offset);
      NextPrefix(rows0, all, offset);
    }
  }

  lemma Regroup<T>(start: seq<T>, a: seq<T>, b: seq<T>, c: seq<T>)
    ensures start + a + b + c == start + (a + b + c)
  {
  }

  lemma EmptyContext(before: seq<Line>, after: seq<Line>, b: nat, a: nat)
    ensures ContextRows(before, after, b, 0, a, 0) == []
  {
  }

  lemma EmptyStretch(before: seq<Line>, after: seq<Line>, b0: nat, b1: nat, a0: nat, a1: nat,
                     lead: nat, trail: nat)
    ensures b1 <= b0 && a1 <= a0 ==> StretchRows(before, after, b0, b1, a0, a1, lead, trail) == []
  {
  }

  /** The two guards of PushHunkContextLines: an empty stretch and an empty gap get no row. */
  method PushContextIfAny(output: DiffLines, before: seq<Line>, after: seq<Line>,
                          beforeStart: nat, beforeEnd: nat, afterStart: nat, afterEnd: nat)
    modifies output
    ensures output.rows == old(output.rows)
                           + ContextRows(before, after, beforeStart, SaturatingSub(beforeEnd, beforeStart),
                                         afterStart, SaturatingSub(afterEnd, afterStart))
  {
    if beforeEnd > beforeStart || afterEnd > afterStart {
      PushContextDiffLines(output, before, after, beforeStart, beforeEnd, afterStart, afterEnd);
    } else {
      EmptyContext(before, after, beforeStart, afterStart);
    }
  }

  method PushGapIfAny(output: DiffLines, hiddenBefore: nat, hiddenAfter: nat)
    modifies output
    ensures output.rows == old(output.rows) + GapRows(hiddenBefore, hiddenAfter)
  {
    if hiddenBefore > 0 || hiddenAfter > 0 {
      PushCollapsedGapLine(output, hiddenBefore, hiddenAfter);
    }
  }

  lemma StretchParts(before: seq<Line>, after: seq<Line>, b0: nat, b1: nat, a0: nat, a1: nat,
                     lead: nat, trail: nat, bc: nat, ac: nat)
    requires bc == SaturatingSub(b1, b0) && ac == SaturatingSub(a1, a0)
    ensures StretchRows(before, after, b0, b1, a0, a1, lead, trail)
         == ContextRows(before, after, b0, LeadShown(bc, lead), a0, LeadShown(ac, lead))
            + GapRows(HiddenCount(bc, lead, trail), HiddenCount(ac, lead, trail))
            + ContextRows(before, after, b1 - TrailShown(bc, lead, trail), TrailShown(bc, lead, trail),
                          a1 - TrailShown(ac, lead, trail), TrailShown(ac, lead, trail))
  {
    hide ContextRows, GapRows;
  }

  method PushHunkContextLines(output: DiffLines, before: seq<Line>, after: seq<Line>,
                              beforeStart: nat, beforeEnd: nat, afterStart: nat, afterEnd: nat,
                              leadingContext: nat, trailingContext: nat)
    modifies output
    ensures output.rows == old(output.rows)
                           + StretchRows(before, after, beforeStart, beforeEnd, afterStart, afterEnd,
                                         leadingContext, trailingContext)
  {
    hide ContextRows, GapRows, GapRow, StretchRows;
    var beforeCount := SaturatingSub(beforeEnd, beforeStart);
    var afterCount := SaturatingSub(afterEnd, afterStart);
    EmptyStretch(before, after, beforeStart, beforeEnd, afterStart, afterEnd, leadingContext, trailingContext);
    StretchParts(before, after, beforeStart, beforeEnd, afterStart, afterEnd, leadingContext, trailingContext,
                 beforeCount, afterCount);
    if beforeCount == 0 && afterCount == 0 {
      return;
    }
    var leadingBeforeEnd := beforeStart + Min(leadingContext, beforeCount);
    var leadingAfterEnd := afterStart + Min(leadingContext, afterCount);
    var trailingBeforeCount := Min(trailingContext, SaturatingSub(beforeEnd, leadingBeforeEnd));
    var trailingAfterCount := Min(trailingContext, SaturatingSub(afterEnd, leadingAfterEnd));
    var trailingBeforeStart := SaturatingSub(beforeEnd, trailingBeforeCount);
    var trailingAfterStart := SaturatingSub(afterEnd, trailingAfterCount);

    assert trailingBeforeCount == TrailShown(beforeCount, leadingContext, trailingContext);
    assert trailingAfterCount == TrailShown(afterCount, leadingContext, trailingContext);
    ghost var rows0 := output.rows;
    ghost var lead := ContextRows(before, after, beforeStart, LeadShown(beforeCount, leadingContext),
                                  afterStart, LeadShown(afterCount, leadingContext));
    PushContextIfAny(output, before, after, beforeStart, leadingBeforeEnd, afterStart, leadingAfterEnd);
    assert output.rows == rows0 + lead;

    ghost var rows1 := output.rows;
    var hiddenBefore := SaturatingSub(trailingBeforeStart, leadingBeforeEnd);
    var hiddenAfter := SaturatingSub(trailingAfterStart, leadingAfterEnd);
    assert hiddenBefore == HiddenCount(beforeCount, leadingContext, trailingContext);
    assert hiddenAfter == HiddenCount(afterCount, leadingContext, trailingContext);
    ghost var gap := GapRows(hiddenBefore, hiddenAfter);
    PushGapIfAny(output, hiddenBefore, hiddenAfter);
    assert output.rows == rows1 + gap;

    ghost var rows2 := output.rows;
    ghost var trail := ContextRows(before, after, trailingBeforeStart, trailingBeforeCount,
                                   trailingAfterStart, trailingAfterCount);
    PushContextIfAny(output, before, after, trailingBeforeStart, beforeEnd, trailingAfterStart, afterEnd);
    assert output.rows == rows2 + trail;
    Regroup(rows0, lead, gap, trail);
  }

  lemma ChangedRowIs(before: seq<Line>, after: seq<Line>, b: nat, bCount: nat, a: nat, aCount: nat, i: nat,
                     left: Option<nat>, right: Option<nat>, kind: DiffLineKind)
    requires left == if i < bCount then Some(b + i) else None
    requires right == if i < aCount then Some(a + i) else None
    requires kind == if left.Some? && right.Some? then Modified
                     else if left.Some? then Removed
                     else if right.Some? then Added
                     else Context
    ensures ChangedRow(before, after, b, bCount, a, aCount, i) == NumberedRow(before, after, left, right, kind)
  {
    hide NumberedRow;
  }

  /** Pushes the rows of one hunk. */
  method PushHunkLines(output: DiffLines, before: seq<Line>, after: seq<Line>, h: Hunk)
    modifies output
    ensures output.rows == old(output.rows) + HunkRows(before, after, h)
  {
    var removed := SaturatingSub(h.beforeEnd, h.beforeStart);
    var added := SaturatingSub(h.afterEnd, h.afterStart);
    ghost var rows0, all := output.rows, HunkRows(before, after, h);
    hide HunkRows, ChangedRows, ChangedRow, NumberedRow;
    var count := Max(removed, added);
    for offset := 0 to count
      invariant output.rows == rows0 + all[..offset]
    {
      var left := if offset < removed then Some(h.beforeStart + offset) else None;
      var right := if offset < added then Some(h.afterStart + offset) else None;
      var kind := if left.Some? && right.Some? then Modified
                  else if left.Some? then Removed
                  else if right.Some? then Added
                  else Context;
      ChangedRowIs(before, after, h.beforeStart, removed, h.afterStart, added, offset, left, right, kind);
      PushDiffLine(output, before, after, left, right, kind);
      NextPrefix(rows0, all, offset);
    }
  }

  /** The whole row list of a file, for whatever hunks the line differ reported. */
  method BuildSideBySideDiffLines(before: seq<Line>, after: seq<Line>, hunks: seq<Hunk>)
    returns (lines: seq<DiffLine>)
    ensures lines == SideBySideRows(before, after, hunks)
  {
    hide StretchRows, HunkRows;
    if |hunks| == 0 {
      return [];
    }
    var output := new DiffLines();
    var beforeCursor, afterCursor := 0, 0;
    ghost var all := SideBySideRows(before, after, hunks);
    assert hunks[0..] == hunks;
    for hunkIndex := 0 to |hunks|
      invariant fresh(output)
      invariant hunkIndex < |hunks| ==>
        all == output.rows + RowsFrom(before, after, hunks[hunkIndex..], hunkIndex == 0, beforeCursor, afterCursor)
      invariant hunkIndex == |hunks| ==> output.rows == all
    {
      var hunk := hunks[hunkIndex];
      ghost var start := output.rows;
      ghost var rest := RowsFrom(before, after, hunks[hunkIndex + 1..], false, hunk.beforeEnd, hunk.afterEnd);
      ghost var stretch := StretchRows(before, after, beforeCursor, hunk.beforeStart, afterCursor, hunk.afterStart,
                                       LeadingContext(hunkIndex == 0), DIFF_HUNK_CONTEXT_LINES);
      assert hunks[hunkIndex..][1..] == hunks[hunkIndex + 1..];
      Regroup(start, stretch, HunkRows(before, after, hunk), rest);

      var leading := if hunkIndex == 0 then 0 else DIFF_HUNK_CONTEXT_LINES;
      PushHunkContextLines(output, before, after, beforeCursor, hunk.beforeStart, afterCursor, hunk.afterStart,
                           leading, DIFF_HUNK_CONTEXT_LINES);
      PushHunkLines(output, before, after, hunk);
      beforeCursor, afterCursor := hunk.beforeEnd, hunk.afterEnd;
      assert all == output.rows + rest;
      if hunkIndex + 1 == |hunks| {
        PushHunkContextLines(output, before, after, beforeCursor, |before|, afterCursor, |after|,
                             DIFF_HUNK_CONTEXT_LINES, 0);
      }
    }
    lines := output.rows;
  }
}
