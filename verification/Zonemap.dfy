/** The change markers beside the scroll bar: touching rows of one colour are drawn as one span. */
module Zonemap {
  import opened Wrappers
  import opened DiffEngine

  datatype MarkerSpan = MarkerSpan(startRow: nat, endRow: nat, color: nat)

  function MarkerColor(kind: DiffLineKind): Option<nat> {
    match kind
    case FileHeader => Some(0x6d88a6)
    case Added => Some(0x72d69c)
    case Removed => Some(0xeb6f92)
    case Modified => Some(0xf9e2af)
    case Context => None
  }

  /** Only context rows have no marker, and the colour tells the other kinds apart. */
  lemma MarkersTellKinds(kind1: DiffLineKind, kind2: DiffLineKind)
    ensures MarkerColor(kind1).None? <==> kind1 == Context
    ensures MarkerColor(kind1) == MarkerColor(kind2) ==> kind1 == kind2
  {
  }

  /** The colour the spans paint on a row. */
  function Painted(spans: seq<MarkerSpan>, row: nat): Option<nat>
    decreases |spans|
  {
    if spans == [] then None
    else
      var last := spans[|spans| - 1];
      if last.startRow <= row <= last.endRow then Some(last.color) else Painted(spans[..|spans| - 1], row)
  }

  /** Spans in order and disjoint, inside the first `count` rows, and as long as they can be: two spans
      that touch differ in colour. */
  predicate Maximal(spans: seq<MarkerSpan>, count: nat) {
    && (forall i :: 0 <= i < |spans| ==> spans[i].startRow <= spans[i].endRow < count)
    && (forall i, j :: 0 <= i < j < |spans| ==> spans[i].endRow < spans[j].startRow)
    && (forall i :: 1 <= i < |spans| && spans[i - 1].endRow + 1 == spans[i].startRow ==>
          spans[i - 1].color != spans[i].color)
  }

  /** The spans paint exactly the marker colours of the rows. */
  ghost predicate Paints(spans: seq<MarkerSpan>, lines: seq<DiffLine>, count: nat)
    requires count <= |lines|
  {
    forall row :: 0 <= row < count ==> Painted(spans, row) == MarkerColor(lines[row].kind)
  }

  lemma {:induction false} PaintedOutside(spans: seq<MarkerSpan>, row: nat)
    requires forall i :: 0 <= i < |spans| ==> !(spans[i].startRow <= row <= spans[i].endRow)
    ensures Painted(spans, row) == None
    decreases |spans|
  {
    if spans != [] {
      PaintedOutside(spans[..|spans| - 1], row);
    }
  }

  lemma PaintedPush(spans: seq<MarkerSpan>, last: MarkerSpan, row: nat)
    ensures Painted(spans + [last], row)
         == if last.startRow <= row <= last.endRow then Some(last.color) else Painted(spans, row)
  {
    assert (spans + [last])[..|spans|] == spans;
  }

  /** Extending the last span by the row below it. */
  lemma GrowLast(front: seq<MarkerSpan>, last: MarkerSpan, row: nat)
    requires Maximal(front + [last], row) && last.endRow + 1 == row
    ensures Maximal(front + [last.(endRow := row)], row + 1)
    ensures Painted(front + [last.(endRow := row)], row) == Some(last.color)
    ensures forall r :: 0 <= r < row ==> Painted(front + [last.(endRow := row)], r) == Painted(front + [last], r)
  {
    hide Painted;
    var spans, grown := front + [last], front + [last.(endRow := row)];
    assert spans[|front|] == last;
    assert forall i :: 0 <= i < |front| ==> spans[i] == front[i] && grown[i] == front[i];
    assert Maximal(grown, row + 1);
    hide Maximal;
    PaintedPush(front, last.(endRow := row), row);
    forall r | 0 <= r < row
      ensures Painted(grown, r) == Painted(spans, r)
    {
      PaintedPush(front, last, r);
      PaintedPush(front, last.(endRow := row), r);
    }
  }

  /** Starting a span that does not continue the last one. */
  lemma AddSpan(spans: seq<MarkerSpan>, row: nat, color: nat)
    requires Maximal(spans, row)
    requires spans != [] && spans[|spans| - 1].endRow + 1 == row ==> spans[|spans| - 1].color != color
    ensures Maximal(spans + [MarkerSpan(row, row, color)], row + 1)
    ensures Painted(spans + [MarkerSpan(row, row, color)], row) == Some(color)
    ensures forall r :: 0 <= r < row ==> Painted(spans + [MarkerSpan(row, row, color)], r) == Painted(spans, r)
  {
    hide Painted;
    forall r | 0 <= r <= row
      ensures Painted(spans + [MarkerSpan(row, row, color)], r) == if r == row then Some(color) else Painted(spans, r)
    {
      PaintedPush(spans, MarkerSpan(row, row, color), r);
    }
  }

  lemma StillMaximal(spans: seq<MarkerSpan>, count: nat)
    requires Maximal(spans, count)
    ensures Maximal(spans, count + 1)
    ensures Painted(spans, count) == None
  {
    PaintedOutside(spans, count);
  }

  method BuildZonemapMarkerSpans(lines: seq<DiffLine>) returns (spans: seq<MarkerSpan>)
    ensures Maximal(spans, |lines|)
    ensures Paints(spans, lines, |lines|)
  {
    hide Painted, Maximal;
    spans := [];
    assert Maximal(spans, 0) by {
      NoSpans();
    }
    for row := 0 to |lines|
      invariant Maximal(spans, row)
      invariant Paints(spans, lines, row)
    {
      var marker := MarkerColor(lines[row].kind);
      if marker.None? {
        StillMaximal(spans, row);
        continue;
      }
      var color, n := marker.value, |spans|;
      if n > 0 && spans[n - 1].color == color && row == spans[n - 1].endRow + 1 {
        var last := spans[n - 1];
        assert spans == spans[..n - 1] + [last];
        GrowLast(spans[..n - 1], last, row);
        assert spans[n - 1 := last.(endRow := row)] == spans[..n - 1] + [last.(endRow := row)];
        spans := spans[n - 1 := last.(endRow := row)];
      } else {
        AddSpan(spans, row, color);
        spans := spans + [MarkerSpan(row, row, color)];
      }
    }
  }

  lemma NoSpans()
    ensures Maximal([], 0)
  {
  }

  // ---------- the contract leaves no choice ----------

  lemma DropLast(spans: seq<MarkerSpan>, count: nat)
    requires Maximal(spans, count) && spans != []
    ensures Maximal(spans[..|spans| - 1], spans[|spans| - 1].startRow)
    ensures PaintAlike(spans[..|spans| - 1], spans, spans[|spans| - 1].startRow)
  {
  }

  /** The row before a span is not painted in the span's colour. */
  lemma BeforeLast(spans: seq<MarkerSpan>, count: nat)
    requires Maximal(spans, count) && spans != [] && spans[|spans| - 1].startRow > 0
    ensures Painted(spans, spans[|spans| - 1].startRow - 1) != Some(spans[|spans| - 1].color)
  {
    var n := |spans| - 1;
    var row := spans[n].startRow - 1;
    DropLast(spans, count);
    if n > 0 && spans[n - 1].endRow == row {
      assert spans[..n][|spans[..n]| - 1] == spans[n - 1];
    } else {
      PaintedOutside(spans[..n], row);
    }
  }

  /** Both lists give every row the same colour, or none. */
  ghost predicate PaintAlike(spans1: seq<MarkerSpan>, spans2: seq<MarkerSpan>, count: nat) {
    forall row :: 0 <= row < count ==> Painted(spans1, row) == Painted(spans2, row)
  }

  lemma LastPainted(spans: seq<MarkerSpan>, row: nat)
    requires spans != [] && spans[|spans| - 1].startRow <= row <= spans[|spans| - 1].endRow
    ensures Painted(spans, row) == Some(spans[|spans| - 1].color)
  {
  }

  lemma LastInRange(spans: seq<MarkerSpan>, count: nat)
    requires Maximal(spans, count) && spans != []
    ensures spans[|spans| - 1].startRow <= spans[|spans| - 1].endRow < count
  {
  }

  /** Two lists of maximal spans that paint alike are the same list. */
  lemma {:induction false} SpansUnique(spans1: seq<MarkerSpan>, spans2: seq<MarkerSpan>, count: nat)
    requires Maximal(spans1, count) && Maximal(spans2, count)
    requires PaintAlike(spans1, spans2, count)
    ensures spans1 == spans2
    decreases count
  {
    hide Painted, Maximal;
    EmptyAlike(spans1, spans2, count);
    EmptyAlike(spans2, spans1, count);
    if spans1 == [] {
    } else {
      var m, n := |spans1| - 1, |spans2| - 1;
      SameLast(spans1, spans2, count);
      LastInRange(spans1, count);
      DropLast(spans1, count);
      DropLast(spans2, count);
      SpansUnique(spans1[..m], spans2[..n], spans1[m].startRow);
      assert spans1 == spans1[..m] + [spans1[m]] && spans2 == spans2[..n] + [spans2[n]];
    }
  }

  lemma EmptyAlike(spans1: seq<MarkerSpan>, spans2: seq<MarkerSpan>, count: nat)
    requires Maximal(spans2, count) && PaintAlike(spans1, spans2, count)
    ensures spans1 == [] ==> spans2 == []
  {
    hide Painted, Maximal;
    if spans1 == [] && spans2 != [] {
      LastInRange(spans2, count);
      LastPainted(spans2, spans2[|spans2| - 1].startRow);
      PaintedOutside(spans1, spans2[|spans2| - 1].startRow);
    }
  }

  lemma SameLast(spans1: seq<MarkerSpan>, spans2: seq<MarkerSpan>, count: nat)
    requires spans1 != [] && spans2 != [] && Maximal(spans1, count) && Maximal(spans2, count)
    requires PaintAlike(spans1, spans2, count)
    ensures spans1[|spans1| - 1] == spans2[|spans2| - 1]
  {
    hide Painted, Maximal;
    var last := spans1[|spans1| - 1].endRow;
    EndsNoLater(spans1, spans2, count);
    EndsNoLater(spans2, spans1, count);
    LastInRange(spans1, count);
    LastInRange(spans2, count);
    LastPainted(spans1, last);
    LastPainted(spans2, last);
    StartsNoEarlier(spans1, spans2, count);
    StartsNoEarlier(spans2, spans1, count);
  }

  /** With equal ends, the second last span starts no later than the first. */
  lemma StartsNoEarlier(spans1: seq<MarkerSpan>, spans2: seq<MarkerSpan>, count: nat)
    requires spans1 != [] && spans2 != [] && Maximal(spans1, count) && Maximal(spans2, count)
    requires PaintAlike(spans1, spans2, count)
    requires spans1[|spans1| - 1].endRow == spans2[|spans2| - 1].endRow
    requires spans1[|spans1| - 1].color == spans2[|spans2| - 1].color
    ensures spans2[|spans2| - 1].startRow <= spans1[|spans1| - 1].startRow
  {
    hide Painted, Maximal;
    var start1, start2 := spans1[|spans1| - 1].startRow, spans2[|spans2| - 1].startRow;
    LastInRange(spans2, count);
    if start1 < start2 {
      BeforeLast(spans2, count);
      LastPainted(spans1, start2 - 1);
    }
  }

  lemma EndsNoLater(spans1: seq<MarkerSpan>, spans2: seq<MarkerSpan>, count: nat)
    requires spans1 != [] && spans2 != [] && Maximal(spans1, count) && Maximal(spans2, count)
    requires PaintAlike(spans1, spans2, count)
    ensures spans1[|spans1| - 1].endRow <= spans2[|spans2| - 1].endRow
  {
    hide Painted;
    var row := spans1[|spans1| - 1].endRow;
    LastPainted(spans1, row);
    if row > spans2[|spans2| - 1].endRow {
      PaintedOutside(spans2, row);
    }
  }
}
