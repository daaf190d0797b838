/** Re-wrapping a row list to a column width. Long texts are cut into chunks, the row index of every file
    is carried over, and nothing else about the document changes. */
module DiffWrap {
  import opened Wrappers
  import opened DiffEngine

  // ---------- chunks ----------

  /** The text cut every `width` characters; an empty text has no pieces. */
  function Pieces(text: string, width: nat): seq<string>
    requires width >= 1
    decreases |text|
  {
    if text == [] then []
    else if |text| <= width then [text]
    else [text[..width]] + Pieces(text[width..], width)
  }

  function Chunks(text: string, width: nat): seq<string>
    requires width >= 1
  {
    if text == [] then [""] else Pieces(text, width)
  }

  lemma PiecesCut(front: string, rest: string, width: nat)
    requires |front| == width >= 1
    ensures Pieces(front + rest, width) == [front] + Pieces(rest, width)
  {
    assert (front + rest)[..width] == front && (front + rest)[width..] == rest;
    if rest == [] {
      assert front + rest == front;
    }
  }

  lemma PiecesEnd(rest: string, width: nat)
    requires |rest| < width
    ensures Pieces(rest, width) == if rest == "" then [] else [rest]
  {
  }

  lemma PiecesSome(text: string, width: nat)
    requires text != "" && width >= 1
    ensures Pieces(text, width) != []
  {
  }

  method SplitDiffTextChunks(text: string, wrapColumns: nat) returns (chunks: seq<string>)
    ensures chunks == Chunks(text, Max(wrapColumns, 1))
  {
    if |text| == 0 {
      return [""];
    }
    hide Pieces;
    var width := Max(wrapColumns, 1);
    chunks := [];
    var current, currentLen := "", 0;
    ghost var pieces := Pieces(text, width);
    assert "" + text[0..] == text;
    for i := 0 to |text|
      invariant |current| == currentLen < width
      invariant chunks + Pieces(current + text[i..], width) == pieces
    {
      DropNext(text, i);
      Assoc(current, [text[i]], text[i + 1..]);
      current := current + [text[i]];
      currentLen := currentLen + 1;
      if currentLen >= width {
        PiecesCut(current, text[i + 1..], width);
        Assoc(chunks, [current], Pieces(text[i + 1..], width));
        chunks := chunks + [current];
        current, currentLen := "", 0;
        assert "" + text[i + 1..] == text[i + 1..];
      }
    }
    assert current + text[|text|..] == current;
    PiecesEnd(current, width);
    PiecesSome(text, width);
    if |current| > 0 {
      chunks := chunks + [current];
    }
    if |chunks| == 0 {
      chunks := [""];
    }
  }

  function Joined(texts: seq<string>): string {
    if texts == [] then "" else texts[0] + Joined(texts[1..])
  }

  /** n / d rounded up. */
  function CeilDiv(n: nat, d: nat): nat
    requires d >= 1
  {
    (n + d - 1) / d
  }

  lemma DivStep(x: nat, d: nat)
    requires d >= 1
    ensures (x + d) / d == x / d + 1
  {
    var q := x / d;
    MulDiff(q + 1, q, d);
    DivUnique(x + d, d, q + 1, x % d);
  }

  lemma MulDiff(a: int, b: int, c: int)
    ensures (a - b) * c == a * c - b * c
  {
  }

  lemma MulMonotone(a: nat, b: nat, c: nat)
    requires a <= b
    ensures a * c <= b * c
  {
    MulDiff(b, a, c);
  }

  lemma DivUnique(x: nat, d: nat, q: nat, r: nat)
    requires x == q * d + r && r < d
    ensures x / d == q
  {
    QuotientUnique(d, q, r, x / d, x % d);
  }

  lemma QuotientUnique(d: nat, q: nat, r: nat, q': nat, r': nat)
    requires r < d && r' < d
    requires q * d + r == q' * d + r'
    ensures q == q'
  {
    MulDiff(q, q', d);
    if q < q' {
      MulMonotone(1, q' - q, d);
      MulDiff(q', q, d);
    } else if q' < q {
      MulMonotone(1, q - q', d);
    }
  }

  lemma {:induction false} PiecesShape(text: string, width: nat)
    requires width >= 1
    ensures Joined(Pieces(text, width)) == text
    ensures |Pieces(text, width)| == CeilDiv(|text|, width)
    ensures forall i :: 0 <= i < |Pieces(text, width)| ==> 1 <= |Pieces(text, width)[i]| <= width
    ensures forall i :: 0 <= i < |Pieces(text, width)| - 1 ==> |Pieces(text, width)[i]| == width
    decreases |text|
  {
    if text == [] {
      DivUnique(width - 1, width, 0, width - 1);
    } else if |text| <= width {
      DivUnique(|text| + width - 1, width, 1, |text| - 1);
      assert [text][1..] == [];
      assert text + Joined([]) == text;
    } else {
      var rest := Pieces(text[width..], width);
      PiecesShape(text[width..], width);
      DivStep(|text| - 1, width);
      assert ([text[..width]] + rest)[1..] == rest;
      assert text == text[..width] + text[width..];
    }
  }

  /** Chunk arithmetic: max(1, ceil(n/w)) chunks that join to the text, all of length w but the last. */
  lemma ChunksShape(text: string, width: nat)
    requires width >= 1
    ensures Joined(Chunks(text, width)) == text
    ensures |Chunks(text, width)| == Max(1, CeilDiv(|text|, width))
    ensures forall i :: 0 <= i < |Chunks(text, width)| - 1 ==> |Chunks(text, width)[i]| == width
    ensures forall i :: 0 <= i < |Chunks(text, width)| ==> |Chunks(text, width)[i]| <= width
  {
    PiecesShape(text, width);
    if text == [] {
      assert [""][1..] == [];
      DivUnique(width - 1, width, 0, width - 1);
    } else {
      DivStep(|text| - 1, width);
    }
  }

  /** Wider columns never need more chunks. */
  lemma ChunksShrink(text: string, narrow: nat, wide: nat)
    requires 1 <= narrow <= wide
    ensures |Chunks(text, wide)| <= |Chunks(text, narrow)|
  {
    PiecesShape(text, narrow);
    PiecesShape(text, wide);
    CeilShrinks(|text|, narrow, wide);
  }

  lemma CeilShrinks(n: nat, narrow: nat, wide: nat)
    requires 1 <= narrow <= wide
    ensures CeilDiv(n, wide) <= CeilDiv(n, narrow)
  {
    // Both quotients are the least number of columns whose product covers n.
    var p, q := CeilDiv(n, narrow), CeilDiv(n, wide);
    CeilBounds(n, narrow);
    CeilBounds(n, wide);
    if q > p {
      assert (q - 1) * wide >= p * wide >= p * narrow by {
        MulMonotone(p, q - 1, wide);
        MulMonotone(narrow, wide, p);
      }
    }
  }

  lemma CeilBounds(n: nat, d: nat)
    requires d >= 1
    ensures n <= CeilDiv(n, d) * d
    ensures CeilDiv(n, d) > 0 ==> (CeilDiv(n, d) - 1) * d < n
  {
    var q, r := (n + d - 1) / d, (n + d - 1) % d;
    assert n + d - 1 == q * d + r;
    assert (q - 1) * d == q * d - d;
  }

  // ---------- one row ----------

  function ChunkAt(chunks: seq<string>, i: nat): string {
    if i < |chunks| then chunks[i] else ""
  }

  /** Row i of a wrapped row; numbers and hidden counts stay on the first one. */
  function WrappedRow(line: DiffLine, left: seq<string>, right: seq<string>, i: nat): DiffLine {
    DiffLine(if i == 0 then line.leftNumber else None,
             if i == 0 then line.rightNumber else None,
             ChunkAt(left, i), ChunkAt(right, i), line.kind,
             if i == 0 then line.gap else None)
  }

  function HeaderRow(text: string): DiffLine {
    DiffLine(None, None, text, "", FileHeader, None)
  }

  function WrapLine(line: DiffLine, wrapColumns: nat): (rows: seq<DiffLine>)
    ensures |rows| >= 1
  {
    var width := Max(wrapColumns, 1);
    if line.kind == FileHeader then
      var chunks := Chunks(line.leftText, width * 2);
      seq(|chunks|, i requires 0 <= i < |chunks| => HeaderRow(chunks[i]))
    else
      var left, right := Chunks(line.leftText, width), Chunks(line.rightText, width);
      seq(Max(|left|, |right|), i requires 0 <= i < Max(|left|, |right|) => WrappedRow(line, left, right, i))
  }

  method WrapDiffLine(line: DiffLine, wrapColumns: nat) returns (wrapped: seq<DiffLine>)
    ensures wrapped == WrapLine(line, wrapColumns)
  {
    var width := Max(wrapColumns, 1);
    if line.kind == FileHeader {
      var chunks := SplitDiffTextChunks(line.leftText, width * 2);
      wrapped := seq(|chunks|, i requires 0 <= i < |chunks| => HeaderRow(chunks[i]));
      return;
    }
    var left := SplitDiffTextChunks(line.leftText, width);
    var right := SplitDiffTextChunks(line.rightText, width);
    var count := Max(Max(|left|, |right|), 1);
    wrapped := [];
    for i := 0 to count
      invariant |wrapped| == i
      invariant forall k :: 0 <= k < i ==> wrapped[k] == WrappedRow(line, left, right, k)
    {
      wrapped := wrapped + [DiffLine(
        if i == 0 then line.leftNumber else None,
        if i == 0 then line.rightNumber else None,
        if i < |left| then left[i] else "",
        if i < |right| then right[i] else "",
        line.kind,
        if i == 0 then line.gap else None)];
    }
  }

  function LeftTexts(rows: seq<DiffLine>): (texts: seq<string>)
    ensures |texts| == |rows|
    ensures forall i :: 0 <= i < |rows| ==> texts[i] == rows[i].leftText
  {
    seq(|rows|, i requires 0 <= i < |rows| => rows[i].leftText)
  }

  function RightTexts(rows: seq<DiffLine>): (texts: seq<string>)
    ensures |texts| == |rows|
    ensures forall i :: 0 <= i < |rows| ==> texts[i] == rows[i].rightText
  {
    seq(|rows|, i requires 0 <= i < |rows| => rows[i].rightText)
  }

  lemma {:induction false} JoinedPadding(texts: seq<string>, padded: seq<string>)
    requires |texts| <= |padded|
    requires forall i :: 0 <= i < |padded| ==> padded[i] == ChunkAt(texts, i)
    ensures Joined(padded) == Joined(texts)
    decreases |padded|
  {
    if padded != [] {
      var rest := if texts == [] then [] else texts[1..];
      forall i | 0 <= i < |padded[1..]|
        ensures padded[1..][i] == ChunkAt(rest, i)
      {
        assert padded[1..][i] == padded[i + 1];
      }
      JoinedPadding(rest, padded[1..]);
      if texts == [] {
        assert "" + Joined(padded[1..]) == Joined(padded[1..]);
      }
    }
  }

  /** What wrapping keeps of a row: its kind on every part, its numbers and hidden counts on the first
      part only, and its two texts as the parts' texts in order. A header's right text is dropped. */
  ghost predicate WrapsTo(line: DiffLine, parts: seq<DiffLine>) {
    && |parts| >= 1
    && (forall i :: 0 <= i < |parts| ==> parts[i].kind == line.kind)
    && (line.kind != FileHeader ==>
          && parts[0].leftNumber == line.leftNumber
          && parts[0].rightNumber == line.rightNumber
          && parts[0].gap == line.gap
          && Joined(RightTexts(parts)) == line.rightText)
    && (forall i :: 1 <= i < |parts| ==>
          parts[i].leftNumber.None? && parts[i].rightNumber.None? && parts[i].gap.None?)
    && Joined(LeftTexts(parts)) == line.leftText
  }

  /** How many rows a row takes at a width: as many as its longer text fills, at least one; a header runs over
      both columns. */
  function Height(line: DiffLine, wrapColumns: nat): nat {
    var width := Max(wrapColumns, 1);
    if line.kind == FileHeader then Max(1, CeilDiv(|line.leftText|, width * 2))
    else Max(1, Max(CeilDiv(|line.leftText|, width), CeilDiv(|line.rightText|, width)))
  }

  lemma WrapLineKeeps(line: DiffLine, wrapColumns: nat)
    ensures WrapsTo(line, WrapLine(line, wrapColumns))
    ensures |WrapLine(line, wrapColumns)| == Height(line, wrapColumns)
  {
    hide Chunks, CeilDiv, Joined;
    var width, parts := Max(wrapColumns, 1), WrapLine(line, wrapColumns);
    if line.kind == FileHeader {
      var chunks := Chunks(line.leftText, width * 2);
      ChunksShape(line.leftText, width * 2);
      assert LeftTexts(parts) == chunks;
    } else {
      var left, right := Chunks(line.leftText, width), Chunks(line.rightText, width);
      ChunksShape(line.leftText, width);
      ChunksShape(line.rightText, width);
      JoinedPadding(left, LeftTexts(parts));
      JoinedPadding(right, RightTexts(parts));
    }
  }

  // ---------- what every wrapped cell shows ----------

  /** The characters of a text from one position to another, as far as there are any. */
  function Between(text: string, from: nat, to: nat): string
    requires from <= to
  {
    text[Min(from, |text|)..Min(to, |text|)]
  }

  /** The i-th stretch of `width` characters of a text. */
  function Cell(text: string, width: nat, i: nat): string {
    Between(text, i * width, i * width + width)
  }

  lemma BetweenLater(text: string, width: nat, from: nat, to: nat)
    requires from <= to && width <= |text|
    ensures Between(text[width..], from, to) == Between(text, width + from, width + to)
  {
  }

  lemma BetweenEnds(text: string, width: nat, from: nat)
    ensures from >= |text| ==> Between(text, from, from + width) == ""
    ensures |text| <= width ==> Between(text, 0, width) == text
    ensures width <= |text| ==> Between(text, 0, width) == text[..width]
  {
  }

  lemma {:induction false} PieceCell(text: string, width: nat, i: nat)
    requires width >= 1
    ensures ChunkAt(Pieces(text, width), i) == Cell(text, width, i)
    decreases |text|
  {
    hide Between;
    BetweenEnds(text, width, i * width);
    if i > 0 {
      MulMonotone(1, i, width);
      MulDiff(i, 1, width);
      if |text| > width {
        PieceCell(text[width..], width, i - 1);
        BetweenLater(text, width, (i - 1) * width, (i - 1) * width + width);
      }
    }
  }

  lemma ChunkCell(text: string, width: nat, i: nat)
    requires width >= 1
    ensures ChunkAt(Chunks(text, width), i) == Cell(text, width, i)
  {
    PieceCell(text, width, i);
  }

  /** Row i of a wrapped row shows the i-th stretch of each text, as wide as the column; a header's text runs over
      both columns. */
  ghost predicate CellsFit(line: DiffLine, wrapColumns: nat, i: nat, row: DiffLine) {
    var width := Max(wrapColumns, 1);
    if line.kind == FileHeader then row.leftText == Cell(line.leftText, width * 2, i) && row.rightText == ""
    else row.leftText == Cell(line.leftText, width, i) && row.rightText == Cell(line.rightText, width, i)
  }

  lemma WrapLineCells(line: DiffLine, wrapColumns: nat, i: nat)
    requires i < |WrapLine(line, wrapColumns)|
    ensures CellsFit(line, wrapColumns, i, WrapLine(line, wrapColumns)[i])
  {
    hide Chunks, Cell;
    var width := Max(wrapColumns, 1);
    ChunkCell(line.leftText, width * 2, i);
    ChunkCell(line.leftText, width, i);
    ChunkCell(line.rightText, width, i);
  }

  lemma WrapLineShrinks(line: DiffLine, narrow: nat, wide: nat)
    requires narrow <= wide
    ensures |WrapLine(line, wide)| <= |WrapLine(line, narrow)|
  {
    hide Chunks;
    var n, w := Max(narrow, 1), Max(wide, 1);
    ChunksShrink(line.leftText, n, w);
    ChunksShrink(line.rightText, n, w);
    ChunksShrink(line.leftText, n * 2, w * 2);
  }

  // ---------- the document ----------

  function WrapAll(raw: seq<DiffLine>, wrapColumns: nat): seq<DiffLine> {
    if raw == [] then []
    else WrapAll(raw[..|raw| - 1], wrapColumns) + WrapLine(raw[|raw| - 1], wrapColumns)
  }

  /** Where the wrapped form of raw row i starts. */
  function WrapStart(raw: seq<DiffLine>, wrapColumns: nat, i: nat): nat
    requires i <= |raw|
  {
    |WrapAll(raw[..i], wrapColumns)|
  }

  function WrapIndex(raw: seq<DiffLine>, index: map<string, nat>, wrapColumns: nat): map<string, nat> {
    map path | path in index :: if index[path] < |raw| then WrapStart(raw, wrapColumns, index[path]) else 0
  }

  lemma WrapAllNext(raw: seq<DiffLine>, wrapColumns: nat, i: nat)
    requires i < |raw|
    ensures WrapAll(raw[..i + 1], wrapColumns) == WrapAll(raw[..i], wrapColumns) + WrapLine(raw[i], wrapColumns)
  {
    hide WrapLine, WrapAll;
    WrapSnoc(raw[..i], raw[i], wrapColumns);
    assert raw[..i] + [raw[i]] == raw[..i + 1];
  }

  method WrapDiffDocumentLines(rawLines: seq<DiffLine>, rawFileRowIndices: map<string, nat>, wrapColumns: nat)
    returns (wrapped: seq<DiffLine>, fileRowIndices: map<string, nat>)
    ensures wrapped == WrapAll(rawLines, wrapColumns)
    ensures fileRowIndices == WrapIndex(rawLines, rawFileRowIndices, wrapColumns)
  {
    hide WrapLine;
    wrapped := [];
    var rawToWrapped: seq<nat> := [];
    for i := 0 to |rawLines|
      invariant wrapped == WrapAll(rawLines[..i], wrapColumns)
      invariant |rawToWrapped| == i
      invariant forall k :: 0 <= k < i ==> rawToWrapped[k] == WrapStart(rawLines, wrapColumns, k)
    {
      rawToWrapped := rawToWrapped + [|wrapped|];
      var rows := WrapDiffLine(rawLines[i], wrapColumns);
      wrapped := wrapped + rows;
      WrapAllNext(rawLines, wrapColumns, i);
    }
    assert rawLines[..|rawLines|] == rawLines;
    fileRowIndices := map path | path in rawFileRowIndices ::
      if rawFileRowIndices[path] < |rawToWrapped| then rawToWrapped[rawFileRowIndices[path]] else 0;
  }

  lemma WrapSnoc(raw: seq<DiffLine>, line: DiffLine, wrapColumns: nat)
    ensures WrapAll(raw + [line], wrapColumns) == WrapAll(raw, wrapColumns) + WrapLine(line, wrapColumns)
  {
    hide WrapLine;
    assert (raw + [line])[..|raw|] == raw;
  }

  lemma {:induction false} WrapAppend(raw1: seq<DiffLine>, raw2: seq<DiffLine>, wrapColumns: nat)
    ensures WrapAll(raw1 + raw2, wrapColumns) == WrapAll(raw1, wrapColumns) + WrapAll(raw2, wrapColumns)
    decreases |raw2|
  {
    if raw2 == [] {
      assert raw1 + raw2 == raw1;
    } else {
      hide WrapLine, WrapAll;
      var n := |raw2| - 1;
      WrapAppend(raw1, raw2[..n], wrapColumns);
      WrapSnoc(raw1 + raw2[..n], raw2[n], wrapColumns);
      WrapSnoc(raw2[..n], raw2[n], wrapColumns);
      SplitLast(raw2);
      Assoc(raw1, raw2[..n], [raw2[n]]);
      Assoc(WrapAll(raw1, wrapColumns), WrapAll(raw2[..n], wrapColumns), WrapLine(raw2[n], wrapColumns));
    }
  }

  /** The wrapped document is the raw rows' wrapped forms laid end to end: row i owns a non-empty slice,
      the starts are strictly increasing and the last slice ends the document. */
  lemma WrapSlices(raw: seq<DiffLine>, wrapColumns: nat, i: nat)
    requires i < |raw|
    ensures WrapStart(raw, wrapColumns, i) < WrapStart(raw, wrapColumns, i + 1) <= |WrapAll(raw, wrapColumns)|
    ensures i + 1 == |raw| ==> WrapStart(raw, wrapColumns, i + 1) == |WrapAll(raw, wrapColumns)|
    ensures WrapAll(raw, wrapColumns)[WrapStart(raw, wrapColumns, i)..WrapStart(raw, wrapColumns, i + 1)]
         == WrapLine(raw[i], wrapColumns)
  {
    hide WrapLine, WrapAll;
    WrapAllNext(raw, wrapColumns, i);
    assert raw[..i + 1] + raw[i + 1..] == raw;
    WrapAppend(raw[..i + 1], raw[i + 1..], wrapColumns);
    assert i + 1 == |raw| ==> raw[..i + 1] == raw;
  }

  /** Every row of the wrapped document, found from the raw row it belongs to, shows its stretch of that row's texts. */
  lemma WrappedCells(raw: seq<DiffLine>, wrapColumns: nat, r: nat, i: nat)
    requires r < |raw| && i < Height(raw[r], wrapColumns)
    ensures WrapStart(raw, wrapColumns, r) + i < |WrapAll(raw, wrapColumns)|
    ensures CellsFit(raw[r], wrapColumns, i, WrapAll(raw, wrapColumns)[WrapStart(raw, wrapColumns, r) + i])
  {
    hide WrapLine, WrapAll, WrapStart, WrapsTo, CellsFit, Height;
    WrapSlices(raw, wrapColumns, r);
    WrapLineKeeps(raw[r], wrapColumns);
    WrapLineCells(raw[r], wrapColumns, i);
    SliceAt(WrapAll(raw, wrapColumns), WrapStart(raw, wrapColumns, r), WrapStart(raw, wrapColumns, r + 1), i);
  }

  lemma SliceAt<T>(s: seq<T>, from: nat, to: nat, i: nat)
    requires from + i < to <= |s|
    ensures s[from..to][i] == s[from + i]
  {
  }

  lemma {:induction false} WrapStartsIncrease(raw: seq<DiffLine>, wrapColumns: nat, i: nat, j: nat)
    requires i < j <= |raw|
    ensures WrapStart(raw, wrapColumns, i) < WrapStart(raw, wrapColumns, j)
    decreases j
  {
    hide WrapLine, WrapAll;
    WrapSlices(raw, wrapColumns, j - 1);
    if i < j - 1 {
      WrapStartsIncrease(raw, wrapColumns, i, j - 1);
    }
  }

  /** A wider view is never longer. */
  lemma {:induction false} WrapShrinks(raw: seq<DiffLine>, narrow: nat, wide: nat)
    requires narrow <= wide
    ensures |WrapAll(raw, wide)| <= |WrapAll(raw, narrow)|
    decreases |raw|
  {
    hide WrapLine;
    if raw != [] {
      WrapShrinks(raw[..|raw| - 1], narrow, wide);
      WrapLineShrinks(raw[|raw| - 1], narrow, wide);
    }
  }

  function HeightSum(raw: seq<DiffLine>, wrapColumns: nat): nat {
    if raw == [] then 0 else HeightSum(raw[..|raw| - 1], wrapColumns) + Height(raw[|raw| - 1], wrapColumns)
  }

  /** The wrapped document is as long as its rows are high together, and a row starts below those before it. */
  lemma WrappedLength(raw: seq<DiffLine>, wrapColumns: nat, i: nat)
    requires i <= |raw|
    ensures |WrapAll(raw, wrapColumns)| == HeightSum(raw, wrapColumns)
    ensures WrapStart(raw, wrapColumns, i) == HeightSum(raw[..i], wrapColumns)
  {
    LengthIsSum(raw, wrapColumns);
    LengthIsSum(raw[..i], wrapColumns);
  }

  lemma {:induction false} LengthIsSum(raw: seq<DiffLine>, wrapColumns: nat)
    ensures |WrapAll(raw, wrapColumns)| == HeightSum(raw, wrapColumns)
    decreases |raw|
  {
    hide WrapLine, Height;
    if raw != [] {
      LengthIsSum(raw[..|raw| - 1], wrapColumns);
      WrapLineKeeps(raw[|raw| - 1], wrapColumns);
    }
  }
}
