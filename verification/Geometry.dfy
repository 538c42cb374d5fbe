/** Where a scope's rows and edges go, as a function of the rows (grapharc/observe/layout.py). */
module Geometry {
  import opened Digraph
  import opened RowOrder

  const NODE_H := 52.0
  const NODE_W_MIN := 150.0
  const NODE_W_MAX := 230.0
  const TERMINAL_SIZE := 28.0
  const GAP_X := 36.0
  const GAP_Y := 56.0
  const MARGIN := 24.0
  const CLUSTER_PAD := 20.0
  const CLUSTER_GAP := 40.0

  datatype Point = Point(x: real, y: real)

  datatype Size = Size(w: real, h: real)

  datatype Box = Box(x: real, y: real, w: real, h: real)

  function Max(a: real, b: real): real { if a >= b then a else b }

  function Min(a: real, b: real): real { if a <= b then a else b }

  /** Sizes of drawn nodes: a terminal is a small square, any other node a wider, taller box. */
  ghost predicate IsNodeSize(s: Size) {
    (s.w == TERMINAL_SIZE && s.h == TERMINAL_SIZE) || (NODE_W_MIN <= s.w <= NODE_W_MAX && s.h == NODE_H)
  }

  type Sizes = map<Id, Size>

  ghost predicate RowSized(row: seq<Id>, size: Sizes) {
    forall v :: v in row ==> v in size && IsNodeSize(size[v])
  }

  ghost predicate Sized(rows: Rows, size: Sizes) {
    forall k :: 0 <= k < |rows| ==> RowSized(rows[k], size)
  }

  // ---- The extent of rows and of the block ---------------------------------------------

  function Widths(row: seq<Id>, size: Sizes): real
    requires RowSized(row, size)
  {
    if row == [] then 0.0 else Widths(row[..|row| - 1], size) + size[row[|row| - 1]].w
  }

  function RowWidth(row: seq<Id>, size: Sizes): real
    requires RowSized(row, size)
  {
    Widths(row, size) + GAP_X * (if |row| > 1 then |row| - 1 else 0) as real
  }

  function RowHeight(row: seq<Id>, size: Sizes): (h: real)
    requires RowSized(row, size)
    ensures h >= 0.0 && forall v :: v in row ==> size[v].h <= h
    ensures row != [] ==> exists v :: v in row && size[v].h == h
  {
    if row == [] then NODE_H
    else if |row| == 1 then assert row[0] in row; size[row[0]].h
    else
      var front, last := row[..|row| - 1], row[|row| - 1];
      assert row == front + [last];
      Max(RowHeight(front, size), size[last].h)
  }

  function BlockWidth(rows: Rows, size: Sizes): (w: real)
    requires Sized(rows, size)
    ensures w >= 0.0 && forall k :: 0 <= k < |rows| ==> RowWidth(rows[k], size) <= w
  {
    if rows == [] then 0.0
    else
      WidthsNonNegative(rows[|rows| - 1], size);
      Max(BlockWidth(rows[..|rows| - 1], size), RowWidth(rows[|rows| - 1], size))
  }

  lemma {:induction false} WidthsNonNegative(row: seq<Id>, size: Sizes)
    requires RowSized(row, size)
    ensures Widths(row, size) >= 0.0
  {
    if row != [] {
      WidthsNonNegative(row[..|row| - 1], size);
      assert row[|row| - 1] in row;
    }
  }

  /** The top of row `k`: the rows above it and the gaps between them. */
  function RowTop(rows: Rows, size: Sizes, k: nat): (y: real)
    requires Sized(rows, size) && k <= |rows|
    ensures y >= 0.0
  {
    if k == 0 then 0.0 else RowTop(rows, size, k - 1) + RowHeight(rows[k - 1], size) + GAP_Y
  }

  function BlockHeight(rows: Rows, size: Sizes): real
    requires Sized(rows, size)
  {
    Max(0.0, RowTop(rows, size, |rows|) - GAP_Y)
  }

  // ---- Places --------------------------------------------------------------------------

  function RowStart(row: seq<Id>, size: Sizes, width: real): real
    requires RowSized(row, size)
  {
    (width - RowWidth(row, size)) / 2.0
  }

  function XAt(row: seq<Id>, size: Sizes, width: real, j: nat): real
    requires RowSized(row, size) && j <= |row|
  {
    RowStart(row, size, width) + Widths(row[..j], size) + GAP_X * j as real
  }

  function YAt(rows: Rows, size: Sizes, k: nat, v: Id): real
    requires Sized(rows, size) && k < |rows| && v in rows[k]
  {
    RowTop(rows, size, k) + (RowHeight(rows[k], size) - size[v].h) / 2.0
  }

  function BoxAt(rows: Rows, size: Sizes, k: nat, j: nat): Box
    requires Sized(rows, size) && k < |rows| && j < |rows[k]|
  {
    var v := rows[k][j];
    Box(XAt(rows[k], size, BlockWidth(rows, size), j), YAt(rows, size, k, v), size[v].w, size[v].h)
  }

  ghost predicate Within(b: Box, width: real, height: real) {
    0.0 <= b.x && b.x + b.w <= width && 0.0 <= b.y && b.y + b.h <= height
  }

  ghost predicate LeftOf(a: Box, b: Box, gap: real) { a.x + a.w + gap <= b.x }

  ghost predicate AboveBox(a: Box, b: Box, gap: real) { a.y + a.h + gap <= b.y }

  /** 36 apart side by side, or 56 apart one above the other. */
  ghost predicate Apart(a: Box, b: Box) {
    LeftOf(a, b, 36.0) || LeftOf(b, a, 36.0) || AboveBox(a, b, 56.0) || AboveBox(b, a, 56.0)
  }

  lemma {:induction false} WidthsGrow(row: seq<Id>, size: Sizes, i: nat, j: nat)
    requires RowSized(row, size) && i < j <= |row|
    ensures Widths(row[..i], size) + size[row[i]].w <= Widths(row[..j], size)
  {
    assert row[..j][..j - 1] == row[..j - 1];
    assert row[j - 1] in row;
    if i < j - 1 {
      WidthsGrow(row, size, i, j - 1);
    } else {
      assert row[..i + 1][..i] == row[..i];
    }
  }

  /** In one row, every box ends a gap before any later one begins. */
  lemma RowBoxesApart(rows: Rows, size: Sizes, k: nat, i: nat, j: nat)
    requires Sized(rows, size) && k < |rows| && i < j < |rows[k]|
    ensures LeftOf(BoxAt(rows, size, k, i), BoxAt(rows, size, k, j), GAP_X)
  {
    WidthsGrow(rows[k], size, i, j);
  }

  lemma {:induction false} RowTopsGrow(rows: Rows, size: Sizes, k: nat, m: nat)
    requires Sized(rows, size) && k < m <= |rows|
    ensures RowTop(rows, size, k) + RowHeight(rows[k], size) + GAP_Y <= RowTop(rows, size, m)
  {
    if k < m - 1 {
      RowTopsGrow(rows, size, k, m - 1);
    }
  }

  /** A box ends at least a gap above any box of a later row. */
  lemma LaterRowIsBelow(rows: Rows, size: Sizes, k: nat, i: nat, m: nat, j: nat)
    requires Sized(rows, size) && k < m < |rows| && i < |rows[k]| && j < |rows[m]|
    ensures AboveBox(BoxAt(rows, size, k, i), BoxAt(rows, size, m, j), GAP_Y)
  {
    assert rows[k][i] in rows[k] && rows[m][j] in rows[m];
    RowTopsGrow(rows, size, k, m);
  }

  lemma BoxesApart(rows: Rows, size: Sizes, k: nat, i: nat, m: nat, j: nat)
    requires Sized(rows, size) && k < |rows| && i < |rows[k]| && m < |rows| && j < |rows[m]| && (k, i) != (m, j)
    ensures Apart(BoxAt(rows, size, k, i), BoxAt(rows, size, m, j))
  {
    if k < m {
      LaterRowIsBelow(rows, size, k, i, m, j);
    } else if m < k {
      LaterRowIsBelow(rows, size, m, j, k, i);
    } else if i < j {
      RowBoxesApart(rows, size, k, i, j);
    } else {
      RowBoxesApart(rows, size, k, j, i);
    }
  }

  lemma BoxInside(rows: Rows, size: Sizes, k: nat, j: nat)
    requires Sized(rows, size) && k < |rows| && j < |rows[k]|
    ensures Within(BoxAt(rows, size, k, j), BlockWidth(rows, size), BlockHeight(rows, size))
  {
    var row := rows[k];
    assert row[j] in row;
    WidthsNonNegative(row[..j], size);
    WidthsGrow(row, size, j, |row|);
    assert row[..|row|] == row;
    assert RowWidth(row, size) <= BlockWidth(rows, size);
    RowTopsGrow(rows, size, k, |rows|);
  }

  // ---- Edges ---------------------------------------------------------------------------

  function LoopPoints(s: Box): seq<Point> {
    var rx, cy := s.x + s.w, s.y + s.h / 2.0;
    [Point(rx, cy - 8.0), Point(rx + 40.0, cy - 22.0), Point(rx + 40.0, cy + 22.0), Point(rx, cy + 8.0)]
  }

  function BackPoints(s: Box, t: Box, width: real): seq<Point> {
    var sx, sy := s.x + s.w, s.y + s.h / 2.0;
    var tx, ty := t.x + t.w, t.y + t.h / 2.0;
    var arcX := width + 48.0;
    [Point(sx, sy), Point(arcX, sy), Point(arcX, ty), Point(tx, ty)]
  }

  function ForwardPoints(s: Box, t: Box): seq<Point> {
    var sx, sy := s.x + s.w / 2.0, s.y + s.h;
    var tx, ty := t.x + t.w / 2.0, t.y;
    var bend := Min(GAP_Y / 2.0, Max(12.0, (ty - sy) / 2.0));
    [Point(sx, sy), Point(sx, sy + bend), Point(tx, ty - bend), Point(tx, ty)]
  }

  /** From the middle of `s`'s bottom to the middle of `t`'s top, never turning upward, with a full
      gap between the two ends, of which it spends one half straight down at either end. */
  ghost predicate RunsDown(points: seq<Point>, s: Box, t: Box) {
    && |points| == 4
    && points[0] == Point(s.x + s.w / 2.0, s.y + s.h)
    && points[3] == Point(t.x + t.w / 2.0, t.y)
    && points[0].y + 56.0 <= points[3].y
    && points[1] == Point(points[0].x, points[0].y + 28.0)
    && points[2] == Point(points[3].x, points[3].y - 28.0)
    && points[0].y <= points[1].y <= points[2].y <= points[3].y
  }

  /** From the middle of `s`'s right side straight out, up or down, and straight in to the middle of `t`'s
      right side. */
  ghost predicate ArcsBack(points: seq<Point>, s: Box, t: Box) {
    && |points| == 4
    && points[0] == Point(s.x + s.w, s.y + s.h / 2.0)
    && points[3] == Point(t.x + t.w, t.y + t.h / 2.0)
    && points[1].y == points[0].y && points[2].y == points[3].y && points[1].x == points[2].x
  }

  lemma BackArcsBack(s: Box, t: Box, width: real)
    ensures ArcsBack(BackPoints(s, t, width), s, t) && BackPoints(s, t, width)[1].x == width + 48.0
  {
  }

  /** Out of the right side a little above its middle, 40 wide, and in again a little below. */
  ghost predicate Bulges(points: seq<Point>, s: Box) {
    var right, middle := s.x + s.w, s.y + s.h / 2.0;
    && |points| == 4
    && points[0] == Point(right, middle - 8.0) && points[3] == Point(right, middle + 8.0)
    && points[1] == Point(right + 40.0, middle - 22.0) && points[2] == Point(right + 40.0, middle + 22.0)
  }

  lemma LoopBulges(s: Box)
    ensures Bulges(LoopPoints(s), s)
  {
  }

  /** Every row is centred: its boxes stand exactly one gap apart, as far from the left of the block as
      from its right, with their middles on one line. */
  lemma RowIsCentred(rows: Rows, size: Sizes, k: nat, j: nat)
    requires Sized(rows, size) && k < |rows| && j < |rows[k]|
    ensures j + 1 < |rows[k]| ==>
      BoxAt(rows, size, k, j + 1).x == BoxAt(rows, size, k, j).x + BoxAt(rows, size, k, j).w + 36.0
    ensures var first, last := BoxAt(rows, size, k, 0), BoxAt(rows, size, k, |rows[k]| - 1);
      first.x == BlockWidth(rows, size) - (last.x + last.w)
    ensures var first, box := BoxAt(rows, size, k, 0), BoxAt(rows, size, k, j);
      box.y + box.h / 2.0 == first.y + first.h / 2.0
  {
    var row, n := rows[k], |rows[k]| - 1;
    if j < n {
      assert row[..j + 1][..j] == row[..j];
    }
    assert row[..0] == [] && row[..n + 1] == row;
  }

  /** No box of the row is taller. */
  ghost predicate Tallest(rows: Rows, size: Sizes, k: nat, j: nat)
    requires Sized(rows, size) && k < |rows| && j < |rows[k]|
  {
    forall i :: 0 <= i < |rows[k]| ==> BoxAt(rows, size, k, i).h <= BoxAt(rows, size, k, j).h
  }

  lemma TallestFillsRow(rows: Rows, size: Sizes, k: nat, j: nat)
    requires Sized(rows, size) && k < |rows| && j < |rows[k]|
    ensures Tallest(rows, size, k, j) <==> size[rows[k][j]].h == RowHeight(rows[k], size)
    ensures Tallest(rows, size, k, j) ==>
      BoxAt(rows, size, k, j).y == RowTop(rows, size, k) && BoxAt(rows, size, k, j).h == RowHeight(rows[k], size)
  {
    hide BlockWidth, XAt, RowTop;
    var row := rows[k];
    var h := RowHeight(row, size);
    assert row[j] in row;
    var v :| v in row && size[v].h == h;
    var m :| 0 <= m < |rows[k]| && rows[k][m] == v;
    assert rows[k][j] in rows[k];
    assert BoxAt(rows, size, k, m).h == RowHeight(rows[k], size);
    if size[rows[k][j]].h == RowHeight(rows[k], size) {
      forall i | 0 <= i < |rows[k]| ensures BoxAt(rows, size, k, i).h <= BoxAt(rows, size, k, j).h {
        assert rows[k][i] in rows[k];
      }
    }
  }

  lemma {:induction false} WidestRow(rows: Rows, size: Sizes) returns (m: nat)
    requires Sized(rows, size) && rows != []
    ensures m < |rows| && RowWidth(rows[m], size) == BlockWidth(rows, size)
  {
    var n := |rows| - 1;
    m := n;
    WidthsNonNegative(rows[n], size);
    assert rows == rows[..n] + [rows[n]];
    if n > 0 && BlockWidth(rows, size) != RowWidth(rows[n], size) {
      m := WidestRow(rows[..n], size);
    }
  }

  /** Some row, the widest, reaches from the left of the block to its right. */
  lemma WidestRowFillsBlock(rows: Rows, size: Sizes) returns (m: nat)
    requires Sized(rows, size) && rows != []
    ensures m < |rows| && (rows[m] != [] ==> BoxAt(rows, size, m, 0).x == 0.0)
  {
    m := WidestRow(rows, size);
    assert rows[m] != [] ==> rows[m][..0] == [];
  }

  /** Rows stand exactly one gap apart: the tallest box of a row starts that far below the end of the
      tallest of the row before. */
  lemma RowsStack(rows: Rows, size: Sizes, k: nat, i: nat, j: nat)
    requires Sized(rows, size) && k + 1 < |rows| && i < |rows[k]| && j < |rows[k + 1]|
    requires Tallest(rows, size, k, i) && Tallest(rows, size, k + 1, j)
    ensures BoxAt(rows, size, k + 1, j).y == BoxAt(rows, size, k, i).y + BoxAt(rows, size, k, i).h + 56.0
  {
    hide BoxAt, Tallest;
    TallestFillsRow(rows, size, k, i);
    TallestFillsRow(rows, size, k + 1, j);
  }

  /** The first row starts at the top of the block and the last ends at its bottom. */
  lemma RowsFillBlock(rows: Rows, size: Sizes, i: nat, j: nat)
    requires Sized(rows, size) && rows != [] && i < |rows[0]| && j < |rows[|rows| - 1]|
    requires Tallest(rows, size, 0, i) && Tallest(rows, size, |rows| - 1, j)
    ensures BoxAt(rows, size, 0, i).y == 0.0
    ensures BoxAt(rows, size, |rows| - 1, j).y + BoxAt(rows, size, |rows| - 1, j).h == BlockHeight(rows, size)
  {
    hide BoxAt, Tallest;
    TallestFillsRow(rows, size, 0, i);
    TallestFillsRow(rows, size, |rows| - 1, j);
  }

  lemma ForwardRunsDown(s: Box, t: Box)
    requires AboveBox(s, t, GAP_Y)
    ensures RunsDown(ForwardPoints(s, t), s, t)
  {
  }

  /** Edges bulge at most this far out of the block they belong to. */
  ghost predicate Near(points: seq<Point>, width: real, height: real) {
    forall p :: p in points ==> 0.0 <= p.x <= width + 48.0 && -8.0 <= p.y <= height + 8.0
  }

  lemma LoopIsNear(s: Box, width: real, height: real)
    requires Within(s, width, height) && s.h >= TERMINAL_SIZE && s.w >= 0.0
    ensures Near(LoopPoints(s), width, height)
  {
  }

  lemma BackIsNear(s: Box, t: Box, width: real, height: real)
    requires Within(s, width, height) && Within(t, width, height)
    requires s.h >= 0.0 && t.h >= 0.0 && s.w >= 0.0 && t.w >= 0.0
    ensures Near(BackPoints(s, t, width), width, height)
  {
  }

  lemma ForwardIsNear(s: Box, t: Box, width: real, height: real)
    requires Within(s, width, height) && Within(t, width, height) && AboveBox(s, t, GAP_Y)
    requires s.h >= 0.0 && t.h >= 0.0 && s.w >= 0.0 && t.w >= 0.0
    ensures Near(ForwardPoints(s, t), width, height)
  {
    ForwardRunsDown(s, t);
  }
}
