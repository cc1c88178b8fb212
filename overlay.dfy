/*
 * The pure parts of the overlay selection: which key symbols become a
 * label character, where a label sits in the grid, the rectangle a
 * two-label selection commits to and which cells the overlay highlights.
 */
module Overlay {
  import opened Types
  import opened Grid

  /** The empty slot of the two-character selection buffer. */
  const Empty: char := '\0'

  /** Digits and lower-case letters stand for themselves, upper-case
      letters fold to lower case, every other key symbol is refused. */
  function FoldKey(k: KeySym): (ch: Option<char>)
    ensures ch.Some? <==> (48 <= k <= 57 || 97 <= k <= 122 || 65 <= k <= 90)
    ensures ch.Some? ==> ch.value != Empty && !('A' <= ch.value <= 'Z')
    ensures 65 <= k <= 90 ==> ch == Some((k + 32) as char)
    ensures (48 <= k <= 57 || 97 <= k <= 122) ==> ch == Some(k as char)
  {
    if 48 <= k <= 57 then Some(k as char)
    else if 97 <= k <= 122 then Some(k as char)
    else if 65 <= k <= 90 then Some((k - 65 + 97) as char)
    else None
  }

  /** Some cell of the grid carries the label. */
  predicate IsLabel(cfg: Config, ch: char)
    requires cfg.Valid()
  {
    exists r, c :: 0 <= r < cfg.rows && 0 <= c < cfg.cols && cfg.labels[r][c] == ch
  }

  /** Row-major scan that keeps the LAST cell carrying `ch`, starting at
      (r, c) with `last` the match found so far. */
  function LabelScan(cfg: Config, ch: char, r: int, c: int, last: Option<Cell>): Option<Cell>
    requires cfg.Valid() && 0 <= r && 0 <= c
    decreases if r <= cfg.rows then cfg.rows - r else 0, if c <= cfg.cols then cfg.cols - c else 0
  {
    if r >= cfg.rows then last
    else if c >= cfg.cols then LabelScan(cfg, ch, r + 1, 0, last)
    else LabelScan(cfg, ch, r, c + 1, if cfg.labels[r][c] == ch then Some(Cell(r, c)) else last)
  }

  /** The grid position of a label (the last one, should a label repeat). */
  function LabelPos(cfg: Config, ch: char): Option<Cell>
    requires cfg.Valid()
  {
    LabelScan(cfg, ch, 0, 0, None)
  }

  lemma {:induction false} LabelScanSound(cfg: Config, ch: char, r: int, c: int, last: Option<Cell>)
    requires cfg.Valid() && 0 <= r && 0 <= c
    requires last.Some? ==> 0 <= last.value.r < cfg.rows && 0 <= last.value.c < cfg.cols
                            && cfg.labels[last.value.r][last.value.c] == ch
    ensures var p := LabelScan(cfg, ch, r, c, last);
      p.Some? ==> 0 <= p.value.r < cfg.rows && 0 <= p.value.c < cfg.cols && cfg.labels[p.value.r][p.value.c] == ch
    ensures LabelScan(cfg, ch, r, c, last).None? ==>
      last.None? && forall k: Cell :: 0 <= k.r < cfg.rows && 0 <= k.c < cfg.cols && !Before(k, Cell(r, c)) ==> cfg.labels[k.r][k.c] != ch
    decreases if r <= cfg.rows then cfg.rows - r else 0, if c <= cfg.cols then cfg.cols - c else 0
  {
    if r >= cfg.rows {
    } else if c >= cfg.cols {
      LabelScanSound(cfg, ch, r + 1, 0, last);
    } else {
      LabelScanSound(cfg, ch, r, c + 1, if cfg.labels[r][c] == ch then Some(Cell(r, c)) else last);
    }
  }

  /** A label's position carries that label, and exactly the labels of the
      grid have a position. */
  lemma LabelPosCorrect(cfg: Config, ch: char)
    requires cfg.Valid()
    ensures var p := LabelPos(cfg, ch);
      p.Some? ==> 0 <= p.value.r < cfg.rows && 0 <= p.value.c < cfg.cols && cfg.labels[p.value.r][p.value.c] == ch
    ensures LabelPos(cfg, ch).Some? <==> IsLabel(cfg, ch)
  {
    LabelScanSound(cfg, ch, 0, 0, None);
    if IsLabel(cfg, ch) {
      var r, c :| 0 <= r < cfg.rows && 0 <= c < cfg.cols && cfg.labels[r][c] == ch;
      assert !Before(Cell(r, c), Cell(0, 0));
    }
  }

  /** The rectangle a selection of two cells commits to: the two are
      ordered so that row1 <= row2 and col1 <= col2, then the span is the
      spanned cells plus the padding between them. */
  function SpanRect(g: Grid, a: Cell, b: Cell): Rect {
    var r1 := if a.r > b.r then b.r else a.r;
    var r2 := if a.r > b.r then a.r else b.r;
    var c1 := if a.c > b.c then b.c else a.c;
    var c2 := if a.c > b.c then a.c else b.c;
    var colsSpan := c2 - c1 + 1;
    var rowsSpan := r2 - r1 + 1;
    Rect(g.padding + c1 * (g.cellW + g.padding),
         g.padding + r1 * (g.cellH + g.padding),
         colsSpan * g.cellW + (colsSpan - 1) * g.padding,
         rowsSpan * g.cellH + (rowsSpan - 1) * g.padding)
  }

  function Min(a: int, b: int): int { if a < b then a else b }
  function Max(a: int, b: int): int { if a < b then b else a }

  /** The order in which the two cells were picked does not matter. */
  lemma SpanCommutes(g: Grid, a: Cell, b: Cell)
    ensures SpanRect(g, a, b) == SpanRect(g, b, a)
  {
  }

  /** Picking the same cell twice commits to exactly that cell. */
  lemma SpanSingleCell(g: Grid, a: Cell)
    ensures SpanRect(g, a, a) == CellRect(g, a)
  {
  }

  lemma SpanAxis(p: int, size: int, lo: int, hi: int)
    requires lo <= hi
    ensures (p + lo * (size + p)) + ((hi - lo + 1) * size + (hi - lo) * p) == p + hi * (size + p) + size
  {
    assert (hi - lo + 1) * size == hi * size - lo * size + size;
    assert (hi - lo) * p == hi * p - lo * p;
    assert lo * (size + p) == lo * size + lo * p;
    assert hi * (size + p) == hi * size + hi * p;
  }

  /** The committed rectangle is the bounding box of the two picked cells:
      it starts at the corner of the upper-left one and ends at the far
      edges of the lower-right one. */
  lemma SpanIsBoundingBox(g: Grid, a: Cell, b: Cell)
    ensures var s := SpanRect(g, a, b);
      var lo := Cell(Min(a.r, b.r), Min(a.c, b.c));
      var hi := Cell(Max(a.r, b.r), Max(a.c, b.c));
      && s.x == CellRect(g, lo).x && s.y == CellRect(g, lo).y
      && s.x + s.w == CellRect(g, hi).x + g.cellW
      && s.y + s.h == CellRect(g, hi).y + g.cellH
  {
    SpanAxis(g.padding, g.cellW, Min(a.c, b.c), Max(a.c, b.c));
    SpanAxis(g.padding, g.cellH, Min(a.r, b.r), Max(a.r, b.r));
  }

  /** The highlight of draw_overlay: with two picks, every cell of their
      bounding box; with one, that cell; with none, nothing. */
  predicate IsSelected(first: Option<Cell>, second: Option<Cell>, cell: Cell) {
    if first.Some? && first.value.r >= 0 && first.value.c >= 0 then
      if second.Some? && second.value.r >= 0 && second.value.c >= 0 then
        var minR := if first.value.r < second.value.r then first.value.r else second.value.r;
        var maxR := if first.value.r > second.value.r then first.value.r else second.value.r;
        var minC := if first.value.c < second.value.c then first.value.c else second.value.c;
        var maxC := if first.value.c > second.value.c then first.value.c else second.value.c;
        minR <= cell.r <= maxR && minC <= cell.c <= maxC
      else cell == first.value
    else false
  }

  lemma MulStrict(a: int, b: int, k: int)
    requires a < b && k > 0
    ensures a * k < b * k
  {
  }

  /** lo*s <= k*s <= hi*s exactly when lo <= k <= hi, for a positive step s. */
  lemma StepOrder(lo: int, k: int, hi: int, s: int)
    requires s > 0
    ensures (lo * s <= k * s && k * s <= hi * s) <==> (lo <= k <= hi)
  {
    if k < lo { MulStrict(k, lo, s); }
    if hi < k { MulStrict(hi, k, s); }
    if lo <= k { MulMono(lo, k, s); }
    if k <= hi { MulMono(k, hi, s); }
  }

  /** With two picks, the overlay highlights exactly the cells that lie
      inside the rectangle the selection commits to. */
  lemma HighlightMatchesCommit(g: Grid, a: Cell, b: Cell, cell: Cell)
    requires a.r >= 0 && a.c >= 0 && b.r >= 0 && b.c >= 0
    requires g.cellW + g.padding > 0 && g.cellH + g.padding > 0
    ensures var s := SpanRect(g, a, b);
      var k := CellRect(g, cell);
      IsSelected(Some(a), Some(b), cell) <==>
        (s.x <= k.x && k.x + k.w <= s.x + s.w && s.y <= k.y && k.y + k.h <= s.y + s.h)
  {
    SpanIsBoundingBox(g, a, b);
    StepOrder(Min(a.c, b.c), cell.c, Max(a.c, b.c), g.cellW + g.padding);
    StepOrder(Min(a.r, b.r), cell.r, Max(a.r, b.r), g.cellH + g.padding);
  }

  /** With one pick, only that cell is highlighted. */
  lemma HighlightSingle(a: Cell, cell: Cell)
    requires a.r >= 0 && a.c >= 0
    ensures IsSelected(Some(a), None, cell) <==> cell == a
    ensures IsSelected(Some(a), Some(a), cell) <==> cell == a
  {
  }

  // ---------------------------------------------------------------------
  // The label loops

  /** The loop of keypress that checks a character against the grid. */
  method FindLabel(cfg: Config, ch: char) returns (found: bool)
    requires cfg.Valid()
    ensures found <==> IsLabel(cfg, ch)
  {
    found := false;
    var r := 0;
    while r < cfg.rows && !found
      invariant 0 <= r <= cfg.rows
      invariant found ==> IsLabel(cfg, ch)
      invariant !found ==> forall i, j :: 0 <= i < r && 0 <= j < cfg.cols ==> cfg.labels[i][j] != ch
    {
      var c := 0;
      while c < cfg.cols && !found
        invariant 0 <= c <= cfg.cols
        invariant found ==> IsLabel(cfg, ch)
        invariant !found ==> forall i, j :: 0 <= i < r && 0 <= j < cfg.cols ==> cfg.labels[i][j] != ch
        invariant !found ==> forall j :: 0 <= j < c ==> cfg.labels[r][j] != ch
      {
        if cfg.labels[r][c] == ch {
          found := true;
        }
        c := c + 1;
      }
      r := r + 1;
    }
  }

  /** The loop of process_overlay_input and draw_overlay that maps a
      selected character to its (row, column); (-1, -1) when absent. */
  method LabelPosition(cfg: Config, ch: char) returns (r1: int, c1: int)
    requires cfg.Valid()
    ensures LabelPos(cfg, ch) == if r1 == -1 then None else Some(Cell(r1, c1))
  {
    r1, c1 := -1, -1;
    var r := 0;
    while r < cfg.rows
      invariant 0 <= r <= cfg.rows
      invariant r1 >= 0 ==> r1 < r
      invariant r1 == -1 <==> c1 == -1
      invariant LabelPos(cfg, ch) == LabelScan(cfg, ch, r, 0, if r1 == -1 then None else Some(Cell(r1, c1)))
    {
      var c := 0;
      while c < cfg.cols
        invariant 0 <= c <= cfg.cols
        invariant r1 >= 0 ==> r1 <= r
        invariant r1 == -1 <==> c1 == -1
        invariant LabelPos(cfg, ch) == LabelScan(cfg, ch, r, c, if r1 == -1 then None else Some(Cell(r1, c1)))
      {
        if cfg.labels[r][c] == ch {
          r1, c1 := r, c;
        }
        c := c + 1;
      }
      r := r + 1;
    }
  }
}
