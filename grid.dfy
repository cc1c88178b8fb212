/*
 * Grid geometry and the free-cell search of gbwm.c: the cell size, the
 * corner of a cell, the overlap test against the clients of the current
 * workspace and the two-pass search for the cell a new window goes to.
 */
module Grid {
  import opened Types

  /** C's `/` on int, which truncates toward zero. */
  function CDiv(a: int, b: int): (q: int)
    requires b > 0
    ensures a >= 0 ==> 0 <= b * q <= a < b * q + b
    ensures a < 0 ==> b * q - b < a <= b * q <= 0
  {
    if a >= 0 then DivBounds(a, b); a / b
    else DivBounds(-a, b); -((-a) / b)
  }

  lemma DivBounds(a: int, b: int)
    requires a >= 0 && b > 0
    ensures 0 <= b * (a / b) <= a < b * (a / b) + b
  {
    assert a == b * (a / b) + a % b;
  }

  /** The grid as the layout code sees it: shape, padding and cell size. */
  datatype Grid = Grid(rows: int, cols: int, padding: int, cellW: int, cellH: int)

  /** Cell size: the screen minus cols+1 (rows+1) paddings, split evenly. */
  function GridOf(e: Env): Grid
    requires e.Valid()
  {
    var cfg := e.cfg;
    Grid(cfg.rows, cfg.cols, cfg.padding,
         CDiv(e.sw - cfg.padding * (cfg.cols + 1), cfg.cols),
         CDiv(e.sh - cfg.padding * (cfg.rows + 1), cfg.rows))
  }

  function CellX(g: Grid, c: int): int { g.padding + c * (g.cellW + g.padding) }
  function CellY(g: Grid, r: int): int { g.padding + r * (g.cellH + g.padding) }

  function CellRect(g: Grid, cell: Cell): Rect {
    Rect(CellX(g, cell.c), CellY(g, cell.r), g.cellW, g.cellH)
  }

  predicate InGrid(g: Grid, cell: Cell) {
    0 <= cell.r < g.rows && 0 <= cell.c < g.cols
  }

  /** Strict row-major order on cells. */
  predicate Before(a: Cell, b: Cell) {
    a.r < b.r || (a.r == b.r && a.c < b.c)
  }

  /** Separating-axis test with a client's rectangle `a` and a cell `b`:
      they overlap unless one lies wholly left of, right of, above or below
      the other (touching edges do not overlap). */
  predicate Overlaps(a: Rect, b: Rect) {
    !(a.x + a.w <= b.x || a.x >= b.x + b.w || a.y + a.h <= b.y || a.y >= b.y + b.h)
  }

  /** A client occupies a cell when it is not fullscreen and overlaps it. */
  predicate Blocks(cl: Client, cell: Rect) {
    !cl.isFullscreen && Overlaps(cl.Geometry(), cell)
  }

  predicate CellFree(g: Grid, cs: seq<Client>, cell: Cell) {
    forall i :: 0 <= i < |cs| ==> !Blocks(cs[i], CellRect(g, cell))
  }

  /** A non-fullscreen client has exactly the geometry of a single cell. */
  predicate ExactlyAt(cl: Client, cell: Rect) {
    !cl.isFullscreen && cl.Geometry() == cell
  }

  predicate CoveredExactly(g: Grid, cs: seq<Client>, cell: Cell) {
    exists i :: 0 <= i < |cs| && ExactlyAt(cs[i], CellRect(g, cell))
  }

  /** The first pass looks for a free cell, the fallback pass for a cell
      that no client covers exactly. */
  datatype Pass = FreePass | ExactPass

  predicate Accepts(g: Grid, cs: seq<Client>, pass: Pass, cell: Cell) {
    match pass
    case FreePass => CellFree(g, cs, cell)
    case ExactPass => !CoveredExactly(g, cs, cell)
  }

  /** Row-major scan from cell (r, c) for the first cell the pass accepts. */
  function Scan(g: Grid, cs: seq<Client>, pass: Pass, r: int, c: int): Option<Cell>
    requires 0 <= r && 0 <= c
    decreases if r <= g.rows then g.rows - r else 0, if c <= g.cols then g.cols - c else 0
  {
    if r >= g.rows then None
    else if c >= g.cols then Scan(g, cs, pass, r + 1, 0)
    else if Accepts(g, cs, pass, Cell(r, c)) then Some(Cell(r, c))
    else Scan(g, cs, pass, r, c + 1)
  }

  /** The cell a zero-size focused client is placed in: the first free cell;
      if none, and some client covers the top-left cell exactly, the first
      cell not covered exactly; otherwise the top-left cell. */
  function FreeCell(g: Grid, cs: seq<Client>): Cell {
    match Scan(g, cs, FreePass, 0, 0)
    case Some(cell) => cell
    case None =>
      if CoveredExactly(g, cs, Cell(0, 0)) then
        match Scan(g, cs, ExactPass, 0, 0)
        case Some(cell) => cell
        case None => Cell(0, 0)
      else Cell(0, 0)
  }

  // ---------------------------------------------------------------------
  // What the scan finds

  lemma {:induction false} ScanFound(g: Grid, cs: seq<Client>, pass: Pass, r: int, c: int, found: Cell)
    requires 0 <= r && 0 <= c
    requires Scan(g, cs, pass, r, c) == Some(found)
    ensures InGrid(g, found) && Accepts(g, cs, pass, found)
    ensures !Before(found, Cell(r, c))
    ensures forall k :: InGrid(g, k) && !Before(k, Cell(r, c)) && Before(k, found) ==> !Accepts(g, cs, pass, k)
    decreases if r <= g.rows then g.rows - r else 0, if c <= g.cols then g.cols - c else 0
  {
    if r >= g.rows {
    } else if c >= g.cols {
      ScanFound(g, cs, pass, r + 1, 0, found);
    } else if Accepts(g, cs, pass, Cell(r, c)) {
    } else {
      ScanFound(g, cs, pass, r, c + 1, found);
    }
  }

  lemma {:induction false} ScanMissing(g: Grid, cs: seq<Client>, pass: Pass, r: int, c: int)
    requires 0 <= r && 0 <= c
    requires Scan(g, cs, pass, r, c) == None
    ensures forall k :: InGrid(g, k) && !Before(k, Cell(r, c)) ==> !Accepts(g, cs, pass, k)
    decreases if r <= g.rows then g.rows - r else 0, if c <= g.cols then g.cols - c else 0
  {
    if r >= g.rows {
    } else if c >= g.cols {
      ScanMissing(g, cs, pass, r + 1, 0);
    } else {
      ScanMissing(g, cs, pass, r, c + 1);
    }
  }

  // ---------------------------------------------------------------------
  // What the search returns

  /** The result is a cell of the grid. */
  lemma FreeCellInGrid(g: Grid, cs: seq<Client>)
    requires g.rows > 0 && g.cols > 0
    ensures InGrid(g, FreeCell(g, cs))
  {
    match Scan(g, cs, FreePass, 0, 0)
    case Some(cell) => ScanFound(g, cs, FreePass, 0, 0, cell);
    case None =>
      if CoveredExactly(g, cs, Cell(0, 0)) {
        match Scan(g, cs, ExactPass, 0, 0)
        case Some(cell) => ScanFound(g, cs, ExactPass, 0, 0, cell);
        case None =>
      }
  }

  /** When some cell is free, the result is free and no free cell comes
      before it in row-major order. */
  lemma FreeCellIsFirstFree(g: Grid, cs: seq<Client>, free: Cell)
    requires InGrid(g, free) && CellFree(g, cs, free)
    ensures CellFree(g, cs, FreeCell(g, cs))
    ensures !Before(free, FreeCell(g, cs))
  {
    match Scan(g, cs, FreePass, 0, 0)
    case Some(cell) =>
      ScanFound(g, cs, FreePass, 0, 0, cell);
    case None =>
      ScanMissing(g, cs, FreePass, 0, 0);
      assert false;
  }

  /** When no cell is free and a client covers the top-left cell exactly,
      the result is the first cell that no client covers exactly. */
  lemma FreeCellFallback(g: Grid, cs: seq<Client>, open: Cell)
    requires forall k :: InGrid(g, k) ==> !CellFree(g, cs, k)
    requires CoveredExactly(g, cs, Cell(0, 0))
    requires InGrid(g, open) && !CoveredExactly(g, cs, open)
    ensures !CoveredExactly(g, cs, FreeCell(g, cs))
    ensures !Before(open, FreeCell(g, cs))
  {
    match Scan(g, cs, FreePass, 0, 0)
    case Some(cell) =>
      ScanFound(g, cs, FreePass, 0, 0, cell);
    case None =>
      match Scan(g, cs, ExactPass, 0, 0)
      case Some(cell) =>
        ScanFound(g, cs, ExactPass, 0, 0, cell);
      case None =>
        ScanMissing(g, cs, ExactPass, 0, 0);
        assert false;
  }

  /** When no cell is free and no client covers the top-left cell exactly,
      or every cell is covered exactly, the result is the top-left cell. */
  lemma FreeCellDefault(g: Grid, cs: seq<Client>)
    requires forall k :: InGrid(g, k) ==> !CellFree(g, cs, k)
    requires !CoveredExactly(g, cs, Cell(0, 0)) || forall k :: InGrid(g, k) ==> CoveredExactly(g, cs, k)
    ensures FreeCell(g, cs) == Cell(0, 0)
  {
    match Scan(g, cs, FreePass, 0, 0)
    case Some(cell) =>
      ScanFound(g, cs, FreePass, 0, 0, cell);
    case None =>
      if CoveredExactly(g, cs, Cell(0, 0)) {
        match Scan(g, cs, ExactPass, 0, 0)
        case Some(cell) =>
          ScanFound(g, cs, ExactPass, 0, 0, cell);
        case None =>
      }
  }

  // ---------------------------------------------------------------------
  // Geometry of the grid

  /** The cells and the cols+1 paddings fit across the screen, and the
      truncated division leaves fewer than `cols` pixels over; likewise
      down the screen. */
  lemma GridFitsScreen(e: Env)
    requires e.Valid()
    requires e.sw >= e.cfg.padding * (e.cfg.cols + 1)
    requires e.sh >= e.cfg.padding * (e.cfg.rows + 1)
    ensures var g := GridOf(e);
      && g.cellW >= 0 && g.cellH >= 0
      && e.cfg.padding * (e.cfg.cols + 1) + e.cfg.cols * g.cellW <= e.sw
      && e.sw < e.cfg.padding * (e.cfg.cols + 1) + e.cfg.cols * g.cellW + e.cfg.cols
      && e.cfg.padding * (e.cfg.rows + 1) + e.cfg.rows * g.cellH <= e.sh
      && e.sh < e.cfg.padding * (e.cfg.rows + 1) + e.cfg.rows * g.cellH + e.cfg.rows
  {
  }

  lemma MulMono(a: int, b: int, k: int)
    requires a <= b && k >= 0
    ensures a * k <= b * k
  {
  }

  /** Every cell of the grid lies on the screen. */
  lemma CellOnScreen(e: Env, cell: Cell)
    requires e.Valid() && e.cfg.padding >= 0
    requires e.sw >= e.cfg.padding * (e.cfg.cols + 1)
    requires e.sh >= e.cfg.padding * (e.cfg.rows + 1)
    requires InGrid(GridOf(e), cell)
    ensures var rect := CellRect(GridOf(e), cell);
      0 <= rect.x && rect.x + rect.w <= e.sw && 0 <= rect.y && rect.y + rect.h <= e.sh
  {
    var g := GridOf(e);
    GridFitsScreen(e);
    AxisFits(g.cols, g.padding, g.cellW, e.sw, cell.c);
    AxisFits(g.rows, g.padding, g.cellH, e.sh, cell.r);
  }

  /** One axis of CellOnScreen: the k-th of n cells of size `size`,
      with padding p, ends before `total`. */
  lemma AxisFits(n: int, p: int, size: int, total: int, k: int)
    requires 0 <= k < n && p >= 0 && size >= 0
    requires p * (n + 1) + n * size <= total
    ensures 0 <= p + k * (size + p) && p + k * (size + p) + size <= total
  {
    MulMono(k, n - 1, size + p);
    MulMono(0, k, size + p);
    assert (n - 1) * (size + p) == n * size + n * p - size - p;
    assert p * (n + 1) == p * n + p;
  }

  /** Two different cells never overlap: padding separates them. */
  lemma CellsDisjoint(g: Grid, a: Cell, b: Cell)
    requires g.padding >= 0 && g.cellW >= 0 && g.cellH >= 0
    requires a != b
    ensures !Overlaps(CellRect(g, a), CellRect(g, b))
  {
    if a.c < b.c {
      MulMono(a.c + 1, b.c, g.cellW + g.padding);
    } else if b.c < a.c {
      MulMono(b.c + 1, a.c, g.cellW + g.padding);
    } else if a.r < b.r {
      MulMono(a.r + 1, b.r, g.cellH + g.padding);
    } else {
      MulMono(b.r + 1, a.r, g.cellH + g.padding);
    }
  }

  // ---------------------------------------------------------------------
  // The scan loops

  /** The loop of is_cell_free over the clients of the current workspace. */
  method IsCellFree(g: Grid, cs: seq<Client>, r: int, c: int) returns (free: bool)
    ensures free <==> CellFree(g, cs, Cell(r, c))
  {
    var cellX := g.padding + c * (g.cellW + g.padding);
    var cellY := g.padding + r * (g.cellH + g.padding);
    var i := 0;
    while i < |cs|
      invariant 0 <= i <= |cs|
      invariant forall j :: 0 <= j < i ==> !Blocks(cs[j], Rect(cellX, cellY, g.cellW, g.cellH))
    {
      var cl := cs[i];
      if !cl.isFullscreen {
        var clRight := cl.x + cl.w;
        var clBottom := cl.y + cl.h;
        var cellRight := cellX + g.cellW;
        var cellBottom := cellY + g.cellH;
        if !(clRight <= cellX || cl.x >= cellRight || clBottom <= cellY || cl.y >= cellBottom) {
          return false;
        }
      }
      i := i + 1;
    }
    return true;
  }

  /** The inner loop of the fallback pass: does some client sit exactly on
      the cell? */
  method HasExactClient(g: Grid, cs: seq<Client>, r: int, c: int) returns (found: bool)
    ensures found <==> CoveredExactly(g, cs, Cell(r, c))
  {
    var checkX := g.padding + c * (g.cellW + g.padding);
    var checkY := g.padding + r * (g.cellH + g.padding);
    found := false;
    var i := 0;
    while i < |cs|
      invariant 0 <= i <= |cs|
      invariant !found
      invariant forall j :: 0 <= j < i ==> !ExactlyAt(cs[j], CellRect(g, Cell(r, c)))
    {
      var check := cs[i];
      if !check.isFullscreen && check.x == checkX && check.y == checkY
         && check.w == g.cellW && check.h == g.cellH {
        found := true;
        return;
      }
      i := i + 1;
    }
  }

  /** find_next_free_cell: both passes over the grid, in row-major order. */
  method FindNextFreeCell(e: Env, cs: seq<Client>) returns (r: int, c: int)
    requires e.Valid()
    ensures Cell(r, c) == FreeCell(GridOf(e), cs)
  {
    var g := GridOf(e);
    // First pass: the first free cell.
    r := 0;
    while r < g.rows
      invariant 0 <= r <= g.rows
      invariant Scan(g, cs, FreePass, 0, 0) == Scan(g, cs, FreePass, r, 0)
    {
      c := 0;
      while c < g.cols
        invariant 0 <= c <= g.cols
        invariant Scan(g, cs, FreePass, 0, 0) == Scan(g, cs, FreePass, r, c)
      {
        var free := IsCellFree(g, cs, r, c);
        if free {
          return;
        }
        c := c + 1;
      }
      r := r + 1;
    }
    // Second pass, taken only when a client sits exactly on the top-left cell.
    var i := 0;
    while i < |cs|
      invariant 0 <= i <= |cs|
      invariant forall j :: 0 <= j < i ==> !ExactlyAt(cs[j], CellRect(g, Cell(0, 0)))
    {
      var cl := cs[i];
      if !cl.isFullscreen && cl.x == g.padding && cl.y == g.padding
         && cl.w == g.cellW && cl.h == g.cellH {
        r := 0;
        while r < g.rows
          invariant 0 <= r <= g.rows
          invariant Scan(g, cs, ExactPass, 0, 0) == Scan(g, cs, ExactPass, r, 0)
        {
          c := 0;
          while c < g.cols
            invariant 0 <= c <= g.cols
            invariant Scan(g, cs, ExactPass, 0, 0) == Scan(g, cs, ExactPass, r, c)
          {
            var found1x1 := HasExactClient(g, cs, r, c);
            if !found1x1 {
              return;
            }
            c := c + 1;
          }
          r := r + 1;
        }
        break;
      }
      i := i + 1;
    }
    // Fallback: the top-left cell.
    r, c := 0, 0;
  }
}
