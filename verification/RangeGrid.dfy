/** The attack-range board: a set of cells laid out as one string per row
    (src/arknights_mcp/services/range_grid.py). */
module RangeGrid {
  import opened Lists

  datatype Cell = Cell(row: int, col: int)

  const ORIGIN_COVERED := '@'
  const ORIGIN_UNCOVERED := 'o'
  const COVERED := '#'
  const ABSENT := '.'

  const MAX_RANGE_GRID_CELLS := 1024

  // ---------------------------------------------------------------- specification

  function Least(xs: seq<int>): int {
    if xs == [] then 0 else if xs[|xs| - 1] < Least(xs[..|xs| - 1]) then xs[|xs| - 1] else Least(xs[..|xs| - 1])
  }

  function Greatest(xs: seq<int>): int {
    if xs == [] then 0 else if xs[|xs| - 1] > Greatest(xs[..|xs| - 1]) then xs[|xs| - 1] else Greatest(xs[..|xs| - 1])
  }

  /** The smallest and largest index on one axis, the origin included. */
  predicate IsFrame(xs: seq<int>, lo: int, hi: int) {
    && lo <= 0 <= hi
    && (forall i :: 0 <= i < |xs| ==> lo <= xs[i] <= hi)
    && (lo == 0 || lo in xs)
    && (hi == 0 || hi in xs)
  }

  lemma {:induction false} BoundsAreFrame(xs: seq<int>)
    ensures IsFrame(xs, Least(xs), Greatest(xs))
  {
    if xs != [] {
      BoundsAreFrame(xs[..|xs| - 1]);
      assert xs == xs[..|xs| - 1] + [xs[|xs| - 1]];
    }
  }

  function Rows(grids: seq<Cell>): seq<int> { Map(grids, (cell: Cell) => cell.row) }

  function Cols(grids: seq<Cell>): seq<int> { Map(grids, (cell: Cell) => cell.col) }

  datatype Frame = Frame(minRow: int, maxRow: int, minCol: int, maxCol: int) {
    function Height(): int { maxRow - minRow + 1 }
    function Width(): int { maxCol - minCol + 1 }
    function Area(): int { Height() * Width() }
    predicate Of(grids: seq<Cell>) { IsFrame(Rows(grids), minRow, maxRow) && IsFrame(Cols(grids), minCol, maxCol) }
  }

  /** The bounding box of the cells and the origin. */
  function FrameOf(grids: seq<Cell>): (f: Frame)
    ensures f.Of(grids)
  {
    BoundsAreFrame(Rows(grids));
    BoundsAreFrame(Cols(grids));
    Frame(Least(Rows(grids)), Greatest(Rows(grids)), Least(Cols(grids)), Greatest(Cols(grids)))
  }

  function Symbol(cell: Cell, grids: seq<Cell>): char {
    if cell in grids then (if cell == Cell(0, 0) then '@' else '#') else (if cell == Cell(0, 0) then 'o' else '.')
  }

  /** The y-th row of a frame: every cell of it carries its symbol. */
  ghost predicate IsGridRow(chars: string, y: int, f: Frame, grids: seq<Cell>) {
    |chars| == f.Width() && forall c :: 0 <= c < |chars| ==> chars[c] == Symbol(Cell(y, f.minCol + c), grids)
  }

  /** The board of a frame, top row first. */
  ghost predicate IsBoard(board: seq<string>, grids: seq<Cell>, f: Frame) {
    |board| == f.Height() && forall r :: 0 <= r < |board| ==> IsGridRow(board[r], f.minRow + r, f, grids)
  }

  // ---------------------------------------------------------------- the code

  /** `min(*xs, 0)` and `max(*xs, 0)`. */
  method Bounds(xs: seq<int>) returns (lo: int, hi: int)
    ensures lo == Least(xs) && hi == Greatest(xs)
  {
    lo, hi := 0, 0;
    for i := 0 to |xs|
      invariant lo == Least(xs[..i]) && hi == Greatest(xs[..i])
    {
      assert xs[..i + 1][..i] == xs[..i];
      if xs[i] < lo {
        lo := xs[i];
      }
      if xs[i] > hi {
        hi := xs[i];
      }
    }
    assert xs[..|xs|] == xs;
  }

  /** The inner loop, lines 74-87. */
  method GridRow(row: int, f: Frame, grids: seq<Cell>) returns (chars: string)
    requires f.minCol <= f.maxCol
    ensures IsGridRow(chars, row, f, grids)
  {
    chars := "";
    for col := f.minCol to f.maxCol + 1
      invariant |chars| == col - f.minCol
      invariant forall c :: 0 <= c < |chars| ==> chars[c] == Symbol(Cell(row, f.minCol + c), grids)
    {
      var isOrigin := row == 0 && col == 0;
      if Cell(row, col) in grids {
        chars := chars + [if isOrigin then ORIGIN_COVERED else COVERED];
      } else {
        chars := chars + [if isOrigin then ORIGIN_UNCOVERED else ABSENT];
      }
    }
  }

  /** The empty board is returned exactly for the empty set of cells and for a frame over the limit. */
  method RangeGridRows(grids: seq<Cell>) returns (board: seq<string>)
    ensures var f := FrameOf(grids);
            board == [] <==> grids == [] || (f.maxRow - f.minRow + 1) * (f.maxCol - f.minCol + 1) > 1024
    ensures board != [] ==> IsBoard(board, grids, FrameOf(grids))
  {
    if grids == [] {
      return [];
    }
    var minRow, maxRow := Bounds(Rows(grids));
    var minCol, maxCol := Bounds(Cols(grids));
    var f := Frame(minRow, maxRow, minCol, maxCol);
    assert f == FrameOf(grids) && f.Of(grids);
    if f.Area() > MAX_RANGE_GRID_CELLS {
      return [];
    }
    board := LayOut(f, grids);
  }

  /** The outer loop, lines 72-88. */
  method LayOut(f: Frame, grids: seq<Cell>) returns (board: seq<string>)
    requires f.minCol <= f.maxCol && f.minRow <= f.maxRow
    ensures IsBoard(board, grids, f)
  {
    board := [];
    for row := f.minRow to f.maxRow + 1
      invariant |board| == row - f.minRow
      invariant forall r :: 0 <= r < |board| ==> IsGridRow(board[r], f.minRow + r, f, grids)
    {
      var chars := GridRow(row, f, grids);
      board := board + [chars];
    }
  }

  // ---------------------------------------------------------------- reading a board

  predicate IsOriginSymbol(c: char) { c == ORIGIN_COVERED || c == ORIGIN_UNCOVERED }

  predicate IsCoveredSymbol(c: char) { c == ORIGIN_COVERED || c == COVERED }

  /** The origin symbol stands at row `r`, column `c`. */
  predicate OriginAt(board: seq<string>, r: int, c: int) {
    0 <= r < |board| && 0 <= c < |board[r]| && IsOriginSymbol(board[r][c])
  }

  /** What a reader of the board alone takes `cell` for, having found the origin at `(r, c)`. */
  predicate Reads(board: seq<string>, r: int, c: int, cell: Cell) {
    && 0 <= r + cell.row < |board|
    && 0 <= c + cell.col < |board[r + cell.row]|
    && IsCoveredSymbol(board[r + cell.row][c + cell.col])
  }

  lemma FrameHoldsCells(grids: seq<Cell>, f: Frame)
    requires f.Of(grids)
    ensures forall cell :: cell in grids ==> f.minRow <= cell.row <= f.maxRow && f.minCol <= cell.col <= f.maxCol
  {
    MapAt(grids, (cell: Cell) => cell.row);
    MapAt(grids, (cell: Cell) => cell.col);
    forall cell | cell in grids
      ensures f.minRow <= cell.row <= f.maxRow && f.minCol <= cell.col <= f.maxCol
    {
      var i :| 0 <= i < |grids| && grids[i] == cell;
      assert Rows(grids)[i] == cell.row && Cols(grids)[i] == cell.col;
    }
  }

  /** Exactly one origin symbol, whether or not the range covers the origin. */
  lemma OneOrigin(board: seq<string>, grids: seq<Cell>, f: Frame, r: int, c: int)
    requires IsBoard(board, grids, f) && f.Of(grids)
    ensures OriginAt(board, r, c) <==> r == -f.minRow && c == -f.minCol
  {
    if 0 <= r < |board| && 0 <= c < |board[r]| {
      assert board[r][c] == Symbol(Cell(f.minRow + r, f.minCol + c), grids);
    }
  }

  /** The board is invertible: from its characters alone, wherever its origin symbol is found, exactly
      the cells of the range are read back. */
  lemma ReadsBackExactly(board: seq<string>, grids: seq<Cell>, f: Frame, r: int, c: int, cell: Cell)
    requires IsBoard(board, grids, f) && f.Of(grids) && OriginAt(board, r, c)
    ensures Reads(board, r, c, cell) <==> cell in grids
  {
    OneOrigin(board, grids, f, r, c);
    FrameHoldsCells(grids, f);
    var y, x := r + cell.row, c + cell.col;
    if 0 <= y < |board| && 0 <= x < |board[y]| {
      assert board[y][x] == Symbol(Cell(f.minRow + y, f.minCol + x), grids);
      assert Cell(f.minRow + y, f.minCol + x) == cell;
    }
  }

  /** So two ranges with the same board are the same set of cells. */
  lemma BoardDeterminesRange(board: seq<string>, g: seq<Cell>, f: Frame, h: seq<Cell>, k: Frame, cell: Cell)
    requires IsBoard(board, g, f) && f.Of(g) && IsBoard(board, h, k) && k.Of(h)
    ensures cell in g <==> cell in h
  {
    var r, c := -f.minRow, -f.minCol;
    OneOrigin(board, g, f, r, c);
    ReadsBackExactly(board, g, f, r, c, cell);
    ReadsBackExactly(board, h, k, r, c, cell);
  }

  /** Conversely the same set of cells, in any order and with any repetition, gives the same board. */
  lemma RangeDeterminesBoard(board: seq<string>, g: seq<Cell>, f: Frame, board': seq<string>, h: seq<Cell>, k: Frame)
    requires IsBoard(board, g, f) && f.Of(g) && IsBoard(board', h, k) && k.Of(h)
    requires forall cell :: cell in g <==> cell in h
    ensures board == board' && f == k
  {
    SameFrame(g, f, h, k);
    forall r | 0 <= r < |board| ensures board[r] == board'[r] {
      forall c | 0 <= c < |board[r]| ensures board[r][c] == board'[r][c] {
      }
    }
  }

  lemma SameFrame(g: seq<Cell>, f: Frame, h: seq<Cell>, k: Frame)
    requires f.Of(g) && k.Of(h) && forall cell :: cell in g <==> cell in h
    ensures f == k
  {
    MapElements(g, h, (cell: Cell) => cell.row);
    MapElements(g, h, (cell: Cell) => cell.col);
    FrameIsUnique(Rows(g), f.minRow, f.maxRow, Rows(h), k.minRow, k.maxRow);
    FrameIsUnique(Cols(g), f.minCol, f.maxCol, Cols(h), k.minCol, k.maxCol);
  }

  lemma MapElements(g: seq<Cell>, h: seq<Cell>, f: Cell -> int)
    requires forall cell :: cell in g <==> cell in h
    ensures forall x :: x in Map(g, f) <==> x in Map(h, f)
  {
    MapAt(g, f);
    MapAt(h, f);
    forall cell | cell in g ensures f(cell) in Map(g, f) && f(cell) in Map(h, f) {
      var i :| 0 <= i < |g| && g[i] == cell;
      var j :| 0 <= j < |h| && h[j] == cell;
      assert Map(g, f)[i] == Map(h, f)[j] == f(cell);
    }
    forall i | 0 <= i < |g| ensures Map(g, f)[i] in Map(h, f) {
      assert g[i] in g;
    }
    forall i | 0 <= i < |h| ensures Map(h, f)[i] in Map(g, f) {
      assert h[i] in h;
    }
  }

  lemma FrameIsUnique(xs: seq<int>, lo: int, hi: int, ys: seq<int>, lo': int, hi': int)
    requires IsFrame(xs, lo, hi) && IsFrame(ys, lo', hi') && forall x :: x in xs <==> x in ys
    ensures (lo, hi) == (lo', hi')
  {
  }
}
