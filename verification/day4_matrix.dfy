/**
 * A grid of cells and an iterator that visits the cells in row-major
 * order, handing out for each one a view: the cell's element and its
 * neighbours (top-left, top, top-right, left, right, bottom-left, bottom,
 * bottom-right), without those that fall outside the grid.
 */
module Day4Matrix {
  import opened Wrappers

  datatype Matrix<T> = Matrix(cols: nat, rows: nat, data: seq<seq<T>>)

  /** `Matrix::new`: as many rows as the data has, as many columns as its first row (which must exist). */
  function NewMatrix<T>(data: seq<seq<T>>): (m: Matrix<T>)
    requires |data| >= 1
    ensures m.data == data && m.rows == |data| && m.cols == |data[0]|
  {
    Matrix(|data[0]|, |data|, data)
  }

  /**
   * A grid that can be walked without a panic: at least one row and one
   * column (`cols - 1` is computed on `usize`), and no row shorter than
   * the first.
   */
  predicate WellFormed<T>(m: Matrix<T>) {
    m.rows >= 1 && m.cols >= 1 && |m.data| == m.rows &&
    forall r :: 0 <= r < m.rows ==> |m.data[r]| >= m.cols
  }

  /** Data whose first row is non-empty and which has no row shorter than the first makes a well-formed grid. */
  lemma NewMatrixWellFormed<T>(data: seq<seq<T>>)
    requires |data| >= 1 && |data[0]| >= 1
    requires forall r :: 0 <= r < |data| ==> |data[r]| >= |data[0]|
    ensures WellFormed(NewMatrix(data))
  {
  }

  predicate InGrid<T>(m: Matrix<T>, x: int, y: int) {
    0 <= x < m.cols && 0 <= y < m.rows
  }

  /** A cell's element and its neighbours, in the fixed order. */
  datatype View<T> = View(element: T, adjacent: seq<T>)

  /** The element at (x, y) as a one-element sequence, or nothing when (x, y) is off the grid. */
  function CellAt<T>(m: Matrix<T>, x: int, y: int): (r: seq<T>)
    requires WellFormed(m)
    ensures |r| == if InGrid(m, x, y) then 1 else 0
  {
    if InGrid(m, x, y) then [m.data[y][x]] else []
  }

  /**
   * The k-th neighbour place of (x, y), as a one-element sequence, or
   * nothing off the grid: the row above left to right, then left and
   * right, then the row below left to right.
   */
  function NeighbourAt<T>(m: Matrix<T>, x: int, y: int, k: nat): (r: seq<T>)
    requires WellFormed(m) && k < 8
    ensures |r| <= 1
  {
    match k
    case 0 => CellAt(m, x - 1, y - 1)
    case 1 => CellAt(m, x, y - 1)
    case 2 => CellAt(m, x + 1, y - 1)
    case 3 => CellAt(m, x - 1, y)
    case 4 => CellAt(m, x + 1, y)
    case 5 => CellAt(m, x - 1, y + 1)
    case 6 => CellAt(m, x, y + 1)
    case _ => CellAt(m, x + 1, y + 1)
  }

  /** The neighbours of (x, y) in the first k neighbour places, off-grid ones skipped. */
  function NeighboursUpTo<T>(m: Matrix<T>, x: int, y: int, k: nat): (r: seq<T>)
    requires WellFormed(m) && k <= 8
    ensures |r| <= k
  {
    if k == 0 then [] else NeighboursUpTo(m, x, y, k - 1) + NeighbourAt(m, x, y, k - 1)
  }

  /** A view's neighbours: the cells one step away, in the order of the neighbour places, off-grid ones skipped. */
  function Neighbours<T>(m: Matrix<T>, x: int, y: int): (r: seq<T>)
    requires WellFormed(m)
    ensures |r| <= 8
  {
    NeighboursUpTo(m, x, y, 8)
  }

  function ViewAt<T>(m: Matrix<T>, x: nat, y: nat): View<T>
    requires WellFormed(m) && InGrid(m, x, y)
  {
    View(m.data[y][x], Neighbours(m, x, y))
  }

  /** The number of columns (or rows) among x - 1, x and x + 1 that lie in 0..n-1. */
  function Span(x: nat, n: nat): nat {
    1 + (if x > 0 then 1 else 0) + (if x + 1 < n then 1 else 0)
  }

  /** A cell has one neighbour fewer than the 3-by-3 block around it, clipped to the grid. */
  lemma NeighbourCount<T>(m: Matrix<T>, x: nat, y: nat)
    requires WellFormed(m) && InGrid(m, x, y)
    ensures |Neighbours(m, x, y)| == Span(x, m.cols) * Span(y, m.rows) - 1
  {
    var w := Span(x, m.cols);
    RowAboveCount(m, x, y);
    SameRowCount(m, x, y);
    RowBelowCount(m, x, y);
    if y > 0 && y + 1 < m.rows {
      assert Span(y, m.rows) == 3 && w * 3 == w + w + w;
    } else if y > 0 || y + 1 < m.rows {
      assert Span(y, m.rows) == 2 && w * 2 == w + w;
    } else {
      assert Span(y, m.rows) == 1 && w * 1 == w;
    }
  }

  /** The first three places, the row above, hold as many neighbours as that row has columns in reach. */
  lemma RowAboveCount<T>(m: Matrix<T>, x: nat, y: nat)
    requires WellFormed(m) && InGrid(m, x, y)
    ensures |NeighboursUpTo(m, x, y, 3)| == if y > 0 then Span(x, m.cols) else 0
  {
    assert |NeighboursUpTo(m, x, y, 1)| == if y > 0 && x > 0 then 1 else 0;
    assert |NeighboursUpTo(m, x, y, 2)| == |NeighboursUpTo(m, x, y, 1)| + if y > 0 then 1 else 0;
  }

  /** The next two places, left and right, add the cell's own row without the cell. */
  lemma SameRowCount<T>(m: Matrix<T>, x: nat, y: nat)
    requires WellFormed(m) && InGrid(m, x, y)
    ensures |NeighboursUpTo(m, x, y, 5)| == |NeighboursUpTo(m, x, y, 3)| + Span(x, m.cols) - 1
  {
    assert |NeighboursUpTo(m, x, y, 4)| == |NeighboursUpTo(m, x, y, 3)| + if x > 0 then 1 else 0;
  }

  /** The last three places add the row below, when there is one. */
  lemma RowBelowCount<T>(m: Matrix<T>, x: nat, y: nat)
    requires WellFormed(m) && InGrid(m, x, y)
    ensures |Neighbours(m, x, y)| == |NeighboursUpTo(m, x, y, 5)| + if y + 1 < m.rows then Span(x, m.cols) else 0
  {
    assert |NeighboursUpTo(m, x, y, 6)| == |NeighboursUpTo(m, x, y, 5)| + if y + 1 < m.rows && x > 0 then 1 else 0;
    assert |NeighboursUpTo(m, x, y, 7)| == |NeighboursUpTo(m, x, y, 6)| + if y + 1 < m.rows then 1 else 0;
  }

  /** In a grid of at least 2 by 2, corners have 3 neighbours, other border cells 5 and inner cells 8. */
  lemma NeighbourCountByPlace<T>(m: Matrix<T>, x: nat, y: nat)
    requires WellFormed(m) && InGrid(m, x, y) && m.rows >= 2 && m.cols >= 2
    ensures var onX, onY := x == 0 || x == m.cols - 1, y == 0 || y == m.rows - 1;
            |Neighbours(m, x, y)| == if onX && onY then 3 else if onX || onY then 5 else 8
  {
    NeighbourCount(m, x, y);
  }

  /** A corner has at most 3 neighbours, whatever the size of the grid. */
  lemma CornerNeighbours<T>(m: Matrix<T>, x: nat, y: nat)
    requires WellFormed(m) && InGrid(m, x, y)
    requires (x == 0 || x == m.cols - 1) && (y == 0 || y == m.rows - 1)
    ensures |Neighbours(m, x, y)| <= 3
  {
    NeighbourCount(m, x, y);
  }

  /** A cell's coordinates: column x of row y. */
  datatype Position = Position(x: nat, y: nat)

  /** The positions of row y from column x to the row's end, left to right. */
  function RowPositions(cols: nat, x: nat, y: nat): (ps: seq<Position>)
    requires x <= cols
    ensures |ps| == cols - x
    ensures forall i :: 0 <= i < |ps| ==> ps[i] == Position(x + i, y)
    decreases cols - x
  {
    if x == cols then [] else [Position(x, y)] + RowPositions(cols, x + 1, y)
  }

  /** The positions of rows y and after, in row-major order: each row left to right, the rows top to bottom. */
  function RowsPositions(cols: nat, rows: nat, y: nat): (ps: seq<Position>)
    requires y <= rows
    decreases rows - y
  {
    if y == rows then [] else RowPositions(cols, 0, y) + RowsPositions(cols, rows, y + 1)
  }

  /** The walk through rows y and after stays within the columns and those rows. */
  lemma {:induction false} RowsPositionsBounds(cols: nat, rows: nat, y: nat)
    requires y <= rows
    ensures forall i :: 0 <= i < |RowsPositions(cols, rows, y)| ==>
              RowsPositions(cols, rows, y)[i].x < cols && y <= RowsPositions(cols, rows, y)[i].y < rows
    decreases rows - y
  {
    if y < rows {
      RowsPositionsBounds(cols, rows, y + 1);
      var row, rest := RowPositions(cols, 0, y), RowsPositions(cols, rows, y + 1);
      assert forall i :: 0 <= i < |row + rest| ==> (row + rest)[i] == if i < |row| then row[i] else rest[i - |row|];
    }
  }

  /** Rows y and after hold one position per cell. */
  lemma {:induction false} RowsPositionsLength(cols: nat, rows: nat, y: nat)
    requires y <= rows
    ensures |RowsPositions(cols, rows, y)| == (rows - y) * cols
    decreases rows - y
  {
    if y < rows {
      RowsPositionsLength(cols, rows, y + 1);
      assert (rows - y) * cols == cols + (rows - (y + 1)) * cols;
    }
  }

  /** The index at which the n-th row of a walk starts: n rows of cols positions each. */
  function RowStart(cols: nat, n: nat): nat {
    if n == 0 then 0 else RowStart(cols, n - 1) + cols
  }

  lemma {:induction false} RowStartIsProduct(cols: nat, n: nat)
    ensures RowStart(cols, n) == n * cols
  {
    if n > 0 {
      RowStartIsProduct(cols, n - 1);
      assert n * cols == (n - 1) * cols + cols;
    }
  }

  /** Cell (x, y) comes at index RowStart(cols, y - from) + x of the walk through rows from and after. */
  lemma {:induction false} RowsPositionsIndex(cols: nat, rows: nat, from: nat, x: nat, y: nat)
    requires from <= y < rows && x < cols
    ensures RowStart(cols, y - from) + x < |RowsPositions(cols, rows, from)|
    ensures RowsPositions(cols, rows, from)[RowStart(cols, y - from) + x] == Position(x, y)
    decreases y - from
  {
    var row, rest := RowPositions(cols, 0, from), RowsPositions(cols, rows, from + 1);
    assert RowsPositions(cols, rows, from) == row + rest;
    if from < y {
      RowsPositionsIndex(cols, rows, from + 1, x, y);
      var k := RowStart(cols, y - (from + 1)) + x;
      assert RowStart(cols, y - from) + x == |row| + k;
      assert (row + rest)[|row| + k] == rest[k];
    } else {
      assert (row + rest)[x] == row[x];
    }
  }

  /** Every cell of the list lies on the grid. */
  predicate AllInGrid<T>(m: Matrix<T>, ps: seq<Position>) {
    forall i :: 0 <= i < |ps| ==> InGrid(m, ps[i].x, ps[i].y)
  }

  /** The views of the listed cells, in the list's order. */
  function ViewsOf<T>(m: Matrix<T>, ps: seq<Position>): (views: seq<View<T>>)
    requires WellFormed(m) && AllInGrid(m, ps)
    ensures |views| == |ps|
  {
    if |ps| == 0 then []
    else
      var last := ps[|ps| - 1];
      ViewsOf(m, ps[..|ps| - 1]) + [ViewAt(m, last.x, last.y)]
  }

  /** The i-th view of the list is the view of the list's i-th cell. */
  lemma {:induction false} ViewsOfIndex<T>(m: Matrix<T>, ps: seq<Position>, i: int)
    requires WellFormed(m) && AllInGrid(m, ps) && 0 <= i < |ps|
    ensures ViewsOf(m, ps)[i] == ViewAt(m, ps[i].x, ps[i].y)
    decreases |ps|
  {
    if i < |ps| - 1 {
      ViewsOfIndex(m, ps[..|ps| - 1], i);
    }
  }

  /** Every cell of the grid, in row-major order. */
  function Positions<T>(m: Matrix<T>): (ps: seq<Position>)
    requires WellFormed(m)
    ensures AllInGrid(m, ps)
  {
    RowsPositionsBounds(m.cols, m.rows, 0);
    RowsPositions(m.cols, m.rows, 0)
  }

  /** All views of the grid, in row-major order: the order the iterator hands them out. */
  function Views<T>(m: Matrix<T>): seq<View<T>>
    requires WellFormed(m)
  {
    ViewsOf(m, Positions(m))
  }

  /** The view of cell (x, y) comes at index y * cols + x. */
  lemma ViewAtIndex<T>(m: Matrix<T>, x: nat, y: nat)
    requires WellFormed(m) && InGrid(m, x, y)
    ensures |Views(m)| == m.rows * m.cols
    ensures y * m.cols + x < |Views(m)| && Views(m)[y * m.cols + x] == ViewAt(m, x, y)
  {
    RowsPositionsLength(m.cols, m.rows, 0);
    RowsPositionsIndex(m.cols, m.rows, 0, x, y);
    RowStartIsProduct(m.cols, y);
    ViewsOfIndex(m, Positions(m), y * m.cols + x);
  }

  /**
   * There is one view per cell, rows * cols in all; the view of cell
   * (x, y) comes at index y * cols + x, and every view is the view of a
   * cell of the grid.
   */
  lemma ViewsOrder<T>(m: Matrix<T>)
    requires WellFormed(m)
    ensures |Views(m)| == m.rows * m.cols
    ensures forall x: nat, y: nat :: InGrid(m, x, y) ==> y * m.cols + x < |Views(m)| && Views(m)[y * m.cols + x] == ViewAt(m, x, y)
    ensures forall i :: 0 <= i < |Views(m)| ==> exists x: nat, y: nat :: InGrid(m, x, y) && Views(m)[i] == ViewAt(m, x, y)
  {
    RowsPositionsLength(m.cols, m.rows, 0);
    forall x: nat, y: nat | InGrid(m, x, y)
      ensures y * m.cols + x < |Views(m)| && Views(m)[y * m.cols + x] == ViewAt(m, x, y)
    {
      ViewAtIndex(m, x, y);
    }
    forall i | 0 <= i < |Views(m)|
      ensures exists x: nat, y: nat :: InGrid(m, x, y) && Views(m)[i] == ViewAt(m, x, y)
    {
      var p := Positions(m)[i];
      ViewsOfIndex(m, Positions(m), i);
      assert InGrid(m, p.x, p.y) && Views(m)[i] == ViewAt(m, p.x, p.y);
    }
  }

  /** The value an `if let Some(item)` pushes: the one element, or nothing. */
  function Elements<T>(o: Option<T>): (r: seq<T>)
    ensures |r| == if o.Some? then 1 else 0
  {
    if o.Some? then [o.value] else []
  }

  /** `AdjacentIterator`: a copy of the grid and the cell to visit next, or the end. */
  class AdjacentIterator<T> {
    const cols: nat
    const rows: nat
    const data: seq<seq<T>>
    var x: nat
    var y: nat
    var end: bool

    function Grid(): Matrix<T> {
      Matrix(cols, rows, data)
    }

    ghost predicate Valid()
      reads this
    {
      WellFormed(Grid()) && x < cols && y < rows
    }

    /** The cells still to visit: the rest of the current row, then every later row. */
    ghost function Remaining(): (ps: seq<Position>)
      reads this
      requires Valid()
      ensures AllInGrid(Grid(), ps)
    {
      if end then []
      else
        var row, rest := RowPositions(cols, x, y), RowsPositions(cols, rows, y + 1);
        RowsPositionsBounds(cols, rows, y + 1);
        assert AllInGrid(Grid(), row + rest) by {
          forall i | 0 <= i < |row + rest|
            ensures InGrid(Grid(), (row + rest)[i].x, (row + rest)[i].y)
          {
            if i < |row| {
              assert (row + rest)[i] == row[i] == Position(x + i, y);
            } else {
              assert (row + rest)[i] == rest[i - |row|];
            }
          }
        }
        row + rest
    }

    /** `adjacent_windows`: an iterator over a copy of the grid, at its first cell. */
    constructor(m: Matrix<T>)
      requires WellFormed(m)
      ensures Valid() && Grid() == m && x == 0 && y == 0 && !end
      ensures Remaining() == Positions(m)
    {
      cols := m.cols;
      rows := m.rows;
      data := m.data;
      x := 0;
      y := 0;
      end := false;
    }

    function TopLeft(): (r: Option<T>)
      reads this
      requires Valid()
      ensures Elements(r) == NeighbourAt(Grid(), x, y, 0)
    {
      if y > 0 && x > 0 then Some(data[y - 1][x - 1]) else None
    }

    function Top(): (r: Option<T>)
      reads this
      requires Valid()
      ensures Elements(r) == NeighbourAt(Grid(), x, y, 1)
    {
      if y > 0 then Some(data[y - 1][x]) else None
    }

    function TopRight(): (r: Option<T>)
      reads this
      requires Valid()
      ensures Elements(r) == NeighbourAt(Grid(), x, y, 2)
    {
      if y > 0 && x < cols - 1 then Some(data[y - 1][x + 1]) else None
    }

    function Left(): (r: Option<T>)
      reads this
      requires Valid()
      ensures Elements(r) == NeighbourAt(Grid(), x, y, 3)
    {
      if x > 0 then Some(data[y][x - 1]) else None
    }

    function Right(): (r: Option<T>)
      reads this
      requires Valid()
      ensures Elements(r) == NeighbourAt(Grid(), x, y, 4)
    {
      if x < cols - 1 then Some(data[y][x + 1]) else None
    }

    function BottomLeft(): (r: Option<T>)
      reads this
      requires Valid()
      ensures Elements(r) == NeighbourAt(Grid(), x, y, 5)
    {
      if y < rows - 1 && x > 0 then Some(data[y + 1][x - 1]) else None
    }

    function Bottom(): (r: Option<T>)
      reads this
      requires Valid()
      ensures Elements(r) == NeighbourAt(Grid(), x, y, 6)
    {
      if y < rows - 1 then Some(data[y + 1][x]) else None
    }

    function BottomRight(): (r: Option<T>)
      reads this
      requires Valid()
      ensures Elements(r) == NeighbourAt(Grid(), x, y, 7)
    {
      if y < rows - 1 && x < cols - 1 then Some(data[y + 1][x + 1]) else None
    }

    /**
     * `increment`: at the last cell the iterator ends where it is; at the
     * end of a row it moves to the start of the next; otherwise one column
     * right. Either way the current view is dropped from what remains.
     */
    method Increment()
      requires Valid() && !end
      modifies this
      ensures Valid()
      ensures old(x) == cols - 1 && old(y) == rows - 1 ==> end && x == old(x) && y == old(y)
      ensures old(x) == cols - 1 && old(y) < rows - 1 ==> !end && x == 0 && y == old(y) + 1
      ensures old(x) < cols - 1 ==> !end && x == old(x) + 1 && y == old(y)
      ensures Remaining() == old(Remaining())[1..]
    {
      if x >= cols - 1 && y >= rows - 1 {
        end := true;
        return;
      }
      if x >= cols - 1 {
        x := 0;
        y := y + 1;
        return;
      }
      x := x + 1;
    }

    /** The neighbours `next` pushes, in order, each getter that finds a cell adding its element. */
    method Adjacent() returns (adjacent: seq<T>)
      requires Valid()
      ensures adjacent == Neighbours(Grid(), x, y)
    {
      ghost var g := Grid();
      adjacent := [];
      var topLeft := TopLeft();
      if topLeft.Some? {
        adjacent := adjacent + [topLeft.value];
      }
      assert adjacent == NeighboursUpTo(g, x, y, 1);
      var top := Top();
      if top.Some? {
        adjacent := adjacent + [top.value];
      }
      assert adjacent == NeighboursUpTo(g, x, y, 2);
      var topRight := TopRight();
      if topRight.Some? {
        adjacent := adjacent + [topRight.value];
      }
      assert adjacent == NeighboursUpTo(g, x, y, 3);
      var left := Left();
      if left.Some? {
        adjacent := adjacent + [left.value];
      }
      assert adjacent == NeighboursUpTo(g, x, y, 4);
      var right := Right();
      if right.Some? {
        adjacent := adjacent + [right.value];
      }
      assert adjacent == NeighboursUpTo(g, x, y, 5);
      var bottomLeft := BottomLeft();
      if bottomLeft.Some? {
        adjacent := adjacent + [bottomLeft.value];
      }
      assert adjacent == NeighboursUpTo(g, x, y, 6);
      var bottom := Bottom();
      if bottom.Some? {
        adjacent := adjacent + [bottom.value];
      }
      assert adjacent == NeighboursUpTo(g, x, y, 7);
      var bottomRight := BottomRight();
      if bottomRight.Some? {
        adjacent := adjacent + [bottomRight.value];
      }
      assert adjacent == Neighbours(g, x, y);
    }

    /**
     * `next`: nothing once the iterator has ended; otherwise the view of the
     * current cell, with its neighbours pushed in the fixed order, after
     * which the iterator moves on.
     */
    method Next() returns (r: Option<View<T>>)
      requires Valid()
      modifies this
      ensures Valid()
      ensures old(end) ==> r.None? && end && x == old(x) && y == old(y)
      ensures !old(end) ==> r == Some(ViewAt(Grid(), old(x), old(y)))
      ensures !old(end) ==> old(Remaining()) == [Position(old(x), old(y))] + Remaining()
    {
      if end {
        return None;
      }
      ghost var before := Remaining();
      assert before[0] == Position(x, y);
      var adjacent := Adjacent();
      var element := data[y][x];
      Increment();
      assert before == [before[0]] + before[1..];
      return Some(View(element, adjacent));
    }
  }

  /** Moving one cell from the cells still to visit to the visited ones adds that cell's view. */
  lemma VisitOne<T>(m: Matrix<T>, visited: seq<Position>, before: seq<Position>, after: seq<Position>)
    requires WellFormed(m) && AllInGrid(m, visited) && AllInGrid(m, before)
    requires |before| > 0 && before == [before[0]] + after
    ensures AllInGrid(m, visited + [before[0]])
    ensures visited + before == (visited + [before[0]]) + after
    ensures ViewsOf(m, visited + [before[0]]) == ViewsOf(m, visited) + [ViewAt(m, before[0].x, before[0].y)]
  {
    var p := before[0];
    assert (visited + [p])[..|visited|] == visited;
  }

  /** Running the iterator to its end yields every view of the grid, in row-major order. */
  method CollectViews<T>(m: Matrix<T>) returns (views: seq<View<T>>)
    requires WellFormed(m)
    ensures views == Views(m)
  {
    var it := new AdjacentIterator(m);
    views := [];
    ghost var visited: seq<Position> := [];
    while true
      invariant it.Valid() && it.Grid() == m
      invariant visited + it.Remaining() == Positions(m)
      invariant AllInGrid(m, visited) && views == ViewsOf(m, visited)
      decreases |it.Remaining()|
    {
      ghost var before := it.Remaining();
      var next := it.Next();
      match next
      case None =>
        assert visited + [] == visited;
        return;
      case Some(view) =>
        VisitOne(m, visited, before, it.Remaining());
        visited := visited + [before[0]];
        views := views + [view];
    }
  }

  /** `is_paper`. */
  predicate IsPaper(v: View<char>) {
    v.element == '@'
  }

  /** The number of times `c` occurs in `s`. */
  function Count(s: seq<char>, c: char): (n: nat)
    ensures n <= |s|
    ensures n == multiset(s)[c]
  {
    if |s| == 0 then 0
    else
      assert s == s[..|s| - 1] + [s[|s| - 1]];
      Count(s[..|s| - 1], c) + (if s[|s| - 1] == c then 1 else 0)
  }

  /** `n_adjacent_paper_rolls`: the neighbours that are '@'. */
  function NAdjacentPaperRolls(v: View<char>): (n: nat)
    ensures n <= |v.adjacent|
    ensures n == multiset(v.adjacent)['@']
  {
    Count(v.adjacent, '@')
  }

  /** The 3-by-4 grid of the unit tests, holding 1 to 12 row by row. */
  const Example: Matrix<int> := NewMatrix([[1, 2, 3, 4], [5, 6, 7, 8], [9, 10, 11, 12]])

  /** The unit test of the first views: corners, edges and an inner cell, in the order `next` yields them. */
  lemma FirstViewsExample()
    ensures WellFormed(Example) && |Views(Example)| == 12
    ensures Views(Example)[0] == View(1, [2, 5, 6])
    ensures Views(Example)[1] == View(2, [1, 3, 5, 6, 7])
    ensures Views(Example)[2] == View(3, [2, 4, 6, 7, 8])
    ensures Views(Example)[3] == View(4, [3, 7, 8])
    ensures Views(Example)[4] == View(5, [1, 2, 6, 9, 10])
    ensures Views(Example)[5] == View(6, [1, 2, 3, 5, 7, 9, 10, 11])
  {
    FirstRowViews();
    SecondRowViews();
  }

  lemma FirstRowViews()
    ensures WellFormed(Example) && |Views(Example)| == 12
    ensures Views(Example)[0] == View(1, [2, 5, 6])
    ensures Views(Example)[1] == View(2, [1, 3, 5, 6, 7])
    ensures Views(Example)[2] == View(3, [2, 4, 6, 7, 8])
    ensures Views(Example)[3] == View(4, [3, 7, 8])
  {
    ViewAtIndex(Example, 0, 0);
    ExampleView00();
    ViewAtIndex(Example, 1, 0);
    ExampleView10();
    ViewAtIndex(Example, 2, 0);
    ExampleView20();
    ViewAtIndex(Example, 3, 0);
    ExampleView30();
  }

  lemma SecondRowViews()
    ensures WellFormed(Example)
    ensures Views(Example)[4] == View(5, [1, 2, 6, 9, 10])
    ensures Views(Example)[5] == View(6, [1, 2, 3, 5, 7, 9, 10, 11])
  {
    ViewAtIndex(Example, 0, 1);
    ExampleView01();
    ViewAtIndex(Example, 1, 1);
    ExampleView11();
  }

  /** The unit test of the last view, after which the iterator gives nothing. */
  lemma LastViewExample()
    ensures WellFormed(Example)
    ensures |Views(Example)| == 12 && Views(Example)[11] == View(12, [7, 8, 11])
  {
    ViewAtIndex(Example, 3, 2);
    ExampleView32();
  }

  lemma ExampleView00()
    ensures WellFormed(Example) && InGrid(Example, 0, 0)
    ensures ViewAt(Example, 0, 0) == View(1, [2, 5, 6])
  {
    assert NeighboursUpTo(Example, 0, 0, 1) == [];
    assert NeighboursUpTo(Example, 0, 0, 2) == [];
    assert NeighboursUpTo(Example, 0, 0, 3) == [];
    assert NeighboursUpTo(Example, 0, 0, 4) == [];
    assert NeighboursUpTo(Example, 0, 0, 5) == [2];
    assert NeighboursUpTo(Example, 0, 0, 6) == [2];
    assert NeighboursUpTo(Example, 0, 0, 7) == [2, 5];
  }

  lemma ExampleView10()
    ensures WellFormed(Example) && InGrid(Example, 1, 0)
    ensures ViewAt(Example, 1, 0) == View(2, [1, 3, 5, 6, 7])
  {
    assert NeighboursUpTo(Example, 1, 0, 1) == [];
    assert NeighboursUpTo(Example, 1, 0, 2) == [];
    assert NeighboursUpTo(Example, 1, 0, 3) == [];
    assert NeighboursUpTo(Example, 1, 0, 4) == [1];
    assert NeighboursUpTo(Example, 1, 0, 5) == [1, 3];
    assert NeighboursUpTo(Example, 1, 0, 6) == [1, 3, 5];
    assert NeighboursUpTo(Example, 1, 0, 7) == [1, 3, 5, 6];
  }

  lemma ExampleView20()
    ensures WellFormed(Example) && InGrid(Example, 2, 0)
    ensures ViewAt(Example, 2, 0) == View(3, [2, 4, 6, 7, 8])
  {
    assert NeighboursUpTo(Example, 2, 0, 1) == [];
    assert NeighboursUpTo(Example, 2, 0, 2) == [];
    assert NeighboursUpTo(Example, 2, 0, 3) == [];
    assert NeighboursUpTo(Example, 2, 0, 4) == [2];
    assert NeighboursUpTo(Example, 2, 0, 5) == [2, 4];
    assert NeighboursUpTo(Example, 2, 0, 6) == [2, 4, 6];
    assert NeighboursUpTo(Example, 2, 0, 7) == [2, 4, 6, 7];
  }

  lemma ExampleView30()
    ensures WellFormed(Example) && InGrid(Example, 3, 0)
    ensures ViewAt(Example, 3, 0) == View(4, [3, 7, 8])
  {
    assert NeighboursUpTo(Example, 3, 0, 1) == [];
    assert NeighboursUpTo(Example, 3, 0, 2) == [];
    assert NeighboursUpTo(Example, 3, 0, 3) == [];
    assert NeighboursUpTo(Example, 3, 0, 4) == [3];
    assert NeighboursUpTo(Example, 3, 0, 5) == [3];
    assert NeighboursUpTo(Example, 3, 0, 6) == [3, 7];
    assert NeighboursUpTo(Example, 3, 0, 7) == [3, 7, 8];
  }

  lemma ExampleView01()
    ensures WellFormed(Example) && InGrid(Example, 0, 1)
    ensures ViewAt(Example, 0, 1) == View(5, [1, 2, 6, 9, 10])
  {
    assert NeighboursUpTo(Example, 0, 1, 1) == [];
    assert NeighboursUpTo(Example, 0, 1, 2) == [1];
    assert NeighboursUpTo(Example, 0, 1, 3) == [1, 2];
    assert NeighboursUpTo(Example, 0, 1, 4) == [1, 2];
    assert NeighboursUpTo(Example, 0, 1, 5) == [1, 2, 6];
    assert NeighboursUpTo(Example, 0, 1, 6) == [1, 2, 6];
    assert NeighboursUpTo(Example, 0, 1, 7) == [1, 2, 6, 9];
  }

  lemma ExampleView11()
    ensures WellFormed(Example) && InGrid(Example, 1, 1)
    ensures ViewAt(Example, 1, 1) == View(6, [1, 2, 3, 5, 7, 9, 10, 11])
  {
    assert NeighboursUpTo(Example, 1, 1, 1) == [1];
    assert NeighboursUpTo(Example, 1, 1, 2) == [1, 2];
    assert NeighboursUpTo(Example, 1, 1, 3) == [1, 2, 3];
    assert NeighboursUpTo(Example, 1, 1, 4) == [1, 2, 3, 5];
    assert NeighboursUpTo(Example, 1, 1, 5) == [1, 2, 3, 5, 7];
    assert NeighboursUpTo(Example, 1, 1, 6) == [1, 2, 3, 5, 7, 9];
    assert NeighboursUpTo(Example, 1, 1, 7) == [1, 2, 3, 5, 7, 9, 10];
  }

  lemma ExampleView32()
    ensures WellFormed(Example) && InGrid(Example, 3, 2)
    ensures ViewAt(Example, 3, 2) == View(12, [7, 8, 11])
  {
    assert NeighboursUpTo(Example, 3, 2, 1) == [7];
    assert NeighboursUpTo(Example, 3, 2, 2) == [7, 8];
    assert NeighboursUpTo(Example, 3, 2, 3) == [7, 8];
    assert NeighboursUpTo(Example, 3, 2, 4) == [7, 8, 11];
    assert NeighboursUpTo(Example, 3, 2, 5) == [7, 8, 11];
    assert NeighboursUpTo(Example, 3, 2, 6) == [7, 8, 11];
    assert NeighboursUpTo(Example, 3, 2, 7) == [7, 8, 11];
  }
}
