/**
 * The paper storage: a grid of characters where '@' is a roll of paper. A
 * forklift can reach a roll with fewer than four rolls around it.
 */
module Day4PaperStorage {
  import opened Wrappers
  import opened Text
  import opened Day4Matrix

  datatype PaperStorage = PaperStorage(matrix: Matrix<char>)

  /** `from_str`: one grid row per line, holding that line's characters; parsing itself never fails. */
  function ParsePaperStorage(s: string): (r: Result<PaperStorage>)
    requires |s| >= 1
    ensures r.Ok?
    ensures r.value.matrix.data == Lines(s) && r.value.matrix.rows == |Lines(s)| >= 1 && r.value.matrix.cols == |Lines(s)[0]|
    ensures forall y :: 0 <= y < |r.value.matrix.data| ==> '\n' !in r.value.matrix.data[y]
  {
    var rows := Lines(s);
    Ok(PaperStorage(NewMatrix(rows)))
  }

  /** The filter of `n_forklift_accessible_paper_rolls`: a roll with fewer than four rolls around it. */
  predicate Accessible(v: View<char>) {
    IsPaper(v) && NAdjacentPaperRolls(v) < 4
  }

  /** The number of views that pass `test`. */
  function CountWhere(views: seq<View<char>>, test: View<char> -> bool): (n: nat)
    ensures n <= |views|
    ensures n == 0 <==> forall i :: 0 <= i < |views| ==> !test(views[i])
  {
    if |views| == 0 then 0
    else
      var rest := views[..|views| - 1];
      assert forall i :: 0 <= i < |rest| ==> rest[i] == views[i];
      CountWhere(rest, test) + (if test(views[|views| - 1]) then 1 else 0)
  }

  /** A weaker test passes at least as many views. */
  lemma {:induction false} CountWhereMonotone(views: seq<View<char>>, test: View<char> -> bool, weaker: View<char> -> bool)
    requires forall v :: test(v) ==> weaker(v)
    ensures CountWhere(views, test) <= CountWhere(views, weaker)
  {
    if |views| > 0 {
      CountWhereMonotone(views[..|views| - 1], test, weaker);
    }
  }

  lemma {:induction false} CountWhereAppend(a: seq<View<char>>, b: seq<View<char>>, test: View<char> -> bool)
    ensures CountWhere(a + b, test) == CountWhere(a, test) + CountWhere(b, test)
    decreases |b|
  {
    if |b| == 0 {
      assert a + b == a;
    } else {
      CountWhereAppend(a, b[..|b| - 1], test);
      assert (a + b)[..|a + b| - 1] == a + b[..|b| - 1];
    }
  }

  /** The cells of row y, columns x and after, whose view passes `test`. */
  function RowCount(m: Matrix<char>, test: View<char> -> bool, x: nat, y: nat): nat
    requires WellFormed(m) && x <= m.cols && y < m.rows
    decreases m.cols - x
  {
    if x == m.cols then 0 else (if test(ViewAt(m, x, y)) then 1 else 0) + RowCount(m, test, x + 1, y)
  }

  /** The reference count, cell by cell: the cells of rows y and after whose view passes `test`. */
  function GridCount(m: Matrix<char>, test: View<char> -> bool, y: nat): nat
    requires WellFormed(m) && y <= m.rows
    decreases m.rows - y
  {
    if y == m.rows then 0 else RowCount(m, test, 0, y) + GridCount(m, test, y + 1)
  }

  /** The listed cells whose view passes `test`. */
  function CountCells(m: Matrix<char>, ps: seq<Position>, test: View<char> -> bool): nat
    requires WellFormed(m) && AllInGrid(m, ps)
  {
    if |ps| == 0 then 0
    else
      var last := ps[|ps| - 1];
      CountCells(m, ps[..|ps| - 1], test) + (if test(ViewAt(m, last.x, last.y)) then 1 else 0)
  }

  /** Counting the views of a list of cells is counting the cells. */
  lemma {:induction false} CountWhereViewsOf(m: Matrix<char>, ps: seq<Position>, test: View<char> -> bool)
    requires WellFormed(m) && AllInGrid(m, ps)
    ensures CountWhere(ViewsOf(m, ps), test) == CountCells(m, ps, test)
    decreases |ps|
  {
    if |ps| > 0 {
      var init := ps[..|ps| - 1];
      CountWhereViewsOf(m, init, test);
      var views := ViewsOf(m, ps);
      assert views[..|views| - 1] == ViewsOf(m, init);
    }
  }

  lemma {:induction false} CountCellsAppend(m: Matrix<char>, a: seq<Position>, b: seq<Position>, test: View<char> -> bool)
    requires WellFormed(m) && AllInGrid(m, a) && AllInGrid(m, b)
    ensures AllInGrid(m, a + b)
    ensures CountCells(m, a + b, test) == CountCells(m, a, test) + CountCells(m, b, test)
    decreases |b|
  {
    assert forall i :: 0 <= i < |a + b| ==> (a + b)[i] == if i < |a| then a[i] else b[i - |a|];
    if |b| == 0 {
      assert a + b == a;
    } else {
      CountCellsAppend(m, a, b[..|b| - 1], test);
      assert (a + b)[..|a + b| - 1] == a + b[..|b| - 1];
    }
  }

  /** Counting the cells of row y from column x on, left to right, is the row's reference count. */
  lemma {:induction false} RowCountOfCells(m: Matrix<char>, test: View<char> -> bool, x: nat, y: nat)
    requires WellFormed(m) && x <= m.cols && y < m.rows
    ensures AllInGrid(m, RowPositions(m.cols, x, y))
    ensures CountCells(m, RowPositions(m.cols, x, y), test) == RowCount(m, test, x, y)
    decreases m.cols - x
  {
    if x < m.cols {
      var first, rest := [Position(x, y)], RowPositions(m.cols, x + 1, y);
      RowCountOfCells(m, test, x + 1, y);
      assert RowPositions(m.cols, x, y) == first + rest;
      FirstCellCount(m, test, x, y);
      CountCellsAppend(m, first, rest, test);
      assert RowCount(m, test, x, y) == CountCells(m, first, test) + RowCount(m, test, x + 1, y);
    }
  }

  lemma FirstCellCount(m: Matrix<char>, test: View<char> -> bool, x: nat, y: nat)
    requires WellFormed(m) && InGrid(m, x, y)
    ensures AllInGrid(m, [Position(x, y)])
    ensures CountCells(m, [Position(x, y)], test) == if test(ViewAt(m, x, y)) then 1 else 0
  {
    assert [Position(x, y)][..0] == [];
  }

  lemma {:induction false} GridCountOfCells(m: Matrix<char>, test: View<char> -> bool, y: nat)
    requires WellFormed(m) && y <= m.rows
    ensures AllInGrid(m, RowsPositions(m.cols, m.rows, y))
    ensures CountCells(m, RowsPositions(m.cols, m.rows, y), test) == GridCount(m, test, y)
    decreases m.rows - y
  {
    if y < m.rows {
      var row, rest := RowPositions(m.cols, 0, y), RowsPositions(m.cols, m.rows, y + 1);
      assert RowsPositions(m.cols, m.rows, y) == row + rest;
      GridCountOfCells(m, test, y + 1);
      RowCountOfCells(m, test, 0, y);
      CountCellsAppend(m, row, rest, test);
      assert GridCount(m, test, y) == RowCount(m, test, 0, y) + GridCount(m, test, y + 1);
    }
  }

  /** Counting over the views in the iterator's order is counting over the grid's cells. */
  lemma ViewsCount(m: Matrix<char>, test: View<char> -> bool)
    requires WellFormed(m)
    ensures CountWhere(Views(m), test) == GridCount(m, test, 0)
  {
    CountWhereViewsOf(m, Positions(m), test);
    GridCountOfCells(m, test, 0);
  }

  /** The rolls of row y, columns x and after: its '@' characters. */
  lemma {:induction false} RowPaper(m: Matrix<char>, x: nat, y: nat)
    requires WellFormed(m) && x <= m.cols && y < m.rows
    ensures RowCount(m, IsPaper, x, y) == multiset(m.data[y][x..m.cols])['@']
    decreases m.cols - x
  {
    if x < m.cols {
      RowPaper(m, x + 1, y);
      assert m.data[y][x..m.cols] == [m.data[y][x]] + m.data[y][x + 1..m.cols];
    }
  }

  /** The number of '@' characters in the grid's rows y and after. */
  function GridPaper(m: Matrix<char>, y: nat): nat
    requires WellFormed(m) && y <= m.rows
    decreases m.rows - y
  {
    if y == m.rows then 0 else multiset(m.data[y][..m.cols])['@'] + GridPaper(m, y + 1)
  }

  lemma {:induction false} GridCountPaper(m: Matrix<char>, y: nat)
    requires WellFormed(m) && y <= m.rows
    ensures GridCount(m, IsPaper, y) == GridPaper(m, y)
    decreases m.rows - y
  {
    if y < m.rows {
      GridCountPaper(m, y + 1);
      RowPaper(m, 0, y);
      assert m.data[y][0..m.cols] == m.data[y][..m.cols];
    }
  }

  /**
   * `n_forklift_accessible_paper_rolls`: the views, in the iterator's
   * order, that are rolls with fewer than four rolls around them. That is
   * the number of such cells of the grid, and at most the number of '@'
   * in it.
   */
  function NForkliftAccessiblePaperRolls(storage: PaperStorage): (n: nat)
    requires WellFormed(storage.matrix)
    ensures n == GridCount(storage.matrix, Accessible, 0)
    ensures n <= GridPaper(storage.matrix, 0)
  {
    var m := storage.matrix;
    ViewsCount(m, Accessible);
    ViewsCount(m, IsPaper);
    CountWhereMonotone(Views(m), Accessible, IsPaper);
    GridCountPaper(m, 0);
    CountWhere(Views(m), Accessible)
  }

  /** No roll can be reached exactly when no cell of the grid is an accessible roll. */
  lemma NoneAccessible(storage: PaperStorage)
    requires WellFormed(storage.matrix)
    ensures NForkliftAccessiblePaperRolls(storage) == 0 <==>
            forall x: nat, y: nat :: InGrid(storage.matrix, x, y) ==> !Accessible(ViewAt(storage.matrix, x, y))
  {
    GridCountZero(storage.matrix, Accessible, 0);
  }

  /** Row y counts no cell from column x on exactly when none of those cells passes `test`. */
  lemma {:induction false} RowCountZero(m: Matrix<char>, test: View<char> -> bool, x: nat, y: nat)
    requires WellFormed(m) && x <= m.cols && y < m.rows
    ensures RowCount(m, test, x, y) == 0 <==> forall c: nat :: x <= c < m.cols ==> !test(ViewAt(m, c, y))
    decreases m.cols - x
  {
    if x < m.cols {
      RowCountZero(m, test, x + 1, y);
    }
  }

  /** Rows y and after count no cell exactly when none of their cells passes `test`. */
  lemma {:induction false} GridCountZero(m: Matrix<char>, test: View<char> -> bool, y: nat)
    requires WellFormed(m) && y <= m.rows
    ensures GridCount(m, test, y) == 0 <==> forall c: nat, r: nat :: y <= r < m.rows && c < m.cols ==> !test(ViewAt(m, c, r))
    decreases m.rows - y
  {
    if y < m.rows {
      GridCountZero(m, test, y + 1);
      RowCountZero(m, test, 0, y);
    }
  }

  /** A roll in a corner has at most three neighbours, so a forklift can always reach it. */
  lemma CornerRollIsAccessible(storage: PaperStorage, x: nat, y: nat)
    requires WellFormed(storage.matrix) && InGrid(storage.matrix, x, y)
    requires (x == 0 || x == storage.matrix.cols - 1) && (y == 0 || y == storage.matrix.rows - 1)
    requires storage.matrix.data[y][x] == '@'
    ensures Accessible(ViewAt(storage.matrix, x, y))
    ensures NForkliftAccessiblePaperRolls(storage) >= 1
  {
    CornerNeighbours(storage.matrix, x, y);
    NoneAccessible(storage);
  }

  /** A roll with rolls all around it cannot be reached. */
  lemma SurroundedRollIsNotAccessible(storage: PaperStorage, x: nat, y: nat)
    requires WellFormed(storage.matrix) && InGrid(storage.matrix, x, y)
    requires 0 < x < storage.matrix.cols - 1 && 0 < y < storage.matrix.rows - 1
    requires forall i :: 0 <= i < |Neighbours(storage.matrix, x, y)| ==> Neighbours(storage.matrix, x, y)[i] == '@'
    ensures !Accessible(ViewAt(storage.matrix, x, y))
  {
    NeighbourCountByPlace(storage.matrix, x, y);
    CountAll(Neighbours(storage.matrix, x, y));
  }

  /** Every cell of the grid holds a roll. */
  predicate AllRolls(m: Matrix<char>)
    requires WellFormed(m)
  {
    forall y, x :: 0 <= y < m.rows && 0 <= x < m.cols ==> m.data[y][x] == '@'
  }

  /** In a grid full of rolls, every neighbour in the first k places is a roll. */
  lemma {:induction false} RollsAround(m: Matrix<char>, x: nat, y: nat, k: nat)
    requires WellFormed(m) && AllRolls(m) && k <= 8
    ensures forall i :: 0 <= i < |NeighboursUpTo(m, x, y, k)| ==> NeighboursUpTo(m, x, y, k)[i] == '@'
  {
    if k > 0 {
      RollsAround(m, x, y, k - 1);
      var before, at := NeighboursUpTo(m, x, y, k - 1), NeighbourAt(m, x, y, k - 1);
      assert forall i :: 0 <= i < |at| ==> at[i] == '@';
      assert forall i :: 0 <= i < |before + at| ==> (before + at)[i] == if i < |before| then before[i] else at[i - |before|];
    }
  }

  /** In a grid full of rolls, a roll sees as many rolls as it has neighbours: 3 in a corner of a big enough grid. */
  lemma FullGridRolls(m: Matrix<char>, x: nat, y: nat)
    requires WellFormed(m) && AllRolls(m) && InGrid(m, x, y)
    ensures IsPaper(ViewAt(m, x, y))
    ensures NAdjacentPaperRolls(ViewAt(m, x, y)) == Span(x, m.cols) * Span(y, m.rows) - 1
  {
    RollsAround(m, x, y, 8);
    NeighbourCount(m, x, y);
    CountAll(Neighbours(m, x, y));
  }

  /** A sequence made only of '@' holds as many '@' as it is long. */
  lemma {:induction false} CountAll(s: seq<char>)
    requires forall i :: 0 <= i < |s| ==> s[i] == '@'
    ensures multiset(s) == multiset{}['@' := |s|]
  {
    if |s| > 0 {
      CountAll(s[1..]);
      assert s == [s[0]] + s[1..];
    }
  }
}

module Day4PaperStorageExample {
  import opened Day4Matrix
  import opened Day4PaperStorage

  /** In a 3-by-3 block of rolls only the four corners can be reached. */
  lemma FullBlockExample(storage: PaperStorage)
    requires storage.matrix == NewMatrix(["@@@", "@@@", "@@@"])
    ensures WellFormed(storage.matrix)
    ensures NForkliftAccessiblePaperRolls(storage) == 4
  {
    var m := storage.matrix;
    assert WellFormed(m) && AllRolls(m);
    BlockRow(m, 0);
    BlockRow(m, 1);
    BlockRow(m, 2);
    assert GridCount(m, Accessible, 3) == 0;
  }

  /** The outer rows of a 3-by-3 block of rolls hold two reachable rolls (the corners), the middle row none. */
  lemma BlockRow(m: Matrix<char>, y: nat)
    requires WellFormed(m) && m.cols == 3 && m.rows == 3 && AllRolls(m) && y < 3
    ensures RowCount(m, Accessible, 0, y) == if y == 1 then 0 else 2
  {
    BlockCell(m, 0, y);
    BlockCell(m, 1, y);
    BlockCell(m, 2, y);
    assert RowCount(m, Accessible, 3, y) == 0;
    assert RowCount(m, Accessible, 2, y) == if y == 1 then 0 else 1;
  }

  /** A roll of a 3-by-3 block is reachable exactly when it is a corner: 3 rolls around it, against 5 on a side and 8 in the middle. */
  lemma BlockCell(m: Matrix<char>, x: nat, y: nat)
    requires WellFormed(m) && m.cols == 3 && m.rows == 3 && AllRolls(m) && x < 3 && y < 3
    ensures Accessible(ViewAt(m, x, y)) <==> x != 1 && y != 1
  {
    FullGridRolls(m, x, y);
    var w, h := Span(x, 3), Span(y, 3);
    if x == 1 {
      assert w == 3 && w * h == 3 * h;
    } else {
      assert w == 2 && w * h == 2 * h;
    }
  }
}
