/** The subplot grid of the per-vendor and per-brand word clouds: for n
    panels, `row = ceil(sqrt(n))`, `col = floor(sqrt(n))`, and panel i is
    drawn at `(i // col, i % col)`. */
module Grid {
  import opened Common

  /** floor(sqrt(n)), by search upwards from k. */
  function IsqrtFrom(n: nat, k: nat): (r: nat)
    requires k * k <= n
    ensures r * r <= n < (r + 1) * (r + 1)
    decreases n - k
  {
    if (k + 1) * (k + 1) <= n then IsqrtFrom(n, k + 1) else k
  }

  /** `math.floor(math.sqrt(n))`: the largest k with k*k <= n. */
  function Isqrt(n: nat): (k: nat)
    ensures k * k <= n < (k + 1) * (k + 1)
  {
    IsqrtFrom(n, 0)
  }

  /** The number of grid columns, `col`. */
  function Cols(n: nat): (col: nat)
    ensures col * col <= n < (col + 1) * (col + 1)
    ensures 0 < n ==> 0 < col
  {
    Isqrt(n)
  }

  /** The number of grid rows, `row = math.ceil(math.sqrt(n))`: the square
      root itself when n is a perfect square, one more otherwise. */
  function Rows(n: nat): (row: nat)
    ensures (row - 1) * (row - 1) < n <= row * row || (n == 0 && row == 0)
  {
    var k := Isqrt(n);
    if k * k == n then k else k + 1
  }

  /** Where panel i goes in a grid with `col` columns. */
  function Cell(i: nat, col: nat): (rc: (nat, nat))
    requires 0 < col
    ensures rc.1 < col
    ensures i == rc.0 * col + rc.1
  {
    (i / col, i % col)
  }

  /** Distinct panels are drawn in distinct cells. */
  lemma CellInjective(i: nat, j: nat, col: nat)
    requires 0 < col
    requires Cell(i, col) == Cell(j, col)
    ensures i == j
  {
  }

  /** The grid has fewer cells than panels exactly when
      k*k + k < n for k = floor(sqrt(n)) (n = 3, 7, 8, 13, ...). */
  lemma {:induction false} GridTooSmall(n: nat)
    ensures Rows(n) * Cols(n) < n <==> Cols(n) * Cols(n) + Cols(n) < n
  {
    var k := Cols(n);
    if k * k == n {
      assert Rows(n) * Cols(n) == n;
    } else {
      assert Rows(n) * Cols(n) == (k + 1) * k == k * k + k;
    }
  }

  /** When the grid is too small, the last panel's row index is past the
      last row: `axis[r]` is out of range. */
  lemma {:induction false} LastPanelOffGrid(n: nat)
    requires 0 < n
    requires Rows(n) * Cols(n) < n
    ensures Cell(n - 1, Cols(n)).0 >= Rows(n)
  {
    var col, row := Cols(n), Rows(n);
    var rc := Cell(n - 1, col);
    if rc.0 < row {
      MulMono(rc.0 + 1, row, col);
      assert false;
    }
  }

  /** When the grid is large enough, every panel lands inside it. */
  lemma {:induction false} EveryPanelOnGrid(n: nat, i: nat)
    requires i < n
    requires n <= Rows(n) * Cols(n)
    ensures Cell(i, Cols(n)).0 < Rows(n)
  {
    var col, row := Cols(n), Rows(n);
    var rc := Cell(i, col);
    if row <= rc.0 {
      MulMono(row, rc.0, col);
      assert false;
    }
  }

  lemma MulMono(a: nat, b: nat, c: nat)
    requires a <= b
    ensures a * c <= b * c
  {
  }

  /** The panel loop `for i, x in enumerate(items): axis[i // col][i % col]`:
      the cells of the panels in order, or IndexError as soon as a panel's
      row is past the last row of the grid. */
  function Layout(n: nat): (r: Result<seq<(nat, nat)>>)
    ensures r.Err? ==> r.error == IndexError
  {
    if n == 0 then Ok([])
    else
      var col, row := Cols(n), Rows(n);
      if exists i :: 0 <= i < n && Cell(i, col).0 >= row then Err(IndexError)
      else Ok(seq(n, i requires 0 <= i < n => Cell(i, col)))
  }

  /** The loop completes exactly when the grid has a cell per panel; it
      then places the panels in distinct cells, all inside the grid. */
  lemma LayoutSucceeds(n: nat)
    ensures Layout(n).Ok? <==> n <= Rows(n) * Cols(n)
    ensures Layout(n).Ok? ==>
              && |Layout(n).value| == n
              && (forall i :: 0 <= i < n ==> Layout(n).value[i].0 < Rows(n) && Layout(n).value[i].1 < Cols(n))
              && NoDuplicates(Layout(n).value)
  {
    if 0 < n {
      var col, row := Cols(n), Rows(n);
      if n <= row * col {
        forall i | 0 <= i < n ensures Cell(i, col).0 < row {
          EveryPanelOnGrid(n, i);
        }
        var cells := Layout(n).value;
        assert forall i, j :: 0 <= i < j < n ==> cells[i] != cells[j];
      } else {
        LastPanelOffGrid(n);
      }
    }
  }

  /** Seven panels: a 3x2 grid of six cells, and panel 6 is sent to row 3,
      past the last row. */
  lemma SevenPanelsOverflow()
    ensures Rows(7) == 3 && Cols(7) == 2
    ensures Cell(6, Cols(7)) == (3, 0)
    ensures Layout(7) == Err(IndexError)
  {
    assert Isqrt(7) == 2 by {
      assert IsqrtFrom(7, 2) == 2;
      assert IsqrtFrom(7, 1) == 2;
    }
    assert Cell(6, 2).0 >= Rows(7);
  }

  /** Enough rows for n panels in `col` columns: ceil(n / col). */
  function FittedRows(n: nat): (row: nat)
    ensures 0 < n ==> Cols(n) * row >= n
  {
    var col := Cols(n);
    if col == 0 then 0 else (n + col - 1) / col
  }

  /** With `FittedRows` every panel lands inside the grid. */
  lemma {:induction false} FittedGridHoldsEveryPanel(n: nat, i: nat)
    requires i < n
    ensures Cell(i, Cols(n)).0 < FittedRows(n)
  {
    var col, row := Cols(n), FittedRows(n);
    var rc := Cell(i, col);
    if row <= rc.0 {
      MulMono(row, rc.0, col);
      assert false;
    }
  }

  /** The fitted grid is never more than one row taller than
      ceil(sqrt(n)) prescribes, and no taller at all for a perfect square. */
  lemma {:induction false} FittedRowsAtMostOneMore(n: nat)
    ensures FittedRows(n) <= Rows(n) + 1
    ensures Cols(n) * Cols(n) == n ==> FittedRows(n) <= Rows(n)
  {
    var k := Cols(n);
    if 0 < n {
      if k * k == n {
        assert n + k - 1 < k * (k + 1);
        DivBound(n + k - 1, k, k + 1);
      } else {
        assert n < (k + 1) * (k + 1) == k * (k + 2) + 1;
        assert n + k - 1 < k * (k + 3);
        DivBound(n + k - 1, k, k + 3);
      }
    }
  }

  /** The panel loop over a grid of `FittedRows(n)` rows: panel i goes to
      row i // col and column i % col, and every panel has a cell of its own
      inside the grid. */
  function FittedLayout(n: nat): (cells: seq<(nat, nat)>)
    ensures |cells| == n
    ensures forall i :: 0 <= i < n ==> cells[i].0 < FittedRows(n) && cells[i].1 < Cols(n)
    ensures forall i :: 0 <= i < n ==> cells[i].0 * Cols(n) + cells[i].1 == i
    ensures NoDuplicates(cells)
  {
    if n == 0 then []
    else
      var col := Cols(n);
      var cells := seq(n, i requires 0 <= i < n => Cell(i, col));
      forall i | 0 <= i < n ensures cells[i].0 < FittedRows(n) {
        FittedGridHoldsEveryPanel(n, i);
      }
      cells
  }

  lemma DivBound(a: nat, k: nat, m: nat)
    requires 0 < k && a < k * m
    ensures a / k < m
  {
  }
}
