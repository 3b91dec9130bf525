/** Where the pieces of a strided buffer begin, and the cells of a grid laid out row by row. */
module Strides {

  /** `index * stride`, by repeated addition. */
  function Offset(index: nat, stride: nat): nat {
    if index == 0 then 0 else Offset(index - 1, stride) + stride
  }

  lemma {:induction false} OffsetIsProduct(index: nat, stride: nat)
    ensures Offset(index, stride) == index * stride
  {
    if index > 0 {
      OffsetIsProduct(index - 1, stride);
      assert index * stride == (index - 1) * stride + stride;
    }
  }

  lemma {:induction false} SlotFits(i: nat, n: nat, stride: nat)
    requires i < n
    ensures Offset(i, stride) + stride <= Offset(n, stride)
  {
    if i + 1 < n { SlotFits(i, n - 1, stride); }
  }

  lemma OffsetsApart(i: nat, j: nat, n: nat, stride: nat)
    requires i < n && j < n
    ensures Offset(i, stride) + stride <= Offset(n, stride) && Offset(j, stride) + stride <= Offset(n, stride)
    ensures i == j || Offset(i, stride) + stride <= Offset(j, stride) || Offset(j, stride) + stride <= Offset(i, stride)
  {
    SlotFits(i, n, stride);
    SlotFits(j, n, stride);
    if j < i { SlotFits(j, i, stride); }
    if i < j { SlotFits(i, j, stride); }
  }

  /** The `i`-th of the `n` pieces of `width` elements that begin `s`. */
  function Piece<T>(s: seq<T>, i: nat, n: nat, width: nat): (r: seq<T>)
    requires i < n && Offset(n, width) <= |s|
    ensures |r| == width
  {
    SlotFits(i, n, width);
    s[Offset(i, width)..Offset(i, width) + width]
  }

  predicate Uniform<T>(ps: seq<seq<T>>, width: nat) {
    forall i :: 0 <= i < |ps| ==> |ps[i]| == width
  }

  function Pieces<T>(s: seq<T>, n: nat, width: nat): (r: seq<seq<T>>)
    requires Offset(n, width) <= |s|
    ensures |r| == n && Uniform(r, width)
  {
    seq(n, i requires 0 <= i < n => Piece(s, i, n, width))
  }

  function Joined<T>(ps: seq<seq<T>>): seq<T> {
    if ps == [] then [] else Joined(ps[..|ps| - 1]) + ps[|ps| - 1]
  }

  lemma {:induction false} JoinedLength<T>(ps: seq<seq<T>>, width: nat)
    requires Uniform(ps, width)
    ensures |Joined(ps)| == Offset(|ps|, width)
  {
    if ps != [] { JoinedLength(ps[..|ps| - 1], width); }
  }

  lemma PieceOfFront<T>(s: seq<T>, i: nat, n: nat, width: nat)
    requires i + 1 < n && |s| == Offset(n, width)
    ensures Piece(s[..Offset(n - 1, width)], i, n - 1, width) == Piece(s, i, n, width)
  {
    SlotFits(i, n - 1, width);
  }

  /** Cutting and joining undo each other. */
  lemma {:induction false} JoinedPieces<T>(s: seq<T>, n: nat, width: nat)
    requires |s| == Offset(n, width)
    ensures Joined(Pieces(s, n, width)) == s
    decreases n
  {
    if n > 0 {
      var front := s[..Offset(n - 1, width)];
      forall i | 0 <= i < n - 1 ensures Piece(front, i, n - 1, width) == Piece(s, i, n, width) {
        PieceOfFront(s, i, n, width);
      }
      assert Pieces(s, n, width)[..n - 1] == Pieces(front, n - 1, width);
      JoinedPieces(front, n - 1, width);
      assert s == front + Piece(s, n - 1, n, width);
    }
  }

  lemma {:induction false} PieceOfJoined<T>(ps: seq<seq<T>>, width: nat, i: nat)
    requires Uniform(ps, width) && i < |ps|
    ensures |Joined(ps)| == Offset(|ps|, width) && Piece(Joined(ps), i, |ps|, width) == ps[i]
  {
    JoinedLength(ps, width);
    var n := |ps| - 1;
    JoinedLength(ps[..n], width);
    if i < n {
      PieceOfJoined(ps[..n], width, i);
      SlotFits(i, n, width);
    }
  }

  lemma PiecesOfJoined<T>(ps: seq<seq<T>>, width: nat)
    requires Uniform(ps, width)
    ensures |Joined(ps)| == Offset(|ps|, width) && Pieces(Joined(ps), |ps|, width) == ps
  {
    JoinedLength(ps, width);
    forall i | 0 <= i < |ps| ensures Piece(Joined(ps), i, |ps|, width) == ps[i] {
      PieceOfJoined(ps, width, i);
    }
  }

  /** Where row `row`, column `col` of a grid of `cols` columns lies. */
  function Cell(row: nat, col: nat, cols: nat): nat {
    Offset(row, cols) + col
  }

  function Row(k: nat, cols: nat): nat
    requires cols > 0
  {
    if k < cols then 0 else Row(k - cols, cols) + 1
  }

  function Col(k: nat, cols: nat): (c: nat)
    requires cols > 0
    ensures c < cols
  {
    if k < cols then k else Col(k - cols, cols)
  }

  lemma {:induction false} CellOfParts(k: nat, cols: nat)
    requires cols > 0
    ensures Cell(Row(k, cols), Col(k, cols), cols) == k
  {
    if k >= cols { CellOfParts(k - cols, cols); }
  }

  lemma {:induction false} PartsOfCell(row: nat, col: nat, cols: nat)
    requires col < cols
    ensures Row(Cell(row, col, cols), cols) == row && Col(Cell(row, col, cols), cols) == col
  {
    if row > 0 {
      PartsOfCell(row - 1, col, cols);
      assert Cell(row, col, cols) - cols == Cell(row - 1, col, cols);
    }
  }

  lemma CellFits(row: nat, col: nat, rows: nat, cols: nat)
    requires row < rows && col < cols
    ensures Cell(row, col, cols) < Offset(rows, cols)
  {
    SlotFits(row, rows, cols);
  }

  lemma {:induction false} RowFits(k: nat, rows: nat, cols: nat)
    requires cols > 0 && k < Offset(rows, cols)
    ensures Row(k, cols) < rows
    decreases k
  {
    if k >= cols { RowFits(k - cols, rows - 1, cols); }
  }

  lemma SameArea(rows: nat, cols: nat)
    ensures Offset(rows, cols) == Offset(cols, rows)
  {
    OffsetIsProduct(rows, cols);
    OffsetIsProduct(cols, rows);
  }

  /** Where cell `k` of a grid lies once rows and columns are exchanged. */
  function Mirror(k: nat, rows: nat, cols: nat): (m: nat)
    requires k < Offset(rows, cols) && cols > 0
    ensures m < Offset(cols, rows)
  {
    RowFits(k, rows, cols);
    CellFits(Col(k, cols), Row(k, cols), cols, rows);
    Cell(Col(k, cols), Row(k, cols), rows)
  }

  lemma NonEmpty(rows: nat, cols: nat, k: nat)
    requires k < Offset(rows, cols)
    ensures rows > 0 && cols > 0
  {
    OffsetIsProduct(rows, cols);
  }

  lemma MirrorOfCell(row: nat, col: nat, rows: nat, cols: nat)
    requires row < rows && col < cols
    ensures Cell(row, col, cols) < Offset(rows, cols)
    ensures Mirror(Cell(row, col, cols), rows, cols) == Cell(col, row, rows)
  {
    CellFits(row, col, rows, cols);
    PartsOfCell(row, col, cols);
  }

  lemma MirrorTwice(k: nat, rows: nat, cols: nat)
    requires k < Offset(rows, cols) && cols > 0
    ensures rows > 0 && Mirror(Mirror(k, rows, cols), cols, rows) == k
  {
    RowFits(k, rows, cols);
    CellOfParts(k, cols);
    MirrorOfCell(Col(k, cols), Row(k, cols), cols, rows);
  }

  function At<T>(grid: seq<T>, rows: nat, cols: nat, k: nat): T
    requires |grid| == Offset(rows, cols) && k < Offset(cols, rows)
  {
    NonEmpty(cols, rows, k);
    grid[Mirror(k, cols, rows)]
  }

  /** A grid of `rows` by `cols`, laid out column by column instead. */
  function Transposed<T>(grid: seq<T>, rows: nat, cols: nat): (r: seq<T>)
    requires |grid| == Offset(rows, cols)
    ensures |r| == Offset(cols, rows) == |grid|
  {
    SameArea(rows, cols);
    seq(Offset(cols, rows), k requires 0 <= k < Offset(cols, rows) => At(grid, rows, cols, k))
  }

  /** Cell by cell: row and column change places. */
  lemma TransposedAt<T>(grid: seq<T>, rows: nat, cols: nat, row: nat, col: nat)
    requires |grid| == Offset(rows, cols) && row < rows && col < cols
    ensures Cell(row, col, cols) < |grid| && Cell(col, row, rows) < |grid|
    ensures Transposed(grid, rows, cols)[Cell(col, row, rows)] == grid[Cell(row, col, cols)]
  {
    SameArea(rows, cols);
    CellFits(row, col, rows, cols);
    MirrorOfCell(col, row, cols, rows);
  }

  /** Laying a transposed grid out the other way again gives the grid back. */
  lemma TransposeTwice<T>(grid: seq<T>, rows: nat, cols: nat)
    requires |grid| == Offset(rows, cols)
    ensures Transposed(Transposed(grid, rows, cols), cols, rows) == grid
  {
    var t := Transposed(grid, rows, cols);
    forall k | 0 <= k < |grid| ensures Transposed(t, cols, rows)[k] == grid[k] {
      NonEmpty(rows, cols, k);
      MirrorTwice(k, rows, cols);
    }
  }
}
