/** How many pieces each player has on the board. Used to state that turns
    alternate over a whole game: the first player is never behind and never
    more than one piece ahead.
 */
module Counting {
  import opened Grid

  function CountRow(row: seq<Cell>, p: Player): (c: nat)
    ensures c <= |row|
  {
    if |row| == 0 then 0
    else (if row[0] == Occupied(p) then 1 else 0) + CountRow(row[1..], p)
  }

  function CountRows(rows: seq<seq<Cell>>, p: Player): nat
  {
    if |rows| == 0 then 0
    else CountRow(rows[0], p) + CountRows(rows[1..], p)
  }

  /** The number of `p`'s pieces on the board. */
  function Pieces(b: Board, p: Player): nat
  {
    CountRows(b.rows, p)
  }

  function Indicator(c: Cell, p: Player): nat
  {
    if c == Occupied(p) then 1 else 0
  }

  lemma {:induction false} CountRowUpdate(row: seq<Cell>, x: nat, c: Cell, p: Player)
    requires x < |row|
    ensures CountRow(row[x := c], p) + Indicator(row[x], p) == CountRow(row, p) + Indicator(c, p)
  {
    if x > 0 {
      assert row[x := c][1..] == row[1..][x - 1 := c];
      CountRowUpdate(row[1..], x - 1, c, p);
    } else {
      assert row[x := c][1..] == row[1..];
    }
  }

  lemma {:induction false} CountRowsUpdate(rows: seq<seq<Cell>>, y: nat, r: seq<Cell>, p: Player)
    requires y < |rows|
    ensures CountRows(rows[y := r], p) + CountRow(rows[y], p) == CountRows(rows, p) + CountRow(r, p)
  {
    if y > 0 {
      assert rows[y := r][1..] == rows[1..][y - 1 := r];
      CountRowsUpdate(rows[1..], y - 1, r, p);
    } else {
      assert rows[y := r][1..] == rows[1..];
    }
  }

  /** Dropping a piece of `p` into an empty cell gives `p` one more piece and
      leaves the other player's count alone. */
  lemma PlaceCounts(b: Board, y: int, x: int, p: Player)
    requires b.Valid() && b.InBounds(y, x) && b.At(y, x) == Empty
    ensures Pieces(Place(b, y, x, p), p) == Pieces(b, p) + 1
    ensures Pieces(Place(b, y, x, p), Opponent(p)) == Pieces(b, Opponent(p))
  {
    var r := b.rows[y][x := Occupied(p)];
    assert Place(b, y, x, p).rows == b.rows[y := r];
    forall q: Player
      ensures CountRows(b.rows[y := r], q) == CountRows(b.rows, q) + Indicator(Occupied(p), q)
    {
      CountRowUpdate(b.rows[y], x, Occupied(p), q);
      CountRowsUpdate(b.rows, y, r, q);
    }
  }

  lemma {:induction false} EmptyRowCountsZero(row: seq<Cell>, p: Player)
    requires forall i :: 0 <= i < |row| ==> row[i] == Empty
    ensures CountRow(row, p) == 0
  {
    if |row| > 0 {
      EmptyRowCountsZero(row[1..], p);
    }
  }

  lemma {:induction false} EmptyRowsCountZero(rows: seq<seq<Cell>>, p: Player)
    requires forall y, x :: 0 <= y < |rows| && 0 <= x < |rows[y]| ==> rows[y][x] == Empty
    ensures CountRows(rows, p) == 0
  {
    if |rows| > 0 {
      EmptyRowCountsZero(rows[0], p);
      EmptyRowsCountZero(rows[1..], p);
    }
  }

  /** A fresh board holds no pieces of either player. */
  lemma MakeBoardCountsZero(height: nat, width: nat, p: Player)
    ensures Pieces(MakeBoard(height, width), p) == 0
  {
    var b := MakeBoard(height, width);
    forall y, x | 0 <= y < |b.rows| && 0 <= x < |b.rows[y]|
      ensures b.rows[y][x] == Empty
    {
      assert b.At(y, x) == Empty;
    }
    EmptyRowsCountZero(b.rows, p);
  }
}
