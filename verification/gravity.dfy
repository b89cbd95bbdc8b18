/** Gravity: a dropped piece settles in the lowest empty cell of its column.
    `FindSpot` is the game's landing-row search; `Settled` is the shape every
    column keeps under gravity (its pieces form one block resting on the
    bottom row), and under it the landing row is fixed by how many pieces
    the column already holds.
 */
module Gravity {
  import opened Grid

  /** Scans rows `n-1`, `n-2`, ..., `0` of column `x` (bottom first) and
      returns the first empty row met, or `None` if all of them hold a piece. */
  function ScanUp(b: Board, x: int, n: nat): (r: Option<nat>)
    requires b.Valid() && 0 <= x < b.width && n <= b.height
    ensures r.Some? ==> r.value < n && b.At(r.value, x) == Empty
    ensures r.Some? ==> forall y :: r.value < y < n ==> b.At(y, x).Occupied?
    ensures r.None? <==> forall y :: 0 <= y < n ==> b.At(y, x).Occupied?
  {
    if n == 0 then None
    else if b.At(n - 1, x) == Empty then Some(n - 1)
    else ScanUp(b, x, n - 1)
  }

  /** The landing row for a piece dropped into column `x`: the largest row
      whose cell is empty, or `None` when the column is full. */
  function FindSpot(b: Board, x: int): (r: Option<nat>)
    requires b.Valid() && 0 <= x < b.width
    ensures r.Some? ==> r.value < b.height && b.At(r.value, x) == Empty
    ensures r.Some? ==> forall y :: r.value < y < b.height ==> b.At(y, x).Occupied?
    ensures r.None? <==> forall y :: 0 <= y < b.height ==> b.At(y, x).Occupied?
  {
    ScanUp(b, x, b.height)
  }

  /** In every column, a piece never sits above an empty cell. */
  predicate Settled(b: Board)
    requires b.Valid()
  {
    forall y, y', x ::
      0 <= y <= y' < b.height && 0 <= x < b.width && b.At(y, x).Occupied? ==> b.At(y', x).Occupied?
  }

  /** The number of pieces among rows `0 .. n-1` of column `x`. */
  function ColumnCount(b: Board, x: int, n: nat): (c: nat)
    requires b.Valid() && 0 <= x < b.width && n <= b.height
    ensures c <= n
  {
    if n == 0 then 0
    else ColumnCount(b, x, n - 1) + (if b.At(n - 1, x).Occupied? then 1 else 0)
  }

  /** The number of pieces in column `x`. */
  function Stacked(b: Board, x: int): nat
    requires b.Valid() && 0 <= x < b.width
  {
    ColumnCount(b, x, b.height)
  }

  lemma {:induction false} EmptyPrefixCountsZero(b: Board, x: int, n: nat)
    requires b.Valid() && 0 <= x < b.width && n <= b.height
    requires forall y :: 0 <= y < n ==> b.At(y, x) == Empty
    ensures ColumnCount(b, x, n) == 0
  {
    if n > 0 {
      EmptyPrefixCountsZero(b, x, n - 1);
    }
  }

  lemma {:induction false} ScanUpCounts(b: Board, x: int, n: nat)
    requires b.Valid() && 0 <= x < b.width && n <= b.height
    requires Settled(b)
    ensures ScanUp(b, x, n) ==
      (if ColumnCount(b, x, n) == n then None else Some(n - 1 - ColumnCount(b, x, n)))
  {
    if n > 0 {
      if b.At(n - 1, x) == Empty {
        EmptyPrefixCountsZero(b, x, n - 1);
      } else {
        ScanUpCounts(b, x, n - 1);
      }
    }
  }

  /** Under gravity the landing row of column `x` is `height-1` minus the
      number of pieces already in the column, and there is none exactly when
      the column holds `height` pieces. */
  lemma LandingRowFromCount(b: Board, x: int)
    requires b.Valid() && 0 <= x < b.width && Settled(b)
    ensures Stacked(b, x) == b.height <==> FindSpot(b, x).None?
    ensures Stacked(b, x) < b.height ==> FindSpot(b, x) == Some(b.height - 1 - Stacked(b, x))
  {
    ScanUpCounts(b, x, b.height);
  }

  /** A fresh board is settled. */
  lemma MakeBoardSettled(height: nat, width: nat)
    ensures Settled(MakeBoard(height, width))
  {
  }

  /** Every column of a fresh board is empty. */
  lemma MakeBoardStacksNothing(height: nat, width: nat, x: int)
    requires 0 <= x < width
    ensures Stacked(MakeBoard(height, width), x) == 0
  {
    EmptyPrefixCountsZero(MakeBoard(height, width), x, height);
  }

  /** Dropping into the landing row keeps every column settled. */
  lemma PlaceAtSpotKeepsSettled(b: Board, x: int, p: Player)
    requires b.Valid() && 0 <= x < b.width && Settled(b) && FindSpot(b, x).Some?
    ensures Settled(Place(b, FindSpot(b, x).value, x, p))
  {
  }

  /** A drop into a settled column that has room adds exactly one piece to it. */
  lemma {:induction false} PlaceAtSpotStacksOne(b: Board, x: int, p: Player)
    requires b.Valid() && 0 <= x < b.width && Settled(b) && FindSpot(b, x).Some?
    ensures Stacked(Place(b, FindSpot(b, x).value, x, p), x) == Stacked(b, x) + 1
  {
    var y := FindSpot(b, x).value;
    var b' := Place(b, y, x, p);
    ColumnCountAfterPlace(b, b', x, y, b.height);
  }

  lemma {:induction false} ColumnCountAfterPlace(b: Board, b': Board, x: int, y: nat, n: nat)
    requires b.Valid() && b'.Valid() && b'.height == b.height && b'.width == b.width
    requires 0 <= x < b.width && y < b.height && n <= b.height
    requires b.At(y, x) == Empty && b'.At(y, x).Occupied?
    requires forall y' :: 0 <= y' < b.height && y' != y ==> b'.At(y', x) == b.At(y', x)
    ensures ColumnCount(b', x, n) == ColumnCount(b, x, n) + (if y < n then 1 else 0)
  {
    if n > 0 {
      ColumnCountAfterPlace(b, b', x, y, n - 1);
    }
  }
}
