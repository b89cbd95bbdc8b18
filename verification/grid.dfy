/** The board of a Connect Four game: a grid of `height` rows by `width`
    columns, indexed `rows[y][x]` with row 0 at the top and row `height-1`
    at the bottom. A cell is either empty or holds the piece of one of the
    two players.
 */
module Grid {

  /** The two players, in construction order: `P1` is `players[0]` and
      moves first, `P2` is `players[1]`. */
  datatype Player = P1 | P2

  /** The player whose turn comes after `p`'s. */
  function Opponent(p: Player): (q: Player)
    ensures q != p
  {
    if p == P1 then P2 else P1
  }

  datatype Cell = Empty | Occupied(owner: Player)

  /** Result of a search that may find nothing (`null` in the game). */
  datatype Option<T> = None | Some(value: T)

  datatype Board = Board(height: nat, width: nat, rows: seq<seq<Cell>>) {

    /** The grid really has `height` rows of `width` cells each. */
    predicate Valid() {
      |rows| == height && forall y :: 0 <= y < |rows| ==> |rows[y]| == width
    }

    predicate InBounds(y: int, x: int) {
      0 <= y < height && 0 <= x < width
    }

    function At(y: int, x: int): Cell
      requires Valid() && InBounds(y, x)
    {
      rows[y][x]
    }

    /** Every cell of the grid holds a piece. */
    predicate IsFull()
      requires Valid()
    {
      forall y, x :: 0 <= y < height && 0 <= x < width ==> At(y, x).Occupied?
    }

    /** True if cell `(y, x)` is in bounds and holds a piece of `p`. */
    predicate Owns(p: Player, y: int, x: int)
      requires Valid()
    {
      InBounds(y, x) && At(y, x) == Occupied(p)
    }
  }

  /** A fresh board: `height` rows of `width` empty cells. */
  function MakeBoard(height: nat, width: nat): (b: Board)
    ensures b.Valid() && b.height == height && b.width == width
    ensures forall y, x :: b.InBounds(y, x) ==> b.At(y, x) == Empty
  {
    Board(height, width, seq(height, _ => seq(width, _ => Empty)))
  }

  /** Writes `p`'s piece into cell `(y, x)`; no other cell changes. */
  function Place(b: Board, y: int, x: int, p: Player): (b': Board)
    requires b.Valid() && b.InBounds(y, x)
    ensures b'.Valid() && b'.height == b.height && b'.width == b.width
    ensures b'.At(y, x) == Occupied(p)
    ensures forall y', x' :: b.InBounds(y', x') && (y', x') != (y, x) ==> b'.At(y', x') == b.At(y', x')
  {
    b.(rows := b.rows[y := b.rows[y][x := Occupied(p)]])
  }

  /** `b'` is `b` with possibly more pieces: same shape, and no occupied
      cell of `b` is cleared or given to the other player. */
  predicate Extends(b: Board, b': Board)
    requires b.Valid() && b'.Valid()
  {
    && b'.height == b.height && b'.width == b.width
    && forall y, x :: 0 <= y < b.height && 0 <= x < b.width && b.At(y, x).Occupied? ==> b'.At(y, x) == b.At(y, x)
  }

  /** Boards only ever grow: `Extends` is a preorder. */
  lemma ExtendsTransitive(b0: Board, b1: Board, b2: Board)
    requires b0.Valid() && b1.Valid() && b2.Valid()
    requires Extends(b0, b1) && Extends(b1, b2)
    ensures Extends(b0, b2)
  {
  }

  /** Placing into an empty cell keeps every existing piece. */
  lemma PlaceExtends(b: Board, y: int, x: int, p: Player)
    requires b.Valid() && b.InBounds(y, x) && b.At(y, x) == Empty
    ensures Extends(b, Place(b, y, x, p))
    ensures !Extends(Place(b, y, x, p), b)
  {
  }
}
