/** Win detection: four pieces of one player in a straight line. The game
    scans every origin cell in row-major order and, from each, tests four
    candidate lines of four cells; a line counts only if all its cells are
    on the board and all hold the player's pieces.
 */
module WinCheck {
  import opened Grid

  /** The four line shapes tested from each origin, in the order tested. */
  datatype Direction = Horizontal | Vertical | DiagDownRight | DiagDownLeft {
    function DY(): int {
      if this == Horizontal then 0 else 1
    }
    function DX(): int {
      match this
      case Horizontal => 1
      case Vertical => 0
      case DiagDownRight => 1
      case DiagDownLeft => -1
    }
  }

  /** The four `(y, x)` cells of the line of direction `d` starting at
      `(y, x)`; the cells may lie off the board. */
  function LineCells(y: int, x: int, d: Direction): (cells: seq<(int, int)>)
    ensures |cells| == 4
    ensures forall k :: 0 <= k < 4 ==> cells[k] == (y + k * d.DY(), x + k * d.DX())
  {
    [(y, x), (y + d.DY(), x + d.DX()), (y + 2 * d.DY(), x + 2 * d.DX()), (y + 3 * d.DY(), x + 3 * d.DX())]
  }

  /** The game's `win` test: every listed cell is on the board and holds
      a piece of `p`. */
  predicate Win(b: Board, p: Player, cells: seq<(int, int)>)
    requires b.Valid()
  {
    forall i :: 0 <= i < |cells| ==> b.Owns(p, cells[i].0, cells[i].1)
  }

  predicate LineAt(b: Board, p: Player, y: int, x: int, d: Direction)
    requires b.Valid()
  {
    Win(b, p, LineCells(y, x, d))
  }

  /** Some origin on the board and some direction give a winning line for `p`. */
  ghost predicate HasFour(b: Board, p: Player)
    requires b.Valid()
  {
    exists y, x, d :: 0 <= y < b.height && 0 <= x < b.width && LineAt(b, p, y, x, d)
  }

  /** The origin `(y', x')` comes at or after `(y, x)` in row-major order. */
  predicate AtOrAfter(b: Board, y: int, x: int, y': int, x': int) {
    (y' == y < b.height && x <= x' < b.width) || (y < y' < b.height && 0 <= x' < b.width)
  }

  /** The scan of the game's nested loops, resumed at origin `(y, x)`. */
  function WinFrom(b: Board, p: Player, y: nat, x: nat): (r: bool)
    requires b.Valid() && y <= b.height && x <= b.width
    ensures r <==> exists y', x', d :: AtOrAfter(b, y, x, y', x') && LineAt(b, p, y', x', d)
    decreases b.height - y, b.width - x
  {
    if y == b.height then false
    else if x == b.width then WinFrom(b, p, y + 1, 0)
    else if LineAt(b, p, y, x, Horizontal) || LineAt(b, p, y, x, Vertical)
         || LineAt(b, p, y, x, DiagDownRight) || LineAt(b, p, y, x, DiagDownLeft)
    then true
    else WinFrom(b, p, y, x + 1)
  }

  /** The game's `checkForWinner` for the player `p` who just moved; the
      game's "no line" answer, `undefined`, is `false` here. */
  function CheckForWinner(b: Board, p: Player): (r: bool)
    requires b.Valid()
    ensures r <==> HasFour(b, p)
  {
    WinFrom(b, p, 0, 0)
  }

  /** `p` owns four consecutive cells along the step `(dy, dx)` from `(y, x)`. */
  predicate Run(b: Board, p: Player, y: int, x: int, dy: int, dx: int)
    requires b.Valid()
  {
    && b.Owns(p, y, x) && b.Owns(p, y + dy, x + dx)
    && b.Owns(p, y + 2 * dy, x + 2 * dx) && b.Owns(p, y + 3 * dy, x + 3 * dx)
  }

  /** Four in a row in any of the eight compass directions, from any cell. */
  ghost predicate Aligned(b: Board, p: Player)
    requires b.Valid()
  {
    exists y, x, dy, dx ::
      -1 <= dy <= 1 && -1 <= dx <= 1 && (dy, dx) != (0, 0) && Run(b, p, y, x, dy, dx)
  }

  lemma LineAtIsRun(b: Board, p: Player, y: int, x: int, d: Direction)
    requires b.Valid()
    ensures LineAt(b, p, y, x, d) <==> Run(b, p, y, x, d.DY(), d.DX())
  {
    var cells := LineCells(y, x, d);
    if Run(b, p, y, x, d.DY(), d.DX()) {
      forall i | 0 <= i < 4
        ensures b.Owns(p, cells[i].0, cells[i].1)
      {
        assert i == 0 || i == 1 || i == 2 || i == 3;
      }
    }
    if LineAt(b, p, y, x, d) {
      assert b.Owns(p, cells[0].0, cells[0].1);
      assert b.Owns(p, cells[1].0, cells[1].1);
      assert b.Owns(p, cells[2].0, cells[2].1);
      assert b.Owns(p, cells[3].0, cells[3].1);
    }
  }

  /** A run along any of the eight steps is a tested line read from one of
      its two ends. */
  lemma RunIsTestedLine(b: Board, p: Player, y: int, x: int, dy: int, dx: int)
    requires b.Valid() && -1 <= dy <= 1 && -1 <= dx <= 1 && (dy, dx) != (0, 0)
    requires Run(b, p, y, x, dy, dx)
    ensures HasFour(b, p)
  {
    var y0, x0, d;
    if dy == 0 {
      d := Horizontal;
      if dx == 1 { y0, x0 := y, x; } else { y0, x0 := y, x - 3; }
    } else if dx == 0 {
      d := Vertical;
      if dy == 1 { y0, x0 := y, x; } else { y0, x0 := y - 3, x; }
    } else if dy == dx {
      d := DiagDownRight;
      if dy == 1 { y0, x0 := y, x; } else { y0, x0 := y - 3, x - 3; }
    } else {
      d := DiagDownLeft;
      if dy == 1 { y0, x0 := y, x; } else { y0, x0 := y - 3, x + 3; }
    }
    assert Run(b, p, y0, x0, d.DY(), d.DX());
    LineAtIsRun(b, p, y0, x0, d);
    assert b.Owns(p, y0, x0);
  }

  /** The four tested directions miss no line: a run of four in any of the
      eight directions, read from either end, is found by the scan. */
  lemma HasFourIffAligned(b: Board, p: Player)
    requires b.Valid()
    ensures HasFour(b, p) <==> Aligned(b, p)
  {
    if HasFour(b, p) {
      var y, x, d :| 0 <= y < b.height && 0 <= x < b.width && LineAt(b, p, y, x, d);
      LineAtIsRun(b, p, y, x, d);
      assert Run(b, p, y, x, d.DY(), d.DX());
    }
    if Aligned(b, p) {
      var y, x, dy, dx :| -1 <= dy <= 1 && -1 <= dx <= 1 && (dy, dx) != (0, 0) && Run(b, p, y, x, dy, dx);
      RunIsTestedLine(b, p, y, x, dy, dx);
    }
  }

  /** A line that holds on `b` still holds once more pieces are added. */
  lemma ExtendsKeepsFour(b: Board, b': Board, p: Player)
    requires b.Valid() && b'.Valid() && Extends(b, b') && HasFour(b, p)
    ensures HasFour(b', p)
  {
    var y, x, d :| 0 <= y < b.height && 0 <= x < b.width && LineAt(b, p, y, x, d);
    var cells := LineCells(y, x, d);
    forall i | 0 <= i < |cells|
      ensures b'.Owns(p, cells[i].0, cells[i].1)
    {
      assert b.Owns(p, cells[i].0, cells[i].1);
    }
    assert LineAt(b', p, y, x, d);
  }

  lemma PlaceKeepsOthersRun(b: Board, y: int, x: int, p: Player, q: Player, y0: int, x0: int, dy: int, dx: int)
    requires b.Valid() && b.InBounds(y, x) && q != p
    requires Run(Place(b, y, x, p), q, y0, x0, dy, dx)
    ensures Run(b, q, y0, x0, dy, dx)
  {
    var b' := Place(b, y, x, p);
    assert b'.At(y, x) != Occupied(q);
  }

  /** A piece of `p` cannot complete a line for the other player: any line
      of `q` after the drop was already there before it. */
  lemma PlaceKeepsOthersLines(b: Board, y: int, x: int, p: Player, q: Player)
    requires b.Valid() && b.InBounds(y, x) && q != p
    ensures HasFour(Place(b, y, x, p), q) ==> HasFour(b, q)
  {
    var b' := Place(b, y, x, p);
    if HasFour(b', q) {
      var y0, x0, d :| 0 <= y0 < b'.height && 0 <= x0 < b'.width && LineAt(b', q, y0, x0, d);
      LineAtIsRun(b', q, y0, x0, d);
      PlaceKeepsOthersRun(b, y, x, p, q, y0, x0, d.DY(), d.DX());
      LineAtIsRun(b, q, y0, x0, d);
    }
  }

  /** No player has a line on a board without pieces. */
  lemma NoFourOnEmpty(b: Board, p: Player)
    requires b.Valid()
    requires forall y, x :: b.InBounds(y, x) ==> b.At(y, x) == Empty
    ensures !HasFour(b, p)
  {
    forall y, x, d | 0 <= y < b.height && 0 <= x < b.width
      ensures !LineAt(b, p, y, x, d)
    {
      assert LineCells(y, x, d)[0] == (y, x);
    }
  }
}
