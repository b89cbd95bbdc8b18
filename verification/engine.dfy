/** The game itself: the state the game object keeps between clicks and the
    transition one click on a column performs. The end of the game, which
    the game signals by detaching its click handler, is the explicit status
    `Won(p)` or `Tied`; a column click on a finished game changes nothing.
 */
module Engine {
  import opened Grid
  import opened Gravity
  import opened WinCheck
  import opened Counting

  datatype Status = InProgress | Won(winner: Player) | Tied

  /** `current` is the player whose piece the next accepted click drops (on
      a finished game: the player who moved last). `gameOver` is the game's
      own flag, which only a win sets. */
  datatype Game = Game(board: Board, current: Player, gameOver: bool, status: Status)

  /** A new game on an empty `height` by `width` board, first player to move;
      the board is 6 by 7 unless given otherwise. */
  function NewGame(height: nat := 6, width: nat := 7): (g: Game)
    ensures g.board.Valid() && g.board.height == height && g.board.width == width
    ensures forall y, x :: g.board.InBounds(y, x) ==> g.board.At(y, x) == Empty
    ensures g.current == P1 && g.status == InProgress && !g.gameOver
  {
    Game(MakeBoard(height, width), P1, false, InProgress)
  }

  /** A click on column `x` places a piece: the game is still running and
      the column has an empty cell. */
  predicate Accepts(g: Game, x: int)
    requires g.board.Valid() && 0 <= x < g.board.width
  {
    g.status == InProgress && FindSpot(g.board, x).Some?
  }

  /** One click on column `x`. */
  function Move(g: Game, x: int): (g': Game)
    requires g.board.Valid() && 0 <= x < g.board.width
    ensures g'.board.Valid() && g'.board.height == g.board.height && g'.board.width == g.board.width
    // a click on a finished game or on a full column is ignored
    ensures !Accepts(g, x) ==> g' == g
    // an accepted click fills exactly the landing cell, with the mover's piece
    ensures Accepts(g, x) ==>
      var y := FindSpot(g.board, x).value;
      && g.board.At(y, x) == Empty && g'.board.At(y, x) == Occupied(g.current)
      && forall y', x' :: g.board.InBounds(y', x') && (y', x') != (y, x) ==> g'.board.At(y', x') == g.board.At(y', x')
    // the tie test comes first: a click that fills the board is a tie even if it also makes four in a row
    ensures Accepts(g, x) && g'.board.IsFull() ==> g'.status == Tied
    ensures g'.status == Tied <==> (g.status == Tied || (Accepts(g, x) && g'.board.IsFull()))
    ensures g'.status.Won? <==>
      (g.status.Won? || (Accepts(g, x) && !g'.board.IsFull() && HasFour(g'.board, g.current)))
    ensures Accepts(g, x) && g'.status.Won? ==> g'.status.winner == g.current
    // the turn passes to the other player exactly when the game goes on
    ensures Accepts(g, x) ==> (g'.status == InProgress <==> g'.current == Opponent(g.current))
    ensures g'.gameOver <==> g.gameOver || (Accepts(g, x) && g'.status.Won?)
  {
    if g.status != InProgress then g
    else match FindSpot(g.board, x)
      case None => g
      case Some(y) =>
        var b := Place(g.board, y, x, g.current);
        if b.IsFull() then g.(board := b, status := Tied)
        else if CheckForWinner(b, g.current) then g.(board := b, gameOver := true, status := Won(g.current))
        else g.(board := b, current := Opponent(g.current))
  }

  /** Clicks on the columns `xs`, in order. */
  function Play(g: Game, xs: seq<int>): (g': Game)
    requires g.board.Valid()
    requires forall i :: 0 <= i < |xs| ==> 0 <= xs[i] < g.board.width
    ensures g'.board.Valid() && g'.board.height == g.board.height && g'.board.width == g.board.width
    decreases |xs|
  {
    if |xs| == 0 then g else Play(Move(g, xs[0]), xs[1..])
  }

  /** Playing `xs` and then `ys` is playing `xs + ys`. */
  lemma {:induction false} PlayAppend(g: Game, xs: seq<int>, ys: seq<int>)
    requires g.board.Valid()
    requires forall i :: 0 <= i < |xs| ==> 0 <= xs[i] < g.board.width
    requires forall i :: 0 <= i < |ys| ==> 0 <= ys[i] < g.board.width
    ensures Play(g, xs + ys) == Play(Play(g, xs), ys)
    decreases |xs|
  {
    if |xs| > 0 {
      assert (xs + ys)[1..] == xs[1..] + ys;
      PlayAppend(Move(g, xs[0]), xs[1..], ys);
    } else {
      assert xs + ys == ys;
    }
  }

  /** Piece counts fit a game in which `next` places the next piece: the
      first player is one piece ahead exactly when the second is to move. */
  predicate TurnBalanced(b: Board, next: Player)
  {
    Pieces(b, P1) == Pieces(b, P2) + (if next == P2 then 1 else 0)
  }

  /** The player the piece counts are measured against: the one to move
      while the game runs, the one after the last mover once it has ended. */
  function NextInTurn(g: Game): Player
  {
    if g.status == InProgress then g.current else Opponent(g.current)
  }

  /** How the status, the `gameOver` flag and the lines on the board agree. */
  ghost predicate StatusAgrees(g: Game)
    requires g.board.Valid()
  {
    && (g.gameOver <==> g.status.Won?)
    && (g.status.Won? ==> g.status.winner == g.current && HasFour(g.board, g.current))
    && (g.status == Tied ==> g.board.IsFull())
    && (g.status == InProgress ==> !HasFour(g.board, P1) && !HasFour(g.board, P2))
    && (g.status != InProgress ==> !HasFour(g.board, Opponent(g.current)))
  }

  /** What holds of every game reachable from a new one. */
  ghost predicate Consistent(g: Game)
  {
    && g.board.Valid()
    && Settled(g.board)
    && StatusAgrees(g)
    && TurnBalanced(g.board, NextInTurn(g))
  }

  lemma NewGameConsistent(height: nat, width: nat)
    ensures Consistent(NewGame(height, width))
  {
    var b := NewGame(height, width).board;
    MakeBoardSettled(height, width);
    NoFourOnEmpty(b, P1);
    NoFourOnEmpty(b, P2);
    MakeBoardCountsZero(height, width, P1);
    MakeBoardCountsZero(height, width, P2);
  }

  /** Every click keeps the columns settled. */
  lemma MoveKeepsSettled(g: Game, x: int)
    requires g.board.Valid() && 0 <= x < g.board.width && Settled(g.board)
    ensures Settled(Move(g, x).board)
  {
    if Accepts(g, x) {
      PlaceAtSpotKeepsSettled(g.board, x, g.current);
    }
  }

  /** Turns alternate: the first player is never behind and never more than
      one piece ahead. */
  lemma MoveKeepsTurnBalance(g: Game, x: int)
    requires g.board.Valid() && 0 <= x < g.board.width
    requires TurnBalanced(g.board, NextInTurn(g))
    ensures TurnBalanced(Move(g, x).board, NextInTurn(Move(g, x)))
  {
    if Accepts(g, x) {
      var y := FindSpot(g.board, x).value;
      PlaceCounts(g.board, y, x, g.current);
      assert Move(g, x).board == Place(g.board, y, x, g.current);
    }
  }

  /** A click keeps `gameOver` exactly on a win, the winner holding a line
      and the other player none, a tie on a full board only, and a running
      game free of lines. */
  lemma MoveKeepsStatusAgreeing(g: Game, x: int)
    requires g.board.Valid() && 0 <= x < g.board.width && StatusAgrees(g)
    ensures StatusAgrees(Move(g, x))
  {
    if Accepts(g, x) {
      var y := FindSpot(g.board, x).value;
      var p := g.current;
      PlaceKeepsOthersLines(g.board, y, x, p, Opponent(p));
      assert Move(g, x).board == Place(g.board, y, x, p);
    }
  }

  /** Every click keeps the game consistent. */
  lemma MoveKeepsConsistent(g: Game, x: int)
    requires Consistent(g) && 0 <= x < g.board.width
    ensures Consistent(Move(g, x))
  {
    MoveKeepsSettled(g, x);
    MoveKeepsTurnBalance(g, x);
    MoveKeepsStatusAgreeing(g, x);
  }

  lemma {:induction false} PlayKeepsConsistent(g: Game, xs: seq<int>)
    requires Consistent(g)
    requires forall i :: 0 <= i < |xs| ==> 0 <= xs[i] < g.board.width
    ensures Consistent(Play(g, xs))
    decreases |xs|
  {
    if |xs| > 0 {
      MoveKeepsConsistent(g, xs[0]);
      PlayKeepsConsistent(Move(g, xs[0]), xs[1..]);
    }
  }

  /** Any sequence of clicks on a new game gives a consistent game; in
      particular the two players never both have four in a row. */
  lemma ReachableIsConsistent(height: nat, width: nat, xs: seq<int>)
    requires forall i :: 0 <= i < |xs| ==> 0 <= xs[i] < width
    ensures Consistent(Play(NewGame(height, width), xs))
    ensures !(HasFour(Play(NewGame(height, width), xs).board, P1) && HasFour(Play(NewGame(height, width), xs).board, P2))
  {
    NewGameConsistent(height, width);
    PlayKeepsConsistent(NewGame(height, width), xs);
  }

  /** No piece is ever removed or changes owner over any run of clicks. */
  lemma {:induction false} PlayNeverClears(g: Game, xs: seq<int>)
    requires g.board.Valid()
    requires forall i :: 0 <= i < |xs| ==> 0 <= xs[i] < g.board.width
    ensures Play(g, xs).board.Valid() && Extends(g.board, Play(g, xs).board)
    decreases |xs|
  {
    if |xs| > 0 {
      var g1 := Move(g, xs[0]);
      PlayNeverClears(g1, xs[1..]);
      ExtendsTransitive(g.board, g1.board, Play(g1, xs[1..]).board);
    }
  }

  /** A finished game is final: no click changes anything. */
  lemma {:induction false} FinishedGameIsFinal(g: Game, xs: seq<int>)
    requires g.board.Valid() && g.status != InProgress
    requires forall i :: 0 <= i < |xs| ==> 0 <= xs[i] < g.board.width
    ensures Play(g, xs) == g
    decreases |xs|
  {
    if |xs| > 0 {
      FinishedGameIsFinal(Move(g, xs[0]), xs[1..]);
    }
  }
}
