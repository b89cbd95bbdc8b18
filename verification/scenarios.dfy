/** Concrete positions that show the ordering of the end-of-game tests. */
module Scenarios {
  import opened Grid
  import opened Gravity
  import opened WinCheck
  import opened Counting
  import opened Engine

  /** A 4 by 4 position, second player to move, one empty cell left at the
      top of column 0; dropping there fills the board and completes the top
      row for the second player:

          .  B  B  B
          B  A  A  A
          A  B  A  A
          A  A  B  B

      The position satisfies the invariant every reachable game keeps, but
      no game from an empty board reaches it: the first player has one more
      piece, so moved last, yet every column's top piece is the second
      player's. It isolates the order of the two end-of-game tests.
   */
  function LastCellPosition(): Game
  {
    var a := Occupied(P1);
    var b := Occupied(P2);
    Game(Board(4, 4, [[Empty, b, b, b], [b, a, a, a], [a, b, a, a], [a, a, b, b]]), P2, false, InProgress)
  }

  /** The same position, cell by cell. */
  function LastCellPattern(y: int, x: int): Cell
  {
    if y == 0 && x == 0 then Empty
    else if y == 0 || (y == 1 && x == 0) || (y == 2 && x == 1) || (y == 3 && x >= 2) then Occupied(P2)
    else Occupied(P1)
  }

  ghost predicate LastCellBoard(bd: Board)
  {
    && bd.Valid() && bd.height == 4 && bd.width == 4
    && forall y, x :: 0 <= y < 4 && 0 <= x < 4 ==> bd.At(y, x) == LastCellPattern(y, x)
  }

  lemma LastCellPositionMatches(g: Game)
    requires g == LastCellPosition()
    ensures LastCellBoard(g.board)
  {
    forall y, x | 0 <= y < 4 && 0 <= x < 4
      ensures g.board.At(y, x) == LastCellPattern(y, x)
    {
      assert y == 0 || y == 1 || y == 2 || y == 3;
      assert x == 0 || x == 1 || x == 2 || x == 3;
    }
  }

  lemma NoLineOnLastCellBoard(bd: Board, p: Player)
    requires LastCellBoard(bd)
    ensures !HasFour(bd, p)
  {
    forall y, x, d | 0 <= y < 4 && 0 <= x < 4
      ensures !LineAt(bd, p, y, x, d)
    {
      LineAtIsRun(bd, p, y, x, d);
    }
  }

  lemma LastCellPositionBalanced(g: Game)
    requires g == LastCellPosition()
    ensures Pieces(g.board, P1) == 8
    ensures Pieces(g.board, P2) == 7
  {
    var a := Occupied(P1);
    var b := Occupied(P2);
    assert CountRow([a, a, b, b], P1) == 2;
    assert CountRow([a, b, a, a], P1) == 3;
    assert CountRow([b, a, a, a], P1) == 3;
    assert CountRow([Empty, b, b, b], P1) == 0;
    assert CountRow([a, a, b, b], P2) == 2;
    assert CountRow([a, b, a, a], P2) == 1;
    assert CountRow([b, a, a, a], P2) == 1;
    assert CountRow([Empty, b, b, b], P2) == 3;
    assert g.board.rows[1..][1..][1..][1..] == [];
  }

  lemma LastCellPositionConsistent(g: Game)
    requires g == LastCellPosition()
    ensures Consistent(g)
  {
    LastCellPositionMatches(g);
    NoLineOnLastCellBoard(g.board, P1);
    NoLineOnLastCellBoard(g.board, P2);
    LastCellPositionBalanced(g);
  }

  /** The drop into column 0 lands on the last empty cell, fills the board
      and completes the top row for the second player, and for nobody else. */
  lemma LastDropFillsAndAligns(bd: Board)
    requires LastCellBoard(bd)
    ensures FindSpot(bd, 0) == Some(0)
    ensures Place(bd, 0, 0, P2).IsFull()
    ensures LineAt(Place(bd, 0, 0, P2), P2, 0, 0, Horizontal)
    ensures !HasFour(Place(bd, 0, 0, P2), P1)
  {
    assert bd.At(0, 0) == Empty;
    NoLineOnLastCellBoard(bd, P1);
    PlaceKeepsOthersLines(bd, 0, 0, P2, P1);
  }

  /** The position satisfies the game invariant `Consistent` (settled
      columns, balanced piece counts, no line for either player), yet the
      last drop, which makes four in a row, is reported as a tie and not as
      a win. The line belongs to the second player only: the check for the
      first player finds nothing. */
  lemma TieReportedOverFour(g: Game)
    requires g == LastCellPosition()
    ensures Consistent(g)
    ensures Move(g, 0).status == Tied
    ensures HasFour(Move(g, 0).board, P2)
    ensures !CheckForWinner(Move(g, 0).board, P1)
  {
    LastCellPositionConsistent(g);
    LastCellPositionMatches(g);
    LastDropFillsAndAligns(g.board);
    assert Move(g, 0).board == Place(g.board, 0, 0, P2);
  }

  /** A player whose pieces all lie in column `c`, fewer than four of them
      stacked from the bottom, has no line. */
  lemma OneShortStackNoFour(b: Board, p: Player, c: int, n: nat)
    requires b.Valid() && n < 4
    requires forall y, x :: b.Owns(p, y, x) ==> x == c && y >= b.height - n
    ensures !HasFour(b, p)
  {
    forall y, x, d | 0 <= y < b.height && 0 <= x < b.width
      ensures !LineAt(b, p, y, x, d)
    {
      LineAtIsRun(b, p, y, x, d);
    }
  }

  /** The cells of the default 6 by 7 board in the game where the first
      player stacks column 0 and the second player stacks column 6. */
  function TowerCell(n1: nat, n2: nat, y: int, x: int): Cell
  {
    if x == 0 && y >= 6 - n1 then Occupied(P1)
    else if x == 6 && y >= 6 - n2 then Occupied(P2)
    else Empty
  }

  ghost predicate Towers(b: Board, n1: nat, n2: nat)
  {
    && b.Valid() && b.height == 6 && b.width == 7
    && forall y, x :: 0 <= y < 6 && 0 <= x < 7 ==> b.At(y, x) == TowerCell(n1, n2, y, x)
  }

  /** The landing row of a column holding `n` pieces at the bottom. */
  lemma TowerSpot(b: Board, n1: nat, n2: nat, x: int)
    requires Towers(b, n1, n2) && n1 < 6 && n2 < 6 && (x == 0 || x == 6)
    ensures FindSpot(b, x) == Some(if x == 0 then 5 - n1 else 5 - n2)
  {
    var n := if x == 0 then n1 else n2;
    assert b.At(5 - n, x) == Empty;
    assert FindSpot(b, x).Some?;
  }

  /** The first player's drop on column 0 while it holds fewer than three
      pieces there passes the turn. */
  lemma FirstStacks(g: Game, n: nat)
    requires n < 3 && Towers(g.board, n, n) && g == Game(g.board, P1, false, InProgress)
    ensures Move(g, 0) == Game(Move(g, 0).board, P2, false, InProgress)
    ensures Towers(Move(g, 0).board, n + 1, n)
  {
    TowerSpot(g.board, n, n, 0);
    var b' := Place(g.board, 5 - n, 0, P1);
    assert Towers(b', n + 1, n);
    assert b'.At(0, 3) == Empty;
    OneShortStackNoFour(b', P1, 0, n + 1);
  }

  /** The second player's reply on column 6 passes the turn back. */
  lemma SecondStacks(g: Game, n: nat)
    requires n < 3 && Towers(g.board, n + 1, n) && g == Game(g.board, P2, false, InProgress)
    ensures Move(g, 6) == Game(Move(g, 6).board, P1, false, InProgress)
    ensures Towers(Move(g, 6).board, n + 1, n + 1)
  {
    TowerSpot(g.board, n + 1, n, 6);
    var b' := Place(g.board, 5 - n, 6, P2);
    assert Towers(b', n + 1, n + 1);
    assert b'.At(0, 3) == Empty;
    OneShortStackNoFour(b', P2, 6, n + 1);
  }

  /** The fourth piece on column 0 wins for the first player. */
  lemma FirstCompletesColumn(g: Game)
    requires Towers(g.board, 3, 3) && g == Game(g.board, P1, false, InProgress)
    ensures Move(g, 0).status == Won(P1) && Move(g, 0).gameOver
  {
    TowerSpot(g.board, 3, 3, 0);
    var b' := Place(g.board, 2, 0, P1);
    assert Towers(b', 4, 3);
    assert b'.At(0, 3) == Empty;
    assert LineAt(b', P1, 2, 0, Vertical);
  }

  /** `k` rounds of the first player on column 0 and the second on column 6. */
  function Rounds(k: nat): (xs: seq<int>)
    ensures |xs| == 2 * k
    ensures forall i :: 0 <= i < |xs| ==> xs[i] == (if i % 2 == 0 then 0 else 6)
  {
    if k == 0 then [] else Rounds(k - 1) + [0, 6]
  }

  lemma PlayOne(g: Game, x: int)
    requires g.board.Valid() && 0 <= x < g.board.width
    ensures Play(g, [x]) == Move(g, x)
  {
    assert [x][1..] == [];
  }

  /** One round: the first player on column 0, the second on column 6. */
  lemma OneRound(g: Game, n: nat)
    requires n < 3 && Towers(g.board, n, n) && g == Game(g.board, P1, false, InProgress)
    ensures Towers(Play(g, [0, 6]).board, n + 1, n + 1)
    ensures Play(g, [0, 6]) == Game(Play(g, [0, 6]).board, P1, false, InProgress)
  {
    FirstStacks(g, n);
    var g1 := Move(g, 0);
    SecondStacks(g1, n);
    assert [0, 6] == [0] + [6];
    PlayAppend(g, [0], [6]);
    PlayOne(g, 0);
    PlayOne(g1, 6);
  }

  lemma {:induction false} TowersAfterRounds(k: nat)
    requires k <= 3
    ensures var g := Play(NewGame(), Rounds(k));
      Towers(g.board, k, k) && g == Game(g.board, P1, false, InProgress)
  {
    var g0 := NewGame();
    if k == 0 {
      assert Towers(g0.board, 0, 0);
    } else {
      TowersAfterRounds(k - 1);
      PlayAppend(g0, Rounds(k - 1), [0, 6]);
      OneRound(Play(g0, Rounds(k - 1)), k - 1);
    }
  }

  /** The clicks of the vertical win, as three rounds and one more drop.
      The literal reaches the lemma through a parameter so that the
      verifier does not evaluate it eagerly. */
  lemma WinningColumns(xs: seq<int>)
    requires xs == [0, 6, 0, 6, 0, 6, 0]
    ensures xs == Rounds(3) + [0]
  {
  }

  /** After three rounds, the first player's fourth drop on column 0 wins.
      The round count is a parameter fixed to 3 by the precondition, which
      keeps the verifier from evaluating the whole game at once. */
  lemma FourthDropWins(k: nat)
    requires k == 3
    ensures Move(Play(NewGame(), Rounds(k)), 0).status == Won(P1)
  {
    TowersAfterRounds(k);
    FirstCompletesColumn(Play(NewGame(), Rounds(k)));
  }

  /** On the default 6 by 7 board, the first player drops four times into column 0
      while the second player answers in column 6; the fourth drop wins
      vertically for the first player. */
  lemma VerticalWinOnDefaultBoard(xs: seq<int>)
    requires xs == [0, 6, 0, 6, 0, 6, 0]
    ensures Play(NewGame(), xs).status == Won(P1)
  {
    var k: nat := 3;
    WinningColumns(xs);
    FourthDropWins(k);
    var g0 := NewGame();
    PlayAppend(g0, Rounds(k), [0]);
    PlayOne(Play(g0, Rounds(k)), 0);
  }
}
