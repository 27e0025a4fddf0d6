/**
 * Whole games played through `Game.Click`, `Game.JumpTo` and `Game.ResetGame`,
 * as a player of the component would play them.
 */
module Scenarios {
  import opened Wrappers
  import opened Winner
  import opened BoardRules
  import opened GameHistory

  /**
   * Squares `a`, `c` and `d` hold one and the same mark: `Complete` for
   * indices written out as constants. The scenarios use it instead of
   * `Complete(b, Lines[k])` because the solver then needs no case split over
   * `k`, which keeps the cost of a whole game within the verifier's limits.
   */
  predicate Same(b: Board, a: nat, c: nat, d: nat)
    requires a < 9 && c < 9 && d < 9
  {
    b[a] != Empty && b[a] == b[c] && b[a] == b[d]
  }

  /**
   * None of the eight lines of a board, written out square by square, is
   * complete. It says what `WinnerOfSpec` calls "no line of `Lines` is
   * complete", unrolled for the same reason as `Same`; `NoWinner` connects the two.
   */
  predicate NoLineComplete(b: Board) {
    !Same(b, 0, 1, 2) && !Same(b, 3, 4, 5) && !Same(b, 6, 7, 8) && !Same(b, 0, 3, 6) &&
    !Same(b, 1, 4, 7) && !Same(b, 2, 5, 8) && !Same(b, 0, 4, 8) && !Same(b, 2, 4, 6)
  }

  /** A board none of whose lines is complete has no winner. */
  lemma NoWinner(b: Board)
    requires NoLineComplete(b)
    ensures WinnerOf(b).winner == Empty
  {
    forall k | 0 <= k < |Lines|
      ensures !Complete(b, Lines[k])
    {
      assert k == 0 || k == 1 || k == 2 || k == 3 || k == 4 || k == 5 || k == 6 || k == 7;
    }
  }

  /**
   * One click on an empty square of a board without a complete line: it is
   * accepted, square `i` gets the mark of the player to move and the turn passes.
   */
  method Play(g: Game, i: nat)
    requires g.Valid() && i < 9 && NoLineComplete(g.CurrentSquares()) && g.CurrentSquares()[i] == Empty
    modifies g
    ensures g.Valid() && g.currentMove == old(g.currentMove) + 1 && |g.history| == g.currentMove + 1
    ensures g.CurrentSquares() == old(g.CurrentSquares())[i := MarkFor(old(g.XIsNext()))]
    ensures g.XIsNext() == !old(g.XIsNext())
    ensures g.history == old(g.history[..g.currentMove + 1]) + [g.CurrentSquares()]
  {
    NoWinner(g.CurrentSquares());
    g.Click(i);
  }

  /** A click on a board that already has a winner leaves the game as it was. */
  method Ignored(g: Game, i: nat)
    requires g.Valid() && i < 9 && WinnerOf(g.CurrentSquares()).winner != Empty
    modifies g
    ensures g.history == old(g.history) && g.currentMove == old(g.currentMove)
  {
    g.Click(i);
  }

  /** A complete top row is the reported line, whatever else is complete. */
  lemma TopRowWins(b: Board)
    requires Same(b, 0, 1, 2)
    ensures WinnerOf(b) == WinnerResult(b[0], Some(Triple(0, 1, 2)))
  {
    assert Complete(b, Lines[0]);
  }

  /** A complete main diagonal is the reported line when no row or column is complete. */
  lemma DiagonalWins(b: Board)
    requires !Same(b, 0, 1, 2) && !Same(b, 3, 4, 5) && !Same(b, 6, 7, 8)
    requires !Same(b, 0, 3, 6) && !Same(b, 1, 4, 7) && !Same(b, 2, 5, 8)
    requires Same(b, 0, 4, 8)
    ensures WinnerOf(b) == WinnerResult(b[0], Some(Triple(0, 4, 8)))
  {
    forall j | 0 <= j < 6
      ensures !Complete(b, Lines[j])
    {
      assert j == 0 || j == 1 || j == 2 || j == 3 || j == 4 || j == 5;
    }
    assert Complete(b, Lines[6]);
  }

  /** A board whose nine squares, taken one by one, are all set is full. */
  lemma Filled(b: Board)
    requires b[0] != Empty && b[1] != Empty && b[2] != Empty && b[3] != Empty && b[4] != Empty
    requires b[5] != Empty && b[6] != Empty && b[7] != Empty && b[8] != Empty
    ensures IsFull(b)
  {
    forall k | 0 <= k < 9
      ensures b[k] != Empty
    {
      assert k == 0 || k == 1 || k == 2 || k == 3 || k == 4 || k == 5 || k == 6 || k == 7 || k == 8;
    }
  }

  /** The first four moves of a game that ends in a tie: X 0, O 2, X 1, O 3. */
  method TieOpening() returns (g: Game)
    ensures fresh(g) && g.Valid() && g.currentMove == 4
    ensures g.CurrentSquares() == EmptyBoard[0 := X][2 := O][1 := X][3 := O]
  {
    g := new Game();
    Play(g, 0);
    Play(g, 2);
    Play(g, 1);
    Play(g, 3);
  }

  /** X 5, O 4, X 6, O 7, X 8 then fill the board without completing a line: a tie. */
  method TieGame() returns (s: Status)
    ensures s == Tie
  {
    var g := TieOpening();
    Play(g, 5);
    Play(g, 4);
    Play(g, 6);
    Play(g, 7);
    Play(g, 8);
    NoWinner(g.CurrentSquares());
    Filled(g.CurrentSquares());
    s := StatusOf(g.CurrentSquares(), g.XIsNext());
  }

  /**
   * X 0, O 3, X 4, O 1, X 8 wins on the diagonal 0, 4, 8; a further click on
   * the empty square 2 is rejected and adds no move.
   */
  method DiagonalWin() returns (w: WinnerResult, moves: nat, s: Status)
    ensures w == WinnerResult(X, Some(Triple(0, 4, 8)))
    ensures moves == 5 && s == Won(X)
  {
    var g := new Game();
    Play(g, 0);
    Play(g, 3);
    Play(g, 4);
    Play(g, 1);
    Play(g, 8);
    var b := g.CurrentSquares();
    DiagonalWins(b);
    w := CalculateWinner(b);
    s := StatusOf(b, g.XIsNext());
    Ignored(g, 2);
    moves := |g.history| - 1;
  }

  /** X 0, O 4, X 1, O 3, X 8 completes no line: O is to move. */
  method NoWinAfterFive() returns (s: Status)
    ensures s == Turn(O)
  {
    var g := new Game();
    Play(g, 0);
    Play(g, 4);
    Play(g, 1);
    Play(g, 3);
    Play(g, 8);
    NoWinner(g.CurrentSquares());
    assert g.CurrentSquares()[2] == Empty;
    s := StatusOf(g.CurrentSquares(), g.XIsNext());
  }

  /** The first four moves of a game won on two lines at once: X 1, O 4, X 2, O 5. */
  method DoubleLineOpening() returns (g: Game)
    ensures fresh(g) && g.Valid() && g.currentMove == 4
    ensures g.CurrentSquares() == EmptyBoard[1 := X][4 := O][2 := X][5 := O]
  {
    g := new Game();
    Play(g, 1);
    Play(g, 4);
    Play(g, 2);
    Play(g, 5);
  }

  /**
   * X 3, O 7, X 6, O 8, X 0: the last move completes both the top row and the
   * left column, and the row, scanned first, is the reported line.
   */
  method DoubleLineWin() returns (w: WinnerResult, column: bool)
    ensures w == WinnerResult(X, Some(Triple(0, 1, 2))) && column
  {
    var g := DoubleLineOpening();
    Play(g, 3);
    Play(g, 7);
    Play(g, 6);
    Play(g, 8);
    Play(g, 0);
    TopRowWins(g.CurrentSquares());
    column := Same(g.CurrentSquares(), 0, 3, 6);
    w := CalculateWinner(g.CurrentSquares());
  }

  /**
   * Three moves, a jump back to move 1, and a new move there: the history is
   * cut to three snapshots and the old second move is gone.
   */
  method BranchFromPast() returns (length: nat, replaced: bool, cursor: nat)
    ensures length == 3 && replaced && cursor == 2
  {
    var g := new Game();
    Play(g, 0);
    Play(g, 4);
    Play(g, 8);
    g.JumpTo(1);
    Play(g, 2);
    length := |g.history|;
    replaced := g.history[2][2] == O && g.history[2][4] == Empty;
    cursor := g.currentMove;
  }

  /** A reset after moves gives back the single empty board with X to move. */
  method ResetAfterPlay() returns (length: nat, empty: bool, xToMove: bool)
    ensures length == 1 && empty && xToMove
  {
    var g := new Game();
    Play(g, 4);
    Play(g, 0);
    g.ResetGame();
    length := |g.history|;
    empty := g.CurrentSquares() == EmptyBoard;
    xToMove := g.XIsNext();
  }
}
