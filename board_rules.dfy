/**
 * The game rules inside the `Board` component (tic-tac-toe.tsx, lines 42-71):
 * the move rule of `handleClick` and the status derived from a snapshot.
 */
module BoardRules {
  import opened Wrappers
  import opened Winner

  /** The mark written for the player to move: "X" when `xIsNext`, "O" otherwise. */
  function MarkFor(xIsNext: bool): (m: Cell)
    ensures m != Empty && (m == X <==> xIsNext)
  {
    if xIsNext then X else O
  }

  /** A click on square `i` is accepted: there is no winner yet and the square is empty. */
  predicate Accepts(b: Board, i: nat)
    requires i < 9
  {
    WinnerOf(b).winner == Empty && b[i] == Empty
  }

  /**
   * `handleClick(i)`: a click on a board that has a winner or on an occupied
   * square yields nothing (`onPlay` is not called). Otherwise the board is
   * copied and the copy differs from it in square `i` alone, which goes from
   * empty to the mark of the player to move.
   */
  method HandleClick(squares: Board, xIsNext: bool, i: nat) returns (next: Option<Board>)
    requires i < 9
    ensures next.None? <==> !Accepts(squares, i)
    ensures next.Some? ==> squares[i] == Empty && next.value[i] == MarkFor(xIsNext)
    ensures next.Some? ==> forall j :: 0 <= j < 9 && j != i ==> next.value[j] == squares[j]
  {
    var w := CalculateWinner(squares);
    if w.winner != Empty || squares[i] != Empty {
      return None;
    }
    var nextSquares := new Cell[9](k requires 0 <= k < 9 => squares[k]);
    if xIsNext {
      nextSquares[i] := X;
    } else {
      nextSquares[i] := O;
    }
    next := Some(nextSquares[..]);
  }

  /** `squares.every((square) => square !== null)`. */
  predicate IsFull(b: Board) {
    forall k :: 0 <= k < 9 ==> b[k] != Empty
  }

  /** The three statuses the board displays. */
  datatype Status = Won(mark: Cell) | Tie | Turn(next: Cell)

  /** The status of a snapshot, in the order the component tests it: winner, then tie, then turn. */
  function StatusOf(b: Board, xIsNext: bool): Status {
    var w := WinnerOf(b).winner;
    if w != Empty then Won(w)
    else if IsFull(b) then Tie
    else Turn(MarkFor(xIsNext))
  }

  /** A win is reported exactly when some line is complete, and then for the mark filling that line. */
  lemma StatusWon(b: Board, xIsNext: bool)
    ensures StatusOf(b, xIsNext).Won? <==> exists k :: 0 <= k < |Lines| && Complete(b, Lines[k])
    ensures StatusOf(b, xIsNext).Won? ==>
      StatusOf(b, xIsNext).mark != Empty &&
      exists k :: 0 <= k < |Lines| && Complete(b, Lines[k]) && b[Lines[k].a] == StatusOf(b, xIsNext).mark
  {
    if StatusOf(b, xIsNext).Won? {
      var l := WinnerOf(b).line.value;
      var k :| 0 <= k < |Lines| && Lines[k] == l;
      assert Complete(b, Lines[k]);
    }
  }

  /** A tie is reported exactly when no line is complete and every square is set. */
  lemma StatusTie(b: Board, xIsNext: bool)
    ensures StatusOf(b, xIsNext) == Tie <==>
      (forall k :: 0 <= k < |Lines| ==> !Complete(b, Lines[k])) && IsFull(b)
  {
  }

  /** Some click is accepted exactly when the status is neither a win nor a tie. */
  lemma MoveAvailable(b: Board, xIsNext: bool)
    ensures (exists i :: 0 <= i < 9 && Accepts(b, i)) <==> StatusOf(b, xIsNext).Turn?
  {
    if StatusOf(b, xIsNext).Turn? {
      var i :| 0 <= i < 9 && b[i] == Empty;
      assert Accepts(b, i);
    }
  }
}
