/**
 * The state of the `Game` component (tic-tac-toe.tsx, lines 87-106): the
 * history of snapshots, the cursor `currentMove`, and the operations that
 * reassign them.
 */
module GameHistory {
  import opened Winner
  import opened BoardRules

  /** The number of squares of `s` holding `m`. */
  function Count(s: seq<Cell>, m: Cell): nat {
    if s == [] then 0 else (if s[0] == m then 1 else 0) + Count(s[1..], m)
  }

  /** Writing `m` over square `i` moves one square from the old content's count to `m`'s. */
  lemma {:induction false} CountUpdate(s: seq<Cell>, i: nat, m: Cell, c: Cell)
    requires i < |s|
    ensures Count(s[i := m], c) + (if s[i] == c then 1 else 0) == Count(s, c) + (if m == c then 1 else 0)
  {
    if i > 0 {
      assert s[i := m][1..] == s[1..][i - 1 := m];
      CountUpdate(s[1..], i - 1, m, c);
    } else {
      assert s[i := m][1..] == s[1..];
    }
  }

  /** "X" and "O" squares together never outnumber the squares. */
  lemma {:induction false} CountBound(s: seq<Cell>)
    ensures Count(s, X) + Count(s, O) <= |s|
  {
    if s != [] {
      CountBound(s[1..]);
    }
  }

  /** A sequence without `m` counts no `m`. */
  lemma {:induction false} CountAbsent(s: seq<Cell>, m: Cell)
    requires forall k :: 0 <= k < |s| ==> s[k] != m
    ensures Count(s, m) == 0
  {
    if s != [] {
      CountAbsent(s[1..], m);
    }
  }

  /**
   * `after` is what an accepted click on `before` produces when the cursor is
   * at `move`: one empty square of a board without a winner receives the mark
   * given by the parity of `move`.
   */
  ghost predicate IsMove(before: Board, after: Board, move: nat) {
    exists i :: 0 <= i < 9 && Accepts(before, i) && after == before[i := MarkFor(move % 2 == 0)]
  }

  /** A history that clicks on the board can build: it starts empty and each snapshot is a move from the one before. */
  ghost predicate Played(h: seq<Board>) {
    |h| > 0 && h[0] == EmptyBoard &&
    forall k :: 0 < k < |h| ==> IsMove(h[k - 1], h[k], k - 1)
  }

  /** Appending a move made at cursor `c` to the history cut after `c` keeps a played history. */
  lemma PlayedExtend(h: seq<Board>, c: nat, i: nat)
    requires Played(h) && c < |h| && i < 9 && Accepts(h[c], i)
    ensures Played(h[..c + 1] + [h[c][i := MarkFor(c % 2 == 0)]])
  {
    var h' := h[..c + 1] + [h[c][i := MarkFor(c % 2 == 0)]];
    forall k | 0 < k < |h'|
      ensures IsMove(h'[k - 1], h'[k], k - 1)
    {
      if k == c + 1 {
        assert Accepts(h'[k - 1], i);
      } else {
        assert h'[k - 1] == h[k - 1] && h'[k] == h[k];
      }
    }
  }

  /** In a played history, snapshot `k` holds `(k + 1) / 2` "X" marks and `k / 2` "O" marks. */
  lemma {:induction false} PlayedCounts(h: seq<Board>, k: nat)
    requires Played(h) && k < |h|
    ensures Count(h[k], X) == (k + 1) / 2 && Count(h[k], O) == k / 2
  {
    if k == 0 {
      CountAbsent(h[0], X);
      CountAbsent(h[0], O);
    } else {
      PlayedCounts(h, k - 1);
      var i :| 0 <= i < 9 && Accepts(h[k - 1], i) && h[k] == h[k - 1][i := MarkFor((k - 1) % 2 == 0)];
      CountUpdate(h[k - 1], i, MarkFor((k - 1) % 2 == 0), X);
      CountUpdate(h[k - 1], i, MarkFor((k - 1) % 2 == 0), O);
    }
  }

  /** A played history holds at most the empty board and nine moves. */
  lemma PlayedLength(h: seq<Board>)
    requires Played(h)
    ensures |h| <= 10
  {
    PlayedCounts(h, |h| - 1);
    CountBound(h[|h| - 1]);
  }

  /** In a played history, "X" is to move at cursor `c` exactly when both marks are equally many on its snapshot. */
  lemma TurnByCounts(h: seq<Board>, c: nat)
    requires Played(h) && c < |h|
    ensures c % 2 == 0 <==> Count(h[c], X) == Count(h[c], O)
  {
    PlayedCounts(h, c);
  }

  /** Every snapshot of a played history before the last one has no winner. */
  lemma PlayedNoEarlyWinner(h: seq<Board>, k: nat)
    requires Played(h) && k + 1 < |h|
    ensures WinnerOf(h[k]).winner == Empty
  {
    assert IsMove(h[k], h[k + 1], k);
  }

  /** The `Game` component's state. */
  class Game {
    var history: seq<Board>
    var currentMove: nat

    /** The cursor points into the history. */
    ghost predicate Valid()
      reads this
    {
      currentMove < |history|
    }

    /** The initial state: one empty board, cursor at 0. */
    constructor ()
      ensures Valid() && Played(history)
      ensures history == [EmptyBoard] && currentMove == 0
    {
      history := [EmptyBoard];
      currentMove := 0;
    }

    /** `xIsNext`: the parity of the cursor. */
    function XIsNext(): bool
      reads this
    {
      currentMove % 2 == 0
    }

    /** `currentSquares`: the snapshot under the cursor. */
    function CurrentSquares(): Board
      reads this
      requires Valid()
    {
      history[currentMove]
    }

    /**
     * `handlePlay(nextSquares)`: the history is cut after the cursor and
     * `nextSquares` appended; the cursor moves to the new last snapshot.
     */
    method HandlePlay(nextSquares: Board)
      requires Valid()
      modifies this
      ensures Valid()
      ensures history == old(history[..currentMove + 1]) + [nextSquares]
      ensures |history| == old(currentMove) + 2 && currentMove == |history| - 1
      ensures CurrentSquares() == nextSquares
      ensures forall k :: 0 <= k <= old(currentMove) ==> history[k] == old(history[k])
    {
      var nextHistory := history[..currentMove + 1] + [nextSquares];
      history := nextHistory;
      currentMove := |nextHistory| - 1;
    }

    /** `jumpTo(nextMove)`: only the cursor moves; callers pass indices of the history. */
    method JumpTo(nextMove: nat)
      requires Valid() && nextMove < |history|
      modifies this
      ensures Valid()
      ensures history == old(history) && currentMove == nextMove
      ensures CurrentSquares() == history[nextMove]
      ensures XIsNext() <==> nextMove % 2 == 0
    {
      currentMove := nextMove;
    }

    /** `resetGame()`: back to the initial state. */
    method ResetGame()
      modifies this
      ensures Valid() && Played(history)
      ensures history == [EmptyBoard] && currentMove == 0
    {
      history := [EmptyBoard];
      currentMove := 0;
    }

    /**
     * A click on square `i` of the displayed board: `Board.handleClick` with
     * `onPlay` bound to `handlePlay`. A rejected click changes nothing; an
     * accepted one appends the current snapshot with square `i` marked for
     * the player to move, after the cursor. Clicks keep a played history played.
     */
    method Click(i: nat)
      requires Valid() && i < 9
      modifies this
      ensures Valid()
      ensures !old(Accepts(CurrentSquares(), i)) ==>
        history == old(history) && currentMove == old(currentMove)
      ensures old(Accepts(CurrentSquares(), i)) ==>
        history == old(history[..currentMove + 1] + [CurrentSquares()[i := MarkFor(XIsNext())]]) &&
        currentMove == old(currentMove) + 1
      ensures old(Accepts(CurrentSquares(), i)) ==>
        CurrentSquares() == old(CurrentSquares()[i := MarkFor(XIsNext())]) && XIsNext() == !old(XIsNext())
      ensures old(Played(history)) ==> Played(history)
    {
      ghost var h, c := history, currentMove;
      var next := HandleClick(CurrentSquares(), XIsNext(), i);
      if next.Some? {
        assert next.value == h[c][i := MarkFor(c % 2 == 0)];
        HandlePlay(next.value);
        if Played(h) {
          PlayedExtend(h, c, i);
        }
      }
    }
  }
}
