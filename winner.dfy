/**
 * The squares of the board and the win detector `calculateWinner`
 * (tic-tac-toe.tsx, lines 244-263).
 */
module Winner {
  import opened Wrappers

  /** The content of one square: `null`, "X" or "O" in the component. */
  datatype Cell = Empty | X | O

  /** A board snapshot: the nine squares, row by row. */
  type Board = b: seq<Cell> | |b| == 9
    witness [Empty, Empty, Empty, Empty, Empty, Empty, Empty, Empty, Empty]

  /** `Array(9).fill(null)`. */
  const EmptyBoard: Board := [Empty, Empty, Empty, Empty, Empty, Empty, Empty, Empty, Empty]

  /** Three square indices, the `[a, b, c]` of a line. */
  datatype Triple = Triple(a: nat, b: nat, c: nat)

  /** A triple of indices into a board. */
  type Line = l: Triple | l.a < 9 && l.b < 9 && l.c < 9
    witness Triple(0, 1, 2)

  /** The eight winning lines, in the order in which they are scanned. */
  const Lines: seq<Line> := [
    Triple(0, 1, 2), Triple(3, 4, 5), Triple(6, 7, 8),  // rows
    Triple(0, 3, 6), Triple(1, 4, 7), Triple(2, 5, 8),  // columns
    Triple(0, 4, 8), Triple(2, 4, 6)                    // diagonals
  ]

  /** The test of the scan: the first square of the line is set and the other two hold the same mark. */
  predicate Complete(b: Board, l: Line) {
    b[l.a] != Empty && b[l.a] == b[l.b] && b[l.a] == b[l.c]
  }

  /** `{ winner, line }`: `Empty` stands for a null winner, `None` for a null line. */
  datatype WinnerResult = WinnerResult(winner: Cell, line: Option<Line>)

  /**
   * The scan of `Lines` from position `i` on. Whatever it returns, the winner
   * is null exactly when the line is, and a returned line has the winner in
   * all three of its squares.
   */
  function ScanFrom(b: Board, i: nat): (r: WinnerResult)
    requires i <= |Lines|
    ensures r.winner == Empty <==> r.line == None
    ensures r.line.Some? ==> Complete(b, r.line.value) && r.winner == b[r.line.value.a]
    decreases |Lines| - i
  {
    if i == |Lines| then
      WinnerResult(Empty, None)
    else if Complete(b, Lines[i]) then
      WinnerResult(b[Lines[i].a], Some(Lines[i]))
    else
      ScanFrom(b, i + 1)
  }

  /**
   * The scan from `i` returns no line exactly when no line from `i` on is
   * complete; a returned line is one of those lines, and it is the first
   * complete one.
   */
  lemma {:induction false} ScanFromSpec(b: Board, i: nat)
    requires i <= |Lines|
    ensures ScanFrom(b, i).line == None <==> forall k :: i <= k < |Lines| ==> !Complete(b, Lines[k])
    ensures ScanFrom(b, i).line.Some? ==> ScanFrom(b, i).line.value in Lines[i..]
    ensures forall k ::
      (i <= k < |Lines| && Complete(b, Lines[k]) && forall j :: i <= j < k ==> !Complete(b, Lines[j]))
      ==> ScanFrom(b, i).line == Some(Lines[k])
    decreases |Lines| - i
  {
    if i < |Lines| && !Complete(b, Lines[i]) {
      ScanFromSpec(b, i + 1);
      assert Lines[i + 1..] == Lines[i..][1..];
    }
  }

  /** What `calculateWinner` returns: the scan of all eight lines. */
  function WinnerOf(b: Board): (r: WinnerResult)
    ensures r.winner == Empty <==> r.line == None
    ensures r.line.Some? ==>
      r.winner != Empty &&
      b[r.line.value.a] == r.winner && b[r.line.value.b] == r.winner && b[r.line.value.c] == r.winner
  {
    ScanFrom(b, 0)
  }

  /**
   * The result of `calculateWinner` is null exactly when no line is complete;
   * a returned line is one of the eight, and the first complete one in the
   * scan order.
   */
  lemma WinnerOfSpec(b: Board)
    ensures WinnerOf(b).line == None <==> forall k :: 0 <= k < |Lines| ==> !Complete(b, Lines[k])
    ensures WinnerOf(b).line.Some? ==> WinnerOf(b).line.value in Lines
    ensures forall k ::
      (0 <= k < |Lines| && Complete(b, Lines[k]) && forall j :: 0 <= j < k ==> !Complete(b, Lines[j]))
      ==> WinnerOf(b).line == Some(Lines[k])
  {
    ScanFromSpec(b, 0);
    assert Lines[0..] == Lines;
  }

  /** `calculateWinner` itself: the `for` loop over `lines` with its early return. */
  method CalculateWinner(squares: Board) returns (r: WinnerResult)
    ensures r == WinnerOf(squares)
  {
    var i := 0;
    while i < |Lines|
      invariant 0 <= i <= |Lines|
      invariant ScanFrom(squares, i) == WinnerOf(squares)
    {
      var line := Lines[i];
      var a, b, c := line.a, line.b, line.c;
      if squares[a] != Empty && squares[a] == squares[b] && squares[a] == squares[c] {
        return WinnerResult(squares[a], Some(line));
      }
      i := i + 1;
    }
    return WinnerResult(Empty, None);
  }
}
