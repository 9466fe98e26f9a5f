/**
 * The winning-line table (`winConditions` in assets/scripts/game.js, `_winConditions`
 * in assets/scripts/app.js) and the game-over verdict both engines compute from it:
 * lines are scanned in table order and, within a line, players in seat order; the first
 * line filled with one player's symbol wins; otherwise a full board is a tie.
 * Cells are generic so that the character cells of game.js and the string cells of
 * app.js share one definition.
 */
module Rules {
  import opened Wrappers

  /** A named line of three cell indexes. */
  datatype Line = Line(name: string, a: int, b: int, c: int)

  const WinConditions: seq<Line> := [
    Line("horizontal-top", 0, 1, 2),
    Line("horizontal-center", 3, 4, 5),
    Line("horizontal-bottom", 6, 7, 8),
    Line("vertical-left", 0, 3, 6),
    Line("vertical-center", 1, 4, 7),
    Line("vertical-right", 2, 5, 8),
    Line("diagonal-left", 0, 4, 8),
    Line("diagonal-right", 2, 4, 6)
  ]

  const LineCount := 8

  predicate InRange(line: Line) {
    0 <= line.a < 9 && 0 <= line.b < 9 && 0 <= line.c < 9
  }

  /** The cells of a line, in the order the table lists them. */
  function Cells(line: Line): seq<int> {
    [line.a, line.b, line.c]
  }

  /** Every line of the table names three distinct cells of a 3x3 board. */
  lemma TableWellFormed(l: int)
    requires 0 <= l < LineCount
    ensures |WinConditions| == LineCount && InRange(WinConditions[l])
    ensures WinConditions[l].a != WinConditions[l].b && WinConditions[l].b != WinConditions[l].c
    ensures WinConditions[l].a != WinConditions[l].c
  {
  }

  /** Player `p` of `symbols` fills line `l` of `board` (`placedSymbols.every(...)`). */
  predicate Won<T(==)>(board: seq<T>, symbols: seq<T>, l: int, p: int)
    requires |board| == 9 && 0 <= l < LineCount && 0 <= p < |symbols|
  {
    TableWellFormed(l);
    var line := WinConditions[l];
    board[line.a] == symbols[p] && board[line.b] == symbols[p] && board[line.c] == symbols[p]
  }

  /** No line is filled by any player. */
  predicate NoWin<T(==)>(board: seq<T>, symbols: seq<T>)
    requires |board| == 9
  {
    forall l, p :: 0 <= l < LineCount && 0 <= p < |symbols| ==> !Won(board, symbols, l, p)
  }

  /** (l, p) is the first filled (line, player) pair in scan order. */
  predicate IsFirstWin<T(==)>(board: seq<T>, symbols: seq<T>, l: int, p: int)
    requires |board| == 9
  {
    && 0 <= l < LineCount && 0 <= p < |symbols|
    && Won(board, symbols, l, p)
    && (forall l', q :: 0 <= l' < l && 0 <= q < |symbols| ==> !Won(board, symbols, l', q))
    && (forall q :: 0 <= q < p ==> !Won(board, symbols, l, q))
  }

  /** `board.every(pos => pos != EMPTY_CELL)`. */
  predicate Full<T(==)>(board: seq<T>, empty: T) {
    forall i :: 0 <= i < |board| ==> board[i] != empty
  }

  /** The first player, from seat `p` on, who fills line `l`. */
  function WinnerOfLine<T(==)>(board: seq<T>, symbols: seq<T>, l: int, p: nat): (r: Option<nat>)
    requires |board| == 9 && 0 <= l < LineCount && p <= |symbols|
    decreases |symbols| - p
    ensures r.Some? ==> p <= r.value < |symbols| && Won(board, symbols, l, r.value)
    ensures r.Some? ==> forall q :: p <= q < r.value ==> !Won(board, symbols, l, q)
    ensures r.None? ==> forall q :: p <= q < |symbols| ==> !Won(board, symbols, l, q)
  {
    if p == |symbols| then None
    else if Won(board, symbols, l, p) then Some(p)
    else WinnerOfLine(board, symbols, l, p + 1)
  }

  /** The scan of the lines from `l` on: the first (line, player) pair that is filled. */
  function FindWin<T(==)>(board: seq<T>, symbols: seq<T>, l: nat): (r: Option<(nat, nat)>)
    requires |board| == 9 && l <= LineCount
    decreases LineCount - l
    ensures r.Some? ==> l <= r.value.0 < LineCount && r.value.1 < |symbols|
    ensures r.Some? ==> Won(board, symbols, r.value.0, r.value.1)
    ensures r.Some? ==> forall l', q :: l <= l' < r.value.0 && 0 <= q < |symbols| ==> !Won(board, symbols, l', q)
    ensures r.Some? ==> forall q :: 0 <= q < r.value.1 ==> !Won(board, symbols, r.value.0, q)
    ensures r.None? ==> forall l', q :: l <= l' < LineCount && 0 <= q < |symbols| ==> !Won(board, symbols, l', q)
  {
    if l == LineCount then None
    else match WinnerOfLine(board, symbols, l, 0)
      case Some(p) => Some((l, p))
      case None => FindWin(board, symbols, l + 1)
  }

  /** What `checkForGameOver` concludes about a board. */
  datatype Verdict = Win(line: nat, player: nat) | Tie | Ongoing

  /** The game-over verdict: first filled line in scan order, else a tie on a full board. */
  function Judge<T(==)>(board: seq<T>, symbols: seq<T>, empty: T): (v: Verdict)
    requires |board| == 9
    ensures v.Win? ==> IsFirstWin(board, symbols, v.line, v.player)
    ensures v.Win? <==> !NoWin(board, symbols)
    ensures v.Tie? <==> NoWin(board, symbols) && Full(board, empty)
    ensures v.Ongoing? <==> NoWin(board, symbols) && !Full(board, empty)
  {
    match FindWin(board, symbols, 0)
    case Some((l, p)) => Win(l, p)
    case None => if Full(board, empty) then Tie else Ongoing
  }

  /** A scan that stops at (l, p) has found the verdict's winner. */
  lemma FirstWinIsVerdict<T>(board: seq<T>, symbols: seq<T>, empty: T, l: int, p: int)
    requires |board| == 9 && IsFirstWin(board, symbols, l, p)
    ensures Judge(board, symbols, empty) == Win(l, p)
  {
  }

  /**
   * When players hold distinct non-empty symbols and nobody had won, a win that appears
   * after one symbol is written into one empty cell belongs to the player who wrote it,
   * on a line through that cell.
   */
  lemma WinnerIsMover<T>(board: seq<T>, symbols: seq<T>, empty: T, i: int, k: int)
    requires |board| == 9 && 0 <= i < 9 && board[i] == empty && 0 <= k < |symbols|
    requires forall p, q :: 0 <= p < q < |symbols| ==> symbols[p] != symbols[q]
    requires NoWin(board, symbols)
    ensures Judge(board[i := symbols[k]], symbols, empty).Win? ==>
              Judge(board[i := symbols[k]], symbols, empty).player == k &&
              i in Cells(WinConditions[Judge(board[i := symbols[k]], symbols, empty).line])
  {
    var after := board[i := symbols[k]];
    var v := Judge(after, symbols, empty);
    if v.Win? {
      var line := WinConditions[v.line];
      TableWellFormed(v.line);
      if i !in Cells(line) {
        assert Won(board, symbols, v.line, v.player);
        assert false;
      }
      assert after[i] == symbols[k] == symbols[v.player];
      if v.player != k {
        assert false;
      }
    }
  }
}
