/**
 * The older rules engine of assets/scripts/app.js: `Game.prototype` over string cells,
 * without player validation, score keeping, turn guard or reset, and with the turn
 * counter advanced before the placement. `Translator` is its copy of the codec.
 */
module App {
  import opened Wrappers
  import Codec
  import opened Rules
  import TicTacToe

  const EmptyCell: string := " "

  // ---------------------------------------------------------------- Translator

  datatype TranslatorError = UnparseablePlay(play: string) | UnparseableIndex(index: int)

  /** `Translator.toArrayPosition`. */
  function ToArrayPosition(play: string): (r: Result<int, TranslatorError>)
    ensures r.Ok? <==> Codec.IsBoardPosition(play)
    ensures r.Ok? ==> 0 <= r.value < 9
  {
    if !Codec.IsBoardPosition(play) then Err(UnparseablePlay(play))
    else Ok((Codec.UpperRow(play[0]) as int - 'A' as int) * 3 + (play[1] as int - '1' as int))
  }

  /** `Translator.toBoardPosition`. */
  function ToBoardPosition(index: int): (r: Result<string, TranslatorError>)
    ensures r.Ok? <==> 0 <= index < 9
    ensures r.Ok? ==> Codec.IsBoardPosition(r.value) && 'A' <= r.value[0] <= 'C'
  {
    if !(0 <= index <= 8) then Err(UnparseableIndex(index))
    else Ok([(index / 3 + 'A' as int) as char, (index % 3 + '1' as int) as char])
  }

  /** The Translator accepts and rejects exactly what game.js's codec does, with the same results. */
  lemma TranslatorMatchesCodec(play: string, index: int)
    ensures ToArrayPosition(play).Ok? == Codec.ToArrayPosition(play).Ok?
    ensures ToArrayPosition(play).Ok? ==> ToArrayPosition(play).value == Codec.ToArrayPosition(play).value
    ensures ToBoardPosition(index).Ok? == Codec.ToBoardPosition(index).Ok?
    ensures ToBoardPosition(index).Ok? ==> ToBoardPosition(index).value == Codec.ToBoardPosition(index).value
  {
  }

  /** The Translator's round trips over the nine cells. */
  lemma TranslatorRoundTrip(index: int, play: string)
    ensures 0 <= index < 9 ==> ToArrayPosition(ToBoardPosition(index).value) == Ok(index)
    ensures Codec.IsBoardPosition(play) ==>
              ToBoardPosition(ToArrayPosition(play).value) == Ok(Codec.Normalize(play))
  {
    TranslatorMatchesCodec(play, index);
    if 0 <= index < 9 {
      Codec.IndexRoundTrip(index);
      TranslatorMatchesCodec(ToBoardPosition(index).value, index);
    }
    if Codec.IsBoardPosition(play) {
      Codec.CoordinateRoundTrip(play);
      TranslatorMatchesCodec(play, ToArrayPosition(play).value);
    }
  }

  // ---------------------------------------------------------------- state

  /** `Player(name, symbol)`: any string is taken as a symbol. */
  datatype Player = Player(name: string, symbol: string)

  function Symbols(players: seq<Player>): (s: seq<string>)
    ensures |s| == |players| && forall i :: 0 <= i < |players| ==> s[i] == players[i].symbol
  {
    seq(|players|, i requires 0 <= i < |players| => players[i].symbol)
  }

  datatype State = State(
    board: seq<string>,
    players: seq<Player>,
    turn: nat,
    isOver: bool,
    winner: Option<nat>,          // seat of `_winner`
    winningRow: Option<string>)

  const EmptyBoard: seq<string> := [" ", " ", " ", " ", " ", " ", " ", " ", " "]

  /** `new Game(player1, player2)`. */
  function Initial(player1: Player, player2: Player): State {
    State(EmptyBoard, [player1, player2], 0, false, None, None)
  }

  /** What every reachable state satisfies (the players are never validated, so no more). */
  predicate Inv(s: State) {
    && |s.board| == 9 && |s.players| == 2
    && (s.winner.Some? <==> s.winningRow.Some?)
    && (s.winner.Some? ==> s.winner.value < 2 && s.isOver)
  }

  /** `_nextPlayer`: hands out seat `turn % 2` and counts the turn at once. */
  function NextPlayerSpec(s: State): (r: (State, Player))
    requires |s.players| == 2
    ensures r.0 == s.(turn := s.turn + 1)
    ensures r.1 == s.players[s.turn % 2]
  {
    (s.(turn := s.turn + 1), s.players[s.turn % 2])
  }

  /** One pass of the retry loop: the cell of a well-formed play naming an empty cell. */
  function Attempt(board: seq<string>, play: string): (r: Option<nat>)
    requires |board| == 9
    ensures r.Some? <==> Codec.IsBoardPosition(play) && board[ToArrayPosition(play).value] == EmptyCell
    ensures r.Some? ==> r.value < 9 && board[r.value] == EmptyCell
  {
    match ToArrayPosition(play)
    case Err(_) => None
    case Ok(i) => if board[i] != EmptyCell then None else Some(i as nat)
  }

  function FirstAccepted(board: seq<string>, plays: seq<string>, k: nat): (r: Option<nat>)
    requires |board| == 9 && k <= |plays|
    decreases |plays| - k
    ensures r.Some? ==> k <= r.value < |plays| && Attempt(board, plays[r.value]).Some?
    ensures r.Some? ==> forall j :: k <= j < r.value ==> Attempt(board, plays[j]).None?
    ensures r.None? <==> forall j :: k <= j < |plays| ==> Attempt(board, plays[j]).None?
  {
    if k == |plays| then None
    else if Attempt(board, plays[k]).Some? then Some(k)
    else FirstAccepted(board, plays, k + 1)
  }

  /** `_checkForWinner`: the first filled line in table order, players in seat order. */
  function CheckForWinnerSpec(s: State): (r: State)
    requires |s.board| == 9
    ensures r.board == s.board && r.players == s.players && r.turn == s.turn
    ensures Judge(s.board, Symbols(s.players), EmptyCell).Win? ==>
              var v := Judge(s.board, Symbols(s.players), EmptyCell);
              r == s.(winner := Some(v.player), winningRow := Some(WinConditions[v.line].name), isOver := true)
    ensures !Judge(s.board, Symbols(s.players), EmptyCell).Win? ==> r == s
  {
    match FindWin(s.board, Symbols(s.players), 0)
    case Some((l, p)) => s.(winner := Some(p), winningRow := Some(WinConditions[l].name), isOver := true)
    case None => s
  }

  /** `_checkForTie`: a full board ends the game; the winner is never touched. */
  function CheckForTieSpec(s: State): (r: State)
    ensures r.winner == s.winner && r.winningRow == s.winningRow
    ensures r.isOver <==> s.isOver || Full(s.board, EmptyCell)
    ensures r == s.(isOver := r.isOver)
  {
    if Full(s.board, EmptyCell) then s.(isOver := true) else s
  }

  /** `_checkForGameOver`: nothing once over; otherwise the winner scan, then the tie check. */
  function CheckForGameOverSpec(s: State): (r: State)
    requires |s.board| == 9
    ensures s.isOver ==> r == s
  {
    if s.isOver then s else CheckForTieSpec(CheckForWinnerSpec(s))
  }

  datatype GameError = GameAlreadyOver

  /** How a turn ended; each refused play was only logged ('Invalid play'). */
  datatype Turn = Placed(cell: nat, rejected: seq<string>) | Pending(rejected: seq<string>)

  /** `nextTurn`, with `plays` standing for the answers of `player.play`. */
  function NextTurnSpec(s: State, plays: seq<string>): (r: (State, Result<Turn, GameError>))
    requires Inv(s)
    ensures s.isOver ==> r == (s, Err(GameAlreadyOver))
    ensures !s.isOver ==> r.0.turn == s.turn + 1 && r.1.Ok?
    ensures r.1.Ok? && r.1.value.Pending? ==>
              r.0 == s.(turn := s.turn + 1) && r.1.value.rejected == plays &&
              forall j :: 0 <= j < |plays| ==> Attempt(s.board, plays[j]).None?
    ensures r.1.Ok? && r.1.value.Placed? ==>
              && FirstAccepted(s.board, plays, 0).Some?
              && var k := FirstAccepted(s.board, plays, 0).value;
              && var cell := r.1.value.cell;
              && ToArrayPosition(plays[k]) == Ok(cell as int)
              && r.1.value.rejected == plays[..k]
              && cell < 9 && s.board[cell] == EmptyCell
              && r.0.board == s.board[cell := s.players[s.turn % 2].symbol]
              && r.0.players == s.players
              && match Judge(r.0.board, Symbols(s.players), EmptyCell)
                 case Win(l, p) => r.0.isOver && r.0.winner == Some(p) && r.0.winningRow == Some(WinConditions[l].name)
                 case Tie => r.0.isOver && r.0.winner.None? && r.0.winningRow.None?
                 case Ongoing => !r.0.isOver && r.0.winner.None? && r.0.winningRow.None?
  {
    if s.isOver then (s, Err(GameAlreadyOver))
    else
      var (counted, player) := NextPlayerSpec(s);
      match FirstAccepted(s.board, plays, 0)
      case None => (counted, Ok(Pending(plays)))
      case Some(k) =>
        var cell := Attempt(s.board, plays[k]).value;
        var placed := counted.(board := s.board[cell := player.symbol]);
        GameOverFollowsVerdict(placed);
        (CheckForGameOverSpec(placed), Ok(Placed(cell, plays[..k])))
  }

  // ---------------------------------------------------------------- properties

  lemma NextTurnPreservesInv(s: State, plays: seq<string>)
    requires Inv(s)
    ensures Inv(NextTurnSpec(s, plays).0)
  {
  }

  /**
   * After a placement on a game that was not over, isOver, winner and winningRow are what
   * the verdict on the new board says: a win on a full board keeps its winner, and a tie
   * is declared only on a full board.
   */
  lemma GameOverFollowsVerdict(s: State)
    requires |s.board| == 9 && !s.isOver && s.winner.None? && s.winningRow.None?
    ensures var r := CheckForGameOverSpec(s);
            match Judge(s.board, Symbols(s.players), EmptyCell)
            case Win(l, p) => r.isOver && r.winner == Some(p) && r.winningRow == Some(WinConditions[l].name)
            case Tie => r.isOver && r.winner.None? && r.winningRow.None?
            case Ongoing => !r.isOver && r.winner.None? && r.winningRow.None?
  {
  }

  /** A game.js board seen as app.js's string cells. */
  function Lift(cells: seq<char>): (r: seq<string>)
    ensures |r| == |cells| && forall i :: 0 <= i < |cells| ==> r[i] == [cells[i]]
  {
    seq(|cells|, i requires 0 <= i < |cells| => [cells[i]])
  }

  /** Both engines reach the same verdict on corresponding boards. */
  lemma LiftedVerdict(board: seq<char>, symbols: seq<char>)
    requires |board| == 9
    ensures Judge(Lift(board), Lift(symbols), EmptyCell) == Judge(board, symbols, TicTacToe.EmptyCell)
  {
    var b, syms := Lift(board), Lift(symbols);
    forall l, p | 0 <= l < LineCount && 0 <= p < |symbols|
      ensures Won(b, syms, l, p) <==> Won(board, symbols, l, p)
    {
      TableWellFormed(l);
    }
    assert Full(b, EmptyCell) <==> Full(board, TicTacToe.EmptyCell) by {
      forall i | 0 <= i < 9 ensures (b[i] == EmptyCell) <==> (board[i] == TicTacToe.EmptyCell) {
        assert b[i] == [board[i]];
      }
    }
    var v := Judge(board, symbols, TicTacToe.EmptyCell);
    if v.Win? {
      FirstWinIsVerdict(b, syms, EmptyCell, v.line, v.player);
    }
  }

  /**
   * On corresponding states that are not over, app.js's `_checkForGameOver` and game.js's
   * `checkForGameOver` set isOver, the winning seat and winningRow alike.
   */
  lemma SameOutcomeAsGameJs(s: State, g: TicTacToe.State)
    requires |g.board| == 9 && |g.players| == 2 && !g.isOver && g.winner.None? && g.winningRow.None?
    requires s.board == Lift(g.board) && Symbols(s.players) == Lift(TicTacToe.Symbols(g.players))
    requires !s.isOver && s.winner.None? && s.winningRow.None?
    ensures var a, b := CheckForGameOverSpec(s), TicTacToe.CheckForGameOverSpec(g).0;
            a.isOver == b.isOver && a.winner == b.winner && a.winningRow == b.winningRow
  {
    LiftedVerdict(g.board, TicTacToe.Symbols(g.players));
    GameOverFollowsVerdict(s);
    TicTacToe.GameOverOutcome(g);
  }

  /**
   * Without validation, a player whose symbol is the empty cell wins at once: the first
   * row of the empty board already holds only that symbol, so the first turn ends the game.
   */
  lemma BlankSymbolWinsAtOnce(name1: string, name2: string, play: string)
    requires play == "A1"
    ensures var r := NextTurnSpec(Initial(Player(name1, EmptyCell), Player(name2, "O")), [play]);
            r.0.isOver && r.0.winner == Some(0) && r.0.winningRow == Some("horizontal-top")
  {
    var s := Initial(Player(name1, EmptyCell), Player(name2, "O"));
    assert Attempt(s.board, play) == Some(0);
    var after := s.(turn := 1, board := s.board[0 := EmptyCell]);
    assert after.board == EmptyBoard;
    assert IsFirstWin(after.board, Symbols(after.players), 0, 0);
    FirstWinIsVerdict(after.board, Symbols(after.players), EmptyCell, 0, 0);
  }

  // ---------------------------------------------------------------- Game.prototype

  class Game {
    var board: array<string>
    var players: seq<Player>
    var turn: nat
    var isOver: bool
    var winner: Option<nat>
    var winningRow: Option<string>

    function Abs(): State
      reads this, board
    {
      State(board[..], players, turn, isOver, winner, winningRow)
    }

    ghost predicate Valid()
      reads this, board
    {
      board.Length == 9 && Inv(Abs())
    }

    constructor (player1: Player, player2: Player)
      ensures Valid() && fresh(board)
      ensures Abs() == Initial(player1, player2)
    {
      board := new string[9](_ => EmptyCell);
      players := [player1, player2];
      turn := 0;
      isOver := false;
      winner := None;
      winningRow := None;
      new;
      assert board[..] == EmptyBoard;
    }

    /** The `board` getter: a copy of the cells. */
    function Board(): (cells: seq<string>)
      reads this, board
      requires Valid()
      ensures |cells| == 9 && forall i :: 0 <= i < 9 ==> cells[i] == board[i]
    {
      board[..]
    }

    /** The `winner` getter: a clone of the winning player, or null. */
    function Winner(): (w: Option<Player>)
      reads this, board
      requires Valid()
      ensures w.Some? <==> winner.Some?
      ensures w.Some? ==> w.value == players[winner.value] && isOver
    {
      match winner
      case Some(p) => Some(players[p])
      case None => None
    }

    /** `_nextPlayer`. */
    method NextPlayer() returns (player: Player)
      requires Valid()
      modifies this
      ensures Valid() && board == old(board)
      ensures (Abs(), player) == NextPlayerSpec(old(Abs()))
    {
      player := players[turn % 2];
      turn := turn + 1;
    }

    /** `nextTurn`. */
    method NextTurn(plays: seq<string>) returns (r: Result<Turn, GameError>)
      requires Valid()
      modifies this, board
      ensures Valid() && board == old(board)
      ensures (Abs(), r) == NextTurnSpec(old(Abs()), plays)
    {
      ghost var s := Abs();
      if isOver {
        return Err(GameAlreadyOver);
      }
      var player := NextPlayer();
      var rejected: seq<string> := [];
      var k := 0;
      while k < |plays|
        invariant 0 <= k <= |plays|
        invariant board == old(board) && Abs() == s.(turn := s.turn + 1)
        invariant FirstAccepted(s.board, plays, 0) == FirstAccepted(s.board, plays, k)
        invariant rejected == plays[..k]
      {
        var play := plays[k];
        var parsed := ToArrayPosition(play);
        if parsed.Ok? && board[parsed.value] == EmptyCell {
          board[parsed.value] := player.symbol;
          CheckForGameOver();
          return Ok(Placed(parsed.value as nat, rejected));
        }
        rejected := rejected + [play];
        k := k + 1;
      }
      assert rejected == plays;
      return Ok(Pending(rejected));
    }

    /** `_checkForWinner`. */
    method CheckForWinner()
      requires board.Length == 9
      modifies this
      ensures board == old(board)
      ensures Abs() == CheckForWinnerSpec(old(Abs()))
    {
      ghost var s := Abs();
      ghost var symbols := Symbols(players);
      var l := 0;
      while l < |WinConditions|
        invariant 0 <= l <= LineCount
        invariant board == old(board) && Abs() == s
        invariant forall l', q :: 0 <= l' < l && 0 <= q < |symbols| ==> !Won(s.board, symbols, l', q)
      {
        TableWellFormed(l);
        var line := WinConditions[l];
        var placedSymbols := [board[line.a], board[line.b], board[line.c]];
        var p := 0;
        while p < |players|
          invariant 0 <= p <= |players|
          invariant board == old(board) && Abs() == s
          invariant forall q :: 0 <= q < p ==> !Won(s.board, symbols, l, q)
        {
          var symbol := players[p].symbol;
          if placedSymbols[0] == symbol && placedSymbols[1] == symbol && placedSymbols[2] == symbol {
            FirstWinIsVerdict(s.board, symbols, EmptyCell, l, p);
            winner := Some(p);
            winningRow := Some(line.name);
            isOver := true;
            return;
          }
          p := p + 1;
        }
        l := l + 1;
      }
    }

    /** `_checkForTie`. */
    method CheckForTie()
      modifies this
      ensures board == old(board)
      ensures Abs() == CheckForTieSpec(old(Abs()))
    {
      if Full(board[..], EmptyCell) {
        isOver := true;
      }
    }

    /** `_checkForGameOver`. */
    method CheckForGameOver()
      requires board.Length == 9
      modifies this
      ensures board == old(board)
      ensures Abs() == CheckForGameOverSpec(old(Abs()))
    {
      if isOver {
        return;
      }
      CheckForWinner();
      CheckForTie();
    }
  }
}
