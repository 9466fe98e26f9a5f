/**
 * The rules engine of assets/scripts/game.js: player validation and the `Game` closure,
 * whose variables become the fields of class `Game`. Each method is proved against a
 * function on the value `State`, and the lemmas below state what the engine promises.
 * `player.play(board)` is an abstract input: the sequence of tentative plays the player
 * would answer with, in order.
 */
module TicTacToe {
  import opened Wrappers
  import Codec
  import opened Rules

  const EmptyCell: char := ' '

  // ---------------------------------------------------------------- players

  /** A value handed to `validatePlayers`: null/undefined, an object outside the
      `BasePlayer` prototype chain, or a `BasePlayer` with its fields. */
  datatype Candidate = Missing | Foreign | Base(name: string, symbol: string, score: int)

  datatype ValidationError =
    | TwoPlayersRequired
    | NotABasePlayer(seat: nat)
    | BadSymbol(symbol: string)
    | SameSymbols

  /** A single character other than the empty cell. */
  predicate IsSymbol(symbol: string) {
    |symbol| == 1 && symbol[0] != EmptyCell
  }

  predicate Acceptable(c: Candidate) {
    c.Base? && IsSymbol(c.symbol)
  }

  /** What construction demands of the players: two acceptable players with different symbols. */
  predicate ValidPair(players: seq<Candidate>) {
    |players| == 2 && Acceptable(players[0]) && Acceptable(players[1])
    && players[0].symbol != players[1].symbol
  }

  /** The first fault the per-player loop meets from seat `i` on. */
  function SeatFault(players: seq<Candidate>, i: nat): (r: Option<ValidationError>)
    requires i <= |players|
    decreases |players| - i
    ensures r.None? <==> forall j :: i <= j < |players| ==> Acceptable(players[j])
    ensures r.Some? ==> r.value.NotABasePlayer? || r.value.BadSymbol?
  {
    if i == |players| then None
    else if !players[i].Base? then Some(NotABasePlayer(i))
    else if !IsSymbol(players[i].symbol) then Some(BadSymbol(players[i].symbol))
    else SeatFault(players, i + 1)
  }

  /** The verdict of `validatePlayers`: the first failing check, in the order they are made. */
  function Validation(players: seq<Candidate>): (r: Outcome<ValidationError>)
    ensures r.Pass? <==> ValidPair(players)
    ensures r == Fail(TwoPlayersRequired) <==> |players| != 2
    ensures r == Fail(SameSymbols) ==> Acceptable(players[0]) && Acceptable(players[1])
  {
    if |players| != 2 then Fail(TwoPlayersRequired)
    else match SeatFault(players, 0)
      case Some(e) => Fail(e)
      case None => if players[0].symbol == players[1].symbol then Fail(SameSymbols) else Pass
  }

  /** `validatePlayers`: the count check, the per-player loop, then the distinct-symbols check. */
  method ValidatePlayers(players: seq<Candidate>) returns (r: Outcome<ValidationError>)
    ensures r == Validation(players)
  {
    if |players| != 2 {
      return Fail(TwoPlayersRequired);
    }
    for i := 0 to |players|
      invariant SeatFault(players, 0) == SeatFault(players, i)
    {
      if !players[i].Base? {
        return Fail(NotABasePlayer(i));
      }
      if !IsSymbol(players[i].symbol) {
        return Fail(BadSymbol(players[i].symbol));
      }
    }
    if players[0].symbol == players[1].symbol {
      return Fail(SameSymbols);
    }
    return Pass;
  }

  /** A player as the game keeps it: the clone made at construction, whose score it raises. */
  datatype Player = Player(name: string, symbol: char, score: int)

  /** The clone of an accepted candidate. */
  function Adopt(c: Candidate): (p: Player)
    requires Acceptable(c)
    ensures [p.symbol] == c.symbol && p.name == c.name && p.score == c.score
  {
    Player(c.name, c.symbol[0], c.score)
  }

  function Symbols(players: seq<Player>): (s: seq<char>)
    ensures |s| == |players| && forall i :: 0 <= i < |players| ==> s[i] == players[i].symbol
  {
    seq(|players|, i requires 0 <= i < |players| => players[i].symbol)
  }

  /** Two seats with distinct symbols, neither the empty cell. */
  predicate Seats(players: seq<Player>) {
    |players| == 2 && players[0].symbol != EmptyCell && players[1].symbol != EmptyCell
    && players[0].symbol != players[1].symbol
  }

  // ---------------------------------------------------------------- state

  datatype State = State(
    board: seq<char>,
    players: seq<Player>,
    turn: nat,
    isOver: bool,
    winner: Option<nat>,          // seat of `_winner`, which is one of `_players`
    winningRow: Option<string>,
    turnInProgress: bool)

  const EmptyBoard: seq<char> := [' ', ' ', ' ', ' ', ' ', ' ', ' ', ' ', ' ']

  /** The state of a new game, and of a game after `reset`. */
  function Initial(players: seq<Player>): State {
    State(EmptyBoard, players, 0, false, None, None, false)
  }

  /** isOver, winner and winningRow are what the verdict on the board says. */
  predicate Agrees(s: State)
    requires |s.board| == 9
  {
    match Judge(s.board, Symbols(s.players), EmptyCell)
    case Win(l, p) => s.isOver && s.winner == Some(p) && s.winningRow == Some(WinConditions[l].name)
    case Tie => s.isOver && s.winner.None? && s.winningRow.None?
    case Ongoing => !s.isOver && s.winner.None? && s.winningRow.None?
  }

  /**
   * The invariant of a game: the first seat has placed ceil(turn/2) symbols, the second
   * floor(turn/2), the other cells are empty, and the game-over fields match the board.
   */
  predicate Inv(s: State) {
    && |s.board| == 9
    && Seats(s.players)
    && multiset(s.board)[s.players[0].symbol] == (s.turn + 1) / 2
    && multiset(s.board)[s.players[1].symbol] == s.turn / 2
    && multiset(s.board)[EmptyCell] == 9 - s.turn
    && Agrees(s)
  }

  lemma InitialInv(players: seq<Player>)
    requires Seats(players)
    ensures Inv(Initial(players))
  {
    var b := EmptyBoard;
    assert multiset(b) == multiset{' ', ' ', ' ', ' ', ' ', ' ', ' ', ' ', ' '};
    assert !Full(b, EmptyCell) by { assert b[0] == EmptyCell; }
    forall l, p | 0 <= l < LineCount && 0 <= p < 2
      ensures !Won(b, Symbols(players), l, p)
    {
      TableWellFormed(l);
    }
  }

  /** `getNextPlayer`: the seat `turn % 2`. */
  function NextPlayer(s: State): (p: Player)
    requires |s.players| == 2
    ensures p == s.players[0] || p == s.players[1]
    ensures p == s.players[s.turn % 2]
  {
    s.players[s.turn % 2]
  }

  // ---------------------------------------------------------------- one attempt

  /** Why a tentative play was refused (the `motive` given to `onInvalidPlayCallback`). */
  datatype Motive = InvalidPosition | PositionTaken

  datatype Rejection = Rejection(play: string, motive: Motive)

  /** One pass of the retry loop: parse the play, then refuse an occupied cell. */
  function Attempt(board: seq<char>, play: string): (r: Result<nat, Motive>)
    requires |board| == 9
    ensures r == Err(InvalidPosition) <==> !Codec.IsBoardPosition(play)
    ensures r.Ok? <==> Codec.IsBoardPosition(play) && board[Codec.ToArrayPosition(play).value] == EmptyCell
    ensures r.Ok? ==> r.value < 9 && board[r.value] == EmptyCell && Codec.ToArrayPosition(play) == Ok(r.value as int)
  {
    match Codec.ToArrayPosition(play)
    case Err(_) => Err(InvalidPosition)
    case Ok(i) => if board[i] != EmptyCell then Err(PositionTaken) else Ok(i as nat)
  }

  /** The index of the first acceptable play from `k` on. */
  function FirstAccepted(board: seq<char>, plays: seq<string>, k: nat): (r: Option<nat>)
    requires |board| == 9 && k <= |plays|
    decreases |plays| - k
    ensures r.Some? ==> k <= r.value < |plays| && Attempt(board, plays[r.value]).Ok?
    ensures r.Some? ==> forall j :: k <= j < r.value ==> Attempt(board, plays[j]).Err?
    ensures r.None? <==> forall j :: k <= j < |plays| ==> Attempt(board, plays[j]).Err?
  {
    if k == |plays| then None
    else if Attempt(board, plays[k]).Ok? then Some(k)
    else FirstAccepted(board, plays, k + 1)
  }

  /** The `onInvalidPlayCallback` calls made for a run of refused plays, in order. */
  function Rejections(board: seq<char>, plays: seq<string>): (r: seq<Rejection>)
    requires |board| == 9
    requires forall j :: 0 <= j < |plays| ==> Attempt(board, plays[j]).Err?
    ensures |r| == |plays|
    ensures forall j :: 0 <= j < |plays| ==> r[j] == Rejection(plays[j], Attempt(board, plays[j]).error)
  {
    if plays == [] then []
    else
      var n := |plays| - 1;
      Rejections(board, plays[..n]) + [Rejection(plays[n], Attempt(board, plays[n]).error)]
  }

  // ---------------------------------------------------------------- transitions

  /** The argument of `onGameOverCallback`: the winner (after its score was raised) and the row, or a tie. */
  datatype Notice = Victory(player: Player, row: string) | TieGame

  /** `checkForGameOver`. */
  function CheckForGameOverSpec(s: State): (r: (State, Option<Notice>))
    requires |s.board| == 9 && |s.players| == 2
    requires !s.isOver ==> s.winner.None? && s.winningRow.None?
    ensures r.0.board == s.board && r.0.turn == s.turn && r.0.turnInProgress == s.turnInProgress
    ensures Symbols(r.0.players) == Symbols(s.players) && |r.0.players| == 2
    ensures s.isOver ==> r == (s, None)
    ensures r.1.Some? <==> r.0.isOver && !s.isOver
  {
    if s.isOver then (s, None)
    else match Judge(s.board, Symbols(s.players), EmptyCell)
      case Win(l, p) =>
        var champion := s.players[p].(score := s.players[p].score + 1);
        var row := WinConditions[l].name;
        var players := s.players[p := champion];
        assert Symbols(players) == Symbols(s.players);
        (s.(players := players, winner := Some(p), winningRow := Some(row), isOver := true),
         Some(Victory(champion, row)))
      case Tie => (s.(isOver := true), Some(TieGame))
      case Ongoing => (s, None)
  }
  /**
   * What `checkForGameOver` decides: the state agrees with the board's verdict, only the
   * winner's score has grown, and the notice names the winner and the row, or a tie.
   */
  lemma GameOverOutcome(s: State)
    requires |s.board| == 9 && |s.players| == 2
    requires !s.isOver ==> s.winner.None? && s.winningRow.None?
    ensures var r := CheckForGameOverSpec(s);
            && (!s.isOver ==> Agrees(r.0))
            && (forall q :: 0 <= q < 2 ==>
                  r.0.players[q] == if !s.isOver && r.0.winner == Some(q)
                                    then s.players[q].(score := s.players[q].score + 1)
                                    else s.players[q])
            && (r.1.Some? ==> r.1.value == Announcement(r.0))
  {
  }


  /** What `onGameOverCallback` receives once the game is over: the winner's clone and row, or nothing. */
  function Announcement(s: State): (n: Notice)
    requires |s.players| == 2
  {
    if s.winner.Some? && s.winner.value < 2 && s.winningRow.Some?
    then Victory(s.players[s.winner.value], s.winningRow.value)
    else TieGame
  }

  /** The players after a turn: only the seat that won, if any, has one more point. */
  predicate Scored(before: seq<Player>, after: seq<Player>, winner: Option<nat>)
    requires |before| == 2
  {
    |after| == 2 &&
    forall q :: 0 <= q < 2 ==>
      after[q] == before[q].(score := before[q].score + (if winner == Some(q) then 1 else 0))
  }

  datatype GameError = GameAlreadyOver | TurnAlreadyInProgress

  /** How a turn ended: a placement, or every offered play was refused and the turn still waits. */
  datatype Turn =
    | Placed(cell: nat, rejected: seq<Rejection>, notice: Option<Notice>)
    | Pending(rejected: seq<Rejection>)

  /** The outcome of the game-over check when the scan finds line `l` filled by seat `p`. */
  lemma DecidedByWin(s: State, l: nat, p: nat)
    requires |s.board| == 9 && |s.players| == 2 && !s.isOver && s.winner.None? && s.winningRow.None?
    requires FindWin(s.board, Symbols(s.players), 0) == Some((l, p))
    ensures l < LineCount && p < 2
    ensures var champion := s.players[p].(score := s.players[p].score + 1);
            var name := WinConditions[l].name;
            CheckForGameOverSpec(s)
            == (s.(players := s.players[p := champion], winner := Some(p), winningRow := Some(name), isOver := true),
                Some(Victory(champion, name)))
  {
    assert Judge(s.board, Symbols(s.players), EmptyCell) == Win(l, p);
  }

  /** The outcome of the game-over check when the scan finds no filled line: a tie on a full board, else nothing. */
  lemma DecidedWithoutWin(s: State)
    requires |s.board| == 9 && |s.players| == 2 && !s.isOver && s.winner.None? && s.winningRow.None?
    requires FindWin(s.board, Symbols(s.players), 0).None?
    ensures Full(s.board, EmptyCell) ==> CheckForGameOverSpec(s) == (s.(isOver := true), Some(TieGame))
    ensures !Full(s.board, EmptyCell) ==> CheckForGameOverSpec(s) == (s, None)
  {
  }

  /** The rest of `nextTurn` once a play is accepted: write the mover's symbol into the
      empty cell, run `checkForGameOver`, then pass the turn. */
  function Place(s: State, cell: nat): (r: (State, Option<Notice>))
    requires Inv(s) && !s.isOver && cell < 9 && s.board[cell] == EmptyCell
    ensures r.0.board == s.board[cell := NextPlayer(s).symbol]
    ensures r.0.turn == s.turn + 1 && !r.0.turnInProgress
    ensures Scored(s.players, r.0.players, r.0.winner)
    ensures r.1 == if r.0.isOver then Some(Announcement(r.0)) else None
  {
    var placed := s.(board := s.board[cell := NextPlayer(s).symbol]);
    GameOverOutcome(placed);
    var checked := CheckForGameOverSpec(placed);
    (checked.0.(turn := s.turn + 1, turnInProgress := false), checked.1)
  }
  /**
   * `Place` seen from inside `nextTurn`, where the flag is still set while the cell is
   * written and the game-over check runs: the check neither reads nor writes the flag.
   */
  lemma PlaceAfterCheck(s: State, cell: nat)
    requires Inv(s.(turnInProgress := false)) && !s.isOver && cell < 9 && s.board[cell] == EmptyCell
    ensures var checked := CheckForGameOverSpec(s.(board := s.board[cell := NextPlayer(s).symbol]));
            Place(s.(turnInProgress := false), cell) == (checked.0.(turn := s.turn + 1, turnInProgress := false), checked.1)
  {
  }


  /** `nextTurn`, with `plays` standing for the answers of `player.play`. */
  function NextTurnSpec(s: State, plays: seq<string>): (r: (State, Result<Turn, GameError>))
    requires Inv(s)
    ensures s.isOver ==> r == (s, Err(GameAlreadyOver))
    ensures !s.isOver && s.turnInProgress ==> r == (s, Err(TurnAlreadyInProgress))
    ensures r.1.Ok? ==> !s.isOver && !s.turnInProgress
    ensures r.1.Ok? && r.1.value.Pending? ==>
              && r.0 == s.(turnInProgress := true)
              && (forall j :: 0 <= j < |plays| ==> Attempt(s.board, plays[j]).Err?)
              && r.1.value.rejected == Rejections(s.board, plays)
    ensures r.1.Ok? && r.1.value.Placed? ==>
              && FirstAccepted(s.board, plays, 0).Some?
              && var k := FirstAccepted(s.board, plays, 0).value;
              && var cell := r.1.value.cell;
              && Codec.ToArrayPosition(plays[k]) == Ok(cell as int)
              && r.1.value.rejected == Rejections(s.board, plays[..k])
              && cell < 9 && s.board[cell] == EmptyCell
              && r.0.board == s.board[cell := NextPlayer(s).symbol]
              && r.0.turn == s.turn + 1 && !r.0.turnInProgress
              && Scored(s.players, r.0.players, r.0.winner)
              && r.1.value.notice == if r.0.isOver then Some(Announcement(r.0)) else None
  {
    if s.isOver then (s, Err(GameAlreadyOver))
    else if s.turnInProgress then (s, Err(TurnAlreadyInProgress))
    else
      match FirstAccepted(s.board, plays, 0)
      case None => (s.(turnInProgress := true), Ok(Pending(Rejections(s.board, plays))))
      case Some(k) =>
        var cell := Attempt(s.board, plays[k]).value;
        var placed := Place(s, cell);
        (placed.0, Ok(Placed(cell, Rejections(s.board, plays[..k]), placed.1)))
  }

  /** `reset`. */
  function ResetSpec(s: State): (r: State)
    ensures r.players == s.players
    ensures |r.board| == 9 && forall i :: 0 <= i < 9 ==> r.board[i] == EmptyCell
    ensures r.turn == 0 && !r.isOver && r.winner.None? && r.winningRow.None? && !r.turnInProgress
  {
    Initial(s.players)
  }

  // ---------------------------------------------------------------- properties

  /** Writing one symbol into one empty cell moves one count from the empty cell to that symbol. */
  lemma CountsAfterWrite(board: seq<char>, cell: nat, symbol: char)
    requires cell < |board| && board[cell] == EmptyCell && symbol != EmptyCell
    ensures multiset(board[cell := symbol])[symbol] == multiset(board)[symbol] + 1
    ensures multiset(board[cell := symbol])[EmptyCell] == multiset(board)[EmptyCell] - 1
    ensures forall c :: c != symbol && c != EmptyCell ==>
              multiset(board[cell := symbol])[c] == multiset(board)[c]
  {
    assert multiset(board[cell := symbol]) == multiset(board) - multiset{EmptyCell} + multiset{symbol};
  }

  /** The mover's count grows by one and the empty count shrinks by one, as the next turn's counts require. */
  lemma PlaceKeepsCounts(s: State, cell: nat)
    requires Inv(s) && cell < 9 && s.board[cell] == EmptyCell
    ensures var board := s.board[cell := NextPlayer(s).symbol];
            && multiset(board)[s.players[0].symbol] == (s.turn + 2) / 2
            && multiset(board)[s.players[1].symbol] == (s.turn + 1) / 2
            && multiset(board)[EmptyCell] == 9 - (s.turn + 1)
  {
    CountsAfterWrite(s.board, cell, NextPlayer(s).symbol);
  }

  /** An accepted play keeps the invariant: the counts move with the turn and the
      game-over fields follow the verdict on the new board. */
  lemma PlaceKeepsInv(s: State, cell: nat)
    requires Inv(s) && !s.isOver && cell < 9 && s.board[cell] == EmptyCell
    ensures Inv(Place(s, cell).0)
  {
    var mover := NextPlayer(s).symbol;
    PlaceKeepsCounts(s, cell);
    var placed := s.(board := s.board[cell := mover]);
    GameOverOutcome(placed);
    var checked := CheckForGameOverSpec(placed).0;
    var r := Place(s, cell).0;
    assert r == checked.(turn := s.turn + 1, turnInProgress := false);
    assert Symbols(r.players) == Symbols(s.players);
    assert r.players[0].symbol == s.players[0].symbol && r.players[1].symbol == s.players[1].symbol;
    assert Agrees(checked);
  }

  /** Every turn keeps the invariant, whether it places, waits or throws. */
  lemma NextTurnPreservesInv(s: State, plays: seq<string>)
    requires Inv(s)
    ensures Inv(NextTurnSpec(s, plays).0)
  {
    if !s.isOver && !s.turnInProgress {
      match FirstAccepted(s.board, plays, 0)
      case None =>
      case Some(k) =>
        PlaceKeepsInv(s, Attempt(s.board, plays[k]).value);
    }
  }

  /** `reset` returns any game to the initial state and keeps the players with their scores. */
  lemma ResetPreservesInv(s: State)
    requires Inv(s)
    ensures Inv(ResetSpec(s)) && ResetSpec(s) == Initial(s.players)
  {
    InitialInv(s.players);
  }

  /** A refused play changes nothing: the same player is asked again, with the same board. */
  lemma {:induction false} RejectedPlayIsRetried(s: State, play: string, rest: seq<string>)
    requires Inv(s) && !s.isOver && !s.turnInProgress
    requires Attempt(s.board, play).Err?
    ensures NextTurnSpec(s, [play] + rest).0 == NextTurnSpec(s, rest).0
    ensures NextTurnSpec(s, [play] + rest).1.Ok? && NextTurnSpec(s, rest).1.Ok?
    ensures NextTurnSpec(s, [play] + rest).1.value.rejected ==
            [Rejection(play, Attempt(s.board, play).error)] + NextTurnSpec(s, rest).1.value.rejected
  {
    RefusalShift(s.board, play, rest);
    TurnOutcome(s, rest);
    TurnOutcome(s, [play] + rest);
  }

  /** A refused play in front shifts the first acceptable play by one and adds its own refusal in front. */
  lemma RefusalShift(board: seq<char>, play: string, rest: seq<string>)
    requires |board| == 9 && Attempt(board, play).Err?
    ensures var plays := [play] + rest;
            var refusal := Rejection(play, Attempt(board, play).error);
            match FirstAccepted(board, rest, 0)
            case None =>
              && FirstAccepted(board, plays, 0).None?
              && Rejections(board, plays) == [refusal] + Rejections(board, rest)
            case Some(k) =>
              && FirstAccepted(board, plays, 0) == Some(k + 1)
              && plays[k + 1] == rest[k]
              && Rejections(board, plays[..k + 1]) == [refusal] + Rejections(board, rest[..k])
  {
    var plays := [play] + rest;
    FirstAcceptedShift(board, play, rest, 0);
    match FirstAccepted(board, rest, 0)
    case None =>
      RejectionsCons(board, play, rest);
    case Some(k) =>
      assert plays[..k + 1] == [play] + rest[..k];
      RejectionsCons(board, play, rest[..k]);
  }

  /** A turn that may start: pending with every refusal, or the first acceptable play placed. */
  lemma TurnOutcome(s: State, plays: seq<string>)
    requires Inv(s) && !s.isOver && !s.turnInProgress
    ensures FirstAccepted(s.board, plays, 0).None? ==>
              NextTurnSpec(s, plays) == (s.(turnInProgress := true), Ok(Pending(Rejections(s.board, plays))))
    ensures FirstAccepted(s.board, plays, 0).Some? ==>
              var k := FirstAccepted(s.board, plays, 0).value;
              var cell := Attempt(s.board, plays[k]).value;
              NextTurnSpec(s, plays) == (Place(s, cell).0, Ok(Placed(cell, Rejections(s.board, plays[..k]), Place(s, cell).1)))
  {
  }

  /** Prepending a refused play shifts the first accepted index by one. */
  lemma {:induction false} FirstAcceptedShift(board: seq<char>, play: string, rest: seq<string>, k: nat)
    requires |board| == 9 && Attempt(board, play).Err? && k <= |rest|
    decreases |rest| - k
    ensures FirstAccepted(board, [play] + rest, k + 1) ==
            match FirstAccepted(board, rest, k) case None => None case Some(j) => Some(j + 1)
    ensures FirstAccepted(board, [play] + rest, 0) == FirstAccepted(board, [play] + rest, 1)
  {
    var plays := [play] + rest;
    if k < |rest| {
      assert plays[k + 1] == rest[k];
      FirstAcceptedShift(board, play, rest, k + 1);
    }
  }

  lemma {:induction false} RejectionsCons(board: seq<char>, play: string, rest: seq<string>)
    requires |board| == 9 && Attempt(board, play).Err?
    requires forall j :: 0 <= j < |rest| ==> Attempt(board, rest[j]).Err?
    ensures forall j :: 0 <= j < |[play] + rest| ==> Attempt(board, ([play] + rest)[j]).Err?
    ensures Rejections(board, [play] + rest) == [Rejection(play, Attempt(board, play).error)] + Rejections(board, rest)
  {
    var plays := [play] + rest;
    assert forall j :: 0 <= j < |plays| ==> Attempt(board, plays[j]).Err? by {
      forall j | 0 <= j < |plays| ensures Attempt(board, plays[j]).Err? {
        if j > 0 { assert plays[j] == rest[j - 1]; }
      }
    }
    var lhs := Rejections(board, plays);
    var rhs := [Rejection(play, Attempt(board, play).error)] + Rejections(board, rest);
    assert |lhs| == |rhs|;
    forall j | 0 <= j < |lhs| ensures lhs[j] == rhs[j] {
      if j > 0 { assert plays[j] == rest[j - 1]; }
    }
  }

  /** A win is always scored for the player who just moved, on a line through the cell played. */
  lemma WinnerJustMoved(s: State, plays: seq<string>)
    requires Inv(s)
    ensures var r := NextTurnSpec(s, plays);
            r.1.Ok? && r.1.value.Placed? && r.0.winner.Some? ==>
              r.0.winner == Some(s.turn % 2) &&
              r.1.value.cell in Cells(WinConditions[Judge(r.0.board, Symbols(r.0.players), EmptyCell).line])
  {
    if !s.isOver && !s.turnInProgress && FirstAccepted(s.board, plays, 0).Some? {
      TurnOutcome(s, plays);
      var k := FirstAccepted(s.board, plays, 0).value;
      PlacedWinnerIsMover(s, Attempt(s.board, plays[k]).value);
    }
  }

  /** A placement that produces a winner was a winning move by the mover, through the placed cell. */
  lemma PlacedWinnerIsMover(s: State, cell: nat)
    requires Inv(s) && !s.isOver && cell < 9 && s.board[cell] == EmptyCell
    ensures var r := Place(s, cell).0;
            r.winner.Some? ==>
              r.winner == Some(s.turn % 2) &&
              cell in Cells(WinConditions[Judge(r.board, Symbols(r.players), EmptyCell).line])
  {
    var syms := Symbols(s.players);
    var placed := s.(board := s.board[cell := syms[s.turn % 2]]);
    GameOverOutcome(placed);
    var checked := CheckForGameOverSpec(placed).0;
    var r := Place(s, cell).0;
    assert r == checked.(turn := s.turn + 1, turnInProgress := false);
    assert Symbols(r.players) == syms;
    assert NoWin(s.board, syms);
    assert syms[0] != syms[1];
    WinnerIsMover(s.board, syms, EmptyCell, cell, s.turn % 2);
  }

  /** After nine placements the board is full, so the game is over. */
  lemma NineTurnsEndTheGame(s: State)
    requires Inv(s) && s.turn == 9
    ensures s.isOver
    ensures s.winner.None? ==> Full(s.board, EmptyCell)
  {
  }

  /** The game is over exactly when a line is filled or the board is full; a tie has no winner. */
  lemma OverExactlyWhenDecided(s: State)
    requires Inv(s)
    ensures s.isOver <==> !NoWin(s.board, Symbols(s.players)) || Full(s.board, EmptyCell)
    ensures s.isOver && s.winner.None? ==> Full(s.board, EmptyCell) && s.winningRow.None?
  {
  }

  // ---------------------------------------------------------------- the closure

  /** The `Game` closure: its variables, with `_board` an array written in place. */
  class Game {
    var board: array<char>
    var players: seq<Player>
    var turn: nat
    var isOver: bool
    var winner: Option<nat>
    var winningRow: Option<string>
    var turnInProgress: bool

    function Abs(): State
      reads this, board
    {
      State(board[..], players, turn, isOver, winner, winningRow, turnInProgress)
    }

    ghost predicate Valid()
      reads this, board
    {
      board.Length == 9 && Inv(Abs())
    }

    constructor (player1: Player, player2: Player)
      requires Seats([player1, player2])
      ensures Valid() && fresh(board)
      ensures Abs() == Initial([player1, player2])
    {
      board := new char[9](_ => EmptyCell);
      players := [player1, player2];
      turn := 0;
      isOver := false;
      winner := None;
      winningRow := None;
      turnInProgress := false;
      new;
      assert board[..] == EmptyBoard;
      InitialInv([player1, player2]);
    }

    /** `Game(player1, player2)`: validates the players, then keeps clones of them. */
    static method Create(player1: Candidate, player2: Candidate) returns (r: Result<Game, ValidationError>)
      ensures r.Err? ==> Validation([player1, player2]) == Fail(r.error)
      ensures r.Ok? ==> Validation([player1, player2]) == Pass
      ensures r.Ok? ==> fresh(r.value) && fresh(r.value.board) && r.value.Valid()
      ensures r.Ok? ==> r.value.Abs() == Initial([Adopt(player1), Adopt(player2)])
    {
      var verdict := ValidatePlayers([player1, player2]);
      if verdict.Fail? {
        return Err(verdict.error);
      }
      var game := new Game(Adopt(player1), Adopt(player2));
      return Ok(game);
    }

    /** The `board` getter: a copy of the cells. */
    function Board(): (cells: seq<char>)
      reads this, board
      requires Valid()
      ensures |cells| == 9 && forall i :: 0 <= i < 9 ==> cells[i] == board[i]
    {
      board[..]
    }

    /** The `winner` getter: the player who filled the first complete line, if any. */
    function Winner(): (w: Option<Player>)
      reads this, board
      requires Valid()
      ensures w.Some? <==> Judge(board[..], Symbols(players), EmptyCell).Win?
      ensures w.Some? ==> w.value == players[Judge(board[..], Symbols(players), EmptyCell).player]
    {
      match winner
      case Some(p) => Some(players[p])
      case None => None
    }

    /** `nextTurn`. */
    method NextTurn(plays: seq<string>) returns (r: Result<Turn, GameError>)
      requires Valid()
      modifies this, board
      ensures Valid() && board == old(board)
      ensures (Abs(), r) == NextTurnSpec(old(Abs()), plays)
    {
      ghost var s := Abs();
      if isOver {
        return Err(GameAlreadyOver);
      }
      if turnInProgress {
        return Err(TurnAlreadyInProgress);
      }
      turnInProgress := true;
      var player := players[turn % 2];
      var found, rejected := Solicit(plays);
      NextTurnPreservesInv(s, plays);
      if found.None? {
        return Ok(Pending(rejected));
      }
      assert s.(turnInProgress := true).(turnInProgress := false) == s;
      var notice := Accept(found.value, player.symbol);
      r := Ok(Placed(found.value, rejected, notice));
    }

    /**
     * The retry loop of `nextTurn`: reads plays until one names an empty cell,
     * reporting each refused one. Gives that cell, or none when every play is refused.
     */
    method Solicit(plays: seq<string>) returns (found: Option<nat>, rejected: seq<Rejection>)
      requires board.Length == 9
      ensures found.None? <==> FirstAccepted(board[..], plays, 0).None?
      ensures found.None? ==> rejected == Rejections(board[..], plays)
      ensures found.Some? ==> var k := FirstAccepted(board[..], plays, 0).value;
                              && found.value == Attempt(board[..], plays[k]).value
                              && rejected == Rejections(board[..], plays[..k])
    {
      rejected := [];
      var k := 0;
      while k < |plays|
        invariant 0 <= k <= |plays|
        invariant forall j :: 0 <= j < k ==> Attempt(board[..], plays[j]).Err?
        invariant FirstAccepted(board[..], plays, 0) == FirstAccepted(board[..], plays, k)
        invariant rejected == Rejections(board[..], plays[..k])
      {
        var play := plays[k];
        var parsed := Codec.ToArrayPosition(play);
        if parsed.Err? {
          rejected := rejected + [Rejection(play, InvalidPosition)];
        } else if board[parsed.value] != EmptyCell {
          rejected := rejected + [Rejection(play, PositionTaken)];
        } else {
          assert Attempt(board[..], play) == Ok(parsed.value as nat);
          return Some(parsed.value as nat), rejected;
        }
        assert plays[..k + 1][..k] == plays[..k];
        k := k + 1;
      }
      assert plays[..k] == plays;
      found := None;
    }

    /** The end of `nextTurn` once a play is accepted: the in-place write, the
        game-over check and the turn hand-over. */
    method Accept(cell: nat, symbol: char) returns (notice: Option<Notice>)
      requires board.Length == 9 && Inv(Abs()) && !isOver
      requires cell < 9 && board[cell] == EmptyCell && symbol == NextPlayer(Abs()).symbol
      modifies this, board
      ensures board == old(board)
      ensures (Abs(), notice) == Place(old(Abs()).(turnInProgress := false), cell)
    {
      ghost var s := Abs();
      ghost var placed := s.(board := s.board[cell := symbol]);
      ghost var checked := CheckForGameOverSpec(placed);
      PlaceAfterCheck(s, cell);
      ghost var expected := Place(s.(turnInProgress := false), cell);
      assert expected == (checked.0.(turn := s.turn + 1, turnInProgress := false), checked.1);
      board[cell] := symbol;
      assert Abs() == placed;
      notice := CheckForGameOver();
      assert Abs() == checked.0 && notice == checked.1;
      turn := turn + 1;
      turnInProgress := false;
      assert Abs() == expected.0;
    }

    /** `checkForGameOver`: scans the table, then the board for a tie. */
    method CheckForGameOver() returns (notice: Option<Notice>)
      requires board.Length == 9 && |players| == 2
      requires !isOver ==> winner.None? && winningRow.None?
      modifies this
      ensures board == old(board)
      ensures (Abs(), notice) == CheckForGameOverSpec(old(Abs()))
    {
      if isOver {
        return None;
      }
      ghost var s := Abs();
      var found := ScanLines();
      if found.Some? {
        var (l, p) := found.value;
        DecidedByWin(s, l, p);
        var name := WinConditions[l].name;
        Crown(p, name);
        return Some(Victory(players[p], name));
      }
      DecidedWithoutWin(s);
      if Full(board[..], EmptyCell) {
        isOver := true;
        return Some(TieGame);
      }
      return None;
    }

    /** The winning branch of `checkForGameOver`: scores the winner and records the win. */
    method Crown(p: nat, name: string)
      requires p < |players|
      modifies this
      ensures board == old(board)
      ensures Abs() == old(Abs()).(players := old(players)[p := old(players)[p].(score := old(players)[p].score + 1)],
                                   winner := Some(p), winningRow := Some(name), isOver := true)
    {
      players := players[p := players[p].(score := players[p].score + 1)];
      winner := Some(p);
      winningRow := Some(name);
      isOver := true;
    }

    /** The nested scan of `checkForGameOver`: the first line and seat, in table order, whose three cells hold that seat's symbol. */
    method ScanLines() returns (found: Option<(nat, nat)>)
      requires board.Length == 9 && |players| == 2
      ensures found == FindWin(board[..], Symbols(players), 0)
    {
      ghost var cells := board[..];
      ghost var symbols := Symbols(players);
      var l := 0;
      while l < |WinConditions|
        invariant 0 <= l <= LineCount
        invariant FindWin(cells, symbols, 0) == FindWin(cells, symbols, l)
      {
        TableWellFormed(l);
        var line := WinConditions[l];
        var placedSymbols := [board[line.a], board[line.b], board[line.c]];
        var p := 0;
        while p < |players|
          invariant 0 <= p <= 2
          invariant WinnerOfLine(cells, symbols, l, 0) == WinnerOfLine(cells, symbols, l, p)
        {
          var symbol := players[p].symbol;
          if placedSymbols[0] == symbol && placedSymbols[1] == symbol && placedSymbols[2] == symbol {
            assert Won(cells, symbols, l, p);
            return Some((l, p));
          }
          p := p + 1;
        }
        l := l + 1;
      }
      return None;
    }

    /** `reset`: a fresh empty board and cleared flags; the players and their scores stay. */
    method Reset()
      requires Valid()
      modifies this
      ensures Valid() && fresh(board)
      ensures Abs() == ResetSpec(old(Abs()))
    {
      ghost var s := Abs();
      Clear();
      assert ResetSpec(s) == Initial(s.players);
    }

    /** The body of `reset`: a fresh empty board and cleared fields, the players kept. */
    method Clear()
      requires Seats(players)
      modifies this
      ensures Valid() && fresh(board) && players == old(players)
      ensures Abs() == Initial(players)
    {
      var cells := new char[9](_ => EmptyCell);
      assert cells[..] == EmptyBoard;
      board := cells;
      turn := 0;
      turnInProgress := false;
      isOver := false;
      winner := None;
      winningRow := None;
      assert Abs() == Initial(players);
      InitialInv(players);
    }
  }
}
