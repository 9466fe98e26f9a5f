/**
 * The session façade of assets/scripts/services.js: default merging in `init`,
 * `createPlayers`, `getPlayer`, `mapBoardToCells`, the score bookkeeping of `playTurn`
 * and `rematch`, all behind the init guard of `createInitProxy`.
 *
 * The rules object services.js drives (`placeAtPosition`, `currentSymbol`, `reset`,
 * `scoringRows`) is not the one game.js defines; it is modelled here as the value
 * `Engine`, built from the same codec, table and verdict as the game.js model, with
 * the symbols fixed to 'X' (first) and 'O'.
 */
module GameServices {
  import opened Wrappers
  import Codec
  import opened Rules
  import TicTacToe
  import Utils

  /** The symbols of a session, in turn order. */
  const SessionSymbols: seq<char> := ['X', 'O']

  // ---------------------------------------------------------------- the rules engine

  datatype Engine = Engine(board: seq<char>, turn: nat, isOver: bool, winner: Option<char>, winningLine: Option<nat>)

  /** The terminal flag, winner and winning line are those the board's verdict gives. */
  predicate Settled(e: Engine) {
    && |e.board| == 9
    && match Judge(e.board, SessionSymbols, TicTacToe.EmptyCell)
       case Win(l, p) => e.isOver && e.winner == Some(SessionSymbols[p]) && e.winningLine == Some(l)
       case Tie => e.isOver && e.winner.None? && e.winningLine.None?
       case Ongoing => !e.isOver && e.winner.None? && e.winningLine.None?
  }

  /** A fresh or reset engine: empty board, first turn, nothing decided. */
  function NewEngine(): (e: Engine)
    ensures Settled(e) && e.turn == 0 && !e.isOver
    ensures forall i :: 0 <= i < |e.board| ==> e.board[i] == TicTacToe.EmptyCell
  {
    var e := Engine(seq(9, _ => TicTacToe.EmptyCell), 0, false, None, None);
    assert e.board[0] != SessionSymbols[0] && e.board[0] != SessionSymbols[1];
    assert NoWin(e.board, SessionSymbols) by {
      forall l, p | 0 <= l < LineCount && 0 <= p < |SessionSymbols|
        ensures !Won(e.board, SessionSymbols, l, p)
      {
        TableWellFormed(l);
      }
    }
    e
  }

  /** The symbol whose turn it is (`currentSymbol`). */
  function CurrentSymbol(e: Engine): (c: char)
    ensures c in SessionSymbols
  {
    SessionSymbols[e.turn % 2]
  }

  datatype PlaceError = GameOver | Rejected(motive: TicTacToe.Motive)

  /** `placeAtPosition(play)`: one placement of the current symbol, refused when over or invalid. */
  function PlaceAtPosition(e: Engine, play: string): (r: Result<Engine, PlaceError>)
    requires Settled(e)
    ensures r.Err? <==> e.isOver || TicTacToe.Attempt(e.board, play).Err?
    ensures e.isOver ==> r == Err(GameOver)
    ensures !e.isOver && TicTacToe.Attempt(e.board, play).Err? ==> r == Err(Rejected(TicTacToe.Attempt(e.board, play).error))
    ensures r.Ok? ==> Settled(r.value) && r.value.turn == e.turn + 1
    ensures r.Ok? ==> var i := TicTacToe.Attempt(e.board, play).value;
                      e.board[i] == TicTacToe.EmptyCell && r.value.board == e.board[i := CurrentSymbol(e)]
  {
    if e.isOver then Err(GameOver)
    else
      match TicTacToe.Attempt(e.board, play)
      case Err(motive) => Err(Rejected(motive))
      case Ok(i) =>
        var board := e.board[i := CurrentSymbol(e)];
        match Judge(board, SessionSymbols, TicTacToe.EmptyCell)
        case Win(l, p) => Ok(Engine(board, e.turn + 1, true, Some(SessionSymbols[p]), Some(l)))
        case Tie => Ok(Engine(board, e.turn + 1, true, None, None))
        case Ongoing => Ok(Engine(board, e.turn + 1, false, None, None))
  }

  /** The coordinates of a line's cells (`scoringRows[row].map(parseToBoardPosition)`). */
  function WinningCells(l: nat): (cells: seq<string>)
    requires l < LineCount
    ensures |cells| == 3
  {
    TableWellFormed(l);
    var line := WinConditions[l];
    [Codec.Coordinate(line.a), Codec.Coordinate(line.b), Codec.Coordinate(line.c)]
  }

  /** The winning cells name exactly the cells of the winning line. */
  lemma WinningCellsDecode(l: nat)
    requires l < LineCount
    ensures forall k :: 0 <= k < 3 ==> Codec.ToArrayPosition(WinningCells(l)[k]) == Ok(Cells(WinConditions[l])[k])
  {
    TableWellFormed(l);
    var line := WinConditions[l];
    Codec.IndexRoundTrip(line.a);
    Codec.IndexRoundTrip(line.b);
    Codec.IndexRoundTrip(line.c);
  }

  // ---------------------------------------------------------------- configuration

  datatype GameType = PlayerVsPlayer | PlayerVsBot | BotVsBot | OtherGameType(tag: string)

  datatype Difficulty = Easy | Medium | Hard

  /** The options given to `init`; an omitted option is None. */
  datatype Options = Options(
    botDifficulty: Option<Difficulty>,
    botArtificialPlayDelayRange: Option<Option<(int, int)>>,
    gameType: Option<GameType>,
    p1Name: Option<string>,
    p2Name: Option<string>)

  datatype Config = Config(
    botDifficulty: Difficulty,
    botArtificialPlayDelayRange: Option<(int, int)>,
    gameType: GameType,
    p1Name: string,
    p2Name: string)

  const NoOptions := Options(None, None, None, None, None)

  const BaseConfig := Config(Easy, None, PlayerVsPlayer, "Player 1", "Player 2")

  function OrElse<T>(given: Option<T>, default: T): T {
    if given.Some? then given.value else default
  }

  /** `Object.assign({}, baseConfig, config)`: every given option wins over the default. */
  function MergeDefaults(options: Options): (c: Config)
    ensures options.botDifficulty.Some? ==> c.botDifficulty == options.botDifficulty.value
    ensures options.botDifficulty.None? ==> c.botDifficulty == Easy
    ensures options.botArtificialPlayDelayRange.Some? ==> c.botArtificialPlayDelayRange == options.botArtificialPlayDelayRange.value
    ensures options.botArtificialPlayDelayRange.None? ==> c.botArtificialPlayDelayRange.None?
    ensures options.gameType.Some? ==> c.gameType == options.gameType.value
    ensures options.gameType.None? ==> c.gameType == PlayerVsPlayer
    ensures options.p1Name.Some? ==> c.p1Name == options.p1Name.value
    ensures options.p1Name.None? ==> c.p1Name == "Player 1"
    ensures options.p2Name.Some? ==> c.p2Name == options.p2Name.value
    ensures options.p2Name.None? ==> c.p2Name == "Player 2"
  {
    Config(
      OrElse(options.botDifficulty, BaseConfig.botDifficulty),
      OrElse(options.botArtificialPlayDelayRange, BaseConfig.botArtificialPlayDelayRange),
      OrElse(options.gameType, BaseConfig.gameType),
      OrElse(options.p1Name, BaseConfig.p1Name),
      OrElse(options.p2Name, BaseConfig.p2Name))
  }

  // ---------------------------------------------------------------- players

  /** A human player has no `play` of its own; a bot does. */
  datatype SessionPlayer = Human(name: string, symbol: char) | Bot(name: string, symbol: char, difficulty: Difficulty)

  datatype ServiceError =
    | Guarded(guard: Utils.ProxyError)
    | UnknownGameType(tag: string)
    | NotReady
    | PlaceFailed(place: PlaceError)

  /** The two players of a session: 'X' first, 'O' second. */
  predicate Paired(players: seq<SessionPlayer>) {
    |players| == 2 && players[0].symbol == SessionSymbols[0] && players[1].symbol == SessionSymbols[1]
  }

  /** `createPlayers(config)`: players by game type; any other game type throws. */
  function CreatePlayers(config: Config): (r: Result<seq<SessionPlayer>, ServiceError>)
    ensures r.Ok? <==> !config.gameType.OtherGameType?
    ensures r.Err? ==> r.error == UnknownGameType(config.gameType.tag)
    ensures r.Ok? ==> Paired(r.value)
    ensures r.Ok? ==> (r.value[0].Human? <==> config.gameType != BotVsBot)
    ensures r.Ok? ==> (r.value[1].Human? <==> config.gameType == PlayerVsPlayer)
    ensures r.Ok? && r.value[0].Human? ==> r.value[0].name == config.p1Name
    ensures r.Ok? && r.value[1].Human? ==> r.value[1].name == config.p2Name
    ensures r.Ok? ==> forall i :: 0 <= i < 2 && r.value[i].Bot? ==> r.value[i].difficulty == config.botDifficulty
  {
    match config.gameType
    case PlayerVsPlayer => Ok([Human(config.p1Name, 'X'), Human(config.p2Name, 'O')])
    case PlayerVsBot => Ok([Human(config.p1Name, 'X'), Bot("Bot McBotFace", 'O', config.botDifficulty)])
    case BotVsBot => Ok([Bot("Bot McBotFace", 'X', config.botDifficulty), Bot("Another Bot", 'O', config.botDifficulty)])
    case OtherGameType(tag) => Err(UnknownGameType(tag))
  }

  /** `getPlayer(players, symbol)`: the first player carrying `symbol`, if any. */
  function GetPlayer(players: seq<SessionPlayer>, symbol: char): (r: Option<SessionPlayer>)
    ensures r.None? <==> forall i :: 0 <= i < |players| ==> players[i].symbol != symbol
    ensures r.Some? ==> exists i :: 0 <= i < |players| && players[i] == r.value && r.value.symbol == symbol
                          && forall j :: 0 <= j < i ==> players[j].symbol != symbol
  {
    if players == [] then None
    else if players[0].symbol == symbol then Some(players[0])
    else
      var r := GetPlayer(players[1..], symbol);
      if r.Some? then
        ghost var i :| 0 <= i < |players[1..]| && players[1..][i] == r.value && r.value.symbol == symbol
                       && forall j :: 0 <= j < i ==> players[1..][j].symbol != symbol;
        assert players[i + 1] == r.value;
        r
      else r
  }

  // ---------------------------------------------------------------- the board view

  /** The first `n` cells of `board` keyed by coordinate, as `reduce` builds them. */
  function CellsOf(board: seq<char>, n: nat): (r: Result<map<string, char>, Codec.CodecError>)
    requires n <= |board|
    ensures r.Ok? <==> n <= 9
    ensures r.Err? ==> r.error == Codec.InvalidBoardIndex(9)
    ensures r.Ok? ==> r.value.Keys == set i | 0 <= i < n :: Codec.Coordinate(i)
    ensures r.Ok? ==> forall i :: 0 <= i < n ==> r.value[Codec.Coordinate(i)] == board[i]
  {
    if n == 0 then Ok(map[])
    else
      match CellsOf(board, n - 1)
      case Err(e) => Err(e)
      case Ok(state) =>
        match Codec.ToBoardPosition(n - 1)
        case Err(e) => Err(e)
        case Ok(key) =>
          CellsStep(board, n, state);
          Ok(state[key := board[n - 1]])
  }

  /** Adding cell `n - 1` under its own coordinate extends the map of the first `n - 1` cells to `n`. */
  lemma CellsStep(board: seq<char>, n: nat, state: map<string, char>)
    requires 0 < n <= 9 && n <= |board|
    requires state.Keys == set i | 0 <= i < n - 1 :: Codec.Coordinate(i)
    requires forall i :: 0 <= i < n - 1 ==> state[Codec.Coordinate(i)] == board[i]
    ensures var next := state[Codec.Coordinate(n - 1) := board[n - 1]];
            && next.Keys == (set i | 0 <= i < n :: Codec.Coordinate(i))
            && forall i :: 0 <= i < n ==> next[Codec.Coordinate(i)] == board[i]
  {
    var key := Codec.Coordinate(n - 1);
    var next := state[key := board[n - 1]];
    forall i | 0 <= i < n - 1
      ensures next[Codec.Coordinate(i)] == board[i]
    {
      Codec.CoordinateInjective(i, n - 1);
    }
    assert (set i | 0 <= i < n :: Codec.Coordinate(i)) == (set i | 0 <= i < n - 1 :: Codec.Coordinate(i)) + {key};
  }

  /** `mapBoardToCells(board)`: every cell keyed by its coordinate. */
  function MapBoardToCells(board: seq<char>): (r: Result<map<string, char>, Codec.CodecError>)
    ensures r.Ok? <==> |board| <= 9
    ensures r.Ok? ==> forall i :: 0 <= i < |board| ==> Codec.Coordinate(i) in r.value && r.value[Codec.Coordinate(i)] == board[i]
    ensures r.Ok? ==> r.value.Keys == set i | 0 <= i < |board| :: Codec.Coordinate(i)
  {
    CellsOf(board, |board|)
  }

  const AllCoordinates: set<string> := {"A1", "A2", "A3", "B1", "B2", "B3", "C1", "C2", "C3"}

  /** The coordinates of the nine cells are A1 to C3. */
  lemma CoordinatesAreAll()
    ensures (set i | 0 <= i < 9 :: Codec.Coordinate(i)) == AllCoordinates
  {
    var keys := set i | 0 <= i < 9 :: Codec.Coordinate(i);
    assert Codec.Coordinate(0) == "A1" && Codec.Coordinate(1) == "A2" && Codec.Coordinate(2) == "A3";
    assert Codec.Coordinate(3) == "B1" && Codec.Coordinate(4) == "B2" && Codec.Coordinate(5) == "B3";
    assert Codec.Coordinate(6) == "C1" && Codec.Coordinate(7) == "C2" && Codec.Coordinate(8) == "C3";
    forall x | x in keys
      ensures x in AllCoordinates
    {
      var i :| 0 <= i < 9 && x == Codec.Coordinate(i);
      assert i in {0, 1, 2, 3, 4, 5, 6, 7, 8};
    }
    assert AllCoordinates <= keys;
  }

  /** A full board maps to nine distinct keys, A1 to C3. */
  lemma FullBoardKeys(board: seq<char>)
    requires |board| == 9
    ensures MapBoardToCells(board).Ok?
    ensures MapBoardToCells(board).value.Keys == AllCoordinates
    ensures |MapBoardToCells(board).value.Keys| == 9
  {
    var keys := MapBoardToCells(board).value.Keys;
    assert keys == set i | 0 <= i < 9 :: Codec.Coordinate(i);
    CoordinatesAreAll();
    AllCoordinatesCount();
  }

  lemma AllCoordinatesCount()
    ensures |AllCoordinates| == 9
  {
  }

  // ---------------------------------------------------------------- the session

  datatype ServiceEvent =
    | GameStart
    | GameEnded(winner: Option<SessionPlayer>, winningRow: Option<string>, winningCells: Option<seq<string>>)

  /** The closure state of one `GameService()`, with the guard's flag and the events dispatched. */
  datatype Session = Session(
    initiated: bool,
    config: Option<Config>,
    players: Option<seq<SessionPlayer>>,
    game: Option<Engine>,
    scores: map<char, int>,
    events: seq<ServiceEvent>)

  const InitProp := "init"

  /** How many of `events` announced a win by `symbol`. */
  function WinsOf(events: seq<ServiceEvent>, symbol: char): (n: nat)
    ensures n <= |events|
  {
    if events == [] then 0
    else
      var last := events[|events| - 1];
      WinsOf(events[..|events| - 1], symbol)
        + (if last.GameEnded? && last.winner.Some? && last.winner.value.symbol == symbol then 1 else 0)
  }

  /** Each symbol's score is the number of wins announced for it. */
  predicate ScoresCountWins(s: Session) {
    && s.scores.Keys == {'X', 'O'}
    && forall c :: c in s.scores ==> s.scores[c] == WinsOf(s.events, c)
  }

  predicate SessionInv(s: Session) {
    && ScoresCountWins(s)
    && (s.initiated <==> s.config.Some?)
    && (s.game.Some? <==> s.players.Some?)
    && (s.players.Some? ==> Paired(s.players.value))
    && (s.game.Some? ==> Settled(s.game.value))
  }

  function NewSession(): (s: Session)
    ensures SessionInv(s) && !s.initiated && s.scores == map['X' := 0, 'O' := 0]
  {
    Session(false, None, None, None, map['X' := 0, 'O' := 0], [])
  }

  /** `init(config)` read through the guard: a second call throws; an unknown game type throws after `_config` is set. */
  function InitSpec(s: Session, options: Options): (r: (Session, Outcome<ServiceError>))
    ensures s.initiated ==> r == (s, Fail(Guarded(Utils.CannotReinitialize)))
    ensures !s.initiated ==>
              && r.0.initiated && r.0.config == Some(MergeDefaults(options))
              && r.0.scores == s.scores && r.0.events == s.events
              && (r.1.Pass? <==> CreatePlayers(MergeDefaults(options)).Ok?)
    ensures !s.initiated && r.1.Pass? ==>
              r.0.players == Some(CreatePlayers(MergeDefaults(options)).value) && r.0.game == Some(NewEngine())
    ensures !s.initiated && r.1.Fail? ==>
              && r.1.error == CreatePlayers(MergeDefaults(options)).error
              && r.0.players == s.players && r.0.game == s.game
  {
    var step := Utils.Trap(s.initiated, InitProp, InitProp, false);
    if step.outcome.Fail? then (s, Fail(Guarded(step.outcome.error)))
    else
      var config := MergeDefaults(options);
      var configured := s.(initiated := step.initiated, config := Some(config));
      match CreatePlayers(config)
      case Err(e) => (configured, Fail(e))
      case Ok(players) => (configured.(players := Some(players), game := Some(NewEngine())), Pass)
  }

  /** The game-over notice: the winning player, the row, and the row's coordinates. */
  function GameEndedEvent(players: seq<SessionPlayer>, g: Engine): (ev: ServiceEvent)
    ensures ev.GameEnded?
    ensures ev.winner.Some? ==> g.winner == Some(ev.winner.value.symbol)
    ensures ev.winner.Some? ==> exists i :: 0 <= i < |players| && players[i] == ev.winner.value
                                  && forall j :: 0 <= j < i ==> players[j].symbol != ev.winner.value.symbol
    ensures g.winner.None? ==> ev.winner.None?
    ensures g.winner.Some? && Paired(players) && g.winner.value in SessionSymbols ==> ev.winner.Some?
    ensures Paired(players) ==>
              forall p :: 0 <= p < 2 && g.winner == Some(SessionSymbols[p]) ==> ev.winner == Some(players[p])
    ensures g.winningLine.Some? && g.winningLine.value < LineCount ==>
              && ev.winningRow == Some(WinConditions[g.winningLine.value].name)
              && ev.winningCells == Some(WinningCells(g.winningLine.value))
    ensures !(g.winningLine.Some? && g.winningLine.value < LineCount) ==> ev.winningRow.None? && ev.winningCells.None?
  {
    var winner := if g.winner.Some? then GetPlayer(players, g.winner.value) else None;
    if g.winningLine.Some? && g.winningLine.value < LineCount then
      GameEnded(winner, Some(WinConditions[g.winningLine.value].name), Some(WinningCells(g.winningLine.value)))
    else
      GameEnded(winner, None, None)
  }

  /**
   * `playTurn(tentativePlay)`: the current player's play (a bot's own `botPlay`, else
   * `tentativePlay`) is placed; a placement that ends the game scores the winner and
   * dispatches the game-over notice.
   */
  function PlayTurnSpec(s: Session, tentativePlay: string, botPlay: string): (r: (Session, Outcome<ServiceError>))
    requires SessionInv(s)
    ensures !s.initiated ==> r == (s, Fail(Guarded(Utils.MustInitiate(InitProp))))
    ensures s.initiated && s.game.None? ==> r == (s, Fail(NotReady))
    ensures r.1.Fail? ==> r.0 == s
  {
    var step := Utils.Trap(s.initiated, "playTurn", InitProp, false);
    if step.outcome.Fail? then (s, Fail(Guarded(step.outcome.error)))
    else if s.players.None? || s.game.None? then (s, Fail(NotReady))
    else
      var players := s.players.value;
      match GetPlayer(players, CurrentSymbol(s.game.value))
      case None => (s, Fail(NotReady))
      case Some(player) =>
        var play := if player.Bot? then botPlay else tentativePlay;
        match PlaceAtPosition(s.game.value, play)
        case Err(e) => (s, Fail(PlaceFailed(e)))
        case Ok(g) => (Concluded(s, players, g), Pass)
  }

  /** The session after a placement: the new engine, and on game over the score and the notice. */
  function Concluded(s: Session, players: seq<SessionPlayer>, g: Engine): (r: Session)
    ensures r.game == Some(g)
    ensures r.initiated == s.initiated && r.config == s.config && r.players == s.players
    ensures !g.isOver ==> r.scores == s.scores && r.events == s.events
    ensures g.isOver ==> r.events == s.events + [GameEndedEvent(players, g)]
    ensures r.scores.Keys == s.scores.Keys
    ensures forall c :: c in s.scores ==>
              r.scores[c] == s.scores[c] + (if g.isOver && GameEndedEvent(players, g).winner.Some?
                                               && GameEndedEvent(players, g).winner.value.symbol == c then 1 else 0)
  {
    if !g.isOver then s.(game := Some(g))
    else
      var ev := GameEndedEvent(players, g);
      var scores := if ev.winner.Some? && ev.winner.value.symbol in s.scores
                    then s.scores[ev.winner.value.symbol := s.scores[ev.winner.value.symbol] + 1]
                    else s.scores;
      s.(game := Some(g), scores := scores, events := s.events + [ev])
  }

  /** `rematch()`: announces a new game, then resets the engine. */
  function RematchSpec(s: Session): (r: (Session, Outcome<ServiceError>))
    ensures !s.initiated ==> r == (s, Fail(Guarded(Utils.MustInitiate(InitProp))))
    ensures r.0.initiated == s.initiated && r.0.config == s.config && r.0.players == s.players && r.0.scores == s.scores
    ensures s.initiated && s.config.Some? ==> r.0.events == s.events + [GameStart]
    ensures r.1.Pass? <==> s.initiated && s.config.Some? && s.game.Some?
    ensures r.1.Pass? ==> r.0.game == Some(NewEngine())
    ensures r.1.Fail? ==> r.0.game == s.game
  {
    var step := Utils.Trap(s.initiated, "rematch", InitProp, false);
    if step.outcome.Fail? then (s, Fail(Guarded(step.outcome.error)))
    else if s.config.None? then (s, Fail(NotReady))
    else
      var announced := s.(events := s.events + [GameStart]);
      if s.game.None? then (announced, Fail(NotReady))
      else (announced.(game := Some(NewEngine())), Pass)
  }

  // ---------------------------------------------------------------- getters

  /** The `board` getter: the board keyed by coordinate. */
  function BoardView(s: Session): (r: Result<map<string, char>, ServiceError>)
    requires SessionInv(s)
    ensures r.Ok? <==> s.initiated && s.game.Some?
    ensures r.Ok? ==> r.value.Keys == AllCoordinates
    ensures r.Ok? ==> forall i :: 0 <= i < 9 ==> r.value[Codec.Coordinate(i)] == s.game.value.board[i]
  {
    var step := Utils.Trap(s.initiated, "board", InitProp, false);
    if step.outcome.Fail? then Err(Guarded(step.outcome.error))
    else if s.game.None? then Err(NotReady)
    else
      FullBoardKeys(s.game.value.board);
      Ok(MapBoardToCells(s.game.value.board).value)
  }

  /** The `scores` getter: a copy of the per-symbol win counts. */
  function ScoresView(s: Session): (r: Result<map<char, int>, ServiceError>)
    requires SessionInv(s)
    ensures r.Ok? <==> s.initiated
    ensures r.Ok? ==> r.value.Keys == {'X', 'O'}
    ensures r.Ok? ==> forall c :: c in r.value ==> r.value[c] == WinsOf(s.events, c)
  {
    var step := Utils.Trap(s.initiated, "scores", InitProp, false);
    if step.outcome.Fail? then Err(Guarded(step.outcome.error))
    else Ok(s.scores)
  }

  /** The `currentPlayer` getter: the player holding the current symbol. */
  function CurrentPlayerView(s: Session): (r: Result<SessionPlayer, ServiceError>)
    requires SessionInv(s)
    ensures r.Ok? <==> s.initiated && s.game.Some?
    ensures r.Ok? ==> r.value == s.players.value[s.game.value.turn % 2]
  {
    var step := Utils.Trap(s.initiated, "currentPlayer", InitProp, false);
    if step.outcome.Fail? then Err(Guarded(step.outcome.error))
    else if s.game.None? then Err(NotReady)
    else
      match GetPlayer(s.players.value, CurrentSymbol(s.game.value))
      case None => Err(NotReady)
      case Some(p) => Ok(p)
  }

  /** The `winner` getter: the player whose symbol completed a line, or none. */
  function WinnerView(s: Session): (r: Result<Option<SessionPlayer>, ServiceError>)
    requires SessionInv(s)
    ensures r.Ok? <==> s.initiated && s.game.Some?
    ensures r.Ok? ==> (r.value.Some? <==> Judge(s.game.value.board, SessionSymbols, TicTacToe.EmptyCell).Win?)
    ensures r.Ok? && r.value.Some? ==>
              r.value.value == s.players.value[Judge(s.game.value.board, SessionSymbols, TicTacToe.EmptyCell).player]
  {
    var step := Utils.Trap(s.initiated, "winner", InitProp, false);
    if step.outcome.Fail? then Err(Guarded(step.outcome.error))
    else if s.game.None? then Err(NotReady)
    else if s.game.value.winner.None? then Ok(None)
    else Ok(GetPlayer(s.players.value, s.game.value.winner.value))
  }

  /** The `isGameOver` and `winningRow` getters: whether the board is decided, and by which line. */
  function OutcomeView(s: Session): (r: Result<(bool, Option<string>), ServiceError>)
    requires SessionInv(s)
    ensures r.Ok? <==> s.initiated && s.game.Some?
    ensures r.Ok? ==> (r.value.0 <==> !Judge(s.game.value.board, SessionSymbols, TicTacToe.EmptyCell).Ongoing?)
    ensures r.Ok? ==> var v := Judge(s.game.value.board, SessionSymbols, TicTacToe.EmptyCell);
                      r.value.1 == if v.Win? then Some(WinConditions[v.line].name) else None
  {
    var step := Utils.Trap(s.initiated, "isGameOver", InitProp, false);
    if step.outcome.Fail? then Err(Guarded(step.outcome.error))
    else if s.game.None? then Err(NotReady)
    else
      var g := s.game.value;
      Ok((g.isOver, if g.winningLine.Some? && g.winningLine.value < LineCount then Some(WinConditions[g.winningLine.value].name) else None))
  }

  // ---------------------------------------------------------------- properties

  lemma InitKeepsInv(s: Session, options: Options)
    requires SessionInv(s)
    ensures SessionInv(InitSpec(s, options).0)
  {
  }

  lemma {:induction false} WinsOfAppend(events: seq<ServiceEvent>, ev: ServiceEvent, c: char)
    ensures WinsOf(events + [ev], c)
            == WinsOf(events, c) + (if ev.GameEnded? && ev.winner.Some? && ev.winner.value.symbol == c then 1 else 0)
  {
    assert (events + [ev])[..|events + [ev]| - 1] == events;
  }

  lemma PlayTurnKeepsInv(s: Session, tentativePlay: string, botPlay: string)
    requires SessionInv(s)
    ensures SessionInv(PlayTurnSpec(s, tentativePlay, botPlay).0)
  {
    var (s', r) := PlayTurnSpec(s, tentativePlay, botPlay);
    if |s'.events| > |s.events| {
      var ev := s'.events[|s'.events| - 1];
      assert s'.events == s.events + [ev];
      forall c | c in s'.scores
        ensures s'.scores[c] == WinsOf(s'.events, c)
      {
        WinsOfAppend(s.events, ev, c);
      }
    }
  }

  lemma RematchKeepsInv(s: Session)
    requires SessionInv(s)
    ensures SessionInv(RematchSpec(s).0)
  {
    var (s', r) := RematchSpec(s);
    if s'.events != s.events {
      forall c | c in s'.scores
        ensures s'.scores[c] == WinsOf(s'.events, c)
      {
        WinsOfAppend(s.events, GameStart, c);
      }
    }
  }

  /** A turn that ends the game with a winner adds exactly one to that symbol's score. */
  lemma WinScoresOne(s: Session, tentativePlay: string, botPlay: string)
    requires SessionInv(s)
    ensures var (s', r) := PlayTurnSpec(s, tentativePlay, botPlay);
            r.Pass? && s'.game.value.isOver && s'.game.value.winner.Some? ==>
              var w := s'.game.value.winner.value;
              && s'.scores.Keys == s.scores.Keys
              && s'.scores[w] == s.scores[w] + 1
              && forall c :: c in s.scores && c != w ==> s'.scores[c] == s.scores[c]
  {
    var (s', r) := PlayTurnSpec(s, tentativePlay, botPlay);
    if r.Pass? && s'.game.value.isOver && s'.game.value.winner.Some? {
      var g := s'.game.value;
      assert g.winner.value in SessionSymbols;
      var ev := GameEndedEvent(s.players.value, g);
      assert ev.winner.Some?;
    }
  }

  /** A turn that ends the game in a tie changes no score. */
  lemma TieKeepsScores(s: Session, tentativePlay: string, botPlay: string)
    requires SessionInv(s)
    ensures var (s', r) := PlayTurnSpec(s, tentativePlay, botPlay);
            r.Pass? && s'.game.value.isOver && s'.game.value.winner.None? ==> s'.scores == s.scores
  {
  }

  /**
   * The play placed is the current mover's: a bot's own `botPlay`, a human's
   * `tentativePlay`. The turn passes exactly when that placement is accepted, and the
   * session then holds the engine it produced.
   */
  lemma PlayTurnPlacesMoversPlay(s: Session, tentativePlay: string, botPlay: string)
    requires SessionInv(s) && s.initiated && s.game.Some?
    ensures var mover := s.players.value[s.game.value.turn % 2];
            var play := if mover.Bot? then botPlay else tentativePlay;
            var placed := PlaceAtPosition(s.game.value, play);
            var (s', r) := PlayTurnSpec(s, tentativePlay, botPlay);
            && (r.Pass? <==> placed.Ok?)
            && (r.Pass? ==> s'.game == Some(placed.value))
            && (r.Pass? ==> s' == Concluded(s, s.players.value, placed.value))
            && (r.Fail? ==> r.error == PlaceFailed(placed.error))
  {
    var players := s.players.value;
    var mover := players[s.game.value.turn % 2];
    assert GetPlayer(players, CurrentSymbol(s.game.value)) == Some(mover);
  }

  /** A refused turn leaves the session exactly as it was. */
  lemma RefusedTurnChangesNothing(s: Session, tentativePlay: string, botPlay: string)
    requires SessionInv(s)
    ensures var (s', r) := PlayTurnSpec(s, tentativePlay, botPlay);
            r.Fail? ==> s' == s
    ensures var (s', r) := PlayTurnSpec(s, tentativePlay, botPlay);
            r.Pass? ==> s'.players == s.players && s'.config == s.config && s'.game.value.turn == s.game.value.turn + 1
  {
  }

  /** A rematch starts a fresh game with the same players and the same scores. */
  lemma RematchKeepsPlayersAndScores(s: Session)
    requires SessionInv(s)
    ensures var (s', r) := RematchSpec(s);
            && s'.players == s.players && s'.scores == s.scores && s'.config == s.config
            && (r.Pass? <==> s.initiated && s.game.Some?)
            && (r.Pass? ==> s'.game == Some(NewEngine()) && s'.events == s.events + [GameStart])
  {
  }

  /** `init` works once: any later call throws and changes nothing. */
  lemma InitOnlyOnce(s: Session, options: Options, again: Options)
    requires SessionInv(s)
    ensures var (s', r) := InitSpec(s, options);
            s'.initiated && InitSpec(s', again) == (s', Fail(Guarded(Utils.CannotReinitialize)))
  {
  }

  /** Without options, a session is two humans, 'Player 1' as X and 'Player 2' as O, on an empty board. */
  lemma DefaultSession()
    ensures var (s, r) := InitSpec(NewSession(), NoOptions);
            && r == Pass
            && s.config == Some(Config(Easy, None, PlayerVsPlayer, "Player 1", "Player 2"))
            && s.players == Some([Human("Player 1", 'X'), Human("Player 2", 'O')])
            && s.game == Some(NewEngine())
            && s.scores == map['X' := 0, 'O' := 0]
  {
  }

  /** Nothing but `init` may be used first: every other operation throws and changes nothing. */
  lemma UninitiatedRefusesAll(s: Session, tentativePlay: string, botPlay: string)
    requires SessionInv(s) && !s.initiated
    ensures PlayTurnSpec(s, tentativePlay, botPlay) == (s, Fail(Guarded(Utils.MustInitiate(InitProp))))
    ensures RematchSpec(s) == (s, Fail(Guarded(Utils.MustInitiate(InitProp))))
    ensures ScoresView(s) == Err(Guarded(Utils.MustInitiate(InitProp)))
  {
  }

  // ---------------------------------------------------------------- the service object

  /** One `GameService()` instance behind its init guard. */
  class GameService {
    var initiated: bool
    var config: Option<Config>
    var players: Option<seq<SessionPlayer>>
    var game: Option<Engine>
    var scores: map<char, int>
    var events: seq<ServiceEvent>

    function Abs(): Session
      reads this
    {
      Session(initiated, config, players, game, scores, events)
    }

    ghost predicate Valid()
      reads this
    {
      SessionInv(Abs())
    }

    constructor ()
      ensures Valid() && Abs() == NewSession()
    {
      initiated := false;
      config := None;
      players := None;
      game := None;
      scores := map['X' := 0, 'O' := 0];
      events := [];
    }

    method Init(options: Options) returns (r: Outcome<ServiceError>)
      requires Valid()
      modifies this
      ensures Valid() && (Abs(), r) == InitSpec(old(Abs()), options)
    {
      InitKeepsInv(Abs(), options);
      var step := Utils.Trap(initiated, InitProp, InitProp, false);
      if step.outcome.Fail? {
        return Fail(Guarded(step.outcome.error));
      }
      initiated := step.initiated;
      var merged := MergeDefaults(options);
      config := Some(merged);
      var created := CreatePlayers(merged);
      if created.Err? {
        return Fail(created.error);
      }
      players := Some(created.value);
      game := Some(NewEngine());
      r := Pass;
    }

    method PlayTurn(tentativePlay: string, botPlay: string) returns (r: Outcome<ServiceError>)
      requires Valid()
      modifies this
      ensures Valid() && (Abs(), r) == PlayTurnSpec(old(Abs()), tentativePlay, botPlay)
    {
      PlayTurnKeepsInv(Abs(), tentativePlay, botPlay);
      var step := Utils.Trap(initiated, "playTurn", InitProp, false);
      if step.outcome.Fail? {
        return Fail(Guarded(step.outcome.error));
      }
      if players.None? || game.None? {
        return Fail(NotReady);
      }
      var player := GetPlayer(players.value, CurrentSymbol(game.value));
      if player.None? {
        return Fail(NotReady);
      }
      var play := if player.value.Bot? then botPlay else tentativePlay;
      var placed := PlaceAtPosition(game.value, play);
      if placed.Err? {
        return Fail(PlaceFailed(placed.error));
      }
      Conclude(players.value, placed.value);
      r := Pass;
    }

    /** Stores the engine after a placement; on game over scores the winner and dispatches the notice. */
    method Conclude(players: seq<SessionPlayer>, g: Engine)
      modifies this
      ensures Abs() == Concluded(old(Abs()), players, g)
    {
      game := Some(g);
      if g.isOver {
        var ev := GameEndedEvent(players, g);
        if ev.winner.Some? && ev.winner.value.symbol in scores {
          var w := ev.winner.value.symbol;
          scores := scores[w := scores[w] + 1];
        }
        events := events + [ev];
      }
    }

    method Rematch() returns (r: Outcome<ServiceError>)
      requires Valid()
      modifies this
      ensures Valid() && (Abs(), r) == RematchSpec(old(Abs()))
    {
      RematchKeepsInv(Abs());
      var step := Utils.Trap(initiated, "rematch", InitProp, false);
      if step.outcome.Fail? {
        return Fail(Guarded(step.outcome.error));
      }
      if config.None? {
        return Fail(NotReady);
      }
      events := events + [GameStart];
      if game.None? {
        return Fail(NotReady);
      }
      game := Some(NewEngine());
      r := Pass;
    }
  }
}
