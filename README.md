# Tic-tac-toe rules, codec and session, in Dafny

A model of the core of a browser tic-tac-toe game written in JavaScript:

- `assets/scripts/game.js`:
  - the position codec (`toArrayPosition`, `toBoardPosition`);
  - `validatePlayers`;
  - the `Game` closure (retrying `nextTurn`, `checkForGameOver`, `reset`, and the `board`/`winner` getters).
- `assets/scripts/app.js`: the older `Game.prototype` engine over string cells, and its `Translator`.
- `assets/scripts/services.js`:
  - the `GameService` session: merging `init` options with the defaults, `createPlayers`, `getPlayer`, `mapBoardToCells`;
  - the score bookkeeping of `playTurn`, and `rematch`;
  - the getters.
- `assets/scripts/utils.js`: the `get` trap of `createInitProxy`, and `getRandomChoice`.

Files, one module each:

| file | module | contents |
|---|---|---|
| `wrappers.dfy` | `Wrappers` | `Option`, `Result`, `Outcome` |
| `codec.dfy` | `Codec` | the codec of game.js and its round trips |
| `rules.dfy` | `Rules` | the win table and the verdict both engines compute |
| `game.dfy` | `TicTacToe` | game.js: validation, the game state and its invariant, the `Game` class |
| `app.dfy` | `App` | app.js: `Translator` and the `Game` class over string cells |
| `utils.dfy` | `Utils` | the init guard and `getRandomChoice` |
| `services.dfy` | `GameServices` | the session façade and the rules engine it drives |

Each engine is specified by pure functions over a state value (`NextTurnSpec`, `CheckForGameOverSpec`, `ResetSpec`, and so on). The classes hold the source's mutable state: the board is an `array`, and the other closure variables are fields. Each method is proved to move `Abs()` exactly as its specification function does. The properties are lemmas about the specification functions.

The verdict (`Rules.Judge`) scans the eight lines in table order and the players in seat order. The first filled line wins. Otherwise a full board is a tie, and anything else is still ongoing.

Some choices in the model:

- **A player's input.** `player.play(board)` is a sequence of tentative plays, tried in order. In game.js a turn that runs out of plays stays pending, with `_turnInProgress` still set. In app.js the turn counter has already advanced by then.
- **The game.js winner.** It is stored as a seat index, because `_winner` aliases one of `_players`, whose score `checkForGameOver` raises.
- **Object identity.** Getters that clone (`winner`, `players`, `scores`) return values, so a caller can never reach the internal state.
- **The services.js engine.** It calls an engine API that game.js does not export: `placeAtPosition`, `currentSymbol`, `scoringRows`, `parseToBoardPosition`, `GameTypes`, `BotDifficulty` and `Bot`. `Bot` is defined in game.js (game.js:263-273), but its entry in the public API is commented out (game.js:325). That engine is modelled as `GameServices.Engine`:
  - built from the game.js codec (`Attempt`) and verdict (`Judge`);
  - with the symbols 'X' first and 'O' second;
  - a placement that is invalid, or made after game over, fails and leaves the engine as it was.
- **Humans and bots in `playTurn`.** It treats a player with a `play` member as a bot. Here `Human` has none and `Bot` has one. With game.js's own `Player`, which inherits `play`, every player would take the bot path.
- **The bot's move.** It is a parameter (`botPlay`).

Details of the code the model follows:

- Player names take their default only when the option is omitted (`Object.assign`), not when it is blank.
- The option names are `P1Name`/`P2Name`.
- game.js checks for game over before advancing the turn. Since the verdict does not read the turn, the result is the same.
- In game.js, scores live on the cloned player objects. In services.js they are a per-symbol map.
- app.js validates nothing. `App.BlankSymbolWinsAtOnce` shows that a player whose symbol is the blank cell wins on the first move.

## Model

| member | source | states |
|---|---|---|
| Codec.ToArrayPosition | assets/scripts/game.js:303-310 | succeeds exactly on a row letter A–C (either case) followed by a digit 1–3, giving the index row*3+col in 0..8 (row from the letter, column from the digit); any other play fails with an invalid-position error |
| Codec.ToBoardPosition | assets/scripts/game.js:312-319 | succeeds exactly on indexes 0..8, giving the letter 'A' + i/3 followed by the digit '1' + i%3; others fail with an invalid-index error |
| Codec.CoordinateTable | assets/scripts/game.js:312-319 | indexes 0..8 are A1, A2, A3, B1, B2, B3, C1, C2, C3, in that order |
| Codec.IndexRoundTrip | assets/scripts/game.js:303-319 | decoding the coordinate of any index 0..8 gives the index back |
| Codec.CoordinateRoundTrip | assets/scripts/game.js:303-319 | encoding the index of any valid play gives the play with its row letter upper-cased |
| Codec.CoordinateInjective | assets/scripts/game.js:312-319 | distinct indexes have distinct coordinates |
| Rules.TableWellFormed | assets/scripts/game.js:11-20 | the table has eight lines, each naming three distinct cells of the 3x3 board |
| Rules.WinnerOfLine | assets/scripts/game.js:208-221 | the first player, in seat order, whose symbol fills the line, or none |
| Rules.FindWin | assets/scripts/game.js:204-222 | the first filled (line, player) pair in table order, or none exactly when no line is filled |
| Rules.Judge | assets/scripts/game.js:197-229 | a win is the first filled line in table order (and the first player on it); a tie exactly when no line is filled and no cell is empty; ongoing otherwise |
| Rules.FirstWinIsVerdict | assets/scripts/game.js:204-222 | a scan that stops at a given line and player yields exactly that win |
| Rules.WinnerIsMover | assets/scripts/game.js:142-154 | when nobody had won and one symbol is written into an empty cell, any win is that symbol's, on a line through that cell |
| TicTacToe.SeatFault | assets/scripts/game.js:280-296 | none exactly when every player from a seat on is a base player with a one-character non-blank symbol |
| TicTacToe.Validation | assets/scripts/game.js:275-301 | passes exactly on two acceptable players with different symbols; fails with the count error exactly when there are not two players |
| TicTacToe.ValidatePlayers | assets/scripts/game.js:275-301 | the loop over the players reports the same first failure as `Validation` |
| TicTacToe.Adopt | assets/scripts/game.js:44-46 | the clone keeps name, symbol and score |
| TicTacToe.InitialInv | assets/scripts/game.js:48-53 | a new game's state satisfies the invariant (counts per seat and verdict agreement) |
| TicTacToe.NextPlayer | assets/scripts/game.js:231-234 | the player of seat `turn % 2` |
| TicTacToe.Attempt | assets/scripts/game.js:132-143 | a play is accepted exactly when it parses to an empty cell; a parse error and an occupied cell are told apart |
| TicTacToe.FirstAccepted | assets/scripts/game.js:128-151 | the first acceptable play from position k on, all plays before it being refused; none exactly when all are refused |
| TicTacToe.Rejections | assets/scripts/game.js:144-150 | one rejection per refused play, in order, with its motive |
| TicTacToe.CheckForGameOverSpec | assets/scripts/game.js:197-229 | does nothing once over; never touches the board, the turn, the flag or the players' symbols; notifies exactly when it ends the game |
| TicTacToe.GameOverOutcome | assets/scripts/game.js:197-229 | on a game not yet over, the new isOver, winner and winningRow are what the verdict on the board says; only the winner's score is raised, by one; the notice names the winner (with its new score) and the row, or is a tie |
| TicTacToe.DecidedByWin | assets/scripts/game.js:204-220 | when the scan finds seat p on line l first, the check scores p, records it as winner with the line's name, ends the game and announces that victory |
| TicTacToe.DecidedWithoutWin | assets/scripts/game.js:224-228 | when no line is won, a full board ends the game as a tie and any other board is left as it is |
| TicTacToe.Place | assets/scripts/game.js:142-160 | writes the mover's symbol into the chosen cell, advances the turn and ends the turn |
| TicTacToe.PlaceAfterCheck | assets/scripts/game.js:142-160 | running the check while the flag is still set, then advancing the turn and clearing the flag, gives the same state and notice as `Place` |
| TicTacToe.NextTurnSpec | assets/scripts/game.js:105-161 | throws when over or when a turn is in progress; otherwise writes the mover's symbol in the cell the first acceptable play names, reports the refusals of the plays before it, passes the turn, raises only the winner's score and announces the outcome; or, when every play is refused, stays pending with all their refusals |
| TicTacToe.ResetSpec | assets/scripts/game.js:163-170 | keeps the players; empties the board and clears turn, isOver, winner, winningRow and the in-progress flag |
| TicTacToe.CountsAfterWrite | assets/scripts/game.js:142 | writing a symbol into an empty cell adds one of that symbol and removes one empty cell |
| TicTacToe.PlaceKeepsInv | assets/scripts/game.js:142-160 | a placement preserves the invariant |
| TicTacToe.NextTurnPreservesInv | assets/scripts/game.js:105-161 | every turn preserves the invariant: seat 0 has placed ceil(turn/2) symbols, seat 1 floor(turn/2), 9-turn cells are empty, and the game-over fields match the verdict |
| TicTacToe.ResetPreservesInv | assets/scripts/game.js:163-170 | reset yields the new-game state, which satisfies the invariant |
| TicTacToe.TurnOutcome | assets/scripts/game.js:127-161 | a turn either stays pending with the refusals of all plays, or places in the cell of the first acceptable play with the refusals of the plays before it |
| TicTacToe.RejectedPlayIsRetried | assets/scripts/game.js:127-151 | a refused play only adds a rejection: the turn proceeds as if the remaining plays had been given alone |
| TicTacToe.WinnerJustMoved | assets/scripts/game.js:208-219 | a win is always scored for the player who just moved, on a line through the cell played |
| TicTacToe.PlacedWinnerIsMover | assets/scripts/game.js:208-219 | a placement that produces a winner makes the mover the winner, on a line through the placed cell |
| TicTacToe.NineTurnsEndTheGame | assets/scripts/game.js:225-228 | after nine turns the game is over, and a game over without a winner has a full board |
| TicTacToe.OverExactlyWhenDecided | assets/scripts/game.js:197-229 | the game is over exactly when a line is filled or the board is full; a tie has no winner and no row |
| TicTacToe.Game.constructor | assets/scripts/game.js:37-53 | a new game on an empty board, turn 0, nothing decided |
| TicTacToe.Game.Create | assets/scripts/game.js:44-46 | construction fails with validation's error, or builds the game from clones of the two players |
| TicTacToe.Game.Board | assets/scripts/game.js:64-70 | the `board` getter copies the nine cells |
| TicTacToe.Game.Winner | assets/scripts/game.js:85-91 | the `winner` getter is some player exactly when the verdict is a win, and then the verdict's player |
| TicTacToe.Game.NextTurn | assets/scripts/game.js:105-161 | the guards, the retry loop and the placement move the state exactly as `NextTurnSpec` |
| TicTacToe.Game.Solicit | assets/scripts/game.js:127-151 | the retry loop stops at the first acceptable play and reports the refusals of the plays before it, or of all plays when none is acceptable |
| TicTacToe.Game.Accept | assets/scripts/game.js:142-160 | the in-place write, game-over check and turn advance move the state as `Place` |
| TicTacToe.Game.CheckForGameOver | assets/scripts/game.js:197-229 | moves the state and returns the notice as `CheckForGameOverSpec` |
| TicTacToe.Game.ScanLines | assets/scripts/game.js:204-222 | the nested scan over lines and seats finds the same first won line and seat as `FindWin` |
| TicTacToe.Game.Crown | assets/scripts/game.js:214-217 | raises the winner's score by one and records winner, row and game over, leaving the rest unchanged |
| TicTacToe.Game.Reset | assets/scripts/game.js:163-170 | moves the state as `ResetSpec` |
| TicTacToe.Game.Clear | assets/scripts/game.js:164-169 | a fresh empty board and the new-game fields, players kept, the invariant holding |
| App.ToArrayPosition | assets/scripts/app.js:113-123 | succeeds exactly on a valid board position, with an index in 0..8 |
| App.ToBoardPosition | assets/scripts/app.js:124-134 | succeeds exactly on 0..8, with an upper-case board position |
| App.TranslatorMatchesCodec | assets/scripts/app.js:110-135 | the Translator accepts exactly what game.js's codec accepts, with the same results |
| App.TranslatorRoundTrip | assets/scripts/app.js:110-135 | both round trips of the Translator hold |
| App.NextPlayerSpec | assets/scripts/app.js:70-74 | returns the player of seat `turn % 2` and advances the turn at once |
| App.Attempt | assets/scripts/app.js:89-98 | a play is accepted exactly when it parses to an empty cell |
| App.FirstAccepted | assets/scripts/app.js:86-105 | the first acceptable play from position k on; none exactly when all are refused |
| App.CheckForWinnerSpec | assets/scripts/app.js:137-149 | on a win sets winner, winningRow and isOver from the first filled line; otherwise changes nothing |
| App.CheckForTieSpec | assets/scripts/app.js:151-155 | isOver becomes true exactly when the board is full (or it already was); the winner is never altered |
| App.CheckForGameOverSpec | assets/scripts/app.js:157-164 | does nothing once over; otherwise the winner check, then the tie check |
| App.NextTurnSpec | assets/scripts/app.js:76-108 | throws when over; otherwise the turn advances first, then the mover's symbol goes in the cell the first acceptable play names, the plays before it are reported, the players are kept, and isOver, winner and winningRow follow the verdict on the new board; or the turn stays pending |
| App.NextTurnPreservesInv | assets/scripts/app.js:76-108 | every turn keeps nine cells and two players, sets a winner and a winning row together, and sets a winner only once over |
| App.GameOverFollowsVerdict | assets/scripts/app.js:157-164 | after the check, isOver, winner and winningRow are what the verdict on the board says |
| App.LiftedVerdict | assets/scripts/app.js:137-155 | the verdict on one-character string cells equals the verdict on the characters |
| App.SameOutcomeAsGameJs | assets/scripts/app.js:137-164 | on the same board and symbols, app.js and game.js reach the same isOver, winner seat and winning row |
| App.BlankSymbolWinsAtOnce | assets/scripts/app.js:19-36 | with no validation, a player whose symbol is the blank cell wins "horizontal-top" on the first move |
| App.Game.constructor | assets/scripts/app.js:19-36 | a new game on an empty board, turn 0, nothing decided |
| App.Game.Board | assets/scripts/app.js:38-44 | the `board` getter copies the nine cells |
| App.Game.Winner | assets/scripts/app.js:62-68 | the `winner` getter is the stored winner, present only once over |
| App.Game.NextPlayer | assets/scripts/app.js:70-74 | moves the state as `NextPlayerSpec`, leaving the board alone |
| App.Game.NextTurn | assets/scripts/app.js:76-108 | the retry loop moves the state exactly as `NextTurnSpec` |
| App.Game.CheckForWinner | assets/scripts/app.js:137-149 | the line scan moves the state as `CheckForWinnerSpec` |
| App.Game.CheckForTie | assets/scripts/app.js:151-155 | moves the state as `CheckForTieSpec` |
| App.Game.CheckForGameOver | assets/scripts/app.js:157-164 | moves the state as `CheckForGameOverSpec` |
| Utils.Trap | assets/scripts/utils.js:34-44 | before initiation only initProp may be read, and reading it initiates; afterwards initProp throws unless reinitialization is allowed, and every other property passes; the flag never returns to false |
| Utils.InitiatedIsFinal | assets/scripts/utils.js:31-44 | over any series of reads, an initiated object stays initiated, every other property passes, and initProp passes exactly when reinitialization is allowed |
| Utils.GuardedUntilInit | assets/scripts/utils.js:37-41 | until initProp is read, every read throws the must-initiate error and nothing is initiated |
| Utils.InitProxy.constructor | assets/scripts/utils.js:26-33 | wraps the object, not yet initiated |
| Utils.InitProxy.Get | assets/scripts/utils.js:34-44 | a read throws or flips the flag as `Trap` says, and otherwise returns the wrapped object's value unchanged |
| Utils.ChoiceOptions | assets/scripts/utils.js:76-78 | an array given first is unwrapped; otherwise the arguments are the options |
| Utils.GetRandomChoice | assets/scripts/utils.js:75-84 | null exactly when there are no options, and otherwise one of the options |
| GameServices.NewEngine | assets/scripts/services.js:118 | a new engine: empty board, turn 0, not over, fields agreeing with the verdict |
| GameServices.CurrentSymbol | assets/scripts/services.js:80 | one of the two session symbols |
| GameServices.PlaceAtPosition | assets/scripts/services.js:86 | fails exactly when over or when the play is invalid or taken; otherwise writes the current symbol into the empty cell, advances the turn, and the game-over fields agree with the verdict |
| GameServices.WinningCells | assets/scripts/services.js:96-100 | three coordinates for a row |
| GameServices.WinningCellsDecode | assets/scripts/services.js:96-100 | the winning cells decode to exactly the cells of the winning line |
| GameServices.MergeDefaults | assets/scripts/services.js:6-13 | each given option wins; each missing one is EASY, no delay range, PLAYER_VS_PLAYER, 'Player 1' or 'Player 2' |
| GameServices.CreatePlayers | assets/scripts/services.js:157-186 | fails exactly on an unknown game type; otherwise X first and O second, humans and bots by game type, with the configured names and difficulty |
| GameServices.GetPlayer | assets/scripts/services.js:188-190 | the first player with the symbol; none exactly when no player has it |
| GameServices.CellsOf | assets/scripts/services.js:195-198 | the fold over the first n cells keys each by its coordinate with its own value, and fails past the ninth cell |
| GameServices.MapBoardToCells | assets/scripts/services.js:192-199 | every cell is keyed by its coordinate with its own value, and the keys are exactly those coordinates |
| GameServices.CoordinatesAreAll | assets/scripts/services.js:192-199 | the coordinates of the nine cells are A1 to C3 |
| GameServices.FullBoardKeys | assets/scripts/services.js:192-199 | a nine-cell board maps to nine distinct keys, A1 to C3 |
| GameServices.WinsOf | assets/scripts/services.js:89-106 | the count of announced wins never exceeds the number of events |
| GameServices.NewSession | assets/scripts/services.js:19-23 | scores start at X 0, O 0, not initiated |
| GameServices.GameEndedEvent | assets/scripts/services.js:89-106 | the notice's winner is the session's first player holding the engine's winning symbol (seat p's player when the engine's winner is seat p's symbol), and is absent without a winner; its row is the winning line's name and its cells that line's coordinates, both absent without a line |
| GameServices.InitSpec | assets/scripts/services.js:115-119 | a second call throws and changes nothing; a first call stores the merged configuration, then creates the players and a fresh engine, or fails on an unknown game type with the configuration kept |
| GameServices.PlayTurnSpec | assets/scripts/services.js:79-108 | throws before `init` and without a game; a refused turn changes nothing |
| GameServices.PlayTurnPlacesMoversPlay | assets/scripts/services.js:80-107 | the placed play is the bot's own when the mover is a bot and the tentative play otherwise; the turn passes exactly when that placement is accepted, with the engine it produced, and a passing turn leaves the session as `Concluded` does: scores and the game-over notice on a win or a tie |
| GameServices.Concluded | assets/scripts/services.js:87-106 | stores the new engine; on game over records the notice and raises only the winner's score by one; before it keeps scores and events |
| GameServices.RematchSpec | assets/scripts/services.js:110-113 | throws before `init`; keeps players, scores and configuration, announces a new game and resets the engine |
| GameServices.InitKeepsInv | assets/scripts/services.js:115-119 | `init` keeps the session invariant |
| GameServices.InitOnlyOnce | assets/scripts/services.js:115-119 | after `init`, a second `init` throws and changes nothing |
| GameServices.DefaultSession | assets/scripts/services.js:115-119 | `init` without options gives two humans 'Player 1' (X) and 'Player 2' (O), EASY, no delay, an empty game and zero scores |
| GameServices.UninitiatedRefusesAll | assets/scripts/services.js:75 | before `init`, `playTurn`, `rematch` and the getters throw and change nothing |
| GameServices.PlayTurnKeepsInv | assets/scripts/services.js:79-108 | `playTurn` keeps the session invariant: each score equals the number of wins announced for its symbol |
| GameServices.WinScoresOne | assets/scripts/services.js:89-94 | a turn that ends the game with a winner raises that symbol's score by exactly one and leaves the other unchanged |
| GameServices.TieKeepsScores | assets/scripts/services.js:89-94 | a turn that ends the game in a tie changes no score |
| GameServices.RefusedTurnChangesNothing | assets/scripts/services.js:79-108 | a refused turn leaves the session as it was; an accepted one keeps players and configuration and advances the turn by one |
| GameServices.RematchKeepsInv | assets/scripts/services.js:110-113 | `rematch` keeps the session invariant |
| GameServices.RematchKeepsPlayersAndScores | assets/scripts/services.js:110-113 | `rematch` keeps players, scores and configuration, announces a new game and installs a fresh engine |
| GameServices.BoardView | assets/scripts/services.js:32-36 | the `board` getter has exactly the keys A1 to C3, each holding its cell |
| GameServices.ScoresView | assets/scripts/services.js:54-58 | the `scores` getter gives X and O, each the number of wins announced for it |
| GameServices.CurrentPlayerView | assets/scripts/services.js:37-43 | the `currentPlayer` getter is the player of seat `turn % 2` |
| GameServices.WinnerView | assets/scripts/services.js:59-67 | the `winner` getter is a player exactly when the board's verdict is a win, and then the winning seat's player |
| GameServices.OutcomeView | assets/scripts/services.js:44-72 | the `isGameOver` (44-48) and `winningRow` (68-72) getters: `isGameOver` holds exactly when the verdict is not ongoing, and `winningRow` is the winning line's name or none |
| GameServices.GameService.constructor | assets/scripts/services.js:19-23 | a new session, not initiated, scores at zero |
| GameServices.GameService.Init | assets/scripts/services.js:115-119 | moves the session as `InitSpec` |
| GameServices.GameService.PlayTurn | assets/scripts/services.js:79-108 | moves the session as `PlayTurnSpec` |
| GameServices.GameService.Conclude | assets/scripts/services.js:89-106 | stores the engine; on game over scores the winner and records the notice |
| GameServices.GameService.Rematch | assets/scripts/services.js:110-113 | moves the session as `RematchSpec` |

## Left out

- Asynchrony. `await` on `player.play`, the bot delay, `sleep`, and `CustomEvent` dispatch are not modelled. A turn's plays are given up front. Dispatch is a log of `GameStart`/`GameEnded` events, and bot-delay events are not recorded.
- The real reentrancy of an overlapping `nextTurn`. It is kept only as the `turnInProgress` flag that makes a second call throw.
- The bot's strategy. It is absent from the code (game.js:271-273), so its move is the `botPlay` parameter.
- `getRandomNumber`, `shuffle` and `throttle`: randomness, floating point and clocks. `GetRandomChoice` chooses its index nondeterministically within bounds.
- `clone`, `deepClone` and `deepFreeze`: prototype manipulation. Getters return values.
- `print` and `toString`: text rendering only.
- The DOM controller, `players.js` and the event-name constants: UI only. The `eventTarget` option is not modelled.
- Inputs of other JavaScript types to the codecs. Plays are strings and indexes are integers, so `toBoardPosition("3")` is not modelled.
- Symbols longer than one UTF-16 unit. Characters are Dafny `char`.
- An option passed explicitly as `undefined`. `Object.assign` would copy it over the default; the model treats it as omitted.
- TicTacToe.NextTurnSpec: a turn that never receives an acceptable play stays pending, in place of the source's endless wait for more input.
- TicTacToe.NextTurnSpec: a player's answer cannot throw. In the source, a `play` that throws (`BasePlayer.prototype.play`, game.js:245-249, or `Bot.prototype.play`, game.js:271-273) escapes `nextTurn` outside its `try`. `_turnInProgress` then stays set, so every later `nextTurn` throws until `reset`. The pending state models the same stuck state: flag set, board unchanged. The thrown error is not modelled.
- App.NextTurnSpec: the same pending turn. The turn counter has already advanced.
- Aliasing in app.js. Its constructor keeps the caller's player objects without cloning them, so the caller can change a player during a game; the model holds players as values.
- GameServices.PlaceAtPosition: the engine services.js calls is not the one in game.js. Its behaviour is taken from game.js's codec and verdict, and it fails rather than retrying.
- GameServices.GameService.PlayTurn: the `'play' in player` test is modelled as "the player is a bot". The classes that decide it are not shown.
- The `isOver` and `winningRow` getters of both engines, the `players` getter of game.js, and the `players` getter of services.js (services.js:49-53, a clone of each player), read a single field and have no member of their own.
- `TicTacToe.parseToBoardPosition`, which services.js calls (services.js:98, 193) but game.js does not export, is modelled as game.js's `toBoardPosition` (`Codec.ToBoardPosition`). `GameServices.WinningCells`, `CellsOf`, `MapBoardToCells` and `BoardView` rest on that choice.
