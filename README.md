# Rock-Paper-Scissors engine, modelled in Dafny

This project models the in-memory engine of a Rock-Paper-Scissors web service and proves properties of it. The engine consists of the following parts:

- **Game.** One session's record: three parallel histories (user moves, computer moves, results) and three counter maps derived from them.
- **GameService.** The registry from game id to `Game`. It also orchestrates one round: generate the computer's move, resolve the result, count it in the statistics, append it to the game, and feed the user's move to the predictor.
- **StatisticsService.** A second registry, from game id to win, loss and draw counters.
- **MoveService.** It resolves rounds, parses move names case-insensitively, and picks the computer's move. That move is either the predictor's guess or a random move.
- **MovePredictor.** A process-wide frequency table of user moves. Its prediction is the most frequent move, with ties going to the first move in declaration order.
- **GameController.** Only two of its behaviours are kept:
  - a session start registers a game together with its statistics;
  - a move name is validated before any round is played.

Modules, one per source file or area:

| file | module | models |
|---|---|---|
| `failures.dfy` | `Failures` | `GameNotFoundException` and `IllegalArgumentException` as an `Error` datatype, and `Result` |
| `moves.dfy` | `Moves` | the `Move` and `GameResult` enums, `beats`, `name()`, `ordinal()` |
| `counting.dfy` | `Counting` | the `EnumMap<K, Integer>` counters and what it means for one to count a history |
| `game.dfy` | `GameModel` | `Game` as a class with `seq` and `map` fields |
| `move_predictor.dfy` | `Predictor` | `MovePredictor` as a class, and `predict` as a pure `Stream.max` reduction |
| `move_service.dfy` | `MoveServices` | `determineResult`, `convertToEnum`, and `MoveService` as a class |
| `statistics_service.dfy` | `Statistics` | `StatisticsService` as a class holding a map of counters |
| `game_service.dfy` | `GameServices` | `GameService` as a class over a map of `Game` objects |
| `controller.dfy` | `Controller` | the sequencing of `startGame` and `makeMove` |

Java exceptions become `Err` results. The sources of randomness are parameters of the methods that use them:

| Java | parameter |
|---|---|
| `random.nextDouble() < 0.2` | `randomBranch` |
| `random.nextInt(3)` | `randomIndex` |
| `UUID.randomUUID()` | `freshId` |

Counters are `nat`.

The main invariants are these:

- **`Game.Valid()`:**
  - the three histories have equal length;
  - every counter map holds each enum constant;
  - each entry equals that constant's number of occurrences in the matching history.
- **`MovePredictor.Valid()`:** the table counts the (ghost) sequence of recorded moves.
- **`GameService.Valid()`:**
  - every stored game is valid;
  - no two ids share a `Game` object;
  - the predictor is valid.
- **`GameService.StatisticsAgree()`:** every stored game has statistics, and its wins, losses and draws equal its WIN, LOSE and DRAW counts.

Together they hold as long as games are started through `GameController.StartSession`.

`Move` and `GameResult` are assumed, not taken from the code: `Move` declares ROCK, PAPER and SCISSORS in that order, and the cyclic relation is: rock beats scissors, scissors beats paper, paper beats rock. `GameResult` declares WIN, LOSE and DRAW.

Two behaviours of the code are kept as written:

- `terminateGame` does not delete the game's statistics. It resets them to zero (`GameService.java:59`), and they stay registered.
- `updateStatistics` needs the id to have statistics: on any other id it dereferences null. The model makes the id's presence a precondition.

## Model

| member | source | states |
|---|---|---|
| Moves.BeatsIsTournament | src/main/java/com/example/rps/service/MoveService.java:37 | no move beats itself; of two distinct moves exactly one beats the other |
| Moves.BeatsExactlyVictim | src/main/java/com/example/rps/service/MoveService.java:37 | each move beats exactly one move (rock beats scissors, scissors beats paper, paper beats rock) |
| Moves.BeatsIsCyclic | src/main/java/com/example/rps/service/MoveService.java:37 | the relation is a three-cycle: following "beats" three times returns to the start |
| Moves.NameInjective | src/main/java/com/example/rps/service/MoveService.java:46 | distinct moves have distinct names, so `Enum.valueOf` has at most one answer |
| Counting.ZeroCounts | src/main/java/com/example/rps/model/Game.java:55-73 | the initialising collector yields a map whose keys are exactly the enum constants, each mapped to 0 |
| Counting.ZeroCountsTallyNothing | src/main/java/com/example/rps/model/Game.java:23-31 | the freshly initialised counter maps are the counters of the empty history, for moves and for results |
| Counting.TalliesMovesAppend | src/main/java/com/example/rps/model/Game.java:46-49 | `put(m, get(m) + 1)` on a map that counts a history yields the map that counts the history extended by `m` |
| Counting.TalliesResultsAppend | src/main/java/com/example/rps/model/Game.java:51-53 | the same for the result counter map |
| Counting.TalliesMovesSum | src/main/java/com/example/rps/model/Game.java:19-20 | a move counter map's three entries sum to the history's length |
| Counting.TalliesResultsSum | src/main/java/com/example/rps/model/Game.java:21 | a result counter map's three entries sum to the history's length |
| Counting.TalliesMovesUnique | src/main/java/com/example/rps/model/Game.java:83-84 | a history determines its move counter map |
| Counting.TalliesResultsUnique | src/main/java/com/example/rps/model/Game.java:85 | a history determines its result counter map |
| GameModel.Game.constructor | src/main/java/com/example/rps/model/Game.java:23-31 | a new game is valid, with empty histories and every move and result count at zero |
| GameModel.Game.AddMove | src/main/java/com/example/rps/model/Game.java:33-40 | appends exactly one element to each history; raises `userMoveCounts[u]`, `computerMoveCounts[c]` and `resultCounts[r]` by one and nothing else; keeps the game valid |
| GameModel.Game.GetComputerMoves | src/main/java/com/example/rps/model/Game.java:42-44 | the read-only computer history has one entry per round, and each move occurs in it as often as its computer-move counter says |
| GameModel.Game.UpdateMoveCounts | src/main/java/com/example/rps/model/Game.java:46-49 | the user-move counter of `u` and the computer-move counter of `c` rise by one; the histories and the result counters are untouched |
| GameModel.Game.UpdateResultCounts | src/main/java/com/example/rps/model/Game.java:51-53 | the counter of `r` rises by one; every other field is untouched |
| GameModel.Game.Equals | src/main/java/com/example/rps/model/Game.java:75-86 | a game equals itself, and equal games have equal user, computer and result histories |
| GameModel.CountsSumToRounds | src/main/java/com/example/rps/model/Game.java:15-21 | in a valid game each counter map sums to the number of rounds played |
| GameModel.EqualsIffSameHistories | src/main/java/com/example/rps/model/Game.java:75-86 | two valid games are `equals` exactly when their three histories are equal |
| Predictor.EntryKeys | src/main/java/com/example/rps/util/MovePredictor.java:32 | the stream of entries holds exactly the keys of the table, each once, in strictly increasing declaration order |
| Predictor.MaxBy | src/main/java/com/example/rps/util/MovePredictor.java:33 | the reduction returns one of the entries it was given, present in the table, whose value is at least the value of every entry |
| Predictor.StreamMax | src/main/java/com/example/rps/util/MovePredictor.java:32-33 | `Stream.max` is empty exactly when the table is empty |
| Predictor.MaxByIsFirstMax | src/main/java/com/example/rps/util/MovePredictor.java:33 | the `maxBy` reduction returns the first entry, in stream order, that holds the largest value |
| Predictor.StreamMaxOfFullTable | src/main/java/com/example/rps/util/MovePredictor.java:32-33 | on a table holding all three moves, `Stream.max` reduces ROCK, PAPER, SCISSORS in that order |
| Predictor.FullTableFirstMax | src/main/java/com/example/rps/util/MovePredictor.java:33 | that reduction's result has the largest count, and every move declared before it has a strictly smaller count |
| Predictor.FirstMaxOfPair | src/main/java/com/example/rps/util/MovePredictor.java:33 | one step of the reduction: replacing the accumulator and the next entry by their survivor keeps the first maximum |
| Predictor.PredictFrom | src/main/java/com/example/rps/util/MovePredictor.java:31-36 | on a table holding all three moves the prediction is in the table, its count is at least every other count, and every move declared before it has a strictly smaller count |
| Predictor.MovePredictor.constructor | src/main/java/com/example/rps/util/MovePredictor.java:17-25 | a fresh predictor has count 0 for every move and has recorded nothing |
| Predictor.MovePredictor.RecordMove | src/main/java/com/example/rps/util/MovePredictor.java:27-29 | the count of the move rises by one, the others stay, and the table keeps counting the recorded moves |
| Predictor.MovePredictor.Predict | src/main/java/com/example/rps/util/MovePredictor.java:31-36 | `predict` depends only on the current table; no random fallback is ever reached |
| Predictor.CountsSumToRecorded | src/main/java/com/example/rps/util/MovePredictor.java:27-29 | the counts sum to the number of `recordMove` calls |
| Predictor.PredictStrictMaximum | src/main/java/com/example/rps/util/MovePredictor.java:31-34 | a move with the strictly largest count is the prediction |
| Predictor.PredictFreshIsFirstDeclared | src/main/java/com/example/rps/util/MovePredictor.java:17-34 | with all counts zero the prediction is the first declared move |
| Predictor.PredictExamples | src/main/java/com/example/rps/util/MovePredictor.java:31-34 | counts {5, 2, 1} predict ROCK and {2, 2, 4} predict SCISSORS (strict maxima); a tie at the top goes to the earlier move: {1, 3, 3} predicts PAPER and {3, 1, 3} predicts ROCK |
| Predictor.PredictAfterOneMove | src/main/java/com/example/rps/util/MovePredictor.java:27-34 | a predictor that has recorded a single move predicts that move |
| MoveServices.ToUpper | src/main/java/com/example/rps/service/MoveService.java:46 | upper-casing keeps the length and upper-cases each character in place |
| MoveServices.ValueOf | src/main/java/com/example/rps/service/MoveService.java:46 | `Enum.valueOf` finds the move with exactly that name, or reports that none has it |
| MoveServices.ConvertToEnum | src/main/java/com/example/rps/service/MoveService.java:44-50 | succeeds exactly when the upper-cased input is a move's name, returning that move; otherwise fails with IllegalArgument "Invalid enum value: " + input |
| MoveServices.UpperOfUpperLetters | src/main/java/com/example/rps/service/MoveService.java:46 | upper-casing fixes upper-case names and undoes their lower-casing |
| MoveServices.ConvertAnyCasing | src/main/java/com/example/rps/service/MoveService.java:44-46 | any casing of a move's name parses to that move |
| MoveServices.ConvertNameRoundTrip | src/main/java/com/example/rps/service/MoveService.java:44-46 | parsing a move's name, or its lower-case form, gives back the move |
| MoveServices.ConvertRejectsSpock | src/main/java/com/example/rps/service/MoveService.java:47-49 | a string that is no move name, "Spock", is rejected with its message |
| MoveServices.DetermineResult | src/main/java/com/example/rps/service/MoveService.java:33-38 | DRAW exactly when the moves are equal, WIN exactly when the user's move beats the computer's, LOSE exactly when the computer's move beats the user's |
| MoveServices.DetermineResultSwap | src/main/java/com/example/rps/service/MoveService.java:33-38 | swapping the two moves swaps WIN and LOSE and keeps DRAW |
| MoveServices.MoveService.constructor | src/main/java/com/example/rps/service/MoveService.java:20-22 | the service works with the given predictor |
| MoveServices.MoveService.GenerateComputerMove | src/main/java/com/example/rps/service/MoveService.java:24-31 | the move is `ComputerMove` of the current table: `values()[randomIndex]` on the random branch, otherwise the prediction of the table (the first maximum, see `Predictor.PredictFrom`); the predictor is not changed |
| MoveServices.MoveService.RecordMove | src/main/java/com/example/rps/service/MoveService.java:40-42 | exactly one increment of the move's count in the predictor |
| Statistics.Bump | src/main/java/com/example/rps/service/StatisticsService.java:39-48 | WIN raises only wins, LOSE only losses, DRAW only draws, and the total rises by exactly one |
| Statistics.BumpCountsHistory | src/main/java/com/example/rps/service/StatisticsService.java:37-48 | counting results one by one as they arrive gives the win, loss and draw counts of the whole result history |
| Statistics.BumpKeepsMatch | src/main/java/com/example/rps/service/GameService.java:44-45 | counting a result in the statistics and in the game's result counter keeps the two equal |
| Statistics.StatisticsService.constructor | src/main/java/com/example/rps/service/StatisticsService.java:22 | the registry starts empty |
| Statistics.StatisticsService.InitializeStatistics | src/main/java/com/example/rps/service/StatisticsService.java:24-30 | the id's counters become all zero, replacing earlier ones; other ids are untouched |
| Statistics.StatisticsService.GetStatisticsByGameId | src/main/java/com/example/rps/service/StatisticsService.java:32-35 | returns the counters when the id is present, otherwise fails with GameNotFound "Game statistics not found for ID: " + id |
| Statistics.StatisticsService.UpdateStatistics | src/main/java/com/example/rps/service/StatisticsService.java:37-53 | the counter named by the result rises by one for that id, the total by exactly one, other ids untouched |
| GameServices.GameService.constructor | src/main/java/com/example/rps/service/GameService.java:25-28 | an empty registry wired to the given services, valid and in agreement |
| GameServices.GameService.StartNewGame | src/main/java/com/example/rps/service/GameService.java:30-36 | stores a new empty game under the injected id, returns that id, and leaves every other entry as it was |
| GameServices.GameService.GetGameOrThrow | src/main/java/com/example/rps/service/GameService.java:51-54 | returns the stored game when the id is present, otherwise fails with GameNotFound "Game not found with ID: " + id |
| GameServices.GameService.PlayRound | src/main/java/com/example/rps/service/GameService.java:38-49 | unknown id: GameNotFound, and no statistics or predictor change. Known id: the computer's move comes from the predictor as it was before the round; the result is `determineResult`; one round is appended to that game only; the statistics get that result; the predictor records the user's move; validity and statistics agreement are kept |
| GameServices.GameService.RoundKeepsInvariants | src/main/java/com/example/rps/service/GameService.java:44-46 | a round appended to one game, with its result counted in that game's statistics alone, keeps every game valid and every game's statistics equal to its result counts |
| GameServices.GameService.TerminateGame | src/main/java/com/example/rps/service/GameService.java:56-65 | a present game is removed and its statistics reset to zero; an absent id fails with GameNotFound and changes nothing; validity and agreement are kept |
| GameServices.TerminateTwice | src/main/java/com/example/rps/service/GameService.java:56-65 | after a termination the game can no longer be looked up, a second termination fails, and the id's statistics stay registered as zeros |
| Controller.GameController.constructor | src/main/java/com/example/rps/controller/GameController.java:34-40 | the controller holds the same singleton services the game service uses |
| Controller.GameController.StartSession | src/main/java/com/example/rps/controller/GameController.java:48-54 | a new empty game and zeroed statistics under the same new id; the statistics keep agreeing with every game |
| Controller.GameController.MakeMove | src/main/java/com/example/rps/controller/GameController.java:64-80 | an unknown id fails with GameNotFound and an invalid move name with IllegalArgument, both before any round, so nothing changes; otherwise one round is appended to the game's user, computer and result histories, the statistics change only at that id (by the round's result), the predictor records the user's move, and the report carries the computer's move (the game's last one), the result, and statistics equal to the game's result counts |

## Left out

- GameServices.GameService.PlayRound: does not restate the game's and the predictor's new counter maps. They follow from the preserved `Valid()` invariants and the appended histories (`Counting.TalliesResultsAppend`, `Counting.TalliesResultsUnique`).
- GameServices.GameService.StartNewGame: UUID uniqueness is not assumed. An injected id that is already present overwrites that entry, as `HashMap.put` would.
- MoveServices.MoveService.GenerateComputerMove: the `predictedMove == null` test is not modelled as a separate branch. `predict` never returns null, because the table always holds all three moves.
- MoveServices.MoveService.GenerateComputerMove: probabilities are out of scope. The 20% chance and the uniform choice are replaced by the injected `randomBranch` and `randomIndex`.
- Predictor.MovePredictor.Predict: the `Math.random` fallback for an empty stream is not modelled, because it cannot be reached.
- MoveServices.ConvertToEnum: covers the generic `convertToEnum(value, enumType)` only for `enumType = Move`.
- MoveServices.ConvertToEnum: case folding is ASCII-only. Locale-specific `toUpperCase`, and a null `value`, are not modelled.
- GameModel.Game.Equals: the `o == null` and `getClass()` checks are not modelled. Both arguments are always games.
- Statistics.StatisticsService.GetStatisticsByGameId: returns the counters as a value. The Java method returns the live inner `HashMap` with string keys "wins", "losses" and "draws", which a caller could alias and mutate.
- Statistics.StatisticsService.UpdateStatistics: the `default` branch that throws "Unexpected result" is not modelled, because `GameResult` has only three constants.
- Counters are unbounded `nat`. Java's `Integer` would overflow after 2^31 - 1 increments.
- Concurrency: the unsynchronised `HashMap`s and the `EnumMap` are modelled for single-threaded use only.
- Logging through slf4j is not modelled.
- `Game.hashCode` and `Game.toString` are not modelled.
- The controller's other endpoints (`getGameStatistics`, `getGameDetails`, `terminateGame`) are not modelled. HTTP routing, status codes and the formatting of response messages are transport. `MakeMove` returns the message's parts (the move text, the computer's move, the result, the stats) instead of the formatted string.
- The `MoveRequest` and `GameResponse` DTOs are not part of this model.
