/**
 * GameController.java, reduced to how it sequences the services: a session start
 * registers a game and its statistics together, and a move is validated before
 * any round is played. HTTP routing and response formatting are not modelled.
 */
module Controller {
  import opened Moves
  import opened Failures
  import opened GameModel
  import opened MoveServices
  import opened Statistics
  import opened GameServices

  /** What makeMove reports on success: the move as sent, the computer's move, the result and the stats. */
  datatype MoveReport = MoveReport(move: string, computerMove: Move, result: GameResult, stats: Stats)

  class GameController {
    const gameService: GameService
    const moveService: MoveService
    const statisticsService: StatisticsService

    /**
     * The three services are the application's singletons: the game service works
     * with the same move and statistics services the controller holds, its games are
     * valid, and every game's statistics agree with its result counts.
     */
    ghost predicate Valid()
      reads this, gameService, gameService.games.Values, moveService.movePredictor, statisticsService
    {
      && gameService.moveService == moveService
      && gameService.statisticsService == statisticsService
      && gameService.Valid()
      && gameService.StatisticsAgree()
    }

    constructor (gameService: GameService, moveService: MoveService, statisticsService: StatisticsService)
      requires gameService.moveService == moveService && gameService.statisticsService == statisticsService
      requires gameService.Valid() && gameService.StatisticsAgree()
      ensures Valid()
      ensures this.gameService == gameService && this.moveService == moveService
      ensures this.statisticsService == statisticsService
    {
      this.gameService := gameService;
      this.moveService := moveService;
      this.statisticsService := statisticsService;
    }

    /**
     * startGame: a new empty game under `freshId` (the injected UUID), with all
     * three statistics counters set to zero for it.
     */
    method StartSession(freshId: GameId) returns (gameId: GameId)
      requires Valid()
      modifies gameService, statisticsService
      ensures Valid()
      ensures gameId == freshId && gameId in gameService.games
      ensures fresh(gameService.games[gameId]) && gameService.games[gameId].IsEmpty()
      ensures gameService.games == old(gameService.games)[gameId := gameService.games[gameId]]
      ensures statisticsService.gameStatistics == old(statisticsService.gameStatistics)[gameId := ZeroStats]
    {
      gameId := gameService.StartNewGame(freshId);
      statisticsService.InitializeStatistics(gameId);
      var games := gameService.games;
      var stats := statisticsService.gameStatistics;
      forall id | id in games
        ensures id in stats && Matches(stats[id], games[id].resultCounts)
      {
        if id == gameId {
          assert games[id].IsEmpty();
          assert Win in ResultValues && Lose in ResultValues && Draw in ResultValues;
        }
      }
    }

    /**
     * makeMove: an unknown id fails with GameNotFound and an unparsable move name
     * with IllegalArgument, both before any round is played, so neither changes
     * anything. Otherwise the round is played and the report carries the computer's
     * move (the game's last one), the result, and the game's statistics after the round.
     */
    method MakeMove(gameId: GameId, move: string, randomBranch: bool, randomIndex: nat)
      returns (r: Result<MoveReport>)
      requires Valid()
      requires randomIndex < |MoveValues|
      modifies statisticsService, moveService.movePredictor
      modifies if gameId in gameService.games then {gameService.games[gameId]} else {}
      ensures Valid()
      ensures gameService.games == old(gameService.games)
      ensures gameId !in gameService.games ==> r == Err(GameNotFound("Game not found with ID: " + gameId))
      ensures gameId in gameService.games && ConvertToEnum(move).Err? ==>
        r == Err(IllegalArgument("Invalid enum value: " + move))
      ensures r.Err? ==>
        && statisticsService.gameStatistics == old(statisticsService.gameStatistics)
        && moveService.movePredictor.recorded == old(moveService.movePredictor.recorded)
        && (gameId in gameService.games ==> unchanged(gameService.games[gameId]))
      ensures r.Ok? <==> gameId in gameService.games && ConvertToEnum(move).Ok?
      ensures r.Ok? ==>
        var userMove := ConvertToEnum(move).value;
        var computerMove := ComputerMove(old(moveService.movePredictor.moveHistory), randomBranch, randomIndex);
        var game := gameService.games[gameId];
        && r.value.move == move
        && r.value.computerMove == computerMove
        && r.value.result == DetermineResult(userMove, computerMove)
        && r.value.stats == statisticsService.gameStatistics[gameId]
        && Matches(r.value.stats, game.resultCounts)
        && game.userMoves == old(game.userMoves) + [userMove]
        && game.computerMoves == old(game.computerMoves) + [computerMove]
        && game.results == old(game.results) + [r.value.result]
        && statisticsService.gameStatistics
           == old(statisticsService.gameStatistics)[gameId := Bump(old(statisticsService.gameStatistics[gameId]), r.value.result)]
        && moveService.movePredictor.recorded == old(moveService.movePredictor.recorded) + [userMove]
    {
      var lookup := gameService.GetGameOrThrow(gameId);
      if lookup.Err? {
        return Err(lookup.error);
      }
      var game := lookup.value;
      var conversion := ConvertToEnum(move);
      if conversion.Err? {
        return Err(conversion.error);
      }
      var userMove := conversion.value;

      var played := gameService.PlayRound(gameId, userMove, randomBranch, randomIndex);
      var computerMoves := game.GetComputerMoves();
      var computerMove := computerMoves[|computerMoves| - 1];
      var stats := statisticsService.GetStatisticsByGameId(gameId);
      return Ok(MoveReport(move, computerMove, played.value, stats.value));
    }
  }
}
