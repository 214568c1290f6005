/**
 * GameService.java: the registry from game id to Game, and the orchestration of
 * one round across the move service, the statistics and the game.
 */
module GameServices {
  import opened Moves
  import opened Failures
  import opened GameModel
  import opened Predictor
  import opened MoveServices
  import opened Statistics
  import opened Counting

  /** One played round: the game it belongs to and its result. */
  datatype Round = Round(gameId: GameId, result: GameResult)

  class GameService {
    const moveService: MoveService
    const statisticsService: StatisticsService
    var games: map<GameId, Game>

    /** Every stored game is valid, no two ids share a Game object, and the predictor is valid. */
    ghost predicate Valid()
      reads this, games.Values, moveService.movePredictor
    {
      && moveService.movePredictor.Valid()
      && (forall id {:trigger games[id].Valid()} :: id in games ==> games[id].Valid())
      && (forall id1, id2 :: id1 in games && id2 in games && id1 != id2 ==> games[id1] != games[id2])
    }

    /** Every stored game has statistics, and they equal the game's result counts. */
    ghost predicate StatisticsAgree()
      reads this, games.Values, statisticsService
    {
      forall id :: id in games ==>
        id in statisticsService.gameStatistics
        && Matches(statisticsService.gameStatistics[id], games[id].resultCounts)
    }

    constructor (moveService: MoveService, statisticsService: StatisticsService)
      requires moveService.movePredictor.Valid()
      ensures Valid() && StatisticsAgree()
      ensures this.moveService == moveService && this.statisticsService == statisticsService
      ensures games == map[]
    {
      this.moveService := moveService;
      this.statisticsService := statisticsService;
      games := map[];
    }

    /**
     * startNewGame, with UUID.randomUUID injected as `freshId`: installs a new empty
     * Game under that id and returns it; every other entry stays as it was.
     */
    method StartNewGame(freshId: GameId) returns (gameId: GameId)
      requires Valid()
      modifies this
      ensures Valid()
      ensures gameId == freshId && gameId in games
      ensures fresh(games[gameId]) && games[gameId].IsEmpty()
      ensures games == old(games)[gameId := games[gameId]]
    {
      gameId := freshId;
      var game := new Game();
      games := games[gameId := game];
    }

    /** The game stored under `gameId`, or GameNotFound. */
    function GetGameOrThrow(gameId: GameId): (r: Result<Game>)
      reads this
      ensures r.Ok? <==> gameId in games
      ensures r.Ok? ==> r.value == games[gameId]
      ensures r.Err? ==> r.error == GameNotFound("Game not found with ID: " + gameId)
    {
      if gameId in games then Ok(games[gameId])
      else Err(GameNotFound("Game not found with ID: " + gameId))
    }

    /**
     * playRound: fails with GameNotFound on an unknown id, changing nothing;
     * otherwise picks the computer's move from the predictor as it was before the
     * round, resolves the result, bumps one statistics counter, appends the round
     * to that game alone, and records the user's move in the predictor.
     */
    method PlayRound(gameId: GameId, userMove: Move, randomBranch: bool, randomIndex: nat)
      returns (r: Result<GameResult>)
      requires Valid()
      requires randomIndex < |MoveValues|
      requires gameId in games ==> gameId in statisticsService.gameStatistics
      modifies statisticsService, moveService.movePredictor
      modifies if gameId in games then {games[gameId]} else {}
      ensures Valid()
      ensures games == old(games)
      ensures gameId !in games ==>
        && r == Err(GameNotFound("Game not found with ID: " + gameId))
        && statisticsService.gameStatistics == old(statisticsService.gameStatistics)
        && moveService.movePredictor.moveHistory == old(moveService.movePredictor.moveHistory)
        && moveService.movePredictor.recorded == old(moveService.movePredictor.recorded)
      ensures gameId in games ==>
        var computerMove := ComputerMove(old(moveService.movePredictor.moveHistory), randomBranch, randomIndex);
        var result := DetermineResult(userMove, computerMove);
        var game := games[gameId];
        && r == Ok(result)
        && game.userMoves == old(game.userMoves) + [userMove]
        && game.computerMoves == old(game.computerMoves) + [computerMove]
        && game.results == old(game.results) + [result]
        && statisticsService.gameStatistics
           == old(statisticsService.gameStatistics)[gameId := Bump(old(statisticsService.gameStatistics[gameId]), result)]
        && moveService.movePredictor.recorded == old(moveService.movePredictor.recorded) + [userMove]
      ensures forall id :: id in games && id != gameId ==> unchanged(games[id])
      ensures old(StatisticsAgree()) ==> StatisticsAgree()
    {
      var lookup := GetGameOrThrow(gameId);
      if lookup.Err? {
        return Err(lookup.error);
      }
      var game := lookup.value;
      var computerMove := moveService.GenerateComputerMove(randomBranch, randomIndex);
      var result := DetermineResult(userMove, computerMove);

      statisticsService.UpdateStatistics(gameId, result);
      game.AddMove(userMove, computerMove, result);
      moveService.RecordMove(userMove);

      // Only `game` changed among the stored games: no other id shares its object.
      forall id | id in games && id != gameId
        ensures games[id] != game
      {
      }
      RoundKeepsInvariants(Round(gameId, result));
      return Ok(result);
    }

    /**
     * A round appended to one valid game, with its result counted in that game's
     * statistics alone, keeps the service valid and the statistics in agreement.
     */
    twostate lemma RoundKeepsInvariants(round: Round)
      requires old(Valid()) && moveService.movePredictor.Valid()
      requires games == old(games) && round.gameId in games
      requires games[round.gameId].Valid()
      requires games[round.gameId].results == old(games[round.gameId].results) + [round.result]
      requires forall id :: id in games && id != round.gameId ==> unchanged(games[id])
      requires round.gameId in old(statisticsService.gameStatistics)
      requires statisticsService.gameStatistics == old(statisticsService.gameStatistics)[
        round.gameId := Bump(old(statisticsService.gameStatistics[round.gameId]), round.result)]
      ensures Valid()
      ensures old(StatisticsAgree()) ==> StatisticsAgree()
    {
      var game := games[round.gameId];
      forall id | id in games
        ensures games[id].Valid()
      {
      }
      if old(StatisticsAgree()) {
        var stats := statisticsService.gameStatistics;
        assert old(game.Valid());
        TalliesResultsAppend(old(game.resultCounts), old(game.results), round.result);
        TalliesResultsUnique(game.resultCounts, old(game.resultCounts)[round.result := old(game.resultCounts[round.result]) + 1], game.results);
        BumpKeepsMatch(old(statisticsService.gameStatistics[round.gameId]), old(game.resultCounts), round.result);
        forall id | id in games
          ensures id in stats && Matches(stats[id], games[id].resultCounts)
        {
          if id != round.gameId {
            assert stats[id] == old(statisticsService.gameStatistics[id]);
          }
        }
      }
    }

    /**
     * terminateGame: removes a present game and resets its statistics to zero
     * (they stay registered); on an absent id fails with GameNotFound and changes nothing.
     */
    method TerminateGame(gameId: GameId) returns (r: Result<()>)
      requires Valid()
      modifies this, statisticsService
      ensures Valid()
      ensures old(gameId in games) ==>
        && r == Ok(())
        && games == old(games) - {gameId}
        && statisticsService.gameStatistics == old(statisticsService.gameStatistics)[gameId := ZeroStats]
      ensures old(gameId !in games) ==>
        && r == Err(GameNotFound("Game not found with ID: " + gameId))
        && games == old(games)
        && statisticsService.gameStatistics == old(statisticsService.gameStatistics)
      ensures old(StatisticsAgree()) ==> StatisticsAgree()
    {
      if gameId in games {
        games := games - {gameId};
        statisticsService.InitializeStatistics(gameId);
        return Ok(());
      } else {
        return Err(GameNotFound("Game not found with ID: " + gameId));
      }
    }
  }

  /**
   * Terminating a game twice: the first call succeeds and removes the game, so the
   * game can no longer be looked up and the second call fails with GameNotFound.
   */
  method TerminateTwice(gs: GameService, gameId: GameId) returns (first: Result<()>, second: Result<()>)
    requires gs.Valid() && gameId in gs.games
    modifies gs, gs.statisticsService
    ensures first == Ok(())
    ensures second == Err(GameNotFound("Game not found with ID: " + gameId))
    ensures gs.GetGameOrThrow(gameId) == Err(GameNotFound("Game not found with ID: " + gameId))
    ensures gameId in gs.statisticsService.gameStatistics && gs.statisticsService.gameStatistics[gameId] == ZeroStats
  {
    first := gs.TerminateGame(gameId);
    second := gs.TerminateGame(gameId);
  }
}
