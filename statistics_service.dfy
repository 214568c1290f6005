/**
 * StatisticsService.java: a registry from game id to win, loss and draw counters,
 * kept apart from the games themselves.
 */
module Statistics {
  import opened Moves
  import opened Counting
  import opened Failures

  type GameId = string

  /** The inner map {wins, losses, draws} of one game, from the user's side. */
  datatype Stats = Stats(wins: nat, losses: nat, draws: nat)

  const ZeroStats := Stats(0, 0, 0)

  function Total(s: Stats): nat
  {
    s.wins + s.losses + s.draws
  }

  /**
   * The switch of updateStatistics: exactly the counter named by the result goes
   * up by one, the other two stay, so the total rises by one.
   */
  function Bump(s: Stats, result: GameResult): (b: Stats)
    ensures b.wins == s.wins + (if result == Win then 1 else 0)
    ensures b.losses == s.losses + (if result == Lose then 1 else 0)
    ensures b.draws == s.draws + (if result == Draw then 1 else 0)
    ensures Total(b) == Total(s) + 1
  {
    match result
    case Draw => s.(draws := s.draws + 1)
    case Win => s.(wins := s.wins + 1)
    case Lose => s.(losses := s.losses + 1)
  }

  /** The counters a result history induces. */
  function StatsOf(results: seq<GameResult>): Stats
  {
    Stats(Count(results, Win), Count(results, Lose), Count(results, Draw))
  }

  /** The counters agree with a game's result counter map. */
  predicate Matches(s: Stats, resultCounts: map<GameResult, nat>)
  {
    && Win in resultCounts && Lose in resultCounts && Draw in resultCounts
    && s.wins == resultCounts[Win] && s.losses == resultCounts[Lose] && s.draws == resultCounts[Draw]
  }

  /** Counting results one at a time as they arrive gives the counters of the whole history. */
  lemma BumpCountsHistory(results: seq<GameResult>, result: GameResult)
    ensures Bump(StatsOf(results), result) == StatsOf(results + [result])
  {
    CountAppend(results, result, Win);
    CountAppend(results, result, Lose);
    CountAppend(results, result, Draw);
    var s, t := StatsOf(results), StatsOf(results + [result]);
    assert t.wins == s.wins + (if result == Win then 1 else 0);
    assert t.losses == s.losses + (if result == Lose then 1 else 0);
    assert t.draws == s.draws + (if result == Draw then 1 else 0);
  }

  /** Bumping keeps the counters in step with a counter map bumped at the same result. */
  lemma BumpKeepsMatch(s: Stats, counts: map<GameResult, nat>, result: GameResult)
    requires Matches(s, counts)
    ensures Matches(Bump(s, result), counts[result := counts[result] + 1])
  {
  }

  class StatisticsService {
    var gameStatistics: map<GameId, Stats>

    constructor ()
      ensures gameStatistics == map[]
    {
      gameStatistics := map[];
    }

    /** Sets all three counters of `gameId` to zero, replacing any earlier ones. */
    method InitializeStatistics(gameId: GameId)
      modifies this
      ensures gameStatistics == old(gameStatistics)[gameId := ZeroStats]
    {
      gameStatistics := gameStatistics[gameId := Stats(0, 0, 0)];
    }

    /** The counters of `gameId`, or GameNotFound when it has none. */
    function GetStatisticsByGameId(gameId: GameId): (r: Result<Stats>)
      reads this
      ensures r.Ok? <==> gameId in gameStatistics
      ensures r.Ok? ==> r.value == gameStatistics[gameId]
      ensures r.Err? ==> r.error == GameNotFound("Game statistics not found for ID: " + gameId)
    {
      if gameId in gameStatistics then Ok(gameStatistics[gameId])
      else Err(GameNotFound("Game statistics not found for ID: " + gameId))
    }

    /**
     * Raises the counter of `result` for `gameId`. The id must be present: the
     * source dereferences the looked-up map without a check.
     */
    method UpdateStatistics(gameId: GameId, result: GameResult)
      requires gameId in gameStatistics
      modifies this
      ensures gameStatistics == old(gameStatistics)[gameId := Bump(old(gameStatistics[gameId]), result)]
      ensures Total(gameStatistics[gameId]) == Total(old(gameStatistics[gameId])) + 1
    {
      var stats := gameStatistics[gameId];
      match result {
        case Draw => stats := stats.(draws := stats.draws + 1);
        case Win => stats := stats.(wins := stats.wins + 1);
        case Lose => stats := stats.(losses := stats.losses + 1);
      }
      gameStatistics := gameStatistics[gameId := stats];
    }
  }
}
