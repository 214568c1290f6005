/** Game.java: one session's move and result histories and the counters derived from them. */
module GameModel {
  import opened Moves
  import opened Counting

  class Game {
    var userMoves: seq<Move>
    var computerMoves: seq<Move>
    var results: seq<GameResult>

    var userMoveCounts: map<Move, nat>
    var computerMoveCounts: map<Move, nat>
    var resultCounts: map<GameResult, nat>

    /**
     * The three histories have one entry per round, and every counter map holds,
     * for each enum constant, the number of its occurrences in the matching history.
     */
    ghost predicate Valid()
      reads this
    {
      && |userMoves| == |computerMoves| == |results|
      && TalliesMoves(userMoveCounts, userMoves)
      && TalliesMoves(computerMoveCounts, computerMoves)
      && TalliesResults(resultCounts, results)
    }

    /** No round recorded yet: empty histories, every counter zero. */
    ghost predicate IsEmpty()
      reads this
    {
      && userMoves == [] && computerMoves == [] && results == []
      && (forall m :: m in MoveValues ==> m in userMoveCounts && userMoveCounts[m] == 0)
      && (forall m :: m in MoveValues ==> m in computerMoveCounts && computerMoveCounts[m] == 0)
      && (forall r :: r in ResultValues ==> r in resultCounts && resultCounts[r] == 0)
    }

    constructor ()
      ensures Valid() && IsEmpty()
    {
      userMoves := [];
      computerMoves := [];
      results := [];
      userMoveCounts := ZeroCounts(MoveValues);
      computerMoveCounts := ZeroCounts(MoveValues);
      resultCounts := ZeroCounts(ResultValues);
      new;
      ZeroCountsTallyNothing();
    }

    /** Records one round: one entry appended to each history, one increment per counter map. */
    method AddMove(userMove: Move, computerMove: Move, result: GameResult)
      requires Valid()
      modifies this
      ensures Valid()
      ensures userMoves == old(userMoves) + [userMove]
      ensures computerMoves == old(computerMoves) + [computerMove]
      ensures results == old(results) + [result]
      ensures userMoveCounts == old(userMoveCounts)[userMove := old(userMoveCounts[userMove]) + 1]
      ensures computerMoveCounts == old(computerMoveCounts)[computerMove := old(computerMoveCounts[computerMove]) + 1]
      ensures resultCounts == old(resultCounts)[result := old(resultCounts[result]) + 1]
    {
      TalliesMovesAppend(userMoveCounts, userMoves, userMove);
      TalliesMovesAppend(computerMoveCounts, computerMoves, computerMove);
      TalliesResultsAppend(resultCounts, results, result);

      userMoves := userMoves + [userMove];
      computerMoves := computerMoves + [computerMove];
      results := results + [result];

      UpdateMoveCounts(userMove, computerMove);
      UpdateResultCounts(result);
    }

    /** The read-only view of the computer's moves, oldest first. */
    function GetComputerMoves(): (moves: seq<Move>)
      reads this
      requires Valid()
      ensures |moves| == |userMoves| == |results|
      ensures forall m :: m in MoveValues ==> Count(moves, m) == computerMoveCounts[m]
    {
      computerMoves
    }

    /** Raises the user-move counter of `userMove` and the computer-move counter of `computerMove`. */
    method UpdateMoveCounts(userMove: Move, computerMove: Move)
      requires userMove in userMoveCounts && computerMove in computerMoveCounts
      modifies this
      ensures userMoveCounts == old(userMoveCounts)[userMove := old(userMoveCounts[userMove]) + 1]
      ensures computerMoveCounts == old(computerMoveCounts)[computerMove := old(computerMoveCounts[computerMove]) + 1]
      ensures userMoves == old(userMoves) && computerMoves == old(computerMoves) && results == old(results)
      ensures resultCounts == old(resultCounts)
    {
      userMoveCounts := userMoveCounts[userMove := userMoveCounts[userMove] + 1];
      computerMoveCounts := computerMoveCounts[computerMove := computerMoveCounts[computerMove] + 1];
    }

    /** Raises the counter of `result`. */
    method UpdateResultCounts(result: GameResult)
      requires result in resultCounts
      modifies this
      ensures resultCounts == old(resultCounts)[result := old(resultCounts[result]) + 1]
      ensures userMoves == old(userMoves) && computerMoves == old(computerMoves) && results == old(results)
      ensures userMoveCounts == old(userMoveCounts) && computerMoveCounts == old(computerMoveCounts)
    {
      resultCounts := resultCounts[result := resultCounts[result] + 1];
    }

    /** Game.equals: the same object, or equal histories and equal counter maps. */
    predicate Equals(other: Game): (r: bool)
      reads this, other
      ensures this == other ==> r
      ensures r ==> userMoves == other.userMoves && computerMoves == other.computerMoves && results == other.results
    {
      || this == other
      || (&& userMoves == other.userMoves
          && computerMoves == other.computerMoves
          && results == other.results
          && userMoveCounts == other.userMoveCounts
          && computerMoveCounts == other.computerMoveCounts
          && resultCounts == other.resultCounts)
    }
  }

  /** Each counter map of a valid game sums to the number of rounds played. */
  lemma CountsSumToRounds(g: Game)
    requires g.Valid()
    ensures g.userMoveCounts[Rock] + g.userMoveCounts[Paper] + g.userMoveCounts[Scissors] == |g.userMoves|
    ensures g.computerMoveCounts[Rock] + g.computerMoveCounts[Paper] + g.computerMoveCounts[Scissors] == |g.computerMoves|
    ensures g.resultCounts[Win] + g.resultCounts[Lose] + g.resultCounts[Draw] == |g.results|
  {
    TalliesMovesSum(g.userMoveCounts, g.userMoves);
    TalliesMovesSum(g.computerMoveCounts, g.computerMoves);
    TalliesResultsSum(g.resultCounts, g.results);
  }

  /**
   * For valid games the counters are determined by the histories, so equals holds
   * exactly when the three histories agree: games built by the same AddMove calls are equal.
   */
  lemma EqualsIffSameHistories(a: Game, b: Game)
    requires a.Valid() && b.Valid()
    ensures a.Equals(b) <==>
      a.userMoves == b.userMoves && a.computerMoves == b.computerMoves && a.results == b.results
  {
    if a.userMoves == b.userMoves && a.computerMoves == b.computerMoves && a.results == b.results {
      TalliesMovesUnique(a.userMoveCounts, b.userMoveCounts, a.userMoves);
      TalliesMovesUnique(a.computerMoveCounts, b.computerMoveCounts, a.computerMoves);
      TalliesResultsUnique(a.resultCounts, b.resultCounts, a.results);
    }
  }
}
