/**
 * MoveService.java: round resolution, move-name parsing, and the choice of the
 * computer's move between the predictor's guess and a random move.
 */
module MoveServices {
  import opened Moves
  import opened Failures
  import opened Predictor

  /** String.toUpperCase on one character, restricted to ASCII letters. */
  function UpperChar(c: char): char
  {
    if 'a' <= c <= 'z' then (c as int - 32) as char else c
  }

  /** The ASCII lower-case of one character. */
  function LowerChar(c: char): char
  {
    if 'A' <= c <= 'Z' then (c as int + 32) as char else c
  }

  /** String.toUpperCase, ASCII only: every character is upper-cased in place. */
  function ToUpper(s: string): (r: string)
    ensures |r| == |s| && forall i :: 0 <= i < |s| ==> r[i] == UpperChar(s[i])
  {
    if s == [] then [] else [UpperChar(s[0])] + ToUpper(s[1..])
  }

  /** String.toLowerCase, ASCII only. */
  function ToLower(s: string): (r: string)
    ensures |r| == |s| && forall i :: 0 <= i < |s| ==> r[i] == LowerChar(s[i])
  {
    if s == [] then [] else [LowerChar(s[0])] + ToLower(s[1..])
  }

  /** Enum.valueOf(Move.class, name): the constant whose name is exactly `name`. */
  function ValueOf(name: string): (r: Option<Move>)
    ensures r.Some? ==> Name(r.value) == name
    ensures r.None? ==> forall m :: Name(m) != name
  {
    if name == Name(Rock) then Some(Rock)
    else if name == Name(Paper) then Some(Paper)
    else if name == Name(Scissors) then Some(Scissors)
    else None
  }

  /** convertToEnum(value, Move.class): the move whose name is `value` upper-cased. */
  function ConvertToEnum(value: string): (r: Result<Move>)
    ensures r.Ok? <==> exists m :: Name(m) == ToUpper(value)
    ensures r.Ok? ==> Name(r.value) == ToUpper(value)
    ensures r.Err? ==> r.error == IllegalArgument("Invalid enum value: " + value)
  {
    match ValueOf(ToUpper(value))
    case Some(m) => Ok(m)
    case None => Err(IllegalArgument("Invalid enum value: " + value))
  }

  /** Upper-casing leaves upper-case letters alone and undoes lower-casing of them. */
  lemma UpperOfUpperLetters(s: string)
    requires forall i :: 0 <= i < |s| ==> 'A' <= s[i] <= 'Z'
    ensures ToUpper(s) == s && ToUpper(ToLower(s)) == s
  {
    var lower := ToLower(s);
    forall i | 0 <= i < |s|
      ensures ToUpper(s)[i] == s[i] && ToUpper(lower)[i] == s[i]
    {
      UpperLowerChar(s[i]);
    }
  }

  /** On an upper-case ASCII letter, upper-casing is the identity and undoes lower-casing. */
  lemma UpperLowerChar(c: char)
    requires 'A' <= c <= 'Z'
    ensures UpperChar(c) == c && UpperChar(LowerChar(c)) == c
  {
  }

  /** Any casing of a move's name parses to that move; in particular its name and its lower-case name do. */
  lemma ConvertAnyCasing(value: string, m: Move)
    requires |value| == |Name(m)| && forall i :: 0 <= i < |value| ==> UpperChar(value[i]) == Name(m)[i]
    ensures ConvertToEnum(value) == Ok(m)
  {
    assert ToUpper(value) == Name(m);
    NameInjective(ConvertToEnum(value).value, m);
  }

  /** The name of a move, and its lower-case form, both parse back to the move. */
  lemma ConvertNameRoundTrip(m: Move)
    ensures ConvertToEnum(Name(m)) == Ok(m)
    ensures ConvertToEnum(ToLower(Name(m))) == Ok(m)
  {
    UpperOfUpperLetters(Name(m));
    NameInjective(ConvertToEnum(Name(m)).value, m);
    NameInjective(ConvertToEnum(ToLower(Name(m))).value, m);
  }

  /** A string that is no casing of any move name is rejected, e.g. "Spock". */
  lemma ConvertRejectsSpock()
    ensures ConvertToEnum("Spock") == Err(IllegalArgument("Invalid enum value: Spock"))
  {
    var u := ToUpper("Spock");
    assert u[0] == 'S' && |u| == 5;
    assert u != Name(Rock) && u != Name(Scissors);
    assert u != Name(Paper) by { assert Name(Paper)[0] == 'P'; }
  }

  /**
   * determineResult: a draw exactly when both moves agree, a win exactly when the
   * user's move beats the computer's, and a loss exactly when it is beaten.
   */
  function DetermineResult(userMove: Move, computerMove: Move): (r: GameResult)
    ensures r == Draw <==> userMove == computerMove
    ensures r == Win <==> Beats(userMove, computerMove)
    ensures r == Lose <==> Beats(computerMove, userMove)
  {
    BeatsIsTournament(userMove, computerMove);
    if userMove == computerMove then Draw
    else if Beats(userMove, computerMove) then Win
    else Lose
  }

  /** The same result seen from the other player. */
  function Opposite(r: GameResult): GameResult
  {
    match r
    case Win => Lose
    case Lose => Win
    case Draw => Draw
  }

  /** Swapping the players swaps WIN and LOSE and keeps DRAW. */
  lemma DetermineResultSwap(u: Move, c: Move)
    ensures DetermineResult(c, u) == Opposite(DetermineResult(u, c))
  {
    BeatsIsTournament(u, c);
  }

  /**
   * The computer's move for a round played against the predictor table `history`:
   * the injected random choice, or else the prediction.
   */
  function ComputerMove(history: map<Move, nat>, randomBranch: bool, randomIndex: nat): Move
    requires Rock in history && Paper in history && Scissors in history
    requires randomIndex < |MoveValues|
  {
    if randomBranch then MoveValues[randomIndex] else PredictFrom(history)
  }

  class MoveService {
    const movePredictor: MovePredictor

    constructor (movePredictor: MovePredictor)
      ensures this.movePredictor == movePredictor
    {
      this.movePredictor := movePredictor;
    }

    /**
     * generateComputerMove, with Random injected: `randomBranch` stands for
     * nextDouble() < 0.2 and `randomIndex` for nextInt(3). The predictor is only read.
     */
    method GenerateComputerMove(randomBranch: bool, randomIndex: nat) returns (m: Move)
      requires movePredictor.Valid()
      requires randomIndex < |MoveValues|
      ensures m == ComputerMove(movePredictor.moveHistory, randomBranch, randomIndex)
    {
      var predictedMove := movePredictor.Predict();
      if randomBranch {
        return MoveValues[randomIndex];
      }
      return predictedMove;
    }

    /** recordMove: hands the move to the predictor, which counts it once. */
    method RecordMove(move: Move)
      requires movePredictor.Valid()
      modifies movePredictor
      ensures movePredictor.Valid()
      ensures movePredictor.recorded == old(movePredictor.recorded) + [move]
      ensures movePredictor.moveHistory == old(movePredictor.moveHistory)[move := old(movePredictor.moveHistory[move]) + 1]
    {
      movePredictor.RecordMove(move);
    }
  }
}
