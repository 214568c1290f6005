/**
 * The Move and GameResult enumerations, as assumed by this model rather than
 * taken from the code: Move declares ROCK, PAPER, SCISSORS in that order, with
 * rock beating scissors, scissors beating paper and paper beating rock.
 */
module Moves {

  datatype Move = Rock | Paper | Scissors

  /** A round's outcome, always seen from the user's side. */
  datatype GameResult = Win | Lose | Draw

  /** Move.values(): the constants in declaration order. */
  const MoveValues: seq<Move> := [Rock, Paper, Scissors]

  /** GameResult.values(). */
  const ResultValues: seq<GameResult> := [Win, Lose, Draw]

  /** Position of a move in declaration order (Enum.ordinal()). */
  function Ordinal(m: Move): (i: nat)
    ensures i < |MoveValues| && MoveValues[i] == m
  {
    match m
    case Rock => 0
    case Paper => 1
    case Scissors => 2
  }

  /** Enum.name(): the constant's identifier. */
  function Name(m: Move): string
  {
    match m
    case Rock => "ROCK"
    case Paper => "PAPER"
    case Scissors => "SCISSORS"
  }

  /** Move.beats: the cyclic dominance relation. */
  predicate Beats(a: Move, b: Move)
  {
    match (a, b)
    case (Rock, Scissors) => true
    case (Scissors, Paper) => true
    case (Paper, Rock) => true
    case _ => false
  }

  /** The move that `m` beats. */
  function Victim(m: Move): Move
  {
    match m
    case Rock => Scissors
    case Paper => Rock
    case Scissors => Paper
  }

  /** Beats is irreflexive, and between two distinct moves exactly one beats the other. */
  lemma BeatsIsTournament(a: Move, b: Move)
    ensures !Beats(a, a)
    ensures a != b ==> (Beats(a, b) <==> !Beats(b, a))
  {
    match a
    case Rock =>
    case Paper =>
    case Scissors =>
  }

  /** Every move beats exactly one move, and it is Victim(m). */
  lemma BeatsExactlyVictim(a: Move, b: Move)
    ensures Beats(a, b) <==> b == Victim(a)
  {
    match a
    case Rock =>
    case Paper =>
    case Scissors =>
  }

  /** The relation is a three-cycle: applying Victim three times returns to the start. */
  lemma BeatsIsCyclic(m: Move)
    ensures Victim(m) != m && Victim(Victim(m)) != m && Victim(Victim(Victim(m))) == m
    ensures Beats(Victim(Victim(m)), m)
  {
    match m
    case Rock =>
    case Paper =>
    case Scissors =>
  }

  /** Names are distinct, so a name identifies its move. */
  lemma NameInjective(a: Move, b: Move)
    ensures Name(a) == Name(b) ==> a == b
  {
    if Name(a) == Name(b) {
      match a
      case Rock => assert Name(a)[0] == 'R';
      case Paper => assert Name(a)[0] == 'P';
      case Scissors => assert Name(a)[0] == 'S';
    }
  }
}
