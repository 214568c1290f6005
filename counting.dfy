/**
 * Occurrence counting: the EnumMap<K, Integer> counters kept beside the move and
 * result histories (Game.java) and the predictor's move history (MovePredictor.java).
 */
module Counting {
  import opened Moves

  /** Number of occurrences of `x` in `s`. */
  function Count<T(==)>(s: seq<T>, x: T): nat
  {
    if s == [] then 0 else (if s[0] == x then 1 else 0) + Count(s[1..], x)
  }

  /**
   * Stream.of(values()).collect(toMap(identity(), v -> 0, ...)): a map with every
   * constant of `keys` as key and 0 as value.
   */
  function ZeroCounts<T(==,!new)>(keys: seq<T>): (m: map<T, nat>)
    ensures forall k :: k in m <==> k in keys
    ensures forall k :: k in m ==> m[k] == 0
  {
    if keys == [] then map[] else ZeroCounts(keys[1..])[keys[0] := 0]
  }

  /**
   * `counts` is the Move counter map of the history `s`: it holds every Move, and
   * each Move's entry is its number of occurrences in `s`.
   */
  predicate TalliesMoves(counts: map<Move, nat>, s: seq<Move>)
  {
    && Rock in counts && Paper in counts && Scissors in counts
    && counts[Rock] == Count(s, Rock)
    && counts[Paper] == Count(s, Paper)
    && counts[Scissors] == Count(s, Scissors)
  }

  /** `counts` is the GameResult counter map of the history `s`. */
  predicate TalliesResults(counts: map<GameResult, nat>, s: seq<GameResult>)
  {
    && Win in counts && Lose in counts && Draw in counts
    && counts[Win] == Count(s, Win)
    && counts[Lose] == Count(s, Lose)
    && counts[Draw] == Count(s, Draw)
  }

  /** Appending `y` raises the count of `y` by one and leaves every other count alone. */
  lemma {:induction false} CountAppend<T>(s: seq<T>, y: T, x: T)
    ensures Count(s + [y], x) == Count(s, x) + (if y == x then 1 else 0)
  {
    if s == [] {
      assert [] + [y] == [y];
      assert [y][1..] == [];
    } else {
      assert (s + [y])[0] == s[0];
      assert (s + [y])[1..] == s[1..] + [y];
      CountAppend(s[1..], y, x);
    }
  }

  /** Over three distinct keys that cover the history, the counts add up to its length. */
  lemma {:induction false} CountsOfThree<T>(s: seq<T>, a: T, b: T, c: T)
    requires a != b && b != c && a != c
    requires forall i :: 0 <= i < |s| ==> s[i] == a || s[i] == b || s[i] == c
    ensures Count(s, a) + Count(s, b) + Count(s, c) == |s|
  {
    if s != [] {
      assert s[0] == a || s[0] == b || s[0] == c;
      assert forall i :: 0 <= i < |s[1..]| ==> s[1..][i] == s[i + 1];
      CountsOfThree(s[1..], a, b, c);
    }
  }

  /** The counters of a fresh EnumMap are those of the empty history. */
  lemma ZeroCountsTallyNothing()
    ensures TalliesMoves(ZeroCounts(MoveValues), [])
    ensures TalliesResults(ZeroCounts(ResultValues), [])
  {
  }

  /** Recording move `y` is put(y, get(y) + 1) on the counter map. */
  lemma TalliesMovesAppend(counts: map<Move, nat>, s: seq<Move>, y: Move)
    requires TalliesMoves(counts, s)
    ensures y in counts && TalliesMoves(counts[y := counts[y] + 1], s + [y])
  {
    assert y.Rock? || y.Paper? || y.Scissors?;
    CountAppend(s, y, Rock);
    CountAppend(s, y, Paper);
    CountAppend(s, y, Scissors);
  }

  /** Recording result `y` is put(y, get(y) + 1) on the counter map. */
  lemma TalliesResultsAppend(counts: map<GameResult, nat>, s: seq<GameResult>, y: GameResult)
    requires TalliesResults(counts, s)
    ensures y in counts && TalliesResults(counts[y := counts[y] + 1], s + [y])
  {
    assert y.Win? || y.Lose? || y.Draw?;
    CountAppend(s, y, Win);
    CountAppend(s, y, Lose);
    CountAppend(s, y, Draw);
  }

  /** The three move counters add up to the length of the history. */
  lemma TalliesMovesSum(counts: map<Move, nat>, s: seq<Move>)
    requires TalliesMoves(counts, s)
    ensures counts[Rock] + counts[Paper] + counts[Scissors] == |s|
  {
    assert forall i :: 0 <= i < |s| ==> s[i].Rock? || s[i].Paper? || s[i].Scissors?;
    CountsOfThree(s, Rock, Paper, Scissors);
  }

  /** The three result counters add up to the length of the history. */
  lemma TalliesResultsSum(counts: map<GameResult, nat>, s: seq<GameResult>)
    requires TalliesResults(counts, s)
    ensures counts[Win] + counts[Lose] + counts[Draw] == |s|
  {
    assert forall i :: 0 <= i < |s| ==> s[i].Win? || s[i].Lose? || s[i].Draw?;
    CountsOfThree(s, Win, Lose, Draw);
  }

  /** A history has exactly one Move counter map. */
  lemma TalliesMovesUnique(a: map<Move, nat>, b: map<Move, nat>, s: seq<Move>)
    requires TalliesMoves(a, s) && TalliesMoves(b, s)
    ensures a == b
  {
    assert forall k :: k in a ==> k.Rock? || k.Paper? || k.Scissors?;
    assert forall k :: k in b ==> k.Rock? || k.Paper? || k.Scissors?;
  }

  /** A history has exactly one GameResult counter map. */
  lemma TalliesResultsUnique(a: map<GameResult, nat>, b: map<GameResult, nat>, s: seq<GameResult>)
    requires TalliesResults(a, s) && TalliesResults(b, s)
    ensures a == b
  {
    assert forall k :: k in a ==> k.Win? || k.Lose? || k.Draw?;
    assert forall k :: k in b ==> k.Win? || k.Lose? || k.Draw?;
  }
}
