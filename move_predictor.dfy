/**
 * MovePredictor.java: a process-wide frequency table of user moves, and a
 * prediction that is the most frequent move so far.
 */
module Predictor {
  import opened Moves
  import opened Counting

  datatype Option<+T> = None | Some(value: T)

  /** The keys of an EnumMap in its iteration order: declaration order. */
  function EntryKeys(h: map<Move, nat>): (ks: seq<Move>)
    ensures forall m :: m in ks <==> m in h
    ensures forall i, j :: 0 <= i < j < |ks| ==> Ordinal(ks[i]) < Ordinal(ks[j])
  {
    assert forall m :: m in h ==> m.Rock? || m.Paper? || m.Scissors?;
    (if Rock in h then [Rock] else []) + (if Paper in h then [Paper] else []) + (if Scissors in h then [Scissors] else [])
  }

  /**
   * Stream.reduce(BinaryOperator.maxBy(comparingByValue())) over the entries
   * `acc, rest...`: the accumulator is kept unless the next entry's value is strictly larger.
   */
  function MaxBy(h: map<Move, nat>, acc: Move, rest: seq<Move>): (r: Move)
    requires acc in h && forall i :: 0 <= i < |rest| ==> rest[i] in h
    ensures r == acc || r in rest
    ensures r in h && h[acc] <= h[r] && forall i :: 0 <= i < |rest| ==> h[rest[i]] <= h[r]
    decreases |rest|
  {
    if rest == [] then acc
    else MaxBy(h, if h[acc] >= h[rest[0]] then acc else rest[0], rest[1..])
  }

  /** Stream.max: empty when there are no entries. */
  function StreamMax(h: map<Move, nat>): (r: Option<Move>)
    ensures r.None? <==> h == map[]
  {
    var ks := EntryKeys(h);
    if ks == [] then
      assert forall m :: m !in h;
      None
    else
      Some(MaxBy(h, ks[0], ks[1..]))
  }

  /** `xs[i]` has the largest value in `xs`, and every entry before it has a strictly smaller one. */
  ghost predicate FirstMaxAt(h: map<Move, nat>, xs: seq<Move>, i: int)
    requires forall j :: 0 <= j < |xs| ==> xs[j] in h
  {
    && 0 <= i < |xs|
    && (forall j :: 0 <= j < |xs| ==> h[xs[j]] <= h[xs[i]])
    && (forall j :: 0 <= j < i ==> h[xs[j]] < h[xs[i]])
  }

  /** The reduction returns the first entry, in stream order, that holds the largest value. */
  lemma {:induction false} MaxByIsFirstMax(h: map<Move, nat>, acc: Move, rest: seq<Move>)
    requires acc in h && forall i :: 0 <= i < |rest| ==> rest[i] in h
    ensures exists i :: FirstMaxAt(h, [acc] + rest, i) && ([acc] + rest)[i] == MaxBy(h, acc, rest)
    decreases |rest|
  {
    var xs := [acc] + rest;
    var r := MaxBy(h, acc, rest);
    if rest == [] {
      assert FirstMaxAt(h, xs, 0);
    } else {
      var acc' := if h[acc] >= h[rest[0]] then acc else rest[0];
      var xs' := [acc'] + rest[1..];
      MaxByIsFirstMax(h, acc', rest[1..]);
      var i' :| FirstMaxAt(h, xs', i') && xs'[i'] == r;
      FirstMaxOfPair(h, acc, rest, i');
    }
  }

  /**
   * The step of the reduction: if the first maximum of `[acc'] + rest[1..]` sits at
   * `i'`, where `acc'` is the survivor of `acc` against `rest[0]`, then the first
   * maximum of `[acc] + rest` is the same entry.
   */
  lemma FirstMaxOfPair(h: map<Move, nat>, acc: Move, rest: seq<Move>, i': int)
    requires acc in h && rest != [] && forall i :: 0 <= i < |rest| ==> rest[i] in h
    requires FirstMaxAt(h, [if h[acc] >= h[rest[0]] then acc else rest[0]] + rest[1..], i')
    ensures exists i ::
      && FirstMaxAt(h, [acc] + rest, i)
      && ([acc] + rest)[i] == ([if h[acc] >= h[rest[0]] then acc else rest[0]] + rest[1..])[i']
  {
    var xs := [acc] + rest;
    var acc' := if h[acc] >= h[rest[0]] then acc else rest[0];
    var xs' := [acc'] + rest[1..];
    assert xs'[0] == acc' && h[acc] <= h[acc'] && h[rest[0]] <= h[acc'];
    assert forall j :: 2 <= j < |xs| ==> xs[j] == xs'[j - 1];
    if i' == 0 && acc' == acc {
      assert FirstMaxAt(h, xs, 0) && xs[0] == xs'[i'];
    } else if i' == 0 {
      assert FirstMaxAt(h, xs, 1) && xs[1] == xs'[i'];
    } else {
      assert FirstMaxAt(h, xs, i' + 1) && xs[i' + 1] == xs'[i'];
    }
  }

  /**
   * predict over a counter table that holds all three moves: the move with the
   * largest count, and on a tie the earliest in declaration order. The
   * Math.random fallback for an empty stream is never taken on such a table.
   */
  function PredictFrom(h: map<Move, nat>): (m: Move)
    requires Rock in h && Paper in h && Scissors in h
    ensures m in h
    ensures forall k :: k in h ==> h[k] <= h[m]
    ensures forall k :: Ordinal(k) < Ordinal(m) ==> h[k] < h[m]
  {
    var e := StreamMax(h);
    StreamMaxOfFullTable(h);
    FullTableFirstMax(h);
    e.value
  }

  /** On a table holding all three moves, Stream.max reduces the entries in declaration order. */
  lemma StreamMaxOfFullTable(h: map<Move, nat>)
    requires Rock in h && Paper in h && Scissors in h
    ensures StreamMax(h) == Some(MaxBy(h, Rock, [Paper, Scissors]))
  {
    assert EntryKeys(h) == [Rock, Paper, Scissors];
  }

  /** The reduction over all three moves in declaration order yields their first maximum. */
  lemma FullTableFirstMax(h: map<Move, nat>)
    requires Rock in h && Paper in h && Scissors in h
    ensures forall k :: k in h ==> h[k] <= h[MaxBy(h, Rock, [Paper, Scissors])]
    ensures forall k :: Ordinal(k) < Ordinal(MaxBy(h, Rock, [Paper, Scissors])) ==> h[k] < h[MaxBy(h, Rock, [Paper, Scissors])]
  {
    var r := MaxBy(h, Rock, [Paper, Scissors]);
    MaxByIsFirstMax(h, Rock, [Paper, Scissors]);
    assert [Rock] + [Paper, Scissors] == MoveValues;
    var i :| FirstMaxAt(h, MoveValues, i) && MoveValues[i] == r;
    assert Ordinal(r) == i;
    forall k | Ordinal(k) < Ordinal(r)
      ensures h[k] < h[r]
    {
      assert MoveValues[Ordinal(k)] == k;
    }
  }

  class MovePredictor {
    var moveHistory: map<Move, nat>
    /** Every move passed to RecordMove so far, oldest first. */
    ghost var recorded: seq<Move>

    /** The table counts the recorded moves, one entry per Move constant. */
    ghost predicate Valid()
      reads this
    {
      TalliesMoves(moveHistory, recorded)
    }

    constructor ()
      ensures Valid() && recorded == []
      ensures forall m :: m in MoveValues ==> m in moveHistory && moveHistory[m] == 0
    {
      moveHistory := ZeroCounts(MoveValues);
      recorded := [];
      new;
      ZeroCountsTallyNothing();
    }

    /** Raises the count of `move` by one. */
    method RecordMove(move: Move)
      requires Valid()
      modifies this
      ensures Valid()
      ensures recorded == old(recorded) + [move]
      ensures moveHistory == old(moveHistory)[move := old(moveHistory[move]) + 1]
    {
      TalliesMovesAppend(moveHistory, recorded, move);
      moveHistory := moveHistory[move := moveHistory[move] + 1];
      recorded := recorded + [move];
    }

    /** The prediction over the current table, which always holds all three moves. */
    function Predict(): (m: Move)
      reads this
      requires Valid()
      ensures m == PredictFrom(moveHistory)
    {
      PredictFrom(moveHistory)
    }
  }

  /** The counts together equal the number of recorded moves. */
  lemma CountsSumToRecorded(p: MovePredictor)
    requires p.Valid()
    ensures p.moveHistory[Rock] + p.moveHistory[Paper] + p.moveHistory[Scissors] == |p.recorded|
  {
    TalliesMovesSum(p.moveHistory, p.recorded);
  }

  /** A move with the strictly largest count is the prediction. */
  lemma PredictStrictMaximum(h: map<Move, nat>, m: Move)
    requires Rock in h && Paper in h && Scissors in h && m in h
    requires forall k :: k in h && k != m ==> h[k] < h[m]
    ensures PredictFrom(h) == m
  {
  }

  /** With no moves recorded every count is zero, and the tie goes to the first declared move. */
  lemma PredictFreshIsFirstDeclared()
    ensures PredictFrom(ZeroCounts(MoveValues)) == MoveValues[0]
  {
  }

  /** Counts ROCK 5, PAPER 2, SCISSORS 1 predict ROCK; counts 1, 3, 3 predict PAPER; 2, 2, 4 predict SCISSORS. */
  lemma PredictExamples()
    ensures PredictFrom(map[Rock := 5, Paper := 2, Scissors := 1]) == Rock
    ensures PredictFrom(map[Rock := 1, Paper := 3, Scissors := 3]) == Paper
    ensures PredictFrom(map[Rock := 3, Paper := 1, Scissors := 3]) == Rock
    ensures PredictFrom(map[Rock := 2, Paper := 2, Scissors := 4]) == Scissors
  {
    assert Ordinal(Paper) < Ordinal(Scissors);
    assert Ordinal(Rock) < Ordinal(Scissors);
  }

  /** A predictor that has seen only `move` predicts it. */
  lemma PredictAfterOneMove(p: MovePredictor, move: Move)
    requires p.Valid() && p.recorded == [move]
    ensures p.Predict() == move
  {
    assert [move][1..] == [];
    assert Count([move], move) == 1;
    forall k | k != move
      ensures Count([move], k) == 0
    {
    }
    PredictStrictMaximum(p.moveHistory, move);
  }
}
