/** Ratings, streaks and counts of one player, as a fold of game results. */
module Ratings {
  import opened Options

  /** What a finished game counts as; any outcome that is neither side's win is a draw. */
  datatype Result = Win | Loss | Draw

  /** The part of a profile that results change. `kind` is the current streak's kind, if any game was played. */
  datatype Record = Record(rating: int, games: nat, wins: nat, losses: nat, draws: nat, streak: nat,
      kind: Option<Result>)

  /** One rated game: its result and the rating attributed to the engine preset. */
  datatype Rated = Rated(result: Result, engine: int)

  /** The expected score of a player against an engine of the given rating. */
  type Expectation = (int, int) -> real

  const K: real := 24.0
  const INITIAL_RATING := 1200
  const FRESH := Record(INITIAL_RATING, 0, 0, 0, 0, 0, None)

  ghost predicate Bounded(e: Expectation) {
    forall engine, rating :: 0.0 <= e(engine, rating) <= 1.0
  }

  /** Rounding to the nearest integer, halves away from zero. */
  function Round(x: real): int {
    if x >= 0.0 then (x + 0.5).Floor else -((-x + 0.5).Floor)
  }

  function Score(r: Result): real {
    match r
    case Win => 1.0
    case Loss => 0.0
    case Draw => 0.5
  }

  function NewRating(e: Expectation, rating: int, g: Rated): int {
    Round(rating as real + K * (Score(g.result) - e(g.engine, rating)))
  }

  /** One game added to a record. */
  function ApplyGame(e: Expectation, p: Record, g: Rated): Record {
    Record(
      NewRating(e, p.rating, g), p.games + 1,
      if g.result == Win then p.wins + 1 else p.wins,
      if g.result == Loss then p.losses + 1 else p.losses,
      if g.result == Draw then p.draws + 1 else p.draws,
      if p.kind == Some(g.result) then p.streak + 1 else 1,
      Some(g.result))
  }

  function Fold(e: Expectation, p: Record, games: seq<Rated>): Record {
    if games == [] then p else ApplyGame(e, Fold(e, p, games[..|games| - 1]), games[|games| - 1])
  }

  function Count(games: seq<Rated>, r: Result): nat {
    if games == [] then 0 else Count(games[..|games| - 1], r) + (if games[|games| - 1].result == r then 1 else 0)
  }

  // ---------------------------------------------------------------- one game

  /** Rounding does not leave an interval with integer ends. */
  lemma RoundBetween(x: real, lo: int, hi: int)
    requires lo as real <= x <= hi as real
    ensures lo <= Round(x) <= hi
  {
  }

  lemma RoundWithinHalf(x: real)
    ensures var d := x - Round(x) as real;
            -0.5 <= d <= 0.5 && (d == 0.5 ==> x < 0.0) && (d == -0.5 ==> x > 0.0)
  {
  }

  /** Rounding picks a nearest integer, and of two equally near ones the one farther from zero. */
  lemma RoundIsNearest(x: real, n: int)
    ensures var d, m := x - Round(x) as real, x - n as real;
            && (if d >= 0.0 then d else -d) <= (if m >= 0.0 then m else -m)
            && (d == 0.5 ==> x < 0.0) && (d == -0.5 ==> x > 0.0)
  {
    RoundWithinHalf(x);
    var k := Round(x);
    if n < k {
      assert n as real <= k as real - 1.0;
    } else if n > k {
      assert n as real >= k as real + 1.0;
    }
  }

  /** A win never lowers the rating, a loss never raises it, and no game moves it by more than the K factor. */
  lemma RatingMoves(e: Expectation, rating: int, g: Rated)
    requires Bounded(e)
    ensures var n := NewRating(e, rating, g);
            && (g.result == Win ==> rating <= n <= rating + 24)
            && (g.result == Loss ==> rating - 24 <= n <= rating)
            && (g.result == Draw ==> rating - 12 <= n <= rating + 12)
  {
    var x := e(g.engine, rating);
    var y := rating as real + K * (Score(g.result) - x);
    match g.result
    case Win => RoundBetween(y, rating, rating + 24);
    case Loss => RoundBetween(y, rating - 24, rating);
    case Draw => RoundBetween(y, rating - 12, rating + 12);
  }

  /** The rating goes to the integer nearest to 24 times the surprise away, halves away from zero. */
  ghost predicate Moved(e: Expectation, engine: int, score: real, before: int, after: int) {
    var d := before as real + 24.0 * (score - e(engine, before)) - after as real;
    -0.5 <= d <= 0.5 && (d == 0.5 ==> after < 0) && (d == -0.5 ==> after > 0)
  }

  /** No two ratings satisfy the description. */
  lemma MovedToOne(e: Expectation, engine: int, score: real, before: int, m: int, n: int)
    requires Moved(e, engine, score, before, m) && Moved(e, engine, score, before, n)
    ensures m == n
  {
  }

  /** One game, field by field: one result counted, the streak longer or restarted, the rating moved. */
  ghost predicate Counted(e: Expectation, p: Record, g: Rated, q: Record) {
    && q.games == p.games + 1
    && (g.result == Win ==> q.wins == p.wins + 1 && q.losses == p.losses && q.draws == p.draws)
    && (g.result == Loss ==> q.losses == p.losses + 1 && q.wins == p.wins && q.draws == p.draws)
    && (g.result == Draw ==> q.draws == p.draws + 1 && q.wins == p.wins && q.losses == p.losses)
    && q.kind == Some(g.result)
    && (p.kind == Some(g.result) ==> q.streak == p.streak + 1) && (p.kind != Some(g.result) ==> q.streak == 1)
    && (g.result == Win ==> Moved(e, g.engine, 1.0, p.rating, q.rating))
    && (g.result == Draw ==> Moved(e, g.engine, 0.5, p.rating, q.rating))
    && (g.result == Loss ==> Moved(e, g.engine, 0.0, p.rating, q.rating))
  }

  /** The record after a game is the only one that counts it. */
  lemma CountedIff(e: Expectation, p: Record, g: Rated, q: Record)
    ensures Counted(e, p, g, q) <==> q == ApplyGame(e, p, g)
  {
    var score := if g.result == Win then 1.0 else if g.result == Draw then 0.5 else 0.0;
    var n := NewRating(e, p.rating, g);
    RoundWithinHalf(p.rating as real + 24.0 * (score - e(g.engine, p.rating)));
    assert Moved(e, g.engine, score, p.rating, n);
    if Counted(e, p, g, q) {
      MovedToOne(e, g.engine, score, p.rating, q.rating, n);
    }
  }

  /** Between equals a win is worth twelve points, a loss costs twelve and a draw changes nothing. */
  lemma BetweenEquals(e: Expectation, p: Record, g: Rated)
    requires e(g.engine, p.rating) == 0.5
    ensures var change := ApplyGame(e, p, g).rating - p.rating;
            change == if g.result == Win then 12 else if g.result == Loss then -12 else 0
  {
    CountedIff(e, p, g, ApplyGame(e, p, g));
    var change := if g.result == Win then 12 else if g.result == Loss then -12 else 0;
    var score := if g.result == Win then 1.0 else if g.result == Draw then 0.5 else 0.0;
    assert Moved(e, g.engine, score, p.rating, p.rating + change);
    MovedToOne(e, g.engine, score, p.rating, p.rating + change, ApplyGame(e, p, g).rating);
  }

  // ---------------------------------------------------------------- whole histories

  /** The records of a player, from the first one on: each counts one more game. */
  ghost predicate History(e: Expectation, games: seq<Rated>, records: seq<Record>) {
    && |records| == |games| + 1
    && records[0] == Record(1200, 0, 0, 0, 0, 0, None)
    && forall i | 0 <= i < |games| :: Counted(e, records[i], games[i], records[i + 1])
  }

  /** A player's games determine the history, and its last record is the fold. */
  lemma {:induction false} FoldIsHistory(e: Expectation, games: seq<Rated>) returns (records: seq<Record>)
    ensures History(e, games, records) && records[|games|] == Fold(e, FRESH, games)
  {
    if games == [] {
      records := [FRESH];
    } else {
      var init, last := games[..|games| - 1], games[|games| - 1];
      var rs := FoldIsHistory(e, init);
      var next := ApplyGame(e, rs[|init|], last);
      CountedIff(e, rs[|init|], last, next);
      records := rs + [next];
      forall i | 0 <= i < |games| ensures Counted(e, records[i], games[i], records[i + 1]) {
        if i < |init| {
          assert Counted(e, rs[i], init[i], rs[i + 1]);
        }
      }
    }
  }

  lemma {:induction false} HistoryUnique(e: Expectation, games: seq<Rated>, records: seq<Record>, n: nat)
    requires History(e, games, records) && n <= |games|
    ensures records[n] == Fold(e, FRESH, games[..n])
  {
    if n == 0 {
      assert games[..0] == [];
    } else {
      HistoryUnique(e, games, records, n - 1);
      assert games[..n][..n - 1] == games[..n - 1];
      CountedIff(e, records[n - 1], games[n - 1], records[n]);
    }
  }

  /** After n games the rating is within 24n of where it started. */
  lemma {:induction false} RatingStaysNear(e: Expectation, p: Record, games: seq<Rated>)
    requires Bounded(e)
    ensures p.rating - 24 * |games| <= Fold(e, p, games).rating <= p.rating + 24 * |games|
  {
    if games != [] {
      var init, last := games[..|games| - 1], games[|games| - 1];
      RatingStaysNear(e, p, init);
      RatingMoves(e, Fold(e, p, init).rating, last);
    }
  }

  /** The counters count the results of each kind, and add up to the games played. */
  lemma {:induction false} CountersCount(e: Expectation, p: Record, games: seq<Rated>)
    ensures var q := Fold(e, p, games);
            && q.games == p.games + |games|
            && q.wins == p.wins + Count(games, Win) && q.losses == p.losses + Count(games, Loss)
            && q.draws == p.draws + Count(games, Draw)
            && Count(games, Win) + Count(games, Loss) + Count(games, Draw) == |games|
  {
    if games != [] {
      CountersCount(e, p, games[..|games| - 1]);
    }
  }

  /** `n` is the length of the longest constant suffix of results. */
  predicate IsStreak(games: seq<Rated>, n: nat) {
    && n <= |games|
    && (games != [] ==> n > 0)
    && (forall i | |games| - n <= i < |games| :: games[i].result == games[|games| - 1].result)
    && (n < |games| ==> games[|games| - n - 1].result != games[|games| - 1].result)
  }

  /** The streak of a player's whole history is its longest constant suffix, and its kind is the last result. */
  lemma {:induction false} StreakIsLongestSuffix(e: Expectation, p: Record, games: seq<Rated>)
    requires p.kind == None && p.streak == 0
    ensures var q := Fold(e, p, games);
            IsStreak(games, q.streak) && q.kind == (if games == [] then None else Some(games[|games| - 1].result))
  {
    if games != [] {
      StreakIsLongestSuffix(e, p, games[..|games| - 1]);
    }
  }

  /** The streak length is determined: no two lengths satisfy the description. */
  lemma StreakUnique(games: seq<Rated>, m: nat, n: nat)
    requires IsStreak(games, m) && IsStreak(games, n)
    ensures m == n
  {
  }

  // ---------------------------------------------------------------- the update in place

  class Profile {
    var rating: int
    var gamesPlayed: nat
    var wins: nat
    var losses: nat
    var draws: nat
    var streak: nat
    var streakType: Option<Result>

    function Abs(): Record
      reads this
    {
      Record(rating, gamesPlayed, wins, losses, draws, streak, streakType)
    }

    constructor ()
      ensures Abs() == FRESH
    {
      rating, gamesPlayed, wins, losses, draws, streak, streakType := INITIAL_RATING, 0, 0, 0, 0, 0, None;
    }

    /** applyGameResult: updates the counters, the streak and the rating, and returns the rating change. */
    method ApplyGameResult(e: Expectation, g: Rated) returns (delta: int)
      modifies this
      ensures Abs() == ApplyGame(e, old(Abs()), g)
      ensures Counted(e, old(Abs()), g, Abs())
      ensures delta == rating - old(rating)
    {
      CountedIff(e, Abs(), g, ApplyGame(e, Abs(), g));
      var prev := rating;
      gamesPlayed := gamesPlayed + 1;
      var score: real;
      match g.result {
        case Win => wins := wins + 1; score := 1.0;
        case Loss => losses := losses + 1; score := 0.0;
        case Draw => draws := draws + 1; score := 0.5;
      }
      if streakType == Some(g.result) {
        streak := streak + 1;
      } else {
        streak := 1;
        streakType := Some(g.result);
      }
      var expected := e(g.engine, rating);
      rating := Round(rating as real + K * (score - expected));
      delta := rating - prev;
    }
  }
}
