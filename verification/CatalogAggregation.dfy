/** Adding up the catalog's answers over several catalog tokens. */
module CatalogAggregation {
  import opened CatalogLookup
  import opened OpeningCatalog
  import opened OpeningWalk
  import opened Options
  import opened Sorting
  import opened Text

  /** The variations a lookup consults. */
  function Consult(entry: Option<Entry>, h: seq<string>, color: string, maxPly: int): seq<Variation> {
    if entry.Some? && Allowed(h, color, maxPly) then entry.value.variations else []
  }

  function Consulted(
      find: string -> Option<Entry>, tokens: seq<string>, h: seq<string>, color: string, maxPly: int)
    : (r: seq<seq<Variation>>)
    ensures |r| == |tokens|
  {
    seq(|tokens|, i requires 0 <= i < |tokens| => Consult(find(tokens[i]), h, color, maxPly))
  }

  /** The weight of a move over all sources. */
  function TrueSum(sources: seq<seq<Variation>>, h: seq<string>, m: string): int {
    if sources == [] then 0
    else TrueSum(sources[..|sources| - 1], h, m) + Tally(sources[|sources| - 1], h, m)
  }

  /** The same, each source's weight limited before it is added. */
  function LimitedSum(sources: seq<seq<Variation>>, h: seq<string>, m: string): int {
    if sources == [] then 0
    else
      TotalNonNegative(sources[|sources| - 1], h, m);
      LimitedSum(sources[..|sources| - 1], h, m) + Clamp(Tally(sources[|sources| - 1], h, m))
  }

  /** The ranking of the moves whose weight reaches the minimum, limited once more. */
  ghost predicate RanksSums(out: seq<Result>, sumOf: string -> int, minWeight: int) {
    && Sorted(out, ByWeight)
    && forall r :: r in out <==>
         && sumOf(r.move) > 0
         && (minWeight > 0 ==> sumOf(r.move) >= minWeight)
         && r.weight == (if sumOf(r.move) > MAX_WEIGHT then MAX_WEIGHT else sumOf(r.move))
  }

  function LimitedSumOf(sources: seq<seq<Variation>>, h: seq<string>): string -> int {
    m => LimitedSum(sources, h, m)
  }

  function TrueSumOf(sources: seq<seq<Variation>>, h: seq<string>): string -> int {
    m => TrueSum(sources, h, m)
  }

  // ----- The answers' moves -----

  /** The weight a list of results gives a move. */
  function WeightIn(rs: seq<Result>, m: string): int {
    if rs == [] then 0
    else WeightIn(rs[..|rs| - 1], m) + if rs[|rs| - 1].move == m then rs[|rs| - 1].weight else 0
  }

  lemma {:induction false} WeightInDistinct(rs: seq<Result>, m: string)
    requires forall i, j :: 0 <= i < j < |rs| ==> rs[i].move != rs[j].move
    ensures (forall r :: r in rs ==> r.move != m) ==> WeightIn(rs, m) == 0
    ensures forall r :: r in rs && r.move == m ==> WeightIn(rs, m) == r.weight
  {
    if rs != [] {
      var front := rs[..|rs| - 1];
      assert rs == front + [rs[|rs| - 1]];
      WeightInDistinct(front, m);
      assert forall r :: r in front ==> r in rs;
    }
  }

  /** An answer names each move once, in normal form, with the move's limited weight. */
  lemma AnswerMoves(rs: seq<Result>, vs: seq<Variation>, h: seq<string>)
    requires Answer(rs, vs, h)
    ensures forall i, j :: 0 <= i < j < |rs| ==> rs[i].move != rs[j].move
    ensures forall r :: r in rs ==> Normal(r.move) == r.move && Trim(r.move) == r.move != ""
  {
    ByWeightIsWeak();
    forall i, j | 0 <= i < j < |rs| ensures rs[i].move != rs[j].move {
      assert rs[i] in rs && rs[j] in rs && ByWeight(rs[i], rs[j]);
      assert rs[i] != rs[j];
    }
    forall r | r in rs ensures Normal(r.move) == r.move && Trim(r.move) == r.move != "" {
      AnswerMoveIsNormal(vs, h, r.move);
    }
  }

  lemma {:induction false} AnswerMoveIsNormal(vs: seq<Variation>, h: seq<string>, m: string)
    requires Tally(vs, h, m) > 0
    ensures Normal(m) == m && Trim(m) == m != ""
  {
    var last := vs[|vs| - 1];
    if Share(last, h, m) > 0 {
      TrimNormal(last.moves[|h|].move);
    } else {
      AnswerMoveIsNormal(vs[..|vs| - 1], h, m);
    }
  }

  lemma AnswerWeighs(rs: seq<Result>, vs: seq<Variation>, h: seq<string>, m: string)
    requires Answer(rs, vs, h)
    ensures Tally(vs, h, m) >= 0
    ensures WeightIn(rs, m) == Clamp(Tally(vs, h, m))
  {
    TotalNonNegative(vs, h, m);
    AnswerMoves(rs, vs, h);
    WeightInDistinct(rs, m);
    if Tally(vs, h, m) > 0 {
      assert Result(m, Clamp(Tally(vs, h, m))) in rs;
    }
  }

  lemma LimitedSumSnoc(sources: seq<seq<Variation>>, i: nat, h: seq<string>, m: string)
    requires i < |sources|
    ensures Tally(sources[i], h, m) >= 0
    ensures LimitedSum(sources[..i + 1], h, m) == LimitedSum(sources[..i], h, m) + Clamp(Tally(sources[i], h, m))
  {
    TotalNonNegative(sources[i], h, m);
    assert sources[..i + 1][..i] == sources[..i];
  }

  // ----- The operation -----

  method AddAnswer(combined: map<string, int>, results: seq<Result>) returns (r: map<string, int>)
    requires forall x :: x in results ==> Trim(x.move) == x.move != "" && x.weight > 0
    requires forall m :: m in combined ==> combined[m] > 0
    ensures forall m :: At(r, m) == At(combined, m) + WeightIn(results, m)
    ensures forall m :: m in r ==> r[m] > 0
  {
    r := combined;
    for i := 0 to |results|
      invariant forall m :: At(r, m) == At(combined, m) + WeightIn(results[..i], m)
      invariant forall m :: m in r ==> r[m] > 0
    {
      assert results[i] in results;
      assert results[..i + 1][..i] == results[..i];
      var move := Trim(results[i].move);
      if move == "" {
        continue;
      }
      r := r[move := At(r, move) + results[i].weight];
    }
    assert results[..|results|] == results;
  }

  method KeepHeavy(combined: map<string, int>, minWeight: int) returns (kept: map<string, int>)
    ensures forall m :: m in kept <==> m in combined && (minWeight > 0 ==> combined[m] >= minWeight)
    ensures forall m :: m in kept ==> kept[m] == combined[m]
  {
    kept := map[];
    var todo := combined.Keys;
    while todo != {}
      invariant todo <= combined.Keys
      invariant forall m :: m in kept <==>
          m in combined && m !in todo && (minWeight > 0 ==> combined[m] >= minWeight)
      invariant forall m :: m in kept ==> kept[m] == combined[m]
      decreases todo
    {
      var m :| m in todo;
      todo := todo - {m};
      if minWeight > 0 && combined[m] < minWeight {
        continue;
      }
      kept := kept[m := combined[m]];
    }
  }

  /** The combined answer of several tokens; `find` resolves a token to its catalog entry. */
  method AggregateCatalogMoves(
      find: string -> Option<Entry>, history: seq<string>, tokens: seq<string>, color: string, maxPly: int,
      minWeight: int)
      returns (out: seq<Result>)
    ensures RanksSums(out, LimitedSumOf(Consulted(find, tokens, history, color, maxPly), history), minWeight)
  {
    ghost var sources := Consulted(find, tokens, history, color, maxPly);
    var combined: map<string, int> := map[];
    for i := 0 to |tokens|
      invariant forall m :: At(combined, m) == LimitedSum(sources[..i], history, m)
      invariant forall m :: m in combined ==> combined[m] > 0
    {
      var results := LookupCatalog(find(tokens[i]), history, color, maxPly);
      assert Answer(results, sources[i], history);
      AnswerMoves(results, sources[i], history);
      combined := AddAnswer(combined, results);
      forall m ensures At(combined, m) == LimitedSum(sources[..i + 1], history, m) {
        AnswerWeighs(results, sources[i], history, m);
        LimitedSumSnoc(sources, i, history, m);
      }
    }
    assert sources[..|tokens|] == sources;
    var kept := KeepHeavy(combined, minWeight);
    out := Rank(kept);
    forall m ensures m in combined <==> LimitedSum(sources, history, m) > 0 {
      assert At(combined, m) == LimitedSum(sources, history, m);
    }
  }

  // ----- Limiting twice -----

  /** Limiting each part loses nothing that limiting the sum would keep. */
  lemma {:induction false} LimitTwice(sources: seq<seq<Variation>>, h: seq<string>, m: string)
    ensures LimitedSum(sources, h, m) == TrueSum(sources, h, m) || MAX_WEIGHT <= LimitedSum(sources, h, m)
    ensures 0 <= LimitedSum(sources, h, m) <= TrueSum(sources, h, m)
  {
    if sources != [] {
      LimitTwice(sources[..|sources| - 1], h, m);
      TotalNonNegative(sources[|sources| - 1], h, m);
    }
  }

  lemma LimitOnceOrTwice(out: seq<Result>, sources: seq<seq<Variation>>, h: seq<string>, minWeight: int)
    requires minWeight <= MAX_WEIGHT
    ensures RanksSums(out, LimitedSumOf(sources, h), minWeight) <==> RanksSums(out, TrueSumOf(sources, h), minWeight)
  {
    forall m
      ensures LimitedSum(sources, h, m) > 0 <==> TrueSum(sources, h, m) > 0
      ensures minWeight > 0 ==> (LimitedSum(sources, h, m) >= minWeight <==> TrueSum(sources, h, m) >= minWeight)
      ensures (if LimitedSum(sources, h, m) > MAX_WEIGHT then MAX_WEIGHT else LimitedSum(sources, h, m)) ==
              (if TrueSum(sources, h, m) > MAX_WEIGHT then MAX_WEIGHT else TrueSum(sources, h, m))
    {
      LimitTwice(sources, h, m);
    }
  }

  /** A catalog of one first move of a given weight. */
  function OneMove(w: nat): seq<seq<Variation>> {
    [[Variation([LineMove(1, "white", "e2e4", "e4", w)], "", w)]]
  }

  lemma OneMoveSums(w: nat)
    requires w > 0
    ensures TrueSum(OneMove(w), [], "e2e4") == w
    ensures forall m :: LimitedSum(OneMove(w), [], m) <= MAX_WEIGHT
  {
    SolidIsTrimmed("white");
    SolidIsTrimmed("e2e4");
    assert Lower("white") == "white" && Lower("e2e4") == "e2e4";
    var v := OneMove(w)[0][0];
    assert v.moves[0].move == "e2e4" && v.moves[0].color == "white";
    assert Continues(v, []);
    assert Share(v, [], "e2e4") == w;
    TallySnoc([], v, [], "e2e4");
    assert [] + [v] == OneMove(w)[0];
    assert OneMove(w)[..0] == [];
    forall m ensures LimitedSum(OneMove(w), [], m) <= MAX_WEIGHT {
      TotalNonNegative(OneMove(w)[0], [], m);
    }
  }

  /** Limiting twice always gives what limiting once would exactly when the minimum fits in 16 bits. */
  lemma LimitingTwiceIsHarmlessIff(minWeight: int)
    ensures minWeight <= MAX_WEIGHT <==>
            forall out, sources, h ::
              RanksSums(out, LimitedSumOf(sources, h), minWeight) <==> RanksSums(out, TrueSumOf(sources, h), minWeight)
  {
    if minWeight <= MAX_WEIGHT {
      forall out, sources, h
        ensures RanksSums(out, LimitedSumOf(sources, h), minWeight) <==>
                RanksSums(out, TrueSumOf(sources, h), minWeight)
      {
        LimitOnceOrTwice(out, sources, h, minWeight);
      }
    } else {
      OneMoveSums(minWeight);
      assert RanksSums([], LimitedSumOf(OneMove(minWeight), []), minWeight);
      assert TrueSumOf(OneMove(minWeight), [])("e2e4") == minWeight;
      assert Result("e2e4", MAX_WEIGHT) !in [];
      assert !RanksSums([], TrueSumOf(OneMove(minWeight), []), minWeight);
    }
  }

  // ----- Independence of order -----

  lemma RankingUnique(a: seq<Result>, b: seq<Result>, sumOf: string -> int, minWeight: int)
    requires RanksSums(a, sumOf, minWeight) && RanksSums(b, sumOf, minWeight)
    ensures a == b
  {
    ByWeightIsWeak();
    SortedUnique(a, b, ByWeight);
  }

  lemma {:induction false} TrueSumWithout(s: seq<seq<Variation>>, i: nat, h: seq<string>, m: string)
    requires i < |s|
    ensures TrueSum(s, h, m) == TrueSum(s[..i] + s[i + 1..], h, m) + Tally(s[i], h, m)
  {
    var n := |s| - 1;
    if i == n {
      assert s[..i] + s[i + 1..] == s[..n];
    } else {
      TrueSumWithout(s[..n], i, h, m);
      assert (s[..i] + s[i + 1..])[..n - 1] == s[..n][..i] + s[..n][i + 1..];
    }
  }

  lemma {:induction false} TrueSumPermuted(a: seq<seq<Variation>>, b: seq<seq<Variation>>, h: seq<string>, m: string)
    requires multiset(a) == multiset(b)
    ensures TrueSum(a, h, m) == TrueSum(b, h, m)
    decreases |a|
  {
    if a == [] {
      assert |multiset(b)| == 0;
    } else {
      var n := |a| - 1;
      assert a[n] in multiset(b);
      var i :| 0 <= i < |b| && b[i] == a[n];
      Without(a, n);
      Without(b, i);
      TrueSumWithout(a, n, h, m);
      TrueSumWithout(b, i, h, m);
      TrueSumPermuted(a[..n] + a[n + 1..], b[..i] + b[i + 1..], h, m);
    }
  }

  /** The combined answer does not depend on the order of the sources, nor on any map's iteration order. */
  lemma AggregationIsOrderFree(
      a: seq<Result>, b: seq<Result>, s: seq<seq<Variation>>, t: seq<seq<Variation>>, h: seq<string>, minWeight: int)
    requires minWeight <= MAX_WEIGHT && multiset(s) == multiset(t)
    requires RanksSums(a, LimitedSumOf(s, h), minWeight) && RanksSums(b, LimitedSumOf(t, h), minWeight)
    ensures a == b
  {
    LimitOnceOrTwice(a, s, h, minWeight);
    LimitOnceOrTwice(b, t, h, minWeight);
    forall m ensures TrueSumOf(s, h)(m) == TrueSumOf(t, h)(m) {
      TrueSumPermuted(s, t, h, m);
    }
    assert RanksSums(b, TrueSumOf(s, h), minWeight);
    RankingUnique(a, b, TrueSumOf(s, h), minWeight);
  }
}
