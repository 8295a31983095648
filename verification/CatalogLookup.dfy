/** Asking the catalog for the book moves after a history. */
module CatalogLookup {
  import opened Lexicographic
  import opened OpeningCatalog
  import opened OpeningWalk
  import opened Options
  import opened Sorting
  import opened Text

  datatype Result = Result(move: string, weight: nat)

  const MAX_WEIGHT: nat := 0xffff

  function Clamp(w: nat): nat {
    if w > MAX_WEIGHT then MAX_WEIGHT else w
  }

  function NormalColor(color: string): string {
    var c := Normal(color);
    if c == "white" || c == "w" then "white"
    else if c == "black" || c == "b" then "black"
    else ""
  }

  /** The colour a caller asks for; black when it names none. */
  function Constraint(color: string): string {
    if Normal(color) == "" then "black" else Normal(color)
  }

  /** Whether the catalog answers at this point of the game at all. */
  predicate Allowed(h: seq<string>, color: string, maxPly: int) {
    && |h| < (if maxPly <= 0 then DEFAULT_PLY else maxPly)
    && (Constraint(color) == "both" || Constraint(color) == SideToMove(|h|))
  }

  predicate PrefixMatches(p: Path, h: seq<string>) {
    |h| <= |p| && forall i :: 0 <= i < |h| ==> Normal(p[i].move) == Normal(h[i])
  }

  /** The variation agrees with the history and has a further move for the side to move. */
  predicate Continues(v: Variation, h: seq<string>) {
    && |h| < |v.moves|
    && PrefixMatches(v.moves, h)
    && NormalColor(v.moves[|h|].color) == SideToMove(|h|)
  }

  /** What one variation adds to the weight of a move. */
  function Share(v: Variation, h: seq<string>, m: string): nat {
    if Continues(v, h) && m != "" && Normal(v.moves[|h|].move) == m && v.moves[|h|].weight > 0
    then v.moves[|h|].weight
    else 0
  }

  function ShareOf(h: seq<string>, m: string): Variation -> int {
    v => Share(v, h, m)
  }

  /** The weight of a move over all variations, before any limit is put on it. */
  function Tally(vs: seq<Variation>, h: seq<string>, m: string): int {
    Total(vs, ShareOf(h, m))
  }

  lemma {:induction false} TotalNonNegative(vs: seq<Variation>, h: seq<string>, m: string)
    ensures Tally(vs, h, m) >= 0
  {
    if vs != [] {
      TotalNonNegative(vs[..|vs| - 1], h, m);
    }
  }

  lemma TallySnoc(vs: seq<Variation>, v: Variation, h: seq<string>, m: string)
    ensures Tally(vs + [v], h, m) == Tally(vs, h, m) + Share(v, h, m)
  {
    assert (vs + [v])[..|vs|] == vs;
  }

  predicate ByWeight(a: Result, b: Result) {
    a.weight > b.weight || (a.weight == b.weight && Less(a.move, b.move))
  }

  lemma ByWeightIsWeak()
    ensures WeakOrder(ByWeight)
  {
    LessIsStrictTotal();
  }

  /** The answer for some variations: every move with weight, limited to 16 bits, heaviest first. */
  ghost predicate Answer(rs: seq<Result>, vs: seq<Variation>, h: seq<string>) {
    && Sorted(rs, ByWeight)
    && forall r :: r in rs <==> Tally(vs, h, r.move) > 0 && r.weight == Clamp(Tally(vs, h, r.move))
  }

  // ----- The answer in terms of the fields -----

  /** The ply is within the limit, twelve unless one is given, and its side is asked for: black if none is named. */
  ghost predicate AsksInTurn(ply: nat, color: string, maxPly: int) {
    && ply < (if maxPly > 0 then maxPly else 12)
    && Normal(color) in (if ply % 2 == 0 then {"white", "both"} else {"black", "both", ""})
  }

  lemma AllowedIff(h: seq<string>, color: string, maxPly: int)
    ensures Allowed(h, color, maxPly) <==> AsksInTurn(|h|, color, maxPly)
  {
    assert "white" != "black" by {
      assert "white"[0] != "black"[0];
    }
    assert "white" != "both" by {
      assert "white"[0] != "both"[0];
    }
    assert "black" != "both" by {
      assert |"black"| != |"both"|;
    }
  }

  /** The variation plays the history up to spaces and case, and then this move, of the side to move, with weight. */
  ghost predicate Offers(v: Variation, h: seq<string>, m: string) {
    && |h| < |v.moves|
    && (forall i :: 0 <= i < |h| ==> Normal(v.moves[i].move) == Normal(h[i]))
    && Normal(v.moves[|h|].color) in (if |h| % 2 == 0 then {"white", "w"} else {"black", "b"})
    && Normal(v.moves[|h|].move) == m != "" && v.moves[|h|].weight > 0
  }

  lemma NormalColorIff(color: string)
    ensures NormalColor(color) == "white" <==> Normal(color) in {"white", "w"}
    ensures NormalColor(color) == "black" <==> Normal(color) in {"black", "b"}
  {
    assert "white"[0] == 'w' && "w"[0] == 'w' && "black"[0] == 'b' && "b"[0] == 'b';
    assert "white" != "black" && "white" != "" && "black" != "";
  }

  /** A variation adds the weight of its next move to that move, if it offers it, and nothing to any other. */
  lemma ShareIff(v: Variation, h: seq<string>, m: string)
    ensures Offers(v, h, m) ==> Share(v, h, m) == v.moves[|h|].weight
    ensures !Offers(v, h, m) ==> Share(v, h, m) == 0
  {
    if |h| < |v.moves| {
      NormalColorIff(v.moves[|h|].color);
    }
  }

  lemma {:induction false} OfferedIff(vs: seq<Variation>, h: seq<string>, m: string)
    ensures Tally(vs, h, m) > 0 <==> exists v :: v in vs && Offers(v, h, m)
  {
    if vs != [] {
      var front, last := vs[..|vs| - 1], vs[|vs| - 1];
      assert vs == front + [last];
      OfferedIff(front, h, m);
      TotalNonNegative(front, h, m);
      ShareIff(last, h, m);
      assert (exists v :: v in vs && Offers(v, h, m)) <==>
             Offers(last, h, m) || exists v :: v in front && Offers(v, h, m);
    }
  }

  /** Heaviest first and then by spelling; the moves offered and no others; each with its weight, up to 65535. */
  ghost predicate Ranked(rs: seq<Result>, vs: seq<Variation>, h: seq<string>) {
    && (forall i, j | 0 <= i < j < |rs| ::
          rs[i].weight > rs[j].weight || (rs[i].weight == rs[j].weight && Less(rs[i].move, rs[j].move)))
    && (forall r :: r in rs ==> exists v :: v in vs && Offers(v, h, r.move))
    && (forall v, m :: v in vs && Offers(v, h, m) ==> exists r :: r in rs && r.move == m)
    && (forall r :: r in rs ==> r.weight == if Tally(vs, h, r.move) > 65535 then 65535 else Tally(vs, h, r.move))
  }

  lemma AnswerIsRanked(rs: seq<Result>, vs: seq<Variation>, h: seq<string>)
    requires Answer(rs, vs, h)
    ensures Ranked(rs, vs, h)
  {
    forall r | r in rs ensures exists v :: v in vs && Offers(v, h, r.move) {
      OfferedIff(vs, h, r.move);
    }
    forall v, m | v in vs && Offers(v, h, m) ensures exists r :: r in rs && r.move == m {
      OfferedIff(vs, h, m);
      assert Result(m, Clamp(Tally(vs, h, m))) in rs;
    }
  }

  method VariationPrefixMatches(v: Variation, h: seq<string>) returns (ok: bool)
    ensures ok <==> PrefixMatches(v.moves, h)
  {
    if |h| > |v.moves| {
      return false;
    }
    for i := 0 to |h|
      invariant forall j :: 0 <= j < i ==> Normal(v.moves[j].move) == Normal(h[j])
    {
      if Normal(v.moves[i].move) != Normal(h[i]) {
        return false;
      }
    }
    return true;
  }

  /** The moves a catalog entry offers after a history. */
  method LookupCatalog(entry: Option<Entry>, history: seq<string>, color: string, maxPly: int)
      returns (results: seq<Result>)
    ensures entry.None? || !Allowed(history, color, maxPly) ==> results == []
    ensures entry.Some? && Allowed(history, color, maxPly) ==> Answer(results, entry.value.variations, history)
    ensures entry.None? || !AsksInTurn(|history|, color, maxPly) ==> results == []
    ensures entry.Some? && AsksInTurn(|history|, color, maxPly) ==> Ranked(results, entry.value.variations, history)
  {
    AllowedIff(history, color, maxPly);
    if entry.None? {
      return [];
    }
    var ply := |history|;
    var limit := maxPly;
    if limit <= 0 {
      limit := DEFAULT_PLY;
    }
    if ply >= limit {
      return [];
    }
    var sideToMove := SideToMove(ply);
    var colorConstraint := Normal(color);
    if colorConstraint == "" {
      colorConstraint := "black";
    }
    if colorConstraint != "both" && colorConstraint != sideToMove {
      return [];
    }
    var matches := Matching(entry.value.variations, history);
    var moveWeights := AddUp(matches, history);
    forall m ensures Tally(matches, history, m) == Tally(entry.value.variations, history, m) {
      MatchingTally(entry.value.variations, history, m);
    }
    results := Rank(moveWeights);
    AnswerIsRanked(results, entry.value.variations, history);
  }

  function Continuing(vs: seq<Variation>, h: seq<string>): (r: seq<Variation>)
    ensures forall v :: v in r ==> Continues(v, h)
  {
    if vs == [] then []
    else
      Continuing(vs[..|vs| - 1], h) + if Continues(vs[|vs| - 1], h) then [vs[|vs| - 1]] else []
  }

  lemma {:induction false} MatchingTally(vs: seq<Variation>, h: seq<string>, m: string)
    ensures Tally(Continuing(vs, h), h, m) == Tally(vs, h, m)
  {
    if vs != [] {
      var front := vs[..|vs| - 1];
      var last := vs[|vs| - 1];
      MatchingTally(front, h, m);
      assert vs == front + [last];
      TallySnoc(front, last, h, m);
      TallySnoc(Continuing(front, h), last, h, m);
      assert Continuing(front, h) + [] == Continuing(front, h);
    }
  }

  method Matching(vs: seq<Variation>, h: seq<string>) returns (matches: seq<Variation>)
    ensures matches == Continuing(vs, h)
  {
    matches := [];
    for i := 0 to |vs|
      invariant matches == Continuing(vs[..i], h)
    {
      assert vs[..i + 1][..i] == vs[..i];
      if |h| >= |vs[i].moves| {
        continue;
      }
      var agrees := VariationPrefixMatches(vs[i], h);
      if !agrees {
        continue;
      }
      if NormalColor(vs[i].moves[|h|].color) != SideToMove(|h|) {
        continue;
      }
      matches := matches + [vs[i]];
    }
    assert vs[..|vs|] == vs;
  }

  function At(weights: map<string, int>, m: string): int {
    if m in weights then weights[m] else 0
  }

  method AddUp(matches: seq<Variation>, h: seq<string>) returns (weights: map<string, int>)
    requires forall v :: v in matches ==> Continues(v, h)
    ensures forall m :: At(weights, m) == Tally(matches, h, m)
    ensures forall m :: m in weights ==> weights[m] > 0
  {
    weights := map[];
    for i := 0 to |matches|
      invariant forall m :: At(weights, m) == Tally(matches[..i], h, m)
      invariant forall m :: m in weights ==> weights[m] > 0
    {
      assert matches[i] in matches;
      assert matches[..i + 1] == matches[..i] + [matches[i]];
      forall m ensures Tally(matches[..i + 1], h, m) == At(weights, m) + Share(matches[i], h, m) {
        TallySnoc(matches[..i], matches[i], h, m);
      }
      var next := matches[i].moves[|h|];
      var move := Normal(next.move);
      if move == "" {
        continue;
      }
      if next.weight <= 0 {
        continue;
      }
      weights := weights[move := At(weights, move) + next.weight];
    }
    assert matches[..|matches|] == matches;
  }

  /** Limits and ranks accumulated weights; the map is read in any order. */
  method Rank(weights: map<string, int>) returns (results: seq<Result>)
    requires forall m :: m in weights ==> weights[m] > 0
    ensures Sorted(results, ByWeight)
    ensures forall r :: r in results <==> r.move in weights && r.weight == Clamp(weights[r.move])
  {
    var listed: seq<Result> := [];
    var todo := weights.Keys;
    while todo != {}
      invariant todo <= weights.Keys
      invariant forall r :: r in listed <==>
          r.move in weights && r.move !in todo && r.weight == Clamp(weights[r.move])
      invariant forall i, j :: 0 <= i < j < |listed| ==> listed[i].move != listed[j].move
      decreases todo
    {
      var m :| m in todo;
      assert forall r :: r in listed ==> r.move != m;
      var weight := weights[m];
      if weight > MAX_WEIGHT {
        weight := MAX_WEIGHT;
      }
      listed := listed + [Result(m, weight)];
      todo := todo - {m};
    }
    ByWeightIsWeak();
    LessIsStrictTotal();
    results := Sort(listed, ByWeight);
    DecidedIsSorted(listed, results, ByWeight);
    forall r ensures r in results <==> r in listed {
      assert r in results <==> r in multiset(results);
    }
  }

  /** An answer is determined by the variations: neither token nor map order matters. */
  lemma AnswerUnique(a: seq<Result>, b: seq<Result>, vs: seq<Variation>, h: seq<string>)
    requires Answer(a, vs, h) && Answer(b, vs, h)
    ensures a == b
  {
    ByWeightIsWeak();
    SortedUnique(a, b, ByWeight);
  }
}
