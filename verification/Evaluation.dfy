/** One evaluation: opening catalog, opening book, or engine search with preferences. */
module Evaluation {
  import opened CandidateChoice
  import opened CatalogAggregation
  import opened CatalogLookup
  import opened OpeningCatalog
  import opened OpeningDecision
  import opened OpeningWalk
  import opened Options
  import opened Presets
  import opened Text

  /** The random source: integer rolls below a bound, and two draws from [0, 1). */
  datatype Random = Random(roll: nat -> nat, noise: nat -> nat, u: real, v: real)

  ghost predicate Fair(r: Random) {
    && (forall n :: n > 0 ==> r.roll(n) < n)
    && (forall n :: n > 0 ==> r.noise(n) < n)
    && 0.0 <= r.u < 1.0 && 0.0 <= r.v < 1.0
  }

  function NoiseRoll(p: Settings, r: Random): int {
    if p.evalNoise > 0 then r.noise(2 * p.evalNoise + 1) else 0
  }

  const DEFAULT_WEIGHT: int := 1

  datatype OpeningOptions = OpeningOptions(maxPly: int, minWeight: int)

  datatype Opening = NoOpening | OpeningError | Opened(candidates: seq<Candidate>, chosen: Candidate)

  datatype Evaluated = Failed | Evaluated(preset: Preset, candidates: seq<Candidate>, chosen: Candidate)

  /** What decided the move. */
  datatype Decision = ByCatalog(results: seq<Result>, drawn: Result) | ByBook | ByPreference(m: Match) | BySearch

  function FirstPositive(a: int, b: int, c: int): int {
    if a > 0 then a else if b > 0 then b else c
  }

  function CatalogTokens(cfg: CatalogConfig): (tokens: seq<string>)
    ensures |cfg.keys| > 0 ==> tokens == cfg.keys
    ensures |cfg.keys| == 0 && Trim(cfg.key) != "" ==> tokens == [Trim(cfg.key)]
    ensures |cfg.keys| == 0 && Trim(cfg.key) == "" ==> tokens == []
  {
    if cfg.keys != [] then cfg.keys
    else if Trim(cfg.key) == "" then []
    else [Trim(cfg.key)]
  }

  function ToCandidate(r: Result): Candidate {
    Candidate(r.move, 0, [r.move], false)
  }

  /** The candidates of the results that have a move. */
  function Listed(rs: seq<Result>): seq<Candidate> {
    if rs == [] then []
    else
      var last := rs[|rs| - 1];
      Listed(rs[..|rs| - 1]) + if Trim(last.move) == "" then [] else [ToCandidate(last.(move := Trim(last.move)))]
  }

  function ToCandidates(rs: seq<Result>): (cs: seq<Candidate>)
    ensures |cs| == |rs|
  {
    seq(|rs|, i requires 0 <= i < |rs| => ToCandidate(rs[i]))
  }

  // ----- The moves of a ranking -----

  lemma {:induction false} LimitedSumIsNormal(sources: seq<seq<Variation>>, h: seq<string>, m: string)
    requires LimitedSum(sources, h, m) > 0
    ensures Normal(m) == m && Trim(m) == m != ""
  {
    var last := sources[|sources| - 1];
    TotalNonNegative(last, h, m);
    if Tally(last, h, m) > 0 {
      AnswerMoveIsNormal(last, h, m);
    } else {
      LimitedSumIsNormal(sources[..|sources| - 1], h, m);
    }
  }

  /** Ranked moves are different, in normal form, and have weight. */
  ghost predicate ProperRanking(rs: seq<Result>) {
    && (forall i, j | 0 <= i < j < |rs| :: rs[i].move != rs[j].move)
    && (forall r :: r in rs ==> Normal(r.move) == r.move && Trim(r.move) == r.move != "" && r.weight > 0)
  }

  lemma RankingIsProper(rs: seq<Result>, sources: seq<seq<Variation>>, h: seq<string>, minWeight: int)
    requires RanksSums(rs, LimitedSumOf(sources, h), minWeight)
    ensures ProperRanking(rs)
  {
    ByWeightIsWeak();
    forall i, j | 0 <= i < j < |rs| ensures rs[i].move != rs[j].move {
      assert rs[i] in rs && rs[j] in rs && ByWeight(rs[i], rs[j]);
      assert rs[i] != rs[j];
    }
    forall r | r in rs ensures Normal(r.move) == r.move && Trim(r.move) == r.move != "" && r.weight > 0 {
      LimitedSumIsNormal(sources, h, r.move);
    }
  }

  /** Some move's limited weight reaches the minimum. */
  ghost predicate Reaches(sources: seq<seq<Variation>>, h: seq<string>, minWeight: int) {
    exists m :: 0 < minWeight <= LimitedSum(sources, h, m)
  }

  /** The ranking is empty exactly when no move's weight reaches the minimum. */
  lemma RankingIsOffer(rs: seq<Result>, sources: seq<seq<Variation>>, h: seq<string>, minWeight: int)
    requires RanksSums(rs, LimitedSumOf(sources, h), minWeight) && minWeight > 0
    ensures rs != [] <==> Reaches(sources, h, minWeight)
  {
    if rs != [] {
      assert rs[0] in rs;
      assert LimitedSumOf(sources, h)(rs[0].move) == LimitedSum(sources, h, rs[0].move);
    }
    if m :| 0 < minWeight <= LimitedSum(sources, h, m) {
      var sum := LimitedSumOf(sources, h)(m);
      assert sum == LimitedSum(sources, h, m);
      assert Result(m, if sum > MAX_WEIGHT then MAX_WEIGHT else sum) in rs;
    }
  }

  /** Putting a drawn catalog move first puts exactly that move first. */
  lemma DrawnMoveComesFirst(rs: seq<Result>, i: nat)
    requires ProperRanking(rs) && i < |rs|
    ensures var r := Promoted(ToCandidates(rs), rs[i].move);
      && r != [] && r[0].forced && r[0].move == rs[i].move
      && multiset(Bare(r)) == multiset(ToCandidates(rs))
  {
    var cs := ToCandidates(rs);
    var move := rs[i].move;
    forall k | 0 <= k < |rs| ensures Spells(cs[k], move) <==> k == i {
      assert rs[k] in rs && rs[i] in rs;
      assert Lower(Normal(move)) == Normal(move) by {
        TrimNormal(move);
      }
    }
    assert Spells(cs[i], move);
    assert cs[i] in cs;
    assert Find(cs, move) == Some(i);
    PromotedKeepsAll(cs, move);
    assert Bare(cs) == cs;
    ElevateRearranges(cs, i, true);
  }

  /** A ranking's candidates are its moves, one for one. */
  lemma {:induction false} RankingIsListed(rs: seq<Result>)
    requires forall r :: r in rs ==> Trim(r.move) == r.move != ""
    ensures Listed(rs) == ToCandidates(rs)
  {
    if rs != [] {
      var front := rs[..|rs| - 1];
      assert forall r :: r in front ==> r in rs;
      assert rs[|rs| - 1] in rs;
      RankingIsListed(front);
      assert ToCandidates(rs) == ToCandidates(front) + [ToCandidate(rs[|rs| - 1])];
    }
  }

  method CatalogResultsToCandidates(rs: seq<Result>) returns (cs: seq<Candidate>)
    ensures cs == Listed(rs)
  {
    cs := [];
    for i := 0 to |rs|
      invariant cs == Listed(rs[..i])
    {
      assert rs[..i + 1][..i] == rs[..i];
      var move := Trim(rs[i].move);
      if move == "" {
        continue;
      }
      cs := cs + [Candidate(move, 0, [move], false)];
    }
    assert rs[..|rs|] == rs;
  }

  /** The weights of a preset copied into an array of their own. */
  method CopyWeights(p: Preset) returns (q: Preset)
    ensures fresh(q.weights) && q.settings == p.settings && q.weights[..] == p.weights[..]
  {
    var weights := new real[p.weights.Length];
    for i := 0 to p.weights.Length
      invariant forall k :: 0 <= k < i ==> weights[k] == p.weights[k]
    {
      weights[i] := p.weights[i];
    }
    q := p.(weights := weights);
  }

  /** It is Black's move and the game so far is the line of some preference. */
  ghost predicate PreferenceApplies(p: Settings, moves: seq<string>) {
    |moves| % 2 == 1 && exists q :: q in p.preferences && InLine(q, moves)
  }

  /** A search with this many candidates yields a move: a preference scales the weights to be positive, or they are. */
  ghost predicate Selectable(p: Settings, ws: seq<real>, moves: seq<string>, candidates: nat) {
    if PreferenceApplies(p, moves) then WellFormed(p, ws)
    else ValidPreset(p, ws) && Sum(ws, Shorter(p.primaryChoices, candidates)) > 0.0
  }

  /**
   * The search's outcome: if a preference applies to Black's move one is drawn, its reply put first and the leading
   * weight scaled; then a candidate is selected.
   */
  ghost predicate SearchOutcome(
      p: Settings, ws: seq<real>, after: seq<real>, moves: seq<string>, searched: seq<Candidate>, random: Random,
      cs: seq<Candidate>, s: Selection, chosen: Option<Match>)
  {
    && Selects(p, after, cs, random.u, NoiseRoll(p, random), s)
    && (chosen.Some? <==> searched != [] && PreferenceApplies(p, moves))
    && (chosen.None? ==> cs == Bare(searched) && after == ws)
    && (chosen.Some? ==>
          && Preferred(Bare(searched), p.preferences, moves, random.v, chosen.value, cs)
          && PlaysReply(p.preferences, moves, chosen.value.pref, cs)
          && |after| == |ws|
          && (ws != [] ==> after == ws[0 := NewWeight(ws[0], chosen.value)]))
  }

  function MatchOf(how: Decision): Option<Match> {
    if how.ByPreference? then Some(how.m) else None
  }

  lemma PreferredKeeps(
      before: seq<Candidate>, prefs: seq<OpeningPreference>, moves: seq<string>, v: real, m: Match,
      after: seq<Candidate>)
    requires Preferred(before, prefs, moves, v, m, after)
    ensures m.pref in prefs && |after| >= |before|
  {
    GatherFacts(before, prefs, moves);
  }

  lemma DrawnSelectsIff(
      p: Settings, ws: seq<real>, cs: seq<Candidate>, m: Match, u: real, noise: int, s: Selection)
    requires ws != [] && cs != [] && m.pref in p.preferences
    requires Selects(p, ws[0 := NewWeight(ws[0], m)], cs, u, noise, s)
    ensures s.Chosen? <==> WellFormed(p, ws)
  {
    if WellFormed(p, ws) {
      AdjustedIsValid(p, ws, m, Shorter(p.primaryChoices, |cs|));
    } else {
      AdjustedIsWellFormed(p, ws, m);
    }
  }

  lemma BareSelectsIff(p: Settings, ws: seq<real>, cs: seq<Candidate>, u: real, noise: int, s: Selection)
    requires cs != [] && Selects(p, ws, Bare(cs), u, noise, s)
    ensures s.Chosen? <==> ValidPreset(p, ws) && Sum(ws, Shorter(p.primaryChoices, |cs|)) > 0.0
  {
    if ValidPreset(p, ws) {
      var n := Shorter(p.primaryChoices, |cs|);
      SumGrows(ws, p.primaryChoices, 0, n);
      assert NoneForced(Bare(cs), n);
    }
  }

  /** Whatever the preset, a search with candidates yields a move exactly under a condition on preset and position. */
  lemma SearchSelectsIff(
      p: Settings, ws: seq<real>, after: seq<real>, moves: seq<string>, searched: seq<Candidate>, random: Random,
      cs: seq<Candidate>, s: Selection, chosen: Option<Match>)
    requires SearchOutcome(p, ws, after, moves, searched, random, cs, s, chosen) && searched != []
    ensures s.Chosen? <==> Selectable(p, ws, moves, |searched|)
  {
    if chosen.None? {
      BareSelectsIff(p, ws, searched, random.u, NoiseRoll(p, random), s);
    } else {
      PreferredKeeps(Bare(searched), p.preferences, moves, random.v, chosen.value, cs);
      if ws != [] {
        DrawnSelectsIff(p, ws, cs, chosen.value, random.u, NoiseRoll(p, random), s);
      }
    }
  }

  /**
   * With a valid preset the preset stays valid, and the search yields a move exactly when a preference applies or the
   * weights of the candidates it returned are not all zero; they can only be if it returned too few.
   */
  lemma SearchStaysValid(
      p: Settings, ws: seq<real>, after: seq<real>, moves: seq<string>, searched: seq<Candidate>, random: Random,
      cs: seq<Candidate>, s: Selection, chosen: Option<Match>)
    requires SearchOutcome(p, ws, after, moves, searched, random, cs, s, chosen)
    requires ValidPreset(p, ws) && searched != []
    ensures ValidPreset(p, after) && |cs| >= |searched|
    ensures s.Chosen? <==> PreferenceApplies(p, moves) || Sum(ws, Shorter(p.primaryChoices, |searched|)) > 0.0
    ensures s.Chosen? || (|cs| < p.primaryChoices <= |after| && Sum(after, |cs|) == 0.0)
  {
    SearchSelectsIff(p, ws, after, moves, searched, random, cs, s, chosen);
    if chosen.Some? {
      PreferredKeeps(Bare(searched), p.preferences, moves, random.v, chosen.value, cs);
      AdjustedStaysValid(p, ws, chosen.value);
    } else {
      SumGrows(ws, p.primaryChoices, 0, Shorter(p.primaryChoices, |searched|));
    }
  }

  lemma BareSplit(cs: seq<Candidate>, n: nat)
    requires n <= |cs|
    ensures multiset(Bare(cs)) == multiset(Bare(cs[..n])) + multiset(Bare(cs[n..]))
  {
    assert Bare(cs) == Bare(cs[..n]) + Bare(cs[n..]);
  }

  /**
   * After a preference is drawn its reply stands first, every candidate is still there, and whatever was added is the
   * reply of a preference that applies; a forced preference is marked as forced.
   */
  lemma PreferenceSurvives(
      before: seq<Candidate>, prefs: seq<OpeningPreference>, moves: seq<string>, v: real, m: Match,
      after: seq<Candidate>)
    requires Preferred(before, prefs, moves, v, m, after)
    ensures m.pref in prefs && InLine(m.pref, moves)
    ensures |after| >= |before| && after != []
    ensures Normal(after[0].move) == Normal(m.pref.blackMoves[|moves| / 2])
    ensures var extra := Gather(before, prefs, moves).items[|before|..];
      && multiset(Bare(after)) == multiset(Bare(before)) + multiset(Bare(extra))
      && (forall c :: c in extra ==> Added(prefs, moves, c))
    ensures m.pref.force ==> after[0].forced
  {
    var g := Gather(before, prefs, moves);
    GatherFacts(before, prefs, moves);
    SettledKeepsAll(g, prefs, moves, m);
    BareSplit(g.items, |before|);
    AppliesIff(m.pref, moves);
  }

  /** With a well-formed preset a forced preference survives to the end: a move is selected, and it is its reply. */
  lemma ForcedPreferenceIsPlayed(
      p: Settings, ws: seq<real>, after: seq<real>, moves: seq<string>, searched: seq<Candidate>, random: Random,
      cs: seq<Candidate>, s: Selection, chosen: Option<Match>)
    requires SearchOutcome(p, ws, after, moves, searched, random, cs, s, chosen) && WellFormed(p, ws)
    requires searched != [] && |moves| % 2 == 1
    requires exists q :: q in p.preferences && InLine(q, moves) && q.force
    ensures chosen.Some? && chosen.value.pref.force && chosen.value.pref in p.preferences
    ensures InLine(chosen.value.pref, moves)
    ensures s.Chosen? && Normal(s.candidate.move) == Normal(chosen.value.pref.blackMoves[|moves| / 2])
  {
    SearchSelectsIff(p, ws, after, moves, searched, random, cs, s, chosen);
    ForcedHeadIsChosen(p, after, cs, random.u, NoiseRoll(p, random), s);
  }

  // ----- The assumptions above can be met -----

  /** Always the lowest roll and draw. */
  const LOWEST := Random(n => 0, n => 0, 0.0, 0.0)

  /** Black answers e2e4 with c7c6, whatever the search prefers. */
  const CARO_KANN := OpeningPreference("caro", "black", ["e2e4"], ["c7c6"], 1.0, 0.5, true)

  const ONE_CHOICE :=
    Settings("one", 20, 1, 16, 100, 0, 0, 1, 1, 0, [CARO_KANN], CatalogConfig("", [], "", 0, 0, ""))

  const SEARCHED := [Candidate("e7e5", 10, ["e7e5"], false)]
  const REPLY := Candidate("c7c6", 0, [], true)
  const DRAWN := Match(CARO_KANN, 1.0, 1)

  lemma MovesAreNormal()
    ensures Normal("e2e4") == "e2e4" && Normal("e7e5") == "e7e5" && Normal("c7c6") == "c7c6"
    ensures Trim("e2e4") == "e2e4" && Trim("c7c6") == "c7c6"
  {
    SolidIsTrimmed("e2e4");
    SolidIsTrimmed("e7e5");
    SolidIsTrimmed("c7c6");
    assert Lower("e2e4") == "e2e4" && Lower("e7e5") == "e7e5" && Lower("c7c6") == "c7c6";
  }

  lemma CaroKannApplies()
    ensures Applies(CARO_KANN, ["e2e4"]) && Reply(CARO_KANN, ["e2e4"]) == "c7c6" && InLine(CARO_KANN, ["e2e4"])
  {
    MovesAreNormal();
    assert Evens(["e2e4"]) == ["e2e4"] && Odds(["e2e4"]) == [];
    AppliesIff(CARO_KANN, ["e2e4"]);
  }

  /** The same preference, forced as it is, does not apply after another first move, nor after its reply. */
  lemma CaroKannElsewhere()
    ensures !Applies(CARO_KANN, ["d2d4"]) && !Applies(CARO_KANN, ["e2e4", "c7c6", "d2d4"])
    ensures !Applies(CARO_KANN, [])
  {
    MovesAreNormal();
    AppliesIff(CARO_KANN, ["d2d4"]);
    AppliesIff(CARO_KANN, ["e2e4", "c7c6", "d2d4"]);
    AppliesIff(CARO_KANN, []);
    SolidIsTrimmed("d2d4");
    assert Normal("d2d4")[0] == 'd' && Normal("e2e4")[0] == 'e';
    assert Normal(["d2d4"][0]) != Normal(CARO_KANN.whiteMoves[0]);
  }

  lemma OneChoiceIsValid()
    ensures ValidPreset(ONE_CHOICE, [2.0]) && ValidPreset(ONE_CHOICE, [1.0])
  {
    MovesAreNormal();
    SolidIsTrimmed("caro");
    SolidIsTrimmed("black");
    assert Lower("black") == "black";
    assert ValidPreference(CARO_KANN);
    assert Sum([2.0], 0) == 0.0 && Sum([1.0], 0) == 0.0;
  }

  lemma CaroKannGathered()
    ensures Gather(SEARCHED, [CARO_KANN], ["e2e4"]) == Gathered(SEARCHED + [REPLY], [], [DRAWN])
  {
    var prefs := [CARO_KANN];
    CaroKannApplies();
    MovesAreNormal();
    assert prefs[..0] == [];
    assert Gather(SEARCHED, prefs[..0], ["e2e4"]) == Gathered(SEARCHED, [], []);
    assert Lower("c7c6") == "c7c6";
    assert "c7c6"[0] != "e7e5"[0];
    assert Find(SEARCHED, "c7c6").None?;
    assert [] + [DRAWN] == [DRAWN];
  }

  lemma CaroKannPreferred()
    ensures Preferred(SEARCHED, [CARO_KANN], ["e2e4"], 0.0, DRAWN, [REPLY] + SEARCHED)
  {
    CaroKannGathered();
    CaroKannApplies();
    GatherFacts(SEARCHED, [CARO_KANN], ["e2e4"]);
    var g := Gathered(SEARCHED + [REPLY], [], [DRAWN]);
    assert Sum(Weights([DRAWN]), 0) == 0.0 && Sum(Weights([DRAWN]), 1) == 1.0;
    assert Picks([DRAWN], 0.0, 0);
    assert Settled(g.items, DRAWN) == [REPLY] + SEARCHED;
  }

  /** A valid preset, a search and a forced preference for which the outcome is as described. */
  lemma ForcedOutcomeExists()
    ensures Fair(LOWEST) && ValidPreset(ONE_CHOICE, [2.0])
    ensures SearchOutcome(ONE_CHOICE, [2.0], [1.0], ["e2e4"], SEARCHED, LOWEST, [REPLY] + SEARCHED, Chosen(REPLY),
        Some(DRAWN))
    ensures CARO_KANN in ONE_CHOICE.preferences && InLine(CARO_KANN, ["e2e4"]) && CARO_KANN.force
  {
    OneChoiceIsValid();
    CaroKannApplies();
    CaroKannPreferred();
    PreferredPlaysReply(SEARCHED, [CARO_KANN], ["e2e4"], 0.0, DRAWN, [REPLY] + SEARCHED);
    assert Bare(SEARCHED) == SEARCHED;
    assert FirstForced([REPLY] + SEARCHED, 1, 0);
    assert [2.0][0 := NewWeight(2.0, DRAWN)] == [1.0];
  }

  /** Two choices of which only the second has weight. */
  const SECOND_ONLY := ONE_CHOICE.(multiPV := 2, primaryChoices := 2, preferences := [])

  /** A valid preset whose search returned a single candidate, of weight zero: nothing is selected. */
  lemma ZeroWeightsExist()
    ensures Fair(LOWEST) && ValidPreset(SECOND_ONLY, [0.0, 1.0])
    ensures SearchOutcome(SECOND_ONLY, [0.0, 1.0], [0.0, 1.0], ["e2e4"], SEARCHED, LOWEST, SEARCHED, ZeroWeights, None)
  {
    OneChoiceIsValid();
    var ws := [0.0, 1.0];
    assert Sum(ws, 0) == 0.0 && Sum(ws, 1) == 0.0 && Sum(ws, 2) == 1.0;
    assert Bare(SEARCHED) == SEARCHED;
    assert NoneForced(SEARCHED, 1);
  }

  class Engine {
    var opening: OpeningOptions

    function PlyLimit(p: Settings): (limit: int)
      reads this
      ensures p.catalog.maxPly > 0 ==> limit == p.catalog.maxPly
      ensures p.catalog.maxPly <= 0 && opening.maxPly > 0 ==> limit == opening.maxPly
      ensures p.catalog.maxPly <= 0 && opening.maxPly <= 0 ==> limit == 12
    {
      FirstPositive(p.catalog.maxPly, opening.maxPly, DEFAULT_PLY)
    }

    function WeightLimit(p: Settings): (limit: int)
      reads this
      ensures p.catalog.minWeight > 0 ==> limit == p.catalog.minWeight
      ensures p.catalog.minWeight <= 0 && opening.minWeight > 0 ==> limit == opening.minWeight
      ensures p.catalog.minWeight <= 0 && opening.minWeight <= 0 ==> limit == 1
    {
      FirstPositive(p.catalog.minWeight, opening.minWeight, DEFAULT_WEIGHT)
    }

    /** Some move's catalog weight reaches the minimum. */
    ghost predicate CatalogOffers(find: string -> Option<Entry>, p: Settings, moves: seq<string>)
      reads this
    {
      Reaches(
        Consulted(find, CatalogTokens(p.catalog), moves, p.catalog.color, PlyLimit(p)), moves, WeightLimit(p))
    }

    predicate BookOffers(book: Result, p: Settings)
      reads this
    {
      book.move != "" && book.weight >= WeightLimit(p)
    }

    /** The book's answer is a move of at least this weight. */
    ghost predicate HasMove(book: Result, limit: int) {
      |book.move| > 0 && !(book.weight < limit)
    }

    /** The move comes from the catalog: drawn by weight among the ranked moves, put first, and chosen. */
    ghost predicate FromCatalog(
        find: string -> Option<Entry>, p: Settings, moves: seq<string>, random: Random,
        results: seq<Result>, drawn: Result, candidates: seq<Candidate>, chosen: Candidate)
      reads this
    {
      && RanksSums(
           results,
           LimitedSumOf(Consulted(find, CatalogTokens(p.catalog), moves, p.catalog.color, PlyLimit(p)), moves),
           WeightLimit(p))
      && TotalWeight(results) > 0
      && (exists i: nat :: Hits(results, random.roll(TotalWeight(results)), i) && drawn == results[i])
      && multiset(Bare(candidates)) == multiset(ToCandidates(results))
      && candidates != [] && candidates[0].move == drawn.move
      && chosen == Noisy(p, candidates[0], NoiseRoll(p, random))
    }

    /** The move comes from the Polyglot book. */
    ghost predicate FromBook(
        book: Result, p: Settings, random: Random, candidates: seq<Candidate>, chosen: Candidate)
      reads this
    {
      && BookOffers(book, p)
      && candidates == [Candidate(book.move, 0, [book.move], true)]
      && chosen == Noisy(p, candidates[0], NoiseRoll(p, random))
    }

    /** Draws a move from ranked catalog results and lets the selection choose it. */
    method PlayCatalogMove(results: seq<Result>, preset: Preset, random: Random)
        returns (r: Opening, ghost drawn: Result)
      requires Fair(random) && ProperRanking(results) && results != []
      ensures !r.NoOpening?
      ensures r.OpeningError? <==> !ValidPreset(preset.settings, preset.weights[..])
      ensures TotalWeight(results) > 0
      ensures r.Opened? ==>
                && (exists i: nat :: Hits(results, random.roll(TotalWeight(results)), i) && drawn == results[i])
                && multiset(Bare(r.candidates)) == multiset(ToCandidates(results))
                && r.candidates != [] && r.candidates[0].move == drawn.move
                && r.chosen == Noisy(preset.settings, r.candidates[0], NoiseRoll(preset.settings, random))
    {
      var p := preset.settings;
      var candidates := CatalogResultsToCandidates(results);
      RankingIsListed(results);
      var selected := SelectCatalogMove(results, Some(random.roll(TotalWeight(results))));
      ghost var i: nat :| Hits(results, random.roll(TotalWeight(results)), i) && selected == results[i];
      drawn := selected;
      DrawnMoveComesFirst(results, i);
      assert results[i] in results;
      var list := new CandidateList(candidates);
      if selected.move != "" {
        list.ApplyPolyglotMove(selected.move);
      }
      var s := SelectCandidate(preset, list.items, random.u, NoiseRoll(p, random));
      ForcedHeadIsChosen(p, preset.weights[..], list.items, random.u, NoiseRoll(p, random), s);
      if !s.Chosen? {
        return OpeningError, drawn;
      }
      return Opened(list.items, s.candidate), drawn;
    }

    /** Asks the catalog for ranked moves and plays one of them if there are any. */
    method TryCatalog(
        find: string -> Option<Entry>, preset: Preset, moves: seq<string>, limit: int, minWeight: int, random: Random)
        returns (r: Opening, ghost how: Decision)
      requires Fair(random) && limit == PlyLimit(preset.settings) && minWeight == WeightLimit(preset.settings)
      ensures r.NoOpening? <==> !CatalogOffers(find, preset.settings, moves)
      ensures r.Opened? <==>
              ValidPreset(preset.settings, preset.weights[..]) && CatalogOffers(find, preset.settings, moves)
      ensures r.Opened? ==>
                how.ByCatalog? && FromCatalog(find, preset.settings, moves, random, how.results, how.drawn,
                    r.candidates, r.chosen)
    {
      var p := preset.settings;
      how := ByBook;
      var tokens := CatalogTokens(p.catalog);
      if tokens == [] {
        return NoOpening, how;
      }
      var results := AggregateCatalogMoves(find, moves, tokens, p.catalog.color, limit, minWeight);
      ghost var sources := Consulted(find, tokens, moves, p.catalog.color, limit);
      RankingIsOffer(results, sources, moves, minWeight);
      if results == [] {
        return NoOpening, how;
      }
      RankingIsProper(results, sources, moves, minWeight);
      ghost var drawn;
      r, drawn := PlayCatalogMove(results, preset, random);
      how := ByCatalog(results, drawn);
    }

    method PlayBookMove(book: Result, preset: Preset, minWeight: int, random: Random) returns (r: Opening)
      requires Fair(random) && minWeight == WeightLimit(preset.settings)
      ensures r.Opened? <==> ValidPreset(preset.settings, preset.weights[..]) && BookOffers(book, preset.settings)
      ensures r.Opened? ==> FromBook(book, preset.settings, random, r.candidates, r.chosen)
    {
      var p := preset.settings;
      if book.move == "" {
        return NoOpening;
      }
      if minWeight > 0 && book.weight < minWeight {
        return NoOpening;
      }
      var candidates := [Candidate(book.move, 0, [book.move], true)];
      var s := SelectCandidate(preset, candidates, random.u, NoiseRoll(p, random));
      ForcedHeadIsChosen(p, preset.weights[..], candidates, random.u, NoiseRoll(p, random), s);
      if !s.Chosen? {
        return OpeningError;
      }
      return Opened(candidates, s.candidate);
    }

    /** The opening is not over, and catalog or book has a move. */
    ghost predicate OpeningAvailable(
        p: Settings, ws: seq<real>, find: string -> Option<Entry>, book: Option<Result>, moves: seq<string>)
      reads this
    {
      && ValidPreset(p, ws) && |moves| < PlyLimit(p)
      && (CatalogOffers(find, p, moves) || (book.Some? && BookOffers(book.value, p)))
    }

    /** When the opening yields a move, and which: the catalog's if it has one, otherwise the book's. */
    ghost predicate OpeningOutcome(
        p: Settings, ws: seq<real>, find: string -> Option<Entry>, book: Option<Result>, moves: seq<string>,
        random: Random, o: Opening, how: Decision)
      reads this
    {
      && (o.Opened? <==> OpeningAvailable(p, ws, find, book, moves))
      && (o.Opened? ==>
            if CatalogOffers(find, p, moves) then
              how.ByCatalog? && FromCatalog(find, p, moves, random, how.results, how.drawn, o.candidates, o.chosen)
            else how.ByBook? && book.Some? && FromBook(book.value, p, random, o.candidates, o.chosen))
    }

    /** Tries the catalog, then the book; `book` is the book's answer, None when looking it up failed. */
    method TryOpeningMove(
        find: string -> Option<Entry>, book: Option<Result>, preset: Preset, moves: seq<string>, random: Random)
        returns (r: Opening, ghost how: Decision)
      requires Fair(random)
      ensures r.Opened? <==> OpeningAvailable(preset.settings, preset.weights[..], find, book, moves)
      ensures OpeningOutcome(preset.settings, preset.weights[..], find, book, moves, random, r, how)
      ensures r.Opened? ==> |moves| < PlyLimit(preset.settings)
      ensures r.Opened? && how.ByBook? ==> book.Some? && HasMove(book.value, WeightLimit(preset.settings))
      ensures |moves| < PlyLimit(preset.settings) && ValidPreset(preset.settings, preset.weights[..]) ==>
                (book.Some? && HasMove(book.value, WeightLimit(preset.settings)) ==> r.Opened?)
    {
      var p := preset.settings;
      how := ByBook;
      var limit := p.catalog.maxPly;
      if limit <= 0 {
        limit := opening.maxPly;
      }
      if limit <= 0 {
        limit := DEFAULT_PLY;
      }
      if |moves| >= limit {
        return NoOpening, how;
      }
      var minWeight := p.catalog.minWeight;
      if minWeight <= 0 {
        minWeight := opening.minWeight;
      }
      if minWeight <= 0 {
        minWeight := DEFAULT_WEIGHT;
      }
      r, how := TryCatalog(find, preset, moves, limit, minWeight, random);
      if !r.NoOpening? {
        return;
      }
      how := ByBook;
      if book.None? {
        return OpeningError, how;
      }
      r := PlayBookMove(book.value, preset, minWeight, random);
    }

    /** Lets the preferences act on the searched candidates and selects one of them. */
    method DecideSearch(preset: Preset, moves: seq<string>, searched: seq<Candidate>, random: Random)
        returns (cs: seq<Candidate>, s: Selection, ghost chosen: Option<Match>)
      requires Fair(random) && searched != []
      modifies preset.weights
      ensures SearchOutcome(preset.settings, old(preset.weights[..]), preset.weights[..], moves, searched, random,
          cs, s, chosen)
    {
      var p := preset.settings;
      var list := new CandidateList(Bare(searched));
      chosen := list.ApplyOpeningPreferences(p.preferences, preset.weights, moves, random.v);
      s := SelectCandidate(preset, list.items, random.u, NoiseRoll(p, random));
      cs := list.items;
    }

    /** The chosen move is the catalog's, the book's, or the search's after the preferences. */
    ghost predicate Explained(
        p: Settings, ws: seq<real>, after: seq<real>, find: string -> Option<Entry>, book: Option<Result>,
        moves: seq<string>, searched: Option<seq<Candidate>>, random: Random, candidates: seq<Candidate>,
        chosen: Candidate, how: Decision)
      reads this
    {
      && ValidPreset(p, after)
      && (if how.ByCatalog? || how.ByBook? then
            && after == ws
            && OpeningOutcome(p, ws, find, book, moves, random, Opened(candidates, chosen), how)
          else
            && OpeningOutcome(p, ws, find, book, moves, random, NoOpening, how)
            && searched.Some?
            && SearchOutcome(p, ws, after, moves, searched.value, random, candidates, Chosen(chosen), MatchOf(how)))
    }

    /** Preset and position let the evaluation yield a move: from the opening, or from the search. */
    ghost predicate Answers(
        p: Settings, ws: seq<real>, find: string -> Option<Entry>, book: Option<Result>, moves: seq<string>,
        searched: Option<seq<Candidate>>)
      reads this
    {
      || OpeningAvailable(p, ws, find, book, moves)
      || (searched.Some? && searched.value != [] && Selectable(p, ws, moves, |searched.value|))
    }

    method EvaluatePreset(
        preset: Preset, find: string -> Option<Entry>, book: Option<Result>, moves: seq<string>,
        searched: Option<seq<Candidate>>, random: Random)
        returns (r: Evaluated, ghost how: Decision)
      requires Fair(random)
      ensures r.Evaluated? ==>
                && fresh(r.preset.weights) && r.preset.settings == preset.settings
                && Explained(preset.settings, preset.weights[..], r.preset.weights[..], find, book, moves, searched,
                             random, r.candidates, r.chosen, how)
      ensures r.Evaluated? <==> Answers(preset.settings, preset.weights[..], find, book, moves, searched)
    {
      var adjusted := CopyWeights(preset);
      var opening: Opening;
      opening, how := TryOpeningMove(find, book, adjusted, moves, random);
      if opening.Opened? {
        return Evaluated(adjusted, opening.candidates, opening.chosen), how;
      }
      if searched.None? || searched.value == [] {
        return Failed, how;
      }
      var cs, s;
      ghost var chosen;
      cs, s, chosen := DecideSearch(adjusted, moves, searched.value, random);
      how := if chosen.Some? then ByPreference(chosen.value) else BySearch;
      SearchSelectsIff(preset.settings, preset.weights[..], adjusted.weights[..], moves, searched.value, random, cs, s,
                       chosen);
      if !s.Chosen? {
        return Failed, how;
      }
      return Evaluated(adjusted, cs, s.candidate), how;
    }

    /**
     * Evaluates a position: the opening if it has a move, otherwise the searched candidates after the preferences.
     * `searched` is the search result, None when the session or the search failed. The registry's weights are shared
     * by every copy of a preset, and stay as they are.
     */
    method Evaluate(
        registry: Registry, name: string, find: string -> Option<Entry>, book: Option<Result>, moves: seq<string>,
        searched: Option<seq<Candidate>>, random: Random)
        returns (r: Evaluated, ghost how: Decision)
      requires Fair(random)
      ensures forall n :: n in registry.presets ==>
                registry.presets[n].weights[..] == old(registry.presets[n].weights[..])
      ensures Canonical(name) !in registry.presets ==> r == Failed
      ensures r.Evaluated? ==>
                var preset := registry.presets[Canonical(name)];
                && fresh(r.preset.weights) && r.preset.settings == preset.settings
                && Explained(preset.settings, preset.weights[..], r.preset.weights[..], find, book, moves, searched,
                             random, r.candidates, r.chosen, how)
      ensures r.Evaluated? <==>
                && Canonical(name) in registry.presets
                && var preset := registry.presets[Canonical(name)];
                   Answers(preset.settings, preset.weights[..], find, book, moves, searched)
    {
      var preset := registry.GetPreset(name);
      if preset.None? {
        return Failed, BySearch;
      }
      r, how := EvaluatePreset(preset.value, find, book, moves, searched, random);
    }
  }
}
