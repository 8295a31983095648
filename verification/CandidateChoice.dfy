/** Choosing the move to play: the weighted draws and the opening decisions that come before them. */
module CandidateChoice {
  import opened CatalogLookup
  import opened Options
  import opened Presets
  import opened Text

  datatype Candidate = Candidate(move: string, evalCP: int, principal: seq<string>, forced: bool)

  datatype Selection = Chosen(candidate: Candidate) | NoCandidates | InvalidPreset | ZeroWeights

  // ----- Machine integers -----

  const MAX_INT: int := 0x7FFF_FFFF_FFFF_FFFF
  const MIN_INT: int := -0x8000_0000_0000_0000

  /** A 64-bit result after wrapping around. */
  function Wrap(x: int): int {
    (x - MIN_INT) % 0x1_0000_0000_0000_0000 + MIN_INT
  }

  function SaturatingAdd(a: int, b: int): int {
    var sum := Wrap(a + b);
    if sum > MAX_INT then MAX_INT
    else if sum < MIN_INT then MIN_INT
    else sum
  }

  function Saturated(x: int): int {
    if x > MAX_INT then MAX_INT else if x < MIN_INT then MIN_INT else x
  }

  /** The sum is checked after it has wrapped around, so it is the saturated sum exactly when nothing overflows. */
  lemma SaturatesOnlyInRange(a: int, b: int)
    requires MIN_INT <= a <= MAX_INT && MIN_INT <= b <= MAX_INT
    ensures SaturatingAdd(a, b) == Saturated(a + b) <==> MIN_INT <= a + b <= MAX_INT
  {
  }

  lemma SaturationFails()
    ensures SaturatingAdd(MAX_INT, 1) == MIN_INT
  {
  }

  // ----- The draw among catalog moves -----

  function WeightBefore(rs: seq<Result>, n: nat): nat
    requires n <= |rs|
  {
    if n == 0 then 0 else WeightBefore(rs, n - 1) + rs[n - 1].weight
  }

  function TotalWeight(rs: seq<Result>): nat {
    WeightBefore(rs, |rs|)
  }

  /** The roll falls into the share of entry i. */
  predicate Hits(rs: seq<Result>, roll: nat, i: nat) {
    i < |rs| && WeightBefore(rs, i) <= roll < WeightBefore(rs, i + 1)
  }

  lemma {:induction false} WeightBeforeGrows(rs: seq<Result>, i: nat, j: nat)
    requires i <= j <= |rs|
    ensures WeightBefore(rs, i) <= WeightBefore(rs, j)
  {
    if i < j {
      WeightBeforeGrows(rs, i, j - 1);
    }
  }

  /** No roll falls into two shares. */
  lemma HitsOnce(rs: seq<Result>, roll: nat, i: nat, j: nat)
    requires Hits(rs, roll, i) && Hits(rs, roll, j)
    ensures i == j
  {
    if i < j {
      WeightBeforeGrows(rs, i + 1, j);
    } else if j < i {
      WeightBeforeGrows(rs, j + 1, i);
    }
  }

  /** `random` is a roll below the total weight, or None when there is no random source. */
  method SelectCatalogMove(rs: seq<Result>, random: Option<nat>) returns (pick: Result)
    requires random.Some? && TotalWeight(rs) > 0 ==> random.value < TotalWeight(rs)
    ensures rs == [] ==> pick == Result("", 0)
    ensures rs != [] && (random.None? || TotalWeight(rs) == 0) ==> pick == rs[0]
    ensures random.Some? && TotalWeight(rs) > 0 ==> exists i: nat :: Hits(rs, random.value, i) && pick == rs[i]
  {
    if rs == [] {
      return Result("", 0);
    }
    if random.None? {
      return rs[0];
    }
    var total := 0;
    for i := 0 to |rs|
      invariant total == WeightBefore(rs, i)
    {
      total := total + rs[i].weight;
    }
    if total <= 0 {
      return rs[0];
    }
    var roll := random.value;
    var last := rs[|rs| - 1];
    var cumulative := 0;
    for i := 0 to |rs|
      invariant cumulative == WeightBefore(rs, i) && cumulative <= roll
    {
      cumulative := cumulative + rs[i].weight;
      if roll < cumulative {
        assert Hits(rs, roll, i);
        return rs[i];
      }
    }
    return last;
  }

  predicate Within(low: nat, r: int, high: nat) {
    low <= r < high
  }

  ghost function Rolls(low: nat, high: nat): set<int> {
    set r | low <= r < high && Within(low, r, high)
  }

  lemma {:induction false} CountRolls(low: nat, high: nat)
    requires low <= high
    ensures |Rolls(low, high)| == high - low
  {
    if low < high {
      CountRolls(low, high - 1);
      assert Rolls(low, high) == Rolls(low, high - 1) + {high - 1};
    } else {
      assert Rolls(low, high) == {};
    }
  }

  /** The draw is exactly fair: of the rolls below the total, as many pick an entry as its weight says. */
  lemma DrawIsFair(rs: seq<Result>, i: nat)
    requires i < |rs|
    ensures |set roll: nat | roll < TotalWeight(rs) && Hits(rs, roll, i)| == rs[i].weight
  {
    var low, high := WeightBefore(rs, i), WeightBefore(rs, i + 1);
    WeightBeforeGrows(rs, i + 1, |rs|);
    CountRolls(low, high);
    var hits := set roll: nat | roll < TotalWeight(rs) && Hits(rs, roll, i);
    forall roll: int ensures roll in hits <==> roll in Rolls(low, high) {
      assert Within(low, roll, high) <==> low <= roll < high;
      if roll >= 0 {
        assert Hits(rs, roll, i) <==> low <= roll < high;
      }
    }
    assert Rolls(low, high) == hits;
  }

  /** Every roll below the total falls into some share. */
  lemma {:induction false} EveryRollHits(rs: seq<Result>, n: nat, roll: nat) returns (i: nat)
    requires n <= |rs| && roll < WeightBefore(rs, n)
    ensures i < n && Hits(rs, roll, i)
  {
    if roll >= WeightBefore(rs, n - 1) {
      i := n - 1;
    } else {
      i := EveryRollHits(rs, n - 1, roll);
    }
  }

  // ----- The draw among candidates -----

  function Shorter(a: nat, b: nat): nat {
    if a > b then b else a
  }

  /** A draw from [0, 1) stretched over a total. */
  function Scaled(u: real, total: real): (r: real)
    ensures 0.0 <= u < 1.0 && total > 0.0 ==> 0.0 <= r < total
  {
    u * total
  }

  /** The first forced candidate among the first n. */
  predicate FirstForced(cs: seq<Candidate>, n: int, i: nat) {
    i < n <= |cs| && cs[i].forced && forall j :: 0 <= j < i ==> !cs[j].forced
  }

  predicate NoneForced(cs: seq<Candidate>, n: int) {
    n <= |cs| && forall j :: 0 <= j < n ==> !cs[j].forced
  }

  /** The threshold falls into the interval of candidate i; the smallest threshold belongs to the first. */
  predicate Drawn(ws: seq<real>, threshold: real, n: nat, i: nat) {
    && i < n <= |ws|
    && (if threshold == 0.0 then i == 0 else Sum(ws, i) < threshold <= Sum(ws, i + 1))
  }

  /** The candidate with its evaluation shifted by the preset's noise. */
  function Noisy(p: Settings, c: Candidate, noise: int): Candidate {
    if p.evalNoise > 0 then c.(evalCP := SaturatingAdd(c.evalCP, noise - p.evalNoise)) else c
  }

  /** Noise shifts the evaluation by the roll minus the preset's noise, from -noise to noise, and nothing else. */
  lemma NoiseIsSymmetric(p: Settings, c: Candidate, roll: int)
    requires p.evalNoise >= 0 && 0 <= roll <= 2 * p.evalNoise
    ensures var n := Noisy(p, c, roll);
            && n.move == c.move && n.principal == c.principal && n.forced == c.forced
            && (MIN_INT <= c.evalCP - p.evalNoise && c.evalCP + p.evalNoise <= MAX_INT ==>
                  n.evalCP == c.evalCP + roll - p.evalNoise)
  {
  }

  /** What the selection may return among the first n candidates, for a uniform draw u in [0, 1) and a noise roll. */
  ghost predicate SelectsAmong(
      p: Settings, ws: seq<real>, cs: seq<Candidate>, n: nat, u: real, noise: int, r: Selection)
    requires n <= |cs| && n <= |ws|
  {
    if !NoneForced(cs, n) then exists i: nat :: FirstForced(cs, n, i) && r == Chosen(Noisy(p, cs[i], noise))
    else if Sum(ws, n) == 0.0 then r == ZeroWeights
    else exists i: nat :: Drawn(ws, Scaled(u, Sum(ws, n)), n, i) && r == Chosen(Noisy(p, cs[i], noise))
  }

  /** What the selection may return: an error, or one of the primary candidates. */
  ghost predicate Selects(p: Settings, ws: seq<real>, cs: seq<Candidate>, u: real, noise: int, r: Selection) {
    if cs == [] then r == NoCandidates
    else if !ValidPreset(p, ws) then r == InvalidPreset
    else SelectsAmong(p, ws, cs, Shorter(p.primaryChoices, |cs|), u, noise, r)
  }

  lemma {:induction false} SumGrows(ws: seq<real>, n: nat, i: nat, j: nat)
    requires i <= j <= n <= |ws| && forall k :: 0 <= k < n ==> ws[k] >= 0.0
    ensures 0.0 <= Sum(ws, i) <= Sum(ws, j)
  {
    if i < j {
      SumGrows(ws, n, i, j - 1);
    } else if j > 0 {
      SumGrows(ws, n, i - 1, j - 1);
    }
  }

  /** A positive draw picks the candidate whose share of the total, in the order of the list, ends at or after it. */
  lemma DrawnShare(ws: seq<real>, n: nat, u: real, i: nat)
    requires i < n <= |ws| && Sum(ws, n) > 0.0 && 0.0 < u < 1.0
    ensures Drawn(ws, Scaled(u, Sum(ws, n)), n, i) <==>
            Sum(ws, i) / Sum(ws, n) < u <= (Sum(ws, i) + ws[i]) / Sum(ws, n)
  {
    var total := Sum(ws, n);
    Share(u, total, Sum(ws, i));
    Share(u, total, Sum(ws, i) + ws[i]);
    assert u * total > 0.0;
  }

  lemma Share(u: real, total: real, part: real)
    requires total > 0.0
    ensures part < u * total <==> part / total < u
    ensures part <= u * total <==> part / total <= u
  {
    var q := part / total;
    assert q * total == part;
    assert (u - q) * total == u * total - part;
    if u - q > 0.0 {
      assert (u - q) * total > 0.0;
    } else if u - q < 0.0 {
      assert (u - q) * total < 0.0;
    }
  }

  /** A threshold picks at most one candidate. */
  lemma DrawnOnce(ws: seq<real>, threshold: real, n: nat, i: nat, j: nat)
    requires n <= |ws| && forall k :: 0 <= k < n ==> ws[k] >= 0.0
    requires Drawn(ws, threshold, n, i) && Drawn(ws, threshold, n, j)
    ensures i == j
  {
    if i < j {
      SumGrows(ws, n, i + 1, j);
    } else if j < i {
      SumGrows(ws, n, j + 1, i);
    }
  }

  method ForcedIndex(cs: seq<Candidate>, n: nat) returns (r: Option<nat>)
    requires n <= |cs|
    ensures r.None? ==> NoneForced(cs, n)
    ensures r.Some? ==> FirstForced(cs, n, r.value) && !NoneForced(cs, n)
  {
    for i := 0 to n
      invariant NoneForced(cs, i)
    {
      if cs[i].forced {
        return Some(i);
      }
    }
    return None;
  }

  method AddWeights(weights: array<real>, n: nat) returns (total: real)
    requires n <= weights.Length
    ensures total == Sum(weights[..], n)
  {
    total := 0.0;
    for i := 0 to n
      invariant total == Sum(weights[..], i)
    {
      total := total + weights[i];
    }
  }

  /** Walks the weights until the threshold is used up. */
  method DrawIndex(weights: array<real>, n: nat, draw: real) returns (index: nat)
    requires n <= weights.Length && forall k :: 0 <= k < n ==> weights[k] >= 0.0
    requires 0.0 <= draw < Sum(weights[..], n)
    ensures Drawn(weights[..], draw, n, index)
  {
    var threshold := draw;
    index := 0;
    for i := 0 to n
      invariant threshold == draw - Sum(weights[..], i) && (i > 0 ==> threshold > 0.0)
    {
      threshold := threshold - weights[i];
      if threshold <= 0.0 {
        SumGrows(weights[..], n, 0, i);
        return i;
      }
    }
  }

  method SelectAmong(p: Preset, cs: seq<Candidate>, n: nat, u: real, noise: int) returns (r: Selection)
    requires 0.0 <= u < 1.0 && n <= |cs| && n <= p.weights.Length
    requires forall k :: 0 <= k < n ==> p.weights[k] >= 0.0
    ensures SelectsAmong(p.settings, p.weights[..], cs, n, u, noise, r)
  {
    var forced := ForcedIndex(cs, n);
    if forced.Some? {
      return Chosen(Noisy(p.settings, cs[forced.value], noise));
    }
    var totalWeight := AddWeights(p.weights, n);
    if totalWeight == 0.0 {
      return ZeroWeights;
    }
    SumGrows(p.weights[..], n, 0, n);
    var index := DrawIndex(p.weights, n, Scaled(u, totalWeight));
    r := Chosen(Noisy(p.settings, cs[index], noise));
  }

  /** Picks the candidate to play: the first forced one, or one drawn by weight. */
  method SelectCandidate(p: Preset, cs: seq<Candidate>, u: real, noise: int) returns (r: Selection)
    requires 0.0 <= u < 1.0
    requires p.settings.evalNoise > 0 ==> 0 <= noise <= 2 * p.settings.evalNoise
    ensures Selects(p.settings, p.weights[..], cs, u, noise, r)
  {
    if cs == [] {
      return NoCandidates;
    }
    if !ValidPreset(p.settings, p.weights[..]) {
      return InvalidPreset;
    }
    var primaryLimit := p.settings.primaryChoices;
    if primaryLimit > |cs| {
      primaryLimit := |cs|;
    }
    r := SelectAmong(p, cs, primaryLimit, u, noise);
  }

  // ----- Putting the book move first -----

  /** The same spelling up to case, spaces around the candidate's move ignored. */
  predicate Spells(c: Candidate, move: string) {
    Normal(c.move) == Lower(move)
  }

  /** The first candidate that is this move; None for the empty move. */
  function Find(cs: seq<Candidate>, move: string): (r: Option<nat>)
    ensures r.Some? ==> r.value < |cs| && move != "" && Spells(cs[r.value], move)
    ensures r.Some? ==> forall j :: 0 <= j < r.value ==> !Spells(cs[j], move)
    ensures r.None? && move != "" ==> forall c :: c in cs ==> !Spells(c, move)
  {
    if move == "" || cs == [] then None
    else if Spells(cs[0], move) then Some(0)
    else
      match Find(cs[1..], move)
      case None => None
      case Some(i) => Some(i + 1)
  }

  method FindCandidateIndex(cs: seq<Candidate>, move: string) returns (r: Option<nat>)
    ensures r == Find(cs, move)
  {
    if move == "" {
      return None;
    }
    ghost var found := Find(cs, move);
    for i := 0 to |cs|
      invariant forall j :: 0 <= j < i ==> !Spells(cs[j], move)
    {
      if Spells(cs[i], move) {
        assert cs[i] in cs && found.Some?;
        return Some(i);
      }
    }
    return None;
  }

  function Bare(cs: seq<Candidate>): (r: seq<Candidate>)
    ensures |r| == |cs|
  {
    seq(|cs|, i requires 0 <= i < |cs| => cs[i].(forced := false))
  }

  /** Brings a candidate to the front by an exchange, and forces it if asked. */
  function Elevate(cs: seq<Candidate>, i: nat, force: bool): (r: seq<Candidate>)
    requires i < |cs|
    ensures |r| == |cs|
  {
    var c := if force then cs[i].(forced := true) else cs[i];
    cs[i := cs[0]][0 := c]
  }

  /** A move put first: the candidate that has it, or a new candidate in front. */
  function Promoted(cs: seq<Candidate>, move: string): seq<Candidate> {
    if move == "" then cs
    else
      match Find(cs, move)
      case None => [Candidate(move, if cs == [] then 0 else cs[0].evalCP, [move], true)] + cs
      case Some(i) => Elevate(cs, i, true)
  }

  lemma ElevateRearranges(cs: seq<Candidate>, i: nat, force: bool)
    requires i < |cs|
    ensures multiset(Bare(Elevate(cs, i, force))) == multiset(Bare(cs))
    ensures Elevate(cs, i, force)[0].move == cs[i].move
  {
    var b := Bare(cs);
    assert Bare(Elevate(cs, i, force)) == b[i := b[0]][0 := b[i]];
  }

  /** Putting a move first keeps every candidate, adds the move only if it was missing, and forces it. */
  lemma PromotedKeepsAll(cs: seq<Candidate>, move: string)
    requires move != ""
    ensures var r := Promoted(cs, move);
      && r != [] && r[0].forced && (r[0].move == move || Spells(r[0], move))
      && (Find(cs, move).Some? ==> multiset(Bare(r)) == multiset(Bare(cs)))
      && (Find(cs, move).None? ==> r[1..] == cs)
  {
    match Find(cs, move)
    case None =>
    case Some(i) => ElevateRearranges(cs, i, true);
  }

  // ----- Preferences -----

  /** A preference that applies, with the probability it is drawn with and its candidate's place. */
  datatype Match = Match(pref: OpeningPreference, probability: real, index: nat)

  datatype Gathered = Gathered(items: seq<Candidate>, plain: seq<Match>, forced: seq<Match>)

  /** White's moves of a game, and Black's. */
  function Evens(moves: seq<string>): (r: seq<string>)
    ensures |r| == (|moves| + 1) / 2
    ensures forall i :: 0 <= i < |r| ==> r[i] == moves[2 * i]
  {
    if moves == [] then []
    else [moves[0]] + Odds(moves[1..])
  }

  function Odds(moves: seq<string>): (r: seq<string>)
    ensures |r| == |moves| / 2
    ensures forall i :: 0 <= i < |r| ==> r[i] == moves[2 * i + 1]
  {
    if moves == [] then []
    else Evens(moves[1..])
  }

  method SplitMovesByColor(moves: seq<string>) returns (white: seq<string>, black: seq<string>)
    ensures white == Evens(moves) && black == Odds(moves)
  {
    white, black := [], [];
    for i := 0 to |moves|
      invariant |white| == (i + 1) / 2 && |black| == i / 2
      invariant forall k :: 0 <= k < |white| ==> white[k] == moves[2 * k]
      invariant forall k :: 0 <= k < |black| ==> black[k] == moves[2 * k + 1]
    {
      if i % 2 == 0 {
        white := white + [moves[i]];
      } else {
        black := black + [moves[i]];
      }
    }
  }

  predicate Agrees(history: seq<string>, target: seq<string>) {
    |history| <= |target| && forall i :: 0 <= i < |history| ==> Normal(history[i]) == Normal(target[i])
  }

  /** The game so far follows the preference and the preference has a reply left for Black. */
  predicate Applies(pref: OpeningPreference, moves: seq<string>) {
    var white, black := Evens(moves), Odds(moves);
    var n := Shorter(|white|, |pref.whiteMoves|);
    && pref.whiteMoves != [] && white != []
    && Agrees(white[..n], pref.whiteMoves[..n])
    && |black| < |pref.blackMoves|
    && Agrees(black, pref.blackMoves[..|black|])
    && Probability(pref) > 0.0
  }

  function Probability(pref: OpeningPreference): real {
    if pref.force && pref.probability <= 0.0 then 1.0 else pref.probability
  }

  function Reply(pref: OpeningPreference, moves: seq<string>): string
    requires Applies(pref, moves)
  {
    Normal(pref.blackMoves[|Odds(moves)|])
  }

  /**
   * White's i-th move is moves[2 * i], Black's moves[2 * i + 1]. White has moved, the game so far agrees with both
   * sides of the preference up to spaces and case, Black's side has a move left, and the preference can be drawn.
   */
  ghost predicate InLine(pref: OpeningPreference, moves: seq<string>) {
    && moves != [] && pref.whiteMoves != []
    && (forall i :: 0 <= i < |pref.whiteMoves| && 2 * i < |moves| ==>
          Normal(moves[2 * i]) == Normal(pref.whiteMoves[i]))
    && |moves| / 2 < |pref.blackMoves|
    && (forall i :: 0 <= i < |moves| / 2 ==> Normal(moves[2 * i + 1]) == Normal(pref.blackMoves[i]))
    && (pref.probability > 0.0 || pref.force)
  }

  /** What the preference answers is the next move of Black's side. */
  lemma AppliesIff(pref: OpeningPreference, moves: seq<string>)
    ensures Applies(pref, moves) <==> InLine(pref, moves)
    ensures Applies(pref, moves) ==> Reply(pref, moves) == Normal(pref.blackMoves[|moves| / 2])
  {
    var white, black := Evens(moves), Odds(moves);
    var n := Shorter(|white|, |pref.whiteMoves|);
    if InLine(pref, moves) {
      forall i | 0 <= i < n ensures Normal(white[..n][i]) == Normal(pref.whiteMoves[..n][i]) {
        assert Normal(moves[2 * i]) == Normal(pref.whiteMoves[i]);
      }
      assert Agrees(black, pref.blackMoves[..|black|]);
    }
    if Applies(pref, moves) {
      forall i | 0 <= i < |pref.whiteMoves| && 2 * i < |moves|
        ensures Normal(moves[2 * i]) == Normal(pref.whiteMoves[i])
      {
        assert white[..n][i] == moves[2 * i];
      }
      forall i | 0 <= i < |moves| / 2 ensures Normal(moves[2 * i + 1]) == Normal(pref.blackMoves[i]) {
        assert black[i] == moves[2 * i + 1];
      }
    }
  }

  /** Takes one preference into account. */
  function Consider(g: Gathered, pref: OpeningPreference, moves: seq<string>): Gathered {
    if !Applies(pref, moves) then g
    else
      var found := Find(g.items, Reply(pref, moves));
      var items :=
        if found.None? then g.items + [Candidate(Reply(pref, moves), 0, [], pref.force)]
        else if pref.force then g.items[found.value := g.items[found.value].(forced := true)]
        else g.items;
      var m := Match(pref, Probability(pref), if found.None? then |g.items| else found.value);
      if pref.force then Gathered(items, g.plain, g.forced + [m]) else Gathered(items, g.plain + [m], g.forced)
  }

  function Gather(cs: seq<Candidate>, prefs: seq<OpeningPreference>, moves: seq<string>): Gathered {
    if prefs == [] then Gathered(cs, [], [])
    else Consider(Gather(cs, prefs[..|prefs| - 1], moves), prefs[|prefs| - 1], moves)
  }

  function Weights(ms: seq<Match>): (ws: seq<real>)
    ensures |ws| == |ms|
  {
    seq(|ms|, i requires 0 <= i < |ms| => ms[i].probability)
  }

  function TotalProbability(ms: seq<Match>): real {
    Sum(Weights(ms), |ms|)
  }

  /** The draw falls into the share of match i. */
  predicate Picks(ms: seq<Match>, u: real, i: nat) {
    i < |ms| && Sum(Weights(ms), i) <= Scaled(u, TotalProbability(ms)) < Sum(Weights(ms), i + 1)
  }

  /** The draw picks the match into whose share of the probabilities, in the order found, it falls. */
  lemma PickedShare(ms: seq<Match>, u: real, i: nat)
    requires i < |ms|
    ensures var before, total := Sum(Weights(ms), i), Sum(Weights(ms), |ms|);
            Picks(ms, u, i) <==> before <= Scaled(u, total) < before + ms[i].probability
  {
    assert Sum(Weights(ms), i + 1) == Sum(Weights(ms), i) + ms[i].probability;
  }

  /** The matches drawn from: the forced ones if there are any. */
  function Pool(g: Gathered): seq<Match> {
    if g.forced != [] then g.forced else g.plain
  }

  /** The chosen match put first; a forced choice takes the forced mark off the candidate it displaces. */
  function Settled(items: seq<Candidate>, m: Match): seq<Candidate>
    requires m.index < |items|
  {
    if m.pref.force && m.index != 0 then
      Elevate(items[0 := items[0].(forced := false)], m.index, true)
    else Elevate(items, m.index, m.pref.force)
  }
}
