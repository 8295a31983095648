/** The opening decision: how preferences and the book change the candidates, and that the choice survives. */
module OpeningDecision {
  import opened CandidateChoice
  import opened Options
  import opened Presets
  import opened Text

  // ----- What gathering preferences does -----

  /** A gathered match: a preference of the list that applies, and the candidate that is its reply. */
  ghost predicate GoodMatch(g: Gathered, prefs: seq<OpeningPreference>, moves: seq<string>, m: Match) {
    && m.pref in prefs
    && Applies(m.pref, moves)
    && m.probability == Probability(m.pref) > 0.0
    && m.index < |g.items|
    && Normal(g.items[m.index].move) == Reply(m.pref, moves)
    && (m.pref.force ==> g.items[m.index].forced)
  }

  /** A candidate that a preference of the list adds. */
  ghost predicate Added(prefs: seq<OpeningPreference>, moves: seq<string>, c: Candidate) {
    exists pref :: pref in prefs && Applies(pref, moves)
        && c.(forced := false) == Candidate(Reply(pref, moves), 0, [], false)
  }

  /** Gathering keeps the candidates, apart from forced marks, and adds only replies of preferences. */
  ghost predicate Extends(g: Gathered, cs: seq<Candidate>, prefs: seq<OpeningPreference>, moves: seq<string>) {
    && |cs| <= |g.items|
    && Bare(g.items[..|cs|]) == Bare(cs)
    && (forall i :: |cs| <= i < |g.items| ==> Added(prefs, moves, g.items[i]))
  }

  ghost predicate Sound(g: Gathered, prefs: seq<OpeningPreference>, moves: seq<string>) {
    && (forall m :: m in g.plain ==> GoodMatch(g, prefs, moves, m) && !m.pref.force)
    && (forall m :: m in g.forced ==> GoodMatch(g, prefs, moves, m) && m.pref.force)
  }

  /** No applicable preference is overlooked. */
  ghost predicate Complete(g: Gathered, prefs: seq<OpeningPreference>, moves: seq<string>) {
    && (g.forced != [] <==> exists p :: p in prefs && Applies(p, moves) && p.force)
    && (g.plain != [] <==> exists p :: p in prefs && Applies(p, moves) && !p.force)
  }

  lemma ConsiderExtends(
      g: Gathered, cs: seq<Candidate>, prefs: seq<OpeningPreference>, pref: OpeningPreference, moves: seq<string>)
    requires Extends(g, cs, prefs, moves)
    ensures Extends(Consider(g, pref, moves), cs, prefs + [pref], moves)
  {
    var after := Consider(g, pref, moves);
    forall i | 0 <= i < |cs| ensures Bare(after.items[..|cs|])[i] == Bare(cs)[i] {
      assert Bare(g.items[..|cs|])[i] == g.items[i].(forced := false);
    }
    forall i | |cs| <= i < |after.items| ensures Added(prefs + [pref], moves, after.items[i]) {
      if i < |g.items| {
        assert Added(prefs, moves, g.items[i]);
        var p :| p in prefs && Applies(p, moves) &&
          g.items[i].(forced := false) == Candidate(Reply(p, moves), 0, [], false);
        assert p in prefs + [pref];
      } else {
        assert pref in prefs + [pref];
      }
    }
  }

  lemma MatchStaysGood(
      g: Gathered, prefs: seq<OpeningPreference>, pref: OpeningPreference, moves: seq<string>, m: Match)
    requires GoodMatch(g, prefs, moves, m)
    ensures GoodMatch(Consider(g, pref, moves), prefs + [pref], moves, m)
  {
    assert m.pref in prefs + [pref];
  }

  lemma NewMatchIsGood(g: Gathered, prefs: seq<OpeningPreference>, pref: OpeningPreference, moves: seq<string>)
    requires Applies(pref, moves)
    ensures var found := Find(g.items, Reply(pref, moves));
      GoodMatch(Consider(g, pref, moves), prefs + [pref], moves,
        Match(pref, Probability(pref), if found.None? then |g.items| else found.value))
  {
    TrimNormal(pref.blackMoves[|Odds(moves)|]);
    assert pref in prefs + [pref];
  }

  lemma ConsiderSound(g: Gathered, prefs: seq<OpeningPreference>, pref: OpeningPreference, moves: seq<string>)
    requires Sound(g, prefs, moves)
    ensures Sound(Consider(g, pref, moves), prefs + [pref], moves)
  {
    forall m | m in g.plain + g.forced ensures GoodMatch(Consider(g, pref, moves), prefs + [pref], moves, m) {
      MatchStaysGood(g, prefs, pref, moves, m);
    }
    if Applies(pref, moves) {
      NewMatchIsGood(g, prefs, pref, moves);
    }
    assert forall m :: m in g.plain || m in g.forced ==> m in g.plain + g.forced;
  }

  lemma ConsiderComplete(g: Gathered, prefs: seq<OpeningPreference>, pref: OpeningPreference, moves: seq<string>)
    requires Complete(g, prefs, moves)
    ensures Complete(Consider(g, pref, moves), prefs + [pref], moves)
  {
    var after := Consider(g, pref, moves);
    assert forall p :: p in prefs + [pref] <==> p in prefs || p == pref;
    assert after.forced != [] <==> g.forced != [] || (Applies(pref, moves) && pref.force);
    assert after.plain != [] <==> g.plain != [] || (Applies(pref, moves) && !pref.force);
  }

  lemma {:induction false} GatherFacts(cs: seq<Candidate>, prefs: seq<OpeningPreference>, moves: seq<string>)
    ensures var g := Gather(cs, prefs, moves);
      Extends(g, cs, prefs, moves) && Sound(g, prefs, moves) && Complete(g, prefs, moves)
  {
    if prefs == [] {
      assert cs[..|cs|] == cs;
    } else {
      var n := |prefs| - 1;
      GatherFacts(cs, prefs[..n], moves);
      assert prefs == prefs[..n] + [prefs[n]];
      var g := Gather(cs, prefs[..n], moves);
      ConsiderExtends(g, cs, prefs[..n], prefs[n], moves);
      ConsiderSound(g, prefs[..n], prefs[n], moves);
      ConsiderComplete(g, prefs[..n], prefs[n], moves);
    }
  }

  /** The chosen match is put first, every candidate stays, and a forced choice is marked. */
  lemma SettledKeepsAll(g: Gathered, prefs: seq<OpeningPreference>, moves: seq<string>, m: Match)
    requires GoodMatch(g, prefs, moves, m)
    ensures multiset(Bare(Settled(g.items, m))) == multiset(Bare(g.items))
    ensures Settled(g.items, m) != []
    ensures Normal(Settled(g.items, m)[0].move) == Reply(m.pref, moves)
    ensures m.pref.force ==> Settled(g.items, m)[0].forced
  {
    var items := if m.pref.force && m.index != 0 then g.items[0 := g.items[0].(forced := false)] else g.items;
    assert Bare(items) == Bare(g.items);
    ElevateRearranges(items, m.index, m.pref.force);
  }

  /** A selection from candidates whose first is forced returns the first. */
  lemma ForcedHeadIsChosen(p: Settings, ws: seq<real>, cs: seq<Candidate>, u: real, noise: int, r: Selection)
    requires Selects(p, ws, cs, u, noise, r) && cs != [] && cs[0].forced
    ensures r == if ValidPreset(p, ws) then Chosen(Noisy(p, cs[0], noise)) else InvalidPreset
  {
  }

  function NewWeight(w: real, m: Match): real {
    if w == 0.0 then m.pref.multiplier else w * m.pref.multiplier
  }

  lemma SameSign(a: real, b: real)
    requires b > 0.0
    ensures (a > 0.0 <==> a * b > 0.0) && (a < 0.0 <==> a * b < 0.0)
  {
  }

  /** Scaling the leading weight by a preference of the preset does not change whether the preset is well formed. */
  lemma AdjustedIsWellFormed(p: Settings, ws: seq<real>, m: Match)
    requires ws != [] && m.pref in p.preferences
    ensures WellFormed(p, ws[0 := NewWeight(ws[0], m)]) <==> WellFormed(p, ws)
    ensures WellFormed(p, ws) ==> NewWeight(ws[0], m) > 0.0
  {
    if ValidPreferences(p.preferences) {
      SameSign(ws[0], m.pref.multiplier);
      var after := ws[0 := NewWeight(ws[0], m)];
      forall i | 0 <= i < |ws| ensures after[i] >= 0.0 <==> ws[i] >= 0.0 {
      }
    }
  }

  /** The scaled weights of a well-formed preset make it valid: every leading sum of them is positive. */
  lemma AdjustedIsValid(p: Settings, ws: seq<real>, m: Match, n: nat)
    requires WellFormed(p, ws) && m.pref in p.preferences && 0 < n <= p.primaryChoices
    ensures var after := ws[0 := NewWeight(ws[0], m)]; ValidPreset(p, after) && Sum(after, n) > 0.0
  {
    AdjustedIsWellFormed(p, ws, m);
    var after := ws[0 := NewWeight(ws[0], m)];
    SumGrows(after, p.primaryChoices, 1, n);
    SumGrows(after, p.primaryChoices, 1, p.primaryChoices);
    assert Sum(after, 1) == Sum(after, 0) + after[0];
  }

  /** Scaling the leading weight by a valid preference keeps a valid preset valid. */
  lemma AdjustedStaysValid(p: Settings, ws: seq<real>, m: Match)
    requires ValidPreset(p, ws) && m.pref in p.preferences
    ensures ValidPreset(p, ws[0 := NewWeight(ws[0], m)])
  {
    AdjustedIsValid(p, ws, m, 1);
  }

  // ----- The operations on the candidate list -----

  /** The match whose share the draw falls into. */
  ghost predicate PickedFrom(pool: seq<Match>, u: real, m: Match) {
    exists i: nat :: Picks(pool, u, i) && m == pool[i]
  }

  method FindShare(ms: seq<Match>, roll: real) returns (i: nat)
    requires 0.0 <= roll < TotalProbability(ms)
    ensures i < |ms| && Sum(Weights(ms), i) <= roll < Sum(Weights(ms), i + 1)
  {
    var cumulative := 0.0;
    i := |ms| - 1;
    for k := 0 to |ms|
      invariant cumulative == Sum(Weights(ms), k) <= roll
    {
      cumulative := cumulative + ms[k].probability;
      if roll < cumulative {
        return k;
      }
    }
  }

  /** A draw in [0, 1) selects the match into whose share it falls. */
  method SelectMatch(ms: seq<Match>, total: real, u: real) returns (i: nat)
    requires ms != [] && total == TotalProbability(ms) && 0.0 <= u < 1.0
    ensures i < |ms|
    ensures total > 0.0 ==> Picks(ms, u, i)
  {
    if total <= 0.0 {
      return 0;
    }
    i := FindShare(ms, Scaled(u, total));
  }

  /** Selects a forced match if there is one, otherwise a plain one. */
  method ChooseMatch(plain: seq<Match>, totalProb: real, forced: seq<Match>, totalForcedProb: real, u: real)
      returns (selected: Option<Match>)
    requires totalProb == TotalProbability(plain) && totalForcedProb == TotalProbability(forced) && 0.0 <= u < 1.0
    requires forall m :: m in plain || m in forced ==> m.probability > 0.0
    ensures selected.None? <==> plain == [] && forced == []
    ensures selected.Some? ==>
              PickedFrom(if forced != [] then forced else plain, u, selected.value)
  {
    if forced != [] {
      SumPositive(forced, |forced|);
      var i := SelectMatch(forced, totalForcedProb, u);
      assert Picks(forced, u, i);
      return Some(forced[i]);
    } else if plain != [] {
      SumPositive(plain, |plain|);
      var i := SelectMatch(plain, totalProb, u);
      assert Picks(plain, u, i);
      return Some(plain[i]);
    } else {
      return None;
    }
  }

  method ScaleLeadingWeight(weights: array<real>, selected: Match)
    modifies weights
    ensures weights.Length > 0 ==>
              weights[..] == old(weights[..])[0 := NewWeight(old(weights[0]), selected)]
    ensures weights.Length > 0 && old(weights[0]) == 0.0 ==> weights[0] == selected.pref.multiplier
    ensures weights.Length > 0 && old(weights[0]) != 0.0 ==>
              weights[0] == old(weights[0]) * selected.pref.multiplier
  {
    if weights.Length > 0 {
      ghost var ws := weights[..];
      var w := weights[0];
      if w == 0.0 {
        weights[0] := selected.pref.multiplier;
      } else {
        weights[0] := w * selected.pref.multiplier;
      }
      assert weights[0] == NewWeight(w, selected);
      assert weights[..] == ws[0 := weights[0]];
    }
  }

  lemma {:induction false} SumPositive(ms: seq<Match>, n: nat)
    requires n <= |ms| && forall m :: m in ms ==> m.probability > 0.0
    ensures Sum(Weights(ms), n) >= 0.0
    ensures n > 0 ==> Sum(Weights(ms), n) > 0.0
  {
    if n > 0 {
      SumPositive(ms, n - 1);
      assert ms[n - 1] in ms;
    }
  }

  lemma TotalSnocProbability(ms: seq<Match>, m: Match)
    ensures TotalProbability(ms + [m]) == TotalProbability(ms) + m.probability
  {
    SumPrefix(Weights(ms), Weights(ms + [m]), |ms|);
  }

  lemma {:induction false} SumPrefix(a: seq<real>, b: seq<real>, n: nat)
    requires n <= |a| && n <= |b| && a[..n] == b[..n]
    ensures Sum(a, n) == Sum(b, n)
  {
    if n > 0 {
      assert a[n - 1] == a[..n][n - 1] && b[n - 1] == b[..n][n - 1];
      assert a[..n - 1] == a[..n][..n - 1] && b[..n - 1] == b[..n][..n - 1];
      SumPrefix(a, b, n - 1);
    }
  }

  lemma ConsiderAppends(
      items: seq<Candidate>, plain: seq<Match>, forced: seq<Match>, pref: OpeningPreference, moves: seq<string>)
    ensures var one := Consider(Gathered(items, [], []), pref, moves);
      Consider(Gathered(items, plain, forced), pref, moves) ==
      Gathered(one.items, plain + one.plain, forced + one.forced)
    ensures pref.force ==> Consider(Gathered(items, [], []), pref, moves).plain == []
    ensures !pref.force ==> Consider(Gathered(items, [], []), pref, moves).forced == []
  {
    assert plain + [] == plain && forced + [] == forced;
  }

  /** The outcome of a draw among the preferences that apply; forced ones have precedence. */
  ghost predicate Preferred(
      before: seq<Candidate>, prefs: seq<OpeningPreference>, moves: seq<string>, u: real, m: Match,
      after: seq<Candidate>)
  {
    var g := Gather(before, prefs, moves);
    && GoodMatch(g, prefs, moves, m)
    && (m.pref.force <==> exists p :: p in prefs && Applies(p, moves) && p.force)
    && PickedFrom(Pool(g), u, m)
    && after == Settled(g.items, m)
  }

  lemma GatheredIsProbable(cs: seq<Candidate>, prefs: seq<OpeningPreference>, moves: seq<string>)
    ensures var g := Gather(cs, prefs, moves);
      && (forall m :: m in g.plain || m in g.forced ==> m.probability > 0.0)
      && (g.plain == [] && g.forced == [] <==> forall p :: p in prefs ==> !Applies(p, moves))
  {
    GatherFacts(cs, prefs, moves);
    var g := Gather(cs, prefs, moves);
    forall m | m in g.plain || m in g.forced ensures m.probability > 0.0 {
      assert GoodMatch(g, prefs, moves, m);
    }
  }

  lemma PickedIsPreferred(
      before: seq<Candidate>, prefs: seq<OpeningPreference>, moves: seq<string>, u: real, m: Match)
    requires PickedFrom(Pool(Gather(before, prefs, moves)), u, m)
    ensures var g := Gather(before, prefs, moves);
      && m.index < |g.items| && (m.pref.force ==> g.items[m.index].forced)
      && Preferred(before, prefs, moves, u, m, Settled(g.items, m))
  {
    GatherFacts(before, prefs, moves);
    var g := Gather(before, prefs, moves);
    assert m in Pool(g);
    assert GoodMatch(g, prefs, moves, m);
  }

  /**
   * The outcome as the game shows it: the preference is one of the list and the game so far is its line; the move now
   * standing first is Black's next in it, forced if the preference is; and it is, exactly if some preference in its
   * line is forced.
   */
  ghost predicate PlaysReply(
      prefs: seq<OpeningPreference>, moves: seq<string>, pref: OpeningPreference, after: seq<Candidate>)
  {
    && pref in prefs && InLine(pref, moves)
    && after != [] && Normal(after[0].move) == Normal(pref.blackMoves[|moves| / 2])
    && (pref.force ==> after[0].forced)
    && (pref.force <==> exists p :: p in prefs && InLine(p, moves) && p.force)
  }

  lemma AllApplyIff(prefs: seq<OpeningPreference>, moves: seq<string>)
    ensures forall p :: p in prefs ==> (Applies(p, moves) <==> InLine(p, moves))
  {
    forall p | p in prefs ensures Applies(p, moves) <==> InLine(p, moves) {
      AppliesIff(p, moves);
    }
  }

  lemma PreferredPlaysReply(
      before: seq<Candidate>, prefs: seq<OpeningPreference>, moves: seq<string>, u: real, m: Match,
      after: seq<Candidate>)
    requires Preferred(before, prefs, moves, u, m, after)
    ensures PlaysReply(prefs, moves, m.pref, after)
  {
    AppliesIff(m.pref, moves);
    AllApplyIff(prefs, moves);
    SettledKeepsAll(Gather(before, prefs, moves), prefs, moves, m);
  }

  /** Without an applicable preference gathering changes nothing. */
  lemma {:induction false} NothingAdded(cs: seq<Candidate>, prefs: seq<OpeningPreference>, moves: seq<string>)
    requires forall p :: p in prefs ==> !Applies(p, moves)
    ensures Gather(cs, prefs, moves) == Gathered(cs, [], [])
  {
    if prefs != [] {
      assert prefs[|prefs| - 1] in prefs;
      assert forall p :: p in prefs[..|prefs| - 1] ==> p in prefs;
      NothingAdded(cs, prefs[..|prefs| - 1], moves);
    }
  }

  /** The candidates of one evaluation, changed in place. */
  class CandidateList {
    var items: seq<Candidate>

    constructor (items: seq<Candidate>)
      ensures this.items == items
    {
      this.items := items;
    }

    /** Puts a book move first and forces it. */
    method ApplyPolyglotMove(move: string)
      modifies this
      ensures items == Promoted(old(items), move)
    {
      if move == "" {
        return;
      }
      var idx := FindCandidateIndex(items, move);
      if idx.None? {
        var eval := 0;
        if |items| > 0 {
          eval := items[0].evalCP;
        }
        items := [Candidate(move, eval, [move], true)] + items;
        return;
      }
      var i := idx.value;
      items := items[i := items[i].(forced := true)];
      if i != 0 {
        items := items[0 := items[i]][i := items[0]];
      }
      items := items[0 := items[0].(forced := true)];
    }

    /** Takes one preference into account, marking or adding its reply; None when it does not apply. */
    method ConsiderPreference(pref: OpeningPreference, white: seq<string>, black: seq<string>, ghost moves: seq<string>)
        returns (m: Option<Match>)
      requires white == Evens(moves) && black == Odds(moves)
      modifies this
      ensures m.Some? <==> Applies(pref, moves)
      ensures m.None? ==> items == old(items)
      ensures m.Some? ==>
                var after := Consider(Gathered(old(items), [], []), pref, moves);
                && items == after.items
                && after.plain + after.forced == [m.value]
                && m.value.pref == pref
    {
      if pref.whiteMoves == [] {
        return None;
      }
      var compareLen := |white|;
      if compareLen == 0 {
        return None;
      }
      if compareLen > |pref.whiteMoves| {
        compareLen := |pref.whiteMoves|;
      }
      if !Agrees(white[..compareLen], pref.whiteMoves[..compareLen]) {
        return None;
      }
      if |black| > |pref.blackMoves| {
        return None;
      }
      if !Agrees(black, pref.blackMoves[..|black|]) {
        return None;
      }
      if |black| == |pref.blackMoves| {
        return None;
      }
      var nextMove := Normal(pref.blackMoves[|black|]);
      var idx := FindCandidateIndex(items, nextMove);
      var probability := pref.probability;
      if pref.force && probability <= 0.0 {
        probability := 1.0;
      }
      if probability <= 0.0 {
        return None;
      }
      assert Applies(pref, moves) && nextMove == Reply(pref, moves);
      var place: nat;
      if idx.None? {
        items := items + [Candidate(nextMove, 0, [], pref.force)];
        place := |items| - 1;
      } else {
        place := idx.value;
        if pref.force {
          items := items[place := items[place].(forced := true)];
        }
      }
      return Some(Match(pref, probability, place));
    }

    /** Looks for preferences that apply, marking and adding their replies. */
    method GatherMatches(prefs: seq<OpeningPreference>, moves: seq<string>)
        returns (plain: seq<Match>, forced: seq<Match>, totalProb: real, totalForcedProb: real)
      modifies this
      ensures Gathered(items, plain, forced) == Gather(old(items), prefs, moves)
      ensures totalProb == TotalProbability(plain) && totalForcedProb == TotalProbability(forced)
    {
      var white, black := SplitMovesByColor(moves);
      plain, forced, totalProb, totalForcedProb := [], [], 0.0, 0.0;
      for k := 0 to |prefs|
        invariant Gathered(items, plain, forced) == Gather(old(items), prefs[..k], moves)
        invariant totalProb == TotalProbability(plain) && totalForcedProb == TotalProbability(forced)
      {
        assert prefs[..k + 1][..k] == prefs[..k];
        ConsiderAppends(items, plain, forced, prefs[k], moves);
        var m := ConsiderPreference(prefs[k], white, black, moves);
        if m.None? {
          continue;
        }
        if prefs[k].force {
          TotalSnocProbability(forced, m.value);
          forced := forced + [m.value];
          totalForcedProb := totalForcedProb + m.value.probability;
        } else {
          TotalSnocProbability(plain, m.value);
          plain := plain + [m.value];
          totalProb := totalProb + m.value.probability;
        }
      }
      assert prefs[..|prefs|] == prefs;
    }

    /**
     * Lets the opening preferences decide: one applicable preference is drawn, its reply is put first and the leading
     * weight is scaled. Nothing changes when White is to move or no preference applies.
     */
    method ApplyOpeningPreferences(
        prefs: seq<OpeningPreference>, weights: array<real>, moves: seq<string>, u: real)
        returns (chosen: Option<Match>)
      requires 0.0 <= u < 1.0
      modifies this, weights
      ensures chosen.Some? <==>
              old(items) != [] && |moves| % 2 == 1 && exists p :: p in prefs && InLine(p, moves)
      ensures chosen.None? ==> items == old(items) && weights[..] == old(weights[..])
      ensures chosen.Some? ==> Preferred(old(items), prefs, moves, u, chosen.value, items)
      ensures chosen.Some? ==> PlaysReply(prefs, moves, chosen.value.pref, items)
      ensures chosen.Some? && weights.Length > 0 ==>
                weights[..] == old(weights[..])[0 := NewWeight(old(weights[0]), chosen.value)]
    {
      if prefs == [] || items == [] {
        return None;
      }
      if |moves| % 2 == 0 {
        return None;
      }
      AllApplyIff(prefs, moves);
      ghost var before := items;
      chosen := Prefer(prefs, moves, u);
      if chosen.Some? {
        PreferredPlaysReply(before, prefs, moves, u, chosen.value, items);
        ScaleLeadingWeight(weights, chosen.value);
      }
    }

    /** Draws one applicable preference and puts its reply first. */
    method Prefer(prefs: seq<OpeningPreference>, moves: seq<string>, u: real) returns (chosen: Option<Match>)
      requires 0.0 <= u < 1.0
      modifies this
      ensures chosen.Some? <==> exists p :: p in prefs && Applies(p, moves)
      ensures chosen.None? ==> items == old(items)
      ensures chosen.Some? ==> Preferred(old(items), prefs, moves, u, chosen.value, items)
    {
      var plain, forced, totalProb, totalForcedProb := GatherMatches(prefs, moves);
      GatheredIsProbable(old(items), prefs, moves);
      chosen := ChooseMatch(plain, totalProb, forced, totalForcedProb, u);
      if chosen.None? {
        NothingAdded(old(items), prefs, moves);
        return None;
      }
      assert Pool(Gather(old(items), prefs, moves)) == if forced != [] then forced else plain;
      PickedIsPreferred(old(items), prefs, moves, u, chosen.value);
      Settle(chosen.value);
    }

    /** Exchanges the chosen candidate with the first, moving the forced mark along. */
    method Settle(selected: Match)
      requires selected.index < |items| && (selected.pref.force ==> items[selected.index].forced)
      modifies this
      ensures items == Settled(old(items), selected)
    {
      var i := selected.index;
      if selected.pref.force {
        items := items[i := items[i].(forced := true)];
      }
      if i != 0 {
        items := items[0 := items[i]][i := items[0]];
        if selected.pref.force {
          items := items[i := items[i].(forced := false)];
        }
      }
      if selected.pref.force {
        items := items[0 := items[0].(forced := true)];
      }
    }
  }
}
