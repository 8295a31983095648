/** What a finished catalog promises about the book it was built from. */
module OpeningTheorems {
  import opened Lexicographic
  import opened OpeningCatalog
  import opened OpeningWalk
  import opened Options
  import opened Sorting
  import opened Text

  /** The catalog of everything the walk records from the start position. */
  ghost predicate BuiltFrom(lib: Library, o: Limits, es: seq<Entry>) {
    Walk(lib, o, []).Some? && IsCatalog(lib, Walk(lib, o, []).value, es)
  }

  /** A line the catalog must hold: non-empty, from the book, and not extendable. */
  ghost predicate FullLine(lib: Library, o: Limits, l: Path) {
    l != [] && BookPath(lib, o, l) && Maximal(lib, o, l)
  }

  lemma VariationsMember(lib: Library, lines: seq<Path>, v: Variation)
    ensures v in Variations(lib, lines) <==> v.moves in lines && v == VariationOf(lib, v.moves)
  {
    var vs := Variations(lib, lines);
    if v in vs {
      var i :| 0 <= i < |vs| && vs[i] == v;
      assert lines[i] in lines;
    }
    if v.moves in lines && v == VariationOf(lib, v.moves) {
      var i :| 0 <= i < |lines| && lines[i] == v.moves;
      assert vs[i] == v;
    }
  }

  lemma FullLines(lib: Library, o: Limits, l: Path)
    requires Walk(lib, o, []).Some?
    ensures FullLine(lib, o, l) <==> l in Walk(lib, o, []).value && l != []
  {
    WalkFilesMaximalPaths(lib, o, [], l);
  }

  /** The catalog holds nothing but full lines, each in the group of its key. */
  lemma CatalogHoldsOnlyFullLines(lib: Library, o: Limits, es: seq<Entry>, e: Entry, v: Variation)
    requires BuiltFrom(lib, o, es) && e in es && v in e.variations
    ensures FullLine(lib, o, v.moves) && v == VariationOf(lib, v.moves) && e.key == Key(lib, v.moves)
    ensures forall i :: 0 <= i < |v.moves| ==>
      v.moves[i].ply == i + 1 && v.moves[i].color == (if i % 2 == 0 then "white" else "black")
  {
    var lines := Walk(lib, o, []).value;
    assert v in multiset(e.variations);
    VariationsMember(lib, Keyed(lib, lines, e.key), v);
    KeyedMembers(lib, lines, e.key, v.moves);
    FullLines(lib, o, v.moves);
    forall i | 0 <= i < |v.moves|
      ensures v.moves[i].ply == i + 1 && v.moves[i].color == (if i % 2 == 0 then "white" else "black")
    {
      BookPathNumbering(lib, o, v.moves, i);
    }
  }

  // ----- How often the catalog holds a line -----

  /** A group holds a line of its key as often as the walk recorded it. */
  lemma {:induction false} KeyedCount(lib: Library, lines: seq<Path>, k: string, l: Path)
    requires l != [] && Key(lib, l) == k
    ensures multiset(Keyed(lib, lines, k))[l] == multiset(lines)[l]
  {
    if lines != [] {
      var front, last := lines[..|lines| - 1], lines[|lines| - 1];
      KeyedCount(lib, front, k, l);
      assert lines == front + [last];
    }
  }

  /** Different lines give different variations. */
  lemma {:induction false} VariationCount(lib: Library, lines: seq<Path>, l: Path)
    ensures multiset(Variations(lib, lines))[VariationOf(lib, l)] == multiset(lines)[l]
  {
    if lines != [] {
      var front, last := lines[..|lines| - 1], lines[|lines| - 1];
      VariationCount(lib, front, l);
      assert lines == front + [last];
      VariationsSnoc(lib, front, last);
      assert VariationOf(lib, last).moves == last && VariationOf(lib, l).moves == l;
    }
  }

  /** The entry of a line's key holds it as often as the walk recorded it. */
  lemma CatalogCounts(lib: Library, o: Limits, es: seq<Entry>, e: Entry, l: Path)
    requires BuiltFrom(lib, o, es) && e in es && l != [] && e.key == Key(lib, l)
    ensures multiset(e.variations)[VariationOf(lib, l)] == multiset(Walk(lib, o, []).value)[l]
  {
    var lines := Walk(lib, o, []).value;
    assert IsEntry(lib, lines, e);
    VariationCount(lib, Keyed(lib, lines, e.key), l);
    KeyedCount(lib, lines, e.key, l);
  }

  lemma OnceCounts<T>(s: seq<T>, x: T)
    requires NoRepeat(s) && x in s
    ensures multiset(s)[x] == 1
  {
    if multiset(s)[x] >= 2 {
      var i, j := CountTwoPlaces(s, x);
      assert false;
    }
  }

  /** Every full line is filed in the entry of its key, and nowhere else. */
  lemma LineIsFiled(lib: Library, o: Limits, es: seq<Entry>, l: Path) returns (e: Entry)
    requires BuiltFrom(lib, o, es) && FullLine(lib, o, l)
    ensures e in es && e.key == Key(lib, l)
    ensures forall d, v :: d in es && v in d.variations && v.moves == l ==> d == e && v == VariationOf(lib, l)
  {
    var lines := Walk(lib, o, []).value;
    FullLines(lib, o, l);
    KeyedMembers(lib, lines, Key(lib, l), l);
    assert HasKey(es, Key(lib, l));
    e :| e in es && e.key == Key(lib, l);
    forall d, v | d in es && v in d.variations && v.moves == l ensures d == e && v == VariationOf(lib, l) {
      CatalogHoldsOnlyFullLines(lib, o, es, d, v);
    }
  }

  /** Every full line is filed exactly once, in exactly one group, if no position offers an entry twice. */
  lemma CatalogHoldsEachLineOnce(lib: Library, o: Limits, es: seq<Entry>, l: Path) returns (e: Entry)
    requires DistinctChoices(lib, o, []) && BuiltFrom(lib, o, es) && FullLine(lib, o, l)
    ensures e in es && e.key == Key(lib, l)
    ensures multiset(e.variations)[VariationOf(lib, l)] == 1
    ensures forall d, v :: d in es && v in d.variations && v.moves == l ==> d == e && v == VariationOf(lib, l)
  {
    e := LineIsFiled(lib, o, es, l);
    FullLines(lib, o, l);
    WalkFilesOnce(lib, o, []);
    OnceCounts(Walk(lib, o, []).value, l);
    CatalogCounts(lib, o, es, e, l);
  }

  /** The entry of its key holds this full line once. */
  ghost predicate FiledOnce(lib: Library, es: seq<Entry>, l: Path) {
    forall e :: e in es && e.key == Key(lib, l) ==> multiset(e.variations)[VariationOf(lib, l)] == 1
  }

  /** A position that offers an entry twice makes the catalog hold some full line twice. */
  lemma RepeatedEntryRepeatsLine(lib: Library, o: Limits, es: seq<Entry>) returns (l: Path)
    requires BuiltFrom(lib, o, es) && !DistinctChoices(lib, o, [])
    ensures FullLine(lib, o, l) && !FiledOnce(lib, es, l)
  {
    var lines := Walk(lib, o, []).value;
    WalkFilesOnce(lib, o, []);
    var i, j :| 0 <= i < j < |lines| && lines[i] == lines[j];
    l := lines[i];
    WalkFilesMaximalPaths(lib, o, [], l);
    assert l != [];
    FullLines(lib, o, l);
    TwoPlacesCount(lines, i, j);
    var e := LineIsFiled(lib, o, es, l);
    CatalogCounts(lib, o, es, e, l);
  }

  /** A catalog holds every full line once exactly when no position its book paths reach offers an entry twice. */
  lemma CatalogHoldsLinesOnceIff(lib: Library, o: Limits, es: seq<Entry>)
    requires BuiltFrom(lib, o, es)
    ensures (forall l :: FullLine(lib, o, l) ==> FiledOnce(lib, es, l)) <==> DistinctChoices(lib, o, [])
  {
    if DistinctChoices(lib, o, []) {
      forall l, e | FullLine(lib, o, l) && e in es && e.key == Key(lib, l)
        ensures multiset(e.variations)[VariationOf(lib, l)] == 1
      {
        FullLines(lib, o, l);
        WalkFilesOnce(lib, o, []);
        OnceCounts(Walk(lib, o, []).value, l);
        CatalogCounts(lib, o, es, e, l);
      }
    } else {
      var l := RepeatedEntryRepeatsLine(lib, o, es);
    }
  }

  // ----- Sums over the whole catalog -----

  function SumOver(es: seq<Entry>, f: Variation -> int): int {
    if es == [] then 0 else SumOver(es[..|es| - 1], f) + Total(es[|es| - 1].variations, f)
  }

  /** The same sum taken over the recorded lines, whatever groups they went to. */
  function LineSum(lib: Library, lines: seq<Path>, f: Variation -> int): int {
    if lines == [] then 0
    else
      var last := lines[|lines| - 1];
      LineSum(lib, lines[..|lines| - 1], f) + if last == [] then 0 else f(VariationOf(lib, last))
  }

  function KeyedSum(lib: Library, lines: seq<Path>, es: seq<Entry>, f: Variation -> int): int {
    if es == [] then 0
    else
      KeyedSum(lib, lines, es[..|es| - 1], f) + Total(Variations(lib, Keyed(lib, lines, es[|es| - 1].key)), f)
  }

  lemma {:induction false} SumOverIsKeyedSum(lib: Library, lines: seq<Path>, es: seq<Entry>, f: Variation -> int)
    requires forall e :: e in es ==> IsEntry(lib, lines, e)
    ensures SumOver(es, f) == KeyedSum(lib, lines, es, f)
  {
    if es != [] {
      var e := es[|es| - 1];
      assert e in es;
      assert forall d :: d in es[..|es| - 1] ==> d in es;
      SumOverIsKeyedSum(lib, lines, es[..|es| - 1], f);
      TotalPermuted(e.variations, Variations(lib, Keyed(lib, lines, e.key)), f);
    }
  }

  lemma KeyedTotalStep(lib: Library, lines: seq<Path>, k: string, f: Variation -> int)
    requires lines != []
    ensures var last := lines[|lines| - 1];
      Total(Variations(lib, Keyed(lib, lines, k)), f) ==
      Total(Variations(lib, Keyed(lib, lines[..|lines| - 1], k)), f) +
      if last != [] && Key(lib, last) == k then f(VariationOf(lib, last)) else 0
  {
    var last := lines[|lines| - 1];
    var front := Keyed(lib, lines[..|lines| - 1], k);
    if last != [] && Key(lib, last) == k {
      VariationsSnoc(lib, front, last);
      assert (Variations(lib, front) + [VariationOf(lib, last)])[..|front|] == Variations(lib, front);
    } else {
      assert Keyed(lib, lines, k) == front;
    }
  }

  lemma {:induction false} KeyedSumStep(lib: Library, lines: seq<Path>, es: seq<Entry>, f: Variation -> int)
    requires lines != [] && forall i, j :: 0 <= i < j < |es| ==> es[i].key != es[j].key
    ensures var last := lines[|lines| - 1];
      KeyedSum(lib, lines, es, f) ==
      KeyedSum(lib, lines[..|lines| - 1], es, f) +
      if last != [] && HasKey(es, Key(lib, last)) then f(VariationOf(lib, last)) else 0
  {
    if es != [] {
      var e := es[|es| - 1];
      var rest := es[..|es| - 1];
      KeyedSumStep(lib, lines, rest, f);
      KeyedTotalStep(lib, lines, e.key, f);
      KeysOfRest(es, Key(lib, lines[|lines| - 1]));
    }
  }

  lemma KeysOfRest(es: seq<Entry>, k: string)
    requires es != [] && forall i, j :: 0 <= i < j < |es| ==> es[i].key != es[j].key
    ensures HasKey(es, k) <==> HasKey(es[..|es| - 1], k) || es[|es| - 1].key == k
    ensures !HasKey(es[..|es| - 1], es[|es| - 1].key)
  {
    assert es == es[..|es| - 1] + [es[|es| - 1]];
  }

  lemma {:induction false} KeyedSumIsLineSum(lib: Library, lines: seq<Path>, es: seq<Entry>, f: Variation -> int)
    requires forall i, j :: 0 <= i < j < |es| ==> es[i].key != es[j].key
    requires forall p :: p in lines && p != [] ==> HasKey(es, Key(lib, p))
    ensures KeyedSum(lib, lines, es, f) == LineSum(lib, lines, f)
  {
    if lines == [] {
      NothingKeyed(lib, es, f);
    } else {
      var front := lines[..|lines| - 1];
      assert forall p :: p in front ==> p in lines;
      assert lines[|lines| - 1] in lines;
      KeyedSumIsLineSum(lib, front, es, f);
      KeyedSumStep(lib, lines, es, f);
    }
  }

  lemma {:induction false} NothingKeyed(lib: Library, es: seq<Entry>, f: Variation -> int)
    ensures KeyedSum(lib, [], es, f) == 0
  {
    if es != [] {
      NothingKeyed(lib, es[..|es| - 1], f);
    }
  }

  /** Grouping conserves every sum: over the entries it equals the sum over the recorded lines. */
  lemma SumConserved(lib: Library, o: Limits, es: seq<Entry>, f: Variation -> int)
    requires BuiltFrom(lib, o, es)
    ensures SumOver(es, f) == LineSum(lib, Walk(lib, o, []).value, f)
  {
    var lines := Walk(lib, o, []).value;
    SumOverIsKeyedSum(lib, lines, es, f);
    forall p | p in lines && p != [] ensures HasKey(es, Key(lib, p)) {
      KeyedMembers(lib, lines, Key(lib, p), p);
    }
    KeyedSumIsLineSum(lib, lines, es, f);
  }

  function EntryWeights(es: seq<Entry>): int {
    if es == [] then 0 else EntryWeights(es[..|es| - 1]) + es[|es| - 1].totalWeight
  }

  function LineWeights(lines: seq<Path>): int {
    if lines == [] then 0 else LineWeights(lines[..|lines| - 1]) + PathWeight(lines[|lines| - 1])
  }

  lemma EntryWeighsItsVariations(lib: Library, lines: seq<Path>, e: Entry)
    requires IsEntry(lib, lines, e)
    ensures e.totalWeight == Total(e.variations, WeightOf())
  {
    TotalPermuted(e.variations, Variations(lib, Keyed(lib, lines, e.key)), WeightOf());
  }

  lemma {:induction false} EntryWeightsAreSums(es: seq<Entry>)
    requires forall e :: e in es ==> e.totalWeight == Total(e.variations, WeightOf())
    ensures EntryWeights(es) == SumOver(es, WeightOf())
  {
    if es != [] {
      assert es[|es| - 1] in es;
      assert forall d :: d in es[..|es| - 1] ==> d in es;
      EntryWeightsAreSums(es[..|es| - 1]);
    }
  }

  lemma {:induction false} LineSumOfWeights(lib: Library, lines: seq<Path>)
    ensures LineSum(lib, lines, WeightOf()) == LineWeights(lines)
  {
    if lines != [] {
      LineSumOfWeights(lib, lines[..|lines| - 1]);
    }
  }

  /** Weight is conserved: each group weighs what its variations weigh, and the groups together what the lines do. */
  lemma WeightConserved(lib: Library, o: Limits, es: seq<Entry>)
    requires BuiltFrom(lib, o, es)
    ensures forall e :: e in es ==> e.totalWeight == Total(e.variations, WeightOf())
    ensures forall e, v :: e in es && v in e.variations ==> v.totalWeight == PathWeight(v.moves)
    ensures EntryWeights(es) == LineWeights(Walk(lib, o, []).value)
  {
    var lines := Walk(lib, o, []).value;
    forall e | e in es ensures e.totalWeight == Total(e.variations, WeightOf()) {
      EntryWeighsItsVariations(lib, lines, e);
    }
    EntryWeightsAreSums(es);
    SumConserved(lib, o, es, WeightOf());
    LineSumOfWeights(lib, lines);
    forall e, v | e in es && v in e.variations ensures v.totalWeight == PathWeight(v.moves) {
      CatalogHoldsOnlyFullLines(lib, o, es, e, v);
    }
  }

  // ----- Independence of the map's iteration order -----

  /** Moves are written without spaces. */
  ghost predicate SolidMoves(lib: Library) {
    forall t, e :: lib.find(t).Some? && e in lib.find(t).value ==> Solid(e.move)
  }

  /** Two different book lines never tie in the order of variations. */
  lemma MoveOrderDecides(lib: Library, o: Limits, p: Path, q: Path)
    requires MovesDecide(lib, o) && SolidMoves(lib) && BookPath(lib, o, p) && BookPath(lib, o, q) && p != q
    ensures ByMoves(VariationOf(lib, p), VariationOf(lib, q)) || ByMoves(VariationOf(lib, q), VariationOf(lib, p))
  {
    LessIsStrictTotal();
    if JoinMoves(p) == JoinMoves(q) {
      JoinInjective(Tokens(p), Tokens(q));
      TokensDetermine(lib, o, p, q);
      assert false;
    }
  }

  lemma OnlyCopiesTie(lib: Library, o: Limits, k: string)
    requires MovesDecide(lib, o) && SolidMoves(lib) && Walk(lib, o, []).Some?
    ensures TiesAreEqual(Variations(lib, Keyed(lib, Walk(lib, o, []).value, k)), ByMoves)
  {
    var lines := Walk(lib, o, []).value;
    var keyed := Keyed(lib, lines, k);
    forall v, w | v in Variations(lib, keyed) && w in Variations(lib, keyed)
      ensures v == w || ByMoves(v, w) || ByMoves(w, v)
    {
      VariationsMember(lib, keyed, v);
      VariationsMember(lib, keyed, w);
      KeyedMembers(lib, lines, k, v.moves);
      KeyedMembers(lib, lines, k, w.moves);
      FullLines(lib, o, v.moves);
      FullLines(lib, o, w.moves);
      if v.moves != w.moves {
        MoveOrderDecides(lib, o, v.moves, w.moves);
      }
    }
  }

  lemma EntryUnique(lib: Library, o: Limits, d: Entry, e: Entry)
    requires MovesDecide(lib, o) && SolidMoves(lib) && Walk(lib, o, []).Some? && d.key == e.key
    requires IsEntry(lib, Walk(lib, o, []).value, d) && IsEntry(lib, Walk(lib, o, []).value, e)
    ensures d == e
  {
    var vs := Variations(lib, Keyed(lib, Walk(lib, o, []).value, e.key));
    OnlyCopiesTie(lib, o, e.key);
    forall v | v in d.variations ensures v in vs {
      assert v in multiset(vs);
    }
    OrderedUnique(d.variations, e.variations, ByMoves);
  }

  /**
   * A book that gives no move two weights at one position has one catalog: neither the order the groups are visited in
   * nor the way the sort arranges ties shows.
   */
  lemma CatalogUnique(lib: Library, o: Limits, a: seq<Entry>, b: seq<Entry>)
    requires MovesDecide(lib, o) && SolidMoves(lib) && BuiltFrom(lib, o, a) && BuiltFrom(lib, o, b)
    ensures a == b
  {
    OrdersAreWeak();
    forall e ensures e in a <==> e in b {
      if e in a {
        CatalogCovers(lib, o, a, b, e);
      }
      if e in b {
        CatalogCovers(lib, o, b, a, e);
      }
    }
    SortedUnique(a, b, ByKey);
  }

  lemma CatalogCovers(lib: Library, o: Limits, a: seq<Entry>, b: seq<Entry>, e: Entry)
    requires MovesDecide(lib, o) && SolidMoves(lib) && BuiltFrom(lib, o, a) && BuiltFrom(lib, o, b) && e in a
    ensures e in b
  {
    assert HasKey(b, e.key);
    var d :| d in b && d.key == e.key;
    EntryUnique(lib, o, d, e);
  }
}
