/** Grouping the recorded lines into the opening catalog. */
module OpeningCatalog {
  import opened Lexicographic
  import opened OpeningWalk
  import opened Options
  import opened Sorting
  import opened Text

  datatype Variation = Variation(moves: Path, finalFen: string, totalWeight: int)

  datatype Entry = Entry(
    key: string, ecoCode: string, ecoTitle: string, totalWeight: int, variations: seq<Variation>)

  function PathWeight(p: Path): int {
    if p == [] then 0 else PathWeight(p[..|p| - 1]) + p[|p| - 1].weight
  }

  function VariationOf(lib: Library, p: Path): Variation {
    Variation(p, lib.fen(Tokens(p)), PathWeight(p))
  }

  function Code(lib: Library, p: Path): string {
    match lib.eco(Tokens(p))
    case None => ""
    case Some(found) => found.0
  }

  function Title(lib: Library, p: Path): string {
    match lib.eco(Tokens(p))
    case None => ""
    case Some(found) => found.1
  }

  function JoinMoves(p: Path): string {
    Join(Tokens(p), " ")
  }

  /** The group a line belongs to: its ECO code, or its moves when it has none. */
  function Key(lib: Library, p: Path): string {
    if Code(lib, p) == "" then JoinMoves(p) else Code(lib, p)
  }

  /** Files one line under its key. */
  function FileLine(lib: Library, groups: map<string, Entry>, p: Path): map<string, Entry> {
    if p == [] then groups
    else
      var key := Key(lib, p);
      var g :=
        if key !in groups then Entry(key, Code(lib, p), Title(lib, p), 0, [])
        else
          groups[key].(
            ecoCode := if groups[key].ecoCode == "" then Code(lib, p) else groups[key].ecoCode,
            ecoTitle := if groups[key].ecoTitle == "" then Title(lib, p) else groups[key].ecoTitle);
      var v := VariationOf(lib, p);
      groups[key := g.(variations := g.variations + [v], totalWeight := g.totalWeight + v.totalWeight)]
  }

  function FileAll(lib: Library, groups: map<string, Entry>, lines: seq<Path>): map<string, Entry> {
    if lines == [] then groups
    else FileLine(lib, FileAll(lib, groups, lines[..|lines| - 1]), lines[|lines| - 1])
  }

  lemma {:induction false} FileAllJoin(lib: Library, groups: map<string, Entry>, a: seq<Path>, b: seq<Path>)
    ensures FileAll(lib, groups, a + b) == FileAll(lib, FileAll(lib, groups, a), b)
  {
    if b == [] {
      assert a + b == a;
    } else {
      FileAllJoin(lib, groups, a, b[..|b| - 1]);
      assert (a + b)[..|a + b| - 1] == a + b[..|b| - 1];
    }
  }

  // ----- What grouping means -----

  /** The non-empty lines that belong to a key, in order. */
  function Keyed(lib: Library, lines: seq<Path>, k: string): seq<Path> {
    if lines == [] then []
    else
      var last := lines[|lines| - 1];
      Keyed(lib, lines[..|lines| - 1], k) + (if last != [] && Key(lib, last) == k then [last] else [])
  }

  function Variations(lib: Library, lines: seq<Path>): (vs: seq<Variation>)
    ensures |vs| == |lines|
  {
    seq(|lines|, i requires 0 <= i < |lines| => VariationOf(lib, lines[i]))
  }

  function FirstTitle(lib: Library, lines: seq<Path>): string {
    if lines == [] then ""
    else
      var earlier := FirstTitle(lib, lines[..|lines| - 1]);
      if earlier == "" then Title(lib, lines[|lines| - 1]) else earlier
  }

  /** The sum of a quantity over variations. */
  function Total(vs: seq<Variation>, f: Variation -> int): int {
    if vs == [] then 0 else Total(vs[..|vs| - 1], f) + f(vs[|vs| - 1])
  }

  function WeightOf(): Variation -> int {
    (v: Variation) => v.totalWeight
  }

  /** Some line has an ECO code. */
  ghost predicate Classified(lib: Library, lines: seq<Path>) {
    exists p :: p in lines && Code(lib, p) != ""
  }

  /** A group of these lines, in order, and their weights' sum. */
  ghost predicate GroupOf(lib: Library, members: seq<Path>, k: string, g: Entry) {
    && g.key == k
    && g.ecoCode == (if Classified(lib, members) then k else "")
    && g.ecoTitle == FirstTitle(lib, members)
    && g.totalWeight == Total(g.variations, WeightOf())
    && g.variations == Variations(lib, members)
  }

  /** A group holds the lines of its key. */
  ghost predicate IsGroup(lib: Library, lines: seq<Path>, k: string, g: Entry) {
    GroupOf(lib, Keyed(lib, lines, k), k, g)
  }

  /** A key has a group exactly when it has lines, and the group is right. */
  ghost predicate GroupedAt(lib: Library, lines: seq<Path>, groups: map<string, Entry>, k: string) {
    && (k in groups <==> Keyed(lib, lines, k) != [])
    && (k in groups ==> IsGroup(lib, lines, k, groups[k]))
  }

  ghost predicate Grouped(lib: Library, lines: seq<Path>, groups: map<string, Entry>) {
    forall k :: GroupedAt(lib, lines, groups, k)
  }

  lemma {:induction false} KeyedMembers(lib: Library, lines: seq<Path>, k: string, p: Path)
    ensures p in Keyed(lib, lines, k) <==> p in lines && p != [] && Key(lib, p) == k
  {
    if lines != [] {
      KeyedMembers(lib, lines[..|lines| - 1], k, p);
      assert lines == lines[..|lines| - 1] + [lines[|lines| - 1]];
    }
  }

  lemma VariationsSnoc(lib: Library, lines: seq<Path>, p: Path)
    ensures Variations(lib, lines + [p]) == Variations(lib, lines) + [VariationOf(lib, p)]
  {
  }

  lemma TotalSnoc(vs: seq<Variation>, v: Variation)
    ensures Total(vs + [v], WeightOf()) == Total(vs, WeightOf()) + v.totalWeight
  {
    assert (vs + [v])[..|vs|] == vs;
  }

  lemma FirstTitleSnoc(lib: Library, lines: seq<Path>, p: Path)
    ensures FirstTitle(lib, lines + [p]) ==
            if FirstTitle(lib, lines) == "" then Title(lib, p) else FirstTitle(lib, lines)
  {
    assert (lines + [p])[..|lines|] == lines;
  }

  /** Within a group, a line with a code makes the code the key. */
  lemma ClassifiedSnoc(lib: Library, lines: seq<Path>, p: Path)
    requires p != []
    ensures var before := Keyed(lib, lines, Key(lib, p));
      && (Classified(lib, before + [p]) <==> Classified(lib, before) || Code(lib, p) != "")
      && (Code(lib, p) != "" ==> Code(lib, p) == Key(lib, p))
      && (Classified(lib, before) ==> Key(lib, p) != "")
  {
    var before := Keyed(lib, lines, Key(lib, p));
    if q :| q in before && Code(lib, q) != "" {
      KeyedMembers(lib, lines, Key(lib, p), q);
      assert q in before + [p];
    }
    assert p in before + [p];
  }

  /** A group with one more line. */
  function Grown(lib: Library, g: Entry, p: Path): Entry {
    var v := VariationOf(lib, p);
    g.(ecoCode := if g.ecoCode == "" then Code(lib, p) else g.ecoCode,
       ecoTitle := if g.ecoTitle == "" then Title(lib, p) else g.ecoTitle,
       variations := g.variations + [v], totalWeight := g.totalWeight + v.totalWeight)
  }

  /** Filing a line grows its group, which starts empty. */
  lemma FileLineGrows(lib: Library, groups: map<string, Entry>, p: Path)
    requires p != []
    ensures var k := Key(lib, p);
      && k in FileLine(lib, groups, p)
      && FileLine(lib, groups, p)[k] ==
         Grown(lib, if k in groups then groups[k] else Entry(k, "", "", 0, []), p)
  {
  }

  /** A group that takes one more line in. */
  lemma GroupGrows(lib: Library, members: seq<Path>, p: Path, k: string, g: Entry)
    requires GroupOf(lib, members, k, g)
    requires Classified(lib, members + [p]) <==> Classified(lib, members) || Code(lib, p) != ""
    requires (Code(lib, p) != "" ==> Code(lib, p) == k) && (Classified(lib, members) ==> k != "")
    ensures GroupOf(lib, members + [p], k, Grown(lib, g, p))
  {
    VariationsSnoc(lib, members, p);
    TotalSnoc(Variations(lib, members), VariationOf(lib, p));
    FirstTitleSnoc(lib, members, p);
  }

  lemma NobodysGroup(lib: Library, k: string)
    ensures GroupOf(lib, [], k, Entry(k, "", "", 0, []))
  {
  }

  lemma KeyedSnoc(lib: Library, lines: seq<Path>, p: Path)
    requires p != []
    ensures Keyed(lib, lines + [p], Key(lib, p)) == Keyed(lib, lines, Key(lib, p)) + [p]
  {
    assert (lines + [p])[..|lines|] == lines;
  }

  lemma FileLineGroup(lib: Library, lines: seq<Path>, p: Path, groups: map<string, Entry>)
    requires GroupedAt(lib, lines, groups, Key(lib, p)) && p != []
    ensures GroupedAt(lib, lines + [p], FileLine(lib, groups, p), Key(lib, p))
  {
    var k := Key(lib, p);
    var before := Keyed(lib, lines, k);
    KeyedSnoc(lib, lines, p);
    ClassifiedSnoc(lib, lines, p);
    FileLineGrows(lib, groups, p);
    if k in groups {
      GroupGrows(lib, before, p, k, groups[k]);
    } else {
      NobodysGroup(lib, k);
      GroupGrows(lib, before, p, k, Entry(k, "", "", 0, []));
    }
  }

  /** Filing one more line keeps the groups exact. */
  lemma FileLineGroups(lib: Library, lines: seq<Path>, p: Path, groups: map<string, Entry>)
    requires Grouped(lib, lines, groups)
    ensures Grouped(lib, lines + [p], FileLine(lib, groups, p))
  {
    forall k ensures GroupedAt(lib, lines + [p], FileLine(lib, groups, p), k) {
      assert GroupedAt(lib, lines, groups, k);
      if p == [] || k != Key(lib, p) {
        assert (lines + [p])[..|lines|] == lines;
        assert Keyed(lib, lines + [p], k) == Keyed(lib, lines, k);
      } else {
        FileLineGroup(lib, lines, p, groups);
      }
    }
  }

  lemma {:induction false} FileAllGroups(lib: Library, lines: seq<Path>)
    ensures Grouped(lib, lines, FileAll(lib, map[], lines))
  {
    if lines == [] {
    } else {
      var front, last := lines[..|lines| - 1], lines[|lines| - 1];
      FileAllGroups(lib, front);
      FileLineGroups(lib, front, last, FileAll(lib, map[], front));
      assert lines == front + [last];
    }
  }

  // ----- The sorted catalog -----

  function SortKey(e: Entry): string {
    if e.ecoCode != "" then e.ecoCode else e.key
  }

  predicate ByMoves(a: Variation, b: Variation) {
    Less(JoinMoves(a.moves), JoinMoves(b.moves)) ||
    (JoinMoves(a.moves) == JoinMoves(b.moves) && Less(a.finalFen, b.finalFen))
  }

  predicate ByKey(a: Entry, b: Entry) {
    Less(SortKey(a), SortKey(b)) || (SortKey(a) == SortKey(b) && a.totalWeight > b.totalWeight)
  }

  lemma OrdersAreWeak()
    ensures WeakOrder(ByMoves) && WeakOrder(ByKey)
  {
    LessIsStrictTotal();
  }

  /** The entry of a finished catalog for a group of lines. */
  ghost predicate IsEntry(lib: Library, lines: seq<Path>, e: Entry) {
    var vs := Variations(lib, Keyed(lib, lines, e.key));
    && IsGroup(lib, lines, e.key, e.(variations := vs))
    && multiset(e.variations) == multiset(vs)
    && Ordered(e.variations, ByMoves)
  }

  /** The finished catalog: one entry per key that has lines, sorted. */
  ghost predicate IsCatalog(lib: Library, lines: seq<Path>, es: seq<Entry>) {
    && Sorted(es, ByKey)
    && (forall i, j :: 0 <= i < j < |es| ==> es[i].key != es[j].key)
    && (forall e :: e in es ==> Keyed(lib, lines, e.key) != [] && IsEntry(lib, lines, e))
    && (forall k :: Keyed(lib, lines, k) != [] ==> HasKey(es, k))
  }

  /** A group sorts under its own key. */
  lemma SortKeyIsKey(lib: Library, lines: seq<Path>, e: Entry)
    requires IsEntry(lib, lines, e)
    ensures SortKey(e) == e.key
  {
  }

  class Builder {
    const lib: Library
    const o: Limits
    var groups: map<string, Entry>

    constructor (lib: Library, o: Limits)
      ensures this.lib == lib && this.o == o && groups == map[]
    {
      this.lib, this.o, this.groups := lib, o, map[];
    }

    method Append(p: Path)
      modifies this
      ensures groups == FileLine(lib, old(groups), p)
    {
      if p == [] {
        return;
      }
      var total := 0;
      for i := 0 to |p|
        invariant total == PathWeight(p[..i])
      {
        assert p[..i + 1][..i] == p[..i];
        total := total + p[i].weight;
      }
      assert p[..|p|] == p;
      var code, title := "", "";
      var eco := lib.eco(Tokens(p));
      if eco.Some? {
        code, title := eco.value.0, eco.value.1;
      }
      var key := code;
      if key == "" {
        key := JoinMoves(p);
      }
      var group: Entry;
      if key !in groups {
        group := Entry(key, code, title, 0, []);
      } else {
        group := groups[key];
        if group.ecoCode == "" && code != "" {
          group := group.(ecoCode := code);
        }
        if group.ecoTitle == "" && title != "" {
          group := group.(ecoTitle := title);
        }
      }
      group := group.(
        variations := group.variations + [Variation(p, lib.fen(Tokens(p)), total)],
        totalWeight := group.totalWeight + total);
      groups := groups[key := group];
    }

    method Visit(p: Path) returns (ok: bool)
      modifies this
      ensures ok == Walk(lib, o, p).Some?
      ensures ok ==> groups == FileAll(lib, old(groups), Walk(lib, o, p).value)
      decreases o.maxPly - |p|, 1
    {
      if |p| >= o.maxPly {
        Append(p);
        return true;
      }
      var entries := lib.find(Tokens(p));
      if entries.None? {
        return false;
      }
      var filtered := Select(entries.value, o.minWeight);
      if filtered == [] {
        Append(p);
        return true;
      }
      ok := VisitEach(p, filtered);
    }

    method VisitEach(p: Path, filtered: seq<BookEntry>) returns (ok: bool)
      requires |p| < o.maxPly
      modifies this
      ensures ok == WalkEach(lib, o, p, filtered).Some?
      ensures ok ==> groups == FileAll(lib, old(groups), WalkEach(lib, o, p, filtered).value)
      decreases o.maxPly - |p|, 0
    {
      ghost var done: seq<Path> := [];
      assert filtered[0..] == filtered;
      PrependNothing(WalkEach(lib, o, p, filtered));
      for i := 0 to |filtered|
        invariant groups == FileAll(lib, old(groups), done)
        invariant WalkEach(lib, o, p, filtered) == Prepend(done, WalkEach(lib, o, p, filtered[i..]))
      {
        var e := filtered[i];
        var lineMove := LineMove(|p| + 1, SideToMove(|p|), e.move, lib.san(Tokens(p), e.move), e.weight);
        if !lib.legal(Tokens(p), e.move) {
          return false;
        }
        var deeper := Visit(p + [lineMove]);
        if !deeper {
          return false;
        }
        ghost var found := Walk(lib, o, p + [lineMove]).value;
        FileAllJoin(lib, old(groups), done, found);
        PrependTwice(done, found, WalkEach(lib, o, p, filtered[i + 1..]));
        done := done + found;
      }
      assert filtered[|filtered|..] == [] && done + [] == done;
      return true;
    }
  }

  function Prepend(done: seq<Path>, rest: Option<seq<Path>>): Option<seq<Path>> {
    if rest.None? then None else Some(done + rest.value)
  }

  lemma PrependNothing(rest: Option<seq<Path>>)
    ensures Prepend([], rest) == rest
  {
    if rest.Some? {
      assert [] + rest.value == rest.value;
    }
  }

  lemma PrependTwice(a: seq<Path>, b: seq<Path>, rest: Option<seq<Path>>)
    ensures Prepend(a, Prepend(b, rest)) == Prepend(a + b, rest)
  {
    if rest.Some? {
      assert a + (b + rest.value) == a + b + rest.value;
    }
  }

  /** The entries still to be looked at follow those kept so far. */
  ghost predicate Selecting(es: seq<BookEntry>, minWeight: nat, i: nat, kept: seq<BookEntry>)
    requires i <= |es|
  {
    Heavy(es, minWeight) == kept + Heavy(es[i..], minWeight)
  }

  lemma SelectingStep(es: seq<BookEntry>, minWeight: nat, i: nat, kept: seq<BookEntry>)
    requires i < |es| && Selecting(es, minWeight, i, kept)
    ensures Selecting(es, minWeight, i + 1, if es[i].weight >= minWeight then kept + [es[i]] else kept)
  {
    var step := if es[i].weight >= minWeight then [es[i]] else [];
    assert kept + [] == kept;
  }

  method Select(es: seq<BookEntry>, minWeight: nat) returns (r: seq<BookEntry>)
    ensures r == Heavy(es, minWeight)
  {
    r := [];
    assert es[0..] == es && [] + Heavy(es, minWeight) == Heavy(es, minWeight);
    for i := 0 to |es|
      invariant Selecting(es, minWeight, i, r)
    {
      SelectingStep(es, minWeight, i, r);
      if es[i].weight >= minWeight {
        r := r + [es[i]];
      }
    }
    assert es[|es|..] == [] && r + [] == r;
  }

  /** Builds the catalog of a book: an error, or the groups of the walk's lines in sorted order. */
  method BuildCatalog(book: Option<Library>, maxPly: int, minWeight: nat) returns (r: Option<seq<Entry>>)
    ensures book.None? ==> r.None?
    ensures book.Some? ==>
      var walk := Walk(book.value, EffectiveLimits(maxPly, minWeight), []);
      (r.Some? <==> walk.Some?) && (r.Some? ==> IsCatalog(book.value, walk.value, r.value))
  {
    if book.None? {
      return None;
    }
    var lib := book.value;
    var builder := new Builder(lib, EffectiveLimits(maxPly, minWeight));
    var ok := builder.Visit([]);
    if !ok {
      return None;
    }
    ghost var lines := Walk(lib, builder.o, []).value;
    var groups := builder.groups;
    FileAllGroups(lib, lines);
    OrdersAreWeak();
    var entries := Arrange(lib, lines, groups);
    var sorted := Sort(entries, ByKey);
    FinishCatalog(lib, lines, groups, entries, sorted);
    return Some(sorted);
  }

  /** The finished entry of one group. */
  method FinishGroup(lib: Library, ghost lines: seq<Path>, groups: map<string, Entry>, k: string) returns (e: Entry)
    requires Grouped(lib, lines, groups) && k in groups
    ensures e.key == k && IsEntry(lib, lines, e)
  {
    OrdersAreWeak();
    var vs := Sort(groups[k].variations, ByMoves);
    EntryOfGroup(lib, lines, groups, k, vs);
    e := groups[k].(variations := vs);
  }

  /** Sorts the variations of every group, visiting the groups in any order. */
  method Arrange(lib: Library, ghost lines: seq<Path>, groups: map<string, Entry>) returns (entries: seq<Entry>)
    requires Grouped(lib, lines, groups)
    ensures Arranged(lib, lines, groups.Keys, entries)
  {
    entries := [];
    var todo := groups.Keys;
    ghost var done: set<string> := {};
    while todo != {}
      invariant todo <= groups.Keys && done == groups.Keys - todo
      invariant Arranged(lib, lines, done, entries)
      decreases todo
    {
      var k :| k in todo;
      var e := FinishGroup(lib, lines, groups, k);
      ArrangeMore(lib, lines, done, entries, e);
      entries := entries + [e];
      todo := todo - {k};
      done := done + {k};
    }
    assert done == groups.Keys;
  }

  /** One entry for each of these keys. */
  ghost predicate Arranged(lib: Library, lines: seq<Path>, keys: set<string>, entries: seq<Entry>) {
    && (forall e :: e in entries ==> e.key in keys && IsEntry(lib, lines, e))
    && (forall i, j :: 0 <= i < j < |entries| ==> entries[i].key != entries[j].key)
    && (forall k :: k in keys ==> HasKey(entries, k))
  }

  lemma ArrangeMore(lib: Library, lines: seq<Path>, keys: set<string>, entries: seq<Entry>, e: Entry)
    requires Arranged(lib, lines, keys, entries) && e.key !in keys && IsEntry(lib, lines, e)
    ensures Arranged(lib, lines, keys + {e.key}, entries + [e])
  {
    forall i, j | 0 <= i < j < |entries + [e]| ensures (entries + [e])[i].key != (entries + [e])[j].key {
      if j == |entries| {
        assert entries[i] in entries;
      }
    }
  }

  ghost predicate HasKey(entries: seq<Entry>, k: string) {
    exists e :: e in entries && e.key == k
  }

  lemma EntryOfGroup(lib: Library, lines: seq<Path>, groups: map<string, Entry>, k: string, vs: seq<Variation>)
    requires Grouped(lib, lines, groups) && k in groups
    requires Ordered(vs, ByMoves) && multiset(vs) == multiset(groups[k].variations)
    ensures groups[k].key == k && IsEntry(lib, lines, groups[k].(variations := vs))
  {
    assert GroupedAt(lib, lines, groups, k);
    var e := groups[k].(variations := vs);
    assert e.(variations := groups[k].variations) == groups[k];
  }

  /** Rearranging variations keeps every sum over them. */
  lemma {:induction false} TotalPermuted(a: seq<Variation>, b: seq<Variation>, f: Variation -> int)
    requires multiset(a) == multiset(b)
    ensures Total(a, f) == Total(b, f)
    decreases |a|
  {
    if a == [] {
      assert b == [] by {
        assert |multiset(b)| == |b|;
      }
    } else {
      var last := a[|a| - 1];
      assert last in multiset(b);
      var i :| 0 <= i < |b| && b[i] == last;
      WithoutLast(a);
      Without(b, i);
      TotalWithout(b, i, f);
      TotalPermuted(a[..|a| - 1], b[..i] + b[i + 1..], f);
    }
  }

  lemma TotalWithout(s: seq<Variation>, i: nat, f: Variation -> int)
    requires i < |s|
    ensures Total(s, f) == Total(s[..i] + s[i + 1..], f) + f(s[i])
  {
    SplitAt(s, i);
    TotalMiddle(s[..i], s[i], s[i + 1..], f);
  }

  lemma TotalMiddle(a: seq<Variation>, x: Variation, b: seq<Variation>, f: Variation -> int)
    ensures Total(a + [x] + b, f) == Total(a + b, f) + f(x)
  {
    TotalJoin(a + [x], b, f);
    TotalJoin(a, b, f);
    assert (a + [x])[..|a|] == a;
  }

  lemma {:induction false} TotalJoin(a: seq<Variation>, b: seq<Variation>, f: Variation -> int)
    ensures Total(a + b, f) == Total(a, f) + Total(b, f)
  {
    if b == [] {
      assert a + b == a;
    } else {
      TotalJoin(a, b[..|b| - 1], f);
      assert (a + b)[..|a + b| - 1] == a + b[..|b| - 1];
    }
  }

  /** Entries with different keys never tie. */
  lemma KeysDecide(lib: Library, lines: seq<Path>, keys: set<string>, entries: seq<Entry>)
    requires Arranged(lib, lines, keys, entries)
    ensures Decided(entries, ByKey)
  {
    LessIsStrictTotal();
    forall i, j | 0 <= i < j < |entries| ensures ByKey(entries[i], entries[j]) || ByKey(entries[j], entries[i]) {
      assert entries[i] in entries && entries[j] in entries;
      SortKeyIsKey(lib, lines, entries[i]);
      SortKeyIsKey(lib, lines, entries[j]);
    }
  }

  /** Rearranged entries are still one for each key. */
  lemma ArrangedPermuted(lib: Library, lines: seq<Path>, keys: set<string>, entries: seq<Entry>, sorted: seq<Entry>)
    requires Arranged(lib, lines, keys, entries) && Sorted(sorted, ByKey)
    requires multiset(sorted) == multiset(entries)
    ensures Arranged(lib, lines, keys, sorted)
  {
    forall e ensures e in sorted <==> e in entries {
      assert e in sorted <==> e in multiset(sorted);
    }
    forall k | k in keys ensures HasKey(sorted, k) {
      assert HasKey(entries, k);
    }
    forall i, j | 0 <= i < j < |sorted| ensures sorted[i].key != sorted[j].key {
      OrdersAreWeak();
      assert ByKey(sorted[i], sorted[j]) && !ByKey(sorted[i], sorted[i]);
      assert sorted[i] in sorted && sorted[j] in sorted;
    }
  }

  lemma FinishCatalog(
      lib: Library, lines: seq<Path>, groups: map<string, Entry>, entries: seq<Entry>, sorted: seq<Entry>)
    requires Grouped(lib, lines, groups) && Arranged(lib, lines, groups.Keys, entries)
    requires multiset(sorted) == multiset(entries) && Ordered(sorted, ByKey)
    ensures IsCatalog(lib, lines, sorted)
  {
    OrdersAreWeak();
    KeysDecide(lib, lines, groups.Keys, entries);
    DecidedIsSorted(entries, sorted, ByKey);
    ArrangedPermuted(lib, lines, groups.Keys, entries, sorted);
    forall e | e in sorted ensures Keyed(lib, lines, e.key) != [] {
      assert GroupedAt(lib, lines, groups, e.key);
    }
    forall k | Keyed(lib, lines, k) != [] ensures HasKey(sorted, k) {
      assert GroupedAt(lib, lines, groups, k);
    }
  }

}
