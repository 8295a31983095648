/** What a finished catalog holds, field by field, in terms of the book it was built from. */
module CatalogContents {
  import opened Lexicographic
  import opened OpeningCatalog
  import opened OpeningTheorems
  import opened OpeningWalk
  import opened Options
  import opened Sorting
  import opened Text

  /** Missing limits are twelve plies and weight one; given ones are kept. */
  lemma LimitsMean(maxPly: int, minWeight: nat)
    ensures var o := EffectiveLimits(maxPly, minWeight);
            && (maxPly > 0 ==> o.maxPly == maxPly) && (maxPly <= 0 ==> o.maxPly == 12)
            && (minWeight > 0 ==> o.minWeight == minWeight) && (minWeight == 0 ==> o.minWeight == 1)
  {
  }

  // ----- One line -----

  /** The book offers this entry after the path, it is heavy enough and legal, and the move records it. */
  ghost predicate Recorded(lib: Library, o: Limits, p: Path, m: LineMove, e: BookEntry) {
    && lib.find(Tokens(p)).Some? && e in lib.find(Tokens(p)).value
    && e.weight >= o.minWeight && lib.legal(Tokens(p), e.move)
    && m.ply == |p| + 1 && m.color == (if |p| % 2 == 0 then "white" else "black")
    && m.move == e.move && m.san == lib.san(Tokens(p), e.move) && m.weight == e.weight
  }

  ghost predicate IsRecorded(lib: Library, o: Limits, p: Path, m: LineMove) {
    exists e :: Recorded(lib, o, p, m, e)
  }

  /** Every move is an offer of the book, and at the end the depth is used up or no offer is heavy enough. */
  ghost predicate WholeLine(lib: Library, o: Limits, l: Path) {
    && |l| <= o.maxPly
    && (forall i :: 0 <= i < |l| ==> IsRecorded(lib, o, l[..i], l[i]))
    && (|l| == o.maxPly || (lib.find(Tokens(l)).Some? &&
                            forall e :: e in lib.find(Tokens(l)).value ==> e.weight < o.minWeight))
  }

  lemma OfferedIff(lib: Library, o: Limits, p: Path, m: LineMove)
    ensures Offered(lib, o, p, m) <==> IsRecorded(lib, o, p, m)
  {
    if Offered(lib, o, p, m) {
      var e :| e in Choices(lib, o, p).value && lib.legal(Tokens(p), e.move) && m == Step(lib, p, e);
      assert Recorded(lib, o, p, m, e);
    }
    if e :| Recorded(lib, o, p, m, e) {
      assert e in Choices(lib, o, p).value;
      assert m == Step(lib, p, e);
    }
  }

  lemma NothingHeavy(lib: Library, o: Limits, p: Path)
    ensures Choices(lib, o, p) == Some([]) <==>
            lib.find(Tokens(p)).Some? && forall e :: e in lib.find(Tokens(p)).value ==> e.weight < o.minWeight
  {
    if lib.find(Tokens(p)).Some? {
      var es := lib.find(Tokens(p)).value;
      var none: seq<BookEntry> := [];
      if Heavy(es, o.minWeight) != none {
        assert Heavy(es, o.minWeight)[0] in Heavy(es, o.minWeight);
      }
    }
  }

  /** The walk from the start position files exactly the whole lines. */
  lemma WalkFilesWholeLines(lib: Library, o: Limits, l: Path)
    requires Walk(lib, o, []).Some?
    ensures l in Walk(lib, o, []).value <==> WholeLine(lib, o, l)
  {
    WalkFilesMaximalPaths(lib, o, [], l);
    NothingHeavy(lib, o, l);
    assert [] <= l;
    if BookPath(lib, o, l) {
      forall i | 0 <= i < |l| ensures IsRecorded(lib, o, l[..i], l[i]) {
        OfferedIff(lib, o, l[..i], l[i]);
      }
    }
    if WholeLine(lib, o, l) {
      forall i | 0 <= i < |l| ensures Offered(lib, o, l[..i], l[i]) {
        OfferedIff(lib, o, l[..i], l[i]);
      }
    }
  }

  // ----- The order of the lines -----

  /** Filtering keeps the book's order. */
  lemma {:induction false} HeavyJoin(a: seq<BookEntry>, b: seq<BookEntry>, minWeight: nat)
    ensures Heavy(a + b, minWeight) == Heavy(a, minWeight) + Heavy(b, minWeight)
  {
    if a == [] {
      assert a + b == b && Heavy(a, minWeight) + Heavy(b, minWeight) == Heavy(b, minWeight);
    } else {
      assert (a + b)[1..] == a[1..] + b;
      HeavyJoin(a[1..], b, minWeight);
      var first := if a[0].weight >= minWeight then [a[0]] else [];
      assert (a + b)[0] == a[0];
      assert first + (Heavy(a[1..], minWeight) + Heavy(b, minWeight)) ==
             first + Heavy(a[1..], minWeight) + Heavy(b, minWeight);
    }
  }

  /** The lines continue the path with different entries, the first line with the earlier one. */
  ghost predicate Split(lib: Library, p: Path, es: seq<BookEntry>, l: Path, r: Path) {
    exists a: nat, b: nat :: a < b < |es| && p + [Step(lib, p, es[a])] <= l && p + [Step(lib, p, es[b])] <= r
  }

  /** Where the lines part, the first takes an entry that stands earlier in the book. */
  ghost predicate Earlier(lib: Library, o: Limits, l: Path, r: Path) {
    exists q :: Choices(lib, o, q).Some? && Split(lib, q, Choices(lib, o, q).value, l, r)
  }

  /** The lines below one entry of the book come before those below a later one. */
  lemma BranchesInOrder(lib: Library, o: Limits, p: Path, k: nat, l: Path, r: Path)
    requires BookPath(lib, o, p) && |p| < o.maxPly && Choices(lib, o, p).Some? && k < |Choices(lib, o, p).value|
    requires var es := Choices(lib, o, p).value;
             && WalkEach(lib, o, p, es[k..]).Some? && r in WalkEach(lib, o, p, es[k + 1..]).value
             && l in Walk(lib, o, p + [Step(lib, p, es[k])]).value
    ensures Earlier(lib, o, l, r)
  {
    var es := Choices(lib, o, p).value;
    var rest := es[k + 1..];
    StartsBelow(lib, o, p, es[k], l);
    WalkEachGathers(lib, o, p, rest, r);
    WalkEachFails(lib, o, p, rest);
    var e :| e in rest && r in Walk(lib, o, p + [Step(lib, p, e)]).value;
    StartsBelow(lib, o, p, e, r);
    var b: nat :| b < |rest| && rest[b] == e;
    assert es[k + 1 + b] == e;
    assert Split(lib, p, es, l, r);
  }

  lemma StartsBelow(lib: Library, o: Limits, p: Path, e: BookEntry, l: Path)
    requires BookPath(lib, o, p) && |p| < o.maxPly && Choices(lib, o, p).Some? && e in Choices(lib, o, p).value
    requires lib.legal(Tokens(p), e.move)
    requires Walk(lib, o, p + [Step(lib, p, e)]).Some? && l in Walk(lib, o, p + [Step(lib, p, e)]).value
    ensures BookPath(lib, o, p + [Step(lib, p, e)]) && p + [Step(lib, p, e)] <= l
  {
    assert Offered(lib, o, p, Step(lib, p, e));
    BookPathStep(lib, o, p, Step(lib, p, e));
    WalkFilesMaximalPaths(lib, o, p + [Step(lib, p, e)], l);
  }

  ghost predicate InBookOrder(lib: Library, o: Limits, lines: seq<Path>) {
    forall i, j | 0 <= i < j < |lines| :: Earlier(lib, o, lines[i], lines[j])
  }

  lemma OrdersJoin(lib: Library, o: Limits, a: seq<Path>, b: seq<Path>)
    requires InBookOrder(lib, o, a) && InBookOrder(lib, o, b)
    requires forall l, r :: l in a && r in b ==> Earlier(lib, o, l, r)
    ensures InBookOrder(lib, o, a + b)
  {
    forall i, j | 0 <= i < j < |a + b| ensures Earlier(lib, o, (a + b)[i], (a + b)[j]) {
      if i < |a| <= j {
        assert a[i] in a && b[j - |a|] in b;
      }
    }
  }

  /** The walk files its lines in the order of the book. */
  lemma {:induction false} WalkIsOrdered(lib: Library, o: Limits, p: Path)
    requires BookPath(lib, o, p) && Walk(lib, o, p).Some?
    ensures InBookOrder(lib, o, Walk(lib, o, p).value)
    decreases o.maxPly - |p|, 1, 0
  {
    if !Maximal(lib, o, p) {
      var es := Choices(lib, o, p).value;
      assert es[0..] == es;
      WalkEachIsOrdered(lib, o, p, 0);
    }
  }

  lemma {:induction false} WalkEachIsOrdered(lib: Library, o: Limits, p: Path, k: nat)
    requires BookPath(lib, o, p) && |p| < o.maxPly && Choices(lib, o, p).Some? && k <= |Choices(lib, o, p).value|
    requires WalkEach(lib, o, p, Choices(lib, o, p).value[k..]).Some?
    ensures InBookOrder(lib, o, WalkEach(lib, o, p, Choices(lib, o, p).value[k..]).value)
    decreases o.maxPly - |p|, 0, |Choices(lib, o, p).value| - k
  {
    var es := Choices(lib, o, p).value;
    if k < |es| {
      assert es[k..][0] == es[k] && es[k..][1..] == es[k + 1..];
      var head := p + [Step(lib, p, es[k])];
      assert Offered(lib, o, p, Step(lib, p, es[k]));
      BookPathStep(lib, o, p, Step(lib, p, es[k]));
      var first, rest := Walk(lib, o, head).value, WalkEach(lib, o, p, es[k + 1..]).value;
      WalkIsOrdered(lib, o, head);
      WalkEachIsOrdered(lib, o, p, k + 1);
      forall l, r | l in first && r in rest ensures Earlier(lib, o, l, r) {
        BranchesInOrder(lib, o, p, k, l, r);
      }
      OrdersJoin(lib, o, first, rest);
    }
  }

  // ----- Groups -----

  /** The code and title an opening classification gives; both empty when there is none. */
  lemma Classification(lib: Library, p: Path, code: string, title: string)
    ensures lib.eco(Tokens(p)) == Some((code, title)) ==> Code(lib, p) == code && Title(lib, p) == title
    ensures lib.eco(Tokens(p)).None? ==> Code(lib, p) == "" && Title(lib, p) == ""
  {
  }

  /** A line's group is its code, or its moves separated by spaces when it has none. */
  ghost predicate Belongs(lib: Library, p: Path, key: string) {
    match lib.eco(Tokens(p))
    case None => key == Join(Tokens(p), " ")
    case Some((code, _)) => key == if code != "" then code else Join(Tokens(p), " ")
  }

  ghost predicate HasCode(lib: Library, p: Path) {
    lib.eco(Tokens(p)).Some? && lib.eco(Tokens(p)).value.0 != ""
  }

  ghost predicate HasTitle(lib: Library, p: Path, title: string) {
    title != "" && lib.eco(Tokens(p)).Some? && lib.eco(Tokens(p)).value.1 == title
  }

  /** The title of the first line that has one. */
  ghost predicate FirstTitled(lib: Library, lines: seq<Path>, i: nat, title: string) {
    i < |lines| && HasTitle(lib, lines[i], title) && forall j, t :: 0 <= j < i ==> !HasTitle(lib, lines[j], t)
  }

  lemma {:induction false} FirstTitleIs(lib: Library, lines: seq<Path>)
    ensures FirstTitle(lib, lines) == "" ==> forall p, t :: p in lines ==> !HasTitle(lib, p, t)
    ensures FirstTitle(lib, lines) != "" ==> exists i: nat :: FirstTitled(lib, lines, i, FirstTitle(lib, lines))
  {
    if lines != [] {
      var front, last := lines[..|lines| - 1], lines[|lines| - 1];
      FirstTitleIs(lib, front);
      assert lines == front + [last];
      if FirstTitle(lib, front) == "" {
        forall j, t | 0 <= j < |front| ensures !HasTitle(lib, lines[j], t) {
          assert front[j] in front;
        }
        assert Title(lib, last) != "" ==> FirstTitled(lib, lines, |front|, Title(lib, last));
      } else {
        var i: nat :| FirstTitled(lib, front, i, FirstTitle(lib, front));
        forall j, t | 0 <= j < i ensures !HasTitle(lib, lines[j], t) {
          assert lines[j] == front[j];
        }
        assert FirstTitled(lib, lines, i, FirstTitle(lib, front));
      }
    }
  }

  /** The weight of a line is that of its moves. */
  lemma {:induction false} WeightJoins(a: Path, b: Path)
    ensures PathWeight(a + b) == PathWeight(a) + PathWeight(b)
    ensures forall m: LineMove :: PathWeight([m]) == m.weight && PathWeight([]) == 0
  {
    forall m: LineMove ensures PathWeight([m]) == m.weight {
      assert [m][..0] == [];
      assert PathWeight([m][..0]) == 0;
    }
    if b == [] {
      assert a + b == a;
    } else {
      WeightJoins(a, b[..|b| - 1]);
      assert (a + b)[..|a + b| - 1] == a + b[..|b| - 1];
    }
  }

  /** A variation of an entry is a whole line of its group with its position and weight. */
  ghost predicate VariationMeans(lib: Library, o: Limits, key: string, v: Variation) {
    && v.moves != [] && WholeLine(lib, o, v.moves) && Belongs(lib, v.moves, key)
    && v.finalFen == lib.fen(Tokens(v.moves)) && v.totalWeight == PathWeight(v.moves)
  }

  /** The code is the key if a line of the group has a code; the title is that of the first line that has one. */
  ghost predicate HeaderMeans(lib: Library, members: seq<Path>, e: Entry) {
    && (e.ecoCode == "" || e.ecoCode == e.key)
    && (e.ecoCode != "" <==> exists p :: p in members && HasCode(lib, p))
    && (e.ecoTitle == "" ==> forall p, t :: p in members ==> !HasTitle(lib, p, t))
    && (e.ecoTitle != "" ==> exists i: nat :: FirstTitled(lib, members, i, e.ecoTitle))
  }

  /** Variations stand in the order of their moves, those with the same moves in that of their positions. */
  ghost predicate InMoveOrder(vs: seq<Variation>) {
    forall i, j | 0 <= i < j < |vs| ::
      var a, b := Join(Tokens(vs[i].moves), " "), Join(Tokens(vs[j].moves), " ");
      !Less(b, a) && (a == b ==> !Less(vs[j].finalFen, vs[i].finalFen))
  }

  lemma VariationIs(lib: Library, o: Limits, es: seq<Entry>, e: Entry, v: Variation)
    requires BuiltFrom(lib, o, es) && e in es && v in e.variations
    ensures VariationMeans(lib, o, e.key, v)
  {
    CatalogHoldsOnlyFullLines(lib, o, es, e, v);
    FullLines(lib, o, v.moves);
    WalkFilesWholeLines(lib, o, v.moves);
  }

  lemma HeaderIs(lib: Library, o: Limits, es: seq<Entry>, e: Entry)
    requires BuiltFrom(lib, o, es) && e in es
    ensures HeaderMeans(lib, Keyed(lib, Walk(lib, o, []).value, e.key), e)
  {
    var lines := Walk(lib, o, []).value;
    var members := Keyed(lib, lines, e.key);
    assert IsEntry(lib, lines, e);
    FirstTitleIs(lib, members);
    if e.ecoCode != "" {
      var p :| p in members && Code(lib, p) != "";
      assert HasCode(lib, p);
    }
    if p :| p in members && HasCode(lib, p) {
      assert Code(lib, p) != "";
      KeyedMembers(lib, lines, e.key, p);
    }
  }

  lemma MovesInOrder(lib: Library, o: Limits, es: seq<Entry>, e: Entry)
    requires BuiltFrom(lib, o, es) && e in es
    ensures InMoveOrder(e.variations)
  {
    LessIsStrictTotal();
    assert IsEntry(lib, Walk(lib, o, []).value, e);
    var vs := e.variations;
    forall i, j | 0 <= i < j < |vs|
      ensures var a, b := Join(Tokens(vs[i].moves), " "), Join(Tokens(vs[j].moves), " ");
              !Less(b, a) && (a == b ==> !Less(vs[j].finalFen, vs[i].finalFen))
    {
      assert !ByMoves(vs[j], vs[i]);
    }
  }

  /**
   * The finished catalog: entries in the order of their keys, each with its code, title and variations; and every
   * whole line but the empty one is filed in the entry of its group.
   */
  lemma CatalogMeans(lib: Library, o: Limits, es: seq<Entry>)
    requires BuiltFrom(lib, o, es)
    ensures forall i, j :: 0 <= i < j < |es| ==> Less(es[i].key, es[j].key)
    ensures forall e :: e in es ==>
              && e.variations != [] && InMoveOrder(e.variations)
              && HeaderMeans(lib, Keyed(lib, Walk(lib, o, []).value, e.key), e)
    ensures forall e, v :: e in es && v in e.variations ==> VariationMeans(lib, o, e.key, v)
    ensures forall l :: l != [] && WholeLine(lib, o, l) ==> exists e :: e in es && Files(lib, e, l)
  {
    var lines := Walk(lib, o, []).value;
    forall i, j | 0 <= i < j < |es| ensures Less(es[i].key, es[j].key) {
      assert es[i] in es && es[j] in es;
      SortKeyIsKey(lib, lines, es[i]);
      SortKeyIsKey(lib, lines, es[j]);
      assert ByKey(es[i], es[j]);
    }
    forall e | e in es
      ensures e.variations != [] && InMoveOrder(e.variations) && HeaderMeans(lib, Keyed(lib, lines, e.key), e)
    {
      HeaderIs(lib, o, es, e);
      MovesInOrder(lib, o, es, e);
      assert IsEntry(lib, lines, e);
      assert |multiset(e.variations)| == |multiset(Variations(lib, Keyed(lib, lines, e.key)))|;
    }
    forall e, v | e in es && v in e.variations ensures VariationMeans(lib, o, e.key, v) {
      VariationIs(lib, o, es, e, v);
    }
    forall l | l != [] && WholeLine(lib, o, l) ensures exists e :: e in es && Files(lib, e, l) {
      WalkFilesWholeLines(lib, o, l);
      var e := EntryOfLine(lib, o, es, l);
    }
  }

  /** The entry is the group of the line and holds it. */
  ghost predicate Files(lib: Library, e: Entry, l: Path) {
    Belongs(lib, l, e.key) && exists v :: v in e.variations && v.moves == l
  }

  lemma EntryOfLine(lib: Library, o: Limits, es: seq<Entry>, l: Path) returns (e: Entry)
    requires BuiltFrom(lib, o, es) && l != [] && l in Walk(lib, o, []).value
    ensures e in es && Files(lib, e, l)
  {
    var lines := Walk(lib, o, []).value;
    FullLines(lib, o, l);
    e := LineIsFiled(lib, o, es, l);
    CatalogCounts(lib, o, es, e, l);
    assert VariationOf(lib, l) in multiset(e.variations);
    assert VariationOf(lib, l).moves == l;
  }

  /** The members of a group are the whole lines that belong to it. */
  lemma MembersAre(lib: Library, o: Limits, key: string, l: Path)
    requires Walk(lib, o, []).Some?
    ensures l in Keyed(lib, Walk(lib, o, []).value, key) <==> l != [] && WholeLine(lib, o, l) && Belongs(lib, l, key)
  {
    KeyedMembers(lib, Walk(lib, o, []).value, key, l);
    WalkFilesWholeLines(lib, o, l);
  }
}
