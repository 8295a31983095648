/** The catalog answers what the book says. */
module CatalogAgreement {
  import opened CatalogLookup
  import opened OpeningCatalog
  import opened OpeningTheorems
  import opened OpeningWalk
  import opened Options
  import opened Text

  /** Book moves are already written the way the lookup writes moves. */
  ghost predicate CanonicalMoves(lib: Library) {
    forall t, e :: lib.find(t).Some? && e in lib.find(t).value ==> Normal(e.move) == e.move && e.move != ""
  }

  /** The history plays the moves of the path, up to spaces and letter case. */
  ghost predicate SameMoves(p: Path, h: seq<string>) {
    |h| == |p| && PrefixMatches(p, h)
  }

  /** The line agrees with the history and goes on with the move. */
  predicate Passes(l: Path, h: seq<string>, m: string) {
    |h| < |l| && PrefixMatches(l, h) && l[|h|].move == m
  }

  function LinesThrough(lines: seq<Path>, h: seq<string>, m: string): nat {
    if lines == [] then 0
    else LinesThrough(lines[..|lines| - 1], h, m) + if Passes(lines[|lines| - 1], h, m) then 1 else 0
  }

  lemma SideIsNormal(ply: nat)
    ensures NormalColor(SideToMove(ply)) == SideToMove(ply)
  {
    SolidIsTrimmed("white");
    SolidIsTrimmed("black");
    assert Lower("white") == "white" && Lower("black") == "black";
  }

  /** Two book paths that agree with one history are one path. */
  lemma HistoryDeterminesPath(lib: Library, o: Limits, p: Path, q: Path, h: seq<string>)
    requires DistinctMoves(lib) && CanonicalMoves(lib) && BookPath(lib, o, p) && BookPath(lib, o, q)
    requires SameMoves(p, h) && SameMoves(q, h)
    ensures p == q
  {
    forall i | 0 <= i < |p| ensures Tokens(p)[i] == Tokens(q)[i] {
    }
    DistinctMovesSuffice(lib, o);
    TokensDetermine(lib, o, p, q);
  }

  /** The move a book line makes after the history is the book's entry there. */
  lemma PassingLine(lib: Library, o: Limits, p: Path, l: Path, h: seq<string>)
    requires DistinctMoves(lib) && CanonicalMoves(lib) && BookPath(lib, o, p) && BookPath(lib, o, l)
    requires SameMoves(p, h) && |h| < |l| && PrefixMatches(l, h)
    ensures l[..|h|] == p && Offered(lib, o, p, l[|h|])
  {
    BookPathPrefix(lib, o, l, |h|);
    HistoryDeterminesPath(lib, o, p, l[..|h|], h);
    assert Offered(lib, o, l[..|h|], l[|h|]);
  }

  /** What a line of the book adds to a move's weight: the book weight if it passes through, nothing otherwise. */
  lemma LineShare(lib: Library, o: Limits, p: Path, l: Path, h: seq<string>, e: BookEntry)
    requires DistinctMoves(lib) && CanonicalMoves(lib) && o.minWeight > 0
    requires BookPath(lib, o, p) && BookPath(lib, o, l) && SameMoves(p, h)
    requires Offered(lib, o, p, Step(lib, p, e))
    ensures Share(VariationOf(lib, l), h, e.move) == if Passes(l, h, e.move) then e.weight else 0
  {
    if |h| < |l| && PrefixMatches(l, h) {
      PassingLine(lib, o, p, l, h);
      BookPathNumbering(lib, o, l, |h|);
      SideIsNormal(|h|);
    }
  }

  lemma OneMore(w: int, n: int)
    ensures w * (n + 1) == w * n + w
  {
  }

  lemma {:induction false} LineSumIsCount(lib: Library, lines: seq<Path>, h: seq<string>, m: string, w: int)
    requires forall l :: l in lines ==> Share(VariationOf(lib, l), h, m) == if Passes(l, h, m) then w else 0
    ensures LineSum(lib, lines, ShareOf(h, m)) == w * LinesThrough(lines, h, m)
  {
    if lines != [] {
      var last := lines[|lines| - 1];
      assert last in lines;
      assert forall l :: l in lines[..|lines| - 1] ==> l in lines;
      LineSumIsCount(lib, lines[..|lines| - 1], h, m, w);
      OneMore(w, LinesThrough(lines[..|lines| - 1], h, m));
      assert last == [] ==> !Passes(last, h, m);
    }
  }

  lemma {:induction false} CountedLine(lines: seq<Path>, h: seq<string>, m: string, l: Path)
    requires l in lines && Passes(l, h, m)
    ensures LinesThrough(lines, h, m) > 0
  {
    if l != lines[|lines| - 1] {
      assert lines == lines[..|lines| - 1] + [lines[|lines| - 1]];
      CountedLine(lines[..|lines| - 1], h, m, l);
    }
  }

  lemma {:induction false} SumHasPart(es: seq<Entry>, h: seq<string>, m: string)
    ensures SumOver(es, ShareOf(h, m)) >= 0
    ensures SumOver(es, ShareOf(h, m)) > 0 <==> exists e :: e in es && Tally(e.variations, h, m) > 0
  {
    if es != [] {
      var last := es[|es| - 1];
      var front := es[..|es| - 1];
      SumHasPart(front, h, m);
      TotalNonNegative(last.variations, h, m);
      assert es == front + [last];
      assert last in es;
      assert forall e :: e in front ==> e in es;
      assert forall e :: e in es ==> e in front || e == last;
    }
  }

  lemma ChoiceIsOffered(lib: Library, o: Limits, p: Path, e: BookEntry)
    requires Walk(lib, o, []).Some? && BookPath(lib, o, p) && |p| < o.maxPly
    ensures Choices(lib, o, p).Some?
    ensures e in Choices(lib, o, p).value ==> Offered(lib, o, p, Step(lib, p, e))
  {
    WalkFailsWhenStuck(lib, o, []);
    assert [] <= p && !Stuck(lib, o, p);
  }

  /**
   * After a book history, the weights the catalog's entries give to a book move add up to its book weight
   * times the number of recorded lines that make the move there, and some line does.
   */
  lemma LookupWeighsBookMoves(
      lib: Library, o: Limits, es: seq<Entry>, p: Path, h: seq<string>, e: BookEntry)
    requires DistinctMoves(lib) && CanonicalMoves(lib) && o.minWeight > 0 && BuiltFrom(lib, o, es)
    requires BookPath(lib, o, p) && |p| < o.maxPly && SameMoves(p, h)
    requires Choices(lib, o, p).Some? && e in Choices(lib, o, p).value
    ensures SumOver(es, ShareOf(h, e.move)) == e.weight * LinesThrough(Walk(lib, o, []).value, h, e.move)
    ensures LinesThrough(Walk(lib, o, []).value, h, e.move) > 0
  {
    var lines := Walk(lib, o, []).value;
    ChoiceIsOffered(lib, o, p, e);
    SumConserved(lib, o, es, ShareOf(h, e.move));
    forall l | l in lines
      ensures Share(VariationOf(lib, l), h, e.move) == if Passes(l, h, e.move) then e.weight else 0
    {
      WalkFilesMaximalPaths(lib, o, [], l);
      LineShare(lib, o, p, l, h, e);
    }
    LineSumIsCount(lib, lines, h, e.move, e.weight);
    BookPathStep(lib, o, p, Step(lib, p, e));
    var l := EveryPathExtends(lib, o, p + [Step(lib, p, e)]);
    assert l[..|p|] == p && l[|p|] == Step(lib, p, e);
    CountedLine(lines, h, e.move, l);
  }

  /** A move with weight continues some recorded line through the history. */
  lemma WeightComesFromALine(lib: Library, o: Limits, es: seq<Entry>, d: Entry, h: seq<string>, m: string)
      returns (l: Path)
    requires BuiltFrom(lib, o, es) && d in es && Tally(d.variations, h, m) > 0
    ensures BookPath(lib, o, l) && |h| < |l| && PrefixMatches(l, h) && Normal(l[|h|].move) == m
  {
    var v := SomeShare(d.variations, h, m);
    CatalogHoldsOnlyFullLines(lib, o, es, d, v);
    l := v.moves;
  }

  lemma {:induction false} SomeShare(vs: seq<Variation>, h: seq<string>, m: string) returns (v: Variation)
    requires Tally(vs, h, m) > 0
    ensures v in vs && Share(v, h, m) > 0
  {
    var last := vs[|vs| - 1];
    if Share(last, h, m) > 0 {
      v := last;
    } else {
      v := SomeShare(vs[..|vs| - 1], h, m);
    }
  }

  /** After a book history, the moves the entries answer with are exactly the book's heavy moves there. */
  lemma LookupFindsBookMoves(
      lib: Library, o: Limits, es: seq<Entry>, answers: seq<seq<Result>>, p: Path, h: seq<string>, m: string)
    requires DistinctMoves(lib) && CanonicalMoves(lib) && o.minWeight > 0 && BuiltFrom(lib, o, es)
    requires |answers| == |es| && forall i :: 0 <= i < |es| ==> Answer(answers[i], es[i].variations, h)
    requires BookPath(lib, o, p) && |p| < o.maxPly && SameMoves(p, h) && Choices(lib, o, p).Some?
    ensures (exists i, r :: 0 <= i < |es| && r in answers[i] && r.move == m) <==>
            (exists e :: e in Choices(lib, o, p).value && e.move == m)
  {
    if i, r :| 0 <= i < |es| && r in answers[i] && r.move == m {
      assert Answer(answers[i], es[i].variations, h);
      var e := AnswerIsInBook(lib, o, es, es[i], p, h, m);
    }
    if e :| e in Choices(lib, o, p).value && e.move == m {
      var d := BookIsAnswered(lib, o, es, p, h, e);
      var i :| 0 <= i < |es| && es[i] == d;
      assert Answer(answers[i], es[i].variations, h);
      assert Result(m, Clamp(Tally(d.variations, h, m))) in answers[i];
    }
  }

  lemma AnswerIsInBook(lib: Library, o: Limits, es: seq<Entry>, d: Entry, p: Path, h: seq<string>, m: string)
      returns (e: BookEntry)
    requires DistinctMoves(lib) && CanonicalMoves(lib) && BuiltFrom(lib, o, es)
    requires BookPath(lib, o, p) && SameMoves(p, h) && Choices(lib, o, p).Some?
    requires d in es && Tally(d.variations, h, m) > 0
    ensures e in Choices(lib, o, p).value && e.move == m
  {
    var l := WeightComesFromALine(lib, o, es, d, h, m);
    PassingLine(lib, o, p, l, h);
    e :| e in Choices(lib, o, p).value && l[|h|] == Step(lib, p, e);
    assert Step(lib, p, e).move == e.move;
  }

  lemma BookIsAnswered(lib: Library, o: Limits, es: seq<Entry>, p: Path, h: seq<string>, e: BookEntry)
      returns (d: Entry)
    requires DistinctMoves(lib) && CanonicalMoves(lib) && o.minWeight > 0 && BuiltFrom(lib, o, es)
    requires BookPath(lib, o, p) && |p| < o.maxPly && SameMoves(p, h)
    requires Choices(lib, o, p).Some? && e in Choices(lib, o, p).value
    ensures d in es && Tally(d.variations, h, e.move) > 0
  {
    LookupWeighsBookMoves(lib, o, es, p, h, e);
    HeavyIsPositive(lib, o, p, e, LinesThrough(Walk(lib, o, []).value, h, e.move));
    SumHasPart(es, h, e.move);
    d :| d in es && Tally(d.variations, h, e.move) > 0;
  }

  lemma HeavyIsPositive(lib: Library, o: Limits, p: Path, e: BookEntry, n: nat)
    requires o.minWeight > 0 && n > 0 && Choices(lib, o, p).Some? && e in Choices(lib, o, p).value
    ensures e.weight * n > 0
  {
  }

  /** Off the book the catalog is silent: an answer with a move means the history follows a book path. */
  lemma LookupIsSilentOffBook(
      lib: Library, o: Limits, es: seq<Entry>, i: nat, answer: seq<Result>, h: seq<string>)
    requires BuiltFrom(lib, o, es) && i < |es| && Answer(answer, es[i].variations, h)
    ensures answer != [] ==> exists p :: BookPath(lib, o, p) && |p| < o.maxPly && SameMoves(p, h)
  {
    if answer != [] {
      assert answer[0] in answer;
      var l := WeightComesFromALine(lib, o, es, es[i], h, answer[0].move);
      BookPathPrefix(lib, o, l, |h|);
      assert SameMoves(l[..|h|], h);
    }
  }

  /** A book with one first move. */
  function ToyBook(): Library {
    Library(
      t => Some(if t == [] then [BookEntry("e2e4", 3)] else []),
      (t, m) => true, (t, m) => "e4", t => None, t => "")
  }

  lemma ToyBookWalk()
    ensures Walk(ToyBook(), Limits(1, 1), []) == Some([[LineMove(1, "white", "e2e4", "e4", 3)]])
  {
    var lib, o := ToyBook(), Limits(1, 1);
    var e := BookEntry("e2e4", 3);
    var start: Path := [];
    assert Tokens(start) == [];
    assert lib.find([]) == Some([e]);
    var none: seq<BookEntry> := [];
    assert [e][1..] == none && Heavy(none, 1) == none;
    assert Heavy([e], 1) == [e] + none;
    assert Heavy(lib.find([]).value, o.minWeight) == [e];
    assert Choices(lib, o, start) == Some([e]);
    var line: Path := start + [Step(lib, start, e)];
    assert line == [LineMove(1, "white", "e2e4", "e4", 3)];
    assert Walk(lib, o, line) == Some([line]);
    assert WalkEach(lib, o, start, [e][1..]) == Some([]);
    assert WalkEach(lib, o, start, [e]) == Some([line] + []);
    assert [line] + [] == [line];
    assert |start| < o.maxPly;
    assert Walk(lib, o, start) == WalkEach(lib, o, start, [e]);
  }

  /** The assumptions about books can be met by a book that has a line. */
  lemma ToyBookMeetsAssumptions()
    ensures DistinctMoves(ToyBook()) && CanonicalMoves(ToyBook()) && SolidMoves(ToyBook())
    ensures Walk(ToyBook(), Limits(1, 1), []) == Some([[LineMove(1, "white", "e2e4", "e4", 3)]])
  {
    ToyBookWalk();
    SolidIsTrimmed("e2e4");
    assert Lower("e2e4") == "e2e4";
    var lib := ToyBook();
    forall t, e | lib.find(t).Some? && e in lib.find(t).value ensures e.move == "e2e4" {
    }
  }
}
