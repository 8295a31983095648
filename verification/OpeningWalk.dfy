/** The bounded walk over the opening book: which lines it records. */
module OpeningWalk {
  import opened Options

  /** A book entry at a position: the move in UCI form and its weight. */
  datatype BookEntry = BookEntry(move: string, weight: nat)

  /** One move of a recorded line. */
  datatype LineMove = LineMove(ply: nat, color: string, move: string, san: string, weight: int)

  type Path = seq<LineMove>

  /**
   * The chess library and the book, as functions of the moves played from the start position.
   * `find` is None when the position cannot be hashed.
   */
  datatype Library = Library(
    find: seq<string> -> Option<seq<BookEntry>>,
    legal: (seq<string>, string) -> bool,
    san: (seq<string>, string) -> string,
    eco: seq<string> -> Option<(string, string)>,
    fen: seq<string> -> string
  )

  /** The depth and weight limits of a build. */
  datatype Limits = Limits(maxPly: nat, minWeight: nat)

  const DEFAULT_PLY: nat := 12

  /** Missing limits are replaced: twelve plies, weight one. */
  function EffectiveLimits(maxPly: int, minWeight: nat): (o: Limits)
    ensures o.maxPly > 0 && o.minWeight > 0
  {
    Limits(if maxPly <= 0 then DEFAULT_PLY else maxPly, if minWeight == 0 then 1 else minWeight)
  }

  function SideToMove(ply: nat): string {
    if ply % 2 == 0 then "white" else "black"
  }

  function Tokens(p: Path): (t: seq<string>)
    ensures |t| == |p|
  {
    seq(|p|, i requires 0 <= i < |p| => p[i].move)
  }

  /** The entries heavy enough to follow, in book order. */
  function Heavy(es: seq<BookEntry>, minWeight: nat): (r: seq<BookEntry>)
    ensures forall e :: e in r <==> e in es && e.weight >= minWeight
  {
    if es == [] then []
    else (if es[0].weight >= minWeight then [es[0]] else []) + Heavy(es[1..], minWeight)
  }

  function Step(lib: Library, p: Path, e: BookEntry): LineMove {
    LineMove(|p| + 1, SideToMove(|p|), e.move, lib.san(Tokens(p), e.move), e.weight)
  }

  /** The entries the walk follows after a path; None when the position has no hash. */
  function Choices(lib: Library, o: Limits, p: Path): Option<seq<BookEntry>> {
    match lib.find(Tokens(p))
    case None => None
    case Some(es) => Some(Heavy(es, o.minWeight))
  }

  /** The lines the walk files below a path, in order; None when the walk fails. */
  function Walk(lib: Library, o: Limits, p: Path): Option<seq<Path>>
    decreases o.maxPly - |p|, 1, 0
  {
    if |p| >= o.maxPly then Some([p])
    else
      match Choices(lib, o, p)
      case None => None
      case Some(es) => if es == [] then Some([p]) else WalkEach(lib, o, p, es)
  }

  function WalkEach(lib: Library, o: Limits, p: Path, es: seq<BookEntry>): Option<seq<Path>>
    requires |p| < o.maxPly
    decreases o.maxPly - |p|, 0, |es|
  {
    if es == [] then Some([])
    else if !lib.legal(Tokens(p), es[0].move) then None
    else
      match Walk(lib, o, p + [Step(lib, p, es[0])])
      case None => None
      case Some(first) =>
        match WalkEach(lib, o, p, es[1..])
        case None => None
        case Some(rest) => Some(first + rest)
  }

  // ----- What the walk is for, said without the walk -----

  /** Some entry the book offers after the path, heavy enough and legal, is this move. */
  ghost predicate Offered(lib: Library, o: Limits, p: Path, m: LineMove) {
    && Choices(lib, o, p).Some?
    && exists e :: e in Choices(lib, o, p).value && lib.legal(Tokens(p), e.move) && m == Step(lib, p, e)
  }

  /** A line that plays an offered book move at every ply, within the depth limit. */
  ghost predicate BookPath(lib: Library, o: Limits, p: Path) {
    |p| <= o.maxPly && forall i :: 0 <= i < |p| ==> Offered(lib, o, p[..i], p[i])
  }

  /** Nothing more to follow: the depth is used up or the book offers nothing heavy enough. */
  predicate Maximal(lib: Library, o: Limits, p: Path) {
    |p| >= o.maxPly || Choices(lib, o, p) == Some([])
  }

  /** The walk cannot go on from here: no hash, or an entry that is not a legal move. */
  ghost predicate Stuck(lib: Library, o: Limits, p: Path) {
    && |p| < o.maxPly
    && (Choices(lib, o, p).None? || exists e :: e in Choices(lib, o, p).value && !lib.legal(Tokens(p), e.move))
  }

  lemma BookPathStep(lib: Library, o: Limits, p: Path, m: LineMove)
    requires BookPath(lib, o, p) && |p| < o.maxPly
    ensures BookPath(lib, o, p + [m]) <==> Offered(lib, o, p, m)
  {
    var q := p + [m];
    assert q[..|p|] == p;
    forall i | 0 <= i < |p| ensures Offered(lib, o, q[..i], q[i]) {
      assert q[..i] == p[..i];
    }
  }

  lemma BookPathPrefix(lib: Library, o: Limits, q: Path, n: nat)
    requires BookPath(lib, o, q) && n <= |q|
    ensures BookPath(lib, o, q[..n])
  {
    forall i | 0 <= i < n ensures Offered(lib, o, q[..n][..i], q[..n][i]) {
      assert q[..n][..i] == q[..i];
    }
  }

  lemma {:induction false} WalkEachFails(lib: Library, o: Limits, p: Path, es: seq<BookEntry>)
    requires |p| < o.maxPly
    ensures WalkEach(lib, o, p, es).None? <==>
            exists e :: e in es && (!lib.legal(Tokens(p), e.move) || Walk(lib, o, p + [Step(lib, p, e)]).None?)
    decreases |es|
  {
    if es != [] {
      WalkEachFails(lib, o, p, es[1..]);
      assert es == [es[0]] + es[1..];
    }
  }

  lemma {:induction false} WalkEachGathers(lib: Library, o: Limits, p: Path, es: seq<BookEntry>, l: Path)
    requires |p| < o.maxPly && WalkEach(lib, o, p, es).Some?
    ensures forall e :: e in es ==> lib.legal(Tokens(p), e.move) && Walk(lib, o, p + [Step(lib, p, e)]).Some?
    ensures l in WalkEach(lib, o, p, es).value <==>
            exists e :: e in es && l in Walk(lib, o, p + [Step(lib, p, e)]).value
    decreases |es|
  {
    if es != [] {
      WalkEachGathers(lib, o, p, es[1..], l);
      assert es == [es[0]] + es[1..];
    }
  }

  lemma MaximalEnds(lib: Library, o: Limits, p: Path, l: Path)
    requires p <= l && BookPath(lib, o, l)
    ensures p == l || !Maximal(lib, o, p)
  {
    assert l[..|p|] == p;
    if |p| < |l| {
      assert Offered(lib, o, p, l[|p|]);
    }
  }

  /** The walk files exactly the maximal book paths below its starting point. */
  lemma {:induction false} WalkFilesMaximalPaths(lib: Library, o: Limits, p: Path, l: Path)
    requires BookPath(lib, o, p) && Walk(lib, o, p).Some?
    ensures l in Walk(lib, o, p).value <==> p <= l && BookPath(lib, o, l) && Maximal(lib, o, l)
    decreases o.maxPly - |p|
  {
    if Maximal(lib, o, p) {
      if p <= l && BookPath(lib, o, l) {
        MaximalEnds(lib, o, p, l);
      }
    } else {
      var es := Choices(lib, o, p).value;
      WalkEachGathers(lib, o, p, es, l);
      forall e | e in es
        ensures BookPath(lib, o, p + [Step(lib, p, e)])
        ensures l in Walk(lib, o, p + [Step(lib, p, e)]).value <==>
                p + [Step(lib, p, e)] <= l && BookPath(lib, o, l) && Maximal(lib, o, l)
      {
        BookPathStep(lib, o, p, Step(lib, p, e));
        WalkFilesMaximalPaths(lib, o, p + [Step(lib, p, e)], l);
      }
      if p <= l && BookPath(lib, o, l) && Maximal(lib, o, l) {
        assert l != p;
        assert l[..|p|] == p;
        assert Offered(lib, o, p, l[|p|]);
        var e :| e in es && l[|p|] == Step(lib, p, e);
        assert p + [Step(lib, p, e)] == l[..|p| + 1];
      }
    }
  }

  /** The walk fails exactly when some book path below its starting point is stuck. */
  lemma {:induction false} WalkFailsWhenStuck(lib: Library, o: Limits, p: Path)
    requires BookPath(lib, o, p)
    ensures Walk(lib, o, p).None? <==> exists q :: p <= q && BookPath(lib, o, q) && Stuck(lib, o, q)
    decreases o.maxPly - |p|
  {
    if |p| >= o.maxPly || Choices(lib, o, p).None? {
      assert p <= p;
    } else {
      var es := Choices(lib, o, p).value;
      WalkEachFails(lib, o, p, es);
      forall e | e in es && lib.legal(Tokens(p), e.move)
        ensures BookPath(lib, o, p + [Step(lib, p, e)])
        ensures Walk(lib, o, p + [Step(lib, p, e)]).None? <==>
                exists q :: p + [Step(lib, p, e)] <= q && BookPath(lib, o, q) && Stuck(lib, o, q)
      {
        assert Offered(lib, o, p, Step(lib, p, e));
        BookPathStep(lib, o, p, Step(lib, p, e));
        WalkFailsWhenStuck(lib, o, p + [Step(lib, p, e)]);
      }
      forall q | p <= q && BookPath(lib, o, q) && Stuck(lib, o, q) ensures Walk(lib, o, p).None? {
        if |p| < |q| {
          assert q[..|p|] == p;
          assert Offered(lib, o, p, q[|p|]);
          var e :| e in es && lib.legal(Tokens(p), e.move) && q[|p|] == Step(lib, p, e);
          assert p + [Step(lib, p, e)] == q[..|p| + 1];
        } else {
          assert p == q;
        }
      }
    }
  }

  /** Plies count from one and the colours alternate from white. */
  lemma BookPathNumbering(lib: Library, o: Limits, p: Path, i: nat)
    requires BookPath(lib, o, p) && i < |p|
    ensures p[i].ply == i + 1
    ensures p[i].color == (if i % 2 == 0 then "white" else "black")
    ensures p[i].weight >= o.minWeight
    ensures exists es :: lib.find(Tokens(p)[..i]) == Some(es) && BookEntry(p[i].move, p[i].weight) in es
  {
    assert Offered(lib, o, p[..i], p[i]);
    assert Tokens(p[..i]) == Tokens(p)[..i];
    var q := p[..i];
    var e: BookEntry :| e in Choices(lib, o, q).value && p[i] == Step(lib, q, e);
    var m := Step(lib, q, e);
    assert m.move == e.move;
    assert e.move == p[i].move && e.weight == p[i].weight;
    assert e in lib.find(Tokens(p)[..i]).value;
  }

  // ----- No line twice -----

  /** No position has two entries for the same move. */
  ghost predicate DistinctMoves(lib: Library) {
    forall t, i, j :: lib.find(t).Some? && 0 <= i < j < |lib.find(t).value| ==>
      lib.find(t).value[i].move != lib.find(t).value[j].move
  }

  predicate NoRepeat<T(==)>(s: seq<T>) {
    forall i, j | 0 <= i < j < |s| :: s[i] != s[j]
  }

  /** No position that book paths reach through p offers the same entry twice. */
  ghost predicate DistinctChoices(lib: Library, o: Limits, p: Path) {
    forall q :: p <= q && BookPath(lib, o, q) && |q| < o.maxPly && Choices(lib, o, q).Some? ==>
      NoRepeat(Choices(lib, o, q).value)
  }

  /** Of these entries no two give one move different weights. */
  ghost predicate OneWeightEach(es: seq<BookEntry>) {
    forall d, e :: d in es && e in es && d.move == e.move ==> d == e
  }

  /** No position that book paths reach offers one move with two weights. */
  ghost predicate MovesDecide(lib: Library, o: Limits) {
    forall q :: BookPath(lib, o, q) && |q| < o.maxPly && Choices(lib, o, q).Some? ==>
      OneWeightEach(Choices(lib, o, q).value)
  }

  lemma {:induction false} HeavyKeepsDistinct(es: seq<BookEntry>, minWeight: nat)
    requires forall i, j | 0 <= i < j < |es| :: es[i].move != es[j].move
    ensures NoRepeat(Heavy(es, minWeight)) && OneWeightEach(Heavy(es, minWeight))
  {
    if es != [] {
      HeavyKeepsDistinct(es[1..], minWeight);
      assert forall e :: e in Heavy(es[1..], minWeight) ==> e in es[1..];
      assert es == [es[0]] + es[1..];
    }
  }

  lemma DistinctMovesSuffice(lib: Library, o: Limits)
    requires DistinctMoves(lib)
    ensures DistinctChoices(lib, o, []) && MovesDecide(lib, o)
  {
    forall q | Choices(lib, o, q).Some?
      ensures NoRepeat(Choices(lib, o, q).value) && OneWeightEach(Choices(lib, o, q).value)
    {
      HeavyKeepsDistinct(lib.find(Tokens(q)).value, o.minWeight);
    }
  }

  lemma NoRepeatParts<T>(a: seq<T>, b: seq<T>)
    requires NoRepeat(a + b)
    ensures NoRepeat(a) && NoRepeat(b) && forall x :: x in a ==> x !in b
  {
    var s := a + b;
    forall i, j | 0 <= i < |a| && 0 <= j < |b| ensures a[i] != b[j] {
      assert s[i] == a[i] && s[|a| + j] == b[j];
    }
    forall i, j | 0 <= i < j < |b| ensures b[i] != b[j] {
      assert s[|a| + i] == b[i] && s[|a| + j] == b[j];
    }
    forall i, j | 0 <= i < j < |a| ensures a[i] != a[j] {
      assert s[i] == a[i] && s[j] == a[j];
    }
  }

  lemma NoRepeatJoin<T>(a: seq<T>, b: seq<T>)
    requires NoRepeat(a) && NoRepeat(b) && forall x :: x in a ==> x !in b
    ensures NoRepeat(a + b)
  {
    var s := a + b;
    forall i, j | 0 <= i < j < |s| ensures s[i] != s[j] {
      if i < |a| <= j {
        assert s[i] in a && s[j] in b;
      }
    }
  }

  lemma NoRepeatIff<T>(a: seq<T>, b: seq<T>)
    ensures NoRepeat(a + b) <==> NoRepeat(a) && NoRepeat(b) && forall x :: x in a ==> x !in b
  {
    if NoRepeat(a + b) {
      NoRepeatParts(a, b);
    } else if NoRepeat(a) && NoRepeat(b) && forall x :: x in a ==> x !in b {
      NoRepeatJoin(a, b);
    }
  }

  lemma NoRepeatCons<T>(s: seq<T>)
    requires s != []
    ensures NoRepeat(s) <==> NoRepeat(s[1..]) && s[0] !in s[1..]
  {
    assert s == [s[0]] + s[1..];
    NoRepeatIff([s[0]], s[1..]);
  }

  /** A walk that succeeds files something. */
  lemma {:induction false} WalkFilesSome(lib: Library, o: Limits, p: Path)
    requires Walk(lib, o, p).Some?
    ensures Walk(lib, o, p).value != []
    decreases o.maxPly - |p|
  {
    if !Maximal(lib, o, p) {
      WalkFilesSome(lib, o, p + [Step(lib, p, Choices(lib, o, p).value[0])]);
    }
  }

  lemma OneContinuation(p: Path, x: LineMove, y: LineMove, l: Path)
    requires p + [x] <= l && x != y
    ensures !(p + [y] <= l)
  {
    assert (p + [x])[|p|] != (p + [y])[|p|];
  }

  lemma BranchesApart(lib: Library, o: Limits, p: Path, d: BookEntry, e: BookEntry, l: Path)
    requires BookPath(lib, o, p) && |p| < o.maxPly && Choices(lib, o, p).Some? && e in Choices(lib, o, p).value
    requires lib.legal(Tokens(p), e.move) && Walk(lib, o, p + [Step(lib, p, e)]).Some?
    requires p + [Step(lib, p, d)] <= l && d != e
    ensures l !in Walk(lib, o, p + [Step(lib, p, e)]).value
  {
    assert Offered(lib, o, p, Step(lib, p, e));
    BookPathStep(lib, o, p, Step(lib, p, e));
    WalkFilesMaximalPaths(lib, o, p + [Step(lib, p, e)], l);
    OneContinuation(p, Step(lib, p, d), Step(lib, p, e), l);
  }

  /** Every one of these entries leads on to distinct choices. */
  ghost predicate AllBelow(lib: Library, o: Limits, p: Path, es: seq<BookEntry>) {
    forall e :: e in es ==> DistinctChoices(lib, o, p + [Step(lib, p, e)])
  }

  lemma ContinuesOrEnds(lib: Library, o: Limits, p: Path, q: Path)
    requires p <= q && BookPath(lib, o, q)
    ensures q == p || (Choices(lib, o, p).Some? &&
                       exists e :: e in Choices(lib, o, p).value && p + [Step(lib, p, e)] <= q)
  {
    if |p| < |q| {
      assert q[..|p|] == p;
      assert Offered(lib, o, p, q[|p|]);
      var e :| e in Choices(lib, o, p).value && q[|p|] == Step(lib, p, e);
      assert p + [Step(lib, p, e)] == q[..|p| + 1];
    }
  }

  lemma DistinctBelow(lib: Library, o: Limits, p: Path, m: LineMove)
    requires DistinctChoices(lib, o, p)
    ensures DistinctChoices(lib, o, p + [m])
  {
    forall q | p + [m] <= q && BookPath(lib, o, q) ensures p <= q {
      assert p <= p + [m];
    }
  }

  /** The choices below a path are those at it and those below its continuations. */
  lemma ChoicesBelow(lib: Library, o: Limits, p: Path)
    requires BookPath(lib, o, p) && |p| < o.maxPly && Choices(lib, o, p).Some?
    requires forall e :: e in Choices(lib, o, p).value ==> lib.legal(Tokens(p), e.move)
    ensures DistinctChoices(lib, o, p) <==>
            NoRepeat(Choices(lib, o, p).value) && AllBelow(lib, o, p, Choices(lib, o, p).value)
  {
    if DistinctChoices(lib, o, p) {
      forall e | e in Choices(lib, o, p).value ensures DistinctChoices(lib, o, p + [Step(lib, p, e)]) {
        DistinctBelow(lib, o, p, Step(lib, p, e));
      }
    }
    forall q | p <= q && BookPath(lib, o, q)
      ensures q == p || exists e :: e in Choices(lib, o, p).value && p + [Step(lib, p, e)] <= q
    {
      ContinuesOrEnds(lib, o, p, q);
    }
  }

  lemma NothingBelow(lib: Library, o: Limits, p: Path)
    requires BookPath(lib, o, p) && Maximal(lib, o, p)
    ensures DistinctChoices(lib, o, p)
  {
    forall q | p <= q && BookPath(lib, o, q) && |q| < o.maxPly ensures q == p {
      MaximalEnds(lib, o, p, q);
    }
  }

  /** The first entry's lines appear among the others' exactly when the entry does. */
  lemma BranchesMeetIff(lib: Library, o: Limits, p: Path, es: seq<BookEntry>)
    requires BookPath(lib, o, p) && |p| < o.maxPly && Choices(lib, o, p).Some? && es != []
    requires WalkEach(lib, o, p, es).Some?
    requires forall e :: e in es ==> e in Choices(lib, o, p).value
    ensures (forall l :: l in Walk(lib, o, p + [Step(lib, p, es[0])]).value ==>
               l !in WalkEach(lib, o, p, es[1..]).value) <==> es[0] !in es[1..]
  {
    var head := p + [Step(lib, p, es[0])];
    assert Offered(lib, o, p, Step(lib, p, es[0]));
    BookPathStep(lib, o, p, Step(lib, p, es[0]));
    var first := Walk(lib, o, head).value;
    if es[0] in es[1..] {
      WalkFilesSome(lib, o, head);
      assert first[0] in first;
      WalkEachGathers(lib, o, p, es[1..], first[0]);
    } else {
      forall l | l in first ensures l !in WalkEach(lib, o, p, es[1..]).value {
        WalkFilesMaximalPaths(lib, o, head, l);
        WalkEachGathers(lib, o, p, es[1..], l);
        WalkEachFails(lib, o, p, es[1..]);
        forall e | e in es[1..] ensures l !in Walk(lib, o, p + [Step(lib, p, e)]).value {
          BranchesApart(lib, o, p, es[0], e, l);
        }
      }
    }
  }

  lemma LinesSplit(lib: Library, o: Limits, p: Path, es: seq<BookEntry>)
    requires BookPath(lib, o, p) && |p| < o.maxPly && Choices(lib, o, p).Some? && es != []
    requires WalkEach(lib, o, p, es).Some?
    requires forall e :: e in es ==> e in Choices(lib, o, p).value
    ensures NoRepeat(WalkEach(lib, o, p, es).value) <==>
            && NoRepeat(Walk(lib, o, p + [Step(lib, p, es[0])]).value)
            && NoRepeat(WalkEach(lib, o, p, es[1..]).value) && es[0] !in es[1..]
  {
    BranchesMeetIff(lib, o, p, es);
    NoRepeatIff(Walk(lib, o, p + [Step(lib, p, es[0])]).value, WalkEach(lib, o, p, es[1..]).value);
  }

  lemma AllBelowSplits(lib: Library, o: Limits, p: Path, es: seq<BookEntry>)
    requires es != []
    ensures AllBelow(lib, o, p, es) <==>
            DistinctChoices(lib, o, p + [Step(lib, p, es[0])]) && AllBelow(lib, o, p, es[1..])
  {
    assert es == [es[0]] + es[1..];
  }

  /** The walk files no line twice exactly when no position it reaches offers an entry twice. */
  lemma {:induction false} WalkFilesOnce(lib: Library, o: Limits, p: Path)
    requires BookPath(lib, o, p) && Walk(lib, o, p).Some?
    ensures NoRepeat(Walk(lib, o, p).value) <==> DistinctChoices(lib, o, p)
    decreases o.maxPly - |p|, 1, 0
  {
    if Maximal(lib, o, p) {
      NothingBelow(lib, o, p);
    } else {
      var es := Choices(lib, o, p).value;
      WalkEachFails(lib, o, p, es);
      WalkEachOnce(lib, o, p, es);
      ChoicesBelow(lib, o, p);
    }
  }

  lemma {:induction false} WalkEachOnce(lib: Library, o: Limits, p: Path, es: seq<BookEntry>)
    requires BookPath(lib, o, p) && |p| < o.maxPly && Choices(lib, o, p).Some?
    requires WalkEach(lib, o, p, es).Some?
    requires forall e :: e in es ==> e in Choices(lib, o, p).value
    ensures NoRepeat(WalkEach(lib, o, p, es).value) <==> NoRepeat(es) && AllBelow(lib, o, p, es)
    decreases o.maxPly - |p|, 0, |es|
  {
    if es != [] {
      var head := p + [Step(lib, p, es[0])];
      assert Offered(lib, o, p, Step(lib, p, es[0]));
      BookPathStep(lib, o, p, Step(lib, p, es[0]));
      WalkFilesOnce(lib, o, head);
      WalkEachOnce(lib, o, p, es[1..]);
      LinesSplit(lib, o, p, es);
      NoRepeatCons(es);
      AllBelowSplits(lib, o, p, es);
    }
  }

  /** The walk visits every book path: each one is the beginning of a recorded line. */
  lemma {:induction false} EveryPathExtends(lib: Library, o: Limits, p: Path) returns (l: Path)
    requires BookPath(lib, o, p) && Walk(lib, o, []).Some?
    ensures p <= l && l in Walk(lib, o, []).value
    decreases o.maxPly - |p|
  {
    assert BookPath(lib, o, []);
    if Maximal(lib, o, p) {
      l := p;
      WalkFilesMaximalPaths(lib, o, [], p);
    } else {
      WalkFailsWhenStuck(lib, o, []);
      assert [] <= p && !Stuck(lib, o, p);
      var e := Choices(lib, o, p).value[0];
      assert Offered(lib, o, p, Step(lib, p, e));
      BookPathStep(lib, o, p, Step(lib, p, e));
      l := EveryPathExtends(lib, o, p + [Step(lib, p, e)]);
      assert p <= p + [Step(lib, p, e)];
    }
  }

  lemma LastMoveDetermined(lib: Library, o: Limits, p: Path, q: Path, n: nat)
    requires MovesDecide(lib, o) && BookPath(lib, o, p) && BookPath(lib, o, q) && n < |p| && n < |q|
    requires p[..n] == q[..n] && BookPath(lib, o, p[..n]) && p[n].move == q[n].move
    ensures p[n] == q[n]
  {
    var u := p[..n];
    assert Offered(lib, o, u, p[n]) && Offered(lib, o, q[..n], q[n]);
    var d :| d in Choices(lib, o, u).value && p[n] == Step(lib, u, d);
    var e :| e in Choices(lib, o, u).value && q[n] == Step(lib, u, e);
    assert OneWeightEach(Choices(lib, o, u).value);
    assert d.move == Step(lib, u, d).move && e.move == Step(lib, u, e).move;
  }

  lemma TokensPrefix(p: Path, n: nat)
    requires n <= |p|
    ensures Tokens(p[..n]) == Tokens(p)[..n]
  {
  }

  lemma SamePath(p: Path, q: Path, n: nat)
    requires |p| == |q| == n + 1 && p[..n] == q[..n] && p[n] == q[n]
    ensures p == q
  {
    assert p == p[..n] + [p[n]] && q == q[..n] + [q[n]];
  }

  /** Where a move has one weight at each position, the moves played determine the line. */
  lemma {:induction false} TokensDetermine(lib: Library, o: Limits, p: Path, q: Path)
    requires MovesDecide(lib, o) && BookPath(lib, o, p) && BookPath(lib, o, q)
    requires Tokens(p) == Tokens(q)
    ensures p == q
  {
    assert |q| == |Tokens(q)| == |Tokens(p)| == |p|;
    if p != [] {
      var n := |p| - 1;
      BookPathPrefix(lib, o, p, n);
      BookPathPrefix(lib, o, q, n);
      TokensPrefix(p, n);
      TokensPrefix(q, n);
      TokensDetermine(lib, o, p[..n], q[..n]);
      assert Tokens(p)[n] == p[n].move && Tokens(q)[n] == q[n].move;
      LastMoveDetermined(lib, o, p, q, n);
      SamePath(p, q, n);
    }
  }
}
