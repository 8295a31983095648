/** The string operations the source relies on: trimming, ASCII case folding and the byte order used by its sorts. */
module Text {
  predicate IsSpace(c: char) {
    c in {' ', '\t', '\n', '\r', '\U{0B}', '\U{0C}', '\U{85}', '\U{A0}'}
  }

  function TrimLeft(s: string): string {
    if s != [] && IsSpace(s[0]) then TrimLeft(s[1..]) else s
  }

  function TrimRight(s: string): string {
    if s != [] && IsSpace(s[|s| - 1]) then TrimRight(s[..|s| - 1]) else s
  }

  function Trim(s: string): string {
    TrimRight(TrimLeft(s))
  }

  function LowerChar(c: char): char {
    if 'A' <= c <= 'Z' then c - 'A' + 'a' else c
  }

  function Lower(s: string): (r: string)
    ensures |r| == |s|
  {
    seq(|s|, i requires 0 <= i < |s| => LowerChar(s[i]))
  }

  /** The text carries no surrounding white space. */
  predicate Trimmed(s: string) {
    Trim(s) == s
  }

  lemma {:induction false} TrimRightKeepsHead(s: string)
    requires s != [] && !IsSpace(s[0])
    ensures TrimRight(s) != [] && TrimRight(s)[0] == s[0]
  {
    if IsSpace(s[|s| - 1]) {
      TrimRightKeepsHead(s[..|s| - 1]);
    }
  }

  lemma {:induction false} TrimLeftHead(s: string)
    ensures TrimLeft(s) == [] || !IsSpace(TrimLeft(s)[0])
  {
    if s != [] && IsSpace(s[0]) {
      TrimLeftHead(s[1..]);
    }
  }

  lemma {:induction false} TrimRightLast(s: string)
    ensures TrimRight(s) == [] || !IsSpace(TrimRight(s)[|TrimRight(s)| - 1])
  {
    if s != [] && IsSpace(s[|s| - 1]) {
      TrimRightLast(s[..|s| - 1]);
    }
  }

  lemma TrimTwice(s: string)
    ensures Trimmed(Trim(s))
  {
    var l := TrimLeft(s);
    TrimLeftHead(s);
    TrimRightLast(l);
    if l != [] {
      TrimRightKeepsHead(l);
    }
  }

  /** Trimming removes white space at both ends and nothing else: the rest starts at place i of the text. */
  ghost predicate MiddleAt(s: string, t: string, i: nat) {
    && i + |t| <= |s| && t == s[i..i + |t|]
    && (forall k :: 0 <= k < i || i + |t| <= k < |s| ==> IsSpace(s[k]))
    && (t != [] ==> !IsSpace(t[0]) && !IsSpace(t[|t| - 1]))
  }

  lemma {:induction false} LeftPart(s: string) returns (i: nat)
    ensures i <= |s| && TrimLeft(s) == s[i..] && forall k :: 0 <= k < i ==> IsSpace(s[k])
  {
    if s != [] && IsSpace(s[0]) {
      var j := LeftPart(s[1..]);
      i := j + 1;
      assert s[1..][j..] == s[i..];
      assert forall k :: 0 < k < i ==> s[k] == s[1..][k - 1];
    } else {
      i := 0;
    }
  }

  lemma {:induction false} RightPart(s: string) returns (n: nat)
    ensures n <= |s| && TrimRight(s) == s[..n] && forall k :: n <= k < |s| ==> IsSpace(s[k])
  {
    if s != [] && IsSpace(s[|s| - 1]) {
      n := RightPart(s[..|s| - 1]);
    } else {
      n := |s|;
    }
  }

  lemma SliceOfTail(s: string, i: nat, n: nat)
    requires i + n <= |s|
    ensures s[i..][..n] == s[i..i + n]
  {
  }

  lemma TrimIsMiddle(s: string) returns (i: nat)
    ensures MiddleAt(s, Trim(s), i)
  {
    i := LeftPart(s);
    var l := TrimLeft(s);
    var n := RightPart(l);
    SliceOfTail(s, i, n);
    forall k | i + n <= k < |s| ensures IsSpace(s[k]) {
      assert s[k] == l[k - i];
    }
    TrimEnds(s);
  }

  lemma TrimEnds(s: string)
    ensures var t := Trim(s); t != [] ==> !IsSpace(t[0]) && !IsSpace(t[|t| - 1])
  {
    var l := TrimLeft(s);
    TrimLeftHead(s);
    TrimRightLast(l);
    if l != [] {
      TrimRightKeepsHead(l);
    }
  }

  /** Lower-casing moves the letters A to Z, codes 65 to 90, to those 32 higher, and changes nothing else. */
  lemma LowerMeans(s: string, i: nat)
    requires i < |s|
    ensures 65 <= s[i] as int <= 90 ==> Lower(s)[i] as int == s[i] as int + 32
    ensures !(65 <= s[i] as int <= 90) ==> Lower(s)[i] == s[i]
  {
    assert 'A' as int == 65 && 'Z' as int == 90 && 'a' as int == 97;
  }

  /** A text without white space at either end is its own trimming. */
  lemma SolidIsTrimmed(s: string)
    requires s == [] || (!IsSpace(s[0]) && !IsSpace(s[|s| - 1]))
    ensures Trimmed(s)
  {
  }

  /** The parts with a separator between each two. */
  function Join(parts: seq<string>, sep: string): string {
    if parts == [] then []
    else if |parts| == 1 then parts[0]
    else parts[0] + sep + Join(parts[1..], sep)
  }

  /** A non-empty text without spaces. */
  predicate Solid(s: string) {
    s != [] && ' ' !in s
  }

  /** Cuts a text at its first space. */
  lemma CutAtSpace(a: string, b: string, x: string, y: string)
    requires ' ' !in a && ' ' !in b
    requires x == [] || x[0] == ' '
    requires y == [] || y[0] == ' '
    requires a + x == b + y
    ensures a == b && x == y
  {
    var s := a + x;
    var t := b + y;
    forall k | 0 <= k < |s|
      ensures (k < |a| ==> s[k] != ' ') && (k == |a| ==> s[k] == ' ')
      ensures (k < |b| ==> s[k] != ' ') && (k == |b| ==> s[k] == ' ')
    {
    }
    var k := if |a| < |b| then |a| else |b|;
    assert k < |s| ==> s[k] == t[k];
    assert |a| == |b|;
    assert a == s[..|a|] && b == t[..|b|] && x == s[|a|..] && y == t[|b|..];
  }

  /** Joined with spaces, space-free parts can be told apart again. */
  lemma {:induction false} JoinInjective(a: seq<string>, b: seq<string>)
    requires forall s :: s in a ==> Solid(s)
    requires forall s :: s in b ==> Solid(s)
    requires Join(a, " ") == Join(b, " ")
    ensures a == b
  {
    JoinNonEmpty(a);
    JoinNonEmpty(b);
    if a != [] && b != [] {
      assert a[0] in a && b[0] in b;
      JoinIsHeadAndRest(a);
      JoinIsHeadAndRest(b);
      CutAtSpace(a[0], b[0], Rest(a), Rest(b));
      if |a| > 1 && |b| > 1 {
        assert Join(a[1..], " ") == Rest(a)[1..];
        assert Join(b[1..], " ") == Rest(b)[1..];
        assert (forall s :: s in a[1..] ==> s in a) && forall s :: s in b[1..] ==> s in b;
        JoinInjective(a[1..], b[1..]);
      }
      assert a == [a[0]] + a[1..] && b == [b[0]] + b[1..];
    }
  }

  /** What follows the first part in a joined text. */
  function Rest(a: seq<string>): string
    requires a != []
  {
    if |a| == 1 then [] else " " + Join(a[1..], " ")
  }

  lemma JoinIsHeadAndRest(a: seq<string>)
    requires a != []
    ensures Join(a, " ") == a[0] + Rest(a)
  {
    if |a| == 1 {
      assert a[0] + [] == a[0];
    } else {
      assert a[0] + (" " + Join(a[1..], " ")) == a[0] + " " + Join(a[1..], " ");
    }
  }

  lemma JoinNonEmpty(a: seq<string>)
    requires forall s :: s in a ==> Solid(s)
    ensures a != [] ==> Join(a, " ") != []
  {
    assert a != [] ==> a[0] in a;
  }

  /** The form in which moves, colours and tokens are compared. */
  function Normal(s: string): string {
    Lower(Trim(s))
  }

  /** Normal forms are trimmed and lower-case. */
  lemma TrimNormal(s: string)
    ensures Trim(Normal(s)) == Normal(s) && Lower(Normal(s)) == Normal(s) && Normal(Normal(s)) == Normal(s)
  {
    var t := Trim(s);
    TrimTwice(s);
    var l := TrimLeft(s);
    TrimLeftHead(s);
    TrimRightLast(l);
    if l != [] && t != [] {
      TrimRightKeepsHead(l);
    }
    SolidIsTrimmed(Lower(t));
    assert Lower(Lower(t)) == Lower(t);
  }
}
