/** Saving a finished PvP game: the result it is filed under and its PGN text. */
module Pgn {
  import opened ChessRules
  import opened Options
  import PvpConcurrent
  import opened PvpGame
  import opened Text

  // ----- The result -----

  /** The result under which a game is saved: the winning colour, a draw, or nothing. */
  function ResultOf(g: Game): string {
    var result := Trim(g.outcome);
    if result != "resign" then result
    else if g.winner == g.whiteId then "white"
    else if g.winner == g.blackId then "black"
    else ""
  }

  /** The termination marker of a result. */
  function Marker(result: string): string {
    match Normal(result)
    case "white" => "1-0"
    case "black" => "0-1"
    case "draw" => "1/2-1/2"
    case _ => "*"
  }

  lemma ResultWordsAreNormal()
    ensures Normal("white") == "white" && Normal("black") == "black" && Normal("draw") == "draw" && Normal("") == ""
    ensures Trim("white") == "white" && Trim("black") == "black" && Trim("draw") == "draw" && Trim("resign") == "resign"
  {
    SolidIsTrimmed("white");
    SolidIsTrimmed("black");
    SolidIsTrimmed("draw");
    SolidIsTrimmed("resign");
    assert Lower("white") == "white" && Lower("black") == "black" && Lower("draw") == "draw";
  }

  lemma MarkersOfWords()
    ensures Marker("white") == "1-0" && Marker("black") == "0-1" && Marker("draw") == "1/2-1/2" && Marker("") == "*"
    ensures "1-0" != "0-1" && "1-0" != "1/2-1/2" && "1-0" != "*" && "0-1" != "1/2-1/2" && "0-1" != "*"
  {
    ResultWordsAreNormal();
    assert "1-0"[0] == '1' && "0-1"[0] == '0' && |"1/2-1/2"| == 7;
  }

  /** The word a game that is over is filed under. */
  lemma WordTellsResult(g: Game)
    requires ResultHonest(g) && g.status != Active && g.whiteId != g.blackId
    ensures g.status in {Finished, Resigned} && g.winner == g.whiteId ==> ResultOf(g) == "white"
    ensures g.status in {Finished, Resigned} && g.winner == g.blackId ==> ResultOf(g) == "black"
    ensures g.status == Draw ==> ResultOf(g) == "draw"
    ensures g.status == Resigned && g.winner !in {g.whiteId, g.blackId} ==> ResultOf(g) == ""
    ensures g.status == Finished ==> g.winner in {g.whiteId, g.blackId}
  {
    ResultWordsAreNormal();
  }

  /** The marker tells the result the fields of a game that is over hold. */
  lemma MarkerTellsResult(g: Game)
    requires ResultHonest(g) && g.status != Active && g.whiteId != g.blackId
    ensures Marker(ResultOf(g)) == "1-0" <==> g.status in {Finished, Resigned} && g.winner == g.whiteId
    ensures Marker(ResultOf(g)) == "0-1" <==> g.status in {Finished, Resigned} && g.winner == g.blackId
    ensures Marker(ResultOf(g)) == "1/2-1/2" <==> g.status == Draw
    ensures Marker(ResultOf(g)) == "*" <==> g.status == Resigned && g.winner !in {g.whiteId, g.blackId}
  {
    MarkersOfWords();
    WordTellsResult(g);
  }

  /**
   * In every interleaving, for every stored game of two players that is over, the marker tells its result: the winner's
   * side, a draw, or, for a resignation that names neither player as winner, no result.
   */
  lemma StoredMarkersTellResults(r: Rules, es: seq<PvpConcurrent.Event>, id: string)
    requires id in PvpConcurrent.Run(r, es).cells
    requires var g := PvpConcurrent.Run(r, es).cells[id].game; g.status != Active && g.whiteId != g.blackId
    ensures var g := PvpConcurrent.Run(r, es).cells[id].game;
      && (Marker(ResultOf(g)) == "1-0" <==> g.status in {Finished, Resigned} && g.winner == g.whiteId)
      && (Marker(ResultOf(g)) == "0-1" <==> g.status in {Finished, Resigned} && g.winner == g.blackId)
      && (Marker(ResultOf(g)) == "1/2-1/2" <==> g.status == Draw)
      && (Marker(ResultOf(g)) == "*" <==> g.status == Resigned && g.winner !in {g.whiteId, g.blackId})
  {
    PvpConcurrent.StoredResultsAreHonest(r, es, id);
    MarkerTellsResult(PvpConcurrent.Run(r, es).cells[id].game);
  }

  /** A resignation is saved as a win for the opponent exactly when the user id is spelt as a player's. */
  lemma ResignationMarker(r: Rules, req: Request, oldLen: nat, cur: Game, now: int)
    requires req.ResignReq? && Decide(r, req, oldLen, cur, now).Commit?
    requires cur.whiteId != cur.blackId && cur.whiteId != "" && cur.blackId != ""
    ensures var marker := Marker(ResultOf(Decide(r, req, oldLen, cur, now).game));
      && (marker == "1-0" <==> req.user == cur.blackId)
      && (marker == "0-1" <==> req.user == cur.whiteId)
      && (marker == "*" <==> !Plays(cur, req.user))
  {
    MarkerTellsResult(Decide(r, req, oldLen, cur, now).game);
  }

  // ----- Numbers -----

  predicate IsDigit(c: char) {
    '0' <= c <= '9'
  }

  function Digits(n: nat): (s: string)
    ensures s != [] && forall c :: c in s ==> IsDigit(c)
  {
    var d := [('0' as int + n % 10) as char];
    if n < 10 then d else Digits(n / 10) + d
  }

  function Value(s: string): nat
    requires forall c :: c in s ==> IsDigit(c)
  {
    if s == [] then 0
    else
      assert s[|s| - 1] in s;
      assert IsDigit(s[|s| - 1]);
      Value(s[..|s| - 1]) * 10 + (s[|s| - 1] as int - '0' as int)
  }

  lemma {:induction false} ValueOfDigits(n: nat)
    ensures Value(Digits(n)) == n
  {
    var d := [('0' as int + n % 10) as char];
    if n >= 10 {
      ValueOfDigits(n / 10);
      assert Digits(n)[..|Digits(n)| - 1] == Digits(n / 10);
    } else {
      assert Digits(n)[..0] == [];
    }
  }

  // ----- Movetext -----

  /** One numbered turn: a move of each side, or a last move of White's. */
  function TurnText(sans: seq<string>, i: nat): string
    requires i < |sans|
  {
    Digits(i / 2 + 1) + ". " + Trim(sans[i]) + (if i + 1 < |sans| then " " + Trim(sans[i + 1]) else "") + " "
  }

  /** The movetext from move i on: numbered moves, then the result. */
  function Movetext(sans: seq<string>, i: nat, result: string): string
    decreases |sans| - i
  {
    if i >= |sans| then result else TurnText(sans, i) + Movetext(sans, i + 2, result)
  }

  method AppendTurn(text: string, sans: seq<string>, i: nat) returns (b: string)
    requires i < |sans|
    ensures b == text + TurnText(sans, i)
  {
    var turn := i / 2 + 1;
    b := text + (Digits(turn) + ". " + Trim(sans[i]));
    if i + 1 < |sans| {
      b := b + " ";
      b := b + Trim(sans[i + 1]);
    }
    b := b + " ";
  }

  lemma MovetextStep(b: string, sans: seq<string>, i: nat, result: string)
    requires i < |sans|
    ensures b + TurnText(sans, i) + Movetext(sans, i + 2, result) == b + Movetext(sans, i, result)
  {
    var turn, rest := TurnText(sans, i), Movetext(sans, i + 2, result);
    assert b + turn + rest == b + (turn + rest);
  }

  method BuildMovetext(sans: seq<string>, result: string) returns (b: string)
    ensures b == Movetext(sans, 0, result)
  {
    b := "";
    var i := 0;
    while i < |sans|
      invariant b + Movetext(sans, i, result) == Movetext(sans, 0, result)
    {
      MovetextStep(b, sans, i, result);
      b := AppendTurn(b, sans, i);
      i := i + 2;
    }
    if result != "" {
      b := b + result;
    }
  }

  // ----- A reader of movetext, sections 8.2.2 and 8.2.6 of the PGN Standard -----

  /** The space-separated words of a text. */
  function Fields(s: string): seq<string>
    decreases |s|
  {
    if s == [] then []
    else if s[0] == ' ' then Fields(s[1..])
    else
      var n := WordEnd(s);
      [s[..n]] + Fields(s[n..])
  }

  /** Where the first word ends. */
  function WordEnd(s: string): (n: nat)
    ensures n <= |s| && (s != [] && s[0] != ' ' ==> n > 0)
    ensures ' ' !in s[..n] && (n < |s| ==> s[n] == ' ')
  {
    if s == [] || s[0] == ' ' then 0
    else
      var n := WordEnd(s[1..]);
      assert s[..n + 1] == [s[0]] + s[1..][..n];
      n + 1
  }

  lemma FieldFirst(t: string, rest: string)
    requires Solid(t) && (rest == [] || rest[0] == ' ')
    ensures Fields(t + rest) == [t] + Fields(rest)
  {
    var s := t + rest;
    var n := WordEnd(s);
    assert s == s[..n] + s[n..];
    CutAtSpace(s[..n], t, s[n..], rest);
    assert s[0] == t[0];
  }

  predicate IsMarker(t: string) {
    t in {"1-0", "0-1", "1/2-1/2", "*"}
  }

  /** A move number indication: digits and a period. */
  predicate IsNumber(t: string) {
    |t| >= 2 && t[|t| - 1] == '.' && forall c :: c in t[..|t| - 1] ==> IsDigit(c)
  }

  datatype Reading = Reading(numbers: seq<nat>, sans: seq<string>, result: string)

  /** Reads numbered moves up to the termination marker, which must be the last word. */
  function Read(words: seq<string>): Option<Reading> {
    if words == [] then None
    else if IsMarker(words[0]) then (if |words| == 1 then Some(Reading([], [], words[0])) else None)
    else
      match Read(words[1..])
      case None => None
      case Some(rest) =>
        if IsNumber(words[0]) then
          Some(rest.(numbers := [Value(words[0][..|words[0]| - 1])] + rest.numbers))
        else Some(rest.(sans := [words[0]] + rest.sans))
  }

  /** A move in standard algebraic notation: a letter first, and no white space. */
  predicate PlainSan(s: string) {
    && s != []
    && ('a' <= s[0] <= 'z' || 'A' <= s[0] <= 'Z')
    && (forall c :: c in s ==> !IsSpace(c))
  }

  lemma NumberHead(t: string)
    requires IsNumber(t)
    ensures IsDigit(t[0])
  {
    assert t[..|t| - 1][0] in t[..|t| - 1];
  }

  lemma PlainSanIsWord(s: string)
    requires PlainSan(s)
    ensures Trim(s) == s && Solid(s) && !IsMarker(s) && !IsNumber(s)
  {
    assert s[0] in s && s[|s| - 1] in s;
    SolidIsTrimmed(s);
    assert IsSpace(' ');
    assert ' ' !in s;
    if IsNumber(s) {
      NumberHead(s);
    }
  }

  lemma NumberWord(n: nat)
    ensures var t := Digits(n) + ".";
      Solid(t) && IsNumber(t) && !IsMarker(t) && Value(t[..|t| - 1]) == n
  {
    var t := Digits(n) + ".";
    ValueOfDigits(n);
    assert t[..|t| - 1] == Digits(n);
    assert t[|t| - 1] == '.';
  }

  /** The words of numbered movetext. */
  function Words(sans: seq<string>, i: nat, result: string): seq<string>
    decreases |sans| - i
  {
    if i >= |sans| then [result]
    else
      [Digits(i / 2 + 1) + ".", sans[i]] + (if i + 1 < |sans| then [sans[i + 1]] else []) +
      Words(sans, i + 2, result)
  }

  lemma JoinWord(w: string, ws: seq<string>)
    requires ws != []
    ensures Join([w] + ws, " ") == w + (" " + Join(ws, " "))
  {
    assert w + (" " + Join(ws, " ")) == w + " " + Join(ws, " ");
  }

  lemma TwoJoined(d: string, a: string, b: string, ws: seq<string>)
    requires ws != []
    ensures Join([d + ".", a] + [b] + ws, " ") == d + ". " + a + (" " + b) + " " + Join(ws, " ")
  {
    JoinWord(b, ws);
    assert [d + ".", a] + ([b] + ws) == [d + ".", a] + [b] + ws;
    var rest := Join(ws, " ");
    assert d + ". " + a + "" + " " + (b + (" " + rest)) == d + ". " + a + (" " + b) + " " + rest;
  }

  /** Movetext is its words with a space between each two. */
  lemma {:induction false} MovetextIsJoined(sans: seq<string>, i: nat, result: string)
    requires forall s :: s in sans ==> Trim(s) == s
    ensures Movetext(sans, i, result) == Join(Words(sans, i, result), " ")
    decreases |sans| - i
  {
    if i < |sans| {
      MovetextIsJoined(sans, i + 2, result);
      var rest := Words(sans, i + 2, result);
      assert sans[i] in sans;
      if i + 1 < |sans| {
        assert sans[i + 1] in sans;
        TwoJoined(Digits(i / 2 + 1), sans[i], sans[i + 1], rest);
      } else {
        assert [Digits(i / 2 + 1) + ".", sans[i]] + [] + rest == [Digits(i / 2 + 1) + ".", sans[i]] + rest;
      }
    }
  }

  /** Splitting what was joined gives the words back. */
  lemma {:induction false} FieldsOfJoined(ws: seq<string>)
    requires ws != [] && forall w :: w in ws ==> Solid(w)
    ensures Fields(Join(ws, " ")) == ws
  {
    assert ws[0] in ws;
    if |ws| == 1 {
      FieldFirst(ws[0], []);
      assert ws[0] + [] == ws[0];
    } else {
      FieldsOfJoined(ws[1..]);
      JoinWord(ws[0], ws[1..]);
      assert ws == [ws[0]] + ws[1..];
      var tail := " " + Join(ws[1..], " ");
      assert tail[1..] == Join(ws[1..], " ");
      FieldFirst(ws[0], tail);
    }
  }

  lemma {:induction false} WordsAreSolid(sans: seq<string>, i: nat, result: string)
    requires (forall s :: s in sans ==> PlainSan(s)) && Solid(result)
    ensures Words(sans, i, result) != [] && forall w :: w in Words(sans, i, result) ==> Solid(w)
    decreases |sans| - i
  {
    if i < |sans| {
      WordsAreSolid(sans, i + 2, result);
      NumberWord(i / 2 + 1);
      assert sans[i] in sans;
      PlainSanIsWord(sans[i]);
      if i + 1 < |sans| {
        assert sans[i + 1] in sans;
        PlainSanIsWord(sans[i + 1]);
      }
    }
  }

  /** The move numbers of a game from move i on. */
  function Numbers(total: nat, i: nat): seq<nat>
    decreases total - i
  {
    if i >= total then [] else [i / 2 + 1] + Numbers(total, i + 2)
  }

  lemma ReadSan(san: string, words: seq<string>, rest: Reading)
    requires PlainSan(san) && Read(words) == Some(rest)
    ensures Read([san] + words) == Some(rest.(sans := [san] + rest.sans))
  {
    PlainSanIsWord(san);
    assert ([san] + words)[1..] == words;
  }

  lemma ReadNumber(n: nat, words: seq<string>, rest: Reading)
    requires Read(words) == Some(rest)
    ensures Read([Digits(n) + "."] + words) == Some(rest.(numbers := [n] + rest.numbers))
  {
    NumberWord(n);
    assert ([Digits(n) + "."] + words)[1..] == words;
  }

  lemma OneRead(n: nat, a: string, words: seq<string>, rest: Reading)
    requires PlainSan(a) && Read(words) == Some(rest)
    ensures Read([Digits(n) + ".", a] + words) == Some(Reading([n] + rest.numbers, [a] + rest.sans, rest.result))
  {
    ReadSan(a, words, rest);
    ReadNumber(n, [a] + words, rest.(sans := [a] + rest.sans));
    assert [Digits(n) + "."] + ([a] + words) == [Digits(n) + ".", a] + words;
  }

  lemma TwoRead(n: nat, a: string, b: string, words: seq<string>, rest: Reading)
    requires PlainSan(a) && PlainSan(b) && Read(words) == Some(rest)
    ensures Read([Digits(n) + ".", a] + [b] + words) ==
            Some(Reading([n] + rest.numbers, [a, b] + rest.sans, rest.result))
  {
    ReadSan(b, words, rest);
    OneRead(n, a, [b] + words, rest.(sans := [b] + rest.sans));
    assert [Digits(n) + ".", a] + ([b] + words) == [Digits(n) + ".", a] + [b] + words;
    assert [a] + ([b] + rest.sans) == [a, b] + rest.sans;
  }

  lemma TailTwo(s: seq<string>, i: nat)
    requires i + 1 < |s|
    ensures s[i..] == [s[i], s[i + 1]] + s[i + 2..]
  {
  }

  lemma TailOne(s: seq<string>, i: nat)
    requires i + 1 == |s|
    ensures s[i..] == [s[i]]
  {
  }

  lemma FullTurnRead(sans: seq<string>, i: nat, result: string, later: seq<string>)
    requires i + 1 < |sans| && PlainSan(sans[i]) && PlainSan(sans[i + 1])
    requires Read(Words(sans, i + 2, result)) == Some(Reading(Numbers(|sans|, i + 2), later, result))
    ensures Read(Words(sans, i, result)) ==
            Some(Reading(Numbers(|sans|, i), [sans[i], sans[i + 1]] + later, result))
  {
    TwoRead(i / 2 + 1, sans[i], sans[i + 1], Words(sans, i + 2, result),
        Reading(Numbers(|sans|, i + 2), later, result));
  }

  lemma LastTurnRead(sans: seq<string>, i: nat, result: string)
    requires i + 1 == |sans| && PlainSan(sans[i]) && IsMarker(result)
    ensures Read(Words(sans, i, result)) == Some(Reading(Numbers(|sans|, i), [sans[i]], result))
  {
    var n := i / 2 + 1;
    assert Words(sans, i + 2, result) == [result] && Numbers(|sans|, i + 2) == [];
    assert Words(sans, i, result) == [Digits(n) + ".", sans[i]] + [result];
    OneRead(n, sans[i], [result], Reading([], [], result));
    assert [n] + [] == [n] && [sans[i]] + [] == [sans[i]];
  }

  lemma {:induction false} WordsRead(sans: seq<string>, i: nat, result: string)
    requires (forall s :: s in sans ==> PlainSan(s)) && IsMarker(result) && i <= |sans|
    ensures Read(Words(sans, i, result)) == Some(Reading(Numbers(|sans|, i), sans[i..], result))
    decreases |sans| - i
  {
    if i + 1 < |sans| {
      WordsRead(sans, i + 2, result);
      assert sans[i] in sans && sans[i + 1] in sans;
      FullTurnRead(sans, i, result, sans[i + 2..]);
      TailTwo(sans, i);
    } else if i < |sans| {
      assert sans[i] in sans;
      LastTurnRead(sans, i, result);
      TailOne(sans, i);
    } else {
      assert sans[i..] == [];
    }
  }

  lemma MarkedMovetextReadsBack(sans: seq<string>, result: string)
    requires (forall s :: s in sans ==> PlainSan(s)) && IsMarker(result)
    ensures Read(Fields(Movetext(sans, 0, result))) == Some(Reading(Numbers(|sans|, 0), sans, result))
  {
    forall s | s in sans ensures Trim(s) == s {
      PlainSanIsWord(s);
    }
    MovetextIsJoined(sans, 0, result);
    WordsAreSolid(sans, 0, result);
    FieldsOfJoined(Words(sans, 0, result));
    WordsRead(sans, 0, result);
    assert sans[0..] == sans;
  }

  /** The movetext of a saved game reads back as its moves, numbered from one for each pair, and its result. */
  lemma MovetextReadsBack(g: Game)
    requires forall s :: s in g.movesSan ==> PlainSan(s)
    ensures Read(Fields(Movetext(g.movesSan, 0, Marker(ResultOf(g))))) ==
            Some(Reading(Numbers(|g.movesSan|, 0), g.movesSan, Marker(ResultOf(g))))
  {
    MarkedMovetextReadsBack(g.movesSan, Marker(ResultOf(g)));
  }

  lemma {:induction false} NumbersCountPairs(total: nat, i: nat, k: nat)
    requires i % 2 == 0 && k < |Numbers(total, i)|
    ensures Numbers(total, i)[k] == i / 2 + 1 + k
    decreases k
  {
    if k > 0 {
      NumbersCountPairs(total, i + 2, k - 1);
    }
  }

  // ----- Tag values -----

  const QUOTE: char := '\"'
  const BACKSLASH: char := '\\'

  function Replaced(s: string, c: char, into: char): (r: string)
    ensures |r| == |s| && forall i :: 0 <= i < |s| ==> r[i] == if s[i] == c then into else s[i]
  {
    seq(|s|, i requires 0 <= i < |s| => if s[i] == c then into else s[i])
  }

  function Sanitized(s: string): string {
    Trim(Replaced(Replaced(s, BACKSLASH, ' '), QUOTE, '\''))
  }

  lemma {:induction false} TrimKeepsChars(s: string)
    ensures forall c :: c in Trim(s) ==> c in s
  {
    TrimLeftKeepsChars(s);
    TrimRightKeepsChars(TrimLeft(s));
  }

  lemma {:induction false} TrimLeftKeepsChars(s: string)
    ensures forall c :: c in TrimLeft(s) ==> c in s
  {
    if s != [] && IsSpace(s[0]) {
      TrimLeftKeepsChars(s[1..]);
    }
  }

  lemma {:induction false} TrimRightKeepsChars(s: string)
    ensures forall c :: c in TrimRight(s) ==> c in s
  {
    if s != [] && IsSpace(s[|s| - 1]) {
      TrimRightKeepsChars(s[..|s| - 1]);
    }
  }

  /** A tag value cannot end its own quotation: it holds no quote and no backslash. */
  lemma SanitizedHasNoQuotes(s: string)
    ensures QUOTE !in Sanitized(s) && BACKSLASH !in Sanitized(s)
    ensures Trimmed(Sanitized(s))
  {
    var r := Replaced(Replaced(s, BACKSLASH, ' '), QUOTE, '\'');
    TrimKeepsChars(r);
    TrimTwice(r);
  }

  /** What a character of a name becomes in a tag value. */
  function Written(c: char): char {
    if c == '\\' then ' ' else if c == '\"' then '\'' else c
  }

  /** A tag value is its text, character by character, without the white space at its ends. */
  lemma SanitizedKeepsText(s: string) returns (i: nat)
    ensures var r := Sanitized(s);
      && i + |r| <= |s| && (forall k :: 0 <= k < |r| ==> r[k] == Written(s[i + k]))
      && (forall k :: 0 <= k < i || i + |r| <= k < |s| ==> IsSpace(s[k]) || s[k] == '\\')
  {
    var r := Replaced(Replaced(s, BACKSLASH, ' '), QUOTE, '\'');
    assert forall k :: 0 <= k < |s| ==> r[k] == Written(s[k]);
    i := TrimIsMiddle(r);
    var t := Sanitized(s);
    forall k | 0 <= k < |t| ensures t[k] == Written(s[i + k]) {
      assert t[k] == r[i + k];
    }
    forall k | 0 <= k < i || i + |t| <= k < |s| ensures IsSpace(s[k]) || s[k] == '\\' {
      assert IsSpace(r[k]);
    }
  }

  lemma PlainTextIsKept(s: string)
    requires QUOTE !in s && BACKSLASH !in s && Trimmed(s)
    ensures Sanitized(s) == s
  {
    assert Replaced(Replaced(s, BACKSLASH, ' '), QUOTE, '\'') == s;
  }

  function Tag(name: string, value: string): string {
    "[" + name + " \"" + value + "\"]\n"
  }

  /** The header lines; `date` is the formatted date. */
  function Header(g: Game, date: string, result: string, how: string): string {
    Tag("Event", "KakaoPvP") + Tag("Site", "Iris") + Tag("Date", date) +
    Tag("White", Sanitized(g.whiteName)) + Tag("Black", Sanitized(g.blackName)) +
    (if Trim(how) != "" then Tag("Termination", Sanitized(Lower(how))) else "") +
    Tag("Result", result) + "\n"
  }

  method BuildHeader(g: Game, date: string, result: string, how: string) returns (b: string)
    ensures b == Header(g, date, result, how)
  {
    b := Tag("Event", "KakaoPvP");
    b := b + Tag("Site", "Iris");
    b := b + Tag("Date", date);
    b := b + Tag("White", Sanitized(g.whiteName));
    b := b + Tag("Black", Sanitized(g.blackName));
    if Trim(how) != "" {
      b := b + Tag("Termination", Sanitized(Lower(how)));
    } else {
      assert b + "" == b;
    }
    b := b + Tag("Result", result);
    b := b + "\n";
  }

  method BuildPgn(g: Game, date: string, result: string, how: string) returns (pgn: string)
    ensures pgn == Header(g, date, result, how) + Movetext(g.movesSan, 0, result)
  {
    var header := BuildHeader(g, date, result, how);
    var moves := BuildMovetext(g.movesSan, result);
    pgn := header + moves;
  }

  // ----- The table of results -----

  datatype Row = Row(
    whiteId: string, whiteName: string, blackId: string, blackName: string, originRoom: string, resolveRoom: string,
    result: string, how: string, movesUci: seq<string>, movesSan: seq<string>, pgn: string,
    startedAt: int, endedAt: int, duration: nat)

  class Repository {
    var rows: map<string, Row>

    /** Files a game under its id, replacing what an earlier save of the same game filed. */
    method SaveResult(g: Game, how: string, date: string)
      modifies this
      ensures rows.Keys == old(rows).Keys + {g.id}
      ensures forall id :: id in old(rows) && id != g.id ==> rows[id] == old(rows)[id]
      ensures var row := rows[g.id];
        && row.result == ResultOf(g)
        && row.pgn == Header(g, date, Marker(ResultOf(g)), how) + Movetext(g.movesSan, 0, Marker(ResultOf(g)))
        && row.movesUci == g.movesUci && row.movesSan == g.movesSan
        && row.whiteId == g.whiteId && row.blackId == g.blackId
        && row.whiteName == g.whiteName && row.blackName == g.blackName
        && row.originRoom == g.originRoom && row.resolveRoom == g.resolveRoom && row.how == Trim(how)
        && row.startedAt == g.createdAt && row.endedAt == g.updatedAt
        && (row.duration == g.updatedAt - g.createdAt || (g.updatedAt < g.createdAt && row.duration == 0))
    {
      var result := Trim(g.outcome);
      if result == "resign" {
        if g.winner == g.whiteId {
          result := "white";
        } else if g.winner == g.blackId {
          result := "black";
        } else {
          result := "";
        }
      }
      var marker := Marker(result);
      var pgn := BuildPgn(g, date, marker, how);
      var duration := g.updatedAt - g.createdAt;
      if duration < 0 {
        duration := 0;
      }
      rows := rows[g.id := Row(
        g.whiteId, g.whiteName, g.blackId, g.blackName, g.originRoom, g.resolveRoom, result, Trim(how), g.movesUci,
        g.movesSan, pgn, g.createdAt, g.updatedAt, duration)];
    }
  }
}
