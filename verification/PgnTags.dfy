/** A reader for the whole text of a saved game, section 8.1 of the PGN Standard, and when it gives the tags back. */
module PgnTags {
  import opened Options
  import opened Pgn
  import opened PvpGame
  import opened Text

  datatype TagPair = TagPair(name: string, value: string)

  // ----- The reader -----

  /** The place of the first occurrence, or the length if there is none. */
  function IndexOf(s: string, c: char): (n: nat)
    ensures n <= |s|
    ensures c !in s[..n] && (n < |s| ==> s[n] == c)
  {
    if s == [] || s[0] == c then 0
    else
      var n := IndexOf(s[1..], c);
      assert s[..n + 1] == [s[0]] + s[1..][..n];
      n + 1
  }

  /** Reads one line as a tag pair: a name in brackets, and a value in quotation marks with none inside. */
  function ReadTag(line: string): Option<TagPair> {
    var q := IndexOf(line, QUOTE);
    if q < 2 || line[0] != '[' || |line| < q + 3 || line[q - 1] != ' ' then None
    else
      var value := line[q + 1..|line| - 2];
      if line[|line| - 2..] == [QUOTE, ']'] && QUOTE !in value then Some(TagPair(line[1..q - 1], value)) else None
  }

  /** Reads tag pairs line by line up to an empty line; what follows it is left over. */
  function ReadTags(text: string): Option<(seq<TagPair>, string)>
    decreases |text|
  {
    var n := IndexOf(text, '\n');
    if n == |text| then None
    else if n == 0 then Some(([], text[1..]))
    else
      match ReadTag(text[..n])
      case None => None
      case Some(tag) =>
        match ReadTags(text[n + 1..])
        case None => None
        case Some((tags, rest)) => Some(([tag] + tags, rest))
  }

  /** Reads a whole game: tag pairs, an empty line, and movetext. */
  function ReadPgn(text: string): Option<(seq<TagPair>, Reading)> {
    match ReadTags(text)
    case None => None
    case Some((tags, rest)) =>
      match Read(Fields(rest))
      case None => None
      case Some(reading) => Some((tags, reading))
  }

  // ----- What was written -----

  /** A name of letters, and a value without quotation marks. */
  predicate PlainTag(t: TagPair) {
    PlainName(t.name) && QUOTE !in t.value
  }

  predicate PlainName(name: string) {
    name != [] && forall c :: c in name ==> 'A' <= c <= 'Z' || 'a' <= c <= 'z'
  }

  lemma PlainNameHas(name: string)
    requires PlainName(name)
    ensures QUOTE !in name && '\n' !in name
  {
  }

  predicate AllPlain(tags: seq<TagPair>) {
    forall t :: t in tags ==> PlainTag(t)
  }

  predicate AllOneLine(tags: seq<TagPair>) {
    forall t :: t in tags ==> '\n' !in t.value
  }

  function TagsText(tags: seq<TagPair>): string {
    if tags == [] then "" else Tag(tags[0].name, tags[0].value) + TagsText(tags[1..])
  }

  /** Five tags, the result as the last one, and perhaps a termination before it. */
  function TagList(date: string, white: string, black: string, ends: seq<TagPair>, result: string): seq<TagPair> {
    [TagPair("Event", "KakaoPvP"), TagPair("Site", "Iris"), TagPair("Date", date),
     TagPair("White", white), TagPair("Black", black)] + ends + [TagPair("Result", result)]
  }

  /** The tag pairs of a saved game, in the order they are written. */
  function TagsOf(g: Game, date: string, result: string, how: string): seq<TagPair> {
    var ends := if Trim(how) != "" then [TagPair("Termination", Sanitized(Lower(how)))] else [];
    TagList(date, Sanitized(g.whiteName), Sanitized(g.blackName), ends, result)
  }

  /** Whatever tag of this name there is has this value, and there is one. */
  ghost predicate Says(tags: seq<TagPair>, name: string, value: string) {
    forall v :: TagPair(name, v) in tags <==> v == value
  }

  /** The tags tell the players by colour, the date and the result, and how the game ended if that is known. */
  ghost predicate Tells(tags: seq<TagPair>, g: Game, date: string, result: string, how: string) {
    && Says(tags, "Event", "KakaoPvP") && Says(tags, "Site", "Iris") && Says(tags, "Date", date)
    && Says(tags, "White", Sanitized(g.whiteName)) && Says(tags, "Black", Sanitized(g.blackName))
    && Says(tags, "Result", result)
    && (Trim(how) != "" ==> Says(tags, "Termination", Sanitized(Lower(how))))
    && (Trim(how) == "" ==> forall v :: TagPair("Termination", v) !in tags)
  }

  /** Tags whose names start with different letters each say one thing. */
  lemma EachSays(tags: seq<TagPair>, i: nat)
    requires i < |tags| && tags[i].name != ""
    requires forall j :: 0 <= j < |tags| && j != i ==> tags[j].name != "" && tags[j].name[0] != tags[i].name[0]
    ensures Says(tags, tags[i].name, tags[i].value)
  {
    forall v | TagPair(tags[i].name, v) in tags ensures v == tags[i].value {
      var j :| 0 <= j < |tags| && tags[j] == TagPair(tags[i].name, v);
      assert j == i;
    }
    assert tags[i] in tags;
  }

  /** The first letter of each name. */
  ghost predicate Lettered(tags: seq<TagPair>, letters: string) {
    |tags| == |letters| && forall i :: 0 <= i < |tags| ==> tags[i].name != "" && tags[i].name[0] == letters[i]
  }

  lemma TagLetters(date: string, white: string, black: string, how: string, result: string)
    ensures Lettered(TagList(date, white, black, [], result), "ESDWBR")
    ensures Lettered(TagList(date, white, black, [TagPair("Termination", how)], result), "ESDWBTR")
  {
  }

  lemma LettersSay(tags: seq<TagPair>, letters: string)
    requires Lettered(tags, letters) && forall i, j :: 0 <= i < j < |letters| ==> letters[i] != letters[j]
    ensures forall i :: 0 <= i < |tags| ==> Says(tags, tags[i].name, tags[i].value)
  {
    forall i | 0 <= i < |tags| ensures Says(tags, tags[i].name, tags[i].value) {
      EachSays(tags, i);
    }
  }

  lemma NoTermination(tags: seq<TagPair>, letters: string)
    requires Lettered(tags, letters) && 'T' !in letters
    ensures forall v :: TagPair("Termination", v) !in tags
  {
    forall t | t in tags ensures t.name != "Termination" {
      var i :| 0 <= i < |tags| && tags[i] == t;
      assert letters[i] in letters;
    }
  }

  /** What the five first tags and the last one say. */
  ghost predicate SaySix(tags: seq<TagPair>, date: string, white: string, black: string, result: string) {
    && Says(tags, "Event", "KakaoPvP") && Says(tags, "Site", "Iris") && Says(tags, "Date", date)
    && Says(tags, "White", white) && Says(tags, "Black", black) && Says(tags, "Result", result)
  }

  lemma SixAre(tags: seq<TagPair>, n: nat)
    requires 5 <= n < |tags| && forall i :: 0 <= i < |tags| ==> Says(tags, tags[i].name, tags[i].value)
    requires tags[0] == TagPair("Event", "KakaoPvP") && tags[1] == TagPair("Site", "Iris") && tags[2].name == "Date"
    requires tags[3].name == "White" && tags[4].name == "Black" && tags[n].name == "Result"
    ensures SaySix(tags, tags[2].value, tags[3].value, tags[4].value, tags[n].value)
  {
    assert Says(tags, tags[0].name, tags[0].value) && Says(tags, tags[1].name, tags[1].value);
  }

  lemma ShortListSays(date: string, white: string, black: string, result: string)
    ensures var tags := TagList(date, white, black, [], result);
      SaySix(tags, date, white, black, result) && forall v :: TagPair("Termination", v) !in tags
  {
    var tags := TagList(date, white, black, [], result);
    TagLetters(date, white, black, "", result);
    NoTermination(tags, "ESDWBR");
    LettersSay(tags, "ESDWBR");
    SixAre(tags, 5);
  }

  lemma LongListSays(date: string, white: string, black: string, how: string, result: string)
    ensures var tags := TagList(date, white, black, [TagPair("Termination", how)], result);
      SaySix(tags, date, white, black, result) && Says(tags, "Termination", how)
  {
    var tags := TagList(date, white, black, [TagPair("Termination", how)], result);
    TagLetters(date, white, black, how, result);
    LettersSay(tags, "ESDWBTR");
    SixAre(tags, 6);
    assert Says(tags, tags[5].name, tags[5].value);
  }

  lemma TagsTell(g: Game, date: string, result: string, how: string)
    ensures Tells(TagsOf(g, date, result, how), g, date, result, how)
  {
    var white, black := Sanitized(g.whiteName), Sanitized(g.blackName);
    if Trim(how) == "" {
      ShortListSays(date, white, black, result);
    } else {
      LongListSays(date, white, black, Sanitized(Lower(how)), result);
    }
  }

  lemma {:induction false} TagsTextJoin(a: seq<TagPair>, b: seq<TagPair>)
    ensures TagsText(a + b) == TagsText(a) + TagsText(b)
  {
    if a == [] {
      assert a + b == b;
    } else {
      assert (a + b)[1..] == a[1..] + b;
      TagsTextJoin(a[1..], b);
      assert Tag(a[0].name, a[0].value) + (TagsText(a[1..]) + TagsText(b)) ==
             Tag(a[0].name, a[0].value) + TagsText(a[1..]) + TagsText(b);
    }
  }

  lemma OneTagText(t: TagPair)
    ensures TagsText([t]) == Tag(t.name, t.value)
  {
    assert [t][1..] == [];
    assert Tag(t.name, t.value) + "" == Tag(t.name, t.value);
  }

  lemma TagsTextSnoc(tags: seq<TagPair>, t: TagPair)
    ensures TagsText(tags + [t]) == TagsText(tags) + Tag(t.name, t.value)
  {
    TagsTextJoin(tags, [t]);
    OneTagText(t);
  }

  lemma HeaderIsTags(g: Game, date: string, result: string, how: string)
    ensures Header(g, date, result, how) == TagsText(TagsOf(g, date, result, how)) + "\n"
  {
    var event, site := TagPair("Event", "KakaoPvP"), TagPair("Site", "Iris");
    var day := TagPair("Date", date);
    var white, black := TagPair("White", Sanitized(g.whiteName)), TagPair("Black", Sanitized(g.blackName));
    OneTagText(event);
    TagsTextSnoc([event], site);
    TagsTextSnoc([event, site], day);
    TagsTextSnoc([event, site, day], white);
    TagsTextSnoc([event, site, day, white], black);
    var five := [event, site, day, white, black];
    assert [event] + [site] == [event, site] && [event, site] + [day] == [event, site, day];
    assert [event, site, day] + [white] == [event, site, day, white] && [event, site, day, white] + [black] == five;
    if Trim(how) != "" {
      var end := TagPair("Termination", Sanitized(Lower(how)));
      TagsTextSnoc(five, end);
      TagsTextSnoc(five + [end], TagPair("Result", result));
    } else {
      assert five + [] == five && TagsText(five) + "" == TagsText(five);
      TagsTextSnoc(five, TagPair("Result", result));
    }
  }

  // ----- Reading back -----

  lemma {:induction false} IndexAfter(a: string, c: char, b: string)
    requires c !in a
    ensures IndexOf(a + [c] + b, c) == |a|
  {
    if a != [] {
      assert (a + [c] + b)[1..] == a[1..] + [c] + b;
      IndexAfter(a[1..], c, b);
    }
  }

  /** The line of a tag, up to its value. */
  function Opening(name: string): string {
    "[" + name + " "
  }

  lemma OpeningHasNoQuote(name: string)
    requires QUOTE !in name
    ensures QUOTE !in Opening(name)
  {
  }

  /** A line that opens like a tag and holds no second quotation mark is no tag. */
  lemma UnclosedTagFails(name: string, value: string)
    requires QUOTE !in name && QUOTE !in value
    ensures ReadTag(Opening(name) + [QUOTE] + value).None?
  {
    var line := Opening(name) + [QUOTE] + value;
    OpeningHasNoQuote(name);
    IndexAfter(Opening(name), QUOTE, value);
    var q := |Opening(name)|;
    if |line| >= q + 3 {
      assert line[|line| - 2] == value[|value| - 2];
      assert line[|line| - 2..][0] == line[|line| - 2];
    }
  }

  lemma TagLineReads(name: string, value: string)
    requires name != [] && QUOTE !in name && QUOTE !in value
    ensures ReadTag(Opening(name) + [QUOTE] + (value + [QUOTE, ']'])) == Some(TagPair(name, value))
  {
    var tail := value + [QUOTE, ']'];
    var line := Opening(name) + [QUOTE] + tail;
    OpeningHasNoQuote(name);
    IndexAfter(Opening(name), QUOTE, tail);
    var q := |Opening(name)|;
    assert line[q - 1] == ' ' && line[1..q - 1] == name;
    assert line[q + 1..|line| - 2] == value;
    assert line[|line| - 2..] == [QUOTE, ']'];
  }

  lemma TagParts(name: string, value: string)
    ensures Tag(name, value) == Opening(name) + [QUOTE] + (value + [QUOTE, ']']) + ['\n']
  {
  }

  /** Splitting at the first line break. */
  lemma FirstLine(line: string, rest: string)
    requires '\n' !in line
    ensures IndexOf(line + ['\n'] + rest, '\n') == |line|
    ensures (line + ['\n'] + rest)[..|line|] == line && (line + ['\n'] + rest)[|line| + 1..] == rest
  {
    IndexAfter(line, '\n', rest);
  }

  lemma WholeTagFirst(t: TagPair, rest: string)
    requires PlainTag(t) && '\n' !in t.value
    ensures ReadTags(Tag(t.name, t.value) + rest) ==
            match ReadTags(rest)
            case None => None
            case Some((tags, left)) => Some(([t] + tags, left))
  {
    var line := Opening(t.name) + [QUOTE] + (t.value + [QUOTE, ']']);
    PlainNameHas(t.name);
    TagParts(t.name, t.value);
    TagLineReads(t.name, t.value);
    FirstLine(line, rest);
  }

  /** A tag whose value has a line break, cut there. */
  lemma BrokenTagParts(t: TagPair, rest: string, n: nat)
    requires n < |t.value| && t.value[n] == '\n'
    ensures Tag(t.name, t.value) + rest ==
            Opening(t.name) + [QUOTE] + t.value[..n] + ['\n'] + (t.value[n + 1..] + [QUOTE, ']'] + ['\n'] + rest)
  {
    TagParts(t.name, t.value);
    assert t.value == t.value[..n] + ['\n'] + t.value[n + 1..];
  }

  lemma OpenLineHasNoBreak(name: string, before: string)
    requires '\n' !in name && '\n' !in before
    ensures '\n' !in Opening(name) + [QUOTE] + before
  {
  }

  /** A value with a line break leaves a first line that is no tag. */
  lemma BrokenTagFirst(t: TagPair, rest: string)
    requires PlainTag(t) && '\n' in t.value
    ensures ReadTags(Tag(t.name, t.value) + rest).None?
  {
    var n := IndexOf(t.value, '\n');
    BrokenTagParts(t, rest, n);
    PlainNameHas(t.name);
    OpenLineHasNoBreak(t.name, t.value[..n]);
    FirstLine(Opening(t.name) + [QUOTE] + t.value[..n], t.value[n + 1..] + [QUOTE, ']'] + ['\n'] + rest);
    UnclosedTagFails(t.name, t.value[..n]);
  }

  /** Tags read back exactly when no value holds a line break; otherwise nothing does. */
  lemma {:induction false} TagsReadBack(tags: seq<TagPair>, rest: string)
    requires AllPlain(tags)
    ensures ReadTags(TagsText(tags) + ['\n'] + rest) == if AllOneLine(tags) then Some((tags, rest)) else None
  {
    if tags == [] {
      FirstLine([], rest);
      assert TagsText(tags) + ['\n'] + rest == [] + ['\n'] + rest;
    } else {
      var t, later := tags[0], TagsText(tags[1..]) + ['\n'] + rest;
      assert TagsText(tags) + ['\n'] + rest == Tag(t.name, t.value) + later;
      assert tags == [t] + tags[1..];
      TagsReadBack(tags[1..], rest);
      if '\n' in t.value {
        BrokenTagFirst(t, later);
      } else {
        WholeTagFirst(t, later);
      }
    }
  }

  // ----- The saved text -----

  /** No name keeps a line break inside. */
  predicate OneLineNames(g: Game, how: string) {
    && '\n' !in Sanitized(g.whiteName) && '\n' !in Sanitized(g.blackName)
    && (Trim(how) != "" ==> '\n' !in Sanitized(Lower(how)))
  }

  /** The formatted date: digits and dots. */
  predicate IsDate(date: string) {
    forall c :: c in date ==> IsDigit(c) || c == '.'
  }

  lemma FixedTagsArePlain(date: string)
    requires IsDate(date)
    ensures var tags := [TagPair("Event", "KakaoPvP"), TagPair("Site", "Iris"), TagPair("Date", date)];
            AllPlain(tags) && AllOneLine(tags)
  {
  }

  lemma NamesArePlain()
    ensures PlainName("White") && PlainName("Black") && PlainName("Termination") && PlainName("Result")
  {
  }

  lemma SanitizedTag(name: string, text: string)
    requires PlainName(name)
    ensures AllPlain([TagPair(name, Sanitized(text))])
    ensures AllOneLine([TagPair(name, Sanitized(text))]) <==> '\n' !in Sanitized(text)
  {
    SanitizedHasNoQuotes(text);
    assert [TagPair(name, Sanitized(text))][0].value == Sanitized(text);
  }

  lemma AllOfJoin(a: seq<TagPair>, b: seq<TagPair>)
    ensures AllPlain(a + b) <==> AllPlain(a) && AllPlain(b)
    ensures AllOneLine(a + b) <==> AllOneLine(a) && AllOneLine(b)
  {
    assert forall t :: t in a ==> t in a + b;
    assert forall t :: t in b ==> t in a + b;
  }

  lemma ResultTag(result: string)
    requires IsMarker(result)
    ensures AllPlain([TagPair("Result", result)]) && AllOneLine([TagPair("Result", result)])
  {
  }

  /** The five tags every game has. */
  lemma FirstTags(g: Game, date: string)
    requires IsDate(date)
    ensures var tags := [TagPair("Event", "KakaoPvP"), TagPair("Site", "Iris"), TagPair("Date", date),
                         TagPair("White", Sanitized(g.whiteName)), TagPair("Black", Sanitized(g.blackName))];
            && AllPlain(tags)
            && (AllOneLine(tags) <==> '\n' !in Sanitized(g.whiteName) && '\n' !in Sanitized(g.blackName))
  {
    var fixed := [TagPair("Event", "KakaoPvP"), TagPair("Site", "Iris"), TagPair("Date", date)];
    var white, black := [TagPair("White", Sanitized(g.whiteName))], [TagPair("Black", Sanitized(g.blackName))];
    FixedTagsArePlain(date);
    NamesArePlain();
    SanitizedTag("White", g.whiteName);
    SanitizedTag("Black", g.blackName);
    AllOfJoin(fixed, white);
    AllOfJoin(fixed + white, black);
    assert fixed + white + black ==
           [TagPair("Event", "KakaoPvP"), TagPair("Site", "Iris"), TagPair("Date", date), white[0], black[0]];
  }

  lemma TagsArePlain(g: Game, date: string, result: string, how: string)
    requires IsDate(date) && IsMarker(result)
    ensures AllPlain(TagsOf(g, date, result, how))
    ensures AllOneLine(TagsOf(g, date, result, how)) <==> OneLineNames(g, how)
  {
    var first := [TagPair("Event", "KakaoPvP"), TagPair("Site", "Iris"), TagPair("Date", date),
                  TagPair("White", Sanitized(g.whiteName)), TagPair("Black", Sanitized(g.blackName))];
    var end := if Trim(how) != "" then [TagPair("Termination", Sanitized(Lower(how)))] else [];
    FirstTags(g, date);
    NamesArePlain();
    SanitizedTag("Termination", Lower(how));
    ResultTag(result);
    AllOfJoin(first, end);
    AllOfJoin(first + end, [TagPair("Result", result)]);
  }

  /** The header reads back as the game's tags exactly when the names hold no line break; otherwise not at all. */
  lemma HeaderReadsBack(g: Game, date: string, result: string, how: string, rest: string)
    requires IsDate(date) && IsMarker(result)
    ensures ReadTags(Header(g, date, result, how) + rest) ==
            if OneLineNames(g, how) then Some((TagsOf(g, date, result, how), rest)) else None
  {
    var tags := TagsOf(g, date, result, how);
    HeaderIsTags(g, date, result, how);
    TagsArePlain(g, date, result, how);
    TagsReadBack(tags, rest);
    assert TagsText(tags) + "\n" + rest == TagsText(tags) + ['\n'] + rest;
  }

  /** The text of a saved game reads back whole, tags, moves, numbers and result, exactly under that condition. */
  lemma PgnReadsBack(g: Game, date: string, how: string)
    requires IsDate(date) && forall s :: s in g.movesSan ==> PlainSan(s)
    ensures var result := Marker(ResultOf(g));
      ReadPgn(Header(g, date, result, how) + Movetext(g.movesSan, 0, result)) ==
      if OneLineNames(g, how) then
        Some((TagsOf(g, date, result, how), Reading(Numbers(|g.movesSan|, 0), g.movesSan, result)))
      else None
    ensures Tells(TagsOf(g, date, Marker(ResultOf(g)), how), g, date, Marker(ResultOf(g)), how)
  {
    var result := Marker(ResultOf(g));
    TagsTell(g, date, result, how);
    HeaderReadsBack(g, date, result, how, Movetext(g.movesSan, 0, result));
    MovetextReadsBack(g);
  }
}
