/** Message templates: nested YAML maps flattened to dotted keys, and override files applied over the defaults. */
module MessageCatalog {
  import opened Options
  import opened Text

  /** A parsed YAML value: text, null, a map, or anything else. */
  datatype Value = Leaf(text: string) | Nil | Other | Node(children: map<string, Value>)

  // ----- Trees and paths -----

  /** The value at the end of a path of keys. */
  function Follow(v: Value, path: seq<string>): Option<Value>
    decreases |path|
  {
    if path == [] then Some(v)
    else if v.Node? && path[0] in v.children then Follow(v.children[path[0]], path[1..])
    else None
  }

  function Extend(prefix: string, key: string): string {
    if prefix == "" then key else prefix + "." + key
  }

  /** The flat key that a path below a prefix gets. */
  function FlatKey(prefix: string, path: seq<string>): string
    decreases |path|
  {
    if path == [] then prefix else FlatKey(Extend(prefix, path[0]), path[1..])
  }

  /** Some path below the prefix that flattens to k ends at this text. */
  ghost predicate Source(v: Value, prefix: string, k: string, text: string) {
    exists path :: FlatKey(prefix, path) == k && Follow(v, path) == Some(Leaf(text))
  }

  /** Flattening succeeds: only texts and nulls at the leaves, and no text without a key. */
  predicate Flattenable(v: Value, prefix: string)
    decreases v
  {
    match v
    case Leaf(_) => prefix != ""
    case Nil => true
    case Other => false
    case Node(children) => forall k :: k in children ==> Flattenable(children[k], Extend(prefix, k))
  }

  /** A path ends at something that cannot be a message, or at a text that would get no key. */
  ghost predicate Unusable(v: Value, prefix: string, path: seq<string>) {
    match Follow(v, path)
    case Some(Other) => true
    case Some(Leaf(_)) => FlatKey(prefix, path) == ""
    case _ => false
  }

  /** Flattening succeeds exactly when no path is unusable. */
  lemma {:induction false} FlattenableIff(v: Value, prefix: string)
    ensures Flattenable(v, prefix) <==> forall path :: !Unusable(v, prefix, path)
    decreases v
  {
    if v.Node? {
      forall k | k in v.children
        ensures Flattenable(v.children[k], Extend(prefix, k)) <==>
                forall path :: !Unusable(v.children[k], Extend(prefix, k), path)
      {
        FlattenableIff(v.children[k], Extend(prefix, k));
      }
      forall path | Unusable(v, prefix, path)
        ensures exists k :: k in v.children && !Flattenable(v.children[k], Extend(prefix, k))
      {
        assert path != [];
        assert Unusable(v.children[path[0]], Extend(prefix, path[0]), path[1..]);
      }
      forall k, path | k in v.children && Unusable(v.children[k], Extend(prefix, k), path)
        ensures Unusable(v, prefix, [k] + path)
      {
        assert ([k] + path)[1..] == path;
      }
    } else {
      assert Unusable(v, prefix, []) <==> !Flattenable(v, prefix);
      assert forall path :: path != [] ==> !Unusable(v, prefix, path);
    }
  }

  // ----- Flattening -----

  /** One of the chosen children is the source. */
  ghost predicate SourceAmong(
      children: map<string, Value>, chosen: set<string>, prefix: string, k: string, text: string)
    requires chosen <= children.Keys
  {
    exists key :: key in chosen && Source(children[key], Extend(prefix, key), k, text)
  }

  lemma NodeSource(v: Value, prefix: string, k: string, text: string)
    requires v.Node?
    ensures Source(v, prefix, k, text) <==> SourceAmong(v.children, v.children.Keys, prefix, k, text)
  {
    if Source(v, prefix, k, text) {
      var path :| FlatKey(prefix, path) == k && Follow(v, path) == Some(Leaf(text));
      assert path != [];
      assert FlatKey(Extend(prefix, path[0]), path[1..]) == k;
      assert Follow(v.children[path[0]], path[1..]) == Some(Leaf(text));
      assert Source(v.children[path[0]], Extend(prefix, path[0]), k, text);
    }
    if SourceAmong(v.children, v.children.Keys, prefix, k, text) {
      var key :| key in v.children && Source(v.children[key], Extend(prefix, key), k, text);
      var path :| FlatKey(Extend(prefix, key), path) == k && Follow(v.children[key], path) == Some(Leaf(text));
      assert ([key] + path)[1..] == path;
      assert FlatKey(prefix, [key] + path) == k;
      assert Follow(v, [key] + path) == Some(Leaf(text));
    }
  }

  lemma LeafSource(v: Value, prefix: string, k: string, text: string)
    requires !v.Node?
    ensures Source(v, prefix, k, text) <==> v == Leaf(text) && k == prefix
  {
    if v == Leaf(text) && k == prefix {
      assert FlatKey(prefix, []) == k && Follow(v, []) == Some(Leaf(text));
    }
  }

  /**
   * What writing some sources into a map may give: every source's key holds the text of one of its sources, and every
   * other key what it held before.
   */
  ghost predicate Wrote(
      before: map<string, string>, after: map<string, string>, source: (string, string) -> bool)
  {
    && (forall k :: k in after <==> k in before || exists text :: source(k, text))
    && (forall k :: k in after ==>
          source(k, after[k]) || (k in before && after[k] == before[k] && !exists text :: source(k, text)))
  }

  lemma WroteUnion(
      before: map<string, string>, mid: map<string, string>, flat: map<string, string>,
      was: (string, string) -> bool, more: (string, string) -> bool, all: (string, string) -> bool)
    requires Wrote(before, mid, was) && Wrote(map[], flat, more)
    requires forall k, text :: all(k, text) <==> was(k, text) || more(k, text)
    ensures Wrote(before, mid + flat, all)
  {
  }

  lemma WroteThen(
      before: map<string, string>, mid: map<string, string>, after: map<string, string>,
      was: (string, string) -> bool, more: (string, string) -> bool, all: (string, string) -> bool)
    requires Wrote(before, mid, was) && Wrote(mid, after, more)
    requires forall k, text :: all(k, text) <==> was(k, text) || more(k, text)
    ensures Wrote(before, after, all)
  {
  }

  lemma WroteUnique(
      before: map<string, string>, a: map<string, string>, b: map<string, string>,
      source: (string, string) -> bool, again: (string, string) -> bool)
    requires Wrote(before, a, source) && Wrote(before, b, again)
    requires forall k, text :: source(k, text) <==> again(k, text)
    requires forall k, t, u :: source(k, t) && source(k, u) ==> t == u
    ensures a == b
  {
  }

  ghost function SourcesOf(v: Value, prefix: string): (string, string) -> bool {
    (k, text) => Source(v, prefix, k, text)
  }

  ghost function SourcesAmong(
      children: map<string, Value>, chosen: set<string>, prefix: string): (string, string) -> bool
    requires chosen <= children.Keys
  {
    (k, text) => SourceAmong(children, chosen, prefix, k, text)
  }

  lemma WroteMore(
      before: map<string, string>, mid: map<string, string>, after: map<string, string>,
      children: map<string, Value>, chosen: set<string>, key: string, prefix: string)
    requires chosen <= children.Keys && key in children
    requires Wrote(before, mid, SourcesAmong(children, chosen, prefix))
    requires Wrote(mid, after, SourcesOf(children[key], Extend(prefix, key)))
    ensures Wrote(before, after, SourcesAmong(children, chosen + {key}, prefix))
  {
    var was := SourcesAmong(children, chosen, prefix);
    var more := SourcesOf(children[key], Extend(prefix, key));
    var all := SourcesAmong(children, chosen + {key}, prefix);
    forall k, text ensures all(k, text) <==> was(k, text) || more(k, text) {
      if was(k, text) {
        var d :| d in chosen && Source(children[d], Extend(prefix, d), k, text);
        assert d in chosen + {key};
      }
      if more(k, text) {
        assert key in chosen + {key};
      }
    }
    WroteThen(before, mid, after, was, more, all);
  }

  lemma LeafWrote(before: map<string, string>, v: Value, prefix: string)
    requires !v.Node?
    ensures Wrote(before, if v.Leaf? then before[prefix := v.text] else before, SourcesOf(v, prefix))
  {
    var source := SourcesOf(v, prefix);
    forall k, t ensures source(k, t) <==> v == Leaf(t) && k == prefix {
      LeafSource(v, prefix, k, t);
    }
    if v.Leaf? {
      assert source(prefix, v.text);
    }
  }

  lemma NodeWrote(before: map<string, string>, after: map<string, string>, v: Value, prefix: string)
    requires v.Node? && Wrote(before, after, SourcesAmong(v.children, v.children.Keys, prefix))
    ensures Wrote(before, after, SourcesOf(v, prefix))
  {
    forall k, text
      ensures SourcesOf(v, prefix)(k, text) <==> SourcesAmong(v.children, v.children.Keys, prefix)(k, text)
    {
      NodeSource(v, prefix, k, text);
    }
  }

  /** Flattens the children of a node, visited in any order. */
  method FlattenChildren(children: map<string, Value>, prefix: string, out: map<string, string>, ghost v: Value)
      returns (ok: bool, r: map<string, string>)
    requires v == Node(children)
    ensures ok <==> Flattenable(v, prefix)
    ensures ok ==> Wrote(out, r, SourcesAmong(children, children.Keys, prefix))
    decreases v, 0
  {
    r := out;
    var todo := children.Keys;
    while todo != {}
      invariant todo <= children.Keys
      invariant forall key :: key in children && key !in todo ==> Flattenable(children[key], Extend(prefix, key))
      invariant Wrote(out, r, SourcesAmong(children, children.Keys - todo, prefix))
      decreases todo
    {
      var key :| key in todo;
      ghost var mid := r;
      ok, r := Flatten(children[key], Extend(prefix, key), r);
      if !ok {
        return;
      }
      WroteMore(out, mid, r, children, children.Keys - todo, key, prefix);
      assert children.Keys - todo + {key} == children.Keys - (todo - {key});
      todo := todo - {key};
    }
    assert children.Keys - {} == children.Keys;
    ok := true;
  }

  /** Writes every text of a tree under its dotted key. */
  method Flatten(v: Value, prefix: string, out: map<string, string>) returns (ok: bool, r: map<string, string>)
    ensures ok <==> Flattenable(v, prefix)
    ensures ok ==> Wrote(out, r, SourcesOf(v, prefix))
    decreases v, 1
  {
    r := out;
    match v
    case Node(children) =>
      ok, r := FlattenChildren(children, prefix, r, v);
      if ok {
        NodeWrote(out, r, v, prefix);
      }
    case Leaf(text) =>
      if prefix == "" {
        return false, r;
      }
      r := r[prefix := text];
      LeafWrote(out, v, prefix);
      ok := true;
    case Nil =>
      LeafWrote(out, v, prefix);
      ok := true;
    case Other =>
      ok := false;
  }

  // ----- Keys that can be taken apart -----

  /** No key of the tree is empty or has a dot. */
  predicate PlainKeys(v: Value)
    decreases v
  {
    v.Node? ==> forall k :: k in v.children ==> k != "" && '.' !in k && PlainKeys(v.children[k])
  }

  /** Where the first dot is. */
  function FirstDot(k: string): (n: nat)
    ensures n <= |k| && '.' !in k[..n] && (n < |k| ==> k[n] == '.')
  {
    if k == [] || k[0] == '.' then 0
    else
      var n := FirstDot(k[1..]);
      assert k[..n + 1] == [k[0]] + k[1..][..n];
      n + 1
  }

  /** The parts of a dotted key. */
  function Parts(k: string): seq<string>
    decreases |k|
  {
    var n := FirstDot(k);
    if n == |k| then [k] else [k[..n]] + Parts(k[n + 1..])
  }

  lemma FirstDotAt(part: string, rest: string)
    requires '.' !in part && (rest == [] || rest[0] == '.')
    ensures FirstDot(part + rest) == |part|
  {
    var s := part + rest;
    var n := FirstDot(s);
    assert forall i :: 0 <= i < |part| ==> s[i] == part[i] && part[i] in part;
    assert |part| < |s| ==> s[|part|] == '.';
    assert forall i :: 0 <= i < n ==> s[..n][i] in s[..n];
  }

  lemma PartsCons(part: string, rest: string)
    requires '.' !in part
    ensures Parts(part + "." + rest) == [part] + Parts(rest)
  {
    var k := part + "." + rest;
    assert k == part + ("." + rest);
    FirstDotAt(part, "." + rest);
    assert k[..|part|] == part && k[|part| + 1..] == rest;
  }

  lemma {:induction false} PartsOfJoined(parts: seq<string>)
    requires parts != [] && forall p :: p in parts ==> '.' !in p
    ensures Parts(Join(parts, ".")) == parts
  {
    var head, tail := parts[0], parts[1..];
    assert head in parts && parts == [head] + tail;
    if tail == [] {
    } else {
      assert forall p :: p in tail ==> p in parts;
      PartsOfJoined(tail);
      PartsCons(head, Join(tail, "."));
    }
  }

  lemma CutAtDot(k: string, n: nat)
    requires n < |k| && k[n] == '.'
    ensures k == k[..n] + "." + k[n + 1..]
  {
  }

  lemma {:induction false} JoinOfParts(k: string)
    ensures Parts(k) != [] && Join(Parts(k), ".") == k
    decreases |k|
  {
    var n := FirstDot(k);
    if n < |k| {
      JoinOfParts(k[n + 1..]);
      CutAtDot(k, n);
    }
  }

  lemma {:induction false} FollowedKeysArePlain(v: Value, path: seq<string>)
    requires PlainKeys(v) && Follow(v, path).Some?
    ensures forall p :: p in path ==> p != "" && '.' !in p
    decreases |path|
  {
    if path != [] {
      FollowedKeysArePlain(v.children[path[0]], path[1..]);
      assert path == [path[0]] + path[1..];
    }
  }

  lemma ExtendTwice(prefix: string, key: string, rest: string)
    requires key != ""
    ensures Extend(Extend(prefix, key), rest) == Extend(prefix, key + "." + rest)
  {
    if prefix != "" {
      assert prefix + "." + key + "." + rest == prefix + "." + (key + "." + rest);
    }
  }

  lemma {:induction false} FlatKeyIsJoin(prefix: string, path: seq<string>)
    requires path != [] && forall p :: p in path ==> p != ""
    ensures FlatKey(prefix, path) == Extend(prefix, Join(path, "."))
    decreases |path|
  {
    var head, tail := path[0], path[1..];
    assert head in path;
    if tail == [] {
      assert path == [head];
    } else {
      assert forall p :: p in tail ==> p in path;
      FlatKeyIsJoin(Extend(prefix, head), tail);
      assert path == [head] + tail;
      ExtendTwice(prefix, head, Join(tail, "."));
    }
  }

  /** In a tree with plain keys, a source of a flat key is where walking along the key's parts ends. */
  lemma SourceIsWalk(v: Value, k: string, text: string)
    requires v.Node? && PlainKeys(v)
    ensures Source(v, "", k, text) <==> Follow(v, Parts(k)) == Some(Leaf(text))
  {
    if Source(v, "", k, text) {
      var path :| FlatKey("", path) == k && Follow(v, path) == Some(Leaf(text));
      assert path != [];
      FollowedKeysArePlain(v, path);
      FlatKeyIsJoin("", path);
      PartsOfJoined(path);
    }
    if Follow(v, Parts(k)) == Some(Leaf(text)) {
      FollowedKeysArePlain(v, Parts(k));
      JoinOfParts(k);
      FlatKeyIsJoin("", Parts(k));
    }
  }

  /**
   * The flattened map can be taken apart again: a key holds a text exactly when walking the tree along the key's
   * parts ends at that text, whatever order the maps were visited in.
   */
  lemma FlatMapIsWalk(v: Value, flat: map<string, string>, k: string, text: string)
    requires v.Node? && PlainKeys(v) && Wrote(map[], flat, SourcesOf(v, ""))
    ensures (k in flat && flat[k] == text) <==> Follow(v, Parts(k)) == Some(Leaf(text))
  {
    SourceIsWalk(v, k, text);
    if k in flat {
      assert SourcesOf(v, "")(k, flat[k]);
      SourceIsWalk(v, k, flat[k]);
    }
    if Source(v, "", k, text) {
      assert SourcesOf(v, "")(k, text);
    }
  }

  const INNER_TREE := Node(map["b" := Leaf("y")])
  const DOTTED_TREE := Node(map["a.b" := Leaf("x"), "a" := INNER_TREE])

  lemma InnerSources(k: string, t: string)
    ensures Source(INNER_TREE, "a", k, t) <==> k == "a.b" && t == "y"
  {
    NodeSource(INNER_TREE, "a", k, t);
    LeafSource(Leaf("y"), "a.b", k, t);
    assert Extend("a", "b") == "a.b" && INNER_TREE.children.Keys == {"b"};
    if k == "a.b" && t == "y" {
      assert "b" in INNER_TREE.children && Source(INNER_TREE.children["b"], Extend("a", "b"), k, t);
    }
  }

  lemma DottedSources(k: string, t: string)
    ensures Source(DOTTED_TREE, "", k, t) <==> k == "a.b" && (t == "x" || t == "y")
  {
    var v := DOTTED_TREE;
    assert v.children.Keys == {"a.b", "a"} && v.children["a.b"] == Leaf("x") && v.children["a"] == INNER_TREE;
    NodeSource(v, "", k, t);
    LeafSource(Leaf("x"), "a.b", k, t);
    InnerSources(k, t);
    if k == "a.b" && t == "x" {
      assert Source(v.children["a.b"], Extend("", "a.b"), k, t);
    }
    if k == "a.b" && t == "y" {
      assert Source(v.children["a"], Extend("", "a"), k, t);
    }
  }

  /** Without plain keys two leaves can share a flat key, and the order decides which text stays. */
  lemma DottedKeysCollide()
    ensures Flattenable(DOTTED_TREE, "") && !PlainKeys(DOTTED_TREE)
    ensures Wrote(map[], map["a.b" := "x"], SourcesOf(DOTTED_TREE, ""))
    ensures Wrote(map[], map["a.b" := "y"], SourcesOf(DOTTED_TREE, ""))
  {
    assert "a.b" in DOTTED_TREE.children && '.' in "a.b" by {
      assert "a.b"[1] == '.';
    }
    var source := SourcesOf(DOTTED_TREE, "");
    forall k, t ensures source(k, t) <==> k == "a.b" && (t == "x" || t == "y") {
      DottedSources(k, t);
    }
    assert source("a.b", "x") && source("a.b", "y");
  }

  lemma OnlyOutcomeIff(source: (string, string) -> bool, flat: map<string, string>)
    requires Wrote(map[], flat, source)
    ensures (forall other :: Wrote(map[], other, source) ==> other == flat) <==>
            (forall k, t, u :: source(k, t) && source(k, u) ==> t == u)
  {
    if forall k, t, u :: source(k, t) && source(k, u) ==> t == u {
      forall other | Wrote(map[], other, source) ensures other == flat {
        WroteUnique(map[], other, flat, source, source);
      }
    }
    if k, t, u :| source(k, t) && source(k, u) && t != u {
      var other := flat[k := if flat[k] == t then u else t];
      assert other[k] != flat[k];
      assert Wrote(map[], other, source);
    }
  }

  /** The flattened map is the only possible one exactly when no flat key has sources with different texts. */
  lemma DeterminedIff(v: Value, prefix: string, flat: map<string, string>)
    requires Wrote(map[], flat, SourcesOf(v, prefix))
    ensures (forall other :: Wrote(map[], other, SourcesOf(v, prefix)) ==> other == flat) <==>
            (forall k, t, u :: Source(v, prefix, k, t) && Source(v, prefix, k, u) ==> t == u)
  {
    var source := SourcesOf(v, prefix);
    OnlyOutcomeIff(source, flat);
    assert forall k, t :: source(k, t) <==> Source(v, prefix, k, t);
  }

  // ----- Files -----

  /** A file that can be read and flattened; its document is a map. */
  predicate Usable(file: Option<Value>) {
    file.Some? && file.value.Node? && Flattenable(file.value, "")
  }

  ghost predicate Defines(file: Option<Value>, k: string) {
    file.Some? && exists text :: Source(file.value, "", k, text)
  }

  /** No two files define the same key. */
  ghost predicate Apart(files: seq<Option<Value>>) {
    forall i, j, k :: 0 <= i < j < |files| ==> !(Defines(files[i], k) && Defines(files[j], k))
  }

  /** The override files can be applied together. */
  ghost predicate Applicable(files: seq<Option<Value>>) {
    (forall i :: 0 <= i < |files| ==> Usable(files[i])) && Apart(files)
  }

  ghost function FileSources(files: seq<Option<Value>>): (string, string) -> bool {
    (k, text) => exists i :: 0 <= i < |files| && files[i].Some? && Source(files[i].value, "", k, text)
  }

  /** Adding a flattened file to what earlier files wrote. */
  lemma FileWrote(
      before: map<string, string>, mid: map<string, string>, flat: map<string, string>,
      files: seq<Option<Value>>, n: nat)
    requires n < |files| && files[n].Some?
    requires Wrote(before, mid, FileSources(files[..n])) && Wrote(map[], flat, SourcesOf(files[n].value, ""))
    ensures Wrote(before, mid + flat, FileSources(files[..n + 1]))
  {
    forall k, text
      ensures FileSources(files[..n + 1])(k, text) <==>
              FileSources(files[..n])(k, text) || SourcesOf(files[n].value, "")(k, text)
    {
    }
    WroteUnion(
      before, mid, flat, FileSources(files[..n]), SourcesOf(files[n].value, ""), FileSources(files[..n + 1]));
  }

  /** These are the keys the first n files define. */
  ghost predicate SeenExactly(seen: set<string>, files: seq<Option<Value>>, n: nat)
    requires n <= |files|
  {
    forall k :: k in seen <==> exists i :: 0 <= i < n && Defines(files[i], k)
  }

  class Catalog {
    var data: map<string, string>

    constructor ()
      ensures data == map[]
    {
      data := map[];
    }

    /** Flattens a parsed file; None stands for a file that cannot be read or whose YAML is not a map. */
    static method ParseToFlat(file: Option<Value>) returns (flat: Option<map<string, string>>)
      requires file.Some? ==> file.value.Node?
      ensures flat.Some? <==> Usable(file)
      ensures flat.Some? ==> Wrote(map[], flat.value, SourcesOf(file.value, ""))
    {
      if file.None? {
        return None;
      }
      var ok, r := Flatten(file.value, "", map[]);
      if !ok {
        return None;
      }
      return Some(r);
    }

    /** Parses a file and checks that it defines no key of an earlier file. */
    static method ParseUnseen(file: Option<Value>, seen: set<string>) returns (flat: Option<map<string, string>>)
      requires file.Some? ==> file.value.Node?
      ensures flat.Some? <==> Usable(file) && forall k :: Defines(file, k) ==> k !in seen
      ensures flat.Some? ==> Wrote(map[], flat.value, SourcesOf(file.value, ""))
    {
      flat := ParseToFlat(file);
      if flat.None? {
        return None;
      }
      FlatDefines(file, flat.value);
      var unseen := NoneSeen(flat.value, seen);
      if !unseen {
        return None;
      }
    }

    /** Loads the default messages. */
    method ApplyYaml(file: Option<Value>) returns (ok: bool)
      requires file.Some? ==> file.value.Node?
      modifies this
      ensures ok <==> Usable(file)
      ensures !ok ==> data == old(data)
      ensures ok ==> Wrote(old(data), data, SourcesOf(file.value, ""))
    {
      var flat := ParseToFlat(file);
      if flat.None? {
        return false;
      }
      data := data + flat.value;
      return true;
    }

    /** Applies override files in the order of their names, up to the first that cannot be applied after the others. */
    method ApplyDir(files: seq<Option<Value>>) returns (ok: bool, ghost applied: nat)
      requires forall f :: f in files && f.Some? ==> f.value.Node?
      modifies this
      ensures ok <==> Applicable(files)
      ensures ok ==> Wrote(old(data), data, FileSources(files))
      ensures applied <= |files| && Wrote(old(data), data, FileSources(files[..applied]))
      ensures Applicable(files[..applied]) && (applied < |files| ==> !Applicable(files[..applied + 1]))
    {
      var seen: set<string> := {};
      for n := 0 to |files|
        invariant Applicable(files[..n])
        invariant SeenExactly(seen, files, n)
        invariant Wrote(old(data), data, FileSources(files[..n]))
      {
        assert files[n] in files;
        var flat := ParseUnseen(files[n], seen);
        NextFile(files, n, seen);
        if flat.None? {
          return false, n;
        }
        FlatDefines(files[n], flat.value);
        seen := seen + flat.value.Keys;
        FileWrote(old(data), data, flat.value, files, n);
        data := data + flat.value;
      }
      assert files[..|files|] == files;
      return true, |files|;
    }
  }

  lemma FlatDefines(file: Option<Value>, flat: map<string, string>)
    requires file.Some? && Wrote(map[], flat, SourcesOf(file.value, ""))
    ensures forall k :: k in flat <==> Defines(file, k)
  {
    forall k ensures k in flat <==> Defines(file, k) {
      if Defines(file, k) {
        var text :| Source(file.value, "", k, text);
        assert SourcesOf(file.value, "")(k, text);
      }
      if k in flat {
        assert SourcesOf(file.value, "")(k, flat[k]);
      }
    }
  }

  /** The next file fits exactly when it is usable and defines none of the keys seen so far. */
  lemma NextFile(files: seq<Option<Value>>, n: nat, seen: set<string>)
    requires n < |files| && Applicable(files[..n]) && SeenExactly(seen, files, n)
    ensures Applicable(files[..n + 1]) <==> Usable(files[n]) && forall k :: Defines(files[n], k) ==> k !in seen
    ensures !Applicable(files[..n + 1]) ==> !Applicable(files)
  {
    var more := files[..n + 1];
    assert forall i :: 0 <= i < n ==> more[i] == files[..n][i];
    assert more[n] == files[n];
    if Applicable(files) {
      assert forall i :: 0 <= i < n + 1 ==> more[i] == files[i];
    }
  }

  /** Whether none of the flat keys was defined by an earlier file. */
  method NoneSeen(flat: map<string, string>, seen: set<string>) returns (ok: bool)
    ensures ok <==> forall k :: k in flat ==> k !in seen
  {
    var todo := flat.Keys;
    while todo != {}
      invariant todo <= flat.Keys
      invariant forall k :: k in flat && k !in todo ==> k !in seen
      decreases todo
    {
      var k :| k in todo;
      if k in seen {
        return false;
      }
      todo := todo - {k};
    }
    return true;
  }

  // ----- Independence of the file order -----

  /** The files in another order: `order` lists every place once. */
  ghost predicate Reordered(files: seq<Option<Value>>, again: seq<Option<Value>>, order: seq<nat>) {
    && |order| == |files| == |again|
    && (forall i :: 0 <= i < |order| ==> order[i] < |files| && again[i] == files[order[i]])
    && (forall i, j :: 0 <= i < j < |order| ==> order[i] != order[j])
    && (forall n: nat :: n < |files| ==> n in order)
  }

  lemma ReorderedSources(files: seq<Option<Value>>, again: seq<Option<Value>>, order: seq<nat>, k: string, text: string)
    requires Reordered(files, again, order)
    ensures FileSources(files)(k, text) <==> FileSources(again)(k, text)
  {
    if FileSources(files)(k, text) {
      var i: nat :| i < |files| && files[i].Some? && Source(files[i].value, "", k, text);
      assert i in order;
      var j :| 0 <= j < |order| && order[j] == i;
      assert again[j] == files[i];
    }
    if FileSources(again)(k, text) {
      var j :| 0 <= j < |again| && again[j].Some? && Source(again[j].value, "", k, text);
      assert files[order[j]] == again[j];
    }
  }

  /** Applicable files with plain keys give each key one text. */
  lemma FileTextUnique(files: seq<Option<Value>>, k: string, t: string, u: string)
    requires Applicable(files) && forall i :: 0 <= i < |files| ==> PlainKeys(files[i].value)
    requires FileSources(files)(k, t) && FileSources(files)(k, u)
    ensures t == u
  {
    var i :| 0 <= i < |files| && files[i].Some? && Source(files[i].value, "", k, t);
    var j :| 0 <= j < |files| && files[j].Some? && Source(files[j].value, "", k, u);
    assert Defines(files[i], k) && Defines(files[j], k);
    assert i == j;
    SourceIsWalk(files[i].value, k, t);
    SourceIsWalk(files[i].value, k, u);
  }

  /**
   * Override files that can be applied in one order can be applied in any, with the same catalog: the defaults with
   * every key of some file replaced by that file's text.
   */
  lemma OverridesAreOrderFree(
      before: map<string, string>, a: map<string, string>, b: map<string, string>,
      files: seq<Option<Value>>, again: seq<Option<Value>>, order: seq<nat>)
    requires Applicable(files) && forall i :: 0 <= i < |files| ==> PlainKeys(files[i].value)
    requires Reordered(files, again, order)
    requires Wrote(before, a, FileSources(files)) && Wrote(before, b, FileSources(again))
    ensures Applicable(again) && a == b
  {
    forall k, text ensures FileSources(files)(k, text) <==> FileSources(again)(k, text) {
      ReorderedSources(files, again, order, k, text);
    }
    forall k, t, u | FileSources(files)(k, t) && FileSources(files)(k, u) ensures t == u {
      FileTextUnique(files, k, t, u);
    }
    WroteUnique(before, a, b, FileSources(files), FileSources(again));
  }
}
