/** Difficulty presets: what makes one valid, and the setters that keep the registry valid. */
module Presets {
  import opened Options
  import opened Text

  datatype OpeningPreference = OpeningPreference(
    name: string, color: string, whiteMoves: seq<string>, blackMoves: seq<string>,
    probability: real, multiplier: real, force: bool)

  datatype CatalogConfig = CatalogConfig(
    key: string, keys: seq<string>, color: string, maxPly: int, minWeight: int, styleKey: string)

  /** The settings of a preset that copies of it do not share. */
  datatype Settings = Settings(
    name: string, skillLevel: int, threads: int, hashMB: int, moveTimeMillis: int, nodeCap: int, depthCap: int,
    multiPV: int, primaryChoices: int, evalNoise: int,
    preferences: seq<OpeningPreference>, catalog: CatalogConfig)

  /** A preset; its candidate weights sit in an array that copies of the preset share. */
  datatype Preset = Preset(settings: Settings, weights: array<real>)

  function Sum(ws: seq<real>, n: nat): real
    requires n <= |ws|
  {
    if n == 0 then 0.0 else Sum(ws, n - 1) + ws[n - 1]
  }

  predicate ValidPreference(pref: OpeningPreference) {
    && Trim(pref.name) != ""
    && pref.whiteMoves != [] && pref.blackMoves != []
    && Normal(pref.color) in {"", "black"}
    && 0.0 < pref.probability <= 1.0
    && pref.multiplier > 0.0
    && (forall m :: m in pref.whiteMoves ==> Trim(m) != "")
    && (forall m :: m in pref.blackMoves ==> Trim(m) != "")
  }

  predicate ValidPreferences(prefs: seq<OpeningPreference>) {
    forall p :: p in prefs ==> ValidPreference(p)
  }

  /** What the validation refuses a preference for. */
  ghost predicate Defective(pref: OpeningPreference) {
    || Trim(pref.name) == ""
    || |pref.whiteMoves| == 0 || |pref.blackMoves| == 0
    || (Normal(pref.color) != "" && Normal(pref.color) != "black")
    || pref.probability <= 0.0 || pref.probability > 1.0 || pref.multiplier <= 0.0
    || (exists i :: 0 <= i < |pref.whiteMoves| && Trim(pref.whiteMoves[i]) == "")
    || (exists i :: 0 <= i < |pref.blackMoves| && Trim(pref.blackMoves[i]) == "")
  }

  lemma DefectiveIff(pref: OpeningPreference)
    ensures Defective(pref) <==> !ValidPreference(pref)
  {
    if !Defective(pref) {
      forall m | m in pref.whiteMoves + pref.blackMoves ensures Trim(m) != "" {
      }
      assert forall m :: m in pref.whiteMoves || m in pref.blackMoves ==> m in pref.whiteMoves + pref.blackMoves;
    }
  }

  /** Tokens that can all be looked up: none blank, no two equal up to spaces and case. */
  predicate ValidKeys(keys: seq<string>) {
    && (forall k :: k in keys ==> Trim(k) != "")
    && (forall i, j | 0 <= i < j < |keys| :: Normal(keys[i]) != Normal(keys[j]))
  }

  predicate ValidCatalog(cfg: CatalogConfig) {
    && cfg.maxPly >= 0 && cfg.minWeight >= 0
    && (if cfg.keys == [] && Trim(cfg.key) == "" then
          cfg.styleKey == ""
        else
          && Normal(cfg.color) in {"", "black", "white", "both"}
          && ValidKeys(cfg.keys)
          && (cfg.styleKey != "" ==> cfg.keys != []))
  }

  /** All an acceptable preset needs but weights that do not add up to zero. */
  predicate WellFormed(p: Settings, ws: seq<real>) {
    && 0 <= p.skillLevel <= 20
    && p.threads > 0 && p.hashMB > 0 && p.multiPV > 0
    && 0 < p.primaryChoices <= p.multiPV
    && p.primaryChoices <= |ws|
    && (forall i :: 0 <= i < p.primaryChoices ==> ws[i] >= 0.0)
    && p.moveTimeMillis >= 0 && p.nodeCap >= 0 && p.depthCap >= 0 && p.evalNoise >= 0
    && ValidPreferences(p.preferences)
    && ValidCatalog(p.catalog)
  }

  /** Settings and candidate weights that make an acceptable preset. */
  predicate ValidPreset(p: Settings, ws: seq<real>) {
    WellFormed(p, ws) && Sum(ws, p.primaryChoices) != 0.0
  }

  /** What the validation refuses a catalog configuration for; without tokens its colour does not matter. */
  ghost predicate Misconfigured(cfg: CatalogConfig) {
    || cfg.maxPly < 0 || cfg.minWeight < 0
    || (cfg.keys == [] && cfg.styleKey != "")
    || ((cfg.keys != [] || Trim(cfg.key) != "") && Normal(cfg.color) !in {"", "white", "black", "both"})
    || (exists i :: 0 <= i < |cfg.keys| && Trim(cfg.keys[i]) == "")
    || (exists i, j :: 0 <= i < j < |cfg.keys| && Normal(cfg.keys[i]) == Normal(cfg.keys[j]))
  }

  lemma MisconfiguredIff(cfg: CatalogConfig)
    ensures Misconfigured(cfg) <==> !ValidCatalog(cfg)
  {
    if !Misconfigured(cfg) {
      forall k | k in cfg.keys ensures Trim(k) != "" {
      }
    }
  }

  /** What the validation of a preset refuses; its weights, of which one must be positive, stand last. */
  ghost predicate Refused(p: Settings, ws: seq<real>) {
    || p.skillLevel < 0 || p.skillLevel > 20
    || p.threads <= 0 || p.hashMB <= 0 || p.multiPV <= 0
    || p.primaryChoices <= 0 || p.primaryChoices > p.multiPV || p.primaryChoices > |ws|
    || p.moveTimeMillis < 0 || p.nodeCap < 0 || p.depthCap < 0 || p.evalNoise < 0
    || (exists pref :: pref in p.preferences && Defective(pref))
    || Misconfigured(p.catalog)
    || (exists i :: 0 <= i < p.primaryChoices && ws[i] < 0.0)
    || (forall i :: 0 <= i < p.primaryChoices ==> ws[i] == 0.0)
  }

  lemma {:induction false} SumIsZeroIff(ws: seq<real>, n: nat)
    requires n <= |ws| && forall i :: 0 <= i < n ==> ws[i] >= 0.0
    ensures Sum(ws, n) >= 0.0
    ensures Sum(ws, n) == 0.0 <==> forall i :: 0 <= i < n ==> ws[i] == 0.0
  {
    if n > 0 {
      SumIsZeroIff(ws, n - 1);
    }
  }

  lemma RefusedIff(p: Settings, ws: seq<real>)
    ensures Refused(p, ws) <==> !ValidPreset(p, ws)
  {
    forall pref | pref in p.preferences ensures Defective(pref) <==> !ValidPreference(pref) {
      DefectiveIff(pref);
    }
    MisconfiguredIff(p.catalog);
    if WellFormed(p, ws) {
      SumIsZeroIff(ws, p.primaryChoices);
    }
  }

  // ----- Token lists -----

  /** The tokens kept: trimmed, blank ones dropped, and of those that differ in case only the first. */
  function Kept(tokens: seq<string>): seq<string> {
    if tokens == [] then []
    else
      var earlier := Kept(tokens[..|tokens| - 1]);
      var last := Trim(tokens[|tokens| - 1]);
      if last == "" || exists k :: k in earlier && Lower(k) == Lower(last) then earlier else earlier + [last]
  }

  /** Some kept token is this one, up to spaces and case. */
  ghost predicate Covered(kept: seq<string>, token: string) {
    exists k :: k in kept && Lower(k) == Normal(token)
  }

  lemma {:induction false} KeptAreTokens(tokens: seq<string>, k: string)
    requires k in Kept(tokens)
    ensures k != "" && Trim(k) == k && exists t :: t in tokens && k == Trim(t)
  {
    var front, last := tokens[..|tokens| - 1], tokens[|tokens| - 1];
    assert tokens == front + [last];
    if k in Kept(front) {
      KeptAreTokens(front, k);
    } else {
      TrimTwice(last);
    }
  }

  lemma {:induction false} KeptCovers(tokens: seq<string>, t: string)
    requires t in tokens && Trim(t) != ""
    ensures Covered(Kept(tokens), t)
  {
    var front, last := tokens[..|tokens| - 1], tokens[|tokens| - 1];
    assert tokens == front + [last];
    if t in front {
      KeptCovers(front, t);
      var k :| k in Kept(front) && Lower(k) == Normal(t);
      assert k in Kept(tokens);
    } else {
      assert Trim(last) in Kept(front) + [Trim(last)];
    }
  }

  lemma {:induction false} KeptDiffer(tokens: seq<string>, i: nat, j: nat)
    requires i < j < |Kept(tokens)|
    ensures Lower(Kept(tokens)[i]) != Lower(Kept(tokens)[j])
  {
    var front := tokens[..|tokens| - 1];
    if j < |Kept(front)| {
      KeptDiffer(front, i, j);
    } else {
      assert Kept(front)[i] in Kept(front);
    }
  }

  /** Only tokens are kept, every non-blank one is covered, and the kept ones can all be told apart. */
  lemma KeptIsExact(tokens: seq<string>)
    ensures forall k :: k in Kept(tokens) ==> exists t :: t in tokens && k == Trim(t)
    ensures forall t :: t in tokens && Trim(t) != "" ==> Covered(Kept(tokens), t)
    ensures ValidKeys(Kept(tokens))
  {
    forall k | k in Kept(tokens) ensures k != "" && Trim(k) == k && exists t :: t in tokens && k == Trim(t) {
      KeptAreTokens(tokens, k);
    }
    forall t | t in tokens && Trim(t) != "" ensures Covered(Kept(tokens), t) {
      KeptCovers(tokens, t);
    }
    forall i, j | 0 <= i < j < |Kept(tokens)| ensures Normal(Kept(tokens)[i]) != Normal(Kept(tokens)[j]) {
      KeptDiffer(tokens, i, j);
      assert Kept(tokens)[i] in Kept(tokens) && Kept(tokens)[j] in Kept(tokens);
    }
  }

  /** The token does not occur before this place, up to spaces and case. */
  ghost predicate FirstAt(tokens: seq<string>, k: nat) {
    k < |tokens| && forall j :: 0 <= j < k ==> Normal(tokens[j]) != Normal(tokens[k])
  }

  /** The places of the tokens kept, each the first of its token. */
  ghost predicate FirstPlaces(tokens: seq<string>, kept: seq<string>, at: seq<nat>) {
    && |at| == |kept|
    && (forall i, j :: 0 <= i < j < |at| ==> at[i] < at[j])
    && (forall i :: 0 <= i < |at| ==> FirstAt(tokens, at[i]) && kept[i] == Trim(tokens[at[i]]))
  }

  lemma PlacesStay(tokens: seq<string>, n: nat, kept: seq<string>, at: seq<nat>)
    requires n <= |tokens| && FirstPlaces(tokens[..n], kept, at)
    ensures FirstPlaces(tokens, kept, at) && forall i :: 0 <= i < |at| ==> at[i] < n
  {
    forall i | 0 <= i < |at| ensures FirstAt(tokens, at[i]) && at[i] < n && kept[i] == Trim(tokens[at[i]]) {
      assert FirstAt(tokens[..n], at[i]);
      forall j | 0 <= j < at[i] ensures Normal(tokens[j]) != Normal(tokens[at[i]]) {
        assert tokens[..n][j] == tokens[j];
      }
    }
  }

  lemma PlacesSnoc(tokens: seq<string>, n: nat, kept: seq<string>, at: seq<nat>)
    requires FirstPlaces(tokens, kept, at) && FirstAt(tokens, n) && forall i :: 0 <= i < |at| ==> at[i] < n
    ensures FirstPlaces(tokens, kept + [Trim(tokens[n])], at + [n])
  {
  }

  /** A token that is kept last is new. */
  lemma LastIsFirst(tokens: seq<string>, n: nat)
    requires |tokens| == n + 1 && Kept(tokens) != Kept(tokens[..n])
    ensures FirstAt(tokens, n) && Kept(tokens) == Kept(tokens[..n]) + [Trim(tokens[n])]
  {
    forall j | 0 <= j < n ensures Normal(tokens[j]) != Normal(tokens[n]) {
      if Trim(tokens[j]) != "" {
        assert tokens[..n][j] in tokens[..n];
        KeptCovers(tokens[..n], tokens[j]);
      }
    }
  }

  /** The tokens are kept in their order. */
  lemma {:induction false} KeptInOrder(tokens: seq<string>) returns (at: seq<nat>)
    ensures FirstPlaces(tokens, Kept(tokens), at)
  {
    if tokens == [] {
      at := [];
    } else {
      var n := |tokens| - 1;
      at := KeptInOrder(tokens[..n]);
      PlacesStay(tokens, n, Kept(tokens[..n]), at);
      if Kept(tokens) != Kept(tokens[..n]) {
        LastIsFirst(tokens, n);
        PlacesSnoc(tokens, n, Kept(tokens[..n]), at);
        at := at + [n];
      }
    }
  }

  /** Normalizes a token list: every non-blank token is kept once, up to spaces and case, in order. */
  method NormalizeCatalogTokens(tokens: seq<string>) returns (r: seq<string>)
    ensures r == Kept(tokens)
  {
    r := [];
    var seen: set<string> := {};
    for i := 0 to |tokens|
      invariant r == Kept(tokens[..i])
      invariant forall s :: s in seen <==> exists k :: k in r && Lower(k) == s
    {
      assert tokens[..i + 1][..i] == tokens[..i];
      var trimmed := Trim(tokens[i]);
      if trimmed == "" {
        continue;
      }
      var key := Lower(trimmed);
      if key in seen {
        continue;
      }
      ghost var before := r;
      seen := seen + {key};
      r := r + [trimmed];
      assert trimmed in r && forall k :: k in before ==> k in r;
      assert forall k :: k in r ==> k in before || k == trimmed;
    }
    assert tokens[..|tokens|] == tokens;
  }

  predicate AllBlank(tokens: seq<string>) {
    forall t :: t in tokens ==> Trim(t) == ""
  }

  /** The configuration as the setter stores it: trimmed, lower-case colour, kept tokens, the first as default key. */
  function Normalized(cfg: CatalogConfig): CatalogConfig {
    var keys := Kept(cfg.keys);
    var key := if Trim(cfg.key) == "" && keys != [] then keys[0] else Trim(cfg.key);
    CatalogConfig(key, keys, Normal(cfg.color), cfg.maxPly, cfg.minWeight, Trim(cfg.styleKey))
  }

  method NormalizeOpeningCatalog(cfg: CatalogConfig) returns (r: CatalogConfig)
    ensures r == Normalized(cfg)
  {
    var keys := NormalizeCatalogTokens(cfg.keys);
    var key := Trim(cfg.key);
    if key == "" && keys != [] {
      key := keys[0];
    }
    r := CatalogConfig(key, keys, Normal(cfg.color), cfg.maxPly, cfg.minWeight, Trim(cfg.styleKey));
  }

  /** A normalized configuration fails validation for its numbers, colour or style only, never for its tokens. */
  lemma NormalizedIsValid(cfg: CatalogConfig)
    ensures ValidCatalog(Normalized(cfg)) <==>
            && cfg.maxPly >= 0 && cfg.minWeight >= 0
            && (AllBlank(cfg.keys) ==> Trim(cfg.styleKey) == "")
            && ((AllBlank(cfg.keys) && Trim(cfg.key) == "") ||
                Normal(cfg.color) in {"", "black", "white", "both"})
  {
    KeptIsExact(cfg.keys);
    TrimNormal(cfg.color);
    TrimTwice(cfg.key);
    var keys := Kept(cfg.keys);
    assert keys != [] ==> keys[0] in keys;
    if keys == [] {
      assert forall t :: t in cfg.keys && Trim(t) != "" ==> Covered(keys, t);
    }
  }

  /** A style group found in the style catalog: its key and its ECO tokens. */
  datatype Style = Style(key: string, ecos: seq<string>)

  /** The trimmed tokens that are not blank. */
  function NonBlank(tokens: seq<string>): seq<string> {
    if tokens == [] then []
    else
      var last := Trim(tokens[|tokens| - 1]);
      NonBlank(tokens[..|tokens| - 1]) + if last == "" then [] else [last]
  }

  /** The ECO tokens of all styles. */
  function Ecos(styles: seq<Style>): seq<string> {
    if styles == [] then [] else Ecos(styles[..|styles| - 1]) + NonBlank(styles[|styles| - 1].ecos)
  }

  function Names(styles: seq<Style>): (r: seq<string>)
    ensures |r| == |styles|
  {
    seq(|styles|, i requires 0 <= i < |styles| => styles[i].key)
  }

  lemma {:induction false} NonBlankMembers(tokens: seq<string>, t: string)
    ensures t in NonBlank(tokens) <==> t != "" && exists e :: e in tokens && t == Trim(e)
  {
    if tokens != [] {
      NonBlankMembers(tokens[..|tokens| - 1], t);
      assert tokens == tokens[..|tokens| - 1] + [tokens[|tokens| - 1]];
    }
  }

  lemma {:induction false} EcoMembers(styles: seq<Style>, t: string)
    ensures t in Ecos(styles) <==> t != "" && exists s, e :: s in styles && e in s.ecos && t == Trim(e)
  {
    if styles != [] {
      EcoMembers(styles[..|styles| - 1], t);
      NonBlankMembers(styles[|styles| - 1].ecos, t);
      assert styles == styles[..|styles| - 1] + [styles[|styles| - 1]];
    }
  }

  /** The catalog tokens of styles are exactly their ECO tokens, up to case, once each. */
  lemma StyleTokensAreEcos(styles: seq<Style>)
    ensures ValidKeys(Kept(Ecos(styles)))
    ensures forall k :: k in Kept(Ecos(styles)) ==> exists s, e :: s in styles && e in s.ecos && k == Trim(e)
    ensures forall s, e :: s in styles && e in s.ecos && Trim(e) != "" ==> Covered(Kept(Ecos(styles)), e)
  {
    KeptIsExact(Ecos(styles));
    forall k | k in Kept(Ecos(styles)) ensures exists s, e :: s in styles && e in s.ecos && k == Trim(e) {
      var t :| t in Ecos(styles) && k == Trim(t);
      EcoMembers(styles, t);
      var s, e :| s in styles && e in s.ecos && t == Trim(e);
      TrimTwice(e);
    }
    forall s, e | s in styles && e in s.ecos && Trim(e) != "" ensures Covered(Kept(Ecos(styles)), e) {
      EcoMembers(styles, Trim(e));
      TrimTwice(e);
      assert Covered(Kept(Ecos(styles)), Trim(e));
    }
  }

  /** The tokens come in the order of the styles and, within one, of its entries; blank ones are dropped. */
  lemma TokensInOrder(styles: seq<Style>, style: Style, ecos: seq<string>, eco: string)
    ensures Ecos(styles + [style]) == Ecos(styles) + NonBlank(style.ecos)
    ensures NonBlank(ecos + [eco]) == if Trim(eco) == "" then NonBlank(ecos) else NonBlank(ecos) + [Trim(eco)]
  {
    assert (styles + [style])[..|styles|] == styles && (ecos + [eco])[..|ecos|] == ecos;
  }

  /** The tokens of one style. */
  method CollectFrom(ecos: seq<string>) returns (raw: seq<string>)
    ensures raw == NonBlank(ecos)
  {
    raw := [];
    for j := 0 to |ecos|
      invariant raw == NonBlank(ecos[..j])
    {
      assert ecos[..j + 1][..j] == ecos[..j];
      var eco := Trim(ecos[j]);
      if eco == "" {
        continue;
      }
      raw := raw + [eco];
    }
    assert ecos[..|ecos|] == ecos;
  }

  method Collect(styles: seq<Style>) returns (raw: seq<string>, names: seq<string>)
    ensures raw == Ecos(styles) && names == Names(styles)
  {
    raw, names := [], [];
    for i := 0 to |styles|
      invariant raw == Ecos(styles[..i]) && names == Names(styles[..i])
    {
      assert styles[..i + 1][..i] == styles[..i];
      names := names + [styles[i].key];
      var more := CollectFrom(styles[i].ecos);
      raw := raw + more;
    }
    assert styles[..|styles|] == styles;
  }

  /** A configuration switched to styles: their tokens, the first one as key, and their names. */
  function Styled(cfg: CatalogConfig, styles: seq<Style>): CatalogConfig
    requires Kept(Ecos(styles)) != []
  {
    cfg.(keys := Kept(Ecos(styles)), key := Kept(Ecos(styles))[0], styleKey := Join(Names(styles), ","))
  }

  /** Switching to styles gives a valid configuration exactly when the colour is one a lookup knows. */
  lemma StyledIsValid(cfg: CatalogConfig, styles: seq<Style>)
    requires ValidCatalog(cfg) && Kept(Ecos(styles)) != []
    ensures ValidCatalog(Styled(cfg, styles)) <==> Normal(cfg.color) in {"", "black", "white", "both"}
  {
    StyleTokensAreEcos(styles);
  }

  // ----- The registry -----

  /** The preset a name or alias stands for. */
  function Canonical(name: string): string {
    match name
    case "beginner" => "level1"
    case "intermediate" => "level5"
    case "advanced" => "level7"
    case "master" => "level8"
    case _ => name
  }

  /** Four names are aliases of levels; every other name stands for itself. */
  lemma Aliases(name: string)
    ensures name == "beginner" ==> Canonical(name) == "level1"
    ensures name == "intermediate" ==> Canonical(name) == "level5"
    ensures name == "advanced" ==> Canonical(name) == "level7"
    ensures name == "master" ==> Canonical(name) == "level8"
    ensures name !in {"beginner", "intermediate", "advanced", "master"} ==> Canonical(name) == name
  {
  }

  function WithPreferences(p: Preset, prefs: seq<OpeningPreference>): Preset {
    p.(settings := p.settings.(preferences := prefs))
  }

  function WithCatalog(p: Preset, cfg: CatalogConfig): Preset {
    p.(settings := p.settings.(catalog := cfg))
  }

  /** The stored configuration, field by field. */
  ghost predicate StoredAs(cfg: CatalogConfig, c: CatalogConfig) {
    && c.maxPly == cfg.maxPly && c.minWeight == cfg.minWeight
    && c.color == Normal(cfg.color) && c.styleKey == Trim(cfg.styleKey)
    && (exists at: seq<nat> :: FirstPlaces(cfg.keys, c.keys, at))
    && (forall t :: t in cfg.keys && Trim(t) != "" ==> Covered(c.keys, t))
    && c.key == if Trim(cfg.key) != "" then Trim(cfg.key) else if c.keys != [] then c.keys[0] else ""
  }

  lemma NormalizedIsStoredAs(cfg: CatalogConfig)
    ensures StoredAs(cfg, Normalized(cfg))
  {
    var at := KeptInOrder(cfg.keys);
    KeptIsExact(cfg.keys);
  }

  class Registry {
    var presets: map<string, Preset>

    /** The settings a setter can change are valid in every preset. */
    ghost predicate Valid()
      reads this
    {
      forall n :: n in presets ==>
        ValidPreferences(presets[n].settings.preferences) && ValidCatalog(presets[n].settings.catalog)
    }

    /** Looks a preset up by name or alias; the copy shares its weights with the registry. */
    method GetPreset(name: string) returns (p: Option<Preset>)
      ensures p == if Canonical(name) in presets then Some(presets[Canonical(name)]) else None
    {
      var n := name;
      if name == "beginner" {
        n := "level1";
      } else if name == "intermediate" {
        n := "level5";
      } else if name == "advanced" {
        n := "level7";
      } else if name == "master" {
        n := "level8";
      }
      if n in presets {
        return Some(presets[n]);
      }
      return None;
    }

    method SetOpeningPreferences(name: string, prefs: seq<OpeningPreference>) returns (ok: bool)
      requires Valid()
      modifies this
      ensures Valid()
      ensures ok <==> name in old(presets) && forall p :: p in prefs ==> !Defective(p)
      ensures presets ==
              if ok then old(presets)[name := WithPreferences(old(presets)[name], prefs)] else old(presets)
    {
      if name !in presets {
        return false;
      }
      forall p | p in prefs ensures Defective(p) <==> !ValidPreference(p) {
        DefectiveIff(p);
      }
      if !ValidPreferences(prefs) {
        return false;
      }
      presets := presets[name := WithPreferences(presets[name], prefs)];
      return true;
    }

    method AddOpeningPreference(name: string, pref: OpeningPreference) returns (ok: bool)
      requires Valid()
      modifies this
      ensures Valid()
      ensures ok <==> name in old(presets) && !Defective(pref)
      ensures presets ==
              if ok then
                old(presets)[name :=
                  WithPreferences(old(presets)[name], old(presets)[name].settings.preferences + [pref])]
              else old(presets)
    {
      if name !in presets {
        return false;
      }
      DefectiveIff(pref);
      if !ValidPreference(pref) {
        return false;
      }
      presets := presets[name := WithPreferences(presets[name], presets[name].settings.preferences + [pref])];
      return true;
    }

    method SetOpeningCatalog(name: string, cfg: CatalogConfig) returns (ok: bool)
      requires Valid()
      modifies this
      ensures Valid()
      ensures ok <==> name in old(presets) && ValidCatalog(Normalized(cfg))
      ensures ok ==> name in presets && StoredAs(cfg, presets[name].settings.catalog)
      ensures presets ==
              if ok then old(presets)[name := WithCatalog(old(presets)[name], Normalized(cfg))] else old(presets)
    {
      if name !in presets {
        return false;
      }
      var normalized := NormalizeOpeningCatalog(cfg);
      NormalizedIsStoredAs(cfg);
      if !ValidCatalog(normalized) {
        return false;
      }
      presets := presets[name := WithCatalog(presets[name], normalized)];
      return true;
    }

    /** Applies opening styles; `styles` are the groups found for the tokens of a style text, None if any is unknown. */
    method SetOpeningStyle(name: string, styleText: string, styles: Option<seq<Style>>) returns (ok: bool)
      requires Valid()
      modifies this
      ensures Valid()
      ensures !ok ==> presets == old(presets)
      ensures Trim(styleText) == "" ==>
                && (ok <==> name in old(presets))
                && (ok ==>
                      var p := old(presets)[name];
                      presets == old(presets)[name := WithCatalog(p, p.settings.catalog.(
                        keys := [], styleKey := "", key := Trim(p.settings.catalog.key)))])
      ensures Trim(styleText) != "" ==>
                && (ok <==>
                      && name in old(presets) && styles.Some? && Kept(Ecos(styles.value)) != []
                      && Normal(old(presets)[name].settings.catalog.color) in {"", "black", "white", "both"})
                && (ok ==>
                      var p := old(presets)[name];
                      var tokens := Kept(Ecos(styles.value));
                      presets == old(presets)[name := WithCatalog(p, p.settings.catalog.(
                        keys := tokens, key := tokens[0], styleKey := Join(Names(styles.value), ",")))])
    {
      if name !in presets {
        return false;
      }
      var preset := presets[name];
      var cfg := preset.settings.catalog;
      if Trim(styleText) == "" {
        TrimTwice(cfg.key);
        presets := presets[name := WithCatalog(preset, cfg.(keys := [], styleKey := "", key := Trim(cfg.key)))];
        return true;
      }
      if styles.None? || styles.value == [] {
        return false;
      }
      var raw, names := Collect(styles.value);
      var tokens := NormalizeCatalogTokens(raw);
      if tokens == [] {
        return false;
      }
      StyledIsValid(cfg, styles.value);
      var catalog := cfg.(keys := tokens, styleKey := Join(names, ","), key := tokens[0]);
      if !ValidCatalog(catalog) {
        return false;
      }
      presets := presets[name := WithCatalog(preset, catalog)];
      return true;
    }
  }
}
