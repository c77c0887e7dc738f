/** Layered configuration (tyche/config.py): deep merge, dotted overrides and lookups, placeholder
    expansion, and what a resumed run gets back. */
module TycheConfig {
  import opened Options
  import opened Text
  import opened Trees

  type Section = map<string, Node>

  datatype Result<T> = Ok(value: T) | ConfigError

  // ---- merging --------------------------------------------------------------------------

  /** `deep_merge`: the override's items are merged one by one into a copy of the base. */
  method DeepMerge(base: Section, override: Section) returns (merged: Section)
    ensures merged == Merged(base, override)
    decreases Map(override)
  {
    merged := base;
    var todo := override.Keys;
    while todo != {}
      invariant todo <= override.Keys
      invariant merged.Keys == base.Keys + (override.Keys - todo)
      invariant forall k | k in merged ::
                  merged[k] == if k in override.Keys - todo then Merged(base, override)[k] else base[k]
      decreases todo
    {
      var key :| key in todo;
      todo := todo - {key};
      var value := override[key];
      if value.Map? && key in merged && merged[key].Map? {
        var sub := DeepMerge(merged[key].m, value.m);
        merged := merged[key := Map(sub)];
      } else {
        merged := merged[key := value];
      }
    }
  }

  // ---- dotted keys ----------------------------------------------------------------------

  /** The position of the first `c`, or the length of the string. */
  function IndexOf(s: string, c: char): (i: nat)
    ensures i <= |s|
    ensures i < |s| ==> s[i] == c
  {
    if s == "" || s[0] == c then 0 else 1 + IndexOf(s[1..], c)
  }

  /** `s.split(".")` */
  function Split(s: string): Path {
    var i := IndexOf(s, '.');
    if i == |s| then [s] else [s[..i]] + Split(s[i + 1..])
  }

  function NonEmpty(p: Path): Path {
    if p == [] then [] else if p[0] == "" then NonEmpty(p[1..]) else [p[0]] + NonEmpty(p[1..])
  }

  /** The keys `parse_override` reads from the left-hand side. */
  function OverrideKeys(path: string): Path { NonEmpty(Split(Strip(path))) }

  /** The tree with one value at a path. */
  function Nest(keys: Path, value: Node): Node {
    if keys == [] then value else Map(map[keys[0] := Nest(keys[1..], value)])
  }

  function ParsedOverride(expr: string, parse: string -> Node): Result<Section> {
    var eq := IndexOf(expr, '=');
    if eq == |expr| then ConfigError
    else
      var keys := OverrideKeys(expr[..eq]);
      if keys == [] then ConfigError else Ok(Nest(keys, parse(expr[eq + 1..])).m)
  }

  /** `parse_override`: wrap the parsed value in one mapping per key, from the inside out. */
  method ParseOverride(expr: string, parse: string -> Node) returns (r: Result<Section>)
    ensures r == ParsedOverride(expr, parse)
  {
    var eq := IndexOf(expr, '=');
    if eq == |expr| {
      return ConfigError;
    }
    var keys := OverrideKeys(expr[..eq]);
    if keys == [] {
      return ConfigError;
    }
    var value := parse(expr[eq + 1..]);
    var i := |keys|;
    while i > 0
      invariant 0 <= i <= |keys|
      invariant value == Nest(keys[i..], parse(expr[eq + 1..]))
    {
      i := i - 1;
      assert keys[i..][1..] == keys[i + 1..];
      value := Map(map[keys[i] := value]);
    }
    assert keys[0..] == keys;
    r := Ok(value.m);
  }

  /** `get`: walk down the dotted path. */
  method Lookup(data: Section, dotted: string) returns (r: Option<Node>)
    ensures r == Get(Map(data), Split(dotted))
  {
    var keys := Split(dotted);
    var node := Map(data);
    for i := 0 to |keys|
      invariant Get(Map(data), keys) == Get(node, keys[i..])
    {
      if !node.Map? || keys[i] !in node.m {
        return None;
      }
      assert keys[i..][1..] == keys[i + 1..];
      node := node.m[keys[i]];
    }
    r := Some(node);
  }

  lemma {:induction false} NestGet(keys: Path, value: Node, p: Path)
    ensures keys <= p ==> Get(Nest(keys, value), p) == Get(value, p[|keys|..])
    ensures p <= keys ==> Get(Nest(keys, value), p) == Some(Nest(keys[|p|..], value))
    ensures !(keys <= p) && !(p <= keys) ==> Get(Nest(keys, value), p) == None && Open(Nest(keys, value), p)
    decreases |keys|
  {
    if keys == [] {
      assert p[0..] == p;
    } else if p == [] {
      assert keys[0..] == keys;
    } else {
      NestGet(keys[1..], value, p[1..]);
      assert p == [p[0]] + p[1..] && keys == [keys[0]] + keys[1..];
      if p[0] == keys[0] {
        assert keys <= p <==> keys[1..] <= p[1..];
        assert p <= keys <==> p[1..] <= keys[1..];
        assert keys <= p ==> p[|keys|..] == p[1..][|keys| - 1..];
        assert p <= keys ==> keys[|p|..] == keys[1..][|p| - 1..];
      }
    }
  }

  /** Applying `keys=value` makes exactly that path hold the value: lookups beside it are unchanged,
      those below it find nothing, and those on the way to it find a mapping. */
  lemma OverrideIsLens(base: Section, keys: Path, value: Node, q: Path)
    requires keys != [] && !value.Map?
    ensures var after := Map(Merged(base, Nest(keys, value).m));
            && Get(after, keys) == Some(value)
            && (!(keys <= q) && !(q <= keys) ==> Get(after, q) == Get(Map(base), q))
            && (keys < q ==> Get(after, q) == None)
            && (q < keys ==> Get(after, q).Some? && Get(after, q).value.Map?)
  {
    var o := Nest(keys, value).m;
    MergeLaw(base, o, keys);
    MergeLaw(base, o, q);
    NestGet(keys, value, keys);
    NestGet(keys, value, q);
    assert keys[|keys|..] == [];
    if keys < q {
      assert Get(value, q[|keys|..]) == None;
      NestClosed(keys, value, q);
    }
  }

  lemma {:induction false} NestClosed(keys: Path, value: Node, q: Path)
    requires keys < q && !value.Map?
    ensures !Open(Nest(keys, value), q)
    decreases |keys|
  {
    if keys != [] {
      assert keys[1..] < q[1..] by {
        assert q == [q[0]] + q[1..] && keys == [keys[0]] + keys[1..];
      }
      assert q[0] == keys[0];
      NestClosed(keys[1..], value, q[1..]);
    }
  }

  /** The dotted path a lookup uses names the keys an override used exactly when it has no empty
      part and no surrounding space. */
  lemma SameKeysIffTidy(path: string)
    ensures Split(path) == OverrideKeys(path) <==> Tidy(path)
  {
    if Tidy(path) {
      NonEmptyId(Split(path));
    } else {
      NonEmptyParts(Split(Strip(path)));
      SplitJoin(path);
      SplitJoin(Strip(path));
      SplitDots(path);
      SplitDots(Strip(path));
      StripDots(path);
    }
  }

  /** `path=raw` for a tidy path and a value that is not a mapping, then `get(path)`: the value is
      read back, and every dotted path that neither begins with `path` nor is its beginning, part by
      part, reads what it read before. */
  lemma SetThenGet(base: Section, path: string, raw: string, parse: string -> Node, other: string)
    requires Tidy(path) && '=' !in path && !parse(raw).Map?
    ensures var r := ParsedOverride(path + "=" + raw, parse);
            && r.Ok?
            && Get(Map(Merged(base, r.value)), Split(path)) == Some(parse(raw))
            && (!(Split(path) <= Split(other)) && !(Split(other) <= Split(path)) ==>
                  Get(Map(Merged(base, r.value)), Split(other)) == Get(Map(base), Split(other)))
  {
    var expr := path + "=" + raw;
    FirstIndex(path, '=', raw);
    assert expr == path + ['='] + raw;
    assert expr[..|path|] == path && expr[|path| + 1..] == raw;
    SameKeysIffTidy(path);
    OverrideIsLens(base, Split(path), parse(raw), Split(other));
  }

  lemma {:induction false} FirstIndex(a: string, c: char, b: string)
    requires c !in a
    ensures IndexOf(a + [c] + b, c) == |a|
  {
    if a != "" {
      assert (a + [c] + b)[1..] == a[1..] + [c] + b;
      FirstIndex(a[1..], c, b);
    }
  }

  /** No empty part and no space at either end. */
  ghost predicate Tidy(path: string) {
    Strip(path) == path && "" !in Split(path)
  }

  lemma {:induction false} NonEmptyId(p: Path)
    requires "" !in p
    ensures NonEmpty(p) == p
  {
    if p != [] {
      assert p == [p[0]] + p[1..];
      NonEmptyId(p[1..]);
    }
  }

  lemma {:induction false} NonEmptyParts(p: Path)
    ensures "" !in NonEmpty(p)
    ensures |NonEmpty(p)| <= |p|
    ensures "" in p ==> |NonEmpty(p)| < |p|
    ensures "" !in p ==> NonEmpty(p) == p
  {
    if p != [] {
      assert p == [p[0]] + p[1..];
      NonEmptyParts(p[1..]);
    }
  }

  function Join(p: Path): string {
    if p == [] then "" else if |p| == 1 then p[0] else p[0] + "." + Join(p[1..])
  }

  lemma SplitAtDot(s: string, i: nat)
    requires i == IndexOf(s, '.') && i < |s|
    ensures Split(s) == [s[..i]] + Split(s[i + 1..])
  {
  }

  lemma JoinAtDot(s: string, i: nat, rest: Path)
    requires i < |s| && s[i] == '.' && rest != [] && Join(rest) == s[i + 1..]
    ensures Join([s[..i]] + rest) == s
  {
    assert ([s[..i]] + rest)[1..] == rest;
    assert s == s[..i] + "." + s[i + 1..];
  }

  lemma {:induction false} SplitJoin(s: string)
    ensures Split(s) != [] && Join(Split(s)) == s
  {
    var i := IndexOf(s, '.');
    if i < |s| {
      SplitJoin(s[i + 1..]);
      SplitAtDot(s, i);
      JoinAtDot(s, i, Split(s[i + 1..]));
    } else {
      assert Split(s) == [s];
    }
  }

  function Dots(s: string): nat {
    if s == "" then 0 else (if s[0] == '.' then 1 else 0) + Dots(s[1..])
  }

  lemma {:induction false} DotsConcat(a: string, b: string)
    ensures Dots(a + b) == Dots(a) + Dots(b)
  {
    if a == "" {
      assert a + b == b;
    } else {
      DotsConcat(a[1..], b);
      assert (a + b)[1..] == a[1..] + b;
    }
  }

  lemma {:induction false} SplitDots(s: string)
    ensures |Split(s)| == 1 + Dots(s)
  {
    var i := IndexOf(s, '.');
    NoDotsBefore(s);
    if i < |s| {
      SplitDots(s[i + 1..]);
      assert s == s[..i] + s[i..] && s[i..][1..] == s[i + 1..];
      DotsConcat(s[..i], s[i..]);
    } else {
      assert s[..i] == s;
    }
  }

  lemma {:induction false} NoDotsBefore(s: string)
    ensures Dots(s[..IndexOf(s, '.')]) == 0
  {
    if s != "" && s[0] != '.' {
      NoDotsBefore(s[1..]);
      assert s[..IndexOf(s, '.')][1..] == s[1..][..IndexOf(s[1..], '.')];
    }
  }

  lemma {:induction false} StripDots(s: string)
    ensures Dots(Strip(s)) == Dots(s)
    decreases |s|
  {
    if s != "" && Space(s[0]) {
      StripDots(s[1..]);
    } else if s != "" && Space(s[|s| - 1]) {
      var n := |s| - 1;
      StripDots(s[..n]);
      assert s == s[..n] + [s[n]];
      DotsConcat(s[..n], [s[n]]);
    }
  }

  // ---- placeholders ----------------------------------------------------------------------

  predicate NameStart(c: char) { 'A' <= c <= 'Z' || 'a' <= c <= 'z' || c == '_' }

  predicate NameChar(c: char) { NameStart(c) || '0' <= c <= '9' }

  /** How many leading characters belong to a name. */
  function NameLength(s: string): (n: nat)
    ensures n <= |s|
  {
    if s != "" && NameChar(s[0]) then 1 + NameLength(s[1..]) else 0
  }

  /** `${NAME}` or `${NAME:-default}` at the start of a string: its length, name and default. */
  datatype Placeholder = NoMatch | Match(length: nat, name: string, default: string)

  function MatchAt(s: string): (p: Placeholder)
    ensures p.Match? ==> 0 < p.length <= |s|
  {
    if |s| < 4 || s[..2] != "${" || !NameStart(s[2]) then NoMatch
    else
      var n := NameLength(s[2..]);
      var rest := s[2 + n..];
      if rest == "" then NoMatch
      else if rest[0] == '}' then Match(3 + n, s[2..2 + n], "")
      else if |rest| < 3 || rest[..2] != ":-" then NoMatch
      else
        var d := IndexOf(rest[2..], '}');
        if d == |rest| - 2 then NoMatch else Match(2 + n + 2 + d + 1, s[2..2 + n], rest[2..2 + d])
  }

  /** The string with every placeholder replaced: a variable that is set and nonempty, else the
      default. */
  function Substitute(s: string, env: map<string, string>): string
    decreases |s|
  {
    if s == "" then ""
    else
      match MatchAt(s)
      case NoMatch => [s[0]] + Substitute(s[1..], env)
      case Match(n, name, default) =>
        (if name in env && env[name] != "" then env[name] else default) + Substitute(s[n..], env)
  }

  /** `_expand`: every string inside the document, keys excepted. */
  function Expand(n: Node, env: map<string, string>): Node {
    match n
    case Str(s) => Str(Substitute(s, env))
    case Scalar(_) => n
    case List(items) => List(seq(|items|, i requires 0 <= i < |items| => Expand(items[i], env)))
    case Map(m) => Map(map k | k in m :: Expand(m[k], env))
  }

  ghost predicate NoPlaceholders(n: Node) {
    match n
    case Str(s) => forall i | 0 <= i <= |s| :: MatchAt(s[i..]).NoMatch?
    case Scalar(_) => true
    case List(items) => forall i | 0 <= i < |items| :: NoPlaceholders(items[i])
    case Map(m) => forall k | k in m :: NoPlaceholders(m[k])
  }

  lemma {:induction false} PlainString(s: string, env: map<string, string>)
    requires forall i | 0 <= i <= |s| :: MatchAt(s[i..]).NoMatch?
    ensures Substitute(s, env) == s
    decreases |s|
  {
    if s != "" {
      assert s[0..] == s;
      forall i | 0 <= i <= |s[1..]|
        ensures MatchAt(s[1..][i..]).NoMatch?
      {
        assert s[1..][i..] == s[i + 1..];
      }
      PlainString(s[1..], env);
    }
  }

  lemma {:induction false} NothingToExpand(n: Node, env: map<string, string>)
    requires NoPlaceholders(n)
    ensures Expand(n, env) == n
    decreases n
  {
    match n
    case Str(s) => PlainString(s, env);
    case Scalar(_) =>
    case List(items) =>
      forall i | 0 <= i < |items|
        ensures Expand(items[i], env) == items[i]
      {
        NothingToExpand(items[i], env);
      }
    case Map(m) =>
      forall k | k in m
        ensures Expand(m[k], env) == m[k]
      {
        NothingToExpand(m[k], env);
      }
  }

  // ---- loading ---------------------------------------------------------------------------

  /** Layers on top of one another, lowest first. */
  function Layered(base: Section, layers: seq<Section>): Section {
    if layers == [] then base else Merged(Layered(base, layers[..|layers| - 1]), layers[|layers| - 1])
  }

  lemma {:induction false} LayeredConcat(base: Section, a: seq<Section>, b: seq<Section>)
    ensures Layered(base, a + b) == Layered(Layered(base, a), b)
  {
    if b == [] {
      assert a + b == a;
    } else {
      LayeredConcat(base, a, b[..|b| - 1]);
      assert (a + b)[..|a + b| - 1] == a + b[..|b| - 1];
    }
  }

  /** Layer `i` has this value, no mapping, at the path, and no later layer has anything there or blocks the
      way to it. */
  ghost predicate Decides(layers: seq<Section>, i: nat, p: Path, v: Node) {
    && i < |layers| && !v.Map? && Get(Map(layers[i]), p) == Some(v)
    && forall j | i < j < |layers| :: Silent(layers[j], p)
  }

  ghost predicate Silent(layer: Section, p: Path) { Get(Map(layer), p) == None && Open(Map(layer), p) }

  lemma {:induction false} HighestLayerWins(base: Section, layers: seq<Section>, i: nat, p: Path, v: Node)
    requires Decides([base] + layers, i, p, v)
    ensures Get(Map(Layered(base, layers)), p) == Some(v)
    decreases |layers|
  {
    if layers != [] {
      var n := |layers| - 1;
      var top := layers[n];
      assert ([base] + layers)[n + 1] == top;
      MergeLaw(Layered(base, layers[..n]), top, p);
      if i < n + 1 {
        assert forall j | 0 <= j <= n :: ([base] + layers[..n])[j] == ([base] + layers)[j];
        HighestLayerWins(base, layers[..n], i, p, v);
        assert Silent(top, p);
      }
    }
  }

  /** The same document, but that placeholders in its strings are substituted. */
  ghost predicate Expanded(n: Node, r: Node, env: map<string, string>)
    decreases n
  {
    match n
    case Str(s) => r == Str(Substitute(s, env))
    case Scalar(_) => r == n
    case List(items) => r.List? && |r.items| == |items| && forall i | 0 <= i < |items| :: Expanded(items[i], r.items[i], env)
    case Map(m) => r.Map? && r.m.Keys == m.Keys && forall k | k in m :: Expanded(m[k], r.m[k], env)
  }

  lemma {:induction false} ExpandIsExpanded(n: Node, env: map<string, string>)
    ensures Expanded(n, Expand(n, env), env)
    decreases n
  {
    match n
    case Str(_) =>
    case Scalar(_) =>
    case List(items) =>
      forall i | 0 <= i < |items|
        ensures Expanded(items[i], Expand(items[i], env), env)
      {
        ExpandIsExpanded(items[i], env);
      }
    case Map(m) =>
      forall k | k in m
        ensures Expanded(m[k], Expand(m[k], env), env)
      {
        ExpandIsExpanded(m[k], env);
      }
  }

  lemma {:induction false} ExpandAt(n: Node, env: map<string, string>, p: Path)
    requires Get(n, p).Some?
    ensures Get(Expand(n, env), p) == Some(Expand(Get(n, p).value, env))
    decreases |p|
  {
    if p != [] {
      ExpandAt(n.m[p[0]], env, p[1..]);
    }
  }

  /** What the highest layer that says something at a path says there is what the loaded document has there,
      expanded. */
  ghost predicate Reads(layers: seq<Section>, data: Section, env: map<string, string>) {
    forall i, p, v | Decides(layers, i, p, v) ::
      Get(Map(data), p).Some? && Expanded(v, Get(Map(data), p).value, env)
  }

  lemma LoadedReads(base: Section, layers: seq<Section>, env: map<string, string>)
    ensures Reads([base] + layers, Expand(Map(Layered(base, layers)), env).m, env)
  {
    var merged := Map(Layered(base, layers));
    forall i, p, v | Decides([base] + layers, i, p, v)
      ensures Get(Expand(merged, env), p).Some? && Expanded(v, Get(Expand(merged, env), p).value, env)
    {
      HighestLayerWins(base, layers, i, p, v);
      ExpandAt(merged, env, p);
      ExpandIsExpanded(v, env);
    }
  }

  lemma OneLayer(base: Section, layers: seq<Section>)
    requires |layers| <= 1
    ensures Layered(base, layers) == if layers == [] then base else Merged(base, layers[0])
  {
    if layers != [] {
      assert layers[..0] == [];
    }
  }

  method MergeAll(base: Section, layers: seq<Section>) returns (data: Section)
    ensures data == Layered(base, layers)
  {
    data := base;
    for i := 0 to |layers|
      invariant data == Layered(base, layers[..i])
    {
      assert layers[..i + 1][..i] == layers[..i];
      data := DeepMerge(data, layers[i]);
    }
    assert layers[..|layers|] == layers;
  }

  /** `TycheConfig.load`: the defaults, then the saved configuration of a run if any, then the user
      file if any, then the overrides; placeholders are expanded at the end. */
  method Load(defaults: Section, saved: seq<Section>, file: seq<Section>, overrides: seq<Section>,
              env: map<string, string>)
    returns (data: Section)
    requires |saved| <= 1 && |file| <= 1
    ensures Map(data) == Expand(Map(Layered(defaults, saved + file + overrides)), env)
    ensures Reads([defaults] + saved + file + overrides, data, env)
  {
    LoadedReads(defaults, saved + file + overrides, env);
    assert [defaults] + saved + file + overrides == [defaults] + (saved + file + overrides);
    data := defaults;
    if saved != [] {
      data := DeepMerge(data, saved[0]);
    }
    OneLayer(defaults, saved);
    OneLayer(data, file);
    if file != [] {
      data := DeepMerge(data, file[0]);
    }
    LayeredConcat(defaults, saved, file);
    LayeredConcat(defaults, saved + file, overrides);
    data := MergeAll(data, overrides);
    data := Expand(Map(data), env).m;
  }

  // ---- resuming --------------------------------------------------------------------------

  lemma ExpandKeepsShape(n: Node, env: map<string, string>)
    ensures Expand(n, env).Map? <==> n.Map?
  {
  }

  /** Expansion changes no key. */
  lemma {:induction false} ExpandKeepsCover(base: Section, top: Section, env: map<string, string>)
    ensures Covers(base, Expand(Map(top), env).m) <==> Covers(base, top)
    decreases Map(top)
  {
    var expanded := Expand(Map(top), env).m;
    assert expanded.Keys == top.Keys;
    forall k | k in base && k in top && base[k].Map? && top[k].Map?
      ensures expanded[k].Map? && (Covers(base[k].m, expanded[k].m) <==> Covers(base[k].m, top[k].m))
    {
      ExpandKeepsCover(base[k].m, top[k].m, env);
    }
    forall k | k in top
      ensures expanded[k].Map? <==> top[k].Map?
    {
      ExpandKeepsShape(top[k], env);
    }
  }

  /** Resuming a run without flags puts its saved configuration over the defaults again. It gives
      back the saved configuration exactly when that has every default key wherever both have a
      mapping, and expanding it once more changes nothing. */
  lemma ResumeReproducesIff(defaults: Section, saved: Section, env: map<string, string>)
    ensures Expand(Map(Layered(defaults, [saved])), env) == Map(saved)
            <==> Covers(defaults, saved) && Expand(Map(saved), env) == Map(saved)
  {
    var merged := Merged(defaults, saved);
    OneLayer(defaults, [saved]);
    MergeIsTopIffCovers(defaults, saved);
    if Expand(Map(merged), env) == Map(saved) {
      MergeCovers(defaults, saved);
      ExpandKeepsCover(defaults, merged, env);
    }
  }

  /** A layer that never puts a scalar or list where the defaults have a mapping. */
  ghost predicate Respects(defaults: Section, layer: Section)
    decreases Map(layer)
  {
    forall k | k in defaults && k in layer && defaults[k].Map? ::
      layer[k].Map? && Respects(defaults[k].m, layer[k].m)
  }

  /** Every default mapping is still a mapping with at least the default keys. */
  ghost predicate Keeps(defaults: Section, data: Section)
    decreases Map(data)
  {
    && defaults.Keys <= data.Keys
    && forall k | k in defaults && defaults[k].Map? :: data[k].Map? && Keeps(defaults[k].m, data[k].m)
  }

  lemma {:induction false} KeepsItself(defaults: Section)
    ensures Keeps(defaults, defaults)
    decreases Map(defaults)
  {
    forall k | k in defaults && defaults[k].Map?
      ensures Keeps(defaults[k].m, defaults[k].m)
    {
      KeepsItself(defaults[k].m);
    }
  }

  lemma {:induction false} KeepsMerge(defaults: Section, data: Section, layer: Section)
    requires Keeps(defaults, data) && Respects(defaults, layer)
    ensures Keeps(defaults, Merged(data, layer))
    decreases Map(layer)
  {
    forall k | k in defaults && defaults[k].Map? && k in layer
      ensures Keeps(defaults[k].m, Merged(data[k].m, layer[k].m))
    {
      KeepsMerge(defaults[k].m, data[k].m, layer[k].m);
    }
  }

  lemma {:induction false} KeepsLayers(defaults: Section, layers: seq<Section>)
    requires forall i | 0 <= i < |layers| :: Respects(defaults, layers[i])
    ensures Keeps(defaults, Layered(defaults, layers))
  {
    if layers == [] {
      KeepsItself(defaults);
    } else {
      KeepsLayers(defaults, layers[..|layers| - 1]);
      KeepsMerge(defaults, Layered(defaults, layers[..|layers| - 1]), layers[|layers| - 1]);
    }
  }

  lemma {:induction false} KeepsIsCover(defaults: Section, data: Section)
    requires Keeps(defaults, data)
    ensures Covers(defaults, data)
    decreases Map(data)
  {
    forall k | k in defaults && defaults[k].Map? && data[k].Map?
      ensures Covers(defaults[k].m, data[k].m)
    {
      KeepsIsCover(defaults[k].m, data[k].m);
    }
  }

  /** A run whose layers respect the default sections, and whose saved values contain no
      placeholders, resumes with exactly its own configuration. */
  lemma ResumeReproduces(defaults: Section, layers: seq<Section>, env: map<string, string>, later: map<string, string>)
    requires forall i | 0 <= i < |layers| :: Respects(defaults, layers[i])
    requires NoPlaceholders(Expand(Map(Layered(defaults, layers)), env))
    ensures var saved := Expand(Map(Layered(defaults, layers)), env);
            Expand(Map(Layered(defaults, [saved.m])), later) == saved
  {
    var data := Layered(defaults, layers);
    var saved := Expand(Map(data), env);
    KeepsLayers(defaults, layers);
    KeepsIsCover(defaults, data);
    ExpandKeepsCover(defaults, data, env);
    NothingToExpand(saved, later);
    ResumeReproducesIff(defaults, saved.m, later);
  }

  /** Replacing a default section by a scalar in one layer and by a new mapping in the next loses
      the section's default keys in the run, but resuming brings them back. */
  lemma ReplacedSectionComesBack(env: map<string, string>)
    ensures var defaults := map["review" := Map(map["max_rounds" := Scalar("3")])];
            var layers := [map["review" := Scalar("null")], map["review" := Map(map["target" := Scalar("8")])]];
            var saved := Expand(Map(Layered(defaults, layers)), env);
            Expand(Map(Layered(defaults, [saved.m])), env) != saved
  {
    var defaults := map["review" := Map(map["max_rounds" := Scalar("3")])];
    var first, second := map["review" := Scalar("null")], map["review" := Map(map["target" := Scalar("8")])];
    var layers: seq<Section> := [first, second];
    assert layers[..1] == [first];
    OneLayer(defaults, [first]);
    var data := Layered(defaults, layers);
    assert data["review"] == second["review"];
    assert "max_rounds" in defaults["review"].m && "max_rounds" !in data["review"].m;
    assert !Covers(defaults["review"].m, data["review"].m);
    assert !Covers(defaults, data);
    ExpandKeepsCover(defaults, data, env);
    ResumeReproducesIff(defaults, Expand(Map(data), env).m, env);
  }

  /** A variable that holds another placeholder is expanded one level per load: resuming such a run
      without flags, in the same environment, changes its configuration. */
  lemma NestedPlaceholderIsNotStable()
    ensures var env := map["A" := "${B}", "B" := "x"];
            var defaults := map["root" := Str("${A}")];
            var saved := Expand(Map(Layered(defaults, [])), env);
            Expand(Map(Layered(defaults, [saved.m])), env) != saved
  {
    var env := map["A" := "${B}", "B" := "x"];
    var defaults := map["root" := Str("${A}")];
    var saved := Expand(Map(Layered(defaults, [])), env);
    NestedSubstitution();
    assert saved.m["root"] == Str("${B}");
    assert Expand(saved, env).m["root"] == Str("x");
    assert "${B}"[0] == '$' && "x"[0] == 'x';
    ResumeReproducesIff(defaults, saved.m, env);
  }

  lemma NestedSubstitution()
    ensures var env := map["A" := "${B}", "B" := "x"];
            Substitute("${A}", env) == "${B}" && Substitute("${B}", env) == "x"
  {
    OnePlaceholder('A');
    OnePlaceholder('B');
    var env := map["A" := "${B}", "B" := "x"];
    assert "${A}" == ['$', '{', 'A', '}'] && "${B}" == ['$', '{', 'B', '}'];
    assert "${A}"[4..] == "" && "${B}"[4..] == "";
  }

  lemma OnePlaceholder(c: char)
    requires NameStart(c)
    ensures MatchAt(['$', '{', c, '}']) == Match(4, [c], "")
  {
    var s := ['$', '{', c, '}'];
    assert s[2..] == [c, '}'] && s[2..][1..] == ['}'];
    assert NameLength(['}']) == 0;
    assert s[3..] == ['}'];
    assert s[..2] == "${";
  }
}
