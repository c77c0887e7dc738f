/** Configuration documents as trees, lookup by path, and the law of merging one mapping under
    another. */
module Trees {
  import opened Options

  /** A YAML value. Lists and scalars are never merged, so only mappings have structure that
      matters here. */
  datatype Node =
    | Str(s: string)
    | Scalar(repr: string)
    | List(items: seq<Node>)
    | Map(m: map<string, Node>)

  type Path = seq<string>

  /** Follow a path of keys. */
  function Get(n: Node, p: Path): Option<Node>
    decreases |p|
  {
    if p == [] then Some(n)
    else if n.Map? && p[0] in n.m then Get(n.m[p[0]], p[1..])
    else None
  }

  /** `base` with `override` on top: mappings present on both sides are merged, everything else in
      `override` wins. */
  function Merged(base: map<string, Node>, override: map<string, Node>): map<string, Node>
    decreases Map(override)
  {
    map k | k in base.Keys + override.Keys ::
      if k !in override then base[k]
      else if k in base && base[k].Map? && override[k].Map? then Map(Merged(base[k].m, override[k].m))
      else override[k]
  }

  /** No proper prefix of the path leads to something that is not a mapping. */
  ghost predicate Open(n: Node, p: Path)
    decreases |p|
  {
    p == [] || (n.Map? && (p[0] in n.m ==> Open(n.m[p[0]], p[1..])))
  }

  /** What a merge holds at a path, from what its two sides hold there. */
  ghost function MergedAt(base: Node, override: Node, p: Path): Option<Node> {
    if Get(override, p).Some? then
      if Get(override, p).value.Map? && Get(base, p).Some? && Get(base, p).value.Map?
      then Some(Map(Merged(Get(base, p).value.m, Get(override, p).value.m)))
      else Get(override, p)
    else if Open(override, p) then Get(base, p)
    else None
  }

  /** The path law: a merge is determined path by path. The one exception are the paths below a
      mapping of `override` that replaces a value of `base` that is not a mapping; there only
      `override` counts, which is what `Get(base, p)` being absent says. */
  lemma {:induction false} MergeLaw(base: map<string, Node>, override: map<string, Node>, p: Path)
    ensures Get(Map(Merged(base, override)), p) == MergedAt(Map(base), Map(override), p)
    decreases |p|
  {
    if p != [] && p[0] in override {
      var k, rest := p[0], p[1..];
      assert Get(Map(override), p) == Get(override[k], rest);
      assert Open(Map(override), p) == Open(override[k], rest);
      if k in base {
        assert Get(Map(base), p) == Get(base[k], rest);
        if base[k].Map? && override[k].Map? {
          MergeLaw(base[k].m, override[k].m, rest);
          assert Map(base[k].m) == base[k] && Map(override[k].m) == override[k];
        }
      }
    }
  }

  /** Merging under a mapping adds nothing exactly when the mapping already has every key, at every
      level where both sides are mappings. */
  ghost predicate Covers(base: map<string, Node>, top: map<string, Node>)
    decreases Map(top)
  {
    && base.Keys <= top.Keys
    && forall k | k in base && base[k].Map? && top[k].Map? :: Covers(base[k].m, top[k].m)
  }

  lemma {:induction false} MergeIsTopIffCovers(base: map<string, Node>, top: map<string, Node>)
    ensures Merged(base, top) == top <==> Covers(base, top)
    decreases Map(top)
  {
    var merged := Merged(base, top);
    forall k | k in base && k in top && base[k].Map? && top[k].Map?
      ensures merged[k] == top[k] <==> Covers(base[k].m, top[k].m)
    {
      MergeIsTopIffCovers(base[k].m, top[k].m);
    }
    if merged == top {
      assert forall k | k in base :: k in merged;
    }
  }

  /** A merge covers its lower layer, so merging it again changes nothing. */
  lemma {:induction false} MergeCovers(base: map<string, Node>, override: map<string, Node>)
    ensures Covers(base, Merged(base, override))
    decreases Map(override)
  {
    var merged := Merged(base, override);
    forall k | k in base && base[k].Map? && merged[k].Map?
      ensures Covers(base[k].m, merged[k].m)
    {
      if k in override {
        MergeCovers(base[k].m, override[k].m);
      } else {
        CoversItself(base[k].m);
      }
    }
  }

  lemma {:induction false} CoversItself(base: map<string, Node>)
    ensures Covers(base, base)
    decreases Map(base)
  {
    forall k | k in base && base[k].Map?
      ensures Covers(base[k].m, base[k].m)
    {
      CoversItself(base[k].m);
    }
  }
}
