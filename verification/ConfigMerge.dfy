/** Merging a configuration template into a user's document in place, with optional pruning
    (jiuwenswarm/common/config.py). */
module ConfigMerge {
  import opened Options
  import opened Trees

  type Section = map<string, Node>

  const MERGE_MAX_DEPTH := 32

  /** The keys of a merged level. */
  function LevelKeys(template: Section, user: Section, prune: bool): set<string> {
    if prune then template.Keys else template.Keys + user.Keys
  }

  predicate BothMaps(template: Section, user: Section, k: string) {
    k in template && k in user && template[k].Map? && user[k].Map?
  }

  /** The user's document after the merge. */
  function MergedInto(template: Section, user: Section, depth: nat, prune: bool): Section
    decreases Map(template)
  {
    if depth >= MERGE_MAX_DEPTH then user
    else
      map k | k in LevelKeys(template, user, prune) ::
        if k !in user then template[k]
        else if BothMaps(template, user, k) then Map(MergedInto(template[k].m, user[k].m, depth + 1, prune))
        else user[k]
  }

  /** The paths with a given first key. */
  ghost function Prefixed(k: string, paths: set<Path>): set<Path> { set p | p in paths :: [k] + p }

  /** The paths, starting with one key, at which a key is added or pruned. */
  ghost function KeyChanges(template: Section, user: Section, depth: nat, prune: bool, k: string): set<Path>
    decreases Map(template), 0
  {
    if k in template && k !in user then {[k]}
    else if prune && k in user && k !in template then {[k]}
    else if k in template && BothMaps(template, user, k)
    then Prefixed(k, Changes(template[k].m, user[k].m, depth + 1, prune))
    else {}
  }

  /** All paths at which a key is added or pruned. */
  ghost function Changes(template: Section, user: Section, depth: nat, prune: bool): set<Path>
    decreases Map(template), 1
  {
    if depth >= MERGE_MAX_DEPTH then {}
    else
      Flatten(map k | k in template.Keys + user.Keys :: KeyChanges(template, user, depth, prune, k),
              template.Keys + user.Keys)
  }

  /** The changes of some keys together. */
  ghost function Flatten(per: map<string, set<Path>>, keys: set<string>): set<Path> {
    set k, p | k in keys && k in per && p in per[k] :: p
  }

  /** Every path belongs to its first key. */
  ghost predicate ByFirstKey(per: map<string, set<Path>>) {
    forall k, p | k in per && p in per[k] :: p != [] && p[0] == k
  }

  lemma FlattenMember(per: map<string, set<Path>>, keys: set<string>, p: Path)
    requires ByFirstKey(per)
    ensures p in Flatten(per, keys) <==> p != [] && p[0] in keys && p[0] in per && p in per[p[0]]
  {
    if p in Flatten(per, keys) {
      var k :| k in keys && k in per && p in per[k];
    }
    if p != [] && p[0] in keys && p[0] in per && p in per[p[0]] {
      var k := p[0];
      assert k in keys && k in per && p in per[k];
    }
  }

  lemma FlattenCount(per: map<string, set<Path>>, keys: set<string>, k: string)
    requires ByFirstKey(per) && k !in keys && k in per
    ensures |Flatten(per, keys + {k})| == |Flatten(per, keys)| + |per[k]|
  {
    var before, one, after := Flatten(per, keys), per[k], Flatten(per, keys + {k});
    forall p
      ensures p in after <==> p in before || p in one
      ensures !(p in before && p in one)
    {
      FlattenMember(per, keys, p);
      FlattenMember(per, keys + {k}, p);
    }
    assert after == before + one && before !! one;
  }

  /** A total over keys that grows by each key's count. */
  ghost predicate Sums(total: set<string> -> nat, count: map<string, nat>) {
    total({}) == 0 && forall keys: set<string>, k: string :: GrowsBy(total, count, keys, k)
  }

  ghost predicate GrowsBy(total: set<string> -> nat, count: map<string, nat>, keys: set<string>, k: string) {
    k in count && k !in keys ==> total(keys + {k}) == total(keys) + count[k]
  }

  lemma SumsOne(total: set<string> -> nat, count: map<string, nat>, keys: set<string>, k: string)
    requires Sums(total, count) && k in count && k !in keys
    ensures total(keys + {k}) == total(keys) + count[k]
  {
    assert GrowsBy(total, count, keys, k);
  }

  lemma {:induction false} SumsZero(
    total: set<string> -> nat, count: map<string, nat>, keys: set<string>, extra: set<string>)
    requires Sums(total, count) && keys !! extra
    requires forall k | k in extra :: k in count && count[k] == 0
    ensures total(keys + extra) == total(keys)
    decreases extra
  {
    if extra == {} {
      assert keys + extra == keys;
    } else {
      var x :| x in extra;
      var rest := extra - {x};
      SumsZero(total, count, keys, rest);
      SumsOne(total, count, keys + rest, x);
      assert keys + rest + {x} == keys + extra;
    }
  }

  lemma {:induction false} PrefixCount(paths: set<Path>, k: string)
    ensures |Prefixed(k, paths)| == |paths|
  {
    if paths != {} {
      var q :| q in paths;
      PrefixCount(paths - {q}, k);
      PrefixInjective(paths - {q}, k, q);
      assert Prefixed(k, paths) == Prefixed(k, paths - {q}) + {[k] + q};
    } else {
      assert Prefixed(k, paths) == {};
    }
  }

  lemma PrefixInjective(paths: set<Path>, k: string, q: Path)
    ensures [k] + q in Prefixed(k, paths) <==> q in paths
  {
    forall p | p in paths && [k] + p == [k] + q
      ensures p == q
    {
      assert ([k] + p)[1..] == p && ([k] + q)[1..] == q;
    }
  }

  /** The changes of every key, by key. */
  ghost function PerKey(template: Section, user: Section, depth: nat, prune: bool): (per: map<string, set<Path>>)
    ensures ByFirstKey(per)
  {
    map k | k in template.Keys + user.Keys :: KeyChanges(template, user, depth, prune, k)
  }

  /** How many changes one key contributes. */
  ghost function KeyCount(template: Section, user: Section, depth: nat, prune: bool, k: string): nat {
    if k in template && k !in user then 1
    else if prune && k in user && k !in template then 1
    else if k in template && BothMaps(template, user, k) then |Changes(template[k].m, user[k].m, depth + 1, prune)|
    else 0
  }

  /** The number of changes is the total of the keys' counts. */
  lemma CountPerKey(template: Section, user: Section, depth: nat, prune: bool)
    returns (count: map<string, nat>, total: set<string> -> nat)
    requires depth < MERGE_MAX_DEPTH
    ensures Sums(total, count) && count.Keys == template.Keys + user.Keys
    ensures forall k | k in count :: count[k] == KeyCount(template, user, depth, prune, k)
    ensures |Changes(template, user, depth, prune)| == total(template.Keys + user.Keys)
  {
    var per := PerKey(template, user, depth, prune);
    count := map k | k in per :: |per[k]|;
    total := keys => |Flatten(per, keys)|;
    assert Flatten(per, {}) == {};
    forall keys: set<string>, k: string
      ensures GrowsBy(total, count, keys, k)
    {
      if k in count && k !in keys {
        FlattenCount(per, keys, k);
      }
    }
    forall k | k in per
      ensures |per[k]| == KeyCount(template, user, depth, prune, k)
    {
      if k in template && BothMaps(template, user, k) {
        PrefixCount(Changes(template[k].m, user[k].m, depth + 1, prune), k);
      }
    }
  }

  /** `_deep_merge`: the template's items are merged into the user mapping one by one; pruning
      then deletes what the template does not have. Returns the number of changes. */
  method DeepMerge(template: Section, user: Section, depth: nat, prune: bool)
    returns (changes: nat, result: Section)
    ensures result == MergedInto(template, user, depth, prune)
    ensures changes == |Changes(template, user, depth, prune)|
    decreases Map(template), 2
  {
    changes, result := 0, user;
    if depth < MERGE_MAX_DEPTH {
      ghost var count, total := CountPerKey(template, user, depth, prune);
      ghost var goal := Goal(template, user, depth, prune);
      changes, result := MergeItems(template, user, depth, prune, count, total, goal);
      GoalReached(template, user, depth, prune, goal);
      if prune {
        var dropped;
        dropped, result := Prune(template, result, user.Keys, count, total);
        changes := changes + dropped;
      } else {
        NothingElse(template, user, depth, count, total);
      }
    }
  }

  /** The loop over the template's items. */
  method MergeItems(template: Section, user: Section, depth: nat, prune: bool,
                    ghost count: map<string, nat>, ghost total: set<string> -> nat, ghost goal: Section)
    returns (changes: nat, result: Section)
    requires depth < MERGE_MAX_DEPTH
    requires Sums(total, count) && count.Keys == template.Keys + user.Keys
    requires forall k | k in count :: count[k] == KeyCount(template, user, depth, prune, k)
    requires IsGoal(template, user, depth, prune, goal)
    ensures result == goal && changes == total(template.Keys)
    decreases Map(template), 1
  {
    changes, result := 0, user;
    var done: set<string> := {};
    while done != template.Keys
      invariant done <= template.Keys
      invariant result.Keys == user.Keys + done
      invariant forall k | k in result :: result[k] == if k in template && k !in done then user[k] else goal[k]
      invariant changes == total(done)
      decreases template.Keys - done
    {
      var key :| key in template && key !in done;
      SumsOne(total, count, done, key);
      var n;
      n, result := MergeItem(template, user, depth, prune, key, result, goal);
      changes := changes + n;
      done := done + {key};
    }
  }

  /** The final loop: delete every key the template does not have. */
  method Prune(template: Section, user: Section, ghost keys: set<string>,
               ghost count: map<string, nat>, ghost total: set<string> -> nat)
    returns (dropped: nat, result: Section)
    requires Sums(total, count) && user.Keys == template.Keys + keys == count.Keys
    requires forall k | k in user && k !in template :: count[k] == 1
    ensures result == map k | k in user && k in template :: user[k]
    ensures total(template.Keys + keys) == total(template.Keys) + dropped
  {
    dropped, result := 0, user;
    var extra := set k | k in user && k !in template;
    var gone: set<string> := {};
    assert template.Keys + gone == template.Keys;
    while gone != extra
      invariant gone <= extra
      invariant result == map k | k in user && k !in gone :: user[k]
      invariant total(template.Keys + gone) == total(template.Keys) + dropped
      decreases extra - gone
    {
      var key :| key in extra && key !in gone;
      SumsOne(total, count, template.Keys + gone, key);
      assert template.Keys + gone + {key} == template.Keys + (gone + {key});
      gone := gone + {key};
      result := map k | k in result && k != key :: result[k];
      dropped := dropped + 1;
    }
    assert template.Keys + extra == template.Keys + keys;
  }

  /** One item of the template. */
  method MergeItem(template: Section, ghost user: Section, depth: nat, prune: bool, key: string, before: Section,
                   ghost goal: Section)
    returns (changes: nat, result: Section)
    requires depth < MERGE_MAX_DEPTH && key in template && IsGoal(template, user, depth, prune, goal)
    requires (key in before <==> key in user) && (key in user ==> before[key] == user[key])
    ensures result == before[key := goal[key]]
    ensures changes == KeyCount(template, user, depth, prune, key)
    decreases Map(template), 0
  {
    changes, result := 0, before;
    if key !in result {
      result := result[key := template[key]];
      changes := 1;
    } else if template[key].Map? && result[key].Map? {
      var sub;
      changes, sub := DeepMerge(template[key].m, result[key].m, depth + 1, prune);
      result := result[key := Map(sub)];
    }
  }

  /** What the loop has to produce: the merge before any key is pruned. */
  ghost predicate IsGoal(template: Section, user: Section, depth: nat, prune: bool, goal: Section) {
    && goal.Keys == template.Keys + user.Keys
    && (forall k | k in template && k !in user :: goal[k] == template[k])
    && (forall k | BothMaps(template, user, k) ::
          goal[k] == Map(MergedInto(template[k].m, user[k].m, depth + 1, prune)))
    && (forall k | k in user && !BothMaps(template, user, k) :: goal[k] == user[k])
  }

  lemma Goal(template: Section, user: Section, depth: nat, prune: bool) returns (goal: Section)
    ensures IsGoal(template, user, depth, prune, goal)
  {
    goal := map k | k in template.Keys + user.Keys ::
      if k !in user then template[k]
      else if BothMaps(template, user, k) then Map(MergedInto(template[k].m, user[k].m, depth + 1, prune))
      else user[k];
  }

  lemma GoalReached(template: Section, user: Section, depth: nat, prune: bool, goal: Section)
    requires depth < MERGE_MAX_DEPTH && IsGoal(template, user, depth, prune, goal)
    ensures MergedInto(template, user, depth, prune)
         == if prune then (map k | k in goal && k in template :: goal[k]) else goal
  {
    var merged := MergedInto(template, user, depth, prune);
    assert forall k | k in merged :: merged[k] == goal[k];
  }

  /** Without pruning, keys outside the template are no changes. */
  lemma NothingElse(template: Section, user: Section, depth: nat, count: map<string, nat>, total: set<string> -> nat)
    requires Sums(total, count) && count.Keys == template.Keys + user.Keys
    requires forall k | k in count :: count[k] == KeyCount(template, user, depth, false, k)
    ensures total(template.Keys + user.Keys) == total(template.Keys)
  {
    var extra := set k | k in user && k !in template;
    SumsZero(total, count, template.Keys, extra);
    assert template.Keys + user.Keys == template.Keys + extra;
  }

  // ---- what the merge promises ----------------------------------------------------------

  /** The merge leaves a key as it is. */
  ghost predicate SameAt(before: Section, after: Section, k: string) {
    (k in after <==> k in before) && (k in after && k in before ==> after[k] == before[k])
  }

  /** The merge changes nothing exactly when it reports no changes. */
  lemma {:induction false} UnchangedIffNoChanges(template: Section, user: Section, depth: nat, prune: bool)
    ensures MergedInto(template, user, depth, prune) == user <==> Changes(template, user, depth, prune) == {}
    decreases Map(template)
  {
    if depth < MERGE_MAX_DEPTH {
      forall k | k in template.Keys + user.Keys
        ensures KeyChanges(template, user, depth, prune, k) == {} <==>
                SameAt(user, MergedInto(template, user, depth, prune), k)
      {
        if BothMaps(template, user, k) {
          UnchangedIffNoChanges(template[k].m, user[k].m, depth + 1, prune);
        }
        UnchangedKey(template, user, depth, prune, k);
      }
      NoChangesIff(template, user, depth, prune);
      SameEverywhere(template, user, depth, prune);
    }
  }

  /** One key, given the mappings below it. */
  lemma UnchangedKey(template: Section, user: Section, depth: nat, prune: bool, k: string)
    requires depth < MERGE_MAX_DEPTH && k in template.Keys + user.Keys
    requires BothMaps(template, user, k) ==>
               (MergedInto(template[k].m, user[k].m, depth + 1, prune) == user[k].m <==>
                Changes(template[k].m, user[k].m, depth + 1, prune) == {})
    ensures KeyChanges(template, user, depth, prune, k) == {} <==>
            SameAt(user, MergedInto(template, user, depth, prune), k)
  {
    if BothMaps(template, user, k) {
      var inner := Changes(template[k].m, user[k].m, depth + 1, prune);
      PrefixCount(inner, k);
      assert |inner| == 0 <==> inner == {};
      assert |Prefixed(k, inner)| == 0 <==> Prefixed(k, inner) == {};
    }
  }

  lemma NoChangesIff(template: Section, user: Section, depth: nat, prune: bool)
    requires depth < MERGE_MAX_DEPTH
    ensures Changes(template, user, depth, prune) == {} <==>
            forall k | k in template.Keys + user.Keys :: KeyChanges(template, user, depth, prune, k) == {}
  {
    var per, keys := PerKey(template, user, depth, prune), template.Keys + user.Keys;
    forall p: Path
      ensures p in Changes(template, user, depth, prune) <==>
              exists k | k in keys :: p in KeyChanges(template, user, depth, prune, k)
    {
      FlattenIff(per, keys, p);
      assert forall k | k in keys :: per[k] == KeyChanges(template, user, depth, prune, k);
    }
  }

  lemma FlattenIff(per: map<string, set<Path>>, keys: set<string>, p: Path)
    ensures p in Flatten(per, keys) <==> exists k | k in keys :: k in per && p in per[k]
  {
    if p in Flatten(per, keys) {
      var k :| k in keys && k in per && p in per[k];
    }
  }

  lemma SameEverywhere(template: Section, user: Section, depth: nat, prune: bool)
    requires depth < MERGE_MAX_DEPTH
    ensures var after := MergedInto(template, user, depth, prune);
            after == user <==> forall k | k in template.Keys + user.Keys :: SameAt(user, after, k)
  {
    var after := MergedInto(template, user, depth, prune);
    if forall k | k in template.Keys + user.Keys :: SameAt(user, after, k) {
      forall k | k in after.Keys + user.Keys
        ensures k in after && k in user && after[k] == user[k]
      {
        assert k in template.Keys + user.Keys;
        assert SameAt(user, after, k);
      }
      assert after.Keys == user.Keys;
    }
  }

  lemma ChangedKey(template: Section, user: Section, depth: nat, prune: bool, k: string)
    requires depth < MERGE_MAX_DEPTH
    ensures [k] in Changes(template, user, depth, prune) <==>
            (k in user) != (k in MergedInto(template, user, depth, prune))
  {
    FlattenMember(PerKey(template, user, depth, prune), template.Keys + user.Keys, [k]);
    if BothMaps(template, user, k) {
      PrefixInjective(Changes(template[k].m, user[k].m, depth + 1, prune), k, []);
      EmptyPathNeverChanges(template[k].m, user[k].m, depth + 1, prune);
      assert [k] + [] == [k];
    }
  }

  lemma EmptyPathNeverChanges(template: Section, user: Section, depth: nat, prune: bool)
    ensures [] !in Changes(template, user, depth, prune)
  {
    FlattenMember(PerKey(template, user, depth, prune), template.Keys + user.Keys, []);
  }

  lemma ChangedBelow(template: Section, user: Section, depth: nat, prune: bool, k: string, rest: Path)
    requires depth < MERGE_MAX_DEPTH && rest != []
    ensures [k] + rest in Changes(template, user, depth, prune) <==>
            BothMaps(template, user, k) && rest in Changes(template[k].m, user[k].m, depth + 1, prune)
  {
    FlattenMember(PerKey(template, user, depth, prune), template.Keys + user.Keys, [k] + rest);
    if BothMaps(template, user, k) {
      PrefixInjective(Changes(template[k].m, user[k].m, depth + 1, prune), k, rest);
    }
  }

  lemma GetStep(n: Section, p: Path)
    requires p != []
    ensures Get(Map(n), p) == if p[0] in n then Get(n[p[0]], p[1..]) else None
  {
  }

  /** A path found on one side only, below something found on both. */
  ghost predicate OneSided(before: Node, after: Node, p: Path) {
    && p != []
    && Get(before, p).Some? != Get(after, p).Some?
    && Get(before, p[..|p| - 1]).Some? && Get(after, p[..|p| - 1]).Some?
  }

  lemma OneSidedBelow(before: Section, after: Section, k: string, rest: Path)
    requires rest != []
    ensures OneSided(Map(before), Map(after), [k] + rest) <==>
            k in before && k in after && OneSided(before[k], after[k], rest)
  {
    var p := [k] + rest;
    assert p[1..] == rest && p[..|p| - 1] == [k] + rest[..|rest| - 1];
    assert ([k] + rest[..|rest| - 1])[1..] == rest[..|rest| - 1];
    GetStep(before, p);
    GetStep(after, p);
    GetStep(before, p[..|p| - 1]);
    GetStep(after, p[..|p| - 1]);
  }

  lemma OneSidedKey(before: Section, after: Section, k: string)
    ensures OneSided(Map(before), Map(after), [k]) <==> (k in before) != (k in after)
  {
    GetStep(before, [k]);
    GetStep(after, [k]);
    assert [k][1..] == [] && [k][..0] == [];
  }

  /** Every reported change is a key present on one side only, below mappings present on both. */
  lemma {:induction false} ChangesArePaths(template: Section, user: Section, depth: nat, prune: bool, p: Path)
    ensures p in Changes(template, user, depth, prune) <==>
            OneSided(Map(user), Map(MergedInto(template, user, depth, prune)), p)
    decreases |p|
  {
    if p == [] {
      EmptyPathNeverChanges(template, user, depth, prune);
    } else if depth < MERGE_MAX_DEPTH {
      var k, rest := p[0], p[1..];
      var after := MergedInto(template, user, depth, prune);
      assert p == [k] + rest;
      if rest == [] {
        assert p == [k];
        ChangedKey(template, user, depth, prune, k);
        OneSidedKey(user, after, k);
      } else {
        ChangedBelow(template, user, depth, prune, k, rest);
        OneSidedBelow(user, after, k, rest);
        if BothMaps(template, user, k) {
          ChangesArePaths(template[k].m, user[k].m, depth + 1, prune, rest);
          assert Map(user[k].m) == user[k];
        }
      }
    }
  }

  /** Without pruning, whatever the user has at a path stays as it is unless both sides have a
      mapping there. */
  lemma {:induction false} UserValuesKept(template: Section, user: Section, depth: nat, p: Path)
    requires Get(Map(user), p).Some?
    requires !(Get(Map(user), p).value.Map? && Get(Map(template), p).Some? && Get(Map(template), p).value.Map?)
    ensures Get(Map(MergedInto(template, user, depth, false)), p) == Get(Map(user), p)
    decreases |p|
  {
    if depth < MERGE_MAX_DEPTH && p != [] && BothMaps(template, user, p[0]) {
      assert Map(template[p[0]].m) == template[p[0]] && Map(user[p[0]].m) == user[p[0]];
      UserValuesKept(template[p[0]].m, user[p[0]].m, depth + 1, p[1..]);
    }
  }

  /** Without pruning, every template path within the depth bound is present afterwards, unless the
      user put something that is not a mapping on the way; where the user had nothing it holds the
      template's value. */
  lemma {:induction false} TemplatePathsPresent(template: Section, user: Section, depth: nat, p: Path)
    requires depth + |p| <= 32 && Get(Map(template), p).Some? && Open(Map(user), p)
    ensures var after := Get(Map(MergedInto(template, user, depth, false)), p);
            after.Some? && (Get(Map(user), p).None? ==> after == Get(Map(template), p))
    decreases |p|
  {
    if p != [] && p[0] in user && BothMaps(template, user, p[0]) {
      assert Map(template[p[0]].m) == template[p[0]] && Map(user[p[0]].m) == user[p[0]];
      TemplatePathsPresent(template[p[0]].m, user[p[0]].m, depth + 1, p[1..]);
    }
  }

  /** Below a mapping that both sides have at the depth bound nothing is touched. */
  lemma {:induction false} DeepPathsUntouched(
    template: Section, user: Section, depth: nat, p: Path, q: Path, prune: bool)
    requires depth + |p| == 32
    requires Get(Map(user), p).Some? && Get(Map(user), p).value.Map?
    requires Get(Map(template), p).Some? && Get(Map(template), p).value.Map?
    ensures Get(Map(MergedInto(template, user, depth, prune)), p + q) == Get(Map(user), p + q)
    decreases |p|
  {
    if p == [] {
      assert p + q == q;
    } else {
      assert Map(template[p[0]].m) == template[p[0]] && Map(user[p[0]].m) == user[p[0]];
      DeepPathsUntouched(template[p[0]].m, user[p[0]].m, depth + 1, p[1..], q, prune);
      assert (p + q)[1..] == p[1..] + q;
    }
  }

  /** Merging again changes nothing, with or without pruning. */
  lemma {:induction false} MergeIsIdempotent(template: Section, user: Section, depth: nat, prune: bool)
    ensures var once := MergedInto(template, user, depth, prune);
            MergedInto(template, once, depth, prune) == once
    decreases Map(template)
  {
    if depth < MERGE_MAX_DEPTH {
      var once := MergedInto(template, user, depth, prune);
      var twice := MergedInto(template, once, depth, prune);
      forall k | k in once
        ensures twice[k] == once[k]
      {
        if BothMaps(template, once, k) {
          if k in user {
            MergeIsIdempotent(template[k].m, user[k].m, depth + 1, prune);
          } else {
            MergeWithItself(template[k].m, depth + 1, prune);
          }
        }
      }
      assert twice.Keys == once.Keys;
    }
  }

  lemma {:induction false} MergeWithItself(template: Section, depth: nat, prune: bool)
    ensures MergedInto(template, template, depth, prune) == template
    decreases Map(template)
  {
    if depth < MERGE_MAX_DEPTH {
      forall k | k in template && template[k].Map?
        ensures MergedInto(template[k].m, template[k].m, depth + 1, prune) == template[k].m
      {
        MergeWithItself(template[k].m, depth + 1, prune);
      }
    }
  }

  /** With pruning every level that is a mapping in both the template and the result has exactly
      the template's keys. */
  lemma {:induction false} PrunedKeysAreTemplates(template: Section, user: Section, depth: nat, p: Path)
    requires depth + |p| < MERGE_MAX_DEPTH
    requires Get(Map(template), p).Some? && Get(Map(template), p).value.Map?
    requires var after := Get(Map(MergedInto(template, user, depth, true)), p); after.Some? && after.value.Map?
    ensures Get(Map(MergedInto(template, user, depth, true)), p).value.m.Keys == Get(Map(template), p).value.m.Keys
    decreases |p|
  {
    if p != [] && BothMaps(template, user, p[0]) {
      assert Map(template[p[0]].m) == template[p[0]];
      PrunedKeysAreTemplates(template[p[0]].m, user[p[0]].m, depth + 1, p[1..]);
    }
  }

  /** Nested at most `n` levels deep. */
  ghost predicate Shallow(template: Section, n: nat)
    decreases n
  {
    if n == 0 then template == map[]
    else forall k | k in template && template[k].Map? :: Shallow(template[k].m, n - 1)
  }

  /** For a template within the depth bound this in-place merge and Tyche's layered merge are the
      same function, so the path law of the latter describes it completely. */
  lemma {:induction false} AgreesWithLayeredMerge(template: Section, user: Section, depth: nat)
    requires depth <= 32 && Shallow(template, 32 - depth)
    ensures MergedInto(template, user, depth, false) == Merged(template, user)
    decreases Map(template)
  {
    if depth < MERGE_MAX_DEPTH {
      forall k | BothMaps(template, user, k)
        ensures MergedInto(template[k].m, user[k].m, depth + 1, false) == Merged(template[k].m, user[k].m)
      {
        AgreesWithLayeredMerge(template[k].m, user[k].m, depth + 1);
      }
    }
  }
}
