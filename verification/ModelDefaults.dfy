/** Choosing the default entry of every model name (jiuwenswarm/common/config.py,
    `_infer_is_default`). */
module ModelDefaults {
  import opened PyList

  /** The raw value of `is_default`; only the boolean true counts as an explicit mark. */
  datatype Flag = Absent | Boolean(b: bool) | Other(repr: string)

  /** The `model_client_config` of an entry. */
  datatype Client = NoClient | Unnamed | Named(name: string)

  datatype Entry = Entry(client: Client, isDefault: Flag, rest: string)

  function ModelName(e: Entry): string { if e.client.Named? then e.client.name else "" }

  predicate Explicit(e: Entry) { e.isDefault == Boolean(true) }

  predicate SameGroup(entries: seq<Entry>, i: nat, j: nat)
    requires i < |entries| && j < |entries|
  {
    ModelName(entries[i]) == ModelName(entries[j])
  }

  /** Some entry of the group of `i` is explicitly marked. */
  ghost predicate GroupMarked(entries: seq<Entry>, i: nat)
    requires i < |entries|
  {
    exists j | 0 <= j < |entries| :: SameGroup(entries, i, j) && Explicit(entries[j])
  }

  /** The default of a group: its first explicitly marked entry, or its first entry if none is. */
  ghost predicate Chosen(entries: seq<Entry>, i: nat)
    requires i < |entries|
  {
    if GroupMarked(entries, i)
    then Explicit(entries[i]) && forall j | 0 <= j < i && SameGroup(entries, i, j) :: !Explicit(entries[j])
    else forall j | 0 <= j < i :: !SameGroup(entries, i, j)
  }

  /** The positions below `n` whose entry has the name, in order. */
  function Group(entries: seq<Entry>, name: string, n: nat): seq<nat>
    requires n <= |entries|
  {
    if n == 0 then []
    else if ModelName(entries[n - 1]) == name then Group(entries, name, n - 1) + [n - 1]
    else Group(entries, name, n - 1)
  }

  /** `g` is strictly increasing and holds exactly the positions below `n` with the name. */
  ghost predicate Positions(entries: seq<Entry>, name: string, n: nat, g: seq<nat>)
    requires n <= |entries|
  {
    && (forall k | 0 <= k < |g| :: g[k] < n && ModelName(entries[g[k]]) == name)
    && (forall k, l | 0 <= k < l < |g| :: g[k] < g[l])
    && (forall i {:trigger i in g} | 0 <= i < n && ModelName(entries[i]) == name :: i in g)
  }

  lemma {:induction false} GroupIsExact(entries: seq<Entry>, name: string, n: nat)
    requires n <= |entries|
    ensures Positions(entries, name, n, Group(entries, name, n))
  {
    if n == 0 {
      assert Group(entries, name, 0) == [];
    } else {
      var g := Group(entries, name, n - 1);
      GroupIsExact(entries, name, n - 1);
      if ModelName(entries[n - 1]) == name {
        TakePosition(entries, name, n - 1, g);
      } else {
        SkipPosition(entries, name, n - 1, g);
      }
    }
  }

  lemma SkipPosition(entries: seq<Entry>, name: string, n: nat, g: seq<nat>)
    requires n < |entries| && Positions(entries, name, n, g) && ModelName(entries[n]) != name
    ensures Positions(entries, name, n + 1, g)
  {
  }

  lemma TakePosition(entries: seq<Entry>, name: string, n: nat, g: seq<nat>)
    requires n < |entries| && Positions(entries, name, n, g) && ModelName(entries[n]) == name
    ensures Positions(entries, name, n + 1, g + [n])
  {
    var g' := g + [n];
    forall k | 0 <= k < |g'|
      ensures g'[k] < n + 1 && ModelName(entries[g'[k]]) == name
    {
      assert k < |g| ==> g'[k] == g[k];
    }
    forall k, l | 0 <= k < l < |g'|
      ensures g'[k] < g'[l]
    {
      assert g'[k] == g[k] && (l < |g| ==> g'[l] == g[l]);
    }
    NoneIsMissed(entries, name, n + 1, g);
  }

  lemma NoneIsMissed(entries: seq<Entry>, name: string, n: nat, g: seq<nat>)
    requires 0 < n <= |entries|
    requires forall i | 0 <= i < n - 1 && ModelName(entries[i]) == name :: i in g
    ensures forall i | 0 <= i < n && ModelName(entries[i]) == name :: i in g + [n - 1]
  {
    forall i | 0 <= i < n && ModelName(entries[i]) == name
      ensures i in g + [n - 1]
    {
      if i < n - 1 {
        assert i in g;
      } else {
        assert (g + [n - 1])[|g|] == i;
      }
    }
  }

  /** The two entries have the same model name, where having none is the same as having an empty one. */
  ghost predicate SameModel(a: Entry, b: Entry) {
    || (a.client.Named? && a.client == b.client)
    || ((a.client.Named? ==> a.client.name == "") && (b.client.Named? ==> b.client.name == ""))
  }

  /** The first entry of its model that is marked with the boolean true or, if none of them is, the first of
      them. */
  ghost predicate IsDefault(entries: seq<Entry>, i: nat)
    requires i < |entries|
  {
    || (entries[i].isDefault == Boolean(true)
        && forall j | 0 <= j < i && SameModel(entries[j], entries[i]) :: entries[j].isDefault != Boolean(true))
    || (forall j | 0 <= j < |entries| && SameModel(entries[j], entries[i]) ::
          entries[j].isDefault != Boolean(true) && i <= j)
  }

  lemma SameModelIff(entries: seq<Entry>, i: nat, j: nat)
    requires i < |entries| && j < |entries|
    ensures SameGroup(entries, i, j) <==> SameModel(entries[j], entries[i])
  {
  }

  lemma ChosenIff(entries: seq<Entry>, i: nat)
    requires i < |entries|
    ensures Chosen(entries, i) <==> IsDefault(entries, i)
  {
    forall j | 0 <= j < |entries|
      ensures SameGroup(entries, i, j) <==> SameModel(entries[j], entries[i])
    {
      SameModelIff(entries, i, j);
    }
    if GroupMarked(entries, i) {
      var j :| 0 <= j < |entries| && SameGroup(entries, i, j) && Explicit(entries[j]);
      assert SameModel(entries[j], entries[i]) && entries[j].isDefault == Boolean(true);
    }
  }

  /** `_infer_is_default`: group the entries by name, then mark each group. Nothing but the flag
      changes, and exactly the chosen entries end up marked. */
  method InferIsDefault(entries: seq<Entry>) returns (result: seq<Entry>)
    ensures |result| == |entries|
    ensures forall i | 0 <= i < |entries| :: result[i] == entries[i].(isDefault := Boolean(Chosen(entries, i)))
    ensures forall i | 0 <= i < |entries| :: result[i].isDefault == Boolean(IsDefault(entries, i))
  {
    forall i | 0 <= i < |entries|
      ensures Chosen(entries, i) <==> IsDefault(entries, i)
    {
      ChosenIff(entries, i);
    }
    result := entries;
    var names, groups := GroupByName(entries);
    for g := 0 to |names|
      invariant |result| == |entries|
      invariant forall i | 0 <= i < |entries| ::
                  result[i] == if ModelName(entries[i]) in names[..g]
                               then entries[i].(isDefault := Boolean(Chosen(entries, i)))
                               else entries[i]
    {
      assert names[..g + 1] == names[..g] + [names[g]];
      assert names[g] !in names[..g];
      assert GroupedAt(entries, |entries|, groups, names[g]);
      GroupIsExact(entries, names[g], |entries|);
      result := MarkGroup(entries, names[g], groups[names[g]], result);
    }
    assert names[..|names|] == names;
  }

  /** What the first pass knows after `n` entries: the names seen, and the positions of each. */
  ghost predicate Grouped(entries: seq<Entry>, n: nat, names: seq<string>, groups: map<string, seq<nat>>)
    requires n <= |entries|
  {
    && Distinct(names)
    && (forall name | name in groups :: name in names)
    && (forall name | name in names :: GroupedAt(entries, n, groups, name))
    && (forall i | 0 <= i < n :: ModelName(entries[i]) in names)
  }

  ghost predicate GroupedAt(entries: seq<Entry>, n: nat, groups: map<string, seq<nat>>, name: string)
    requires n <= |entries|
  {
    name in groups && groups[name] == Group(entries, name, n)
  }

  /** The first pass: the names in order of appearance, and the positions of each. */
  method GroupByName(entries: seq<Entry>) returns (names: seq<string>, groups: map<string, seq<nat>>)
    ensures Grouped(entries, |entries|, names, groups)
  {
    names, groups := [], map[];
    for i := 0 to |entries|
      invariant Grouped(entries, i, names, groups)
    {
      var name := ModelName(entries[i]);
      ghost var oldNames, oldGroups := names, groups;
      if name !in groups {
        NotYetGrouped(entries, i, names, groups, name);
        groups := groups[name := []];
        names := names + [name];
      } else {
        assert GroupedAt(entries, i, groups, name);
      }
      groups := groups[name := groups[name] + [i]];
      assert groups == oldGroups[name := Group(entries, name, i) + [i]];
      GroupedStep(entries, i, oldNames, oldGroups, names, groups);
    }
  }

  lemma NotYetGrouped(entries: seq<Entry>, n: nat, names: seq<string>, groups: map<string, seq<nat>>, name: string)
    requires n <= |entries| && Grouped(entries, n, names, groups) && name !in groups
    ensures name !in names && Group(entries, name, n) == []
  {
    forall nm | nm in names
      ensures nm in groups
    {
      assert GroupedAt(entries, n, groups, nm);
    }
    forall i | 0 <= i < n
      ensures ModelName(entries[i]) != name
    {
      assert ModelName(entries[i]) in names;
    }
    EmptyGroup(entries, name, n);
  }

  lemma {:induction false} EmptyGroup(entries: seq<Entry>, name: string, n: nat)
    requires n <= |entries| && forall i | 0 <= i < n :: ModelName(entries[i]) != name
    ensures Group(entries, name, n) == []
  {
    if n > 0 {
      EmptyGroup(entries, name, n - 1);
    }
  }

  lemma GroupedStep(entries: seq<Entry>, i: nat, names: seq<string>, groups: map<string, seq<nat>>,
                    names': seq<string>, groups': map<string, seq<nat>>)
    requires i < |entries| && Grouped(entries, i, names, groups)
    requires var name := ModelName(entries[i]);
             && names' == (if name in names then names else names + [name])
             && groups' == groups[name := Group(entries, name, i) + [i]]
    ensures Grouped(entries, i + 1, names', groups')
  {
    forall nm | nm in names'
      ensures GroupedAt(entries, i + 1, groups', nm)
    {
      GroupedAtStep(entries, i, groups, nm);
    }
    NamesStep(entries, i, names, names');
  }

  lemma GroupedAtStep(entries: seq<Entry>, i: nat, groups: map<string, seq<nat>>, name: string)
    requires i < |entries| && (name == ModelName(entries[i]) || GroupedAt(entries, i, groups, name))
    ensures var own := ModelName(entries[i]);
            GroupedAt(entries, i + 1, groups[own := Group(entries, own, i) + [i]], name)
  {
  }

  lemma NamesStep(entries: seq<Entry>, i: nat, names: seq<string>, names': seq<string>)
    requires i < |entries| && Distinct(names)
    requires forall j | 0 <= j < i :: ModelName(entries[j]) in names
    requires var name := ModelName(entries[i]); names' == if name in names then names else names + [name]
    ensures Distinct(names') && forall j | 0 <= j < i + 1 :: ModelName(entries[j]) in names'
  {
    var name := ModelName(entries[i]);
    assert name in names';
    forall j | 0 <= j < i
      ensures ModelName(entries[j]) in names'
    {
      assert ModelName(entries[j]) in names;
    }
  }

  /** One group: a single entry is the default; otherwise the first explicit mark wins, or the
      first entry. */
  method MarkGroup(ghost entries: seq<Entry>, ghost name: string, indices: seq<nat>, before: seq<Entry>)
    returns (result: seq<Entry>)
    requires Positions(entries, name, |entries|, indices) && |before| == |entries|
    requires forall i | 0 <= i < |entries| && ModelName(entries[i]) == name :: before[i] == entries[i]
    ensures |result| == |entries|
    ensures forall i | 0 <= i < |entries| ::
              result[i] == if ModelName(entries[i]) == name
                           then entries[i].(isDefault := Boolean(Chosen(entries, i)))
                           else before[i]
  {
    result := before;
    var hasExplicit := false;
    var k := 0;
    while k < |indices| && !hasExplicit
      invariant 0 <= k <= |indices|
      invariant hasExplicit ==> k < |indices| && Explicit(entries[indices[k]])
      invariant forall l | 0 <= l < k :: !Explicit(entries[indices[l]])
      decreases |indices| - k, !hasExplicit
    {
      assert indices[k] in indices;
      if Explicit(before[indices[k]]) {
        hasExplicit := true;
      } else {
        k := k + 1;
      }
    }
    ghost var winner := if hasExplicit then k else 0;
    WinnerIsChosen(entries, name, indices, hasExplicit, winner);
    if |indices| == 1 {
      assert indices[0] in indices;
      result := result[indices[0] := result[indices[0]].(isDefault := Boolean(true))];
    } else {
      result := MarkWinner(indices, hasExplicit, winner, before);
    }
    forall i | 0 <= i < |entries| && ModelName(entries[i]) == name
      ensures result[i] == entries[i].(isDefault := Boolean(Chosen(entries, i)))
    {
      assert i in indices;
      var l :| 0 <= l < |indices| && indices[l] == i;
      assert before[i] == entries[i];
    }
  }

  /** The marking loop: with an explicit mark the first one stays, otherwise the first entry is
      marked; every other entry of the group is unmarked. */
  method MarkWinner(indices: seq<nat>, hasExplicit: bool, ghost winner: nat, before: seq<Entry>)
    returns (result: seq<Entry>)
    requires forall l | 0 <= l < |indices| :: indices[l] < |before|
    requires forall k, l | 0 <= k < l < |indices| :: indices[k] < indices[l]
    requires hasExplicit ==> winner < |indices| && Explicit(before[indices[winner]])
                             && forall l | 0 <= l < winner :: !Explicit(before[indices[l]])
    requires !hasExplicit ==> winner == 0
    ensures |result| == |before|
    ensures forall l | 0 <= l < |indices| ::
              result[indices[l]] == before[indices[l]].(isDefault := Boolean(l == winner))
    ensures forall i | 0 <= i < |before| && i !in indices :: result[i] == before[i]
  {
    result := before;
    var firstTrue := true;
    for j := 0 to |indices|
      invariant |result| == |before|
      invariant firstTrue <==> j <= winner || !hasExplicit
      invariant forall l | j <= l < |indices| :: result[indices[l]] == before[indices[l]]
      invariant forall l | 0 <= l < j ::
                  result[indices[l]] == before[indices[l]].(isDefault := Boolean(l == winner))
      invariant forall i | 0 <= i < |before| && i !in indices :: result[i] == before[i]
    {
      var idx := indices[j];
      var mark := if hasExplicit then Explicit(result[idx]) && firstTrue else j == 0;
      if hasExplicit && mark {
        firstTrue := false;
      }
      result := result[idx := result[idx].(isDefault := Boolean(mark))];
    }
  }

  lemma WinnerIsChosen(entries: seq<Entry>, name: string, indices: seq<nat>, marked: bool, winner: nat)
    requires Positions(entries, name, |entries|, indices)
    requires marked ==> winner < |indices| && Explicit(entries[indices[winner]])
    requires marked ==> forall l | 0 <= l < winner :: !Explicit(entries[indices[l]])
    requires !marked ==> winner == 0 && forall l | 0 <= l < |indices| :: !Explicit(entries[indices[l]])
    ensures forall l | 0 <= l < |indices| ::
              Chosen(entries, indices[l]) <==> l == winner
  {
    forall l | 0 <= l < |indices|
      ensures Chosen(entries, indices[l]) <==> l == winner
    {
      var i := indices[l];
      if marked {
        assert SameGroup(entries, i, indices[winner]);
        if l > winner {
          assert indices[winner] < i;
        }
        forall j | 0 <= j < i && SameGroup(entries, i, j) && Explicit(entries[j])
          ensures l > winner
        {
          assert j in indices;
          var m :| 0 <= m < |indices| && indices[m] == j;
          assert m < l;
        }
      } else {
        forall j | 0 <= j < |entries| && SameGroup(entries, i, j)
          ensures !Explicit(entries[j]) && (j < i ==> l > 0)
        {
          assert j in indices;
          var m :| 0 <= m < |indices| && indices[m] == j;
        }
        if l > 0 {
          assert SameGroup(entries, i, indices[0]) && indices[0] < i;
        }
      }
    }
  }

  // ---- what the rule guarantees -----------------------------------------------------------

  /** The entries after the inference. */
  ghost function Inferred(entries: seq<Entry>): (r: seq<Entry>)
    ensures |r| == |entries|
  {
    seq(|entries|, i requires 0 <= i < |entries| => entries[i].(isDefault := Boolean(Chosen(entries, i))))
  }

  /** Every model name that occurs has exactly one default. */
  lemma ExactlyOneDefault(entries: seq<Entry>, i: nat) returns (d: nat)
    requires i < |entries|
    ensures d < |entries| && SameGroup(entries, i, d) && Explicit(Inferred(entries)[d])
    ensures forall j | 0 <= j < |entries| && SameGroup(entries, i, j) && Explicit(Inferred(entries)[j]) :: j == d
  {
    if GroupMarked(entries, i) {
      d := First(entries, i, true);
      assert SameGroup(entries, d, d) && GroupMarked(entries, d);
    } else {
      d := First(entries, i, false);
    }
    assert Chosen(entries, d);
    forall j | 0 <= j < |entries| && SameGroup(entries, i, j) && Explicit(Inferred(entries)[j])
      ensures j == d
    {
      assert Chosen(entries, j);
      assert SameGroup(entries, j, d) && SameGroup(entries, d, j);
    }
  }

  /** The first entry of the group of `i`, or its first marked entry. */
  lemma First(entries: seq<Entry>, i: nat, marked: bool) returns (d: nat)
    requires i < |entries| && (marked ==> GroupMarked(entries, i))
    ensures d < |entries| && SameGroup(entries, i, d) && (marked ==> Explicit(entries[d]))
    ensures forall j | 0 <= j < d && SameGroup(entries, i, j) :: marked && !Explicit(entries[j])
  {
    if marked {
      d :| 0 <= d < |entries| && SameGroup(entries, i, d) && Explicit(entries[d]);
    } else {
      d := i;
    }
    while exists j :: 0 <= j < d && SameGroup(entries, i, j) && (marked ==> Explicit(entries[j]))
      invariant d < |entries| && SameGroup(entries, i, d) && (marked ==> Explicit(entries[d]))
      decreases d
    {
      var j :| 0 <= j < d && SameGroup(entries, i, j) && (marked ==> Explicit(entries[j]));
      d := j;
    }
  }

  /** Running the inference again changes nothing. */
  lemma InferenceIsIdempotent(entries: seq<Entry>)
    ensures Inferred(Inferred(entries)) == Inferred(entries)
  {
    var once := Inferred(entries);
    forall i | 0 <= i < |entries|
      ensures Chosen(once, i) <==> Chosen(entries, i)
    {
      var d := ExactlyOneDefault(entries, i);
      assert SameGroup(once, i, d) && Explicit(once[d]);
      assert GroupMarked(once, i);
      assert forall j | 0 <= j < |entries| :: SameGroup(once, i, j) == SameGroup(entries, i, j);
      assert Explicit(once[i]) <==> Chosen(entries, i);
      if Chosen(entries, i) {
        assert i == d;
      }
    }
  }
}
