/** The prefix ledger (tyche/cache.py): which message prefixes each model route has been sent,
    bounded to the most recently used ones, as values. `PrefixLedger` in LedgerClass.dfy is the
    object that keeps one. SHA-256 is taken to be free of collisions: a digest is the string that
    was hashed. */
module Ledger {
  import opened PyList
  import opened Framing
  import opened Messages

  /** A `(route, digest)` pair. */
  datatype Key = Key(route: string, digest: string)

  /** One request handed to the ledger. */
  datatype Request = Request(route: string, lines: seq<Line>)

  /** The two ordered dictionaries, oldest key first. */
  datatype State = State(seen: seq<Key>, nextKeys: seq<Key>, next: map<Key, seq<Line>>)

  datatype PrefixCheck = PrefixCheck(promptTokens: nat, reusableTokens: nat, cacheBreak: bool)

  const EMPTY := State([], [], map[])

  function KeyOf(route: string, prefix: seq<Line>): Key { Key(route, route + Frame(prefix)) }

  /** The digests of the prefixes of length 1 .. |lines|. */
  function Keys(r: Request): seq<Key> {
    seq(|r.lines|, i requires 0 <= i < |r.lines| => KeyOf(r.route, r.lines[..i + 1]))
  }

  // ---- ordered dictionaries -------------------------------------------------------------

  function Without(order: seq<Key>, k: Key): seq<Key> {
    if order == [] then []
    else
      var rest := Without(order[..|order| - 1], k);
      if order[|order| - 1] == k then rest else rest + [order[|order| - 1]]
  }

  /** Insert if absent, then `move_to_end`. */
  function Touch(order: seq<Key>, k: Key): seq<Key> { Without(order, k) + [k] }

  function TouchAll(order: seq<Key>, ks: seq<Key>): seq<Key> {
    if ks == [] then order else Touch(TouchAll(order, ks[..|ks| - 1]), ks[|ks| - 1])
  }

  // ---- what one request does ------------------------------------------------------------

  /** Append `line` to the followers of a prefix unless present, and cut the list with Python's
      `del followers[: -n]`. */
  function Follow(followers: seq<Line>, line: Line, n: int): seq<Line> {
    if line in followers then followers else From(followers + [line], Cut(|followers| + 1, n))
  }

  /** The number of elements `del s[: -n]` removes from a list of length `len`. */
  function Cut(len: nat, n: int): (c: nat)
    ensures c <= len
  {
    Bound(len, -n)
  }

  function FollowersOf(next: map<Key, seq<Line>>, k: Key): seq<Line> {
    if k in next then next[k] else []
  }

  /** `_next` after the first `n` messages of a request were recorded. */
  function NextAfter(s: State, r: Request, n: nat, followers: int): State
    requires n <= |r.lines|
  {
    if n == 0 then s
    else
      var t := NextAfter(s, r, n - 1, followers);
      var parent := KeyOf(r.route, r.lines[..n - 1]);
      t.(nextKeys := Touch(t.nextKeys, parent),
         next := t.next[parent := Follow(FollowersOf(t.next, parent), r.lines[n - 1], followers)])
  }

  function Restrict(next: map<Key, seq<Line>>, keys: seq<Key>): map<Key, seq<Line>> {
    map k | k in next && k in keys :: next[k]
  }

  /** The ledger after one request. */
  function After(limit: nat, followers: int, s: State, r: Request): State {
    var t := NextAfter(s, r, |r.lines|, followers);
    var nextKeys := LastN(t.nextKeys, limit);
    State(LastN(TouchAll(s.seen, Keys(r)), limit), nextKeys, Restrict(t.next, nextKeys))
  }

  /** The ledger after a history of requests. */
  function Replay(limit: nat, followers: int, h: seq<Request>): State {
    if h == [] then EMPTY else After(limit, followers, Replay(limit, followers, h[..|h| - 1]), h[|h| - 1])
  }

  // ---- what is reported -----------------------------------------------------------------

  /** The longest prefix among the first `n` messages whose digest is in the index. */
  function Longest(seen: seq<Key>, r: Request, n: nat): (k: nat)
    requires n <= |r.lines|
    ensures k <= n
    ensures k > 0 ==> KeyOf(r.route, r.lines[..k]) in seen
    ensures forall j | k < j <= n :: KeyOf(r.route, r.lines[..j]) !in seen
  {
    if n == 0 then 0
    else if KeyOf(r.route, r.lines[..n]) in seen then n
    else Longest(seen, r, n - 1)
  }

  /** The number of leading characters two strings share. */
  function Shared(a: string, b: string): (n: nat)
    ensures n <= |a| && n <= |b| && a[..n] == b[..n]
    ensures n < |a| && n < |b| ==> a[n] != b[n]
  {
    if a == "" || b == "" || a[0] != b[0] then 0
    else
      var n := Shared(a[1..], b[1..]);
      assert a[..n + 1] == [a[0]] + a[1..][..n];
      assert b[..n + 1] == [b[0]] + b[1..][..n];
      n + 1
  }

  /** The best match of a message against the messages known to have followed its prefix. */
  function BestShared(line: Line, others: seq<Line>): nat {
    if others == [] then 0
    else
      var best := BestShared(line, others[..|others| - 1]);
      var o := others[|others| - 1];
      if o.role == line.role && Shared(line.text, o.text) > best then Shared(line.text, o.text) else best
  }

  function Partial(s: State, r: Request, longest: nat): nat
    requires longest < |r.lines|
  {
    BestShared(r.lines[longest], FollowersOf(s.next, KeyOf(r.route, r.lines[..longest])))
  }

  function Granularity(p: Profile): (g: nat)
    ensures g >= 1
  {
    if p.granularity > 1 then p.granularity else 1
  }

  /** Tokens a prefix cache could serve, before the provider's minimum and granularity. */
  function RawReusable(s: State, count: Counter, r: Request, p: Profile): nat {
    var longest := Longest(s.seen, r, |r.lines|);
    var whole := TokensUpTo(count, r.lines, longest);
    if longest < |r.lines| && (p.mechanism == Automatic || p.mechanism == Unverified) then
      var shared := Partial(s, r, longest);
      whole + (if 0 < shared <= |r.lines[longest].text| then count(r.lines[longest].text[..shared]) else 0)
    else whole
  }

  function Reusable(s: State, count: Counter, r: Request, p: Profile): nat {
    var raw := RawReusable(s, count, r, p);
    var floored := if raw < p.minPrefixTokens then 0 else raw;
    floored - floored % Granularity(p)
  }

  /** How many messages precede the final reply of a conversation turn; 0 for other requests. */
  function StableLength(lines: seq<Line>): nat {
    if |lines| >= 4 && lines[|lines| - 2].role == "assistant" then |lines| - 2 else 0
  }

  predicate Break(seen: seq<Key>, r: Request) {
    var stable := StableLength(r.lines);
    stable > 0 && KeyOf(r.route, r.lines[..2]) in seen && KeyOf(r.route, r.lines[..stable]) !in seen
  }

  function Check(s: State, count: Counter, r: Request, p: Profile): PrefixCheck {
    PrefixCheck(TokensUpTo(count, r.lines, |r.lines|), Reusable(s, count, r, p), Break(s.seen, r))
  }

  // ---- well-formedness of the ordered dictionaries ----------------------------------------

  lemma ElementsSnoc(order: seq<Key>, k: Key)
    ensures Elements(order + [k]) == Elements(order) + {k}
  {
  }

  lemma DistinctSnoc(order: seq<Key>, k: Key)
    ensures Distinct(order + [k]) <==> Distinct(order) && k !in order
  {
    var all := order + [k];
    assert all[|order|] == k && all[..|order|] == order;
    if Distinct(all) {
      assert forall i | 0 <= i < |order| :: order[i] == all[i];
    }
  }

  lemma {:induction false} WithoutElements(order: seq<Key>, k: Key)
    ensures Elements(Without(order, k)) == Elements(order) - {k}
  {
    if order != [] {
      var n := |order| - 1;
      WithoutElements(order[..n], k);
      assert order == order[..n] + [order[n]];
      ElementsSnoc(order[..n], order[n]);
      ElementsSnoc(Without(order[..n], k), order[n]);
    }
  }

  lemma {:induction false} WithoutAbsent(order: seq<Key>, k: Key)
    requires k !in order
    ensures Without(order, k) == order
  {
    if order != [] {
      var n := |order| - 1;
      WithoutAbsent(order[..n], k);
      assert order == order[..n] + [order[n]];
    }
  }

  lemma {:induction false} WithoutDistinct(order: seq<Key>, k: Key)
    requires Distinct(order)
    ensures Distinct(Without(order, k)) && |Without(order, k)| + 1 >= |order|
  {
    if order != [] {
      var n := |order| - 1;
      assert order == order[..n] + [order[n]];
      DistinctSnoc(order[..n], order[n]);
      if order[n] == k {
        WithoutAbsent(order[..n], k);
      } else {
        WithoutDistinct(order[..n], k);
        WithoutElements(order[..n], k);
        assert order[n] !in Elements(Without(order[..n], k));
        DistinctSnoc(Without(order[..n], k), order[n]);
      }
    }
  }

  lemma TouchFacts(order: seq<Key>, k: Key)
    ensures Elements(Touch(order, k)) == Elements(order) + {k}
    ensures Distinct(order) ==> Distinct(Touch(order, k)) && |Touch(order, k)| >= |order|
  {
    var w := Without(order, k);
    WithoutElements(order, k);
    ElementsSnoc(w, k);
    if Distinct(order) {
      WithoutDistinct(order, k);
      assert k !in Elements(w);
      DistinctSnoc(w, k);
    }
  }

  lemma {:induction false} TouchAllFacts(order: seq<Key>, ks: seq<Key>)
    ensures Elements(TouchAll(order, ks)) == Elements(order) + Elements(ks)
    ensures Distinct(order) ==> Distinct(TouchAll(order, ks)) && |TouchAll(order, ks)| >= |order|
  {
    if ks != [] {
      var n := |ks| - 1;
      TouchAllFacts(order, ks[..n]);
      TouchFacts(TouchAll(order, ks[..n]), ks[n]);
      assert ks == ks[..n] + [ks[n]];
      assert Elements(ks) == Elements(ks[..n]) + {ks[n]};
    }
  }

  lemma TouchAllSnoc(order: seq<Key>, ks: seq<Key>, k: Key)
    ensures TouchAll(order, ks + [k]) == Touch(TouchAll(order, ks), k)
  {
    assert (ks + [k])[..|ks|] == ks;
  }

  /** The order list and the dictionary of followers have the same keys. */
  ghost predicate NextWellFormed(s: State) {
    Distinct(s.nextKeys) && Elements(s.nextKeys) == s.next.Keys
  }

  lemma {:induction false} NextDomain(s: State, r: Request, n: nat, followers: int)
    requires n <= |r.lines| && NextWellFormed(s)
    ensures NextWellFormed(NextAfter(s, r, n, followers))
  {
    if n > 0 {
      NextDomain(s, r, n - 1, followers);
      TouchFacts(NextAfter(s, r, n - 1, followers).nextKeys, KeyOf(r.route, r.lines[..n - 1]));
    }
  }

  lemma DistinctLastN(s: seq<Key>, n: nat)
    requires Distinct(s)
    ensures Distinct(LastN(s, n))
  {
  }

  lemma RestrictFits(s: State, limit: nat)
    requires NextWellFormed(s)
    ensures var kept := LastN(s.nextKeys, limit);
            Distinct(kept) && Elements(kept) == Restrict(s.next, kept).Keys
  {
    var kept := LastN(s.nextKeys, limit);
    DistinctLastN(s.nextKeys, limit);
    forall k | k in kept
      ensures k in s.next
    {
      assert k in Elements(s.nextKeys);
    }
  }

  lemma AfterWellFormed(limit: nat, followers: int, s: State, r: Request)
    requires NextWellFormed(s)
    ensures NextWellFormed(After(limit, followers, s, r))
  {
    NextDomain(s, r, |r.lines|, followers);
    RestrictFits(NextAfter(s, r, |r.lines|, followers), limit);
  }

  lemma AfterDistinct(limit: nat, followers: int, s: State, r: Request)
    requires Distinct(s.seen)
    ensures Distinct(After(limit, followers, s, r).seen)
  {
    TouchAllFacts(s.seen, Keys(r));
    DistinctLastN(TouchAll(s.seen, Keys(r)), limit);
  }

  lemma {:induction false} ReplayWellFormed(limit: nat, followers: int, h: seq<Request>)
    ensures NextWellFormed(Replay(limit, followers, h))
    ensures Distinct(Replay(limit, followers, h).seen)
  {
    if h != [] {
      var n := |h| - 1;
      ReplayWellFormed(limit, followers, h[..n]);
      AfterWellFormed(limit, followers, Replay(limit, followers, h[..n]), h[n]);
      AfterDistinct(limit, followers, Replay(limit, followers, h[..n]), h[n]);
    }
  }
}
