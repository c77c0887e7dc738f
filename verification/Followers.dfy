/** What the prefix ledger (tyche/cache.py) remembers of the messages that followed a prefix, and what an
    automatic cache is therefore granted. */
module Followers {
  import opened Estimates
  import opened Framing
  import opened Ledger
  import opened LedgerProofs
  import opened Messages
  import opened PyList

  // ---- one list of followers --------------------------------------------------------------

  /** A new follower goes to the end, and then only the last `n` are kept; for `n == 0` all of them, and
      below that the first `-n` are dropped (Python's `del followers[:-n]`). A known one changes nothing. */
  lemma FollowKeepsTheLast(list: seq<Line>, line: Line, n: int)
    ensures line in list ==> Follow(list, line, n) == list
    ensures line !in list && n > 0 ==> Follow(list, line, n) == LastN(list + [line], n)
    ensures line !in list && n == 0 ==> Follow(list, line, n) == list + [line]
    ensures line !in list && n < 0 ==>
              Follow(list, line, n) == (list + [line])[if -n <= |list| + 1 then -n else |list| + 1..]
  {
  }

  lemma FollowAdds(list: seq<Line>, line: Line, n: int)
    requires Distinct(list) && n > 0 && |Elements(list) + {line}| <= n
    ensures Distinct(Follow(list, line, n)) && Elements(Follow(list, line, n)) == Elements(list) + {line}
  {
    FollowKeepsTheLast(list, line, n);
    if line in list {
      assert Elements(list) + {line} == Elements(list);
    } else {
      DistinctMore(list, line);
      assert LastN(list + [line], n) == list + [line];
    }
  }

  lemma DistinctMore(list: seq<Line>, line: Line)
    requires Distinct(list) && line !in list
    ensures Distinct(list + [line]) && Elements(list + [line]) == Elements(list) + {line}
    ensures |Elements(list) + {line}| == |list| + 1
  {
    var longer := list + [line];
    forall i, j | 0 <= i < j < |longer|
      ensures longer[i] != longer[j]
    {
      assert longer[i] == list[i];
    }
    assert Elements(longer) == Elements(list) + {line};
    DistinctCount(longer);
  }

  // ---- all that ever followed -----------------------------------------------------------------

  /** The messages that follow prefixes with this key among the first `n` messages of a request. */
  ghost function LinesAfter(r: Request, n: nat, k: Key): set<Line>
    requires n <= |r.lines|
  {
    if n == 0 then {}
    else LinesAfter(r, n - 1, k) + (if KeyOf(r.route, r.lines[..n - 1]) == k then {r.lines[n - 1]} else {})
  }

  ghost function AllAfter(h: seq<Request>, k: Key): set<Line> {
    if h == [] then {}
    else AllAfter(h[..|h| - 1], k) + LinesAfter(h[|h| - 1], |h[|h| - 1].lines|, k)
  }

  /** The keys of the prefixes that were followed by something. */
  ghost function ParentsOf(r: Request, n: nat): set<Key>
    requires n <= |r.lines|
  {
    if n == 0 then {} else ParentsOf(r, n - 1) + {KeyOf(r.route, r.lines[..n - 1])}
  }

  ghost function Parents(h: seq<Request>): set<Key> {
    if h == [] then {} else Parents(h[..|h| - 1]) + ParentsOf(h[|h| - 1], |h[|h| - 1].lines|)
  }

  lemma {:induction false} LinesAfterHas(r: Request, n: nat, j: nat)
    requires j < n <= |r.lines|
    ensures r.lines[j] in LinesAfter(r, n, KeyOf(r.route, r.lines[..j]))
    decreases n
  {
    if j < n - 1 {
      LinesAfterHas(r, n - 1, j);
    }
  }

  lemma {:induction false} AllAfterHas(h: seq<Request>, i: nat, j: nat)
    requires i < |h| && j < |h[i].lines|
    ensures h[i].lines[j] in AllAfter(h, KeyOf(h[i].route, h[i].lines[..j]))
  {
    var n := |h| - 1;
    if i < n {
      AllAfterHas(h[..n], i, j);
    } else {
      LinesAfterHas(h[n], |h[n].lines|, j);
    }
  }

  // ---- nothing is forgotten ---------------------------------------------------------------------

  /** Exactly these messages are remembered as followers of the key, each once. */
  ghost predicate Remembers(next: map<Key, seq<Line>>, k: Key, lines: set<Line>) {
    Distinct(FollowersOf(next, k)) && Elements(FollowersOf(next, k)) == lines
  }

  lemma RemembersOne(next: map<Key, seq<Line>>, k: Key, lines: set<Line>, parent: Key, line: Line, followers: int)
    requires Remembers(next, k, lines) && followers > 0
    requires |lines + (if parent == k then {line} else {})| <= followers
    ensures Remembers(next[parent := Follow(FollowersOf(next, parent), line, followers)], k,
                      lines + if parent == k then {line} else {})
  {
    if parent == k {
      FollowAdds(FollowersOf(next, k), line, followers);
    } else {
      assert lines + {} == lines;
    }
  }

  lemma {:induction false} NextAfterRemembers(s: State, r: Request, n: nat, followers: int, k: Key, lines: set<Line>)
    requires n <= |r.lines| && followers > 0 && Remembers(s.next, k, lines)
    requires |lines + LinesAfter(r, n, k)| <= followers
    ensures Remembers(NextAfter(s, r, n, followers).next, k, lines + LinesAfter(r, n, k))
  {
    if n == 0 {
      assert lines + LinesAfter(r, 0, k) == lines;
    } else {
      var before := lines + LinesAfter(r, n - 1, k);
      LinesMore(r, n, k, lines);
      FewerElements(before, lines + LinesAfter(r, n, k));
      NextAfterRemembers(s, r, n - 1, followers, k, lines);
      NextAfterStep(s, r, n, followers);
      RemembersOne(NextAfter(s, r, n - 1, followers).next, k, before, KeyOf(r.route, r.lines[..n - 1]),
                   r.lines[n - 1], followers);
    }
  }

  lemma LinesMore(r: Request, n: nat, k: Key, lines: set<Line>)
    requires 0 < n <= |r.lines|
    ensures lines + LinesAfter(r, n, k)
            == lines + LinesAfter(r, n - 1, k)
               + if KeyOf(r.route, r.lines[..n - 1]) == k then {r.lines[n - 1]} else {}
  {
  }

  lemma NextAfterStep(s: State, r: Request, n: nat, followers: int)
    requires 0 < n <= |r.lines|
    ensures var next, parent := NextAfter(s, r, n - 1, followers).next, KeyOf(r.route, r.lines[..n - 1]);
            NextAfter(s, r, n, followers).next
            == next[parent := Follow(FollowersOf(next, parent), r.lines[n - 1], followers)]
  {
  }

  lemma {:induction false} NextAfterKeys(s: State, r: Request, n: nat, followers: int)
    requires n <= |r.lines|
    ensures NextAfter(s, r, n, followers).next.Keys == s.next.Keys + ParentsOf(r, n)
  {
    if n > 0 {
      NextAfterKeys(s, r, n - 1, followers);
    }
  }

  /** With room for all keys none is evicted. */
  lemma NothingRestricted(s: State, limit: nat)
    requires NextWellFormed(s) && |s.next.Keys| <= limit
    ensures Restrict(s.next, LastN(s.nextKeys, limit)) == s.next
  {
    DistinctCount(s.nextKeys);
    assert LastN(s.nextKeys, limit) == s.nextKeys;
    forall k | k in s.next
      ensures k in s.nextKeys
    {
      assert k in Elements(s.nextKeys);
    }
  }

  lemma {:induction false} ReplayKeepsParents(limit: nat, followers: int, h: seq<Request>)
    requires |Parents(h)| <= limit
    ensures Replay(limit, followers, h).next.Keys == Parents(h)
    ensures h != [] ==>
              var s, r := Replay(limit, followers, h[..|h| - 1]), h[|h| - 1];
              Replay(limit, followers, h).next == NextAfter(s, r, |r.lines|, followers).next
  {
    if h != [] {
      var before, r := h[..|h| - 1], h[|h| - 1];
      FewerElements(Parents(before), Parents(h));
      ReplayKeepsParents(limit, followers, before);
      var s := Replay(limit, followers, before);
      ReplayWellFormed(limit, followers, before);
      NextAfterKeys(s, r, |r.lines|, followers);
      NextDomain(s, r, |r.lines|, followers);
      NothingRestricted(NextAfter(s, r, |r.lines|, followers), limit);
    }
  }

  /** As long as there is room for all prefixes, and no more different messages followed this one than are
      kept, the ledger remembers exactly the messages that ever followed it. */
  lemma {:induction false} FollowersAreComplete(limit: nat, followers: int, h: seq<Request>, k: Key)
    requires followers > 0 && |Parents(h)| <= limit && |AllAfter(h, k)| <= followers
    ensures Remembers(Replay(limit, followers, h).next, k, AllAfter(h, k))
  {
    if h != [] {
      var before, r := h[..|h| - 1], h[|h| - 1];
      FewerElements(Parents(before), Parents(h));
      FewerElements(AllAfter(before, k), AllAfter(h, k));
      FollowersAreComplete(limit, followers, before, k);
      ReplayKeepsParents(limit, followers, h);
      NextAfterRemembers(Replay(limit, followers, before), r, |r.lines|, followers, k, AllAfter(before, k));
    }
  }

  // ---- what an automatic cache is granted -----------------------------------------------------

  /** The request starts with the first `n` messages of `r` and goes on in the same role. */
  ghost predicate Alike(q: Request, r: Request, n: nat)
    requires n < |r.lines|
  {
    q.route == r.route && n < |q.lines| && q.lines[..n] == r.lines[..n] && q.lines[n].role == r.lines[n].role
  }

  /** The brute-force question: the longest common start of message `n` with the message an earlier request
      had in its place, after the same messages. */
  ghost function SharedScan(h: seq<Request>, r: Request, n: nat): nat
    requires n < |r.lines|
  {
    if h == [] then 0
    else
      var best, q := SharedScan(h[..|h| - 1], r, n), h[|h| - 1];
      if Alike(q, r, n) && Shared(r.lines[n].text, q.lines[n].text) > best
      then Shared(r.lines[n].text, q.lines[n].text) else best
  }

  lemma {:induction false} SharedScanReaches(h: seq<Request>, r: Request, n: nat, i: nat)
    requires n < |r.lines| && i < |h| && Alike(h[i], r, n)
    ensures Shared(r.lines[n].text, h[i].lines[n].text) <= SharedScan(h, r, n)
  {
    var m := |h| - 1;
    if i < m {
      SharedScanReaches(h[..m], r, n, i);
    }
  }

  lemma {:induction false} SharedScanFrom(h: seq<Request>, r: Request, n: nat) returns (i: nat)
    requires n < |r.lines| && SharedScan(h, r, n) > 0
    ensures i < |h| && Alike(h[i], r, n) && Shared(r.lines[n].text, h[i].lines[n].text) == SharedScan(h, r, n)
  {
    var m := |h| - 1;
    if SharedScan(h[..m], r, n) == SharedScan(h, r, n) {
      i := SharedScanFrom(h[..m], r, n);
    } else {
      i := m;
    }
  }

  /** For clear texts the partial match is what a scan of the history finds. */
  lemma PartialIsScan(limit: nat, followers: int, h: seq<Request>, r: Request, n: nat)
    requires followers > 0 && |Parents(h)| <= limit && n < |r.lines|
    requires |AllAfter(h, KeyOf(r.route, r.lines[..n]))| <= followers
    requires ClearHistory(h) && Clear(r.lines)
    ensures Partial(Replay(limit, followers, h), r, n) == SharedScan(h, r, n)
  {
    var s := Replay(limit, followers, h);
    if Partial(s, r, n) > 0 {
      var i := PartialIsTrue(limit, followers, h, r, n);
      SharedScanReaches(h, r, n, i);
    }
    if SharedScan(h, r, n) > 0 {
      var i := SharedScanFrom(h, r, n);
      FollowersAreComplete(limit, followers, h, KeyOf(r.route, r.lines[..n]));
      AllAfterHas(h, i, n);
      BestSharedIsBest(r.lines[n], FollowersOf(s.next, KeyOf(r.route, r.lines[..n])));
      assert h[i].lines[n] in Elements(FollowersOf(s.next, KeyOf(r.route, r.lines[..n])));
    }
  }

  /** The tokens of the messages shared with an earlier request, and of the common start of the next one. */
  ghost function SharedTokens(h: seq<Request>, count: Counter, r: Request): nat {
    var n := BestScan(h, r);
    var start := if n < |r.lines| then SharedScan(h, r, n) else 0;
    TokensUpTo(count, r.lines, n) + if n < |r.lines| then StartTokens(count, r.lines[n].text, start) else 0
  }

  function StartTokens(count: Counter, text: string, start: nat): nat {
    if 0 < start <= |text| then count(text[..start]) else 0
  }

  /** The provider's minimum and granularity, applied to these tokens, give what the ledger reports. */
  ghost predicate Grants(s: State, count: Counter, r: Request, p: Profile, tokens: nat) {
    Check(s, count, r, p).reusableTokens == if tokens >= p.minPrefixTokens then RoundedDown(tokens, p.granularity) else 0
  }

  /** Nothing is forgotten and every text is clear; then caches that match token by token are granted the
      messages shared with an earlier request and the common start of the next message, rounded down, once
      they reach the minimum. */
  lemma AutomaticIsGranted(limit: nat, followers: int, h: seq<Request>, count: Counter, r: Request, p: Profile)
    requires p.mechanism == Automatic || p.mechanism == Unverified
    requires NoEviction(limit, h) && ClearHistory(h) && Clear(r.lines)
    requires followers > 0 && |Parents(h)| <= limit
    requires |AllAfter(h, KeyOf(r.route, r.lines[..BestScan(h, r)]))| <= followers
    ensures Grants(Replay(limit, followers, h), count, r, p, SharedTokens(h, count, r))
  {
    LongestIsScan(limit, followers, h, r);
    if BestScan(h, r) < |r.lines| {
      PartialIsScan(limit, followers, h, r, BestScan(h, r));
    }
    SharedIsGranted(Replay(limit, followers, h), h, count, r, p);
  }

  lemma SharedIsGranted(s: State, h: seq<Request>, count: Counter, r: Request, p: Profile)
    requires p.mechanism == Automatic || p.mechanism == Unverified
    requires BestScan(h, r) == Longest(s.seen, r, |r.lines|)
    requires BestScan(h, r) < |r.lines| ==> Partial(s, r, BestScan(h, r)) == SharedScan(h, r, BestScan(h, r))
    ensures Grants(s, count, r, p, SharedTokens(h, count, r))
  {
    if BestScan(h, r) < |r.lines| {
      MatchIsGranted(s, count, r, p, BestScan(h, r));
    } else {
      WholeIsGranted(s, count, r, p);
    }
  }

  lemma MatchIsGranted(s: State, count: Counter, r: Request, p: Profile, n: nat)
    requires p.mechanism == Automatic || p.mechanism == Unverified
    requires n == Longest(s.seen, r, |r.lines|) && n < |r.lines|
    ensures Grants(s, count, r, p, TokensUpTo(count, r.lines, n) + StartTokens(count, r.lines[n].text, Partial(s, r, n)))
  {
    assert 0 % Granularity(p) == 0;
  }

  lemma WholeIsGranted(s: State, count: Counter, r: Request, p: Profile)
    requires Longest(s.seen, r, |r.lines|) == |r.lines|
    ensures Grants(s, count, r, p, TokensUpTo(count, r.lines, |r.lines|))
  {
    assert 0 % Granularity(p) == 0;
  }
}
