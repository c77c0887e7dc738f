/** What the prefix ledger's answers mean in terms of the requests that were really sent. */
module LedgerProofs {
  import opened PyList
  import opened Framing
  import opened Ledger

  // ---- the index is the recency window ------------------------------------------------------

  /** Every key touched by a history, in order. */
  ghost function Touches(h: seq<Request>): seq<Key> {
    if h == [] then [] else Touches(h[..|h| - 1]) + Keys(h[|h| - 1])
  }

  /** The position of the last occurrence of `k`. */
  ghost function LastTouch(ks: seq<Key>, k: Key): (i: nat)
    requires k in ks
    ensures i < |ks| && ks[i] == k
    ensures forall j | i < j < |ks| :: ks[j] != k
  {
    if ks[|ks| - 1] == k then |ks| - 1 else LastTouch(ks[..|ks| - 1], k)
  }

  /** The different keys touched after `k` was last touched. */
  ghost function TouchedSince(ks: seq<Key>, k: Key): set<Key>
    requires k in ks
  {
    Elements(ks[LastTouch(ks, k) + 1..])
  }

  lemma {:induction false} TouchAllConcat(order: seq<Key>, a: seq<Key>, b: seq<Key>)
    ensures TouchAll(order, a + b) == TouchAll(TouchAll(order, a), b)
  {
    if b == [] {
      assert a + b == a;
    } else {
      var n := |b| - 1;
      TouchAllConcat(order, a, b[..n]);
      assert a + b == (a + b[..n]) + [b[n]];
      TouchAllSnoc(order, a + b[..n], b[n]);
    }
  }

  lemma {:induction false} WithoutConcat(a: seq<Key>, b: seq<Key>, k: Key)
    ensures Without(a + b, k) == Without(a, k) + Without(b, k)
  {
    if b == [] {
      assert a + b == a;
    } else {
      var n := |b| - 1;
      assert (a + b)[..|a + b| - 1] == a + b[..n];
      WithoutConcat(a, b[..n], k);
    }
  }

  /** A part of a recency order that was cut off at its old end stays such a part. */
  lemma {:induction false} SuffixTouchAll(cut: seq<Key>, order: seq<Key>, ks: seq<Key>)
    requires IsSuffix(cut, order)
    ensures IsSuffix(TouchAll(cut, ks), TouchAll(order, ks))
  {
    if ks != [] {
      var n := |ks| - 1;
      SuffixTouchAll(cut, order, ks[..n]);
      var c, o := TouchAll(cut, ks[..n]), TouchAll(order, ks[..n]);
      var head := o[..|o| - |c|];
      assert o == head + c;
      WithoutConcat(head, c, ks[n]);
      assert Touch(o, ks[n]) == Without(head, ks[n]) + Touch(c, ks[n]);
    }
  }

  /** The index after any history is the recency order of all its touches, cut to the limit:
      evicting after each request never changes which keys remain. */
  lemma {:induction false} SeenIsRecency(limit: nat, followers: int, h: seq<Request>)
    ensures Replay(limit, followers, h).seen == LastN(TouchAll([], Touches(h)), limit)
  {
    if h != [] {
      var h', ks := h[..|h| - 1], Keys(h[|h| - 1]);
      SeenIsRecency(limit, followers, h');
      TouchAllFacts([], Touches(h'));
      TrimThenTouch(TouchAll([], Touches(h')), ks, limit);
      TouchAllConcat([], Touches(h'), ks);
    }
  }

  /** Cutting a recency order before touching more keys makes no difference after cutting again. */
  lemma TrimThenTouch(full: seq<Key>, ks: seq<Key>, limit: nat)
    requires Distinct(full)
    ensures LastN(TouchAll(LastN(full, limit), ks), limit) == LastN(TouchAll(full, ks), limit)
  {
    var cut := LastN(full, limit);
    SuffixTouchAll(cut, full, ks);
    assert Distinct(cut);
    TouchAllFacts(cut, ks);
    SameTail(TouchAll(cut, ks), TouchAll(full, ks), limit);
  }

  lemma SameTail(a: seq<Key>, b: seq<Key>, n: nat)
    requires IsSuffix(a, b) && (|a| >= n || a == b)
    ensures LastN(a, n) == LastN(b, n)
  {
  }

  /** In a recency order the keys behind `k` are those touched since. */
  lemma {:induction false} RecencyPosition(ks: seq<Key>, k: Key) returns (before: seq<Key>, since: seq<Key>)
    requires k in ks
    ensures TouchAll([], ks) == before + [k] + since
    ensures Elements(since) == TouchedSince(ks, k)
  {
    var n := |ks| - 1;
    var rest, last := ks[..n], ks[n];
    var order := TouchAll([], rest);
    if last == k {
      before, since := Without(order, k), [];
    } else {
      before, since := RecencyPosition(rest, k);
      RecencyStep(before, k, since, last);
      TouchedSinceSnoc(ks, k);
      before, since := Without(before, last), Touch(since, last);
    }
  }

  lemma TouchedSinceSnoc(ks: seq<Key>, k: Key)
    requires k in ks && ks[|ks| - 1] != k
    ensures var rest := ks[..|ks| - 1]; k in rest && TouchedSince(ks, k) == TouchedSince(rest, k) + {ks[|ks| - 1]}
  {
    var rest, last, i := ks[..|ks| - 1], ks[|ks| - 1], LastTouch(ks, k);
    assert ks[i + 1..] == rest[i + 1..] + [last];
    ElementsSnoc(rest[i + 1..], last);
  }

  lemma RecencyStep(before: seq<Key>, k: Key, since: seq<Key>, last: Key)
    requires last != k
    ensures Touch(before + [k] + since, last) == Without(before, last) + [k] + Touch(since, last)
    ensures Elements(Touch(since, last)) == Elements(since) + {last}
  {
    WithoutConcat(before + [k], since, last);
    WithoutConcat(before, [k], last);
    WithoutAbsent([k], last);
    TouchFacts(since, last);
  }

  /** `k` is among the `limit` most recently touched keys. */
  ghost predicate Recent(limit: nat, h: seq<Request>, k: Key) {
    k in Touches(h) && |TouchedSince(Touches(h), k)| < limit
  }

  /** The index holds exactly the `limit` most recently touched keys. */
  lemma WindowMembership(limit: nat, followers: int, h: seq<Request>, k: Key)
    ensures k in Replay(limit, followers, h).seen <==> Recent(limit, h, k)
  {
    var ks := Touches(h);
    SeenIsRecency(limit, followers, h);
    TouchAllFacts([], ks);
    if k in ks {
      var before, since := RecencyPosition(ks, k);
      HeldIffFewSince(before, k, since, limit);
    } else {
      NotTouchedNotHeld(ks, k, limit);
    }
  }

  lemma HeldIffFewSince(before: seq<Key>, k: Key, since: seq<Key>, limit: nat)
    requires Distinct(before + [k] + since)
    ensures k in LastN(before + [k] + since, limit) <==> |Elements(since)| < limit
  {
    var order := before + [k] + since;
    assert order[|before|] == k;
    forall i, j | 0 <= i < j < |since|
      ensures since[i] != since[j]
    {
      assert order[|before| + 1 + i] == since[i] && order[|before| + 1 + j] == since[j];
    }
    DistinctCount(since);
    var held := LastN(order, limit);
    if |since| < limit {
      assert held[|held| - |since| - 1] == k;
    } else {
      forall i | 0 <= i < |held|
        ensures held[i] != k
      {
        assert held[i] == order[|order| - |held| + i];
      }
    }
  }

  lemma NotTouchedNotHeld(ks: seq<Key>, k: Key, limit: nat)
    requires k !in ks
    ensures k !in LastN(TouchAll([], ks), limit)
  {
    var order := TouchAll([], ks);
    TouchAllFacts([], ks);
    assert k !in Elements(order);
    forall x | x in LastN(order, limit)
      ensures x in Elements(order)
    {
    }
  }

  // ---- keys and sent prefixes ------------------------------------------------------------

  /** `prefix` is a nonempty prefix of a request sent on `route`. */
  ghost predicate Sent(h: seq<Request>, route: string, prefix: seq<Line>) {
    prefix != [] && exists i | 0 <= i < |h| :: h[i].route == route && prefix <= h[i].lines
  }

  ghost predicate ClearHistory(h: seq<Request>) {
    forall i | 0 <= i < |h| :: Clear(h[i].lines)
  }

  lemma {:induction false} TouchedFrom(h: seq<Request>, k: Key)
    ensures k in Touches(h) <==> exists i | 0 <= i < |h| :: k in Keys(h[i])
  {
    if h != [] {
      var n := |h| - 1;
      TouchedFrom(h[..n], k);
      if k in Touches(h[..n]) {
        var i :| 0 <= i < n && k in Keys(h[..n][i]);
        assert h[i] == h[..n][i];
      }
      if i :| 0 <= i < |h| && k in Keys(h[i]) {
        if i < n {
          assert h[..n][i] == h[i];
        }
      }
    }
  }

  /** Every prefix that was sent is touched. */
  lemma SentIsTouched(h: seq<Request>, route: string, prefix: seq<Line>)
    requires Sent(h, route, prefix)
    ensures KeyOf(route, prefix) in Touches(h)
  {
    var i :| 0 <= i < |h| && h[i].route == route && prefix <= h[i].lines;
    assert Keys(h[i])[|prefix| - 1] == KeyOf(route, prefix) by {
      assert h[i].lines[..|prefix|] == prefix;
    }
    TouchedFrom(h, KeyOf(route, prefix));
  }

  lemma KeyInjective(route: string, a: seq<Line>, route': string, b: seq<Line>)
    requires Clear(a) && Clear(b) && KeyOf(route, a) == KeyOf(route', b)
    ensures route == route' && a == b
  {
    assert Frame(a) == (route + Frame(a))[|route|..];
    assert Frame(b) == (route + Frame(b))[|route|..];
    FrameInjective(a, b);
  }

  /** Without hidden headers a touched key really is a sent prefix. */
  lemma TouchedIffSent(h: seq<Request>, route: string, prefix: seq<Line>)
    requires ClearHistory(h) && Clear(prefix) && prefix != []
    ensures KeyOf(route, prefix) in Touches(h) <==> Sent(h, route, prefix)
  {
    var k := KeyOf(route, prefix);
    TouchedFrom(h, k);
    if k in Touches(h) {
      var i :| 0 <= i < |h| && k in Keys(h[i]);
      var j :| 0 <= j < |Keys(h[i])| && Keys(h[i])[j] == k;
      KeyInjective(route, prefix, h[i].route, h[i].lines[..j + 1]);
      assert prefix <= h[i].lines;
    } else if Sent(h, route, prefix) {
      SentIsTouched(h, route, prefix);
    }
  }

  /** Nothing was evicted from the index. */
  ghost predicate NoEviction(limit: nat, h: seq<Request>) { |Elements(Touches(h))| <= limit }

  lemma SeenIsTouched(limit: nat, followers: int, h: seq<Request>)
    requires NoEviction(limit, h)
    ensures Elements(Replay(limit, followers, h).seen) == Elements(Touches(h))
  {
    SeenIsRecency(limit, followers, h);
    TouchAllFacts([], Touches(h));
    DistinctCount(TouchAll([], Touches(h)));
  }

  lemma SeenIffSent(limit: nat, followers: int, h: seq<Request>, route: string, prefix: seq<Line>)
    requires NoEviction(limit, h) && ClearHistory(h) && Clear(prefix) && prefix != []
    ensures KeyOf(route, prefix) in Replay(limit, followers, h).seen <==> Sent(h, route, prefix)
  {
    var k := KeyOf(route, prefix);
    SeenIsTouched(limit, followers, h);
    TouchedIffSent(h, route, prefix);
    assert k in Replay(limit, followers, h).seen <==> k in Elements(Replay(limit, followers, h).seen);
  }

  // ---- the longest match refines a scan of the history --------------------------------------

  /** How many leading messages two requests share. */
  ghost function SharedLines(a: seq<Line>, b: seq<Line>): (n: nat)
    ensures n <= |b|
  {
    if a == [] || b == [] || a[0] != b[0] then 0 else 1 + SharedLines(a[1..], b[1..])
  }

  /** The brute-force question: the longest prefix of `r` that an earlier request on its route
      also starts with. */
  ghost function BestScan(h: seq<Request>, r: Request): (n: nat)
    ensures n <= |r.lines|
  {
    if h == [] then 0
    else
      var best := BestScan(h[..|h| - 1], r);
      var q := h[|h| - 1];
      if q.route == r.route && SharedLines(q.lines, r.lines) > best then SharedLines(q.lines, r.lines) else best
  }

  lemma {:induction false} SharedLinesIsPrefix(a: seq<Line>, b: seq<Line>, n: nat)
    requires n <= |b|
    ensures SharedLines(a, b) <= |a| && SharedLines(a, b) <= |b|
    ensures n <= SharedLines(a, b) <==> b[..n] <= a
  {
    if a != [] && b != [] && a[0] == b[0] {
      if n > 0 {
        SharedLinesIsPrefix(a[1..], b[1..], n - 1);
        assert b[..n] == [b[0]] + b[1..][..n - 1];
        assert a == [a[0]] + a[1..];
        assert b[..n] <= a <==> b[1..][..n - 1] <= a[1..];
      } else {
        SharedLinesIsPrefix(a[1..], b[1..], 0);
      }
    } else if n > 0 && a != [] {
      assert b[..n][0] == b[0];
    }
  }

  lemma {:induction false} BestScanIsSent(h: seq<Request>, r: Request, n: nat)
    requires n <= |r.lines|
    ensures BestScan(h, r) <= |r.lines|
    ensures 0 < n <= BestScan(h, r) <==> Sent(h, r.route, r.lines[..n])
  {
    if h != [] {
      var m := |h| - 1;
      var q := h[m];
      BestScanIsSent(h[..m], r, n);
      SharedLinesIsPrefix(q.lines, r.lines, n);
      if Sent(h[..m], r.route, r.lines[..n]) {
        var i :| 0 <= i < m && h[..m][i].route == r.route && r.lines[..n] <= h[..m][i].lines;
        assert h[i] == h[..m][i];
      }
      if Sent(h, r.route, r.lines[..n]) && !(q.route == r.route && r.lines[..n] <= q.lines) {
        var i :| 0 <= i < |h| && h[i].route == r.route && r.lines[..n] <= h[i].lines;
        assert h[..m][i] == h[i];
      }
      if n > 0 && q.route == r.route && r.lines[..n] <= q.lines {
        assert Sent(h, r.route, r.lines[..n]);
      }
    }
  }

  lemma ClearPrefix(ms: seq<Line>, n: nat)
    requires Clear(ms) && n <= |ms|
    ensures Clear(ms[..n])
  {
  }

  /** With eviction the longest match never reports a prefix that was not sent, and it is still
      the brute-force answer exactly when that answer's key is recent: shorter prefixes may be
      evicted without harm. */
  lemma LongestWithEviction(limit: nat, followers: int, h: seq<Request>, r: Request)
    requires ClearHistory(h) && Clear(r.lines)
    ensures var longest, best := Longest(Replay(limit, followers, h).seen, r, |r.lines|), BestScan(h, r);
            && longest <= best <= |r.lines|
            && (longest > 0 ==> Sent(h, r.route, r.lines[..longest]))
            && (longest == best <==> best == 0 || Recent(limit, h, KeyOf(r.route, r.lines[..best])))
  {
    var longest := Longest(Replay(limit, followers, h).seen, r, |r.lines|);
    var best := BestScan(h, r);
    BestScanIsSent(h, r, 0);
    if longest > 0 {
      ClearPrefix(r.lines, longest);
      WindowMembership(limit, followers, h, KeyOf(r.route, r.lines[..longest]));
      TouchedIffSent(h, r.route, r.lines[..longest]);
      BestScanIsSent(h, r, longest);
    }
    if best > 0 {
      WindowMembership(limit, followers, h, KeyOf(r.route, r.lines[..best]));
    }
  }

  /** Without eviction the digest chain and the index answer exactly the brute-force question. */
  lemma LongestIsScan(limit: nat, followers: int, h: seq<Request>, r: Request)
    requires NoEviction(limit, h) && ClearHistory(h) && Clear(r.lines)
    ensures Longest(Replay(limit, followers, h).seen, r, |r.lines|) == BestScan(h, r)
  {
    LongestWithEviction(limit, followers, h, r);
    var best := BestScan(h, r);
    if best > 0 {
      ClearPrefix(r.lines, best);
      BestScanIsSent(h, r, best);
      SeenIffSent(limit, followers, h, r.route, r.lines[..best]);
    }
  }

  /** A request repeated at once is recognised in full, however small the index is. */
  lemma RepeatRecognised(limit: nat, followers: int, h: seq<Request>, r: Request)
    requires limit >= 1 && r.lines != []
    ensures Longest(Replay(limit, followers, h + [r]).seen, r, |r.lines|) == |r.lines|
  {
    assert (h + [r])[..|h|] == h;
    var keys := Keys(r);
    var full := TouchAll(Replay(limit, followers, h).seen, keys);
    assert r.lines[..|r.lines|] == r.lines;
    assert full[|full| - 1] == keys[|keys| - 1] == KeyOf(r.route, r.lines);
    assert LastN(full, limit)[|LastN(full, limit)| - 1] == full[|full| - 1];
  }

  /** Whatever was evicted: a turn is flagged exactly when the key of its opening is held, and that of
      its history up to the last reply is not. */
  lemma BreakIffEdited(limit: nat, followers: int, h: seq<Request>, r: Request)
    ensures Break(Replay(limit, followers, h).seen, r) <==>
            && |r.lines| >= 4 && r.lines[|r.lines| - 2].role == "assistant"
            && Recent(limit, h, KeyOf(r.route, r.lines[..2]))
            && !Recent(limit, h, KeyOf(r.route, r.lines[..|r.lines| - 2]))
  {
    BreakReads(Replay(limit, followers, h).seen, r);
    if |r.lines| >= 4 {
      WindowMembership(limit, followers, h, KeyOf(r.route, r.lines[..2]));
      WindowMembership(limit, followers, h, KeyOf(r.route, r.lines[..|r.lines| - 2]));
    }
  }

  lemma BreakReads(seen: seq<Key>, r: Request)
    ensures Break(seen, r) <==>
            && |r.lines| >= 4 && r.lines[|r.lines| - 2].role == "assistant"
            && KeyOf(r.route, r.lines[..2]) in seen && KeyOf(r.route, r.lines[..|r.lines| - 2]) !in seen
  {
  }

  /** A key that is held is that of a prefix really sent on the route; as long as nothing was evicted,
      the keys held are exactly those of the prefixes sent. */
  lemma RecentMeansSent(limit: nat, followers: int, h: seq<Request>, route: string, prefix: seq<Line>)
    requires ClearHistory(h) && Clear(prefix) && prefix != []
    ensures Recent(limit, h, KeyOf(route, prefix)) ==> Sent(h, route, prefix)
    ensures NoEviction(limit, h) ==> (Recent(limit, h, KeyOf(route, prefix)) <==> Sent(h, route, prefix))
  {
    TouchedIffSent(h, route, prefix);
    if NoEviction(limit, h) {
      SeenIffSent(limit, followers, h, route, prefix);
      WindowMembership(limit, followers, h, KeyOf(route, prefix));
    }
  }

  /** As long as nothing was evicted, a turn is flagged exactly when its opening was touched on the
      route but its history up to the last reply never was. */
  lemma BreakIffNeverTouched(limit: nat, followers: int, h: seq<Request>, r: Request)
    requires NoEviction(limit, h)
    ensures Break(Replay(limit, followers, h).seen, r) <==>
            && |r.lines| >= 4 && r.lines[|r.lines| - 2].role == "assistant"
            && KeyOf(r.route, r.lines[..2]) in Touches(h)
            && KeyOf(r.route, r.lines[..|r.lines| - 2]) !in Touches(h)
  {
    BreakReads(Replay(limit, followers, h).seen, r);
    if |r.lines| >= 4 {
      SeenIffTouched(limit, followers, h, KeyOf(r.route, r.lines[..2]));
      SeenIffTouched(limit, followers, h, KeyOf(r.route, r.lines[..|r.lines| - 2]));
    }
  }

  lemma SeenIffTouched(limit: nat, followers: int, h: seq<Request>, k: Key)
    requires NoEviction(limit, h)
    ensures k in Replay(limit, followers, h).seen <==> k in Touches(h)
  {
    SeenIsTouched(limit, followers, h);
    assert k in Replay(limit, followers, h).seen <==> k in Elements(Replay(limit, followers, h).seen);
  }
}
