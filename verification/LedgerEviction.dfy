/** What eviction can and cannot do to the prefixes of one request (tyche/cache.py). */
module LedgerEviction {
  import opened Framing
  import opened Ledger
  import opened LedgerProofs
  import opened Messages
  import opened Options
  import opened PyList

  /** The last request on a route. */
  ghost function LastOn(h: seq<Request>, route: string): Option<Request> {
    if h == [] then None
    else if h[|h| - 1].route == route then Some(h[|h| - 1])
    else LastOn(h[..|h| - 1], route)
  }

  lemma KeysOnRoute(r: Request, k: Key)
    requires k in Keys(r)
    ensures k.route == r.route
  {
    var j :| 0 <= j < |Keys(r)| && Keys(r)[j] == k;
    assert Keys(r)[j] == KeyOf(r.route, r.lines[..j + 1]);
  }

  lemma {:induction false} TouchedOnRoute(h: seq<Request>, k: Key)
    requires k in Touches(h)
    ensures LastOn(h, k.route).Some?
  {
    var n := |h| - 1;
    if k in Keys(h[n]) {
      KeysOnRoute(h[n], k);
    } else {
      TouchedOnRoute(h[..n], k);
    }
  }

  lemma {:induction false} FrameGrows(lines: seq<Line>, a: nat, b: nat)
    requires a < b <= |lines|
    ensures |Frame(lines[..a])| < |Frame(lines[..b])|
  {
    assert lines[..b] == lines[..b - 1] + [lines[b - 1]];
    FrameSnoc(lines[..b - 1], lines[b - 1]);
    if a < b - 1 {
      FrameGrows(lines, a, b - 1);
    }
  }

  /** Prefixes of different length have different keys. */
  lemma KeysDiffer(r: Request, a: nat, b: nat)
    requires a < b <= |r.lines|
    ensures KeyOf(r.route, r.lines[..a]) != KeyOf(r.route, r.lines[..b])
  {
    FrameGrows(r.lines, a, b);
    assert |KeyOf(r.route, r.lines[..a]).digest| < |KeyOf(r.route, r.lines[..b]).digest|;
  }

  lemma TouchedSinceMore(ks: seq<Key>, more: seq<Key>, k: Key)
    requires k in ks && k !in more
    ensures TouchedSince(ks + more, k) == TouchedSince(ks, k) + Elements(more)
  {
    var i, all := LastTouch(ks, k), ks + more;
    forall j | i < j < |all|
      ensures all[j] != k
    {
      assert j >= |ks| ==> all[j] == more[j - |ks|];
    }
    LastTouchIs(all, k, i);
    assert all[i + 1..] == ks[i + 1..] + more;
    ElementsConcat(ks[i + 1..], more);
  }

  lemma LastTouchIs(ks: seq<Key>, k: Key, i: nat)
    requires i < |ks| && ks[i] == k && forall j | i < j < |ks| :: ks[j] != k
    ensures k in ks && LastTouch(ks, k) == i
  {
    assert k in ks;
    var l := LastTouch(ks, k);
    assert ks[l] == k;
  }

  /** In the request that touches both, the longer prefix is touched later. */
  lemma TouchedInLast(h: seq<Request>, r: Request, n: nat)
    requires h != [] && h[|h| - 1] == r && 1 <= n <= |r.lines|
    ensures var ks, k := Touches(h), KeyOf(r.route, r.lines[..n]);
            k in ks && LastTouch(ks, k) == |ks| - |r.lines| + n - 1
  {
    var ks, before := Touches(h), Touches(h[..|h| - 1]);
    assert ks == before + Keys(r);
    var i := |before| + n - 1;
    forall j | i < j < |ks|
      ensures ks[j] != KeyOf(r.route, r.lines[..n])
    {
      assert ks[j] == KeyOf(r.route, r.lines[..j - |before| + 1]);
      KeysDiffer(r, n, j - |before| + 1);
    }
    assert ks[i] == KeyOf(r.route, r.lines[..n]);
    LastTouchIs(ks, KeyOf(r.route, r.lines[..n]), i);
  }

  lemma {:induction false} LongerIsLater(h: seq<Request>, r: Request, a: nat, b: nat)
    requires LastOn(h, r.route) == Some(r) && 1 <= a <= b <= |r.lines|
    ensures var ks, k, l := Touches(h), KeyOf(r.route, r.lines[..a]), KeyOf(r.route, r.lines[..b]);
            k in ks && l in ks && TouchedSince(ks, l) <= TouchedSince(ks, k)
  {
    var ks, k, l := Touches(h), KeyOf(r.route, r.lines[..a]), KeyOf(r.route, r.lines[..b]);
    var n := |h| - 1;
    if h[n].route == r.route {
      TouchedInLast(h, r, a);
      TouchedInLast(h, r, b);
      var i, j := LastTouch(ks, k), LastTouch(ks, l);
      assert ks[j + 1..] == ks[i + 1..][j - i..];
    } else {
      LongerIsLater(h[..n], r, a, b);
      var before, more := Touches(h[..n]), Keys(h[n]);
      assert ks == before + more;
      if k in more {
        KeysOnRoute(h[n], k);
      }
      if l in more {
        KeysOnRoute(h[n], l);
      }
      TouchedSinceMore(before, more, k);
      TouchedSinceMore(before, more, l);
    }
  }

  /** Among the prefixes of the last request on a route the shorter ones go first: as long as one is
      held, so are all longer ones. */
  lemma LongerStaysLonger(limit: nat, h: seq<Request>, r: Request, a: nat, b: nat)
    requires LastOn(h, r.route) == Some(r) && 1 <= a <= b <= |r.lines|
    requires Recent(limit, h, KeyOf(r.route, r.lines[..a]))
    ensures Recent(limit, h, KeyOf(r.route, r.lines[..b]))
  {
    LongerIsLater(h, r, a, b);
    FewerElements(TouchedSince(Touches(h), KeyOf(r.route, r.lines[..b])),
                  TouchedSince(Touches(h), KeyOf(r.route, r.lines[..a])));
  }

  /** A turn whose history up to the last reply begins the last request on its route is not flagged,
      however small the ledger. */
  lemma LedTurnIsNotFlagged(limit: nat, followers: int, h: seq<Request>, r: Request)
    requires LastOn(h, r.route).Some? && StableLength(r.lines) > 0
    requires r.lines[..StableLength(r.lines)] <= LastOn(h, r.route).value.lines
    ensures !Break(Replay(limit, followers, h).seen, r)
  {
    var stable, last := StableLength(r.lines), LastOn(h, r.route).value;
    LastIsOnRoute(h, r.route);
    SameStart(r.lines, last.lines, stable, 2);
    SameStart(r.lines, last.lines, stable, stable);
    BreakReads(Replay(limit, followers, h).seen, r);
    WindowMembership(limit, followers, h, KeyOf(r.route, r.lines[..2]));
    WindowMembership(limit, followers, h, KeyOf(r.route, r.lines[..stable]));
    if KeyOf(r.route, r.lines[..2]) in Replay(limit, followers, h).seen {
      LongerStaysLonger(limit, h, last, 2, stable);
    }
  }

  lemma SameStart(a: seq<Line>, b: seq<Line>, n: nat, k: nat)
    requires k <= n <= |a| && a[..n] <= b
    ensures |b| >= n && a[..k] == b[..k]
  {
    assert b[..n] == a[..n];
    assert a[..k] == a[..n][..k] && b[..k] == b[..n][..k];
  }

  lemma {:induction false} LastIsOnRoute(h: seq<Request>, route: string)
    requires LastOn(h, route).Some?
    ensures LastOn(h, route).value.route == route
  {
    if h[|h| - 1].route != route {
      LastIsOnRoute(h[..|h| - 1], route);
    }
  }

  // ---- what other requests evict ------------------------------------------------------------

  lemma TouchesSnoc(h: seq<Request>, r: Request)
    ensures Touches(h + [r]) == Touches(h) + Keys(r)
  {
    assert (h + [r])[..|h|] == h;
  }

  lemma AppendAssociative(a: seq<Key>, b: seq<Key>, c: seq<Key>)
    ensures (a + b) + c == a + (b + c)
  {
  }

  lemma {:induction false} TouchesConcat(a: seq<Request>, b: seq<Request>)
    ensures Touches(a + b) == Touches(a) + Touches(b)
  {
    if b == [] {
      assert a + b == a;
    } else {
      var n := |b| - 1;
      TouchesConcat(a, b[..n]);
      assert a + b == (a + b[..n]) + [b[n]] && b == b[..n] + [b[n]];
      TouchesSnoc(a + b[..n], b[n]);
      TouchesSnoc(b[..n], b[n]);
      AppendAssociative(Touches(a), Touches(b[..n]), Keys(b[n]));
    }
  }

  /** As many other keys as the ledger holds evict a key. */
  lemma EvictedByMany(limit: nat, h: seq<Request>, more: seq<Request>, k: Key)
    requires k !in Touches(more) && |Elements(Touches(more))| >= limit
    ensures !Recent(limit, h + more, k)
  {
    TouchesConcat(h, more);
    if k in Touches(h) {
      TouchedSinceMore(Touches(h), Touches(more), k);
      FewerElements(Elements(Touches(more)), TouchedSince(Touches(h + more), k));
    }
  }

  /** Once enough other keys were touched, just the opening of a conversation that has gone on is sent
      again: its next turn is flagged although nothing was edited. */
  lemma OpeningEvictsTheRest(limit: nat, followers: int, h: seq<Request>, more: seq<Request>, r: Request)
    requires limit >= 1 && StableLength(r.lines) > 2 && more != []
    requires more[|more| - 1] == Request(r.route, r.lines[..2])
    requires |Elements(Touches(more))| >= limit && KeyOf(r.route, r.lines[..StableLength(r.lines)]) !in Touches(more)
    ensures Break(Replay(limit, followers, h + more).seen, r)
  {
    var q := more[|more| - 1];
    assert (h + more)[|h + more| - 1] == q;
    assert Keys(q)[|Keys(q)| - 1] == KeyOf(r.route, r.lines[..2]) by {
      assert q.lines[..2] == r.lines[..2];
    }
    LastKeyIsRecent(limit, h + more, KeyOf(r.route, r.lines[..2]));
    EvictedByMany(limit, h, more, KeyOf(r.route, r.lines[..StableLength(r.lines)]));
    BreakIffEdited(limit, followers, h + more, r);
  }

  lemma LastKeyIsRecent(limit: nat, h: seq<Request>, k: Key)
    requires limit >= 1 && h != [] && Keys(h[|h| - 1]) != [] && Keys(h[|h| - 1])[|Keys(h[|h| - 1])| - 1] == k
    ensures Recent(limit, h, k)
  {
    var ks := Touches(h);
    LastTouchIs(ks, k, |ks| - 1);
    assert ks[|ks|..] == [];
    assert TouchedSince(ks, k) == {};
  }

  // ---- enough other requests ------------------------------------------------------------------

  function Long(n: nat): string { seq(n, i => 'x') }

  /** A one-shot call with a system message of this length. */
  function Filler(route: string, n: nat): Request { Request(route, RequestLines(Long(n), [], "")) }

  function Fillers(route: string, base: nat, n: nat): seq<Request> {
    if n == 0 then [] else Fillers(route, base, n - 1) + [Filler(route, base + n)]
  }

  lemma FillerKeys(route: string, n: nat)
    ensures var r := Filler(route, n);
            && Keys(r) == [KeyOf(route, r.lines[..1]), KeyOf(route, r.lines)]
            && |Keys(r)[0].digest| == |route| + 8 + n && |Keys(r)[1].digest| == |route| + 14 + n
  {
    var r := Filler(route, n);
    var system, user := Line("system", Long(n)), Line("user", "");
    assert r.lines == [system] + [user] && r.lines[..1] == [system] && r.lines[..2] == r.lines;
    FrameOne(system);
    FrameSnoc([system], user);
  }

  lemma AppendFiller(h: seq<Request>, route: string, base: nat, n: nat)
    requires n > 0
    ensures h + Fillers(route, base, n) == (h + Fillers(route, base, n - 1)) + [Filler(route, base + n)]
  {
  }

  ghost predicate Between(low: nat, high: nat, k: Key) { low < |k.digest| <= high }

  /** All their keys are longer than the shortest system message. */
  lemma {:induction false} FillersAreLong(route: string, base: nat, n: nat, k: Key)
    requires k in Touches(Fillers(route, base, n))
    ensures Between(base, |route| + 14 + base + n, k)
  {
    var before, r := Fillers(route, base, n - 1), Filler(route, base + n);
    TouchesSnoc(before, r);
    if k in Touches(before) {
      FillersAreLong(route, base, n - 1, k);
    } else {
      FillerKeys(route, base + n);
    }
  }

  /** So many of them touch at least so many keys. */
  lemma {:induction false} FillersTouch(route: string, base: nat, n: nat)
    ensures |Elements(Touches(Fillers(route, base, n)))| >= n
  {
    if n > 0 {
      FillersTouch(route, base, n - 1);
      NewKeyTouched(route, base, n);
      var before, k := Fillers(route, base, n - 1), KeyOf(route, Filler(route, base + n).lines);
      OneElementMore(Touches(before), Keys(Filler(route, base + n)), k);
    }
  }

  lemma NewKeyTouched(route: string, base: nat, n: nat)
    requires n > 0
    ensures var before, r := Fillers(route, base, n - 1), Filler(route, base + n);
            && Touches(Fillers(route, base, n)) == Touches(before) + Keys(r)
            && KeyOf(route, r.lines) in Keys(r) && KeyOf(route, r.lines) !in Touches(before)
  {
    var before, r := Fillers(route, base, n - 1), Filler(route, base + n);
    TouchesSnoc(before, r);
    FillerKeys(route, base + n);
    if KeyOf(route, r.lines) in Touches(before) {
      FillersAreLong(route, base, n - 1, KeyOf(route, r.lines));
    }
    assert Keys(r)[1] in Keys(r);
  }

  lemma OneElementMore(a: seq<Key>, b: seq<Key>, k: Key)
    requires k in b && k !in a
    ensures |Elements(a + b)| >= |Elements(a)| + 1
  {
    FewerElements(Elements(a) + {k}, Elements(a + b));
  }

  /** Enough one-shot calls, then the opening of the conversation. */
  lemma FillersEvict(limit: nat, followers: int, h: seq<Request>, base: nat, r: Request)
    requires limit >= 1 && StableLength(r.lines) > 2
    requires base == |KeyOf(r.route, r.lines[..StableLength(r.lines)]).digest|
    ensures var more := Fillers(r.route, base, limit) + [Request(r.route, r.lines[..2])];
            Break(Replay(limit, followers, h + more).seen, r)
  {
    var fillers, opening := Fillers(r.route, base, limit), Request(r.route, r.lines[..2]);
    var more, rest := fillers + [opening], KeyOf(r.route, r.lines[..StableLength(r.lines)]);
    FillersTouch(r.route, base, limit);
    if rest in Touches(fillers) {
      FillersAreLong(r.route, base, limit, rest);
    }
    TouchesConcat(fillers, [opening]);
    OpeningKeysDiffer(r);
    FewerElements(Elements(Touches(fillers)), Elements(Touches(more)));
    OpeningEvictsTheRest(limit, followers, h, more, r);
  }

  lemma OpeningKeysDiffer(r: Request)
    requires StableLength(r.lines) > 2
    ensures KeyOf(r.route, r.lines[..StableLength(r.lines)]) !in Touches([Request(r.route, r.lines[..2])])
  {
    var q, stable := Request(r.route, r.lines[..2]), StableLength(r.lines);
    assert [q][..0] == [] && Touches([q]) == Keys(q);
    assert q.lines[..1] == r.lines[..1] && q.lines[..2] == r.lines[..2];
    assert Keys(q) == [KeyOf(r.route, r.lines[..1]), KeyOf(r.route, r.lines[..2])];
    KeysDiffer(r, 1, stable);
    KeysDiffer(r, 2, stable);
  }
}
