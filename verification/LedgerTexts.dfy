/** For which message texts the prefix ledger (tyche/cache.py) answers what was really sent. */
module LedgerTexts {
  import opened Framing
  import opened Ledger
  import opened LedgerEviction
  import opened LedgerProofs
  import opened Messages
  import opened PyList

  /** The ledger reports the longest prefix that an earlier request on the route starts with. */
  ghost predicate AnswersAsScan(limit: nat, followers: int, h: seq<Request>, r: Request) {
    Longest(Replay(limit, followers, h).seen, r, |r.lines|) == BestScan(h, r)
  }

  /** A system message, a history and a user message, with these texts. */
  ghost predicate Shaped(texts: iset<string>, r: Request) {
    Over(texts, r.lines) && exists system, history, user :: r.lines == RequestLines(system, history, user)
  }

  /** While nothing is evicted, the ledger answers so in every history of requests with these texts. */
  ghost predicate AlwaysRight(texts: iset<string>) {
    forall limit: nat, followers: int, h: seq<Request>, r: Request
      | NoEviction(limit, h) && (forall i | 0 <= i < |h| :: Shaped(texts, h[i])) && Shaped(texts, r) ::
      AnswersAsScan(limit, followers, h, r)
  }

  /** A prefix of `r` whose key was touched, but which was not sent, is reported all the same. */
  lemma TouchedNotSent(limit: nat, followers: int, h: seq<Request>, r: Request, n: nat)
    requires NoEviction(limit, h) && 0 < n <= |r.lines| && KeyOf(r.route, r.lines[..n]) in Touches(h)
    requires !Sent(h, r.route, r.lines[..n])
    ensures !AnswersAsScan(limit, followers, h, r)
  {
    SeenIffTouched(limit, followers, h, KeyOf(r.route, r.lines[..n]));
    BestScanIsSent(h, r, n);
    assert Longest(Replay(limit, followers, h).seen, r, |r.lines|) >= n;
  }

  lemma ShapedLines(texts: iset<string>, route: string, head: seq<Line>)
    requires Over(texts, head) && head != [] && head[0].role == "system" && "" in texts
    ensures Shaped(texts, Request(route, head + [Line("user", "")]))
  {
    var lines := head + [Line("user", "")];
    assert lines == RequestLines(head[0].text, head[1..], "");
    assert Over(texts, lines);
  }

  /** A request whose system message hides a header, after the messages it is framed like. */
  lemma HiddenIsWrong(texts: iset<string>, t: string)
    requires t in texts && !ClearText(t) && forall s | ClearText(s) :: s in texts
    ensures !AlwaysRight(texts)
  {
    var m, tail := Line("system", t), [Line("user", "")];
    var parts := SplitIntoClear(m);
    var h, r := [Request("", parts + tail)], Request("", [m] + tail);
    assert ClearText("");
    ClearIsOver(texts, parts);
    ShapedLines(texts, "", parts);
    ShapedLines(texts, "", [m]);
    SplitNotSent(m, parts, tail);
    TouchedNotSent(|Elements(Touches(h))|, 8, h, r, 1);
    NotAlwaysRight(texts, |Elements(Touches(h))|, 8, h, r);
  }

  lemma NotAlwaysRight(texts: iset<string>, limit: nat, followers: int, h: seq<Request>, r: Request)
    requires NoEviction(limit, h) && (forall i | 0 <= i < |h| :: Shaped(texts, h[i])) && Shaped(texts, r)
    requires !AnswersAsScan(limit, followers, h, r)
    ensures !AlwaysRight(texts)
  {
  }

  lemma ClearIsOver(texts: iset<string>, ms: seq<Line>)
    requires Clear(ms) && forall t | ClearText(t) :: t in texts
    ensures Over(texts, ms)
  {
  }

  lemma SplitNotSent(m: Line, parts: seq<Line>, tail: seq<Line>)
    requires !ClearText(m.text) && Clear(parts) && parts != [] && Frame(parts) == Piece(m)
    ensures var h, r := [Request("", parts + tail)], Request("", [m] + tail);
            KeyOf("", r.lines[..1]) in Touches(h) && !Sent(h, "", r.lines[..1])
  {
    var h, r := [Request("", parts + tail)], Request("", [m] + tail);
    FrameOne(m);
    assert r.lines[..1] == [m];
    assert h[0].route == "" && parts <= h[0].lines;
    SentIsTouched(h, "", parts);
    assert h[0].lines[0] == parts[0] != m;
  }

  /** Any set of texts that includes the clear ones keeps the ledger right exactly when it has no
      others. */
  lemma AlwaysRightIffClear(texts: iset<string>)
    requires forall t | ClearText(t) :: t in texts
    ensures AlwaysRight(texts) <==> AllClear(texts)
  {
    if AllClear(texts) {
      forall limit: nat, followers: int, h: seq<Request>, r: Request
        | NoEviction(limit, h) && (forall i | 0 <= i < |h| :: Shaped(texts, h[i])) && Shaped(texts, r)
        ensures AnswersAsScan(limit, followers, h, r)
      {
        LongestIsScan(limit, followers, h, r);
      }
    } else {
      var t :| t in texts && !ClearText(t);
      HiddenIsWrong(texts, t);
    }
  }

  /** Two one-shot calls that share no message. As the second system message goes on like the first
      request does, the ledger reports one message of it as sent, however many keys it holds. */
  lemma NeverSentIsReported(limit: nat, followers: int, route: string, system: string, user: string, next: string)
    requires limit >= 1
    ensures var q := Request(route, RequestLines(system, [], user));
            var r := Request(route, RequestLines(system + Piece(Line("user", user)), [], next));
            Longest(Replay(limit, followers, [q]).seen, r, |r.lines|) == 1 && BestScan([q], r) == 0
  {
    var q := Request(route, RequestLines(system, [], user));
    var r := Request(route, RequestLines(system + Piece(Line("user", user)), [], next));
    FramedAsOne(system, user);
    assert q.lines == [Line("system", system), Line("user", user)];
    assert r.lines[..1] == [r.lines[0]];
    assert KeyOf(route, r.lines[..1]) == KeyOf(route, q.lines);
    WholeIsHeld(limit, followers, q);
    LongerThanAll(q, r);
    if KeyOf(route, r.lines[..2]) in Replay(limit, followers, [q]).seen {
      OnlyItsKeys(limit, followers, q, KeyOf(route, r.lines[..2]));
    }
    assert r.lines[0] != q.lines[0];
    BestScanIsSent([q], r, 1);
  }

  /** A system and a user message are framed like one system message. */
  lemma FramedAsOne(system: string, user: string)
    ensures Frame([Line("system", system + Piece(Line("user", user)))])
            == Frame([Line("system", system), Line("user", user)])
  {
    var a, b := Line("system", system), Line("user", user);
    FrameOne(Line("system", system + Piece(b)));
    FrameOne(a);
    FrameSnoc([a], b);
    assert [a] + [b] == [a, b];
    Associative(Header("system"), system, Piece(b));
  }

  /** After one request its whole is held. */
  lemma WholeIsHeld(limit: nat, followers: int, q: Request)
    requires limit >= 1 && q.lines != []
    ensures KeyOf(q.route, q.lines) in Replay(limit, followers, [q]).seen
  {
    assert Keys(q)[|q.lines| - 1] == KeyOf(q.route, q.lines) by {
      assert q.lines[..|q.lines|] == q.lines;
    }
    LastKeyIsRecent(limit, [q], KeyOf(q.route, q.lines));
    WindowMembership(limit, followers, [q], KeyOf(q.route, q.lines));
  }

  /** After one request nothing but its prefixes is held. */
  lemma OnlyItsKeys(limit: nat, followers: int, q: Request, k: Key)
    requires k in Replay(limit, followers, [q]).seen
    ensures k in Keys(q)
  {
    WindowMembership(limit, followers, [q], k);
    TouchedFrom([q], k);
  }

  /** All prefixes of `r` but the first are longer than `q`. */
  lemma LongerThanAll(q: Request, r: Request)
    requires |r.lines| == 2 && q.lines != [] && KeyOf(r.route, r.lines[..1]) == KeyOf(q.route, q.lines)
    ensures KeyOf(r.route, r.lines[..2]) !in Keys(q)
  {
    FrameGrows(r.lines, 1, 2);
    forall k | k in Keys(q)
      ensures |k.digest| <= |KeyOf(q.route, q.lines).digest|
    {
      KeyIsShorter(q, k);
    }
  }

  lemma KeyIsShorter(q: Request, k: Key)
    requires k in Keys(q)
    ensures |k.digest| <= |KeyOf(q.route, q.lines).digest|
  {
    var n := |q.lines|;
    var j :| 0 <= j < n && Keys(q)[j] == k;
    assert q.lines[..n] == q.lines && k == KeyOf(q.route, q.lines[..j + 1]);
    if j + 1 < n {
      FrameGrows(q.lines, j + 1, n);
    }
  }
}
