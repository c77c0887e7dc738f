/** What the ledger's token estimate promises, and exactly which token counters keep the promise. */
module Estimates {
  import opened PyList
  import opened Framing
  import opened Messages
  import opened Ledger
  import opened LedgerProofs

  // ---- the partial match ----------------------------------------------------------------

  /** Some sent request has a prefix with key `k` that was followed by `line`. */
  ghost predicate Followed(h: seq<Request>, k: Key, line: Line) {
    exists i, j | 0 <= i < |h| && 0 <= j < |h[i].lines| :: KeyOf(h[i].route, h[i].lines[..j]) == k && h[i].lines[j] == line
  }

  ghost predicate TrueFollowers(h: seq<Request>, next: map<Key, seq<Line>>) {
    forall k, line | k in next && line in next[k] :: Followed(h, k, line)
  }

  lemma FollowedGrows(h: seq<Request>, r: Request, k: Key, line: Line)
    requires Followed(h, k, line)
    ensures Followed(h + [r], k, line)
  {
    var i, j :| 0 <= i < |h| && 0 <= j < |h[i].lines| && KeyOf(h[i].route, h[i].lines[..j]) == k && h[i].lines[j] == line;
    assert (h + [r])[i] == h[i];
  }

  lemma {:induction false} NextAfterTrue(h: seq<Request>, s: State, r: Request, n: nat, followers: int)
    requires n <= |r.lines| && TrueFollowers(h, s.next)
    ensures TrueFollowers(h + [r], NextAfter(s, r, n, followers).next)
  {
    if n == 0 {
      forall k, line | k in s.next && line in s.next[k]
        ensures Followed(h + [r], k, line)
      {
        FollowedGrows(h, r, k, line);
      }
    } else {
      NextAfterTrue(h, s, r, n - 1, followers);
      var t := NextAfter(s, r, n - 1, followers);
      var parent := KeyOf(r.route, r.lines[..n - 1]);
      assert (h + [r])[|h|] == r;
      assert Followed(h + [r], parent, r.lines[n - 1]);
      FollowIsTrue(h + [r], t.next, parent, r.lines[n - 1], followers);
    }
  }

  lemma FollowIsTrue(h: seq<Request>, next: map<Key, seq<Line>>, k: Key, line: Line, followers: int)
    requires TrueFollowers(h, next) && Followed(h, k, line)
    ensures TrueFollowers(h, next[k := Follow(FollowersOf(next, k), line, followers)])
  {
    forall x | x in Follow(FollowersOf(next, k), line, followers)
      ensures Followed(h, k, x)
    {
      assert x in FollowersOf(next, k) || x == line;
    }
  }

  lemma {:induction false} FollowersAreTrue(limit: nat, followers: int, h: seq<Request>)
    ensures TrueFollowers(h, Replay(limit, followers, h).next)
  {
    if h != [] {
      var n := |h| - 1;
      FollowersAreTrue(limit, followers, h[..n]);
      NextAfterTrue(h[..n], Replay(limit, followers, h[..n]), h[n], |h[n].lines|, followers);
      assert h[..n] + [h[n]] == h;
    }
  }

  lemma {:induction false} BestSharedIsBest(line: Line, others: seq<Line>)
    ensures forall o | o in others && o.role == line.role :: Shared(line.text, o.text) <= BestShared(line, others)
    ensures BestShared(line, others) > 0 ==>
              exists o | o in others :: o.role == line.role && Shared(line.text, o.text) == BestShared(line, others)
  {
    if others != [] {
      var n := |others| - 1;
      BestSharedIsBest(line, others[..n]);
      assert others == others[..n] + [others[n]];
      if BestShared(line, others) > 0 && BestShared(line, others) == BestShared(line, others[..n]) {
        var o :| o in others[..n] && o.role == line.role && Shared(line.text, o.text) == BestShared(line, others[..n]);
        assert o in others;
      }
    }
  }

  /** The part counted inside the first message that differs is the true common start of that
      message and one that really followed the same messages on the same route, in the same role. */
  lemma PartialIsTrue(limit: nat, followers: int, h: seq<Request>, r: Request, n: nat)
    returns (i: nat)
    requires ClearHistory(h) && Clear(r.lines) && n < |r.lines|
    requires Partial(Replay(limit, followers, h), r, n) > 0
    ensures i < |h| && h[i].route == r.route && n < |h[i].lines| && h[i].lines[..n] == r.lines[..n]
    ensures h[i].lines[n].role == r.lines[n].role
    ensures Partial(Replay(limit, followers, h), r, n) == Shared(r.lines[n].text, h[i].lines[n].text)
    ensures forall o | o in FollowersOf(Replay(limit, followers, h).next, KeyOf(r.route, r.lines[..n]))
                       && o.role == r.lines[n].role ::
              Shared(r.lines[n].text, o.text) <= Shared(r.lines[n].text, h[i].lines[n].text)
  {
    var s := Replay(limit, followers, h);
    var k := KeyOf(r.route, r.lines[..n]);
    FollowersAreTrue(limit, followers, h);
    BestSharedIsBest(r.lines[n], FollowersOf(s.next, k));
    var o :| o in FollowersOf(s.next, k) && o.role == r.lines[n].role
             && Shared(r.lines[n].text, o.text) == Partial(s, r, n);
    assert Followed(h, k, o);
    var a, j :| 0 <= a < |h| && 0 <= j < |h[a].lines| && KeyOf(h[a].route, h[a].lines[..j]) == k && h[a].lines[j] == o;
    i := a;
    ClearPrefix(h[i].lines, j);
    ClearPrefix(r.lines, n);
    KeyInjective(r.route, r.lines[..n], h[i].route, h[i].lines[..j]);
    assert |h[i].lines[..j]| == |r.lines[..n]|;
  }

  // ---- the estimate ---------------------------------------------------------------------

  lemma AtLeastOnce(a: int, g: int)
    requires a >= 1 && g >= 0
    ensures a * g >= g
  {
  }

  lemma Multiple(k: int, g: int)
    requires g >= 1
    ensures (k * g) % g == 0
  {
    var d := k - (k * g) / g;
    assert d * g == (k * g) % g;
    if d >= 1 {
      AtLeastOnce(d, g);
    } else if d <= -1 {
      AtLeastOnce(-d, g);
    }
  }

  lemma Rounding(x: nat, g: nat, low: nat)
    requires g >= 1 && low % g == 0
    ensures (x - x % g) % g == 0
    ensures x >= low ==> x - x % g >= low
  {
    var q, k := x / g, low / g;
    assert x - x % g == q * g;
    Multiple(q, g);
    if x >= low && k > q {
      AtLeastOnce(k - q, g);
    }
    if k < q {
      AtLeastOnce(q - k, g);
      assert (q - k) * g == q * g - k * g;
    }
  }

  /** The estimate is a multiple of the provider's granularity, and 0 or at least its minimum when
      the minimum is such a multiple. */
  lemma EstimateIsRounded(s: State, count: Counter, r: Request, p: Profile)
    ensures Reusable(s, count, r, p) % Granularity(p) == 0
    ensures p.minPrefixTokens >= 0 && p.minPrefixTokens % Granularity(p) == 0 ==>
              Reusable(s, count, r, p) == 0 || Reusable(s, count, r, p) >= p.minPrefixTokens
  {
    var raw := RawReusable(s, count, r, p);
    var floored := if raw < p.minPrefixTokens then 0 else raw;
    Multiple(0, Granularity(p));
    Rounding(floored, Granularity(p), 0);
    if p.minPrefixTokens >= 0 && p.minPrefixTokens % Granularity(p) == 0 {
      Rounding(floored, Granularity(p), p.minPrefixTokens);
    }
  }

  // ---- what the estimate grants -----------------------------------------------------------

  /** The largest multiple of the provider's granularity that does not exceed `tokens`. */
  ghost function RoundedDown(tokens: nat, granularity: int): (n: nat)
    ensures n <= tokens
  {
    var g := if granularity > 1 then granularity else 1;
    tokens - tokens % g
  }

  lemma RoundedDownIsLargest(tokens: nat, granularity: int, k: nat)
    ensures granularity <= 1 ==> RoundedDown(tokens, granularity) == tokens
    ensures granularity > 1 ==> RoundedDown(tokens, granularity) % granularity == 0
    ensures granularity > 1 && k * granularity <= tokens ==> k * granularity <= RoundedDown(tokens, granularity)
  {
    if granularity > 1 {
      Multiple(k, granularity);
      Rounding(tokens, granularity, k * granularity);
    }
  }

  lemma RoundedDownGrows(a: nat, b: nat, granularity: int)
    requires a <= b
    ensures RoundedDown(a, granularity) <= RoundedDown(b, granularity)
  {
    var g := if granularity > 1 then granularity else 1;
    Multiple(0, g);
    Rounding(a, g, 0);
    Rounding(b, g, RoundedDown(a, granularity));
  }

  /** While nothing was evicted and for clear texts, the messages shared with an earlier request on the route
      are granted in full once they reach the provider's minimum, rounded down; explicit and client caches
      are granted exactly that. */
  lemma SharedMessagesAreGranted(limit: nat, followers: int, h: seq<Request>, count: Counter, r: Request, p: Profile)
    requires NoEviction(limit, h) && ClearHistory(h) && Clear(r.lines)
    ensures var sure := TokensUpTo(count, r.lines, BestScan(h, r));
            var granted := Check(Replay(limit, followers, h), count, r, p).reusableTokens;
            && (sure >= p.minPrefixTokens ==> granted >= RoundedDown(sure, p.granularity))
            && (p.mechanism == Explicit || p.mechanism == Client ==>
                  granted == if sure >= p.minPrefixTokens then RoundedDown(sure, p.granularity) else 0)
  {
    LongestIsScan(limit, followers, h, r);
    RecognisedIsGranted(Replay(limit, followers, h), count, r, p, BestScan(h, r));
  }

  lemma RecognisedIsGranted(s: State, count: Counter, r: Request, p: Profile, n: nat)
    requires n == Longest(s.seen, r, |r.lines|)
    ensures var sure := TokensUpTo(count, r.lines, n);
            var granted := Check(s, count, r, p).reusableTokens;
            && (sure >= p.minPrefixTokens ==> granted >= RoundedDown(sure, p.granularity))
            && (p.mechanism == Explicit || p.mechanism == Client ==>
                  granted == if sure >= p.minPrefixTokens then RoundedDown(sure, p.granularity) else 0)
  {
    RoundedDownGrows(TokensUpTo(count, r.lines, n), RawReusable(s, count, r, p), p.granularity);
    assert 0 % Granularity(p) == 0;
  }

  /** A request sent again at once is granted in full, rounded down, once it reaches the minimum. */
  lemma RepeatIsGranted(limit: nat, followers: int, h: seq<Request>, count: Counter, r: Request, p: Profile)
    requires limit >= 1 && r.lines != []
    ensures var prompt := TokensUpTo(count, r.lines, |r.lines|);
            var check := Check(Replay(limit, followers, h + [r]), count, r, p);
            && check.promptTokens == prompt
            && check.reusableTokens == if prompt >= p.minPrefixTokens then RoundedDown(prompt, p.granularity) else 0
  {
    RepeatRecognised(limit, followers, h, r);
    assert 0 % Granularity(p) == 0;
  }

  /** No prefix of a text counts more tokens than the text. */
  ghost predicate PrefixMonotone(count: Counter) {
    forall t: string, k: nat | k <= |t| :: count(t[..k]) <= count(t)
  }

  ghost predicate WithinPrompt(limit: nat, followers: int, h: seq<Request>, count: Counter, r: Request, p: Profile) {
    Reusable(Replay(limit, followers, h), count, r, p) <= TokensUpTo(count, r.lines, |r.lines|)
  }

  /** In no history does the ledger claim more reusable tokens than the prompt has. */
  ghost predicate NeverOverestimates(count: Counter) {
    forall limit: nat, followers: int, h: seq<Request>, r: Request, p: Profile ::
      WithinPrompt(limit, followers, h, count, r, p)
  }

  lemma WithinPromptIfMonotone(limit: nat, followers: int, h: seq<Request>, count: Counter, r: Request, p: Profile)
    requires PrefixMonotone(count)
    ensures WithinPrompt(limit, followers, h, count, r, p)
  {
    var s := Replay(limit, followers, h);
    var longest := Longest(s.seen, r, |r.lines|);
    TokensGrow(count, r.lines, longest, |r.lines|);
    if longest < |r.lines| {
      TokensGrow(count, r.lines, longest + 1, |r.lines|);
    }
  }

  /** The ledger after one request of a system and a user message. */
  lemma AfterOneCall(a: Line, b: Line)
    ensures var s := Replay(8, 4, [Request("", [a, b])]);
            s.seen == [KeyOf("", [a]), KeyOf("", [a, b])] && FollowersOf(s.next, KeyOf("", [a])) == [b]
  {
    var q := Request("", [a, b]);
    assert [q][..0] == [];
    assert Replay(8, 4, [q]) == After(8, 4, EMPTY, q);
    SeenAfterOne(a, b);
    NextAfterOne(a, b);
  }

  lemma KeysOfTwo(a: Line, b: Line)
    ensures Keys(Request("", [a, b])) == [KeyOf("", [a]), KeyOf("", [a, b])]
    ensures KeyOf("", []) != KeyOf("", [a]) && KeyOf("", [a]) != KeyOf("", [a, b])
  {
    var q := Request("", [a, b]);
    assert q.lines[..1] == [a] && q.lines[..2] == [a, b] == [a] + [b];
    FrameOne(a);
    FrameSnoc([a], b);
    assert |Frame([a, b])| > |Frame([a])| > 0;
  }

  lemma SeenAfterOne(a: Line, b: Line)
    ensures LastN(TouchAll([], Keys(Request("", [a, b]))), 8) == [KeyOf("", [a]), KeyOf("", [a, b])]
  {
    var k, k' := KeyOf("", [a]), KeyOf("", [a, b]);
    KeysOfTwo(a, b);
    assert [] + [k] == [k] && [k] + [k'] == [k, k'];
    TouchAllSnoc([], [], k);
    TouchAllSnoc([], [k], k');
    WithoutAbsent([k], k');
  }

  lemma NextAfterFirst(a: Line, b: Line)
    ensures NextAfter(EMPTY, Request("", [a, b]), 1, 4) == State([], [KeyOf("", [])], map[KeyOf("", []) := [a]])
  {
    var q, root := Request("", [a, b]), KeyOf("", []);
    assert q.lines[..0] == [];
    assert NextAfter(EMPTY, q, 0, 4) == EMPTY;
    assert Without([], root) == [] && [] + [root] == [root];
    assert Follow([], a, 4) == [a];
  }

  lemma NextAfterSecond(a: Line, b: Line)
    ensures NextAfter(EMPTY, Request("", [a, b]), 2, 4)
            == State([], [KeyOf("", []), KeyOf("", [a])], map[KeyOf("", []) := [a], KeyOf("", [a]) := [b]])
  {
    var q, root, k := Request("", [a, b]), KeyOf("", []), KeyOf("", [a]);
    KeysOfTwo(a, b);
    NextAfterFirst(a, b);
    assert q.lines[..1] == [a];
    WithoutAbsent([root], k);
    assert Touch([root], k) == [root, k];
    assert Follow([], b, 4) == [b];
  }

  lemma NextAfterOne(a: Line, b: Line)
    ensures var t := NextAfter(EMPTY, Request("", [a, b]), 2, 4);
            FollowersOf(Restrict(t.next, LastN(t.nextKeys, 8)), KeyOf("", [a])) == [b]
  {
    var t, k := NextAfter(EMPTY, Request("", [a, b]), 2, 4), KeyOf("", [a]);
    NextAfterSecond(a, b);
    assert LastN(t.nextKeys, 8) == t.nextKeys && t.nextKeys[1] == k;
  }

  /** A counter that finds more tokens in a prefix than in the whole text overestimates as soon as a call
      with that prefix is followed by one with that text, under the same system message. */
  lemma OverestimateWitness(count: Counter, system: string, t: string, k: nat)
    requires 0 < k < |t| && count(t[..k]) > count(t)
    ensures !WithinPrompt(8, 4, [Request("", RequestLines(system, [], t[..k]))], count,
                          Request("", RequestLines(system, [], t)), Profile(Automatic, 0, 1, "", "", false, "", 4))
  {
    var first, short, long := Line("system", system), Line("user", t[..k]), Line("user", t);
    var q, r := Request("", [first, short]), Request("", [first, long]);
    var p := Profile(Automatic, 0, 1, "", "", false, "", 4);
    var s := Replay(8, 4, [q]);
    assert RequestLines(system, [], t[..k]) == q.lines && RequestLines(system, [], t) == r.lines;
    AfterOneCall(first, short);
    OnlyTheTextIsShared(s, first, short, long);
    PrefixShares(t, k);
    TwoMessageTokens(count, first, long);
    CountsTheMatch(s, count, r, p, k);
  }

  /** Where the second of two messages is known but for its end, the estimate is the first and the match. */
  lemma CountsTheMatch(s: State, count: Counter, r: Request, p: Profile, k: nat)
    requires |r.lines| == 2 && Longest(s.seen, r, 2) == 1 && Partial(s, r, 1) == k && 0 < k <= |r.lines[1].text|
    requires p.mechanism == Automatic && p.minPrefixTokens <= 0 && p.granularity <= 1
    ensures Reusable(s, count, r, p) == TokensUpTo(count, r.lines, 1) + count(r.lines[1].text[..k])
  {
  }

  lemma SometimesOverestimates(count: Counter, t: string, k: nat)
    requires 0 < k < |t| && count(t[..k]) > count(t)
    ensures !NeverOverestimates(count)
  {
    OverestimateWitness(count, "", t, k);
  }

  /** After one call, one with a longer text is recognised up to that text, which it shares. */
  lemma OnlyTheTextIsShared(s: State, first: Line, short: Line, long: Line)
    requires s.seen == [KeyOf("", [first]), KeyOf("", [first, short])]
    requires FollowersOf(s.next, KeyOf("", [first])) == [short]
    requires short.role == long.role && |short.text| < |long.text|
    ensures var r := Request("", [first, long]);
            Longest(s.seen, r, 2) == 1 && Partial(s, r, 1) == Shared(long.text, short.text)
  {
    var r := Request("", [first, long]);
    assert r.lines[..1] == [first] && r.lines[..2] == [first] + [long] == r.lines;
    assert [first, short] == [first] + [short];
    FrameSnoc([first], short);
    FrameSnoc([first], long);
    assert |Frame([first])| < |Frame([first, short])| < |Frame([first, long])|;
    assert s.seen[0] == KeyOf("", r.lines[..1]);
    assert [short][..0] == [] && BestShared(long, []) == 0;
    assert BestShared(long, [short]) == Shared(long.text, short.text);
  }

  lemma TwoMessageTokens(count: Counter, a: Line, b: Line)
    ensures TokensUpTo(count, [a, b], 1) == count(a.text) && TokensUpTo(count, [a, b], 2) == count(a.text) + count(b.text)
  {
    assert TokensUpTo(count, [a, b], 0) == 0;
  }

  lemma PrefixShares(t: string, k: nat)
    requires k <= |t|
    ensures Shared(t, t[..k]) == k
  {
  }

  /** The estimate stays within the prompt in every history exactly for the counters that are
      monotone under taking prefixes. A byte-pair tokenizer need not be one. */
  lemma EstimateWithinPromptIffMonotone(count: Counter)
    requires count("") == 0
    ensures NeverOverestimates(count) <==> PrefixMonotone(count)
  {
    if PrefixMonotone(count) {
      forall limit: nat, followers: int, h: seq<Request>, r: Request, p: Profile
        ensures WithinPrompt(limit, followers, h, count, r, p)
      {
        WithinPromptIfMonotone(limit, followers, h, count, r, p);
      }
    } else {
      var t: string, k: nat :| k <= |t| && !(count(t[..k]) <= count(t));
      assert t[..|t|] == t && t[..0] == "";
      SometimesOverestimates(count, t, k);
    }
  }

  lemma FallbackIsMonotone(count: Counter)
    requires forall t :: count(t) == if t == "" then 0 else if |t| / 4 > 1 then |t| / 4 else 1
    ensures PrefixMonotone(count) && count("") == 0
  {
    forall t: string, k: nat | k <= |t|
      ensures count(t[..k]) <= count(t)
    {
      assert |t[..k]| / 4 <= |t| / 4;
    }
  }

  /** With the counter the source falls back to when it has no tokenizer, a quarter of the characters but at
      least one for a text that is not empty, the estimate never exceeds the prompt. */
  lemma FallbackNeverOverestimates(count: Counter)
    requires forall t :: count(t) == if t == "" then 0 else if |t| / 4 > 1 then |t| / 4 else 1
    ensures NeverOverestimates(count)
  {
    FallbackIsMonotone(count);
    EstimateWithinPromptIffMonotone(count);
  }
}
