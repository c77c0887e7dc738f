/** `PrefixLedger` (tyche/cache.py) as the mutable object it is, proved to behave like the value
    level functions of module Ledger. */
module LedgerClass {
  import opened PyList
  import opened Framing
  import opened Messages
  import opened Ledger

  /** `_common_prefix`: binary search for the longest common prefix. */
  method CommonPrefix(a: string, b: string) returns (low: nat)
    ensures low == Shared(a, b)
  {
    low := 0;
    var high := if |a| <= |b| then |a| else |b|;
    while low < high
      invariant low <= high <= |a| && high <= |b|
      invariant a[..low] == b[..low]
      invariant Shared(a, b) <= high
    {
      var mid := (low + high + 1) / 2;
      SharedCompare(a, b, mid);
      if a[..mid] == b[..mid] {
        low := mid;
      } else {
        high := mid - 1;
      }
    }
    SharedCompare(a, b, low);
  }

  /** Two strings agree on their first `m` characters exactly when they share that many. */
  lemma SharedCompare(a: string, b: string, m: nat)
    requires m <= |a| && m <= |b|
    ensures a[..m] == b[..m] <==> m <= Shared(a, b)
  {
    var n := Shared(a, b);
    if m <= n {
      assert a[..m] == a[..n][..m] && b[..m] == b[..n][..m];
    } else {
      assert a[..m][n] == a[n] && b[..m][n] == b[n];
    }
  }

  class PrefixLedger {
    const limit: nat
    const followers: int
    const count: Counter
    var seen: seq<Key>
    var nextKeys: seq<Key>
    var next: map<Key, seq<Line>>
    /** Every request observed so far. */
    ghost var sent: seq<Request>

    ghost function Value(): State
      reads this
    {
      State(seen, nextKeys, next)
    }

    ghost predicate Valid()
      reads this
    {
      Value() == Replay(limit, followers, sent)
    }

    constructor (limit: nat, followers: int, count: Counter)
      ensures Valid() && sent == []
      ensures this.limit == limit && this.followers == followers && this.count == count
    {
      this.limit, this.followers, this.count := limit, followers, count;
      seen, nextKeys, next, sent := [], [], map[], [];
    }

    /** One request: report how much of it was sent before, then remember its prefixes. */
    method Observe(route: string, messages: seq<Message>, p: Profile) returns (check: PrefixCheck)
      requires Valid() && messages != []
      modifies this
      ensures Valid() && sent == old(sent) + [Request(route, Lines(messages))]
      ensures check == Check(old(Value()), count, Request(route, Lines(messages)), p)
    {
      ghost var r := Request(route, Lines(messages));
      var parents, digests, tokens, texts := Digest(route, messages);
      assert r.lines == texts;
      var reusable := Estimate(route, parents, digests, tokens, texts, p, r);
      var broken := Broken(route, digests, texts, r);
      check := PrefixCheck(tokens[|messages| - 1], reusable, broken);
      ReplayWellFormed(limit, followers, sent);
      Remember(route, parents, digests, texts, r);
      ghost var h := sent;
      sent := sent + [r];
      assert sent[..|sent| - 1] == h;
    }

    /** The tokens of the longest known prefix, and of what the next message shares with a known
        follower of it. */
    method RawEstimate(route: string, parents: seq<string>, digests: seq<string>, tokens: seq<nat>, texts: seq<Line>,
                    p: Profile, ghost r: Request)
      returns (reusable: nat)
      requires r == Request(route, texts)
      requires |parents| == |texts| + 1 && |digests| == |tokens| == |texts|
      requires forall i | 0 <= i <= |texts| :: Key(route, parents[i]) == KeyOf(route, texts[..i])
      requires forall i | 0 <= i < |texts| :: Key(route, digests[i]) == KeyOf(route, texts[..i + 1])
      requires forall i | 0 <= i < |texts| :: tokens[i] == TokensUpTo(count, texts, i + 1)
      ensures reusable == RawReusable(Value(), count, r, p)
    {
      var longest := LongestSeen(route, digests, r);
      reusable := if longest > 0 then tokens[longest - 1] else 0;
      assert reusable == TokensUpTo(count, texts, longest);
      if longest < |texts| && (p.mechanism == Automatic || p.mechanism == Unverified) {
        var line := texts[longest];
        var key := Key(route, parents[longest]);
        var shared := BestMatch(line, if key in next then next[key] else []);
        reusable := reusable + (if shared > 0 then count(line.text[..shared]) else 0);
      }
    }

    /** The reusable tokens, after the provider's minimum and granularity. */
    method Estimate(route: string, parents: seq<string>, digests: seq<string>, tokens: seq<nat>, texts: seq<Line>,
                    p: Profile, ghost r: Request)
      returns (reusable: nat)
      requires r == Request(route, texts)
      requires |parents| == |texts| + 1 && |digests| == |tokens| == |texts|
      requires forall i | 0 <= i <= |texts| :: Key(route, parents[i]) == KeyOf(route, texts[..i])
      requires forall i | 0 <= i < |texts| :: Key(route, digests[i]) == KeyOf(route, texts[..i + 1])
      requires forall i | 0 <= i < |texts| :: tokens[i] == TokensUpTo(count, texts, i + 1)
      ensures reusable == Reusable(Value(), count, r, p)
    {
      reusable := RawEstimate(route, parents, digests, tokens, texts, p, r);
      if reusable < p.minPrefixTokens {
        reusable := 0;
      }
      reusable := reusable - reusable % Granularity(p);
    }

    /** Whether this request edits an earlier turn of a conversation. */
    method Broken(route: string, digests: seq<string>, texts: seq<Line>, ghost r: Request) returns (broken: bool)
      requires r == Request(route, texts) && |digests| == |texts|
      requires forall i | 0 <= i < |texts| :: Key(route, digests[i]) == KeyOf(route, texts[..i + 1])
      ensures broken == Break(seen, r)
    {
      var stable := if |texts| >= 4 && texts[|texts| - 2].role == "assistant" then |texts| - 2 else 0;
      broken := stable > 0 && Key(route, digests[1]) in seen && Key(route, digests[stable - 1]) !in seen;
    }

    /** The digest chain, the running token counts and the texts. */
    method Digest(route: string, messages: seq<Message>)
      returns (parents: seq<string>, digests: seq<string>, tokens: seq<nat>, texts: seq<Line>)
      ensures texts == Lines(messages)
      ensures |parents| == |messages| + 1 && |digests| == |tokens| == |messages|
      ensures forall i | 0 <= i <= |messages| :: Key(route, parents[i]) == KeyOf(route, texts[..i])
      ensures forall i | 0 <= i < |messages| :: Key(route, digests[i]) == KeyOf(route, texts[..i + 1])
      ensures forall i | 0 <= i < |messages| :: tokens[i] == TokensUpTo(count, texts, i + 1)
    {
      var chain := route;
      parents, digests, tokens, texts := [chain], [], [], [];
      var running: nat := 0;
      ghost var lines := Lines(messages);
      for i := 0 to |messages|
        invariant |digests| == |tokens| == i && texts == lines[..i]
        invariant chain == route + Frame(lines[..i]) && running == TokensUpTo(count, lines, i)
        invariant Chained(route, lines, parents, digests)
        invariant Counted(count, lines, tokens)
      {
        var text := MessageText(messages[i].content);
        var line := Line(messages[i].role, text);
        texts := texts + [line];
        ChainGrows(route, lines, i);
        assert lines[..i + 1] == lines[..i] + [line];
        chain := chain + Piece(line);
        ChainedStep(route, lines, parents, digests, chain);
        digests := digests + [chain];
        parents := parents + [chain];
        running := running + count(text);
        CountedStep(count, lines, tokens, running);
        tokens := tokens + [running];
      }
      assert lines[..|messages|] == lines;
      ChainedKeys(route, lines, parents, digests);
    }

    method LongestSeen(route: string, digests: seq<string>, ghost r: Request) returns (longest: nat)
      requires r.route == route && |digests| == |r.lines|
      requires forall i | 0 <= i < |digests| :: Key(route, digests[i]) == KeyOf(route, r.lines[..i + 1])
      ensures longest == Longest(seen, r, |r.lines|)
    {
      longest := 0;
      for i := 0 to |digests|
        invariant longest == Longest(seen, r, i)
      {
        if Key(route, digests[i]) in seen {
          longest := i + 1;
        }
      }
    }

    method BestMatch(line: Line, others: seq<Line>) returns (shared: nat)
      ensures shared == BestShared(line, others) && shared <= |line.text|
    {
      shared := 0;
      for i := 0 to |others|
        invariant shared == BestShared(line, others[..i]) && shared <= |line.text|
      {
        assert others[..i + 1][..i] == others[..i];
        if others[i].role == line.role {
          var n := CommonPrefix(line.text, others[i].text);
          if n > shared {
            shared := n;
          }
        }
      }
      assert others[..|others|] == others;
    }

    /** The two ordered dictionaries take in the request and evict their oldest keys. */
    method Remember(route: string, parents: seq<string>, digests: seq<string>, texts: seq<Line>, ghost r: Request)
      requires r == Request(route, texts) && |parents| == |texts| + 1 && |digests| == |texts|
      requires forall i | 0 <= i <= |texts| :: Key(route, parents[i]) == KeyOf(route, texts[..i])
      requires forall i | 0 <= i < |texts| :: Key(route, digests[i]) == KeyOf(route, texts[..i + 1])
      requires NextWellFormed(Value())
      modifies this`seen, this`nextKeys, this`next
      ensures Value() == After(limit, followers, old(Value()), r)
    {
      ghost var before := Value();
      NextDomain(before, r, |r.lines|, followers);
      RememberAll(route, parents, digests, texts, r);
      Evict();
    }

    /** Every message of a request in turn, before anything is evicted. */
    method RememberAll(route: string, parents: seq<string>, digests: seq<string>, texts: seq<Line>, ghost r: Request)
      requires r == Request(route, texts) && |parents| == |texts| + 1 && |digests| == |texts|
      requires forall i | 0 <= i <= |texts| :: Key(route, parents[i]) == KeyOf(route, texts[..i])
      requires forall i | 0 <= i < |texts| :: Key(route, digests[i]) == KeyOf(route, texts[..i + 1])
      modifies this`seen, this`nextKeys, this`next
      ensures seen == TouchAll(old(seen), Keys(r))
      ensures Value() == NextAfter(old(Value()), r, |r.lines|, followers).(seen := seen)
    {
      ghost var before, keys := Value(), Keys(r);
      for i := 0 to |digests|
        invariant seen == TouchAll(before.seen, keys[..i])
        invariant Value() == NextAfter(before, r, i, followers).(seen := seen)
      {
        var digest, parent := Key(route, digests[i]), Key(route, parents[i]);
        KeysStep(r, i);
        TouchAllSnoc(before.seen, keys[..i], digest);
        NextAfterStep(before, r, i, followers);
        RememberOne(digest, parent, texts[i]);
      }
      assert keys[..|digests|] == keys;
    }

    /** One message of a request: its digest becomes the most recent, and it joins the followers
        of the prefix before it. */
    method RememberOne(digest: Key, parent: Key, line: Line)
      modifies this`seen, this`nextKeys, this`next
      ensures seen == Touch(old(seen), digest) && nextKeys == Touch(old(nextKeys), parent)
      ensures next == old(next)[parent := Follow(FollowersOf(old(next), parent), line, followers)]
    {
      seen := Touch(seen, digest);
      var list := if parent in next then next[parent] else [];
      if line !in list {
        list := list + [line];
        list := list[Cut(|list|, followers)..];
      }
      assert list == Follow(FollowersOf(next, parent), line, followers);
      next := next[parent := list];
      nextKeys := Touch(nextKeys, parent);
    }

    /** Both dictionaries drop their oldest keys until they fit. */
    method Evict()
      requires NextWellFormed(Value())
      modifies this`seen, this`nextKeys, this`next
      ensures seen == LastN(old(seen), limit) && nextKeys == LastN(old(nextKeys), limit)
      ensures next == Restrict(old(next), nextKeys)
    {
      while |seen| > limit
        invariant seen == LastN(old(seen), if |seen| > limit then |seen| else limit)
        invariant nextKeys == old(nextKeys) && next == old(next)
        decreases |seen|
      {
        seen := seen[1..];
      }
      EvictNext();
    }

    method EvictNext()
      requires NextWellFormed(Value())
      modifies this`nextKeys, this`next
      ensures nextKeys == LastN(old(nextKeys), limit) && next == Restrict(old(next), nextKeys)
    {
      RestrictAll(next, nextKeys);
      while |nextKeys| > limit
        invariant nextKeys == LastN(old(nextKeys), if |nextKeys| > limit then |nextKeys| else limit)
        invariant Distinct(nextKeys) && next == Restrict(old(next), nextKeys)
        decreases |nextKeys|
      {
        var oldest := nextKeys[0];
        RestrictRest(old(next), nextKeys);
        LastNRest(old(nextKeys), |nextKeys|);
        nextKeys := nextKeys[1..];
        next := Dropped(next, oldest);
      }
    }
  }

  function Dropped(next: map<Key, seq<Line>>, key: Key): map<Key, seq<Line>> {
    map k | k in next && k != key :: next[k]
  }

  lemma RestrictAll(next: map<Key, seq<Line>>, keys: seq<Key>)
    requires Elements(keys) == next.Keys
    ensures Restrict(next, keys) == next
  {
    assert forall k | k in next :: k in Elements(keys);
  }

  lemma RestrictRest(next: map<Key, seq<Line>>, keys: seq<Key>)
    requires keys != [] && Distinct(keys)
    ensures Distinct(keys[1..])
    ensures Dropped(Restrict(next, keys), keys[0]) == Restrict(next, keys[1..])
  {
    assert keys[0] !in keys[1..];
    assert keys == [keys[0]] + keys[1..];
  }

  lemma KeysStep(r: Request, n: nat)
    requires n < |r.lines|
    ensures Keys(r)[..n + 1] == Keys(r)[..n] + [KeyOf(r.route, r.lines[..n + 1])]
  {
  }

  lemma NextAfterStep(s: State, r: Request, n: nat, followers: int)
    requires n < |r.lines|
    ensures var t, parent := NextAfter(s, r, n, followers), KeyOf(r.route, r.lines[..n]);
            NextAfter(s, r, n + 1, followers) ==
            State(t.seen, Touch(t.nextKeys, parent),
                  t.next[parent := Follow(FollowersOf(t.next, parent), r.lines[n], followers)])
  {
  }

  /** The chain so far: every digest is that of the messages up to it, and the parent of the next. */
  ghost predicate Chained(route: string, lines: seq<Line>, parents: seq<string>, digests: seq<string>) {
    && |parents| == |digests| + 1 && |digests| <= |lines|
    && (forall j | 0 <= j <= |digests| :: parents[j] == route + Frame(lines[..j]))
    && (forall j | 0 <= j < |digests| :: digests[j] == route + Frame(lines[..j + 1]))
  }

  ghost predicate Counted(count: Counter, lines: seq<Line>, tokens: seq<nat>) {
    |tokens| <= |lines| && forall j | 0 <= j < |tokens| :: tokens[j] == TokensUpTo(count, lines, j + 1)
  }

  lemma CountedStep(count: Counter, lines: seq<Line>, tokens: seq<nat>, running: nat)
    requires Counted(count, lines, tokens) && |tokens| < |lines|
    requires running == TokensUpTo(count, lines, |tokens| + 1)
    ensures Counted(count, lines, tokens + [running])
  {
  }

  lemma ChainedKeys(route: string, lines: seq<Line>, parents: seq<string>, digests: seq<string>)
    requires Chained(route, lines, parents, digests)
    ensures forall i | 0 <= i <= |digests| :: Key(route, parents[i]) == KeyOf(route, lines[..i])
    ensures forall i | 0 <= i < |digests| :: Key(route, digests[i]) == KeyOf(route, lines[..i + 1])
  {
  }

  lemma ChainGrows(route: string, lines: seq<Line>, i: nat)
    requires i < |lines|
    ensures route + Frame(lines[..i]) + Piece(lines[i]) == route + Frame(lines[..i + 1])
  {
    FrameSnoc(lines[..i], lines[i]);
    assert lines[..i + 1] == lines[..i] + [lines[i]];
    Associative(route, Frame(lines[..i]), Piece(lines[i]));
  }

  lemma ChainedStep(route: string, lines: seq<Line>, parents: seq<string>, digests: seq<string>, chain: string)
    requires Chained(route, lines, parents, digests) && |digests| < |lines|
    requires chain == route + Frame(lines[..|digests| + 1])
    ensures Chained(route, lines, parents + [chain], digests + [chain])
  {
  }

  lemma LastNRest<T>(s: seq<T>, n: nat)
    requires 0 < n <= |s|
    ensures LastN(s, n)[1..] == LastN(s, n - 1)
  {
  }
}
