/** Model clients and append-only conversations (tyche/llm.py). */
module Conversations {
  import opened PyList
  import opened Framing
  import opened Messages
  import opened Ledger
  import opened LedgerClass
  import opened LedgerProofs

  /** What the provider does with one request: answer, refuse the request as sent (HTTP 400/422 or
      an unknown keyword), or fail in any other way. */
  datatype Outcome = Answer(text: string) | Refused | Failed

  /** A request as it leaves the process: its messages, whether per-call hints accompany it, and
      whether the model object carries the per-role key. */
  datatype Wire = Wire(messages: seq<Message>, hinted: bool, keyed: bool)

  datatype Reply = Ok(text: string, check: PrefixCheck) | Raised

  /** Whether `request_hints` is nonempty. */
  predicate HasHints(p: Profile, retention: string) {
    p.keyField != "" || (retention != "" && p.retentionField != "") || p.keyHeader != "" || p.sessionAffinity
  }

  /** Nothing about the request adapts it to a prompt cache. */
  ghost predicate Unadapted(w: Wire) {
    !w.hinted && !w.keyed && w.messages == PlainMessages(w.messages)
  }

  class LLM {
    const route: string
    const profile: Profile
    const retention: string
    const ledger: PrefixLedger
    var hintsEnabled: bool
    var keyed: bool
    /** Every request sent to the provider. */
    ghost var wire: seq<Wire>

    ghost predicate Valid()
      reads this, ledger
    {
      ledger.Valid() && (!hintsEnabled ==> !keyed)
    }

    constructor (route: string, profile: Profile, retention: string, ledger: PrefixLedger)
      requires ledger.Valid()
      ensures Valid() && wire == []
      ensures this.route == route && this.profile == profile && this.retention == retention && this.ledger == ledger
      ensures hintsEnabled == (profile.mechanism != Disabled)
    {
      this.route, this.profile, this.retention, this.ledger := route, profile, retention, ledger;
      hintsEnabled := profile.mechanism != Disabled;
      keyed := profile.mechanism != Disabled && (profile.keyField != "" || profile.keyHeader != "");
      wire := [];
    }

    /** The profile in force: the configured one until a provider has refused the adaptation. */
    ghost function Effective(): Profile
      reads this
    {
      if hintsEnabled then profile else OFF
    }

    /** The request this client would send first. */
    ghost function Adapted(system: string, history: seq<Line>, user: string, continues: bool): Wire
      reads this
    {
      Wire(Build(Effective(), ledger.count, system, history, user, continues),
           HasHints(Effective(), retention), keyed)
    }

    /** Send one request, and the same without any adaptation if it was refused and had some.
        Adaptation is switched off for good exactly when that retry succeeds. */
    method Call(messages: seq<Message>, hinted: bool, first: Outcome, second: Outcome) returns (outcome: Outcome)
      requires !hintsEnabled ==> !keyed
      requires !hintsEnabled ==> Unadapted(Wire(messages, hinted, keyed))
      modifies this`wire, this`hintsEnabled, this`keyed
      ensures !hintsEnabled ==> !keyed
      ensures var sent := Wire(messages, hinted, old(keyed));
              var retried := first.Refused? && !Unadapted(sent);
              && wire == old(wire) + [sent] + (if retried then [Wire(PlainMessages(messages), false, false)] else [])
              && (hintsEnabled <==> old(hintsEnabled) && !(retried && second.Answer?))
              && (keyed <==> old(keyed) && hintsEnabled)
              && outcome == (if retried then second else first)
    {
      var plain := PlainMessages(messages);
      var adapted := hintsEnabled && (hinted || keyed || messages != plain);
      wire := wire + [Wire(messages, hinted, keyed)];
      outcome := first;
      if first.Refused? && adapted {
        wire := wire + [Wire(plain, false, false)];
        outcome := second;
        if second.Answer? {
          hintsEnabled, keyed := false, false;
        }
      }
    }

    /** `complete`: whatever the provider answers, the ledger records exactly the plain request
        once, and a refused adaptation is retried once without any of it. */
    method Complete(system: string, history: seq<Line>, user: string, continues: bool, first: Outcome, second: Outcome)
      returns (reply: Reply)
      requires Valid()
      modifies this, ledger
      ensures Valid()
      ensures ledger.sent == old(ledger.sent) + [Request(route, RequestLines(system, history, user))]
      ensures var sent := old(Adapted(system, history, user, continues));
              var plain := Wire(PlainMessages(sent.messages), false, false);
              var retried := first.Refused? && !Unadapted(sent);
              && wire == old(wire) + [sent] + (if retried then [plain] else [])
              && (hintsEnabled <==> old(hintsEnabled) && !(retried && second.Answer?))
              && (keyed <==> old(keyed) && hintsEnabled)
              && (sent.hinted <==>
                  old(hintsEnabled)
                  && (profile.keyField != "" || profile.keyHeader != "" || profile.sessionAffinity
                      || (retention != "" && profile.retentionField != "")))
              && reply == ReplyOf(if retried then second else first,
                                   Check(old(ledger.Value()), ledger.count,
                                         Request(route, RequestLines(system, history, user)), profile))
      ensures var last := if first.Refused? && !Unadapted(old(Adapted(system, history, user, continues))) then second
                          else first;
              if last.Answer? then reply.Ok? && reply.text == last.text else reply.Raised?
    {
      var profile := if hintsEnabled then this.profile else OFF;
      StrippedRequest(profile, ledger.count, system, history, user, continues);
      var messages := BuildMessages(profile, ledger.count, system, history, user, continues);
      var check := ledger.Observe(route, messages, this.profile);
      var outcome := Call(messages, HasHints(profile, retention), first, second);
      reply := ReplyOf(outcome, check);
    }
  }

  function ReplyOf(outcome: Outcome, check: PrefixCheck): Reply {
    if outcome.Answer? then Ok(outcome.text, check) else Raised
  }

  /** Whatever is put on the wire for a call says the same: the system message, the history and the
      user message. With adaptation off it carries no trace of it. */
  lemma WireSaysTheSame(p: Profile, retention: string, keyed: bool, count: Counter, system: string,
                        history: seq<Line>, user: string, continues: bool)
    ensures var sent := Wire(Build(p, count, system, history, user, continues), HasHints(p, retention), keyed);
            && Lines(sent.messages) == RequestLines(system, history, user)
            && Lines(PlainMessages(sent.messages)) == RequestLines(system, history, user)
            && (p == OFF && !keyed ==> Unadapted(sent))
  {
    StrippedRequest(p, count, system, history, user, continues);
  }

  // ---- conversations --------------------------------------------------------------------

  function AfterAsk(turns: seq<Line>, user: string, reply: string): seq<Line> {
    turns + [Line("user", user), Line("assistant", reply)]
  }

  function AfterSetLastReply(turns: seq<Line>, text: string): seq<Line> {
    if EndsInReply(turns)
    then turns[..|turns| - 1] + [Line("assistant", text)]
    else turns
  }

  /** The first messages of a conversation: the system message and some of its turns. */
  function Opening(system: string, turns: seq<Line>): seq<Line> { [Line("system", system)] + turns }

  predicate EndsInReply(turns: seq<Line>) { turns != [] && turns[|turns| - 1].role == "assistant" }

  /** Everything before each reply was sent on the route, and ends in a user turn. */
  ghost predicate Anchored(route: string, system: string, turns: seq<Line>, sent: seq<Request>) {
    forall i | 0 <= i < |turns| && turns[i].role == "assistant" :: AnchoredAt(route, system, turns, sent, i)
  }

  ghost predicate AnchoredAt(route: string, system: string, turns: seq<Line>, sent: seq<Request>, i: nat)
    requires i < |turns|
  {
    i >= 1 && turns[i - 1].role == "user" && Sent(sent, route, Opening(system, turns[..i]))
  }

  class Conversation {
    const system: string
    var turns: seq<Line>

    constructor (system: string)
      ensures this.system == system && turns == []
    {
      this.system := system;
      turns := [];
    }

    method Checkpoint() returns (mark: nat)
      ensures mark == |turns|
    {
      mark := |turns|;
    }

    /** `del self.turns[mark:]` */
    method Rollback(mark: int)
      modifies this
      ensures turns == UpTo(old(turns), mark)
      ensures forall route, sent | Anchored(route, system, old(turns), sent) :: Anchored(route, system, turns, sent)
    {
      turns := UpTo(turns, mark);
      forall route, sent | Anchored(route, system, old(turns), sent)
        ensures Anchored(route, system, turns, sent)
      {
        RollbackAnchored(route, system, old(turns), mark, sent);
      }
    }

    /** Send `user` after the history and append the exchange; a failed call appends nothing. While
        nothing was evicted from the ledger the turn is never reported as a cache break. */
    method Ask(llm: LLM, user: string, first: Outcome, second: Outcome) returns (reply: Reply)
      requires llm.Valid() && Anchored(llm.route, system, turns, llm.ledger.sent)
      modifies this, llm, llm.ledger
      ensures llm.Valid() && Anchored(llm.route, system, turns, llm.ledger.sent)
      ensures llm.ledger.sent == old(llm.ledger.sent) + [Request(llm.route, RequestLines(system, old(turns), user))]
      ensures turns == if reply.Ok? then AfterAsk(old(turns), user, reply.text) else old(turns)
      ensures reply.Ok? && NoEviction(llm.ledger.limit, old(llm.ledger.sent)) ==> !reply.check.cacheBreak
    {
      ghost var sent := llm.ledger.sent;
      reply := llm.Complete(system, turns, user, true, first, second);
      AskKeepsAnchors(llm.ledger.limit, llm.ledger.followers, sent, llm.route, system, turns, user,
                      if reply.Ok? then reply.text else "");
      if reply.Ok? {
        turns := turns + [Line("user", user), Line("assistant", reply.text)];
      }
    }

    /** Replace the latest reply. As long as no request on the route has gone on from the old one, the
        history shares no less with the requests sent than before. */
    method SetLastReply(text: string)
      modifies this
      ensures turns == AfterSetLastReply(old(turns), text)
      ensures forall route, sent | Anchored(route, system, old(turns), sent) :: Anchored(route, system, turns, sent)
      ensures forall route, sent | !Sent(sent, route, Opening(system, old(turns))) ::
                BestScan(sent, Request(route, Opening(system, turns)))
                >= BestScan(sent, Request(route, Opening(system, old(turns))))
    {
      if turns != [] && turns[|turns| - 1].role == "assistant" {
        turns := turns[|turns| - 1 := Line("assistant", text)];
      }
      assert turns == AfterSetLastReply(old(turns), text);
      forall route, sent | Anchored(route, system, old(turns), sent)
        ensures Anchored(route, system, turns, sent)
      {
        SetLastReplyAnchored(route, system, old(turns), text, sent);
      }
      forall route, sent | !Sent(sent, route, Opening(system, old(turns)))
        ensures BestScan(sent, Request(route, Opening(system, turns)))
                >= BestScan(sent, Request(route, Opening(system, old(turns))))
      {
        EditCostsIff(sent, route, system, old(turns), text);
      }
    }
  }

  lemma RollbackAnchored(route: string, system: string, turns: seq<Line>, mark: int, sent: seq<Request>)
    requires Anchored(route, system, turns, sent)
    ensures Anchored(route, system, UpTo(turns, mark), sent)
  {
    var kept := UpTo(turns, mark);
    forall i | 0 <= i < |kept| && kept[i].role == "assistant"
      ensures AnchoredAt(route, system, kept, sent, i)
    {
      assert AnchoredAt(route, system, turns, sent, i);
      assert turns[i] == kept[i] && turns[..i] == kept[..i];
    }
  }

  lemma SetLastReplyAnchored(route: string, system: string, turns: seq<Line>, text: string, sent: seq<Request>)
    requires Anchored(route, system, turns, sent)
    ensures Anchored(route, system, AfterSetLastReply(turns, text), sent)
  {
    var edited := AfterSetLastReply(turns, text);
    forall i | 0 <= i < |edited| && edited[i].role == "assistant"
      ensures AnchoredAt(route, system, edited, sent, i)
    {
      assert AnchoredAt(route, system, turns, sent, i);
      assert turns[..i] == edited[..i];
    }
  }

  lemma SentMore(sent: seq<Request>, q: Request, route: string, prefix: seq<Line>)
    requires Sent(sent, route, prefix)
    ensures Sent(sent + [q], route, prefix)
  {
    var i :| 0 <= i < |sent| && sent[i].route == route && prefix <= sent[i].lines;
    assert (sent + [q])[i] == sent[i];
  }

  /** A request keeps every conversation anchored. */
  lemma AnchoredMore(route: string, system: string, turns: seq<Line>, sent: seq<Request>, q: Request)
    requires Anchored(route, system, turns, sent)
    ensures Anchored(route, system, turns, sent + [q])
  {
    forall i | 0 <= i < |turns| && turns[i].role == "assistant"
      ensures AnchoredAt(route, system, turns, sent + [q], i)
    {
      assert AnchoredAt(route, system, turns, sent, i);
      SentMore(sent, q, route, Opening(system, turns[..i]));
    }
  }

  /** Every reply follows a user turn. */
  ghost predicate Alternates(turns: seq<Line>) {
    forall i | 0 <= i < |turns| && turns[i].role == "assistant" :: i >= 1 && turns[i - 1].role == "user"
  }

  /** Having asked a turn, a conversation is anchored, wherever its history comes from. */
  lemma AskAnchors(route: string, system: string, turns: seq<Line>, user: string, sent: seq<Request>)
    requires Alternates(turns)
    ensures Anchored(route, system, turns, sent + [Request(route, RequestLines(system, turns, user))])
  {
    var q := Request(route, RequestLines(system, turns, user));
    var more := sent + [q];
    forall i | 0 <= i < |turns| && turns[i].role == "assistant"
      ensures AnchoredAt(route, system, turns, more, i)
    {
      assert more[|sent|] == q && Opening(system, turns[..i]) <= q.lines;
    }
  }

  lemma AskAnchored(route: string, system: string, turns: seq<Line>, user: string, reply: string, sent: seq<Request>)
    requires Anchored(route, system, turns, sent) && Sent(sent, route, RequestLines(system, turns, user))
    ensures Anchored(route, system, AfterAsk(turns, user, reply), sent)
  {
    var longer := AfterAsk(turns, user, reply);
    forall i | 0 <= i < |longer| && longer[i].role == "assistant"
      ensures AnchoredAt(route, system, longer, sent, i)
    {
      if i < |turns| {
        assert AnchoredAt(route, system, turns, sent, i);
        assert longer[..i] == turns[..i];
      } else {
        assert i == |turns| + 1;
        assert Opening(system, longer[..i]) == RequestLines(system, turns, user);
      }
    }
  }

  /** The next turn of an anchored conversation is not a cache break, as long as nothing was evicted. */
  lemma AnchoredNotBroken(limit: nat, followers: int, sent: seq<Request>,
                          route: string, system: string, turns: seq<Line>, user: string)
    requires Anchored(route, system, turns, sent) && NoEviction(limit, sent)
    ensures !Break(Replay(limit, followers, sent).seen, Request(route, RequestLines(system, turns, user)))
  {
    var lines := RequestLines(system, turns, user);
    var stable := StableLength(lines);
    if stable > 0 {
      var last := |turns| - 1;
      assert turns[last] == lines[|lines| - 2];
      assert AnchoredAt(route, system, turns, sent, last);
      assert lines[..stable] == Opening(system, turns[..last]);
      SentIsTouched(sent, route, lines[..stable]);
      SeenIsTouched(limit, followers, sent);
      assert KeyOf(route, lines[..stable]) in Elements(Replay(limit, followers, sent).seen);
    }
  }

  lemma AskKeepsAnchors(limit: nat, followers: int, sent: seq<Request>,
                        route: string, system: string, turns: seq<Line>, user: string, reply: string)
    requires Anchored(route, system, turns, sent)
    ensures var r := Request(route, RequestLines(system, turns, user));
            && Anchored(route, system, turns, sent + [r])
            && Anchored(route, system, AfterAsk(turns, user, reply), sent + [r])
            && (NoEviction(limit, sent) ==> !Break(Replay(limit, followers, sent).seen, r))
  {
    var r := Request(route, RequestLines(system, turns, user));
    AnchoredMore(route, system, turns, sent, r);
    assert (sent + [r])[|sent|] == r;
    AskAnchored(route, system, turns, user, reply, sent + [r]);
    if NoEviction(limit, sent) {
      AnchoredNotBroken(limit, followers, sent, route, system, turns, user);
    }
  }

  // ---- editing the last reply -------------------------------------------------------------

  /** Editing the last reply costs cache hits, the history sharing less with the requests sent than
      before, exactly when some request went on from the old reply and none from the new one. */
  lemma EditCostsIff(sent: seq<Request>, route: string, system: string, turns: seq<Line>, text: string)
    ensures var edited := AfterSetLastReply(turns, text);
            BestScan(sent, Request(route, Opening(system, edited))) < BestScan(sent, Request(route, Opening(system, turns)))
            <==> EndsInReply(turns) && Sent(sent, route, Opening(system, turns))
                 && !Sent(sent, route, Opening(system, edited))
  {
    if EndsInReply(turns) {
      var edited := AfterSetLastReply(turns, text);
      var a, b := Request(route, Opening(system, turns)), Request(route, Opening(system, edited));
      var n := |a.lines|;
      assert a.lines[..n] == a.lines && b.lines[..n] == b.lines && a.lines[..n - 1] == b.lines[..n - 1];
      BestScanIsSent(sent, a, n);
      BestScanIsSent(sent, b, n);
      SharedBelow(sent, a, b, n - 1);
    }
  }

  /** Two requests that begin alike share the same with the history, up to where they part. */
  lemma SharedBelow(sent: seq<Request>, a: Request, b: Request, n: nat)
    requires a.route == b.route && n <= |a.lines| && n <= |b.lines| && a.lines[..n] == b.lines[..n]
    ensures BestScan(sent, a) <= n ==> BestScan(sent, b) >= BestScan(sent, a)
    ensures BestScan(sent, b) <= n ==> BestScan(sent, a) >= BestScan(sent, b)
  {
    BestScanIsSent(sent, a, 0);
    BestScanIsSent(sent, b, 0);
    var x, y := BestScan(sent, a), BestScan(sent, b);
    if 0 < x <= n {
      assert a.lines[..x] == a.lines[..n][..x] == b.lines[..n][..x] == b.lines[..x];
      BestScanIsSent(sent, a, x);
      BestScanIsSent(sent, b, x);
    }
    if 0 < y <= n {
      assert a.lines[..y] == a.lines[..n][..y] == b.lines[..n][..y] == b.lines[..y];
      BestScanIsSent(sent, a, y);
      BestScanIsSent(sent, b, y);
    }
  }
}
