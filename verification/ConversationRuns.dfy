/** Runs that interleave any number of conversations on shared routes (tyche/llm.py), export them and
    import them again in the same process or after a restart (tyche/paper/writer.py). */
module ConversationRuns {
  import opened Conversations
  import opened Framing
  import opened Ledger
  import opened LedgerEviction
  import opened LedgerProofs
  import opened Messages
  import opened Options
  import opened PyList

  /** A conversation, the requests its history was asked with, whether that history has been sent by
      this process on the conversation's route, and whether it was ever imported from another route. */
  datatype Conv = Conv(route: string, system: string, turns: seq<Line>, asked: seq<Request>,
                       home: bool, moved: bool)

  /** An exported conversation and the process that exported it. */
  datatype Snapshot = Snapshot(process: nat, conv: Conv)

  /** Everything ever sent to a provider, what the ledger of the current process has seen of it, the
      number of that process, its conversations, and the exported ones. */
  datatype World = World(sent: seq<Request>, heard: seq<Request>, process: nat, convs: map<nat, Conv>,
                         saved: seq<Snapshot>)

  datatype Event =
    | Start(id: nat, route: string, system: string)
    | AskTurn(id: nat, user: string, reply: Option<string>)
    | RollbackTo(id: nat, mark: int)
    | EditReply(id: nat, text: string)
    | OneShot(route: string, system: string, user: string)
    | Export(id: nat)
    | Import(id: nat, which: nat)
    | Restart

  const EMPTY_WORLD := World([], [], 0, map[], [])

  /** The request an event sends, if any. */
  function Sends(w: World, e: Event): seq<Request> {
    match e
    case AskTurn(id, user, _) =>
      if id in w.convs
      then [Request(w.convs[id].route, RequestLines(w.convs[id].system, w.convs[id].turns, user))]
      else []
    case OneShot(route, system, user) => [Request(route, RequestLines(system, [], user))]
    case _ => []
  }

  function Asked(c: Conv, user: string, reply: Option<string>): Conv {
    c.(turns := if reply.Some? then AfterAsk(c.turns, user, reply.value) else c.turns,
       asked := c.asked + [Request(c.route, RequestLines(c.system, c.turns, user))],
       home := true)
  }

  /** `import_state`: the saved turns, if the system message is still the same. */
  function Imported(w: World, c: Conv, s: Snapshot): Conv {
    if s.conv.system != c.system then c
    else
      var sameRoute := s.conv.route == c.route;
      Conv(c.route, c.system, s.conv.turns, s.conv.asked,
           s.process == w.process && s.conv.home && sameRoute, s.conv.moved || !sameRoute)
  }

  function Step(w: World, e: Event): World {
    var v := w.(sent := w.sent + Sends(w, e), heard := w.heard + Sends(w, e));
    match e
    case Start(id, route, system) => v.(convs := w.convs[id := Conv(route, system, [], [], true, false)])
    case AskTurn(id, user, reply) =>
      if id in w.convs then v.(convs := w.convs[id := Asked(w.convs[id], user, reply)]) else v
    case RollbackTo(id, mark) =>
      if id in w.convs
      then v.(convs := w.convs[id := w.convs[id].(turns := UpTo(w.convs[id].turns, mark))]) else v
    case EditReply(id, text) =>
      if id in w.convs
      then v.(convs := w.convs[id := w.convs[id].(turns := AfterSetLastReply(w.convs[id].turns, text))]) else v
    case OneShot(_, _, _) => v
    case Export(id) => if id in w.convs then v.(saved := w.saved + [Snapshot(w.process, w.convs[id])]) else v
    case Import(id, which) =>
      if id in w.convs && which < |w.saved|
      then v.(convs := w.convs[id := Imported(w, w.convs[id], w.saved[which])]) else v
    case Restart => World(w.sent, [], w.process + 1, map[], w.saved)
  }

  function Run(events: seq<Event>): World {
    if events == [] then EMPTY_WORLD else Step(Run(events[..|events| - 1]), events[|events| - 1])
  }

  /** Some request sent by the event is reported as a cache break. */
  predicate Flagged(limit: nat, followers: int, w: World, e: Event) {
    Sends(w, e) != [] && Break(Replay(limit, followers, w.heard).seen, Sends(w, e)[0])
  }

  /** What the events of a conversation do to its turns: it starts empty, a turn that is answered is appended
      with its answer and one that fails leaves no trace, a rollback cuts behind the mark as `del turns[mark:]`
      does, and an edit replaces the text of a last reply. A turn sends system message, history and the new
      user message; a one-shot call has no history. */
  lemma EventsDo(w: World, id: nat, user: string, reply: Option<string>, mark: int, text: string,
                 other: nat, route: string, system: string)
    requires id in w.convs
    ensures var c := w.convs[id];
            var asked := Step(w, AskTurn(id, user, reply));
            && asked.convs[id].turns == c.turns + (if reply.Some? then [Line("user", user), Line("assistant", reply.value)]
                                                   else [])
            && asked.sent == w.sent + [Request(c.route, [Line("system", c.system)] + c.turns + [Line("user", user)])]
            && (0 <= mark <= |c.turns| ==> Step(w, RollbackTo(id, mark)).convs[id].turns == c.turns[..mark])
            && (mark < 0 <= |c.turns| + mark ==>
                  Step(w, RollbackTo(id, mark)).convs[id].turns == c.turns[..|c.turns| + mark])
            && (c.turns == [] || c.turns[|c.turns| - 1].role != "assistant" ==>
                  Step(w, EditReply(id, text)).convs[id].turns == c.turns)
            && (c.turns != [] && c.turns[|c.turns| - 1].role == "assistant" ==>
                  Step(w, EditReply(id, text)).convs[id].turns
                  == c.turns[..|c.turns| - 1] + [Line("assistant", text)])
    ensures Step(w, Start(other, route, system)).convs == w.convs[other := Conv(route, system, [], [], true, false)]
    ensures var called := Step(w, OneShot(route, system, user));
            && called.sent == w.sent + [Request(route, [Line("system", system), Line("user", user)])]
            && called.convs == w.convs
    ensures Step(w, Restart).convs == map[] && Step(w, Restart).heard == [] && Step(w, Restart).sent == w.sent
    ensures Step(w, Export(id)).saved == w.saved + [Snapshot(w.process, w.convs[id])]
  {
    assert RequestLines(system, [], user) == [Line("system", system), Line("user", user)];
  }

  /** An import takes over the turns of the exported conversation exactly if that has the same system message;
      nothing is sent and no other conversation changes. */
  lemma ImportTakesOver(w: World, id: nat, which: nat)
    requires id in w.convs && which < |w.saved|
    ensures var v, from := Step(w, Import(id, which)), w.saved[which].conv;
            && v.sent == w.sent && v.heard == w.heard && v.convs.Keys == w.convs.Keys
            && v.convs[id].system == w.convs[id].system && v.convs[id].route == w.convs[id].route
            && v.convs[id].turns == (if from.system == w.convs[id].system then from.turns else w.convs[id].turns)
            && forall other | other in w.convs && other != id :: v.convs[other] == w.convs[other]
  {
  }

  // ---- what every run keeps -----------------------------------------------------------------

  /** Every reply follows a user turn, and that turn was asked after exactly the history before it. */
  ghost predicate AskedInOrder(c: Conv) {
    forall i | 0 <= i < |c.turns| && c.turns[i].role == "assistant" :: AskedFor(c.system, c.turns, c.asked, i)
  }

  ghost predicate AskedFor(system: string, turns: seq<Line>, asked: seq<Request>, i: nat)
    requires i < |turns|
  {
    i >= 1 && turns[i - 1].role == "user"
    && exists q | q in asked :: q.lines == RequestLines(system, turns[..i - 1], turns[i - 1].text)
  }

  /** Everything a conversation was asked with was really sent; on its own route, unless it moved. */
  ghost predicate AskedWasSent(c: Conv, sent: seq<Request>) {
    && (forall q | q in c.asked :: q in sent)
    && (!c.moved ==> forall q | q in c.asked :: q.route == c.route)
  }

  ghost predicate GoodConv(c: Conv, sent: seq<Request>) { AskedInOrder(c) && AskedWasSent(c, sent) }

  /** A conversation at home is anchored in what this process has sent. */
  ghost predicate AtHome(c: Conv, heard: seq<Request>) { Anchored(c.route, c.system, c.turns, heard) }

  ghost predicate GoodSnapshot(w: World, s: Snapshot) {
    && GoodConv(s.conv, w.sent) && s.process <= w.process
    && (s.process == w.process && s.conv.home ==> AtHome(s.conv, w.heard))
  }

  ghost predicate GoodWorld(w: World) {
    && (forall id | id in w.convs :: GoodConv(w.convs[id], w.sent) && (w.convs[id].home ==> AtHome(w.convs[id], w.heard)))
    && (forall s | s in w.saved :: GoodSnapshot(w, s))
  }

  lemma AskedInOrderAfterAsk(c: Conv, user: string, reply: Option<string>)
    requires AskedInOrder(c)
    ensures AskedInOrder(Asked(c, user, reply))
  {
    var d := Asked(c, user, reply);
    forall i | 0 <= i < |d.turns| && d.turns[i].role == "assistant"
      ensures AskedFor(d.system, d.turns, d.asked, i)
    {
      if i < |c.turns| {
        assert AskedFor(c.system, c.turns, c.asked, i);
        assert d.turns[..i - 1] == c.turns[..i - 1];
        var q :| q in c.asked && q.lines == RequestLines(c.system, c.turns[..i - 1], c.turns[i - 1].text);
        assert q in d.asked;
      } else {
        assert i == |c.turns| + 1 && d.turns[..i - 1] == c.turns;
        assert d.asked[|c.asked|] in d.asked;
      }
    }
  }

  /** Turns that agree with those of a conversation up to each reply were asked like them. */
  lemma AskedInOrderShared(c: Conv, turns: seq<Line>)
    requires AskedInOrder(c) && |turns| <= |c.turns|
    requires forall i | 0 <= i < |turns| :: turns[i].role == c.turns[i].role && turns[..i] == c.turns[..i]
    ensures AskedInOrder(c.(turns := turns))
  {
    forall i | 0 <= i < |turns| && turns[i].role == "assistant"
      ensures AskedFor(c.system, turns, c.asked, i)
    {
      assert AskedFor(c.system, c.turns, c.asked, i);
      assert turns[..i - 1] == turns[..i][..i - 1] == c.turns[..i][..i - 1] == c.turns[..i - 1];
      assert turns[i - 1] == turns[..i][i - 1] == c.turns[..i][i - 1] == c.turns[i - 1];
    }
  }

  lemma AskedInOrderAlternates(c: Conv)
    requires AskedInOrder(c)
    ensures Alternates(c.turns)
  {
    forall i | 0 <= i < |c.turns| && c.turns[i].role == "assistant"
      ensures i >= 1 && c.turns[i - 1].role == "user"
    {
      assert AskedFor(c.system, c.turns, c.asked, i);
    }
  }

  lemma AskIsGood(c: Conv, user: string, reply: Option<string>, sent: seq<Request>, heard: seq<Request>)
    requires GoodConv(c, sent)
    ensures var q := Request(c.route, RequestLines(c.system, c.turns, user));
            GoodConv(Asked(c, user, reply), sent + [q]) && AtHome(Asked(c, user, reply), heard + [q])
  {
    var q := Request(c.route, RequestLines(c.system, c.turns, user));
    AskedInOrderAfterAsk(c, user, reply);
    AskedInOrderAlternates(c);
    AskAnchors(c.route, c.system, c.turns, user, heard);
    assert (heard + [q])[|heard|] == q;
    if reply.Some? {
      AskAnchored(c.route, c.system, c.turns, user, reply.value, heard + [q]);
    }
  }

  lemma RollbackIsGood(c: Conv, mark: int, sent: seq<Request>, heard: seq<Request>)
    requires GoodConv(c, sent)
    ensures GoodConv(c.(turns := UpTo(c.turns, mark)), sent)
    ensures AtHome(c, heard) ==> AtHome(c.(turns := UpTo(c.turns, mark)), heard)
  {
    AskedInOrderShared(c, UpTo(c.turns, mark));
    if AtHome(c, heard) {
      RollbackAnchored(c.route, c.system, c.turns, mark, heard);
    }
  }

  lemma EditIsGood(c: Conv, text: string, sent: seq<Request>, heard: seq<Request>)
    requires GoodConv(c, sent)
    ensures GoodConv(c.(turns := AfterSetLastReply(c.turns, text)), sent)
    ensures AtHome(c, heard) ==> AtHome(c.(turns := AfterSetLastReply(c.turns, text)), heard)
  {
    AskedInOrderShared(c, AfterSetLastReply(c.turns, text));
    if AtHome(c, heard) {
      SetLastReplyAnchored(c.route, c.system, c.turns, text, heard);
    }
  }

  /** Sending something spoils nothing. */
  lemma SendingIsGood(w: World, more: seq<Request>)
    requires GoodWorld(w) && |more| <= 1
    ensures GoodWorld(w.(sent := w.sent + more, heard := w.heard + more))
  {
    if |more| == 1 {
      var v := w.(sent := w.sent + more, heard := w.heard + more);
      assert more == [more[0]];
      forall id | id in w.convs
        ensures GoodConv(v.convs[id], v.sent) && (v.convs[id].home ==> AtHome(v.convs[id], v.heard))
      {
        var c := w.convs[id];
        if c.home {
          AnchoredMore(c.route, c.system, c.turns, w.heard, more[0]);
        }
      }
      forall s | s in w.saved
        ensures GoodSnapshot(v, s)
      {
        assert GoodSnapshot(w, s);
        if s.process == w.process && s.conv.home {
          AnchoredMore(s.conv.route, s.conv.system, s.conv.turns, w.heard, more[0]);
        }
      }
    } else {
      assert w.sent + more == w.sent && w.heard + more == w.heard;
    }
  }

  /** A good conversation may be put in a good world. */
  lemma PutIsGood(w: World, id: nat, c: Conv)
    requires GoodWorld(w) && GoodConv(c, w.sent) && (c.home ==> AtHome(c, w.heard))
    ensures GoodWorld(w.(convs := w.convs[id := c]))
  {
    var v := w.(convs := w.convs[id := c]);
    forall s | s in v.saved
      ensures GoodSnapshot(v, s)
    {
      assert GoodSnapshot(w, s);
    }
  }

  lemma StepGood(w: World, e: Event)
    requires GoodWorld(w)
    ensures GoodWorld(Step(w, e))
  {
    var v := w.(sent := w.sent + Sends(w, e), heard := w.heard + Sends(w, e));
    SendingIsGood(w, Sends(w, e));
    match e
    case Start(id, route, system) => PutIsGood(v, id, Conv(route, system, [], [], true, false));
    case AskTurn(id, user, reply) =>
      if id in w.convs {
        AskIsGood(w.convs[id], user, reply, w.sent, w.heard);
        PutIsGood(v, id, Asked(w.convs[id], user, reply));
      }
    case RollbackTo(id, mark) =>
      if id in w.convs {
        RollbackIsGood(v.convs[id], mark, v.sent, v.heard);
        PutIsGood(v, id, v.convs[id].(turns := UpTo(v.convs[id].turns, mark)));
      }
    case EditReply(id, text) =>
      if id in w.convs {
        EditIsGood(v.convs[id], text, v.sent, v.heard);
        PutIsGood(v, id, v.convs[id].(turns := AfterSetLastReply(v.convs[id].turns, text)));
      }
    case OneShot(_, _, _) =>
    case Export(id) =>
      if id in w.convs {
        ExportIsGood(v, id);
      }
    case Import(id, which) =>
      if id in w.convs && which < |w.saved| {
        assert v.saved[which] in v.saved && GoodSnapshot(v, v.saved[which]);
        PutIsGood(v, id, Imported(w, w.convs[id], w.saved[which]));
      }
    case Restart => RestartIsGood(w);
  }

  lemma ExportIsGood(w: World, id: nat)
    requires GoodWorld(w) && id in w.convs
    ensures GoodWorld(w.(saved := w.saved + [Snapshot(w.process, w.convs[id])]))
  {
    var v := w.(saved := w.saved + [Snapshot(w.process, w.convs[id])]);
    forall s | s in v.saved
      ensures GoodSnapshot(v, s)
    {
      if s in w.saved {
        assert GoodSnapshot(w, s);
      }
    }
  }

  lemma RestartIsGood(w: World)
    requires GoodWorld(w)
    ensures GoodWorld(World(w.sent, [], w.process + 1, map[], w.saved))
  {
    var v := World(w.sent, [], w.process + 1, map[], w.saved);
    forall s | s in v.saved
      ensures GoodSnapshot(v, s)
    {
      assert GoodSnapshot(w, s);
    }
  }

  lemma {:induction false} RunGood(events: seq<Event>)
    ensures GoodWorld(Run(events))
  {
    if events == [] {
      assert Run(events) == EMPTY_WORLD;
    } else {
      RunGood(events[..|events| - 1]);
      StepGood(Run(events[..|events| - 1]), events[|events| - 1]);
    }
  }

  // ---- which turns are flagged ----------------------------------------------------------------

  lemma TurnShape(c: Conv, user: string)
    ensures var lines := RequestLines(c.system, c.turns, user);
            && (StableLength(lines) > 0 ==> |c.turns| >= 2 && EndsInReply(c.turns))
            && (|c.turns| >= 2 ==> lines[..2] == Opening(c.system, c.turns[..1])
                                   && lines[..|lines| - 2] == Opening(c.system, c.turns[..|c.turns| - 1]))
  {
    var lines := RequestLines(c.system, c.turns, user);
    if |c.turns| >= 1 {
      assert lines[|lines| - 2] == c.turns[|c.turns| - 1];
    }
  }

  /** In every run of conversations and one-shot calls on shared routes, with failed calls, rollbacks,
      edited replies, exports, imports and restarts: a flagged request is a turn whose opening this
      process has already sent on the route, so a conversation first seen after a restart is not
      flagged; and unless the ledger evicted something its history was imported and is new to this
      process on this route. */
  lemma NoFalseAlarm(limit: nat, followers: int, events: seq<Event>, n: nat)
    requires n < |events| && Flagged(limit, followers, Run(events[..n]), events[n])
    ensures var w, e := Run(events[..n]), events[n];
            && e.AskTurn? && e.id in w.convs
            && var c := w.convs[e.id];
               && |c.turns| >= 2 && EndsInReply(c.turns)
               && KeyOf(c.route, Opening(c.system, c.turns[..1])) in Touches(w.heard)
               && (ClearHistory(w.heard) && Clear(Opening(c.system, c.turns)) ==>
                     Sent(w.heard, c.route, Opening(c.system, c.turns[..1])))
               && (NoEviction(limit, w.heard) ==> !c.home)
  {
    var w, e := Run(events[..n]), events[n];
    RunGood(events[..n]);
    var q := Sends(w, e)[0];
    BreakIffEdited(limit, followers, w.heard, q);
    if e.AskTurn? {
      var c := w.convs[e.id];
      TurnShape(c, e.user);
      if ClearHistory(w.heard) && Clear(Opening(c.system, c.turns)) {
        OpeningTouchedIffSent(w.heard, c, 1);
      }
      if c.home && NoEviction(limit, w.heard) {
        AnchoredNotBroken(limit, followers, w.heard, c.route, c.system, c.turns, e.user);
      }
    }
  }

  /** Going by the keys touched, the conversation's opening was sent but its history up to the last
      reply never was. */
  ghost predicate LooksEdited(c: Conv, touches: seq<Key>) {
    && |c.turns| >= 2 && EndsInReply(c.turns)
    && KeyOf(c.route, Opening(c.system, c.turns[..1])) in touches
    && KeyOf(c.route, Opening(c.system, c.turns[..|c.turns| - 1])) !in touches
  }

  /** While nothing was evicted, a turn is flagged exactly when this process has touched its opening on
      the route but never its history up to the last reply. */
  lemma FlaggedIff(limit: nat, followers: int, w: World, id: nat, user: string, reply: Option<string>)
    requires id in w.convs && NoEviction(limit, w.heard)
    ensures Flagged(limit, followers, w, AskTurn(id, user, reply)) <==> LooksEdited(w.convs[id], Touches(w.heard))
  {
    FlaggedReads(limit, followers, w, id, user, reply);
    BrokenIff(limit, followers, w.heard, w.convs[id], user);
  }

  /** A request was sent that begins with the conversation's opening, but none that begins with its
      history up to the last reply. */
  ghost predicate WasEdited(c: Conv, heard: seq<Request>) {
    && |c.turns| >= 2 && EndsInReply(c.turns)
    && Sent(heard, c.route, Opening(c.system, c.turns[..1]))
    && !Sent(heard, c.route, Opening(c.system, c.turns[..|c.turns| - 1]))
  }

  /** For texts without hidden headers, exactly then. */
  lemma FlaggedIffEdited(limit: nat, followers: int, w: World, id: nat, user: string, reply: Option<string>)
    requires id in w.convs && NoEviction(limit, w.heard)
    requires ClearHistory(w.heard) && Clear(Opening(w.convs[id].system, w.convs[id].turns))
    ensures Flagged(limit, followers, w, AskTurn(id, user, reply)) <==> WasEdited(w.convs[id], w.heard)
  {
    FlaggedIff(limit, followers, w, id, user, reply);
    LooksEditedIffEdited(w.convs[id], w.heard);
  }

  lemma LooksEditedIffEdited(c: Conv, heard: seq<Request>)
    requires ClearHistory(heard) && Clear(Opening(c.system, c.turns))
    ensures LooksEdited(c, Touches(heard)) <==> WasEdited(c, heard)
  {
    if |c.turns| >= 2 {
      OpeningTouchedIffSent(heard, c, 1);
      OpeningTouchedIffSent(heard, c, |c.turns| - 1);
    }
  }

  lemma OpeningTouchedIffSent(heard: seq<Request>, c: Conv, n: nat)
    requires n <= |c.turns| && ClearHistory(heard) && Clear(Opening(c.system, c.turns))
    ensures KeyOf(c.route, Opening(c.system, c.turns[..n])) in Touches(heard)
            <==> Sent(heard, c.route, Opening(c.system, c.turns[..n]))
  {
    var all := Opening(c.system, c.turns);
    assert all[..n + 1] == Opening(c.system, c.turns[..n]);
    ClearPrefix(all, n + 1);
    TouchedIffSent(heard, c.route, all[..n + 1]);
  }

  lemma FlaggedReads(limit: nat, followers: int, w: World, id: nat, user: string, reply: Option<string>)
    requires id in w.convs
    ensures var c := w.convs[id];
            Flagged(limit, followers, w, AskTurn(id, user, reply)) <==>
            Break(Replay(limit, followers, w.heard).seen, Request(c.route, RequestLines(c.system, c.turns, user)))
  {
  }

  lemma BrokenIff(limit: nat, followers: int, heard: seq<Request>, c: Conv, user: string)
    requires NoEviction(limit, heard)
    ensures Break(Replay(limit, followers, heard).seen, Request(c.route, RequestLines(c.system, c.turns, user)))
            <==> LooksEdited(c, Touches(heard))
  {
    TurnBroken(Replay(limit, followers, heard).seen, c, user);
    LooksTheSame(limit, followers, heard, c);
  }

  lemma LooksTheSame(limit: nat, followers: int, heard: seq<Request>, c: Conv)
    requires NoEviction(limit, heard)
    ensures LooksEdited(c, Replay(limit, followers, heard).seen) <==> LooksEdited(c, Touches(heard))
  {
    SeenIsTouched(limit, followers, heard);
    SameElementsLookTheSame(c, Replay(limit, followers, heard).seen, Touches(heard));
  }

  lemma SameElementsLookTheSame(c: Conv, a: seq<Key>, b: seq<Key>)
    requires Elements(a) == Elements(b)
    ensures LooksEdited(c, a) <==> LooksEdited(c, b)
  {
    if |c.turns| >= 2 {
      var opening, rest := KeyOf(c.route, Opening(c.system, c.turns[..1])),
                           KeyOf(c.route, Opening(c.system, c.turns[..|c.turns| - 1]));
      assert (opening in a <==> opening in Elements(a)) && (opening in b <==> opening in Elements(b));
      assert (rest in a <==> rest in Elements(a)) && (rest in b <==> rest in Elements(b));
    }
  }

  lemma TurnBroken(seen: seq<Key>, c: Conv, user: string)
    ensures Break(seen, Request(c.route, RequestLines(c.system, c.turns, user))) <==> LooksEdited(c, seen)
  {
    var lines := RequestLines(c.system, c.turns, user);
    TurnShape(c, user);
    BreakReads(seen, Request(c.route, lines));
    if |c.turns| >= 2 {
      assert lines[|lines| - 2] == c.turns[|c.turns| - 1];
    }
  }

  // ---- conversations alone on their route -------------------------------------------------------

  /** The messages begin with the conversation's history up to each of its replies. */
  ghost predicate LedBy(system: string, turns: seq<Line>, lines: seq<Line>) {
    forall i | 0 <= i < |turns| && turns[i].role == "assistant" :: Opening(system, turns[..i]) <= lines
  }

  ghost predicate LedOn(c: Conv, heard: seq<Request>) {
    LastOn(heard, c.route).Some? ==> LedBy(c.system, c.turns, LastOn(heard, c.route).value.lines)
  }

  /** The last request on the conversation's route, if any, begins with its history up to each reply. */
  ghost predicate Leads(w: World, id: nat) { id in w.convs ==> LedOn(w.convs[id], w.heard) }

  /** So it is when it has just been started, and for any history, such as one just imported, while
      this process has sent nothing on the route. */
  lemma LeadsAtFirst(w: World, id: nat, route: string, system: string)
    ensures Leads(Step(w, Start(id, route, system)), id)
    ensures id in w.convs && (forall q | q in w.heard :: q.route != w.convs[id].route) ==> Leads(w, id)
  {
    if id in w.convs && forall q | q in w.heard :: q.route != w.convs[id].route {
      NothingOn(w.heard, w.convs[id].route);
    }
  }

  lemma {:induction false} NothingOn(heard: seq<Request>, route: string)
    requires forall q | q in heard :: q.route != route
    ensures LastOn(heard, route) == None
  {
    if heard != [] {
      assert heard[|heard| - 1] in heard;
      NothingOn(heard[..|heard| - 1], route);
    }
  }

  /** The event neither replaces the conversation nor sends anything on its route, unless it is a turn
      of that conversation. */
  ghost predicate LeavesAlone(w: World, e: Event, id: nat) {
    && !(e.Start? && e.id == id) && !(e.Import? && e.id == id)
    && (id in w.convs && Sends(w, e) != [] && Sends(w, e)[0].route == w.convs[id].route ==> e.AskTurn? && e.id == id)
  }

  lemma LedTruncated(system: string, before: seq<Line>, turns: seq<Line>, lines: seq<Line>)
    requires LedBy(system, before, lines) && |turns| <= |before|
    requires forall i | 0 <= i < |turns| :: turns[i].role == before[i].role && turns[..i] == before[..i]
    ensures LedBy(system, turns, lines)
  {
    forall i | 0 <= i < |turns| && turns[i].role == "assistant"
      ensures Opening(system, turns[..i]) <= lines
    {
      assert before[i].role == "assistant";
    }
  }

  lemma LedAfterAsk(c: Conv, user: string, reply: Option<string>, heard: seq<Request>)
    ensures LedOn(Asked(c, user, reply), heard + [Request(c.route, RequestLines(c.system, c.turns, user))])
  {
    var d, lines := Asked(c, user, reply), RequestLines(c.system, c.turns, user);
    forall i | 0 <= i < |d.turns| && d.turns[i].role == "assistant"
      ensures Opening(c.system, d.turns[..i]) <= lines
    {
      assert lines[..i + 1] == Opening(c.system, d.turns[..i]);
    }
  }

  lemma LedTurns(c: Conv, turns: seq<Line>, heard: seq<Request>)
    requires LedOn(c, heard) && |turns| <= |c.turns|
    requires forall i | 0 <= i < |turns| :: turns[i].role == c.turns[i].role && turns[..i] == c.turns[..i]
    ensures LedOn(c.(turns := turns), heard)
  {
    if LastOn(heard, c.route).Some? {
      LedTruncated(c.system, c.turns, turns, LastOn(heard, c.route).value.lines);
    }
  }

  lemma LedElsewhere(c: Conv, heard: seq<Request>, more: seq<Request>)
    requires LedOn(c, heard) && |more| <= 1 && (more != [] ==> more[0].route != c.route)
    ensures LedOn(c, heard + more)
  {
    if more != [] {
      assert (heard + more)[..|heard + more| - 1] == heard;
    } else {
      assert heard + more == heard;
    }
  }

  lemma LeadsStays(w: World, e: Event, id: nat)
    requires Leads(w, id) && LeavesAlone(w, e, id)
    ensures Leads(Step(w, e), id)
    ensures id in Step(w, e).convs ==> id in w.convs && Step(w, e).convs[id].route == w.convs[id].route
  {
    if id in w.convs && !e.Restart? {
      var c := w.convs[id];
      if e.AskTurn? && e.id == id {
        LedAfterAsk(c, e.user, e.reply, w.heard);
      } else {
        LedElsewhere(c, w.heard, Sends(w, e));
        if e.RollbackTo? && e.id == id {
          LedTurns(c, UpTo(c.turns, e.mark), w.heard + Sends(w, e));
        } else if e.EditReply? && e.id == id {
          LedTurns(c, AfterSetLastReply(c.turns, e.text), w.heard + Sends(w, e));
        }
      }
    }
  }

  lemma RunStep(events: seq<Event>, n: nat)
    requires n < |events|
    ensures Run(events[..n + 1]) == Step(Run(events[..n]), events[n])
  {
    assert events[..n + 1][..n] == events[..n];
  }

  ghost predicate LeadsAt(events: seq<Event>, k: nat, id: nat)
    requires k <= |events|
  {
    Leads(Run(events[..k]), id)
  }

  ghost predicate AloneAt(events: seq<Event>, k: nat, id: nat)
    requires k < |events|
  {
    LeavesAlone(Run(events[..k]), events[k], id)
  }

  lemma LeadsStep(events: seq<Event>, k: nat, id: nat)
    requires k < |events| && LeadsAt(events, k, id) && AloneAt(events, k, id)
    ensures LeadsAt(events, k + 1, id)
  {
    RunStep(events, k);
    LeadsStays(Run(events[..k]), events[k], id);
  }

  lemma {:induction false} Carried(p: nat -> bool, m: nat, n: nat)
    requires m <= n && p(m) && forall k: nat | m <= k < n && p(k) :: p(k + 1)
    ensures p(n)
    decreases n
  {
    if m < n {
      Carried(p, m, n - 1);
    }
  }

  lemma LeadsOn(events: seq<Event>, m: nat, n: nat, id: nat)
    requires m <= n <= |events| && LeadsAt(events, m, id)
    requires forall k | m <= k < n :: AloneAt(events, k, id)
    ensures LeadsAt(events, n, id)
  {
    var p := (k: nat) => k <= |events| && LeadsAt(events, k, id);
    forall k: nat | m <= k < n && p(k)
      ensures p(k + 1)
    {
      LeadsStep(events, k, id);
    }
    Carried(p, m, n);
  }

  /** However small the ledger, a conversation that is alone on its route since it was started, or
      imported with nothing sent there yet, is never flagged. */
  lemma LoneConversationNeverFlagged(limit: nat, followers: int, events: seq<Event>, m: nat, n: nat)
    requires m <= n < |events| && events[n].AskTurn? && LeadsAt(events, m, events[n].id)
    requires forall k | m <= k < n :: AloneAt(events, k, events[n].id)
    ensures !Flagged(limit, followers, Run(events[..n]), events[n])
  {
    LeadsOn(events, m, n, events[n].id);
    LedIsNotFlagged(limit, followers, Run(events[..n]), events[n]);
  }

  lemma LedIsNotFlagged(limit: nat, followers: int, w: World, e: Event)
    requires e.AskTurn? && Leads(w, e.id)
    ensures !Flagged(limit, followers, w, e)
  {
    if e.id in w.convs {
      var c := w.convs[e.id];
      var q := Request(c.route, RequestLines(c.system, c.turns, e.user));
      TurnShape(c, e.user);
      BreakIffEdited(limit, followers, w.heard, q);
      if StableLength(q.lines) > 0 && Recent(limit, w.heard, KeyOf(q.route, q.lines[..2])) {
        TouchedOnRoute(w.heard, KeyOf(q.route, q.lines[..2]));
        assert c.turns[|c.turns| - 1].role == "assistant";
        LedTurnIsNotFlagged(limit, followers, w.heard, q);
      }
    }
  }

  // ---- what a turn reads ------------------------------------------------------------------------

  /** In every run, a turn that follows a reply reads exactly what the conversation's own earlier turn
      wrote: the request `q` was sent for that turn, on the conversation's route unless it moved, and
      it is the beginning of the new request; the turn puts a breakpoint on the message the earlier one
      marked, and keeps it exactly when the earlier one did (given room for two). */
  lemma TurnReadsWhatTheLastOneWrote(events: seq<Event>, id: nat, user: string, p: Profile, count: Counter)
    returns (q: Request)
    requires id in Run(events).convs && EndsInReply(Run(events).convs[id].turns) && p.mechanism == Explicit
    ensures var c := Run(events).convs[id];
            var n := |c.turns| - 1;
            var now := RequestLines(c.system, c.turns, user);
            && q in c.asked && q in Run(events).sent && (!c.moved ==> q.route == c.route)
            && |q.lines| - 1 == n && n >= 1 && now[..n + 1] == q.lines
            && Wanted(now, true, n)
            && (Carries(Build(p, count, c.system, c.turns, user, true)[n]) <==>
                Carries(Build(p, count, c.system, c.turns[..n - 1], c.turns[n - 1].text, true)[n])
                && p.maxBreakpoints != 1)
  {
    RunGood(events);
    var c := Run(events).convs[id];
    var n := |c.turns| - 1;
    assert AskedFor(c.system, c.turns, c.asked, n);
    q :| q in c.asked && q.lines == RequestLines(c.system, c.turns[..n - 1], c.turns[n - 1].text);
    ExtendsTheTurn(p, count, c.system, c.turns, user);
  }

  lemma ExtendsTheTurn(p: Profile, count: Counter, system: string, turns: seq<Line>, user: string)
    requires p.mechanism == Explicit && |turns| >= 2
    requires turns[|turns| - 2].role == "user" && turns[|turns| - 1].role == "assistant"
    ensures var n := |turns| - 1;
            var before := RequestLines(system, turns[..n - 1], turns[n - 1].text);
            var now := RequestLines(system, turns, user);
            && |before| - 1 == n && now[..n + 1] == before
            && Wanted(now, true, n)
            && (Carries(Build(p, count, system, turns, user, true)[n]) <==>
                Carries(Build(p, count, system, turns[..n - 1], turns[n - 1].text, true)[n]) && p.maxBreakpoints != 1)
  {
    var n := |turns| - 1;
    var history, asked, reply := turns[..n - 1], turns[n - 1].text, turns[n].text;
    assert turns == history + [Line("user", asked), Line("assistant", reply)];
    BreakpointContinuity(p, count, system, history, asked, reply, user);
  }

  // ---- which replies may be edited ----------------------------------------------------------------

  /** At event `m` a conversation on this route with this system message asked on a history that begins
      with these turns. */
  ghost predicate GoesOn(events: seq<Event>, m: nat, route: string, system: string, turns: seq<Line>)
    requires m < |events|
  {
    var w, e := Run(events[..m]), events[m];
    && e.AskTurn? && e.id in w.convs
    && w.convs[e.id].route == route && w.convs[e.id].system == system && turns <= w.convs[e.id].turns
  }

  lemma SendsGoOn(w: World, e: Event, route: string, system: string, turns: seq<Line>)
    requires EndsInReply(turns)
    ensures (Sends(w, e) != [] && Sends(w, e)[0].route == route && Opening(system, turns) <= Sends(w, e)[0].lines) <==>
            && e.AskTurn? && e.id in w.convs
            && w.convs[e.id].route == route && w.convs[e.id].system == system && turns <= w.convs[e.id].turns
  {
    if Sends(w, e) != [] {
      var sys, history, user := if e.AskTurn? then w.convs[e.id].system else e.system,
                                if e.AskTurn? then w.convs[e.id].turns else [], e.user;
      OpeningOfRequest(system, turns, sys, history, user);
    }
  }

  lemma OpeningOfRequest(system: string, turns: seq<Line>, system': string, history: seq<Line>, user: string)
    requires EndsInReply(turns)
    ensures Opening(system, turns) <= RequestLines(system', history, user) <==> system == system' && turns <= history
  {
    var a, b := Opening(system, turns), RequestLines(system', history, user);
    if a <= b {
      assert a[0] == b[0];
      assert b[|turns|] == a[|turns|] == turns[|turns| - 1];
      assert |turns| <= |history|;
      assert forall i | 0 <= i < |turns| :: turns[i] == a[i + 1] == b[i + 1] == history[i];
    }
    if system == system' && turns <= history {
      assert forall i | 0 <= i < |a| :: a[i] == b[i];
    }
  }

  /** Event `m` sends `q`. */
  ghost predicate SentBy(events: seq<Event>, m: nat, q: Request)
    requires m < |events|
  {
    q in Sends(Run(events[..m]), events[m])
  }

  lemma StepSends(w: World, e: Event)
    ensures Step(w, e).sent == w.sent + Sends(w, e)
  {
  }

  /** Some event before `n` sends `q`. */
  ghost predicate SentBefore(events: seq<Event>, n: nat, q: Request)
    requires n <= |events|
  {
    exists m | 0 <= m < n :: SentBy(events, m, q)
  }

  lemma SentByStep(events: seq<Event>, n: nat, q: Request)
    requires 1 <= n <= |events|
    ensures q in Run(events[..n]).sent <==> q in Run(events[..n - 1]).sent || SentBy(events, n - 1, q)
  {
    RunStep(events, n - 1);
    StepSends(Run(events[..n - 1]), events[n - 1]);
  }

  lemma SentBeforeStep(events: seq<Event>, n: nat, q: Request)
    requires 1 <= n <= |events|
    ensures SentBefore(events, n, q) <==> SentBefore(events, n - 1, q) || SentBy(events, n - 1, q)
  {
  }

  lemma {:induction false} SentAtSomeEvent(events: seq<Event>, n: nat, q: Request)
    requires n <= |events|
    ensures q in Run(events[..n]).sent <==> SentBefore(events, n, q)
    decreases n
  {
    if n == 0 {
      assert Run(events[..0]) == EMPTY_WORLD;
    } else {
      SentAtSomeEvent(events, n - 1, q);
      SentByStep(events, n, q);
      SentBeforeStep(events, n, q);
    }
  }

  lemma SendsOne(w: World, e: Event, q: Request)
    ensures q in Sends(w, e) <==> Sends(w, e) != [] && Sends(w, e)[0] == q
  {
  }

  /** `GoesOn` is sending a request that begins with these turns. */
  lemma GoingOnIsSending(events: seq<Event>, m: nat, route: string, system: string, turns: seq<Line>)
    requires m < |events| && EndsInReply(turns)
    ensures GoesOn(events, m, route, system, turns) ==>
            exists q :: SentBy(events, m, q) && q.route == route && Opening(system, turns) <= q.lines
    ensures forall q | SentBy(events, m, q) && q.route == route && Opening(system, turns) <= q.lines ::
            GoesOn(events, m, route, system, turns)
  {
    var w, e := Run(events[..m]), events[m];
    SendsGoOn(w, e, route, system, turns);
    if GoesOn(events, m, route, system, turns) {
      assert SentBy(events, m, Sends(w, e)[0]);
    }
    forall q | SentBy(events, m, q) && q.route == route && Opening(system, turns) <= q.lines
      ensures GoesOn(events, m, route, system, turns)
    {
      SendsOne(w, e, q);
      assert Sends(w, e)[0].route == route && Opening(system, turns) <= Sends(w, e)[0].lines;
    }
  }

  lemma SentPrefix(sent: seq<Request>, route: string, lines: seq<Line>)
    requires lines != []
    ensures Sent(sent, route, lines) <==> exists q | q in sent :: q.route == route && lines <= q.lines
  {
    if q :| q in sent && q.route == route && lines <= q.lines {
      var i :| 0 <= i < |sent| && sent[i] == q;
    }
    if i :| 0 <= i < |sent| && sent[i].route == route && lines <= sent[i].lines {
      assert sent[i] in sent;
    }
  }

  /** Whether the last reply of a history has become part of a sent prefix, at any point of any run:
      exactly if some conversation on the route, with the same system message, has already asked on a
      history that begins with this one, that reply included. */
  lemma ReplyIsSentIff(events: seq<Event>, n: nat, route: string, system: string, turns: seq<Line>)
    requires n <= |events| && EndsInReply(turns)
    ensures Sent(Run(events[..n]).sent, route, Opening(system, turns)) <==>
            exists m | 0 <= m < n :: GoesOn(events, m, route, system, turns)
  {
    var sent := Run(events[..n]).sent;
    SentPrefix(sent, route, Opening(system, turns));
    if q :| q in sent && q.route == route && Opening(system, turns) <= q.lines {
      SentAtSomeEvent(events, n, q);
      var m :| 0 <= m < n && SentBy(events, m, q);
      GoingOnIsSending(events, m, route, system, turns);
    }
    if m :| 0 <= m < n && GoesOn(events, m, route, system, turns) {
      GoingOnIsSending(events, m, route, system, turns);
      var q :| SentBy(events, m, q) && q.route == route && Opening(system, turns) <= q.lines;
      SentAtSomeEvent(events, n, q);
    }
  }

  /** Directly after a turn was asked, its reply may be edited without touching a sent prefix unless an
      earlier request had already gone on from this very exchange. */
  lemma EditAfterAskIsSafe(events: seq<Event>, n: nat)
    requires n < |events| && events[n].AskTurn? && events[n].reply.Some? && events[n].id in Run(events[..n]).convs
    ensures var w := Run(events[..n + 1]);
            && events[n].id in w.convs
            && var c := w.convs[events[n].id];
               && EndsInReply(c.turns)
               && (Sent(w.sent, c.route, Opening(c.system, c.turns)) <==>
                   exists m | 0 <= m < n :: GoesOn(events, m, c.route, c.system, c.turns))
  {
    var id, before := events[n].id, Run(events[..n]).convs[events[n].id];
    var c := Asked(before, events[n].user, events[n].reply);
    AskStep(events, n);
    assert EndsInReply(c.turns) && |c.turns| == |before.turns| + 2;
    ReplyIsSentIff(events, n + 1, c.route, c.system, c.turns);
    LongerDoesNotGoOn(events, n, c.route, c.system, c.turns);
  }

  lemma AskStep(events: seq<Event>, n: nat)
    requires n < |events| && events[n].AskTurn? && events[n].id in Run(events[..n]).convs
    ensures var id, w := events[n].id, Run(events[..n + 1]);
            id in w.convs && w.convs[id] == Asked(Run(events[..n]).convs[id], events[n].user, events[n].reply)
  {
    RunStep(events, n);
  }

  lemma LongerDoesNotGoOn(events: seq<Event>, n: nat, route: string, system: string, turns: seq<Line>)
    requires n < |events| && events[n].AskTurn? && events[n].id in Run(events[..n]).convs
    requires |turns| > |Run(events[..n]).convs[events[n].id].turns|
    ensures !GoesOn(events, n, route, system, turns)
  {
  }

  // ---- runs in which a promise fails ----------------------------------------------------------------

  /** Two exchanges of one conversation. */
  function TwoExchanges(route: string, system: string, u: string, a: string, v: string, b: string): seq<Event> {
    [Start(0, route, system), AskTurn(0, u, Some(a)), AskTurn(0, v, Some(b))]
  }

  lemma AfterTwoExchanges(route: string, system: string, u: string, a: string, v: string, b: string, more: seq<Event>)
    ensures var events := TwoExchanges(route, system, u, a, v, b) + more;
            var w := Run(events[..3]);
            var turns := AfterAsk(AfterAsk([], u, a), v, b);
            && w.convs.Keys == {0} && w.saved == [] && w.process == 0
            && w.convs[0].route == route && w.convs[0].system == system && w.convs[0].turns == turns
            && w.sent == w.heard == [Request(route, RequestLines(system, [], u)),
                                     Request(route, RequestLines(system, AfterAsk([], u, a), v))]
            && Run(events[..2]).convs.Keys == {0}
            && Run(events[..2]).convs[0].route == route && Run(events[..2]).convs[0].system == system
            && Run(events[..2]).convs[0].turns == AfterAsk([], u, a)
  {
    var events := TwoExchanges(route, system, u, a, v, b) + more;
    assert events[0] == Start(0, route, system) && events[1] == AskTurn(0, u, Some(a));
    assert events[2] == AskTurn(0, v, Some(b)) && events[..0] == [];
    RunStep(events, 0);
    RunStep(events, 1);
    RunStep(events, 2);
  }

  lemma AfterTheRollback(route: string, system: string, u: string, a: string, v: string, b: string)
    ensures var w, turns := Run(TwoExchanges(route, system, u, a, v, b) + [RollbackTo(0, 2)]), AfterAsk([], u, a);
            && 0 in w.convs && w.convs[0].turns == turns
            && w.sent == [Request(route, RequestLines(system, [], u)), Request(route, RequestLines(system, turns, v))]
  {
    var events := TwoExchanges(route, system, u, a, v, b) + [RollbackTo(0, 2)];
    AfterTwoExchanges(route, system, u, a, v, b, [RollbackTo(0, 2)]);
    RunStep(events, 3);
    assert events[..4] == events;
    assert UpTo(AfterAsk(AfterAsk([], u, a), v, b), 2) == AfterAsk([], u, a);
  }

  /** Ask twice, roll the second exchange back, and edit the first reply: it was part of a sent prefix,
      and the edit costs cache hits. */
  lemma EditAfterRollback(route: string, system: string, u: string, a: string, v: string, b: string, text: string)
    requires text != a
    ensures var w := Run(TwoExchanges(route, system, u, a, v, b) + [RollbackTo(0, 2)]);
            && 0 in w.convs && w.convs[0].turns == AfterAsk([], u, a)
            && Sent(w.sent, route, Opening(system, w.convs[0].turns))
            && BestScan(w.sent, Request(route, Opening(system, AfterSetLastReply(w.convs[0].turns, text))))
               < BestScan(w.sent, Request(route, Opening(system, w.convs[0].turns)))
  {
    AfterTheRollback(route, system, u, a, v, b);
    var sent := Run(TwoExchanges(route, system, u, a, v, b) + [RollbackTo(0, 2)]).sent;
    OnlyTheOldReplySent(sent, route, system, u, a, v, text);
    EditCostsIff(sent, route, system, AfterAsk([], u, a), text);
  }

  lemma OnlyTheOldReplySent(sent: seq<Request>, route: string, system: string, u: string, a: string, v: string,
                            text: string)
    requires var turns := AfterAsk([], u, a);
             sent == [Request(route, RequestLines(system, [], u)), Request(route, RequestLines(system, turns, v))]
    requires text != a
    ensures var turns := AfterAsk([], u, a);
            EndsInReply(turns) && Sent(sent, route, Opening(system, turns))
            && !Sent(sent, route, Opening(system, AfterSetLastReply(turns, text)))
  {
    var turns := AfterAsk([], u, a);
    var edited := AfterSetLastReply(turns, text);
    OpeningOfRequest(system, turns, system, turns, v);
    assert sent[1].route == route && Opening(system, turns) <= sent[1].lines;
    OpeningOfRequest(system, edited, system, [], u);
    OpeningOfRequest(system, edited, system, turns, v);
    assert edited[1] != turns[1];
  }

  lemma RunSnoc(events: seq<Event>, e: Event)
    ensures Run(events + [e]) == Step(Run(events), e)
  {
    assert (events + [e])[..|events|] == events;
  }

  /** One-shot calls with system messages of different lengths. */
  function OneShots(route: string, base: nat, n: nat): seq<Event> {
    if n == 0 then [] else OneShots(route, base, n - 1) + [OneShot(route, Long(base + n), "")]
  }

  lemma {:induction false} AfterOneShots(events: seq<Event>, route: string, base: nat, n: nat)
    ensures var v, w := Run(events), Run(events + OneShots(route, base, n));
            w.convs == v.convs && w.heard == v.heard + Fillers(route, base, n)
  {
    if n == 0 {
      assert events + [] == events;
    } else {
      AfterOneShots(events, route, base, n - 1);
      OneShotMore(events, route, base, n);
      OneShotStep(Run(events + OneShots(route, base, n - 1)), route, base + n);
      AppendFiller(Run(events).heard, route, base, n);
    }
  }

  lemma OneShotMore(events: seq<Event>, route: string, base: nat, n: nat)
    requires n > 0
    ensures Run(events + OneShots(route, base, n))
            == Step(Run(events + OneShots(route, base, n - 1)), OneShot(route, Long(base + n), ""))
  {
    var before, e := events + OneShots(route, base, n - 1), OneShot(route, Long(base + n), "");
    assert events + OneShots(route, base, n) == before + [e];
    RunSnoc(before, e);
  }

  lemma OneShotStep(w: World, route: string, n: nat)
    ensures var v := Step(w, OneShot(route, Long(n), ""));
            v.convs == w.convs && v.heard == w.heard + [Filler(route, n)]
  {
  }

  /** The first turn of a new conversation, whose call fails. */
  lemma AfterFailedStart(events: seq<Event>, id: nat, route: string, system: string, user: string, other: nat)
    requires other in Run(events).convs && other != id
    ensures var v, w := Run(events), Run(events + [Start(id, route, system)] + [AskTurn(id, user, None)]);
            && other in w.convs && w.convs[other] == v.convs[other]
            && w.heard == v.heard + [Request(route, RequestLines(system, [], user))]
  {
    RunSnoc(events, Start(id, route, system));
    RunSnoc(events + [Start(id, route, system)], AskTurn(id, user, None));
  }

  /** Two exchanges, then enough one-shot calls to fill the ledger, then another conversation with the
      same opening. */
  ghost function CrowdedOut(limit: nat, route: string, system: string, u: string, a: string, v: string, b: string)
    : seq<Event>
  {
    var base := |KeyOf(route, Opening(system, AfterAsk([], u, a) + [Line("user", v)])).digest|;
    TwoExchanges(route, system, u, a, v, b) + OneShots(route, base, limit)
    + [Start(1, route, system)] + [AskTurn(1, u, None)]
  }

  /** However large the ledger, it flags the next turn of the first conversation then, although nothing
      was edited. */
  lemma FalseAlarmAfterEviction(limit: nat, followers: int, route: string, system: string,
                                u: string, a: string, v: string, b: string, next: string)
    requires limit >= 1
    ensures Flagged(limit, followers, Run(CrowdedOut(limit, route, system, u, a, v, b)), AskTurn(0, next, None))
  {
    var first, turns := TwoExchanges(route, system, u, a, v, b), AfterAsk(AfterAsk([], u, a), v, b);
    var base := |KeyOf(route, Opening(system, AfterAsk([], u, a) + [Line("user", v)])).digest|;
    AfterTwoExchanges(route, system, u, a, v, b, []);
    assert (first + [])[..3] == first;
    AfterOneShots(first, route, base, limit);
    AfterFailedStart(first + OneShots(route, base, limit), 1, route, system, u, 0);
    assert turns[..3] == AfterAsk([], u, a) + [Line("user", v)];
    CrowdedIsFlagged(limit, followers, route, system, turns, u, next, Run(first).heard, base);
    FlaggedReads(limit, followers, Run(CrowdedOut(limit, route, system, u, a, v, b)), 0, next, None);
  }

  lemma CrowdedIsFlagged(limit: nat, followers: int, route: string, system: string, turns: seq<Line>, u: string,
                         next: string, heard: seq<Request>, base: nat)
    requires limit >= 1 && |turns| >= 3 && EndsInReply(turns) && turns[0] == Line("user", u)
    requires base == |KeyOf(route, Opening(system, turns[..|turns| - 1])).digest|
    ensures Break(Replay(limit, followers, heard + Fillers(route, base, limit)
                                           + [Request(route, RequestLines(system, [], u))]).seen,
                  Request(route, RequestLines(system, turns, next)))
  {
    var lines := RequestLines(system, turns, next);
    assert lines[|lines| - 2] == turns[|turns| - 1];
    assert lines[..2] == RequestLines(system, [], u);
    assert lines[..|lines| - 2] == Opening(system, turns[..|turns| - 1]);
    FillersEvict(limit, followers, heard, base, Request(route, lines));
    assert heard + Fillers(route, base, limit) + [Request(route, lines[..2])]
           == heard + (Fillers(route, base, limit) + [Request(route, lines[..2])]);
  }

  /** The world after an export, a restart and an import. */
  lemma AfterTheImport(route: string, system: string, u: string, a: string, v: string, b: string, more: seq<Event>)
    ensures var events := TwoExchanges(route, system, u, a, v, b)
                          + [Export(0), Restart, Start(1, route, system), Import(1, 0)] + more;
            var w := Run(events[..7]);
            && 1 in w.convs && w.convs[1].route == route && w.convs[1].system == system
            && w.convs[1].turns == AfterAsk(AfterAsk([], u, a), v, b) && w.heard == []
  {
    var rest := [Export(0), Restart, Start(1, route, system), Import(1, 0)];
    var events := TwoExchanges(route, system, u, a, v, b) + rest + more;
    assert events == TwoExchanges(route, system, u, a, v, b) + (rest + more);
    AfterTwoExchanges(route, system, u, a, v, b, rest + more);
    var c := Run(events[..3]).convs[0];
    RunStep(events, 3);
    assert Run(events[..4]).saved == [Snapshot(0, c)];
    RunStep(events, 4);
    assert Run(events[..5]) == World(Run(events[..3]).sent, [], 1, map[], [Snapshot(0, c)]);
    RunStep(events, 5);
    assert Run(events[..6]).convs[1] == Conv(route, system, [], [], true, false);
    RunStep(events, 6);
  }

  /** A conversation is exported and imported after a restart; a one-shot call with the same opening is
      sent first. The imported turn is flagged although nothing was edited. */
  lemma FalseAlarmAfterImport(limit: nat, followers: int, route: string, system: string,
                              u: string, a: string, v: string, b: string, next: string)
    requires limit >= 1
    ensures var events := TwoExchanges(route, system, u, a, v, b)
                          + [Export(0), Restart, Start(1, route, system), Import(1, 0)] + [OneShot(route, system, u)];
            Flagged(limit, followers, Run(events), AskTurn(1, next, None))
  {
    var events := TwoExchanges(route, system, u, a, v, b)
                  + [Export(0), Restart, Start(1, route, system), Import(1, 0)] + [OneShot(route, system, u)];
    AfterTheImport(route, system, u, a, v, b, [OneShot(route, system, u)]);
    RunStep(events, 7);
    assert events[..8] == events;
    var first := Request(route, RequestLines(system, [], u));
    var turns := AfterAsk(AfterAsk([], u, a), v, b);
    assert Run(events).heard == [first];
    var lines := RequestLines(system, turns, next);
    assert first.lines == lines[..2];
    assert lines[|lines| - 2] == turns[3];
    OnlyTheOpeningSent(limit, followers, [first], first, lines);
  }

  lemma OnlyTheOpeningSent(limit: nat, followers: int, h: seq<Request>, first: Request, lines: seq<Line>)
    requires limit >= 1 && h == [first] && StableLength(lines) > 2 && first.lines == lines[..2]
    ensures Break(Replay(limit, followers, h).seen, Request(first.route, lines))
  {
    var r, stable := Request(first.route, lines), StableLength(lines);
    assert first.lines[..2] == lines[..2] && first.lines[..1] == lines[..1];
    assert Keys(first) == [KeyOf(r.route, lines[..1]), KeyOf(r.route, lines[..2])];
    assert h[..0] == [] && Touches(h) == Keys(first);
    KeysDiffer(r, 1, stable);
    KeysDiffer(r, 2, stable);
    LastKeyIsRecent(limit, h, KeyOf(r.route, lines[..2]));
    BreakIffEdited(limit, followers, h, r);
  }
}
