/** When a cron team round is over (jiuwenswarm/common/cron_team_completion.py), in terms of the events that
    arrived and their own fields. */
module CronEvents {
  import opened CronRound
  import opened Text

  /** What the events say. */
  ghost function Said(events: seq<Event>): (signals: seq<Signal>)
    ensures |signals| == |events| && forall k | 0 <= k < |events| :: signals[k] == Read(events[k])
  {
    seq(|events|, k requires 0 <= k < |events| => Read(events[k]))
  }

  /** The state after some events. */
  ghost function After(events: seq<Event>): State { Run(Said(events)) }

  lemma SaidBefore(events: seq<Event>, n: nat)
    requires n <= |events|
    ensures Said(events[..n]) == Said(events)[..n]
  {
  }

  /** A new round, and then each event in turn changes the state as its fields say. */
  lemma AfterMoves(events: seq<Event>, n: nat)
    requires n < |events|
    ensures After([]) == NEW
    ensures Moves(events[n], After(events[..n]), After(events[..n + 1]))
  {
    SaidBefore(events, n);
    SaidBefore(events, n + 1);
    assert Said(events)[..n + 1][..n] == Said(events)[..n];
    EventMoves(events[n], After(events[..n]));
  }

  /** A round that applies the events is in this state. */
  lemma AppliedIsAfter(events: seq<Event>, e: Event)
    ensures After(events + [e]) == React(After(events), Read(e))
  {
    assert Said(events + [e])[..|events|] == Said(events);
  }

  // ---- tasks, members and the latch -------------------------------------------------------

  /** Among the first `n` events there is one that sets, and none after it that clears. */
  ghost predicate Since(sets: nat -> bool, clears: nat -> bool, n: nat) {
    exists k: nat | k < n :: sets(k) && forall j | k < j < n :: !clears(j)
  }

  lemma SinceMore(sets: nat -> bool, clears: nat -> bool, n: nat)
    requires n > 0
    ensures Since(sets, clears, n) <==> sets(n - 1) || (Since(sets, clears, n - 1) && !clears(n - 1))
  {
    if Since(sets, clears, n - 1) && !clears(n - 1) {
      var k: nat :| k < n - 1 && sets(k) && forall j | k < j < n - 1 :: !clears(j);
      assert forall j | k < j < n :: !clears(j);
    }
  }

  ghost function Opens(events: seq<Event>, task: string): nat -> bool {
    (k: nat) => k < |events| && TaskOpens(events[k], task)
  }

  ghost function Closes(events: seq<Event>, task: string): nat -> bool {
    (k: nat) => k < |events| && (TaskCloses(events[k], task) || TeamFails(events[k]))
  }

  /** A task is open exactly if an event opened it, and neither an event that closes it nor an error came
      since. */
  lemma {:induction false} TaskIsOpenIff(events: seq<Event>, n: nat, task: string)
    requires n <= |events|
    ensures task in After(events[..n]).open <==> Since(Opens(events, task), Closes(events, task), n)
    decreases n
  {
    if n > 0 {
      TaskIsOpenIff(events, n - 1, task);
      AfterMoves(events, n - 1);
      TaskMoves(events[n - 1], After(events[..n - 1]), After(events[..n]), task);
      SinceMore(Opens(events, task), Closes(events, task), n);
    }
  }

  lemma TaskMoves(e: Event, st: State, now: State, task: string)
    requires Moves(e, st, now)
    ensures task in now.open <==> TaskOpens(e, task) || (task in st.open && !TaskCloses(e, task) && !TeamFails(e))
  {
  }

  ghost function Starts(events: seq<Event>, member: string): nat -> bool {
    (k: nat) => k < |events| && MemberStarts(events[k], member)
  }

  ghost function Stops(events: seq<Event>, member: string): nat -> bool {
    (k: nat) => k < |events| && (MemberStops(events[k], member) || TeamFails(events[k]))
  }

  /** A member is active exactly if an event started it, and neither one that stops it nor an error came
      since. */
  lemma {:induction false} MemberIsActiveIff(events: seq<Event>, n: nat, member: string)
    requires n <= |events|
    ensures member in After(events[..n]).active <==> Since(Starts(events, member), Stops(events, member), n)
    decreases n
  {
    if n > 0 {
      MemberIsActiveIff(events, n - 1, member);
      AfterMoves(events, n - 1);
      MemberMoves(events[n - 1], After(events[..n - 1]), After(events[..n]), member);
      SinceMore(Starts(events, member), Stops(events, member), n);
    }
  }

  lemma MemberMoves(e: Event, st: State, now: State, member: string)
    requires Moves(e, st, now)
    ensures member in now.active <==>
            MemberStarts(e, member) || (member in st.active && !MemberStops(e, member) && !TeamFails(e))
  {
  }

  ghost predicate OpensATask(e: Event) { exists task :: TaskOpens(e, task) }

  /** An error, or a final of the leader while nothing is going on. */
  ghost predicate Latching(e: Event, st: State) {
    TeamFails(e) || (LeaderSpeaks(e) && !st.workflowCompleted && st.open == {} && st.active == {})
  }

  ghost function Latches(events: seq<Event>): nat -> bool {
    (k: nat) => k < |events| && Latching(events[k], After(events[..k]))
  }

  ghost function Delegates(events: seq<Event>): nat -> bool { (k: nat) => k < |events| && OpensATask(events[k]) }

  /** The latch is set exactly if an event set it, and none opened a task since. */
  lemma {:induction false} LatchIsSetIff(events: seq<Event>, n: nat)
    requires n <= |events|
    ensures After(events[..n]).finalSeen <==> Since(Latches(events), Delegates(events), n)
    decreases n
  {
    if n > 0 {
      LatchIsSetIff(events, n - 1);
      AfterMoves(events, n - 1);
      LatchMoves(events[n - 1], After(events[..n - 1]), After(events[..n]));
      SinceMore(Latches(events), Delegates(events), n);
    }
  }

  lemma LatchMoves(e: Event, st: State, now: State)
    requires Moves(e, st, now)
    ensures now.finalSeen <==> Latching(e, st) || (st.finalSeen && !OpensATask(e))
  {
  }

  // ---- when the round ends ----------------------------------------------------------------

  /** The text of the leader's last final, or of the last error that had one, whichever came later. */
  ghost function LastWords(events: seq<Event>): string
    decreases |events|
  {
    if events == [] then ""
    else
      var n := |events| - 1;
      if LeaderSpeaks(events[n]) then Strip(events[n].content.s)
      else if TeamFails(events[n]) && ErrorWords(events[n]) != "" then ErrorWords(events[n])
      else LastWords(events[..n])
  }

  lemma {:induction false} LeaderTextIsLastWords(events: seq<Event>)
    ensures After(events).leaderText == LastWords(events) == LastSaid(Said(events))
    decreases |events|
  {
    if events != [] {
      var n := |events| - 1;
      assert events[..n + 1] == events;
      LeaderTextIsLastWords(events[..n]);
      AfterMoves(events, n);
      SaidBefore(events, n);
      ReadSays(events[n]);
    }
  }

  /** Neither blank nor one of the placeholders. */
  ghost predicate IsResult(text: string) {
    && Strip(text) != "" && !Contains(Strip(text), "最终报告即将生成")
    && !Contains(Strip(text), "Integration 阶段进行中") && !Contains(Strip(text), "整合阶段进行中")
  }

  /** The leader spoke after a workflow had completed. */
  ghost predicate ReportGiven(events: seq<Event>) {
    exists j, k :: 0 <= j < k < |events| && WorkflowEnds(events[j]) && LeaderSpeaks(events[k])
  }

  ghost predicate TeamIsDone(events: seq<Event>) {
    exists k | 0 <= k < |events| :: Strip(events[k].eventType) == "team.completed"
  }

  ghost predicate WorkflowBegun(events: seq<Event>) { exists k | 0 <= k < |events| :: WorkflowMoves(events[k]) }

  lemma ReportGivenIff(events: seq<Event>)
    ensures Reported(Said(events)) <==> ReportGiven(events)
  {
    var signals := Said(events);
    forall k | 0 <= k < |events|
      ensures (Finishes(signals[k]) <==> WorkflowEnds(events[k])) && (signals[k].Final? <==> LeaderSpeaks(events[k]))
    {
      ReadSays(events[k]);
    }
    if ReportGiven(events) {
      var j, k :| 0 <= j < k < |events| && WorkflowEnds(events[j]) && LeaderSpeaks(events[k]);
      assert Finishes(signals[j]) && signals[k].Final?;
    }
    if Reported(signals) {
      var j, k :| 0 <= j < k < |signals| && Finishes(signals[j]) && signals[k].Final?;
      assert WorkflowEnds(events[j]) && LeaderSpeaks(events[k]);
    }
  }

  lemma BegunIff(events: seq<Event>)
    ensures HasUpdate(Said(events)) <==> WorkflowBegun(events)
    ensures TeamDone in Said(events) <==> TeamIsDone(events)
  {
    var signals := Said(events);
    forall k | 0 <= k < |events|
      ensures (signals[k].Update? <==> WorkflowMoves(events[k]))
      ensures signals[k] == TeamDone <==> Strip(events[k].eventType) == "team.completed"
    {
      ReadSays(events[k]);
    }
    if TeamIsDone(events) {
      var k :| 0 <= k < |events| && Strip(events[k].eventType) == "team.completed";
      assert signals[k] == TeamDone;
    }
    if HasUpdate(signals) {
      var k :| 0 <= k < |signals| && signals[k].Update?;
      assert WorkflowMoves(events[k]);
    }
    if WorkflowBegun(events) {
      var k :| 0 <= k < |events| && WorkflowMoves(events[k]);
      assert signals[k].Update?;
    }
  }

  lemma LastWordsSettle(events: seq<Event>)
    ensures Settled(Said(events)) <==> IsResult(LastWords(events))
  {
    LeaderTextIsLastWords(events);
    AllSaidIsWellRead(events);
    LeaderTextIsLastSaid(Said(events));
    PlaceholderIff(LastWords(events));
    assert Strip("") == "";
  }

  lemma AllSaidIsWellRead(events: seq<Event>)
    ensures AllWellRead(Said(events))
  {
    forall s | s in Said(events)
      ensures WellRead(s)
    {
      var k :| 0 <= k < |events| && Said(events)[k] == s;
      ReadIsWellRead(events[k]);
    }
  }

  /** After any events, a round is over exactly in three cases: the leader gave a final after a workflow had
      completed; the team completed and the last word of leader or error is a result or, if there was none,
      the workflow left one; or no workflow ever began, no task is open and no member active, the latch is
      set, and the last word is a result. */
  lemma RoundIsOverIff(events: seq<Event>)
    ensures var st := After(events);
            Ends(st) <==>
            || ReportGiven(events)
            || (TeamIsDone(events)
                && if LastWords(events) == "" then Strip(st.workflowText) != "" else IsResult(LastWords(events)))
            || (!WorkflowBegun(events) && st.open == {} && st.active == {} && st.finalSeen
                && IsResult(LastWords(events)))
  {
    AllSaidIsWellRead(events);
    EndsIff(Said(events));
    ReportGivenIff(events);
    BegunIff(events);
    LeaderTextIsLastWords(events);
    LastWordsSettle(events);
  }
}
