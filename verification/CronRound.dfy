/** When a cron team round is over (jiuwenswarm/common/cron_team_completion.py). */
module CronRound {
  import opened Options
  import opened Text

  /** A field that may hold text: missing or falsy, a string, or some other value. */
  datatype Field = Falsy | Str(s: string) | Other

  datatype Workflow = Workflow(status: string, summary: Field, result: Field)

  /** The nested event of a task or member update; a missing field reads as the empty string. */
  datatype Nested = Nested(kind: string, taskId: string, memberId: string, newStatus: string)

  /** A stream event as it arrives. `workflow` and `nested` are absent when they are not objects. */
  datatype Event = Event(eventType: string, role: string, memberName: string, content: Field,
                         workflow: Option<Workflow>, nested: Option<Nested>, error: Field, message: Field)

  const MARKERS := ["最终报告即将生成", "Integration 阶段进行中", "整合阶段进行中"]

  predicate Placeholder(text: string) {
    Strip(text) == "" || exists m | m in MARKERS :: Contains(Strip(text), m)
  }

  datatype State = State(
    workflowStarted: bool, workflowCompleted: bool, finalAfterWorkflow: bool, finalSeen: bool,
    teamCompleted: bool, tasksEver: bool, open: set<string>, active: set<string>,
    leaderText: string, workflowText: string)

  const NEW := State(false, false, false, false, false, false, {}, {}, "", "")

  // ---- what an event says -----------------------------------------------------------------

  /** What an event amounts to. */
  datatype Signal =
    | Created(task: string)
    | Completed(task: string)
    | Busy(member: string)
    | Free(member: string)
    | Final(text: string)
    | Update(done: bool, text: string)
    | TeamDone
    | Error(text: string)
    | Nothing

  predicate Blank(f: Field) { !f.Str? || Strip(f.s) == "" }

  function Truthy(f: Field): bool { f.Other? || (f.Str? && f.s != "") }

  function ErrorText(e: Event): string {
    var f := if Truthy(e.error) then e.error else e.message;
    if Blank(f) then "" else Strip(f.s)
  }

  function SummaryText(w: Workflow): string {
    if !Blank(w.summary) then Strip(w.summary.s) else if !Blank(w.result) then Strip(w.result.s) else ""
  }

  predicate FromLeader(e: Event) { Lower(Strip(e.role)) != "teammate" && Strip(e.memberName) == "" }

  function ReadTask(n: Nested): Signal {
    if Strip(n.taskId) == "" then Nothing
    else if EndsWith(Strip(n.kind), ".created") then Created(Strip(n.taskId))
    else if EndsWith(Strip(n.kind), ".completed") then Completed(Strip(n.taskId))
    else Nothing
  }

  const BUSY := {"busy", "working", "starting"}
  const FREE := {"ready", "idle", "stopped"}

  function ReadMember(n: Nested): Signal {
    if Strip(n.kind) != "team.member.status_changed" || Strip(n.memberId) == "" then Nothing
    else if Lower(Strip(n.newStatus)) in BUSY then Busy(Strip(n.memberId))
    else if Lower(Strip(n.newStatus)) in FREE then Free(Strip(n.memberId))
    else Nothing
  }

  function ReadWorkflow(w: Workflow): Signal { Update(Lower(Strip(w.status)) == "completed", SummaryText(w)) }

  function ReadFinal(e: Event): Signal {
    if FromLeader(e) && e.content.Str? && !Placeholder(e.content.s) then Final(Strip(e.content.s)) else Nothing
  }

  function Read(e: Event): Signal {
    var kind := Strip(e.eventType);
    if kind == "workflow.updated" then if e.workflow.Some? then ReadWorkflow(e.workflow.value) else Nothing
    else if kind == "chat.final" then ReadFinal(e)
    else if kind == "team.task" then if e.nested.Some? then ReadTask(e.nested.value) else Nothing
    else if kind == "team.member" then if e.nested.Some? then ReadMember(e.nested.value) else Nothing
    else if kind == "team.completed" then TeamDone
    else if kind == "chat.error" || kind == "team.error" then Error(ErrorText(e))
    else Nothing
  }

  // ---- the same on the event's own fields -------------------------------------------------

  /** The leader, that is no teammate and nobody with a member name, gives a final that is neither blank nor
      one of the placeholders. */
  ghost predicate LeaderSpeaks(e: Event) {
    && Strip(e.eventType) == "chat.final" && Lower(Strip(e.role)) != "teammate" && Strip(e.memberName) == ""
    && e.content.Str? && Strip(e.content.s) != ""
    && !Contains(Strip(e.content.s), "最终报告即将生成")
    && !Contains(Strip(e.content.s), "Integration 阶段进行中")
    && !Contains(Strip(e.content.s), "整合阶段进行中")
  }

  ghost predicate TeamFails(e: Event) { Strip(e.eventType) == "chat.error" || Strip(e.eventType) == "team.error" }

  /** What an error says: its `error` field or, if that is missing or empty, its `message`; and nothing if
      that is no text. */
  ghost function ErrorWords(e: Event): string {
    if e.error.Falsy? || (e.error.Str? && e.error.s == "") then (if e.message.Str? then Strip(e.message.s) else "")
    else if e.error.Str? then Strip(e.error.s)
    else ""
  }

  ghost predicate TaskOpens(e: Event, task: string) {
    && Strip(e.eventType) == "team.task" && e.nested.Some? && task != "" && Strip(e.nested.value.taskId) == task
    && EndsWith(Strip(e.nested.value.kind), ".created")
  }

  ghost predicate TaskCloses(e: Event, task: string) {
    && Strip(e.eventType) == "team.task" && e.nested.Some? && task != "" && Strip(e.nested.value.taskId) == task
    && EndsWith(Strip(e.nested.value.kind), ".completed")
  }

  ghost predicate StatusIs(n: Nested, member: string, status: string) {
    && member != "" && Strip(n.kind) == "team.member.status_changed" && Strip(n.memberId) == member
    && Lower(Strip(n.newStatus)) == status
  }

  ghost predicate StatusChange(e: Event, member: string, status: string) {
    Strip(e.eventType) == "team.member" && e.nested.Some? && StatusIs(e.nested.value, member, status)
  }

  ghost predicate MemberStarts(e: Event, member: string) {
    StatusChange(e, member, "busy") || StatusChange(e, member, "working") || StatusChange(e, member, "starting")
  }

  ghost predicate MemberStops(e: Event, member: string) {
    StatusChange(e, member, "ready") || StatusChange(e, member, "idle") || StatusChange(e, member, "stopped")
  }

  ghost predicate WorkflowMoves(e: Event) { Strip(e.eventType) == "workflow.updated" && e.workflow.Some? }

  ghost predicate WorkflowEnds(e: Event) {
    WorkflowMoves(e) && Lower(Strip(e.workflow.value.status)) == "completed"
  }

  /** What a workflow update says: its summary or, if that is blank or no text, its result. */
  ghost function WorkflowWords(w: Workflow): string {
    if w.summary.Str? && Strip(w.summary.s) != "" then Strip(w.summary.s)
    else if w.result.Str? then Strip(w.result.s)
    else ""
  }

  /** How one event changes the state, field by field. */
  ghost predicate Moves(e: Event, st: State, now: State) {
    && WorkflowChanges(e, st, now) && Speaking(e, st, now) && Tasks(e, st, now)
    && (now.teamCompleted <==> st.teamCompleted || Strip(e.eventType) == "team.completed")
    && forall member :: member in now.active <==>
         MemberStarts(e, member) || (member in st.active && !MemberStops(e, member) && !TeamFails(e))
  }

  ghost predicate WorkflowChanges(e: Event, st: State, now: State) {
    && (now.workflowStarted <==> st.workflowStarted || WorkflowMoves(e))
    && (now.workflowCompleted <==> st.workflowCompleted || WorkflowEnds(e))
    && now.workflowText == if WorkflowMoves(e) && WorkflowWords(e.workflow.value) != ""
                           then WorkflowWords(e.workflow.value) else st.workflowText
  }

  /** The leader's text, and the two latches. */
  ghost predicate Speaking(e: Event, st: State, now: State) {
    && now.leaderText == (if LeaderSpeaks(e) then Strip(e.content.s)
                          else if TeamFails(e) && ErrorWords(e) != "" then ErrorWords(e)
                          else st.leaderText)
    && (now.finalAfterWorkflow <==> st.finalAfterWorkflow || (LeaderSpeaks(e) && st.workflowCompleted))
    && (now.finalSeen <==>
        || TeamFails(e)
        || (LeaderSpeaks(e) && !st.workflowCompleted && st.open == {} && st.active == {})
        || (st.finalSeen && forall task :: !TaskOpens(e, task)))
  }

  ghost predicate Tasks(e: Event, st: State, now: State) {
    && (now.tasksEver <==> st.tasksEver || exists task :: TaskOpens(e, task))
    && forall task :: task in now.open <==>
         TaskOpens(e, task) || (task in st.open && !TaskCloses(e, task) && !TeamFails(e))
  }

  lemma PlaceholderIff(text: string)
    ensures Placeholder(text) <==>
            || Strip(text) == ""
            || Contains(Strip(text), "最终报告即将生成")
            || Contains(Strip(text), "Integration 阶段进行中")
            || Contains(Strip(text), "整合阶段进行中")
  {
    assert MARKERS[0] == "最终报告即将生成" && MARKERS[1] == "Integration 阶段进行中" && MARKERS[2] == "整合阶段进行中";
    assert MARKERS[0] in MARKERS && MARKERS[1] in MARKERS && MARKERS[2] in MARKERS;
  }

  lemma OneEnding(kind: string)
    requires EndsWith(kind, ".created")
    ensures !EndsWith(kind, ".completed")
  {
    var n := |kind|;
    assert kind[n - 8..][0] == '.' && kind[n - 8] == '.';
    assert n >= 10 ==> kind[n - 10..][2] == kind[n - 8];
  }

  /** The signal of an event, in terms of its fields. */
  ghost predicate Says(e: Event, s: Signal) {
    && SaysText(e, s) && SaysWorkflow(e, s)
    && (forall task :: SaysTask(e, s, task)) && forall member :: SaysMember(e, s, member)
  }

  ghost predicate SaysText(e: Event, s: Signal) {
    && (s.Final? <==> LeaderSpeaks(e)) && (s.Final? ==> s.text == Strip(e.content.s))
    && (s.Error? <==> TeamFails(e)) && (s.Error? ==> s.text == ErrorWords(e))
  }

  ghost predicate SaysWorkflow(e: Event, s: Signal) {
    && (s.Update? <==> WorkflowMoves(e))
    && (s.Update? ==> (s.done <==> WorkflowEnds(e)) && s.text == WorkflowWords(e.workflow.value))
    && (s.TeamDone? <==> Strip(e.eventType) == "team.completed")
  }

  ghost predicate SaysTask(e: Event, s: Signal, task: string) {
    (s == Created(task) <==> TaskOpens(e, task)) && (s == Completed(task) <==> TaskCloses(e, task))
  }

  ghost predicate SaysMember(e: Event, s: Signal, member: string) {
    (s == Busy(member) <==> MemberStarts(e, member)) && (s == Free(member) <==> MemberStops(e, member))
  }

  lemma ReadText(e: Event)
    ensures SaysText(e, Read(e))
  {
    if e.content.Str? {
      PlaceholderIff(e.content.s);
    }
  }

  lemma ReadWorkflowSays(e: Event)
    ensures SaysWorkflow(e, Read(e))
  {
  }

  lemma ReadTaskSays(n: Nested, task: string)
    ensures ReadTask(n) == Created(task) <==>
            task != "" && Strip(n.taskId) == task && EndsWith(Strip(n.kind), ".created")
    ensures ReadTask(n) == Completed(task) <==>
            task != "" && Strip(n.taskId) == task && EndsWith(Strip(n.kind), ".completed")
  {
    if EndsWith(Strip(n.kind), ".created") {
      OneEnding(Strip(n.kind));
    }
  }

  lemma ReadNested(e: Event)
    ensures Strip(e.eventType) == "team.task" && e.nested.Some? ==> Read(e) == ReadTask(e.nested.value)
    ensures Strip(e.eventType) == "team.member" && e.nested.Some? ==> Read(e) == ReadMember(e.nested.value)
    ensures (Read(e).Created? || Read(e).Completed? ==> Strip(e.eventType) == "team.task" && e.nested.Some?)
    ensures (Read(e).Busy? || Read(e).Free? ==> Strip(e.eventType) == "team.member" && e.nested.Some?)
  {
  }

  lemma ReadTaskEvent(e: Event, task: string)
    ensures SaysTask(e, Read(e), task)
  {
    ReadNested(e);
    if e.nested.Some? {
      ReadTaskSays(e.nested.value, task);
    }
  }

  lemma ReadMemberSays(n: Nested, member: string)
    ensures ReadMember(n) == Busy(member) <==>
            StatusIs(n, member, "busy") || StatusIs(n, member, "working") || StatusIs(n, member, "starting")
    ensures ReadMember(n) == Free(member) <==>
            StatusIs(n, member, "ready") || StatusIs(n, member, "idle") || StatusIs(n, member, "stopped")
  {
  }

  lemma ReadMemberEvent(e: Event, member: string)
    ensures SaysMember(e, Read(e), member)
  {
    ReadNested(e);
    if e.nested.Some? {
      ReadMemberSays(e.nested.value, member);
    }
  }

  lemma ReadSays(e: Event)
    ensures Says(e, Read(e))
  {
    var s := Read(e);
    ReadText(e);
    ReadWorkflowSays(e);
    forall task
      ensures SaysTask(e, s, task)
    {
      ReadTaskEvent(e, task);
    }
    forall member
      ensures SaysMember(e, s, member)
    {
      ReadMemberEvent(e, member);
    }
  }

  // ---- what the round makes of it ---------------------------------------------------------

  function React(st: State, signal: Signal): State {
    match signal
    case Created(task) => st.(tasksEver := true, open := st.open + {task}, finalSeen := false)
    case Completed(task) => st.(open := st.open - {task})
    case Busy(member) => st.(active := st.active + {member})
    case Free(member) => st.(active := st.active - {member})
    case Final(text) =>
      st.(leaderText := text,
          finalAfterWorkflow := st.finalAfterWorkflow || st.workflowCompleted,
          finalSeen := st.finalSeen || (!st.workflowCompleted && st.open == {} && st.active == {}))
    case Update(done, text) =>
      st.(workflowStarted := true, workflowCompleted := st.workflowCompleted || done,
          workflowText := if text != "" then text else st.workflowText)
    case TeamDone => st.(teamCompleted := true)
    case Error(text) =>
      st.(leaderText := if text != "" then text else st.leaderText, finalSeen := true, open := {}, active := {})
    case Nothing => st
  }

  predicate HasResult(st: State) { Strip(st.leaderText) != "" || Strip(st.workflowText) != "" }

  predicate HarnessEnds(st: State) {
    && !st.workflowStarted && !st.workflowCompleted && st.open == {} && st.active == {}
    && st.finalSeen && Strip(st.leaderText) != "" && !Placeholder(Strip(st.leaderText))
  }

  /** Whether the round is over. */
  predicate Ends(st: State) {
    || (st.workflowCompleted && st.finalAfterWorkflow)
    || (st.teamCompleted && HasResult(st) && (Strip(st.leaderText) == "" || !Placeholder(Strip(st.leaderText))))
    || HarnessEnds(st)
  }

  lemma MovesWorkflow(e: Event, s: Signal, st: State)
    requires SaysWorkflow(e, s)
    ensures WorkflowChanges(e, st, React(st, s))
    ensures React(st, s).teamCompleted <==> st.teamCompleted || Strip(e.eventType) == "team.completed"
  {
    ReactStarted(st, s);
    ReactCompleted(st, s);
    ReactTeam(st, s);
  }

  lemma MovesSpeaking(e: Event, s: Signal, st: State)
    requires SaysText(e, s) && forall task :: SaysTask(e, s, task)
    ensures Speaking(e, st, React(st, s))
  {
    ReactText(st, s);
    ReactReported(st, s);
    ReactFinalSeen(st, s);
    OpensIff(e, s);
  }

  lemma OpensIff(e: Event, s: Signal)
    requires forall task :: SaysTask(e, s, task)
    ensures s.Created? <==> exists task :: TaskOpens(e, task)
  {
    if s.Created? {
      assert SaysTask(e, s, s.task);
    }
    if task :| TaskOpens(e, task) {
      assert SaysTask(e, s, task);
    }
  }

  lemma ReactEver(st: State, s: Signal)
    ensures React(st, s).tasksEver <==> st.tasksEver || s.Created?
  {
  }

  lemma MovesTasks(e: Event, s: Signal, st: State)
    requires SaysText(e, s) && forall task :: SaysTask(e, s, task)
    ensures Tasks(e, st, React(st, s))
  {
    ReactEver(st, s);
    OpensIff(e, s);
    forall task: string
      ensures task in React(st, s).open <==>
              TaskOpens(e, task) || (task in st.open && !TaskCloses(e, task) && !TeamFails(e))
    {
      assert SaysTask(e, s, task);
      ReactTasks(st, s, task);
    }
  }

  lemma MovesMembers(e: Event, s: Signal, st: State, member: string)
    requires SaysText(e, s) && SaysMember(e, s, member)
    ensures member in React(st, s).active <==>
            MemberStarts(e, member) || (member in st.active && !MemberStops(e, member) && !TeamFails(e))
  {
    ReactMembers(st, s, member);
  }

  lemma SaysMoves(e: Event, s: Signal, st: State)
    requires Says(e, s)
    ensures Moves(e, st, React(st, s))
  {
    MovesWorkflow(e, s, st);
    MovesSpeaking(e, s, st);
    MovesTasks(e, s, st);
    forall member: string
      ensures member in React(st, s).active <==>
              MemberStarts(e, member) || (member in st.active && !MemberStops(e, member) && !TeamFails(e))
    {
      MovesMembers(e, s, st, member);
    }
  }

  /** What the round makes of an event is what its fields say. */
  lemma EventMoves(e: Event, st: State)
    ensures Moves(e, st, React(st, Read(e)))
  {
    ReadSays(e);
    SaysMoves(e, Read(e), st);
  }

  /** The mutable state of one round. */
  class Round {
    var workflowStarted: bool
    var workflowCompleted: bool
    var finalAfterWorkflow: bool
    var finalSeen: bool
    var teamCompleted: bool
    var tasksEver: bool
    var open: set<string>
    var active: set<string>
    var leaderText: string
    var workflowText: string

    ghost function St(): State
      reads this
    {
      State(workflowStarted, workflowCompleted, finalAfterWorkflow, finalSeen, teamCompleted, tasksEver, open, active,
            leaderText, workflowText)
    }

    constructor ()
      ensures St() == NEW
    {
      workflowStarted, workflowCompleted, finalAfterWorkflow, finalSeen := false, false, false, false;
      teamCompleted, tasksEver, open, active, leaderText, workflowText := false, false, {}, {}, "", "";
    }

    method ApplyTask(nested: Nested)
      modifies this
      ensures St() == React(old(St()), ReadTask(nested))
    {
      var kind, id := Strip(nested.kind), Strip(nested.taskId);
      if id == "" {
        return;
      }
      if EndsWith(kind, ".created") {
        tasksEver := true;
        open := open + {id};
        finalSeen := false;
      } else if EndsWith(kind, ".completed") {
        open := open - {id};
      }
    }

    method ApplyMember(nested: Nested)
      modifies this
      ensures St() == React(old(St()), ReadMember(nested))
    {
      if Strip(nested.kind) != "team.member.status_changed" {
        return;
      }
      var id := Strip(nested.memberId);
      if id == "" {
        return;
      }
      var status := Lower(Strip(nested.newStatus));
      if status in BUSY {
        active := active + {id};
      } else if status in FREE {
        active := active - {id};
      }
    }

    method ApplyFinal(e: Event)
      modifies this
      ensures St() == React(old(St()), ReadFinal(e))
    {
      if !FromLeader(e) {
        return;
      }
      if e.content.Str? && Strip(e.content.s) != "" && !Placeholder(e.content.s) {
        leaderText := Strip(e.content.s);
        if workflowCompleted {
          finalAfterWorkflow := true;
        } else if open == {} && active == {} {
          finalSeen := true;
        }
      }
    }

    method ApplyWorkflow(w: Workflow)
      modifies this
      ensures St() == React(old(St()), ReadWorkflow(w))
    {
      workflowStarted := true;
      if Lower(Strip(w.status)) == "completed" {
        workflowCompleted := true;
      }
      var text := SummaryText(w);
      if text != "" {
        workflowText := text;
      }
    }

    method ApplyError(e: Event)
      modifies this
      ensures St() == React(old(St()), Error(ErrorText(e)))
    {
      var text := ErrorText(e);
      if text != "" {
        leaderText := text;
      }
      finalSeen := true;
      open := {};
      active := {};
    }

    /** `apply_cron_team_round_event`. */
    method Apply(e: Event)
      modifies this
      ensures St() == React(old(St()), Read(e))
      ensures Moves(e, old(St()), St())
    {
      ghost var before := St();
      var kind := Strip(e.eventType);
      if kind == "workflow.updated" {
        if e.workflow.Some? {
          ApplyWorkflow(e.workflow.value);
        }
      } else if kind == "chat.final" {
        ApplyFinal(e);
      } else if kind == "team.task" {
        if e.nested.Some? {
          ApplyTask(e.nested.value);
        }
      } else if kind == "team.member" {
        if e.nested.Some? {
          ApplyMember(e.nested.value);
        }
      } else if kind == "team.completed" {
        teamCompleted := true;
      } else if kind == "chat.error" || kind == "team.error" {
        ApplyError(e);
      }
      assert St() == React(before, Read(e));
      EventMoves(e, before);
    }

    /** `cron_team_round_should_end`; the flag makes no difference. */
    method ShouldEnd(chunkComplete: bool) returns (end: bool)
      ensures end == Ends(St())
    {
      if chunkComplete {
        if workflowCompleted && finalAfterWorkflow {
          return true;
        }
        if teamCompleted && (Strip(leaderText) != "" || Strip(workflowText) != "") {
          if Strip(leaderText) != "" && Placeholder(Strip(leaderText)) {
            return false;
          }
          return true;
        }
        return HarnessEndsNow();
      }
      if workflowCompleted && finalAfterWorkflow {
        return true;
      }
      if teamCompleted && (Strip(leaderText) != "" || Strip(workflowText) != "") {
        if Strip(leaderText) != "" && Placeholder(Strip(leaderText)) {
          return false;
        }
        return true;
      }
      end := HarnessEndsNow();
    }

    predicate HarnessEndsNow()
      reads this
    {
      && !workflowStarted && !workflowCompleted && open == {} && active == {}
      && finalSeen && Strip(leaderText) != "" && !Placeholder(Strip(leaderText))
    }

    method ApplyNext(event: Option<Event>) returns (stop: bool)
      modifies this
      ensures St() == React(old(St()), if event.Some? then Read(event.value) else Nothing)
      ensures stop <==> event.Some? && tasksEver
    {
      if event.Some? {
        Apply(event.value);
      }
      stop := event.Some? && tasksEver;
    }

    /** The grace period after a solo final: what arrives is applied, until a task has been created.
        Answers how much of the queue was used. */
    method Drain(queue: seq<Option<Event>>) returns (used: nat)
      modifies this
      ensures used <= |queue| && St() == RunFrom(old(St()), Signals(queue[..used]))
      ensures used > 0 ==> NoStopTo(old(St()), queue, used - 1)
      ensures used < |queue| ==> used > 0 && StopsAt(old(St()), queue, used)
    {
      used := 0;
      ghost var start := St();
      while used < |queue|
        invariant used <= |queue| && St() == RunFrom(start, Signals(queue[..used]))
        invariant NoStopTo(start, queue, used)
      {
        SignalsStep(start, queue, used);
        var stop := ApplyNext(queue[used]);
        used := used + 1;
        if stop {
          break;
        }
        NoStopStep(start, queue, used - 1, St());
      }
    }
  }

  /** The state after some signals. */
  ghost function RunFrom(st: State, signals: seq<Signal>): State
    decreases |signals|
  {
    if signals == [] then st
    else React(RunFrom(st, signals[..|signals| - 1]), signals[|signals| - 1])
  }

  /** What the events of a queue say; anything that is not an event says nothing. */
  ghost function Signals(queue: seq<Option<Event>>): (signals: seq<Signal>)
    ensures |signals| == |queue|
    ensures forall k | 0 <= k < |queue| :: signals[k] == if queue[k].Some? then Read(queue[k].value) else Nothing
  {
    seq(|queue|, k requires 0 <= k < |queue| => if queue[k].Some? then Read(queue[k].value) else Nothing)
  }

  /** The grace period ends at an event after which some task has been created. */
  ghost predicate StopsAt(st: State, queue: seq<Option<Event>>, k: nat)
    requires 0 < k <= |queue|
  {
    queue[k - 1].Some? && RunFrom(st, Signals(queue[..k])).tasksEver
  }

  ghost predicate NoStopTo(st: State, queue: seq<Option<Event>>, n: nat)
    requires n <= |queue|
  {
    forall k | 0 < k <= n :: !StopsAt(st, queue, k)
  }

  lemma NoStopStep(st: State, queue: seq<Option<Event>>, n: nat, now: State)
    requires n < |queue| && NoStopTo(st, queue, n)
    requires RunFrom(st, Signals(queue[..n + 1])) == now && !(queue[n].Some? && now.tasksEver)
    ensures NoStopTo(st, queue, n + 1)
  {
  }

  lemma SignalsStep(st: State, queue: seq<Option<Event>>, n: nat)
    requires n < |queue|
    ensures RunFrom(st, Signals(queue[..n + 1])) ==
            React(RunFrom(st, Signals(queue[..n])), if queue[n].Some? then Read(queue[n].value) else Nothing)
  {
    assert Signals(queue[..n + 1])[..n] == Signals(queue[..n]);
  }

  ghost function Run(signals: seq<Signal>): State { RunFrom(NEW, signals) }

  // ---- the state in terms of the signals --------------------------------------------------

  /** Texts are stripped, and a leader's final is never blank or a placeholder. */
  ghost predicate WellRead(signal: Signal) {
    && (signal.Final? || signal.Error? || signal.Update? ==> Trimmed(signal.text))
    && (signal.Final? ==> !Placeholder(signal.text))
  }

  ghost predicate AllWellRead(signals: seq<Signal>) { forall s | s in signals :: WellRead(s) }

  lemma FinalIsWellRead(e: Event)
    ensures WellRead(ReadFinal(e))
  {
    if e.content.Str? {
      assert Strip(Strip(e.content.s)) == Strip(e.content.s);
    }
  }

  lemma ErrorIsWellRead(e: Event)
    ensures WellRead(Error(ErrorText(e)))
  {
  }

  lemma WorkflowIsWellRead(w: Workflow)
    ensures WellRead(ReadWorkflow(w))
  {
  }

  lemma ReadIsWellRead(e: Event)
    ensures WellRead(Read(e))
  {
    var signal := Read(e);
    if signal.Final? {
      FinalIsWellRead(e);
    } else if signal.Error? {
      ErrorIsWellRead(e);
    } else if signal.Update? {
      WorkflowIsWellRead(e.workflow.value);
    }
  }

  ghost predicate Closes(signal: Signal, task: string) { signal == Completed(task) || signal.Error? }

  ghost predicate Frees(signal: Signal, member: string) { signal == Free(member) || signal.Error? }

  ghost predicate Finishes(signal: Signal) { signal.Update? && signal.done }

  ghost predicate Speaks(signal: Signal) { signal.Final? || (signal.Error? && signal.text != "") }

  /** Nothing keeps a leader's final from latching the end. */
  ghost predicate Quiet(st: State) { !st.workflowCompleted && st.open == {} && st.active == {} }

  /** What one signal does, field by field. */
  lemma ReactStarted(st: State, s: Signal)
    ensures React(st, s).workflowStarted <==> st.workflowStarted || s.Update?
  {
  }

  lemma ReactCompleted(st: State, s: Signal)
    ensures React(st, s).workflowCompleted <==> st.workflowCompleted || Finishes(s)
  {
  }

  lemma ReactTeam(st: State, s: Signal)
    ensures React(st, s).teamCompleted <==> st.teamCompleted || s.TeamDone?
  {
  }

  lemma ReactText(st: State, s: Signal)
    ensures React(st, s).leaderText == if Speaks(s) then s.text else st.leaderText
  {
  }

  lemma ReactReported(st: State, s: Signal)
    ensures React(st, s).finalAfterWorkflow <==> st.finalAfterWorkflow || (s.Final? && st.workflowCompleted)
  {
  }

  lemma ReactFinalSeen(st: State, s: Signal)
    ensures React(st, s).finalSeen <==> s.Error? || (s.Final? && Quiet(st)) || (st.finalSeen && !s.Created?)
  {
  }

  lemma ReactTasks(st: State, s: Signal, task: string)
    ensures task in React(st, s).open <==> s == Created(task) || (task in st.open && !Closes(s, task))
  {
  }

  lemma ReactMembers(st: State, s: Signal, member: string)
    ensures member in React(st, s).active <==> s == Busy(member) || (member in st.active && !Frees(s, member))
  {
  }

  /** The open tasks are exactly those created, and neither completed nor swept by an error since. */
  lemma {:induction false} OpenIff(signals: seq<Signal>, task: string)
    ensures task in Run(signals).open <==>
            exists k :: 0 <= k < |signals| && signals[k] == Created(task)
                        && forall j | k < j < |signals| :: !Closes(signals[j], task)
    decreases |signals|
  {
    if signals != [] {
      var n := |signals| - 1;
      var before := signals[..n];
      OpenIff(before, task);
      ReactTasks(Run(before), signals[n], task);
      if task in Run(before).open && !Closes(signals[n], task) {
        var k :| 0 <= k < n && before[k] == Created(task) && forall j | k < j < n :: !Closes(before[j], task);
        assert signals[k] == Created(task) && forall j | k < j < |signals| :: !Closes(signals[j], task);
      }
      forall k | 0 <= k < n && signals[k] == Created(task) && forall j | k < j < |signals| :: !Closes(signals[j], task)
        ensures task in Run(before).open
      {
        assert before[k] == Created(task) && forall j | k < j < n :: !Closes(before[j], task);
      }
    }
  }

  /** The active members are exactly those busy, and neither freed nor swept by an error since. */
  lemma {:induction false} ActiveIff(signals: seq<Signal>, member: string)
    ensures member in Run(signals).active <==>
            exists k :: 0 <= k < |signals| && signals[k] == Busy(member)
                        && forall j | k < j < |signals| :: !Frees(signals[j], member)
    decreases |signals|
  {
    if signals != [] {
      var n := |signals| - 1;
      var before := signals[..n];
      ActiveIff(before, member);
      ReactMembers(Run(before), signals[n], member);
      if member in Run(before).active && !Frees(signals[n], member) {
        var k :| 0 <= k < n && before[k] == Busy(member) && forall j | k < j < n :: !Frees(before[j], member);
        assert signals[k] == Busy(member) && forall j | k < j < |signals| :: !Frees(signals[j], member);
      }
      forall k | 0 <= k < n && signals[k] == Busy(member) && forall j | k < j < |signals| :: !Frees(signals[j], member)
        ensures member in Run(before).active
      {
        assert before[k] == Busy(member) && forall j | k < j < n :: !Frees(before[j], member);
      }
    }
  }

  /** A leader final with nothing going on, and an error, latch the end of a harness-style round. */
  ghost predicate Latches(signals: seq<Signal>, k: nat)
    requires k < |signals|
  {
    signals[k].Error? || (signals[k].Final? && Quiet(Run(signals[..k])))
  }

  ghost predicate LatchedSince(signals: seq<Signal>, k: nat)
    requires k < |signals|
  {
    Latches(signals, k) && forall j | k < j < |signals| :: !signals[j].Created?
  }

  /** The latch is set exactly when something latched it and no task was created since. */
  lemma {:induction false} FinalSeenIff(signals: seq<Signal>)
    ensures Run(signals).finalSeen <==> exists k | 0 <= k < |signals| :: LatchedSince(signals, k)
    decreases |signals|
  {
    if signals != [] {
      var n := |signals| - 1;
      var before := signals[..n];
      FinalSeenIff(before);
      ReactFinalSeen(Run(before), signals[n]);
      assert signals[..n] == before;
      assert LatchedSince(signals, n) <==> Latches(signals, n);
      forall k | 0 <= k < n
        ensures LatchedSince(signals, k) <==> LatchedSince(before, k) && !signals[n].Created?
      {
        assert signals[..k] == before[..k];
        assert forall j | 0 <= j < n :: before[j] == signals[j];
      }
    }
  }

  /** The text of the last final or error, if there was one. */
  ghost function LastSaid(signals: seq<Signal>): string
    decreases |signals|
  {
    if signals == [] then ""
    else if Speaks(signals[|signals| - 1]) then signals[|signals| - 1].text
    else LastSaid(signals[..|signals| - 1])
  }

  ghost predicate HasUpdate(signals: seq<Signal>) { exists j | 0 <= j < |signals| :: signals[j].Update? }

  /** A workflow completed, and the leader gave a final after that. */
  ghost predicate Reported(signals: seq<Signal>) {
    exists j, k :: 0 <= j < k < |signals| && Finishes(signals[j]) && signals[k].Final?
  }

  lemma {:induction false} LeaderTextIsLastSaid(signals: seq<Signal>)
    requires AllWellRead(signals)
    ensures Run(signals).leaderText == LastSaid(signals) && Trimmed(LastSaid(signals))
    decreases |signals|
  {
    if signals != [] {
      assert signals[|signals| - 1] in signals;
      LeaderTextIsLastSaid(signals[..|signals| - 1]);
      ReactText(Run(signals[..|signals| - 1]), signals[|signals| - 1]);
    }
  }

  lemma HasUpdateStep(signals: seq<Signal>)
    requires signals != []
    ensures HasUpdate(signals) <==> HasUpdate(signals[..|signals| - 1]) || signals[|signals| - 1].Update?
  {
    var n := |signals| - 1;
    if HasUpdate(signals[..n]) {
      var j :| 0 <= j < n && signals[..n][j].Update?;
      assert signals[j].Update?;
    }
    forall j | 0 <= j < n && signals[j].Update?
      ensures HasUpdate(signals[..n])
    {
      assert signals[..n][j].Update?;
    }
  }

  lemma {:induction false} StartedIff(signals: seq<Signal>)
    ensures Run(signals).workflowStarted <==> HasUpdate(signals)
    decreases |signals|
  {
    if signals != [] {
      HasUpdateStep(signals);
      StartedIff(signals[..|signals| - 1]);
      ReactStarted(Run(signals[..|signals| - 1]), signals[|signals| - 1]);
    }
  }

  lemma {:induction false} TeamCompletedIff(signals: seq<Signal>)
    ensures Run(signals).teamCompleted <==> TeamDone in signals
    decreases |signals|
  {
    if signals != [] {
      var n := |signals| - 1;
      assert signals == signals[..n] + [signals[n]];
      TeamCompletedIff(signals[..n]);
      ReactTeam(Run(signals[..n]), signals[n]);
    }
  }

  /** In every reachable state the latch excludes open tasks. */
  lemma {:induction false} LatchExcludesOpenTasks(signals: seq<Signal>)
    ensures Run(signals).finalSeen ==> Run(signals).open == {}
    decreases |signals|
  {
    if signals != [] {
      LatchExcludesOpenTasks(signals[..|signals| - 1]);
      LatchStep(Run(signals[..|signals| - 1]), signals[|signals| - 1]);
    }
  }

  lemma LatchStep(st: State, s: Signal)
    requires st.finalSeen ==> st.open == {}
    ensures React(st, s).finalSeen ==> React(st, s).open == {}
  {
  }

  lemma {:induction false} CompletedMeansStarted(signals: seq<Signal>)
    ensures Run(signals).workflowCompleted ==> Run(signals).workflowStarted
    decreases |signals|
  {
    if signals != [] {
      CompletedMeansStarted(signals[..|signals| - 1]);
      ReactStarted(Run(signals[..|signals| - 1]), signals[|signals| - 1]);
      ReactCompleted(Run(signals[..|signals| - 1]), signals[|signals| - 1]);
    }
  }

  /** In every reachable state a final after the workflow means a completed workflow, and a text. */
  lemma {:induction false} FinalAfterWorkflowHasText(signals: seq<Signal>)
    requires AllWellRead(signals)
    ensures Run(signals).finalAfterWorkflow ==> Run(signals).workflowCompleted && Run(signals).leaderText != ""
    decreases |signals|
  {
    if signals != [] {
      var signal := signals[|signals| - 1];
      assert signal in signals;
      if signal.Final? {
        FinalHasText(signal);
      }
      FinalAfterWorkflowHasText(signals[..|signals| - 1]);
      ReactCompleted(Run(signals[..|signals| - 1]), signal);
      ReactText(Run(signals[..|signals| - 1]), signal);
      ReactReported(Run(signals[..|signals| - 1]), signal);
    }
  }

  lemma FinalHasText(signal: Signal)
    requires signal.Final? && WellRead(signal)
    ensures signal.text != ""
  {
    assert Strip("") == "";
  }

  lemma {:induction false} CompletedIff(signals: seq<Signal>)
    ensures Run(signals).workflowCompleted <==> exists j | 0 <= j < |signals| :: Finishes(signals[j])
    decreases |signals|
  {
    if signals != [] {
      var n := |signals| - 1;
      CompletedIff(signals[..n]);
      ReactCompleted(Run(signals[..n]), signals[n]);
      assert forall j | 0 <= j < n :: signals[..n][j] == signals[j];
    }
  }

  lemma ReportedStep(signals: seq<Signal>)
    requires signals != []
    ensures var n := |signals| - 1;
            Reported(signals) <==>
            Reported(signals[..n]) || (signals[n].Final? && exists j | 0 <= j < n :: Finishes(signals[..n][j]))
  {
    var n := |signals| - 1;
    var before := signals[..n];
    if Reported(before) {
      var j, k :| 0 <= j < k < n && Finishes(before[j]) && before[k].Final?;
      assert Finishes(signals[j]) && signals[k].Final?;
    }
    forall j, k | 0 <= j < k < |signals| && Finishes(signals[j]) && signals[k].Final?
      ensures Reported(before) || (signals[n].Final? && exists i | 0 <= i < n :: Finishes(before[i]))
    {
      assert Finishes(before[j]);
      assert k < n ==> before[k].Final?;
    }
    forall j | 0 <= j < n && Finishes(before[j])
      ensures Finishes(signals[j])
    {
    }
  }

  lemma {:induction false} ReportedIff(signals: seq<Signal>)
    ensures Run(signals).finalAfterWorkflow <==> Reported(signals)
    decreases |signals|
  {
    if signals != [] {
      var n := |signals| - 1;
      ReportedIff(signals[..n]);
      CompletedIff(signals[..n]);
      ReactReported(Run(signals[..n]), signals[n]);
      ReportedStep(signals);
    }
  }

  // ---- when a round ends ------------------------------------------------------------------

  /** Something was said last, and it was not a placeholder. */
  ghost predicate Settled(signals: seq<Signal>) { LastSaid(signals) != "" && !Placeholder(LastSaid(signals)) }

  /** A round ends in exactly three ways: the leader reported after the workflow completed; the team
      completed and there is a result, the last word not being a placeholder; or, without any workflow,
      nothing is going on, the latch is set, and the last word is not a placeholder. In each of them
      there is a result. */
  lemma EndsIff(signals: seq<Signal>)
    requires AllWellRead(signals)
    ensures Ends(Run(signals)) <==>
            || Reported(signals)
            || (TeamDone in signals
                && if LastSaid(signals) == "" then Strip(Run(signals).workflowText) != "" else Settled(signals))
            || (!HasUpdate(signals) && Run(signals).open == {} && Run(signals).active == {}
                && Run(signals).finalSeen && Settled(signals))
    ensures Ends(Run(signals)) ==> HasResult(Run(signals))
  {
    StartedIff(signals);
    TeamCompletedIff(signals);
    LeaderTextIsLastSaid(signals);
    CompletedMeansStarted(signals);
    FinalAfterWorkflowHasText(signals);
    ReportedIff(signals);
  }

  /** Once a task was created, a round that ends neither by its workflow nor by the team's own
      completion needs, after that creation, a leader final given while no task was open and no member
      active, or an error; and by then every created task was completed or swept. */
  lemma DelegationNeedsANewFinal(signals: seq<Signal>, c: nat) returns (k: nat)
    requires AllWellRead(signals) && c < |signals| && signals[c].Created?
    requires !HasUpdate(signals) && TeamDone !in signals && Ends(Run(signals))
    ensures c < k < |signals| && Latches(signals, k)
    ensures Run(signals).open == {} && exists j | c < j < |signals| :: Closes(signals[j], signals[c].task)
  {
    EndsIff(signals);
    FinalSeenIff(signals);
    k :| 0 <= k < |signals| && LatchedSince(signals, k);
    OpenIff(signals, signals[c].task);
  }

  /** When an error ends the round. It is not enough that the team failed: with a workflow begun and
      not reported on, or with an error text that reads like a placeholder, the round goes on. */
  lemma ErrorEndsIff(signals: seq<Signal>, text: string)
    requires AllWellRead(signals) && WellRead(Error(text))
    ensures var said := if text != "" then text else LastSaid(signals);
            Ends(Run(signals + [Error(text)])) <==>
            || Reported(signals)
            || (said != "" && !Placeholder(said) && (TeamDone in signals || !HasUpdate(signals)))
            || (said == "" && TeamDone in signals && Strip(Run(signals).workflowText) != "")
  {
    var after := signals + [Error(text)];
    assert after[..|signals|] == signals;
    assert forall s :: s in after <==> s in signals || s == Error(text);
    EndsIff(after);
    ReportedStep(after);
    LeaderTextIsLastSaid(signals);
    HasUpdateStep(after);
  }

  /** A failed team whose workflow had begun. */
  lemma ErrorDuringAWorkflow(text: string)
    requires Trimmed(text) && text != ""
    ensures !Ends(Run([Update(false, ""), Error(text)]))
  {
    var before := [Update(false, "")];
    assert before + [Error(text)] == [Update(false, ""), Error(text)];
    assert before[0].Update?;
    assert HasUpdate(before) && !Reported(before);
    ErrorEndsIff(before, text);
  }
}
