/** The stage machine of a run: which stages a start executes, and when the stages it skips may be
    trusted (tyche/pipeline.py, tyche/workspace.py, tyche/cli.py). */
module Stages {
  import opened Options
  import opened PyList

  const STAGES := ["plan", "survey", "experiments", "analysis", "write", "review", "evolve", "package"]

  datatype Status = Pending | Running | Done | Failed

  /** How the body of a stage ends: it returns, it raises, or the process dies in it. */
  datatype Outcome = Succeeds | Fails | Crashes

  /** How a call of `run` ends. */
  datatype Ending = Finished | Raised | Died | UnknownStage

  /** The saved status rows and, for the proofs, the number of the last attempt of every stage
      (attempts are counted over the whole life of the run). */
  datatype State = State(status: map<string, Status>, ran: map<string, nat>, attempts: nat)

  const NEW := State(map[], map[], 0)

  function StatusOf(status: map<string, Status>, stage: string): Status {
    if stage in status then status[stage] else Pending
  }

  ghost predicate IsDone(st: State, stage: string) { StatusOf(st.status, stage) == Done }

  /** The number of the last attempt of a stage, 0 when it never ran. */
  ghost function LastRan(st: State, stage: string): nat { if stage in st.ran then st.ran[stage] else 0 }

  /** The status a stage is left with. */
  function After(body: Outcome): Status {
    match body
    case Succeeds => Done
    case Fails => Failed
    case Crashes => Running
  }

  ghost function Attempt(st: State, stage: string, body: Outcome): State {
    State(st.status[stage := After(body)], st.ran[stage := st.attempts + 1], st.attempts + 1)
  }

  /** What `run` makes of a list of stages still to be looked at. */
  ghost function RunOver(st: State, stages: seq<string>, skipDone: bool, stopAfter: Option<string>,
                         bodies: string -> Outcome): (State, Ending)
    decreases |stages|
  {
    if stages == [] then (st, Finished)
    else
      var stage := stages[0];
      if skipDone && IsDone(st, stage) then
        if stopAfter == Some(stage) then (st, Finished)
        else RunOver(st, stages[1..], skipDone, stopAfter, bodies)
      else
        var st' := Attempt(st, stage, bodies(stage));
        match bodies(stage)
        case Fails => (st', Raised)
        case Crashes => (st', Died)
        case Succeeds =>
          if stopAfter == Some(stage) then (st', Finished)
          else RunOver(st', stages[1..], skipDone, stopAfter, bodies)
  }

  /** A given option counts only when it is not the empty string. */
  predicate Given(option: Option<string>) { option.Some? && option.value != "" }

  ghost function RunSpec(order: seq<string>, st: State, stopAfter: Option<string>, only: Option<string>,
                         bodies: string -> Outcome): (State, Ending)
  {
    if Given(stopAfter) && stopAfter.value !in order then (st, UnknownStage)
    else RunOver(st, if Given(only) then [only.value] else order, only.None?, stopAfter, bodies)
  }

  /** `stage` and everything after it becomes pending. */
  ghost function ResetSpec(st: State, later: seq<string>): State {
    st.(status := map s | s in st.status.Keys + Elements(later) :: if s in later then Pending else st.status[s])
  }

  lemma ResetOneMore(st: State, names: seq<string>, i: nat)
    requires i < |names|
    ensures var before := ResetSpec(st, names[..i]);
            ResetSpec(st, names[..i + 1]) == before.(status := before.status[names[i] := Pending])
  {
    assert names[..i + 1] == names[..i] + [names[i]];
    var before, after := ResetSpec(st, names[..i]).status, ResetSpec(st, names[..i + 1]).status;
    assert after.Keys == before.Keys + {names[i]};
    assert after == before[names[i] := Pending];
  }

  function IndexOf(order: seq<string>, stage: string): (i: nat)
    requires stage in order
    ensures i < |order| && order[i] == stage && stage !in order[..i]
  {
    if order[0] == stage then 0 else IndexOf(order[1..], stage) + 1
  }

  /** The pipeline of one run, with the stage rows of its state file. */
  class Pipeline {
    var status: map<string, Status>
    ghost var ran: map<string, nat>
    ghost var attempts: nat

    ghost function St(): State
      reads this
    {
      State(status, ran, attempts)
    }

    constructor ()
      ensures forall s | s in STAGES :: StatusOf(status, s) == Pending
      ensures ran == map[] && attempts == 0
    {
      status, ran, attempts := map s | s in STAGES :: Pending, map[], 0;
    }

    method MarkStage(stage: string, mark: Status)
      modifies this`status
      ensures status == old(status)[stage := mark]
    {
      status := status[stage := mark];
    }

    /** Answers the stages reset, or nothing when the stage does not exist. */
    method ResetFrom(stage: string) returns (later: Option<seq<string>>)
      modifies this`status
      ensures later == if stage in STAGES then Some(STAGES[IndexOf(STAGES, stage)..]) else None
      ensures St() == if stage in STAGES then ResetSpec(old(St()), later.value) else old(St())
    {
      if stage !in STAGES {
        return None;
      }
      later := Some(STAGES[IndexOf(STAGES, stage)..]);
      ResetAll(later.value);
    }

    method ResetAll(names: seq<string>)
      modifies this`status
      ensures St() == ResetSpec(old(St()), names)
    {
      for i := 0 to |names|
        invariant St() == ResetSpec(old(St()), names[..i])
      {
        ResetOneMore(old(St()), names, i);
        status := status[names[i] := Pending];
      }
      assert names[..|names|] == names;
    }

    /** `run`: one pass over the stages, skipping those already done unless one stage is forced. */
    method Run(stopAfter: Option<string>, only: Option<string>, bodies: string -> Outcome) returns (ending: Ending)
      modifies this
      ensures (St(), ending) == RunSpec(STAGES, old(St()), stopAfter, only, bodies)
      ensures ending == UnknownStage <==> stopAfter.Some? && stopAfter.value != "" && stopAfter.value !in STAGES
      ensures ending == UnknownStage ==> St() == old(St())
    {
      if Given(stopAfter) && stopAfter.value !in STAGES {
        return UnknownStage;
      }
      ending := RunStages(if Given(only) then [only.value] else STAGES, only.None?, stopAfter, bodies);
    }

    method RunStages(stages: seq<string>, skipDone: bool, stopAfter: Option<string>, bodies: string -> Outcome)
      returns (ending: Ending)
      modifies this
      ensures (St(), ending) == RunOver(old(St()), stages, skipDone, stopAfter, bodies) && ending != UnknownStage
    {
      ghost var whole := RunOver(St(), stages, skipDone, stopAfter, bodies);
      assert stages[0..] == stages;
      for i := 0 to |stages|
        invariant whole == RunOver(St(), stages[i..], skipDone, stopAfter, bodies)
      {
        var stage := stages[i];
        assert stages[i..][1..] == stages[i + 1..];
        if skipDone && StatusOf(status, stage) == Done {
          if stopAfter == Some(stage) {
            return Finished;
          }
        } else {
          var body := RunStage(stage, bodies);
          match body {
            case Crashes => return Died;
            case Fails => return Raised;
            case Succeeds =>
          }
          if stopAfter == Some(stage) {
            return Finished;
          }
        }
      }
      ending := Finished;
    }

    /** One stage: marked running, run, and marked with how it ended; a crash leaves it running. */
    method RunStage(stage: string, bodies: string -> Outcome) returns (body: Outcome)
      modifies this
      ensures body == bodies(stage) && St() == Attempt(old(St()), stage, body)
    {
      MarkStage(stage, Running);
      ran, attempts := ran[stage := attempts + 1], attempts + 1;
      body := bodies(stage);
      match body {
        case Crashes =>
        case Fails => MarkStage(stage, Failed);
        case Succeeds => MarkStage(stage, Done);
      }
    }
  }

  // ---- when a skipped stage may be trusted ------------------------------------------------

  /** The done stages are the first ones, and each ran after the last attempt of every stage before
      it, so what it was built from is what is there now. */
  ghost predicate Fresh(order: seq<string>, st: State) {
    && (forall s | s in st.ran :: st.ran[s] <= st.attempts)
    && forall e, s | 0 <= e < s < |order| && IsDone(st, order[s]) ::
         IsDone(st, order[e]) && LastRan(st, order[e]) < LastRan(st, order[s])
  }

  ghost predicate DoneBelow(order: seq<string>, st: State, n: nat)
    requires n <= |order|
  {
    forall e | 0 <= e < n :: IsDone(st, order[e])
  }

  /** One attempt of stage `i` keeps the run fresh just when it fails, or all stages before are done,
      provided no later stage is done. */
  lemma AttemptFresh(order: seq<string>, st: State, i: nat, body: Outcome)
    requires Distinct(order) && i < |order| && Fresh(order, st)
    requires forall s | i <= s < |order| :: !IsDone(st, order[s])
    ensures Fresh(order, Attempt(st, order[i], body)) <==> (body.Succeeds? ==> DoneBelow(order, st, i))
    ensures forall s | 0 <= s < |order| && s != i :: IsDone(Attempt(st, order[i], body), order[s]) == IsDone(st, order[s])
  {
    var st' := Attempt(st, order[i], body);
    forall s | 0 <= s < |order| && s != i
      ensures IsDone(st', order[s]) == IsDone(st, order[s])
      ensures LastRan(st', order[s]) == LastRan(st, order[s]) <= st.attempts
    {
      assert order[s] != order[i];
    }
    if body.Succeeds? {
      assert IsDone(st', order[i]);
      if Fresh(order, st') {
        forall e | 0 <= e < i
          ensures IsDone(st, order[e])
        {
          assert IsDone(st', order[e]);
        }
      }
    }
  }

  /** What happens to a run: it is started or resumed, or one stage is forced, which first resets
      that stage and all later ones (the process may die before the stage itself is reached). */
  datatype Event =
    | Resume(stopAfter: Option<string>, bodies: string -> Outcome)
    | Force(stage: string, reached: bool, body: Outcome)

  function Always(body: Outcome): string -> Outcome { s => body }

  ghost function Happen(order: seq<string>, st: State, event: Event): State {
    match event
    case Resume(stopAfter, bodies) => RunSpec(order, st, stopAfter, None, bodies).0
    case Force(stage, reached, body) =>
      if stage !in order then st
      else
        var reset := ResetSpec(st, order[IndexOf(order, stage)..]);
        if reached then RunSpec(order, reset, None, Some(stage), Always(body)).0 else reset
  }

  /** Forcing a stage that exists makes it and all later ones pending, whatever comes of it, and leaves the
      earlier ones alone; if it is reached it ends as its body does. One that does not exist changes
      nothing. */
  lemma ForceDoes(order: seq<string>, st: State, stage: string, reached: bool, body: Outcome, s: nat)
    requires Distinct(order) && (forall x | x in order :: x != "") && s < |order|
    ensures var now := Happen(order, st, Force(stage, reached, body));
            if stage !in order then now == st
            else if s < IndexOf(order, stage) then StatusOf(now.status, order[s]) == StatusOf(st.status, order[s])
            else if order[s] == stage && reached
            then StatusOf(now.status, stage) == (if body.Succeeds? then Done else if body.Fails? then Failed else Running)
            else StatusOf(now.status, order[s]) == Pending
  {
    if stage in order {
      var i := IndexOf(order, stage);
      var reset := ResetSpec(st, order[i..]);
      ResetStatus(order, st, i, s);
      if reached {
        ForcedIsOneAttempt(order, reset, stage, body);
      }
    }
  }

  lemma ResetStatus(order: seq<string>, st: State, i: nat, s: nat)
    requires Distinct(order) && i < |order| && s < |order|
    ensures StatusOf(ResetSpec(st, order[i..]).status, order[s]) == if s < i then StatusOf(st.status, order[s]) else Pending
  {
    if s < i {
      assert order[s] !in order[i..];
    } else {
      assert order[i..][s - i] == order[s];
    }
  }

  ghost function Life(order: seq<string>, events: seq<Event>): State
    decreases |events|
  {
    if events == [] then NEW
    else Happen(order, Life(order, events[..|events| - 1]), events[|events| - 1])
  }

  /** A stage forced to completion had every stage before it done. */
  ghost predicate InOrder(order: seq<string>, st: State, event: Event) {
    event.Force? && event.stage in order && event.reached && event.body.Succeeds? ==>
      DoneBelow(order, st, IndexOf(order, event.stage))
  }

  /** No start ever meets a stale stage exactly when every forced stage that completed had all the
      stages before it done. Nothing checks that condition. */
  lemma {:induction false} NeverStaleIff(order: seq<string>, events: seq<Event>)
    requires Distinct(order) && forall s | s in order :: s != ""
    ensures (forall n | 0 <= n <= |events| :: Fresh(order, Life(order, events[..n]))) <==>
            (forall n | 0 <= n < |events| :: InOrder(order, Life(order, events[..n]), events[n]))
  {
    if forall n | 0 <= n < |events| :: InOrder(order, Life(order, events[..n]), events[n]) {
      forall n | 0 <= n <= |events|
        ensures Fresh(order, Life(order, events[..n]))
      {
        StaysFresh(order, events, n);
      }
    }
    if forall n | 0 <= n <= |events| :: Fresh(order, Life(order, events[..n])) {
      forall n | 0 <= n < |events|
        ensures InOrder(order, Life(order, events[..n]), events[n])
      {
        LifeStep(order, events, n);
        HappenFresh(order, Life(order, events[..n]), events[n]);
      }
    }
  }

  lemma LifeStep(order: seq<string>, events: seq<Event>, n: nat)
    requires n < |events|
    ensures Life(order, events[..n + 1]) == Happen(order, Life(order, events[..n]), events[n])
  {
    assert events[..n + 1][..n] == events[..n];
  }

  lemma {:induction false} StaysFresh(order: seq<string>, events: seq<Event>, n: nat)
    requires Distinct(order) && (forall s | s in order :: s != "") && n <= |events|
    requires forall m | 0 <= m < |events| :: InOrder(order, Life(order, events[..m]), events[m])
    ensures Fresh(order, Life(order, events[..n]))
  {
    if n > 0 {
      StaysFresh(order, events, n - 1);
      LifeStep(order, events, n - 1);
      HappenFresh(order, Life(order, events[..n - 1]), events[n - 1]);
    }
  }

  lemma HappenFresh(order: seq<string>, st: State, event: Event)
    requires Distinct(order) && (forall s | s in order :: s != "") && Fresh(order, st)
    ensures Fresh(order, Happen(order, st, event)) <==> InOrder(order, st, event)
  {
    match event
    case Resume(stopAfter, bodies) =>
      assert order[0..] == order;
      RunFresh(order, st, 0, stopAfter, bodies);
    case Force(stage, reached, body) =>
      if stage in order {
        var i := IndexOf(order, stage);
        ResetFresh(order, st, i);
        if reached {
          ForcedIsOneAttempt(order, ResetSpec(st, order[i..]), stage, body);
          AttemptFresh(order, ResetSpec(st, order[i..]), i, body);
        }
      }
  }

  lemma ForcedIsOneAttempt(order: seq<string>, st: State, stage: string, body: Outcome)
    requires stage != ""
    ensures RunSpec(order, st, None, Some(stage), Always(body)).0 == Attempt(st, stage, body)
  {
    var st' := Attempt(st, stage, body);
    assert [stage][1..] == [];
    assert RunOver(st', [], false, None, Always(body)) == (st', Finished);
    assert RunOver(st, [stage], false, None, Always(body)).0 == st';
    assert Always(body)(stage) == body;
  }

  lemma ResetFresh(order: seq<string>, st: State, i: nat)
    requires Distinct(order) && i < |order| && Fresh(order, st)
    ensures Fresh(order, ResetSpec(st, order[i..]))
    ensures forall s | 0 <= s < |order| :: IsDone(ResetSpec(st, order[i..]), order[s]) <==> IsDone(st, order[s]) && s < i
    ensures DoneBelow(order, ResetSpec(st, order[i..]), i) <==> DoneBelow(order, st, i)
  {
    forall s | 0 <= s < |order|
      ensures order[s] in order[i..] <==> i <= s
    {
      if i <= s {
        assert order[i..][s - i] == order[s];
      }
    }
  }

  lemma {:induction false} RunFresh(order: seq<string>, st: State, i: nat, stopAfter: Option<string>,
                                    bodies: string -> Outcome)
    requires Distinct(order) && i <= |order| && Fresh(order, st) && DoneBelow(order, st, i)
    ensures Fresh(order, RunOver(st, order[i..], true, stopAfter, bodies).0)
    decreases |order| - i
  {
    if i < |order| {
      var stage := order[i];
      assert order[i..][1..] == order[i + 1..];
      if IsDone(st, stage) {
        RunFresh(order, st, i + 1, stopAfter, bodies);
      } else {
        AttemptFresh(order, st, i, bodies(stage));
        if bodies(stage).Succeeds? {
          RunFresh(order, Attempt(st, stage, bodies(stage)), i + 1, stopAfter, bodies);
        }
      }
    }
  }

  // ---- what a resumed run executes --------------------------------------------------------

  /** A run ends at this stage: it is the one to stop after, or it has to run and does not succeed. */
  ghost predicate EndsWith(st: State, stage: string, stopAfter: Option<string>, bodies: string -> Outcome) {
    stopAfter == Some(stage) || (!IsDone(st, stage) && !bodies(stage).Succeeds?)
  }

  /** The first stage from `i` on at which a run ends. */
  ghost function StopsAt(order: seq<string>, st: State, i: nat, stopAfter: Option<string>,
                         bodies: string -> Outcome): (e: nat)
    requires i <= |order|
    ensures i <= e <= |order|
    ensures forall s | i <= s < e :: !EndsWith(st, order[s], stopAfter, bodies)
    ensures e < |order| ==> EndsWith(st, order[e], stopAfter, bodies)
    decreases |order| - i
  {
    if i == |order| || EndsWith(st, order[i], stopAfter, bodies) then i
    else StopsAt(order, st, i + 1, stopAfter, bodies)
  }

  /** How many of the stages `i..s` are not done. */
  ghost function Pendings(order: seq<string>, st: State, i: nat, s: nat): nat
    requires s <= |order|
    decreases |order| - i
  {
    if i >= s then 0 else (if IsDone(st, order[i]) then 0 else 1) + Pendings(order, st, i + 1, s)
  }

  /** `st'` is `st` after those of the stages `i..e` that are not done ran once each, in order, and
      nothing else did. */
  ghost predicate RanPending(order: seq<string>, st: State, st': State, i: nat, e: nat, bodies: string -> Outcome) {
    forall s | 0 <= s < |order| :: RanAsPending(order, st, st', i, e, bodies, s)
  }

  ghost predicate RanAsPending(order: seq<string>, st: State, st': State, i: nat, e: nat,
                               bodies: string -> Outcome, s: nat)
    requires s < |order|
  {
    if i <= s <= e && !IsDone(st, order[s])
    then LastRan(st', order[s]) == st.attempts + Pendings(order, st, i, s) + 1
         && StatusOf(st'.status, order[s])
            == (if bodies(order[s]).Succeeds? then Done else if bodies(order[s]).Fails? then Failed else Running)
    else LastRan(st', order[s]) == LastRan(st, order[s])
         && StatusOf(st'.status, order[s]) == StatusOf(st.status, order[s])
  }

  ghost function EndingAt(order: seq<string>, st: State, e: nat, bodies: string -> Outcome): Ending
    requires e <= |order|
  {
    if e == |order| || IsDone(st, order[e]) || bodies(order[e]).Succeeds? then Finished
    else if bodies(order[e]).Fails? then Raised
    else Died
  }

  /** Whatever is done and whatever is not, a resumed run executes exactly the stages that are not
      done, once each and in order, up to where it ends: the stage to stop after, even if that one is
      done already, or the first that does not succeed. It touches no other stage. */
  lemma ResumeContinues(order: seq<string>, st: State, stopAfter: Option<string>, bodies: string -> Outcome)
    requires Distinct(order)
    ensures var (st', ending) := RunOver(st, order, true, stopAfter, bodies);
            var e := StopsAt(order, st, 0, stopAfter, bodies);
            RanPending(order, st, st', 0, e, bodies) && ending == EndingAt(order, st, e, bodies)
  {
    assert order[0..] == order;
    RunsPending(order, st, 0, stopAfter, bodies);
  }

  ghost predicate RunsRight(order: seq<string>, st: State, i: nat, stopAfter: Option<string>,
                            bodies: string -> Outcome)
    requires i <= |order|
  {
    var (st', ending) := RunOver(st, order[i..], true, stopAfter, bodies);
    var e := StopsAt(order, st, i, stopAfter, bodies);
    RanPending(order, st, st', i, e, bodies) && ending == EndingAt(order, st, e, bodies)
  }

  lemma {:induction false} RunsPending(order: seq<string>, st: State, i: nat, stopAfter: Option<string>,
                                       bodies: string -> Outcome)
    requires Distinct(order) && i <= |order|
    ensures RunsRight(order, st, i, stopAfter, bodies)
    decreases |order| - i
  {
    if i == |order| || EndsWith(st, order[i], stopAfter, bodies) {
      EndsHere(order, st, i, stopAfter, bodies);
    } else if IsDone(st, order[i]) {
      RunsPending(order, st, i + 1, stopAfter, bodies);
      GoesOnPast(order, st, i, stopAfter, bodies);
    } else {
      RunsPending(order, Attempt(st, order[i], bodies(order[i])), i + 1, stopAfter, bodies);
      GoesOnAfter(order, st, i, stopAfter, bodies);
    }
  }

  lemma EndsHere(order: seq<string>, st: State, i: nat, stopAfter: Option<string>, bodies: string -> Outcome)
    requires Distinct(order) && i <= |order|
    requires i == |order| || EndsWith(st, order[i], stopAfter, bodies)
    ensures RunsRight(order, st, i, stopAfter, bodies)
  {
    if i == |order| || IsDone(st, order[i]) {
      assert RanPending(order, st, st, i, i, bodies) by {
        forall s | 0 <= s < |order|
          ensures RanAsPending(order, st, st, i, i, bodies, s)
        {
        }
      }
    } else {
      OneRan(order, st, i, bodies);
    }
  }

  lemma GoesOnPast(order: seq<string>, st: State, i: nat, stopAfter: Option<string>, bodies: string -> Outcome)
    requires i < |order| && IsDone(st, order[i]) && !EndsWith(st, order[i], stopAfter, bodies)
    requires RunsRight(order, st, i + 1, stopAfter, bodies)
    ensures RunsRight(order, st, i, stopAfter, bodies)
  {
    assert order[i..][1..] == order[i + 1..];
    var st' := RunOver(st, order[i + 1..], true, stopAfter, bodies).0;
    DoneIsSkipped(order, st, st', i, StopsAt(order, st, i + 1, stopAfter, bodies), bodies);
  }

  lemma GoesOnAfter(order: seq<string>, st: State, i: nat, stopAfter: Option<string>, bodies: string -> Outcome)
    requires Distinct(order) && i < |order| && !IsDone(st, order[i]) && !EndsWith(st, order[i], stopAfter, bodies)
    requires RunsRight(order, Attempt(st, order[i], bodies(order[i])), i + 1, stopAfter, bodies)
    ensures RunsRight(order, st, i, stopAfter, bodies)
  {
    assert order[i..][1..] == order[i + 1..];
    var st' := Attempt(st, order[i], bodies(order[i]));
    var st'' := RunOver(st', order[i + 1..], true, stopAfter, bodies).0;
    AttemptKeepsOthers(order, st, i, bodies(order[i]));
    SameStop(order, st, st', i + 1, stopAfter, bodies);
    RanOneMore(order, st, st'', i, StopsAt(order, st, i + 1, stopAfter, bodies), bodies);
  }

  /** Where a run ends, and what it still has to do, depends on the later stages only. */
  lemma {:induction false} SameStop(order: seq<string>, st: State, st': State, i: nat, stopAfter: Option<string>,
                                    bodies: string -> Outcome)
    requires i <= |order| && forall s | i <= s < |order| :: IsDone(st, order[s]) == IsDone(st', order[s])
    ensures StopsAt(order, st, i, stopAfter, bodies) == StopsAt(order, st', i, stopAfter, bodies)
    decreases |order| - i
  {
    if i < |order| && !EndsWith(st, order[i], stopAfter, bodies) {
      SameStop(order, st, st', i + 1, stopAfter, bodies);
    }
  }

  lemma {:induction false} SamePendings(order: seq<string>, st: State, st': State, i: nat, s: nat)
    requires s <= |order| && forall x | i <= x < |order| :: IsDone(st, order[x]) == IsDone(st', order[x])
    ensures Pendings(order, st, i, s) == Pendings(order, st', i, s)
    decreases |order| - i
  {
    if i < s {
      SamePendings(order, st, st', i + 1, s);
    }
  }

  lemma OneRan(order: seq<string>, st: State, i: nat, bodies: string -> Outcome)
    requires Distinct(order) && i < |order| && !IsDone(st, order[i])
    ensures RanPending(order, st, Attempt(st, order[i], bodies(order[i])), i, i, bodies)
  {
    var st' := Attempt(st, order[i], bodies(order[i]));
    assert RanAsPending(order, st, st', i, i, bodies, i);
    AttemptKeepsOthers(order, st, i, bodies(order[i]));
  }

  lemma DoneIsSkipped(order: seq<string>, st: State, st': State, i: nat, e: nat, bodies: string -> Outcome)
    requires i < |order| && IsDone(st, order[i]) && RanPending(order, st, st', i + 1, e, bodies)
    ensures RanPending(order, st, st', i, e, bodies)
  {
    forall s | 0 <= s < |order|
      ensures RanAsPending(order, st, st', i, e, bodies, s)
    {
      assert RanAsPending(order, st, st', i + 1, e, bodies, s);
    }
  }

  /** The stage `i` ran, then what was pending after it. */
  lemma RanOneMore(order: seq<string>, st: State, st'': State, i: nat, e: nat, bodies: string -> Outcome)
    requires Distinct(order) && i < |order| && i < e && !IsDone(st, order[i])
    requires RanPending(order, Attempt(st, order[i], bodies(order[i])), st'', i + 1, e, bodies)
    ensures RanPending(order, st, st'', i, e, bodies)
  {
    var st' := Attempt(st, order[i], bodies(order[i]));
    AttemptKeepsOthers(order, st, i, bodies(order[i]));
    forall s | 0 <= s < |order|
      ensures RanAsPending(order, st, st'', i, e, bodies, s)
    {
      assert RanAsPending(order, st', st'', i + 1, e, bodies, s);
      if i < s {
        SamePendings(order, st, st', i + 1, s);
      }
    }
  }

  lemma AttemptKeepsOthers(order: seq<string>, st: State, d: nat, body: Outcome)
    requires Distinct(order) && d < |order|
    ensures var st' := Attempt(st, order[d], body);
            forall s | 0 <= s < |order| && s != d ::
              LastRan(st', order[s]) == LastRan(st, order[s])
              && StatusOf(st'.status, order[s]) == StatusOf(st.status, order[s])
  {
    forall s | 0 <= s < |order| && s != d
      ensures order[s] != order[d]
    {
    }
  }

  // ---- what an out-of-order stage does ----------------------------------------------------

  /** A stage forced while an earlier one is not done stays stale: a later full run completes every
      stage, but skips this one although an earlier stage it builds on ran after it. */
  lemma StaleStageStays(order: seq<string>, st: State, e: nat, i: nat, bodies: string -> Outcome)
    requires Distinct(order) && (forall s | s in order :: s != "") && Fresh(order, st)
    requires e < i < |order| && !IsDone(st, order[e])
    requires forall s :: bodies(s) == Succeeds
    ensures var st' := Happen(order, Happen(order, st, Force(order[i], true, Succeeds)), Resume(None, bodies));
            && DoneBelow(order, st', |order|)
            && LastRan(st', order[i]) < LastRan(st', order[e])
  {
    var forced := Happen(order, st, Force(order[i], true, Succeeds));
    ForcedEarly(order, st, e, i);
    assert order[0..] == order;
    Completes(order, forced, 0, i, bodies);
    Completes(order, forced, 0, e, bodies);
  }

  /** Forcing a stage that succeeds is one attempt after the reset; it leaves the earlier stages alone. */
  lemma ForcedEarly(order: seq<string>, st: State, e: nat, i: nat)
    requires Distinct(order) && (forall s | s in order :: s != "") && Fresh(order, st)
    requires e < i < |order| && !IsDone(st, order[e])
    ensures var forced := Happen(order, st, Force(order[i], true, Succeeds));
            && (forall x | x in forced.ran :: forced.ran[x] <= forced.attempts)
            && IsDone(forced, order[i]) && !IsDone(forced, order[e]) && LastRan(forced, order[i]) <= forced.attempts
  {
    var reset := ResetSpec(st, order[i..]);
    ForcedIsResetAndAttempt(order, st, i);
    ResetFresh(order, st, i);
    AttemptFresh(order, reset, i, Succeeds);
  }

  lemma ForcedIsResetAndAttempt(order: seq<string>, st: State, i: nat)
    requires Distinct(order) && (forall s | s in order :: s != "") && i < |order|
    ensures Happen(order, st, Force(order[i], true, Succeeds))
            == Attempt(ResetSpec(st, order[i..]), order[i], Succeeds)
  {
    assert IndexOf(order, order[i]) == i;
    ForcedIsOneAttempt(order, ResetSpec(st, order[i..]), order[i], Succeeds);
  }

  /** A full run in which every stage succeeds leaves all stages done, and runs exactly those that
      were not. */
  lemma {:induction false} Completes(order: seq<string>, st: State, n: nat, s: nat, bodies: string -> Outcome)
    requires Distinct(order) && n <= |order| && s < |order| && forall x :: bodies(x) == Succeeds
    requires forall x | x in st.ran :: st.ran[x] <= st.attempts
    ensures var st' := RunOver(st, order[n..], true, None, bodies).0;
            && (forall j | n <= j < |order| || (0 <= j < |order| && IsDone(st, order[j])) :: IsDone(st', order[j]))
            && (if n <= s && !IsDone(st, order[s]) then LastRan(st', order[s]) > st.attempts
                else LastRan(st', order[s]) == LastRan(st, order[s]))
    decreases |order| - n
  {
    if n < |order| {
      assert order[n..][1..] == order[n + 1..];
      if IsDone(st, order[n]) {
        Completes(order, st, n + 1, s, bodies);
      } else {
        Completes(order, Attempt(st, order[n], Succeeds), n + 1, s, bodies);
      }
    }
  }

  lemma StagesAreNames()
    ensures Distinct(STAGES) && |STAGES| == 8 && forall s | s in STAGES :: s != ""
  {
    assert |STAGES[0]| == 4 && |STAGES[1]| == 6 && |STAGES[2]| == 11 && |STAGES[3]| == 8;
    assert |STAGES[4]| == 5 && |STAGES[5]| == 6 && |STAGES[6]| == 6 && |STAGES[7]| == 7;
    assert STAGES[1][0] == 's' && STAGES[5][0] == 'r' && STAGES[6][0] == 'e';
  }

  /** A new run started with `--stage write`, then resumed: all stages end up done, and the paper
      was written before its plan. */
  lemma WrittenBeforePlanned()
    ensures var events := [Force(STAGES[4], true, Succeeds), Resume(None, Always(Succeeds))];
            var st := Life(STAGES, events);
            && DoneBelow(STAGES, st, 8)
            && LastRan(st, STAGES[4]) < LastRan(st, STAGES[0])
            && !Fresh(STAGES, st)
  {
    StagesAreNames();
    TwoEvents(STAGES, Force(STAGES[4], true, Succeeds), Resume(None, Always(Succeeds)));
    StaleStageStays(STAGES, NEW, 0, 4, Always(Succeeds));
  }

  lemma TwoEvents(order: seq<string>, first: Event, second: Event)
    ensures Life(order, [first, second]) == Happen(order, Happen(order, NEW, first), second)
  {
    var events := [first, second];
    assert events[..1] == [first] && events[..0] == [];
    LifeStep(order, events, 0);
    LifeStep(order, events, 1);
    assert events[..2] == events;
  }
}
