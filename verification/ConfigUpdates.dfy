/** What `update_config` (jiuwenswarm/common/config.py) does to the document itself, step by step of
    any run. */
module ConfigUpdates {
  import opened ConfigWrites
  import opened Options

  /** The mutator turns the content found, the empty mapping if there is none, into the document. */
  ghost predicate Makes(cs: Calls, c: nat, found: Content, text: string) {
    match found
    case Doc(t) => cs.op(c, t) == NewDoc(text)
    case Null => cs.op(c, "{}") == NewDoc(text)
  }

  /** The state after the first `n` steps. */
  ghost function At(cs: Calls, file: Content, steps: seq<Step>, n: nat): World
    requires n <= |steps|
  {
    Run(cs, file, steps[..n])
  }

  /** Step `k` is the one at which the call replaced the file: the new content is what its mutator makes of
      the content just before. */
  ghost predicate UpdatesAt(cs: Calls, file: Content, steps: seq<Step>, k: nat, c: nat, text: string)
    requires k < |steps|
  {
    var w, v := At(cs, file, steps, k), At(cs, file, steps, k + 1);
    && steps[k] == Replace(c) && Makes(cs, c, w.file, text) && v.file == Doc(text)
    && c !in w.committed && v.committed == w.committed + {c}
  }

  lemma AtStep(cs: Calls, file: Content, steps: seq<Step>, k: nat)
    requires k < |steps|
    ensures At(cs, file, steps, k + 1) == Next(cs, At(cs, file, steps, k), steps[k])
  {
    assert steps[..k + 1][..k] == steps[..k];
  }

  /** The file never changes but by one call's mutator, applied to the content just before: whatever other
      calls did until then is in what the mutator gets. */
  lemma EveryChangeIsAnUpdate(cs: Calls, file: Content, steps: seq<Step>, k: nat)
    requires k < |steps|
    ensures var w, v := At(cs, file, steps, k), At(cs, file, steps, k + 1);
            (v.file == w.file && v.committed == w.committed) || exists c, text :: UpdatesAt(cs, file, steps, k, c, text)
  {
    var w := At(cs, file, steps, k);
    AtStep(cs, file, steps, k);
    if steps[k].Replace? && PhaseOf(w, steps[k].call).Staged? {
      StagedUpdates(cs, file, steps, k);
    }
  }

  lemma StagedUpdates(cs: Calls, file: Content, steps: seq<Step>, k: nat)
    requires k < |steps| && steps[k].Replace? && PhaseOf(At(cs, file, steps, k), steps[k].call).Staged?
    ensures var c := steps[k].call; UpdatesAt(cs, file, steps, k, c, PhaseOf(At(cs, file, steps, k), c).text)
  {
    var w, c := At(cs, file, steps, k), steps[k].call;
    AtStep(cs, file, steps, k);
    RunKeepsInv(cs, file, steps[..k]);
    assert PhaseInv(cs, file, w, c);
  }

  /** The result of a call that has one. */
  function ResultOf(p: Phase): Option<Result> {
    if p.Leaving? || p.Unlocked? || p.Finished? then Some(p.result) else None
  }

  lemma ResultKept(cs: Calls, w: World, s: Step, c: nat)
    requires ResultOf(PhaseOf(Next(cs, w, s), c)).Some?
    requires ResultOf(PhaseOf(Next(cs, w, s), c)).value.Changed?
    ensures ResultOf(PhaseOf(w, c)) == ResultOf(PhaseOf(Next(cs, w, s), c))
            || (s == Replace(c) && PhaseOf(w, c).Staged?
                && ResultOf(PhaseOf(Next(cs, w, s), c)).value == Changed(PhaseOf(w, c).text))
  {
  }

  lemma NothingAtFirst(cs: Calls, file: Content, steps: seq<Step>, c: nat)
    ensures ResultOf(PhaseOf(At(cs, file, steps, 0), c)) == None
  {
    assert steps[..0] == [];
  }

  /** A call that reports a change made it, at one of the steps, as it reports it. */
  lemma {:induction false} ChangedMeansUpdated(cs: Calls, file: Content, steps: seq<Step>, n: nat, c: nat, text: string)
    requires n <= |steps| && ResultOf(PhaseOf(At(cs, file, steps, n), c)) == Some(Changed(text))
    ensures exists k | 0 <= k < n :: UpdatesAt(cs, file, steps, k, c, text)
    decreases n
  {
    NothingAtFirst(cs, file, steps, c);
    if n > 0 {
      AtStep(cs, file, steps, n - 1);
      ResultKept(cs, At(cs, file, steps, n - 1), steps[n - 1], c);
      if ResultOf(PhaseOf(At(cs, file, steps, n - 1), c)) == Some(Changed(text)) {
        ChangedMeansUpdated(cs, file, steps, n - 1, c, text);
      } else {
        StagedUpdates(cs, file, steps, n - 1);
      }
    }
  }

  lemma {:induction false} CommitsStay(cs: Calls, file: Content, steps: seq<Step>, k: nat, n: nat, c: nat)
    requires k <= n <= |steps| && c in At(cs, file, steps, k).committed
    ensures c in At(cs, file, steps, n).committed
    decreases n
  {
    if k < n {
      CommitsStay(cs, file, steps, k, n - 1, c);
      AtStep(cs, file, steps, n - 1);
    }
  }

  /** A finished call says exactly what it did to the file: it updated it, with the text it reports, or no
      step of the run was an update of its. */
  lemma FinishedSaysWhatItDid(cs: Calls, file: Content, steps: seq<Step>, c: nat)
    requires PhaseOf(Run(cs, file, steps), c).Finished?
    ensures var result := PhaseOf(Run(cs, file, steps), c).result;
            && (result.Changed? ==> exists k | 0 <= k < |steps| :: UpdatesAt(cs, file, steps, k, c, result.text))
            && (!result.Changed? ==> forall k, text | 0 <= k < |steps| :: !UpdatesAt(cs, file, steps, k, c, text))
  {
    var n, result := |steps|, PhaseOf(Run(cs, file, steps), c).result;
    assert steps[..n] == steps;
    ReportsAreSerial(cs, file, steps, c);
    if result.Changed? {
      ChangedMeansUpdated(cs, file, steps, n, c, result.text);
    } else if k, text :| 0 <= k < n && UpdatesAt(cs, file, steps, k, c, text) {
      CommitsStay(cs, file, steps, k + 1, n, c);
    }
  }

  // ---- updates that add to the document -----------------------------------------------------

  /** The marks of the committed calls, in the order given. */
  function Marks(mark: nat -> string, order: seq<nat>, committed: set<nat>): string {
    if order == [] then ""
    else
      var n := |order| - 1;
      Marks(mark, order[..n], committed) + (if order[n] in committed then mark(order[n]) else "")
  }

  lemma {:induction false} SerialMarks(cs: Calls, t: string, mark: nat -> string, order: seq<nat>, committed: set<nat>)
    requires forall c, d :: cs.op(c, d) == NewDoc(d + mark(c))
    ensures Serial(cs, Doc(t), order, committed) == Doc(t + Marks(mark, order, committed))
  {
    if order != [] {
      var n := |order| - 1;
      SerialMarks(cs, t, mark, order[..n], committed);
      var before := Marks(mark, order[..n], committed);
      assert t + before + mark(order[n]) == t + (before + mark(order[n]));
    }
  }

  /** If every call adds its mark to the document, then the file is always the document it was at first,
      followed by the marks of the calls that replaced it, in the order in which they took the lock:
      whatever the interleaving, no mark and no part of the document is ever lost. */
  lemma MarksAreKept(cs: Calls, t: string, mark: nat -> string, steps: seq<Step>)
    requires forall c, d :: cs.op(c, d) == NewDoc(d + mark(c))
    ensures var w := Run(cs, Doc(t), steps); w.file == Doc(t + Marks(mark, w.order, w.committed))
  {
    var w := Run(cs, Doc(t), steps);
    NoLostUpdates(cs, Doc(t), steps);
    SerialMarks(cs, t, mark, w.order, w.committed);
  }

  // ---- calls that go through ------------------------------------------------------------------

  /** Everything one undisturbed call does. */
  function Undisturbed(c: nat): seq<Step> {
    [TakeThreadLock(c), TakeFileLock(c), Load(c), Mutate(c), WriteTemp(c), Replace(c), ReleaseFile(c), ReleaseThread(c)]
  }

  lemma RunSteps(cs: Calls, file: Content, steps: seq<Step>, s: Step)
    ensures Run(cs, file, steps + [s]) == Next(cs, Run(cs, file, steps), s)
  {
    assert (steps + [s])[..|steps|] == steps;
  }

  /** While nobody holds the locks, a call that is not disturbed comes to its end: it replaces the file by
      what its mutator makes of it, leaves it alone if the mutator returns nothing, or passes on what the
      mutator raises; and then both locks are free again. */
  lemma UndisturbedCompletes(cs: Calls, file: Content, steps: seq<Step>, c: nat)
    requires var w := Run(cs, file, steps); PhaseOf(w, c).Ready? && w.fileLock.Free? && cs.pid(c) !in w.threadLocks
    ensures var w, v := Run(cs, file, steps), Run(cs, file, steps + Undisturbed(c));
            && v.fileLock.Free? && v.threadLocks == w.threadLocks
            && match cs.op(c, if w.file.Doc? then w.file.text else "{}")
               case NewDoc(text) => PhaseOf(v, c) == Finished(Changed(text)) && v.file == Doc(text)
               case NoChange => PhaseOf(v, c) == Finished(Untouched) && v.file == w.file
               case Raises => PhaseOf(v, c) == Finished(Error) && v.file == w.file
  {
    var w := Run(cs, file, steps);
    RunUndisturbed(cs, file, steps, c);
    LoadedAndMutated(cs, w, c);
    WroteAndLeft(cs, AfterMutate(cs, w, c), c, w);
  }

  function AfterMutate(cs: Calls, w: World, c: nat): World {
    Next(cs, Next(cs, Next(cs, Next(cs, w, TakeThreadLock(c)), TakeFileLock(c)), Load(c)), Mutate(c))
  }

  function AfterRelease(cs: Calls, w: World, c: nat): World {
    Next(cs, Next(cs, Next(cs, Next(cs, w, WriteTemp(c)), Replace(c)), ReleaseFile(c)), ReleaseThread(c))
  }

  lemma RunUndisturbed(cs: Calls, file: Content, steps: seq<Step>, c: nat)
    ensures Run(cs, file, steps + Undisturbed(c)) == AfterRelease(cs, AfterMutate(cs, Run(cs, file, steps), c), c)
  {
    var s1 := steps + [TakeThreadLock(c)];
    var s2 := s1 + [TakeFileLock(c)];
    var s3 := s2 + [Load(c)];
    var s4 := s3 + [Mutate(c)];
    var s5 := s4 + [WriteTemp(c)];
    var s6 := s5 + [Replace(c)];
    var s7 := s6 + [ReleaseFile(c)];
    assert steps + Undisturbed(c) == s7 + [ReleaseThread(c)];
    RunSteps(cs, file, steps, TakeThreadLock(c));
    RunSteps(cs, file, s1, TakeFileLock(c));
    RunSteps(cs, file, s2, Load(c));
    RunSteps(cs, file, s3, Mutate(c));
    RunSteps(cs, file, s4, WriteTemp(c));
    RunSteps(cs, file, s5, Replace(c));
    RunSteps(cs, file, s6, ReleaseFile(c));
    RunSteps(cs, file, s7, ReleaseThread(c));
  }

  lemma LoadedAndMutated(cs: Calls, w: World, c: nat)
    requires PhaseOf(w, c).Ready? && w.fileLock.Free? && cs.pid(c) !in w.threadLocks
    ensures var v := AfterMutate(cs, w, c);
            && v.file == w.file && v.fileLock == HeldBy(c) && v.threadLocks == w.threadLocks[cs.pid(c) := c]
            && match cs.op(c, if w.file.Doc? then w.file.text else "{}")
               case NewDoc(text) => PhaseOf(v, c) == Dumping(text)
               case NoChange => PhaseOf(v, c) == Leaving(Untouched)
               case Raises => PhaseOf(v, c) == Leaving(Error)
  {
  }

  lemma WroteAndLeft(cs: Calls, w: World, c: nat, before: World)
    requires w.fileLock == HeldBy(c) && w.threadLocks == before.threadLocks[cs.pid(c) := c]
    requires cs.pid(c) !in before.threadLocks && (PhaseOf(w, c).Dumping? || PhaseOf(w, c).Leaving?)
    ensures var v := AfterRelease(cs, w, c);
            && v.fileLock.Free? && v.threadLocks == before.threadLocks
            && match PhaseOf(w, c)
               case Dumping(text) => PhaseOf(v, c) == Finished(Changed(text)) && v.file == Doc(text)
               case Leaving(result) => PhaseOf(v, c) == Finished(result) && v.file == w.file
               case _ => true
  {
  }
}
