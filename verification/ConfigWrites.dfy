/** `update_config` (jiuwenswarm/common/config.py) as a protocol: any number of calls in any number
    of processes interleave their lock, load, mutate, dump and unlock steps, and may time out, fail
    or die with their process at any point. */
module ConfigWrites {
  import opened PyList

  /** The file parses to nothing or to a document. */
  datatype Content = Null | Doc(text: string)

  /** What a mutator does with the loaded document. */
  datatype Outcome = NewDoc(text: string) | NoChange | Raises

  datatype Result = Changed(text: string) | Untouched | Error

  datatype Phase =
    | Ready                  // before the in-process lock
    | Waiting                // holds the in-process lock
    | Entered                // holds both locks
    | Loaded(data: string)
    | Dumping(text: string)
    | Staged(text: string)   // temporary file written
    | Leaving(result: Result)
    | Unlocked(result: Result) // file lock released
    | Finished(result: Result)
    | Dead

  /** The calls, their processes and their mutators. */
  datatype Calls = Calls(pid: nat -> nat, op: (nat, string) -> Outcome)

  datatype Holder = Free | HeldBy(call: nat)

  datatype World = World(
    file: Content,
    fileLock: Holder,
    threadLocks: map<nat, nat>,
    phases: map<nat, Phase>,
    temps: set<nat>,
    /** Calls in the order in which they acquired the file lock. */
    order: seq<nat>,
    /** Calls whose document replaced the file. */
    committed: set<nat>)

  datatype Step =
    | TakeThreadLock(call: nat)
    | ThreadTimeout(call: nat)
    | TakeFileLock(call: nat)
    | FileTimeout(call: nat)
    | Load(call: nat)
    | LoadFails(call: nat)
    | Mutate(call: nat)
    | WriteTemp(call: nat)
    | DumpFails(call: nat)
    | Replace(call: nat)
    | ReleaseFile(call: nat)
    | ReleaseThread(call: nat)
    | Crash(process: nat)

  function PhaseOf(w: World, c: nat): Phase { if c in w.phases then w.phases[c] else Ready }

  function Move(w: World, c: nat, p: Phase): World { w.(phases := w.phases[c := p]) }

  predicate HoldsFile(p: Phase) {
    p.Entered? || p.Loaded? || p.Dumping? || p.Staged? || p.Leaving?
  }

  predicate HoldsThread(p: Phase) { HoldsFile(p) || p.Waiting? || p.Unlocked? }

  /** What `load_yaml_round_trip` and the `data is None` test hand to the mutator. */
  function LoadedText(c: Content): string { if c.Doc? then c.text else "{}" }

  function WithoutKey(m: map<nat, nat>, k: nat): map<nat, nat> { map x | x in m && x != k :: m[x] }

  function Next(cs: Calls, w: World, s: Step): World {
    match s
    case TakeThreadLock(c) =>
      if PhaseOf(w, c).Ready? && cs.pid(c) !in w.threadLocks
      then Move(w, c, Waiting).(threadLocks := w.threadLocks[cs.pid(c) := c]) else w
    case ThreadTimeout(c) => if PhaseOf(w, c).Ready? then Move(w, c, Finished(Error)) else w
    case TakeFileLock(c) =>
      if PhaseOf(w, c).Waiting? && w.fileLock.Free?
      then Move(w, c, Entered).(fileLock := HeldBy(c), order := w.order + [c]) else w
    case FileTimeout(c) => if PhaseOf(w, c).Waiting? then Move(w, c, Unlocked(Error)) else w
    case Load(c) => if PhaseOf(w, c).Entered? then Move(w, c, Loaded(LoadedText(w.file))) else w
    case LoadFails(c) => if PhaseOf(w, c).Entered? then Move(w, c, Leaving(Error)) else w
    case Mutate(c) =>
      if !PhaseOf(w, c).Loaded? then w
      else
        (match cs.op(c, PhaseOf(w, c).data)
         case NewDoc(text) => Move(w, c, Dumping(text))
         case NoChange => Move(w, c, Leaving(Untouched))
         case Raises => Move(w, c, Leaving(Error)))
    case WriteTemp(c) =>
      if PhaseOf(w, c).Dumping?
      then Move(w, c, Staged(PhaseOf(w, c).text)).(temps := w.temps + {c}) else w
    case DumpFails(c) =>
      if PhaseOf(w, c).Dumping? || PhaseOf(w, c).Staged?
      then Move(w, c, Leaving(Error)).(temps := w.temps - {c}) else w
    case Replace(c) =>
      if PhaseOf(w, c).Staged?
      then Move(w, c, Leaving(Changed(PhaseOf(w, c).text))).(
             file := Doc(PhaseOf(w, c).text), temps := w.temps - {c}, committed := w.committed + {c})
      else w
    case ReleaseFile(c) =>
      if PhaseOf(w, c).Leaving? then Move(w, c, Unlocked(PhaseOf(w, c).result)).(fileLock := Free) else w
    case ReleaseThread(c) =>
      if PhaseOf(w, c).Unlocked?
      then Move(w, c, Finished(PhaseOf(w, c).result)).(threadLocks := WithoutKey(w.threadLocks, cs.pid(c))) else w
    case Crash(p) =>
      w.(phases := map c | c in w.phases :: if cs.pid(c) == p && !w.phases[c].Finished? then Dead else w.phases[c],
         fileLock := if w.fileLock.HeldBy? && cs.pid(w.fileLock.call) == p then Free else w.fileLock,
         threadLocks := WithoutKey(w.threadLocks, p))
  }

  function Run(cs: Calls, file: Content, steps: seq<Step>): World {
    if steps == [] then World(file, Free, map[], map[], {}, [], {})
    else Next(cs, Run(cs, file, steps[..|steps| - 1]), steps[|steps| - 1])
  }

  // ---- the serial reference -----------------------------------------------------------------

  /** One successful call on its own. */
  function ApplyOne(cs: Calls, c: nat, file: Content): Content {
    match cs.op(c, LoadedText(file))
    case NewDoc(text) => Doc(text)
    case _ => file
  }

  /** The committed calls of `order`, one after another. */
  function Serial(cs: Calls, file: Content, order: seq<nat>, committed: set<nat>): Content {
    if order == [] then file
    else
      var before := Serial(cs, file, order[..|order| - 1], committed);
      var c := order[|order| - 1];
      if c in committed then ApplyOne(cs, c, before) else before
  }

  /** The content a call that ran alone at its place in the order would have found. */
  ghost predicate FoundAt(cs: Calls, file: Content, w: World, c: nat, found: Content) {
    exists i | 0 <= i < |w.order| :: w.order[i] == c && Serial(cs, file, w.order[..i], w.committed) == found
  }

  /** A call reports a change exactly when its document replaced the file; then it found what its
      predecessors left and wrote what its mutator made of it. */
  ghost predicate Faithful(cs: Calls, file: Content, w: World, c: nat, result: Result) {
    && (result.Changed? <==> c in w.committed)
    && (result.Changed? ==>
      exists found :: FoundAt(cs, file, w, c, found) && cs.op(c, LoadedText(found)) == NewDoc(result.text))
  }

  // ---- the invariant ------------------------------------------------------------------------

  ghost predicate PhaseInv(cs: Calls, file: Content, w: World, c: nat)
    requires c in w.phases
  {
    var p := w.phases[c];
    && (HoldsFile(p) <==> w.fileLock == HeldBy(c))
    && (HoldsThread(p) <==> cs.pid(c) in w.threadLocks && w.threadLocks[cs.pid(c)] == c)
    && (p.Ready? || p.Waiting? ==> c !in w.order)
    && (HoldsFile(p) ==> w.order != [] && w.order[|w.order| - 1] == c)
    && (p.Entered? || p.Loaded? || p.Dumping? || p.Staged? ==> c !in w.committed)
    && (p.Loaded? ==> p.data == LoadedText(w.file))
    && (p.Dumping? || p.Staged? ==> cs.op(c, LoadedText(w.file)) == NewDoc(p.text))
    && (p.Leaving? || p.Unlocked? || p.Finished? ==> Faithful(cs, file, w, c, p.result))
    && (c in w.temps ==> p.Staged? || p.Dead?)
  }

  ghost predicate Inv(cs: Calls, file: Content, w: World) {
    && Distinct(w.order)
    && (forall i | 0 <= i < |w.order| :: w.order[i] in w.phases)
    && (forall c | c in w.committed :: c in w.order)
    && (forall c | c in w.temps :: c in w.phases)
    && (w.fileLock.HeldBy? ==> w.fileLock.call in w.phases)
    && (forall p | p in w.threadLocks :: w.threadLocks[p] in w.phases && cs.pid(w.threadLocks[p]) == p)
    && w.file == Serial(cs, file, w.order, w.committed)
    && forall c | c in w.phases :: PhaseInv(cs, file, w, c)
  }

  lemma {:induction false} SerialIgnores(cs: Calls, file: Content, order: seq<nat>, committed: set<nat>, c: nat)
    requires c !in order
    ensures Serial(cs, file, order, committed) == Serial(cs, file, order, committed + {c})
  {
    if order != [] {
      assert order[|order| - 1] != c;
      SerialIgnores(cs, file, order[..|order| - 1], committed, c);
    }
  }

  /** What a finished call did is not affected by what later calls do. */
  lemma FaithfulStays(cs: Calls, file: Content, w: World, v: World, c: nat, result: Result)
    requires Faithful(cs, file, w, c, result) && w.order <= v.order && Distinct(v.order)
    requires w.committed <= v.committed
    requires forall d | d in v.committed && d !in w.committed :: v.order != [] && d == v.order[|v.order| - 1] && d != c
    ensures Faithful(cs, file, v, c, result)
  {
    if result.Changed? {
      var found :| FoundAt(cs, file, w, c, found) && cs.op(c, LoadedText(found)) == NewDoc(result.text);
      var i :| 0 <= i < |w.order| && w.order[i] == c && Serial(cs, file, w.order[..i], w.committed) == found;
      assert v.order[i] == c && v.order[..i] == w.order[..i];
      if v.committed != w.committed {
        var d :| d in v.committed && d !in w.committed;
        assert v.committed == w.committed + {d};
        assert d !in v.order[..i];
        SerialIgnores(cs, file, v.order[..i], w.committed, d);
      }
      assert FoundAt(cs, file, v, c, found);
    }
  }

  /** Steps that leave file, order and commits alone keep every other call's invariant. */
  lemma OtherCalls(cs: Calls, file: Content, w: World, v: World, me: nat)
    requires Inv(cs, file, w)
    requires w.order <= v.order && Distinct(v.order) && w.committed <= v.committed
    requires forall d | d in v.committed && d !in w.committed :: v.order != [] && d == v.order[|v.order| - 1] == me
    requires v.phases.Keys == w.phases.Keys + {me}
    requires forall c | c in w.phases && c != me :: v.phases[c] == w.phases[c]
    requires forall c | c != me :: (c in v.temps <==> c in w.temps)
    requires v.file == w.file || w.fileLock == HeldBy(me)
    requires v.order == w.order || (v.order == w.order + [me] && w.fileLock.Free?)
    requires v.fileLock == w.fileLock || (v.fileLock == HeldBy(me) && w.fileLock.Free?)
             || (v.fileLock.Free? && w.fileLock == HeldBy(me))
    requires forall c | c in w.phases && c != me ::
               (cs.pid(c) in v.threadLocks && v.threadLocks[cs.pid(c)] == c <==>
                cs.pid(c) in w.threadLocks && w.threadLocks[cs.pid(c)] == c)
    ensures forall c | c in w.phases && c != me :: PhaseInv(cs, file, v, c)
  {
    forall c | c in w.phases && c != me
      ensures PhaseInv(cs, file, v, c)
    {
      var p := w.phases[c];
      assert PhaseInv(cs, file, w, c);
      if p.Leaving? || p.Unlocked? || p.Finished? {
        FaithfulStays(cs, file, w, v, c, p.result);
      }
    }
  }

  lemma ReplaceKeepsInv(cs: Calls, file: Content, w: World, c: nat)
    requires Inv(cs, file, w) && PhaseOf(w, c).Staged?
    ensures Inv(cs, file, Next(cs, w, Replace(c)))
  {
    var v := Next(cs, w, Replace(c));
    assert PhaseInv(cs, file, w, c);
    ReplaceIsFaithful(cs, file, w, v, c, w.phases[c].text);
    assert PhaseInv(cs, file, v, c);
    OtherCalls(cs, file, w, v, c);
  }

  /** The last call in the order takes effect on what its predecessors left. */
  lemma ReplaceIsFaithful(cs: Calls, file: Content, w: World, v: World, c: nat, text: string)
    requires Distinct(w.order) && w.order != [] && w.order[|w.order| - 1] == c && c !in w.committed
    requires w.file == Serial(cs, file, w.order, w.committed) && cs.op(c, LoadedText(w.file)) == NewDoc(text)
    requires v.order == w.order && v.committed == w.committed + {c}
    ensures Serial(cs, file, v.order, v.committed) == Doc(text) && Faithful(cs, file, v, c, Changed(text))
  {
    var n := |w.order| - 1;
    assert c !in w.order[..n];
    SerialIgnores(cs, file, w.order[..n], w.committed, c);
    assert w.file == Serial(cs, file, w.order[..n], w.committed);
    assert FoundAt(cs, file, v, c, w.file);
  }

  lemma EnterKeepsInv(cs: Calls, file: Content, w: World, c: nat)
    requires Inv(cs, file, w) && PhaseOf(w, c).Waiting? && w.fileLock.Free?
    ensures Inv(cs, file, Next(cs, w, TakeFileLock(c)))
  {
    var v := Next(cs, w, TakeFileLock(c));
    assert PhaseInv(cs, file, w, c);
    EnterAtTheEnd(cs, file, w.order, w.committed, c);
    assert PhaseInv(cs, file, v, c);
    OtherCalls(cs, file, w, v, c);
  }

  /** A call that enters is last in the order, and as yet has no effect. */
  lemma EnterAtTheEnd(cs: Calls, file: Content, order: seq<nat>, committed: set<nat>, c: nat)
    requires Distinct(order) && c !in order && c !in committed
    ensures Distinct(order + [c])
    ensures Serial(cs, file, order + [c], committed) == Serial(cs, file, order, committed)
  {
    assert (order + [c])[..|order|] == order;
  }

  lemma CrashKeepsInv(cs: Calls, file: Content, w: World, p: nat)
    requires Inv(cs, file, w)
    ensures Inv(cs, file, Next(cs, w, Crash(p)))
  {
    var v := Next(cs, w, Crash(p));
    forall c | c in v.phases
      ensures PhaseInv(cs, file, v, c)
    {
      assert PhaseInv(cs, file, w, c);
      var q := w.phases[c];
      if q.Leaving? || q.Unlocked? || q.Finished? {
        FaithfulStays(cs, file, w, v, c, q.result);
      }
    }
  }

  /** A step of call `me` that touches neither file, order nor commits. */
  lemma PrivateStep(cs: Calls, file: Content, w: World, v: World, me: nat)
    requires Inv(cs, file, w)
    requires v.file == w.file && v.order == w.order && v.committed == w.committed
    requires v.phases.Keys == w.phases.Keys + {me}
    requires forall c | c in w.phases && c != me :: v.phases[c] == w.phases[c]
    requires v.temps == w.temps || v.temps == w.temps + {me} || v.temps == w.temps - {me}
    requires v.fileLock == w.fileLock || (v.fileLock.Free? && w.fileLock == HeldBy(me))
    requires v.threadLocks == w.threadLocks
             || (cs.pid(me) !in w.threadLocks && v.threadLocks == w.threadLocks[cs.pid(me) := me])
             || (cs.pid(me) in w.threadLocks && w.threadLocks[cs.pid(me)] == me
                 && v.threadLocks == WithoutKey(w.threadLocks, cs.pid(me)))
    requires PhaseInv(cs, file, v, me)
    ensures Inv(cs, file, v)
  {
    OtherCalls(cs, file, w, v, me);
  }

  lemma TakeThreadLockKeepsInv(cs: Calls, file: Content, w: World, c: nat)
    requires Inv(cs, file, w)
    ensures Inv(cs, file, Next(cs, w, TakeThreadLock(c)))
  {
    var v := Next(cs, w, TakeThreadLock(c));
    assert c in w.phases ==> PhaseInv(cs, file, w, c);
    if v != w {
      assert PhaseInv(cs, file, v, c);
      PrivateStep(cs, file, w, v, c);
    }
  }

  lemma TimeoutKeepsInv(cs: Calls, file: Content, w: World, s: Step)
    requires Inv(cs, file, w)
    requires s.ThreadTimeout? || s.FileTimeout?
    ensures Inv(cs, file, Next(cs, w, s))
  {
    var c, v := s.call, Next(cs, w, s);
    assert c in w.phases ==> PhaseInv(cs, file, w, c);
    if v != w {
      assert PhaseInv(cs, file, v, c);
      PrivateStep(cs, file, w, v, c);
    }
  }

  lemma ReleaseKeepsInv(cs: Calls, file: Content, w: World, s: Step)
    requires Inv(cs, file, w)
    requires s.ReleaseFile? || s.ReleaseThread?
    ensures Inv(cs, file, Next(cs, w, s))
  {
    var c, v := s.call, Next(cs, w, s);
    if c in w.phases && v != w {
      assert PhaseInv(cs, file, w, c);
      FaithfulStays(cs, file, w, v, c, w.phases[c].result);
      assert PhaseInv(cs, file, v, c);
      PrivateStep(cs, file, w, v, c);
    }
  }

  lemma LoadKeepsInv(cs: Calls, file: Content, w: World, c: nat)
    requires Inv(cs, file, w)
    ensures Inv(cs, file, Next(cs, w, Load(c)))
  {
    var v := Next(cs, w, Load(c));
    if c in w.phases && v != w {
      assert PhaseInv(cs, file, w, c);
      assert PhaseInv(cs, file, v, c);
      PrivateStep(cs, file, w, v, c);
    }
  }

  lemma LoadFailsKeepsInv(cs: Calls, file: Content, w: World, c: nat)
    requires Inv(cs, file, w)
    ensures Inv(cs, file, Next(cs, w, LoadFails(c)))
  {
    var v := Next(cs, w, LoadFails(c));
    if c in w.phases && v != w {
      assert PhaseInv(cs, file, w, c);
      assert PhaseInv(cs, file, v, c);
      PrivateStep(cs, file, w, v, c);
    }
  }

  lemma MutateKeepsInv(cs: Calls, file: Content, w: World, c: nat)
    requires Inv(cs, file, w)
    ensures Inv(cs, file, Next(cs, w, Mutate(c)))
  {
    var v := Next(cs, w, Mutate(c));
    if c in w.phases && v != w {
      assert PhaseInv(cs, file, w, c);
      assert PhaseInv(cs, file, v, c);
      PrivateStep(cs, file, w, v, c);
    }
  }

  lemma WriteTempKeepsInv(cs: Calls, file: Content, w: World, c: nat)
    requires Inv(cs, file, w)
    ensures Inv(cs, file, Next(cs, w, WriteTemp(c)))
  {
    var v := Next(cs, w, WriteTemp(c));
    if c in w.phases && v != w {
      assert PhaseInv(cs, file, w, c);
      assert PhaseInv(cs, file, v, c);
      PrivateStep(cs, file, w, v, c);
    }
  }

  lemma DumpFailsKeepsInv(cs: Calls, file: Content, w: World, c: nat)
    requires Inv(cs, file, w)
    ensures Inv(cs, file, Next(cs, w, DumpFails(c)))
  {
    var v := Next(cs, w, DumpFails(c));
    if c in w.phases && v != w {
      assert PhaseInv(cs, file, w, c);
      assert PhaseInv(cs, file, v, c);
      PrivateStep(cs, file, w, v, c);
    }
  }

  lemma StepKeepsInv(cs: Calls, file: Content, w: World, s: Step)
    requires Inv(cs, file, w)
    ensures Inv(cs, file, Next(cs, w, s))
  {
    match s
    case Crash(p) => CrashKeepsInv(cs, file, w, p);
    case Replace(c) => if PhaseOf(w, c).Staged? { ReplaceKeepsInv(cs, file, w, c); }
    case TakeFileLock(c) =>
      if PhaseOf(w, c).Waiting? && w.fileLock.Free? {
        EnterKeepsInv(cs, file, w, c);
      }
    case Load(c) => LoadKeepsInv(cs, file, w, c);
    case LoadFails(c) => LoadFailsKeepsInv(cs, file, w, c);
    case Mutate(c) => MutateKeepsInv(cs, file, w, c);
    case WriteTemp(c) => WriteTempKeepsInv(cs, file, w, c);
    case DumpFails(c) => DumpFailsKeepsInv(cs, file, w, c);
    case ReleaseFile(_) => ReleaseKeepsInv(cs, file, w, s);
    case ReleaseThread(_) => ReleaseKeepsInv(cs, file, w, s);
    case TakeThreadLock(c) => TakeThreadLockKeepsInv(cs, file, w, c);
    case _ => TimeoutKeepsInv(cs, file, w, s);
  }

  lemma {:induction false} RunKeepsInv(cs: Calls, file: Content, steps: seq<Step>)
    ensures Inv(cs, file, Run(cs, file, steps))
  {
    if steps != [] {
      RunKeepsInv(cs, file, steps[..|steps| - 1]);
      StepKeepsInv(cs, file, Run(cs, file, steps[..|steps| - 1]), steps[|steps| - 1]);
    }
  }

  // ---- results ------------------------------------------------------------------------------

  /** No lost updates: whatever the interleaving, timeouts, failures and crashes, the file is what
      the calls that replaced it would have produced one after another, in the order in which they
      acquired the lock. */
  lemma NoLostUpdates(cs: Calls, file: Content, steps: seq<Step>)
    ensures var w := Run(cs, file, steps);
            && w.file == Serial(cs, file, w.order, w.committed)
            && Distinct(w.order) && forall c | c in w.committed :: c in w.order
  {
    RunKeepsInv(cs, file, steps);
  }

  /** A finished call changed the file exactly if it says so (a timeout, an error or a mutator that
      returned nothing left no trace). Then it found exactly what the calls before it in lock order
      left, and what it reports is what its mutator made of that. */
  lemma ReportsAreSerial(cs: Calls, file: Content, steps: seq<Step>, c: nat)
    requires PhaseOf(Run(cs, file, steps), c).Finished?
    ensures var w := Run(cs, file, steps);
            Faithful(cs, file, w, c, w.phases[c].result)
  {
    RunKeepsInv(cs, file, steps);
    assert PhaseInv(cs, file, Run(cs, file, steps), c);
  }

  /** At most one call is inside the critical section, and at most one per process holds the
      in-process lock. */
  lemma MutualExclusion(cs: Calls, file: Content, steps: seq<Step>, a: nat, b: nat)
    ensures var w := Run(cs, file, steps);
            && (HoldsFile(PhaseOf(w, a)) && HoldsFile(PhaseOf(w, b)) ==> a == b)
            && (HoldsThread(PhaseOf(w, a)) && HoldsThread(PhaseOf(w, b)) && cs.pid(a) == cs.pid(b) ==> a == b)
  {
    var w := Run(cs, file, steps);
    RunKeepsInv(cs, file, steps);
    assert a in w.phases ==> PhaseInv(cs, file, w, a);
    assert b in w.phases ==> PhaseInv(cs, file, w, b);
  }

  ghost predicate AllSettled(w: World) {
    forall c | c in w.phases :: w.phases[c].Finished? || w.phases[c].Dead?
  }

  /** Once every call has finished or died, both locks are free and the only temporary files left
      are those of calls whose process crashed. */
  lemma NothingLeftBehind(cs: Calls, file: Content, steps: seq<Step>)
    requires AllSettled(Run(cs, file, steps))
    ensures var w := Run(cs, file, steps);
            && w.fileLock.Free? && w.threadLocks == map[]
            && forall c | c in w.temps :: PhaseOf(w, c).Dead?
  {
    var w := Run(cs, file, steps);
    RunKeepsInv(cs, file, steps);
    forall c | c in w.phases
      ensures w.fileLock != HeldBy(c) && (c in w.temps ==> w.phases[c].Dead?)
    {
      assert w.phases[c].Finished? || w.phases[c].Dead?;
      assert PhaseInv(cs, file, w, c);
    }
    assert forall c | c in w.phases :: PhaseInv(cs, file, w, c);
    assert w.threadLocks.Keys == {};
  }
}
