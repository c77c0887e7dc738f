/** Which review a packaged paper comes from (tyche/pipeline.py, `stage_review` and
    `stage_package`). */
module Packaging {
  import opened ArtifactNames
  import opened Artifacts
  import opened Options
  import opened TreeDigest

  /** What one review execution ends with: its texts, the gate results, and the compiled paper with
      its sources if the best round compiled. */
  datatype Outputs = Outputs(paper: string, ledger: string, rounds: string, gates: string,
                             compiled: Option<Compiled>, scores: Option<string>)

  datatype Compiled = Compiled(pdf: string, source: Listing)

  /** The record ids a review leaves for packaging. */
  datatype Pins = Pins(gates: string, pdf: Option<string>, source: Option<string>)

  /** What becomes of one step: it runs, an exception ends the stage, or the process dies in it. */
  datatype Fate = GoesOn | Raises | Dies(left: Option<Blob>)

  /** The package directory. */
  datatype Package = Package(source: Option<Listing>, paper: Option<string>, unverified: Option<string>,
                             ledger: Option<string>, gates: Option<string>)

  const NOTHING := Package(None, None, None, None, None)

  datatype Result = Released(verified: bool) | NoGates | NotCompiled | GatesFailed | NotRecompiled

  const STATEMENT := ["sections", "ai_statement.tex"]

  /** By-products of compilation, removed from the sources of an unverified paper. */
  predicate Leftover(path: seq<string>) {
    && |path| == 1 && |path[0]| >= 5 && path[0][..5] == "main."
    && path[0][|path[0]| - 4..] != ".tex"
  }

  function Cleaned(source: Listing): Listing { map p | p in source && !Leftover(p) :: source[p] }

  // ---- what stays readable ----------------------------------------------------------------

  /** Looking the id up finds these bytes. */
  ghost predicate Holds(disk: Disk, id: string, blob: Blob) {
    var r := RecordOf(disk.records, id);
    r.Some? && r.value.path in disk.files && disk.files[r.value.path] == blob
  }

  /** The latest version of the name is these bytes. */
  ghost predicate LatestIs(disk: Disk, name: string, blob: Blob) {
    var r := LatestOf(disk.records, name);
    r.Some? && r.value.path in disk.files && disk.files[r.value.path] == blob
  }

  ghost predicate PinsHold(disk: Disk, pins: Pins, outputs: Outputs) {
    && Holds(disk, pins.gates, File(outputs.gates))
    && (pins.pdf.Some? <==> outputs.compiled.Some?)
    && (pins.source.Some? <==> outputs.compiled.Some?)
    && (outputs.compiled.Some? ==>
          && Holds(disk, pins.pdf.value, File(outputs.compiled.value.pdf))
          && Holds(disk, pins.source.value, Tree(Copied(outputs.compiled.value.source))))
  }

  /** From `disk` to `disk'`: nothing recorded changed, and no latest version but that of `name`. */
  ghost predicate OnlyAdds(disk: Disk, disk': Disk, name: string) {
    && Extends(disk, disk')
    && forall other | other != name :: LatestOf(disk'.records, other) == LatestOf(disk.records, other)
  }

  lemma {:induction false} FoundForever(records: seq<Record>, records': seq<Record>, id: string)
    requires records <= records' && RecordOf(records, id).Some?
    ensures RecordOf(records', id) == RecordOf(records, id) && RecordOf(records, id).value in records
  {
    assert records[0] == records'[0];
    if records[0].id != id {
      assert records[1..] <= records'[1..];
      FoundForever(records[1..], records'[1..], id);
    }
  }

  lemma HoldsForever(disk: Disk, disk': Disk, id: string, blob: Blob)
    requires Extends(disk, disk') && Holds(disk, id, blob)
    ensures Holds(disk', id, blob)
  {
    FoundForever(disk.records, disk'.records, id);
  }

  lemma PinsHoldForever(disk: Disk, disk': Disk, pins: Pins, outputs: Outputs)
    requires Extends(disk, disk') && PinsHold(disk, pins, outputs)
    ensures PinsHold(disk', pins, outputs)
  {
    HoldsForever(disk, disk', pins.gates, File(outputs.gates));
    if outputs.compiled.Some? {
      HoldsForever(disk, disk', pins.pdf.value, File(outputs.compiled.value.pdf));
      HoldsForever(disk, disk', pins.source.value, Tree(Copied(outputs.compiled.value.source)));
    }
  }

  /** No record has the empty id, which is what an absent pin is looked up as. */
  lemma {:induction false} EmptyIdIsUnknown(records: seq<Record>)
    requires forall r | r in records :: r.id != ""
    ensures RecordOf(records, "") == None
  {
    if records != [] {
      EmptyIdIsUnknown(records[1..]);
    }
  }

  lemma IdsAreNotEmpty(hash: Hash, disk: Disk)
    requires Sound(hash, disk)
    ensures RecordOf(disk.records, "") == None
  {
    forall k | 0 <= k < |disk.records|
      ensures disk.records[k].id != ""
    {
      assert SoundAt(hash, disk, k);
    }
    EmptyIdIsUnknown(disk.records);
  }

  /** The artifacts the review stage saves. No other stage saves any of them. */
  const OF_REVIEW := ["paper", "ledger", "review_rounds", "gates", "paper_pdf", "paper_source", "review_scores"]

  predicate OfReview(name: string) { name in OF_REVIEW }

  /** Of these the paper's sources are a directory, all others files. */
  predicate HoldsTree(name: string) { name == "paper_source" }

  ghost predicate KindsFit(files: map<string, Blob>) {
    forall name, version, suffix
      | OfReview(name) && NameOk(name) && SuffixOk(suffix) && PathOf(name, version, suffix) in files ::
      files[PathOf(name, version, suffix)].Tree? <==> HoldsTree(name)
  }

  /** What a dying save can leave: a partial version of the right kind, or nothing. */
  function Debris(payload: Payload, left: Option<Blob>): Option<Blob> {
    if left.Some? && (left.value.Tree? <==> payload.CopyTree?) then left else None
  }

  lemma KindsStillFit(files: map<string, Blob>, files': map<string, Blob>, name: string, version: nat, suffix: string)
    requires NameOk(name) && SuffixOk(suffix) && KindsFit(files)
    requires var path := PathOf(name, version, suffix);
             SameBut(files, files', path)
             && (OfReview(name) && path in files' ==> (files'[path].Tree? <==> HoldsTree(name)))
    ensures KindsFit(files')
  {
    forall other, v, s | OfReview(other) && NameOk(other) && SuffixOk(s) && PathOf(other, v, s) in files'
      ensures files'[PathOf(other, v, s)].Tree? <==> HoldsTree(other)
    {
      if PathOf(other, v, s) == PathOf(name, version, suffix) {
        PathIsInjective(other, v, s, name, version, suffix);
      }
    }
  }

  /** Where kinds fit, they fit after a save, and it can only fail by not going on. */
  lemma SaveFits(hash: Hash, disk: Disk, name: string, payload: Payload, crash: Crash)
    requires Sound(hash, disk) && NameOk(name) && SuffixOk(SuffixOf(payload)) && KindsFit(disk.files)
    requires OfReview(name) && (payload.CopyTree? <==> HoldsTree(name)) && Content(payload).Some?
    requires crash.Crash? ==> crash.left == Debris(payload, crash.left)
    ensures var (disk', saved) := SaveSpec(hash, disk, name, payload, REVIEW, crash);
            KindsFit(disk'.files) && (saved.Saved? <==> crash.NoCrash?)
  {
    SavedIsLatest(hash, disk, name, payload, REVIEW, crash);
    var (version, parent) := Next(disk.records, name, LatestOf(disk.records, name));
    var path := PathOf(name, version, SuffixOf(payload));
    WrittenElsewhereSame(disk.files, path, payload);
    assert path in disk.files ==> (disk.files[path].Tree? <==> HoldsTree(name));
    var disk' := SaveSpec(hash, disk, name, payload, REVIEW, crash).0;
    KindsStillFit(disk.files, disk'.files, name, version, SuffixOf(payload));
  }

  /** Whatever another stage saves, the kinds of the review's artifacts still fit. */
  lemma OtherSaveFits(hash: Hash, disk: Disk, name: string, payload: Payload, note: Note, crash: Crash)
    requires NameOk(name) && SuffixOk(SuffixOf(payload)) && KindsFit(disk.files) && !OfReview(name)
    ensures KindsFit(SaveSpec(hash, disk, name, payload, note, crash).0.files)
  {
    var (version, parent) := Next(disk.records, name, LatestOf(disk.records, name));
    WrittenElsewhereSame(disk.files, PathOf(name, version, SuffixOf(payload)), payload);
    var disk' := SaveSpec(hash, disk, name, payload, note, crash).0;
    KindsStillFit(disk.files, disk'.files, name, version, SuffixOf(payload));
  }

  // ---- the run ----------------------------------------------------------------------------

  /** One review execution: what it ends with, and what became of its steps. */
  datatype Execution = Execution(outputs: Outputs, fate: nat -> Fate)

  /** The pins are records of what that execution ended with. */
  ghost predicate PinsFit(disk: Disk, pins: Option<Pins>, pinned: Option<nat>, execs: seq<Execution>) {
    && (pins.Some? <==> pinned.Some?)
    && (pinned.Some? ==> pinned.value < |execs| && PinsHold(disk, pins.value, execs[pinned.value].outputs))
  }

  /** The latest findings ledger is that of that execution. */
  ghost predicate LedgerFits(disk: Disk, ledgered: Option<nat>, execs: seq<Execution>) {
    ledgered.Some? ==>
      ledgered.value < |execs| && LatestIs(disk, "ledger", File(execs[ledgered.value].outputs.ledger))
  }

  lemma HistoryGrows(disk: Disk, pins: Option<Pins>, pinned: Option<nat>, ledgered: Option<nat>,
                     execs: seq<Execution>, e: Execution)
    requires PinsFit(disk, pins, pinned, execs) && LedgerFits(disk, ledgered, execs)
    ensures PinsFit(disk, pins, pinned, execs + [e]) && LedgerFits(disk, ledgered, execs + [e])
  {
  }

  /** Whatever was the latest version of any name but these still is. */
  ghost predicate KeepsLatest(disk: Disk, disk': Disk, names: seq<string>) {
    forall other, blob | other !in names && LatestIs(disk, other, blob) :: LatestIs(disk', other, blob)
  }

  lemma AddingKeepsLatest(disk: Disk, disk': Disk, name: string)
    requires OnlyAdds(disk, disk', name)
    ensures KeepsLatest(disk, disk', [name])
  {
    forall other, blob | other !in [name] && LatestIs(disk, other, blob)
      ensures LatestIs(disk', other, blob)
    {
      assert other != name;
      LatestIsRecorded(disk.records, other);
    }
  }

  /** What a review leaves as the latest version of every name it saves. */
  ghost predicate TextsSaved(disk: Disk, outputs: Outputs) {
    && LatestIs(disk, "paper", File(outputs.paper)) && LatestIs(disk, "ledger", File(outputs.ledger))
    && LatestIs(disk, "review_rounds", File(outputs.rounds)) && LatestIs(disk, "gates", File(outputs.gates))
  }

  /** They are not touched by what a review saves after them. */
  lemma TextsStay(disk: Disk, disk': Disk, outputs: Outputs)
    requires TextsSaved(disk, outputs)
    requires KeepsLatest(disk, disk', ["paper_pdf", "paper_source"]) || KeepsLatest(disk, disk', ["review_scores"])
    ensures TextsSaved(disk', outputs)
  {
  }

  /** A save changes neither the pinned records nor, unless it saves one, the latest ledger. */
  lemma HistoryStays(hash: Hash, disk: Disk, name: string, payload: Payload, note: Note, crash: Crash,
                     pins: Option<Pins>, pinned: Option<nat>, ledgered: Option<nat>, execs: seq<Execution>)
    requires Sound(hash, disk) && NameOk(name) && SuffixOk(SuffixOf(payload))
    requires PinsFit(disk, pins, pinned, execs) && LedgerFits(disk, ledgered, execs)
    ensures var (disk', saved) := SaveSpec(hash, disk, name, payload, note, crash);
            && OnlyAdds(disk, disk', name) && KeepsLatest(disk, disk', [name]) && PinsFit(disk', pins, pinned, execs)
            && (name != "ledger" || !saved.Saved? ==> LedgerFits(disk', ledgered, execs))
  {
    var (disk', saved) := SaveSpec(hash, disk, name, payload, note, crash);
    SaveOnlyAdds(hash, disk, name, payload, note, crash);
    AddingKeepsLatest(disk, disk', name);
    if pinned.Some? {
      PinsHoldForever(disk, disk', pins.value, execs[pinned.value].outputs);
    }
    if ledgered.Some? {
      LedgerKept(disk, disk', name, saved.Saved?, File(execs[ledgered.value].outputs.ledger));
    }
  }

  lemma SaveOnlyAdds(hash: Hash, disk: Disk, name: string, payload: Payload, note: Note, crash: Crash)
    requires Sound(hash, disk) && NameOk(name) && SuffixOk(SuffixOf(payload))
    ensures var (disk', saved) := SaveSpec(hash, disk, name, payload, note, crash);
            && OnlyAdds(disk, disk', name)
            && (!saved.Saved? ==> LatestOf(disk'.records, name) == LatestOf(disk.records, name))
  {
    SaveIsSound(hash, disk, name, payload, note, crash);
    SavedIsLatest(hash, disk, name, payload, note, crash);
  }

  lemma SavedReadsBack(hash: Hash, disk: Disk, name: string, payload: Payload, note: Note, crash: Crash)
    requires Sound(hash, disk) && NameOk(name) && SuffixOk(SuffixOf(payload))
    requires SaveSpec(hash, disk, name, payload, note, crash).1.Saved?
    ensures var (disk', saved) := SaveSpec(hash, disk, name, payload, note, crash);
            && Content(payload).Some?
            && Holds(disk', saved.record.id, Content(payload).value) && LatestIs(disk', name, Content(payload).value)
  {
    SaveIsSound(hash, disk, name, payload, note, crash);
    SavedIsLatest(hash, disk, name, payload, note, crash);
    var disk' := SaveSpec(hash, disk, name, payload, note, crash).0;
    RecordFound(hash, disk', |disk'.records| - 1);
  }

  /** One run. For the proofs it remembers every review execution so far, the last of them that
      pinned its records, and the last whose findings ledger was recorded. */
  class Run {
    const ws: Workspace
    /** Whether a gates file says that the gates passed. */
    const saysPassed: string -> bool
    var pins: Option<Pins>
    var package: Package
    ghost var execs: seq<Execution>
    ghost var pinned: Option<nat>
    ghost var ledgered: Option<nat>

    ghost predicate Valid()
      reads this, ws
    {
      && Sound(ws.hash, ws.Contents()) && KindsFit(ws.files)
      && PinsFit(ws.Contents(), pins, pinned, execs) && LedgerFits(ws.Contents(), ledgered, execs)
      && (pinned.Some? ==> ledgered.Some? && pinned.value <= ledgered.value)
    }

    /** Between stages the pinned records and the latest ledger are those the history of executions
        says. */
    ghost predicate Settled()
      reads this, ws
    {
      Valid() && pinned == LastPinning(execs) && ledgered == LastLedgering(execs)
    }

    constructor (hash: Hash, saysPassed: string -> bool)
      ensures Settled() && fresh(ws) && this.saysPassed == saysPassed
      ensures execs == [] && pinned == None && ledgered == None && package == NOTHING
    {
      ws := new Workspace(hash);
      this.saysPassed := saysPassed;
      pins, package, execs, pinned, ledgered := None, NOTHING, [], None, None;
    }

    /** One save of the review stage. It goes through unless it is cut short, and adds at most one
        version, of that name, which then reads back. Only a new ledger version may need the history
        updated. */
    method SaveStep(name: string, payload: Payload, fate: Fate) returns (id: Option<string>)
      requires NameOk(name) && SuffixOk(SuffixOf(payload)) && Valid()
      requires OfReview(name) && (payload.CopyTree? <==> HoldsTree(name)) && Content(payload).Some?
      modifies ws
      ensures Sound(ws.hash, ws.Contents()) && KindsFit(ws.files) && OnlyAdds(old(ws.Contents()), ws.Contents(), name)
      ensures id.Some? <==> fate.GoesOn?
      ensures id.Some? ==> Holds(ws.Contents(), id.value, Content(payload).value)
                           && LatestIs(ws.Contents(), name, Content(payload).value)
      ensures PinsFit(ws.Contents(), pins, pinned, execs) && KeepsLatest(old(ws.Contents()), ws.Contents(), [name])
      ensures name != "ledger" || id.None? ==> Valid()
    {
      if fate.Raises? {
        return None;
      }
      var crash := if fate.Dies? then Crash.Crash(Debris(payload, fate.left)) else NoCrash;
      SaveFits(ws.hash, ws.Contents(), name, payload, crash);
      HistoryStays(ws.hash, ws.Contents(), name, payload, REVIEW, crash, pins, pinned, ledgered, execs);
      if crash.NoCrash? {
        SavedReadsBack(ws.hash, ws.Contents(), name, payload, REVIEW, crash);
      }
      var saved := ws.Save(name, payload, REVIEW, crash);
      id := if saved.Saved? then Some(saved.record.id) else None;
    }

    method SaveLedger(outputs: Outputs, fate: Fate) returns (recorded: bool)
      requires Valid() && |execs| > 0 && outputs == execs[|execs| - 1].outputs
      modifies ws, this`ledgered
      ensures Valid() && (recorded <==> fate.GoesOn?)
      ensures ledgered == if recorded then Some(|execs| - 1) else old(ledgered)
      ensures recorded ==> LatestIs(ws.Contents(), "ledger", File(outputs.ledger))
      ensures KeepsLatest(old(ws.Contents()), ws.Contents(), ["ledger"])
    {
      var saved := SaveStep("ledger", Text(outputs.ledger, ".json"), fate);
      recorded := saved.Some?;
      if recorded {
        ledgered := Some(|execs| - 1);
      }
    }

    /** The review rounds, then the gates. */
    method SaveGates(outputs: Outputs, fate: nat -> Fate) returns (gates: Option<string>)
      requires Valid()
      modifies ws
      ensures Valid()
      ensures gates.Some? <==> fate(3).GoesOn? && fate(4).GoesOn?
      ensures gates.Some? ==> Holds(ws.Contents(), gates.value, File(outputs.gates))
                              && LatestIs(ws.Contents(), "review_rounds", File(outputs.rounds))
                              && LatestIs(ws.Contents(), "gates", File(outputs.gates))
      ensures KeepsLatest(old(ws.Contents()), ws.Contents(), ["review_rounds", "gates"])
    {
      var saved := SaveStep("review_rounds", Text(outputs.rounds, ".json"), fate(3));
      if saved.None? {
        return None;
      }
      gates := SaveStep("gates", Text(outputs.gates, ".json"), fate(4));
    }

    method SavePaper(outputs: Outputs, fate: Fate) returns (kept: bool)
      requires Valid()
      modifies ws
      ensures Valid() && (kept <==> fate.GoesOn?)
      ensures kept ==> LatestIs(ws.Contents(), "paper", File(outputs.paper))
    {
      assert OF_REVIEW[0] == "paper";
      var saved := SaveStep("paper", Text(outputs.paper, ".json"), fate);
      kept := saved.Some?;
    }

    method SavePaperAndLedger(outputs: Outputs, fate: nat -> Fate) returns (recorded: bool)
      requires Valid() && |execs| > 0 && outputs == execs[|execs| - 1].outputs
      modifies ws, this`ledgered
      ensures Valid() && (recorded <==> fate(1).GoesOn? && fate(2).GoesOn?)
      ensures ledgered == if recorded then Some(|execs| - 1) else old(ledgered)
      ensures recorded ==> LatestIs(ws.Contents(), "paper", File(outputs.paper))
                           && LatestIs(ws.Contents(), "ledger", File(outputs.ledger))
    {
      var kept := SavePaper(outputs, fate(1));
      if !kept {
        return false;
      }
      recorded := SaveLedger(outputs, fate(2));
    }

    /** The four texts every review saves; answers the id of the gates. */
    method SaveTexts(outputs: Outputs, fate: nat -> Fate) returns (gates: Option<string>)
      requires Valid() && |execs| > 0 && outputs == execs[|execs| - 1].outputs
      modifies ws, this`ledgered
      ensures Valid()
      ensures ledgered == if fate(1).GoesOn? && fate(2).GoesOn? then Some(|execs| - 1) else old(ledgered)
      ensures gates.Some? <==> fate(1).GoesOn? && fate(2).GoesOn? && fate(3).GoesOn? && fate(4).GoesOn?
      ensures gates.Some? ==> Holds(ws.Contents(), gates.value, File(outputs.gates)) && TextsSaved(ws.Contents(), outputs)
    {
      var recorded := SavePaperAndLedger(outputs, fate);
      if !recorded {
        return None;
      }
      gates := SaveGates(outputs, fate);
    }

    /** The compiled paper and its sources, if there are any; answers what is to be pinned. */
    method SaveCompiled(outputs: Outputs, gates: string, fate: nat -> Fate) returns (all: Option<Pins>)
      requires Valid() && Holds(ws.Contents(), gates, File(outputs.gates))
      modifies ws
      ensures Valid()
      ensures all.Some? <==> outputs.compiled.None? || (fate(5).GoesOn? && fate(6).GoesOn?)
      ensures all.Some? ==> PinsHold(ws.Contents(), all.value, outputs)
      ensures KeepsLatest(old(ws.Contents()), ws.Contents(), ["paper_pdf", "paper_source"])
    {
      if outputs.compiled.None? {
        return Some(Pins(gates, None, None));
      }
      var compiled := outputs.compiled.value;
      ghost var disk4 := ws.Contents();
      var pdf := SaveStep("paper_pdf", Copy(Some(compiled.pdf), "main.pdf", ".pdf"), fate(5));
      if pdf.None? {
        return None;
      }
      ghost var disk5 := ws.Contents();
      HoldsForever(disk4, disk5, gates, File(outputs.gates));
      var source := SaveStep("paper_source", CopyTree(Some(compiled.source)), fate(6));
      if source.None? {
        return None;
      }
      HoldsForever(disk5, ws.Contents(), gates, File(outputs.gates));
      HoldsForever(disk5, ws.Contents(), pdf.value, File(compiled.pdf));
      all := Some(Pins(gates, pdf, source));
    }

    /** All saves up to the pinning. */
    method SaveAndPin(outputs: Outputs, fate: nat -> Fate) returns (ok: bool)
      requires Valid() && |execs| > 0 && outputs == execs[|execs| - 1].outputs && fate(0).GoesOn?
      modifies ws, this`ledgered, this`pinned, this`pins
      ensures Valid()
      ensures ok <==> Pinning(outputs, fate)
      ensures ledgered == if Ledgering(fate) then Some(|execs| - 1) else old(ledgered)
      ensures pinned == (if ok then Some(|execs| - 1) else old(pinned)) && (!ok ==> pins == old(pins))
      ensures ok ==> TextsSaved(ws.Contents(), outputs)
    {
      ok := false;
      var gates := SaveTexts(outputs, fate);
      if gates.None? {
        return;
      }
      ghost var disk4 := ws.Contents();
      var all := SaveCompiled(outputs, gates.value, fate);
      TextsStay(disk4, ws.Contents(), outputs);
      if all.None? || !fate(7).GoesOn? {
        return;
      }
      pins, pinned, ok := all, Some(|execs| - 1), true;
    }

    /** The review scores, if any, and the injected lessons. */
    method SaveScores(outputs: Outputs, fate: nat -> Fate) returns (done: bool)
      requires Valid()
      modifies ws
      ensures Valid()
      ensures done <==> (outputs.scores.Some? ==> fate(8).GoesOn?) && fate(9).GoesOn?
      ensures done && outputs.scores.Some? ==> LatestIs(ws.Contents(), "review_scores", File(outputs.scores.value))
      ensures KeepsLatest(old(ws.Contents()), ws.Contents(), ["review_scores"])
    {
      if outputs.scores.Some? {
        var saved := SaveStep("review_scores", Text(outputs.scores.value, ".json"), fate(8));
        if saved.None? {
          return false;
        }
      }
      done := fate(9).GoesOn?;
    }

    /** `stage_review`, from its loop on. Whatever ends it and wherever, it leaves the package alone;
        the ledger is this execution's once recorded, and the pinned records are replaced, all
        together, exactly when every one of them has been saved. */
    method Review(outputs: Outputs, fate: nat -> Fate) returns (done: bool)
      requires Settled()
      modifies this, ws
      ensures Settled() && execs == old(execs) + [Execution(outputs, fate)] && package == old(package)
      ensures ledgered == if Ledgering(fate) then Some(|old(execs)|) else old(ledgered)
      ensures pinned == if Pinning(outputs, fate) then Some(|old(execs)|) else old(pinned)
      ensures !Pinning(outputs, fate) ==> pins == old(pins)
      ensures done ==> TextsSaved(ws.Contents(), outputs)
      ensures done && outputs.scores.Some? ==> LatestIs(ws.Contents(), "review_scores", File(outputs.scores.value))
      ensures done <==> Pinning(outputs, fate) && (outputs.scores.Some? ==> fate(8).GoesOn?) && fate(9).GoesOn?
    {
      done := false;
      LastOneMore(execs, Execution(outputs, fate));
      HistoryGrows(ws.Contents(), pins, pinned, ledgered, execs, Execution(outputs, fate));
      execs := execs + [Execution(outputs, fate)];
      if !fate(0).GoesOn? {
        return;
      }
      var ok := SaveAndPin(outputs, fate);
      if ok {
        ghost var disk7 := ws.Contents();
        done := SaveScores(outputs, fate);
        TextsStay(disk7, ws.Contents(), outputs);
      }
    }

    /** Any other stage saves an artifact of its own, a file or a directory, which may fail or be cut
        short like every save. */
    method SaveOther(name: string, payload: Payload, note: Note, crash: Crash) returns (saved: Saved)
      requires Settled() && NameOk(name) && SuffixOk(SuffixOf(payload)) && !OfReview(name)
      modifies ws
      ensures Settled() && OnlyAdds(old(ws.Contents()), ws.Contents(), name)
      ensures (ws.Contents(), saved) == SaveSpec(ws.hash, old(ws.Contents()), name, payload, note, crash)
    {
      OtherSaveFits(ws.hash, ws.Contents(), name, payload, note, crash);
      HistoryStays(ws.hash, ws.Contents(), name, payload, note, crash, pins, pinned, ledgered, execs);
      saved := ws.Save(name, payload, note, crash);
    }

    /** The bytes of a pinned record, if there is one. */
    method Fetch(id: Option<string>, ghost blob: Blob) returns (found: Option<Blob>)
      requires Valid() && (id.Some? ==> Holds(ws.Contents(), id.value, blob))
      ensures found == if id.Some? then Some(blob) else None
    {
      IdsAreNotEmpty(ws.hash, ws.Contents());
      var record := FindRecord(ws.records, if id.Some? then id.value else "");
      found := if record.Some? then Some(ws.files[record.value.path]) else None;
    }

    method FetchLedger() returns (ledger: string)
      requires Valid() && ledgered.Some?
      ensures ledger == execs[ledgered.value].outputs.ledger
    {
      var record := Latest(ws.records, "ledger");
      ledger := ws.files[record.value.path].text;
    }

    /** `stage_package`. All of a package but its ledger comes from the one review execution that
        last pinned its records: it is refused, and the old package left alone, if that execution did
        not compile or its gates failed, and `paper.pdf` is there only if its gates passed. The ledger
        is that of the last execution that recorded one. */
    method MakePackage(allowFailures: bool, statement: string, recompiled: Option<string>) returns (result: Result)
      requires Settled()
      modifies this`package
      ensures Settled()
      ensures result == Verdict(if pinned.Some? then Some(execs[pinned.value].outputs) else None, saysPassed, allowFailures,
                                recompiled)
      ensures result.NoGates? || result.NotCompiled? || result.GatesFailed? ==> package == old(package)
      ensures result.Released? ==>
                pinned.Some? && execs[pinned.value].outputs.compiled.Some?
                && package == ReleasedAfter(execs, result.verified, statement, recompiled)
      ensures result.NotRecompiled? ==> package.paper == None && package.unverified == None
    {
      ghost var from := if pinned.Some? then execs[pinned.value].outputs else Outputs("", "", "", "", None, None);
      if pins.None? {
        return NoGates;
      }
      var gates := Fetch(Some(pins.value.gates), File(from.gates));
      var pdf := Fetch(pins.value.pdf, File(if from.compiled.Some? then from.compiled.value.pdf else ""));
      var source := Fetch(pins.value.source,
                          Tree(if from.compiled.Some? then Copied(from.compiled.value.source) else map[]));
      if pdf.None? || source.None? {
        return NotCompiled;
      }
      var verified := saysPassed(gates.value.text);
      if !verified && !allowFailures {
        return GatesFailed;
      }
      package := NOTHING.(source := Some(source.value.files));
      if verified {
        package := package.(paper := Some(pdf.value.text));
      } else {
        package := package.(source := Some(source.value.files[STATEMENT := statement]));
        if recompiled.None? {
          return NotRecompiled;
        }
        package := package.(unverified := recompiled);
        package := package.(source := Some(Cleaned(package.source.value)));
      }
      var ledger := FetchLedger();
      package := package.(ledger := Some(ledger), gates := Some(gates.value.text));
      result := Released(verified);
    }
  }

  /** The steps of a review, by number: 0 is its loop, 1 to 4 save the texts, 5 and 6 the compiled
      paper, 7 pins, 8 saves the scores, 9 notes the lessons used. It records its ledger, and pins,
      exactly when the steps up to there go on. */
  predicate Ledgering(fate: nat -> Fate) { fate(0).GoesOn? && fate(1).GoesOn? && fate(2).GoesOn? }

  predicate Pinning(outputs: Outputs, fate: nat -> Fate) {
    && Ledgering(fate) && fate(3).GoesOn? && fate(4).GoesOn?
    && (outputs.compiled.Some? ==> fate(5).GoesOn? && fate(6).GoesOn?)
    && fate(7).GoesOn?
  }

  /** The last execution that pinned its records. */
  ghost function LastPinning(execs: seq<Execution>): (p: Option<nat>)
    ensures p.None? ==> forall k | 0 <= k < |execs| :: !Pinning(execs[k].outputs, execs[k].fate)
    ensures p.Some? ==> p.value < |execs| && Pinning(execs[p.value].outputs, execs[p.value].fate)
                        && forall k | p.value < k < |execs| :: !Pinning(execs[k].outputs, execs[k].fate)
  {
    if execs == [] then None
    else
      var n := |execs| - 1;
      if Pinning(execs[n].outputs, execs[n].fate) then Some(n) else LastPinning(execs[..n])
  }

  /** The last execution that recorded its findings ledger. */
  ghost function LastLedgering(execs: seq<Execution>): (l: Option<nat>)
    ensures l.None? ==> forall k | 0 <= k < |execs| :: !Ledgering(execs[k].fate)
    ensures l.Some? ==> l.value < |execs| && Ledgering(execs[l.value].fate)
                        && forall k | l.value < k < |execs| :: !Ledgering(execs[k].fate)
  {
    if execs == [] then None
    else
      var n := |execs| - 1;
      if Ledgering(execs[n].fate) then Some(n) else LastLedgering(execs[..n])
  }

  lemma LastOneMore(execs: seq<Execution>, e: Execution)
    ensures LastPinning(execs + [e]) == if Pinning(e.outputs, e.fate) then Some(|execs|) else LastPinning(execs)
    ensures LastLedgering(execs + [e]) == if Ledgering(e.fate) then Some(|execs|) else LastLedgering(execs)
  {
    assert (execs + [e])[..|execs|] == execs;
  }

  /** What a package released after these executions holds. */
  ghost function ReleasedAfter(execs: seq<Execution>, verified: bool, statement: string, recompiled: Option<string>): Package
    requires LastPinning(execs).Some? && execs[LastPinning(execs).value].outputs.compiled.Some?
  {
    Contents(execs[LastPinning(execs).value].outputs, execs[LastLedgering(execs).value].outputs,
             verified, statement, recompiled)
  }

  const REVIEW := Note("review", [], "")

  lemma LedgerKept(disk: Disk, disk': Disk, name: string, saved: bool, blob: Blob)
    requires OnlyAdds(disk, disk', name) && LatestIs(disk, "ledger", blob)
    requires !saved ==> LatestOf(disk'.records, name) == LatestOf(disk.records, name)
    ensures name != "ledger" || !saved ==> LatestIs(disk', "ledger", blob)
  {
    LatestIsRecorded(disk.records, "ledger");
  }

  /** What packaging makes of the execution whose records are pinned. */
  function Verdict(from: Option<Outputs>, saysPassed: string -> bool, allowFailures: bool, recompiled: Option<string>)
    : Result
  {
    if from.None? then NoGates
    else if from.value.compiled.None? then NotCompiled
    else if saysPassed(from.value.gates) then Released(true)
    else if !allowFailures then GatesFailed
    else if recompiled.None? then NotRecompiled
    else Released(false)
  }

  /** A package made of the outputs of one execution, with the ledger of another. */
  function Contents(from: Outputs, ledgerFrom: Outputs, verified: bool, statement: string, recompiled: Option<string>)
    : Package
    requires from.compiled.Some?
  {
    var source := Copied(from.compiled.value.source);
    Package(Some(if verified then source else Cleaned(source[STATEMENT := statement])),
            if verified then Some(from.compiled.value.pdf) else None,
            if verified then None else recompiled,
            Some(ledgerFrom.ledger), Some(from.gates))
  }

  /** Some execution after `p` was the last to record its ledger, and its ledger reads differently. */
  ghost predicate OtherLedger(execs: seq<Execution>, p: nat)
    requires p < |execs|
  {
    exists k | p < k < |execs| :: Ledgering(execs[k].fate)
      && (forall j | k < j < |execs| :: !Ledgering(execs[j].fate))
      && execs[k].outputs.ledger != execs[p].outputs.ledger
  }

  /** What is in a package, file by file: gates, paper and sources of the execution that pinned, and the
      ledger of the last that recorded one. The sources are all files of the compiled paper's build but those
      never saved with it (`__pycache__`, `.venv`, `*.pyc`); if the paper is unverified they have the new
      statement, and no file of the build named after the main file but its source. */
  lemma PackageHolds(execs: seq<Execution>, verified: bool, statement: string, recompiled: Option<string>)
    requires LastPinning(execs).Some? && execs[LastPinning(execs).value].outputs.compiled.Some?
    ensures var package := ReleasedAfter(execs, verified, statement, recompiled);
            var from := execs[LastPinning(execs).value].outputs;
            && package.gates == Some(from.gates)
            && LastLedgering(execs).Some?
            && package.ledger == Some(execs[LastLedgering(execs).value].outputs.ledger)
            && package.paper == (if verified then Some(from.compiled.value.pdf) else None)
            && package.unverified == (if verified then None else recompiled)
            && package.source.Some?
            && forall p :: SourceFileRight(p, package.source.value, from.compiled.value.source, verified, statement)
  {
    assert Ledgering(execs[LastPinning(execs).value].fate);
  }

  ghost predicate SourceFileRight(p: seq<string>, package: Listing, build: Listing, verified: bool, statement: string) {
    var saved := p in build
                 && forall c | c in p :: c != "__pycache__" && c != ".venv" && !(|c| >= 4 && c[|c| - 4..] == ".pyc");
    if verified then (p in package <==> saved) && (p in package ==> package[p] == build[p])
    else if p == ["sections", "ai_statement.tex"] then p in package && package[p] == statement
    else
      && (p in package <==>
          saved && !(|p| == 1 && |p[0]| >= 5 && p[0][..5] == "main." && p[0][|p[0]| - 4..] != ".tex"))
      && (p in package ==> package[p] == build[p])
  }

  /** When packaging comes to what: it needs the outputs of a review, a compiled paper, and gates that passed
      unless failures are allowed; an unverified paper must also compile again. */
  lemma VerdictIff(from: Option<Outputs>, saysPassed: string -> bool, allowFailures: bool, recompiled: Option<string>)
    ensures var result := Verdict(from, saysPassed, allowFailures, recompiled);
            && (result.NoGates? <==> from.None?)
            && (result.NotCompiled? <==> from.Some? && from.value.compiled.None?)
            && (result.GatesFailed? <==>
                from.Some? && from.value.compiled.Some? && !saysPassed(from.value.gates) && !allowFailures)
            && (result.NotRecompiled? <==>
                from.Some? && from.value.compiled.Some? && !saysPassed(from.value.gates) && allowFailures
                && recompiled.None?)
            && (result.Released? ==> result.verified == saysPassed(from.value.gates))
  {
  }

  /** When a package comes from one review execution: its ledger is of the execution that pinned
      exactly if no later one got past saving its ledger, and the package is what that one execution
      alone would give exactly if the last later one that did, if any, left an equal text. */
  lemma OneExecutionIff(execs: seq<Execution>, verified: bool, statement: string, recompiled: Option<string>)
    requires LastPinning(execs).Some? && execs[LastPinning(execs).value].outputs.compiled.Some?
    ensures var p := LastPinning(execs).value;
            && (LastLedgering(execs) == Some(p) <==> forall k | p < k < |execs| :: !Ledgering(execs[k].fate))
            && (ReleasedAfter(execs, verified, statement, recompiled)
                == Contents(execs[p].outputs, execs[p].outputs, verified, statement, recompiled)
                <==> !OtherLedger(execs, p))
  {
    var p := LastPinning(execs).value;
    assert Ledgering(execs[p].fate);
    LedgerFrom(execs, p);
    LedgerTells(execs[p].outputs, execs[LastLedgering(execs).value].outputs, verified, statement, recompiled);
  }

  /** The latest ledger is of the last execution, from one that recorded its own, that recorded one. */
  lemma LedgerFrom(execs: seq<Execution>, p: nat)
    requires p < |execs| && Ledgering(execs[p].fate)
    ensures var l := LastLedgering(execs);
            && l.Some? && p <= l.value < |execs|
            && (l == Some(p) <==> forall k | p < k < |execs| :: !Ledgering(execs[k].fate))
            && (execs[l.value].outputs.ledger == execs[p].outputs.ledger <==> !OtherLedger(execs, p))
  {
    var l := LastLedgering(execs).value;
    if OtherLedger(execs, p) {
      var k :| p < k < |execs| && Ledgering(execs[k].fate)
               && (forall j | k < j < |execs| :: !Ledgering(execs[j].fate))
               && execs[k].outputs.ledger != execs[p].outputs.ledger;
      assert k == l;
    }
  }

  /** Packages that take only the ledger from elsewhere differ exactly if the ledgers do. */
  lemma LedgerTells(from: Outputs, late: Outputs, verified: bool, statement: string, recompiled: Option<string>)
    requires from.compiled.Some?
    ensures Contents(from, late, verified, statement, recompiled) == Contents(from, from, verified, statement, recompiled)
            <==> late.ledger == from.ledger
  {
  }

  function Always(step: nat): Fate { GoesOn }

  function UpToTheRounds(step: nat): Fate { if step == 3 then Raises else GoesOn }

  /** A review that goes through, then one that fails after recording its ledger. */
  method TwoReviews(hash: Hash, first: Outputs, second: Outputs) returns (run: Run)
    ensures fresh(run) && fresh(run.ws) && run.Settled() && run.saysPassed == AllPass
    ensures run.execs == [Execution(first, Always), Execution(second, UpToTheRounds)]
    ensures run.pinned == Some(0) && run.ledgered == Some(1)
  {
    run := new Run(hash, AllPass);
    var done := run.Review(first, Always);
    done := run.Review(second, UpToTheRounds);
  }

  function AllPass(gates: string): bool { true }

  /** If the first review compiled and passed, the package is its paper with the findings ledger of
      the second. */
  method LedgerOfALaterReview(hash: Hash, first: Outputs, second: Outputs) returns (package: Package)
    requires first.compiled.Some?
    ensures package == Contents(first, second, true, "", None)
  {
    var run := TwoReviews(hash, first, second);
    var result := run.MakePackage(false, "", None);
    package := run.package;
  }
}
