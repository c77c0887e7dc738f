/** How a cached read of the config file (jiuwenswarm/common/config.py) comes to its end: when it is tried
    again, when it gives up, and that it gets through. */
module ConfigRetries {
  import opened ConfigReads

  /** The contents a reader has found in the file since its last call. */
  ghost function Found(versions: seq<Version>, steps: seq<Step>, id: nat): seq<Version>
    requires versions != []
    decreases |steps|
  {
    if steps == [] then []
    else
      var before, s := steps[..|steps| - 1], steps[|steps| - 1];
      var w := Run(versions, before);
      var r := ReaderOf(w, id);
      if s == Call(id) && (r.Idle? || r.Returned? || r.Raised?) then []
      else if s == Read(id) && r.Reading? then Found(versions, before, id) + [versions[w.cur]]
      else Found(versions, before, id)
  }

  predicate Garbled(v: Version) { v.File? && v.parse.Malformed? }

  /** The file was missing, or could not be parsed for the third time. */
  ghost predicate Fails(found: seq<Version>) {
    found != [] && (found[|found| - 1].Missing? || (|found| == 3 && Garbled(found[2])))
  }

  ghost predicate AllGarbled(found: seq<Version>) { forall i | 0 <= i < |found| :: Garbled(found[i]) }

  /** Found garbled, up to twice, and then this document. */
  ghost predicate EndsIn(found: seq<Version>, doc: string) {
    && 1 <= |found| <= 3 && AllGarbled(found[..|found| - 1])
    && found[|found| - 1].File? && found[|found| - 1].parse == Doc(doc)
  }

  /** How far the reader is after what it found. */
  ghost predicate Fits(r: Reader, found: seq<Version>) {
    match r
    case Idle => found == []
    case Called(_) => found == []
    case Statted(_, _) => found == []
    case Reading(_, _, attempt) => |found| == attempt < 3 && AllGarbled(found)
    case Storing(_, _, doc) => EndsIn(found, doc)
    case Returned(_, _, doc) => found == [] || EndsIn(found, doc)
    case Raised => 1 <= |found| <= 3 && AllGarbled(found[..|found| - 1]) && Fails(found)
  }

  lemma StepFits(versions: seq<Version>, w: World, s: Step, id: nat, found: seq<Version>)
    requires w.cur < |versions| && Fits(ReaderOf(w, id), found)
    ensures var r := ReaderOf(w, id);
            Fits(ReaderOf(Next(versions, w, s), id),
                 if s == Call(id) && (r.Idle? || r.Returned? || r.Raised?) then []
                 else if s == Read(id) && r.Reading? then found + [versions[w.cur]]
                 else found)
  {
    if s == Read(id) && ReaderOf(w, id).Reading? {
      ReadFits(versions, w, id, found);
    }
  }

  lemma ReadFits(versions: seq<Version>, w: World, id: nat, found: seq<Version>)
    requires w.cur < |versions| && ReaderOf(w, id).Reading? && Fits(ReaderOf(w, id), found)
    ensures Fits(ReaderOf(Next(versions, w, Read(id)), id), found + [versions[w.cur]])
  {
    var r, v := ReaderOf(w, id), versions[w.cur];
    var now := ReaderOf(Next(versions, w, Read(id)), id);
    AfterRead(r, v, now, found);
  }

  lemma AfterRead(r: Reader, v: Version, now: Reader, found: seq<Version>)
    requires r.Reading? && |found| == r.attempt < 3 && AllGarbled(found)
    requires match v
             case Missing => now == Raised
             case File(_, Malformed) => now == if r.attempt + 1 < 3 then r.(attempt := r.attempt + 1) else Raised
             case File(_, Doc(d)) => (now.Storing? || now.Returned?) && now.doc == d
    ensures Fits(now, found + [v])
  {
    var more := found + [v];
    assert more[..|found|] == found && more[|more| - 1] == v;
    if Garbled(v) {
      assert AllGarbled(more);
    }
  }

  lemma {:induction false} RunFits(versions: seq<Version>, steps: seq<Step>, id: nat)
    requires versions != []
    ensures Fits(ReaderOf(Run(versions, steps), id), Found(versions, steps, id))
    decreases |steps|
  {
    if steps != [] {
      RunFits(versions, steps[..|steps| - 1], id);
      StepFits(versions, Run(versions, steps[..|steps| - 1]), steps[|steps| - 1], id,
               Found(versions, steps[..|steps| - 1], id));
    }
  }

  /** In every run a read gives up exactly if it found the file missing, or garbled three times; and what it
      returns it found itself, after finding it garbled at most twice, or it never looked (the cache had
      it). */
  lemma GivesUpIff(versions: seq<Version>, steps: seq<Step>, id: nat)
    requires versions != []
    ensures var r, found := ReaderOf(Run(versions, steps), id), Found(versions, steps, id);
            && (r.Raised? <==> Fails(found))
            && (r.Returned? ==> found == [] || EndsIn(found, r.doc))
  {
    RunFits(versions, steps, id);
    var r, found := ReaderOf(Run(versions, steps), id), Found(versions, steps, id);
    assert r.Reading? && found != [] ==> Garbled(found[|found| - 1]);
  }

  // ---- reads that go through ------------------------------------------------------------------

  lemma RunMore(versions: seq<Version>, steps: seq<Step>, s: Step)
    requires versions != []
    ensures Run(versions, steps + [s]) == Next(versions, Run(versions, steps), s)
  {
    assert (steps + [s])[..|steps|] == steps;
  }

  /** A read that is not disturbed, of a readable file whose stamp the cache does not have: it returns the
      document and caches it. */
  lemma UndisturbedReads(versions: seq<Version>, steps: seq<Step>, id: nat)
    requires versions != [] && CanCall(Run(versions, steps), id)
    requires var w := Run(versions, steps);
             && versions[w.cur].File? && versions[w.cur].parse.Doc?
             && !(w.cache.Entry? && w.cache.stamp == versions[w.cur].stamp)
    ensures var w := Run(versions, steps);
            var v := Run(versions, steps + [Call(id)] + [Stat(id)] + [Lookup(id)] + [Read(id)] + [Store(id)]);
            && v.cur == w.cur && ReaderOf(v, id) == Returned(w.cur, w.cur, versions[w.cur].parse.doc)
            && v.cache == Entry(versions[w.cur].stamp, versions[w.cur].parse.doc)
  {
    var s3 := steps + [Call(id)] + [Stat(id)] + [Lookup(id)];
    UpToLookup(versions, steps, id);
    RunMore(versions, s3, Read(id));
    RunMore(versions, s3 + [Read(id)], Store(id));
    ReadAndStored(versions, Run(versions, s3), id);
  }

  ghost predicate CanCall(w: World, id: nat) {
    ReaderOf(w, id).Idle? || ReaderOf(w, id).Returned? || ReaderOf(w, id).Raised?
  }

  lemma UpToLookup(versions: seq<Version>, steps: seq<Step>, id: nat)
    requires versions != [] && CanCall(Run(versions, steps), id) && versions[Run(versions, steps).cur].File?
    ensures var w, v := Run(versions, steps), Run(versions, steps + [Call(id)] + [Stat(id)] + [Lookup(id)]);
            var stamp := versions[w.cur].stamp;
            && v.cur == w.cur && v.cache == w.cache
            && ReaderOf(v, id) == if w.cache.Entry? && w.cache.stamp == stamp then Returned(w.cur, w.cur, w.cache.doc)
                                  else Reading(w.cur, Stamped(stamp), 0)
  {
    var s1 := steps + [Call(id)];
    RunMore(versions, steps, Call(id));
    RunMore(versions, s1, Stat(id));
    RunMore(versions, s1 + [Stat(id)], Lookup(id));
    CalledAndLooked(versions, Run(versions, steps), id);
  }

  lemma CalledAndLooked(versions: seq<Version>, w: World, id: nat)
    requires w.cur < |versions| && CanCall(w, id) && versions[w.cur].File?
    ensures var v := Next(versions, Next(versions, Next(versions, w, Call(id)), Stat(id)), Lookup(id));
            var stamp := versions[w.cur].stamp;
            && v.cur == w.cur && v.cache == w.cache
            && ReaderOf(v, id) == if w.cache.Entry? && w.cache.stamp == stamp then Returned(w.cur, w.cur, w.cache.doc)
                                  else Reading(w.cur, Stamped(stamp), 0)
  {
  }

  lemma ReadAndStored(versions: seq<Version>, w: World, id: nat)
    requires w.cur < |versions| && versions[w.cur].File? && versions[w.cur].parse.Doc?
    requires ReaderOf(w, id).Reading? && ReaderOf(w, id).stamp.Stamped?
    ensures var v, doc := Next(versions, Next(versions, w, Read(id)), Store(id)), versions[w.cur].parse.doc;
            && v.cur == w.cur && ReaderOf(v, id) == Returned(ReaderOf(w, id).from, w.cur, doc)
            && v.cache == Entry(ReaderOf(w, id).stamp.stamp, doc)
  {
  }

  /** A read that is not disturbed, while the cache has the file's stamp: it returns what is cached without
      looking into the file. */
  lemma CachedIsReturned(versions: seq<Version>, steps: seq<Step>, id: nat)
    requires versions != [] && CanCall(Run(versions, steps), id)
    requires var w := Run(versions, steps);
             versions[w.cur].File? && w.cache.Entry? && w.cache.stamp == versions[w.cur].stamp
    ensures var w, v := Run(versions, steps), Run(versions, steps + [Call(id)] + [Stat(id)] + [Lookup(id)]);
            && v.cur == w.cur && v.cache == w.cache && ReaderOf(v, id) == Returned(w.cur, w.cur, w.cache.doc)
  {
    UpToLookup(versions, steps, id);
  }
}
