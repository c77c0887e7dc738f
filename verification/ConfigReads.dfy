/** Reading config.yaml through the parse cache (jiuwenswarm/common/config.py) as a protocol: any
    number of threads interleave their stat, cache lookup, read and cache store with atomic
    replacements of the file. */
module ConfigReads {

  /** `(mtime_ns, size)` */
  type Stamp = (int, int)

  /** What parsing the file yields; an empty file is the empty document. */
  datatype Parse = Doc(doc: string) | Malformed

  /** One committed state of the path. */
  datatype Version = Missing | File(stamp: Stamp, parse: Parse)

  datatype MaybeStamp = NoStamp | Stamped(stamp: Stamp)

  datatype Entry = NoEntry | Entry(stamp: Stamp, doc: string)

  /** Where a thread stands in `_read_with_retry`. `from` and `to` are the versions current when it
      was called and when it returned; the protocol itself never looks at them. */
  datatype Reader =
    | Idle
    | Called(from: nat)
    | Statted(from: nat, key: Stamp)
    | Reading(from: nat, stamp: MaybeStamp, attempt: nat)
    | Storing(from: nat, key: Stamp, doc: string)
    | Returned(from: nat, to: nat, doc: string)
    | Raised

  const MAX_ATTEMPTS := 3

  /** The version now at the path, the process-wide cache entry and every thread. */
  datatype World = World(cur: nat, cache: Entry, readers: map<nat, Reader>)

  datatype Step =
    | Replace
    | Call(id: nat)
    | Stat(id: nat)
    | StatFails(id: nat)
    | Lookup(id: nat)
    | Read(id: nat)
    | Store(id: nat)

  function ReaderOf(w: World, id: nat): Reader { if id in w.readers then w.readers[id] else Idle }

  function Move(w: World, id: nat, r: Reader): World { w.(readers := w.readers[id := r]) }

  /** One step; a step that is not enabled leaves everything unchanged. `versions` lists the
      contents the writers commit, in order. */
  function Next(versions: seq<Version>, w: World, s: Step): World
    requires w.cur < |versions|
  {
    match s
    case Replace => if w.cur + 1 < |versions| then w.(cur := w.cur + 1) else w
    case Call(id) =>
      var r := ReaderOf(w, id);
      if r.Idle? || r.Returned? || r.Raised? then Move(w, id, Called(w.cur)) else w
    case Stat(id) =>
      var r := ReaderOf(w, id);
      if !r.Called? then w
      else if versions[w.cur].File? then Move(w, id, Statted(r.from, versions[w.cur].stamp))
      else Move(w, id, Reading(r.from, NoStamp, 0))
    case StatFails(id) =>
      var r := ReaderOf(w, id);
      if r.Called? then Move(w, id, Reading(r.from, NoStamp, 0)) else w
    case Lookup(id) =>
      var r := ReaderOf(w, id);
      if !r.Statted? then w
      else if w.cache.Entry? && w.cache.stamp == r.key then Move(w, id, Returned(r.from, w.cur, w.cache.doc))
      else Move(w, id, Reading(r.from, Stamped(r.key), 0))
    case Read(id) =>
      var r := ReaderOf(w, id);
      if !r.Reading? then w
      else
        (match versions[w.cur]
         case Missing => Move(w, id, Raised)
         case File(_, Malformed) =>
           if r.attempt + 1 < MAX_ATTEMPTS then Move(w, id, r.(attempt := r.attempt + 1)) else Move(w, id, Raised)
         case File(_, Doc(d)) =>
           if r.stamp.Stamped? then Move(w, id, Storing(r.from, r.stamp.stamp, d))
           else Move(w, id, Returned(r.from, w.cur, d)))
    case Store(id) =>
      var r := ReaderOf(w, id);
      if r.Storing? then Move(w, id, Returned(r.from, w.cur, r.doc)).(cache := Entry(r.key, r.doc)) else w
  }

  const START := World(0, NoEntry, map[])

  function Run(versions: seq<Version>, steps: seq<Step>): (w: World)
    requires versions != []
    ensures w.cur < |versions|
  {
    if steps == [] then START else Next(versions, Run(versions, steps[..|steps| - 1]), steps[|steps| - 1])
  }

  ghost predicate StampAt(versions: seq<Version>, i: nat, s: Stamp) {
    i < |versions| && versions[i].File? && versions[i].stamp == s
  }

  ghost predicate DocAt(versions: seq<Version>, i: nat, d: string) {
    i < |versions| && versions[i].File? && versions[i].parse == Doc(d)
  }

  /** The document was the content of the file at some moment between the two versions. */
  ghost predicate CurrentBetween(versions: seq<Version>, from: nat, to: nat, d: string) {
    exists i | from <= i <= to :: DocAt(versions, i, d)
  }

  /** Every finished read returned something that was current between its call and its return. */
  ghost predicate ReadsAreCurrent(versions: seq<Version>, w: World) {
    forall id | id in w.readers && w.readers[id].Returned? ::
      CurrentBetween(versions, w.readers[id].from, w.readers[id].to, w.readers[id].doc)
  }

  /** ... in every interleaving. */
  ghost predicate CacheIsSafe(versions: seq<Version>)
    requires versions != []
  {
    forall steps: seq<Step> :: ReadsAreCurrent(versions, Run(versions, steps))
  }

  /** Whenever two versions carry the same stamp, every readable version from the first to the
      second has the same document as the second. Holds in particular if stamps never repeat. */
  ghost predicate StampsTellVersionsApart(versions: seq<Version>) {
    forall i, k, j, s, d
      | 0 <= i <= k <= j && StampAt(versions, i, s) && DocAt(versions, k, d) && StampAt(versions, j, s) ::
      DocAt(versions, j, d)
  }

  // ---- sufficiency ------------------------------------------------------------------------

  /** A document read at or after a stat that saw the stamp. */
  ghost predicate ReadAfterStat(versions: seq<Version>, low: nat, high: nat, s: Stamp, d: string) {
    exists i, k | low <= i <= k <= high :: StampAt(versions, i, s) && DocAt(versions, k, d)
  }

  ghost predicate StampBetween(versions: seq<Version>, low: nat, high: nat, s: Stamp) {
    exists i | low <= i <= high :: StampAt(versions, i, s)
  }

  ghost predicate ReaderInv(versions: seq<Version>, cur: nat, r: Reader) {
    match r
    case Idle => true
    case Called(from) => from <= cur
    case Statted(from, key) => StampBetween(versions, from, cur, key)
    case Reading(from, stamp, _) => from <= cur && (stamp.Stamped? ==> StampBetween(versions, from, cur, stamp.stamp))
    case Storing(from, key, doc) => ReadAfterStat(versions, from, cur, key, doc)
    case Returned(from, to, doc) => to <= cur && CurrentBetween(versions, from, to, doc)
    case Raised => true
  }

  ghost predicate Inv(versions: seq<Version>, w: World) {
    && w.cur < |versions|
    && (w.cache.Entry? ==> ReadAfterStat(versions, 0, w.cur, w.cache.stamp, w.cache.doc))
    && forall id | id in w.readers :: ReaderInv(versions, w.cur, w.readers[id])
  }

  lemma ReaderInvGrows(versions: seq<Version>, low: nat, high: nat, r: Reader)
    requires low <= high && ReaderInv(versions, low, r)
    ensures ReaderInv(versions, high, r)
  {
    match r
    case Statted(from, key) =>
      var i :| from <= i <= low && StampAt(versions, i, key);
    case Reading(from, stamp, _) =>
      if stamp.Stamped? {
        var i :| from <= i <= low && StampAt(versions, i, stamp.stamp);
      }
    case Storing(from, key, doc) =>
      var i, k :| from <= i <= k <= low && StampAt(versions, i, key) && DocAt(versions, k, doc);
    case _ =>
  }

  /** A cache hit: the stamp was current at the reader's stat, so the cached document was current
      then or later. */
  lemma HitIsCurrent(versions: seq<Version>, from: nat, cur: nat, s: Stamp, d: string)
    requires StampsTellVersionsApart(versions)
    requires StampBetween(versions, from, cur, s) && ReadAfterStat(versions, 0, cur, s, d)
    ensures CurrentBetween(versions, from, cur, d)
  {
    var j :| from <= j <= cur && StampAt(versions, j, s);
    var i, k :| 0 <= i <= k <= cur && StampAt(versions, i, s) && DocAt(versions, k, d);
    if k <= j {
      assert DocAt(versions, j, d);
    }
  }

  /** A reader may move to any state that keeps its part of the invariant. */
  lemma MoveKeepsInv(versions: seq<Version>, w: World, id: nat, r: Reader)
    requires Inv(versions, w) && ReaderInv(versions, w.cur, r)
    ensures Inv(versions, Move(w, id, r))
  {
  }

  lemma ReplaceKeepsInv(versions: seq<Version>, w: World)
    requires Inv(versions, w)
    ensures Inv(versions, Next(versions, w, Replace))
  {
    var v := Next(versions, w, Replace);
    forall id | id in w.readers
      ensures ReaderInv(versions, v.cur, w.readers[id])
    {
      ReaderInvGrows(versions, w.cur, v.cur, w.readers[id]);
    }
    if w.cache.Entry? {
      var i, k :| 0 <= i <= k <= w.cur && StampAt(versions, i, w.cache.stamp) && DocAt(versions, k, w.cache.doc);
    }
  }

  lemma LookupKeepsInv(versions: seq<Version>, w: World, id: nat)
    requires StampsTellVersionsApart(versions) && Inv(versions, w)
    ensures Inv(versions, Next(versions, w, Lookup(id)))
  {
    var r := ReaderOf(w, id);
    if r.Statted? {
      if w.cache.Entry? && w.cache.stamp == r.key {
        HitIsCurrent(versions, r.from, w.cur, r.key, w.cache.doc);
        MoveKeepsInv(versions, w, id, Returned(r.from, w.cur, w.cache.doc));
      } else {
        MoveKeepsInv(versions, w, id, Reading(r.from, Stamped(r.key), 0));
      }
    }
  }

  lemma ReadKeepsInv(versions: seq<Version>, w: World, id: nat)
    requires Inv(versions, w)
    ensures Inv(versions, Next(versions, w, Read(id)))
  {
    var r := ReaderOf(w, id);
    if r.Reading? {
      match versions[w.cur]
      case Missing => MoveKeepsInv(versions, w, id, Raised);
      case File(_, Malformed) =>
        MoveKeepsInv(versions, w, id, if r.attempt + 1 < MAX_ATTEMPTS then r.(attempt := r.attempt + 1) else Raised);
      case File(_, Doc(d)) =>
        assert DocAt(versions, w.cur, d);
        if r.stamp.Stamped? {
          var i :| r.from <= i <= w.cur && StampAt(versions, i, r.stamp.stamp);
          MoveKeepsInv(versions, w, id, Storing(r.from, r.stamp.stamp, d));
        } else {
          MoveKeepsInv(versions, w, id, Returned(r.from, w.cur, d));
        }
    }
  }

  lemma StoreKeepsInv(versions: seq<Version>, w: World, id: nat)
    requires Inv(versions, w)
    ensures Inv(versions, Next(versions, w, Store(id)))
  {
    var r := ReaderOf(w, id);
    if r.Storing? {
      var i, k :| r.from <= i <= k <= w.cur && StampAt(versions, i, r.key) && DocAt(versions, k, r.doc);
      MoveKeepsInv(versions, w, id, Returned(r.from, w.cur, r.doc));
    }
  }

  lemma StatKeepsInv(versions: seq<Version>, w: World, id: nat)
    requires Inv(versions, w)
    ensures Inv(versions, Next(versions, w, Stat(id)))
  {
    var r := ReaderOf(w, id);
    if r.Called? && versions[w.cur].File? {
      assert StampAt(versions, w.cur, versions[w.cur].stamp);
      MoveKeepsInv(versions, w, id, Statted(r.from, versions[w.cur].stamp));
    } else if r.Called? {
      MoveKeepsInv(versions, w, id, Reading(r.from, NoStamp, 0));
    }
  }

  lemma StepKeepsInv(versions: seq<Version>, w: World, s: Step)
    requires StampsTellVersionsApart(versions) && Inv(versions, w)
    ensures Inv(versions, Next(versions, w, s))
  {
    match s
    case Replace => ReplaceKeepsInv(versions, w);
    case Call(id) => MoveKeepsInv(versions, w, id, Called(w.cur));
    case Stat(id) => StatKeepsInv(versions, w, id);
    case StatFails(id) =>
      if ReaderOf(w, id).Called? {
        MoveKeepsInv(versions, w, id, Reading(ReaderOf(w, id).from, NoStamp, 0));
      }
    case Lookup(id) => LookupKeepsInv(versions, w, id);
    case Read(id) => ReadKeepsInv(versions, w, id);
    case Store(id) => StoreKeepsInv(versions, w, id);
  }

  lemma {:induction false} RunKeepsInv(versions: seq<Version>, steps: seq<Step>)
    requires versions != [] && StampsTellVersionsApart(versions)
    ensures Inv(versions, Run(versions, steps))
  {
    if steps != [] {
      RunKeepsInv(versions, steps[..|steps| - 1]);
      StepKeepsInv(versions, Run(versions, steps[..|steps| - 1]), steps[|steps| - 1]);
    }
  }

  // ---- necessity --------------------------------------------------------------------------

  lemma RunSnoc(versions: seq<Version>, steps: seq<Step>, s: Step)
    requires versions != []
    ensures Run(versions, steps + [s]) == Next(versions, Run(versions, steps), s)
  {
    assert (steps + [s])[..|steps|] == steps;
  }

  /** The writers can always move on by `n` versions. */
  lemma {:induction false} Advance(versions: seq<Version>, steps: seq<Step>, n: nat) returns (longer: seq<Step>)
    requires versions != [] && Run(versions, steps).cur + n < |versions|
    ensures Run(versions, longer) == Run(versions, steps).(cur := Run(versions, steps).cur + n)
    decreases n
  {
    longer := steps;
    if n > 0 {
      RunSnoc(versions, steps, Replace);
      longer := Advance(versions, steps + [Replace], n - 1);
    }
  }

  /** A new reader calls and stats. */
  lemma CallAndStat(versions: seq<Version>, steps: seq<Step>, id: nat, s: Stamp) returns (longer: seq<Step>)
    requires versions != [] && ReaderOf(Run(versions, steps), id).Idle?
    requires StampAt(versions, Run(versions, steps).cur, s)
    ensures var w := Run(versions, steps); Run(versions, longer) == Move(w, id, Statted(w.cur, s))
  {
    RunSnoc(versions, steps, Call(id));
    longer := steps + [Call(id)];
    RunSnoc(versions, longer, Stat(id));
    var w := Run(versions, steps);
    assert w.readers[id := Called(w.cur)][id := Statted(w.cur, s)] == w.readers[id := Statted(w.cur, s)];
    longer := longer + [Stat(id)];
  }

  /** A reader that stats version `i`, misses, and reads version `k` leaves the old stamp in the
      cache with the newer document. */
  lemma MixedEntry(versions: seq<Version>, i: nat, k: nat, s: Stamp, d: string) returns (steps: seq<Step>)
    requires i <= k && StampAt(versions, i, s) && DocAt(versions, k, d)
    ensures Run(versions, steps) == World(k, Entry(s, d), map[0 := Returned(i, k, d)])
  {
    steps := Advance(versions, [], i);
    steps := CallAndStat(versions, steps, 0, s);
    assert Run(versions, steps) == World(i, NoEntry, map[0 := Statted(i, s)]);
    RunSnoc(versions, steps, Lookup(0));
    steps := steps + [Lookup(0)];
    assert Run(versions, steps) == World(i, NoEntry, map[0 := Reading(i, Stamped(s), 0)]);
    steps := Advance(versions, steps, k - i);
    RunSnoc(versions, steps, Read(0));
    steps := steps + [Read(0)];
    assert Run(versions, steps) == World(k, NoEntry, map[0 := Storing(i, s, d)]);
    RunSnoc(versions, steps, Store(0));
    steps := steps + [Store(0)];
  }

  /** Such an entry serves a later reader of version `j` although the file has another content
      throughout its call. */
  lemma StaleHit(versions: seq<Version>, i: nat, k: nat, j: nat, s: Stamp, d: string)
    requires i <= k <= j && StampAt(versions, i, s) && DocAt(versions, k, d) && StampAt(versions, j, s)
    requires !DocAt(versions, j, d)
    ensures !CacheIsSafe(versions)
  {
    var steps := MixedEntry(versions, i, k, s, d);
    steps := Advance(versions, steps, j - k);
    steps := CallAndStat(versions, steps, 1, s);
    RunSnoc(versions, steps, Lookup(1));
    steps := steps + [Lookup(1)];
    assert Run(versions, steps).readers[1] == Returned(j, j, d);
    assert !CurrentBetween(versions, j, j, d);
    assert !ReadsAreCurrent(versions, Run(versions, steps));
  }

  /** The parse cache only ever returns current content, in every interleaving of readers and
      atomic replacements, exactly when stamps tell the committed versions apart. */
  lemma SafeIffStampsTellApart(versions: seq<Version>)
    requires versions != []
    ensures CacheIsSafe(versions) <==> StampsTellVersionsApart(versions)
  {
    if StampsTellVersionsApart(versions) {
      forall steps: seq<Step>
        ensures ReadsAreCurrent(versions, Run(versions, steps))
      {
        RunKeepsInv(versions, steps);
      }
    } else {
      var i, k, j, s, d :| 0 <= i <= k <= j && StampAt(versions, i, s) && DocAt(versions, k, d)
                           && StampAt(versions, j, s) && !DocAt(versions, j, d);
      StaleHit(versions, i, k, j, s, d);
    }
  }

  /** In particular the cache is safe as long as no two committed versions share a stamp, even
      though an entry may pair an old stamp with newer content. */
  lemma SafeIfStampsNeverRepeat(versions: seq<Version>)
    requires versions != []
    requires forall i, j, s | 0 <= i <= j && StampAt(versions, i, s) && StampAt(versions, j, s) :: i == j
    ensures CacheIsSafe(versions)
  {
    SafeIffStampsTellApart(versions);
  }
}
