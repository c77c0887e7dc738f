/** Immutable artifact versions and their provenance (tyche/workspace.py). */
module Artifacts {
  import opened Options
  import opened ArtifactNames
  import opened TreeDigest

  /** What lies at a path: a file, or a directory with the files below it. */
  datatype Blob = File(text: string) | Tree(files: Listing)

  datatype Kind = TextKind | FileKind | TreeKind

  datatype Record = Record(id: string, name: string, version: nat, path: string, digest: string, kind: Kind,
                           parent: Option<string>, note: Note)

  /** The caller's own fields of a record. */
  datatype Note = Note(stage: string, inputs: seq<string>, note: string)

  /** The artifact directory and the provenance log. */
  datatype Disk = Disk(files: map<string, Blob>, records: seq<Record>)

  /** What is to be saved. A source that is not there makes the save fail. */
  datatype Payload =
    | Text(text: string, suffix: string)
    | Copy(source: Option<string>, sourceName: string, suffix: string)
    | CopyTree(listing: Option<Listing>)

  /** A process that dies between starting to write a version and recording it leaves anything, or
      nothing, at the path. */
  datatype Crash = NoCrash | Crash(left: Option<Blob>)

  datatype Saved = Saved(record: Record) | Failed | Died

  function SuffixOf(payload: Payload): string { if payload.CopyTree? then "" else payload.suffix }

  function KindOf(payload: Payload): Kind {
    match payload
    case Text(_, _) => TextKind
    case Copy(_, _, _) => FileKind
    case CopyTree(_) => TreeKind
  }

  // ---- queries ----------------------------------------------------------------------------

  /** The record of highest version, the earliest of them if several. */
  ghost function LatestOf(records: seq<Record>, name: string): Option<Record> {
    if records == [] then None
    else
      var n := |records| - 1;
      var best := LatestOf(records[..n], name);
      if records[n].name == name && (best.None? || records[n].version > best.value.version)
      then Some(records[n]) else best
  }

  method Latest(records: seq<Record>, name: string) returns (best: Option<Record>)
    ensures best == LatestOf(records, name)
  {
    best := None;
    for i := 0 to |records|
      invariant best == LatestOf(records[..i], name)
    {
      assert records[..i + 1][..i] == records[..i];
      if records[i].name == name && (best.None? || records[i].version > best.value.version) {
        best := Some(records[i]);
      }
    }
    assert records[..|records|] == records;
  }

  /** The first record with an id. */
  ghost function RecordOf(records: seq<Record>, id: string): Option<Record> {
    if records == [] then None
    else if records[0].id == id then Some(records[0])
    else RecordOf(records[1..], id)
  }

  method FindRecord(records: seq<Record>, id: string) returns (found: Option<Record>)
    ensures found == RecordOf(records, id)
  {
    assert records[0..] == records;
    for i := 0 to |records|
      invariant RecordOf(records, id) == RecordOf(records[i..], id)
    {
      assert records[i..][1..] == records[i + 1..];
      if records[i].id == id {
        return Some(records[i]);
      }
    }
    found := None;
  }

  // ---- saving -----------------------------------------------------------------------------

  /** Files that are not copied with a tree. */
  predicate Ignored(path: seq<string>) {
    exists c | c in path ::
      c == "__pycache__" || c == ".venv" || (|c| >= 4 && c[|c| - 4..] == ".pyc")
  }

  function Copied(listing: Listing): Listing { map p | p in listing && !Ignored(p) :: listing[p] }

  function Next(records: seq<Record>, name: string, latest: Option<Record>): (nat, Option<string>) {
    if latest.Some? then (latest.value.version + 1, Some(latest.value.id)) else (1, None)
  }

  /** Writing one version: the new files, and whether the write went through. Files are not written
      over directories nor directories over files; what a crashed save left is overwritten. */
  function Written(files: map<string, Blob>, path: string, payload: Payload): (map<string, Blob>, bool) {
    var there := if path in files then Some(files[path]) else None;
    match payload
    case Text(text, _) =>
      if there.Some? && there.value.Tree? then (files, false) else (files[path := File(text)], true)
    case Copy(source, sourceName, _) =>
      if source.None? then (files, false)
      else if there.Some? && there.value.Tree? then
        (files[path := Tree(there.value.files[[sourceName] := source.value])], false)
      else (files[path := File(source.value)], true)
    case CopyTree(listing) =>
      if there.Some? && there.value.File? then (files, false)
      else if listing.None? then (files - {path}, false)
      else (files[path := Tree(Copied(listing.value))], true)
  }

  /** What is fed to the digest of a file or a directory. */
  ghost function Fed(hash: Hash, blob: Blob): string {
    match blob
    case File(text) => text
    case Tree(files) => Stream(hash, files)
  }

  ghost function Digest(hash: Hash, blob: Blob): string { hash(Fed(hash, blob)) }

  /** `sha256_file` or `sha256_tree` */
  method Sha256(hash: Hash, blob: Blob) returns (digest: string)
    ensures digest == Digest(hash, blob)
  {
    match blob {
      case File(text) => digest := hash(text);
      case Tree(files) => digest := Sha256Tree(hash, files);
    }
  }

  /** The run directory's artifacts. */
  class Workspace {
    const hash: Hash
    var files: map<string, Blob>
    var records: seq<Record>

    ghost function Contents(): Disk
      reads this
    {
      Disk(files, records)
    }

    constructor (hash: Hash)
      ensures this.hash == hash && Contents() == Disk(map[], [])
    {
      this.hash, files, records := hash, map[], [];
    }

    /** `save_text`, `save_file` and `save_tree`. A save that goes through adds one record, at the
        end; the record's version follows all others of the name, its parent is the version before,
        and its digest is that of the bytes on disk. Nothing else of the disk changes but the path of
        the new version, which no record used before. */
    method Save(name: string, payload: Payload, note: Note, crash: Crash) returns (saved: Saved)
      requires NameOk(name) && SuffixOk(SuffixOf(payload))
      requires Sound(hash, Contents())
      modifies this
      ensures (Contents(), saved) == SaveSpec(hash, old(Contents()), name, payload, note, crash)
      ensures Sound(hash, Contents())
      ensures Extends(old(Contents()), Contents())
      ensures saved.Saved? <==> |records| == |old(records)| + 1
      ensures saved.Saved? ==> saved.record.path in files && AsGiven(payload, files[saved.record.path])
      ensures saved.Saved? ==> DescribedBy(hash, payload, files[saved.record.path], saved.record)
    {
      SavedIsLatest(hash, Contents(), name, payload, note, crash);
      SaveIsSound(hash, Contents(), name, payload, note, crash);
      var latest := Latest(records, name);
      var (version, parent) := Next(records, name, latest);
      var path := PathOf(name, version, SuffixOf(payload));
      if crash.Crash? {
        files := if crash.left.Some? then files[path := crash.left.value] else files - {path};
        return Died;
      }
      var (files', ok) := Written(files, path, payload);
      files := files';
      if !ok {
        return Failed;
      }
      var digest := Sha256(hash, files[path]);
      var record := Record(Id(name, version), name, version, path, digest, KindOf(payload), parent, note);
      records := records + [record];
      saved := Saved(record);
    }

    /** `verify_provenance`: the ids whose bytes changed, in order; nothing at all (the original
        raises) when a recorded file has become a directory. */
    method VerifyProvenance() returns (drifted: Option<seq<string>>)
      ensures drifted == DriftOf(hash, files, records)
      ensures Sound(hash, Contents()) ==> drifted == Some([])
    {
      if Sound(hash, Contents()) {
        NothingDrifts(hash, Contents());
      }
      var found: seq<string> := [];
      for i := 0 to |records|
        invariant DriftOf(hash, files, records[..i]) == Some(found)
      {
        assert records[..i + 1][..i] == records[..i];
        var record := records[i];
        if record.path !in files {
          found := found + [record.id];
        } else if record.kind != TreeKind && files[record.path].Tree? {
          RaisesOn(hash, files, records, i);
          return None;
        } else {
          var actual := Sha256(hash, Read(record, files[record.path]));
          if actual != record.digest {
            found := found + [record.id];
          }
        }
      }
      assert records[..|records|] == records;
      drifted := Some(found);
    }
  }

  ghost function SaveSpec(hash: Hash, disk: Disk, name: string, payload: Payload, note: Note, crash: Crash)
    : (Disk, Saved)
  {
    var (version, parent) := Next(disk.records, name, LatestOf(disk.records, name));
    SaveAs(hash, disk, name, version, parent, payload, note, crash)
  }

  ghost function SaveAs(hash: Hash, disk: Disk, name: string, version: nat, parent: Option<string>,
                        payload: Payload, note: Note, crash: Crash): (Disk, Saved)
  {
    var path := PathOf(name, version, SuffixOf(payload));
    if crash.Crash? then
      (disk.(files := if crash.left.Some? then disk.files[path := crash.left.value] else disk.files - {path}), Died)
    else
      var (files', ok) := Written(disk.files, path, payload);
      if !ok then (disk.(files := files'), Failed)
      else
        var record := Record(Id(name, version), name, version, path, Digest(hash, files'[path]), KindOf(payload),
                             parent, note);
        (Disk(files', disk.records + [record]), Saved(record))
  }

  /** What is read back for a record; a file in the place of a recorded tree has nothing below. */
  function Read(record: Record, blob: Blob): Blob {
    if record.kind == TreeKind && blob.File? then Tree(map[]) else blob
  }

  ghost function DriftOf(hash: Hash, files: map<string, Blob>, records: seq<Record>): Option<seq<string>> {
    if records == [] then Some([])
    else
      var n := |records| - 1;
      var before, record := DriftOf(hash, files, records[..n]), records[n];
      if before.None? then None
      else if record.path !in files then Some(before.value + [record.id])
      else if record.kind != TreeKind && files[record.path].Tree? then None
      else if Digest(hash, Read(record, files[record.path])) != record.digest then Some(before.value + [record.id])
      else before
  }

  lemma {:induction false} RaisesOn(hash: Hash, files: map<string, Blob>, records: seq<Record>, i: nat)
    requires i < |records| && DriftOf(hash, files, records[..i + 1]) == None
    ensures DriftOf(hash, files, records) == None
    decreases |records|
  {
    if i + 1 < |records| {
      var n := |records| - 1;
      assert records[..n][..i + 1] == records[..i + 1];
      RaisesOn(hash, files, records[..n], i);
    } else {
      assert records[..i + 1] == records;
    }
  }

  // ---- what every save keeps --------------------------------------------------------------

  /** How many records have a name. */
  ghost function Count(records: seq<Record>, name: string): nat {
    if records == [] then 0
    else Count(records[..|records| - 1], name) + if records[|records| - 1].name == name then 1 else 0
  }

  /** The record says where its version is, and which version it is given those before it. */
  ghost predicate RecordOk(record: Record, before: nat) {
    && NameOk(record.name)
    && record.version == before + 1
    && record.id == Id(record.name, record.version)
    && record.parent == (if before == 0 then None else Some(Id(record.name, before)))
    && exists suffix :: SuffixOk(suffix) && record.path == PathOf(record.name, record.version, suffix)
  }

  /** The recorded bytes are on disk, in the right form. */
  ghost predicate Stored(hash: Hash, files: map<string, Blob>, record: Record) {
    && record.path in files
    && (record.kind == TreeKind <==> files[record.path].Tree?)
    && Digest(hash, files[record.path]) == record.digest
  }

  ghost predicate Sound(hash: Hash, disk: Disk) {
    forall k | 0 <= k < |disk.records| :: SoundAt(hash, disk, k)
  }

  ghost predicate SoundAt(hash: Hash, disk: Disk, k: nat)
    requires k < |disk.records|
  {
    && RecordOk(disk.records[k], Count(disk.records[..k], disk.records[k].name))
    && Stored(hash, disk.files, disk.records[k])
  }

  /** Nothing recorded in `disk` is lost or altered in `disk'`. */
  ghost predicate Extends(disk: Disk, disk': Disk) {
    && disk.records <= disk'.records
    && forall r | r in disk.records && r.path in disk.files ::
         r.path in disk'.files && disk'.files[r.path] == disk.files[r.path]
  }

  lemma {:induction false} CountGrows(records: seq<Record>, j: nat, name: string)
    requires j <= |records|
    ensures Count(records[..j], name) <= Count(records, name)
    ensures j < |records| && records[j].name == name ==> Count(records[..j], name) < Count(records, name)
  {
    if j < |records| {
      var n := |records| - 1;
      assert records[..n][..j] == records[..j];
      if j < n {
        CountGrows(records[..n], j, name);
      }
    } else {
      assert records[..j] == records;
    }
  }

  /** The latest record of a name is its last, and its version is their number. */
  lemma {:induction false} LatestIsLast(hash: Hash, disk: Disk, n: nat, name: string)
    requires Sound(hash, disk) && n <= |disk.records|
    ensures var latest, count := LatestOf(disk.records[..n], name), Count(disk.records[..n], name);
            if count == 0 then latest == None
            else latest.Some? && latest.value.version == count && latest.value.id == Id(name, count)
  {
    if n > 0 {
      assert disk.records[..n][..n - 1] == disk.records[..n - 1];
      LatestIsLast(hash, disk, n - 1, name);
      assert SoundAt(hash, disk, n - 1);
    }
  }

  /** No record uses the path of the next version. */
  lemma NextPathIsFree(hash: Hash, disk: Disk, name: string, suffix: string)
    requires Sound(hash, disk) && NameOk(name) && SuffixOk(suffix)
    ensures forall r | r in disk.records :: r.path != PathOf(name, Count(disk.records, name) + 1, suffix)
  {
    forall k | 0 <= k < |disk.records|
      ensures disk.records[k].path != PathOf(name, Count(disk.records, name) + 1, suffix)
    {
      var r := disk.records[k];
      assert SoundAt(hash, disk, k);
      var s :| SuffixOk(s) && r.path == PathOf(r.name, r.version, s);
      CountGrows(disk.records, k, r.name);
      if r.path == PathOf(name, Count(disk.records, name) + 1, suffix) {
        PathIsInjective(r.name, r.version, s, name, Count(disk.records, name) + 1, suffix);
      }
    }
  }

  /** Only the path written to differs. */
  ghost predicate SameBut(files: map<string, Blob>, files': map<string, Blob>, path: string) {
    && (forall p | p in files && p != path :: p in files' && files'[p] == files[p])
    && (forall p | p in files' && p != path :: p in files)
  }

  lemma ElsewhereIsSound(hash: Hash, disk: Disk, files': map<string, Blob>, path: string)
    requires Sound(hash, disk) && SameBut(disk.files, files', path)
    requires forall r | r in disk.records :: r.path != path
    ensures Sound(hash, disk.(files := files')) && Extends(disk, disk.(files := files'))
  {
    forall k | 0 <= k < |disk.records|
      ensures SoundAt(hash, disk.(files := files'), k)
    {
      assert SoundAt(hash, disk, k) && disk.records[k] in disk.records;
    }
  }

  lemma AppendIsSound(hash: Hash, disk: Disk, record: Record)
    requires Sound(hash, disk) && Stored(hash, disk.files, record)
    requires RecordOk(record, Count(disk.records, record.name))
    ensures Sound(hash, disk.(records := disk.records + [record]))
  {
    var records := disk.records + [record];
    forall k | 0 <= k < |records|
      ensures SoundAt(hash, disk.(records := records), k)
    {
      if k < |disk.records| {
        assert SoundAt(hash, disk, k);
        assert records[..k] == disk.records[..k];
      } else {
        assert records[..k] == disk.records;
      }
    }
  }

  lemma WrittenElsewhereSame(files: map<string, Blob>, path: string, payload: Payload)
    ensures var (files', ok) := Written(files, path, payload);
            SameBut(files, files', path)
            && (ok ==> path in files' && (files'[path].Tree? <==> payload.CopyTree?))
  {
  }

  lemma SaveAsIsSound(hash: Hash, disk: Disk, name: string, version: nat, parent: Option<string>,
                      payload: Payload, note: Note, crash: Crash)
    requires Sound(hash, disk) && NameOk(name) && SuffixOk(SuffixOf(payload))
    requires forall r | r in disk.records :: r.path != PathOf(name, version, SuffixOf(payload))
    requires version == Count(disk.records, name) + 1
    requires parent == if version == 1 then None else Some(Id(name, version - 1))
    ensures var (disk', saved) := SaveAs(hash, disk, name, version, parent, payload, note, crash);
            Sound(hash, disk') && Extends(disk, disk')
            && (saved.Saved? <==> |disk'.records| == |disk.records| + 1)
  {
    var path := PathOf(name, version, SuffixOf(payload));
    var (disk', saved) := SaveAs(hash, disk, name, version, parent, payload, note, crash);
    WrittenElsewhereSame(disk.files, path, payload);
    ElsewhereIsSound(hash, disk, disk'.files, path);
    if saved.Saved? {
      AppendIsSound(hash, disk.(files := disk'.files), saved.record);
    }
  }

  lemma SaveIsSound(hash: Hash, disk: Disk, name: string, payload: Payload, note: Note, crash: Crash)
    requires Sound(hash, disk) && NameOk(name) && SuffixOk(SuffixOf(payload))
    ensures var (disk', saved) := SaveSpec(hash, disk, name, payload, note, crash);
            Sound(hash, disk') && Extends(disk, disk')
            && (saved.Saved? <==> |disk'.records| == |disk.records| + 1)
  {
    assert disk.records[..|disk.records|] == disk.records;
    LatestIsLast(hash, disk, |disk.records|, name);
    NextPathIsFree(hash, disk, name, SuffixOf(payload));
    var (version, parent) := Next(disk.records, name, LatestOf(disk.records, name));
    SaveAsIsSound(hash, disk, name, version, parent, payload, note, crash);
  }

  /** What is left to read of a payload once saved. */
  function Content(payload: Payload): Option<Blob> {
    match payload
    case Text(text, _) => Some(File(text))
    case Copy(source, _, _) => if source.Some? then Some(File(source.value)) else None
    case CopyTree(listing) => if listing.Some? then Some(Tree(Copied(listing.value))) else None
  }

  /** A save goes through exactly when the process lives, the source is there, and no earlier crashed
      save left a directory where a file is to go or the other way round. Then the new record is the
      latest of its name and reads back what was saved; the latest of no other name changes. */
  lemma SavedIsLatest(hash: Hash, disk: Disk, name: string, payload: Payload, note: Note, crash: Crash)
    requires Sound(hash, disk) && NameOk(name) && SuffixOk(SuffixOf(payload))
    ensures var (disk', saved) := SaveSpec(hash, disk, name, payload, note, crash);
            var path := PathOf(name, Count(disk.records, name) + 1, SuffixOf(payload));
            && (saved.Saved? <==> crash.NoCrash? && Content(payload).Some?
                                  && (path in disk.files ==> (disk.files[path].Tree? <==> payload.CopyTree?)))
            && (saved.Saved? ==> LatestOf(disk'.records, name) == Some(saved.record) && saved.record.note == note
                                 && saved.record.path == path && path in disk'.files
                                 && Some(disk'.files[path]) == Content(payload) && AsGiven(payload, disk'.files[path]))
            && forall other | other != name :: LatestOf(disk'.records, other) == LatestOf(disk.records, other)
  {
    NextIsNew(hash, disk, name);
    var (version, parent) := Next(disk.records, name, LatestOf(disk.records, name));
    SaveAsLatest(hash, disk, name, version, parent, payload, note, crash);
  }

  lemma NextIsNew(hash: Hash, disk: Disk, name: string)
    requires Sound(hash, disk)
    ensures var latest := LatestOf(disk.records, name);
            && Next(disk.records, name, latest).0 == Count(disk.records, name) + 1
            && (latest.Some? ==> latest.value.version == Count(disk.records, name))
  {
    assert disk.records[..|disk.records|] == disk.records;
    LatestIsLast(hash, disk, |disk.records|, name);
  }

  lemma SaveAsLatest(hash: Hash, disk: Disk, name: string, version: nat, parent: Option<string>,
                     payload: Payload, note: Note, crash: Crash)
    requires var latest := LatestOf(disk.records, name); latest.None? || latest.value.version < version
    ensures var (disk', saved) := SaveAs(hash, disk, name, version, parent, payload, note, crash);
            var path := PathOf(name, version, SuffixOf(payload));
            && (saved.Saved? <==> crash.NoCrash? && Content(payload).Some?
                                  && (path in disk.files ==> (disk.files[path].Tree? <==> payload.CopyTree?)))
            && (saved.Saved? ==> LatestOf(disk'.records, name) == Some(saved.record) && saved.record.note == note
                                 && saved.record.path == path && path in disk'.files
                                 && Some(disk'.files[path]) == Content(payload) && AsGiven(payload, disk'.files[path]))
            && forall other | other != name :: LatestOf(disk'.records, other) == LatestOf(disk.records, other)
  {
    SaveAsWritten(hash, disk, name, version, parent, payload, note, crash);
    var saved := SaveAs(hash, disk, name, version, parent, payload, note, crash).1;
    if saved.Saved? {
      ContentIsAsGiven(payload);
      AppendLatest(disk.records, saved.record);
    }
  }

  lemma SaveAsWritten(hash: Hash, disk: Disk, name: string, version: nat, parent: Option<string>,
                      payload: Payload, note: Note, crash: Crash)
    ensures var (disk', saved) := SaveAs(hash, disk, name, version, parent, payload, note, crash);
            var path := PathOf(name, version, SuffixOf(payload));
            && (saved.Saved? <==> crash.NoCrash? && Content(payload).Some?
                                  && (path in disk.files ==> (disk.files[path].Tree? <==> payload.CopyTree?)))
            && (saved.Saved? ==> saved.record.name == name && saved.record.version == version
                                 && saved.record.note == note && saved.record.path == path
                                 && path in disk'.files && Some(disk'.files[path]) == Content(payload)
                                 && disk'.records == disk.records + [saved.record])
            && (!saved.Saved? ==> disk'.records == disk.records)
  {
  }

  lemma AppendLatest(records: seq<Record>, r: Record)
    ensures forall other | other != r.name :: LatestOf(records + [r], other) == LatestOf(records, other)
    ensures LatestOf(records, r.name).None? || r.version > LatestOf(records, r.name).value.version ==>
              LatestOf(records + [r], r.name) == Some(r)
  {
    assert (records + [r])[..|records|] == records;
  }

  // ---- over a whole run -------------------------------------------------------------------

  /** The text or the file as given; of a directory every file but those with a component that is
      `__pycache__` or `.venv` or ends in `.pyc`. */
  ghost predicate AsGiven(payload: Payload, blob: Blob) {
    match payload
    case Text(text, _) => blob == File(text)
    case Copy(source, _, _) => source.Some? && blob == File(source.value)
    case CopyTree(listing) =>
      && listing.Some? && blob.Tree?
      && forall p :: FileAsGiven(p, listing.value, blob.files)
  }

  ghost predicate FileAsGiven(p: Path, listing: Listing, saved: Listing) {
    && (p in saved <==>
        p in listing
        && forall c | c in p :: c != "__pycache__" && c != ".venv" && !(|c| >= 4 && c[|c| - 4..] == ".pyc"))
    && (p in saved ==> saved[p] == listing[p])
  }

  /** The record's kind is that of the save, and its digest that of the bytes, or of the directory's names and
      digests. */
  ghost predicate DescribedBy(hash: Hash, payload: Payload, blob: Blob, r: Record) {
    && (match payload
        case Text(_, _) => r.kind == TextKind
        case Copy(_, _, _) => r.kind == FileKind
        case CopyTree(_) => r.kind == TreeKind)
    && match blob
       case File(text) => r.digest == hash(text)
       case Tree(files) => r.digest == hash(Stream(hash, files))
  }

  lemma ContentIsAsGiven(payload: Payload)
    requires Content(payload).Some?
    ensures AsGiven(payload, Content(payload).value)
  {
  }

  datatype Save = Save(name: string, payload: Payload, note: Note, crash: Crash)

  ghost predicate SavesOk(saves: seq<Save>) {
    forall s | s in saves :: NameOk(s.name) && SuffixOk(SuffixOf(s.payload))
  }

  /** The disk after a sequence of saves, some of which may have failed or died. */
  ghost function After(hash: Hash, saves: seq<Save>): Disk
    decreases |saves|
  {
    if saves == [] then Disk(map[], [])
    else
      var s := saves[|saves| - 1];
      SaveSpec(hash, After(hash, saves[..|saves| - 1]), s.name, s.payload, s.note, s.crash).0
  }

  /** Every state saves can reach is sound. */
  lemma {:induction false} AlwaysSound(hash: Hash, saves: seq<Save>)
    requires SavesOk(saves)
    ensures Sound(hash, After(hash, saves))
  {
    if saves != [] {
      var before, s := saves[..|saves| - 1], saves[|saves| - 1];
      AlwaysSound(hash, before);
      SaveIsSound(hash, After(hash, before), s.name, s.payload, s.note, s.crash);
    }
  }

  /** Whatever is recorded at some point of a run is recorded, with the same bytes, ever after. */
  lemma {:induction false} RecordedForever(hash: Hash, saves: seq<Save>, m: nat)
    requires SavesOk(saves) && m <= |saves|
    ensures Extends(After(hash, saves[..m]), After(hash, saves))
    decreases |saves|
  {
    if m < |saves| {
      var before, s := saves[..|saves| - 1], saves[|saves| - 1];
      assert before[..m] == saves[..m];
      RecordedForever(hash, before, m);
      AlwaysSound(hash, before);
      SaveIsSound(hash, After(hash, before), s.name, s.payload, s.note, s.crash);
      ExtendsFurther(hash, After(hash, saves[..m]), After(hash, before), After(hash, saves));
    } else {
      assert saves[..m] == saves;
    }
  }

  lemma ExtendsFurther(hash: Hash, a: Disk, b: Disk, c: Disk)
    requires Extends(a, b) && Extends(b, c)
    ensures Extends(a, c)
  {
    forall r | r in a.records && r.path in a.files
      ensures r.path in c.files && c.files[r.path] == a.files[r.path]
    {
      assert r in b.records;
    }
  }

  /** No two records share an id or a path. */
  lemma RecordsDiffer(hash: Hash, disk: Disk, j: nat, k: nat)
    requires Sound(hash, disk) && j < k < |disk.records|
    ensures disk.records[j].id != disk.records[k].id && disk.records[j].path != disk.records[k].path
  {
    var a, b := disk.records[j], disk.records[k];
    assert SoundAt(hash, disk, j) && SoundAt(hash, disk, k);
    assert disk.records[..k][..j] == disk.records[..j];
    CountGrows(disk.records[..k], j, a.name);
    var s :| SuffixOk(s) && a.path == PathOf(a.name, a.version, s);
    var t :| SuffixOk(t) && b.path == PathOf(b.name, b.version, t);
    if a.id == b.id {
      IdIsInjective(a.name, a.version, b.name, b.version);
    }
    if a.path == b.path {
      PathIsInjective(a.name, a.version, s, b.name, b.version, t);
    }
  }

  /** Looking a record's id up gives that record. */
  lemma RecordFound(hash: Hash, disk: Disk, k: nat)
    requires Sound(hash, disk) && k < |disk.records|
    ensures RecordOf(disk.records, disk.records[k].id) == Some(disk.records[k])
  {
    forall j | 0 <= j < k
      ensures disk.records[j].id != disk.records[k].id
    {
      RecordsDiffer(hash, disk, j, k);
    }
    FirstIsFound(disk.records, k);
  }

  lemma {:induction false} FirstIsFound(records: seq<Record>, k: nat)
    requires k < |records| && forall j | 0 <= j < k :: records[j].id != records[k].id
    ensures RecordOf(records, records[k].id) == Some(records[k])
  {
    if k > 0 {
      FirstIsFound(records[1..], k - 1);
    }
  }

  /** The versions of a name are 1, 2, ... up to their number, each of them once. */
  lemma VersionsAreCounted(hash: Hash, disk: Disk, name: string, v: nat)
    requires Sound(hash, disk)
    ensures 1 <= v <= Count(disk.records, name) <==>
            exists k :: 0 <= k < |disk.records| && disk.records[k].name == name && disk.records[k].version == v
    ensures forall j, k | 0 <= j < k < |disk.records| && disk.records[j].name == name == disk.records[k].name ::
              disk.records[j].version < disk.records[k].version
  {
    var n := |disk.records|;
    assert disk.records[..n] == disk.records;
    if 1 <= v <= Count(disk.records, name) {
      var k := VersionExists(hash, disk, n, name, v);
    }
    forall k | 0 <= k < n && disk.records[k].name == name
      ensures 1 <= disk.records[k].version <= Count(disk.records, name)
    {
      assert SoundAt(hash, disk, k);
      CountGrows(disk.records, k, name);
    }
    forall j, k | 0 <= j < k < n && disk.records[j].name == name == disk.records[k].name
      ensures disk.records[j].version < disk.records[k].version
    {
      assert SoundAt(hash, disk, j) && SoundAt(hash, disk, k);
      assert disk.records[..k][..j] == disk.records[..j];
      CountGrows(disk.records[..k], j, name);
    }
  }

  lemma {:induction false} VersionExists(hash: Hash, disk: Disk, n: nat, name: string, v: nat) returns (k: nat)
    requires Sound(hash, disk) && n <= |disk.records| && 1 <= v <= Count(disk.records[..n], name)
    ensures k < n && disk.records[k].name == name && disk.records[k].version == v
  {
    assert disk.records[..n][..n - 1] == disk.records[..n - 1];
    if v <= Count(disk.records[..n - 1], name) {
      k := VersionExists(hash, disk, n - 1, name, v);
    } else {
      k := n - 1;
      assert SoundAt(hash, disk, k);
    }
  }

  /** Every version but the first points to the record of the version before it, which is earlier in
      the log; the latest record of a name is the one of highest version. */
  lemma ParentIsPrevious(hash: Hash, disk: Disk, k: nat) returns (j: nat)
    requires Sound(hash, disk) && k < |disk.records| && disk.records[k].version > 1
    ensures j < k && disk.records[j].name == disk.records[k].name
    ensures disk.records[j].version == disk.records[k].version - 1
    ensures disk.records[k].parent.Some?
            && RecordOf(disk.records, disk.records[k].parent.value) == Some(disk.records[j])
  {
    var r := disk.records[k];
    assert SoundAt(hash, disk, k);
    j := VersionExists(hash, disk, k, r.name, r.version - 1);
    assert SoundAt(hash, disk, j);
    RecordFound(hash, disk, j);
  }

  lemma LatestIsHighest(hash: Hash, disk: Disk, name: string)
    requires Sound(hash, disk)
    ensures LatestOf(disk.records, name).None? <==> forall r | r in disk.records :: r.name != name
    ensures LatestOf(disk.records, name).Some? ==>
              var latest := LatestOf(disk.records, name).value;
              latest in disk.records && latest.name == name
              && forall r | r in disk.records && r.name == name :: r == latest || r.version < latest.version
  {
    var n := |disk.records|;
    assert disk.records[..n] == disk.records;
    LatestIsLast(hash, disk, n, name);
    var count := Count(disk.records, name);
    forall k | 0 <= k < n && disk.records[k].name == name
      ensures disk.records[k].version <= count && count > 0
    {
      assert SoundAt(hash, disk, k);
      CountGrows(disk.records, k, name);
    }
    if count > 0 {
      VersionsAreCounted(hash, disk, name, count);
      LatestIsRecorded(disk.records, name);
    }
  }

  lemma {:induction false} LatestIsRecorded(records: seq<Record>, name: string)
    ensures LatestOf(records, name).Some? ==>
              LatestOf(records, name).value in records && LatestOf(records, name).value.name == name
  {
    if records != [] {
      LatestIsRecorded(records[..|records| - 1], name);
    }
  }

  // ---- what a changed disk reports --------------------------------------------------------

  /** What a reader of the record finds at its path. */
  function Seen(record: Record, files: map<string, Blob>): Option<Blob> {
    if record.path in files then Some(Read(record, files[record.path])) else None
  }

  ghost predicate Changed(hash: Hash, files: map<string, Blob>, r: Record) {
    r.path !in files || Digest(hash, Read(r, files[r.path])) != r.digest
  }

  /** No recorded file became a directory. */
  ghost predicate Readable(files: map<string, Blob>, records: seq<Record>) {
    forall r | r in records && r.kind != TreeKind && r.path in files :: files[r.path].File?
  }

  lemma {:induction false} DriftLists(hash: Hash, files: map<string, Blob>, records: seq<Record>)
    requires Readable(files, records)
    ensures DriftOf(hash, files, records).Some?
    ensures forall id :: id in DriftOf(hash, files, records).value <==>
                         exists r | r in records :: r.id == id && Changed(hash, files, r)
  {
    if records != [] {
      var n := |records| - 1;
      DriftLists(hash, files, records[..n]);
      assert records[n] in records;
      assert forall r :: r in records <==> r in records[..n] || r == records[n] by {
        assert records == records[..n] + [records[n]];
      }
    }
  }

  /** SHA-256 does not confuse these texts. */
  ghost predicate NoCollision(hash: Hash, texts: set<string>) {
    forall a, b | a in texts && b in texts :: hash(a) == hash(b) ==> a == b
  }

  /** What is fed to a digest for the record, now and when it was saved. */
  ghost function FedFor(hash: Hash, r: Record, before: map<string, Blob>, now: map<string, Blob>): set<string>
    requires r.path in before
  {
    {Fed(hash, before[r.path])} + if r.path in now then {Fed(hash, Read(r, now[r.path]))} else {}
  }

  /** However the files were changed since they were recorded, provided no recorded file became a
      directory, the report lists exactly the records whose artifact is gone or feeds the digest
      something else. */
  lemma DriftIff(hash: Hash, disk: Disk, files: map<string, Blob>, k: nat)
    requires Sound(hash, disk) && Readable(files, disk.records) && k < |disk.records|
    ensures var drift := DriftOf(hash, files, disk.records);
            var r := disk.records[k];
            && drift.Some? && r.path in disk.files
            && (forall id | id in drift.value :: exists r' | r' in disk.records :: r'.id == id)
            && (NoCollision(hash, FedFor(hash, r, disk.files, files)) ==>
                  (r.id in drift.value <==>
                   r.path !in files || Fed(hash, Read(r, files[r.path])) != Fed(hash, disk.files[r.path])))
  {
    var r := disk.records[k];
    assert r in disk.records && SoundAt(hash, disk, k);
    DriftLists(hash, files, disk.records);
    forall r' | r' in disk.records && r'.id == r.id
      ensures r' == r
    {
      var j :| 0 <= j < |disk.records| && disk.records[j] == r';
      if j != k {
        RecordsDiffer(hash, disk, if j < k then j else k, if j < k then k else j);
      }
    }
  }

  /** The contents of the files at the record's path, now and when it was saved. */
  ghost function HeldFor(r: Record, before: map<string, Blob>, now: map<string, Blob>): set<string>
    requires r.path in before
  {
    Below(before[r.path]).Values + if r.path in now then Below(Read(r, now[r.path])).Values else {}
  }

  ghost function Below(blob: Blob): Listing { if blob.Tree? then blob.files else map[] }

  /** The record is of a file, or of a directory told apart from the one there now. */
  ghost predicate ToldApart(hash: Hash, r: Record, before: map<string, Blob>, now: map<string, Blob>)
    requires Digests(hash) && r.path in before
  {
    r.path in now && before[r.path].Tree? && Read(r, now[r.path]).Tree? ==>
      var a, b := before[r.path].files, Read(r, now[r.path]).files;
      RealTree(a) && RealTree(b) && TellsApart(hash, a, b)
  }

  /** In that case the report lists a record exactly if its artifact is gone or reads differently. */
  lemma DriftIsSeen(hash: Hash, disk: Disk, files: map<string, Blob>, k: nat)
    requires Sound(hash, disk) && Digests(hash) && Readable(files, disk.records) && k < |disk.records|
    requires var r := disk.records[k]; r.path in disk.files && ToldApart(hash, r, disk.files, files)
    requires var r := disk.records[k];
             NoCollision(hash, FedFor(hash, r, disk.files, files) + HeldFor(r, disk.files, files))
    ensures var r := disk.records[k];
            DriftOf(hash, files, disk.records).Some?
            && (r.id in DriftOf(hash, files, disk.records).value <==> Seen(r, files) != Some(disk.files[r.path]))
  {
    var r := disk.records[k];
    assert SoundAt(hash, disk, k) && r in disk.records;
    DriftIff(hash, disk, files, k);
    if r.path in files && r.kind == TreeKind {
      var a, b := disk.files[r.path].files, Below(Read(r, files[r.path]));
      SameStreamIff(hash, a, b);
      SameManifestSameTree(hash, a, b);
    }
  }

  lemma SameManifestSameTree(hash: Hash, a: Listing, b: Listing)
    requires NoCollision(hash, a.Values + b.Values)
    ensures SameManifest(hash, a, b) <==> a == b
  {
    if SameManifest(hash, a, b) {
      forall p | p in a
        ensures a[p] == b[p]
      {
        assert a[p] in a.Values && b[p] in b.Values;
      }
    }
  }

  /** Not so in general: whatever SHA-256 computes, a recorded directory of two or more files can be
      replaced by a directory of one file without being reported. */
  lemma DriftIsMissed(hash: Hash, disk: Disk, k: nat) returns (files: map<string, Blob>)
    requires Sound(hash, disk) && Digests(hash) && k < |disk.records| && disk.records[k].path in disk.files
    requires var blob := disk.files[disk.records[k].path]; blob.Tree? && RealTree(blob.files) && |blob.files.Keys| >= 2
    ensures var r := disk.records[k];
            && r.path in files && files[r.path].Tree? && |files[r.path].files.Keys| == 1
            && Seen(r, files) != Some(disk.files[r.path])
            && DriftOf(hash, files, disk.records) == Some([])
  {
    var r := disk.records[k];
    var twin := RunTogether(hash, disk.files[r.path].files);
    files := disk.files[r.path := Tree(twin)];
    forall j | 0 <= j < |disk.records|
      ensures Stored(hash, files, disk.records[j])
    {
      assert SoundAt(hash, disk, j) && SoundAt(hash, disk, k);
      if j != k {
        RecordsDiffer(hash, disk, if j < k then j else k, if j < k then k else j);
      }
    }
    StoredNeverDrifts(hash, files, disk.records);
  }

  lemma {:induction false} StoredNeverDrifts(hash: Hash, files: map<string, Blob>, records: seq<Record>)
    requires forall j | 0 <= j < |records| :: Stored(hash, files, records[j])
    ensures DriftOf(hash, files, records) == Some([])
  {
    if records != [] {
      var n := |records| - 1;
      forall j | 0 <= j < n
        ensures Stored(hash, files, records[..n][j])
      {
        assert Stored(hash, files, records[j]);
      }
      StoredNeverDrifts(hash, files, records[..n]);
      assert Stored(hash, files, records[n]);
    }
  }

  /** In every state saves can reach, whatever the digests are, nothing has drifted. */
  lemma NothingDrifts(hash: Hash, disk: Disk)
    requires Sound(hash, disk)
    ensures DriftOf(hash, disk.files, disk.records) == Some([])
  {
    forall j | 0 <= j < |disk.records|
      ensures Stored(hash, disk.files, disk.records[j])
    {
      assert SoundAt(hash, disk, j);
    }
    StoredNeverDrifts(hash, disk.files, disk.records);
  }
}
