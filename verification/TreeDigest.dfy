/** The digest of a directory (tyche/workspace.py, `sha256_tree`): the names of its files, each
    followed by the digest of its content, in path order and without separators. */
module TreeDigest {
  import opened ArtifactNames
  import opened Text

  /** A relative path, as components. */
  type Path = seq<string>

  /** The files below a directory with their contents. */
  type Listing = map<Path, string>

  /** The hexadecimal SHA-256 of a text. */
  type Hash = string -> string

  const DIGEST_LENGTH := 64
  const HALF := 32

  // ---- path order ---------------------------------------------------------------------------

  predicate TextLess(a: string, b: string)
    decreases |a|
  {
    b != "" && (a == "" || a[0] < b[0] || (a[0] == b[0] && TextLess(a[1..], b[1..])))
  }

  /** Paths are ordered component by component. */
  predicate Before(p: Path, q: Path)
    decreases |p|
  {
    q != [] && (p == [] || TextLess(p[0], q[0]) || (p[0] == q[0] && Before(p[1..], q[1..])))
  }

  /** Less at the first difference, or the beginning of the other. */
  ghost predicate FirstDifference(a: string, b: string, n: nat) {
    n <= |a| && n <= |b| && a[..n] == b[..n] && n < |b| && (n == |a| || a[n] < b[n])
  }

  lemma {:induction false} TextLessIff(a: string, b: string)
    ensures TextLess(a, b) <==> exists n: nat :: FirstDifference(a, b, n)
    decreases |a|
  {
    if b != "" && (a == "" || a[0] < b[0]) {
      assert FirstDifference(a, b, 0);
    } else if b != "" && a[0] == b[0] {
      TextLessIff(a[1..], b[1..]);
      if TextLess(a, b) {
        var n: nat :| FirstDifference(a[1..], b[1..], n);
        assert a[..n + 1] == [a[0]] + a[1..][..n] && b[..n + 1] == [b[0]] + b[1..][..n];
        assert FirstDifference(a, b, n + 1);
      }
      if n: nat :| FirstDifference(a, b, n) {
        assert n > 0;
        assert a[1..][..n - 1] == a[..n][1..] && b[1..][..n - 1] == b[..n][1..];
        assert FirstDifference(a[1..], b[1..], n - 1);
      }
    } else if n: nat :| FirstDifference(a, b, n) {
      DifferenceStarts(a, b, n);
    }
  }

  lemma DifferenceStarts(a: string, b: string, n: nat)
    requires FirstDifference(a, b, n)
    ensures b != "" && (a == "" || a[0] <= b[0])
  {
    if n > 0 {
      assert a[0] == a[..n][0] == b[..n][0] == b[0];
    }
  }

  /** Less at the first component that differs, or a beginning of the other path. */
  ghost predicate FirstComponent(p: Path, q: Path, n: nat) {
    n <= |p| && n <= |q| && p[..n] == q[..n] && n < |q| && (n == |p| || TextLess(p[n], q[n]))
  }

  lemma {:induction false} BeforeIff(p: Path, q: Path)
    ensures Before(p, q) <==> exists n: nat :: FirstComponent(p, q, n)
    decreases |p|
  {
    if q != [] && (p == [] || TextLess(p[0], q[0])) {
      assert FirstComponent(p, q, 0);
    } else if q != [] && p[0] == q[0] {
      BeforeIff(p[1..], q[1..]);
      if Before(p, q) {
        var n: nat :| FirstComponent(p[1..], q[1..], n);
        assert p[..n + 1] == [p[0]] + p[1..][..n] && q[..n + 1] == [q[0]] + q[1..][..n];
        assert FirstComponent(p, q, n + 1);
      }
      if n: nat :| FirstComponent(p, q, n) {
        assert n > 0;
        assert p[1..][..n - 1] == p[..n][1..] && q[1..][..n - 1] == q[..n][1..];
        assert FirstComponent(p[1..], q[1..], n - 1);
      }
    } else if n: nat :| FirstComponent(p, q, n) {
      ComponentsStart(p, q, n);
    }
  }

  lemma ComponentsStart(p: Path, q: Path, n: nat)
    requires FirstComponent(p, q, n)
    ensures q != [] && (p == [] || p[0] == q[0] || TextLess(p[0], q[0]))
  {
    if n > 0 {
      assert p[0] == p[..n][0] == q[..n][0] == q[0];
    }
  }

  lemma {:induction false} TextOrder(a: string, b: string)
    ensures TextLess(a, b) || a == b || TextLess(b, a)
    ensures !TextLess(a, a)
    ensures TextLess(a, b) ==> !TextLess(b, a)
    decreases |a|
  {
    if a != "" {
      TextOrder(a[1..], if b != "" then b[1..] else "");
      assert a == [a[0]] + a[1..];
    }
    if b != "" {
      assert b == [b[0]] + b[1..];
    }
  }

  lemma {:induction false} TextTransitive(a: string, b: string, c: string)
    requires TextLess(a, b) && TextLess(b, c)
    ensures TextLess(a, c)
    decreases |a|
  {
    if a != "" && a[0] == b[0] == c[0] {
      TextTransitive(a[1..], b[1..], c[1..]);
    }
  }

  lemma {:induction false} TextExtended(a: string, b: string, more: string)
    requires TextLess(a, b)
    ensures TextLess(a, b + more)
    decreases |a|
  {
    if a != "" && a[0] == b[0] {
      TextExtended(a[1..], b[1..], more);
      assert (b + more)[1..] == b[1..] + more;
    }
  }

  lemma {:induction false} PathOrder(p: Path, q: Path)
    ensures Before(p, q) || p == q || Before(q, p)
    ensures !Before(p, p)
    ensures Before(p, q) ==> !Before(q, p)
    decreases |p|
  {
    if p != [] {
      PathOrder(p[1..], if q != [] then q[1..] else []);
      TextOrder(p[0], if q != [] then q[0] else "");
      assert p == [p[0]] + p[1..];
    }
    if q != [] {
      assert q == [q[0]] + q[1..];
    }
  }

  lemma {:induction false} PathTransitive(p: Path, q: Path, r: Path)
    requires Before(p, q) && Before(q, r)
    ensures Before(p, r)
    decreases |p|
  {
    if p != [] {
      if p[0] == q[0] == r[0] {
        TextOrder(p[0], p[0]);
        PathTransitive(p[1..], q[1..], r[1..]);
      } else if p[0] != q[0] && q[0] != r[0] {
        TextTransitive(p[0], q[0], r[0]);
      }
    }
  }

  predicate IsLeast(p: Path, paths: set<Path>) {
    p in paths && forall q | q in paths :: q == p || Before(p, q)
  }

  lemma {:induction false} LeastExists(paths: set<Path>)
    requires paths != {}
    ensures exists p :: IsLeast(p, paths)
    decreases paths
  {
    var p :| p in paths;
    var rest := paths - {p};
    if rest == {} {
      assert paths == {p};
      assert IsLeast(p, paths);
    } else {
      LeastExists(rest);
      var q :| IsLeast(q, rest);
      PathOrder(p, q);
      if Before(q, p) {
        assert IsLeast(q, paths);
      } else {
        forall r | r in rest && r != q
          ensures Before(p, r)
        {
          PathTransitive(p, q, r);
        }
        assert IsLeast(p, paths);
      }
    }
  }

  lemma LeastIsUnique(p: Path, q: Path, paths: set<Path>)
    requires IsLeast(p, paths) && IsLeast(q, paths)
    ensures p == q
  {
    PathOrder(p, q);
  }

  ghost function Least(paths: set<Path>): (p: Path)
    requires paths != {}
    ensures IsLeast(p, paths)
  {
    LeastExists(paths);
    var p :| IsLeast(p, paths);
    p
  }

  // ---- the stream -----------------------------------------------------------------------------

  function NameOf(p: Path): string {
    if p == [] then "" else if |p| == 1 then p[0] else p[0] + ['/'] + NameOf(p[1..])
  }

  /** One file of a directory, as the digest sees it. */
  datatype Entry = Entry(path: Path, digest: string)

  /** The entries of some of a directory's files, in path order. */
  ghost function Entries(hash: Hash, files: Listing, todo: set<Path>): seq<Entry>
    requires todo <= files.Keys
  {
    if todo == {} then []
    else
      var p := Least(todo);
      [Entry(p, hash(files[p]))] + Entries(hash, files, todo - {p})
  }

  ghost function Flat(entries: seq<Entry>): string {
    if entries == [] then "" else NameOf(entries[0].path) + entries[0].digest + Flat(entries[1..])
  }

  /** What is fed to the digest of a directory. */
  ghost function Stream(hash: Hash, files: Listing): string { Flat(Entries(hash, files, files.Keys)) }

  /** `sha256_tree` */
  method Sha256Tree(hash: Hash, files: Listing) returns (digest: string)
    ensures digest == hash(Stream(hash, files))
  {
    var stream := "";
    var todo := files.Keys;
    while todo != {}
      invariant todo <= files.Keys
      invariant Stream(hash, files) == stream + Flat(Entries(hash, files, todo))
      decreases todo
    {
      LeastExists(todo);
      var p :| p in todo && IsLeast(p, todo);
      StreamStep(hash, files, todo, p, stream);
      stream := stream + NameOf(p) + hash(files[p]);
      todo := todo - {p};
    }
    assert stream + "" == stream;
    digest := hash(stream);
  }

  lemma EntriesStep(hash: Hash, files: Listing, todo: set<Path>, p: Path)
    requires todo <= files.Keys && IsLeast(p, todo)
    ensures Entries(hash, files, todo) == [Entry(p, hash(files[p]))] + Entries(hash, files, todo - {p})
  {
    LeastIsUnique(p, Least(todo), todo);
  }

  /** A name is its components with a slash between any two. */
  lemma {:induction false} NameOfConcat(p: Path, q: Path)
    requires p != [] && q != []
    ensures NameOf(p + q) == NameOf(p) + "/" + NameOf(q)
    ensures NameOf([p[0]]) == p[0]
  {
    if |p| == 1 {
      assert (p + q)[1..] == q;
    } else {
      assert (p + q)[1..] == p[1..] + q;
      NameOfConcat(p[1..], q);
      Regroup(p[0] + ['/'], NameOf(p[1..]), "/", NameOf(q));
    }
  }

  /** What is digested of files listed in order: name and digest of the first, and then the others. */
  lemma StreamOfFirst(hash: Hash, files: Listing, first: Path)
    requires first in files && forall p | p in files && p != first :: Before(first, p)
    ensures Stream(hash, files)
            == NameOf(first) + hash(files[first]) + Stream(hash, map p | p in files && p != first :: files[p])
    ensures Stream(hash, map[]) == ""
  {
    assert IsLeast(first, files.Keys);
    LeastIsUnique(first, Least(files.Keys), files.Keys);
    var rest := map p | p in files && p != first :: files[p];
    assert rest.Keys == files.Keys - {first};
    SameEntriesBelow(hash, files, rest, rest.Keys);
  }

  lemma {:induction false} SameEntriesBelow(hash: Hash, files: Listing, rest: Listing, todo: set<Path>)
    requires todo <= files.Keys && todo <= rest.Keys && forall p | p in todo :: files[p] == rest[p]
    ensures Entries(hash, files, todo) == Entries(hash, rest, todo)
    decreases todo
  {
    if todo != {} {
      SameEntriesBelow(hash, files, rest, todo - {Least(todo)});
    }
  }

  lemma FlatCons(e: Entry, rest: seq<Entry>)
    ensures Flat([e] + rest) == NameOf(e.path) + e.digest + Flat(rest)
  {
    assert ([e] + rest)[1..] == rest;
  }

  lemma Regroup(a: string, b: string, c: string, d: string)
    ensures a + (b + c + d) == a + b + c + d
  {
  }

  lemma StreamStep(hash: Hash, files: Listing, todo: set<Path>, p: Path, before: string)
    requires todo <= files.Keys && IsLeast(p, todo)
    ensures before + Flat(Entries(hash, files, todo)) ==
            before + NameOf(p) + hash(files[p]) + Flat(Entries(hash, files, todo - {p}))
  {
    EntriesStep(hash, files, todo, p);
    FlatCons(Entry(p, hash(files[p])), Entries(hash, files, todo - {p}));
    Regroup(before, NameOf(p), hash(files[p]), Flat(Entries(hash, files, todo - {p})));
  }

  // ---- real directories -----------------------------------------------------------------------

  predicate RealPath(p: Path) {
    p != [] && forall c | c in p :: c != "" && '/' !in c && c != "." && c != ".."
  }

  /** Relative file paths, none of them below another. */
  ghost predicate RealTree(files: Listing) {
    && (forall p | p in files :: RealPath(p))
    && (forall p, q | p in files && q in files && p != q :: !(p <= q))
  }

  ghost predicate DigestOk(d: string) { |d| == DIGEST_LENGTH && '/' !in d }

  ghost predicate Digests(hash: Hash) { forall x :: DigestOk(hash(x)) }

  /** The same names, and under each of them content of the same digest. */
  ghost predicate SameManifest(hash: Hash, a: Listing, b: Listing) {
    a.Keys == b.Keys && forall p | p in a.Keys :: hash(a[p]) == hash(b[p])
  }

  /** The path whose name is the first name, a digest, and the second name. */
  function Joined(p: Path, d: string, q: Path): Path
    requires p != [] && q != []
  {
    p[..|p| - 1] + [p[|p| - 1] + d + q[0]] + q[1..]
  }

  lemma {:induction false} NameOfJoined(p: Path, d: string, q: Path)
    requires p != [] && q != []
    ensures NameOf(Joined(p, d, q)) == NameOf(p) + d + NameOf(q)
    decreases |p|
  {
    if |p| == 1 {
      NameOfJoinedOne(p, d, q);
    } else {
      NameOfJoined(p[1..], d, q);
      JoinedTail(p, d, q);
      NameCons(p);
      NameCons(Joined(p, d, q));
      Regrouped(p[0] + ['/'], NameOf(p[1..]), d, NameOf(q));
    }
  }

  lemma NameCons(p: Path)
    requires |p| > 1
    ensures NameOf(p) == p[0] + ['/'] + NameOf(p[1..])
  {
  }

  lemma NameOfJoinedOne(p: Path, d: string, q: Path)
    requires |p| == 1 && q != []
    ensures NameOf(Joined(p, d, q)) == NameOf(p) + d + NameOf(q)
  {
    var j := Joined(p, d, q);
    assert j == [p[0] + d + q[0]] + q[1..];
    if |q| > 1 {
      NameCons(q);
      NameCons(j);
      assert j[1..] == q[1..];
    }
  }

  lemma Regrouped(a: string, b: string, c: string, d: string)
    ensures a + (b + c + d) == a + b + c + d
  {
  }

  lemma JoinedTail(p: Path, d: string, q: Path)
    requires |p| > 1 && q != []
    ensures var j := Joined(p, d, q); |j| > 1 && j[0] == p[0] && j[1..] == Joined(p[1..], d, q)
  {
  }

  lemma JoinedIsReal(p: Path, d: string, q: Path)
    requires RealPath(p) && RealPath(q) && DigestOk(d)
    ensures RealPath(Joined(p, d, q))
  {
    forall c | c in Joined(p, d, q)
      ensures c != "" && '/' !in c && c != "." && c != ".."
    {
      if c !in p && c !in q {
        assert c == p[|p| - 1] + d + q[0];
        assert p[|p| - 1] in p && q[0] in q;
        assert |c| > 2;
      }
    }
  }

  lemma {:induction false} NameIsInjective(p: Path, q: Path)
    requires RealPath(p) && RealPath(q) && NameOf(p) == NameOf(q)
    ensures p == q
    decreases |p|
  {
    assert p[0] in p && q[0] in q;
    if |p| == 1 || |q| == 1 {
      OneComponent(p);
      OneComponent(q);
    } else {
      FirstSeparator(p[0], NameOf(p[1..]), q[0], NameOf(q[1..]), '/');
      assert forall c | c in p[1..] :: c in p;
      assert forall c | c in q[1..] :: c in q;
      NameIsInjective(p[1..], q[1..]);
      assert p == [p[0]] + p[1..] && q == [q[0]] + q[1..];
    }
  }

  lemma OneComponent(p: Path)
    requires RealPath(p)
    ensures '/' in NameOf(p) <==> |p| > 1
    ensures |p| == 1 ==> p == [NameOf(p)]
  {
    assert p[0] in p;
    if |p| > 1 {
      assert NameOf(p)[|p[0]|] == '/';
    }
  }

  /** A path that comes before another, and does not lead to it, comes before any joined on it. */
  lemma {:induction false} BeforeJoined(p: Path, q: Path, d: string, r: Path)
    requires q != [] && r != [] && Before(p, q) && !(p <= q) && d + r[0] != ""
    ensures Before(p, Joined(q, d, r)) && !(p <= Joined(q, d, r))
    decreases |p|
  {
    var j := Joined(q, d, r);
    TextOrder(p[0], q[0]);
    if |q| == 1 {
      assert j[0] == q[0] + d + r[0] == q[0] + (d + r[0]);
      if p[0] != q[0] {
        TextExtended(p[0], q[0], d + r[0]);
        TextOrder(p[0], j[0]);
      }
    } else {
      assert j[0] == q[0] && j[1..] == Joined(q[1..], d, r);
      if p[0] == q[0] {
        assert p == [p[0]] + p[1..] && q == [q[0]] + q[1..] && j == [j[0]] + j[1..];
        assert !(p[1..] <= q[1..]);
        BeforeJoined(p[1..], q[1..], d, r);
      }
    }
  }

  // ---- the entries of a directory -------------------------------------------------------------

  /** Entries as a directory yields them. */
  ghost predicate RealEntries(es: seq<Entry>) { NamedEntries(es) && OrderedEntries(es) }

  ghost predicate NamedEntries(es: seq<Entry>) {
    forall i | 0 <= i < |es| :: RealPath(es[i].path) && DigestOk(es[i].digest)
  }

  ghost predicate OrderedEntries(es: seq<Entry>) {
    forall i, j | 0 <= i < j < |es| :: Before(es[i].path, es[j].path) && !(es[i].path <= es[j].path)
  }

  /** Each file once, with the digest of its content. */
  ghost predicate Lists(hash: Hash, files: Listing, todo: set<Path>, es: seq<Entry>)
    requires todo <= files.Keys
  {
    && |es| == |todo|
    && (forall i | 0 <= i < |es| :: es[i].path in todo && es[i].digest == hash(files[es[i].path]))
    && forall p {:trigger IsListed(es, p)} | p in todo :: IsListed(es, p)
  }

  ghost predicate IsListed(es: seq<Entry>, p: Path) { exists i | 0 <= i < |es| :: es[i].path == p }

  lemma {:induction false} EntriesList(hash: Hash, files: Listing, todo: set<Path>)
    requires todo <= files.Keys
    ensures Lists(hash, files, todo, Entries(hash, files, todo))
    decreases todo
  {
    if todo != {} {
      var p := Least(todo);
      EntriesList(hash, files, todo - {p});
      var rest, es := Entries(hash, files, todo - {p}), Entries(hash, files, todo);
      assert es == [Entry(p, hash(files[p]))] + rest;
      forall q | q in todo
        ensures IsListed(es, q)
      {
        if q == p {
          assert es[0].path == q;
        } else {
          assert IsListed(rest, q);
          var i :| 0 <= i < |rest| && rest[i].path == q;
          assert es[i + 1].path == q;
        }
      }
    }
  }

  lemma {:induction false} EntriesAreReal(hash: Hash, files: Listing, todo: set<Path>)
    requires Digests(hash) && RealTree(files) && todo <= files.Keys
    ensures RealEntries(Entries(hash, files, todo))
    decreases todo
  {
    if todo != {} {
      var p := Least(todo);
      EntriesAreReal(hash, files, todo - {p});
      EntriesList(hash, files, todo - {p});
      var rest := Entries(hash, files, todo - {p});
      forall j | 0 <= j < |rest|
        ensures Before(p, rest[j].path) && !(p <= rest[j].path)
      {
        assert rest[j].path in todo - {p};
      }
      OneMoreIsReal(Entry(p, hash(files[p])), rest);
    }
  }

  lemma OneMoreIsReal(e: Entry, rest: seq<Entry>)
    requires RealPath(e.path) && DigestOk(e.digest) && RealEntries(rest)
    requires forall j | 0 <= j < |rest| :: Before(e.path, rest[j].path) && !(e.path <= rest[j].path)
    ensures RealEntries([e] + rest)
  {
    var es := [e] + rest;
    forall i, j | 0 <= i < j < |es|
      ensures Before(es[i].path, es[j].path) && !(es[i].path <= es[j].path)
    {
      assert es[j] == rest[j - 1];
      assert i > 0 ==> es[i] == rest[i - 1];
    }
  }

  lemma SameEntries(hash: Hash, a: Listing, b: Listing)
    requires Entries(hash, a, a.Keys) == Entries(hash, b, b.Keys)
    ensures SameManifest(hash, a, b)
  {
    var es := Entries(hash, a, a.Keys);
    EntriesList(hash, a, a.Keys);
    EntriesList(hash, b, b.Keys);
    forall p | p in a.Keys + b.Keys
      ensures p in a && p in b && hash(a[p]) == hash(b[p])
    {
      assert IsListed(es, p);
      var i :| 0 <= i < |es| && es[i].path == p;
    }
  }

  // ---- directories that are told apart from all others ------------------------------------------

  /** All entries as one path: the names run together with the digests between them. */
  ghost function MergedPath(es: seq<Entry>): Path
    requires es != [] && forall i | 0 <= i < |es| :: es[i].path != []
    ensures MergedPath(es) != []
  {
    if |es| == 1 then es[0].path else Joined(es[0].path, es[0].digest, MergedPath(es[1..]))
  }

  lemma {:induction false} MergedReads(es: seq<Entry>)
    requires es != [] && NamedEntries(es)
    ensures RealPath(MergedPath(es)) && Flat(es) == NameOf(MergedPath(es)) + es[|es| - 1].digest
  {
    if |es| == 1 {
      assert es == [es[0]] + [];
      FlatCons(es[0], []);
    } else {
      var rest := es[1..];
      assert NamedEntries(rest);
      MergedReads(rest);
      JoinedIsReal(es[0].path, es[0].digest, MergedPath(rest));
      MergedStep(es, MergedPath(rest), rest[|rest| - 1].digest);
    }
  }

  lemma MergedStep(es: seq<Entry>, p: Path, d: string)
    requires |es| > 1 && es[0].path != [] && p != [] && Flat(es[1..]) == NameOf(p) + d
    ensures Flat(es) == NameOf(Joined(es[0].path, es[0].digest, p)) + d
  {
    NameOfJoined(es[0].path, es[0].digest, p);
    Regroup(NameOf(es[0].path) + es[0].digest, NameOf(p), d, "");
  }

  lemma OneFile(hash: Hash, p: Path, content: string)
    ensures Entries(hash, map[p := content], {p}) == [Entry(p, hash(content))]
    ensures Stream(hash, map[p := content]) == NameOf(p) + hash(content)
  {
    var files := map[p := content];
    EntriesStep(hash, files, {p}, p);
    assert {p} - {p} == {} && files.Keys == {p};
    assert Entries(hash, files, {}) == [];
    FlatCons(Entry(p, hash(content)), []);
  }

  lemma TwoFiles(hash: Hash, p: Path, a: string, q: Path, b: string)
    requires Before(p, q)
    ensures Stream(hash, map[p := a, q := b]) == NameOf(p) + hash(a) + (NameOf(q) + hash(b))
  {
    PathOrder(p, q);
    var files := map[p := a, q := b];
    assert files.Keys == {p, q} && {p, q} - {p} == {q} && {q} - {q} == {};
    EntriesStep(hash, files, {p, q}, p);
    EntriesStep(hash, files, {q}, q);
    assert Entries(hash, files, {}) == [];
    FlatCons(Entry(q, hash(b)), []);
    FlatCons(Entry(p, hash(a)), [Entry(q, hash(b))]);
  }

  /** A directory of two or more files always has a twin: the directory of one file, whose name runs
      all the names and all digests but the last together. */
  lemma RunTogether(hash: Hash, files: Listing) returns (twin: Listing)
    requires Digests(hash) && RealTree(files) && |files.Keys| >= 2
    ensures RealTree(twin) && |twin.Keys| == 1 && Stream(hash, twin) == Stream(hash, files)
  {
    var es := Entries(hash, files, files.Keys);
    EntriesList(hash, files, files.Keys);
    EntriesAreReal(hash, files, files.Keys);
    MergedReads(es);
    var p, content := MergedPath(es), files[es[|es| - 1].path];
    twin := map[p := content];
    OneFile(hash, p, content);
    assert twin.Keys == {p};
  }

  /** Some content's digest is hidden in the name, so that it reads like two files. */
  ghost predicate HidesDigest(hash: Hash, p: Path) {
    exists q, c, r :: Hides(hash, p, q, c, r)
  }

  ghost predicate Hides(hash: Hash, p: Path, q: Path, c: string, r: Path) {
    RealPath(q) && RealPath(r) && Before(q, r) && !(q <= r) && p == Joined(q, hash(c), r)
  }

  /** At most one file, and no digest hidden in its name. */
  ghost predicate Unmistakable(hash: Hash, files: Listing) {
    |files.Keys| == 0 || (|files.Keys| == 1 && forall p | p in files :: !HidesDigest(hash, p))
  }

  /** No other directory has the same digest input. */
  ghost predicate ToldFromAll(hash: Hash, files: Listing) {
    forall other | RealTree(other) && Stream(hash, other) == Stream(hash, files) :: SameManifest(hash, files, other)
  }

  /** A name and a digest read in one way only. */
  lemma NameThenDigest(p: Path, d: string, q: Path, e: string)
    requires RealPath(p) && RealPath(q) && DigestOk(d) && DigestOk(e) && NameOf(p) + d == NameOf(q) + e
    ensures p == q && d == e
  {
    var s := NameOf(p) + d;
    assert |NameOf(p)| == |NameOf(q)|;
    assert NameOf(p) == s[..|NameOf(p)|] && d == s[|NameOf(p)|..];
    assert NameOf(q) == s[..|NameOf(p)|] && e == s[|NameOf(p)|..];
    NameIsInjective(p, q);
  }

  /** A directory that reads like one file is that file, or hides the digest of its first file in the
      name of that one. */
  lemma ReadsLikeOneFile(hash: Hash, p: Path, content: string, other: Listing)
    requires Digests(hash) && RealPath(p) && RealTree(other) && Stream(hash, other) == NameOf(p) + hash(content)
    ensures HidesDigest(hash, p) || (other.Keys == {p} && hash(other[p]) == hash(content))
  {
    var es := Entries(hash, other, other.Keys);
    EntriesList(hash, other, other.Keys);
    EntriesAreReal(hash, other, other.Keys);
    assert DigestOk(hash(content));
    EntriesReadLikeOne(es, p, hash(content));
    if |es| == 1 {
      OnlyKey(other.Keys, p);
    } else {
      assert Hides(hash, p, es[0].path, other[es[0].path], MergedPath(es[1..]));
    }
  }

  lemma EntriesReadLikeOne(es: seq<Entry>, p: Path, d: string)
    requires RealEntries(es) && RealPath(p) && DigestOk(d) && Flat(es) == NameOf(p) + d
    ensures es != [] && (|es| == 1 ==> es[0] == Entry(p, d))
    ensures |es| > 1 ==>
              var r := MergedPath(es[1..]);
              && RealPath(r) && Before(es[0].path, r) && !(es[0].path <= r)
              && p == Joined(es[0].path, es[0].digest, r)
  {
    assert |Flat(es)| >= DIGEST_LENGTH;
    MergedReads(es);
    NameThenDigest(p, d, MergedPath(es), es[|es| - 1].digest);
    if |es| > 1 {
      MergedComesAfter(es);
    }
  }

  lemma MergedComesAfter(es: seq<Entry>)
    requires RealEntries(es) && |es| > 1
    ensures RealPath(MergedPath(es[1..]))
    ensures Before(es[0].path, MergedPath(es[1..])) && !(es[0].path <= MergedPath(es[1..]))
  {
    var rest := es[1..];
    assert Before(es[0].path, es[1].path) && !(es[0].path <= es[1].path);
    assert RealEntries(rest);
    MergedReads(rest);
    if |rest| > 1 {
      BeforeJoined(es[0].path, rest[0].path, rest[0].digest, MergedPath(rest[1..]));
    }
  }

  lemma OnlyKey(keys: set<Path>, p: Path)
    requires |keys| == 1 && p in keys
    ensures keys == {p}
  {
    assert |keys - {p}| == 0;
  }

  /** Exactly the unmistakable directories, those of at most one file without a digest hidden in its
      name, are told from all others. Every directory of two or more files has a twin. */
  lemma ToldFromAllIff(hash: Hash, files: Listing)
    requires Digests(hash) && RealTree(files)
    ensures ToldFromAll(hash, files) <==> Unmistakable(hash, files)
  {
    if |files.Keys| >= 2 {
      var twin := RunTogether(hash, files);
      assert !SameManifest(hash, files, twin);
    } else if |files.Keys| == 1 {
      var p :| p in files;
      OnlyKey(files.Keys, p);
      assert files == map[p := files[p]];
      OneFileToldFromAllIff(hash, p, files[p]);
    } else {
      assert files == map[];
      EmptyIsToldFromAll(hash);
    }
  }

  lemma EmptyFlat(es: seq<Entry>)
    requires RealEntries(es) && Flat(es) == ""
    ensures es == []
  {
    if es != [] {
      MergedReads(es);
    }
  }

  lemma EmptyIsToldFromAll(hash: Hash)
    requires Digests(hash)
    ensures ToldFromAll(hash, map[])
  {
    var none: Listing := map[];
    assert none.Keys == {} && Stream(hash, none) == "";
    forall other | RealTree(other) && Stream(hash, other) == Stream(hash, none)
      ensures SameManifest(hash, none, other)
    {
      var es := Entries(hash, other, other.Keys);
      EntriesList(hash, other, other.Keys);
      EntriesAreReal(hash, other, other.Keys);
      EmptyFlat(es);
      assert other.Keys == {};
    }
  }

  lemma OneFileToldFromAllIff(hash: Hash, p: Path, content: string)
    requires Digests(hash) && RealPath(p)
    ensures ToldFromAll(hash, map[p := content]) <==> !HidesDigest(hash, p)
  {
    OneFile(hash, p, content);
    if HidesDigest(hash, p) {
      var q, c, r :| Hides(hash, p, q, c, r);
      HiddenDigestHasTwin(hash, p, content, q, c, r);
    } else {
      forall other | RealTree(other) && Stream(hash, other) == Stream(hash, map[p := content])
        ensures SameManifest(hash, map[p := content], other)
      {
        ReadsLikeOneFile(hash, p, content, other);
      }
    }
  }

  /** One file with a digest hidden in its name reads like two. */
  lemma HiddenDigestHasTwin(hash: Hash, p: Path, content: string, q: Path, c: string, r: Path)
    requires RealPath(p) && Hides(hash, p, q, c, r)
    ensures !ToldFromAll(hash, map[p := content])
  {
    var twin := map[q := c, r := content];
    PathOrder(q, r);
    PrefixIsBefore(r, q);
    assert q in twin && r in twin && q != r;
    assert RealTree(twin);
    OneFile(hash, p, content);
    TwoFiles(hash, q, c, r, content);
    NameOfJoined(q, hash(c), r);
    Regroup(NameOf(q) + hash(c), NameOf(r), hash(content), "");
    assert Stream(hash, twin) == Stream(hash, map[p := content]);
    assert !SameManifest(hash, map[p := content], twin);
  }

  lemma {:induction false} PrefixIsBefore(p: Path, q: Path)
    ensures p <= q ==> p == q || Before(p, q)
    ensures Before(q, p) ==> !(p <= q)
    decreases |p|
  {
    PathOrder(p, q);
    if p != [] && q != [] && p[0] == q[0] {
      PrefixIsBefore(p[1..], q[1..]);
      assert p == [p[0]] + p[1..] && q == [q[0]] + q[1..];
      assert p <= q <==> p[1..] <= q[1..];
    }
  }

  // ---- two directories that are told apart ----------------------------------------------------

  /** What the two directories hold. */
  ghost function Held(a: Listing, b: Listing): set<string> { a.Values + b.Values }

  /** No name contains the first half of a digest, and no digest runs half or more of its length into
      another. The first a caller can see from the names; the second speaks of SHA-256 alone. */
  ghost predicate NamesAreClear(hash: Hash, a: Listing, b: Listing)
    requires Digests(hash)
  {
    && (forall p, c | p in a.Keys + b.Keys && c in Held(a, b) :: NameIsClear(hash, p, c))
    && (forall c, d | c in Held(a, b) && d in Held(a, b) :: RunsApart(hash(c), hash(d)))
  }

  ghost predicate NameIsClear(hash: Hash, p: Path, content: string)
    requires Digests(hash)
  {
    assert DigestOk(hash(content));
    !Contains(NameOf(p), hash(content)[..HALF])
  }

  ghost predicate RunsApart(d: string, e: string)
    requires |d| == DIGEST_LENGTH == |e|
  {
    forall k | 1 <= k <= HALF :: d[k..] != e[..DIGEST_LENGTH - k]
  }

  /** Two directories whose digests differ unless they are the same: those with the same names, those
      of which one is unmistakable, and those with clear names. */
  ghost predicate TellsApart(hash: Hash, a: Listing, b: Listing)
    requires Digests(hash)
  {
    a.Keys == b.Keys || Unmistakable(hash, a) || Unmistakable(hash, b) || NamesAreClear(hash, a, b)
  }

  /** Entries that can be read in one way only. */
  ghost predicate ClearEntries(es: seq<Entry>, names: set<Path>, digests: set<string>) {
    && (forall i | 0 <= i < |es| :: es[i].path in names && es[i].digest in digests)
    && (forall d | d in digests :: |d| == DIGEST_LENGTH)
    && (forall p, d | p in names && d in digests :: !Contains(NameOf(p), d[..HALF]))
    && (forall d, e | d in digests && e in digests :: RunsApart(d, e))
  }

  lemma {:induction false} ClearEntriesReadOnce(es: seq<Entry>, fs: seq<Entry>, names: set<Path>, digests: set<string>)
    requires ClearEntries(es, names, digests) && ClearEntries(fs, names, digests)
    requires RealEntries(es) && RealEntries(fs) && Flat(es) == Flat(fs)
    ensures es == fs
  {
    if es == [] || fs == [] {
      EmptyFlat(es);
      EmptyFlat(fs);
    } else {
      FirstReadOnce(es, fs, names, digests);
      TailIsClear(es, names, digests);
      TailIsClear(fs, names, digests);
      ClearEntriesReadOnce(es[1..], fs[1..], names, digests);
      HeadAndTail(es, fs);
    }
  }

  lemma TailIsClear(es: seq<Entry>, names: set<Path>, digests: set<string>)
    requires ClearEntries(es, names, digests) && RealEntries(es) && es != []
    ensures ClearEntries(es[1..], names, digests) && RealEntries(es[1..])
  {
  }

  lemma HeadAndTail(es: seq<Entry>, fs: seq<Entry>)
    requires es != [] && fs != [] && es[0] == fs[0] && es[1..] == fs[1..]
    ensures es == fs
  {
    assert es == [es[0]] + es[1..] && fs == [fs[0]] + fs[1..];
  }

  lemma FirstReadOnce(es: seq<Entry>, fs: seq<Entry>, names: set<Path>, digests: set<string>)
    requires ClearEntries(es, names, digests) && ClearEntries(fs, names, digests)
    requires RealEntries(es) && RealEntries(fs) && Flat(es) == Flat(fs) && es != [] && fs != []
    ensures es[0] == fs[0] && Flat(es[1..]) == Flat(fs[1..])
  {
    var n, d, n', d' := NameOf(es[0].path), es[0].digest, NameOf(fs[0].path), fs[0].digest;
    NotShorter(n, d, Flat(es[1..]), n', d', Flat(fs[1..]));
    NotShorter(n', d', Flat(fs[1..]), n, d, Flat(es[1..]));
    SameLength(n, d, Flat(es[1..]), n', d', Flat(fs[1..]));
    NameIsInjective(es[0].path, fs[0].path);
  }

  lemma SameLength(n: string, d: string, r: string, n': string, d': string, r': string)
    requires n + d + r == n' + d' + r' && |n| == |n'| && |d| == |d'|
    ensures n == n' && d == d' && r == r'
  {
    var s := n + d + r;
    assert s == n' + d' + r';
    assert n == s[..|n|] && d == s[|n|..|n| + |d|] && r == s[|n| + |d|..];
    assert n' == s[..|n|] && d' == s[|n|..|n| + |d|] && r' == s[|n| + |d|..];
  }

  /** Of two readings of one stream neither has the shorter first name: the longer one would contain
      half of the digest, or the digests would run into each other. */
  lemma NotShorter(n: string, d: string, r: string, n': string, d': string, r': string)
    requires n + d + r == n' + d' + r' && |d| == DIGEST_LENGTH == |d'|
    requires !Contains(n', d[..HALF]) && RunsApart(d, d')
    ensures |n| >= |n'|
  {
    if |n'| - |n| > HALF {
      InsideTheName(n, d, r, n', d', r');
    } else if |n'| > |n| {
      RunTheDigests(n, d, r, n', d', r');
    }
  }

  lemma InsideTheName(n: string, d: string, r: string, n': string, d': string, r': string)
    requires n + d + r == n' + d' + r' && |d| == DIGEST_LENGTH == |d'| && |n'| - |n| > HALF
    ensures Contains(n', d[..HALF])
  {
    var s := n + d + r;
    assert s == n' + d' + r';
    assert n'[|n|..|n| + HALF] == s[|n|..|n| + HALF] == d[..HALF];
    assert StartsAt(n', d[..HALF], |n|);
  }

  lemma RunTheDigests(n: string, d: string, r: string, n': string, d': string, r': string)
    requires n + d + r == n' + d' + r' && |d| == DIGEST_LENGTH == |d'| && 0 < |n'| - |n| <= HALF
    ensures d[|n'| - |n|..] == d'[..DIGEST_LENGTH - (|n'| - |n|)]
  {
    var s, k := n + d + r, |n'| - |n|;
    assert s == n' + d' + r';
    assert s[|n|..|n| + DIGEST_LENGTH] == d && s[|n'|..|n'| + DIGEST_LENGTH] == d';
    assert d[k..] == s[|n'|..|n| + DIGEST_LENGTH] == d'[..DIGEST_LENGTH - k];
  }

  lemma {:induction false} SameKeysReadAlike(hash: Hash, a: Listing, b: Listing, todo: set<Path>)
    requires Digests(hash) && todo <= a.Keys && todo <= b.Keys
    ensures Flat(Entries(hash, a, todo)) == Flat(Entries(hash, b, todo)) <==>
            forall p | p in todo :: hash(a[p]) == hash(b[p])
    decreases todo
  {
    if todo != {} {
      var p := Least(todo);
      var rest := todo - {p};
      SameKeysReadAlike(hash, a, b, rest);
      FlatCons(Entry(p, hash(a[p])), Entries(hash, a, rest));
      FlatCons(Entry(p, hash(b[p])), Entries(hash, b, rest));
      assert DigestOk(hash(a[p])) && DigestOk(hash(b[p]));
      var x, y := Flat(Entries(hash, a, rest)), Flat(Entries(hash, b, rest));
      if NameOf(p) + hash(a[p]) + x == NameOf(p) + hash(b[p]) + y {
        SameLength(NameOf(p), hash(a[p]), x, NameOf(p), hash(b[p]), y);
      }
      assert forall q | q in todo :: q == p || q in rest;
    }
  }

  /** For two directories that are told apart, the digest input is the same exactly when the names and
      the digests below them are. */
  lemma SameStreamIff(hash: Hash, a: Listing, b: Listing)
    requires Digests(hash) && RealTree(a) && RealTree(b) && TellsApart(hash, a, b)
    ensures Stream(hash, a) == Stream(hash, b) <==> SameManifest(hash, a, b)
  {
    if a.Keys == b.Keys {
      SameKeysReadAlike(hash, a, b, a.Keys);
    } else if Unmistakable(hash, a) {
      ToldFromAllIff(hash, a);
    } else if Unmistakable(hash, b) {
      ToldFromAllIff(hash, b);
    } else if Stream(hash, a) == Stream(hash, b) {
      ClearTreesReadOnce(hash, a, b);
    }
  }

  lemma ClearTreesReadOnce(hash: Hash, a: Listing, b: Listing)
    requires Digests(hash) && RealTree(a) && RealTree(b) && NamesAreClear(hash, a, b)
    requires Stream(hash, a) == Stream(hash, b)
    ensures SameManifest(hash, a, b)
  {
    var es, fs := Entries(hash, a, a.Keys), Entries(hash, b, b.Keys);
    var names, digests := a.Keys + b.Keys, set c | c in Held(a, b) :: hash(c);
    EntriesAreReal(hash, a, a.Keys);
    EntriesAreReal(hash, b, b.Keys);
    EntriesAreClear(hash, a, b, a, names, digests);
    EntriesAreClear(hash, a, b, b, names, digests);
    ClearEntriesReadOnce(es, fs, names, digests);
    SameEntries(hash, a, b);
  }

  lemma EntriesAreClear(hash: Hash, a: Listing, b: Listing, one: Listing, names: set<Path>, digests: set<string>)
    requires Digests(hash) && NamesAreClear(hash, a, b) && (one == a || one == b)
    requires names == a.Keys + b.Keys && digests == set c | c in Held(a, b) :: hash(c)
    ensures ClearEntries(Entries(hash, one, one.Keys), names, digests)
  {
    var es := Entries(hash, one, one.Keys);
    EntriesList(hash, one, one.Keys);
    forall i | 0 <= i < |es|
      ensures es[i].path in names && es[i].digest in digests
    {
      assert one[es[i].path] in one.Values;
      assert one[es[i].path] in Held(a, b);
    }
    forall d | d in digests
      ensures |d| == DIGEST_LENGTH
    {
      var c :| c in Held(a, b) && d == hash(c);
      assert DigestOk(hash(c));
    }
    forall p, d | p in names && d in digests
      ensures !Contains(NameOf(p), d[..HALF])
    {
      var c :| c in Held(a, b) && d == hash(c);
      assert NameIsClear(hash, p, c);
    }
    forall d, e | d in digests && e in digests
      ensures RunsApart(d, e)
    {
      var c :| c in Held(a, b) && d == hash(c);
      var c' :| c' in Held(a, b) && e == hash(c');
      assert RunsApart(hash(c), hash(c'));
    }
  }
}
