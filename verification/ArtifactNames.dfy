/** How an artifact version is named: its record id `name@vN` and its path `artifacts/name/vN.ext`
    (tyche/workspace.py). Neither naming ever maps two versions to one string. */
module ArtifactNames {

  predicate Digit(c: char) { '0' <= c <= '9' }

  /** The decimal rendering of a version number. */
  function Decimal(n: nat): (s: string)
    ensures |s| > 0 && forall k | 0 <= k < |s| :: Digit(s[k])
  {
    var last := ['0' + (n % 10) as char];
    if n < 10 then last else Decimal(n / 10) + last
  }

  /** The number a rendering denotes. */
  /** As the names read: `plan@v12`, stored in `artifacts/plan/v12.json`. */
  lemma NamesRead()
    ensures Id("plan", 12) == "plan@v12" && PathOf("plan", 12, ".json") == "artifacts/plan/v12.json"
  {
    assert Decimal(1) == "1" && Decimal(12) == "12";
  }

  function Value(s: string): nat
    requires forall k | 0 <= k < |s| :: Digit(s[k])
  {
    if s == [] then 0 else assert Digit(s[|s| - 1]); 10 * Value(s[..|s| - 1]) + (s[|s| - 1] as int - '0' as int)
  }

  lemma {:induction false} DecimalReadsBack(n: nat)
    ensures Value(Decimal(n)) == n
  {
    var s := Decimal(n);
    if n < 10 {
      assert s[..|s| - 1] == [];
    } else {
      DecimalReadsBack(n / 10);
      assert s[..|s| - 1] == Decimal(n / 10);
    }
  }

  function Id(name: string, version: nat): string { name + "@v" + Decimal(version) }

  function FileName(version: nat, suffix: string): string { "v" + Decimal(version) + suffix }

  function PathOf(name: string, version: nat, suffix: string): string {
    "artifacts/" + name + "/" + FileName(version, suffix)
  }

  /** A name is one path component. */
  predicate NameOk(name: string) { name != "" && '/' !in name && name != "." && name != ".." }

  /** A suffix is empty or starts with a dot, as every suffix of a path does. */
  predicate SuffixOk(suffix: string) { suffix == "" || suffix[0] == '.' }

  lemma IdIsInjective(name: string, version: nat, name': string, version': nat)
    requires Id(name, version) == Id(name', version')
    ensures name == name' && version == version'
  {
    var tail, tail' := "v" + Decimal(version), "v" + Decimal(version');
    assert Id(name, version) == name + ['@'] + tail && Id(name', version') == name' + ['@'] + tail';
    LastSeparator(name, tail, name', tail', '@');
    assert Decimal(version) == tail[1..] == tail'[1..] == Decimal(version');
    DecimalReadsBack(version);
    DecimalReadsBack(version');
  }

  /** A separator that occurs in neither tail splits the string in one way. */
  lemma LastSeparator(a: string, b: string, a': string, b': string, c: char)
    requires a + [c] + b == a' + [c] + b' && c !in b && c !in b'
    ensures a == a' && b == b'
  {
    var s := a + [c] + b;
    assert s[|a|] == c && forall k | |a| < k < |s| :: s[k] == b[k - |a| - 1] != c;
    assert s == a' + [c] + b';
    assert s[|a'|] == c && forall k | |a'| < k < |s| :: s[k] == b'[k - |a'| - 1] != c;
    assert a == s[..|a|] && b == s[|a| + 1..] && a' == s[..|a'|] && b' == s[|a'| + 1..];
  }

  /** A separator that occurs in neither head splits the string in one way. */
  lemma FirstSeparator(a: string, b: string, a': string, b': string, c: char)
    requires a + [c] + b == a' + [c] + b' && c !in a && c !in a'
    ensures a == a' && b == b'
  {
    var s := a + [c] + b;
    assert s[|a|] == c && forall k | 0 <= k < |a| :: s[k] == a[k] != c;
    assert s == a' + [c] + b';
    assert s[|a'|] == c && forall k | 0 <= k < |a'| :: s[k] == a'[k] != c;
    assert a == s[..|a|] && b == s[|a| + 1..] && a' == s[..|a'|] && b' == s[|a'| + 1..];
  }

  lemma PathIsInjective(name: string, version: nat, suffix: string, name': string, version': nat, suffix': string)
    requires NameOk(name) && NameOk(name') && SuffixOk(suffix) && SuffixOk(suffix')
    requires PathOf(name, version, suffix) == PathOf(name', version', suffix')
    ensures name == name' && version == version' && suffix == suffix'
  {
    var prefix := "artifacts/";
    var file, file' := FileName(version, suffix), FileName(version', suffix');
    var p, p' := PathOf(name, version, suffix), PathOf(name', version', suffix');
    assert p == prefix + (name + ['/'] + file) && p' == prefix + (name' + ['/'] + file');
    assert p[|prefix|..] == name + ['/'] + file && p'[|prefix|..] == name' + ['/'] + file';
    FirstSeparator(name, file, name', file', '/');
    var digits, digits' := Decimal(version), Decimal(version');
    assert file[1..] == digits + suffix && file'[1..] == digits' + suffix';
    DigitsEnd(digits, suffix, digits', suffix');
    DecimalReadsBack(version);
    DecimalReadsBack(version');
  }

  /** Digits followed by something that does not start with a digit split in one way. */
  lemma DigitsEnd(a: string, b: string, a': string, b': string)
    requires a + b == a' + b'
    requires (forall k | 0 <= k < |a| :: Digit(a[k])) && (forall k | 0 <= k < |a'| :: Digit(a'[k]))
    requires (b == "" || !Digit(b[0])) && (b' == "" || !Digit(b'[0]))
    ensures a == a' && b == b'
  {
    var s := a + b;
    assert (forall k | 0 <= k < |a| :: s[k] == a[k]) && (|a| < |s| ==> s[|a|] == b[0]);
    assert s == a' + b';
    assert (forall k | 0 <= k < |a'| :: s[k] == a'[k]) && (|a'| < |s| ==> s[|a'|] == b'[0]);
    assert a == s[..|a|] && b == s[|a|..] && a' == s[..|a'|] && b' == s[|a'|..];
  }
}
