/** The placeholders that Tyche's configuration expands (tyche/config.py): `${NAME}` and `${NAME:-default}`. */
module Placeholders {
  import opened TycheConfig

  /** A letter or an underscore, then letters, digits and underscores. */
  ghost predicate IsName(name: string) {
    && name != "" && !('0' <= name[0] <= '9')
    && forall c | c in name :: 'A' <= c <= 'Z' || 'a' <= c <= 'z' || '0' <= c <= '9' || c == '_'
  }

  /** The text begins with this placeholder, `length` characters long. */
  ghost predicate BeginsWith(s: string, length: nat, name: string, default: string) {
    && IsName(name) && length <= |s|
    && (|| (s[..length] == "${" + name + "}" && default == "")
        || (s[..length] == "${" + name + ":-" + default + "}" && '}' !in default))
  }

  lemma {:induction false} NameLengthIs(s: string, n: nat)
    requires n <= |s| && (forall k | 0 <= k < n :: NameChar(s[k])) && (n < |s| ==> !NameChar(s[n]))
    ensures NameLength(s) == n
  {
    if n > 0 {
      NameLengthIs(s[1..], n - 1);
    }
  }

  lemma {:induction false} NameLengthCovers(s: string)
    ensures forall k | 0 <= k < NameLength(s) :: NameChar(s[k])
  {
    if s != "" && NameChar(s[0]) {
      NameLengthCovers(s[1..]);
      assert forall k | 1 <= k <= NameLength(s[1..]) :: s[k] == s[1..][k - 1];
    }
  }

  lemma {:induction false} IndexIsFirst(s: string, c: char)
    ensures c !in s[..IndexOf(s, c)]
  {
    if s != "" && s[0] != c {
      IndexIsFirst(s[1..], c);
      assert s[..IndexOf(s, c)] == [s[0]] + s[1..][..IndexOf(s[1..], c)];
    }
  }

  lemma {:induction false} FirstIs(s: string, c: char, i: nat)
    requires i < |s| && s[i] == c && c !in s[..i]
    ensures IndexOf(s, c) == i
  {
    if i > 0 {
      assert s[0] == s[..i][0];
      assert s[1..][..i - 1] == s[..i][1..];
      FirstIs(s[1..], c, i - 1);
    }
  }

  /** What `MatchAt` finds is there. */
  lemma MatchIsThere(s: string)
    requires MatchAt(s).Match?
    ensures var m := MatchAt(s); BeginsWith(s, m.length, m.name, m.default)
  {
    var n := NameLength(s[2..]);
    var name, rest := s[2..2 + n], s[2 + n..];
    NameIsThere(s);
    assert s[..2 + n] == "${" + name;
    if rest[0] == '}' {
      assert s[..3 + n] == s[..2 + n] + "}";
    } else {
      var d := IndexOf(rest[2..], '}');
      DefaultIsThere(rest, d);
      assert s[..2 + n + 2 + d + 1] == s[..2 + n] + rest[..2 + d + 1];
    }
  }

  lemma NameIsThere(s: string)
    requires |s| >= 3 && NameStart(s[2])
    ensures var n := NameLength(s[2..]); n > 0 && IsName(s[2..2 + n])
  {
    NameLengthCovers(s[2..]);
    var n := NameLength(s[2..]);
    assert forall k | 0 <= k < n :: s[2..2 + n][k] == s[2..][k];
    assert s[2..2 + n][0] == s[2];
  }

  lemma DefaultIsThere(rest: string, d: nat)
    requires |rest| >= 3 && rest[..2] == ":-" && d == IndexOf(rest[2..], '}') < |rest| - 2
    ensures rest[..2 + d + 1] == ":-" + rest[2..2 + d] + "}" && '}' !in rest[2..2 + d]
  {
    IndexIsFirst(rest[2..], '}');
    assert rest[2..][..d] == rest[2..2 + d];
    assert rest[2 + d] == rest[2..][d];
  }

  lemma Parts(s: string, a: string, b: string, c: string)
    requires |a| + |b| + |c| <= |s| && s[..|a| + |b| + |c|] == a + b + c
    ensures s[..|a|] == a && s[|a|..|a| + |b|] == b && s[|a| + |b|..|a| + |b| + |c|] == c
  {
    var pre := s[..|a| + |b| + |c|];
    assert pre[..|a|] == a && pre[|a|..|a| + |b|] == b && pre[|a| + |b|..] == c;
  }

  /** What is there is what `MatchAt` finds. */
  lemma ThereIsMatched(s: string, length: nat, name: string, default: string)
    requires BeginsWith(s, length, name, default)
    ensures MatchAt(s) == Match(length, name, default)
  {
    var n := |name|;
    var tail := if s[..length] == "${" + name + "}" then "}" else ":-" + default + "}";
    assert s[..length] == "${" + name + tail;
    Parts(s, "${", name, tail);
    assert s[2] == s[2..2 + n][0];
    forall k | 0 <= k < n
      ensures NameChar(s[2..][k])
    {
      assert s[2..][k] == name[k] && name[k] in name;
    }
    var rest := s[2 + n..];
    assert s[2..][n] == rest[0] == s[2 + n..2 + n + |tail|][0] == tail[0];
    NameLengthIs(s[2..], n);
    if tail != "}" {
      DefaultIsMatched(s, length, name, default);
    }
  }

  lemma DefaultIsMatched(s: string, length: nat, name: string, default: string)
    requires length <= |s| && s[..length] == "${" + name + ":-" + default + "}" && '}' !in default
    ensures var rest := s[2 + |name|..];
            && |rest| >= 3 && rest[..2] == ":-" && IndexOf(rest[2..], '}') == |default| < |rest| - 2
            && rest[2..2 + |default|] == default && length == |name| + |default| + 5 && rest[0] == ':'
  {
    var n, d := |name|, |default|;
    var rest := s[2 + n..];
    assert length == n + d + 5;
    assert rest[..d + 3] == s[..length][2 + n..];
    assert rest[..d + 3] == ":-" + default + "}";
    assert rest[..2] == rest[..d + 3][..2] && rest[0] == rest[..d + 3][0];
    assert rest[2..2 + d] == rest[..d + 3][2..2 + d] == default;
    assert rest[2..][..d] == default && rest[2..][d] == rest[..d + 3][2 + d];
    FirstIs(rest[2..], '}', d);
  }

  /** A placeholder is recognised exactly where the text begins with one; it is the only one that does. */
  lemma MatchIff(s: string, length: nat, name: string, default: string)
    ensures MatchAt(s) == Match(length, name, default) <==> BeginsWith(s, length, name, default)
  {
    if MatchAt(s).Match? {
      MatchIsThere(s);
    }
    if BeginsWith(s, length, name, default) {
      ThereIsMatched(s, length, name, default);
    }
  }

  /** At a placeholder the variable is put in its place or, if that is missing or empty, the default; the
      text goes on behind it. */
  lemma PlaceholderIsReplaced(name: string, default: string, rest: string, env: map<string, string>)
    requires IsName(name) && '}' !in default
    ensures Substitute("${" + name + ":-" + default + "}" + rest, env)
            == (if name in env && env[name] != "" then env[name] else default) + Substitute(rest, env)
    ensures Substitute("${" + name + "}" + rest, env)
            == (if name in env then env[name] else "") + Substitute(rest, env)
  {
    var long, short := "${" + name + ":-" + default + "}", "${" + name + "}";
    assert (long + rest)[..|long|] == long && (long + rest)[|long|..] == rest;
    assert (short + rest)[..|short|] == short && (short + rest)[|short|..] == rest;
    MatchIff(long + rest, |long|, name, default);
    MatchIff(short + rest, |short|, name, "");
  }

  /** Where no placeholder begins the character stays; so together these say what every text expands to. */
  lemma OthersStay(s: string, env: map<string, string>)
    requires s != "" && forall length, name, default :: !BeginsWith(s, length, name, default)
    ensures Substitute(s, env) == [s[0]] + Substitute(s[1..], env)
    ensures Substitute("", env) == ""
  {
    if MatchAt(s).Match? {
      MatchIsThere(s);
    }
  }

  // ---- dotted paths -------------------------------------------------------------------------

  /** The parts of a dotted path contain no dot, and joined by dots they are the path. */
  lemma {:induction false} SplitAtEveryDot(s: string)
    ensures Split(s) != [] && Join(Split(s)) == s
    ensures forall part | part in Split(s) :: '.' !in part
    decreases |s|
  {
    SplitJoin(s);
    var i := IndexOf(s, '.');
    IndexIsFirst(s, '.');
    if i < |s| {
      SplitAtEveryDot(s[i + 1..]);
      SplitAtDot(s, i);
    } else {
      assert s[..i] == s && Split(s) == [s];
    }
  }

  lemma {:induction false} NonEmptyConcat(a: seq<string>, b: seq<string>)
    ensures NonEmpty(a + b) == NonEmpty(a) + NonEmpty(b)
  {
    if a == [] {
      assert a + b == b;
    } else {
      assert (a + b)[1..] == a[1..] + b;
      NonEmptyConcat(a[1..], b);
    }
  }

  /** Dropping the empty parts of a path drops them and keeps the others as they are, in order. */
  lemma NonEmptyDropsEmpty(a: seq<string>, part: string, b: seq<string>)
    ensures NonEmpty(a + [part] + b) == NonEmpty(a) + (if part == "" then [] else [part]) + NonEmpty(b)
    ensures NonEmpty([]) == []
  {
    NonEmptyConcat(a + [part], b);
    NonEmptyConcat(a, [part]);
    assert [part][1..] == [];
  }
}
