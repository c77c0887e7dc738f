/** Python's string operations on the texts the round state reads. */
module Text {

  /** What `str.strip` removes. */
  predicate Space(c: char) {
    || '\t' <= c <= '\r' || '\U{1C}' <= c <= ' ' || c == '\U{85}' || c == '\U{A0}' || c == '\U{1680}'
    || '\U{2000}' <= c <= '\U{200A}' || c == '\U{2028}' || c == '\U{2029}' || c == '\U{202F}' || c == '\U{205F}'
    || c == '\U{3000}'
  }

  /** No space at either end. */
  predicate Trimmed(s: string) { s == "" || (!Space(s[0]) && !Space(s[|s| - 1])) }

  function Strip(s: string): (r: string)
    ensures Trimmed(r)
    ensures Trimmed(s) ==> r == s
    ensures r == "" <==> forall k | 0 <= k < |s| :: Space(s[k])
    decreases |s|
  {
    if s == "" then s
    else if Space(s[0]) then Strip(s[1..])
    else if Space(s[|s| - 1]) then Strip(s[..|s| - 1])
    else s
  }

  /** Stripping takes away the spaces at both ends and nothing else. */
  lemma {:induction false} StripIsMiddle(s: string) returns (i: nat, j: nat)
    ensures i <= j <= |s| && Strip(s) == s[i..j] && SpaceOutside(s, i, j)
    decreases |s|
  {
    if s != "" && Space(s[0]) {
      i, j := StripIsMiddle(s[1..]);
      MiddleShifts(s, i, j);
      i, j := i + 1, j + 1;
    } else if s != "" && Space(s[|s| - 1]) {
      i, j := StripIsMiddle(s[..|s| - 1]);
      MiddleStays(s, i, j);
    } else {
      i, j := 0, |s|;
    }
  }

  /** Nothing but spaces outside. */
  ghost predicate SpaceOutside(s: string, i: nat, j: nat) { forall k | 0 <= k < |s| && (k < i || j <= k) :: Space(s[k]) }

  lemma MiddleShifts(s: string, i: nat, j: nat)
    requires s != "" && Space(s[0]) && i <= j <= |s[1..]| && SpaceOutside(s[1..], i, j)
    ensures s[1..][i..j] == s[i + 1..j + 1] && SpaceOutside(s, i + 1, j + 1)
  {
    forall k | 0 <= k < |s| && (k < i + 1 || j + 1 <= k)
      ensures Space(s[k])
    {
      if k > 0 {
        assert s[k] == s[1..][k - 1];
      }
    }
  }

  lemma MiddleStays(s: string, i: nat, j: nat)
    requires s != "" && Space(s[|s| - 1]) && i <= j <= |s| - 1 && SpaceOutside(s[..|s| - 1], i, j)
    ensures s[..|s| - 1][i..j] == s[i..j] && SpaceOutside(s, i, j)
  {
    forall k | 0 <= k < |s| && (k < i || j <= k)
      ensures Space(s[k])
    {
      if k < |s| - 1 {
        assert s[k] == s[..|s| - 1][k];
      }
    }
  }

  /** The lower-case form, as far as it can decide whether a text equals an ASCII word: ASCII letters,
      and the Kelvin sign, whose lower-case form is an ASCII letter. */
  function Lower(s: string): (r: string)
    ensures |r| == |s|
  {
    seq(|s|, i requires 0 <= i < |s| =>
      if 'A' <= s[i] <= 'Z' then (s[i] as int + 32) as char else if s[i] == '\U{212A}' then 'k' else s[i])
  }

  /** A lower-case ASCII letter comes from itself and its capital, `k` also from the Kelvin sign; every other
      character but a capital from itself only. */
  lemma LowerIff(s: string, i: nat, c: char)
    requires i < |s| && !('A' <= c <= 'Z') && c != '\U{212A}'
    ensures Lower(s)[i] == c <==>
            || s[i] == c
            || ('a' <= c <= 'z' && s[i] == (c as int - 32) as char)
            || (c == 'k' && s[i] == '\U{212A}')
  {
  }

  /** A part occurs in a text exactly if the text is something, the part, and something. */
  lemma ContainsIff(text: string, part: string)
    ensures Contains(text, part) <==> exists a, b :: text == a + part + b
  {
    if i :| 0 <= i <= |text| && StartsAt(text, part, i) {
      assert text == text[..i] + part + text[i + |part|..];
    }
    if a, b :| text == a + part + b {
      assert StartsAt(text, part, |a|);
    }
  }

  predicate Contains(text: string, part: string) {
    exists i | 0 <= i <= |text| :: StartsAt(text, part, i)
  }

  predicate StartsAt(text: string, part: string, i: nat)
    requires i <= |text|
  {
    i + |part| <= |text| && text[i..i + |part|] == part
  }

  predicate EndsWith(text: string, end: string) {
    |text| >= |end| && text[|text| - |end|..] == end
  }
}
