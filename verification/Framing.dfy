/** How the prefix ledger turns a list of chat messages into the byte string it hashes:
    every message contributes a record separator, its role, a unit separator and its text. */
module Framing {

  const RS := '\U{1E}'
  const US := '\U{1F}'

  /** One message as the ledger sees it: its role and its text without cache breakpoints. */
  datatype Line = Line(role: string, text: string)

  /** The roles Tyche ever sends. */
  predicate KnownRole(r: string) { r == "system" || r == "user" || r == "assistant" }

  function Header(role: string): string { [RS] + role + [US] }

  function Piece(m: Line): string { Header(m.role) + m.text }

  /** The string fed to the hash for a list of messages, after the route. */
  function Frame(ms: seq<Line>): string {
    if ms == [] then "" else Frame(ms[..|ms| - 1]) + Piece(ms[|ms| - 1])
  }

  predicate StartsWithHeader(s: string) {
    Header("system") <= s || Header("user") <= s || Header("assistant") <= s
  }

  /** No message header is hidden inside the text. */
  ghost predicate ClearText(t: string) {
    forall i | 0 <= i <= |t| :: !StartsWithHeader(t[i..])
  }

  ghost predicate ProperLine(m: Line) { KnownRole(m.role) }

  ghost predicate Proper(ms: seq<Line>) { forall i | 0 <= i < |ms| :: ProperLine(ms[i]) }

  /** Known roles, and no text that imitates a message header. */
  ghost predicate Clear(ms: seq<Line>) {
    Proper(ms) && forall i | 0 <= i < |ms| :: ClearText(ms[i].text)
  }

  lemma FrameSnoc(ms: seq<Line>, m: Line)
    ensures Frame(ms + [m]) == Frame(ms) + Piece(m)
  {
    assert (ms + [m])[..|ms|] == ms;
  }

  lemma {:induction false} FrameConcat(a: seq<Line>, b: seq<Line>)
    ensures Frame(a + b) == Frame(a) + Frame(b)
  {
    if b == [] {
      assert a + b == a;
    } else {
      var n := |b| - 1;
      FrameConcat(a, b[..n]);
      assert a + b == (a + b[..n]) + [b[n]];
      FrameSnoc(a + b[..n], b[n]);
      Associative(Frame(a), Frame(b[..n]), Piece(b[n]));
    }
  }

  lemma Associative(x: string, y: string, z: string)
    ensures (x + y) + z == x + (y + z)
  {
  }

  /** The bytes of one message: a record separator, its role, a unit separator and its text. */
  lemma FrameOfOne(role: string, text: string)
    ensures Frame([Line(role, text)]) == [0x1E as char] + role + [0x1F as char] + text
    ensures Frame([]) == ""
  {
    FrameOne(Line(role, text));
  }

  /** In a piece the role runs from the record separator to the first unit separator, and contains
      neither. */
  lemma PieceParts(m: Line)
    requires ProperLine(m)
    ensures var p, n := Piece(m), |m.role|;
            && |p| >= n + 2 && p[0] == RS && p[1..n + 1] == m.role && p[n + 1] == US && p[n + 2..] == m.text
            && forall i | 1 <= i <= n :: p[i] != RS && p[i] != US
  {
    var p := Piece(m);
    forall i | 1 <= i <= |m.role|
      ensures p[i] != RS && p[i] != US
    {
      assert p[i] == m.role[i - 1];
    }
  }

  /** A known role is read back from its piece. */
  lemma PieceInjective(m: Line, m': Line)
    requires ProperLine(m) && ProperLine(m') && Piece(m) == Piece(m')
    ensures m == m'
  {
    PieceParts(m);
    PieceParts(m');
    assert |m.role| == |m'.role|;
  }

  /** If the last piece of one framing starts inside the last piece of another, then the text of
      the longer piece hides a header. */
  lemma InnerHeader(f: string, m: Line, f': string, m': Line)
    requires ProperLine(m) && ProperLine(m')
    requires f + Piece(m) == f' + Piece(m') && |f| < |f'|
    ensures !ClearText(m.text)
  {
    var whole, d := f + Piece(m), |f'| - |f|;
    assert whole[|f|..] == Piece(m) && whole[|f'|..] == Piece(m');
    assert Piece(m)[d..] == whole[|f| + d..];
    TailHidesHeader(m, d, m');
  }

  /** A piece that ends another one, but for its first `d` characters, lies within its text. */
  lemma TailHidesHeader(m: Line, d: nat, m': Line)
    requires ProperLine(m) && ProperLine(m') && 0 < d <= |Piece(m)| && Piece(m)[d..] == Piece(m')
    ensures !ClearText(m.text)
  {
    PieceParts(m);
    assert Piece(m)[d] == Piece(m')[0] == RS;
    var i := d - 2 - |m.role|;
    assert m.text[i..] == Piece(m)[d..];
    assert Header(m'.role) <= Piece(m');
    assert StartsWithHeader(m.text[i..]);
  }

  /** Message lists without hidden headers are told apart by their framing. */
  lemma {:induction false} FrameInjective(a: seq<Line>, b: seq<Line>)
    requires Clear(a) && Clear(b) && Frame(a) == Frame(b)
    ensures a == b
  {
    if a != [] && b != [] {
      var n, k := |a| - 1, |b| - 1;
      if |Frame(a[..n])| < |Frame(b[..k])| {
        InnerHeader(Frame(a[..n]), a[n], Frame(b[..k]), b[k]);
      } else if |Frame(a[..n])| > |Frame(b[..k])| {
        InnerHeader(Frame(b[..k]), b[k], Frame(a[..n]), a[n]);
      } else {
        assert Frame(a)[..|Frame(a[..n])|] == Frame(a[..n]);
        assert Frame(b)[..|Frame(b[..k])|] == Frame(b[..k]);
        assert Piece(a[n]) == Frame(a)[|Frame(a[..n])|..] == Piece(b[k]);
        PieceInjective(a[n], b[k]);
        FrameInjective(a[..n], b[..k]);
        assert a == a[..n] + [a[n]];
        assert b == b[..k] + [b[k]];
      }
    }
  }

  /** One message is framed like no other list of messages. */
  ghost predicate FramedAlone(m: Line) {
    forall ms: seq<Line> | Proper(ms) && Frame(ms) == Frame([m]) :: ms == [m]
  }

  lemma FrameOne(m: Line)
    ensures Frame([m]) == Piece(m)
  {
    assert [m] == [] + [m];
    FrameSnoc([], m);
  }

  /** A piece whose text hides a header is two pieces. */
  lemma PieceSplits(m: Line, i: nat, r: string)
    requires i <= |m.text| && Header(r) <= m.text[i..]
    ensures Piece(m) == Piece(Line(m.role, m.text[..i])) + Piece(Line(r, m.text[i..][|Header(r)|..]))
  {
    var before, second := m.text[..i], Line(r, m.text[i..][|Header(r)|..]);
    assert m.text == before + m.text[i..] && m.text[i..] == Piece(second);
    Associative(Header(m.role), before, Piece(second));
  }

  /** A text with a hidden header reads as two messages. */
  lemma SplitCollides(m: Line, i: nat, r: string)
    requires ProperLine(m) && KnownRole(r) && i <= |m.text| && Header(r) <= m.text[i..]
    ensures !FramedAlone(m)
  {
    var first, second := Line(m.role, m.text[..i]), Line(r, m.text[i..][|Header(r)|..]);
    var parts := [first] + [second];
    PieceSplits(m, i, r);
    FrameOne(first);
    FrameSnoc([first], second);
    FrameOne(m);
    assert Proper(parts) && |parts| != |[m]|;
  }

  lemma ClearIsAlone(m: Line, ms: seq<Line>)
    requires ProperLine(m) && ClearText(m.text) && Proper(ms) && Frame(ms) == Frame([m])
    ensures ms == [m]
  {
    FrameOne(m);
    var k := |ms| - 1;
    var f := Frame(ms[..k]);
    if |f| > 0 {
      InnerHeader("", m, f, ms[k]);
    } else {
      assert k == 0;
      assert ms == [ms[0]];
      PieceInjective(ms[0], m);
    }
  }

  lemma ClearIsFramedAlone(m: Line)
    requires ProperLine(m) && ClearText(m.text)
    ensures FramedAlone(m)
  {
    forall ms: seq<Line> | Proper(ms) && Frame(ms) == Frame([m])
      ensures ms == [m]
    {
      ClearIsAlone(m, ms);
    }
  }

  lemma HiddenHeaderCollides(m: Line)
    requires ProperLine(m) && !ClearText(m.text)
    ensures !FramedAlone(m)
  {
    var i :| 0 <= i <= |m.text| && StartsWithHeader(m.text[i..]);
    SplitCollides(m, i, HiddenRole(m.text[i..]));
  }

  ghost function HiddenRole(s: string): (r: string)
    requires StartsWithHeader(s)
    ensures KnownRole(r) && Header(r) <= s
  {
    if Header("system") <= s then "system" else if Header("user") <= s then "user" else "assistant"
  }

  /** Exactly the texts without a hidden header are unambiguous: the hash of a message whose
      text contains one is also the hash of a different list of messages. */
  lemma UnambiguousIffClear(m: Line)
    requires ProperLine(m)
    ensures FramedAlone(m) <==> ClearText(m.text)
  {
    if ClearText(m.text) {
      ClearIsFramedAlone(m);
    } else {
      HiddenHeaderCollides(m);
    }
  }

  // ---- which texts may be sent ------------------------------------------------------------

  /** Messages of known roles whose texts are among these. */
  ghost predicate Over(texts: iset<string>, ms: seq<Line>) {
    Proper(ms) && forall i | 0 <= i < |ms| :: ms[i].text in texts
  }

  ghost predicate AllClear(texts: iset<string>) { forall t | t in texts :: ClearText(t) }

  /** No two lists of messages with such texts are framed alike. */
  ghost predicate ToldApart(texts: iset<string>) {
    forall a, b | Over(texts, a) && Over(texts, b) && Frame(a) == Frame(b) :: a == b
  }

  ghost predicate HeaderAt(t: string, i: nat) { i <= |t| && StartsWithHeader(t[i..]) }

  lemma {:induction false} LastWhere(p: nat -> bool, n: nat, some: nat) returns (i: nat)
    requires some <= n && p(some)
    ensures i <= n && p(i) && forall k: nat | i < k <= n :: !p(k)
  {
    if p(n) {
      i := n;
    } else {
      i := LastWhere(p, n - 1, some);
    }
  }

  lemma ClearBehind(t: string, i: nat, n: nat)
    requires i + n <= |t| && n > 0 && forall k | i < k <= |t| :: !HeaderAt(t, k)
    ensures ClearText(t[i..][n..])
  {
    forall j | 0 <= j <= |t[i..][n..]|
      ensures !StartsWithHeader(t[i..][n..][j..])
    {
      assert t[i..][n..][j..] == t[i + n + j..];
      assert !HeaderAt(t, i + n + j);
    }
  }

  /** The last header hidden in a text, behind which it is clear. */
  lemma LastHeader(t: string) returns (i: nat, r: string)
    requires !ClearText(t)
    ensures i <= |t| && KnownRole(r) && Header(r) <= t[i..] && ClearText(t[i..][|Header(r)|..])
  {
    var some :| 0 <= some <= |t| && StartsWithHeader(t[some..]);
    var p := (k: nat) => HeaderAt(t, k);
    i := LastWhere(p, |t|, some);
    forall k: nat | i < k <= |t|
      ensures !HeaderAt(t, k)
    {
      assert !p(k);
    }
    r := HiddenRole(t[i..]);
    ClearBehind(t, i, |Header(r)|);
  }

  lemma ClearSnoc(ms: seq<Line>, m: Line)
    requires Clear(ms) && ProperLine(m) && ClearText(m.text)
    ensures Clear(ms + [m])
  {
  }

  /** Every message is framed like some list of clear ones. */
  lemma {:induction false} SplitIntoClear(m: Line) returns (parts: seq<Line>)
    requires ProperLine(m)
    ensures Clear(parts) && parts != [] && parts[0].role == m.role && Frame(parts) == Piece(m)
    decreases |m.text|
  {
    if ClearText(m.text) {
      parts := [m];
      FrameOne(m);
    } else {
      var i, r := LastHeader(m.text);
      var last := Line(r, m.text[i..][|Header(r)|..]);
      PieceSplits(m, i, r);
      var before := SplitIntoClear(Line(m.role, m.text[..i]));
      FrameSnoc(before, last);
      ClearSnoc(before, last);
      parts := before + [last];
    }
  }

  lemma ClearTellsApart(texts: iset<string>)
    requires AllClear(texts)
    ensures ToldApart(texts)
  {
    forall a, b | Over(texts, a) && Over(texts, b) && Frame(a) == Frame(b)
      ensures a == b
    {
      FrameInjective(a, b);
    }
  }

  /** Any set of texts that includes the clear ones makes lists of messages that are told apart
      exactly when it has no others. */
  lemma ToldApartIffClear(texts: iset<string>)
    requires forall t | ClearText(t) :: t in texts
    ensures ToldApart(texts) <==> AllClear(texts)
  {
    if AllClear(texts) {
      ClearTellsApart(texts);
    } else {
      var t :| t in texts && !ClearText(t);
      var m := Line("system", t);
      var parts := SplitIntoClear(m);
      FrameOne(m);
      assert Over(texts, parts) && Over(texts, [m]) && parts != [m] by {
        assert parts[0] != m;
      }
    }
  }
}
