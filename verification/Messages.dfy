/** Chat messages and the cache breakpoints placed on them (tyche/cache.py). */
module Messages {
  import opened PyList
  import opened Framing

  datatype Mechanism = Automatic | Explicit | Client | Unverified | Disabled

  datatype Profile = Profile(
    mechanism: Mechanism,
    minPrefixTokens: int,
    granularity: int,
    keyField: string,
    keyHeader: string,
    sessionAffinity: bool,
    retentionField: string,
    maxBreakpoints: nat)

  /** The profile that stands in when cache adaptation is switched off. */
  const OFF := Profile(Disabled, 0, 1, "", "", false, "", 4)

  datatype Block = TextBlock(text: string, breakpoint: bool) | OtherBlock
  datatype Content = Text(text: string) | Blocks(blocks: seq<Block>)
  datatype Message = Message(role: string, content: Content)

  /** A local token counter; the source memoises one that returns 0 for the empty text. */
  type Counter = string -> nat

  function BlocksText(blocks: seq<Block>): string {
    if blocks == [] then ""
    else (if blocks[0].TextBlock? then blocks[0].text else "") + BlocksText(blocks[1..])
  }

  function MessageText(c: Content): string {
    match c
    case Text(t) => t
    case Blocks(bs) => BlocksText(bs)
  }

  function Marked(text: string): Content { Blocks([TextBlock(text, true)]) }

  function PlainMessages(ms: seq<Message>): seq<Message> {
    seq(|ms|, i requires 0 <= i < |ms| => Message(ms[i].role, Text(MessageText(ms[i].content))))
  }

  /** What the ledger hashes: breakpoints are invisible. */
  function Lines(ms: seq<Message>): seq<Line> {
    seq(|ms|, i requires 0 <= i < |ms| => Line(ms[i].role, MessageText(ms[i].content)))
  }

  /** The messages of one request, before breakpoints. */
  function RequestLines(system: string, history: seq<Line>, user: string): seq<Line> {
    [Line("system", system)] + history + [Line("user", user)]
  }

  function TokensUpTo(count: Counter, lines: seq<Line>, n: nat): nat
    requires n <= |lines|
  {
    if n == 0 then 0 else TokensUpTo(count, lines, n - 1) + count(lines[n - 1].text)
  }

  /** The last user message among positions 1 .. n-1, as a list of at most one index. */
  function PreviousTail(lines: seq<Line>, n: nat): seq<nat>
    requires n <= |lines|
  {
    if n <= 1 then []
    else if lines[n - 1].role == "user" then [n - 1]
    else PreviousTail(lines, n - 1)
  }

  /** Where breakpoints are wanted, in increasing order. */
  function Candidates(lines: seq<Line>, continues: bool): seq<nat>
    requires |lines| >= 2
  {
    [0] + PreviousTail(lines, |lines| - 1) + (if continues then [|lines| - 1] else [])
  }

  /** The wanted breakpoints whose prefix is long enough for the provider. */
  function Affordable(p: Profile, count: Counter, lines: seq<Line>, marks: seq<nat>): seq<nat> {
    if marks == [] then []
    else
      var rest := Affordable(p, count, lines, marks[..|marks| - 1]);
      var m := marks[|marks| - 1];
      if m < |lines| && TokensUpTo(count, lines, m + 1) >= p.minPrefixTokens then rest + [m] else rest
  }

  /** The indices that carry a breakpoint: the last `maxBreakpoints` affordable ones. */
  function Kept(p: Profile, count: Counter, lines: seq<Line>, continues: bool): seq<nat>
    requires |lines| >= 2
  {
    if p.mechanism != Explicit then []
    else Trailing(Affordable(p, count, lines, Candidates(lines, continues)), p.maxBreakpoints)
  }

  function WithMarks(lines: seq<Line>, marks: seq<nat>): seq<Message> {
    seq(|lines|, i requires 0 <= i < |lines| =>
      Message(lines[i].role, if i in marks then Marked(lines[i].text) else Text(lines[i].text)))
  }

  /** `s[-n:]`: the last n elements, and the whole list when n is 0. */
  function Trailing(s: seq<nat>, n: nat): (r: seq<nat>)
    ensures n == 0 || n >= |s| ==> r == s
    ensures 0 < n < |s| ==> r == s[|s| - n..]
  {
    From(s, 0 - n)
  }

  /** The chat messages of one request. */
  function Build(p: Profile, count: Counter, system: string, history: seq<Line>, user: string, continues: bool)
    : seq<Message>
  {
    var lines := RequestLines(system, history, user);
    WithMarks(lines, Kept(p, count, lines, continues))
  }

  // ---- where breakpoints belong ---------------------------------------------------------------

  /** A breakpoint belongs on the system message, on the last user message before the final message and,
      if the exchange continues, on the final message. */
  ghost predicate Wanted(lines: seq<Line>, continues: bool, i: nat) {
    && i < |lines|
    && (|| i == 0
        || (1 <= i < |lines| - 1 && lines[i].role == "user"
            && forall j | i < j < |lines| - 1 :: lines[j].role != "user")
        || (continues && i == |lines| - 1))
  }

  /** It is worth it if the texts up to there reach the provider's minimum. */
  ghost predicate Worthwhile(p: Profile, count: Counter, lines: seq<Line>, continues: bool, i: nat) {
    Wanted(lines, continues, i) && TokensUpTo(count, lines, i + 1) >= p.minPrefixTokens
  }

  ghost function WorthwhileAfter(p: Profile, count: Counter, lines: seq<Line>, continues: bool, i: nat): set<nat> {
    set j: nat | i < j < |lines| && Worthwhile(p, count, lines, continues, j)
  }

  /** Of the worthwhile ones the last are placed, as many as the provider allows; all of them if the limit
      is 0 (Python's `[-0:]`). Only explicit caches get any. */
  ghost predicate Placed(p: Profile, count: Counter, lines: seq<Line>, continues: bool, i: nat) {
    && p.mechanism == Explicit && Worthwhile(p, count, lines, continues, i)
    && (p.maxBreakpoints == 0 || |WorthwhileAfter(p, count, lines, continues, i)| < p.maxBreakpoints)
  }

  /** Every message says what its line says, as one text block with a breakpoint where one is placed and as
      plain text elsewhere. */
  ghost predicate PlacedRight(p: Profile, count: Counter, lines: seq<Line>, continues: bool, messages: seq<Message>) {
    && |messages| == |lines|
    && forall i | 0 <= i < |lines| ::
         && messages[i].role == lines[i].role
         && messages[i].content == if Placed(p, count, lines, continues, i) then Blocks([TextBlock(lines[i].text, true)])
                                   else Text(lines[i].text)
  }

  /** Some block of the message carries a breakpoint. */
  ghost predicate Carries(m: Message) {
    m.content.Blocks? && exists b | b in m.content.blocks :: b.TextBlock? && b.breakpoint
  }

  lemma {:induction false} PreviousTailIff(lines: seq<Line>, n: nat, i: nat)
    requires n <= |lines|
    ensures i in PreviousTail(lines, n) <==>
            1 <= i < n && lines[i].role == "user" && forall j | i < j < n :: lines[j].role != "user"
  {
    if n > 1 && lines[n - 1].role != "user" {
      PreviousTailIff(lines, n - 1, i);
    }
  }

  lemma CandidatesIff(lines: seq<Line>, continues: bool, i: nat)
    requires |lines| >= 2
    ensures i in Candidates(lines, continues) <==> Wanted(lines, continues, i)
  {
    PreviousTailIff(lines, |lines| - 1, i);
  }

  lemma {:induction false} AffordableIff(p: Profile, count: Counter, lines: seq<Line>, marks: seq<nat>, i: nat)
    ensures i in Affordable(p, count, lines, marks) <==>
            i in marks && i < |lines| && TokensUpTo(count, lines, i + 1) >= p.minPrefixTokens
  {
    if marks != [] {
      AffordableIff(p, count, lines, marks[..|marks| - 1], i);
      assert marks == marks[..|marks| - 1] + [marks[|marks| - 1]];
    }
  }

  ghost function Above(s: seq<nat>, x: nat): set<nat> { set y | y in s && y > x }

  lemma AboveCount(s: seq<nat>, k: nat)
    requires Increasing(s) && k < |s|
    ensures |Above(s, s[k])| == |s| - 1 - k
  {
    var rest := s[k + 1..];
    forall x | x in Above(s, s[k])
      ensures x in rest
    {
      var l :| 0 <= l < |s| && s[l] == x;
      assert rest[l - k - 1] == x;
    }
    assert Above(s, s[k]) == Elements(rest);
    DistinctCount(rest);
  }

  lemma TrailingAt(s: seq<nat>, n: nat, k: nat)
    requires Increasing(s) && k < |s|
    ensures s[k] in Trailing(s, n) <==> n == 0 || k >= |s| - n
  {
    var t := Trailing(s, n);
    if 0 < n < |s| {
      assert t == s[|s| - n..];
      assert forall l | 0 <= l < n :: t[l] == s[|s| - n + l];
      if k >= |s| - n {
        assert t[k - (|s| - n)] == s[k];
      }
    } else {
      assert t == s;
    }
  }

  /** The last `n` of an increasing list are those with fewer than `n` behind them. */
  lemma TrailingIff(s: seq<nat>, n: nat, x: nat)
    requires Increasing(s)
    ensures x in Trailing(s, n) <==> x in s && (n == 0 || |Above(s, x)| < n)
  {
    TrailingPart(s, n);
    if x in s {
      var k :| 0 <= k < |s| && s[k] == x;
      AboveCount(s, k);
      TrailingAt(s, n, k);
    }
  }

  lemma KeptIff(p: Profile, count: Counter, lines: seq<Line>, continues: bool, i: nat)
    requires |lines| >= 2
    ensures i in Kept(p, count, lines, continues) <==> Placed(p, count, lines, continues, i)
  {
    if p.mechanism == Explicit {
      var all := Affordable(p, count, lines, Candidates(lines, continues));
      CandidatesInRange(lines, continues);
      AffordableIncreasing(p, count, lines, Candidates(lines, continues));
      TrailingIff(all, p.maxBreakpoints, i);
      WorthwhileIff(p, count, lines, continues, i);
      AboveIsAfter(p, count, lines, continues, i);
    }
  }

  lemma WorthwhileIff(p: Profile, count: Counter, lines: seq<Line>, continues: bool, i: nat)
    requires |lines| >= 2
    ensures i in Affordable(p, count, lines, Candidates(lines, continues)) <==> Worthwhile(p, count, lines, continues, i)
  {
    CandidatesIff(lines, continues, i);
    AffordableIff(p, count, lines, Candidates(lines, continues), i);
  }

  lemma AboveIsAfter(p: Profile, count: Counter, lines: seq<Line>, continues: bool, i: nat)
    requires |lines| >= 2
    ensures Above(Affordable(p, count, lines, Candidates(lines, continues)), i)
            == WorthwhileAfter(p, count, lines, continues, i)
  {
    var all := Affordable(p, count, lines, Candidates(lines, continues));
    forall j: nat
      ensures j in Above(all, i) <==> j in WorthwhileAfter(p, count, lines, continues, i)
    {
      WorthwhileIff(p, count, lines, continues, j);
    }
  }

  /** A request carries its breakpoints exactly where they belong. */
  lemma BreakpointsAreRight(
    p: Profile, count: Counter, system: string, history: seq<Line>, user: string, continues: bool)
    ensures var lines, messages := RequestLines(system, history, user), Build(p, count, system, history, user, continues);
            && PlacedRight(p, count, lines, continues, messages)
            && forall i | 0 <= i < |lines| :: Carries(messages[i]) <==> Placed(p, count, lines, continues, i)
  {
    var lines, messages := RequestLines(system, history, user), Build(p, count, system, history, user, continues);
    forall i | 0 <= i < |lines|
      ensures i in Kept(p, count, lines, continues) <==> Placed(p, count, lines, continues, i)
      ensures Carries(messages[i]) <==> Placed(p, count, lines, continues, i)
    {
      KeptIff(p, count, lines, continues, i);
      assert [TextBlock(lines[i].text, true)][0] in [TextBlock(lines[i].text, true)];
    }
  }

  /** With room for three, every worthwhile breakpoint is placed. */
  lemma RoomForThree(p: Profile, count: Counter, lines: seq<Line>, continues: bool, i: nat)
    requires |lines| >= 2 && p.mechanism == Explicit && p.maxBreakpoints >= 3
    ensures Placed(p, count, lines, continues, i) <==> Worthwhile(p, count, lines, continues, i)
  {
    KeptIff(p, count, lines, continues, i);
    var all := Affordable(p, count, lines, Candidates(lines, continues));
    AffordableInRange(p, count, lines, Candidates(lines, continues));
    PreviousTailInRange(lines, |lines| - 1);
    CandidatesIff(lines, continues, i);
    AffordableIff(p, count, lines, Candidates(lines, continues), i);
    assert |all| <= 3 && Trailing(all, p.maxBreakpoints) == all;
  }

  /** `build_messages`: the message list is built plain and then marked in place. */
  method BuildMessages(
    p: Profile, count: Counter, system: string, history: seq<Line>, user: string, continues: bool)
    returns (messages: seq<Message>)
    ensures messages == Build(p, count, system, history, user, continues)
    ensures Lines(messages) == RequestLines(system, history, user)
    ensures PlacedRight(p, count, RequestLines(system, history, user), continues, messages)
  {
    ghost var lines := RequestLines(system, history, user);
    BreakpointsAreRight(p, count, system, history, user, continues);
    messages := PlainRequest(system, history, user);
    WithMarksReadsBack(lines, []);
    if p.mechanism != Explicit {
      return;
    }
    var marks := WantedMarks(lines, messages, continues);
    CandidatesInRange(lines, continues);
    var keep := AffordableMarks(p, count, lines, messages, marks);
    AffordableIncreasing(p, count, lines, marks);
    AffordableInRange(p, count, lines, marks);
    var kept := Trailing(keep, p.maxBreakpoints);
    TrailingPart(keep, p.maxBreakpoints);
    messages := PlaceMarks(lines, messages, kept);
    WithMarksReadsBack(lines, kept);
  }

  /** The last part: the kept breakpoints are placed one after another. */
  method PlaceMarks(ghost lines: seq<Line>, plain: seq<Message>, kept: seq<nat>) returns (messages: seq<Message>)
    requires plain == WithMarks(lines, [])
    requires Increasing(kept) && forall m | m in kept :: m < |lines|
    ensures messages == WithMarks(lines, kept)
  {
    messages := plain;
    for i := 0 to |kept|
      invariant messages == WithMarks(lines, kept[..i])
    {
      var j := kept[i];
      assert j in kept && j !in kept[..i];
      messages := messages[j := Message(messages[j].role, Marked(messages[j].content.text))];
      assert kept[..i + 1] == kept[..i] + [j];
    }
    assert kept[..|kept|] == kept;
  }

  /** The first part of `build_messages`: every message as a plain string. */
  method PlainRequest(system: string, history: seq<Line>, user: string) returns (messages: seq<Message>)
    ensures messages == WithMarks(RequestLines(system, history, user), [])
  {
    ghost var lines := RequestLines(system, history, user);
    messages := [Message("system", Text(system))];
    for i := 0 to |history|
      invariant |messages| == i + 1
      invariant forall j | 0 <= j <= i :: messages[j] == Message(lines[j].role, Text(lines[j].text))
    {
      messages := messages + [Message(history[i].role, Text(history[i].text))];
    }
    messages := messages + [Message("user", Text(user))];
  }

  /** The second part: where breakpoints are wanted. The list comes out sorted and without
      duplicates, so sorting it again changes nothing. */
  method WantedMarks(ghost lines: seq<Line>, messages: seq<Message>, continues: bool) returns (marks: seq<nat>)
    requires |lines| >= 2 && messages == WithMarks(lines, [])
    ensures marks == Candidates(lines, continues)
  {
    marks := [0];
    var k := |messages| - 2;
    while k >= 1 && messages[k].role != "user"
      invariant 0 <= k <= |lines| - 2
      invariant PreviousTail(lines, |lines| - 1) == PreviousTail(lines, k + 1)
    {
      k := k - 1;
    }
    if k >= 1 {
      marks := marks + [k];
    }
    if continues {
      marks := marks + [|messages| - 1];
    }
  }

  /** The running token counts. */
  method PrefixTokens(count: Counter, ghost lines: seq<Line>, messages: seq<Message>)
    returns (prefixTokens: seq<nat>)
    requires messages == WithMarks(lines, [])
    ensures |prefixTokens| == |lines|
    ensures forall j | 0 <= j < |lines| :: prefixTokens[j] == TokensUpTo(count, lines, j + 1)
  {
    WithMarksReadsBack(lines, []);
    prefixTokens := [];
    var cumulative: nat := 0;
    for i := 0 to |messages|
      invariant |prefixTokens| == i
      invariant cumulative == TokensUpTo(count, lines, i)
      invariant forall j | 0 <= j < i :: prefixTokens[j] == TokensUpTo(count, lines, j + 1)
    {
      cumulative := cumulative + count(MessageText(messages[i].content));
      prefixTokens := prefixTokens + [cumulative];
    }
  }

  /** The third part: drop the breakpoints whose prefix is below the provider's minimum. */
  method AffordableMarks(
    p: Profile, count: Counter, ghost lines: seq<Line>, messages: seq<Message>, marks: seq<nat>)
    returns (keep: seq<nat>)
    requires messages == WithMarks(lines, []) && forall i | 0 <= i < |marks| :: marks[i] < |lines|
    ensures keep == Affordable(p, count, lines, marks)
  {
    var prefixTokens := PrefixTokens(count, lines, messages);
    keep := [];
    for i := 0 to |marks|
      invariant keep == Affordable(p, count, lines, marks[..i])
    {
      AffordableSnoc(p, count, lines, marks[..i], marks[i]);
      assert marks[..i + 1] == marks[..i] + [marks[i]];
      if prefixTokens[marks[i]] >= p.minPrefixTokens {
        keep := keep + [marks[i]];
      }
    }
    assert marks[..|marks|] == marks;
  }

  ghost predicate Increasing(s: seq<nat>) { forall i, j | 0 <= i < j < |s| :: s[i] < s[j] }

  lemma {:induction false} AffordableIncreasing(p: Profile, count: Counter, lines: seq<Line>, marks: seq<nat>)
    requires Increasing(marks)
    ensures Increasing(Affordable(p, count, lines, marks))
  {
    if marks != [] {
      AffordableIncreasing(p, count, lines, marks[..|marks| - 1]);
      AffordableInRange(p, count, lines, marks[..|marks| - 1]);
      var rest := Affordable(p, count, lines, marks[..|marks| - 1]);
      forall k | 0 <= k < |rest|
        ensures rest[k] < marks[|marks| - 1]
      {
        assert rest[k] in marks[..|marks| - 1];
      }
    }
  }

  lemma CandidatesInRange(lines: seq<Line>, continues: bool)
    requires |lines| >= 2
    ensures Increasing(Candidates(lines, continues))
    ensures forall i | 0 <= i < |Candidates(lines, continues)| :: Candidates(lines, continues)[i] < |lines|
  {
    PreviousTailInRange(lines, |lines| - 1);
  }

  lemma {:induction false} PreviousTailInRange(lines: seq<Line>, n: nat)
    requires n <= |lines|
    ensures var t := PreviousTail(lines, n);
            t == [] || (|t| == 1 && 1 <= t[0] < n && lines[t[0]].role == "user")
  {
    if n > 1 && lines[n - 1].role != "user" {
      PreviousTailInRange(lines, n - 1);
    }
  }

  lemma {:induction false} AffordableInRange(p: Profile, count: Counter, lines: seq<Line>, marks: seq<nat>)
    ensures |Affordable(p, count, lines, marks)| <= |marks|
    ensures forall m | m in Affordable(p, count, lines, marks) ::
              m in marks && m < |lines| && TokensUpTo(count, lines, m + 1) >= p.minPrefixTokens
  {
    if marks != [] {
      AffordableInRange(p, count, lines, marks[..|marks| - 1]);
    }
  }

  /** Breakpoints never change what a message says. */
  lemma WithMarksReadsBack(lines: seq<Line>, marks: seq<nat>)
    ensures Lines(WithMarks(lines, marks)) == lines
    ensures PlainMessages(WithMarks(lines, marks)) == WithMarks(lines, [])
  {
    forall i | 0 <= i < |lines|
      ensures MessageText(WithMarks(lines, marks)[i].content) == lines[i].text
    {
      var t := lines[i].text;
      assert [TextBlock(t, true)][1..] == [];
      assert BlocksText([TextBlock(t, true)]) == t + "";
    }
  }

  /** Stripping the breakpoints of a request always gives back system, history and user turn. */
  lemma StrippedRequest(p: Profile, count: Counter, system: string, history: seq<Line>, user: string, continues: bool)
    ensures Lines(Build(p, count, system, history, user, continues)) == RequestLines(system, history, user)
    ensures PlainMessages(Build(p, count, system, history, user, continues))
            == Build(OFF, count, system, history, user, continues)
  {
    var lines := RequestLines(system, history, user);
    WithMarksReadsBack(lines, Kept(p, count, lines, continues));
  }

  /** A request carries at most the provider's number of breakpoints, unless that number is 0
      (Python's `[-0:]` keeps the whole list). */
  lemma BreakpointBudget(p: Profile, count: Counter, lines: seq<Line>, continues: bool)
    requires |lines| >= 2
    ensures p.maxBreakpoints >= 1 ==> |Kept(p, count, lines, continues)| <= p.maxBreakpoints
    ensures p.maxBreakpoints == 0 && p.mechanism == Explicit ==>
              Kept(p, count, lines, continues) == Affordable(p, count, lines, Candidates(lines, continues))
  {
  }

  lemma {:induction false} TokensGrow(count: Counter, lines: seq<Line>, a: nat, b: nat)
    requires a <= b <= |lines|
    ensures TokensUpTo(count, lines, a) <= TokensUpTo(count, lines, b)
  {
    if a < b {
      TokensGrow(count, lines, a, b - 1);
    }
  }

  /** Tokens add up: over two lists, and for one message they are those of its text. */
  lemma {:induction false} TokensConcat(count: Counter, a: seq<Line>, b: seq<Line>)
    ensures TokensUpTo(count, a + b, |a + b|) == TokensUpTo(count, a, |a|) + TokensUpTo(count, b, |b|)
    ensures forall m: Line :: TokensUpTo(count, [m], 1) == count(m.text)
  {
    forall m: Line
      ensures TokensUpTo(count, [m], 1) == count(m.text)
    {
      assert TokensUpTo(count, [m], 0) == 0;
    }
    if b == [] {
      assert a + b == a;
    } else {
      var n := |b| - 1;
      TokensConcat(count, a, b[..n]);
      assert (a + b)[..|a| + n] == a + b[..n];
      TokensOfPrefix(count, a + b[..n], a + b, |a| + n);
      TokensOfPrefix(count, b[..n], b, n);
    }
  }

  /** The text of a list of blocks is what its text blocks say, one after another; others say nothing. */
  lemma {:induction false} BlocksTextConcat(a: seq<Block>, b: seq<Block>)
    ensures BlocksText(a + b) == BlocksText(a) + BlocksText(b)
    ensures forall t: string, breakpoint: bool :: BlocksText([TextBlock(t, breakpoint)]) == t
    ensures BlocksText([OtherBlock]) == "" && BlocksText([]) == ""
  {
    forall t: string, breakpoint: bool
      ensures BlocksText([TextBlock(t, breakpoint)]) == t
    {
      assert [TextBlock(t, breakpoint)][1..] == [];
      assert BlocksText([TextBlock(t, breakpoint)]) == t + "";
    }
    assert [OtherBlock][1..] == [];
    if a == [] {
      assert a + b == b;
    } else {
      assert (a + b)[1..] == a[1..] + b;
      BlocksTextConcat(a[1..], b);
    }
  }

  lemma {:induction false} TokensOfPrefix(count: Counter, lines: seq<Line>, more: seq<Line>, n: nat)
    requires n <= |lines| <= |more| && more[..|lines|] == lines
    ensures TokensUpTo(count, lines, n) == TokensUpTo(count, more, n)
  {
    if n > 0 {
      TokensOfPrefix(count, lines, more, n - 1);
      assert more[n - 1] == more[..|lines|][n - 1];
    }
  }

  /** The last affordable mark of a list whose last mark is affordable. */
  lemma AffordableSnoc(p: Profile, count: Counter, lines: seq<Line>, marks: seq<nat>, m: nat)
    ensures Affordable(p, count, lines, marks + [m]) ==
            Affordable(p, count, lines, marks)
            + (if m < |lines| && TokensUpTo(count, lines, m + 1) >= p.minPrefixTokens then [m] else [])
  {
    assert (marks + [m])[..|marks|] == marks;
  }

  /** A turn that continues a conversation carries a breakpoint on its own last message exactly when the
      whole request reaches the provider's minimum. */
  lemma OwnBreakpoint(p: Profile, count: Counter, system: string, history: seq<Line>, user: string)
    requires p.mechanism == Explicit
    ensures var lines, messages := RequestLines(system, history, user), Build(p, count, system, history, user, true);
            Carries(messages[|lines| - 1]) <==> TokensUpTo(count, lines, |lines|) >= p.minPrefixTokens
  {
    var lines := RequestLines(system, history, user);
    BreakpointsAreRight(p, count, system, history, user, true);
    KeptIff(p, count, lines, true, |lines| - 1);
    OwnMark(p, count, lines);
  }

  lemma OwnMark(p: Profile, count: Counter, lines: seq<Line>)
    requires |lines| >= 2 && p.mechanism == Explicit
    ensures |lines| - 1 in Kept(p, count, lines, true) <==>
            TokensUpTo(count, lines, |lines|) >= p.minPrefixTokens
  {
    var marks := [0] + PreviousTail(lines, |lines| - 1);
    assert Candidates(lines, true) == marks + [|lines| - 1];
    LastMark(p, count, lines, marks, |lines| - 1);
  }

  lemma LastMark(p: Profile, count: Counter, lines: seq<Line>, marks: seq<nat>, last: nat)
    requires last < |lines|
    ensures last in Trailing(Affordable(p, count, lines, marks + [last]), p.maxBreakpoints) <==>
            TokensUpTo(count, lines, last + 1) >= p.minPrefixTokens
  {
    var all := Affordable(p, count, lines, marks + [last]);
    AffordableSnoc(p, count, lines, marks, last);
    AffordableInRange(p, count, lines, marks + [last]);
    TrailingPart(all, p.maxBreakpoints);
  }

  lemma TrailingPart(s: seq<nat>, n: nat)
    ensures s != [] ==> s[|s| - 1] in Trailing(s, n)
    ensures forall m | m in Trailing(s, n) :: m in s
    ensures Increasing(s) ==> Increasing(Trailing(s, n))
  {
    if s != [] {
      assert Trailing(s, n)[|Trailing(s, n)| - 1] == s[|s| - 1];
    }
  }

  /** The next turn of a conversation wants a breakpoint exactly where the turn it extends wanted one on
      its final user message, over the same messages. It carries that breakpoint exactly when the
      earlier turn did, unless the provider allows a single breakpoint only. The reply between
      the two turns does not matter, so neither does editing it. */
  lemma BreakpointContinuity(
    p: Profile, count: Counter, system: string, history: seq<Line>, user: string, reply: string, next: string)
    requires p.mechanism == Explicit
    ensures var more := history + [Line("user", user), Line("assistant", reply)];
            var first, second := RequestLines(system, history, user), RequestLines(system, more, next);
            var tail := |first| - 1;
            && second[..|first|] == first && tail < |second| && Wanted(second, true, tail)
            && (Carries(Build(p, count, system, more, next, true)[tail]) <==>
                Carries(Build(p, count, system, history, user, true)[tail]) && p.maxBreakpoints != 1)
  {
    var more := history + [Line("user", user), Line("assistant", reply)];
    var first, second := RequestLines(system, history, user), RequestLines(system, more, next);
    var tail := |first| - 1;
    SecondTurnMarks(system, history, user, reply, next);
    CandidatesIff(second, true, tail);
    CarriesIfKept(p, count, system, more, next, tail);
    CarriesIfKept(p, count, system, history, user, tail);
    MiddleBreakpoint(p, count, second, tail);
    OwnMark(p, count, first);
    TokensOfPrefix(count, first, second, tail + 1);
  }

  lemma CarriesIfKept(p: Profile, count: Counter, system: string, history: seq<Line>, user: string, i: nat)
    requires i < |RequestLines(system, history, user)|
    ensures Carries(Build(p, count, system, history, user, true)[i]) <==>
            i in Kept(p, count, RequestLines(system, history, user), true)
  {
    BreakpointsAreRight(p, count, system, history, user, true);
    KeptIff(p, count, RequestLines(system, history, user), true, i);
  }

  /** A turn that follows a reply marks the system message, the previous user message and its own. */
  lemma SecondTurnMarks(system: string, history: seq<Line>, user: string, reply: string, next: string)
    ensures var first := RequestLines(system, history, user);
            var second := RequestLines(system, history + [Line("user", user), Line("assistant", reply)], next);
            var tail := |first| - 1;
            && second[..|first|] == first && |second| == tail + 3
            && Candidates(second, true) == [0, tail, tail + 2]
  {
    var first := RequestLines(system, history, user);
    var second := RequestLines(system, history + [Line("user", user), Line("assistant", reply)], next);
    var tail := |first| - 1;
    assert second[..|first|] == first;
    assert second[tail] == Line("user", user) && second[tail + 1].role == "assistant";
    assert |second| == tail + 3;
    assert PreviousTail(second, tail + 2) == PreviousTail(second, tail + 1) == [tail];
  }

  /** The middle one of three breakpoints is kept when it is affordable and there is room for two. */
  lemma MiddleBreakpoint(p: Profile, count: Counter, lines: seq<Line>, tail: nat)
    requires p.mechanism == Explicit && tail > 0 && |lines| == tail + 3
    requires Candidates(lines, true) == [0, tail, tail + 2]
    ensures tail in Kept(p, count, lines, true) <==>
            TokensUpTo(count, lines, tail + 1) >= p.minPrefixTokens && p.maxBreakpoints != 1
  {
    var marks: seq<nat> := [0, tail];
    assert [0, tail, tail + 2] == marks + [tail + 2];
    AffordableSnoc(p, count, lines, marks, tail + 2);
    assert marks == [0] + [tail];
    AffordableSnoc(p, count, lines, [0], tail);
    TokensGrow(count, lines, tail + 1, tail + 3);
    var all := Affordable(p, count, lines, marks + [tail + 2]);
    AffordableInRange(p, count, lines, marks + [tail + 2]);
    AffordableInRange(p, count, lines, [0]);
    if TokensUpTo(count, lines, tail + 1) >= p.minPrefixTokens {
      var k := |all|;
      assert all[k - 1] == tail + 2 && all[k - 2] == tail;
      var kept := Trailing(all, p.maxBreakpoints);
      if p.maxBreakpoints == 1 {
        assert kept == [tail + 2];
      } else {
        assert kept[|kept| - 2] == tail;
      }
    }
  }
}
