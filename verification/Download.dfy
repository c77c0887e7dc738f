/** Downloading a pinned wheel from its sources (jiuwenswarm/common/external_cli_runtime.py). */
module Download {
  import opened Options
  import opened Text

  const ATTEMPTS_PER_SOURCE := 5

  /** What one attempt comes to, with the file it leaves: the whole body arrived, or the attempt
      failed in a way worth retrying, in a way that is not, on the local disk, or otherwise (which
      includes a downloaded file that cannot be read back). */
  datatype Arrival =
    | Body(data: string)
    | Retryable(left: Option<string>)
    | NonRetryable(left: Option<string>)
    | DiskError(left: Option<string>)
    | OtherError(left: Option<string>)

  datatype Result = Wheel | AllSourcesFailed(last: Arrival) | NoSource | DiskFailed | OtherFailed

  /** One attempt: which source, at what address, and attempt, and the file that lay at the wheel's path
      before. */
  datatype Attempt = Attempt(source: nat, url: string, number: nat, before: Option<string>)

  /** Everything an attempt can come to, by source and attempt number, and the wheel's checksum. */
  datatype World = World(server: (nat, nat) -> Arrival, digest: string -> string, expected: string)

  predicate Verified(w: World, data: string) { w.digest(data) == Lower(w.expected) }

  function Left(arrival: Arrival): Option<string> {
    if arrival.Body? then Some(arrival.data) else arrival.left
  }

  /** The attempt failed in a way the loop handles. */
  predicate GivesUp(w: World, arrival: Arrival) {
    arrival.Retryable? || arrival.NonRetryable? || (arrival.Body? && !Verified(w, arrival.data))
  }

  /** The sources in order: the mirror, if there is one, then the origin; empty addresses are none. */
  function Sources(mirror: Option<string>, url: string): seq<string> {
    (if mirror.Some? && mirror.value != "" then [mirror.value] else []) + (if url != "" then [url] else [])
  }

  function UrlOf(urls: seq<string>, source: nat): string { if 1 <= source <= |urls| then urls[source - 1] else "" }

  /** The state of the wheel's path, with the attempts made so far. */
  class Installer {
    var wheel: Option<string>
    ghost var log: seq<Attempt>

    constructor (wheel: Option<string>)
      ensures this.wheel == wheel && log == []
    {
      this.wheel, log := wheel, [];
    }

    /** `_download_wheel_url`: whatever it comes to is left at the path. */
    method Fetch(w: World, source: nat, url: string, number: nat) returns (arrival: Arrival)
      modifies this
      ensures arrival == w.server(source, number) && wheel == Left(arrival)
      ensures log == old(log) + [Attempt(source, url, number, old(wheel))]
    {
      log := log + [Attempt(source, url, number, wheel)];
      arrival := w.server(source, number);
      wheel := Left(arrival);
    }

    /** The attempts at one source: again and again while it is worth retrying, up to the limit. What
        a handled failure left behind is removed. Answers what the last attempt came to. */
    method TrySource(w: World, source: nat, url: string) returns (last: Arrival)
      modifies this
      ensures last == SourceFrom(w, source, url, 1, old(wheel)).0 && wheel == After(w, last)
      ensures log == old(log) + SourceFrom(w, source, url, 1, old(wheel)).1
    {
      last := Retryable(None);
      ghost var whole := SourceFrom(w, source, url, 1, wheel);
      var number := 1;
      while true
        invariant 1 <= number <= ATTEMPTS_PER_SOURCE
        invariant whole.0 == SourceFrom(w, source, url, number, wheel).0
        invariant old(log) + whole.1 == log + SourceFrom(w, source, url, number, wheel).1
        decreases ATTEMPTS_PER_SOURCE - number
      {
        last := Fetch(w, source, url, number);
        if last.Retryable? {
          wheel := None;
          if number >= ATTEMPTS_PER_SOURCE {
            break;
          }
          number := number + 1;
          continue;
        } else if last.NonRetryable? || (last.Body? && !Verified(w, last.data)) || last.DiskError? {
          wheel := None;
        }
        break;
      }
    }

    /** `_download_wheel_artifact`. */
    method DownloadWheel(w: World, mirror: Option<string>, url: string) returns (result: Result)
      modifies this
      ensures var urls := Sources(mirror, url);
              if urls == [] then result == NoSource && wheel == old(wheel) && log == old(log)
              else
                var whole := TryFrom(w, urls, 1, old(wheel));
                result == ResultOf(w, whole.0) && wheel == After(w, whole.0) && log == old(log) + whole.1
      ensures Outcome(w, mirror, url, result, wheel)
      ensures old(log) <= log && forall a | a in log[|old(log)|..] :: RightAddress(mirror, url, a)
    {
      var urls := Sources(mirror, url);
      DownloadOutcome(w, mirror, url, wheel);
      ghost var whole := TryFrom(w, urls, 1, wheel);
      var source := 1;
      while source <= |urls|
        invariant 1 <= source && (urls == [] ==> wheel == old(wheel) && log == old(log))
        invariant urls != [] ==> source <= |urls|
        invariant whole.0 == TryFrom(w, urls, source, wheel).0
        invariant old(log) + whole.1 == log + TryFrom(w, urls, source, wheel).1
      {
        ghost var found, logged := wheel, log;
        var last := TrySource(w, source, UrlOf(urls, source));
        if !GivesUp(w, last) {
          return ResultOf(w, last);
        }
        if source < |urls| {
          NextSource(w, urls, source, found, logged);
          source := source + 1;
          continue;
        }
        return AllSourcesFailed(last);
      }
      result := NoSource;
    }
  }

  // ---- what the download comes to, in terms of the attempts ---------------------------------

  /** An attempt after which the next source is tried: a failure worth retrying or not, or a body with the
      wrong checksum. A local disk error, or anything else, is not. */
  ghost predicate Tolerated(w: World, arrival: Arrival) {
    arrival.Retryable? || arrival.NonRetryable? || (arrival.Body? && w.digest(arrival.data) != Lower(w.expected))
  }

  /** The last attempt at a source is the first that is not worth retrying, or the fifth. */
  ghost predicate LastAttempt(w: World, s: nat, k: nat) {
    && 1 <= k <= 5 && (forall a | 1 <= a < k :: w.server(s, a).Retryable?)
    && (k == 5 || !w.server(s, k).Retryable?)
  }

  ghost predicate FallsThrough(w: World, s: nat) { exists k :: LastAttempt(w, s, k) && Tolerated(w, w.server(s, k)) }

  /** The download ends with attempt `k` at source `s`: all sources before it fell through. */
  ghost predicate EndsWith(w: World, n: nat, s: nat, k: nat) {
    && 1 <= s <= n && LastAttempt(w, s, k)
    && (forall x | 1 <= x < s :: FallsThrough(w, x))
    && (s == n || !Tolerated(w, w.server(s, k)))
  }

  function AddressCount(mirror: Option<string>, url: string): nat {
    (if mirror.Some? && mirror.value != "" then 1 else 0) + if url != "" then 1 else 0
  }

  /** The mirror first, if there is one, and then the origin. */
  ghost predicate RightAddress(mirror: Option<string>, url: string, a: Attempt) {
    a.url == if mirror.Some? && mirror.value != "" && a.source == 1 then mirror.value else url
  }

  /** What the last attempt decides: a body with the right checksum is the wheel; otherwise nothing is left at
      the path, unless the error was one nobody expected. */
  ghost predicate Decides(w: World, last: Arrival, result: Result, wheel: Option<string>) {
    match last
    case Body(data) =>
      if w.digest(data) == Lower(w.expected) then result == Wheel && wheel == Some(data)
      else result == AllSourcesFailed(last) && wheel == None
    case Retryable(_) => result == AllSourcesFailed(last) && wheel == None
    case NonRetryable(_) => result == AllSourcesFailed(last) && wheel == None
    case DiskError(_) => result == DiskFailed && wheel == None
    case OtherError(left) => result == OtherFailed && wheel == left
  }

  ghost predicate Outcome(w: World, mirror: Option<string>, url: string, result: Result, wheel: Option<string>) {
    var n := AddressCount(mirror, url);
    && (n == 0 <==> result == NoSource)
    && (n > 0 ==> exists s, k :: EndsWith(w, n, s, k) && Decides(w, w.server(s, k), result, wheel))
  }

  lemma ExhaustedFallsThrough(w: World, s: nat)
    ensures Exhausted(w, s) <==> FallsThrough(w, s)
  {
    if k :| IsLast(w, s, k) && GivesUp(w, w.server(s, k)) {
      assert LastAttempt(w, s, k) && Tolerated(w, w.server(s, k));
    }
    if k :| LastAttempt(w, s, k) && Tolerated(w, w.server(s, k)) {
      assert IsLast(w, s, k) && GivesUp(w, w.server(s, k));
    }
  }

  lemma DownloadOutcome(w: World, mirror: Option<string>, url: string, wheel: Option<string>)
    ensures var urls := Sources(mirror, url);
            if urls == [] then Outcome(w, mirror, url, NoSource, wheel)
            else
              var whole := TryFrom(w, urls, 1, wheel);
              && Outcome(w, mirror, url, ResultOf(w, whole.0), After(w, whole.0))
              && forall a | a in whole.1 :: RightAddress(mirror, url, a)
  {
    var urls := Sources(mirror, url);
    assert |urls| == AddressCount(mirror, url);
    if urls != [] {
      var s, k := EndsAt(w, urls, 1, wheel);
      forall x
        ensures Exhausted(w, x) <==> FallsThrough(w, x)
      {
        ExhaustedFallsThrough(w, x);
      }
      if Tolerated(w, w.server(s, k)) {
        assert GivesUp(w, w.server(s, k));
        assert Exhausted(w, s);
      }
      assert EndsWith(w, |urls|, s, k) && Decides(w, w.server(s, k), ResultOf(w, w.server(s, k)), After(w, w.server(s, k)));
      PathIsClear(w, urls, 1, wheel);
    }
  }

  /** What is at the wheel's path once an attempt has been dealt with. */
  function After(w: World, last: Arrival): Option<string> {
    if last.Body? && Verified(w, last.data) then Some(last.data)
    else if last.OtherError? then last.left
    else None
  }

  function ResultOf(w: World, last: Arrival): Result {
    if last.DiskError? then DiskFailed
    else if last.OtherError? then OtherFailed
    else if GivesUp(w, last) then AllSourcesFailed(last)
    else Wheel
  }

  /** From attempt `number` of a source on: what its last attempt comes to, and the attempts made. */
  ghost function SourceFrom(w: World, source: nat, url: string, number: nat, wheel: Option<string>)
    : (Arrival, seq<Attempt>)
    requires number <= ATTEMPTS_PER_SOURCE
    decreases ATTEMPTS_PER_SOURCE - number
  {
    var arrival, attempt := w.server(source, number), Attempt(source, url, number, wheel);
    if arrival.Retryable? && number < ATTEMPTS_PER_SOURCE then
      var (last, log) := SourceFrom(w, source, url, number + 1, None);
      (last, [attempt] + log)
    else (arrival, [attempt])
  }

  /** From one source on: what the last attempt of all comes to, and the attempts made. */
  ghost function TryFrom(w: World, urls: seq<string>, source: nat, wheel: Option<string>): (Arrival, seq<Attempt>)
    decreases |urls| - source
  {
    var (last, log) := SourceFrom(w, source, UrlOf(urls, source), 1, wheel);
    if GivesUp(w, last) && source < |urls| then
      var (last', log') := TryFrom(w, urls, source + 1, None);
      (last', log + log')
    else (last, log)
  }

  lemma NextSource(w: World, urls: seq<string>, source: nat, wheel: Option<string>, before: seq<Attempt>)
    requires GivesUp(w, SourceFrom(w, source, UrlOf(urls, source), 1, wheel).0) && source < |urls|
    ensures TryFrom(w, urls, source, wheel).0 == TryFrom(w, urls, source + 1, None).0
    ensures before + TryFrom(w, urls, source, wheel).1
            == (before + SourceFrom(w, source, UrlOf(urls, source), 1, wheel).1) + TryFrom(w, urls, source + 1, None).1
  {
  }

  // ---- which attempts are made ------------------------------------------------------------

  /** The number of the last attempt at a source: the first that is not worth retrying, and the
      fifth at the latest. */
  ghost predicate IsLast(w: World, source: nat, k: nat) {
    && 1 <= k <= ATTEMPTS_PER_SOURCE
    && (forall a | 1 <= a < k :: w.server(source, a).Retryable?)
    && (k == ATTEMPTS_PER_SOURCE || !w.server(source, k).Retryable?)
  }

  /** The attempts at a source are number 1 to its last, once each and in order, and the path is
      clear before each but the first. */
  ghost predicate Ordered(log: seq<Attempt>, source: nat, url: string, number: nat, k: nat, wheel: Option<string>) {
    && |log| == k + 1 - number
    && forall i | 0 <= i < |log| :: log[i] == Attempt(source, url, number + i, if i == 0 then wheel else None)
  }

  lemma {:induction false} SourceLog(w: World, source: nat, url: string, number: nat, wheel: Option<string>)
    returns (k: nat)
    requires 1 <= number <= ATTEMPTS_PER_SOURCE && forall a | 1 <= a < number :: w.server(source, a).Retryable?
    ensures number <= k && IsLast(w, source, k)
    ensures SourceFrom(w, source, url, number, wheel).0 == w.server(source, k)
    ensures Ordered(SourceFrom(w, source, url, number, wheel).1, source, url, number, k, wheel)
    decreases ATTEMPTS_PER_SOURCE - number
  {
    if w.server(source, number).Retryable? && number < ATTEMPTS_PER_SOURCE {
      k := SourceLog(w, source, url, number + 1, None);
    } else {
      k := number;
    }
  }

  /** All attempts at this source failed in ways the loop handles. */
  ghost predicate Exhausted(w: World, source: nat) {
    exists k :: IsLast(w, source, k) && GivesUp(w, w.server(source, k))
  }

  lemma LastIsUnique(w: World, source: nat, k: nat, k': nat)
    requires IsLast(w, source, k) && IsLast(w, source, k')
    ensures k == k'
  {
    assert k < k' ==> w.server(source, k).Retryable?;
    assert k' < k ==> w.server(source, k').Retryable?;
  }

  /** The download ends at the first source that is not exhausted, or at the last source, with what
      the last attempt at that source comes to. */
  lemma {:induction false} EndsAt(w: World, urls: seq<string>, source: nat, wheel: Option<string>)
    returns (s: nat, k: nat)
    requires 1 <= source <= |urls|
    ensures source <= s <= |urls| && IsLast(w, s, k)
    ensures forall x | source <= x < s :: Exhausted(w, x)
    ensures s == |urls| || !Exhausted(w, s)
    ensures TryFrom(w, urls, source, wheel).0 == w.server(s, k)
    ensures |TryFrom(w, urls, source, wheel).1| <= ATTEMPTS_PER_SOURCE * (|urls| + 1 - source)
    decreases |urls| - source
  {
    k := SourceLog(w, source, UrlOf(urls, source), 1, wheel);
    s := source;
    if GivesUp(w, w.server(source, k)) && source < |urls| {
      s, k := EndsAt(w, urls, source + 1, None);
    } else if Exhausted(w, source) {
      var k' :| IsLast(w, source, k') && GivesUp(w, w.server(source, k'));
      LastIsUnique(w, source, k, k');
    }
  }

  /** A wheel comes out exactly when some attempt brings a body that verifies, all earlier attempts at
      its source were worth retrying, and all earlier sources were exhausted; and it is that body. */
  lemma WheelIff(w: World, urls: seq<string>, wheel: Option<string>)
    requires |urls| > 0
    ensures var last := TryFrom(w, urls, 1, wheel).0;
            ResultOf(w, last) == Wheel <==> exists s, k :: Delivers(w, urls, s, k)
    ensures var last := TryFrom(w, urls, 1, wheel).0;
            forall s, k | Delivers(w, urls, s, k) :: After(w, last) == Some(w.server(s, k).data)
  {
    var s, k := EndsAt(w, urls, 1, wheel);
    var last := w.server(s, k);
    if ResultOf(w, last) == Wheel {
      assert Delivers(w, urls, s, k);
    }
    forall s', k' | Delivers(w, urls, s', k')
      ensures s' == s && k' == k
    {
      if Exhausted(w, s') {
        var x :| IsLast(w, s', x) && GivesUp(w, w.server(s', x));
        LastIsUnique(w, s', x, k');
      }
      if s' == s {
        LastIsUnique(w, s, k, k');
      }
    }
  }

  ghost predicate Delivers(w: World, urls: seq<string>, s: nat, k: nat) {
    && 1 <= s <= |urls| && IsLast(w, s, k)
    && w.server(s, k).Body? && Verified(w, w.server(s, k).data)
    && forall x | 1 <= x < s :: Exhausted(w, x)
  }

  /** Every attempt but the very first finds the path clear, and every attempt is one of the first
      five at an existing source, made at its address. */
  lemma {:induction false} PathIsClear(w: World, urls: seq<string>, source: nat, wheel: Option<string>)
    requires 1 <= source <= |urls|
    ensures var log := TryFrom(w, urls, source, wheel).1;
            && |log| > 0 && log[0] == Attempt(source, urls[source - 1], 1, wheel)
            && (forall a | a in log :: InPlace(urls, source, a))
            && forall a | a in log[1..] :: a.before == None
    decreases |urls| - source
  {
    var k := SourceLog(w, source, UrlOf(urls, source), 1, wheel);
    var here := SourceFrom(w, source, UrlOf(urls, source), 1, wheel).1;
    OrderedInPlace(urls, source, k, wheel, here);
    if GivesUp(w, w.server(source, k)) && source < |urls| {
      var more := TryFrom(w, urls, source + 1, None).1;
      PathIsClear(w, urls, source + 1, None);
      BothClear(urls, source, here, more);
      assert TryFrom(w, urls, source, wheel).1 == here + more;
    }
  }

  lemma BothClear(urls: seq<string>, source: nat, here: seq<Attempt>, more: seq<Attempt>)
    requires source >= 1 && here != [] && more != []
    requires (forall a | a in here :: InPlace(urls, source, a)) && forall a | a in more :: InPlace(urls, source + 1, a)
    requires (forall a | a in here[1..] :: a.before == None) && more[0].before == None
    requires forall a | a in more[1..] :: a.before == None
    ensures forall a | a in here + more :: InPlace(urls, source, a)
    ensures forall a | a in (here + more)[1..] :: a.before == None
  {
    assert (here + more)[1..] == here[1..] + more;
    assert more == [more[0]] + more[1..];
    forall a | a in here + more
      ensures InPlace(urls, source, a)
    {
      assert a in here ==> InPlace(urls, source, a);
      assert a in more ==> InPlace(urls, source + 1, a);
    }
  }

  /** One of the first five attempts at this source or a later one, made at its address. */
  ghost predicate InPlace(urls: seq<string>, source: nat, a: Attempt) {
    1 <= source <= a.source <= |urls| && a.url == urls[a.source - 1] && 1 <= a.number <= ATTEMPTS_PER_SOURCE
  }

  lemma OrderedInPlace(urls: seq<string>, source: nat, k: nat, wheel: Option<string>, log: seq<Attempt>)
    requires 1 <= source <= |urls| && 1 <= k <= ATTEMPTS_PER_SOURCE
    requires Ordered(log, source, urls[source - 1], 1, k, wheel)
    ensures |log| > 0 && log[0] == Attempt(source, urls[source - 1], 1, wheel)
    ensures forall a | a in log :: InPlace(urls, source, a)
    ensures forall a | a in log[1..] :: a.before == None
  {
  }
}
