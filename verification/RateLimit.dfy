/**
 Request limiting (`backend/src/jst_api/security/ratelimit.py`): the in-process sliding log and the
 fixed-window counter used when Redis is configured.
 */
module RateLimit {
  import opened Rounding

  /** One call to `check`: `cost` units asked for `key` at time `now`. */
  datatype Request = Request(key: string, cost: int, now: real)

  // ----- the sliding log -----

  /** `popleft` while the head is older than the window. */
  function Prune(bucket: seq<real>, now: real, window: real): seq<real> {
    if bucket != [] && now - bucket[0] > window then Prune(bucket[1..], now, window) else bucket
  }

  function Repeat(t: real, n: int): (r: seq<real>)
    ensures |r| == if n < 0 then 0 else n
    ensures forall x :: x in r ==> x == t
  {
    seq(if n < 0 then 0 else n, _ => t)
  }

  predicate Admits(bucket: seq<real>, r: Request, limit: int, window: real) {
    |Prune(bucket, r.now, window)| + r.cost <= limit
  }

  function Bucket(hits: map<string, seq<real>>, key: string): seq<real> {
    if key in hits then hits[key] else []
  }

  /** The buckets after one check: the key's bucket is pruned whether or not the request is admitted. */
  function Step(hits: map<string, seq<real>>, r: Request, limit: int, window: real): map<string, seq<real>> {
    var bucket := Bucket(hits, r.key);
    var kept := Prune(bucket, r.now, window);
    hits[r.key := if Admits(bucket, r, limit, window) then kept + Repeat(r.now, r.cost) else kept]
  }

  function Run(rs: seq<Request>, limit: int, window: real): map<string, seq<real>> {
    if rs == [] then map[] else Step(Run(rs[..|rs| - 1], limit, window), rs[|rs| - 1], limit, window)
  }

  /** The time of every unit admitted for `key`, oldest first. */
  ghost function Admitted(rs: seq<Request>, key: string, limit: int, window: real): seq<real> {
    if rs == [] then [] else
    var before, r := rs[..|rs| - 1], rs[|rs| - 1];
    var log := Admitted(before, key, limit, window);
    if r.key == key && Admits(Bucket(Run(before, limit, window), key), r, limit, window) then log + Repeat(r.now, r.cost) else log
  }

  /** How many of `times` lie in the closed interval [from, to]. */
  function Within(times: seq<real>, from: real, to: real): nat {
    if times == [] then 0
    else Within(times[..|times| - 1], from, to) + (if from <= times[|times| - 1] <= to then 1 else 0)
  }

  ghost predicate ClockForward(rs: seq<Request>) {
    forall i, j :: 0 <= i < j < |rs| ==> rs[i].now <= rs[j].now
  }

  ghost predicate AllIn(times: seq<real>, from: real, to: real) {
    forall i :: 0 <= i < |times| ==> from <= times[i] <= to
  }

  ghost predicate NoneIn(times: seq<real>, from: real, to: real) {
    forall i :: 0 <= i < |times| ==> !(from <= times[i] <= to)
  }

  ghost predicate NoneAfter(times: seq<real>, now: real) {
    forall i :: 0 <= i < |times| ==> times[i] <= now
  }

  ghost predicate Ascending(times: seq<real>) {
    forall i, j :: 0 <= i < j < |times| ==> times[i] <= times[j]
  }

  function Cap(limit: int): nat {
    if limit < 0 then 0 else limit
  }

  lemma {:induction false} WithinConcat(xs: seq<real>, ys: seq<real>, from: real, to: real)
    ensures Within(xs + ys, from, to) == Within(xs, from, to) + Within(ys, from, to)
  {
    if ys == [] {
      assert xs + ys == xs;
    } else {
      assert (xs + ys)[..|xs + ys| - 1] == xs + ys[..|ys| - 1];
      WithinConcat(xs, ys[..|ys| - 1], from, to);
    }
  }

  lemma {:induction false} WithinAllOrNone(times: seq<real>, from: real, to: real)
    ensures AllIn(times, from, to) ==> Within(times, from, to) == |times|
    ensures NoneIn(times, from, to) ==> Within(times, from, to) == 0
  {
    if times != [] {
      WithinAllOrNone(times[..|times| - 1], from, to);
    }
  }

  lemma {:induction false} WithinWider(times: seq<real>, from: real, to: real, from': real, to': real)
    requires forall i :: 0 <= i < |times| && from <= times[i] <= to ==> from' <= times[i] <= to'
    ensures Within(times, from, to) <= Within(times, from', to')
  {
    if times != [] {
      WithinWider(times[..|times| - 1], from, to, from', to');
    }
  }

  /** What pruning leaves is exactly the part of the log that is still inside the window. */
  lemma {:induction false} PruneKeepsWindow(bucket: seq<real>, now: real, window: real)
    requires Ascending(bucket)
    ensures var kept := Prune(bucket, now, window);
            && |kept| <= |bucket| && kept == bucket[|bucket| - |kept|..]
            && (forall i :: 0 <= i < |kept| ==> kept[i] >= now - window)
            && (forall i :: 0 <= i < |bucket| - |kept| ==> bucket[i] < now - window)
  {
    if bucket != [] && now - bucket[0] > window {
      PruneKeepsWindow(bucket[1..], now, window);
    }
  }

  /** The bucket is the recent end of the admission log; what it has lost is older than the window. */
  ghost predicate Faithful(log: seq<real>, bucket: seq<real>, now: real, window: real) {
    && Ascending(log)
    && |bucket| <= |log| && bucket == log[|log| - |bucket|..]
    && NoneAfter(log, now)
    && (forall i :: 0 <= i < |log| - |bucket| ==> log[i] < now - window)
  }

  lemma PruneIsFaithful(log: seq<real>, bucket: seq<real>, was: real, now: real, window: real)
    requires Faithful(log, bucket, was, window) && was <= now
    ensures Faithful(log, Prune(bucket, now, window), now, window)
    ensures |Prune(bucket, now, window)| == Within(log, now - window, now)
  {
    PruneKeepsWindow(bucket, now, window);
    var kept := Prune(bucket, now, window);
    var cut := |log| - |kept|;
    forall i | 0 <= i < cut
      ensures log[i] < now - window
    {
      if i >= |log| - |bucket| {
        assert log[i] == bucket[i - (|log| - |bucket|)];
      }
    }
    assert kept == log[cut..];
    FaithfulCount(log, |kept|, now - window, now);
  }

  lemma {:induction false} FaithfulCount(log: seq<real>, n: nat, from: real, to: real)
    requires n <= |log|
    requires forall i :: 0 <= i < |log| - n ==> log[i] < from
    requires forall i :: |log| - n <= i < |log| ==> from <= log[i] <= to
    ensures Within(log, from, to) == n
  {
    if log != [] {
      FaithfulCount(log[..|log| - 1], if n > 0 then n - 1 else 0, from, to);
    }
  }

  lemma AppendIsFaithful(log: seq<real>, kept: seq<real>, now: real, cost: int, window: real)
    requires Faithful(log, kept, now, window)
    ensures Faithful(log + Repeat(now, cost), kept + Repeat(now, cost), now, window)
  {
  }

  /** The clock reading after a run; any earlier instant will do before the first request. */
  ghost predicate NotBefore(rs: seq<Request>, now: real) {
    forall i :: 0 <= i < |rs| ==> rs[i].now <= now
  }

  lemma {:induction false} BucketIsFaithful(rs: seq<Request>, key: string, limit: int, window: real, now: real)
    requires ClockForward(rs) && NotBefore(rs, now)
    ensures var log := Admitted(rs, key, limit, window);
            && Faithful(log, Prune(Bucket(Run(rs, limit, window), key), now, window), now, window)
            && |Prune(Bucket(Run(rs, limit, window), key), now, window)| == Within(log, now - window, now)
  {
    if rs != [] {
      var before, r := rs[..|rs| - 1], rs[|rs| - 1];
      var log := Admitted(before, key, limit, window);
      BucketIsFaithful(before, key, limit, window, r.now);
      if r.key == key {
        var bucket := Bucket(Run(before, limit, window), key);
        var log', bucket' := Admitted(rs, key, limit, window), Bucket(Run(rs, limit, window), key);
        AppendIsFaithful(log, Prune(bucket, r.now, window), r.now, r.cost, window);
        PruneIsFaithful(log', bucket', r.now, now, window);
      } else {
        BucketIsFaithful(before, key, limit, window, now);
        assert Admitted(rs, key, limit, window) == log;
      }
    }
  }

  lemma BucketCountsTheLog(rs: seq<Request>, key: string, limit: int, window: real, now: real)
    requires ClockForward(rs) && NotBefore(rs, now)
    ensures NoneAfter(Admitted(rs, key, limit, window), now)
    ensures |Prune(Bucket(Run(rs, limit, window), key), now, window)| == Within(Admitted(rs, key, limit, window), now - window, now)
  {
    BucketIsFaithful(rs, key, limit, window, now);
  }

  /** With a forward clock, a request is refused exactly when admitting it would overfill the window that ends now. */
  lemma RefusedExactlyWhenFull(rs: seq<Request>, r: Request, limit: int, window: real)
    requires ClockForward(rs) && NotBefore(rs, r.now)
    ensures Admits(Bucket(Run(rs, limit, window), r.key), r, limit, window) <==>
            Within(Admitted(rs, r.key, limit, window), r.now - window, r.now) + r.cost <= limit
  {
    BucketCountsTheLog(rs, r.key, limit, window, r.now);
  }

  lemma WindowAfterAdmission(log: seq<real>, now: real, cost: int, limit: int, window: real, from: real)
    requires NoneAfter(log, now)
    requires Within(log, from, from + window) <= Cap(limit)
    requires Within(log, now - window, now) + cost <= limit
    ensures Within(log + Repeat(now, cost), from, from + window) <= Cap(limit)
  {
    var added := Repeat(now, cost);
    WithinConcat(log, added, from, from + window);
    WithinAllOrNone(added, from, from + window);
    if from <= now <= from + window {
      WithinWider(log, from, from + window, now - window, now);
    }
  }

  /** In every closed interval as long as the window, wherever it starts, at most `limit` units are admitted per key. */
  lemma {:induction false} EveryWindowIsBounded(rs: seq<Request>, key: string, limit: int, window: real, from: real)
    requires ClockForward(rs)
    ensures Within(Admitted(rs, key, limit, window), from, from + window) <= Cap(limit)
  {
    if rs != [] {
      var before, r := rs[..|rs| - 1], rs[|rs| - 1];
      var log := Admitted(before, key, limit, window);
      EveryWindowIsBounded(before, key, limit, window, from);
      if r.key == key && Admits(Bucket(Run(before, limit, window), key), r, limit, window) {
        BucketCountsTheLog(before, key, limit, window, r.now);
        WindowAfterAdmission(log, r.now, r.cost, limit, window, from);
      }
    }
  }

  // ----- the fixed window -----

  function WindowOf(now: real, window: real): int
    requires window > 0.0
  {
    (now / window).Floor
  }

  type Counters = map<(string, int), int>

  function Counted(c: Counters, key: string, w: int): int {
    if (key, w) in c then c[(key, w)] else 0
  }

  /** `INCRBY` first, compare afterwards: a refused request still counts. */
  function FixedStep(c: Counters, r: Request, window: real): Counters
    requires window > 0.0
  {
    var w := WindowOf(r.now, window);
    c[(r.key, w) := Counted(c, r.key, w) + r.cost]
  }

  predicate FixedAdmits(c: Counters, r: Request, limit: int, window: real)
    requires window > 0.0
  {
    Counted(c, r.key, WindowOf(r.now, window)) + r.cost <= limit
  }

  function FixedRun(rs: seq<Request>, window: real): Counters
    requires window > 0.0
  {
    if rs == [] then map[] else FixedStep(FixedRun(rs[..|rs| - 1], window), rs[|rs| - 1], window)
  }

  ghost function FixedAdmitted(rs: seq<Request>, key: string, limit: int, window: real): seq<real>
    requires window > 0.0
  {
    if rs == [] then [] else
    var before, r := rs[..|rs| - 1], rs[|rs| - 1];
    var log := FixedAdmitted(before, key, limit, window);
    if r.key == key && FixedAdmits(FixedRun(before, window), r, limit, window) then log + Repeat(r.now, r.cost) else log
  }

  /** What was asked for `key` in window `w`, admitted or not. */
  function Asked(rs: seq<Request>, key: string, w: int, window: real): int
    requires window > 0.0
  {
    if rs == [] then 0 else
    var r := rs[|rs| - 1];
    Asked(rs[..|rs| - 1], key, w, window) + if r.key == key && WindowOf(r.now, window) == w then r.cost else 0
  }

  /** The counter of a window holds everything asked in it, refused requests included. */
  lemma {:induction false} CounterIsAsked(rs: seq<Request>, key: string, w: int, window: real)
    requires window > 0.0
    ensures Counted(FixedRun(rs, window), key, w) == Asked(rs, key, w, window)
  {
    if rs != [] {
      CounterIsAsked(rs[..|rs| - 1], key, w, window);
    }
  }

  /** A request is admitted if and only if it and everything asked before it in its window come to no more than the limit. */
  lemma FixedAdmitsIff(rs: seq<Request>, r: Request, limit: int, window: real)
    requires window > 0.0
    ensures FixedAdmits(FixedRun(rs, window), r, limit, window) <==>
            Asked(rs, r.key, WindowOf(r.now, window), window) + r.cost <= limit
  {
    CounterIsAsked(rs, r.key, WindowOf(r.now, window), window);
  }

  /** So one request over the limit, itself refused, has every later one of its window refused, under costs that are not negative. */
  lemma OversizeLocksOut(rs: seq<Request>, i: nat, r: Request, limit: int, window: real)
    requires window > 0.0 && NonNegative(rs) && r.cost >= 0
    requires i < |rs| && rs[i].cost > limit && rs[i].key == r.key && WindowOf(rs[i].now, window) == WindowOf(r.now, window)
    ensures !FixedAdmits(FixedRun(rs, window), r, limit, window)
  {
    AskedAtLeast(rs, i, window);
    FixedAdmitsIff(rs, r, limit, window);
  }

  lemma {:induction false} AskedAtLeast(rs: seq<Request>, i: nat, window: real)
    requires window > 0.0 && NonNegative(rs) && i < |rs|
    ensures Asked(rs, rs[i].key, WindowOf(rs[i].now, window), window) >= rs[i].cost
  {
    var n := |rs| - 1;
    if i < n {
      AskedAtLeast(rs[..n], i, window);
    } else {
      AskedNonNegative(rs[..n], rs[i].key, WindowOf(rs[i].now, window), window);
    }
  }

  lemma {:induction false} AskedNonNegative(rs: seq<Request>, key: string, w: int, window: real)
    requires window > 0.0 && NonNegative(rs)
    ensures Asked(rs, key, w, window) >= 0
  {
    if rs != [] {
      AskedNonNegative(rs[..|rs| - 1], key, w, window);
    }
  }

  ghost predicate NonNegative(rs: seq<Request>) {
    forall i :: 0 <= i < |rs| ==> rs[i].cost >= 0
  }

  /** How many of `times` fall in fixed window number `w`. */
  function InWindow(times: seq<real>, w: int, window: real): nat
    requires window > 0.0
  {
    if times == [] then 0
    else InWindow(times[..|times| - 1], w, window) + (if WindowOf(times[|times| - 1], window) == w then 1 else 0)
  }

  lemma {:induction false} InWindowConcat(xs: seq<real>, ys: seq<real>, w: int, window: real)
    requires window > 0.0
    ensures InWindow(xs + ys, w, window) == InWindow(xs, w, window) + InWindow(ys, w, window)
  {
    if ys == [] {
      assert xs + ys == xs;
    } else {
      assert (xs + ys)[..|xs + ys| - 1] == xs + ys[..|ys| - 1];
      InWindowConcat(xs, ys[..|ys| - 1], w, window);
    }
  }

  lemma {:induction false} InWindowRepeat(t: real, n: int, w: int, window: real)
    requires window > 0.0
    ensures InWindow(Repeat(t, n), w, window) == if WindowOf(t, window) == w then Cap(n) else 0
    decreases Cap(n)
  {
    if n > 0 {
      assert Repeat(t, n)[..n - 1] == Repeat(t, n - 1);
      InWindowRepeat(t, n - 1, w, window);
    }
  }

  /** Each fixed window admits at most `limit` units per key, as long as no cost is negative. */
  lemma {:induction false} FixedWindowIsBounded(rs: seq<Request>, key: string, limit: int, window: real, w: int)
    requires window > 0.0
    requires NonNegative(rs)
    ensures InWindow(FixedAdmitted(rs, key, limit, window), w, window) <= Cap(limit)
    ensures InWindow(FixedAdmitted(rs, key, limit, window), w, window) <= Counted(FixedRun(rs, window), key, w)
  {
    if rs != [] {
      var before, r := rs[..|rs| - 1], rs[|rs| - 1];
      FixedWindowIsBounded(before, key, limit, window, w);
      if r.key == key && FixedAdmits(FixedRun(before, window), r, limit, window) {
        InWindowConcat(FixedAdmitted(before, key, limit, window), Repeat(r.now, r.cost), w, window);
        InWindowRepeat(r.now, r.cost, w, window);
      }
    }
  }

  /** An interval one window long meets only two consecutive fixed windows. */
  lemma IntervalMeetsTwoWindows(from: real, t: real, window: real)
    requires window > 0.0 && from <= t <= from + window
    ensures WindowOf(from, window) <= WindowOf(t, window) <= WindowOf(from, window) + 1
  {
    var p, q := from / window, t / window;
    assert p * window == from && q * window == t;
    Cancel(p, q, window);
    assert (p + 1.0) * window == from + window;
    Cancel(q, p + 1.0, window);
  }

  lemma {:induction false} WithinSplitsInTwo(times: seq<real>, from: real, window: real)
    requires window > 0.0
    ensures Within(times, from, from + window) <=
            InWindow(times, WindowOf(from, window), window) + InWindow(times, WindowOf(from, window) + 1, window)
  {
    if times != [] {
      var t := times[|times| - 1];
      WithinSplitsInTwo(times[..|times| - 1], from, window);
      if from <= t <= from + window {
        IntervalMeetsTwoWindows(from, t, window);
      }
    }
  }

  /** The fixed-window form guarantees twice the limit over an arbitrary interval of one window, under any clock. */
  lemma FixedWindowDoublesTheLimit(rs: seq<Request>, key: string, limit: int, window: real, from: real)
    requires window > 0.0
    requires NonNegative(rs)
    ensures Within(FixedAdmitted(rs, key, limit, window), from, from + window) <= 2 * Cap(limit)
  {
    var log := FixedAdmitted(rs, key, limit, window);
    WithinSplitsInTwo(log, from, window);
    FixedWindowIsBounded(rs, key, limit, window, WindowOf(from, window));
    FixedWindowIsBounded(rs, key, limit, window, WindowOf(from, window) + 1);
  }

  lemma WindowsAscend(t: real, u: real, window: real)
    requires window > 0.0 && t <= u
    ensures WindowOf(t, window) <= WindowOf(u, window)
  {
    var p, q := t / window, u / window;
    assert p * window == t && q * window == u;
    Cancel(p, q, window);
  }

  /** Two requests of one key in different windows, each for no more than the limit, are both admitted in full. */
  lemma BothAdmitted(key: string, limit: nat, window: real, t: real, u: real)
    requires window > 0.0 && WindowOf(t, window) != WindowOf(u, window)
    ensures FixedAdmitted([Request(key, limit, t), Request(key, limit, u)], key, limit, window) ==
            Repeat(t, limit) + Repeat(u, limit)
  {
    var first, second := Request(key, limit, t), Request(key, limit, u);
    var rs := [first, second];
    assert rs[..1] == [first] && [first][..0] == [];
    assert FixedRun([], window) == map[];
    assert FixedRun([first], window) == FixedStep(map[], first, window);
    assert FixedAdmitted([], key, limit, window) == [];
    assert FixedAdmitted([first], key, limit, window) == [] + Repeat(t, limit);
    assert [] + Repeat(t, limit) == Repeat(t, limit);
  }

  /** ... and no less: a burst at either end of an interval that meets two windows is admitted in full, under a forward clock. */
  lemma DoubleBurstIsAdmitted(key: string, limit: nat, window: real, from: real, to: real)
    requires window > 0.0 && from <= to && WindowOf(from, window) != WindowOf(to, window)
    ensures var rs := [Request(key, limit, from), Request(key, limit, to)];
            NonNegative(rs) && ClockForward(rs) && Within(FixedAdmitted(rs, key, limit, window), from, to) == 2 * limit
  {
    BothAdmitted(key, limit, window, from, to);
    WithinConcat(Repeat(from, limit), Repeat(to, limit), from, to);
    WithinAllOrNone(Repeat(from, limit), from, to);
    WithinAllOrNone(Repeat(to, limit), from, to);
  }

  lemma {:induction false} WithinOneWindow(times: seq<real>, from: real, to: real, window: real)
    requires window > 0.0 && WindowOf(from, window) == WindowOf(to, window)
    ensures Within(times, from, to) <= InWindow(times, WindowOf(from, window), window)
  {
    if times != [] {
      var t := times[|times| - 1];
      WithinOneWindow(times[..|times| - 1], from, to, window);
      if from <= t <= to {
        WindowsAscend(from, t, window);
        WindowsAscend(t, to, window);
      }
    }
  }

  lemma {:induction false} NothingFitsLimitZero(rs: seq<Request>, key: string, window: real)
    requires window > 0.0 && NonNegative(rs)
    ensures FixedAdmitted(rs, key, 0, window) == []
  {
    if rs != [] {
      var before, r := rs[..|rs| - 1], rs[|rs| - 1];
      NothingFitsLimitZero(before, key, window);
      FixedWindowIsBounded(before, key, 0, window, WindowOf(r.now, window));
    }
  }

  /** An interval is safe from overrunning the limit exactly when it lies in one fixed window, or the limit is nought. */
  lemma IntervalIsSafeIffInOneWindow(key: string, limit: nat, window: real, from: real, to: real)
    requires window > 0.0 && from <= to
    ensures (forall rs | NonNegative(rs) :: Within(FixedAdmitted(rs, key, limit, window), from, to) <= limit) <==>
            limit == 0 || WindowOf(from, window) == WindowOf(to, window)
  {
    if limit == 0 {
      forall rs | NonNegative(rs)
        ensures Within(FixedAdmitted(rs, key, limit, window), from, to) <= limit
      {
        NothingFitsLimitZero(rs, key, window);
      }
    } else if WindowOf(from, window) == WindowOf(to, window) {
      forall rs | NonNegative(rs)
        ensures Within(FixedAdmitted(rs, key, limit, window), from, to) <= limit
      {
        WithinOneWindow(FixedAdmitted(rs, key, limit, window), from, to, window);
        FixedWindowIsBounded(rs, key, limit, window, WindowOf(from, window));
      }
    } else {
      DoubleBurstIsAdmitted(key, limit, window, from, to);
    }
  }

  /** So no interval as long as the window is safe, wherever it starts. */
  lemma WindowLongIntervalsOverrun(key: string, limit: nat, window: real, from: real)
    requires window > 0.0 && limit > 0
    ensures exists rs :: NonNegative(rs) && ClockForward(rs) &&
                         Within(FixedAdmitted(rs, key, limit, window), from, from + window) == 2 * limit
  {
    NextWindow(from, window);
    DoubleBurstIsAdmitted(key, limit, window, from, from + window);
  }

  lemma NextWindow(from: real, window: real)
    requires window > 0.0
    ensures WindowOf(from + window, window) == WindowOf(from, window) + 1
  {
    var p, q := from / window, (from + window) / window;
    assert p * window == from && q * window == from + window;
    assert (p + 1.0) * window == from + window;
    Cancel(p + 1.0, q, window);
    Cancel(q, p + 1.0, window);
  }

  class RateLimiter {
    const limit: int
    const window: real
    var hits: map<string, seq<real>>

    constructor (limit: int, window: real)
      ensures hits == map[] && this.limit == limit && this.window == window
    {
      this.limit, this.window := limit, window;
      hits := map[];
    }

    /** `_check_local`; false stands for the raised `RateLimitedError`. */
    method CheckLocal(r: Request) returns (admitted: bool)
      modifies this`hits
      ensures admitted == Admits(Bucket(old(hits), r.key), r, limit, window)
      ensures hits == Step(old(hits), r, limit, window)
    {
      var bucket := Bucket(hits, r.key);
      while bucket != [] && r.now - bucket[0] > window
        invariant Prune(bucket, r.now, window) == Prune(Bucket(old(hits), r.key), r.now, window)
      {
        bucket := bucket[1..];
      }
      ghost var was := hits;
      hits := hits[r.key := bucket];
      if |bucket| + r.cost > limit {
        return false;
      }
      var i := 0;
      assert bucket + Repeat(r.now, 0) == bucket;
      while i < r.cost
        invariant i <= (if r.cost < 0 then 0 else r.cost)
        invariant hits == was[r.key := bucket + Repeat(r.now, i)]
      {
        assert bucket + Repeat(r.now, i) + [r.now] == bucket + Repeat(r.now, i + 1);
        hits := hits[r.key := hits[r.key] + [r.now]];
        assert hits == was[r.key := bucket + Repeat(r.now, i + 1)];
        i := i + 1;
      }
      assert Repeat(r.now, i) == Repeat(r.now, r.cost);
      return true;
    }

    method Reset()
      modifies this`hits
      ensures hits == map[]
    {
      hits := map[];
    }
  }
}
