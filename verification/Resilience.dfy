/**
 The circuit breaker and the bounded retry loop around every outbound call
 (`backend/src/jst_api/core/resilience.py`).

 What the provider does and what the clock reads are inputs: each attempt carries its outcome and
 the time at which it is recorded.
 */
module Resilience {
  import opened Wrappers

  datatype Breaker = Breaker(failures: nat, openedAt: Option<real>)

  datatype Config = Config(threshold: int, cooldown: real, maxAttempts: int)

  /** `Cancelled` is the caller's own cancellation, during the attempt or the wait before it; it is not an error. */
  datatype Outcome<T> = Done(value: T) | TimedOut | Transient | Fatal | Cancelled

  datatype Attempt<T> = Attempt(outcome: Outcome<T>, at: real)

  /** What the caller of `call_with_resilience` sees. */
  datatype Reply<T> = Value(value: T) | CircuitOpen | TimeoutRaised | FailedAfter(attempts: nat) | Reraised | Interrupted | Exhausted

  // ----- the breaker -----

  predicate StillOpen(b: Breaker, now: real, cooldown: real) {
    b.openedAt.Some? && now - b.openedAt.value < cooldown
  }

  /** Reading `is_open` closes a breaker whose cooldown is over. */
  function Probe(b: Breaker, now: real, cooldown: real): Breaker {
    if b.openedAt.Some? && !StillOpen(b, now, cooldown) then Breaker(0, None) else b
  }

  function Fail(b: Breaker, now: real, threshold: int): Breaker {
    Breaker(b.failures + 1, if b.failures + 1 >= threshold then Some(now) else b.openedAt)
  }

  class CircuitBreaker {
    const threshold: int
    const cooldown: real
    var failures: nat
    var openedAt: Option<real>

    function Abstract(): Breaker
      reads this
    {
      Breaker(failures, openedAt)
    }

    constructor (threshold: int, cooldown: real)
      ensures Abstract() == Breaker(0, None)
      ensures this.threshold == threshold && this.cooldown == cooldown
    {
      this.threshold, this.cooldown := threshold, cooldown;
      failures, openedAt := 0, None;
    }

    method IsOpen(now: real) returns (open: bool)
      modifies this
      ensures open == StillOpen(old(Abstract()), now, cooldown)
      ensures Abstract() == Probe(old(Abstract()), now, cooldown)
    {
      if openedAt.None? {
        return false;
      }
      if now - openedAt.value >= cooldown {
        openedAt := None;
        failures := 0;
        return false;
      }
      return true;
    }

    method RecordSuccess()
      modifies this
      ensures Abstract() == Breaker(0, None)
    {
      failures := 0;
      openedAt := None;
    }

    method RecordFailure(now: real)
      modifies this
      ensures Abstract() == Fail(old(Abstract()), now, threshold)
    {
      failures := failures + 1;
      if failures >= threshold {
        openedAt := Some(now);
      }
    }
  }

  // ----- the retry loop -----

  function Record<T>(b: Breaker, a: Attempt<T>, threshold: int): Breaker {
    match a.outcome
    case Done(_) => Breaker(0, None)
    case Cancelled => b
    case _ => Fail(b, a.at, threshold)
  }

  function RecordAll<T>(b: Breaker, attempts: seq<Attempt<T>>, threshold: int): Breaker {
    if attempts == [] then b
    else Record(RecordAll(b, attempts[..|attempts| - 1], threshold), attempts[|attempts| - 1], threshold)
  }

  /** The retry loop goes on after a timeout or a transient error, and only then. */
  predicate Retryable<T>(a: Attempt<T>) {
    a.outcome.TimedOut? || a.outcome.Transient?
  }

  /** How many attempts are made when at most `max` are allowed. */
  function Tries<T>(attempts: seq<Attempt<T>>, max: int): (n: nat)
    requires |attempts| >= max
    ensures n <= |attempts|
    decreases if max < 0 then 0 else max
  {
    if max <= 0 then 0
    else if Retryable(attempts[0]) then 1 + Tries(attempts[1..], max - 1)
    else 1
  }

  function ReplyTo<T>(attempts: seq<Attempt<T>>, n: nat): Reply<T>
    requires n <= |attempts|
  {
    if n == 0 then Exhausted else
    match attempts[n - 1].outcome
    case Done(v) => Value(v)
    case TimedOut => TimeoutRaised
    case Transient => FailedAfter(n)
    case Fatal => Reraised
    case Cancelled => Interrupted
  }

  lemma {:induction false} TriesIs<T>(attempts: seq<Attempt<T>>, max: int, n: nat)
    requires n <= |attempts| && |attempts| >= max
    requires forall i :: 0 <= i < n - 1 ==> Retryable(attempts[i])
    requires n <= max || (n == 0 && max < 0)
    requires n == max || (n == 0 && max < 0) || (n > 0 && !Retryable(attempts[n - 1]))
    ensures Tries(attempts, max) == n
    decreases n
  {
    if n > 0 && Retryable(attempts[0]) {
      TriesIs(attempts[1..], max - 1, n - 1);
    }
  }

  /** `call_with_resilience`; `breaker` may be absent. */
  method CallWithResilience<T>(breaker: CircuitBreaker?, maxAttempts: int, start: real, attempts: seq<Attempt<T>>)
    returns (reply: Reply<T>, made: nat)
    requires |attempts| >= maxAttempts
    modifies breaker
    ensures breaker != null && StillOpen(old(breaker.Abstract()), start, breaker.cooldown) ==>
              reply == CircuitOpen && made == 0 && breaker.Abstract() == old(breaker.Abstract())
    ensures breaker == null || !StillOpen(old(breaker.Abstract()), start, breaker.cooldown) ==>
              made == Tries(attempts, maxAttempts) && reply == ReplyTo(attempts, made)
    ensures breaker != null && !StillOpen(old(breaker.Abstract()), start, breaker.cooldown) ==>
              breaker.Abstract() ==
              RecordAll(Probe(old(breaker.Abstract()), start, breaker.cooldown), attempts[..made], breaker.threshold)
  {
    if breaker != null {
      var open := breaker.IsOpen(start);
      if open {
        return CircuitOpen, 0;
      }
    }
    ghost var closed := if breaker == null then Breaker(0, None) else breaker.Abstract();
    made := 0;
    while made < maxAttempts
      invariant made <= |attempts| && (made <= maxAttempts || made == 0)
      invariant forall i :: 0 <= i < made ==> Retryable(attempts[i])
      invariant breaker != null ==> breaker.Abstract() == RecordAll(closed, attempts[..made], breaker.threshold)
      invariant made > 0 ==> made < maxAttempts
    {
      var a := attempts[made];
      made := made + 1;
      assert attempts[..made][..made - 1] == attempts[..made - 1];
      match a.outcome
      case Done(v) =>
        if breaker != null {
          breaker.RecordSuccess();
        }
        TriesIs(attempts, maxAttempts, made);
        return Value(v), made;
      case TimedOut =>
        if breaker != null {
          breaker.RecordFailure(a.at);
        }
        if made == maxAttempts {
          TriesIs(attempts, maxAttempts, made);
          return TimeoutRaised, made;
        }
      case Transient =>
        if breaker != null {
          breaker.RecordFailure(a.at);
        }
        if made == maxAttempts {
          TriesIs(attempts, maxAttempts, made);
          return FailedAfter(made), made;
        }
      case Fatal =>
        if breaker != null {
          breaker.RecordFailure(a.at);
        }
        TriesIs(attempts, maxAttempts, made);
        return Reraised, made;
      case Cancelled =>
        TriesIs(attempts, maxAttempts, made);
        return Interrupted, made;
    }
    TriesIs(attempts, maxAttempts, made);
    assert attempts[..0] == [];
    return Exhausted, made;
  }

  // ----- whole runs of sequential calls -----

  datatype Call<T> = Call(start: real, attempts: seq<Attempt<T>>)

  /** What an observer of a run sees, one mark at a time. */
  datatype Mark = Failed(at: real) | Succeeded | Abandoned | CooledDown | Refused

  function MarkOf<T>(a: Attempt<T>): Mark {
    match a.outcome
    case Done(_) => Succeeded
    case Cancelled => Abandoned
    case _ => Failed(a.at)
  }

  function Marks<T>(attempts: seq<Attempt<T>>): (r: seq<Mark>)
    ensures |r| == |attempts|
  {
    seq(|attempts|, i requires 0 <= i < |attempts| => MarkOf(attempts[i]))
  }

  function CallMarks<T>(cfg: Config, b: Breaker, call: Call<T>): seq<Mark>
    requires |call.attempts| >= cfg.maxAttempts
  {
    if StillOpen(b, call.start, cfg.cooldown) then [Refused] else
    (if b.openedAt.Some? then [CooledDown] else []) + Marks(call.attempts[..Tries(call.attempts, cfg.maxAttempts)])
  }

  function AfterCall<T>(cfg: Config, b: Breaker, call: Call<T>): Breaker
    requires |call.attempts| >= cfg.maxAttempts
  {
    if StillOpen(b, call.start, cfg.cooldown) then b else
    RecordAll(Probe(b, call.start, cfg.cooldown), call.attempts[..Tries(call.attempts, cfg.maxAttempts)], cfg.threshold)
  }

  ghost predicate Supplied<T(!new)>(cfg: Config, calls: seq<Call<T>>) {
    forall i :: 0 <= i < |calls| ==> |calls[i].attempts| >= cfg.maxAttempts
  }

  ghost function Run<T(!new)>(cfg: Config, calls: seq<Call<T>>): Breaker
    requires Supplied(cfg, calls)
  {
    if calls == [] then Breaker(0, None)
    else AfterCall(cfg, Run(cfg, calls[..|calls| - 1]), calls[|calls| - 1])
  }

  ghost function Trace<T(!new)>(cfg: Config, calls: seq<Call<T>>): seq<Mark>
    requires Supplied(cfg, calls)
  {
    if calls == [] then [] else
    var before := calls[..|calls| - 1];
    Trace(cfg, before) + CallMarks(cfg, Run(cfg, before), calls[|calls| - 1])
  }

  // ----- the reference: what the breaker should know, read off the trace alone -----

  // ----- what one call does -----

  /** A timeout or a transient error, and nothing else, is tried again, while attempts are left. */
  lemma {:induction false} AttemptsMade<T>(attempts: seq<Attempt<T>>, max: int)
    requires |attempts| >= max
    ensures var n := Tries(attempts, max);
            && n <= |attempts| && (max <= 0 ==> n == 0) && (max > 0 ==> 0 < n <= max)
            && (forall i :: 0 <= i < n - 1 ==> attempts[i].outcome == TimedOut || attempts[i].outcome == Transient)
            && (0 < n < max ==> attempts[n - 1].outcome != TimedOut && attempts[n - 1].outcome != Transient)
    decreases if max < 0 then 0 else max
  {
    if max > 0 && Retryable(attempts[0]) {
      AttemptsMade(attempts[1..], max - 1);
      var rest := Tries(attempts[1..], max - 1);
      assert forall i :: 0 < i < 1 + rest ==> attempts[i] == attempts[1..][i - 1];
    }
  }

  /** What the caller sees is what the last attempt came to; timeouts and transient errors only once no attempt is left. */
  lemma ReplyIs<T>(attempts: seq<Attempt<T>>, max: int)
    requires |attempts| >= max
    ensures var n := Tries(attempts, max);
            var reply := ReplyTo(attempts, n);
            && (reply == Exhausted <==> max <= 0)
            && (max > 0 ==>
                  && n > 0
                  && (forall v :: reply == Value(v) <==> attempts[n - 1].outcome == Done(v))
                  && (reply == TimeoutRaised <==> attempts[n - 1].outcome == TimedOut)
                  && (reply.FailedAfter? <==> attempts[n - 1].outcome == Transient)
                  && (reply == TimeoutRaised || reply.FailedAfter? ==> n == max)
                  && (reply.FailedAfter? ==> reply.attempts == max)
                  && (reply == Reraised <==> attempts[n - 1].outcome == Fatal)
                  && (reply == Interrupted <==> attempts[n - 1].outcome == Cancelled))
  {
    AttemptsMade(attempts, max);
  }

  /** Failures add up attempt by attempt. */
  lemma {:induction false} FailuresAdd<T>(b: Breaker, attempts: seq<Attempt<T>>, threshold: int)
    requires forall i :: 0 <= i < |attempts| ==> attempts[i].outcome == TimedOut || attempts[i].outcome == Transient
    ensures RecordAll(b, attempts, threshold).failures == b.failures + |attempts|
  {
    if attempts != [] {
      FailuresAdd(b, attempts[..|attempts| - 1], threshold);
    }
  }

  /**
   What a call that gets through leaves behind: a success closes the breaker and forgets, a cancelled
   attempt records nothing itself, and every other attempt is one failure more.
   */
  lemma CallLeaves<T>(cfg: Config, b: Breaker, call: Call<T>)
    requires |call.attempts| >= cfg.maxAttempts && cfg.maxAttempts > 0 && !StillOpen(b, call.start, cfg.cooldown)
    ensures var n, after := Tries(call.attempts, cfg.maxAttempts), AfterCall(cfg, b, call);
            var before := if b.openedAt == None then b.failures else 0;
            && n > 0
            && (call.attempts[n - 1].outcome.Done? ==> after == Breaker(0, None))
            && (call.attempts[n - 1].outcome == Cancelled ==> after.failures == before + n - 1)
            && (!call.attempts[n - 1].outcome.Done? && call.attempts[n - 1].outcome != Cancelled ==>
                  after.failures == before + n &&
                  (before + n >= cfg.threshold ==> after.openedAt == Some(call.attempts[n - 1].at)))
  {
    AttemptsMade(call.attempts, cfg.maxAttempts);
    var n := Tries(call.attempts, cfg.maxAttempts);
    var made := call.attempts[..n];
    assert made[..n - 1] == call.attempts[..n - 1];
    FailuresAdd(Probe(b, call.start, cfg.cooldown), made[..n - 1], cfg.threshold);
  }

  /** Failed attempts since the last success or cooldown reset. */
  function FailuresInARow(trace: seq<Mark>): nat {
    if trace == [] then 0 else
    match trace[|trace| - 1]
    case Failed(_) => FailuresInARow(trace[..|trace| - 1]) + 1
    case Refused => FailuresInARow(trace[..|trace| - 1])
    case Abandoned => FailuresInARow(trace[..|trace| - 1])
    case Succeeded => 0
    case CooledDown => 0
  }

  function LastFailure(trace: seq<Mark>): Option<real> {
    if trace == [] then None
    else if trace[|trace| - 1].Failed? then Some(trace[|trace| - 1].at)
    else LastFailure(trace[..|trace| - 1])
  }

  /** The breaker has to be open since the last failure, once enough of them came in a row. */
  function Expected(trace: seq<Mark>, threshold: int): Breaker {
    var n := FailuresInARow(trace);
    Breaker(n, if n > 0 && n >= threshold then LastFailure(trace) else None)
  }

  function Allowed(cfg: Config): nat {
    (if cfg.threshold > 1 then cfg.threshold - 1 else 0) + (if cfg.maxAttempts > 0 then cfg.maxAttempts else 0)
  }

  lemma {:induction false} RecordingFollowsTrace<T>(past: seq<Mark>, attempts: seq<Attempt<T>>, threshold: int)
    ensures RecordAll(Expected(past, threshold), attempts, threshold) == Expected(past + Marks(attempts), threshold)
    ensures FailuresInARow(past + Marks(attempts)) <= FailuresInARow(past) + |attempts|
  {
    var all := past + Marks(attempts);
    if attempts == [] {
      assert all == past;
    } else {
      var before := attempts[..|attempts| - 1];
      RecordingFollowsTrace(past, before, threshold);
      assert all[..|all| - 1] == past + Marks(before);
      assert all[|all| - 1] == MarkOf(attempts[|attempts| - 1]);
    }
  }

  lemma MarkEndsRun(past: seq<Mark>, m: Mark)
    ensures m.CooledDown? ==> FailuresInARow(past + [m]) == 0
    ensures m.Refused? ==> FailuresInARow(past + [m]) == FailuresInARow(past) && LastFailure(past + [m]) == LastFailure(past)
  {
    assert (past + [m])[..|past|] == past;
  }

  lemma {:induction false} LastFailureExists(trace: seq<Mark>)
    ensures FailuresInARow(trace) > 0 ==> LastFailure(trace).Some?
  {
    if trace != [] {
      LastFailureExists(trace[..|trace| - 1]);
    }
  }

  lemma CallFollowsTrace<T(!new)>(cfg: Config, past: seq<Mark>, call: Call<T>)
    requires |call.attempts| >= cfg.maxAttempts
    ensures var b := Expected(past, cfg.threshold);
            AfterCall(cfg, b, call) == Expected(past + CallMarks(cfg, b, call), cfg.threshold)
  {
    var b := Expected(past, cfg.threshold);
    var attempts := call.attempts[..Tries(call.attempts, cfg.maxAttempts)];
    if StillOpen(b, call.start, cfg.cooldown) {
      MarkEndsRun(past, Refused);
    } else if b.openedAt.Some? {
      MarkEndsRun(past, CooledDown);
      RecordingFollowsTrace(past + [CooledDown], attempts, cfg.threshold);
      assert past + ([CooledDown] + Marks(attempts)) == past + [CooledDown] + Marks(attempts);
    } else {
      RecordingFollowsTrace(past, attempts, cfg.threshold);
      assert past + ([] + Marks(attempts)) == past + Marks(attempts);
    }
  }

  /** After any run the breaker holds exactly what its history says it should. */
  lemma {:induction false} BreakerTracksHistory<T(!new)>(cfg: Config, calls: seq<Call<T>>)
    requires Supplied(cfg, calls)
    ensures Run(cfg, calls) == Expected(Trace(cfg, calls), cfg.threshold)
  {
    if calls != [] {
      BreakerTracksHistory(cfg, calls[..|calls| - 1]);
      CallFollowsTrace(cfg, Trace(cfg, calls[..|calls| - 1]), calls[|calls| - 1]);
    }
  }

  /** Being open and having reached the threshold are the same thing after every run, exactly when the threshold is positive. */
  lemma OpenMeansThresholdReached<T(!new)>(cfg: Config, calls: seq<Call<T>>)
    requires Supplied(cfg, calls)
    ensures cfg.threshold >= 1 ==> (Run(cfg, calls).openedAt.Some? <==> Run(cfg, calls).failures >= cfg.threshold)
    ensures cfg.threshold < 1 ==> !(Run<T>(cfg, []).openedAt.Some? <==> Run<T>(cfg, []).failures >= cfg.threshold)
  {
    BreakerTracksHistory(cfg, calls);
    LastFailureExists(Trace(cfg, calls));
  }

  lemma RefusedWhenOpen<T(!new)>(cfg: Config, b: Breaker, call: Call<T>)
    requires |call.attempts| >= cfg.maxAttempts
    ensures CallMarks(cfg, b, call) == [Refused] <==> StillOpen(b, call.start, cfg.cooldown)
  {
    var made := Marks(call.attempts[..Tries(call.attempts, cfg.maxAttempts)]);
    if StillOpen(b, call.start, cfg.cooldown) {
    } else if b.openedAt.Some? {
      assert CallMarks(cfg, b, call)[0] == CooledDown;
    } else if made == [] {
      assert |CallMarks(cfg, b, call)| == 0;
    } else {
      assert CallMarks(cfg, b, call)[0] == made[0];
    }
  }

  /**
   A call gets through to the provider exactly when the breaker has not tripped since it was last
   closed, or a full cooldown has passed since the last failure.
   */
  lemma CallsWaitForCooldown<T(!new)>(cfg: Config, calls: seq<Call<T>>, call: Call<T>)
    requires Supplied(cfg, calls) && |call.attempts| >= cfg.maxAttempts
    ensures var past := Trace(cfg, calls);
            var tripped := FailuresInARow(past) > 0 && FailuresInARow(past) >= cfg.threshold;
            && (tripped ==> LastFailure(past).Some?)
            && (CallMarks(cfg, Run(cfg, calls), call) == [Refused] <==>
                tripped && call.start - LastFailure(past).value < cfg.cooldown)
  {
    var past := Trace(cfg, calls);
    BreakerTracksHistory(cfg, calls);
    LastFailureExists(past);
    RefusedWhenOpen(cfg, Expected(past, cfg.threshold), call);
  }

  lemma {:induction false} TriesBounded<T>(attempts: seq<Attempt<T>>, max: int)
    requires |attempts| >= max
    ensures Tries(attempts, max) <= (if max < 0 then 0 else max)
    decreases if max < 0 then 0 else max
  {
    if max > 0 && Retryable(attempts[0]) {
      TriesBounded(attempts[1..], max - 1);
    }
  }

  /** The first `n` marks of a run: of the calls before the last, or all of those and some of the last. */
  lemma TracePrefix<T(!new)>(cfg: Config, calls: seq<Call<T>>, n: nat)
    requires Supplied(cfg, calls) && calls != [] && n <= |Trace(cfg, calls)|
    ensures var past := Trace(cfg, calls[..|calls| - 1]);
            var marks := CallMarks(cfg, Run(cfg, calls[..|calls| - 1]), calls[|calls| - 1]);
            && n <= |past| + |marks|
            && Trace(cfg, calls)[..n] == if n <= |past| then past[..n] else past + marks[..n - |past|]
  {
    var past := Trace(cfg, calls[..|calls| - 1]);
    TakeFromConcat(past, CallMarks(cfg, Run(cfg, calls[..|calls| - 1]), calls[|calls| - 1]), n);
  }

  lemma TakeFromConcat<T>(xs: seq<T>, ys: seq<T>, n: nat)
    requires n <= |xs| + |ys|
    ensures n <= |xs| ==> (xs + ys)[..n] == xs[..n]
    ensures n >= |xs| ==> (xs + ys)[..n] == xs + ys[..n - |xs|]
  {
  }

  lemma TakeAll<T>(xs: seq<T>)
    ensures xs[..|xs|] == xs
  {
  }

  /**
   However the calls are spaced, no more than `threshold - 1 + maxAttempts` attempts fail in a row
   before the breaker is closed again: the loop may overrun the threshold, but only within one call.
   */
  lemma {:induction false} FailuresAreAmortised<T(!new)>(cfg: Config, calls: seq<Call<T>>, n: nat)
    requires Supplied(cfg, calls) && n <= |Trace(cfg, calls)|
    ensures FailuresInARow(Trace(cfg, calls)[..n]) <= Allowed(cfg)
    decreases |calls|
  {
    if calls != [] {
      var before, call := calls[..|calls| - 1], calls[|calls| - 1];
      var past := Trace(cfg, before);
      TracePrefix(cfg, calls, n);
      if n <= |past| {
        FailuresAreAmortised(cfg, before, n);
      } else {
        FailuresAreAmortised(cfg, before, |past|);
        TakeAll(past);
        BreakerTracksHistory(cfg, before);
        CallIsAmortised(cfg, past, call, n - |past|);
      }
    }
  }

  lemma CallMarksPrefix<T(!new)>(cfg: Config, b: Breaker, call: Call<T>, m: nat)
    requires |call.attempts| >= cfg.maxAttempts && 0 < m <= |CallMarks(cfg, b, call)|
    ensures var attempts := call.attempts[..Tries(call.attempts, cfg.maxAttempts)];
            if StillOpen(b, call.start, cfg.cooldown) then CallMarks(cfg, b, call)[..m] == [Refused]
            else if b.openedAt.Some? then m <= |attempts| + 1 && CallMarks(cfg, b, call)[..m] == [CooledDown] + Marks(attempts[..m - 1])
            else m <= |attempts| && CallMarks(cfg, b, call)[..m] == Marks(attempts[..m])
  {
  }

  lemma CallIsAmortised<T(!new)>(cfg: Config, past: seq<Mark>, call: Call<T>, m: nat)
    requires |call.attempts| >= cfg.maxAttempts
    requires FailuresInARow(past) <= Allowed(cfg)
    requires 0 < m <= |CallMarks(cfg, Expected(past, cfg.threshold), call)|
    ensures FailuresInARow(past + CallMarks(cfg, Expected(past, cfg.threshold), call)[..m]) <= Allowed(cfg)
  {
    var b := Expected(past, cfg.threshold);
    var attempts := call.attempts[..Tries(call.attempts, cfg.maxAttempts)];
    CallMarksPrefix(cfg, b, call, m);
    TriesBounded(call.attempts, cfg.maxAttempts);
    LastFailureExists(past);
    if StillOpen(b, call.start, cfg.cooldown) {
      MarkEndsRun(past, Refused);
    } else if b.openedAt.Some? {
      MarkEndsRun(past, CooledDown);
      RecordingFollowsTrace(past + [CooledDown], attempts[..m - 1], cfg.threshold);
      assert past + ([CooledDown] + Marks(attempts[..m - 1])) == past + [CooledDown] + Marks(attempts[..m - 1]);
    } else {
      RecordingFollowsTrace(past, attempts[..m], cfg.threshold);
    }
  }

  // ----- when the cooldown after an opening is respected -----

  /** The `n`th mark is a failure that opens the breaker. */
  ghost predicate Opens(cfg: Config, trace: seq<Mark>, n: nat) {
    n < |trace| && trace[n].Failed? && FailuresInARow(trace[..n + 1]) >= cfg.threshold
  }

  ghost predicate ForwardStarts<T(!new)>(calls: seq<Call<T>>) {
    forall i, j :: 0 <= i < j < |calls| ==> calls[i].start <= calls[j].start
  }

  /** The last call gets through although its start is within a cooldown of the opening at mark `n`. */
  ghost predicate Breach<T(!new)>(cfg: Config, calls: seq<Call<T>>, call: Call<T>, n: nat)
    requires Supplied(cfg, calls) && |call.attempts| >= cfg.maxAttempts
  {
    && Opens(cfg, Trace(cfg, calls), n)
    && Trace(cfg, calls)[n].at <= call.start < Trace(cfg, calls)[n].at + cfg.cooldown
    && CallMarks(cfg, Run(cfg, calls), call) != [Refused]
  }

  /** A failure that opens the breaker is what the breaker remembers, as long as it is the last mark. */
  lemma LastMarkOpens(trace: seq<Mark>, threshold: int)
    requires trace != [] && trace[|trace| - 1].Failed? && FailuresInARow(trace) >= threshold
    ensures Expected(trace, threshold).openedAt == Some(trace[|trace| - 1].at)
  {
  }

  lemma OpensInPrefix(cfg: Config, past: seq<Mark>, marks: seq<Mark>, n: nat)
    requires Opens(cfg, past + marks, n)
    ensures n < |past| ==> Opens(cfg, past, n) && (past + marks)[n] == past[n]
    ensures n >= |past| ==> n - |past| < |marks| && marks[n - |past|].Failed?
  {
    if n < |past| {
      TakeFromConcat(past, marks, n + 1);
    }
  }

  /** An open breaker is left as it is by every call that starts within its cooldown. */
  lemma OpenUntilCooledDown<T(!new)>(cfg: Config, b: Breaker, call: Call<T>, t: real)
    requires |call.attempts| >= cfg.maxAttempts && b.openedAt == Some(t) && call.start < t + cfg.cooldown
    ensures AfterCall(cfg, b, call) == b
  {
  }

  lemma SingleAttemptMarks<T(!new)>(cfg: Config, b: Breaker, call: Call<T>, n: nat)
    requires cfg.maxAttempts <= 1 && |call.attempts| >= cfg.maxAttempts
    requires n < |CallMarks(cfg, b, call)| && CallMarks(cfg, b, call)[n].Failed?
    ensures n + 1 == |CallMarks(cfg, b, call)|
  {
    TriesBounded(call.attempts, cfg.maxAttempts);
  }

  lemma TraceOfAll<T(!new)>(cfg: Config, calls: seq<Call<T>>)
    requires Supplied(cfg, calls) && calls != []
    ensures var before, call := calls[..|calls| - 1], calls[|calls| - 1];
            && Trace(cfg, calls) == Trace(cfg, before) + CallMarks(cfg, Run(cfg, before), call)
            && Run(cfg, calls) == AfterCall(cfg, Run(cfg, before), call)
  {
  }

  /** A call of at most one attempt that opens the breaker leaves it open since that attempt. */
  lemma OpenedNow<T(!new)>(cfg: Config, past: seq<Mark>, call: Call<T>, n: nat)
    requires cfg.maxAttempts <= 1 && |call.attempts| >= cfg.maxAttempts && |past| <= n
    requires Opens(cfg, past + CallMarks(cfg, Expected(past, cfg.threshold), call), n)
    ensures var b := Expected(past, cfg.threshold);
            AfterCall(cfg, b, call).openedAt == Some((past + CallMarks(cfg, b, call))[n].at)
  {
    var b := Expected(past, cfg.threshold);
    var marks := CallMarks(cfg, b, call);
    OpensInPrefix(cfg, past, marks, n);
    SingleAttemptMarks(cfg, b, call, n - |past|);
    TakeAll(past + marks);
    LastMarkOpens(past + marks, cfg.threshold);
    CallFollowsTrace(cfg, past, call);
  }

  /** After an opening the breaker stays as it is until a call starts a cooldown later. */
  lemma {:induction false} OpeningIsRemembered<T(!new)>(cfg: Config, calls: seq<Call<T>>, n: nat, t: real)
    requires cfg.maxAttempts <= 1 && Supplied(cfg, calls) && ForwardStarts(calls)
    requires Opens(cfg, Trace(cfg, calls), n) && t == Trace(cfg, calls)[n].at
    ensures calls != []
    ensures Run(cfg, calls).openedAt == Some(t) || calls[|calls| - 1].start >= t + cfg.cooldown
    decreases |calls|
  {
    var before, call := calls[..|calls| - 1], calls[|calls| - 1];
    var past := Trace(cfg, before);
    TraceOfAll(cfg, calls);
    BreakerTracksHistory(cfg, before);
    if n >= |past| {
      OpenedNow(cfg, past, call, n);
    } else {
      OpensInPrefix(cfg, past, CallMarks(cfg, Run(cfg, before), call), n);
      OpeningIsRemembered(cfg, before, n, t);
      if Run(cfg, before).openedAt == Some(t) && call.start < t + cfg.cooldown {
        OpenUntilCooledDown(cfg, Run(cfg, before), call, t);
      }
    }
  }

  lemma SingleAttemptsRespectTheCooldown<T(!new)>(cfg: Config, calls: seq<Call<T>>, call: Call<T>, n: nat)
    requires cfg.maxAttempts <= 1 && Supplied(cfg, calls) && |call.attempts| >= cfg.maxAttempts && ForwardStarts(calls + [call])
    ensures !Breach(cfg, calls, call, n)
  {
    if Opens(cfg, Trace(cfg, calls), n) {
      assert ForwardStarts(calls) by {
        assert forall i :: 0 <= i < |calls| ==> (calls + [call])[i] == calls[i];
      }
      assert (calls + [call])[|calls|] == call && (calls + [call])[|calls| - 1] == calls[|calls| - 1];
      OpeningIsRemembered(cfg, calls, n, Trace(cfg, calls)[n].at);
      RefusedWhenOpen(cfg, Run(cfg, calls), call);
    }
  }

  // ----- a run that does not -----

  /** A call that fails for good, at time nought. */
  function Failing<T>(cfg: Config): Call<T> {
    Call(0.0, seq(if cfg.maxAttempts < 0 then 0 else cfg.maxAttempts, _ => Attempt(Fatal, 0.0)))
  }

  /** A call whose second attempt succeeds. */
  function Recovering<T>(cfg: Config, value: T): Call<T> {
    Call(0.0, seq(if cfg.maxAttempts < 0 then 0 else cfg.maxAttempts, i => Attempt(if i == 0 then TimedOut else Done(value), 0.0)))
  }

  function Repeated<T>(x: T, n: nat): seq<T> {
    seq(n, _ => x)
  }

  lemma FailingMark<T(!new)>(cfg: Config, b: Breaker)
    requires cfg.maxAttempts >= 1 && b.openedAt == None
    ensures CallMarks(cfg, b, Failing<T>(cfg)) == [Failed(0.0)]
    ensures AfterCall(cfg, b, Failing<T>(cfg)) == Fail(b, 0.0, cfg.threshold)
  {
    var call := Failing<T>(cfg);
    TriesIs(call.attempts, cfg.maxAttempts, 1);
    var tried := call.attempts[..1];
    assert tried == [Attempt(Fatal, 0.0)] && tried[..0] == [];
    assert RecordAll(b, tried[..0], cfg.threshold) == b;
    assert [] + Marks(call.attempts[..1]) == [Failed(0.0)];
  }

  lemma RecoveringMarks<T(!new)>(cfg: Config, b: Breaker, value: T)
    requires cfg.maxAttempts >= 2 && b.openedAt == None
    ensures CallMarks(cfg, b, Recovering(cfg, value)) == [Failed(0.0), Succeeded]
    ensures AfterCall(cfg, b, Recovering(cfg, value)) == Breaker(0, None)
  {
    var call := Recovering(cfg, value);
    TriesIs(call.attempts, cfg.maxAttempts, 2);
    assert call.attempts[..2] == [Attempt(TimedOut, 0.0), Attempt(Done(value), 0.0)];
    assert [] + Marks(call.attempts[..2]) == [Failed(0.0), Succeeded];
  }

  lemma {:induction false} FailingRun<T(!new)>(cfg: Config, k: nat)
    requires cfg.maxAttempts >= 1 && (k == 0 || k < cfg.threshold)
    ensures Supplied(cfg, Repeated(Failing<T>(cfg), k))
    ensures Run(cfg, Repeated(Failing<T>(cfg), k)) == Breaker(k, None)
    ensures Trace(cfg, Repeated(Failing<T>(cfg), k)) == Repeated(Failed(0.0), k)
  {
    var calls := Repeated(Failing<T>(cfg), k);
    if k > 0 {
      FailingRun<T>(cfg, k - 1);
      assert calls[..k - 1] == Repeated(Failing<T>(cfg), k - 1);
      FailingMark<T>(cfg, Breaker(k - 1, None));
      assert Repeated(Failed(0.0), k - 1) + [Failed(0.0)] == Repeated(Failed(0.0), k);
    }
  }

  lemma {:induction false} FailuresAddUp(k: nat)
    ensures FailuresInARow(Repeated(Failed(0.0), k)) == k
  {
    if k > 0 {
      FailuresAddUp(k - 1);
      assert Repeated(Failed(0.0), k)[..k - 1] == Repeated(Failed(0.0), k - 1);
    }
  }

  /** The failures still allowed without an opening. */
  function Spare(cfg: Config): nat {
    if cfg.threshold > 1 then cfg.threshold - 1 else 0
  }

  /** As many failures as the breaker takes, then a call that opens it and recovers. */
  function OpenAndRecover<T>(cfg: Config, value: T): seq<Call<T>> {
    Repeated(Failing(cfg), Spare(cfg)) + [Recovering(cfg, value)]
  }

  lemma OpenAndRecoverTrace<T(!new)>(cfg: Config, value: T)
    requires cfg.maxAttempts >= 2
    ensures Supplied(cfg, OpenAndRecover(cfg, value))
    ensures Run(cfg, OpenAndRecover(cfg, value)) == Breaker(0, None)
    ensures Trace(cfg, OpenAndRecover(cfg, value)) == Repeated(Failed(0.0), Spare(cfg) + 1) + [Succeeded]
  {
    var k, calls := Spare(cfg), OpenAndRecover(cfg, value);
    FailingRun<T>(cfg, k);
    RecoveringMarks(cfg, Breaker(k, None), value);
    assert calls[..|calls| - 1] == Repeated(Failing<T>(cfg), k);
    TraceOfAll(cfg, calls);
    assert Repeated(Failed(0.0), k) + [Failed(0.0), Succeeded] == Repeated(Failed(0.0), k + 1) + [Succeeded];
  }

  lemma OneTooMany(cfg: Config, trace: seq<Mark>)
    requires trace == Repeated(Failed(0.0), Spare(cfg) + 1) + [Succeeded]
    ensures Opens(cfg, trace, Spare(cfg)) && trace[Spare(cfg)].at == 0.0
  {
    FailuresAddUp(Spare(cfg) + 1);
    assert trace[..Spare(cfg) + 1] == Repeated(Failed(0.0), Spare(cfg) + 1);
  }

  /** A call all of whose attempts time out. */
  function TimingOut<T>(cfg: Config): Call<T> {
    Call(0.0, seq(if cfg.maxAttempts < 0 then 0 else cfg.maxAttempts, _ => Attempt(TimedOut, 0.0)))
  }

  lemma {:induction false} AllAreTried<T>(attempts: seq<Attempt<T>>, max: int)
    requires |attempts| >= max && forall i :: 0 <= i < |attempts| ==> attempts[i].outcome == TimedOut
    ensures Tries(attempts, max) == if max < 0 then 0 else max
    decreases if max < 0 then 0 else max
  {
    if max > 0 {
      AllAreTried(attempts[1..], max - 1);
    }
  }

  lemma TimingOutMarks<T(!new)>(cfg: Config, b: Breaker)
    requires cfg.maxAttempts >= 1 && b.openedAt == None
    ensures CallMarks(cfg, b, TimingOut<T>(cfg)) == Repeated(Failed(0.0), cfg.maxAttempts)
  {
    AllAreTried(TimingOut<T>(cfg).attempts, cfg.maxAttempts);
  }

  lemma AllowedIs(cfg: Config)
    requires cfg.maxAttempts >= 1
    ensures Allowed(cfg) == Spare(cfg) + cfg.maxAttempts
  {
  }

  lemma RepeatedConcat<T>(x: T, m: nat, n: nat)
    ensures Repeated(x, m) + Repeated(x, n) == Repeated(x, m + n)
  {
  }

  lemma TimingOutTrace<T(!new)>(cfg: Config)
    requires cfg.maxAttempts >= 1
    ensures var before := Repeated(Failing<T>(cfg), Spare(cfg));
            && Supplied(cfg, before + [TimingOut(cfg)])
            && Trace(cfg, before + [TimingOut(cfg)]) == Repeated(Failed(0.0), Spare(cfg)) + Repeated(Failed(0.0), cfg.maxAttempts)
  {
    var before := Repeated(Failing<T>(cfg), Spare(cfg));
    var calls := before + [TimingOut(cfg)];
    FailingRun<T>(cfg, Spare(cfg));
    assert calls[..|calls| - 1] == before;
    TraceOfAll(cfg, calls);
    TimingOutMarks<T>(cfg, Run(cfg, before));
  }

  /** The bound on failures in a row is reached: as many failures as the breaker takes, then a call that only times out. */
  lemma AmortisedBoundIsReached<T(!new)>(cfg: Config)
    requires cfg.maxAttempts >= 1
    ensures var calls := Repeated(Failing<T>(cfg), Spare(cfg)) + [TimingOut(cfg)];
            Supplied(cfg, calls) && FailuresInARow(Trace(cfg, calls)) == Allowed(cfg) == Spare(cfg) + cfg.maxAttempts
  {
    var calls := Repeated(Failing<T>(cfg), Spare(cfg)) + [TimingOut(cfg)];
    TimingOutTrace<T>(cfg);
    BothAddUp(Trace(cfg, calls), Spare(cfg), cfg.maxAttempts);
    AllowedIs(cfg);
  }

  lemma BothAddUp(trace: seq<Mark>, m: nat, n: nat)
    requires trace == Repeated(Failed(0.0), m) + Repeated(Failed(0.0), n)
    ensures FailuresInARow(trace) == m + n
  {
    RepeatedConcat(Failed(0.0), m, n);
    FailuresAddUp(m + n);
  }

  lemma AllStartAtNought<T(!new)>(cfg: Config, value: T)
    ensures ForwardStarts(OpenAndRecover(cfg, value) + [Recovering(cfg, value)])
  {
    var calls := OpenAndRecover(cfg, value) + [Recovering(cfg, value)];
    assert forall i :: 0 <= i < |calls| ==> calls[i].start == 0.0;
  }

  /**
   With two attempts or more a success inside the call that opens the breaker closes it on the spot,
   and the next call, starting at that very instant, gets through.
   */
  lemma SuccessSkipsTheCooldown<T(!new)>(cfg: Config, value: T)
    requires cfg.maxAttempts >= 2 && cfg.cooldown > 0.0
    ensures var calls := OpenAndRecover(cfg, value);
            && Supplied(cfg, calls) && |Recovering(cfg, value).attempts| >= cfg.maxAttempts
            && ForwardStarts(calls + [Recovering(cfg, value)])
            && Breach(cfg, calls, Recovering(cfg, value), Spare(cfg))
  {
    OpenAndRecoverTrace(cfg, value);
    OneTooMany(cfg, Trace(cfg, OpenAndRecover(cfg, value)));
    AllStartAtNought(cfg, value);
    RecoveringMarks(cfg, Breaker(0, None), value);
  }

  /** For a positive cooldown, no call gets through within a cooldown of an opening if and only if a call makes at most one attempt. */
  lemma CooldownIsRespectedIff<T(!new)>(cfg: Config, value: T)
    requires cfg.cooldown > 0.0
    ensures (forall calls: seq<Call<T>>, call: Call<T>, n: nat |
               Supplied(cfg, calls) && |call.attempts| >= cfg.maxAttempts && ForwardStarts(calls + [call]) ::
               !Breach(cfg, calls, call, n))
            <==> cfg.maxAttempts <= 1
  {
    if cfg.maxAttempts <= 1 {
      forall calls: seq<Call<T>>, call: Call<T>, n: nat |
        Supplied(cfg, calls) && |call.attempts| >= cfg.maxAttempts && ForwardStarts(calls + [call])
        ensures !Breach(cfg, calls, call, n)
      {
        SingleAttemptsRespectTheCooldown(cfg, calls, call, n);
      }
    } else {
      SuccessSkipsTheCooldown(cfg, value);
    }
  }
}
