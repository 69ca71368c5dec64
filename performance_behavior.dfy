/** The timing pipeline behavior (Application/Pipeline/PerformanceBehavior.cs).

    `RequestCounter.ExecutionCount` is a static `int` shared by every instance;
    here it is one `RequestCounter` object the behaviors hold. The stopwatch
    reading and the outcome of `next` are parameters; the log warning is an
    out-parameter. */
module PerformanceBehavior {
  import opened Wrappers
  import opened Text

  /** Calls with a counter value up to this are never timed. */
  const WarmUpCalls: int := 3
  /** A timed call taking strictly longer than this many milliseconds is logged. */
  const SlowThresholdMs: int := 500

  /** The static `RequestCounter` class. */
  class RequestCounter {
    var executionCount: Int32

    constructor ()
      ensures executionCount == 0
    {
      executionCount := 0;
    }

    /** `Interlocked.Increment(ref ExecutionCount)`: wraps from `int.MaxValue` to `int.MinValue`. */
    method Increment() returns (n: Int32)
      modifies this
      ensures executionCount == Wrap32(old(executionCount) + 1) && n == executionCount
    {
      executionCount := Wrap32(executionCount + 1);
      n := executionCount;
    }
  }

  /** The "Long-running request detected" log entry: the request type's name,
      the elapsed time, the request itself (logged destructured) and the user. */
  datatype Warning<Req> = LongRunning(requestName: string, elapsedMs: int, request: Req, userName: Option<string>)

  /** One call seen from outside: the counter afterwards, whether a timer ran,
      the response, and the warning logged, if any. */
  datatype PerfStep<Req, R> = PerfStep(count: Int32, timed: bool, response: Outcome<R>, warning: Option<Warning<Req>>)

  /** The timer starts when the counter, after the increment, exceeds three. */
  predicate Timed(count: Int32)
  {
    count > WarmUpCalls
  }

  /** One `Handle` call with the counter at `count`, `next` yielding `next`, and
      `next` taking `elapsedMs` milliseconds. */
  function HandleSpec<Req, R>(count: Int32, requestName: string, request: Req, userName: Option<string>, next: Outcome<R>, elapsedMs: int)
    : (s: PerfStep<Req, R>)
    ensures s.response == next
    ensures count < MaxInt32 ==> s.count == count + 1
    ensures count == MaxInt32 ==> s.count == MinInt32
    ensures s.timed <==> s.count > 3
    ensures s.warning.Some? <==> s.timed && next.Ok? && elapsedMs > SlowThresholdMs
    ensures s.warning.Some? ==> s.warning.value == LongRunning(requestName, elapsedMs, request, userName)
  {
    var n := Wrap32(count + 1);
    var timed := Timed(n);
    var warning :=
      if next.Ok? && timed && elapsedMs > SlowThresholdMs then Some(LongRunning(requestName, elapsedMs, request, userName))
      else None;
    PerfStep(n, timed, next, warning)
  }

  /** PerformanceBehavior<TRequest, TResponse> sharing one counter. */
  class PerformanceBehavior {
    const counter: RequestCounter

    constructor (counter: RequestCounter)
      ensures this.counter == counter
    {
      this.counter := counter;
    }

    /** `Handle`: count the call, time it after the warm-up, run `next`, warn if slow. */
    method Handle<Req, R>(requestName: string, request: Req, userName: Option<string>, next: Outcome<R>, elapsedMs: int)
      returns (response: Outcome<R>, warning: Option<Warning<Req>>)
      modifies counter
      ensures var s := HandleSpec(old(counter.executionCount), requestName, request, userName, next, elapsedMs);
        && counter.executionCount == s.count && response == s.response && warning == s.warning
    {
      var timer: Option<int> := None;
      var n := counter.Increment();
      if n > WarmUpCalls {
        timer := Some(elapsedMs);
      }
      if next.Thrown? {
        return next, None;
      }
      response := next;
      warning := None;
      if timer.Some? && timer.value > SlowThresholdMs {
        warning := Some(LongRunning(requestName, timer.value, request, userName));
      }
    }
  }

  /** Whether each of a run of successful calls logs a warning, starting with
      the counter at `start`; `elapsed[i]` is how long call `i` takes. */
  function RunWarnings(start: Int32, elapsed: seq<int>): (w: seq<bool>)
    ensures |w| == |elapsed|
    decreases |elapsed|
  {
    if |elapsed| == 0 then []
    else
      var s := HandleSpec<(), ()>(start, "", (), None, Ok(()), elapsed[0]);
      [s.warning.Some?] + RunWarnings(s.count, elapsed[1..])
  }

  /** Below `int.MaxValue`, call `i` of a run sees the counter at `start + i + 1`:
      it warns exactly when that exceeds three and it took more than 500 ms. */
  lemma {:induction false} RunWarningsRule(start: Int32, elapsed: seq<int>)
    requires 0 <= start && start + |elapsed| <= MaxInt32
    ensures forall i :: 0 <= i < |elapsed| ==>
      RunWarnings(start, elapsed)[i] == (start + i + 1 > WarmUpCalls && elapsed[i] > SlowThresholdMs)
    decreases |elapsed|
  {
    if |elapsed| > 0 {
      RunWarningsRule(start + 1, elapsed[1..]);
      var w := RunWarnings(start, elapsed);
      assert w[1..] == RunWarnings(start + 1, elapsed[1..]);
      forall i | 1 <= i < |elapsed|
        ensures w[i] == (start + i + 1 > WarmUpCalls && elapsed[i] > SlowThresholdMs)
      {
        assert w[i] == w[1..][i - 1];
        assert elapsed[i] == elapsed[1..][i - 1];
      }
    }
  }

  /** From a fresh counter, the first three calls are never logged however long
      they take, and every later call (below `int.MaxValue`) is logged exactly
      when it takes more than 500 ms. */
  lemma WarmUpNeverLogs(elapsed: seq<int>)
    requires |elapsed| <= MaxInt32
    ensures forall i :: 0 <= i < |elapsed| && i < 3 ==> !RunWarnings(0, elapsed)[i]
    ensures forall i :: 3 <= i < |elapsed| ==> RunWarnings(0, elapsed)[i] == (elapsed[i] > SlowThresholdMs)
  {
    RunWarningsRule(0, elapsed);
  }

  /** The counter only ever grows while below `int.MaxValue`; the increment
      after `int.MaxValue` wraps it to `int.MinValue`, after which calls are
      untimed again until it climbs back above three. */
  lemma CounterWrap<Req, R>(count: Int32, name: string, request: Req, user: Option<string>, next: Outcome<R>, elapsedMs: int)
    ensures count < MaxInt32 ==> HandleSpec(count, name, request, user, next, elapsedMs).count > count
    ensures count == MaxInt32 ==>
      var s := HandleSpec(count, name, request, user, next, elapsedMs);
      s.count == MinInt32 && !s.timed && s.warning.None?
  {
  }
}
