/** The wait for provider capacity in backend/src/long_invest/bootstrap/history_backfills.py. Time is in exact
    seconds; the clock never runs backward and a sleep lasts at least as long as it was asked to. */
module RetryLoop {

  datatype Reply<T> = Bars(bars: T) | CallError(code: string) | HttpError(code: string, retryable: bool)

  datatype Outcome<T> = Returned(bars: T) | Raised(error: Reply<T>) | TimedOut

  /** What the n-th provider call answers and how long it takes, and by how much the sleep after it overruns. */
  datatype Provider<!T> = Provider(reply: nat -> Reply<T>, took: nat -> real, overslept: nat -> real)

  ghost predicate ForwardClock<T(!new)>(p: Provider<T>) {
    forall n: nat :: p.took(n) >= 0.0 && p.overslept(n) >= 0.0
  }

  /** The errors that mean "no capacity yet". */
  predicate NoCapacity(code: string) {
    code == "PROVIDER_RATE_LIMITED" || code == "PROVIDER_CIRCUIT_OPEN"
  }

  function Min(a: real, b: real): real {
    if a <= b then a else b
  }

  function Ceiling(x: real): int {
    -((-x).Floor)
  }

  // ----- the schedule of calls, call by call -----

  /** HTTP failures among the first `n` calls. */
  function Failures<T>(p: Provider<T>, n: nat): (f: nat)
    ensures f <= n
  {
    if n == 0 then 0 else Failures(p, n - 1) + if p.reply(n - 1).HttpError? then 1 else 0
  }

  function Pow2(n: nat): (r: real)
    ensures r >= 1.0
  {
    if n == 0 then 1.0 else 2.0 * Pow2(n - 1)
  }

  /** The pause after call `n`, before it is cut at the deadline. */
  function Backoff<T>(p: Provider<T>, n: nat): (r: real)
    ensures r >= 0.25
  {
    if p.reply(n).HttpError? then 0.25 * Pow2(Failures(p, n)) else 0.25
  }

  function CallEnds<T>(p: Provider<T>, start: real, deadline: real, n: nat): real
    decreases n, 1
  {
    CallStarts(p, start, deadline, n) + p.took(n)
  }

  function CallStarts<T>(p: Provider<T>, start: real, deadline: real, n: nat): real
    decreases n, 0
  {
    if n == 0 then start
    else
      var ended := CallEnds(p, start, deadline, n - 1);
      ended + Min(Backoff(p, n - 1), deadline - ended) + p.overslept(n - 1)
  }

  /** An answer that another call may follow. */
  predicate Tolerated<T>(p: Provider<T>, n: nat) {
    match p.reply(n)
    case Bars(_) => false
    case CallError(code) => NoCapacity(code)
    case HttpError(_, retryable) => retryable && Failures(p, n) < 2
  }

  predicate Continues<T>(p: Provider<T>, start: real, deadline: real, n: nat) {
    Tolerated(p, n) && CallEnds(p, start, deadline, n) < deadline
  }

  function OutcomeAt<T>(p: Provider<T>, n: nat): Outcome<T> {
    match p.reply(n)
    case Bars(b) => Returned(b)
    case error => if Tolerated(p, n) then TimedOut else Raised(error)
  }

  /** The loop makes the calls 0 to `last` and stops there. */
  predicate StopsAfter<T>(p: Provider<T>, start: real, deadline: real, last: nat) {
    && !Continues(p, start, deadline, last)
    && forall n | 0 <= n < last :: Continues(p, start, deadline, n)
  }

  /** How many calls a loop with `left` seconds to go can make. */
  function MostCalls(left: real): (n: nat)
    ensures n >= 1
  {
    if left <= 0.0 then 1 else Ceiling(4.0 * left) + 1
  }

  // ----- the loop -----

  method WaitForHistoryCapacity<T(!new)>(p: Provider<T>, start: real, deadline: real)
    returns (outcome: Outcome<T>, calls: nat, ended: real)
    requires ForwardClock(p)
    ensures calls > 0 && StopsAfter(p, start, deadline, calls - 1)
    ensures outcome == OutcomeAt(p, calls - 1)
    ensures ended == CallEnds(p, start, deadline, calls - 1)
    ensures calls <= MostCalls(deadline - start)
  {
    var now, failedAttempts := start, 0;
    calls := 0;
    while true
      invariant now == CallStarts(p, start, deadline, calls) && failedAttempts == Failures(p, calls)
      invariant forall n | 0 <= n < calls :: Continues(p, start, deadline, n)
      decreases MostCalls(deadline - start) - calls
    {
      CallsInTime(p, start, deadline, calls);
      var reply := p.reply(calls);
      now := now + p.took(calls);
      calls := calls + 1;
      match reply {
        case Bars(bars) => return Returned(bars), calls, now;
        case CallError(code) =>
          if !NoCapacity(code) { return Raised(reply), calls, now; }
          var remaining := deadline - now;
          if remaining <= 0.0 { return TimedOut, calls, now; }
          now := now + Min(0.25, remaining) + p.overslept(calls - 1);
        case HttpError(_, retryable) =>
          failedAttempts := failedAttempts + 1;
          if !retryable || failedAttempts >= 3 { return Raised(reply), calls, now; }
          var remaining := deadline - now;
          if remaining <= 0.0 { return TimedOut, calls, now; }
          now := now + Min(0.25 * Pow2(failedAttempts - 1), remaining) + p.overslept(calls - 1);
      }
      CallsInTime(p, start, deadline, calls);
    }
  }

  // ----- how many calls -----

  /** While the loop goes on, every call starts a quarter second after the one before, unless the deadline has come. */
  lemma {:induction false} CallsKeepApart<T(!new)>(p: Provider<T>, start: real, deadline: real, n: nat)
    requires ForwardClock(p)
    requires forall k | 0 <= k < n :: Continues(p, start, deadline, k)
    ensures CallStarts(p, start, deadline, n) >= deadline || CallStarts(p, start, deadline, n) >= start + n as real / 4.0
  {
    if n > 0 {
      CallsKeepApart(p, start, deadline, n - 1);
      assert Continues(p, start, deadline, n - 1);
    }
  }

  lemma CallsInTime<T(!new)>(p: Provider<T>, start: real, deadline: real, n: nat)
    requires ForwardClock(p)
    requires forall k | 0 <= k < n :: Continues(p, start, deadline, k)
    ensures n < MostCalls(deadline - start)
  {
    if n > 0 {
      assert Continues(p, start, deadline, n - 1);
      CallsKeepApart(p, start, deadline, n - 1);
      assert (n - 1) as real < 4.0 * (deadline - start);
      BelowCeiling(n - 1, 4.0 * (deadline - start));
    }
  }

  lemma BelowCeiling(n: int, x: real)
    requires n as real < x
    ensures n < Ceiling(x)
  {
  }

  /** The loop stops at one definite call, so the schedule determines what it does. */
  lemma StopIsUnique<T>(p: Provider<T>, start: real, deadline: real, a: nat, b: nat)
    requires StopsAfter(p, start, deadline, a) && StopsAfter(p, start, deadline, b)
    ensures a == b
  {
  }

  /** It does stop, whatever the provider answers, within the bound. */
  lemma {:induction false} AlwaysStops<T(!new)>(p: Provider<T>, start: real, deadline: real, n: nat) returns (last: nat)
    requires ForwardClock(p)
    requires forall k | 0 <= k < n :: Continues(p, start, deadline, k)
    ensures StopsAfter(p, start, deadline, last) && n <= last < MostCalls(deadline - start)
    decreases MostCalls(deadline - start) - n
  {
    CallsInTime(p, start, deadline, n);
    if Continues(p, start, deadline, n) {
      CallsInTime(p, start, deadline, n + 1);
      last := AlwaysStops(p, start, deadline, n + 1);
    } else {
      last := n;
    }
  }

  /** A provider that is never free, with a clock that wastes no time. */
  function AlwaysBusy(code: string): Provider<int> {
    Provider(_ => CallError(code), _ => 0.0, _ => 0.0)
  }

  /** The bound is met for every number of seconds left, and for both errors that mean "no capacity": the busy provider
      is called exactly that often. */
  lemma MostCallsAreMade(code: string, start: real, deadline: real)
    requires code == "PROVIDER_RATE_LIMITED" || code == "PROVIDER_CIRCUIT_OPEN"
    ensures StopsAfter(AlwaysBusy(code), start, deadline, MostCalls(deadline - start) - 1)
  {
    var p := AlwaysBusy(code);
    var most := MostCalls(deadline - start);
    if deadline > start {
      forall n | 0 <= n < most - 1 ensures Continues(p, start, deadline, n) {
        assert (n as real) < 4.0 * (deadline - start);
        BusyCallStarts(code, start, deadline, n);
      }
      BusyCallStarts(code, start, deadline, most - 2);
      assert 4.0 * (deadline - start) <= (most - 1) as real;
      assert Backoff(p, most - 2) == 0.25;
      assert deadline - CallEnds(p, start, deadline, most - 2) <= 0.25;
      assert CallEnds(p, start, deadline, most - 1) == deadline;
    }
  }

  lemma {:induction false} BusyCallStarts(code: string, start: real, deadline: real, n: nat)
    requires start + n as real / 4.0 < deadline
    ensures CallStarts(AlwaysBusy(code), start, deadline, n) == start + n as real / 4.0
  {
    if n > 0 { BusyCallStarts(code, start, deadline, n - 1); }
  }

  // ----- how it ends -----

  /** HTTP failures among the answers to the first `n` calls. */
  function FailedCalls<T>(p: Provider<T>, n: nat): set<nat> {
    set k | 0 <= k < n && p.reply(k).HttpError?
  }

  lemma {:induction false} FailuresCounted<T>(p: Provider<T>, n: nat)
    ensures Failures(p, n) == |FailedCalls(p, n)|
  {
    if n > 0 {
      FailuresCounted(p, n - 1);
      assert FailedCalls(p, n) == FailedCalls(p, n - 1) + if p.reply(n - 1).HttpError? then {n - 1} else {};
    }
  }

  /** After call `last` the loop returns its bars; or raises its error, when that is not one of the two capacity errors,
      not a retryable HTTP failure, or the third HTTP failure; or gives up because the deadline has come. */
  lemma OutcomeMeans<T>(p: Provider<T>, start: real, deadline: real, last: nat)
    requires StopsAfter(p, start, deadline, last)
    ensures match p.reply(last)
            case Bars(bars) => OutcomeAt(p, last) == Returned(bars)
            case CallError(code) =>
              if code == "PROVIDER_RATE_LIMITED" || code == "PROVIDER_CIRCUIT_OPEN"
              then OutcomeAt(p, last) == TimedOut && CallEnds(p, start, deadline, last) >= deadline
              else OutcomeAt(p, last) == Raised(CallError(code))
            case HttpError(code, retryable) =>
              if retryable && |FailedCalls(p, last)| < 2
              then OutcomeAt(p, last) == TimedOut && CallEnds(p, start, deadline, last) >= deadline
              else OutcomeAt(p, last) == Raised(HttpError(code, retryable))
    ensures forall n | 0 <= n < last ::
              match p.reply(n)
              case Bars(_) => false
              case CallError(code) => code == "PROVIDER_RATE_LIMITED" || code == "PROVIDER_CIRCUIT_OPEN"
              case HttpError(_, retryable) => retryable && |FailedCalls(p, n)| < 2
  {
    FailuresCounted(p, last);
    forall n | 0 <= n < last
      ensures match p.reply(n)
              case Bars(_) => false
              case CallError(code) => code == "PROVIDER_RATE_LIMITED" || code == "PROVIDER_CIRCUIT_OPEN"
              case HttpError(_, retryable) => retryable && |FailedCalls(p, n)| < 2
    {
      assert Continues(p, start, deadline, n);
      FailuresCounted(p, n);
    }
  }

  // ----- what every run keeps -----

  /** At most two HTTP failures are tolerated, the third is the last answer; each pause is positive, ends no
      later than the deadline by its own request, and after an HTTP failure is a quarter or half a second or
      what is left. */
  lemma {:induction false} PausesAndFailures<T>(p: Provider<T>, start: real, deadline: real, last: nat)
    requires StopsAfter(p, start, deadline, last)
    ensures Failures(p, last) <= 2 && Failures(p, last + 1) <= 3
    ensures Failures(p, last + 1) == 3 ==> p.reply(last).HttpError? && OutcomeAt(p, last) == Raised(p.reply(last))
    ensures forall n | 0 <= n < last ::
              var ended := CallEnds(p, start, deadline, n);
              var pause := Min(Backoff(p, n), deadline - ended);
              0.0 < pause && ended + pause <= deadline
              && (p.reply(n).HttpError? ==> pause == Min(if Failures(p, n) == 0 then 0.25 else 0.5, deadline - ended))
  {
    FewFailures(p, start, deadline, last);
    forall n | 0 <= n < last
      ensures p.reply(n).HttpError? ==> Backoff(p, n) == if Failures(p, n) == 0 then 0.25 else 0.5
    {
      assert Continues(p, start, deadline, n);
      assert Pow2(0) == 1.0 && Pow2(1) == 2.0;
    }
    forall n | 0 <= n < last ensures CallEnds(p, start, deadline, n) < deadline {
      assert Continues(p, start, deadline, n);
    }
  }

  lemma {:induction false} FewFailures<T>(p: Provider<T>, start: real, deadline: real, n: nat)
    requires forall k | 0 <= k < n :: Continues(p, start, deadline, k)
    ensures Failures(p, n) <= 2
  {
    if n > 0 {
      FewFailures(p, start, deadline, n - 1);
      assert Continues(p, start, deadline, n - 1);
    }
  }
}
