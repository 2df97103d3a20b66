/**
 callPiApi (payment.service.ts): a retry loop with exponential backoff, guarded by a circuit breaker.
 Times are in milliseconds.  The outcome and the duration of the k-th attempt (from 1) are inputs.
 */
module PiApi {
  import opened Prelude

  const CIRCUIT_THRESHOLD: int := 5
  const CIRCUIT_TIMEOUT: int := 60000
  const BACKOFF: int := 500

  /** What fetch does: a 2xx response, any other status, an abort by the timeout, or another exception. */
  datatype Attempt = Ok2xx | HttpError(status: int) | Aborted | NetworkError

  datatype ErrorType = AbortType | NetworkType | HttpType

  datatype CallResult =
    | Response
    | ConfigError
    | CircuitOpen
    | Rejected(status: int)
    | Exhausted(last: ErrorType)

  /** One call: when it starts, and how its attempts would turn out and how long they would take. */
  datatype Call = Call(hasKey: bool, start: int, outcomes: seq<Attempt>, durations: seq<nat>)

  /** The k-th attempt; past the end of the list the network is down. */
  function OutcomeAt(os: seq<Attempt>, k: int): Attempt {
    if 1 <= k <= |os| then os[k - 1] else NetworkError
  }

  function DurationAt(ds: seq<nat>, k: int): nat {
    if 1 <= k <= |ds| then ds[k - 1] else 0
  }

  predicate Retryable(a: Attempt) {
    match a
    case Ok2xx => false
    case HttpError(status) => status == 429 || status >= 500
    case _ => true
  }

  function TypeOf(a: Attempt): ErrorType {
    match a
    case HttpError(_) => HttpType
    case Aborted => AbortType
    case _ => NetworkType
  }

  // ---- Pure specification -------------------------------------------------------------------

  /** The first attempt among `from`, ..., `max` that is not retryable. */
  function FirstDecisive(os: seq<Attempt>, from: nat, max: int): (r: Option<nat>)
    ensures r.Some? ==>
              && from <= r.value <= max && !Retryable(OutcomeAt(os, r.value))
              && forall k: nat :: from <= k < r.value ==> Retryable(OutcomeAt(os, k))
    ensures r.None? ==> forall k: nat :: from <= k <= max ==> Retryable(OutcomeAt(os, k))
    decreases max - from
  {
    if from > max then None
    else if !Retryable(OutcomeAt(os, from)) then Some(from)
    else FirstDecisive(os, from + 1, max)
  }

  /** The first success or first non-retryable status within max attempts, else the error of the last attempt. */
  function ResultOf(os: seq<Attempt>, max: int): CallResult {
    match FirstDecisive(os, 1, max)
    case Some(k) => (match OutcomeAt(os, k) case HttpError(status) => Rejected(status) case _ => Response)
    case None => Exhausted(if max >= 1 then TypeOf(OutcomeAt(os, max)) else NetworkType)
  }

  function AttemptsOf(os: seq<Attempt>, max: int): nat {
    match FirstDecisive(os, 1, max)
    case Some(k) => k
    case None => if max >= 1 then max else 0
  }

  /** The backoff before attempt n + 1: the sum of 500 * 2^(k - 1) over the first n attempts, in closed form. */
  function BackoffTotal(n: nat): int {
    BACKOFF * (Pow2(n) - 1)
  }

  /** Every attempt but the last one made sleeps. */
  function SleptOf(os: seq<Attempt>, max: int): int {
    if AttemptsOf(os, max) == 0 then 0 else BackoffTotal(AttemptsOf(os, max) - 1)
  }

  function TotalDuration(ds: seq<nat>, n: nat): nat {
    if n == 0 then 0 else TotalDuration(ds, n - 1) + DurationAt(ds, n)
  }

  datatype Breaker = Breaker(failures: int, openUntil: int, clock: int, fetches: int)

  const RESET := Breaker(0, 0, 0, 0)

  function EndOf(c: Call, max: int): int {
    c.start + TotalDuration(c.durations, AttemptsOf(c.outcomes, max)) + SleptOf(c.outcomes, max)
  }

  function CallSpec(b: Breaker, c: Call, max: int): (Breaker, CallResult) {
    if !c.hasKey then (b.(clock := c.start), ConfigError)
    else if b.openUntil > c.start then (b.(clock := c.start), CircuitOpen)
    else
      var result := ResultOf(c.outcomes, max);
      var end := EndOf(c, max);
      var failures := match result case Response => 0 case Exhausted(_) => b.failures + 1 case _ => b.failures;
      var openUntil := if result.Exhausted? && failures >= CIRCUIT_THRESHOLD then end + CIRCUIT_TIMEOUT else b.openUntil;
      (Breaker(failures, openUntil, end, b.fetches + AttemptsOf(c.outcomes, max)), result)
  }

  lemma DecisiveAt(os: seq<Attempt>, max: int, k: nat)
    requires 1 <= k <= max && forall j: nat :: 1 <= j < k ==> Retryable(OutcomeAt(os, j))
    requires OutcomeAt(os, k) == Ok2xx || (OutcomeAt(os, k).HttpError? && OutcomeAt(os, k).status != 429 && OutcomeAt(os, k).status < 500)
    ensures AttemptsOf(os, max) == k && SleptOf(os, max) == BackoffTotal(k - 1)
    ensures ResultOf(os, max) == match OutcomeAt(os, k) case HttpError(status) => Rejected(status) case _ => Response
  {
    assert FirstDecisive(os, 1, max) == Some(k);
  }

  lemma NeverDecisive(os: seq<Attempt>, max: int)
    requires forall k: nat :: 1 <= k <= max ==> Retryable(OutcomeAt(os, k))
    ensures AttemptsOf(os, max) == Max(max, 0)
    ensures SleptOf(os, max) == BackoffTotal(Max(max - 1, 0))
    ensures ResultOf(os, max) == Exhausted(if max >= 1 then TypeOf(OutcomeAt(os, max)) else NetworkType)
  {
    assert FirstDecisive(os, 1, max) == None;
  }

  ghost function Itself(): nat -> int {
    (d: nat) => d
  }

  lemma {:induction false} DurationsAddUp(ds: seq<nat>, n: nat)
    requires n <= |ds|
    ensures TotalDuration(ds, n) == Sum(ds[..n], Itself())
  {
    if n > 0 {
      DurationsAddUp(ds, n - 1);
      assert ds[..n][..n - 1] == ds[..n - 1];
    }
  }

  /** A call ends after its attempts and the sleeps between them. */
  lemma CallEnds(c: Call, max: int)
    requires AttemptsOf(c.outcomes, max) <= |c.durations|
    ensures EndOf(c, max) == c.start + Sum(c.durations[..AttemptsOf(c.outcomes, max)], Itself()) + SleptOf(c.outcomes, max)
  {
    DurationsAddUp(c.durations, AttemptsOf(c.outcomes, max));
  }

  // ---- The loop -----------------------------------------------------------------------------

  class PiClient {
    var circuitFailures: int
    var circuitOpenUntil: int
    var clock: int
    var fetches: int
    var slept: int

    function Snapshot(): Breaker
      reads this
    {
      Breaker(circuitFailures, circuitOpenUntil, clock, fetches)
    }

    constructor ()
      ensures Snapshot() == RESET && slept == 0
    {
      circuitFailures, circuitOpenUntil, clock, fetches, slept := 0, 0, 0, 0, 0;
    }

    method Sleep(ms: int)
      modifies this`clock, this`slept
      ensures clock == old(clock) + ms && slept == old(slept) + ms
    {
      clock, slept := clock + ms, slept + ms;
    }

    method CallPiApi(c: Call, max: int) returns (r: CallResult)
      modifies this
      ensures (Snapshot(), r) == CallSpec(old(Snapshot()), c, max)
      ensures slept == old(slept) + (if r.ConfigError? || r.CircuitOpen? then 0 else SleptOf(c.outcomes, max))
      ensures r.ConfigError? <==> !c.hasKey
      ensures r.CircuitOpen? <==> c.hasKey && c.start < old(circuitOpenUntil)
    {
      clock := c.start;
      if !c.hasKey {
        return ConfigError;
      }
      if circuitOpenUntil > clock {
        return CircuitOpen;
      }
      var lastErrorType := NetworkType;
      var attempt := 1;
      while attempt <= max
        invariant 1 <= attempt <= Max(max, 0) + 1
        invariant forall k: nat :: 1 <= k < attempt ==> Retryable(OutcomeAt(c.outcomes, k))
        invariant lastErrorType == if attempt > 1 then TypeOf(OutcomeAt(c.outcomes, attempt - 1)) else NetworkType
        invariant fetches == old(fetches) + attempt - 1
        invariant slept == old(slept) + BackoffTotal(Max(Min(attempt - 1, max - 1), 0))
        invariant clock == c.start + TotalDuration(c.durations, attempt - 1) + (slept - old(slept))
        invariant circuitFailures == old(circuitFailures) && circuitOpenUntil == old(circuitOpenUntil)
      {
        var outcome := OutcomeAt(c.outcomes, attempt);
        fetches := fetches + 1;
        clock := clock + DurationAt(c.durations, attempt);
        if outcome.Ok2xx? {
          DecisiveAt(c.outcomes, max, attempt);
          circuitFailures := 0;
          return Response;
        } else if outcome.HttpError? {
          lastErrorType := HttpType;
          if outcome.status != 429 && outcome.status < 500 {
            DecisiveAt(c.outcomes, max, attempt);
            return Rejected(outcome.status);
          }
        } else {
          lastErrorType := if outcome.Aborted? then AbortType else NetworkType;
        }
        BackoffDoubles(attempt - 1);
        if attempt < max {
          Sleep(BACKOFF * Pow2(attempt - 1));
        }
        attempt := attempt + 1;
      }
      NeverDecisive(c.outcomes, max);
      circuitFailures := circuitFailures + 1;
      if circuitFailures >= CIRCUIT_THRESHOLD {
        circuitOpenUntil := clock + CIRCUIT_TIMEOUT;
      }
      r := Exhausted(lastErrorType);
    }
  }

  /** The closed form is the backoff schedule: each attempt doubles the sleep, and an exhausted call sleeps 500 * (2^(max - 1) - 1) ms. */
  lemma BackoffDoubles(n: nat)
    ensures BackoffTotal(n + 1) == BackoffTotal(n) + BACKOFF * Pow2(n)
    ensures BackoffTotal(0) == 0
  {
  }

  lemma ExhaustedCallSleeps(os: seq<Attempt>, max: int)
    requires max >= 1
    ensures ResultOf(os, max).Exhausted?
            <==> forall k: nat :: 1 <= k <= max ==>
                   OutcomeAt(os, k) != Ok2xx && (OutcomeAt(os, k).HttpError? ==> OutcomeAt(os, k).status == 429 || OutcomeAt(os, k).status >= 500)
    ensures ResultOf(os, max).Exhausted? ==> AttemptsOf(os, max) == max && SleptOf(os, max) == BACKOFF * (Pow2(max - 1) - 1)
  {
  }

  // ---- The breaker over whole runs ----------------------------------------------------------

  function RunCalls(cs: seq<Call>, max: int): Breaker {
    if |cs| == 0 then RESET else CallSpec(RunCalls(cs[..|cs| - 1], max), cs[|cs| - 1], max).0
  }

  /** How the calls of a run end, one by one. */
  function Results(cs: seq<Call>, max: int): (results: seq<CallResult>)
    ensures |results| == |cs|
  {
    if |cs| == 0 then []
    else Results(cs[..|cs| - 1], max) + [CallSpec(RunCalls(cs[..|cs| - 1], max), cs[|cs| - 1], max).1]
  }

  /** How many calls have been exhausted since the last one that got a response. */
  function Streak(results: seq<CallResult>): nat {
    if |results| == 0 then 0
    else
      var before := Streak(results[..|results| - 1]);
      match results[|results| - 1]
      case Response => 0
      case Exhausted(_) => before + 1
      case _ => before
  }

  /** When the last exhausted call of a run ended. */
  function LastExhaustedAt(cs: seq<Call>, max: int): int {
    if |cs| == 0 then 0
    else if Results(cs, max)[|cs| - 1].Exhausted? then RunCalls(cs, max).clock
    else LastExhaustedAt(cs[..|cs| - 1], max)
  }

  /** The calls start one after the other, none before time 0. */
  predicate StartsInOrder(cs: seq<Call>) {
    && (forall i :: 0 <= i < |cs| ==> 0 <= cs[i].start)
    && (forall i, j :: 0 <= i < j < |cs| ==> cs[i].start <= cs[j].start)
  }

  /**
   The breaker counts the exhausted calls since the last response; from the fifth on the circuit is open for a minute
   from the end of the last of them, and before that it is not open any more when the last call starts.
   */
  ghost predicate Breaks(cs: seq<Call>, max: int) {
    var b, streak := RunCalls(cs, max), Streak(Results(cs, max));
    && b.failures == streak
    && (streak >= 5 ==> b.openUntil == LastExhaustedAt(cs, max) + 60000)
    && (streak < 5 ==> b.openUntil <= if |cs| == 0 then 0 else cs[|cs| - 1].start)
  }

  lemma {:induction false} FailuresAreStreak(cs: seq<Call>, max: int)
    requires StartsInOrder(cs)
    ensures Breaks(cs, max)
  {
    if |cs| > 0 {
      var rest := cs[..|cs| - 1];
      FailuresAreStreak(rest, max);
      assert Results(cs, max)[..|rest|] == Results(rest, max);
    }
  }

  /**
   Exactly when a call of such a run finds the circuit open: if five calls or more were exhausted with no response
   between them, and it starts within a minute of the end of the last.
   */
  lemma CircuitOpenIff(cs: seq<Call>, max: int)
    requires StartsInOrder(cs) && |cs| > 0
    ensures var before, c := cs[..|cs| - 1], cs[|cs| - 1];
            Results(cs, max)[|cs| - 1].CircuitOpen?
            <==> c.hasKey && Streak(Results(before, max)) >= 5 && c.start < LastExhaustedAt(before, max) + 60000
  {
    var before := cs[..|cs| - 1];
    FailuresAreStreak(before, max);
    assert Results(cs, max)[|before|] == CallSpec(RunCalls(before, max), cs[|cs| - 1], max).1;
  }

  /** The calls do not overlap, start within [from, to], and meet only retryable failures. */
  ghost predicate Outage(cs: seq<Call>, max: int, from: int, to: int) {
    forall i :: 0 <= i < |cs| ==>
      && from <= cs[i].start <= to
      && RunCalls(cs[..i], max).clock <= cs[i].start
      && forall k: nat :: 1 <= k <= max ==> Retryable(OutcomeAt(cs[i].outcomes, k))
  }

  /** After n exhausted calls the circuit is open until at least 60 s past the start, and 60 s more per call past the fifth. */
  ghost predicate Paced(b: Breaker, max: int, n: int, from: int, to: int) {
    && b.failures == n >= 0
    && b.fetches == max * n
    && (n >= CIRCUIT_THRESHOLD ==>
          && b.openUntil >= from + CIRCUIT_TIMEOUT * (n - CIRCUIT_THRESHOLD + 1)
          && CIRCUIT_TIMEOUT * (n - CIRCUIT_THRESHOLD) <= to - from)
  }

  lemma PacedStep(b: Breaker, c: Call, max: int, n: int, from: int, to: int) returns (n': int)
    requires max >= 1 && from >= 0 && Paced(b, max, n, from, to) && from <= c.start <= to
    requires forall k: nat :: 1 <= k <= max ==> Retryable(OutcomeAt(c.outcomes, k))
    ensures Paced(CallSpec(b, c, max).0, max, n', from, to)
  {
    if !c.hasKey || b.openUntil > c.start {
      n' := n;
    } else {
      n' := n + 1;
      ExhaustedCallSleeps(c.outcomes, max);
      assert max * n' == max * n + max;
    }
  }

  lemma {:induction false} OutagePaced(cs: seq<Call>, max: int, from: int, to: int)
    requires max >= 1 && 0 <= from <= to && Outage(cs, max, from, to)
    ensures exists n :: Paced(RunCalls(cs, max), max, n, from, to)
  {
    if |cs| == 0 {
      assert Paced(RunCalls(cs, max), max, 0, from, to);
    } else {
      var rest := cs[..|cs| - 1];
      assert forall i :: 0 <= i < |rest| ==> rest[..i] == cs[..i] && rest[i] == cs[i];
      OutagePaced(rest, max, from, to);
      var m :| Paced(RunCalls(rest, max), max, m, from, to);
      var n := PacedStep(RunCalls(rest, max), cs[|cs| - 1], max, m, from, to);
      assert Paced(RunCalls(cs, max), max, n, from, to);
    }
  }

  /** An outage of D ms, from a reset breaker, costs at most MAX_RETRIES * (5 + floor(D / 60000)) fetches however many calls are made. */
  lemma OutageFetchesBounded(cs: seq<Call>, max: int, from: int, to: int)
    requires max >= 1 && 0 <= from <= to && Outage(cs, max, from, to)
    ensures RunCalls(cs, max).fetches <= max * (CIRCUIT_THRESHOLD + (to - from) / CIRCUIT_TIMEOUT)
  {
    OutagePaced(cs, max, from, to);
    var n :| Paced(RunCalls(cs, max), max, n, from, to);
    FetchesAtMost(RunCalls(cs, max).fetches, max, n, to - from);
  }

  /** The counting part, on plain numbers. */
  lemma FetchesAtMost(fetches: int, max: int, n: int, d: int)
    requires max >= 1 && d >= 0 && fetches == max * n
    requires n >= CIRCUIT_THRESHOLD ==> CIRCUIT_TIMEOUT * (n - CIRCUIT_THRESHOLD) <= d
    ensures fetches <= max * (CIRCUIT_THRESHOLD + d / CIRCUIT_TIMEOUT)
  {
    if n >= CIRCUIT_THRESHOLD {
      WholePeriods(n - CIRCUIT_THRESHOLD, d);
    }
  }

  lemma WholePeriods(x: int, d: int)
    requires CIRCUIT_TIMEOUT * x <= d
    ensures x <= d / CIRCUIT_TIMEOUT
  {
  }

}
