/** The per-upstream circuit breaker. Its clock is a parameter, in seconds. */
module CircuitBreaker {
  import opened Basics

  datatype Mode = Closed | Open | HalfOpen

  datatype Config = Config(failureThreshold: int, openDuration: int, halfOpenProbes: int)

  datatype Breaker = Breaker(mode: Mode, failures: int, openedAt: real, probesAllowed: int)

  const INITIAL := Breaker(Closed, 0, 0.0, 0)

  function AfterCall(c: Config, s: Breaker, now: real): (Breaker, bool) {
    if s.mode == Open && now - s.openedAt < c.openDuration as real then (s, false)
    else
      var s' := if s.mode == Open then s.(mode := HalfOpen, probesAllowed := c.halfOpenProbes) else s;
      if s'.mode == Closed then (s', true)
      else if s'.probesAllowed <= 0 then (s', false)
      else (s'.(probesAllowed := s'.probesAllowed - 1), true)
  }

  function AfterSuccess(s: Breaker): Breaker {
    s.(mode := Closed, failures := 0)
  }

  function AfterFailure(c: Config, s: Breaker, now: real): Breaker {
    var failures := s.failures + 1;
    if s.mode == HalfOpen || failures >= c.failureThreshold
    then s.(failures := failures, mode := Open, openedAt := now)
    else s.(failures := failures)
  }

  class UpstreamBreaker {
    const config: Config
    var mode: Mode
    var failures: int
    var openedAt: real
    var probesAllowed: int

    ghost function Value(): Breaker
      reads this
    {
      Breaker(mode, failures, openedAt, probesAllowed)
    }

    constructor (config: Config)
      ensures this.config == config && Value() == INITIAL
    {
      this.config := config;
      mode, failures, openedAt, probesAllowed := Closed, 0, 0.0, 0;
    }

    /** false stands for the circuit-open error. */
    method BeforeCall(now: real) returns (admitted: bool)
      modifies this
      ensures (Value(), admitted) == AfterCall(config, old(Value()), now)
    {
      if mode == Open {
        if now - openedAt >= config.openDuration as real {
          mode := HalfOpen;
          probesAllowed := config.halfOpenProbes;
        } else {
          return false;
        }
      }
      if mode == HalfOpen {
        if probesAllowed <= 0 {
          return false;
        }
        probesAllowed := probesAllowed - 1;
      }
      admitted := true;
    }

    method OnSuccess()
      modifies this
      ensures Value() == AfterSuccess(old(Value()))
    {
      mode := Closed;
      failures := 0;
    }

    method OnFailure(now: real)
      modifies this
      ensures Value() == AfterFailure(config, old(Value()), now)
    {
      failures := failures + 1;
      if mode == HalfOpen || failures >= config.failureThreshold {
        mode := Open;
        openedAt := now;
      }
    }
  }

  // ----- Runs -----

  datatype Event = Call(at: real) | Success | Failure(at: real)

  function Step(c: Config, s: Breaker, e: Event): Breaker {
    match e
    case Call(at) => AfterCall(c, s, at).0
    case Success => AfterSuccess(s)
    case Failure(at) => AfterFailure(c, s, at)
  }

  function Run(c: Config, s: Breaker, events: seq<Event>): Breaker
    decreases |events|
  {
    if events == [] then s else Run(c, Step(c, s, events[0]), events[1..])
  }

  /** How many calls of the run pass the breaker. */
  function Admitted(c: Config, s: Breaker, events: seq<Event>): nat
    decreases |events|
  {
    if events == [] then 0
    else
      (if events[0].Call? && AfterCall(c, s, events[0].at).1 then 1 else 0) +
      Admitted(c, Step(c, s, events[0]), events[1..])
  }

  lemma {:induction false} RunSnoc(c: Config, s: Breaker, events: seq<Event>, e: Event)
    ensures Run(c, s, events + [e]) == Step(c, Run(c, s, events), e)
    decreases |events|
  {
    if events == [] {
      assert ([] + [e])[1..] == [];
    } else {
      assert (events + [e])[1..] == events[1..] + [e];
      RunSnoc(c, Step(c, s, events[0]), events[1..], e);
    }
  }

  // ----- The state as a function of the reports -----

  /** Failures reported since the last success. */
  function TrailingFailures(events: seq<Event>): nat {
    if events == [] then 0
    else match events[|events| - 1]
      case Call(_) => TrailingFailures(events[..|events| - 1])
      case Success => 0
      case Failure(_) => TrailingFailures(events[..|events| - 1]) + 1
  }

  /** The failures are counted exactly, and the breaker is closed below the threshold; any threshold under one acts as one. */
  lemma {:induction false} StateFromReports(c: Config, events: seq<Event>)
    ensures Run(c, INITIAL, events).failures == TrailingFailures(events)
    ensures Run(c, INITIAL, events).mode == Closed <==>
      TrailingFailures(events) < if c.failureThreshold < 1 then 1 else c.failureThreshold
  {
    if events != [] {
      var last := |events| - 1;
      StateFromReports(c, events[..last]);
      RunSnoc(c, INITIAL, events[..last], events[last]);
      assert events[..last] + [events[last]] == events;
    }
  }

  datatype Report = Succeeded | Failed

  /** What a history reports, without its calls and times. */
  function Reports(events: seq<Event>): seq<Report> {
    if events == [] then []
    else
      Reports(events[..|events| - 1]) +
      match events[|events| - 1]
      case Call(_) => []
      case Success => [Succeeded]
      case Failure(_) => [Failed]
  }

  function TrailingFailed(reports: seq<Report>): nat {
    if reports == [] || reports[|reports| - 1] == Succeeded then 0 else TrailingFailed(reports[..|reports| - 1]) + 1
  }

  lemma {:induction false} TrailingInReports(events: seq<Event>)
    ensures TrailingFailures(events) == TrailingFailed(Reports(events))
  {
    if events != [] {
      var earlier := Reports(events[..|events| - 1]);
      TrailingInReports(events[..|events| - 1]);
      assert earlier + [] == earlier;
      assert events[|events| - 1].Failure? ==> Reports(events)[..|earlier|] == earlier;
    }
  }

  /** Histories with the same reports agree on the count and on closed, wherever the calls fall and whatever the clock says. */
  lemma ReportsDecide(c: Config, events: seq<Event>, others: seq<Event>)
    requires Reports(events) == Reports(others)
    ensures var s, s' := Run(c, INITIAL, events), Run(c, INITIAL, others);
      s.failures == s'.failures && (s.mode == Closed <==> s'.mode == Closed)
  {
    TrailingInReports(events);
    TrailingInReports(others);
    StateFromReports(c, events);
    StateFromReports(c, others);
  }

  // ----- How many calls an unhealthy upstream can see -----

  predicate TimedWithin(events: seq<Event>, a: real, b: real) {
    if events == [] then a <= b
    else
      var t := if events[0].Success? then a else events[0].at;
      a <= t <= b && TimedWithin(events[1..], t, b)
  }

  predicate NoSuccess(events: seq<Event>) {
    forall n :: 0 <= n < |events| ==> !events[n].Success?
  }

  function Max(a: real, b: real): real {
    if a < b then b else a
  }

  /** Whole open periods that fit into a stretch of time. */
  function Periods(length: real, d: int): int
    requires d >= 1
  {
    (length / d as real).Floor
  }

  lemma PeriodsMonotone(x: real, y: real, d: int)
    requires d >= 1 && x <= y
    ensures Periods(x, d) <= Periods(y, d)
    ensures x >= 0.0 ==> Periods(x, d) >= 0
  {
    DivMonotone(x, y, d as real);
  }

  lemma DivMonotone(x: real, y: real, r: real)
    requires r > 0.0 && x <= y
    ensures x / r <= y / r
    ensures x >= 0.0 ==> x / r >= 0.0
  {
  }

  lemma Quotient(y: real, q: real, r: real)
    requires r > 0.0 && y == q * r
    ensures y / r == q
  {
  }

  lemma DivShift(x: real, r: real)
    requires r > 0.0
    ensures (x - r) / r == x / r - 1.0
  {
    var q := x / r;
    assert (q - 1.0) * r == q * r - r;
    Quotient(x - r, q - 1.0, r);
  }

  lemma PeriodsStep(x: real, d: int)
    requires d >= 1
    ensures Periods(x - d as real, d) == Periods(x, d) - 1
  {
    DivShift(x, d as real);
  }

  /** The probes of the open periods that start between `from` and b. */
  function ProbesUntil(c: Config, from: real, b: real): int
    requires c.openDuration >= 1
  {
    if from <= b then Max0(c.halfOpenProbes) * (Periods(b - from, c.openDuration) + 1) else 0
  }

  lemma ProbesUntilMonotone(c: Config, from: real, later: real, b: real)
    requires c.openDuration >= 1 && from <= later
    ensures 0 <= ProbesUntil(c, later, b) <= ProbesUntil(c, from, b)
  {
    var d, p := c.openDuration, Max0(c.halfOpenProbes);
    if from <= b {
      PeriodsMonotone(b - from, b - from, d);
      ScaledMonotone(p, 0, Periods(b - from, d) + 1);
    }
    if later <= b {
      PeriodsMonotone(b - later, b - from, d);
      PeriodsMonotone(b - later, b - later, d);
      ScaledMonotone(p, 0, Periods(b - later, d) + 1);
      ScaledMonotone(p, Periods(b - later, d) + 1, Periods(b - from, d) + 1);
    }
  }

  /** Skipping one open period costs one batch of probes. */
  lemma ProbesUntilStep(c: Config, from: real, b: real)
    requires c.openDuration >= 1 && from <= b
    ensures ProbesUntil(c, from, b) == Max0(c.halfOpenProbes) + ProbesUntil(c, from + c.openDuration as real, b)
  {
    var d, p := c.openDuration, Max0(c.halfOpenProbes);
    PeriodsStep(b - from, d);
    assert b - from - d as real == b - (from + d as real);
    if b - from < d as real {
      PeriodsMonotone(b - from, b - from, d);
      PeriodsMonotone(b - from - d as real, 0.0, d);
      assert Periods(b - from, d) == 0 by {
      }
    } else {
      assert p * (Periods(b - from, d) + 1) == p + p * Periods(b - from, d);
    }
  }

  /** What the breaker can still admit up to time b, seen from state s at time now. */
  function Budget(c: Config, s: Breaker, now: real, b: real): int
    requires c.openDuration >= 1
  {
    if s.mode == HalfOpen then Max0(s.probesAllowed) + ProbesUntil(c, now + c.openDuration as real, b)
    else ProbesUntil(c, Max(now, s.openedAt + c.openDuration as real), b)
  }

  ghost predicate Unhealthy(c: Config, s: Breaker, now: real) {
    s.mode != Closed && s.openedAt <= now && (s.mode == HalfOpen ==> s.probesAllowed <= Max0(c.halfOpenProbes))
  }

  /** One event other than a success never leaves more budget than it uses up. */
  lemma BudgetStep(c: Config, s: Breaker, now: real, e: Event, b: real)
    requires c.openDuration >= 1 && !e.Success? && now <= e.at <= b && Unhealthy(c, s, now)
    ensures Unhealthy(c, Step(c, s, e), e.at)
    ensures (if e.Call? && AfterCall(c, s, e.at).1 then 1 else 0) + Budget(c, Step(c, s, e), e.at, b) <= Budget(c, s, now, b)
  {
    var d, t := c.openDuration as real, e.at;
    var reopen := Max(now, s.openedAt + d);
    ProbesUntilMonotone(c, now + d, t + d, b);
    if s.mode == Open {
      ProbesUntilMonotone(c, reopen, Max(t, s.openedAt + d), b);
      ProbesUntilMonotone(c, reopen, t + d, b);
      ProbesUntilStep(c, t, b);
    }
  }

  lemma {:induction false} AdmittedWithinBudget(c: Config, s: Breaker, events: seq<Event>, a: real, b: real)
    requires c.openDuration >= 1 && Unhealthy(c, s, a)
    requires NoSuccess(events) && TimedWithin(events, a, b)
    ensures Admitted(c, s, events) <= Max0(Budget(c, s, a, b))
    decreases |events|
  {
    if events != [] {
      var e := events[0];
      BudgetStep(c, s, a, e, b);
      AdmittedWithinBudget(c, Step(c, s, e), events[1..], e.at, b);
    }
  }

  /**
   Between a and b, with the breaker not closed and no success reported, at most
   `halfOpenProbes` calls per started open period get through.
   */
  lemma AdmissionBound(c: Config, s: Breaker, events: seq<Event>, a: real, b: real)
    requires c.openDuration >= 1 && Unhealthy(c, s, a)
    requires NoSuccess(events) && TimedWithin(events, a, b) && a <= b
    ensures Admitted(c, s, events) <= Max0(c.halfOpenProbes) * (Periods(b - a, c.openDuration) + 1)
  {
    AdmittedWithinBudget(c, s, events, a, b);
    ProbesUntilStep(c, a, b);
    ProbesUntilMonotone(c, a, Max(a, s.openedAt + c.openDuration as real), b);
  }

  /** Every state a run reaches satisfies what the bound assumes of the fields. */
  lemma {:induction false} ReachableFrom(c: Config, s: Breaker, events: seq<Event>, from: real, now: real)
    requires TimedWithin(events, from, now)
    requires s.openedAt <= from && (s.mode == HalfOpen ==> s.probesAllowed <= Max0(c.halfOpenProbes))
    ensures var s' := Run(c, s, events);
      s'.openedAt <= now && (s'.mode == HalfOpen ==> s'.probesAllowed <= Max0(c.halfOpenProbes))
    decreases |events|
  {
    if events != [] {
      var t := if events[0].Success? then from else events[0].at;
      ReachableFrom(c, Step(c, s, events[0]), events[1..], t, now);
    }
  }

  /** The bound for every history: whatever happened up to time a, as long as it left the breaker not closed. */
  lemma ReachableAdmissionBound(c: Config, history: seq<Event>, events: seq<Event>, a: real, b: real)
    requires c.openDuration >= 1 && TimedWithin(history, 0.0, a) && Run(c, INITIAL, history).mode != Closed
    requires NoSuccess(events) && TimedWithin(events, a, b) && a <= b
    ensures Admitted(c, Run(c, INITIAL, history), events) <= Max0(c.halfOpenProbes) * (Periods(b - a, c.openDuration) + 1)
  {
    ReachableFrom(c, INITIAL, history, 0.0, a);
    AdmissionBound(c, Run(c, INITIAL, history), events, a, b);
  }

  /**
   A half-open breaker without probes left waits for a report: however long the
   clock runs, calls alone never get another one through.
   */
  lemma {:induction false} ExhaustedHalfOpenIsStuck(c: Config, s: Breaker, events: seq<Event>)
    requires s.mode == HalfOpen && s.probesAllowed <= 0
    requires forall n :: 0 <= n < |events| ==> events[n].Call?
    decreases |events|
    ensures Admitted(c, s, events) == 0 && Run(c, s, events) == s
  {
    if events != [] {
      ExhaustedHalfOpenIsStuck(c, s, events[1..]);
    }
  }

  lemma {:induction false} RunConcat(c: Config, s: Breaker, a: seq<Event>, b: seq<Event>)
    ensures Run(c, s, a + b) == Run(c, Run(c, s, a), b)
    decreases |a|
  {
    if a == [] {
      assert a + b == b;
    } else {
      assert (a + b)[1..] == a[1..] + b;
      RunConcat(c, Step(c, s, a[0]), a[1..], b);
    }
  }

  lemma {:induction false} Repeated(e: Event, n: nat, from: real, rest: seq<Event>, b: real)
    requires !e.Success? && from <= e.at <= b && TimedWithin(rest, e.at, b)
    ensures TimedWithin(seq(n, _ => e) + rest, if n == 0 then e.at else from, b)
    decreases n
  {
    var events := seq(n, _ => e) + rest;
    if n == 0 {
      assert events == rest;
    } else {
      assert events[1..] == seq(n - 1, _ => e) + rest;
      Repeated(e, n - 1, e.at, rest, b);
    }
  }

  lemma FailuresOpen(c: Config, n: nat)
    requires n >= 1 && n >= c.failureThreshold
    ensures var s := Run(c, INITIAL, seq(n, _ => Failure(0.0))); s.mode == Open && s.openedAt == 0.0
  {
    var events := seq(n, _ => Failure(0.0));
    StateFromReports(c, events);
    var last := n - 1;
    assert events == seq(last, _ => Failure(0.0)) + [Failure(0.0)];
    RunSnoc(c, INITIAL, seq(last, _ => Failure(0.0)), Failure(0.0));
    FailuresCount(n);
  }

  lemma {:induction false} FailuresCount(n: nat)
    ensures TrailingFailures(seq(n, _ => Failure(0.0))) == n
  {
    if n > 0 {
      FailuresCount(n - 1);
      assert seq(n, _ => Failure(0.0))[..n - 1] == seq(n - 1, _ => Failure(0.0));
    }
  }

  lemma {:induction false} CallsExhaust(c: Config, s: Breaker, t: real, n: nat)
    requires s.mode == HalfOpen && n >= s.probesAllowed
    ensures var s' := Run(c, s, seq(n, _ => Call(t))); s'.mode == HalfOpen && s'.probesAllowed <= 0
    decreases n
  {
    if n > 0 {
      assert seq(n, _ => Call(t))[1..] == seq(n - 1, _ => Call(t));
      CallsExhaust(c, AfterCall(c, s, t).0, t, n - 1);
    }
  }

  /** Every breaker can get there: enough failures, the open period, and one call per probe. */
  lemma ExhaustedIsReachable(c: Config) returns (history: seq<Event>, now: real)
    ensures TimedWithin(history, 0.0, now)
    ensures var s := Run(c, INITIAL, history); s.mode == HalfOpen && s.probesAllowed <= 0
  {
    now := Max0(c.openDuration) as real;
    var f, n := 1 + Max0(c.failureThreshold), Max0(c.halfOpenProbes);
    var failures, calls := seq(f, _ => Failure(0.0)), seq(n, _ => Call(now));
    history := failures + ([Call(now)] + calls);
    FailuresOpen(c, f);
    var open := Run(c, INITIAL, failures);
    RunConcat(c, INITIAL, failures, [Call(now)] + calls);
    assert ([Call(now)] + calls)[1..] == calls;
    CallsExhaust(c, AfterCall(c, open, now).0, now, n);
    Repeated(Call(now), n, now, [], now);
    assert calls + [] == calls;
    Repeated(Failure(0.0), f, 0.0, [Call(now)] + calls, now);
  }

  // ----- Which calls do get through -----

  ghost predicate AllCalls(events: seq<Event>) {
    forall n :: 0 <= n < |events| ==> events[n].Call?
  }

  lemma {:induction false} ClosedLetsThrough(c: Config, s: Breaker, calls: seq<Event>)
    requires s.mode == Closed && AllCalls(calls)
    ensures Admitted(c, s, calls) == |calls| && Run(c, s, calls) == s
    decreases |calls|
  {
    if calls != [] {
      ClosedLetsThrough(c, s, calls[1..]);
    }
  }

  /** While the trailing failures are below the threshold, every call passes and none changes the breaker. */
  lemma HealthyAdmitsAll(c: Config, history: seq<Event>, calls: seq<Event>)
    requires AllCalls(calls)
    requires TrailingFailures(history) < if c.failureThreshold < 1 then 1 else c.failureThreshold
    ensures Admitted(c, Run(c, INITIAL, history), calls) == |calls|
    ensures Run(c, INITIAL, history + calls) == Run(c, INITIAL, history)
  {
    StateFromReports(c, history);
    ClosedLetsThrough(c, Run(c, INITIAL, history), calls);
    RunConcat(c, INITIAL, history, calls);
  }

  /** A failure that leaves the trailing failures at the threshold opens the breaker at its own time, also again. */
  lemma FailureOpens(c: Config, history: seq<Event>, t: real)
    requires TrailingFailures(history) + 1 >= c.failureThreshold
    ensures var s := Run(c, INITIAL, history + [Failure(t)]); s.mode == Open && s.openedAt == t
  {
    StateFromReports(c, history);
    RunSnoc(c, INITIAL, history, Failure(t));
  }

  lemma {:induction false} OpenRefuses(c: Config, s: Breaker, calls: seq<Event>)
    requires s.mode == Open && AllCalls(calls)
    requires forall n :: 0 <= n < |calls| ==> calls[n].at < s.openedAt + c.openDuration as real
    ensures Admitted(c, s, calls) == 0 && Run(c, s, calls) == s
    decreases |calls|
  {
    if calls != [] {
      OpenRefuses(c, s, calls[1..]);
    }
  }

  function AtMost(n: int, limit: nat): nat {
    if n < 0 then 0 else if n < limit then n else limit
  }

  lemma {:induction false} ProbesAdmitted(c: Config, s: Breaker, calls: seq<Event>)
    requires s.mode == HalfOpen && AllCalls(calls)
    ensures Admitted(c, s, calls) == AtMost(s.probesAllowed, |calls|)
    decreases |calls|
  {
    if calls != [] {
      ProbesAdmitted(c, AfterCall(c, s, calls[0].at).0, calls[1..]);
    }
  }

  /**
   After the failure that opens the breaker at time t, calls are refused until the
   open period is over; of those that come then, exactly the probes pass.
   */
  lemma OpenThenProbes(c: Config, history: seq<Event>, t: real, early: seq<Event>, late: seq<Event>)
    requires TrailingFailures(history) + 1 >= c.failureThreshold && AllCalls(early) && AllCalls(late)
    requires forall n :: 0 <= n < |early| ==> early[n].at < t + c.openDuration as real
    requires forall n :: 0 <= n < |late| ==> late[n].at >= t + c.openDuration as real
    ensures var tripped := Run(c, INITIAL, history + [Failure(t)]);
      && Admitted(c, tripped, early) == 0
      && Admitted(c, Run(c, tripped, early), late) == AtMost(c.halfOpenProbes, |late|)
  {
    FailureOpens(c, history, t);
    var tripped := Run(c, INITIAL, history + [Failure(t)]);
    OpenRefuses(c, tripped, early);
    if late != [] {
      ProbesAdmitted(c, AfterCall(c, tripped, late[0].at).0, late[1..]);
    }
  }

  // ----- The bound is reached -----

  lemma {:induction false} AdmittedConcat(c: Config, s: Breaker, a: seq<Event>, b: seq<Event>)
    ensures Admitted(c, s, a + b) == Admitted(c, s, a) + Admitted(c, Run(c, s, a), b)
    decreases |a|
  {
    if a == [] {
      assert a + b == b;
    } else {
      assert (a + b)[1..] == a[1..] + b;
      AdmittedConcat(c, Step(c, s, a[0]), a[1..], b);
    }
  }

  /** Each time the open period is over: a call for every probe, then a failure. */
  function FailingRound(c: Config, t: real): seq<Event> {
    seq(Max0(c.halfOpenProbes), _ => Call(t)) + [Failure(t)]
  }

  function FailingRounds(c: Config, t: real, k: nat): seq<Event>
    decreases k
  {
    FailingRound(c, t) + if k == 0 then [] else FailingRounds(c, t + c.openDuration as real, k - 1)
  }

  lemma FailingRoundAdmits(c: Config, s: Breaker, t: real)
    requires s.mode == Open && t >= s.openedAt + c.openDuration as real && s.failures + 1 >= c.failureThreshold
    ensures Admitted(c, s, FailingRound(c, t)) == Max0(c.halfOpenProbes)
    ensures var s' := Run(c, s, FailingRound(c, t)); s'.mode == Open && s'.openedAt == t && s'.failures == s.failures + 1
  {
    var calls := seq(Max0(c.halfOpenProbes), _ => Call(t));
    AdmittedConcat(c, s, calls, [Failure(t)]);
    RunSnoc(c, s, calls, Failure(t));
    CallsKeepFailures(c, s, calls);
    if calls != [] {
      ProbesAdmitted(c, AfterCall(c, s, t).0, calls[1..]);
    }
  }

  lemma {:induction false} CallsKeepFailures(c: Config, s: Breaker, calls: seq<Event>)
    requires AllCalls(calls)
    ensures Run(c, s, calls).failures == s.failures
    decreases |calls|
  {
    if calls != [] {
      CallsKeepFailures(c, AfterCall(c, s, calls[0].at).0, calls[1..]);
    }
  }

  lemma {:induction false} FailingRoundsAdmit(c: Config, s: Breaker, t: real, k: nat)
    requires c.openDuration >= 1 && s.mode == Open && t >= s.openedAt + c.openDuration as real
    requires s.failures + 1 >= c.failureThreshold
    ensures Admitted(c, s, FailingRounds(c, t, k)) == Max0(c.halfOpenProbes) * (k + 1)
    decreases k
  {
    FailingRoundAdmits(c, s, t);
    if k > 0 {
      var next := t + c.openDuration as real;
      AdmittedConcat(c, s, FailingRound(c, t), FailingRounds(c, next, k - 1));
      FailingRoundsAdmit(c, Run(c, s, FailingRound(c, t)), next, k - 1);
      assert Max0(c.halfOpenProbes) * (k + 1) == Max0(c.halfOpenProbes) * k + Max0(c.halfOpenProbes);
    } else {
      assert FailingRound(c, t) + [] == FailingRound(c, t);
    }
  }

  lemma {:induction false} FailingRoundsTimed(c: Config, t: real, k: nat, b: real)
    requires c.openDuration >= 1 && b == t + k as real * c.openDuration as real
    ensures t <= b && TimedWithin(FailingRounds(c, t, k), t, b)
    decreases k
  {
    var next := t + c.openDuration as real;
    var rest := if k == 0 then [] else FailingRounds(c, next, k - 1);
    if k > 0 {
      assert b == next + (k - 1) as real * c.openDuration as real;
      FailingRoundsTimed(c, next, k - 1, b);
    }
    RoundTimed(c, t, rest, b);
  }

  lemma {:induction false} FailingRoundsFail(c: Config, t: real, k: nat)
    ensures NoSuccess(FailingRounds(c, t, k))
    decreases k
  {
    if k > 0 {
      FailingRoundsFail(c, t + c.openDuration as real, k - 1);
    }
  }

  lemma RoundTimed(c: Config, t: real, rest: seq<Event>, b: real)
    requires t <= b && TimedWithin(rest, t, b)
    ensures TimedWithin(FailingRound(c, t) + rest, t, b)
  {
    Repeated(Failure(t), 1, t, rest, b);
    assert seq(1, _ => Failure(t)) + rest == [Failure(t)] + rest;
    Repeated(Call(t), Max0(c.halfOpenProbes), t, [Failure(t)] + rest, b);
    assert FailingRound(c, t) + rest == seq(Max0(c.halfOpenProbes), _ => Call(t)) + ([Failure(t)] + rest);
  }

  /** For every configuration and every number of open periods, some history and some calls reach the admission bound. */
  lemma BoundReached(c: Config, k: nat) returns (history: seq<Event>, events: seq<Event>, a: real, b: real)
    requires c.openDuration >= 1
    ensures TimedWithin(history, 0.0, a) && Run(c, INITIAL, history).mode != Closed
    ensures NoSuccess(events) && TimedWithin(events, a, b) && a <= b && Periods(b - a, c.openDuration) == k
    ensures Admitted(c, Run(c, INITIAL, history), events) == Max0(c.halfOpenProbes) * (k + 1)
  {
    var f := 1 + Max0(c.failureThreshold);
    history, a := seq(f, _ => Failure(0.0)), c.openDuration as real;
    b := a + (k * c.openDuration) as real;
    events := FailingRounds(c, a, k);
    FailuresOpen(c, f);
    FailuresCount(f);
    StateFromReports(c, history);
    FailingRoundsAdmit(c, Run(c, INITIAL, history), a, k);
    assert (k * c.openDuration) as real == k as real * c.openDuration as real;
    FailingRoundsTimed(c, a, k, b);
    FailingRoundsFail(c, a, k);
    Repeated(Failure(0.0), f, 0.0, [], a);
    assert history + [] == history;
    WholePeriods(k, c.openDuration);
  }

  lemma WholePeriods(k: nat, d: int)
    requires d >= 1
    ensures Periods((k * d) as real, d) == k
  {
    Quotient((k * d) as real, k as real, d as real);
  }
}
