/** The circuit breaker of the market-data transport. Time is an explicit argument of every operation. */
module CircuitBreaker {
  import opened Common

  datatype CircuitState = CLOSED | OPEN | HALF_OPEN

  datatype Config = Config(failureThreshold: int, cooldown: real, halfOpenMaxProbes: int)

  datatype Breaker = Breaker(state: CircuitState, failures: nat, openedAt: Option<real>, probes: nat)

  const FRESH := Breaker(CLOSED, 0, None, 0)

  function MaybeTransition(cfg: Config, b: Breaker, now: real): Breaker {
    if !b.state.OPEN? || b.openedAt.None? then b
    else if now - b.openedAt.value >= cfg.cooldown then b.(state := HALF_OPEN, probes := 0)
    else b
  }

  function Allow(cfg: Config, b: Breaker, now: real): (Breaker, bool) {
    var c := MaybeTransition(cfg, b, now);
    match c.state
    case CLOSED => (c, true)
    case OPEN => (c, false)
    case HALF_OPEN => if c.probes < cfg.halfOpenMaxProbes then (c.(probes := c.probes + 1), true) else (c, false)
  }

  function Trip(b: Breaker, now: real): Breaker {
    b.(state := OPEN, openedAt := Some(now), probes := 0)
  }

  function Failure(cfg: Config, b: Breaker, now: real): Breaker {
    var c := b.(failures := b.failures + 1);
    if b.state.HALF_OPEN? || c.failures >= cfg.failureThreshold then Trip(c, now) else c
  }

  class CircuitBreaker {
    const config: Config
    var state: CircuitState
    var failures: nat
    var openedAt: Option<real>
    var probes: nat

    ghost function Model(): Breaker
      reads this
    {
      Breaker(state, failures, openedAt, probes)
    }

    constructor (config: Config)
      ensures Model() == FRESH && this.config == config
    {
      this.config := config;
      state, failures, openedAt, probes := CLOSED, 0, None, 0;
    }

    method CurrentState(now: real) returns (s: CircuitState)
      modifies this
      ensures Model() == MaybeTransition(config, old(Model()), now) && s == state
    {
      if state == OPEN && openedAt.Some? {
        var elapsed := now - openedAt.value;
        if elapsed >= config.cooldown {
          state := HALF_OPEN;
          probes := 0;
        }
      }
      s := state;
    }

    method AllowRequest(now: real) returns (ok: bool)
      modifies this
      ensures (Model(), ok) == Allow(config, old(Model()), now)
    {
      var s := CurrentState(now);
      if s == CLOSED {
        return true;
      }
      if s == OPEN {
        return false;
      }
      if probes < config.halfOpenMaxProbes {
        probes := probes + 1;
        return true;
      }
      ok := false;
    }

    method RecordSuccess()
      modifies this
      ensures Model() == FRESH
    {
      failures, probes, openedAt := 0, 0, None;
      state := CLOSED;
    }

    method RecordFailure(now: real)
      modifies this
      ensures Model() == Failure(config, old(Model()), now)
    {
      failures := failures + 1;
      if state == HALF_OPEN {
        TripNow(now);
        return;
      }
      if failures >= config.failureThreshold {
        TripNow(now);
      }
    }

    method TripNow(now: real)
      modifies this
      ensures Model() == Trip(old(Model()), now)
    {
      state := OPEN;
      openedAt := Some(now);
      probes := 0;
    }
  }

  // ---- Every run ---------------------------------------------------------------------------

  datatype Op = Ask(now: real) | Peek(now: real) | Succeed(now: real) | Fail(now: real)

  function Step(cfg: Config, b: Breaker, op: Op): Breaker {
    match op
    case Ask(now) => Allow(cfg, b, now).0
    case Peek(now) => MaybeTransition(cfg, b, now)
    case Succeed(_) => FRESH
    case Fail(now) => Failure(cfg, b, now)
  }

  function Run(cfg: Config, ops: seq<Op>): Breaker {
    if ops == [] then FRESH else Step(cfg, Run(cfg, ops[..|ops| - 1]), ops[|ops| - 1])
  }

  ghost predicate Chronological(ops: seq<Op>) {
    forall i, j :: 0 <= i < j < |ops| ==> ops[i].now <= ops[j].now
  }

  /** The failures recorded since the last success. */
  function FailuresSinceSuccess(ops: seq<Op>): nat {
    if ops == [] then 0
    else
      var n := |ops| - 1;
      if ops[n].Succeed? then 0 else FailuresSinceSuccess(ops[..n]) + if ops[n].Fail? then 1 else 0
  }

  /** The breaker is closed exactly while fewer failures than the threshold were recorded since the last success.
      With a threshold that is not positive this fails from the start (`NonPositiveThreshold`). */
  lemma {:induction false} ClosedExactlyBelowThreshold(cfg: Config, ops: seq<Op>)
    requires cfg.failureThreshold >= 1
    ensures var b := Run(cfg, ops);
            && b.failures == FailuresSinceSuccess(ops)
            && (b.state.CLOSED? <==> b.failures < cfg.failureThreshold)
            && (b.state.CLOSED? <==> b.openedAt.None?)
  {
    if ops != [] {
      ClosedExactlyBelowThreshold(cfg, ops[..|ops| - 1]);
    }
  }

  lemma NonPositiveThreshold(cfg: Config)
    ensures var b := Run(cfg, []);
            (b.state.CLOSED? <==> b.failures < cfg.failureThreshold) <==> cfg.failureThreshold >= 1
  {
  }

  /** The k-th operation trips the breaker. */
  predicate Trips(cfg: Config, ops: seq<Op>, k: int) {
    0 <= k < |ops| && ops[k].Fail? &&
    (Run(cfg, ops[..k]).state.HALF_OPEN? || FailuresSinceSuccess(ops[..k + 1]) >= cfg.failureThreshold)
  }

  /** The k-th operation is the last trip, and no success came after it. */
  ghost predicate LastTrip(cfg: Config, ops: seq<Op>, k: int) {
    Trips(cfg, ops, k)
    && forall i :: k < i < |ops| ==> !ops[i].Succeed? && !Trips(cfg, ops, i)
  }

  lemma TripsIsStable(cfg: Config, ops: seq<Op>, k: int, n: nat)
    requires 0 <= k < n <= |ops|
    ensures Trips(cfg, ops[..n], k) == Trips(cfg, ops, k)
  {
    assert ops[..n][..k] == ops[..k] && ops[..n][..k + 1] == ops[..k + 1];
  }

  /** What an operation does to an opening time: a trip sets it, and only a success clears it. */
  lemma OpeningTime(cfg: Config, past: seq<Op>, op: Op)
    requires cfg.failureThreshold >= 1
    ensures var ops := past + [op];
            && (Trips(cfg, ops, |past|) ==> Run(cfg, ops).openedAt == Some(op.now))
            && (!Trips(cfg, ops, |past|) && !op.Succeed? ==> Run(cfg, ops).openedAt == Run(cfg, past).openedAt)
  {
    var ops := past + [op];
    assert ops[..|past|] == past && ops[..|past| + 1] == ops;
    ClosedExactlyBelowThreshold(cfg, past);
    hide FailuresSinceSuccess;
    FailuresGrow(past, op);
  }

  lemma FailuresGrow(past: seq<Op>, op: Op)
    ensures FailuresSinceSuccess(past + [op]) ==
            if op.Succeed? then 0 else FailuresSinceSuccess(past) + if op.Fail? then 1 else 0
  {
    assert (past + [op])[..|past|] == past;
  }

  /** The recorded opening time is the time of the last trip. */
  lemma {:induction false} OpenedAtIsLastTrip(cfg: Config, ops: seq<Op>, k: int)
    requires cfg.failureThreshold >= 1 && LastTrip(cfg, ops, k)
    ensures Run(cfg, ops).openedAt == Some(ops[k].now) && !Run(cfg, ops).state.CLOSED?
  {
    var n := |ops| - 1;
    ClosedExactlyBelowThreshold(cfg, ops);
    hide Run, Trips;
    OpeningTime(cfg, ops[..n], ops[n]);
    assert ops[..n] + [ops[n]] == ops;
    if k < n {
      forall i | k <= i < n ensures Trips(cfg, ops[..n], i) == Trips(cfg, ops, i) {
        TripsIsStable(cfg, ops, i, n);
      }
      OpenedAtIsLastTrip(cfg, ops[..n], k);
    }
  }

  /** A half-open breaker has waited out its cooldown. */
  lemma {:induction false} HalfOpenHasWaited(cfg: Config, ops: seq<Op>)
    requires cfg.failureThreshold >= 1 && Chronological(ops)
    ensures var b := Run(cfg, ops);
            b.state.HALF_OPEN? ==>
              ops != [] && b.openedAt.Some? && ops[|ops| - 1].now >= b.openedAt.value + cfg.cooldown
  {
    if ops != [] {
      HalfOpenHasWaited(cfg, ops[..|ops| - 1]);
      ClosedExactlyBelowThreshold(cfg, ops[..|ops| - 1]);
    }
  }

  /** No request is allowed within the cooldown of the last trip, unless a success intervened. */
  lemma CooldownIsRespected(cfg: Config, ops: seq<Op>, k: int, now: real)
    requires cfg.failureThreshold >= 1 && LastTrip(cfg, ops, k)
    requires Chronological(ops + [Ask(now)])
    requires Allow(cfg, Run(cfg, ops), now).1
    ensures now >= ops[k].now + cfg.cooldown
  {
    var all := ops + [Ask(now)];
    assert forall i :: 0 <= i < |ops| ==> all[i] == ops[i];
    assert Chronological(ops) by {
      forall i, j | 0 <= i < j < |ops| ensures ops[i].now <= ops[j].now {
        assert all[i].now <= all[j].now;
      }
    }
    OpenedAtIsLastTrip(cfg, ops, k);
    HalfOpenHasWaited(cfg, ops);
    assert all[|ops| - 1].now <= all[|ops|].now;
  }

  // ---- A service that keeps failing ----------------------------------------------------------

  /** One attempt on a dead service: a request at `asked`; if allowed, its failure is recorded at `failed`. */
  datatype Attempt = Attempt(asked: real, failed: real)

  ghost predicate Ordered(attempts: seq<Attempt>, t0: real) {
    && (forall i :: 0 <= i < |attempts| ==> t0 <= attempts[i].asked <= attempts[i].failed)
    && (forall i, j :: 0 <= i < j < |attempts| ==> attempts[i].failed <= attempts[j].asked)
  }

  function AfterAttempt(cfg: Config, b: Breaker, a: Attempt): Breaker {
    var (c, ok) := Allow(cfg, b, a.asked);
    if ok then Failure(cfg, c, a.failed) else c
  }

  function Hammered(cfg: Config, attempts: seq<Attempt>): Breaker {
    if attempts == [] then FRESH
    else AfterAttempt(cfg, Hammered(cfg, attempts[..|attempts| - 1]), attempts[|attempts| - 1])
  }

  /** How many of the attempts reached the service. */
  function Reached(cfg: Config, attempts: seq<Attempt>): nat {
    if attempts == [] then 0
    else
      var n := |attempts| - 1;
      Reached(cfg, attempts[..n]) + if Allow(cfg, Hammered(cfg, attempts[..n]), attempts[n].asked).1 then 1 else 0
  }

  /** The length of `k` cooldowns. */
  function Waits(k: int, d: real): real {
    k as real * d
  }

  lemma OneMoreWait(k: int, d: real)
    ensures Waits(0, d) == 0.0
    ensures Waits(k + 1, d) == Waits(k, d) + d
  {
  }

  /** Each request beyond the threshold had to wait out a cooldown of its own. */
  lemma {:induction false} HammeringInvariant(cfg: Config, attempts: seq<Attempt>, t0: real)
    requires cfg.failureThreshold >= 1 && cfg.cooldown > 0.0 && cfg.halfOpenMaxProbes >= 1 && Ordered(attempts, t0)
    ensures var b := Hammered(cfg, attempts);
            var r := Reached(cfg, attempts);
            && b.failures == r
            && (r < cfg.failureThreshold ==> b == Breaker(CLOSED, r, None, 0))
            && (r >= cfg.failureThreshold ==>
                  && attempts != []
                  && b.state.OPEN? && b.openedAt.Some?
                  && b.openedAt.value >= t0 + Waits(r - cfg.failureThreshold, cfg.cooldown)
                  && b.openedAt.value <= attempts[|attempts| - 1].failed)
  {
    hide Waits;
    if attempts != [] {
      var n := |attempts| - 1;
      var a := attempts[n];
      var past := attempts[..n];
      assert Ordered(past, t0);
      HammeringInvariant(cfg, past, t0);
      var b, r := Hammered(cfg, past), Reached(cfg, past);
      OneMoreWait(r - cfg.failureThreshold, cfg.cooldown);
      if r >= cfg.failureThreshold {
        assert past[|past| - 1] == attempts[n - 1] && attempts[n - 1].failed <= a.asked;
      }
    }
  }

  /** The bound: of any attempts made up to a time on a dead service, a fresh breaker lets through
      at most threshold + floor((until - t0) / cooldown). */
  lemma {:induction false} HammeringIsBounded(cfg: Config, attempts: seq<Attempt>, t0: real, until: real)
    requires cfg.failureThreshold >= 1 && cfg.cooldown > 0.0 && cfg.halfOpenMaxProbes >= 1 && Ordered(attempts, t0)
    requires t0 <= until && forall i :: 0 <= i < |attempts| ==> attempts[i].asked <= until
    ensures Reached(cfg, attempts) <= cfg.failureThreshold + ((until - t0) / cfg.cooldown).Floor
  {
    hide Waits, Failure;
    OneMoreWait(0, cfg.cooldown);
    QuotientBound(0, until - t0, cfg.cooldown);
    if attempts != [] {
      var n := |attempts| - 1;
      var past := attempts[..n];
      assert Ordered(past, t0);
      HammeringIsBounded(cfg, past, t0, until);
      HammeringInvariant(cfg, past, t0);
      var r := Reached(cfg, past);
      if Allow(cfg, Hammered(cfg, past), attempts[n].asked).1 && r >= cfg.failureThreshold {
        var k := r - cfg.failureThreshold;
        OneMoreWait(k, cfg.cooldown);
        QuotientBound(k + 1, until - t0, cfg.cooldown);
      }
    }
  }

  lemma QuotientBound(k: nat, x: real, d: real)
    requires d > 0.0 && Waits(k, d) <= x
    ensures k <= (x / d).Floor
  {
    var q := x / d;
    assert q * d == x;
    if q < k as real {
      MultipliedOut(q, k as real, d);
      assert false;
    }
  }

  lemma MultipliedOut(a: real, b: real, d: real)
    requires a < b && d > 0.0
    ensures a * d < b * d
  {
  }

  function BeyondThreshold(cfg: Config, n: nat): nat {
    if n <= cfg.failureThreshold then 0 else n - cfg.failureThreshold
  }

  /** Asks that come at the earliest useful moments: the first `threshold` at t0, then one per cooldown. */
  function Eager(cfg: Config, t0: real, n: nat): seq<Attempt> {
    if n == 0 then []
    else
      var t := t0 + Waits(BeyondThreshold(cfg, n), cfg.cooldown);
      Eager(cfg, t0, n - 1) + [Attempt(t, t)]
  }

  function EagerEnd(cfg: Config, t0: real, n: nat): real {
    t0 + Waits(BeyondThreshold(cfg, n), cfg.cooldown)
  }

  lemma {:induction false} EagerIsOrdered(cfg: Config, t0: real, n: nat)
    requires cfg.failureThreshold >= 1 && cfg.cooldown > 0.0
    ensures var attempts := Eager(cfg, t0, n);
            && |attempts| == n && Ordered(attempts, t0) && t0 <= EagerEnd(cfg, t0, n)
            && forall i :: 0 <= i < n ==> attempts[i].failed <= EagerEnd(cfg, t0, n)
  {
    hide Waits;
    OneMoreWait(0, cfg.cooldown);
    if n > 0 {
      EagerIsOrdered(cfg, t0, n - 1);
      OneMoreWait(BeyondThreshold(cfg, n) - 1, cfg.cooldown);
    }
  }

  function EagerState(cfg: Config, t0: real, n: nat): Breaker {
    if n < cfg.failureThreshold then Breaker(CLOSED, n, None, 0) else Breaker(OPEN, n, Some(EagerEnd(cfg, t0, n)), 0)
  }

  lemma EagerStep(cfg: Config, t0: real, n: nat)
    requires cfg.failureThreshold >= 1 && cfg.halfOpenMaxProbes >= 1 && n > 0
    ensures var b, t := EagerState(cfg, t0, n - 1), EagerEnd(cfg, t0, n);
            Allow(cfg, b, t).1 && AfterAttempt(cfg, b, Attempt(t, t)) == EagerState(cfg, t0, n)
  {
    hide Waits;
    OneMoreWait(BeyondThreshold(cfg, n) - 1, cfg.cooldown);
  }

  /** The bound is attained: n eager asks, all made by the time BeyondThreshold(n) cooldowns have passed,
      are all let through, so no smaller bound holds. */
  lemma {:induction false} BoundIsAttained(cfg: Config, t0: real, n: nat)
    requires cfg.failureThreshold >= 1 && cfg.cooldown > 0.0 && cfg.halfOpenMaxProbes >= 1
    ensures Ordered(Eager(cfg, t0, n), t0)
    ensures forall i :: 0 <= i < |Eager(cfg, t0, n)| ==> Eager(cfg, t0, n)[i].failed <= EagerEnd(cfg, t0, n)
    ensures Reached(cfg, Eager(cfg, t0, n)) == n
    ensures Hammered(cfg, Eager(cfg, t0, n)) == EagerState(cfg, t0, n)
  {
    hide Waits, AfterAttempt, EagerEnd, EagerState, Allow, Ordered;
    EagerIsOrdered(cfg, t0, n);
    if n == 0 {
      assert EagerState(cfg, t0, 0) == FRESH by { EagerStart(cfg, t0); }
    } else {
      var past := Eager(cfg, t0, n - 1);
      var t := EagerEnd(cfg, t0, n);
      BoundIsAttained(cfg, t0, n - 1);
      EagerStep(cfg, t0, n);
      EagerUnfolds(cfg, t0, n);
      assert (past + [Attempt(t, t)])[..|past|] == past;
    }
  }

  lemma EagerStart(cfg: Config, t0: real)
    requires cfg.failureThreshold >= 1
    ensures EagerState(cfg, t0, 0) == FRESH
  {
  }

  lemma EagerUnfolds(cfg: Config, t0: real, n: nat)
    requires n > 0
    ensures Eager(cfg, t0, n) == Eager(cfg, t0, n - 1) + [Attempt(EagerEnd(cfg, t0, n), EagerEnd(cfg, t0, n))]
  {
  }
}
