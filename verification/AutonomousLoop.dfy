/** The autonomous control loop: one cycle per call, walked through the control graph and ended in a stable state. */
module AutonomousLoop {
  import opened Common
  import opened ControlCycle
  import opened Quotes
  import opened StreamHealth

  datatype PositionView = PositionView(sideUnknown: bool, recoveryIncomplete: bool)

  /** What the decision stage yields: the engine or the kernel raises, or a decision. */
  datatype DecisionResult =
    | DecisionRaises
    | Decided(action: string, allowedNewEntry: bool, riskAllowed: bool)

  /** One call of `run_cycle`, with the answers its injected collaborators will give. `clock` is the wall clock. */
  datatype CycleInput = CycleInput(
    quote: Quote,
    closes: nat,
    position: Option<PositionView>,
    symbol: string,
    now: real,
    clock: real,
    crashAfter: string,
    resumeId: string,
    reconciliationHealthy: bool,
    safeMode: bool,
    mlRaises: bool,
    decision: DecisionResult)

  datatype CycleOutcome = CycleOutcome(cycleId: string, finalState: ControlState, action: string,
                                       intentId: Option<string>, recoveryRequired: bool)

  /** `run_cycle` returns an outcome or raises. */
  datatype RunResult = Returned(outcome: CycleOutcome) | Raised

  /** The validation's result: go on, stop safely for this reason and code, or an exception nobody catches. */
  datatype Check = Passed | Problem(reason: string, code: string) | Broken

  const ML_HISTORY: nat := 40

  /** `symbol or quote.symbol` */
  function SymbolOf(x: CycleInput): string {
    if x.symbol != "" then x.symbol else x.quote.symbol
  }

  /** `quote.sequence or 1` */
  function SequenceOf(q: Quote): int {
    if q.sequence.None? || q.sequence.value == 0 then 1 else q.sequence.value
  }

  /** The monitor once it heard the quote. */
  function Fed(x: CycleInput, feed: Health): Health {
    Heard(feed, Some(SequenceOf(x.quote)), x.quote.timestamp, x.clock)
  }

  /** A fresh cycle gets to its validation. */
  predicate Validates(x: CycleInput) {
    !x.safeMode && x.crashAfter != "OBSERVING"
  }

  /** A fresh cycle's validation ends in an exception, which nobody catches. */
  predicate Interrupted(x: CycleInput) {
    Validates(x) && x.quote.timestamp.None?
  }

  /** One of the tests of a validation that does not break fails; `feed` is the monitor before the call. */
  predicate ValidationFails(x: CycleInput, ttl: real, feed: Health) {
    || !Good(x.quote, x.now, DEFAULT_TERMS)
    || !AllowsNewEntry(Ticked(Fed(x, feed), x.now))
    || !x.reconciliationHealthy
    || (x.position.Some? && (x.position.value.sideUnknown || x.position.value.recoveryIncomplete))
    || x.now > x.now + ttl
  }

  /** The monitor after the call: it hears the quote of a cycle that validates, and is asked about a good one. */
  function FeedAfter(x: CycleInput, feed: Health): Health {
    if !Validates(x) then feed
    else if !Good(x.quote, x.now, DEFAULT_TERMS) then Fed(x, feed)
    else Ticked(Fed(x, feed), x.now)
  }

  lemma QuoteIsTimed(x: CycleInput)
    ensures Good(x.quote, x.now, DEFAULT_TERMS) ==> x.quote.timestamp.Some?
  {
  }

  /** What it takes to pass validation, in terms of the call alone: a good quote that repeats or continues the
      sequence and is within the monitor's age, healthy books, no doubt about the position, and a time to live. */
  lemma ValidationPassesExactly(x: CycleInput, ttl: real, feed: Health)
    ensures !ValidationFails(x, ttl, feed) <==>
            && Good(x.quote, x.now, DEFAULT_TERMS)
            && (feed.lastSequence.Some? ==>
                  feed.lastSequence.value <= SequenceOf(x.quote) <= feed.lastSequence.value + 1)
            && x.now - x.quote.timestamp.value <= feed.staleAfter
            && x.reconciliationHealthy
            && (x.position.Some? ==> !x.position.value.sideUnknown && !x.position.value.recoveryIncomplete)
            && ttl >= 0.0
  {
    if Good(x.quote, x.now, DEFAULT_TERMS) {
      AllowsExactly(feed, SequenceOf(x.quote), x.quote.timestamp.value, x.clock, x.now);
    }
    hide Heard, Ticked;
  }

  predicate PredictionFails(x: CycleInput) {
    x.closes >= ML_HISTORY && x.mlRaises
  }

  predicate NoEntry(d: DecisionResult)
    requires d.Decided?
  {
    d.action in {"NO_TRADE", "HOLD"} || !d.allowedNewEntry
  }

  /** The log of a cycle whose validation broke. */
  const BROKEN_OFF: seq<ControlState> := [OBSERVING, VALIDATING]
  const TO_DECISION: seq<ControlState> := [OBSERVING, VALIDATING, ASSESSING, PREDICTING, DECIDING]
  const TO_INTENT: seq<ControlState> := TO_DECISION + [RISK_CHECK, EXECUTION_INTENT]
  const WHOLE: seq<ControlState> := TO_INTENT + [PAPER_EXECUTION, MONITORING, REASSESSMENT, COMPLETED]

  /** The cycle gets as far as the decision engine. */
  predicate ReachesDecision(x: CycleInput, ttl: real, feed: Health) {
    Validates(x) && !ValidationFails(x, ttl, feed) && !PredictionFails(x)
  }

  function EarlyRoute(x: CycleInput, ttl: real, feed: Health): seq<ControlState> {
    if x.safeMode then [OBSERVING, SAFE_STOP]
    else if x.crashAfter == "OBSERVING" then [OBSERVING, RECOVERY_REQUIRED]
    else if x.quote.timestamp.None? then [OBSERVING, VALIDATING]
    else if ValidationFails(x, ttl, feed) then [OBSERVING, VALIDATING, SAFE_STOP]
    else [OBSERVING, VALIDATING, ASSESSING, PREDICTING, SAFE_STOP]
  }

  /** `collides` tells that the intent id the cycle would register is already taken. */
  function LateRoute(x: CycleInput, collides: bool): seq<ControlState> {
    if x.decision.DecisionRaises? then TO_DECISION + [SAFE_STOP]
    else if NoEntry(x.decision) then WHOLE
    else if !x.decision.riskAllowed then TO_DECISION + [RISK_CHECK, SAFE_STOP]
    else if collides then TO_INTENT + [SAFE_STOP]
    else if x.crashAfter == "EXECUTION_INTENT" then TO_INTENT + [RECOVERY_REQUIRED]
    else WHOLE
  }

  /** The way a fresh cycle goes. */
  function Route(x: CycleInput, ttl: real, feed: Health, collides: bool): seq<ControlState> {
    if ReachesDecision(x, ttl, feed) then LateRoute(x, collides) else EarlyRoute(x, ttl, feed)
  }

  /** The failure code a fresh cycle is left with: that of the first test that fails, if one does. */
  function EarlyFailure(x: CycleInput, ttl: real, feed: Health): Option<string> {
    if x.safeMode then Some("SAFE_MODE")
    else if x.crashAfter == "OBSERVING" || x.quote.timestamp.None? then None
    else if !Good(x.quote, x.now, DEFAULT_TERMS) then Some("DATA_FAILURE")
    else if !AllowsNewEntry(Ticked(Fed(x, feed), x.now)) then Some("STREAM_FAILURE")
    else if !x.reconciliationHealthy then Some("DATA_FAILURE")
    else if x.position.Some? && (x.position.value.sideUnknown || x.position.value.recoveryIncomplete)
    then Some("UNKNOWN_FAILURE")
    else if x.now > x.now + ttl then Some("TIMEOUT")
    else Some("MODEL_FAILURE")
  }

  lemma OnlyTheModelIsLeft(x: CycleInput, ttl: real, feed: Health)
    requires Validates(x) && !ValidationFails(x, ttl, feed)
    ensures EarlyFailure(x, ttl, feed) == Some("MODEL_FAILURE")
  {
    QuoteIsTimed(x);
  }

  function LateFailure(x: CycleInput, collides: bool): Option<string> {
    if x.decision.DecisionRaises? then Some("DECISION_FAILURE")
    else if NoEntry(x.decision) then None
    else if !x.decision.riskAllowed then Some("RISK_FAILURE")
    else if collides then Some("EXECUTION_CONTRACT_FAILURE")
    else None
  }

  function FailureOf(x: CycleInput, ttl: real, feed: Health, collides: bool): Option<string> {
    if ReachesDecision(x, ttl, feed) then LateFailure(x, collides) else EarlyFailure(x, ttl, feed)
  }

  function ActionOf(x: CycleInput): string {
    if x.decision.Decided? then x.decision.action else ""
  }

  predicate Enters(d: DecisionResult) {
    d.Decided? && !NoEntry(d) && d.riskAllowed
  }

  /** A fresh cycle asks for an intent exactly when it enters a position past risk. */
  predicate WantsIntent(x: CycleInput, ttl: real, feed: Health) {
    ReachesDecision(x, ttl, feed) && Enters(x.decision)
  }

  predicate Stable(s: ControlState) {
    s in {COMPLETED, SAFE_STOP, RECOVERY_REQUIRED}
  }

  /** What `_safe_stop` appends, from any state. */
  function StopRoute(s: ControlState): seq<ControlState> {
    if s in {SAFE_STOP, FAILED, COMPLETED} then []
    else if CanTransition(s, SAFE_STOP) then [SAFE_STOP]
    else if CanTransition(s, FAILED) then [FAILED, SAFE_STOP]
    else []
  }

  /** The detour over FAILED is dead code: a safe stop goes straight to SAFE_STOP from every state
      but IDLE (where it does nothing) and the three it leaves alone. */
  lemma StopNeverFails(s: ControlState)
    ensures StopRoute(s) == if s in {IDLE, SAFE_STOP, FAILED, COMPLETED} then [] else [SAFE_STOP]
  {
  }

  function IntentKey(hash: string -> string, cycleId: string, action: string, symbol: string): string {
    "intent-" + hash(cycleId + ":" + action + ":" + symbol)
  }

  /** A route ends in a stable state if and only if its validation does not break, and avoids FAILED in any case;
      a completed cycle passed every stage. */
  lemma RoutesAreStable(x: CycleInput, ttl: real, feed: Health, collides: bool)
    ensures var r := Route(x, ttl, feed, collides);
            && |r| >= 2
            && (Stable(r[|r| - 1]) <==> !Interrupted(x))
            && (Interrupted(x) ==> r == BROKEN_OFF)
            && FAILED !in r
            && (COMPLETED in r <==> r == WHOLE)
            && (COMPLETED in r ==> !ValidationFails(x, ttl, feed) && !PredictionFails(x) && x.decision.Decided?
                                   && !x.safeMode && x.reconciliationHealthy && x.quote.timestamp.Some?)
  {
    var r := Route(x, ttl, feed, collides);
    assert WHOLE[|WHOLE| - 1] == COMPLETED;
  }

  /** The input that breaks a cycle off: any call that validates, on a quote that is in order but for its timestamp.
      */
  lemma UntimedQuoteBreaksOff(x: CycleInput, ttl: real, feed: Health, collides: bool, price: real)
    requires Validates(x) && price > 0.0
    requires x.quote == Quote("EURUSD", None, Some(price), Some(price), None, None, None, None)
    ensures Route(x, ttl, feed, collides) == BROKEN_OFF && !Stable(VALIDATING)
    ensures Good(x.quote.(timestamp := Some(x.now)), x.now, DEFAULT_TERMS) <==> x.now > 0.0
  {
    QuoteIsTimed(x);
  }

  /** What the loop leaves behind of a cycle. */
  datatype Rest = Rest(state: ControlState, visited: seq<ControlState>, intentIds: seq<string>)

  /** A cycle between calls: in a stable state, or broken off in its validation without an intent. */
  ghost predicate AtRest(r: Rest) {
    && (Stable(r.state) || (r.state == VALIDATING && r.visited == BROKEN_OFF && r.intentIds == []))
    && FAILED !in r.visited && |r.intentIds| <= 1
  }

  ghost predicate AllAtRest(view: map<string, Rest>) {
    forall id :: id in view ==> AtRest(view[id])
  }

  /** The registry is the disjoint union of the cycles' intents. */
  ghost predicate RegistryIsUnion(view: map<string, Rest>, intents: set<string>) {
    && (forall id, x :: id in view && x in view[id].intentIds ==> x in intents)
    && (forall x :: x in intents ==> exists id :: id in view && x in view[id].intentIds)
    && (forall a, b, x :: a in view && b in view && x in view[a].intentIds && x in view[b].intentIds ==> a == b)
  }

  predicate IsKeyOf(hash: string -> string, id: string, key: string, action: string, symbol: string) {
    key == IntentKey(hash, id, action, symbol)
  }

  /** Every cycle's intents are keys made from its own id. */
  ghost predicate KeysAreOwn(hash: string -> string, view: map<string, Rest>) {
    forall id, key :: id in view && key in view[id].intentIds ==>
      exists action, symbol :: IsKeyOf(hash, id, key, action, symbol)
  }

  lemma KeysStayOwn(hash: string -> string, view: map<string, Rest>, id: string, r: Rest, action: string,
                     symbol: string)
    requires KeysAreOwn(hash, view)
    requires forall key :: key in r.intentIds ==>
               (id in view && key in view[id].intentIds) || IsKeyOf(hash, id, key, action, symbol)
    ensures KeysAreOwn(hash, view[id := r])
  {
    hide IsKeyOf;
  }

  lemma RegistryGrows(view: map<string, Rest>, intents: set<string>, id: string, r: Rest)
    requires RegistryIsUnion(view, intents) && id !in view
    requires forall x :: x in r.intentIds ==> x !in intents
    ensures RegistryIsUnion(view[id := r], intents + ToSet(r.intentIds))
  {
    var after := view[id := r];
    forall x | x in intents + ToSet(r.intentIds) ensures exists k :: k in after && x in after[k].intentIds {
      if x in intents {
        var k :| k in view && x in view[k].intentIds;
        assert x in after[k].intentIds;
      } else {
        assert x in after[id].intentIds;
      }
    }
  }

  lemma RegistryUnmoved(view: map<string, Rest>, intents: set<string>, id: string, r: Rest)
    requires RegistryIsUnion(view, intents) && id in view && view[id].intentIds == r.intentIds
    ensures RegistryIsUnion(view[id := r], intents)
  {
    var after := view[id := r];
    forall x | x in intents ensures exists k :: k in after && x in after[k].intentIds {
      var k :| k in view && x in view[k].intentIds;
      assert x in after[k].intentIds;
    }
  }

  lemma RestOf(view: map<string, Rest>, id: string)
    requires AllAtRest(view) && id in view
    ensures AtRest(view[id])
  {
  }

  lemma RestsStill(view: map<string, Rest>, id: string, r: Rest)
    requires AllAtRest(view) && AtRest(r)
    ensures AllAtRest(view[id := r])
  {
  }

  /** The edges a healthy cycle uses, and those out of its course. */
  lemma Edges()
    ensures CanTransition(IDLE, OBSERVING) && CanTransition(OBSERVING, VALIDATING)
    ensures CanTransition(VALIDATING, ASSESSING) && CanTransition(ASSESSING, PREDICTING)
    ensures CanTransition(PREDICTING, DECIDING) && CanTransition(DECIDING, RISK_CHECK)
    ensures CanTransition(RISK_CHECK, EXECUTION_INTENT) && CanTransition(EXECUTION_INTENT, PAPER_EXECUTION)
    ensures CanTransition(PAPER_EXECUTION, MONITORING) && CanTransition(MONITORING, REASSESSMENT)
    ensures CanTransition(REASSESSMENT, COMPLETED)
    ensures forall s :: s in {OBSERVING, VALIDATING, PREDICTING, DECIDING, RISK_CHECK, EXECUTION_INTENT} ==>
              CanTransition(s, SAFE_STOP) && StopRoute(s) == [SAFE_STOP]
    ensures CanTransition(OBSERVING, RECOVERY_REQUIRED) && CanTransition(EXECUTION_INTENT, RECOVERY_REQUIRED)
    ensures CanTransition(VALIDATING, RECOVERY_REQUIRED)
    ensures CanTransition(SAFE_STOP, RECOVERY_REQUIRED) && CanTransition(FAILED, SAFE_STOP)
  {
  }

  /** An outcome tells the state its cycle is in, and the decided action only of a completed one. */
  ghost predicate Reports(r: CycleOutcome, cycle: ControlCycle, action: string)
    reads cycle
  {
    && r.cycleId == cycle.cycleId && r.finalState == cycle.state
    && (r.recoveryRequired <==> cycle.state == RECOVERY_REQUIRED)
    && (cycle.state == COMPLETED ==> r.action == action)
    && (cycle.state == RECOVERY_REQUIRED ==> r.action == "RECOVERY_REQUIRED")
    && (cycle.state == SAFE_STOP ==> r.action == "SAFE_STOP")
  }

  class AutonomousControlLoop {
    const ttl: real
    /** The truncated sha256 of the intent key; nothing is assumed of it. */
    const hash: string -> string
    const stream: StreamHealthMonitor
    var cycles: map<string, ControlCycle>
    var intents: set<string>

    ghost function View(): map<string, Rest>
      reads this`cycles, cycles.Values
    {
      map id | id in cycles :: Rest(cycles[id].state, cycles[id].visited, cycles[id].intentIds)
    }

    /** Every log is a walk of the graph, every cycle is at rest, and the registry is the cycles' intents. */
    ghost predicate Valid()
      reads this, cycles.Values
    {
      && (forall id :: id in cycles ==> cycles[id].cycleId == id && cycles[id].Valid())
      && AllAtRest(View())
      && RegistryIsUnion(View(), intents)
      && KeysAreOwn(hash, View())
    }

    constructor (ttl: real, hash: string -> string, stream: StreamHealthMonitor)
      ensures Valid() && cycles == map[] && intents == {}
      ensures this.ttl == ttl && this.hash == hash && this.stream == stream
    {
      this.ttl, this.hash, this.stream := ttl, hash, stream;
      cycles, intents := map[], {};
    }

    method SafeStop(cycle: ControlCycle, reason: string, code: string) returns (r: CycleOutcome)
      requires cycle.Valid() && code != ""
      modifies cycle`state, cycle`transitions, cycle`failureCode, cycle`visited
      ensures cycle.Valid()
      ensures cycle.visited == old(cycle.visited) + StopRoute(old(cycle.state))
      ensures StopRoute(old(cycle.state)) == [SAFE_STOP] ==> cycle.state == SAFE_STOP
      ensures cycle.failureCode == if StopRoute(old(cycle.state)) == [] then old(cycle.failureCode) else Some(code)
      ensures r == CycleOutcome(cycle.cycleId, cycle.state, "SAFE_STOP", None, false)
    {
      hide IsWalk, EndOf, Visited, Allowed, CanTransition;
      Edges();
      if cycle.state !in {SAFE_STOP, FAILED, COMPLETED} {
        var stopped := cycle.Transition(SAFE_STOP, reason, Some(code));
        if !stopped {
          var failed := cycle.Transition(FAILED, reason, Some(code));
          if failed {
            var _ := cycle.Transition(SAFE_STOP, "after_fail", Some(code));
            assert cycle.visited == old(cycle.visited) + [FAILED, SAFE_STOP];
          }
        }
      }
      r := CycleOutcome(cycle.cycleId, cycle.state, "SAFE_STOP", None, false);
    }

    /** Moves the cycle on; the edge is always allowed where this is called. */
    method Advance(cycle: ControlCycle, target: ControlState, reason: string)
      requires cycle.Valid() && CanTransition(cycle.state, target)
      modifies cycle`state, cycle`transitions, cycle`failureCode, cycle`visited
      ensures cycle.Valid() && cycle.state == target
      ensures cycle.visited == old(cycle.visited) + [target] && cycle.failureCode == old(cycle.failureCode)
    {
      hide IsWalk, EndOf, Visited, Allowed, CanTransition;
      var ok := cycle.Transition(target, reason, None);
      assert ok;
    }

    /** From IDLE to DECIDING, or to an early end; None to go on. */
    method Prepare(cycle: ControlCycle, x: CycleInput) returns (stop: Option<RunResult>)
      requires cycle.Valid() && cycle.state == IDLE && cycle.visited == [] && cycle.failureCode == None
      requires cycle.expiresAt == x.now + ttl
      modifies stream, cycle`state, cycle`transitions, cycle`failureCode, cycle`visited
      ensures cycle.Valid() && stream.Model() == FeedAfter(x, old(stream.Model()))
      ensures stop.None? ==> cycle.state == DECIDING && cycle.visited == TO_DECISION && cycle.failureCode == None
      ensures stop.None? ==> ttl >= 0.0
      ensures stop.None? <==> ReachesDecision(x, ttl, old(stream.Model()))
      ensures stop.Some? ==> cycle.visited == EarlyRoute(x, ttl, old(stream.Model()))
      ensures stop.Some? ==> cycle.failureCode == EarlyFailure(x, ttl, old(stream.Model()))
      ensures stop == Some(Raised) <==> Interrupted(x)
      ensures stop.Some? && stop.value.Returned? ==> Reports(stop.value.outcome, cycle, ActionOf(x))
      ensures stop.Some? && stop.value.Returned? ==> stop.value.outcome.intentId == None
    {
      hide IsWalk, EndOf, Visited, Allowed, CanTransition, StopRoute;
      hide ValidationFails, PredictionFails, Good, Heard, Ticked;
      Edges();
      if x.safeMode {
        Advance(cycle, OBSERVING, "start");
        var r := SafeStop(cycle, "SAFE_MODE", "SAFE_MODE");
        return Some(Returned(r));
      }
      Advance(cycle, OBSERVING, "start_observe");
      if x.crashAfter == "OBSERVING" {
        Advance(cycle, RECOVERY_REQUIRED, "simulated_crash");
        return Some(Returned(CycleOutcome(cycle.cycleId, cycle.state, "RECOVERY_REQUIRED", None, true)));
      }
      Advance(cycle, VALIDATING, "validate_quote");
      stop := Examine(cycle, x);
    }

    /** From VALIDATING to DECIDING, or to a safe stop, or out by an exception. */
    method Examine(cycle: ControlCycle, x: CycleInput) returns (stop: Option<RunResult>)
      requires cycle.Valid() && cycle.state == VALIDATING && cycle.visited == BROKEN_OFF && cycle.failureCode == None
      requires cycle.expiresAt == x.now + ttl && Validates(x)
      modifies stream, cycle`state, cycle`transitions, cycle`failureCode, cycle`visited
      ensures cycle.Valid() && stream.Model() == FeedAfter(x, old(stream.Model()))
      ensures stop.None? ==> ttl >= 0.0
      ensures stop.None? <==> !ValidationFails(x, ttl, old(stream.Model())) && !PredictionFails(x)
      ensures stop.None? ==> cycle.state == DECIDING && cycle.visited == TO_DECISION && cycle.failureCode == None
      ensures stop == Some(Raised) <==> x.quote.timestamp.None?
      ensures stop.Some? ==> cycle.visited == EarlyRoute(x, ttl, old(stream.Model()))
      ensures stop.Some? ==> cycle.failureCode == EarlyFailure(x, ttl, old(stream.Model()))
      ensures stop.Some? && stop.value.Returned? ==>
                && cycle.state == SAFE_STOP
                && stop.value.outcome == CycleOutcome(cycle.cycleId, SAFE_STOP, "SAFE_STOP", None, false)
    {
      hide IsWalk, EndOf, Visited, Allowed, CanTransition, StopRoute;
      hide ValidationFails, PredictionFails, Good, FeedAfter, EarlyFailure;
      Edges();
      var check := Validate(cycle, x);
      if check.Broken? {
        return Some(Raised);
      }
      if check.Problem? {
        var r := SafeStop(cycle, check.reason, check.code);
        return Some(Returned(r));
      }
      Advance(cycle, ASSESSING, "fuse_evidence");
      Advance(cycle, PREDICTING, "ml_predict");
      if PredictionFails(x) {
        OnlyTheModelIsLeft(x, ttl, old(stream.Model()));
        var r := SafeStop(cycle, "model_failure", "MODEL_FAILURE");
        return Some(Returned(r));
      }
      Advance(cycle, DECIDING, "market_decision");
      stop := None;
    }

    /** The tests in order. The quote is fed to the monitor before it is looked at. */
    method Validate(cycle: ControlCycle, x: CycleInput) returns (check: Check)
      requires cycle.expiresAt == x.now + ttl && Validates(x)
      modifies stream
      ensures stream.Model() == FeedAfter(x, old(stream.Model()))
      ensures check.Broken? <==> x.quote.timestamp.None?
      ensures check.Passed? <==> !ValidationFails(x, ttl, old(stream.Model()))
      ensures check.Problem? ==> check.code != "" && EarlyFailure(x, ttl, old(stream.Model())) == Some(check.code)
      ensures check.Broken? ==> EarlyFailure(x, ttl, old(stream.Model())) == None
      ensures check.Passed? ==> ttl >= 0.0
    {
      hide Heard, Ticked, Good;
      QuoteIsTimed(x);
      stream.OnMessage(Some(SequenceOf(x.quote)), x.quote.timestamp, x.clock);
      var qv := ValidateQuote(x.quote, x.now, DEFAULT_TERMS);
      if qv.None? {
        return Broken;
      }
      if !qv.value.ok {
        return Problem("quote_invalid", "DATA_FAILURE");
      }
      stream.Tick(x.now);
      if stream.state != HEALTHY {
        return Problem("stream", "STREAM_FAILURE");
      }
      if !x.reconciliationHealthy {
        return Problem("reconciliation_unhealthy", "DATA_FAILURE");
      }
      if x.position.Some? && x.position.value.sideUnknown {
        return Problem("position_unknown", "UNKNOWN_FAILURE");
      }
      if x.position.Some? && x.position.value.recoveryIncomplete {
        return Problem("position_recovery_incomplete", "UNKNOWN_FAILURE");
      }
      if cycle.IsExpired(x.now) {
        return Problem("cycle_ttl_expired", "TIMEOUT");
      }
      check := Passed;
    }

    /** Through paper execution to COMPLETED. */
    method Complete(cycle: ControlCycle, execute: string, monitor: string, done: string)
      requires cycle.Valid() && cycle.state == EXECUTION_INTENT && cycle.visited == TO_INTENT
      modifies cycle`state, cycle`transitions, cycle`failureCode, cycle`visited
      ensures cycle.Valid() && cycle.state == COMPLETED && cycle.visited == WHOLE
      ensures cycle.failureCode == old(cycle.failureCode)
    {
      hide IsWalk, EndOf, Visited, Allowed, CanTransition, StopRoute;
      Edges();
      Advance(cycle, PAPER_EXECUTION, execute);
      Advance(cycle, MONITORING, monitor);
      Advance(cycle, REASSESSMENT, "reassess");
      Advance(cycle, COMPLETED, done);
    }

    /** A decision without an entry passes the risk check and the intent state in name only. */
    method SkipEntry(cycle: ControlCycle)
      requires cycle.Valid() && cycle.state == DECIDING && cycle.visited == TO_DECISION
      modifies cycle`state, cycle`transitions, cycle`failureCode, cycle`visited
      ensures cycle.Valid() && cycle.state == COMPLETED && cycle.visited == WHOLE
      ensures cycle.failureCode == old(cycle.failureCode)
    {
      hide IsWalk, EndOf, Visited, Allowed, CanTransition, StopRoute;
      Edges();
      Advance(cycle, RISK_CHECK, "no_entry_skip_risk_heavy");
      Advance(cycle, EXECUTION_INTENT, "no_intent");
      Complete(cycle, "null_skip", "monitor", "complete_no_entry");
    }

    /** From DECIDING to the end. */
    method Conclude(cycle: ControlCycle, x: CycleInput) returns (r: CycleOutcome)
      requires cycle.Valid() && cycle.state == DECIDING && cycle.visited == TO_DECISION && cycle.failureCode == None
      requires cycle.intentIds == [] && cycle.expiresAt == x.now + ttl && ttl >= 0.0
      modifies cycle, this`intents
      ensures cycle.Valid()
      ensures var key := IntentKey(hash, cycle.cycleId, ActionOf(x), cycle.symbol);
              var registers := Enters(x.decision) && key !in old(intents);
              && cycle.visited == LateRoute(x, key in old(intents))
              && cycle.failureCode == LateFailure(x, key in old(intents))
              && cycle.intentIds == (if registers then [key] else [])
              && intents == old(intents) + (if registers then {key} else {})
              && r.intentId == (if registers then Some(key) else None)
      ensures Reports(r, cycle, ActionOf(x))
    {
      hide IsWalk, EndOf, Visited, Allowed, CanTransition, StopRoute, IntentKey;
      Edges();
      if x.decision.DecisionRaises? {
        r := SafeStop(cycle, "decision_failure", "DECISION_FAILURE");
        return;
      }
      var action := x.decision.action;
      if action == "NO_TRADE" || action == "HOLD" || !x.decision.allowedNewEntry {
        SkipEntry(cycle);
        return CycleOutcome(cycle.cycleId, cycle.state, action, None, false);
      }
      Advance(cycle, RISK_CHECK, "paper_risk");
      if !x.decision.riskAllowed {
        r := SafeStop(cycle, "risk_halt", "RISK_FAILURE");
        return;
      }
      r := EnterPosition(cycle, x);
    }

    /** From an approved RISK_CHECK to the end: intent, then paper execution. */
    method EnterPosition(cycle: ControlCycle, x: CycleInput) returns (r: CycleOutcome)
      requires cycle.Valid() && cycle.state == RISK_CHECK && cycle.visited == TO_DECISION + [RISK_CHECK]
      requires cycle.failureCode == None
      requires cycle.intentIds == [] && cycle.expiresAt == x.now + ttl && ttl >= 0.0 && Enters(x.decision)
      modifies cycle, this`intents
      ensures cycle.Valid()
      ensures var key := IntentKey(hash, cycle.cycleId, x.decision.action, cycle.symbol);
              var registers := key !in old(intents);
              && cycle.visited == LateRoute(x, key in old(intents))
              && cycle.failureCode == LateFailure(x, key in old(intents))
              && cycle.intentIds == (if registers then [key] else [])
              && intents == old(intents) + (if registers then {key} else {})
              && r.intentId == (if registers then Some(key) else None)
      ensures Reports(r, cycle, x.decision.action)
    {
      hide IsWalk, EndOf, Visited, Allowed, CanTransition, StopRoute, IntentKey;
      Edges();
      Advance(cycle, EXECUTION_INTENT, "create_intent");
      var action := x.decision.action;
      var intentId := IntentKey(hash, cycle.cycleId, action, cycle.symbol);
      var registered := false;
      if intentId !in intents {
        registered := cycle.RegisterIntent(intentId);
      }
      if !registered {
        r := SafeStop(cycle, "duplicate_intent", "EXECUTION_CONTRACT_FAILURE");
        return;
      }
      intents := intents + {intentId};
      if x.crashAfter == "EXECUTION_INTENT" {
        Advance(cycle, RECOVERY_REQUIRED, "crash_after_intent");
        return CycleOutcome(cycle.cycleId, cycle.state, "RECOVERY_REQUIRED", Some(intentId), true);
      }
      if cycle.IsExpired(x.now) {
        // Unreachable: the same instant passed the same test before.
        assert false;
      }
      Complete(cycle, "paper_null", "monitor_paper", "complete");
      r := CycleOutcome(cycle.cycleId, cycle.state, action, Some(intentId), false);
    }

    /** The whole way of a fresh cycle. */
    method Walk(cycle: ControlCycle, x: CycleInput) returns (r: RunResult)
      requires cycle.Valid() && cycle.state == IDLE && cycle.visited == [] && cycle.intentIds == []
      requires cycle.failureCode == None
      requires cycle.expiresAt == x.now + ttl
      modifies stream, cycle, this`intents
      ensures cycle.Valid() && stream.Model() == FeedAfter(x, old(stream.Model()))
      ensures var key := IntentKey(hash, cycle.cycleId, ActionOf(x), cycle.symbol);
              var registers := WantsIntent(x, ttl, old(stream.Model())) && key !in old(intents);
              && cycle.visited == Route(x, ttl, old(stream.Model()), key in old(intents))
              && cycle.failureCode == FailureOf(x, ttl, old(stream.Model()), key in old(intents))
              && cycle.intentIds == (if registers then [key] else [])
              && intents == old(intents) + (if registers then {key} else {})
              && (r.Returned? ==> r.outcome.intentId == if registers then Some(key) else None)
      ensures r.Raised? <==> Interrupted(x)
      ensures r.Returned? ==> Reports(r.outcome, cycle, ActionOf(x))
    {
      hide IsWalk, EndOf, Visited, EarlyRoute, LateRoute, IntentKey, ValidationFails, PredictionFails, Enters;
      hide FeedAfter, Good, EarlyFailure, LateFailure;
      var stop := Prepare(cycle, x);
      if stop.Some? {
        return stop.value;
      }
      var outcome := Conclude(cycle, x);
      r := Returned(outcome);
    }

    /** Resumes a known cycle that is not completed, one broken off included. */
    method Resume(cycle: ControlCycle) returns (r: CycleOutcome)
      requires cycle.Valid() && cycle.state in {SAFE_STOP, RECOVERY_REQUIRED, VALIDATING}
      modifies cycle`state, cycle`transitions, cycle`failureCode, cycle`visited
      ensures cycle.Valid() && cycle.state == RECOVERY_REQUIRED
      ensures cycle.visited == old(cycle.visited)
                + if old(cycle.state) == RECOVERY_REQUIRED then [] else [RECOVERY_REQUIRED]
      ensures r == CycleOutcome(cycle.cycleId, RECOVERY_REQUIRED, "RECOVERY_REQUIRED", None, true)
    {
      hide IsWalk, EndOf, Visited, Allowed, CanTransition, StopRoute;
      Edges();
      if cycle.state != RECOVERY_REQUIRED {
        Advance(cycle, RECOVERY_REQUIRED, "restart");
      }
      r := CycleOutcome(cycle.cycleId, cycle.state, "RECOVERY_REQUIRED", None, true);
    }

    predicate Resumes(x: CycleInput)
      reads this, cycles.Values
    {
      x.resumeId != "" && x.resumeId in cycles && cycles[x.resumeId].state !in {COMPLETED, IDLE}
    }

    /** One call. `freshId` is the id a new cycle would get, which no cycle has yet. Only one cycle changes: the
        resumed one, or the new one. A call raises if and only if it starts a cycle, outside safe mode and without
        the crash after OBSERVING, on a quote without a timestamp; that cycle is left in VALIDATING, and every other
        comes to rest. The log is the expected route, the intent is new, and the monitor has heard the quote. */
    method RunCycle(x: CycleInput, freshId: string) returns (r: RunResult)
      requires Valid() && freshId !in cycles
      modifies this, stream, cycles.Values
      ensures Valid()
      ensures old(Resumes(x)) <==>
                && x.resumeId != "" && x.resumeId in old(cycles)
                && old(View())[x.resumeId].state != COMPLETED && old(View())[x.resumeId].state != IDLE
      ensures var id := if old(Resumes(x)) then x.resumeId else freshId;
              && id in cycles
              && (Stable(cycles[id].state) <==> r.Returned?)
              && (r.Returned? ==> Reports(r.outcome, cycles[id], ActionOf(x)))
              && View() == old(View())[id := View()[id]]
      ensures r.Raised? <==>
                && !old(Resumes(x)) && !x.safeMode && x.crashAfter != "OBSERVING"
                && x.quote.timestamp.None?
      ensures r.Raised? ==> View()[freshId] == Rest(VALIDATING, BROKEN_OFF, []) && intents == old(intents)
      ensures stream.Model() == if old(Resumes(x)) then old(stream.Model()) else FeedAfter(x, old(stream.Model()))
      ensures old(Resumes(x)) ==>
                && intents == old(intents) && r.Returned? && r.outcome.finalState == RECOVERY_REQUIRED
                && var before := old(View())[x.resumeId];
                && View()[x.resumeId].intentIds == before.intentIds
                && View()[x.resumeId].visited ==
                   before.visited + if before.state == RECOVERY_REQUIRED then [] else [RECOVERY_REQUIRED]
      ensures !old(Resumes(x)) ==>
                var key := IntentKey(hash, freshId, ActionOf(x), SymbolOf(x));
                var registers := WantsIntent(x, ttl, old(stream.Model())) && key !in old(intents);
                && View()[freshId].visited == Route(x, ttl, old(stream.Model()), key in old(intents))
                && cycles[freshId].failureCode == FailureOf(x, ttl, old(stream.Model()), key in old(intents))
                && View()[freshId].intentIds == (if registers then [key] else [])
                && intents == old(intents) + (if registers then {key} else {})
                && (r.Returned? ==> r.outcome.intentId == if registers then Some(key) else None)
    {
      hide IsWalk, EndOf, Visited, Route, WantsIntent, IntentKey, Stable, Allowed, CanTransition, FeedAfter, FailureOf;
      if x.resumeId != "" && x.resumeId in cycles {
        var known := cycles[x.resumeId];
        if known.state !in {COMPLETED, IDLE} {
          var outcome := ResumeKnown(x.resumeId);
          return Returned(outcome);
        }
      }
      r := RunFresh(x, freshId);
    }

    method ResumeKnown(id: string) returns (r: CycleOutcome)
      requires Valid() && id in cycles && cycles[id].state != COMPLETED
      modifies cycles[id]
      ensures Valid()
      ensures r == CycleOutcome(id, RECOVERY_REQUIRED, "RECOVERY_REQUIRED", None, true)
      ensures cycles[id].state == RECOVERY_REQUIRED && Stable(cycles[id].state) && Reports(r, cycles[id], "")
      ensures View() == old(View())[id := View()[id]] && View()[id].intentIds == old(View())[id].intentIds
      ensures View()[id].visited == old(View())[id].visited
                + if old(View())[id].state == RECOVERY_REQUIRED then [] else [RECOVERY_REQUIRED]
    {
      hide RegistryIsUnion, AllAtRest, KeysAreOwn, IsWalk, EndOf, Visited, Allowed;
      var cycle := cycles[id];
      ghost var before := View();
      RestOf(before, id);
      r := Resume(cycle);
      assert View() == before[id := View()[id]];
      RestsStill(before, id, View()[id]);
      RegistryUnmoved(before, intents, id, View()[id]);
      KeysStayOwn(hash, before, id, View()[id], "", "");
    }

    /** Enters a cycle under its own id. */
    method Adopt(cycle: ControlCycle)
      requires cycle.Valid() && cycle.cycleId !in cycles
      requires forall id :: id in cycles ==> cycles[id].cycleId == id && cycles[id].Valid()
      modifies this`cycles
      ensures cycles == old(cycles)[cycle.cycleId := cycle]
      ensures View() == old(View())[cycle.cycleId := Rest(cycle.state, cycle.visited, cycle.intentIds)]
      ensures forall id :: id in cycles ==> cycles[id].cycleId == id && cycles[id].Valid()
    {
      hide IsWalk, EndOf, Visited;
      cycles := cycles[cycle.cycleId := cycle];
    }

    method RunFresh(x: CycleInput, freshId: string) returns (r: RunResult)
      requires Valid() && freshId !in cycles
      modifies this, stream
      ensures Valid() && stream.Model() == FeedAfter(x, old(stream.Model()))
      ensures freshId in cycles && View() == old(View())[freshId := View()[freshId]]
      ensures Stable(cycles[freshId].state) <==> r.Returned?
      ensures r.Raised? <==> Interrupted(x)
      ensures r.Raised? ==> View()[freshId] == Rest(VALIDATING, BROKEN_OFF, []) && intents == old(intents)
      ensures r.Returned? ==> Reports(r.outcome, cycles[freshId], ActionOf(x))
      ensures var key := IntentKey(hash, freshId, ActionOf(x), SymbolOf(x));
              var registers := WantsIntent(x, ttl, old(stream.Model())) && key !in old(intents);
              && View()[freshId].visited == Route(x, ttl, old(stream.Model()), key in old(intents))
              && cycles[freshId].failureCode == FailureOf(x, ttl, old(stream.Model()), key in old(intents))
              && View()[freshId].intentIds == (if registers then [key] else [])
              && intents == old(intents) + (if registers then {key} else {})
              && (r.Returned? ==> r.outcome.intentId == if registers then Some(key) else None)
    {
      hide AllAtRest, RegistryIsUnion, KeysAreOwn, IsWalk, EndOf, Visited, Route, IntentKey, Stable, Allowed;
      hide CanTransition;
      hide WantsIntent, Interrupted, FeedAfter, SymbolOf, FailureOf;
      ghost var key := IntentKey(hash, freshId, ActionOf(x), SymbolOf(x));
      ghost var before, known, feed := View(), intents, stream.Model();
      var cycle := new ControlCycle(freshId, SymbolOf(x), x.now, ttl);
      r := Walk(cycle, x);
      RouteComesToRest(cycle, x, ttl, feed, key in known);
      ghost var rest := Rest(cycle.state, cycle.visited, cycle.intentIds);
      Settle(before, known, freshId, rest, key);
      KeysStayOwn(hash, before, freshId, rest, ActionOf(x), SymbolOf(x));
      Adopt(cycle);
      assert intents == known + if rest.intentIds == [] then {} else {key};
    }
  }

  lemma RouteComesToRest(cycle: ControlCycle, x: CycleInput, ttl: real, feed: Health, collides: bool)
    requires cycle.Valid() && cycle.visited == Route(x, ttl, feed, collides)
    ensures FAILED !in cycle.visited && (Stable(cycle.state) <==> !Interrupted(x))
    ensures Interrupted(x) ==> cycle.state == VALIDATING && cycle.visited == BROKEN_OFF && !WantsIntent(x, ttl, feed)
  {
    hide Route;
    RoutesAreStable(x, ttl, feed, collides);
    RestsAtEnd(cycle);
  }

  lemma Settle(view: map<string, Rest>, intents: set<string>, id: string, r: Rest, key: string)
    requires AllAtRest(view) && RegistryIsUnion(view, intents) && id !in view
    requires Stable(r.state) || (r.state == VALIDATING && r.visited == BROKEN_OFF && r.intentIds == [])
    requires FAILED !in r.visited
    requires r.intentIds == [] || (r.intentIds == [key] && key !in intents)
    ensures AllAtRest(view[id := r])
    ensures RegistryIsUnion(view[id := r], intents + if r.intentIds == [] then {} else {key})
  {
    RegistryGrows(view, intents, id, r);
    assert ToSet(r.intentIds) == if r.intentIds == [] then {} else {key};
  }

  lemma RestsAtEnd(cycle: ControlCycle)
    requires cycle.Valid() && cycle.visited != []
    ensures cycle.state == cycle.visited[|cycle.visited| - 1]
  {
  }
}
