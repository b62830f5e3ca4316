/** Safety of the live path over every run: when the broker may be called, what a kill switch takes to undo,
    and what the risk counters mean in terms of the history. */
module LiveSafety {
  import opened Common
  import opened LivePreflight
  import opened LiveAuthorization
  import opened LiveController

  datatype Op =
    | Evaluate(checks: map<string, CheckStatus>)
    | Arm(ack: string, capital: bool)
    | PolicyArm(prerequisitesSatisfied: bool, capital: bool)
    | Disarm
    | Kill(reason: string)
    | Reset(ack: string)
    | Submit(intent: Intent, broker: Option<BrokerReply>, capital: bool)
    | Fill(profit: real)
    | OnGate(op: GateOp)

  function Step(cfg: Config, c: Control, op: Op): Control {
    match op
    case Evaluate(checks) => EvaluateSpec(c, checks)
    case Arm(ack, capital) => ControlArmSpec(cfg, c, ack, capital).0
    case PolicyArm(satisfied, capital) => PolicyArmSpec(cfg, c, satisfied, capital).0
    case Disarm => ControlDisarmSpec(c).0
    case Kill(reason) => KillSpec(c, reason)
    case Reset(ack) => ResetSpec(c, ack).0
    case Submit(intent, broker, capital) => SubmitSpec(cfg, c, intent, broker, capital).0
    case Fill(profit) => FillSpec(c, profit)
    case OnGate(gateOp) => c.(gate := GateStep(c.gate, gateOp))
  }

  function Run(cfg: Config, c: Control, ops: seq<Op>): Control {
    if ops == [] then c else Step(cfg, Run(cfg, c, ops[..|ops| - 1]), ops[|ops| - 1])
  }

  /** The operation invokes `broker_submit`. */
  predicate CallsBroker(cfg: Config, c: Control, op: Op) {
    op.Submit? && Refusal(cfg, c, op.intent, op.broker, op.capital).None?
  }

  predicate Active(c: Control) {
    c.state in {ARMED, MONITORING}
  }

  ghost predicate Invariant(cfg: Config, c: Control) {
    && (Active(c) ==> PreflightPassed(c))
    && (PreflightPassed(c) ==> EveryCheckPassed(c.preflight))
    && c.state !in {READY, ARMING, EXECUTING}
    && GateInvariant(c.gate)
    && (c.openPositions == 0 || c.openPositions <= cfg.limits.maxOpenPositions)
  }

  lemma StepKeepsInvariant(cfg: Config, c: Control, op: Op)
    requires Invariant(cfg, c)
    ensures Invariant(cfg, Step(cfg, c, op))
  {
    hide Preflight, GateInvariant, GateStep, ArmSpec, DisarmSpec, ResumeSpec, EveryCheckPassed, CanSubmitLive, Upper;
    PassExactly(map[], true);
    match op {
      case Evaluate(checks) => PassExactly(checks, false);
      case Arm(ack, _) => GateStepIs(c.gate, ArmGate(ack));
      case PolicyArm(satisfied, _) => GateStepIs(c.gate, ResumeGate(true, satisfied));
      case Disarm => GateStepIs(c.gate, DisarmGate);
      case OnGate(gateOp) => GateStepIs(c.gate, gateOp);
      case _ =>
    }
  }

  lemma GateStepIs(g: Gate, op: GateOp)
    requires GateInvariant(g)
    ensures GateInvariant(GateStep(g, op))
    ensures op.ArmGate? ==> GateStep(g, op) == ArmSpec(g, op.authorization).0
    ensures op.DisarmGate? ==> GateStep(g, op) == DisarmSpec(g).0
    ensures op.ResumeGate? ==> GateStep(g, op) == ResumeSpec(g, op.autonomousLive, op.prerequisitesSatisfied).0
  {
    GateStepKeepsInvariant(g, op);
  }

  lemma {:induction false} RunsKeepInvariant(cfg: Config, ops: seq<Op>)
    ensures Invariant(cfg, Run(cfg, NewControl(cfg), ops))
  {
    hide Preflight;
    if ops == [] {
      PassExactly(map[], true);
    } else {
      RunsKeepInvariant(cfg, ops[..|ops| - 1]);
      StepKeepsInvariant(cfg, Run(cfg, NewControl(cfg), ops[..|ops| - 1]), ops[|ops| - 1]);
    }
  }

  /** Whenever the broker is called, in any run: the controller is armed or monitoring, the last preflight passed
      every mandatory check, the id is new, every risk limit holds, and in live mode the gate is armed with all nine
      prerequisites and capital allowed. */
  lemma BrokerCallsAreAuthorised(cfg: Config, ops: seq<Op>, op: Op)
    requires CallsBroker(cfg, Run(cfg, NewControl(cfg), ops), op)
    ensures var c := Run(cfg, NewControl(cfg), ops);
            && Active(c)
            && EveryCheckPassed(c.preflight)
            && op.intent.clientOrderId !in c.clientOrderIds
            && WithinLimits(cfg.limits, c, op.intent)
            && (cfg.mode.LIVE_MODE? ==>
                  && c.gate.state.LIVE_ARMED? && !c.gate.safeMode && c.gate.explicitArmed
                  && (forall p: Prerequisite :: p in c.gate.satisfied)
                  && op.capital)
  {
    hide Run, Missing, Upper, EveryCheckPassed;
    RunsKeepInvariant(cfg, ops);
    AllSatisfiedMeansAll(Run(cfg, NewControl(cfg), ops).gate.satisfied);
  }

  lemma RunOfThree(cfg: Config, c: Control, x: Op, y: Op, z: Op)
    ensures Run(cfg, c, [x, y, z]) == Step(cfg, Step(cfg, Step(cfg, c, x), y), z)
  {
    hide Step;
    var c1, c2 := Step(cfg, c, x), Step(cfg, Step(cfg, c, x), y);
    assert [x][..0] == [] && Run(cfg, c, [x]) == c1;
    assert [x, y][..1] == [x] && Run(cfg, c, [x, y]) == c2;
    assert [x, y, z][..2] == [x, y];
  }

  lemma GateBecomesReady(g: Gate, satisfied: set<Prerequisite>, ack: string)
    requires g.state.LIVE_DISABLED? && !g.safeMode && !g.explicitArmed && AllSatisfied(satisfied) && !Blank(ack)
    ensures var h := GateStep(g, SetPrerequisites(satisfied));
            ArmSpec(h, ack).1.ok && CanSubmitLive(ArmSpec(h, ack).0)
  {
    hide Missing, Blank;
  }

  lemma PassingKeepsState(cfg: Config, c: Control, checks: map<string, CheckStatus>)
    requires Vouched(checks, MANDATORY)
    ensures Step(cfg, c, Evaluate(checks)) == c.(preflight := Preflight(checks, false))
    ensures Preflight(checks, false).overall == PASS
  {
    PassExactly(checks, false);
    hide Preflight, Vouched;
  }

  lemma ArmStep(cfg: Config, c: Control, ack: string)
    requires cfg.mode.LIVE_MODE? && !c.state.HALTED? && PreflightPassed(c)
    requires ack != "" && ArmSpec(c.gate, ack).1.ok
    ensures Step(cfg, c, Arm(ack, true)) == c.(state := ARMED, gate := ArmSpec(c.gate, ack).0)
  {
    hide ArmSpec;
  }

  lemma ArmedReaches(cfg: Config, c: Control, intent: Intent, reply: BrokerReply)
    requires c.state.ARMED? && CanSubmitLive(c.gate) && intent.clientOrderId !in c.clientOrderIds
    requires WithinLimits(cfg.limits, c, intent)
    ensures CallsBroker(cfg, c, Submit(intent, Some(reply), true))
  {
    hide Upper, CanSubmitLive;
  }

  lemma ArmedAfter(cfg: Config, c: Control, satisfied: set<Prerequisite>, checks: map<string, CheckStatus>, ack: string)
    requires cfg.mode.LIVE_MODE? && AllSatisfied(satisfied) && Vouched(checks, MANDATORY) && !Blank(ack)
    requires c.state.DISABLED? && c.gate.state.LIVE_DISABLED? && !c.gate.safeMode && !c.gate.explicitArmed
    ensures var d := Run(cfg, c, [OnGate(SetPrerequisites(satisfied)), Evaluate(checks), Arm(ack, true)]);
            d.state.ARMED? && CanSubmitLive(d.gate)
            && d == c.(state := d.state, gate := d.gate, preflight := d.preflight)
  {
    hide Preflight, Vouched, AllSatisfied;
    var c1 := c.(gate := GateStep(c.gate, SetPrerequisites(satisfied)));
    var c2 := c1.(preflight := Preflight(checks, false));
    GateBecomesReady(c.gate, satisfied, ack);
    RunOfThree(cfg, c, OnGate(SetPrerequisites(satisfied)), Evaluate(checks), Arm(ack, true));
    assert Step(cfg, c, OnGate(SetPrerequisites(satisfied))) == c1;
    PassingKeepsState(cfg, c1, checks);
    hide Run, Step, GateStep, ArmSpec, CanSubmitLive;
    ArmStep(cfg, c2, ack);
  }

  /** The safety results are not empty. A new controller in live mode calls the broker for every intent within the
      limits once all prerequisites are true, every mandatory check is vouched for, and it is armed with an
      acknowledgement. */
  lemma BrokerIsReachable(cfg: Config, satisfied: set<Prerequisite>, checks: map<string, CheckStatus>, ack: string,
                          intent: Intent, reply: BrokerReply)
    requires cfg.mode.LIVE_MODE? && AllSatisfied(satisfied) && Vouched(checks, MANDATORY) && !Blank(ack)
    requires WithinLimits(cfg.limits, NewControl(cfg), intent)
    ensures var ops := [OnGate(SetPrerequisites(satisfied)), Evaluate(checks), Arm(ack, true)];
            CallsBroker(cfg, Run(cfg, NewControl(cfg), ops), Submit(intent, Some(reply), true))
  {
    hide Preflight, Vouched, AllSatisfied, Run, CanSubmitLive, Upper, CallsBroker, Blank;
    var c := NewControl(cfg);
    ArmedAfter(cfg, c, satisfied, checks, ack);
    var d := Run(cfg, c, [OnGate(SetPrerequisites(satisfied)), Evaluate(checks), Arm(ack, true)]);
    assert WithinLimits(cfg.limits, d, intent);
    ArmedReaches(cfg, d, intent, reply);
  }

  // ---- The kill switch -----------------------------------------------------------------------

  predicate ResetsHalt(c: Control, op: Op) {
    op.Reset? && c.state.HALTED? && ResetSpec(c, op.ack).1.ok
  }

  predicate PassesPreflight(c: Control, op: Op) {
    op.Evaluate? && PreflightPassed(EvaluateSpec(c, op.checks))
  }

  predicate ArmsController(cfg: Config, c: Control, op: Op) {
    || (op.Arm? && ControlArmSpec(cfg, c, op.ack, op.capital).1.ok)
    || (op.PolicyArm? && PolicyArmSpec(cfg, c, op.prerequisitesSatisfied, op.capital).1.ok)
  }

  /** What one step can and cannot do towards a broker call. */
  lemma NoShortcuts(cfg: Config, c: Control, op: Op)
    ensures !Active(c) && Active(Step(cfg, c, op)) ==> ArmsController(cfg, c, op)
    ensures ArmsController(cfg, c, op) ==> PreflightPassed(c) && !c.state.HALTED?
    ensures !PreflightPassed(c) && PreflightPassed(Step(cfg, c, op)) ==> PassesPreflight(c, op)
    ensures c.state.HALTED? && !Step(cfg, c, op).state.HALTED? ==> ResetsHalt(c, op)
    ensures ResetsHalt(c, op) ==> !PreflightPassed(Step(cfg, c, op)) && !Active(Step(cfg, c, op))
    ensures CallsBroker(cfg, c, op) ==> Active(c)
  {
    hide Preflight, GateStep, ArmSpec, DisarmSpec, ResumeSpec, CanSubmitLive, Upper;
    PassExactly(map[], true);
  }

  /** The state before the i-th operation of a run. */
  function At(cfg: Config, c: Control, ops: seq<Op>, i: nat): Control
    requires i <= |ops|
  {
    Run(cfg, c, ops[..i])
  }

  lemma AtNext(cfg: Config, c: Control, ops: seq<Op>, i: nat)
    requires i < |ops|
    ensures At(cfg, c, ops, 0) == c
    ensures At(cfg, c, ops, i + 1) == Step(cfg, At(cfg, c, ops, i), ops[i])
  {
    assert ops[..i + 1][..i] == ops[..i];
  }

  /** A controller that is not active at `from` and is active at `until` was armed in between. */
  lemma {:induction false} ArmedBetween(cfg: Config, c: Control, ops: seq<Op>, from: nat, until: nat) returns (i: nat)
    requires from <= until <= |ops| && !Active(At(cfg, c, ops, from)) && Active(At(cfg, c, ops, until))
    ensures from <= i < until && ArmsController(cfg, At(cfg, c, ops, i), ops[i])
    decreases until
  {
    hide Step, At, ArmsController;
    i := until - 1;
    AtNext(cfg, c, ops, i);
    NoShortcuts(cfg, At(cfg, c, ops, i), ops[i]);
    if Active(At(cfg, c, ops, i)) {
      i := ArmedBetween(cfg, c, ops, from, i);
    }
  }

  lemma {:induction false} PassedBetween(cfg: Config, c: Control, ops: seq<Op>, from: nat, until: nat) returns (i: nat)
    requires from <= until <= |ops|
    requires !PreflightPassed(At(cfg, c, ops, from)) && PreflightPassed(At(cfg, c, ops, until))
    ensures from <= i < until && PassesPreflight(At(cfg, c, ops, i), ops[i])
    decreases until
  {
    hide Step, At, PassesPreflight;
    i := until - 1;
    AtNext(cfg, c, ops, i);
    NoShortcuts(cfg, At(cfg, c, ops, i), ops[i]);
    if PreflightPassed(At(cfg, c, ops, i)) {
      i := PassedBetween(cfg, c, ops, from, i);
    }
  }

  lemma {:induction false} ResetBetween(cfg: Config, c: Control, ops: seq<Op>, from: nat, until: nat) returns (i: nat)
    requires from <= until <= |ops| && At(cfg, c, ops, from).state.HALTED? && !At(cfg, c, ops, until).state.HALTED?
    ensures from <= i < until && ResetsHalt(At(cfg, c, ops, i), ops[i])
    decreases until
  {
    hide Step, At, ResetsHalt;
    i := until - 1;
    AtNext(cfg, c, ops, i);
    NoShortcuts(cfg, At(cfg, c, ops, i), ops[i]);
    if !At(cfg, c, ops, i).state.HALTED? {
      i := ResetBetween(cfg, c, ops, from, i);
    }
  }

  /** After a kill switch (from any state, reachable or not) the broker is called again only after an acknowledged
      reset, then a passing preflight, then a successful arm, in this order. */
  lemma KillNeedsResetPreflightArm(cfg: Config, c: Control, reason: string, ops: seq<Op>, k: nat)
    requires k < |ops| && CallsBroker(cfg, At(cfg, KillSpec(c, reason), ops, k), ops[k])
    ensures var h := KillSpec(c, reason);
            exists i, j, l :: 0 <= i < j < l < k
              && ResetsHalt(At(cfg, h, ops, i), ops[i])
              && PassesPreflight(At(cfg, h, ops, j), ops[j])
              && ArmsController(cfg, At(cfg, h, ops, l), ops[l])
  {
    hide Step, ResetsHalt, PassesPreflight, ArmsController, CallsBroker, PreflightPassed;
    var h := KillSpec(c, reason);
    AtNext(cfg, h, ops, k);
    NoShortcuts(cfg, At(cfg, h, ops, k), ops[k]);
    var i := ResetBetween(cfg, h, ops, 0, k);
    AtNext(cfg, h, ops, i);
    NoShortcuts(cfg, At(cfg, h, ops, i), ops[i]);
    var l := ArmedBetween(cfg, h, ops, i + 1, k);
    NoShortcuts(cfg, At(cfg, h, ops, l), ops[l]);
    var j := PassedBetween(cfg, h, ops, i + 1, l);
  }

  // ---- Counters and history ------------------------------------------------------------------

  function Outcomes(ops: seq<Op>): seq<real> {
    if ops == [] then []
    else
      var n := |ops| - 1;
      Outcomes(ops[..n]) + if ops[n].Fill? then [ops[n].profit] else []
  }

  function Losses(outcomes: seq<real>): real {
    if outcomes == [] then 0.0
    else
      var n := |outcomes| - 1;
      Losses(outcomes[..n]) + if outcomes[n] < 0.0 then -outcomes[n] else 0.0
  }

  /** `n` is the length of the longest suffix of losing outcomes. */
  ghost predicate LosingStreak(outcomes: seq<real>, n: nat) {
    && n <= |outcomes|
    && (forall i :: |outcomes| - n <= i < |outcomes| ==> outcomes[i] < 0.0)
    && (n < |outcomes| ==> outcomes[|outcomes| - n - 1] >= 0.0)
  }

  /** The broker is called and answers (it does not raise). */
  predicate GetsAnswer(cfg: Config, c: Control, op: Op) {
    CallsBroker(cfg, c, op) && !op.broker.value.Raised?
  }

  predicate GetsAccepted(cfg: Config, c: Control, op: Op) {
    CallsBroker(cfg, c, op) && op.broker.value.Answer? && op.broker.value.ok
  }

  /** The client order ids that got an answer from the broker, in order. */
  function Answered(cfg: Config, c: Control, ops: seq<Op>): seq<string> {
    if ops == [] then []
    else
      var n := |ops| - 1;
      Answered(cfg, c, ops[..n])
      + if GetsAnswer(cfg, Run(cfg, c, ops[..n]), ops[n]) then [ops[n].intent.clientOrderId] else []
  }

  function Accepted(cfg: Config, c: Control, ops: seq<Op>): nat {
    if ops == [] then 0
    else
      var n := |ops| - 1;
      Accepted(cfg, c, ops[..n]) + if GetsAccepted(cfg, Run(cfg, c, ops[..n]), ops[n]) then 1 else 0
  }

  /** One more for an accepted answer, one less, but not below none, for a recorded fill. */
  function AfterOp(cfg: Config, c: Control, op: Op, held: nat): nat {
    if GetsAccepted(cfg, c, op) then held + 1
    else if op.Fill? && held > 0 then held - 1
    else held
  }

  /** The positions a run leaves open: accepted answers less recorded fills. */
  function Held(cfg: Config, c: Control, ops: seq<Op>): nat {
    if ops == [] then 0
    else
      var n := |ops| - 1;
      AfterOp(cfg, Run(cfg, c, ops[..n]), ops[n], Held(cfg, c, ops[..n]))
  }

  lemma StepCounters(cfg: Config, c: Control, op: Op)
    ensures var d := Step(cfg, c, op);
            && d.dailyLoss == c.dailyLoss + (if op.Fill? && op.profit < 0.0 then -op.profit else 0.0)
            && d.consecutiveLosses ==
               (if !op.Fill? then c.consecutiveLosses else if op.profit < 0.0 then c.consecutiveLosses + 1 else 0)
            && d.clientOrderIds == c.clientOrderIds + (if GetsAnswer(cfg, c, op) then {op.intent.clientOrderId} else {})
            && d.submitted == c.submitted + (if GetsAccepted(cfg, c, op) then 1 else 0)
            && d.openPositions == AfterOp(cfg, c, op, c.openPositions)
    ensures CallsBroker(cfg, c, op) ==> op.intent.clientOrderId !in c.clientOrderIds
    ensures CallsBroker(cfg, c, op) ==> c.dailyLoss < cfg.limits.maxDailyLoss
    ensures CallsBroker(cfg, c, op) ==> c.consecutiveLosses < cfg.limits.maxConsecutiveLosses
    ensures GetsAnswer(cfg, c, op) ==> op.Submit? && op.intent.clientOrderId !in c.clientOrderIds
  {
    hide Preflight, GateStep, ArmSpec, DisarmSpec, ResumeSpec, CanSubmitLive, Upper;
  }

  /** The loss counters are functions of the recorded outcomes: the current losing streak, and the sum of all losses.
      */
  lemma {:induction false} LossCountersTellHistory(cfg: Config, ops: seq<Op>)
    ensures var c := Run(cfg, NewControl(cfg), ops);
            LosingStreak(Outcomes(ops), c.consecutiveLosses) && c.dailyLoss == Losses(Outcomes(ops))
  {
    hide Step, CallsBroker, GetsAnswer, GetsAccepted, LosingStreak;
    if ops == [] {
      assert LosingStreak([], 0) by { NoStreak(); }
    } else {
      var n := |ops| - 1;
      var c := Run(cfg, NewControl(cfg), ops[..n]);
      LossCountersTellHistory(cfg, ops[..n]);
      StepCounters(cfg, c, ops[n]);
      var o := Outcomes(ops[..n]);
      if ops[n].Fill? {
        StreakGrows(o, c.consecutiveLosses, ops[n].profit);
        LossesGrow(o, ops[n].profit);
      } else {
        assert Outcomes(ops) == o + [] == o;
      }
    }
  }

  lemma NoStreak()
    ensures LosingStreak([], 0)
  {
  }

  lemma LossesGrow(outcomes: seq<real>, profit: real)
    ensures Losses(outcomes + [profit]) == Losses(outcomes) + if profit < 0.0 then -profit else 0.0
  {
    assert (outcomes + [profit])[..|outcomes|] == outcomes;
  }

  /** The order counters are functions of the broker's answers, and no client order id is answered twice. */
  lemma {:induction false} OrderCountersTellHistory(cfg: Config, ops: seq<Op>)
    ensures var c := Run(cfg, NewControl(cfg), ops);
            && c.submitted == Accepted(cfg, NewControl(cfg), ops)
            && c.clientOrderIds == ToSet(Answered(cfg, NewControl(cfg), ops))
            && Distinct(Answered(cfg, NewControl(cfg), ops))
  {
    hide Step, CallsBroker, GetsAnswer, GetsAccepted;
    if ops != [] {
      var n := |ops| - 1;
      var c := Run(cfg, NewControl(cfg), ops[..n]);
      OrderCountersTellHistory(cfg, ops[..n]);
      StepCounters(cfg, c, ops[n]);
      var ids := Answered(cfg, NewControl(cfg), ops[..n]);
      if GetsAnswer(cfg, c, ops[n]) {
        DistinctGrows(ids, ops[n].intent.clientOrderId);
      }
    }
  }

  lemma DistinctGrows(ids: seq<string>, id: string)
    requires Distinct(ids) && id !in ToSet(ids)
    ensures Distinct(ids + [id]) && ToSet(ids + [id]) == ToSet(ids) + {id}
  {
    assert id !in ids;
  }

  lemma StreakGrows(outcomes: seq<real>, n: nat, profit: real)
    requires LosingStreak(outcomes, n)
    ensures LosingStreak(outcomes + [profit], if profit < 0.0 then n + 1 else 0)
  {
    var all := outcomes + [profit];
    if profit < 0.0 {
      forall i | |all| - n - 1 <= i < |all| ensures all[i] < 0.0 {
      }
    }
  }

  lemma {:induction false} LossesOnlyGrow(cfg: Config, c: Control, ops: seq<Op>)
    ensures Run(cfg, c, ops).dailyLoss >= c.dailyLoss
  {
    hide Step;
    if ops != [] {
      var n := |ops| - 1;
      LossesOnlyGrow(cfg, c, ops[..n]);
      StepCounters(cfg, Run(cfg, c, ops[..n]), ops[n]);
    }
  }

  lemma {:induction false} RunAppend(cfg: Config, c: Control, a: seq<Op>, b: seq<Op>)
    ensures Run(cfg, c, a + b) == Run(cfg, Run(cfg, c, a), b)
  {
    hide Step;
    if b == [] {
      assert a + b == a;
    } else {
      RunAppend(cfg, c, a, b[..|b| - 1]);
      assert (a + b)[..|a + b| - 1] == a + b[..|b| - 1];
    }
  }

  /** Once the recorded losses reach the daily limit, no continuation reaches the broker again:
      no reset, re-arm, preflight or gate operation clears the counter. */
  lemma LossLimitIsFinal(cfg: Config, past: seq<Op>, later: seq<Op>, op: Op)
    requires Losses(Outcomes(past)) >= cfg.limits.maxDailyLoss
    ensures !CallsBroker(cfg, Run(cfg, NewControl(cfg), past + later), op)
  {
    hide Step, CallsBroker;
    var c := Run(cfg, NewControl(cfg), past);
    LossCountersTellHistory(cfg, past);
    RunAppend(cfg, NewControl(cfg), past, later);
    LossesOnlyGrow(cfg, c, later);
    StepCounters(cfg, Run(cfg, c, later), op);
  }

  lemma LosingSuffixIsCounted(outcomes: seq<real>, n: nat, k: nat)
    requires LosingStreak(outcomes, n) && k <= |outcomes|
    requires forall i :: |outcomes| - k <= i < |outcomes| ==> outcomes[i] < 0.0
    ensures n >= k
  {
  }

  /** While the last k recorded outcomes are all losses, k at least the streak limit, the broker is not called,
      whatever else was done meanwhile. */
  lemma LossStreakBlocks(cfg: Config, ops: seq<Op>, op: Op, k: nat)
    requires cfg.limits.maxConsecutiveLosses <= k <= |Outcomes(ops)|
    requires forall i :: |Outcomes(ops)| - k <= i < |Outcomes(ops)| ==> Outcomes(ops)[i] < 0.0
    ensures !CallsBroker(cfg, Run(cfg, NewControl(cfg), ops), op)
  {
    LossCountersTellHistory(cfg, ops);
    LosingSuffixIsCounted(Outcomes(ops), Run(cfg, NewControl(cfg), ops).consecutiveLosses, k);
    hide Run, Outcomes, LosingStreak, CallsBroker, Step, NewControl;
    StepCounters(cfg, Run(cfg, NewControl(cfg), ops), op);
  }

  /** The open count is a function of the broker's answers and the recorded fills. */
  lemma {:induction false} OpenPositionsTellHistory(cfg: Config, ops: seq<Op>)
    ensures Run(cfg, NewControl(cfg), ops).openPositions == Held(cfg, NewControl(cfg), ops)
  {
    hide Step, AfterOp;
    if ops != [] {
      OpenPositionsTellHistory(cfg, ops[..|ops| - 1]);
      StepCounters(cfg, Run(cfg, NewControl(cfg), ops[..|ops| - 1]), ops[|ops| - 1]);
    }
  }

  lemma {:induction false} OpensPileUp(cfg: Config, c: Control, ops: seq<Op>)
    requires forall k :: 0 <= k < |ops| ==> !ops[k].Fill?
    ensures Run(cfg, c, ops).openPositions == c.openPositions + Accepted(cfg, c, ops)
  {
    hide Step, GetsAccepted;
    if ops != [] {
      OpensPileUp(cfg, c, ops[..|ops| - 1]);
      StepCounters(cfg, Run(cfg, c, ops[..|ops| - 1]), ops[|ops| - 1]);
    }
  }

  /** While nothing is filled, the broker accepts no more orders than the limit has room for, whatever else is done.
      */
  lemma AcceptedWithoutFillIsBounded(cfg: Config, past: seq<Op>, stretch: seq<Op>)
    requires forall k :: 0 <= k < |stretch| ==> !stretch[k].Fill?
    ensures var c := Run(cfg, NewControl(cfg), past);
            var room := if cfg.limits.maxOpenPositions > 0 then cfg.limits.maxOpenPositions else 0;
            c.openPositions + Accepted(cfg, c, stretch) <= room
  {
    var c := Run(cfg, NewControl(cfg), past);
    OpensPileUp(cfg, c, stretch);
    RunAppend(cfg, NewControl(cfg), past, stretch);
    OpenPositionsAreBounded(cfg, past + stretch);
  }

  /** At no time are more positions counted open than the limit allows (none, when the limit is not positive). */
  lemma OpenPositionsAreBounded(cfg: Config, ops: seq<Op>)
    ensures var n := Run(cfg, NewControl(cfg), ops).openPositions;
            n <= if cfg.limits.maxOpenPositions > 0 then cfg.limits.maxOpenPositions else 0
  {
    RunsKeepInvariant(cfg, ops);
  }
}
