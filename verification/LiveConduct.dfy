/** What single operations of the live path do, said of the state and the arguments alone: exactly when the broker is
    called, when arming succeeds, and what takes an armed controller or gate out of its state. */
module LiveConduct {
  import opened Common
  import opened LivePreflight
  import opened LiveAuthorization
  import opened LiveController
  import opened LiveSafety

  // ---- The gate -----------------------------------------------------------------------------

  /** The missing prerequisites are those that are not true. */
  lemma MissingExactly(satisfied: set<Prerequisite>, p: Prerequisite)
    ensures p in Missing(satisfied) <==> p !in satisfied
  {
    AllSatisfiedMeansAll(satisfied + {p});
    KeepIsExact(ALL, q => q !in satisfied);
    if p !in satisfied {
      EveryPrerequisiteIsListed(p);
    }
  }

  lemma EveryPrerequisiteIsListed(p: Prerequisite)
    ensures p in ALL
  {
    match p
    case OPERATOR_AUTHORIZED => assert p == ALL[0];
    case LICENSE_VALID => assert p == ALL[1];
    case DEVICE_VALID => assert p == ALL[2];
    case CREDENTIALS_VALID => assert p == ALL[3];
    case BROKER_CONNECTED => assert p == ALL[4];
    case STATE_LOADED => assert p == ALL[5];
    case RECONCILIATION_PASS => assert p == ALL[6];
    case RISK_GOVERNOR_READY => assert p == ALL[7];
    case STARTUP_READY => assert p == ALL[8];
  }

  /** A given flag decides its prerequisite, every other stays as it was. */
  lemma UpdatedExactly(satisfied: set<Prerequisite>, flags: map<Prerequisite, bool>, p: Prerequisite)
    ensures p in Updated(satisfied, flags) <==> if p in flags then flags[p] else p in satisfied
  {
  }

  /** Safe mode begins with its operation only, ends with its own only, and is never armed. */
  lemma SafeModeExactly(g: Gate, op: GateOp)
    requires GateInvariant(g)
    ensures GateStep(g, op).safeMode <==> op.EnterSafeMode? || (g.safeMode && !op.ExitSafeMode?)
    ensures GateStep(g, op).safeMode ==> GateStep(g, op).state.SAFE_MODE? && !CanSubmitLive(GateStep(g, op))
  {
    hide Missing, Blank;
  }

  lemma ArmedIsLeftByRefusal(g: Gate, op: GateOp)
    requires GateInvariant(g) && g.state.LIVE_ARMED? && (op.ArmGate? || op.ResumeGate?)
    ensures GateStep(g, op).state.LIVE_ARMED? <==>
            if op.ArmGate? then !Blank(op.authorization) else op.autonomousLive && op.prerequisitesSatisfied
  {
    assert OPERATOR_AUTHORIZED in g.satisfied by { AllSatisfiedMeansAll(g.satisfied); }
    assert g.satisfied + {OPERATOR_AUTHORIZED} == g.satisfied;
    hide Missing, Blank;
  }

  /** What takes an armed gate out of its state: safe mode, in or out, a disarm, a prerequisite lost, an arm without
      authorization, and a resume that the policy or its prerequisites do not back. Nothing else does. */
  lemma ArmedIsLeftExactlyBy(g: Gate, op: GateOp)
    requires GateInvariant(g) && g.state.LIVE_ARMED?
    ensures !GateStep(g, op).state.LIVE_ARMED? <==>
            || op.EnterSafeMode? || op.ExitSafeMode? || op.DisarmGate?
            || (op.UpdatePrerequisites? && !AllSatisfied(Updated(g.satisfied, op.flags)))
            || (op.SetPrerequisites? && !AllSatisfied(op.satisfied))
            || (op.ArmGate? && Blank(op.authorization))
            || (op.ResumeGate? && !(op.autonomousLive && op.prerequisitesSatisfied))
  {
    if op.ArmGate? || op.ResumeGate? {
      ArmedIsLeftByRefusal(g, op);
    }
    hide Missing, Blank, Updated, ArmSpec, ResumeSpec;
  }

  /** Outside demo and safe mode, an unarmed gate shows whether it could be armed after every operation that
      recomputes. */
  lemma ReadyExactly(g: Gate, op: GateOp)
    requires GateInvariant(g)
    requires op.UpdatePrerequisites? || op.SetPrerequisites? || op.ExitSafeMode? || op.DisarmGate?
    ensures var h := GateStep(g, op);
            !h.state.DEMO? && !h.safeMode && !h.explicitArmed ==>
              && (h.state.LIVE_READY? <==> AllSatisfied(h.satisfied))
              && (h.state.LIVE_DISABLED? <==> !AllSatisfied(h.satisfied))
  {
    hide Missing, Updated;
  }

  /** An arm reports success exactly if the gate is armed after it, and otherwise names what is missing. */
  lemma ArmReportsExactly(g: Gate, authorization: string)
    requires GateInvariant(g)
    ensures var (h, r) := ArmSpec(g, authorization);
            && (r.ok <==> h.state.LIVE_ARMED?)
            && (r.ok <==> !g.state.DEMO? && !g.safeMode && !Blank(authorization) && AllSatisfied(g.satisfied))
            && (!r.ok && !g.state.DEMO? ==> r.missing == Missing(g.satisfied))
            && r.state == h.state
  {
    hide Missing, Blank;
  }

  /** A resume arms without any authorization text, and counts the operator as having authorized. */
  lemma ResumeReportsExactly(g: Gate, prerequisitesSatisfied: bool)
    requires GateInvariant(g)
    ensures var (h, r) := ResumeSpec(g, true, prerequisitesSatisfied);
            && (r.ok <==> h.state.LIVE_ARMED?)
            && (r.ok <==> !g.safeMode && prerequisitesSatisfied && AllSatisfied(g.satisfied + {OPERATOR_AUTHORIZED}))
            && (!g.safeMode && prerequisitesSatisfied ==> h.satisfied == g.satisfied + {OPERATOR_AUTHORIZED})
  {
    hide Missing;
  }

  /** A resume that the policy does not ask for never arms, and is no failure in demo mode only; a disarm never fails
      and leaves nothing armed. */
  lemma NothingElseArms(g: Gate, prerequisitesSatisfied: bool)
    requires GateInvariant(g)
    ensures var (h, r) := ResumeSpec(g, false, prerequisitesSatisfied);
            && (r.ok <==> g.state.DEMO?)
            && !h.state.LIVE_ARMED? && h.satisfied == g.satisfied
    ensures var (h, r) := DisarmSpec(g);
            && r.ok && r.state == h.state && !h.explicitArmed && !h.state.LIVE_ARMED?
            && h.satisfied == g.satisfied && h.safeMode == g.safeMode
  {
    hide Missing;
  }

  // ---- The controller -----------------------------------------------------------------------

  /** The broker is called exactly if the controller is active, the id new, every limit kept, a callable given and,
      in live mode, the gate armed and capital allowed. */
  lemma CallsBrokerExactly(cfg: Config, c: Control, intent: Intent, broker: Option<BrokerReply>, capital: bool)
    ensures CallsBroker(cfg, c, Submit(intent, broker, capital)) <==>
            && Active(c) && broker.Some?
            && intent.clientOrderId !in c.clientOrderIds
            && intent.size > 0.0 && intent.size <= cfg.limits.maxPositionSize
            && c.openPositions < cfg.limits.maxOpenPositions
            && c.dailyLoss < cfg.limits.maxDailyLoss
            && c.consecutiveLosses < cfg.limits.maxConsecutiveLosses
            && intent.symbol != "" && (Upper(intent.side) == "BUY" || Upper(intent.side) == "SELL")
            && (cfg.mode.LIVE_MODE? ==> CanSubmitLive(c.gate) && capital)
  {
    hide Upper, CanSubmitLive;
  }

  /** What a submission leaves and reports: nothing without a call; after one, the controller monitors an accepted
      order, stays armed after a refused one, and is degraded by an exception, which leaves the id free. */
  lemma AfterSubmit(cfg: Config, c: Control, intent: Intent, broker: Option<BrokerReply>, capital: bool)
    ensures var op := Submit(intent, broker, capital);
            var (d, r) := SubmitSpec(cfg, c, intent, broker, capital);
            && (!CallsBroker(cfg, c, op) ==> d == c && r.SubmitResult? && !r.ok && r.state == c.state)
            && (CallsBroker(cfg, c, op) ==>
                  && (broker.value.Raised? ==> d == c.(state := DEGRADED))
                  && (GetsAccepted(cfg, c, op) ==> d.state.MONITORING?)
                  && (!broker.value.Raised? && !GetsAccepted(cfg, c, op) ==> d.state.ARMED?))
            && d.gate == c.gate && d.preflight == c.preflight && d.haltReason == c.haltReason
            && (r.SubmitResult? && r.ok <==> GetsAccepted(cfg, c, op))
            && (GetsAccepted(cfg, c, op) ==>
                  && r.reason == "" && r.state == MONITORING
                  && (broker.value.status.Some? ==> r.status == broker.value.status.value)
                  && (broker.value.status.None? ==> r.status == "UNKNOWN"))
            && (CallsBroker(cfg, c, op) && r.SubmitResult? && !r.ok ==> r.status == "REJECTED" && r.state == d.state)
            && (r.AttributeError? <==> CallsBroker(cfg, c, op) && broker.value.NotADict? && broker.value.truthy)
  {
    hide Upper, CanSubmitLive;
  }

  /** What kind of refusal an order meets that does not reach the broker. The halt comes first, then the state and the
      gate, then the id and the limits, then capital, and a missing callable last. */
  lemma RefusalStatusExactly(cfg: Config, c: Control, intent: Intent, broker: Option<BrokerReply>, capital: bool)
    requires !CallsBroker(cfg, c, Submit(intent, broker, capital))
    ensures var r := SubmitSpec(cfg, c, intent, broker, capital).1;
            var ready := Active(c) && (cfg.mode.LIVE_MODE? ==> CanSubmitLive(c.gate));
            var fits := intent.clientOrderId !in c.clientOrderIds && WithinLimits(cfg.limits, c, intent);
            var funded := cfg.mode.LIVE_MODE? ==> capital;
            && r.SubmitResult?
            && (r.status == "HALTED" <==> c.state.HALTED?)
            && (r.status == "BLOCKED" <==> !c.state.HALTED? && (!ready || (fits && !funded)))
            && (r.status == "REJECTED" <==> ready && (!fits || (funded && broker.None?)))
            && (ready ==>
                  (r.reason == "duplicate_client_order_id" <==> intent.clientOrderId in c.clientOrderIds))
            && (c.state.HALTED? ==> r.reason == if c.haltReason == "" then "halted" else c.haltReason)
  {
    hide Upper, CanSubmitLive;
  }

  /** Arming succeeds exactly after a passed preflight, not halted, with an acknowledgement and, in live mode,
      capital and a gate that can be armed; then the controller is armed. */
  lemma ControllerArmsExactly(cfg: Config, c: Control, ack: string, capital: bool)
    requires GateInvariant(c.gate)
    ensures var (d, v) := ControlArmSpec(cfg, c, ack, capital);
            && (v.ok <==>
                  && !c.state.HALTED? && PreflightPassed(c) && ack != ""
                  && (cfg.mode.LIVE_MODE? ==>
                        && capital && !Blank(ack)
                        && !c.gate.state.DEMO? && !c.gate.safeMode && AllSatisfied(c.gate.satisfied)))
            && (v.ok ==> d.state.ARMED? && (cfg.mode.LIVE_MODE? ==> CanSubmitLive(d.gate)))
            && v.state == d.state && d == c.(state := d.state, gate := d.gate)
            && (!cfg.mode.LIVE_MODE? ==> d.gate == c.gate)
            && (!v.ok ==>
                  var blocks := !PreflightPassed(c) || (cfg.mode.LIVE_MODE? && (!capital || ack != ""));
                  d.state == if !c.state.HALTED? && blocks then BLOCKED else c.state)
  {
    ArmReportsExactly(c.gate, ack);
    GateStepKeepsInvariant(c.gate, ArmGate(ack));
    hide ArmSpec, Missing, Blank;
  }

  /** Arming by policy is for live mode only, and needs no acknowledgement. */
  lemma PolicyArmsExactly(cfg: Config, c: Control, prerequisitesSatisfied: bool, capital: bool)
    requires GateInvariant(c.gate)
    ensures var (d, v) := PolicyArmSpec(cfg, c, prerequisitesSatisfied, capital);
            && (v.ok <==>
                  && !c.state.HALTED? && PreflightPassed(c) && cfg.mode.LIVE_MODE? && capital
                  && !c.gate.safeMode && prerequisitesSatisfied
                  && AllSatisfied(c.gate.satisfied + {OPERATOR_AUTHORIZED}))
            && (v.ok ==> d.state.ARMED? && CanSubmitLive(d.gate))
            && v.state == d.state && d == c.(state := d.state, gate := d.gate)
            && (!v.ok ==>
                  var blocks := !PreflightPassed(c) || cfg.mode.LIVE_MODE?;
                  d.state == if !c.state.HALTED? && blocks then BLOCKED else c.state)
  {
    ResumeReportsExactly(c.gate, prerequisitesSatisfied);
    GateStepKeepsInvariant(c.gate, ResumeGate(true, prerequisitesSatisfied));
    hide ResumeSpec, Missing;
  }

  /** An evaluation records the report on what it was given, and blocks exactly if that does not pass, unless the
      controller is halted. */
  lemma EvaluatesExactly(c: Control, checks: map<string, CheckStatus>)
    ensures var d := EvaluateSpec(c, checks);
            && (PreflightPassed(d) <==> Vouched(checks, MANDATORY))
            && d.state == (if Vouched(checks, MANDATORY) || c.state.HALTED? then c.state else BLOCKED)
            && d == c.(state := d.state, preflight := d.preflight)
  {
    PassExactly(checks, false);
    hide Preflight, Vouched;
  }

  /** What the risk check blames: the first of the limits that is not kept, in this order. */
  lemma RiskBlamesExactly(limits: Limits, c: Control, intent: Intent)
    ensures var reason := RiskCheck(limits, c, intent);
            var sized := 0.0 < intent.size <= limits.maxPositionSize;
            var roomy := sized && c.openPositions < limits.maxOpenPositions;
            var afloat := roomy && c.dailyLoss < limits.maxDailyLoss;
            var steady := afloat && c.consecutiveLosses < limits.maxConsecutiveLosses;
            && (reason == Some("invalid_size") <==> intent.size <= 0.0)
            && (reason == Some("max_position_size") <==> intent.size > 0.0 && intent.size > limits.maxPositionSize)
            && (reason == Some("max_open_positions") <==> sized && !roomy)
            && (reason == Some("max_daily_loss") <==> roomy && !afloat)
            && (reason == Some("max_consecutive_losses") <==> afloat && !steady)
            && (reason == Some("invalid_symbol") <==> steady && intent.symbol == "")
            && (reason.None? <==> WithinLimits(limits, c, intent))
  {
    hide Upper;
  }

  /** A disarm takes the controller and its gate out of the armed state, unless the controller is halted. */
  lemma DisarmDisarms(c: Control)
    requires GateInvariant(c.gate)
    ensures var (d, v) := ControlDisarmSpec(c);
            && (v.ok <==> !c.state.HALTED?)
            && (v.ok ==> d.state.DISABLED? && !d.gate.explicitArmed && !CanSubmitLive(d.gate))
            && (!v.ok ==> d == c)
  {
    hide Missing;
  }

  /** A kill switch halts from every state; an acknowledged reset disables, with the preflight to be passed again. */
  lemma HaltAndReset(c: Control, reason: string, ack: string)
    ensures KillSpec(c, reason) == c.(state := HALTED, haltReason := reason)
    ensures var (d, v) := ResetSpec(c, ack);
            && (v.ok <==> c.state.HALTED? && ack != "")
            && (v.ok ==> d.state.DISABLED? && !PreflightPassed(d))
            && (!v.ok ==> d == c)
  {
    PassExactly(map[], true);
    hide Preflight;
  }

  /** What takes an active controller out of activity: a disarm, the kill switch, a failing preflight, an arm that
      the gate or the capital gate refuses, and an exception of the broker. Nothing else does. */
  lemma ActiveIsLeftExactlyBy(cfg: Config, c: Control, op: Op)
    requires Active(c) && PreflightPassed(c) && GateInvariant(c.gate)
    ensures !Active(Step(cfg, c, op)) <==>
            || op.Disarm? || op.Kill?
            || (op.Evaluate? && !Vouched(op.checks, MANDATORY))
            || (&& op.Arm? && cfg.mode.LIVE_MODE?
                && (!op.capital || (op.ack != "" && !ControlArmSpec(cfg, c, op.ack, op.capital).1.ok)))
            || (&& op.PolicyArm? && cfg.mode.LIVE_MODE?
                && !PolicyArmSpec(cfg, c, op.prerequisitesSatisfied, op.capital).1.ok)
            || (CallsBroker(cfg, c, op) && op.broker.value.Raised?)
  {
    if op.Evaluate? {
      PassExactly(op.checks, false);
    }
    hide Preflight, Vouched, GateStep, ArmSpec, ResumeSpec, DisarmSpec, CanSubmitLive, RiskCheck;
  }
}
