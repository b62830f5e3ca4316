/** The live execution controller: arming, kill switch, risk check, order path and fill outcomes. */
module LiveController {
  import opened Common
  import opened LivePreflight
  import opened LiveAuthorization

  datatype LiveMode = DEMO_MODE | PAPER_MODE | LIVE_MODE

  datatype ExecutionState = DISABLED | READY | ARMING | ARMED | EXECUTING | MONITORING | DEGRADED | HALTED | BLOCKED

  /** The limits the risk check reads. */
  datatype Limits = Limits(maxPositionSize: real, maxOpenPositions: int, maxDailyLoss: real, maxConsecutiveLosses: int)

  datatype Config = Config(mode: LiveMode, limits: Limits)

  datatype Intent = Intent(clientOrderId: string, symbol: string, side: string, size: real)

  /** What `broker_submit` does: raise, return a dict, or return something that is no dict (empty or not). */
  datatype BrokerReply =
    | Raised(error: string)
    | Answer(ok: bool, status: Option<string>, message: Option<string>)
    | NotADict(truthy: bool)

  datatype SubmitResult =
    | SubmitResult(ok: bool, status: string, reason: string, state: ExecutionState)
    | AttributeError

  datatype Verdict = Verdict(ok: bool, reason: string, state: ExecutionState)

  datatype Control = Control(
    state: ExecutionState,
    preflight: Report,
    haltReason: string,
    clientOrderIds: set<string>,
    submitted: nat,
    openPositions: nat,
    dailyLoss: real,
    consecutiveLosses: nat,
    gate: Gate)

  function StateName(s: ExecutionState): string {
    match s
    case DISABLED => "DISABLED" case READY => "READY" case ARMING => "ARMING" case ARMED => "ARMED"
    case EXECUTING => "EXECUTING" case MONITORING => "MONITORING" case DEGRADED => "DEGRADED"
    case HALTED => "HALTED" case BLOCKED => "BLOCKED"
  }

  function NewControl(cfg: Config): Control {
    Control(DISABLED, Preflight(map[], true), "", {}, 0, 0, 0.0, 0, NewGate(!cfg.mode.LIVE_MODE?, {}))
  }

  predicate PreflightPassed(c: Control) {
    c.preflight.overall == PASS
  }

  function EvaluateSpec(c: Control, checks: map<string, CheckStatus>): Control {
    var d := c.(preflight := Preflight(checks, false));
    if !PreflightPassed(d) && d.state !in {HALTED, BLOCKED} then d.(state := BLOCKED) else d
  }

  function Deny(c: Control, state: ExecutionState, reason: string): (Control, Verdict) {
    (c.(state := state), Verdict(false, reason, state))
  }

  function ControlArmSpec(cfg: Config, c: Control, ack: string, capital: bool): (Control, Verdict) {
    if c.state.HALTED? then Deny(c, HALTED, "halted")
    else if !PreflightPassed(c) then Deny(c, BLOCKED, "preflight_not_pass")
    else if cfg.mode.LIVE_MODE? && !capital then Deny(c, BLOCKED, "live_capital_blocked")
    else if ack == "" then Deny(c, c.state, "missing_operator_ack")
    else if cfg.mode.LIVE_MODE? then
      var (g, r) := ArmSpec(c.gate, ack);
      if !r.ok then Deny(c.(gate := g), BLOCKED, r.reason)
      else (c.(gate := g, state := ARMED), Verdict(true, "", ARMED))
    else (c.(state := ARMED), Verdict(true, "", ARMED))
  }

  function PolicyArmSpec(cfg: Config, c: Control, prerequisitesSatisfied: bool, capital: bool): (Control, Verdict) {
    if c.state.HALTED? then Deny(c, HALTED, "halted")
    else if !PreflightPassed(c) then Deny(c, BLOCKED, "preflight_not_pass")
    else if !cfg.mode.LIVE_MODE? then Deny(c, c.state, "not_live_mode")
    else if !capital then Deny(c, BLOCKED, "live_capital_blocked")
    else
      var (g, r) := ResumeSpec(c.gate, true, prerequisitesSatisfied);
      if !r.ok then Deny(c.(gate := g), BLOCKED, r.reason)
      else (c.(gate := g, state := ARMED), Verdict(true, "resumed_from_admin_policy", ARMED))
  }

  function ControlDisarmSpec(c: Control): (Control, Verdict) {
    if c.state.HALTED? then Deny(c, HALTED, "halted")
    else (c.(state := DISABLED, gate := DisarmSpec(c.gate).0), Verdict(true, "", DISABLED))
  }

  function KillSpec(c: Control, reason: string): Control {
    c.(state := HALTED, haltReason := reason)
  }

  function ResetSpec(c: Control, ack: string): (Control, Verdict) {
    if !c.state.HALTED? then Deny(c, c.state, "not_halted")
    else if ack == "" then Deny(c, c.state, "missing_operator_ack")
    else (c.(state := DISABLED, haltReason := "", preflight := Preflight(map[], true)), Verdict(true, "", DISABLED))
  }

  /** None when the intent passes. */
  function RiskCheck(limits: Limits, c: Control, intent: Intent): Option<string> {
    if intent.size <= 0.0 then Some("invalid_size")
    else if intent.size > limits.maxPositionSize then Some("max_position_size")
    else if c.openPositions >= limits.maxOpenPositions then Some("max_open_positions")
    else if c.dailyLoss >= limits.maxDailyLoss then Some("max_daily_loss")
    else if c.consecutiveLosses >= limits.maxConsecutiveLosses then Some("max_consecutive_losses")
    else if intent.symbol == "" then Some("invalid_symbol")
    else if Upper(intent.side) !in {"BUY", "SELL"} then Some("invalid_side")
    else None
  }

  /** What the risk check asks: a size within its limit, room for a position, both loss limits unreached, and an order
      the broker can read. */
  predicate WithinLimits(limits: Limits, c: Control, intent: Intent) {
    && 0.0 < intent.size <= limits.maxPositionSize
    && c.openPositions < limits.maxOpenPositions
    && c.dailyLoss < limits.maxDailyLoss
    && c.consecutiveLosses < limits.maxConsecutiveLosses
    && intent.symbol != ""
    && Upper(intent.side) in {"BUY", "SELL"}
  }

  /** Why an intent does not reach the broker; None when it does. */
  function Refusal(cfg: Config, c: Control, intent: Intent, broker: Option<BrokerReply>, capital: bool)
    : Option<SubmitResult>
  {
    if c.state.HALTED? then
      Some(SubmitResult(false, "HALTED", if c.haltReason == "" then "halted" else c.haltReason, c.state))
    else if c.state !in {ARMED, MONITORING} then
      Some(SubmitResult(false, "BLOCKED", "state_" + StateName(c.state), c.state))
    else if cfg.mode.LIVE_MODE? && !CanSubmitLive(c.gate) then
      Some(SubmitResult(false, "BLOCKED", "live_not_authorized", c.state))
    else if intent.clientOrderId in c.clientOrderIds then
      Some(SubmitResult(false, "REJECTED", "duplicate_client_order_id", c.state))
    else if RiskCheck(cfg.limits, c, intent).Some? then
      Some(SubmitResult(false, "REJECTED", RiskCheck(cfg.limits, c, intent).value, c.state))
    else if cfg.mode.LIVE_MODE? && !capital then
      Some(SubmitResult(false, "BLOCKED", "live_capital_blocked", c.state))
    else if broker.None? then Some(SubmitResult(false, "REJECTED", "no_broker_submit", c.state))
    else None
  }

  /** The state and answer once the broker was called. */
  function BrokerSpec(c: Control, intent: Intent, reply: BrokerReply): (Control, SubmitResult) {
    if reply.Raised? then
      (c.(state := DEGRADED), SubmitResult(false, "REJECTED", "broker_exception:" + reply.error, DEGRADED))
    else
      var d := c.(clientOrderIds := c.clientOrderIds + {intent.clientOrderId});
      if reply.Answer? && reply.ok then
        (d.(submitted := c.submitted + 1, openPositions := c.openPositions + 1, state := MONITORING),
         SubmitResult(true, if reply.status.Some? then reply.status.value else "UNKNOWN", "", MONITORING))
      else
        (d.(state := ARMED),
         if reply.NotADict? && reply.truthy then AttributeError
         else SubmitResult(false, "REJECTED",
                           if reply.Answer? && reply.message.Some? then reply.message.value else "broker_rejected",
                           ARMED))
  }

  function SubmitSpec(cfg: Config, c: Control, intent: Intent, broker: Option<BrokerReply>, capital: bool)
    : (Control, SubmitResult)
  {
    match Refusal(cfg, c, intent, broker, capital)
    case Some(result) => (c, result)
    case None => BrokerSpec(c, intent, broker.value)
  }

  function FillSpec(c: Control, profit: real): Control {
    c.(consecutiveLosses := if profit < 0.0 then c.consecutiveLosses + 1 else 0,
       dailyLoss := if profit < 0.0 then c.dailyLoss - profit else c.dailyLoss,
       openPositions := if c.openPositions > 0 then c.openPositions - 1 else 0)
  }

  class LiveExecutionController {
    const mode: LiveMode
    const limits: Limits
    const authGate: LiveAuthorizationGate
    var state: ExecutionState
    var preflight: Report
    var haltReason: string
    var clientOrderIds: set<string>
    var submitted: nat
    var openPositions: nat
    var dailyLoss: real
    var consecutiveLosses: nat

    ghost function Cfg(): Config {
      Config(mode, limits)
    }

    ghost function Model(): Control
      reads this, authGate
    {
      Control(state, preflight, haltReason, clientOrderIds, submitted, openPositions, dailyLoss, consecutiveLosses,
              authGate.Model())
    }

    constructor (mode: LiveMode, limits: Limits)
      ensures Cfg() == Config(mode, limits) && Model() == NewControl(Cfg()) && fresh(authGate)
      ensures state == DISABLED && clientOrderIds == {} && submitted == openPositions == consecutiveLosses == 0
      ensures dailyLoss == 0.0 && authGate.state == if mode == LIVE_MODE then LIVE_DISABLED else DEMO
    {
      this.mode, this.limits := mode, limits;
      var report := RunPreflight(map[], true);
      preflight := report;
      state, haltReason, clientOrderIds := DISABLED, "", {};
      submitted, openPositions, dailyLoss, consecutiveLosses := 0, 0, 0.0, 0;
      authGate := new LiveAuthorizationGate(mode != LIVE_MODE, {});
    }

    method EvaluatePreflight(checks: map<string, CheckStatus>)
      modifies this
      ensures Model() == EvaluateSpec(old(Model()), checks)
    {
      hide Preflight;
      preflight := RunPreflight(checks, false);
      if preflight.overall != PASS {
        if state !in {HALTED, BLOCKED} {
          state := BLOCKED;
        }
      }
    }

    method Arm(ack: string, capital: bool) returns (v: Verdict)
      modifies this, authGate
      ensures (Model(), v) == ControlArmSpec(Cfg(), old(Model()), ack, capital)
    {
      hide ArmSpec;
      if state == HALTED {
        return Verdict(false, "halted", state);
      }
      if preflight.overall != PASS {
        state := BLOCKED;
        return Verdict(false, "preflight_not_pass", state);
      }
      if mode == LIVE_MODE && !capital {
        state := BLOCKED;
        return Verdict(false, "live_capital_blocked", state);
      }
      if ack == "" {
        return Verdict(false, "missing_operator_ack", state);
      }
      if mode == LIVE_MODE {
        var r := authGate.Arm(ack);
        if !r.ok {
          state := BLOCKED;
          return Verdict(false, r.reason, state);
        }
      }
      state := ARMED;
      v := Verdict(true, "", state);
    }

    method ArmFromAdminPolicy(prerequisitesSatisfied: bool, capital: bool) returns (v: Verdict)
      modifies this, authGate
      ensures (Model(), v) == PolicyArmSpec(Cfg(), old(Model()), prerequisitesSatisfied, capital)
    {
      hide ResumeSpec;
      if state == HALTED {
        return Verdict(false, "halted", state);
      }
      if preflight.overall != PASS {
        state := BLOCKED;
        return Verdict(false, "preflight_not_pass", state);
      }
      if mode != LIVE_MODE {
        return Verdict(false, "not_live_mode", state);
      }
      if !capital {
        state := BLOCKED;
        return Verdict(false, "live_capital_blocked", state);
      }
      var r := authGate.ResumeFromAdminPolicy(true, prerequisitesSatisfied);
      if !r.ok {
        state := BLOCKED;
        return Verdict(false, r.reason, state);
      }
      state := ARMED;
      v := Verdict(true, "resumed_from_admin_policy", state);
    }

    method Disarm() returns (v: Verdict)
      modifies this, authGate
      ensures (Model(), v) == ControlDisarmSpec(old(Model()))
    {
      hide DisarmSpec;
      if state == HALTED {
        return Verdict(false, "halted", state);
      }
      state := DISABLED;
      var _ := authGate.Disarm();
      v := Verdict(true, "", state);
    }

    method KillSwitch(reason: string)
      modifies this
      ensures Model() == KillSpec(old(Model()), reason)
    {
      state := HALTED;
      haltReason := reason;
    }

    method ResetAfterHalt(ack: string) returns (v: Verdict)
      modifies this
      ensures (Model(), v) == ResetSpec(old(Model()), ack)
    {
      hide Preflight;
      if state != HALTED {
        return Verdict(false, "not_halted", state);
      }
      if ack == "" {
        return Verdict(false, "missing_operator_ack", state);
      }
      state := DISABLED;
      haltReason := "";
      preflight := RunPreflight(map[], true);
      v := Verdict(true, "", state);
    }

    /** `broker` is the callable with the outcome it will have, None when none is passed;
        `called` tells whether it was called. */
    method SubmitLiveOrder(intent: Intent, broker: Option<BrokerReply>, capital: bool)
      returns (r: SubmitResult, called: bool)
      modifies this
      ensures (Model(), r) == SubmitSpec(Cfg(), old(Model()), intent, broker, capital)
      ensures called <==> Refusal(Cfg(), old(Model()), intent, broker, capital).None?
    {
      hide Upper, Missing, StateName, BrokerSpec;
      called := false;
      if state == HALTED {
        return SubmitResult(false, "HALTED", if haltReason == "" then "halted" else haltReason, state), called;
      }
      if state !in {ARMED, MONITORING} {
        return SubmitResult(false, "BLOCKED", "state_" + StateName(state), state), called;
      }
      if mode == LIVE_MODE {
        var g := Gate(authGate.satisfied, authGate.explicitArmed, authGate.safeMode, authGate.safeReason,
                      authGate.state);
        if !CanSubmitLive(g) {
          return SubmitResult(false, "BLOCKED", "live_not_authorized", state), called;
        }
      }
      if intent.clientOrderId in clientOrderIds {
        return SubmitResult(false, "REJECTED", "duplicate_client_order_id", state), called;
      }
      var risk := CheckRisk(intent);
      if risk.Some? {
        return SubmitResult(false, "REJECTED", risk.value, state), called;
      }
      if mode == LIVE_MODE && !capital {
        return SubmitResult(false, "BLOCKED", "live_capital_blocked", state), called;
      }
      if broker.None? {
        return SubmitResult(false, "REJECTED", "no_broker_submit", state), called;
      }
      called := true;
      r := CallBroker(intent, broker.value);
    }

    method CallBroker(intent: Intent, reply: BrokerReply) returns (r: SubmitResult)
      modifies this
      ensures (Model(), r) == BrokerSpec(old(Model()), intent, reply)
    {
      state := EXECUTING;
      if reply.Raised? {
        state := DEGRADED;
        return SubmitResult(false, "REJECTED", "broker_exception:" + reply.error, state);
      }
      clientOrderIds := clientOrderIds + {intent.clientOrderId};
      if reply.Answer? && reply.ok {
        submitted := submitted + 1;
        openPositions := openPositions + 1;
        state := MONITORING;
        return SubmitResult(true, if reply.status.Some? then reply.status.value else "UNKNOWN", "", state);
      }
      state := ARMED;
      if reply.NotADict? && reply.truthy {
        return AttributeError;
      }
      var message := if reply.Answer? && reply.message.Some? then reply.message.value else "broker_rejected";
      r := SubmitResult(false, "REJECTED", message, state);
    }

    /** No reason exactly when every limit holds; a reason names a limit that is violated, the first in order. */
    method CheckRisk(intent: Intent) returns (reason: Option<string>)
      ensures reason.None? <==> WithinLimits(limits, Model(), intent)
      ensures reason == Some("max_daily_loss") ==> dailyLoss >= limits.maxDailyLoss
      ensures reason == Some("max_consecutive_losses") ==> consecutiveLosses >= limits.maxConsecutiveLosses
      ensures reason == Some("max_open_positions") ==> openPositions >= limits.maxOpenPositions
      ensures reason == RiskCheck(limits, Model(), intent)
    {
      hide Upper;
      if intent.size <= 0.0 {
        return Some("invalid_size");
      }
      if intent.size > limits.maxPositionSize {
        return Some("max_position_size");
      }
      if openPositions >= limits.maxOpenPositions {
        return Some("max_open_positions");
      }
      if dailyLoss >= limits.maxDailyLoss {
        return Some("max_daily_loss");
      }
      if consecutiveLosses >= limits.maxConsecutiveLosses {
        return Some("max_consecutive_losses");
      }
      if intent.symbol == "" {
        return Some("invalid_symbol");
      }
      if Upper(intent.side) !in {"BUY", "SELL"} {
        return Some("invalid_side");
      }
      reason := None;
    }

    method RecordFillOutcome(profit: real)
      modifies this
      ensures Model() == FillSpec(old(Model()), profit)
    {
      if profit < 0.0 {
        consecutiveLosses := consecutiveLosses + 1;
        dailyLoss := dailyLoss - profit;
      } else {
        consecutiveLosses := 0;
      }
      if openPositions > 0 {
        openPositions := openPositions - 1;
      }
    }
  }
}
