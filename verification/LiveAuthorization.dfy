/** The live authorization gate: may live trading be armed, given explicit intent and all prerequisites? */
module LiveAuthorization {
  import opened Common

  datatype Prerequisite =
    | OPERATOR_AUTHORIZED | LICENSE_VALID | DEVICE_VALID | CREDENTIALS_VALID | BROKER_CONNECTED
    | STATE_LOADED | RECONCILIATION_PASS | RISK_GOVERNOR_READY | STARTUP_READY

  /** In the order in which the missing ones are listed. */
  const ALL: seq<Prerequisite> := [
    OPERATOR_AUTHORIZED, LICENSE_VALID, DEVICE_VALID, CREDENTIALS_VALID, BROKER_CONNECTED,
    STATE_LOADED, RECONCILIATION_PASS, RISK_GOVERNOR_READY, STARTUP_READY]

  datatype ValidationState = DEMO | LIVE_DISABLED | LIVE_READY | LIVE_ARMED | SAFE_MODE

  datatype ArmResult = ArmResult(ok: bool, state: ValidationState, reason: string, missing: seq<Prerequisite>)

  /** `satisfied` holds the prerequisites whose flag is true. */
  datatype Gate = Gate(
    satisfied: set<Prerequisite>,
    explicitArmed: bool,
    safeMode: bool,
    safeReason: string,
    state: ValidationState)

  function Missing(satisfied: set<Prerequisite>): seq<Prerequisite> {
    Keep(ALL, p => p !in satisfied)
  }

  predicate AllSatisfied(satisfied: set<Prerequisite>) {
    Missing(satisfied) == []
  }

  lemma AllSatisfiedMeansAll(satisfied: set<Prerequisite>)
    ensures AllSatisfied(satisfied) <==> forall p: Prerequisite :: p in satisfied
  {
    var absent := p => p !in satisfied;
    KeepIsExact(ALL, absent);
    forall p: Prerequisite ensures p in ALL {
      match p {
        case OPERATOR_AUTHORIZED => assert p == ALL[0];
        case LICENSE_VALID => assert p == ALL[1];
        case DEVICE_VALID => assert p == ALL[2];
        case CREDENTIALS_VALID => assert p == ALL[3];
        case BROKER_CONNECTED => assert p == ALL[4];
        case STATE_LOADED => assert p == ALL[5];
        case RECONCILIATION_PASS => assert p == ALL[6];
        case RISK_GOVERNOR_READY => assert p == ALL[7];
        case STARTUP_READY => assert p == ALL[8];
      }
    }
    if AllSatisfied(satisfied) {
      forall p: Prerequisite ensures p in satisfied {
        assert p !in Keep(ALL, absent);
      }
    } else {
      assert Keep(ALL, absent)[0] in Keep(ALL, absent);
    }
  }

  function NewGate(demo: bool, satisfied: set<Prerequisite>): Gate {
    Gate(satisfied, false, false, "", if demo then DEMO else LIVE_DISABLED)
  }

  function Recompute(g: Gate): Gate {
    if g.safeMode then g.(state := SAFE_MODE, explicitArmed := false)
    else if g.state.DEMO? then g
    else if g.explicitArmed && AllSatisfied(g.satisfied) then g.(state := LIVE_ARMED)
    else g.(explicitArmed := false, state := if AllSatisfied(g.satisfied) then LIVE_READY else LIVE_DISABLED)
  }

  function Updated(satisfied: set<Prerequisite>, flags: map<Prerequisite, bool>): set<Prerequisite> {
    (satisfied - flags.Keys) + set p | p in flags && flags[p]
  }

  function EnterSafeModeSpec(g: Gate, reason: string): Gate {
    g.(safeMode := true,
       safeReason := if reason == "" then "fault" else reason,
       explicitArmed := false,
       state := SAFE_MODE)
  }

  function ExitSafeModeSpec(g: Gate): Gate {
    var h := g.(safeMode := false, safeReason := "", explicitArmed := false);
    if h.state.DEMO? then h else Recompute(h)
  }

  function Refuse(g: Gate, reason: string): (Gate, ArmResult) {
    var h := Recompute(g.(explicitArmed := false));
    (h, ArmResult(false, h.state, reason, Missing(h.satisfied)))
  }

  function Grant(g: Gate, reason: string): (Gate, ArmResult) {
    (g.(explicitArmed := true, state := LIVE_ARMED), ArmResult(true, LIVE_ARMED, reason, []))
  }

  function ArmSpec(g: Gate, authorization: string): (Gate, ArmResult) {
    if g.state.DEMO? then (g, ArmResult(false, DEMO, "demo_mode_no_live_arm", []))
    else if g.safeMode || g.state.SAFE_MODE? then (g, ArmResult(false, SAFE_MODE, "safe_mode", Missing(g.satisfied)))
    else if Blank(authorization) then Refuse(g, "missing_operator_authorization")
    else if Missing(g.satisfied) != [] then Refuse(g, "prerequisites_unmet")
    else Grant(g, "armed")
  }

  function DisarmSpec(g: Gate): (Gate, ArmResult) {
    var h := g.(explicitArmed := false);
    if h.safeMode then (h.(state := SAFE_MODE), ArmResult(true, SAFE_MODE, "disarmed_in_safe_mode", []))
    else if h.state.DEMO? then (h, ArmResult(true, DEMO, "demo", []))
    else (Recompute(h), ArmResult(true, Recompute(h).state, "disarmed", []))
  }

  function ResumeSpec(g: Gate, autonomousLive: bool, prerequisitesSatisfied: bool): (Gate, ArmResult) {
    if g.state.DEMO? && !autonomousLive then (g, ArmResult(true, DEMO, "demo", []))
    else if g.safeMode then (g, ArmResult(false, SAFE_MODE, "safe_mode", []))
    else if !autonomousLive then
      var (h, r) := Refuse(g, "autonomous_live_false");
      (h, r.(missing := []))
    else if !prerequisitesSatisfied then Refuse(g, "prerequisites_unmet")
    else
      var h := g.(satisfied := g.satisfied + {OPERATOR_AUTHORIZED});
      if !AllSatisfied(h.satisfied) then Refuse(h, "prerequisites_unmet")
      else Grant(h, "resumed_from_admin_policy")
  }

  predicate CanSubmitLive(g: Gate) {
    g.state.LIVE_ARMED? && !g.safeMode && g.explicitArmed && AllSatisfied(g.satisfied)
  }

  datatype GateOp =
    | UpdatePrerequisites(flags: map<Prerequisite, bool>)
    | SetPrerequisites(satisfied: set<Prerequisite>)
    | EnterSafeMode(reason: string)
    | ExitSafeMode
    | ArmGate(authorization: string)
    | DisarmGate
    | ResumeGate(autonomousLive: bool, prerequisitesSatisfied: bool)

  function GateStep(g: Gate, op: GateOp): Gate {
    match op
    case UpdatePrerequisites(flags) => Recompute(g.(satisfied := Updated(g.satisfied, flags)))
    case SetPrerequisites(satisfied) => Recompute(g.(satisfied := satisfied))
    case EnterSafeMode(reason) => EnterSafeModeSpec(g, reason)
    case ExitSafeMode => ExitSafeModeSpec(g)
    case ArmGate(authorization) => ArmSpec(g, authorization).0
    case DisarmGate => DisarmSpec(g).0
    case ResumeGate(autonomous, satisfied) => ResumeSpec(g, autonomous, satisfied).0
  }

  function GateRun(g: Gate, ops: seq<GateOp>): Gate
    decreases |ops|
  {
    if ops == [] then g else GateRun(GateStep(g, ops[0]), ops[1..])
  }

  /** Armed means: armed explicitly, every prerequisite true, not in safe mode. Safe mode is visible in the state. */
  ghost predicate GateInvariant(g: Gate) {
    && (g.state.LIVE_ARMED? <==> g.explicitArmed)
    && (g.state.LIVE_ARMED? ==> AllSatisfied(g.satisfied))
    && (g.state.SAFE_MODE? <==> g.safeMode)
  }

  lemma {:induction false} GateRunsAreSafe(g: Gate, ops: seq<GateOp>)
    requires GateInvariant(g)
    ensures GateInvariant(GateRun(g, ops))
    ensures CanSubmitLive(GateRun(g, ops)) <==> GateRun(g, ops).state.LIVE_ARMED?
    decreases |ops|
  {
    if ops != [] {
      GateStepKeepsInvariant(g, ops[0]);
      GateRunsAreSafe(GateStep(g, ops[0]), ops[1..]);
    }
  }

  lemma GateStepKeepsInvariant(g: Gate, op: GateOp)
    requires GateInvariant(g)
    ensures GateInvariant(GateStep(g, op))
  {
    hide Missing, Blank;
  }

  /** Arming is the only way in: the gate becomes armed exactly by an arm with a non-blank authorization, or by a
      resume under an autonomous policy, with every prerequisite true and no safe mode. */
  lemma ArmedExactlyBy(g: Gate, op: GateOp)
    requires GateInvariant(g) && !g.state.LIVE_ARMED?
    ensures GateStep(g, op).state.LIVE_ARMED? <==>
            || (&& op.ArmGate? && !Blank(op.authorization)
                && g.state in {LIVE_DISABLED, LIVE_READY} && AllSatisfied(g.satisfied))
            || (&& op == ResumeGate(true, true)
                && !g.state.SAFE_MODE? && AllSatisfied(g.satisfied + {OPERATOR_AUTHORIZED}))
  {
    hide Missing, Blank;
  }

  /** Demo mode is not a promise for ever: it is left exactly by entering safe mode, which does not restore it,
      or by a policy resume, which arms straight out of it. */
  lemma DemoIsLeftExactlyBy(g: Gate, op: GateOp)
    requires GateInvariant(g) && g.state.DEMO?
    ensures !GateStep(g, op).state.DEMO? <==>
            || op.EnterSafeMode?
            || (op == ResumeGate(true, true) && AllSatisfied(g.satisfied + {OPERATOR_AUTHORIZED}))
  {
    hide Missing, Blank;
  }

  /** A gate built for demo that went through safe mode can be armed like a live one. */
  lemma DemoGateCanBeArmed(satisfied: set<Prerequisite>)
    requires AllSatisfied(satisfied)
    ensures var ops := [EnterSafeMode("fault"), ExitSafeMode, ArmGate("operator")];
            CanSubmitLive(GateRun(NewGate(true, satisfied), ops))
  {
    hide Missing;
    var g0 := NewGate(true, satisfied);
    var g1 := GateStep(g0, EnterSafeMode("fault"));
    var g2 := GateStep(g1, ExitSafeMode);
    assert "operator"[0] == 'o';
    var g3 := GateStep(g2, ArmGate("operator"));
    var ops := [EnterSafeMode("fault"), ExitSafeMode, ArmGate("operator")];
    assert ops[1..][1..] == [ArmGate("operator")];
    assert GateRun(g2, [ArmGate("operator")]) == GateRun(g3, []);
  }

  class LiveAuthorizationGate {
    var satisfied: set<Prerequisite>
    var explicitArmed: bool
    var safeMode: bool
    var safeReason: string
    var state: ValidationState

    ghost function Model(): Gate
      reads this
    {
      Gate(satisfied, explicitArmed, safeMode, safeReason, state)
    }

    constructor (demo: bool, satisfied: set<Prerequisite>)
      ensures Model() == NewGate(demo, satisfied)
    {
      this.satisfied := satisfied;
      explicitArmed, safeMode, safeReason := false, false, "";
      state := if demo then DEMO else LIVE_DISABLED;
    }

    method RecomputeState() returns (s: ValidationState)
      modifies this
      ensures Model() == Recompute(old(Model())) && s == state
    {
      if safeMode {
        state := SAFE_MODE;
        explicitArmed := false;
        return state;
      }
      if state == DEMO {
        return state;
      }
      if explicitArmed && AllSatisfied(satisfied) {
        state := LIVE_ARMED;
        return state;
      }
      explicitArmed := false;
      if AllSatisfied(satisfied) {
        state := LIVE_READY;
      } else {
        state := LIVE_DISABLED;
      }
      s := state;
    }

    method Update(flags: map<Prerequisite, bool>) returns (s: ValidationState)
      modifies this
      ensures Model() == GateStep(old(Model()), UpdatePrerequisites(flags)) && s == state
    {
      satisfied := Updated(satisfied, flags);
      s := RecomputeState();
    }

    method Set(prerequisites: set<Prerequisite>) returns (s: ValidationState)
      modifies this
      ensures Model() == GateStep(old(Model()), SetPrerequisites(prerequisites)) && s == state
    {
      satisfied := prerequisites;
      s := RecomputeState();
    }

    method EnterSafe(reason: string) returns (s: ValidationState)
      modifies this
      ensures Model() == EnterSafeModeSpec(old(Model()), reason) && s == SAFE_MODE
    {
      safeMode := true;
      safeReason := if reason == "" then "fault" else reason;
      explicitArmed := false;
      state := SAFE_MODE;
      s := state;
    }

    method ExitSafe() returns (s: ValidationState)
      modifies this
      ensures Model() == ExitSafeModeSpec(old(Model())) && s == state
    {
      safeMode := false;
      safeReason := "";
      explicitArmed := false;
      if state == DEMO {
        return state;
      }
      s := RecomputeState();
    }

    method Arm(authorization: string) returns (r: ArmResult)
      modifies this
      ensures (Model(), r) == ArmSpec(old(Model()), authorization)
    {
      hide Missing, Blank;
      if state == DEMO {
        return ArmResult(false, state, "demo_mode_no_live_arm", []);
      }
      if safeMode || state == SAFE_MODE {
        return ArmResult(false, SAFE_MODE, "safe_mode", Missing(satisfied));
      }
      if Blank(authorization) {
        explicitArmed := false;
        var s := RecomputeState();
        return ArmResult(false, s, "missing_operator_authorization", Missing(satisfied));
      }
      var missing := Missing(satisfied);
      if missing != [] {
        explicitArmed := false;
        var s := RecomputeState();
        return ArmResult(false, s, "prerequisites_unmet", missing);
      }
      explicitArmed := true;
      state := LIVE_ARMED;
      r := ArmResult(true, state, "armed", []);
    }

    method Disarm() returns (r: ArmResult)
      modifies this
      ensures (Model(), r) == DisarmSpec(old(Model()))
    {
      explicitArmed := false;
      if safeMode {
        state := SAFE_MODE;
        return ArmResult(true, state, "disarmed_in_safe_mode", []);
      }
      if state == DEMO {
        return ArmResult(true, state, "demo", []);
      }
      var s := RecomputeState();
      r := ArmResult(true, s, "disarmed", []);
    }

    method ResumeFromAdminPolicy(autonomousLive: bool, prerequisitesSatisfied: bool) returns (r: ArmResult)
      modifies this
      ensures (Model(), r) == ResumeSpec(old(Model()), autonomousLive, prerequisitesSatisfied)
    {
      hide Missing;
      if state == DEMO && !autonomousLive {
        return ArmResult(true, state, "demo", []);
      }
      if safeMode {
        return ArmResult(false, SAFE_MODE, "safe_mode", []);
      }
      if !autonomousLive {
        explicitArmed := false;
        var s := RecomputeState();
        return ArmResult(false, s, "autonomous_live_false", []);
      }
      if !prerequisitesSatisfied {
        explicitArmed := false;
        var s := RecomputeState();
        return ArmResult(false, s, "prerequisites_unmet", Missing(satisfied));
      }
      satisfied := satisfied + {OPERATOR_AUTHORIZED};
      if !AllSatisfied(satisfied) {
        explicitArmed := false;
        var s := RecomputeState();
        return ArmResult(false, s, "prerequisites_unmet", Missing(satisfied));
      }
      explicitArmed := true;
      state := LIVE_ARMED;
      r := ArmResult(true, state, "resumed_from_admin_policy", []);
    }
  }
}
