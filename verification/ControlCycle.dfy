/** The control-loop state graph and the logged cycle that walks it. */
module ControlCycle {
  import opened Common

  datatype ControlState =
    | IDLE | OBSERVING | VALIDATING | ASSESSING | PREDICTING | DECIDING | RISK_CHECK | EXECUTION_INTENT
    | PAPER_EXECUTION | MONITORING | REASSESSMENT | COMPLETED | FAILED | SAFE_STOP | RECOVERY_REQUIRED

  function Allowed(s: ControlState): set<ControlState> {
    match s
    case IDLE => {OBSERVING, RECOVERY_REQUIRED}
    case OBSERVING => {VALIDATING, FAILED, SAFE_STOP, RECOVERY_REQUIRED}
    case VALIDATING => {ASSESSING, SAFE_STOP, FAILED, RECOVERY_REQUIRED}
    case ASSESSING => {PREDICTING, SAFE_STOP, FAILED, RECOVERY_REQUIRED}
    case PREDICTING => {DECIDING, SAFE_STOP, FAILED, RECOVERY_REQUIRED}
    case DECIDING => {RISK_CHECK, SAFE_STOP, FAILED, RECOVERY_REQUIRED}
    case RISK_CHECK => {EXECUTION_INTENT, SAFE_STOP, FAILED, RECOVERY_REQUIRED}
    case EXECUTION_INTENT => {PAPER_EXECUTION, SAFE_STOP, FAILED, RECOVERY_REQUIRED}
    case PAPER_EXECUTION => {MONITORING, SAFE_STOP, FAILED, RECOVERY_REQUIRED}
    case MONITORING => {REASSESSMENT, COMPLETED, SAFE_STOP, RECOVERY_REQUIRED}
    case REASSESSMENT => {COMPLETED, SAFE_STOP, FAILED, RECOVERY_REQUIRED}
    case COMPLETED => {IDLE}
    case FAILED => {SAFE_STOP, IDLE}
    case SAFE_STOP => {IDLE, RECOVERY_REQUIRED}
    case RECOVERY_REQUIRED => {SAFE_STOP, IDLE, OBSERVING}
  }

  predicate CanTransition(a: ControlState, b: ControlState) {
    b in Allowed(a)
  }

  /** The table read the other way: the states each state can be entered from. */
  lemma EnteredExactlyFrom(a: ControlState, b: ControlState)
    ensures CanTransition(a, b) <==>
            match b
            case IDLE => a in {COMPLETED, FAILED, SAFE_STOP, RECOVERY_REQUIRED}
            case OBSERVING => a in {IDLE, RECOVERY_REQUIRED}
            case VALIDATING => a == OBSERVING
            case ASSESSING => a == VALIDATING
            case PREDICTING => a == ASSESSING
            case DECIDING => a == PREDICTING
            case RISK_CHECK => a == DECIDING
            case EXECUTION_INTENT => a == RISK_CHECK
            case PAPER_EXECUTION => a == EXECUTION_INTENT
            case MONITORING => a == PAPER_EXECUTION
            case REASSESSMENT => a == MONITORING
            case COMPLETED => a in {MONITORING, REASSESSMENT}
            case FAILED => a !in {IDLE, MONITORING, COMPLETED, FAILED, SAFE_STOP, RECOVERY_REQUIRED}
            case SAFE_STOP => a !in {IDLE, COMPLETED, SAFE_STOP}
            case RECOVERY_REQUIRED => a !in {COMPLETED, FAILED, RECOVERY_REQUIRED}
  {
  }

  datatype TransitionRecord = TransitionRecord(
    from: ControlState,
    to_: ControlState,
    reason: string,
    failureCode: Option<string>)

  /** The state a log leads to from IDLE. */
  function EndOf(log: seq<TransitionRecord>): ControlState {
    if log == [] then IDLE else log[|log| - 1].to_
  }

  /** A log is a walk from IDLE along allowed edges, each record starting where the one before ended. */
  ghost predicate IsWalk(log: seq<TransitionRecord>) {
    forall i :: 0 <= i < |log| ==> log[i].from == EndOf(log[..i]) && CanTransition(log[i].from, log[i].to_)
  }

  function Visited(log: seq<TransitionRecord>): (r: seq<ControlState>)
    ensures |r| == |log| && forall i :: 0 <= i < |r| ==> r[i] == log[i].to_
  {
    seq(|log|, i requires 0 <= i < |log| => log[i].to_)
  }

  /** On every walk, paper execution comes straight after an execution intent, and that straight after a risk check.
      */
  lemma PaperFollowsRiskAndIntent(log: seq<TransitionRecord>, i: nat)
    requires IsWalk(log) && i < |log| && log[i].to_ == PAPER_EXECUTION
    ensures i >= 2 && log[i - 1].to_ == EXECUTION_INTENT && log[i - 2].to_ == RISK_CHECK
  {
    assert log[i].from == EndOf(log[..i]) && CanTransition(log[i].from, PAPER_EXECUTION);
    assert log[i].from == EXECUTION_INTENT;
    assert i >= 1 && log[..i][i - 1] == log[i - 1];
    assert log[i - 1].from == EndOf(log[..i - 1]) && CanTransition(log[i - 1].from, EXECUTION_INTENT);
    assert log[i - 1].from == RISK_CHECK;
    assert i >= 2 && log[..i - 1][i - 2] == log[i - 2];
  }

  class ControlCycle {
    const cycleId: string
    const symbol: string
    const expiresAt: real
    var state: ControlState
    var transitions: seq<TransitionRecord>
    var intentIds: seq<string>
    var failureCode: Option<string>
    /** The states entered so far, read off the log. */
    ghost var visited: seq<ControlState>

    ghost predicate Valid()
      reads this
    {
      IsWalk(transitions) && state == EndOf(transitions) && visited == Visited(transitions)
    }

    constructor (cycleId: string, symbol: string, now: real, ttl: real)
      ensures Valid() && state == IDLE && visited == [] && intentIds == [] && failureCode == None
      ensures this.cycleId == cycleId && this.symbol == symbol && expiresAt == now + ttl
    {
      this.cycleId, this.symbol, expiresAt := cycleId, symbol, now + ttl;
      state, transitions, intentIds, failureCode, visited := IDLE, [], [], None, [];
    }

    predicate IsExpired(now: real)
    {
      now > expiresAt
    }

    /** False stands for the IllegalTransitionError; then nothing changed. */
    method Transition(target: ControlState, reason: string, code: Option<string>) returns (ok: bool)
      requires Valid()
      modifies this`state, this`transitions, this`failureCode, this`visited
      ensures Valid()
      ensures ok <==> CanTransition(old(state), target)
      ensures !ok ==> transitions == old(transitions) && visited == old(visited)
      ensures !ok ==> state == old(state) && failureCode == old(failureCode)
      ensures ok ==> transitions == old(transitions) + [TransitionRecord(old(state), target, reason, code)]
      ensures ok ==> state == target
      ensures ok ==> visited == old(visited) + [target]
      ensures ok ==> failureCode == if code.Some? && code.value != "" then code else old(failureCode)
    {
      hide Allowed, IsWalk, EndOf, Visited;
      if !CanTransition(state, target) {
        return false;
      }
      ghost var before := transitions;
      transitions := transitions + [TransitionRecord(state, target, reason, code)];
      state := target;
      visited := visited + [target];
      if code.Some? && code.value != "" {
        failureCode := code;
      }
      ok := true;
      WalkGrows(before, transitions[|before|]);
    }

    method RegisterIntent(intentId: string) returns (ok: bool)
      modifies this`intentIds
      ensures ok <==> intentId !in old(intentIds)
      ensures intentIds == old(intentIds) + if ok then [intentId] else []
    {
      if intentId in intentIds {
        return false;
      }
      intentIds := intentIds + [intentId];
      ok := true;
    }
  }

  lemma WalkGrows(log: seq<TransitionRecord>, r: TransitionRecord)
    requires IsWalk(log) && r.from == EndOf(log) && CanTransition(r.from, r.to_)
    ensures IsWalk(log + [r]) && EndOf(log + [r]) == r.to_ && Visited(log + [r]) == Visited(log) + [r.to_]
  {
    hide Allowed;
    var more := log + [r];
    forall i | 0 <= i < |more| ensures more[i].from == EndOf(more[..i]) && CanTransition(more[i].from, more[i].to_) {
      if i < |log| {
        assert more[..i] == log[..i];
      } else {
        assert more[..i] == log;
      }
    }
  }
}
