/** The capital safety posture: a walk on a fixed graph, each step keyed and taken once. */
module Capital {
  import opened Common

  datatype CapitalState =
    | INITIALIZING | OBSERVING | NORMAL | CAUTION | RESTRICTED | PAUSED | RECOVERY | EMERGENCY_STOP | UNKNOWN

  /** ALLOWED_TRANSITIONS. */
  function Successors(s: CapitalState): seq<CapitalState> {
    match s
    case INITIALIZING => [OBSERVING, UNKNOWN, EMERGENCY_STOP]
    case OBSERVING => [NORMAL, CAUTION, RESTRICTED, PAUSED, UNKNOWN, EMERGENCY_STOP]
    case NORMAL => [CAUTION, RESTRICTED, PAUSED, EMERGENCY_STOP, UNKNOWN, OBSERVING]
    case CAUTION => [RESTRICTED, PAUSED, RECOVERY, EMERGENCY_STOP, UNKNOWN, NORMAL]
    case RESTRICTED => [PAUSED, RECOVERY, EMERGENCY_STOP, UNKNOWN, CAUTION]
    case PAUSED => [RECOVERY, EMERGENCY_STOP, UNKNOWN, RESTRICTED]
    case RECOVERY => [NORMAL, CAUTION, RESTRICTED, PAUSED, EMERGENCY_STOP, UNKNOWN, OBSERVING]
    case EMERGENCY_STOP => [RECOVERY, UNKNOWN, PAUSED]
    case UNKNOWN => [OBSERVING, PAUSED, EMERGENCY_STOP, RECOVERY, INITIALIZING]
  }

  predicate CanTransition(before: CapitalState, after: CapitalState) {
    before == after || after in Successors(before)
  }

  /** The preimage of a transition id; hashes are taken to be free of collisions. */
  datatype Tid = Tid(before: CapitalState, after: CapitalState, reason: string, evidence: string)

  datatype Record = Record(state: CapitalState, transitionIds: seq<Tid>, evidence: seq<string>)

  datatype TransitionRecord = TransitionRecord(tid: Tid, evidence: seq<string>, actor: string)

  /** The registry's two fields. */
  datatype Registry = Registry(record: Option<Record>, transitions: map<Tid, TransitionRecord>)

  datatype Outcome = Raised | Returned(record: Option<Record>)

  function Join(parts: seq<string>): string {
    if parts == [] then "" else if |parts| == 1 then parts[0] else parts[0] + "|" + Join(parts[1..])
  }

  function EvidenceKey(refs: seq<string>): string {
    Join(Sort(refs, StrLeq))
  }

  function InitRecord(s: CapitalState): Record {
    Record(s, [], [])
  }

  function FreshRegistry(): Registry {
    Registry(Some(InitRecord(INITIALIZING)), map[])
  }

  function StateOf(reg: Registry): CapitalState {
    if reg.record.Some? then reg.record.value.state else UNKNOWN
  }

  /** `transition` once a record is present. */
  function Applied(reg: Registry, rec: Record, after: CapitalState, reason: string, refs: seq<string>, actor: string)
    : (Registry, Outcome)
  {
    var tid := Tid(rec.state, after, Strip(reason), EvidenceKey(refs));
    if rec.state == after then (reg, Returned(Some(rec)))
    else if !CanTransition(rec.state, after) then (reg, Raised)
    else if tid in reg.transitions then (reg, Returned(Some(rec)))
    else
      var rec' := Record(after, rec.transitionIds + [tid], FirstOccurrences(rec.evidence + refs));
      (Registry(Some(rec'), reg.transitions[tid := TransitionRecord(tid, refs, actor)]), Returned(Some(rec')))
  }

  function TransitionSpec(reg: Registry, after: CapitalState, reason: string, refs: seq<string>, actor: string)
    : (Registry, Outcome)
  {
    if Blank(reason) then (reg, Raised)
    else if reg.record.None? then
      var rec := InitRecord(UNKNOWN);
      Applied(reg.(record := Some(rec)), rec, after, reason, refs, actor)
    else Applied(reg, reg.record.value, after, reason, refs, actor)
  }

  function Permission(value: string): string {
    if value == "" then "UNKNOWN" else Upper(value)
  }

  /** The state a hint asks for, before the graph has its say. */
  function Suggested(perm: string, current: CapitalState): CapitalState {
    if perm == "BLOCK" then EMERGENCY_STOP
    else if perm == "PAUSE" then PAUSED
    else if perm == "RESTRICT" then RESTRICTED
    else if perm == "ALLOW" then if current == EMERGENCY_STOP || current == PAUSED then RECOVERY else NORMAL
    else UNKNOWN
  }

  /** The state a hint aims at: UNKNOWN where the suggestion is out of reach. */
  function Target(perm: string, current: CapitalState): CapitalState {
    if CanTransition(current, Suggested(perm, current)) then Suggested(perm, current) else UNKNOWN
  }

  function HintReason(perm: string, reason: Option<string>): string {
    if reason.Some? && reason.value != "" then reason.value else "policy_permission=" + perm
  }

  function HintSpec(reg: Registry, value: string, refs: seq<string>, reason: Option<string>): (Registry, Outcome) {
    var perm := Permission(value);
    TransitionSpec(reg, Target(perm, StateOf(reg)), HintReason(perm, reason), refs, "policy_hint")
  }

  // ---- Registry and engine ------------------------------------------------------------------

  class CapitalRegistry {
    var record: Option<Record>
    var transitions: map<Tid, TransitionRecord>

    ghost function Model(): Registry
      reads this
    {
      Registry(record, transitions)
    }

    constructor ()
      ensures Model() == Registry(None, map[])
    {
      record := None;
      transitions := map[];
    }

    method SetRecord(rec: Record)
      modifies this
      ensures Model() == old(Model()).(record := Some(rec))
    {
      record := Some(rec);
    }

    method AddTransition(tr: TransitionRecord) returns (kept: TransitionRecord)
      modifies this
      ensures record == old(record)
      ensures transitions == if tr.tid in old(transitions) then old(transitions) else old(transitions)[tr.tid := tr]
      ensures tr.tid in transitions && kept == transitions[tr.tid]
    {
      if tr.tid in transitions {
        return transitions[tr.tid];
      }
      transitions := transitions[tr.tid := tr];
      kept := tr;
    }

    method GetTransition(tid: Tid) returns (tr: Option<TransitionRecord>)
      ensures tr == if tid in transitions then Some(transitions[tid]) else None
    {
      tr := if tid in transitions then Some(transitions[tid]) else None;
    }
  }

  class CapitalSafetyEngine {
    const registry: CapitalRegistry

    constructor (registry: CapitalRegistry)
      modifies registry
      ensures this.registry == registry
      ensures registry.Model() ==
              if old(registry.record).Some? then old(registry.Model())
              else old(registry.Model()).(record := Some(InitRecord(INITIALIZING)))
    {
      this.registry := registry;
      new;
      if registry.record.None? {
        registry.SetRecord(InitRecord(INITIALIZING));
      }
    }

    method Transition(after: CapitalState, reason: string, refs: seq<string>, actor: string) returns (out: Outcome)
      modifies registry
      ensures (registry.Model(), out) == TransitionSpec(old(registry.Model()), after, reason, refs, actor)
    {
      hide Strip, Blank, EvidenceKey, Successors;
      StripEmptiesExactlyBlanks(reason);
      if reason == "" || Strip(reason) == "" {
        assert Blank(reason) by { StripOfEmpty(); }
        return Raised;
      }
      if registry.record.None? {
        registry.SetRecord(InitRecord(UNKNOWN));
      }
      var rec := registry.record.value;
      var before := rec.state;
      if before == after {
        return Returned(Some(rec));
      }
      if !CanTransition(before, after) {
        return Raised;
      }
      var tid := Tid(before, after, Strip(reason), EvidenceKey(refs));
      var existing := registry.GetTransition(tid);
      if existing.Some? {
        return Returned(Some(rec));
      }
      var _ := registry.AddTransition(TransitionRecord(tid, refs, actor));
      rec := Record(after, rec.transitionIds + [tid], FirstOccurrences(rec.evidence + refs));
      registry.SetRecord(rec);
      out := Returned(Some(rec));
    }

    method ApplyPermissionHint(value: string, refs: seq<string>, reason: Option<string>) returns (out: Outcome)
      modifies registry
      ensures (registry.Model(), out) == HintSpec(old(registry.Model()), value, refs, reason)
    {
      hide TransitionSpec, CanTransition;
      var perm := Permission(value);
      var current := if registry.record.Some? then registry.record.value.state else UNKNOWN;
      var target;
      if perm == "BLOCK" {
        target := EMERGENCY_STOP;
      } else if perm == "PAUSE" {
        target := PAUSED;
      } else if perm == "RESTRICT" {
        target := RESTRICTED;
      } else if perm == "ALLOW" {
        target := NORMAL;
      } else {
        target := UNKNOWN;
      }
      if perm == "ALLOW" && current == EMERGENCY_STOP {
        target := RECOVERY;
      }
      if perm == "ALLOW" && current == PAUSED {
        target := RECOVERY;
      }
      if !CanTransition(current, target) {
        UnknownIsAlwaysOpen(current);
        if CanTransition(current, UNKNOWN) {
          target := UNKNOWN;
        } else {
          // No state is cut off from UNKNOWN.
          assert false;
        }
      }
      out := this.Transition(target, HintReason(perm, reason), refs, "policy_hint");
    }
  }

  lemma StripOfEmpty()
    ensures Blank("")
  {
  }

  lemma UnknownIsAlwaysOpen(s: CapitalState)
    ensures CanTransition(s, UNKNOWN)
  {
    var next := Successors(s);
    match s
    case INITIALIZING => assert next[1] == UNKNOWN;
    case OBSERVING => assert next[4] == UNKNOWN;
    case NORMAL => assert next[4] == UNKNOWN;
    case CAUTION => assert next[4] == UNKNOWN;
    case RESTRICTED => assert next[3] == UNKNOWN;
    case PAUSED => assert next[2] == UNKNOWN;
    case RECOVERY => assert next[5] == UNKNOWN;
    case EMERGENCY_STOP => assert next[1] == UNKNOWN;
    case UNKNOWN =>
  }
}
