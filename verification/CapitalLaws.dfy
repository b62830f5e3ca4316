/** Runs of the capital safety engine from a fresh registry. */
module CapitalLaws {
  import opened Common
  import opened Capital

  datatype Op =
    | Move(after: CapitalState, reason: string, refs: seq<string>, actor: string)
    | Hint(value: string, refs: seq<string>, given: Option<string>)

  function Do(reg: Registry, op: Op): (Registry, Outcome) {
    match op
    case Move(after, reason, refs, actor) => TransitionSpec(reg, after, reason, refs, actor)
    case Hint(value, refs, given) => HintSpec(reg, value, refs, given)
  }

  function Run(ops: seq<Op>): Registry {
    if ops == [] then FreshRegistry() else Do(Run(ops[..|ops| - 1]), ops[|ops| - 1]).0
  }

  function AppliedIds(reg: Registry): seq<Tid> {
    if reg.record.Some? then reg.record.value.transitionIds else []
  }

  // ---- The walk -----------------------------------------------------------------------------

  predicate Edge(t: Tid) {
    t.before != t.after && t.after in Successors(t.before)
  }

  /** The state after the first k steps. */
  function StateAfter(ids: seq<Tid>, k: nat): CapitalState
    requires k <= |ids|
  {
    if k == 0 then INITIALIZING else ids[k - 1].after
  }

  predicate Path(ids: seq<Tid>) {
    forall k :: 0 <= k < |ids| ==> Edge(ids[k]) && ids[k].before == StateAfter(ids, k)
  }

  /** The applied ids are a path from INITIALIZING to the current state, each taken once, and the table holds exactly
      those. */
  ghost predicate Walked(reg: Registry) {
    && reg.record.Some?
    && var ids := reg.record.value.transitionIds;
    && Path(ids) && StateAfter(ids, |ids|) == reg.record.value.state
    && Distinct(ids)
    && (forall t :: t in ids <==> t in reg.transitions)
    && (forall t :: t in reg.transitions ==> reg.transitions[t].tid == t)
  }

  lemma PathGrows(ids: seq<Tid>, t: Tid)
    requires Path(ids) && Edge(t) && t.before == StateAfter(ids, |ids|) && Distinct(ids) && t !in ids
    ensures Path(ids + [t]) && StateAfter(ids + [t], |ids + [t]|) == t.after && Distinct(ids + [t])
  {
    hide Edge;
    var more := ids + [t];
    forall k | 0 <= k < |more| ensures Edge(more[k]) && more[k].before == StateAfter(more, k) {
      if k < |ids| {
        assert more[k] == ids[k] && StateAfter(more, k) == StateAfter(ids, k);
      }
    }
  }

  lemma AppliedKeepsWalk(reg: Registry, after: CapitalState, reason: string, refs: seq<string>, actor: string)
    requires Walked(reg)
    ensures Walked(Applied(reg, reg.record.value, after, reason, refs, actor).0)
  {
    hide Strip, EvidenceKey, Successors, FirstOccurrences, Path, Distinct;
    var rec := reg.record.value;
    var tid := Tid(rec.state, after, Strip(reason), EvidenceKey(refs));
    if rec.state != after && CanTransition(rec.state, after) && tid !in reg.transitions {
      PathGrows(rec.transitionIds, tid);
    }
  }

  lemma DoKeepsWalk(reg: Registry, op: Op)
    requires Walked(reg)
    ensures Walked(Do(reg, op).0)
  {
    hide Applied, Walked, Target, HintReason, Blank;
    assert reg.record.Some? by { WalkedHasRecord(reg); }
    match op
    case Move(after, reason, refs, actor) => AppliedKeepsWalk(reg, after, reason, refs, actor);
    case Hint(value, refs, given) =>
      var perm := Permission(value);
      AppliedKeepsWalk(reg, Target(perm, StateOf(reg)), HintReason(perm, given), refs, "policy_hint");
  }

  lemma WalkedHasRecord(reg: Registry)
    requires Walked(reg)
    ensures reg.record.Some?
  {
  }

  lemma {:induction false} RunsWalk(ops: seq<Op>)
    ensures Walked(Run(ops))
  {
    hide Do, Walked;
    if ops == [] {
      FreshIsWalked();
    } else {
      RunsWalk(ops[..|ops| - 1]);
      DoKeepsWalk(Run(ops[..|ops| - 1]), ops[|ops| - 1]);
    }
  }

  lemma FreshIsWalked()
    ensures Walked(FreshRegistry())
  {
  }

  /** The record's evidence: every reference some applied transition was given, once. */
  ghost predicate Collected(reg: Registry) {
    reg.record.Some? ==>
      && Distinct(reg.record.value.evidence)
      && forall x :: x in reg.record.value.evidence <==> CitedIn(reg.transitions, x)
  }

  predicate CitedIn(transitions: map<Tid, TransitionRecord>, x: string) {
    exists t :: t in transitions && x in transitions[t].evidence
  }

  lemma CitedGrows(transitions: map<Tid, TransitionRecord>, t: Tid, refs: seq<string>, actor: string, x: string)
    requires t !in transitions
    ensures CitedIn(transitions[t := TransitionRecord(t, refs, actor)], x) <==> CitedIn(transitions, x) || x in refs
  {
    var more := transitions[t := TransitionRecord(t, refs, actor)];
    if CitedIn(transitions, x) {
      var u :| u in transitions && x in transitions[u].evidence;
      assert x in more[u].evidence;
    }
    if x in refs {
      assert x in more[t].evidence;
    }
  }

  lemma AppliedCollects(reg: Registry, after: CapitalState, reason: string, refs: seq<string>, actor: string)
    requires reg.record.Some? && Collected(reg)
    ensures Collected(Applied(reg, reg.record.value, after, reason, refs, actor).0)
  {
    hide Strip, EvidenceKey, Successors, FirstOccurrences, Distinct, CitedIn;
    var rec := reg.record.value;
    var tid := Tid(rec.state, after, Strip(reason), EvidenceKey(refs));
    if rec.state != after && CanTransition(rec.state, after) && tid !in reg.transitions {
      var all := rec.evidence + refs;
      FirstOccurrencesListOnce(all);
      var more := reg.transitions[tid := TransitionRecord(tid, refs, actor)];
      forall x ensures x in FirstOccurrences(all) <==> CitedIn(more, x) {
        CitedGrows(reg.transitions, tid, refs, actor, x);
      }
    }
  }

  /** After every run the record's evidence lists, each once, exactly what the applied transitions cite. */
  lemma {:induction false} RunsCollectEvidence(ops: seq<Op>)
    ensures Collected(Run(ops))
  {
    hide Applied, Collected, Target, HintReason, Blank, Walked, Permission;
    if ops == [] {
      NothingCollected();
    } else {
      var past, op := ops[..|ops| - 1], ops[|ops| - 1];
      RunsCollectEvidence(past);
      RunsWalk(past);
      WalkedHasRecord(Run(past));
      var reg := Run(past);
      match op
      case Move(after, reason, refs, actor) => AppliedCollects(reg, after, reason, refs, actor);
      case Hint(value, refs, given) =>
        var perm := Permission(value);
        AppliedCollects(reg, Target(perm, StateOf(reg)), HintReason(perm, given), refs, "policy_hint");
    }
  }

  lemma NothingCollected()
    ensures Collected(FreshRegistry())
  {
  }

  /** The graph read the other way: the states each other state can be entered from. */
  lemma EnteredExactlyFrom(s: CapitalState, after: CapitalState)
    requires s != after
    ensures CanTransition(s, after) <==>
            match after
            case INITIALIZING => s == UNKNOWN
            case OBSERVING => s in {INITIALIZING, NORMAL, RECOVERY, UNKNOWN}
            case NORMAL => s in {OBSERVING, CAUTION, RECOVERY}
            case CAUTION => s in {OBSERVING, NORMAL, RESTRICTED, RECOVERY}
            case RESTRICTED => s in {OBSERVING, NORMAL, CAUTION, PAUSED, RECOVERY}
            case PAUSED => s != INITIALIZING
            case RECOVERY => s in {CAUTION, RESTRICTED, PAUSED, EMERGENCY_STOP, UNKNOWN}
            case EMERGENCY_STOP => true
            case UNKNOWN => true
  {
    ListsItsMembers(Successors(s), after);
  }

  lemma ListsItsMembers(next: seq<CapitalState>, after: CapitalState)
    ensures after in next <==> exists k :: 0 <= k < |next| && next[k] == after
  {
  }

  /** What a request to move does, once a record is present: it raises exactly with a blank reason or for a state that
      cannot be entered from the present one; it changes something exactly if the state is another and its key is new,
      and then records the move under its key with its evidence and its actor. */
  lemma MoveExactly(reg: Registry, after: CapitalState, reason: string, refs: seq<string>, actor: string)
    requires reg.record.Some?
    ensures var (d, out) := TransitionSpec(reg, after, reason, refs, actor);
            var now := StateOf(reg);
            var t := Tid(now, after, Strip(reason), EvidenceKey(refs));
            var legal := !Blank(reason) && (now == after || after in Successors(now));
            && (out.Raised? <==> !legal)
            && (!legal || now == after || t in reg.transitions ==> d == reg)
            && (legal && now != after && t !in reg.transitions ==>
                  && d.record.Some? && StateOf(d) == after
                  && d.record.value.transitionIds == reg.record.value.transitionIds + [t]
                  && d.transitions == reg.transitions[t := TransitionRecord(t, refs, actor)])
            && (out.Returned? ==> out.record == d.record)
  {
    hide Blank, Strip, EvidenceKey, Successors, FirstOccurrences;
  }

  // ---- The bound ----------------------------------------------------------------------------

  /** What a transition id takes from the request. */
  function KeyOf(op: Op): (string, string) {
    match op
    case Move(_, reason, refs, _) => (Strip(reason), EvidenceKey(refs))
    case Hint(value, refs, given) => (Strip(HintReason(Permission(value), given)), EvidenceKey(refs))
  }

  function KeysUsed(ops: seq<Op>): set<(string, string)> {
    set op | op in ops :: KeyOf(op)
  }

  predicate Keyed(ids: seq<Tid>, keys: set<(string, string)>) {
    forall k :: 0 <= k < |ids| ==> (ids[k].reason, ids[k].evidence) in keys
  }

  lemma DoKeepsKeyed(reg: Registry, op: Op, keys: set<(string, string)>)
    requires reg.record.Some? && Keyed(reg.record.value.transitionIds, keys) && KeyOf(op) in keys
    ensures Do(reg, op).0.record.Some? && Keyed(Do(reg, op).0.record.value.transitionIds, keys)
  {
    hide Strip, EvidenceKey, CanTransition, FirstOccurrences, Target, HintReason, Permission, Blank;
  }

  lemma {:induction false} RunIsKeyed(ops: seq<Op>, keys: set<(string, string)>)
    requires KeysUsed(ops) <= keys
    ensures Run(ops).record.Some? && Keyed(Run(ops).record.value.transitionIds, keys)
  {
    hide Do, KeyOf;
    if ops != [] {
      var past, op := ops[..|ops| - 1], ops[|ops| - 1];
      assert KeysUsed(past) <= KeysUsed(ops);
      assert op in ops;
      assert KeyOf(op) in KeysUsed(ops);
      RunIsKeyed(past, keys);
      DoKeepsKeyed(Run(past), op, keys);
    }
  }

  const STATES := [INITIALIZING, OBSERVING, NORMAL, CAUTION, RESTRICTED, PAUSED, RECOVERY, EMERGENCY_STOP, UNKNOWN]

  function EdgesFrom(s: CapitalState, next: seq<CapitalState>): (r: seq<(CapitalState, CapitalState)>)
    ensures |r| == |next| && forall k :: 0 <= k < |r| ==> r[k] == (s, next[k])
  {
    seq(|next|, k requires 0 <= k < |next| => (s, next[k]))
  }

  function AllEdges(states: seq<CapitalState>): seq<(CapitalState, CapitalState)> {
    if states == [] then [] else EdgesFrom(states[0], Successors(states[0])) + AllEdges(states[1..])
  }

  lemma {:induction false} EdgeIsListed(states: seq<CapitalState>, s: CapitalState, after: CapitalState)
    requires s in states && after in Successors(s)
    ensures (s, after) in AllEdges(states)
  {
    hide Successors;
    if s == states[0] {
      var k :| 0 <= k < |Successors(s)| && Successors(s)[k] == after;
      assert AllEdges(states)[k] == (s, after);
    } else {
      EdgeIsListed(states[1..], s, after);
    }
  }

  function Degrees(states: seq<CapitalState>): nat {
    if states == [] then 0 else |Successors(states[0])| + Degrees(states[1..])
  }

  lemma {:induction false} EdgeCount(states: seq<CapitalState>)
    ensures |AllEdges(states)| == Degrees(states)
  {
    hide Successors;
    if states != [] {
      EdgeCount(states[1..]);
    }
  }

  lemma FortyFiveEdges()
    ensures |AllEdges(STATES)| == 45
  {
    EdgeCount(STATES);
    assert STATES[1..] == [OBSERVING, NORMAL, CAUTION, RESTRICTED, PAUSED, RECOVERY, EMERGENCY_STOP, UNKNOWN];
    assert STATES[1..][1..] == [NORMAL, CAUTION, RESTRICTED, PAUSED, RECOVERY, EMERGENCY_STOP, UNKNOWN];
    assert Degrees([RECOVERY, EMERGENCY_STOP, UNKNOWN]) == 15;
    assert Degrees([RESTRICTED, PAUSED, RECOVERY, EMERGENCY_STOP, UNKNOWN]) == 24;
    assert Degrees([NORMAL, CAUTION, RESTRICTED, PAUSED, RECOVERY, EMERGENCY_STOP, UNKNOWN]) == 36;
  }

  lemma EveryStateIsListed(s: CapitalState)
    ensures s in STATES
  {
    match s
    case INITIALIZING => assert STATES[0] == s;
    case OBSERVING => assert STATES[1] == s;
    case NORMAL => assert STATES[2] == s;
    case CAUTION => assert STATES[3] == s;
    case RESTRICTED => assert STATES[4] == s;
    case PAUSED => assert STATES[5] == s;
    case RECOVERY => assert STATES[6] == s;
    case EMERGENCY_STOP => assert STATES[7] == s;
    case UNKNOWN => assert STATES[8] == s;
  }

  function Along(e: (CapitalState, CapitalState), keys: set<(string, string)>): set<Tid> {
    set p | p in keys :: Tid(e.0, e.1, p.0, p.1)
  }

  function Tids(edges: seq<(CapitalState, CapitalState)>, keys: set<(string, string)>): set<Tid> {
    if edges == [] then {} else Along(edges[0], keys) + Tids(edges[1..], keys)
  }

  lemma {:induction false} AlongSize(e: (CapitalState, CapitalState), keys: set<(string, string)>)
    ensures |Along(e, keys)| <= |keys|
    decreases |keys|
  {
    if keys == {} {
      assert Along(e, keys) == {};
    } else {
      var p :| p in keys;
      AlongSize(e, keys - {p});
      assert Along(e, keys) == Along(e, keys - {p}) + {Tid(e.0, e.1, p.0, p.1)};
    }
  }

  lemma {:induction false} TidsSize(edges: seq<(CapitalState, CapitalState)>, keys: set<(string, string)>)
    ensures |Tids(edges, keys)| <= |edges| * |keys|
  {
    hide Along;
    if edges != [] {
      TidsSize(edges[1..], keys);
      AlongSize(edges[0], keys);
    }
  }

  lemma {:induction false} TidIsCounted(edges: seq<(CapitalState, CapitalState)>, keys: set<(string, string)>, t: Tid)
    requires (t.before, t.after) in edges && (t.reason, t.evidence) in keys
    ensures t in Tids(edges, keys)
  {
    if edges[0] == (t.before, t.after) {
      assert t in Along(edges[0], keys);
    } else {
      TidIsCounted(edges[1..], keys, t);
    }
  }

  /** A run whose requests carry k different pairs of stripped reason and evidence key changes state at most 45 * k
      times, whatever it asks for and however often. */
  lemma ChangesAreBounded(ops: seq<Op>)
    ensures |AppliedIds(Run(ops))| <= 45 * |KeysUsed(ops)|
  {
    var keys := KeysUsed(ops);
    RunsWalk(ops);
    RunIsKeyed(ops, keys);
    hide Run, KeysUsed, Successors, AllEdges;
    var ids := Run(ops).record.value.transitionIds;
    var all := Tids(AllEdges(STATES), keys);
    forall t | t in ToSet(ids) ensures t in all {
      EveryStateIsListed(t.before);
      EdgeIsListed(STATES, t.before, t.after);
      TidIsCounted(AllEdges(STATES), keys, t);
    }
    SubsetSize(ToSet(ids), all);
    DistinctCount(ids);
    FortyFiveEdges();
    TidsSize(AllEdges(STATES), keys);
  }

  lemma {:induction false} SubsetSize<T>(a: set<T>, b: set<T>)
    requires a <= b
    ensures |a| <= |b|
  {
    assert b == a + (b - a);
  }

  // ---- Hints --------------------------------------------------------------------------------

  /** A hint raises exactly if it comes with a reason that is all white space; an empty one counts as none. */
  lemma HintRaisesExactly(reg: Registry, value: string, refs: seq<string>, given: Option<string>)
    ensures HintSpec(reg, value, refs, given).1.Raised? <==> given.Some? && given.value != "" && Blank(given.value)
  {
    var perm := Permission(value);
    var reason := HintReason(perm, given);
    UnknownIsAlwaysOpen(StateOf(reg));
    assert CanTransition(StateOf(reg), Target(perm, StateOf(reg)));
    if given.None? || given.value == "" {
      assert reason[0] == 'p' && !IsSpace(reason[0]);
    }
    hide Blank, CanTransition, Strip, EvidenceKey, Target;
  }

  lemma SameIsOpen(s: CapitalState)
    ensures CanTransition(s, s)
  {
  }

  lemma HintedStatesAreOpen(s: CapitalState)
    ensures s != EMERGENCY_STOP ==> CanTransition(s, EMERGENCY_STOP)
    ensures s != PAUSED ==> (CanTransition(s, PAUSED) <==> s != INITIALIZING)
    ensures s != RESTRICTED ==> (CanTransition(s, RESTRICTED) <==> s !in {INITIALIZING, EMERGENCY_STOP, UNKNOWN})
    ensures s != NORMAL ==> (CanTransition(s, NORMAL) <==> s in {OBSERVING, CAUTION, RECOVERY})
    ensures s in {EMERGENCY_STOP, PAUSED} ==> CanTransition(s, RECOVERY)
  {
    hide CanTransition;
    if s != EMERGENCY_STOP {
      EnteredExactlyFrom(s, EMERGENCY_STOP);
    }
    if s != PAUSED {
      EnteredExactlyFrom(s, PAUSED);
    }
    if s != RESTRICTED {
      EnteredExactlyFrom(s, RESTRICTED);
    }
    if s != NORMAL {
      EnteredExactlyFrom(s, NORMAL);
    }
    if s != RECOVERY {
      EnteredExactlyFrom(s, RECOVERY);
    }
  }

  lemma WordsSuggest(value: string, current: CapitalState)
    ensures var word, asked := Upper(value), Suggested(Permission(value), current);
            && (word == "BLOCK" ==> asked == EMERGENCY_STOP)
            && (word == "PAUSE" ==> asked == PAUSED)
            && (word == "RESTRICT" ==> asked == RESTRICTED)
            && (word == "ALLOW" ==> asked == if current in {EMERGENCY_STOP, PAUSED} then RECOVERY else NORMAL)
            && (word !in {"BLOCK", "PAUSE", "RESTRICT", "ALLOW"} ==> asked == UNKNOWN)
  {
    assert Upper("") == "";
    hide Upper;
  }

  /** Where a hint leads, by the policy's word and the state it finds: BLOCK always stops; the others fall back to
      UNKNOWN where the state they ask for is out of reach, RESTRICT even from an emergency stop; every other word
      means UNKNOWN. */
  lemma HintTargetExactly(value: string, current: CapitalState)
    ensures var word, target := Upper(value), Target(Permission(value), current);
            && (word == "BLOCK" ==> target == EMERGENCY_STOP)
            && (word == "PAUSE" ==> target == if current == INITIALIZING then UNKNOWN else PAUSED)
            && (word == "RESTRICT" ==>
                  target == if current in {INITIALIZING, EMERGENCY_STOP, UNKNOWN} then UNKNOWN else RESTRICTED)
            && (word == "ALLOW" ==>
                  target == if current in {EMERGENCY_STOP, PAUSED} then RECOVERY
                            else if current in {INITIALIZING, RESTRICTED, UNKNOWN} then UNKNOWN else NORMAL)
            && (word !in {"BLOCK", "PAUSE", "RESTRICT", "ALLOW"} ==> target == UNKNOWN)
  {
    hide CanTransition, Suggested, Permission, Upper;
    WordsSuggest(value, current);
    SameIsOpen(current);
    HintedStatesAreOpen(current);
  }

  /** A hint that does not raise takes effect exactly if its key is new: with a used one the state stays as it is. */
  lemma HintExactly(reg: Registry, value: string, refs: seq<string>, given: Option<string>)
    requires !HintSpec(reg, value, refs, given).1.Raised?
    ensures var now, target := StateOf(reg), Target(Permission(value), StateOf(reg));
            var tid := Tid(now, target, Strip(HintReason(Permission(value), given)), EvidenceKey(refs));
            StateOf(HintSpec(reg, value, refs, given).0) == if tid in reg.transitions then now else target
  {
    hide Blank, CanTransition, Strip, EvidenceKey, Target, HintReason;
  }

  /** No request of any kind moves an emergency stop or a pause straight to normal. */
  lemma NoLeapToNormal(reg: Registry, op: Op)
    requires StateOf(reg).EMERGENCY_STOP? || StateOf(reg).PAUSED?
    ensures !StateOf(Do(reg, op).0).NORMAL?
  {
    hide Strip, EvidenceKey, Blank, FirstOccurrences, HintReason, Target;
  }

  predicate AllHints(ops: seq<Op>) {
    forall k :: 0 <= k < |ops| ==> ops[k].Hint?
  }

  /** Where a hint can lead, and from where. */
  predicate HintStep(t: Tid) {
    && !t.after.OBSERVING? && !t.after.CAUTION?
    && (t.after.NORMAL? ==> t.before.RECOVERY?)
    && (t.after.RECOVERY? ==> t.before.EMERGENCY_STOP? || t.before.PAUSED?)
  }

  predicate HintWalk(ids: seq<Tid>) {
    forall k :: 0 <= k < |ids| ==> HintStep(ids[k])
  }

  lemma TargetOfHint(perm: string, current: CapitalState)
    requires !current.OBSERVING? && !current.CAUTION?
    ensures var t := Target(perm, current);
            && !t.OBSERVING? && !t.CAUTION?
            && (t.NORMAL? ==> current.RECOVERY? || current.NORMAL?)
            && (t.RECOVERY? ==> current.EMERGENCY_STOP? || current.PAUSED?)
  {
  }

  lemma AppliedKeepsHintWalk(reg: Registry, after: CapitalState, reason: string, refs: seq<string>, actor: string)
    requires reg.record.Some? && HintWalk(reg.record.value.transitionIds)
    requires StateOf(reg) != after ==> HintStep(Tid(StateOf(reg), after, Strip(reason), EvidenceKey(refs)))
    ensures var reg' := TransitionSpec(reg, after, reason, refs, actor).0;
            reg'.record.Some? && HintWalk(reg'.record.value.transitionIds)
  {
    hide Strip, EvidenceKey, Blank, FirstOccurrences, CanTransition, HintStep;
  }

  lemma HintWalkEnds(reg: Registry)
    requires Walked(reg) && HintWalk(reg.record.value.transitionIds)
    ensures !StateOf(reg).OBSERVING? && !StateOf(reg).CAUTION?
  {
    var ids := reg.record.value.transitionIds;
    hide Path, Distinct;
    if ids != [] {
      assert HintStep(ids[|ids| - 1]);
    }
  }

  lemma HintKeepsHintWalk(reg: Registry, op: Op)
    requires Walked(reg) && op.Hint? && HintWalk(reg.record.value.transitionIds)
    ensures Do(reg, op).0.record.Some? && HintWalk(Do(reg, op).0.record.value.transitionIds)
  {
    HintWalkEnds(reg);
    var perm := Permission(op.value);
    TargetOfHint(perm, StateOf(reg));
    hide Path, Walked, HintWalk, TransitionSpec, Strip, EvidenceKey, HintReason, Target, Permission;
    AppliedKeepsHintWalk(reg, Target(perm, StateOf(reg)), HintReason(perm, op.given), op.refs, "policy_hint");
  }

  lemma {:induction false} HintsAloneWalk(ops: seq<Op>)
    requires AllHints(ops)
    ensures Run(ops).record.Some? && HintWalk(Run(ops).record.value.transitionIds)
  {
    hide Do, HintWalk, Walked;
    if ops == [] {
      assert HintWalk([]) by { EmptyHintWalk(); }
    } else {
      HintsAloneWalk(ops[..|ops| - 1]);
      RunsWalk(ops[..|ops| - 1]);
      HintKeepsHintWalk(Run(ops[..|ops| - 1]), ops[|ops| - 1]);
    }
  }

  lemma EmptyHintWalk()
    ensures HintWalk([])
  {
  }

  /** Driven by policy hints only, every arrival at NORMAL comes out of RECOVERY, and that out of an emergency stop
      or a pause, two applied steps in a row. */
  lemma NormalOnlyThroughRecovery(ops: seq<Op>)
    requires AllHints(ops)
    ensures var ids := AppliedIds(Run(ops));
            forall k :: 0 <= k < |ids| && ids[k].after.NORMAL? ==>
              && k >= 2 && ids[k].before.RECOVERY? && ids[k - 1].after.RECOVERY?
              && (ids[k - 1].before.EMERGENCY_STOP? || ids[k - 1].before.PAUSED?)
              && ids[k - 2].after == ids[k - 1].before
  {
    RunsWalk(ops);
    HintsAloneWalk(ops);
    hide Run, AllHints, Path, HintWalk;
    var ids := AppliedIds(Run(ops));
    forall k | 0 <= k < |ids| && ids[k].after.NORMAL?
      ensures k >= 2 && ids[k].before.RECOVERY? && ids[k - 1].after.RECOVERY?
      ensures ids[k - 1].before.EMERGENCY_STOP? || ids[k - 1].before.PAUSED?
      ensures ids[k - 2].after == ids[k - 1].before
    {
      ArrivalAtNormal(ids, k);
    }
  }

  lemma ArrivalAtNormal(ids: seq<Tid>, k: nat)
    requires Path(ids) && HintWalk(ids) && k < |ids| && ids[k].after.NORMAL?
    ensures k >= 2 && ids[k].before.RECOVERY? && ids[k - 1].after.RECOVERY?
    ensures ids[k - 1].before.EMERGENCY_STOP? || ids[k - 1].before.PAUSED?
    ensures ids[k - 2].after == ids[k - 1].before
  {
    assert ids[k].before == StateAfter(ids, k);
    assert ids[k - 1].before == StateAfter(ids, k - 1);
  }

  lemma AllowFromUnknown(reg: Registry, op: Op)
    requires op.Hint? && Permission(op.value) == "ALLOW"
    requires StateOf(reg).INITIALIZING? || StateOf(reg).UNKNOWN?
    ensures StateOf(Do(reg, op).0).INITIALIZING? || StateOf(Do(reg, op).0).UNKNOWN?
  {
    assert Target("ALLOW", StateOf(reg)).UNKNOWN?;
    hide Strip, EvidenceKey, Blank, FirstOccurrences, HintReason, Target, Successors, Permission;
  }

  /** ALLOW alone never gets a fresh engine past UNKNOWN. */
  lemma {:induction false} AllowAloneStaysUnknown(ops: seq<Op>)
    requires AllHints(ops) && forall k :: 0 <= k < |ops| ==> Permission(ops[k].value) == "ALLOW"
    ensures StateOf(Run(ops)).INITIALIZING? || StateOf(Run(ops)).UNKNOWN?
  {
    hide Do, Permission;
    if ops != [] {
      AllowAloneStaysUnknown(ops[..|ops| - 1]);
      AllowFromUnknown(Run(ops[..|ops| - 1]), ops[|ops| - 1]);
    }
  }

  // ---- Repeats ------------------------------------------------------------------------------

  lemma UsedStays(reg: Registry, op: Op, t: Tid)
    requires t in reg.transitions
    ensures t in Do(reg, op).0.transitions && Do(reg, op).0.transitions[t] == reg.transitions[t]
  {
    hide Strip, EvidenceKey, CanTransition, FirstOccurrences, Target, HintReason, Permission, Blank;
  }

  /** A recorded transition is never lost and never replaced: whatever runs later, its id looks up the first record.
      */
  lemma {:induction false} UsedForever(past: seq<Op>, more: seq<Op>, t: Tid)
    requires t in Run(past).transitions
    ensures t in Run(past + more).transitions && Run(past + more).transitions[t] == Run(past).transitions[t]
  {
    hide Do;
    if more == [] {
      assert past + more == past;
    } else {
      var n := |more| - 1;
      UsedForever(past, more[..n], t);
      assert (past + more)[..|past + more| - 1] == past + more[..n];
      UsedStays(Run(past + more[..n]), more[n], t);
    }
  }

  /** A hint can be ignored. Once a run has applied a hint in some state, the same hint in that state again, however
      much later, changes nothing: not even BLOCK. */
  lemma RepeatedHintIsIgnored(past: seq<Op>, more: seq<Op>, hint: Op)
    ensures var now := StateOf(Run(past));
            hint.Hint? && now != StateOf(Run(past + [hint])) && now == StateOf(Run(past + [hint] + more)) ==>
              Do(Run(past + [hint] + more), hint).0 == Run(past + [hint] + more)
  {
    if hint.Hint? && StateOf(Run(past)) != StateOf(Run(past + [hint])) {
      var t := TidOf(Run(past), hint);
      HintUsesItsTid(past, hint);
      UsedForever(past + [hint], more, t);
      RunsWalk(past + [hint] + more);
      WalkedHasRecord(Run(past + [hint] + more));
      hide Run, Do;
      if StateOf(Run(past + [hint] + more)) == StateOf(Run(past)) {
        UsedTidIsIgnored(Run(past + [hint] + more), hint);
      }
    }
  }

  /** The key a hint would use in a state. */
  function TidOf(reg: Registry, hint: Op): Tid
    requires hint.Hint?
  {
    var perm := Permission(hint.value);
    Tid(StateOf(reg), Target(perm, StateOf(reg)), Strip(HintReason(perm, hint.given)), EvidenceKey(hint.refs))
  }

  lemma HintUsesItsTid(past: seq<Op>, hint: Op)
    requires hint.Hint? && StateOf(Run(past)) != StateOf(Run(past + [hint]))
    ensures TidOf(Run(past), hint) in Run(past + [hint]).transitions
  {
    assert (past + [hint])[..|past|] == past;
    RunsWalk(past);
    HintRaisesExactly(Run(past), hint.value, hint.refs, hint.given);
    hide Strip, EvidenceKey, CanTransition, FirstOccurrences, Target, HintReason, Permission, Blank;
  }

  lemma UsedTidIsIgnored(reg: Registry, hint: Op)
    requires hint.Hint? && reg.record.Some? && TidOf(reg, hint) in reg.transitions
    ensures Do(reg, hint).0 == reg
  {
    hide Strip, EvidenceKey, CanTransition, FirstOccurrences, Target, HintReason, Permission, Blank;
  }

  /** A legal move out of a state that no applied step has left before. */
  lemma FirstDeparture(reg: Registry, after: CapitalState, reason: string, refs: seq<string>, actor: string)
    requires reg.record.Some? && StateOf(reg) != after && CanTransition(StateOf(reg), after) && !Blank(reason)
    requires forall t :: t in reg.transitions ==> t.before != StateOf(reg)
    ensures var reg' := TransitionSpec(reg, after, reason, refs, actor).0;
            && reg'.record.Some? && StateOf(reg') == after
            && forall t :: t in reg'.transitions ==> t in reg.transitions || t.before == StateOf(reg)
  {
    hide Strip, EvidenceKey, CanTransition, FirstOccurrences, Blank;
  }

  const RELEASE := Move(UNKNOWN, "release", [], "operator")
  const RESTART := Move(INITIALIZING, "restart", [], "operator")

  lemma FirstBlock(refs: seq<string>)
    ensures var (r1, out) := HintSpec(FreshRegistry(), "BLOCK", refs, None);
            !out.Raised? && r1.record.Some? && StateOf(r1).EMERGENCY_STOP?
            && forall t :: t in r1.transitions ==> t.before.INITIALIZING?
  {
    var reason := HintReason("BLOCK", None);
    assert Upper("BLOCK") == "BLOCK";
    assert !Blank(reason) by { assert reason[0] == 'p'; }
    HintRaisesExactly(FreshRegistry(), "BLOCK", refs, None);
    assert Successors(INITIALIZING)[2] == EMERGENCY_STOP;
    hide Blank, Strip, EvidenceKey, FirstOccurrences, TransitionSpec, HintReason, Upper;
    FirstDeparture(FreshRegistry(), EMERGENCY_STOP, reason, refs, "policy_hint");
  }

  lemma ReleaseAndRestart(reg: Registry)
    requires reg.record.Some? && StateOf(reg).EMERGENCY_STOP?
    requires forall t :: t in reg.transitions ==> t.before.INITIALIZING?
    ensures StateOf(Do(Do(reg, RELEASE).0, RESTART).0).INITIALIZING?
  {
    assert !Blank("release") && !Blank("restart") by { assert "release"[0] == 'r' && "restart"[0] == 'r'; }
    assert CanTransition(EMERGENCY_STOP, UNKNOWN) by { assert Successors(EMERGENCY_STOP)[1] == UNKNOWN; }
    assert CanTransition(UNKNOWN, INITIALIZING) by { assert Successors(UNKNOWN)[4] == INITIALIZING; }
    hide Blank, TransitionSpec, CanTransition;
    FirstDeparture(reg, UNKNOWN, "release", [], "operator");
    FirstDeparture(Do(reg, RELEASE).0, INITIALIZING, "restart", [], "operator");
  }

  lemma RunOfThree(a: Op, b: Op, c: Op)
    ensures Run([a]) == Do(FreshRegistry(), a).0
    ensures Run([a, b, c]) == Do(Do(Run([a]), b).0, c).0
  {
    hide Do;
    assert [a][..0] == [] && [a, b][..1] == [a] && [a, b, c][..2] == [a, b];
  }

  /** Such a run exists: BLOCK, then two legal moves back to INITIALIZING, and the next BLOCK on the same evidence
      leaves the engine initializing. */
  lemma BlockCanBeIgnored(refs: seq<string>)
    ensures var block := Hint("BLOCK", refs, None);
            StateOf(Run([block])).EMERGENCY_STOP? && StateOf(Run([block, RELEASE, RESTART] + [block])).INITIALIZING?
  {
    var block := Hint("BLOCK", refs, None);
    var ops := [block, RELEASE, RESTART];
    FirstBlock(refs);
    ReleaseAndRestart(Do(FreshRegistry(), block).0);
    RunOfThree(block, RELEASE, RESTART);
    hide Do;
    assert [] + [block] == [block] && [block] + [RELEASE, RESTART] == ops;
    RepeatedHintIsIgnored([], [RELEASE, RESTART], block);
    assert (ops + [block])[..3] == ops;
  }

  // ---- Evidence keys ------------------------------------------------------------------------

  /** The order of the evidence does not matter to the key. */
  lemma EvidenceOrderIsIrrelevant(a: seq<string>, b: seq<string>)
    requires multiset(a) == multiset(b)
    ensures EvidenceKey(a) == EvidenceKey(b)
  {
    StrLeqIsOrder();
    SortIsSortedPermutation(a, StrLeq);
    SortIsSortedPermutation(b, StrLeq);
    OneSortedListing(Sort(a, StrLeq), Sort(b, StrLeq), StrLeq);
  }

  /** References a key can tell apart: none empty, none with the separator in it. */
  predicate PipeFree(refs: seq<string>) {
    forall i :: 0 <= i < |refs| ==> refs[i] != "" && '|' !in refs[i]
  }

  /** What follows the first part of a joined key. */
  function AfterFirst(parts: seq<string>): string {
    if |parts| <= 1 then "" else "|" + Join(parts[1..])
  }

  lemma JoinedByParts(parts: seq<string>)
    requires parts != []
    ensures Join(parts) == parts[0] + AfterFirst(parts)
    ensures |parts| > 1 ==> AfterFirst(parts) != "" && AfterFirst(parts)[1..] == Join(parts[1..])
  {
  }

  lemma {:induction false} JoinTells(a: seq<string>, b: seq<string>)
    requires PipeFree(a) && PipeFree(b) && Join(a) == Join(b)
    ensures a == b
  {
    hide AfterFirst;
    if a != [] && b != [] {
      JoinedByParts(a);
      JoinedByParts(b);
      PartsOf(a);
      PartsOf(b);
      hide Join;
      FirstPartTells('|', a[0], AfterFirst(a), b[0], AfterFirst(b));
      if |a| > 1 && |b| > 1 {
        JoinTells(a[1..], b[1..]);
        assert a == [a[0]] + a[1..] && b == [b[0]] + b[1..];
      } else {
        assert |a| == |b| == 1;
      }
    }
  }

  lemma PartsOf(parts: seq<string>)
    requires parts != []
    ensures AfterFirst(parts) == "" || AfterFirst(parts)[0] == '|'
    ensures AfterFirst(parts) == "" <==> |parts| == 1
  {
  }

  /** Two lists of evidence have one key exactly if they hold the same references as often, provided no reference is
      empty or holds the separator. */
  lemma KeyTellsEvidence(a: seq<string>, b: seq<string>)
    requires PipeFree(a) && PipeFree(b)
    ensures EvidenceKey(a) == EvidenceKey(b) <==> multiset(a) == multiset(b)
  {
    if multiset(a) == multiset(b) {
      EvidenceOrderIsIrrelevant(a, b);
    }
    if EvidenceKey(a) == EvidenceKey(b) {
      SortedIsPipeFree(a);
      SortedIsPipeFree(b);
      JoinTells(Sort(a, StrLeq), Sort(b, StrLeq));
    }
  }

  lemma SortedIsPipeFree(refs: seq<string>)
    requires PipeFree(refs)
    ensures PipeFree(Sort(refs, StrLeq)) && multiset(Sort(refs, StrLeq)) == multiset(refs)
  {
    StrLeqIsOrder();
    SortIsSortedPermutation(refs, StrLeq);
    var sorted := Sort(refs, StrLeq);
    forall i | 0 <= i < |sorted| ensures sorted[i] != "" && '|' !in sorted[i] {
      assert sorted[i] in multiset(sorted);
      assert sorted[i] in refs;
    }
  }

  /** Without that the key can confuse them: one reference that holds the separator counts as two. */
  lemma KeysCanCollide(x: string, y: string)
    requires StrLeq(x, y)
    ensures EvidenceKey([x, y]) == EvidenceKey([x + "|" + y])
  {
    SortsAlone(x + "|" + y);
    SortsAlone(y);
    assert [x, y][1..] == [y];
    assert Sort([x, y], StrLeq) == [x, y];
    assert Join([x, y]) == x + "|" + y;
  }

  lemma SortsAlone(x: string)
    ensures Sort([x], StrLeq) == [x]
  {
    assert [x][1..] == [] && Sort([], StrLeq) == [];
  }
}
