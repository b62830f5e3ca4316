/** The institutional kernel: decisions travel over the bus to the risk gate, and what the gate returns to the
    executor. */
module InstitutionalKernel {
  import opened Common
  import opened MessageBus

  const DECISION_TOPIC := "kernel.decision"
  /** The handler number of `_on_decision`, the kernel's only subscription. */
  const ON_DECISION: Handler := 0

  /** What the injected gate, the checkpoint store and the injected executor do on one decision. */
  datatype Outcome =
    | GateRaises
    | GatedSaveRaises(gated: Packet)
    | ExecutorRaises(gated: Packet)
    | ExecutedSaveRaises(gated: Packet, result: int)
    | Done(gated: Packet, result: int)

  /** ... and what they publish while they run. */
  datatype Call = Call(outcome: Outcome, publishes: seq<Message>)

  datatype Submission = Submitted(messageId: string) | Backpressure | SaveRaised

  predicate ReachesExecutor(o: Outcome) {
    o.ExecutorRaises? || o.ExecutedSaveRaises? || o.Done?
  }

  /** The i-th call; beyond the script the gate passes decisions unchanged and nothing raises or publishes. */
  function CallFor(calls: seq<Call>, i: nat, packet: Packet): Call {
    if i < |calls| then calls[i] else Call(Done(packet, 0), [])
  }

  predicate IsDecision(m: Message) {
    m.topic == DECISION_TOPIC && m.payload.Decision?
  }

  function Decisions(messages: seq<Message>): (r: seq<Message>)
    ensures |r| <= |messages| && forall i :: 0 <= i < |r| ==> IsDecision(r[i])
  {
    if messages == [] then []
    else
      var n := |messages| - 1;
      Decisions(messages[..n]) + if IsDecision(messages[n]) then [messages[n]] else []
  }

  datatype Execution = Execution(messageId: string, packet: Packet)

  /** What the executor is given for these decisions, when the k-th one meets the k-th call. */
  function Executions(decisions: seq<Message>, calls: seq<Call>): seq<Execution>
    requires forall i :: 0 <= i < |decisions| ==> IsDecision(decisions[i])
  {
    if decisions == [] then []
    else
      var n := |decisions| - 1;
      assert IsDecision(decisions[n]);
      var call := CallFor(calls, n, decisions[n].payload.packet);
      Executions(decisions[..n], calls) + ExecutionOf(decisions[n], call)
  }

  function ExecutionOf(m: Message, call: Call): seq<Execution> {
    if ReachesExecutor(call.outcome) then [Execution(m.messageId, call.outcome.gated)] else []
  }

  /** What the bus sees of a call. */
  function ReactionTo(call: Call): Reaction {
    Reaction(call.publishes, !call.outcome.Done?)
  }

  /** What the bus sees of the handler: a message without a decision raises a KeyError before the gate is reached. */
  function Response(m: Message, call: Call): Reaction {
    if m.payload.Decision? then ReactionTo(call) else Reaction([], true)
  }

  /** The call the next message on the decision topic meets, if it carries a decision. */
  function NextCall(calls: seq<Call>, m: Message): Call {
    if m.payload.Decision? then CallFor(calls, 0, m.payload.packet) else Call(GateRaises, [])
  }

  function Drop(calls: seq<Call>, n: nat): seq<Call> {
    if n <= |calls| then calls[n..] else []
  }

  /** The bus after its oldest message was handled. */
  function TurnSpec(max: nat, b: Bus, calls: seq<Call>): Bus
    requires b.queue != []
  {
    var m, rest := b.queue[0], b.(queue := b.queue[1..]);
    if m.topic == DECISION_TOPIC then React(max, rest, Response(m, NextCall(calls, m))) else rest
  }

  /** The calls left after that message. */
  function CallsLeft(calls: seq<Call>, m: Message): seq<Call> {
    if IsDecision(m) then Drop(calls, 1) else calls
  }

  /** The reactions of the handler to the messages of a drain, in order. */
  function KernelReactions(max: nat, b: Bus, calls: seq<Call>): seq<Reaction>
    decreases |calls|, |b.queue|
  {
    if b.queue == [] then []
    else
      var m := b.queue[0];
      TurnShrinks(max, b, calls);
      (if m.topic == DECISION_TOPIC then [Response(m, NextCall(calls, m))] else [])
      + KernelReactions(max, TurnSpec(max, b, calls), CallsLeft(calls, m))
  }

  /** A drain ends: each turn uses up a call or, without calls, a message. */
  lemma TurnShrinks(max: nat, b: Bus, calls: seq<Call>)
    requires b.queue != []
    ensures var left, c := CallsLeft(calls, b.queue[0]), TurnSpec(max, b, calls);
            |left| < |calls| || (left == calls && |c.queue| < |b.queue|)
  {
    assert forall c :: OfferAll(max, c, []) == c;
  }

  /** The calls these decisions meet. */
  function CallsFor(decisions: seq<Message>, calls: seq<Call>): (r: seq<Call>)
    ensures |r| == |decisions| && forall i :: 0 <= i < |r| ==> r[i] == NextCall(Drop(calls, i), decisions[i])
  {
    seq(|decisions|, i requires 0 <= i < |decisions| => NextCall(Drop(calls, i), decisions[i]))
  }

  class InstitutionalKernel {
    const bus: MessageBus
    var lastResult: Option<int>
    /** Every call of the executor so far, and the call every decision taken so far met. */
    ghost var executed: seq<Execution>
    ghost var history: seq<Call>

    ghost predicate Wired()
      reads this, bus
    {
      bus.Valid() && bus.subs == map[DECISION_TOPIC := [ON_DECISION]]
    }

    /** Over its whole life the kernel has executed what its gate returned for the decisions taken, and nothing else.
        */
    ghost predicate Valid()
      reads this, bus
    {
      && Wired()
      && |history| == |Decisions(bus.taken)|
      && executed == Executions(Decisions(bus.taken), history)
    }

    constructor (maxQueue: nat)
      requires maxQueue >= 1
      ensures Valid() && fresh(bus) && bus.accepted == bus.taken == []
      ensures executed == [] && history == [] && lastResult == None
    {
      bus := new MessageBus(maxQueue);
      lastResult, executed, history := None, [], [];
      new;
      bus.Subscribe(DECISION_TOPIC, ON_DECISION);
      assert bus.subs[DECISION_TOPIC] == [ON_DECISION];
      assert bus.subs == map[DECISION_TOPIC := [ON_DECISION]];
    }

    /** The decision is on the bus unless there was backpressure, even when saving the checkpoint then raises. */
    method SubmitDecision(packet: Packet, messageId: string, saveRaises: bool) returns (r: Submission)
      requires Valid()
      modifies bus
      ensures Valid() && bus.taken == old(bus.taken)
      ensures r.Backpressure? <==> messageId !in old(bus.seen) && |old(bus.queue)| >= bus.max
      ensures bus.accepted == old(bus.accepted)
                + (if r.Backpressure? || messageId in old(bus.seen) then []
                   else [Message(messageId, DECISION_TOPIC, Decision(packet))])
      ensures !r.Backpressure? ==> r == if saveRaises then SaveRaised else Submitted(messageId)
    {
      var ok := bus.Publish(Message(messageId, DECISION_TOPIC, Decision(packet)));
      if !ok {
        return Backpressure;
      }
      r := if saveRaises then SaveRaised else Submitted(messageId);
    }

    /** Observations travel the same bus; nothing here subscribes to them. */
    method PublishObservation(symbol: string, messageId: string, saveRaises: bool) returns (r: Submission)
      requires Valid()
      modifies bus
      ensures Valid() && bus.taken == old(bus.taken)
      ensures r.Backpressure? <==> messageId !in old(bus.seen) && |old(bus.queue)| >= bus.max
      ensures bus.accepted == old(bus.accepted)
                + (if r.Backpressure? || messageId in old(bus.seen) then []
                   else [Message(messageId, "kernel.observation", Observation(symbol))])
      ensures !r.Backpressure? ==> r == if saveRaises then SaveRaised else Submitted(messageId)
    {
      var ok := bus.Publish(Message(messageId, "kernel.observation", Observation(symbol)));
      if !ok {
        return Backpressure;
      }
      r := if saveRaises then SaveRaised else Submitted(messageId);
    }

    /** The handler, for any message on its topic: gate first, and the executor only sees what the gate returned. It
        may raise at any stage, the first being a message without a decision. */
    method OnDecision(m: Message, call: Call) returns (raised: bool)
      requires Wired() && m.topic == DECISION_TOPIC
      modifies this, bus
      ensures Wired() && bus.taken == old(bus.taken) && old(bus.accepted) <= bus.accepted
      ensures raised <==> Response(m, call).raises
      ensures raised <==> !m.payload.Decision? || !call.outcome.Done?
      ensures executed == old(executed)
                + if m.payload.Decision? && !call.outcome.GateRaises? && !call.outcome.GatedSaveRaises?
                  then [Execution(m.messageId, call.outcome.gated)] else []
      ensures bus.Model() == OfferAll(bus.max, old(bus.Model()), Response(m, call).publishes)
      ensures executed == old(executed) + (if IsDecision(m) then ExecutionOf(m, call) else [])
      ensures history == old(history) + (if IsDecision(m) then [call] else [])
      ensures lastResult == if IsDecision(m) && (call.outcome.Done? || call.outcome.ExecutedSaveRaises?)
                            then Some(call.outcome.result) else old(lastResult)
    {
      if !m.payload.Decision? {
        return true;
      }
      history := history + [call];
      bus.PublishAll(call.publishes);
      if call.outcome.GateRaises? || call.outcome.GatedSaveRaises? {
        return true;
      }
      executed := executed + [Execution(m.messageId, call.outcome.gated)];
      if call.outcome.ExecutorRaises? {
        return true;
      }
      lastResult := Some(call.outcome.result);
      raised := call.outcome.ExecutedSaveRaises?;
    }

    /** One turn of the drain loop; an exception of the handler is counted. */
    method Turn(calls: seq<Call>) returns (left: seq<Call>, ghost m: Message)
      requires Valid() && bus.queue != []
      modifies this, bus
      ensures Valid() && m == old(bus.queue)[0]
      ensures bus.taken == old(bus.taken) + [m] && old(bus.accepted) <= bus.accepted
      ensures left == CallsLeft(calls, m)
      ensures bus.Model() == TurnSpec(bus.max, old(bus.Model()), calls)
      ensures history == old(history) + (if IsDecision(m) then [NextCall(calls, m)] else [])
      ensures executed == old(executed) + (if IsDecision(m) then ExecutionOf(m, NextCall(calls, m)) else [])
    {
      hide OfferAll, Decisions, Executions, ExecutionOf, ReachesExecutor, CallFor;
      var message, handlers := bus.TakeNext();
      m, left := message, CallsLeft(calls, message);
      ghost var taken := old(bus.taken);
      HistoryGrows(taken, m, old(history), NextCall(calls, m));
      if message.topic == DECISION_TOPIC {
        var raised := OnDecision(message, NextCall(calls, message));
        if raised {
          bus.CountError();
        }
      }
      assert old(history) + [] == old(history) && old(executed) + [] == old(executed);
    }

    /** Drains the bus to the end: the executor gets exactly the gate outputs of the decisions taken, in order, and
        the bus ends as its own drain leaves it when its only handler reacts as this one does. */
    method Drain(calls: seq<Call>)
      requires Valid()
      modifies this, bus
      ensures Valid() && bus.queue == [] && bus.taken == bus.accepted
      ensures old(bus.accepted) <= bus.accepted && old(bus.taken) <= bus.taken
      ensures executed == old(executed) + Executions(Decisions(bus.taken[|old(bus.taken)|..]), calls)
      ensures history == old(history) + CallsFor(Decisions(bus.taken[|old(bus.taken)|..]), calls)
      ensures bus.Model() == DrainSpec(bus.max, bus.subs, old(bus.Model()), None,
                                       KernelReactions(bus.max, old(bus.Model()), calls))
    {
      hide Decisions, Executions, ExecutionOf, DrainSpec, React, KernelReactions, TurnSpec, CallFor, NextCall, CallsFor;
      ghost var start := |bus.taken|;
      var left := calls;
      NothingTaken(calls);
      assert bus.taken[start..] == [];
      while bus.queue != []
        invariant Valid() && start == |old(bus.taken)|
        invariant old(bus.accepted) <= bus.accepted && old(bus.taken) <= bus.taken
        invariant left == Drop(calls, |Decisions(bus.taken[start..])|)
        invariant executed == old(executed) + Executions(Decisions(bus.taken[start..]), calls)
        invariant history == old(history) + CallsFor(Decisions(bus.taken[start..]), calls)
        invariant DrainSpec(bus.max, bus.subs, bus.Model(), None, KernelReactions(bus.max, bus.Model(), left))
               == DrainSpec(bus.max, bus.subs, old(bus.Model()), None,
                            KernelReactions(bus.max, old(bus.Model()), calls))
        decreases |left|, |bus.queue|
      {
        ghost var before, state, had := bus.taken[start..], bus.Model(), left;
        ghost var m;
        TurnShrinks(bus.max, state, had);
        TurnUnfolds(bus.max, state, had);
        left, m := Turn(left);
        assert bus.taken[start..] == before + [m];
        TakeOneMore(before, m, calls);
      }
      DrainStops(bus.max, bus.subs, bus.Model(), None, KernelReactions(bus.max, bus.Model(), left));
    }

    /** At any time, whatever was submitted and drained so far: the executor was called at most once for each accepted
        message, in the order of acceptance, for decisions only, and never twice under one id. */
    lemma ExecutedOnceInOrder()
      requires Valid()
      ensures var at := Origins(bus.taken, history);
              && |at| == |executed|
              && (forall e, f :: 0 <= e < f < |at| ==> at[e] < at[f])
              && forall e :: 0 <= e < |at| ==>
                   && at[e] < |bus.accepted| && IsDecision(bus.accepted[at[e]])
                   && executed[e].messageId == bus.accepted[at[e]].messageId
      ensures forall e, f :: 0 <= e < f < |executed| ==> executed[e].messageId != executed[f].messageId
    {
      hide Decisions, DecisionsAt, Executions, ExecutedAt, IsDecision, Origins;
      OriginsAreExact(bus.taken, history);
      var at := Origins(bus.taken, history);
      forall e | 0 <= e < |at| ensures bus.accepted[at[e]] == bus.taken[at[e]] {
      }
    }
  }

  lemma NothingTaken(calls: seq<Call>)
    ensures Decisions([]) == [] && Executions([], calls) == [] && CallsFor([], calls) == [] && Drop(calls, 0) == calls
  {
  }

  /** One turn of the kernel is one turn of the bus's drain. */
  lemma TurnUnfolds(max: nat, b: Bus, calls: seq<Call>)
    requires b.queue != []
    ensures var subs := map[DECISION_TOPIC := [ON_DECISION]];
            var c, left := TurnSpec(max, b, calls), CallsLeft(calls, b.queue[0]);
            DrainSpec(max, subs, b, None, KernelReactions(max, b, calls))
            == DrainSpec(max, subs, c, None, KernelReactions(max, c, left))
  {
    hide React, DrainSpec, Response, NextCall;
    var subs := map[DECISION_TOPIC := [ON_DECISION]];
    var m, rest := b.queue[0], b.(queue := b.queue[1..]);
    var c, left := TurnSpec(max, b, calls), CallsLeft(calls, m);
    var script, later := KernelReactions(max, b, calls), KernelReactions(max, c, left);
    DrainUnfolds(max, subs, b, None, script);
    if m.topic == DECISION_TOPIC {
      assert HandlersFor(subs, m) == [ON_DECISION];
      assert script == [Response(m, NextCall(calls, m))] + later;
      OneReaction(max, rest, script);
      assert script[1..] == later;
    } else {
      assert HandlersFor(subs, m) == [];
      assert script == later;
      OneReaction(max, rest, script);
    }
  }

  lemma OneReaction(max: nat, b: Bus, script: seq<Reaction>)
    ensures ReactAll(max, b, 0, script) == b && DropReactions(script, 0) == script
    ensures ReactAll(max, b, 1, script) == React(max, b, ReactionAt(script, 0))
  {
    hide React;
  }

  lemma TakeOneMore(messages: seq<Message>, m: Message, calls: seq<Call>)
    ensures var d, left := Decisions(messages), Drop(calls, |Decisions(messages)|);
            && Decisions(messages + [m]) == d + (if IsDecision(m) then [m] else [])
            && Executions(Decisions(messages + [m]), calls)
               == Executions(d, calls) + (if IsDecision(m) then ExecutionOf(m, NextCall(left, m)) else [])
            && CallsFor(Decisions(messages + [m]), calls)
               == CallsFor(d, calls) + (if IsDecision(m) then [NextCall(left, m)] else [])
            && CallsLeft(left, m) == Drop(calls, |Decisions(messages + [m])|)
  {
    assert (messages + [m])[..|messages|] == messages;
    var d := Decisions(messages);
    assert d + [] == d;
    if IsDecision(m) {
      assert (d + [m])[..|d|] == d;
      assert NextCall(Drop(calls, |d|), m) == CallFor(calls, |d|, m.payload.packet);
    }
  }

  lemma {:induction false} LaterCallsDoNotMatter(decisions: seq<Message>, calls: seq<Call>, more: seq<Call>)
    requires forall i :: 0 <= i < |decisions| ==> IsDecision(decisions[i])
    requires |decisions| <= |calls|
    ensures Executions(decisions, calls + more) == Executions(decisions, calls)
  {
    if decisions != [] {
      LaterCallsDoNotMatter(decisions[..|decisions| - 1], calls, more);
    }
  }

  lemma HistoryGrows(taken: seq<Message>, m: Message, history: seq<Call>, call: Call)
    requires |history| == |Decisions(taken)|
    ensures var d := Decisions(taken + [m]);
            if IsDecision(m) then
              && |d| == |history| + 1
              && Executions(d, history + [call]) == Executions(Decisions(taken), history) + ExecutionOf(m, call)
            else d == Decisions(taken)
  {
    hide ExecutionOf;
    assert (taken + [m])[..|taken|] == taken;
    if IsDecision(m) {
      var d := Decisions(taken);
      LaterCallsDoNotMatter(d, history, [call]);
      assert (d + [m])[..|d|] == d;
    }
  }

  /** The positions of the decisions among these messages. */
  function DecisionsAt(messages: seq<Message>): (at: seq<nat>)
    ensures |at| == |Decisions(messages)|
    ensures forall k :: 0 <= k < |at| ==> at[k] < |messages| && messages[at[k]] == Decisions(messages)[k]
    ensures forall j, k :: 0 <= j < k < |at| ==> at[j] < at[k]
  {
    if messages == [] then []
    else
      var n := |messages| - 1;
      DecisionsAt(messages[..n]) + if IsDecision(messages[n]) then [n] else []
  }

  /** The positions of the messages behind the executions. */
  function Origins(messages: seq<Message>, history: seq<Call>): seq<nat> {
    var at := ExecutedAt(Decisions(messages), history);
    seq(|at|, e requires 0 <= e < |at| => DecisionsAt(messages)[at[e]])
  }

  lemma OriginsAreExact(messages: seq<Message>, history: seq<Call>)
    ensures var at, x := Origins(messages, history), Executions(Decisions(messages), history);
            && |at| == |x|
            && (forall e, f :: 0 <= e < f < |at| ==> at[e] < at[f])
            && forall e :: 0 <= e < |at| ==>
                 at[e] < |messages| && IsDecision(messages[at[e]]) && x[e].messageId == messages[at[e]].messageId
  {
    hide Decisions, DecisionsAt, Executions, ExecutedAt;
    var d := Decisions(messages);
    var at, x := ExecutedAt(d, history), Executions(d, history);
    ExecutedInOrder(d, history);
    ExecutorObeysGate(d, history, 0);
    var origins := Origins(messages, history);
    forall e, f | 0 <= e < f < |origins| ensures origins[e] < origins[f] {
      assert at[e] < at[f];
      assert DecisionsAt(messages)[at[e]] < DecisionsAt(messages)[at[f]];
    }
    forall e | 0 <= e < |origins|
      ensures origins[e] < |messages| && IsDecision(messages[origins[e]])
      ensures x[e].messageId == messages[origins[e]].messageId
    {
      ExecutorObeysGate(d, history, e);
      assert messages[DecisionsAt(messages)[at[e]]] == d[at[e]];
    }
  }

  /** The positions of the decisions that reach the executor. */
  function ExecutedAt(decisions: seq<Message>, calls: seq<Call>): (at: seq<nat>)
    requires forall i :: 0 <= i < |decisions| ==> IsDecision(decisions[i])
    ensures forall e :: 0 <= e < |at| ==> at[e] < |decisions|
  {
    if decisions == [] then []
    else
      var n := |decisions| - 1;
      assert IsDecision(decisions[n]);
      ExecutedAt(decisions[..n], calls)
      + if ReachesExecutor(CallFor(calls, n, decisions[n].payload.packet).outcome) then [n] else []
  }

  /** The executor acts at most once on a decision and in submission order: the positions increase, and a decision is
      among them exactly when its gate, and the save after it, returned. */
  lemma {:induction false} ExecutedInOrder(decisions: seq<Message>, calls: seq<Call>)
    requires forall i :: 0 <= i < |decisions| ==> IsDecision(decisions[i])
    ensures var at := ExecutedAt(decisions, calls);
            && (forall e, f :: 0 <= e < f < |at| ==> at[e] < at[f])
            && (forall i :: 0 <= i < |decisions| ==>
                  (i in at <==> ReachesExecutor(CallFor(calls, i, decisions[i].payload.packet).outcome)))
  {
    hide CallFor, ReachesExecutor;
    if decisions != [] {
      ExecutedInOrder(decisions[..|decisions| - 1], calls);
    }
  }

  /** It acts only on what the gate returned: each execution carries the gate's output for its own decision. */
  lemma {:induction false} ExecutorObeysGate(decisions: seq<Message>, calls: seq<Call>, e: nat)
    requires forall i :: 0 <= i < |decisions| ==> IsDecision(decisions[i])
    ensures |ExecutedAt(decisions, calls)| == |Executions(decisions, calls)|
    ensures e < |Executions(decisions, calls)| ==>
              var i := ExecutedAt(decisions, calls)[e];
              var call := CallFor(calls, i, decisions[i].payload.packet);
              ReachesExecutor(call.outcome)
              && Executions(decisions, calls)[e] == Execution(decisions[i].messageId, call.outcome.gated)
  {
    hide CallFor, ReachesExecutor;
    if decisions != [] {
      ExecutorObeysGate(decisions[..|decisions| - 1], calls, e);
    }
  }
}
