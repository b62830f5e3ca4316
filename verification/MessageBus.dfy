/** The bounded message bus: publish with deduplication and backpressure, FIFO drain to the subscribed handlers. */
module MessageBus {
  import opened Common

  datatype Packet = Packet(symbol: string, action: string, confidence: real, suggestedSize: real)

  datatype Payload = Observation(symbol: string) | Decision(packet: Packet) | Other

  datatype Message = Message(messageId: string, topic: string, payload: Payload)

  /** Handlers are compared by identity, so a number stands for each. */
  type Handler = nat

  /** What one handler invocation does: it may publish, and it may then raise. */
  datatype Reaction = Reaction(publishes: seq<Message>, raises: bool)

  const ANY_TOPIC := "*"

  function Subscribers(subs: map<string, seq<Handler>>, topic: string): seq<Handler> {
    if topic in subs then subs[topic] else []
  }

  /** The handlers a message is given to, in order; `*` subscribers come last. */
  function HandlersFor(subs: map<string, seq<Handler>>, m: Message): seq<Handler> {
    Subscribers(subs, m.topic) + Subscribers(subs, ANY_TOPIC)
  }

  function Pairs(handlers: seq<Handler>, m: Message): (r: seq<(Handler, Message)>)
    ensures |r| == |handlers|
  {
    seq(|handlers|, i requires 0 <= i < |handlers| => (handlers[i], m))
  }

  /** The invocations that draining these messages causes. */
  function Deliveries(subs: map<string, seq<Handler>>, messages: seq<Message>): seq<(Handler, Message)> {
    if messages == [] then []
    else
      var n := |messages| - 1;
      Deliveries(subs, messages[..n]) + Pairs(HandlersFor(subs, messages[n]), messages[n])
  }

  /** The state of the bus, apart from its subscriptions. */
  datatype Bus = Bus(queue: seq<Message>, seen: set<string>, dropped: nat, errors: nat)

  function Offer(max: nat, b: Bus, m: Message): Bus {
    if m.messageId in b.seen then b
    else if |b.queue| >= max then b.(dropped := b.dropped + 1)
    else b.(seen := b.seen + {m.messageId}, queue := b.queue + [m])
  }

  function OfferAll(max: nat, b: Bus, messages: seq<Message>): Bus {
    if messages == [] then b
    else Offer(max, OfferAll(max, b, messages[..|messages| - 1]), messages[|messages| - 1])
  }

  function React(max: nat, b: Bus, r: Reaction): Bus {
    var c := OfferAll(max, b, r.publishes);
    if r.raises then c.(errors := c.errors + 1) else c
  }

  /** Beyond the script a handler neither publishes nor raises. */
  function ReactionAt(script: seq<Reaction>, i: nat): Reaction {
    if i < |script| then script[i] else Reaction([], false)
  }

  /** The next n handler invocations. */
  function ReactAll(max: nat, b: Bus, n: nat, script: seq<Reaction>): (r: Bus)
    ensures script == [] ==> r == b
  {
    if n == 0 then b else React(max, ReactAll(max, b, n - 1, script), ReactionAt(script, n - 1))
  }

  function DropReactions(script: seq<Reaction>, n: nat): seq<Reaction> {
    if n <= |script| then script[n..] else []
  }

  function OneLess(limit: Option<nat>): Option<nat>
    requires limit != Some(0)
  {
    if limit.None? then None else Some(limit.value - 1)
  }

  /** A whole drain: the oldest message goes to its handlers, then the next, those published meanwhile included. */
  function DrainSpec(max: nat, subs: map<string, seq<Handler>>, b: Bus, limit: Option<nat>, script: seq<Reaction>): Bus
    decreases |script|, |b.queue|
  {
    if b.queue == [] || limit == Some(0) then b
    else
      var n := |HandlersFor(subs, b.queue[0])|;
      var c := ReactAll(max, b.(queue := b.queue[1..]), n, script);
      DrainSpec(max, subs, c, OneLess(limit), DropReactions(script, n))
  }

  ghost predicate DistinctIds(messages: seq<Message>) {
    forall i, j :: 0 <= i < j < |messages| ==> messages[i].messageId != messages[j].messageId
  }

  /** The seen ids are those of the accepted messages, each accepted once. */
  ghost predicate Ledger(accepted: seq<Message>, seen: set<string>) {
    && DistinctIds(accepted)
    && (forall id :: id in seen <==> exists i :: 0 <= i < |accepted| && accepted[i].messageId == id)
    && |seen| == |accepted|
  }

  lemma LedgerGrows(accepted: seq<Message>, seen: set<string>, m: Message)
    requires Ledger(accepted, seen) && m.messageId !in seen
    ensures Ledger(accepted + [m], seen + {m.messageId})
  {
    var more := accepted + [m];
    assert more[|accepted|].messageId == m.messageId;
    assert forall i :: 0 <= i < |accepted| ==> more[i] == accepted[i];
  }

  class MessageBus {
    const max: nat
    var queue: seq<Message>
    var subs: map<string, seq<Handler>>
    var seen: set<string>
    var dropped: nat
    var errors: nat

    /** Every message that was accepted, and every message that was taken out, since construction. */
    ghost var accepted: seq<Message>
    ghost var taken: seq<Message>

    ghost function Model(): Bus
      reads this
    {
      Bus(queue, seen, dropped, errors)
    }

    ghost predicate Valid()
      reads this
    {
      && taken + queue == accepted
      && Ledger(accepted, seen)
      && |queue| <= max
      && (forall topic :: topic in subs ==> Distinct(subs[topic]))
    }

    /** `max_queue` below one raises ValueError. */
    constructor (max: nat)
      requires max >= 1
      ensures Valid() && accepted == taken == [] && subs == map[] && this.max == max && dropped == errors == 0
    {
      this.max := max;
      queue, subs, seen, dropped, errors := [], map[], {}, 0, 0;
      accepted, taken := [], [];
    }

    method Subscribe(topic: string, handler: Handler)
      requires Valid()
      modifies this`subs
      ensures Valid()
      ensures subs == old(subs)[topic :=
                        if handler in Subscribers(old(subs), topic) then old(subs)[topic]
                        else Subscribers(old(subs), topic) + [handler]]
    {
      var current := if topic in subs then subs[topic] else [];
      if handler !in current {
        current := current + [handler];
      }
      subs := subs[topic := current];
    }

    /** True when the message is, or already was, accepted; false exactly when a new message meets a full queue. */
    method Publish(m: Message) returns (ok: bool)
      requires Valid()
      modifies this
      ensures Valid() && Model() == Offer(max, old(Model()), m)
      ensures ok <==> m.messageId in old(seen) || |old(queue)| < max
      ensures queue == old(queue) + (if ok && m.messageId !in old(seen) then [m] else [])
      ensures seen == old(seen) + (if ok then {m.messageId} else {})
      ensures dropped == old(dropped) + (if ok then 0 else 1) && errors == old(errors)
      ensures accepted == old(accepted) + (if ok && m.messageId !in old(seen) then [m] else [])
      ensures taken == old(taken) && subs == old(subs)
    {
      hide Ledger;
      if m.messageId in seen {
        return true;
      }
      if |queue| >= max {
        dropped := dropped + 1;
        return false;
      }
      seen := seen + {m.messageId};
      queue := queue + [m];
      accepted := accepted + [m];
      LedgerGrows(old(accepted), old(seen), m);
      ok := true;
    }

    /** The locked part of the drain loop: the oldest message and its handlers. */
    method TakeNext() returns (m: Message, handlers: seq<Handler>)
      requires Valid() && queue != []
      modifies this`queue, this`taken
      ensures Valid()
      ensures taken == old(taken) + [m] && queue == old(queue)[1..] && m == old(queue)[0]
      ensures handlers == HandlersFor(subs, m)
      ensures handlers == (if m.topic in subs then subs[m.topic] else []) + (if "*" in subs then subs["*"] else [])
    {
      m := queue[0];
      queue := queue[1..];
      taken := taken + [m];
      handlers := (if m.topic in subs then subs[m.topic] else []) + (if ANY_TOPIC in subs then subs[ANY_TOPIC] else []);
    }

    /** Runs one handler: its publications go to the bus as far as it takes them; an exception is only counted. */
    method Invoke(reaction: Reaction)
      requires Valid()
      modifies this
      ensures Valid() && Model() == React(max, old(Model()), reaction)
      ensures errors == old(errors) + if reaction.raises then 1 else 0
      ensures taken == old(taken) && subs == old(subs) && old(accepted) <= accepted
    {
      PublishAll(reaction.publishes);
      if reaction.raises {
        CountError();
      }
    }

    method PublishAll(messages: seq<Message>)
      requires Valid()
      modifies this
      ensures Valid() && Model() == OfferAll(max, old(Model()), messages) && errors == old(errors)
      ensures taken == old(taken) && subs == old(subs) && old(accepted) <= accepted
      ensures forall i :: |old(accepted)| <= i < |accepted| ==> accepted[i] in messages
    {
      hide Offer, Valid;
      var i := 0;
      while i < |messages|
        invariant i <= |messages|
        invariant Valid() && Model() == OfferAll(max, old(Model()), messages[..i]) && errors == old(errors)
        invariant taken == old(taken) && subs == old(subs) && old(accepted) <= accepted
        invariant forall k :: |old(accepted)| <= k < |accepted| ==> accepted[k] in messages
      {
        var _ := Publish(messages[i]);
        assert messages[..i + 1][..i] == messages[..i];
        i := i + 1;
      }
      assert messages[..i] == messages;
    }

    method CountError()
      requires Valid()
      modifies this`errors
      ensures Valid() && errors == old(errors) + 1
    {
      errors := errors + 1;
    }

    /** Gives one message to its handlers, each using up one reaction of the script while it lasts. */
    method Dispatch(m: Message, handlers: seq<Handler>, script: seq<Reaction>)
      returns (rest: seq<Reaction>, delivered: seq<(Handler, Message)>)
      requires Valid()
      modifies this
      ensures Valid() && Model() == ReactAll(max, old(Model()), |handlers|, script)
      ensures taken == old(taken) && subs == old(subs) && old(accepted) <= accepted
      ensures delivered == Pairs(handlers, m) && rest == DropReactions(script, |handlers|)
    {
      hide React, Valid;
      rest, delivered := script, [];
      var i := 0;
      while i < |handlers|
        invariant i <= |handlers|
        invariant Valid() && Model() == ReactAll(max, old(Model()), i, script)
        invariant taken == old(taken) && subs == old(subs) && old(accepted) <= accepted
        invariant delivered == Pairs(handlers[..i], m) && rest == DropReactions(script, i)
      {
        var reaction := Reaction([], false);
        if rest != [] {
          reaction := rest[0];
          rest := rest[1..];
        }
        Invoke(reaction);
        delivered := delivered + [(handlers[i], m)];
        assert Pairs(handlers[..i + 1], m) == Pairs(handlers[..i], m) + [(handlers[i], m)];
        i := i + 1;
      }
      assert handlers[..i] == handlers;
    }

    /** `script` lists what the coming handler invocations do; after its end they neither publish nor raise, so every
        finite drain is covered. Handlers are invoked once per subscription for each message taken, oldest first. */
    method Drain(limit: Option<nat>, script: seq<Reaction>) returns (count: nat, delivered: seq<(Handler, Message)>)
      requires Valid()
      modifies this
      ensures Valid() && subs == old(subs) && Model() == DrainSpec(max, subs, old(Model()), limit, script)
      ensures old(accepted) <= accepted && old(taken) <= taken
      ensures count == |taken| - |old(taken)|
      ensures delivered == Deliveries(subs, taken[|old(taken)|..])
      ensures limit.None? ==> queue == [] && taken == accepted
      ensures limit.Some? ==> count <= limit.value && (count < limit.value ==> queue == [])
    {
      hide Deliveries, Pairs, HandlersFor, Valid, DrainSpec, React;
      count, delivered := 0, [];
      var rest, left := script, limit;
      ghost var start := |taken|;
      NoDeliveries(subs);
      assert taken[start..] == [];
      while limit.None? || count < limit.value
        invariant Valid() && subs == old(subs)
        invariant DrainSpec(max, subs, Model(), left, rest) == DrainSpec(max, subs, old(Model()), limit, script)
        invariant left == if limit.None? then None else Some(limit.value - count)
        invariant old(accepted) <= accepted && old(taken) <= taken && start == |old(taken)|
        invariant count == |taken| - start
        invariant delivered == Deliveries(subs, taken[start..])
        invariant limit.Some? ==> count <= limit.value
        decreases |rest|, |queue|
      {
        if queue == [] {
          break;
        }
        ghost var before, state := taken[start..], Model();
        ghost var scripted := rest;
        var m, handlers := TakeNext();
        assert taken[start..] == before + [m];
        DeliverOneMore(subs, before, m);
        var more;
        rest, more := Dispatch(m, handlers, rest);
        DrainUnfolds(max, subs, state, left, scripted);
        delivered := delivered + more;
        count, left := count + 1, OneLess(left);
      }
      DrainStops(max, subs, Model(), left, rest);
      AllTaken();
    }

    lemma AllTaken()
      requires Valid()
      ensures queue == [] ==> taken == accepted
    {
    }
  }

  lemma DrainUnfolds(max: nat, subs: map<string, seq<Handler>>, b: Bus, limit: Option<nat>, script: seq<Reaction>)
    requires b.queue != [] && limit != Some(0)
    ensures var n := |HandlersFor(subs, b.queue[0])|;
            var c := ReactAll(max, b.(queue := b.queue[1..]), n, script);
            && DrainSpec(max, subs, b, limit, script)
               == DrainSpec(max, subs, c, OneLess(limit), DropReactions(script, n))
            && (|DropReactions(script, n)| < |script| || (DropReactions(script, n) == script && |c.queue| < |b.queue|))
  {
    hide React;
  }

  lemma DrainStops(max: nat, subs: map<string, seq<Handler>>, b: Bus, limit: Option<nat>, script: seq<Reaction>)
    requires b.queue == [] || limit == Some(0)
    ensures DrainSpec(max, subs, b, limit, script) == b
  {
  }

  lemma NoDeliveries(subs: map<string, seq<Handler>>)
    ensures Deliveries(subs, []) == []
  {
  }

  lemma DeliverOneMore(subs: map<string, seq<Handler>>, messages: seq<Message>, m: Message)
    ensures Deliveries(subs, messages + [m]) == Deliveries(subs, messages) + Pairs(HandlersFor(subs, m), m)
  {
    assert (messages + [m])[..|messages|] == messages;
  }

  // ---- How often a handler gets a message ---------------------------------------------------

  function Occurrences(log: seq<(Handler, Message)>, h: Handler, id: string): nat {
    if log == [] then 0
    else
      var n := |log| - 1;
      Occurrences(log[..n], h, id) + if log[n].0 == h && log[n].1.messageId == id then 1 else 0
  }

  lemma {:induction false} OccurrencesAppend(a: seq<(Handler, Message)>, b: seq<(Handler, Message)>, h: Handler,
                                             id: string)
    ensures Occurrences(a + b, h, id) == Occurrences(a, h, id) + Occurrences(b, h, id)
  {
    if b == [] {
      assert a + b == a;
    } else {
      OccurrencesAppend(a, b[..|b| - 1], h, id);
      assert (a + b)[..|a + b| - 1] == a + b[..|b| - 1];
    }
  }

  lemma {:induction false} PairsOccurrences(handlers: seq<Handler>, m: Message, h: Handler, id: string)
    requires Distinct(handlers)
    ensures Occurrences(Pairs(handlers, m), h, id) == if h in handlers && m.messageId == id then 1 else 0
  {
    if handlers != [] {
      var n := |handlers| - 1;
      PairsOccurrences(handlers[..n], m, h, id);
      assert Pairs(handlers, m)[..n] == Pairs(handlers[..n], m);
      assert handlers == handlers[..n] + [handlers[n]];
    }
  }

  function SubscriptionsOf(subs: map<string, seq<Handler>>, h: Handler, topic: string): nat {
    (if h in Subscribers(subs, topic) then 1 else 0) + (if h in Subscribers(subs, ANY_TOPIC) then 1 else 0)
  }

  lemma OneMessageOccurrences(subs: map<string, seq<Handler>>, m: Message, h: Handler, id: string)
    requires forall topic :: topic in subs ==> Distinct(subs[topic])
    ensures Occurrences(Pairs(HandlersFor(subs, m), m), h, id)
         == if m.messageId == id then SubscriptionsOf(subs, h, m.topic) else 0
  {
    hide Occurrences;
    var direct, always := Subscribers(subs, m.topic), Subscribers(subs, ANY_TOPIC);
    assert Pairs(direct + always, m) == Pairs(direct, m) + Pairs(always, m);
    OccurrencesAppend(Pairs(direct, m), Pairs(always, m), h, id);
    PairsOccurrences(direct, m, h, id);
    PairsOccurrences(always, m, h, id);
  }

  /** A drained message reaches a handler once for its topic and once more for `*`: exactly once for a handler
      subscribed to one of the two, twice for a handler subscribed to both, and never for any other. */
  lemma {:induction false} DeliveredExactly(subs: map<string, seq<Handler>>, messages: seq<Message>, h: Handler, i: nat)
    requires DistinctIds(messages) && i < |messages|
    requires forall topic :: topic in subs ==> Distinct(subs[topic])
    ensures Occurrences(Deliveries(subs, messages), h, messages[i].messageId)
         == SubscriptionsOf(subs, h, messages[i].topic)
  {
    hide Occurrences, Pairs, HandlersFor, SubscriptionsOf, Distinct;
    var n := |messages| - 1;
    var last, id := messages[n], messages[i].messageId;
    OccurrencesAppend(Deliveries(subs, messages[..n]), Pairs(HandlersFor(subs, last), last), h, id);
    OneMessageOccurrences(subs, last, h, id);
    if i < n {
      DeliveredExactly(subs, messages[..n], h, i);
    } else {
      NotDeliveredYet(subs, messages[..n], h, id);
    }
  }

  lemma {:induction false} NotDeliveredYet(subs: map<string, seq<Handler>>, messages: seq<Message>, h: Handler,
                                           id: string)
    requires forall m :: m in messages ==> m.messageId != id
    ensures Occurrences(Deliveries(subs, messages), h, id) == 0
  {
    if messages != [] {
      var n := |messages| - 1;
      NotDeliveredYet(subs, messages[..n], h, id);
      var pairs := Pairs(HandlersFor(subs, messages[n]), messages[n]);
      OccurrencesAppend(Deliveries(subs, messages[..n]), pairs, h, id);
      NoOccurrence(pairs, h, id);
    }
  }

  lemma {:induction false} NoOccurrence(log: seq<(Handler, Message)>, h: Handler, id: string)
    requires forall x :: x in log ==> x.1.messageId != id
    ensures Occurrences(log, h, id) == 0
  {
    if log != [] {
      NoOccurrence(log[..|log| - 1], h, id);
    }
  }
}
