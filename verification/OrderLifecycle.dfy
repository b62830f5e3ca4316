/** The order automaton: every event is applied at most once, terminal orders do not move. */
module OrderLifecycle {
  datatype OrderState =
    | INITIALIZED | ACCEPTED | RELEASED | PARTIALLY_FILLED | FILLED | CANCELED | REJECTED | EXPIRED | UNKNOWN

  function Next(s: OrderState): set<OrderState> {
    match s
    case INITIALIZED => {ACCEPTED, REJECTED, CANCELED}
    case ACCEPTED => {RELEASED, REJECTED, CANCELED}
    case RELEASED => {PARTIALLY_FILLED, FILLED, CANCELED, EXPIRED, UNKNOWN}
    case PARTIALLY_FILLED => {PARTIALLY_FILLED, FILLED, CANCELED, UNKNOWN}
    case UNKNOWN => {ACCEPTED, RELEASED, PARTIALLY_FILLED, FILLED, CANCELED, EXPIRED, UNKNOWN}
    case _ => {}
  }

  const TERMINAL := {FILLED, CANCELED, REJECTED, EXPIRED}

  datatype Order = Order(state: OrderState, seen: set<string>, history: seq<OrderState>)

  datatype Event = Event(id: string, target: OrderState)

  /** `apply` returns True, returns False, or raises. */
  datatype Outcome = Applied | Ignored | Raised

  function New(): Order {
    Order(INITIALIZED, {}, [])
  }

  function Step(o: Order, e: Event): (Order, Outcome) {
    if e.id in o.seen then (o, Ignored)
    else if o.state in TERMINAL || e.target !in Next(o.state) then (o, Raised)
    else (Order(e.target, o.seen + {e.id}, o.history + [e.target]), Applied)
  }

  /** A sequence of calls; one that raises leaves the order as it was. */
  function Run(o: Order, events: seq<Event>): Order
    decreases |events|
  {
    if events == [] then o else Run(Step(o, events[0]).0, events[1..])
  }

  class OrderLifecycle {
    var state: OrderState
    var seenEvents: set<string>
    var history: seq<OrderState>

    ghost function Model(): Order
      reads this
    {
      Order(state, seenEvents, history)
    }

    constructor ()
      ensures Model() == New()
    {
      state := INITIALIZED;
      seenEvents := {};
      history := [];
    }

    method Apply(eventId: string, newState: OrderState) returns (out: Outcome)
      modifies this
      ensures (Model(), out) == Step(old(Model()), Event(eventId, newState))
    {
      if eventId in seenEvents {
        return Ignored;
      }
      if state in TERMINAL {
        return Raised;
      }
      if newState !in Next(state) {
        return Raised;
      }
      seenEvents := seenEvents + {eventId};
      state := newState;
      history := history + [newState];
      out := Applied;
    }
  }

  // ---- Runs ---------------------------------------------------------------------------------

  /** History is a path from INITIALIZED to the current state, one entry for every event id seen. */
  ghost predicate Consistent(o: Order) {
    && |o.history| == |o.seen|
    && o.state == StateAfter(o.history, |o.history|)
    && forall k :: 0 <= k < |o.history| ==> o.history[k] in Next(StateAfter(o.history, k))
  }

  function StateAfter(history: seq<OrderState>, k: nat): OrderState
    requires k <= |history|
  {
    if k == 0 then INITIALIZED else history[k - 1]
  }

  lemma StepKeepsConsistent(o: Order, e: Event)
    requires Consistent(o)
    ensures Consistent(Step(o, e).0)
  {
    hide Next;
    assert e.id !in o.seen ==> |o.seen + {e.id}| == |o.seen| + 1;
  }

  lemma {:induction false} RunsStayConsistent(o: Order, events: seq<Event>)
    requires Consistent(o)
    ensures Consistent(Run(o, events))
    decreases |events|
  {
    hide Step, Consistent;
    if events != [] {
      StepKeepsConsistent(o, events[0]);
      RunsStayConsistent(Step(o, events[0]).0, events[1..]);
    }
  }

  /** A terminal order never changes again. */
  lemma {:induction false} TerminalIsForever(o: Order, events: seq<Event>)
    requires o.state in TERMINAL
    ensures Run(o, events) == o
    decreases |events|
  {
    if events != [] {
      TerminalIsForever(o, events[1..]);
    }
  }

  /** The table and the terminal set agree: exactly the terminal states have no successor. */
  lemma TerminalHasNoNext(s: OrderState)
    ensures s in TERMINAL <==> Next(s) == {}
  {
    match s
    case INITIALIZED => assert ACCEPTED in Next(s);
    case ACCEPTED => assert RELEASED in Next(s);
    case RELEASED => assert FILLED in Next(s);
    case PARTIALLY_FILLED => assert FILLED in Next(s);
    case UNKNOWN => assert FILLED in Next(s);
    case _ =>
  }

  /** Nothing is filled, expired or left unknown that was not first accepted and then released: of every history that
      reaches such a state, those are the first two entries. */
  lemma ReleasedBeforeFilled(events: seq<Event>, k: nat)
    requires k < |Run(New(), events).history|
    requires Run(New(), events).history[k] in {PARTIALLY_FILLED, FILLED, EXPIRED, UNKNOWN}
    ensures k >= 2 && Run(New(), events).history[0] == ACCEPTED && Run(New(), events).history[1] == RELEASED
  {
    RunsStayConsistent(New(), events);
    hide Run;
    var h := Run(New(), events).history;
    assert h[0] in Next(StateAfter(h, 0));
    if k >= 1 {
      assert h[1] in Next(StateAfter(h, 1));
    }
    if k >= 2 {
      assert h[2] in Next(StateAfter(h, 2));
    }
  }

  /** The table read the other way: from where an event leads to each state. */
  lemma EnteredExactlyFrom(s: OrderState, target: OrderState)
    ensures target in Next(s) <==>
            match target
            case INITIALIZED => false
            case ACCEPTED => s in {INITIALIZED, UNKNOWN}
            case RELEASED => s in {ACCEPTED, UNKNOWN}
            case PARTIALLY_FILLED => s in {RELEASED, PARTIALLY_FILLED, UNKNOWN}
            case FILLED => s in {RELEASED, PARTIALLY_FILLED, UNKNOWN}
            case CANCELED => s !in {FILLED, CANCELED, REJECTED, EXPIRED}
            case REJECTED => s in {INITIALIZED, ACCEPTED}
            case EXPIRED => s in {RELEASED, UNKNOWN}
            case UNKNOWN => s in {RELEASED, PARTIALLY_FILLED, UNKNOWN}
  {
  }

  /** What one event does: it is applied exactly if its id is new and the state it asks for can be entered; it raises
      exactly if its id is new and that state cannot be. */
  lemma EventExactly(o: Order, e: Event)
    ensures var (after, out) := Step(o, e);
            && (out.Applied? <==> e.id !in o.seen && e.target in Next(o.state))
            && (out.Ignored? <==> e.id in o.seen)
            && (!out.Applied? ==> after == o)
            && (out.Applied? ==>
                  after.state == e.target && after.seen == o.seen + {e.id} && after.history == o.history + [e.target])
  {
    TerminalHasNoNext(o.state);
    hide Next;
  }

  // ---- Replays ------------------------------------------------------------------------------

  /** The events whose id is not yet seen when they arrive. */
  function Fresh(o: Order, events: seq<Event>): seq<Event>
    decreases |events|
  {
    if events == [] then []
    else (if events[0].id in o.seen then [] else [events[0]]) + Fresh(Step(o, events[0]).0, events[1..])
  }

  /** Deleting every replayed event, whatever state it asks for, changes nothing. */
  lemma {:induction false} ReplaysAreInvisible(o: Order, events: seq<Event>)
    ensures Run(o, Fresh(o, events)) == Run(o, events)
    decreases |events|
  {
    if events != [] {
      var next := Step(o, events[0]).0;
      ReplaysAreInvisible(next, events[1..]);
      if events[0].id in o.seen {
        assert Fresh(o, events) == Fresh(next, events[1..]);
      } else {
        assert Fresh(o, events)[1..] == Fresh(next, events[1..]);
      }
    }
  }

  lemma {:induction false} RunInTwo(o: Order, a: seq<Event>, b: seq<Event>)
    ensures Run(o, a + b) == Run(Run(o, a), b)
    decreases |a|
  {
    if a == [] {
      assert a + b == b;
    } else {
      RunInTwo(Step(o, a[0]).0, a[1..], b);
      assert (a + b)[0] == a[0] && (a + b)[1..] == a[1..] + b;
    }
  }

  /** So one more event with a seen id can be put in anywhere. */
  lemma InsertedReplayIsInvisible(o: Order, a: seq<Event>, e: Event, b: seq<Event>)
    requires e.id in Run(o, a).seen
    ensures Run(o, a + [e] + b) == Run(o, a + b)
  {
    RunInTwo(o, a, b);
    RunInTwo(o, a + [e], b);
    RunInTwo(o, a, [e]);
    assert Run(Run(o, a), [e]) == Run(o, a);
  }

  /** How often events with this id were applied in a run. */
  function TimesApplied(o: Order, events: seq<Event>, id: string): nat
    decreases |events|
  {
    if events == [] then 0
    else
      (if Step(o, events[0]).1.Applied? && events[0].id == id then 1 else 0)
      + TimesApplied(Step(o, events[0]).0, events[1..], id)
  }

  /** At most once per id, and exactly once for the ids a run adds; an event that raised leaves its id free to be
      tried again. */
  lemma {:induction false} AppliedAtMostOnce(o: Order, events: seq<Event>, id: string)
    ensures TimesApplied(o, events, id) == if id in Run(o, events).seen && id !in o.seen then 1 else 0
    ensures o.seen <= Run(o, events).seen
    decreases |events|
  {
    if events != [] {
      AppliedAtMostOnce(Step(o, events[0]).0, events[1..], id);
    }
  }
}
