/** What one cycle of the autonomous loop does, said in the fields of the call and of the decision. */
module LoopConduct {
  import opened Common
  import opened ControlCycle
  import opened Quotes
  import opened StreamHealth
  import opened AutonomousLoop

  /** What a quote must be for the loop. */
  lemma GoodExactly(q: Quote, now: real)
    ensures Good(q, now, DEFAULT_TERMS) <==>
            && q.symbol != ""
            && q.bid.Some? && q.ask.Some? && q.bid.value > 0.0 && q.ask.value >= q.bid.value
            && (forall v | v in {q.bidQty, q.askQty, q.volume} :: v.Some? ==> v.value >= 0.0)
            && q.timestamp.Some? && 0.0 < q.timestamp.value && now <= q.timestamp.value + 30.0
            && 200.0 * (q.ask.value - q.bid.value) <= q.ask.value + q.bid.value
  {
  }

  /** When a fresh cycle gets as far as the decision. */
  lemma DecisionIsReachedExactly(x: CycleInput, ttl: real, feed: Health)
    ensures ReachesDecision(x, ttl, feed) <==>
            && !x.safeMode && x.crashAfter != "OBSERVING"
            && Good(x.quote, x.now, DEFAULT_TERMS)
            && (feed.lastSequence.Some? ==>
                  var sequence := if x.quote.sequence in {None, Some(0)} then 1 else x.quote.sequence.value;
                  sequence == feed.lastSequence.value || sequence == feed.lastSequence.value + 1)
            && x.now <= x.quote.timestamp.value + feed.staleAfter
            && x.reconciliationHealthy
            && (x.position.Some? ==> !x.position.value.sideUnknown && !x.position.value.recoveryIncomplete)
            && ttl >= 0.0
            && (x.mlRaises ==> x.closes < 40)
  {
    hide ValidationFails, Good;
    ValidationPassesExactly(x, ttl, feed);
    assert SequenceOf(x.quote) == if x.quote.sequence in {None, Some(0)} then 1 else x.quote.sequence.value;
  }

  /** Whether the decision is for a new position. */
  predicate EntryAllowed(d: DecisionResult) {
    d.Decided? && d.action != "NO_TRADE" && d.action != "HOLD" && d.allowedNewEntry
  }

  const UNTIL_DECISION: seq<ControlState> := [OBSERVING, VALIDATING, ASSESSING, PREDICTING, DECIDING]

  /** Once the decision stage is reached: an intent is asked for exactly if an entry is allowed and risk allows it.
      The cycle stops right after DECIDING exactly if the decision raises, right after RISK_CHECK exactly if an entry
      is allowed and risk refuses it, and right after EXECUTION_INTENT exactly if the intent it asks for is taken; it
      crashes there exactly if it is told to and the intent is new; it is COMPLETED without an intent exactly if no
      entry is allowed. */
  lemma DecisionDecidesRoute(x: CycleInput, ttl: real, feed: Health, collides: bool)
    requires ReachesDecision(x, ttl, feed)
    ensures var r, d := Route(x, ttl, feed, collides), x.decision;
            var asks := EntryAllowed(d) && d.riskAllowed;
            && (WantsIntent(x, ttl, feed) <==> asks)
            && (r == UNTIL_DECISION + [SAFE_STOP] <==> d.DecisionRaises?)
            && (r == UNTIL_DECISION + [RISK_CHECK, SAFE_STOP] <==> EntryAllowed(d) && !d.riskAllowed)
            && (r == UNTIL_DECISION + [RISK_CHECK, EXECUTION_INTENT, SAFE_STOP] <==> asks && collides)
            && (r == UNTIL_DECISION + [RISK_CHECK, EXECUTION_INTENT, RECOVERY_REQUIRED] <==>
                  asks && !collides && x.crashAfter == "EXECUTION_INTENT")
            && (COMPLETED in r && !WantsIntent(x, ttl, feed) <==> d.Decided? && !EntryAllowed(d))
            && (COMPLETED in r && WantsIntent(x, ttl, feed) <==>
                  asks && !collides && x.crashAfter != "EXECUTION_INTENT")
            && (COMPLETED in r ==>
                  r == UNTIL_DECISION
                       + [RISK_CHECK, EXECUTION_INTENT, PAPER_EXECUTION, MONITORING, REASSESSMENT, COMPLETED])
  {
    hide ReachesDecision;
    assert WHOLE[|WHOLE| - 1] == COMPLETED;
    assert WHOLE == UNTIL_DECISION
                    + [RISK_CHECK, EXECUTION_INTENT, PAPER_EXECUTION, MONITORING, REASSESSMENT, COMPLETED];
    var stopped, refused := UNTIL_DECISION + [SAFE_STOP], UNTIL_DECISION + [RISK_CHECK, SAFE_STOP];
    assert |stopped| == 6 && |refused| == 7 && |WHOLE| == 11;
    assert (TO_INTENT + [SAFE_STOP])[7] == SAFE_STOP && (TO_INTENT + [RECOVERY_REQUIRED])[7] == RECOVERY_REQUIRED;
  }

  /** How a fresh cycle ends that does not reach its decision. */
  lemma EarlyEndsExactly(x: CycleInput, ttl: real, feed: Health, collides: bool)
    requires !ReachesDecision(x, ttl, feed)
    ensures var r := Route(x, ttl, feed, collides);
            && !WantsIntent(x, ttl, feed)
            && (r == [OBSERVING, SAFE_STOP] <==> x.safeMode)
            && (r == [OBSERVING, RECOVERY_REQUIRED] <==> !x.safeMode && x.crashAfter == "OBSERVING")
            && (r == [OBSERVING, VALIDATING] <==> Validates(x) && x.quote.timestamp.None?)
            && (r == [OBSERVING, VALIDATING, SAFE_STOP] <==>
                  Validates(x) && x.quote.timestamp.Some? && ValidationFails(x, ttl, feed))
            && (r == [OBSERVING, VALIDATING, ASSESSING, PREDICTING, SAFE_STOP] <==>
                  Validates(x) && !ValidationFails(x, ttl, feed) && x.closes >= 40 && x.mlRaises)
  {
    QuoteIsTimed(x);
    hide Good, Heard, Ticked;
  }

  /** The failure code of a fresh cycle, one way and the other: a cycle without a code was completed, crashed or
      broken off, and every code has one cause. */
  lemma FailureTellsCause(x: CycleInput, ttl: real, feed: Health, collides: bool)
    ensures var r, code := Route(x, ttl, feed, collides), FailureOf(x, ttl, feed, collides);
            && (code.Some? <==> SAFE_STOP in r)
            && (code == Some("SAFE_MODE") <==> x.safeMode)
            && (code == Some("MODEL_FAILURE") <==> |r| == 5 && r[3] == PREDICTING && r[4] == SAFE_STOP)
            && (code == Some("DECISION_FAILURE") <==> r == UNTIL_DECISION + [SAFE_STOP])
            && (code == Some("RISK_FAILURE") <==> r == UNTIL_DECISION + [RISK_CHECK, SAFE_STOP])
            && (code == Some("EXECUTION_CONTRACT_FAILURE") <==>
                  r == UNTIL_DECISION + [RISK_CHECK, EXECUTION_INTENT, SAFE_STOP])
  {
    QuoteIsTimed(x);
    hide Good, Heard, Ticked;
  }

  /** The codes of a failed validation, each with its cause; a stream that is not whole is blamed before the books,
      and both before the position and the time to live. */
  lemma ValidationFailureTellsCause(x: CycleInput, ttl: real, feed: Health, collides: bool)
    requires Validates(x) && x.quote.timestamp.Some?
    ensures var code := FailureOf(x, ttl, feed, collides);
            var good := Good(x.quote, x.now, DEFAULT_TERMS);
            var streams := StreamAllows(x, feed);
            var doubtful := x.position.Some? && (x.position.value.sideUnknown || x.position.value.recoveryIncomplete);
            && (code == Some("DATA_FAILURE") <==> !good || (streams && !x.reconciliationHealthy))
            && (code == Some("STREAM_FAILURE") <==> good && !streams)
            && (code == Some("UNKNOWN_FAILURE") <==> good && streams && x.reconciliationHealthy && doubtful)
            && (code == Some("TIMEOUT") <==>
                  good && streams && x.reconciliationHealthy && !doubtful && ttl < 0.0)
  {
    if Good(x.quote, x.now, DEFAULT_TERMS) {
      assert x.quote.timestamp.value > 0.0;
      AllowsExactly(feed, SequenceOf(x.quote), x.quote.timestamp.value, x.clock, x.now);
    }
    hide Good, Heard, Ticked;
  }

  /** The quote repeats or continues the sequence, a missing number or 0 counting as 1, and is not too old. */
  predicate StreamAllows(x: CycleInput, feed: Health)
    requires x.quote.timestamp.Some?
  {
    var sequence := if x.quote.sequence in {None, Some(0)} then 1 else x.quote.sequence.value;
    && (feed.lastSequence.None? || sequence - feed.lastSequence.value in {0, 1})
    && x.now - x.quote.timestamp.value <= feed.staleAfter
  }

  /** With a hash that tells strings apart, two cycles with ids of one length never ask for one intent, whatever they
      decide on whatever symbol. */
  lemma IntentKeysDiffer(hash: string -> string, a: string, b: string, action: string, other: string, symbol: string,
                         another: string)
    requires forall s, t :: hash(s) == hash(t) ==> s == t
    requires |a| == |b|
    ensures IntentKey(hash, a, action, symbol) == IntentKey(hash, b, other, another) ==> a == b
  {
    var x, y := a + ":" + action + ":" + symbol, b + ":" + other + ":" + another;
    var prefix := "intent-";
    if prefix + hash(x) == prefix + hash(y) {
      assert (prefix + hash(x))[|prefix|..] == hash(x) && (prefix + hash(y))[|prefix|..] == hash(y);
      assert x[..|a|] == a && y[..|b|] == b;
    }
  }

  /** And within one cycle the key tells action and symbol: with ids and actions that hold no colon, keys are equal
      only if all three parts are. */
  lemma IntentKeyTells(hash: string -> string, a: string, b: string, action: string, other: string, symbol: string,
                       another: string)
    requires forall s, t :: hash(s) == hash(t) ==> s == t
    requires ':' !in a && ':' !in b && ':' !in action && ':' !in other
    ensures IntentKey(hash, a, action, symbol) == IntentKey(hash, b, other, another) <==>
            a == b && action == other && symbol == another
  {
    var prefix := "intent-";
    var x, y := a + ":" + action + ":" + symbol, b + ":" + other + ":" + another;
    if prefix + hash(x) == prefix + hash(y) {
      assert (prefix + hash(x))[|prefix|..] == hash(x) && (prefix + hash(y))[|prefix|..] == hash(y);
      assert x == a + (":" + action + ":" + symbol) && y == b + (":" + other + ":" + another);
      FirstPartTells(':', a, ":" + action + ":" + symbol, b, ":" + other + ":" + another);
      assert (":" + action + ":" + symbol)[1..] == action + (":" + symbol);
      assert (":" + other + ":" + another)[1..] == other + (":" + another);
      FirstPartTells(':', action, ":" + symbol, other, ":" + another);
      assert (":" + symbol)[1..] == symbol && (":" + another)[1..] == another;
    }
  }

  /** The monitor hears the quote of every cycle that gets to its validation, whether or not it then passes, and no
      other; the quote's number is what the next one is held against. */
  lemma MonitorHearsExactly(x: CycleInput, feed: Health)
    ensures !x.safeMode && x.crashAfter != "OBSERVING" ==>
              && FeedAfter(x, feed).lastSequence ==
                 Some(if x.quote.sequence in {None, Some(0)} then 1 else x.quote.sequence.value)
              && FeedAfter(x, feed).lastMessageTs == match x.quote.timestamp { case Some(t) => t case None => x.clock }
    ensures x.safeMode || x.crashAfter == "OBSERVING" ==> FeedAfter(x, feed) == feed
  {
    hide Good;
    assert SequenceOf(x.quote) == if x.quote.sequence in {None, Some(0)} then 1 else x.quote.sequence.value;
  }

  /** So in a loop as its calls leave it, the stop for a duplicate intent is never taken: the intent of a fresh cycle
      is new, whatever was decided before. */
  lemma FreshIntentIsNew(hash: string -> string, view: map<string, Rest>, intents: set<string>, freshId: string,
                         action: string, symbol: string)
    requires RegistryIsUnion(view, intents) && KeysAreOwn(hash, view)
    requires forall s, t :: hash(s) == hash(t) ==> s == t
    requires freshId !in view && forall id :: id in view ==> |id| == |freshId|
    ensures IntentKey(hash, freshId, action, symbol) !in intents
  {
    hide IntentKey;
    var key := IntentKey(hash, freshId, action, symbol);
    if key in intents {
      var id :| id in view && key in view[id].intentIds;
      var other, another :| IsKeyOf(hash, id, key, other, another);
      IntentKeysDiffer(hash, freshId, id, action, other, symbol, another);
      assert false;
    }
  }
}
