/** The stream monitor: whether the quote stream is whole and recent enough to enter a position on. */
module StreamHealth {
  import opened Common

  datatype StreamState = CONNECTED | HEALTHY | STALE | DISCONNECTED | RECONNECTING | RESYNC

  datatype Health = Health(
    staleAfter: real,
    state: StreamState,
    lastMessageTs: real,
    lastSequence: Option<int>,
    reasons: seq<string>)

  /** `clock` is the wall clock, read for a message without a time of its own. */
  function Heard(h: Health, sequence: Option<int>, ts: Option<real>, clock: real): Health {
    var g := h.(lastMessageTs := if ts.Some? then ts.value else clock);
    if sequence.None? then g.(state := HEALTHY, reasons := [])
    else if h.lastSequence.Some? && sequence.value < h.lastSequence.value then
      g.(state := RESYNC, reasons := ["out_of_order"], lastSequence := sequence)
    else if h.lastSequence.Some? && sequence.value > h.lastSequence.value + 1 then
      g.(state := RESYNC, reasons := ["sequence_gap"], lastSequence := sequence)
    else g.(state := HEALTHY, reasons := [], lastSequence := sequence)
  }

  function Ticked(h: Health, now: real): Health {
    if h.state in {HEALTHY, CONNECTED, RESYNC} && h.lastMessageTs != 0.0 && now - h.lastMessageTs > h.staleAfter
    then h.(state := STALE, reasons := ["stale_stream"])
    else h
  }

  predicate AllowsNewEntry(h: Health) {
    h.state.HEALTHY?
  }

  /** Just after a message the stream allows an entry exactly if the message repeated or continued the sequence and is
      not too old; a time of 0 counts as no time. */
  lemma AllowsExactly(h: Health, sequence: int, ts: real, clock: real, now: real)
    ensures AllowsNewEntry(Ticked(Heard(h, Some(sequence), Some(ts), clock), now)) <==>
            && (h.lastSequence.Some? ==> h.lastSequence.value <= sequence <= h.lastSequence.value + 1)
            && (ts == 0.0 || now - ts <= h.staleAfter)
  {
    hide Ticked;
    var g := Heard(h, Some(sequence), Some(ts), clock);
    TickKeepsExactly(g, now);
  }

  lemma TickKeepsExactly(h: Health, now: real)
    ensures AllowsNewEntry(Ticked(h, now)) <==>
            AllowsNewEntry(h) && (h.lastMessageTs == 0.0 || now - h.lastMessageTs <= h.staleAfter)
  {
  }

  /** Looking twice at one instant is looking once: the decision engine, which ticks the monitor again, changes
      nothing. */
  lemma TickTwice(h: Health, now: real)
    ensures Ticked(Ticked(h, now), now) == Ticked(h, now)
  {
  }

  /** The monitor follows the sequence wherever it went, so a gap or a step back costs one message: the next in
      sequence heals the stream. A message without a number heals it at once and leaves the sequence as it was. */
  lemma NextMessageHeals(h: Health, sequence: int, ts: Option<real>, next: Option<real>, clock: real, later: real)
    ensures var g := Heard(h, Some(sequence), ts, clock);
            && g.lastSequence == Some(sequence) && g.state in {HEALTHY, RESYNC}
            && Heard(g, Some(sequence + 1), next, later).state == HEALTHY
            && Heard(g, Some(sequence), next, later).state == HEALTHY
    ensures Heard(h, None, ts, clock).state == HEALTHY && Heard(h, None, ts, clock).lastSequence == h.lastSequence
  {
  }

  /** What the monitor blames: a gap exactly if numbers were left out, disorder exactly if the number went back. */
  lemma BlamesExactly(h: Health, sequence: int, last: int, ts: Option<real>, clock: real)
    requires h.lastSequence == Some(last)
    ensures var g := Heard(h, Some(sequence), ts, clock);
            && (g.reasons == ["sequence_gap"] <==> sequence >= last + 2)
            && (g.reasons == ["out_of_order"] <==> sequence <= last - 1)
            && (g.reasons == [] <==> sequence - last in {0, 1})
            && g.lastMessageTs == match ts { case Some(t) => t case None => clock }
  {
    assert "sequence_gap"[0] != "out_of_order"[0];
  }

  /** Once stale, a stream stays stale until a message is heard. */
  lemma StaleUntilHeard(h: Health, now: real)
    ensures h.state == STALE ==> Ticked(h, now) == h
    ensures Ticked(h, now).state == STALE <==>
            || h.state == STALE
            || (&& h.state in {CONNECTED, HEALTHY, RESYNC}
                && h.lastMessageTs != 0.0 && h.lastMessageTs + h.staleAfter < now)
  {
  }

  class StreamHealthMonitor {
    const staleAfter: real
    var state: StreamState
    var lastMessageTs: real
    var lastSequence: Option<int>
    var reasons: seq<string>

    ghost function Model(): Health
      reads this
    {
      Health(staleAfter, state, lastMessageTs, lastSequence, reasons)
    }

    constructor (staleAfter: real)
      ensures Model() == Health(staleAfter, DISCONNECTED, 0.0, None, [])
    {
      this.staleAfter := staleAfter;
      state, lastMessageTs, lastSequence, reasons := DISCONNECTED, 0.0, None, [];
    }

    method OnMessage(sequence: Option<int>, ts: Option<real>, clock: real)
      modifies this
      ensures Model() == Heard(old(Model()), sequence, ts, clock)
    {
      lastMessageTs := if ts.Some? then ts.value else clock;
      if sequence.Some? {
        if lastSequence.Some? && sequence.value < lastSequence.value {
          state, reasons := RESYNC, ["out_of_order"];
        } else if lastSequence.Some? && sequence.value > lastSequence.value + 1 {
          state, reasons := RESYNC, ["sequence_gap"];
        } else {
          state, reasons := HEALTHY, [];
        }
        lastSequence := sequence;
      } else {
        state, reasons := HEALTHY, [];
      }
    }

    method Tick(now: real)
      modifies this
      ensures Model() == Ticked(old(Model()), now)
    {
      if state in {HEALTHY, CONNECTED, RESYNC} {
        if lastMessageTs != 0.0 && now - lastMessageTs > staleAfter {
          state, reasons := STALE, ["stale_stream"];
        }
      }
    }
  }
}
