/** What single requests do to the simulated account, said of the request, the quotes and the account alone: which side
    is opened at which price, what a closing pays, and how equity follows the market. */
module VirtualBrokerConduct {
  import opened Common
  import opened VirtualBroker
  import opened VirtualBrokerLaws

  // ---- The side of an order -----------------------------------------------------------------

  /** The word in any mixture of its upper and its lower case. */
  predicate Spells(s: string, upper: string, lower: string)
    requires |upper| == |lower|
  {
    |s| == |upper| && forall i :: 0 <= i < |s| ==> s[i] == upper[i] || s[i] == lower[i]
  }

  predicate AsksToBuy(r: Request) {
    r.side.None? || r.side.value == "" || Spells(r.side.value, "BUY", "buy")
  }

  predicate AsksToSell(r: Request) {
    r.side.Some? && Spells(r.side.value, "SELL", "sell")
  }

  lemma CharSpells(c: char, upper: char, lower: char)
    requires 'A' <= upper <= 'Z' && lower as int == upper as int + 32
    ensures UpperChar(c) == upper <==> c == upper || c == lower
  {
  }

  lemma UpperSpells(s: string, upper: string, lower: string)
    requires |upper| == |lower|
    requires forall i :: 0 <= i < |upper| ==> 'A' <= upper[i] <= 'Z' && lower[i] as int == upper[i] as int + 32
    ensures Upper(s) == upper <==> Spells(s, upper, lower)
  {
    hide UpperChar;
    forall i | 0 <= i < |s| && |s| == |upper|
      ensures UpperChar(s[i]) == upper[i] <==> s[i] == upper[i] || s[i] == lower[i]
    {
      CharSpells(s[i], upper[i], lower[i]);
    }
    forall i | 0 <= i < |s| && Upper(s) == upper ensures UpperChar(s[i]) == upper[i] {
      assert Upper(s)[i] == UpperChar(s[i]);
    }
  }

  lemma SideIsAsked(r: Request)
    ensures SideOf(r) == if AsksToBuy(r) then Some(BUY) else if AsksToSell(r) then Some(SELL) else None
    ensures !(AsksToBuy(r) && AsksToSell(r))
  {
    if r.side.Some? {
      UpperSpells(r.side.value, "BUY", "buy");
      UpperSpells(r.side.value, "SELL", "sell");
    }
    assert Upper("BUY") == "BUY";
    hide Upper;
  }

  // ---- Opening ------------------------------------------------------------------------------

  /** The volume asked for; none, or none to speak of, is a hundredth of a lot. */
  function AskedVolume(r: Request): real {
    match r.volume
    case None => 0.01
    case Some(v) => if v == 0.0 then 0.01 else v
  }

  /** An opening succeeds exactly for a side that can be read and a positive volume; a refused one changes nothing. */
  lemma OpensExactly(a: Account, r: Request)
    requires Indexed(a)
    ensures var (b, result) := OpenSpec(a, r);
            && (result.success <==> (AsksToBuy(r) || AsksToSell(r)) && AskedVolume(r) > 0.0)
            && result.requestId == r.requestId && result.decisionId == r.decisionId && !result.isDuplicate
            && (!result.success ==>
                  && b == a && result.executed == NO_ACTION && result.positionId.None? && result.fees == 0.0
                  && (result.message == "virtual: invalid side" <==> !AsksToBuy(r) && !AsksToSell(r)))
  {
    SideIsAsked(r);
    hide PlaceSpec, NewPosition, AsksToBuy, AsksToSell, SideOf;
  }

  /** Two states of a position that differ at most in its marks. */
  predicate SameTerms(p: Position, q: Position) {
    q == p.(currentPrice := q.currentPrice, unrealizedPnl := q.unrealizedPnl)
  }

  /** A recalculation touches nothing but marks and equity: open positions are marked where they could be closed, a
      BUY at the bid and a SELL at the ask. */
  lemma RecalcKeepsTerms(a: Account)
    requires Indexed(a)
    ensures Recalc(a) == a.(positions := Recalc(a).positions, equity := Recalc(a).equity)
    ensures Recalc(a).positions.Keys == a.positions.Keys
    ensures forall id :: id in a.positions ==> SameTerms(a.positions[id], Recalc(a).positions[id])
    ensures forall id :: id in a.positions && a.positions[id].status.OPEN? ==>
              Recalc(a).positions[id].currentPrice == if a.positions[id].side.BUY? then a.bid else a.ask
  {
    hide Sum, Profit;
  }

  /** What an opening position is: it buys at the ask and sells at the bid, in the symbol and the volume asked for. */
  predicate IsAskedFor(p: Position, a: Account, r: Request) {
    && p.side == (if AsksToBuy(r) then BUY else SELL)
    && p.entryPrice == (if AsksToBuy(r) then a.ask else a.bid)
    && p.volume == AskedVolume(r) && p.status.OPEN? && p.sl == r.sl && p.tp == r.tp
    && p.symbol == (if r.symbol in {None, Some("")} then a.defaultSymbol else r.symbol.value)
  }

  lemma PlacedAsAsked(a: Account, r: Request)
    requires Indexed(a) && (AsksToBuy(r) || AsksToSell(r))
    ensures SideOf(r).Some?
    ensures var b := Placed(a, r);
            && b.positions.Keys == a.positions.Keys + {a.nextId} && b.ids == a.ids + [a.nextId]
            && b.balance == a.balance - a.feePerLot * AskedVolume(r) && b.bid == a.bid && b.ask == a.ask
            && IsAskedFor(b.positions[a.nextId], a, r)
            && forall id :: id in a.positions ==> b.positions[id] == a.positions[id]
  {
    SideIsAsked(r);
    assert a.nextId !in a.ids;
    hide AsksToBuy, AsksToSell, SideOf;
  }

  /** A successful opening enters the position asked for under a new id, for a fee in proportion to its volume; every
      position from before keeps its terms. */
  lemma OpenedPosition(a: Account, r: Request)
    requires Indexed(a) && (AsksToBuy(r) || AsksToSell(r)) && AskedVolume(r) > 0.0
    ensures var b := OpenSpec(a, r).0;
            && b.positions.Keys == a.positions.Keys + {a.nextId} && b.ids == a.ids + [a.nextId]
            && b.balance == a.balance - a.feePerLot * AskedVolume(r)
            && IsAskedFor(b.positions[a.nextId], a, r)
            && b.positions[a.nextId].currentPrice == (if AsksToBuy(r) then a.bid else a.ask)
            && forall id :: id in a.positions ==> SameTerms(a.positions[id], b.positions[id])
  {
    SideIsAsked(r);
    PlacedAsAsked(a, r);
    OpenIsPlaceThenRecalc(a, r);
    RecalcKeepsTerms(Placed(a, r));
    hide AsksToBuy, AsksToSell, SideOf, Recalc, Placed, OpenSpec, AskedVolume;
    assert a.nextId !in a.ids;
  }

  /** The answer tells the fill. */
  lemma OpeningIsReported(a: Account, r: Request)
    requires Indexed(a) && (AsksToBuy(r) || AsksToSell(r)) && AskedVolume(r) > 0.0
    ensures var result := OpenSpec(a, r).1;
            && result.success && result.executed == OPEN_POSITION && result.positionId == Some(a.nextId)
            && result.fillPrice == Some(if AsksToBuy(r) then a.ask else a.bid)
            && result.volume == Some(AskedVolume(r)) && result.fees == a.feePerLot * AskedVolume(r)
  {
    SideIsAsked(r);
    hide AsksToBuy, AsksToSell, SideOf, PlaceSpec;
  }

  // ---- Closing and modifying ----------------------------------------------------------------

  /** What the market pays for a position between two prices. */
  function Gain(p: Position, price: real): real {
    var move := if p.side == BUY then price - p.entryPrice else p.entryPrice - price;
    100000.0 * p.volume * move
  }

  /** A closing succeeds exactly on a position that is open, sells what was bought at the bid and buys back what was
      sold at the ask, and pays the gain less a fee; every other position keeps its terms. */
  lemma ClosesExactly(a: Account, r: Request)
    requires Indexed(a)
    ensures var (b, result) := CloseSpec(a, r);
            && (result.success <==>
                  && r.positionId.Some? && r.positionId.value in a.positions
                  && a.positions[r.positionId.value].status.OPEN?)
            && (!result.success ==> b == a && result.pnl.None? && result.fees == 0.0 && result.executed == NO_ACTION)
            && (result.success ==>
                  var p := a.positions[r.positionId.value];
                  var fill := if p.side == BUY then a.bid else a.ask;
                  && result.executed == CLOSE_POSITION && result.fillPrice == Some(fill)
                  && result.positionId == r.positionId && result.volume == Some(p.volume)
                  && result.pnl == Some(Gain(p, fill)) && result.fees == a.feePerLot * p.volume
                  && b.balance == a.balance + Gain(p, fill) - a.feePerLot * p.volume)
  {
    if r.positionId.Some? && r.positionId.value in a.positions {
      var p := a.positions[r.positionId.value];
      ProfitIsGain(p, if p.side == BUY then a.bid else a.ask);
    }
    hide Profit, Gain, Sum;
  }

  lemma ProfitIsGain(p: Position, price: real)
    ensures Profit(p.side, p.entryPrice, price, p.volume) == Gain(p, price)
  {
  }

  /** A closing records its price and its profit with the position; no other position changes its terms. */
  lemma ClosedPosition(a: Account, r: Request)
    requires Indexed(a) && HoldsOpen(a, r.positionId)
    ensures var b, id := CloseSpec(a, r).0, r.positionId.value;
            var p := a.positions[id];
            var fill := if p.side == BUY then a.bid else a.ask;
            && b.positions.Keys == a.positions.Keys && b.ids == a.ids
            && SameTerms(p.(status := CLOSED, exitPrice := Some(fill), pnl := Some(Gain(p, fill))), b.positions[id])
            && forall k :: k in a.positions && k != id ==> SameTerms(a.positions[k], b.positions[k])
  {
    var p := a.positions[r.positionId.value];
    ProfitIsGain(p, if p.side == BUY then a.bid else a.ask);
    CloseIsSettleThenRecalc(a, r);
    RecalcKeepsTerms(Settled(a, r));
    hide Recalc, CloseSpec, Profit, Gain;
  }

  /** A modification succeeds exactly on an open position and moves the stop and the target it is given, and nothing
      else. */
  lemma ModifiesExactly(a: Account, r: Request)
    ensures var (b, result) := ModifySpec(a, r);
            && (result.success <==>
                  && r.positionId.Some? && r.positionId.value in a.positions
                  && a.positions[r.positionId.value].status.OPEN?)
            && (!result.success ==> b == a)
            && (result.success ==>
                  var p := a.positions[r.positionId.value];
                  var q := b.positions[r.positionId.value];
                  && b == a.(positions := a.positions[r.positionId.value := q])
                  && q == p.(sl := q.sl, tp := q.tp)
                  && (r.sl.Some? ==> q.sl == r.sl) && (r.sl.None? ==> q.sl == p.sl)
                  && (r.tp.Some? ==> q.tp == r.tp) && (r.tp.None? ==> q.tp == p.tp))
  {
  }

  /** An action that is no order succeeds and does nothing. */
  lemma OtherActionsDoNothing(a: Account, r: Request)
    requires Indexed(a) && (r.action == NO_ACTION || r.action == OBSERVE_ONLY) && r.requestId !in a.seen
    ensures var (b, result) := SubmitSpec(a, r);
            && b == a.(seen := a.seen[r.requestId := result])
            && result.success && result.executed == r.action && result.fees == 0.0 && !result.isDuplicate
  {
  }

  // ---- The market ---------------------------------------------------------------------------

  /** The volume of the open positions on one side. */
  function OpenVolume(side: Side, ids: seq<Id>, positions: map<Id, Position>): real
    requires forall id :: id in ids ==> id in positions
  {
    if ids == [] then 0.0
    else
      var n := |ids| - 1;
      OpenVolume(side, ids[..n], positions) + Held(side, positions[ids[n]])
  }

  function Held(side: Side, p: Position): real {
    if p.status.OPEN? && p.side == side then p.volume else 0.0
  }

  function Move(change: real, volume: real): real {
    change * volume * 100000.0
  }

  lemma MoveAdds(change: real, v: real, w: real)
    ensures Move(change, v + w) == Move(change, v) + Move(change, w)
  {
  }

  lemma WorthMoves(p: Position, bid: real, ask: real, newBid: real, newAsk: real)
    ensures Worth(Unrealised(newBid, newAsk), p) == Worth(Unrealised(bid, ask), p)
              + Move(newBid - bid, Held(BUY, p)) - Move(newAsk - ask, Held(SELL, p))
  {
  }

  lemma {:induction false} UnrealisedMoves(ids: seq<Id>, positions: map<Id, Position>, bid: real, ask: real,
                                           newBid: real, newAsk: real)
    requires forall id :: id in ids ==> id in positions
    ensures Sum(Unrealised(newBid, newAsk), ids, positions) ==
            Sum(Unrealised(bid, ask), ids, positions) + Move(newBid - bid, OpenVolume(BUY, ids, positions))
                                                      - Move(newAsk - ask, OpenVolume(SELL, ids, positions))
  {
    hide Worth, Move;
    if ids == [] {
      MoveAdds(newBid - bid, 0.0, 0.0);
      MoveAdds(newAsk - ask, 0.0, 0.0);
    } else {
      var n := |ids| - 1;
      var p := positions[ids[n]];
      UnrealisedMoves(ids[..n], positions, bid, ask, newBid, newAsk);
      WorthMoves(p, bid, ask, newBid, newAsk);
      MoveAdds(newBid - bid, OpenVolume(BUY, ids[..n], positions), Held(BUY, p));
      MoveAdds(newAsk - ask, OpenVolume(SELL, ids[..n], positions), Held(SELL, p));
    }
  }

  /** Equity follows the market: what is held long gains with the bid, what is held short loses with the ask, by the
      change of the price times the volume times 100000; the balance does not move. */
  lemma EquityFollowsMarket(a: Account, initial: real, bid: real, ask: real)
    requires Valid(a, initial)
    ensures var b := QuotesSpec(a, bid, ask);
            && b.balance == a.balance
            && b.equity == a.equity + Move(bid - a.bid, OpenVolume(BUY, a.ids, a.positions))
                                    - Move(ask - a.ask, OpenVolume(SELL, a.ids, a.positions))
  {
    hide Move, Sum, OpenVolume, AllSound, AllMarked, LogOk;
    UnrealisedMoves(a.ids, a.positions, a.bid, a.ask, bid, ask);
  }

  lemma {:induction false} OpenVolumeUnaffected(side: Side, ids: seq<Id>, a: map<Id, Position>, b: map<Id, Position>)
    requires forall id :: id in ids ==> id in a && id in b && Held(side, a[id]) == Held(side, b[id])
    ensures OpenVolume(side, ids, a) == OpenVolume(side, ids, b)
  {
    hide Held;
    if ids != [] {
      OpenVolumeUnaffected(side, ids[..|ids| - 1], a, b);
    }
  }

  lemma OpenedVolume(a: Account, r: Request, side: Side)
    requires Indexed(a) && (AsksToBuy(r) || AsksToSell(r)) && AskedVolume(r) > 0.0
    ensures var b := OpenSpec(a, r).0;
            && Indexed(b)
            && OpenVolume(side, b.ids, b.positions) == OpenVolume(side, a.ids, a.positions)
                 + if side == (if AsksToBuy(r) then BUY else SELL) then AskedVolume(r) else 0.0
  {
    hide OpenSpec, AsksToBuy, AsksToSell, AskedVolume, SameTerms, Held, Distinct;
    var b := OpenSpec(a, r).0;
    OpenedPosition(a, r);
    OpeningKeepsIndexed(a, r);
    forall id | id in a.ids ensures Held(side, b.positions[id]) == Held(side, a.positions[id]) {
      SameTermsHeld(side, a.positions[id], b.positions[id]);
    }
    OpenVolumeUnaffected(side, a.ids, a.positions, b.positions);
    assert b.ids[..|a.ids|] == a.ids;
    assert Held(side, b.positions[a.nextId]) ==
           if side == (if AsksToBuy(r) then BUY else SELL) then AskedVolume(r) else 0.0 by {
      HeldAsAsked(side, b.positions[a.nextId], a, r);
    }
  }

  lemma SameTermsHeld(side: Side, p: Position, q: Position)
    requires SameTerms(p, q)
    ensures Held(side, p) == Held(side, q)
  {
  }

  lemma HeldAsAsked(side: Side, p: Position, a: Account, r: Request)
    requires IsAskedFor(p, a, r)
    ensures Held(side, p) == if side == (if AsksToBuy(r) then BUY else SELL) then AskedVolume(r) else 0.0
  {
  }

  lemma OpeningKeepsIndexed(a: Account, r: Request)
    requires Indexed(a)
    ensures Indexed(OpenSpec(a, r).0)
  {
    if Opens(a, r) {
      OpenIsPlaceThenRecalc(a, r);
    }
    hide SideOf, VolumeOf;
  }

  lemma MoveFromFill(bid: real, ask: real, newBid: real, newAsk: real, volume: real)
    ensures Move(newBid - bid, volume) - Move(ask - bid, volume) == Move(newBid - ask, volume)
    ensures -Move(newAsk - ask, volume) - Move(ask - bid, volume) == Move(bid - newAsk, volume)
  {
  }

  /** What an opening is worth once the market has moved: compared with not opening it, the fee and, per unit of
      volume, the way from the ask it bought at to the new bid, or from the new ask to the bid it sold at. */
  lemma OpeningFollowsMarket(a: Account, r: Request, initial: real, bid: real, ask: real)
    requires Valid(a, initial) && (AsksToBuy(r) || AsksToSell(r)) && AskedVolume(r) > 0.0
    ensures Indexed(OpenSpec(a, r).0)
    ensures QuotesSpec(OpenSpec(a, r).0, bid, ask).equity ==
            QuotesSpec(a, bid, ask).equity - a.feePerLot * AskedVolume(r)
            + if AsksToBuy(r) then Move(bid - a.ask, AskedVolume(r)) else Move(a.bid - ask, AskedVolume(r))
  {
    hide *;
    ValidIsIndexed(a, initial);
    var b, volume := OpenSpec(a, r).0, AskedVolume(r);
    OpeningCosts(a, r, initial);
    OpenKeepsQuotes(a, r);
    ValidIsIndexed(b, initial);
    OpenedVolume(a, r, BUY);
    OpenedVolume(a, r, SELL);
    EquityFollowsMarket(a, initial, bid, ask);
    EquityFollowsMarket(b, initial, bid, ask);
    MoveAdds(bid - a.bid, OpenVolume(BUY, a.ids, a.positions), volume);
    MoveAdds(ask - a.ask, OpenVolume(SELL, a.ids, a.positions), volume);
    MoveFromFill(a.bid, a.ask, bid, ask, volume);
  }

  lemma ValidIsIndexed(a: Account, initial: real)
    requires Valid(a, initial)
    ensures Indexed(a)
  {
  }

  lemma OpeningCosts(a: Account, r: Request, initial: real)
    requires Valid(a, initial) && (AsksToBuy(r) || AsksToSell(r)) && AskedVolume(r) > 0.0
    ensures var b := OpenSpec(a, r).0;
            && Valid(b, initial)
            && b.equity == a.equity - a.feePerLot * AskedVolume(r) - Move(a.ask - a.bid, AskedVolume(r))
  {
    hide OpenSpec, Valid, AsksToBuy, AsksToSell, SideOf;
    SideIsAsked(r);
    OpenKeepsValid(a, r, initial);
    assert VolumeOf(r) == AskedVolume(r);
  }

  lemma OpenKeepsQuotes(a: Account, r: Request)
    requires Indexed(a)
    ensures var b := OpenSpec(a, r).0;
            b.bid == a.bid && b.ask == a.ask && b.feePerLot == a.feePerLot
  {
  }
}
