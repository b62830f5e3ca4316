/** The simulated account of the virtual execution provider: positions, fills, fees, marks and the idempotency map.
    Prices and money are exact reals. */
module VirtualBroker {
  import opened Common

  /** Identifiers come from a counter that stands for `uuid4`: a new one was never used before. */
  type Id = nat

  const LOT: real := 100_000.0
  const DEFAULT_VOLUME: real := 0.01

  datatype Side = BUY | SELL
  datatype Status = OPEN | CLOSED
  datatype Action = NO_ACTION | OBSERVE_ONLY | OPEN_POSITION | CLOSE_POSITION | MODIFY_POSITION

  datatype Position = Position(
    symbol: string,
    side: Side,
    volume: real,
    entryPrice: real,
    currentPrice: real,
    sl: Option<real>,
    tp: Option<real>,
    unrealizedPnl: real,
    status: Status,
    exitPrice: Option<real>,
    pnl: Option<real>,
    ticket: Id)

  datatype Request = Request(
    requestId: string,
    decisionId: string,
    action: Action,
    symbol: Option<string>,
    volume: Option<real>,
    side: Option<string>,
    sl: Option<real>,
    tp: Option<real>,
    positionId: Option<Id>)

  datatype Result = Result(
    requestId: string,
    decisionId: string,
    success: bool,
    executed: Action,
    orderId: Option<Id>,
    positionId: Option<Id>,
    fillPrice: Option<real>,
    volume: Option<real>,
    fees: real,
    message: string,
    isDuplicate: bool,
    pnl: Option<real>)

  datatype LogEntry =
    | Opened(positionId: Id, requestId: string)
    | Closed(positionId: Id, requestId: string, pnl: real)

  /** `ids` lists the keys of `positions` in the order they were inserted, as a Python dict does. */
  datatype Account = Account(
    balance: real,
    equity: real,
    bid: real,
    ask: real,
    feePerLot: real,
    defaultSymbol: string,
    ids: seq<Id>,
    positions: map<Id, Position>,
    seen: map<string, Result>,
    tradeLog: seq<LogEntry>,
    nextId: Id)

  function Fresh(balance: real, symbol: string, bid: real, ask: real, feePerLot: real): Account {
    Account(balance, balance, bid, ask, feePerLot, symbol, [], map[], map[], [], 0)
  }

  // ---- Sums over the book ------------------------------------------------------------------

  function Mark(side: Side, bid: real, ask: real): real {
    if side.BUY? then bid else ask
  }

  function Profit(side: Side, entry: real, price: real, volume: real): real {
    if side.BUY? then (price - entry) * volume * LOT else (entry - price) * volume * LOT
  }

  /** What a position contributes to a total. */
  datatype Measure =
    | Volume
    | OpeningFee(feePerLot: real)
    | Realised(feePerLot: real)
    | Unrealised(bid: real, ask: real)

  function Worth(m: Measure, p: Position): real {
    match m
    case Volume => p.volume
    case OpeningFee(fee) => fee * p.volume
    case Realised(fee) => if p.status.CLOSED? && p.pnl.Some? then p.pnl.value - fee * p.volume else 0.0
    case Unrealised(bid, ask) =>
      if p.status.OPEN? then Profit(p.side, p.entryPrice, Mark(p.side, bid, ask), p.volume) else 0.0
  }

  function Sum(m: Measure, ids: seq<Id>, positions: map<Id, Position>): real
    requires forall id :: id in ids ==> id in positions
  {
    if ids == [] then 0.0
    else Sum(m, ids[..|ids| - 1], positions) + Worth(m, positions[ids[|ids| - 1]])
  }

  lemma {:induction false} SumUnaffected(m: Measure, ids: seq<Id>, a: map<Id, Position>, b: map<Id, Position>)
    requires forall id :: id in ids ==> id in a && id in b && Worth(m, a[id]) == Worth(m, b[id])
    ensures Sum(m, ids, a) == Sum(m, ids, b)
  {
    if ids != [] {
      SumUnaffected(m, ids[..|ids| - 1], a, b);
    }
  }

  lemma SumAppend(m: Measure, ids: seq<Id>, positions: map<Id, Position>, id: Id, p: Position)
    requires forall k :: k in ids ==> k in positions
    requires id !in ids
    ensures Sum(m, ids + [id], positions[id := p]) == Sum(m, ids, positions) + Worth(m, p)
  {
    assert (ids + [id])[..|ids|] == ids;
    SumUnaffected(m, ids, positions, positions[id := p]);
  }

  lemma {:induction false} SumUpdate(m: Measure, ids: seq<Id>, positions: map<Id, Position>, id: Id, p: Position)
    requires forall k :: k in ids ==> k in positions
    requires Distinct(ids) && id in ids
    ensures Sum(m, ids, positions[id := p]) == Sum(m, ids, positions) - Worth(m, positions[id]) + Worth(m, p)
  {
    var init, last := ids[..|ids| - 1], ids[|ids| - 1];
    if id == last {
      SumUnaffected(m, init, positions, positions[id := p]);
    } else {
      SumUpdate(m, init, positions, id, p);
    }
  }

  lemma {:induction false} FeesAreProportional(fee: real, ids: seq<Id>, positions: map<Id, Position>)
    requires forall id :: id in ids ==> id in positions
    ensures Sum(OpeningFee(fee), ids, positions) == fee * Sum(Volume, ids, positions)
  {
    if ids != [] {
      FeesAreProportional(fee, ids[..|ids| - 1], positions);
    }
  }

  lemma SumStep(bid: real, ask: real, ids: seq<Id>, i: nat, positions: map<Id, Position>)
    requires i < |ids| && forall id :: id in ids ==> id in positions
    ensures var p := positions[ids[i]];
            Sum(Unrealised(bid, ask), ids[..i + 1], positions) ==
            Sum(Unrealised(bid, ask), ids[..i], positions) +
            (if p.status.OPEN? then Profit(p.side, p.entryPrice, Mark(p.side, bid, ask), p.volume) else 0.0)
  {
    assert ids[..i + 1][..i] == ids[..i];
  }

  // ---- The operations on values ------------------------------------------------------------

  function Remark(p: Position, bid: real, ask: real): Position {
    if p.status.CLOSED? then p
    else
      var mark := Mark(p.side, bid, ask);
      p.(currentPrice := mark, unrealizedPnl := Profit(p.side, p.entryPrice, mark, p.volume))
  }

  function RemarkAll(positions: map<Id, Position>, bid: real, ask: real): map<Id, Position> {
    map id | id in positions :: Remark(positions[id], bid, ask)
  }

  function Recalc(a: Account): Account
    requires Indexed(a)
  {
    a.(positions := RemarkAll(a.positions, a.bid, a.ask),
       equity := a.balance + Sum(Unrealised(a.bid, a.ask), a.ids, a.positions))
  }

  function Refusal(r: Request, message: string): Result {
    Result(r.requestId, r.decisionId, false, NO_ACTION, None, None, None, None, 0.0, message, false, None)
  }

  function VolumeOf(r: Request): real {
    if r.volume.None? || r.volume.value == 0.0 then DEFAULT_VOLUME else r.volume.value
  }

  function SideOf(r: Request): Option<Side> {
    var side := Upper(if r.side.None? || r.side.value == "" then "BUY" else r.side.value);
    if side == "BUY" then Some(BUY) else if side == "SELL" then Some(SELL) else None
  }

  function SymbolOf(a: Account, r: Request): string {
    if r.symbol.None? || r.symbol.value == "" then a.defaultSymbol else r.symbol.value
  }

  ghost predicate Indexed(a: Account) {
    && Distinct(a.ids)
    && (forall id :: id in a.ids <==> id in a.positions)
    && (forall id :: id in a.ids ==> id < a.nextId)
  }

  lemma IndexedAfterOpening(a: Account, p: Position)
    requires Indexed(a)
    ensures Indexed(a.(ids := a.ids + [a.nextId], positions := a.positions[a.nextId := p], nextId := a.nextId + 2))
  {
    assert a.nextId !in a.ids;
  }

  function NewPosition(a: Account, r: Request, side: Side): Position {
    var fill := if side.BUY? then a.ask else a.bid;
    Position(SymbolOf(a, r), side, VolumeOf(r), fill, fill, r.sl, r.tp, 0.0, OPEN, None, None, a.nextId + 1)
  }

  /** A position enters the book under the next id and its fee is charged. */
  function Entered(a: Account, p: Position): Account {
    a.(ids := a.ids + [a.nextId],
       positions := a.positions[a.nextId := p],
       balance := a.balance - a.feePerLot * p.volume,
       nextId := a.nextId + 2)
  }

  lemma EnteredIsIndexed(a: Account, p: Position)
    requires Indexed(a)
    ensures Indexed(Entered(a, p))
  {
    IndexedAfterOpening(a, p);
  }

  /** Then the book is recalculated and the trade logged. */
  function PlaceSpec(a: Account, p: Position, requestId: string): Account
    requires Indexed(a)
  {
    EnteredIsIndexed(a, p);
    Recalc(Entered(a, p)).(tradeLog := a.tradeLog + [Opened(a.nextId, requestId)])
  }

  function OpenSpec(a: Account, r: Request): (out: (Account, Result))
    requires Indexed(a)
  {
    if SideOf(r).None? then (a, Refusal(r, "virtual: invalid side"))
    else if VolumeOf(r) <= 0.0 then (a, Refusal(r, "virtual: volume must be > 0"))
    else
      var p := NewPosition(a, r, SideOf(r).value);
      (PlaceSpec(a, p, r.requestId),
       Result(r.requestId, r.decisionId, true, OPEN_POSITION, Some(p.ticket), Some(a.nextId),
              Some(p.entryPrice), Some(p.volume), a.feePerLot * p.volume, "virtual: opened", false, None))
  }

  predicate HoldsOpen(a: Account, id: Option<Id>) {
    id.Some? && id.value in a.positions && a.positions[id.value].status.OPEN?
  }

  function CloseSpec(a: Account, r: Request): (Account, Result)
    requires Indexed(a)
  {
    if r.positionId.None? || r.positionId.value !in a.positions then
      (a, Refusal(r, "virtual: position not found"))
    else if a.positions[r.positionId.value].status.CLOSED? then
      (a, Refusal(r, "virtual: position already closed"))
    else
      var id := r.positionId.value;
      var p := a.positions[id];
      var fill := Mark(p.side, a.bid, a.ask);
      var pnl := Profit(p.side, p.entryPrice, fill, p.volume);
      var fees := a.feePerLot * p.volume;
      var settled := a.(balance := a.balance + (pnl - fees),
                        positions := a.positions[
                          id := p.(status := CLOSED, exitPrice := Some(fill), pnl := Some(pnl))]);
      (Recalc(settled).(tradeLog := a.tradeLog + [Closed(id, r.requestId, pnl)]),
       Result(r.requestId, r.decisionId, true, CLOSE_POSITION, None, Some(id),
              Some(fill), Some(p.volume), fees, "virtual: closed", false, Some(pnl)))
  }

  function ModifySpec(a: Account, r: Request): (Account, Result) {
    if r.positionId.None? || r.positionId.value !in a.positions then
      (a, Refusal(r, "virtual: position not found"))
    else if a.positions[r.positionId.value].status.CLOSED? then
      (a, Refusal(r, "virtual: position not open"))
    else
      var id := r.positionId.value;
      var p := a.positions[id];
      var q := p.(sl := if r.sl.Some? then r.sl else p.sl, tp := if r.tp.Some? then r.tp else p.tp);
      (a.(positions := a.positions[id := q]),
       Result(r.requestId, r.decisionId, true, MODIFY_POSITION, None, Some(id),
              None, None, 0.0, "virtual: modified", false, None))
  }

  function ExecuteSpec(a: Account, r: Request): (Account, Result)
    requires Indexed(a)
  {
    match r.action
    case OPEN_POSITION => OpenSpec(a, r)
    case CLOSE_POSITION => CloseSpec(a, r)
    case MODIFY_POSITION => ModifySpec(a, r)
    case _ =>
      (a, Result(r.requestId, r.decisionId, true, r.action, None, None, None, None, 0.0, "virtual: no-op", false, None))
  }

  function SubmitSpec(a: Account, r: Request): (Account, Result)
    requires Indexed(a)
  {
    if r.requestId in a.seen then (a, a.seen[r.requestId].(isDuplicate := true))
    else
      var (b, result) := ExecuteSpec(a, r);
      (b.(seen := b.seen[r.requestId := result]), result)
  }

  function QuotesSpec(a: Account, bid: real, ask: real): Account
    requires Indexed(a)
  {
    Recalc(a.(bid := bid, ask := ask))
  }

  lemma SumOfNone(m: Measure, positions: map<Id, Position>)
    ensures Sum(m, [], positions) == 0.0
  {
  }

  lemma RemarkByCases(p: Position, bid: real, ask: real)
    ensures p.status.CLOSED? ==> Remark(p, bid, ask) == p
    ensures p.status.OPEN? ==>
              var mark := Mark(p.side, bid, ask);
              Remark(p, bid, ask) ==
              p.(currentPrice := mark, unrealizedPnl := Profit(p.side, p.entryPrice, mark, p.volume))
  {
  }

  lemma RemarkedAll(ids: seq<Id>, before: map<Id, Position>, after: map<Id, Position>, bid: real, ask: real)
    requires forall id :: id in ids <==> id in before
    requires after.Keys == before.Keys
    requires forall j :: 0 <= j < |ids| ==> after[ids[j]] == Remark(before[ids[j]], bid, ask)
    ensures after == RemarkAll(before, bid, ask)
  {
    forall id | id in before ensures after[id] == Remark(before[id], bid, ask) {
      assert id in ids;
    }
  }

  // ---- The provider ------------------------------------------------------------------------

  class VirtualExecutionProvider {
    var balance: real
    var equity: real
    var bid: real
    var ask: real
    const feePerLot: real
    const defaultSymbol: string
    var ids: seq<Id>
    var positions: map<Id, Position>
    var seen: map<string, Result>
    var tradeLog: seq<LogEntry>
    var nextId: Id

    ghost function Model(): Account
      reads this
    {
      Account(balance, equity, bid, ask, feePerLot, defaultSymbol, ids, positions, seen, tradeLog, nextId)
    }

    constructor (initialBalance: real, defaultSymbol: string, bid: real, ask: real, feePerLot: real)
      ensures Model() == Fresh(initialBalance, defaultSymbol, bid, ask, feePerLot)
    {
      balance, equity := initialBalance, initialBalance;
      this.defaultSymbol, this.bid, this.ask, this.feePerLot := defaultSymbol, bid, ask, feePerLot;
      ids, positions, seen, tradeLog, nextId := [], map[], map[], [], 0;
    }

    method RecalcEquity()
      requires Indexed(Model())
      modifies this`equity, this`positions
      ensures Model() == Recalc(old(Model()))
    {
      hide Profit, Worth, Sum, Mark, Remark, RemarkAll;
      var unrealized := 0.0;
      ghost var before := positions;
      SumOfNone(Unrealised(bid, ask), positions);
      var i := 0;
      while i < |ids|
        invariant i <= |ids|
        invariant positions.Keys == before.Keys
        invariant forall j :: 0 <= j < i ==> positions[ids[j]] == Remark(before[ids[j]], bid, ask)
        invariant forall j :: i <= j < |ids| ==> positions[ids[j]] == before[ids[j]]
        invariant unrealized == Sum(Unrealised(bid, ask), ids[..i], before)
        invariant equity == old(equity)
      {
        var id := ids[i];
        var p := positions[id];
        SumStep(bid, ask, ids, i, before);
        RemarkByCases(p, bid, ask);
        if p.status.OPEN? {
          var mark := Mark(p.side, bid, ask);
          var profit := Profit(p.side, p.entryPrice, mark, p.volume);
          unrealized := unrealized + profit;
          positions := positions[id := p.(currentPrice := mark, unrealizedPnl := profit)];
        }
        i := i + 1;
      }
      assert ids[..i] == ids;
      RemarkedAll(ids, before, positions, bid, ask);
      equity := balance + unrealized;
    }

    method SetQuotes(bid: real, ask: real)
      requires Indexed(Model())
      modifies this
      ensures Model() == QuotesSpec(old(Model()), bid, ask)
    {
      this.bid := bid;
      this.ask := ask;
      RecalcEquity();
    }

    method Open(r: Request) returns (result: Result)
      requires Indexed(Model())
      modifies this
      ensures Model() == OpenSpec(old(Model()), r).0
      ensures result == OpenSpec(old(Model()), r).1
    {
      hide PlaceSpec, Upper, SideOf, VolumeOf;
      var symbol := if r.symbol.None? || r.symbol.value == "" then defaultSymbol else r.symbol.value;
      var volume := VolumeOf(r);
      if SideOf(r).None? {
        return Refusal(r, "virtual: invalid side");
      }
      if volume <= 0.0 {
        return Refusal(r, "virtual: volume must be > 0");
      }
      var side := SideOf(r).value;
      var fill := if side.BUY? then ask else bid;
      var fees := feePerLot * volume;
      var positionId, orderId := nextId, nextId + 1;
      var p := Position(symbol, side, volume, fill, fill, r.sl, r.tp, 0.0, OPEN, None, None, orderId);
      assert p == NewPosition(old(Model()), r, side);
      Place(p, fees, r.requestId);
      result := Result(r.requestId, r.decisionId, true, OPEN_POSITION, Some(orderId), Some(positionId),
                       Some(fill), Some(volume), fees, "virtual: opened", false, None);
    }

    method Place(p: Position, fees: real, requestId: string)
      requires Indexed(Model()) && fees == feePerLot * p.volume
      modifies this
      ensures Model() == PlaceSpec(old(Model()), p, requestId)
    {
      ghost var entered := Entered(Model(), p);
      EnteredIsIndexed(Model(), p);
      var positionId := nextId;
      nextId := nextId + 2;
      ids := ids + [positionId];
      positions := positions[positionId := p];
      balance := balance - fees;
      assert Model() == entered;
      hide Recalc, Entered;
      RecalcEquity();
      assert Model() == Recalc(entered);
      tradeLog := tradeLog + [Opened(positionId, requestId)];
      assert Model() == Recalc(entered).(tradeLog := tradeLog);
    }

    method Close(r: Request) returns (result: Result)
      requires Indexed(Model())
      modifies this
      ensures Model() == CloseSpec(old(Model()), r).0
      ensures result == CloseSpec(old(Model()), r).1
    {
      if r.positionId.None? || r.positionId.value !in positions {
        return Refusal(r, "virtual: position not found");
      }
      var id := r.positionId.value;
      var p := positions[id];
      if p.status != OPEN {
        return Refusal(r, "virtual: position already closed");
      }
      var fill := Mark(p.side, bid, ask);
      var pnl := Profit(p.side, p.entryPrice, fill, p.volume);
      var fees := feePerLot * p.volume;
      balance := balance + (pnl - fees);
      positions := positions[id := p.(status := CLOSED, exitPrice := Some(fill), pnl := Some(pnl))];
      ghost var settled := Model();
      assert settled == old(Model()).(balance := settled.balance, positions := settled.positions);
      RecalcEquity();
      assert Model() == Recalc(settled);
      tradeLog := tradeLog + [Closed(id, r.requestId, pnl)];
      result := Result(r.requestId, r.decisionId, true, CLOSE_POSITION, None, Some(id),
                       Some(fill), Some(p.volume), fees, "virtual: closed", false, Some(pnl));
    }

    method Modify(r: Request) returns (result: Result)
      modifies this`positions
      ensures (Model(), result) == ModifySpec(old(Model()), r)
    {
      if r.positionId.None? || r.positionId.value !in positions {
        return Refusal(r, "virtual: position not found");
      }
      var id := r.positionId.value;
      var p := positions[id];
      if p.status != OPEN {
        return Refusal(r, "virtual: position not open");
      }
      if r.sl.Some? {
        p := p.(sl := r.sl);
      }
      if r.tp.Some? {
        p := p.(tp := r.tp);
      }
      positions := positions[id := p];
      result := Result(r.requestId, r.decisionId, true, MODIFY_POSITION, None, Some(id),
                       None, None, 0.0, "virtual: modified", false, None);
    }

    method Submit(r: Request) returns (result: Result)
      requires Indexed(Model())
      modifies this
      ensures (Model(), result) == SubmitSpec(old(Model()), r)
    {
      if r.requestId in seen {
        return seen[r.requestId].(isDuplicate := true);
      }
      match r.action {
        case OPEN_POSITION => result := Open(r);
        case CLOSE_POSITION => result := Close(r);
        case MODIFY_POSITION => result := Modify(r);
        case _ =>
          result := Result(r.requestId, r.decisionId, true, r.action, None, None, None, None, 0.0,
                           "virtual: no-op", false, None);
      }
      seen := seen[r.requestId := result];
    }
  }
}
