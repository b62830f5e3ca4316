/** Conservation, trade-log and replay laws of the simulated account, over every run. */
module VirtualBrokerLaws {
  import opened Common
  import opened VirtualBroker

  predicate OpenedAt(log: seq<LogEntry>, i: int, id: Id) {
    0 <= i < |log| && log[i].Opened? && log[i].positionId == id
  }

  predicate ClosedAt(log: seq<LogEntry>, i: int, id: Id) {
    0 <= i < |log| && log[i].Closed? && log[i].positionId == id
  }

  /** What holds of a position at any time: a closed one carries the profit between its two fills. */
  ghost predicate Sound(p: Position) {
    && p.volume > 0.0
    && (p.status.OPEN? ==> p.pnl.None? && p.exitPrice.None?)
    && (p.status.CLOSED? ==>
          p.exitPrice.Some? && p.pnl == Some(Profit(p.side, p.entryPrice, p.exitPrice.value, p.volume)))
  }

  /** An open position shows the current quotes. */
  ghost predicate Marked(p: Position, bid: real, ask: real) {
    p.status.OPEN? ==>
      && p.currentPrice == Mark(p.side, bid, ask)
      && p.unrealizedPnl == Profit(p.side, p.entryPrice, p.currentPrice, p.volume)
  }

  ghost predicate AllSound(positions: map<Id, Position>) {
    forall id :: id in positions ==> Sound(positions[id])
  }

  ghost predicate AllMarked(positions: map<Id, Position>, bid: real, ask: real) {
    forall id :: id in positions ==> Marked(positions[id], bid, ask)
  }

  /** Every position was opened by exactly one log entry and closed by at most one, later. */
  ghost predicate LogOk(log: seq<LogEntry>, positions: map<Id, Position>) {
    && (forall i, j, id :: OpenedAt(log, i, id) && OpenedAt(log, j, id) ==> i == j)
    && (forall i, j, id :: ClosedAt(log, i, id) && ClosedAt(log, j, id) ==> i == j)
    && (forall i, id :: OpenedAt(log, i, id) ==> id in positions)
    && (forall id :: id in positions ==> exists i :: OpenedAt(log, i, id))
    && (forall j, id :: ClosedAt(log, j, id) ==>
          id in positions && positions[id].status.CLOSED? && positions[id].pnl == Some(log[j].pnl))
    && (forall id :: id in positions && positions[id].status.CLOSED? ==> exists j :: ClosedAt(log, j, id))
    && (forall i, j, id :: OpenedAt(log, i, id) && ClosedAt(log, j, id) ==> i < j)
  }

  ghost predicate BalanceExplained(a: Account, initial: real)
    requires Indexed(a)
  {
    a.balance == initial - a.feePerLot * Sum(Volume, a.ids, a.positions)
                         + Sum(Realised(a.feePerLot), a.ids, a.positions)
  }

  ghost predicate EquityExplained(a: Account)
    requires Indexed(a)
  {
    a.equity == a.balance + Sum(Unrealised(a.bid, a.ask), a.ids, a.positions)
  }

  ghost predicate ValidButMarks(a: Account, initial: real) {
    Indexed(a) && AllSound(a.positions) && LogOk(a.tradeLog, a.positions) && BalanceExplained(a, initial)
  }

  ghost predicate Valid(a: Account, initial: real) {
    ValidButMarks(a, initial) && AllMarked(a.positions, a.bid, a.ask) && EquityExplained(a)
  }

  lemma FreshIsValid(balance: real, symbol: string, bid: real, ask: real, feePerLot: real)
    ensures Valid(Fresh(balance, symbol, bid, ask, feePerLot), balance)
  {
  }

  // ---- Recalculation changes marks only -----------------------------------------------------

  lemma RemarkKeepsSums(a: Account, m: Measure)
    requires Indexed(a)
    ensures Sum(m, a.ids, RemarkAll(a.positions, a.bid, a.ask)) == Sum(m, a.ids, a.positions)
  {
    hide Profit;
    SumUnaffected(m, a.ids, RemarkAll(a.positions, a.bid, a.ask), a.positions);
  }

  lemma RemarkMarks(positions: map<Id, Position>, bid: real, ask: real)
    requires AllSound(positions)
    ensures AllSound(RemarkAll(positions, bid, ask)) && AllMarked(RemarkAll(positions, bid, ask), bid, ask)
  {
    hide Profit;
  }

  /** Before a recalculation only the marks and the equity may be out of date. */
  lemma RecalcRestores(a: Account, initial: real)
    requires ValidButMarks(a, initial)
    ensures Valid(Recalc(a), initial)
  {
    hide Sum, Worth, Profit, AllSound, AllMarked, LogOk, Remark;
    RemarkKeepsSums(a, Volume);
    RemarkKeepsSums(a, Realised(a.feePerLot));
    RemarkKeepsSums(a, Unrealised(a.bid, a.ask));
    RemarkMarks(a.positions, a.bid, a.ask);
    RemarkKeepsLog(a.tradeLog, a.positions, a.bid, a.ask);
  }

  lemma RemarkKeepsLog(log: seq<LogEntry>, positions: map<Id, Position>, bid: real, ask: real)
    requires LogOk(log, positions)
    ensures LogOk(log, RemarkAll(positions, bid, ask))
  {
    hide Profit;
    LogSeesStatusOnly(log, positions, RemarkAll(positions, bid, ask));
  }

  lemma LogSeesStatusOnly(log: seq<LogEntry>, before: map<Id, Position>, after: map<Id, Position>)
    requires LogOk(log, before) && before.Keys == after.Keys
    requires forall id :: id in before ==> after[id].status == before[id].status && after[id].pnl == before[id].pnl
    ensures LogOk(log, after)
  {
    hide OpenedAt, ClosedAt;
    assert forall id :: id in after <==> id in before;
  }

  /** Equity is never out of date: recalculating a reachable account changes nothing. */
  lemma RecalcIsIdle(a: Account, initial: real)
    requires Valid(a, initial)
    ensures Recalc(a) == a
  {
    hide Sum, Profit, LogOk;
    forall id | id in a.positions ensures Remark(a.positions[id], a.bid, a.ask) == a.positions[id] {
      assert Marked(a.positions[id], a.bid, a.ask);
    }
    assert RemarkAll(a.positions, a.bid, a.ask) == a.positions;
  }

  lemma QuotesKeepValid(a: Account, initial: real, bid: real, ask: real)
    requires Valid(a, initial)
    ensures Valid(QuotesSpec(a, bid, ask), initial)
  {
    hide Sum, LogOk, AllSound;
    RecalcRestores(a.(bid := bid, ask := ask), initial);
  }

  // ---- Opening ------------------------------------------------------------------------------

  lemma LogOpened(log: seq<LogEntry>, positions: map<Id, Position>, id: Id, p: Position, requestId: string)
    requires LogOk(log, positions) && id !in positions && p.status.OPEN?
    ensures LogOk(log + [Opened(id, requestId)], positions[id := p])
  {
    var after := log + [Opened(id, requestId)];
    assert forall i, k :: OpenedAt(after, i, k) <==> OpenedAt(log, i, k) || (i == |log| && k == id);
    assert forall i, k :: ClosedAt(after, i, k) <==> ClosedAt(log, i, k);
    var book := positions[id := p];
    forall k | k in book ensures exists i :: OpenedAt(after, i, k) {
      if k == id {
        assert OpenedAt(after, |log|, k);
      } else {
        var i :| OpenedAt(log, i, k);
        assert OpenedAt(after, i, k);
      }
    }
    forall k | k in positions && positions[k].status.CLOSED? ensures exists j :: ClosedAt(after, j, k) {
      var j :| ClosedAt(log, j, k);
      assert ClosedAt(after, j, k);
    }
  }

  ghost predicate Opens(a: Account, r: Request) {
    SideOf(r).Some? && VolumeOf(r) > 0.0
  }

  function Placed(a: Account, r: Request): Account
    requires SideOf(r).Some?
  {
    Entered(a, NewPosition(a, r, SideOf(r).value)).(tradeLog := a.tradeLog + [Opened(a.nextId, r.requestId)])
  }

  lemma OpenIsPlaceThenRecalc(a: Account, r: Request)
    requires Indexed(a) && Opens(a, r)
    ensures Indexed(Placed(a, r)) && OpenSpec(a, r).0 == Recalc(Placed(a, r)) && OpenSpec(a, r).1.success
  {
    hide Sum, Profit, SideOf, VolumeOf, RemarkAll;
    IndexedAfterOpening(a, NewPosition(a, r, SideOf(r).value));
  }

  lemma PlacedSums(a: Account, r: Request, initial: real)
    requires Valid(a, initial) && Opens(a, r) && Indexed(Placed(a, r))
    ensures BalanceExplained(Placed(a, r), initial)
    ensures var b := Placed(a, r);
            b.balance + Sum(Unrealised(b.bid, b.ask), b.ids, b.positions) ==
            a.equity - a.feePerLot * VolumeOf(r) - (a.ask - a.bid) * VolumeOf(r) * LOT
  {
    hide Sum, LogOk, AllSound, AllMarked, SideOf, VolumeOf, Profit;
    var p := NewPosition(a, r, SideOf(r).value);
    assert a.nextId !in a.ids;
    SumAppend(Volume, a.ids, a.positions, a.nextId, p);
    SumAppend(Realised(a.feePerLot), a.ids, a.positions, a.nextId, p);
    SumAppend(Unrealised(a.bid, a.ask), a.ids, a.positions, a.nextId, p);
    SpreadCost(p, a.bid, a.ask);
    Distribute(a.feePerLot, Sum(Volume, a.ids, a.positions), p.volume);
  }

  lemma Distribute(x: real, y: real, z: real)
    ensures x * (y + z) == x * y + x * z
  {
  }

  lemma SpreadCost(p: Position, bid: real, ask: real)
    requires p.status.OPEN? && p.entryPrice == if p.side.BUY? then ask else bid
    ensures Worth(Unrealised(bid, ask), p) == -((ask - bid) * p.volume * LOT)
  {
    assert (bid - ask) * p.volume == -((ask - bid) * p.volume);
  }

  /** An opening costs exactly its fee and the spread; it keeps every law of the book. */
  lemma OpenKeepsValid(a: Account, r: Request, initial: real)
    requires Valid(a, initial)
    ensures Valid(OpenSpec(a, r).0, initial)
    ensures OpenSpec(a, r).1.success <==> Opens(a, r)
    ensures Opens(a, r) ==>
              OpenSpec(a, r).0.equity ==
              a.equity - a.feePerLot * VolumeOf(r) - (a.ask - a.bid) * VolumeOf(r) * LOT
    ensures !Opens(a, r) ==> OpenSpec(a, r).0 == a
  {
    hide Sum, LogOk, SideOf, VolumeOf, Profit, BalanceExplained;
    if Opens(a, r) {
      OpenIsPlaceThenRecalc(a, r);
      PlacedSums(a, r, initial);
      LogOpened(a.tradeLog, a.positions, a.nextId, NewPosition(a, r, SideOf(r).value), r.requestId);
      RecalcRestores(Placed(a, r), initial);
    }
  }

  // ---- Closing ------------------------------------------------------------------------------

  lemma LogClosed(log: seq<LogEntry>, positions: map<Id, Position>, id: Id, p: Position, requestId: string, pnl: real)
    requires LogOk(log, positions) && id in positions && positions[id].status.OPEN?
    requires p.status.CLOSED? && p.pnl == Some(pnl)
    ensures LogOk(log + [Closed(id, requestId, pnl)], positions[id := p])
  {
    var after := log + [Closed(id, requestId, pnl)];
    assert forall i, k :: OpenedAt(after, i, k) <==> OpenedAt(log, i, k);
    assert forall j, k :: ClosedAt(after, j, k) <==> ClosedAt(log, j, k) || (j == |log| && k == id);
    forall k | k in positions ensures exists i :: OpenedAt(after, i, k) {
      var i :| OpenedAt(log, i, k);
      assert OpenedAt(after, i, k);
    }
    forall k | k in positions && positions[id := p][k].status.CLOSED? ensures exists j :: ClosedAt(after, j, k) {
      if k == id {
        assert ClosedAt(after, |log|, k);
      } else {
        var j :| ClosedAt(log, j, k);
        assert ClosedAt(after, j, k);
      }
    }
  }

  function Settled(a: Account, r: Request): Account
    requires HoldsOpen(a, r.positionId)
  {
    var id := r.positionId.value;
    var p := a.positions[id];
    var fill := Mark(p.side, a.bid, a.ask);
    var pnl := Profit(p.side, p.entryPrice, fill, p.volume);
    a.(balance := a.balance + (pnl - a.feePerLot * p.volume),
       positions := a.positions[id := p.(status := CLOSED, exitPrice := Some(fill), pnl := Some(pnl))],
       tradeLog := a.tradeLog + [Closed(id, r.requestId, pnl)])
  }

  lemma SettledSums(a: Account, r: Request, initial: real)
    requires Valid(a, initial) && HoldsOpen(a, r.positionId)
    ensures Indexed(Settled(a, r)) && BalanceExplained(Settled(a, r), initial)
    ensures var b := Settled(a, r);
            b.balance + Sum(Unrealised(b.bid, b.ask), b.ids, b.positions) ==
            a.equity - a.feePerLot * a.positions[r.positionId.value].volume
  {
    hide Sum, LogOk, AllSound, AllMarked, Profit;
    var id := r.positionId.value;
    var q := Settled(a, r).positions[id];
    SumUpdate(Volume, a.ids, a.positions, id, q);
    SumUpdate(Realised(a.feePerLot), a.ids, a.positions, id, q);
    SumUpdate(Unrealised(a.bid, a.ask), a.ids, a.positions, id, q);
  }

  lemma CloseIsSettleThenRecalc(a: Account, r: Request)
    requires Indexed(a) && HoldsOpen(a, r.positionId)
    ensures Indexed(Settled(a, r)) && CloseSpec(a, r).0 == Recalc(Settled(a, r)) && CloseSpec(a, r).1.success
    ensures CloseSpec(a, r).1.pnl == Settled(a, r).positions[r.positionId.value].pnl
    ensures var b := Settled(a, r);
            CloseSpec(a, r).0.equity == b.balance + Sum(Unrealised(b.bid, b.ask), b.ids, b.positions)
  {
    hide Sum, Profit, RemarkAll;
  }

  /** A closing costs exactly its fee: the profit it books was already in the equity. */
  lemma CloseKeepsValid(a: Account, r: Request, initial: real)
    requires Valid(a, initial)
    ensures Valid(CloseSpec(a, r).0, initial)
    ensures CloseSpec(a, r).1.success <==> HoldsOpen(a, r.positionId)
    ensures HoldsOpen(a, r.positionId) ==>
              && CloseSpec(a, r).0.equity == a.equity - a.feePerLot * a.positions[r.positionId.value].volume
              && CloseSpec(a, r).1.pnl == Some(a.positions[r.positionId.value].unrealizedPnl)
    ensures !HoldsOpen(a, r.positionId) ==> CloseSpec(a, r).0 == a
  {
    hide Sum, LogOk, Profit, BalanceExplained, Recalc;
    if HoldsOpen(a, r.positionId) {
      var b := Settled(a, r);
      var id := r.positionId.value;
      SettledSums(a, r, initial);
      CloseIsSettleThenRecalc(a, r);
      assert Marked(a.positions[id], a.bid, a.ask);
      LogClosed(a.tradeLog, a.positions, id, b.positions[id], r.requestId, b.positions[id].pnl.value);
      RecalcRestores(b, initial);
    }
  }

  lemma ModifyKeepsValid(a: Account, r: Request, initial: real)
    requires Valid(a, initial)
    ensures Valid(ModifySpec(a, r).0, initial)
    ensures ModifySpec(a, r).0.equity == a.equity && ModifySpec(a, r).0.balance == a.balance
  {
    hide Sum, LogOk, Profit;
    if HoldsOpen(a, r.positionId) {
      var id := r.positionId.value;
      var q := ModifySpec(a, r).0.positions[id];
      SumUpdate(Volume, a.ids, a.positions, id, q);
      SumUpdate(Realised(a.feePerLot), a.ids, a.positions, id, q);
      SumUpdate(Unrealised(a.bid, a.ask), a.ids, a.positions, id, q);
      LogSeesStatusOnly(a.tradeLog, a.positions, a.positions[id := q]);
    }
  }

  // ---- Runs ---------------------------------------------------------------------------------

  datatype Op = Submit(request: Request) | SetQuotes(bid: real, ask: real)

  function Step(a: Account, op: Op): Account
    requires Indexed(a)
  {
    match op
    case Submit(r) => SubmitSpec(a, r).0
    case SetQuotes(bid, ask) => QuotesSpec(a, bid, ask)
  }

  lemma FeeIsKept(a: Account, op: Op)
    requires Indexed(a)
    ensures Step(a, op).feePerLot == a.feePerLot
  {
    hide Sum, Profit, RemarkAll, SideOf, VolumeOf;
  }

  lemma ExecuteKeepsValid(a: Account, r: Request, initial: real)
    requires Valid(a, initial)
    ensures Valid(ExecuteSpec(a, r).0, initial)
  {
    hide OpenSpec, CloseSpec, ModifySpec, Valid;
    OpenKeepsValid(a, r, initial);
    CloseKeepsValid(a, r, initial);
    ModifyKeepsValid(a, r, initial);
  }

  lemma SeenIsNotMoney(a: Account, seen: map<string, Result>, initial: real)
    requires Valid(a, initial)
    ensures Valid(a.(seen := seen), initial)
  {
    hide Sum, LogOk, AllSound, AllMarked;
  }

  lemma StepKeepsValid(a: Account, op: Op, initial: real)
    requires Valid(a, initial)
    ensures Valid(Step(a, op), initial)
    ensures Step(a, op).feePerLot == a.feePerLot
  {
    FeeIsKept(a, op);
    hide ExecuteSpec, QuotesSpec, Valid;
    match op {
      case Submit(r) =>
        ExecuteKeepsValid(a, r, initial);
        SeenIsNotMoney(ExecuteSpec(a, r).0, SubmitSpec(a, r).0.seen, initial);
      case SetQuotes(bid, ask) =>
        QuotesKeepValid(a, initial, bid, ask);
    }
  }

  lemma StepKeepsIndexed(a: Account, op: Op)
    requires Indexed(a)
    ensures Indexed(Step(a, op))
  {
    hide Sum, Profit, SideOf, VolumeOf, Remark;
    if op.Submit? && Opens(a, op.request) {
      IndexedAfterOpening(a, NewPosition(a, op.request, SideOf(op.request).value));
    }
  }

  function Run(a: Account, ops: seq<Op>): (b: Account)
    requires Indexed(a)
    ensures Indexed(b)
    decreases |ops|
  {
    if ops == [] then a
    else
      StepKeepsIndexed(a, ops[0]);
      Run(Step(a, ops[0]), ops[1..])
  }

  /** Conservation over every run: where the balance went, what the equity is, and a log that matches the book. */
  lemma {:induction false} RunsConserve(a: Account, ops: seq<Op>, initial: real)
    requires Valid(a, initial)
    ensures Valid(Run(a, ops), initial)
    decreases |ops|
  {
    if ops != [] {
      StepKeepsValid(a, ops[0], initial);
      RunsConserve(Step(a, ops[0]), ops[1..], initial);
    }
  }

  lemma AccountsConserve(balance: real, symbol: string, bid: real, ask: real, feePerLot: real, ops: seq<Op>)
    ensures var a := Run(Fresh(balance, symbol, bid, ask, feePerLot), ops);
            && a.feePerLot == feePerLot
            && a.balance == balance - feePerLot * Sum(Volume, a.ids, a.positions)
                                    + Sum(Realised(feePerLot), a.ids, a.positions)
            && a.equity == a.balance + Sum(Unrealised(a.bid, a.ask), a.ids, a.positions)
            && LogOk(a.tradeLog, a.positions)
            && Recalc(a) == a
  {
    hide Sum, LogOk, Recalc, Run, AllSound, AllMarked;
    var start := Fresh(balance, symbol, bid, ask, feePerLot);
    FreshIsValid(balance, symbol, bid, ask, feePerLot);
    RunsConserve(start, ops, balance);
    FeeIsFixed(start, ops);
    RecalcIsIdle(Run(start, ops), balance);
  }

  lemma {:induction false} FeeIsFixed(a: Account, ops: seq<Op>)
    requires Indexed(a)
    ensures Run(a, ops).feePerLot == a.feePerLot
    decreases |ops|
  {
    if ops != [] {
      StepKeepsIndexed(a, ops[0]);
      FeeIsKept(a, ops[0]);
      FeeIsFixed(Step(a, ops[0]), ops[1..]);
    }
  }

  // ---- Replays ------------------------------------------------------------------------------

  /** The run without the submits whose request id is in `known` or occurred earlier, even with another payload. */
  function WithoutRepeats(ops: seq<Op>, known: set<string>): seq<Op> {
    if ops == [] then []
    else match ops[0]
      case SetQuotes(_, _) => [ops[0]] + WithoutRepeats(ops[1..], known)
      case Submit(r) =>
        if r.requestId in known then WithoutRepeats(ops[1..], known)
        else [ops[0]] + WithoutRepeats(ops[1..], known + {r.requestId})
  }

  lemma SeenAfterStep(a: Account, op: Op)
    requires Indexed(a)
    ensures Step(a, op).seen.Keys == a.seen.Keys + (if op.Submit? then {op.request.requestId} else {})
    ensures forall id :: id in a.seen ==> Step(a, op).seen[id] == a.seen[id]
  {
  }

  /** Replayed requests are invisible: dropping them leaves the final account, in every field, the same. */
  lemma {:induction false} ReplaysAreInvisible(a: Account, ops: seq<Op>)
    requires Indexed(a)
    ensures Run(a, ops) == Run(a, WithoutRepeats(ops, a.seen.Keys))
    decreases |ops|
  {
    if ops != [] {
      var b := Step(a, ops[0]);
      StepKeepsIndexed(a, ops[0]);
      SeenAfterStep(a, ops[0]);
      ReplaysAreInvisible(b, ops[1..]);
      if ops[0].Submit? && ops[0].request.requestId in a.seen {
        assert b.seen.Keys == a.seen.Keys;
      } else {
        var kept := WithoutRepeats(ops[1..], b.seen.Keys);
        assert WithoutRepeats(ops, a.seen.Keys) == [ops[0]] + kept;
        assert ([ops[0]] + kept)[1..] == kept;
      }
    }
  }

  lemma {:induction false} AnswersAreKept(a: Account, ops: seq<Op>, id: string)
    requires Indexed(a) && id in a.seen
    ensures id in Run(a, ops).seen && Run(a, ops).seen[id] == a.seen[id]
    decreases |ops|
  {
    if ops != [] {
      StepKeepsIndexed(a, ops[0]);
      SeenAfterStep(a, ops[0]);
      AnswersAreKept(Step(a, ops[0]), ops[1..], id);
    }
  }

  /** However much happens in between, a repeated request id gets the fields of the first answer,
      marked as a duplicate, and changes nothing. */
  lemma RepeatGetsFirstAnswer(a: Account, first: Request, between: seq<Op>, again: Request)
    requires Indexed(a) && first.requestId == again.requestId && first.requestId !in a.seen
    ensures Indexed(SubmitSpec(a, first).0)
    ensures var later := Run(SubmitSpec(a, first).0, between);
            SubmitSpec(later, again) == (later, SubmitSpec(a, first).1.(isDuplicate := true))
  {
    StepKeepsIndexed(a, Submit(first));
    SeenAfterStep(a, Submit(first));
    AnswersAreKept(SubmitSpec(a, first).0, between, first.requestId);
  }
}
