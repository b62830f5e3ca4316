/** From cleaned bars to the observation discovery reads, and discovery's own check of it. */
module Observations {
  import opened Common
  import opened MarketData

  /** What `to_observation_dict` builds. */
  datatype Observation = Observation(values: seq<Num>, timestamps: Option<seq<string>>)

  datatype Verdict = Accepted | Rejected | TooFew

  predicate HasPrice(b: Bar) {
    b.close.Some? || b.open.Some?
  }

  predicate HasStamp(b: Bar) {
    b.timestamp.Some? && b.timestamp.value != ""
  }

  function Price(b: Bar): Num
    requires HasPrice(b)
  {
    if b.close.Some? then b.close.value else b.open.value
  }

  /** The prices of the bars that have one. */
  function Prices(bars: seq<Bar>): seq<Num> {
    if bars == [] then []
    else
      var n := |bars| - 1;
      Prices(bars[..n]) + if HasPrice(bars[n]) then [Price(bars[n])] else []
  }

  /** The timestamps of the bars that have one that is not empty. */
  function Stamps(bars: seq<Bar>): seq<string> {
    if bars == [] then []
    else
      var n := |bars| - 1;
      Stamps(bars[..n]) + if HasStamp(bars[n]) then [bars[n].timestamp.value] else []
  }

  /** `values()`: None where `float` raises on some price. */
  function ValuesSpec(bars: seq<Bar>): Option<seq<Num>> {
    if NonNumeric in Prices(bars) then None else Some(Prices(bars))
  }

  function ObservationSpec(bars: seq<Bar>): Option<Observation> {
    match ValuesSpec(bars)
    case None => None
    case Some(values) =>
      var ts := Stamps(bars);
      Some(Observation(values, if ts != [] && |ts| == |values| then Some(ts) else None))
  }

  lemma PrefixGrows(bars: seq<Bar>, i: nat)
    requires i < |bars|
    ensures Prices(bars[..i + 1]) == Prices(bars[..i]) + if HasPrice(bars[i]) then [Price(bars[i])] else []
    ensures Stamps(bars[..i + 1]) == Stamps(bars[..i]) + if HasStamp(bars[i]) then [bars[i].timestamp.value] else []
  {
    assert bars[..i + 1][..i] == bars[..i];
  }

  lemma {:induction false} PrefixPrices(bars: seq<Bar>, i: nat)
    requires i <= |bars|
    ensures forall x :: x in Prices(bars[..i]) ==> x in Prices(bars)
    decreases |bars| - i
  {
    if i < |bars| {
      PrefixGrows(bars, i);
      PrefixPrices(bars, i + 1);
    } else {
      assert bars[..i] == bars;
    }
  }

  method Values(bars: seq<Bar>) returns (r: Option<seq<Num>>)
    ensures r == ValuesSpec(bars)
  {
    var out: seq<Num> := [];
    var i := 0;
    while i < |bars|
      invariant i <= |bars|
      invariant out == Prices(bars[..i]) && NonNumeric !in out
    {
      var b := bars[i];
      PrefixGrows(bars, i);
      PrefixPrices(bars, i + 1);
      if b.close.Some? {
        if b.close.value.NonNumeric? {
          assert NonNumeric in Prices(bars[..i + 1]) by {
            assert Prices(bars[..i + 1])[|out|] == NonNumeric;
          }
          return None;
        }
        out := out + [b.close.value];
      } else if b.open.Some? {
        if b.open.value.NonNumeric? {
          assert NonNumeric in Prices(bars[..i + 1]) by {
            assert Prices(bars[..i + 1])[|out|] == NonNumeric;
          }
          return None;
        }
        out := out + [b.open.value];
      }
      i := i + 1;
    }
    assert bars[..i] == bars;
    r := Some(out);
  }

  method Timestamps(bars: seq<Bar>) returns (ts: seq<string>)
    ensures ts == Stamps(bars)
  {
    ts := [];
    for i := 0 to |bars|
      invariant ts == Stamps(bars[..i])
    {
      PrefixGrows(bars, i);
      if HasStamp(bars[i]) {
        ts := ts + [bars[i].timestamp.value];
      }
    }
    assert bars[..|bars|] == bars;
  }

  method ToObservationDict(s: Series) returns (r: Option<Observation>)
    ensures r == ObservationSpec(s.bars)
  {
    var values := Values(s.bars);
    if values.None? {
      return None;
    }
    var ts := Timestamps(s.bars);
    r := Some(Observation(values.value, if ts != [] && |ts| == |values.value| then Some(ts) else None));
  }

  // ---- Discovery's check --------------------------------------------------------------------

  ghost predicate Increasing(ts: seq<string>) {
    forall i, j :: 0 <= i < j < |ts| ==> StrLess(ts[i], ts[j])
  }

  ghost predicate NoneAfter(ts: seq<string>, now: Option<string>) {
    forall i :: 0 <= i < |ts| ==> NotFuture(now, ts[i])
  }

  /** What a series must be, said once and for all pairs of timestamps: the loop compares only neighbours. */
  ghost predicate Sound(values: seq<Option<Num>>, timestamps: Option<seq<string>>, now: Option<string>) {
    && (forall i :: 0 <= i < |values| ==> values[i].Some? && values[i].value.Finite?)
    && (timestamps.Some? ==>
          |timestamps.value| == |values| && Increasing(timestamps.value) && NoneAfter(timestamps.value, now))
  }

  ghost predicate Enough(n: nat, minSamples: int) {
    n > 0 && n >= minSamples
  }

  ghost function Judge(values: Option<seq<Option<Num>>>, timestamps: Option<seq<string>>, minSamples: int,
                       now: Option<string>): Verdict
  {
    if values.None? || !Enough(|values.value|, minSamples) then TooFew
    else if Sound(values.value, timestamps, now) then Accepted
    else Rejected
  }

  /** The three verdicts: too few without values or with fewer than asked for; rejected for a value that is no finite
      number and for timestamps that do not match the values one to one, do not increase or lie after `now`. */
  lemma JudgesExactly(values: seq<Option<Num>>, ts: seq<string>, minSamples: int, now: Option<string>)
    ensures Judge(None, Some(ts), minSamples, now) == TooFew
    ensures Judge(Some(values), Some(ts), minSamples, now) == TooFew <==> values == [] || |values| < minSamples
    ensures Judge(Some(values), None, minSamples, now) == Accepted <==>
            values != [] && |values| >= minSamples && forall v :: v in values ==> v.Some? && v.value.Finite?
    ensures Judge(Some(values), Some(ts), minSamples, now) == Accepted <==>
            && Judge(Some(values), None, minSamples, now) == Accepted
            && |ts| == |values|
            && (forall i :: 0 < i < |ts| ==> StrLess(ts[i - 1], ts[i]))
            && (now.Some? ==> forall t :: t in ts ==> !StrLess(now.value, t))
  {
    hide StrLess, Increasing, NoneAfter;
    NeighboursSuffice(ts);
    NoneAfterExactly(ts, now);
    assert forall i :: 0 <= i < |values| ==> values[i] in values;
  }

  lemma NoneAfterExactly(ts: seq<string>, now: Option<string>)
    ensures NoneAfter(ts, now) <==> (now.Some? ==> forall t :: t in ts ==> !StrLess(now.value, t))
  {
    hide StrLess;
    assert forall i :: 0 <= i < |ts| ==> ts[i] in ts;
  }

  lemma {:induction false} NeighboursSuffice(ts: seq<string>)
    ensures Increasing(ts) <==> forall i :: 0 < i < |ts| ==> StrLess(ts[i - 1], ts[i])
  {
    if |ts| > 1 && forall i :: 0 < i < |ts| ==> StrLess(ts[i - 1], ts[i]) {
      var n := |ts| - 1;
      NeighboursSuffice(ts[..n]);
      forall j | 0 <= j < n ensures StrLess(ts[j], ts[n]) {
        if j < n - 1 {
          assert StrLess(ts[..n][j], ts[..n][n - 1]);
          StrLessTransitive(ts[j], ts[n - 1], ts[n]);
        }
      }
      forall i, j | 0 <= i < j < |ts| ensures StrLess(ts[i], ts[j]) {
        if j < n {
          assert StrLess(ts[..n][i], ts[..n][j]);
        }
      }
    }
  }

  method Assess(values: Option<seq<Option<Num>>>, timestamps: Option<seq<string>>, minSamples: int, now: Option<string>)
    returns (r: Verdict)
    ensures r == Judge(values, timestamps, minSamples, now)
  {
    hide StrLess;
    if values.None? || |values.value| == 0 || |values.value| < minSamples {
      return TooFew;
    }
    for i := 0 to |values.value|
      invariant forall k :: 0 <= k < i ==> values.value[k].Some? && values.value[k].value.Finite?
    {
      var v := values.value[i];
      if v.None? || !v.value.Finite? {
        return Rejected;
      }
    }
    if timestamps.Some? {
      if |timestamps.value| != |values.value| {
        return Rejected;
      }
      var ok := Chronological(timestamps.value);
      if !ok {
        return Rejected;
      }
      if now.Some? {
        ok := Past(timestamps.value, now);
        if !ok {
          return Rejected;
        }
      }
    }
    r := Accepted;
  }

  /** The chronology loop: neighbours suffice. */
  method Chronological(ts: seq<string>) returns (ok: bool)
    ensures ok <==> Increasing(ts)
  {
    hide StrLess;
    if ts == [] {
      return true;
    }
    for i := 1 to |ts|
      invariant forall j, k :: 0 <= j < k < i ==> StrLess(ts[j], ts[k])
    {
      if !StrLess(ts[i - 1], ts[i]) {
        return false;
      }
      forall j | 0 <= j < i ensures StrLess(ts[j], ts[i]) {
        if j < i - 1 {
          StrLessTransitive(ts[j], ts[i - 1], ts[i]);
        }
      }
    }
    ok := true;
  }

  method Past(ts: seq<string>, now: Option<string>) returns (ok: bool)
    ensures ok <==> NoneAfter(ts, now)
  {
    hide StrLess;
    for i := 0 to |ts|
      invariant forall k :: 0 <= k < i ==> NotFuture(now, ts[k])
    {
      if !NotFuture(now, ts[i]) {
        return false;
      }
    }
    ok := true;
  }

  // ---- What ingestion lets through, discovery accepts ---------------------------------------

  function Present(values: seq<Num>): (r: seq<Option<Num>>)
    ensures |r| == |values| && forall i :: 0 <= i < |r| ==> r[i] == Some(values[i])
  {
    seq(|values|, i requires 0 <= i < |values| => Some(values[i]))
  }

  /** Discovery's verdict on a series; none if building its observation raises. */
  ghost function Discovered(bars: seq<Bar>, minSamples: int, now: Option<string>): Option<Verdict> {
    match ObservationSpec(bars)
    case None => None
    case Some(o) => Some(Judge(Some(Present(o.values)), o.timestamps, minSamples, now))
  }

  lemma {:induction false} CleanPricesAreFinite(f: Filter, bars: seq<Bar>)
    requires Clean(f, bars)
    ensures forall x :: x in Prices(bars) ==> x.Finite?
  {
    hide Usable, StrLess, NotFuture;
    if bars != [] {
      var n := |bars| - 1;
      CleanPrefix(f, bars);
      CleanPricesAreFinite(f, bars[..n]);
      assert AllFinite(bars[n]);
    }
  }

  lemma CleanPrefix(f: Filter, bars: seq<Bar>)
    requires Clean(f, bars) && bars != []
    ensures Clean(f, bars[..|bars| - 1])
  {
    hide Admissible, Usable, StrLess;
  }

  ghost predicate Carries(bars: seq<Bar>, ts: string) {
    exists i :: 0 <= i < |bars| && bars[i].timestamp == Some(ts)
  }

  /** The timestamps handed on are those of bars of the series, in order. */
  lemma {:induction false} StampsComeInOrder(f: Filter, bars: seq<Bar>)
    requires Clean(f, bars)
    ensures forall k :: 0 <= k < |Stamps(bars)| ==> Carries(bars, Stamps(bars)[k])
    ensures Increasing(Stamps(bars))
  {
    hide Admissible, Usable, StrLess;
    if bars != [] {
      var n := |bars| - 1;
      var past, ts := Stamps(bars[..n]), Stamps(bars);
      CleanPrefix(f, bars);
      StampsComeInOrder(f, bars[..n]);
      forall k | 0 <= k < |ts| ensures Carries(bars, ts[k]) {
        if k < |past| {
          assert Carries(bars[..n], past[k]);
          var i :| 0 <= i < n && bars[..n][i].timestamp == Some(past[k]);
          assert bars[i].timestamp == Some(ts[k]);
        } else {
          assert bars[n].timestamp == Some(ts[k]);
        }
      }
      forall j, k | 0 <= j < k < |ts| ensures StrLess(ts[j], ts[k]) {
        if k == |past| {
          assert Carries(bars[..n], past[j]);
          var i :| 0 <= i < n && bars[..n][i].timestamp == Some(past[j]);
          assert bars[i].timestamp == Some(ts[j]) && bars[n].timestamp == Some(ts[k]);
        }
      }
    }
  }

  /** Whichever filter cleaned a series, discovery never rejects it for the same `now`: it accepts it exactly if
      enough bars have a price to be read. */
  lemma CleanIsNeverRejected(f: Filter, bars: seq<Bar>, minSamples: int)
    requires Clean(f, bars)
    ensures Discovered(bars, minSamples, f.now) ==
            Some(if Enough(|Prices(bars)|, minSamples) then Accepted else TooFew)
  {
    CleanPricesAreFinite(f, bars);
    StampsComeInOrder(f, bars);
    hide Prices, Stamps, StrLess, Usable;
    var ts := Stamps(bars);
    forall k | 0 <= k < |ts| ensures NotFuture(f.now, ts[k]) {
      assert Carries(bars, ts[k]);
      var i :| 0 <= i < |bars| && bars[i].timestamp == Some(ts[k]);
      assert Admissible(f, bars[i]);
    }
  }

  // ---- Whose timestamp stands beside a value ------------------------------------------------

  /** The positions of the bars that satisfy `p`, in order. */
  function PositionsOf(bars: seq<Bar>, p: Bar -> bool): (r: seq<nat>)
    ensures forall k :: 0 <= k < |r| ==> r[k] < |bars|
    ensures |r| <= |bars|
  {
    if bars == [] then []
    else
      var n := |bars| - 1;
      PositionsOf(bars[..n], p) + if p(bars[n]) then [n] else []
  }

  /** Where the values of the observation come from. */
  function PricedAt(bars: seq<Bar>): seq<nat> {
    PositionsOf(bars, HasPrice)
  }

  /** Where its timestamps come from. */
  function StampedAt(bars: seq<Bar>): seq<nat> {
    PositionsOf(bars, HasStamp)
  }

  lemma {:induction false} PositionsAreExact(bars: seq<Bar>, p: Bar -> bool, i: nat)
    ensures i in PositionsOf(bars, p) <==> i < |bars| && p(bars[i])
  {
    if bars != [] {
      var n := |bars| - 1;
      PositionsAreExact(bars[..n], p, i);
      assert i < n ==> bars[..n][i] == bars[i];
    }
  }

  lemma {:induction false} SamePositions(bars: seq<Bar>, p: Bar -> bool, q: Bar -> bool)
    requires forall i :: 0 <= i < |bars| ==> p(bars[i]) == q(bars[i])
    ensures PositionsOf(bars, p) == PositionsOf(bars, q)
  {
    if bars != [] {
      SamePositions(bars[..|bars| - 1], p, q);
    }
  }

  lemma {:induction false} AllPositions(bars: seq<Bar>, p: Bar -> bool)
    ensures |PositionsOf(bars, p)| == |bars| <==> forall i :: 0 <= i < |bars| ==> p(bars[i])
    ensures |PositionsOf(bars, p)| == |bars| ==> forall k :: 0 <= k < |bars| ==> PositionsOf(bars, p)[k] == k
  {
    if bars != [] {
      var n := |bars| - 1;
      AllPositions(bars[..n], p);
      assert forall i :: 0 <= i < n ==> bars[..n][i] == bars[i];
    }
  }

  lemma PositionsGrow(past: seq<Bar>, b: Bar, p: Bar -> bool)
    ensures PositionsOf(past + [b], p) == PositionsOf(past, p) + if p(b) then [|past|] else []
  {
    assert (past + [b])[..|past|] == past;
  }

  lemma ObservedGrow(past: seq<Bar>, b: Bar)
    ensures Prices(past + [b]) == Prices(past) + if HasPrice(b) then [Price(b)] else []
    ensures Stamps(past + [b]) == Stamps(past) + if HasStamp(b) then [b.timestamp.value] else []
  {
    assert (past + [b])[..|past|] == past;
  }

  lemma {:induction false} PricesComeFrom(bars: seq<Bar>)
    ensures |Prices(bars)| == |PricedAt(bars)|
    ensures forall k :: 0 <= k < |PricedAt(bars)| ==>
              HasPrice(bars[PricedAt(bars)[k]]) && Prices(bars)[k] == Price(bars[PricedAt(bars)[k]])
  {
    if bars == [] {
      assert Prices(bars) == [] && PricedAt(bars) == [];
    } else {
      var past, b := bars[..|bars| - 1], bars[|bars| - 1];
      PricesComeFrom(past);
      hide Prices, PositionsOf;
      ObservedGrow(past, b);
      PositionsGrow(past, b, HasPrice);
      assert bars == past + [b];
      assert forall i :: 0 <= i < |past| ==> past[i] == bars[i];
    }
  }

  lemma {:induction false} StampsComeFrom(bars: seq<Bar>)
    ensures |Stamps(bars)| == |StampedAt(bars)|
    ensures forall k :: 0 <= k < |StampedAt(bars)| ==>
              HasStamp(bars[StampedAt(bars)[k]]) && Stamps(bars)[k] == bars[StampedAt(bars)[k]].timestamp.value
  {
    if bars == [] {
      assert Stamps(bars) == [] && StampedAt(bars) == [];
    } else {
      var past, b := bars[..|bars| - 1], bars[|bars| - 1];
      StampsComeFrom(past);
      hide Stamps, PositionsOf;
      ObservedGrow(past, b);
      PositionsGrow(past, b, HasStamp);
      assert bars == past + [b];
      assert forall i :: 0 <= i < |past| ==> past[i] == bars[i];
    }
  }

  /** Every value stands beside the timestamp of its own bar. */
  predicate OwnTimestamps(bars: seq<Bar>) {
    PricedAt(bars) == StampedAt(bars)
  }

  /** That is so exactly if every bar that has one of price and timestamp has both: something to check of the bars
      before they are handed on. Equal counts, which is what the code checks, are not enough. */
  lemma OwnTimestampsExactly(bars: seq<Bar>)
    ensures OwnTimestamps(bars) <==> forall i :: 0 <= i < |bars| ==> (HasPrice(bars[i]) <==> HasStamp(bars[i]))
  {
    if OwnTimestamps(bars) {
      forall i | 0 <= i < |bars| ensures HasPrice(bars[i]) <==> HasStamp(bars[i]) {
        PositionsAreExact(bars, HasPrice, i);
        PositionsAreExact(bars, HasStamp, i);
      }
    }
    if forall i :: 0 <= i < |bars| ==> (HasPrice(bars[i]) <==> HasStamp(bars[i])) {
      SamePositions(bars, HasPrice, HasStamp);
    }
  }

  /** Where no bar lacks a price, or no bar lacks a timestamp, equal counts are enough. */
  lemma EqualCountsSuffice(bars: seq<Bar>)
    requires || (forall i :: 0 <= i < |bars| ==> HasPrice(bars[i]))
             || (forall i :: 0 <= i < |bars| ==> HasStamp(bars[i]))
    requires |Prices(bars)| == |Stamps(bars)|
    ensures OwnTimestamps(bars)
  {
    PricesComeFrom(bars);
    StampsComeFrom(bars);
    AllPositions(bars, HasPrice);
    AllPositions(bars, HasStamp);
    OwnTimestampsExactly(bars);
  }

  /** So timestamps attached after the integrity filter belong to their own values when it requires zoned timestamps,
      and after `validate_series` always. */
  lemma AttachedAreOwn(f: Filter, bars: seq<Bar>)
    requires Clean(f, bars) && (f.Validation? || f.requireAware)
    requires ObservationSpec(bars).Some? && ObservationSpec(bars).value.timestamps.Some?
    ensures OwnTimestamps(bars)
  {
    hide Prices, Stamps, StrLess, OhlcOk, NotFuture, AllFinite;
    forall i | 0 <= i < |bars| ensures if f.Validation? then HasPrice(bars[i]) else HasStamp(bars[i]) {
      assert Admissible(f, bars[i]) && Usable(f, bars[i]);
    }
    EqualCountsSuffice(bars);
  }

  /** Where every bar has a price, value and bar correspond one to one, and timestamps are attached exactly if
      every bar has one, each to its own bar. */
  lemma ValuesAlign(bars: seq<Bar>)
    requires forall i :: 0 <= i < |bars| ==> HasPrice(bars[i])
    ensures |Prices(bars)| == |bars| >= |Stamps(bars)|
    ensures forall i :: 0 <= i < |bars| ==> Prices(bars)[i] == Price(bars[i])
    ensures |Stamps(bars)| == |bars| <==> forall i :: 0 <= i < |bars| ==> HasStamp(bars[i])
    ensures |Stamps(bars)| == |bars| ==> forall i :: 0 <= i < |bars| ==> bars[i].timestamp == Some(Stamps(bars)[i])
  {
    PricesComeFrom(bars);
    StampsComeFrom(bars);
    AllPositions(bars, HasPrice);
    AllPositions(bars, HasStamp);
    hide Prices, Stamps;
    forall i | 0 <= i < |bars| ensures Prices(bars)[i] == Price(bars[i]) {
      assert PricedAt(bars)[i] == i;
    }
    if |Stamps(bars)| == |bars| {
      forall i | 0 <= i < |bars| ensures bars[i].timestamp == Some(Stamps(bars)[i]) {
        assert StampedAt(bars)[i] == i;
      }
    }
  }

  /** What `validate_series` calls VALID, discovery accepts, given enough bars for its own minimum: one value a bar,
      and timestamps exactly if every bar has one, each beside the value of its own bar. */
  lemma AcceptedByDiscovery(s: Series, now: Option<string>, minBars: int, maxAge: Option<real>, minSamples: int)
    requires ValidateSpec(s, now, minBars, maxAge).quality == VALID
    requires |ValidateSpec(s, now, minBars, maxAge).bars| >= minSamples
    ensures var bars := ValidateSpec(s, now, minBars, maxAge).bars;
            && Discovered(bars, minSamples, now) == Some(Accepted)
            && var o := ObservationSpec(bars).value;
            && |o.values| == |bars|
            && (forall i :: 0 <= i < |bars| ==>
                  && HasPrice(bars[i])
                  && o.values[i] == if bars[i].close.Some? then bars[i].close.value else bars[i].open.value)
            && (o.timestamps.Some? <==> forall i :: 0 <= i < |bars| ==> bars[i].timestamp !in {None, Some("")})
            && (o.timestamps.Some? ==> forall i :: 0 <= i < |bars| ==> bars[i].timestamp == Some(o.timestamps.value[i]))
  {
    var f := Validation(now);
    var bars := ValidateSpec(s, now, minBars, maxAge).bars;
    KeptIsClean(f, s.bars);
    CleanIsNeverRejected(f, bars, minSamples);
    hide Prices, Stamps, Kept, Judge, Admissible, StrLess;
    forall i | 0 <= i < |bars| ensures HasPrice(bars[i]) {
      assert Usable(f, bars[i]);
    }
    ValuesAlign(bars);
  }

  /** Without that requirement, which is how ingestion calls it by default, the integrity filter does not see to it:
      a bar with only a high or a low is VALID there but has no price to read, so equal counts can pair its timestamp
      with another bar's price. */
  lemma IntegrityCanMisalign(high: real, close: real, ts: string)
    requires ts != ""
    ensures var silent := Bar("EURUSD", Some(ts), None, Some(Finite(high)), None, None, None);
            var undated := Bar("EURUSD", None, None, None, None, Some(Finite(close)), None);
            && Clean(Integrity(None, false), [silent, undated])
            && ObservationSpec([silent, undated]) == Some(Observation([Finite(close)], Some([ts])))
            && !OwnTimestamps([silent, undated])
  {
    var silent := Bar("EURUSD", Some(ts), None, Some(Finite(high)), None, None, None);
    var undated := Bar("EURUSD", None, None, None, None, Some(Finite(close)), None);
    var bars := [silent, undated];
    assert bars[..0] == [] && bars[..2] == bars;
    PrefixGrows(bars, 0);
    PrefixGrows(bars, 1);
    assert Prices(bars) == [Finite(close)] && Stamps(bars) == [ts];
    OwnTimestampsExactly(bars);
    assert HasStamp(bars[0]) && !HasPrice(bars[0]);
    assert Clean(Integrity(None, false), bars) by { hide StrLess, Prices, Stamps; }
  }
}
