/** Market bars and the two filters that clean a series, as spec functions and as the loops of the source.
    Timestamps are compared as strings. */
module MarketData {
  import opened Common

  /** A field's value: a finite number, NaN or an infinity, or something `float` refuses. */
  datatype Num = Finite(x: real) | NanOrInf | NonNumeric

  datatype Bar = Bar(
    symbol: string,
    timestamp: Option<string>,
    open: Option<Num>,
    high: Option<Num>,
    low: Option<Num>,
    close: Option<Num>,
    volume: Option<Num>)

  datatype Quality = VALID | INVALID | INSUFFICIENT | UNKNOWN

  datatype Series = Series(symbol: string, bars: seq<Bar>, quality: Quality)

  predicate FiniteOrAbsent(v: Option<Num>) {
    v.None? || v.value.Finite?
  }

  predicate AllFinite(b: Bar) {
    && FiniteOrAbsent(b.open) && FiniteOrAbsent(b.high) && FiniteOrAbsent(b.low)
    && FiniteOrAbsent(b.close) && FiniteOrAbsent(b.volume)
  }

  /** `a < b` where both are present. */
  predicate Below(a: Option<Num>, b: Option<Num>) {
    a.Some? && b.Some? && a.value.Finite? && b.value.Finite? && a.value.x < b.value.x
  }

  /** OHLC consistency of one bar. */
  predicate OhlcOk(b: Bar) {
    && AllFinite(b)
    && !Below(b.high, b.low) && !Below(b.high, b.open) && !Below(b.high, b.close)
    && !Below(b.open, b.low) && !Below(b.close, b.low)
    && !Below(b.volume, Some(Finite(0.0)))
    && (b.open.Some? || b.high.Some? || b.low.Some? || b.close.Some?)
  }

  /** An explicit zone: a trailing Z, or an offset +HH:MM or +HHMM. */
  predicate IsAware(ts: string) {
    var n := |ts|;
    n > 0 &&
    ( || ts[n - 1] in {'Z', 'z'}
      || (n >= 6 && ts[n - 6] in {'+', '-'} && ts[n - 3] == ':')
      || (n >= 5 && ts[n - 5] in {'+', '-'} && ts[n - 3] != ':'))
  }

  /** Of a bar with all its fields: the high is the highest price and the low the lowest, and the volume is not
      negative. A missing field is not compared, but one price there must be. */
  lemma OhlcExactly(symbol: string, ts: Option<string>, o: real, h: real, l: real, c: real, v: real)
    ensures OhlcOk(Bar(symbol, ts, Some(Finite(o)), Some(Finite(h)), Some(Finite(l)), Some(Finite(c)), Some(Finite(v))))
            <==> l <= o <= h && l <= c <= h && v >= 0.0
    ensures OhlcOk(Bar(symbol, ts, None, Some(Finite(h)), Some(Finite(l)), None, None)) <==> l <= h
    ensures OhlcOk(Bar(symbol, ts, None, None, None, Some(Finite(c)), None))
    ensures !OhlcOk(Bar(symbol, ts, None, None, None, None, Some(Finite(v))))
    ensures forall x: Num :: !x.Finite? ==> !OhlcOk(Bar(symbol, ts, Some(Finite(o)), None, None, Some(x), None))
  {
  }

  /** Which texts count as zoned, by their last characters, whatever stands before: a Z, or a sign with four digits
      behind, with or without a colon between them. A clock time without a zone is not. */
  lemma ZonedExactly(text: string, a: char, b: char, c: char, d: char)
    ensures IsAware(text + "Z") && IsAware(text + "z")
    ensures IsAware(text + ['+', a, b, ':', c, d]) && IsAware(text + ['-', a, b, ':', c, d])
    ensures b != ':' ==> IsAware(text + ['+', a, b, c, d]) && IsAware(text + ['-', a, b, c, d])
    ensures d !in {'Z', 'z'} ==> !IsAware(text + [a, b, ':', c, d, ':', c, d])
    ensures !IsAware("")
  {
    var clock := text + [a, b, ':', c, d, ':', c, d];
    assert clock[|clock| - 1] == d && clock[|clock| - 6] == ':' && clock[|clock| - 5] == c;
  }

  /** The two filters with their settings. */
  datatype Filter =
    | Validation(now: Option<string>)
    | Integrity(now: Option<string>, requireAware: bool)

  predicate NotFuture(now: Option<string>, ts: string) {
    now.None? || !StrLess(now.value, ts)
  }

  /** The checks a bar must pass before its place in time is looked at. */
  predicate Admissible(f: Filter, b: Bar) {
    && (b.timestamp.Some? ==> NotFuture(f.now, b.timestamp.value))
    && match f
       case Validation(_) => AllFinite(b)
       case Integrity(_, requireAware) =>
         OhlcOk(b) && (requireAware ==> b.timestamp.Some? && IsAware(b.timestamp.value))
  }

  /** The check after it: `validate_series` wants a close or an open, but only once the bar has moved the clock on. */
  predicate Usable(f: Filter, b: Bar) {
    f.Validation? ==> b.close.Some? || b.open.Some?
  }

  predicate Later(mark: Option<string>, b: Bar) {
    b.timestamp.None? || mark.None? || StrLess(mark.value, b.timestamp.value)
  }

  /** `prev_ts` after these bars. */
  function Clock(f: Filter, bars: seq<Bar>): Option<string> {
    if bars == [] then None
    else
      var past, b := Clock(f, bars[..|bars| - 1]), bars[|bars| - 1];
      if Admissible(f, b) && Later(past, b) && b.timestamp.Some? then b.timestamp else past
  }

  /** The positions of the bars that are kept. */
  function KeptAt(f: Filter, bars: seq<Bar>): (r: seq<nat>)
    ensures forall k :: 0 <= k < |r| ==> r[k] < |bars|
    ensures forall j, k :: 0 <= j < k < |r| ==> r[j] < r[k]
  {
    if bars == [] then []
    else
      var n := |bars| - 1;
      KeptAt(f, bars[..n])
      + if Admissible(f, bars[n]) && Later(Clock(f, bars[..n]), bars[n]) && Usable(f, bars[n]) then [n] else []
  }

  function Pick(bars: seq<Bar>, at: seq<nat>): (r: seq<Bar>)
    requires forall k :: 0 <= k < |at| ==> at[k] < |bars|
    ensures |r| == |at| && forall k :: 0 <= k < |r| ==> r[k] == bars[at[k]]
  {
    seq(|at|, k requires 0 <= k < |at| => bars[at[k]])
  }

  /** What the filter returns: a subsequence of its input. */
  function Kept(f: Filter, bars: seq<Bar>): (r: seq<Bar>) {
    Pick(bars, KeptAt(f, bars))
  }

  lemma KeptGrows(f: Filter, bars: seq<Bar>, b: Bar)
    ensures Kept(f, bars + [b]) == Kept(f, bars)
              + if Admissible(f, b) && Later(Clock(f, bars), b) && Usable(f, b) then [b] else []
    ensures Clock(f, bars + [b]) ==
            if Admissible(f, b) && Later(Clock(f, bars), b) && b.timestamp.Some? then b.timestamp else Clock(f, bars)
  {
    hide Admissible, Later, Usable;
    assert (bars + [b])[..|bars|] == bars;
  }

  // ---- What the filters guarantee -----------------------------------------------------------

  /** The clock is the greatest timestamp among the admissible bars seen, kept or not. */
  lemma {:induction false} ClockIsGreatest(f: Filter, bars: seq<Bar>, b: Bar)
    ensures Later(Clock(f, bars), b) <==>
            (b.timestamp.None? ||
             forall j :: 0 <= j < |bars| && Admissible(f, bars[j]) && bars[j].timestamp.Some? ==>
               StrLess(bars[j].timestamp.value, b.timestamp.value))
  {
    hide Admissible;
    if bars != [] && b.timestamp.Some? {
      var past, last := bars[..|bars| - 1], bars[|bars| - 1];
      ClockIsGreatest(f, past, b);
      ClockIsGreatest(f, past, last);
      if Admissible(f, last) && last.timestamp.Some? {
        var mark := Clock(f, past);
        if mark.Some? {
          ClockOrders(mark.value, last.timestamp.value, b.timestamp.value);
        }
      }
      assert forall j :: 0 <= j < |past| ==> bars[j] == past[j];
    }
  }

  lemma ClockOrders(mark: string, last: string, ts: string)
    ensures StrLess(mark, last) && StrLess(last, ts) ==> StrLess(mark, ts)
    ensures !StrLess(mark, last) && StrLess(mark, ts) ==> StrLess(last, ts)
  {
    if StrLess(mark, last) && StrLess(last, ts) {
      StrLessTransitive(mark, last, ts);
    }
    if !StrLess(mark, last) && StrLess(mark, ts) {
      StrLessTotal(mark, last);
      if last != mark {
        StrLessTransitive(last, mark, ts);
      }
    }
  }

  /** The bars a filter keeps, without reference to its loop: those that pass their own checks and whose timestamp, if
      any, is later than that of every admissible bar before them. */
  lemma {:induction false} KeptExactly(f: Filter, bars: seq<Bar>, i: nat)
    requires i < |bars|
    ensures i in KeptAt(f, bars) <==>
            && Admissible(f, bars[i]) && Usable(f, bars[i])
            && (bars[i].timestamp.Some? ==>
                  forall j :: 0 <= j < i && Admissible(f, bars[j]) && bars[j].timestamp.Some? ==>
                    StrLess(bars[j].timestamp.value, bars[i].timestamp.value))
  {
    hide Admissible, Usable, StrLess;
    var past, b := bars[..|bars| - 1], bars[|bars| - 1];
    LastPosition(f, bars, i);
    if i < |past| {
      KeptExactly(f, past, i);
    } else {
      hide Later, Clock;
      ClockIsGreatest(f, past, b);
      assert forall j :: 0 <= j < i ==> past[j] == bars[j];
    }
  }

  lemma LastPosition(f: Filter, bars: seq<Bar>, i: nat)
    requires i < |bars|
    ensures var n := |bars| - 1;
            i in KeptAt(f, bars) <==>
            if i < n then i in KeptAt(f, bars[..n])
            else Admissible(f, bars[n]) && Usable(f, bars[n]) && Later(Clock(f, bars[..n]), bars[n])
  {
    hide Admissible, Usable, Later, Clock;
  }

  /** A clean series: every bar passes its checks and the present timestamps strictly increase. */
  ghost predicate Clean(f: Filter, bars: seq<Bar>) {
    && (forall i :: 0 <= i < |bars| ==> Admissible(f, bars[i]) && Usable(f, bars[i]))
    && (forall i, j :: 0 <= i < j < |bars| && bars[i].timestamp.Some? && bars[j].timestamp.Some? ==>
          StrLess(bars[i].timestamp.value, bars[j].timestamp.value))
  }

  lemma KeptIsClean(f: Filter, bars: seq<Bar>)
    ensures Clean(f, Kept(f, bars))
  {
    var at, out := KeptAt(f, bars), Kept(f, bars);
    forall k | 0 <= k < |out| ensures Admissible(f, out[k]) && Usable(f, out[k]) {
      assert at[k] in at;
      KeptExactly(f, bars, at[k]);
    }
    forall j, k | 0 <= j < k < |out| && out[j].timestamp.Some? && out[k].timestamp.Some?
      ensures StrLess(out[j].timestamp.value, out[k].timestamp.value)
    {
      assert at[k] in at;
      KeptExactly(f, bars, at[k]);
      assert Admissible(f, bars[at[j]]);
    }
  }

  /** The filter changes nothing exactly when there was nothing to clean. */
  lemma KeepsAllExactlyIfClean(f: Filter, bars: seq<Bar>)
    ensures Kept(f, bars) == bars <==> Clean(f, bars)
  {
    if Clean(f, bars) {
      CleanIsKept(f, bars);
    } else {
      KeptIsClean(f, bars);
    }
  }

  lemma {:induction false} CleanIsKept(f: Filter, bars: seq<Bar>)
    requires Clean(f, bars)
    ensures Kept(f, bars) == bars
  {
    if bars != [] {
      var past, b := bars[..|bars| - 1], bars[|bars| - 1];
      assert bars == past + [b];
      CleanIsKept(f, past) by { assert Clean(f, past) by { hide Admissible, Usable, StrLess; } }
      CleanIsOnTime(f, past, b);
      hide *;
      KeptGrows(f, past, b);
    }
  }

  lemma CleanIsOnTime(f: Filter, past: seq<Bar>, b: Bar)
    requires Clean(f, past + [b])
    ensures Admissible(f, b) && Usable(f, b) && Later(Clock(f, past), b)
  {
    hide Admissible, Usable, StrLess, Clock, Later;
    var bars := past + [b];
    assert bars[|past|] == b;
    forall j | 0 <= j < |past| && Admissible(f, past[j]) && past[j].timestamp.Some? && b.timestamp.Some?
      ensures StrLess(past[j].timestamp.value, b.timestamp.value)
    {
      assert bars[j] == past[j];
    }
    ClockIsGreatest(f, past, b);
  }

  /** Filtering again with the same settings keeps every bar. */
  lemma FilteringIsIdempotent(f: Filter, bars: seq<Bar>)
    ensures Kept(f, Kept(f, bars)) == Kept(f, bars)
  {
    KeptIsClean(f, bars);
    KeepsAllExactlyIfClean(f, Kept(f, bars));
  }

  /** What makes `validate_series` drop a good bar: an earlier bar with a timestamp as late as its own, whether or not
      that bar had a price and was itself kept. So a priceless bar hides an earlier-stamped priced bar after it. */
  lemma PricelessBarsShadow(now: Option<string>, priceless: Bar, good: Bar)
    requires AllFinite(priceless) && priceless.close.None? && priceless.open.None? && priceless.timestamp.Some?
    requires AllFinite(good) && good.close.Some? && good.timestamp.Some?
    requires NotFuture(now, priceless.timestamp.value) && NotFuture(now, good.timestamp.value)
    ensures Kept(Validation(now), [good]) == [good]
    ensures Kept(Validation(now), [priceless, good]) ==
            if StrLess(priceless.timestamp.value, good.timestamp.value) then [good] else []
  {
    var f := Validation(now);
    TimedIsAdmissible(now, priceless);
    TimedIsAdmissible(now, good);
    hide *;
    EmptyIsKept(f);
    OneBar(f, priceless);
    OneBar(f, good);
    KeptGrows(f, [priceless], good);
    assert [priceless] + [good] == [priceless, good];
    assert Later(Some(priceless.timestamp.value), good) == StrLess(priceless.timestamp.value, good.timestamp.value) by {
      LaterThan(priceless.timestamp.value, good);
    }
  }

  lemma TimedIsAdmissible(now: Option<string>, b: Bar)
    requires AllFinite(b) && b.timestamp.Some? && NotFuture(now, b.timestamp.value)
    ensures Admissible(Validation(now), b) && (Usable(Validation(now), b) <==> b.close.Some? || b.open.Some?)
  {
    hide AllFinite, NotFuture, StrLess;
  }

  lemma LaterThan(mark: string, b: Bar)
    requires b.timestamp.Some?
    ensures Later(Some(mark), b) == StrLess(mark, b.timestamp.value)
  {
    hide StrLess;
  }

  lemma OneBar(f: Filter, b: Bar)
    requires Admissible(f, b)
    ensures Kept(f, [b]) == if Usable(f, b) then [b] else []
    ensures Clock(f, [b]) == b.timestamp
  {
    hide Admissible, Usable, Kept;
    KeptGrows(f, [], b);
    EmptyIsKept(f);
    assert [] + [b] == [b];
  }

  lemma EmptyIsKept(f: Filter)
    ensures Kept(f, []) == [] && Clock(f, []) == None
  {
  }

  // ---- Quality ------------------------------------------------------------------------------

  /** The branch of `validate_series` for a last bar after `now`. */
  predicate FutureLastBar(bars: seq<Bar>, now: Option<string>) {
    && bars != [] && bars[|bars| - 1].timestamp.Some? && now.Some?
    && bars[|bars| - 1].timestamp.value != "" && now.value != ""
    && |bars[|bars| - 1].timestamp.value| == |now.value| && StrLess(now.value, bars[|bars| - 1].timestamp.value)
  }

  function ValidateSpec(s: Series, now: Option<string>, minBars: int, maxAge: Option<real>): Series {
    var clean := Kept(Validation(now), s.bars);
    if s.bars == [] then Series(s.symbol, [], INSUFFICIENT)
    else if clean == [] then Series(s.symbol, [], INVALID)
    else if |clean| < minBars then Series(s.symbol, clean, INSUFFICIENT)
    else if maxAge.Some? && clean[|clean| - 1].timestamp.None? then Series(s.symbol, clean, UNKNOWN)
    else if maxAge.Some? && FutureLastBar(clean, now) then Series(s.symbol, clean, INVALID)
    else Series(s.symbol, clean, VALID)
  }

  /** No series ever takes the future-last-bar branch: the loop has dropped such bars. */
  lemma FutureLastBarIsDead(bars: seq<Bar>, now: Option<string>)
    ensures !FutureLastBar(Kept(Validation(now), bars), now)
  {
    KeptIsClean(Validation(now), bars);
  }

  function IntegritySpec(s: Series, now: Option<string>, requireAware: bool, minBars: int): Series {
    var clean := Kept(Integrity(now, requireAware), s.bars);
    if s.bars == [] then Series(s.symbol, [], INSUFFICIENT)
    else if clean == [] then Series(s.symbol, [], INVALID)
    else if |clean| < minBars then Series(s.symbol, clean, INSUFFICIENT)
    else Series(s.symbol, clean, VALID)
  }

  /** The verdict of either filter: insufficient without bars, or with some but fewer kept than asked for; invalid if
      there were bars and none was kept; unknown only if an age was asked for and the last kept bar has no timestamp;
      valid otherwise. The bars are those kept, whatever the verdict. */
  lemma QualityExactly(s: Series, now: Option<string>, requireAware: bool, minBars: int, maxAge: Option<real>)
    ensures var kept, r := Kept(Validation(now), s.bars), ValidateSpec(s, now, minBars, maxAge);
            && r.bars == kept && r.symbol == s.symbol
            && (r.quality.INSUFFICIENT? <==> s.bars == [] || 0 < |kept| < minBars)
            && (r.quality.INVALID? <==> s.bars != [] && kept == [])
            && (r.quality.UNKNOWN? <==>
                  kept != [] && |kept| >= minBars && maxAge.Some? && kept[|kept| - 1].timestamp.None?)
    ensures var kept, r := Kept(Integrity(now, requireAware), s.bars), IntegritySpec(s, now, requireAware, minBars);
            && r.bars == kept && r.symbol == s.symbol
            && (r.quality.INSUFFICIENT? <==> s.bars == [] || 0 < |kept| < minBars)
            && (r.quality.INVALID? <==> s.bars != [] && kept == [])
            && (r.quality.VALID? <==> kept != [] && |kept| >= minBars)
  {
    FutureLastBarIsDead(s.bars, now);
    EmptyIsKept(Validation(now));
    EmptyIsKept(Integrity(now, requireAware));
    hide Kept, FutureLastBar;
  }

  method ValidateSeries(s: Series, now: Option<string>, minBars: int, maxAge: Option<real>) returns (r: Series)
    ensures r == ValidateSpec(s, now, minBars, maxAge)
  {
    hide StrLess, IsAware, OhlcOk, FutureLastBar;
    if s.bars == [] {
      return Series(s.symbol, [], INSUFFICIENT);
    }
    var clean: seq<Bar> := [];
    var prev: Option<string> := None;
    var i := 0;
    ghost var f := Validation(now);
    while i < |s.bars|
      invariant i <= |s.bars|
      invariant clean == Kept(f, s.bars[..i]) && prev == Clock(f, s.bars[..i])
    {
      hide Kept, Clock;
      var b := s.bars[i];
      KeptGrows(f, s.bars[..i], b);
      assert s.bars[..i + 1] == s.bars[..i] + [b];
      i := i + 1;
      if !AllFinite(b) {
        continue;
      }
      if b.timestamp.Some? {
        var ts := b.timestamp.value;
        if now.Some? && StrLess(now.value, ts) {
          continue;
        }
        if prev.Some? && !StrLess(prev.value, ts) {
          continue;
        }
        prev := b.timestamp;
      }
      if b.close.None? && b.open.None? {
        continue;
      }
      clean := clean + [b];
    }
    assert s.bars[..i] == s.bars;
    if clean == [] {
      return Series(s.symbol, [], INVALID);
    }
    if |clean| < minBars {
      return Series(s.symbol, clean, INSUFFICIENT);
    }
    var quality := VALID;
    if maxAge.Some? && FutureLastBar(clean, now) {
      quality := INVALID;
    }
    if maxAge.Some? && clean[|clean| - 1].timestamp.None? {
      quality := UNKNOWN;
    }
    r := Series(s.symbol, clean, quality);
  }

  method IntegrityCheckSeries(s: Series, now: Option<string>, requireAware: bool, minBars: int) returns (r: Series)
    ensures r == IntegritySpec(s, now, requireAware, minBars)
  {
    hide StrLess, IsAware, OhlcOk;
    if s.bars == [] {
      return Series(s.symbol, [], INSUFFICIENT);
    }
    var clean: seq<Bar> := [];
    var prev: Option<string> := None;
    var i := 0;
    ghost var f := Integrity(now, requireAware);
    while i < |s.bars|
      invariant i <= |s.bars|
      invariant clean == Kept(f, s.bars[..i]) && prev == Clock(f, s.bars[..i])
    {
      hide Kept, Clock;
      var b := s.bars[i];
      KeptGrows(f, s.bars[..i], b);
      assert s.bars[..i + 1] == s.bars[..i] + [b];
      i := i + 1;
      if !OhlcOk(b) {
        continue;
      }
      if b.timestamp.Some? {
        var ts := b.timestamp.value;
        if requireAware && !IsAware(ts) {
          continue;
        }
        if now.Some? && StrLess(now.value, ts) {
          continue;
        }
        if prev.Some? && !StrLess(prev.value, ts) {
          continue;
        }
        prev := b.timestamp;
      } else if requireAware {
        continue;
      }
      clean := clean + [b];
    }
    assert s.bars[..i] == s.bars;
    if clean == [] {
      return Series(s.symbol, [], INVALID);
    }
    if |clean| < minBars {
      return Series(s.symbol, clean, INSUFFICIENT);
    }
    r := Series(s.symbol, clean, VALID);
  }
}
