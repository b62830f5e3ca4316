/** Market quotes and their validation. Prices and times are exact reals; any of them may be missing. */
module Quotes {
  import opened Common

  datatype Quote = Quote(
    symbol: string,
    timestamp: Option<real>,
    bid: Option<real>,
    ask: Option<real>,
    bidQty: Option<real>,
    askQty: Option<real>,
    volume: Option<real>,
    sequence: Option<int>)

  /** The keyword arguments of `validate_quote`. */
  datatype Terms = Terms(maxAge: real, maxSpreadPct: real, minQty: real, lastSequence: Option<int>)

  const DEFAULT_TERMS := Terms(30.0, 0.01, 0.0, None)

  datatype QuoteValidation = QuoteValidation(
    ok: bool,
    reasons: seq<string>,
    spread: Option<real>,
    spreadPct: Option<real>)

  predicate NotNegative(v: Option<real>) {
    v.None? || v.value >= 0.0
  }

  function OrZero(v: Option<real>): real {
    if v.Some? then v.value else 0.0
  }

  /** What a quote must be, said once: named, priced both ways and uncrossed, no negative quantity, dated and fresh,
      its spread within the share of the mid price, enough on one side, and the next of its sequence. */
  predicate Good(q: Quote, now: real, t: Terms) {
    && q.symbol != ""
    && q.bid.Some? && q.ask.Some? && 0.0 < q.bid.value <= q.ask.value
    && NotNegative(q.bidQty) && NotNegative(q.askQty) && NotNegative(q.volume)
    && q.timestamp.Some? && q.timestamp.value > 0.0 && now - q.timestamp.value <= t.maxAge
    && q.ask.value - q.bid.value <= t.maxSpreadPct * ((q.bid.value + q.ask.value) / 2.0)
    && (t.minQty > 0.0 ==> OrZero(q.bidQty) >= t.minQty || OrZero(q.askQty) >= t.minQty)
    && (t.lastSequence.Some? && q.sequence.Some? ==> q.sequence.value == t.lastSequence.value + 1)
  }

  /** What each term adds: without a depth and a sequence asked for, a quote needs neither; a depth is asked of one
      side, of which a missing quantity has none; and a known number must be the next. */
  lemma TermsExactly(q: Quote, now: real, t: Terms, mild: Terms)
    requires mild == t.(minQty := 0.0, lastSequence := None)
    ensures Good(q, now, t) <==>
            && Good(q, now, mild)
            && (t.minQty <= 0.0 || (q.bidQty.Some? && q.bidQty.value >= t.minQty)
                || (q.askQty.Some? && q.askQty.value >= t.minQty))
            && (t.lastSequence.None? || q.sequence.None? || q.sequence.value - t.lastSequence.value == 1)
  {
  }

  /** A good quote stays good under looser terms, and as long as it is not too old. */
  lemma LooserTermsKeepGood(q: Quote, now: real, t: Terms, later: real, loose: Terms)
    requires Good(q, now, t) && t.maxAge <= loose.maxAge && t.maxSpreadPct <= loose.maxSpreadPct
    requires loose.minQty <= t.minQty && loose.lastSequence in {None, t.lastSequence}
    requires later - now <= loose.maxAge - t.maxAge
    ensures Good(q, later, loose)
  {
    var mid := (q.bid.value + q.ask.value) / 2.0;
    assert t.maxSpreadPct * mid <= loose.maxSpreadPct * mid;
  }

  lemma ShareOfMid(spread: real, mid: real, share: real)
    requires mid > 0.0
    ensures spread / mid > share <==> spread > share * mid
  {
    var ratio := spread / mid;
    assert ratio * mid == spread;
    if ratio > share {
      Scaled(share, ratio, mid);
    } else if ratio < share {
      Scaled(ratio, share, mid);
    }
  }

  lemma Scaled(a: real, b: real, d: real)
    requires a < b && d > 0.0
    ensures a * d < b * d
  {
  }

  /** None stands for the TypeError: having found the timestamp missing, the code goes on to compare it with 0. */
  method ValidateQuote(q: Quote, now: real, t: Terms) returns (r: Option<QuoteValidation>)
    ensures r.None? <==> q.timestamp.None?
    ensures r.Some? ==> (r.value.ok <==> Good(q, now, t)) && (r.value.ok <==> r.value.reasons == [])
  {
    hide Good;
    var identity := CheckIdentity(q);
    var timed, dated := CheckTime(q, now, t);
    if timed.None? {
      return None;
    }
    var spread, spreadPct, priced := CheckSpread(q, t);
    var rest := CheckDepthAndSequence(q, t);
    var reasons := identity + dated + timed.value + priced + rest;
    GoodByParts(q, now, t);
    r := Some(QuoteValidation(|reasons| == 0, reasons, spread, spreadPct));
  }

  predicate IdentityOk(q: Quote) {
    && q.symbol != ""
    && q.bid.Some? && q.ask.Some? && 0.0 < q.bid.value <= q.ask.value
    && NotNegative(q.bidQty) && NotNegative(q.askQty) && NotNegative(q.volume)
  }

  predicate SpreadOk(q: Quote, t: Terms)
    requires IdentityOk(q)
  {
    q.ask.value - q.bid.value <= t.maxSpreadPct * ((q.bid.value + q.ask.value) / 2.0)
  }

  predicate DepthAndSequenceOk(q: Quote, t: Terms) {
    && (t.minQty > 0.0 ==> OrZero(q.bidQty) >= t.minQty || OrZero(q.askQty) >= t.minQty)
    && (t.lastSequence.Some? && q.sequence.Some? ==> q.sequence.value == t.lastSequence.value + 1)
  }

  lemma GoodByParts(q: Quote, now: real, t: Terms)
    ensures Good(q, now, t) <==>
            && IdentityOk(q) && SpreadOk(q, t) && DepthAndSequenceOk(q, t)
            && q.timestamp.Some? && q.timestamp.value > 0.0 && now - q.timestamp.value <= t.maxAge
  {
  }

  /** Symbol, prices and quantities. */
  method CheckIdentity(q: Quote) returns (reasons: seq<string>)
    ensures reasons == [] <==> IdentityOk(q)
  {
    reasons := [];
    if q.symbol == "" {
      reasons := reasons + ["missing_symbol"];
    }
    if q.bid.None? || q.ask.None? {
      reasons := reasons + ["missing_bid_ask"];
    } else {
      if q.bid.value <= 0.0 || q.ask.value <= 0.0 {
        reasons := reasons + ["price_le_zero"];
      }
      if q.ask.value < q.bid.value {
        reasons := reasons + ["crossed_book"];
      }
    }
    if q.bidQty.Some? && q.bidQty.value < 0.0 {
      reasons := reasons + ["qty_negative"];
    }
    if q.askQty.Some? && q.askQty.value < 0.0 {
      reasons := reasons + ["qty_negative"];
    }
    if q.volume.Some? && q.volume.value < 0.0 {
      reasons := reasons + ["volume_negative"];
    }
  }

  /** The timestamp: `stale` is None where the comparison raises. */
  method CheckTime(q: Quote, now: real, t: Terms) returns (stale: Option<seq<string>>, dated: seq<string>)
    ensures stale.None? <==> q.timestamp.None?
    ensures dated == [] <==> q.timestamp.Some? && q.timestamp.value > 0.0
    ensures stale.Some? && dated == [] ==> (stale.value == [] <==> now - q.timestamp.value <= t.maxAge)
  {
    dated := [];
    if q.timestamp.None? || q.timestamp.value <= 0.0 {
      dated := ["invalid_timestamp"];
    }
    if q.timestamp.None? {
      return None, dated;
    }
    stale := Some([]);
    if q.timestamp.value > 0.0 && now - q.timestamp.value > t.maxAge {
      stale := Some(["stale_data"]);
    }
  }

  /** The spread and its share of the mid price, where the prices allow them. */
  method CheckSpread(q: Quote, t: Terms) returns (spread: Option<real>, spreadPct: Option<real>, reasons: seq<string>)
    ensures IdentityOk(q) ==> (reasons == [] <==> SpreadOk(q, t))
    ensures IdentityOk(q) ==> spread == Some(q.ask.value - q.bid.value) && spreadPct.Some?
  {
    spread, spreadPct, reasons := None, None, [];
    if q.bid.Some? && q.bid.value != 0.0 && q.ask.Some? && q.ask.value != 0.0 && q.bid.value > 0.0 {
      var gap := q.ask.value - q.bid.value;
      var mid := (q.bid.value + q.ask.value) / 2.0;
      spread := Some(gap);
      if mid != 0.0 {
        spreadPct := Some(gap / mid);
      }
      if mid > 0.0 {
        ShareOfMid(gap, mid, t.maxSpreadPct);
      }
      if spreadPct.Some? && spreadPct.value > t.maxSpreadPct {
        reasons := ["spread_too_wide"];
      }
    }
  }

  method CheckDepthAndSequence(q: Quote, t: Terms) returns (reasons: seq<string>)
    ensures reasons == [] <==> DepthAndSequenceOk(q, t)
  {
    reasons := [];
    if t.minQty > 0.0 {
      if OrZero(q.bidQty) < t.minQty && OrZero(q.askQty) < t.minQty {
        reasons := reasons + ["insufficient_liquidity"];
      }
    }
    if t.lastSequence.Some? && q.sequence.Some? {
      if q.sequence.value < t.lastSequence.value {
        reasons := reasons + ["out_of_order_sequence"];
      } else if q.sequence.value == t.lastSequence.value {
        reasons := reasons + ["duplicate_sequence"];
      } else if q.sequence.value > t.lastSequence.value + 1 {
        reasons := reasons + ["sequence_gap"];
      }
    }
  }
}
