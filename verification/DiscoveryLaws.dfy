/** What a discovery result means in terms of the scan, and what the result cache may answer. */
module DiscoveryLaws {
  import opened Common
  import opened Ranking
  import opened Discovery
  import MarketData
  import Observations

  // ---- The cache ----------------------------------------------------------------------------

  /** The ids whose eligibility satisfies `p`, in order. */
  function Select(ids: seq<string>, els: seq<Eligibility>, p: Eligibility -> bool): seq<string>
    requires |ids| == |els|
  {
    if ids == [] then []
    else (if p(els[0]) then [ids[0]] else []) + Select(ids[1..], els[1..], p)
  }

  /** A result says what its key says: status, ranking and the ids of its three lists. */
  predicate Tells(key: ResultKey, r: Result) {
    && |key.ids| == |key.eligibility|
    && r.status == key.status && r.universeSize == |key.symbols| && r.ranking == key.ids
    && Ids(r.eligible) == Select(key.ids, key.eligibility, (e: Eligibility) => e.ELIGIBLE?)
    && Ids(r.restricted) == Select(key.ids, key.eligibility, (e: Eligibility) => e.RESTRICTED?)
    && Ids(r.blocked) == Select(key.ids, key.eligibility, (e: Eligibility) => e.BLOCKED? || e.INELIGIBLE?)
  }

  predicate Truthful(cache: Cache) {
    forall key :: key in cache ==> Tells(key, cache[key])
  }

  lemma IdsOfJoined(a: seq<Candidate>, b: seq<Candidate>)
    ensures Ids(a + b) == Ids(a) + Ids(b) && Els(a + b) == Els(a) + Els(b)
  {
  }

  lemma SelectFirst(id: string, e: Eligibility, ids: seq<string>, els: seq<Eligibility>, p: Eligibility -> bool)
    requires |ids| == |els|
    ensures Select([id] + ids, [e] + els, p) == (if p(e) then [id] else []) + Select(ids, els, p)
  {
    assert ([id] + ids)[1..] == ids && ([e] + els)[1..] == els;
  }

  lemma {:induction false} IdsOfKept(s: seq<Candidate>, p: Candidate -> bool, q: Eligibility -> bool)
    requires forall c :: p(c) == q(c.eligibility)
    ensures Ids(Keep(s, p)) == Select(Ids(s), Els(s), q)
  {
    if s != [] {
      var c, rest := s[0], s[1..];
      IdsOfKept(rest, p, q);
      hide Select;
      IdsOfJoined([c], Keep(rest, p));
      IdsOfJoined([c], rest);
      SelectFirst(c.id, c.eligibility, Ids(rest), Els(rest), q);
      assert s == [c] + rest && Ids([c]) == [c.id] && Els([c]) == [c.eligibility];
    }
  }

  lemma FreshTells(symbols: seq<string>, version: string, candidates: seq<Candidate>, analyzed: int,
                   insufficient: seq<string>, notes: string)
    ensures Tells(KeyOf(symbols, version, candidates, insufficient),
                  Fresh(symbols, candidates, analyzed, insufficient, notes))
  {
    hide Rank, Keep, StatusSpec, Select;
    var r := Rank(candidates);
    IdsOfKept(r, IsEligible, (e: Eligibility) => e.ELIGIBLE?);
    IdsOfKept(r, IsRestricted, (e: Eligibility) => e.RESTRICTED?);
    IdsOfKept(r, IsBlocked, (e: Eligibility) => e.BLOCKED? || e.INELIGIBLE?);
  }

  /** Whether computed or remembered, the answer has the status, universe size, ranking and lists of ids that
      computing it now would give; and the cache stays truthful. */
  lemma AnswersAsIfFresh(cache: Cache, version: string, symbols: seq<string>, candidates: seq<Candidate>, analyzed: int,
                         insufficient: seq<string>, notes: string)
    requires Truthful(cache)
    ensures var (after, r) := Finalized(cache, version, symbols, candidates, analyzed, insufficient, notes);
            var now := Fresh(symbols, candidates, analyzed, insufficient, notes);
            && Truthful(after)
            && r.status == now.status && r.universeSize == now.universeSize && r.ranking == now.ranking
            && Ids(r.eligible) == Ids(now.eligible) && Ids(r.restricted) == Ids(now.restricted)
            && Ids(r.blocked) == Ids(now.blocked)
  {
    FreshTells(symbols, version, candidates, analyzed, insufficient, notes);
    hide Fresh, KeyOf, Select, Ids;
  }

  /** A second run over permuted candidates is answered from the cache: no order of discovery makes a second result.
      */
  lemma OneResultPerOutcome(cache: Cache, version: string, symbols: seq<string>, a: seq<Candidate>, b: seq<Candidate>,
                            analyzed: int, insufficient: seq<string>, notes: string)
    requires multiset(a) == multiset(b)
    ensures var (after, r) := Finalized(cache, version, symbols, a, analyzed, insufficient, notes);
            Finalized(after, version, symbols, b, analyzed, insufficient, notes) == (after, r)
  {
    forall c ensures c in a <==> c in b {
      assert c in multiset(a) <==> c in multiset(b);
    }
    RankingIsCanonical(a, b);
    assert Els(Rank(a)) == Els(Rank(b)) by {
      SameEligibility(a, b);
    }
    assert StatusSpec(symbols, a, insufficient) == StatusSpec(symbols, b, insufficient) by { hide Rank; }
    hide Rank, StatusSpec, Fresh;
  }

  lemma SameEligibility(a: seq<Candidate>, b: seq<Candidate>)
    requires Keys(Rank(a)) == Keys(Rank(b))
    ensures Els(Rank(a)) == Els(Rank(b))
  {
    hide Rank;
    var r, s := Rank(a), Rank(b);
    assert |r| == |Keys(r)| == |s|;
    forall i | 0 <= i < |r| ensures r[i].eligibility == s[i].eligibility {
      assert Keys(r)[i] == Keys(s)[i];
      assert EligibilityOrder(r[i].eligibility) == EligibilityOrder(s[i].eligibility);
    }
  }

  // ---- What the status means ----------------------------------------------------------------

  lemma {:induction false} EnrichedMembers(x: Inputs, n: nat, c: Candidate)
    requires x.Valid() && n <= |x.symbols|
    ensures c in Enriched(x, n) <==> exists i :: 0 <= i < n && c in Contribution(x, i)
  {
    hide Contribution;
    if n > 0 {
      EnrichedMembers(x, n - 1, c);
    }
  }

  /** What the policy's words mean for a pair: one word allows, one restricts, two block, and any other tells
      nothing. */
  predicate Means(permission: string, e: Eligibility) {
    var word := Upper(permission);
    match e
    case ELIGIBLE => word == "ALLOW"
    case RESTRICTED => word == "RESTRICT"
    case BLOCKED => word == "BLOCK" || word == "PAUSE"
    case UNKNOWN => word !in {"ALLOW", "RESTRICT", "BLOCK", "PAUSE"}
    case _ => false
  }

  /** Instrument i passed its scan, and the policy's answer for its j-th live strategy means `e`. */
  predicate Answered(x: Inputs, i: nat, j: nat, e: Eligibility)
    requires x.Valid()
  {
    && i < |x.symbols| && j < |x.Usable()|
    && x.verdicts[i] == Some(Observations.Accepted)
    && Means(x.permission(i, j), e)
  }

  /** The live strategies are those given that are neither retired nor rejected. */
  lemma UsableExactly(x: Inputs, s: Strategy)
    ensures s in x.Usable() <==> s in x.strategies && s.lifecycle !in {"RETIRED", "REJECTED"}
  {
    KeepIsExact(x.strategies, (s: Strategy) => s.lifecycle != "RETIRED" && s.lifecycle != "REJECTED");
  }

  lemma UsableIsAlive(x: Inputs, j: nat)
    requires j < |x.Usable()|
    ensures x.Usable()[j].lifecycle != "RETIRED" && x.Usable()[j].lifecycle != "REJECTED"
  {
    assert x.Usable()[j] in x.Usable();
  }

  lemma UpperTwice(s: string)
    ensures Upper(Upper(s)) == Upper(s)
  {
  }

  /** The candidate of an instrument and a live strategy: it names both, and its eligibility is what the policy's word
      means. */
  lemma PairedIsAnswer(x: Inputs, i: nat, j: nat, e: Eligibility)
    requires x.Valid() && i < |x.symbols| && j < |x.Usable()|
    ensures var c := Paired(x, i, j);
            && (c.eligibility == e <==> Means(x.permission(i, j), e))
            && c.instrument == Upper(x.symbols[i]) && c.strategy == Some(x.Usable()[j].id)
            && (c.quality.VALID? <==> x.verdicts[i] == Some(Observations.Accepted))
            && (c.uncertainty == "MODERATE" <==> c.eligibility.ELIGIBLE?)
  {
    UsableIsAlive(x, j);
    hide Keep;
    UpperTwice(x.symbols[i]);
    assert Upper("") == "";
    hide Upper;
  }

  ghost predicate Offers(x: Inputs, i: nat, e: Eligibility)
    requires x.Valid() && i < |x.symbols|
  {
    exists c :: c in Contribution(x, i) && c.eligibility == e
  }

  ghost predicate AnsweredSome(x: Inputs, i: nat, e: Eligibility)
    requires x.Valid()
  {
    exists j :: 0 <= j < |x.Usable()| && Answered(x, i, j, e)
  }

  /** Why instrument i has a candidate with eligibility `e`. */
  ghost predicate Reason(x: Inputs, i: nat, e: Eligibility)
    requires x.Valid() && i < |x.symbols|
  {
    match x.verdicts[i]
    case Some(Accepted) => if x.Usable() == [] then e.INSUFFICIENT_DATA? else AnsweredSome(x, i, e)
    case Some(TooFew) => e.INSUFFICIENT_DATA?
    case _ => e.INELIGIBLE?
  }

  lemma OffersForAReason(x: Inputs, i: nat, e: Eligibility)
    requires x.Valid() && i < |x.symbols|
    ensures Offers(x, i, e) <==> Reason(x, i, e)
  {
    hide MapPermission, Means, Keep;
    var cs := Contribution(x, i);
    if x.verdicts[i] == Some(Observations.Accepted) && x.Usable() != [] {
      var n := |x.Usable()|;
      forall j | 0 <= j < n ensures cs[j].eligibility == e <==> Answered(x, i, j, e) {
        PairedIsAnswer(x, i, j, e);
      }
      if c :| c in cs && c.eligibility == e {
        var j :| 0 <= j < n && cs[j] == c;
        assert Answered(x, i, j, e);
      }
      if j :| 0 <= j < n && Answered(x, i, j, e) {
        assert cs[j] in cs && cs[j].eligibility == e;
      }
    } else {
      assert |cs| == 1 && cs[0] in cs;
    }
  }

  ghost predicate Occurring(x: Inputs, e: Eligibility)
    requires x.Valid()
  {
    exists i :: 0 <= i < |x.symbols| && Reason(x, i, e)
  }

  predicate Has(cs: seq<Candidate>, e: Eligibility) {
    exists c :: c in cs && c.eligibility == e
  }

  lemma StatusByEligibilities(symbols: seq<string>, cs: seq<Candidate>, insufficient: seq<string>)
    ensures StatusSpec(symbols, cs, insufficient) ==
            if symbols == [] then DiscoveryStatus.NO_VALID_CANDIDATE
            else if Has(cs, Eligibility.ELIGIBLE) then DiscoveryStatus.ELIGIBLE
            else if Has(cs, Eligibility.RESTRICTED) then DiscoveryStatus.RESTRICTED
            else if insufficient != [] && !Has(cs, Eligibility.BLOCKED) && !Has(cs, Eligibility.INELIGIBLE)
            then DiscoveryStatus.INSUFFICIENT_DATA
            else DiscoveryStatus.NO_VALID_CANDIDATE
  {
  }

  lemma CandidatesHaveReasons(x: Inputs, e: Eligibility)
    requires x.Valid()
    ensures Has(Enriched(x, |x.symbols|), e) <==> Occurring(x, e)
  {
    hide Contribution, Enriched, Reason;
    var n := |x.symbols|;
    if c :| c in Enriched(x, n) && c.eligibility == e {
      EnrichedMembers(x, n, c);
      var i :| 0 <= i < n && c in Contribution(x, i);
      OffersForAReason(x, i, e);
    }
    if i :| 0 <= i < n && Reason(x, i, e) {
      OffersForAReason(x, i, e);
      var c :| c in Contribution(x, i) && c.eligibility == e;
      EnrichedMembers(x, n, c);
    }
  }

  lemma {:induction false} ShortMembers(x: Inputs, n: nat)
    requires x.Valid() && n <= |x.symbols|
    ensures Insufficient(x, n) != [] <==> exists i :: 0 <= i < n && CountsAsInsufficient(x, i)
  {
    hide CountsAsInsufficient;
    if n > 0 {
      ShortMembers(x, n - 1);
    }
  }

  /** Some pair of an accepted instrument and a live strategy got the answer `e` from the policy. */
  ghost predicate SomePair(x: Inputs, e: Eligibility)
    requires x.Valid()
  {
    exists i, j :: 0 <= i < |x.symbols| && 0 <= j < |x.Usable()| && Answered(x, i, j, e)
  }

  predicate AnyVerdict(x: Inputs, vs: set<Option<Observations.Verdict>>) {
    exists v :: v in x.verdicts && v in vs
  }

  /** Reasons, taken over all instruments. */
  lemma ReasonsAre(x: Inputs)
    requires x.Valid()
    ensures Occurring(x, Eligibility.ELIGIBLE) <==> SomePair(x, Eligibility.ELIGIBLE)
    ensures Occurring(x, Eligibility.RESTRICTED) <==> SomePair(x, Eligibility.RESTRICTED)
    ensures Occurring(x, Eligibility.BLOCKED) <==> SomePair(x, Eligibility.BLOCKED)
    ensures Occurring(x, Eligibility.INELIGIBLE) <==> AnyVerdict(x, {Some(Observations.Rejected), None})
  {
    PairReason(x, Eligibility.ELIGIBLE);
    PairReason(x, Eligibility.RESTRICTED);
    PairReason(x, Eligibility.BLOCKED);
    IneligibleReason(x);
  }

  lemma PairReason(x: Inputs, e: Eligibility)
    requires x.Valid() && !e.INELIGIBLE? && !e.INSUFFICIENT_DATA?
    ensures Occurring(x, e) <==> SomePair(x, e)
  {
    hide MapPermission, Means, Keep;
    if i :| 0 <= i < |x.symbols| && Reason(x, i, e) {
      assert AnsweredSome(x, i, e);
    }
    if i, j :| 0 <= i < |x.symbols| && 0 <= j < |x.Usable()| && Answered(x, i, j, e) {
      assert AnsweredSome(x, i, e);
      assert Reason(x, i, e);
    }
  }

  lemma NeverAnsweredIneligible(x: Inputs, i: nat)
    requires x.Valid()
    ensures !AnsweredSome(x, i, Eligibility.INELIGIBLE)
  {
  }

  lemma IneligibleReason(x: Inputs)
    requires x.Valid()
    ensures Occurring(x, Eligibility.INELIGIBLE) <==> AnyVerdict(x, {Some(Observations.Rejected), None})
  {
    hide AnsweredSome, Keep;
    if i :| 0 <= i < |x.symbols| && Reason(x, i, Eligibility.INELIGIBLE) {
      NeverAnsweredIneligible(x, i);
      assert x.verdicts[i] in x.verdicts;
    }
    if AnyVerdict(x, {Some(Observations.Rejected), None}) {
      var v :| v in x.verdicts && v in {Some(Observations.Rejected), None};
      var i :| 0 <= i < |x.verdicts| && x.verdicts[i] == v;
      assert Reason(x, i, Eligibility.INELIGIBLE);
    }
  }

  lemma ShortIs(x: Inputs)
    requires x.Valid() && !AnyVerdict(x, {Some(Observations.Rejected), None})
    ensures Insufficient(x, |x.symbols|) != [] <==>
            AnyVerdict(x, {Some(Observations.TooFew)}) || (x.Usable() == [] && x.symbols != [])
  {
    ShortMembers(x, |x.symbols|);
    hide Keep, Insufficient;
    forall i | 0 <= i < |x.symbols|
      ensures CountsAsInsufficient(x, i) <==> x.verdicts[i] == Some(Observations.TooFew) || x.Usable() == []
    {
      assert x.verdicts[i] in x.verdicts;
    }
    if x.symbols != [] && x.Usable() == [] {
      assert CountsAsInsufficient(x, 0);
    }
    if AnyVerdict(x, {Some(Observations.TooFew)}) {
      var i :| 0 <= i < |x.verdicts| && x.verdicts[i] == Some(Observations.TooFew);
      assert CountsAsInsufficient(x, i);
    }
  }

  /** An instrument is short exactly if its scan did not accept it or every strategy is retired or rejected. */
  lemma ShortExactly(x: Inputs, i: nat)
    requires x.Valid() && i < |x.symbols|
    ensures CountsAsInsufficient(x, i) <==>
            || x.verdicts[i] != Some(Observations.Accepted)
            || forall s :: s in x.strategies ==> s.lifecycle in {"RETIRED", "REJECTED"}
    ensures Scanned(x, i).instrument == Upper(x.symbols[i])
  {
    hide Keep, Upper;
    forall s: Strategy ensures s in x.Usable() <==> s in x.strategies && s.lifecycle !in {"RETIRED", "REJECTED"} {
      UsableExactly(x, s);
    }
    if x.Usable() != [] {
      assert x.Usable()[0] in x.Usable();
    }
  }

  predicate IsShort(x: Inputs, n: nat, symbol: string)
    requires x.Valid() && n <= |x.symbols|
  {
    exists i :: 0 <= i < n && CountsAsInsufficient(x, i) && Scanned(x, i).instrument == symbol
  }

  lemma {:induction false} ShortSymbols(x: Inputs, n: nat, symbol: string)
    requires x.Valid() && n <= |x.symbols|
    ensures symbol in Insufficient(x, n) <==> IsShort(x, n, symbol)
  {
    hide CountsAsInsufficient, Scanned;
    if n > 0 {
      ShortSymbols(x, n - 1, symbol);
    }
  }

  /** The list of short instruments of a run: each instrument whose data was bad, or for which there was no strategy,
      once; and no other. */
  lemma InsufficientListsShortOnce(x: Inputs, analyzed: int, notes: string)
    requires x.Valid()
    ensures var n := |x.symbols|;
            var listed := Fresh(x.symbols, Enriched(x, n), analyzed, Insufficient(x, n), notes).insufficient;
            Distinct(listed) && forall symbol :: symbol in listed <==> IsShort(x, n, symbol)
  {
    var n := |x.symbols|;
    FirstOccurrencesListOnce(Insufficient(x, n));
    hide Insufficient, IsShort;
    forall symbol ensures symbol in Insufficient(x, n) <==> IsShort(x, n, symbol) {
      ShortSymbols(x, n, symbol);
    }
  }

  /** For some instrument that passed its scan and some live strategy, the policy answered one of these words. */
  ghost predicate SomeAnswer(x: Inputs, words: set<string>)
    requires x.Valid()
  {
    exists i, j :: 0 <= i < |x.symbols| && 0 <= j < |x.Usable()|
      && x.verdicts[i] == Some(Observations.Accepted) && Upper(x.permission(i, j)) in words
  }

  lemma AnswersAreWords(x: Inputs)
    requires x.Valid()
    ensures SomePair(x, Eligibility.ELIGIBLE) <==> SomeAnswer(x, {"ALLOW"})
    ensures SomePair(x, Eligibility.RESTRICTED) <==> SomeAnswer(x, {"RESTRICT"})
    ensures SomePair(x, Eligibility.BLOCKED) <==> SomeAnswer(x, {"BLOCK", "PAUSE"})
  {
    SameAnswer(x, Eligibility.ELIGIBLE, {"ALLOW"});
    SameAnswer(x, Eligibility.RESTRICTED, {"RESTRICT"});
    SameAnswer(x, Eligibility.BLOCKED, {"BLOCK", "PAUSE"});
  }

  lemma SameAnswer(x: Inputs, e: Eligibility, words: set<string>)
    requires x.Valid() && forall s :: Means(s, e) <==> Upper(s) in words
    ensures SomePair(x, e) <==> SomeAnswer(x, words)
  {
    hide Means, Keep;
    if i, j :| 0 <= i < |x.symbols| && 0 <= j < |x.Usable()| && Answered(x, i, j, e) {
      assert Upper(x.permission(i, j)) in words;
    }
    if i, j :| 0 <= i < |x.symbols| && 0 <= j < |x.Usable()|
               && x.verdicts[i] == Some(Observations.Accepted) && Upper(x.permission(i, j)) in words {
      assert Answered(x, i, j, e);
    }
  }

  /** What a run concludes, for every universe, every scan and every policy, cached or not: an opportunity exactly if
      policy answered ALLOW for some live strategy on some instrument that passed its checks; a restricted one exactly
      if it answered RESTRICT for some and ALLOW for none; insufficient data exactly if data or strategies were short
      and nothing was allowed, restricted, blocked, refused or unreadable; otherwise no valid candidate. A run never
      concludes BLOCKED. */
  lemma StatusExactly(cache: Cache, version: string, x: Inputs)
    requires x.Valid() && Truthful(cache)
    ensures var status := Discovered(cache, version, x).1.status;
            && (status.ELIGIBLE? <==> SomeAnswer(x, {"ALLOW"}))
            && (status.RESTRICTED? <==> SomeAnswer(x, {"RESTRICT"}) && !SomeAnswer(x, {"ALLOW"}))
            && (status.INSUFFICIENT_DATA? <==>
                  && !SomeAnswer(x, {"ALLOW"}) && !SomeAnswer(x, {"RESTRICT"}) && !SomeAnswer(x, {"BLOCK", "PAUSE"})
                  && !AnyVerdict(x, {Some(Observations.Rejected), None})
                  && (AnyVerdict(x, {Some(Observations.TooFew)}) || (x.Usable() == [] && x.symbols != [])))
            && !status.BLOCKED?
  {
    var n := |x.symbols|;
    if n == 0 {
      AnswersAsIfFresh(cache, version, x.symbols, [], 0, [], "empty_universe_or_no_scan");
    } else {
      AnswersAsIfFresh(cache, version, x.symbols, Enriched(x, n), n, Insufficient(x, n), "autonomous_scan_complete");
      StatusFromReasons(x);
    }
    AnswersAreWords(x);
    hide Finalized, Truthful, Keep, Rank, SomePair, SomeAnswer;
  }

  lemma StatusFromReasons(x: Inputs)
    requires x.Valid() && x.symbols != []
    ensures var status := StatusSpec(x.symbols, Enriched(x, |x.symbols|), Insufficient(x, |x.symbols|));
            && (status.ELIGIBLE? <==> SomePair(x, Eligibility.ELIGIBLE))
            && (status.RESTRICTED? <==> SomePair(x, Eligibility.RESTRICTED) && !SomePair(x, Eligibility.ELIGIBLE))
            && (status.INSUFFICIENT_DATA? <==>
                  && !SomePair(x, Eligibility.ELIGIBLE) && !SomePair(x, Eligibility.RESTRICTED)
                  && !SomePair(x, Eligibility.BLOCKED) && !AnyVerdict(x, {Some(Observations.Rejected), None})
                  && (AnyVerdict(x, {Some(Observations.TooFew)}) || (x.Usable() == [] && x.symbols != [])))
            && !status.BLOCKED?
  {
    hide Enriched, Insufficient, SomePair, AnyVerdict, Occurring, Keep, StatusSpec, Has;
    StatusByEligibilities(x.symbols, Enriched(x, |x.symbols|), Insufficient(x, |x.symbols|));
    CandidatesHaveReasons(x, Eligibility.ELIGIBLE);
    CandidatesHaveReasons(x, Eligibility.RESTRICTED);
    CandidatesHaveReasons(x, Eligibility.BLOCKED);
    CandidatesHaveReasons(x, Eligibility.INELIGIBLE);
    ReasonsAre(x);
    if !AnyVerdict(x, {Some(Observations.Rejected), None}) {
      ShortIs(x);
    }
  }

  /** From raw bars to an opportunity: an instrument whose series ingestion marked VALID, with samples enough for
      discovery, makes the run ELIGIBLE as soon as policy allows one live strategy on it. */
  lemma IngestedAndAllowedIsFound(series: MarketData.Series, now: Option<string>, minBars: int, maxAge: Option<real>,
                                  minSamples: int, cache: Cache, version: string, x: Inputs, i: nat, j: nat)
    requires var clean := MarketData.ValidateSpec(series, now, minBars, maxAge);
             clean.quality.VALID? && |clean.bars| >= minSamples
    requires x.Valid() && Truthful(cache) && i < |x.symbols| && j < |x.Usable()|
    requires var clean := MarketData.ValidateSpec(series, now, minBars, maxAge);
             x.verdicts[i] == Observations.Discovered(clean.bars, minSamples, now)
    requires Upper(x.permission(i, j)) == "ALLOW"
    ensures Discovered(cache, version, x).1.status.ELIGIBLE?
  {
    Observations.AcceptedByDiscovery(series, now, minBars, maxAge, minSamples);
    assert SomeAnswer(x, {"ALLOW"});
    StatusExactly(cache, version, x);
  }
}
