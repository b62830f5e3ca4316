/** One discovery run: scan the universe, pair what passes with strategies, rank, cut the ranking into lists and
    answer from the cache where the same outcome was seen before. */
module Discovery {
  import opened Common
  import opened Ranking
  import Observations

  datatype DiscoveryStatus = ELIGIBLE | RESTRICTED | NO_VALID_CANDIDATE | INSUFFICIENT_DATA | BLOCKED

  datatype Strategy = Strategy(id: string, lifecycle: string)

  datatype Result = Result(
    status: DiscoveryStatus,
    universeSize: nat,
    analyzed: int,
    eligible: seq<Candidate>,
    restricted: seq<Candidate>,
    blocked: seq<Candidate>,
    insufficient: seq<string>,
    ranking: seq<string>,
    notes: string)

  /** The preimage of a result id; hashes are taken to be free of collisions. */
  datatype ResultKey = ResultKey(
    symbols: seq<string>,
    version: string,
    status: DiscoveryStatus,
    ids: seq<string>,
    eligibility: seq<Eligibility>)

  type Cache = map<ResultKey, Result>

  /** What a run sees of the outside: the universe's symbols in order, the verdict on each one's observation (none if
      the scan raised), the strategies, the policy's answer for each pair, and the hash that names candidates. */
  datatype Inputs = Inputs(
    symbols: seq<string>,
    verdicts: seq<Option<Observations.Verdict>>,
    strategies: seq<Strategy>,
    permission: (nat, nat) -> string,
    name: (string, Option<string>, QualityStatus, Eligibility, string) -> string)
  {
    predicate Valid() {
      |verdicts| == |symbols|
    }

    function Usable(): seq<Strategy> {
      Keep(strategies, (s: Strategy) => s.lifecycle != "RETIRED" && s.lifecycle != "REJECTED")
    }
  }

  function MapPermission(permission: string, lifecycle: string): Eligibility {
    var p := if permission == "" then "UNKNOWN" else Upper(permission);
    if lifecycle == "RETIRED" || lifecycle == "REJECTED" then Eligibility.BLOCKED
    else if p == "BLOCK" || p == "PAUSE" then Eligibility.BLOCKED
    else if p == "RESTRICT" then Eligibility.RESTRICTED
    else if p == "ALLOW" then Eligibility.ELIGIBLE
    else Eligibility.UNKNOWN
  }

  function Build(x: Inputs, symbol: string, strategy: Option<string>, q: QualityStatus, e: Eligibility,
                 uncertainty: string): Candidate
  {
    Candidate(x.name(symbol, strategy, q, e, uncertainty), Upper(symbol), strategy, q, e, uncertainty, None)
  }

  /** `scan_instrument`, with the catch-all of `scan_all`. */
  function Scanned(x: Inputs, i: nat): Candidate
    requires x.Valid() && i < |x.symbols|
  {
    var sym := x.symbols[i];
    match x.verdicts[i]
    case Some(Accepted) => Build(x, sym, None, QualityStatus.VALID, Eligibility.UNKNOWN, "MODERATE")
    case Some(TooFew) => Build(x, sym, None, QualityStatus.INSUFFICIENT_DATA, Eligibility.INSUFFICIENT_DATA, "HIGH")
    case _ => Build(x, sym, None, QualityStatus.INVALID, Eligibility.INELIGIBLE, "HIGH")
  }

  predicate BadQuality(q: QualityStatus) {
    q.INVALID? || q.INSUFFICIENT_DATA? || q.STALE?
  }

  function Paired(x: Inputs, i: nat, j: nat): Candidate
    requires x.Valid() && i < |x.symbols| && j < |x.Usable()|
  {
    var s := x.Usable()[j];
    var e := MapPermission(x.permission(i, j), s.lifecycle);
    Build(x, Scanned(x, i).instrument, Some(s.id), Scanned(x, i).quality, e, if e.ELIGIBLE? then "MODERATE" else "HIGH")
  }

  function Pairs(x: Inputs, i: nat, n: nat): (r: seq<Candidate>)
    requires x.Valid() && i < |x.symbols| && n <= |x.Usable()|
    ensures |r| == n && forall j :: 0 <= j < n ==> r[j] == Paired(x, i, j)
  {
    if n == 0 then [] else Pairs(x, i, n - 1) + [Paired(x, i, n - 1)]
  }

  /** What one instrument adds to the candidates. */
  function Contribution(x: Inputs, i: nat): seq<Candidate>
    requires x.Valid() && i < |x.symbols|
  {
    var base := Scanned(x, i);
    if BadQuality(base.quality) then [base]
    else if x.Usable() == [] then [Build(x, base.instrument, None, base.quality, Eligibility.INSUFFICIENT_DATA, "HIGH")]
    else Pairs(x, i, |x.Usable()|)
  }

  predicate CountsAsInsufficient(x: Inputs, i: nat)
    requires x.Valid() && i < |x.symbols|
  {
    BadQuality(Scanned(x, i).quality) || x.Usable() == []
  }

  function Enriched(x: Inputs, n: nat): seq<Candidate>
    requires x.Valid() && n <= |x.symbols|
  {
    if n == 0 then [] else Enriched(x, n - 1) + Contribution(x, n - 1)
  }

  function Insufficient(x: Inputs, n: nat): seq<string>
    requires x.Valid() && n <= |x.symbols|
  {
    if n == 0 then []
    else Insufficient(x, n - 1) + if CountsAsInsufficient(x, n - 1) then [Scanned(x, n - 1).instrument] else []
  }

  function StatusSpec(symbols: seq<string>, candidates: seq<Candidate>, insufficient: seq<string>): DiscoveryStatus {
    if symbols == [] then NO_VALID_CANDIDATE
    else if exists c :: c in candidates && IsEligible(c) then DiscoveryStatus.ELIGIBLE
    else if exists c :: c in candidates && IsRestricted(c) then DiscoveryStatus.RESTRICTED
    else if insufficient != [] && forall c :: c in candidates ==> !IsBlocked(c) then DiscoveryStatus.INSUFFICIENT_DATA
    else NO_VALID_CANDIDATE
  }

  function Els(candidates: seq<Candidate>): (r: seq<Eligibility>)
    ensures |r| == |candidates| && forall i :: 0 <= i < |r| ==> r[i] == candidates[i].eligibility
  {
    seq(|candidates|, i requires 0 <= i < |candidates| => candidates[i].eligibility)
  }

  function Fresh(symbols: seq<string>, candidates: seq<Candidate>, analyzed: int, insufficient: seq<string>,
                 notes: string): Result
  {
    var r := Rank(candidates);
    Result(StatusSpec(symbols, candidates, insufficient), |symbols|, analyzed,
           Keep(r, IsEligible), Keep(r, IsRestricted), Keep(r, IsBlocked),
           FirstOccurrences(insufficient), Ids(r), notes)
  }

  function KeyOf(symbols: seq<string>, version: string, candidates: seq<Candidate>, insufficient: seq<string>)
    : ResultKey
  {
    var r := Rank(candidates);
    ResultKey(symbols, version, StatusSpec(symbols, candidates, insufficient), Ids(r), Els(r))
  }

  function Finalized(cache: Cache, version: string, symbols: seq<string>, candidates: seq<Candidate>, analyzed: int,
                     insufficient: seq<string>, notes: string): (Cache, Result)
  {
    var key := KeyOf(symbols, version, candidates, insufficient);
    var made := Fresh(symbols, candidates, analyzed, insufficient, notes);
    if key in cache then (cache, cache[key]) else (cache[key := made], made)
  }

  function Discovered(cache: Cache, version: string, x: Inputs): (Cache, Result)
    requires x.Valid()
  {
    var n := |x.symbols|;
    if n == 0 then Finalized(cache, version, x.symbols, [], 0, [], "empty_universe_or_no_scan")
    else Finalized(cache, version, x.symbols, Enriched(x, n), n, Insufficient(x, n), "autonomous_scan_complete")
  }

  // ---- The engine ---------------------------------------------------------------------------

  class DiscoveryEngine {
    const version: string
    var results: Cache

    constructor (version: string)
      ensures this.version == version && results == map[]
    {
      this.version := version;
      results := map[];
    }

    method Discover(x: Inputs) returns (r: Result)
      requires x.Valid()
      modifies this
      ensures (results, r) == Discovered(old(results), version, x)
    {
      hide Finalized, Contribution;
      if |x.symbols| == 0 {
        r := Finalize(x.symbols, [], 0, [], "empty_universe_or_no_scan");
        return;
      }
      var enriched: seq<Candidate> := [];
      var insufficient: seq<string> := [];
      for i := 0 to |x.symbols|
        invariant results == old(results)
        invariant enriched == Enriched(x, i) && insufficient == Insufficient(x, i)
      {
        var more, short := Enrich(x, i);
        enriched := enriched + more;
        if short {
          insufficient := insufficient + [Scanned(x, i).instrument];
        }
      }
      r := Finalize(x.symbols, enriched, |x.symbols|, insufficient, "autonomous_scan_complete");
    }

    /** The body of the loop over scanned instruments, with the loop over strategies. */
    method Enrich(x: Inputs, i: nat) returns (more: seq<Candidate>, short: bool)
      requires x.Valid() && i < |x.symbols|
      ensures more == Contribution(x, i) && short == CountsAsInsufficient(x, i)
    {
      hide Build, MapPermission;
      var base := Scanned(x, i);
      if BadQuality(base.quality) {
        return [base], true;
      }
      var usable := x.Usable();
      if usable == [] {
        return [Build(x, base.instrument, None, base.quality, Eligibility.INSUFFICIENT_DATA, "HIGH")], true;
      }
      more := [];
      for j := 0 to |usable|
        invariant more == Pairs(x, i, j)
      {
        more := more + [Paired(x, i, j)];
      }
      short := false;
    }

    method Finalize(symbols: seq<string>, candidates: seq<Candidate>, analyzed: nat, insufficient: seq<string>,
                    notes: string)
      returns (r: Result)
      modifies this
      ensures (results, r) == Finalized(old(results), version, symbols, candidates, analyzed, insufficient, notes)
    {
      hide Rank, Keep;
      var ranked := Rank(candidates);
      var eligible, restricted := Keep(ranked, IsEligible), Keep(ranked, IsRestricted);
      var blocked := Keep(ranked, IsBlocked);
      var status := Decide(symbols, candidates, analyzed, insufficient);
      var key := ResultKey(symbols, version, status, Ids(ranked), Els(ranked));
      if key in results {
        return results[key];
      }
      var unique := Unique(insufficient);
      r := Result(status, |symbols|, analyzed, eligible, restricted, blocked, unique, Ids(ranked), notes);
      results := results[key := r];
    }

    /** The chain of status branches, as in the source. */
    method Decide(symbols: seq<string>, candidates: seq<Candidate>, analyzed: int, insufficient: seq<string>)
      returns (status: DiscoveryStatus)
      requires analyzed >= 0
      ensures status == StatusSpec(symbols, candidates, insufficient)
    {
      hide Rank, Keep;
      var ranked := Rank(candidates);
      var eligible, restricted := Keep(ranked, IsEligible), Keep(ranked, IsRestricted);
      var blocked := Keep(ranked, IsBlocked);
      KeptFromRanking(candidates, IsEligible);
      KeptFromRanking(candidates, IsRestricted);
      KeptFromRanking(candidates, IsBlocked);
      if eligible != [] {
        status := DiscoveryStatus.ELIGIBLE;
      } else if restricted != [] {
        status := DiscoveryStatus.RESTRICTED;
      } else if candidates == [] || (eligible == [] && restricted == [] && analyzed >= 0) {
        if insufficient != [] && blocked == [] && eligible == [] && restricted == [] {
          status := DiscoveryStatus.INSUFFICIENT_DATA;
        } else if eligible == [] && restricted == [] {
          status := NO_VALID_CANDIDATE;
        } else {
          status := DiscoveryStatus.BLOCKED;
        }
      } else {
        status := NO_VALID_CANDIDATE;
      }
      if symbols == [] {
        status := NO_VALID_CANDIDATE;
      }
    }

    method Unique(s: seq<string>) returns (r: seq<string>)
      ensures r == FirstOccurrences(s)
    {
      r := [];
      for i := 0 to |s|
        invariant r == FirstOccurrences(s[..i])
      {
        assert s[..i + 1][..i] == s[..i];
        if s[i] !in s[..i] {
          r := r + [s[i]];
        }
      }
      assert s[..|s|] == s;
    }
  }

  lemma KeptFromRanking(candidates: seq<Candidate>, p: Candidate -> bool)
    ensures Keep(Rank(candidates), p) == [] <==> forall c :: c in candidates ==> !p(c)
  {
    hide Rank, Keep;
    var r := Rank(candidates);
    BeforeIsTotalPreorder();
    assert multiset(r) == multiset(candidates) by {
      RankIsStableSortedPermutation(candidates, Key(0, 0, 0, 0.0, "", ""));
    }
    KeepIsExact(r, p);
    forall c ensures c in r <==> c in candidates {
      assert c in multiset(r) <==> c in multiset(candidates);
    }
    if Keep(r, p) != [] {
      var c := Keep(r, p)[0];
      assert c in Keep(r, p);
    }
  }
}
