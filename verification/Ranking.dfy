/** The ranking of discovery candidates: a lexicographic key and Python's `sorted`. */
module Ranking {
  import opened Common

  datatype Eligibility = ELIGIBLE | RESTRICTED | UNKNOWN | INSUFFICIENT_DATA | INELIGIBLE | BLOCKED

  datatype QualityStatus = VALID | UNKNOWN | STALE | INSUFFICIENT_DATA | INVALID

  /** `ranking_metadata["evidence_score"]`: a finite number, or something `float` refuses. */
  datatype Score = Number(x: real) | NotNumeric

  datatype Candidate = Candidate(
    id: string,
    instrument: string,
    strategy: Option<string>,
    quality: QualityStatus,
    eligibility: Eligibility,
    uncertainty: string,
    score: Option<Score>)

  function EligibilityOrder(e: Eligibility): nat {
    match e
    case ELIGIBLE => 0
    case RESTRICTED => 1
    case UNKNOWN => 2
    case INSUFFICIENT_DATA => 3
    case INELIGIBLE => 4
    case BLOCKED => 5
  }

  function QualityOrder(q: QualityStatus): nat {
    match q
    case VALID => 0
    case UNKNOWN => 1
    case STALE => 2
    case INSUFFICIENT_DATA => 3
    case INVALID => 4
  }

  function UncertaintyOrder(u: string): nat {
    var unc := if u == "" then "UNKNOWN" else Upper(u);
    if unc == "LOW" then 0
    else if unc == "MODERATE" || unc == "MEDIUM" then 1
    else if unc == "HIGH" then 2
    else 3
  }

  function ScoreKey(score: Option<Score>): real {
    if score.Some? && score.value.Number? then -score.value.x else 0.0
  }

  /** `_rank_key`: its four numbers, then the two names. */
  datatype Key = Key(eligibility: nat, quality: nat, uncertainty: nat, score: real, instrument: string, id: string)

  function RankKey(c: Candidate): Key {
    Key(EligibilityOrder(c.eligibility), QualityOrder(c.quality), UncertaintyOrder(c.uncertainty), ScoreKey(c.score),
        c.instrument, c.id)
  }

  /** Python's `<=` on these tuples: decided by the first component that differs. */
  predicate KeyLeq(a: Key, b: Key) {
    if a.eligibility != b.eligibility then a.eligibility < b.eligibility
    else if a.quality != b.quality then a.quality < b.quality
    else if a.uncertainty != b.uncertainty then a.uncertainty < b.uncertainty
    else if a.score != b.score then a.score < b.score
    else if a.instrument != b.instrument then StrLess(a.instrument, b.instrument)
    else !StrLess(b.id, a.id)
  }

  predicate Before(a: Candidate, b: Candidate) {
    KeyLeq(RankKey(a), RankKey(b))
  }

  function Rank(candidates: seq<Candidate>): seq<Candidate> {
    Sort(candidates, Before)
  }

  const BEST_FIRST: seq<Eligibility> := [
    Eligibility.ELIGIBLE, Eligibility.RESTRICTED, Eligibility.UNKNOWN, Eligibility.INSUFFICIENT_DATA,
    Eligibility.INELIGIBLE, Eligibility.BLOCKED]
  const CLEANEST_FIRST: seq<QualityStatus> := [
    QualityStatus.VALID, QualityStatus.UNKNOWN, QualityStatus.STALE, QualityStatus.INSUFFICIENT_DATA,
    QualityStatus.INVALID]

  lemma OrdersAreListed(e: Eligibility, q: QualityStatus)
    ensures EligibilityOrder(e) < |BEST_FIRST| && BEST_FIRST[EligibilityOrder(e)] == e
    ensures QualityOrder(q) < |CLEANEST_FIRST| && CLEANEST_FIRST[QualityOrder(q)] == q
  {
  }

  /** How sure a word is: of two that differ in it, the surer is ranked first; other words, and none, come last. */
  lemma SurerWords(u: string)
    ensures (UncertaintyOrder(u) == 0 <==> Upper(u) == "LOW")
    ensures (UncertaintyOrder(u) == 1 <==> Upper(u) in {"MODERATE", "MEDIUM"})
    ensures (UncertaintyOrder(u) == 2 <==> Upper(u) == "HIGH")
    ensures UncertaintyOrder(u) <= 3
  {
    assert Upper("") == "";
    hide Upper;
  }

  /** A missing score, or one that is no number, counts as 0. */
  function Worth(c: Candidate): real {
    match c.score
    case Some(Number(x)) => x
    case _ => 0.0
  }

  /** Of two candidates the one whose eligibility comes first in the list is ranked first; among equals the better
      data, then the surer, then the higher score; then the instrument and the id decide. */
  lemma BetterComesFirst(a: Candidate, b: Candidate)
    ensures var i, j := EligibilityOrder(a.eligibility), EligibilityOrder(b.eligibility);
            var k, l := QualityOrder(a.quality), QualityOrder(b.quality);
            var u, v := UncertaintyOrder(a.uncertainty), UncertaintyOrder(b.uncertainty);
            && (i < j ==> Before(a, b) && !Before(b, a))
            && (i == j && k < l ==> Before(a, b) && !Before(b, a))
            && (i == j && k == l && u < v ==> Before(a, b) && !Before(b, a))
            && (i == j && k == l && u == v && Worth(a) > Worth(b) ==> Before(a, b) && !Before(b, a))
            && (i == j && k == l && u == v && Worth(a) == Worth(b) ==>
                  && (StrLess(a.instrument, b.instrument) ==> Before(a, b))
                  && (a.instrument == b.instrument && StrLess(a.id, b.id) ==> Before(a, b)))
  {
    hide EligibilityOrder, QualityOrder, UncertaintyOrder, StrLess;
    if StrLess(a.id, b.id) && StrLess(b.id, a.id) {
      StrLessTransitive(a.id, b.id, a.id);
      StrLessIrreflexive(a.id);
    }
    if a.instrument == b.instrument {
      StrLessIrreflexive(a.instrument);
    }
  }

  function Ids(candidates: seq<Candidate>): (r: seq<string>)
    ensures |r| == |candidates| && forall i :: 0 <= i < |r| ==> r[i] == candidates[i].id
  {
    seq(|candidates|, i requires 0 <= i < |candidates| => candidates[i].id)
  }

  // ---- The order on keys --------------------------------------------------------------------

  lemma KeyLeqTotal(a: Key, b: Key)
    ensures KeyLeq(a, b) || KeyLeq(b, a)
    ensures KeyLeq(a, b) && KeyLeq(b, a) ==> a == b
  {
    hide StrLess;
    StrLessTotal(a.instrument, b.instrument);
    StrLessTotal(a.id, b.id);
    if StrLess(a.instrument, b.instrument) && StrLess(b.instrument, a.instrument) {
      StrLessTransitive(a.instrument, b.instrument, a.instrument);
      StrLessIrreflexive(a.instrument);
    }
    if StrLess(a.id, b.id) && StrLess(b.id, a.id) {
      StrLessTransitive(a.id, b.id, a.id);
      StrLessIrreflexive(a.id);
    }
  }

  lemma KeyLeqTransitive(a: Key, b: Key, c: Key)
    requires KeyLeq(a, b) && KeyLeq(b, c)
    ensures KeyLeq(a, c)
  {
    hide StrLess;
    if StrLess(a.instrument, b.instrument) && StrLess(b.instrument, c.instrument) {
      StrLessTransitive(a.instrument, b.instrument, c.instrument);
      if a.instrument == c.instrument {
        StrLessIrreflexive(a.instrument);
      }
    }
    if StrLess(c.id, a.id) {
      StrLessTotal(a.id, b.id);
      if StrLess(a.id, b.id) {
        StrLessTransitive(c.id, a.id, b.id);
      }
    }
  }

  lemma KeyLeqIsOrder()
    ensures TotalPreorder(KeyLeq) && Antisymmetric(KeyLeq)
  {
    hide KeyLeq;
    forall a, b ensures (KeyLeq(a, b) || KeyLeq(b, a)) && (KeyLeq(a, b) && KeyLeq(b, a) ==> a == b) {
      KeyLeqTotal(a, b);
    }
    forall a, b, c | KeyLeq(a, b) && KeyLeq(b, c) ensures KeyLeq(a, c) {
      KeyLeqTransitive(a, b, c);
    }
  }

  lemma BeforeIsTotalPreorder()
    ensures TotalPreorder(Before)
  {
    hide KeyLeq, RankKey;
    forall a, b ensures Before(a, b) || Before(b, a) {
      KeyLeqTotal(RankKey(a), RankKey(b));
    }
    forall a, b, c | Before(a, b) && Before(b, c) ensures Before(a, c) {
      KeyLeqTransitive(RankKey(a), RankKey(b), RankKey(c));
    }
  }

  // ---- The ranking is canonical -------------------------------------------------------------

  /** The result is an ordered permutation, and candidates with one key stay in input order: with `sorted` on a total
      preorder, this pins the output down. */
  lemma RankIsStableSortedPermutation(candidates: seq<Candidate>, key: Key)
    ensures SortedBy(Rank(candidates), Before)
    ensures multiset(Rank(candidates)) == multiset(candidates)
    ensures Keep(Rank(candidates), c => RankKey(c) == key) == Keep(candidates, c => RankKey(c) == key)
  {
    BeforeIsTotalPreorder();
    SortIsSortedPermutation(candidates, Before);
    forall x, y | RankKey(x) == key && RankKey(y) == key ensures Before(x, y) {
      KeyLeqTotal(key, key);
    }
    SortIsStable(candidates, Before, c => RankKey(c) == key);
  }

  function Keys(candidates: seq<Candidate>): (r: seq<Key>)
    ensures |r| == |candidates| && forall i :: 0 <= i < |r| ==> r[i] == RankKey(candidates[i])
  {
    seq(|candidates|, i requires 0 <= i < |candidates| => RankKey(candidates[i]))
  }

  lemma KeysWithoutOne(s: seq<Candidate>, i: nat)
    requires i < |s|
    ensures multiset(Keys(s)) == multiset{RankKey(s[i])} + multiset(Keys(s[..i] + s[i + 1..]))
  {
    hide RankKey;
    assert Keys(s[..i] + s[i + 1..]) == Keys(s)[..i] + Keys(s)[i + 1..];
    RemoveOne(Keys(s), i);
  }

  lemma {:induction false} KeysOfPermutation(a: seq<Candidate>, b: seq<Candidate>)
    requires multiset(a) == multiset(b)
    ensures multiset(Keys(a)) == multiset(Keys(b))
  {
    hide *;
    if a == [] {
      assert |multiset(b)| == 0;
      assert b == [];
    } else {
      var i := Occurs(a[0], a, b);
      RemoveSame(a, 0, b, i);
      KeysOfPermutation(a[..0] + a[1..], b[..i] + b[i + 1..]);
      KeysWithoutOne(a, 0);
      KeysWithoutOne(b, i);
    }
  }

  /** Two input orders of the same candidates give the same ranking of ids (and of every other part of the key). */
  lemma RankingIsCanonical(a: seq<Candidate>, b: seq<Candidate>)
    requires multiset(a) == multiset(b)
    ensures Keys(Rank(a)) == Keys(Rank(b))
    ensures Ids(Rank(a)) == Ids(Rank(b))
  {
    BeforeIsTotalPreorder();
    SortIsSortedPermutation(a, Before);
    SortIsSortedPermutation(b, Before);
    KeysOfPermutation(Rank(a), Rank(b));
    assert SortedBy(Keys(Rank(a)), KeyLeq) && SortedBy(Keys(Rank(b)), KeyLeq) by { hide KeyLeq, RankKey, Rank; }
    KeyLeqIsOrder();
    OneSortedListing(Keys(Rank(a)), Keys(Rank(b)), KeyLeq);
    assert |Rank(a)| == |Rank(b)| && forall i :: 0 <= i < |Rank(a)| ==> Keys(Rank(a))[i] == Keys(Rank(b))[i];
    forall i | 0 <= i < |Rank(a)| ensures Rank(a)[i].id == Rank(b)[i].id {
      assert RankKey(Rank(a)[i]) == RankKey(Rank(b)[i]);
    }
  }

  // ---- The ranking falls into blocks --------------------------------------------------------

  predicate IsEligible(c: Candidate) { c.eligibility.ELIGIBLE? }

  predicate IsRestricted(c: Candidate) { c.eligibility.RESTRICTED? }

  predicate IsUndecided(c: Candidate) { c.eligibility.UNKNOWN? || c.eligibility.INSUFFICIENT_DATA? }

  predicate IsBlocked(c: Candidate) { c.eligibility.BLOCKED? || c.eligibility.INELIGIBLE? }

  lemma ConsBlocks<T>(c: T, e: seq<T>, r: seq<T>, u: seq<T>, b: seq<T>)
    ensures [c] + (e + r + u + b) == ([c] + e) + r + u + b
    ensures e == [] ==> [c] + (e + r + u + b) == e + ([c] + r) + u + b
    ensures e + r == [] ==> [c] + (e + r + u + b) == e + r + ([c] + u) + b
    ensures e + r + u == [] ==> [c] + (e + r + u + b) == e + r + u + ([c] + b)
  {
  }

  lemma KeepOne(c: Candidate, rest: seq<Candidate>, p: Candidate -> bool)
    ensures Keep([c] + rest, p) == (if p(c) then [c] + Keep(rest, p) else Keep(rest, p))
  {
    assert ([c] + rest)[1..] == rest;
  }

  function Blocks(s: seq<Candidate>): seq<Candidate> {
    Keep(s, IsEligible) + Keep(s, IsRestricted) + Keep(s, IsUndecided) + Keep(s, IsBlocked)
  }

  lemma {:induction false} OrderedIsBlocks(s: seq<Candidate>)
    requires forall i, j :: 0 <= i < j < |s| ==>
               EligibilityOrder(s[i].eligibility) <= EligibilityOrder(s[j].eligibility)
    ensures s == Blocks(s)
  {
    if s != [] {
      OrderedIsBlocks(s[1..]);
      FirstJoinsItsBlock(s[0], s[1..]);
      assert s == [s[0]] + s[1..];
    }
  }

  lemma FirstJoinsItsBlock(c: Candidate, rest: seq<Candidate>)
    requires forall x :: x in rest ==> EligibilityOrder(c.eligibility) <= EligibilityOrder(x.eligibility)
    ensures Blocks([c] + rest) == [c] + Blocks(rest)
  {
    hide Keep;
    KeepOne(c, rest, IsEligible);
    KeepOne(c, rest, IsRestricted);
    KeepOne(c, rest, IsUndecided);
    KeepOne(c, rest, IsBlocked);
    ConsBlocks(c, Keep(rest, IsEligible), Keep(rest, IsRestricted), Keep(rest, IsUndecided), Keep(rest, IsBlocked));
    if !IsEligible(c) {
      NothingKept(rest, IsEligible);
    }
    if !IsEligible(c) && !IsRestricted(c) {
      NothingKept(rest, IsRestricted);
    }
    if IsBlocked(c) {
      NothingKept(rest, IsUndecided);
    }
  }

  lemma NothingKept(s: seq<Candidate>, p: Candidate -> bool)
    requires forall x :: x in s ==> !p(x)
    ensures Keep(s, p) == []
  {
    hide Keep;
    if Keep(s, p) != [] {
      assert Keep(s, p)[0] in Keep(s, p);
      assert false;
    }
  }

  /** The lists cut out of a ranking are its consecutive blocks: eligible first, then restricted, blocked last. */
  lemma RankingIsBlocks(candidates: seq<Candidate>)
    ensures Rank(candidates) == Blocks(Rank(candidates))
  {
    BeforeIsTotalPreorder();
    SortIsSortedPermutation(candidates, Before);
    var r := Rank(candidates);
    hide StrLess, Rank;
    forall i, j | 0 <= i < j < |r| ensures EligibilityOrder(r[i].eligibility) <= EligibilityOrder(r[j].eligibility) {
      assert Before(r[i], r[j]);
    }
    OrderedIsBlocks(r);
  }
}
