/** The shadow-decision store: an index by id, revision lists by root, and an eviction order, under two limits. */
module ShadowStore {
  import opened Common

  datatype Decision = Decision(decisionId: string, parentId: Option<string>, revision: int, content: string)

  /** `parent_decision_id or decision_id` */
  function Root(d: Decision): string {
    if d.parentId.Some? && d.parentId.value != "" then d.parentId.value else d.decisionId
  }

  datatype Config = Config(maxDecisions: int, maxRevisions: int)

  datatype Store = Store(byId: map<string, Decision>, revisions: map<string, seq<Decision>>, order: seq<string>)

  datatype PutResult = Returned(decision: Decision) | IndexError

  const EMPTY := Store(map[], map[], [])

  function RevisionsOf(s: Store, root: string): seq<Decision> {
    if root in s.revisions then s.revisions[root] else []
  }

  /** Evicts the oldest ids until the order fits; popping from an empty order raises. */
  function TrimSpec(cfg: Config, s: Store): (Store, bool)
    decreases |s.order|
  {
    if |s.order| <= cfg.maxDecisions then (s, true)
    else if s.order == [] then (s, false)
    else TrimSpec(cfg, s.(order := s.order[1..], byId := s.byId - {s.order[0]}))
  }

  /** Makes room in the revision list of the decision's root; None when there is nothing to pop. */
  function MakeRoom(cfg: Config, s: Store, root: string): Option<Store> {
    var revs := RevisionsOf(s, root);
    if |revs| < cfg.maxRevisions then Some(s.(revisions := s.revisions[root := revs]))
    else if revs == [] then None
    else Some(s.(revisions := s.revisions[root := revs[1..]], byId := s.byId - {revs[0].decisionId}))
  }

  function Enter(s: Store, d: Decision): Store {
    Store(s.byId[d.decisionId := d],
          s.revisions[Root(d) := RevisionsOf(s, Root(d)) + [d]],
          if d.decisionId in s.order then s.order else s.order + [d.decisionId])
  }

  function PutSpec(cfg: Config, s: Store, d: Decision): (Store, PutResult) {
    if d.decisionId in s.byId then (s, Returned(s.byId[d.decisionId]))
    else match MakeRoom(cfg, s, Root(d))
      case None => (s.(revisions := s.revisions[Root(d) := []]), IndexError)
      case Some(roomy) =>
        var (t, ok) := TrimSpec(cfg, Enter(roomy, d));
        (t, if ok then Returned(d) else IndexError)
  }

  function Get(s: Store, id: string): Option<Decision> {
    if id in s.byId then Some(s.byId[id]) else None
  }

  class ShadowDecisionStore {
    const config: Config
    var byId: map<string, Decision>
    var revisions: map<string, seq<Decision>>
    var order: seq<string>

    ghost function Model(): Store
      reads this
    {
      Store(byId, revisions, order)
    }

    constructor (config: Config)
      ensures Model() == EMPTY && this.config == config
    {
      this.config := config;
      byId, revisions, order := map[], map[], [];
    }

    method Put(d: Decision) returns (r: PutResult)
      modifies this
      ensures (Model(), r) == PutSpec(config, old(Model()), d)
    {
      hide TrimSpec;
      var root := Root(d);
      if d.decisionId in byId {
        return Returned(byId[d.decisionId]);
      }
      var revs := if root in revisions then revisions[root] else [];
      revisions := revisions[root := revs];
      if |revs| >= config.maxRevisions {
        if revs == [] {
          return IndexError;
        }
        var oldest := revs[0];
        revs := revs[1..];
        revisions := revisions[root := revs];
        byId := byId - {oldest.decisionId};
      }
      assert revisions == old(revisions)[root := revs];
      ghost var roomy := Model();
      assert MakeRoom(config, old(Model()), root) == Some(roomy);
      revisions := revisions[root := revs + [d]];
      byId := byId[d.decisionId := d];
      if d.decisionId !in order {
        order := order + [d.decisionId];
      }
      assert Model() == Enter(roomy, d);
      var ok := Trim();
      r := if ok then Returned(d) else IndexError;
    }

    method Trim() returns (ok: bool)
      modifies this
      ensures (Model(), ok) == TrimSpec(config, old(Model()))
    {
      while |order| > config.maxDecisions
        invariant TrimSpec(config, Model()) == TrimSpec(config, old(Model()))
        decreases |order|
      {
        if order == [] {
          return false;
        }
        var oldest := order[0];
        order := order[1..];
        byId := byId - {oldest};
      }
      ok := true;
    }

    method Lookup(id: string) returns (d: Option<Decision>)
      ensures d == Get(Model(), id)
    {
      d := if id in byId then Some(byId[id]) else None;
    }
  }

  // ---- Consistency -------------------------------------------------------------------------

  ghost predicate Indexed(s: Store) {
    forall id :: id in s.byId ==>
      && s.byId[id].decisionId == id
      && id in s.order
      && s.byId[id] in RevisionsOf(s, Root(s.byId[id]))
  }

  ghost predicate RevisionsOk(cfg: Config, s: Store) {
    forall root :: root in s.revisions ==>
      |s.revisions[root]| <= cfg.maxRevisions && forall d :: d in s.revisions[root] ==> Root(d) == root
  }

  ghost predicate Consistent(cfg: Config, s: Store) {
    && Distinct(s.order)
    && |s.order| <= cfg.maxDecisions
    && Indexed(s)
    && RevisionsOk(cfg, s)
  }

  lemma PopRevisionKeepsIndexed(s: Store, root: string)
    requires Indexed(s) && RevisionsOf(s, root) != []
    ensures var revs := RevisionsOf(s, root);
            Indexed(s.(revisions := s.revisions[root := revs[1..]], byId := s.byId - {revs[0].decisionId}))
  {
    hide Root;
    var revs := RevisionsOf(s, root);
    var t := s.(revisions := s.revisions[root := revs[1..]], byId := s.byId - {revs[0].decisionId});
    forall id | id in t.byId ensures t.byId[id] in RevisionsOf(t, Root(t.byId[id])) {
      var d := s.byId[id];
      assert d in RevisionsOf(s, Root(d));
      if Root(d) == root {
        assert revs == [revs[0]] + revs[1..];
        assert d != revs[0];
      }
    }
  }

  lemma MakeRoomKeeps(cfg: Config, s: Store, root: string)
    requires cfg.maxRevisions >= 1 && Consistent(cfg, s)
    ensures MakeRoom(cfg, s, root).Some?
    ensures var t := MakeRoom(cfg, s, root).value;
            && Consistent(cfg, t) && |RevisionsOf(t, root)| < cfg.maxRevisions
            && t.order == s.order && t.byId.Keys <= s.byId.Keys
  {
    hide Root, Distinct;
    var revs := RevisionsOf(s, root);
    if |revs| >= cfg.maxRevisions {
      hide Indexed;
      PopRevisionKeepsIndexed(s, root);
    }
  }

  /** A store that is consistent except that its order may be one too long, the newest id last. */
  ghost predicate Overfull(cfg: Config, s: Store, newest: string) {
    && Distinct(s.order)
    && newest in s.byId && newest in s.order
    && (|s.order| <= cfg.maxDecisions || (|s.order| == cfg.maxDecisions + 1 && s.order[|s.order| - 1] == newest))
    && Indexed(s)
    && RevisionsOk(cfg, s)
  }

  lemma EnterKeeps(cfg: Config, s: Store, d: Decision)
    requires cfg.maxDecisions >= 1 && Consistent(cfg, s) && d.decisionId !in s.byId
    requires |RevisionsOf(s, Root(d))| < cfg.maxRevisions
    ensures Overfull(cfg, Enter(s, d), d.decisionId)
    ensures Enter(s, d).byId[d.decisionId] == d
  {
    var t := Enter(s, d);
    forall id | id in t.byId ensures t.byId[id] in RevisionsOf(t, Root(t.byId[id])) && id in t.order {
      if id != d.decisionId {
        assert s.byId[id] in RevisionsOf(s, Root(s.byId[id]));
      }
    }
  }

  /** One step of trimming is enough for an order that is one too long. */
  lemma TrimPopsOne(cfg: Config, s: Store)
    requires cfg.maxDecisions >= 0 && |s.order| == cfg.maxDecisions + 1
    ensures TrimSpec(cfg, s) == (s.(order := s.order[1..], byId := s.byId - {s.order[0]}), true)
  {
    var t := s.(order := s.order[1..], byId := s.byId - {s.order[0]});
    assert TrimSpec(cfg, s) == TrimSpec(cfg, t);
  }

  lemma TrimRestores(cfg: Config, s: Store, newest: string)
    requires cfg.maxDecisions >= 1 && Overfull(cfg, s, newest)
    ensures TrimSpec(cfg, s).1 && Consistent(cfg, TrimSpec(cfg, s).0)
    ensures newest in TrimSpec(cfg, s).0.byId && TrimSpec(cfg, s).0.byId[newest] == s.byId[newest]
    ensures TrimSpec(cfg, s).0.revisions == s.revisions
  {
    if |s.order| > cfg.maxDecisions {
      hide RevisionsOk, RevisionsOf, Root, TrimSpec;
      TrimPopsOne(cfg, s);
      PopKeepsIndexed(s);
      var t := s.(order := s.order[1..], byId := s.byId - {s.order[0]});
      RevisionsOkIgnores(cfg, s, t);
      assert s.order[0] != newest;
    }
  }

  lemma RevisionsOkIgnores(cfg: Config, s: Store, t: Store)
    requires RevisionsOk(cfg, s) && t.revisions == s.revisions
    ensures RevisionsOk(cfg, t)
  {
  }

  lemma PopKeepsIndexed(s: Store)
    requires Indexed(s) && s.order != []
    ensures Indexed(s.(order := s.order[1..], byId := s.byId - {s.order[0]}))
  {
    assert s.order == [s.order[0]] + s.order[1..];
  }

  /** What a `put` evicts, exactly: from a full revision list its oldest id, and from a full order its oldest id. */
  lemma PutEvictsExactly(cfg: Config, s: Store, d: Decision)
    requires cfg.maxDecisions >= 1 && cfg.maxRevisions >= 1 && Consistent(cfg, s) && d.decisionId !in s.byId
    ensures var t := PutSpec(cfg, s, d).0;
            var revs := RevisionsOf(s, Root(d));
            var byRevision := if |revs| >= cfg.maxRevisions then {revs[0].decisionId} else {};
            var grown := if d.decisionId in s.order then s.order else s.order + [d.decisionId];
            var byAge := if |grown| > cfg.maxDecisions then {grown[0]} else {};
            && t.byId == (s.byId - byRevision)[d.decisionId := d] - byAge
            && t.order == (if |grown| > cfg.maxDecisions then grown[1..] else grown)
            && t.revisions == s.revisions[Root(d) := (if |revs| >= cfg.maxRevisions then revs[1..] else revs) + [d]]
  {
    hide Consistent;
    MakeRoomKeeps(cfg, s, Root(d));
    var roomy := MakeRoom(cfg, s, Root(d)).value;
    OrderFits(cfg, s);
    var full := Enter(roomy, d);
    if |full.order| > cfg.maxDecisions {
      TrimPopsOne(cfg, full);
    }
    var revs := RevisionsOf(roomy, Root(d));
    assert full.revisions == s.revisions[Root(d) := revs + [d]];
  }

  /** Where a put files a decision: with its parent's revisions, or with its own where it names no parent; last in
      that list, which keeps its other entries but for the oldest of a full one. No other list changes. */
  lemma PutFilesExactly(cfg: Config, s: Store, d: Decision)
    requires cfg.maxDecisions >= 1 && cfg.maxRevisions >= 1 && Consistent(cfg, s) && d.decisionId !in s.byId
    ensures var t := PutSpec(cfg, s, d).0;
            var root := if d.parentId in {None, Some("")} then d.decisionId else d.parentId.value;
            && root in t.revisions
            && var list := t.revisions[root];
            && t.revisions == s.revisions[root := list]
            && |list| >= 1 && list[|list| - 1] == d
            && (root !in s.revisions ==> list == [d])
            && (root in s.revisions && |s.revisions[root]| < cfg.maxRevisions ==> list == s.revisions[root] + [d])
            && (root in s.revisions && |s.revisions[root]| >= cfg.maxRevisions ==> list == s.revisions[root][1..] + [d])
  {
    hide PutSpec, Consistent;
    PutEvictsExactly(cfg, s, d);
    assert [] + [d] == [d];
    assert Root(d) == if d.parentId in {None, Some("")} then d.decisionId else d.parentId.value;
  }

  lemma OrderFits(cfg: Config, s: Store)
    requires Consistent(cfg, s)
    ensures |s.order| <= cfg.maxDecisions
  {
  }

  /** With both limits positive, `put` never raises, keeps the three structures consistent, and the decision just put
      (or the one already stored under its id) can be fetched. Stale ids in the order do no harm. */
  lemma PutKeepsConsistent(cfg: Config, s: Store, d: Decision)
    requires cfg.maxDecisions >= 1 && cfg.maxRevisions >= 1 && Consistent(cfg, s)
    ensures var (t, r) := PutSpec(cfg, s, d);
            && Consistent(cfg, t)
            && r.Returned? && r.decision.decisionId == d.decisionId
            && Get(t, d.decisionId) == Some(r.decision)
            && (d.decisionId !in s.byId ==> r.decision == d)
            && t.revisions.Keys == s.revisions.Keys + if d.decisionId in s.byId then {} else {Root(d)}
  {
    hide Consistent, Overfull;
    if d.decisionId in s.byId {
      StoredUnderItsId(cfg, s, d.decisionId);
    } else {
      MakeRoomKeeps(cfg, s, Root(d));
      var roomy := MakeRoom(cfg, s, Root(d)).value;
      EnterKeeps(cfg, roomy, d);
      TrimRestores(cfg, Enter(roomy, d), d.decisionId);
    }
  }

  lemma StoredUnderItsId(cfg: Config, s: Store, id: string)
    requires Consistent(cfg, s) && id in s.byId
    ensures s.byId[id].decisionId == id
  {
  }

  function Run(cfg: Config, puts: seq<Decision>): Store {
    if puts == [] then EMPTY else PutSpec(cfg, Run(cfg, puts[..|puts| - 1]), puts[|puts| - 1]).0
  }

  lemma {:induction false} RunsAreConsistent(cfg: Config, puts: seq<Decision>)
    requires cfg.maxDecisions >= 1 && cfg.maxRevisions >= 1
    ensures Consistent(cfg, Run(cfg, puts))
  {
    if puts != [] {
      RunsAreConsistent(cfg, puts[..|puts| - 1]);
      PutKeepsConsistent(cfg, Run(cfg, puts[..|puts| - 1]), puts[|puts| - 1]);
    }
  }

  // ---- The limits --------------------------------------------------------------------------

  /** `get` right after `put` finds the decision. */
  ghost predicate PutThenGetWorks(cfg: Config, s: Store, d: Decision) {
    var (t, r) := PutSpec(cfg, s, d);
    r.Returned? && r.decision.decisionId == d.decisionId && Get(t, d.decisionId) == Some(r.decision)
  }

  /** Without two positive limits nothing stays indexed. */
  lemma {:induction false} BadLimitsIndexNothing(cfg: Config, puts: seq<Decision>)
    requires cfg.maxDecisions < 1 || cfg.maxRevisions < 1
    ensures var s := Run(cfg, puts);
            && s.byId == map[] && s.order == []
            && (cfg.maxRevisions < 1 ==> forall root :: root in s.revisions ==> s.revisions[root] == [])
  {
    if puts != [] {
      var s, d := Run(cfg, puts[..|puts| - 1]), puts[|puts| - 1];
      BadLimitsIndexNothing(cfg, puts[..|puts| - 1]);
      if cfg.maxRevisions >= 1 {
        LoneEntryIsTrimmed(cfg, Enter(MakeRoom(cfg, s, Root(d)).value, d));
      }
    }
  }

  lemma LoneEntryIsTrimmed(cfg: Config, s: Store)
    requires cfg.maxDecisions < 1 && |s.order| == 1 && s.byId.Keys == {s.order[0]}
    ensures TrimSpec(cfg, s).0.byId == map[] && TrimSpec(cfg, s).0.order == []
  {
    var t := s.(order := s.order[1..], byId := s.byId - {s.order[0]});
    assert t.byId == map[] && t.order == [];
    assert TrimSpec(cfg, s) == TrimSpec(cfg, t);
  }

  /** In every reachable store, and for every decision, put-then-get works if and only if both limits are positive. */
  lemma PutThenGetExactly(cfg: Config, puts: seq<Decision>, d: Decision)
    ensures PutThenGetWorks(cfg, Run(cfg, puts), d) <==> cfg.maxDecisions >= 1 && cfg.maxRevisions >= 1
  {
    if cfg.maxDecisions >= 1 && cfg.maxRevisions >= 1 {
      RunsAreConsistent(cfg, puts);
      PutKeepsConsistent(cfg, Run(cfg, puts), d);
    } else {
      BadLimitsIndexNothing(cfg, puts);
      BadLimitsIndexNothing(cfg, puts + [d]);
      assert (puts + [d])[..|puts|] == puts;
    }
  }

  /** The k-th put finds its id not indexed (never put, or evicted since). */
  predicate Arrives(cfg: Config, puts: seq<Decision>, k: int) {
    0 <= k < |puts| && puts[k].decisionId !in Run(cfg, puts[..k]).byId
  }

  ghost predicate IsRootOfArrival(cfg: Config, puts: seq<Decision>, root: string) {
    exists k :: Arrives(cfg, puts, k) && Root(puts[k]) == root
  }

  lemma OneMorePut(cfg: Config, past: seq<Decision>, d: Decision, root: string)
    ensures IsRootOfArrival(cfg, past + [d], root) <==>
            IsRootOfArrival(cfg, past, root) || (d.decisionId !in Run(cfg, past).byId && Root(d) == root)
  {
    hide Run, Root;
    var puts, n := past + [d], |past|;
    assert puts[..n] == past && puts[n] == d;
    forall k | 0 <= k < n ensures Arrives(cfg, past, k) <==> Arrives(cfg, puts, k) {
      assert past[..k] == puts[..k];
    }
    if IsRootOfArrival(cfg, past, root) {
      var k :| Arrives(cfg, past, k) && Root(past[k]) == root;
      assert Arrives(cfg, puts, k) && Root(puts[k]) == root;
    }
    if d.decisionId !in Run(cfg, past).byId && Root(d) == root {
      assert Arrives(cfg, puts, n) && Root(puts[n]) == root;
    }
  }

  /** The revision table is outside both limits: after any run its keys are exactly the roots of the decisions that
      were not indexed when they were put. So it only grows, with every new root. */
  lemma {:induction false} TableHoldsEveryRoot(cfg: Config, puts: seq<Decision>, root: string)
    requires cfg.maxDecisions >= 1 && cfg.maxRevisions >= 1
    ensures root in Run(cfg, puts).revisions <==> IsRootOfArrival(cfg, puts, root)
  {
    hide Consistent, PutSpec, Get, Root, IsRootOfArrival;
    if puts == [] {
      NothingArrived(cfg, root);
    } else {
      var past, d := puts[..|puts| - 1], puts[|puts| - 1];
      TableHoldsEveryRoot(cfg, past, root);
      RunsAreConsistent(cfg, past);
      PutKeepsConsistent(cfg, Run(cfg, past), d);
      assert puts == past + [d];
      OneMorePut(cfg, past, d, root);
    }
  }

  lemma NothingArrived(cfg: Config, root: string)
    ensures !IsRootOfArrival(cfg, [], root)
  {
  }

  /** With parentless decisions it keeps one list for every id ever put,
      whatever was evicted from the index. */
  lemma {:induction false} RevisionTableNeverShrinks(cfg: Config, puts: seq<Decision>)
    requires cfg.maxDecisions >= 1 && cfg.maxRevisions >= 1
    requires forall d :: d in puts ==> d.parentId.None?
    ensures Run(cfg, puts).revisions.Keys == IdsOf(puts)
  {
    hide Consistent, PutSpec, Get, IdsOf;
    if puts == [] {
      NoIds();
    } else {
      var past, d := puts[..|puts| - 1], puts[|puts| - 1];
      var s := Run(cfg, past);
      RevisionTableNeverShrinks(cfg, past);
      RunsAreConsistent(cfg, past);
      PutKeepsConsistent(cfg, s, d);
      IdsGrow(puts);
      if d.decisionId in s.byId {
        ParentlessRoots(cfg, past);
        IndexedRootIsKey(cfg, s, d.decisionId);
      }
    }
  }

  function IdsOf(puts: seq<Decision>): set<string> {
    set d | d in puts :: d.decisionId
  }

  lemma NoIds()
    ensures IdsOf([]) == {}
  {
  }

  lemma IdsGrow(puts: seq<Decision>)
    requires puts != []
    ensures IdsOf(puts) == IdsOf(puts[..|puts| - 1]) + {puts[|puts| - 1].decisionId}
  {
    assert puts == puts[..|puts| - 1] + [puts[|puts| - 1]];
  }

  lemma IndexedRootIsKey(cfg: Config, s: Store, id: string)
    requires Consistent(cfg, s) && id in s.byId
    ensures Root(s.byId[id]) in s.revisions && s.byId[id].decisionId == id
  {
    var d := s.byId[id];
    assert d in RevisionsOf(s, Root(d));
  }

  lemma {:induction false} ParentlessRoots(cfg: Config, puts: seq<Decision>)
    requires cfg.maxDecisions >= 1 && cfg.maxRevisions >= 1
    requires forall d :: d in puts ==> d.parentId.None?
    ensures forall id :: id in Run(cfg, puts).byId ==> Run(cfg, puts).byId[id].parentId.None?
  {
    if puts != [] {
      var past, d := puts[..|puts| - 1], puts[|puts| - 1];
      ParentlessRoots(cfg, past);
      if d.decisionId !in Run(cfg, past).byId && MakeRoom(cfg, Run(cfg, past), Root(d)).Some? {
        TrimOnlyRemoves(cfg, Enter(MakeRoom(cfg, Run(cfg, past), Root(d)).value, d));
      }
    }
  }

  lemma {:induction false} TrimOnlyRemoves(cfg: Config, s: Store)
    ensures forall id :: id in TrimSpec(cfg, s).0.byId ==> id in s.byId && TrimSpec(cfg, s).0.byId[id] == s.byId[id]
    decreases |s.order|
  {
    if |s.order| > cfg.maxDecisions && s.order != [] {
      TrimOnlyRemoves(cfg, s.(order := s.order[1..], byId := s.byId - {s.order[0]}));
    }
  }
}
