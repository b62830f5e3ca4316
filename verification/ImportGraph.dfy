/** Reachability over the import graph, and the orphan list of the source audit. */
module ImportGraph {
  import opened Common

  type Module = string
  type Graph = map<Module, set<Module>>

  function Imports(g: Graph, m: Module): set<Module> {
    if m in g then g[m] else {}
  }

  /** A chain of imports: each module imports the next. */
  ghost predicate IsPath(g: Graph, path: seq<Module>) {
    path != [] && forall i :: 0 <= i < |path| - 1 ==> path[i + 1] in Imports(g, path[i])
  }

  ghost predicate PathTo(g: Graph, entries: set<Module>, path: seq<Module>, m: Module) {
    IsPath(g, path) && path[0] in entries && path[|path| - 1] == m
  }

  ghost predicate Reachable(g: Graph, entries: set<Module>, m: Module) {
    exists path :: PathTo(g, entries, path, m)
  }

  lemma EntryIsReachable(g: Graph, entries: set<Module>, m: Module)
    requires m in entries
    ensures Reachable(g, entries, m)
  {
    assert PathTo(g, entries, [m], m);
  }

  lemma ImportIsReachable(g: Graph, entries: set<Module>, m: Module, n: Module)
    requires Reachable(g, entries, m) && n in Imports(g, m)
    ensures Reachable(g, entries, n)
  {
    var path :| PathTo(g, entries, path, m);
    assert PathTo(g, entries, path + [n], n);
  }

  /** A set that contains the entries and is closed under imports contains everything reachable. */
  lemma {:induction false} ClosedSetHoldsPath(g: Graph, s: set<Module>, path: seq<Module>)
    requires IsPath(g, path) && path[0] in s
    requires forall m :: m in s ==> Imports(g, m) <= s
    ensures path[|path| - 1] in s
  {
    if |path| > 1 {
      assert path[1] in Imports(g, path[0]);
      ClosedSetHoldsPath(g, s, path[1..]);
    }
  }

  /** All modules the graph mentions: the bound on the worklist's growth. */
  function Universe(g: Graph, entries: set<Module>): set<Module> {
    entries + g.Keys + set m, n | m in g && n in g[m] :: n
  }

  /** Follows the imports of one module: each one not reached before is marked and queued. */
  method Follow(g: Graph, ghost roots: set<Module>, x: Module, reached: set<Module>, q: seq<Module>)
    returns (r: set<Module>, queue: seq<Module>)
    requires x in reached && reached <= Universe(g, roots)
    requires forall m :: m in reached ==> Reachable(g, roots, m)
    ensures r == reached + Imports(g, x) && r <= Universe(g, roots)
    ensures forall m :: m in r ==> Reachable(g, roots, m)
    ensures forall m :: m in queue <==> m in q || m in r - reached
    ensures r == reached ==> queue == q
  {
    r, queue := reached, q;
    var todo := Imports(g, x);
    ImportsAreKnown(g, roots, x);
    while todo != {}
      invariant todo <= Imports(g, x)
      invariant reached <= r <= Universe(g, roots)
      invariant r == reached + (Imports(g, x) - todo)
      invariant forall m :: m in r ==> Reachable(g, roots, m)
      invariant forall m :: m in queue <==> m in q || m in r - reached
      invariant r == reached ==> queue == q
      decreases todo
    {
      hide Reachable, Imports, Universe;
      var y :| y in todo;
      todo := todo - {y};
      if y !in r {
        ImportIsReachable(g, roots, x, y);
        r := r + {y};
        queue := queue + [y];
      }
    }
  }

  lemma ImportsAreKnown(g: Graph, roots: set<Module>, x: Module)
    ensures Imports(g, x) <= Universe(g, roots)
  {
  }

  /** The worklist of the audit: a queue of modules whose imports are still to be followed. */
  method Reach(g: Graph, entries: seq<Module>) returns (reachable: set<Module>)
    ensures forall m :: m in reachable <==> Reachable(g, ToSet(entries), m)
  {
    hide Reachable, Imports, Universe;
    var roots := ToSet(entries);
    reachable := roots;
    var q := entries;
    RootsAreReachable(g, roots);
    while q != []
      invariant roots <= reachable <= Universe(g, roots)
      invariant forall m :: m in reachable ==> Reachable(g, roots, m)
      invariant forall m :: m in q ==> m in reachable
      invariant forall m :: m in reachable && m !in q ==> Imports(g, m) <= reachable
      decreases Universe(g, roots) - reachable, |q|
    {
      var x := q[0];
      assert q == [x] + q[1..];
      reachable, q := Follow(g, roots, x, reachable, q[1..]);
    }
    ClosedSetHoldsAll(g, roots, reachable);
  }

  lemma RootsAreReachable(g: Graph, roots: set<Module>)
    ensures roots <= Universe(g, roots)
    ensures forall m :: m in roots ==> Reachable(g, roots, m)
  {
    forall m | m in roots ensures Reachable(g, roots, m) {
      EntryIsReachable(g, roots, m);
    }
  }

  lemma ClosedSetHoldsAll(g: Graph, roots: set<Module>, s: set<Module>)
    requires roots <= s && forall m :: m in s ==> Imports(g, m) <= s
    ensures forall m :: Reachable(g, roots, m) ==> m in s
  {
    forall m | Reachable(g, roots, m) ensures m in s {
      var path :| PathTo(g, roots, path, m);
      ClosedSetHoldsPath(g, s, path);
    }
  }

  /** `m.split('.')[0]` */
  function TopPackage(m: Module): string {
    if m == [] || m[0] == '.' then [] else [m[0]] + TopPackage(m[1..])
  }

  const PACKAGES: set<string> := {"god", "src", "nvra_unified"}
  const INIT := ".__init__"

  predicate EndsWith(m: string, suffix: string) {
    |m| >= |suffix| && m[|m| - |suffix|..] == suffix
  }

  predicate Counted(m: Module) {
    TopPackage(m) in PACKAGES && !EndsWith(m, INIT)
  }

  /** A module belongs to the package it is named after, itself or with a dot behind. */
  predicate Within(m: Module, package: string) {
    |m| >= |package| && m[..|package|] == package && (|m| == |package| || m[|package|] == '.')
  }

  lemma {:induction false} TopPackageExactly(m: Module, package: string)
    requires '.' !in package
    ensures TopPackage(m) == package <==> Within(m, package)
  {
    if m != [] && m[0] != '.' {
      if package != [] {
        TopPackageExactly(m[1..], package[1..]);
        assert package == [package[0]] + package[1..];
        if |m| >= |package| {
          var k := |package|;
          assert m[1..][..k - 1] == m[1..k] && m[..k] == [m[0]] + m[1..k];
        }
      }
    } else {
      assert package != [] ==> package[0] != '.';
    }
  }

  /** The modules the report counts: those of the three packages, but for package initialisers. */
  lemma CountedExactly(m: Module)
    ensures Counted(m) <==>
            && (Within(m, "god") || Within(m, "src") || Within(m, "nvra_unified"))
            && !(|m| >= 9 && m[|m| - 9..] == ".__init__")
  {
    TopPackageExactly(m, "god");
    TopPackageExactly(m, "src");
    TopPackageExactly(m, "nvra_unified");
    hide TopPackage, Within;
  }

  /** The orphan report: ascending, without repeats, and exactly the counted internal modules that no chain of imports
      links to an entry module. `internal` lists each module once. */
  method Orphans(g: Graph, entries: seq<Module>, internal: seq<Module>) returns (orphans: seq<Module>)
    requires Distinct(internal)
    ensures forall m :: m in orphans <==> m in internal && Counted(m) && !Reachable(g, ToSet(entries), m)
    ensures Ascending(orphans)
  {
    hide Reachable, Counted, Sort;
    var reachable := Reach(g, entries);
    var kept := [];
    var i := 0;
    while i < |internal|
      invariant i <= |internal|
      invariant forall m :: m in kept <==> m in internal[..i] && Counted(m) && m !in reachable
      invariant Distinct(kept)
    {
      var m := internal[i];
      assert internal[..i + 1] == internal[..i] + [m];
      if Counted(m) && m !in reachable {
        assert m !in kept by {
          assert forall j :: 0 <= j < i ==> internal[j] != m;
        }
        kept := kept + [m];
      }
      i := i + 1;
    }
    assert internal[..i] == internal;
    SortedOnce(kept);
    orphans := Sort(kept, StrLeq);
  }

  ghost predicate Ascending(s: seq<string>) {
    forall i, j :: 0 <= i < j < |s| ==> StrLess(s[i], s[j])
  }

  lemma SortedOnce(s: seq<string>)
    requires Distinct(s)
    ensures var t := Sort(s, StrLeq);
            (forall m :: m in t <==> m in s) && Ascending(t)
  {
    StrLeqIsOrder();
    SortIsSortedPermutation(s, StrLeq);
    var t := Sort(s, StrLeq);
    forall m ensures m in t <==> m in s {
      assert m in t <==> m in multiset(t);
      assert m in s <==> m in multiset(s);
    }
    forall i, j | 0 <= i < j < |t| ensures StrLess(t[i], t[j]) {
      StrLessTotal(t[i], t[j]);
      if t[i] == t[j] {
        RepeatedTwice(t, i, j);
        OnceEach(s, t[i]);
      }
    }
  }

  lemma RepeatedTwice(t: seq<string>, i: nat, j: nat)
    requires i < j < |t| && t[i] == t[j]
    ensures multiset(t)[t[i]] >= 2
  {
    assert t == t[..j] + [t[j]] + t[j + 1..];
    assert t[i] in t[..j];
  }

  lemma {:induction false} OnceEach(s: seq<string>, m: string)
    requires Distinct(s)
    ensures multiset(s)[m] <= 1
  {
    if s != [] {
      OnceEach(s[1..], m);
      assert s == [s[0]] + s[1..];
      if m == s[0] {
        assert m !in s[1..];
        assert m !in multiset(s[1..]);
      }
    }
  }
}
