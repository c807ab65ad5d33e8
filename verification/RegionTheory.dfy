/** Why region entries chosen by iterated dominance frontiers split a page into single-entry
    regions, and why no smaller choice of entries does. */
module RegionTheory {
  import opened Common
  import opened FlowGraphs
  import opened DomTrees

  /** Entries are blocks, never the artificial root, and include everything the root leads to. */
  ghost predicate EntrySet(g: FlowGraph, seeds: set<nat>, entries: set<nat>) {
    && ROOT !in entries
    && seeds <= entries
    && (forall e | e in entries :: g.Node(e))
  }

  ghost predicate RootFeeds(g: FlowGraph, seeds: set<nat>) {
    forall s | g.Edge(ROOT, s) :: s in seeds
  }

  ghost predicate FrontierClosed(g: FlowGraph, entries: set<nat>) {
    forall x, y | x in entries && InFrontier(g, x, y) :: y in entries
  }

  /** The entry visited last on a path. */
  ghost function LastEntry(entries: set<nat>, p: seq<nat>): Option<nat> {
    if p == [] then None
    else if p[|p| - 1] in entries then Some(p[|p| - 1])
    else LastEntry(entries, p[..|p| - 1])
  }

  /** However a block is reached, the entry visited last is the same one. */
  ghost predicate SingleEntry(g: FlowGraph, entries: set<nat>) {
    forall x, p, q | x != ROOT && PathTo(g, p, x) && PathTo(g, q, x) ::
      LastEntry(entries, p) == LastEntry(entries, q)
  }

  /** `x` is reached from `e` without visiting another entry. */
  ghost predicate InRegion(g: FlowGraph, entries: set<nat>, e: nat, x: nat) {
    exists p :: RegionPath(g, entries, e, p, x)
  }

  ghost predicate RegionPath(g: FlowGraph, entries: set<nat>, e: nat, p: seq<nat>, x: nat) {
    PathBetween(g, e, p, x) && forall k | 0 < k < |p| :: p[k] !in entries
  }

  // ---------- Helper facts ----------

  lemma {:induction false} LastEntryPosition(entries: set<nat>, p: seq<nat>) returns (i: nat)
    requires LastEntry(entries, p).Some?
    ensures i < |p| && p[i] == LastEntry(entries, p).value && p[i] in entries
    ensures forall k | i < k < |p| :: p[k] !in entries
  {
    if p[|p| - 1] in entries {
      i := |p| - 1;
    } else {
      i := LastEntryPosition(entries, p[..|p| - 1]);
      forall k | i < k < |p| ensures p[k] !in entries {
        assert k < |p| - 1 ==> p[..|p| - 1][k] == p[k];
      }
    }
  }

  lemma {:induction false} LastEntryOfJoin(entries: set<nat>, p: seq<nat>, q: seq<nat>)
    requires forall k | 0 <= k < |q| :: q[k] !in entries
    ensures LastEntry(entries, p + q) == LastEntry(entries, p)
  {
    if q == [] {
      assert p + q == p;
    } else {
      assert (p + q)[..|p + q| - 1] == p + q[..|q| - 1];
      LastEntryOfJoin(entries, p, q[..|q| - 1]);
    }
  }

  lemma DominatesAntisymmetric(g: FlowGraph, a: nat, b: nat, p: seq<nat>)
    requires Dominates(g, a, b) && Dominates(g, b, a) && PathTo(g, p, a)
    ensures a == b
    decreases |p|
  {
    if a != b {
      var i :| 0 <= i < |p| && p[i] == b;
      PathPrefix(g, p, i);
      assert a in p[..i + 1];
      var j :| 0 <= j < i + 1 && p[j] == a;
      PathPrefix(g, p, j);
      DominatesAntisymmetric(g, a, b, p[..j + 1]);
    }
  }

  lemma PathLeavesRoot(g: FlowGraph, seeds: set<nat>, entries: set<nat>, p: seq<nat>, x: nat)
    requires g.Valid() && RootFeeds(g, seeds) && EntrySet(g, seeds, entries)
    requires PathTo(g, p, x) && x != ROOT
    ensures LastEntry(entries, p).Some?
    decreases |p|
  {
    if x !in entries {
      ShortenPath(g, ROOT, p, x);
      PathLeavesRoot(g, seeds, entries, p[..|p| - 1], p[|p| - 2]);
    }
  }

  // ---------- Frontier-closed entries give single-entry regions ----------

  /** `e` is the entry nearest to `x` among those that dominate it. */
  ghost predicate NearestEntry(g: FlowGraph, entries: set<nat>, e: nat, x: nat) {
    && e in entries && Dominates(g, e, x)
    && forall f | f in entries && Dominates(g, f, x) :: Dominates(g, f, e)
  }

  /** An edge into a block that is no entry keeps the nearest entry. */
  lemma EdgeKeepsNearest(g: FlowGraph, entries: set<nat>, e: nat, u: nat, x: nat)
    requires g.Valid() && FrontierClosed(g, entries)
    requires g.Node(x) && g.Edge(u, x) && x !in entries && NearestEntry(g, entries, e, u)
    ensures NearestEntry(g, entries, e, x)
  {
    assert u in g.preds[x];
    assert !InFrontier(g, e, x);
    forall f | f in entries && Dominates(g, f, x) ensures Dominates(g, f, e) {
      DominatesPred(g, f, u, x);
    }
  }

  lemma {:induction false} LastEntryIsNearest(g: FlowGraph, seeds: set<nat>, entries: set<nat>, p: seq<nat>, x: nat)
    requires g.Valid() && RootFeeds(g, seeds) && EntrySet(g, seeds, entries) && FrontierClosed(g, entries)
    requires PathTo(g, p, x) && x != ROOT
    ensures LastEntry(entries, p).Some? && NearestEntry(g, entries, LastEntry(entries, p).value, x)
    decreases |p|
  {
    if x in entries {
      DominatesReflexive(g, x);
    } else {
      ShortenPath(g, ROOT, p, x);
      var u := p[|p| - 2];
      LastEntryIsNearest(g, seeds, entries, p[..|p| - 1], u);
      EdgeKeepsNearest(g, entries, LastEntry(entries, p[..|p| - 1]).value, u, x);
    }
  }

  /** First requirement on regions: frontier-closed entries are visited last in a unique way. */
  lemma ClosedIsSingleEntry(g: FlowGraph, seeds: set<nat>, entries: set<nat>)
    requires g.Valid() && RootFeeds(g, seeds) && EntrySet(g, seeds, entries) && FrontierClosed(g, entries)
    ensures SingleEntry(g, entries)
  {
    forall x, p, q | x != ROOT && PathTo(g, p, x) && PathTo(g, q, x)
      ensures LastEntry(entries, p) == LastEntry(entries, q)
    {
      LastEntryIsNearest(g, seeds, entries, p, x);
      LastEntryIsNearest(g, seeds, entries, q, x);
      var e, f := LastEntry(entries, p).value, LastEntry(entries, q).value;
      var i := LastEntryPosition(entries, p);
      PathPrefix(g, p, i);
      DominatesAntisymmetric(g, e, f, p[..i + 1]);
    }
  }

  // ---------- Regions are the classes of "same last entry" ----------

  lemma RegionHasLastEntry(g: FlowGraph, seeds: set<nat>, entries: set<nat>, e: nat, x: nat, p: seq<nat>)
    requires g.Valid() && RootFeeds(g, seeds) && EntrySet(g, seeds, entries) && AllReachable(g)
    requires SingleEntry(g, entries) && e in entries && InRegion(g, entries, e, x)
    requires PathTo(g, p, x)
    ensures x != ROOT && LastEntry(entries, p) == Some(e)
  {
    var r :| RegionPath(g, entries, e, r, x);
    assert Reachable(g, e);
    var q :| PathTo(g, q, e);
    JoinPaths(g, ROOT, q, e, r, x);
    assert (q + r[1..])[|q| - 1] == e;
    if x == ROOT {
      RootPathStart(g, q + r[1..]);
      assert false;
    }
    LastEntryOfJoin(entries, q, r[1..]);
    assert LastEntry(entries, q) == Some(e);
  }

  lemma LastEntryGivesRegion(g: FlowGraph, entries: set<nat>, p: seq<nat>, x: nat)
    requires PathTo(g, p, x) && LastEntry(entries, p).Some?
    ensures InRegion(g, entries, LastEntry(entries, p).value, x)
  {
    var i := LastEntryPosition(entries, p);
    PathPrefix(g, p, i);
    assert RegionPath(g, entries, p[i], p[i..], x);
  }

  /** Every block lies in exactly one region, and the region's entry dominates it. */
  lemma RegionsPartition(g: FlowGraph, seeds: set<nat>, entries: set<nat>, x: nat) returns (e: nat)
    requires g.Valid() && RootFeeds(g, seeds) && EntrySet(g, seeds, entries) && AllReachable(g)
    requires FrontierClosed(g, entries) && g.Node(x) && x != ROOT
    ensures e in entries && InRegion(g, entries, e, x) && Dominates(g, e, x)
    ensures forall f | f in entries && InRegion(g, entries, f, x) :: f == e
  {
    ClosedIsSingleEntry(g, seeds, entries);
    assert Reachable(g, x);
    var p :| PathTo(g, p, x);
    LastEntryIsNearest(g, seeds, entries, p, x);
    e := LastEntry(entries, p).value;
    LastEntryGivesRegion(g, entries, p, x);
    forall f | f in entries && InRegion(g, entries, f, x) ensures f == e {
      RegionHasLastEntry(g, seeds, entries, f, x, p);
    }
  }

  // ---------- No valid choice of entries is smaller ----------

  lemma {:induction false} LastEntryDominates(g: FlowGraph, entries: set<nat>, e: nat, y: nat, p: seq<nat>)
    requires SingleEntry(g, entries) && y != ROOT && PathTo(g, p, y) && LastEntry(entries, p) == Some(e)
    ensures Dominates(g, e, y)
  {
    forall q | PathTo(g, q, y) ensures e in q {
      var i := LastEntryPosition(entries, q);
    }
  }

  /** If `l` is visited last on a path to `u`, a path to `l` that avoids `a` extends to one to `u`. */
  lemma AvoidingPath(g: FlowGraph, entries: set<nat>, a: nat, l: nat, toL: seq<nat>, u: nat, toU: seq<nat>)
    returns (q: seq<nat>)
    requires a in entries && PathTo(g, toL, l) && a !in toL
    requires PathTo(g, toU, u) && LastEntry(entries, toU) == Some(l)
    ensures PathTo(g, q, u) && a !in q
  {
    var i := LastEntryPosition(entries, toU);
    PathPrefix(g, toU, i);
    JoinPaths(g, ROOT, toL, l, toU[i..], u);
    q := toL + toU[i..][1..];
    assert forall k | 0 <= k < |toU[i..][1..]| :: toU[i..][1..][k] == toU[i + 1 + k];
  }

  /** A frontier node that is no entry would be reached past two different last entries. */
  lemma SingleEntryIsClosed(g: FlowGraph, seeds: set<nat>, entries: set<nat>, a: nat, y: nat)
    requires g.Valid() && RootFeeds(g, seeds) && EntrySet(g, seeds, entries) && AllReachable(g)
    requires SingleEntry(g, entries) && a in entries && InFrontier(g, a, y)
    ensures y in entries
  {
    if y !in entries {
      var u :| u in g.preds[y] && Dominates(g, a, u);
      assert g.Node(u) && g.Edge(u, y) && Reachable(g, u);
      assert !Dominates(g, a, y);
      var around :| PathTo(g, around, y) && a !in around;
      PathLeavesRoot(g, seeds, entries, around, y);
      var l := LastEntry(entries, around).value;
      LastEntryDominates(g, entries, l, y, around);
      if Dominates(g, a, l) {
        DominatesTransitive(g, a, l, y);
      }
      var toL :| PathTo(g, toL, l) && a !in toL;
      var toU :| PathTo(g, toU, u);
      ExtendPath(g, ROOT, toU, u, y);
      LastEntryOfJoin(entries, toU, [y]);
      var q := AvoidingPath(g, entries, a, l, toL, u, toU);
      assert false;
    }
  }

  /** `entries` is the least set that contains the seeds and is closed under dominance frontiers. */
  ghost predicate IteratedFrontier(g: FlowGraph, seeds: set<nat>, entries: set<nat>) {
    && seeds <= entries && FrontierClosed(g, entries)
    && forall s: set<nat> | seeds <= s && FrontierClosed(g, s) :: entries <= s
  }

  /** Second requirement on regions: any other valid entry set contains the computed one. */
  lemma IteratedFrontierIsMinimal(g: FlowGraph, seeds: set<nat>, entries: set<nat>, other: set<nat>)
    requires g.Valid() && RootFeeds(g, seeds) && AllReachable(g) && IteratedFrontier(g, seeds, entries)
    requires EntrySet(g, seeds, other) && SingleEntry(g, other)
    ensures entries <= other && |entries| <= |other|
  {
    forall x, y | x in other && InFrontier(g, x, y) ensures y in other {
      SingleEntryIsClosed(g, seeds, other, x, y);
    }
    assert entries <= other;
    var rest := other - entries;
    assert other == entries + rest;
  }
}
