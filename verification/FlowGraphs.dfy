/** Rooted flow graphs, paths and dominance: the vocabulary in which the region builder of
    `dbt/aot` is specified.  Node 0 is the artificial root of a `ModuleGraph`; the other nodes are
    the executed blocks of one guest page, in address order.  Edges may be duplicated and may be
    self loops, exactly as `AddSucc` can create them. */
module FlowGraphs {

  const ROOT: nat := 0

  datatype FlowGraph = FlowGraph(succs: seq<seq<nat>>, preds: seq<seq<nat>>) {

    predicate Node(x: nat) {
      x < |succs|
    }

    predicate Edge(u: nat, v: nat) {
      u < |succs| && v in succs[u]
    }

    /** Both adjacency lists describe the same edges and nothing enters the root. */
    ghost predicate Valid() {
      && |succs| == |preds| > 0
      && (forall u: nat, v: nat | u < |succs| && v in succs[u] :: v < |succs|)
      && (forall u: nat, v: nat | u < |preds| && v in preds[u] :: v < |succs|)
      && (forall u: nat, v: nat | u < |succs| && v < |succs| :: v in succs[u] <==> u in preds[v])
      && preds[ROOT] == []
    }
  }

  // ---------- Paths ----------

  /** The `k`-th node of `p` is a successor of the one before it. */
  ghost predicate Step(g: FlowGraph, p: seq<nat>, k: nat)
    requires 0 < k < |p|
  {
    g.Edge(p[k - 1], p[k])
  }

  ghost predicate IsPath(g: FlowGraph, p: seq<nat>) {
    && |p| > 0
    && (forall k | 0 <= k < |p| :: g.Node(p[k]))
    && (forall k: nat | 0 < k < |p| :: Step(g, p, k))
  }

  ghost predicate PathBetween(g: FlowGraph, a: nat, p: seq<nat>, b: nat) {
    IsPath(g, p) && p[0] == a && p[|p| - 1] == b
  }

  ghost predicate PathTo(g: FlowGraph, p: seq<nat>, x: nat) {
    PathBetween(g, ROOT, p, x)
  }

  ghost predicate Reachable(g: FlowGraph, x: nat) {
    exists p :: PathTo(g, p, x)
  }

  ghost predicate AllReachable(g: FlowGraph) {
    forall x | g.Node(x) :: Reachable(g, x)
  }

  lemma ExtendPath(g: FlowGraph, a: nat, p: seq<nat>, u: nat, v: nat)
    requires PathBetween(g, a, p, u) && g.Edge(u, v) && g.Node(v)
    ensures PathBetween(g, a, p + [v], v)
  {
    var q := p + [v];
    forall k: nat | 0 < k < |q|
      ensures Step(g, q, k)
    {
      assert k < |p| ==> Step(g, p, k);
    }
  }

  /** Dropping the last step of a path that is longer than one node. */
  lemma ShortenPath(g: FlowGraph, a: nat, p: seq<nat>, v: nat)
    requires PathBetween(g, a, p, v) && |p| > 1
    ensures PathBetween(g, a, p[..|p| - 1], p[|p| - 2])
    ensures g.Edge(p[|p| - 2], v) && p == p[..|p| - 1] + [v]
  {
    var k := |p| - 1;
    assert Step(g, p, k);
    var q := p[..|p| - 1];
    forall j: nat | 0 < j < |q|
      ensures Step(g, q, j)
    {
      assert Step(g, p, j);
    }
  }

  lemma PathPrefix(g: FlowGraph, p: seq<nat>, i: nat)
    requires IsPath(g, p) && i < |p|
    ensures PathBetween(g, p[0], p[..i + 1], p[i])
    ensures PathBetween(g, p[i], p[i..], p[|p| - 1])
  {
    var q, r := p[..i + 1], p[i..];
    forall j: nat | 0 < j < |q|
      ensures Step(g, q, j)
    {
      assert Step(g, p, j);
    }
    forall j: nat | 0 < j < |r|
      ensures Step(g, r, j)
    {
      assert Step(g, p, i + j);
    }
  }

  lemma JoinPaths(g: FlowGraph, a: nat, p: seq<nat>, b: nat, q: seq<nat>, c: nat)
    requires PathBetween(g, a, p, b) && PathBetween(g, b, q, c)
    ensures PathBetween(g, a, p + q[1..], c)
  {
    var r := p + q[1..];
    forall k: nat | 0 < k < |r|
      ensures Step(g, r, k)
    {
      if k < |p| {
        assert Step(g, p, k);
      } else {
        assert Step(g, q, k - |p| + 1);
      }
    }
  }

  // ---------- Dominance ----------

  /** `a` lies on every path from the root to `b`. */
  ghost predicate Dominates(g: FlowGraph, a: nat, b: nat) {
    forall p | PathTo(g, p, b) :: a in p
  }

  ghost predicate StrictlyDominates(g: FlowGraph, a: nat, b: nat) {
    a != b && Dominates(g, a, b)
  }

  /** The textbook definition: the strict dominator that every other strict dominator dominates. */
  ghost predicate IsImmediateDominator(g: FlowGraph, d: nat, b: nat) {
    && StrictlyDominates(g, d, b)
    && forall a | StrictlyDominates(g, a, b) :: Dominates(g, a, d)
  }

  /** The textbook dominance frontier of `x`. */
  ghost predicate InFrontier(g: FlowGraph, x: nat, y: nat) {
    && y < |g.preds|
    && (exists p :: p in g.preds[y] && Dominates(g, x, p))
    && !StrictlyDominates(g, x, y)
  }

  lemma DominatesReflexive(g: FlowGraph, x: nat)
    ensures Dominates(g, x, x)
  {
  }

  /** Strict dominators of a node dominate each of its predecessors. */
  lemma DominatesPred(g: FlowGraph, d: nat, p: nat, x: nat)
    requires g.Valid() && g.Node(x) && p in g.preds[x]
    requires StrictlyDominates(g, d, x)
    ensures Dominates(g, d, p)
  {
    forall q | PathTo(g, q, p)
      ensures d in q
    {
      ExtendPath(g, ROOT, q, p, x);
      assert d in q + [x];
    }
  }

  lemma DominatesTransitive(g: FlowGraph, a: nat, b: nat, c: nat)
    requires Dominates(g, a, b) && Dominates(g, b, c)
    ensures Dominates(g, a, c)
  {
    forall p | PathTo(g, p, c)
      ensures a in p
    {
      var i :| 0 <= i < |p| && p[i] == b;
      PathPrefix(g, p, i);
      assert a in p[..i + 1];
    }
  }

  lemma RootPathStart(g: FlowGraph, p: seq<nat>)
    requires g.Valid() && PathTo(g, p, ROOT)
    ensures p == [ROOT]
  {
    if |p| > 1 {
      ShortenPath(g, ROOT, p, ROOT);
      assert false;
    }
  }

  /** Only the root dominates the root. */
  lemma DominatorOfRoot(g: FlowGraph, d: nat)
    requires g.Valid() && Dominates(g, d, ROOT)
    ensures d == ROOT
  {
    var p := [ROOT];
    assert PathTo(g, p, ROOT);
  }
}
