/** Dominator links as the iterative algorithm keeps them: every processed node points to a node
    with a smaller reverse-postorder number, so the links form a tree that grows and is reshaped
    while the algorithm sweeps over the graph. */
module DomTrees {
  import opened Common
  import opened FlowGraphs

  type Links = seq<Option<nat>>

  /** `num` numbers the nodes so that every node but the root has a smaller-numbered predecessor. */
  ghost predicate Numbering(g: FlowGraph, num: seq<nat>) {
    && g.Valid()
    && |num| == |g.succs|
    && num[ROOT] == 0
    && (forall x | 0 <= x < |num| :: num[x] < |num|)
    && (forall x, y | 0 <= x < |num| && 0 <= y < |num| && num[x] == num[y] :: x == y)
    && (forall x: nat | 0 < x < |num| :: HasForwardPred(g, num, x))
  }

  ghost predicate HasForwardPred(g: FlowGraph, num: seq<nat>, x: nat)
    requires g.Valid() && |num| == |g.succs|
  {
    x < |num| && exists q :: q in g.preds[x] && num[q] < num[x]
  }

  /** Links lead to processed nodes with smaller numbers, and end in the root. */
  ghost predicate TreeOk(num: seq<nat>, dom: Links) {
    && |dom| == |num| > 0
    && dom[ROOT] == Some(ROOT)
    && forall x: nat {:trigger LinkUp(num, dom, x)} | 0 < x < |dom| && dom[x].Some? :: LinkUp(num, dom, x)
  }

  /** The link of `x` leads to a processed node with a smaller number. */
  ghost predicate LinkUp(num: seq<nat>, dom: Links, x: nat)
    requires |num| == |dom| && x < |dom| && dom[x].Some?
  {
    dom[x].value < |dom| && num[dom[x].value] < num[x] && dom[dom[x].value].Some?
  }

  predicate Linked(dom: Links, x: nat) {
    x < |dom| && dom[x].Some?
  }

  /** The nodes met when following the links from `x` up to the root. */
  ghost function Chain(num: seq<nat>, dom: Links, x: nat): (c: set<nat>)
    requires TreeOk(num, dom) && Linked(dom, x)
    ensures x in c && ROOT in c
    ensures forall z | z in c :: Linked(dom, z) && num[z] <= num[x]
    decreases num[x]
  {
    if x == ROOT then {ROOT} else
      assert LinkUp(num, dom, x);
      {x} + Chain(num, dom, dom[x].value)
  }

  lemma {:induction false} ChainLinear(num: seq<nat>, dom: Links, x: nat, y: nat)
    requires TreeOk(num, dom) && Linked(dom, x) && y in Chain(num, dom, x)
    ensures Linked(dom, y) && Chain(num, dom, y) <= Chain(num, dom, x)
    ensures forall z | z in Chain(num, dom, x) && num[z] < num[y] :: z in Chain(num, dom, y)
    decreases num[x]
  {
    if y != x {
      assert LinkUp(num, dom, x);
      ChainLinear(num, dom, dom[x].value, y);
    }
  }

  lemma {:induction false} ChainAgree(num: seq<nat>, dom: Links, dom': Links, x: nat)
    requires TreeOk(num, dom) && TreeOk(num, dom') && Linked(dom, x)
    requires forall y | 0 <= y < |num| && num[y] <= num[x] :: dom[y] == dom'[y]
    ensures Chain(num, dom, x) == Chain(num, dom', x)
    decreases num[x]
  {
    if x != ROOT {
      assert LinkUp(num, dom, x);
      ChainAgree(num, dom, dom', dom[x].value);
    }
  }

  // ---------- What the links say about true dominance ----------

  /** Every strict dominator of a processed node dominates the node its link leads to. */
  ghost predicate LinksKeepDominators(g: FlowGraph, dom: Links) {
    forall x: nat, d | 0 < x < |dom| && dom[x].Some? && StrictlyDominates(g, d, x) ::
      Dominates(g, d, dom[x].value)
  }

  lemma {:induction false} DominatorInChain(g: FlowGraph, num: seq<nat>, dom: Links, d: nat, x: nat)
    requires g.Valid() && TreeOk(num, dom) && LinksKeepDominators(g, dom)
    requires Linked(dom, x) && Dominates(g, d, x)
    ensures d in Chain(num, dom, x)
    decreases num[x]
  {
    if x == ROOT {
      DominatorOfRoot(g, d);
    } else if d != x {
      assert StrictlyDominates(g, d, x) && LinkUp(num, dom, x);
      DominatorInChain(g, num, dom, d, dom[x].value);
    }
  }

  lemma {:induction false} DominatorPassesUp(g: FlowGraph, num: seq<nat>, dom: Links, d: nat, x: nat, e: nat)
    requires g.Valid() && TreeOk(num, dom) && LinksKeepDominators(g, dom)
    requires Linked(dom, x) && Dominates(g, d, x)
    requires e in Chain(num, dom, x) && d in Chain(num, dom, e)
    ensures Dominates(g, d, e)
    decreases num[x]
  {
    if e != x {
      assert LinkUp(num, dom, x);
      assert num[d] <= num[e] < num[x];
      assert StrictlyDominates(g, d, x);
      DominatorPassesUp(g, num, dom, d, dom[x].value, e);
    }
  }

  /** `d` is the nearest common ancestor of all processed predecessors of `b`. */
  ghost predicate MeetsPreds(g: FlowGraph, num: seq<nat>, dom: Links, b: nat, d: nat)
    requires g.Valid() && TreeOk(num, dom) && b < |num| == |g.succs|
  {
    && Linked(dom, d)
    && (forall p | p in g.preds[b] && Linked(dom, p) :: d in Chain(num, dom, p))
    && (forall z: nat | (forall p | p in g.preds[b] && Linked(dom, p) :: z in Chain(num, dom, p)) ::
          z in Chain(num, dom, d))
  }

  /** Relinking `b` to the meet of its processed predecessors loses no true dominator. */
  lemma RelinkKeepsDominators(g: FlowGraph, num: seq<nat>, dom: Links, b: nat, d: nat, q: nat)
    requires Numbering(g, num) && TreeOk(num, dom) && LinksKeepDominators(g, dom)
    requires 0 < b < |num| && q in g.preds[b] && Linked(dom, q) && MeetsPreds(g, num, dom, b, d)
    ensures LinksKeepDominators(g, dom[b := Some(d)])
  {
    forall a | StrictlyDominates(g, a, b)
      ensures Dominates(g, a, d)
    {
      forall p | p in g.preds[b] && Linked(dom, p)
        ensures a in Chain(num, dom, p)
      {
        DominatesPred(g, a, p, b);
        DominatorInChain(g, num, dom, a, p);
      }
      DominatesPred(g, a, q, b);
      DominatorPassesUp(g, num, dom, a, q, d);
    }
  }

  // ---------- What holds when a sweep changes nothing ----------

  ghost predicate AllLinked(dom: Links) {
    forall x | 0 <= x < |dom| :: dom[x].Some?
  }

  ghost predicate Stable(g: FlowGraph, num: seq<nat>, dom: Links) {
    && g.Valid() && |num| == |g.succs| && TreeOk(num, dom) && AllLinked(dom)
    && forall b: nat, p | 0 < b < |num| && p in g.preds[b] :: dom[b].value in Chain(num, dom, p)
  }

  lemma {:induction false} StableChainOnPath(g: FlowGraph, num: seq<nat>, dom: Links, a: nat, x: nat, p: seq<nat>)
    requires Stable(g, num, dom) && g.Node(x) && a in Chain(num, dom, x) && PathTo(g, p, x)
    ensures a in p
    decreases |p|
  {
    if |p| > 1 && a != x {
      ShortenPath(g, ROOT, p, x);
      var u := p[|p| - 2];
      ChainLinear(num, dom, u, dom[x].value);
      StableChainOnPath(g, num, dom, a, u, p[..|p| - 1]);
    }
  }

  /** At a fixpoint the chain of a node is exactly its set of dominators. */
  lemma StableChainIsDominators(g: FlowGraph, num: seq<nat>, dom: Links, a: nat, x: nat)
    requires Stable(g, num, dom) && LinksKeepDominators(g, dom) && g.Node(x)
    ensures a in Chain(num, dom, x) <==> Dominates(g, a, x)
  {
    if a in Chain(num, dom, x) {
      forall p | PathTo(g, p, x) ensures a in p {
        StableChainOnPath(g, num, dom, a, x, p);
      }
    }
    if Dominates(g, a, x) {
      DominatorInChain(g, num, dom, a, x);
    }
  }

  /** At a fixpoint every link leads to the immediate dominator. */
  lemma StableIsImmediate(g: FlowGraph, num: seq<nat>, dom: Links, b: nat)
    requires Stable(g, num, dom) && LinksKeepDominators(g, dom) && 0 < b < |num|
    ensures IsImmediateDominator(g, dom[b].value, b)
  {
    assert LinkUp(num, dom, b);
    StableChainIsDominators(g, num, dom, dom[b].value, b);
  }

  // ---------- One sweep ----------

  /** The first node below number `k` on the chain of `p`. */
  ghost function FirstBelow(num: seq<nat>, dom: Links, p: nat, k: nat): (f: nat)
    requires TreeOk(num, dom) && Linked(dom, p) && num[ROOT] < k
    ensures Linked(dom, f) && num[f] < k && f in Chain(num, dom, p)
    decreases num[p]
  {
    if num[p] < k then p else
      assert LinkUp(num, dom, p);
      FirstBelow(num, dom, dom[p].value, k)
  }

  lemma {:induction false} BelowFirst(num: seq<nat>, dom: Links, p: nat, k: nat, z: nat)
    requires TreeOk(num, dom) && Linked(dom, p) && num[ROOT] < k
    requires z in Chain(num, dom, p) && num[z] < k
    ensures z in Chain(num, dom, FirstBelow(num, dom, p, k))
    decreases num[p]
  {
    if num[p] >= k {
      assert LinkUp(num, dom, p);
      BelowFirst(num, dom, dom[p].value, k, z);
    }
  }

  /** While the nodes from number `k` on still have their old links, an ancestor below `k` is found
      above the node at which the old chain drops below `k`. */
  lemma {:induction false} MixedChain(num: seq<nat>, old_: Links, dom: Links, p: nat, k: nat, z: nat)
    requires TreeOk(num, dom) && TreeOk(num, old_) && Linked(dom, p) && Linked(old_, p) && num[ROOT] < k
    requires forall x | 0 <= x < |num| && num[x] >= k :: dom[x] == old_[x]
    requires z in Chain(num, dom, p) && num[z] < k
    ensures var f := FirstBelow(num, old_, p, k); Linked(dom, f) && z in Chain(num, dom, f)
    decreases num[p]
  {
    if num[p] >= k {
      assert LinkUp(num, dom, p) && LinkUp(num, old_, p);
      MixedChain(num, old_, dom, dom[p].value, k, z);
    }
  }

  /** The link of `x` is an ancestor of each of its smaller-numbered predecessors. */
  ghost predicate ForwardOk(g: FlowGraph, num: seq<nat>, dom: Links, x: nat)
    requires Numbering(g, num) && TreeOk(num, dom) && 0 < x < |num| && dom[x].Some?
  {
    forall q | q in g.preds[x] && num[q] < num[x] :: Linked(dom, q) && dom[x].value in Chain(num, dom, q)
  }

  /** Every common ancestor of the predecessors of `x` is an ancestor of `x`. */
  ghost predicate MeetBelow(g: FlowGraph, num: seq<nat>, dom: Links, x: nat)
    requires Numbering(g, num) && TreeOk(num, dom) && AllLinked(dom) && 0 < x < |num|
  {
    forall z: nat | (forall p | p in g.preds[x] :: z in Chain(num, dom, p)) :: z in Chain(num, dom, x)
  }

  /** What holds of the links between two sweeps. */
  ghost predicate Settled(g: FlowGraph, num: seq<nat>, dom: Links) {
    && Numbering(g, num) && TreeOk(num, dom) && AllLinked(dom)
    && (forall x: nat | 0 < x < |num| :: ForwardOk(g, num, dom, x))
    && (forall x: nat | 0 < x < |num| :: MeetBelow(g, num, dom, x))
  }

  ghost predicate OnlyRootLinked(dom: Links) {
    |dom| > 0 && dom[ROOT] == Some(ROOT) && forall x | 0 < x < |dom| :: dom[x].None?
  }

  /** The links before a sweep: nothing is linked yet, or the previous sweep left them settled. */
  ghost predicate SweepStart(g: FlowGraph, num: seq<nat>, dom: Links) {
    && Numbering(g, num) && TreeOk(num, dom)
    && (OnlyRootLinked(dom) || Settled(g, num, dom))
  }

  /** `z` was an ancestor of predecessor `p` when `x` was processed in this sweep. */
  ghost predicate SeenAbove(num: seq<nat>, old_: Links, dom: Links, p: nat, x: nat, z: nat)
    requires TreeOk(num, dom) && TreeOk(num, old_) && num[ROOT] == 0
    requires 0 < x < |num| && p < |num| && num[x] > 0
  {
    if num[p] < num[x] then Linked(dom, p) && z in Chain(num, dom, p)
    else Linked(old_, p) ==>
      var f := FirstBelow(num, old_, p, num[x]); Linked(dom, f) && z in Chain(num, dom, f)
  }

  ghost predicate MetAll(g: FlowGraph, num: seq<nat>, old_: Links, dom: Links, x: nat)
    requires Numbering(g, num) && TreeOk(num, dom) && TreeOk(num, old_)
    requires 0 < x < |num| && dom[x].Some?
  {
    num[x] > 0 &&
    forall z: nat | z < |num| && num[z] < num[x] &&
      (forall p | p in g.preds[x] :: SeenAbove(num, old_, dom, p, x, z)) :: z in Chain(num, dom, x)
  }

  ghost predicate ChainShrank(num: seq<nat>, old_: Links, dom: Links, x: nat)
    requires TreeOk(num, dom) && TreeOk(num, old_) && x < |num| && dom[x].Some?
  {
    old_[x].Some? ==> Chain(num, dom, x) <= Chain(num, old_, x)
  }

  /** What a sweep has established about a node it has processed. */
  ghost predicate Processed(g: FlowGraph, num: seq<nat>, old_: Links, dom: Links, x: nat)
    requires Numbering(g, num) && TreeOk(num, dom) && TreeOk(num, old_) && x < |num|
  {
    && dom[x].Some?
    && ChainShrank(num, old_, dom, x)
    && (x != ROOT ==> ForwardOk(g, num, dom, x) && MetAll(g, num, old_, dom, x))
  }

  /** The state of a sweep that has processed the nodes numbered below `k`. */
  ghost predicate SweepInv(g: FlowGraph, num: seq<nat>, old_: Links, dom: Links, k: nat) {
    && SweepStart(g, num, old_) && TreeOk(num, dom)
    && (forall x | 0 <= x < |num| :: num[x] >= k ==> dom[x] == old_[x])
    && (forall x | 0 <= x < |num| :: num[x] < k ==> dom[x].Some?)
    && (forall x: nat {:trigger Processed(g, num, old_, dom, x)} | x < |num| && num[x] < k ::
          Processed(g, num, old_, dom, x))
  }

  /** Relinking `b` leaves the chains of smaller-numbered nodes alone. */
  lemma RelinkAgree(num: seq<nat>, dom: Links, b: nat, d: nat, x: nat)
    requires TreeOk(num, dom) && 0 < b < |num| && Linked(dom, d) && num[d] < num[b]
    requires Linked(dom, x) && num[x] < num[b]
    ensures TreeOk(num, dom[b := Some(d)]) && Linked(dom[b := Some(d)], x)
    ensures Chain(num, dom[b := Some(d)], x) == Chain(num, dom, x)
  {
    var dom' := dom[b := Some(d)];
    forall y: nat | 0 < y < |dom'| && dom'[y].Some?
      ensures LinkUp(num, dom', y)
    {
      assert y != b ==> LinkUp(num, dom, y);
    }
    ChainAgree(num, dom, dom', x);
  }

  /** The meet is found on the old chain of `b`: links only ever move towards the root. */
  lemma MeetOnOldChain(g: FlowGraph, num: seq<nat>, old_: Links, dom: Links, b: nat, d: nat)
    requires 0 < b < |num| && SweepInv(g, num, old_, dom, num[b]) && old_[b].Some?
    requires MeetsPreds(g, num, dom, b, d) && num[d] < num[b]
    ensures d in Chain(num, old_, b)
  {
    var k := num[b];
    assert Settled(g, num, old_);
    forall p | p in g.preds[b]
      ensures d in Chain(num, old_, p)
    {
      assert Linked(dom, p);
      if num[p] < k {
        assert Processed(g, num, old_, dom, p);
      } else {
        MixedChain(num, old_, dom, p, k, d);
        var f := FirstBelow(num, old_, p, k);
        assert Processed(g, num, old_, dom, f);
        ChainLinear(num, old_, p, f);
      }
    }
    assert MeetBelow(g, num, old_, b);
  }

  lemma ForwardLinked(g: FlowGraph, num: seq<nat>, old_: Links, dom: Links, b: nat) returns (q: nat)
    requires 0 < b < |num| && SweepInv(g, num, old_, dom, num[b])
    ensures q in g.preds[b] && num[q] < num[b] && Linked(dom, q)
  {
    assert HasForwardPred(g, num, b);
    q :| q in g.preds[b] && num[q] < num[b];
  }

  /** A common ancestor that every predecessor had when `b` was reached is above the meet. */
  lemma MeetIsComplete(g: FlowGraph, num: seq<nat>, old_: Links, dom: Links, b: nat, d: nat, z: nat)
    requires 0 < b < |num| && SweepInv(g, num, old_, dom, num[b]) && MeetsPreds(g, num, dom, b, d)
    requires num[ROOT] < num[b] && num[d] < num[b] && z < |num| && num[z] < num[b]
    requires TreeOk(num, dom[b := Some(d)])
    requires forall p | p in g.preds[b] :: SeenAbove(num, old_, dom[b := Some(d)], p, b, z)
    ensures z in Chain(num, dom, d)
  {
    forall p | p in g.preds[b] && Linked(dom, p)
      ensures z in Chain(num, dom, p)
    {
      assert SeenAbove(num, old_, dom[b := Some(d)], p, b, z);
      if num[p] < num[b] {
        RelinkAgree(num, dom, b, d, p);
      } else {
        var f := FirstBelow(num, old_, p, num[b]);
        assert Processed(g, num, old_, dom, f);
        RelinkAgree(num, dom, b, d, f);
        FirstOnMixedChain(num, old_, dom, p, num[b]);
        ChainLinear(num, dom, p, f);
      }
    }
  }

  /** The parts of `SweepStep` about node `b` itself. */
  lemma SweepStepForward(g: FlowGraph, num: seq<nat>, old_: Links, dom: Links, dom': Links, b: nat, d: nat)
    requires 0 < b < |num| && SweepInv(g, num, old_, dom, num[b]) && MeetsPreds(g, num, dom, b, d)
    requires num[d] < num[b] && dom' == dom[b := Some(d)]
    ensures TreeOk(num, dom') && ForwardOk(g, num, dom', b)
  {
    RelinkAgree(num, dom, b, d, d);
    forall q | q in g.preds[b] && num[q] < num[b]
      ensures Linked(dom', q) && d in Chain(num, dom', q)
    {
      assert Processed(g, num, old_, dom, q);
      RelinkAgree(num, dom, b, d, q);
    }
  }

  lemma SweepStepMet(g: FlowGraph, num: seq<nat>, old_: Links, dom: Links, dom': Links, b: nat, d: nat)
    requires 0 < b < |num| && SweepInv(g, num, old_, dom, num[b]) && MeetsPreds(g, num, dom, b, d)
    requires num[ROOT] < num[b] && num[d] < num[b] && dom' == dom[b := Some(d)]
    ensures TreeOk(num, dom') && MetAll(g, num, old_, dom', b)
  {
    RelinkAgree(num, dom, b, d, d);
    forall z: nat | z < |num| && num[z] < num[b] &&
      forall p | p in g.preds[b] :: SeenAbove(num, old_, dom', p, b, z)
      ensures z in Chain(num, dom', b)
    {
      MeetIsComplete(g, num, old_, dom, b, d, z);
    }
  }

  lemma SweepStepShrinks(g: FlowGraph, num: seq<nat>, old_: Links, dom: Links, dom': Links, b: nat, d: nat)
    requires 0 < b < |num| && SweepInv(g, num, old_, dom, num[b]) && MeetsPreds(g, num, dom, b, d)
    requires num[d] < num[b] && dom' == dom[b := Some(d)]
    ensures TreeOk(num, dom') && ChainShrank(num, old_, dom', b)
  {
    RelinkAgree(num, dom, b, d, d);
    if old_[b].Some? {
      MeetOnOldChain(g, num, old_, dom, b, d);
      assert Processed(g, num, old_, dom, d);
      ChainLinear(num, old_, b, d);
    }
  }

  lemma {:induction false} FirstOnMixedChain(num: seq<nat>, old_: Links, dom: Links, p: nat, k: nat)
    requires TreeOk(num, dom) && TreeOk(num, old_) && Linked(dom, p) && Linked(old_, p) && num[ROOT] < k
    requires forall x | 0 <= x < |num| && num[x] >= k :: dom[x] == old_[x]
    ensures FirstBelow(num, old_, p, k) in Chain(num, dom, p)
    decreases num[p]
  {
    if num[p] >= k {
      assert LinkUp(num, dom, p) && LinkUp(num, old_, p);
      FirstOnMixedChain(num, old_, dom, dom[p].value, k);
    }
  }

  /** The part of `SweepStep` about the nodes processed before `b`. */
  lemma SweepStepBefore(g: FlowGraph, num: seq<nat>, old_: Links, dom: Links, dom': Links, b: nat, d: nat, x: nat)
    requires 0 < b < |num| && SweepInv(g, num, old_, dom, num[b]) && Linked(dom, d)
    requires dom' == dom[b := Some(d)] && num[d] < num[b] && x < |num| && num[x] < num[b]
    ensures TreeOk(num, dom') && Processed(g, num, old_, dom', x)
  {
    assert Processed(g, num, old_, dom, x);
    RelinkAgree(num, dom, b, d, x);
    if x != ROOT {
      forall q | q in g.preds[x] && num[q] < num[x]
        ensures Linked(dom', q) && dom'[x].value in Chain(num, dom', q)
      {
        RelinkAgree(num, dom, b, d, q);
      }
      assert ForwardOk(g, num, dom', x);
      forall z: nat | z < |num| && num[z] < num[x] && forall p | p in g.preds[x] :: SeenAbove(num, old_, dom', p, x, z)
        ensures z in Chain(num, dom', x)
      {
        SeenAboveBefore(g, num, old_, dom, dom', b, d, x, z);
      }
    }
  }

  lemma SeenAboveBefore(g: FlowGraph, num: seq<nat>, old_: Links, dom: Links, dom': Links, b: nat, d: nat, x: nat, z: nat)
    requires 0 < b < |num| && SweepInv(g, num, old_, dom, num[b]) && Linked(dom, d)
    requires dom' == dom[b := Some(d)] && num[d] < num[b] && 0 < x < |num| && 0 < num[x] < num[b]
    requires TreeOk(num, dom') && forall p | p in g.preds[x] :: SeenAbove(num, old_, dom', p, x, z)
    ensures forall p | p in g.preds[x] :: SeenAbove(num, old_, dom, p, x, z)
  {
    forall p | p in g.preds[x]
      ensures SeenAbove(num, old_, dom, p, x, z)
    {
      assert SeenAbove(num, old_, dom', p, x, z);
      if num[p] < num[x] {
        RelinkAgree(num, dom, b, d, p);
      } else if Linked(old_, p) {
        var f := FirstBelow(num, old_, p, num[x]);
        assert Processed(g, num, old_, dom, f);
        RelinkAgree(num, dom, b, d, f);
      }
    }
  }

  lemma SweepStepNode(g: FlowGraph, num: seq<nat>, old_: Links, dom: Links, dom': Links, b: nat, d: nat, x: nat)
    requires 0 < b < |num| && SweepInv(g, num, old_, dom, num[b]) && MeetsPreds(g, num, dom, b, d)
    requires num[ROOT] < num[b] && num[d] < num[b] && dom' == dom[b := Some(d)] && x < |num| && num[x] <= num[b]
    ensures TreeOk(num, dom') && Processed(g, num, old_, dom', x)
  {
    if x == b {
      SweepStepForward(g, num, old_, dom, dom', b, d);
      SweepStepMet(g, num, old_, dom, dom', b, d);
      SweepStepShrinks(g, num, old_, dom, dom', b, d);
    } else {
      SweepStepBefore(g, num, old_, dom, dom', b, d, x);
    }
  }

  lemma SweepStep(g: FlowGraph, num: seq<nat>, old_: Links, dom: Links, b: nat, d: nat)
    requires 0 < b < |num| && SweepInv(g, num, old_, dom, num[b]) && MeetsPreds(g, num, dom, b, d)
    ensures num[d] < num[b]
    ensures SweepInv(g, num, old_, dom[b := Some(d)], num[b] + 1)
  {
    var dom' := dom[b := Some(d)];
    var q := ForwardLinked(g, num, old_, dom, b);
    assert d in Chain(num, dom, q) && num[ROOT] != num[b];
    forall x: nat | x < |num| && num[x] <= num[b]
      ensures TreeOk(num, dom') && Processed(g, num, old_, dom', x)
    {
      SweepStepNode(g, num, old_, dom, dom', b, d, x);
    }
    assert TreeOk(num, dom') by { assert num[ROOT] <= num[b]; }
  }

  // ---------- Between sweeps ----------

  /** If `y` was above `x` before the sweep, what remains above both after it is shared. */
  lemma {:induction false} BypassKeeps(g: FlowGraph, num: seq<nat>, old_: Links, dom: Links, x: nat, y: nat, z: nat)
    requires SweepInv(g, num, old_, dom, |num|) && Settled(g, num, old_)
    requires x < |num| && y in Chain(num, old_, x)
    requires z in Chain(num, dom, x) && num[z] <= num[y]
    ensures z in Chain(num, dom, y)
    decreases num[x]
  {
    if x != y {
      assert HasForwardPred(g, num, x);
      var q :| q in g.preds[x] && num[q] < num[x];
      assert ForwardOk(g, num, old_, x) && Processed(g, num, old_, dom, x);
      ChainLinear(num, old_, q, old_[x].value);
      ChainLinear(num, dom, q, dom[x].value);
      assert z != x;
      BypassKeeps(g, num, old_, dom, q, y, z);
    }
  }

  lemma SweepSettles(g: FlowGraph, num: seq<nat>, old_: Links, dom: Links)
    requires SweepInv(g, num, old_, dom, |num|)
    ensures Settled(g, num, dom)
  {
    forall x: nat | 0 < x < |num|
      ensures ForwardOk(g, num, dom, x) && MeetBelow(g, num, dom, x)
    {
      assert Processed(g, num, old_, dom, x);
      forall z: nat | forall p | p in g.preds[x] :: z in Chain(num, dom, p)
        ensures z in Chain(num, dom, x)
      {
        assert HasForwardPred(g, num, x);
        var q :| q in g.preds[x] && num[q] < num[x];
        assert num[z] <= num[q];
        assert Processed(g, num, old_, dom, x);
        forall p | p in g.preds[x]
          ensures SeenAbove(num, old_, dom, p, x, z)
        {
          if num[p] >= num[x] && Linked(old_, p) {
            assert Processed(g, num, old_, dom, p);
            var f := FirstBelow(num, old_, p, num[x]);
            BelowFirst(num, old_, p, num[x], z);
            BypassKeeps(g, num, old_, dom, p, f, z);
          }
        }
      }
    }
  }

  // ---------- Termination of the sweeps ----------

  /** How far the link of `x` is from the root; an unset link is farther than any other. */
  ghost function Height(num: seq<nat>, dom: Links, x: nat): nat
    requires |dom| == |num| && x < |num|
  {
    if dom[x].Some? && dom[x].value < |num| then num[dom[x].value] else |num|
  }

  ghost function TotalHeight(num: seq<nat>, dom: Links, k: nat): nat
    requires |dom| == |num| && k <= |num|
  {
    if k == 0 then 0 else TotalHeight(num, dom, k - 1) + Height(num, dom, k - 1)
  }

  lemma {:induction false} TotalHeightDrops(num: seq<nat>, old_: Links, dom: Links, k: nat)
    requires |dom| == |num| == |old_| && k <= |num|
    requires forall x: nat | x < k :: Height(num, dom, x) <= Height(num, old_, x)
    ensures TotalHeight(num, dom, k) <= TotalHeight(num, old_, k)
    ensures (exists x: nat :: x < k && Height(num, dom, x) < Height(num, old_, x)) ==>
            TotalHeight(num, dom, k) < TotalHeight(num, old_, k)
  {
    if k > 0 {
      TotalHeightDrops(num, old_, dom, k - 1);
      assert Height(num, dom, k - 1) <= Height(num, old_, k - 1);
    }
  }

  /** A sweep that changes a link strictly lowers the total height, so sweeps cannot go on forever. */
  lemma SweepDescends(g: FlowGraph, num: seq<nat>, old_: Links, dom: Links)
    requires SweepInv(g, num, old_, dom, |num|) && dom != old_
    ensures TotalHeight(num, dom, |num|) < TotalHeight(num, old_, |num|)
  {
    forall x: nat | x < |num|
      ensures Height(num, dom, x) <= Height(num, old_, x)
      ensures dom[x] != old_[x] ==> Height(num, dom, x) < Height(num, old_, x)
    {
      if x != ROOT {
        assert Processed(g, num, old_, dom, x) && LinkUp(num, dom, x);
        if old_[x].Some? {
          assert LinkUp(num, old_, x) && dom[x].value in Chain(num, dom, x);
          assert dom[x].value in Chain(num, old_, old_[x].value);
        }
      }
    }
    var x :| 0 <= x < |num| && dom[x] != old_[x];
    assert Height(num, dom, x) < Height(num, old_, x);
    TotalHeightDrops(num, old_, dom, |num|);
  }
}
