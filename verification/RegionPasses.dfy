/** The passes of `dbt/aot/aot_module.cpp` that group the executed blocks of a page into compilation
    regions: reverse postorder, dominator links, dominance frontiers, region entries and region
    extraction.  Each pass works on the adjacency lists and per-node fields of a `ModuleGraph`. */
module RegionPasses {
  import opened Common
  import opened FlowGraphs
  import opened DomTrees
  import opened RegionTheory
  import opened Markers

  /** A node on an explicit depth-first stack and the position of its next successor. */
  datatype Frame = Frame(node: nat, next: nat)

  // ---------- Depth-first search ----------

  ghost function Universe(g: FlowGraph): (u: set<nat>)
    ensures forall x: nat :: x in u <==> g.Node(x)
  {
    set x: nat | 0 <= x < |g.succs| && g.Node(x)
  }

  /** Successors of the top frame that are yet to be looked at. */
  ghost function LeftOnTop(g: FlowGraph, stk: seq<Frame>): int {
    if stk == [] || !g.Node(stk[|stk| - 1].node) then 0
    else |g.succs[stk[|stk| - 1].node]| - stk[|stk| - 1].next
  }

  lemma TopOfStack(stk: seq<Frame>)
    requires stk != []
    ensures stk == stk[..|stk| - 1] + [stk[|stk| - 1]]
  {
  }

  /** `pos` gives each listed node its only position in the list. */
  ghost predicate Lists(s: seq<nat>, pos: map<nat, nat>) {
    && (forall i | 0 <= i < |s| :: s[i] in pos && pos[s[i]] == i)
    && (forall x | x in pos :: pos[x] < |s| && s[pos[x]] == x)
  }

  ghost predicate StackOk(g: FlowGraph, stk: seq<Frame>, level: map<nat, nat>) {
    && (forall k | 0 <= k < |stk| :: g.Node(stk[k].node) && stk[k].next <= |g.succs[stk[k].node]|)
    && (forall k | 0 <= k < |stk| :: stk[k].node in level && level[stk[k].node] == k)
    && (forall x | x in level :: level[x] < |stk| && stk[level[x]].node == x)
  }

  lemma ListsExtend(s: seq<nat>, pos: map<nat, nat>, x: nat)
    requires Lists(s, pos) && x !in pos
    ensures Lists(s + [x], pos[x := |s|])
  {
  }

  /** The stack after a node was found from the top frame. */
  function Pushed(rest: seq<Frame>, f: Frame, y: nat): seq<Frame> {
    rest + [Frame(f.node, f.next + 1)] + [Frame(y, 0)]
  }

  lemma PushedFrames(stk: seq<Frame>, rest: seq<Frame>, f: Frame, y: nat)
    requires stk == rest + [f]
    ensures |Pushed(rest, f, y)| == |stk| + 1 && Pushed(rest, f, y)[|stk|] == Frame(y, 0)
    ensures Pushed(rest, f, y)[|rest|] == Frame(f.node, f.next + 1) && stk[|rest|] == f
    ensures forall k | 0 <= k < |rest| :: Pushed(rest, f, y)[k] == stk[k]
  {
  }

  lemma PushedStackOk(g: FlowGraph, stk: seq<Frame>, level: map<nat, nat>, rest: seq<Frame>, f: Frame, y: nat)
    requires StackOk(g, stk, level) && stk == rest + [f] && g.Node(y) && y !in level && g.Node(f.node) && f.next < |g.succs[f.node]|
    ensures StackOk(g, Pushed(rest, f, y), level[y := |stk|])
  {
    PushedFrames(stk, rest, f, y);
  }

  lemma PoppedStackOk(g: FlowGraph, stk: seq<Frame>, level: map<nat, nat>, rest: seq<Frame>, f: Frame)
    requires StackOk(g, stk, level) && stk == rest + [f]
    ensures StackOk(g, rest, level - {f.node}) && stk[|rest|] == f && f.node in level && level[f.node] == |rest|
  {
    assert stk[|rest|] == f && forall k | 0 <= k < |rest| :: rest[k] == stk[k];
  }

  /** The first `upto` successors of `x` have been seen. */
  ghost predicate ScannedSeen(g: FlowGraph, x: nat, upto: nat, seen: set<nat>) {
    g.Node(x) && forall j | 0 <= j < upto && j < |g.succs[x]| :: g.succs[x][j] in seen
  }

  ghost predicate AllScanned(g: FlowGraph, x: nat, seen: set<nat>) {
    g.Node(x) && ScannedSeen(g, x, |g.succs[x]|, seen)
  }

  /** The node of frame `k` was found from the frame below it. */
  ghost predicate FoundFromBelow(g: FlowGraph, stk: seq<Frame>, k: nat)
    requires 0 < k < |stk|
  {
    g.Edge(stk[k - 1].node, stk[k].node)
  }

  /** A finished node has a predecessor that finishes later. */
  ghost predicate LaterPred(g: FlowGraph, pos: map<nat, nat>, level: map<nat, nat>, x: nat) {
    exists q :: g.Edge(q, x) && (q in level || (x in pos && q in pos && pos[x] < pos[q]))
  }

  /** The state of the postorder traversal: `po` lists the finished nodes, `stk` the open ones. */
  ghost predicate TraversalInv(g: FlowGraph, po: seq<nat>, pos: map<nat, nat>, stk: seq<Frame>, level: map<nat, nat>, seen: set<nat>) {
    TraversalShape(g, po, pos, stk, level, seen) && TraversalFound(g, pos, stk, level, seen)
  }

  /** Every node that was seen is in one of the two lists. */
  ghost predicate TraversalShape(g: FlowGraph, po: seq<nat>, pos: map<nat, nat>, stk: seq<Frame>, level: map<nat, nat>, seen: set<nat>) {
    && g.Valid() && Lists(po, pos) && StackOk(g, stk, level)
    && (forall x | x in pos :: x !in level)
    && (forall x :: x in seen <==> x in pos || x in level)
    && (if stk == [] then po != [] && po[|po| - 1] == ROOT else stk[0].node == ROOT)
    && (forall x | x in seen :: g.Node(x))
  }

  /** Where nodes were found, and what was found from them. */
  ghost predicate TraversalFound(g: FlowGraph, pos: map<nat, nat>, stk: seq<Frame>, level: map<nat, nat>, seen: set<nat>) {
    && (forall k: nat | k < |stk| :: ScannedSeen(g, stk[k].node, stk[k].next, seen))
    && (forall k: nat | 0 < k < |stk| :: FoundFromBelow(g, stk, k))
    && (forall x | x in pos :: AllScanned(g, x, seen))
    && (forall x {:trigger LaterPred(g, pos, level, x)} | x in pos && x != ROOT :: LaterPred(g, pos, level, x))
  }

  lemma TraversalStart(g: FlowGraph)
    requires g.Valid()
    ensures TraversalInv(g, [], map[], [Frame(ROOT, 0)], map[ROOT := 0], {ROOT})
  {
  }

  /** The predecessors of finished nodes, when the top node `x` is finished too. */
  lemma FinishedPreds(g: FlowGraph, po: seq<nat>, pos: map<nat, nat>, stk: seq<Frame>, level: map<nat, nat>, x: nat, y: nat)
    requires Lists(po, pos) && StackOk(g, stk, level) && stk != [] && stk[|stk| - 1].node == x && x !in pos
    requires y in pos[x := |po|] && y != ROOT && stk[0].node == ROOT && (y in pos ==> LaterPred(g, pos, level, y))
    requires |stk| > 1 ==> FoundFromBelow(g, stk, |stk| - 1)
    ensures LaterPred(g, pos[x := |po|], level - {x}, y)
  {
    if y == x {
      assert stk[|stk| - 2].node in level - {x};
    } else {
      var q :| g.Edge(q, y) && (q in level || (y in pos && q in pos && pos[y] < pos[q]));
      assert g.Edge(q, y);
    }
  }

  lemma PoppedFound(g: FlowGraph, stk: seq<Frame>, rest: seq<Frame>, f: Frame, seen: set<nat>)
    requires stk == rest + [f]
    requires (forall k: nat | k < |stk| :: ScannedSeen(g, stk[k].node, stk[k].next, seen)) && forall k: nat | 0 < k < |stk| :: FoundFromBelow(g, stk, k)
    ensures (forall k: nat | k < |rest| :: ScannedSeen(g, rest[k].node, rest[k].next, seen)) && forall k: nat | 0 < k < |rest| :: FoundFromBelow(g, rest, k)
  {
    forall k: nat | k < |rest|
      ensures ScannedSeen(g, rest[k].node, rest[k].next, seen)
      ensures 0 < k ==> FoundFromBelow(g, rest, k)
    {
      assert rest[k] == stk[k] && (0 < k ==> FoundFromBelow(g, stk, k));
    }
  }

  lemma FinishShape(g: FlowGraph, po: seq<nat>, pos: map<nat, nat>, stk: seq<Frame>, level: map<nat, nat>,
                    rest: seq<Frame>, f: Frame, seen: set<nat>)
    requires TraversalShape(g, po, pos, stk, level, seen) && stk == rest + [f]
    ensures TraversalShape(g, po + [f.node], pos[f.node := |po|], rest, level - {f.node}, seen)
  {
    PoppedStackOk(g, stk, level, rest, f);
    ListsExtend(po, pos, f.node);
    assert rest != [] ==> rest[0] == stk[0];
  }

  lemma FinishFound(g: FlowGraph, po: seq<nat>, pos: map<nat, nat>, stk: seq<Frame>, level: map<nat, nat>,
                    rest: seq<Frame>, f: Frame, seen: set<nat>)
    requires TraversalInv(g, po, pos, stk, level, seen) && stk == rest + [f] && g.Node(f.node) && f.next == |g.succs[f.node]|
    ensures TraversalFound(g, pos[f.node := |po|], rest, level - {f.node}, seen)
  {
    var x, last := f.node, |rest|;
    var pos', level' := pos[x := |po|], level - {x};
    PoppedStackOk(g, stk, level, rest, f);
    assert ScannedSeen(g, stk[last].node, stk[last].next, seen);
    PoppedFound(g, stk, rest, f, seen);
    forall y | y in pos' && y != ROOT
      ensures LaterPred(g, pos', level', y)
    {
      assert y in pos ==> LaterPred(g, pos, level, y);
      FinishedPreds(g, po, pos, stk, level, x, y);
    }
  }

  lemma TraversalFinish(g: FlowGraph, po: seq<nat>, pos: map<nat, nat>, stk: seq<Frame>, level: map<nat, nat>,
                        rest: seq<Frame>, f: Frame, seen: set<nat>)
    requires TraversalInv(g, po, pos, stk, level, seen) && stk == rest + [f] && g.Node(f.node) && f.next == |g.succs[f.node]|
    ensures TraversalInv(g, po + [f.node], pos[f.node := |po|], rest, level - {f.node}, seen)
  {
    FinishShape(g, po, pos, stk, level, rest, f, seen);
    FinishFound(g, po, pos, stk, level, rest, f, seen);
  }

  lemma TraversalAdvance(g: FlowGraph, po: seq<nat>, pos: map<nat, nat>, stk: seq<Frame>, level: map<nat, nat>,
                         rest: seq<Frame>, f: Frame, seen: set<nat>)
    requires TraversalInv(g, po, pos, stk, level, seen) && stk == rest + [f] && g.Node(f.node) && f.next < |g.succs[f.node]|
    requires g.succs[f.node][f.next] in seen
    ensures TraversalInv(g, po, pos, rest + [Frame(f.node, f.next + 1)], level, seen)
  {
    var stk' := rest + [Frame(f.node, f.next + 1)];
    assert stk[|rest|] == f;
    assert forall k | 0 <= k < |stk| :: stk'[k].node == stk[k].node && (k < |rest| ==> stk'[k] == stk[k]);
    assert StackOk(g, stk', level);
    forall k: nat | k < |stk'|
      ensures ScannedSeen(g, stk'[k].node, stk'[k].next, seen)
    {
      assert ScannedSeen(g, stk[k].node, stk[k].next, seen);
    }
    forall k: nat | 0 < k < |stk'|
      ensures FoundFromBelow(g, stk', k)
    {
      assert FoundFromBelow(g, stk, k);
    }
  }

  lemma PushedFound(g: FlowGraph, stk: seq<Frame>, rest: seq<Frame>, f: Frame, y: nat, seen: set<nat>)
    requires stk == rest + [f] && g.Node(f.node) && f.next < |g.succs[f.node]| && y == g.succs[f.node][f.next] && g.Node(y)
    requires (forall k: nat | k < |stk| :: ScannedSeen(g, stk[k].node, stk[k].next, seen)) && forall k: nat | 0 < k < |stk| :: FoundFromBelow(g, stk, k)
    ensures var stk' := Pushed(rest, f, y);
            && (forall k: nat | k < |stk'| :: ScannedSeen(g, stk'[k].node, stk'[k].next, seen + {y}))
            && (forall k: nat | 0 < k < |stk'| :: FoundFromBelow(g, stk', k))
  {
    var stk' := Pushed(rest, f, y);
    PushedFrames(stk, rest, f, y);
    forall k: nat | k < |stk'|
      ensures ScannedSeen(g, stk'[k].node, stk'[k].next, seen + {y})
    {
      assert k < |stk| ==> ScannedSeen(g, stk[k].node, stk[k].next, seen);
    }
    forall k: nat | 0 < k < |stk'|
      ensures FoundFromBelow(g, stk', k)
    {
      assert k < |stk| ==> FoundFromBelow(g, stk, k);
    }
  }

  lemma PushShape(g: FlowGraph, po: seq<nat>, pos: map<nat, nat>, stk: seq<Frame>, level: map<nat, nat>,
                  rest: seq<Frame>, f: Frame, y: nat, seen: set<nat>)
    requires TraversalShape(g, po, pos, stk, level, seen) && stk == rest + [f] && g.Node(f.node) && f.next < |g.succs[f.node]|
    requires g.Node(y) && y !in seen
    ensures TraversalShape(g, po, pos, Pushed(rest, f, y), level[y := |stk|], seen + {y})
  {
    PushedFrames(stk, rest, f, y);
    PushedStackOk(g, stk, level, rest, f, y);
  }

  lemma PushFound(g: FlowGraph, pos: map<nat, nat>, stk: seq<Frame>, level: map<nat, nat>, rest: seq<Frame>, f: Frame, y: nat, seen: set<nat>)
    requires TraversalFound(g, pos, stk, level, seen) && stk == rest + [f] && g.Node(f.node) && f.next < |g.succs[f.node]|
    requires y == g.succs[f.node][f.next] && g.Node(y)
    ensures TraversalFound(g, pos, Pushed(rest, f, y), level[y := |stk|], seen + {y})
  {
    var level' := level[y := |stk|];
    PushedFound(g, stk, rest, f, y, seen);
    forall z | z in pos && z != ROOT
      ensures LaterPred(g, pos, level', z)
    {
      assert LaterPred(g, pos, level, z);
    }
  }

  lemma TraversalPush(g: FlowGraph, po: seq<nat>, pos: map<nat, nat>, stk: seq<Frame>, level: map<nat, nat>,
                      rest: seq<Frame>, f: Frame, y: nat, seen: set<nat>)
    requires TraversalInv(g, po, pos, stk, level, seen) && stk == rest + [f] && g.Node(f.node) && f.next < |g.succs[f.node]|
    requires y == g.succs[f.node][f.next] && y !in seen
    ensures TraversalInv(g, po, pos, rest + [Frame(f.node, f.next + 1)] + [Frame(y, 0)], level[y := |stk|], seen + {y})
  {
    assert g.Edge(f.node, y);
    PushShape(g, po, pos, stk, level, rest, f, y, seen);
    PushFound(g, pos, stk, level, rest, f, y, seen);
  }

  /** What reverse postorder guarantees to the dominator pass: `po` lists the reachable nodes once
      each, the root last, and every other node before one of its predecessors. */
  ghost predicate PostOrder(g: FlowGraph, po: seq<nat>, pos: map<nat, nat>) {
    && Lists(po, pos) && po != [] && po[|po| - 1] == ROOT
    && (forall x: nat :: x in pos <==> g.Node(x) && Reachable(g, x))
    && (forall x {:trigger LaterPred(g, pos, map[], x)} | x in pos && x != ROOT :: LaterPred(g, pos, map[], x))
  }

  lemma {:induction false} SeenIsReachable(g: FlowGraph, seen: set<nat>, p: seq<nat>, x: nat)
    requires ROOT in seen && (forall y, s | y in seen && g.Edge(y, s) :: s in seen)
    requires PathTo(g, p, x)
    ensures x in seen
    decreases |p|
  {
    if |p| > 1 {
      ShortenPath(g, ROOT, p, x);
      SeenIsReachable(g, seen, p[..|p| - 1], p[|p| - 2]);
    }
  }

  lemma {:induction false} FinishedIsReachable(g: FlowGraph, po: seq<nat>, pos: map<nat, nat>, x: nat)
    requires g.Valid() && Lists(po, pos) && po != [] && po[|po| - 1] == ROOT && x in pos && g.Node(x)
    requires forall y | y in pos :: g.Node(y)
    requires forall y {:trigger LaterPred(g, pos, map[], y)} | y in pos && y != ROOT :: LaterPred(g, pos, map[], y)
    ensures Reachable(g, x)
    decreases |po| - pos[x]
  {
    if x == ROOT {
      assert PathTo(g, [ROOT], ROOT);
    } else {
      assert LaterPred(g, pos, map[], x);
      var q :| g.Edge(q, x) && q in pos && pos[x] < pos[q];
      FinishedIsReachable(g, po, pos, q);
      var p :| PathTo(g, p, q);
      ExtendPath(g, ROOT, p, q, x);
      assert PathTo(g, p + [x], x);
    }
  }

  lemma TraversalDone(g: FlowGraph, po: seq<nat>, pos: map<nat, nat>, level: map<nat, nat>, seen: set<nat>)
    requires TraversalInv(g, po, pos, [], level, seen)
    ensures PostOrder(g, po, pos)
  {
    assert level == map[];
    forall x: nat | g.Node(x) && Reachable(g, x)
      ensures x in pos
    {
      var p :| PathTo(g, p, x);
      SeenIsReachable(g, seen, p, x);
    }
    forall x | x in pos
      ensures g.Node(x) && Reachable(g, x)
    {
      assert x in seen;
      FinishedIsReachable(g, po, pos, x);
    }
  }

  /** Exactly the nodes in `seen` carry a nonzero state of the marker. */
  ghost predicate Painted(marks: seq<Mark>, marker: Marker, seen: set<nat>) {
    forall x | 0 <= x < |marks| :: marks[x] <= marker.mmax && (marker.Get(marks[x]) == 0 <==> x !in seen)
  }

  ghost predicate TwoStates(marker: Marker) {
    marker.mmax == marker.mmin + 2
  }

  /** The `push_node` step of the depth-first searches; region searches also pass over the nodes
      for which `skip` is set. */
  method PushNode(marks: seq<Mark>, marker: Marker, stk: seq<Frame>, y: nat, skip: bool, ghost seen: set<nat>)
    returns (marks': seq<Mark>, stk': seq<Frame>, pushed: bool, ghost seen': set<nat>)
    requires y < |marks| && TwoStates(marker) && Painted(marks, marker, seen)
    ensures pushed <==> !skip && y !in seen
    ensures |marks'| == |marks| && Painted(marks', marker, seen') && seen' == (if pushed then seen + {y} else seen)
    ensures stk' == if pushed then stk + [Frame(y, 0)] else stk
  {
    marks', stk', seen' := marks, stk, seen;
    pushed := marker.Get(marks[y]) == 0 && !skip;
    if pushed {
      seen' := seen + {y};
      stk' := stk + [Frame(y, 0)];
      marks' := marks[y := marker.Encode(1)];
    }
  }

  /** RPOTraversal::Compute over the node marks of a graph. */
  method PostOrderNodes(g: FlowGraph, marks: seq<Mark>, marker: Marker)
    returns (po: seq<nat>, ghost pos: map<nat, nat>, marks': seq<Mark>)
    requires g.Valid() && |marks| == |g.succs| && TwoStates(marker) && Painted(marks, marker, {})
    ensures |marks'| == |marks| && (forall x | 0 <= x < |marks'| :: marks'[x] <= marker.mmax)
    ensures PostOrder(g, po, pos)
  {
    var stk;
    var pushed;
    ghost var seen: set<nat>;
    marks', stk, pushed, seen := PushNode(marks, marker, [], ROOT, false, {});
    ghost var level: map<nat, nat> := map[ROOT := 0];
    po, pos := [], map[];
    TraversalStart(g);
    while stk != []
      invariant |marks'| == |marks| && Painted(marks', marker, seen)
      invariant TraversalInv(g, po, pos, stk, level, seen)
      decreases Universe(g) - seen, Universe(g) - pos.Keys, LeftOnTop(g, stk)
    {
      var rest, top := stk[..|stk| - 1], stk[|stk| - 1];
      TopOfStack(stk);
      if top.next == |g.succs[top.node]| {
        TraversalFinish(g, po, pos, stk, level, rest, top, seen);
        po, pos, stk, level := po + [top.node], pos[top.node := |po|], rest, level - {top.node};
      } else {
        var y := g.succs[top.node][top.next];
        assert g.Edge(top.node, y);
        if y in seen {
          TraversalAdvance(g, po, pos, stk, level, rest, top, seen);
        } else {
          TraversalPush(g, po, pos, stk, level, rest, top, y, seen);
          assert y in Universe(g) - seen;
          level := level[y := |stk|];
        }
        marks', stk, pushed, seen := PushNode(marks', marker, rest + [Frame(top.node, top.next + 1)], y, false, seen);
      }
    }
    TraversalDone(g, po, pos, level, seen);
  }

  // ---------- Reverse postorder numbers ----------

  lemma {:induction false} ListLength(s: seq<nat>, pos: map<nat, nat>)
    requires Lists(s, pos)
    ensures |pos.Keys| == |s|
  {
    if s == [] {
      assert pos.Keys == {};
    } else {
      var x, s' := s[|s| - 1], s[..|s| - 1];
      assert pos[x] == |s| - 1;
      var pos' := pos - {x};
      assert pos'.Keys == pos.Keys - {x};
      forall i | 0 <= i < |s'|
        ensures s'[i] in pos' && pos'[s'[i]] == i
      {
        assert s[i] == s'[i] && s[i] != x;
      }
      ListLength(s', pos');
    }
  }

  lemma {:induction false} RangeSize(n: nat, s: set<nat>)
    requires forall x: nat :: x in s <==> x < n
    ensures |s| == n
  {
    if n == 0 {
      assert s == {};
    } else {
      RangeSize(n - 1, s - {n - 1});
    }
  }

  /** The traversal lists all nodes exactly when all of them are reachable. */
  lemma PostOrderComplete(g: FlowGraph, po: seq<nat>, pos: map<nat, nat>)
    requires g.Valid() && PostOrder(g, po, pos)
    ensures |po| == |g.succs| <==> AllReachable(g)
  {
    ListLength(po, pos);
    RangeSize(|g.succs|, Universe(g));
    assert pos.Keys <= Universe(g);
    if AllReachable(g) {
      assert pos.Keys == Universe(g);
    }
    if |po| == |g.succs| {
      var rest := Universe(g) - pos.Keys;
      assert Universe(g) == pos.Keys + rest;
      assert rest == {};
      forall x | g.Node(x)
        ensures Reachable(g, x)
      {
        assert x in Universe(g);
      }
    }
  }

  /** The numbers that `rpon` reads back from the marks. */
  function Numbers(marks: seq<Mark>, marker: Marker): (num: seq<nat>)
    ensures |num| == |marks|
    ensures forall x | 0 <= x < |num| :: num[x] == marker.Get(marks[x])
  {
    seq(|marks|, x requires 0 <= x < |marks| => marker.Get(marks[x]))
  }

  /** Numbers the listed nodes from the end of the list: reverse postorder. */
  method NumberNodes(po: seq<nat>, ghost pos: map<nat, nat>, marks: seq<Mark>, marker: Marker)
    returns (marks': seq<Mark>)
    requires Lists(po, pos) && (forall x | x in pos :: x < |marks|)
    requires marker.mmin + |po| <= marker.mmax
    requires forall x | 0 <= x < |marks| :: marks[x] <= marker.mmax
    ensures |marks'| == |marks| && forall x | 0 <= x < |marks'| :: marks'[x] <= marker.mmax
    ensures forall x | x in pos :: Numbers(marks', marker)[x] == |po| - 1 - pos[x]
  {
    marks' := marks;
    var no := 0;
    while no < |po|
      invariant no <= |po| && |marks'| == |marks|
      invariant forall x | 0 <= x < |marks'| :: marks'[x] <= marker.mmax
      invariant forall x | x in pos && pos[x] >= |po| - no :: marker.Get(marks'[x]) == |po| - 1 - pos[x]
    {
      var x := po[|po| - 1 - no];
      marks' := marks'[x := marker.Encode(no)];
      no := no + 1;
    }
  }

  lemma PostOrderNumbers(g: FlowGraph, po: seq<nat>, pos: map<nat, nat>, num: seq<nat>)
    requires g.Valid() && PostOrder(g, po, pos) && AllReachable(g) && |po| == |num| == |g.succs|
    requires forall x | x in pos :: x < |num| && num[x] == |po| - 1 - pos[x]
    ensures Numbering(g, num)
  {
    assert forall x: nat | x < |num| :: g.Node(x) && Reachable(g, x) && x in pos;
    assert pos[po[|po| - 1]] == |po| - 1;
    forall x, y | 0 <= x < |num| && 0 <= y < |num| && num[x] == num[y]
      ensures x == y
    {
      assert po[pos[x]] == po[pos[y]];
    }
    forall x: nat | 0 < x < |num|
      ensures HasForwardPred(g, num, x)
    {
      assert LaterPred(g, pos, map[], x);
      var q: nat :| g.Edge(q, x) && q in pos && pos[x] < pos[q];
      assert q in g.preds[x] && num[q] < num[x];
    }
  }

  // ---------- Dominator links ----------

  /** The `intersect` step: climbs both chains to their nearest common node. */
  method Intersect(num: seq<nat>, dom: Links, b1: nat, b2: nat) returns (b: nat)
    requires TreeOk(num, dom) && Linked(dom, b1) && Linked(dom, b2)
    requires forall x, y | 0 <= x < |num| && 0 <= y < |num| && num[x] == num[y] :: x == y
    ensures Linked(dom, b) && Chain(num, dom, b) == Chain(num, dom, b1) * Chain(num, dom, b2)
  {
    var c1, c2 := b1, b2;
    ghost var common := Chain(num, dom, b1) * Chain(num, dom, b2);
    while c1 != c2
      invariant Linked(dom, c1) && Linked(dom, c2) && common == Chain(num, dom, c1) * Chain(num, dom, c2)
      decreases num[c1] + num[c2]
    {
      assert num[c1] != num[c2];
      ghost var height := num[c1] + num[c2];
      while num[c1] > num[c2]
        invariant Linked(dom, c1) && common == Chain(num, dom, c1) * Chain(num, dom, c2)
        invariant num[c1] + num[c2] <= height && (num[c1] + num[c2] == height ==> num[c1] != num[c2])
        decreases num[c1]
      {
        assert c1 !in Chain(num, dom, c2) && LinkUp(num, dom, c1);
        c1 := dom[c1].value;
      }
      while num[c2] > num[c1]
        invariant Linked(dom, c2) && common == Chain(num, dom, c1) * Chain(num, dom, c2)
        invariant num[c1] + num[c2] <= height && (num[c1] + num[c2] == height ==> num[c1] != num[c2])
        decreases num[c2]
      {
        assert c2 !in Chain(num, dom, c1) && LinkUp(num, dom, c2);
        c2 := dom[c2].value;
      }
    }
    b := c1;
  }

  /** `d` is the meet of the processed nodes among `ps`. */
  ghost predicate Meets(num: seq<nat>, dom: Links, ps: seq<nat>, d: nat)
    requires TreeOk(num, dom)
  {
    && Linked(dom, d)
    && (forall p | p in ps && Linked(dom, p) :: d in Chain(num, dom, p))
    && (forall z: nat | (forall p | p in ps && Linked(dom, p) :: z in Chain(num, dom, p)) :: z in Chain(num, dom, d))
  }

  lemma MeetsExtend(num: seq<nat>, dom: Links, ps: seq<nat>, d: nat, p: nat, d': nat)
    requires TreeOk(num, dom) && Meets(num, dom, ps, d) && Linked(dom, p) && Linked(dom, d')
    requires Chain(num, dom, d') == Chain(num, dom, p) * Chain(num, dom, d)
    ensures Meets(num, dom, ps + [p], d')
  {
    forall q | q in ps + [p] && Linked(dom, q)
      ensures d' in Chain(num, dom, q)
    {
      if q in ps {
        ChainLinear(num, dom, q, d);
      }
    }
    forall z: nat | forall q | q in ps + [p] && Linked(dom, q) :: z in Chain(num, dom, q)
      ensures z in Chain(num, dom, d')
    {
      assert p in ps + [p];
      assert forall q | q in ps :: q in ps + [p];
    }
  }

  /** The inner loop of a sweep: the new dominator of a node from its processed predecessors. */
  method MeetOfPreds(num: seq<nat>, dom: Links, ps: seq<nat>) returns (d: Option<nat>)
    requires TreeOk(num, dom) && forall p | p in ps :: p < |dom|
    requires forall x, y | 0 <= x < |num| && 0 <= y < |num| && num[x] == num[y] :: x == y
    ensures d.Some? <==> exists p :: p in ps && Linked(dom, p)
    ensures d.Some? ==> Meets(num, dom, ps, d.value)
  {
    d := None;
    var k := 0;
    while k < |ps|
      invariant k <= |ps|
      invariant d.None? ==> forall p | p in ps[..k] :: !Linked(dom, p)
      invariant d.Some? ==> Meets(num, dom, ps[..k], d.value) && exists p :: p in ps && Linked(dom, p)
    {
      var p := ps[k];
      assert p in ps && ps[..k + 1] == ps[..k] + [p];
      if dom[p].Some? {
        if d.Some? {
          var d' := Intersect(num, dom, p, d.value);
          MeetsExtend(num, dom, ps[..k], d.value, p, d');
          d := Some(d');
        } else {
          assert p in ps[..k + 1];
          d := Some(p);
        }
      }
      k := k + 1;
    }
    assert ps[..k] == ps;
  }

  /** The order in which a sweep visits the nodes. */
  ghost predicate SweepOrder(num: seq<nat>, po: seq<nat>) {
    |po| == |num| && forall i | 0 <= i < |po| :: po[i] < |num| && num[po[i]] == |po| - 1 - i
  }

  /** What a sweep has found out while it has changed nothing. */
  ghost predicate StableSoFar(g: FlowGraph, num: seq<nat>, dom: Links, k: nat)
    requires g.Valid() && TreeOk(num, dom) && |num| == |g.succs|
  {
    forall b: nat {:trigger StableAt(g, num, dom, b)} | 0 < b < |num| && num[b] < k :: StableAt(g, num, dom, b)
  }

  /** The link of `b` is what its processed predecessors agree on. */
  ghost predicate StableAt(g: FlowGraph, num: seq<nat>, dom: Links, b: nat)
    requires g.Valid() && TreeOk(num, dom) && |num| == |g.succs| && b < |num|
  {
    forall p | p in g.preds[b] && Linked(dom, p) :: dom[b].Some? && dom[b].value in Chain(num, dom, p)
  }

  /** One pass of the `while (changed)` loop. */
  method Sweep(g: FlowGraph, num: seq<nat>, po: seq<nat>, dom: Links) returns (dom': Links, changed: bool)
    requires SweepStart(g, num, dom) && LinksKeepDominators(g, dom) && SweepOrder(num, po)
    ensures SweepLoop(g, num, dom, dom', |num|, changed)
  {
    dom', changed := dom, false;
    FirstStep(g, num, dom);
    var k := 1;
    while k < |po|
      invariant 1 <= k <= |po|
      invariant SweepLoop(g, num, dom, dom', k, changed)
    {
      dom', changed := SweepNode(g, num, dom, dom', po[|po| - 1 - k], changed);
      k := k + 1;
    }
  }

  /** Recomputes the link of one node from its predecessors. */
  method SweepNode(g: FlowGraph, num: seq<nat>, ghost old_: Links, dom: Links, b: nat, changed: bool)
    returns (dom': Links, changed': bool)
    requires 0 < b < |num| && SweepLoop(g, num, old_, dom, num[b], changed)
    ensures SweepLoop(g, num, old_, dom', num[b] + 1, changed')
  {
    dom', changed' := dom, changed;
    var d := MeetOfPreds(num, dom, g.preds[b]);
    SweepVisit(g, num, old_, dom, b, d, changed);
    if dom[b] != d {
      dom', changed' := dom[b := d], true;
    } else {
      assert dom[b := d] == dom;
    }
  }

  /** The sweep invariant together with what `changed` means. */
  ghost predicate SweepLoop(g: FlowGraph, num: seq<nat>, old_: Links, dom: Links, k: nat, changed: bool) {
    && SweepInv(g, num, old_, dom, k) && LinksKeepDominators(g, dom)
    && (changed <==> dom != old_)
    && (!changed ==> StableSoFar(g, num, old_, k))
  }

  lemma SweepVisit(g: FlowGraph, num: seq<nat>, old_: Links, dom: Links, b: nat, d: Option<nat>, changed: bool)
    requires 0 < b < |num| && SweepLoop(g, num, old_, dom, num[b], changed)
    requires d.Some? <==> exists p :: p in g.preds[b] && Linked(dom, p)
    requires d.Some? ==> Meets(num, dom, g.preds[b], d.value)
    ensures SweepLoop(g, num, old_, dom[b := d], num[b] + 1, changed || dom[b] != d)
  {
    var q := ForwardLinked(g, num, old_, dom, b);
    assert MeetsPreds(g, num, dom, b, d.value);
    SweepRelinks(g, num, old_, dom, b, d, q);
    if dom[b] != d {
      LinkChanges(g, num, old_, dom, b, d);
    } else if !changed {
      StableStep(g, num, old_, b, d.value);
    }
  }

  lemma SweepRelinks(g: FlowGraph, num: seq<nat>, old_: Links, dom: Links, b: nat, d: Option<nat>, q: nat)
    requires 0 < b < |num| && SweepInv(g, num, old_, dom, num[b]) && LinksKeepDominators(g, dom)
    requires d.Some? && MeetsPreds(g, num, dom, b, d.value) && q in g.preds[b] && Linked(dom, q)
    ensures SweepInv(g, num, old_, dom[b := d], num[b] + 1) && LinksKeepDominators(g, dom[b := d])
    ensures dom[b] == d ==> dom[b := d] == dom
  {
    SweepStep(g, num, old_, dom, b, d.value);
    RelinkKeepsDominators(g, num, dom, b, d.value, q);
    if dom[b] == d {
      assert dom[b := d] == dom;
    }
  }

  lemma SweepDone(g: FlowGraph, num: seq<nat>, old_: Links, dom: Links, changed: bool)
    requires SweepLoop(g, num, old_, dom, |num|, changed)
    ensures Settled(g, num, dom)
    ensures changed ==> TotalHeight(num, dom, |num|) < TotalHeight(num, old_, |num|)
    ensures !changed ==> dom == old_ && Stable(g, num, old_)
  {
    SweepSettles(g, num, old_, dom);
    if changed {
      SweepDescends(g, num, old_, dom);
    } else {
      forall b: nat, p | 0 < b < |num| && p in g.preds[b]
        ensures dom[b].value in Chain(num, dom, p)
      {
        assert StableAt(g, num, dom, b);
      }
    }
  }

  lemma FirstStep(g: FlowGraph, num: seq<nat>, dom: Links)
    requires SweepStart(g, num, dom) && LinksKeepDominators(g, dom)
    ensures SweepLoop(g, num, dom, dom, 1, false)
  {
    forall x: nat | x < |num| && num[x] < 1
      ensures x == ROOT
    {
      assert num[x] == num[ROOT];
    }
  }

  /** A node not yet processed still has its old link, so changing it makes the links differ. */
  lemma LinkChanges(g: FlowGraph, num: seq<nat>, old_: Links, dom: Links, b: nat, d: Option<nat>)
    requires 0 < b < |num| && SweepInv(g, num, old_, dom, num[b]) && dom[b] != d
    ensures dom[b := d] != old_
  {
    assert dom[b] == old_[b];
    assert dom[b := d][b] != old_[b];
  }

  lemma StableStep(g: FlowGraph, num: seq<nat>, dom: Links, b: nat, d: nat)
    requires Numbering(g, num) && TreeOk(num, dom) && 0 < b < |num| && dom[b] == Some(d)
    requires StableSoFar(g, num, dom, num[b]) && MeetsPreds(g, num, dom, b, d)
    ensures StableSoFar(g, num, dom, num[b] + 1)
  {
    forall x: nat | 0 < x < |num| && num[x] < num[b] + 1
      ensures StableAt(g, num, dom, x)
    {
      assert num[x] == num[b] ==> x == b;
    }
  }

  /** The `while (changed)` loop of ComputeDomTree; it always stops, and then every link leads to
      the immediate dominator. */
  method LinkDominators(g: FlowGraph, num: seq<nat>, po: seq<nat>) returns (dom: Links)
    requires Numbering(g, num) && SweepOrder(num, po)
    ensures Stable(g, num, dom) && LinksKeepDominators(g, dom)
    ensures forall b: nat | 0 < b < |num| :: IsImmediateDominator(g, dom[b].value, b)
  {
    dom := seq(|num|, x => if x == ROOT then Some(ROOT) else None);
    assert OnlyRootLinked(dom);
    var changed := true;
    while changed
      invariant SweepStart(g, num, dom) && LinksKeepDominators(g, dom)
      invariant !changed ==> Stable(g, num, dom)
      decreases TotalHeight(num, dom, |num|), changed
    {
      ghost var before := dom;
      dom, changed := Sweep(g, num, po, dom);
      SweepDone(g, num, before, dom, changed);
    }
    forall b: nat | 0 < b < |num|
      ensures IsImmediateDominator(g, dom[b].value, b)
    {
      StableIsImmediate(g, num, dom, b);
    }
  }

  // ---------- Dominance frontiers ----------

  /** The nodes a runner visits when it climbs from `p` to the dominator of `b`. */
  ghost predicate OnRunway(num: seq<nat>, dom: Links, p: nat, b: nat, x: nat)
    requires TreeOk(num, dom) && AllLinked(dom) && b < |dom|
  {
    Linked(dom, p) && Linked(dom, b) && Linked(dom, dom[b].value) &&
    x in Chain(num, dom, p) && x !in Chain(num, dom, dom[b].value)
  }

  ghost predicate OnSomeRunway(num: seq<nat>, dom: Links, ps: seq<nat>, b: nat, x: nat)
    requires TreeOk(num, dom) && AllLinked(dom) && b < |dom|
  {
    exists p :: p in ps && OnRunway(num, dom, p, b, x)
  }

  /** `df'` differs from `df` only in that the chosen nodes gained `b`. */
  ghost predicate Gained(df: seq<set<nat>>, df': seq<set<nat>>, b: nat, chosen: nat -> bool) {
    |df'| == |df| && forall x: nat, y: nat | x < |df| :: y in df'[x] <==> y in df[x] || (y == b && chosen(x))
  }

  /** The runner loop for one predecessor. */
  method ClimbToDominator(ghost num: seq<nat>, dom: Links, df: seq<set<nat>>, p: nat, b: nat)
    returns (df': seq<set<nat>>)
    requires TreeOk(num, dom) && AllLinked(dom) && |df| == |dom| && p < |dom| && 0 < b < |dom|
    requires dom[b].value in Chain(num, dom, p)
    ensures Gained(df, df', b, (x: nat) => OnRunway(num, dom, p, b, x))
  {
    df' := df;
    var runner := p;
    while runner != dom[b].value
      invariant Linked(dom, runner) && runner in Chain(num, dom, p) && dom[b].value in Chain(num, dom, runner)
      invariant Gained(df, df', b, (x: nat) => x in Chain(num, dom, p) && x !in Chain(num, dom, runner))
      decreases num[runner]
    {
      ghost var above := dom[runner].value;
      assert runner != ROOT && LinkUp(num, dom, runner);
      assert Chain(num, dom, runner) == {runner} + Chain(num, dom, above);
      assert runner !in Chain(num, dom, above);
      ChainLinear(num, dom, p, runner);
      df' := df'[runner := df'[runner] + {b}];
      runner := dom[runner].value;
    }
  }

  /** All runners for one node. */
  method FrontierOfNode(ghost num: seq<nat>, dom: Links, df: seq<set<nat>>, ps: seq<nat>, b: nat)
    returns (df': seq<set<nat>>)
    requires TreeOk(num, dom) && AllLinked(dom) && |df| == |dom| && 0 < b < |dom|
    requires forall p | p in ps :: p < |dom| && dom[b].value in Chain(num, dom, p)
    ensures Gained(df, df', b, (x: nat) => OnSomeRunway(num, dom, ps, b, x))
  {
    df' := df;
    var k := 0;
    while k < |ps|
      invariant k <= |ps|
      invariant Gained(df, df', b, (x: nat) => OnSomeRunway(num, dom, ps[..k], b, x))
    {
      assert ps[k] in ps && ps[..k + 1] == ps[..k] + [ps[k]];
      df' := ClimbToDominator(num, dom, df', ps[k], b);
      k := k + 1;
    }
    assert ps[..k] == ps;
  }

  /** The frontier sets hold exactly what the runners of the nodes below `k` put there. */
  ghost predicate FrontierUpTo(g: FlowGraph, num: seq<nat>, dom: Links, df: seq<set<nat>>, k: nat)
    requires Stable(g, num, dom)
  {
    |df| == |num| && forall x: nat, y: nat {:trigger y in df[x]} | x < |df| ::
      y in df[x] <==> 0 < y < k && y < |num| && |g.preds[y]| > 1 && OnSomeRunway(num, dom, g.preds[y], y, x)
  }

  /** ComputeDomFrontier. */
  method DominanceFrontiers(g: FlowGraph, ghost num: seq<nat>, dom: Links) returns (df: seq<set<nat>>)
    requires Numbering(g, num) && Stable(g, num, dom) && LinksKeepDominators(g, dom)
    ensures |df| == |dom| && forall x: nat, y: nat | x < |df| :: y in df[x] <==> InFrontier(g, x, y)
  {
    df := seq(|dom|, x => {});
    var b := 1;
    while b < |dom|
      invariant 1 <= b <= |dom|
      invariant FrontierUpTo(g, num, dom, df, b)
    {
      df := FrontierVisit(g, num, dom, df, b);
      b := b + 1;
    }
    FrontierDone(g, num, dom, df);
  }

  /** Only join points can be in a frontier; other nodes are skipped. */
  method FrontierVisit(g: FlowGraph, ghost num: seq<nat>, dom: Links, df: seq<set<nat>>, b: nat) returns (df': seq<set<nat>>)
    requires Stable(g, num, dom) && 0 < b < |num| && FrontierUpTo(g, num, dom, df, b)
    ensures FrontierUpTo(g, num, dom, df', b + 1)
  {
    df' := df;
    if |g.preds[b]| > 1 {
      df' := FrontierOfNode(num, dom, df, g.preds[b], b);
    }
  }

  lemma FrontierDone(g: FlowGraph, num: seq<nat>, dom: Links, df: seq<set<nat>>)
    requires Numbering(g, num) && Stable(g, num, dom) && LinksKeepDominators(g, dom)
    requires FrontierUpTo(g, num, dom, df, |num|)
    ensures forall x: nat, y: nat | x < |df| :: y in df[x] <==> InFrontier(g, x, y)
  {
    forall x: nat, y: nat | x < |df|
      ensures y in df[x] <==> InFrontier(g, x, y)
    {
      RunwayIsFrontier(g, num, dom, x, y);
    }
  }

  /** The early exit for at most one predecessor loses nothing, and runners stop in the right place. */
  lemma RunwayIsFrontier(g: FlowGraph, num: seq<nat>, dom: Links, x: nat, y: nat)
    requires Numbering(g, num) && Stable(g, num, dom) && LinksKeepDominators(g, dom) && x < |num|
    ensures InFrontier(g, x, y) <==>
            0 < y < |num| && |g.preds[y]| > 1 && OnSomeRunway(num, dom, g.preds[y], y, x)
  {
    if 0 < y < |num| {
      var d := dom[y].value;
      assert LinkUp(num, dom, y);
      StableChainIsDominators(g, num, dom, x, y);
      assert x in Chain(num, dom, d) ==> num[x] <= num[d] < num[y];
      assert StrictlyDominates(g, x, y) <==> x in Chain(num, dom, d);
      forall p | p in g.preds[y]
        ensures OnRunway(num, dom, p, y, x) <==> Dominates(g, x, p) && !StrictlyDominates(g, x, y)
      {
        StableChainIsDominators(g, num, dom, x, p);
      }
      if |g.preds[y]| <= 1 {
        OnlyPredIsDominator(g, num, dom, y);
        assert HasForwardPred(g, num, y);
        assert forall p | p in g.preds[y] :: p == g.preds[y][0];
      }
    }
  }

  lemma OnlyPredIsDominator(g: FlowGraph, num: seq<nat>, dom: Links, y: nat)
    requires Numbering(g, num) && Stable(g, num, dom) && LinksKeepDominators(g, dom)
    requires 0 < y < |num| && |g.preds[y]| <= 1
    ensures |g.preds[y]| == 1 && dom[y].value == g.preds[y][0]
  {
    assert HasForwardPred(g, num, y);
    var q: nat :| q in g.preds[y] && num[q] < num[y];
    assert g.preds[y] == [q];
    forall p | PathTo(g, p, y)
      ensures q in p
    {
      ShortenPath(g, ROOT, p, y);
      assert p[|p| - 2] in g.preds[y];
    }
    assert StrictlyDominates(g, q, y) && LinkUp(num, dom, y);
    DominatorInChain(g, num, dom, q, dom[y].value);
    assert dom[y].value in Chain(num, dom, q);
    assert num[dom[y].value] == num[q];
  }

  // ---------- Region entries ----------

  ghost function Flagged(flags: seq<bool>): (s: set<nat>)
    ensures forall x: nat :: x in s <==> x < |flags| && flags[x]
  {
    set x: nat | 0 <= x < |flags| && flags[x]
  }

  ghost predicate ClosedUnder(df: seq<set<nat>>, s: set<nat>) {
    forall x: nat, y: nat | x in s && x < |df| && y in df[x] :: y in s
  }

  /** Already flagged nodes on the worklist. */
  ghost function FlaggedOn(w: seq<nat>, flags: seq<bool>): nat {
    if w == [] then 0
    else FlaggedOn(w[..|w| - 1], flags) + if w[|w| - 1] < |flags| && flags[w[|w| - 1]] then 1 else 0
  }

  lemma AppendUnflagged(w: seq<nat>, flags: seq<bool>, y: nat)
    requires y < |flags| && !flags[y]
    ensures FlaggedOn(w + [y], flags) == FlaggedOn(w, flags)
    ensures forall z :: z in w + [y] <==> z in w || z == y
  {
    assert (w + [y])[..|w|] == w;
  }

  /** Appends the unflagged nodes of a frontier, in any order, to the worklist. */
  method PushUnflagged(ys: set<nat>, flags: seq<bool>, w: seq<nat>) returns (w': seq<nat>)
    requires forall y | y in ys :: y < |flags|
    ensures forall z :: z in w' <==> z in w || (z in ys && !flags[z])
    ensures FlaggedOn(w', flags) == FlaggedOn(w, flags)
  {
    w' := w;
    var rest := ys;
    while rest != {}
      invariant rest <= ys && FlaggedOn(w', flags) == FlaggedOn(w, flags)
      invariant forall z :: z in w' <==> z in w || (z in ys && z !in rest && !flags[z])
    {
      var y :| y in rest;
      rest := rest - {y};
      if !flags[y] {
        AppendUnflagged(w', flags, y);
        w' := w' + [y];
      }
    }
  }

  /** The successors in the frontier of a flagged node that has left the worklist are accounted for. */
  ghost predicate Expanded(df: seq<set<nat>>, flags: seq<bool>, w: seq<nat>, x: nat)
    requires x < |df|
  {
    forall y | y in df[x] :: y < |flags| && (flags[y] || y in w)
  }

  ghost predicate WorkInv(df: seq<set<nat>>, seeds: seq<bool>, flags: seq<bool>, w: seq<nat>) {
    && |flags| == |df| == |seeds|
    && (forall x: nat, y: nat | x < |df| && y in df[x] :: y < |df|)
    && (forall x | x in w :: x < |df|)
    && (forall x | 0 <= x < |seeds| :: seeds[x] ==> flags[x])
    && (forall x: nat | x < |df| && flags[x] && x !in w :: Expanded(df, flags, w, x))
    && (forall s: set<nat> | Flagged(seeds) <= s && ClosedUnder(df, s) :: Flagged(flags) <= s && forall x | x in w :: x in s)
  }

  /** One turn of the worklist loop. */
  lemma WorkStep(df: seq<set<nat>>, seeds: seq<bool>, flags: seq<bool>, w: seq<nat>, rest: seq<nat>, x: nat, w': seq<nat>)
    requires WorkInv(df, seeds, flags, w) && w == rest + [x] && x < |df|
    requires forall z :: z in w' <==> z in rest || (z in df[x] && z < |flags| && !flags[z])
    ensures WorkInv(df, seeds, flags[x := true], w')
  {
    var flags' := flags[x := true];
    assert forall z :: z in w <==> z in rest || z == x;
    forall z: nat | z < |df| && flags'[z] && z !in w'
      ensures Expanded(df, flags', w', z)
    {
      if z == x {
        forall y | y in df[x] ensures y < |flags'| && (flags'[y] || y in w') {
          assert y < |df|;
        }
      } else {
        assert Expanded(df, flags, w, z);
      }
    }
    forall s: set<nat> | Flagged(seeds) <= s && ClosedUnder(df, s)
      ensures Flagged(flags') <= s && forall z | z in w' :: z in s
    {
      assert Flagged(flags) <= s && x in s;
      forall z: nat | z in Flagged(flags') ensures z in s {
        assert z == x || z in Flagged(flags);
      }
    }
  }

  /** ComputeRegionIDF: the least set of nodes that contains the seeds and is closed under `df`. */
  method RegionEntries(seeds: seq<bool>, df: seq<set<nat>>) returns (flags: seq<bool>)
    requires |seeds| == |df| && forall x: nat, y: nat | x < |df| && y in df[x] :: y < |df|
    ensures |flags| == |df| && Flagged(seeds) <= Flagged(flags) && ClosedUnder(df, Flagged(flags))
    ensures forall s: set<nat> | Flagged(seeds) <= s && ClosedUnder(df, s) :: Flagged(flags) <= s
  {
    flags := seq(|seeds|, x => false);
    var w: seq<nat> := [];
    var i := 0;
    while i < |seeds|
      invariant i <= |seeds| == |flags|
      invariant forall x: nat | x < |seeds| :: flags[x] <==> x < i && seeds[x]
      invariant forall x :: x in w <==> 0 <= x < i && seeds[x]
    {
      if seeds[i] {
        flags := flags[i := true];
        w := w + [i];
      }
      i := i + 1;
    }
    while w != []
      invariant WorkInv(df, seeds, flags, w)
      decreases Flagged(seq(|flags|, x requires 0 <= x < |flags| => !flags[x])), FlaggedOn(w, flags)
    {
      var rest, x := w[..|w| - 1], w[|w| - 1];
      assert w == rest + [x] && x in w;
      var w' := PushUnflagged(df[x], flags, rest);
      WorkStep(df, seeds, flags, w, rest, x, w');
      if flags[x] {
        assert flags[x := true] == flags;
      } else {
        assert x in Flagged(seq(|flags|, z requires 0 <= z < |flags| => !flags[z]));
      }
      flags, w := flags[x := true], w';
    }
    forall x: nat, y: nat | x in Flagged(flags) && x < |df| && y in df[x]
      ensures y in Flagged(flags)
    {
      assert Expanded(df, flags, w, x);
    }
  }

  // ---------- Region extraction ----------

  /** The first `upto` successors of `x` are entries or have been collected. */
  ghost predicate ScannedIn(g: FlowGraph, x: nat, upto: nat, entries: set<nat>, pos: map<nat, nat>) {
    g.Node(x) && forall j | 0 <= j < upto && j < |g.succs[x]| :: g.succs[x][j] in entries || g.succs[x][j] in pos
  }

  ghost predicate AllScannedIn(g: FlowGraph, x: nat, entries: set<nat>, pos: map<nat, nat>) {
    g.Node(x) && ScannedIn(g, x, |g.succs[x]|, entries, pos)
  }

  /** The state of the region search: `nodes` lists what was collected, `stk` what is still open. */
  ghost predicate RegionInv(g: FlowGraph, entries: set<nat>, e: nat, nodes: seq<nat>, pos: map<nat, nat>,
                            stk: seq<Frame>, level: map<nat, nat>, seen: set<nat>) {
    && g.Valid() && e in entries && g.Node(e)
    && Lists(nodes, pos) && nodes != [] && nodes[0] == e && StackOk(g, stk, level)
    && (forall x :: x in seen <==> x in pos)
    && (forall x | x in level :: x in pos)
    && (forall x | x in pos :: g.Node(x))
    && (forall x {:trigger InRegion(g, entries, e, x)} | x in pos :: InRegion(g, entries, e, x))
    && (forall k: nat | k < |stk| :: ScannedIn(g, stk[k].node, stk[k].next, entries, pos))
    && (forall x | x in pos && x !in level :: AllScannedIn(g, x, entries, pos))
  }

  lemma InRegionEdge(g: FlowGraph, entries: set<nat>, e: nat, u: nat, v: nat)
    requires g.Valid() && InRegion(g, entries, e, u) && g.Edge(u, v) && v !in entries
    ensures InRegion(g, entries, e, v)
  {
    var p :| RegionPath(g, entries, e, p, u);
    ExtendPath(g, e, p, u, v);
    assert RegionPath(g, entries, e, p + [v], v);
  }

  lemma RegionStart(g: FlowGraph, entries: set<nat>, e: nat)
    requires g.Valid() && e in entries && g.Node(e)
    ensures RegionInv(g, entries, e, [e], map[e := 0], [Frame(e, 0)], map[e := 0], {e})
  {
    assert RegionPath(g, entries, e, [e], e);
  }

  lemma RegionFinish(g: FlowGraph, entries: set<nat>, e: nat, nodes: seq<nat>, pos: map<nat, nat>, stk: seq<Frame>,
                     level: map<nat, nat>, seen: set<nat>, rest: seq<Frame>, f: Frame)
    requires RegionInv(g, entries, e, nodes, pos, stk, level, seen)
    requires stk == rest + [f] && g.Node(f.node) && f.next == |g.succs[f.node]|
    ensures RegionInv(g, entries, e, nodes, pos, rest, level - {f.node}, seen)
  {
    var level' := level - {f.node};
    assert stk[|rest|] == f;
    assert forall k | 0 <= k < |rest| :: rest[k] == stk[k];
    assert StackOk(g, rest, level');
    assert ScannedIn(g, stk[|rest|].node, stk[|rest|].next, entries, pos);
  }

  lemma RegionAdvance(g: FlowGraph, entries: set<nat>, e: nat, nodes: seq<nat>, pos: map<nat, nat>, stk: seq<Frame>,
                      level: map<nat, nat>, seen: set<nat>, rest: seq<Frame>, f: Frame)
    requires RegionInv(g, entries, e, nodes, pos, stk, level, seen)
    requires stk == rest + [f] && g.Node(f.node) && f.next < |g.succs[f.node]|
    requires g.succs[f.node][f.next] in entries || g.succs[f.node][f.next] in seen
    ensures RegionInv(g, entries, e, nodes, pos, rest + [Frame(f.node, f.next + 1)], level, seen)
  {
    var stk' := rest + [Frame(f.node, f.next + 1)];
    assert stk[|rest|] == f;
    assert forall k | 0 <= k < |stk| :: stk'[k].node == stk[k].node && (k < |rest| ==> stk'[k] == stk[k]);
    assert StackOk(g, stk', level);
    forall k: nat | k < |stk'|
      ensures ScannedIn(g, stk'[k].node, stk'[k].next, entries, pos)
    {
      assert ScannedIn(g, stk[k].node, stk[k].next, entries, pos);
    }
  }

  lemma PushedScannedIn(g: FlowGraph, entries: set<nat>, pos: map<nat, nat>, pos': map<nat, nat>, stk: seq<Frame>, rest: seq<Frame>, f: Frame, y: nat, k: nat)
    requires stk == rest + [f] && g.Node(f.node) && f.next < |g.succs[f.node]| && y == g.succs[f.node][f.next] && g.Node(y)
    requires y in pos' && (forall x | x in pos :: x in pos') && k <= |stk| && (k < |stk| ==> ScannedIn(g, stk[k].node, stk[k].next, entries, pos))
    ensures |Pushed(rest, f, y)| == |stk| + 1 && ScannedIn(g, Pushed(rest, f, y)[k].node, Pushed(rest, f, y)[k].next, entries, pos')
  {
    PushedFrames(stk, rest, f, y);
  }

  lemma RegionPush(g: FlowGraph, entries: set<nat>, e: nat, nodes: seq<nat>, pos: map<nat, nat>, stk: seq<Frame>,
                   level: map<nat, nat>, seen: set<nat>, rest: seq<Frame>, f: Frame, y: nat)
    requires RegionInv(g, entries, e, nodes, pos, stk, level, seen)
    requires stk == rest + [f] && g.Node(f.node) && f.next < |g.succs[f.node]|
    requires y == g.succs[f.node][f.next] && y !in entries && y !in seen
    ensures RegionInv(g, entries, e, nodes + [y], pos[y := |nodes|],
                      rest + [Frame(f.node, f.next + 1)] + [Frame(y, 0)], level[y := |stk|], seen + {y})
  {
    var pos', level', stk' := pos[y := |nodes|], level[y := |stk|], Pushed(rest, f, y);
    assert stk[|rest|] == f && g.Edge(f.node, y) && f.node in level;
    assert InRegion(g, entries, e, f.node);
    InRegionEdge(g, entries, e, f.node, y);
    ListsExtend(nodes, pos, y);
    PushedStackOk(g, stk, level, rest, f, y);
    forall k: nat | k < |stk'|
      ensures ScannedIn(g, stk'[k].node, stk'[k].next, entries, pos')
    {
      assert k < |stk| ==> ScannedIn(g, stk[k].node, stk[k].next, entries, pos);
      PushedScannedIn(g, entries, pos, pos', stk, rest, f, y, k);
    }
    forall x | x in pos' && x !in level'
      ensures AllScannedIn(g, x, entries, pos')
    {
      assert AllScannedIn(g, x, entries, pos);
    }
  }

  lemma {:induction false} RegionReaches(g: FlowGraph, entries: set<nat>, e: nat, pos: map<nat, nat>, p: seq<nat>, x: nat)
    requires g.Valid() && e in pos && RegionPath(g, entries, e, p, x)
    requires forall y | y in pos :: AllScannedIn(g, y, entries, pos)
    ensures x in pos
    decreases |p|
  {
    if |p| > 1 {
      ShortenPath(g, e, p, x);
      var u := p[|p| - 2];
      assert RegionPath(g, entries, e, p[..|p| - 1], u);
      RegionReaches(g, entries, e, pos, p[..|p| - 1], u);
      assert x == p[|p| - 1] && x !in entries && AllScannedIn(g, u, entries, pos);
    }
  }

  /** `nodes` lists the region of its first node, each node once. */
  ghost predicate IsRegion(g: FlowGraph, entries: set<nat>, nodes: seq<nat>) {
    nodes != [] && nodes[0] in entries && exists pos :: Lists(nodes, pos) && IsRegionIndex(g, entries, nodes[0], pos)
  }

  ghost predicate IsRegionIndex(g: FlowGraph, entries: set<nat>, e: nat, pos: map<nat, nat>) {
    forall x: nat :: x in pos <==> InRegion(g, entries, e, x)
  }

  lemma RegionDone(g: FlowGraph, entries: set<nat>, e: nat, nodes: seq<nat>, pos: map<nat, nat>, level: map<nat, nat>, seen: set<nat>)
    requires RegionInv(g, entries, e, nodes, pos, [], level, seen)
    ensures IsRegion(g, entries, nodes) && nodes[0] == e
  {
    assert level == map[];
    assert nodes[0] in pos;
    forall x: nat
      ensures x in pos <==> InRegion(g, entries, e, x)
    {
      if InRegion(g, entries, e, x) {
        var p :| RegionPath(g, entries, e, p, x);
        RegionReaches(g, entries, e, pos, p, x);
      }
    }
    assert IsRegionIndex(g, entries, nodes[0], pos);
  }

  /** One turn of the `compute_region` loop: leaves the top node or looks at its next successor. */
  method RegionVisit(g: FlowGraph, flags: seq<bool>, e: nat, nodes: seq<nat>, ghost pos: map<nat, nat>, stk: seq<Frame>,
                     ghost level: map<nat, nat>, marks: seq<Mark>, marker: Marker, ghost seen: set<nat>)
    returns (nodes': seq<nat>, ghost pos': map<nat, nat>, stk': seq<Frame>, ghost level': map<nat, nat>,
             marks': seq<Mark>, ghost seen': set<nat>)
    requires RegionInv(g, Flagged(flags), e, nodes, pos, stk, level, seen) && stk != []
    requires |marks| == |g.succs| == |flags| && TwoStates(marker) && Painted(marks, marker, seen)
    ensures RegionInv(g, Flagged(flags), e, nodes', pos', stk', level', seen')
    ensures |marks'| == |marks| && Painted(marks', marker, seen')
    ensures seen < seen' || (seen' == seen && |stk'| < |stk|) ||
            (seen' == seen && |stk'| == |stk| && 0 <= LeftOnTop(g, stk') < LeftOnTop(g, stk))
  {
    var rest, top := stk[..|stk| - 1], stk[|stk| - 1];
    TopOfStack(stk);
    if top.next == |g.succs[top.node]| {
      RegionFinish(g, Flagged(flags), e, nodes, pos, stk, level, seen, rest, top);
      nodes', pos', stk', level', marks', seen' := nodes, pos, rest, level - {top.node}, marks, seen;
    } else {
      var y := g.succs[top.node][top.next];
      assert g.Edge(top.node, y) && g.Node(y);
      var advanced := rest + [Frame(top.node, top.next + 1)];
      var pushed;
      marks', stk', pushed, seen' := PushNode(marks, marker, advanced, y, flags[y], seen);
      if pushed {
        RegionPush(g, Flagged(flags), e, nodes, pos, stk, level, seen, rest, top, y);
        nodes', pos', level' := nodes + [y], pos[y := |nodes|], level[y := |stk|];
      } else {
        RegionAdvance(g, Flagged(flags), e, nodes, pos, stk, level, seen, rest, top);
        nodes', pos', level' := nodes, pos, level;
      }
    }
  }

  /** The `compute_region` search from one entry. */
  method RegionNodes(g: FlowGraph, flags: seq<bool>, e: nat, marks: seq<Mark>, marker: Marker)
    returns (nodes: seq<nat>, marks': seq<Mark>)
    requires g.Valid() && |marks| == |g.succs| == |flags| && e < |flags| && flags[e]
    requires TwoStates(marker) && Painted(marks, marker, {})
    ensures |marks'| == |marks| && (forall x | 0 <= x < |marks'| :: marks'[x] <= marker.mmax)
    ensures IsRegion(g, Flagged(flags), nodes) && nodes[0] == e
  {
    var stk;
    var pushed;
    ghost var seen: set<nat>;
    marks', stk, pushed, seen := PushNode(marks, marker, [], e, false, {});
    nodes := [e];
    ghost var pos: map<nat, nat>, level: map<nat, nat> := map[e := 0], map[e := 0];
    RegionStart(g, Flagged(flags), e);
    while stk != []
      invariant |marks'| == |marks| && Painted(marks', marker, seen)
      invariant RegionInv(g, Flagged(flags), e, nodes, pos, stk, level, seen)
      decreases Universe(g) - seen, |stk|, LeftOnTop(g, stk)
    {
      ghost var before := seen;
      nodes, pos, stk, level, marks', seen := RegionVisit(g, flags, e, nodes, pos, stk, level, marks', marker, seen);
      SeenShrinks(g, before, seen);
    }
    RegionDone(g, Flagged(flags), e, nodes, pos, level, seen);
  }

  lemma SeenShrinks(g: FlowGraph, seen: set<nat>, seen': set<nat>)
    requires seen <= seen' && forall x | x in seen' :: g.Node(x)
    ensures seen < seen' ==> Universe(g) - seen' < Universe(g) - seen
  {
    if seen < seen' {
      var y :| y in seen' && y !in seen;
      assert y in Universe(g) - seen;
    }
  }

  // ---------- The two requirements on a region split ----------

  /** The entries of the regions. */
  ghost function Heads(regions: seq<seq<nat>>): set<nat> {
    set k | 0 <= k < |regions| && regions[k] != [] :: regions[k][0]
  }

  /** `x` lies in region `k` and in no other. */
  ghost predicate OnlyInRegion(regions: seq<seq<nat>>, x: nat, k: nat) {
    k < |regions| && x in regions[k] && forall j | 0 <= j < |regions| && x in regions[j] :: j == k
  }

  /** Block `x` is governed by the entry `e`: `e` dominates it and is visited last on every path to it. */
  ghost predicate Governs(g: FlowGraph, entries: set<nat>, e: nat, x: nat) {
    && Dominates(g, e, x) && (x in entries ==> x == e)
    && forall p | PathTo(g, p, x) :: LastEntry(entries, p) == Some(e)
  }

  ghost predicate NoRepeats(nodes: seq<nat>) {
    exists pos :: Lists(nodes, pos)
  }

  ghost predicate HasRegion(regions: seq<seq<nat>>, x: nat) {
    exists k :: OnlyInRegion(regions, x, k)
  }

  /** Every block of the page lies in exactly one region, once, and regions hold nothing else. */
  ghost predicate Partition(g: FlowGraph, regions: seq<seq<nat>>) {
    && (forall k | 0 <= k < |regions| :: regions[k] != [] && NoRepeats(regions[k]))
    && (forall x: nat | 0 < x < |g.succs| :: HasRegion(regions, x))
    && (forall k, x | 0 <= k < |regions| && x in regions[k] :: 0 < x < |g.succs|)
  }

  /** First requirement: the first block of a region is its only entry and governs all of it. */
  ghost predicate SingleEntryRegions(g: FlowGraph, regions: seq<seq<nat>>) {
    forall k, x | 0 <= k < |regions| && x in regions[k] :: Governs(g, Heads(regions), regions[k][0], x)
  }

  /** Second requirement: any set of entries with unique last entries is at least as large. */
  ghost predicate MinimalRegions(g: FlowGraph, seeds: set<nat>, regions: seq<seq<nat>>) {
    && seeds <= Heads(regions)
    && forall other | EntrySet(g, seeds, other) && SingleEntry(g, other) ::
         Heads(regions) <= other && |regions| <= |other|
  }

  /** What the region passes hand over: one region per entry, in increasing order of the entries. */
  ghost predicate RegionPerEntry(g: FlowGraph, entries: set<nat>, regions: seq<seq<nat>>) {
    && (forall k | 0 <= k < |regions| :: IsRegion(g, entries, regions[k]))
    && (forall i, k | 0 <= i < k < |regions| :: regions[i][0] < regions[k][0])
    && (forall e | e in entries :: exists k :: 0 <= k < |regions| && regions[k][0] == e)
  }

  lemma {:induction false} HeadCount(regions: seq<seq<nat>>)
    requires forall k | 0 <= k < |regions| :: regions[k] != []
    requires forall i, k | 0 <= i < k < |regions| :: regions[i][0] < regions[k][0]
    ensures |Heads(regions)| == |regions|
  {
    if regions == [] {
      assert Heads(regions) == {};
    } else {
      var n := |regions| - 1;
      var rest := regions[..n];
      HeadCount(rest);
      assert Heads(regions) == Heads(rest) + {regions[n][0]} by {
        forall x | x in Heads(regions)
          ensures x in Heads(rest) + {regions[n][0]}
        {
          var k :| 0 <= k < |regions| && regions[k] != [] && regions[k][0] == x;
          assert k < n ==> rest[k] == regions[k];
        }
        forall x | x in Heads(rest)
          ensures x in Heads(regions)
        {
          var k :| 0 <= k < |rest| && rest[k] != [] && rest[k][0] == x;
          assert rest[k] == regions[k];
        }
      }
      assert regions[n][0] !in Heads(rest);
    }
  }

  lemma HeadsAreEntries(g: FlowGraph, entries: set<nat>, regions: seq<seq<nat>>)
    requires RegionPerEntry(g, entries, regions)
    ensures Heads(regions) == entries && |regions| == |entries|
  {
    HeadCount(regions);
  }

  lemma InRegionList(g: FlowGraph, entries: set<nat>, nodes: seq<nat>, x: nat)
    requires IsRegion(g, entries, nodes)
    ensures x in nodes <==> InRegion(g, entries, nodes[0], x)
  {
    var pos :| Lists(nodes, pos) && IsRegionIndex(g, entries, nodes[0], pos);
    assert x in nodes <==> x in pos;
  }

  lemma EntriesAvoidRoot(g: FlowGraph, seeds: set<nat>, entries: set<nat>)
    requires g.Valid() && IteratedFrontier(g, seeds, entries) && ROOT !in seeds && forall s | s in seeds :: g.Node(s)
    ensures EntrySet(g, seeds, entries)
  {
    var blocks := Universe(g) - {ROOT};
    forall x, y | x in blocks && InFrontier(g, x, y)
      ensures y in blocks
    {
    }
    assert FrontierClosed(g, blocks);
  }

  lemma RegionsAreGoverned(g: FlowGraph, seeds: set<nat>, entries: set<nat>, nodes: seq<nat>, x: nat)
    requires g.Valid() && RootFeeds(g, seeds) && EntrySet(g, seeds, entries) && AllReachable(g)
    requires FrontierClosed(g, entries) && IsRegion(g, entries, nodes) && x in nodes
    ensures 0 < x < |g.succs| && Governs(g, entries, nodes[0], x)
  {
    InRegionList(g, entries, nodes, x);
    var r :| RegionPath(g, entries, nodes[0], r, x);
    assert g.Node(x) && Reachable(g, x);
    ClosedIsSingleEntry(g, seeds, entries);
    forall p | PathTo(g, p, x)
      ensures x != ROOT && LastEntry(entries, p) == Some(nodes[0])
    {
      RegionHasLastEntry(g, seeds, entries, nodes[0], x, p);
    }
    var p :| PathTo(g, p, x);
    LastEntryIsNearest(g, seeds, entries, p, x);
    if x in entries {
      assert LastEntry(entries, p) == Some(x);
    }
  }

  /** Both requirements hold of the regions built from iterated dominance frontiers. */
  lemma RegionsSplitPage(g: FlowGraph, seeds: set<nat>, entries: set<nat>, regions: seq<seq<nat>>)
    requires g.Valid() && RootFeeds(g, seeds) && AllReachable(g) && ROOT !in seeds && forall s | s in seeds :: g.Node(s)
    requires IteratedFrontier(g, seeds, entries) && RegionPerEntry(g, entries, regions)
    ensures Partition(g, regions) && SingleEntryRegions(g, regions) && MinimalRegions(g, seeds, regions)
  {
    HeadsAreEntries(g, entries, regions);
    EntriesAvoidRoot(g, seeds, entries);
    assert Partition(g, regions) && SingleEntryRegions(g, regions) by {
      forall x: nat | 0 < x < |g.succs|
        ensures HasRegion(regions, x)
      {
        PageBlockHasRegion(g, seeds, entries, regions, x);
      }
      forall k, x | 0 <= k < |regions| && x in regions[k]
        ensures 0 < x < |g.succs| && Governs(g, Heads(regions), regions[k][0], x)
      {
        RegionsAreGoverned(g, seeds, entries, regions[k], x);
      }
    }
    forall other | EntrySet(g, seeds, other) && SingleEntry(g, other)
      ensures Heads(regions) <= other && |regions| <= |other|
    {
      IteratedFrontierIsMinimal(g, seeds, entries, other);
    }
  }

  lemma PageBlockHasRegion(g: FlowGraph, seeds: set<nat>, entries: set<nat>, regions: seq<seq<nat>>, x: nat)
    requires g.Valid() && RootFeeds(g, seeds) && EntrySet(g, seeds, entries) && AllReachable(g)
    requires FrontierClosed(g, entries) && RegionPerEntry(g, entries, regions) && 0 < x < |g.succs|
    ensures HasRegion(regions, x)
  {
    var e := RegionsPartition(g, seeds, entries, x);
    var k :| 0 <= k < |regions| && regions[k][0] == e;
    InRegionList(g, entries, regions[k], x);
    forall j | 0 <= j < |regions| && x in regions[j]
      ensures j == k
    {
      assert IsRegion(g, entries, regions[j]);
      InRegionList(g, entries, regions[j], x);
      assert regions[j][0] == regions[k][0];
    }
    assert OnlyInRegion(regions, x, k);
  }
}
