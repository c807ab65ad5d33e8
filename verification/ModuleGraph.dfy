/** `ModuleGraph` of `dbt/aot/aot_module.h`: the executed blocks of one guest page, the edges between
    them and the per-node results of the region passes.  Blocks are numbered from 1 in the order in
    which they were recorded; number 0 is the artificial root. */
module ModuleGraphs {
  import opened Common
  import opened FlowGraphs
  import opened DomTrees
  import opened RegionTheory
  import opened Markers
  import opened RegionPasses

  const ADDRESS_SPACE := 0x1_0000_0000

  type Address = a: nat | a < ADDRESS_SPACE

  /** `CodeSegment::InSegment`, with the subtraction wrapping at 32 bits. */
  function InSegment(base: Address, size: nat, ip: Address): bool {
    (ip - base) % ADDRESS_SPACE < size
  }

  /** The flags that make a block an entry whatever the edges are. */
  function EntryFlags(brind: seq<bool>, segment: seq<bool>): (f: seq<bool>)
    requires |brind| == |segment|
    ensures |f| == |brind| && forall x | 0 <= x < |f| :: f[x] == (brind[x] || segment[x])
  {
    seq(|brind|, x requires 0 <= x < |brind| => brind[x] || segment[x])
  }

  /** What is recorded about the blocks, as a value: root edges and entry flags agree, and addresses
      and node numbers are in one-to-one correspondence. */
  datatype Record = Record(g: FlowGraph, ips: seq<Address>, ipMap: map<Address, nat>, brind: seq<bool>, segment: seq<bool>) {

    ghost predicate Valid() {
      && g.Valid() && |ips| == |brind| == |segment| == |g.succs|
      && RootEdgesOk() && MapOk()
    }

    ghost predicate RootEdgesOk()
      requires |brind| == |segment| && |g.succs| > 0
    {
      && ROOT !in Seeds() && (forall s | s in Seeds() :: g.Node(s))
      && (forall s: nat :: g.Edge(ROOT, s) <==> s in Seeds())
    }

    ghost predicate MapOk()
      requires |ips| == |g.succs|
    {
      && (forall ip | ip in ipMap :: 0 < ipMap[ip] < |ips| && ips[ipMap[ip]] == ip)
      && (forall x | 0 < x < |ips| :: ips[x] in ipMap && ipMap[ips[x]] == x)
    }

    ghost function Seeds(): set<nat>
      requires |brind| == |segment|
    {
      Flagged(EntryFlags(brind, segment))
    }

    function AddNode(ip: Address): Record {
      Record(FlowGraph(g.succs + [[]], g.preds + [[]]), ips + [ip], ipMap[ip := |ips|], brind + [false], segment + [false])
    }

    function AddSucc(u: nat, v: nat): Record
      requires u < |g.succs| && v < |g.preds|
    {
      this.(g := FlowGraph(g.succs[u := g.succs[u] + [v]], g.preds[v := g.preds[v] + [u]]))
    }
  }

  lemma AddNodeValid(r: Record, ip: Address)
    requires r.Valid() && ip !in r.ipMap
    ensures r.AddNode(ip).Valid() && r.AddNode(ip).Seeds() == r.Seeds()
    ensures forall a, b :: r.AddNode(ip).g.Edge(a, b) <==> r.g.Edge(a, b)
  {
    var r' := r.AddNode(ip);
    assert r'.g.Valid();
    assert forall x: nat :: x in r'.Seeds() <==> x in r.Seeds();
    assert r'.Seeds() == r.Seeds();
    assert r'.MapOk();
  }

  /** AddSucc adds one edge and keeps both adjacency lists in step. */
  lemma AddSuccEdges(g: FlowGraph, u: nat, v: nat)
    requires g.Valid() && g.Node(u) && g.Node(v) && v != ROOT
    ensures var h := FlowGraph(g.succs[u := g.succs[u] + [v]], g.preds[v := g.preds[v] + [u]]);
            h.Valid() && forall a, b :: h.Edge(a, b) <==> g.Edge(a, b) || (a == u && b == v)
  {
  }

  /** An edge between two blocks leaves the root alone. */
  lemma AddSuccValid(r: Record, u: nat, v: nat)
    requires r.Valid() && 0 < u < |r.g.succs| && 0 < v < |r.g.succs|
    ensures r.AddSucc(u, v).Valid()
    ensures forall a, b :: r.AddSucc(u, v).g.Edge(a, b) <==> r.g.Edge(a, b) || (a == u && b == v)
  {
    AddSuccEdges(r.g, u, v);
    assert r.AddSucc(u, v).Seeds() == r.Seeds();
  }

  /** Flagging a block and linking it to the root keeps flags and root edges in step. */
  lemma AddSeedValid(r: Record, v: nat, r': Record)
    requires r.Valid() && 0 < v < |r.g.succs|
    requires r' == r.AddSucc(ROOT, v).(brind := r.brind[v := true]) || r' == r.AddSucc(ROOT, v).(segment := r.segment[v := true])
    ensures r'.Valid() && r'.Seeds() == r.Seeds() + {v}
  {
    AddSuccEdges(r.g, ROOT, v);
    assert forall x: nat :: x in r'.Seeds() <==> x in r.Seeds() + {v};
  }

  class ModuleGraph {
    const segmentBase: Address
    const segmentSize: nat

    var ips: seq<Address>
    var ipMap: map<Address, nat>
    var succs: seq<seq<nat>>
    var preds: seq<seq<nat>>
    var isBrindTarget: seq<bool>
    var isSegmentEntry: seq<bool>
    var isCrossSegmentBr: seq<bool>
    var regionEntry: seq<bool>
    var dominator: Links
    var domfrontier: seq<set<nat>>
    var mark: seq<Mark>
    var markers: MarkerKeeper

    ghost function Graph(): FlowGraph
      reads this
    {
      FlowGraph(succs, preds)
    }

    ghost function Contents(): Record
      reads this
    {
      Record(Graph(), ips, ipMap, isBrindTarget, isSegmentEntry)
    }

    /** The blocks that control enters from outside the page or through an indirect branch. */
    ghost function Seeds(): set<nat>
      requires |isBrindTarget| == |isSegmentEntry|
      reads this
    {
      Contents().Seeds()
    }

    ghost predicate Valid()
      reads this
    {
      Contents().Valid() && |isCrossSegmentBr| == |succs|
    }

    /** No region pass has run yet. */
    ghost predicate Fresh()
      reads this
    {
      && |regionEntry| == |dominator| == |domfrontier| == |mark| == |succs|
      && markers == MarkerKeeper(0, 0)
      && forall x | 0 <= x < |succs| ::
           !regionEntry[x] && dominator[x].None? && domfrontier[x] == {} && mark[x] == 0
    }

    constructor (base: Address, size: nat)
      ensures Valid() && Fresh() && ipMap == map[] && succs == [[]] && segmentBase == base && segmentSize == size
    {
      segmentBase, segmentSize := base, size;
      ips, ipMap, succs, preds := [0], map[], [[]], [[]];
      isBrindTarget, isSegmentEntry, isCrossSegmentBr, regionEntry := [false], [false], [false], [false];
      dominator, domfrontier, mark, markers := [None], [{}], [0], MarkerKeeper(0, 0);
    }

    function GetNode(ip: Address): Option<nat>
      reads this
    {
      if InSegment(segmentBase, segmentSize, ip) && ip in ipMap then Some(ipMap[ip]) else None
    }

    /** RecordEntry: an executed block starts at `ip`. */
    method RecordEntry(ip: Address)
      requires Valid() && Fresh() && ip !in ipMap
      modifies this
      ensures Valid() && Fresh() && Contents() == old(Contents()).AddNode(ip)
    {
      AddNodeValid(Contents(), ip);
      AddDefaults();
      AddRecord(ip);
    }

    /** The fields of a new node that the region passes fill in later. */
    method AddDefaults()
      requires Fresh()
      modifies this`isCrossSegmentBr, this`regionEntry, this`dominator, this`domfrontier, this`mark
      ensures isCrossSegmentBr == old(isCrossSegmentBr) + [false] && regionEntry == old(regionEntry) + [false]
      ensures dominator == old(dominator) + [None] && domfrontier == old(domfrontier) + [{}] && mark == old(mark) + [0]
    {
      isCrossSegmentBr, regionEntry := isCrossSegmentBr + [false], regionEntry + [false];
      dominator, domfrontier, mark := dominator + [None], domfrontier + [{}], mark + [0];
    }

    method AddRecord(ip: Address)
      modifies this`ips, this`ipMap, this`succs, this`preds, this`isBrindTarget, this`isSegmentEntry
      ensures Contents() == old(Contents()).AddNode(ip) && |succs| == |old(succs)| + 1
    {
      ipMap := ipMap[ip := |ips|];
      ips, succs, preds := ips + [ip], succs + [[]], preds + [[]];
      isBrindTarget, isSegmentEntry := isBrindTarget + [false], isSegmentEntry + [false];
    }

    /** ModuleGraphNode::AddSucc. */
    method AddSucc(u: nat, v: nat)
      requires u < |succs| && v < |preds|
      modifies this`succs, this`preds
      ensures Contents() == old(Contents()).AddSucc(u, v) && |succs| == |old(succs)|
    {
      succs, preds := succs[u := succs[u] + [v]], preds[v := preds[v] + [u]];
    }

    method RecordBrindTarget(ip: Address)
      requires Valid() && Fresh() && GetNode(ip).Some?
      modifies this`isBrindTarget, this`succs, this`preds
      ensures Valid() && Fresh() && Seeds() == old(Seeds()) + {GetNode(ip).value}
      ensures Contents() == old(Contents()).AddSucc(ROOT, GetNode(ip).value).(brind := isBrindTarget)
      ensures isBrindTarget == old(isBrindTarget)[GetNode(ip).value := true]
    {
      var node := ipMap[ip];
      AddSeedValid(Contents(), node, Contents().AddSucc(ROOT, node).(brind := isBrindTarget[node := true]));
      isBrindTarget := isBrindTarget[node := true];
      AddSucc(ROOT, node);
    }

    method RecordSegmentEntry(ip: Address)
      requires Valid() && Fresh() && GetNode(ip).Some?
      modifies this`isSegmentEntry, this`succs, this`preds
      ensures Valid() && Fresh() && Seeds() == old(Seeds()) + {GetNode(ip).value}
      ensures Contents() == old(Contents()).AddSucc(ROOT, GetNode(ip).value).(segment := isSegmentEntry)
      ensures isSegmentEntry == old(isSegmentEntry)[GetNode(ip).value := true]
    {
      var node := ipMap[ip];
      AddSeedValid(Contents(), node, Contents().AddSucc(ROOT, node).(segment := isSegmentEntry[node := true]));
      isSegmentEntry := isSegmentEntry[node := true];
      AddSucc(ROOT, node);
    }

    /** RecordGBr: a direct branch; targets outside the graph only leave a flag. */
    method RecordGBr(ip: Address, target: Address)
      requires Valid() && Fresh() && GetNode(ip).Some?
      modifies this`isCrossSegmentBr, this`succs, this`preds
      ensures Valid() && Fresh()
      ensures Contents() ==
        if GetNode(target).Some? then old(Contents()).AddSucc(GetNode(ip).value, GetNode(target).value) else old(Contents())
      ensures isCrossSegmentBr ==
        if GetNode(target).Some? then old(isCrossSegmentBr) else old(isCrossSegmentBr)[GetNode(ip).value := true]
    {
      var node := ipMap[ip];
      if GetNode(target).Some? {
        AddSuccValid(Contents(), node, ipMap[target]);
        AddSucc(node, ipMap[target]);
      } else {
        isCrossSegmentBr := isCrossSegmentBr[node := true];
      }
    }

    // ---------- Region passes ----------

    /** Creates a marker, which reads zero on every node. */
    method NewMarker(states: nat) returns (m: Marker)
      requires MarksBelow(mark, markers) && Room(markers, states)
      modifies this`markers
      ensures markers == NextEpoch(old(markers), states) && m == MarkerOf(markers) && m.mmin == old(markers).mmax
      ensures MarksBelow(mark, markers) && m.mmax == m.mmin + states && Painted(mark, m, {})
    {
      markers := NextEpoch(markers, states);
      m := MarkerOf(markers);
    }

    /** RPOTraversal and the numbering of its result. */
    method NumberBlocks() returns (po: seq<nat>, num: seq<nat>, ghost pos: map<nat, nat>)
      requires Valid() && Fresh() && |succs| < STATE_VALUES
      modifies this`mark, this`markers
      ensures |mark| == |succs| && MarksBelow(mark, markers) && markers.mmax == 2 + |succs|
      ensures PostOrder(Graph(), po, pos) && |num| == |succs| && forall x | x in pos :: x < |num| && num[x] == |po| - 1 - pos[x]
    {
      var g := FlowGraph(succs, preds);
      var marker := NewMarker(2);
      po, pos, mark := PostOrderNodes(g, mark, marker);
      PostOrderShort(g, po, pos);
      var rpon := NewMarker(|succs|);
      mark := NumberNodes(po, pos, mark, rpon);
      num := Numbers(mark, rpon);
    }

    /** ComputeDomTree; the result is false where the source panics with "unreachable regions". */
    method ComputeDomTree() returns (ok: bool, ghost num: seq<nat>)
      requires Valid() && Fresh() && |succs| < STATE_VALUES
      modifies this`dominator, this`mark, this`markers
      ensures |mark| == |succs| && MarksBelow(mark, markers) && markers.mmax == 2 + |succs|
      ensures ok <==> AllReachable(Graph())
      ensures ok ==> Numbering(Graph(), num) && Stable(Graph(), num, dominator) && LinksKeepDominators(Graph(), dominator)
      ensures ok ==> forall b: nat | 0 < b < |succs| :: IsImmediateDominator(Graph(), dominator[b].value, b)
    {
      var g := FlowGraph(succs, preds);
      var po, numbers;
      ghost var pos;
      po, numbers, pos := NumberBlocks();
      PostOrderComplete(g, po, pos);
      ok, num := |po| == |succs|, numbers;
      if ok {
        PostOrderNumbers(g, po, pos, num);
        assert SweepOrder(num, po);
        dominator := LinkDominators(g, numbers, po);
      }
    }

    method ComputeDomFrontier(ghost num: seq<nat>)
      requires Numbering(Graph(), num) && Stable(Graph(), num, dominator) && LinksKeepDominators(Graph(), dominator)
      modifies this`domfrontier
      ensures |domfrontier| == |succs|
      ensures forall x: nat, y: nat | x < |domfrontier| :: y in domfrontier[x] <==> InFrontier(Graph(), x, y)
    {
      domfrontier := DominanceFrontiers(FlowGraph(succs, preds), num, dominator);
    }

    method ComputeRegionIDF()
      requires Valid() && |domfrontier| == |succs|
      requires forall x: nat, y: nat | x < |domfrontier| :: y in domfrontier[x] <==> InFrontier(Graph(), x, y)
      modifies this`regionEntry
      ensures |regionEntry| == |succs| && IteratedFrontier(Graph(), Seeds(), Flagged(regionEntry))
    {
      assert forall x: nat, y: nat | x < |domfrontier| && y in domfrontier[x] :: InFrontier(Graph(), x, y);
      regionEntry := RegionEntries(EntryFlags(isBrindTarget, isSegmentEntry), domfrontier);
      LeastClosed(Graph(), domfrontier, Seeds(), Flagged(regionEntry));
    }

    /** The region of entry `n`. */
    method ExtractRegion(n: nat, regions: seq<seq<nat>>) returns (regions': seq<seq<nat>>)
      requires Graph().Valid() && |regionEntry| == |mark| == |succs| < STATE_VALUES && n < |succs| && regionEntry[n]
      requires MarksBelow(mark, markers) && markers.mmax <= 2 + |succs| + 2 * n && RegionsBelow(Graph(), regionEntry, regions, n)
      modifies this`mark, this`markers
      ensures |mark| == |succs| && MarksBelow(mark, markers) && markers.mmax <= 2 + |succs| + 2 * (n + 1)
      ensures RegionsBelow(Graph(), regionEntry, regions', n + 1)
    {
      var marker := NewMarker(2);
      var nodes;
      nodes, mark := RegionNodes(FlowGraph(succs, preds), regionEntry, n, mark, marker);
      RegionAdded(Graph(), regionEntry, regions, n, nodes);
      regions' := regions + [nodes];
    }

    /** ComputeRegionDomSets: extracts one region per entry. */
    method ComputeRegionDomSets() returns (regions: seq<seq<nat>>)
      requires Graph().Valid() && |regionEntry| == |mark| == |succs| < STATE_VALUES
      requires MarksBelow(mark, markers) && markers.mmax == 2 + |succs|
      modifies this`mark, this`markers
      ensures RegionPerEntry(Graph(), Flagged(regionEntry), regions)
    {
      regions := [];
      var n := 0;
      while n < |succs|
        invariant n <= |succs| && |mark| == |succs| && MarksBelow(mark, markers) && markers.mmax <= 2 + |succs| + 2 * n
        invariant RegionsBelow(Graph(), regionEntry, regions, n)
      {
        if regionEntry[n] {
          regions := ExtractRegion(n, regions);
        }
        n := n + 1;
      }
    }

    /** ComputeRegions: the split of a page meets both documented requirements, for every graph that
        the recording operations can build and whose blocks are all reachable. */
    method ComputeRegions() returns (ok: bool, regions: seq<seq<nat>>)
      requires Valid() && Fresh() && |succs| < STATE_VALUES
      modifies this`dominator, this`domfrontier, this`regionEntry, this`mark, this`markers
      ensures ok <==> AllReachable(Graph())
      ensures ok ==> Partition(Graph(), regions) && SingleEntryRegions(Graph(), regions)
      ensures ok ==> MinimalRegions(Graph(), Seeds(), regions)
    {
      regions := [];
      ghost var num;
      ok, num := ComputeDomTree();
      if ok {
        ComputeDomFrontier(num);
        ComputeRegionIDF();
        regions := ComputeRegionDomSets();
        RegionsSplitPage(Graph(), Seeds(), Flagged(regionEntry), regions);
      }
    }
  }

  /** A traversal lists no more nodes than there are. */
  lemma PostOrderShort(g: FlowGraph, po: seq<nat>, pos: map<nat, nat>)
    requires g.Valid() && PostOrder(g, po, pos)
    ensures |po| <= |g.succs|
  {
    ListLength(po, pos);
    RangeSize(|g.succs|, Universe(g));
    assert pos.Keys <= Universe(g);
    assert Universe(g) == pos.Keys + (Universe(g) - pos.Keys);
  }

  /** Closure under the computed sets is closure under dominance frontiers. */
  lemma LeastClosed(g: FlowGraph, df: seq<set<nat>>, seeds: set<nat>, entries: set<nat>)
    requires g.Valid() && |df| == |g.succs| && seeds <= entries && ClosedUnder(df, entries)
    requires forall x: nat, y: nat | x < |df| :: y in df[x] <==> InFrontier(g, x, y)
    requires (forall x | x in entries :: x < |df|)
    requires forall s: set<nat> | seeds <= s && ClosedUnder(df, s) :: entries <= s
    ensures IteratedFrontier(g, seeds, entries)
  {
    forall s: set<nat> | seeds <= s && FrontierClosed(g, s)
      ensures entries <= s
    {
      assert ClosedUnder(df, s);
    }
  }

  /** The regions of the entries numbered below `n`. */
  ghost predicate RegionsBelow(g: FlowGraph, flags: seq<bool>, regions: seq<seq<nat>>, n: nat) {
    && (forall k | 0 <= k < |regions| :: IsRegion(g, Flagged(flags), regions[k]) && regions[k][0] < n)
    && (forall i, k | 0 <= i < k < |regions| :: regions[i][0] < regions[k][0])
    && (forall e: nat | e in Flagged(flags) && e < n :: exists k :: 0 <= k < |regions| && regions[k][0] == e)
  }

  lemma EntryListed(regions: seq<seq<nat>>, nodes: seq<nat>, e: nat)
    requires nodes != [] && forall k | 0 <= k < |regions| :: regions[k] != []
    requires e == nodes[0] || exists k :: 0 <= k < |regions| && regions[k][0] == e
    ensures exists k :: 0 <= k < |regions + [nodes]| && (regions + [nodes])[k] != [] && (regions + [nodes])[k][0] == e
  {
    var regions' := regions + [nodes];
    if e == nodes[0] {
      assert regions'[|regions|] == nodes;
    } else {
      var k :| 0 <= k < |regions| && regions[k][0] == e;
      assert regions'[k] == regions[k];
    }
  }

  lemma RegionAdded(g: FlowGraph, flags: seq<bool>, regions: seq<seq<nat>>, n: nat, nodes: seq<nat>)
    requires RegionsBelow(g, flags, regions, n) && IsRegion(g, Flagged(flags), nodes) && nodes[0] == n
    ensures RegionsBelow(g, flags, regions + [nodes], n + 1)
  {
    var regions' := regions + [nodes];
    forall k | 0 <= k < |regions'| ensures IsRegion(g, Flagged(flags), regions'[k]) && regions'[k][0] < n + 1 {
      assert k < |regions| ==> IsRegion(g, Flagged(flags), regions[k]) && regions[k][0] < n;
    }
    forall e: nat | e in Flagged(flags) && e < n + 1
      ensures exists k :: 0 <= k < |regions'| && regions'[k][0] == e
    {
      assert e != n ==> exists k :: 0 <= k < |regions| && regions[k][0] == e;
      EntryListed(regions, nodes, e);
    }
  }
}
