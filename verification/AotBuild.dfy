/** BuildModuleGraph of `dbt/aot/aot.cpp`: the graph of a page from its profile, and why region formation
    never finds an unreachable block in it. */
module AotBuild {
  import opened Common
  import opened FlowGraphs
  import opened ModuleGraphs
  import opened Rv32
  import opened Rv32Blocks
  import opened Rv32Machine
  import opened Rv32Translators
  import opened Rv32Analysers
  import Qir
  import Rv32Decode
  import RegionPasses
  import Chaining
  import P = ProfileClosure

  // ---------- What is recorded ----------

  /** An edge to the block at `t`. */
  ghost predicate EdgeTo(r: Record, u: nat, t: Address) {
    t in r.ipMap && r.g.Edge(u, r.ipMap[t])
  }

  /** The edges from `u` to the blocks at `ts` are new, and nothing else is. */
  ghost predicate Adds(r: Record, r': Record, u: nat, ts: set<Address>) {
    r'.ipMap == r.ipMap && forall a: nat, t: Address {:trigger EdgeTo(r', a, t)} | t in r.ipMap :: EdgeTo(r', a, t) <==> EdgeTo(r, a, t) || (a == u && t in ts)
  }

  lemma AddsNothing(r: Record, r': Record, u: nat, ts: set<Address>)
    requires r'.ipMap == r.ipMap && r'.g == r.g && forall t | t in ts :: t !in r.ipMap
    ensures Adds(r, r', u, ts)
  {
    forall a: nat, t: Address | t in r.ipMap ensures EdgeTo(r', a, t) <==> EdgeTo(r, a, t) {
    }
  }

  lemma AddsEdge(r: Record, u: nat, x: Address, r': Record)
    requires r.Valid() && u < |r.g.succs| && x in r.ipMap && r'.g == r.AddSucc(u, r.ipMap[x]).g && r'.ipMap == r.ipMap
    ensures Adds(r, r', u, {x})
  {
    AddSuccEdges(r.g, u, r.ipMap[x]);
    forall a: nat, t: Address | t in r.ipMap ensures EdgeTo(r', a, t) <==> EdgeTo(r, a, t) || (a == u && t in {x}) {
      assert r.ips[r.ipMap[t]] == t && r.ips[r.ipMap[x]] == x;
    }
  }

  lemma AddsMore(r: Record, r1: Record, r2: Record, u: nat, ts: set<Address>, ts': set<Address>)
    requires Adds(r, r1, u, ts) && Adds(r1, r2, u, ts')
    ensures Adds(r, r2, u, ts + ts')
  {
    forall a: nat, t: Address | t in r.ipMap ensures EdgeTo(r2, a, t) <==> EdgeTo(r, a, t) || (a == u && t in ts + ts') {
      assert EdgeTo(r1, a, t) <==> EdgeTo(r, a, t) || (a == u && t in ts);
    }
  }

  /** Edges from the root lead to the blocks that were entered indirectly or from another page. */
  ghost predicate SeedsDone(r: Record, seeds: set<Address>) {
    forall t: Address {:trigger EdgeTo(r, ROOT, t)} | t in r.ipMap :: EdgeTo(r, ROOT, t) <==> t in seeds
  }

  /** There are no other edges yet. */
  ghost predicate SeedsOnly(r: Record, seeds: set<Address>) {
    forall a: nat, t: Address {:trigger EdgeTo(r, a, t)} | t in r.ipMap :: EdgeTo(r, a, t) <==> a == ROOT && t in seeds
  }

  /** The edges of the block at `x` are its branches, when it is analysed up to `b`. */
  ghost predicate EdgesDone(p: P.Program, r: Record, x: Address, b: nat) {
    x in r.ipMap && forall t: Address {:trigger EdgeTo(r, r.ipMap[x], t)} | t in r.ipMap :: EdgeTo(r, r.ipMap[x], t) <==> P.Exits(p, x, P.Scan(p, x, b, 0), t)
  }

  ghost predicate NoEdges(r: Record, x: Address) {
    x in r.ipMap && forall t: Address {:trigger EdgeTo(r, r.ipMap[x], t)} | t in r.ipMap :: !EdgeTo(r, r.ipMap[x], t)
  }

  /** Recording the edges of one block does not touch those of another. */
  lemma OthersKeep(p: P.Program, r: Record, r': Record, x: Address, ts: set<Address>, y: Address, b: nat)
    requires r.Valid() && x in r.ipMap && y != x && Adds(r, r', r.ipMap[x], ts)
    ensures EdgesDone(p, r, y, b) ==> EdgesDone(p, r', y, b)
    ensures NoEdges(r, y) ==> NoEdges(r', y)
  {
    if y in r.ipMap {
      var v := r.ipMap[y];
      assert r.ips[v] == y && r.ips[r.ipMap[x]] == x;
      forall t: Address | t in r.ipMap ensures EdgeTo(r', v, t) <==> EdgeTo(r, v, t) {
      }
    }
  }

  lemma SeedsKeep(r: Record, r': Record, u: nat, ts: set<Address>, seeds: set<Address>)
    requires SeedsDone(r, seeds) && u != ROOT && Adds(r, r', u, ts)
    ensures SeedsDone(r', seeds)
  {
    forall t: Address | t in r.ipMap ensures EdgeTo(r', ROOT, t) <==> t in seeds {
      assert EdgeTo(r, ROOT, t) <==> t in seeds;
    }
  }

  // ---------- Recording ----------

  /** The segment of the graph is one page, and its nodes lie on it. */
  ghost predicate OnPage(mg: ModuleGraph, base: Address)
    reads mg
  {
    && mg.segmentBase == base && mg.segmentSize == P.PAGE_SIZE && base + P.PAGE_SIZE < ADDRESS_SPACE
    && forall ip {:trigger mg.ipMap[ip]} | ip in mg.ipMap :: base <= ip < base + P.PAGE_SIZE
  }

  lemma PageIsSegment(base: Address, ip: Address)
    requires base <= ip < base + P.PAGE_SIZE
    ensures InSegment(base, P.PAGE_SIZE, ip)
  {
    assert ip - base < ADDRESS_SPACE;
  }

  method RecordSeed(mg: ModuleGraph, base: Address, x: Address, isBrind: bool, isSegment: bool)
    requires mg.Valid() && mg.Fresh() && OnPage(mg, base) && x in mg.ipMap
    modifies mg
    ensures mg.Valid() && mg.Fresh() && OnPage(mg, base) && |mg.succs| == |old(mg.succs)|
    ensures Adds(old(mg.Contents()), mg.Contents(), ROOT, if isBrind || isSegment then {x} else {})
  {
    ghost var r := mg.Contents();
    PageIsSegment(base, x);
    AddsNothing(r, r, ROOT, {});
    if isBrind {
      mg.RecordBrindTarget(x);
      AddsEdge(r, ROOT, x, mg.Contents());
    }
    ghost var r1 := mg.Contents();
    if isSegment {
      mg.RecordSegmentEntry(x);
      AddsEdge(r1, ROOT, x, mg.Contents());
      AddsMore(r, r1, mg.Contents(), ROOT, if isBrind then {x} else {}, {x});
    }
  }

  lemma SeedAdded(r: Record, r1: Record, r2: Record, x: Address, isSeed: bool, seeds: set<Address>)
    requires r.Valid() && x !in r.ipMap && SeedsOnly(r, seeds) && r1 == r.AddNode(x)
    requires Adds(r1, r2, ROOT, if isSeed then {x} else {}) && (isSeed <==> x in seeds)
    ensures SeedsOnly(r2, seeds)
  {
    AddNodeValid(r, x);
    forall a: nat, t: Address | t in r2.ipMap ensures EdgeTo(r2, a, t) <==> a == ROOT && t in seeds {
      if t == x {
        assert !r.g.Edge(a, |r.ips|);
      } else {
        assert EdgeTo(r1, a, t) <==> EdgeTo(r, a, t);
      }
    }
  }

  method RecordBlock(mg: ModuleGraph, base: Address, x: Address, isBrind: bool, isSegment: bool, ghost seeds: set<Address>)
    requires mg.Valid() && mg.Fresh() && OnPage(mg, base) && x !in mg.ipMap && base <= x < base + P.PAGE_SIZE
    requires SeedsOnly(mg.Contents(), seeds) && (isBrind || isSegment <==> x in seeds)
    modifies mg
    ensures mg.Valid() && mg.Fresh() && OnPage(mg, base) && mg.ipMap.Keys == old(mg.ipMap).Keys + {x}
    ensures SeedsOnly(mg.Contents(), seeds) && |mg.succs| == |old(mg.succs)| + 1
  {
    ghost var r := mg.Contents();
    mg.RecordEntry(x);
    ghost var r1 := mg.Contents();
    RecordSeed(mg, base, x, isBrind, isSegment);
    SeedAdded(r, r1, mg.Contents(), x, isBrind || isSegment, seeds);
  }

  /** One branch of the analysis, which is an edge if its target is a node. */
  method RecordTarget(mg: ModuleGraph, base: Address, x: Address, t: Address)
    requires mg.Valid() && mg.Fresh() && OnPage(mg, base) && x in mg.ipMap
    modifies mg
    ensures mg.Valid() && mg.Fresh() && OnPage(mg, base) && |mg.succs| == |old(mg.succs)| && mg.ipMap == old(mg.ipMap)
    ensures Adds(old(mg.Contents()), mg.Contents(), mg.ipMap[x], {t})
  {
    ghost var r := mg.Contents();
    PageIsSegment(base, x);
    if t in mg.ipMap {
      PageIsSegment(base, t);
    }
    mg.RecordGBr(x, t);
    if t in mg.ipMap {
      AddsEdge(r, mg.ipMap[x], t, mg.Contents());
    } else {
      AddsNothing(r, mg.Contents(), mg.ipMap[x], {t});
    }
  }

  /** The numbers of the branch targets. */
  ghost function Targets(n: Numbering, edges: seq<Edge>): set<Address>
    requires Bijective(n)
  {
    set e | e in edges && e.Branches? :: n.num(e.t)
  }

  lemma TargetsExtend(n: Numbering, edges: seq<Edge>, k: nat)
    requires Bijective(n) && k < |edges|
    ensures Targets(n, edges[..k + 1]) == Targets(n, edges[..k]) + if edges[k].Branches? then {n.num(edges[k].t)} else {}
  {
    assert edges[..k + 1] == edges[..k] + [edges[k]];
  }

  /** What the analyser records; indirect branches and links change nothing but the dump of the graph. */
  method RecordEdges(mg: ModuleGraph, n: Numbering, base: Address, x: Address, edges: seq<Edge>)
    requires mg.Valid() && mg.Fresh() && OnPage(mg, base) && x in mg.ipMap && Bijective(n)
    modifies mg
    ensures mg.Valid() && mg.Fresh() && OnPage(mg, base) && |mg.succs| == |old(mg.succs)| && mg.ipMap == old(mg.ipMap)
    ensures Adds(old(mg.Contents()), mg.Contents(), mg.ipMap[x], Targets(n, edges))
  {
    ghost var r := mg.Contents();
    AddsNothing(r, r, mg.ipMap[x], {});
    var k := 0;
    while k < |edges|
      invariant 0 <= k <= |edges| && mg.Valid() && mg.Fresh() && OnPage(mg, base) && |mg.succs| == |old(mg.succs)|
      invariant Adds(r, mg.Contents(), r.ipMap[x], Targets(n, edges[..k]))
    {
      TargetsExtend(n, edges, k);
      if edges[k].Branches? {
        ghost var r1 := mg.Contents();
        RecordTarget(mg, base, x, n.num(edges[k].t));
        AddsMore(r, r1, mg.Contents(), r.ipMap[x], Targets(n, edges[..k]), {n.num(edges[k].t)});
      }
      k := k + 1;
    }
    assert edges[..k] == edges;
  }

  lemma TargetsMean(n: Numbering, edges: seq<Edge>, t: Address)
    requires Bijective(n)
    ensures t in Targets(n, edges) <==> Branches(n.word(t)) in edges
  {
    if t in Targets(n, edges) {
      var e :| e in edges && e.Branches? && n.num(e.t) == t;
      assert e == Branches(n.word(t));
    }
  }

  /** The edges that the analyser has found are the branches of the program. */
  lemma AnalysisIsDone(em: Emitter, n: Numbering, r: Record, r': Record, x: Address, b: Address, k: nat)
    requires Linear(em, n) && x < b && b + P.PAGE_SIZE <= VALUES && NoEdges(r, x)
    requires k == Scan(em, n.word(x), n.word(b), 0) && Adds(r, r', r.ipMap[x], Targets(n, BlockEdges(em, n.word(x), k)))
    ensures EdgesDone(ProgramOf(em, n), r', x, b)
  {
    var p := ProgramOf(em, n);
    ScansAgree(em, n, x, b, 0);
    P.ScanIsBlock(p, x, b, 0);
    var u := r.ipMap[x];
    forall t: Address | t in r'.ipMap ensures EdgeTo(r', u, t) <==> P.Exits(p, x, k, t) {
      assert !EdgeTo(r, u, t);
      TargetsMean(n, BlockEdges(em, n.word(x), k), t);
      EdgesAreExits(em, n, x, k, t);
    }
  }

  /** The last instruction of the block at `x`, which must not be an illegal one. */
  ghost predicate Panics(em: Emitter, n: Numbering, x: Address, b: Address) {
    em.insn(AddrOf(em, n.word(x), Scan(em, n.word(x), n.word(b), 0) - 1)).Ill?
  }

  /** RV32Analyser::Analyse on one block, with the node's `ip_end`. */
  method AnalyseBlock(mg: ModuleGraph, em: Emitter, n: Numbering, base: Address, x: Address, b: Address)
    returns (ipEnd: Qir.Word, ok: bool, ghost ts: set<Address>)
    requires mg.Valid() && mg.Fresh() && OnPage(mg, base) && Linear(em, n) && NoEdges(mg.Contents(), x)
    requires x < b && b + P.PAGE_SIZE <= VALUES
    modifies mg
    ensures mg.Valid() && mg.Fresh() && OnPage(mg, base) && |mg.succs| == |old(mg.succs)| && (ok <==> !Panics(em, n, x, b))
    ensures x in mg.ipMap && Adds(old(mg.Contents()), mg.Contents(), mg.ipMap[x], ts)
    ensures ok ==> EdgesDone(ProgramOf(em, n), mg.Contents(), x, b) && ipEnd == AddrOf(em, n.word(x), Scan(em, n.word(x), n.word(b), 0))
  {
    ghost var r := mg.Contents();
    var edges;
    ts := {};
    ipEnd, edges, ok := Analyse(em, n.word(x), n.word(b));
    if ok {
      RecordEdges(mg, n, base, x, edges);
      ts := Targets(n, edges);
      AnalysisIsDone(em, n, r, mg.Contents(), x, b, Scan(em, n.word(x), n.word(b), 0));
    } else {
      AddsNothing(r, r, mg.ipMap[x], ts);
    }
  }

  // ---------- The page ----------

  /** The recorded blocks of a page, in ascending order. */
  ghost predicate IsPageList(base: Address, blocks: seq<Address>) {
    && (forall k: nat {:trigger blocks[k]} | k < |blocks| :: base <= blocks[k] < base + P.PAGE_SIZE && blocks[k] % 4 == 0)
    && (forall j: nat, k: nat | j < k < |blocks| :: blocks[j] < blocks[k])
  }

  /** A page other than the last one of the address space. */
  predicate IsPage(base: Address) {
    base % P.PAGE_SIZE == 0 && base + P.PAGE_SIZE < ADDRESS_SPACE
  }

  function NextStart(base: Address, blocks: seq<Address>, k: nat): nat
    requires k < |blocks|
  {
    if k + 1 < |blocks| then blocks[k + 1] else base + P.PAGE_SIZE
  }

  lemma FourDivides(x: nat, y: nat)
    requires x == 4 * y
    ensures x % 4 == 0
  {
  }

  lemma PageNumber(q: nat)
    requires 4096 * q + 4096 < 0x1_0000_0000
    ensures 4096 * q + 8192 <= 0x1_0000_0000 && (4096 * q) % 4 == 0 && (4096 * q + 4096) % 4 == 0
  {
    assert q + 1 < 0x10_0000;
    FourDivides(4096 * q, 1024 * q);
    FourDivides(4096 * q + 4096, 1024 * q + 1024);
  }

  lemma PageFits(base: Address)
    requires IsPage(base)
    ensures base + 2 * P.PAGE_SIZE <= VALUES && (base + P.PAGE_SIZE) % 4 == 0
  {
    assert base == 4096 * (base / 4096);
    PageNumber(base / 4096);
  }

  lemma NextIsBoundary(base: Address, blocks: seq<Address>, k: nat)
    requires IsPage(base) && IsPageList(base, blocks) && k < |blocks|
    ensures var b := NextStart(base, blocks, k); blocks[k] < b && b + P.PAGE_SIZE <= VALUES && b % 4 == 0
  {
    PageFits(base);
    NextIsLater(base, blocks, k);
  }

  lemma NextIsLater(base: nat, blocks: seq<Address>, k: nat)
    requires base + P.PAGE_SIZE < ADDRESS_SPACE && IsPageList(base, blocks) && k < |blocks|
    ensures blocks[k] < base + P.PAGE_SIZE
    ensures k + 1 < |blocks| ==> blocks[k] < blocks[k + 1] < base + P.PAGE_SIZE && blocks[k + 1] % 4 == 0
  {
  }

  /** The first loop of BuildModuleGraph. */
  method RecordBlocks(mg: ModuleGraph, base: Address, blocks: seq<Address>, brind: set<Address>, segment: set<Address>)
    requires mg.Valid() && mg.Fresh() && OnPage(mg, base) && mg.ipMap == map[] && |mg.succs| == 1 && IsPageList(base, blocks)
    modifies mg
    ensures mg.Valid() && mg.Fresh() && OnPage(mg, base) && mg.ipMap.Keys == (set x | x in blocks)
    ensures SeedsOnly(mg.Contents(), brind + segment) && |mg.succs| == 1 + |blocks|
  {
    var k := 0;
    while k < |blocks|
      invariant 0 <= k <= |blocks| && mg.Valid() && mg.Fresh() && OnPage(mg, base) && mg.ipMap.Keys == (set x | x in blocks[..k])
      invariant SeedsOnly(mg.Contents(), brind + segment) && |mg.succs| == 1 + k
    {
      assert blocks[..k + 1] == blocks[..k] + [blocks[k]];
      assert blocks[k] !in blocks[..k];
      RecordBlock(mg, base, blocks[k], blocks[k] in brind, blocks[k] in segment, brind + segment);
      k := k + 1;
    }
    assert blocks[..k] == blocks;
  }

  /** The first `n` blocks of the page have been analysed. */
  ghost predicate Analysed(p: P.Program, r: Record, base: Address, blocks: seq<Address>, n: nat)
    requires n <= |blocks|
  {
    && (forall k: nat {:trigger blocks[k]} | k < n :: EdgesDone(p, r, blocks[k], NextStart(base, blocks, k)))
    && (forall k: nat {:trigger blocks[k]} | n <= k < |blocks| :: NoEdges(r, blocks[k]))
  }

  lemma NoneAnalysed(p: P.Program, r: Record, base: Address, blocks: seq<Address>, seeds: set<Address>)
    requires r.Valid() && SeedsOnly(r, seeds) && forall x: Address | x in blocks :: x in r.ipMap
    ensures Analysed(p, r, base, blocks, 0) && SeedsDone(r, seeds)
  {
    forall k: nat | k < |blocks| ensures NoEdges(r, blocks[k]) {
      assert blocks[k] in blocks && r.ipMap[blocks[k]] != ROOT;
    }
  }

  lemma MoreAnalysed(p: P.Program, r: Record, r': Record, base: Address, blocks: seq<Address>, k: nat, ts: set<Address>)
    requires r.Valid() && IsPageList(base, blocks) && k < |blocks| && Analysed(p, r, base, blocks, k) && Adds(r, r', r.ipMap[blocks[k]], ts)
    requires EdgesDone(p, r', blocks[k], NextStart(base, blocks, k))
    ensures Analysed(p, r', base, blocks, k + 1)
  {
    forall j: nat | j < |blocks| && j != k
      ensures if j < k then EdgesDone(p, r', blocks[j], NextStart(base, blocks, j)) else NoEdges(r', blocks[j])
    {
      assert blocks[j] != blocks[k];
      OthersKeep(p, r, r', blocks[k], ts, blocks[j], NextStart(base, blocks, j));
    }
  }

  /** The analysis of no block ends at an illegal instruction, which would be a panic. */
  ghost predicate AllLegal(em: Emitter, n: Numbering, base: Address, blocks: seq<Address>, m: nat)
    requires IsPage(base) && IsPageList(base, blocks) && m <= |blocks|
  {
    forall k: nat {:trigger Legal(em, n, base, blocks, k)} | k < m :: Legal(em, n, base, blocks, k)
  }

  ghost predicate Legal(em: Emitter, n: Numbering, base: Address, blocks: seq<Address>, k: nat)
    requires IsPage(base) && IsPageList(base, blocks) && k < |blocks|
  {
    NextIsBoundary(base, blocks, k);
    !Panics(em, n, blocks[k], NextStart(base, blocks, k))
  }

  /** `ip_end` of the first blocks. */
  ghost predicate Extents(em: Emitter, n: Numbering, base: Address, blocks: seq<Address>, ends: seq<Qir.Word>) {
    |ends| <= |blocks| && forall k: nat {:trigger ends[k]} | k < |ends| ::
      ends[k] == AddrOf(em, n.word(blocks[k]), Scan(em, n.word(blocks[k]), n.word(NextStart(base, blocks, k)), 0))
  }

  /** The second loop has passed `k` blocks without a panic. */
  ghost predicate Underway(em: Emitter, n: Numbering, r: Record, base: Address, blocks: seq<Address>, seeds: set<Address>, k: nat, ends: seq<Qir.Word>)
    requires k <= |blocks|
  {
    && SeedsDone(r, seeds) && Analysed(ProgramOf(em, n), r, base, blocks, k) && |ends| == k && Extents(em, n, base, blocks, ends)
  }

  /** A graph of the page that no pass has seen. */
  ghost predicate Holds(mg: ModuleGraph, base: Address, blocks: seq<Address>)
    reads mg
  {
    mg.Valid() && mg.Fresh() && OnPage(mg, base) && mg.ipMap.Keys == (set x | x in blocks) && |mg.succs| == 1 + |blocks|
  }

  /** BuildModuleGraph.  The result is false where the analyser panics at an illegal instruction.  The
      edges of the graph are those from the root to the flagged blocks and the branches of the blocks. */
  method BuildModuleGraph(em: Emitter, n: Numbering, base: Address, blocks: seq<Address>, brind: set<Address>, segment: set<Address>)
    returns (mg: ModuleGraph, ends: seq<Qir.Word>, ok: bool)
    requires Linear(em, n) && IsPage(base) && IsPageList(base, blocks)
    ensures fresh(mg) && Holds(mg, base, blocks) && (ok <==> AllLegal(em, n, base, blocks, |blocks|))
    ensures ok ==> SeedsDone(mg.Contents(), brind + segment) && Analysed(ProgramOf(em, n), mg.Contents(), base, blocks, |blocks|)
    ensures ok ==> |ends| == |blocks| && Extents(em, n, base, blocks, ends)
  {
    ghost var seeds := brind + segment;
    mg := new ModuleGraph(base, P.PAGE_SIZE);
    RecordBlocks(mg, base, blocks, brind, segment);
    NoneAnalysed(ProgramOf(em, n), mg.Contents(), base, blocks, seeds);
    ok, ends := true, [];
    var k := 0;
    while k < |blocks| && ok
      invariant 0 <= k <= |blocks| && fresh(mg) && Holds(mg, base, blocks) && (ok <==> AllLegal(em, n, base, blocks, k))
      invariant ok ==> Underway(em, n, mg.Contents(), base, blocks, seeds, k, ends)
    {
      ends, ok := AnalyseNext(mg, em, n, base, blocks, k, ends, seeds);
      LegalSoFar(em, n, base, blocks, k);
      k := k + 1;
    }
    if !ok {
      IllegalSomewhere(em, n, base, blocks, k);
    }
  }

  lemma LegalSoFar(em: Emitter, n: Numbering, base: Address, blocks: seq<Address>, k: nat)
    requires IsPage(base) && IsPageList(base, blocks) && k < |blocks|
    ensures AllLegal(em, n, base, blocks, k + 1) <==> AllLegal(em, n, base, blocks, k) && Legal(em, n, base, blocks, k)
  {
    if AllLegal(em, n, base, blocks, k) && Legal(em, n, base, blocks, k) {
      forall j: nat | j < k + 1 ensures Legal(em, n, base, blocks, j) {
      }
    }
  }

  lemma IllegalSomewhere(em: Emitter, n: Numbering, base: Address, blocks: seq<Address>, k: nat)
    requires IsPage(base) && IsPageList(base, blocks) && k <= |blocks| && !AllLegal(em, n, base, blocks, k)
    ensures !AllLegal(em, n, base, blocks, |blocks|)
  {
    var j: nat :| j < k && !Legal(em, n, base, blocks, j);
  }

  /** A turn of the second loop. */
  method AnalyseNext(mg: ModuleGraph, em: Emitter, n: Numbering, base: Address, blocks: seq<Address>, k: nat, ends: seq<Qir.Word>, ghost seeds: set<Address>)
    returns (ends': seq<Qir.Word>, ok: bool)
    requires Holds(mg, base, blocks) && Linear(em, n) && IsPage(base) && IsPageList(base, blocks) && k < |blocks|
    requires Underway(em, n, mg.Contents(), base, blocks, seeds, k, ends)
    modifies mg
    ensures Holds(mg, base, blocks) && (ok <==> Legal(em, n, base, blocks, k))
    ensures ok ==> Underway(em, n, mg.Contents(), base, blocks, seeds, k + 1, ends')
  {
    ghost var r := mg.Contents();
    NextIsBoundary(base, blocks, k);
    assert NoEdges(r, blocks[k]);
    var end;
    ghost var ts;
    end, ok, ts := AnalyseBlock(mg, em, n, base, blocks[k], NextStart(base, blocks, k));
    ends' := ends + [end];
    if ok {
      MoreAnalysed(ProgramOf(em, n), r, mg.Contents(), base, blocks, k, ts);
      SeedsKeep(r, mg.Contents(), r.ipMap[blocks[k]], ts, seeds);
      ExtentsExtend(em, n, base, blocks, ends, end);
    }
  }

  lemma ExtentsExtend(em: Emitter, n: Numbering, base: Address, blocks: seq<Address>, ends: seq<Qir.Word>, end: Qir.Word)
    requires Extents(em, n, base, blocks, ends) && |ends| < |blocks|
    requires end == AddrOf(em, n.word(blocks[|ends|]), Scan(em, n.word(blocks[|ends|]), n.word(NextStart(base, blocks, |ends|)), 0))
    ensures Extents(em, n, base, blocks, ends + [end])
  {
  }

  // ---------- Reachability ----------

  predicate Within(base: Address, x: nat) {
    base <= x < base + P.PAGE_SIZE
  }

  lemma PageOf(base: Address, x: nat, y: nat)
    requires base % P.PAGE_SIZE == 0 && Within(base, x)
    ensures P.PageEnd(x) == base + P.PAGE_SIZE && (P.SamePage(x, y) <==> Within(base, y))
  {
    var q := base / P.PAGE_SIZE;
    assert base == P.PAGE_SIZE * q;
    assert x == P.PAGE_SIZE * q + (x - base) && 0 <= x - base < P.PAGE_SIZE;
    assert x / P.PAGE_SIZE == q;
    if Within(base, y) {
      assert y == P.PAGE_SIZE * q + (y - base) && 0 <= y - base < P.PAGE_SIZE;
      assert y / P.PAGE_SIZE == q;
    }
  }

  /** The list of the page holds the translated blocks on it. */
  ghost predicate Lists(base: Address, blocks: seq<Address>, all: set<nat>) {
    && IsPageList(base, blocks) && (forall k: nat {:trigger blocks[k]} | k < |blocks| :: blocks[k] in all)
    && (forall x | x in all && Within(base, x) :: x in blocks)
  }

  /** The analysis of a block stops where the list says. */
  lemma BoundaryIsNext(base: Address, blocks: seq<Address>, all: set<nat>, k: nat, b: nat)
    requires base % P.PAGE_SIZE == 0 && Lists(base, blocks, all) && k < |blocks| && P.IsBoundary(all, blocks[k], b)
    ensures b == NextStart(base, blocks, k)
  {
    var x := blocks[k];
    PageOf(base, x, x);
    var next := NextStart(base, blocks, k);
    if k + 1 < |blocks| {
      assert blocks[k] < blocks[k + 1] && blocks[k + 1] in all;
      assert b <= next;
    }
    if b in blocks {
      var j: nat :| j < |blocks| && blocks[j] == b;
      assert k < j;
    }
  }

  ghost function ReachedBlocks(r: Record, base: Address, all: set<nat>): set<nat> {
    set x | x in all && (!Within(base, x) || (x in r.ipMap && Reachable(r.g, r.ipMap[x])))
  }

  lemma ReachableStep(g: FlowGraph, u: nat, v: nat)
    requires g.Valid() && Reachable(g, u) && g.Edge(u, v)
    ensures Reachable(g, v)
  {
    var path :| PathTo(g, path, u);
    ExtendPath(g, ROOT, path, u, v);
    assert PathTo(g, path + [v], v);
  }

  lemma RootReachable(g: FlowGraph)
    requires g.Valid()
    ensures Reachable(g, ROOT)
  {
    assert PathTo(g, [ROOT], ROOT);
  }

  lemma ReachedIsClosed(p: P.Program, r: Record, base: Address, blocks: seq<Address>, all: set<nat>)
    requires r.Valid() && base % P.PAGE_SIZE == 0 && Lists(base, blocks, all) && Analysed(p, r, base, blocks, |blocks|)
    requires forall x: Address | x in blocks :: x in r.ipMap
    ensures P.Closed(p, all, ReachedBlocks(r, base, all))
  {
    var reached := ReachedBlocks(r, base, all);
    forall x, y | x in reached && P.Edge(p, all, x, y) ensures y in reached {
      if Within(base, y) {
        PageOf(base, y, x);
        assert x in blocks && y in blocks;
        var k: nat :| k < |blocks| && blocks[k] == x;
        var b: nat :| P.IsBoundary(all, x, b) && P.Exits(p, x, P.Scan(p, x, b, 0), y);
        BoundaryIsNext(base, blocks, all, k, b);
        assert EdgesDone(p, r, blocks[k], NextStart(base, blocks, k));
        var t: Address := y;
        assert EdgeTo(r, r.ipMap[blocks[k]], t);
        ReachableStep(r.g, r.ipMap[x], r.ipMap[t]);
      }
    }
  }

  lemma ReachedHasSeeds(r: Record, base: Address, blocks: seq<Address>, c: Chaining.Cache)
    requires r.Valid() && Lists(base, blocks, c.blocks.Keys) && SeedsDone(r, c.brindTargets + c.segmentEntries)
    requires forall x: Address | x in blocks :: x in r.ipMap
    ensures P.ContainsSeeds(c, ReachedBlocks(r, base, c.blocks.Keys))
  {
    forall ip | ip in c.blocks && (ip in c.brindTargets || ip in c.segmentEntries) ensures ip in ReachedBlocks(r, base, c.blocks.Keys) {
      if Within(base, ip) {
        assert ip in blocks;
        assert EdgeTo(r, ROOT, ip);
        RootReachable(r.g);
        ReachableStep(r.g, ROOT, r.ipMap[ip]);
      }
    }
  }

  /** After any run of Execute from an empty cache, all blocks of the graph of a page are reachable: region
      formation never ends in the "unreachable regions" panic. */
  lemma ProfiledGraphIsReachable(p: P.Program, m: Chaining.Machine, h: P.History, r: Record, base: Address, blocks: seq<Address>)
    requires Chaining.Inv(m) && P.Recorded(p, m, h) && r.Valid() && base % P.PAGE_SIZE == 0
    requires Lists(base, blocks, m.cache.blocks.Keys) && r.ipMap.Keys == (set x | x in blocks)
    requires SeedsDone(r, m.cache.brindTargets + m.cache.segmentEntries) && Analysed(p, r, base, blocks, |blocks|)
    ensures AllReachable(r.g)
  {
    var all := m.cache.blocks.Keys;
    var reached := ReachedBlocks(r, base, all);
    ReachedIsClosed(p, r, base, blocks, all);
    ReachedHasSeeds(r, base, blocks, m.cache);
    forall u: nat | r.g.Node(u) ensures Reachable(r.g, u) {
      if u == ROOT {
        RootReachable(r.g);
      } else {
        var x := r.ips[u];
        assert x in r.ipMap && r.ipMap[x] == u && x in blocks;
        var j: nat :| j < |blocks| && blocks[j] == x;
        assert x in all && Within(base, x) && x in h.order;
        var k: nat :| k < |h.order| && h.order[k] == x;
        P.AllReached(p, m, h, reached, k);
      }
    }
  }

  // ---------- From a run to regions ----------

  /** Where a run starts: nothing has been translated. */
  function Start(ip: Chaining.Ip): Chaining.Machine {
    Chaining.Machine(Chaining.EmptyCache(), ip, Chaining.InLoop(None), ip)
  }

  /** `m` is the state after a run of Execute on this code, from an empty cache. */
  ghost predicate ReachedByRun(p: P.Program, ip: Chaining.Ip, es: seq<Chaining.Event>, m: Chaining.Machine) {
    ip % 4 == 0 && Chaining.Shaped(Start(ip)) && P.HonestRun(p, Start(ip), P.History([], []), es) && Chaining.ChainRun(Start(ip), es) == Some(m)
  }

  lemma RunIsRecorded(p: P.Program, ip: Chaining.Ip, es: seq<Chaining.Event>, m: Chaining.Machine) returns (h: P.History)
    requires ReachedByRun(p, ip, es, m)
    ensures Chaining.Inv(m) && P.Recorded(p, m, h)
  {
    Chaining.InitAgrees(ip);
    h := P.RunRecords(p, Start(ip), P.History([], []), es);
  }

  /** AOTCompilePage, up to the regions: after any run that has translated fewer than 255 blocks of the
      page, the page is split into regions unless the analyser meets an illegal instruction. */
  method SplitPage(em: Emitter, n: Numbering, base: Address, blocks: seq<Address>, brind: set<Address>, segment: set<Address>,
                   ghost ip: Chaining.Ip, ghost es: seq<Chaining.Event>, ghost m: Chaining.Machine)
    returns (mg: ModuleGraph, ends: seq<Qir.Word>, regions: seq<seq<nat>>, ok: bool)
    requires Linear(em, n) && IsPage(base) && ReachedByRun(ProgramOf(em, n), ip, es, m)
    requires Lists(base, blocks, m.cache.blocks.Keys) && brind + segment == m.cache.brindTargets + m.cache.segmentEntries
    requires |blocks| < 255
    ensures ok <==> AllLegal(em, n, base, blocks, |blocks|)
    ensures ok ==> mg.Valid() && mg.ipMap.Keys == (set x | x in blocks)
    ensures ok ==> SeedsDone(mg.Contents(), brind + segment) && Analysed(ProgramOf(em, n), mg.Contents(), base, blocks, |blocks|)
    ensures ok ==> |ends| == |blocks| && Extents(em, n, base, blocks, ends)
    ensures ok ==> RegionPasses.Partition(mg.Graph(), regions) && RegionPasses.SingleEntryRegions(mg.Graph(), regions)
    ensures ok ==> RegionPasses.MinimalRegions(mg.Graph(), mg.Seeds(), regions)
  {
    mg, ends, ok := BuildModuleGraph(em, n, base, blocks, brind, segment);
    regions := [];
    if ok {
      ghost var h := RunIsRecorded(ProgramOf(em, n), ip, es, m);
      ProfiledGraphIsReachable(ProgramOf(em, n), m, h, mg.Contents(), base, blocks);
      var reachable;
      reachable, regions := mg.ComputeRegions();
    }
  }

  // ---------- Exits and edges ----------

  /** A block of the page, translated by itself or as part of a region, up to the extent that the
      analyser has found: it branches directly to another block of the page if and only if the graph
      has that edge. */
  lemma ExitsAreSuccessors(em: Emitter, n: Numbering, r: Record, base: Address, blocks: seq<Address>, ends: seq<Qir.Word>, k: nat,
                           ips: seq<Qir.Word>, block: Qir.Block, p: Plan, t: Address)
    requires Linear(em, n) && EmitsInside(em) && IsPage(base) && IsPageList(base, blocks) && k < |blocks| == |ends|
    requires Analysed(ProgramOf(em, n), r, base, blocks, |blocks|) && Extents(em, n, base, blocks, ends)
    requires BlockFor(em, ips, block, n.word(blocks[k]), p) && StopsExactly(em, n.word(blocks[k]), ends[k], p) && t in r.ipMap
    ensures blocks[k] in r.ipMap && (n.word(t) in DirectExits(ips, block) <==> r.g.Edge(r.ipMap[blocks[k]], r.ipMap[t]))
  {
    var x, b := blocks[k], NextStart(base, blocks, k);
    NextIsBoundary(base, blocks, k);
    assert EdgesDone(ProgramOf(em, n), r, x, b);
    assert EdgeTo(r, r.ipMap[x], t) <==> P.Exits(ProgramOf(em, n), x, P.Scan(ProgramOf(em, n), x, b, 0), t);
    AlignedRescan(em, n, n.word(x), n.word(b));
    CoversScan(em, ips, block, n.word(x), ends[k], p, 0);
    ScansAgree(em, n, x, b, 0);
    AlignedStops(em, n, x, n.word(b), 0);
    ExitsAreEdges(em, ips, block, n.word(x), p);
    EdgesAreExits(em, n, x, Length(p), t);
  }

  /** The same for 32-bit arithmetic and the decoder. */
  lemma MachineExitsAreSuccessors(fetch: Qir.Word -> Qir.Word, r: Record, base: Address, blocks: seq<Address>, ends: seq<Qir.Word>, k: nat,
                                  ips: seq<Qir.Word>, block: Qir.Block, p: Plan, t: Address)
    requires IsPage(base) && IsPageList(base, blocks) && k < |blocks| == |ends| && t in r.ipMap
    requires var em, n := EmitterOf(Machine(), Rv32Decode.GuestCode(fetch)), Numbers();
             && Analysed(ProgramOf(em, n), r, base, blocks, |blocks|) && Extents(em, n, base, blocks, ends)
             && BlockFor(em, ips, block, n.word(blocks[k]), p) && StopsExactly(em, n.word(blocks[k]), ends[k], p)
    ensures blocks[k] in r.ipMap && (WordAt(t) in DirectExits(ips, block) <==> r.g.Edge(r.ipMap[blocks[k]], r.ipMap[t]))
  {
    var code := Rv32Decode.GuestCode(fetch);
    MachineIsLinear(code);
    EmitterInside(Machine(), code);
    ExitsAreSuccessors(EmitterOf(Machine(), code), Numbers(), r, base, blocks, ends, k, ips, block, p, t);
  }

  /** The direct branches of a block that the translator has made of a range are what runs are
      assumed to follow. */
  lemma TranslatedIsHonest(em: Emitter, n: Numbering, known: set<nat>, ip: Address, b: nat, ips: seq<Qir.Word>, block: Qir.Block, p: Plan,
                           exits: seq<(Chaining.Ip, bool)>)
    requires Linear(em, n) && EmitsInside(em) && ip % 4 == 0 && P.PageEnd(ip) < VALUES
    requires P.IsRange(known, ip, b) && forall y | y in known :: y % 4 == 0
    requires BlockFor(em, ips, block, n.word(ip), p) && StopsExactly(em, n.word(ip), n.word(b), p)
    requires forall k: nat {:trigger exits[k]} | k < |exits| ::
               n.word(exits[k].0) in DirectExits(ips, block) && (exits[k].1 <==> !P.SamePage(ip, exits[k].0)) && exits[k].0 % 4 == 0
    ensures P.ScannedExits(ProgramOf(em, n), ip, b, exits)
  {
    RangeFits(known, ip, b);
    forall k: nat | k < |exits| ensures P.Exits(ProgramOf(em, n), ip, P.Scan(ProgramOf(em, n), ip, b, 0), exits[k].0) {
      TranslatedExits(em, n, ips, block, p, ip, b, exits[k].0);
    }
  }

  lemma RangeFits(known: set<nat>, ip: Address, b: nat)
    requires ip % 4 == 0 && P.PageEnd(ip) < VALUES && P.IsRange(known, ip, b) && forall y | y in known :: y % 4 == 0
    ensures ip + 4 < VALUES && b + 4 <= VALUES && b % 4 == 0
  {
    P.PageFacts(ip, ip);
  }
}
