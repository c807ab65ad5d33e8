/** AOTCompilePage of `dbt/aot/aot.cpp`: every region of a page is compiled from the extents in the graph. */
module AotCompile {
  import opened Common
  import opened Qir
  import opened ModuleGraphs
  import opened Rv32
  import opened Rv32Blocks
  import opened Rv32Emission
  import opened Rv32Machine
  import opened Rv32Translators
  import opened Rv32Analysers
  import opened Compiler
  import opened AotBuild
  import opened Layout
  import RegionPasses
  import Chaining

  /** The extent of the block at `a`: `ip` and `ip_end` of its node. */
  ghost predicate IsExtent(n: Numbering, blocks: seq<Address>, ends: seq<Word>, a: Address, range: (Word, Word)) {
    |ends| == |blocks| && exists k :: 0 <= k < |blocks| && blocks[k] == a && range == (n.word(a), ends[k])
  }

  method FindExtent(n: Numbering, blocks: seq<Address>, ends: seq<Word>, a: Address) returns (range: (Word, Word))
    requires |ends| == |blocks| && a in blocks
    ensures IsExtent(n, blocks, ends, a, range)
  {
    var k := 0;
    while blocks[k] != a
      decreases |blocks| - k
      invariant 0 <= k < |blocks| && a in blocks[k..]
    {
      assert blocks[k..][1..] == blocks[k + 1..];
      k := k + 1;
    }
    range := (n.word(a), ends[k]);
  }

  /** The ranges of a region, in the order of its nodes. */
  ghost predicate RangesOf(n: Numbering, ips: seq<Address>, blocks: seq<Address>, ends: seq<Word>, nodes: seq<nat>, ranges: seq<(Word, Word)>) {
    |ranges| <= |nodes| && forall j: nat {:trigger ranges[j]} | j < |ranges| :: nodes[j] < |ips| && IsExtent(n, blocks, ends, ips[nodes[j]], ranges[j])
  }

  method RegionRanges(n: Numbering, ips: seq<Address>, blocks: seq<Address>, ends: seq<Word>, nodes: seq<nat>) returns (ranges: seq<(Word, Word)>)
    requires |ends| == |blocks| && forall x | x in nodes :: x < |ips| && ips[x] in blocks
    ensures |ranges| == |nodes| && RangesOf(n, ips, blocks, ends, nodes, ranges)
  {
    ranges := [];
    while |ranges| < |nodes|
      invariant |ranges| <= |nodes| && RangesOf(n, ips, blocks, ends, nodes, ranges)
    {
      assert nodes[|ranges|] in nodes;
      var range := FindExtent(n, blocks, ends, ips[nodes[|ranges|]]);
      ranges := ranges + [range];
    }
  }

  /** None of the blocks contains a load into x0 without offset, up to the ends. */
  ghost predicate Clean(em: Emitter, n: Numbering, blocks: seq<Address>, ends: seq<Word>)
    requires |ends| == |blocks|
  {
    forall k: nat {:trigger blocks[k]} | k < |blocks| :: NoClobber(em, n.word(blocks[k]), Scan(em, n.word(blocks[k]), ends[k], 0))
  }

  /** The same up to where the analyser stops. */
  ghost predicate PageIsClean(em: Emitter, n: Numbering, base: Address, blocks: seq<Address>) {
    forall k: nat {:trigger blocks[k]} | k < |blocks| :: NoClobber(em, n.word(blocks[k]), Scan(em, n.word(blocks[k]), n.word(NextStart(base, blocks, k)), 0))
  }

  lemma ExtentsAreClean(em: Emitter, n: Numbering, base: Address, blocks: seq<Address>, ends: seq<Word>)
    requires Linear(em, n) && IsPage(base) && IsPageList(base, blocks) && |ends| == |blocks| && Extents(em, n, base, blocks, ends)
    requires PageIsClean(em, n, base, blocks)
    ensures Clean(em, n, blocks, ends)
  {
    forall k: nat | k < |blocks| ensures NoClobber(em, n.word(blocks[k]), Scan(em, n.word(blocks[k]), ends[k], 0)) {
      var x, b := n.word(blocks[k]), n.word(NextStart(base, blocks, k));
      NextIsBoundary(base, blocks, k);
      assert n.num(x) == blocks[k] && n.num(b) == NextStart(base, blocks, k) && blocks[k] % 4 == 0;
      assert ends[k] == AddrOf(em, x, Scan(em, x, b, 0));
      AlignedRescan(em, n, x, b);
    }
  }

  lemma RangesAreFit(em: Emitter, n: Numbering, base: Address, ips: seq<Address>, blocks: seq<Address>, ends: seq<Word>, nodes: seq<nat>, ranges: seq<(Word, Word)>)
    requires Bijective(n) && |ends| == |blocks| && IsPageList(base, blocks) && Clean(em, n, blocks, ends)
    requires |ranges| == |nodes| && RangesOf(n, ips, blocks, ends, nodes, ranges) && RegionPasses.NoRepeats(nodes)
    requires Injective(ips)
    requires forall x | x in nodes :: x > 0
    ensures NoneClobbers(em, ranges) && AllAligned(ranges) && Distinct(ranges)
  {
    forall j: nat | j < |ranges|
      ensures NoClobber(em, ranges[j].0, Scan(em, ranges[j].0, ranges[j].1, 0)) && !Misaligned(ranges[j].0) && n.num(ranges[j].0) == ips[nodes[j]]
    {
      RangeIsFit(em, n, base, ips[nodes[j]], blocks, ends, ranges[j]);
    }
    forall i, j | 0 <= i < j < |ranges| ensures ranges[i].0 != ranges[j].0 {
      assert nodes[i] in nodes && nodes[j] in nodes && nodes[i] != nodes[j];
      assert n.num(ranges[i].0) == ips[nodes[i]] && n.num(ranges[j].0) == ips[nodes[j]];
    }
  }

  lemma RangeIsFit(em: Emitter, n: Numbering, base: Address, a: Address, blocks: seq<Address>, ends: seq<Word>, range: (Word, Word))
    requires Bijective(n) && |ends| == |blocks| && IsPageList(base, blocks) && Clean(em, n, blocks, ends) && IsExtent(n, blocks, ends, a, range)
    ensures NoClobber(em, range.0, Scan(em, range.0, range.1, 0)) && !Misaligned(range.0) && n.num(range.0) == a
  {
    var k: nat :| k < |blocks| && blocks[k] == a && range == (n.word(a), ends[k]);
    assert blocks[k] % 4 == 0 && n.num(n.word(a)) == a;
  }

  ghost predicate Injective(ips: seq<Address>) {
    forall x, y | 0 < x < |ips| && 0 < y < |ips| && ips[x] == ips[y] :: x == y
  }

  /** A list of different nodes that are blocks of the page. */
  ghost predicate NodesOk(ips: seq<Address>, blocks: seq<Address>, nodes: seq<nat>) {
    nodes != [] && RegionPasses.NoRepeats(nodes) && forall x | x in nodes :: 0 < x < |ips| && ips[x] in blocks
  }

  ghost predicate AllNodesOk(ips: seq<Address>, blocks: seq<Address>, regions: seq<seq<nat>>) {
    forall k: nat {:trigger regions[k]} | k < |regions| :: NodesOk(ips, blocks, regions[k])
  }

  /** A compiled region: every node has a block at its address that stops exactly at its extent, all other
      blocks leave the region, and the code is entered at the first node. */
  ghost predicate RegionCompiled(em: Emitter, cpuSize: nat, ranges: seq<(Word, Word)>, im: Image) {
    ranges != [] && Ready(em, cpuSize, im, ranges[0].0) && Compiler.Placed(ranges, im.ips, im.plans) && Stops(em, ranges, im.plans)
  }

  /** The ranges and code of one region: the extents of its nodes.  It compiles at any rate if it has one
      node, or at most 74 instructions. */
  ghost predicate RegionTried(em: Emitter, n: Numbering, ips: seq<Address>, blocks: seq<Address>, ends: seq<Word>, nodes: seq<nat>,
                              ranges: seq<(Word, Word)>, code: Option<seq<FlatInst>>) {
    && |ranges| == |nodes| && RangesOf(n, ips, blocks, ends, nodes, ranges)
    && (|nodes| == 1 || RangeInsns(em, ranges) <= 74 ==> code.Some?)
  }

  /** The code, if any, is that of a compiled region. */
  ghost predicate RegionDone(em: Emitter, cpuSize: nat, ranges: seq<(Word, Word)>, code: Option<seq<FlatInst>>, im: Image) {
    code.Some? ==> RegionCompiled(em, cpuSize, ranges, im) && code.value == im.code
  }

  method CompileNodes(em: Emitter, n: Numbering, base: Address, ips: seq<Address>, blocks: seq<Address>, ends: seq<Word>, nodes: seq<nat>, ghost cpuSize: nat)
    returns (code: Option<seq<FlatInst>>, ranges: seq<(Word, Word)>, ghost im: Image)
    requires Usable(em) && Bijective(n) && |ends| == |blocks| && IsPageList(base, blocks) && Clean(em, n, blocks, ends)
    requires NodesOk(ips, blocks, nodes) && Injective(ips)
    requires cpuSize >= 4 * (NUM_GLOBALS + 1)
    ensures RegionTried(em, n, ips, blocks, ends, nodes, ranges, code)
    ensures RegionDone(em, cpuSize, ranges, code, im)
  {
    ranges := RegionRanges(n, ips, blocks, ends, nodes);
    RangesAreFit(em, n, base, ips, blocks, ends, nodes, ranges);
    var flat, labels, ok;
    flat, labels, ok, im := CompileRanges(em, ranges, cpuSize);
    code := if ok then Some(flat) else None;
    if ok {
      ImageIsReady(em, cpuSize, ranges, im);
    }
  }

  /** The nodes of the regions are blocks of the page. */
  lemma RegionNodesAreBlocks(r: Record, blocks: seq<Address>, regions: seq<seq<nat>>)
    requires r.Valid() && r.ipMap.Keys == (set x | x in blocks) && RegionPasses.Partition(r.g, regions)
    ensures AllNodesOk(r.ips, blocks, regions) && Injective(r.ips)
  {
    forall k: nat | k < |regions| ensures NodesOk(r.ips, blocks, regions[k]) {
      forall x | x in regions[k] ensures 0 < x < |r.ips| && r.ips[x] in blocks {
        assert r.ips[x] in r.ipMap;
      }
    }
  }

  /** The first `k` regions are tried. */
  ghost predicate RegionsTried(em: Emitter, n: Numbering, ips: seq<Address>, blocks: seq<Address>, ends: seq<Word>, regions: seq<seq<nat>>,
                               k: nat, ranges: seq<seq<(Word, Word)>>, codes: seq<Option<seq<FlatInst>>>) {
    && |codes| == |ranges| == k <= |regions|
    && forall j: nat {:trigger regions[j]} | j < k :: RegionTried(em, n, ips, blocks, ends, regions[j], ranges[j], codes[j])
  }

  ghost predicate RegionsDone(em: Emitter, cpuSize: nat, ranges: seq<seq<(Word, Word)>>, codes: seq<Option<seq<FlatInst>>>, images: seq<Image>) {
    && |codes| == |images| == |ranges|
    && forall j: nat {:trigger codes[j]} | j < |codes| :: RegionDone(em, cpuSize, ranges[j], codes[j], images[j])
  }

  /** AOTCompilePage.  After any run that has translated fewer than 255 blocks of the page, the page is split
      into regions, and one job per region compiles all of its nodes from the extents in the graph. */
  method CompilePage(em: Emitter, n: Numbering, base: Address, blocks: seq<Address>, brind: set<Address>, segment: set<Address>,
                     ghost cpuSize: nat, ghost ip: Chaining.Ip, ghost es: seq<Chaining.Event>, ghost m: Chaining.Machine)
    returns (mg: ModuleGraph, ends: seq<Word>, regions: seq<seq<nat>>, ranges: seq<seq<(Word, Word)>>, codes: seq<Option<seq<FlatInst>>>,
             ok: bool, ghost images: seq<Image>)
    requires Usable(em) && Linear(em, n) && IsPage(base) && ReachedByRun(ProgramOf(em, n), ip, es, m) && cpuSize >= 4 * (NUM_GLOBALS + 1)
    requires Lists(base, blocks, m.cache.blocks.Keys) && brind + segment == m.cache.brindTargets + m.cache.segmentEntries
    requires |blocks| < 255 && PageIsClean(em, n, base, blocks)
    ensures ok <==> AllLegal(em, n, base, blocks, |blocks|)
    ensures ok ==> mg.Valid() && mg.ipMap.Keys == (set x | x in blocks) && |ends| == |blocks| && Extents(em, n, base, blocks, ends)
    ensures ok ==> RegionPasses.Partition(mg.Graph(), regions) && RegionPasses.SingleEntryRegions(mg.Graph(), regions)
    ensures ok ==> RegionPasses.MinimalRegions(mg.Graph(), mg.Seeds(), regions) && SeedsDone(mg.Contents(), brind + segment)
    ensures ok ==> RegionsTried(em, n, mg.ips, blocks, ends, regions, |regions|, ranges, codes) && RegionsDone(em, cpuSize, ranges, codes, images)
  {
    mg, ends, regions, ok := SplitPage(em, n, base, blocks, brind, segment, ip, es, m);
    codes, ranges, images := [], [], [];
    if ok {
      ExtentsAreClean(em, n, base, blocks, ends);
      RegionNodesAreBlocks(mg.Contents(), blocks, regions);
      ranges, codes, images := CompileRegions(em, n, base, mg.ips, blocks, ends, regions, cpuSize);
    }
  }

  /** The loop over the regions. */
  method CompileRegions(em: Emitter, n: Numbering, base: Address, ips: seq<Address>, blocks: seq<Address>, ends: seq<Word>, regions: seq<seq<nat>>,
                        ghost cpuSize: nat)
    returns (ranges: seq<seq<(Word, Word)>>, codes: seq<Option<seq<FlatInst>>>, ghost images: seq<Image>)
    requires Usable(em) && Bijective(n) && |ends| == |blocks| && IsPageList(base, blocks) && Clean(em, n, blocks, ends)
    requires AllNodesOk(ips, blocks, regions) && Injective(ips) && cpuSize >= 4 * (NUM_GLOBALS + 1)
    ensures RegionsTried(em, n, ips, blocks, ends, regions, |regions|, ranges, codes)
    ensures RegionsDone(em, cpuSize, ranges, codes, images)
  {
    codes, ranges, images := [], [], [];
    while |codes| < |regions|
      invariant RegionsTried(em, n, ips, blocks, ends, regions, |codes|, ranges, codes)
      invariant RegionsDone(em, cpuSize, ranges, codes, images)
    {
      var code, range, im := CompileNodes(em, n, base, ips, blocks, ends, regions[|codes|], cpuSize);
      codes, ranges, images := codes + [code], ranges + [range], images + [im];
    }
  }
}
