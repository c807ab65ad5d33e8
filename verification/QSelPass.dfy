/** QSel::Run over the blocks of a region, and what it means for whole runs. */
module QSelPass {
  import opened Common
  import opened Qir
  import opened QSel

  /** `block'` is `block` after selection that started with the registers `start`; `info'` are the
      registers of the region in the end. */
  ghost predicate BlockSelected(info: VRegsInfo, info': VRegsInfo, slots: set<nat>, block: Block, block': Block, start: VRegsInfo, sels: seq<Selection>) {
    && Extends(info, start) && Extends(FinalInfo(start, sels), info') && Selects(start, block.code, sels)
    && block' == Block(Flatten(sels), block.succs) && WellFormedBlock(info, slots, block)
    && WellFormedBlock(info', slots, block') && AllSelected(block'.code)
  }

  ghost predicate RegionSelected(info: VRegsInfo, info': VRegsInfo, slots: set<nat>, blocks: seq<Block>, blocks': seq<Block>,
                                 starts: seq<VRegsInfo>, sels: seq<seq<Selection>>) {
    && Extends(info, info') && |blocks| == |blocks'| == |starts| == |sels|
    && forall b: nat {:trigger blocks'[b]} | b < |blocks| :: BlockSelected(info, info', slots, blocks[b], blocks'[b], starts[b], sels[b])
  }

  lemma MoreLocals(info: VRegsInfo, cur: VRegsInfo, info': VRegsInfo, slots: set<nat>, block: Block, block': Block, start: VRegsInfo, sels: seq<Selection>)
    requires BlockSelected(info, cur, slots, block, block', start, sels) && Extends(cur, info')
    ensures BlockSelected(info, info', slots, block, block', start, sels)
  {
    WellFormedExtends(cur, info', slots, {}, {}, block'.code);
  }

  lemma RegionGrows(info: VRegsInfo, cur: VRegsInfo, info': VRegsInfo, slots: set<nat>, blocks: seq<Block>, blocks': seq<Block>,
                    starts: seq<VRegsInfo>, sels: seq<seq<Selection>>, block: Block, block': Block, sel: seq<Selection>)
    requires RegionSelected(info, cur, slots, blocks, blocks', starts, sels) && Extends(cur, info')
    requires BlockSelected(info, info', slots, block, block', cur, sel)
    ensures RegionSelected(info, info', slots, blocks + [block], blocks' + [block'], starts + [cur], sels + [sel])
  {
    forall b: nat | b < |blocks| + 1
      ensures BlockSelected(info, info', slots, (blocks + [block])[b], (blocks' + [block'])[b], (starts + [cur])[b], (sels + [sel])[b])
    {
      if b < |blocks| {
        assert blocks'[b] == (blocks' + [block'])[b];
        MoreLocals(info, cur, info', slots, blocks[b], blocks'[b], starts[b], sels[b]);
      }
    }
  }

  /** One block, with the registers that earlier blocks have added. */
  method SelectNext(ghost info: VRegsInfo, ghost slots: set<nat>, cur: VRegsInfo, block: Block)
    returns (info': VRegsInfo, block': Block, ghost sel: seq<Selection>)
    requires WellFormedBlock(info, slots, block) && Extends(info, cur) && forall g | g in slots :: info.IsGlobal(g)
    ensures BlockSelected(info, info', slots, block, block', cur, sel) && Extends(cur, info')
    ensures info'.NumAll() == cur.NumAll() + CodeExtra(block.code)
  {
    WellFormedExtends(info, cur, slots, {}, {}, block.code);
    var out;
    info', out, sel := SelectBlock(cur, slots, block.code);
    FinalInfoGrows(cur, block.code, sel);
    block' := Block(out, block.succs);
  }

  /** The number of locals that selection adds in a region. */
  function RegionExtra(blocks: seq<Block>): nat {
    if blocks == [] then 0 else RegionExtra(blocks[..|blocks| - 1]) + CodeExtra(blocks[|blocks| - 1].code)
  }

  lemma RegionExtraNext(blocks: seq<Block>, k: nat)
    requires k < |blocks|
    ensures blocks[..k + 1] == blocks[..k] + [blocks[k]] && RegionExtra(blocks[..k + 1]) == RegionExtra(blocks[..k]) + CodeExtra(blocks[k].code)
  {
    assert blocks[..k + 1][..k] == blocks[..k];
  }

  method SelectRegion(info: VRegsInfo, ghost slots: set<nat>, blocks: seq<Block>)
    returns (info': VRegsInfo, blocks': seq<Block>, ghost starts: seq<VRegsInfo>, ghost sels: seq<seq<Selection>>)
    requires forall b | 0 <= b < |blocks| :: WellFormedBlock(info, slots, blocks[b])
    requires forall g | g in slots :: info.IsGlobal(g)
    ensures RegionSelected(info, info', slots, blocks, blocks', starts, sels)
    ensures info'.NumAll() == info.NumAll() + RegionExtra(blocks)
  {
    info', blocks', starts, sels := info, [], [], [];
    assert RegionSelected(info, info', slots, blocks[..0], blocks', starts, sels);
    while |blocks'| < |blocks|
      invariant |blocks'| <= |blocks| && RegionSelected(info, info', slots, blocks[..|blocks'|], blocks', starts, sels)
      invariant info'.NumAll() == info.NumAll() + RegionExtra(blocks[..|blocks'|])
    {
      info', blocks', starts, sels := SelectStep(info, slots, info', blocks, blocks', starts, sels);
    }
    assert blocks[..|blocks'|] == blocks;
  }

  /** A turn of the loop over the blocks. */
  method SelectStep(ghost info: VRegsInfo, ghost slots: set<nat>, cur: VRegsInfo, blocks: seq<Block>, blocks': seq<Block>,
                    ghost starts: seq<VRegsInfo>, ghost sels: seq<seq<Selection>>)
    returns (info': VRegsInfo, blocks'': seq<Block>, ghost starts': seq<VRegsInfo>, ghost sels': seq<seq<Selection>>)
    requires |blocks'| < |blocks| && WellFormedBlock(info, slots, blocks[|blocks'|]) && forall g | g in slots :: info.IsGlobal(g)
    requires RegionSelected(info, cur, slots, blocks[..|blocks'|], blocks', starts, sels)
    requires cur.NumAll() == info.NumAll() + RegionExtra(blocks[..|blocks'|])
    ensures |blocks''| == |blocks'| + 1 && RegionSelected(info, info', slots, blocks[..|blocks''|], blocks'', starts', sels')
    ensures info'.NumAll() == info.NumAll() + RegionExtra(blocks[..|blocks''|])
  {
    ghost var k := |blocks'|;
    var block := blocks[|blocks'|];
    var block';
    ghost var sel;
    info', block', sel := SelectNext(info, slots, cur, block);
    RegionExtraNext(blocks, k);
    RegionGrows(info, cur, info', slots, blocks[..k], blocks', starts, sels, block, block', sel);
    blocks'', starts', sels' := blocks' + [block'], starts + [cur], sels + [sel];
  }

  // ---------- Meaning ----------

  lemma SelectedRegionShape(info: VRegsInfo, info': VRegsInfo, slots: set<nat>, blocks: seq<Block>, blocks': seq<Block>,
                            starts: seq<VRegsInfo>, sels: seq<seq<Selection>>)
    requires RegionSelected(info, info', slots, blocks, blocks', starts, sels)
    ensures RegionShaped(blocks) && RegionShaped(blocks')
  {
    forall b: nat | b < |blocks|
      ensures AllShaped(blocks[b].code) && AllShaped(blocks'[b].code)
    {
      assert BlockSelected(info, info', slots, blocks[b], blocks'[b], starts[b], sels[b]);
      WellFormedIsShaped(info, slots, {}, blocks[b].code);
      WellFormedIsShaped(info', slots, {}, blocks'[b].code);
    }
  }

  lemma {:induction false} WellFormedWithin(info: VRegsInfo, slots: set<nat>, defined: set<nat>, code: seq<Inst>)
    requires WellFormedCode(info, slots, defined, code)
    ensures AllWithin(info.globals, info.NumAll(), code)
    decreases |code|
  {
    if code != [] {
      assert Within(info.globals, info.NumAll(), code[0]);
      WellFormedWithin(info, slots, Defines(info, defined, code[0]), code[1..]);
      forall k | 0 <= k < |code| ensures Within(info.globals, info.NumAll(), code[k]) {
        assert k > 0 ==> code[k] == code[1..][k - 1];
      }
    }
  }

  /** Same block and agreeing states, or the same exit with agreeing states. */
  ghost predicate AgreeRun(n: nat, size: nat, r1: RunResult<QState>, r2: RunResult<QState>) {
    match r1
    case Running(b, q) => r2.Running? && r2.b == b && Agree(n, q, r2.s) && |r2.s.vregs| == size
    case Exited(exit, q) => r2.Exited? && r2.exit == exit && Agree(n, q, r2.s) && |r2.s.vregs| == size
    case Wild => r2.Wild?
  }

  lemma SelectedBlockAgrees(sem: Semantics, info: VRegsInfo, info': VRegsInfo, slots: set<nat>, block: Block, block': Block, start: VRegsInfo,
                            sels: seq<Selection>, q1: QState, q2: QState)
    requires BlockSelected(info, info', slots, block, block', start, sels) && Agree(info.NumAll(), q1, q2) && info'.NumAll() <= |q2.vregs|
    ensures AllShaped(block.code) && AllShaped(block'.code) && block'.succs == block.succs
    ensures AgreeRuns(info.globals, sem, info.NumAll(), block.code, q1, block'.code, q2)
  {
    WellFormedIsShaped(info, slots, {}, block.code);
    WellFormedWithin(info, slots, {}, block.code);
    SelectedCodeAgrees(sem, info.NumAll(), start, block.code, sels, q1, q2);
  }

  /** Selection preserves meaning over whole runs: after any number of blocks the original registers
      and memory are the same. */
  lemma {:induction false} SelectionMatches(sem: Semantics, info: VRegsInfo, info': VRegsInfo, slots: set<nat>, blocks: seq<Block>, blocks': seq<Block>,
                                            starts: seq<VRegsInfo>, sels: seq<seq<Selection>>, n: nat, b: nat, q1: QState, q2: QState)
    requires RegionSelected(info, info', slots, blocks, blocks', starts, sels)
    requires Agree(info.NumAll(), q1, q2) && info'.NumAll() <= |q2.vregs|
    ensures RegionShaped(blocks) && RegionShaped(blocks')
    ensures AgreeRun(info.NumAll(), |q2.vregs|, QRunRegion(info.globals, sem, blocks, n, b, q1), QRunRegion(info.globals, sem, blocks', n, b, q2))
    decreases n
  {
    SelectedRegionShape(info, info', slots, blocks, blocks', starts, sels);
    if n > 0 && b < |blocks| {
      var gs := info.globals;
      assert BlockSelected(info, info', slots, blocks[b], blocks'[b], starts[b], sels[b]);
      SelectedBlockAgrees(sem, info, info', slots, blocks[b], blocks'[b], starts[b], sels[b], q1, q2);
      var r1, r2 := QRun(gs, sem, blocks[b].code, q1), QRun(gs, sem, blocks'[b].code, q2);
      if r1.Goto? && r1.k < |blocks[b].succs| {
        SelectionMatches(sem, info, info', slots, blocks, blocks', starts, sels, n - 1, blocks[b].succs[r1.k], r1.s, r2.s);
        assert QRunRegion(gs, sem, blocks, n, b, q1) == QRunRegion(gs, sem, blocks, n - 1, blocks[b].succs[r1.k], r1.s);
        assert QRunRegion(gs, sem, blocks', n, b, q2) == QRunRegion(gs, sem, blocks', n - 1, blocks[b].succs[r1.k], r2.s);
      } else {
        assert QRunRegion(gs, sem, blocks, n, b, q1) == if r1.Leave? then Exited(r1.exit, r1.s) else Wild;
        assert QRunRegion(gs, sem, blocks', n, b, q2) == if r2.Leave? then Exited(r2.exit, r2.s) else Wild;
      }
    }
  }
}
