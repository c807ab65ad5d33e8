/** QuickCodegen as a whole, `dbt/qmc/qcg/qcg.cpp`: selection, register allocation and layout together. */
module Backend {
  import opened Common
  import opened Qir
  import opened HostMachine
  import opened RegAllocState
  import opened RegAllocSim
  import opened QSelPass
  import opened QRegAllocs
  import opened Iteration
  import opened Layout
  import QSel

  // ---------- Branches survive the passes ----------

  /** Branches have their targets, and these are blocks of the region. */
  ghost predicate TargetsOk(block: Block, size: nat) {
    && (forall k | 0 <= k < |block.code| :: HasTargets(block.code[k], block.succs))
    && (forall k | 0 <= k < |block.succs| :: block.succs[k] < size)
  }

  lemma {:induction false} FlattenTargets(info: VRegsInfo, code: seq<Inst>, sels: seq<QSel.Selection>, succs: seq<nat>)
    requires QSel.Selects(info, code, sels) && forall k | 0 <= k < |code| :: HasTargets(code[k], succs)
    ensures forall k | 0 <= k < |QSel.Flatten(sels)| :: HasTargets(QSel.Flatten(sels)[k], succs)
    decreases |code|
  {
    if code != [] {
      FlattenTargets(sels[0].info, code[1..], sels[1..], succs);
      forall k | 0 <= k < |sels[0].pre| ensures HasTargets(sels[0].pre[k], succs) {
        assert QSel.IsRegMov(sels[0].pre[k]);
      }
      assert HasTargets(code[0], succs);
    }
  }

  lemma SelectedTargets(info: VRegsInfo, info': VRegsInfo, slots: set<nat>, blocks: seq<Block>, blocks': seq<Block>,
                        starts: seq<VRegsInfo>, sels: seq<seq<QSel.Selection>>)
    requires RegionSelected(info, info', slots, blocks, blocks', starts, sels)
    requires forall b | 0 <= b < |blocks| :: TargetsOk(blocks[b], |blocks|)
    ensures forall b | 0 <= b < |blocks'| :: TargetsOk(blocks'[b], |blocks'|)
  {
    forall b: nat | b < |blocks'|
      ensures TargetsOk(blocks'[b], |blocks'|)
    {
      assert BlockSelected(info, info', slots, blocks[b], blocks'[b], starts[b], sels[b]) && TargetsOk(blocks[b], |blocks|);
      FlattenTargets(starts[b], blocks[b].code, sels[b], blocks[b].succs);
    }
  }

  /** Jumps only at the end, and with their targets. */
  ghost predicate JumpsLast(code: seq<Inst>, succs: seq<nat>) {
    && (forall k | 0 <= k < |code| :: HasTargets(code[k], succs))
    && (forall k | 0 <= k < |code| - 1 :: !IsJump(code[k]))
  }

  lemma EmittedTargets(e: Env, defined: set<nat>, a: Alloc, mid: Alloc, a': Alloc, ins: Inst, host: Inst, succs: seq<nat>)
    requires Translated(e, defined, a, mid, a', ins, host) && HasTargets(ins, succs)
    ensures JumpsLast(Emitted(a, a'), succs)
    ensures !IsJump(ins) ==> forall k | 0 <= k < |Emitted(a, a')| :: !IsJump(Emitted(a, a')[k])
  {
    var moves := Emitted(a, mid);
    EmittedAppend(a, mid, a', host);
    forall k | 0 <= k < |moves| ensures HasTargets(moves[k], succs) && !IsJump(moves[k]) {
      assert IsMove(moves[k]);
    }
  }

  lemma JumpsJoin(a: Alloc, b: Alloc, c: Alloc, succs: seq<nat>)
    requires |a.code| <= |b.code| <= |c.code| && b.code[..|a.code|] == a.code && c.code[..|b.code|] == b.code
    requires JumpsLast(Emitted(a, b), succs) && JumpsLast(Emitted(b, c), succs)
    requires forall k | 0 <= k < |Emitted(a, b)| :: !IsJump(Emitted(a, b)[k])
    ensures c.code[..|a.code|] == a.code && JumpsLast(Emitted(a, c), succs)
  {
    EmittedSplit(a, b, c);
  }

  lemma FirstTargets(e: Env, defined: set<nat>, a: Alloc, code: seq<Inst>, trace: seq<Emission>, succs: seq<nat>)
    requires Inv(e, a) && CodeTranslated(e, defined, a, code, trace) && code != [] && HasTargets(code[0], succs)
    ensures var a1 := trace[0].after;
            && JumpsLast(Emitted(a, a1), succs) && Inv(e, a1) && |a.code| <= |a1.code| && a1.code[..|a.code|] == a.code
            && (!IsJump(code[0]) ==> forall k | 0 <= k < |Emitted(a, a1)| :: !IsJump(Emitted(a, a1)[k]))
            && Final(a1, trace[1..]) == Final(a, trace) && |a1.code| <= |Final(a, trace).code| && Final(a, trace).code[..|a1.code|] == a1.code
  {
    EmittedTargets(e, defined, a, trace[0].mid, trace[0].after, code[0], trace[0].host, succs);
    TranslatedShape(e, defined, a, trace[0].mid, trace[0].after, code[0], trace[0].host);
    CodeShape(e, Known(e, defined, code[0]), trace[0].after, code[1..], trace[1..]);
  }

  lemma {:induction false} AllocatedTargets(e: Env, defined: set<nat>, a: Alloc, code: seq<Inst>, trace: seq<Emission>, succs: seq<nat>)
    requires Inv(e, a) && CodeTranslated(e, defined, a, code, trace) && WellFormedCode(e.info, e.slots, defined, code)
    requires forall k | 0 <= k < |code| :: HasTargets(code[k], succs)
    ensures JumpsLast(Emitted(a, Final(a, trace)), succs)
    decreases |code|
  {
    if code == [] {
      assert Emitted(a, a) == [];
    } else {
      var a1, rest := trace[0].after, Known(e, defined, code[0]);
      FirstTargets(e, defined, a, code, trace, succs);
      if code[0].op.IsTerminator() {
        assert code[1..] == [] && trace[1..] == [];
      } else {
        AllocatedTargets(e, rest, a1, code[1..], trace[1..], succs);
        JumpsJoin(a, a1, Final(a, trace), succs);
      }
    }
  }

  lemma AllocatedOk(e: Env, blocks: seq<Block>, blocks': seq<Block>, starts: seq<Alloc>, traces: seq<seq<Emission>>)
    requires RegionTranslated(e, blocks, blocks', starts, traces)
    requires forall b | 0 <= b < |blocks| :: TargetsOk(blocks[b], |blocks|)
    ensures BlocksOk(blocks')
  {
    TranslatedRegionShape(e, blocks, blocks', starts, traces);
    forall b: nat | b < |blocks'|
      ensures BlockOk(blocks'[b], |blocks'|)
    {
      assert BlockTranslated(e, blocks[b], blocks'[b], starts[b], traces[b]) && TargetsOk(blocks[b], |blocks|);
      AllocatedTargets(e, {}, starts[b], blocks[b].code, traces[b], blocks[b].succs);
      CodeIsEncodable(e, {}, starts[b], blocks[b].code, traces[b]);
      assert Emitted(starts[b], Final(starts[b], traces[b])) == blocks'[b].code;
    }
  }

  // ---------- The theorem ----------

  /** The host machine holds the guest state of `q`. */
  ghost predicate Holds(info: VRegsInfo, cpuSize: nat, q: QState, m: MState) {
    Precise(Env(info, {}, cpuSize), q, m)
  }

  /** Flat code is where the region is, with the same guest state. */
  ghost predicate SameOutcome(info: VRegsInfo, cpuSize: nat, labels: seq<nat>, r: RunResult<QState>, f: RunResult<MState>) {
    match r
    case Running(b, q) => b < |labels| && f.Running? && f.b == labels[b] && Holds(info, cpuSize, q, f.s)
    case Exited(exit, q) => f.Exited? && f.exit == exit && Holds(info, cpuSize, q, f.s)
    case Wild => true
  }

  /** Everything that the three passes promise about a region. */
  datatype Passes = Passes(
    info': VRegsInfo, selected: seq<Block>, infos: seq<VRegsInfo>, sels: seq<seq<QSel.Selection>>,
    hosted: seq<Block>, starts: seq<Alloc>, traces: seq<seq<Emission>>)

  ghost predicate Compiled(info: VRegsInfo, slots: set<nat>, cpuSize: nat, blocks: seq<Block>, p: Passes, code: seq<FlatInst>, labels: seq<nat>) {
    && RegionSelected(info, p.info', slots, blocks, p.selected, p.infos, p.sels)
    && RegionTranslated(Env(p.info', slots, cpuSize), p.selected, p.hosted, p.starts, p.traces)
    && BlocksOk(p.hosted) && LaidOut(p.hosted, |blocks|, code, labels) && FlatShaped(code) && FlatEncodable(code)
  }

  /** The same registers, with room for those that selection adds. */
  function Widened(q: QState, n: nat): (q': QState)
    ensures n <= |q'.vregs| && |q.vregs| <= |q'.vregs| && q'.mem == q.mem && q'.vregs[..|q.vregs|] == q.vregs
  {
    if |q.vregs| < n then q.(vregs := q.vregs + seq(n - |q.vregs|, _ => ZERO)) else q
  }

  /** Selection and allocation together, block by block. */
  lemma PassesMatch(sem: Semantics, junk: (MState, nat) -> Word, info: VRegsInfo, slots: set<nat>, cpuSize: nat, blocks: seq<Block>, p: Passes,
                    code: seq<FlatInst>, labels: seq<nat>, n: nat, b: nat, q: QState, m: MState)
    requires Compiled(info, slots, cpuSize, blocks, p, code, labels) && info.NumAll() <= |q.vregs| && Holds(info, cpuSize, q, m)
    ensures RegionShaped(blocks) && RegionShaped(p.hosted)
    ensures SameRun(Env(info, {}, cpuSize), QRunRegion(info.globals, sem, blocks, n, b, q), MRunRegion(info.globals, sem, junk, p.hosted, n, b, m))
  {
    var e := Env(p.info', slots, cpuSize);
    var q' := Widened(q, p.info'.NumAll());
    assert forall v: nat | v < |q.vregs| :: q'.vregs[v] == q'.vregs[..|q.vregs|][v];
    assert Precise(e, q', m) by {
      assert e.info.globals == info.globals;
    }
    SelectionMatches(sem, info, p.info', slots, blocks, p.selected, p.infos, p.sels, n, b, q, q');
    RegionMatches(e, sem, junk, p.selected, p.hosted, p.starts, p.traces, n, b, q', m);
  }

  /** Backend preserves meaning: however many blocks the region runs, the code gets to the same place,
      or leaves by the same exit, with the same globals in `CPUState` and the same guest memory. */
  lemma BackendFollows(sem: Semantics, junk: (MState, nat) -> Word, info: VRegsInfo, slots: set<nat>, cpuSize: nat, blocks: seq<Block>, p: Passes,
                       code: seq<FlatInst>, labels: seq<nat>, n: nat, b: nat, q: QState, m: MState) returns (k: nat)
    requires Compiled(info, slots, cpuSize, blocks, p, code, labels) && info.NumAll() <= |q.vregs| && Holds(info, cpuSize, q, m) && b < |blocks|
    ensures RegionShaped(blocks)
    ensures SameOutcome(info, cpuSize, labels, QRunRegion(info.globals, sem, blocks, n, b, q),
                        FlatRun(info.globals, sem, junk, code, labels, k, labels[b], m))
  {
    PassesMatch(sem, junk, info, slots, cpuSize, blocks, p, code, labels, n, b, q, m);
    k := LayoutFollows(info.globals, sem, junk, p.hosted, code, labels, n, b, m);
  }

  /** And the code leaves by no other exit. */
  lemma BackendReflects(sem: Semantics, junk: (MState, nat) -> Word, info: VRegsInfo, slots: set<nat>, cpuSize: nat, blocks: seq<Block>, p: Passes,
                        code: seq<FlatInst>, labels: seq<nat>, k: nat, b: nat, q: QState, m: MState) returns (n: nat)
    requires Compiled(info, slots, cpuSize, blocks, p, code, labels) && info.NumAll() <= |q.vregs| && Holds(info, cpuSize, q, m) && b < |blocks|
    requires FlatRun(info.globals, sem, junk, code, labels, k, labels[b], m).Exited?
    ensures RegionShaped(blocks)
    ensures var r, f := QRunRegion(info.globals, sem, blocks, n, b, q), FlatRun(info.globals, sem, junk, code, labels, k, labels[b], m);
            r.Wild? || (r.Exited? && r.exit == f.exit && Holds(info, cpuSize, r.s, f.s))
  {
    PassesMatch(sem, junk, info, slots, cpuSize, blocks, p, code, labels, 0, b, q, m);
    n := LayoutReflects(info.globals, sem, junk, p.hosted, code, labels, k, b, m);
    PassesMatch(sem, junk, info, slots, cpuSize, blocks, p, code, labels, n, b, q, m);
  }

  // ---------- The pipeline ----------

  predicate CallsIn(code: seq<Inst>) {
    exists k :: 0 <= k < |code| && code[k].op.Hcall?
  }

  predicate Calls(blocks: seq<Block>) {
    exists b :: 0 <= b < |blocks| && CallsIn(blocks[b].code)
  }

  /** Selection adds no helper calls. */
  lemma {:induction false} FlattenCalls(info: VRegsInfo, code: seq<Inst>, sels: seq<QSel.Selection>)
    requires QSel.Selects(info, code, sels) && !CallsIn(code)
    ensures !CallsIn(QSel.Flatten(sels))
    decreases |code|
  {
    if code != [] {
      assert !code[0].op.Hcall?;
      assert !CallsIn(code[1..]) by {
        assert forall k | 0 <= k < |code[1..]| :: code[1..][k] == code[k + 1];
      }
      FlattenCalls(sels[0].info, code[1..], sels[1..]);
      forall k | 0 <= k < |sels[0].pre| ensures !sels[0].pre[k].op.Hcall? {
        assert QSel.IsRegMov(sels[0].pre[k]);
      }
    }
  }

  lemma SelectedCalls(info: VRegsInfo, info': VRegsInfo, slots: set<nat>, blocks: seq<Block>, blocks': seq<Block>,
                      starts: seq<VRegsInfo>, sels: seq<seq<QSel.Selection>>)
    requires RegionSelected(info, info', slots, blocks, blocks', starts, sels) && (Calls(blocks) ==> info'.NumAll() <= 255)
    ensures HelperLimit(info', blocks')
  {
    forall b: nat, k: nat | b < |blocks'| && k < |blocks'[b].code| && blocks'[b].code[k].op.Hcall? ensures info'.NumAll() <= 255 {
      assert BlockSelected(info, info', slots, blocks[b], blocks'[b], starts[b], sels[b]);
      if !CallsIn(blocks[b].code) {
        FlattenCalls(starts[b], blocks[b].code, sels[b]);
        assert false;
      }
    }
  }

  /** GenerateCode.  The result is false where compilation panics, and where a region with helper calls
      has more than 255 virtual registers, for which it does not end (`QRegAllocs.CallLoopEnds`). */
  method GenerateCode(info: VRegsInfo, ghost slots: set<nat>, ghost cpuSize: nat, blocks: seq<Block>)
    returns (code: seq<FlatInst>, labels: seq<nat>, ok: bool, ghost p: Passes)
    requires LayoutOk(info.globals, cpuSize) && (forall g | g in slots :: info.IsGlobal(g))
    requires forall b | 0 <= b < |blocks| :: WellFormedBlock(info, slots, blocks[b]) && TargetsOk(blocks[b], |blocks|)
    ensures ok ==> Compiled(info, slots, cpuSize, blocks, p, code, labels) && (blocks != [] ==> labels[0] == 0)
    ensures Calls(blocks) ==> (ok <==> info.NumAll() + RegionExtra(blocks) <= 255)
    ensures ok ==> info.NumAll() + RegionExtra(blocks) <= MAX_VREGS
    ensures !Calls(blocks) && info.NumAll() + RegionExtra(blocks) <= MAX_VREGS && |info.locals| + RegionExtra(blocks) <= 256 ==> ok
  {
    code, labels := [], [];
    ghost var infos;
    ghost var sels;
    var info', selected;
    info', selected, infos, sels := SelectRegion(info, slots, blocks);
    SelectedTargets(info, info', slots, blocks, selected, infos, sels);
    ghost var starts: seq<Alloc> := [];
    ghost var traces: seq<seq<Emission>> := [];
    var hosted: seq<Block> := [];
    ok := !Calls(blocks) || info'.NumAll() <= 255;
    if ok {
      SelectedCalls(info, info', slots, blocks, selected, infos, sels);
      assert forall b | 0 <= b < |selected| :: WellFormedBlock(info', slots, selected[b]) && QSel.AllSelected(selected[b].code);
      hosted, starts, traces, ok := AllocateRegion(info', slots, cpuSize, selected);
    }
    p := Passes(info', selected, infos, sels, hosted, starts, traces);
    if ok {
      AllocatedOk(Env(info', slots, cpuSize), selected, hosted, starts, traces);
      code, labels := EmitRegion(hosted);
    }
  }
}
