/** Block layout of `dbt/qmc/qcg/qemit.cpp`: blocks are emitted one after the other, and a jump to the
    block that follows is left out. */
module Layout {
  import opened Common
  import opened Qir
  import opened HostMachine
  import opened Iteration

  datatype FlatInst = Plain(ins: Inst) | Jmp(target: nat) | Jcc(ins: Inst, target: nat)

  /** A branch has the successors that it names. */
  predicate HasTargets(ins: Inst, succs: seq<nat>) {
    (ins.op.Br? ==> |succs| >= 1) && (ins.op.Brcc? ==> |succs| >= 2)
  }

  predicate IsJump(ins: Inst) {
    ins.op.Br? || ins.op.Brcc?
  }

  /** What one instruction of a block becomes; `next` is the block that follows. */
  function EmitInst(ins: Inst, succs: seq<nat>, next: nat): seq<FlatInst>
    requires HasTargets(ins, succs)
  {
    if ins.op.Br? then if succs[0] == next then [] else [Jmp(succs[0])]
    else if ins.op.Brcc? then [Jcc(ins, succs[0])] + if succs[1] == next then [] else [Jmp(succs[1])]
    else [Plain(ins)]
  }

  ghost function EmitCode(code: seq<Inst>, succs: seq<nat>, next: nat): seq<FlatInst>
    requires forall k | 0 <= k < |code| :: HasTargets(code[k], succs)
  {
    if code == [] then [] else EmitInst(code[0], succs, next) + EmitCode(code[1..], succs, next)
  }

  lemma {:induction false} EmitCodeAppend(code: seq<Inst>, ins: Inst, succs: seq<nat>, next: nat)
    requires (forall k | 0 <= k < |code| :: HasTargets(code[k], succs)) && HasTargets(ins, succs)
    ensures EmitCode(code + [ins], succs, next) == EmitCode(code, succs, next) + EmitInst(ins, succs, next)
  {
    if code == [] {
      assert code + [ins] == [ins] && [ins][1..] == [];
    } else {
      assert (code + [ins])[1..] == code[1..] + [ins];
      EmitCodeAppend(code[1..], ins, succs, next);
    }
  }

  /** Jumps come last and have their targets; successors are blocks of the region. */
  ghost predicate BlockOk(block: Block, size: nat) {
    && (forall k | 0 <= k < |block.code| :: HasTargets(block.code[k], block.succs) && Shaped(block.code[k]) && Encodable(block.code[k]))
    && (forall k | 0 <= k < |block.code| - 1 :: !IsJump(block.code[k]))
    && (forall k | 0 <= k < |block.succs| :: block.succs[k] < size)
  }

  ghost predicate BlocksOk(blocks: seq<Block>) {
    forall b: nat {:trigger blocks[b]} | b < |blocks| :: BlockOk(blocks[b], |blocks|)
  }

  ghost predicate Placed(code: seq<FlatInst>, pos: nat, piece: seq<FlatInst>) {
    pos + |piece| <= |code| && code[pos..pos + |piece|] == piece
  }

  /** The first `n` blocks have been emitted, each at its label and each followed by the next. */
  ghost predicate LaidOut(blocks: seq<Block>, n: nat, code: seq<FlatInst>, labels: seq<nat>)
    requires BlocksOk(blocks)
  {
    && |labels| == n <= |blocks|
    && forall b: nat {:trigger labels[b]} | b < n :: BlockLaidOut(blocks, n, code, labels, b)
  }

  ghost predicate BlockLaidOut(blocks: seq<Block>, n: nat, code: seq<FlatInst>, labels: seq<nat>, b: nat)
    requires BlocksOk(blocks) && b < n && |labels| == n <= |blocks|
  {
    assert BlockOk(blocks[b], |blocks|);
    var piece := EmitCode(blocks[b].code, blocks[b].succs, b + 1);
    Placed(code, labels[b], piece) && labels[b] + |piece| == if b + 1 < n then labels[b + 1] else |code|
  }

  lemma LaidOutGrows(blocks: seq<Block>, n: nat, code: seq<FlatInst>, labels: seq<nat>, piece: seq<FlatInst>)
    requires BlocksOk(blocks) && LaidOut(blocks, n, code, labels) && n < |blocks| && BlockOk(blocks[n], |blocks|)
    requires piece == EmitCode(blocks[n].code, blocks[n].succs, n + 1)
    ensures LaidOut(blocks, n + 1, code + piece, labels + [|code|])
  {
    var n', code', labels' := n + 1, code + piece, labels + [|code|];
    forall b: nat | b < n'
      ensures BlockLaidOut(blocks, n', code', labels', b)
    {
      assert BlockOk(blocks[b], |blocks|);
      if b < n {
        assert labels[b] == labels'[b] && BlockLaidOut(blocks, n, code, labels, b);
        PlacedGrows(code, piece, labels[b], EmitCode(blocks[b].code, blocks[b].succs, b + 1));
      } else {
        assert code'[|code|..|code| + |piece|] == piece;
      }
    }
  }

  lemma PlacedGrows(code: seq<FlatInst>, more: seq<FlatInst>, pos: nat, piece: seq<FlatInst>)
    requires Placed(code, pos, piece)
    ensures Placed(code + more, pos, piece)
  {
    assert (code + more)[pos..pos + |piece|] == code[pos..pos + |piece|];
  }

  /** QCodegen::Run on one block. */
  method EmitBlock(block: Block, next: nat, size: nat, code: seq<FlatInst>) returns (code': seq<FlatInst>)
    requires BlockOk(block, size)
    ensures code' == code + EmitCode(block.code, block.succs, next) && (FlatShaped(code) ==> FlatShaped(code'))
    ensures FlatEncodable(code) ==> FlatEncodable(code')
  {
    code' := code;
    var k := 0;
    while k < |block.code|
      invariant (FlatShaped(code) ==> FlatShaped(code')) && (FlatEncodable(code) ==> FlatEncodable(code'))
      invariant 0 <= k <= |block.code| && code' == code + EmitCode(block.code[..k], block.succs, next)
    {
      assert block.code[..k + 1] == block.code[..k] + [block.code[k]];
      EmitCodeAppend(block.code[..k], block.code[k], block.succs, next);
      code' := code' + EmitInst(block.code[k], block.succs, next);
      k := k + 1;
    }
    assert block.code[..k] == block.code;
  }

  method EmitRegion(blocks: seq<Block>) returns (code: seq<FlatInst>, labels: seq<nat>)
    requires BlocksOk(blocks)
    ensures LaidOut(blocks, |blocks|, code, labels) && FlatShaped(code) && FlatEncodable(code) && (blocks != [] ==> labels[0] == 0)
  {
    code, labels := [], [];
    var b := 0;
    while b < |blocks|
      invariant FlatShaped(code) && FlatEncodable(code)
      invariant b <= |blocks| && LaidOut(blocks, b, code, labels) && (b > 0 ==> labels[0] == 0) && (b == 0 ==> code == [])
    {
      assert BlockOk(blocks[b], |blocks|);
      var code' := EmitBlock(blocks[b], b + 1, |blocks|, code);
      LaidOutGrows(blocks, b, code, labels, EmitCode(blocks[b].code, blocks[b].succs, b + 1));
      labels, code := labels + [|code|], code';
      b := b + 1;
    }
  }

  // ---------- Running flat code ----------

  predicate FlatShaped(code: seq<FlatInst>) {
    forall k | 0 <= k < |code| :: code[k].Jmp? || Shaped(code[k].ins)
  }

  predicate FlatEncodable(code: seq<FlatInst>) {
    forall k | 0 <= k < |code| :: code[k].Jmp? || Encodable(code[k].ins)
  }

  /** One flat instruction at position `pc`. */
  function FlatStep(gs: seq<StateReg>, sem: Semantics, junk: (MState, nat) -> Word, code: seq<FlatInst>, labels: seq<nat>, pc: nat, m: MState): RunResult<MState>
    requires FlatShaped(code)
  {
    if pc >= |code| then Wild
    else
      match code[pc]
      case Plain(ins) =>
        (match MStep(gs, sem, junk, ins, m)
         case Next(m') => Running(pc + 1, m')
         case Leave(exit, m') => Exited(exit, m')
         case Goto(_, _) => Wild)
      case Jmp(t) => if t < |labels| then Running(labels[t], m) else Wild
      case Jcc(ins, t) =>
        var r := MStep(gs, sem, junk, ins, m);
        if !r.Goto? || t >= |labels| then Wild else Running(if r.k == 0 then labels[t] else pc + 1, r.s)
  }

  /** `k` flat instructions lead to where the straight-line result says. */
  ghost predicate Leads(r: Result<MState>, f: RunResult<MState>, succs: seq<nat>, labels: seq<nat>) {
    match r
    case Next(_) => true
    case Leave(exit, m) => f == Exited(exit, m)
    case Goto(k, m) => k < |succs| && succs[k] < |labels| && f == Running(labels[succs[k]], m)
  }

  lemma OneInst(gs: seq<StateReg>, sem: Semantics, junk: (MState, nat) -> Word, ins: Inst, m: MState)
    requires Shaped(ins)
    ensures MRun(gs, sem, junk, [ins], m) == MStep(gs, sem, junk, ins, m)
  {
    assert [ins][1..] == [];
    var r := MStep(gs, sem, junk, ins, m);
    if r.Next? {
      assert MRun(gs, sem, junk, [], r.s) == r;
    }
  }

  /** `flat` is the step function of the flat code. */
  ghost predicate StepsFlat(flat: (nat, MState) -> RunResult<MState>, gs: seq<StateReg>, sem: Semantics, junk: (MState, nat) -> Word,
                            code: seq<FlatInst>, labels: seq<nat>)
    requires FlatShaped(code)
  {
    forall pc: nat, m {:trigger flat(pc, m)} :: flat(pc, m) == FlatStep(gs, sem, junk, code, labels, pc, m)
  }

  lemma IterateOnce(flat: (nat, MState) -> RunResult<MState>, pc: nat, m: MState)
    ensures Iterate(flat, 1, pc, m) == flat(pc, m)
  {
    var r := flat(pc, m);
    if r.Running? {
      assert Iterate(flat, 0, r.b, r.s) == r;
    }
  }

  /** A final jump. */
  lemma JumpRuns(flat: (nat, MState) -> RunResult<MState>, gs: seq<StateReg>, sem: Semantics, junk: (MState, nat) -> Word, code: seq<FlatInst>, labels: seq<nat>,
                 ins: Inst, succs: seq<nat>, next: nat, pc: nat, m: MState) returns (k: nat)
    requires FlatShaped(code) && StepsFlat(flat, gs, sem, junk, code, labels)
    requires Shaped(ins) && HasTargets(ins, succs) && IsJump(ins) && forall j | 0 <= j < |succs| :: succs[j] < |labels|
    requires Placed(code, pc, EmitInst(ins, succs, next)) && (next < |labels| ==> labels[next] == pc + |EmitInst(ins, succs, next)|)
    ensures var r := MStep(gs, sem, junk, ins, m); r.Goto? && Leads(r, Iterate(flat, k, pc, m), succs, labels)
    ensures k == 0 ==> MStep(gs, sem, junk, ins, m).k < |succs| && succs[MStep(gs, sem, junk, ins, m).k] == next
  {
    var piece := EmitInst(ins, succs, next);
    var r := MStep(gs, sem, junk, ins, m);
    assert forall j | 0 <= j < |piece| :: code[pc + j] == piece[j];
    IterateOnce(flat, pc, m);
    if ins.op.Br? {
      k := if succs[0] == next then 0 else 1;
    } else if r.k == 0 || succs[1] == next {
      k := 1;
      assert code[pc] == piece[0];
    } else {
      k := 2;
      assert code[pc] == piece[0] && code[pc + 1] == piece[1];
      IterateOnce(flat, pc + 1, r.s);
      IterateSplit(flat, 1, 1, pc, m);
    }
  }

  /** Emitted code follows the straight-line code of its block; only falling through to the next block
      takes no instruction at all. */
  lemma {:induction false} CodeRuns(flat: (nat, MState) -> RunResult<MState>, gs: seq<StateReg>, sem: Semantics, junk: (MState, nat) -> Word,
                                    code: seq<FlatInst>, labels: seq<nat>, block: seq<Inst>, succs: seq<nat>, next: nat, pc: nat, m: MState) returns (k: nat)
    requires FlatShaped(code) && StepsFlat(flat, gs, sem, junk, code, labels) && forall j | 0 <= j < |succs| :: succs[j] < |labels|
    requires AllShaped(block) && forall j | 0 <= j < |block| :: HasTargets(block[j], succs)
    requires forall j | 0 <= j < |block| - 1 :: !IsJump(block[j])
    requires Placed(code, pc, EmitCode(block, succs, next)) && (next < |labels| ==> labels[next] == pc + |EmitCode(block, succs, next)|)
    ensures Leads(MRun(gs, sem, junk, block, m), Iterate(flat, k, pc, m), succs, labels)
    ensures var r := MRun(gs, sem, junk, block, m); k == 0 && !r.Next? ==> r.Goto? && r.k < |succs| && succs[r.k] == next
    decreases |block|
  {
    k := 0;
    if block != [] {
      var piece, rest := EmitInst(block[0], succs, next), EmitCode(block[1..], succs, next);
      assert EmitCode(block, succs, next) == piece + rest;
      if IsJump(block[0]) {
        assert block == [block[0]] && rest == [] && piece + rest == piece;
        OneInst(gs, sem, junk, block[0], m);
        k := JumpRuns(flat, gs, sem, junk, code, labels, block[0], succs, next, pc, m);
      } else {
        PlacedTail(code, pc, Plain(block[0]), rest);
        var r := MStep(gs, sem, junk, block[0], m);
        var k' := 0;
        if r.Next? {
          k' := CodeRuns(flat, gs, sem, junk, code, labels, block[1..], succs, next, pc + 1, r.s);
        }
        PlainFirst(flat, gs, sem, junk, code, labels, block, succs, pc, m, k');
        k := 1 + k';
      }
    }
  }

  lemma PlainFirst(flat: (nat, MState) -> RunResult<MState>, gs: seq<StateReg>, sem: Semantics, junk: (MState, nat) -> Word,
                   code: seq<FlatInst>, labels: seq<nat>, block: seq<Inst>, succs: seq<nat>, pc: nat, m: MState, k: nat)
    requires FlatShaped(code) && StepsFlat(flat, gs, sem, junk, code, labels) && AllShaped(block)
    requires block != [] && !IsJump(block[0]) && pc < |code| && code[pc] == Plain(block[0])
    requires var r := MStep(gs, sem, junk, block[0], m);
             if r.Next? then Leads(MRun(gs, sem, junk, block[1..], r.s), Iterate(flat, k, pc + 1, r.s), succs, labels) else k == 0
    ensures Leads(MRun(gs, sem, junk, block, m), Iterate(flat, 1 + k, pc, m), succs, labels)
  {
    PlainRuns(flat, gs, sem, junk, code, labels, block[0], pc, m);
    IterateSplit(flat, 1, k, pc, m);
  }

  lemma PlacedTail(code: seq<FlatInst>, pc: nat, first: FlatInst, rest: seq<FlatInst>)
    requires Placed(code, pc, [first] + rest)
    ensures pc < |code| && code[pc] == first && Placed(code, pc + 1, rest)
  {
    var piece := [first] + rest;
    assert code[pc] == code[pc..pc + |piece|][0];
    assert code[pc + 1..pc + 1 + |rest|] == code[pc..pc + |piece|][1..] == rest;
  }

  lemma PlainRuns(flat: (nat, MState) -> RunResult<MState>, gs: seq<StateReg>, sem: Semantics, junk: (MState, nat) -> Word,
                  code: seq<FlatInst>, labels: seq<nat>, ins: Inst, pc: nat, m: MState)
    requires FlatShaped(code) && StepsFlat(flat, gs, sem, junk, code, labels) && pc < |code| && code[pc] == Plain(ins) && Shaped(ins) && !IsJump(ins)
    ensures var r, f := MStep(gs, sem, junk, ins, m), Iterate(flat, 1, pc, m);
            !r.Goto? && (r.Next? ==> f == Running(pc + 1, r.s)) && (r.Leave? ==> f == Exited(r.exit, r.s))
  {
    IterateOnce(flat, pc, m);
    assert flat(pc, m) == FlatStep(gs, sem, junk, code, labels, pc, m);
  }

  // ---------- Whole runs ----------

  function RegionStep(gs: seq<StateReg>, sem: Semantics, junk: (MState, nat) -> Word, blocks: seq<Block>, b: nat, m: MState): RunResult<MState>
    requires RegionShaped(blocks)
  {
    if b >= |blocks| then Wild
    else
      match MRun(gs, sem, junk, blocks[b].code, m)
      case Next(_) => Wild
      case Goto(k, m') => if k < |blocks[b].succs| then Running(blocks[b].succs[k], m') else Wild
      case Leave(exit, m') => Exited(exit, m')
  }

  ghost predicate StepsRegion(step: (nat, MState) -> RunResult<MState>, gs: seq<StateReg>, sem: Semantics, junk: (MState, nat) -> Word, blocks: seq<Block>)
    requires RegionShaped(blocks)
  {
    forall b: nat, m {:trigger step(b, m)} :: step(b, m) == RegionStep(gs, sem, junk, blocks, b, m)
  }

  lemma {:induction false} RegionIterates(step: (nat, MState) -> RunResult<MState>, gs: seq<StateReg>, sem: Semantics, junk: (MState, nat) -> Word,
                                          blocks: seq<Block>, n: nat, b: nat, m: MState)
    requires RegionShaped(blocks) && StepsRegion(step, gs, sem, junk, blocks)
    ensures MRunRegion(gs, sem, junk, blocks, n, b, m) == Iterate(step, n, b, m)
    decreases n
  {
    if n > 0 {
      var r := step(b, m);
      if r.Running? {
        RegionIterates(step, gs, sem, junk, blocks, n - 1, r.b, r.s);
      }
    }
  }

  lemma BlockIsCovered(step: (nat, MState) -> RunResult<MState>, flat: (nat, MState) -> RunResult<MState>, gs: seq<StateReg>, sem: Semantics, junk: (MState, nat) -> Word,
                       blocks: seq<Block>, code: seq<FlatInst>, labels: seq<nat>, b: nat, m: MState) returns (k: nat)
    requires RegionShaped(blocks) && StepsRegion(step, gs, sem, junk, blocks)
    requires FlatShaped(code) && StepsFlat(flat, gs, sem, junk, code, labels)
    requires BlocksOk(blocks) && LaidOut(blocks, |blocks|, code, labels) && b < |labels|
    ensures Covers(step, flat, labels, b, m, k)
  {
    assert BlockOk(blocks[b], |blocks|);
    assert BlockLaidOut(blocks, |blocks|, code, labels, b);
    k := CodeRuns(flat, gs, sem, junk, code, labels, blocks[b].code, blocks[b].succs, b + 1, labels[b], m);
    assert step(b, m) == RegionStep(gs, sem, junk, blocks, b, m);
  }

  lemma LayoutSimulates(step: (nat, MState) -> RunResult<MState>, flat: (nat, MState) -> RunResult<MState>, gs: seq<StateReg>, sem: Semantics, junk: (MState, nat) -> Word,
                        blocks: seq<Block>, code: seq<FlatInst>, labels: seq<nat>)
    requires RegionShaped(blocks) && StepsRegion(step, gs, sem, junk, blocks)
    requires FlatShaped(code) && StepsFlat(flat, gs, sem, junk, code, labels)
    requires BlocksOk(blocks) && LaidOut(blocks, |blocks|, code, labels)
    ensures Simulates(step, flat, labels)
  {
    forall b: nat, m | b < |labels|
      ensures Covered(step, flat, labels, b, m)
    {
      var k := BlockIsCovered(step, flat, gs, sem, junk, blocks, code, labels, b, m);
    }
  }

  /** Runs up to `k` flat instructions. */
  function FlatRun(gs: seq<StateReg>, sem: Semantics, junk: (MState, nat) -> Word, code: seq<FlatInst>, labels: seq<nat>, k: nat, pc: nat, m: MState): RunResult<MState>
    requires FlatShaped(code)
  {
    Iterate((pc: nat, m: MState) => FlatStep(gs, sem, junk, code, labels, pc, m), k, pc, m)
  }

  lemma FlatStepKeepsReserved(gs: seq<StateReg>, sem: Semantics, junk: (MState, nat) -> Word, code: seq<FlatInst>, labels: seq<nat>, pc: nat, m: MState)
    requires FlatShaped(code) && FlatEncodable(code)
    ensures var f := FlatStep(gs, sem, junk, code, labels, pc, m); f.Wild? || KeepsReserved(m, f.s)
  {
    if pc < |code| && !code[pc].Jmp? {
      StepKeepsReserved(gs, sem, junk, code[pc].ins, m);
    }
  }

  /** However long the code runs, helpers included, the stack pointer, the memory base and the state
      pointer hold what they held when it was entered. */
  lemma {:induction false} IterateKeepsReserved(flat: (nat, MState) -> RunResult<MState>, k: nat, pc: nat, m: MState)
    requires forall pc: nat, m {:trigger flat(pc, m)} :: flat(pc, m).Wild? || KeepsReserved(m, flat(pc, m).s)
    ensures var f := Iterate(flat, k, pc, m); f.Wild? || KeepsReserved(m, f.s)
    decreases k
  {
    if k > 0 {
      var r := flat(pc, m);
      if r.Running? {
        IterateKeepsReserved(flat, k - 1, r.b, r.s);
      }
    }
  }

  lemma RunKeepsReserved(gs: seq<StateReg>, sem: Semantics, junk: (MState, nat) -> Word, code: seq<FlatInst>, labels: seq<nat>, k: nat, pc: nat, m: MState)
    requires FlatShaped(code) && FlatEncodable(code)
    ensures var f := FlatRun(gs, sem, junk, code, labels, k, pc, m); f.Wild? || KeepsReserved(m, f.s)
  {
    var flat := (pc: nat, m: MState) => FlatStep(gs, sem, junk, code, labels, pc, m);
    forall pc: nat, m ensures flat(pc, m).Wild? || KeepsReserved(m, flat(pc, m).s) {
      FlatStepKeepsReserved(gs, sem, junk, code, labels, pc, m);
    }
    IterateKeepsReserved(flat, k, pc, m);
  }

  /** Every run over blocks is a run of the flat code. */
  lemma LayoutFollows(gs: seq<StateReg>, sem: Semantics, junk: (MState, nat) -> Word, blocks: seq<Block>,
                      code: seq<FlatInst>, labels: seq<nat>, n: nat, b: nat, m: MState) returns (k: nat)
    requires RegionShaped(blocks) && FlatShaped(code) && BlocksOk(blocks) && LaidOut(blocks, |blocks|, code, labels) && b < |blocks|
    ensures SamePlace(MRunRegion(gs, sem, junk, blocks, n, b, m), FlatRun(gs, sem, junk, code, labels, k, labels[b], m), labels)
  {
    var step := (b: nat, m: MState) => RegionStep(gs, sem, junk, blocks, b, m);
    var flat := (pc: nat, m: MState) => FlatStep(gs, sem, junk, code, labels, pc, m);
    LayoutSimulates(step, flat, gs, sem, junk, blocks, code, labels);
    RegionIterates(step, gs, sem, junk, blocks, n, b, m);
    k := Follows(step, flat, labels, n, b, m);
  }

  /** Conversely, an exit of the flat code is an exit of the region, unless control leaves the region's
      blocks before. */
  lemma LayoutReflects(gs: seq<StateReg>, sem: Semantics, junk: (MState, nat) -> Word, blocks: seq<Block>,
                       code: seq<FlatInst>, labels: seq<nat>, k: nat, b: nat, m: MState) returns (n: nat)
    requires RegionShaped(blocks) && FlatShaped(code) && BlocksOk(blocks) && LaidOut(blocks, |blocks|, code, labels) && b < |blocks|
    requires FlatRun(gs, sem, junk, code, labels, k, labels[b], m).Exited?
    ensures var r := MRunRegion(gs, sem, junk, blocks, n, b, m); r.Wild? || r == FlatRun(gs, sem, junk, code, labels, k, labels[b], m)
  {
    var step := (b: nat, m: MState) => RegionStep(gs, sem, junk, blocks, b, m);
    var flat := (pc: nat, m: MState) => FlatStep(gs, sem, junk, code, labels, pc, m);
    LayoutSimulates(step, flat, gs, sem, junk, blocks, code, labels);
    n := Reflects(step, flat, labels, k, b, m);
    RegionIterates(step, gs, sem, junk, blocks, n, b, m);
  }
}
