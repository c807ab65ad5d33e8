/** An abstract amd64 machine: sixteen registers, the bytes of `CPUState` and of the spill frame, and
    guest memory.  It executes QuickIR instructions whose operands have been given host locations, in
    the way `dbt/qmc/qcg/qemit.cpp` emits them. */
module HostMachine {
  import opened Common
  import opened Qir
  import opened ArchTraits

  datatype MState = MState(regs: seq<Word>, cpu: seq<Byte>, frame: seq<Byte>, mem: Mem)

  // ---------- Slots ----------

  function LoadSlot(bs: seq<Byte>, offs: nat, t: VType): Word {
    if offs + Size(t) > |bs| then ZERO
    else
      match t
      case I8 => Word(bs[offs], 0, 0, 0)
      case I16 => Word(bs[offs], bs[offs + 1], 0, 0)
      case I32 => Word(bs[offs], bs[offs + 1], bs[offs + 2], bs[offs + 3])
  }

  function StoreSlot(bs: seq<Byte>, offs: nat, t: VType, w: Word): (bs': seq<Byte>)
    ensures |bs'| == |bs|
  {
    if offs + Size(t) > |bs| then bs
    else
      match t
      case I8 => bs[offs := w.b0]
      case I16 => bs[offs := w.b0][offs + 1 := w.b1]
      case I32 => bs[offs := w.b0][offs + 1 := w.b1][offs + 2 := w.b2][offs + 3 := w.b3]
  }

  predicate Disjoint(o1: nat, t1: VType, o2: nat, t2: VType) {
    o1 + Size(t1) <= o2 || o2 + Size(t2) <= o1
  }

  lemma StoreThenLoad(bs: seq<Byte>, offs: nat, t: VType, w: Word)
    requires offs + Size(t) <= |bs|
    ensures LoadSlot(StoreSlot(bs, offs, t, w), offs, t) == Trunc(t, w)
  {
  }

  lemma StoreElsewhere(bs: seq<Byte>, o1: nat, t1: VType, w: Word, o2: nat, t2: VType)
    requires Disjoint(o1, t1, o2, t2)
    ensures LoadSlot(StoreSlot(bs, o1, t1, w), o2, t2) == LoadSlot(bs, o2, t2)
  {
  }

  lemma LoadIsTruncated(bs: seq<Byte>, offs: nat, t: VType)
    ensures Trunc(t, LoadSlot(bs, offs, t)) == LoadSlot(bs, offs, t)
  {
  }

  // ---------- Registers and encodings ----------

  // What amd64 and its calling convention fix is written here with register numbers and not through the
  // tables of the register allocator.

  /** The stack pointer, the memory base and the state pointer: the emitted code addresses spill slots,
      guest memory and `CPUState` through them. */
  predicate Reserved(p: nat) {
    p == 4 || p == 5 || p == 13
  }

  /** The registers that a called function need not preserve (System V AMD64 ABI, section 3.2.1). */
  predicate CallerSaved(p: nat) {
    p == 0 || p == 1 || p == 2 || 6 <= p <= 11
  }

  predicate Free(opr: Operand) {
    !opr.VGPR? && (opr.PGPR? ==> opr.p < 16 && !Reserved(opr.p))
  }

  /** A 32-bit immediate that sign extension leaves alone. */
  predicate IsImm32(opr: Operand) {
    opr.Const? ==> opr.val.b3 < 128
  }

  predicate InRegister(opr: Operand) {
    opr.PGPR?
  }

  /** An instruction that amd64 has: two-address arithmetic, shift counts in `cl` or immediate, at most one
      memory operand, compared and stored values in registers; indirect branches go through `rsi`, where
      the stubs expect the target.  No operand is a reserved register. */
  predicate Encodable(ins: Inst) {
    && Shaped(ins) && (forall k | 0 <= k < |ins.i| :: Free(ins.i[k])) && (forall k | 0 <= k < |ins.o| :: Free(ins.o[k]))
    && match ins.op
       case Mov => InRegister(ins.o[0]) || (ins.o[0].Slot? && !ins.i[0].Slot?)
       case Binop(bop) =>
         && InRegister(ins.o[0]) && ins.i[0] == ins.o[0] && !ins.i[1].Slot?
         && (if bop.Sll? || bop.Srl? || bop.Sra? then ins.i[1].PGPR? ==> ins.i[1].p == 1 else bop.And? || IsImm32(ins.i[1]))
       case Setcc(_) => InRegister(ins.o[0]) && InRegister(ins.i[0]) && !ins.i[1].Slot? && IsImm32(ins.i[1])
       case Brcc(_) => InRegister(ins.i[0]) && !ins.i[1].Slot? && IsImm32(ins.i[1])
       case GBrind => InRegister(ins.i[0]) && ins.i[0].p == 6
       case VMLoad(_, _) => InRegister(ins.o[0]) && !ins.i[0].Slot?
       case VMStore(_) => !ins.i[0].Slot? && InRegister(ins.i[1])
       case Hcall(_) => ins.i[0].Const?
       case Br => true
       case GBr(_) => true
  }

  predicate AllEncodable(code: seq<Inst>) {
    forall k | 0 <= k < |code| :: Encodable(code[k])
  }

  // ---------- Operands ----------

  /** Byte and word moves leave the upper part of a register alone. */
  function Merge(t: VType, old_: Word, w: Word): Word {
    match t
    case I8 => Word(w.b0, old_.b1, old_.b2, old_.b3)
    case I16 => Word(w.b0, w.b1, old_.b2, old_.b3)
    case I32 => w
  }

  function MRead(m: MState, opr: Operand): Word {
    match opr
    case Const(ty, val) => Trunc(ty, val)
    case PGPR(ty, p) => if p < |m.regs| then Trunc(ty, m.regs[p]) else ZERO
    case Slot(global, ty, offs) => LoadSlot(if global then m.cpu else m.frame, offs, ty)
    case VGPR(_, _) => ZERO
  }

  function MWrite(m: MState, opr: Operand, val: Word): MState {
    match opr
    case PGPR(ty, p) => if p < |m.regs| then m.(regs := m.regs[p := Merge(ty, m.regs[p], val)]) else m
    case Slot(global, ty, offs) =>
      if global then m.(cpu := StoreSlot(m.cpu, offs, ty, val)) else m.(frame := StoreSlot(m.frame, offs, ty, val))
    case _ => m
  }

  // ---------- Instructions ----------

  /** Two-address arithmetic reads its first input from the destination. */
  function MInputs(m: MState, ins: Inst): (a: seq<Word>)
    requires Shaped(ins)
    ensures |a| == |ins.i|
  {
    seq(|ins.i|, k requires 0 <= k < |ins.i| => if ins.op.Binop? && k == 0 then MRead(m, ins.o[0]) else MRead(m, ins.i[k]))
  }

  /** Emit_setcc: the destination is cleared first unless it is also compared, and widened afterwards
      in that case. */
  function SetccSequence(sem: Semantics, cc: CondCode, p: nat, a: Operand, b: Operand, m: MState): MState
    requires p < |m.regs|
  {
    var aliased := (a.PGPR? && a.p == p) || (b.PGPR? && b.p == p);
    var m1 := if aliased then m else m.(regs := m.regs[p := ZERO]);
    var bit := if sem.holds(cc, MRead(m1, a), MRead(m1, b)) then ONE else ZERO;
    var m2 := m1.(regs := m1.regs[p := Merge(I8, m1.regs[p], bit)]);
    if aliased then m2.(regs := m2.regs[p := Trunc(I8, m2.regs[p])]) else m2
  }

  /** The sequence leaves exactly the comparison result in the destination. */
  lemma SetccIsWrite(sem: Semantics, cc: CondCode, p: nat, a: Operand, b: Operand, m: MState)
    requires p < |m.regs|
    ensures SetccSequence(sem, cc, p, a, b, m) ==
            MWrite(m, PGPR(I32, p), if sem.holds(cc, MRead(m, a), MRead(m, b)) then ONE else ZERO)
  {
  }

  function MGlobals(gs: seq<StateReg>, m: MState): (s: seq<Word>)
    ensures |s| == |gs| && forall g | 0 <= g < |s| :: s[g] == LoadSlot(m.cpu, gs[g].offs, gs[g].ty)
  {
    seq(|gs|, g requires 0 <= g < |gs| => LoadSlot(m.cpu, gs[g].offs, gs[g].ty))
  }

  function StoreGlobals(gs: seq<StateReg>, cpu: seq<Byte>, vals: seq<Word>): (cpu': seq<Byte>)
    requires |vals| == |gs|
    ensures |cpu'| == |cpu|
  {
    if gs == [] then cpu
    else
      var n := |gs| - 1;
      StoreSlot(StoreGlobals(gs[..n], cpu, vals[..n]), gs[n].offs, gs[n].ty, vals[n])
  }

  /** What a called helper leaves in the caller-saved registers is unknown. */
  function Clobber(m: MState, junk: (MState, nat) -> Word): (r: seq<Word>)
    ensures |r| == |m.regs|
    ensures forall p | 0 <= p < |r| :: r[p] == if CallerSaved(p) then junk(m, p) else m.regs[p]
  {
    seq(|m.regs|, p requires 0 <= p < |m.regs| => if CallerSaved(p) then junk(m, p) else m.regs[p])
  }

  function MWithGlobals(gs: seq<StateReg>, m: MState, globals: seq<Word>, mem: Mem, junk: (MState, nat) -> Word): MState {
    MState(Clobber(m, junk), StoreGlobals(gs, m.cpu, Fit(gs, globals)), m.frame, mem)
  }

  /** One instruction on host locations; `junk` is what helpers leave in caller-saved registers. */
  function MStep(gs: seq<StateReg>, sem: Semantics, junk: (MState, nat) -> Word, ins: Inst, m: MState): Result<MState>
    requires Shaped(ins)
  {
    match Act(sem, ins.op, MInputs(m, ins), m.mem)
    case Write(val) =>
      if |ins.o| != 1 then Next(m)
      else if ins.op.Setcc? && ins.o[0].PGPR? && ins.o[0].p < |m.regs|
        then Next(SetccSequence(sem, ins.op.cc, ins.o[0].p, ins.i[0], ins.i[1], m))
      else Next(MWrite(m, ins.o[0], val))
    case SetMem(mem) => Next(m.(mem := mem))
    case Jump(k) => Goto(k, m)
    case Stop(exit) => Leave(exit, m)
    case Call(stub, arg) =>
      match sem.helper(stub, arg, MGlobals(gs, m), m.mem)
      case Returned(globals, mem) => Next(MWithGlobals(gs, m, globals, mem, junk))
      case Stopped(exit, globals, mem) => Leave(exit, MWithGlobals(gs, m, globals, mem, junk))
  }

  function MRun(gs: seq<StateReg>, sem: Semantics, junk: (MState, nat) -> Word, code: seq<Inst>, m: MState): Result<MState>
    requires AllShaped(code)
  {
    if code == [] then Next(m)
    else
      var r := MStep(gs, sem, junk, code[0], m);
      if r.Next? then MRun(gs, sem, junk, code[1..], r.s) else r
  }

  lemma {:induction false} MRunConcat(gs: seq<StateReg>, sem: Semantics, junk: (MState, nat) -> Word, c1: seq<Inst>, c2: seq<Inst>, m: MState)
    requires (forall k | 0 <= k < |c1| :: Shaped(c1[k])) && (forall k | 0 <= k < |c2| :: Shaped(c2[k]))
    ensures forall k | 0 <= k < |c1 + c2| :: Shaped((c1 + c2)[k])
    ensures MRun(gs, sem, junk, c1 + c2, m) ==
            var r := MRun(gs, sem, junk, c1, m); if r.Next? then MRun(gs, sem, junk, c2, r.s) else r
  {
    if c1 == [] {
      assert c1 + c2 == c2;
    } else {
      assert (c1 + c2)[1..] == c1[1..] + c2;
      var r := MStep(gs, sem, junk, c1[0], m);
      if r.Next? {
        MRunConcat(gs, sem, junk, c1[1..], c2, r.s);
      }
    }
  }

  /** The reserved registers hold what they held. */
  ghost predicate KeepsReserved(m: MState, m': MState) {
    |m'.regs| == |m.regs| && forall p: nat {:trigger m'.regs[p]} | p < |m.regs| && Reserved(p) :: m'.regs[p] == m.regs[p]
  }

  /** No instruction that amd64 has changes a reserved register, and neither does a called helper. */
  lemma StepKeepsReserved(gs: seq<StateReg>, sem: Semantics, junk: (MState, nat) -> Word, ins: Inst, m: MState)
    requires Encodable(ins)
    ensures KeepsReserved(m, MStep(gs, sem, junk, ins, m).s)
  {
    var act := Act(sem, ins.op, MInputs(m, ins), m.mem);
    if act.Write? && |ins.o| == 1 {
      assert Free(ins.o[0]);
      if ins.op.Setcc? && ins.o[0].PGPR? && ins.o[0].p < |m.regs| {
        SetccIsWrite(sem, ins.op.cc, ins.o[0].p, ins.i[0], ins.i[1], m);
      }
    }
  }

  /** Runs up to `n` blocks of allocated code, as `QRunRegion` does for virtual registers. */
  function MRunRegion(gs: seq<StateReg>, sem: Semantics, junk: (MState, nat) -> Word, blocks: seq<Block>, n: nat, b: nat, m: MState): RunResult<MState>
    requires RegionShaped(blocks)
  {
    if n == 0 then Running(b, m)
    else if b >= |blocks| then Wild
    else
      match MRun(gs, sem, junk, blocks[b].code, m)
      case Next(_) => Wild
      case Goto(k, m') => if k < |blocks[b].succs| then MRunRegion(gs, sem, junk, blocks, n - 1, blocks[b].succs[k], m') else Wild
      case Leave(exit, m') => Exited(exit, m')
  }

  // ---------- Moves between locations ----------

  predicate IsMove(ins: Inst) {
    ins.op.Mov? && |ins.o| == 1 && |ins.i| == 1 && CanMove(ins.o[0], ins.i[0])
  }

  /** Between registers that are not reserved, or between one of them and a slot. */
  predicate CanMove(d: Operand, s: Operand) {
    Free(d) && Free(s) && (InRegister(d) || (d.Slot? && !s.Slot?))
  }

  lemma MoveIsEncodable(ins: Inst)
    requires IsMove(ins)
    ensures Encodable(ins)
  {
  }

  predicate AllMoves(code: seq<Inst>) {
    forall k | 0 <= k < |code| :: IsMove(code[k])
  }

  function RunMoves(code: seq<Inst>, m: MState): MState
    requires AllMoves(code)
  {
    if code == [] then m else RunMoves(code[1..], MWrite(m, code[0].o[0], MRead(m, code[0].i[0])))
  }

  lemma {:induction false} RunMovesConcat(c1: seq<Inst>, c2: seq<Inst>, m: MState)
    requires AllMoves(c1) && AllMoves(c2)
    ensures AllMoves(c1 + c2) && RunMoves(c1 + c2, m) == RunMoves(c2, RunMoves(c1, m))
  {
    if c1 == [] {
      assert c1 + c2 == c2;
    } else {
      assert (c1 + c2)[1..] == c1[1..] + c2;
      RunMovesConcat(c1[1..], c2, MWrite(m, c1[0].o[0], MRead(m, c1[0].i[0])));
    }
  }

  lemma {:induction false} MovesRun(gs: seq<StateReg>, sem: Semantics, junk: (MState, nat) -> Word, code: seq<Inst>, m: MState)
    requires AllMoves(code)
    ensures (forall k | 0 <= k < |code| :: Shaped(code[k])) && MRun(gs, sem, junk, code, m) == Next(RunMoves(code, m))
  {
    if code != [] {
      var m' := MWrite(m, code[0].o[0], MRead(m, code[0].i[0]));
      assert MStep(gs, sem, junk, code[0], m) == Next(m');
      MovesRun(gs, sem, junk, code[1..], m');
    }
  }

  /** Moves that write no register in `keep`. */
  predicate WritesOutside(code: seq<Inst>, keep: set<nat>)
    requires AllMoves(code)
  {
    forall k | 0 <= k < |code| :: code[k].o[0].PGPR? ==> code[k].o[0].p !in keep
  }

  lemma {:induction false} KeptRegisters(code: seq<Inst>, keep: set<nat>, m: MState, p: nat)
    requires AllMoves(code) && WritesOutside(code, keep) && p in keep && p < |m.regs|
    ensures |RunMoves(code, m).regs| == |m.regs| && RunMoves(code, m).regs[p] == m.regs[p]
    decreases |code|
  {
    if code != [] {
      KeptRegisters(code[1..], keep, MWrite(m, code[0].o[0], MRead(m, code[0].i[0])), p);
    }
  }

  // ---------- Layout of CPUState ----------

  /** The global registers occupy disjoint parts of `CPUState`. */
  ghost predicate LayoutOk(gs: seq<StateReg>, size: nat) {
    && (forall g | 0 <= g < |gs| :: gs[g].offs + Size(gs[g].ty) <= size)
    && (forall g, h | 0 <= g < |gs| && 0 <= h < |gs| && g != h :: Disjoint(gs[g].offs, gs[g].ty, gs[h].offs, gs[h].ty))
  }

  lemma {:induction false} StoredGlobal(gs: seq<StateReg>, cpu: seq<Byte>, vals: seq<Word>, g: nat)
    requires |vals| == |gs| && LayoutOk(gs, |cpu|) && g < |gs|
    ensures LoadSlot(StoreGlobals(gs, cpu, vals), gs[g].offs, gs[g].ty) == Trunc(gs[g].ty, vals[g])
  {
    var n := |gs| - 1;
    var rest := StoreGlobals(gs[..n], cpu, vals[..n]);
    if g == n {
      StoreThenLoad(rest, gs[n].offs, gs[n].ty, vals[n]);
    } else {
      StoreElsewhere(rest, gs[n].offs, gs[n].ty, vals[n], gs[g].offs, gs[g].ty);
      StoredGlobal(gs[..n], cpu, vals[..n], g);
    }
  }

  /** Distinct globals have distinct offsets, so a slot belongs to one of them. */
  lemma {:induction false} SlotOwner(gs: seq<StateReg>, size: nat, g: nat)
    requires LayoutOk(gs, size) && g < |gs|
    ensures GlobalAt(gs, gs[g].offs) == Some(g)
  {
    var n := |gs| - 1;
    if g != n {
      assert Disjoint(gs[g].offs, gs[g].ty, gs[n].offs, gs[n].ty);
      SlotOwner(gs[..n], size, g);
    }
  }
}
