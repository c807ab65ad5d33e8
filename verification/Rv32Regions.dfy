/** Regions of translated code: whole runs of a region and of the interpreter, and the form that code
    generation asks for. */
module Rv32Regions {
  import opened Common
  import opened Qir
  import opened Rv32
  import opened Rv32Emission
  import opened Rv32Blocks
  import QSel

  /** Every block is the translation of the code at its address. */
  ghost predicate RegionFor(em: Emitter, blocks: seq<Block>, ips: seq<Word>, plans: seq<Plan>, size: nat) {
    && |blocks| == |ips| == |plans|
    && forall b: nat {:trigger plans[b]} | b < |plans| :: BlockFor(em, ips, blocks[b], ips[b], plans[b]) && Fits(em, ips[b], plans[b], size)
  }

  /** No block contains a load into x0 without offset. */
  ghost predicate NoClobbers(em: Emitter, ips: seq<Word>, plans: seq<Plan>)
    requires |ips| == |plans|
  {
    forall b: nat {:trigger plans[b]} | b < |plans| :: NoClobber(em, ips[b], Length(plans[b]))
  }

  /** A run of the region and the interpreter are at the same address or have stopped in the same way. */
  ghost predicate RunArrived(ips: seq<Word>, size: nat, r: RunResult<QState>, s: StepResult) {
    match r
    case Running(b, q) => b < |ips| && Arrived(s, ips[b], q) && |q.vregs| == size
    case Exited(exit, q) =>
      if exit.Branch? then Arrived(s, exit.target, q) else !s.Stepped? && !Unaligned(s) && Follows(size, Leave(exit, q), s)
    case Wild => false
  }

  lemma RegionIsShaped(em: Emitter, blocks: seq<Block>, ips: seq<Word>, plans: seq<Plan>, size: nat)
    requires EmitterOk(em) && RegionFor(em, blocks, ips, plans, size)
    ensures RegionShaped(blocks)
  {
    forall b: nat | b < |blocks| ensures AllShaped(blocks[b].code) {
      var p := plans[b];
      assert BlockFor(em, ips, blocks[b], ips[b], p);
      if p.Run? {
        StraightShaped(em, ips[b], p.n, p.tmp);
        if !p.cut {
          var a, tmp := AddrOf(em, ips[b], p.n), p.tmp + TempsUsed(em, ips[b], p.n);
          var end := EndAlone(em, ips, blocks[b], StraightCode(em, ips[b], p.n, p.tmp), a, tmp);
          EndShaped(em, ips, end, a, tmp);
        }
      }
    }
  }

  /** `run` is the meaning of QuickIR code. */
  ghost predicate Means(em: Emitter, sem: Semantics) {
    forall code, q {:trigger em.run(code, q)} | AllShaped(code) :: em.run(code, q) == QRun(StateRegs(), sem, code, q)
  }

  lemma EmitterMeans(ar: Arith, code: Code)
    ensures Means(EmitterOf(ar, code), GuestSem(ar, code.decode))
  {
  }

  /** `QRunRegion`, for any meaning of straight-line code. */
  function RunBlocks(run: (seq<Inst>, QState) -> Result<QState>, blocks: seq<Block>, n: nat, b: nat, q: QState): RunResult<QState> {
    if n == 0 then Running(b, q)
    else if b >= |blocks| then Wild
    else
      match run(blocks[b].code, q)
      case Next(_) => Wild
      case Goto(k, q') => if k < |blocks[b].succs| then RunBlocks(run, blocks, n - 1, blocks[b].succs[k], q') else Wild
      case Leave(exit, q') => Exited(exit, q')
  }

  lemma {:induction false} RunBlocksIs(em: Emitter, sem: Semantics, blocks: seq<Block>, n: nat, b: nat, q: QState)
    requires RegionShaped(blocks) && Means(em, sem)
    ensures RunBlocks(em.run, blocks, n, b, q) == QRunRegion(StateRegs(), sem, blocks, n, b, q)
    decreases n
  {
    if n > 0 && b < |blocks| {
      var r := QRun(StateRegs(), sem, blocks[b].code, q);
      assert em.run(blocks[b].code, q) == r;
      if r.Goto? && r.k < |blocks[b].succs| {
        RunBlocksIs(em, sem, blocks, n - 1, blocks[b].succs[r.k], r.s);
      }
    }
  }

  /** Translated code starts at aligned addresses; blocks that only leave the region may name others. */
  ghost predicate AlignedRuns(ips: seq<Word>, plans: seq<Plan>)
    requires |ips| == |plans|
  {
    forall b: nat {:trigger plans[b]} | b < |plans| && plans[b].Run? :: !Misaligned(ips[b])
  }

  /** A misaligned target is left for at once. */
  lemma LeavesAtOnce(em: Emitter, blocks: seq<Block>, ips: seq<Word>, plans: seq<Plan>, size: nat, n: nat, b: nat, q: QState, s: StepResult)
    requires EmitterOk(em) && RegionFor(em, blocks, ips, plans, size) && b < |blocks| && plans[b].Exit? && Arrived(s, ips[b], q)
    ensures RunArrived(ips, |q.vregs|, RunBlocks(em.run, blocks, n, b, q), s)
  {
    assert BlockFor(em, ips, blocks[b], ips[b], plans[b]);
    assert em.run([Inst(GBr(ips[b]), [], [])], q) == Leave(Branch(ips[b]), q);
  }

  /** Where the interpreter gets to while the region runs.  The second case needs a range that starts at a
      misaligned address. */
  ghost predicate RunFollowed(ips: seq<Word>, plans: seq<Plan>, size: nat, r: RunResult<QState>, s: StepResult)
    requires |ips| == |plans|
  {
    RunArrived(ips, size, r, s) || (Unaligned(s) && !AlignedRuns(ips, plans))
  }

  lemma {:induction false} BlocksFollow(em: Emitter, blocks: seq<Block>, ips: seq<Word>, plans: seq<Plan>, size: nat,
                                        n: nat, b: nat, q: QState, c: Cpu) returns (k: nat)
    requires EmitterOk(em) && RegionFor(em, blocks, ips, plans, size) && NoClobbers(em, ips, plans)
    requires b < |blocks| && Same(c, q) && c.gip == ips[b] && !Misaligned(ips[b]) && size <= |q.vregs|
    ensures RunFollowed(ips, plans, |q.vregs|, RunBlocks(em.run, blocks, n, b, q), Repeat(em.step, k, c))
    ensures Unaligned(Repeat(em.step, k, c)) || !RunBlocks(em.run, blocks, n, b, q).Running? || k >= n
    decreases n
  {
    k := 0;
    if n > 0 {
      k := FirstBlock(em, blocks, ips, plans, size, b, q, c);
      var r := em.run(blocks[b].code, q);
      var s := Repeat(em.step, k, c);
      RunOfFirst(em.run, blocks, n, b, q);
      if r.Leave? {
        LeaveArrived(em, ips, blocks[b].succs, |q.vregs|, c, k, r);
      } else {
        var b' := blocks[b].succs[r.k];
        assert Arrives(em, c, k, ips[b'], r.s);
        if !Unaligned(s) {
          var k' := BlocksFollow(em, blocks, ips, plans, size, n - 1, b', r.s, s.cpu);
          RepeatSplit(em.step, k, k', c);
          k := k + k';
        } else if plans[b'].Exit? {
          LeavesAtOnce(em, blocks, ips, plans, size, n - 1, b', r.s, s);
        }
      }
    }
  }

  lemma FirstBlock(em: Emitter, blocks: seq<Block>, ips: seq<Word>, plans: seq<Plan>, size: nat, b: nat, q: QState, c: Cpu) returns (k: nat)
    requires EmitterOk(em) && RegionFor(em, blocks, ips, plans, size) && NoClobbers(em, ips, plans)
    requires b < |blocks| && Same(c, q) && c.gip == ips[b] && !Misaligned(ips[b]) && size <= |q.vregs|
    ensures Reaches(em, ips, blocks[b].succs, |q.vregs|, c, k, em.run(blocks[b].code, q)) && (em.run(blocks[b].code, q).Goto? ==> k > 0)
  {
    assert BlockFor(em, ips, blocks[b], ips[b], plans[b]);
    k := BlockReaches(em, ips, blocks[b], ips[b], plans[b], q, c);
  }

  lemma RunOfFirst(run: (seq<Inst>, QState) -> Result<QState>, blocks: seq<Block>, n: nat, b: nat, q: QState)
    requires n > 0 && b < |blocks|
    ensures var r := run(blocks[b].code, q);
            && (r.Leave? ==> RunBlocks(run, blocks, n, b, q) == Exited(r.exit, r.s))
            && (r.Goto? && r.k < |blocks[b].succs| ==> RunBlocks(run, blocks, n, b, q) == RunBlocks(run, blocks, n - 1, blocks[b].succs[r.k], r.s))
  {
  }

  /** However many blocks a translated region runs, the interpreter gets to the same address or stops in
      the same way, with the same registers and memory.  The region goes to a misaligned address exactly
      where the interpreter refuses to.  Every block takes it at least one instruction further. */
  lemma RegionFollows(em: Emitter, sem: Semantics, blocks: seq<Block>, ips: seq<Word>, plans: seq<Plan>, size: nat,
                      n: nat, b: nat, q: QState, c: Cpu) returns (k: nat)
    requires EmitterOk(em) && Means(em, sem) && RegionFor(em, blocks, ips, plans, size) && NoClobbers(em, ips, plans)
    requires b < |blocks| && Same(c, q) && c.gip == ips[b] && !Misaligned(ips[b]) && size <= |q.vregs|
    ensures RegionShaped(blocks)
    ensures RunFollowed(ips, plans, |q.vregs|, QRunRegion(StateRegs(), sem, blocks, n, b, q), Repeat(em.step, k, c))
    ensures Unaligned(Repeat(em.step, k, c)) || !QRunRegion(StateRegs(), sem, blocks, n, b, q).Running? || k >= n
  {
    RegionIsShaped(em, blocks, ips, plans, size);
    k := BlocksFollow(em, blocks, ips, plans, size, n, b, q, c);
    RunBlocksIs(em, sem, blocks, n, b, q);
  }

  lemma LeaveArrived(em: Emitter, ips: seq<Word>, succs: seq<nat>, size: nat, c: Cpu, k: nat, r: Result<QState>)
    requires Reaches(em, ips, succs, size, c, k, r) && r.Leave?
    ensures RunArrived(ips, size, Exited(r.exit, r.s), Repeat(em.step, k, c))
  {
  }

  // ---------- Well-formed QuickIR ----------

  /** The registers of a translated region. */
  ghost predicate GuestInfo(info: VRegsInfo) {
    info.globals == StateRegs() && forall k | 0 <= k < |info.locals| :: info.locals[k] == I32
  }

  lemma OperandsReadable(info: VRegsInfo, defined: set<nat>, r: Reg, ty: VType, v: Word)
    requires GuestInfo(info)
    ensures Readable(info, SLOTS, defined, Gprop(r, ty)) && Readable(info, SLOTS, defined, Vconst(v))
    ensures r != 0 ==> Writable(info, SLOTS, Mov, Vgpr(r)) && info.IsGlobal(r - 1)
  {
    if r != 0 {
      assert info.TypeOf(r - 1) == I32;
    }
  }

  lemma TempIs(info: VRegsInfo, tmp: nat)
    requires GuestInfo(info) && NUM_GLOBALS <= tmp < info.NumAll()
    ensures info.TypeOf(tmp) == I32 && !info.IsGlobal(tmp) && tmp !in SLOTS
  {
  }

  /** A list without transfers of control that is well-formed whatever is defined before it. */
  ghost predicate Sound(info: VRegsInfo, defined: set<nat>, code: seq<Inst>) {
    WellFormedCode(info, SLOTS, defined, code) && QSel.NoTerminators(code)
  }

  lemma SoundOne(info: VRegsInfo, defined: set<nat>, ins: Inst)
    requires WellFormed(info, SLOTS, defined, ins) && !ins.op.IsTerminator()
    ensures Sound(info, defined, [ins]) && QSel.DefinesAll(info, defined, [ins]) == Defines(info, defined, ins)
  {
    assert [ins][1..] == [];
  }

  lemma SoundConcat(info: VRegsInfo, defined: set<nat>, a: seq<Inst>, b: seq<Inst>)
    requires Sound(info, defined, a) && Sound(info, QSel.DefinesAll(info, defined, a), b)
    ensures Sound(info, defined, a + b)
    ensures QSel.DefinesAll(info, defined, a + b) == QSel.DefinesAll(info, QSel.DefinesAll(info, defined, a), b)
  {
    QSel.WellFormedConcat(info, SLOTS, defined, a, b);
  }

  lemma AddWellFormed(ar: Arith, info: VRegsInfo, defined: set<nat>, d: Operand, a: Operand, b: Operand)
    requires a.ty == b.ty == I32 && d.ty == I32 && d.VGPR? && Writable(info, SLOTS, Mov, d)
    requires Readable(info, SLOTS, defined, a) && Readable(info, SLOTS, defined, b)
    ensures WellFormed(info, SLOTS, defined, CreateAdd(ar, d, a, b)) && CreateAdd(ar, d, a, b).o == [d]
  {
  }

  lemma AluWellFormed(ar: Arith, info: VRegsInfo, defined: set<nat>, aop: AluOp, d: Operand, a: Operand, b: Operand)
    requires a.ty == b.ty == I32 && d.ty == I32 && d.VGPR? && Writable(info, SLOTS, Mov, d)
    requires Readable(info, SLOTS, defined, a) && Readable(info, SLOTS, defined, b)
    ensures WellFormed(info, SLOTS, defined, CreateAlu(ar, aop, d, a, b)) && CreateAlu(ar, aop, d, a, b).o == [d]
    ensures !CreateAlu(ar, aop, d, a, b).op.IsTerminator()
  {
    AddWellFormed(ar, info, defined, d, a, b);
  }

  lemma SetsRegSound(info: VRegsInfo, defined: set<nat>, rd: Reg, ins: Inst)
    requires rd != 0 ==> WellFormed(info, SLOTS, defined, ins) && !ins.op.IsTerminator()
    ensures Sound(info, defined, SetsReg(rd, ins)) && defined <= QSel.DefinesAll(info, defined, SetsReg(rd, ins))
  {
    if rd != 0 {
      SoundOne(info, defined, ins);
    }
  }

  lemma AluSound(ar: Arith, info: VRegsInfo, defined: set<nat>, aop: AluOp, rd: Reg, a: Operand, b: Operand)
    requires GuestInfo(info) && a.ty == b.ty == I32 && Readable(info, SLOTS, defined, a) && Readable(info, SLOTS, defined, b)
    ensures Sound(info, defined, AluCode(ar, aop, rd, a, b))
  {
    var d := VGPR(I32, if rd == 0 then 0 else rd - 1);
    OperandsReadable(info, defined, if rd == 0 then 1 else rd, I32, ZERO);
    AluWellFormed(ar, info, defined, aop, d, a, b);
    SetsRegSound(info, defined, rd, CreateAlu(ar, aop, d, a, b));
  }

  lemma ConstSound(info: VRegsInfo, defined: set<nat>, rd: Reg, v: Word)
    requires GuestInfo(info)
    ensures Sound(info, defined, ConstCode(rd, v))
  {
    var d := VGPR(I32, if rd == 0 then 0 else rd - 1);
    OperandsReadable(info, defined, if rd == 0 then 1 else rd, I32, v);
    SetsRegSound(info, defined, rd, MakeMov(d, Vconst(v)));
  }

  lemma PreSideeffSound(info: VRegsInfo, defined: set<nat>, ip: Word)
    requires GuestInfo(info)
    ensures Sound(info, defined, [PreSideeff(ip)]) && QSel.DefinesAll(info, defined, [PreSideeff(ip)]) == defined
  {
    SlotOfIp(StateRegs());
    SoundOne(info, defined, PreSideeff(ip));
  }

  lemma AddressSound(ar: Arith, info: VRegsInfo, defined: set<nat>, rs1: Reg, imm: Word, tmp: nat)
    requires GuestInfo(info) && NUM_GLOBALS <= tmp && (imm != ZERO ==> tmp < info.NumAll())
    ensures var (pre, addr) := Address(ar, rs1, imm, tmp);
            && Sound(info, defined, pre) && addr.ty == I32
            && Readable(info, SLOTS, QSel.DefinesAll(info, defined, pre), addr)
            && (imm != ZERO ==> Writable(info, SLOTS, Mov, addr) && addr.VGPR?)
  {
    OperandsReadable(info, defined, rs1, I32, imm);
    if imm != ZERO {
      TempIs(info, tmp);
      var d := VGPR(I32, tmp);
      AddWellFormed(ar, info, defined, d, Gprop(rs1, I32), Vconst(imm));
      SoundOne(info, defined, CreateAdd(ar, d, Gprop(rs1, I32), Vconst(imm)));
    }
  }

  lemma AccessSound(ar: Arith, info: VRegsInfo, defined: set<nat>, rs1: Reg, imm: Word, tmp: nat, ip: Word, last: Inst)
    requires GuestInfo(info) && NUM_GLOBALS <= tmp && (imm != ZERO ==> tmp < info.NumAll()) && !last.op.IsTerminator()
    requires var (pre, addr) := Address(ar, rs1, imm, tmp); WellFormed(info, SLOTS, QSel.DefinesAll(info, defined, pre), last)
    ensures var (pre, addr) := Address(ar, rs1, imm, tmp); Sound(info, defined, [PreSideeff(ip)] + pre + [last])
  {
    var (pre, addr) := Address(ar, rs1, imm, tmp);
    PreSideeffSound(info, defined, ip);
    AddressSound(ar, info, defined, rs1, imm, tmp);
    SoundConcat(info, defined, [PreSideeff(ip)], pre);
    SoundOne(info, QSel.DefinesAll(info, defined, pre), last);
    SoundConcat(info, defined, [PreSideeff(ip)] + pre, [last]);
  }

  lemma LoadSound(ar: Arith, info: VRegsInfo, defined: set<nat>, sz: VType, sgn: VSign, rd: Reg, rs1: Reg, imm: Word, ip: Word, tmp: nat)
    requires GuestInfo(info) && NUM_GLOBALS <= tmp && (imm != ZERO ==> tmp < info.NumAll()) && !(rd == 0 && rs1 == 0 && imm == ZERO)
    ensures Sound(info, defined, LoadCode(ar, sz, sgn, rd, rs1, imm, ip, tmp))
  {
    var (pre, addr) := Address(ar, rs1, imm, tmp);
    AddressSound(ar, info, defined, rs1, imm, tmp);
    OperandsReadable(info, defined, rd, I32, ZERO);
    OperandsReadable(info, defined, rs1, I32, ZERO);
    AccessSound(ar, info, defined, rs1, imm, tmp, ip, Inst(VMLoad(sz, sgn), [if rd != 0 then Vgpr(rd) else addr], [addr]));
  }

  /** A load into x0 from address zero in x0 has a constant as destination, which no register information allows. */
  lemma NoDestination(ar: Arith, info: VRegsInfo, slots: set<nat>, defined: set<nat>, sz: VType, sgn: VSign, ip: Word, tmp: nat)
    ensures !WellFormedCode(info, slots, defined, LoadCode(ar, sz, sgn, 0, 0, ZERO, ip, tmp))
  {
    var load := Inst(VMLoad(sz, sgn), [Gprop(0, I32)], [Gprop(0, I32)]);
    assert LoadCode(ar, sz, sgn, 0, 0, ZERO, ip, tmp)[1..] == [load];
    assert !Writable(info, slots, load.op, load.o[0]);
  }

  /** A load into x0 without offset: the code is valid exactly if it has a base register, and then does
      what the interpreter does exactly if the access faults or loads what that register holds. */
  lemma ClobberingLoad(ar: Arith, decode: Word -> Decoded, info: VRegsInfo, defined: set<nat>, sz: VType, sgn: VSign, rs1: Reg, tmp: nat, q: QState, c: Cpu)
    requires Laws(ar) && Same(c, q) && GuestInfo(info) && NUM_GLOBALS <= tmp
    ensures var load := LoadCode(ar, sz, sgn, 0, rs1, ZERO, c.gip, tmp);
            var v := LoadWord(c.mem, sz, sgn, c.gpr[rs1]);
            && (WellFormedCode(info, SLOTS, defined, load) <==> rs1 != 0)
            && (rs1 != 0 ==> AllShaped(load))
            && (rs1 != 0 ==> (Follows(|q.vregs|, QRun(StateRegs(), GuestSem(ar, decode), load, q), Handle(ar, Load(sz, sgn, 0, rs1, ZERO), c)) <==>
                              v.None? || v.value == c.gpr[rs1]))
  {
    if rs1 == 0 {
      NoDestination(ar, info, SLOTS, defined, sz, sgn, c.gip, tmp);
    } else {
      LoadSound(ar, info, defined, sz, sgn, 0, rs1, ZERO, c.gip, tmp);
      ClobberedBase(ar, decode, sz, sgn, rs1, tmp, q, c);
    }
  }

  lemma StoreSound(ar: Arith, info: VRegsInfo, defined: set<nat>, sz: VType, rs1: Reg, rs2: Reg, imm: Word, ip: Word, tmp: nat)
    requires GuestInfo(info) && NUM_GLOBALS <= tmp && (imm != ZERO ==> tmp < info.NumAll())
    ensures Sound(info, defined, StoreCode(ar, sz, rs1, rs2, imm, ip, tmp))
  {
    var (pre, addr) := Address(ar, rs1, imm, tmp);
    AddressSound(ar, info, defined, rs1, imm, tmp);
    OperandsReadable(info, QSel.DefinesAll(info, defined, pre), rs2, sz, ZERO);
    AccessSound(ar, info, defined, rs1, imm, tmp, ip, Inst(VMStore(sz), [], [addr, Gprop(rs2, sz)]));
  }

  lemma JalrSound(ar: Arith, info: VRegsInfo, defined: set<nat>, rd: Reg, rs1: Reg, imm: Word, ip: Word, tmp: nat)
    requires GuestInfo(info) && NUM_GLOBALS <= tmp < info.NumAll()
    ensures Sound(info, defined, JalrCode(ar, rd, rs1, imm, ip, tmp))
    ensures tmp in QSel.DefinesAll(info, defined, JalrCode(ar, rd, rs1, imm, ip, tmp))
  {
    var t := VGPR(I32, tmp);
    var add, mask := CreateAdd(ar, t, Gprop(rs1, I32), Vconst(imm)), Inst(Binop(And), [t], [t, Vconst(CLEAR_BIT_0)]);
    TempIs(info, tmp);
    OperandsReadable(info, defined, rs1, I32, imm);
    AddWellFormed(ar, info, defined, t, Gprop(rs1, I32), Vconst(imm));
    SoundOne(info, defined, add);
    var defined' := QSel.DefinesAll(info, defined, [add]);
    assert tmp in defined' && Readable(info, SLOTS, defined', t);
    SoundOne(info, defined', mask);
    SoundConcat(info, defined, [add], [mask]);
    assert [add] + [mask] == [add, mask];
    var defined'' := QSel.DefinesAll(info, defined, [add, mask]);
    ConstSound(info, defined'', rd, ar.Plus(ip, FOUR));
    SoundConcat(info, defined, [add, mask], Link(ar, rd, ip));
  }

  lemma CallSound(info: VRegsInfo, defined: set<nat>, call: Inst)
    requires call.op.Hcall? && call.o == [] && |call.i| == 1 && call.i[0].Const?
    ensures Sound(info, defined, [call])
  {
    SoundOne(info, defined, call);
  }

  lemma HelperSound(info: VRegsInfo, defined: set<nat>, i: Insn, raw: Word, ip: Word)
    requires GuestInfo(info)
    ensures Sound(info, defined, HelperCode(i, raw, ip)) && HelperCode(i, raw, ip) != []
    ensures HelperCode(i, raw, ip)[|HelperCode(i, raw, ip)| - 1].op.Hcall?
  {
    var call := Inst(Hcall(StubId(i)), [], [Vconst(raw)]);
    CallSound(info, defined, call);
    if MayTrap(i) {
      PreSideeffSound(info, defined, ip);
      SoundConcat(info, defined, [PreSideeff(ip)], [call]);
    } else {
      assert HelperCode(i, raw, ip) == [call];
    }
  }

  /** The code of every instruction is well-formed, whatever is defined before it. */
  lemma InsnSound(ar: Arith, info: VRegsInfo, defined: set<nat>, i: Insn, raw: Word, ip: Word, tmp: nat)
    requires GuestInfo(info) && NUM_GLOBALS <= tmp && tmp + Temps(i) <= info.NumAll() && !ClobbersBase(i)
    ensures Sound(info, defined, Straight(ar, i, raw, ip, tmp))
    ensures i.Jalr? ==> tmp in QSel.DefinesAll(info, defined, Straight(ar, i, raw, ip, tmp))
    ensures EndsBlock(i) && !IsBranch(i) ==>
              var c := Straight(ar, i, raw, ip, tmp); c != [] && c[|c| - 1].op.Hcall?
  {
    if i.Lui? || i.Auipc? || i.Jal? {
      ConstSound(info, defined, i.rd, if i.Lui? then i.imm else if i.Auipc? then ar.Plus(i.imm, ip) else ar.Plus(ip, FOUR));
    } else if i.OpImm? {
      OperandsReadable(info, defined, i.rs1, I32, i.imm);
      AluSound(ar, info, defined, i.aop, i.rd, Gprop(i.rs1, I32), Vconst(i.imm));
    } else if i.OpReg? {
      OperandsReadable(info, defined, i.rs1, I32, ZERO);
      OperandsReadable(info, defined, i.rs2, I32, ZERO);
      AluSound(ar, info, defined, i.aop, i.rd, Gprop(i.rs1, I32), Gprop(i.rs2, I32));
    } else if i.Jalr? {
      JalrSound(ar, info, defined, i.rd, i.rs1, i.imm, ip, tmp);
    } else if i.Load? {
      LoadSound(ar, info, defined, i.sz, i.sgn, i.rd, i.rs1, i.imm, ip, tmp);
    } else if i.Store? {
      StoreSound(ar, info, defined, i.sz, i.rs1, i.rs2, i.imm, ip, tmp);
    } else if !i.Bcc? {
      HelperSound(info, defined, i, raw, ip);
    }
  }

  // ---------- Well-formed blocks ----------

  ghost predicate EmitsSound(em: Emitter, info: VRegsInfo, ip: Word, tmp: nat, defined: set<nat>) {
    NUM_GLOBALS <= tmp && tmp + em.temps(ip) <= info.NumAll() && !ClobbersBase(em.insn(ip)) ==>
      var code := em.emit(ip, tmp);
      && Sound(info, defined, code)
      && (em.insn(ip).Jalr? ==> tmp in QSel.DefinesAll(info, defined, code) && tmp < info.NumAll())
      && (EndsBlock(em.insn(ip)) && !IsBranch(em.insn(ip)) ==> code != [] && code[|code| - 1].op.Hcall?)
  }

  ghost predicate EmitterSound(em: Emitter, info: VRegsInfo) {
    forall ip, tmp: nat, defined {:trigger EmitsSound(em, info, ip, tmp, defined)} :: EmitsSound(em, info, ip, tmp, defined)
  }

  lemma EmitterIsSound(ar: Arith, code: Code, info: VRegsInfo)
    requires GuestInfo(info)
    ensures EmitterSound(EmitterOf(ar, code), info)
  {
    var em := EmitterOf(ar, code);
    forall ip, tmp: nat, defined
      ensures EmitsSound(em, info, ip, tmp, defined)
    {
      if NUM_GLOBALS <= tmp && tmp + em.temps(ip) <= info.NumAll() && !ClobbersBase(em.insn(ip)) {
        InsnSound(ar, info, defined, code.At(ip), code.fetch(ip), ip, tmp);
      }
    }
  }

  lemma {:induction false} StraightSound(em: Emitter, info: VRegsInfo, ip: Word, n: nat, tmp: nat, defined: set<nat>)
    requires EmitterSound(em, info) && NUM_GLOBALS <= tmp && tmp + TempsUsed(em, ip, n) <= info.NumAll() && NoClobber(em, ip, n)
    ensures Sound(info, defined, StraightCode(em, ip, n, tmp))
    decreases n
  {
    if n > 0 {
      assert EmitsSound(em, info, ip, tmp, defined);
      var head := em.emit(ip, tmp);
      var defined' := QSel.DefinesAll(info, defined, head);
      StraightSound(em, info, em.next(ip), n - 1, tmp + em.temps(ip), defined');
      SoundConcat(info, defined, head, StraightCode(em, em.next(ip), n - 1, tmp + em.temps(ip)));
    }
  }

  /** A branch as the last instruction has the successors that it names. */
  predicate Targeted(ins: Inst, succs: seq<nat>) {
    (ins.op.Br? ==> |succs| >= 1) && (ins.op.Brcc? ==> |succs| >= 2)
  }

  ghost predicate BlockReady(info: VRegsInfo, block: Block, size: nat) {
    && WellFormedBlock(info, SLOTS, block)
    && (forall k | 0 <= k < |block.code| :: Targeted(block.code[k], block.succs))
    && (forall k | 0 <= k < |block.succs| :: block.succs[k] < size)
  }

  /** A body without transfers of control and a last instruction make a block. */
  lemma TailReady(info: VRegsInfo, body: seq<Inst>, last: Inst, succs: seq<nat>, size: nat)
    requires Sound(info, {}, body) && WellFormed(info, SLOTS, QSel.DefinesAll(info, {}, body), last) && last.op.IsTerminator()
    requires Targeted(last, succs) && forall k | 0 <= k < |succs| :: succs[k] < size
    ensures BlockReady(info, Block(body + [last], succs), size)
  {
    assert [last][1..] == [];
    QSel.WellFormedConcat(info, SLOTS, {}, body, [last]);
    forall k | 0 <= k < |body| ensures Targeted(body[k], succs) {
      assert !body[k].op.IsTerminator();
    }
  }

  lemma LeavesReady(info: VRegsInfo, ips: seq<Word>, block: Block, body: seq<Inst>, t: Word)
    requires Sound(info, {}, body) && Leaves(ips, block, body, t)
    ensures BlockReady(info, block, |ips|)
  {
    var last := block.code[|body|];
    assert block == Block(body + [last], block.succs);
    TailReady(info, body, last, block.succs, |ips|);
  }

  lemma BranchReady(info: VRegsInfo, body: seq<Inst>, bop: BranchOp, rs1: Reg, rs2: Reg, succs: seq<nat>, size: nat)
    requires GuestInfo(info) && Sound(info, {}, body) && |succs| == 2 && succs[0] < size && succs[1] < size
    ensures BlockReady(info, Block(body + [Inst(Brcc(CondOf(bop)), [], [Gprop(rs1, I32), Gprop(rs2, I32)])], succs), size)
  {
    OperandsReadable(info, QSel.DefinesAll(info, {}, body), rs1, I32, ZERO);
    OperandsReadable(info, QSel.DefinesAll(info, {}, body), rs2, I32, ZERO);
    TailReady(info, body, Inst(Brcc(CondOf(bop)), [], [Gprop(rs1, I32), Gprop(rs2, I32)]), succs, size);
  }

  lemma IndirectReady(info: VRegsInfo, body: seq<Inst>, tmp: nat, size: nat)
    requires GuestInfo(info) && Sound(info, {}, body) && NUM_GLOBALS <= tmp < info.NumAll() && tmp in QSel.DefinesAll(info, {}, body)
    ensures BlockReady(info, Block(body + [Inst(GBrind, [], [VGPR(I32, tmp)])], []), size)
  {
    TempIs(info, tmp);
    TailReady(info, body, Inst(GBrind, [], [VGPR(I32, tmp)]), [], size);
  }

  lemma TrapReady(info: VRegsInfo, body: seq<Inst>, size: nat)
    requires Sound(info, {}, body) && body != [] && body[|body| - 1].op.Hcall?
    ensures BlockReady(info, Block(body, []), size)
  {
    forall k | 0 <= k < |body| ensures Targeted(body[k], []) {
      assert !body[k].op.IsTerminator();
    }
  }

  lemma EndReady(em: Emitter, info: VRegsInfo, ips: seq<Word>, block: Block, body: seq<Inst>, a: Word, tmp: nat)
    requires GuestInfo(info) && EmitterSound(em, info) && Sound(info, {}, body) && EndsBlock(em.insn(a)) && !ClobbersBase(em.insn(a))
    requires NUM_GLOBALS <= tmp && tmp + em.temps(a) <= info.NumAll() && Ends(em, ips, block, body + em.emit(a, tmp), em.insn(a), a, tmp)
    ensures BlockReady(info, block, |ips|)
  {
    var i := em.insn(a);
    assert EmitsSound(em, info, a, tmp, QSel.DefinesAll(info, {}, body));
    var all := body + em.emit(a, tmp);
    SoundConcat(info, {}, body, em.emit(a, tmp));
    if i.Jal? {
      LeavesReady(info, ips, block, all, em.plus(a, i.imm));
    } else if i.Jalr? {
      IndirectReady(info, all, tmp, |ips|);
    } else if i.Bcc? {
      BranchReady(info, all, i.bop, i.rs1, i.rs2, block.succs, |ips|);
    } else {
      TrapReady(info, all, |ips|);
    }
  }

  /** Translated blocks have the form that code generation asks for. */
  lemma BlockIsReady(em: Emitter, info: VRegsInfo, ips: seq<Word>, block: Block, ip: Word, p: Plan)
    requires GuestInfo(info) && EmitterSound(em, info) && BlockFor(em, ips, block, ip, p) && Fits(em, ip, p, info.NumAll())
    requires NoClobber(em, ip, Length(p))
    ensures BlockReady(info, block, |ips|)
  {
    if p.Exit? {
      var last := Inst(GBr(ip), [], []);
      assert [] + [last] == [last];
      TailReady(info, [], last, [], |ips|);
    } else {
      var body, a, tmp := StraightCode(em, ip, p.n, p.tmp), AddrOf(em, ip, p.n), p.tmp + TempsUsed(em, ip, p.n);
      RunExtends(em, ip, p.n, p.tmp);
      StraightSound(em, info, ip, p.n, p.tmp, {});
      if p.cut {
        LeavesReady(info, ips, block, body, a);
      } else {
        EndReady(em, info, ips, block, body, a, tmp);
      }
    }
  }

  // ---------- Registers that selection adds ----------

  // No instruction takes more than three registers, counting its temporary and what selection adds.

  lemma PairExtra(a: Inst, b: Inst)
    ensures QSel.CodeExtra([a, b]) == QSel.Extra(a) + QSel.Extra(b)
  {
    assert [a, b] == [a] + [b];
    QSel.ExtraConcat([a], [b]);
    QSel.ExtraOne(a);
    QSel.ExtraOne(b);
  }

  lemma AddExtra(ar: Arith, d: Operand, a: Operand, b: Operand)
    ensures QSel.Extra(CreateAdd(ar, d, a, b)) <= 1
  {
  }

  lemma AluExtra(ar: Arith, aop: AluOp, d: Operand, a: Operand, b: Operand)
    ensures QSel.Extra(CreateAlu(ar, aop, d, a, b)) <= 2
  {
    AddExtra(ar, d, a, b);
  }

  lemma SetsRegExtra(rd: Reg, ins: Inst)
    ensures QSel.CodeExtra(SetsReg(rd, ins)) <= QSel.Extra(ins)
  {
    QSel.ExtraOne(ins);
  }

  lemma AccessExtra(ar: Arith, rs1: Reg, imm: Word, tmp: nat, ip: Word, last: Inst)
    ensures var (pre, addr) := Address(ar, rs1, imm, tmp);
            QSel.CodeExtra([PreSideeff(ip)] + pre + [last]) <= (if imm != ZERO then 1 else 0) + QSel.Extra(last)
  {
    var (pre, addr) := Address(ar, rs1, imm, tmp);
    QSel.ExtraConcat([PreSideeff(ip)], pre);
    QSel.ExtraConcat([PreSideeff(ip)] + pre, [last]);
    QSel.ExtraOne(PreSideeff(ip));
    QSel.ExtraOne(last);
    if imm != ZERO {
      AddExtra(ar, VGPR(I32, tmp), Gprop(rs1, I32), Vconst(imm));
      QSel.ExtraOne(pre[0]);
    }
  }

  lemma JalrExtra(ar: Arith, rd: Reg, rs1: Reg, imm: Word, ip: Word, tmp: nat)
    ensures QSel.CodeExtra(JalrCode(ar, rd, rs1, imm, ip, tmp)) <= 2
  {
    var t := VGPR(I32, tmp);
    var add, mask := CreateAdd(ar, t, Gprop(rs1, I32), Vconst(imm)), Inst(Binop(And), [t], [t, Vconst(CLEAR_BIT_0)]);
    AddExtra(ar, t, Gprop(rs1, I32), Vconst(imm));
    PairExtra(add, mask);
    QSel.ExtraConcat([add, mask], Link(ar, rd, ip));
    SetsRegExtra(rd, MakeMov(VGPR(I32, if rd == 0 then 0 else rd - 1), Vconst(ar.Plus(ip, FOUR))));
  }

  lemma HelperExtra(i: Insn, raw: Word, ip: Word)
    ensures QSel.CodeExtra(HelperCode(i, raw, ip)) == 0
  {
    var call := Inst(Hcall(StubId(i)), [], [Vconst(raw)]);
    QSel.ExtraOne(call);
    if MayTrap(i) {
      PairExtra(PreSideeff(ip), call);
      assert HelperCode(i, raw, ip) == [PreSideeff(ip), call];
    } else {
      assert HelperCode(i, raw, ip) == [call];
    }
  }

  lemma ConstExtra(ar: Arith, i: Insn, raw: Word, ip: Word, tmp: nat)
    requires i.Lui? || i.Auipc? || i.Jal?
    ensures QSel.CodeExtra(Straight(ar, i, raw, ip, tmp)) == 0
  {
    var v := if i.Lui? then i.imm else if i.Auipc? then ar.Plus(i.imm, ip) else ar.Plus(ip, FOUR);
    SetsRegExtra(i.rd, MakeMov(VGPR(I32, if i.rd == 0 then 0 else i.rd - 1), Vconst(v)));
  }

  lemma MemoryExtra(ar: Arith, i: Insn, raw: Word, ip: Word, tmp: nat)
    requires i.Load? || i.Store?
    ensures QSel.CodeExtra(Straight(ar, i, raw, ip, tmp)) + Temps(i) <= 3
  {
    var (pre, addr) := Address(ar, i.rs1, i.imm, tmp);
    if i.Load? {
      AccessExtra(ar, i.rs1, i.imm, tmp, ip, Inst(VMLoad(i.sz, i.sgn), [if i.rd != 0 then Vgpr(i.rd) else addr], [addr]));
    } else {
      AccessExtra(ar, i.rs1, i.imm, tmp, ip, Inst(VMStore(i.sz), [], [addr, Gprop(i.rs2, i.sz)]));
    }
  }

  lemma ArithmeticExtra(ar: Arith, i: Insn, raw: Word, ip: Word, tmp: nat)
    requires i.OpImm? || i.OpReg?
    ensures QSel.CodeExtra(Straight(ar, i, raw, ip, tmp)) <= 2
  {
    var d, a := VGPR(I32, if i.rd == 0 then 0 else i.rd - 1), Gprop(i.rs1, I32);
    var b := if i.OpImm? then Vconst(i.imm) else Gprop(i.rs2, I32);
    AluExtra(ar, i.aop, d, a, b);
    SetsRegExtra(i.rd, CreateAlu(ar, i.aop, d, a, b));
  }

  /** The bound leaves room for the comparison of a conditional branch. */
  lemma InsnExtra(ar: Arith, i: Insn, raw: Word, ip: Word, tmp: nat)
    ensures QSel.CodeExtra(Straight(ar, i, raw, ip, tmp)) + Temps(i) <= if i.Bcc? then 1 else 3
  {
    if i.Lui? || i.Auipc? || i.Jal? {
      ConstExtra(ar, i, raw, ip, tmp);
    } else if i.Jalr? {
      JalrExtra(ar, i.rd, i.rs1, i.imm, ip, tmp);
    } else if i.Load? || i.Store? {
      MemoryExtra(ar, i, raw, ip, tmp);
    } else if i.OpImm? || i.OpReg? {
      ArithmeticExtra(ar, i, raw, ip, tmp);
    } else if !i.Bcc? {
      HelperExtra(i, raw, ip);
    }
  }

  ghost predicate Thrifty(em: Emitter) {
    forall ip, tmp: nat {:trigger ThriftyAt(em, ip, tmp)} :: ThriftyAt(em, ip, tmp)
  }

  ghost predicate ThriftyAt(em: Emitter, ip: Word, tmp: nat) {
    QSel.CodeExtra(em.emit(ip, tmp)) + em.temps(ip) <= if em.insn(ip).Bcc? then 1 else 3
  }

  lemma EmitterIsThrifty(ar: Arith, code: Code)
    ensures Thrifty(EmitterOf(ar, code))
  {
    var em := EmitterOf(ar, code);
    forall ip, tmp: nat ensures ThriftyAt(em, ip, tmp) {
      InsnExtra(ar, code.At(ip), code.fetch(ip), ip, tmp);
    }
  }

  /** A cost of code that adds up. */
  ghost predicate Additive(cost: seq<Inst> -> nat) {
    cost([]) == 0 && forall a, b {:trigger cost(a + b)} :: cost(a + b) == cost(a) + cost(b)
  }

  ghost predicate CheapAt(em: Emitter, cost: seq<Inst> -> nat, ip: Word, tmp: nat) {
    cost(em.emit(ip, tmp)) + em.temps(ip) <= 3
  }

  lemma {:induction false} RunCost(em: Emitter, cost: seq<Inst> -> nat, ip: Word, n: nat, tmp: nat)
    requires Additive(cost) && forall ip, tmp: nat {:trigger CheapAt(em, cost, ip, tmp)} :: CheapAt(em, cost, ip, tmp)
    ensures cost(StraightCode(em, ip, n, tmp)) + TempsUsed(em, ip, n) <= 3 * n
    decreases n
  {
    if n > 0 {
      assert CheapAt(em, cost, ip, tmp);
      RunCost(em, cost, em.next(ip), n - 1, tmp + em.temps(ip));
      assert cost(em.emit(ip, tmp) + StraightCode(em, em.next(ip), n - 1, tmp + em.temps(ip))) ==
             cost(em.emit(ip, tmp)) + cost(StraightCode(em, em.next(ip), n - 1, tmp + em.temps(ip)));
    }
  }

  lemma RunExtra(em: Emitter, ip: Word, n: nat, tmp: nat)
    requires Thrifty(em)
    ensures QSel.CodeExtra(StraightCode(em, ip, n, tmp)) + TempsUsed(em, ip, n) <= 3 * n
  {
    var cost := (c: seq<Inst>) => QSel.CodeExtra(c);
    forall a, b ensures cost(a + b) == cost(a) + cost(b) {
      QSel.ExtraConcat(a, b);
    }
    forall ip, tmp: nat ensures CheapAt(em, cost, ip, tmp) {
      assert ThriftyAt(em, ip, tmp);
    }
    RunCost(em, cost, ip, n, tmp);
  }

  lemma LastExtra(body: seq<Inst>, last: Inst)
    ensures QSel.CodeExtra(body + [last]) == QSel.CodeExtra(body) + QSel.Extra(last)
    ensures last.op.Br? || last.op.GBr? || (last.op.GBrind? && |last.i| == 1 && last.i[0].VGPR?) ==> QSel.Extra(last) == 0
    ensures last.op.Brcc? ==> QSel.Extra(last) <= 2
  {
    QSel.ExtraConcat(body, [last]);
    QSel.ExtraOne(last);
  }

  lemma EndExtra(em: Emitter, ips: seq<Word>, block: Block, body: seq<Inst>, a: Word, tmp: nat)
    requires EndsBlock(em.insn(a)) && Ends(em, ips, block, body, em.insn(a), a, tmp)
    ensures QSel.CodeExtra(block.code) <= QSel.CodeExtra(body) + if em.insn(a).Bcc? then 2 else 0
  {
    if block.code != [] && block.code != body {
      LastExtra(body, block.code[|block.code| - 1]);
    }
  }

  lemma EndedExtra(em: Emitter, ips: seq<Word>, block: Block, ip: Word, n: nat, tmp: nat, a: Word, body: seq<Inst>, tmp': nat)
    requires Thrifty(em) && a == AddrOf(em, ip, n) && EndsBlock(em.insn(a)) && Ends(em, ips, block, body + em.emit(a, tmp'), em.insn(a), a, tmp')
    requires QSel.CodeExtra(body) + TempsUsed(em, ip, n) <= 3 * n
    ensures QSel.CodeExtra(block.code) + TempsUsed(em, ip, n + 1) <= 3 * (n + 1)
  {
    RunExtends(em, ip, n, tmp);
    assert ThriftyAt(em, a, tmp');
    QSel.ExtraConcat(body, em.emit(a, tmp'));
    EndExtra(em, ips, block, body + em.emit(a, tmp'), a, tmp');
  }

  lemma CutExtra(ips: seq<Word>, block: Block, body: seq<Inst>, t: Word)
    requires Leaves(ips, block, body, t)
    ensures QSel.CodeExtra(block.code) == QSel.CodeExtra(body)
  {
    LastExtra(body, block.code[|block.code| - 1]);
  }

  lemma ExitExtra(block: Block, t: Word)
    requires block == Block([Inst(GBr(t), [], [])], [])
    ensures QSel.CodeExtra(block.code) == 0
  {
    QSel.ExtraOne(block.code[0]);
  }

  lemma RunBlockExtra(em: Emitter, ips: seq<Word>, block: Block, ip: Word, n: nat, tmp: nat, cut: bool)
    requires Thrifty(em) && BlockFor(em, ips, block, ip, Run(n, tmp, cut))
    ensures QSel.CodeExtra(block.code) + TempsUsed(em, ip, if cut then n else n + 1) <= 3 * if cut then n else n + 1
  {
    var a, body := AddrOf(em, ip, n), StraightCode(em, ip, n, tmp);
    RunExtra(em, ip, n, tmp);
    if cut {
      CutExtra(ips, block, body, a);
    } else {
      EndedExtra(em, ips, block, ip, n, tmp, a, body, tmp + TempsUsed(em, ip, n));
    }
  }

  /** Registers per block, for its temporaries and for selection. */
  lemma BlockExtra(em: Emitter, ips: seq<Word>, block: Block, ip: Word, p: Plan)
    requires Thrifty(em) && BlockFor(em, ips, block, ip, p)
    ensures QSel.CodeExtra(block.code) + TempsUsed(em, ip, Length(p)) <= 3 * Length(p)
  {
    match p
    case Exit => ExitExtra(block, ip);
    case Run(n, tmp, cut) => RunBlockExtra(em, ips, block, ip, n, tmp, cut);
  }
}
