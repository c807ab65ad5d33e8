/** Blocks of translated code, `dbt/guest/rv32_qir.cpp`: their shape, and why a block does what the
    interpreter does over the same instructions. */
module Rv32Blocks {
  import opened Common
  import opened Qir
  import opened Rv32
  import opened Rv32Emission

  // ---------- Shape ----------

  /** What block formation needs to know: the instruction at an address, the code and the number of
      temporaries that it takes, how addresses are computed and compared, and what code means. */
  datatype Emitter = Emitter(
    insn: Word -> Decoded, emit: (Word, nat) -> seq<Inst>, temps: Word -> nat, next: Word -> Word,
    plus: (Word, Word) -> Word, reached: (Word, Word) -> bool, cond: (CondCode, Word, Word) -> bool,
    run: (seq<Inst>, QState) -> Result<QState>, step: Cpu -> StepResult)

  function RunOf(ar: Arith, code: Code, insts: seq<Inst>, q: QState): Result<QState> {
    if AllShaped(insts) then QRun(StateRegs(), GuestSem(ar, code.decode), insts, q) else Next(q)
  }

  function EmitterOf(ar: Arith, code: Code): Emitter {
    Emitter(ip => code.At(ip), (ip: Word, tmp: nat) => Straight(ar, code.At(ip), code.fetch(ip), ip, tmp), ip => Temps(code.At(ip)),
            ip => ar.Plus(ip, FOUR), (a, b) => ar.Plus(a, b), (a, b) => ar.taken(BGEU, a, b), ar.cond,
            (insts, q) => RunOf(ar, code, insts, q), c => StepAt(ar, code, c))
  }

  /** The address of the instruction `n` places after `ip`. */
  function AddrOf(em: Emitter, ip: Word, n: nat): Word
    decreases n
  {
    if n == 0 then ip else AddrOf(em, em.next(ip), n - 1)
  }

  /** Temporaries of `n` instructions. */
  function TempsUsed(em: Emitter, ip: Word, n: nat): nat
    decreases n
  {
    if n == 0 then 0 else em.temps(ip) + TempsUsed(em, em.next(ip), n - 1)
  }

  function StraightCode(em: Emitter, ip: Word, n: nat, tmp: nat): seq<Inst>
    decreases n
  {
    if n == 0 then [] else em.emit(ip, tmp) + StraightCode(em, em.next(ip), n - 1, tmp + em.temps(ip))
  }

  /** `n` instructions that do not end a block. */
  ghost predicate PlainRun(em: Emitter, ip: Word, n: nat)
    decreases n
  {
    n > 0 ==> !EndsBlock(em.insn(ip)) && PlainRun(em, em.next(ip), n - 1)
  }

  /** None of `n` instructions is a load into x0 without offset. */
  ghost predicate NoClobber(em: Emitter, ip: Word, n: nat)
    decreases n
  {
    n > 0 ==> !ClobbersBase(em.insn(ip)) && NoClobber(em, em.next(ip), n - 1)
  }

  lemma {:induction false} CodeExtends(em: Emitter, ip: Word, n: nat, tmp: nat)
    ensures var a := AddrOf(em, ip, n);
            && TempsUsed(em, ip, n + 1) == TempsUsed(em, ip, n) + em.temps(a)
            && StraightCode(em, ip, n + 1, tmp) == StraightCode(em, ip, n, tmp) + em.emit(a, tmp + TempsUsed(em, ip, n))
    decreases n
  {
    if n == 0 {
      assert StraightCode(em, em.next(ip), 0, tmp + em.temps(ip)) == [];
    } else {
      CodeExtends(em, em.next(ip), n - 1, tmp + em.temps(ip));
    }
  }

  lemma RunExtends(em: Emitter, ip: Word, n: nat, tmp: nat)
    ensures var a := AddrOf(em, ip, n);
            && AddrOf(em, ip, n + 1) == em.next(a)
            && TempsUsed(em, ip, n + 1) == TempsUsed(em, ip, n) + em.temps(a)
            && StraightCode(em, ip, n + 1, tmp) == StraightCode(em, ip, n, tmp) + em.emit(a, tmp + TempsUsed(em, ip, n))
            && (PlainRun(em, ip, n + 1) <==> PlainRun(em, ip, n) && !EndsBlock(em.insn(a)))
            && (NoClobber(em, ip, n + 1) <==> NoClobber(em, ip, n) && !ClobbersBase(em.insn(a)))
  {
    CodeExtends(em, ip, n, tmp);
    PlainExtends(em, ip, n);
  }

  lemma {:induction false} PlainExtends(em: Emitter, ip: Word, n: nat)
    ensures var a := AddrOf(em, ip, n);
            && AddrOf(em, ip, n + 1) == em.next(a)
            && (PlainRun(em, ip, n + 1) <==> PlainRun(em, ip, n) && !EndsBlock(em.insn(a)))
            && (NoClobber(em, ip, n + 1) <==> NoClobber(em, ip, n) && !ClobbersBase(em.insn(a)))
    decreases n
  {
    if n > 0 {
      PlainExtends(em, em.next(ip), n - 1);
    }
  }

  /** How a block came about: as an exit to another page or region, or from `n` instructions that do not
      end a block, cut off by a limit or followed by one that does. */
  datatype Plan = Exit | Run(n: nat, tmp: nat, cut: bool)

  /** The number of instructions that a plan covers. */
  function Length(p: Plan): nat {
    if p.Exit? then 0 else if p.cut then p.n else p.n + 1
  }

  /** MakeGBr: a branch within the region, or out of it. */
  ghost predicate Leaves(ips: seq<Word>, block: Block, body: seq<Inst>, t: Word) {
    || (block.code == body + [Inst(Br, [], [])] && |block.succs| == 1 && block.succs[0] < |ips| && ips[block.succs[0]] == t)
    || (block.code == body + [Inst(GBr(t), [], [])] && block.succs == [])
  }

  /** The end of a block at instruction `i`, which lies at `a`. */
  ghost predicate Ends(em: Emitter, ips: seq<Word>, block: Block, body: seq<Inst>, i: Insn, a: Word, tmp: nat) {
    match i
    case Jal(rd, imm) => Leaves(ips, block, body, em.plus(a, imm))
    case Jalr(rd, rs1, imm) => block.code == body + [Inst(GBrind, [], [VGPR(I32, tmp)])] && block.succs == []
    case Bcc(bop, rs1, rs2, imm) =>
      && block.code == body + [Inst(Brcc(CondOf(bop)), [], [Gprop(rs1, I32), Gprop(rs2, I32)])]
      && |block.succs| == 2 && block.succs[0] < |ips| && block.succs[1] < |ips|
      && ips[block.succs[0]] == em.plus(a, imm) && ips[block.succs[1]] == em.next(a)
    case _ => block.code == body && block.succs == []
  }

  /** `block` is the translation of the code at `ip`; `ips` are the guest addresses of the region's blocks. */
  ghost predicate BlockFor(em: Emitter, ips: seq<Word>, block: Block, ip: Word, p: Plan) {
    match p
    case Exit => block == Block([Inst(GBr(ip), [], [])], [])
    case Run(n, tmp, cut) =>
      var a, body := AddrOf(em, ip, n), StraightCode(em, ip, n, tmp);
      var i, tmp' := em.insn(a), tmp + TempsUsed(em, ip, n);
      && PlainRun(em, ip, n)
      && if cut then n > 0 && Leaves(ips, block, body, a)
         else EndsBlock(i) && Ends(em, ips, block, body + em.emit(a, tmp'), i, a, tmp')
  }

  /** The temporaries of the block are among the first `size` registers. */
  ghost predicate Fits(em: Emitter, ip: Word, p: Plan, size: nat) {
    p.Run? ==> NUM_GLOBALS <= p.tmp && p.tmp + TempsUsed(em, ip, Length(p)) <= size
  }

  // ---------- Straight-line runs ----------

  /** The code for the instruction at `ip` does what the interpreter does. */
  ghost predicate StepOk(em: Emitter, ip: Word, tmp: nat, q: QState, c: Cpu) {
    Same(c, q) && c.gip == ip && !IsBranch(em.insn(ip)) && !ClobbersBase(em.insn(ip)) && NUM_GLOBALS <= tmp && tmp + em.temps(ip) <= |q.vregs| ==>
      && AllShaped(em.emit(ip, tmp))
      && Follows(|q.vregs|, em.run(em.emit(ip, tmp), q), em.step(c))
      && (em.step(c).Stepped? ==> em.step(c).cpu.gip == em.next(ip)) && !Unaligned(em.step(c))
  }

  /** The interpreter has refused a misaligned branch target. */
  predicate Unaligned(s: StepResult) {
    s.Traps? && s.trap == UNALIGNED_IP
  }

  ghost predicate StepsOk(em: Emitter) {
    && (forall ip, tmp: nat, q, c {:trigger StepOk(em, ip, tmp, q, c)} :: StepOk(em, ip, tmp, q, c))
    && (forall ip, tmp: nat {:trigger em.emit(ip, tmp)} :: AllShaped(em.emit(ip, tmp)))
    && (forall a, b, q {:trigger em.run(a + b, q)} | AllShaped(a) && AllShaped(b) ::
          em.run(a + b, q) == if em.run(a, q).Next? then em.run(b, em.run(a, q).s) else em.run(a, q))
    && (forall q {:trigger em.run([], q)} :: em.run([], q) == Next(q))
  }

  /** Instructions that transfer control. */
  ghost predicate TailsOk(em: Emitter) {
    && (forall q {:trigger em.run([Inst(Br, [], [])], q)} :: em.run([Inst(Br, [], [])], q) == Goto(0, q))
    && (forall t, q {:trigger em.run([Inst(GBr(t), [], [])], q)} :: em.run([Inst(GBr(t), [], [])], q) == Leave(Branch(t), q))
    && (forall x, q {:trigger em.run([Inst(GBrind, [], [x])], q)} :: em.run([Inst(GBrind, [], [x])], q) == Leave(Branch(QRead(q, x)), q))
    && (forall cc, x, y, q {:trigger em.run([Inst(Brcc(cc), [], [x, y])], q)} ::
          em.run([Inst(Brcc(cc), [], [x, y])], q) == Goto(if em.cond(cc, QRead(q, x), QRead(q, y)) then 0 else 1, q))
  }

  lemma NonBranchAdvances(ar: Arith, i: Insn, c: Cpu)
    requires c.Valid() && !IsBranch(i) && Handle(ar, i, c).Stepped?
    ensures Handle(ar, i, c).cpu.gip == ar.Plus(c.gip, FOUR)
  {
  }

  lemma OnlyBranchesMisalign(ar: Arith, i: Insn, c: Cpu)
    requires c.Valid() && !IsBranch(i)
    ensures !Unaligned(Handle(ar, i, c))
  {
  }

  lemma AddressShaped(ar: Arith, rs1: Reg, imm: Word, tmp: nat, ip: Word, last: Inst)
    requires Shaped(last)
    ensures var (pre, addr) := Address(ar, rs1, imm, tmp); AllShaped([PreSideeff(ip)] + pre + [last])
  {
  }

  lemma MemoryShaped(ar: Arith, i: Insn, raw: Word, ip: Word, tmp: nat)
    requires i.Load? || i.Store?
    ensures AllShaped(Straight(ar, i, raw, ip, tmp))
  {
    var (pre, addr) := Address(ar, i.rs1, i.imm, tmp);
    if i.Load? {
      AddressShaped(ar, i.rs1, i.imm, tmp, ip, Inst(VMLoad(i.sz, i.sgn), [if i.rd != 0 then Vgpr(i.rd) else addr], [addr]));
    } else {
      AddressShaped(ar, i.rs1, i.imm, tmp, ip, Inst(VMStore(i.sz), [], [addr, Gprop(i.rs2, i.sz)]));
    }
  }

  lemma OneShaped(ar: Arith, i: Insn, raw: Word, ip: Word, tmp: nat)
    ensures AllShaped(Straight(ar, i, raw, ip, tmp))
  {
    if i.Load? || i.Store? {
      MemoryShaped(ar, i, raw, ip, tmp);
    }
  }

  lemma EmitterStepOk(ar: Arith, code: Code, ip: Word, tmp: nat, q: QState, c: Cpu)
    requires Laws(ar)
    ensures StepOk(EmitterOf(ar, code), ip, tmp, q, c)
  {
    var em := EmitterOf(ar, code);
    if Same(c, q) && c.gip == ip && !IsBranch(em.insn(ip)) && !ClobbersBase(em.insn(ip)) && NUM_GLOBALS <= tmp && tmp + em.temps(ip) <= |q.vregs| {
      StraightFollows(ar, code, code.At(ip), code.fetch(ip), tmp, q, c);
      OnlyBranchesMisalign(ar, code.At(ip), c);
      if Handle(ar, code.At(ip), c).Stepped? {
        NonBranchAdvances(ar, code.At(ip), c);
      }
    }
  }

  lemma EmitterConcat(ar: Arith, code: Code, a: seq<Inst>, b: seq<Inst>, q: QState)
    requires AllShaped(a) && AllShaped(b)
    ensures var em := EmitterOf(ar, code);
            em.run(a + b, q) == if em.run(a, q).Next? then em.run(b, em.run(a, q).s) else em.run(a, q)
  {
    QRunConcat(StateRegs(), GuestSem(ar, code.decode), a, b, q);
  }

  lemma EmitterStepsOk(ar: Arith, code: Code)
    requires Laws(ar)
    ensures StepsOk(EmitterOf(ar, code))
  {
    var em := EmitterOf(ar, code);
    forall ip, tmp: nat, q, c ensures StepOk(em, ip, tmp, q, c) {
      EmitterStepOk(ar, code, ip, tmp, q, c);
    }
    forall ip, tmp: nat ensures AllShaped(em.emit(ip, tmp)) {
      OneShaped(ar, code.At(ip), code.fetch(ip), ip, tmp);
    }
    forall a, b, q | AllShaped(a) && AllShaped(b)
      ensures em.run(a + b, q) == if em.run(a, q).Next? then em.run(b, em.run(a, q).s) else em.run(a, q)
    {
      EmitterConcat(ar, code, a, b, q);
    }
  }

  lemma {:induction false} StraightShaped(em: Emitter, ip: Word, n: nat, tmp: nat)
    requires StepsOk(em)
    ensures AllShaped(StraightCode(em, ip, n, tmp))
    decreases n
  {
    if n > 0 {
      assert AllShaped(em.emit(ip, tmp));
      StraightShaped(em, em.next(ip), n - 1, tmp + em.temps(ip));
    }
  }

  lemma RepeatOne(step: Cpu -> StepResult, c: Cpu)
    ensures Repeat(step, 1, c) == step(c)
  {
    var r := step(c);
    if r.Stepped? {
      assert Repeat(step, 0, r.cpu) == r;
    }
  }

  /** The outcome of one instruction, and what the rest makes of it. */
  lemma FollowsJoin(em: Emitter, head: seq<Inst>, tail: seq<Inst>, q: QState, c: Cpu, k: nat)
    requires StepsOk(em) && AllShaped(head) && AllShaped(tail) && Follows(|q.vregs|, em.run(head, q), em.step(c))
    requires em.step(c).Stepped? ==> Follows(|q.vregs|, em.run(tail, em.run(head, q).s), Repeat(em.step, k, em.step(c).cpu))
    ensures Follows(|q.vregs|, em.run(head + tail, q), Repeat(em.step, k + 1, c))
  {
  }

  /** Instructions that do not end a block: the translated code stops where the interpreter stops, or
      both get to the end. */
  lemma {:induction false} StraightRuns(em: Emitter, ip: Word, n: nat, tmp: nat, q: QState, c: Cpu) returns (k: nat)
    requires StepsOk(em) && Same(c, q) && c.gip == ip && PlainRun(em, ip, n) && NoClobber(em, ip, n)
    requires NUM_GLOBALS <= tmp && tmp + TempsUsed(em, ip, n) <= |q.vregs|
    ensures Follows(|q.vregs|, em.run(StraightCode(em, ip, n, tmp), q), Repeat(em.step, k, c))
    ensures var s := Repeat(em.step, k, c); !Unaligned(s) && (s.Stepped? ==> s.cpu.gip == AddrOf(em, ip, n))
    ensures n > 0 ==> k > 0
    decreases n
  {
    k := 0;
    if n > 0 {
      var head, tail := em.emit(ip, tmp), StraightCode(em, em.next(ip), n - 1, tmp + em.temps(ip));
      assert StepOk(em, ip, tmp, q, c);
      StraightShaped(em, em.next(ip), n - 1, tmp + em.temps(ip));
      var s := em.step(c);
      if s.Stepped? {
        k := StraightRuns(em, em.next(ip), n - 1, tmp + em.temps(ip), em.run(head, q).s, s.cpu);
      }
      FollowsJoin(em, head, tail, q, c, k);
      assert StraightCode(em, ip, n, tmp) == head + tail;
      k := k + 1;
    } else {
      assert StraightCode(em, ip, n, tmp) == [] && em.run([], q) == Next(q);
    }
  }

  // ---------- The end of a block ----------

  /** The interpreter is at `t`.  It does not go to a misaligned address, where translated code goes; it
      traps instead. */
  ghost predicate Arrived(s: StepResult, t: Word, q: QState) {
    if Misaligned(t) then Unaligned(s) else s.Stepped? && s.cpu.gip == t && Same(s.cpu, q)
  }

  ghost predicate Arrives(em: Emitter, c: Cpu, k: nat, t: Word, q: QState) {
    Arrived(Repeat(em.step, k, c), t, q)
  }

  /** The result `r` of a block's code, with successors `succs`, is what the interpreter gets to. */
  ghost predicate Reaches(em: Emitter, ips: seq<Word>, succs: seq<nat>, size: nat, c: Cpu, k: nat, r: Result<QState>) {
    |r.s.vregs| == size &&
    match r
    case Next(_) => false
    case Goto(j, q) => j < |succs| && succs[j] < |ips| && Arrives(em, c, k, ips[succs[j]], q)
    case Leave(exit, q) =>
      if exit.Branch? then Arrives(em, c, k, exit.target, q)
      else var s := Repeat(em.step, k, c); !s.Stepped? && !Unaligned(s) && Follows(size, r, s)
  }

  /** An instruction on its own, with any semantics. */
  lemma RunsAlone(ar: Arith, code: Code, ins: Inst, q: QState)
    requires Shaped(ins)
    ensures EmitterOf(ar, code).run([ins], q) == QStep(StateRegs(), GuestSem(ar, code.decode), ins, q)
  {
    RunOne(StateRegs(), GuestSem(ar, code.decode), ins, q);
  }

  lemma JumpSteps(gs: seq<StateReg>, sem: Semantics, t: Word, x: Operand, q: QState)
    ensures QStep(gs, sem, Inst(Br, [], []), q) == Goto(0, q) && QStep(gs, sem, Inst(GBr(t), [], []), q) == Leave(Branch(t), q)
    ensures QStep(gs, sem, Inst(GBrind, [], [x]), q) == Leave(Branch(QRead(q, x)), q)
  {
  }

  lemma BrccStep(gs: seq<StateReg>, sem: Semantics, cc: CondCode, x: Operand, y: Operand, q: QState)
    ensures QStep(gs, sem, Inst(Brcc(cc), [], [x, y]), q) == Goto(if sem.holds(cc, QRead(q, x), QRead(q, y)) then 0 else 1, q)
  {
  }

  lemma EmitterTailsOk(ar: Arith, code: Code)
    ensures TailsOk(EmitterOf(ar, code))
  {
    var em, sem, gs := EmitterOf(ar, code), GuestSem(ar, code.decode), StateRegs();
    forall q ensures em.run([Inst(Br, [], [])], q) == Goto(0, q) {
      RunsAlone(ar, code, Inst(Br, [], []), q);
      JumpSteps(gs, sem, ZERO, Vconst(ZERO), q);
    }
    forall t, q ensures em.run([Inst(GBr(t), [], [])], q) == Leave(Branch(t), q) {
      RunsAlone(ar, code, Inst(GBr(t), [], []), q);
      JumpSteps(gs, sem, t, Vconst(ZERO), q);
    }
    forall x, q ensures em.run([Inst(GBrind, [], [x])], q) == Leave(Branch(QRead(q, x)), q) {
      RunsAlone(ar, code, Inst(GBrind, [], [x]), q);
      JumpSteps(gs, sem, ZERO, x, q);
    }
    forall cc, x, y, q
      ensures em.run([Inst(Brcc(cc), [], [x, y])], q) == Goto(if em.cond(cc, QRead(q, x), QRead(q, y)) then 0 else 1, q)
    {
      RunsAlone(ar, code, Inst(Brcc(cc), [], [x, y]), q);
      BrccStep(gs, sem, cc, x, y, q);
    }
  }

  /** The code before a branch, and the interpreter's jump to `t`. */
  ghost predicate Jumps(em: Emitter, a: Word, tmp: nat, t: Word, q: QState, c: Cpu) {
    var r := em.run(em.emit(a, tmp), q);
    r.Next? && |r.s.vregs| == |q.vregs| && Arrives(em, c, 1, t, r.s)
  }

  lemma JalJumps(ar: Arith, code: Code, a: Word, tmp: nat, q: QState, c: Cpu)
    requires Laws(ar) && code.At(a).Jal? && Same(c, q) && c.gip == a && !Misaligned(a)
    ensures Jumps(EmitterOf(ar, code), a, tmp, ar.Plus(a, code.At(a).imm), q, c)
  {
    var em, i, v := EmitterOf(ar, code), code.At(a), ar.Plus(a, FOUR);
    ConstFollows(ar, GuestSem(ar, code.decode), i.rd, v, q, c);
    WritesRegister(c, q, i.rd, v);
    assert Misaligned(ar.compute(ADD, a, i.imm)) <==> Misaligned(i.imm);
    RepeatOne(em.step, c);
  }

  lemma JalrJumps(ar: Arith, code: Code, a: Word, tmp: nat, q: QState, c: Cpu)
    requires Laws(ar) && code.At(a).Jalr? && Same(c, q) && c.gip == a && NUM_GLOBALS <= tmp < |q.vregs|
    ensures var em := EmitterOf(ar, code); Jumps(em, a, tmp, QRead(em.run(em.emit(a, tmp), q).s, VGPR(I32, tmp)), q, c)
  {
    var em, i := EmitterOf(ar, code), code.At(a);
    var q' := JalrRuns(ar, code.decode, i.rd, i.rs1, i.imm, tmp, q, c);
    RepeatOne(em.step, c);
  }

  lemma BranchArrives(ar: Arith, i: Insn, c: Cpu, q: QState)
    requires Laws(ar) && Same(c, q) && !Misaligned(c.gip) && i.Bcc?
    ensures var taken := ar.cond(CondOf(i.bop), QRead(q, Gprop(i.rs1, I32)), QRead(q, Gprop(i.rs2, I32)));
            Arrived(Handle(ar, i, c), if taken then ar.Plus(c.gip, i.imm) else ar.Plus(c.gip, FOUR), q)
  {
    ReadsRegister(c, q, i.rs1, I32);
    ReadsRegister(c, q, i.rs2, I32);
    assert ar.taken(i.bop, c.gpr[i.rs1], c.gpr[i.rs2]) == ar.cond(CondOf(i.bop), c.gpr[i.rs1], c.gpr[i.rs2]);
    assert Misaligned(ar.compute(ADD, c.gip, i.imm)) <==> Misaligned(i.imm);
    assert !Misaligned(ar.compute(ADD, c.gip, FOUR));
  }

  /** A conditional branch has no code of its own. */
  lemma BccIsEmpty(ar: Arith, code: Code, a: Word, tmp: nat)
    requires code.At(a).Bcc?
    ensures EmitterOf(ar, code).emit(a, tmp) == []
  {
    StraightIsEmpty(ar, code.At(a), code.fetch(a), a, tmp);
  }

  lemma StraightIsEmpty(ar: Arith, i: Insn, raw: Word, ip: Word, tmp: nat)
    requires i.Bcc?
    ensures Straight(ar, i, raw, ip, tmp) == []
  {
  }

  lemma BccJumps(ar: Arith, code: Code, a: Word, tmp: nat, q: QState, c: Cpu)
    requires Laws(ar) && code.At(a).Bcc? && Same(c, q) && c.gip == a && !Misaligned(a)
    ensures var em, i := EmitterOf(ar, code), code.At(a);
            var taken := ar.cond(CondOf(i.bop), QRead(q, Gprop(i.rs1, I32)), QRead(q, Gprop(i.rs2, I32)));
            em.emit(a, tmp) == [] && Arrives(em, c, 1, if taken then ar.Plus(a, i.imm) else ar.Plus(a, FOUR), q)
  {
    BccIsEmpty(ar, code, a, tmp);
    OneStep(ar, code, c);
    BranchArrives(ar, code.At(a), c, q);
  }

  lemma OneStep(ar: Arith, code: Code, c: Cpu)
    requires c.Valid()
    ensures Repeat(EmitterOf(ar, code).step, 1, c) == Handle(ar, code.At(c.gip), c)
  {
    RepeatOne(EmitterOf(ar, code).step, c);
  }

  lemma TrapsAt(ar: Arith, i: Insn, c: Cpu)
    requires c.Valid() && EndsBlock(i) && !IsBranch(i)
    ensures !Handle(ar, i, c).Stepped?
  {
  }

  /** A branch to a known address. */
  lemma LeavesReaches(em: Emitter, ips: seq<Word>, block: Block, body: seq<Inst>, t: Word, q: QState, c: Cpu, k: nat)
    requires StepsOk(em) && TailsOk(em) && Leaves(ips, block, body, t) && AllShaped(body)
    requires em.run(body, q).Next? && |em.run(body, q).s.vregs| == |q.vregs| && Arrives(em, c, k, t, em.run(body, q).s)
    ensures AllShaped(block.code) && Reaches(em, ips, block.succs, |q.vregs|, c, k, em.run(block.code, q))
  {
    if block.code == body + [Inst(Br, [], [])] && |block.succs| == 1 && block.succs[0] < |ips| && ips[block.succs[0]] == t {
      assert AllShaped([Inst(Br, [], [])]);
    } else {
      assert AllShaped([Inst(GBr(t), [], [])]);
    }
  }

  /** Everything that is known about the last instruction of a block. */
  ghost predicate EndsOk(em: Emitter, a: Word, tmp: nat, q: QState, c: Cpu) {
    match em.insn(a)
    case Jal(rd, imm) => Jumps(em, a, tmp, em.plus(a, imm), q, c)
    case Jalr(rd, rs1, imm) => Jumps(em, a, tmp, QRead(em.run(em.emit(a, tmp), q).s, VGPR(I32, tmp)), q, c)
    case Bcc(bop, rs1, rs2, imm) =>
      var taken := em.cond(CondOf(bop), QRead(q, Gprop(rs1, I32)), QRead(q, Gprop(rs2, I32)));
      em.emit(a, tmp) == [] && Arrives(em, c, 1, if taken then em.plus(a, imm) else em.next(a), q)
    case _ => var s := em.step(c); !s.Stepped? && !Unaligned(s) && Follows(|q.vregs|, em.run(em.emit(a, tmp), q), s)
  }

  lemma EmitterEndsOk(ar: Arith, code: Code, a: Word, tmp: nat, q: QState, c: Cpu)
    requires Laws(ar) && Same(c, q) && c.gip == a && !Misaligned(a) && EndsBlock(code.At(a)) && NUM_GLOBALS <= tmp && tmp + Temps(code.At(a)) <= |q.vregs|
    ensures EndsOk(EmitterOf(ar, code), a, tmp, q, c)
  {
    var em := EmitterOf(ar, code);
    if code.At(a).Jal? {
      JalJumps(ar, code, a, tmp, q, c);
    } else if code.At(a).Jalr? {
      JalrJumps(ar, code, a, tmp, q, c);
    } else if code.At(a).Bcc? {
      BccJumps(ar, code, a, tmp, q, c);
    } else {
      EmitterStepsOk(ar, code);
      assert StepOk(em, a, tmp, q, c);
      TrapsAt(ar, code.At(a), c);
    }
  }

  lemma EndReaches(em: Emitter, ips: seq<Word>, block: Block, a: Word, tmp: nat, q: QState, c: Cpu)
    requires StepsOk(em) && TailsOk(em) && EndsOk(em, a, tmp, q, c) && EndsBlock(em.insn(a))
    requires Ends(em, ips, block, em.emit(a, tmp), em.insn(a), a, tmp)
    ensures AllShaped(block.code) && Reaches(em, ips, block.succs, |q.vregs|, c, 1, em.run(block.code, q))
  {
    var i := em.insn(a);
    if i.Jal? {
      LeavesReaches(em, ips, block, em.emit(a, tmp), em.plus(a, i.imm), q, c, 1);
    } else if i.Jalr? {
      assert AllShaped([Inst(GBrind, [], [VGPR(I32, tmp)])]);
    } else if i.Bcc? {
      var br := [Inst(Brcc(CondOf(i.bop)), [], [Gprop(i.rs1, I32), Gprop(i.rs2, I32)])];
      assert [] + br == br && AllShaped(br);
    } else {
      RepeatOne(em.step, c);
    }
  }

  // ---------- Blocks ----------

  ghost predicate EndsAllOk(em: Emitter) {
    forall a, tmp: nat, q, c {:trigger EndsOk(em, a, tmp, q, c)} ::
      Same(c, q) && c.gip == a && !Misaligned(a) && EndsBlock(em.insn(a)) && NUM_GLOBALS <= tmp && tmp + em.temps(a) <= |q.vregs| ==>
        EndsOk(em, a, tmp, q, c)
  }

  ghost predicate EmitterOk(em: Emitter) {
    && StepsOk(em) && TailsOk(em) && EndsAllOk(em)
    && forall a {:trigger em.next(a)} | !Misaligned(a) :: !Misaligned(em.next(a))
  }

  /** Single instructions are translated correctly. */
  lemma EmitterIsOk(ar: Arith, code: Code)
    requires Laws(ar)
    ensures EmitterOk(EmitterOf(ar, code))
  {
    var em := EmitterOf(ar, code);
    EmitterStepsOk(ar, code);
    EmitterTailsOk(ar, code);
    forall a, tmp: nat, q, c | Same(c, q) && c.gip == a && !Misaligned(a) && EndsBlock(em.insn(a)) && NUM_GLOBALS <= tmp && tmp + em.temps(a) <= |q.vregs|
      ensures EndsOk(em, a, tmp, q, c)
    {
      EmitterEndsOk(ar, code, a, tmp, q, c);
    }
    forall a | !Misaligned(a) ensures !Misaligned(em.next(a)) {
      assert Misaligned(ar.compute(ADD, a, FOUR)) <==> Misaligned(FOUR);
    }
  }

  lemma {:induction false} AddrAligned(em: Emitter, ip: Word, n: nat)
    requires EmitterOk(em) && !Misaligned(ip)
    ensures !Misaligned(AddrOf(em, ip, n))
    decreases n
  {
    if n > 0 {
      AddrAligned(em, em.next(ip), n - 1);
    }
  }

  /** A run that stops before the end of the straight-line part. */
  lemma StopsEarly(em: Emitter, ips: seq<Word>, succs: seq<nat>, body: seq<Inst>, tail: seq<Inst>, q: QState, c: Cpu, k: nat)
    requires StepsOk(em) && AllShaped(body) && AllShaped(tail)
    requires Follows(|q.vregs|, em.run(body, q), Repeat(em.step, k, c)) && !Repeat(em.step, k, c).Stepped? && !Unaligned(Repeat(em.step, k, c))
    ensures Reaches(em, ips, succs, |q.vregs|, c, k, em.run(body + tail, q))
  {
  }

  lemma ReachesLater(em: Emitter, ips: seq<Word>, succs: seq<nat>, size: nat, c: Cpu, k1: nat, c1: Cpu, k2: nat, r: Result<QState>)
    requires Repeat(em.step, k1, c) == Stepped(c1) && Reaches(em, ips, succs, size, c1, k2, r)
    ensures Reaches(em, ips, succs, size, c, k1 + k2, r)
  {
    RepeatSplit(em.step, k1, k2, c);
  }

  /** A block that was cut off by a limit. */
  lemma CutReaches(em: Emitter, ips: seq<Word>, block: Block, ip: Word, n: nat, tmp: nat, q: QState, c: Cpu) returns (k: nat)
    requires EmitterOk(em) && PlainRun(em, ip, n) && Leaves(ips, block, StraightCode(em, ip, n, tmp), AddrOf(em, ip, n))
    requires NUM_GLOBALS <= tmp && tmp + TempsUsed(em, ip, n) <= |q.vregs| && NoClobber(em, ip, n)
    requires Same(c, q) && c.gip == ip && !Misaligned(ip)
    ensures AllShaped(block.code) && Reaches(em, ips, block.succs, |q.vregs|, c, k, em.run(block.code, q)) && (n > 0 ==> k > 0)
  {
    var body, t := StraightCode(em, ip, n, tmp), AddrOf(em, ip, n);
    k := StraightRuns(em, ip, n, tmp, q, c);
    StraightShaped(em, ip, n, tmp);
    AddrAligned(em, ip, n);
    if Repeat(em.step, k, c).Stepped? {
      LeavesReaches(em, ips, block, body, t, q, c, k);
    } else {
      var tail := block.code[|body|..];
      assert block.code == body + tail && (tail == [Inst(Br, [], [])] || tail == [Inst(GBr(t), [], [])]);
      StopsEarly(em, ips, block.succs, body, tail, q, c, k);
    }
  }

  /** The shape of the end, without the part before it. */
  lemma EndAlone(em: Emitter, ips: seq<Word>, block: Block, body: seq<Inst>, a: Word, tmp: nat) returns (end: Block)
    requires Ends(em, ips, block, body + em.emit(a, tmp), em.insn(a), a, tmp)
    ensures block.code == body + end.code && end.succs == block.succs && Ends(em, ips, end, em.emit(a, tmp), em.insn(a), a, tmp)
  {
    var i := em.insn(a);
    var last := block.code[|body + em.emit(a, tmp)|..];
    assert block.code == (body + em.emit(a, tmp)) + last;
    end := Block(em.emit(a, tmp) + last, block.succs);
    assert block.code == body + end.code;
  }

  lemma EndedReaches(em: Emitter, ips: seq<Word>, block: Block, ip: Word, n: nat, tmp: nat, q: QState, c: Cpu) returns (k: nat)
    requires EmitterOk(em) && BlockFor(em, ips, block, ip, Run(n, tmp, false))
    requires NUM_GLOBALS <= tmp && tmp + TempsUsed(em, ip, n + 1) <= |q.vregs| && NoClobber(em, ip, n + 1)
    requires Same(c, q) && c.gip == ip && !Misaligned(ip)
    ensures AllShaped(block.code) && Reaches(em, ips, block.succs, |q.vregs|, c, k, em.run(block.code, q)) && k > 0
  {
    RunExtends(em, ip, n, tmp);
    var body, a, tmp' := StraightCode(em, ip, n, tmp), AddrOf(em, ip, n), tmp + TempsUsed(em, ip, n);
    var end := EndAlone(em, ips, block, body, a, tmp');
    k := StraightRuns(em, ip, n, tmp, q, c);
    StraightShaped(em, ip, n, tmp);
    AddrAligned(em, ip, n);
    EndShaped(em, ips, end, a, tmp');
    k := JoinEnd(em, ips, body, end, a, tmp', q, c, k);
  }

  lemma JoinEnd(em: Emitter, ips: seq<Word>, body: seq<Inst>, end: Block, a: Word, tmp: nat, q: QState, c: Cpu, k: nat) returns (k': nat)
    requires EmitterOk(em) && AllShaped(body) && AllShaped(end.code) && EndsBlock(em.insn(a)) && !Misaligned(a)
    requires Ends(em, ips, end, em.emit(a, tmp), em.insn(a), a, tmp) && NUM_GLOBALS <= tmp && tmp + em.temps(a) <= |q.vregs|
    requires var s := Repeat(em.step, k, c); Follows(|q.vregs|, em.run(body, q), s) && !Unaligned(s) && (s.Stepped? ==> s.cpu.gip == a)
    ensures Reaches(em, ips, end.succs, |q.vregs|, c, k', em.run(body + end.code, q)) && k' > 0
  {
    var s := Repeat(em.step, k, c);
    k' := k;
    if s.Stepped? {
      var q1 := em.run(body, q).s;
      assert EndsOk(em, a, tmp, q1, s.cpu);
      EndReaches(em, ips, end, a, tmp, q1, s.cpu);
      ReachesLater(em, ips, end.succs, |q.vregs|, c, k, s.cpu, 1, em.run(end.code, q1));
      k' := k + 1;
    } else {
      StopsEarly(em, ips, end.succs, body, end.code, q, c, k);
    }
  }

  lemma EndShaped(em: Emitter, ips: seq<Word>, end: Block, a: Word, tmp: nat)
    requires StepsOk(em) && EndsBlock(em.insn(a)) && Ends(em, ips, end, em.emit(a, tmp), em.insn(a), a, tmp)
    ensures AllShaped(end.code)
  {
    assert AllShaped(em.emit(a, tmp));
  }

  /** A translated block does what the interpreter does over the same instructions: it stops with the
      same trap and the same state, or it gets to the same address with the same state.  Only where the
      interpreter traps because an address is misaligned does translated code go to that address. */
  lemma BlockReaches(em: Emitter, ips: seq<Word>, block: Block, ip: Word, p: Plan, q: QState, c: Cpu) returns (k: nat)
    requires EmitterOk(em) && BlockFor(em, ips, block, ip, p) && Fits(em, ip, p, |q.vregs|) && NoClobber(em, ip, Length(p))
    requires Same(c, q) && c.gip == ip && !Misaligned(ip)
    ensures AllShaped(block.code) && Reaches(em, ips, block.succs, |q.vregs|, c, k, em.run(block.code, q))
    ensures em.run(block.code, q).Goto? ==> k > 0
  {
    if p.Exit? {
      k := 0;
      assert em.run([Inst(GBr(ip), [], [])], q) == Leave(Branch(ip), q);
    } else if p.cut {
      k := CutReaches(em, ips, block, ip, p.n, p.tmp, q, c);
    } else {
      k := EndedReaches(em, ips, block, ip, p.n, p.tmp, q, c);
    }
  }

  /** A jump without link out of the region is a block by itself. */
  lemma JumpBlock(em: Emitter, a: Word, t: Word, tmp: nat)
    requires em.insn(a).Jal? && em.emit(a, tmp) == [] && t == em.plus(a, em.insn(a).imm)
    ensures BlockFor(em, [a], Block([Inst(GBr(t), [], [])], []), a, Run(0, tmp, false))
  {
    assert StraightCode(em, a, 0, tmp) == [] && ([] + []) + [Inst(GBr(t), [], [])] == [Inst(GBr(t), [], [])];
  }

  lemma JumpIsEmpty(ar: Arith, code: Code, a: Word, tmp: nat)
    requires code.At(a).Jal? && code.At(a).rd == 0
    ensures EmitterOf(ar, code).emit(a, tmp) == []
  {
    LinkIsEmpty(ar, code.At(a), code.fetch(a), a, tmp);
  }

  lemma LinkIsEmpty(ar: Arith, i: Insn, raw: Word, ip: Word, tmp: nat)
    requires i.Jal? && i.rd == 0
    ensures Straight(ar, i, raw, ip, tmp) == []
  {
  }

  lemma JumpLeaves(ar: Arith, code: Code, t: Word, q: QState)
    ensures RunOf(ar, code, [Inst(GBr(t), [], [])], q) == Leave(Branch(t), q)
  {
    RunsAlone(ar, code, Inst(GBr(t), [], []), q);
    JumpSteps(StateRegs(), GuestSem(ar, code.decode), t, Vconst(ZERO), q);
  }

  /** For example a jump by two at address zero: the interpreter traps, translated code goes there. */
  lemma MisalignedExample(ar: Arith, code: Code, q: QState, c: Cpu)
    requires Laws(ar) && code.At(ZERO) == Jal(0, Word(2, 0, 0, 0)) && Same(c, q) && c.gip == ZERO
    ensures var t := ar.Plus(ZERO, Word(2, 0, 0, 0));
            var block := Block([Inst(GBr(t), [], [])], []);
            && BlockFor(EmitterOf(ar, code), [ZERO], block, ZERO, Run(0, NUM_GLOBALS, false))
            && RunOf(ar, code, block.code, q) == Leave(Branch(t), q)
            && Interpret(ar, code, 1, c) == Raise(UNALIGNED_IP, c)
  {
    var t := ar.Plus(ZERO, Word(2, 0, 0, 0));
    InterpretOne(ar, code, c);
    JumpLeaves(ar, code, t, q);
    JumpIsEmpty(ar, code, ZERO, NUM_GLOBALS);
    JumpBlock(EmitterOf(ar, code), ZERO, t, NUM_GLOBALS);
  }
}
