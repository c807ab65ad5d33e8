/** The QuickIR that `dbt/guest/rv32_qir.cpp` emits for one instruction, with the folding of
    `dbt/qmc/qir_opt.cpp`, and why it does what the interpreter does. */
module Rv32Emission {
  import opened Common
  import opened Qir
  import opened Rv32

  // ---------- Guest semantics of QuickIR ----------

  const IP: nat := 31

  const NUM_GLOBALS: nat := 32

  /** The instruction pointer is only reached through its state slot. */
  const SLOTS: set<nat> := {IP}

  /** x1 to x31 lie behind x0 at the start of `CPUState`, followed by the instruction pointer. */
  function StateRegs(): (gs: seq<StateReg>)
    ensures |gs| == NUM_GLOBALS && forall v: nat | v < |gs| :: gs[v] == StateReg(4 * (v + 1), I32)
  {
    seq(NUM_GLOBALS, v requires 0 <= v < NUM_GLOBALS => StateReg(4 * (v + 1), I32))
  }

  function TrapWord(t: TrapCode): Word {
    match t
    case UNALIGNED_IP => Word(1, 0, 0, 0)
    case ILLEGAL_INSN => Word(2, 0, 0, 0)
    case EBREAK => Word(3, 0, 0, 0)
    case ECALL => Word(4, 0, 0, 0)
  }

  /** The processor that a runtime stub finds in `CPUState`. */
  function StubEntry(globals: seq<Word>, mem: Mem): (c: Cpu)
    requires |globals| == NUM_GLOBALS
    ensures c.Valid()
  {
    var gpr := seq(32, r requires 0 <= r < 32 => if r == 0 then ZERO else globals[r - 1]);
    Cpu(gpr, globals[IP], globals[IP], mem)
  }

  /** The globals that it leaves there. */
  function StubExit(c: Cpu, ip: Word): (globals: seq<Word>)
    requires c.Valid()
    ensures |globals| == NUM_GLOBALS
  {
    seq(NUM_GLOBALS, v requires 0 <= v < NUM_GLOBALS => if v == IP then ip else c.gpr[v + 1])
  }

  /** Which handler a runtime stub calls, by its number: the order of RUNTIME_STUBS.  The handler reads the
      operand fields of the word that it is given; only words of atomic instructions have those of one. */
  function StubInsn(stub: nat, i: Decoded): Decoded {
    match stub
    case 10 => Fence
    case 11 => FenceI
    case 12 => Ecall
    case 13 => Ebreak
    case 14 => AsAmo(LRW, i)
    case 15 => AsAmo(SCW, i)
    case 16 => AsAmo(AMOSWAPW, i)
    case 17 => AsAmo(AMOADDW, i)
    case 18 => AsAmo(AMOXORW, i)
    case 19 => AsAmo(AMOANDW, i)
    case 20 => AsAmo(AMOORW, i)
    case 21 => AsAmo(AMOMINW, i)
    case 22 => AsAmo(AMOMAXW, i)
    case 23 => AsAmo(AMOMINUW, i)
    case 24 => AsAmo(AMOMAXUW, i)
    case _ => Ill
  }

  function AsAmo(amo: AmoOp, i: Decoded): Decoded {
    if i.Amo? then Amo(amo, i.rd, i.rs1, i.rs2) else Ill
  }

  /** qcgstub_rv32_*: the interpreter's handler, entered and left through `CPUState`. */
  function Stub(ar: Arith, i: Decoded, globals: seq<Word>, mem: Mem): HelperResult
    requires |globals| == NUM_GLOBALS
  {
    match Handle(ar, i, StubEntry(globals, mem))
    case Stepped(c) => Returned(StubExit(c, c.gip), c.mem)
    case Traps(t, c) => Stopped(Raised(TrapWord(t)), StubExit(c, c.ip), c.mem)
    case Fault(c) => Stopped(Faulted, StubExit(c, c.ip), c.mem)
  }

  /** What QuickIR operations mean on the host; a helper runs its handler on the word that it is given. */
  function GuestSem(ar: Arith, decode: Word -> Decoded): Semantics {
    Semantics(
      ar.host, ar.cond,
      (mem, sz, sgn, a) => LoadWord(mem, sz, sgn, a),
      (mem, sz, a, w) => StoreWord(mem, sz, a, w),
      (stub, arg, globals, mem) => if |globals| == NUM_GLOBALS then Stub(ar, StubInsn(stub, decode(arg)), globals, mem) else Returned(globals, mem))
  }

  // ---------- Operands and folding ----------

  function Vconst(x: Word): Operand {
    Const(I32, x)
  }

  function Vgpr(r: Reg): Operand
    requires r != 0
  {
    VGPR(I32, r - 1)
  }

  function Gprop(r: Reg, ty: VType): Operand {
    if r == 0 then Const(ty, ZERO) else VGPR(ty, r - 1)
  }

  /** Create_add with FolderVisitor: a sum of constants becomes a move, constants go second, and adding
      zero becomes a move. */
  function CreateAdd(ar: Arith, d: Operand, a: Operand, b: Operand): (ins: Inst)
    ensures Shaped(ins)
  {
    if a.Const? && b.Const? then MakeMov(d, Vconst(ar.Plus(a.val, b.val)))
    else
      var (x, y) := if a.Const? then (b, a) else (a, b);
      if y.Const? && y.val == ZERO then MakeMov(d, x) else Inst(Binop(Add), [d], [x, y])
  }

  lemma MovStep(gs: seq<StateReg>, sem: Semantics, d: Operand, a: Operand, q: QState)
    ensures QStep(gs, sem, MakeMov(d, a), q) == Next(QWrite(gs, q, d, QRead(q, a)))
  {
  }

  lemma BinopStep(gs: seq<StateReg>, sem: Semantics, op: BinaryOp, d: Operand, a: Operand, b: Operand, q: QState)
    ensures QStep(gs, sem, Inst(Binop(op), [d], [a, b]), q) == Next(QWrite(gs, q, d, sem.alu(op, QRead(q, a), QRead(q, b))))
  {
  }

  lemma SetccStep(gs: seq<StateReg>, sem: Semantics, cc: CondCode, d: Operand, a: Operand, b: Operand, q: QState)
    ensures QStep(gs, sem, Inst(Setcc(cc), [d], [a, b]), q) ==
            Next(QWrite(gs, q, d, if sem.holds(cc, QRead(q, a), QRead(q, b)) then ONE else ZERO))
  {
  }

  /** Folding does not change what the addition means. */
  lemma FoldingPreservesMeaning(ar: Arith, gs: seq<StateReg>, sem: Semantics, d: Operand, a: Operand, b: Operand, q: QState)
    requires a.ty == b.ty == I32 && sem.alu == ar.host && OperatorsAgree(ar) && AdditionLaws(ar)
    ensures QStep(gs, sem, CreateAdd(ar, d, a, b), q) == QStep(gs, sem, Inst(Binop(Add), [d], [a, b]), q)
    ensures QStep(gs, sem, CreateAdd(ar, d, a, b), q) == Next(QWrite(gs, q, d, ar.Plus(QRead(q, a), QRead(q, b))))
  {
    var v, w := QRead(q, a), QRead(q, b);
    assert ar.compute(ADD, v, w) == ar.host(BinaryOf(ADD), v, w) && ar.compute(ADD, w, v) == ar.host(BinaryOf(ADD), w, v);
    assert ar.compute(ADD, v, ZERO) == v && ar.compute(ADD, w, ZERO) == w;
    BinopStep(gs, sem, Add, d, a, b, q);
    if a.Const? && b.Const? {
      MovStep(gs, sem, d, Vconst(ar.Plus(a.val, b.val)), q);
    } else if a.Const? {
      BinopStep(gs, sem, Add, d, b, a, q);
      MovStep(gs, sem, d, b, q);
    } else {
      MovStep(gs, sem, d, a, q);
    }
  }

  // ---------- Emission ----------

  /** PreSideeff: the address of the instruction goes to the state slot. */
  function PreSideeff(ip: Word): Inst {
    MakeMov(Slot(true, I32, 4 * (IP + 1)), Vconst(ip))
  }

  function CreateAlu(ar: Arith, aop: AluOp, d: Operand, a: Operand, b: Operand): Inst {
    match aop
    case SLT => Inst(Setcc(LT), [d], [a, b])
    case SLTU => Inst(Setcc(LTU), [d], [a, b])
    case ADD => CreateAdd(ar, d, a, b)
    case _ => Inst(Binop(BinaryOf(aop)), [d], [a, b])
  }

  /** The address operand of a load or store, and the addition that computes it. */
  function Address(ar: Arith, rs1: Reg, imm: Word, tmp: nat): (seq<Inst>, Operand) {
    if imm != ZERO then ([CreateAdd(ar, VGPR(I32, tmp), Gprop(rs1, I32), Vconst(imm))], VGPR(I32, tmp))
    else ([], Gprop(rs1, I32))
  }

  /** Temporaries that an instruction needs. */
  function Temps(i: Insn): nat {
    if i.Jalr? || ((i.Load? || i.Store?) && i.imm != ZERO) then 1 else 0
  }

  /** Instructions that end a block: branches and those that always trap. */
  predicate EndsBlock(i: Insn) {
    i.Jal? || i.Jalr? || i.Bcc? || i.Ecall? || i.Ebreak? || i.Ill?
  }

  predicate IsBranch(i: Insn) {
    i.Jal? || i.Jalr? || i.Bcc?
  }

  /** Flags::Trap or Flags::MayTrap. */
  predicate MayTrap(i: Insn) {
    i.Load? || i.Store? || i.Amo? || i.Ecall? || i.Ebreak? || i.Ill?
  }

  function AmoIndex(amo: AmoOp): nat {
    match amo
    case LRW => 0
    case SCW => 1
    case AMOSWAPW => 2
    case AMOADDW => 3
    case AMOXORW => 4
    case AMOANDW => 5
    case AMOORW => 6
    case AMOMINW => 7
    case AMOMAXW => 8
    case AMOMINUW => 9
    case AMOMAXUW => 10
  }

  /** The rv32 stubs follow nine others. */
  function StubId(i: Insn): nat {
    match i
    case Fence => 10
    case FenceI => 11
    case Ecall => 12
    case Ebreak => 13
    case Amo(amo, _, _, _) => 14 + AmoIndex(amo)
    case _ => 9
  }

  /** Code for an instruction that sets a register and does nothing else. */
  function SetsReg(rd: Reg, ins: Inst): seq<Inst> {
    if rd != 0 then [ins] else []
  }

  function AluCode(ar: Arith, aop: AluOp, rd: Reg, a: Operand, b: Operand): seq<Inst> {
    SetsReg(rd, CreateAlu(ar, aop, VGPR(I32, if rd == 0 then 0 else rd - 1), a, b))
  }

  function ConstCode(rd: Reg, v: Word): seq<Inst> {
    SetsReg(rd, MakeMov(VGPR(I32, if rd == 0 then 0 else rd - 1), Vconst(v)))
  }

  /** A load into x0 needs a destination; the address operand serves as one. */
  function LoadCode(ar: Arith, sz: VType, sgn: VSign, rd: Reg, rs1: Reg, imm: Word, ip: Word, tmp: nat): seq<Inst> {
    var (pre, addr) := Address(ar, rs1, imm, tmp);
    [PreSideeff(ip)] + pre + [Inst(VMLoad(sz, sgn), [if rd != 0 then Vgpr(rd) else addr], [addr])]
  }

  function StoreCode(ar: Arith, sz: VType, rs1: Reg, rs2: Reg, imm: Word, ip: Word, tmp: nat): seq<Inst> {
    var (pre, addr) := Address(ar, rs1, imm, tmp);
    [PreSideeff(ip)] + pre + [Inst(VMStore(sz), [], [addr, Gprop(rs2, sz)])]
  }

  function JalrCode(ar: Arith, rd: Reg, rs1: Reg, imm: Word, ip: Word, tmp: nat): seq<Inst> {
    var t := VGPR(I32, tmp);
    [CreateAdd(ar, t, Gprop(rs1, I32), Vconst(imm)), Inst(Binop(And), [t], [t, Vconst(CLEAR_BIT_0)])] + Link(ar, rd, ip)
  }

  function HelperCode(i: Insn, raw: Word, ip: Word): seq<Inst> {
    (if MayTrap(i) then [PreSideeff(ip)] else []) + [Inst(Hcall(StubId(i)), [], [Vconst(raw)])]
  }

  /** What is emitted for an instruction, without the transfer of control of branches. */
  function Straight(ar: Arith, i: Insn, raw: Word, ip: Word, tmp: nat): seq<Inst> {
    match i
    case Lui(rd, imm) => ConstCode(rd, imm)
    case Auipc(rd, imm) => ConstCode(rd, ar.Plus(imm, ip))
    case Jal(rd, imm) => Link(ar, rd, ip)
    case Jalr(rd, rs1, imm) => JalrCode(ar, rd, rs1, imm, ip, tmp)
    case Bcc(_, _, _, _) => []
    case Load(sz, sgn, rd, rs1, imm) => LoadCode(ar, sz, sgn, rd, rs1, imm, ip, tmp)
    case Store(sz, rs1, rs2, imm) => StoreCode(ar, sz, rs1, rs2, imm, ip, tmp)
    case OpImm(aop, rd, rs1, imm) => AluCode(ar, aop, rd, Gprop(rs1, I32), Vconst(imm))
    case OpReg(aop, rd, rs1, rs2) => AluCode(ar, aop, rd, Gprop(rs1, I32), Gprop(rs2, I32))
    case _ => HelperCode(i, raw, ip)
  }

  /** The return address. */
  function Link(ar: Arith, rd: Reg, ip: Word): seq<Inst> {
    ConstCode(rd, ar.Plus(ip, FOUR))
  }

  /** A load into x0 without offset uses its own address operand as destination. */
  predicate ClobbersBase(i: Insn) {
    i.Load? && i.rd == 0 && i.imm == ZERO
  }

  // ---------- Agreement with the interpreter ----------

  /** The registers and memory of the interpreter; the instruction pointer is not part of it. */
  ghost predicate Same(c: Cpu, q: QState) {
    && c.Valid() && NUM_GLOBALS <= |q.vregs| && q.mem == c.mem
    && forall r: nat {:trigger c.gpr[r]} | 0 < r < 32 :: q.vregs[r - 1] == c.gpr[r]
  }

  /** Where execution stops, the instruction pointer agrees as well. */
  ghost predicate SameAndIp(c: Cpu, q: QState) {
    Same(c, q) && q.vregs[IP] == c.ip
  }

  /** The emitted code has the interpreter's outcome. */
  ghost predicate Follows(n: nat, r: Result<QState>, s: StepResult) {
    |r.s.vregs| == n &&
    match s
    case Stepped(c) => r.Next? && Same(c, r.s)
    case Traps(t, c) => r.Leave? && r.exit == Raised(TrapWord(t)) && SameAndIp(c, r.s)
    case Fault(c) => r.Leave? && r.exit == Faulted && SameAndIp(c, r.s)
  }

  lemma ReadsRegister(c: Cpu, q: QState, r: Reg, ty: VType)
    requires Same(c, q)
    ensures QRead(q, Gprop(r, ty)) == Trunc(ty, c.gpr[r])
  {
  }

  lemma WritesRegister(c: Cpu, q: QState, rd: Reg, v: Word)
    requires Same(c, q)
    ensures rd != 0 ==> Same(SetReg(c, rd, v), QSet(q, rd - 1, v))
    ensures rd == 0 ==> Same(SetReg(c, rd, v), q)
  {
  }

  /** Registers above the globals are not visible to the guest. */
  lemma WritesTemp(c: Cpu, q: QState, v: nat, w: Word)
    requires Same(c, q) && v >= IP
    ensures Same(c, QSet(q, v, w))
  {
  }

  lemma RunOne(gs: seq<StateReg>, sem: Semantics, a: Inst, q: QState)
    requires Shaped(a)
    ensures AllShaped([a]) && QRun(gs, sem, [a], q) == QStep(gs, sem, a, q)
  {
    var code := [a];
    assert code[1..] == [];
    var r := QStep(gs, sem, a, q);
    if r.Next? {
      assert QRun(gs, sem, code[1..], r.s) == r;
    }
  }

  /** An instruction followed by others. */
  lemma RunCons(gs: seq<StateReg>, sem: Semantics, a: Inst, rest: seq<Inst>, q: QState, q': QState)
    requires Shaped(a) && AllShaped(rest) && QStep(gs, sem, a, q) == Next(q')
    ensures AllShaped([a] + rest) && QRun(gs, sem, [a] + rest, q) == QRun(gs, sem, rest, q')
  {
    var code := [a] + rest;
    assert code[1..] == rest && code[0] == a;
  }

  lemma PreSideeffStep(sem: Semantics, ip: Word, q: QState)
    requires NUM_GLOBALS <= |q.vregs|
    ensures QStep(StateRegs(), sem, PreSideeff(ip), q) == Next(QSet(q, IP, ip))
  {
    SlotOfIp(StateRegs());
  }

  lemma SlotOfIp(gs: seq<StateReg>)
    requires |gs| == NUM_GLOBALS && gs[IP].offs == 4 * (IP + 1)
    ensures GlobalAt(gs, 4 * (IP + 1)) == Some(IP)
  {
  }

  ghost predicate Laws(ar: Arith) {
    OperatorsAgree(ar) && AdditionLaws(ar)
  }

  lemma AluStep(ar: Arith, gs: seq<StateReg>, sem: Semantics, aop: AluOp, d: Operand, a: Operand, b: Operand, q: QState)
    requires a.ty == b.ty == I32 && sem.alu == ar.host && sem.holds == ar.cond && Laws(ar)
    ensures Shaped(CreateAlu(ar, aop, d, a, b))
    ensures QStep(gs, sem, CreateAlu(ar, aop, d, a, b), q) == Next(QWrite(gs, q, d, ComputeReg(ar, aop, QRead(q, a), QRead(q, b))))
  {
    var x, y := QRead(q, a), QRead(q, b);
    match aop
    case ADD => FoldingPreservesMeaning(ar, gs, sem, d, a, b, q);
    case SLT => SetccStep(gs, sem, LT, d, a, b, q);
    case SLTU => SetccStep(gs, sem, LTU, d, a, b, q);
    case _ =>
      BinopStep(gs, sem, BinaryOf(aop), d, a, b, q);
      assert ComputeReg(ar, aop, x, y) == ar.host(BinaryOf(aop), x, y);
  }

  lemma SetsRegFollows(ar: Arith, sem: Semantics, rd: Reg, ins: Inst, v: Word, q: QState, c: Cpu)
    requires Same(c, q) && Shaped(ins) && (rd != 0 ==> QStep(StateRegs(), sem, ins, q) == Next(QSet(q, rd - 1, v)))
    ensures AllShaped(SetsReg(rd, ins))
    ensures QRun(StateRegs(), sem, SetsReg(rd, ins), q) == Next(if rd != 0 then QSet(q, rd - 1, v) else q)
    ensures Follows(|q.vregs|, QRun(StateRegs(), sem, SetsReg(rd, ins), q), Stepped(Advance(ar, SetReg(c, rd, v))))
  {
    WritesRegister(c, q, rd, v);
    RunOne(StateRegs(), sem, ins, q);
  }

  lemma AluFollows(ar: Arith, sem: Semantics, aop: AluOp, rd: Reg, a: Operand, b: Operand, q: QState, c: Cpu)
    requires Laws(ar) && Same(c, q) && a.ty == b.ty == I32 && sem.alu == ar.host && sem.holds == ar.cond
    ensures AllShaped(AluCode(ar, aop, rd, a, b))
    ensures Follows(|q.vregs|, QRun(StateRegs(), sem, AluCode(ar, aop, rd, a, b), q),
                    Stepped(Advance(ar, SetReg(c, rd, ComputeReg(ar, aop, QRead(q, a), QRead(q, b))))))
  {
    var d := VGPR(I32, if rd == 0 then 0 else rd - 1);
    AluStep(ar, StateRegs(), sem, aop, d, a, b, q);
    SetsRegFollows(ar, sem, rd, CreateAlu(ar, aop, d, a, b), ComputeReg(ar, aop, QRead(q, a), QRead(q, b)), q, c);
  }

  lemma ConstFollows(ar: Arith, sem: Semantics, rd: Reg, v: Word, q: QState, c: Cpu)
    requires Same(c, q)
    ensures AllShaped(ConstCode(rd, v))
    ensures QRun(StateRegs(), sem, ConstCode(rd, v), q) == Next(if rd != 0 then QSet(q, rd - 1, v) else q)
    ensures Follows(|q.vregs|, QRun(StateRegs(), sem, ConstCode(rd, v), q), Stepped(Advance(ar, SetReg(c, rd, v))))
  {
    var d := VGPR(I32, if rd == 0 then 0 else rd - 1);
    MovStep(StateRegs(), sem, d, Vconst(v), q);
    SetsRegFollows(ar, sem, rd, MakeMov(d, Vconst(v)), v, q, c);
  }

  // ---------- Memory ----------

  /** The temporaries of the instruction start at `tmp`, above the globals. */
  predicate HasTemps(i: Insn, tmp: nat, q: QState) {
    NUM_GLOBALS <= tmp && tmp + Temps(i) <= |q.vregs|
  }

  lemma AddressFollows(ar: Arith, sem: Semantics, rs1: Reg, imm: Word, tmp: nat, q: QState, c: Cpu) returns (q': QState)
    requires Laws(ar) && Same(c, q) && sem.alu == ar.host && NUM_GLOBALS <= tmp && (imm != ZERO ==> tmp < |q.vregs|)
    ensures var (pre, addr) := Address(ar, rs1, imm, tmp);
            AllShaped(pre) && QRun(StateRegs(), sem, pre, q) == Next(q') && QRead(q', addr) == ar.Plus(c.gpr[rs1], imm)
    ensures Same(c, q') && |q'.vregs| == |q.vregs| && q'.vregs[IP] == q.vregs[IP]
  {
    ReadsRegister(c, q, rs1, I32);
    if imm != ZERO {
      var d := VGPR(I32, tmp);
      FoldingPreservesMeaning(ar, StateRegs(), sem, d, Gprop(rs1, I32), Vconst(imm), q);
      RunOne(StateRegs(), sem, CreateAdd(ar, d, Gprop(rs1, I32), Vconst(imm)), q);
      q' := QSet(q, tmp, ar.Plus(c.gpr[rs1], imm));
      WritesTemp(c, q, tmp, ar.Plus(c.gpr[rs1], imm));
    } else {
      q' := q;
      assert ar.compute(ADD, c.gpr[rs1], ZERO) == c.gpr[rs1];
    }
  }

  /** A memory instruction: the instruction pointer is saved, the address computed, and memory accessed. */
  lemma AccessRuns(ar: Arith, sem: Semantics, rs1: Reg, imm: Word, tmp: nat, last: Inst, q: QState, c: Cpu) returns (q': QState)
    requires Laws(ar) && Same(c, q) && sem.alu == ar.host && NUM_GLOBALS <= tmp && (imm != ZERO ==> tmp < |q.vregs|) && Shaped(last)
    ensures var (pre, addr) := Address(ar, rs1, imm, tmp);
            AllShaped([PreSideeff(c.gip)] + pre + [last]) &&
            QRun(StateRegs(), sem, [PreSideeff(c.gip)] + pre + [last], q) == QStep(StateRegs(), sem, last, q') &&
            QRead(q', addr) == ar.Plus(c.gpr[rs1], imm)
    ensures SameAndIp(c.(ip := c.gip), q') && |q'.vregs| == |q.vregs|
  {
    var (pre, addr) := Address(ar, rs1, imm, tmp);
    var q1 := QSet(q, IP, c.gip);
    PreSideeffStep(sem, c.gip, q);
    WritesTemp(c, q, IP, c.gip);
    q' := AddressFollows(ar, sem, rs1, imm, tmp, q1, c);
    RunOne(StateRegs(), sem, last, q');
    QRunConcat(StateRegs(), sem, pre, [last], q1);
    RunCons(StateRegs(), sem, PreSideeff(c.gip), pre + [last], q, q1);
    assert [PreSideeff(c.gip)] + (pre + [last]) == [PreSideeff(c.gip)] + pre + [last];
  }

  lemma LoadStep(sem: Semantics, sz: VType, sgn: VSign, d: Operand, addr: Operand, q: QState)
    ensures var r, v := QStep(StateRegs(), sem, Inst(VMLoad(sz, sgn), [d], [addr]), q), sem.load(q.mem, sz, sgn, QRead(q, addr));
            r == if v.Some? then Next(QWrite(StateRegs(), q, d, v.value)) else Leave(Faulted, q)
  {
  }

  lemma StoreStep(sem: Semantics, sz: VType, addr: Operand, data: Operand, q: QState)
    ensures var r, v := QStep(StateRegs(), sem, Inst(VMStore(sz), [], [addr, data]), q), sem.store(q.mem, sz, QRead(q, addr), QRead(q, data));
            r == if v.Some? then Next(q.(mem := v.value)) else Leave(Faulted, q)
  {
  }

  lemma LoadOutcome(ar: Arith, rd: Reg, d: Operand, v: Option<Word>, q: QState, c: Cpu)
    requires SameAndIp(c, q) && d.VGPR? && d.ty == I32 && (if rd != 0 then d == Vgpr(rd) else d.v >= NUM_GLOBALS)
    ensures Follows(|q.vregs|, if v.Some? then Next(QWrite(StateRegs(), q, d, v.value)) else Leave(Faulted, q),
                    if v.Some? then Stepped(Advance(ar, SetReg(c, rd, v.value))) else Fault(c))
  {
    if v.Some? {
      WritesRegister(c, q, rd, v.value);
      if rd == 0 {
        WritesTemp(SetReg(c, 0, v.value), q, d.v, v.value);
      }
    }
  }

  lemma LoadFollows(ar: Arith, decode: Word -> Decoded, sz: VType, sgn: VSign, rd: Reg, rs1: Reg, imm: Word, tmp: nat, q: QState, c: Cpu)
    requires Laws(ar) && Same(c, q) && !(rd == 0 && imm == ZERO) && NUM_GLOBALS <= tmp && (imm != ZERO ==> tmp < |q.vregs|)
    ensures AllShaped(LoadCode(ar, sz, sgn, rd, rs1, imm, c.gip, tmp))
    ensures Follows(|q.vregs|, QRun(StateRegs(), GuestSem(ar, decode), LoadCode(ar, sz, sgn, rd, rs1, imm, c.gip, tmp), q),
                    HandleLoad(ar, sz, sgn, rd, ar.Plus(c.gpr[rs1], imm), c.(ip := c.gip)))
  {
    var sem := GuestSem(ar, decode);
    var (pre, addr) := Address(ar, rs1, imm, tmp);
    var d := if rd != 0 then Vgpr(rd) else addr;
    var q' := AccessRuns(ar, sem, rs1, imm, tmp, Inst(VMLoad(sz, sgn), [d], [addr]), q, c);
    LoadStep(sem, sz, sgn, d, addr, q');
    LoadOutcome(ar, rd, d, LoadWord(c.mem, sz, sgn, ar.Plus(c.gpr[rs1], imm)), q', c.(ip := c.gip));
  }

  lemma StoreIgnoresHighBytes(mem: Mem, sz: VType, a: Word, v: Word)
    ensures StoreWord(mem, sz, a, Trunc(sz, v)) == StoreWord(mem, sz, a, v)
  {
  }

  lemma StoreFollows(ar: Arith, decode: Word -> Decoded, sz: VType, rs1: Reg, rs2: Reg, imm: Word, tmp: nat, q: QState, c: Cpu)
    requires Laws(ar) && Same(c, q) && NUM_GLOBALS <= tmp && (imm != ZERO ==> tmp < |q.vregs|)
    ensures AllShaped(StoreCode(ar, sz, rs1, rs2, imm, c.gip, tmp))
    ensures Follows(|q.vregs|, QRun(StateRegs(), GuestSem(ar, decode), StoreCode(ar, sz, rs1, rs2, imm, c.gip, tmp), q),
                    HandleStore(ar, sz, c.gpr[rs2], ar.Plus(c.gpr[rs1], imm), c.(ip := c.gip)))
  {
    var sem := GuestSem(ar, decode);
    var (pre, addr) := Address(ar, rs1, imm, tmp);
    var q' := AccessRuns(ar, sem, rs1, imm, tmp, Inst(VMStore(sz), [], [addr, Gprop(rs2, sz)]), q, c);
    StoreStep(sem, sz, addr, Gprop(rs2, sz), q');
    ReadsRegister(c.(ip := c.gip), q', rs2, sz);
    StoreIgnoresHighBytes(c.mem, sz, ar.Plus(c.gpr[rs1], imm), c.gpr[rs2]);
  }

  // ---------- Helpers ----------

  lemma StubEntryIs(q: QState, c: Cpu)
    requires Same(c, q)
    ensures |QGlobals(StateRegs(), q)| == NUM_GLOBALS
    ensures StubEntry(QGlobals(StateRegs(), q), q.mem) == Cpu(c.gpr, q.vregs[IP], q.vregs[IP], c.mem)
  {
    var globals := QGlobals(StateRegs(), q);
    var e := StubEntry(globals, q.mem);
    forall r: nat | r < 32 ensures e.gpr[r] == c.gpr[r] {
    }
    assert e.gpr == c.gpr;
  }

  lemma StubExitIs(q: QState, c: Cpu, ip: Word)
    requires c.Valid() && NUM_GLOBALS <= |q.vregs|
    ensures var q' := QWithGlobals(StateRegs(), q, StubExit(c, ip), c.mem);
            Same(c, q') && q'.vregs[IP] == ip && |q'.vregs| == |q.vregs|
  {
    var fit := Fit(StateRegs(), StubExit(c, ip));
    forall v: nat | v < NUM_GLOBALS ensures fit[v] == StubExit(c, ip)[v] {
    }
  }

  /** Each helper instruction calls the stub of its own handler. */
  lemma StubOfInsn(i: Decoded)
    requires IsHelper(i)
    ensures StubInsn(StubId(i), i) == i
  {
    if i.Amo? {
      assert AsAmo(i.amo, i) == i;
      match i.amo
      case LRW => case SCW => case AMOSWAPW => case AMOADDW => case AMOXORW => case AMOANDW =>
      case AMOORW => case AMOMINW => case AMOMAXW => case AMOMINUW => case AMOMAXUW =>
    }
  }

  lemma HcallStep(ar: Arith, code: Code, i: Decoded, raw: Word, q: QState, c: Cpu)
    requires Same(c, q) && IsHelper(i) && code.decode(raw) == i
    ensures var r := QStep(StateRegs(), GuestSem(ar, code.decode), Inst(Hcall(StubId(i)), [], [Vconst(raw)]), q);
            match Handle(ar, i, Cpu(c.gpr, q.vregs[IP], q.vregs[IP], c.mem))
            case Stepped(c') => r == Next(QWithGlobals(StateRegs(), q, StubExit(c', c'.gip), c'.mem))
            case Traps(t, c') => r == Leave(Raised(TrapWord(t)), QWithGlobals(StateRegs(), q, StubExit(c', c'.ip), c'.mem))
            case Fault(c') => r == Leave(Faulted, QWithGlobals(StateRegs(), q, StubExit(c', c'.ip), c'.mem))
  {
    StubEntryIs(q, c);
    StubOfInsn(i);
  }

  /** The interpreter's handler and the stub that calls it have the same effect. */
  lemma HcallFollows(ar: Arith, code: Code, i: Decoded, raw: Word, q: QState, c: Cpu)
    requires Same(c, q) && IsHelper(i) && code.decode(raw) == i
    ensures Follows(|q.vregs|, QStep(StateRegs(), GuestSem(ar, code.decode), Inst(Hcall(StubId(i)), [], [Vconst(raw)]), q),
                    Handle(ar, i, Cpu(c.gpr, q.vregs[IP], q.vregs[IP], c.mem)))
  {
    HcallStep(ar, code, i, raw, q, c);
    var s := Handle(ar, i, Cpu(c.gpr, q.vregs[IP], q.vregs[IP], c.mem));
    StubExitIs(q, s.cpu, if s.Stepped? then s.cpu.gip else s.cpu.ip);
  }

  /** Helpers are called for these. */
  predicate IsHelper(i: Insn) {
    i.Fence? || i.FenceI? || i.Ecall? || i.Ebreak? || i.Ill? || i.Amo?
  }

  /** Handlers that report their own address do not depend on the field. */
  lemma SavedIp(ar: Arith, i: Insn, c: Cpu)
    requires c.Valid() && IsHelper(i) && MayTrap(i)
    ensures Handle(ar, i, Cpu(c.gpr, c.gip, c.gip, c.mem)) == Handle(ar, i, c)
  {
    assert Cpu(c.gpr, c.gip, c.gip, c.mem) == c.(ip := c.gip);
  }

  lemma TrappingHelperFollows(ar: Arith, code: Code, i: Decoded, raw: Word, q: QState, c: Cpu)
    requires Same(c, q) && IsHelper(i) && MayTrap(i) && code.decode(raw) == i
    ensures AllShaped(HelperCode(i, raw, c.gip))
    ensures Follows(|q.vregs|, QRun(StateRegs(), GuestSem(ar, code.decode), HelperCode(i, raw, c.gip), q), Handle(ar, i, c))
  {
    var sem, call := GuestSem(ar, code.decode), Inst(Hcall(StubId(i)), [], [Vconst(raw)]);
    var q1 := QSet(q, IP, c.gip);
    PreSideeffStep(sem, c.gip, q);
    WritesTemp(c, q, IP, c.gip);
    RunOne(StateRegs(), sem, call, q1);
    RunCons(StateRegs(), sem, PreSideeff(c.gip), [call], q, q1);
    HcallFollows(ar, code, i, raw, q1, c);
    SavedIp(ar, i, c);
  }

  lemma HelperFollows(ar: Arith, code: Code, i: Decoded, raw: Word, q: QState, c: Cpu)
    requires Same(c, q) && IsHelper(i) && code.decode(raw) == i
    ensures AllShaped(HelperCode(i, raw, c.gip))
    ensures Follows(|q.vregs|, QRun(StateRegs(), GuestSem(ar, code.decode), HelperCode(i, raw, c.gip), q), Handle(ar, i, c))
  {
    if MayTrap(i) {
      TrappingHelperFollows(ar, code, i, raw, q, c);
    } else {
      var call := Inst(Hcall(StubId(i)), [], [Vconst(raw)]);
      RunOne(StateRegs(), GuestSem(ar, code.decode), call, q);
      HcallFollows(ar, code, i, raw, q, c);
      assert HelperCode(i, raw, c.gip) == [call];
    }
  }

  lemma UpperFollows(ar: Arith, code: Code, i: Decoded, raw: Word, tmp: nat, q: QState, c: Cpu)
    requires Laws(ar) && Same(c, q) && (i.Lui? || i.Auipc?)
    ensures AllShaped(Straight(ar, i, raw, c.gip, tmp))
    ensures Follows(|q.vregs|, QRun(StateRegs(), GuestSem(ar, code.decode), Straight(ar, i, raw, c.gip, tmp), q), Handle(ar, i, c))
  {
    ConstFollows(ar, GuestSem(ar, code.decode), i.rd, if i.Lui? then i.imm else ar.Plus(i.imm, c.gip), q, c);
  }

  lemma OpImmFollows(ar: Arith, code: Code, i: Decoded, raw: Word, tmp: nat, q: QState, c: Cpu)
    requires Laws(ar) && Same(c, q) && i.OpImm?
    ensures AllShaped(Straight(ar, i, raw, c.gip, tmp))
    ensures Follows(|q.vregs|, QRun(StateRegs(), GuestSem(ar, code.decode), Straight(ar, i, raw, c.gip, tmp), q), Handle(ar, i, c))
  {
    ReadsRegister(c, q, i.rs1, I32);
    assert IsShiftOp(i.aop) ==> ar.compute(AND, i.imm, LOW_FIVE) == i.imm;
    AluFollows(ar, GuestSem(ar, code.decode), i.aop, i.rd, Gprop(i.rs1, I32), Vconst(i.imm), q, c);
  }

  lemma OpRegFollows(ar: Arith, code: Code, i: Decoded, raw: Word, tmp: nat, q: QState, c: Cpu)
    requires Laws(ar) && Same(c, q) && i.OpReg?
    ensures AllShaped(Straight(ar, i, raw, c.gip, tmp))
    ensures Follows(|q.vregs|, QRun(StateRegs(), GuestSem(ar, code.decode), Straight(ar, i, raw, c.gip, tmp), q), Handle(ar, i, c))
  {
    ReadsRegister(c, q, i.rs1, I32);
    ReadsRegister(c, q, i.rs2, I32);
    AluFollows(ar, GuestSem(ar, code.decode), i.aop, i.rd, Gprop(i.rs1, I32), Gprop(i.rs2, I32), q, c);
  }

  /** Every instruction that is not a branch does what the interpreter does, folding included. */
  lemma StraightFollows(ar: Arith, code: Code, i: Decoded, raw: Word, tmp: nat, q: QState, c: Cpu)
    requires Laws(ar) && Same(c, q) && !IsBranch(i) && !ClobbersBase(i) && code.decode(raw) == i && HasTemps(i, tmp, q)
    ensures AllShaped(Straight(ar, i, raw, c.gip, tmp))
    ensures Follows(|q.vregs|, QRun(StateRegs(), GuestSem(ar, code.decode), Straight(ar, i, raw, c.gip, tmp), q), Handle(ar, i, c))
  {
    if i.Lui? || i.Auipc? {
      UpperFollows(ar, code, i, raw, tmp, q, c);
    } else if i.OpImm? {
      OpImmFollows(ar, code, i, raw, tmp, q, c);
    } else if i.OpReg? {
      OpRegFollows(ar, code, i, raw, tmp, q, c);
    } else if i.Load? {
      LoadFollows(ar, code.decode, i.sz, i.sgn, i.rd, i.rs1, i.imm, tmp, q, c);
    } else if i.Store? {
      StoreFollows(ar, code.decode, i.sz, i.rs1, i.rs2, i.imm, tmp, q, c);
    } else {
      HelperFollows(ar, code, i, raw, q, c);
    }
  }

  // ---------- Branches ----------

  /** The two instructions that compute the target of an indirect jump. */
  lemma TargetRuns(ar: Arith, sem: Semantics, rs1: Reg, imm: Word, tmp: nat, rest: seq<Inst>, q: QState, c: Cpu) returns (q': QState)
    requires Laws(ar) && Same(c, q) && NUM_GLOBALS <= tmp < |q.vregs| && sem.alu == ar.host && AllShaped(rest)
    ensures var t := VGPR(I32, tmp);
            var pre := [CreateAdd(ar, t, Gprop(rs1, I32), Vconst(imm)), Inst(Binop(And), [t], [t, Vconst(CLEAR_BIT_0)])];
            AllShaped(pre + rest) && QRun(StateRegs(), sem, pre + rest, q) == QRun(StateRegs(), sem, rest, q')
    ensures Same(c, q') && |q'.vregs| == |q.vregs| && q'.vregs[tmp] == JalrTarget(ar, c.gpr[rs1], imm)
  {
    var t, gs := VGPR(I32, tmp), StateRegs();
    var sum, target := ar.Plus(c.gpr[rs1], imm), JalrTarget(ar, c.gpr[rs1], imm);
    ReadsRegister(c, q, rs1, I32);
    FoldingPreservesMeaning(ar, gs, sem, t, Gprop(rs1, I32), Vconst(imm), q);
    var q1 := QSet(q, tmp, sum);
    WritesTemp(c, q, tmp, sum);
    BinopStep(gs, sem, And, t, t, Vconst(CLEAR_BIT_0), q1);
    assert ar.compute(AND, sum, CLEAR_BIT_0) == ar.host(BinaryOf(AND), sum, CLEAR_BIT_0);
    q' := QSet(q1, tmp, target);
    WritesTemp(c, q1, tmp, target);
    var add, mask := CreateAdd(ar, t, Gprop(rs1, I32), Vconst(imm)), Inst(Binop(And), [t], [t, Vconst(CLEAR_BIT_0)]);
    RunCons(gs, sem, mask, rest, q1, q');
    RunCons(gs, sem, add, [mask] + rest, q, q1);
    assert [add, mask] + rest == [add] + ([mask] + rest);
  }

  /** The code before an indirect jump leaves the target in the temporary. */
  lemma JalrRuns(ar: Arith, decode: Word -> Decoded, rd: Reg, rs1: Reg, imm: Word, tmp: nat, q: QState, c: Cpu) returns (q': QState)
    requires Laws(ar) && Same(c, q) && NUM_GLOBALS <= tmp < |q.vregs|
    ensures AllShaped(JalrCode(ar, rd, rs1, imm, c.gip, tmp)) && |q'.vregs| == |q.vregs|
    ensures QRun(StateRegs(), GuestSem(ar, decode), JalrCode(ar, rd, rs1, imm, c.gip, tmp), q) == Next(q')
    ensures Same(SetReg(c, rd, ar.Plus(c.gip, FOUR)), q') && QRead(q', VGPR(I32, tmp)) == JalrTarget(ar, c.gpr[rs1], imm)
  {
    var sem, v := GuestSem(ar, decode), ar.Plus(c.gip, FOUR);
    ConstFollows(ar, sem, rd, v, q, c);
    var q1 := TargetRuns(ar, sem, rs1, imm, tmp, Link(ar, rd, c.gip), q, c);
    ConstFollows(ar, sem, rd, v, q1, c);
    q' := if rd != 0 then QSet(q1, rd - 1, v) else q1;
  }

  // ---------- A load into x0 without offset ----------

  /** The translated load overwrites its base register with the loaded value, so it does what the
      interpreter does exactly if that value is what the register holds, or if the access faults. */
  lemma ClobberedBase(ar: Arith, decode: Word -> Decoded, sz: VType, sgn: VSign, rs1: Reg, tmp: nat, q: QState, c: Cpu)
    requires Laws(ar) && Same(c, q) && rs1 != 0 && NUM_GLOBALS <= tmp
    ensures AllShaped(LoadCode(ar, sz, sgn, 0, rs1, ZERO, c.gip, tmp))
    ensures var r := QRun(StateRegs(), GuestSem(ar, decode), LoadCode(ar, sz, sgn, 0, rs1, ZERO, c.gip, tmp), q);
            var v := LoadWord(c.mem, sz, sgn, c.gpr[rs1]);
            Follows(|q.vregs|, r, Handle(ar, Load(sz, sgn, 0, rs1, ZERO), c)) <==> v.None? || v.value == c.gpr[rs1]
  {
    var sem := GuestSem(ar, decode);
    var addr := Gprop(rs1, I32);
    var q' := AccessRuns(ar, sem, rs1, ZERO, tmp, Inst(VMLoad(sz, sgn), [addr], [addr]), q, c);
    LoadStep(sem, sz, sgn, addr, addr, q');
    assert ar.compute(ADD, c.gpr[rs1], ZERO) == c.gpr[rs1];
    var v := LoadWord(c.mem, sz, sgn, c.gpr[rs1]);
    ClobberOutcome(ar, rs1, v, q', c.(ip := c.gip));
    LoadHandled(ar, sz, sgn, rs1, v, c);
  }

  lemma LoadHandled(ar: Arith, sz: VType, sgn: VSign, rs1: Reg, v: Option<Word>, c: Cpu)
    requires c.Valid() && ar.compute(ADD, c.gpr[rs1], ZERO) == c.gpr[rs1] && v == LoadWord(c.mem, sz, sgn, c.gpr[rs1])
    ensures Handle(ar, Load(sz, sgn, 0, rs1, ZERO), c) ==
            if v.Some? then Stepped(Advance(ar, SetReg(c.(ip := c.gip), 0, v.value))) else Fault(c.(ip := c.gip))
  {
  }

  lemma ClobberOutcome(ar: Arith, rs1: Reg, v: Option<Word>, q: QState, c: Cpu)
    requires SameAndIp(c, q) && rs1 != 0
    ensures Follows(|q.vregs|, if v.Some? then Next(QWrite(StateRegs(), q, Gprop(rs1, I32), v.value)) else Leave(Faulted, q),
                    if v.Some? then Stepped(Advance(ar, SetReg(c, 0, v.value))) else Fault(c)) <==>
            v.None? || v.value == c.gpr[rs1]
  {
    if v.Some? {
      Overwritten(c, q, rs1, v.value);
      assert Same(Advance(ar, SetReg(c, 0, v.value)), QSet(q, rs1 - 1, v.value)) <==> Same(SetReg(c, 0, v.value), QSet(q, rs1 - 1, v.value));
    }
  }

  lemma Overwritten(c: Cpu, q: QState, r: Reg, v: Word)
    requires Same(c, q) && r != 0
    ensures Same(SetReg(c, 0, v), QSet(q, r - 1, v)) <==> v == c.gpr[r]
  {
    var c', q' := SetReg(c, 0, v), QSet(q, r - 1, v);
    assert c'.gpr[r] == c.gpr[r] && q'.vregs[r - 1] == v;
    if v == c.gpr[r] {
      assert q'.vregs == q.vregs;
    }
  }

  /** For every such load there is a state in which it goes wrong: for example, all registers are zero and
      memory holds 1 at address 0, which the base register then becomes in translated code. */
  lemma ClobberExample(ar: Arith, decode: Word -> Decoded, sz: VType, sgn: VSign, rs1: Reg) returns (q: QState, c: Cpu)
    requires Laws(ar) && rs1 != 0
    ensures Same(c, q) && AllShaped(LoadCode(ar, sz, sgn, 0, rs1, ZERO, c.gip, NUM_GLOBALS))
    ensures !Follows(|q.vregs|, QRun(StateRegs(), GuestSem(ar, decode), LoadCode(ar, sz, sgn, 0, rs1, ZERO, c.gip, NUM_GLOBALS), q),
                     Handle(ar, Load(sz, sgn, 0, rs1, ZERO), c))
  {
    var mem := StoreAt(map[], I32, 0, ONE);
    c := Cpu(seq(32, _ => ZERO), ZERO, ZERO, mem);
    q := QState(seq(NUM_GLOBALS, _ => ZERO), mem);
    LoadsOne(mem, sz, sgn);
    ClobberedBase(ar, decode, sz, sgn, rs1, NUM_GLOBALS, q, c);
  }

  lemma LoadsOne(mem: Mem, sz: VType, sgn: VSign)
    requires mem == StoreAt(map[], I32, 0, ONE)
    ensures LoadWord(mem, sz, sgn, ZERO) == Some(ONE)
  {
    assert AddressOf(ZERO) == 0;
    assert LoadAt(mem, sz, sgn, 0) == ONE;
  }
}
