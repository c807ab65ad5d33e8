/** RV32IA instructions and the interpreter's handlers, `dbt/guest/rv32_interp.cpp`. */
module Rv32 {
  import opened Common
  import opened Qir
  import opened Bytes

  // ---------- Instructions ----------

  type Reg = r: nat | r < 32

  datatype AluOp = ADD | SUB | SLT | SLTU | XOR | OR | AND | SLL | SRL | SRA

  datatype BranchOp = BEQ | BNE | BLT | BGE | BLTU | BGEU

  datatype AmoOp = LRW | SCW | AMOSWAPW | AMOADDW | AMOXORW | AMOANDW | AMOORW | AMOMINW | AMOMAXW | AMOMINUW | AMOMAXUW

  datatype TrapCode = UNALIGNED_IP | ILLEGAL_INSN | EBREAK | ECALL

  datatype Insn =
    | Lui(rd: Reg, imm: Word)
    | Auipc(rd: Reg, imm: Word)
    | Jal(rd: Reg, imm: Word)
    | Jalr(rd: Reg, rs1: Reg, imm: Word)
    | Bcc(bop: BranchOp, rs1: Reg, rs2: Reg, imm: Word)
    | Load(sz: VType, sgn: VSign, rd: Reg, rs1: Reg, imm: Word)
    | Store(sz: VType, rs1: Reg, rs2: Reg, imm: Word)
    | OpImm(aop: AluOp, rd: Reg, rs1: Reg, imm: Word)
    | OpReg(aop: AluOp, rd: Reg, rs1: Reg, rs2: Reg)
    | Fence
    | FenceI
    | Ecall
    | Ebreak
    | Ill
    | Amo(amo: AmoOp, rd: Reg, rs1: Reg, rs2: Reg)

  predicate IsShiftOp(aop: AluOp) {
    aop == SLL || aop == SRL || aop == SRA
  }

  // ---------- Arithmetic ----------

  /** Arithmetic of the two worlds: `compute` and `taken` are the C operators that the interpreter uses on
      32-bit values, `host` and `cond` what amd64 instructions compute. */
  datatype Arith = Arith(
    compute: (AluOp, Word, Word) -> Word,
    taken: (BranchOp, Word, Word) -> bool,
    host: (BinaryOp, Word, Word) -> Word,
    cond: (CondCode, Word, Word) -> bool)
  {
    function Plus(a: Word, b: Word): Word {
      compute(ADD, a, b)
    }
  }

  const FOUR := Word(4, 0, 0, 0)

  const LOW_FIVE := Word(31, 0, 0, 0)

  const CLEAR_BIT_0 := Word(0xfe, 0xff, 0xff, 0xff)

  predicate Misaligned(w: Word) {
    w.b0 & 3 != 0
  }

  predicate IsAmount(w: Word) {
    w.b0 < 32 && w.b1 == 0 && w.b2 == 0 && w.b3 == 0
  }

  function BinaryOf(aop: AluOp): BinaryOp
    requires !aop.SLT? && !aop.SLTU?
  {
    match aop
    case ADD => Add
    case SUB => Sub
    case XOR => Xor
    case OR => Or
    case AND => And
    case SLL => Sll
    case SRL => Srl
    case SRA => Sra
  }

  function CondOf(bop: BranchOp): CondCode {
    match bop
    case BEQ => EQ
    case BNE => NE
    case BLT => LT
    case BGE => GE
    case BLTU => LTU
    case BGEU => GEU
  }

  /** Host instructions compute the C operators; shifts look at five bits of the amount only. */
  ghost predicate OperatorsAgree(ar: Arith) {
    && (forall aop: AluOp, a, b {:trigger ar.compute(aop, a, b)} | !aop.SLT? && !aop.SLTU? && !IsShiftOp(aop) ::
          ar.host(BinaryOf(aop), a, b) == ar.compute(aop, a, b))
    && (forall aop: AluOp, a, b {:trigger ar.compute(aop, a, ar.compute(AND, b, LOW_FIVE))} | IsShiftOp(aop) ::
          ar.host(BinaryOf(aop), a, b) == ar.compute(aop, a, ar.compute(AND, b, LOW_FIVE)))
    && (forall b {:trigger ar.compute(AND, b, LOW_FIVE)} | IsAmount(b) :: ar.compute(AND, b, LOW_FIVE) == b)
    && (forall a, b {:trigger ar.compute(SLT, a, b)} :: ar.compute(SLT, a, b) == if ar.cond(LT, a, b) then ONE else ZERO)
    && (forall a, b {:trigger ar.compute(SLTU, a, b)} :: ar.compute(SLTU, a, b) == if ar.cond(LTU, a, b) then ONE else ZERO)
    && (forall bop: BranchOp, a, b {:trigger ar.taken(bop, a, b)} :: ar.cond(CondOf(bop), a, b) == ar.taken(bop, a, b))
  }

  /** The laws of addition that folding and the alignment of branch targets rest on. */
  ghost predicate AdditionLaws(ar: Arith) {
    && (forall a, b {:trigger ar.compute(ADD, a, b)} :: ar.compute(ADD, a, b) == ar.compute(ADD, b, a))
    && (forall a {:trigger ar.compute(ADD, a, ZERO)} :: ar.compute(ADD, a, ZERO) == a)
    && (forall a, b {:trigger ar.compute(ADD, a, b)} | !Misaligned(a) :: Misaligned(ar.compute(ADD, a, b)) <==> Misaligned(b))
  }

  // ---------- The interpreter ----------

  /** `ip` is the field of `CPUState`, `gip` the interpreter's own program counter. */
  datatype Cpu = Cpu(gpr: seq<Word>, ip: Word, gip: Word, mem: Mem) {
    predicate Valid() {
      |gpr| == 32 && gpr[0] == ZERO
    }
  }

  datatype StepResult = Stepped(cpu: Cpu) | Traps(trap: TrapCode, cpu: Cpu) | Fault(cpu: Cpu)

  function AddressOf(w: Word): nat {
    ToNat(w.b0) + 0x100 * ToNat(w.b1) + 0x1_0000 * ToNat(w.b2) + 0x100_0000 * ToNat(w.b3)
  }

  /** All bytes of an access lie in mapped memory. */
  predicate MappedAt(mem: Mem, sz: VType, a: nat) {
    match sz
    case I8 => a in mem
    case I16 => a in mem && a + 1 in mem
    case I32 => a in mem && a + 1 in mem && a + 2 in mem && a + 3 in mem
  }

  /** The bytes in memory, widened with zeros or with the sign. */
  function LoadAt(mem: Mem, sz: VType, sgn: VSign, a: nat): Word
    requires MappedAt(mem, sz, a)
  {
    match sz
    case I8 =>
      var fill: Byte := if sgn == S && mem[a] & 0x80 != 0 then 0xff else 0;
      Word(mem[a], fill, fill, fill)
    case I16 =>
      var fill: Byte := if sgn == S && mem[a + 1] & 0x80 != 0 then 0xff else 0;
      Word(mem[a], mem[a + 1], fill, fill)
    case I32 => Word(mem[a], mem[a + 1], mem[a + 2], mem[a + 3])
  }

  /** The low part of a value, stored. */
  function StoreAt(mem: Mem, sz: VType, a: nat, v: Word): Mem {
    match sz
    case I8 => mem[a := v.b0]
    case I16 => mem[a := v.b0][a + 1 := v.b1]
    case I32 => mem[a := v.b0][a + 1 := v.b1][a + 2 := v.b2][a + 3 := v.b3]
  }

  /** Guest memory accesses; None is a fault. */
  function LoadWord(mem: Mem, sz: VType, sgn: VSign, w: Word): Option<Word> {
    var a := AddressOf(w);
    if MappedAt(mem, sz, a) then Some(LoadAt(mem, sz, sgn, a)) else None
  }

  function StoreWord(mem: Mem, sz: VType, w: Word, v: Word): Option<Mem> {
    var a := AddressOf(w);
    if MappedAt(mem, sz, a) then Some(StoreAt(mem, sz, a, v)) else None
  }

  /** Writes a register and then restores x0. */
  function SetReg(c: Cpu, rd: Reg, v: Word): (c': Cpu)
    requires c.Valid()
    ensures c'.Valid() && c'.mem == c.mem && c'.gip == c.gip && c'.ip == c.ip
    ensures forall r | 0 < r < 32 :: c'.gpr[r] == if r == rd then v else c.gpr[r]
  {
    c.(gpr := c.gpr[rd := v][0 := ZERO])
  }

  function Advance(ar: Arith, c: Cpu): Cpu {
    c.(gip := ar.Plus(c.gip, FOUR))
  }

  /** The end of a branch: both program counters agree. */
  function JumpTo(c: Cpu, t: Word): Cpu {
    c.(ip := t, gip := t)
  }

  /** A decoded shift has an amount below 32. */
  predicate Encodable(i: Insn) {
    i.OpImm? && IsShiftOp(i.aop) ==> IsAmount(i.imm)
  }

  /** RAISE_TRAP: the trap is reported at the current instruction. */
  function Raise(t: TrapCode, c: Cpu): StepResult {
    Traps(t, c.(ip := c.gip))
  }

  /** The value that an atomic operation stores, if it stores one. */
  function AmoStores(ar: Arith, amo: AmoOp, cur: Word, b: Word): Option<Word> {
    match amo
    case SCW => Some(b)
    case AMOSWAPW => Some(b)
    case AMOADDW => Some(ar.Plus(cur, b))
    case AMOMAXUW => Some(if ar.taken(BLTU, cur, b) then b else cur)
    case _ => None
  }

  /** RV32A on one thread.  The maximum writes no register, and most operations are not implemented. */
  function HandleAmo(ar: Arith, amo: AmoOp, rd: Reg, rs1: Reg, rs2: Reg, c: Cpu): (r: StepResult)
    requires c.Valid()
    ensures r.cpu.Valid()
  {
    var c1 := c.(ip := c.gip);
    if !(amo.LRW? || amo.SCW? || amo.AMOSWAPW? || amo.AMOADDW? || amo.AMOMAXUW?) then Raise(ILLEGAL_INSN, c1)
    else
      var cur := LoadWord(c.mem, I32, S, c.gpr[rs1]);
      if cur.None? then Fault(c1)
      else
        var v := AmoStores(ar, amo, cur.value, c.gpr[rs2]);
        var mem := if v.Some? then StoreWord(c.mem, I32, c.gpr[rs1], v.value) else Some(c.mem);
        var c2 := if mem.Some? then c1.(mem := mem.value) else c1;
        Stepped(Advance(ar, if amo.AMOMAXUW? then c2 else SetReg(c2, rd, if amo.SCW? then ZERO else cur.value)))
  }

  /** Register shifts use the low five bits. */
  function ComputeReg(ar: Arith, aop: AluOp, a: Word, b: Word): Word {
    ar.compute(aop, a, if IsShiftOp(aop) then ar.compute(AND, b, LOW_FIVE) else b)
  }

  function HandleJump(ar: Arith, rd: Reg, target: Word, misaligned: bool, c: Cpu): (r: StepResult)
    requires c.Valid()
    ensures r.cpu.Valid()
  {
    if misaligned then Raise(UNALIGNED_IP, c) else Stepped(JumpTo(SetReg(c, rd, ar.Plus(c.gip, FOUR)), target))
  }

  function HandleBranch(ar: Arith, bop: BranchOp, rs1: Reg, rs2: Reg, imm: Word, c: Cpu): (r: StepResult)
    requires c.Valid()
    ensures r.cpu.Valid()
  {
    if !ar.taken(bop, c.gpr[rs1], c.gpr[rs2]) then Stepped(JumpTo(c, ar.Plus(c.gip, FOUR)))
    else if Misaligned(imm) then Raise(UNALIGNED_IP, c)
    else Stepped(JumpTo(c, ar.Plus(c.gip, imm)))
  }

  function HandleLoad(ar: Arith, sz: VType, sgn: VSign, rd: Reg, a: Word, c: Cpu): (r: StepResult)
    requires c.Valid()
    ensures r.cpu.Valid()
  {
    var v := LoadWord(c.mem, sz, sgn, a);
    if v.Some? then Stepped(Advance(ar, SetReg(c, rd, v.value))) else Fault(c)
  }

  function HandleStore(ar: Arith, sz: VType, v: Word, a: Word, c: Cpu): (r: StepResult)
    requires c.Valid()
    ensures r.cpu.Valid()
  {
    var mem := StoreWord(c.mem, sz, a, v);
    if mem.Some? then Stepped(Advance(ar, c.(mem := mem.value))) else Fault(c)
  }

  function JalrTarget(ar: Arith, base: Word, imm: Word): Word {
    ar.compute(AND, ar.Plus(base, imm), CLEAR_BIT_0)
  }

  /** One instruction of the interpreter. */
  function Handle(ar: Arith, i: Insn, c: Cpu): (r: StepResult)
    requires c.Valid()
    ensures r.cpu.Valid()
  {
    match i
    case Lui(rd, imm) => Stepped(Advance(ar, SetReg(c, rd, imm)))
    case Auipc(rd, imm) => Stepped(Advance(ar, SetReg(c, rd, ar.Plus(imm, c.gip))))
    case Jal(rd, imm) => HandleJump(ar, rd, ar.Plus(c.gip, imm), Misaligned(imm), c)
    case Jalr(rd, rs1, imm) => HandleJump(ar, rd, JalrTarget(ar, c.gpr[rs1], imm), Misaligned(JalrTarget(ar, c.gpr[rs1], imm)), c)
    case Bcc(bop, rs1, rs2, imm) => HandleBranch(ar, bop, rs1, rs2, imm, c)
    case Load(sz, sgn, rd, rs1, imm) => HandleLoad(ar, sz, sgn, rd, ar.Plus(c.gpr[rs1], imm), c.(ip := c.gip))
    case Store(sz, rs1, rs2, imm) => HandleStore(ar, sz, c.gpr[rs2], ar.Plus(c.gpr[rs1], imm), c.(ip := c.gip))
    case OpImm(aop, rd, rs1, imm) => Stepped(Advance(ar, SetReg(c, rd, ar.compute(aop, c.gpr[rs1], imm))))
    case OpReg(aop, rd, rs1, rs2) => Stepped(Advance(ar, SetReg(c, rd, ComputeReg(ar, aop, c.gpr[rs1], c.gpr[rs2]))))
    case Fence => Stepped(Advance(ar, c))
    case FenceI => Stepped(Advance(ar, c))
    case Ecall => Raise(ECALL, c)
    case Ebreak => Raise(EBREAK, c)
    case Ill => Raise(ILLEGAL_INSN, c)
    case Amo(amo, rd, rs1, rs2) => HandleAmo(ar, amo, rd, rs1, rs2, c)
  }

  /** The register that an instruction names as its destination, if it has one. */
  predicate Writes(i: Insn, r: nat) {
    (i.Lui? || i.Auipc? || i.Jal? || i.Jalr? || i.Load? || i.OpImm? || i.OpReg? || i.Amo?) && i.rd == r
  }

  /** Where an instruction stores, and how many bytes at most. */
  function StoresTo(ar: Arith, i: Insn, c: Cpu): (nat, nat)
    requires c.Valid()
  {
    match i
    case Store(sz, rs1, _, imm) => (AddressOf(ar.Plus(c.gpr[rs1], imm)), Size(sz))
    case Amo(_, _, rs1, _) => (AddressOf(c.gpr[rs1]), 4)
    case _ => (0, 0)
  }

  /** Memory differs in `n` bytes at `a` at most, and the same addresses are mapped. */
  ghost predicate DiffersWithin(mem: Mem, mem': Mem, a: nat, n: nat) {
    mem'.Keys == mem.Keys && forall x {:trigger mem[x]} {:trigger mem'[x]} | x in mem && !(a <= x < a + n) :: mem'[x] == mem[x]
  }

  lemma StoreStays(mem: Mem, sz: VType, w: Word, v: Word)
    ensures var m := StoreWord(mem, sz, w, v); m.Some? ==> DiffersWithin(mem, m.value, AddressOf(w), Size(sz))
  {
  }

  /** What no handler does: an instruction changes its destination register only and never x0, memory
      only where it stores, and the program counter by four unless it branches.  If it stops, nothing
      has changed and the instruction pointer says where. */
  lemma HandlerEffects(ar: Arith, i: Insn, c: Cpu)
    requires c.Valid()
    ensures var r := Handle(ar, i, c);
            && (forall x | 0 <= x < 32 && !(Writes(i, x) && x != 0) :: r.cpu.gpr[x] == c.gpr[x])
            && DiffersWithin(c.mem, r.cpu.mem, StoresTo(ar, i, c).0, StoresTo(ar, i, c).1)
            && (r.Stepped? && !i.Jal? && !i.Jalr? && !i.Bcc? ==> r.cpu.gip == ar.Plus(c.gip, FOUR))
            && (!r.Stepped? ==> r.cpu == c.(ip := c.gip))
  {
    if i.Store? {
      StoreStays(c.mem, i.sz, ar.Plus(c.gpr[i.rs1], i.imm), c.gpr[i.rs2]);
    } else if i.Amo? {
      AmoEffects(ar, i.amo, i.rd, i.rs1, i.rs2, c);
    }
  }

  lemma AmoEffects(ar: Arith, amo: AmoOp, rd: Reg, rs1: Reg, rs2: Reg, c: Cpu)
    requires c.Valid()
    ensures var r := HandleAmo(ar, amo, rd, rs1, rs2, c);
            && (forall x | 0 <= x < 32 && !(x == rd && x != 0) :: r.cpu.gpr[x] == c.gpr[x])
            && DiffersWithin(c.mem, r.cpu.mem, AddressOf(c.gpr[rs1]), 4)
            && (r.Stepped? ==> r.cpu.gip == ar.Plus(c.gip, FOUR)) && (!r.Stepped? ==> r.cpu == c.(ip := c.gip))
  {
    var cur := LoadWord(c.mem, I32, S, c.gpr[rs1]);
    if cur.Some? {
      var v := AmoStores(ar, amo, cur.value, c.gpr[rs2]);
      if v.Some? {
        StoreStays(c.mem, I32, c.gpr[rs1], v.value);
      }
    }
  }

  type Decoded = i: Insn | Encodable(i) witness Fence

  /** The code that is executed: a raw word for every address, and how words are decoded. */
  datatype Code = Code(fetch: Word -> Word, decode: Word -> Decoded) {
    function At(ip: Word): Decoded {
      decode(fetch(ip))
    }
  }

  /** Executes the instruction at the program counter. */
  function StepAt(ar: Arith, code: Code, c: Cpu): (r: StepResult)
    ensures c.Valid() ==> r.cpu.Valid()
  {
    if c.Valid() then Handle(ar, code.At(c.gip), c) else Fault(c)
  }

  function Repeat(step: Cpu -> StepResult, k: nat, c: Cpu): StepResult {
    if k == 0 then Stepped(c)
    else
      var r := step(c);
      if r.Stepped? then Repeat(step, k - 1, r.cpu) else r
  }

  lemma {:induction false} RepeatSplit(step: Cpu -> StepResult, k1: nat, k2: nat, c: Cpu)
    ensures Repeat(step, k1 + k2, c) == var r := Repeat(step, k1, c); if r.Stepped? then Repeat(step, k2, r.cpu) else r
  {
    if k1 > 0 {
      var r := step(c);
      if r.Stepped? {
        RepeatSplit(step, k1 - 1, k2, r.cpu);
      }
    }
  }

  /** Interpreter::Execute: runs `k` instructions. */
  function Interpret(ar: Arith, code: Code, k: nat, c: Cpu): StepResult {
    Repeat((c: Cpu) => StepAt(ar, code, c), k, c)
  }

  lemma InterpretSplit(ar: Arith, code: Code, k1: nat, k2: nat, c: Cpu)
    ensures Interpret(ar, code, k1 + k2, c) ==
            var r := Interpret(ar, code, k1, c); if r.Stepped? then Interpret(ar, code, k2, r.cpu) else r
  {
    RepeatSplit((c: Cpu) => StepAt(ar, code, c), k1, k2, c);
  }

  lemma InterpretOne(ar: Arith, code: Code, c: Cpu)
    ensures Interpret(ar, code, 1, c) == StepAt(ar, code, c) && Interpret(ar, code, 0, c) == Stepped(c)
  {
    var step := (c: Cpu) => StepAt(ar, code, c);
    var r := step(c);
    if r.Stepped? {
      assert Repeat(step, 0, r.cpu) == r;
    }
    assert Repeat(step, 1, c) == step(c);
  }
}
