/** Instruction decoding, `dbt/guest/rv32_decode.h` with the fields of `dbt/guest/rv32_insn.h`. */
module Rv32Decode {
  import opened Common
  import opened Qir
  import opened Bytes
  import opened Rv32

  // ---------- Words ----------

  function ToWord(x: bv32): Word {
    Word((x & 0xff) as bv8, ((x >> 8) & 0xff) as bv8, ((x >> 16) & 0xff) as bv8, ((x >> 24) & 0xff) as bv8)
  }

  function FromWord(w: Word): bv32 {
    (w.b0 as bv32) | ((w.b1 as bv32) << 8) | ((w.b2 as bv32) << 16) | ((w.b3 as bv32) << 24)
  }

  // ---------- Fields ----------

  function SignMask(x: bv32): bv32 {
    if x & 0x8000_0000 == 0 then 0 else 0xffff_ffff
  }

  function Opcode(raw: bv32): bv32 {
    raw & 0x7f
  }

  function Funct3(raw: bv32): bv32 {
    (raw >> 12) & 7
  }

  function Funct7(raw: bv32): bv32 {
    raw >> 25
  }

  function ByteReg(b: bv8): Reg
    requires b < 32
  {
    ToNat(b)
  }

  function AsReg(x: bv32): Reg
    requires x < 32
  {
    ByteReg(x as bv8)
  }

  function Rd(raw: bv32): Reg {
    AsReg((raw >> 7) & 31)
  }

  function Rs1(raw: bv32): Reg {
    AsReg((raw >> 15) & 31)
  }

  function Rs2(raw: bv32): Reg {
    AsReg((raw >> 20) & 31)
  }

  /** Bits 20-30 and the sign. */
  function ImmI(raw: bv32): bv32 {
    ((raw << 1) >> 21) | (SignMask(raw) << 11)
  }

  /** Bits 7-11, 25-30 and the sign. */
  function ImmS(raw: bv32): bv32 {
    ((raw << 20) >> 27) | (((raw << 1) >> 26) << 5) | (SignMask(raw) << 11)
  }

  /** Bits 8-11, 25-30, 7 and the sign, times two. */
  function ImmB(raw: bv32): bv32 {
    (((raw << 20) >> 28) | (((raw << 1) >> 26) << 4) | (((raw << 24) >> 31) << 10) | (SignMask(raw) << 11)) << 1
  }

  /** Bits 12-31, in place. */
  function ImmU(raw: bv32): bv32 {
    (raw >> 12) << 12
  }

  /** Bits 21-30, 20, 12-19 and the sign, times two. */
  function ImmJ(raw: bv32): bv32 {
    (((raw << 1) >> 22) | (((raw << 11) >> 31) << 10) | (((raw << 12) >> 24) << 11) | (SignMask(raw) << 19)) << 1
  }

  function Shamt(raw: bv32): (n: Word)
    ensures IsAmount(n)
  {
    Word(((raw >> 20) & 31) as bv8, 0, 0, 0)
  }

  /** Decoder::Decode. */
  function Decode(raw: bv32): (i: Insn)
    ensures Encodable(i)
  {
    var f3, f7 := Funct3(raw), Funct7(raw);
    var op := Opcode(raw);
    if op == 0x37 then Lui(Rd(raw), ToWord(ImmU(raw)))
    else if op == 0x17 then Auipc(Rd(raw), ToWord(ImmU(raw)))
    else if op == 0x6f then Jal(Rd(raw), ToWord(ImmJ(raw)))
    else if op == 0x67 then if f3 == 0 then Jalr(Rd(raw), Rs1(raw), ToWord(ImmI(raw))) else Ill
    else if op == 0x63 then
      var b := BranchOf(f3);
      if b.Some? then Bcc(b.value, Rs1(raw), Rs2(raw), ToWord(ImmB(raw))) else Ill
    else if op == 0x03 then
      var l := LoadOf(f3);
      if l.Some? then Load(l.value.0, l.value.1, Rd(raw), Rs1(raw), ToWord(ImmI(raw))) else Ill
    else if op == 0x23 then
      var s := StoreOf(f3);
      if s.Some? then Store(s.value, Rs1(raw), Rs2(raw), ToWord(ImmS(raw))) else Ill
    else if op == 0x13 then
      var a := ImmOpOf(f3, f7);
      if a.Some? then OpImm(a.value, Rd(raw), Rs1(raw), if IsShiftOp(a.value) then Shamt(raw) else ToWord(ImmI(raw))) else Ill
    else if op == 0x33 then
      var a := RegOpOf(f3, f7);
      if a.Some? then OpReg(a.value, Rd(raw), Rs1(raw), Rs2(raw)) else Ill
    else if op == 0x0f then if f3 == 0 then Fence else if f3 == 1 then FenceI else Ill
    else if op == 0x73 then
      if f3 == 0 && (raw >> 7) & 31 == 0 && (raw >> 15) & 31 == 0 then
        if raw >> 20 == 0 then Ecall else if raw >> 20 == 1 then Ebreak else Ill
      else Ill
    else if op == 0x2f then
      var a := AmoOf(f7 >> 2);
      if f3 == 2 && a.Some? then Amo(a.value, Rd(raw), Rs1(raw), Rs2(raw)) else Ill
    else Ill
  }

  /** Guest code as the decoder sees it. */
  function GuestCode(fetch: Word -> Word): Code {
    Code(fetch, w => Decode(FromWord(w)))
  }

  function BranchOf(f3: bv32): Option<BranchOp> {
    if f3 == 0 then Some(BEQ)
    else if f3 == 1 then Some(BNE)
    else if f3 == 4 then Some(BLT)
    else if f3 == 5 then Some(BGE)
    else if f3 == 6 then Some(BLTU)
    else if f3 == 7 then Some(BGEU)
    else None
  }

  function LoadOf(f3: bv32): Option<(VType, VSign)> {
    if f3 == 0 then Some((I8, S))
    else if f3 == 1 then Some((I16, S))
    else if f3 == 2 then Some((I32, S))
    else if f3 == 4 then Some((I8, U))
    else if f3 == 5 then Some((I16, U))
    else None
  }

  function StoreOf(f3: bv32): Option<VType> {
    if f3 == 0 then Some(I8) else if f3 == 1 then Some(I16) else if f3 == 2 then Some(I32) else None
  }

  /** The upper bits of `slli` are not looked at. */
  function ImmOpOf(f3: bv32, f7: bv32): Option<AluOp> {
    if f3 == 0 then Some(ADD)
    else if f3 == 2 then Some(SLT)
    else if f3 == 3 then Some(SLTU)
    else if f3 == 4 then Some(XOR)
    else if f3 == 6 then Some(OR)
    else if f3 == 7 then Some(AND)
    else if f3 == 1 then Some(SLL)
    else if f7 == 0 then Some(SRL)
    else if f7 == 0x20 then Some(SRA)
    else None
  }

  /** Only `add`, `sub` and the right shifts look at the upper bits. */
  function RegOpOf(f3: bv32, f7: bv32): Option<AluOp> {
    if f3 == 0 then if f7 == 0 then Some(ADD) else if f7 == 0x20 then Some(SUB) else None
    else if f3 == 1 then Some(SLL)
    else if f3 == 2 then Some(SLT)
    else if f3 == 3 then Some(SLTU)
    else if f3 == 4 then Some(XOR)
    else if f3 == 5 then if f7 == 0 then Some(SRL) else if f7 == 0x20 then Some(SRA) else None
    else if f3 == 6 then Some(OR)
    else Some(AND)
  }

  function AmoOf(f5: bv32): Option<AmoOp> {
    if f5 == 2 then Some(LRW)
    else if f5 == 3 then Some(SCW)
    else if f5 == 1 then Some(AMOSWAPW)
    else if f5 == 0 then Some(AMOADDW)
    else if f5 == 4 then Some(AMOXORW)
    else if f5 == 0xc then Some(AMOANDW)
    else if f5 == 8 then Some(AMOORW)
    else if f5 == 0x10 then Some(AMOMINW)
    else if f5 == 0x14 then Some(AMOMAXW)
    else if f5 == 0x18 then Some(AMOMINUW)
    else if f5 == 0x1c then Some(AMOMAXUW)
    else None
  }

  // ---------- Immediates as the manual lays them out ----------

  /** Encoders for the immediate formats of section 2.3 of the RISC-V Instruction Set Manual, Volume I. */
  function EncodeI(imm: bv32): bv32 {
    (imm & 0xfff) << 20
  }

  function EncodeS(imm: bv32): bv32 {
    (((imm >> 5) & 0x7f) << 25) | ((imm & 0x1f) << 7)
  }

  function EncodeB(imm: bv32): bv32 {
    (((imm >> 12) & 1) << 31) | (((imm >> 5) & 0x3f) << 25) | (((imm >> 1) & 0xf) << 8) | (((imm >> 11) & 1) << 7)
  }

  function EncodeU(imm: bv32): bv32 {
    imm & 0xffff_f000
  }

  function EncodeJ(imm: bv32): bv32 {
    (((imm >> 20) & 1) << 31) | (((imm >> 1) & 0x3ff) << 21) | (((imm >> 11) & 1) << 20) | (((imm >> 12) & 0xff) << 12)
  }

  predicate IsImmI(imm: bv32) {
    imm <= 0x7ff || imm >= 0xffff_f800
  }

  predicate IsImmB(imm: bv32) {
    (imm <= 0xfff || imm >= 0xffff_f000) && imm & 1 == 0
  }

  predicate IsImmJ(imm: bv32) {
    (imm <= 0xf_ffff || imm >= 0xfff0_0000) && imm & 1 == 0
  }

  // Decoding inverts encoding on every representable immediate, whatever the other fields hold, and
  // encoding inverts decoding on the bits that hold the immediate.

  lemma RoundTripI(imm: bv32, rest: bv32)
    requires IsImmI(imm)
    ensures ImmI(EncodeI(imm) | (rest & 0xf_ffff)) == imm
  {
  }

  lemma EncodedI(raw: bv32)
    ensures EncodeI(ImmI(raw)) == raw & 0xfff0_0000
  {
  }

  lemma RoundTripS(imm: bv32, rest: bv32)
    requires IsImmI(imm)
    ensures ImmS(EncodeS(imm) | (rest & 0x1ff_f07f)) == imm
  {
  }

  lemma EncodedS(raw: bv32)
    ensures EncodeS(ImmS(raw)) == raw & 0xfe00_0f80
  {
  }

  lemma RoundTripB(imm: bv32, rest: bv32)
    requires IsImmB(imm)
    ensures ImmB(EncodeB(imm) | (rest & 0x1ff_f07f)) == imm
  {
  }

  lemma EncodedB(raw: bv32)
    ensures EncodeB(ImmB(raw)) == raw & 0xfe00_0f80
  {
  }

  lemma RoundTripU(imm: bv32, rest: bv32)
    requires imm & 0xfff == 0
    ensures ImmU(EncodeU(imm) | (rest & 0xfff)) == imm
  {
  }

  lemma EncodedU(raw: bv32)
    ensures EncodeU(ImmU(raw)) == raw & 0xffff_f000
  {
  }

  lemma RoundTripJ(imm: bv32, rest: bv32)
    requires IsImmJ(imm)
    ensures ImmJ(EncodeJ(imm) | (rest & 0xfff)) == imm
  {
  }

  lemma EncodedJ(raw: bv32)
    ensures EncodeJ(ImmJ(raw)) == raw & 0xffff_f000
  {
  }

  // ---------- Opcodes as the manual lays them out ----------

  function BranchCode(op: BranchOp): bv32 {
    match op
    case BEQ => 0
    case BNE => 1
    case BLT => 4
    case BGE => 5
    case BLTU => 6
    case BGEU => 7
  }

  function LoadFunct(sz: VType, sgn: VSign): bv32 {
    match sz
    case I8 => if sgn.S? then 0 else 4
    case I16 => if sgn.S? then 1 else 5
    case I32 => 2
  }

  function StoreFunct(sz: VType): bv32 {
    match sz
    case I8 => 0
    case I16 => 1
    case I32 => 2
  }

  function AluFunct(aop: AluOp): bv32 {
    match aop
    case ADD => 0
    case SUB => 0
    case SLL => 1
    case SLT => 2
    case SLTU => 3
    case XOR => 4
    case SRL => 5
    case SRA => 5
    case OR => 6
    case AND => 7
  }

  function AluFunct7(aop: AluOp): bv32 {
    if aop == SUB || aop == SRA then 0x20 else 0
  }

  function AmoFunct(amo: AmoOp): bv32 {
    match amo
    case LRW => 2
    case SCW => 3
    case AMOSWAPW => 1
    case AMOADDW => 0
    case AMOXORW => 4
    case AMOANDW => 0xc
    case AMOORW => 8
    case AMOMINW => 0x10
    case AMOMAXW => 0x14
    case AMOMINUW => 0x18
    case AMOMAXUW => 0x1c
  }

  /** The instructions of RV32I, Zifencei and the A extension. */
  predicate HasOpcode(i: Insn) {
    !i.Ill? && (i.Load? && i.sz == I32 ==> i.sgn == S) && (i.OpImm? ==> i.aop != SUB)
  }

  /** The operation without its operands. */
  predicate SameOperation(a: Insn, b: Insn) {
    match (a, b)
    case (Bcc(p, _, _, _), Bcc(q, _, _, _)) => p == q
    case (Load(s, u, _, _, _), Load(t, v, _, _, _)) => s == t && u == v
    case (Store(s, _, _, _), Store(t, _, _, _)) => s == t
    case (OpImm(p, _, _, _), OpImm(q, _, _, _)) => p == q
    case (OpReg(p, _, _, _), OpReg(q, _, _, _)) => p == q
    case (Amo(p, _, _, _), Amo(q, _, _, _)) => p == q
    case (Lui(_, _), Lui(_, _)) => true
    case (Auipc(_, _), Auipc(_, _)) => true
    case (Jal(_, _), Jal(_, _)) => true
    case (Jalr(_, _, _), Jalr(_, _, _)) => true
    case (Fence, Fence) => true
    case (FenceI, FenceI) => true
    case (Ecall, Ecall) => true
    case (Ebreak, Ebreak) => true
    case (Ill, Ill) => true
    case _ => false
  }

  /** The bits that the decoder looks at. */
  function Mask(i: Insn): bv32 {
    match i
    case Lui(_, _) => 0x7f
    case Auipc(_, _) => 0x7f
    case Jal(_, _) => 0x7f
    case OpImm(aop, _, _, _) => if aop == SRL || aop == SRA then 0xfe00_707f else 0x707f
    case OpReg(aop, _, _, _) => if aop == ADD || aop == SUB || aop == SRL || aop == SRA then 0xfe00_707f else 0x707f
    case Amo(_, _, _, _) => 0xf800_707f
    case Ecall => 0xffff_ffff
    case Ebreak => 0xffff_ffff
    case _ => 0x707f
  }

  /** Their values in the instruction set listings of the RISC-V Instruction Set Manual, Volume I. */
  function Match(i: Insn): bv32 {
    match i
    case Lui(_, _) => 0x37
    case Auipc(_, _) => 0x17
    case Jal(_, _) => 0x6f
    case Jalr(_, _, _) => 0x67
    case Bcc(bop, _, _, _) => (BranchCode(bop) << 12) | 0x63
    case Load(sz, sgn, _, _, _) => (LoadFunct(sz, sgn) << 12) | 0x03
    case Store(sz, _, _, _) => (StoreFunct(sz) << 12) | 0x23
    case OpImm(aop, _, _, _) => (AluFunct7(aop) << 25) | (AluFunct(aop) << 12) | 0x13
    case OpReg(aop, _, _, _) => (AluFunct7(aop) << 25) | (AluFunct(aop) << 12) | 0x33
    case Amo(amo, _, _, _) => (AmoFunct(amo) << 27) | 0x202f
    case Fence => 0x0f
    case FenceI => 0x100f
    case Ecall => 0x73
    case Ebreak => 0x10_0073
    case Ill => 0
  }

  lemma MatchesImm(raw: bv32, i: Insn)
    requires HasOpcode(i) && (i.OpImm?)
    ensures SameOperation(Decode(raw), i) <==> raw & Mask(i) == Match(i)
  {
  }

  lemma MatchesReg(raw: bv32, i: Insn)
    requires HasOpcode(i) && (i.OpReg?)
    ensures SameOperation(Decode(raw), i) <==> raw & Mask(i) == Match(i)
  {
  }

  lemma MatchesAmo(raw: bv32, i: Insn)
    requires HasOpcode(i) && (i.Amo?)
    ensures SameOperation(Decode(raw), i) <==> raw & Mask(i) == Match(i)
  {
  }

  lemma MatchesAccess(raw: bv32, i: Insn)
    requires HasOpcode(i) && (i.Bcc? || i.Load? || i.Store?)
    ensures SameOperation(Decode(raw), i) <==> raw & Mask(i) == Match(i)
  {
  }

  lemma MatchesJump(raw: bv32, i: Insn)
    requires HasOpcode(i) && (i.Lui? || i.Auipc? || i.Jal? || i.Jalr?)
    ensures SameOperation(Decode(raw), i) <==> raw & Mask(i) == Match(i)
  {
  }

  lemma MatchesFence(raw: bv32, i: Insn)
    requires HasOpcode(i) && (i.Fence? || i.FenceI?)
    ensures SameOperation(Decode(raw), i) <==> raw & Mask(i) == Match(i)
  {
  }

  lemma MatchesSystem(raw: bv32, i: Insn)
    requires HasOpcode(i) && (i.Ecall? || i.Ebreak?)
    ensures SameOperation(Decode(raw), i) <==> raw & Mask(i) == Match(i)
  {
  }

  /** The decoder chooses an operation if and only if the bits that it looks at are those of the operation. */
  lemma DecodeMatches(raw: bv32, i: Insn)
    requires HasOpcode(i)
    ensures SameOperation(Decode(raw), i) <==> raw & Mask(i) == Match(i)
  {
    if i.OpImm? {
      MatchesImm(raw, i);
    } else if i.OpReg? {
      MatchesReg(raw, i);
    } else if i.Amo? {
      MatchesAmo(raw, i);
    } else if i.Bcc? || i.Load? || i.Store? {
      MatchesAccess(raw, i);
    } else if i.Fence? || i.FenceI? {
      MatchesFence(raw, i);
    } else if i.Ecall? || i.Ebreak? {
      MatchesSystem(raw, i);
    } else {
      MatchesJump(raw, i);
    }
  }

  /** A word that shows the decoder the bits of no operation is an illegal instruction, and only such a word is. */
  lemma IllegalMatchesNone(raw: bv32, i: Insn)
    requires Decode(raw).Ill? && HasOpcode(i)
    ensures raw & Mask(i) != Match(i)
  {
    DecodeMatches(raw, i);
  }

  lemma DecodedHasOpcode(raw: bv32)
    ensures Decode(raw).Ill? || HasOpcode(Decode(raw))
  {
  }

  lemma LegalMatches(raw: bv32)
    requires !Decode(raw).Ill?
    ensures exists i :: HasOpcode(i) && raw & Mask(i) == Match(i)
  {
    DecodedHasOpcode(raw);
    DecodeMatches(raw, Decode(raw));
  }

  // ---------- Bits that the decoder does not look at ----------

  /** All bits that the listings fix for an operation. */
  function ManualMask(i: Insn): bv32 {
    match i
    case Lui(_, _) => 0x7f
    case Auipc(_, _) => 0x7f
    case Jal(_, _) => 0x7f
    case Jalr(_, _, _) => 0x707f
    case Bcc(_, _, _, _) => 0x707f
    case Load(_, _, _, _, _) => 0x707f
    case Store(_, _, _, _) => 0x707f
    case OpImm(aop, _, _, _) => if IsShiftOp(aop) then 0xfe00_707f else 0x707f
    case OpReg(_, _, _, _) => 0xfe00_707f
    case Amo(amo, _, _, _) => if amo.LRW? then 0xf9f0_707f else 0xf800_707f
    case Fence => 0x707f
    case FenceI => 0x707f
    case Ecall => 0xffff_ffff
    case Ebreak => 0xffff_ffff
    case Ill => 0
  }

  /** The word is an encoding of the operation according to the manual. */
  predicate IsEncoding(raw: bv32, i: Insn) {
    raw & ManualMask(i) == Match(i)
  }

  lemma WiderImm(raw: bv32, i: Insn)
    requires i.OpImm? && i.aop != SUB && IsEncoding(raw, i)
    ensures raw & Mask(i) == Match(i)
  {
  }

  lemma WiderReg(raw: bv32, i: Insn)
    requires i.OpReg? && IsEncoding(raw, i)
    ensures raw & Mask(i) == Match(i)
  {
  }

  lemma WiderReserved(raw: bv32, i: Insn)
    requires i.Amo? && i.amo.LRW? && IsEncoding(raw, i)
    ensures raw & Mask(i) == Match(i)
  {
  }

  lemma SameMask(i: Insn)
    requires HasOpcode(i) && !i.OpImm? && !i.OpReg? && !(i.Amo? && i.amo.LRW?)
    ensures Mask(i) == ManualMask(i)
  {
  }

  lemma WiderMask(raw: bv32, i: Insn)
    requires HasOpcode(i) && IsEncoding(raw, i)
    ensures raw & Mask(i) == Match(i)
  {
    if i.OpImm? {
      WiderImm(raw, i);
    } else if i.OpReg? {
      WiderReg(raw, i);
    } else if i.Amo? && i.amo.LRW? {
      WiderReserved(raw, i);
    } else {
      SameMask(i);
    }
  }

  /** Every encoding in the manual is decoded to its operation. */
  lemma EncodingIsDecoded(raw: bv32, i: Insn)
    requires HasOpcode(i) && IsEncoding(raw, i)
    ensures SameOperation(Decode(raw), i)
  {
    WiderMask(raw, i);
    DecodeMatches(raw, i);
  }

  lemma SameBits(a: Insn, b: Insn)
    requires SameOperation(a, b)
    ensures ManualMask(a) == ManualMask(b) && Match(a) == Match(b)
  {
  }

  /** Words with a nonzero upper field where the decoder does not look at it: register operations other
      than `add`, `sub` and the right shifts, `slli`, and `lr.w`. */
  predicate Overlooked(raw: bv32) {
    var op, f3 := Opcode(raw), Funct3(raw);
    || (op == 0x33 && f3 != 0 && f3 != 5 && Funct7(raw) != 0)
    || (op == 0x13 && f3 == 1 && Funct7(raw) != 0)
    || (op == 0x2f && f3 == 2 && Funct7(raw) >> 2 == 2 && (raw >> 20) & 31 != 0)
  }

  lemma OverlookedRegister(raw: bv32)
    requires Opcode(raw) == 0x33 && !Decode(raw).Ill?
    ensures IsEncoding(raw, Decode(raw)) <==> !Overlooked(raw)
  {
  }

  lemma OverlookedImmediate(raw: bv32)
    requires Opcode(raw) == 0x13 && !Decode(raw).Ill?
    ensures IsEncoding(raw, Decode(raw)) <==> !Overlooked(raw)
  {
  }

  lemma OverlookedAtomic(raw: bv32)
    requires Opcode(raw) == 0x2f && !Decode(raw).Ill?
    ensures IsEncoding(raw, Decode(raw)) <==> !Overlooked(raw)
  {
  }

  lemma OverlookedNowhereElse(raw: bv32)
    requires Opcode(raw) != 0x33 && Opcode(raw) != 0x13 && Opcode(raw) != 0x2f && !Decode(raw).Ill?
    ensures IsEncoding(raw, Decode(raw)) && !Overlooked(raw)
  {
  }

  lemma DecodedIsEncoding(raw: bv32)
    requires !Decode(raw).Ill?
    ensures IsEncoding(raw, Decode(raw)) <==> !Overlooked(raw)
  {
    if Opcode(raw) == 0x33 {
      OverlookedRegister(raw);
    } else if Opcode(raw) == 0x13 {
      OverlookedImmediate(raw);
    } else if Opcode(raw) == 0x2f {
      OverlookedAtomic(raw);
    } else {
      OverlookedNowhereElse(raw);
    }
  }

  lemma OverlookedIsLegal(raw: bv32)
    requires Overlooked(raw)
    ensures !Decode(raw).Ill?
  {
  }

  ghost predicate NoEncoding(raw: bv32) {
    forall i {:trigger IsEncoding(raw, i)} | HasOpcode(i) :: !IsEncoding(raw, i)
  }

  /** The decoder accepts a word that is no encoding in the manual if and only if it overlooks a field. */
  lemma AcceptsOverlooked(raw: bv32)
    ensures !Decode(raw).Ill? && NoEncoding(raw) <==> Overlooked(raw)
  {
    if Overlooked(raw) {
      OverlookedIsLegal(raw);
      forall i | HasOpcode(i) ensures !IsEncoding(raw, i) {
        NotAnEncoding(raw, i);
      }
    } else if !Decode(raw).Ill? {
      DecodedHasOpcode(raw);
      DecodedIsEncoding(raw);
      assert IsEncoding(raw, Decode(raw));
    }
  }

  lemma NotAnEncoding(raw: bv32, i: Insn)
    requires Overlooked(raw) && HasOpcode(i)
    ensures !IsEncoding(raw, i)
  {
    if IsEncoding(raw, i) {
      EncodingIsDecoded(raw, i);
      OverlookedIsLegal(raw);
      DecodedIsEncoding(raw);
      SameBits(Decode(raw), i);
      assert false;
    }
  }

  /** The encoding of `mulh x0, x0, x0`, which is no instruction of RV32IA, runs as `sll x0, x0, x0`. */
  lemma OverlookedExample()
    ensures Decode(0x0200_1033) == OpReg(SLL, 0, 0, 0) && NoEncoding(0x0200_1033)
  {
    AcceptsOverlooked(0x0200_1033);
  }

  // ---------- Encoding ----------

  function RegBits(r: Reg): bv32 {
    FromNat(r) as bv32
  }

  lemma SmallByte(b: bv8)
    ensures ToNat(b) < 32 ==> b < 32
  {
  }

  lemma Narrow(b: bv8)
    ensures (b as bv32) as bv8 == b && (b < 32 ==> b as bv32 < 32)
  {
  }

  lemma RegRoundTrip(r: Reg)
    ensures RegBits(r) < 32 && AsReg(RegBits(r)) == r
  {
    NumberRoundTrip(r);
    SmallByte(FromNat(r));
    Narrow(FromNat(r));
  }

  /** Register fields: rd in bits 7-11, rs1 in bits 15-19, rs2 in bits 20-24. */
  function Registers(rd: bv32, rs1: bv32, rs2: bv32): bv32 {
    (rd << 7) | (rs1 << 15) | (rs2 << 20)
  }

  /** Instructions as the manual lays them out: the fixed bits, the registers and the immediate of the format. */
  function Encode(i: Insn): bv32 {
    match i
    case Lui(rd, imm) => Match(i) | Registers(RegBits(rd), 0, 0) | EncodeU(FromWord(imm))
    case Auipc(rd, imm) => Match(i) | Registers(RegBits(rd), 0, 0) | EncodeU(FromWord(imm))
    case Jal(rd, imm) => Match(i) | Registers(RegBits(rd), 0, 0) | EncodeJ(FromWord(imm))
    case Jalr(rd, rs1, imm) => Match(i) | Registers(RegBits(rd), RegBits(rs1), 0) | EncodeI(FromWord(imm))
    case Bcc(_, rs1, rs2, imm) => Match(i) | Registers(0, RegBits(rs1), RegBits(rs2)) | EncodeB(FromWord(imm))
    case Load(_, _, rd, rs1, imm) => Match(i) | Registers(RegBits(rd), RegBits(rs1), 0) | EncodeI(FromWord(imm))
    case Store(_, rs1, rs2, imm) => Match(i) | Registers(0, RegBits(rs1), RegBits(rs2)) | EncodeS(FromWord(imm))
    case OpImm(aop, rd, rs1, imm) =>
      if IsShiftOp(aop) then Match(i) | Registers(RegBits(rd), RegBits(rs1), imm.b0 as bv32)
      else Match(i) | Registers(RegBits(rd), RegBits(rs1), 0) | EncodeI(FromWord(imm))
    case OpReg(_, rd, rs1, rs2) => Match(i) | Registers(RegBits(rd), RegBits(rs1), RegBits(rs2))
    case Amo(_, rd, rs1, rs2) => Match(i) | Registers(RegBits(rd), RegBits(rs1), RegBits(rs2))
    case _ => Match(i)
  }

  /** The instructions that have an encoding; `lr.w` has no second source. */
  predicate Representable(i: Insn) {
    HasOpcode(i) &&
    match i
    case Lui(_, imm) => FromWord(imm) & 0xfff == 0
    case Auipc(_, imm) => FromWord(imm) & 0xfff == 0
    case Jal(_, imm) => IsImmJ(FromWord(imm))
    case Jalr(_, _, imm) => IsImmI(FromWord(imm))
    case Bcc(_, _, _, imm) => IsImmB(FromWord(imm))
    case Load(_, _, _, _, imm) => IsImmI(FromWord(imm))
    case Store(_, _, _, imm) => IsImmI(FromWord(imm))
    case OpImm(aop, _, _, imm) => if IsShiftOp(aop) then IsAmount(imm) else IsImmI(FromWord(imm))
    case Amo(amo, _, _, rs2) => amo.LRW? ==> rs2 == 0
    case _ => true
  }

  // The fields of an encoded instruction, format by format; `m` are its fixed bits.

  lemma FieldsR(m: bv32, rd: bv32, rs1: bv32, rs2: bv32)
    requires rd < 32 && rs1 < 32 && rs2 < 32 && m & 0x1ff_8f80 == 0
    ensures var raw := m | Registers(rd, rs1, rs2);
            raw & 0xfe00_707f == m && (raw >> 7) & 31 == rd && (raw >> 15) & 31 == rs1 && (raw >> 20) & 31 == rs2
  {
  }

  lemma FieldsI(m: bv32, imm: bv32, rd: bv32, rs1: bv32)
    requires rd < 32 && rs1 < 32 && m & 0xffff_8f80 == 0 && IsImmI(imm)
    ensures var raw := m | Registers(rd, rs1, 0) | EncodeI(imm);
            raw & 0x707f == m && (raw >> 7) & 31 == rd && (raw >> 15) & 31 == rs1 && ImmI(raw) == imm
  {
  }

  lemma FieldsS(m: bv32, imm: bv32, rs1: bv32, rs2: bv32)
    requires rs1 < 32 && rs2 < 32 && m & 0xffff_8f80 == 0 && IsImmI(imm)
    ensures var raw := m | Registers(0, rs1, rs2) | EncodeS(imm);
            raw & 0x707f == m && (raw >> 15) & 31 == rs1 && (raw >> 20) & 31 == rs2 && ImmS(raw) == imm
  {
  }

  lemma FieldsB(m: bv32, imm: bv32, rs1: bv32, rs2: bv32)
    requires rs1 < 32 && rs2 < 32 && m & 0xffff_8f80 == 0 && IsImmB(imm)
    ensures var raw := m | Registers(0, rs1, rs2) | EncodeB(imm);
            raw & 0x707f == m && (raw >> 15) & 31 == rs1 && (raw >> 20) & 31 == rs2 && ImmB(raw) == imm
  {
  }

  lemma FieldsU(m: bv32, imm: bv32, rd: bv32)
    requires rd < 32 && m & 0xffff_ff80 == 0 && imm & 0xfff == 0
    ensures var raw := m | Registers(rd, 0, 0) | EncodeU(imm); raw & 0x7f == m && (raw >> 7) & 31 == rd && ImmU(raw) == imm
  {
  }

  lemma FieldsJ(m: bv32, imm: bv32, rd: bv32)
    requires rd < 32 && m & 0xffff_ff80 == 0 && IsImmJ(imm)
    ensures var raw := m | Registers(rd, 0, 0) | EncodeJ(imm); raw & 0x7f == m && (raw >> 7) & 31 == rd && ImmJ(raw) == imm
  {
  }

  // Decoding a word with these fields.

  lemma DecodesRegister(raw: bv32, i: Insn)
    requires i.OpReg? && raw & 0xfe00_707f == Match(i)
    requires (raw >> 7) & 31 == RegBits(i.rd) && (raw >> 15) & 31 == RegBits(i.rs1) && (raw >> 20) & 31 == RegBits(i.rs2)
    ensures Decode(raw) == i
  {
    EncodingIsDecoded(raw, i);
    RegRoundTrip(i.rd);
    RegRoundTrip(i.rs1);
    RegRoundTrip(i.rs2);
  }

  lemma DecodesAtomic(raw: bv32, i: Insn)
    requires i.Amo? && raw & Mask(i) == Match(i)
    requires (raw >> 7) & 31 == RegBits(i.rd) && (raw >> 15) & 31 == RegBits(i.rs1) && (raw >> 20) & 31 == RegBits(i.rs2)
    ensures Decode(raw) == i
  {
    DecodeMatches(raw, i);
    RegRoundTrip(i.rd);
    RegRoundTrip(i.rs1);
    RegRoundTrip(i.rs2);
  }

  lemma DecodesShift(raw: bv32, i: Insn)
    requires i.OpImm? && IsShiftOp(i.aop) && IsAmount(i.imm) && raw & 0xfe00_707f == Match(i)
    requires (raw >> 7) & 31 == RegBits(i.rd) && (raw >> 15) & 31 == RegBits(i.rs1) && (raw >> 20) & 31 == i.imm.b0 as bv32
    ensures Decode(raw) == i
  {
    EncodingIsDecoded(raw, i);
    RegRoundTrip(i.rd);
    RegRoundTrip(i.rs1);
    Narrow(i.imm.b0);
  }

  lemma DecodesImmediate(raw: bv32, i: Insn)
    requires (i.Jalr? || i.Load? || (i.OpImm? && !IsShiftOp(i.aop))) && HasOpcode(i) && raw & 0x707f == Match(i)
    requires Rd(raw) == i.rd && Rs1(raw) == i.rs1 && ToWord(ImmI(raw)) == i.imm
    ensures Decode(raw) == i
  {
    DecodeMatches(raw, i);
  }

  lemma DecodesStore(raw: bv32, i: Insn)
    requires i.Store? && raw & 0x707f == Match(i) && Rs1(raw) == i.rs1 && Rs2(raw) == i.rs2 && ToWord(ImmS(raw)) == i.imm
    ensures Decode(raw) == i
  {
    DecodeMatches(raw, i);
  }

  lemma DecodesBranch(raw: bv32, i: Insn)
    requires i.Bcc? && raw & 0x707f == Match(i) && Rs1(raw) == i.rs1 && Rs2(raw) == i.rs2 && ToWord(ImmB(raw)) == i.imm
    ensures Decode(raw) == i
  {
    DecodeMatches(raw, i);
  }

  lemma DecodesUpper(raw: bv32, i: Insn)
    requires (i.Lui? || i.Auipc?) && raw & 0x7f == Match(i) && Rd(raw) == i.rd && ToWord(ImmU(raw)) == i.imm
    ensures Decode(raw) == i
  {
    DecodeMatches(raw, i);
  }

  lemma DecodesJump(raw: bv32, i: Insn)
    requires i.Jal? && raw & 0x7f == Match(i) && Rd(raw) == i.rd && ToWord(ImmJ(raw)) == i.imm
    ensures Decode(raw) == i
  {
    DecodeMatches(raw, i);
  }

  lemma BytesRoundTrip(w: Word)
    ensures ToWord(FromWord(w)) == w
  {
  }

  // Where the fixed bits of a format are.

  lemma FixedRegister(i: Insn)
    requires i.OpReg? || (i.OpImm? && IsShiftOp(i.aop)) || i.Amo?
    ensures Match(i) & 0x1ff_8f80 == 0
  {
  }

  lemma FixedImmediate(i: Insn)
    requires i.Jalr? || i.Load? || (i.OpImm? && !IsShiftOp(i.aop) && i.aop != SUB) || i.Bcc? || i.Store?
    ensures Match(i) & 0xffff_8f80 == 0
  {
  }

  lemma FixedUpper(i: Insn)
    requires i.Lui? || i.Auipc? || i.Jal?
    ensures Match(i) & 0xffff_ff80 == 0
  {
  }

  // Round trips.

  lemma RegisterTrip(i: Insn)
    requires i.OpReg?
    ensures Decode(Encode(i)) == i
  {
    RegRoundTrip(i.rd);
    RegRoundTrip(i.rs1);
    RegRoundTrip(i.rs2);
    FixedRegister(i);
    FieldsR(Match(i), RegBits(i.rd), RegBits(i.rs1), RegBits(i.rs2));
    DecodesRegister(Encode(i), i);
  }

  /** The bits that the decoder looks at are among those that the format fixes. */
  lemma AtomicMask(raw: bv32, i: Insn)
    requires i.Amo? && raw & 0xfe00_707f == Match(i)
    ensures raw & Mask(i) == Match(i)
  {
  }

  lemma AtomicTrip(i: Insn)
    requires i.Amo?
    ensures Decode(Encode(i)) == i
  {
    RegRoundTrip(i.rd);
    RegRoundTrip(i.rs1);
    RegRoundTrip(i.rs2);
    FixedRegister(i);
    FieldsR(Match(i), RegBits(i.rd), RegBits(i.rs1), RegBits(i.rs2));
    AtomicMask(Encode(i), i);
    DecodesAtomic(Encode(i), i);
  }

  lemma ShiftTrip(i: Insn)
    requires i.OpImm? && IsShiftOp(i.aop) && IsAmount(i.imm)
    ensures Decode(Encode(i)) == i
  {
    RegRoundTrip(i.rd);
    RegRoundTrip(i.rs1);
    Narrow(i.imm.b0);
    FixedRegister(i);
    FieldsR(Match(i), RegBits(i.rd), RegBits(i.rs1), i.imm.b0 as bv32);
    DecodesShift(Encode(i), i);
  }

  // With operands as bits: `rd`, `rs1` and `rs2` stand for registers and `v` for the immediate.

  lemma ImmediateBits(i: Insn, m: bv32, v: bv32, rd: bv32, rs1: bv32)
    requires (i.Jalr? || i.Load? || (i.OpImm? && !IsShiftOp(i.aop))) && HasOpcode(i) && m == Match(i) && m & 0xffff_8f80 == 0
    requires rd < 32 && rs1 < 32 && IsImmI(v) && AsReg(rd) == i.rd && AsReg(rs1) == i.rs1 && ToWord(v) == i.imm
    ensures Decode(m | Registers(rd, rs1, 0) | EncodeI(v)) == i
  {
    FieldsI(m, v, rd, rs1);
    DecodesImmediate(m | Registers(rd, rs1, 0) | EncodeI(v), i);
  }

  lemma StoreBits(i: Insn, m: bv32, v: bv32, rs1: bv32, rs2: bv32)
    requires i.Store? && m == Match(i) && m & 0xffff_8f80 == 0
    requires rs1 < 32 && rs2 < 32 && IsImmI(v) && AsReg(rs1) == i.rs1 && AsReg(rs2) == i.rs2 && ToWord(v) == i.imm
    ensures Decode(m | Registers(0, rs1, rs2) | EncodeS(v)) == i
  {
    FieldsS(m, v, rs1, rs2);
    DecodesStore(m | Registers(0, rs1, rs2) | EncodeS(v), i);
  }

  lemma BranchBits(i: Insn, m: bv32, v: bv32, rs1: bv32, rs2: bv32)
    requires i.Bcc? && m == Match(i) && m & 0xffff_8f80 == 0
    requires rs1 < 32 && rs2 < 32 && IsImmB(v) && AsReg(rs1) == i.rs1 && AsReg(rs2) == i.rs2 && ToWord(v) == i.imm
    ensures Decode(m | Registers(0, rs1, rs2) | EncodeB(v)) == i
  {
    FieldsB(m, v, rs1, rs2);
    DecodesBranch(m | Registers(0, rs1, rs2) | EncodeB(v), i);
  }

  lemma UpperBits(i: Insn, m: bv32, v: bv32, rd: bv32)
    requires (i.Lui? || i.Auipc?) && m == Match(i) && m & 0xffff_ff80 == 0
    requires rd < 32 && v & 0xfff == 0 && AsReg(rd) == i.rd && ToWord(v) == i.imm
    ensures Decode(m | Registers(rd, 0, 0) | EncodeU(v)) == i
  {
    FieldsU(m, v, rd);
    DecodesUpper(m | Registers(rd, 0, 0) | EncodeU(v), i);
  }

  lemma JumpBits(i: Insn, m: bv32, v: bv32, rd: bv32)
    requires i.Jal? && m == Match(i) && m & 0xffff_ff80 == 0
    requires rd < 32 && IsImmJ(v) && AsReg(rd) == i.rd && ToWord(v) == i.imm
    ensures Decode(m | Registers(rd, 0, 0) | EncodeJ(v)) == i
  {
    FieldsJ(m, v, rd);
    DecodesJump(m | Registers(rd, 0, 0) | EncodeJ(v), i);
  }

  lemma ImmediateTrip(i: Insn)
    requires (i.Jalr? || i.Load? || (i.OpImm? && !IsShiftOp(i.aop))) && Representable(i)
    ensures Decode(Encode(i)) == i
  {
    RegRoundTrip(i.rd);
    RegRoundTrip(i.rs1);
    BytesRoundTrip(i.imm);
    FixedImmediate(i);
    ImmediateBits(i, Match(i), FromWord(i.imm), RegBits(i.rd), RegBits(i.rs1));
  }

  lemma StoreTrip(i: Insn)
    requires i.Store? && Representable(i)
    ensures Decode(Encode(i)) == i
  {
    RegRoundTrip(i.rs1);
    RegRoundTrip(i.rs2);
    BytesRoundTrip(i.imm);
    FixedImmediate(i);
    StoreBits(i, Match(i), FromWord(i.imm), RegBits(i.rs1), RegBits(i.rs2));
  }

  lemma BranchTrip(i: Insn)
    requires i.Bcc? && Representable(i)
    ensures Decode(Encode(i)) == i
  {
    RegRoundTrip(i.rs1);
    RegRoundTrip(i.rs2);
    BytesRoundTrip(i.imm);
    FixedImmediate(i);
    BranchBits(i, Match(i), FromWord(i.imm), RegBits(i.rs1), RegBits(i.rs2));
  }

  lemma UpperTrip(i: Insn)
    requires (i.Lui? || i.Auipc?) && Representable(i)
    ensures Decode(Encode(i)) == i
  {
    RegRoundTrip(i.rd);
    BytesRoundTrip(i.imm);
    FixedUpper(i);
    UpperBits(i, Match(i), FromWord(i.imm), RegBits(i.rd));
  }

  lemma JumpTrip(i: Insn)
    requires i.Jal? && Representable(i)
    ensures Decode(Encode(i)) == i
  {
    RegRoundTrip(i.rd);
    BytesRoundTrip(i.imm);
    FixedUpper(i);
    JumpBits(i, Match(i), FromWord(i.imm), RegBits(i.rd));
  }

  lemma PlainTrip(i: Insn)
    requires i.Fence? || i.FenceI? || i.Ecall? || i.Ebreak?
    ensures Decode(Encode(i)) == i
  {
  }

  /** Every representable instruction is decoded from its encoding, operands included. */
  lemma DecodeEncode(i: Insn)
    requires Representable(i)
    ensures Decode(Encode(i)) == i
  {
    if i.Lui? || i.Auipc? {
      UpperTrip(i);
    } else if i.Jal? {
      JumpTrip(i);
    } else if i.Bcc? {
      BranchTrip(i);
    } else if i.Store? {
      StoreTrip(i);
    } else if i.OpReg? {
      RegisterTrip(i);
    } else if i.Amo? {
      AtomicTrip(i);
    } else if i.OpImm? && IsShiftOp(i.aop) {
      ShiftTrip(i);
    } else if i.Jalr? || i.Load? || i.OpImm? {
      ImmediateTrip(i);
    } else {
      PlainTrip(i);
    }
  }
}
