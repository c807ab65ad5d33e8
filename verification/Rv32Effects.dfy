/** What the interpreter's handlers do to memory and registers and when they stop, stated with numbers and
    instruction by instruction (`dbt/guest/rv32_interp.cpp`). */
module Rv32Effects {
  import opened Common
  import opened Qir
  import opened Bytes
  import opened Rv32
  import opened Rv32Machine
  import opened Rv32Operators
  import Rv32Emission

  // ---------- Loads and stores ----------

  /** The values of a type. */
  function Values(sz: VType): nat {
    match sz
    case I8 => 0x100
    case I16 => 0x1_0000
    case I32 => 0x1_0000_0000
  }

  /** The little-endian number in memory. */
  function NumberAt(mem: Mem, sz: VType, a: nat): nat
    requires MappedAt(mem, sz, a)
  {
    match sz
    case I8 => ToNat(mem[a])
    case I16 => ToNat(mem[a]) + 0x100 * ToNat(mem[a + 1])
    case I32 => ToNat(mem[a]) + 0x100 * ToNat(mem[a + 1]) + 0x1_0000 * ToNat(mem[a + 2]) + 0x100_0000 * ToNat(mem[a + 3])
  }

  /** A number that is widened to 32 bits, as a signed number if its upper half is negative. */
  function Widened(sz: VType, sgn: VSign, x: nat): int {
    if sgn == S && x >= Values(sz) / 2 && sz != I32 then x + 0x1_0000_0000 - Values(sz) else x
  }

  lemma SignBit(b: bv8)
    ensures b & 0x80 != 0 <==> ToNat(b) >= 128
    ensures ToNat(0xff) == 255 && ToNat(0) == 0
  {
  }

  lemma ByteBelow(b: bv8)
    ensures ToNat(b) < 256
  {
  }

  lemma LoadedByte(mem: Mem, sgn: VSign, a: nat)
    requires MappedAt(mem, I8, a)
    ensures AddressOf(LoadAt(mem, I8, sgn, a)) == Widened(I8, sgn, NumberAt(mem, I8, a))
  {
    SignBit(mem[a]);
    ByteBelow(mem[a]);
  }

  lemma LoadedHalf(mem: Mem, sgn: VSign, a: nat)
    requires MappedAt(mem, I16, a)
    ensures AddressOf(LoadAt(mem, I16, sgn, a)) == Widened(I16, sgn, NumberAt(mem, I16, a))
  {
    SignBit(mem[a + 1]);
    ByteBelow(mem[a]);
    ByteBelow(mem[a + 1]);
  }

  /** A load yields the number in memory, widened. */
  lemma LoadedNumber(mem: Mem, sz: VType, sgn: VSign, a: nat)
    requires MappedAt(mem, sz, a)
    ensures AddressOf(LoadAt(mem, sz, sgn, a)) == Widened(sz, sgn, NumberAt(mem, sz, a))
  {
    match sz
    case I8 => LoadedByte(mem, sgn, a);
    case I16 => LoadedHalf(mem, sgn, a);
    case I32 =>
  }

  lemma LowPart(d0: nat, d1: nat, d2: nat, d3: nat, x: nat)
    requires d0 < 256 && d1 < 256 && d2 < 256 && d3 < 256 && x == d0 + 0x100 * d1 + 0x1_0000 * d2 + 0x100_0000 * d3
    ensures x % 0x100 == d0 && x % 0x1_0000 == d0 + 0x100 * d1 && x % 0x1_0000_0000 == x
  {
    assert x == d0 + 0x100 * (d1 + 0x100 * d2 + 0x1_0000 * d3);
    assert x == (d0 + 0x100 * d1) + 0x1_0000 * (d2 + 0x100 * d3);
  }

  /** After a store, memory holds the low part of the value, and the same addresses are mapped. */
  lemma StoredNumber(mem: Mem, sz: VType, a: nat, v: Word)
    requires MappedAt(mem, sz, a)
    ensures MappedAt(StoreAt(mem, sz, a, v), sz, a) && NumberAt(StoreAt(mem, sz, a, v), sz, a) == AddressOf(v) % Values(sz)
  {
    ByteBelow(v.b0);
    ByteBelow(v.b1);
    ByteBelow(v.b2);
    ByteBelow(v.b3);
    LowPart(ToNat(v.b0), ToNat(v.b1), ToNat(v.b2), ToNat(v.b3), AddressOf(v));
  }

  /** So a load gives back what a store of the same size has put there. */
  lemma LoadAfterStore(mem: Mem, sz: VType, sgn: VSign, a: nat, v: Word)
    requires MappedAt(mem, sz, a)
    ensures MappedAt(StoreAt(mem, sz, a, v), sz, a)
    ensures AddressOf(LoadAt(StoreAt(mem, sz, a, v), sz, sgn, a)) == Widened(sz, sgn, AddressOf(v) % Values(sz))
  {
    StoredNumber(mem, sz, a, v);
    LoadedNumber(StoreAt(mem, sz, a, v), sz, sgn, a);
  }

  // ---------- Atomic operations ----------

  predicate Implemented(amo: AmoOp) {
    amo == LRW || amo == SCW || amo == AMOSWAPW || amo == AMOADDW || amo == AMOMAXUW
  }

  /** The word that is in memory afterwards, when it was `cur` before. */
  ghost predicate AtomicStored(n: Numbering, amo: AmoOp, cur: Word, b: Word, stored: Word) {
    match amo
    case LRW => stored == cur
    case SCW => stored == b
    case AMOSWAPW => stored == b
    case AMOADDW => n.num(stored) == (n.num(cur) + n.num(b)) % 0x1_0000_0000
    case AMOMAXUW => n.num(stored) == if n.num(cur) >= n.num(b) then n.num(cur) else n.num(b)
    case _ => false
  }

  lemma StoredWord(mem: Mem, w: Word, v: Word)
    requires MappedAt(mem, I32, AddressOf(w))
    ensures StoreWord(mem, I32, w, v).Some? && LoadWord(StoreWord(mem, I32, w, v).value, I32, S, w) == Some(v)
  {
  }

  lemma AtomicStores(n: Numbering, amo: AmoOp, cur: Word, b: Word)
    requires Bijective(n) && Implemented(amo)
    ensures var v := AmoStores(MachineOn(n), amo, cur, b); AtomicStored(n, amo, cur, b, if v.Some? then v.value else cur)
  {
    SumsOn(n, cur, b);
    ComparisonsOn(n, cur, b);
  }

  /** Every implemented atomic operation on mapped memory: what it stores, and that the destination gets the
      old word, or zero for success of `sc.w`; `amomaxu.w` writes no register. */
  lemma AtomicEffect(n: Numbering, amo: AmoOp, rd: Reg, rs1: Reg, rs2: Reg, c: Cpu)
    requires Bijective(n) && c.Valid() && Implemented(amo) && MappedAt(c.mem, I32, AddressOf(c.gpr[rs1]))
    ensures var r, cur := HandleAmo(MachineOn(n), amo, rd, rs1, rs2, c), LoadWord(c.mem, I32, S, c.gpr[rs1]).value;
            && r.Stepped? && LoadWord(r.cpu.mem, I32, S, c.gpr[rs1]).Some?
            && AtomicStored(n, amo, cur, c.gpr[rs2], LoadWord(r.cpu.mem, I32, S, c.gpr[rs1]).value)
            && (amo == AMOMAXUW ==> r.cpu.gpr == c.gpr)
            && (amo != AMOMAXUW && rd != 0 ==> r.cpu.gpr[rd] == if amo == SCW then Word(0, 0, 0, 0) else cur)
  {
    var cur := LoadWord(c.mem, I32, S, c.gpr[rs1]).value;
    AtomicStores(n, amo, cur, c.gpr[rs2]);
    var v := AmoStores(MachineOn(n), amo, cur, c.gpr[rs2]);
    if v.Some? {
      StoredWord(c.mem, c.gpr[rs1], v.value);
    }
  }

  // ---------- Stopping ----------

  /** The memory that an instruction accesses, if it does. */
  ghost predicate AccessesUnmapped(ar: Arith, i: Insn, c: Cpu)
    requires c.Valid()
  {
    || ((i.Load? || i.Store?) && !MappedAt(c.mem, i.sz, AddressOf(ar.Plus(c.gpr[i.rs1], i.imm))))
    || (i.Amo? && Implemented(i.amo) && !MappedAt(c.mem, I32, AddressOf(c.gpr[i.rs1])))
  }

  ghost predicate JumpsMisaligned(ar: Arith, i: Insn, c: Cpu)
    requires c.Valid()
  {
    || (i.Jal? && Misaligned(i.imm)) || (i.Jalr? && Misaligned(JalrTarget(ar, c.gpr[i.rs1], i.imm)))
    || (i.Bcc? && ar.taken(i.bop, c.gpr[i.rs1], c.gpr[i.rs2]) && Misaligned(i.imm))
  }

  /** An instruction stops for exactly one of these reasons, and otherwise goes on. */
  lemma StopsFor(ar: Arith, i: Insn, c: Cpu)
    requires c.Valid()
    ensures var r := Handle(ar, i, c);
            && (r.Fault? <==> AccessesUnmapped(ar, i, c))
            && (r.Traps? && r.trap == ECALL <==> i.Ecall?) && (r.Traps? && r.trap == EBREAK <==> i.Ebreak?)
            && (r.Traps? && r.trap == ILLEGAL_INSN <==> i.Ill? || (i.Amo? && !Implemented(i.amo)))
            && (r.Traps? && r.trap == UNALIGNED_IP <==> JumpsMisaligned(ar, i, c))
  {
  }

  /** Translated code reports the trap number of `dbt/guest/rv32_cpu.h`. */
  lemma TrapNumbers(t: TrapCode)
    ensures AddressOf(Rv32Emission.TrapWord(t)) == match t case UNALIGNED_IP => 1 case ILLEGAL_INSN => 2 case EBREAK => 3 case ECALL => 4
  {
    assert ToNat(0) == 0 && ToNat(1) == 1 && ToNat(2) == 2 && ToNat(3) == 3 && ToNat(4) == 4;
  }
}
