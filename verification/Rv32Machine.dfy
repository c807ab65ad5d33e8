/** 32-bit arithmetic as C and as amd64 define it, on the numbers that words stand for. */
module Rv32Machine {
  import opened Common
  import opened Qir
  import opened Bytes
  import opened Rv32

  // ---------- Words as numbers ----------

  const VALUES: nat := 0x1_0000_0000

  /** The word with a given number. */
  function WordAt(a: nat): Word
    requires a < VALUES
  {
    Word(FromNat(a % 256), FromNat(a / 256 % 256), FromNat(a / 65536 % 256), FromNat(a / 16777216))
  }

  /** Digits to the base 256. */
  lemma Digits(d0: nat, d1: nat, d2: nat, d3: nat, a: nat)
    requires d0 < 256 && d1 < 256 && d2 < 256 && d3 < 256 && a == d0 + 0x100 * d1 + 0x1_0000 * d2 + 0x100_0000 * d3
    ensures a < VALUES && a % 256 == d0 && a / 256 % 256 == d1 && a / 65536 % 256 == d2 && a / 16777216 == d3
  {
    assert a / 256 == d1 + 0x100 * d2 + 0x1_0000 * d3;
    assert a / 65536 == d2 + 0x100 * d3;
  }

  lemma DigitsOf(a: nat)
    requires a < VALUES
    ensures a == a % 256 + 0x100 * (a / 256 % 256) + 0x1_0000 * (a / 65536 % 256) + 0x100_0000 * (a / 16777216) && a / 16777216 < 256
  {
    var x, y := a / 256, a / 65536;
    assert a == 256 * x + a % 256;
    assert y == x / 256 && x == 256 * y + x % 256;
    assert a / 16777216 == y / 256 && y == 256 * (y / 256) + y % 256;
  }

  /** Words and their numbers are in one-to-one correspondence. */
  lemma WordAtAddress(w: Word)
    ensures AddressOf(w) < VALUES && WordAt(AddressOf(w)) == w
  {
    ByteRoundTrip(w.b0);
    ByteRoundTrip(w.b1);
    ByteRoundTrip(w.b2);
    ByteRoundTrip(w.b3);
    Digits(ToNat(w.b0), ToNat(w.b1), ToNat(w.b2), ToNat(w.b3), AddressOf(w));
  }

  lemma AddressAtWord(a: nat)
    requires a < VALUES
    ensures AddressOf(WordAt(a)) == a
  {
    DigitsOf(a);
    NumberRoundTrip(a % 256);
    NumberRoundTrip(a / 256 % 256);
    NumberRoundTrip(a / 65536 % 256);
    NumberRoundTrip(a / 16777216);
  }

  /** A numbering of words; arithmetic uses nothing else about them. */
  datatype Numbering = Numbering(num: Word -> nat, word: nat -> Word)

  ghost predicate Bijective(n: Numbering) {
    && (forall w {:trigger n.num(w)} :: n.num(w) < VALUES && n.word(n.num(w)) == w)
    && (forall a: nat {:trigger n.word(a)} | a < VALUES :: n.num(n.word(a)) == a)
    && n.num(ZERO) == 0 && (forall w {:trigger n.num(w)} :: Misaligned(w) <==> n.num(w) % 4 != 0)
  }

  function Numbers(): Numbering {
    Numbering(w => AddressOf(w), (a: nat) => if a < VALUES then WordAt(a) else ZERO)
  }

  lemma MisalignedIs(w: Word)
    ensures Misaligned(w) <==> AddressOf(w) % 4 != 0
  {
    LowBits(w.b0);
    var rest := 0x40 * ToNat(w.b1) + 0x4000 * ToNat(w.b2) + 0x40_0000 * ToNat(w.b3);
    assert AddressOf(w) == ToNat(w.b0) + 4 * rest;
  }

  lemma ZeroIs()
    ensures AddressOf(ZERO) == 0
  {
    assert ToNat(0) == 0;
  }

  lemma NumbersRoundTrip(w: Word)
    ensures var n := Numbers(); n.num(w) == AddressOf(w) && n.num(w) < VALUES && n.word(n.num(w)) == w
  {
    WordAtAddress(w);
  }

  lemma WordsRoundTrip(a: nat)
    requires a < VALUES
    ensures var n := Numbers(); n.num(n.word(a)) == a
  {
    AddressAtWord(a);
  }

  lemma NumbersAreBijective()
    ensures Bijective(Numbers())
  {
    var n := Numbers();
    ZeroIs();
    NumbersRoundTrip(ZERO);
    forall w ensures n.num(w) < VALUES && n.word(n.num(w)) == w && (Misaligned(w) <==> n.num(w) % 4 != 0) {
      NumbersRoundTrip(w);
      MisalignedIs(w);
    }
    forall a: nat | a < VALUES ensures n.num(n.word(a)) == a {
      WordsRoundTrip(a);
    }
  }

  lemma Small(a: nat)
    requires a < VALUES
    ensures a % VALUES == a
  {
  }

  // ---------- Operators ----------

  function Signed(x: nat): int {
    if x < 0x8000_0000 then x else x - VALUES
  }

  function Power(n: nat): (p: nat)
    ensures p > 0
  {
    if n == 0 then 1 else 2 * Power(n - 1)
  }

  function Bitwise(f: (Byte, Byte) -> Byte, a: Word, b: Word): Word {
    Word(f(a.b0, b.b0), f(a.b1, b.b1), f(a.b2, b.b2), f(a.b3, b.b3))
  }

  function BitAnd(a: Word, b: Word): Word {
    Word(a.b0 & b.b0, a.b1 & b.b1, a.b2 & b.b2, a.b3 & b.b3)
  }

  /** C operators on `u32`, with casts to `i32` where the handlers have them. */
  function Calc(n: Numbering, aop: AluOp, a: Word, b: Word): Word {
    var x, y := n.num(a), n.num(b);
    match aop
    case ADD => n.word((x + y) % VALUES)
    case SUB => n.word((x - y) % VALUES)
    case SLT => if Signed(x) < Signed(y) then ONE else ZERO
    case SLTU => if x < y then ONE else ZERO
    case XOR => Bitwise((v, w) => v ^ w, a, b)
    case OR => Bitwise((v, w) => v | w, a, b)
    case AND => BitAnd(a, b)
    case SLL => n.word((x * Power(y)) % VALUES)
    case SRL => n.word((x / Power(y)) % VALUES)
    case SRA => n.word((Signed(x) / Power(y)) % VALUES)
  }

  predicate Taken(n: Numbering, bop: BranchOp, a: Word, b: Word) {
    var x, y := n.num(a), n.num(b);
    match bop
    case BEQ => a == b
    case BNE => a != b
    case BLT => Signed(x) < Signed(y)
    case BGE => Signed(x) >= Signed(y)
    case BLTU => x < y
    case BGEU => x >= y
  }

  /** amd64 two-operand instructions on 32-bit registers; shifts look at five bits of the count. */
  function Host(n: Numbering, op: BinaryOp, a: Word, b: Word): Word {
    var x, y := n.num(a), n.num(b);
    var count := n.num(BitAnd(b, LOW_FIVE));
    match op
    case Add => n.word((x + y) % VALUES)
    case Sub => n.word((x - y) % VALUES)
    case And => BitAnd(a, b)
    case Or => Bitwise((v, w) => v | w, a, b)
    case Xor => Bitwise((v, w) => v ^ w, a, b)
    case Sll => n.word((x * Power(count)) % VALUES)
    case Srl => n.word((x / Power(count)) % VALUES)
    case Sra => n.word((Signed(x) / Power(count)) % VALUES)
  }

  /** The condition codes after `cmp`, which sees numbers. */
  predicate Cond(n: Numbering, cc: CondCode, a: Word, b: Word) {
    var x, y := n.num(a), n.num(b);
    match cc
    case EQ => x == y
    case NE => x != y
    case LE => Signed(x) <= Signed(y)
    case LT => Signed(x) < Signed(y)
    case GE => Signed(x) >= Signed(y)
    case GT => Signed(x) > Signed(y)
    case LEU => x <= y
    case LTU => x < y
    case GEU => x >= y
    case GTU => x > y
  }

  function MachineOn(n: Numbering): Arith {
    Arith((aop, a, b) => Calc(n, aop, a, b), (bop, a, b) => Taken(n, bop, a, b),
          (op, a, b) => Host(n, op, a, b), (cc, a, b) => Cond(n, cc, a, b))
  }

  function Machine(): Arith {
    MachineOn(Numbers())
  }

  // ---------- C and amd64 agree ----------

  /** For these both are the same expression, so that this holds by definition; what has to be shown is
      in the shifts, whose amounts the host masks, and in the comparisons. */
  lemma PlainAgrees(n: Numbering, aop: AluOp, a: Word, b: Word)
    requires !aop.SLT? && !aop.SLTU? && !IsShiftOp(aop)
    ensures Host(n, BinaryOf(aop), a, b) == Calc(n, aop, a, b)
  {
    match aop
    case ADD =>
    case SUB =>
    case XOR =>
    case OR =>
    case AND =>
  }

  lemma ShiftsAgree(n: Numbering, aop: AluOp, a: Word, b: Word)
    requires IsShiftOp(aop)
    ensures Host(n, BinaryOf(aop), a, b) == Calc(n, aop, a, Calc(n, AND, b, LOW_FIVE))
  {
    match aop
    case SLL =>
    case SRL =>
    case SRA =>
  }

  lemma MaskedAmount(n: Numbering, b: Word)
    requires IsAmount(b)
    ensures Calc(n, AND, b, LOW_FIVE) == b
  {
    FiveBits(b.b0);
    ZeroMask(b.b1);
    ZeroMask(b.b2);
    ZeroMask(b.b3);
  }

  lemma ZeroMask(b: Byte)
    ensures b & 0 == 0
  {
  }

  lemma BranchesAgree(n: Numbering, bop: BranchOp, a: Word, b: Word)
    requires Bijective(n)
    ensures Cond(n, CondOf(bop), a, b) == Taken(n, bop, a, b)
  {
    assert a == b <==> n.num(a) == n.num(b);
  }

  /** amd64 instructions compute what the interpreter's C code computes. */
  lemma OperatorsAgreeOn(n: Numbering)
    requires Bijective(n)
    ensures OperatorsAgree(MachineOn(n))
  {
    var ar := MachineOn(n);
    forall aop: AluOp, a, b | !aop.SLT? && !aop.SLTU? && !IsShiftOp(aop)
      ensures ar.host(BinaryOf(aop), a, b) == ar.compute(aop, a, b)
    {
      PlainAgrees(n, aop, a, b);
    }
    forall aop: AluOp, a, b | IsShiftOp(aop)
      ensures ar.host(BinaryOf(aop), a, b) == ar.compute(aop, a, ar.compute(AND, b, LOW_FIVE))
    {
      ShiftsAgree(n, aop, a, b);
    }
    forall b | IsAmount(b) ensures ar.compute(AND, b, LOW_FIVE) == b {
      MaskedAmount(n, b);
    }
    forall bop: BranchOp, a, b
      ensures ar.cond(CondOf(bop), a, b) == ar.taken(bop, a, b)
    {
      BranchesAgree(n, bop, a, b);
    }
  }

  lemma MachineOperatorsAgree()
    ensures OperatorsAgree(Machine())
  {
    NumbersAreBijective();
    OperatorsAgreeOn(Numbers());
  }

  // ---------- Addition ----------

  lemma SumRemainder(x: nat, y: nat)
    requires x % 4 == 0
    ensures (x + y) % VALUES % 4 == y % 4
  {
    var q := (x + y) / VALUES;
    assert (x + y) % VALUES == x + y - VALUES * q;
    assert x == 4 * (x / 4);
    assert (x + y) % VALUES == y + 4 * (x / 4 - 0x4000_0000 * q);
  }

  lemma AlignedSum(n: Numbering, a: Word, b: Word)
    requires Bijective(n) && !Misaligned(a)
    ensures Misaligned(Calc(n, ADD, a, b)) <==> Misaligned(b)
  {
    SumRemainder(n.num(a), n.num(b));
    var s := (n.num(a) + n.num(b)) % VALUES;
    assert n.num(n.word(s)) == s;
  }

  lemma AdditionLawsOn(n: Numbering)
    requires Bijective(n)
    ensures AdditionLaws(MachineOn(n))
  {
    var ar := MachineOn(n);
    forall a, b ensures ar.compute(ADD, a, b) == ar.compute(ADD, b, a) {
    }
    forall a ensures ar.compute(ADD, a, ZERO) == a {
      Small(n.num(a));
    }
    forall a, b | !Misaligned(a) ensures Misaligned(ar.compute(ADD, a, b)) <==> Misaligned(b) {
      AlignedSum(n, a, b);
    }
  }

  lemma MachineAdditionLaws()
    ensures AdditionLaws(Machine())
  {
    NumbersAreBijective();
    AdditionLawsOn(Numbers());
  }

  // ---------- Addresses ----------

  /** Addition of addresses is addition of numbers modulo 2^32, and they are compared as numbers. */
  lemma AddressesOn(n: Numbering, a: Word, b: Word)
    requires Bijective(n)
    ensures n.num(MachineOn(n).compute(ADD, a, b)) == (n.num(a) + n.num(b)) % VALUES
    ensures MachineOn(n).taken(BGEU, a, b) <==> n.num(a) >= n.num(b)
  {
    var s := (n.num(a) + n.num(b)) % VALUES;
    assert n.num(n.word(s)) == s;
  }
}
