/** What the operators of the interpreter compute, in terms of the numbers and bits of words and without
    the definitions in `Rv32Machine`: shifts bit by bit, signed comparison by order after the sign bits have
    been flipped, and bitwise operators on 32 bits at once. */
module Rv32Operators {
  import opened Common
  import opened Qir
  import opened Bytes
  import opened Rv32
  import opened Rv32Machine
  import Rv32Decode

  const SIGN: int := 0x8000_0000

  /** The order of signed numbers is that of unsigned ones with the sign bit flipped. */
  function Flipped(x: nat): nat {
    if x < SIGN then x + SIGN else x - SIGN
  }

  lemma FlippedIsSigned(x: nat, y: nat)
    requires x < VALUES && y < VALUES
    ensures Signed(x) < Signed(y) <==> Flipped(x) < Flipped(y)
  {
  }

  // ---------- Addition, subtraction, comparison ----------

  lemma Borrow(x: nat, y: nat)
    requires x < VALUES && y < VALUES
    ensures ((x - y) % VALUES + y) % VALUES == x
  {
    if x >= y {
      Small(x - y);
      Small(x);
    } else {
      assert (x - y) % VALUES == x - y + VALUES;
      assert x + VALUES == VALUES * 1 + x;
    }
  }

  lemma SumsOn(n: Numbering, a: Word, b: Word)
    requires Bijective(n)
    ensures Adds(MachineOn(n), n, a, b)
  {
    var s, d := (n.num(a) + n.num(b)) % VALUES, (n.num(a) - n.num(b)) % VALUES;
    assert n.num(n.word(s)) == s && n.num(n.word(d)) == d;
    Borrow(n.num(a), n.num(b));
  }

  /** Comparisons of numbers, signed ones after flipping. */
  ghost predicate Compares(m: Arith, n: Numbering, a: Word, b: Word) {
    var x, y := n.num(a), n.num(b);
    && m.compute(SLT, a, b) == (if Flipped(x) < Flipped(y) then Word(1, 0, 0, 0) else Word(0, 0, 0, 0))
    && m.compute(SLTU, a, b) == (if x < y then Word(1, 0, 0, 0) else Word(0, 0, 0, 0))
    && (m.taken(BEQ, a, b) <==> x == y) && (m.taken(BNE, a, b) <==> x != y)
    && (m.taken(BLT, a, b) <==> Flipped(x) < Flipped(y)) && (m.taken(BGE, a, b) <==> Flipped(x) >= Flipped(y))
    && (m.taken(BLTU, a, b) <==> x < y) && (m.taken(BGEU, a, b) <==> x >= y)
  }

  /** Sum and difference modulo 2^32. */
  ghost predicate Adds(m: Arith, n: Numbering, a: Word, b: Word) {
    && n.num(m.compute(ADD, a, b)) == (n.num(a) + n.num(b)) % VALUES
    && (n.num(m.compute(SUB, a, b)) + n.num(b)) % VALUES == n.num(a)
  }

  lemma ComparisonsOn(n: Numbering, a: Word, b: Word)
    requires Bijective(n)
    ensures Compares(MachineOn(n), n, a, b)
  {
    FlippedIsSigned(n.num(a), n.num(b));
    assert a == b <==> n.num(a) == n.num(b);
  }

  // ---------- Shifts ----------

  lemma DoubledRemainder(z: nat)
    ensures (2 * z) % VALUES == 2 * (z % VALUES) % VALUES
  {
    var q := z / VALUES;
    assert z == VALUES * q + z % VALUES;
    assert 2 * z == VALUES * (2 * q) + 2 * (z % VALUES);
    SameAfter(2 * q, 2 * (z % VALUES));
  }

  lemma SameAfter(q: nat, r: nat)
    ensures (VALUES * q + r) % VALUES == r % VALUES
  {
    var s := r / VALUES;
    assert VALUES * q + r == VALUES * (q + s) + r % VALUES;
  }

  lemma TwiceProduct(x: nat, p: nat)
    ensures x * (2 * p) == 2 * (x * p)
  {
  }

  lemma Halves(p: nat, q: int, h: int, l: int, r: int)
    requires q == 2 * h + l && 0 <= l < 2 && 0 <= r < p
    ensures p * q + r == (2 * p) * h + (p * l + r) && 0 <= p * l + r < 2 * p
  {
  }

  lemma HalfTwice(s: int, p: nat)
    requires p > 0
    ensures s / (2 * p) == s / p / 2
  {
    var q, r := s / p, s % p;
    var h, l := q / 2, q % 2;
    Halves(p, q, h, l, r);
    QuotientIs(s, 2 * p, h, p * l + r);
  }

  lemma Distributes(d: int, a: int, b: int)
    ensures d * a - d * b == d * (a - b)
  {
  }

  lemma AtLeast(d: nat, k: nat)
    requires k > 0
    ensures d * k >= d
  {
    Distributes(d, k, 1);
    Product(d, k - 1);
  }

  lemma Product(a: nat, b: nat)
    ensures a * b >= 0
  {
  }

  lemma QuotientIs(s: int, d: nat, q: int, r: int)
    requires d > 0 && s == d * q + r && 0 <= r < d
    ensures s / d == q
  {
    Unique(d, q, r, s / d, s % d);
  }

  lemma Unique(d: nat, q: int, r: int, q': int, r': int)
    requires 0 <= r < d && 0 <= r' < d && d * q + r == d * q' + r'
    ensures q == q'
  {
    Distributes(d, q, q');
    Distributes(d, q', q);
    if q > q' {
      AtLeast(d, q - q');
    } else if q < q' {
      AtLeast(d, q' - q);
    }
  }

  lemma Narrows(s: int, p: nat)
    requires p > 0 && -SIGN <= s < SIGN
    ensures -SIGN <= s / p < SIGN
  {
    Between(p, s / p, s % p);
  }

  /** A quotient lies between its dividend and zero. */
  lemma Between(p: nat, q: int, r: int)
    requires 0 <= r < p && -SIGN <= p * q + r < SIGN
    ensures -SIGN <= q < SIGN
  {
    if q > 0 {
      AtLeast(q, p);
    } else if q < 0 {
      AtLeast(-q, p);
      Negates(p, q);
    }
  }

  lemma Negates(p: int, q: int)
    ensures -q * p == -(p * q)
  {
  }

  /** Half of a negative number, in two's complement: the sign bit is copied. */
  lemma HalfWrapped(s: int)
    requires -SIGN <= s < SIGN
    ensures s / 2 % VALUES == (s % VALUES) / 2 + (if s % VALUES >= SIGN then SIGN else 0)
  {
    if s >= 0 {
      Small(s);
      Small(s / 2);
    } else {
      assert s % VALUES == s + VALUES;
      assert s / 2 % VALUES == s / 2 + VALUES;
      assert (s + VALUES) / 2 == s / 2 + SIGN;
    }
  }

  /** One place more doubles or halves, and the arithmetic shift copies the sign bit. */
  ghost predicate Shifts(m: Arith, n: Numbering, a: Word, b: Word, more: Word) {
    && n.num(m.compute(SLL, a, more)) == 2 * n.num(m.compute(SLL, a, b)) % VALUES
    && n.num(m.compute(SRL, a, more)) == n.num(m.compute(SRL, a, b)) / 2
    && var r := n.num(m.compute(SRA, a, b)); n.num(m.compute(SRA, a, more)) == r / 2 + if r >= SIGN then SIGN else 0
  }

  lemma NextPower(y: nat)
    ensures Power(y + 1) == 2 * Power(y)
  {
  }

  lemma LeftOn(n: Numbering, a: Word, b: Word, more: Word)
    requires Bijective(n) && n.num(more) == n.num(b) + 1
    ensures var m := MachineOn(n); n.num(m.compute(SLL, a, more)) == 2 * n.num(m.compute(SLL, a, b)) % VALUES
  {
    NextPower(n.num(b));
    ShiftLeftStep(n, n.num(a), Power(n.num(b)));
  }

  lemma RightOn(n: Numbering, a: Word, b: Word, more: Word)
    requires Bijective(n) && n.num(more) == n.num(b) + 1
    ensures var m := MachineOn(n); n.num(m.compute(SRL, a, more)) == n.num(m.compute(SRL, a, b)) / 2
  {
    NextPower(n.num(b));
    ShiftRightStep(n, n.num(a), Power(n.num(b)));
  }

  lemma ArithmeticOn(n: Numbering, a: Word, b: Word, more: Word)
    requires Bijective(n) && n.num(more) == n.num(b) + 1
    ensures var m := MachineOn(n); var r := n.num(m.compute(SRA, a, b)); n.num(m.compute(SRA, a, more)) == r / 2 + if r >= SIGN then SIGN else 0
  {
    NextPower(n.num(b));
    ShiftArithmeticStep(n, n.num(a), Power(n.num(b)));
  }

  lemma ShiftsOn(n: Numbering, a: Word, b: Word, more: Word)
    requires Bijective(n) && n.num(more) == n.num(b) + 1
    ensures Shifts(MachineOn(n), n, a, b, more)
  {
    LeftOn(n, a, b, more);
    RightOn(n, a, b, more);
    ArithmeticOn(n, a, b, more);
  }

  lemma ShiftLeftStep(n: Numbering, x: nat, p: nat)
    requires Bijective(n)
    ensures n.num(n.word((x * (2 * p)) % VALUES)) == 2 * n.num(n.word((x * p) % VALUES)) % VALUES
  {
    TwiceProduct(x, p);
    DoubledRemainder(x * p);
    NumberOf(n, (x * (2 * p)) % VALUES);
    NumberOf(n, (x * p) % VALUES);
  }

  lemma NumberOf(n: Numbering, z: nat)
    requires Bijective(n) && z < VALUES
    ensures n.num(n.word(z)) == z
  {
  }

  lemma Divides(x: nat, p: nat)
    requires p > 0
    ensures 0 <= x / p <= x
  {
    Shrinks(p, x / p, x % p);
  }

  lemma Shrinks(p: nat, q: int, r: nat)
    requires r < p && p * q + r >= 0
    ensures 0 <= q <= p * q + r
  {
    if q > 0 {
      AtLeast(q, p);
    } else if q < 0 {
      AtLeast(p, -q);
      Negates(p, q);
    }
  }

  lemma ShiftRightStep(n: Numbering, x: nat, p: nat)
    requires Bijective(n) && x < VALUES && p > 0
    ensures n.num(n.word((x / (2 * p)) % VALUES)) == n.num(n.word((x / p) % VALUES)) / 2
  {
    HalfTwice(x, p);
    Divides(x, p);
    Small(x / p);
    Small(x / p / 2);
    NumberOf(n, (x / p) % VALUES);
    NumberOf(n, (x / (2 * p)) % VALUES);
  }

  lemma ShiftArithmeticStep(n: Numbering, x: nat, p: nat)
    requires Bijective(n) && x < VALUES && p > 0
    ensures var r := n.num(n.word((Signed(x) / p) % VALUES)); n.num(n.word((Signed(x) / (2 * p)) % VALUES)) == r / 2 + if r >= SIGN then SIGN else 0
  {
    var s := Signed(x);
    HalfTwice(s, p);
    Narrows(s, p);
    HalfWrapped(s / p);
    NumberOf(n, (s / p) % VALUES);
    NumberOf(n, (s / (2 * p)) % VALUES);
  }

  lemma NoShiftOn(n: Numbering, a: Word)
    requires Bijective(n)
    ensures var m := MachineOn(n); m.compute(SLL, a, ZERO) == m.compute(SRL, a, ZERO) == m.compute(SRA, a, ZERO) == a
  {
    var x := n.num(a);
    assert Power(0) == 1 && x * 1 == x && x / 1 == x && Signed(x) / 1 == Signed(x);
    Small(x);
    SignedRemainder(x);
  }

  lemma SignedRemainder(x: nat)
    requires x < VALUES
    ensures Signed(x) % VALUES == x
  {
    if x < SIGN {
      Small(x);
    } else {
      assert Signed(x) == VALUES * -1 + x;
    }
  }

  // ---------- Bits ----------

  lemma WideXor(a: Word, b: Word)
    ensures Rv32Decode.FromWord(Word(a.b0 ^ b.b0, a.b1 ^ b.b1, a.b2 ^ b.b2, a.b3 ^ b.b3)) == Rv32Decode.FromWord(a) ^ Rv32Decode.FromWord(b)
  {
  }

  lemma WideOr(a: Word, b: Word)
    ensures Rv32Decode.FromWord(Word(a.b0 | b.b0, a.b1 | b.b1, a.b2 | b.b2, a.b3 | b.b3)) == Rv32Decode.FromWord(a) | Rv32Decode.FromWord(b)
  {
  }

  lemma WideAnd(a: Word, b: Word)
    ensures Rv32Decode.FromWord(Word(a.b0 & b.b0, a.b1 & b.b1, a.b2 & b.b2, a.b3 & b.b3)) == Rv32Decode.FromWord(a) & Rv32Decode.FromWord(b)
  {
  }

  lemma BytesOf(n: Numbering, a: Word, b: Word)
    ensures var m := MachineOn(n);
            && m.compute(XOR, a, b) == Word(a.b0 ^ b.b0, a.b1 ^ b.b1, a.b2 ^ b.b2, a.b3 ^ b.b3)
            && m.compute(OR, a, b) == Word(a.b0 | b.b0, a.b1 | b.b1, a.b2 | b.b2, a.b3 | b.b3)
            && m.compute(AND, a, b) == Word(a.b0 & b.b0, a.b1 & b.b1, a.b2 & b.b2, a.b3 & b.b3)
  {
  }

  lemma XorOn(n: Numbering, a: Word, b: Word)
    ensures Rv32Decode.FromWord(MachineOn(n).compute(XOR, a, b)) == Rv32Decode.FromWord(a) ^ Rv32Decode.FromWord(b)
  {
    BytesOf(n, a, b);
    WideXor(a, b);
  }

  lemma OrOn(n: Numbering, a: Word, b: Word)
    ensures Rv32Decode.FromWord(MachineOn(n).compute(OR, a, b)) == Rv32Decode.FromWord(a) | Rv32Decode.FromWord(b)
  {
    BytesOf(n, a, b);
    WideOr(a, b);
  }

  lemma AndOn(n: Numbering, a: Word, b: Word)
    ensures Rv32Decode.FromWord(MachineOn(n).compute(AND, a, b)) == Rv32Decode.FromWord(a) & Rv32Decode.FromWord(b)
  {
    BytesOf(n, a, b);
    WideAnd(a, b);
  }

  lemma EvenByte(b: bv8)
    ensures ToNat(b & 0xfe) == ToNat(b) - ToNat(b) % 2 && b & 0xff == b
  {
  }

  lemma EvenSum(low: nat, rest: nat)
    ensures (low + 256 * rest) % 2 == low % 2
  {
    assert low + 256 * rest == low + 2 * (128 * rest);
  }

  lemma ClearedIs(w: Word)
    ensures AddressOf(BitAnd(w, CLEAR_BIT_0)) == AddressOf(w) - AddressOf(w) % 2
  {
    EvenByte(w.b0);
    EvenByte(w.b1);
    EvenByte(w.b2);
    EvenByte(w.b3);
    EvenSum(ToNat(w.b0), ToNat(w.b1) + 0x100 * ToNat(w.b2) + 0x1_0000 * ToNat(w.b3));
  }

  ghost predicate Clears(n: Numbering, w: Word) {
    n.num(BitAnd(w, CLEAR_BIT_0)) == n.num(w) - n.num(w) % 2
  }

  ghost predicate JumpsEven(m: Arith, n: Numbering, a: Word, imm: Word) {
    var s := (n.num(a) + n.num(imm)) % VALUES; n.num(JalrTarget(m, a, imm)) == s - s % 2
  }

  lemma TargetOn(n: Numbering, a: Word, imm: Word)
    requires Bijective(n) && Clears(n, MachineOn(n).compute(ADD, a, imm))
    ensures JumpsEven(MachineOn(n), n, a, imm)
  {
    SumsOn(n, a, imm);
  }

  // ---------- The machine ----------

  // The number of a word in `Numbers()` is its value as a little-endian address.

  /** The target of an indirect jump is the sum with its lowest bit cleared. */
  lemma MachineTargets(a: Word, imm: Word)
    ensures JumpsEven(Machine(), Numbers(), a, imm)
  {
    NumbersAreBijective();
    ClearedIs(Machine().compute(ADD, a, imm));
    TargetOn(Numbers(), a, imm);
  }

  /** Addition, subtraction and comparison of 32-bit numbers. */
  lemma MachineCompares(a: Word, b: Word)
    ensures Adds(Machine(), Numbers(), a, b) && Compares(Machine(), Numbers(), a, b)
  {
    NumbersAreBijective();
    SumsOn(Numbers(), a, b);
    ComparisonsOn(Numbers(), a, b);
  }

  /** Shifts by nothing, and by the amount `b` and one more. */
  lemma MachineShifts(a: Word, b: Word, more: Word)
    requires Numbers().num(more) == Numbers().num(b) + 1
    ensures var m := Machine(); m.compute(SLL, a, ZERO) == m.compute(SRL, a, ZERO) == m.compute(SRA, a, ZERO) == a
    ensures Shifts(Machine(), Numbers(), a, b, more)
  {
    NumbersAreBijective();
    NoShiftOn(Numbers(), a);
    ShiftsOn(Numbers(), a, b, more);
  }

  /** Bitwise operators on 32 bits. */
  lemma MachineBits(a: Word, b: Word)
    ensures Rv32Decode.FromWord(Machine().compute(XOR, a, b)) == Rv32Decode.FromWord(a) ^ Rv32Decode.FromWord(b)
    ensures Rv32Decode.FromWord(Machine().compute(OR, a, b)) == Rv32Decode.FromWord(a) | Rv32Decode.FromWord(b)
    ensures Rv32Decode.FromWord(Machine().compute(AND, a, b)) == Rv32Decode.FromWord(a) & Rv32Decode.FromWord(b)
  {
    XorOn(Numbers(), a, b);
    OrOn(Numbers(), a, b);
    AndOn(Numbers(), a, b);
  }
}
