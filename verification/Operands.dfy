/** `VOperand` of `dbt/qmc/qir.h`: operands packed into a 64-bit word with the bit fields of
    `dbt/util/bitfield.h`. */
module Operands {
  import opened Qir

  /** What a packed operand stands for; `Bad` is the operand that no factory makes. */
  datatype Unpacked =
    | Constant(ty: VType, val: bv32)
    | Virtual(ty: VType, reg: bv16)
    | Physical(ty: VType, reg: bv16)
    | StateSlot(global: bool, ty: VType, offs: bv16)
    | Bad

  // ---------- Fields ----------

  // `bf_range::encode` clears the field and shifts the value to the top of the word and down to its
  // place, so that bits which do not fit are lost; `decode` shifts up and down.

  function EncodeKind(c: bv64, t: bv64): bv64 {
    (c & !0x3) | ((t << 62) >> 62)
  }

  function DecodeKind(c: bv64): bv64 {
    (c << 62) >> 62
  }

  function EncodeType(c: bv64, t: bv64): bv64 {
    (c & !0xc) | ((t << 62) >> 60)
  }

  function DecodeType(c: bv64): bv64 {
    (c << 60) >> 62
  }

  function EncodeVirtual(c: bv64, t: bv64): bv64 {
    (c & !0x10) | ((t << 63) >> 59)
  }

  function DecodeVirtual(c: bv64): bv64 {
    (c << 59) >> 63
  }

  /** `f_reg` and `f_slot_offs`, which have the same place. */
  function EncodeShort(c: bv64, t: bv64): bv64 {
    (c & !0x1f_ffe0) | ((t << 48) >> 43)
  }

  function DecodeShort(c: bv64): bv64 {
    (c << 43) >> 48
  }

  function EncodeConst(c: bv64, t: bv64): bv64 {
    (c & !0x1f_ffff_ffe0) | ((t << 32) >> 27)
  }

  function DecodeConst(c: bv64): bv64 {
    (c << 27) >> 32
  }

  function EncodeGlobal(c: bv64, t: bv64): bv64 {
    (c & !0x20_0000) | ((t << 63) >> 42)
  }

  function DecodeGlobal(c: bv64): bv64 {
    (c << 42) >> 63
  }

  // ---------- Factories and accessors ----------

  const CONST: bv64 := 0
  const GPR: bv64 := 1
  const SLOT: bv64 := 2
  const BAD: bv64 := 3

  function TypeCode(ty: VType): bv64 {
    match ty
    case I8 => 1
    case I16 => 2
    case I32 => 3
  }

  function MakeVGPR(ty: bv64, reg: bv64): bv64 {
    EncodeShort(EncodeVirtual(EncodeType(EncodeKind(0, GPR), ty), 1), reg)
  }

  function MakePGPR(ty: bv64, reg: bv64): bv64 {
    EncodeShort(EncodeType(EncodeKind(0, GPR), ty), reg)
  }

  function MakeConst(ty: bv64, cval: bv64): bv64 {
    EncodeConst(EncodeType(EncodeKind(0, CONST), ty), cval)
  }

  function MakeSlot(global: bv64, ty: bv64, offs: bv64): bv64 {
    EncodeGlobal(EncodeShort(EncodeType(EncodeKind(0, SLOT), ty), offs), global)
  }

  function Pack(o: Unpacked): bv64 {
    match o
    case Constant(ty, val) => MakeConst(TypeCode(ty), val as bv64)
    case Virtual(ty, reg) => MakeVGPR(TypeCode(ty), reg as bv64)
    case Physical(ty, reg) => MakePGPR(TypeCode(ty), reg as bv64)
    case StateSlot(global, ty, offs) => MakeSlot(if global then 1 else 0, TypeCode(ty), offs as bv64)
    case Bad => EncodeKind(0, BAD)
  }

  /** GetType; the code 0 is `UNDEF`, which no factory is given. */
  function TypeOf(c: bv64): VType {
    var t := DecodeType(c);
    if t == 1 then I8 else if t == 2 then I16 else I32
  }

  lemma ShortFits(c: bv64)
    ensures DecodeShort(c) < 0x1_0000
  {
  }

  lemma ConstFits(c: bv64)
    ensures DecodeConst(c) < 0x1_0000_0000
  {
  }

  function Unpack(c: bv64): Unpacked {
    var kind := DecodeKind(c);
    ShortFits(c);
    ConstFits(c);
    if kind == CONST then Constant(TypeOf(c), DecodeConst(c) as bv32)
    else if kind == GPR then
      if DecodeVirtual(c) != 0 then Virtual(TypeOf(c), DecodeShort(c) as bv16) else Physical(TypeOf(c), DecodeShort(c) as bv16)
    else if kind == SLOT then StateSlot(DecodeGlobal(c) != 0, TypeOf(c), DecodeShort(c) as bv16)
    else Bad
  }

  // ---------- Round trips ----------

  lemma ConstTrip(ty: VType, val: bv32)
    ensures Unpack(Pack(Constant(ty, val))) == Constant(ty, val)
  {
  }

  lemma VirtualTrip(ty: VType, reg: bv16)
    ensures Unpack(Pack(Virtual(ty, reg))) == Virtual(ty, reg)
  {
  }

  lemma PhysicalTrip(ty: VType, reg: bv16)
    ensures Unpack(Pack(Physical(ty, reg))) == Physical(ty, reg)
  {
  }

  lemma SlotTrip(global: bool, ty: VType, offs: bv16)
    ensures Unpack(Pack(StateSlot(global, ty, offs))) == StateSlot(global, ty, offs)
  {
  }

  /** Every operand is read back as it was made. */
  lemma UnpackPack(o: Unpacked)
    ensures Unpack(Pack(o)) == o
  {
    match o
    case Constant(ty, val) => ConstTrip(ty, val);
    case Virtual(ty, reg) => VirtualTrip(ty, reg);
    case Physical(ty, reg) => PhysicalTrip(ty, reg);
    case StateSlot(global, ty, offs) => SlotTrip(global, ty, offs);
    case Bad =>
  }
}
