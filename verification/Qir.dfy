/** QuickIR: operands, instructions and blocks of `dbt/qmc/qir.h`, and what running them means. */
module Qir {

  import opened Common

  // ---------- Values ----------

  type Byte = bv8

  /** A 32-bit value as its little-endian bytes. */
  datatype Word = Word(b0: Byte, b1: Byte, b2: Byte, b3: Byte)

  const ZERO := Word(0, 0, 0, 0)
  const ONE := Word(1, 0, 0, 0)

  datatype VType = I8 | I16 | I32

  datatype VSign = U | S

  function Size(t: VType): (n: nat)
    ensures n == 1 || n == 2 || n == 4
  {
    match t
    case I8 => 1
    case I16 => 2
    case I32 => 4
  }

  /** The part of a value that an operand of type `t` shows. */
  function Trunc(t: VType, w: Word): Word {
    match t
    case I8 => Word(w.b0, 0, 0, 0)
    case I16 => Word(w.b0, w.b1, 0, 0)
    case I32 => w
  }

  // ---------- Instructions ----------

  datatype CondCode = EQ | NE | LE | LT | GE | GT | LEU | LTU | GEU | GTU

  datatype BinaryOp = Add | Sub | And | Or | Xor | Sra | Srl | Sll

  datatype Operand =
    | Const(ty: VType, val: Word)
    | VGPR(ty: VType, v: nat)
    | PGPR(ty: VType, p: nat)
    | Slot(global: bool, ty: VType, offs: nat)

  datatype Op =
    | Hcall(stub: nat)
    | Br
    | Brcc(cc: CondCode)
    | GBr(tpc: Word)
    | GBrind
    | VMLoad(sz: VType, sgn: VSign)
    | VMStore(sz: VType)
    | Setcc(cc: CondCode)
    | Mov
    | Binop(bop: BinaryOp)
  {
    function OutputCount(): (n: nat)
      ensures n <= 1
    {
      if VMLoad? || Setcc? || Mov? || Binop? then 1 else 0
    }

    function InputCount(): (n: nat)
      ensures n <= 2
    {
      if Brcc? || VMStore? || Setcc? || Binop? then 2 else if Br? || GBr? then 0 else 1
    }

    /** The SIDEEFF flag. */
    predicate HasSideEffect() {
      Hcall? || VMLoad? || VMStore?
    }

    predicate IsTerminator() {
      Br? || Brcc? || GBr? || GBrind?
    }
  }

  datatype Inst = Inst(op: Op, o: seq<Operand>, i: seq<Operand>)

  function MakeMov(dst: Operand, src: Operand): Inst {
    Inst(Mov, [dst], [src])
  }

  datatype Block = Block(code: seq<Inst>, succs: seq<nat>)

  // ---------- Virtual registers ----------

  datatype StateReg = StateReg(offs: nat, ty: VType)

  /** Globals come first and live in `CPUState`; locals are temporaries of the region. */
  datatype VRegsInfo = VRegsInfo(globals: seq<StateReg>, locals: seq<VType>) {

    function NumAll(): nat {
      |globals| + |locals|
    }

    predicate IsGlobal(v: nat) {
      v < |globals|
    }

    function TypeOf(v: nat): VType
      requires v < NumAll()
    {
      if v < |globals| then globals[v].ty else locals[v - |globals|]
    }

    function AddLocal(t: VType): VRegsInfo {
      VRegsInfo(globals, locals + [t])
    }
  }

  /** The global that a state slot belongs to. */
  function GlobalAt(gs: seq<StateReg>, offs: nat): (r: Option<nat>)
    ensures r.Some? ==> r.value < |gs| && gs[r.value].offs == offs
  {
    if gs == [] then None
    else if gs[|gs| - 1].offs == offs then Some(|gs| - 1)
    else GlobalAt(gs[..|gs| - 1], offs)
  }

  // ---------- Meaning ----------

  /** Bytes of guest memory that are mapped. */
  type Mem = map<nat, Byte>

  datatype Exit = Branch(target: Word) | Faulted | Raised(code: Word)

  datatype HelperResult = Returned(globals: seq<Word>, mem: Mem) | Stopped(exit: Exit, globals: seq<Word>, mem: Mem)

  /** What the operators, guest memory and runtime helpers do; code generation relies on none of it. */
  datatype Semantics = Semantics(
    alu: (BinaryOp, Word, Word) -> Word,
    holds: (CondCode, Word, Word) -> bool,
    load: (Mem, VType, VSign, Word) -> Option<Word>,
    store: (Mem, VType, Word, Word) -> Option<Mem>,
    helper: (nat, Word, seq<Word>, Mem) -> HelperResult)

  datatype Action =
    | Write(val: Word)
    | SetMem(mem: Mem)
    | Jump(k: nat)
    | Stop(exit: Exit)
    | Call(stub: nat, arg: Word)

  /** What an instruction does once its inputs have been read. */
  function Act(sem: Semantics, op: Op, a: seq<Word>, mem: Mem): Action
    requires |a| == op.InputCount()
  {
    match op
    case Hcall(stub) => Call(stub, a[0])
    case Br => Jump(0)
    case Brcc(cc) => Jump(if sem.holds(cc, a[0], a[1]) then 0 else 1)
    case GBr(tpc) => Stop(Branch(tpc))
    case GBrind => Stop(Branch(a[0]))
    case VMLoad(sz, sgn) =>
      var r := sem.load(mem, sz, sgn, a[0]);
      if r.Some? then Write(r.value) else Stop(Faulted)
    case VMStore(sz) =>
      var r := sem.store(mem, sz, a[0], a[1]);
      if r.Some? then SetMem(r.value) else Stop(Faulted)
    case Setcc(cc) => Write(if sem.holds(cc, a[0], a[1]) then ONE else ZERO)
    case Mov => Write(a[0])
    case Binop(bop) => Write(sem.alu(bop, a[0], a[1]))
  }

  datatype QState = QState(vregs: seq<Word>, mem: Mem)

  datatype Result<S> = Next(s: S) | Goto(k: nat, s: S) | Leave(exit: Exit, s: S)

  function QRead(q: QState, opr: Operand): Word {
    match opr
    case Const(ty, val) => Trunc(ty, val)
    case VGPR(ty, v) => if v < |q.vregs| then Trunc(ty, q.vregs[v]) else ZERO
    case _ => ZERO
  }

  function QReads(q: QState, oprs: seq<Operand>): (a: seq<Word>)
    ensures |a| == |oprs| && forall k | 0 <= k < |a| :: a[k] == QRead(q, oprs[k])
  {
    seq(|oprs|, k requires 0 <= k < |oprs| => QRead(q, oprs[k]))
  }

  function QSet(q: QState, v: nat, val: Word): QState {
    if v < |q.vregs| then q.(vregs := q.vregs[v := val]) else q
  }

  /** Writes a virtual register, or the global whose state slot is named directly. */
  function QWrite(gs: seq<StateReg>, q: QState, opr: Operand, val: Word): QState {
    match opr
    case VGPR(ty, v) => QSet(q, v, Trunc(ty, val))
    case Slot(global, ty, offs) =>
      var g := GlobalAt(gs, offs);
      if global && g.Some? then QSet(q, g.value, Trunc(ty, val)) else q
    case _ => q
  }

  function QGlobals(gs: seq<StateReg>, q: QState): seq<Word> {
    if |gs| <= |q.vregs| then q.vregs[..|gs|] else q.vregs
  }

  /** A helper works on the guest state in memory; it keeps the number and the width of the globals. */
  function Fit(gs: seq<StateReg>, globals: seq<Word>): (s: seq<Word>)
    ensures |s| == |gs|
    ensures forall g | 0 <= g < |s| :: s[g] == Trunc(gs[g].ty, if g < |globals| then globals[g] else ZERO)
  {
    seq(|gs|, g requires 0 <= g < |gs| => Trunc(gs[g].ty, if g < |globals| then globals[g] else ZERO))
  }

  function QWithGlobals(gs: seq<StateReg>, q: QState, globals: seq<Word>, mem: Mem): QState {
    if |gs| <= |q.vregs| then QState(Fit(gs, globals) + q.vregs[|gs|..], mem) else QState(q.vregs, mem)
  }

  /** Operand lists have the lengths that the opcode asks for. */
  predicate Shaped(ins: Inst) {
    |ins.i| == ins.op.InputCount() && |ins.o| == ins.op.OutputCount()
  }

  predicate AllShaped(code: seq<Inst>) {
    forall k | 0 <= k < |code| :: Shaped(code[k])
  }

  predicate RegionShaped(blocks: seq<Block>) {
    forall b | 0 <= b < |blocks| :: AllShaped(blocks[b].code)
  }

  /** One instruction on virtual registers. */
  function QStep(gs: seq<StateReg>, sem: Semantics, ins: Inst, q: QState): Result<QState>
    requires Shaped(ins)
  {
    match Act(sem, ins.op, QReads(q, ins.i), q.mem)
    case Write(val) => if |ins.o| == 1 then Next(QWrite(gs, q, ins.o[0], val)) else Next(q)
    case SetMem(mem) => Next(q.(mem := mem))
    case Jump(k) => Goto(k, q)
    case Stop(exit) => Leave(exit, q)
    case Call(stub, arg) =>
      match sem.helper(stub, arg, QGlobals(gs, q), q.mem)
      case Returned(globals, mem) => Next(QWithGlobals(gs, q, globals, mem))
      case Stopped(exit, globals, mem) => Leave(exit, QWithGlobals(gs, q, globals, mem))
  }

  /** The result of a straight-line list; running off its end leaves it as `Next`. */
  function QRun(gs: seq<StateReg>, sem: Semantics, code: seq<Inst>, q: QState): Result<QState>
    requires AllShaped(code)
  {
    if code == [] then Next(q)
    else
      var r := QStep(gs, sem, code[0], q);
      if r.Next? then QRun(gs, sem, code[1..], r.s) else r
  }

  datatype RunResult<S> = Running(b: nat, s: S) | Exited(exit: Exit, s: S) | Wild

  /** Runs up to `n` blocks of a region; control that leaves the region's blocks is `Wild`. */
  function QRunRegion(gs: seq<StateReg>, sem: Semantics, blocks: seq<Block>, n: nat, b: nat, q: QState): RunResult<QState>
    requires RegionShaped(blocks)
  {
    if n == 0 then Running(b, q)
    else if b >= |blocks| then Wild
    else
      match QRun(gs, sem, blocks[b].code, q)
      case Next(_) => Wild
      case Goto(k, q') => if k < |blocks[b].succs| then QRunRegion(gs, sem, blocks, n - 1, blocks[b].succs[k], q') else Wild
      case Leave(exit, q') => Exited(exit, q')
  }

  lemma {:induction false} QRunConcat(gs: seq<StateReg>, sem: Semantics, c1: seq<Inst>, c2: seq<Inst>, q: QState)
    requires (forall k | 0 <= k < |c1| :: Shaped(c1[k])) && (forall k | 0 <= k < |c2| :: Shaped(c2[k]))
    ensures forall k | 0 <= k < |c1 + c2| :: Shaped((c1 + c2)[k])
    ensures QRun(gs, sem, c1 + c2, q) ==
            var r := QRun(gs, sem, c1, q); if r.Next? then QRun(gs, sem, c2, r.s) else r
  {
    if c1 == [] {
      assert c1 + c2 == c2;
    } else {
      assert (c1 + c2)[1..] == c1[1..] + c2;
      var r := QStep(gs, sem, c1[0], q);
      if r.Next? {
        QRunConcat(gs, sem, c1[1..], c2, r.s);
      }
    }
  }

  // ---------- Well-formed code ----------

  predicate Readable(info: VRegsInfo, slots: set<nat>, defined: set<nat>, opr: Operand) {
    || opr.Const?
    || (opr.VGPR? && opr.v < info.NumAll() && opr.v !in slots && Size(opr.ty) <= Size(info.TypeOf(opr.v)) &&
        (info.IsGlobal(opr.v) || opr.v in defined))
  }

  predicate Writable(info: VRegsInfo, slots: set<nat>, op: Op, opr: Operand) {
    || (opr.VGPR? && opr.v < info.NumAll() && opr.v !in slots && opr.ty == info.TypeOf(opr.v))
    || (op.Mov? && opr.Slot? && opr.global && GlobalAt(info.globals, opr.offs).Some? &&
        var g := GlobalAt(info.globals, opr.offs).value; g in slots && opr.ty == info.globals[g].ty)
  }

  /** The types that the builder gives to operands. */
  predicate WellTyped(ins: Inst)
    requires Shaped(ins)
  {
    match ins.op
    case Hcall(_) => ins.i[0].Const?
    case Br => true
    case GBr(_) => true
    case VMStore(sz) => ins.i[0].ty == I32 && ins.i[1].ty == sz
    case Mov => ins.o[0].ty == ins.i[0].ty
    case _ => (forall k | 0 <= k < |ins.i| :: ins.i[k].ty == I32) && (forall k | 0 <= k < |ins.o| :: ins.o[k].ty == I32)
  }

  /** `slots` are the globals that the code reaches through their state slots only; `defined` are the
      locals that have a value at this point of the block. */
  predicate WellFormed(info: VRegsInfo, slots: set<nat>, defined: set<nat>, ins: Inst) {
    && Shaped(ins) && WellTyped(ins)
    && (forall k | 0 <= k < |ins.i| :: Readable(info, slots, defined, ins.i[k]))
    && (forall k | 0 <= k < |ins.o| :: Writable(info, slots, ins.op, ins.o[k]))
  }

  /** The locals with a value after an instruction. */
  function Defines(info: VRegsInfo, defined: set<nat>, ins: Inst): set<nat> {
    if |ins.o| == 1 && ins.o[0].VGPR? && !info.IsGlobal(ins.o[0].v) then defined + {ins.o[0].v} else defined
  }

  /** Locals are defined before they are used, and only the last instruction transfers control. */
  predicate WellFormedCode(info: VRegsInfo, slots: set<nat>, defined: set<nat>, code: seq<Inst>)
    decreases |code|
  {
    code != [] ==>
      && WellFormed(info, slots, defined, code[0])
      && (code[0].op.IsTerminator() ==> |code| == 1)
      && WellFormedCode(info, slots, Defines(info, defined, code[0]), code[1..])
  }

  lemma {:induction false} WellFormedIsShaped(info: VRegsInfo, slots: set<nat>, defined: set<nat>, code: seq<Inst>)
    requires WellFormedCode(info, slots, defined, code)
    ensures forall k | 0 <= k < |code| :: Shaped(code[k])
    decreases |code|
  {
    if code != [] {
      WellFormedIsShaped(info, slots, Defines(info, defined, code[0]), code[1..]);
      assert forall k | 0 < k < |code| :: code[k] == code[1..][k - 1];
    }
  }

  /** Blocks end by transferring control or in a runtime helper. */
  predicate WellFormedBlock(info: VRegsInfo, slots: set<nat>, block: Block) {
    && block.code != [] && WellFormedCode(info, slots, {}, block.code)
    && var last := block.code[|block.code| - 1].op; last.IsTerminator() || last.Hcall?
  }
}
