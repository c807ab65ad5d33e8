/** The amd64 register file and the operand constraints of `dbt/qmc/qcg/arch_traits.{h,cpp}`. */
module ArchTraits {
  import opened Common
  import opened Qir

  const GPR_NUM: nat := 16

  const RAX: nat := 0
  const RCX: nat := 1
  const RDX: nat := 2
  const RSP: nat := 4
  const RBP: nat := 5
  const RSI: nat := 6
  const RDI: nat := 7
  const R13: nat := 13

  const GPR_ALL: set<nat> := {0, 1, 2, 3, 4, 5, 6, 7, 8, 9, 10, 11, 12, 13, 14, 15}

  /** State, memory base and stack pointer are never allocated. */
  const GPR_FIXED: set<nat> := {R13, RBP, RSP}

  const GPR_CALL_CLOBBER: set<nat> := {RAX, RDI, RSI, RDX, RCX, 8, 9, 10, 11}

  const SPILLFRAME_SIZE: nat := 1024

  datatype Imm = NoImm | Any | S32 | U32

  /** Constraint on one operand: registers, immediates and the operand it must share a register with. */
  datatype OpCt = OpCt(cr: set<nat>, ci: Imm, alias: Option<nat>)

  datatype InstCt = InstCt(outs: seq<OpCt>, ins: seq<OpCt>, order: seq<nat>)

  /** A constraint as it is written down, or a reference to an output. */
  datatype CtDef = Def(cr: set<nat>, ci: Imm) | Alias(out: nat)

  function Resolve(outs: seq<CtDef>, d: CtDef): OpCt {
    if d.Def? then OpCt(d.cr, d.ci, None)
    else if d.out < |outs| && outs[d.out].Def? then OpCt(outs[d.out].cr, outs[d.out].ci, Some(d.out))
    else OpCt({}, NoImm, None)
  }

  /** `InstCt::Make`: aliases copy the constraint of their output and are recorded on both sides, and
      inputs are ordered by the number of registers that they allow. */
  function MakeCt(outs: seq<CtDef>, ins: seq<CtDef>): InstCt
    requires |ins| <= 2
  {
    var cts := seq(|ins|, k requires 0 <= k < |ins| => Resolve(outs, ins[k]));
    InstCt(
      seq(|outs|, k requires 0 <= k < |outs| => Resolve(outs, outs[k]).(alias := AliasOf(ins, k))),
      cts,
      if |ins| == 2 && |cts[1].cr| < |cts[0].cr| then [1, 0] else if |ins| == 2 then [0, 1] else if |ins| == 1 then [0] else [])
  }

  /** The input that shares a register with output `out`. */
  function AliasOf(ins: seq<CtDef>, out: nat): Option<nat>
    requires |ins| <= 2
  {
    if |ins| > 0 && ins[0] == Alias(out) then Some(0)
    else if |ins| > 1 && ins[1] == Alias(out) then Some(1)
    else None
  }

  const R: CtDef := Def(GPR_ALL, NoImm)

  /** ARCH_OP_CT_LIST. */
  function Constraints(op: Op): InstCt {
    match op
    case Brcc(_) => MakeCt([], [R, Def(GPR_ALL, S32)])
    case GBrind => MakeCt([], [Def({RSI}, NoImm)])
    case VMLoad(_, _) => MakeCt([R], [Def(GPR_ALL, U32)])
    case VMStore(_) => MakeCt([], [Def(GPR_ALL, Any), R])
    case Setcc(_) => MakeCt([R], [R, Def(GPR_ALL, S32)])
    case Mov => MakeCt([R], [Def(GPR_ALL, Any)])
    case Binop(bop) =>
      if bop == And then MakeCt([R], [Alias(0), Def(GPR_ALL, U32)])
      else if bop == Sra || bop == Srl || bop == Sll then MakeCt([R], [Alias(0), Def({RCX}, Any)])
      else MakeCt([R], [Alias(0), Def(GPR_ALL, S32)])
    case _ => MakeCt([], [])
  }

  /** `match_gp_const`; constants are zero-extended to 64 bits before the test. */
  predicate MatchConst(val: Word, ci: Imm) {
    ci == Any || ci == U32 || (ci == S32 && val.b3 & 0x80 == 0)
  }

  /** Input `k` of the opcode can hold the constant. */
  predicate Encodes(op: Op, k: nat, val: Word) {
    match op
    case Brcc(_) => k == 1 && MatchConst(val, S32)
    case GBrind => false
    case VMLoad(_, _) => MatchConst(val, U32)
    case VMStore(_) => k == 0
    case Setcc(_) => k == 1 && MatchConst(val, S32)
    case Mov => true
    case Binop(bop) => k == 1 && (if bop == And then MatchConst(val, U32) else IsShift(op) || MatchConst(val, S32))
    case _ => false
  }

  /** Opcodes whose operands are selected and allocated; the others have no register operands. */
  predicate HasOperands(op: Op) {
    !op.Hcall? && !op.Br? && !op.GBr?
  }

  predicate IsShift(op: Op) {
    op.Binop? && (op.bop == Sra || op.bop == Srl || op.bop == Sll)
  }

  /** The facts about the table that selection and allocation depend on: only binary operations alias
      an input, always the first with the only output, and an input that is tied to one register is
      handled before the other one. */
  ghost predicate TableOk(op: Op) {
    var ct := Constraints(op);
    && |ct.outs| == op.OutputCount() && |ct.ins| == |ct.order| == op.InputCount()
    && (op.OutputCount() == 1 ==> ct.outs[0] == OpCt(GPR_ALL, NoImm, if op.Binop? then Some(0) else None))
    && (forall k | 0 <= k < |ct.ins| :: ct.ins[k].alias == if op.Binop? && k == 0 then Some(0) else None)
    && (forall k | 0 <= k < |ct.ins| ::
          ct.ins[k].cr == if op.GBrind? then {RSI} else if IsShift(op) && k == 1 then {RCX} else GPR_ALL)
    && (forall k, val | 0 <= k < |ct.ins| && ct.ins[k].alias.None? ::
          Encodes(op, k, val) <==> ct.ins[k].ci != NoImm && MatchConst(val, ct.ins[k].ci))
    && (|ct.ins| == 1 ==> ct.order == [0])
    && (|ct.ins| == 2 ==> ct.order == if IsShift(op) then [1, 0] else [0, 1])
  }

  /** A table entry with a tied pair of operands. */
  lemma MadeBinary(pool: set<nat>, c: set<nat>, ci: Imm)
    ensures MakeCt([Def(pool, NoImm)], [Alias(0), Def(c, ci)]) ==
            InstCt([OpCt(pool, NoImm, Some(0))], [OpCt(pool, NoImm, Some(0)), OpCt(c, ci, None)], if |c| < |pool| then [1, 0] else [0, 1])
  {
  }

  /** Table entries without aliases; `outs` has no more than one output. */
  lemma MadePlain(pool: set<nat>, outs: seq<CtDef>, ci0: Imm, ci1: Imm, c: set<nat>)
    requires outs == [] || outs == [Def(pool, NoImm)]
    ensures var made := if outs == [] then [] else [OpCt(pool, NoImm, None)];
            && MakeCt(outs, [Def(pool, ci0), Def(pool, ci1)]) == InstCt(made, [OpCt(pool, ci0, None), OpCt(pool, ci1, None)], [0, 1])
            && MakeCt(outs, [Def(c, ci0)]) == InstCt(made, [OpCt(c, ci0, None)], [0])
  {
  }

  /** The pool has more registers than a fixed-register constraint. */
  lemma PoolIsLarger()
    ensures var one: set<nat> := {RCX}; |one| == 1 && |one| < |GPR_ALL|
  {
    var two: set<nat> := {0, 1};
    assert GPR_ALL == two + (GPR_ALL - two);
    assert |two| == 2;
  }

  /** What a table entry says, compared with what the predicates on opcodes say. */
  lemma EntryOk(op: Op, ct: InstCt, pool: set<nat>)
    requires ct == Constraints(op) && pool == GPR_ALL && HasOperands(op)
    requires ct.outs == if op.OutputCount() == 0 then [] else [OpCt(pool, NoImm, if op.Binop? then Some(0) else None)]
    requires |ct.ins| == op.InputCount() && forall k | 0 <= k < |ct.ins| ::
      && ct.ins[k].alias == (if op.Binop? && k == 0 then Some(0) else None)
      && ct.ins[k].cr == if op.GBrind? then {RSI} else if IsShift(op) && k == 1 then {RCX} else pool
    requires ct.order == if |ct.ins| == 1 then [0] else if IsShift(op) then [1, 0] else [0, 1]
    requires forall k, val | 0 <= k < |ct.ins| && ct.ins[k].alias.None? ::
      Encodes(op, k, val) <==> ct.ins[k].ci != NoImm && MatchConst(val, ct.ins[k].ci)
    ensures TableOk(op)
  {
  }

  lemma ShiftTable(op: Op)
    requires IsShift(op)
    ensures TableOk(op)
  {
    PoolIsLarger();
    MadeBinary(GPR_ALL, {RCX}, Any);
    EntryOk(op, Constraints(op), GPR_ALL);
  }

  lemma BinaryTable(op: Op)
    requires op.Binop? && !IsShift(op)
    ensures TableOk(op)
  {
    MadeBinary(GPR_ALL, GPR_ALL, if op.bop == And then U32 else S32);
    EntryOk(op, Constraints(op), GPR_ALL);
  }

  lemma TwoInputTable(op: Op)
    requires op.Brcc? || op.Setcc? || op.VMStore?
    ensures TableOk(op)
  {
    if op.VMStore? {
      MadePlain(GPR_ALL, [], Any, NoImm, {RSI});
    } else {
      MadePlain(GPR_ALL, if op.Brcc? then [] else [R], NoImm, S32, {RSI});
    }
    EntryOk(op, Constraints(op), GPR_ALL);
  }

  lemma OneInputTable(op: Op)
    requires op.GBrind? || op.VMLoad? || op.Mov?
    ensures TableOk(op)
  {
    if op.GBrind? {
      MadePlain(GPR_ALL, [], NoImm, NoImm, {RSI});
    } else {
      MadePlain(GPR_ALL, [R], if op.Mov? then Any else U32, NoImm, GPR_ALL);
    }
    EntryOk(op, Constraints(op), GPR_ALL);
  }

  lemma ConstraintFacts(op: Op)
    requires HasOperands(op)
    ensures TableOk(op)
  {
    if IsShift(op) {
      ShiftTable(op);
    } else if op.Binop? {
      BinaryTable(op);
    } else if op.Brcc? || op.Setcc? || op.VMStore? {
      TwoInputTable(op);
    } else {
      OneInputTable(op);
    }
  }
}
