/** Operand selection, `dbt/qmc/qcg/qsel.cpp`: moves inserted before an instruction make its aliased
    input the output register and leave only constants that the instruction can encode. */
module QSel {
  import opened Common
  import opened Qir
  import opened ArchTraits

  /** The moves emitted so far and the instruction that they precede. */
  datatype Selection = Selection(info: VRegsInfo, pre: seq<Inst>, ins: Inst)

  predicate IsRegMov(m: Inst) {
    m.op.Mov? && |m.o| == 1 && |m.i| == 1 && m.o[0].VGPR? && (m.i[0].VGPR? || m.i[0].Const?)
  }

  predicate AllRegMovs(pre: seq<Inst>) {
    forall k | 0 <= k < |pre| :: IsRegMov(pre[k])
  }

  /** The state after a list of register moves. */
  function AfterMovs(q: QState, pre: seq<Inst>): (q': QState)
    requires AllRegMovs(pre)
    ensures q'.mem == q.mem && |q'.vregs| == |q.vregs|
    decreases |pre|
  {
    if pre == [] then q
    else AfterMovs(QSet(q, pre[0].o[0].v, Trunc(pre[0].o[0].ty, QRead(q, pre[0].i[0]))), pre[1..])
  }

  lemma {:induction false} AfterMovsAppend(q: QState, pre: seq<Inst>, m: Inst)
    requires AllRegMovs(pre) && IsRegMov(m)
    ensures AllRegMovs(pre + [m])
    ensures AfterMovs(q, pre + [m]) ==
            var q' := AfterMovs(q, pre); QSet(q', m.o[0].v, Trunc(m.o[0].ty, QRead(q', m.i[0])))
    decreases |pre|
  {
    if pre == [] {
      assert pre + [m] == [m];
      assert [m][1..] == [];
    } else {
      assert (pre + [m])[1..] == pre[1..] + [m];
      AfterMovsAppend(QSet(q, pre[0].o[0].v, Trunc(pre[0].o[0].ty, QRead(q, pre[0].i[0]))), pre[1..], m);
    }
  }

  lemma {:induction false} MovsRun(gs: seq<StateReg>, sem: Semantics, pre: seq<Inst>, q: QState)
    requires AllRegMovs(pre)
    ensures (forall k | 0 <= k < |pre| :: Shaped(pre[k])) && QRun(gs, sem, pre, q) == Next(AfterMovs(q, pre))
  {
    if pre != [] {
      var q' := QSet(q, pre[0].o[0].v, Trunc(pre[0].o[0].ty, QRead(q, pre[0].i[0])));
      assert QStep(gs, sem, pre[0], q) == Next(q');
      MovsRun(gs, sem, pre[1..], q');
    }
  }

  /** The register that the instruction overwrites in any case. */
  predicate Overwrites(ins: Inst, v: nat) {
    ins.op.Binop? && |ins.o| == 1 && ins.o[0].VGPR? && ins.o[0].v == v
  }

  /** The moves keep every register of the region except one that is overwritten anyway, and the
      inputs have the values that the original inputs had. */
  ghost predicate FaithfulOn(n: nat, ins: Inst, s: Selection, q: QState)
    requires AllRegMovs(s.pre)
  {
    var q' := AfterMovs(q, s.pre);
    && (forall v: nat | v < n && v < |q.vregs| && !Overwrites(ins, v) :: q'.vregs[v] == q.vregs[v])
    && |s.ins.i| == |ins.i| && forall k | 0 <= k < |ins.i| :: QRead(q', s.ins.i[k]) == QRead(q, ins.i[k])
  }

  ghost predicate Faithful(info: VRegsInfo, ins: Inst, s: Selection) {
    && s.info.globals == info.globals && info.NumAll() <= s.info.NumAll()
    && s.ins.op == ins.op && s.ins.o == ins.o && |s.ins.i| == |ins.i| && AllRegMovs(s.pre)
    && (forall v | 0 <= v < info.NumAll() :: s.info.TypeOf(v) == info.TypeOf(v))
    && forall q: QState {:trigger FaithfulOn(info.NumAll(), ins, s, q)} | s.info.NumAll() <= |q.vregs| ::
         FaithfulOn(info.NumAll(), ins, s, q)
  }

  /** The locals with a value after a list of instructions. */
  function DefinesAll(info: VRegsInfo, defined: set<nat>, code: seq<Inst>): (d: set<nat>)
    ensures defined <= d
    decreases |code|
  {
    if code == [] then defined else DefinesAll(info, Defines(info, defined, code[0]), code[1..])
  }

  /** Moves and instruction are well-formed when the locals in `defined` have a value before them. */
  ghost predicate Sound(slots: set<nat>, defined: set<nat>, s: Selection) {
    && (forall g | g in slots :: s.info.IsGlobal(g))
    && AllRegMovs(s.pre) && WellFormedCode(s.info, slots, defined, s.pre)
    && WellFormed(s.info, slots, DefinesAll(s.info, defined, s.pre), s.ins)
  }

  lemma {:induction false} WellFormedAppend(info: VRegsInfo, slots: set<nat>, defined: set<nat>, pre: seq<Inst>, m: Inst)
    requires AllRegMovs(pre) && WellFormedCode(info, slots, defined, pre)
    requires WellFormed(info, slots, DefinesAll(info, defined, pre), m)
    ensures WellFormedCode(info, slots, defined, pre + [m])
    ensures DefinesAll(info, defined, pre + [m]) == Defines(info, DefinesAll(info, defined, pre), m)
    decreases |pre|
  {
    if pre == [] {
      assert pre + [m] == [m] && [m][1..] == [];
    } else {
      assert (pre + [m])[1..] == pre[1..] + [m];
      WellFormedAppend(info, slots, Defines(info, defined, pre[0]), pre[1..], m);
    }
  }

  /** More locals do no harm. */
  ghost predicate Extends(info: VRegsInfo, info': VRegsInfo) {
    && info'.globals == info.globals && info.NumAll() <= info'.NumAll()
    && (forall v | 0 <= v < info.NumAll() :: info'.TypeOf(v) == info.TypeOf(v))
  }

  lemma {:induction false} WellFormedExtends(info: VRegsInfo, info': VRegsInfo, slots: set<nat>, defined: set<nat>, defined': set<nat>, code: seq<Inst>)
    requires Extends(info, info') && defined <= defined' && WellFormedCode(info, slots, defined, code)
    ensures WellFormedCode(info', slots, defined', code)
    ensures DefinesAll(info, defined, code) <= DefinesAll(info', defined', code)
    decreases |code|
  {
    if code != [] {
      WellFormedExtends(info, info', slots, Defines(info, defined, code[0]), Defines(info', defined', code[0]), code[1..]);
    }
  }

  /** Appends a move and continues with other inputs. */
  function Insert(s: Selection, m: Inst, i: seq<Operand>): Selection {
    Selection(s.info, s.pre + [m], s.ins.(i := i))
  }

  /** Replaces the uses of register `v` in all inputs but one. */
  function ReplaceUses(i: seq<Operand>, keep: nat, v: nat, copy: Operand): (i': seq<Operand>)
    ensures |i'| == |i| && forall k | 0 <= k < |i| :: i'[k] == if k != keep && i[k].VGPR? && i[k].v == v then copy else i[k]
  {
    seq(|i|, k requires 0 <= k < |i| => if k != keep && i[k].VGPR? && i[k].v == v then copy else i[k])
  }

  lemma TruncTwice(t: VType, w: Word)
    ensures Trunc(t, Trunc(t, w)) == Trunc(t, w)
  {
  }

  predicate Below(n: nat, opr: Operand) {
    opr.Const? || (opr.VGPR? && opr.v < n)
  }

  lemma ReadOther(q: QState, v: nat, val: Word, opr: Operand)
    requires opr.VGPR? ==> opr.v != v
    ensures QRead(QSet(q, v, val), opr) == QRead(q, opr)
  {
  }

  lemma ReadBack(q: QState, d: Operand, src: Operand)
    requires d.VGPR? && d.v < |q.vregs| && d.ty == src.ty && (src.Const? || (src.VGPR? && src.v < |q.vregs|))
    ensures QRead(QSet(q, d.v, Trunc(d.ty, QRead(q, src))), d) == QRead(q, src)
  {
    TruncTwice(d.ty, if src.Const? then src.val else q.vregs[src.v]);
    TruncTwice(d.ty, QRead(q, src));
  }

  /** One more move, seen from a single state: if the inputs still show what they showed before it,
      the longer selection is faithful too. */
  lemma InsertOn(n: nat, ins: Inst, s: Selection, m: Inst, i: seq<Operand>, q: QState)
    requires AllRegMovs(s.pre) && FaithfulOn(n, ins, s, q) && IsRegMov(m) && |i| == |s.ins.i|
    requires n <= m.o[0].v || Overwrites(ins, m.o[0].v)
    requires m.o[0].v < |q.vregs| && m.o[0].ty == m.i[0].ty && Below(|q.vregs|, m.i[0])
    requires forall k | 0 <= k < |i| ::
               (i[k] == s.ins.i[k] && !(i[k].VGPR? && i[k].v == m.o[0].v)) || (i[k] == m.o[0] && s.ins.i[k] == m.i[0])
    ensures AllRegMovs(Insert(s, m, i).pre) && FaithfulOn(n, ins, Insert(s, m, i), q)
  {
    AfterMovsAppend(q, s.pre, m);
    var q' := AfterMovs(q, s.pre);
    var val := Trunc(m.o[0].ty, QRead(q', m.i[0]));
    forall k | 0 <= k < |i|
      ensures QRead(QSet(q', m.o[0].v, val), i[k]) == QRead(q', s.ins.i[k])
    {
      if i[k] == s.ins.i[k] && !(i[k].VGPR? && i[k].v == m.o[0].v) {
        ReadOther(q', m.o[0].v, val, i[k]);
      } else {
        ReadBack(q', m.o[0], m.i[0]);
      }
    }
  }

  lemma FreshIsFaithful(info: VRegsInfo, ins: Inst, s: Selection, src: Operand, i: seq<Operand>)
    requires Faithful(info, ins, s) && |i| == |s.ins.i| && Below(s.info.NumAll(), src)
    requires forall k | 0 <= k < |i| :: Below(s.info.NumAll(), s.ins.i[k])
    requires forall k | 0 <= k < |i| :: i[k] == s.ins.i[k] || (i[k] == VGPR(src.ty, s.info.NumAll()) && s.ins.i[k] == src)
    ensures Faithful(info, ins, Insert(s.(info := s.info.AddLocal(src.ty)), MakeMov(VGPR(src.ty, s.info.NumAll()), src), i))
  {
    var m, s1 := MakeMov(VGPR(src.ty, s.info.NumAll()), src), s.(info := s.info.AddLocal(src.ty));
    forall q: QState | s1.info.NumAll() <= |q.vregs|
      ensures FaithfulOn(info.NumAll(), ins, Insert(s1, m, i), q)
    {
      assert FaithfulOn(info.NumAll(), ins, s, q);
      InsertOn(info.NumAll(), ins, s1, m, i, q);
    }
  }

  lemma FreshIsSound(slots: set<nat>, defined: set<nat>, s: Selection, src: Operand, i: seq<Operand>)
    requires Sound(slots, defined, s) && |i| == |s.ins.i| && !s.ins.op.Hcall?
    requires Readable(s.info, slots, DefinesAll(s.info, defined, s.pre), src)
    requires forall k | 0 <= k < |i| :: i[k] == s.ins.i[k] || (i[k] == VGPR(src.ty, s.info.NumAll()) && s.ins.i[k] == src)
    ensures Sound(slots, defined, Insert(s.(info := s.info.AddLocal(src.ty)), MakeMov(VGPR(src.ty, s.info.NumAll()), src), i))
  {
    var wide := s.info.AddLocal(src.ty);
    var m := MakeMov(VGPR(src.ty, s.info.NumAll()), src);
    assert Extends(s.info, wide);
    WellFormedExtends(s.info, wide, slots, defined, defined, s.pre);
    var d := DefinesAll(wide, defined, s.pre);
    assert WellFormed(wide, slots, d, s.ins) && WellFormed(wide, slots, d, m);
    WellFormedAppend(wide, slots, defined, s.pre, m);
    FreshIsWellFormed(wide, slots, d, s.ins, m, i);
  }

  lemma FreshIsWellFormed(info: VRegsInfo, slots: set<nat>, defined: set<nat>, ins: Inst, m: Inst, i: seq<Operand>)
    requires WellFormed(info, slots, defined, ins) && IsRegMov(m) && WellFormed(info, slots, defined, m) && !ins.op.Hcall?
    requires |i| == |ins.i| && forall k | 0 <= k < |i| :: i[k] == ins.i[k] || (i[k] == m.o[0] && ins.i[k] == m.i[0])
    ensures WellFormed(info, slots, Defines(info, defined, m), ins.(i := i))
  {
  }

  /** Moving an input into the output register, when no other input reads that register. */
  lemma MoveIsFaithful(info: VRegsInfo, ins: Inst, s: Selection, m: Inst, i: seq<Operand>)
    requires Faithful(info, ins, s) && |i| == |s.ins.i| && IsRegMov(m) && m.o[0].ty == m.i[0].ty
    requires Below(s.info.NumAll(), m.i[0]) && Below(s.info.NumAll(), m.o[0]) && Overwrites(ins, m.o[0].v)
    requires forall k | 0 <= k < |i| ::
               (i[k] == s.ins.i[k] && !(i[k].VGPR? && i[k].v == m.o[0].v)) || (i[k] == m.o[0] && s.ins.i[k] == m.i[0])
    ensures Faithful(info, ins, Insert(s, m, i))
  {
    forall q: QState | s.info.NumAll() <= |q.vregs|
      ensures AllRegMovs(Insert(s, m, i).pre) && FaithfulOn(info.NumAll(), ins, Insert(s, m, i), q)
    {
      assert FaithfulOn(info.NumAll(), ins, s, q);
      InsertOn(info.NumAll(), ins, s, m, i, q);
    }
  }

  lemma MoveIsSound(slots: set<nat>, defined: set<nat>, s: Selection, i: nat)
    requires Sound(slots, defined, s) && s.ins.op.Binop? && i < |s.ins.i|
    ensures Sound(slots, defined, Insert(s, MakeMov(s.ins.o[0], s.ins.i[i]), s.ins.i[i := s.ins.o[0]]))
  {
    var m := MakeMov(s.ins.o[0], s.ins.i[i]);
    var d := DefinesAll(s.info, defined, s.pre);
    assert WellFormed(s.info, slots, d, m);
    WellFormedAppend(s.info, slots, defined, s.pre, m);
    assert Readable(s.info, slots, Defines(s.info, d, m), s.ins.o[0]);
  }

  // ---------- The pass ----------

  /** What selection leaves behind: the aliased input is the output register, and the remaining
      constants are encodable. */
  predicate Selected(ins: Inst) {
    && Shaped(ins)
    && (ins.op.Binop? ==> ins.i[0] == ins.o[0])
    && (HasOperands(ins.op) ==> forall k | 0 <= k < |ins.i| && ins.i[k].Const? :: Encodes(ins.op, k, ins.i[k].val))
  }

  predicate AllSelected(code: seq<Inst>) {
    forall k | 0 <= k < |code| :: Selected(code[k])
  }

  /** Input `i` has to be moved, and another one reads the register that this overwrites. */
  predicate SavesInput(ins: Inst, i: nat)
    requires |ins.o| == 1 && ins.o[0].VGPR? && i < |ins.i|
  {
    && !(ins.i[i].VGPR? && ins.i[i].v == ins.o[0].v)
    && exists k :: 0 <= k < |ins.i| && k != i && ins.i[k].VGPR? && ins.i[k].v == ins.o[0].v
  }

  /** Input `k` is a constant that has to go through a register; the aliased input always does. */
  predicate Lowers(ins: Inst, k: nat) {
    k < |ins.i| && !(ins.op.Binop? && k == 0) && ins.i[k].Const? && !Encodes(ins.op, k, ins.i[k].val)
  }

  /** The number of locals that selection adds for an instruction. */
  function Extra(ins: Inst): nat {
    if !HasOperands(ins.op) then 0
    else
      (if ins.op.Binop? && |ins.o| == 1 && ins.o[0].VGPR? && |ins.i| > 0 && SavesInput(ins, 0) then 1 else 0) +
      (if Lowers(ins, 0) then 1 else 0) + (if Lowers(ins, 1) then 1 else 0)
  }

  function CodeExtra(code: seq<Inst>): nat {
    if code == [] then 0 else CodeExtra(code[..|code| - 1]) + Extra(code[|code| - 1])
  }

  lemma {:induction false} ExtraConcat(a: seq<Inst>, b: seq<Inst>)
    ensures CodeExtra(a + b) == CodeExtra(a) + CodeExtra(b)
    decreases |b|
  {
    if b == [] {
      assert a + b == a;
    } else {
      assert (a + b)[..|a + b| - 1] == a + b[..|b| - 1];
      ExtraConcat(a, b[..|b| - 1]);
    }
  }

  lemma ExtraOne(ins: Inst)
    ensures CodeExtra([ins]) == Extra(ins)
  {
    assert [ins][..0] == [];
  }

  /** Constants stay constants. */
  predicate SameConst(a: Operand, b: Operand) {
    (a.Const? <==> b.Const?) && (a.Const? ==> a == b)
  }

  /** Another input reads the register that is about to be overwritten. */
  method HasLiveInput(i: seq<Operand>, keep: nat, v: nat) returns (live: bool)
    ensures live <==> exists k :: 0 <= k < |i| && k != keep && i[k].VGPR? && i[k].v == v
  {
    live := false;
    var k := 0;
    while k < |i| && !live
      invariant k <= |i|
      invariant live <==> exists j :: 0 <= j < k && j != keep && i[j].VGPR? && i[j].v == v
    {
      live := k != keep && i[k].VGPR? && i[k].v == v;
      k := k + 1;
    }
  }

  /** The copy of the output register, for the inputs that still read it. */
  lemma CopyIsSound(info: VRegsInfo, slots: set<nat>, defined: set<nat>, ins: Inst, s: Selection, i: nat, k: nat)
    requires Faithful(info, ins, s) && Sound(slots, defined, s) && ins.op.Binop? && i < |s.ins.i|
    requires k < |s.ins.i| && s.ins.i[k].VGPR? && s.ins.i[k].v == s.ins.o[0].v
    ensures var dst, tmp := s.ins.o[0], VGPR(s.ins.o[0].ty, s.info.NumAll());
            var s' := Insert(s.(info := s.info.AddLocal(dst.ty)), MakeMov(tmp, dst), ReplaceUses(s.ins.i, i, dst.v, tmp));
            Faithful(info, ins, s') && Sound(slots, defined, s')
  {
    var dst, tmp := s.ins.o[0], VGPR(s.ins.o[0].ty, s.info.NumAll());
    assert Readable(s.info, slots, DefinesAll(s.info, defined, s.pre), s.ins.i[k]) && s.ins.i[k] == dst;
    assert forall j | 0 <= j < |s.ins.i| && s.ins.i[j].VGPR? && s.ins.i[j].v == dst.v :: s.ins.i[j] == dst;
    FreshIsFaithful(info, ins, s, dst, ReplaceUses(s.ins.i, i, dst.v, tmp));
    FreshIsSound(slots, defined, s, dst, ReplaceUses(s.ins.i, i, dst.v, tmp));
  }

  lemma UsesReplaced(i: seq<Operand>, keep: nat, v: nat, copy: Operand)
    requires keep < |i| && copy.VGPR? && copy.v != v
    ensures var i' := ReplaceUses(i, keep, v, copy);
            i'[keep] == i[keep] && forall k | 0 <= k < |i| && k != keep :: !(i'[k].VGPR? && i'[k].v == v) && SameConst(i'[k], i[k])
  {
  }

  /** If another input still reads the output register, it reads a copy from now on. */
  method SaveLiveInput(ghost info: VRegsInfo, ghost slots: set<nat>, ghost defined: set<nat>, ghost ins: Inst, s: Selection, i: nat)
    returns (s': Selection)
    requires Faithful(info, ins, s) && Sound(slots, defined, s) && ins.op.Binop? && i < |s.ins.i|
    ensures Faithful(info, ins, s') && Sound(slots, defined, s') && s'.ins.i[i] == s.ins.i[i]
    ensures forall k | 0 <= k < |s'.ins.i| && k != i :: !(s'.ins.i[k].VGPR? && s'.ins.i[k].v == ins.o[0].v) && SameConst(s'.ins.i[k], s.ins.i[k])
    ensures !(s.ins.i[i].VGPR? && s.ins.i[i].v == ins.o[0].v) ==> s'.info.NumAll() == s.info.NumAll() + if SavesInput(s.ins, i) then 1 else 0
  {
    s' := s;
    var dst := s.ins.o[0];
    var live := HasLiveInput(s.ins.i, i, dst.v);
    if live {
      ghost var k :| 0 <= k < |s.ins.i| && k != i && s.ins.i[k].VGPR? && s.ins.i[k].v == dst.v;
      var tmp := VGPR(dst.ty, s.info.NumAll());
      CopyIsSound(info, slots, defined, ins, s, i, k);
      UsesReplaced(s.ins.i, i, dst.v, tmp);
      s' := Insert(s.(info := s.info.AddLocal(dst.ty)), MakeMov(tmp, dst), ReplaceUses(s.ins.i, i, dst.v, tmp));
    }
  }

  /** One turn of the alias loop: input `i` moves into the output register. */
  method SatisfyAlias(ghost info: VRegsInfo, ghost slots: set<nat>, ghost defined: set<nat>, ghost ins: Inst, s: Selection, i: nat)
    returns (s': Selection)
    requires Faithful(info, ins, s) && Sound(slots, defined, s) && ins.op.Binop? && i < |s.ins.i|
    ensures Faithful(info, ins, s') && Sound(slots, defined, s') && s'.ins.i[i] == s'.ins.o[0]
    ensures s'.info.NumAll() == s.info.NumAll() + if SavesInput(s.ins, i) then 1 else 0
    ensures forall k | 0 <= k < |s.ins.i| && k != i :: SameConst(s'.ins.i[k], s.ins.i[k])
  {
    s' := s;
    var dst := s.ins.o[0];
    if s.ins.i[i].VGPR? && s.ins.i[i].v == dst.v {
      return;
    }
    s' := SaveLiveInput(info, slots, defined, ins, s, i);
    MoveIsFaithful(info, ins, s', MakeMov(dst, s'.ins.i[i]), s'.ins.i[i := dst]);
    MoveIsSound(slots, defined, s', i);
    s' := Insert(s', MakeMov(dst, s'.ins.i[i]), s'.ins.i[i := dst]);
  }

  /** One turn of the constant loop: a constant that cannot be encoded goes through a register. */
  method LowerConstant(ghost info: VRegsInfo, ghost slots: set<nat>, ghost defined: set<nat>, ghost ins: Inst, s: Selection, i: nat, ci: Imm)
    returns (s': Selection)
    requires Faithful(info, ins, s) && Sound(slots, defined, s) && !ins.op.Hcall? && i < |s.ins.i|
    ensures Faithful(info, ins, s') && Sound(slots, defined, s')
    ensures s'.ins.i[i].Const? ==> ci != NoImm && MatchConst(s'.ins.i[i].val, ci)
    ensures s'.ins.op == s.ins.op && s'.ins.o == s.ins.o && forall k | 0 <= k < |s.ins.i| && k != i :: s'.ins.i[k] == s.ins.i[k]
    ensures !s.ins.i[i].Const? ==> s' == s
    ensures s'.info.NumAll() == s.info.NumAll() + if s.ins.i[i].Const? && !(ci != NoImm && MatchConst(s.ins.i[i].val, ci)) then 1 else 0
  {
    s' := s;
    var src := s.ins.i[i];
    if src.Const? && !(ci != NoImm && MatchConst(src.val, ci)) {
      var tmp := VGPR(src.ty, s.info.NumAll());
      FreshIsFaithful(info, ins, s, src, s.ins.i[i := tmp]);
      FreshIsSound(slots, defined, s, src, s.ins.i[i := tmp]);
      s' := Insert(s.(info := s.info.AddLocal(src.ty)), MakeMov(tmp, src), s.ins.i[i := tmp]);
    }
  }

  /** What the alias loop has added after `i` inputs. */
  ghost predicate Aliased(info: VRegsInfo, ins: Inst, s: Selection, i: nat)
    requires WellTypedOutput(ins) && |s.ins.i| == |ins.i|
  {
    && s.info.NumAll() == info.NumAll() + (if i > 0 && ins.op.Binop? && SavesInput(ins, 0) then 1 else 0)
    && (i == 0 || !ins.op.Binop? ==> s.ins.i == ins.i)
    && (forall k | 0 <= k < |ins.i| && !(ins.op.Binop? && k == 0) :: SameConst(s.ins.i[k], ins.i[k]))
  }

  predicate WellTypedOutput(ins: Inst) {
    ins.op.Binop? ==> |ins.i| == 2 && |ins.o| == 1 && ins.o[0].VGPR?
  }

  /** What the constant loop has added after `i` inputs. */
  ghost predicate LoweredTo(info: VRegsInfo, ins: Inst, s: Selection, i: nat)
    requires WellTypedOutput(ins) && |s.ins.i| == |ins.i|
  {
    && s.info.NumAll() == info.NumAll() + (if ins.op.Binop? && SavesInput(ins, 0) then 1 else 0) +
                          (if i > 0 && Lowers(ins, 0) then 1 else 0) + (if i > 1 && Lowers(ins, 1) then 1 else 0)
    && (forall k | i <= k < |ins.i| && !(ins.op.Binop? && k == 0) :: SameConst(s.ins.i[k], ins.i[k]))
  }

  /** The alias loop. */
  method SatisfyAliases(info: VRegsInfo, ghost slots: set<nat>, ghost defined: set<nat>, ins: Inst, ct: InstCt) returns (s: Selection)
    requires WellFormed(info, slots, defined, ins) && (forall g | g in slots :: info.IsGlobal(g)) && |ct.ins| == |ins.i|
    requires forall k | 0 <= k < |ct.ins| :: ct.ins[k].alias.Some? <==> ins.op.Binop? && k == 0
    ensures Faithful(info, ins, s) && Sound(slots, defined, s) && (ins.op.Binop? ==> s.ins.i[0] == s.ins.o[0])
    ensures LoweredTo(info, ins, s, 0)
  {
    s := Selection(info, [], ins);
    assert Faithful(info, ins, s);
    var i := 0;
    while i < |ins.i|
      invariant i <= |ins.i| && Faithful(info, ins, s) && Sound(slots, defined, s)
      invariant i > 0 && ins.op.Binop? ==> s.ins.i[0] == s.ins.o[0]
      invariant Aliased(info, ins, s, i)
    {
      if ct.ins[i].alias.Some? {
        s := SatisfyAlias(info, slots, defined, ins, s, i);
      }
      i := i + 1;
    }
  }

  /** The constant loop. */
  method LowerConstants(ghost info: VRegsInfo, ghost slots: set<nat>, ghost defined: set<nat>, ins: Inst, ct: InstCt, s0: Selection) returns (s: Selection)
    requires Faithful(info, ins, s0) && Sound(slots, defined, s0) && WellTypedOutput(ins) && HasOperands(ins.op) && |ct.ins| == |ins.i| <= 2
    requires forall k, val | 0 <= k < |ct.ins| && !(ins.op.Binop? && k == 0) ::
               Encodes(ins.op, k, val) <==> ct.ins[k].ci != NoImm && MatchConst(val, ct.ins[k].ci)
    requires LoweredTo(info, ins, s0, 0) && (ins.op.Binop? ==> s0.ins.i[0] == s0.ins.o[0])
    ensures Faithful(info, ins, s) && Sound(slots, defined, s) && (ins.op.Binop? ==> s.ins.i[0] == s.ins.o[0])
    ensures forall k | 0 <= k < |ins.i| && s.ins.i[k].Const? :: Encodes(ins.op, k, s.ins.i[k].val)
    ensures LoweredTo(info, ins, s, |ins.i|)
  {
    s := s0;
    var i := 0;
    while i < |ins.i|
      invariant i <= |ins.i| && Faithful(info, ins, s) && Sound(slots, defined, s)
      invariant ins.op.Binop? ==> s.ins.i[0] == s.ins.o[0]
      invariant forall k | 0 <= k < i && s.ins.i[k].Const? :: Encodes(ins.op, k, s.ins.i[k].val)
      invariant LoweredTo(info, ins, s, i)
    {
      s := LowerConstant(info, slots, defined, ins, s, i, ct.ins[i].ci);
      i := i + 1;
    }
  }

  /** QSel::SelectOperands, together with the visitor that skips instructions without register operands. */
  method SelectOperands(info: VRegsInfo, ghost slots: set<nat>, ghost defined: set<nat>, ins: Inst) returns (s: Selection)
    requires WellFormed(info, slots, defined, ins) && forall g | g in slots :: info.IsGlobal(g)
    ensures Faithful(info, ins, s) && Sound(slots, defined, s) && Selected(s.ins)
    ensures s.info.NumAll() == info.NumAll() + Extra(ins)
  {
    s := Selection(info, [], ins);
    assert Faithful(info, ins, s);
    if HasOperands(ins.op) {
      ConstraintFacts(ins.op);
      s := SatisfyAliases(info, slots, defined, ins, Constraints(ins.op));
      s := LowerConstants(info, slots, defined, ins, Constraints(ins.op), s);
    }
  }

  // ---------- Meaning ----------

  /** States that agree on memory and on the first `n` registers. */
  ghost predicate Agree(n: nat, q1: QState, q2: QState) {
    n <= |q1.vregs| && n <= |q2.vregs| && q1.mem == q2.mem && forall v: nat | v < n :: q1.vregs[v] == q2.vregs[v]
  }

  ghost predicate AgreeResult(n: nat, r1: Result<QState>, r2: Result<QState>) {
    && Agree(n, r1.s, r2.s)
    && (r1.Next? <==> r2.Next?)
    && (r1.Goto? <==> r2.Goto?) && (r1.Goto? ==> r1.k == r2.k)
    && (r1.Leave? ==> r1.exit == r2.exit)
  }

  /** An instruction that uses the first `n` registers only. */
  predicate Within(gs: seq<StateReg>, n: nat, ins: Inst) {
    && Shaped(ins) && |gs| <= n
    && (forall k | 0 <= k < |ins.i| :: Below(n, ins.i[k]))
    && (forall k | 0 <= k < |ins.o| :: ins.o[k].VGPR? ==> ins.o[k].v < n)
  }

  lemma WriteAgrees(gs: seq<StateReg>, n: nat, opr: Operand, val: Word, q1: QState, q2: QState)
    requires |gs| <= n && n <= |q1.vregs| && n <= |q2.vregs| && q1.mem == q2.mem
    requires forall v: nat | v < n && !(opr.VGPR? && opr.v == v) :: q1.vregs[v] == q2.vregs[v]
    ensures Agree(n, QWrite(gs, q1, opr, val), QWrite(gs, q2, opr, val))
    ensures |QWrite(gs, q2, opr, val).vregs| == |q2.vregs|
  {
  }

  lemma GlobalsAgree(gs: seq<StateReg>, n: nat, globals: seq<Word>, mem: Mem, q1: QState, q2: QState)
    requires |gs| <= n && Agree(n, q1, q2)
    ensures QGlobals(gs, q1) == QGlobals(gs, q2)
    ensures Agree(n, QWithGlobals(gs, q1, globals, mem), QWithGlobals(gs, q2, globals, mem))
    ensures |QWithGlobals(gs, q2, globals, mem).vregs| == |q2.vregs|
  {
  }

  lemma ActAgrees(gs: seq<StateReg>, sem: Semantics, n: nat, ins: Inst, ins': Inst, q1: QState, q2: QState, q3: QState)
    requires Within(gs, n, ins) && Shaped(ins') && ins'.op == ins.op && ins'.o == ins.o && |q3.vregs| == |q2.vregs|
    requires Agree(n, q1, q2) && q3.mem == q2.mem && QReads(q3, ins'.i) == QReads(q2, ins.i)
    requires forall v: nat | v < n && !Overwrites(ins, v) :: q3.vregs[v] == q2.vregs[v]
    ensures AgreeResult(n, QStep(gs, sem, ins, q1), QStep(gs, sem, ins', q3))
    ensures |QStep(gs, sem, ins', q3).s.vregs| == |q3.vregs|
  {
    assert QReads(q1, ins.i) == QReads(q2, ins.i);
    match Act(sem, ins.op, QReads(q1, ins.i), q1.mem)
    case Write(val) => WriteAgrees(gs, n, ins.o[0], val, q1, q3);
    case Call(stub, arg) =>
      GlobalsAgree(gs, n, [], q1.mem, q1, q3);
      var r := sem.helper(stub, arg, QGlobals(gs, q1), q1.mem);
      GlobalsAgree(gs, n, r.globals, r.mem, q1, q3);
    case _ =>
  }

  /** QSel preserves the meaning of every instruction. */
  lemma SelectionPreservesMeaning(sem: Semantics, n: nat, info: VRegsInfo, ins: Inst, s: Selection, q1: QState, q2: QState)
    requires Within(info.globals, n, ins) && n <= info.NumAll() && Faithful(info, ins, s) && Shaped(s.ins)
    requires Agree(n, q1, q2) && s.info.NumAll() <= |q2.vregs|
    ensures forall k | 0 <= k < |s.pre + [s.ins]| :: Shaped((s.pre + [s.ins])[k])
    ensures var r := QRun(info.globals, sem, s.pre + [s.ins], q2);
            AgreeResult(n, QStep(info.globals, sem, ins, q1), r) && |r.s.vregs| == |q2.vregs|
  {
    MovsRun(info.globals, sem, s.pre, q2);
    QRunConcat(info.globals, sem, s.pre, [s.ins], q2);
    var q3 := AfterMovs(q2, s.pre);
    assert FaithfulOn(info.NumAll(), ins, s, q2);
    assert QReads(q3, s.ins.i) == QReads(q2, ins.i);
    ActAgrees(info.globals, sem, n, ins, s.ins, q1, q2, q3);
    assert [s.ins][1..] == [];
  }

  // ---------- Blocks and regions ----------

  /** The code that a list of selections stands for. */
  function Flatten(sels: seq<Selection>): seq<Inst> {
    if sels == [] then [] else sels[0].pre + [sels[0].ins] + Flatten(sels[1..])
  }

  /** `sels[k]` selects `code[k]`, each with the locals that the earlier ones have added. */
  ghost predicate Selects(info: VRegsInfo, code: seq<Inst>, sels: seq<Selection>)
    decreases |code|
  {
    |code| == |sels| &&
    (code != [] ==> Faithful(info, code[0], sels[0]) && Shaped(sels[0].ins) && Selects(sels[0].info, code[1..], sels[1..]))
  }

  function FinalInfo(info: VRegsInfo, sels: seq<Selection>): VRegsInfo {
    if sels == [] then info else sels[|sels| - 1].info
  }

  lemma {:induction false} FinalInfoGrows(info: VRegsInfo, code: seq<Inst>, sels: seq<Selection>)
    requires Selects(info, code, sels)
    ensures Extends(info, FinalInfo(info, sels))
    decreases |code|
  {
    if code != [] {
      FinalInfoGrows(sels[0].info, code[1..], sels[1..]);
    }
  }

  predicate AllWithin(gs: seq<StateReg>, n: nat, code: seq<Inst>) {
    forall k | 0 <= k < |code| :: Within(gs, n, code[k])
  }

  /** Results of a first instruction and of the rest combine. */
  lemma JoinAgrees(gs: seq<StateReg>, sem: Semantics, n: nat, code: seq<Inst>, head: seq<Inst>, tail: seq<Inst>, q1: QState, q2: QState)
    requires code != [] && AllShaped(code) && AllShaped(head) && AllShaped(tail)
    requires AgreeRuns(gs, sem, n, code[..1], q1, head, q2)
    requires var r1, r2 := QStep(gs, sem, code[0], q1), QRun(gs, sem, head, q2);
             r1.Next? ==> AgreeRuns(gs, sem, n, code[1..], r1.s, tail, r2.s)
    ensures AllShaped(head + tail) && AgreeRuns(gs, sem, n, code, q1, head + tail, q2)
  {
    QRunConcat(gs, sem, head, tail, q2);
    OneStep(gs, sem, code[..1], q1);
  }

  lemma OneStep(gs: seq<StateReg>, sem: Semantics, code: seq<Inst>, q: QState)
    requires |code| == 1 && AllShaped(code)
    ensures QRun(gs, sem, code, q) == QStep(gs, sem, code[0], q)
  {
    assert code[1..] == [];
  }

  /** Two lists run to agreeing results. */
  ghost predicate AgreeRuns(gs: seq<StateReg>, sem: Semantics, n: nat, c1: seq<Inst>, q1: QState, c2: seq<Inst>, q2: QState)
    requires AllShaped(c1) && AllShaped(c2)
  {
    var r := QRun(gs, sem, c2, q2);
    AgreeResult(n, QRun(gs, sem, c1, q1), r) && |r.s.vregs| == |q2.vregs|
  }

  /** Running selected code agrees with running the original code. */
  lemma {:induction false} SelectedCodeAgrees(sem: Semantics, n: nat, info: VRegsInfo, code: seq<Inst>, sels: seq<Selection>, q1: QState, q2: QState)
    requires n <= info.NumAll() && Selects(info, code, sels) && AllWithin(info.globals, n, code) && AllShaped(code)
    requires Agree(n, q1, q2) && FinalInfo(info, sels).NumAll() <= |q2.vregs|
    ensures AllShaped(Flatten(sels)) && AgreeRuns(info.globals, sem, n, code, q1, Flatten(sels), q2)
    decreases |code|
  {
    if code != [] {
      var gs, head := info.globals, sels[0].pre + [sels[0].ins];
      FinalInfoGrows(sels[0].info, code[1..], sels[1..]);
      SelectionPreservesMeaning(sem, n, info, code[0], sels[0], q1, q2);
      FlattenShaped(n, sels[0].info, code[1..], sels[1..]);
      OneStep(gs, sem, code[..1], q1);
      var r1, r2 := QStep(gs, sem, code[0], q1), QRun(gs, sem, head, q2);
      if r1.Next? {
        SelectedCodeAgrees(sem, n, sels[0].info, code[1..], sels[1..], r1.s, r2.s);
      }
      JoinAgrees(gs, sem, n, code, head, Flatten(sels[1..]), q1, q2);
    }
  }

  lemma {:induction false} FlattenShaped(n: nat, info: VRegsInfo, code: seq<Inst>, sels: seq<Selection>)
    requires Selects(info, code, sels)
    ensures forall k | 0 <= k < |Flatten(sels)| :: Shaped(Flatten(sels)[k])
    decreases |code|
  {
    if code != [] {
      FlattenShaped(n, sels[0].info, code[1..], sels[1..]);
    }
  }

  lemma {:induction false} FlattenAppend(sels: seq<Selection>, s: Selection)
    ensures Flatten(sels + [s]) == Flatten(sels) + s.pre + [s.ins]
  {
    if sels == [] {
      assert sels + [s] == [s] && [s][1..] == [];
    } else {
      assert (sels + [s])[1..] == sels[1..] + [s];
      FlattenAppend(sels[1..], s);
    }
  }

  lemma {:induction false} SelectsAppend(info: VRegsInfo, code: seq<Inst>, sels: seq<Selection>, ins: Inst, s: Selection)
    requires Selects(info, code, sels) && Faithful(FinalInfo(info, sels), ins, s) && Shaped(s.ins)
    ensures Selects(info, code + [ins], sels + [s])
    decreases |code|
  {
    var code', sels' := code + [ins], sels + [s];
    if code == [] {
      assert sels'[0] == s && code'[0] == ins && sels'[1..] == [] && code'[1..] == [];
      assert Selects(s.info, [], []);
    } else {
      assert sels'[0] == sels[0] && code'[0] == code[0];
      assert code'[1..] == code[1..] + [ins] && sels'[1..] == sels[1..] + [s];
      assert FinalInfo(sels[0].info, sels[1..]) == FinalInfo(info, sels);
      SelectsAppend(sels[0].info, code[1..], sels[1..], ins, s);
    }
  }

  predicate NoTerminators(code: seq<Inst>) {
    forall k | 0 <= k < |code| :: !code[k].op.IsTerminator()
  }

  lemma {:induction false} WellFormedConcat(info: VRegsInfo, slots: set<nat>, defined: set<nat>, c1: seq<Inst>, c2: seq<Inst>)
    requires WellFormedCode(info, slots, defined, c1) && NoTerminators(c1)
    requires WellFormedCode(info, slots, DefinesAll(info, defined, c1), c2)
    ensures WellFormedCode(info, slots, defined, c1 + c2)
    ensures DefinesAll(info, defined, c1 + c2) == DefinesAll(info, DefinesAll(info, defined, c1), c2)
    decreases |c1|
  {
    if c1 == [] {
      assert c1 + c2 == c2;
    } else {
      assert (c1 + c2)[1..] == c1[1..] + c2;
      WellFormedConcat(info, slots, Defines(info, defined, c1[0]), c1[1..], c2);
    }
  }

  /** Selected code is well-formed again: fresh locals are defined before they are used. */
  lemma SelectedIsWellFormed(info: VRegsInfo, slots: set<nat>, out: seq<Inst>, defined: set<nat>, ins: Inst, s: Selection)
    requires WellFormedCode(info, slots, {}, out) && NoTerminators(out) && Extends(info, s.info)
    requires Sound(slots, DefinesAll(info, {}, out), s) && defined <= DefinesAll(info, {}, out)
    requires s.ins.op == ins.op && s.ins.o == ins.o
    ensures WellFormedCode(s.info, slots, {}, out + s.pre + [s.ins])
    ensures Defines(info, defined, ins) <= DefinesAll(s.info, {}, out + s.pre + [s.ins])
  {
    var d, d' := DefinesAll(info, {}, out), DefinesAll(s.info, {}, out);
    WellFormedExtends(info, s.info, slots, {}, {}, out);
    WellFormedExtends(s.info, s.info, slots, d, d', s.pre);
    WellFormedConcat(s.info, slots, {}, out, s.pre);
    AppendOne(s.info, slots, out + s.pre, s.ins);
  }

  lemma AppendOne(info: VRegsInfo, slots: set<nat>, code: seq<Inst>, ins: Inst)
    requires WellFormedCode(info, slots, {}, code) && NoTerminators(code) && WellFormed(info, slots, DefinesAll(info, {}, code), ins)
    ensures WellFormedCode(info, slots, {}, code + [ins])
    ensures DefinesAll(info, {}, code + [ins]) == Defines(info, DefinesAll(info, {}, code), ins)
  {
    var last := [ins];
    assert last[1..] == [];
    WellFormedConcat(info, slots, {}, code, last);
    assert DefinesAll(info, DefinesAll(info, {}, code), last) == Defines(info, DefinesAll(info, {}, code), ins);
  }

  /** What the pass has done after `k` instructions of a block. */
  ghost predicate Progress(info: VRegsInfo, slots: set<nat>, code: seq<Inst>, k: nat, cur: VRegsInfo, out: seq<Inst>,
                           sels: seq<Selection>, defined: set<nat>) {
    && k <= |code| && Selects(info, code[..k], sels) && cur == FinalInfo(info, sels) && out == Flatten(sels)
    && Extends(info, cur) && WellFormedCode(cur, slots, {}, out) && (k < |code| ==> NoTerminators(out))
    && WellFormedCode(info, slots, defined, code[k..]) && defined <= DefinesAll(cur, {}, out)
    && AllSelected(out)
    && (k > 0 ==> out != [] && out[|out| - 1].op == code[k - 1].op)
  }

  lemma NextIsWellFormed(info: VRegsInfo, slots: set<nat>, code: seq<Inst>, k: nat, cur: VRegsInfo, out: seq<Inst>,
                         sels: seq<Selection>, defined: set<nat>)
    requires Progress(info, slots, code, k, cur, out, sels, defined) && k < |code|
    ensures WellFormed(cur, slots, DefinesAll(cur, {}, out), code[k])
    ensures WellFormedCode(info, slots, Defines(info, defined, code[k]), code[k + 1..])
    ensures code[k].op.IsTerminator() ==> k + 1 == |code|
  {
    assert code[k..][0] == code[k] && code[k..][1..] == code[k + 1..];
  }

  /** The bookkeeping of one more selection. */
  lemma SelectionAdded(info: VRegsInfo, code: seq<Inst>, k: nat, cur: VRegsInfo, out: seq<Inst>, sels: seq<Selection>, s: Selection)
    requires k < |code| && Selects(info, code[..k], sels) && cur == FinalInfo(info, sels) && out == Flatten(sels)
    requires Extends(info, cur) && Faithful(cur, code[k], s) && Shaped(s.ins)
    ensures Selects(info, code[..k + 1], sels + [s]) && s.info == FinalInfo(info, sels + [s]) && out + s.pre + [s.ins] == Flatten(sels + [s])
    ensures Extends(info, s.info) && Extends(cur, s.info)
  {
    assert code[..k + 1] == code[..k] + [code[k]];
    SelectsAppend(info, code[..k], sels, code[k], s);
    FlattenAppend(sels, s);
  }

  lemma ProgressStep(info: VRegsInfo, slots: set<nat>, code: seq<Inst>, k: nat, cur: VRegsInfo, out: seq<Inst>,
                     sels: seq<Selection>, defined: set<nat>, s: Selection)
    requires Progress(info, slots, code, k, cur, out, sels, defined) && k < |code|
    requires Faithful(cur, code[k], s) && Sound(slots, DefinesAll(cur, {}, out), s) && Selected(s.ins)
    ensures Progress(info, slots, code, k + 1, s.info, out + s.pre + [s.ins], sels + [s], Defines(info, defined, code[k]))
  {
    NextIsWellFormed(info, slots, code, k, cur, out, sels, defined);
    SelectionAdded(info, code, k, cur, out, sels, s);
    SelectedIsWellFormed(cur, slots, out, defined, code[k], s);
    AppendSelected(out, s.pre, s.ins);
  }

  lemma AppendSelected(out: seq<Inst>, pre: seq<Inst>, ins: Inst)
    requires AllSelected(out) && AllRegMovs(pre) && Selected(ins)
    ensures AllSelected(out + pre + [ins])
    ensures NoTerminators(out) && !ins.op.IsTerminator() ==> NoTerminators(out + pre + [ins])
  {
    forall j | 0 <= j < |pre|
      ensures Selected(pre[j]) && !pre[j].op.IsTerminator()
    {
      assert IsRegMov(pre[j]);
    }
  }

  /** One instruction of a block. */
  method SelectStep(ghost info: VRegsInfo, ghost slots: set<nat>, code: seq<Inst>, k: nat, cur: VRegsInfo, out: seq<Inst>,
                    ghost sels: seq<Selection>, ghost defined: set<nat>)
    returns (s: Selection)
    requires Progress(info, slots, code, k, cur, out, sels, defined) && k < |code| && forall g | g in slots :: info.IsGlobal(g)
    ensures Progress(info, slots, code, k + 1, s.info, out + s.pre + [s.ins], sels + [s], Defines(info, defined, code[k]))
    ensures s.info.NumAll() == cur.NumAll() + Extra(code[k])
  {
    NextIsWellFormed(info, slots, code, k, cur, out, sels, defined);
    s := SelectOperands(cur, slots, DefinesAll(cur, {}, out), code[k]);
    ProgressStep(info, slots, code, k, cur, out, sels, defined, s);
  }

  lemma ExtraNext(code: seq<Inst>, k: nat)
    requires k < |code|
    ensures CodeExtra(code[..k + 1]) == CodeExtra(code[..k]) + Extra(code[k])
  {
    assert code[..k + 1][..k] == code[..k];
  }

  /** QSel::Run on one block. */
  method SelectBlock(info: VRegsInfo, ghost slots: set<nat>, code: seq<Inst>)
    returns (info': VRegsInfo, out: seq<Inst>, ghost sels: seq<Selection>)
    requires WellFormedCode(info, slots, {}, code) && forall g | g in slots :: info.IsGlobal(g)
    ensures Selects(info, code, sels) && info' == FinalInfo(info, sels) && out == Flatten(sels)
    ensures WellFormedCode(info', slots, {}, out) && AllSelected(out)
    ensures code != [] ==> out != [] && out[|out| - 1].op == code[|code| - 1].op
    ensures info'.NumAll() == info.NumAll() + CodeExtra(code)
  {
    info', out, sels := info, [], [];
    ghost var defined: set<nat> := {};
    var k := 0;
    SelectionStarts(info, slots, code);
    while k < |code|
      invariant Progress(info, slots, code, k, info', out, sels, defined)
      invariant info'.NumAll() == info.NumAll() + CodeExtra(code[..k])
    {
      ExtraNext(code, k);
      var s := SelectStep(info, slots, code, k, info', out, sels, defined);
      info', out := s.info, out + s.pre + [s.ins];
      sels, defined := sels + [s], Defines(info, defined, code[k]);
      k := k + 1;
    }
    SelectionDone(info, slots, code, info', out, sels, defined);
  }

  lemma SelectionStarts(info: VRegsInfo, slots: set<nat>, code: seq<Inst>)
    requires WellFormedCode(info, slots, {}, code)
    ensures Progress(info, slots, code, 0, info, [], [], {}) && CodeExtra(code[..0]) == 0
  {
    assert code[..0] == [] && code[0..] == code;
  }

  lemma SelectionDone(info: VRegsInfo, slots: set<nat>, code: seq<Inst>, cur: VRegsInfo, out: seq<Inst>, sels: seq<Selection>, defined: set<nat>)
    requires Progress(info, slots, code, |code|, cur, out, sels, defined)
    ensures Selects(info, code, sels) && cur == FinalInfo(info, sels) && out == Flatten(sels) && CodeExtra(code[..|code|]) == CodeExtra(code)
    ensures WellFormedCode(cur, slots, {}, out) && AllSelected(out)
    ensures code != [] ==> out != [] && out[|out| - 1].op == code[|code| - 1].op
  {
    assert code[..|code|] == code;
  }
}
