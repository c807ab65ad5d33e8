/** One instruction before and after register allocation: what the allocator guarantees about the code it
    emits for an instruction, and why running that code does what the instruction does. */
module RegAllocSim {
  import opened Common
  import opened Qir
  import opened ArchTraits
  import opened HostMachine
  import opened RegAllocState

  // ---------- The allocator's guarantee ----------

  /** An input keeps its type and is a constant or in a register that satisfies its constraint; unless
      the constraint is restrictive, that register is the one the virtual register lives in.  No other
      virtual register lives there. */
  ghost predicate InputPlaced(a: Alloc, cr: set<nat>, opr: Operand, host: Operand) {
    && (opr.Const? ==> host == opr)
    && (opr.VGPR? ==>
          && host.PGPR? && host.ty == opr.ty && host.p in cr && host.p < GPR_NUM && host.p !in GPR_FIXED
          && host.p < |a.p2v| && (a.p2v[host.p].None? || a.p2v[host.p] == Some(opr.v))
          && (cr == GPR_ALL ==> opr.v < |a.vregs| && a.vregs[opr.v].loc == REG && a.vregs[opr.v].p == host.p))
  }

  /** The result goes to a register that nobody else owns, or straight to its slot. */
  ghost predicate OutputPlaced(e: Env, mid: Alloc, a': Alloc, opr: Operand, host: Operand) {
    || (opr.VGPR? && host.PGPR? && host.ty == opr.ty && CanDefine(e, mid, opr.v, host.p) && a' == Define(mid, opr.v, host.p))
    || (opr.Slot? && host == opr && a' == mid)
  }

  /** The locals that matter when the instruction itself executes. */
  function Kept(defined: set<nat>, op: Op): set<nat> {
    if op.IsTerminator() then {} else defined
  }

  /** The locals that matter after it. */
  function Known(e: Env, defined: set<nat>, ins: Inst): set<nat> {
    if ins.op.IsTerminator() then {} else Defines(e.info, defined, ins)
  }

  /** The moves between `a` and `b` carry matching machines along. */
  ghost predicate Arrives(e: Env, defined: set<nat>, later: set<nat>, a: Alloc, b: Alloc) {
    && Inv(e, a) && Inv(e, b) && |a.code| <= |b.code| && b.code[..|a.code|] == a.code && AllMoves(Emitted(a, b))
    && forall q, m {:trigger ArrivesOn(e, defined, later, a, b, q, m)} :: ArrivesOn(e, defined, later, a, b, q, m)
  }

  ghost predicate ArrivesOn(e: Env, defined: set<nat>, later: set<nat>, a: Alloc, b: Alloc, q: QState, m: MState)
    requires |a.vregs| == |b.vregs| == e.info.NumAll() && AllMoves(Emitted(a, b))
  {
    Rel(e, defined, a, q, m) ==> Rel(e, later, b, q, RunMoves(Emitted(a, b), m))
  }

  /** The globals are where the instruction needs them: up to date in memory before anything that can
      fault, and only in memory, with nothing in caller-saved registers, before control goes elsewhere. */
  ghost predicate Settled(e: Env, mid: Alloc, op: Op)
    requires |mid.p2v| == GPR_NUM
  {
    && (op.HasSideEffect() ==> AllSynced(e, mid))
    && (op.IsTerminator() || op.Hcall? ==> AllInMemory(e, mid))
    && (op.Hcall? ==> forall p: nat {:trigger mid.p2v[p]} | p < GPR_NUM && p in GPR_CALL_CLOBBER :: mid.p2v[p].None?)
  }

  ghost predicate OperandsPlaced(e: Env, defined: set<nat>, a: Alloc, mid: Alloc, ins: Inst, host: Inst)
    requires |a.vregs| == |mid.vregs| == e.info.NumAll() && AllMoves(Emitted(a, mid))
  {
    && Shaped(ins) && Shaped(host) && host.op == ins.op
    && (forall k: nat {:trigger host.i[k]} | k < |ins.i| :: Fetched(e, defined, a, mid, ins.i[k], host.i[k]))
    && (ins.op.Binop? ==> host.o[0] == host.i[0])
    && (ins.op.Setcc? ==> host.o[0].PGPR? && host.o[0].ty == I32 && host.o[0].p < GPR_NUM)
  }

  /** Operands respect the constraints: registers are in their masks and never fixed ones, distinct
      source registers are in distinct host registers, and constants are encodable.  Instructions without
      register operands stay as they are. */
  ghost predicate OperandsFit(ins: Inst, host: Inst)
    requires Shaped(ins) && Shaped(host) && host.op == ins.op
  {
    if !HasOperands(ins.op) then host == ins else
      && |Constraints(ins.op).ins| == |ins.i|
      && (forall k: nat {:trigger host.i[k]} | k < |host.i| ::
            if ins.i[k].VGPR? then host.i[k].PGPR? && host.i[k].p in Constraints(ins.op).ins[k].cr - GPR_FIXED
            else host.i[k].Const? && Encodes(ins.op, k, host.i[k].val))
      && (|ins.i| == 2 && ins.i[0].VGPR? && ins.i[1].VGPR? && ins.i[0].v != ins.i[1].v ==> host.i[0].p != host.i[1].p)
      && (|ins.o| == 1 ==> host.o[0].Slot? || (host.o[0].PGPR? && host.o[0].p in GPR_ALL - GPR_FIXED))
  }

  /** `ins` has become `host`, after moves that lead from `a` to `mid`; `a'` follows. */
  ghost predicate Translated(e: Env, defined: set<nat>, a: Alloc, mid: Alloc, a': Alloc, ins: Inst, host: Inst) {
    && Arrives(e, defined, Kept(defined, ins.op), a, mid)
    && Inv(e, a') && Ready(e, Known(e, defined, ins), a') && a'.code == mid.code + [host]
    && OperandsPlaced(e, defined, a, mid, ins, host) && OperandsFit(ins, host) && Settled(e, mid, ins.op)
    && (|ins.o| == 1 ==> OutputPlaced(e, mid, a'.(code := mid.code), ins.o[0], host.o[0]))
    && (|ins.o| == 0 ==> a'.(code := mid.code) == mid)
  }

  // ---------- Why it is enough ----------

  /** Matching results: execution goes on with matching states, or leaves the straight-line code in
      the same way with a precise guest state. */
  ghost predicate Matches(e: Env, defined: set<nat>, a': Alloc, r: Result<QState>, r': Result<MState>)
    requires |a'.vregs| == e.info.NumAll()
  {
    match r
    case Next(q) => r'.Next? && Rel(e, defined, a', q, r'.s)
    case Goto(k, q) => r'.Goto? && r'.k == k && Precise(e, q, r'.s) && e.info.NumAll() <= |q.vregs|
    case Leave(exit, q) => r'.Leave? && r'.exit == exit && Precise(e, q, r'.s)
  }

  lemma InputsAgree(e: Env, defined: set<nat>, a: Alloc, mid: Alloc, ins: Inst, host: Inst, q: QState, m: MState)
    requires |a.vregs| == |mid.vregs| == e.info.NumAll() && AllMoves(Emitted(a, mid))
    requires OperandsPlaced(e, defined, a, mid, ins, host) && Rel(e, defined, a, q, m)
    ensures MInputs(RunMoves(Emitted(a, mid), m), host) == QReads(q, ins.i)
  {
    var m' := RunMoves(Emitted(a, mid), m);
    forall k: nat | k < |ins.i|
      ensures MInputs(m', host)[k] == QRead(q, ins.i[k])
    {
      assert Fetched(e, defined, a, mid, ins.i[k], host.i[k]);
      assert FetchedOn(e, defined, a, mid, ins.i[k], host.i[k], q, m);
    }
  }

  lemma RelWeaken(e: Env, more: set<nat>, defined: set<nat>, a: Alloc, q: QState, m: MState)
    requires |a.vregs| == e.info.NumAll() && Rel(e, more, a, q, m) && defined <= more
    ensures Rel(e, defined, a, q, m)
  {
    forall v: nat | Live(e, defined, v) ensures ValueOk(a.vregs[v], q.vregs[v], m) {
      assert Live(e, more, v);
    }
  }

  /** The host result lands where the bookkeeping expects it. */
  lemma OutputCarries(e: Env, defined: set<nat>, mid: Alloc, a': Alloc, op: Op, opr: Operand, host: Operand, q: QState, m: MState, val: Word)
    requires Inv(e, mid) && |a'.vregs| == e.info.NumAll() && Rel(e, defined, mid, q, m) && Writable(e.info, e.slots, op, opr)
    requires OutputPlaced(e, mid, a', opr, host)
    ensures Rel(e, if opr.VGPR? && !e.info.IsGlobal(opr.v) then defined + {opr.v} else defined, a',
                QWrite(e.info.globals, q, opr, val), MWrite(m, host, val))
  {
    if opr.VGPR? {
      assert TrackOk(e, mid, opr.v);
      DefineCarries(e, defined, mid, opr.v, host.p, q, m, val);
      if e.info.IsGlobal(opr.v) {
        RelWeaken(e, defined + {opr.v}, defined, a', QWrite(e.info.globals, q, opr, val), MWrite(m, host, val));
      }
    } else {
      SlotResultCarries(e, defined, mid, opr, q, m, val);
    }
  }

  lemma SameTracks(e: Env, defined: set<nat>, a: Alloc, b: Alloc, q: QState, m: MState)
    requires |a.vregs| == e.info.NumAll() && a.vregs == b.vregs && Rel(e, defined, a, q, m)
    ensures Rel(e, defined, b, q, m)
  {
    forall v: nat | Live(e, defined, v) ensures ValueOk(b.vregs[v], q.vregs[v], m) {
      assert ValueOk(a.vregs[v], q.vregs[v], m);
    }
  }

  lemma MemCarries(e: Env, defined: set<nat>, a: Alloc, q: QState, m: MState, mem: Mem)
    requires |a.vregs| == e.info.NumAll() && Rel(e, defined, a, q, m)
    ensures Rel(e, defined, a, q.(mem := mem), m.(mem := mem))
  {
    forall v: nat | Live(e, defined, v) ensures ValueOk(a.vregs[v], q.vregs[v], m.(mem := mem)) {
      assert ValueOk(a.vregs[v], q.vregs[v], m);
      ValueSurvives(a.vregs[v], q.vregs[v], m, m.(mem := mem));
    }
  }

  /** A helper sees the guest state of the virtual registers. */
  lemma GlobalsSeen(e: Env, q: QState, m: MState)
    requires Precise(e, q, m)
    ensures MGlobals(e.info.globals, m) == QGlobals(e.info.globals, q)
  {
    var s, s' := QGlobals(e.info.globals, q), MGlobals(e.info.globals, m);
    forall g: nat | g < |s| ensures s[g] == s'[g] {
      assert e.info.globals[g] == e.info.globals[g];
    }
  }

  lemma HelperIsPrecise(e: Env, q: QState, m: MState, globals: seq<Word>, mem: Mem, junk: (MState, nat) -> Word)
    requires Precise(e, q, m) && LayoutOk(e.info.globals, e.cpuSize)
    ensures Precise(e, QWithGlobals(e.info.globals, q, globals, mem), MWithGlobals(e.info.globals, m, globals, mem, junk))
  {
    var gs := e.info.globals;
    forall g: nat | g < |gs|
      ensures LoadSlot(StoreGlobals(gs, m.cpu, Fit(gs, globals)), gs[g].offs, gs[g].ty) == Fit(gs, globals)[g]
    {
      StoredGlobal(gs, m.cpu, Fit(gs, globals), g);
      TruncNested(gs[g].ty, gs[g].ty, if g < |globals| then globals[g] else ZERO);
    }
  }

  /** Values in registers that calls preserve, and in the frame, survive a helper. */
  lemma HelperCarries(e: Env, defined: set<nat>, a: Alloc, q: QState, m: MState, globals: seq<Word>, mem: Mem, junk: (MState, nat) -> Word)
    requires Inv(e, a) && Rel(e, defined, a, q, m) && Settled(e, a, Hcall(0)) && Precise(e, q, m)
    ensures Rel(e, defined, a, QWithGlobals(e.info.globals, q, globals, mem), MWithGlobals(e.info.globals, m, globals, mem, junk))
  {
    var q', m' := QWithGlobals(e.info.globals, q, globals, mem), MWithGlobals(e.info.globals, m, globals, mem, junk);
    HelperIsPrecise(e, q, m, globals, mem, junk);
    PreciseEntersBlock(e, a, q', m');
    forall v: nat | Live(e, defined, v)
      ensures ValueOk(a.vregs[v], q'.vregs[v], m')
    {
      if e.info.IsGlobal(v) {
        assert Live(e, {}, v);
      } else {
        assert ValueOk(a.vregs[v], q.vregs[v], m) && TrackOk(e, a, v);
        ValueSurvives(a.vregs[v], q.vregs[v], m, m');
      }
    }
  }

  /** Just before an instruction that can fault, call a helper or leave the block, memory holds the
      precise guest state, although globals may have newer copies in registers. */
  lemma PreciseBefore(e: Env, defined: set<nat>, a: Alloc, mid: Alloc, a': Alloc, ins: Inst, host: Inst, q: QState, m: MState)
    requires Translated(e, defined, a, mid, a', ins, host) && Rel(e, defined, a, q, m)
    requires ins.op.HasSideEffect() || ins.op.IsTerminator()
    ensures Precise(e, q, RunMoves(Emitted(a, mid), m))
  {
    assert ArrivesOn(e, defined, Kept(defined, ins.op), a, mid, q, m);
    SyncedIsPrecise(e, Kept(defined, ins.op), mid, q, RunMoves(Emitted(a, mid), m));
  }

  lemma HostWrites(e: Env, sem: Semantics, junk: (MState, nat) -> Word, defined: set<nat>, a: Alloc, mid: Alloc, a': Alloc, ins: Inst, host: Inst,
                   q: QState, m: MState, val: Word)
    requires Translated(e, defined, a, mid, a', ins, host) && WellFormed(e.info, e.slots, defined, ins) && Rel(e, defined, mid, q, m)
    requires MInputs(m, host) == QReads(q, ins.i) && Act(sem, ins.op, QReads(q, ins.i), q.mem) == Write(val) && |ins.o| == 1
    ensures MStep(e.info.globals, sem, junk, host, m) == Next(MWrite(m, host.o[0], val))
    ensures Rel(e, Defines(e.info, defined, ins), a', QWrite(e.info.globals, q, ins.o[0], val), MWrite(m, host.o[0], val))
  {
    if ins.op.Setcc? {
      SetccIsWrite(sem, ins.op.cc, host.o[0].p, host.i[0], host.i[1], m);
      assert MInputs(m, host)[0] == MRead(m, host.i[0]) && MInputs(m, host)[1] == MRead(m, host.i[1]);
    }
    var b := a'.(code := mid.code);
    assert Writable(e.info, e.slots, ins.op, ins.o[0]);
    OutputCarries(e, defined, mid, b, ins.op, ins.o[0], host.o[0], q, m, val);
    SameTracks(e, Defines(e.info, defined, ins), b, a', QWrite(e.info.globals, q, ins.o[0], val), MWrite(m, host.o[0], val));
  }

  lemma HostCalls(e: Env, sem: Semantics, junk: (MState, nat) -> Word, defined: set<nat>, a: Alloc, mid: Alloc, a': Alloc, ins: Inst, host: Inst,
                  q: QState, m: MState)
    requires Translated(e, defined, a, mid, a', ins, host) && ins.op.Hcall? && Rel(e, defined, mid, q, m) && Precise(e, q, m)
    requires MInputs(m, host) == QReads(q, ins.i)
    ensures Matches(e, defined, a', QStep(e.info.globals, sem, ins, q), MStep(e.info.globals, sem, junk, host, m))
  {
    var gs := e.info.globals;
    GlobalsSeen(e, q, m);
    var r := sem.helper(ins.op.stub, QReads(q, ins.i)[0], QGlobals(gs, q), q.mem);
    match r
    case Returned(globals, mem) =>
      HelperCarries(e, defined, mid, q, m, globals, mem, junk);
      SameTracks(e, defined, mid, a', QWithGlobals(gs, q, globals, mem), MWithGlobals(gs, m, globals, mem, junk));
    case Stopped(exit, globals, mem) =>
      HelperIsPrecise(e, q, m, globals, mem, junk);
  }

  /** Instructions that write nothing and call nothing. */
  lemma HostOther(e: Env, sem: Semantics, junk: (MState, nat) -> Word, defined: set<nat>, a: Alloc, mid: Alloc, a': Alloc, ins: Inst, host: Inst,
                  q: QState, m: MState)
    requires Translated(e, defined, a, mid, a', ins, host) && Rel(e, Kept(defined, ins.op), mid, q, m) && Precise(e, q, m)
    requires MInputs(m, host) == QReads(q, ins.i)
    requires var act := Act(sem, ins.op, QReads(q, ins.i), q.mem); act.SetMem? || act.Jump? || act.Stop?
    ensures Matches(e, Known(e, defined, ins), a', QStep(e.info.globals, sem, ins, q), MStep(e.info.globals, sem, junk, host, m))
  {
    var act := Act(sem, ins.op, QReads(q, ins.i), q.mem);
    if act.SetMem? {
      MemCarries(e, defined, mid, q, m, act.mem);
      SameTracks(e, defined, mid, a', q.(mem := act.mem), m.(mem := act.mem));
    }
  }

  /** The rewritten instruction, run in the state that the moves before it leave. */
  lemma HostMatches(e: Env, sem: Semantics, junk: (MState, nat) -> Word, defined: set<nat>, a: Alloc, mid: Alloc, a': Alloc, ins: Inst, host: Inst,
                    q: QState, m: MState)
    requires Translated(e, defined, a, mid, a', ins, host) && WellFormed(e.info, e.slots, defined, ins) && Rel(e, defined, a, q, m)
    ensures Matches(e, Known(e, defined, ins), a', QStep(e.info.globals, sem, ins, q),
                    MStep(e.info.globals, sem, junk, host, RunMoves(Emitted(a, mid), m)))
  {
    var m1 := RunMoves(Emitted(a, mid), m);
    InputsAgree(e, defined, a, mid, ins, host, q, m);
    assert ArrivesOn(e, defined, Kept(defined, ins.op), a, mid, q, m);
    if ins.op.HasSideEffect() || ins.op.IsTerminator() {
      PreciseBefore(e, defined, a, mid, a', ins, host, q, m);
    }
    var act := Act(sem, ins.op, QReads(q, ins.i), q.mem);
    if act.Write? {
      HostWrites(e, sem, junk, defined, a, mid, a', ins, host, q, m1, act.val);
    } else if act.Call? {
      HostCalls(e, sem, junk, defined, a, mid, a', ins, host, q, m1);
    } else {
      HostOther(e, sem, junk, defined, a, mid, a', ins, host, q, m1);
    }
  }

  /** Running everything that was emitted for an instruction does what the instruction does. */
  lemma TranslatedMatches(e: Env, sem: Semantics, junk: (MState, nat) -> Word, defined: set<nat>, a: Alloc, mid: Alloc, a': Alloc, ins: Inst, host: Inst,
                          q: QState, m: MState)
    requires Translated(e, defined, a, mid, a', ins, host) && WellFormed(e.info, e.slots, defined, ins) && Rel(e, defined, a, q, m)
    ensures Emitted(a, a') == Emitted(a, mid) + [host]
    ensures forall k | 0 <= k < |Emitted(a, a')| :: Shaped(Emitted(a, a')[k])
    ensures Matches(e, Known(e, defined, ins), a', QStep(e.info.globals, sem, ins, q), MRun(e.info.globals, sem, junk, Emitted(a, a'), m))
  {
    var gs, moves, last := e.info.globals, Emitted(a, mid), [host];
    EmittedAppend(a, mid, a', host);
    MovesRun(gs, sem, junk, moves, m);
    var m1 := RunMoves(moves, m);
    HostMatches(e, sem, junk, defined, a, mid, a', ins, host, q, m);
    MRunConcat(gs, sem, junk, moves, last, m);
    assert last[1..] == [];
    var r := MStep(gs, sem, junk, host, m1);
    assert MRun(gs, sem, junk, last, m1) == r by {
      if r.Next? {
        assert MRun(gs, sem, junk, [], r.s) == r;
      }
    }
  }

  lemma PoolIsFree(cr: set<nat>, opr: Operand)
    requires opr.PGPR? && opr.p in cr - GPR_FIXED && (cr == GPR_ALL || cr == {RSI} || cr == {RCX})
    ensures Free(opr) && (cr == {RSI} ==> opr.p == 6) && (cr == {RCX} ==> opr.p == 1)
  {
  }

  /** What the masks and the immediate classes of the table mean on the machine. */
  lemma FitIsFree(info: VRegsInfo, slots: set<nat>, defined: set<nat>, ins: Inst, host: Inst, k: nat)
    requires WellFormed(info, slots, defined, ins) && Shaped(host) && host.op == ins.op && OperandsFit(ins, host) && HasOperands(ins.op) && k < |host.i|
    ensures Free(host.i[k]) && !host.i[k].Slot? && (host.i[k].Const? ==> Encodes(ins.op, k, host.i[k].val))
    ensures host.i[k].PGPR? && ins.op.GBrind? ==> host.i[k].p == 6
    ensures host.i[k].PGPR? && IsShift(ins.op) && k == 1 ==> host.i[k].p == 1
  {
    ConstraintFacts(ins.op);
    assert Readable(info, slots, defined, ins.i[k]);
    if host.i[k].PGPR? {
      PoolIsFree(Constraints(ins.op).ins[k].cr, host.i[k]);
    }
  }

  lemma OutputIsFree(info: VRegsInfo, slots: set<nat>, defined: set<nat>, ins: Inst, host: Inst)
    requires WellFormed(info, slots, defined, ins) && Shaped(host) && host.op == ins.op && OperandsFit(ins, host) && HasOperands(ins.op) && |ins.o| == 1
    ensures Free(host.o[0])
  {
    if host.o[0].PGPR? {
      PoolIsFree(GPR_ALL, host.o[0]);
    }
  }

  /** Results go to registers, except moves into the slots of globals that are never in one. */
  lemma OutputKind(e: Env, mid: Alloc, b: Alloc, defined: set<nat>, ins: Inst, host: Operand)
    requires WellFormed(e.info, e.slots, defined, ins) && |ins.o| == 1 && OutputPlaced(e, mid, b, ins.o[0], host)
    ensures InRegister(host) || (ins.op.Mov? && host.Slot?)
  {
    assert Writable(e.info, e.slots, ins.op, ins.o[0]);
  }

  lemma SmallImmediate(b: Byte)
    ensures b & 0x80 == 0 <==> b < 128
  {
  }

  /** What is left to see, opcode by opcode. */
  lemma EncodableBy(op: Op, host: Inst)
    requires HasOperands(op) && Shaped(host) && host.op == op
    requires forall k | 0 <= k < |host.i| :: Free(host.i[k]) && !host.i[k].Slot? && (host.i[k].Const? ==> Encodes(op, k, host.i[k].val))
    requires |host.o| == 1 ==> Free(host.o[0]) && (InRegister(host.o[0]) || (op.Mov? && host.o[0].Slot?))
    requires op.Binop? ==> host.o[0] == host.i[0]
    requires op.GBrind? && host.i[0].PGPR? ==> host.i[0].p == 6
    requires IsShift(op) && host.i[1].PGPR? ==> host.i[1].p == 1
    ensures Encodable(host)
  {
    if |host.i| == 2 && host.i[1].Const? {
      SmallImmediate(host.i[1].val.b3);
    }
  }

  /** The rewritten instruction is one that amd64 has, whatever the table of constraints says. */
  lemma HostIsEncodable(e: Env, defined: set<nat>, a: Alloc, mid: Alloc, a': Alloc, ins: Inst, host: Inst)
    requires Translated(e, defined, a, mid, a', ins, host) && WellFormed(e.info, e.slots, defined, ins)
    ensures Encodable(host)
  {
    if HasOperands(ins.op) {
      forall k: nat | k < |host.i| ensures Free(host.i[k]) && !host.i[k].Slot? && (host.i[k].Const? ==> Encodes(ins.op, k, host.i[k].val)) {
        FitIsFree(e.info, e.slots, defined, ins, host, k);
      }
      if |ins.o| == 1 {
        OutputIsFree(e.info, e.slots, defined, ins, host);
      }
      if ins.op.GBrind? {
        FitIsFree(e.info, e.slots, defined, ins, host, 0);
      }
      if IsShift(ins.op) {
        FitIsFree(e.info, e.slots, defined, ins, host, 1);
      }
      if |ins.o| == 1 {
        OutputKind(e, mid, a'.(code := mid.code), defined, ins, host.o[0]);
      }
      EncodableBy(ins.op, host);
    }
  }
  /** So is everything that was emitted for it. */
  lemma TranslatedIsEncodable(e: Env, defined: set<nat>, a: Alloc, mid: Alloc, a': Alloc, ins: Inst, host: Inst)
    requires Translated(e, defined, a, mid, a', ins, host) && WellFormed(e.info, e.slots, defined, ins)
    ensures AllEncodable(Emitted(a, a'))
  {
    HostIsEncodable(e, defined, a, mid, a', ins, host);
    EmittedAppend(a, mid, a', host);
    forall k | 0 <= k < |Emitted(a, mid)| ensures Encodable(Emitted(a, mid)[k]) {
      MoveIsEncodable(Emitted(a, mid)[k]);
    }
  }

  // ---------- Blocks ----------

  /** How one instruction was translated. */
  datatype Emission = Emission(mid: Alloc, after: Alloc, host: Inst)

  ghost predicate CodeTranslated(e: Env, defined: set<nat>, a: Alloc, code: seq<Inst>, trace: seq<Emission>)
    decreases |code|
  {
    && |trace| == |code|
    && (code != [] ==>
          && Translated(e, defined, a, trace[0].mid, trace[0].after, code[0], trace[0].host)
          && CodeTranslated(e, Known(e, defined, code[0]), trace[0].after, code[1..], trace[1..]))
  }

  function Final(a: Alloc, trace: seq<Emission>): Alloc {
    if trace == [] then a else trace[|trace| - 1].after
  }

  function KnownAll(e: Env, defined: set<nat>, code: seq<Inst>): set<nat>
    decreases |code|
  {
    if code == [] then defined else KnownAll(e, Known(e, defined, code[0]), code[1..])
  }

  lemma TranslatedShape(e: Env, defined: set<nat>, a: Alloc, mid: Alloc, a': Alloc, ins: Inst, host: Inst)
    requires Translated(e, defined, a, mid, a', ins, host)
    ensures |a.code| <= |a'.code| && a'.code[..|a.code|] == a.code && AllShaped(Emitted(a, a'))
  {
    EmittedAppend(a, mid, a', host);
    forall k | 0 <= k < |Emitted(a, mid)| ensures Shaped(Emitted(a, mid)[k]) {
      assert IsMove(Emitted(a, mid)[k]);
    }
  }

  lemma {:induction false} CodeShape(e: Env, defined: set<nat>, a: Alloc, code: seq<Inst>, trace: seq<Emission>)
    requires Inv(e, a) && CodeTranslated(e, defined, a, code, trace)
    ensures var b := Final(a, trace); Inv(e, b) && |a.code| <= |b.code| && b.code[..|a.code|] == a.code && AllShaped(Emitted(a, b))
    decreases |code|
  {
    if code == [] {
      assert Emitted(a, a) == [];
    } else {
      var a1, b := trace[0].after, Final(a, trace);
      TranslatedShape(e, defined, a, trace[0].mid, a1, code[0], trace[0].host);
      assert Final(a1, trace[1..]) == b;
      CodeShape(e, Known(e, defined, code[0]), a1, code[1..], trace[1..]);
      EmittedSplit(a, a1, b);
    }
  }

  lemma FirstIsEncodable(e: Env, defined: set<nat>, a: Alloc, code: seq<Inst>, trace: seq<Emission>)
    requires Inv(e, a) && CodeTranslated(e, defined, a, code, trace) && code != [] && WellFormed(e.info, e.slots, defined, code[0])
    ensures var a1, b := trace[0].after, Final(a, trace);
            && Inv(e, a1) && AllEncodable(Emitted(a, a1)) && Final(a1, trace[1..]) == b && CodeTranslated(e, Known(e, defined, code[0]), a1, code[1..], trace[1..])
            && Emitted(a, b) == Emitted(a, a1) + Emitted(a1, b)
  {
    var a1 := trace[0].after;
    TranslatedIsEncodable(e, defined, a, trace[0].mid, a1, code[0], trace[0].host);
    TranslatedShape(e, defined, a, trace[0].mid, a1, code[0], trace[0].host);
    CodeShape(e, Known(e, defined, code[0]), a1, code[1..], trace[1..]);
    EmittedSplit(a, a1, Final(a, trace));
  }

  lemma {:induction false} CodeIsEncodable(e: Env, defined: set<nat>, a: Alloc, code: seq<Inst>, trace: seq<Emission>)
    requires Inv(e, a) && CodeTranslated(e, defined, a, code, trace) && WellFormedCode(e.info, e.slots, defined, code)
    ensures AllEncodable(Emitted(a, Final(a, trace)))
    decreases |code|
  {
    if code == [] {
      assert Emitted(a, a) == [];
    } else {
      FirstIsEncodable(e, defined, a, code, trace);
      if code[0].op.IsTerminator() {
        assert code[1..] == [];
      }
      CodeIsEncodable(e, Known(e, defined, code[0]), trace[0].after, code[1..], trace[1..]);
    }
  }

  /** The code emitted for a list of instructions does what the list does. */
  lemma {:induction false} CodeMatches(e: Env, sem: Semantics, junk: (MState, nat) -> Word, defined: set<nat>, a: Alloc, code: seq<Inst>,
                                       trace: seq<Emission>, q: QState, m: MState)
    requires Inv(e, a) && CodeTranslated(e, defined, a, code, trace) && WellFormedCode(e.info, e.slots, defined, code) && Rel(e, defined, a, q, m)
    ensures AllShaped(code) && AllShaped(Emitted(a, Final(a, trace))) && |Final(a, trace).vregs| == e.info.NumAll()
    ensures Matches(e, KnownAll(e, defined, code), Final(a, trace), QRun(e.info.globals, sem, code, q),
                    MRun(e.info.globals, sem, junk, Emitted(a, Final(a, trace)), m))
    decreases |code|
  {
    WellFormedIsShaped(e.info, e.slots, defined, code);
    CodeShape(e, defined, a, code, trace);
    if code == [] {
      assert Emitted(a, a) == [];
    } else {
      var a1, rest := trace[0].after, Known(e, defined, code[0]);
      TranslatedMatches(e, sem, junk, defined, a, trace[0].mid, a1, code[0], trace[0].host, q, m);
      CodeShape(e, rest, a1, code[1..], trace[1..]);
      var r, r' := QStep(e.info.globals, sem, code[0], q), MRun(e.info.globals, sem, junk, Emitted(a, a1), m);
      if r.Next? {
        if code[0].op.IsTerminator() {
          assert code[1..] == [];
        }
        CodeMatches(e, sem, junk, rest, a1, code[1..], trace[1..], r.s, r'.s);
      }
      FirstAndRest(e, sem, junk, defined, a, code, trace, q, m);
    }
  }

  /** The first instruction and the others, each matched, make the whole list match. */
  lemma FirstAndRest(e: Env, sem: Semantics, junk: (MState, nat) -> Word, defined: set<nat>, a: Alloc, code: seq<Inst>,
                     trace: seq<Emission>, q: QState, m: MState)
    requires Inv(e, a) && CodeTranslated(e, defined, a, code, trace) && code != [] && AllShaped(code) && |Final(a, trace).vregs| == e.info.NumAll()
    requires var a1, rest := trace[0].after, Known(e, defined, code[0]);
             && AllShaped(Emitted(a, a1)) && AllShaped(Emitted(a1, Final(a1, trace[1..]))) && |Final(a1, trace[1..]).vregs| == e.info.NumAll()
             && var r, r' := QStep(e.info.globals, sem, code[0], q), MRun(e.info.globals, sem, junk, Emitted(a, a1), m);
             && Matches(e, rest, a1, r, r')
             && (r.Next? ==> Matches(e, KnownAll(e, rest, code[1..]), Final(a1, trace[1..]), QRun(e.info.globals, sem, code[1..], r.s),
                                     MRun(e.info.globals, sem, junk, Emitted(a1, Final(a1, trace[1..])), r'.s)))
    ensures AllShaped(Emitted(a, Final(a, trace)))
    ensures Matches(e, KnownAll(e, defined, code), Final(a, trace), QRun(e.info.globals, sem, code, q),
                    MRun(e.info.globals, sem, junk, Emitted(a, Final(a, trace)), m))
  {
    var a1, b, rest := trace[0].after, Final(a, trace), Known(e, defined, code[0]);
    TranslatedShape(e, defined, a, trace[0].mid, a1, code[0], trace[0].host);
    assert Final(a1, trace[1..]) == b;
    CodeShape(e, rest, a1, code[1..], trace[1..]);
    EmittedSplit(a, a1, b);
    Joined(e, sem, junk, rest, a1, KnownAll(e, defined, code), b, code, Emitted(a, a1), Emitted(a1, b), q, m);
  }

  /** Matching first parts and matching rests make matching wholes. */
  lemma Joined(e: Env, sem: Semantics, junk: (MState, nat) -> Word, rest: set<nat>, a1: Alloc, final: set<nat>, b: Alloc, code: seq<Inst>,
               c1: seq<Inst>, c2: seq<Inst>, q: QState, m: MState)
    requires code != [] && AllShaped(code) && AllShaped(c1) && AllShaped(c2) && |a1.vregs| == |b.vregs| == e.info.NumAll()
    requires Matches(e, rest, a1, QStep(e.info.globals, sem, code[0], q), MRun(e.info.globals, sem, junk, c1, m))
    requires var r, r' := QStep(e.info.globals, sem, code[0], q), MRun(e.info.globals, sem, junk, c1, m);
             r.Next? ==> Matches(e, final, b, QRun(e.info.globals, sem, code[1..], r.s), MRun(e.info.globals, sem, junk, c2, r'.s))
    ensures AllShaped(c1 + c2)
    ensures Matches(e, final, b, QRun(e.info.globals, sem, code, q), MRun(e.info.globals, sem, junk, c1 + c2, m))
  {
    MRunConcat(e.info.globals, sem, junk, c1, c2, m);
  }

  // ---------- Regions ----------

  /** A block was allocated from a state with all globals in memory. */
  ghost predicate BlockTranslated(e: Env, block: Block, block': Block, start: Alloc, trace: seq<Emission>) {
    && Inv(e, start) && start.code == [] && AllInMemory(e, start) && WellFormedBlock(e.info, e.slots, block)
    && CodeTranslated(e, {}, start, block.code, trace) && block' == Block(Final(start, trace).code, block.succs)
  }

  ghost predicate RegionTranslated(e: Env, blocks: seq<Block>, blocks': seq<Block>, starts: seq<Alloc>, traces: seq<seq<Emission>>) {
    && |blocks| == |blocks'| == |starts| == |traces|
    && forall b: nat {:trigger blocks'[b]} | b < |blocks| :: BlockTranslated(e, blocks[b], blocks'[b], starts[b], traces[b])
  }

  lemma TranslatedRegionShape(e: Env, blocks: seq<Block>, blocks': seq<Block>, starts: seq<Alloc>, traces: seq<seq<Emission>>)
    requires RegionTranslated(e, blocks, blocks', starts, traces)
    ensures RegionShaped(blocks) && RegionShaped(blocks')
  {
    forall b: nat | b < |blocks|
      ensures AllShaped(blocks[b].code) && AllShaped(blocks'[b].code)
    {
      assert BlockTranslated(e, blocks[b], blocks'[b], starts[b], traces[b]);
      WellFormedIsShaped(e.info, e.slots, {}, blocks[b].code);
      CodeShape(e, {}, starts[b], blocks[b].code, traces[b]);
      assert Emitted(starts[b], Final(starts[b], traces[b])) == blocks'[b].code;
    }
  }

  /** Same block with the same guest state, or the same exit with the same guest state. */
  ghost predicate SameRun(e: Env, r: RunResult<QState>, r': RunResult<MState>) {
    match r
    case Running(b, q) => r'.Running? && r'.b == b && Precise(e, q, r'.s)
    case Exited(exit, q) => r'.Exited? && r'.exit == exit && Precise(e, q, r'.s)
    case Wild => r'.Wild?
  }

  /** Both blocks end in the same way. */
  ghost predicate SameEnd(e: Env, r: Result<QState>, r': Result<MState>) {
    match r
    case Next(q) => r'.Next?
    case Goto(k, q) => r'.Goto? && r'.k == k && Precise(e, q, r'.s) && e.info.NumAll() <= |q.vregs|
    case Leave(exit, q) => r'.Leave? && r'.exit == exit && Precise(e, q, r'.s)
  }

  /** One block of both regions. */
  lemma BlockMatches(e: Env, sem: Semantics, junk: (MState, nat) -> Word, block: Block, block': Block, a: Alloc, trace: seq<Emission>, q: QState, m: MState)
    requires BlockTranslated(e, block, block', a, trace) && Precise(e, q, m) && e.info.NumAll() <= |q.vregs|
    ensures AllShaped(block.code) && AllShaped(block'.code) && block'.succs == block.succs
    ensures SameEnd(e, QRun(e.info.globals, sem, block.code, q), MRun(e.info.globals, sem, junk, block'.code, m))
  {
    PreciseEntersBlock(e, a, q, m);
    assert Emitted(a, Final(a, trace)) == block'.code;
    CodeMatches(e, sem, junk, {}, a, block.code, trace, q, m);
  }

  /** Register allocation preserves meaning: after any number of blocks, the allocated region is where
      the original one is, with the same globals and guest memory. */
  lemma {:induction false} RegionMatches(e: Env, sem: Semantics, junk: (MState, nat) -> Word, blocks: seq<Block>, blocks': seq<Block>,
                                         starts: seq<Alloc>, traces: seq<seq<Emission>>, n: nat, b: nat, q: QState, m: MState)
    requires RegionTranslated(e, blocks, blocks', starts, traces) && Precise(e, q, m) && e.info.NumAll() <= |q.vregs|
    ensures RegionShaped(blocks) && RegionShaped(blocks')
    ensures SameRun(e, QRunRegion(e.info.globals, sem, blocks, n, b, q), MRunRegion(e.info.globals, sem, junk, blocks', n, b, m))
    decreases n
  {
    TranslatedRegionShape(e, blocks, blocks', starts, traces);
    if n > 0 && b < |blocks| {
      var gs := e.info.globals;
      assert BlockTranslated(e, blocks[b], blocks'[b], starts[b], traces[b]);
      BlockMatches(e, sem, junk, blocks[b], blocks'[b], starts[b], traces[b], q, m);
      var r, r' := QRun(gs, sem, blocks[b].code, q), MRun(gs, sem, junk, blocks'[b].code, m);
      if r.Goto? && r.k < |blocks[b].succs| {
        RegionMatches(e, sem, junk, blocks, blocks', starts, traces, n - 1, blocks[b].succs[r.k], r.s, r'.s);
      }
      BlockThenRest(e, sem, junk, blocks, blocks', n, b, q, m);
    }
  }

  /** A block that ends in the same way and matching runs afterwards. */
  lemma BlockThenRest(e: Env, sem: Semantics, junk: (MState, nat) -> Word, blocks: seq<Block>, blocks': seq<Block>, n: nat, b: nat, q: QState, m: MState)
    requires RegionShaped(blocks) && RegionShaped(blocks') && n > 0 && b < |blocks| == |blocks'| && blocks'[b].succs == blocks[b].succs
    requires SameEnd(e, QRun(e.info.globals, sem, blocks[b].code, q), MRun(e.info.globals, sem, junk, blocks'[b].code, m))
    requires var r, r' := QRun(e.info.globals, sem, blocks[b].code, q), MRun(e.info.globals, sem, junk, blocks'[b].code, m);
             r.Goto? && r.k < |blocks[b].succs| ==>
               SameRun(e, QRunRegion(e.info.globals, sem, blocks, n - 1, blocks[b].succs[r.k], r.s),
                       MRunRegion(e.info.globals, sem, junk, blocks', n - 1, blocks[b].succs[r.k], r'.s))
    ensures SameRun(e, QRunRegion(e.info.globals, sem, blocks, n, b, q), MRunRegion(e.info.globals, sem, junk, blocks', n, b, m))
  {
  }
}
