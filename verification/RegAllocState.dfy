/** The state of the register allocator of `dbt/qmc/qcg/qra.cpp` and its relation to running code: where
    each virtual register lives, what keeps that bookkeeping consistent, and what it says about a host
    machine that executes the code emitted so far. */
module RegAllocState {
  import opened Common
  import opened Qir
  import opened ArchTraits
  import opened HostMachine

  datatype Location = DEAD | MEM | REG

  datatype RTrack = RTrack(ty: VType, isGlobal: bool, spillOffs: Option<nat>, p: nat, loc: Location, synced: bool)

  /** Tracks of the virtual registers, owner of each host register, used part of the spill frame, and
      the code emitted so far. */
  datatype Alloc = Alloc(vregs: seq<RTrack>, p2v: seq<Option<nat>>, frameCur: nat, code: seq<Inst>)

  /** What does not change during allocation: the registers of the region, the globals that are only
      reached through their slots, and the size of `CPUState`. */
  datatype Env = Env(info: VRegsInfo, slots: set<nat>, cpuSize: nat)

  // ---------- Consistency ----------

  /** Locals that own a slot in the spill frame. */
  ghost function SlotCount(vregs: seq<RTrack>): nat {
    if vregs == [] then 0
    else SlotCount(vregs[..|vregs| - 1]) +
         if !vregs[|vregs| - 1].isGlobal && vregs[|vregs| - 1].spillOffs.Some? then 1 else 0
  }

  ghost predicate TrackOk(e: Env, a: Alloc, v: nat)
    requires |a.vregs| == e.info.NumAll() && |a.p2v| == GPR_NUM && v < |a.vregs|
  {
    var t := a.vregs[v];
    && t.ty == e.info.TypeOf(v) && t.isGlobal == e.info.IsGlobal(v)
    && (t.isGlobal ==> t.spillOffs == Some(e.info.globals[v].offs) && t.loc != DEAD)
    && (v in e.slots ==> t.loc == MEM)
    && (t.loc == REG ==> t.p < GPR_NUM && t.p !in GPR_FIXED && a.p2v[t.p] == Some(v))
    && (t.loc == REG && t.synced ==> t.spillOffs.Some?)
    && (!t.isGlobal && t.spillOffs.Some? ==>
          t.spillOffs.value % Size(t.ty) == 0 && t.spillOffs.value + Size(t.ty) <= a.frameCur)
  }

  ghost predicate OwnerOk(a: Alloc, p: nat)
    requires |a.p2v| == GPR_NUM && p < GPR_NUM
  {
    a.p2v[p].Some? ==>
      var v := a.p2v[p].value; v < |a.vregs| && a.vregs[v].loc == REG && a.vregs[v].p == p
  }

  /** The slots of two tracks do not overlap. */
  ghost predicate SlotsApart(a: Alloc, u: nat, v: nat)
    requires u < |a.vregs| && v < |a.vregs|
  {
    var s, t := a.vregs[u], a.vregs[v];
    u != v && s.isGlobal == t.isGlobal && s.spillOffs.Some? && t.spillOffs.Some? ==>
      Disjoint(s.spillOffs.value, s.ty, t.spillOffs.value, t.ty)
  }

  ghost predicate Inv(e: Env, a: Alloc) {
    && |a.vregs| == e.info.NumAll() && |a.p2v| == GPR_NUM
    && (forall v: nat {:trigger TrackOk(e, a, v)} | v < |a.vregs| :: TrackOk(e, a, v))
    && (forall p: nat {:trigger OwnerOk(a, p)} | p < GPR_NUM :: OwnerOk(a, p))
    && (forall u: nat, v: nat {:trigger SlotsApart(a, u, v)} | u < |a.vregs| && v < |a.vregs| :: SlotsApart(a, u, v))
    && a.frameCur <= SPILLFRAME_SIZE && a.frameCur <= 4 * SlotCount(a.vregs)
    && LayoutOk(e.info.globals, e.cpuSize) && (forall g | g in e.slots :: e.info.IsGlobal(g))
  }

  // ---------- Relation to running code ----------

  /** The slot of a track holds `val`. */
  ghost predicate SlotHolds(t: RTrack, val: Word, m: MState) {
    t.spillOffs.Some? && LoadSlot(if t.isGlobal then m.cpu else m.frame, t.spillOffs.value, t.ty) == val
  }

  /** The value of a virtual register can be found where its track says. */
  ghost predicate ValueOk(t: RTrack, val: Word, m: MState) {
    && val == Trunc(t.ty, val)
    && match t.loc
       case REG => t.p < |m.regs| && Trunc(t.ty, m.regs[t.p]) == val && (t.synced ==> SlotHolds(t, val, m))
       case MEM => SlotHolds(t, val, m)
       case DEAD => false
  }

  /** Virtual registers whose values matter: globals, and locals that have been assigned. */
  predicate Live(e: Env, defined: set<nat>, v: nat) {
    v < e.info.NumAll() && (e.info.IsGlobal(v) || v in defined)
  }

  ghost predicate Sized(e: Env, m: MState) {
    |m.regs| == GPR_NUM && |m.cpu| == e.cpuSize && |m.frame| == SPILLFRAME_SIZE
  }

  ghost predicate Rel(e: Env, defined: set<nat>, a: Alloc, q: QState, m: MState)
    requires |a.vregs| == e.info.NumAll()
  {
    && Sized(e, m) && e.info.NumAll() <= |q.vregs| && q.mem == m.mem
    && forall v: nat {:trigger ValueOk(a.vregs[v], q.vregs[v], m)} | Live(e, defined, v) :: ValueOk(a.vregs[v], q.vregs[v], m)
  }

  /** A register that may be read has a place to be read from. */
  ghost predicate HasPlace(t: RTrack) {
    t.loc != DEAD && (t.loc == MEM ==> t.spillOffs.Some?)
  }

  ghost predicate Ready(e: Env, defined: set<nat>, a: Alloc)
    requires |a.vregs| == e.info.NumAll()
  {
    forall v: nat {:trigger HasPlace(a.vregs[v])} | Live(e, defined, v) :: HasPlace(a.vregs[v])
  }

  /** From `a` the allocator has gone to `a'` by emitting moves only.  They write no register in
      `keep`, registers in `keep` keep their owners, and the moves carry every machine that matches
      `a` to one that matches `a'`. */
  ghost predicate Step(e: Env, defined: set<nat>, keep: set<nat>, a: Alloc, a': Alloc) {
    && Inv(e, a) && Inv(e, a') && Ready(e, defined, a) && Ready(e, defined, a')
    && |a.code| <= |a'.code| && a'.code[..|a.code|] == a.code
    && AllMoves(Emitted(a, a')) && WritesOutside(Emitted(a, a'), keep)
    && (forall v: nat {:trigger StaysIn(keep, a, a', v)} | v < |a.vregs| :: StaysIn(keep, a, a', v))
    && forall q, m {:trigger Carries(e, defined, a, a', q, m)} :: Carries(e, defined, a, a', q, m)
  }

  ghost function Emitted(a: Alloc, a': Alloc): seq<Inst> {
    if |a.code| <= |a'.code| then a'.code[|a.code|..] else []
  }

  ghost predicate StaysIn(keep: set<nat>, a: Alloc, a': Alloc, v: nat)
    requires |a.vregs| == |a'.vregs| && v < |a.vregs|
  {
    && (a.vregs[v].loc == REG && a.vregs[v].p in keep ==> a'.vregs[v].loc == REG && a'.vregs[v].p == a.vregs[v].p)
    && (a'.vregs[v].loc == REG && a'.vregs[v].p in keep ==> a.vregs[v].loc == REG && a.vregs[v].p == a'.vregs[v].p)
  }

  ghost predicate Carries(e: Env, defined: set<nat>, a: Alloc, a': Alloc, q: QState, m: MState)
    requires |a.vregs| == |a'.vregs| == e.info.NumAll() && AllMoves(Emitted(a, a'))
  {
    Rel(e, defined, a, q, m) ==> Rel(e, defined, a', q, RunMoves(Emitted(a, a'), m))
  }

  /** Code that was emitted in two parts. */
  lemma EmittedSplit(a: Alloc, b: Alloc, c: Alloc)
    requires |a.code| <= |b.code| <= |c.code| && b.code[..|a.code|] == a.code && c.code[..|b.code|] == b.code
    ensures c.code[..|a.code|] == a.code && Emitted(a, c) == Emitted(a, b) + Emitted(b, c)
  {
    assert c.code[..|a.code|] == c.code[..|b.code|][..|a.code|];
    assert c.code == b.code + Emitted(b, c) && b.code == a.code + Emitted(a, b);
  }

  lemma EmittedAppend(a: Alloc, b: Alloc, c: Alloc, ins: Inst)
    requires |a.code| <= |b.code| && b.code[..|a.code|] == a.code && c.code == b.code + [ins]
    ensures |a.code| <= |c.code| && c.code[..|a.code|] == a.code && Emitted(a, c) == Emitted(a, b) + [ins]
  {
    assert c.code[..|b.code|] == b.code && Emitted(b, c) == [ins];
    EmittedSplit(a, b, c);
  }

  lemma StepReflexive(e: Env, defined: set<nat>, keep: set<nat>, a: Alloc)
    requires Inv(e, a) && Ready(e, defined, a)
    ensures Step(e, defined, keep, a, a)
  {
    assert Emitted(a, a) == [];
  }

  lemma StepTransitive(e: Env, defined: set<nat>, keep: set<nat>, a: Alloc, b: Alloc, c: Alloc)
    requires Step(e, defined, keep, a, b) && Step(e, defined, keep, b, c)
    ensures Step(e, defined, keep, a, c)
  {
    var c1, c2 := Emitted(a, b), Emitted(b, c);
    assert a.code == b.code[..|a.code|] == c.code[..|a.code|];
    assert Emitted(a, c) == c1 + c2;
    forall v: nat | v < |a.vregs|
      ensures StaysIn(keep, a, c, v)
    {
      assert StaysIn(keep, a, b, v) && StaysIn(keep, b, c, v);
    }
    forall q, m
      ensures Carries(e, defined, a, c, q, m)
    {
      assert Carries(e, defined, a, b, q, m);
      assert Carries(e, defined, b, c, q, RunMoves(c1, m));
      RunMovesConcat(c1, c2, m);
    }
  }

  // ---------- Single steps ----------

  /** A value survives changes elsewhere in the machine. */
  lemma ValueSurvives(t: RTrack, val: Word, m: MState, m': MState)
    requires ValueOk(t, val, m) && |m'.regs| == |m.regs|
    requires t.loc == REG ==> m'.regs[t.p] == m.regs[t.p]
    requires t.spillOffs.Some? ==>
               LoadSlot(if t.isGlobal then m'.cpu else m'.frame, t.spillOffs.value, t.ty) ==
               LoadSlot(if t.isGlobal then m.cpu else m.frame, t.spillOffs.value, t.ty)
    ensures ValueOk(t, val, m')
  {
  }

  /** Emits one move and changes one track and possibly one owner. */
  function Emit(a: Alloc, v: nat, t: RTrack, p2v: seq<Option<nat>>, mov: Inst): Alloc
    requires v < |a.vregs|
  {
    Alloc(a.vregs[v := t], p2v, a.frameCur, a.code + [mov])
  }

  lemma EmittedOne(a: Alloc, a': Alloc, mov: Inst)
    requires a'.code == a.code + [mov] && IsMove(mov)
    ensures Emitted(a, a') == [mov] && AllMoves(Emitted(a, a')) && a'.code[..|a.code|] == a.code
    ensures forall m :: RunMoves(Emitted(a, a'), m) == MWrite(m, mov.o[0], MRead(m, mov.i[0]))
  {
    assert Emitted(a, a') == [mov];
    forall m
      ensures RunMoves([mov], m) == MWrite(m, mov.o[0], MRead(m, mov.i[0]))
    {
      var m' := MWrite(m, mov.o[0], MRead(m, mov.i[0]));
      assert [mov][1..] == [] && RunMoves([], m') == m';
    }
  }

  function SlotOf(t: RTrack): Operand
    requires t.spillOffs.Some?
  {
    Slot(t.isGlobal, t.ty, t.spillOffs.value)
  }

  /** Storing a register into its own slot leaves every other slot alone. */
  lemma StoreKeepsOthers(e: Env, a: Alloc, v: nat, u: nat, w: Word, m: MState)
    requires Inv(e, a) && v < |a.vregs| && u < |a.vregs| && u != v && a.vregs[v].spillOffs.Some? && a.vregs[u].spillOffs.Some?
    ensures var t, m' := a.vregs[u], MWrite(m, SlotOf(a.vregs[v]), w);
            LoadSlot(if t.isGlobal then m'.cpu else m'.frame, t.spillOffs.value, t.ty) ==
            LoadSlot(if t.isGlobal then m.cpu else m.frame, t.spillOffs.value, t.ty)
  {
    var s, t := a.vregs[v], a.vregs[u];
    if s.isGlobal == t.isGlobal {
      assert SlotsApart(a, v, u);
      StoreElsewhere(if s.isGlobal then m.cpu else m.frame, s.spillOffs.value, s.ty, w, t.spillOffs.value, t.ty);
    }
  }

  lemma SlotFits(e: Env, a: Alloc, v: nat)
    requires Inv(e, a) && v < |a.vregs| && a.vregs[v].spillOffs.Some?
    ensures var t := a.vregs[v]; t.spillOffs.value + Size(t.ty) <= if t.isGlobal then e.cpuSize else SPILLFRAME_SIZE
  {
    assert TrackOk(e, a, v);
  }

  /** Changing only the `synced` flag of a track with a slot keeps the bookkeeping consistent. */
  lemma SyncedInv(e: Env, a: Alloc, a': Alloc, v: nat)
    requires Inv(e, a) && v < |a.vregs| && a.vregs[v].spillOffs.Some?
    requires a'.vregs == a.vregs[v := a.vregs[v].(synced := true)] && a'.p2v == a.p2v && a'.frameCur == a.frameCur
    ensures Inv(e, a')
  {
    SlotCountSame(a.vregs, a'.vregs);
    forall u: nat | u < |a'.vregs| ensures TrackOk(e, a', u) {
      assert TrackOk(e, a, u);
    }
    forall p: nat | p < GPR_NUM ensures OwnerOk(a', p) {
      assert OwnerOk(a, p);
    }
    forall u: nat, w: nat | u < |a'.vregs| && w < |a'.vregs| ensures SlotsApart(a', u, w) {
      assert SlotsApart(a, u, w);
    }
  }

  lemma {:induction false} SlotCountSame(s: seq<RTrack>, s': seq<RTrack>)
    requires |s| == |s'| && forall k | 0 <= k < |s| :: s[k].isGlobal == s'[k].isGlobal && s[k].spillOffs.Some? == s'[k].spillOffs.Some?
    ensures SlotCount(s) == SlotCount(s')
  {
    if s != [] {
      SlotCountSame(s[..|s| - 1], s'[..|s| - 1]);
    }
  }

  /** SyncSpill of a register that has a slot. */
  lemma SpillStep(e: Env, defined: set<nat>, keep: set<nat>, a: Alloc, v: nat, a': Alloc)
    requires Inv(e, a) && Ready(e, defined, a) && v < |a.vregs| && a.vregs[v].loc == REG && a.vregs[v].spillOffs.Some?
    requires var t := a.vregs[v]; a' == Emit(a, v, t.(synced := true), a.p2v, MakeMov(SlotOf(t), PGPR(t.ty, t.p)))
    ensures Step(e, defined, keep, a, a')
  {
    var t := a.vregs[v];
    assert TrackOk(e, a, v);
    EmittedOne(a, a', MakeMov(SlotOf(t), PGPR(t.ty, t.p)));
    SyncedInv(e, a, a', v);
    SlotFits(e, a, v);
    assert TrackOk(e, a, v);
    forall u: nat | Live(e, defined, u) ensures HasPlace(a'.vregs[u]) {
      assert HasPlace(a.vregs[u]) && TrackOk(e, a, u);
    }
    forall u: nat | u < |a.vregs| ensures StaysIn(keep, a, a', u) {
    }
    forall q, m
      ensures Carries(e, defined, a, a', q, m)
    {
      if Rel(e, defined, a, q, m) {
        SpillCarries(e, defined, a, v, a', q, m);
      }
    }
  }

  lemma SpillCarries(e: Env, defined: set<nat>, a: Alloc, v: nat, a': Alloc, q: QState, m: MState)
    requires Inv(e, a) && v < |a.vregs| && a.vregs[v].loc == REG && a.vregs[v].spillOffs.Some?
    requires a'.vregs == a.vregs[v := a.vregs[v].(synced := true)] && Rel(e, defined, a, q, m)
    ensures var t := a.vregs[v]; Rel(e, defined, a', q, MWrite(m, SlotOf(t), MRead(m, PGPR(t.ty, t.p))))
  {
    var t := a.vregs[v];
    assert TrackOk(e, a, v);
    SlotFits(e, a, v);
    var w := MRead(m, PGPR(t.ty, t.p));
    var m' := MWrite(m, SlotOf(t), w);
    StoreThenLoad(if t.isGlobal then m.cpu else m.frame, t.spillOffs.value, t.ty, w);
    forall u: nat | Live(e, defined, u)
      ensures ValueOk(a'.vregs[u], q.vregs[u], m')
    {
      assert ValueOk(a.vregs[u], q.vregs[u], m);
      if u != v {
        if a.vregs[u].spillOffs.Some? {
          StoreKeepsOthers(e, a, v, u, w, m);
        }
        ValueSurvives(a.vregs[u], q.vregs[u], m, m');
      }
    }
  }

  // ---------- Frame slots ----------

  function RoundUp(x: nat, y: nat): nat
    requires y > 0
  {
    (x + (y - 1)) / y * y
  }

  lemma RoundUpTo1(x: nat, z: nat)
    ensures RoundUp(x, 1) == x && x % 1 == 0
  {
  }

  lemma HalfBounds(x: nat, k: nat)
    requires k == x / 2
    ensures x - 1 <= k * 2 <= x && (k * 2) % 2 == 0
  {
  }

  lemma RoundUpTo2(x: nat, z: nat)
    ensures x <= RoundUp(x, 2) && RoundUp(x, 2) % 2 == 0 && (x <= 4 * z ==> RoundUp(x, 2) <= 4 * z)
  {
    var k := (x + 1) / 2;
    HalfBounds(x + 1, k);
    assert x <= 4 * z ==> k <= 2 * z;
    assert RoundUp(x, 2) == k * 2;
  }

  lemma RoundUpTo4(x: nat, z: nat)
    ensures x <= RoundUp(x, 4) && RoundUp(x, 4) % 4 == 0 && (x <= 4 * z ==> RoundUp(x, 4) <= 4 * z)
  {
    var k := (x + 3) / 4;
    assert RoundUp(x, 4) == 4 * k && x <= 4 * k <= x + 3;
    assert 4 * k % 4 == 0;
  }

  lemma RoundUpFacts(x: nat, t: VType, z: nat)
    ensures x <= RoundUp(x, Size(t)) && RoundUp(x, Size(t)) % Size(t) == 0
    ensures x <= 4 * z ==> RoundUp(x, Size(t)) <= 4 * z
  {
    RoundUpTo1(x, z);
    RoundUpTo2(x, z);
    RoundUpTo4(x, z);
    assert Size(t) == 1 || Size(t) == 2 || Size(t) == 4;
  }

  lemma {:induction false} SlotCountAdd(s: seq<RTrack>, v: nat, t: RTrack)
    requires v < |s| && !s[v].isGlobal && s[v].spillOffs.None? && !t.isGlobal && t.spillOffs.Some?
    ensures SlotCount(s[v := t]) == SlotCount(s) + 1
  {
    var n := |s| - 1;
    if v == n {
      assert s[v := t][..n] == s[..n];
    } else {
      assert s[v := t][..n] == s[..n][v := t];
      SlotCountAdd(s[..n], v, t);
    }
  }

  /** Locals without a slot leave room: the frame cannot overflow with at most 256 locals. */
  lemma {:induction false} SlotCountBound(s: seq<RTrack>, globals: nat)
    requires forall k | 0 <= k < |s| :: s[k].isGlobal <==> k < globals
    ensures SlotCount(s) <= if globals < |s| then |s| - globals else 0
    ensures (exists v :: globals <= v < |s| && s[v].spillOffs.None?) ==> SlotCount(s) < |s| - globals
  {
    if s != [] {
      SlotCountBound(s[..|s| - 1], globals);
      if v :| globals <= v < |s| && s[v].spillOffs.None? {
        if v < |s| - 1 {
          assert s[..|s| - 1][v] == s[v];
        }
      }
    }
  }

  function WithSlot(a: Alloc, v: nat): Alloc
    requires v < |a.vregs|
  {
    var t := a.vregs[v];
    var offs := RoundUp(a.frameCur, Size(t.ty));
    Alloc(a.vregs[v := t.(spillOffs := Some(offs))], a.p2v, offs + Size(t.ty), a.code)
  }

  /** AllocFrameSlot: the new slot is aligned, inside the frame and apart from all others. */
  lemma FrameSlotInv(e: Env, a: Alloc, v: nat)
    requires Inv(e, a) && v < |a.vregs| && !a.vregs[v].isGlobal && a.vregs[v].spillOffs.None?
    requires RoundUp(a.frameCur, Size(a.vregs[v].ty)) + Size(a.vregs[v].ty) <= SPILLFRAME_SIZE
    ensures Inv(e, WithSlot(a, v))
  {
    var t, a' := a.vregs[v], WithSlot(a, v);
    RoundUpFacts(a.frameCur, t.ty, SlotCount(a.vregs));
    SlotCountAdd(a.vregs, v, a'.vregs[v]);
    forall u: nat | u < |a'.vregs| ensures TrackOk(e, a', u) {
      assert TrackOk(e, a, u);
    }
    forall p: nat | p < GPR_NUM ensures OwnerOk(a', p) {
      assert OwnerOk(a, p);
    }
    forall u: nat, w: nat | u < |a'.vregs| && w < |a'.vregs| ensures SlotsApart(a', u, w) {
      assert SlotsApart(a, u, w) && TrackOk(e, a, u) && TrackOk(e, a, w);
    }
  }

  lemma FrameSlotStep(e: Env, defined: set<nat>, keep: set<nat>, a: Alloc, v: nat)
    requires Inv(e, a) && Ready(e, defined, a) && v < |a.vregs| && !a.vregs[v].isGlobal && a.vregs[v].spillOffs.None?
    requires RoundUp(a.frameCur, Size(a.vregs[v].ty)) + Size(a.vregs[v].ty) <= SPILLFRAME_SIZE
    ensures Step(e, defined, keep, a, WithSlot(a, v))
  {
    var a' := WithSlot(a, v);
    FrameSlotInv(e, a, v);
    assert Emitted(a, a') == [];
    assert TrackOk(e, a, v);
    forall u: nat | Live(e, defined, u) ensures HasPlace(a'.vregs[u]) {
      assert HasPlace(a.vregs[u]) && TrackOk(e, a, u);
    }
    forall u: nat | u < |a.vregs| ensures StaysIn(keep, a, a', u) {
    }
    forall q, m
      ensures Carries(e, defined, a, a', q, m)
    {
      if Rel(e, defined, a, q, m) {
        forall u: nat | Live(e, defined, u)
          ensures ValueOk(a'.vregs[u], q.vregs[u], m)
        {
          assert ValueOk(a.vregs[u], q.vregs[u], m);
        }
      }
    }
  }

  /** The panic for a full frame cannot happen in a region with at most 256 locals. */
  lemma FrameNeverFull(e: Env, a: Alloc, v: nat)
    requires Inv(e, a) && v < |a.vregs| && !a.vregs[v].isGlobal && a.vregs[v].spillOffs.None? && |e.info.locals| <= 256
    ensures RoundUp(a.frameCur, Size(a.vregs[v].ty)) + Size(a.vregs[v].ty) <= SPILLFRAME_SIZE
  {
    forall k: nat | k < |a.vregs| ensures a.vregs[k].isGlobal <==> k < |e.info.globals| {
      assert TrackOk(e, a, k);
    }
    SlotCountBound(a.vregs, |e.info.globals|);
    RoundUpFacts(a.frameCur, a.vregs[v].ty, SlotCount(a.vregs));
  }

  // ---------- Releasing and filling registers ----------

  function WithoutReg(a: Alloc, v: nat): Alloc
    requires v < |a.vregs| && a.vregs[v].p < |a.p2v|
  {
    a.(vregs := a.vregs[v := a.vregs[v].(loc := MEM)], p2v := a.p2v[a.vregs[v].p := None])
  }

  lemma ReleaseInv(e: Env, a: Alloc, v: nat)
    requires Inv(e, a) && v < |a.vregs| && a.vregs[v].loc == REG && a.vregs[v].p < |a.p2v|
    ensures Inv(e, WithoutReg(a, v))
  {
    var a' := WithoutReg(a, v);
    assert TrackOk(e, a, v);
    SlotCountSame(a.vregs, a'.vregs);
    forall u: nat | u < |a'.vregs| ensures TrackOk(e, a', u) {
      assert TrackOk(e, a, u);
    }
    forall p: nat | p < GPR_NUM ensures OwnerOk(a', p) {
      assert OwnerOk(a, p);
    }
    forall u: nat, w: nat | u < |a'.vregs| && w < |a'.vregs| ensures SlotsApart(a', u, w) {
      assert SlotsApart(a, u, w);
    }
  }

  /** Release of a register whose slot is up to date. */
  lemma ReleaseStep(e: Env, defined: set<nat>, keep: set<nat>, a: Alloc, v: nat)
    requires Inv(e, a) && Ready(e, defined, a) && v < |a.vregs| && a.vregs[v].loc == REG && a.vregs[v].p < |a.p2v| && a.vregs[v].p !in keep
    requires a.vregs[v].synced || !Live(e, defined, v)
    ensures Step(e, defined, keep, a, WithoutReg(a, v))
  {
    var a' := WithoutReg(a, v);
    ReleaseInv(e, a, v);
    assert Emitted(a, a') == [];
    forall u: nat | Live(e, defined, u) ensures HasPlace(a'.vregs[u]) {
      assert HasPlace(a.vregs[u]) && TrackOk(e, a, u);
    }
    forall u: nat | u < |a.vregs| ensures StaysIn(keep, a, a', u) {
    }
    forall q, m
      ensures Carries(e, defined, a, a', q, m)
    {
      if Rel(e, defined, a, q, m) {
        forall u: nat | Live(e, defined, u)
          ensures ValueOk(a'.vregs[u], q.vregs[u], m)
        {
          assert ValueOk(a.vregs[u], q.vregs[u], m);
        }
      }
    }
  }

  /** Release of a register that is not in `REG`: dead locals get the location of their slot. */
  lemma DropStep(e: Env, defined: set<nat>, keep: set<nat>, a: Alloc, v: nat)
    requires Inv(e, a) && Ready(e, defined, a) && v < |a.vregs| && a.vregs[v].loc != REG
    ensures Step(e, defined, keep, a, a.(vregs := a.vregs[v := a.vregs[v].(loc := MEM)]))
  {
    var a' := a.(vregs := a.vregs[v := a.vregs[v].(loc := MEM)]);
    SlotCountSame(a.vregs, a'.vregs);
    assert Emitted(a, a') == [];
    assert Inv(e, a') by {
      forall u: nat | u < |a'.vregs| ensures TrackOk(e, a', u) { assert TrackOk(e, a, u); }
      forall p: nat | p < GPR_NUM ensures OwnerOk(a', p) { assert OwnerOk(a, p); }
      forall u: nat, w: nat | u < |a'.vregs| && w < |a'.vregs| ensures SlotsApart(a', u, w) { assert SlotsApart(a, u, w); }
    }
    forall u: nat | Live(e, defined, u) ensures HasPlace(a'.vregs[u]) && a'.vregs[u] == a.vregs[u] {
      assert HasPlace(a.vregs[u]);
    }
    forall u: nat | u < |a.vregs| ensures StaysIn(keep, a, a', u) {
    }
    forall q, m
      ensures Carries(e, defined, a, a', q, m)
    {
      if Rel(e, defined, a, q, m) {
        forall u: nat | Live(e, defined, u)
          ensures ValueOk(a'.vregs[u], q.vregs[u], m)
        {
          assert ValueOk(a.vregs[u], q.vregs[u], m) && HasPlace(a'.vregs[u]);
        }
      }
    }
  }

  function WithReg(a: Alloc, v: nat, p: nat): Alloc
    requires v < |a.vregs| && p < |a.p2v| && a.vregs[v].spillOffs.Some?
  {
    var t := a.vregs[v];
    Emit(a, v, t.(p := p, loc := REG, synced := true), a.p2v[p := Some(v)], MakeMov(PGPR(t.ty, p), SlotOf(t)))
  }

  lemma FillInv(e: Env, a: Alloc, v: nat, p: nat)
    requires Inv(e, a) && v < |a.vregs| && a.vregs[v].loc == MEM && a.vregs[v].spillOffs.Some? && v !in e.slots
    requires p < GPR_NUM && a.p2v[p].None? && p !in GPR_FIXED
    ensures Inv(e, WithReg(a, v, p))
  {
    var a' := WithReg(a, v, p);
    SlotCountSame(a.vregs, a'.vregs);
    forall u: nat | u < |a'.vregs| ensures TrackOk(e, a', u) {
      assert TrackOk(e, a, u);
    }
    forall r: nat | r < GPR_NUM ensures OwnerOk(a', r) {
      assert OwnerOk(a, r);
    }
    forall u: nat, w: nat | u < |a'.vregs| && w < |a'.vregs| ensures SlotsApart(a', u, w) {
      assert SlotsApart(a, u, w);
    }
  }

  lemma MergeShows(t: VType, old_: Word, w: Word)
    ensures Trunc(t, Merge(t, old_, w)) == Trunc(t, w)
  {
  }

  /** Fill: the register is loaded from the slot, and both agree afterwards. */
  lemma FillStep(e: Env, defined: set<nat>, keep: set<nat>, a: Alloc, v: nat, p: nat)
    requires Inv(e, a) && Ready(e, defined, a) && v < |a.vregs| && a.vregs[v].loc == MEM && a.vregs[v].spillOffs.Some? && v !in e.slots
    requires p < GPR_NUM && a.p2v[p].None? && p !in GPR_FIXED && p !in keep
    ensures Step(e, defined, keep, a, WithReg(a, v, p))
  {
    var t, a' := a.vregs[v], WithReg(a, v, p);
    FillInv(e, a, v, p);
    EmittedOne(a, a', MakeMov(PGPR(t.ty, p), SlotOf(t)));
    forall u: nat | Live(e, defined, u) ensures HasPlace(a'.vregs[u]) {
      assert HasPlace(a.vregs[u]) && TrackOk(e, a, u);
    }
    forall u: nat | u < |a.vregs| ensures StaysIn(keep, a, a', u) {
    }
    forall q, m
      ensures Carries(e, defined, a, a', q, m)
    {
      if Rel(e, defined, a, q, m) {
        FillCarries(e, defined, a, v, p, q, m);
      }
    }
  }

  lemma FillCarries(e: Env, defined: set<nat>, a: Alloc, v: nat, p: nat, q: QState, m: MState)
    requires Inv(e, a) && v < |a.vregs| && a.vregs[v].loc == MEM && a.vregs[v].spillOffs.Some?
    requires p < GPR_NUM && a.p2v[p].None? && Rel(e, defined, a, q, m)
    ensures var t := a.vregs[v];
            Rel(e, defined, WithReg(a, v, p), q, MWrite(m, PGPR(t.ty, p), MRead(m, SlotOf(t))))
  {
    var t, a' := a.vregs[v], WithReg(a, v, p);
    var m' := MWrite(m, PGPR(t.ty, p), MRead(m, SlotOf(t)));
    MergeShows(t.ty, m.regs[p], MRead(m, SlotOf(t)));
    forall u: nat | Live(e, defined, u)
      ensures ValueOk(a'.vregs[u], q.vregs[u], m')
    {
      assert ValueOk(a.vregs[u], q.vregs[u], m);
      if u != v {
        assert TrackOk(e, a, u);
        ValueSurvives(a.vregs[u], q.vregs[u], m, m');
      }
    }
  }

  /** Copying a register into one that nobody owns. */
  lemma CopyStep(e: Env, defined: set<nat>, keep: set<nat>, a: Alloc, src: Operand, p: nat, a': Alloc)
    requires Inv(e, a) && Ready(e, defined, a) && p < GPR_NUM && a.p2v[p].None? && p !in keep && p !in GPR_FIXED && Free(src)
    requires a' == a.(code := a.code + [MakeMov(PGPR(src.ty, p), src)])
    ensures Step(e, defined, keep, a, a')
  {
    EmittedOne(a, a', MakeMov(PGPR(src.ty, p), src));
    assert Inv(e, a') by {
      forall u: nat | u < |a'.vregs| ensures TrackOk(e, a', u) { assert TrackOk(e, a, u); }
      forall r: nat | r < GPR_NUM ensures OwnerOk(a', r) { assert OwnerOk(a, r); }
      forall u: nat, w: nat | u < |a'.vregs| && w < |a'.vregs| ensures SlotsApart(a', u, w) { assert SlotsApart(a, u, w); }
    }
    forall u: nat | Live(e, defined, u) ensures HasPlace(a'.vregs[u]) {
      assert HasPlace(a.vregs[u]) && TrackOk(e, a, u);
    }
    forall u: nat | u < |a.vregs| ensures StaysIn(keep, a, a', u) {
    }
    forall q, m
      ensures Carries(e, defined, a, a', q, m)
    {
      if Rel(e, defined, a, q, m) {
        var m' := MWrite(m, PGPR(src.ty, p), MRead(m, src));
        forall u: nat | Live(e, defined, u)
          ensures ValueOk(a'.vregs[u], q.vregs[u], m')
        {
          assert ValueOk(a.vregs[u], q.vregs[u], m) && TrackOk(e, a, u);
          ValueSurvives(a.vregs[u], q.vregs[u], m, m');
        }
      }
    }
  }

  // ---------- Operands ----------

  lemma TruncNested(t: VType, big: VType, w: Word)
    requires Size(t) <= Size(big)
    ensures Trunc(t, Trunc(big, w)) == Trunc(t, w)
  {
  }

  lemma StepWeaken(e: Env, defined: set<nat>, keep: set<nat>, less: set<nat>, a: Alloc, a': Alloc)
    requires Step(e, defined, keep, a, a') && less <= keep
    ensures Step(e, defined, less, a, a')
  {
    forall v: nat | v < |a.vregs| ensures StaysIn(less, a, a', v) {
      assert StaysIn(keep, a, a', v);
    }
  }

  /** After the moves emitted between `a` and `b`, the host operand shows what the virtual one did. */
  ghost predicate Fetched(e: Env, defined: set<nat>, a: Alloc, b: Alloc, opr: Operand, host: Operand)
    requires |a.vregs| == |b.vregs| == e.info.NumAll() && AllMoves(Emitted(a, b))
  {
    forall q, m {:trigger FetchedOn(e, defined, a, b, opr, host, q, m)} :: FetchedOn(e, defined, a, b, opr, host, q, m)
  }

  ghost predicate FetchedOn(e: Env, defined: set<nat>, a: Alloc, b: Alloc, opr: Operand, host: Operand, q: QState, m: MState)
    requires |a.vregs| == |b.vregs| == e.info.NumAll() && AllMoves(Emitted(a, b))
  {
    Rel(e, defined, a, q, m) ==> MRead(RunMoves(Emitted(a, b), m), host) == QRead(q, opr)
  }

  lemma FetchedConst(e: Env, defined: set<nat>, keep: set<nat>, a: Alloc, b: Alloc, opr: Operand)
    requires Step(e, defined, keep, a, b) && opr.Const?
    ensures Fetched(e, defined, a, b, opr, opr)
  {
    forall q, m ensures FetchedOn(e, defined, a, b, opr, opr, q, m) {
    }
  }

  /** A register that is read where it lives. */
  lemma FetchedHome(e: Env, defined: set<nat>, keep: set<nat>, a: Alloc, b: Alloc, opr: Operand)
    requires Step(e, defined, keep, a, b) && opr.VGPR? && Readable(e.info, e.slots, defined, opr) && b.vregs[opr.v].loc == REG
    ensures Fetched(e, defined, a, b, opr, PGPR(opr.ty, b.vregs[opr.v].p))
  {
    var t := b.vregs[opr.v];
    forall q, m
      ensures FetchedOn(e, defined, a, b, opr, PGPR(opr.ty, t.p), q, m)
    {
      if Rel(e, defined, a, q, m) {
        var m' := RunMoves(Emitted(a, b), m);
        assert Carries(e, defined, a, b, q, m);
        assert ValueOk(b.vregs[opr.v], q.vregs[opr.v], m') && TrackOk(e, b, opr.v);
        TruncNested(opr.ty, t.ty, m'.regs[t.p]);
      }
    }
  }

  /** A register that is read from a copy, as fixed-register constraints require. */
  lemma FetchedCopy(e: Env, defined: set<nat>, keep: set<nat>, a: Alloc, b: Alloc, c: Alloc, opr: Operand, p: nat)
    requires Step(e, defined, keep, a, b) && opr.VGPR? && Readable(e.info, e.slots, defined, opr) && b.vregs[opr.v].loc == REG
    requires p < GPR_NUM && p !in GPR_FIXED && |c.vregs| == |b.vregs|
    requires var t := b.vregs[opr.v]; c.code == b.code + [MakeMov(PGPR(t.ty, p), PGPR(t.ty, t.p))]
    ensures AllMoves(Emitted(a, c)) && Fetched(e, defined, a, c, opr, PGPR(opr.ty, p))
  {
    var t := b.vregs[opr.v];
    var mov := MakeMov(PGPR(t.ty, p), PGPR(t.ty, t.p));
    assert TrackOk(e, b, opr.v);
    EmittedOne(b, c, mov);
    assert Emitted(a, c) == Emitted(a, b) + [mov];
    forall q, m
      ensures FetchedOn(e, defined, a, c, opr, PGPR(opr.ty, p), q, m)
    {
      if Rel(e, defined, a, q, m) {
        var m' := RunMoves(Emitted(a, b), m);
        RunMovesConcat(Emitted(a, b), [mov], m);
        assert Carries(e, defined, a, b, q, m);
        assert ValueOk(b.vregs[opr.v], q.vregs[opr.v], m') && TrackOk(e, b, opr.v);
        MergeShows(t.ty, m'.regs[p], MRead(m', PGPR(t.ty, t.p)));
        TruncNested(opr.ty, t.ty, Merge(t.ty, m'.regs[p], MRead(m', PGPR(t.ty, t.p))));
        TruncNested(opr.ty, t.ty, m'.regs[t.p]);
        TruncNested(t.ty, t.ty, m'.regs[t.p]);
      }
    }
  }

  lemma FetchedEarlier(e: Env, defined: set<nat>, keep: set<nat>, a: Alloc, b: Alloc, c: Alloc, opr: Operand, host: Operand)
    requires Step(e, defined, keep, a, b) && Step(e, defined, keep, b, c) && Fetched(e, defined, b, c, opr, host)
    ensures AllMoves(Emitted(a, c)) && Fetched(e, defined, a, c, opr, host)
  {
    var c1, c2 := Emitted(a, b), Emitted(b, c);
    assert Emitted(a, c) == c1 + c2;
    forall q, m
      ensures FetchedOn(e, defined, a, c, opr, host, q, m)
    {
      RunMovesConcat(c1, c2, m);
      assert Carries(e, defined, a, b, q, m);
      assert FetchedOn(e, defined, b, c, opr, host, q, RunMoves(c1, m));
    }
  }

  predicate InKept(keep: set<nat>, host: Operand) {
    host.Const? || (host.PGPR? && host.p in keep && host.p < GPR_NUM)
  }

  /** Operands in kept registers stay available while other locations are written. */
  lemma FetchedLater(e: Env, defined: set<nat>, later: set<nat>, keep: set<nat>, a: Alloc, b: Alloc, c: Alloc, opr: Operand, host: Operand)
    requires Step(e, defined, {}, a, b) && Step(e, later, {}, b, c) && WritesOutside(Emitted(b, c), keep)
    requires Fetched(e, defined, a, b, opr, host) && InKept(keep, host)
    ensures AllMoves(Emitted(a, c)) && Fetched(e, defined, a, c, opr, host)
  {
    var c1, c2 := Emitted(a, b), Emitted(b, c);
    assert Emitted(a, c) == c1 + c2;
    forall q, m
      ensures FetchedOn(e, defined, a, c, opr, host, q, m)
    {
      if Rel(e, defined, a, q, m) {
        var m' := RunMoves(c1, m);
        assert FetchedOn(e, defined, a, b, opr, host, q, m);
        assert Carries(e, defined, a, b, q, m);
        RunMovesConcat(c1, c2, m);
        if host.PGPR? {
          KeptRegisters(c2, keep, m', host.p);
        }
      }
    }
  }

  /** Only slots were written between `a` and `b`. */
  ghost predicate StoresOnly(a: Alloc, b: Alloc) {
    |a.code| <= |b.code| && b.code[..|a.code|] == a.code && AllMoves(Emitted(a, b)) && WritesOutside(Emitted(a, b), GPR_ALL)
  }

  lemma StoresTransitive(a: Alloc, b: Alloc, c: Alloc)
    requires StoresOnly(a, b) && StoresOnly(b, c)
    ensures StoresOnly(a, c)
  {
    assert a.code == b.code[..|a.code|] == c.code[..|a.code|];
    assert Emitted(a, c) == Emitted(a, b) + Emitted(b, c);
  }

  // ---------- Results ----------

  /** The register that an instruction defines from now on lives in `p`, and only there. */
  function Define(a: Alloc, d: nat, p: nat): Alloc
    requires d < |a.vregs| && p < |a.p2v| && (a.vregs[d].loc == REG ==> a.vregs[d].p < |a.p2v|)
  {
    var t := a.vregs[d];
    var freed := if t.loc == REG then a.p2v[t.p := None] else a.p2v;
    a.(vregs := a.vregs[d := t.(loc := REG, p := p, synced := false)], p2v := freed[p := Some(d)])
  }

  ghost predicate CanDefine(e: Env, a: Alloc, d: nat, p: nat) {
    && Inv(e, a) && d < |a.vregs| && d !in e.slots && p < GPR_NUM && p !in GPR_FIXED
    && (a.p2v[p].None? || a.p2v[p] == Some(d)) && (a.vregs[d].loc == REG ==> a.vregs[d].p < |a.p2v|)
  }

  lemma DefineInv(e: Env, defined: set<nat>, a: Alloc, d: nat, p: nat)
    requires CanDefine(e, a, d, p) && Ready(e, defined, a)
    ensures Inv(e, Define(a, d, p)) && Ready(e, defined + {d}, Define(a, d, p))
  {
    var a' := Define(a, d, p);
    assert TrackOk(e, a, d);
    SlotCountSame(a.vregs, a'.vregs);
    forall u: nat | u < |a'.vregs| ensures TrackOk(e, a', u) {
      assert TrackOk(e, a, u);
    }
    forall r: nat | r < GPR_NUM ensures OwnerOk(a', r) {
      assert OwnerOk(a, r);
    }
    forall u: nat, w: nat | u < |a'.vregs| && w < |a'.vregs| ensures SlotsApart(a', u, w) {
      assert SlotsApart(a, u, w);
    }
    forall u: nat | Live(e, defined + {d}, u) ensures HasPlace(a'.vregs[u]) {
      assert u != d ==> HasPlace(a.vregs[u]);
    }
  }

  /** Writing the result register makes the machine match the new bookkeeping. */
  lemma DefineCarries(e: Env, defined: set<nat>, a: Alloc, d: nat, p: nat, q: QState, m: MState, val: Word)
    requires CanDefine(e, a, d, p) && Rel(e, defined, a, q, m)
    ensures var ty := a.vregs[d].ty;
            Rel(e, defined + {d}, Define(a, d, p), QSet(q, d, Trunc(ty, val)), MWrite(m, PGPR(ty, p), val))
  {
    var ty, a' := a.vregs[d].ty, Define(a, d, p);
    var q', m' := QSet(q, d, Trunc(ty, val)), MWrite(m, PGPR(ty, p), val);
    MergeShows(ty, m.regs[p], val);
    TruncNested(ty, ty, val);
    forall u: nat | Live(e, defined + {d}, u)
      ensures ValueOk(a'.vregs[u], q'.vregs[u], m')
    {
      if u != d {
        assert ValueOk(a.vregs[u], q.vregs[u], m) && TrackOk(e, a, u);
        ValueSurvives(a.vregs[u], q.vregs[u], m, m');
      }
    }
  }

  /** A result that goes straight to the slot of a global that is never in a register. */
  lemma SlotResultCarries(e: Env, defined: set<nat>, a: Alloc, opr: Operand, q: QState, m: MState, val: Word)
    requires Inv(e, a) && Rel(e, defined, a, q, m) && Writable(e.info, e.slots, Mov, opr) && opr.Slot?
    ensures Rel(e, defined, a, QWrite(e.info.globals, q, opr, val), MWrite(m, opr, val))
  {
    var g := GlobalAt(e.info.globals, opr.offs).value;
    var q', m' := QWrite(e.info.globals, q, opr, val), MWrite(m, opr, val);
    assert TrackOk(e, a, g);
    SlotFits(e, a, g);
    StoreThenLoad(m.cpu, opr.offs, opr.ty, val);
    TruncNested(opr.ty, opr.ty, val);
    forall u: nat | Live(e, defined, u)
      ensures ValueOk(a.vregs[u], q'.vregs[u], m')
    {
      assert ValueOk(a.vregs[u], q.vregs[u], m) && TrackOk(e, a, u);
      if u != g {
        if a.vregs[u].spillOffs.Some? {
          StoreKeepsOthers(e, a, g, u, val, m);
        }
        ValueSurvives(a.vregs[u], q.vregs[u], m, m');
      }
    }
  }

  // ---------- Precise guest state ----------

  /** Guest memory and the `CPUState` slots of all globals hold the values of the virtual registers. */
  ghost predicate Precise(e: Env, q: QState, m: MState) {
    && Sized(e, m) && q.mem == m.mem && |e.info.globals| <= |q.vregs|
    && forall g: nat {:trigger e.info.globals[g]} | g < |e.info.globals| ::
         LoadSlot(m.cpu, e.info.globals[g].offs, e.info.globals[g].ty) == q.vregs[g]
  }

  ghost predicate AllSynced(e: Env, a: Alloc) {
    forall g: nat | g < |e.info.globals| && g < |a.vregs| :: a.vregs[g].loc == MEM || a.vregs[g].synced
  }

  ghost predicate AllInMemory(e: Env, a: Alloc) {
    forall g: nat | g < |e.info.globals| && g < |a.vregs| :: a.vregs[g].loc == MEM
  }

  /** Synced globals are precise although they may still live in registers. */
  lemma SyncedIsPrecise(e: Env, defined: set<nat>, a: Alloc, q: QState, m: MState)
    requires Inv(e, a) && AllSynced(e, a) && Rel(e, defined, a, q, m)
    ensures Precise(e, q, m)
  {
    forall g: nat | g < |e.info.globals|
      ensures LoadSlot(m.cpu, e.info.globals[g].offs, e.info.globals[g].ty) == q.vregs[g]
    {
      assert Live(e, defined, g) && TrackOk(e, a, g);
      assert ValueOk(a.vregs[g], q.vregs[g], m);
    }
  }

  /** A precise state matches any bookkeeping that keeps all globals in memory: blocks can be entered
      from anywhere. */
  lemma PreciseEntersBlock(e: Env, a: Alloc, q: QState, m: MState)
    requires Inv(e, a) && AllInMemory(e, a) && Precise(e, q, m) && e.info.NumAll() <= |q.vregs|
    ensures Rel(e, {}, a, q, m)
  {
    forall g: nat | Live(e, {}, g)
      ensures ValueOk(a.vregs[g], q.vregs[g], m)
    {
      assert TrackOk(e, a, g);
      LoadIsTruncated(m.cpu, e.info.globals[g].offs, e.info.globals[g].ty);
    }
  }
}
