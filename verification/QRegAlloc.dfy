/** QRegAlloc of `dbt/qmc/qcg/qra.cpp`: a single pass over the code that assigns host registers, with
    lazy spills.  A result of false stands for the panic that ends the program when the spill frame is
    full; the panic for "no register left" is never reached. */
module QRegAllocs {
  import opened Common
  import opened Qir
  import opened ArchTraits
  import opened HostMachine
  import opened RegAllocState
  import opened RegAllocSim
  import QSel

  /** Some host register satisfies the constraint and is not to be avoided. */
  ghost predicate SomeTarget(desire: set<nat>, avoid: set<nat>) {
    exists p: nat :: p < GPR_NUM && p in desire && p !in avoid
  }

  const MAX_VREGS: nat := 512

  /** AddTrackGlobal and AddTrackLocal. */
  function NewTrack(info: VRegsInfo, v: nat): RTrack
    requires v < info.NumAll()
  {
    if info.IsGlobal(v) then RTrack(info.globals[v].ty, true, Some(info.globals[v].offs), 0, DEAD, false)
    else RTrack(info.TypeOf(v), false, None, 0, DEAD, false)
  }

  /** The u8 index of the loop in CallOp, after `k` turns. */
  function CallIndex(k: nat): nat {
    k % 256
  }

  /** That loop, which runs while the index is below the number of registers, ends if and only if there
      are at most 255 of them; then it visits each of them once. */
  lemma CallLoopEnds(n: nat)
    ensures (exists k: nat :: CallIndex(k) >= n) <==> n <= 255
    ensures n <= 255 ==> CallIndex(n) == n && forall k: nat | k < n :: CallIndex(k) == k
  {
    if n <= 255 {
      assert CallIndex(n) >= n;
    }
  }

  /** Regions that call helpers have at most 255 virtual registers. */
  ghost predicate HelperLimit(info: VRegsInfo, blocks: seq<Block>) {
    forall b, k | 0 <= b < |blocks| && 0 <= k < |blocks[b].code| && blocks[b].code[k].op.Hcall? :: info.NumAll() <= 255
  }

  class QRegAlloc {
    const info: VRegsInfo
    ghost const env: Env

    var vregs: seq<RTrack>
    var p2v: seq<Option<nat>>
    var frameCur: nat
    var code: seq<Inst>

    ghost function State(): Alloc
      reads this
    {
      Alloc(vregs, p2v, frameCur, code)
    }

    ghost predicate Valid(defined: set<nat>)
      reads this
    {
      env.info == info && Inv(env, State()) && Ready(env, defined, State())
    }

    /** Creates the tracks; all of them start out dead. */
    constructor (info: VRegsInfo, ghost slots: set<nat>, ghost cpuSize: nat)
      ensures this.info == info && env == Env(info, slots, cpuSize)
      ensures |vregs| == info.NumAll() && forall v | 0 <= v < |vregs| :: vregs[v] == NewTrack(info, v)
      ensures p2v == seq(GPR_NUM, _ => None) && frameCur == 0
    {
      this.info, env := info, Env(info, slots, cpuSize);
      vregs, p2v, frameCur, code := [], seq(GPR_NUM, _ => None), 0, [];
      new;
      var v := 0;
      while v < info.NumAll()
        invariant v == |vregs| <= info.NumAll() && forall u | 0 <= u < v :: vregs[u] == NewTrack(info, u)
        invariant p2v == seq(GPR_NUM, _ => None) && frameCur == 0
      {
        vregs := vregs + [NewTrack(info, v)];
        v := v + 1;
      }
    }

    method Prologue()
      requires env.info == info && LayoutOk(info.globals, env.cpuSize) && forall g | g in env.slots :: info.IsGlobal(g)
      requires |vregs| == info.NumAll() && forall v | 0 <= v < |vregs| :: vregs[v] == NewTrack(info, v)
      requires p2v == seq(GPR_NUM, _ => None) && frameCur == 0
      modifies this`vregs
      ensures Valid({}) && AllInMemory(env, State())
    {
      var v := 0;
      while v < |vregs|
        invariant 0 <= v <= |vregs| == info.NumAll()
        invariant forall u | 0 <= u < v :: vregs[u] == NewTrack(info, u).(loc := if info.IsGlobal(u) then MEM else DEAD)
        invariant forall u | v <= u < |vregs| :: vregs[u] == NewTrack(info, u)
      {
        vregs := vregs[v := vregs[v].(loc := if vregs[v].isGlobal then MEM else DEAD)];
        v := v + 1;
      }
      InitialInv(env, State());
    }

    /** AllocFrameSlot, where the frame has room. */
    method AllocFrameSlot(v: nat, ghost defined: set<nat>, ghost keep: set<nat>) returns (ok: bool)
      requires Valid(defined) && v < |vregs| && !vregs[v].isGlobal && vregs[v].spillOffs.None?
      modifies this`vregs, this`frameCur
      ensures ok ==> State() == WithSlot(old(State()), v) && Step(env, defined, keep, old(State()), State())
      ensures ok <==> RoundUp(old(frameCur), Size(old(vregs[v].ty))) + Size(old(vregs[v].ty)) <= SPILLFRAME_SIZE
      ensures |info.locals| <= 256 ==> ok
    {
      ghost var a := State();
      var size := Size(vregs[v].ty);
      var offs := RoundUp(frameCur, size);
      ok := offs + size <= SPILLFRAME_SIZE;
      if |info.locals| <= 256 {
        FrameNeverFull(env, a, v);
      }
      if ok {
        FrameSlotStep(env, defined, keep, a, v);
        vregs := vregs[v := vregs[v].(spillOffs := Some(offs))];
        frameCur := offs + size;
      }
    }

    /** EmitSpill for a register in `REG`; also records that the slot is up to date. */
    method EmitSpill(v: nat, ghost defined: set<nat>, ghost keep: set<nat>) returns (ok: bool)
      requires Valid(defined) && v < |vregs| && vregs[v].loc == REG
      modifies this`vregs, this`frameCur, this`code
      ensures ok ==> Step(env, defined, keep, old(State()), State()) && SyncedOnly(old(State()), State(), v)
      ensures ok ==> StoresOnly(old(State()), State())
      ensures |info.locals| <= 256 ==> ok
    {
      ghost var a := State();
      StepReflexive(env, defined, keep, a);
      ok := true;
      if !vregs[v].isGlobal && vregs[v].spillOffs.None? {
        ok := AllocFrameSlot(v, defined, keep);
        if !ok {
          return;
        }
      }
      ghost var b := State();
      assert TrackOk(env, b, v);
      var t := vregs[v];
      code := code + [MakeMov(SlotOf(t), PGPR(t.ty, t.p))];
      vregs := vregs[v := t.(synced := true)];
      SpillStep(env, defined, keep, b, v, State());
      EmittedOne(b, State(), MakeMov(SlotOf(t), PGPR(t.ty, t.p)));
      assert Emitted(a, State()) == Emitted(b, State());
      StepTransitive(env, defined, keep, a, b, State());
    }

    method SyncSpill(v: nat, ghost defined: set<nat>, ghost keep: set<nat>) returns (ok: bool)
      requires Valid(defined) && v < |vregs| && vregs[v].loc != DEAD
      modifies this`vregs, this`frameCur, this`code
      ensures ok ==> Step(env, defined, keep, old(State()), State()) && SyncedOnly(old(State()), State(), v)
      ensures ok ==> StoresOnly(old(State()), State())
      ensures |info.locals| <= 256 ==> ok
    {
      StepReflexive(env, defined, keep, State());
      assert TrackOk(env, State(), v);
      ok := true;
      if vregs[v].synced || vregs[v].loc == MEM {
        assert vregs == vregs[v := vregs[v]];
        return;
      }
      ok := EmitSpill(v, defined, keep);
    }

    /** Release<false>. */
    method Release(v: nat, ghost defined: set<nat>, ghost keep: set<nat>)
      requires Valid(defined) && v < |vregs|
      requires vregs[v].loc == REG ==> vregs[v].p !in keep && (vregs[v].synced || !Live(env, defined, v))
      modifies this`vregs, this`p2v
      ensures Step(env, defined, keep, old(State()), State()) && code == old(code)
      ensures |vregs| == |old(vregs)| && vregs == old(vregs)[v := old(vregs)[v].(loc := MEM)]
      ensures p2v == if old(vregs)[v].loc == REG && old(vregs)[v].p < |old(p2v)| then old(p2v)[old(vregs)[v].p := None] else old(p2v)
    {
      ghost var a := State();
      assert TrackOk(env, a, v);
      if vregs[v].loc == REG {
        ReleaseStep(env, defined, keep, a, v);
        p2v := p2v[vregs[v].p := None];
      } else {
        DropStep(env, defined, keep, a, v);
      }
      vregs := vregs[v := vregs[v].(loc := MEM)];
    }

    /** Spill of a virtual register. */
    method Spill(v: nat, ghost defined: set<nat>, ghost keep: set<nat>) returns (ok: bool)
      requires Valid(defined) && v < |vregs| && vregs[v].loc != DEAD && (vregs[v].loc == REG ==> vregs[v].p !in keep)
      modifies this`vregs, this`p2v, this`frameCur, this`code
      ensures ok ==> Step(env, defined, keep, old(State()), State()) && SpilledOnly(old(State()), State(), v)
      ensures ok ==> StoresOnly(old(State()), State())
      ensures |info.locals| <= 256 ==> ok
    {
      ghost var a := State();
      ok := SyncSpill(v, defined, keep);
      if ok {
        ghost var b := State();
        Release(v, defined, keep);
        StepTransitive(env, defined, keep, a, b, State());
      }
    }

    /** AllocPReg: a free register if there is one, otherwise the first suitable one is freed. */
    method AllocPReg(desire: set<nat>, avoid: set<nat>, ghost defined: set<nat>) returns (p: nat, ok: bool)
      requires Valid(defined) && GPR_FIXED <= avoid && SomeTarget(desire, avoid)
      modifies this`vregs, this`p2v, this`frameCur, this`code
      ensures p < GPR_NUM && p in desire && p !in avoid
      ensures ok ==> Step(env, defined, avoid, old(State()), State()) && |p2v| == GPR_NUM && p2v[p].None?
      ensures ok ==> EvictedAt(old(State()), State(), p)
      ensures |info.locals| <= 256 ==> ok
    {
      StepReflexive(env, defined, avoid, State());
      ok := true;
      p := 0;
      while p < GPR_NUM
        invariant p <= GPR_NUM && forall r | 0 <= r < p && r in desire && r !in avoid :: p2v[r].Some?
      {
        if p2v[p].None? && p in desire && p !in avoid {
          return;
        }
        p := p + 1;
      }
      p := 0;
      while p < GPR_NUM && !(p in desire && p !in avoid)
        invariant p <= GPR_NUM && forall r | 0 <= r < p :: !(r in desire && r !in avoid)
      {
        p := p + 1;
      }
      assert p < GPR_NUM;
      var v := p2v[p].value;
      assert OwnerOk(State(), p);
      ok := Spill(v, defined, avoid);
    }

    /** Fill: makes sure that a register with a value is in some host register. */
    method Fill(v: nat, desire: set<nat>, avoid: set<nat>, ghost defined: set<nat>) returns (ok: bool)
      requires Valid(defined) && GPR_FIXED <= avoid && SomeTarget(desire, avoid) && Live(env, defined, v) && v !in env.slots
      modifies this`vregs, this`p2v, this`frameCur, this`code
      ensures ok ==> Step(env, defined, avoid, old(State()), State()) && v < |vregs| && vregs[v].loc == REG
      ensures ok && old(vregs)[v].loc == MEM ==> vregs[v].p in desire
      ensures |info.locals| <= 256 ==> ok
    {
      ghost var a := State();
      assert HasPlace(vregs[v]);
      StepReflexive(env, defined, avoid, a);
      ok := true;
      if vregs[v].loc == MEM {
        var p;
        p, ok := AllocPReg(desire, avoid, defined);
        if ok {
          ghost var b := State();
          assert b.vregs[v].loc == MEM && HasPlace(b.vregs[v]);
          FillStep(env, defined, avoid, b, v, p);
          var t := vregs[v];
          vregs := vregs[v := t.(p := p, loc := REG, synced := true)];
          p2v := p2v[p := Some(v)];
          code := code + [MakeMov(PGPR(t.ty, p), SlotOf(t))];
          assert State() == WithReg(b, v, p);
          StepTransitive(env, defined, avoid, a, b, State());
        }
      }
    }

    /** Copies a value into a register that its constraint allows; the original stays where it is. */
    method CopyInput(opr: Operand, cr: set<nat>, avoid: set<nat>, ghost defined: set<nat>) returns (p: nat, ok: bool)
      requires Valid(defined) && GPR_FIXED <= avoid && SomeTarget(cr, avoid) && opr.VGPR?
      requires Readable(info, env.slots, defined, opr) && vregs[opr.v].loc == REG && vregs[opr.v].p !in cr
      modifies this`vregs, this`p2v, this`frameCur, this`code
      ensures p < GPR_NUM && p in cr && p !in avoid
      ensures ok ==> Step(env, defined, avoid, old(State()), State())
      ensures ok ==> Fetched(env, defined, old(State()), State(), opr, PGPR(opr.ty, p)) && |p2v| == GPR_NUM && p2v[p].None?
      ensures |info.locals| <= 256 ==> ok
    {
      ghost var b := State();
      p, ok := AllocPReg(cr, avoid, defined);
      if ok {
        ghost var c := State();
        assert c.vregs[opr.v] == b.vregs[opr.v];
        var t := vregs[opr.v];
        assert TrackOk(env, c, opr.v);
        code := code + [MakeMov(PGPR(t.ty, p), PGPR(t.ty, t.p))];
        CopyStep(env, defined, avoid, c, PGPR(t.ty, t.p), p, State());
        FetchedCopy(env, defined, avoid, b, c, State(), opr, p);
        StepTransitive(env, defined, avoid, b, c, State());
      }
    }

    /** One turn of the input loop of AllocOp. */
    method AllocInput(opr: Operand, cr: set<nat>, avoid: set<nat>, ghost defined: set<nat>)
      returns (host: Operand, avoid': set<nat>, ok: bool)
      requires Valid(defined) && GPR_FIXED <= avoid && SomeTarget(cr, avoid) && cr <= GPR_ALL
      requires Readable(info, env.slots, defined, opr)
      modifies this`vregs, this`p2v, this`frameCur, this`code
      ensures ok ==> Step(env, defined, avoid, old(State()), State()) && Fetched(env, defined, old(State()), State(), opr, host)
      ensures ok ==> InputPlaced(State(), cr, opr, host) && avoid' == avoid + (if host.PGPR? then {host.p} else {})
      ensures |info.locals| <= 256 ==> ok
    {
      ghost var a := State();
      StepReflexive(env, defined, avoid, a);
      host, avoid', ok := opr, avoid, true;
      if opr.Const? {
        FetchedConst(env, defined, avoid, a, a, opr);
        return;
      }
      ok := Fill(opr.v, cr, avoid, defined);
      if ok {
        ghost var b := State();
        assert TrackOk(env, b, opr.v);
        FetchedHome(env, defined, avoid, a, b, opr);
        var p := vregs[opr.v].p;
        if p in cr {
          HomePlaced(env, b, cr, opr, PGPR(opr.ty, p));
        } else {
          p, ok := CopyInput(opr, cr, avoid, defined);
          if ok {
            assert InputPlaced(State(), cr, opr, PGPR(opr.ty, p));
            FetchedEarlier(env, defined, avoid, a, b, State(), opr, PGPR(opr.ty, p));
            StepTransitive(env, defined, avoid, a, b, State());
          }
        }
        avoid', host := avoid + {p}, PGPR(opr.ty, p);
      }
    }

    /** The state of the input loop of AllocOp after `n` inputs. */
    ghost predicate InputLoop(a: Alloc, ins: Inst, defined: set<nat>, hosts: seq<Operand>, avoid: set<nat>, n: nat)
      requires Shaped(ins)
      reads this
    {
      && Valid(defined) && n <= |Constraints(ins.op).order| && Step(env, defined, {}, a, State())
      && GPR_FIXED <= avoid && |avoid - GPR_FIXED| <= n && (n == 0 ==> avoid == GPR_FIXED)
      && InputsDone(env, defined, a, State(), ins, hosts, avoid, Constraints(ins.op).order[..n])
    }

    method AllocNextInput(ghost a: Alloc, ins: Inst, ghost defined: set<nat>, hosts: seq<Operand>, avoid: set<nat>, n: nat)
      returns (hosts': seq<Operand>, avoid': set<nat>, ok: bool)
      requires WellFormed(info, env.slots, defined, ins) && HasOperands(ins.op)
      requires InputLoop(a, ins, defined, hosts, avoid, n) && n < |Constraints(ins.op).order|
      modifies this`vregs, this`p2v, this`frameCur, this`code
      ensures ok ==> InputLoop(a, ins, defined, hosts', avoid', n + 1)
      ensures |info.locals| <= 256 ==> ok
    {
      ConstraintFacts(ins.op);
      var ct := Constraints(ins.op);
      var k := ct.order[n];
      TargetExists(ins.op, n, avoid);
      ghost var b := State();
      var host;
      host, avoid', ok := AllocInput(ins.i[k], ct.ins[k].cr, avoid, defined);
      hosts' := hosts[k := host];
      if ok {
        InputAdded(env, defined, a, b, State(), ins, hosts, avoid, ct.order, n, host, avoid');
      }
    }

    /** The input loop of AllocOp, in the order that puts the most constrained input first. */
    method AllocInputs(ins: Inst, ghost defined: set<nat>) returns (hosts: seq<Operand>, avoid: set<nat>, ok: bool)
      requires Valid(defined) && WellFormed(info, env.slots, defined, ins) && HasOperands(ins.op)
      modifies this`vregs, this`p2v, this`frameCur, this`code
      ensures ok ==> InputLoop(old(State()), ins, defined, hosts, avoid, |ins.i|)
      ensures |info.locals| <= 256 ==> ok
    {
      ghost var a := State();
      InputsStart(env, defined, a, ins);
      ConstraintFacts(ins.op);
      hosts, avoid, ok := ins.i, GPR_FIXED, true;
      var n := 0;
      while n < |ins.i|
        invariant n <= |ins.i| && ok && InputLoop(a, ins, defined, hosts, avoid, n)
      {
        hosts, avoid, ok := AllocNextInput(a, ins, defined, hosts, avoid, n);
        if !ok {
          return;
        }
        n := n + 1;
      }
    }

    /** The loop of AllocOp for instructions with side effects. */
    method SyncGlobals(ghost defined: set<nat>, ghost keep: set<nat>) returns (ok: bool)
      requires Valid(defined)
      modifies this`vregs, this`frameCur, this`code
      ensures ok ==> Step(env, defined, keep, old(State()), State()) && SameHomes(old(State()), State()) && AllSynced(env, State())
      ensures |info.locals| <= 256 ==> ok
    {
      ghost var a := State();
      StepReflexive(env, defined, keep, a);
      ok := true;
      var v := 0;
      while v < |vregs|
        invariant v <= |vregs| && ok && Step(env, defined, keep, a, State()) && SameHomes(a, State())
        invariant forall g | 0 <= g < v && g < |env.info.globals| :: vregs[g].loc == MEM || vregs[g].synced
      {
        assert TrackOk(env, State(), v);
        if vregs[v].isGlobal {
          ghost var b := State();
          ok := SyncSpill(v, defined, keep);
          if !ok {
            return;
          }
          StepTransitive(env, defined, keep, a, b, State());
        }
        v := v + 1;
      }
    }

    /** Spills all globals: BlockBoundary, and the second loop of CallOp. */
    method SpillGlobals(ghost defined: set<nat>) returns (ok: bool)
      requires Valid(defined)
      modifies this`vregs, this`p2v, this`frameCur, this`code
      ensures ok ==> Step(env, defined, {}, old(State()), State()) && StoresOnly(old(State()), State())
      ensures ok ==> AllInMemory(env, State()) && OwnersDropped(old(State()), State())
      ensures |info.locals| <= 256 ==> ok
    {
      ghost var a := State();
      StepReflexive(env, defined, {}, a);
      assert Emitted(a, a) == [];
      ok := true;
      var v := 0;
      while v < |vregs|
        invariant v <= |vregs| && ok && Step(env, defined, {}, a, State()) && StoresOnly(a, State()) && OwnersDropped(a, State())
        invariant forall g | 0 <= g < v && g < |env.info.globals| :: vregs[g].loc == MEM
      {
        assert TrackOk(env, State(), v);
        if vregs[v].isGlobal {
          ghost var b := State();
          ok := Spill(v, defined, {});
          if !ok {
            return;
          }
          StepTransitive(env, defined, {}, a, b, State());
          StoresTransitive(a, b, State());
        }
        v := v + 1;
      }
    }

    /** One turn of RegionBoundary's loop. */
    method LeaveRegion(v: nat) returns (ok: bool)
      requires Valid({}) && v < |vregs|
      modifies this`vregs, this`p2v, this`frameCur, this`code
      ensures ok ==> Step(env, {}, {}, old(State()), State()) && SpilledOnly(old(State()), State(), v)
      ensures ok ==> StoresOnly(old(State()), State())
      ensures |info.locals| <= 256 ==> ok
    {
      ok := true;
      assert TrackOk(env, State(), v);
      if vregs[v].isGlobal {
        ok := Spill(v, {}, {});
      } else {
        ghost var a := State();
        Release(v, {}, {});
        assert Emitted(a, State()) == [];
      }
    }

    /** RegionBoundary: globals go to their slots and the values of locals are given up. */
    method RegionBoundary() returns (ok: bool)
      requires Valid({})
      modifies this`vregs, this`p2v, this`frameCur, this`code
      ensures ok ==> Step(env, {}, {}, old(State()), State()) && StoresOnly(old(State()), State())
      ensures ok ==> forall v | 0 <= v < |vregs| :: vregs[v].loc == MEM
      ensures |info.locals| <= 256 ==> ok
    {
      ghost var a := State();
      StepReflexive(env, {}, {}, a);
      assert Emitted(a, a) == [];
      ok := true;
      var v := 0;
      while v < |vregs|
        invariant v <= |vregs| && ok && Step(env, {}, {}, a, State()) && StoresOnly(a, State())
        invariant forall u | 0 <= u < v :: vregs[u].loc == MEM
      {
        ghost var b := State();
        ok := LeaveRegion(v);
        if !ok {
          return;
        }
        StepTransitive(env, {}, {}, a, b, State());
        StoresTransitive(a, b, State());
        v := v + 1;
      }
    }

    /** The first loop of CallOp: caller-saved registers are given up, their values go to slots. */
    method SpillClobbered(ghost defined: set<nat>) returns (ok: bool)
      requires Valid(defined)
      modifies this`vregs, this`p2v, this`frameCur, this`code
      ensures ok ==> Step(env, defined, {}, old(State()), State()) && |p2v| == GPR_NUM
      ensures ok ==> forall p | 0 <= p < GPR_NUM && p in GPR_CALL_CLOBBER :: p2v[p].None?
      ensures |info.locals| <= 256 ==> ok
    {
      ghost var a := State();
      StepReflexive(env, defined, {}, a);
      ok := true;
      var p := 0;
      while p < GPR_NUM
        invariant p <= GPR_NUM && ok && Step(env, defined, {}, a, State())
        invariant forall r | 0 <= r < p && r in GPR_CALL_CLOBBER :: p2v[r].None?
      {
        if p in GPR_CALL_CLOBBER && p2v[p].Some? {
          ghost var b := State();
          assert OwnerOk(b, p);
          ok := Spill(p2v[p].value, defined, {});
          if !ok {
            return;
          }
          StepTransitive(env, defined, {}, a, b, State());
        }
        p := p + 1;
      }
    }

    /** CallOp.  The index of its second loop has eight bits: with more than 255 virtual registers it
        would not end. */
    method CallOp(ghost defined: set<nat>) returns (ok: bool)
      requires Valid(defined) && |vregs| <= 255
      modifies this`vregs, this`p2v, this`frameCur, this`code
      ensures ok ==> Step(env, defined, {}, old(State()), State()) && |p2v| == GPR_NUM && AllInMemory(env, State())
      ensures ok ==> forall p | 0 <= p < GPR_NUM && p in GPR_CALL_CLOBBER :: p2v[p].None?
      ensures |info.locals| <= 256 ==> ok
    {
      ghost var a := State();
      ok := SpillClobbered(defined);
      if ok {
        ghost var b := State();
        ok := SpillGlobals(defined);
        if ok {
          StepTransitive(env, defined, {}, a, b, State());
        }
      }
    }

    /** The output loop of AllocOp: an aliased output stays in the register of its input, any other
        output is renamed into a new register. */
    method AllocOutput(ins: Inst, hosts: seq<Operand>, avoid: set<nat>, ghost defined: set<nat>)
      returns (outs: seq<Operand>, ghost mid: Alloc, ok: bool)
      requires Valid(defined) && WellFormed(info, env.slots, defined, ins) && |hosts| == |ins.i|
      requires GPR_FIXED <= avoid && SomeTarget(GPR_ALL, avoid)
      requires ins.op.Binop? ==> ins.i[0] == ins.o[0] && InputPlaced(State(), GPR_ALL, ins.i[0], hosts[0])
      modifies this`vregs, this`p2v, this`frameCur, this`code
      ensures ok ==> Step(env, defined, avoid, old(State()), mid) && EvictedFrom(old(State()), mid)
      ensures ok ==> Valid(Defines(info, defined, ins)) && |outs| == |ins.o| && code == mid.code
      ensures ok && |ins.o| == 1 ==> OutputPlaced(env, mid, State(), ins.o[0], outs[0]) && (ins.op.Binop? ==> outs[0] == hosts[0])
      ensures ok && |ins.o| == 0 ==> State() == mid
      ensures |info.locals| <= 256 ==> ok
    {
      mid := State();
      StepReflexive(env, defined, avoid, mid);
      outs, ok := ins.o, true;
      if |ins.o| == 0 || !ins.o[0].VGPR? {
        return;
      }
      assert Writable(info, env.slots, ins.op, ins.o[0]);
      var d, p := ins.o[0].v, 0;
      if ins.op.Binop? {
        p := hosts[0].p;
        assert TrackOk(env, mid, d);
      } else {
        p, ok := AllocPReg(GPR_ALL, avoid, defined);
        if !ok {
          return;
        }
        mid := State();
        assert TrackOk(env, mid, d);
      }
      DefineInv(env, defined, mid, d, p);
      if vregs[d].loc == REG {
        p2v := p2v[vregs[d].p := None];
      }
      p2v := p2v[p := Some(d)];
      vregs := vregs[d := vregs[d].(loc := REG, p := p, synced := false)];
      outs := [PGPR(ins.o[0].ty, p)];
      assert State() == Define(mid, d, p);
      ReadyWeaken(env, defined + {d}, Defines(info, defined, ins), State());
    }

    /** Synchronizes the globals where the instruction asks for it, keeping the inputs in place. */
    method SyncForSideEffects(ghost a: Alloc, ins: Inst, hosts: seq<Operand>, avoid: set<nat>, ghost defined: set<nat>) returns (ok: bool)
      requires WellFormed(info, env.slots, defined, ins) && InputLoop(a, ins, defined, hosts, avoid, |ins.i|)
      modifies this`vregs, this`frameCur, this`code
      ensures ok ==> InputLoop(a, ins, defined, hosts, avoid, |ins.i|)
      ensures ok && ins.op.HasSideEffect() ==> AllSynced(env, State())
      ensures |info.locals| <= 256 ==> ok
    {
      ok := true;
      if ins.op.HasSideEffect() {
        ghost var b := State();
        ok := SyncGlobals(defined, avoid);
        if ok {
          InputsLater(env, defined, a, b, State(), ins, hosts, avoid, Constraints(ins.op).order[..|ins.i|]);
        }
      }
    }

    /** The inputs and, before side effects, the globals. */
    method AllocSources(ins: Inst, ghost defined: set<nat>) returns (hosts: seq<Operand>, used: set<nat>, ok: bool)
      requires Valid(defined) && WellFormed(info, env.slots, defined, ins) && HasOperands(ins.op)
      modifies this`vregs, this`p2v, this`frameCur, this`code
      ensures ok ==> InputLoop(old(State()), ins, defined, hosts, used, |ins.i|)
      ensures ok && ins.op.HasSideEffect() ==> AllSynced(env, State())
      ensures |info.locals| <= 256 ==> ok
    {
      ghost var a := State();
      hosts, used, ok := AllocInputs(ins, defined);
      if ok {
        ok := SyncForSideEffects(a, ins, hosts, used, defined);
      }
    }

    /** AllocOp: inputs, synchronization, outputs.  `mid` is the state in which the instruction executes. */
    method AllocOp(ins: Inst, ghost defined: set<nat>) returns (host: Inst, ghost avoid: set<nat>, ghost mid: Alloc, ok: bool)
      requires Valid(defined) && WellFormed(info, env.slots, defined, ins) && HasOperands(ins.op) && QSel.Selected(ins)
      modifies this`vregs, this`p2v, this`frameCur, this`code
      ensures ok ==> Allocated(env, defined, old(State()), mid, State(), ins, host, avoid) && env.info == info
      ensures |info.locals| <= 256 ==> ok
    {
      ghost var a := State();
      var hosts, used;
      hosts, used, ok := AllocSources(ins, defined);
      avoid, host, mid := used, ins, State();
      if !ok {
        return;
      }
      ghost var b := State();
      ConstraintFacts(ins.op);
      PoolNotEmpty(used);
      assert Constraints(ins.op).order[..|ins.i|] == Constraints(ins.op).order;
      AllInputsDone(env, defined, a, b, ins, hosts, used);
      var outs;
      outs, mid, ok := AllocOutput(ins, hosts, used, defined);
      host := Inst(ins.op, outs, hosts);
      if ok {
        InputsLater(env, defined, a, b, mid, ins, hosts, used, Constraints(ins.op).order);
        AllInputsDone(env, defined, a, mid, ins, hosts, used);
      }
    }

    /** AllocOp for instructions that do not end the block. */
    method VisitOp(ins: Inst, ghost defined: set<nat>) returns (ghost step: Emission, ok: bool)
      requires Valid(defined) && WellFormed(info, env.slots, defined, ins) && QSel.Selected(ins)
      requires HasOperands(ins.op) && !ins.op.IsTerminator()
      modifies this`vregs, this`p2v, this`frameCur, this`code
      ensures ok ==> State() == step.after && Visited(env, defined, old(State()), ins, step)
      ensures |info.locals| <= 256 ==> ok
    {
      ghost var a := State();
      ghost var avoid;
      ghost var mid;
      var host;
      host, avoid, mid, ok := AllocOp(ins, defined);
      step := Emission(mid, mid, host);
      if ok {
        ghost var b := State();
        code := code + [host];
        step := Emission(mid, State(), host);
        AllocatedIsTranslated(env, defined, a, mid, b, ins, host, avoid, State());
      }
    }

    /** Br and Brcc; GBr and GBrind. */
    method VisitTerminator(ins: Inst, ghost defined: set<nat>) returns (ghost step: Emission, ok: bool)
      requires Valid(defined) && WellFormed(info, env.slots, defined, ins) && QSel.Selected(ins) && ins.op.IsTerminator()
      modifies this`vregs, this`p2v, this`frameCur, this`code
      ensures ok ==> State() == step.after && Visited(env, defined, old(State()), ins, step)
      ensures |info.locals| <= 256 ==> ok
    {
      ghost var a := State();
      var host := ins;
      ghost var avoid: set<nat> := {};
      ghost var b := a;
      ok := true;
      StepReflexive(env, defined, {}, a);
      if HasOperands(ins.op) {
        host, avoid, b, ok := AllocOp(ins, defined);
      }
      step := Emission(b, b, host);
      if ok {
        ReadyWeaken(env, defined, {}, b);
        if ins.op.Br? || ins.op.Brcc? {
          ok := SpillGlobals({});
        } else {
          ok := RegionBoundary();
        }
        if ok {
          ghost var mid := State();
          code := code + [host];
          step := Emission(mid, State(), host);
          TerminatorIsTranslated(env, defined, a, b, mid, State(), ins, host, avoid);
        }
      }
    }

    method VisitCall(ins: Inst, ghost defined: set<nat>) returns (ghost step: Emission, ok: bool)
      requires Valid(defined) && WellFormed(info, env.slots, defined, ins) && ins.op.Hcall? && |vregs| <= 255
      modifies this`vregs, this`p2v, this`frameCur, this`code
      ensures ok ==> State() == step.after && Visited(env, defined, old(State()), ins, step)
      ensures |info.locals| <= 256 ==> ok
    {
      ghost var a := State();
      ok := CallOp(defined);
      ghost var mid := State();
      step := Emission(mid, mid, ins);
      if ok {
        code := code + [ins];
        step := Emission(mid, State(), ins);
        CallIsTranslated(env, defined, a, mid, State(), ins);
      }
    }

    /** QRegAllocVisitor. */
    method VisitInst(ins: Inst, ghost defined: set<nat>) returns (ghost step: Emission, ok: bool)
      requires Valid(defined) && WellFormed(info, env.slots, defined, ins) && QSel.Selected(ins)
      requires ins.op.Hcall? ==> info.NumAll() <= 255
      modifies this`vregs, this`p2v, this`frameCur, this`code
      ensures ok ==> State() == step.after && Visited(env, defined, old(State()), ins, step)
      ensures |info.locals| <= 256 ==> ok
    {
      if ins.op.Hcall? {
        step, ok := VisitCall(ins, defined);
      } else if ins.op.IsTerminator() {
        step, ok := VisitTerminator(ins, defined);
      } else {
        step, ok := VisitOp(ins, defined);
      }
    }

    /** The state of the inner loop of Run after `k` instructions of a block that began in `a`. */
    ghost predicate InBlock(a: Alloc, insts: seq<Inst>, k: nat, defined: set<nat>, trace: seq<Emission>)
      reads this
    {
      && Valid(defined) && State() == Final(a, trace) && BlockProgress(env, a, insts, k, defined, trace)
      && (k > 0 && (insts[k - 1].op.IsTerminator() || insts[k - 1].op.Hcall?) ==> AllInMemory(env, State()))
    }

    method AllocNext(ghost a: Alloc, insts: seq<Inst>, k: nat, ghost defined: set<nat>, ghost trace: seq<Emission>)
      returns (ghost step: Emission, ok: bool)
      requires InBlock(a, insts, k, defined, trace) && k < |insts| && QSel.Selected(insts[k]) && (insts[k].op.Hcall? ==> info.NumAll() <= 255)
      modifies this`vregs, this`p2v, this`frameCur, this`code
      ensures ok ==> InBlock(a, insts, k + 1, Known(env, defined, insts[k]), trace + [step])
      ensures |info.locals| <= 256 ==> ok
    {
      NextIsWellFormed(env, a, insts, k, defined, trace);
      step, ok := VisitInst(insts[k], defined);
      if ok {
        BlockStep(env, a, insts, k, defined, trace, step);
      }
    }

    /** The inner loop of Run. */
    method AllocCode(ghost a: Alloc, insts: seq<Inst>) returns (ghost defined: set<nat>, ghost trace: seq<Emission>, ok: bool)
      requires InBlock(a, insts, 0, {}, []) && QSel.AllSelected(insts)
      requires forall k | 0 <= k < |insts| && insts[k].op.Hcall? :: info.NumAll() <= 255
      modifies this`vregs, this`p2v, this`frameCur, this`code
      ensures ok ==> InBlock(a, insts, |insts|, defined, trace)
      ensures |info.locals| <= 256 ==> ok
    {
      trace, ok, defined := [], true, {};
      var k := 0;
      while k < |insts| && ok
        invariant 0 <= k <= |insts| && (ok ==> InBlock(a, insts, k, defined, trace)) && (|info.locals| <= 256 ==> ok)
      {
        ghost var step;
        step, ok := AllocNext(a, insts, k, defined, trace);
        trace, defined, k := trace + [step], Known(env, defined, insts[k]), k + 1;
      }
    }

    /** One block, between two block boundaries. */
    method AllocBlock(block: Block) returns (block': Block, ghost trace: seq<Emission>, ok: bool)
      requires Valid({}) && AllInMemory(env, State()) && WellFormedBlock(info, env.slots, block) && QSel.AllSelected(block.code)
      requires forall k | 0 <= k < |block.code| && block.code[k].op.Hcall? :: info.NumAll() <= 255
      modifies this`vregs, this`p2v, this`frameCur, this`code
      ensures ok ==> Valid({}) && AllInMemory(env, State())
      ensures ok ==> BlockTranslated(env, block, block', old(State()).(code := []), trace)
      ensures |info.locals| <= 256 ==> ok
    {
      ghost var was := State();
      code := [];
      ghost var a := State();
      NewBlock(env, was, a);
      ghost var defined;
      defined, trace, ok := AllocCode(a, block.code);
      block' := Block(code, block.succs);
      if ok {
        BlockDone(env, a, block, defined, trace);
        ReadyWeaken(env, defined, {}, State());
      }
    }

    method Run(blocks: seq<Block>) returns (blocks': seq<Block>, ghost starts: seq<Alloc>, ghost traces: seq<seq<Emission>>, ok: bool)
      requires Valid({}) && AllInMemory(env, State())
      requires forall b | 0 <= b < |blocks| :: WellFormedBlock(info, env.slots, blocks[b]) && QSel.AllSelected(blocks[b].code)
      requires HelperLimit(info, blocks)
      modifies this`vregs, this`p2v, this`frameCur, this`code
      ensures ok ==> RegionTranslated(env, blocks, blocks', starts, traces)
      ensures |info.locals| <= 256 ==> ok
    {
      blocks', starts, traces, ok := [], [], [], true;
      while |blocks'| < |blocks|
        invariant |blocks'| <= |blocks| && ok && Valid({}) && AllInMemory(env, State())
        invariant RegionTranslated(env, blocks[..|blocks'|], blocks', starts, traces)
      {
        ghost var k := |blocks'|;
        ghost var start := State().(code := []);
        ghost var trace;
        var block := blocks[|blocks'|];
        var block';
        block', trace, ok := AllocBlock(block);
        if !ok {
          return;
        }
        RegionExtend(env, blocks, k, blocks', starts, traces, block', start, trace);
        blocks', starts, traces := blocks' + [block'], starts + [start], traces + [trace];
      }
      assert blocks[..|blocks'|] == blocks;
    }
  }

  /** The only change is that the slot of `v` exists and is up to date. */
  ghost predicate SyncedOnly(a: Alloc, a': Alloc, v: nat) {
    && v < |a.vregs| == |a'.vregs| && a'.p2v == a.p2v && a'.vregs == a.vregs[v := a'.vregs[v]]
    && a'.vregs[v].loc == a.vregs[v].loc && a'.vregs[v].p == a.vregs[v].p
    && (a'.vregs[v].loc == REG ==> a'.vregs[v].synced && a'.vregs[v].spillOffs.Some?)
  }

  /** The only change is that `v` now lives in its slot. */
  ghost predicate SpilledOnly(a: Alloc, a': Alloc, v: nat) {
    && v < |a.vregs| == |a'.vregs| && a'.vregs == a.vregs[v := a'.vregs[v]] && a'.vregs[v].loc == MEM
    && a'.p2v == if a.vregs[v].loc == REG && a.vregs[v].p < |a.p2v| then a.p2v[a.vregs[v].p := None] else a.p2v
  }

  /** At most the owner of `p` has moved to its slot. */
  ghost predicate EvictedAt(a: Alloc, a': Alloc, p: nat) {
    && |a.vregs| == |a'.vregs| && |a.p2v| == |a'.p2v|
    && (forall r | 0 <= r < |a.p2v| && r != p :: a'.p2v[r] == a.p2v[r])
    && (forall v | 0 <= v < |a.vregs| :: a'.vregs[v] == a.vregs[v] || (a.vregs[v].loc == REG && a.vregs[v].p == p && a'.vregs[v].loc == MEM))
  }

  /** Locations are as before; only slots and flags may differ. */
  ghost predicate SameHomes(a: Alloc, b: Alloc) {
    && |a.vregs| == |b.vregs| && b.p2v == a.p2v
    && forall v | 0 <= v < |a.vregs| :: b.vregs[v].loc == a.vregs[v].loc && b.vregs[v].p == a.vregs[v].p
  }

  /** No host register has a new owner. */
  ghost predicate OwnersDropped(a: Alloc, b: Alloc) {
    |a.p2v| == |b.p2v| && forall p | 0 <= p < |a.p2v| :: b.p2v[p].None? || b.p2v[p] == a.p2v[p]
  }

  /** Some virtual registers have moved to their slots. */
  ghost predicate EvictedFrom(a: Alloc, b: Alloc) {
    |a.vregs| == |b.vregs| && forall v | 0 <= v < |a.vregs| :: b.vregs[v] == a.vregs[v] || b.vregs[v].loc == MEM
  }

  lemma ReadyWeaken(e: Env, more: set<nat>, defined: set<nat>, a: Alloc)
    requires |a.vregs| == e.info.NumAll() && Ready(e, more, a) && defined <= more
    ensures Ready(e, defined, a)
  {
    forall v: nat | Live(e, defined, v) ensures HasPlace(a.vregs[v]) {
      assert Live(e, more, v);
    }
  }

  /** The result of AllocOp for one instruction. */
  ghost predicate Allocated(e: Env, defined: set<nat>, a: Alloc, mid: Alloc, a': Alloc, ins: Inst, host: Inst, avoid: set<nat>) {
    && Step(e, defined, {}, a, mid) && Inv(e, a') && Ready(e, Defines(e.info, defined, ins), a') && a'.code == mid.code
    && Shaped(ins) && Shaped(host) && host.op == ins.op && InputsPlaced(e, defined, a, mid, ins, host.i, avoid)
    && (ins.op.HasSideEffect() ==> AllSynced(e, mid))
    && (|ins.o| == 1 ==> OutputPlaced(e, mid, a', ins.o[0], host.o[0]) && (ins.op.Binop? ==> host.o[0] == host.i[0]))
    && (|ins.o| == 0 ==> a' == mid)
  }

  ghost predicate InputsPlaced(e: Env, defined: set<nat>, a: Alloc, b: Alloc, ins: Inst, hosts: seq<Operand>, avoid: set<nat>)
    requires |a.vregs| == |b.vregs| == e.info.NumAll() && AllMoves(Emitted(a, b)) && Shaped(ins)
  {
    && |hosts| == |ins.i| && |Constraints(ins.op).ins| == |ins.i|
    && forall k: nat {:trigger hosts[k]} | k < |hosts| ::
         InputDone(e, defined, a, b, Constraints(ins.op).ins[k].cr, ins.i[k], hosts[k], avoid)
  }

  lemma AllInputsDone(e: Env, defined: set<nat>, a: Alloc, b: Alloc, ins: Inst, hosts: seq<Operand>, avoid: set<nat>)
    requires |a.vregs| == |b.vregs| == e.info.NumAll() && AllMoves(Emitted(a, b)) && Shaped(ins) && HasOperands(ins.op)
    requires InputsDone(e, defined, a, b, ins, hosts, avoid, Constraints(ins.op).order)
    ensures InputsPlaced(e, defined, a, b, ins, hosts, avoid)
  {
    forall k: nat | k < |hosts|
      ensures InputDone(e, defined, a, b, Constraints(ins.op).ins[k].cr, ins.i[k], hosts[k], avoid)
    {
      InOrder(ins.op, k);
    }
  }

  /** Every input has its turn. */
  lemma InOrder(op: Op, k: nat)
    requires HasOperands(op) && k < op.InputCount()
    ensures k in Constraints(op).order
  {
    ConstraintFacts(op);
    Listed(Constraints(op).order, op.InputCount(), k);
  }

  lemma Listed(order: seq<nat>, n: nat, k: nat)
    requires (n == 1 && order == [0]) || (n == 2 && (order == [0, 1] || order == [1, 0]))
    requires k < n
    ensures k in order
  {
    assert order[0] in order && (n == 2 ==> order[1] in order);
  }

  lemma InputsLater(e: Env, defined: set<nat>, a: Alloc, b: Alloc, c: Alloc, ins: Inst, hosts: seq<Operand>, avoid: set<nat>, done: seq<nat>)
    requires Step(e, defined, {}, a, b) && Step(e, defined, avoid, b, c) && WellFormed(e.info, e.slots, defined, ins)
    requires InputsDone(e, defined, a, b, ins, hosts, avoid, done)
    ensures Step(e, defined, {}, a, c) && InputsDone(e, defined, a, c, ins, hosts, avoid, done)
  {
    StepWeaken(e, defined, avoid, {}, b, c);
    StepTransitive(e, defined, {}, a, b, c);
    forall k: nat | k < |hosts| && k in done
      ensures InputDone(e, defined, a, c, Constraints(ins.op).ins[k].cr, ins.i[k], hosts[k], avoid)
    {
      assert Readable(e.info, e.slots, defined, ins.i[k]);
      InputLater(e, defined, a, b, c, Constraints(ins.op).ins[k].cr, ins.i[k], hosts[k], avoid, avoid);
    }
  }

  ghost predicate InputDone(e: Env, defined: set<nat>, a: Alloc, b: Alloc, cr: set<nat>, opr: Operand, host: Operand, avoid: set<nat>)
    requires |a.vregs| == |b.vregs| == e.info.NumAll() && AllMoves(Emitted(a, b))
  {
    Fetched(e, defined, a, b, opr, host) && InputPlaced(b, cr, opr, host) && InKept(avoid, host)
  }

  /** The inputs listed in `done` have been given their host operands. */
  ghost predicate InputsDone(e: Env, defined: set<nat>, a: Alloc, b: Alloc, ins: Inst, hosts: seq<Operand>, avoid: set<nat>, done: seq<nat>)
    requires |a.vregs| == |b.vregs| == e.info.NumAll() && AllMoves(Emitted(a, b)) && Shaped(ins)
  {
    && |hosts| == |ins.i| && |Constraints(ins.op).ins| == |ins.i|
    && forall k: nat {:trigger k in done} | k < |hosts| && k in done ::
         InputDone(e, defined, a, b, Constraints(ins.op).ins[k].cr, ins.i[k], hosts[k], avoid)
  }

  lemma InputsStart(e: Env, defined: set<nat>, a: Alloc, ins: Inst)
    requires Inv(e, a) && Ready(e, defined, a) && WellFormed(e.info, e.slots, defined, ins) && HasOperands(ins.op)
    ensures Step(e, defined, {}, a, a) && InputsDone(e, defined, a, a, ins, ins.i, GPR_FIXED, Constraints(ins.op).order[..0])
    ensures |GPR_FIXED - GPR_FIXED| <= 0
  {
    StepReflexive(e, defined, {}, a);
    ConstraintFacts(ins.op);
    assert GPR_FIXED - GPR_FIXED == {};
  }

  /** Later steps that keep the registers in use do not disturb an input. */
  lemma InputLater(e: Env, defined: set<nat>, a: Alloc, b: Alloc, c: Alloc, cr: set<nat>, opr: Operand, host: Operand, avoid: set<nat>, more: set<nat>)
    requires Step(e, defined, {}, a, b) && Step(e, defined, avoid, b, c) && avoid <= more && (opr.VGPR? || opr.Const?)
    requires InputDone(e, defined, a, b, cr, opr, host, avoid)
    ensures AllMoves(Emitted(a, c)) && InputDone(e, defined, a, c, cr, opr, host, more)
  {
    StepWeaken(e, defined, avoid, {}, b, c);
    FetchedLater(e, defined, defined, avoid, a, b, c, opr, host);
    if opr.VGPR? {
      if c.p2v[host.p].Some? {
        assert OwnerOk(c, host.p) && StaysIn(avoid, b, c, c.p2v[host.p].value) && TrackOk(e, b, c.p2v[host.p].value);
      }
      if cr == GPR_ALL {
        assert StaysIn(avoid, b, c, opr.v);
      }
    }
  }

  lemma InputAdded(e: Env, defined: set<nat>, a: Alloc, b: Alloc, c: Alloc, ins: Inst, hosts: seq<Operand>, avoid: set<nat>,
                   order: seq<nat>, n: nat, host: Operand, avoid': set<nat>)
    requires Step(e, defined, {}, a, b) && Step(e, defined, avoid, b, c) && WellFormed(e.info, e.slots, defined, ins)
    requires n < |order| && order[n] < |ins.i| && InputsDone(e, defined, a, b, ins, hosts, avoid, order[..n])
    requires Fetched(e, defined, b, c, ins.i[order[n]], host) && avoid' == avoid + (if host.PGPR? then {host.p} else {})
    requires InputPlaced(c, Constraints(ins.op).ins[order[n]].cr, ins.i[order[n]], host) && GPR_FIXED <= avoid
    ensures Step(e, defined, {}, a, c) && InputsDone(e, defined, a, c, ins, hosts[order[n] := host], avoid', order[..n + 1])
    ensures |avoid' - GPR_FIXED| <= |avoid - GPR_FIXED| + 1
  {
    var k0 := order[n];
    StepWeaken(e, defined, avoid, {}, b, c);
    StepTransitive(e, defined, {}, a, b, c);
    assert Readable(e.info, e.slots, defined, ins.i[k0]);
    FetchedEarlier(e, defined, {}, a, b, c, ins.i[k0], host);
    assert order[..n + 1] == order[..n] + [k0];
    forall k: nat | k < |hosts| && k in order[..n + 1]
      ensures InputDone(e, defined, a, c, Constraints(ins.op).ins[k].cr, ins.i[k], hosts[k0 := host][k], avoid')
    {
      if k != k0 {
        assert k in order[..n] && Readable(e.info, e.slots, defined, ins.i[k]);
        InputLater(e, defined, a, b, c, Constraints(ins.op).ins[k].cr, ins.i[k], hosts[k], avoid, avoid');
      }
    }
    if host.PGPR? {
      assert avoid' - GPR_FIXED <= (avoid - GPR_FIXED) + {host.p};
      CardinalityBound(avoid' - GPR_FIXED, (avoid - GPR_FIXED) + {host.p});
    }
  }

  lemma CardinalityBound(s: set<nat>, t: set<nat>)
    requires s <= t
    ensures |s| <= |t|
  {
    assert t == s + (t - s);
  }

  /** Two registers in use never exhaust the allocatable ones. */
  lemma PoolNotEmpty(avoid: set<nat>)
    requires |avoid - GPR_FIXED| <= 2
    ensures SomeTarget(GPR_ALL, avoid)
  {
    var three: set<nat> := {RAX, RCX, RDX};
    assert |three| == 3;
    if three <= avoid {
      CardinalityBound(three, avoid - GPR_FIXED);
      assert false;
    }
    var p :| p in three && p !in avoid;
    assert p < GPR_NUM && p in GPR_ALL;
  }

  /** No input finds itself without an allowed register: the panic of AllocPReg is unreachable. */
  lemma TargetExists(op: Op, n: nat, avoid: set<nat>)
    requires HasOperands(op) && n < |Constraints(op).order| && Constraints(op).order[n] < |Constraints(op).ins|
    requires GPR_FIXED <= avoid && |avoid - GPR_FIXED| <= n && (n == 0 ==> avoid == GPR_FIXED)
    ensures var cr := Constraints(op).ins[Constraints(op).order[n]].cr; SomeTarget(cr, avoid) && cr <= GPR_ALL
  {
    ConstraintFacts(op);
    if op.GBrind? {
      assert RSI < GPR_NUM && RSI !in GPR_FIXED;
    } else if IsShift(op) && n == 0 {
      assert RCX < GPR_NUM && RCX !in GPR_FIXED;
    } else {
      PoolNotEmpty(avoid);
    }
  }

  // ---------- From the allocator's results to its guarantee ----------

  /** An instruction was translated, and what must hold next holds. */
  ghost predicate Visited(e: Env, defined: set<nat>, a: Alloc, ins: Inst, step: Emission) {
    && Translated(e, defined, a, step.mid, step.after, ins, step.host)
    && (ins.op.IsTerminator() || ins.op.Hcall? ==> AllInMemory(e, step.after))
  }

  lemma StepArrives(e: Env, defined: set<nat>, keep: set<nat>, a: Alloc, b: Alloc)
    requires Step(e, defined, keep, a, b)
    ensures Arrives(e, defined, defined, a, b)
  {
    forall q, m ensures ArrivesOn(e, defined, defined, a, b, q, m) {
      assert Carries(e, defined, a, b, q, m);
    }
  }

  lemma StepsArrive(e: Env, defined: set<nat>, later: set<nat>, a: Alloc, b: Alloc, c: Alloc)
    requires Step(e, defined, {}, a, b) && Step(e, later, {}, b, c) && later <= defined
    ensures Arrives(e, defined, later, a, c)
  {
    var c1, c2 := Emitted(a, b), Emitted(b, c);
    assert c.code[..|a.code|] == b.code[..|a.code|] == a.code;
    assert Emitted(a, c) == c1 + c2;
    forall q, m ensures ArrivesOn(e, defined, later, a, c, q, m) {
      if Rel(e, defined, a, q, m) {
        assert Carries(e, defined, a, b, q, m);
        RelWeaken(e, defined, later, b, q, RunMoves(c1, m));
        assert Carries(e, later, b, c, q, RunMoves(c1, m));
        RunMovesConcat(c1, c2, m);
      }
    }
  }

  /** Appending an instruction does not concern the bookkeeping. */
  lemma InvSameTracks(e: Env, a: Alloc, b: Alloc)
    requires Inv(e, a) && b == a.(code := b.code)
    ensures Inv(e, b)
  {
    forall u: nat | u < |b.vregs| ensures TrackOk(e, b, u) { assert TrackOk(e, a, u); }
    forall p: nat | p < GPR_NUM ensures OwnerOk(b, p) { assert OwnerOk(a, p); }
    forall u: nat, v: nat | u < |b.vregs| && v < |b.vregs| ensures SlotsApart(b, u, v) { assert SlotsApart(a, u, v); }
  }

  lemma ReadySameTracks(e: Env, defined: set<nat>, a: Alloc, b: Alloc)
    requires |a.vregs| == e.info.NumAll() && Ready(e, defined, a) && b == a.(code := b.code)
    ensures Ready(e, defined, b)
  {
    forall v: nat | Live(e, defined, v) ensures HasPlace(b.vregs[v]) {
      assert HasPlace(a.vregs[v]);
    }
  }

  /** A new block starts with an empty list of instructions and no values in locals. */
  lemma NewBlock(e: Env, a: Alloc, b: Alloc)
    requires Inv(e, a) && Ready(e, {}, a) && AllInMemory(e, a) && b == a.(code := b.code)
    ensures Inv(e, b) && Ready(e, {}, b) && AllInMemory(e, b)
  {
    InvSameTracks(e, a, b);
    ReadySameTracks(e, {}, a, b);
  }

  lemma AllocatedFits(e: Env, defined: set<nat>, a: Alloc, mid: Alloc, a': Alloc, ins: Inst, host: Inst, avoid: set<nat>)
    requires Allocated(e, defined, a, mid, a', ins, host, avoid) && WellFormed(e.info, e.slots, defined, ins)
    requires HasOperands(ins.op) && QSel.Selected(ins)
    ensures OperandsFit(ins, host)
  {
    ConstraintFacts(ins.op);
    var cts := Constraints(ins.op).ins;
    forall k: nat | k < |host.i|
      ensures if ins.i[k].VGPR? then host.i[k].PGPR? && host.i[k].p in cts[k].cr - GPR_FIXED
              else host.i[k].Const? && Encodes(ins.op, k, host.i[k].val)
    {
      assert Readable(e.info, e.slots, defined, ins.i[k]);
      assert InputDone(e, defined, a, mid, cts[k].cr, ins.i[k], host.i[k], avoid);
    }
    if |ins.i| == 2 && ins.i[0].VGPR? && ins.i[1].VGPR? && ins.i[0].v != ins.i[1].v {
      assert InputDone(e, defined, a, mid, cts[0].cr, ins.i[0], host.i[0], avoid) && InputDone(e, defined, a, mid, cts[1].cr, ins.i[1], host.i[1], avoid);
      assert TrackOk(e, mid, ins.i[0].v);
    }
    if |ins.o| == 1 {
      assert Writable(e.info, e.slots, ins.op, ins.o[0]) && OutputPlaced(e, mid, a', ins.o[0], host.o[0]);
      if host.o[0].PGPR? {
        InGprAll(host.o[0].p);
      }
    }
  }

  lemma InGprAll(p: nat)
    ensures p in GPR_ALL <==> p < GPR_NUM
  {
  }

  lemma InputSurvives(e: Env, defined: set<nat>, later: set<nat>, a: Alloc, b: Alloc, mid: Alloc, cr: set<nat>, opr: Operand, host: Operand, avoid: set<nat>)
    requires Step(e, defined, {}, a, b) && Step(e, later, {}, b, mid) && WritesOutside(Emitted(b, mid), GPR_ALL)
    requires InputDone(e, defined, a, b, cr, opr, host, avoid)
    ensures AllMoves(Emitted(a, mid)) && Fetched(e, defined, a, mid, opr, host)
  {
    if host.PGPR? {
      InGprAll(host.p);
    }
    FetchedLater(e, defined, later, GPR_ALL, a, b, mid, opr, host);
  }

  lemma InputsSurvive(e: Env, defined: set<nat>, later: set<nat>, a: Alloc, b: Alloc, mid: Alloc, ins: Inst, hosts: seq<Operand>, avoid: set<nat>)
    requires Step(e, defined, {}, a, b) && Step(e, later, {}, b, mid) && WritesOutside(Emitted(b, mid), GPR_ALL)
    requires Shaped(ins) && InputsPlaced(e, defined, a, b, ins, hosts, avoid)
    ensures AllMoves(Emitted(a, mid)) && forall k: nat {:trigger hosts[k]} | k < |ins.i| :: Fetched(e, defined, a, mid, ins.i[k], hosts[k])
  {
    MovesJoin(a, b, mid);
    forall k: nat | k < |ins.i| ensures Fetched(e, defined, a, mid, ins.i[k], hosts[k]) {
      InputSurvives(e, defined, later, a, b, mid, Constraints(ins.op).ins[k].cr, ins.i[k], hosts[k], avoid);
    }
  }

  lemma MovesJoin(a: Alloc, b: Alloc, c: Alloc)
    requires |a.code| <= |b.code| <= |c.code| && b.code[..|a.code|] == a.code && c.code[..|b.code|] == b.code
    requires AllMoves(Emitted(a, b)) && AllMoves(Emitted(b, c))
    ensures AllMoves(Emitted(a, c))
  {
    EmittedSplit(a, b, c);
  }

  /** Inputs that survive until the instruction executes are placed as the guarantee says. */
  lemma AllocatedOperands(e: Env, defined: set<nat>, later: set<nat>, a: Alloc, b: Alloc, mid: Alloc, a': Alloc, ins: Inst, host: Inst, avoid: set<nat>)
    requires Allocated(e, defined, a, b, a', ins, host, avoid) && WellFormed(e.info, e.slots, defined, ins)
    requires Step(e, later, {}, b, mid) && WritesOutside(Emitted(b, mid), GPR_ALL)
    ensures AllMoves(Emitted(a, mid)) && OperandsPlaced(e, defined, a, mid, ins, host)
  {
    EmittedSplit(a, b, mid);
    InputsSurvive(e, defined, later, a, b, mid, ins, host.i, avoid);
    if ins.op.Setcc? {
      assert Writable(e.info, e.slots, ins.op, ins.o[0]) && OutputPlaced(e, b, a', ins.o[0], host.o[0]);
    }
  }

  lemma AllocatedIsTranslated(e: Env, defined: set<nat>, a: Alloc, mid: Alloc, b: Alloc, ins: Inst, host: Inst, avoid: set<nat>, a': Alloc)
    requires Allocated(e, defined, a, mid, b, ins, host, avoid) && WellFormed(e.info, e.slots, defined, ins) && QSel.Selected(ins)
    requires HasOperands(ins.op) && !ins.op.IsTerminator() && a' == b.(code := b.code + [host])
    ensures Visited(e, defined, a, ins, Emission(mid, a', host))
  {
    StepArrives(e, defined, {}, a, mid);
    StepReflexive(e, defined, {}, mid);
    assert Emitted(mid, mid) == [];
    AllocatedFits(e, defined, a, mid, b, ins, host, avoid);
    AllocatedOperands(e, defined, defined, a, mid, mid, b, ins, host, avoid);
    InvSameTracks(e, b, a');
    ReadySameTracks(e, Defines(e.info, defined, ins), b, a');
    assert a'.(code := mid.code) == b;
  }

  lemma CallIsTranslated(e: Env, defined: set<nat>, a: Alloc, mid: Alloc, a': Alloc, ins: Inst)
    requires Step(e, defined, {}, a, mid) && AllInMemory(e, mid) && WellFormed(e.info, e.slots, defined, ins) && ins.op.Hcall?
    requires forall p | 0 <= p < GPR_NUM && p in GPR_CALL_CLOBBER :: mid.p2v[p].None?
    requires a' == mid.(code := mid.code + [ins])
    ensures Visited(e, defined, a, ins, Emission(mid, a', ins))
  {
    StepArrives(e, defined, {}, a, mid);
    FetchedConst(e, defined, {}, a, mid, ins.i[0]);
    InvSameTracks(e, mid, a');
    ReadySameTracks(e, defined, mid, a');
  }

  lemma TerminatorIsTranslated(e: Env, defined: set<nat>, a: Alloc, b: Alloc, mid: Alloc, a': Alloc, ins: Inst, host: Inst, avoid: set<nat>)
    requires WellFormed(e.info, e.slots, defined, ins) && QSel.Selected(ins) && ins.op.IsTerminator() && Step(e, defined, {}, a, b)
    requires if HasOperands(ins.op) then Allocated(e, defined, a, b, b, ins, host, avoid) else a == b && host == ins
    requires Step(e, {}, {}, b, mid) && StoresOnly(b, mid) && AllInMemory(e, mid) && a' == mid.(code := mid.code + [host])
    ensures Visited(e, defined, a, ins, Emission(mid, a', host))
  {
    StepsArrive(e, defined, {}, a, b, mid);
    if HasOperands(ins.op) {
      AllocatedFits(e, defined, a, b, b, ins, host, avoid);
      AllocatedOperands(e, defined, {}, a, b, mid, b, ins, host, avoid);
    }
    InvSameTracks(e, mid, a');
    ReadySameTracks(e, {}, mid, a');
  }

  // ---------- Progress through a block ----------

  lemma HomePlaced(e: Env, a: Alloc, cr: set<nat>, opr: Operand, host: Operand)
    requires opr.VGPR? && host.PGPR? && host.ty == opr.ty && opr.v < |a.vregs| && a.vregs[opr.v].loc == REG && a.vregs[opr.v].p == host.p
    requires host.p in cr && |a.vregs| == e.info.NumAll() && |a.p2v| == GPR_NUM && TrackOk(e, a, opr.v)
    ensures InputPlaced(a, cr, opr, host)
  {
  }

  lemma TranslatedOne(e: Env, defined: set<nat>, a: Alloc, code: seq<Inst>, trace: seq<Emission>)
    requires |code| == |trace| == 1 && Translated(e, defined, a, trace[0].mid, trace[0].after, code[0], trace[0].host)
    ensures CodeTranslated(e, defined, a, code, trace) && KnownAll(e, defined, code) == Known(e, defined, code[0])
  {
    assert code[1..] == [] && trace[1..] == [];
    assert CodeTranslated(e, Known(e, defined, code[0]), trace[0].after, [], []);
  }

  lemma AppendToRest<T>(s: seq<T>, x: T)
    requires s != []
    ensures (s + [x])[0] == s[0] && (s + [x])[1..] == s[1..] + [x]
  {
  }

  lemma {:induction false} TranslatedAppend(e: Env, defined: set<nat>, a: Alloc, code: seq<Inst>, trace: seq<Emission>, ins: Inst, step: Emission)
    requires CodeTranslated(e, defined, a, code, trace)
    requires Translated(e, KnownAll(e, defined, code), Final(a, trace), step.mid, step.after, ins, step.host)
    ensures CodeTranslated(e, defined, a, code + [ins], trace + [step])
    ensures KnownAll(e, defined, code + [ins]) == Known(e, KnownAll(e, defined, code), ins)
    decreases |code|
  {
    if code == [] {
      assert code + [ins] == [ins] && trace + [step] == [step];
      TranslatedOne(e, defined, a, [ins], [step]);
    } else {
      assert Final(trace[0].after, trace[1..]) == Final(a, trace);
      TranslatedAppend(e, Known(e, defined, code[0]), trace[0].after, code[1..], trace[1..], ins, step);
      AppendedRest(e, defined, a, code, trace, ins, step);
    }
  }

  lemma AppendedRest(e: Env, defined: set<nat>, a: Alloc, code: seq<Inst>, trace: seq<Emission>, ins: Inst, step: Emission)
    requires CodeTranslated(e, defined, a, code, trace) && code != []
    requires CodeTranslated(e, Known(e, defined, code[0]), trace[0].after, code[1..] + [ins], trace[1..] + [step])
    ensures CodeTranslated(e, defined, a, code + [ins], trace + [step])
    ensures KnownAll(e, defined, code + [ins]) == KnownAll(e, Known(e, defined, code[0]), code[1..] + [ins])
  {
    AppendToRest(code, ins);
    AppendToRest(trace, step);
  }

  ghost predicate BlockProgress(e: Env, a: Alloc, code: seq<Inst>, k: nat, defined: set<nat>, trace: seq<Emission>) {
    && k <= |code| && defined == KnownAll(e, {}, code[..k]) && CodeTranslated(e, {}, a, code[..k], trace)
    && WellFormedCode(e.info, e.slots, defined, code[k..])
  }

  lemma NextIsWellFormed(e: Env, a: Alloc, code: seq<Inst>, k: nat, defined: set<nat>, trace: seq<Emission>)
    requires BlockProgress(e, a, code, k, defined, trace) && k < |code|
    ensures WellFormed(e.info, e.slots, defined, code[k])
    ensures code[k].op.IsTerminator() ==> k + 1 == |code|
    ensures WellFormedCode(e.info, e.slots, Known(e, defined, code[k]), code[k + 1..])
  {
    assert code[k..][0] == code[k] && code[k..][1..] == code[k + 1..];
  }

  lemma BlockStep(e: Env, a: Alloc, code: seq<Inst>, k: nat, defined: set<nat>, trace: seq<Emission>, step: Emission)
    requires BlockProgress(e, a, code, k, defined, trace) && k < |code|
    requires Translated(e, defined, Final(a, trace), step.mid, step.after, code[k], step.host)
    ensures BlockProgress(e, a, code, k + 1, Known(e, defined, code[k]), trace + [step]) && Final(a, trace + [step]) == step.after
  {
    NextIsWellFormed(e, a, code, k, defined, trace);
    assert code[..k + 1] == code[..k] + [code[k]];
    TranslatedAppend(e, {}, a, code[..k], trace, code[k], step);
  }

  lemma BlockDone(e: Env, a: Alloc, block: Block, defined: set<nat>, trace: seq<Emission>)
    requires BlockProgress(e, a, block.code, |block.code|, defined, trace)
    requires Inv(e, a) && a.code == [] && AllInMemory(e, a) && WellFormedBlock(e.info, e.slots, block)
    ensures BlockTranslated(e, block, Block(Final(a, trace).code, block.succs), a, trace)
  {
    assert block.code[..|block.code|] == block.code;
  }

  lemma RegionAppend(e: Env, blocks: seq<Block>, blocks': seq<Block>, starts: seq<Alloc>, traces: seq<seq<Emission>>,
                     block: Block, block': Block, start: Alloc, trace: seq<Emission>)
    requires RegionTranslated(e, blocks, blocks', starts, traces) && BlockTranslated(e, block, block', start, trace)
    ensures RegionTranslated(e, blocks + [block], blocks' + [block'], starts + [start], traces + [trace])
  {
    forall b: nat | b < |blocks| + 1
      ensures BlockTranslated(e, (blocks + [block])[b], (blocks' + [block'])[b], (starts + [start])[b], (traces + [trace])[b])
    {
      if b < |blocks| {
        assert blocks'[b] == (blocks' + [block'])[b];
      }
    }
  }

  lemma RegionExtend(e: Env, blocks: seq<Block>, k: nat, blocks': seq<Block>, starts: seq<Alloc>, traces: seq<seq<Emission>>,
                     block': Block, start: Alloc, trace: seq<Emission>)
    requires k < |blocks| && RegionTranslated(e, blocks[..k], blocks', starts, traces) && BlockTranslated(e, blocks[k], block', start, trace)
    ensures RegionTranslated(e, blocks[..k + 1], blocks' + [block'], starts + [start], traces + [trace])
  {
    assert blocks[..k + 1] == blocks[..k] + [blocks[k]];
    RegionAppend(e, blocks[..k], blocks', starts, traces, blocks[k], block', start, trace);
  }

  lemma InitialInv(e: Env, a: Alloc)
    requires LayoutOk(e.info.globals, e.cpuSize) && (forall g | g in e.slots :: e.info.IsGlobal(g))
    requires |a.vregs| == e.info.NumAll() && a.p2v == seq(GPR_NUM, _ => None) && a.frameCur == 0
    requires forall v | 0 <= v < |a.vregs| :: a.vregs[v] == NewTrack(e.info, v).(loc := if e.info.IsGlobal(v) then MEM else DEAD)
    ensures Inv(e, a) && Ready(e, {}, a) && AllInMemory(e, a)
  {
    forall v: nat | v < |a.vregs| ensures TrackOk(e, a, v) {
    }
    forall p: nat | p < GPR_NUM ensures OwnerOk(a, p) {
    }
    forall u: nat, v: nat | u < |a.vregs| && v < |a.vregs| ensures SlotsApart(a, u, v) {
    }
  }

  /** Allocates a region.  The result is false where the program would panic: too many virtual
      registers for the track table, or a full spill frame. */
  method AllocateRegion(info: VRegsInfo, ghost slots: set<nat>, ghost cpuSize: nat, blocks: seq<Block>)
    returns (blocks': seq<Block>, ghost starts: seq<Alloc>, ghost traces: seq<seq<Emission>>, ok: bool)
    requires LayoutOk(info.globals, cpuSize) && (forall g | g in slots :: info.IsGlobal(g)) && HelperLimit(info, blocks)
    requires forall b | 0 <= b < |blocks| :: WellFormedBlock(info, slots, blocks[b]) && QSel.AllSelected(blocks[b].code)
    ensures ok ==> RegionTranslated(Env(info, slots, cpuSize), blocks, blocks', starts, traces)
    ensures info.NumAll() <= MAX_VREGS && |info.locals| <= 256 ==> ok
    ensures ok ==> info.NumAll() <= MAX_VREGS
  {
    blocks', starts, traces, ok := [], [], [], info.NumAll() <= MAX_VREGS;
    if ok {
      var ra := new QRegAlloc(info, slots, cpuSize);
      ra.Prologue();
      blocks', starts, traces, ok := ra.Run(blocks);
    }
  }
}
