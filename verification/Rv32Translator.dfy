/** RV32Translator of `dbt/guest/rv32_qir.cpp`: decodes guest code and builds the blocks of a region. */
module Rv32Translators {
  import opened Common
  import opened Qir
  import opened Rv32
  import opened Rv32Emission
  import opened Rv32Blocks
  import opened Rv32Regions

  datatype Control = NEXT | BRANCH | TB_OVF

  /** The region under construction: registers, blocks, the guest address of each block, and how it was
      translated once that is done. */
  datatype Region = Region(info: VRegsInfo, blocks: seq<Block>, ips: seq<Word>, plans: seq<Option<Plan>>)

  /** A branch to `t` stays in the region if and only if the region has a block for `t`, and goes to it. */
  ghost predicate StaysFor(ip2bb: map<Word, nat>, succs: seq<nat>, t: Word) {
    if t in ip2bb then succs == [ip2bb[t]] else succs == []
  }

  /** The same for the instruction that ends a block; both ways of a conditional branch have a block. */
  ghost predicate LocalFor(em: Emitter, ip2bb: map<Word, nat>, succs: seq<nat>, i: Insn, a: Word) {
    && (i.Jal? ==> StaysFor(ip2bb, succs, em.plus(a, i.imm)))
    && (i.Bcc? ==> |succs| == 2 && (em.plus(a, i.imm) in ip2bb ==> succs[0] == ip2bb[em.plus(a, i.imm)])
                   && (em.next(a) in ip2bb ==> succs[1] == ip2bb[em.next(a)]))
  }

  ghost predicate LocalEnd(em: Emitter, ip2bb: map<Word, nat>, block: Block, ip: Word, p: Plan) {
    match p
    case Exit => ip !in ip2bb
    case Run(n, tmp, cut) =>
      var a := AddrOf(em, ip, n);
      if cut then StaysFor(ip2bb, block.succs, a) else LocalFor(em, ip2bb, block.succs, em.insn(a), a)
  }

  /** Block `b` is either still empty or the translation of the code at its address. */
  ghost predicate Planned(em: Emitter, ip2bb: map<Word, nat>, s: Region, b: nat)
    requires |s.blocks| == |s.ips| == |s.plans| && b < |s.blocks|
  {
    match s.plans[b]
    case None => s.blocks[b] == Block([], [])
    case Some(p) =>
      BlockFor(em, s.ips, s.blocks[b], s.ips[b], p) && Fits(em, s.ips[b], p, s.info.NumAll()) && LocalEnd(em, ip2bb, s.blocks[b], s.ips[b], p)
  }

  ghost predicate Named(s: Region, ip2bb: map<Word, nat>) {
    forall ip {:trigger ip2bb[ip]} | ip in ip2bb :: ip2bb[ip] < |s.ips| && s.ips[ip2bb[ip]] == ip
  }

  /** Everything but the block being built is as it should be. */
  ghost predicate Inv(em: Emitter, ip2bb: map<Word, nat>, s: Region, cur: nat) {
    && |s.blocks| == |s.ips| == |s.plans| && GuestInfo(s.info) && Named(s, ip2bb)
    && forall b: nat {:trigger s.plans[b]} {:trigger Planned(em, ip2bb, s, b)} | b < |s.blocks| && b != cur :: Planned(em, ip2bb, s, b)
  }

  /** Registers and blocks are only added, and only block `cur` changes. */
  ghost predicate Grows(s: Region, s': Region, cur: nat) {
    && |s.blocks| == |s.ips| == |s.plans| <= |s'.blocks| == |s'.ips| == |s'.plans| && s.info.NumAll() <= s'.info.NumAll()
    && s'.ips[..|s.ips|] == s.ips && (forall b: nat | |s.plans| <= b < |s'.plans| :: s'.plans[b] == Some(Exit))
    && forall b: nat {:trigger s.blocks[b]} {:trigger s.plans[b]} | b < |s.blocks| && b != cur :: s'.blocks[b] == s.blocks[b] && s'.plans[b] == s.plans[b]
  }

  lemma LeavesGrows(ips: seq<Word>, ips': seq<Word>, block: Block, body: seq<Inst>, t: Word)
    requires |ips| <= |ips'| && ips'[..|ips|] == ips && Leaves(ips, block, body, t)
    ensures Leaves(ips', block, body, t)
  {
    if |block.succs| == 1 && block.succs[0] < |ips| {
      assert ips'[block.succs[0]] == ips'[..|ips|][block.succs[0]];
    }
  }

  lemma BlockForGrows(em: Emitter, ips: seq<Word>, ips': seq<Word>, block: Block, ip: Word, p: Plan)
    requires |ips| <= |ips'| && ips'[..|ips|] == ips && BlockFor(em, ips, block, ip, p)
    ensures BlockFor(em, ips', block, ip, p)
  {
    if p.Run? {
      var a, body := AddrOf(em, ip, p.n), StraightCode(em, ip, p.n, p.tmp);
      var tmp := p.tmp + TempsUsed(em, ip, p.n);
      assert forall k: nat | k < |ips| :: ips'[k] == ips'[..|ips|][k];
      if p.cut {
        LeavesGrows(ips, ips', block, body, a);
      } else if em.insn(a).Jal? {
        LeavesGrows(ips, ips', block, body + em.emit(a, tmp), em.plus(a, em.insn(a).imm));
      }
    }
  }

  lemma InvGrows(em: Emitter, ip2bb: map<Word, nat>, s: Region, s': Region, cur: nat)
    requires Inv(em, ip2bb, s, cur) && Grows(s, s', cur) && GuestInfo(s'.info)
    requires forall b: nat {:trigger s'.plans[b]} | |s.blocks| <= b < |s'.blocks| :: Planned(em, ip2bb, s', b)
    ensures Inv(em, ip2bb, s', cur)
  {
    assert forall k: nat | k < |s.ips| :: s'.ips[k] == s'.ips[..|s.ips|][k];
    forall b: nat | b < |s'.blocks| && b != cur ensures Planned(em, ip2bb, s', b) {
      if b < |s.blocks| {
        assert Planned(em, ip2bb, s, b) && s'.plans[b] == s.plans[b];
        if s.plans[b].Some? {
          BlockForGrows(em, s.ips, s'.ips, s.blocks[b], s.ips[b], s.plans[b].value);
        }
      }
    }
  }

  lemma GrowsTransitive(s: Region, s1: Region, s2: Region, cur: nat)
    requires Grows(s, s1, cur) && Grows(s1, s2, cur) && cur < |s.blocks|
    ensures Grows(s, s2, cur)
  {
    assert s2.ips[..|s.ips|] == s2.ips[..|s1.ips|][..|s.ips|];
    forall b: nat | |s.plans| <= b < |s2.plans| ensures s2.plans[b] == Some(Exit) {
      if b < |s1.plans| {
        assert s2.plans[b] == s1.plans[b];
      }
    }
    forall b: nat | b < |s.blocks| && b != cur ensures s2.blocks[b] == s.blocks[b] && s2.plans[b] == s.plans[b] {
      assert s1.blocks[b] == s.blocks[b];
    }
  }

  /** The loop stops at the first instruction that ends a block, at the limit, or at the boundary. */
  ghost predicate StopsExactly(em: Emitter, ip: Word, boundary: Word, p: Plan) {
    && p.Run? && 0 < Length(p) <= TB_MAX_INSNS
    && (forall k: nat {:trigger AddrOf(em, ip, k)} | 0 < k < Length(p) :: !em.reached(AddrOf(em, ip, k), boundary))
    && (p.cut ==> Length(p) == TB_MAX_INSNS || em.reached(AddrOf(em, ip, Length(p)), boundary))
  }

  /** The number of instructions that a range covers, from the one at `a` on when `n` came before. */
  function Scan(em: Emitter, a: Word, boundary: Word, n: nat): (k: nat)
    ensures k > n && (n < TB_MAX_INSNS ==> k <= TB_MAX_INSNS)
    decreases TB_MAX_INSNS - n
  {
    if EndsBlock(em.insn(a)) || n + 1 >= TB_MAX_INSNS || em.reached(em.next(a), boundary) then n + 1
    else Scan(em, em.next(a), boundary, n + 1)
  }

  lemma {:induction false} PlainAt(em: Emitter, ip: Word, n: nat, j: nat)
    requires PlainRun(em, ip, n) && j < n
    ensures !EndsBlock(em.insn(AddrOf(em, ip, j)))
    decreases n
  {
    if j > 0 {
      PlainAt(em, em.next(ip), n - 1, j - 1);
    }
  }

  /** A block covers exactly the instructions of the scan. */
  lemma {:induction false} CoversScan(em: Emitter, ips: seq<Word>, block: Block, ip: Word, boundary: Word, p: Plan, j: nat)
    requires BlockFor(em, ips, block, ip, p) && StopsExactly(em, ip, boundary, p) && j < Length(p)
    ensures Scan(em, AddrOf(em, ip, j), boundary, j) == Length(p)
    decreases Length(p) - j
  {
    RunExtends(em, ip, j, 0);
    if j < p.n {
      PlainAt(em, ip, p.n, j);
    }
    if j + 1 < Length(p) {
      CoversScan(em, ips, block, ip, boundary, p, j + 1);
    }
  }

  /** Any block may be taken up once all of them are as they should be, and given back when it is done. */
  lemma InvOpen(em: Emitter, ip2bb: map<Word, nat>, s: Region, cur: nat)
    requires Inv(em, ip2bb, s, |s.blocks|)
    ensures Inv(em, ip2bb, s, cur)
  {
    forall b: nat | b < |s.blocks| && b != cur ensures Planned(em, ip2bb, s, b) {
    }
  }

  lemma InvClose(em: Emitter, ip2bb: map<Word, nat>, s: Region, s': Region, cur: nat, p: Plan)
    requires Inv(em, ip2bb, s, cur) && cur < |s.blocks| && s' == s.(plans := s.plans[cur := Some(p)])
    requires BlockFor(em, s.ips, s.blocks[cur], s.ips[cur], p) && Fits(em, s.ips[cur], p, s.info.NumAll())
    requires LocalEnd(em, ip2bb, s.blocks[cur], s.ips[cur], p)
    ensures Inv(em, ip2bb, s', |s'.blocks|)
  {
    forall b: nat | b < |s'.blocks| ensures Planned(em, ip2bb, s', b) {
      if b != cur {
        assert Planned(em, ip2bb, s, b);
      }
    }
  }

  ghost predicate NotReached(em: Emitter, ip: Word, boundary: Word, n: nat) {
    forall k: nat {:trigger AddrOf(em, ip, k)} | 0 < k <= n :: !em.reached(AddrOf(em, ip, k), boundary)
  }

  lemma StillNotReached(em: Emitter, ip: Word, boundary: Word, n: nat)
    requires NotReached(em, ip, boundary, n) && !em.reached(AddrOf(em, ip, n + 1), boundary)
    ensures NotReached(em, ip, boundary, n + 1)
  {
  }

  /** A plan for a block that is complete, and stops where the loop stops. */
  ghost predicate Accomplished(em: Emitter, ip2bb: map<Word, nat>, ips: seq<Word>, block: Block, ip: Word, boundary: Word, size: nat, p: Plan) {
    BlockFor(em, ips, block, ip, p) && FitsExactly(em, ip, p, size) && StopsExactly(em, ip, boundary, p) && LocalEnd(em, ip2bb, block, ip, p)
  }

  /** The temporaries of the block are the last ones so far. */
  ghost predicate FitsExactly(em: Emitter, ip: Word, p: Plan, size: nat) {
    p.Run? && NUM_GLOBALS <= p.tmp && size == p.tmp + TempsUsed(em, ip, Length(p))
  }

  lemma EndedPlan(em: Emitter, ip2bb: map<Word, nat>, ips: seq<Word>, block: Block, ip: Word, boundary: Word, n: nat, tmp: nat, size: nat)
    requires PlainRun(em, ip, n) && n < TB_MAX_INSNS && NotReached(em, ip, boundary, n) && NUM_GLOBALS <= tmp
    requires var a, tmp' := AddrOf(em, ip, n), tmp + TempsUsed(em, ip, n);
             && EndsBlock(em.insn(a)) && size == tmp' + em.temps(a)
             && Ends(em, ips, block, StraightCode(em, ip, n, tmp) + em.emit(a, tmp'), em.insn(a), a, tmp')
             && LocalFor(em, ip2bb, block.succs, em.insn(a), a)
    ensures Accomplished(em, ip2bb, ips, block, ip, boundary, size, Run(n, tmp, false))
  {
    EndedFits(em, ip, n, tmp, size);
    EndedStops(em, ip, boundary, n, tmp);
  }

  lemma EndedFits(em: Emitter, ip: Word, n: nat, tmp: nat, size: nat)
    requires NUM_GLOBALS <= tmp && size == tmp + TempsUsed(em, ip, n) + em.temps(AddrOf(em, ip, n))
    ensures FitsExactly(em, ip, Run(n, tmp, false), size)
  {
    RunExtends(em, ip, n, tmp);
  }

  lemma EndedStops(em: Emitter, ip: Word, boundary: Word, n: nat, tmp: nat)
    requires n < TB_MAX_INSNS && NotReached(em, ip, boundary, n)
    ensures StopsExactly(em, ip, boundary, Run(n, tmp, false))
  {
  }

  lemma CutPlan(em: Emitter, ip2bb: map<Word, nat>, ips: seq<Word>, block: Block, ip: Word, boundary: Word, n: nat, tmp: nat, size: nat)
    requires PlainRun(em, ip, n + 1) && n < TB_MAX_INSNS && NotReached(em, ip, boundary, n) && NUM_GLOBALS <= tmp
    requires size == tmp + TempsUsed(em, ip, n + 1) && Leaves(ips, block, StraightCode(em, ip, n + 1, tmp), AddrOf(em, ip, n + 1))
    requires n + 1 == TB_MAX_INSNS || em.reached(AddrOf(em, ip, n + 1), boundary)
    requires StaysFor(ip2bb, block.succs, AddrOf(em, ip, n + 1))
    ensures Accomplished(em, ip2bb, ips, block, ip, boundary, size, Run(n + 1, tmp, true))
  {
  }

  class Translator {
    const em: Emitter
    const ip2bb: map<Word, nat>

    var info: VRegsInfo
    var blocks: seq<Block>
    var cur: nat
    var insnIp: Word
    var control: Control
    ghost var ips: seq<Word>
    ghost var plans: seq<Option<Plan>>

    ghost function State(): Region
      reads this
    {
      Region(info, blocks, ips, plans)
    }

    ghost predicate Valid()
      reads this
    {
      Inv(em, ip2bb, State(), cur) && cur < |blocks|
    }

    /** Empty blocks for the ranges, and no temporaries. */
    constructor (em: Emitter, ip2bb: map<Word, nat>, ranges: seq<(Word, Word)>)
      requires forall ip | ip in ip2bb :: ip2bb[ip] < |ranges| && ranges[ip2bb[ip]].0 == ip
      ensures this.em == em && this.ip2bb == ip2bb && Inv(em, ip2bb, State(), |blocks|) && |blocks| == |ranges|
      ensures info.NumAll() == NUM_GLOBALS
      ensures forall k | 0 <= k < |ranges| :: ips[k] == ranges[k].0 && plans[k].None?
    {
      this.em, this.ip2bb := em, ip2bb;
      info := VRegsInfo(StateRegs(), []);
      blocks := seq(|ranges|, _ => Block([], []));
      ips := seq(|ranges|, k requires 0 <= k < |ranges| => ranges[k].0);
      plans := seq(|ranges|, _ => None);
      cur, insnIp, control := 0, ZERO, NEXT;
    }

    method MakeGBr(t: Word)
      requires Valid() && blocks[cur].succs == []
      modifies this`blocks
      ensures Valid() && blocks == old(blocks)[cur := blocks[cur]] && Leaves(ips, blocks[cur], old(blocks)[cur].code, t)
      ensures Grows(old(State()), State(), cur) && StaysFor(ip2bb, blocks[cur].succs, t)
    {
      ghost var s := State();
      var block := blocks[cur];
      if t in ip2bb {
        blocks := blocks[cur := Block(block.code + [Inst(Br, [], [])], [ip2bb[t]])];
      } else {
        blocks := blocks[cur := Block(block.code + [Inst(GBr(t), [], [])], [])];
      }
      InvGrows(em, ip2bb, s, State(), cur);
    }

    /** make_target: the block at an address, or a new one that leaves the region. */
    method MakeTarget(t: Word) returns (b: nat)
      requires Valid()
      modifies this`blocks, this`ips, this`plans
      ensures Valid() && Grows(old(State()), State(), cur) && blocks[cur] == old(blocks)[cur] && plans[cur] == old(plans)[cur]
      ensures b < |ips| && ips[b] == t && (t in ip2bb ==> b == ip2bb[t])
    {
      ghost var s := State();
      if t in ip2bb {
        b := ip2bb[t];
      } else {
        b := |blocks|;
        blocks := blocks + [Block([Inst(GBr(t), [], [])], [])];
        ips, plans := ips + [t], plans + [Some(Exit)];
        assert ips[..|s.ips|] == s.ips;
        assert forall c: nat | |s.blocks| <= c < |blocks| :: Planned(em, ip2bb, State(), c);
        InvGrows(em, ip2bb, s, State(), cur);
      }
    }

    /** TranslateBrcc: the fall-through target is made first. */
    method TranslateBrcc(bop: BranchOp, rs1: Reg, rs2: Reg, imm: Word)
      requires Valid() && blocks[cur].succs == []
      modifies this`blocks, this`ips, this`plans
      ensures Valid() && Grows(old(State()), State(), cur) && plans[cur] == old(plans)[cur]
      ensures blocks[cur].code == old(blocks)[cur].code + [Inst(Brcc(CondOf(bop)), [], [Gprop(rs1, I32), Gprop(rs2, I32)])]
      ensures var succs := blocks[cur].succs;
              && |succs| == 2 && succs[0] < |ips| && succs[1] < |ips|
              && ips[succs[0]] == em.plus(insnIp, imm) && ips[succs[1]] == em.next(insnIp)
              && (em.plus(insnIp, imm) in ip2bb ==> succs[0] == ip2bb[em.plus(insnIp, imm)])
              && (em.next(insnIp) in ip2bb ==> succs[1] == ip2bb[em.next(insnIp)])
    {
      ghost var s := State();
      var bf := MakeTarget(em.next(insnIp));
      ghost var s1 := State();
      var bt := MakeTarget(em.plus(insnIp, imm));
      ghost var s2 := State();
      assert s2.ips[bf] == s2.ips[..|s1.ips|][bf];
      GrowsTransitive(s, s1, s2, cur);
      var block := blocks[cur];
      blocks := blocks[cur := Block(block.code + [Inst(Brcc(CondOf(bop)), [], [Gprop(rs1, I32), Gprop(rs2, I32)])], [bt, bf])];
      InvGrows(em, ip2bb, s2, State(), cur);
      GrowsTransitive(s, s2, State(), cur);
    }

    /** The code of one instruction, without a transfer of control. */
    method EmitStraight()
      requires Valid() && blocks[cur].succs == []
      modifies this`info, this`blocks
      ensures Valid() && Grows(old(State()), State(), cur) && info.NumAll() == old(info).NumAll() + em.temps(insnIp)
      ensures blocks == old(blocks)[cur := Block(old(blocks)[cur].code + em.emit(insnIp, old(info).NumAll()), [])]
    {
      ghost var s := State();
      var tmp := info.NumAll();
      info := VRegsInfo(info.globals, info.locals + seq(em.temps(insnIp), _ => I32));
      blocks := blocks[cur := Block(blocks[cur].code + em.emit(insnIp, tmp), [])];
      InvGrows(em, ip2bb, s, State(), cur);
    }

    /** TranslateInsn; `body` is what the block holds before it. */
    method TranslateInsn(ghost body: seq<Inst>, ghost tmp: nat)
      requires Valid() && blocks[cur] == Block(body, []) && info.NumAll() == tmp && control == NEXT
      modifies this`info, this`blocks, this`ips, this`plans, this`insnIp, this`control
      ensures Valid() && Grows(old(State()), State(), cur) && plans[cur] == old(plans)[cur]
      ensures info.NumAll() == tmp + em.temps(old(insnIp)) && insnIp == em.next(old(insnIp))
      ensures var i := em.insn(old(insnIp));
              if EndsBlock(i) then
                && control == BRANCH && Ends(em, ips, blocks[cur], body + em.emit(old(insnIp), tmp), i, old(insnIp), tmp)
                && LocalFor(em, ip2bb, blocks[cur].succs, i, old(insnIp))
              else control == NEXT && blocks[cur] == Block(body + em.emit(old(insnIp), tmp), [])
    {
      ghost var s := State();
      var i := em.insn(insnIp);
      var t := info.NumAll();
      EmitStraight();
      ghost var s1 := State();
      if i.Jal? {
        MakeGBr(em.plus(insnIp, i.imm));
      } else if i.Jalr? {
        blocks := blocks[cur := Block(blocks[cur].code + [Inst(GBrind, [], [VGPR(I32, t)])], [])];
        InvGrows(em, ip2bb, s1, State(), cur);
      } else if i.Bcc? {
        TranslateBrcc(i.bop, i.rs1, i.rs2, i.imm);
      }
      GrowsTransitive(s, s1, State(), cur);
      if EndsBlock(i) {
        control := BRANCH;
      }
      insnIp := em.next(insnIp);
    }

    /** The loop of TranslateIPRange has passed `n` instructions. */
    ghost predicate Underway(ip: Word, boundary: Word, n: nat, tmp: nat)
      reads this
    {
      && Valid() && plans[cur].None? && control == NEXT && NUM_GLOBALS <= tmp && insnIp == AddrOf(em, ip, n) && ips[cur] == ip
      && blocks[cur] == Block(StraightCode(em, ip, n, tmp), []) && info.NumAll() == tmp + TempsUsed(em, ip, n) && PlainRun(em, ip, n)
      && n < TB_MAX_INSNS && NotReached(em, ip, boundary, n)
    }

    /** The block has been completed according to `p`. */
    ghost predicate Completed(ip: Word, boundary: Word, p: Plan, tmp: nat)
      reads this
    {
      p.Run? && p.tmp == tmp && Valid() && plans[cur].None? && ips[cur] == ip && Accomplished(em, ip2bb, ips, blocks[cur], ip, boundary, info.NumAll(), p)
    }

    /** One turn of the loop. */
    method TranslateNext(ip: Word, boundary: Word, n: nat, ghost tmp: nat) returns (ghost p: Plan)
      requires Underway(ip, boundary, n, tmp)
      modifies this`info, this`blocks, this`ips, this`plans, this`insnIp, this`control
      ensures Grows(old(State()), State(), cur)
      ensures if control == NEXT then Underway(ip, boundary, n + 1, tmp) else Completed(ip, boundary, p, tmp)
    {
      ghost var s := State();
      RunExtends(em, ip, n, tmp);
      p := Run(n, tmp, false);
      TranslateInsn(StraightCode(em, ip, n, tmp), tmp + TempsUsed(em, ip, n));
      assert ips[cur] == ips[..|s.ips|][cur];
      if control == BRANCH {
        EndedPlan(em, ip2bb, ips, blocks[cur], ip, boundary, n, tmp, info.NumAll());
      } else {
        ghost var s1 := State();
        p := CheckLimits(ip, boundary, n, tmp);
        GrowsTransitive(s, s1, State(), cur);
      }
    }

    /** The limit and the boundary, after an instruction that does not end the block. */
    method CheckLimits(ip: Word, boundary: Word, n: nat, ghost tmp: nat) returns (ghost p: Plan)
      requires Valid() && plans[cur].None? && control == NEXT && NUM_GLOBALS <= tmp && insnIp == AddrOf(em, ip, n + 1) && ips[cur] == ip
      requires blocks[cur] == Block(StraightCode(em, ip, n + 1, tmp), []) && info.NumAll() == tmp + TempsUsed(em, ip, n + 1)
      requires PlainRun(em, ip, n + 1) && n < TB_MAX_INSNS && NotReached(em, ip, boundary, n)
      modifies this`blocks, this`control
      ensures Grows(old(State()), State(), cur)
      ensures if control == NEXT then Underway(ip, boundary, n + 1, tmp) else Completed(ip, boundary, p, tmp)
    {
      p := Run(n + 1, tmp, true);
      if n + 1 == TB_MAX_INSNS || em.reached(insnIp, boundary) {
        CutBlock();
        CutPlan(em, ip2bb, ips, blocks[cur], ip, boundary, n, tmp, info.NumAll());
      } else {
        StillNotReached(em, ip, boundary, n);
      }
    }

    /** The block is cut off at the limit or the boundary. */
    method CutBlock()
      requires Valid() && blocks[cur].succs == []
      modifies this`blocks, this`control
      ensures Valid() && Grows(old(State()), State(), cur) && control == TB_OVF && Leaves(ips, blocks[cur], old(blocks)[cur].code, insnIp)
      ensures StaysFor(ip2bb, blocks[cur].succs, insnIp)
    {
      control := TB_OVF;
      MakeGBr(insnIp);
    }

    /** The loop of TranslateIPRange: at least one instruction is translated, whatever the boundary is. */
    method TranslateRun(ip: Word, boundary: Word, ghost tmp: nat) returns (ghost p: Plan)
      requires Underway(ip, boundary, 0, tmp)
      modifies this`info, this`blocks, this`ips, this`plans, this`insnIp, this`control
      ensures Grows(old(State()), State(), cur) && Completed(ip, boundary, p, tmp)
    {
      ghost var s := State();
      p := Exit;
      var n := 0;
      while control == NEXT
        invariant n <= TB_MAX_INSNS && Grows(s, State(), cur)
        invariant if control == NEXT then Underway(ip, boundary, n, tmp) else Completed(ip, boundary, p, tmp)
        decreases TB_MAX_INSNS - n, control == NEXT
      {
        ghost var s1 := State();
        p := TranslateNext(ip, boundary, n, tmp);
        GrowsTransitive(s, s1, State(), cur);
        n := n + 1;
      }
    }

    /** TranslateIPRange. */
    method TranslateIPRange(ip: Word, boundary: Word)
      requires Inv(em, ip2bb, State(), |blocks|) && ip in ip2bb && ip2bb[ip] < |plans| && plans[ip2bb[ip]].None?
      modifies this
      ensures Inv(em, ip2bb, State(), |blocks|) && Grows(old(State()), State(), ip2bb[ip])
      ensures var b := ip2bb[ip]; b < |plans| && plans[b].Some? && StopsExactly(em, ip, boundary, plans[b].value)
      ensures info.NumAll() == old(info).NumAll() + TempsUsed(em, ip, Scan(em, ip, boundary, 0))
    {
      ghost var s := State();
      cur, insnIp, control := ip2bb[ip], ip, NEXT;
      InvOpen(em, ip2bb, s, cur);
      ghost var tmp := info.NumAll();
      assert Planned(em, ip2bb, s, cur) && StraightCode(em, ip, 0, tmp) == [];
      ghost var p := TranslateRun(ip, boundary, tmp);
      ghost var s2 := State();
      CoversScan(em, ips, blocks[cur], ip, boundary, p, 0);
      plans := plans[cur := Some(p)];
      InvClose(em, ip2bb, s2, State(), cur, p);
    }
  }

  // ---------- Regions ----------

  ghost predicate Distinct(ranges: seq<(Word, Word)>) {
    forall j, k | 0 <= j < k < |ranges| :: ranges[j].0 != ranges[k].0
  }

  /** The block of every range has the range's number. */
  ghost predicate Numbered(ranges: seq<(Word, Word)>, n: nat, ip2bb: map<Word, nat>)
    requires n <= |ranges|
  {
    && (forall ip | ip in ip2bb :: ip2bb[ip] < n && ranges[ip2bb[ip]].0 == ip)
    && (forall j | 0 <= j < n :: ranges[j].0 in ip2bb && ip2bb[ranges[j].0] == j)
  }

  method NumberRanges(ranges: seq<(Word, Word)>) returns (ip2bb: map<Word, nat>)
    requires Distinct(ranges)
    ensures Numbered(ranges, |ranges|, ip2bb)
  {
    ip2bb := map[];
    var k := 0;
    while k < |ranges|
      invariant 0 <= k <= |ranges| && Numbered(ranges, k, ip2bb)
    {
      ip2bb := ip2bb[ranges[k].0 := k];
      k := k + 1;
    }
  }

  /** The first `k` ranges have been translated; other blocks leave the region. */
  ghost predicate Progress(em: Emitter, ranges: seq<(Word, Word)>, k: nat, s: Region) {
    && k <= |ranges| <= |s.blocks| == |s.ips| == |s.plans|
    && (forall j: nat | j < |ranges| :: s.ips[j] == ranges[j].0)
    && (forall j: nat | j < k :: s.plans[j].Some? && StopsExactly(em, ranges[j].0, ranges[j].1, s.plans[j].value))
    && (forall j: nat | k <= j < |ranges| :: s.plans[j].None?)
    && (forall b: nat | |ranges| <= b < |s.plans| :: s.plans[b] == Some(Exit))
  }

  lemma ProgressStep(em: Emitter, ranges: seq<(Word, Word)>, k: nat, s: Region, s': Region)
    requires Progress(em, ranges, k, s) && k < |ranges| && Grows(s, s', k)
    requires s'.plans[k].Some? && StopsExactly(em, ranges[k].0, ranges[k].1, s'.plans[k].value)
    ensures Progress(em, ranges, k + 1, s')
  {
    forall j: nat | j < |ranges| ensures s'.ips[j] == ranges[j].0 {
      assert s'.ips[j] == s'.ips[..|s.ips|][j];
    }
    forall j: nat | j < |s.plans| && j != k ensures s'.plans[j] == s.plans[j] {
      assert s.blocks[j] == s.blocks[j];
    }
  }

  function PlansOf(plans: seq<Option<Plan>>): (r: seq<Plan>)
    ensures |r| == |plans| && forall b | 0 <= b < |r| :: plans[b].Some? ==> r[b] == plans[b].value
  {
    seq(|plans|, b requires 0 <= b < |plans| => if plans[b].Some? then plans[b].value else Exit)
  }

  /** The temporaries of all ranges. */
  function RangeTemps(em: Emitter, ranges: seq<(Word, Word)>): nat {
    if ranges == [] then 0
    else
      var r := ranges[|ranges| - 1];
      RangeTemps(em, ranges[..|ranges| - 1]) + TempsUsed(em, r.0, Scan(em, r.0, r.1, 0))
  }

  lemma RangeTempsNext(em: Emitter, ranges: seq<(Word, Word)>, k: nat)
    requires k < |ranges|
    ensures RangeTemps(em, ranges[..k + 1]) == RangeTemps(em, ranges[..k]) + TempsUsed(em, ranges[k].0, Scan(em, ranges[k].0, ranges[k].1, 0))
  {
    assert ranges[..k + 1][..k] == ranges[..k];
  }

  /** The first `k` ranges have been translated. */
  ghost predicate Underway(em: Emitter, ip2bb: map<Word, nat>, ranges: seq<(Word, Word)>, k: nat, s: Region)
    requires k <= |ranges|
  {
    Inv(em, ip2bb, s, |s.blocks|) && Progress(em, ranges, k, s) && s.info.NumAll() == NUM_GLOBALS + RangeTemps(em, ranges[..k])
  }

  method TranslateRange(t: Translator, ranges: seq<(Word, Word)>, k: nat)
    requires k < |ranges| && Numbered(ranges, |ranges|, t.ip2bb) && Underway(t.em, t.ip2bb, ranges, k, t.State())
    modifies t
    ensures Underway(t.em, t.ip2bb, ranges, k + 1, t.State())
  {
    ghost var s := t.State();
    t.TranslateIPRange(ranges[k].0, ranges[k].1);
    RangeTempsNext(t.em, ranges, k);
    ProgressStep(t.em, ranges, k, s, t.State());
  }

  /** Translate: a block for every range, then the code of each. */
  method Translate(em: Emitter, ranges: seq<(Word, Word)>) returns (info: VRegsInfo, blocks: seq<Block>, ghost ips: seq<Word>, ghost plans: seq<Plan>, ghost ip2bb: map<Word, nat>)
    requires Distinct(ranges)
    ensures GuestInfo(info) && RegionFor(em, blocks, ips, plans, info.NumAll()) && |ranges| <= |blocks|
    ensures forall k | 0 <= k < |ranges| :: ips[k] == ranges[k].0 && StopsExactly(em, ranges[k].0, ranges[k].1, plans[k])
    ensures forall b | |ranges| <= b < |plans| :: plans[b] == Exit
    ensures info.NumAll() == NUM_GLOBALS + RangeTemps(em, ranges)
    ensures Numbered(ranges, |ranges|, ip2bb) && forall b: nat {:trigger plans[b]} | b < |plans| :: LocalEnd(em, ip2bb, blocks[b], ips[b], plans[b])
  {
    var names := NumberRanges(ranges);
    ip2bb := names;
    var t := new Translator(em, names, ranges);
    var k := 0;
    while k < |ranges|
      invariant 0 <= k <= |ranges| && t.em == em && t.ip2bb == ip2bb && Underway(em, ip2bb, ranges, k, t.State())
    {
      TranslateRange(t, ranges, k);
      k := k + 1;
    }
    info, blocks, ips, plans := t.info, t.blocks, t.ips, PlansOf(t.plans);
    TranslationDone(em, ip2bb, ranges, t.State());
  }

  lemma TranslationDone(em: Emitter, ip2bb: map<Word, nat>, ranges: seq<(Word, Word)>, s: Region)
    requires Underway(em, ip2bb, ranges, |ranges|, s)
    ensures var plans := PlansOf(s.plans);
            && GuestInfo(s.info) && RegionFor(em, s.blocks, s.ips, plans, s.info.NumAll()) && |ranges| <= |s.blocks|
            && (forall k | 0 <= k < |ranges| :: s.ips[k] == ranges[k].0 && StopsExactly(em, ranges[k].0, ranges[k].1, plans[k]))
            && (forall b | |ranges| <= b < |plans| :: plans[b] == Exit)
            && s.info.NumAll() == NUM_GLOBALS + RangeTemps(em, ranges)
            && (forall b: nat {:trigger plans[b]} | b < |plans| :: LocalEnd(em, ip2bb, s.blocks[b], s.ips[b], plans[b]))
  {
    assert ranges[..|ranges|] == ranges;
    AllPlanned(em, ip2bb, s);
  }

  lemma AllPlanned(em: Emitter, ip2bb: map<Word, nat>, s: Region)
    requires Inv(em, ip2bb, s, |s.blocks|) && forall b: nat | b < |s.plans| :: s.plans[b].Some?
    ensures RegionFor(em, s.blocks, s.ips, PlansOf(s.plans), s.info.NumAll())
    ensures forall b: nat {:trigger s.plans[b]} | b < |s.plans| :: LocalEnd(em, ip2bb, s.blocks[b], s.ips[b], PlansOf(s.plans)[b])
  {
    forall b: nat | b < |s.plans|
      ensures BlockFor(em, s.ips, s.blocks[b], s.ips[b], PlansOf(s.plans)[b]) && Fits(em, s.ips[b], PlansOf(s.plans)[b], s.info.NumAll())
      ensures LocalEnd(em, ip2bb, s.blocks[b], s.ips[b], PlansOf(s.plans)[b])
    {
      assert Planned(em, ip2bb, s, b);
    }
  }
}
