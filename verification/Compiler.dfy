/** The whole compiler, `dbt/qmc/compile.cpp`: guest code is translated to QuickIR and then to host code.
    The host code of a region does what the interpreter does. */
module Compiler {
  import opened Common
  import opened Qir
  import opened Rv32
  import opened Rv32Emission
  import opened Rv32Blocks
  import opened Rv32Regions
  import opened Rv32Translators
  import opened HostMachine
  import opened ArchTraits
  import opened RegAllocState
  import opened Iteration
  import opened Layout
  import Backend
  import QSelPass
  import Rv32Machine
  import Rv32Decode

  // ---------- Guest state in the host machine ----------

  /** The registers of the interpreter are in `CPUState`, and memory is the same. */
  ghost predicate HostHolds(cpuSize: nat, c: Cpu, m: MState) {
    && c.Valid() && |m.regs| == GPR_NUM && |m.cpu| == cpuSize && |m.frame| == SPILLFRAME_SIZE && m.mem == c.mem
    && forall r: nat {:trigger c.gpr[r]} | 0 < r < 32 :: LoadSlot(m.cpu, 4 * r, I32) == c.gpr[r]
  }

  ghost predicate HostHoldsIp(cpuSize: nat, c: Cpu, m: MState) {
    HostHolds(cpuSize, c, m) && LoadSlot(m.cpu, 4 * (IP + 1), I32) == c.ip
  }

  lemma StateLayout(cpuSize: nat)
    requires cpuSize >= 4 * (NUM_GLOBALS + 1)
    ensures LayoutOk(StateRegs(), cpuSize)
  {
  }

  /** The virtual registers that `CPUState` stands for. */
  function QuickState(m: MState, n: nat): (q: QState)
    requires n >= NUM_GLOBALS
    ensures |q.vregs| == n && q.mem == m.mem
    ensures forall v: nat | v < NUM_GLOBALS :: q.vregs[v] == LoadSlot(m.cpu, 4 * (v + 1), I32)
  {
    QState(seq(n, v requires 0 <= v < n => if v < NUM_GLOBALS then LoadSlot(m.cpu, 4 * (v + 1), I32) else ZERO), m.mem)
  }

  lemma QuickStateHolds(cpuSize: nat, info: VRegsInfo, c: Cpu, m: MState)
    requires GuestInfo(info) && HostHolds(cpuSize, c, m)
    ensures var q := QuickState(m, info.NumAll()); Backend.Holds(info, cpuSize, q, m) && Same(c, q)
  {
    var q := QuickState(m, info.NumAll());
    forall r: nat | 0 < r < 32 ensures q.vregs[r - 1] == c.gpr[r] {
      assert q.vregs[r - 1] == LoadSlot(m.cpu, 4 * (r - 1 + 1), I32);
    }
  }

  lemma HoldsBack(cpuSize: nat, info: VRegsInfo, c: Cpu, q: QState, m: MState)
    requires GuestInfo(info) && Backend.Holds(info, cpuSize, q, m) && Same(c, q)
    ensures HostHolds(cpuSize, c, m) && LoadSlot(m.cpu, 4 * (IP + 1), I32) == q.vregs[IP]
  {
    forall r: nat | 0 < r < 32 ensures LoadSlot(m.cpu, 4 * r, I32) == c.gpr[r] {
      assert info.globals[r - 1] == StateReg(4 * (r - 1 + 1), I32);
    }
    assert info.globals[IP] == StateReg(4 * (IP + 1), I32);
  }

  // ---------- Outcomes ----------

  /** The interpreter is at `t` with the guest state of the host machine, or has refused to go there. */
  ghost predicate HostArrived(cpuSize: nat, s: StepResult, t: Word, m: MState) {
    if Misaligned(t) then Unaligned(s) else s.Stepped? && s.cpu.gip == t && HostHolds(cpuSize, s.cpu, m)
  }

  /** The host code is at the label of a block, or has left by an exit, and the interpreter agrees. */
  ghost predicate HostAgrees(cpuSize: nat, ips: seq<Word>, labels: seq<nat>, f: RunResult<MState>, s: StepResult) {
    match f
    case Running(pc, m) => exists b: nat :: b < |labels| && b < |ips| && pc == labels[b] && HostArrived(cpuSize, s, ips[b], m)
    case Exited(exit, m) =>
      (match exit
       case Branch(t) => HostArrived(cpuSize, s, t, m)
       case Raised(w) => s.Traps? && !Unaligned(s) && w == TrapWord(s.trap) && HostHoldsIp(cpuSize, s.cpu, m)
       case Faulted => s.Fault? && HostHoldsIp(cpuSize, s.cpu, m))
    case Wild => false
  }

  lemma ExitAgrees(cpuSize: nat, info: VRegsInfo, ips: seq<Word>, labels: seq<nat>, size: nat, exit: Exit, q: QState, m: MState, s: StepResult)
    requires GuestInfo(info) && RunArrived(ips, size, Exited(exit, q), s) && Backend.Holds(info, cpuSize, q, m)
    ensures HostAgrees(cpuSize, ips, labels, Exited(exit, m), s)
  {
    if exit.Branch? {
      if !Misaligned(exit.target) {
        HoldsBack(cpuSize, info, s.cpu, q, m);
      }
    } else {
      HoldsBack(cpuSize, info, s.cpu, q, m);
    }
  }

  lemma OutcomeAgrees(cpuSize: nat, info: VRegsInfo, ips: seq<Word>, labels: seq<nat>, size: nat, r: RunResult<QState>, f: RunResult<MState>, s: StepResult)
    requires GuestInfo(info) && RunArrived(ips, size, r, s) && Backend.SameOutcome(info, cpuSize, labels, r, f)
    ensures HostAgrees(cpuSize, ips, labels, f, s)
  {
    match r
    case Running(b, q) =>
      if !Misaligned(ips[b]) {
        HoldsBack(cpuSize, info, s.cpu, q, f.s);
      }
    case Exited(exit, q) => ExitAgrees(cpuSize, info, ips, labels, size, exit, q, f.s, s);
    case Wild => assert false;
  }

  // ---------- The compiled region ----------

  /** A region, its translation and its host code. */
  datatype Image = Image(info: VRegsInfo, blocks: seq<Block>, ips: seq<Word>, plans: seq<Plan>, passes: Backend.Passes,
                         code: seq<FlatInst>, labels: seq<nat>)

  ghost predicate Compiled(em: Emitter, cpuSize: nat, im: Image) {
    && GuestInfo(im.info) && RegionFor(em, im.blocks, im.ips, im.plans, im.info.NumAll()) && NoClobbers(em, im.ips, im.plans)
    && Backend.Compiled(im.info, SLOTS, cpuSize, im.blocks, im.passes, im.code, im.labels)
  }

  /** Host code that is entered at its start for the guest address `ip`. */
  ghost predicate Ready(em: Emitter, cpuSize: nat, im: Image, ip: Word) {
    && Compiled(em, cpuSize, im) && im.blocks != [] && im.ips[0] == ip && |im.labels| == |im.blocks| && im.labels[0] == 0
    && AlignedRuns(im.ips, im.plans)
  }

  /** Host code and interpreter agree; the exception needs a range that starts at a misaligned address. */
  ghost predicate HostFollowed(cpuSize: nat, im: Image, f: RunResult<MState>, s: StepResult)
    requires |im.ips| == |im.plans|
  {
    HostAgrees(cpuSize, im.ips, im.labels, f, s) || (Unaligned(s) && !AlignedRuns(im.ips, im.plans))
  }

  /** However long host code runs, the reserved registers hold what they held on entry. */
  ghost predicate Keeps(m: MState, f: RunResult<MState>) {
    f.Wild? || KeepsReserved(m, f.s)
  }

  /** Host code keeps up with the interpreter: for every `n` there are numbers of host and of guest
      instructions after which both are at the same place, and this is an exit of the region or at
      least `n` guest instructions away, or the interpreter has refused a misaligned target. */
  lemma HostFollows(ar: Arith, code: Code, junk: (MState, nat) -> Word, cpuSize: nat, im: Image, n: nat, b: nat, c: Cpu, m: MState)
    returns (host: nat, guest: nat)
    requires Laws(ar) && Compiled(EmitterOf(ar, code), cpuSize, im) && b < |im.blocks|
    requires HostHolds(cpuSize, c, m) && c.gip == im.ips[b] && !Misaligned(im.ips[b])
    ensures |im.labels| == |im.blocks| && FlatShaped(im.code)
    ensures var s := Interpret(ar, code, guest, c);
            var f := FlatRun(StateRegs(), GuestSem(ar, code.decode), junk, im.code, im.labels, host, im.labels[b], m);
            HostFollowed(cpuSize, im, f, s) && (f.Running? && !Unaligned(s) ==> guest >= n) && Keeps(m, f)
  {
    var em, sem := EmitterOf(ar, code), GuestSem(ar, code.decode);
    var q := QuickState(m, im.info.NumAll());
    QuickStateHolds(cpuSize, im.info, c, m);
    EmitterIsOk(ar, code);
    EmitterMeans(ar, code);
    host := Backend.BackendFollows(sem, junk, im.info, SLOTS, cpuSize, im.blocks, im.passes, im.code, im.labels, n, b, q, m);
    guest := RegionFollows(em, sem, im.blocks, im.ips, im.plans, im.info.NumAll(), n, b, q, c);
    InterpretIs(ar, code, guest, c);
    RunKeepsReserved(StateRegs(), sem, junk, im.code, im.labels, host, im.labels[b], m);
    var s, r := Interpret(ar, code, guest, c), QRunRegion(StateRegs(), sem, im.blocks, n, b, q);
    if RunArrived(im.ips, |q.vregs|, r, s) {
      OutcomeAgrees(cpuSize, im.info, im.ips, im.labels, |q.vregs|, r,
                    FlatRun(StateRegs(), sem, junk, im.code, im.labels, host, im.labels[b], m), s);
    }
  }

  lemma InterpretIs(ar: Arith, code: Code, k: nat, c: Cpu)
    ensures Interpret(ar, code, k, c) == Repeat(EmitterOf(ar, code).step, k, c)
  {
    SameSteps((c: Cpu) => StepAt(ar, code, c), EmitterOf(ar, code).step, k, c);
  }

  lemma {:induction false} SameSteps(f: Cpu -> StepResult, g: Cpu -> StepResult, k: nat, c: Cpu)
    requires forall c {:trigger f(c)} :: f(c) == g(c)
    ensures Repeat(f, k, c) == Repeat(g, k, c)
    decreases k
  {
    if k > 0 {
      var r := f(c);
      if r.Stepped? {
        SameSteps(f, g, k - 1, r.cpu);
      }
    }
  }

  /** Host code does nothing else: whenever it leaves the region, the interpreter leaves it by the same
      exit, with the same registers and memory and, if it stops, the same instruction pointer.  Host
      code leaves for a misaligned address if and only if the interpreter refuses to go there. */
  lemma HostReflects(ar: Arith, code: Code, junk: (MState, nat) -> Word, cpuSize: nat, im: Image, host: nat, b: nat, c: Cpu, m: MState)
    returns (guest: nat)
    requires Laws(ar) && Compiled(EmitterOf(ar, code), cpuSize, im) && b < |im.blocks|
    requires HostHolds(cpuSize, c, m) && c.gip == im.ips[b] && !Misaligned(im.ips[b])
    requires |im.labels| == |im.blocks| && FlatRun(StateRegs(), GuestSem(ar, code.decode), junk, im.code, im.labels, host, im.labels[b], m).Exited?
    ensures var s := Interpret(ar, code, guest, c);
            var f := FlatRun(StateRegs(), GuestSem(ar, code.decode), junk, im.code, im.labels, host, im.labels[b], m);
            && HostFollowed(cpuSize, im, f, s) && Keeps(m, f)
            && (AlignedRuns(im.ips, im.plans) ==> (f.exit.Branch? && Misaligned(f.exit.target) <==> Unaligned(s)))
  {
    var em, sem := EmitterOf(ar, code), GuestSem(ar, code.decode);
    var q := QuickState(m, im.info.NumAll());
    QuickStateHolds(cpuSize, im.info, c, m);
    EmitterIsOk(ar, code);
    EmitterMeans(ar, code);
    var n := Backend.BackendReflects(sem, junk, im.info, SLOTS, cpuSize, im.blocks, im.passes, im.code, im.labels, host, b, q, m);
    guest := RegionFollows(em, sem, im.blocks, im.ips, im.plans, im.info.NumAll(), n, b, q, c);
    InterpretIs(ar, code, guest, c);
    RunKeepsReserved(StateRegs(), sem, junk, im.code, im.labels, host, im.labels[b], m);
    var s, r := Interpret(ar, code, guest, c), QRunRegion(StateRegs(), sem, im.blocks, n, b, q);
    if RunArrived(im.ips, |q.vregs|, r, s) {
      var f := FlatRun(StateRegs(), sem, junk, im.code, im.labels, host, im.labels[b], m);
      ExitAgrees(cpuSize, im.info, im.ips, im.labels, |q.vregs|, r.exit, r.s, f.s, s);
    }
  }

  // ---------- Compilation ----------

  lemma ReadyIsWellFormed(info: VRegsInfo, blocks: seq<Block>)
    requires forall b: nat | b < |blocks| :: BlockReady(info, blocks[b], |blocks|)
    ensures forall b: nat | b < |blocks| :: WellFormedBlock(info, SLOTS, blocks[b]) && Backend.TargetsOk(blocks[b], |blocks|)
  {
    forall b: nat | b < |blocks| ensures WellFormedBlock(info, SLOTS, blocks[b]) && Backend.TargetsOk(blocks[b], |blocks|) {
      assert BlockReady(info, blocks[b], |blocks|);
      forall k | 0 <= k < |blocks[b].code| ensures HasTargets(blocks[b].code[k], blocks[b].succs) {
        assert Targeted(blocks[b].code[k], blocks[b].succs);
      }
    }
  }

  /** An emitter whose code the back end accepts. */
  ghost predicate Usable(em: Emitter) {
    Thrifty(em) && forall info {:trigger EmitterSound(em, info)} | GuestInfo(info) :: EmitterSound(em, info)
  }

  lemma EmitterIsUsable(ar: Arith, code: Code)
    ensures Usable(EmitterOf(ar, code))
  {
    EmitterIsThrifty(ar, code);
    forall info | GuestInfo(info) ensures EmitterSound(EmitterOf(ar, code), info) {
      EmitterIsSound(ar, code, info);
    }
  }

  lemma TranslationIsReady(em: Emitter, ranges: seq<(Word, Word)>, info: VRegsInfo, blocks: seq<Block>, ips: seq<Word>, plans: seq<Plan>)
    requires Usable(em) && GuestInfo(info) && RegionFor(em, blocks, ips, plans, info.NumAll()) && |ranges| <= |blocks|
    requires forall k | 0 <= k < |ranges| :: ips[k] == ranges[k].0 && StopsExactly(em, ranges[k].0, ranges[k].1, plans[k])
    requires forall b | |ranges| <= b < |plans| :: plans[b] == Exit
    requires forall k | 0 <= k < |ranges| :: NoClobber(em, ranges[k].0, Scan(em, ranges[k].0, ranges[k].1, 0))
    ensures NoClobbers(em, ips, plans)
    ensures forall b: nat | b < |blocks| :: BlockReady(info, blocks[b], |blocks|)
  {
    forall b: nat | b < |plans| ensures NoClobber(em, ips[b], Length(plans[b])) {
      if b < |ranges| {
        assert BlockFor(em, ips, blocks[b], ips[b], plans[b]);
        CoversScan(em, ips, blocks[b], ips[b], ranges[b].1, plans[b], 0);
      }
    }
    assert EmitterSound(em, info);
    forall b: nat | b < |blocks| ensures BlockReady(info, blocks[b], |blocks|) {
      assert BlockFor(em, ips, blocks[b], ips[b], plans[b]) && NoClobber(em, ips[b], Length(plans[b]));
      BlockIsReady(em, info, ips, blocks[b], ips[b], plans[b]);
    }
  }

  /** The number of instructions in all ranges. */
  function RangeInsns(em: Emitter, ranges: seq<(Word, Word)>): nat {
    if ranges == [] then 0
    else
      var r := ranges[|ranges| - 1];
      RangeInsns(em, ranges[..|ranges| - 1]) + Scan(em, r.0, r.1, 0)
  }

  lemma RangeInsnsNext(em: Emitter, ranges: seq<(Word, Word)>, k: nat)
    requires k < |ranges|
    ensures RangeInsns(em, ranges[..k + 1]) == RangeInsns(em, ranges[..k]) + Scan(em, ranges[k].0, ranges[k].1, 0)
  {
    assert ranges[..k + 1][..k] == ranges[..k];
  }

  /** Registers of the first `n` blocks that belong to ranges. */
  lemma {:induction false} RangesExtra(em: Emitter, ranges: seq<(Word, Word)>, blocks: seq<Block>, ips: seq<Word>, plans: seq<Plan>, size: nat, n: nat)
    requires Thrifty(em) && RegionFor(em, blocks, ips, plans, size) && n <= |ranges| <= |blocks|
    requires forall k | 0 <= k < |ranges| :: ips[k] == ranges[k].0 && StopsExactly(em, ranges[k].0, ranges[k].1, plans[k])
    ensures QSelPass.RegionExtra(blocks[..n]) + RangeTemps(em, ranges[..n]) <= 3 * RangeInsns(em, ranges[..n])
    decreases n
  {
    if n > 0 {
      var k := n - 1;
      RangesExtra(em, ranges, blocks, ips, plans, size, k);
      assert BlockFor(em, ips, blocks[k], ips[k], plans[k]);
      BlockExtra(em, ips, blocks[k], ips[k], plans[k]);
      CoversScan(em, ips, blocks[k], ips[k], ranges[k].1, plans[k], 0);
      QSelPass.RegionExtraNext(blocks, k);
      RangeTempsNext(em, ranges, k);
      RangeInsnsNext(em, ranges, k);
    }
  }

  /** The other blocks only leave the region. */
  lemma {:induction false} ExitsExtra(em: Emitter, blocks: seq<Block>, ips: seq<Word>, plans: seq<Plan>, size: nat, m: nat, n: nat)
    requires Thrifty(em) && RegionFor(em, blocks, ips, plans, size) && m <= n <= |blocks| && forall b | m <= b < |plans| :: plans[b] == Exit
    ensures QSelPass.RegionExtra(blocks[..n]) == QSelPass.RegionExtra(blocks[..m])
    decreases n
  {
    if m < n {
      ExitsExtra(em, blocks, ips, plans, size, m, n - 1);
      assert BlockFor(em, ips, blocks[n - 1], ips[n - 1], plans[n - 1]);
      BlockExtra(em, ips, blocks[n - 1], ips[n - 1], plans[n - 1]);
      QSelPass.RegionExtraNext(blocks, n - 1);
    }
  }

  /** The registers of a region after selection. */
  lemma RegistersSuffice(em: Emitter, ranges: seq<(Word, Word)>, blocks: seq<Block>, ips: seq<Word>, plans: seq<Plan>, size: nat)
    requires Thrifty(em) && RegionFor(em, blocks, ips, plans, size) && |ranges| <= |blocks|
    requires forall k | 0 <= k < |ranges| :: ips[k] == ranges[k].0 && StopsExactly(em, ranges[k].0, ranges[k].1, plans[k])
    requires forall b | |ranges| <= b < |plans| :: plans[b] == Exit
    ensures QSelPass.RegionExtra(blocks) + RangeTemps(em, ranges) <= 3 * RangeInsns(em, ranges)
  {
    RangesExtra(em, ranges, blocks, ips, plans, size, |ranges|);
    ExitsExtra(em, blocks, ips, plans, size, |ranges|, |blocks|);
    assert blocks[..|blocks|] == blocks && ranges[..|ranges|] == ranges;
  }

  lemma OneRange(em: Emitter, ranges: seq<(Word, Word)>)
    ensures |ranges| == 1 ==> RangeInsns(em, ranges) <= TB_MAX_INSNS
  {
    assert |ranges| == 1 ==> ranges[..0] == [];
  }

  /** Every range has its block, and the other blocks leave the region. */
  ghost predicate Placed(ranges: seq<(Word, Word)>, ips: seq<Word>, plans: seq<Plan>) {
    && |ranges| <= |ips| == |plans| && (forall k | 0 <= k < |ranges| :: ips[k] == ranges[k].0)
    && forall b | |ranges| <= b < |plans| :: plans[b] == Exit
  }

  /** The block of every range stops exactly where the range says. */
  ghost predicate Stops(em: Emitter, ranges: seq<(Word, Word)>, plans: seq<Plan>) {
    |ranges| <= |plans| && forall k: nat {:trigger plans[k]} | k < |ranges| :: StopsExactly(em, ranges[k].0, ranges[k].1, plans[k])
  }

  /** What the front end hands over. */
  ghost predicate Translation(em: Emitter, ranges: seq<(Word, Word)>, info: VRegsInfo, blocks: seq<Block>, ips: seq<Word>, plans: seq<Plan>) {
    && GuestInfo(info) && RegionFor(em, blocks, ips, plans, info.NumAll()) && NoClobbers(em, ips, plans) && Placed(ranges, ips, plans)
    && Stops(em, ranges, plans) && info.NumAll() + QSelPass.RegionExtra(blocks) <= NUM_GLOBALS + 3 * RangeInsns(em, ranges)
  }

  ghost predicate FitsBackend(info: VRegsInfo, blocks: seq<Block>) {
    forall b: nat {:trigger blocks[b]} | b < |blocks| :: WellFormedBlock(info, SLOTS, blocks[b]) && Backend.TargetsOk(blocks[b], |blocks|)
  }

  /** None of the instructions in the ranges is a load into x0 without offset. */
  ghost predicate NoneClobbers(em: Emitter, ranges: seq<(Word, Word)>) {
    forall k | 0 <= k < |ranges| :: NoClobber(em, ranges[k].0, Scan(em, ranges[k].0, ranges[k].1, 0))
  }

  method TranslateRanges(em: Emitter, ranges: seq<(Word, Word)>)
    returns (info: VRegsInfo, blocks: seq<Block>, ghost ips: seq<Word>, ghost plans: seq<Plan>)
    requires Usable(em) && Distinct(ranges) && NoneClobbers(em, ranges)
    ensures Translation(em, ranges, info, blocks, ips, plans) && FitsBackend(info, blocks)
  {
    ghost var ip2bb;
    info, blocks, ips, plans, ip2bb := Translate(em, ranges);
    TranslationIsReady(em, ranges, info, blocks, ips, plans);
    ReadyIsWellFormed(info, blocks);
    RegistersSuffice(em, ranges, blocks, ips, plans, info.NumAll());
  }

  /** CompilerDoJob.  The result is false where compilation does not succeed. */
  method CompileRanges(em: Emitter, ranges: seq<(Word, Word)>, ghost cpuSize: nat)
    returns (flat: seq<FlatInst>, labels: seq<nat>, ok: bool, ghost im: Image)
    requires Usable(em) && Distinct(ranges) && NoneClobbers(em, ranges) && cpuSize >= 4 * (NUM_GLOBALS + 1)
    ensures ok ==> Translation(em, ranges, im.info, im.blocks, im.ips, im.plans) && (im.blocks != [] ==> im.labels != [] && im.labels[0] == 0)
    ensures ok ==> Backend.Compiled(im.info, SLOTS, cpuSize, im.blocks, im.passes, im.code, im.labels) && flat == im.code && labels == im.labels
    ensures NUM_GLOBALS + 3 * RangeInsns(em, ranges) <= 255 ==> ok
    ensures |ranges| == 1 ==> ok
  {
    var info, blocks;
    ghost var ips;
    ghost var plans;
    ghost var passes;
    info, blocks, ips, plans := TranslateRanges(em, ranges);
    OneRange(em, ranges);
    StateLayout(cpuSize);
    flat, labels, ok, passes := Backend.GenerateCode(info, SLOTS, cpuSize, blocks);
    im := Image(info, blocks, ips, plans, passes, flat, labels);
  }

  /** The same with the emitter of the translator.  None of the instructions that are translated may be
      a load into x0 without offset. */
  method CompileRegion(ar: Arith, code: Code, ranges: seq<(Word, Word)>, ghost cpuSize: nat)
    returns (flat: seq<FlatInst>, labels: seq<nat>, ok: bool, ghost im: Image)
    requires Distinct(ranges) && NoneClobbers(EmitterOf(ar, code), ranges) && cpuSize >= 4 * (NUM_GLOBALS + 1)
    ensures ok ==> Compiled(EmitterOf(ar, code), cpuSize, im) && flat == im.code && labels == im.labels
    ensures ok ==> Placed(ranges, im.ips, im.plans) && Stops(EmitterOf(ar, code), ranges, im.plans) && (ranges != [] ==> labels != [] && labels[0] == 0)
    ensures ok && ranges != [] && AllAligned(ranges) ==> Ready(EmitterOf(ar, code), cpuSize, im, ranges[0].0)
    ensures NUM_GLOBALS + 3 * RangeInsns(EmitterOf(ar, code), ranges) <= 255 ==> ok
    ensures |ranges| == 1 ==> ok
  {
    EmitterIsUsable(ar, code);
    flat, labels, ok, im := CompileRanges(EmitterOf(ar, code), ranges, cpuSize);
    if ok {
      ImageIsReady(EmitterOf(ar, code), cpuSize, ranges, im);
    }
  }

  predicate AllAligned(ranges: seq<(Word, Word)>) {
    forall k | 0 <= k < |ranges| :: !Misaligned(ranges[k].0)
  }

  lemma ImageIsReady(em: Emitter, cpuSize: nat, ranges: seq<(Word, Word)>, im: Image)
    requires Translation(em, ranges, im.info, im.blocks, im.ips, im.plans) && (im.blocks != [] ==> im.labels != [] && im.labels[0] == 0)
    requires Backend.Compiled(im.info, SLOTS, cpuSize, im.blocks, im.passes, im.code, im.labels)
    ensures Compiled(em, cpuSize, im) && |im.labels| == |im.blocks|
    ensures ranges != [] && AllAligned(ranges) ==> Ready(em, cpuSize, im, ranges[0].0)
  {
    RunsAreAligned(ranges, im.ips, im.plans);
  }

  lemma RunsAreAligned(ranges: seq<(Word, Word)>, ips: seq<Word>, plans: seq<Plan>)
    requires Placed(ranges, ips, plans)
    ensures AllAligned(ranges) ==> AlignedRuns(ips, plans)
  {
    if AllAligned(ranges) {
      forall b: nat | b < |plans| && plans[b].Run? ensures !Misaligned(ips[b]) {
        assert b < |ranges| ==> !Misaligned(ranges[b].0);
      }
    }
  }

  // ---------- The actual machine ----------

  /** 32-bit arithmetic has the properties that everything above rests on. */
  lemma MachineLaws()
    ensures Laws(Rv32Machine.Machine())
  {
    Rv32Machine.MachineOperatorsAgree();
    Rv32Machine.MachineAdditionLaws();
  }

  /** The two directions for 32-bit arithmetic and the decoder: host code and interpreter run side by side. */
  lemma MachineFollows(fetch: Word -> Word, junk: (MState, nat) -> Word, cpuSize: nat, im: Image, n: nat, b: nat, c: Cpu, m: MState)
    returns (host: nat, guest: nat)
    requires Compiled(EmitterOf(Rv32Machine.Machine(), Rv32Decode.GuestCode(fetch)), cpuSize, im) && b < |im.blocks|
    requires HostHolds(cpuSize, c, m) && c.gip == im.ips[b] && !Misaligned(im.ips[b])
    ensures |im.labels| == |im.blocks| && FlatShaped(im.code)
    ensures var s := Interpret(Rv32Machine.Machine(), Rv32Decode.GuestCode(fetch), guest, c);
            var f := FlatRun(StateRegs(), GuestSem(Rv32Machine.Machine(), Rv32Decode.GuestCode(fetch).decode), junk, im.code, im.labels, host, im.labels[b], m);
            HostFollowed(cpuSize, im, f, s) && (f.Running? && !Unaligned(s) ==> guest >= n) && Keeps(m, f)
  {
    MachineLaws();
    host, guest := HostFollows(Rv32Machine.Machine(), Rv32Decode.GuestCode(fetch), junk, cpuSize, im, n, b, c, m);
  }

  lemma MachineReflects(fetch: Word -> Word, junk: (MState, nat) -> Word, cpuSize: nat, im: Image, host: nat, b: nat, c: Cpu, m: MState)
    returns (guest: nat)
    requires Compiled(EmitterOf(Rv32Machine.Machine(), Rv32Decode.GuestCode(fetch)), cpuSize, im) && b < |im.blocks|
    requires HostHolds(cpuSize, c, m) && c.gip == im.ips[b] && !Misaligned(im.ips[b]) && |im.labels| == |im.blocks|
    requires FlatRun(StateRegs(), GuestSem(Rv32Machine.Machine(), Rv32Decode.GuestCode(fetch).decode), junk, im.code, im.labels, host, im.labels[b], m).Exited?
    ensures var s := Interpret(Rv32Machine.Machine(), Rv32Decode.GuestCode(fetch), guest, c);
            var f := FlatRun(StateRegs(), GuestSem(Rv32Machine.Machine(), Rv32Decode.GuestCode(fetch).decode), junk, im.code, im.labels, host, im.labels[b], m);
            && HostFollowed(cpuSize, im, f, s) && Keeps(m, f)
            && (AlignedRuns(im.ips, im.plans) ==> (f.exit.Branch? && Misaligned(f.exit.target) <==> Unaligned(s)))
  {
    MachineLaws();
    guest := HostReflects(Rv32Machine.Machine(), Rv32Decode.GuestCode(fetch), junk, cpuSize, im, host, b, c, m);
  }
}
