/** Execute of `dbt/execute.cpp` as a whole: the loop, chained branches and translated code together do
    what the interpreter does. */
module Execution {
  import opened Common
  import opened Qir
  import opened Rv32
  import opened Rv32Emission
  import opened Rv32Blocks
  import opened HostMachine
  import opened Iteration
  import opened Layout
  import opened Compiler
  import Rv32Machine
  import Rv32Decode
  import C = Chaining

  // ---------- Host code and interpreter ----------

  /** What the loop needs to know: which host code was made for which guest address, where it leaves when
      it is run for a number of instructions, and the interpreter. */
  datatype World = World(
    ready: (nat, Word) -> bool, leave: (nat, nat, MState) -> RunResult<MState>, interpret: (nat, Cpu) -> StepResult,
    word: nat -> Word, cpuSize: nat)

  /** The interpreter gets to the exit by which host code leaves. */
  ghost predicate Exits(w: World, f: RunResult<MState>, c: Cpu) {
    exists guest: nat :: HostAgrees(w.cpuSize, [], [], f, w.interpret(guest, c))
  }

  ghost predicate CodeOk(w: World, id: nat, ip: Word, k: nat, host: MState, c: Cpu) {
    w.ready(id, ip) && !Misaligned(ip) && HostHolds(w.cpuSize, c, host) && c.gip == ip && w.leave(id, k, host).Exited? ==>
      Exits(w, w.leave(id, k, host), c) && KeepsReserved(host, w.leave(id, k, host).s)
  }

  ghost predicate Splits(w: World, k1: nat, k2: nat, c: Cpu) {
    w.interpret(k1 + k2, c) == var r := w.interpret(k1, c); if r.Stepped? then w.interpret(k2, r.cpu) else r
  }

  ghost predicate Lawful(w: World) {
    && (forall id, ip, k, host, c {:trigger CodeOk(w, id, ip, k, host, c)} :: CodeOk(w, id, ip, k, host, c))
    && (forall k1: nat, k2: nat, c {:trigger Splits(w, k1, k2, c)} :: Splits(w, k1, k2, c))
    && (forall c {:trigger w.interpret(0, c)} :: w.interpret(0, c) == Stepped(c))
  }

  // ---------- The loop ----------

  /** The loop with its tables, and the host machine. */
  datatype System = System(chain: C.Machine, host: MState)

  /** A turn of the loop, which enters host code and translates it first if need be, or a run of host code
      for a number of instructions up to a direct or indirect branch. */
  datatype Hop = Enter(id: nat, exits: seq<(C.Ip, bool)>) | Leave(e: C.Event, steps: nat)

  /** All host code in the cache was made for its address. */
  ghost predicate Holds(w: World, s: System) {
    C.Inv(s.chain) && forall ip {:trigger s.chain.cache.blocks[ip]} | ip in s.chain.cache.blocks :: w.ready(s.chain.cache.blocks[ip].code, w.word(ip))
  }

  function Target(m: C.Machine, e: C.Event): C.Ip
    requires C.Possible(m, e) && (e.Direct? || e.Indirect?)
  {
    if e.Direct? then m.cache.slots[e.j].gip else e.t
  }

  /** Host code is run from aligned addresses only: the interpreter has stopped at others. */
  ghost predicate CanHop(w: World, s: System, hop: Hop) {
    match hop
    case Enter(id, exits) =>
      C.Possible(s.chain, C.Turn(id, exits)) && (s.chain.ip !in s.chain.cache.blocks ==> w.ready(id, w.word(s.chain.ip)))
    case Leave(e, k) =>
      && (e.Direct? || e.Indirect?) && C.Possible(s.chain, e) && !Misaligned(w.word(s.chain.at))
      && var f := w.leave(s.chain.control.code, k, s.host); f.Exited? && f.exit == Branch(w.word(Target(s.chain, e)))
  }

  ghost function AfterHop(w: World, s: System, hop: Hop): System
    requires C.Shaped(s.chain) && CanHop(w, s, hop)
  {
    match hop
    case Enter(id, exits) => s.(chain := C.Step(s.chain, C.Turn(id, exits)))
    case Leave(e, k) => System(C.Step(s.chain, e), w.leave(s.chain.control.code, k, s.host).s)
  }

  /** What a step of the loop does to the map and to the guest address; everything else is tables. */
  lemma ChainEffect(m: C.Machine, e: C.Event)
    requires C.Inv(m) && C.Possible(m, e) && !e.Trap?
    ensures var m' := C.Step(m, e);
            && C.Inv(m') && m'.at == (if e.Turn? then m.at else Target(m, e))
            && m'.cache.blocks == if e.Turn? && m.ip !in m.cache.blocks then m.cache.blocks[m.ip := C.TBlock(m.ip, e.code)] else m.cache.blocks
  {
    C.StepKeeps(m, e);
    C.StepRefines(m, e);
  }

  /** The code that runs is the code of the guest address. */
  lemma RunsItsCode(w: World, s: System)
    requires Holds(w, s) && s.chain.control.InCode?
    ensures w.ready(s.chain.control.code, w.word(s.chain.at))
  {
    assert s.chain.at in s.chain.cache.blocks && s.chain.cache.blocks[s.chain.at].code == s.chain.control.code;
  }

  lemma HopKeeps(w: World, s: System, hop: Hop)
    requires Holds(w, s) && CanHop(w, s, hop)
    ensures Holds(w, AfterHop(w, s, hop))
  {
    var e := if hop.Enter? then C.Turn(hop.id, hop.exits) else hop.e;
    ChainEffect(s.chain, e);
    var s' := AfterHop(w, s, hop);
    forall ip | ip in s'.chain.cache.blocks ensures w.ready(s'.chain.cache.blocks[ip].code, w.word(ip)) {
      if ip in s.chain.cache.blocks {
        assert s'.chain.cache.blocks[ip] == s.chain.cache.blocks[ip];
      }
    }
  }

  // ---------- The interpreter keeps up ----------

  /** After `guest` instructions the interpreter is where the system is, or has refused to go there. */
  ghost predicate Reached(w: World, c: Cpu, guest: nat, s: System) {
    HostArrived(w.cpuSize, w.interpret(guest, c), w.word(s.chain.at), s.host)
  }

  lemma HopSteps(w: World, c: Cpu, guest: nat, s: System, hop: Hop) returns (guest': nat)
    requires Lawful(w) && Holds(w, s) && CanHop(w, s, hop) && Reached(w, c, guest, s)
    ensures guest' >= guest && Reached(w, c, guest', AfterHop(w, s, hop)) && KeepsReserved(s.host, AfterHop(w, s, hop).host)
  {
    guest' := guest;
    match hop
    case Enter(id, exits) => ChainEffect(s.chain, C.Turn(id, exits));
    case Leave(e, k) =>
      ChainEffect(s.chain, e);
      RunsItsCode(w, s);
      var r := w.interpret(guest, c);
      assert CodeOk(w, s.chain.control.code, w.word(s.chain.at), k, s.host, r.cpu);
      var f := w.leave(s.chain.control.code, k, s.host);
      var more: nat :| HostAgrees(w.cpuSize, [], [], f, w.interpret(more, r.cpu));
      assert Splits(w, guest, more, c);
      guest' := guest + more;
  }

  ghost predicate CanRun(w: World, s: System, hops: seq<Hop>)
    decreases |hops|
  {
    hops != [] ==> C.Shaped(s.chain) && CanHop(w, s, hops[0]) && CanRun(w, AfterHop(w, s, hops[0]), hops[1..])
  }

  ghost function AfterRun(w: World, s: System, hops: seq<Hop>): System
    requires CanRun(w, s, hops)
    decreases |hops|
  {
    if hops == [] then s else AfterRun(w, AfterHop(w, s, hops[0]), hops[1..])
  }

  /** Every run of the system steps the interpreter to the same guest address, with the same registers
      and memory; it goes to a misaligned address exactly where the interpreter refuses to.  The stack
      pointer, the memory base and the state pointer are kept. */
  lemma {:induction false} RunSteps(w: World, c: Cpu, guest: nat, s: System, hops: seq<Hop>) returns (guest': nat)
    requires Lawful(w) && Holds(w, s) && CanRun(w, s, hops) && Reached(w, c, guest, s)
    ensures guest' >= guest && Holds(w, AfterRun(w, s, hops)) && Reached(w, c, guest', AfterRun(w, s, hops))
    ensures KeepsReserved(s.host, AfterRun(w, s, hops).host)
    decreases |hops|
  {
    guest' := guest;
    if hops != [] {
      HopKeeps(w, s, hops[0]);
      var g := HopSteps(w, c, guest, s, hops[0]);
      guest' := RunSteps(w, c, g, AfterHop(w, s, hops[0]), hops[1..]);
    }
  }

  /** And if host code then stops with a trap or a fault, so does the interpreter, with the same
      registers and memory and at the same instruction. */
  lemma RunStops(w: World, c: Cpu, guest: nat, s: System, k: nat) returns (guest': nat)
    requires Lawful(w) && Holds(w, s) && Reached(w, c, guest, s) && s.chain.control.InCode? && !Misaligned(w.word(s.chain.at))
    requires var f := w.leave(s.chain.control.code, k, s.host); f.Exited? && !f.exit.Branch?
    ensures HostAgrees(w.cpuSize, [], [], w.leave(s.chain.control.code, k, s.host), w.interpret(guest', c))
  {
    RunsItsCode(w, s);
    var r := w.interpret(guest, c);
    assert CodeOk(w, s.chain.control.code, w.word(s.chain.at), k, s.host, r.cpu);
    var more: nat :| HostAgrees(w.cpuSize, [], [], w.leave(s.chain.control.code, k, s.host), w.interpret(more, r.cpu));
    assert Splits(w, guest, more, c);
    guest' := guest + more;
  }

  function Start(ip: C.Ip, host: MState): System {
    System(C.Machine(C.EmptyCache(), ip, C.InLoop(None), ip), host)
  }

  /** From an empty cache. */
  lemma ExecuteSteps(w: World, ip: C.Ip, host: MState, c: Cpu, hops: seq<Hop>) returns (guest: nat)
    requires Lawful(w) && HostHolds(w.cpuSize, c, host) && c.gip == w.word(ip) && !Misaligned(c.gip) && CanRun(w, Start(ip, host), hops)
    ensures Reached(w, c, guest, AfterRun(w, Start(ip, host), hops)) && KeepsReserved(host, AfterRun(w, Start(ip, host), hops).host)
  {
    C.InitAgrees(ip);
    assert w.interpret(0, c) == Stepped(c);
    guest := RunSteps(w, c, 0, Start(ip, host), hops);
  }

  // ---------- Compiled code ----------

  /** Where the host code of an image leaves. */
  function ImageRun(sem: Semantics, junk: (MState, nat) -> Word, im: Image, k: nat, host: MState): RunResult<MState> {
    if FlatShaped(im.code) then FlatRun(StateRegs(), sem, junk, im.code, im.labels, k, 0, host) else Wild
  }

  /** The world in which host code comes from the compiler, with the images that it has made. */
  ghost function WorldWith(em: Emitter, sem: Semantics, interpret: (nat, Cpu) -> StepResult, junk: (MState, nat) -> Word, cpuSize: nat,
                           images: nat -> Image, word: nat -> Word): World {
    World((id: nat, ip: Word) => Ready(em, cpuSize, images(id), ip), (id: nat, k: nat, host: MState) => ImageRun(sem, junk, images(id), k, host),
          interpret, word, cpuSize)
  }

  ghost function WorldOf(ar: Arith, code: Code, junk: (MState, nat) -> Word, cpuSize: nat, images: nat -> Image, word: nat -> Word): World {
    WorldWith(EmitterOf(ar, code), GuestSem(ar, code.decode), (k: nat, c: Cpu) => Interpret(ar, code, k, c), junk, cpuSize, images, word)
  }

  lemma ImageExits(ar: Arith, code: Code, junk: (MState, nat) -> Word, cpuSize: nat, im: Image, ip: Word, k: nat, host: MState, c: Cpu) returns (guest: nat)
    requires Laws(ar) && Ready(EmitterOf(ar, code), cpuSize, im, ip) && !Misaligned(ip) && HostHolds(cpuSize, c, host) && c.gip == ip
    requires ImageRun(GuestSem(ar, code.decode), junk, im, k, host).Exited?
    ensures HostAgrees(cpuSize, [], [], ImageRun(GuestSem(ar, code.decode), junk, im, k, host), Interpret(ar, code, guest, c))
    ensures KeepsReserved(host, ImageRun(GuestSem(ar, code.decode), junk, im, k, host).s)
  {
    guest := HostReflects(ar, code, junk, cpuSize, im, k, 0, c, host);
  }

  lemma CompiledCodeOk(ar: Arith, code: Code, junk: (MState, nat) -> Word, cpuSize: nat, images: nat -> Image, word: nat -> Word,
                       id: nat, ip: Word, k: nat, host: MState, c: Cpu)
    requires Laws(ar)
    ensures CodeOk(WorldOf(ar, code, junk, cpuSize, images, word), id, ip, k, host, c)
  {
    var w := WorldOf(ar, code, junk, cpuSize, images, word);
    if w.ready(id, ip) && !Misaligned(ip) && HostHolds(cpuSize, c, host) && c.gip == ip && w.leave(id, k, host).Exited? {
      var guest := ImageExits(ar, code, junk, cpuSize, images(id), ip, k, host, c);
      assert HostAgrees(w.cpuSize, [], [], w.leave(id, k, host), w.interpret(guest, c));
    }
  }

  lemma CompiledSplits(ar: Arith, code: Code, junk: (MState, nat) -> Word, cpuSize: nat, images: nat -> Image, word: nat -> Word,
                       k1: nat, k2: nat, c: Cpu)
    ensures Splits(WorldOf(ar, code, junk, cpuSize, images, word), k1, k2, c)
    ensures WorldOf(ar, code, junk, cpuSize, images, word).interpret(0, c) == Stepped(c)
  {
    InterpretSplit(ar, code, k1, k2, c);
    InterpretOne(ar, code, c);
  }

  lemma CompiledIsLawful(ar: Arith, code: Code, junk: (MState, nat) -> Word, cpuSize: nat, images: nat -> Image, word: nat -> Word)
    requires Laws(ar)
    ensures Lawful(WorldOf(ar, code, junk, cpuSize, images, word))
  {
    var w := WorldOf(ar, code, junk, cpuSize, images, word);
    forall id, ip, k, host, c ensures CodeOk(w, id, ip, k, host, c) {
      CompiledCodeOk(ar, code, junk, cpuSize, images, word, id, ip, k, host, c);
    }
    forall k1: nat, k2: nat, c ensures Splits(w, k1, k2, c) {
      CompiledSplits(ar, code, junk, cpuSize, images, word, k1, k2, c);
    }
    forall c ensures w.interpret(0, c) == Stepped(c) {
      CompiledSplits(ar, code, junk, cpuSize, images, word, 0, 0, c);
    }
  }

  /** 32-bit arithmetic and the decoder. */
  ghost function MachineWorld(fetch: Word -> Word, junk: (MState, nat) -> Word, cpuSize: nat, images: nat -> Image): World {
    WorldOf(Rv32Machine.Machine(), Rv32Decode.GuestCode(fetch), junk, cpuSize, images, Rv32Machine.Numbers().word)
  }

  lemma MachineIsLawful(fetch: Word -> Word, junk: (MState, nat) -> Word, cpuSize: nat, images: nat -> Image)
    ensures Lawful(MachineWorld(fetch, junk, cpuSize, images))
  {
    MachineLaws();
    CompiledIsLawful(Rv32Machine.Machine(), Rv32Decode.GuestCode(fetch), junk, cpuSize, images, Rv32Machine.Numbers().word);
  }

  /** Execute with 32-bit arithmetic and the decoder, from an empty cache. */
  lemma MachineExecutes(fetch: Word -> Word, junk: (MState, nat) -> Word, cpuSize: nat, images: nat -> Image, ip: C.Ip, host: MState, c: Cpu,
                        hops: seq<Hop>) returns (guest: nat)
    requires var w := MachineWorld(fetch, junk, cpuSize, images);
             && HostHolds(w.cpuSize, c, host) && c.gip == w.word(ip) && !Misaligned(c.gip) && CanRun(w, Start(ip, host), hops)
    ensures var w := MachineWorld(fetch, junk, cpuSize, images); Reached(w, c, guest, AfterRun(w, Start(ip, host), hops)) && KeepsReserved(host, AfterRun(w, Start(ip, host), hops).host)
  {
    MachineIsLawful(fetch, junk, cpuSize, images);
    guest := ExecuteSteps(MachineWorld(fetch, junk, cpuSize, images), ip, host, c, hops);
  }
}
