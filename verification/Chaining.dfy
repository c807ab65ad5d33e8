/** The translation cache and block chaining: `dbt/tcache/tcache.{h,cpp}`, the stubs of
    `dbt/qmc/qcg/jitabi.cpp`, the inlined lookup of `dbt/qmc/qcg/qemit.cpp` and the loop of
    `dbt/execute.cpp`.  Two direct-mapped tables and patched branch slots speed up an ordered map. */
module Chaining {
  import opened Common

  /** A 32-bit guest address. */
  type Ip = n: nat | n < 0x1_0000_0000

  /** A translated block; `code` is the entry of its host code. */
  datatype TBlock = TBlock(ip: Ip, code: nat)

  /** An entry of the table for indirect branches; the empty one holds address 0 and a null pointer. */
  datatype Brind = Brind(gip: Ip, code: Option<nat>)

  /** A direct branch in translated code: lazy until it is linked to host code. */
  datatype Slot = Slot(gip: Ip, cross: bool, link: Option<nat>)

  /** `links` is `link_map`; `brindTargets` and `segmentEntries` are the blocks with these flags. */
  datatype Cache = Cache(blocks: map<Ip, TBlock>, l1: seq<Option<TBlock>>, brind: seq<Brind>, slots: seq<Slot>,
                         links: multiset<(Ip, nat)>, brindTargets: set<Ip>, segmentEntries: set<Ip>)

  const L1_SIZE: nat := 4096

  function L1Hash(ip: Ip): (h: nat)
    ensures h < L1_SIZE
  {
    ip / 4 % L1_SIZE
  }

  /** The inlined lookup scales the address in a 32-bit register and keeps bits 4 to 15; entries are
      sixteen bytes long. */
  function InlinedOffset(gip: Ip): nat {
    (4 * gip) % 0x1_0000_0000 / 16 % 4096 * 16
  }

  lemma InlinedOffsetIsHash(gip: Ip)
    ensures InlinedOffset(gip) == 16 * L1Hash(gip)
  {
    var q, r := gip / 0x4000_0000, gip % 0x4000_0000;
    assert 4 * gip == 0x1_0000_0000 * q + 4 * r && 0 <= 4 * r < 0x1_0000_0000;
    assert (4 * gip) % 0x1_0000_0000 == 4 * r;
    assert gip / 4 == 0x1000_0000 * q + r / 4;
    assert gip / 4 % 4096 == r / 4 % 4096;
  }

  /** The same with the operators that the emitted code uses. */
  lemma InlinedOffsetBits(gip: bv32)
    ensures (gip << 2) & 0xfff0 == ((gip >> 2) & 0xfff) << 4
  {
  }

  // ---------- Operations ----------

  /** tcache::Lookup. */
  function Found(c: Cache, ip: Ip): (Cache, Option<TBlock>)
    requires |c.l1| == L1_SIZE
  {
    var h := L1Hash(ip);
    if c.l1[h].Some? && c.l1[h].value.ip == ip then (c, c.l1[h])
    else if ip in c.blocks then (c.(l1 := c.l1[h := Some(c.blocks[ip])]), Some(c.blocks[ip]))
    else (c, None)
  }

  /** tcache::Insert: the map keeps an older block with the same address, the table does not. */
  function Inserted(c: Cache, tb: TBlock): Cache
    requires |c.l1| == L1_SIZE
  {
    c.(blocks := if tb.ip in c.blocks then c.blocks else c.blocks[tb.ip := tb], l1 := c.l1[L1Hash(tb.ip) := Some(tb)])
  }

  function WithBrind(c: Cache, tb: TBlock): Cache
    requires |c.brind| == L1_SIZE
  {
    c.(brind := c.brind[L1Hash(tb.ip) := Brind(tb.ip, Some(tb.code))], brindTargets := c.brindTargets + {tb.ip})
  }

  /** BranchSlot::Link and tcache::RecordLink. */
  function WithLink(c: Cache, j: nat, tb: TBlock): Cache
    requires j < |c.slots|
  {
    c.(slots := c.slots[j := c.slots[j].(link := Some(tb.code))], links := c.links + multiset{(tb.ip, j)},
       segmentEntries := if c.slots[j].cross then c.segmentEntries + {tb.ip} else c.segmentEntries)
  }

  // ---------- Agreement with the map ----------

  ghost predicate SlotOk(c: Cache, j: nat)
    requires j < |c.slots|
  {
    c.slots[j].link.Some? ==>
      && c.slots[j].gip in c.blocks && c.slots[j].link == Some(c.blocks[c.slots[j].gip].code)
      && (c.slots[j].gip, j) in c.links && (c.slots[j].cross ==> c.slots[j].gip in c.segmentEntries)
  }

  ghost predicate L1Ok(c: Cache, h: nat)
    requires h < |c.l1|
  {
    c.l1[h].Some? ==> var tb := c.l1[h].value; tb.ip in c.blocks && c.blocks[tb.ip] == tb && L1Hash(tb.ip) == h
  }

  ghost predicate BrindOk(c: Cache, h: nat)
    requires h < |c.brind|
  {
    var e := c.brind[h];
    if e.code.None? then e.gip == 0
    else e.gip in c.blocks && e.code == Some(c.blocks[e.gip].code) && L1Hash(e.gip) == h && e.gip in c.brindTargets
  }

  /** Tables and slots hold nothing but what the map holds. */
  ghost predicate Agrees(c: Cache) {
    && |c.l1| == |c.brind| == L1_SIZE
    && (forall ip {:trigger c.blocks[ip]} | ip in c.blocks :: c.blocks[ip].ip == ip)
    && (forall h: nat {:trigger L1Ok(c, h)} | h < L1_SIZE :: L1Ok(c, h))
    && (forall h: nat {:trigger BrindOk(c, h)} | h < L1_SIZE :: BrindOk(c, h))
    && (forall j: nat {:trigger SlotOk(c, j)} | j < |c.slots| :: SlotOk(c, j))
  }

  lemma AgreesByParts(c: Cache, c': Cache)
    requires Agrees(c) && |c'.l1| == |c'.brind| == L1_SIZE && |c'.slots| == |c.slots|
    requires forall ip {:trigger c'.blocks[ip]} | ip in c'.blocks :: c'.blocks[ip].ip == ip
    requires forall ip {:trigger c.blocks[ip]} | ip in c.blocks :: ip in c'.blocks && c'.blocks[ip] == c.blocks[ip]
    requires c.links <= c'.links && c.brindTargets <= c'.brindTargets && c.segmentEntries <= c'.segmentEntries
    requires forall h: nat | h < L1_SIZE && c'.l1[h] != c.l1[h] :: L1Ok(c', h)
    requires forall h: nat | h < L1_SIZE && c'.brind[h] != c.brind[h] :: BrindOk(c', h)
    requires forall j: nat | j < |c.slots| && c'.slots[j] != c.slots[j] :: SlotOk(c', j)
    ensures Agrees(c')
  {
    forall h: nat | h < L1_SIZE ensures L1Ok(c', h) {
      assert L1Ok(c, h);
    }
    forall h: nat | h < L1_SIZE ensures BrindOk(c', h) {
      assert BrindOk(c, h);
    }
    forall j: nat | j < |c'.slots| ensures SlotOk(c', j) {
      assert SlotOk(c, j);
    }
  }

  /** A lookup through the table is a lookup in the map. */
  lemma LookupIsMap(c: Cache, ip: Ip)
    requires Agrees(c)
    ensures var (c', r) := Found(c, ip);
            Agrees(c') && c'.blocks == c.blocks && c'.slots == c.slots && r == if ip in c.blocks then Some(c.blocks[ip]) else None
  {
    var (c', r) := Found(c, ip);
    assert L1Ok(c, L1Hash(ip));
    AgreesByParts(c, c');
  }

  /** Insertion keeps the agreement exactly if the address is new, or the same block is inserted again. */
  lemma InsertAgrees(c: Cache, tb: TBlock)
    requires Agrees(c)
    ensures Agrees(Inserted(c, tb)) <==> tb.ip !in c.blocks || c.blocks[tb.ip] == tb
  {
    var c' := Inserted(c, tb);
    if tb.ip !in c.blocks || c.blocks[tb.ip] == tb {
      assert c'.blocks[tb.ip] == tb && L1Ok(c', L1Hash(tb.ip));
      forall ip | ip in c'.blocks ensures c'.blocks[ip].ip == ip {
        if ip != tb.ip {
          assert c'.blocks[ip] == c.blocks[ip];
        }
      }
      AgreesByParts(c, c');
    } else {
      assert !L1Ok(c', L1Hash(tb.ip));
    }
  }

  lemma CacheBrindAgrees(c: Cache, tb: TBlock)
    requires Agrees(c) && tb.ip in c.blocks && c.blocks[tb.ip] == tb
    ensures Agrees(WithBrind(c, tb))
  {
    AgreesByParts(c, WithBrind(c, tb));
  }

  lemma LinkAgrees(c: Cache, j: nat, tb: TBlock)
    requires Agrees(c) && j < |c.slots| && tb.ip in c.blocks && c.blocks[tb.ip] == tb && c.slots[j].gip == tb.ip
    ensures Agrees(WithLink(c, j, tb))
  {
    AgreesByParts(c, WithLink(c, j, tb));
  }

  /** A hit of the inlined lookup is what the map holds, except that address 0 hits every empty entry. */
  lemma InlinedHit(c: Cache, gip: Ip)
    requires Agrees(c) && c.brind[L1Hash(gip)].gip == gip
    ensures c.brind[L1Hash(gip)].code.None? ==> gip == 0
    ensures c.brind[L1Hash(gip)].code.Some? ==> gip in c.blocks && c.brind[L1Hash(gip)].code == Some(c.blocks[gip].code)
  {
    assert BrindOk(c, L1Hash(gip));
  }

  // ---------- The machine ----------

  /** Control is in the loop of Execute, with the branch slot that led there, or in translated code. */
  datatype Control = InLoop(slot: Option<nat>) | InCode(code: nat) | Crashed

  /** `ip` is the field of `CPUState`; `at` is the guest address where the guest program is. */
  datatype Machine = Machine(cache: Cache, ip: Ip, control: Control, at: Ip)

  /** What happens next: the loop turns once, translating to `code` with the given direct exits if it has to;
      translated code takes one of the direct branches, or an indirect one; or a trap ends in `ip`. */
  datatype Event = Turn(code: nat, exits: seq<(Ip, bool)>) | Direct(j: nat) | Indirect(t: Ip) | Trap(ip: Ip)

  function NewSlots(exits: seq<(Ip, bool)>): (s: seq<Slot>)
    ensures |s| == |exits| && forall k | 0 <= k < |s| :: s[k] == Slot(exits[k].0, exits[k].1, None)
  {
    seq(|exits|, k requires 0 <= k < |exits| => Slot(exits[k].0, exits[k].1, None))
  }

  /** CompilerDoJob and AnnounceRegion: the new block's branches are lazy. */
  function Compiled(c: Cache, ip: Ip, code: nat, exits: seq<(Ip, bool)>): Cache
    requires |c.l1| == L1_SIZE
  {
    Inserted(c.(slots := c.slots + NewSlots(exits)), TBlock(ip, code))
  }

  /** One turn of the loop of Execute. */
  function TurnStep(m: Machine, code: nat, exits: seq<(Ip, bool)>): Machine
    requires |m.cache.l1| == |m.cache.brind| == L1_SIZE && m.control.InLoop?
    requires m.control.slot.Some? ==> m.control.slot.value < |m.cache.slots|
  {
    var (c1, found) := Found(m.cache, m.ip);
    var c2 := if found.Some? then c1 else Compiled(c1, m.ip, code, exits);
    var tb := if found.Some? then found.value else TBlock(m.ip, code);
    m.(cache := if m.control.slot.Some? then WithLink(c2, m.control.slot.value, tb) else WithBrind(c2, tb), control := InCode(tb.code))
  }

  /** A direct branch: the slot's jump if it is linked, otherwise TryLinkBranch. */
  function DirectStep(m: Machine, j: nat): Machine
    requires |m.cache.l1| == L1_SIZE && j < |m.cache.slots|
  {
    var s := m.cache.slots[j];
    if s.link.Some? then m.(control := InCode(s.link.value), at := s.gip)
    else
      var (c, found) := Found(m.cache, s.gip);
      if found.Some? then m.(cache := WithLink(c, j, found.value), control := InCode(found.value.code), at := s.gip)
      else m.(cache := c, ip := s.gip, control := InLoop(Some(j)), at := s.gip)
  }

  /** An indirect branch: the inlined lookup, then qcgstub_brind. */
  function IndirectStep(m: Machine, t: Ip): Machine
    requires |m.cache.l1| == |m.cache.brind| == L1_SIZE
  {
    var e := m.cache.brind[L1Hash(t)];
    if e.gip == t then m.(control := if e.code.Some? then InCode(e.code.value) else Crashed, at := t)
    else
      var (c, found) := Found(m.cache, t);
      if found.Some? then m.(cache := WithBrind(c, found.value), ip := t, control := InCode(found.value.code), at := t)
      else m.(cache := c, ip := t, control := InLoop(None), at := t)
  }

  /** The event can happen now. */
  predicate Possible(m: Machine, e: Event) {
    match e
    case Turn(_, _) => m.control.InLoop?
    case Direct(j) => m.control.InCode? && j < |m.cache.slots|
    case Indirect(_) => m.control.InCode?
    case Trap(_) => m.control.InCode?
  }

  ghost predicate Inv(m: Machine) {
    && Agrees(m.cache)
    && match m.control
       case InLoop(slot) => m.ip == m.at && (slot.Some? ==> slot.value < |m.cache.slots| && m.cache.slots[slot.value].gip == m.ip)
       case InCode(code) => m.at in m.cache.blocks && code == m.cache.blocks[m.at].code
       case Crashed => m.at == 0
  }

  predicate Shaped(m: Machine) {
    && |m.cache.l1| == |m.cache.brind| == L1_SIZE
    && (m.control.InLoop? && m.control.slot.Some? ==> m.control.slot.value < |m.cache.slots|)
  }

  function Step(m: Machine, e: Event): (m': Machine)
    requires Shaped(m) && Possible(m, e)
    ensures Shaped(m')
  {
    match e
    case Turn(code, exits) => TurnStep(m, code, exits)
    case Direct(j) => DirectStep(m, j)
    case Indirect(t) => IndirectStep(m, t)
    case Trap(ip) => m.(ip := ip, control := InLoop(None), at := ip)
  }

  lemma SlotsAgree(c: Cache, exits: seq<(Ip, bool)>)
    requires Agrees(c)
    ensures Agrees(c.(slots := c.slots + NewSlots(exits)))
  {
    var c' := c.(slots := c.slots + NewSlots(exits));
    forall h: nat | h < L1_SIZE ensures L1Ok(c', h) && BrindOk(c', h) {
      assert L1Ok(c, h) && BrindOk(c, h);
    }
    forall j: nat | j < |c'.slots| ensures SlotOk(c', j) {
      if j < |c.slots| {
        assert SlotOk(c, j);
      }
    }
  }

  lemma CompileAgrees(c: Cache, ip: Ip, code: nat, exits: seq<(Ip, bool)>)
    requires Agrees(c) && ip !in c.blocks
    ensures Agrees(Compiled(c, ip, code, exits))
  {
    SlotsAgree(c, exits);
    InsertAgrees(c.(slots := c.slots + NewSlots(exits)), TBlock(ip, code));
  }

  lemma TurnKeeps(m: Machine, code: nat, exits: seq<(Ip, bool)>)
    requires Inv(m) && m.control.InLoop?
    ensures Inv(TurnStep(m, code, exits))
  {
    LookupIsMap(m.cache, m.ip);
    var (c1, found) := Found(m.cache, m.ip);
    if found.None? {
      CompileAgrees(c1, m.ip, code, exits);
    }
    var c2 := if found.Some? then c1 else Compiled(c1, m.ip, code, exits);
    var tb := if found.Some? then found.value else TBlock(m.ip, code);
    assert c2.blocks[m.ip] == tb && tb.ip == m.ip;
    if m.control.slot.Some? {
      LinkAgrees(c2, m.control.slot.value, tb);
    } else {
      CacheBrindAgrees(c2, tb);
    }
  }

  lemma DirectKeeps(m: Machine, j: nat)
    requires Inv(m) && m.control.InCode? && j < |m.cache.slots|
    ensures Inv(DirectStep(m, j))
  {
    assert SlotOk(m.cache, j);
    var gip := m.cache.slots[j].gip;
    LookupIsMap(m.cache, gip);
    if m.cache.slots[j].link.None? && gip in m.cache.blocks {
      LinkAgrees(Found(m.cache, gip).0, j, m.cache.blocks[gip]);
    }
  }

  lemma IndirectKeeps(m: Machine, t: Ip)
    requires Inv(m) && m.control.InCode?
    ensures Inv(IndirectStep(m, t))
    ensures IndirectStep(m, t).control == Crashed <==> t == 0 && m.cache.brind[L1Hash(0)].code.None?
  {
    LookupIsMap(m.cache, t);
    assert BrindOk(m.cache, L1Hash(t));
    if m.cache.brind[L1Hash(t)].gip == t {
      InlinedHit(m.cache, t);
    } else if t in m.cache.blocks {
      CacheBrindAgrees(Found(m.cache, t).0, m.cache.blocks[t]);
    }
  }

  lemma StepKeeps(m: Machine, e: Event)
    requires Inv(m) && Possible(m, e)
    ensures Inv(Step(m, e))
  {
    match e
    case Turn(code, exits) => TurnKeeps(m, code, exits);
    case Direct(j) => DirectKeeps(m, j);
    case Indirect(t) => IndirectKeeps(m, t);
    case Trap(ip) =>
  }

  // ---------- Refinement ----------

  /** The machine without tables and links: every branch goes through the map. */
  datatype Plain = Plain(blocks: map<Ip, TBlock>, exits: seq<(Ip, bool)>, running: Option<nat>, at: Ip)

  function ExitsOf(slots: seq<Slot>): (s: seq<(Ip, bool)>)
    ensures |s| == |slots| && forall k | 0 <= k < |s| :: s[k] == (slots[k].gip, slots[k].cross)
  {
    seq(|slots|, k requires 0 <= k < |slots| => (slots[k].gip, slots[k].cross))
  }

  function Abs(m: Machine): Plain {
    Plain(m.cache.blocks, ExitsOf(m.cache.slots), if m.control.InCode? then Some(m.control.code) else None, m.at)
  }

  /** Goes on with the block at `t` if there is one, and otherwise back to the loop. */
  function GoTo(p: Plain, t: Ip): Plain {
    p.(at := t, running := if t in p.blocks then Some(p.blocks[t].code) else None)
  }

  function PlainStep(p: Plain, e: Event): Plain
    requires e.Direct? ==> e.j < |p.exits|
  {
    match e
    case Turn(code, exits) =>
      if p.at in p.blocks then GoTo(p, p.at)
      else GoTo(p.(blocks := p.blocks[p.at := TBlock(p.at, code)], exits := p.exits + exits), p.at)
    case Direct(j) => GoTo(p, p.exits[j].0)
    case Indirect(t) => GoTo(p, t)
    case Trap(ip) => p.(at := ip, running := None)
  }

  lemma TurnRefines(m: Machine, code: nat, exits: seq<(Ip, bool)>)
    requires Inv(m) && m.control.InLoop?
    ensures Abs(TurnStep(m, code, exits)) == PlainStep(Abs(m), Turn(code, exits))
  {
    LookupIsMap(m.cache, m.ip);
    var s, s' := m.cache.slots, TurnStep(m, code, exits).cache.slots;
    assert ExitsOf(s') == if m.ip in m.cache.blocks then ExitsOf(s) else ExitsOf(s) + exits;
  }

  lemma DirectRefines(m: Machine, j: nat)
    requires Inv(m) && m.control.InCode? && j < |m.cache.slots|
    ensures Abs(DirectStep(m, j)) == PlainStep(Abs(m), Direct(j))
  {
    LookupIsMap(m.cache, m.cache.slots[j].gip);
    assert SlotOk(m.cache, j);
    assert ExitsOf(DirectStep(m, j).cache.slots) == ExitsOf(m.cache.slots);
  }

  lemma IndirectRefines(m: Machine, t: Ip)
    requires Inv(m) && m.control.InCode?
    ensures IndirectStep(m, t).control == Crashed || Abs(IndirectStep(m, t)) == PlainStep(Abs(m), Indirect(t))
  {
    LookupIsMap(m.cache, t);
    assert BrindOk(m.cache, L1Hash(t));
    assert ExitsOf(IndirectStep(m, t).cache.slots) == ExitsOf(m.cache.slots);
  }

  /** Every step of the chained machine is a step of the plain one, unless an indirect branch to address 0
      hits an empty entry. */
  lemma StepRefines(m: Machine, e: Event)
    requires Inv(m) && Possible(m, e)
    ensures Step(m, e).control == Crashed || Abs(Step(m, e)) == PlainStep(Abs(m), e)
  {
    match e
    case Turn(code, exits) => TurnRefines(m, code, exits);
    case Direct(j) => DirectRefines(m, j);
    case Indirect(t) => IndirectRefines(m, t);
    case Trap(ip) =>
  }

  // ---------- Runs ----------

  /** A run of Execute over a list of events; None if one of them cannot happen. */
  function ChainRun(m: Machine, es: seq<Event>): Option<Machine>
    requires Shaped(m)
    decreases |es|
  {
    if es == [] then Some(m)
    else if !Possible(m, es[0]) then None
    else ChainRun(Step(m, es[0]), es[1..])
  }

  function PlainRun(p: Plain, es: seq<Event>): Option<Plain>
    decreases |es|
  {
    if es == [] then Some(p)
    else if es[0].Direct? && es[0].j >= |p.exits| then None
    else PlainRun(PlainStep(p, es[0]), es[1..])
  }

  ghost predicate NoBranchToZero(es: seq<Event>) {
    forall k: nat | k < |es| :: es[k] != Indirect(0)
  }

  /** Over every run of Execute: linked slots and table hits lead to the code that the map holds for the
      guest address, and `state->ip` is that address whenever control is in the loop, so the run is one
      of the plain machine. */
  lemma {:induction false} RunRefines(m: Machine, es: seq<Event>)
    requires Inv(m) && m.control != Crashed && ChainRun(m, es).Some? && NoBranchToZero(es)
    ensures var m' := ChainRun(m, es).value; Inv(m') && m'.control != Crashed && PlainRun(Abs(m), es) == Some(Abs(m'))
    decreases |es|
  {
    if es != [] {
      StepKeeps(m, es[0]);
      StepRefines(m, es[0]);
      if es[0].Indirect? {
        assert es[0] != Indirect(0);
        IndirectKeeps(m, es[0].t);
      }
      assert NoBranchToZero(es[1..]) by {
        assert forall k: nat | k < |es[1..]| :: es[1..][k] == es[k + 1];
      }
      RunRefines(Step(m, es[0]), es[1..]);
    }
  }

  function EmptyCache(): Cache {
    Cache(map[], seq(L1_SIZE, _ => None), seq(L1_SIZE, _ => Brind(0, None)), [], multiset{}, {}, {})
  }

  /** tcache::Init. */
  lemma InitAgrees(ip: Ip)
    ensures Inv(Machine(EmptyCache(), ip, InLoop(None), ip))
  {
    var c := EmptyCache();
    forall h: nat | h < L1_SIZE ensures L1Ok(c, h) && BrindOk(c, h) {
    }
  }

  // ---------- What is recorded for the profile ----------

  // Said in terms of the map alone, without the tables.

  /** The branch slot that control passes through in a step: from the loop on a turn that an unlinked
      branch has led to, or straight to a block that there is. */
  function PassedThrough(m: Machine, e: Event): set<nat> {
    if e.Turn? && m.control.InLoop? && m.control.slot.Some? then {m.control.slot.value}
    else if e.Direct? && e.j < |m.cache.slots| && m.cache.slots[e.j].gip in m.cache.blocks then {e.j}
    else {}
  }

  /** The block that control enters without a direct branch: from the loop, or by an indirect branch. */
  function EnteredIndirectly(m: Machine, e: Event): set<Ip>
    requires Shaped(m) && Possible(m, e)
  {
    if e.Turn? && m.control.slot.None? then {m.ip}
    else if e.Indirect? && e.t in m.cache.blocks && Step(m, e).control != Crashed then {e.t}
    else {}
  }

  ghost predicate Crosses(c: Cache, ip: Ip, j: nat) {
    j < |c.slots| && c.slots[j].link.Some? && c.slots[j].cross && c.slots[j].gip == ip
  }

  /** `passed` are the slots that control has passed through, `entered` the blocks that it has entered
      without one.  Slots are linked, links recorded and blocks flagged for exactly these reasons. */
  ghost predicate RecordedFor(m: Machine, passed: set<nat>, entered: set<Ip>) {
    && (forall j | j in passed :: j < |m.cache.slots|)
    && (forall j: nat {:trigger m.cache.slots[j]} | j < |m.cache.slots| :: m.cache.slots[j].link.Some? <==> j in passed)
    && (forall ip {:trigger ip in m.cache.segmentEntries} :: ip in m.cache.segmentEntries <==> exists j: nat :: Crosses(m.cache, ip, j))
    && (forall ip: Ip, j: nat {:trigger m.cache.links[(ip, j)]} :: m.cache.links[(ip, j)] == if j in passed && m.cache.slots[j].gip == ip then 1 else 0)
    && m.cache.brindTargets == entered
    && (m.control.InLoop? && m.control.slot.Some? ==> m.control.slot.value !in passed)
  }

  /** Slot `j` is linked, and the link is recorded. */
  lemma LinkRecords(m: Machine, m': Machine, j: nat, tb: TBlock, passed: set<nat>, entered: set<Ip>)
    requires RecordedFor(m, passed, entered) && j < |m.cache.slots| && j !in passed && m.cache.slots[j].gip == tb.ip
    requires var c, c' := m.cache, m'.cache;
             && |c'.slots| == |c.slots| && (forall k: nat | k < |c.slots| && k != j :: c'.slots[k] == c.slots[k])
             && c'.slots[j] == c.slots[j].(link := Some(tb.code)) && c'.links == c.links + multiset{(tb.ip, j)} && c'.brindTargets == c.brindTargets
             && c'.segmentEntries == if c.slots[j].cross then c.segmentEntries + {tb.ip} else c.segmentEntries
    requires m'.control.InCode?
    ensures RecordedFor(m', passed + {j}, entered)
  {
    var c, c' := m.cache, m'.cache;
    forall ip ensures ip in c'.segmentEntries <==> exists k: nat :: Crosses(c', ip, k) {
      if ip in c.segmentEntries {
        var k: nat :| Crosses(c, ip, k);
        assert Crosses(c', ip, k);
      } else if ip in c'.segmentEntries {
        assert Crosses(c', ip, j);
      } else {
        forall k: nat ensures !Crosses(c', ip, k) {
          assert !Crosses(c, ip, k);
        }
      }
    }
  }

  /** New slots are not linked, and nothing else changes. */
  lemma NothingRecorded(m: Machine, m': Machine, passed: set<nat>, entered: set<Ip>)
    requires RecordedFor(m, passed, entered)
    requires var c, c' := m.cache, m'.cache;
             && |c.slots| <= |c'.slots| && (forall k: nat | k < |c.slots| :: c'.slots[k] == c.slots[k])
             && (forall k: nat | |c.slots| <= k < |c'.slots| :: c'.slots[k].link.None?)
             && c'.links == c.links && c'.brindTargets == c.brindTargets && c'.segmentEntries == c.segmentEntries
    requires m'.control.InLoop? && m'.control.slot.Some? ==> m'.control.slot.value !in passed
    ensures RecordedFor(m', passed, entered)
  {
    var c, c' := m.cache, m'.cache;
    forall ip ensures ip in c'.segmentEntries <==> exists k: nat :: Crosses(c', ip, k) {
      if ip in c.segmentEntries {
        var k: nat :| Crosses(c, ip, k);
        assert Crosses(c', ip, k);
      } else {
        forall k: nat ensures !Crosses(c', ip, k) {
          assert !Crosses(c, ip, k);
        }
      }
    }
  }

  lemma TurnRecords(m: Machine, code: nat, exits: seq<(Ip, bool)>, passed: set<nat>, entered: set<Ip>)
    requires Inv(m) && m.control.InLoop? && RecordedFor(m, passed, entered)
    ensures RecordedFor(TurnStep(m, code, exits), passed + PassedThrough(m, Turn(code, exits)), entered + EnteredIndirectly(m, Turn(code, exits)))
  {
    LookupIsMap(m.cache, m.ip);
    var (c1, found) := Found(m.cache, m.ip);
    var c2 := if found.Some? then c1 else Compiled(c1, m.ip, code, exits);
    var tb := if found.Some? then found.value else TBlock(m.ip, code);
    var between := m.(cache := c2);
    NothingRecorded(m, between, passed, entered);
    if m.control.slot.Some? {
      LinkRecords(between, TurnStep(m, code, exits), m.control.slot.value, tb, passed, entered);
    } else {
      BrindRecords(between, TurnStep(m, code, exits), tb.ip, passed, entered);
    }
  }

  lemma BrindRecords(m: Machine, m': Machine, ip: Ip, passed: set<nat>, entered: set<Ip>)
    requires RecordedFor(m, passed, entered) && m'.control.InCode?
    requires var c, c' := m.cache, m'.cache;
             c'.slots == c.slots && c'.links == c.links && c'.segmentEntries == c.segmentEntries && c'.brindTargets == c.brindTargets + {ip}
    ensures RecordedFor(m', passed, entered + {ip})
  {
    var c, c' := m.cache, m'.cache;
    forall ip ensures ip in c'.segmentEntries <==> exists k: nat :: Crosses(c', ip, k) {
      if ip in c.segmentEntries {
        var k: nat :| Crosses(c, ip, k);
        assert Crosses(c', ip, k);
      } else {
        forall k: nat ensures !Crosses(c', ip, k) {
          assert !Crosses(c, ip, k);
        }
      }
    }
  }

  lemma DirectRecords(m: Machine, j: nat, passed: set<nat>, entered: set<Ip>)
    requires Inv(m) && m.control.InCode? && j < |m.cache.slots| && RecordedFor(m, passed, entered)
    ensures RecordedFor(DirectStep(m, j), passed + PassedThrough(m, Direct(j)), entered)
  {
    var s := m.cache.slots[j];
    assert SlotOk(m.cache, j);
    LookupIsMap(m.cache, s.gip);
    if s.link.None? && s.gip in m.cache.blocks {
      LinkRecords(m, DirectStep(m, j), j, m.cache.blocks[s.gip], passed, entered);
    } else {
      assert passed + PassedThrough(m, Direct(j)) == passed;
      NothingRecorded(m, DirectStep(m, j), passed, entered);
    }
  }

  lemma IndirectRecords(m: Machine, t: Ip, passed: set<nat>, entered: set<Ip>)
    requires Inv(m) && m.control.InCode? && RecordedFor(m, passed, entered)
    ensures RecordedFor(IndirectStep(m, t), passed, entered + EnteredIndirectly(m, Indirect(t)))
  {
    LookupIsMap(m.cache, t);
    assert BrindOk(m.cache, L1Hash(t));
    if m.cache.brind[L1Hash(t)].gip == t || t !in m.cache.blocks {
      assert entered + EnteredIndirectly(m, Indirect(t)) == entered;
      NothingRecorded(m, IndirectStep(m, t), passed, entered);
    } else {
      BrindRecords(m, IndirectStep(m, t), t, passed, entered);
    }
  }

  lemma StepRecords(m: Machine, e: Event, passed: set<nat>, entered: set<Ip>)
    requires Inv(m) && Possible(m, e) && RecordedFor(m, passed, entered)
    ensures RecordedFor(Step(m, e), passed + PassedThrough(m, e), entered + EnteredIndirectly(m, e))
  {
    match e
    case Turn(code, exits) => TurnRecords(m, code, exits, passed, entered);
    case Direct(j) => DirectRecords(m, j, passed, entered);
    case Indirect(t) => IndirectRecords(m, t, passed, entered);
    case Trap(ip) => NothingRecorded(m, Step(m, e), passed, entered);
  }

  /** Over a run. */
  function AllPassed(m: Machine, es: seq<Event>): set<nat>
    requires Shaped(m)
    decreases |es|
  {
    if es == [] || !Possible(m, es[0]) then {} else PassedThrough(m, es[0]) + AllPassed(Step(m, es[0]), es[1..])
  }

  function AllEntered(m: Machine, es: seq<Event>): set<Ip>
    requires Shaped(m)
    decreases |es|
  {
    if es == [] || !Possible(m, es[0]) then {} else EnteredIndirectly(m, es[0]) + AllEntered(Step(m, es[0]), es[1..])
  }

  lemma {:induction false} RunRecordsFrom(m: Machine, es: seq<Event>, passed: set<nat>, entered: set<Ip>)
    requires Inv(m) && Shaped(m) && RecordedFor(m, passed, entered) && ChainRun(m, es).Some?
    ensures RecordedFor(ChainRun(m, es).value, passed + AllPassed(m, es), entered + AllEntered(m, es))
    decreases |es|
  {
    if es == [] {
      assert passed + AllPassed(m, es) == passed && entered + AllEntered(m, es) == entered;
    } else {
      StepKeeps(m, es[0]);
      StepRecords(m, es[0], passed, entered);
      RunRecordsFrom(Step(m, es[0]), es[1..], passed + PassedThrough(m, es[0]), entered + EnteredIndirectly(m, es[0]));
      assert passed + AllPassed(m, es) == passed + PassedThrough(m, es[0]) + AllPassed(Step(m, es[0]), es[1..]);
      assert entered + AllEntered(m, es) == entered + EnteredIndirectly(m, es[0]) + AllEntered(Step(m, es[0]), es[1..]);
    }
  }

  /** After any run from an empty cache, a slot is linked if and only if control has passed through it, its
      link is recorded once and for its own address, a block is a segment entry if and only if such a
      slot leaves the page, and it is a target of indirect branches if and only if control has entered it
      without a direct branch. */
  lemma RunRecords(ip: Ip, es: seq<Event>)
    requires var m := Machine(EmptyCache(), ip, InLoop(None), ip); Shaped(m) && ChainRun(m, es).Some?
    ensures var m := Machine(EmptyCache(), ip, InLoop(None), ip); RecordedFor(ChainRun(m, es).value, AllPassed(m, es), AllEntered(m, es))
  {
    var m := Machine(EmptyCache(), ip, InLoop(None), ip);
    InitAgrees(ip);
    assert RecordedFor(m, {}, {});
    RunRecordsFrom(m, es, {}, {});
    assert {} + AllPassed(m, es) == AllPassed(m, es) && {} + AllEntered(m, es) == AllEntered(m, es);
  }

  /** A branch is fast the next time: its slot jumps to the block, or the table for indirect branches
      has it, and so has the table for lookups. */
  lemma FastNextTime(m: Machine, e: Event)
    requires Inv(m) && Possible(m, e)
    ensures var m' := Step(m, e);
            && (e.Direct? && m'.control.InCode? ==> m'.cache.slots[e.j].link == Some(m'.control.code))
            && (e.Turn? && m.control.slot.Some? ==> m'.cache.slots[m.control.slot.value].link == Some(m'.control.code))
            && (e.Indirect? && m'.control.InCode? ==> m'.cache.brind[L1Hash(e.t)] == Brind(e.t, Some(m'.control.code)))
            && (e.Turn? && m.control.slot.None? ==> m'.cache.brind[L1Hash(m.ip)] == Brind(m.ip, Some(m'.control.code)))
            && (e.Turn? ==> m.ip in m'.cache.blocks && m'.cache.l1[L1Hash(m.ip)] == Some(m'.cache.blocks[m.ip]))
  {
    match e
    case Turn(code, exits) =>
      LookupIsMap(m.cache, m.ip);
      TurnKeeps(m, code, exits);
    case Direct(j) =>
      assert SlotOk(m.cache, j);
      LookupIsMap(m.cache, m.cache.slots[j].gip);
    case Indirect(t) =>
      LookupIsMap(m.cache, t);
      assert BrindOk(m.cache, L1Hash(t));
    case Trap(ip) =>
  }

  /** A jump to address 0 from the first block that is translated is a jump to a null pointer. */
  lemma NullJump(code: nat)
    ensures var m := Machine(EmptyCache(), 4, InLoop(None), 4);
            Inv(m) && Possible(m, Turn(code, [])) && Possible(Step(m, Turn(code, [])), Indirect(0)) &&
            Step(Step(m, Turn(code, [])), Indirect(0)).control == Crashed
  {
    var m := Machine(EmptyCache(), 4, InLoop(None), 4);
    InitAgrees(4);
    TurnKeeps(m, code, []);
    var m' := TurnStep(m, code, []);
    assert L1Hash(4) == 1 && L1Hash(0) == 0;
    assert m'.cache.brind[0] == Brind(0, None);
    IndirectKeeps(m', 0);
  }

  // ---------- The tables in place ----------

  class TCache {
    var blocks: map<Ip, TBlock>
    const l1: array<Option<TBlock>>
    const brind: array<Brind>
    var slots: seq<Slot>
    var links: multiset<(Ip, nat)>
    var brindTargets: set<Ip>
    var segmentEntries: set<Ip>

    ghost function State(): Cache
      reads this, l1, brind
    {
      Cache(blocks, l1[..], brind[..], slots, links, brindTargets, segmentEntries)
    }

    ghost predicate Valid()
      reads this, l1, brind
    {
      l1.Length == brind.Length == L1_SIZE && Agrees(State())
    }

    constructor ()
      ensures Valid() && State() == EmptyCache() && fresh(l1) && fresh(brind)
    {
      blocks, slots, links, brindTargets, segmentEntries := map[], [], multiset{}, {}, {};
      l1 := new Option<TBlock>[L1_SIZE](_ => None);
      brind := new Brind[L1_SIZE](_ => Brind(0, None));
      new;
      assert l1[..] == seq(L1_SIZE, _ => None) && brind[..] == seq(L1_SIZE, _ => Brind(0, None));
      InitAgrees(0);
    }

    method Lookup(ip: Ip) returns (tb: Option<TBlock>)
      requires Valid()
      modifies l1
      ensures Valid() && (State(), tb) == Found(old(State()), ip) && tb == if ip in blocks then Some(blocks[ip]) else None
    {
      ghost var c := State();
      LookupIsMap(c, ip);
      var h := L1Hash(ip);
      tb := l1[h];
      if tb.Some? && tb.value.ip == ip {
        return;
      }
      tb := if ip in blocks then Some(blocks[ip]) else None;
      if tb.Some? {
        l1[h] := tb;
        assert l1[..] == c.l1[h := tb];
      }
    }

    /** Insert; the map does not replace a block that it holds. */
    method Insert(tb: TBlock)
      requires Valid()
      modifies this`blocks, l1
      ensures State() == Inserted(old(State()), tb)
      ensures Valid() <==> tb.ip !in old(blocks) || old(blocks)[tb.ip] == tb
    {
      ghost var c := State();
      InsertAgrees(c, tb);
      if tb.ip !in blocks {
        blocks := blocks[tb.ip := tb];
      }
      l1[L1Hash(tb.ip)] := Some(tb);
      assert l1[..] == c.l1[L1Hash(tb.ip) := Some(tb)];
    }

    method CacheBrind(tb: TBlock)
      requires Valid() && tb.ip in blocks && blocks[tb.ip] == tb
      modifies this`brindTargets, brind
      ensures Valid() && State() == WithBrind(old(State()), tb)
    {
      ghost var c := State();
      CacheBrindAgrees(c, tb);
      brind[L1Hash(tb.ip)] := Brind(tb.ip, Some(tb.code));
      brindTargets := brindTargets + {tb.ip};
      assert brind[..] == c.brind[L1Hash(tb.ip) := Brind(tb.ip, Some(tb.code))];
    }

    /** BranchSlot::Link with tcache::RecordLink. */
    method Link(j: nat, tb: TBlock)
      requires Valid() && j < |slots| && tb.ip in blocks && blocks[tb.ip] == tb && slots[j].gip == tb.ip
      modifies this`slots, this`links, this`segmentEntries
      ensures Valid() && State() == WithLink(old(State()), j, tb)
    {
      LinkAgrees(State(), j, tb);
      if slots[j].cross {
        segmentEntries := segmentEntries + {tb.ip};
      }
      links := links + multiset{(tb.ip, j)};
      slots := slots[j := slots[j].(link := Some(tb.code))];
    }

    /** TryLinkBranch: the code to jump to, or None to go back to the loop with `state->ip` set. */
    method TryLinkBranch(ghost m: Machine, j: nat, ip: Ip) returns (target: Option<nat>, ip': Ip)
      requires Valid() && m.cache == State() && m.ip == ip && j < |slots| && slots[j].link.None?
      modifies this`slots, this`links, this`segmentEntries, l1
      ensures Valid()
      ensures DirectStep(m, j) == Machine(State(), ip', if target.Some? then InCode(target.value) else InLoop(Some(j)), old(slots[j].gip))
    {
      var gip := slots[j].gip;
      var found := Lookup(gip);
      if found.Some? {
        Link(j, found.value);
        target, ip' := Some(found.value.code), ip;
      } else {
        target, ip' := None, gip;
      }
    }

    /** The inlined lookup followed by qcgstub_brind. */
    method BranchIndirect(ghost m: Machine, t: Ip, ip: Ip) returns (next: Control, ip': Ip)
      requires Valid() && m.cache == State() && m.ip == ip
      modifies this`brindTargets, l1, brind
      ensures Valid() && IndirectStep(m, t) == Machine(State(), ip', next, t)
    {
      InlinedOffsetIsHash(t);
      var e := brind[InlinedOffset(t) / 16];
      if e.gip == t {
        next, ip' := if e.code.Some? then InCode(e.code.value) else Crashed, ip;
        return;
      }
      var found := Lookup(t);
      ip' := t;
      if found.Some? {
        CacheBrind(found.value);
        next := InCode(found.value.code);
      } else {
        next := InLoop(None);
      }
    }

    /** One turn of the loop of Execute; `code` and `exits` are what the compiler produces if it is needed. */
    method TurnLoop(ghost m: Machine, slot: Option<nat>, ip: Ip, code: nat, exits: seq<(Ip, bool)>) returns (target: nat)
      requires Valid() && m.cache == State() && m.ip == ip && m.control == InLoop(slot)
      requires slot.Some? ==> slot.value < |slots| && slots[slot.value].gip == ip
      modifies this, l1, brind
      ensures Valid() && TurnStep(m, code, exits) == Machine(State(), ip, InCode(target), m.at)
      ensures ip in blocks && blocks[ip].code == target
    {
      var found := Lookup(ip);
      var tb := TBlock(ip, code);
      if found.Some? {
        tb := found.value;
      } else {
        SlotsAgree(State(), exits);
        slots := slots + NewSlots(exits);
        Insert(tb);
      }
      if slot.Some? {
        Link(slot.value, tb);
      } else {
        CacheBrind(tb);
      }
      target := tb.code;
    }
  }
}
