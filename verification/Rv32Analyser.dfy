/** RV32Analyser of `dbt/guest/rv32_analyser.cpp`: the scan that ahead-of-time compilation uses to find block
    extents and edges, and its agreement with the translator's scan of the same code. */
module Rv32Analysers {
  import opened Common
  import opened Qir
  import opened Rv32
  import opened Rv32Emission
  import opened Rv32Blocks
  import opened Rv32Translators
  import opened Rv32Machine
  import Rv32Decode
  import Chaining
  import P = ProfileClosure

  /** What the analyser records about a block: RecordGBr, RecordGBrind and RecordLink. */
  datatype Edge = Branches(t: Word) | BranchesIndirect | Links(t: Word)

  /** Edges for the instruction at `a`. */
  function InsnEdges(em: Emitter, a: Word): seq<Edge> {
    var i := em.insn(a);
    match i
    case Jal(rd, imm) => [Branches(em.plus(a, imm))] + (if rd != 0 then [Links(em.next(a))] else [])
    case Jalr(rd, _, _) => [BranchesIndirect] + (if rd != 0 then [Links(em.next(a))] else [])
    case Bcc(_, _, _, imm) => [Branches(em.next(a)), Branches(em.plus(a, imm))]
    case _ => []
  }

  /** Edges of a block of `n` instructions. */
  function BlockEdges(em: Emitter, ip: Word, n: nat): seq<Edge>
    requires n > 0
  {
    var a := AddrOf(em, ip, n - 1);
    InsnEdges(em, a) + (if EndsBlock(em.insn(a)) then [] else [Branches(AddrOf(em, ip, n))])
  }

  /** `n` instructions have been scanned, and none of them ends the block or records an edge. */
  ghost predicate Scanning(em: Emitter, ip: Word, boundary: Word, n: nat, a: Word) {
    a == AddrOf(em, ip, n) && n < TB_MAX_INSNS && Scan(em, ip, boundary, 0) == Scan(em, a, boundary, n)
  }

  lemma NextScanned(em: Emitter, ip: Word, boundary: Word, n: nat, a: Word)
    requires Scanning(em, ip, boundary, n, a)
    ensures AddrOf(em, ip, n + 1) == em.next(a)
    ensures if EndsBlock(em.insn(a)) || n + 1 == TB_MAX_INSNS || em.reached(em.next(a), boundary) then Scan(em, ip, boundary, 0) == n + 1
            else Scanning(em, ip, boundary, n + 1, em.next(a))
  {
    RunExtends(em, ip, n, 0);
  }

  /** Analyse.  An illegal instruction is a panic, for which the result is false. */
  method Analyse(em: Emitter, ip: Word, boundary: Word) returns (ipEnd: Word, edges: seq<Edge>, ok: bool)
    ensures var n := Scan(em, ip, boundary, 0);
            && (ok <==> !em.insn(AddrOf(em, ip, n - 1)).Ill?)
            && (ok ==> ipEnd == AddrOf(em, ip, n) && edges == BlockEdges(em, ip, n))
  {
    var a, n := ip, 0;
    edges, ok, ipEnd := [], true, ip;
    while true
      invariant Scanning(em, ip, boundary, n, a) && edges == []
      decreases TB_MAX_INSNS - n
    {
      NextScanned(em, ip, boundary, n, a);
      edges := InsnEdges(em, a);
      n, ipEnd := n + 1, em.next(a);
      if EndsBlock(em.insn(a)) {
        ok := !em.insn(a).Ill?;
        return;
      }
      if n == TB_MAX_INSNS || em.reached(ipEnd, boundary) {
        edges := edges + [Branches(ipEnd)];
        return;
      }
      a := ipEnd;
    }
  }

  // ---------- Agreement with the translator ----------

  /** The guest addresses that a translated block can branch to directly. */
  ghost function DirectExits(ips: seq<Word>, block: Block): set<Word> {
    (set k | 0 <= k < |block.succs| && block.succs[k] < |ips| :: ips[block.succs[k]]) +
    (if block.code != [] && block.code[|block.code| - 1].op.GBr? then {block.code[|block.code| - 1].op.tpc} else {})
  }

  ghost function BranchTargets(edges: seq<Edge>): set<Word> {
    set e | e in edges && e.Branches? :: e.t
  }

  lemma LeavesTo(ips: seq<Word>, block: Block, body: seq<Inst>, t: Word)
    requires Leaves(ips, block, body, t)
    ensures DirectExits(ips, block) == {t}
  {
    var exits := set k | 0 <= k < |block.succs| && block.succs[k] < |ips| :: ips[block.succs[k]];
    if |block.succs| == 1 && block.succs[0] < |ips| {
      assert ips[block.succs[0]] in exits;
    }
  }

  /** The last instruction of straight-line code is no branch. */
  lemma NoExit(em: Emitter, ips: seq<Word>, block: Block, body: seq<Inst>, a: Word, tmp: nat)
    requires EndsBlock(em.insn(a)) && Ends(em, ips, block, body, em.insn(a), a, tmp)
    requires !em.insn(a).Jal? && StaysInside(body)
    ensures DirectExits(ips, block) == if em.insn(a).Bcc? then {em.plus(a, em.insn(a).imm), em.next(a)} else {}
  {
    if em.insn(a).Bcc? {
      assert block.succs[0] < |ips| && block.succs[1] < |ips|;
      var exits := set k | 0 <= k < |block.succs| && block.succs[k] < |ips| :: ips[block.succs[k]];
      assert ips[block.succs[0]] in exits && ips[block.succs[1]] in exits;
      assert exits == {em.plus(a, em.insn(a).imm), em.next(a)};
    }
  }

  /** A list that does not end in a branch out of the region. */
  predicate StaysInside(c: seq<Inst>) {
    c != [] ==> !c[|c| - 1].op.GBr?
  }

  ghost predicate EmitsInside(em: Emitter) {
    forall ip, tmp: nat {:trigger em.emit(ip, tmp)} :: StaysInside(em.emit(ip, tmp))
  }

  lemma StraightInside(ar: Arith, i: Insn, raw: Word, ip: Word, tmp: nat)
    ensures StaysInside(Straight(ar, i, raw, ip, tmp))
  {
  }

  lemma EmitterInside(ar: Arith, code: Code)
    ensures EmitsInside(EmitterOf(ar, code))
  {
    var em := EmitterOf(ar, code);
    forall ip, tmp: nat ensures StaysInside(em.emit(ip, tmp)) {
      StraightInside(ar, code.At(ip), code.fetch(ip), ip, tmp);
    }
  }

  lemma JoinInside(a: seq<Inst>, b: seq<Inst>)
    requires StaysInside(a) && StaysInside(b)
    ensures StaysInside(a + b)
  {
    if b == [] {
      assert a + b == a;
    }
  }

  lemma {:induction false} CodeInside(em: Emitter, ip: Word, n: nat, tmp: nat)
    requires EmitsInside(em)
    ensures StaysInside(StraightCode(em, ip, n, tmp))
    decreases n
  {
    if n > 0 {
      assert StaysInside(em.emit(ip, tmp));
      CodeInside(em, em.next(ip), n - 1, tmp + em.temps(ip));
      JoinInside(em.emit(ip, tmp), StraightCode(em, em.next(ip), n - 1, tmp + em.temps(ip)));
    }
  }

  lemma EndEdges(em: Emitter, ips: seq<Word>, block: Block, body: seq<Inst>, a: Word, tmp: nat, edges: seq<Edge>)
    requires EndsBlock(em.insn(a)) && Ends(em, ips, block, body, em.insn(a), a, tmp) && StaysInside(body)
    requires edges == InsnEdges(em, a)
    ensures DirectExits(ips, block) == BranchTargets(edges)
  {
    var i := em.insn(a);
    if i.Jal? {
      LeavesTo(ips, block, body, em.plus(a, i.imm));
      assert edges[0] == Branches(em.plus(a, i.imm)) && edges[0] in edges;
    } else {
      NoExit(em, ips, block, body, a, tmp);
      if i.Bcc? {
        assert edges == [Branches(em.next(a)), Branches(em.plus(a, i.imm))];
        assert edges[0] in edges && edges[1] in edges;
      }
    }
  }

  lemma CutEdges(em: Emitter, ips: seq<Word>, block: Block, ip: Word, n: nat, tmp: nat)
    requires n > 0 && PlainRun(em, ip, n) && Leaves(ips, block, StraightCode(em, ip, n, tmp), AddrOf(em, ip, n))
    ensures DirectExits(ips, block) == BranchTargets(BlockEdges(em, ip, n))
  {
    LeavesTo(ips, block, StraightCode(em, ip, n, tmp), AddrOf(em, ip, n));
    PlainAt(em, ip, n, n - 1);
    var edges := BlockEdges(em, ip, n);
    assert edges == [Branches(AddrOf(em, ip, n))] && edges[0] in edges;
  }

  /** The direct exits of a translated block are exactly the branch edges that the analyser records. */
  lemma ExitsAreEdges(em: Emitter, ips: seq<Word>, block: Block, ip: Word, p: Plan)
    requires EmitsInside(em) && BlockFor(em, ips, block, ip, p) && p.Run?
    ensures Length(p) > 0 && DirectExits(ips, block) == BranchTargets(BlockEdges(em, ip, Length(p)))
  {
    if p.cut {
      CutEdges(em, ips, block, ip, p.n, p.tmp);
    } else {
      var a, body, tmp := AddrOf(em, ip, p.n), StraightCode(em, ip, p.n, p.tmp), p.tmp + TempsUsed(em, ip, p.n);
      CodeInside(em, ip, p.n, p.tmp);
      JoinInside(body, em.emit(a, tmp));
      EndEdges(em, ips, block, body + em.emit(a, tmp), a, tmp, BlockEdges(em, ip, p.n + 1));
    }
  }

  /** The same for 32-bit arithmetic and the decoder. */
  lemma MachineExitsAreEdges(fetch: Word -> Word, ips: seq<Word>, block: Block, ip: Word, p: Plan)
    requires BlockFor(EmitterOf(Machine(), Rv32Decode.GuestCode(fetch)), ips, block, ip, p) && p.Run?
    ensures Length(p) > 0
    ensures DirectExits(ips, block) == BranchTargets(BlockEdges(EmitterOf(Machine(), Rv32Decode.GuestCode(fetch)), ip, Length(p)))
  {
    EmitterInside(Machine(), Rv32Decode.GuestCode(fetch));
    ExitsAreEdges(EmitterOf(Machine(), Rv32Decode.GuestCode(fetch)), ips, block, ip, p);
  }

  // ---------- Addresses as numbers ----------

  /** Instructions lie four bytes apart, modulo 2^32, and addresses are compared as numbers. */
  ghost predicate Linear(em: Emitter, n: Numbering) {
    && Bijective(n) && (forall w {:trigger NextIs(em, n, w)} :: NextIs(em, n, w))
    && (forall a, b {:trigger ReachedIs(em, n, a, b)} :: ReachedIs(em, n, a, b))
  }

  ghost predicate NextIs(em: Emitter, n: Numbering, w: Word) {
    n.num(em.next(w)) == (n.num(w) + 4) % VALUES
  }

  ghost predicate ReachedIs(em: Emitter, n: Numbering, a: Word, b: Word) {
    em.reached(a, b) <==> n.num(a) >= n.num(b)
  }

  lemma FourIs()
    ensures AddressOf(FOUR) == 4
  {
    assert FOUR.b0 as nat == 4 && FOUR.b1 as nat == 0;
  }

  lemma EmitterSteps(n: Numbering, code: Code, a: Word, b: Word)
    requires Bijective(n) && n.num(FOUR) == 4
    ensures var em := EmitterOf(MachineOn(n), code);
            n.num(em.next(a)) == (n.num(a) + 4) % VALUES && (em.reached(a, b) <==> n.num(a) >= n.num(b))
  {
    AddressesOn(n, a, FOUR);
    AddressesOn(n, a, b);
  }

  lemma EmitterIsLinear(n: Numbering, code: Code)
    requires Bijective(n) && n.num(FOUR) == 4
    ensures Linear(EmitterOf(MachineOn(n), code), n)
  {
    var em := EmitterOf(MachineOn(n), code);
    forall w ensures NextIs(em, n, w) {
      EmitterSteps(n, code, w, w);
    }
    forall a, b ensures ReachedIs(em, n, a, b) {
      EmitterSteps(n, code, a, b);
    }
  }

  lemma MachineIsLinear(code: Code)
    ensures Linear(EmitterOf(Machine(), code), Numbers())
  {
    FourIs();
    NumbersRoundTrip(FOUR);
    NumbersAreBijective();
    EmitterIsLinear(Numbers(), code);
  }

  lemma {:induction false} AddrNumber(em: Emitter, n: Numbering, ip: Word, k: nat)
    requires Linear(em, n)
    ensures n.num(AddrOf(em, ip, k)) == (n.num(ip) + 4 * k) % VALUES
    decreases k
  {
    if k == 0 {
      Small(n.num(ip));
    } else {
      AddrNumber(em, n, em.next(ip), k - 1);
      assert NextIs(em, n, ip);
      SameRemainder(n.num(ip) + 4, 4 * (k - 1));
    }
  }

  lemma SameRemainder(x: nat, y: nat)
    ensures (x % VALUES + y) % VALUES == (x + y) % VALUES
  {
    var q := x / VALUES;
    assert x + y == (x % VALUES + y) + VALUES * q;
  }

  lemma NextWord(em: Emitter, n: Numbering, x: nat)
    requires Linear(em, n) && x + 4 < VALUES
    ensures em.next(n.word(x)) == n.word(x + 4)
  {
    assert NextIs(em, n, n.word(x));
    Small(x + 4);
    assert n.num(em.next(n.word(x))) == x + 4;
  }

  lemma WordOf(em: Emitter, n: Numbering, x: nat, k: nat)
    requires Linear(em, n) && x + 4 * k < VALUES
    ensures AddrOf(em, n.word(x), k) == n.word(x + 4 * k)
  {
    AddrNumber(em, n, n.word(x), k);
    Small(x + 4 * k);
  }

  // ---------- Rescanning ----------

  /** The extent of `k` instructions from number `x` on passes the end of the address space after its
      first instruction. */
  predicate Wraps(x: nat, k: nat) {
    x + 4 < VALUES <= x + 4 * k
  }

  /** No address between the first and the last is past the last. */
  ghost predicate Ascends(em: Emitter, ip: Word, k: nat) {
    forall j: nat {:trigger AddrOf(em, ip, j)} | 0 < j < k :: !em.reached(AddrOf(em, ip, j), AddrOf(em, ip, k))
  }

  lemma {:induction false} RescanFrom(em: Emitter, ip: Word, boundary: Word, k: nat, j: nat)
    requires j < k && k == Scan(em, AddrOf(em, ip, j), boundary, j) && Ascends(em, ip, k) && em.reached(AddrOf(em, ip, k), AddrOf(em, ip, k))
    ensures Scan(em, AddrOf(em, ip, j), AddrOf(em, ip, k), j) == k
    decreases k - j
  {
    RunExtends(em, ip, j, 0);
    var a := AddrOf(em, ip, j);
    if !(EndsBlock(em.insn(a)) || j + 1 >= TB_MAX_INSNS || em.reached(em.next(a), boundary)) {
      RescanFrom(em, ip, boundary, k, j + 1);
    }
  }

  lemma Wrapped(x: nat, j: nat, k: nat)
    requires x < VALUES && 0 < j < k <= TB_MAX_INSNS && !Wraps(x, k)
    ensures (x + 4 * j) % VALUES < (x + 4 * k) % VALUES
  {
    if x + 4 * k < VALUES {
      Small(x + 4 * j);
      Small(x + 4 * k);
    } else {
      assert x + 4 * j == (x + 4 * j - VALUES) + VALUES && x + 4 * k == (x + 4 * k - VALUES) + VALUES;
    }
  }

  lemma ExtentAscends(em: Emitter, n: Numbering, ip: Word, k: nat)
    requires Linear(em, n) && k <= TB_MAX_INSNS && !Wraps(n.num(ip), k)
    ensures Ascends(em, ip, k)
  {
    forall j: nat | 0 < j < k ensures !em.reached(AddrOf(em, ip, j), AddrOf(em, ip, k)) {
      AddrNumber(em, n, ip, j);
      AddrNumber(em, n, ip, k);
      Wrapped(n.num(ip), j, k);
      assert ReachedIs(em, n, AddrOf(em, ip, j), AddrOf(em, ip, k));
    }
  }

  lemma WrappedStops(em: Emitter, n: Numbering, ip: Word, k: nat)
    requires Linear(em, n) && k <= TB_MAX_INSNS && Wraps(n.num(ip), k)
    ensures Scan(em, ip, AddrOf(em, ip, k), 0) == 1
  {
    var x := n.num(ip);
    AddrNumber(em, n, ip, k);
    Small(x + 4);
    assert x + 4 * k == (x + 4 * k - VALUES) + VALUES;
    assert NextIs(em, n, ip) && ReachedIs(em, n, em.next(ip), AddrOf(em, ip, k));
  }

  /** Scanning the extent that a scan has found covers the same instructions, unless it wraps around
      the end of the address space; then it covers one. */
  lemma Rescan(em: Emitter, n: Numbering, ip: Word, boundary: Word)
    requires Linear(em, n)
    ensures var k := Scan(em, ip, boundary, 0);
            Scan(em, ip, AddrOf(em, ip, k), 0) == if Wraps(n.num(ip), k) then 1 else k
  {
    var k := Scan(em, ip, boundary, 0);
    if Wraps(n.num(ip), k) {
      WrappedStops(em, n, ip, k);
    } else {
      ExtentAscends(em, n, ip, k);
      assert ReachedIs(em, n, AddrOf(em, ip, k), AddrOf(em, ip, k));
      RescanFrom(em, ip, boundary, k, 0);
    }
  }

  /** Extents between aligned addresses do not wrap. */
  lemma {:induction false} AlignedStops(em: Emitter, n: Numbering, x: nat, boundary: Word, j: nat)
    requires Linear(em, n) && j < TB_MAX_INSNS && x % 4 == 0 && n.num(boundary) % 4 == 0 && x + 4 < VALUES
    ensures x + 4 * (Scan(em, n.word(x), boundary, j) - j) < VALUES
    decreases TB_MAX_INSNS - j
  {
    var a := n.word(x);
    NextWord(em, n, x);
    assert ReachedIs(em, n, n.word(x + 4), boundary);
    if !(EndsBlock(em.insn(a)) || j + 1 >= TB_MAX_INSNS || em.reached(em.next(a), boundary)) {
      assert x + 4 < n.num(boundary);
      AlignedStops(em, n, x + 4, boundary, j + 1);
    }
  }

  /** The analyser scans from one block of a page to the next one or to the page's end; for such aligned
      addresses the translator, given the extent, covers the same instructions. */
  lemma AlignedRescan(em: Emitter, n: Numbering, ip: Word, boundary: Word)
    requires Linear(em, n) && !Misaligned(ip) && !Misaligned(boundary)
    ensures var k := Scan(em, ip, boundary, 0); !Wraps(n.num(ip), k) && Scan(em, ip, AddrOf(em, ip, k), 0) == k
  {
    Rescan(em, n, ip, boundary);
    var x := n.num(ip);
    if x + 4 < VALUES {
      AlignedStops(em, n, x, boundary, 0);
    }
  }

  lemma ScanGoesOn(em: Emitter, n: Numbering, a: Word, boundary: Word, j: nat)
    requires Linear(em, n) && j + 1 < TB_MAX_INSNS && !EndsBlock(em.insn(a)) && (n.num(a) + 4) % VALUES < n.num(boundary)
    ensures n.num(em.next(a)) == (n.num(a) + 4) % VALUES && Scan(em, a, boundary, j) == Scan(em, em.next(a), boundary, j + 1)
  {
    assert NextIs(em, n, a) && ReachedIs(em, n, em.next(a), boundary);
  }

  /** For a misaligned boundary it may not: straight-line code at the end of the address space. */
  lemma WrapsAround(em: Emitter, n: Numbering, ip: Word, boundary: Word, k: nat)
    requires Linear(em, n) && n.num(ip) == VALUES - 8 && n.num(boundary) == VALUES - 1 && k == Scan(em, ip, boundary, 0)
    requires !EndsBlock(em.insn(ip)) && !EndsBlock(em.insn(em.next(ip)))
    ensures k > 2 && Scan(em, ip, AddrOf(em, ip, k), 0) == 1
  {
    ScanGoesOn(em, n, ip, boundary, 0);
    ScanGoesOn(em, n, em.next(ip), boundary, 1);
    Rescan(em, n, ip, boundary);
  }

  const NOP := Word(0x13, 0, 0, 0)

  lemma NopIsPlain()
    ensures !EndsBlock(Rv32Decode.Decode(Rv32Decode.FromWord(NOP)))
  {
    assert Rv32Decode.FromWord(NOP) == 0x13;
  }

  lemma WrapExample()
    ensures var em := EmitterOf(Machine(), Rv32Decode.GuestCode(_ => NOP));
            var ip, boundary := WordAt(VALUES - 8), WordAt(VALUES - 1);
            Scan(em, ip, boundary, 0) > 2 && Scan(em, ip, AddrOf(em, ip, Scan(em, ip, boundary, 0)), 0) == 1
  {
    var code := Rv32Decode.GuestCode(_ => NOP);
    NopIsPlain();
    MachineIsLinear(code);
    AddressAtWord(VALUES - 8);
    AddressAtWord(VALUES - 1);
    NumbersRoundTrip(WordAt(VALUES - 8));
    NumbersRoundTrip(WordAt(VALUES - 1));
    var em := EmitterOf(Machine(), code);
    WrapsAround(em, Numbers(), WordAt(VALUES - 8), WordAt(VALUES - 1), Scan(em, WordAt(VALUES - 8), WordAt(VALUES - 1), 0));
  }

  // ---------- The program that is profiled ----------

  function TargetsOf(n: Numbering, edges: seq<Edge>): seq<Chaining.Ip> {
    if edges == [] then [] else
      (if edges[0].Branches? then [n.num(edges[0].t) % VALUES] else []) + TargetsOf(n, edges[1..])
  }

  /** Guest code as profile closure sees it. */
  function ProgramOf(em: Emitter, n: Numbering): P.Program {
    P.Program((a: nat) => EndsBlock(em.insn(n.word(a % VALUES))), (a: nat) => TargetsOf(n, InsnEdges(em, n.word(a % VALUES))))
  }

  lemma {:induction false} TargetsAre(n: Numbering, edges: seq<Edge>, t: Chaining.Ip)
    requires Bijective(n)
    ensures t in TargetsOf(n, edges) <==> Branches(n.word(t)) in edges
  {
    if edges != [] {
      TargetsAre(n, edges[1..], t);
      assert edges == [edges[0]] + edges[1..];
      if edges[0].Branches? {
        Small(n.num(edges[0].t));
      }
    }
  }

  /** One instruction, seen by both. */
  lemma StepAgrees(em: Emitter, n: Numbering, a: nat, b: nat)
    requires Linear(em, n) && a + 4 < VALUES && b < VALUES
    ensures ProgramOf(em, n).ends(a) <==> EndsBlock(em.insn(n.word(a)))
    ensures em.next(n.word(a)) == n.word(a + 4) && (em.reached(n.word(a + 4), n.word(b)) <==> a + 4 >= b)
  {
    Small(a);
    NextWord(em, n, a);
    assert ReachedIs(em, n, n.word(a + 4), n.word(b));
  }

  /** The scan behind profile closure is the scan of the translator and the analyser. */
  lemma {:induction false} ScansAgree(em: Emitter, n: Numbering, a: nat, b: nat, j: nat)
    requires Linear(em, n) && j < TB_MAX_INSNS && a + 4 < VALUES && b + 4 <= VALUES
    ensures Scan(em, n.word(a), n.word(b), j) == P.Scan(ProgramOf(em, n), a, b, j)
    decreases TB_MAX_INSNS - j
  {
    StepAgrees(em, n, a, b);
    if a + 4 < b && j + 1 < TB_MAX_INSNS {
      ScansAgree(em, n, a + 4, b, j + 1);
    }
  }

  lemma LastInsn(em: Emitter, n: Numbering, a: nat, t: Chaining.Ip)
    requires Bijective(n) && a < VALUES
    ensures var p := ProgramOf(em, n);
            (p.ends(a) <==> EndsBlock(em.insn(n.word(a)))) && (t in p.targets(a) <==> Branches(n.word(t)) in InsnEdges(em, n.word(a)))
  {
    Small(a);
    TargetsAre(n, InsnEdges(em, n.word(a)), t);
  }

  /** The exits behind profile closure are the branches that the analyser records. */
  lemma EdgesAreExits(em: Emitter, n: Numbering, x: nat, k: nat, t: Chaining.Ip)
    requires Linear(em, n) && k > 0 && x + 4 * k < VALUES
    ensures P.Exits(ProgramOf(em, n), x, k, t) <==> Branches(n.word(t)) in BlockEdges(em, n.word(x), k)
  {
    var p, last := ProgramOf(em, n), x + 4 * (k - 1);
    WordOf(em, n, x, k - 1);
    WordOf(em, n, x, k);
    LastInsn(em, n, last, t);
    ExitsFrom(p, em, n, x, k, t, last, n.word(last), n.word(x + 4 * k));
  }

  lemma ExitsFrom(p: P.Program, em: Emitter, n: Numbering, x: nat, k: nat, t: Chaining.Ip, last: nat, a: Word, end: Word)
    requires Bijective(n) && k > 0 && last == x + 4 * (k - 1) && x + 4 * k < VALUES && end == n.word(x + 4 * k)
    requires a == AddrOf(em, n.word(x), k - 1) && end == AddrOf(em, n.word(x), k)
    requires p.ends(last) <==> EndsBlock(em.insn(a))
    requires t in p.targets(last) <==> Branches(n.word(t)) in InsnEdges(em, a)
    ensures P.Exits(p, x, k, t) <==> Branches(n.word(t)) in BlockEdges(em, n.word(x), k)
  {
    if p.ends(last) {
      assert BlockEdges(em, n.word(x), k) == InsnEdges(em, a);
    } else {
      assert BlockEdges(em, n.word(x), k) == [Branches(end)];
      assert n.num(n.word(t)) == t && n.num(end) == x + 4 * k;
    }
  }

  /** What a block branches to directly when it has been translated up to `b`, in numbers. */
  lemma TranslatedExits(em: Emitter, n: Numbering, ips: seq<Word>, block: Block, p: Plan, x: nat, b: nat, t: Chaining.Ip)
    requires Linear(em, n) && EmitsInside(em) && x % 4 == 0 && b % 4 == 0 && x + 4 < VALUES && b + 4 <= VALUES
    requires BlockFor(em, ips, block, n.word(x), p) && StopsExactly(em, n.word(x), n.word(b), p)
    ensures n.word(t) in DirectExits(ips, block) <==> P.Exits(ProgramOf(em, n), x, P.Scan(ProgramOf(em, n), x, b, 0), t)
  {
    var k := Length(p);
    CoversScan(em, ips, block, n.word(x), n.word(b), p, 0);
    ScansAgree(em, n, x, b, 0);
    AlignedStops(em, n, x, n.word(b), 0);
    ExitsAreEdges(em, ips, block, n.word(x), p);
    EdgesAreExits(em, n, x, k, t);
  }
}
