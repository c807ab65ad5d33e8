/** Profile closure: blocks that Execute has translated (`dbt/execute.cpp`) and recorded are reachable from the
    root of the graph that BuildModuleGraph (`dbt/aot/aot.cpp`) makes of them, although later blocks
    may have split the code of earlier ones. */
module ProfileClosure {
  import opened Common
  import opened Chaining

  const PAGE_SIZE: nat := 4096

  /** Guest code: which instructions end a block, and where those branch to directly. */
  datatype Program = Program(ends: nat -> bool, targets: nat -> seq<Ip>)

  function PageEnd(x: nat): nat {
    (x / PAGE_SIZE + 1) * PAGE_SIZE
  }

  predicate SamePage(x: nat, y: nat) {
    x / PAGE_SIZE == y / PAGE_SIZE
  }

  // ---------- Scans ----------

  /** The scan of the translator and the analyser, on numbers: the instructions from `a` up to the one that
      ends the block, the limit or the boundary, when `n` came before. */
  function Scan(p: Program, a: nat, b: nat, n: nat): (k: nat)
    ensures k > n && (n < TB_MAX_INSNS ==> k <= TB_MAX_INSNS)
    decreases TB_MAX_INSNS - n
  {
    if p.ends(a) || n + 1 >= TB_MAX_INSNS || a + 4 >= b then n + 1 else Scan(p, a + 4, b, n + 1)
  }

  /** Instruction `i` after `x` does not end a block. */
  predicate GoesOn(p: Program, x: nat, i: nat) {
    !p.ends(x + 4 * i)
  }

  /** A block at `x` of `n` instructions: none but the last ends it. */
  ghost predicate IsBlock(p: Program, x: nat, n: nat) {
    0 < n <= TB_MAX_INSNS && forall i: nat {:trigger GoesOn(p, x, i)} | i + 1 < n :: GoesOn(p, x, i)
  }

  /** The addresses that it branches to directly. */
  ghost predicate Exits(p: Program, x: nat, n: nat, t: nat)
    requires n > 0
  {
    var last := x + 4 * (n - 1);
    if p.ends(last) then exists k :: 0 <= k < |p.targets(last)| && p.targets(last)[k] == t else t == x + 4 * n
  }

  /** A scan from the middle of a block stops at the next boundary inside it. */
  lemma {:induction false} ScanToBoundary(p: Program, x: nat, n: nat, j: nat, k: nat, i: nat)
    requires IsBlock(p, x, n) && j < k < n && j <= i < k
    ensures Scan(p, x + 4 * i, x + 4 * k, i - j) == k - j
    decreases k - i
  {
    assert GoesOn(p, x, i);
    if i + 1 < k {
      ScanToBoundary(p, x, n, j, k, i + 1);
    }
  }

  /** Without a boundary inside, it covers the rest of the block, if that ends by itself or at the boundary. */
  lemma {:induction false} ScanToEnd(p: Program, x: nat, n: nat, j: nat, b: nat, i: nat)
    requires IsBlock(p, x, n) && j <= i < n && x + 4 * n <= b && (p.ends(x + 4 * (n - 1)) || b == x + 4 * n)
    ensures Scan(p, x + 4 * i, b, i - j) == n - j
    decreases n - i
  {
    if i + 1 < n {
      assert GoesOn(p, x, i);
      ScanToEnd(p, x, n, j, b, i + 1);
    }
  }

  lemma {:induction false} ScanIsBlock(p: Program, x: nat, b: nat, j: nat)
    requires j < TB_MAX_INSNS && forall i: nat {:trigger GoesOn(p, x, i)} | i < j :: GoesOn(p, x, i)
    ensures var n := Scan(p, x + 4 * j, b, j); IsBlock(p, x, n) && (n > j + 1 ==> x + 4 * (n - 1) < b)
    decreases TB_MAX_INSNS - j
  {
    var a := x + 4 * j;
    assert GoesOn(p, x, j) <==> !p.ends(a);
    if !(p.ends(a) || j + 1 >= TB_MAX_INSNS || a + 4 >= b) {
      ScanIsBlock(p, x, b, j + 1);
    }
  }

  // ---------- The graph ----------

  /** Where the analysis of the block at `x` stops: at the next recorded block or at the end of the page. */
  ghost predicate IsBoundary(blocks: set<nat>, x: nat, b: nat) {
    && x < b <= PageEnd(x) && (b in blocks || b == PageEnd(x))
    && forall y | y in blocks && x < y < PageEnd(x) :: b <= y
  }

  lemma {:induction false} BoundaryExists(blocks: set<nat>, x: nat) returns (b: nat)
    ensures IsBoundary(blocks, x, b)
    decreases |blocks|
  {
    if blocks == {} {
      b := PageEnd(x);
    } else {
      var y :| y in blocks;
      var rest := blocks - {y};
      b := BoundaryExists(rest, x);
      assert forall z | z in blocks :: z == y || z in rest;
      if x < y < b {
        b := y;
      }
    }
  }

  /** An edge of the graph of a page. */
  ghost predicate Edge(p: Program, blocks: set<nat>, x: nat, y: nat) {
    x in blocks && y in blocks && SamePage(x, y) && exists b: nat :: IsBoundary(blocks, x, b) && Exits(p, x, Scan(p, x, b, 0), y)
  }

  /** A set of blocks that is closed under the edges. */
  ghost predicate Closed(p: Program, blocks: set<nat>, reached: set<nat>) {
    forall x, y {:trigger Edge(p, blocks, x, y)} | x in reached && Edge(p, blocks, x, y) :: y in reached
  }

  lemma Distance(x: nat, b: nat) returns (k: nat)
    requires x % 4 == 0 && b % 4 == 0 && x <= b
    ensures b == x + 4 * k
  {
    k := (b - x) / 4;
  }

  lemma MakeEdge(p: Program, blocks: set<nat>, y: nat, b: nat, m: nat, t: nat)
    requires y in blocks && t in blocks && SamePage(y, t) && IsBoundary(blocks, y, b) && m > 0 && Scan(p, y, b, 0) == m && Exits(p, y, m, t)
    ensures Edge(p, blocks, y, t)
  {
  }

  /** The rest of a block has the same last instruction. */
  lemma RestExits(p: Program, x: nat, n: nat, j: nat, y: nat, t: nat)
    requires j < n && y == x + 4 * j
    ensures Exits(p, y, n - j, t) <==> Exits(p, x, n, t)
  {
    assert y + 4 * (n - j) == x + 4 * n && y + 4 * (n - j - 1) == x + 4 * (n - 1);
  }

  /** A recorded block inside another one is the next one after the last before it. */
  lemma InnerEdge(p: Program, blocks: set<nat>, x: nat, n: nat, j: nat, k: nat)
    requires IsBlock(p, x, n) && j < k < n && x + 4 * j in blocks && x + 4 * k in blocks
    requires IsBoundary(blocks, x + 4 * j, x + 4 * k) && SamePage(x + 4 * j, x + 4 * k)
    ensures Edge(p, blocks, x + 4 * j, x + 4 * k)
  {
    var y, b := x + 4 * j, x + 4 * k;
    ScanToBoundary(p, x, n, j, k, j);
    assert GoesOn(p, x, k - 1);
    RestExits(p, x, k, j, y, b);
    MakeEdge(p, blocks, y, b, k - j, b);
  }

  /** The last piece branches where the whole block branches. */
  lemma LastEdge(p: Program, blocks: set<nat>, x: nat, n: nat, j: nat, b: nat, t: nat)
    requires IsBlock(p, x, n) && j < n && Exits(p, x, n, t) && IsBoundary(blocks, x + 4 * j, b)
    requires x + 4 * n <= b && (p.ends(x + 4 * (n - 1)) || b == x + 4 * n)
    requires x + 4 * j in blocks && t in blocks && SamePage(x + 4 * j, t)
    ensures Edge(p, blocks, x + 4 * j, t)
  {
    var y := x + 4 * j;
    ScanToEnd(p, x, n, j, b, j);
    RestExits(p, x, n, j, y, t);
    MakeEdge(p, blocks, y, b, n - j, t);
  }

  /** A branch that the block at `x` takes as a whole is reached through the pieces into which recorded
      blocks divide it. */
  lemma {:induction false} PiecesReach(p: Program, blocks: set<nat>, reached: set<nat>, x: nat, n: nat, j: nat, t: nat)
    requires IsBlock(p, x, n) && j < n && Exits(p, x, n, t) && x + 4 * (n - 1) < PageEnd(x) && x % 4 == 0
    requires (forall y | y in blocks :: y % 4 == 0) && Closed(p, blocks, reached)
    requires x + 4 * j in reached && x + 4 * j in blocks && t in blocks && SamePage(x, t)
    ensures t in reached
    decreases n - j
  {
    var y := x + 4 * j;
    PageFacts(x, y);
    PageFacts(x, t);
    var b := BoundaryExists(blocks, y);
    assert b % 4 == 0;
    var k := Distance(x, b);
    if k < n {
      PageFacts(x, b);
      assert b in blocks;
      InnerEdge(p, blocks, x, n, j, k);
      assert Edge(p, blocks, y, b);
      PiecesReach(p, blocks, reached, x, n, k, t);
    } else {
      if !p.ends(x + 4 * (n - 1)) {
        assert t == x + 4 * n && b <= t;
      }
      LastEdge(p, blocks, x, n, j, b, t);
      assert Edge(p, blocks, y, t);
    }
  }

  lemma PageFacts(x: nat, y: nat)
    ensures x < PageEnd(x) && PageEnd(x) % 4 == 0
    ensures x <= y < PageEnd(x) ==> SamePage(x, y) && PageEnd(y) == PageEnd(x)
    ensures SamePage(x, y) ==> y < PageEnd(x)
  {
    var q := x / PAGE_SIZE;
    assert x == PAGE_SIZE * q + x % PAGE_SIZE;
    assert PageEnd(x) == PAGE_SIZE * q + PAGE_SIZE;
    if x <= y < PageEnd(x) {
      assert y == PAGE_SIZE * q + (y - PAGE_SIZE * q) && 0 <= y - PAGE_SIZE * q < PAGE_SIZE;
      assert y / PAGE_SIZE == q;
    }
    if SamePage(x, y) {
      assert y == PAGE_SIZE * q + y % PAGE_SIZE;
    }
  }

  // ---------- What a run records ----------

  /** The block that each branch slot belongs to, and the blocks in the order of their translation. */
  datatype History = History(owner: seq<Ip>, order: seq<Ip>)

  function RoundUpPage(ip: nat): nat {
    if ip % PAGE_SIZE == 0 then ip else PageEnd(ip)
  }

  /** GetCompilationIPRange: up to the end of the page or to the next known block. */
  ghost predicate IsRange(blocks: set<nat>, ip: nat, b: nat) {
    && b <= RoundUpPage(ip) && (b == RoundUpPage(ip) || (b in blocks && b > ip))
    && forall y | y in blocks && y > ip :: b <= y
  }

  /** A branch of the block at `x` to `t`, with the flag for leaving the page. */
  ghost predicate IsExit(p: Program, x: nat, n: nat, t: nat, cross: bool) {
    IsBlock(p, x, n) && x + 4 * (n - 1) < PageEnd(x) && Exits(p, x, n, t) && (cross <==> !SamePage(x, t))
  }

  ghost predicate HasExit(p: Program, x: nat, t: nat, cross: bool) {
    exists n: nat :: IsExit(p, x, n, t, cross)
  }

  /** Exits of the code at `ip`, scanned up to `b`, to aligned addresses, with the flag for leaving the page. */
  ghost predicate ScannedExits(p: Program, ip: nat, b: nat, exits: seq<(Ip, bool)>) {
    forall k: nat {:trigger exits[k]} | k < |exits| ::
      Exits(p, ip, Scan(p, ip, b, 0), exits[k].0) && (exits[k].1 <==> !SamePage(ip, exits[k].0)) && exits[k].0 % 4 == 0
  }

  /** Events that code with this program can cause: translation finds the exits of the scanned block,
      branches belong to the running block, and addresses are aligned. */
  ghost predicate Honest(p: Program, m: Machine, h: History, e: Event) {
    match e
    case Turn(code, exits) =>
      m.ip !in m.cache.blocks ==> exists b: nat :: IsRange(m.cache.blocks.Keys, m.ip, b) && ScannedExits(p, m.ip, b, exits)
    case Direct(j) => j < |h.owner| && h.owner[j] == m.at
    case Indirect(t) => t % 4 == 0
    case Trap(ip) => ip % 4 == 0
  }

  /** Block number `k` was entered indirectly, or through a branch of an earlier block that was linked. */
  ghost predicate Explained(c: Cache, h: History, k: nat)
    requires k < |h.order| && |h.owner| == |c.slots|
  {
    h.order[k] in c.brindTargets || exists j: nat :: LinkedFrom(c, h, k, j)
  }

  ghost predicate LinkedFrom(c: Cache, h: History, k: nat, j: nat)
    requires k < |h.order| && |h.owner| == |c.slots|
  {
    j < |c.slots| && c.slots[j].gip == h.order[k] && c.slots[j].link.Some? && h.owner[j] in h.order[..k]
  }

  ghost predicate SlotFrom(p: Program, c: Cache, h: History, j: nat)
    requires j < |c.slots| == |h.owner|
  {
    h.owner[j] in c.blocks && c.slots[j].gip % 4 == 0 && HasExit(p, h.owner[j], c.slots[j].gip, c.slots[j].cross)
  }

  ghost predicate Recorded(p: Program, m: Machine, h: History) {
    && |h.owner| == |m.cache.slots| && m.at % 4 == 0
    && (forall ip | ip in m.cache.blocks :: ip in h.order && ip % 4 == 0) && (forall ip | ip in h.order :: ip in m.cache.blocks)
    && (forall j: nat {:trigger SlotFrom(p, m.cache, h, j)} | j < |h.owner| :: SlotFrom(p, m.cache, h, j))
    && (forall k: nat {:trigger Explained(m.cache, h, k)} | k < |h.order| :: Explained(m.cache, h, k))
  }

  function NextHistory(m: Machine, h: History, e: Event): History {
    if e.Turn? && m.ip !in m.cache.blocks then History(h.owner + seq(|e.exits|, _ => m.ip), h.order + [m.ip]) else h
  }

  // ---------- Steps keep the record ----------

  /** Blocks and slots stay, flags and links only grow. */
  ghost predicate CacheGrows(c: Cache, c': Cache) {
    && (forall ip | ip in c.blocks :: ip in c'.blocks) && |c.slots| <= |c'.slots| && c.brindTargets <= c'.brindTargets
    && forall j: nat {:trigger c.slots[j]} {:trigger c'.slots[j]} | j < |c.slots| :: c'.slots[j].gip == c.slots[j].gip && c'.slots[j].cross == c.slots[j].cross && (c.slots[j].link.Some? ==> c'.slots[j].link.Some?)
  }

  ghost predicate HistoryGrows(h: History, h': History) {
    |h.owner| <= |h'.owner| && h'.owner[..|h.owner|] == h.owner && |h.order| <= |h'.order| && h'.order[..|h.order|] == h.order
  }

  lemma ExplainedGrows(c: Cache, c': Cache, h: History, h': History, k: nat)
    requires |h.owner| == |c.slots| && |h'.owner| == |c'.slots| && CacheGrows(c, c') && HistoryGrows(h, h') && k < |h.order| && Explained(c, h, k)
    ensures Explained(c', h', k)
  {
    assert h'.order[k] == h'.order[..|h.order|][k] && h'.order[..k] == h'.order[..|h.order|][..k];
    if h.order[k] !in c.brindTargets {
      var j: nat :| LinkedFrom(c, h, k, j);
      assert h'.owner[j] == h'.owner[..|h.owner|][j];
      assert LinkedFrom(c', h', k, j);
    }
  }

  lemma SlotFromGrows(p: Program, c: Cache, c': Cache, h: History, h': History, j: nat)
    requires |h.owner| == |c.slots| && |h'.owner| == |c'.slots| && CacheGrows(c, c') && HistoryGrows(h, h') && j < |h.owner| && SlotFrom(p, c, h, j)
    ensures SlotFrom(p, c', h', j)
  {
    assert h'.owner[j] == h'.owner[..|h.owner|][j] && c'.slots[j].gip == c.slots[j].gip;
  }

  /** A step that translates nothing. */
  lemma SameBlocksKeep(p: Program, m: Machine, m': Machine, h: History)
    requires Recorded(p, m, h) && m'.cache.blocks == m.cache.blocks && |m'.cache.slots| == |m.cache.slots|
    requires CacheGrows(m.cache, m'.cache) && m'.at % 4 == 0
    ensures Recorded(p, m', h)
  {
    assert h.owner[..|h.owner|] == h.owner && h.order[..|h.order|] == h.order;
    forall j: nat | j < |h.owner| ensures SlotFrom(p, m'.cache, h, j) {
      assert SlotFrom(p, m.cache, h, j);
      SlotFromGrows(p, m.cache, m'.cache, h, h, j);
    }
    forall k: nat | k < |h.order| ensures Explained(m'.cache, h, k) {
      assert Explained(m.cache, h, k);
      ExplainedGrows(m.cache, m'.cache, h, h, k);
    }
  }

  lemma ScannedExit(p: Program, blocks: set<nat>, ip: nat, b: nat, t: nat, cross: bool)
    requires IsRange(blocks, ip, b) && Exits(p, ip, Scan(p, ip, b, 0), t) && (cross <==> !SamePage(ip, t))
    ensures HasExit(p, ip, t, cross)
  {
    var n := Scan(p, ip, b, 0);
    ScanIsBlock(p, ip, b, 0);
    PageFacts(ip, ip);
    assert IsExit(p, ip, n, t, cross);
  }

  /** The new slots of a block belong to it and are exits of it. */
  lemma NewSlotsFrom(p: Program, m: Machine, m': Machine, h: History, exits: seq<(Ip, bool)>, b: nat, j: nat)
    requires m.at % 4 == 0 && m.ip == m.at && m.ip in m'.cache.blocks && IsRange(m.cache.blocks.Keys, m.ip, b)
    requires |h.owner| == |m.cache.slots| <= j < |m.cache.slots| + |exits| == |m'.cache.slots|
    requires var s, k := m'.cache.slots[j], j - |m.cache.slots|;
             && s.gip == exits[k].0 && s.cross == exits[k].1
             && ScannedExits(p, m.ip, b, exits)
    ensures SlotFrom(p, m'.cache, History(h.owner + seq(|exits|, _ => m.ip), h.order + [m.ip]), j)
  {
    var s := m'.cache.slots[j];
    assert exits[j - |m.cache.slots|].0 % 4 == 0;
    ScannedExit(p, m.cache.blocks.Keys, m.ip, b, s.gip, s.cross);
  }

  /** What a turn of the loop that translates does to the cache. */
  lemma TranslationEffect(m: Machine, code: nat, exits: seq<(Ip, bool)>)
    requires Chaining.Inv(m) && m.control.InLoop? && m.ip !in m.cache.blocks
    ensures var c, c' := m.cache, TurnStep(m, code, exits).cache;
            && c'.blocks == c.blocks[m.ip := TBlock(m.ip, code)] && CacheGrows(c, c') && |c'.slots| == |c.slots| + |exits|
            && (forall j: nat | |c.slots| <= j < |c'.slots| :: c'.slots[j].gip == exits[j - |c.slots|].0 && c'.slots[j].cross == exits[j - |c.slots|].1)
            && (m.control.slot.None? ==> m.ip in c'.brindTargets)
            && (m.control.slot.Some? ==> m.control.slot.value < |c.slots| && c'.slots[m.control.slot.value].link.Some? && c'.slots[m.control.slot.value].gip == m.ip)
  {
    LookupIsMap(m.cache, m.ip);
  }

  lemma TranslationKeeps(p: Program, m: Machine, h: History, code: nat, exits: seq<(Ip, bool)>)
    requires Chaining.Inv(m) && Recorded(p, m, h) && m.control.InLoop? && m.ip !in m.cache.blocks && Honest(p, m, h, Turn(code, exits))
    ensures Recorded(p, TurnStep(m, code, exits), NextHistory(m, h, Turn(code, exits)))
  {
    var m', h' := TurnStep(m, code, exits), NextHistory(m, h, Turn(code, exits));
    var c, c' := m.cache, m'.cache;
    TranslationEffect(m, code, exits);
    assert h'.owner[..|h.owner|] == h.owner && h'.order[..|h.order|] == h.order;
    var b: nat :| IsRange(c.blocks.Keys, m.ip, b) && ScannedExits(p, m.ip, b, exits);
    forall j: nat | j < |h'.owner| ensures SlotFrom(p, c', h', j) {
      if j < |h.owner| {
        assert SlotFrom(p, c, h, j);
        SlotFromGrows(p, c, c', h, h', j);
      } else {
        NewSlotsFrom(p, m, m', h, exits, b, j);
      }
    }
    forall k: nat | k < |h'.order| ensures Explained(c', h', k) {
      if k < |h.order| {
        assert Explained(c, h, k);
        ExplainedGrows(c, c', h, h', k);
      } else if m.control.slot.Some? {
        var j := m.control.slot.value;
        assert SlotFrom(p, c, h, j) && h'.owner[j] == h.owner[j] && h'.order[..k] == h.order;
        assert LinkedFrom(c', h', k, j);
      }
    }
  }

  lemma StepKeepsRecord(p: Program, m: Machine, h: History, e: Event)
    requires Chaining.Inv(m) && Recorded(p, m, h) && Possible(m, e) && Honest(p, m, h, e)
    ensures Recorded(p, Step(m, e), NextHistory(m, h, e))
  {
    match e
    case Turn(code, exits) =>
      LookupIsMap(m.cache, m.ip);
      if m.ip in m.cache.blocks {
        SameBlocksKeep(p, m, Step(m, e), h);
      } else {
        TranslationKeeps(p, m, h, code, exits);
      }
    case Direct(j) =>
      LookupIsMap(m.cache, m.cache.slots[j].gip);
      assert SlotFrom(p, m.cache, h, j);
      SameBlocksKeep(p, m, Step(m, e), h);
    case Indirect(t) =>
      LookupIsMap(m.cache, t);
      SameBlocksKeep(p, m, Step(m, e), h);
    case Trap(ip) =>
      SameBlocksKeep(p, m, Step(m, e), h);
  }

  // ---------- Closure ----------

  /** The blocks with an edge from the root. */
  ghost predicate ContainsSeeds(c: Cache, reached: set<nat>) {
    forall ip | ip in c.blocks && (ip in c.brindTargets || ip in c.segmentEntries) :: ip in reached
  }

  /** Every translated block is in every set that contains the seeds and is closed under the edges: all
      of them are reachable from the root. */
  lemma {:induction false} AllReached(p: Program, m: Machine, h: History, reached: set<nat>, k: nat)
    requires Chaining.Inv(m) && Recorded(p, m, h) && k < |h.order|
    requires ContainsSeeds(m.cache, reached) && Closed(p, m.cache.blocks.Keys, reached)
    ensures h.order[k] in reached
    decreases k
  {
    var c, t := m.cache, h.order[k];
    assert t in h.order && Explained(c, h, k);
    if t !in c.brindTargets {
      var j: nat :| LinkedFrom(c, h, k, j);
      assert SlotOk(c, j) && SlotFrom(p, c, h, j);
      if !c.slots[j].cross {
        var x := h.owner[j];
        var i: nat :| i < k && h.order[..k][i] == x;
        AllReached(p, m, h, reached, i);
        var n: nat :| IsExit(p, x, n, t, c.slots[j].cross);
        PiecesReach(p, c.blocks.Keys, reached, x, n, 0, t);
      }
    }
  }

  // ---------- Runs from an empty cache ----------

  ghost predicate HonestRun(p: Program, m: Machine, h: History, es: seq<Event>)
    requires Shaped(m)
    decreases |es|
  {
    es != [] ==> Possible(m, es[0]) && Honest(p, m, h, es[0]) && HonestRun(p, Step(m, es[0]), NextHistory(m, h, es[0]), es[1..])
  }

  lemma {:induction false} RunRecords(p: Program, m: Machine, h: History, es: seq<Event>) returns (h': History)
    requires Chaining.Inv(m) && Recorded(p, m, h) && HonestRun(p, m, h, es)
    ensures ChainRun(m, es).Some? && Chaining.Inv(ChainRun(m, es).value) && Recorded(p, ChainRun(m, es).value, h')
    decreases |es|
  {
    h' := h;
    if es != [] {
      StepKeeps(m, es[0]);
      StepKeepsRecord(p, m, h, es[0]);
      h' := RunRecords(p, Step(m, es[0]), NextHistory(m, h, es[0]), es[1..]);
    }
  }

  /** After any run from an empty cache, every recorded block is reachable from the root of the graph of
      its page, so the "unreachable regions" panic of ComputeDomTree does not occur. */
  lemma ProfileIsClosed(p: Program, ip: Ip, es: seq<Event>, reached: set<nat>, x: nat)
    requires ip % 4 == 0
    requires var m := Machine(EmptyCache(), ip, InLoop(None), ip); Shaped(m) && HonestRun(p, m, History([], []), es)
    ensures var m := ChainRun(Machine(EmptyCache(), ip, InLoop(None), ip), es);
            && m.Some?
            && (ContainsSeeds(m.value.cache, reached) && Closed(p, m.value.cache.blocks.Keys, reached) && x in m.value.cache.blocks ==> x in reached)
  {
    var m := Machine(EmptyCache(), ip, InLoop(None), ip);
    InitAgrees(ip);
    var h := RunRecords(p, m, History([], []), es);
    var m' := ChainRun(m, es).value;
    if ContainsSeeds(m'.cache, reached) && Closed(p, m'.cache.blocks.Keys, reached) && x in m'.cache.blocks {
      var k: nat :| k < |h.order| && h.order[k] == x;
      AllReached(p, m', h, reached, k);
    }
  }
}
