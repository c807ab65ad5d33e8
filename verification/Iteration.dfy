/** Running a step function repeatedly, and how a run over blocks relates to a run over positions. */
module Iteration {
  import opened Qir

  function Iterate<S(!new)>(step: (nat, S) -> RunResult<S>, k: nat, b: nat, s: S): RunResult<S> {
    if k == 0 then Running(b, s)
    else
      var r := step(b, s);
      if r.Running? then Iterate(step, k - 1, r.b, r.s) else r
  }

  lemma {:induction false} IterateSplit<S(!new)>(step: (nat, S) -> RunResult<S>, k1: nat, k2: nat, b: nat, s: S)
    ensures Iterate(step, k1 + k2, b, s) ==
            var r := Iterate(step, k1, b, s); if r.Running? then Iterate(step, k2, r.b, r.s) else r
  {
    if k1 > 0 {
      var r := step(b, s);
      if r.Running? {
        IterateSplit(step, k1 - 1, k2, r.b, r.s);
      }
    }
  }

  /** The same exit, or the position of the same block. */
  ghost predicate SamePlace<S(!new)>(r: RunResult<S>, f: RunResult<S>, labels: seq<nat>) {
    match r
    case Running(b, s) => b < |labels| && f == Running(labels[b], s)
    case Exited(_, _) => f == r
    case Wild => true
  }

  /** `k` steps over positions do what one step over blocks does; none are needed only to go on with the
      next block. */
  ghost predicate Covers<S(!new)>(blocks: (nat, S) -> RunResult<S>, flat: (nat, S) -> RunResult<S>, labels: seq<nat>, b: nat, s: S, k: nat) {
    b < |labels| && (k == 0 ==> blocks(b, s).Wild? || (blocks(b, s).Running? && blocks(b, s).b == b + 1))
    && SamePlace(blocks(b, s), Iterate(flat, k, labels[b], s), labels)
  }

  ghost predicate Covered<S(!new)>(blocks: (nat, S) -> RunResult<S>, flat: (nat, S) -> RunResult<S>, labels: seq<nat>, b: nat, s: S) {
    exists k: nat :: Covers(blocks, flat, labels, b, s, k)
  }

  ghost predicate Simulates<S(!new)>(blocks: (nat, S) -> RunResult<S>, flat: (nat, S) -> RunResult<S>, labels: seq<nat>) {
    forall b: nat, s: S {:trigger Covered(blocks, flat, labels, b, s)} | b < |labels| :: Covered(blocks, flat, labels, b, s)
  }

  lemma {:induction false} Follows<S(!new)>(blocks: (nat, S) -> RunResult<S>, flat: (nat, S) -> RunResult<S>, labels: seq<nat>, n: nat, b: nat, s: S)
    returns (k: nat)
    requires Simulates(blocks, flat, labels) && b < |labels|
    ensures SamePlace(Iterate(blocks, n, b, s), Iterate(flat, k, labels[b], s), labels)
    decreases n
  {
    k := 0;
    if n > 0 {
      var r := blocks(b, s);
      assert Covered(blocks, flat, labels, b, s);
      var k1: nat :| Covers(blocks, flat, labels, b, s, k1);
      k := k1;
      if r.Running? {
        var k2 := Follows(blocks, flat, labels, n - 1, r.b, r.s);
        IterateSplit(flat, k1, k2, labels[b], s);
        k := k1 + k2;
      }
    }
  }

  lemma {:induction false} Reflects<S(!new)>(blocks: (nat, S) -> RunResult<S>, flat: (nat, S) -> RunResult<S>, labels: seq<nat>, k: nat, b: nat, s: S)
    returns (n: nat)
    requires Simulates(blocks, flat, labels) && b < |labels| && Iterate(flat, k, labels[b], s).Exited?
    ensures var r := Iterate(blocks, n, b, s); r.Wild? || r == Iterate(flat, k, labels[b], s)
    decreases k, |labels| - b
  {
    var r := blocks(b, s);
    assert Covered(blocks, flat, labels, b, s);
    var k1: nat :| Covers(blocks, flat, labels, b, s, k1);
    n := 1;
    if r.Wild? {
      return;
    }
    if k1 > k {
      IterateSplit(flat, k, k1 - k, labels[b], s);
    } else {
      IterateSplit(flat, k1, k - k1, labels[b], s);
      if r.Running? {
        var n' := Reflects(blocks, flat, labels, k - k1, r.b, r.s);
        n := n' + 1;
      }
    }
  }
}
