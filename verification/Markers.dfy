/** The epoch scheme of `dbt/qmc/marker.h`: nodes carry one 16-bit mark, and every new marker takes
    the next range of mark values, so that marks left by older markers read as zero. */
module Markers {

  const MARK_VALUES := 0x1_0000
  const STATE_VALUES := 0x100

  type Mark = m: nat | m < MARK_VALUES

  datatype MarkerKeeper = MarkerKeeper(mmin: Mark, mmax: Mark)

  datatype Marker = Marker(mmin: Mark, mmax: Mark) {

    function Get(mark: Mark): nat {
      if mark < mmin then 0 else mark - mmin
    }

    /** The mark that `Set` stores for state `s`. */
    function Encode(s: nat): Mark {
      (s + mmin) % MARK_VALUES
    }
  }

  /** The number of states is an 8-bit parameter; the new bounds wrap at 16 bits. */
  function NextEpoch(keeper: MarkerKeeper, states: nat): MarkerKeeper {
    MarkerKeeper(keeper.mmax, (keeper.mmax + states % STATE_VALUES) % MARK_VALUES)
  }

  function MarkerOf(keeper: MarkerKeeper): Marker {
    Marker(keeper.mmin, keeper.mmax)
  }

  /** No mark was written by a marker that is yet to come. */
  ghost predicate MarksBelow(marks: seq<Mark>, keeper: MarkerKeeper) {
    forall x | 0 <= x < |marks| :: marks[x] <= keeper.mmax
  }

  /** There is room for another marker with `states` states. */
  predicate Room(keeper: MarkerKeeper, states: nat) {
    states < STATE_VALUES && keeper.mmax + states < MARK_VALUES
  }

  /** A marker hands back each state that it can encode, and zero for marks of older markers. */
  lemma MarkerRoundTrip(keeper: MarkerKeeper, states: nat, s: nat, old_: Mark)
    requires Room(keeper, states) && s < states
    ensures var m := MarkerOf(NextEpoch(keeper, states));
            m.Get(m.Encode(s)) == s && m.Encode(s) < m.mmax && (m.Get(old_) == 0 <==> old_ <= keeper.mmax)
  {
  }

  /** The marks that numbering `n` nodes leaves behind are invisible to the next marker exactly when
      there are at most 255 nodes, because the node count is passed as an 8-bit state count. */
  lemma NumberingFits(keeper: MarkerKeeper, n: nat, states: nat)
    requires 0 < n && keeper.mmax + n < MARK_VALUES
    ensures var numbering := NextEpoch(keeper, n);
            var next := MarkerOf(NextEpoch(numbering, states));
            (forall s: nat | s < n :: next.Get(MarkerOf(numbering).Encode(s)) == 0) <==> n < STATE_VALUES
  {
    var numbering := NextEpoch(keeper, n);
    var next := MarkerOf(NextEpoch(numbering, states));
    Epoch(keeper, n);
    assert next.mmin == keeper.mmax + n % STATE_VALUES && MarkerOf(numbering).mmin == keeper.mmax;
    forall s: nat | s < n ensures MarkerOf(numbering).Encode(s) == s + keeper.mmax {
      NoWrap(s + keeper.mmax);
    }
    if n < STATE_VALUES {
      forall s: nat | s < n ensures next.Get(MarkerOf(numbering).Encode(s)) == 0 {
      }
    } else {
      assert next.Get(MarkerOf(numbering).Encode(n - 1)) != 0;
    }
  }

  lemma NoWrap(x: nat)
    requires x < MARK_VALUES
    ensures x % MARK_VALUES == x
  {
  }

  lemma Epoch(keeper: MarkerKeeper, n: nat)
    requires keeper.mmax + n < MARK_VALUES
    ensures NextEpoch(keeper, n) == MarkerKeeper(keeper.mmax, keeper.mmax + n % STATE_VALUES)
    ensures n % STATE_VALUES < STATE_VALUES && n % STATE_VALUES <= n && (n < STATE_VALUES ==> n % STATE_VALUES == n)
  {
    NoWrap(keeper.mmax + n % STATE_VALUES);
  }
}
