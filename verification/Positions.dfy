/** Filtered sequences by the positions they keep. */
module Positions {
  import opened Sequences
  import opened Ordering

  /** The elements of xs at the given positions, in order. */
  ghost predicate Picks<T>(xs: seq<T>, ys: seq<T>, at: seq<int>) {
    && |at| == |ys|
    && (forall i :: 0 <= i < |at| ==> 0 <= at[i] < |xs| && ys[i] == xs[at[i]])
    && forall i, j :: 0 <= i < j < |at| ==> at[i] < at[j]
  }

  lemma {:induction false} FilterPicks<T(!new)>(keep: T -> bool, xs: seq<T>) returns (at: seq<int>)
    ensures Picks(xs, Filter(keep, xs), at)
    ensures forall k :: 0 <= k < |xs| ==> (k in at <==> keep(xs[k]))
  {
    if xs == [] {
      at := [];
    } else {
      var n := |xs| - 1;
      var before := FilterPicks(keep, xs[..n]);
      at := before + if keep(xs[n]) then [n] else [];
      forall k | 0 <= k < |xs| ensures k in at <==> keep(xs[k]) {
        assert k < n ==> xs[..n][k] == xs[k];
      }
    }
  }

  lemma PicksUnique<T>(xs: seq<T>, ys: seq<T>, zs: seq<T>, at: seq<int>, bt: seq<int>)
    requires Picks(xs, ys, at) && Picks(xs, zs, bt)
    requires forall k :: 0 <= k < |xs| ==> (k in at <==> k in bt)
    ensures ys == zs && at == bt
  {
    forall k ensures k in Elements(at) <==> k in Elements(bt) {
      if k in at {
        var i :| 0 <= i < |at| && at[i] == k;
      }
      if k in bt {
        var i :| 0 <= i < |bt| && bt[i] == k;
      }
    }
    AscendingUnique((a: int, b: int) => a < b, at, bt);
  }

  ghost function PositionsOf<T>(xs: seq<T>, keep: T -> bool): set<int> {
    set k | 0 <= k < |xs| && keep(xs[k])
  }

  lemma {:induction false} FilterCount<T(!new)>(keep: T -> bool, xs: seq<T>)
    ensures |Filter(keep, xs)| == |PositionsOf(xs, keep)|
  {
    if xs == [] {
      assert PositionsOf(xs, keep) == {};
    } else {
      var n := |xs| - 1;
      FilterCount(keep, xs[..n]);
      assert PositionsOf(xs, keep) == PositionsOf(xs[..n], keep) + if keep(xs[n]) then {n} else {};
    }
  }

  /** Filtering twice keeps what has both properties. */
  lemma {:induction false} FilterBoth<T(!new)>(p: T -> bool, q: T -> bool, both: T -> bool, xs: seq<T>)
    requires forall x :: x in xs ==> (both(x) <==> p(x) && q(x))
    ensures Filter(p, Filter(q, xs)) == Filter(both, xs)
  {
    if xs != [] {
      var n := |xs| - 1;
      FilterBoth(p, q, both, xs[..n]);
      assert xs[n] in xs;
      if q(xs[n]) {
        FilterSnoc(p, Filter(q, xs[..n]), xs[n]);
      } else {
        assert Filter(q, xs) == Filter(q, xs[..n]);
      }
    }
  }

  /** Neighbouring positions are the ones with none between. */
  lemma Neighbours(at: seq<int>, member: int -> bool, i: nat, h: int)
    requires (forall k, m :: 0 <= k < m < |at| ==> at[k] < at[m]) && (forall k :: k in at <==> member(k)) && i < |at|
    ensures (h < at[i] && member(h) && forall j :: h < j < at[i] ==> !member(j)) <==> i > 0 && h == at[i - 1]
  {
    if i > 0 {
      assert at[i - 1] in at;
      forall j | at[i - 1] < j < at[i] ensures j !in at {}
    }
    if h < at[i] && member(h) && forall j :: h < j < at[i] ==> !member(j) {
      var m :| 0 <= m < |at| && at[m] == h;
      assert i > 0 && m <= i - 1;
    }
  }
}
