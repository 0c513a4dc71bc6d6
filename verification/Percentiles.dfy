/** The interpolated percentile of internal/alerts/evaluator.go, over the reals. */
module Percentiles {

  ghost predicate Nondecreasing(xs: seq<real>) {
    forall i, j :: 0 <= i <= j < |xs| ==> xs[i] <= xs[j]
  }

  lemma InsertedBelow(xs: seq<real>, x: real, rest: seq<real>)
    requires xs != [] && Nondecreasing(xs) && xs[0] < x
    requires Nondecreasing(rest) && multiset(rest) == multiset(xs[1..]) + multiset{x}
    ensures Nondecreasing([xs[0]] + rest) && multiset([xs[0]] + rest) == multiset(xs) + multiset{x}
  {
    assert xs == [xs[0]] + xs[1..];
    forall i | 0 <= i < |rest| ensures xs[0] <= rest[i] {
      assert rest[i] in multiset(rest);
    }
  }

  function InsertValue(xs: seq<real>, x: real): (ys: seq<real>)
    requires Nondecreasing(xs)
    ensures Nondecreasing(ys) && multiset(ys) == multiset(xs) + multiset{x} && |ys| == |xs| + 1
  {
    if xs == [] then [x]
    else if x <= xs[0] then [x] + xs
    else
      var rest := InsertValue(xs[1..], x);
      InsertedBelow(xs, x, rest);
      [xs[0]] + rest
  }

  /** A sorted copy of the values. */
  function SortValues(xs: seq<real>): (ys: seq<real>)
    ensures Nondecreasing(ys) && multiset(ys) == multiset(xs) && |ys| == |xs|
  {
    if xs == [] then []
    else
      assert xs == xs[..|xs| - 1] + [xs[|xs| - 1]];
      InsertValue(SortValues(xs[..|xs| - 1]), xs[|xs| - 1])
  }

  lemma SameLength(xs: seq<real>, ys: seq<real>)
    requires multiset(xs) == multiset(ys)
    ensures |xs| == |ys|
  {
    assert |multiset(xs)| == |xs| && |multiset(ys)| == |ys|;
  }

  lemma HeadOff(xs: seq<real>)
    requires xs != []
    ensures multiset(xs[1..]) == multiset(xs) - multiset{xs[0]}
  {
    assert xs == [xs[0]] + xs[1..];
  }

  lemma LeastFirst(xs: seq<real>, ys: seq<real>)
    requires xs != [] && ys != [] && Nondecreasing(xs) && multiset(xs) == multiset(ys)
    ensures xs[0] <= ys[0]
  {
    assert ys[0] in multiset(xs);
  }

  lemma {:induction false} SortedUnique(xs: seq<real>, ys: seq<real>)
    requires Nondecreasing(xs) && Nondecreasing(ys) && multiset(xs) == multiset(ys)
    ensures xs == ys
  {
    SameLength(xs, ys);
    if xs != [] {
      LeastFirst(xs, ys);
      LeastFirst(ys, xs);
      HeadOff(xs);
      HeadOff(ys);
      SortedUnique(xs[1..], ys[1..]);
      assert xs == [xs[0]] + xs[1..] && ys == [ys[0]] + ys[1..];
    }
  }

  /** The value a given part of the way from one neighbour to the next. */
  function Blend(from: real, to: real, fraction: real): real {
    from + fraction * (to - from)
  }

  /** Interpolation between the two order statistics around a position. */
  function Interpolate(sorted: seq<real>, position: real): real
    requires sorted != [] && 0.0 <= position
  {
    var lower := position.Floor;
    if lower + 1 >= |sorted| then sorted[|sorted| - 1]
    else Blend(sorted[lower], sorted[lower + 1], position - lower as real)
  }

  function Position(count: nat, percentile: real): (position: real)
    requires count > 0 && 0.0 <= percentile
    ensures 0.0 <= position
  {
    ProductNonNegative(percentile / 100.0, (count - 1) as real);
    percentile / 100.0 * (count - 1) as real
  }

  lemma ProductNonNegative(a: real, b: real)
    requires 0.0 <= a && 0.0 <= b
    ensures 0.0 <= a * b
  {
  }

  ghost function Percentile(values: seq<real>, percentile: real): real
    requires 0.0 <= percentile
  {
    if values == [] then 0.0 else Interpolate(SortValues(values), Position(|values|, percentile))
  }

  /** The percentile lies between the k-th and the next of the values in order, a given part of the way: at
      percentile / 100 of the way from the first value to the last. */
  ghost predicate LiesAt(values: seq<real>, percentile: real, ordered: seq<real>, k: nat, part: real) {
    && (forall i, j :: 0 <= i <= j < |ordered| ==> ordered[i] <= ordered[j]) && multiset(ordered) == multiset(values)
    && |ordered| == |values| && k + 1 < |values| && 0.0 <= part <= 1.0
    && percentile * (|values| - 1) as real == 100.0 * (k as real + part)
  }

  ghost function Between(low: real, high: real, part: real): real {
    (1.0 - part) * low + part * high
  }

  ghost predicate Interpolated(values: seq<real>, percentile: real, result: real) {
    && (values == [] ==> result == 0.0)
    && (forall ordered, k: nat, part :: LiesAt(values, percentile, ordered, k, part) ==>
          result == Between(ordered[k], ordered[k + 1], part))
    && (values != [] && (|values| == 1 || percentile >= 100.0) ==>
          result in values && forall v :: v in values ==> v <= result)
  }

  /** Truncation toward zero is the floor here, because the position is never negative. */
  method ComputePercentile(values: seq<real>, percentile: real) returns (result: real)
    requires 0.0 <= percentile
    ensures result == Percentile(values, percentile)
    ensures Interpolated(values, percentile, result)
  {
    PercentileInterpolates(values, percentile);
    if values == [] {
      return 0.0;
    }
    var sorted := SortValues(values);
    if |sorted| == 1 {
      return sorted[0];
    }
    var position := Position(|sorted|, percentile);
    var lower := position.Floor;
    var upper := lower + 1;
    if upper >= |sorted| {
      return sorted[|sorted| - 1];
    }
    return Blend(sorted[lower], sorted[upper], position - lower as real);
  }

  // ----- what the interpolation means

  lemma BlendBetween(from: real, to: real, fraction: real)
    requires from <= to && 0.0 <= fraction <= 1.0
    ensures from <= Blend(from, to, fraction) <= to
  {
    ProductNonNegative(fraction, to - from);
    ProductNonNegative(1.0 - fraction, to - from);
    assert fraction * (to - from) + (1.0 - fraction) * (to - from) == to - from;
  }

  lemma BlendMonotone(from: real, to: real, f: real, g: real)
    requires from <= to && f <= g
    ensures Blend(from, to, f) <= Blend(from, to, g)
  {
    ProductNonNegative(g - f, to - from);
    assert (g - f) * (to - from) == g * (to - from) - f * (to - from);
  }

  lemma {:induction false} InterpolateBetweenNeighbours(sorted: seq<real>, position: real)
    requires sorted != [] && Nondecreasing(sorted) && 0.0 <= position
    ensures position.Floor + 1 < |sorted| ==>
              sorted[position.Floor] <= Interpolate(sorted, position) <= sorted[position.Floor + 1]
    ensures sorted[0] <= Interpolate(sorted, position) <= sorted[|sorted| - 1]
  {
    var lower := position.Floor;
    if lower + 1 < |sorted| {
      BlendBetween(sorted[lower], sorted[lower + 1], position - lower as real);
    }
  }

  lemma InterpolateMonotone(sorted: seq<real>, p: real, q: real)
    requires sorted != [] && Nondecreasing(sorted) && 0.0 <= p <= q
    ensures Interpolate(sorted, p) <= Interpolate(sorted, q)
  {
    InterpolateBetweenNeighbours(sorted, p);
    InterpolateBetweenNeighbours(sorted, q);
    var i := p.Floor;
    if i == q.Floor && i + 1 < |sorted| {
      BlendMonotone(sorted[i], sorted[i + 1], p - i as real, q - i as real);
    }
  }

  /** The percentile lies between the least and the greatest value. */
  lemma PercentileWithinValues(values: seq<real>, percentile: real)
    requires values != [] && 0.0 <= percentile
    ensures exists low :: low in values && low <= Percentile(values, percentile) && forall v :: v in values ==> low <= v
    ensures exists high ::
              high in values && Percentile(values, percentile) <= high && forall v :: v in values ==> v <= high
  {
    var sorted := SortValues(values);
    var low, high := sorted[0], sorted[|sorted| - 1];
    InterpolateBetweenNeighbours(sorted, Position(|values|, percentile));
    SortedMembers(values);
  }

  lemma {:induction false} SortedMembers(values: seq<real>)
    requires values != []
    ensures var sorted := SortValues(values);
            sorted[0] in values && sorted[|sorted| - 1] in values &&
            forall v :: v in values ==> sorted[0] <= v <= sorted[|sorted| - 1]
  {
    var sorted := SortValues(values);
    assert sorted[0] in multiset(sorted) && sorted[|sorted| - 1] in multiset(sorted);
    forall v | v in values ensures sorted[0] <= v <= sorted[|sorted| - 1] {
      assert v in multiset(values);
      assert v in sorted;
    }
  }

  lemma {:induction false} PercentileIgnoresOrder(values: seq<real>, permuted: seq<real>, percentile: real)
    requires multiset(values) == multiset(permuted) && 0.0 <= percentile
    ensures Percentile(values, percentile) == Percentile(permuted, percentile)
  {
    SameLength(values, permuted);
    SortedUnique(SortValues(values), SortValues(permuted));
  }

  lemma PositionMonotone(n: nat, p: real, q: real)
    requires n > 0 && 0.0 <= p <= q
    ensures 0.0 <= Position(n, p) <= Position(n, q)
  {
    var span := (n - 1) as real;
    ProductNonNegative(q / 100.0 - p / 100.0, span);
    ProductNonNegative(p / 100.0, span);
    assert (q / 100.0 - p / 100.0) * span == q / 100.0 * span - p / 100.0 * span;
  }

  /** Asking for a higher percentile never gives a smaller value. */
  lemma {:induction false} PercentileMonotone(values: seq<real>, p: real, q: real)
    requires 0.0 <= p <= q
    ensures Percentile(values, p) <= Percentile(values, q)
  {
    if values != [] {
      PositionMonotone(|values|, p, q);
      InterpolateMonotone(SortValues(values), Position(|values|, p), Position(|values|, q));
    }
  }

  lemma {:induction false} InterpolateBetween(sorted: seq<real>, position: real, k: nat, part: real)
    requires k + 1 < |sorted| && 0.0 <= part <= 1.0 && position == k as real + part
    ensures Interpolate(sorted, position) == Between(sorted[k], sorted[k + 1], part)
  {
    if part == 1.0 {
      assert position.Floor == k + 1;
    } else {
      assert position.Floor == k;
    }
  }

  lemma PositionIs(count: nat, percentile: real, place: real)
    requires count > 0 && 0.0 <= percentile && percentile * (count - 1) as real == 100.0 * place
    ensures Position(count, percentile) == place
  {
    var span := (count - 1) as real;
    assert percentile / 100.0 * span == percentile * span / 100.0;
  }

  lemma PositionBeyond(count: nat, percentile: real)
    requires count > 0 && (count == 1 || percentile >= 100.0) && 0.0 <= percentile
    ensures Position(count, percentile) >= (count - 1) as real
  {
    var span := (count - 1) as real;
    if count > 1 {
      ProductNonNegative(percentile / 100.0 - 1.0, span);
      assert (percentile / 100.0 - 1.0) * span == percentile / 100.0 * span - span;
    }
  }

  lemma {:induction false} PercentileOfOrdered(values: seq<real>, percentile: real, ordered: seq<real>)
    requires 0.0 <= percentile && values != [] && multiset(ordered) == multiset(values) && Nondecreasing(ordered)
    ensures |ordered| == |values|
    ensures Percentile(values, percentile) == Interpolate(ordered, Position(|values|, percentile))
  {
    SortedUnique(ordered, SortValues(values));
  }

  lemma {:induction false} PercentileAtPlace(values: seq<real>, percentile: real, ordered: seq<real>, k: nat,
                                             part: real)
    requires 0.0 <= percentile && k + 1 < |values| && 0.0 <= part <= 1.0
    requires multiset(ordered) == multiset(values) && Nondecreasing(ordered) && |ordered| == |values|
    requires Position(|values|, percentile) == k as real + part
    ensures Percentile(values, percentile) == Between(ordered[k], ordered[k + 1], part)
  {
    PercentileOfOrdered(values, percentile, ordered);
    InterpolateBetween(ordered, k as real + part, k, part);
  }

  lemma {:induction false} PercentileLiesAt(values: seq<real>, percentile: real, ordered: seq<real>, k: nat, part: real)
    requires 0.0 <= percentile && LiesAt(values, percentile, ordered, k, part)
    ensures Percentile(values, percentile) == Between(ordered[k], ordered[k + 1], part)
  {
    PositionIs(|values|, percentile, k as real + part);
    PercentileAtPlace(values, percentile, ordered, k, part);
  }

  lemma {:induction false} PercentileAtEnd(values: seq<real>, percentile: real)
    requires 0.0 <= percentile && values != [] && (|values| == 1 || percentile >= 100.0)
    ensures Percentile(values, percentile) in values
    ensures forall v :: v in values ==> v <= Percentile(values, percentile)
  {
    PositionBeyond(|values|, percentile);
    SortedMembers(values);
  }

  /** Every percentile interpolates linearly between two neighbouring values of any sorted arrangement, and at the end
      is the greatest value. */
  lemma {:induction false} PercentileInterpolates(values: seq<real>, percentile: real)
    requires 0.0 <= percentile
    ensures Interpolated(values, percentile, Percentile(values, percentile))
  {
    forall ordered, k: nat, part | LiesAt(values, percentile, ordered, k, part)
      ensures Percentile(values, percentile) == Between(ordered[k], ordered[k + 1], part)
    {
      PercentileLiesAt(values, percentile, ordered, k, part);
    }
    if values != [] && (|values| == 1 || percentile >= 100.0) {
      PercentileAtEnd(values, percentile);
    }
  }

  lemma InterpolateAtRank(sorted: seq<real>, rank: nat)
    requires rank < |sorted|
    ensures Interpolate(sorted, rank as real) == sorted[rank]
  {
    assert (rank as real).Floor == rank;
  }

  lemma {:induction false} PercentileAtPosition(values: seq<real>, percentile: real, ordered: seq<real>, rank: nat)
    requires 0.0 <= percentile && rank < |values| && Position(|values|, percentile) == rank as real
    requires multiset(ordered) == multiset(values) && Nondecreasing(ordered)
    ensures |ordered| == |values| && Percentile(values, percentile) == ordered[rank]
  {
    PercentileOfOrdered(values, percentile, ordered);
    InterpolateAtRank(ordered, rank);
  }

  /** At a whole number of steps from the first value to the last the percentile is the order statistic itself. */
  lemma {:induction false} PercentileAtRank(values: seq<real>, percentile: real, ordered: seq<real>, rank: nat)
    requires 0.0 <= percentile && rank < |values| && percentile * (|values| - 1) as real == 100.0 * rank as real
    requires multiset(ordered) == multiset(values) && Nondecreasing(ordered)
    ensures |ordered| == |values| && Percentile(values, percentile) == ordered[rank]
  {
    PositionIs(|values|, percentile, rank as real);
    PercentileAtPosition(values, percentile, ordered, rank);
  }
}
