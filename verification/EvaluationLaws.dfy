/** What the evaluator's triggers mean, for every rule and every slice of records. */
module EvaluationLaws {
  import opened Wrappers
  import opened Sequences
  import opened Positions
  import opened Ordering
  import opened Percentiles
  import opened Evaluation

  // ----- conservation: groups partition the selected records

  predicate InGroup(rule: Rule, key: string, r: Record) {
    Selects(rule, r) && rule.groupKey(r) == key
  }

  function GroupPart(rule: Rule): (string, Record) -> bool {
    (key: string, r: Record) => InGroup(rule, key, r)
  }

  lemma GroupIsPart(rule: Rule, records: seq<Record>, key: string)
    ensures Group(rule, records, key) == Filter(PartOf(GroupPart(rule), key), records)
  {
    FilterAgree(OfGroup(rule, key), PartOf(GroupPart(rule), key), records);
  }

  /** The group counts sum to the number of selected records. */
  lemma GroupCountsConserveRecords(rule: Rule, records: seq<Record>)
    ensures PartTotal(GroupPart(rule), SortedKeys(GroupKeys(rule, records)), records) ==
            |Filter(Selected(rule), records)|
    ensures forall key :: Group(rule, records, key) == Filter(PartOf(GroupPart(rule), key), records)
  {
    var keys := SortedKeys(GroupKeys(rule, records));
    BelowIsStrictOrder();
    PartsAddUp(GroupPart(rule), keys, records);
    forall r | r in records ensures Among(GroupPart(rule), keys)(r) == Selected(rule)(r) {
      if Selects(rule, r) {
        assert rule.groupKey(r) in Elements(keys);
        var i :| 0 <= i < |keys| && keys[i] == rule.groupKey(r);
        assert GroupPart(rule)(keys[i], r);
      }
    }
    FilterAgree(Among(GroupPart(rule), keys), Selected(rule), records);
    forall key ensures Group(rule, records, key) == Filter(PartOf(GroupPart(rule), key), records) {
      GroupIsPart(rule, records, key);
    }
  }

  // ----- exactness: the triggers are the groups that reach the threshold

  ghost predicate Raised(triggers: seq<Trigger>, key: string) {
    exists t :: t in triggers && t.groupKey == key
  }

  /** The remaining columns: metric rules report the metric, the threshold and the window they compared, and only
      percentile rules a percentile; the metric of a rate is the count divided by the seconds of the window. */
  ghost predicate Filled(rule: Rule, group: seq<Record>, t: Trigger) {
    match rule.condition
    case RateThreshold(rate) =>
      && (rule.windowSeconds > 0 ==> t.metricValue * rule.windowSeconds as real == t.matchCount as real)
      && t.threshold == rate && t.windowSeconds == rule.windowSeconds && t.percentile == 0.0
    case PercentileThreshold(limit, percentile, value) =>
      && (percentile > 0.0 ==> t.metricValue == Percentile(Values(value, group), percentile))
      && t.threshold == limit && t.windowSeconds == rule.windowSeconds && t.percentile == percentile
    case _ => t.metricValue == 0.0 && t.threshold == 0.0 && t.windowSeconds == 0 && t.percentile == 0.0
  }

  lemma TriggerFilled(rule: Rule, key: string, group: seq<Record>)
    ensures Filled(rule, group, TriggerFor(rule, key, group))
  {
    if rule.condition.RateThreshold? && rule.windowSeconds > 0 {
      var count, window := |group| as real, rule.windowSeconds as real;
      assert count / window * window == count;
    }
  }

  lemma TriggersByKey(rule: Rule, records: seq<Record>, keys: seq<string>)
    ensures var triggers := TriggersFor(rule, records, keys);
            && |triggers| == |keys|
            && (forall i :: 0 <= i < |keys| ==> triggers[i].groupKey == keys[i])
            && (forall t :: t in triggers ==> t.ruleId == rule.id && t.matchCount == |Group(rule, records, t.groupKey)|)
            && (forall t :: t in triggers ==> Filled(rule, Group(rule, records, t.groupKey), t))
  {
    forall i | 0 <= i < |keys|
      ensures Filled(rule, Group(rule, records, keys[i]), TriggersFor(rule, records, keys)[i])
    {
      TriggerFilled(rule, keys[i], Group(rule, records, keys[i]));
    }
  }

  lemma RaisedIffKey(rule: Rule, records: seq<Record>, keys: seq<string>, key: string)
    ensures Raised(TriggersFor(rule, records, keys), key) <==> key in keys
  {
    TriggersByKey(rule, records, keys);
    var triggers := TriggersFor(rule, records, keys);
    if key in keys {
      var i :| 0 <= i < |keys| && keys[i] == key;
      assert triggers[i] in triggers;
    }
  }

  lemma {:induction false} TriggersOnePerKey(rule: Rule, records: seq<Record>)
    ensures forall i, j :: 0 <= i < j < |Triggers(rule, records)| ==>
              Below(Triggers(rule, records)[i].groupKey, Triggers(rule, records)[j].groupKey)
    ensures forall t :: t in Triggers(rule, records) ==> t.ruleId == rule.id
    ensures forall t :: t in Triggers(rule, records) ==> t.matchCount == |Group(rule, records, t.groupKey)|
    ensures forall t :: t in Triggers(rule, records) ==> Filled(rule, Group(rule, records, t.groupKey), t)
    ensures forall key :: Raised(Triggers(rule, records), key) <==> key in ReachingKeys(rule, records)
  {
    var keys := SortedKeys(ReachingKeys(rule, records));
    TriggersByKey(rule, records, keys);
    forall key ensures Raised(Triggers(rule, records), key) <==> key in ReachingKeys(rule, records) {
      RaisedIffKey(rule, records, keys, key);
      assert key in Elements(keys) <==> key in keys;
    }
  }

  lemma {:induction false} RaisedIff(rule: Rule, records: seq<Record>, key: string)
    ensures Raised(Triggers(rule, records), key) <==>
            Group(rule, records, key) != [] && Reaches(rule, Group(rule, records, key))
  {
    TriggersOnePerKey(rule, records);
    GroupNonEmpty(rule, records, key);
  }

  // ----- the same for the whole evaluation, counting records of the slice directly

  /** The record takes part in the group: it passes the filter, and the pattern or the value the rule asks for is
      there; metric rules count it only when no record is later by more than the window. */
  ghost predicate Counts(rule: Rule, records: seq<Record>, r: Record, key: string) {
    && rule.matches(r) && rule.groupKey(r) == key
    && match rule.condition
       case PatternMatch(found, _) => found(r)
       case RateThreshold(_) => Recent(records, r, rule.windowSeconds)
       case PercentileThreshold(_, _, value) => value(r).Some? && Recent(records, r, rule.windowSeconds)
       case _ => true
  }

  ghost function CountedAt(rule: Rule, records: seq<Record>, key: string): set<int> {
    set k | 0 <= k < |records| && Counts(rule, records, records[k], key)
  }

  ghost function Counting(rule: Rule, records: seq<Record>, key: string): Record -> bool {
    (r: Record) => Counts(rule, records, r, key)
  }

  lemma {:induction false} GroupCounted(rule: Rule, records: seq<Record>, key: string)
    requires Windowed(rule) ==> rule.windowSeconds > 0
    ensures Group(rule, Considered(rule, records), key) == Filter(Counting(rule, records, key), records)
    ensures |Group(rule, Considered(rule, records), key)| == |CountedAt(rule, records, key)|
  {
    if Windowed(rule) && records != [] {
      var keep := NotBefore(Cutoff(Latest(records), rule.windowSeconds));
      forall r ensures Recent(records, r, rule.windowSeconds) <==> keep(r) {
        RecentIff(records, r, rule.windowSeconds);
      }
      FilterBoth(OfGroup(rule, key), keep, Counting(rule, records, key), records);
    } else {
      FilterAgree(OfGroup(rule, key), Counting(rule, records, key), records);
    }
    FilterCount(Counting(rule, records, key), records);
    assert PositionsOf(records, Counting(rule, records, key)) == CountedAt(rule, records, key);
  }

  /** When an evaluation fails: a rule that did not parse, and thresholds, windows and percentiles out of range. */
  lemma FailsIff(rule: Rule, records: seq<Record>)
    ensures Outcome(rule, records).Success? <==>
            match rule.condition
            case Unparsable(_) => false
            case CountThreshold(count) => count >= 1
            case PatternMatch(_, count) => count >= 1
            case RateThreshold(rate) => rate >= 0.0 && rule.windowSeconds >= 1
            case PercentileThreshold(limit, percentile, _) =>
              limit >= 0.0 && rule.windowSeconds >= 1 && 0.0 < percentile < 100.0
  {
  }

  /** A count or pattern rule raises exactly the groups with at least the threshold of records. */
  lemma CountTriggersExact(rule: Rule, records: seq<Record>, key: string)
    requires Outcome(rule, records).Success? && (rule.condition.CountThreshold? || rule.condition.PatternMatch?)
    ensures Raised(Outcome(rule, records).value, key) <==> |CountedAt(rule, records, key)| >= rule.condition.count
  {
    RaisedIff(rule, records, key);
    GroupCounted(rule, records, key);
  }

  /** A rate rule raises exactly the groups that occur in the window often enough, without a division. */
  lemma RateTriggersExact(rule: Rule, records: seq<Record>, key: string)
    requires Outcome(rule, records).Success? && rule.condition.RateThreshold?
    ensures
      var count := |CountedAt(rule, records, key)|;
      Raised(Outcome(rule, records).value, key) <==>
        count > 0 && count as real >= rule.condition.rate * rule.windowSeconds as real
  {
    var windowed := InWindow(records, rule.windowSeconds);
    RaisedIff(rule, windowed, key);
    RateReaches(rule, Group(rule, windowed, key));
    GroupCounted(rule, records, key);
  }

  /** The values of the group's records, in record order. */
  ghost predicate ValuesAt(rule: Rule, records: seq<Record>, key: string, at: seq<int>, values: seq<real>)
    requires rule.condition.PercentileThreshold?
  {
    && |at| == |values|
    && (forall i, j :: 0 <= i < j < |at| ==> at[i] < at[j])
    && (forall k :: k in at <==> k in CountedAt(rule, records, key))
    && forall i :: 0 <= i < |at| ==>
         at[i] in CountedAt(rule, records, key) && rule.condition.value(records[at[i]]) == Some(values[i])
  }

  lemma {:induction false} ValuesImage(value: Record -> Option<real>, records: seq<Record>, values: seq<real>)
    requires |values| == |records| && forall i :: 0 <= i < |records| ==> value(records[i]) == Some(values[i])
    ensures Values(value, records) == values
  {
    if records != [] {
      var n := |records| - 1;
      ValuesImage(value, records[..n], values[..n]);
      assert values == values[..n] + [values[n]];
    }
  }

  lemma {:induction false} GroupValues(rule: Rule, records: seq<Record>, key: string, at: seq<int>, values: seq<real>)
    requires rule.condition.PercentileThreshold? && rule.windowSeconds > 0 && ValuesAt(rule, records, key, at, values)
    ensures Values(rule.condition.value, Group(rule, Considered(rule, records), key)) == values
    ensures |Group(rule, Considered(rule, records), key)| == |values|
  {
    var picked := seq(|at|, i requires 0 <= i < |at| => records[at[i]]);
    var bt := FilterPicks(Counting(rule, records, key), records);
    GroupCounted(rule, records, key);
    PicksUnique(records, picked, Filter(Counting(rule, records, key), records), at, bt);
    ValuesImage(rule.condition.value, picked, values);
  }

  /** A percentile rule raises exactly the groups with values whose percentile reaches the limit, and reports it. */
  lemma PercentileTriggersExact(rule: Rule, records: seq<Record>, key: string, at: seq<int>, values: seq<real>)
    requires Outcome(rule, records).Success? && rule.condition.PercentileThreshold?
    requires ValuesAt(rule, records, key, at, values)
    ensures
      var metric := Percentile(values, rule.condition.percentile);
      && (Raised(Outcome(rule, records).value, key) <==> values != [] && metric >= rule.condition.limit)
      && Interpolated(values, rule.condition.percentile, metric)
      && forall t :: t in Outcome(rule, records).value && t.groupKey == key ==>
           t.metricValue == metric && t.matchCount == |values|
  {
    PercentileInterpolates(values, rule.condition.percentile);
    GroupValues(rule, records, key, at, values);
    PercentileRaised(rule, Considered(rule, records), key, values);
    PercentileReported(rule, Considered(rule, records), key, values);
  }

  lemma {:induction false} PercentileReported(rule: Rule, records: seq<Record>, key: string, values: seq<real>)
    requires rule.condition.PercentileThreshold? && rule.condition.percentile > 0.0
    requires values == Values(rule.condition.value, Group(rule, records, key))
    requires |values| == |Group(rule, records, key)|
    ensures forall t :: t in Triggers(rule, records) && t.groupKey == key ==>
              t.metricValue == Percentile(values, rule.condition.percentile) && t.matchCount == |values|
  {
    TriggersOnePerKey(rule, records);
  }

  lemma {:induction false} PercentileRaised(rule: Rule, records: seq<Record>, key: string, values: seq<real>)
    requires rule.condition.PercentileThreshold? && rule.condition.percentile > 0.0
    requires values == Values(rule.condition.value, Group(rule, records, key))
    requires |values| == |Group(rule, records, key)|
    ensures Raised(Triggers(rule, records), key) <==>
            values != [] && Percentile(values, rule.condition.percentile) >= rule.condition.limit
  {
    RaisedIff(rule, records, key);
    PercentileReaches(rule, Group(rule, records, key));
  }

  lemma PercentileReaches(rule: Rule, group: seq<Record>)
    requires rule.condition.PercentileThreshold? && rule.condition.percentile > 0.0
    ensures Reaches(rule, group) <==>
            Percentile(Values(rule.condition.value, group), rule.condition.percentile) >= rule.condition.limit
  {
  }

  lemma RateReaches(rule: Rule, group: seq<Record>)
    requires rule.condition.RateThreshold? && rule.windowSeconds > 0
    ensures Reaches(rule, group) <==> |group| as real >= rule.condition.rate * rule.windowSeconds as real
  {
    QuotientReaches(|group| as real, rule.windowSeconds as real, rule.condition.rate);
  }

  lemma ProductPositive(a: real, b: real)
    requires 0.0 < a && 0.0 < b
    ensures 0.0 < a * b
  {
  }

  lemma QuotientReaches(count: real, window: real, rate: real)
    requires window > 0.0
    ensures count / window >= rate <==> count >= rate * window
  {
    var quotient := count / window;
    assert quotient * window == count;
    if quotient >= rate {
      ProductNonNegative(quotient - rate, window);
      assert (quotient - rate) * window == count - rate * window;
    } else {
      ProductPositive(rate - quotient, window);
      assert (rate - quotient) * window == rate * window - count;
    }
  }

  // ----- order: evaluation looks at the records as a multiset

  lemma PermutedMembers<T>(xs: seq<T>, ys: seq<T>)
    requires multiset(xs) == multiset(ys)
    ensures |xs| == |ys| && forall x :: x in xs <==> x in ys
  {
    assert |multiset(xs)| == |xs| && |multiset(ys)| == |ys|;
    forall x ensures x in xs <==> x in ys {
      assert x in multiset(xs) <==> x in multiset(ys);
    }
  }

  lemma {:induction false} WindowPermuted(xs: seq<Record>, ys: seq<Record>, windowSeconds: int)
    requires multiset(xs) == multiset(ys)
    ensures multiset(InWindow(xs, windowSeconds)) == multiset(InWindow(ys, windowSeconds))
  {
    PermutedMembers(xs, ys);
    if windowSeconds > 0 && xs != [] {
      assert Latest(xs) == Latest(ys);
      FilterPermuted(NotBefore(Cutoff(Latest(xs), windowSeconds)), xs, ys);
    }
  }

  lemma {:induction false} ValuesConcat(value: Record -> Option<real>, xs: seq<Record>, ys: seq<Record>)
    ensures Values(value, xs + ys) == Values(value, xs) + Values(value, ys)
  {
    if ys == [] {
      assert xs + ys == xs;
    } else {
      var n := |ys| - 1;
      ValuesConcat(value, xs, ys[..n]);
      assert (xs + ys)[..|xs| + n] == xs + ys[..n] && (xs + ys)[|xs| + n] == ys[n];
    }
  }

  /** Moving one record to the end moves its value to the end. */
  lemma ValuesMoved(value: Record -> Option<real>, before: seq<Record>, r: Record, after: seq<Record>)
    ensures multiset(Values(value, before + [r] + after)) == multiset(Values(value, (before + after) + [r]))
  {
    ValuesConcat(value, before, [r]);
    ValuesConcat(value, before + [r], after);
    ValuesConcat(value, before, after);
    ValuesConcat(value, before + after, [r]);
  }

  lemma ValuesSnoc(value: Record -> Option<real>, xs: seq<Record>, ys: seq<Record>, r: Record)
    requires multiset(Values(value, xs)) == multiset(Values(value, ys))
    ensures multiset(Values(value, xs + [r])) == multiset(Values(value, ys + [r]))
  {
    ValuesConcat(value, xs, [r]);
    ValuesConcat(value, ys, [r]);
  }

  lemma {:induction false} ValuesPermuted(value: Record -> Option<real>, xs: seq<Record>, ys: seq<Record>)
    requires multiset(xs) == multiset(ys)
    ensures multiset(Values(value, xs)) == multiset(Values(value, ys))
  {
    PermutedMembers(xs, ys);
    if xs != [] {
      var n, last := |xs| - 1, xs[|xs| - 1];
      assert xs == xs[..n] + [last];
      var before, after := TakeOut(ys, last);
      ValuesPermuted(value, xs[..n], before + after);
      ValuesSnoc(value, xs[..n], before + after, last);
      ValuesMoved(value, before, last, after);
    }
  }

  lemma {:induction false} GroupPermuted(rule: Rule, xs: seq<Record>, ys: seq<Record>, key: string)
    requires multiset(xs) == multiset(ys)
    ensures |Group(rule, xs, key)| == |Group(rule, ys, key)|
    ensures Metric(rule, Group(rule, xs, key)) == Metric(rule, Group(rule, ys, key))
  {
    FilterPermuted(OfGroup(rule, key), xs, ys);
    var g, h := Group(rule, xs, key), Group(rule, ys, key);
    PermutedMembers(g, h);
    match rule.condition {
      case PercentileThreshold(_, percentile, value) =>
        ValuesPermuted(value, g, h);
        if percentile > 0.0 {
          PercentileIgnoresOrder(Values(value, g), Values(value, h), percentile);
        }
      case _ =>
    }
  }

  lemma {:induction false} TriggersForPermuted(rule: Rule, xs: seq<Record>, ys: seq<Record>, keys: seq<string>)
    requires multiset(xs) == multiset(ys)
    ensures TriggersFor(rule, xs, keys) == TriggersFor(rule, ys, keys)
  {
    if keys != [] {
      var n := |keys| - 1;
      TriggersForPermuted(rule, xs, ys, keys[..n]);
      GroupPermuted(rule, xs, ys, keys[n]);
    }
  }

  /** Permuting the records changes nothing in the outcome, for any kind of rule. */
  lemma OutcomeIgnoresOrder(rule: Rule, xs: seq<Record>, ys: seq<Record>)
    requires multiset(xs) == multiset(ys)
    ensures Outcome(rule, xs) == Outcome(rule, ys)
  {
    WindowPermuted(xs, ys, rule.windowSeconds);
    var us, vs := Considered(rule, xs), Considered(rule, ys);
    PermutedMembers(us, vs);
    assert GroupKeys(rule, us) == GroupKeys(rule, vs);
    forall key ensures Reaches(rule, Group(rule, us, key)) == Reaches(rule, Group(rule, vs, key)) {
      GroupPermuted(rule, us, vs, key);
    }
    assert ReachingKeys(rule, us) == ReachingKeys(rule, vs);
    TriggersForPermuted(rule, us, vs, SortedKeys(ReachingKeys(rule, us)));
  }
}
