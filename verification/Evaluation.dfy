/** Rule evaluation over a slice of records: internal/alerts/evaluator.go.

    A rule arrives parsed. Its field filter, its pattern test, its group key and its
    value field are arbitrary functions of a record, so every result below holds for
    all of them. */
module Evaluation {
  import opened Wrappers
  import opened Units
  import opened Sequences
  import opened Ordering
  import opened Percentiles
  import opened Positions

  /** A normalized log record; timestamps are nanoseconds. */
  datatype Record = Record(timestamp: int, tenantId: int, ingestId: string, rawSizeBytes: nat,
                           attributes: map<string, string>)

  /** What a rule type compares, with its parsed threshold. Unparsable stands for every
      failure that depends on the rule alone: its JSON, its threshold text, its type. */
  datatype Condition =
    | Unparsable(reason: string)
    | CountThreshold(count: int)
    | PatternMatch(found: Record -> bool, count: int)
    | RateThreshold(rate: real)
    | PercentileThreshold(limit: real, percentile: real, value: Record -> Option<real>)

  datatype Rule = Rule(id: int, tenantId: int, windowSeconds: int, cooldownSeconds: int,
                       matches: Record -> bool, groupKey: Record -> string, condition: Condition)

  datatype Trigger = Trigger(ruleId: int, groupKey: string, matchCount: nat, metricValue: real,
                             threshold: real, windowSeconds: int, percentile: real)

  // ----- the event-time window

  function Later(s: int, t: int): int {
    if t > s then t else s
  }

  function Latest(records: seq<Record>): (latest: int)
    requires records != []
    ensures forall r :: r in records ==> r.timestamp <= latest
    ensures exists r :: r in records && r.timestamp == latest
  {
    var n := |records| - 1;
    assert records[n] in records;
    assert forall r :: r in records ==> r == records[n] || r in records[..n];
    if n == 0 then records[0].timestamp
    else
      assert forall r :: r in records[..n] ==> r in records;
      Later(Latest(records[..n]), records[n].timestamp)
  }

  function NotBefore(cutoff: int): Record -> bool {
    (r: Record) => r.timestamp >= cutoff
  }

  function Cutoff(latest: int, windowSeconds: int): int {
    latest - windowSeconds * NANOS_PER_SECOND
  }

  /** The records no older than the window before the newest one, in their order. */
  function InWindow(records: seq<Record>, windowSeconds: int): seq<Record> {
    if windowSeconds <= 0 || records == [] then records
    else Filter(NotBefore(Cutoff(Latest(records), windowSeconds)), records)
  }

  /** No record is later than this one by more than the window. */
  ghost predicate Recent(records: seq<Record>, r: Record, windowSeconds: int) {
    forall s :: s in records ==> s.timestamp - r.timestamp <= windowSeconds * 1_000_000_000
  }

  /** The windowed records are the recent ones, each as often as it occurs, in their order. */
  ghost predicate RecentOf(records: seq<Record>, windowSeconds: int, windowed: seq<Record>) {
    exists at :: Picks(records, windowed, at) &&
                 forall k :: 0 <= k < |records| ==> (k in at <==> Recent(records, records[k], windowSeconds))
  }

  lemma RecentIff(records: seq<Record>, r: Record, windowSeconds: int)
    requires records != []
    ensures Recent(records, r, windowSeconds) <==> NotBefore(Cutoff(Latest(records), windowSeconds))(r)
  {
  }

  lemma {:induction false} RecentOfIff(records: seq<Record>, windowSeconds: int, windowed: seq<Record>)
    requires windowSeconds > 0
    ensures RecentOf(records, windowSeconds, windowed) <==> windowed == InWindow(records, windowSeconds)
  {
    var keep := if records == [] then NotBefore(0) else NotBefore(Cutoff(Latest(records), windowSeconds));
    forall k | 0 <= k < |records| ensures Recent(records, records[k], windowSeconds) <==> keep(records[k]) {
      RecentIff(records, records[k], windowSeconds);
    }
    var at := FilterPicks(keep, records);
    if RecentOf(records, windowSeconds, windowed) {
      var bt :| Picks(records, windowed, bt) &&
                forall k :: 0 <= k < |records| ==> (k in bt <==> Recent(records, records[k], windowSeconds));
      PicksUnique(records, windowed, Filter(keep, records), bt, at);
    }
  }

  /** The window measured in nanoseconds between records: a record stays exactly when no other one is more than the
      window later. */
  lemma {:induction false} WindowIsRecent(records: seq<Record>, windowSeconds: int, windowed: seq<Record>)
    requires windowSeconds > 0
    ensures RecentOf(records, windowSeconds, windowed) <==> windowed == InWindow(records, windowSeconds)
    ensures forall r :: r in InWindow(records, windowSeconds) <==> r in records && Recent(records, r, windowSeconds)
    ensures forall r :: multiset(InWindow(records, windowSeconds))[r] ==
                        if Recent(records, r, windowSeconds) then multiset(records)[r] else 0
  {
    RecentOfIff(records, windowSeconds, windowed);
    forall r
      ensures r in InWindow(records, windowSeconds) <==> r in records && Recent(records, r, windowSeconds)
      ensures multiset(InWindow(records, windowSeconds))[r] ==
              if Recent(records, r, windowSeconds) then multiset(records)[r] else 0
    {
      if records != [] {
        var keep := NotBefore(Cutoff(Latest(records), windowSeconds));
        RecentIff(records, r, windowSeconds);
        FilterMember(keep, records, r);
        FilterMultiset(keep, records, r);
      }
    }
  }

  method LatestRecordTime(records: seq<Record>) returns (latest: int)
    ensures latest == if records == [] then ZERO_TIME else Latest(records)
  {
    if records == [] {
      return ZERO_TIME;
    }
    latest := records[0].timestamp;
    for i := 1 to |records|
      invariant latest == Latest(records[..i])
    {
      assert records[..i + 1][..i] == records[..i];
      if records[i].timestamp > latest {
        latest := records[i].timestamp;
      }
    }
    assert records[..|records|] == records;
  }

  method RecordsInWindow(records: seq<Record>, windowSeconds: int) returns (windowed: seq<Record>)
    ensures windowed == InWindow(records, windowSeconds)
  {
    if windowSeconds <= 0 || records == [] {
      return records;
    }
    var latest := LatestRecordTime(records);
    var cutoff := Cutoff(latest, windowSeconds);
    windowed := [];
    for i := 0 to |records|
      invariant windowed == Filter(NotBefore(cutoff), records[..i])
    {
      FilterPrefix(NotBefore(cutoff), records, i);
      assert records[i] in records;
      if !(records[i].timestamp < cutoff) && !(records[i].timestamp > latest) {
        windowed := windowed + [records[i]];
      }
    }
    assert records[..|records|] == records;
  }

  // ----- grouping

  /** Whether a record takes part in the rule at all. */
  predicate Selects(rule: Rule, r: Record) {
    && rule.matches(r)
    && (rule.condition.PatternMatch? ==> rule.condition.found(r))
    && (rule.condition.PercentileThreshold? ==> rule.condition.value(r).Some?)
  }

  function Selected(rule: Rule): Record -> bool {
    (r: Record) => Selects(rule, r)
  }

  function OfGroup(rule: Rule, key: string): Record -> bool {
    (r: Record) => Selects(rule, r) && rule.groupKey(r) == key
  }

  /** The selected records with the given group key. */
  function Group(rule: Rule, records: seq<Record>, key: string): seq<Record> {
    Filter(OfGroup(rule, key), records)
  }

  function GroupKeys(rule: Rule, records: seq<Record>): set<string> {
    set r | r in records && Selects(rule, r) :: rule.groupKey(r)
  }

  lemma GroupKeysPrefix(rule: Rule, records: seq<Record>, i: nat)
    requires i < |records|
    ensures GroupKeys(rule, records[..i + 1]) == GroupKeys(rule, records[..i]) +
              if Selects(rule, records[i]) then {rule.groupKey(records[i])} else {}
  {
    assert records[..i + 1] == records[..i] + [records[i]];
  }

  lemma GroupNonEmpty(rule: Rule, records: seq<Record>, key: string)
    ensures key in GroupKeys(rule, records) <==> Group(rule, records, key) != []
  {
    if key in GroupKeys(rule, records) {
      var r :| r in records && Selects(rule, r) && rule.groupKey(r) == key;
      FilterMember(OfGroup(rule, key), records, r);
    } else if Group(rule, records, key) != [] {
      FilterMember(OfGroup(rule, key), records, Group(rule, records, key)[0]);
    }
  }

  /** The numeric values of a percentile rule, skipping records without one. */
  function Values(value: Record -> Option<real>, records: seq<Record>): seq<real> {
    if records == [] then []
    else
      var n := |records| - 1;
      Values(value, records[..n]) + match value(records[n]) case Some(v) => [v] case None => []
  }

  // ----- the triggers a rule should raise

  ghost function Metric(rule: Rule, group: seq<Record>): real {
    match rule.condition
    case RateThreshold(_) => if rule.windowSeconds > 0 then |group| as real / rule.windowSeconds as real else 0.0
    case PercentileThreshold(_, percentile, value) =>
      if percentile > 0.0 then Percentile(Values(value, group), percentile) else 0.0
    case _ => 0.0
  }

  ghost predicate Reaches(rule: Rule, group: seq<Record>) {
    match rule.condition
    case Unparsable(_) => false
    case CountThreshold(count) => |group| >= count
    case PatternMatch(_, count) => |group| >= count
    case RateThreshold(rate) => Metric(rule, group) >= rate
    case PercentileThreshold(limit, _, _) => Metric(rule, group) >= limit
  }

  ghost function TriggerFor(rule: Rule, key: string, group: seq<Record>): Trigger {
    match rule.condition
    case RateThreshold(rate) =>
      Trigger(rule.id, key, |group|, Metric(rule, group), rate, rule.windowSeconds, 0.0)
    case PercentileThreshold(limit, percentile, _) =>
      Trigger(rule.id, key, |group|, Metric(rule, group), limit, rule.windowSeconds, percentile)
    case _ =>
      Trigger(rule.id, key, |group|, 0.0, 0.0, 0, 0.0)
  }

  ghost function ReachingKeys(rule: Rule, records: seq<Record>): set<string> {
    set key | key in GroupKeys(rule, records) && Reaches(rule, Group(rule, records, key))
  }

  ghost function SortedKeys(keys: set<string>): (sorted: seq<string>)
    ensures Ascending(Below, sorted) && Elements(sorted) == keys
  {
    BelowIsStrictOrder();
    Sorted(Below, keys)
  }

  ghost function TriggersFor(rule: Rule, records: seq<Record>, keys: seq<string>): (ts: seq<Trigger>)
    ensures |ts| == |keys|
    ensures forall i :: 0 <= i < |keys| ==> ts[i] == TriggerFor(rule, keys[i], Group(rule, records, keys[i]))
  {
    if keys == [] then []
    else
      var n := |keys| - 1;
      TriggersFor(rule, records, keys[..n]) + [TriggerFor(rule, keys[n], Group(rule, records, keys[n]))]
  }

  /** One trigger for each group that reaches the threshold, in ascending key order. */
  ghost function Triggers(rule: Rule, records: seq<Record>): seq<Trigger> {
    TriggersFor(rule, records, SortedKeys(ReachingKeys(rule, records)))
  }

  /** The failures that depend on the rule alone. */
  function Rejection(rule: Rule): Option<string> {
    match rule.condition
    case Unparsable(reason) => Some(reason)
    case CountThreshold(count) => if count <= 0 then Some("threshold must be positive") else None
    case PatternMatch(_, count) => if count <= 0 then Some("threshold must be positive") else None
    case RateThreshold(rate) =>
      if rate < 0.0 then Some("threshold must be a finite non-negative number")
      else if rule.windowSeconds <= 0 then Some("window_seconds must be positive")
      else None
    case PercentileThreshold(limit, percentile, _) =>
      if limit < 0.0 then Some("threshold must be a finite non-negative number")
      else if rule.windowSeconds <= 0 then Some("window_seconds must be positive")
      else if percentile <= 0.0 || percentile >= 100.0 then Some("percentile must lie between 0 and 100")
      else None
  }

  predicate Windowed(rule: Rule) {
    rule.condition.RateThreshold? || rule.condition.PercentileThreshold?
  }

  /** The records an evaluation looks at: metric rules restrict them to the window again. */
  function Considered(rule: Rule, records: seq<Record>): seq<Record> {
    if Windowed(rule) then InWindow(records, rule.windowSeconds) else records
  }

  ghost function Outcome(rule: Rule, records: seq<Record>): Result<seq<Trigger>> {
    match Rejection(rule)
    case Some(reason) => Failure(reason)
    case None => Success(Triggers(rule, Considered(rule, records)))
  }

  // ----- the evaluator itself

  method Evaluate(rule: Rule, records: seq<Record>) returns (result: Result<seq<Trigger>>)
    ensures result == Outcome(rule, records)
  {
    var rejection := Rejection(rule);
    if rejection.Some? {
      return Failure(rejection.value);
    }
    match rule.condition {
      case CountThreshold(count) =>
        var triggers := EvaluateCounts(rule, records, count);
        result := Success(triggers);
      case PatternMatch(_, count) =>
        var triggers := EvaluateCounts(rule, records, count);
        result := Success(triggers);
      case RateThreshold(rate) =>
        var triggers := EvaluateRate(rule, records, rate);
        result := Success(triggers);
      case PercentileThreshold(limit, percentile, value) =>
        var triggers := EvaluatePercentile(rule, records, limit, percentile, value);
        result := Success(triggers);
    }
  }

  method CountGroups(rule: Rule, records: seq<Record>) returns (groups: map<string, nat>)
    ensures groups.Keys == GroupKeys(rule, records)
    ensures forall key :: key in groups ==> groups[key] == |Group(rule, records, key)|
  {
    groups := map[];
    for i := 0 to |records|
      invariant groups.Keys == GroupKeys(rule, records[..i])
      invariant forall key :: key in groups ==> groups[key] == |Group(rule, records[..i], key)|
    {
      ghost var before := groups;
      GroupKeysPrefix(rule, records, i);
      if Selects(rule, records[i]) {
        var key := rule.groupKey(records[i]);
        groups := groups[key := (if key in groups then groups[key] else 0) + 1];
      }
      forall key | key in groups ensures groups[key] == |Group(rule, records[..i + 1], key)| {
        FilterPrefix(OfGroup(rule, key), records, i);
        GroupNonEmpty(rule, records[..i], key);
      }
    }
    assert records[..|records|] == records;
  }

  method EvaluateCounts(rule: Rule, records: seq<Record>, threshold: int) returns (triggers: seq<Trigger>)
    requires rule.condition.CountThreshold? || rule.condition.PatternMatch?
    requires rule.condition.count == threshold
    ensures triggers == Triggers(rule, records)
  {
    var groups := CountGroups(rule, records);
    BelowIsStrictOrder();
    var reaching := set key | key in groups && groups[key] >= threshold;
    var keys := SortSet(Below, reaching);
    assert reaching == ReachingKeys(rule, records);
    AscendingUnique(Below, keys, SortedKeys(reaching));
    triggers := [];
    for i := 0 to |keys|
      invariant triggers == TriggersFor(rule, records, keys[..i])
    {
      assert keys[..i + 1][..i] == keys[..i];
      assert keys[i] in Elements(keys);
      triggers := triggers + [Trigger(rule.id, keys[i], groups[keys[i]], 0.0, 0.0, 0, 0.0)];
    }
    assert keys[..|keys|] == keys;
  }

  /** The triggers of the groups among the first i keys that reach the threshold. */
  ghost predicate KeptUpTo(rule: Rule, records: seq<Record>, keys: seq<string>, i: nat, kept: seq<string>,
                           triggers: seq<Trigger>)
    requires i <= |keys|
  {
    && Ascending(Below, kept)
    && (forall k :: k in kept <==> k in keys[..i] && Reaches(rule, Group(rule, records, k)))
    && triggers == TriggersFor(rule, records, kept)
  }

  ghost function TriggerIf(rule: Rule, records: seq<Record>, key: string): Option<Trigger> {
    var group := Group(rule, records, key);
    if Reaches(rule, group) then Some(TriggerFor(rule, key, group)) else None
  }

  lemma KeepOneMore(rule: Rule, records: seq<Record>, keys: seq<string>, i: nat, kept: seq<string>,
                    triggers: seq<Trigger>)
    requires i < |keys| && Ascending(Below, keys) && KeptUpTo(rule, records, keys, i, kept, triggers)
    ensures var trigger := TriggerIf(rule, records, keys[i]);
            if trigger.Some? then KeptUpTo(rule, records, keys, i + 1, kept + [keys[i]], triggers + [trigger.value])
            else KeptUpTo(rule, records, keys, i + 1, kept, triggers)
  {
    assert keys[..i + 1] == keys[..i] + [keys[i]];
    AppendAscending(kept, keys, i);
    TriggersOneMore(rule, records, kept, keys[i]);
  }

  lemma TriggersOneMore(rule: Rule, records: seq<Record>, keys: seq<string>, key: string)
    ensures TriggersFor(rule, records, keys + [key]) ==
            TriggersFor(rule, records, keys) + [TriggerFor(rule, key, Group(rule, records, key))]
  {
    assert (keys + [key])[..|keys|] == keys;
  }

  lemma KeptAll(rule: Rule, records: seq<Record>, keys: seq<string>, kept: seq<string>, triggers: seq<Trigger>)
    requires KeptUpTo(rule, records, keys, |keys|, kept, triggers) && Elements(keys) == GroupKeys(rule, records)
    ensures triggers == Triggers(rule, records)
  {
    KeptAreReaching(rule, records, keys, kept);
  }

  method RateTrigger(rule: Rule, ghost windowed: seq<Record>, key: string, count: nat, rate: real)
      returns (trigger: Option<Trigger>)
    requires rule.condition == RateThreshold(rate) && rule.windowSeconds > 0 && count == |Group(rule, windowed, key)|
    ensures trigger == TriggerIf(rule, windowed, key)
  {
    var metric := count as real / rule.windowSeconds as real;
    if metric >= rate {
      return Some(Trigger(rule.id, key, count, metric, rate, rule.windowSeconds, 0.0));
    }
    return None;
  }

  method EvaluateRate(rule: Rule, records: seq<Record>, rate: real) returns (triggers: seq<Trigger>)
    requires rule.condition == RateThreshold(rate) && rule.windowSeconds > 0
    ensures triggers == Triggers(rule, InWindow(records, rule.windowSeconds))
  {
    var windowed := RecordsInWindow(records, rule.windowSeconds);
    var groups := CountGroups(rule, windowed);
    BelowIsStrictOrder();
    var keys := SortSet(Below, groups.Keys);
    triggers := [];
    ghost var kept := [];
    for i := 0 to |keys|
      invariant KeptUpTo(rule, windowed, keys, i, kept, triggers)
    {
      assert keys[i] in Elements(keys);
      KeepOneMore(rule, windowed, keys, i, kept, triggers);
      var trigger := RateTrigger(rule, windowed, keys[i], groups[keys[i]], rate);
      if trigger.Some? {
        triggers, kept := triggers + [trigger.value], kept + [keys[i]];
      }
    }
    KeptAll(rule, windowed, keys, kept, triggers);
  }

  lemma AppendAscending(kept: seq<string>, keys: seq<string>, i: nat)
    requires i < |keys| && Ascending(Below, keys) && Ascending(Below, kept)
    requires forall k :: k in kept ==> k in keys[..i]
    ensures Ascending(Below, kept + [keys[i]])
  {
    forall j | 0 <= j < |kept| ensures Below(kept[j], keys[i]) {
      assert kept[j] in keys[..i];
    }
  }

  lemma KeptAreReaching(rule: Rule, records: seq<Record>, keys: seq<string>, kept: seq<string>)
    requires Ascending(Below, kept) && Elements(keys) == GroupKeys(rule, records)
    requires forall k :: k in kept <==> k in keys[..|keys|] && Reaches(rule, Group(rule, records, k))
    ensures kept == SortedKeys(ReachingKeys(rule, records))
  {
    assert keys[..|keys|] == keys;
    forall k ensures k in Elements(kept) <==> k in ReachingKeys(rule, records) {
      assert k in Elements(keys) <==> k in keys;
    }
    BelowIsStrictOrder();
    AscendingUnique(Below, kept, SortedKeys(ReachingKeys(rule, records)));
  }

  ghost predicate ValuesCollected(rule: Rule, records: seq<Record>, value: Record -> Option<real>, groups: map<string,
                                  seq<real>>)
  {
    && groups.Keys == GroupKeys(rule, records)
    && forall key :: key in groups ==>
         groups[key] == Values(value, Group(rule, records, key)) && |groups[key]| == |Group(rule, records, key)|
  }

  function CollectValue(rule: Rule, value: Record -> Option<real>, groups: map<string, seq<real>>, r: Record)
      : map<string, seq<real>>
  {
    if rule.matches(r) && value(r).Some? then
      var key := rule.groupKey(r);
      groups[key := (if key in groups then groups[key] else []) + [value(r).value]]
    else groups
  }

  lemma CollectOneMore(rule: Rule, records: seq<Record>, value: Record -> Option<real>, groups: map<string, seq<real>>,
                       i: nat)
    requires rule.condition.PercentileThreshold? && rule.condition.value == value
    requires i < |records| && ValuesCollected(rule, records[..i], value, groups)
    ensures ValuesCollected(rule, records[..i + 1], value, CollectValue(rule, value, groups, records[i]))
  {
    CollectedKeys(rule, records, value, groups, i);
    var after := CollectValue(rule, value, groups, records[i]);
    forall key | key in after
      ensures after[key] == Values(value, Group(rule, records[..i + 1], key))
      ensures |after[key]| == |Group(rule, records[..i + 1], key)|
    {
      CollectOneMoreAt(rule, records, value, groups, i, key);
    }
  }

  lemma CollectedKeys(rule: Rule, records: seq<Record>, value: Record -> Option<real>, groups: map<string, seq<real>>,
                      i: nat)
    requires rule.condition.PercentileThreshold? && rule.condition.value == value
    requires i < |records| && groups.Keys == GroupKeys(rule, records[..i])
    ensures CollectValue(rule, value, groups, records[i]).Keys == GroupKeys(rule, records[..i + 1])
  {
    GroupKeysPrefix(rule, records, i);
  }

  lemma CollectOneMoreAt(rule: Rule, records: seq<Record>, value: Record -> Option<real>,
                         groups: map<string, seq<real>>, i: nat, key: string)
    requires rule.condition.PercentileThreshold? && rule.condition.value == value
    requires i < |records| && ValuesCollected(rule, records[..i], value, groups)
    requires key in CollectValue(rule, value, groups, records[i])
    ensures var values, group := CollectValue(rule, value, groups, records[i])[key], Group(rule, records[..i + 1], key);
            values == Values(value, group) && |values| == |group|
  {
    var before, after := Group(rule, records[..i], key), Group(rule, records[..i + 1], key);
    ValuesPrefix(rule, records, i, key, value);
    if OfGroup(rule, key)(records[i]) {
      if key !in groups {
        GroupNonEmpty(rule, records[..i], key);
        assert before == [];
      }
      assert |after| == |before| + 1;
    } else {
      assert key in groups && after == before;
    }
  }

  method CollectValues(rule: Rule, records: seq<Record>, value: Record -> Option<real>)
      returns (groups: map<string, seq<real>>)
    requires rule.condition.PercentileThreshold? && rule.condition.value == value
    ensures ValuesCollected(rule, records, value, groups)
  {
    groups := map[];
    for i := 0 to |records|
      invariant ValuesCollected(rule, records[..i], value, groups)
    {
      CollectOneMore(rule, records, value, groups, i);
      groups := CollectValue(rule, value, groups, records[i]);
    }
    assert records[..|records|] == records;
  }

  lemma ValuesPrefix(rule: Rule, records: seq<Record>, i: nat, key: string, value: Record -> Option<real>)
    requires i < |records|
    ensures
      var before, after := Group(rule, records[..i], key), Group(rule, records[..i + 1], key);
      if OfGroup(rule, key)(records[i])
      then
        after == before + [records[i]] &&
        Values(value, after) == Values(value, before) + match value(records[i]) case Some(v) => [v] case None => []
      else after == before
  {
    FilterPrefix(OfGroup(rule, key), records, i);
    var before := Group(rule, records[..i], key);
    assert (before + [records[i]])[..|before|] == before;
  }

  method PercentileTriggerIf(rule: Rule, ghost windowed: seq<Record>, key: string, values: seq<real>, limit: real,
                             percentile: real)
      returns (trigger: Option<Trigger>)
    requires rule.condition.PercentileThreshold? && rule.condition.limit == limit
    requires rule.condition.percentile == percentile && percentile > 0.0
    requires values == Values(rule.condition.value, Group(rule, windowed, key))
    requires |values| == |Group(rule, windowed, key)|
    ensures trigger == TriggerIf(rule, windowed, key)
  {
    var metric := ComputePercentile(values, percentile);
    PercentileTrigger(rule, windowed, key, values, metric);
    if metric >= limit {
      return Some(Trigger(rule.id, key, |values|, metric, limit, rule.windowSeconds, percentile));
    }
    return None;
  }

  method EvaluatePercentile(rule: Rule, records: seq<Record>, limit: real, percentile: real,
                            value: Record -> Option<real>) returns (triggers: seq<Trigger>)
    requires rule.condition.PercentileThreshold? && rule.windowSeconds > 0 && percentile > 0.0
    requires rule.condition.limit == limit && rule.condition.percentile == percentile && rule.condition.value == value
    ensures triggers == Triggers(rule, InWindow(records, rule.windowSeconds))
  {
    var windowed := RecordsInWindow(records, rule.windowSeconds);
    var groups := CollectValues(rule, windowed, value);
    BelowIsStrictOrder();
    var keys := SortSet(Below, groups.Keys);
    triggers := [];
    ghost var kept := [];
    for i := 0 to |keys|
      invariant KeptUpTo(rule, windowed, keys, i, kept, triggers)
    {
      assert keys[i] in Elements(keys);
      KeepOneMore(rule, windowed, keys, i, kept, triggers);
      var trigger := PercentileTriggerIf(rule, windowed, keys[i], groups[keys[i]], limit, percentile);
      if trigger.Some? {
        triggers, kept := triggers + [trigger.value], kept + [keys[i]];
      }
    }
    KeptAll(rule, windowed, keys, kept, triggers);
  }

  lemma PercentileTrigger(rule: Rule, records: seq<Record>, key: string, values: seq<real>, metric: real)
    requires rule.condition.PercentileThreshold? && rule.condition.percentile > 0.0
    requires values == Values(rule.condition.value, Group(rule, records, key))
    requires |values| == |Group(rule, records, key)| && metric == Percentile(values, rule.condition.percentile)
    ensures Reaches(rule, Group(rule, records, key)) <==> metric >= rule.condition.limit
    ensures TriggerFor(rule, key, Group(rule, records, key)) ==
              Trigger(rule.id, key, |values|, metric, rule.condition.limit, rule.windowSeconds,
                      rule.condition.percentile)
  {
  }
}
