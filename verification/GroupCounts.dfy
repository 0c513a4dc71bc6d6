/** What shared group keys do to the counts: records of different groups are counted as one group. */
module GroupCounts {
  import opened Wrappers
  import opened Sequences
  import opened Evaluation
  import opened EvaluationLaws
  import opened GroupKeys

  /** The values of a record's fields; target reads one field of it. */
  function Read(fields: seq<string>, target: (Record, string) -> string, r: Record): (values: seq<string>)
    ensures |values| == |fields| && forall i :: 0 <= i < |fields| ==> values[i] == target(r, fields[i])
  {
    seq(|fields|, i requires 0 <= i < |fields| => target(r, fields[i]))
  }

  /** The rule groups by these fields. */
  ghost predicate GroupsBy(rule: Rule, fields: seq<string>, target: (Record, string) -> string) {
    forall r :: rule.groupKey(r) == GroupKey(fields, Read(fields, target, r))
  }

  /** The matching records with exactly these values. */
  function OfValues(rule: Rule, fields: seq<string>, target: (Record, string) -> string, values: seq<string>)
      : Record -> bool
  {
    (r: Record) => Selects(rule, r) && Read(fields, target, r) == values
  }

  /** The matching records with other values under the same key. */
  function Mistaken(rule: Rule, fields: seq<string>, target: (Record, string) -> string,
                    values: seq<string>): Record -> bool
    requires |fields| == |values|
  {
    (r: Record) => Selects(rule, r) && SharesKey(fields, values, Read(fields, target, r))
  }

  /** A group is counted with everything that shares its key. */
  lemma GroupSplits(rule: Rule, fields: seq<string>, target: (Record, string) -> string, records: seq<Record>,
                    values: seq<string>)
    requires GroupsBy(rule, fields, target) && |fields| == |values|
    ensures |Group(rule, records, GroupKey(fields, values))| ==
            |Filter(OfValues(rule, fields, target, values), records)| +
            |Filter(Mistaken(rule, fields, target, values), records)|
  {
    FilterSplit(OfGroup(rule, GroupKey(fields, values)), OfValues(rule, fields, target, values),
                Mistaken(rule, fields, target, values), records);
  }

  lemma {:induction false} FilterCovers<T(!new)>(p: T -> bool, q: T -> bool, xs: seq<T>)
    requires forall x :: p(x) ==> q(x)
    ensures |Filter(p, xs)| <= |Filter(q, xs)|
  {
    if xs != [] {
      FilterCovers(p, q, xs[..|xs| - 1]);
    }
  }

  /** The group holds exactly the records with its values if and only if no matching record is mistaken for one. */
  lemma GroupExactIff(rule: Rule, fields: seq<string>, target: (Record, string) -> string, records: seq<Record>,
                      values: seq<string>)
    requires GroupsBy(rule, fields, target) && |fields| == |values|
    ensures |Group(rule, records, GroupKey(fields, values))| ==
            |Filter(OfValues(rule, fields, target, values), records)| <==>
              forall r :: r in records ==> !Mistaken(rule, fields, target, values)(r)
  {
    var mistaken := Mistaken(rule, fields, target, values);
    GroupSplits(rule, fields, target, records, values);
    if Filter(mistaken, records) != [] {
      FilterMember(mistaken, records, Filter(mistaken, records)[0]);
    } else {
      forall r | r in records ensures !mistaken(r) {
        FilterMember(mistaken, records, r);
      }
    }
  }

  /** Two groups under one key are counted as one, so that a count rule fires for them together though neither
      reaches the threshold alone. */
  lemma MergedGroupsTrigger(rule: Rule, fields: seq<string>, target: (Record, string) -> string, records: seq<Record>,
                            values: seq<string>, others: seq<string>)
    requires GroupsBy(rule, fields, target) && |fields| == |values| && SharesKey(fields, values, others)
    ensures var both := |Filter(OfValues(rule, fields, target, values), records)| +
                        |Filter(OfValues(rule, fields, target, others), records)|;
            && |Group(rule, records, GroupKey(fields, values))| >= both
            && (rule.condition.CountThreshold? && rule.condition.count >= 1 && both >= rule.condition.count ==>
                  && Outcome(rule, records).Success?
                  && Raised(Outcome(rule, records).value, GroupKey(fields, values)))
  {
    GroupSplits(rule, fields, target, records, values);
    FilterCovers(OfValues(rule, fields, target, others), Mistaken(rule, fields, target, values), records);
    if rule.condition.CountThreshold? && rule.condition.count >= 1 {
      CountTriggersExact(rule, records, GroupKey(fields, values));
      GroupCounted(rule, records, GroupKey(fields, values));
    }
  }
}
