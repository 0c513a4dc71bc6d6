/** The group key of internal/alerts/evaluator.go: the fields of a record, each with its value, joined by bars. The
    key stands for the group it is made from unless a value other than the last contains a bar. */
module GroupKeys {
  import opened Wrappers

  const ALL := "scope=all"

  /** What is written for one field. */
  function Part(field: string, value: string): string {
    field + "=" + value
  }

  function GroupKey(fields: seq<string>, values: seq<string>): string
    requires |fields| == |values|
  {
    if fields == [] then ALL
    else if |fields| == 1 then Part(fields[0], values[0])
    else Part(fields[0], values[0]) + "|" + GroupKey(fields[1..], values[1..])
  }

  /** The text of the key: every field with its value after an equals sign, bars between, and a text of its own when
      there are no fields. */
  lemma KeyText(field: string, value: string, fields: seq<string>, values: seq<string>)
    requires |fields| == |values|
    ensures GroupKey([], []) == "scope=all" && GroupKey([field], [value]) == field + "=" + value
    ensures fields != [] ==>
              GroupKey([field] + fields, [value] + values) == field + "=" + value + "|" + GroupKey(fields, values)
  {
    if fields != [] {
      var fs, vs := [field] + fields, [value] + values;
      assert fs[1..] == fields && vs[1..] == values;
    }
  }

  /** buildGroup: reads each field and joins the parts. */
  method BuildGroup(fields: seq<string>, target: string -> string) returns (values: seq<string>, key: string)
    ensures |values| == |fields| && forall i :: 0 <= i < |fields| ==> values[i] == target(fields[i])
    ensures key == GroupKey(fields, values)
  {
    values := [];
    for i := 0 to |fields|
      invariant |values| == i && forall j :: 0 <= j < i ==> values[j] == target(fields[j])
    {
      values := values + [target(fields[i])];
    }
    if fields == [] {
      return values, ALL;
    }
    var n := |fields| - 1;
    key := Part(fields[n], values[n]);
    assert fields[n..] == [fields[n]] && values[n..] == [values[n]];
    for i := n downto 0
      invariant key == GroupKey(fields[i..], values[i..])
    {
      key := Part(fields[i], values[i]) + "|" + key;
      assert fields[i..][1..] == fields[i + 1..] && values[i..][1..] == values[i + 1..];
    }
    assert fields[0..] == fields && values[0..] == values;
  }

  predicate BarFree(values: seq<string>) {
    forall i :: 0 <= i < |values| - 1 ==> '|' !in values[i]
  }

  /** A common head is followed by a common rest. */
  lemma CutHead(head: string, a: string, b: string)
    requires head + a == head + b
    ensures a == b
  {
    assert a == (head + a)[|head|..] && b == (head + b)[|head|..];
  }

  lemma FirstBar(a: string, rest: string)
    requires '|' !in a
    ensures var text := a + "|" + rest;
            text[|a|] == '|' && forall i :: 0 <= i < |a| ==> text[i] != '|'
  {
  }

  /** Two texts without a bar, each followed by a bar, that begin the same text are equal, and so are the rests. */
  lemma CutAtBar(a: string, rest: string, b: string, other: string)
    requires '|' !in a && '|' !in b && a + "|" + rest == b + "|" + other
    ensures a == b && rest == other
  {
    var x, y := a + "|" + rest, b + "|" + other;
    FirstBar(a, rest);
    FirstBar(b, other);
    assert |a| == |b|;
    assert x[..|a|] == a && y[..|b|] == b;
    assert x[|a| + 1..] == rest && y[|b| + 1..] == other;
  }

  /** Under the same fields two groups share their key exactly when they agree on every field, as long as no value but
      the last contains a bar. With one field, or none, nothing is asked. */
  lemma {:induction false} GroupKeyDetermines(fields: seq<string>, values: seq<string>, others: seq<string>)
    requires |fields| == |values| == |others| && BarFree(values) && BarFree(others)
    ensures GroupKey(fields, values) == GroupKey(fields, others) <==> values == others
  {
    if |fields| == 1 {
      if GroupKey(fields, values) == GroupKey(fields, others) {
        CutHead(fields[0] + "=", values[0], others[0]);
      }
    } else if fields != [] {
      assert BarFree(values[1..]) && BarFree(others[1..]);
      GroupKeyDetermines(fields[1..], values[1..], others[1..]);
      if GroupKey(fields, values) == GroupKey(fields, others) {
        var rest, other := GroupKey(fields[1..], values[1..]), GroupKey(fields[1..], others[1..]);
        CutFirst(fields[0], values[0], rest, others[0], other);
      }
      assert values == [values[0]] + values[1..] && others == [others[0]] + others[1..];
    }
  }

  lemma CutFirst(field: string, a: string, rest: string, b: string, other: string)
    requires '|' !in a && '|' !in b && Part(field, a) + "|" + rest == Part(field, b) + "|" + other
    ensures a == b && rest == other
  {
    var head := field + "=";
    assert Part(field, a) + "|" + rest == head + (a + "|" + rest);
    assert Part(field, b) + "|" + other == head + (b + "|" + other);
    CutHead(head, a + "|" + rest, b + "|" + other);
    CutAtBar(a, rest, b, other);
  }

  function Separator(second: string): string {
    "|" + second + "="
  }

  /** The key of two fields after the first equals sign. */
  function Body(second: string, x: string, y: string): string {
    x + Separator(second) + y
  }

  predicate SeparatorAt(second: string, body: string, p: nat) {
    p + |Separator(second)| <= |body| && body[p..p + |Separator(second)|] == Separator(second)
  }

  // ----- where the values start

  /** The position of the i-th value in the key. */
  function ValueAt(fields: seq<string>, values: seq<string>, i: nat): nat
    requires i < |fields| == |values|
  {
    if i == 0 then |fields[0]| + 1
    else ValueAt(fields, values, i - 1) + |values[i - 1]| + |Separator(fields[i])|
  }

  /** At this position the text has the value and then the mark. */
  predicate Slot(text: string, at: nat, value: string, mark: string) {
    && at + |value| + |mark| <= |text| && text[at..at + |value|] == value
    && text[at + |value|..at + |value| + |mark|] == mark
  }

  /** What follows the i-th value: the next separator, or nothing. */
  function MarkAfter(fields: seq<string>, i: nat): string {
    if i + 1 < |fields| then Separator(fields[i + 1]) else ""
  }

  /** The i-th value, then the next separator or the end of the key. */
  predicate Laid(fields: seq<string>, values: seq<string>, key: string, i: nat)
    requires i < |fields| == |values|
  {
    var at := ValueAt(fields, values, i);
    && Slot(key, at, values[i], MarkAfter(fields, i))
    && (i + 1 == |fields| ==> at + |values[i]| == |key|)
  }

  lemma KeyLonger(fields: seq<string>, values: seq<string>)
    requires 1 < |fields| == |values|
    ensures var head := Part(fields[0], values[0]) + "|";
            && GroupKey(fields, values) == head + GroupKey(fields[1..], values[1..])
            && |head| == |fields[0]| + 1 + |values[0]| + 1
  {
  }

  lemma {:induction false} ValueAtTail(fields: seq<string>, values: seq<string>, i: nat)
    requires 1 < |fields| == |values| && 0 < i < |fields|
    ensures ValueAt(fields, values, i)
            == |fields[0]| + 1 + |values[0]| + 1 + ValueAt(fields[1..], values[1..], i - 1)
  {
    if i > 1 {
      ValueAtTail(fields, values, i - 1);
    }
  }

  lemma KeyStarts(fields: seq<string>, values: seq<string>)
    requires 0 < |fields| == |values|
    ensures |fields[0]| + 1 <= |GroupKey(fields, values)|
    ensures GroupKey(fields, values)[..|fields[0]| + 1] == fields[0] + "="
  {
  }

  lemma SlotFirst(head: string, value: string, tail: string, mark: string)
    requires |mark| <= |tail| && tail[..|mark|] == mark
    ensures Slot(head + value + tail, |head|, value, mark)
  {
  }

  lemma SlotShifts(head: string, text: string, at: nat, value: string, mark: string)
    requires Slot(text, at, value, mark)
    ensures Slot(head + text, |head| + at, value, mark)
  {
  }

  lemma FirstLaid(fields: seq<string>, values: seq<string>)
    requires 0 < |fields| == |values|
    ensures Laid(fields, values, GroupKey(fields, values), 0)
  {
    if |fields| == 1 {
      SlotFirst(fields[0] + "=", values[0], "", "");
      assert (fields[0] + "=") + values[0] + "" == Part(fields[0], values[0]);
    } else {
      FirstOfMany(fields, values);
    }
  }

  lemma FirstOfMany(fields: seq<string>, values: seq<string>)
    requires 1 < |fields| == |values|
    ensures Slot(GroupKey(fields, values), |fields[0]| + 1, values[0], Separator(fields[1]))
  {
    var rest := GroupKey(fields[1..], values[1..]);
    KeyStarts(fields[1..], values[1..]);
    SeparatorFirst(fields[1], rest);
    SlotFirst(fields[0] + "=", values[0], "|" + rest, Separator(fields[1]));
    KeyLonger(fields, values);
    Regroup(fields[0], values[0], rest);
  }

  lemma Regroup(field: string, value: string, rest: string)
    ensures Part(field, value) + "|" + rest == (field + "=") + value + ("|" + rest)
  {
  }

  lemma SeparatorFirst(field: string, rest: string)
    requires |field| + 1 <= |rest| && rest[..|field| + 1] == field + "="
    ensures |Separator(field)| <= |"|" + rest| && ("|" + rest)[..|Separator(field)|] == Separator(field)
  {
    assert rest == (field + "=") + rest[|field| + 1..];
    assert "|" + rest == Separator(field) + rest[|field| + 1..];
  }

  lemma {:induction false} KeyLaid(fields: seq<string>, values: seq<string>, i: nat)
    requires i < |fields| == |values|
    ensures Laid(fields, values, GroupKey(fields, values), i)
  {
    if i == 0 {
      FirstLaid(fields, values);
    } else {
      var head, rest := Part(fields[0], values[0]) + "|", GroupKey(fields[1..], values[1..]);
      KeyLaid(fields[1..], values[1..], i - 1);
      KeyLonger(fields, values);
      ValueAtTail(fields, values, i);
      LaidShifts(fields, values, head, rest, ValueAt(fields[1..], values[1..], i - 1), i);
    }
  }

  lemma LaidShifts(fields: seq<string>, values: seq<string>, head: string, rest: string, at: nat, i: nat)
    requires i < |fields| == |values| && ValueAt(fields, values, i) == |head| + at
    requires Slot(rest, at, values[i], MarkAfter(fields, i)) && (i + 1 == |fields| ==> at + |values[i]| == |rest|)
    ensures Laid(fields, values, head + rest, i)
  {
    SlotShifts(head, rest, at, values[i], MarkAfter(fields, i));
  }

  /** Where a value starts and what comes after it, in numbers. */
  lemma StartBounds(fields: seq<string>, values: seq<string>, i: nat)
    requires i < |fields| == |values|
    ensures ValueAt(fields, values, i) + |values[i]| <= |GroupKey(fields, values)|
    ensures i + 1 == |fields| ==> ValueAt(fields, values, i) + |values[i]| == |GroupKey(fields, values)|
    ensures i + 1 < |fields| ==>
              ValueAt(fields, values, i + 1) == ValueAt(fields, values, i) + |values[i]| + |Separator(fields[i + 1])|
  {
    KeyLaid(fields, values, i);
  }

  // ----- two lists of values under one key

  predicate SharesKey(fields: seq<string>, values: seq<string>, others: seq<string>)
    requires |fields| == |values|
  {
    |others| == |values| && others != values && GroupKey(fields, others) == GroupKey(fields, values)
  }

  /** Two values could be cut elsewhere: the separator between them occurs a second time. */
  ghost predicate Ambiguous(second: string, x: string, y: string) {
    exists p: nat :: p != |x| && SeparatorAt(second, Body(second, x, y), p)
  }

  ghost predicate AmbiguousAt(fields: seq<string>, values: seq<string>, i: nat)
    requires |fields| == |values|
  {
    i + 1 < |fields| && Ambiguous(fields[i + 1], values[i], values[i + 1])
  }

  lemma SliceOfSlice(text: string, a: nat, b: nat, c: nat, d: nat)
    requires a <= c <= d <= b <= |text|
    ensures text[a..b][c - a..d - a] == text[c..d]
  {
    var inner := text[a..b];
    forall k | 0 <= k < d - c ensures inner[c - a..d - a][k] == text[c..d][k] {
      assert inner[c - a + k] == text[c + k];
    }
  }

  lemma SlotsJoin(text: string, at: nat, value: string, second: string, next: string, mark: string)
    requires Slot(text, at, value, Separator(second))
    requires Slot(text, at + |value| + |Separator(second)|, next, mark)
    ensures var end := at + |value| + |Separator(second)| + |next|;
            end <= |text| && text[at..end] == Body(second, value, next)
  {
    var b, c := at + |value|, at + |value| + |Separator(second)|;
    assert text[at..c + |next|] == text[at..b] + text[b..c] + text[c..c + |next|];
  }

  lemma BodyInKey(fields: seq<string>, values: seq<string>, i: nat)
    requires i + 1 < |fields| == |values|
    ensures var key, from, end := GroupKey(fields, values), ValueAt(fields, values, i),
                                  ValueAt(fields, values, i + 1) + |values[i + 1]|;
            from <= end <= |key| && key[from..end] == Body(fields[i + 1], values[i], values[i + 1])
  {
    KeyLaid(fields, values, i);
    KeyLaid(fields, values, i + 1);
    StartBounds(fields, values, i);
    SlotsJoin(GroupKey(fields, values), ValueAt(fields, values, i), values[i], fields[i + 1], values[i + 1],
              MarkAfter(fields, i + 1));
  }

  /** A separator that the other list puts somewhere else, but still between the same ends, is a second one. */
  lemma SecondSeparator(fields: seq<string>, values: seq<string>, others: seq<string>, i: nat)
    requires i + 1 < |fields| == |values| && SharesKey(fields, values, others)
    requires ValueAt(fields, others, i + 1) != ValueAt(fields, values, i + 1)
    requires ValueAt(fields, values, i) + |Separator(fields[i + 1])| <= ValueAt(fields, others, i + 1)
    requires ValueAt(fields, others, i + 1) <= ValueAt(fields, values, i + 1) + |values[i + 1]|
    ensures AmbiguousAt(fields, values, i)
  {
    var key, from, end := GroupKey(fields, values), ValueAt(fields, values, i),
                          ValueAt(fields, values, i + 1) + |values[i + 1]|;
    var mark, stop := Separator(fields[i + 1]), ValueAt(fields, others, i + 1);
    BodyInKey(fields, values, i);
    KeyLaid(fields, others, i);
    SliceOfSlice(key, from, end, stop - |mark|, stop);
    var p: nat := stop - |mark| - from;
    assert p != |values[i]| && SeparatorAt(fields[i + 1], Body(fields[i + 1], values[i], values[i + 1]), p);
  }

  predicate SameStarts(fields: seq<string>, values: seq<string>, others: seq<string>)
    requires |fields| == |values| == |others|
  {
    forall i :: 0 <= i < |fields| ==> ValueAt(fields, values, i) == ValueAt(fields, others, i)
  }

  lemma SameStartsSameValues(fields: seq<string>, values: seq<string>, others: seq<string>)
    requires |fields| == |values| == |others| && SameStarts(fields, values, others)
    requires GroupKey(fields, values) == GroupKey(fields, others)
    ensures values == others
  {
    forall i | 0 <= i < |fields| ensures values[i] == others[i] {
      KeyLaid(fields, values, i);
      KeyLaid(fields, others, i);
      assert i + 1 < |fields| ==> ValueAt(fields, values, i + 1) == ValueAt(fields, others, i + 1);
    }
  }

  /** Separators ahead of their place: the last of them has its successor at its place or behind, and fits. */
  lemma {:induction false} LaterStart(fields: seq<string>, values: seq<string>, others: seq<string>, k: nat)
      returns (i: nat)
    requires 0 < k < |fields| == |values| && SharesKey(fields, values, others)
    requires ValueAt(fields, others, k) > ValueAt(fields, values, k)
    ensures AmbiguousAt(fields, values, i)
    decreases |fields| - k
  {
    StartBounds(fields, values, k - 1);
    StartBounds(fields, values, k);
    StartBounds(fields, others, k);
    if k + 1 < |fields| && ValueAt(fields, others, k + 1) > ValueAt(fields, values, k + 1) {
      i := LaterStart(fields, values, others, k + 1);
    } else {
      i := k - 1;
      SecondSeparator(fields, values, others, i);
    }
  }

  /** Separators behind their place: the first of them has its predecessor at its place or ahead, and fits. */
  lemma {:induction false} EarlierStart(fields: seq<string>, values: seq<string>, others: seq<string>, k: nat)
      returns (i: nat)
    requires 0 < k < |fields| == |values| && SharesKey(fields, values, others)
    requires ValueAt(fields, others, k) < ValueAt(fields, values, k)
    ensures AmbiguousAt(fields, values, i)
    decreases k
  {
    StartBounds(fields, others, k - 1);
    if ValueAt(fields, others, k - 1) < ValueAt(fields, values, k - 1) {
      i := EarlierStart(fields, values, others, k - 1);
    } else {
      i := k - 1;
      SecondSeparator(fields, values, others, i);
    }
  }

  lemma SharedIsAmbiguous(fields: seq<string>, values: seq<string>, others: seq<string>) returns (i: nat)
    requires |fields| == |values| && SharesKey(fields, values, others)
    ensures AmbiguousAt(fields, values, i)
  {
    if SameStarts(fields, values, others) {
      SameStartsSameValues(fields, values, others);
      assert false;
    }
    var k :| 0 <= k < |fields| && ValueAt(fields, values, k) != ValueAt(fields, others, k);
    if ValueAt(fields, others, k) > ValueAt(fields, values, k) {
      i := LaterStart(fields, values, others, k);
    } else {
      i := EarlierStart(fields, values, others, k);
    }
  }

  // ----- and back

  function Recut(values: seq<string>, i: nat, x: string, y: string): seq<string>
    requires i + 1 < |values|
  {
    values[i := x][i + 1 := y]
  }

  lemma {:induction false} RecutKeepsKey(fields: seq<string>, values: seq<string>, i: nat, x: string, y: string)
    requires i + 1 < |fields| == |values|
    requires Body(fields[i + 1], x, y) == Body(fields[i + 1], values[i], values[i + 1])
    ensures GroupKey(fields, Recut(values, i, x, y)) == GroupKey(fields, values)
  {
    var others := Recut(values, i, x, y);
    KeyLonger(fields, values);
    KeyLonger(fields, others);
    if i == 0 {
      KeyOfBody(fields, values);
      KeyOfBody(fields, others);
      assert others[2..] == values[2..];
    } else {
      assert others[1..] == Recut(values[1..], i - 1, x, y);
      RecutKeepsKey(fields[1..], values[1..], i - 1, x, y);
    }
  }

  lemma FirstBody(first: string, second: string, x: string, y: string, rest: string)
    ensures Part(first, x) + "|" + (Part(second, y) + rest) == (first + "=") + Body(second, x, y) + rest
  {
    var body := Body(second, x, y);
    assert body == x + "|" + (second + "=" + y);
    assert Part(first, x) + "|" + (Part(second, y) + rest) == (first + "=") + (x + "|" + (second + "=" + y)) + rest;
  }

  /** The key begins with the first body; what follows depends on the other fields only. */
  lemma KeyOfBody(fields: seq<string>, values: seq<string>)
    requires 1 < |fields| == |values|
    ensures GroupKey(fields, values) ==
            (fields[0] + "=") + Body(fields[1], values[0], values[1]) +
            (if |fields| == 2 then "" else "|" + GroupKey(fields[2..], values[2..]))
  {
    var rest := if |fields| == 2 then "" else "|" + GroupKey(fields[2..], values[2..]);
    RestOfKey(fields, values);
    FirstBody(fields[0], fields[1], values[0], values[1], rest);
  }

  lemma RestOfKey(fields: seq<string>, values: seq<string>)
    requires 1 < |fields| == |values|
    ensures GroupKey(fields[1..], values[1..]) ==
            Part(fields[1], values[1]) + (if |fields| == 2 then "" else "|" + GroupKey(fields[2..], values[2..]))
  {
    assert fields[1..][1..] == fields[2..] && values[1..][1..] == values[2..];
    if |fields| == 2 {
      assert Part(fields[1], values[1]) + "" == Part(fields[1], values[1]);
    }
  }

  /** Exactly, for any fields: a group shares its key with another one if and only if, for some value but the last,
      the separator after it occurs a second time in the text up to the end of the next value. */
  lemma SharedIff(fields: seq<string>, values: seq<string>)
    requires |fields| == |values|
    ensures (exists others :: SharesKey(fields, values, others)) <==>
            (exists i :: 0 <= i < |fields| && AmbiguousAt(fields, values, i))
  {
    forall others | SharesKey(fields, values, others)
      ensures exists i :: 0 <= i < |fields| && AmbiguousAt(fields, values, i)
    {
      var i := SharedIsAmbiguous(fields, values, others);
    }
    forall i | 0 <= i < |fields| && AmbiguousAt(fields, values, i)
      ensures exists others :: SharesKey(fields, values, others)
    {
      var body, mark := Body(fields[i + 1], values[i], values[i + 1]), Separator(fields[i + 1]);
      var p: nat :| p != |values[i]| && SeparatorAt(fields[i + 1], body, p);
      var x, y := body[..p], body[p + |mark|..];
      assert body == x + mark + y;
      RecutKeepsKey(fields, values, i, x, y);
      assert Recut(values, i, x, y)[i] == x && |x| == p;
      assert SharesKey(fields, values, Recut(values, i, x, y));
    }
  }

  /** With two fields: if and only if the separator occurs a second time in the key. */
  lemma TwoFieldsSharedIff(first: string, second: string, a: string, b: string)
    ensures (exists others :: SharesKey([first, second], [a, b], others)) <==> Ambiguous(second, a, b)
  {
    SharedIff([first, second], [a, b]);
    assert AmbiguousAt([first, second], [a, b], 0) <==> Ambiguous(second, a, b);
  }

  /** A bar in the first value can move to the second: two groups, one key. */
  lemma BarMerges(first: string, second: string, a: string, b: string, c: string)
    ensures SharesKey([first, second], [a, b + "|" + Part(second, c)], [a + "|" + Part(second, b), c])
  {
    var values := [a, b + "|" + Part(second, c)];
    var x := a + "|" + Part(second, b);
    assert Body(second, x, c) == Body(second, a, b + "|" + Part(second, c));
    RecutKeepsKey([first, second], values, 0, x, c);
    assert Recut(values, 0, x, c) == [x, c] && |x| != |a|;
  }
}
