/** Looking up a field under any of several spellings, as graphField and extractNormalizedField do: map keys
    are compared after normalization, and of several that match the least one counts. */
module Fields {
  import opened Wrappers
  import opened Ordering

  /** Unicode lower-casing and trimming, taken as given. */
  datatype Text = Text(lower: string -> string, trim: string -> string)

  predicate Names(norm: string -> string, key: string, names: seq<string>) {
    exists i :: 0 <= i < |names| && norm(key) == norm(names[i])
  }

  ghost predicate FirstNamed(norm: string -> string, fields: map<string, string>, names: seq<string>, key: string) {
    && key in fields && Names(norm, key, names)
    && forall other :: other in fields && Names(norm, other, names) ==> other == key || Below(key, other)
  }

  /** The value under the least key that any of the names matches, even when it is blank. */
  ghost function FirstValue(norm: string -> string, fields: map<string, string>, names: seq<string>): Option<string> {
    if exists key :: FirstNamed(norm, fields, names, key)
    then
      var key :| FirstNamed(norm, fields, names, key);
      Some(fields[key])
    else None
  }

  lemma FirstValueIs(norm: string -> string, fields: map<string, string>, names: seq<string>, key: string)
    requires FirstNamed(norm, fields, names, key)
    ensures FirstValue(norm, fields, names) == Some(fields[key])
  {
    forall other | FirstNamed(norm, fields, names, other) ensures other == key {
      BelowIsStrictOrder();
      if other != key {
        assert Below(key, other) && Below(other, key);
        BelowTransitive(key, other, key);
        BelowTotal(key, key);
      }
    }
  }

  /** Among finitely many fields one of the matching keys is the least. */
  lemma LeastNamed(norm: string -> string, fields: map<string, string>, names: seq<string>, key: string)
      returns (first: string)
    requires key in fields && Names(norm, key, names)
    ensures FirstNamed(norm, fields, names, first)
  {
    var matching := set k | k in fields && Names(norm, k, names);
    BelowIsStrictOrder();
    var sorted := Sorted(Below, matching);
    assert key in Elements(sorted);
    first := sorted[0];
    assert first in Elements(sorted);
    forall other | other in fields && Names(norm, other, names) ensures other == first || Below(first, other) {
      assert other in Elements(sorted);
      var m :| 0 <= m < |sorted| && sorted[m] == other;
    }
  }

  /** The value under the least matching key, said without choosing it. */
  ghost predicate Picked(norm: string -> string, fields: map<string, string>, names: seq<string>, value: Option<string>)
  {
    if exists key :: key in fields && Names(norm, key, names)
    then exists key :: FirstNamed(norm, fields, names, key) && value == Some(fields[key])
    else value == None
  }

  lemma FirstValuePicked(norm: string -> string, fields: map<string, string>, names: seq<string>)
    ensures Picked(norm, fields, names, FirstValue(norm, fields, names))
  {
    if key :| key in fields && Names(norm, key, names) {
      var first := LeastNamed(norm, fields, names, key);
      FirstValueIs(norm, fields, names, first);
    }
  }

  method MatchesAnyName(norm: string -> string, key: string, names: seq<string>) returns (found: bool)
    ensures found <==> Names(norm, key, names)
  {
    for j := 0 to |names|
      invariant forall m :: 0 <= m < j ==> norm(key) != norm(names[m])
    {
      if norm(key) == norm(names[j]) {
        return true;
      }
    }
    return false;
  }

  lemma FirstInOrder(norm: string -> string, fields: map<string, string>, names: seq<string>, keys: seq<string>, i: nat)
    requires i < |keys| && Ascending(Below, keys) && Elements(keys) == fields.Keys
    requires Names(norm, keys[i], names) && forall j :: 0 <= j < i ==> !Names(norm, keys[j], names)
    ensures FirstNamed(norm, fields, names, keys[i])
  {
    assert keys[i] in Elements(keys);
    forall other | other in fields && Names(norm, other, names) ensures other == keys[i] || Below(keys[i], other) {
      assert other in Elements(keys);
      var m :| 0 <= m < |keys| && keys[m] == other;
    }
  }

  method LookupFirst(norm: string -> string, fields: map<string, string>, names: seq<string>)
      returns (value: Option<string>)
    ensures value == FirstValue(norm, fields, names)
  {
    BelowIsStrictOrder();
    var keys := SortSet(Below, fields.Keys);
    for i := 0 to |keys|
      invariant forall j :: 0 <= j < i ==> !Names(norm, keys[j], names)
    {
      var found := MatchesAnyName(norm, keys[i], names);
      if found {
        FirstInOrder(norm, fields, names, keys, i);
        FirstValueIs(norm, fields, names, keys[i]);
        return Some(fields[keys[i]]);
      }
    }
    NoneNamed(norm, fields, names, keys);
    return None;
  }

  lemma NoneNamed(norm: string -> string, fields: map<string, string>, names: seq<string>, keys: seq<string>)
    requires Elements(keys) == fields.Keys && forall j :: 0 <= j < |keys| ==> !Names(norm, keys[j], names)
    ensures FirstValue(norm, fields, names) == None
  {
    forall key | key in fields ensures !Names(norm, key, names) {
      assert key in Elements(keys);
    }
  }

  // ----- extraction

  function Unnamed(norm: string -> string, fields: map<string, string>, names: seq<string>): map<string, string> {
    map key | key in fields && !Names(norm, key, names) :: fields[key]
  }

  /** The matching keys, collected in the order of a map walk. */
  method MatchingKeys(norm: string -> string, fields: map<string, string>, names: seq<string>)
      returns (matches: set<string>)
    ensures forall key :: key in matches <==> key in fields && Names(norm, key, names)
  {
    matches := {};
    var unread := fields.Keys;
    while unread != {}
      invariant unread <= fields.Keys
      invariant forall key :: key in matches <==> key in fields.Keys - unread && Names(norm, key, names)
    {
      var key := AnyOf(unread);
      var found := MatchesAnyName(norm, key, names);
      if found {
        matches := matches + {key};
      }
      unread := unread - {key};
    }
  }

  method RemoveKeys(fields: map<string, string>, keys: seq<string>) returns (rest: map<string, string>)
    ensures rest == fields - Elements(keys)
  {
    rest := fields;
    for i := 0 to |keys|
      invariant rest == fields - Elements(keys[..i])
    {
      assert Elements(keys[..i + 1]) == Elements(keys[..i]) + {keys[i]};
      rest := rest - {keys[i]};
    }
    assert keys[..|keys|] == keys;
  }

  /** Removes every matching key and hands back the value of the least one. */
  method Extract(norm: string -> string, fields: map<string, string>, names: seq<string>)
      returns (value: Option<string>, rest: map<string, string>)
    ensures value == FirstValue(norm, fields, names) && rest == Unnamed(norm, fields, names)
  {
    var matches := MatchingKeys(norm, fields, names);
    BelowIsStrictOrder();
    var sorted := SortSet(Below, matches);
    rest := RemoveKeys(fields, sorted);
    if sorted == [] {
      NoMatch(norm, fields, names, matches);
      return None, rest;
    }
    LeastMatch(norm, fields, names, matches, sorted);
    value := Some(fields[sorted[0]]);
  }

  lemma NoMatch(norm: string -> string, fields: map<string, string>, names: seq<string>, matches: set<string>)
    requires forall key :: key in matches <==> key in fields && Names(norm, key, names)
    requires matches == {}
    ensures FirstValue(norm, fields, names) == None
  {
  }

  lemma LeastMatch(norm: string -> string, fields: map<string, string>, names: seq<string>, matches: set<string>,
                   sorted: seq<string>)
    requires forall key :: key in matches <==> key in fields && Names(norm, key, names)
    requires Ascending(Below, sorted) && Elements(sorted) == matches && sorted != []
    ensures sorted[0] in fields && FirstValue(norm, fields, names) == Some(fields[sorted[0]])
  {
    assert sorted[0] in Elements(sorted);
    forall other | other in fields && Names(norm, other, names) ensures other == sorted[0] || Below(sorted[0], other) {
      assert other in Elements(sorted);
      var m :| 0 <= m < |sorted| && sorted[m] == other;
    }
    FirstValueIs(norm, fields, names, sorted[0]);
  }
}
