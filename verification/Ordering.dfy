/** Strict total orders, the byte order of strings, and sorting a set of keys. */
module Ordering {

  ghost predicate StrictOrder<T(!new)>(less: (T, T) -> bool) {
    && (forall a :: !less(a, a))
    && (forall a, b :: a != b ==> less(a, b) || less(b, a))
    && (forall a, b, c :: less(a, b) && less(b, c) ==> less(a, c))
  }

  ghost predicate Ascending<T>(less: (T, T) -> bool, xs: seq<T>) {
    forall i, j :: 0 <= i < j < |xs| ==> less(xs[i], xs[j])
  }

  function Elements<T>(xs: seq<T>): set<T> {
    set x | x in xs
  }

  lemma {:induction false} DistinctSize<T>(xs: seq<T>)
    requires forall i, j :: 0 <= i < j < |xs| ==> xs[i] != xs[j]
    ensures |Elements(xs)| == |xs|
  {
    if xs != [] {
      var n := |xs| - 1;
      DistinctSize(xs[..n]);
      assert xs == xs[..n] + [xs[n]];
      assert Elements(xs) == Elements(xs[..n]) + {xs[n]};
    }
  }

  /** Order of string comparison: the first difference decides, a proper prefix comes first. */
  predicate Below(a: string, b: string) {
    if b == "" then false
    else if a == "" then true
    else if a[0] != b[0] then a[0] < b[0]
    else Below(a[1..], b[1..])
  }

  /** Position by position: equal up to a place where the one string ends or has the smaller character. */
  lemma {:induction false} BelowMeans(a: string, b: string)
    ensures Below(a, b) <==>
            exists i :: 0 <= i <= |a| && i < |b| && a[..i] == b[..i] && (i == |a| || a[i] < b[i])
  {
    forall i | 0 < i <= |a| && i < |b| && a[..i] == b[..i] ensures a[0] == b[0] {
      assert a[..i][0] == b[..i][0];
    }
    if a != "" && b != "" && a[0] == b[0] {
      BelowMeans(a[1..], b[1..]);
      var s, t := a[1..], b[1..];
      if i :| 0 <= i <= |s| && i < |t| && s[..i] == t[..i] && (i == |s| || s[i] < t[i]) {
        assert a[..i + 1] == [a[0]] + s[..i] && b[..i + 1] == [b[0]] + t[..i];
      }
      if i :| 0 <= i <= |a| && i < |b| && a[..i] == b[..i] && (i == |a| || a[i] < b[i]) {
        assert i > 0 && s[..i - 1] == a[..i][1..] && t[..i - 1] == b[..i][1..];
      }
    } else if b != "" && (a == "" || a[0] < b[0]) {
      assert a[..0] == b[..0];
    }
  }

  lemma BelowTotal(a: string, b: string)
    ensures !Below(a, a)
    ensures a != b ==> Below(a, b) || Below(b, a)
  {
    if a != "" && b != "" && a[0] == b[0] {
      BelowTotal(a[1..], b[1..]);
      assert a == [a[0]] + a[1..] && b == [b[0]] + b[1..];
    } else if a != "" {
      BelowTotal(a[1..], a[1..]);
    }
  }

  lemma {:induction false} BelowTransitive(a: string, b: string, c: string)
    requires Below(a, b) && Below(b, c)
    ensures Below(a, c)
  {
    if a != "" && a[0] == b[0] && b[0] == c[0] {
      BelowTransitive(a[1..], b[1..], c[1..]);
    }
  }

  lemma BelowIsStrictOrder()
    ensures StrictOrder(Below)
  {
    forall a, b ensures !Below(a, a) && (a != b ==> Below(a, b) || Below(b, a)) {
      BelowTotal(a, b);
    }
    forall a, b, c | Below(a, b) && Below(b, c) ensures Below(a, c) {
      BelowTransitive(a, b, c);
    }
  }

  lemma InsertedAbove<T(!new)>(less: (T, T) -> bool, xs: seq<T>, x: T, rest: seq<T>)
    requires Ascending(less, xs) && xs != [] && less(xs[0], x) && Ascending(less, rest)
    requires forall y :: y in rest <==> y in xs[1..] || y == x
    ensures Ascending(less, [xs[0]] + rest)
    ensures forall y :: y in [xs[0]] + rest <==> y in xs || y == x
  {
    assert xs == [xs[0]] + xs[1..];
    forall i | 0 <= i < |rest| ensures less(xs[0], rest[i]) {
      assert rest[i] in rest;
    }
  }

  /** Inserts a new element into an ascending sequence. */
  function Insert<T(!new)>(less: (T, T) -> bool, xs: seq<T>, x: T): (ys: seq<T>)
    requires StrictOrder(less) && Ascending(less, xs) && x !in xs
    ensures Ascending(less, ys) && |ys| == |xs| + 1
    ensures forall y :: y in ys <==> y in xs || y == x
  {
    if xs == [] then [x]
    else if less(x, xs[0]) then [x] + xs
    else
      var rest := Insert(less, xs[1..], x);
      InsertedAbove(less, xs, x, rest);
      [xs[0]] + rest
  }

  /** The next key of a map walk, which may be any of those left. */
  method AnyOf<T>(s: set<T>) returns (x: T)
    requires s != {}
    ensures x in s
  {
    x :| x in s;
  }

  /** Sorts a set of keys, the outcome of collecting map keys in any order and sorting them. */
  method SortSet<T(==, !new)>(less: (T, T) -> bool, s: set<T>) returns (xs: seq<T>)
    requires StrictOrder(less)
    ensures Ascending(less, xs) && Elements(xs) == s && |xs| == |s|
  {
    xs := [];
    var rest := s;
    while rest != {}
      invariant rest <= s && Ascending(less, xs)
      invariant forall x :: x in xs <==> x in s - rest
      invariant |xs| + |rest| == |s|
    {
      var x := AnyOf(rest);
      xs := Insert(less, xs, x);
      rest := rest - {x};
    }
  }

  /** Two ascending sequences over the same elements are the same sequence. */
  lemma {:induction false} AscendingUnique<T(!new)>(less: (T, T) -> bool, xs: seq<T>, ys: seq<T>)
    requires StrictOrder(less) && Ascending(less, xs) && Ascending(less, ys)
    requires Elements(xs) == Elements(ys)
    ensures xs == ys
  {
    assert ys != [] ==> ys[0] in Elements(xs);
    if xs != [] {
      assert xs[0] in Elements(ys);
      assert ys[0] in Elements(xs);
      assert xs[0] == ys[0];
      forall x ensures x in Elements(xs[1..]) <==> x in Elements(ys[1..]) {
        assert x in Elements(xs[1..]) <==> x in Elements(xs) && x != xs[0];
        assert x in Elements(ys[1..]) <==> x in Elements(ys) && x != ys[0];
      }
      AscendingUnique(less, xs[1..], ys[1..]);
      assert xs == [xs[0]] + xs[1..] && ys == [ys[0]] + ys[1..];
    }
  }

  lemma {:induction false} SortedExists<T(!new)>(less: (T, T) -> bool, s: set<T>)
    requires StrictOrder(less)
    ensures exists xs :: Ascending(less, xs) && Elements(xs) == s
  {
    if s == {} {
      var none: seq<T> := [];
      assert Ascending(less, none) && Elements(none) == s;
    } else {
      var x :| x in s;
      SortedExists(less, s - {x});
      var xs :| Ascending(less, xs) && Elements(xs) == s - {x};
      assert x !in Elements(xs);
      var ys := Insert(less, xs, x);
      forall y ensures y in Elements(ys) <==> y in s {
        assert y in Elements(xs) <==> y in xs;
      }
      assert Ascending(less, ys) && Elements(ys) == s;
    }
  }

  /** The one ascending enumeration of a set. */
  ghost function Sorted<T(!new)>(less: (T, T) -> bool, s: set<T>): (xs: seq<T>)
    requires StrictOrder(less)
    ensures Ascending(less, xs) && Elements(xs) == s
  {
    SortedExists(less, s);
    var xs :| Ascending(less, xs) && Elements(xs) == s;
    xs
  }
}
