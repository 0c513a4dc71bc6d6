/** Filters, images, totals and partitions of sequences, shared by the other modules. */
module Sequences {
  import opened Wrappers

  /** The elements satisfying keep, in their order. */
  function Filter<T(!new)>(keep: T -> bool, xs: seq<T>): (ys: seq<T>)
    ensures |ys| <= |xs|
  {
    if xs == [] then []
    else
      var n := |xs| - 1;
      Filter(keep, xs[..n]) + if keep(xs[n]) then [xs[n]] else []
  }

  lemma {:induction false} FilterMember<T(!new)>(keep: T -> bool, xs: seq<T>, x: T)
    ensures x in Filter(keep, xs) <==> x in xs && keep(x)
  {
    if xs != [] {
      var n := |xs| - 1;
      FilterMember(keep, xs[..n], x);
      assert xs == xs[..n] + [xs[n]];
    }
  }

  lemma FilterEmpty<T(!new)>(keep: T -> bool, xs: seq<T>)
    ensures Filter(keep, xs) == [] <==> forall x :: x in xs ==> !keep(x)
  {
    forall x ensures x in Filter(keep, xs) <==> x in xs && keep(x) {
      FilterMember(keep, xs, x);
    }
    assert Filter(keep, xs) != [] ==> Filter(keep, xs)[0] in Filter(keep, xs);
  }

  lemma {:induction false} FilterConcat<T(!new)>(keep: T -> bool, xs: seq<T>, ys: seq<T>)
    ensures Filter(keep, xs + ys) == Filter(keep, xs) + Filter(keep, ys)
  {
    if ys == [] {
      assert xs + ys == xs;
    } else {
      var n := |ys| - 1;
      FilterConcat(keep, xs, ys[..n]);
      assert (xs + ys)[..|xs| + n] == xs + ys[..n] && (xs + ys)[|xs| + n] == ys[n];
      var last := if keep(ys[n]) then [ys[n]] else [];
      assert Filter(keep, xs) + (Filter(keep, ys[..n]) + last) == (Filter(keep, xs) + Filter(keep, ys[..n])) + last;
    }
  }

  lemma FilterSnoc<T(!new)>(keep: T -> bool, xs: seq<T>, x: T)
    ensures Filter(keep, xs + [x]) == Filter(keep, xs) + if keep(x) then [x] else []
  {
    assert (xs + [x])[..|xs|] == xs;
  }

  /** Filtering commutes with taking one more element, the step of every loop over a sequence. */
  lemma FilterPrefix<T(!new)>(keep: T -> bool, xs: seq<T>, i: nat)
    requires i < |xs|
    ensures Filter(keep, xs[..i + 1]) == Filter(keep, xs[..i]) + if keep(xs[i]) then [xs[i]] else []
  {
    assert xs[..i + 1] == xs[..i] + [xs[i]];
    FilterSnoc(keep, xs[..i], xs[i]);
  }

  lemma {:induction false} FilterAgree<T(!new)>(p: T -> bool, q: T -> bool, xs: seq<T>)
    requires forall x :: x in xs ==> p(x) == q(x)
    ensures Filter(p, xs) == Filter(q, xs)
  {
    if xs != [] {
      FilterAgree(p, q, xs[..|xs| - 1]);
    }
  }

  /** A filter that another one already implies can be dropped. */
  lemma {:induction false} FilterImplied<T(!new)>(p: T -> bool, q: T -> bool, xs: seq<T>)
    requires forall x :: x in xs && p(x) ==> q(x)
    ensures Filter(p, Filter(q, xs)) == Filter(p, xs)
  {
    if xs != [] {
      var n := |xs| - 1;
      assert xs[n] in xs;
      FilterImplied(p, q, xs[..n]);
      if q(xs[n]) {
        FilterSnoc(p, Filter(q, xs[..n]), xs[n]);
      } else {
        assert Filter(q, xs) == Filter(q, xs[..n]);
      }
    }
  }

  lemma {:induction false} FilterMultiset<T(!new)>(keep: T -> bool, xs: seq<T>, x: T)
    ensures multiset(Filter(keep, xs))[x] == if keep(x) then multiset(xs)[x] else 0
  {
    if xs != [] {
      var n := |xs| - 1;
      FilterMultiset(keep, xs[..n], x);
      assert xs == xs[..n] + [xs[n]];
    }
  }

  lemma {:induction false} FilterPermuted<T(!new)>(keep: T -> bool, xs: seq<T>, ys: seq<T>)
    requires multiset(xs) == multiset(ys)
    ensures multiset(Filter(keep, xs)) == multiset(Filter(keep, ys))
  {
    forall x ensures multiset(Filter(keep, xs))[x] == multiset(Filter(keep, ys))[x] {
      FilterMultiset(keep, xs, x);
      FilterMultiset(keep, ys, x);
    }
  }

  // ----- images

  function Image<A, B>(f: A -> B, xs: seq<A>): (ys: seq<B>)
    ensures |ys| == |xs| && forall i :: 0 <= i < |ys| ==> ys[i] == f(xs[i])
  {
    seq(|xs|, i requires 0 <= i < |xs| => f(xs[i]))
  }

  lemma ImagePrefix<A, B>(f: A -> B, xs: seq<A>, i: nat)
    requires i < |xs|
    ensures Image(f, xs[..i + 1]) == Image(f, xs[..i]) + [f(xs[i])]
  {
  }

  /** All images, or nothing when one of them is missing. */
  function Traverse<A, B>(f: A -> Option<B>, xs: seq<A>): Option<seq<B>> {
    if xs == [] then Some([])
    else
      var n := |xs| - 1;
      match Traverse(f, xs[..n])
      case None => None
      case Some(ys) => if f(xs[n]).Some? then Some(ys + [f(xs[n]).value]) else None
  }

  lemma TraversePrefix<A, B>(f: A -> Option<B>, xs: seq<A>, i: nat)
    requires i < |xs|
    ensures Traverse(f, xs[..i + 1]) ==
            match Traverse(f, xs[..i])
            case None => None
            case Some(ys) => if f(xs[i]).Some? then Some(ys + [f(xs[i]).value]) else None
  {
    assert xs[..i + 1][..i] == xs[..i];
  }

  lemma {:induction false} TraverseFails<A, B>(f: A -> Option<B>, xs: seq<A>, i: nat)
    requires i <= |xs| && Traverse(f, xs[..i]).None?
    ensures Traverse(f, xs).None?
    decreases |xs| - i
  {
    if i == |xs| {
      assert xs[..i] == xs;
    } else {
      TraversePrefix(f, xs, i);
      TraverseFails(f, xs, i + 1);
    }
  }

  lemma {:induction false} TraverseIff<A, B>(f: A -> Option<B>, xs: seq<A>)
    ensures Traverse(f, xs).Some? <==> forall i :: 0 <= i < |xs| ==> f(xs[i]).Some?
    ensures Traverse(f, xs).Some? ==>
              && |Traverse(f, xs).value| == |xs|
              && forall i :: 0 <= i < |xs| ==> Traverse(f, xs).value[i] == f(xs[i]).value
  {
    if xs != [] {
      TraverseIff(f, xs[..|xs| - 1]);
    }
  }

  // ----- totals

  function Total<T>(size: T -> nat, xs: seq<T>): nat {
    if xs == [] then 0 else Total(size, xs[..|xs| - 1]) + size(xs[|xs| - 1])
  }

  lemma {:induction false} TotalConcat<T>(size: T -> nat, xs: seq<T>, ys: seq<T>)
    ensures Total(size, xs + ys) == Total(size, xs) + Total(size, ys)
  {
    if ys == [] {
      assert xs + ys == xs;
    } else {
      var n := |ys| - 1;
      assert (xs + ys)[..|xs| + n] == xs + ys[..n];
      TotalConcat(size, xs, ys[..n]);
    }
  }

  lemma TakeOut<T>(ys: seq<T>, x: T) returns (before: seq<T>, after: seq<T>)
    requires x in multiset(ys)
    ensures ys == before + [x] + after && multiset(before + after) == multiset(ys) - multiset{x}
  {
    var i :| 0 <= i < |ys| && ys[i] == x;
    before, after := ys[..i], ys[i + 1..];
    assert ys == before + [x] + after;
  }

  lemma TotalWithout<T>(size: T -> nat, before: seq<T>, x: T, after: seq<T>)
    ensures Total(size, before + [x] + after) == Total(size, before + after) + size(x)
  {
    TotalConcat(size, before + [x], after);
    TotalConcat(size, before, [x]);
    TotalConcat(size, before, after);
  }

  lemma {:induction false} TotalPermuted<T>(size: T -> nat, xs: seq<T>, ys: seq<T>)
    requires multiset(xs) == multiset(ys)
    ensures Total(size, xs) == Total(size, ys)
  {
    if xs == [] {
      assert multiset(ys) == multiset{};
      assert |ys| == 0;
    } else {
      var n, x := |xs| - 1, xs[|xs| - 1];
      assert xs == xs[..n] + [x];
      var before, after := TakeOut(ys, x);
      TotalPermuted(size, xs[..n], before + after);
      TotalWithout(size, before, x, after);
    }
  }

  // ----- partitions

  function PartOf<K, T(!new)>(part: (K, T) -> bool, key: K): T -> bool {
    (x: T) => part(key, x)
  }

  function Among<K, T(!new)>(part: (K, T) -> bool, keys: seq<K>): T -> bool {
    (x: T) => exists i :: 0 <= i < |keys| && part(keys[i], x)
  }

  /** The sizes of the parts, added up. */
  function PartTotal<K, T(!new)>(part: (K, T) -> bool, keys: seq<K>, xs: seq<T>): nat {
    if keys == [] then 0
    else PartTotal(part, keys[..|keys| - 1], xs) + |Filter(PartOf(part, keys[|keys| - 1]), xs)|
  }

  lemma {:induction false} FilterSplit<T(!new)>(whole: T -> bool, left: T -> bool, right: T -> bool, xs: seq<T>)
    requires forall x :: whole(x) <==> left(x) || right(x)
    requires forall x :: !(left(x) && right(x))
    ensures |Filter(whole, xs)| == |Filter(left, xs)| + |Filter(right, xs)|
  {
    if xs != [] {
      FilterSplit(whole, left, right, xs[..|xs| - 1]);
    }
  }

  /** Disjoint parts add up to the elements that lie in any of them. */
  lemma {:induction false} PartsAddUp<K, T(!new)>(part: (K, T) -> bool, keys: seq<K>, xs: seq<T>)
    requires forall i, j, x :: 0 <= i < j < |keys| ==> !(part(keys[i], x) && part(keys[j], x))
    ensures PartTotal(part, keys, xs) == |Filter(Among(part, keys), xs)|
  {
    if keys == [] {
      FilterEmpty(Among(part, keys), xs);
    } else {
      var n := |keys| - 1;
      PartsAddUp(part, keys[..n], xs);
      forall x ensures Among(part, keys)(x) <==> Among(part, keys[..n])(x) || PartOf(part, keys[n])(x) {
        if Among(part, keys)(x) {
          var i :| 0 <= i < |keys| && part(keys[i], x);
          assert i < n ==> keys[..n][i] == keys[i];
        }
        if Among(part, keys[..n])(x) {
          var i :| 0 <= i < n && part(keys[..n][i], x);
          assert part(keys[i], x);
        }
      }
      FilterSplit(Among(part, keys), Among(part, keys[..n]), PartOf(part, keys[n]), xs);
    }
  }
}
