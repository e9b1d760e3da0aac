/** Generic facts about sequences used by the clustering and ranking models:
    mapping a function over a sequence, summing, and how both behave under
    a permutation (equal multisets). */
module Sequences {

  function Map<A, B>(xs: seq<A>, f: A -> B): (ys: seq<B>)
    ensures |ys| == |xs|
    ensures forall i :: 0 <= i < |xs| ==> ys[i] == f(xs[i])
  {
    seq(|xs|, i requires 0 <= i < |xs| => f(xs[i]))
  }

  lemma MapConcat<A, B>(a: seq<A>, b: seq<A>, f: A -> B)
    ensures Map(a + b, f) == Map(a, f) + Map(b, f)
  {
    assert forall i :: 0 <= i < |a + b| ==> Map(a + b, f)[i] == (Map(a, f) + Map(b, f))[i];
  }

  /** A sequence with the same elements as xs except the one at index j. */
  function Without<T>(xs: seq<T>, j: nat): (ys: seq<T>)
    requires j < |xs|
    ensures |ys| == |xs| - 1
  {
    xs[..j] + xs[j + 1..]
  }

  lemma WithoutMultiset<T>(xs: seq<T>, j: nat)
    requires j < |xs|
    ensures multiset(xs) == multiset(Without(xs, j)) + multiset{xs[j]}
  {
    assert xs == xs[..j] + [xs[j]] + xs[j + 1..];
  }

  lemma MultisetCancel<T>(p: multiset<T>, q: multiset<T>, m: multiset<T>)
    requires p + m == q + m
    ensures p == q
  {
    forall y ensures p[y] == q[y] {
      assert (p + m)[y] == (q + m)[y];
    }
  }

  /** Mapping a function over two permutations of each other gives two
      permutations of each other. */
  lemma {:induction false} MapPermutation<A, B>(a: seq<A>, b: seq<A>, f: A -> B)
    requires multiset(a) == multiset(b)
    ensures multiset(Map(a, f)) == multiset(Map(b, f))
    decreases |a|
  {
    if |a| == 0 {
      assert |b| == |multiset(b)| == 0;
    } else {
      var x := a[0];
      assert x in multiset(b);
      var j :| 0 <= j < |b| && b[j] == x;
      var rest := Without(b, j);
      WithoutMultiset(b, j);
      assert a == [x] + a[1..];
      assert multiset(a) == multiset(a[1..]) + multiset{x};
      MultisetCancel(multiset(a[1..]), multiset(rest), multiset{x});
      MapPermutation(a[1..], rest, f);
      MapCons(a, f);
      MapWithout(b, j, f);
    }
  }

  lemma MapCons<A, B>(a: seq<A>, f: A -> B)
    requires 0 < |a|
    ensures multiset(Map(a, f)) == multiset(Map(a[1..], f)) + multiset{f(a[0])}
  {
    assert Map(a, f) == [f(a[0])] + Map(a[1..], f);
  }

  lemma MapWithout<A, B>(b: seq<A>, j: nat, f: A -> B)
    requires j < |b|
    ensures multiset(Map(b, f)) == multiset(Map(Without(b, j), f)) + multiset{f(b[j])}
  {
    assert b == b[..j] + [b[j]] + b[j + 1..];
    MapConcat(b[..j], [b[j]], f);
    MapConcat(b[..j] + [b[j]], b[j + 1..], f);
    MapConcat(b[..j], b[j + 1..], f);
  }

  function Sum(xs: seq<nat>): (s: nat)
    ensures |xs| == 0 ==> s == 0
  {
    if |xs| == 0 then 0 else xs[0] + Sum(xs[1..])
  }

  /** The multiset union of a sequence of multisets. */
  function Union<T>(bs: seq<multiset<T>>): multiset<T> {
    if |bs| == 0 then multiset{} else bs[0] + Union(bs[1..])
  }

  lemma {:induction false} UnionConcat<T>(a: seq<multiset<T>>, b: seq<multiset<T>>)
    ensures Union(a + b) == Union(a) + Union(b)
    decreases |a|
  {
    if |a| == 0 {
      assert a + b == b;
    } else {
      assert (a + b)[1..] == a[1..] + b;
      UnionConcat(a[1..], b);
    }
  }

  /** The union does not depend on the order of the multisets. */
  lemma {:induction false} UnionPermutation<T>(a: seq<multiset<T>>, b: seq<multiset<T>>)
    requires multiset(a) == multiset(b)
    ensures Union(a) == Union(b)
    decreases |a|
  {
    if |a| == 0 {
      assert |b| == |multiset(b)| == 0;
    } else {
      var x := a[0];
      assert x in multiset(b);
      var j :| 0 <= j < |b| && b[j] == x;
      WithoutMultiset(b, j);
      assert a == [x] + a[1..];
      assert multiset(a) == multiset(a[1..]) + multiset{x};
      MultisetCancel(multiset(a[1..]), multiset(Without(b, j)), multiset{x});
      UnionPermutation(a[1..], Without(b, j));
      assert b == b[..j] + [x] + b[j + 1..];
      assert Union([x]) == x by {
        assert [x][1..] == [];
      }
      UnionConcat(b[..j] + [x], b[j + 1..]);
      UnionConcat(b[..j], [x]);
      UnionConcat(b[..j], b[j + 1..]);
      calc {
        Union(b);
        Union(b[..j] + [x]) + Union(b[j + 1..]);
        Union(b[..j]) + x + Union(b[j + 1..]);
        x + Union(Without(b, j));
        x + Union(a[1..]);
        Union(a);
      }
    }
  }
}
