/** Sequences counted without regard to order, and sums over them. */
module Bags {

  lemma SameMembers<T>(a: seq<T>, b: seq<T>)
    requires multiset(a) == multiset(b)
    ensures forall x :: x in a <==> x in b
  {
    forall x ensures x in a <==> x in b {
      assert x in a <==> x in multiset(a);
    }
  }

  /** Taking one element out of a sequence that holds it. */
  lemma TakeOut<T>(s: seq<T>, x: T) returns (i: nat)
    requires x in multiset(s)
    ensures i < |s| && s[i] == x && multiset(s) == multiset{x} + multiset(s[..i] + s[i + 1..])
    ensures s == s[..i] + ([x] + s[i + 1..])
  {
    i :| 0 <= i < |s| && s[i] == x;
    assert s == s[..i] + [x] + s[i + 1..];
    assert multiset(s) == multiset(s[..i]) + multiset{x} + multiset(s[i + 1..]);
  }

  lemma HeadOut<T>(a: seq<T>)
    requires a != []
    ensures a[0] in multiset(a) && multiset(a[1..]) == multiset(a) - multiset{a[0]}
  {
    assert a == [a[0]] + a[1..];
  }

  /** A permutation of a non-empty sequence is its head, put somewhere into a permutation of its
      tail. */
  lemma HeadMoves<T>(a: seq<T>, b: seq<T>) returns (i: nat)
    requires a != [] && multiset(a) == multiset(b)
    ensures i < |b| && b == b[..i] + ([a[0]] + b[i + 1..])
    ensures multiset(a[1..]) == multiset(b[..i] + b[i + 1..])
  {
    HeadOut(a);
    i := TakeOut(b, a[0]);
    assert multiset(b[..i] + b[i + 1..]) == multiset(b) - multiset{a[0]};
  }

  /** The terms of f, added up. */
  function Sum<T(!new), V>(f: T -> multiset<V>, s: seq<T>): multiset<V> {
    if s == [] then multiset{} else f(s[0]) + Sum(f, s[1..])
  }

  lemma {:induction false} SumJoin<T(!new), V>(f: T -> multiset<V>, a: seq<T>, b: seq<T>)
    ensures Sum(f, a + b) == Sum(f, a) + Sum(f, b)
  {
    if a == [] {
      assert a + b == b;
    } else {
      SumJoin(f, a[1..], b);
      assert (a + b)[1..] == a[1..] + b;
    }
  }

  /** A sum depends on neither the order of its terms nor the function computing them. */
  lemma {:induction false} SumPermuted<T(!new), V>(f: T -> multiset<V>, g: T -> multiset<V>, a: seq<T>, b: seq<T>)
    requires multiset(a) == multiset(b) && forall x :: f(x) == g(x)
    ensures Sum(f, a) == Sum(g, b)
    decreases |a|
  {
    if a == [] {
      assert |multiset(b)| == 0;
    } else {
      var i := HeadMoves(a, b);
      SumPermuted(f, g, a[1..], b[..i] + b[i + 1..]);
      SumJoin(g, b[..i], [a[0]] + b[i + 1..]);
      SumJoin(g, b[..i], b[i + 1..]);
      assert ([a[0]] + b[i + 1..])[1..] == b[i + 1..];
    }
  }

  lemma {:induction false} SumMember<T(!new), V>(f: T -> multiset<V>, s: seq<T>, v: V)
    ensures v in Sum(f, s) <==> exists x :: x in s && v in f(x)
  {
    if s == [] {
    } else {
      SumMember(f, s[1..], v);
      assert forall x :: x in s <==> x == s[0] || x in s[1..];
    }
  }

  lemma SumSnoc<T(!new), V>(f: T -> multiset<V>, s: seq<T>, i: nat)
    requires i < |s|
    ensures Sum(f, s[..i + 1]) == Sum(f, s[..i]) + f(s[i])
  {
    assert s[..i + 1] == s[..i] + [s[i]];
    SumJoin(f, s[..i], [s[i]]);
    assert [s[i]][1..] == s[..0];
  }
}
