/** Sums over sequences, in reals. */
module Sums {
  import opened Sorting

  function SumBy<T>(s: seq<T>, f: T -> real): real {
    if s == [] then 0.0 else SumBy(s[..|s| - 1], f) + f(s[|s| - 1])
  }

  lemma SumSnoc<T>(s: seq<T>, x: T, f: T -> real)
    ensures SumBy(s + [x], f) == SumBy(s, f) + f(x)
  {
    assert (s + [x])[..|s|] == s;
  }

  lemma {:induction false} SumConcat<T>(a: seq<T>, b: seq<T>, f: T -> real)
    ensures SumBy(a + b, f) == SumBy(a, f) + SumBy(b, f)
  {
    if b == [] {
      assert a + b == a;
    } else {
      SumConcat(a, b[..|b| - 1], f);
      assert (a + b)[..|a + b| - 1] == a + b[..|b| - 1];
    }
  }

  lemma {:induction false} SumWithoutAt<T>(s: seq<T>, i: nat, f: T -> real)
    requires i < |s|
    ensures SumBy(s, f) == SumBy(WithoutAt(s, i), f) + f(s[i])
  {
    var front, last := s[..|s| - 1], s[|s| - 1];
    if i == |front| {
      assert WithoutAt(s, i) == front;
    } else {
      assert WithoutAt(s, i) == WithoutAt(front, i) + [last];
      SumWithoutAt(front, i, f);
      SumSnoc(WithoutAt(front, i), last, f);
    }
  }

  /** The order of the terms does not matter. */
  lemma {:induction false} SumPermuted<T>(a: seq<T>, b: seq<T>, f: T -> real)
    requires multiset(a) == multiset(b)
    ensures SumBy(a, f) == SumBy(b, f)
  {
    if a == [] {
      assert b == [];
    } else {
      var i := LastInPermutation(a, b);
      SumPermuted(a[..|a| - 1], WithoutAt(b, i), f);
      SumWithoutAt(b, i, f);
    }
  }

  lemma {:induction false} SumPointwise<T>(s: seq<T>, f: T -> real, g: T -> real, h: T -> real)
    requires forall x :: x in s ==> f(x) == g(x) + h(x)
    ensures SumBy(s, f) == SumBy(s, g) + SumBy(s, h)
  {
    if s != [] {
      assert forall x :: x in s[..|s| - 1] ==> x in s;
      SumPointwise(s[..|s| - 1], f, g, h);
    }
  }

  lemma {:induction false} SumZero<T>(s: seq<T>, f: T -> real)
    requires forall x :: x in s ==> f(x) == 0.0
    ensures SumBy(s, f) == 0.0
  {
    if s != [] {
      assert forall x :: x in s[..|s| - 1] ==> x in s;
      SumZero(s[..|s| - 1], f);
    }
  }

  lemma {:induction false} SumScaled<T>(s: seq<T>, f: T -> real, g: T -> real, c: real)
    requires forall x :: x in s ==> f(x) == g(x) * c
    ensures SumBy(s, f) == SumBy(s, g) * c
  {
    if s != [] {
      var front, last := s[..|s| - 1], s[|s| - 1];
      assert s == front + [last] && last in s;
      SumScaled(front, f, g, c);
      Distributes(SumBy(front, g), g(last), c);
    }
  }

  lemma Distributes(a: real, b: real, c: real)
    ensures (a + b) * c == a * c + b * c
  {
  }

  lemma {:induction false} SumSame<T>(s: seq<T>, f: T -> real, g: T -> real)
    requires forall x :: x in s ==> f(x) == g(x)
    ensures SumBy(s, f) == SumBy(s, g)
  {
    if s != [] {
      assert forall x :: x in s[..|s| - 1] ==> x in s;
      SumSame(s[..|s| - 1], f, g);
    }
  }
}
