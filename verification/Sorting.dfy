/** What Rust's stable `sort_by` does, for any comparison. */
module Sorting {
  function InsertBy<T>(s: seq<T>, x: T, before: (T, T) -> bool): seq<T> {
    if s == [] then [x]
    else if before(x, s[|s| - 1]) then InsertBy(s[..|s| - 1], x, before) + [s[|s| - 1]]
    else s + [x]
  }

  function SortBy<T>(s: seq<T>, before: (T, T) -> bool): seq<T> {
    if s == [] then [] else InsertBy(SortBy(s[..|s| - 1], before), s[|s| - 1], before)
  }

  predicate Ordered<T>(s: seq<T>, before: (T, T) -> bool) {
    forall i, j :: 0 <= i < j < |s| ==> !before(s[j], s[i])
  }

  /** A strict weak order: what `sort_by` demands of a comparison. */
  ghost predicate IsOrder<T(!new)>(before: (T, T) -> bool) {
    && (forall a, b :: before(a, b) ==> !before(b, a))
    && (forall a, b, c :: before(a, c) ==> before(a, b) || before(b, c))
  }

  lemma SnocMultiset<T>(front: seq<T>, last: T)
    ensures multiset(front + [last]) == multiset(front) + multiset{last}
  {
  }

  lemma {:induction false} InsertByPermutes<T>(s: seq<T>, x: T, before: (T, T) -> bool)
    ensures multiset(InsertBy(s, x, before)) == multiset(s) + multiset{x}
  {
    if s != [] && before(x, s[|s| - 1]) {
      var front, last := s[..|s| - 1], s[|s| - 1];
      InsertByPermutes(front, x, before);
      SnocMultiset(InsertBy(front, x, before), last);
      SnocMultiset(front, last);
      assert s == front + [last];
    } else {
      SnocMultiset(s, x);
    }
  }

  lemma {:induction false} InsertByOrdered<T(!new)>(s: seq<T>, x: T, before: (T, T) -> bool)
    requires IsOrder(before) && Ordered(s, before)
    ensures Ordered(InsertBy(s, x, before), before)
  {
    if s != [] {
      var front, last := s[..|s| - 1], s[|s| - 1];
      if before(x, last) {
        InsertByOrdered(front, x, before);
        InsertByPermutes(front, x, before);
        var r := InsertBy(front, x, before);
        forall i | 0 <= i < |r|
          ensures !before(last, r[i])
        {
          assert r[i] in multiset(r);
          assert r[i] in multiset(front) || r[i] == x;
        }
      } else {
        forall i | 0 <= i < |s|
          ensures !before(x, s[i])
        {
          assert i < |s| - 1 ==> !before(last, s[i]);
        }
      }
    }
  }

  lemma {:induction false} SortByPermutes<T>(s: seq<T>, before: (T, T) -> bool)
    ensures multiset(SortBy(s, before)) == multiset(s)
  {
    if s != [] {
      var front, last := s[..|s| - 1], s[|s| - 1];
      SortByPermutes(front, before);
      InsertByPermutes(SortBy(front, before), last, before);
      SnocMultiset(front, last);
      assert s == front + [last];
    }
  }

  lemma {:induction false} SortByOrders<T(!new)>(s: seq<T>, before: (T, T) -> bool)
    requires IsOrder(before)
    ensures Ordered(SortBy(s, before), before)
  {
    if s != [] {
      SortByOrders(s[..|s| - 1], before);
      InsertByOrdered(SortBy(s[..|s| - 1], before), s[|s| - 1], before);
    }
  }

  /** Equal elements keep their places: what is in order already is left as it is. */
  lemma {:induction false} OrderedStays<T>(s: seq<T>, before: (T, T) -> bool)
    requires Ordered(s, before)
    ensures SortBy(s, before) == s
  {
    if s != [] {
      OrderedStays(s[..|s| - 1], before);
      assert |s| >= 2 ==> !before(s[|s| - 1], s[|s| - 2]);
    }
  }

  /** Any two elements are related, both ways. */
  predicate AllPairs<T>(s: seq<T>, rel: (T, T) -> bool) {
    forall i, j :: 0 <= i < j < |s| ==> rel(s[i], s[j]) && rel(s[j], s[i])
  }

  lemma {:induction false} InsertByKeepsPairs<T>(s: seq<T>, x: T, before: (T, T) -> bool, rel: (T, T) -> bool)
    requires AllPairs(s, rel) && forall i :: 0 <= i < |s| ==> rel(x, s[i]) && rel(s[i], x)
    ensures AllPairs(InsertBy(s, x, before), rel)
  {
    if s != [] && before(x, s[|s| - 1]) {
      var front, last := s[..|s| - 1], s[|s| - 1];
      InsertByKeepsPairs(front, x, before, rel);
      InsertByPermutes(front, x, before);
      var r := InsertBy(front, x, before);
      forall i | 0 <= i < |r|
        ensures rel(r[i], last) && rel(last, r[i])
      {
        assert r[i] in multiset(r);
        assert r[i] in multiset(front) || r[i] == x;
      }
    }
  }

  lemma {:induction false} SortByKeepsPairs<T>(s: seq<T>, before: (T, T) -> bool, rel: (T, T) -> bool)
    requires AllPairs(s, rel)
    ensures AllPairs(SortBy(s, before), rel)
  {
    if s != [] {
      var front, last := s[..|s| - 1], s[|s| - 1];
      SortByKeepsPairs(front, before, rel);
      SortByPermutes(front, before);
      var r := SortBy(front, before);
      forall i | 0 <= i < |r|
        ensures rel(r[i], last) && rel(last, r[i])
      {
        assert r[i] in multiset(r);
        assert r[i] in multiset(front);
      }
      InsertByKeepsPairs(r, last, before, rel);
    }
  }

  function WithoutAt<T>(s: seq<T>, i: nat): seq<T>
    requires i < |s|
  {
    s[..i] + s[i + 1..]
  }

  lemma WithoutAtMembers<T>(s: seq<T>, i: nat)
    requires i < |s|
    ensures multiset(s) == multiset(WithoutAt(s, i)) + multiset{s[i]}
  {
    assert s == s[..i] + ([s[i]] + s[i + 1..]);
  }

  /** Where the last element of a permutation stands. */
  lemma LastInPermutation<T>(a: seq<T>, b: seq<T>) returns (i: nat)
    requires multiset(a) == multiset(b) && a != []
    ensures i < |b| && b[i] == a[|a| - 1] && multiset(a[..|a| - 1]) == multiset(WithoutAt(b, i))
  {
    var front, t := a[..|a| - 1], a[|a| - 1];
    assert a == front + [t];
    assert t in multiset(b);
    i :| 0 <= i < |b| && b[i] == t;
    WithoutAtMembers(b, i);
    assert multiset(front) + multiset{t} == multiset(WithoutAt(b, i)) + multiset{t};
    forall x
      ensures multiset(front)[x] == multiset(WithoutAt(b, i))[x]
    {
      assert (multiset(front) + multiset{t})[x] == (multiset(WithoutAt(b, i)) + multiset{t})[x];
    }
  }

  // ---- Elements that the comparison tells apart ----

  predicate Apart<T>(s: seq<T>, before: (T, T) -> bool) {
    forall i, j :: 0 <= i < j < |s| ==> before(s[i], s[j]) || before(s[j], s[i])
  }

  predicate Strict<T>(s: seq<T>, before: (T, T) -> bool) { forall i, j :: 0 <= i < j < |s| ==> before(s[i], s[j]) }

  lemma {:induction false} SortByMembers<T>(s: seq<T>, before: (T, T) -> bool)
    ensures forall x :: x in SortBy(s, before) <==> x in s
  {
    SortByPermutes(s, before);
    forall x
      ensures x in SortBy(s, before) <==> x in s
    {
      assert x in SortBy(s, before) <==> x in multiset(SortBy(s, before));
      assert x in s <==> x in multiset(s);
    }
  }

  lemma {:induction false} InsertByStrict<T(!new)>(s: seq<T>, x: T, before: (T, T) -> bool)
    requires IsOrder(before) && Strict(s, before)
    requires forall i :: 0 <= i < |s| ==> before(x, s[i]) || before(s[i], x)
    ensures Strict(InsertBy(s, x, before), before)
  {
    if s != [] {
      var front, last := s[..|s| - 1], s[|s| - 1];
      if before(x, last) {
        InsertByStrict(front, x, before);
        InsertByPermutes(front, x, before);
        var r := InsertBy(front, x, before);
        forall i | 0 <= i < |r|
          ensures before(r[i], last)
        {
          assert r[i] in multiset(r);
          assert r[i] in multiset(front) || r[i] == x;
        }
      } else {
        forall i | 0 <= i < |s|
          ensures before(s[i], x)
        {
          assert i < |s| - 1 ==> before(s[i], last);
        }
      }
    }
  }

  lemma {:induction false} SortByStrict<T(!new)>(s: seq<T>, before: (T, T) -> bool)
    requires IsOrder(before) && Apart(s, before)
    ensures Strict(SortBy(s, before), before)
  {
    if s != [] {
      var front, last := s[..|s| - 1], s[|s| - 1];
      SortByStrict(front, before);
      SortByMembers(front, before);
      var r := SortBy(front, before);
      forall i | 0 <= i < |r|
        ensures before(last, r[i]) || before(r[i], last)
      {
        assert r[i] in front;
        var j :| 0 <= j < |front| && front[j] == r[i];
        assert before(s[j], s[|s| - 1]) || before(s[|s| - 1], s[j]);
      }
      InsertByStrict(r, last, before);
    }
  }

  /** Only one sequence of given elements is in strict order. */
  lemma {:induction false} StrictIsUnique<T(!new)>(a: seq<T>, b: seq<T>, before: (T, T) -> bool)
    requires IsOrder(before) && Strict(a, before) && Strict(b, before) && forall x :: x in a <==> x in b
    ensures a == b
  {
    if a == [] {
      assert forall i :: 0 <= i < |b| ==> b[i] in b;
    } else {
      assert a[|a| - 1] in b && b != [] && b[|b| - 1] in a;
      var front, other := a[..|a| - 1], b[..|b| - 1];
      SameLast(a, b, before);
      assert a == front + [a[|a| - 1]] && b == other + [b[|b| - 1]];
      forall x
        ensures x in front <==> x in other
      {
        assert x in front ==> x in a;
        assert x in other ==> x in b;
      }
      StrictIsUnique(front, other, before);
    }
  }

  lemma SameLast<T(!new)>(a: seq<T>, b: seq<T>, before: (T, T) -> bool)
    requires IsOrder(before) && Strict(a, before) && Strict(b, before) && a != [] && b != []
    requires forall x :: x in a <==> x in b
    ensures a[|a| - 1] == b[|b| - 1]
  {
    var x, y := a[|a| - 1], b[|b| - 1];
    assert x in b && y in a;
    var i :| 0 <= i < |b| && b[i] == x;
    var j :| 0 <= j < |a| && a[j] == y;
    assert i < |b| - 1 ==> before(x, y);
    assert j < |a| - 1 ==> before(y, x);
  }

  // ---- Text ----

  /** `str::cmp`: by the first character that differs, a prefix first. */
  predicate TextBefore(a: string, b: string) {
    b != "" && (a == "" || a[0] < b[0] || (a[0] == b[0] && TextBefore(a[1..], b[1..])))
  }

  /** The texts agree up to place `i`, where the first one ends or has the smaller character. */
  predicate PrecedesAt(a: string, b: string, i: nat) {
    i <= |a| && i < |b| && a[..i] == b[..i] && (i == |a| || a[i] < b[i])
  }

  lemma PrecedesStep(a: string, b: string, i: nat)
    requires a != "" && b != "" && a[0] == b[0]
    ensures PrecedesAt(a, b, i + 1) <==> PrecedesAt(a[1..], b[1..], i)
  {
    if i < |a| && i + 1 < |b| {
      assert a[..i + 1] == [a[0]] + a[1..][..i] && b[..i + 1] == [b[0]] + b[1..][..i];
      assert a[1..][..i] == a[..i + 1][1..] && b[1..][..i] == b[..i + 1][1..];
    }
  }

  /** The order of text is that of the first characters that differ, a prefix coming first. */
  lemma {:induction false} TextBeforeIff(a: string, b: string)
    ensures TextBefore(a, b) <==> exists i: nat :: PrecedesAt(a, b, i)
  {
    if a != "" && b != "" && a[0] == b[0] {
      TextBeforeIff(a[1..], b[1..]);
      if i: nat :| PrecedesAt(a[1..], b[1..], i) {
        PrecedesStep(a, b, i);
      }
      if i: nat :| PrecedesAt(a, b, i) {
        assert i > 0;
        PrecedesStep(a, b, i - 1);
      }
    } else {
      PrecedesAtOnce(a, b);
    }
  }

  lemma PrecedesAtOnce(a: string, b: string)
    requires a == "" || b == "" || a[0] != b[0]
    ensures (exists i: nat :: PrecedesAt(a, b, i)) <==> b != "" && (a == "" || a[0] < b[0])
  {
    forall i: nat | i > 0
      ensures !PrecedesAt(a, b, i)
    {
      assert i <= |a| && i < |b| ==> a[..i][0] == a[0] && b[..i][0] == b[0];
    }
    assert PrecedesAt(a, b, 0) <==> b != "" && (a == "" || a[0] < b[0]);
  }

  lemma {:induction false} TextIsAsymmetric(a: string, b: string)
    requires TextBefore(a, b)
    ensures !TextBefore(b, a)
  {
    if a != "" && a[0] == b[0] {
      TextIsAsymmetric(a[1..], b[1..]);
    }
  }

  lemma {:induction false} TextIsTotal(a: string, b: string)
    ensures a == b || TextBefore(a, b) || TextBefore(b, a)
  {
    if a != "" && b != "" && a[0] == b[0] {
      TextIsTotal(a[1..], b[1..]);
      assert a == a[..1] + a[1..] && b == b[..1] + b[1..];
    }
  }

  lemma {:induction false} TextIsTransitive(a: string, b: string, c: string)
    requires TextBefore(a, b) && TextBefore(b, c)
    ensures TextBefore(a, c)
  {
    if a != "" && a[0] == b[0] == c[0] {
      TextIsTransitive(a[1..], b[1..], c[1..]);
    }
  }

  lemma TextIsNegativelyTransitive(a: string, b: string, c: string)
    requires TextBefore(a, c)
    ensures TextBefore(a, b) || TextBefore(b, c)
  {
    TextIsTotal(a, b);
    if TextBefore(b, a) {
      TextIsTransitive(b, a, c);
    }
  }
}
