/** The library sorts the program calls. They are not stable, so callers are told only
    that the result is a permutation in key order. */
module Sorting {

  ghost predicate SortedBy<T>(s: seq<T>, key: T -> int) {
    forall i, j :: 0 <= i < j < |s| ==> key(s[i]) <= key(s[j])
  }

  function Insert<T>(s: seq<T>, x: T, key: T -> int): seq<T> {
    if s == [] || key(x) <= key(s[0]) then [x] + s else [s[0]] + Insert(s[1..], x, key)
  }

  lemma {:induction false} InsertMembers<T>(s: seq<T>, x: T, key: T -> int)
    ensures multiset(Insert(s, x, key)) == multiset(s + [x])
  {
    if s == [] || key(x) <= key(s[0]) {
    } else {
      InsertMembers(s[1..], x, key);
      assert s + [x] == [s[0]] + (s[1..] + [x]);
    }
  }

  /** A permutation has the same members. */
  lemma SameMembers<T>(a: seq<T>, b: seq<T>)
    requires multiset(a) == multiset(b)
    ensures |a| == |b|
    ensures forall x :: x in a ==> x in b
    ensures forall x :: x in b ==> x in a
  {
    assert |multiset(a)| == |multiset(b)|;
    forall x | x in a
      ensures x in b
    {
      assert x in multiset(a) && x in multiset(b);
    }
    forall x | x in b
      ensures x in a
    {
      assert x in multiset(a) && x in multiset(b);
    }
  }

  lemma {:induction false} InsertSorted<T>(s: seq<T>, x: T, key: T -> int)
    requires SortedBy(s, key)
    ensures SortedBy(Insert(s, x, key), key)
  {
    if s == [] || key(x) <= key(s[0]) {
    } else {
      InsertSorted(s[1..], x, key);
      InsertAbove(s, x, key);
      Prepend(s[0], Insert(s[1..], x, key), key);
    }
  }

  lemma InsertAbove<T>(s: seq<T>, x: T, key: T -> int)
    requires SortedBy(s, key) && s != [] && key(s[0]) <= key(x)
    ensures forall y :: y in Insert(s[1..], x, key) ==> key(s[0]) <= key(y)
  {
    InsertMembers(s[1..], x, key);
    SameMembers(Insert(s[1..], x, key), s[1..] + [x]);
    assert s == [s[0]] + s[1..];
    hide Insert;
    forall y | y in Insert(s[1..], x, key)
      ensures key(s[0]) <= key(y)
    {
      assert y in s[1..] + [x];
      if y in s[1..] { LeastFirst(s, y, key); }
    }
  }

  lemma LeastFirst<T>(s: seq<T>, y: T, key: T -> int)
    requires SortedBy(s, key) && y in s
    ensures key(s[0]) <= key(y)
  {
  }

  lemma Prepend<T>(x: T, s: seq<T>, key: T -> int)
    requires SortedBy(s, key)
    requires forall y :: y in s ==> key(x) <= key(y)
    ensures SortedBy([x] + s, key)
  {
  }

  method SortBy<T>(s: seq<T>, key: T -> int) returns (r: seq<T>)
    ensures SortedBy(r, key)
    ensures multiset(r) == multiset(s)
  {
    r := [];
    for i := 0 to |s|
      invariant SortedBy(r, key)
      invariant multiset(r) == multiset(s[..i])
    {
      hide SortedBy, Insert;
      InsertSorted(r, s[i], key);
      InsertMembers(r, s[i], key);
      assert s[..i + 1] == s[..i] + [s[i]];
      r := Insert(r, s[i], key);
    }
    assert s[..|s|] == s;
  }

  ghost predicate NoDuplicates<T>(s: seq<T>) {
    forall i, j :: 0 <= i < j < |s| ==> s[i] != s[j]
  }

  lemma {:induction false} CountedOnce<T>(s: seq<T>)
    ensures NoDuplicates(s) <==> forall x :: x in s ==> multiset(s)[x] == 1
  {
    if s != [] {
      var last, front := s[|s| - 1], s[..|s| - 1];
      assert s == front + [last];
      CountedOnce(front);
      if NoDuplicates(s) {
        assert forall i, j :: 0 <= i < j < |front| ==> front[i] == s[i] && front[j] == s[j];
        assert last !in front;
      } else if forall x :: x in s ==> multiset(s)[x] == 1 {
        assert last in s && last !in front;
        assert forall x :: x in front ==> x in s && multiset(front)[x] == 1;
      }
    }
  }

  lemma PermutedDistinct<T>(a: seq<T>, b: seq<T>)
    requires multiset(a) == multiset(b) && NoDuplicates(a)
    ensures NoDuplicates(b)
  {
    SameMembers(a, b);
    CountedOnce(a);
    CountedOnce(b);
  }
}
