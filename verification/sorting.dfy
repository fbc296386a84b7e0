/** Stable sorting by a "may precede" relation, as JavaScript's `Array.prototype.sort` (stable
    since ES2019) and the database's `orderBy` listings are modelled. */
module Sorting {

  /** `le` is total and transitive on the values that satisfy `dom`. */
  ghost predicate TotalPreorderOn<T(!new)>(le: (T, T) -> bool, dom: T -> bool) {
    && (forall a, b :: dom(a) && dom(b) ==> le(a, b) || le(b, a))
    && (forall a, b, c :: dom(a) && dom(b) && dom(c) && le(a, b) && le(b, c) ==> le(a, c))
  }

  ghost predicate AllIn<T>(s: seq<T>, dom: T -> bool) {
    forall i :: 0 <= i < |s| ==> dom(s[i])
  }

  /** Every element may precede every later one. */
  ghost predicate SortedBy<T>(s: seq<T>, le: (T, T) -> bool) {
    forall i, j :: 0 <= i < j < |s| ==> le(s[i], s[j])
  }

  /** Places `x` in front of the first element it may precede. */
  function Insert<T(==)>(x: T, s: seq<T>, le: (T, T) -> bool): (r: seq<T>)
    ensures multiset(r) == multiset(s) + multiset{x}
    decreases |s|
  {
    if |s| == 0 then [x]
    else if le(x, s[0]) then [x] + s
    else
      assert s == [s[0]] + s[1..];
      [s[0]] + Insert(x, s[1..], le)
  }

  /** Insertion sort: each element, from the last to the first, is inserted into the sorted
      rest; an element goes before everything it ties with, so equal elements keep their order. */
  function SortBy<T(==)>(s: seq<T>, le: (T, T) -> bool): (r: seq<T>)
    ensures multiset(r) == multiset(s)
    decreases |s|
  {
    if |s| == 0 then []
    else
      assert s == [s[0]] + s[1..];
      Insert(s[0], SortBy(s[1..], le), le)
  }

  lemma ElementsFromMultiset<T>(r: seq<T>, s: seq<T>, dom: T -> bool)
    requires multiset(r) == multiset(s)
    requires AllIn(s, dom)
    ensures AllIn(r, dom)
  {
    forall i | 0 <= i < |r|
      ensures dom(r[i])
    {
      assert r[i] in multiset(r);
      assert r[i] in s;
    }
  }

  /** Inserting into a sorted sequence keeps it sorted. */
  lemma {:induction false} InsertSorted<T(!new)>(x: T, s: seq<T>, le: (T, T) -> bool, dom: T -> bool)
    requires TotalPreorderOn(le, dom)
    requires dom(x) && AllIn(s, dom)
    requires SortedBy(s, le)
    ensures SortedBy(Insert(x, s, le), le)
    decreases |s|
  {
    if |s| > 0 && !le(x, s[0]) {
      var tail := Insert(x, s[1..], le);
      InsertSorted(x, s[1..], le, dom);
      forall j | 0 <= j < |tail|
        ensures le(s[0], tail[j])
      {
        assert tail[j] in multiset(tail);
        if tail[j] != x {
          assert tail[j] in s[1..];
          var k :| 0 <= k < |s[1..]| && s[1..][k] == tail[j];
          assert s[k + 1] == tail[j];
        }
      }
    }
  }

  /** Under a total preorder the sort's output is sorted (and, by its contract, a permutation). */
  lemma {:induction false} SortBySorted<T(!new)>(s: seq<T>, le: (T, T) -> bool, dom: T -> bool)
    requires TotalPreorderOn(le, dom)
    requires AllIn(s, dom)
    ensures SortedBy(SortBy(s, le), le)
    decreases |s|
  {
    if |s| > 0 {
      SortBySorted(s[1..], le, dom);
      ElementsFromMultiset(SortBy(s[1..], le), s[1..], dom);
      InsertSorted(s[0], SortBy(s[1..], le), le, dom);
    }
  }

  /** When every element may precede every other, sorting leaves the order unchanged. */
  lemma {:induction false} SortByAllTies<T>(s: seq<T>, le: (T, T) -> bool)
    requires forall i, j :: 0 <= i < |s| && 0 <= j < |s| ==> le(s[i], s[j])
    ensures SortBy(s, le) == s
    decreases |s|
  {
    if |s| > 0 {
      var rest := s[1..];
      forall i, j | 0 <= i < |rest| && 0 <= j < |rest|
        ensures le(rest[i], rest[j])
      {
        assert rest[i] == s[i + 1] && rest[j] == s[j + 1];
      }
      SortByAllTies(rest, le);
      assert SortBy(s, le) == Insert(s[0], rest, le);
      if |rest| > 0 {
        assert le(s[0], rest[0]) by {
          assert rest[0] == s[1];
        }
      }
      assert s == [s[0]] + rest;
    }
  }
}
