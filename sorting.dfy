/**
 * Sorting as the document store applies `.sort(...)` to a cursor: the result
 * holds the same documents, ordered by a total preorder on their sort keys.
 * The model uses a stable insertion sort; ties keep store order.
 */
module Sorting {

  /** leq is total and transitive on all values: a valid ordering of sort keys. */
  ghost predicate TotalPreorder<T(!new)>(leq: (T, T) -> bool)
  {
    (forall a, b :: leq(a, b) || leq(b, a)) &&
    (forall a, b, c :: leq(a, b) && leq(b, c) ==> leq(a, c))
  }

  predicate SortedBy<T>(s: seq<T>, leq: (T, T) -> bool)
  {
    forall i, j :: 0 <= i < j < |s| ==> leq(s[i], s[j])
  }

  /** Insert x after every element that sorts at or before it. */
  function InsertBy<T>(x: T, s: seq<T>, leq: (T, T) -> bool): (r: seq<T>)
    ensures |r| == |s| + 1
    ensures multiset(r) == multiset(s) + multiset{x}
  {
    if s == [] then [x]
    else if leq(s[0], x) then
      assert s == [s[0]] + s[1..];
      [s[0]] + InsertBy(x, s[1..], leq)
    else [x] + s
  }

  function SortBy<T>(s: seq<T>, leq: (T, T) -> bool): (r: seq<T>)
    ensures |r| == |s|
    ensures multiset(r) == multiset(s)
  {
    if s == [] then []
    else
      assert s == s[..|s| - 1] + [s[|s| - 1]];
      InsertBy(s[|s| - 1], SortBy(s[..|s| - 1], leq), leq)
  }

  lemma {:induction false} InsertBySorted<T(!new)>(x: T, s: seq<T>, leq: (T, T) -> bool)
    requires TotalPreorder(leq)
    requires SortedBy(s, leq)
    ensures SortedBy(InsertBy(x, s, leq), leq)
  {
    if s != [] {
      if leq(s[0], x) {
        var tail := InsertBy(x, s[1..], leq);
        InsertBySorted(x, s[1..], leq);
        var r := [s[0]] + tail;
        forall i, j | 0 <= i < j < |r| ensures leq(r[i], r[j]) {
          assert r[j] == tail[j - 1];
          if i == 0 {
            assert tail[j - 1] in multiset(tail);
            HeadLeq(s, x, tail[j - 1], leq);
          } else {
            assert r[i] == tail[i - 1];
          }
        }
      } else {
        assert leq(x, s[0]);
      }
    }
  }

  /** The head of a sorted sequence sorts at or before every later element and every value it sorts at or before. */
  lemma HeadLeq<T(!new)>(s: seq<T>, x: T, y: T, leq: (T, T) -> bool)
    requires TotalPreorder(leq) && SortedBy(s, leq) && s != [] && leq(s[0], x)
    requires y in multiset(s[1..]) + multiset{x}
    ensures leq(s[0], y)
  {
    if y != x {
      var k :| 0 <= k < |s[1..]| && s[1..][k] == y;
      assert s[k + 1] == y;
    }
  }

  /** The model's sort orders its result and loses or adds no element. */
  lemma {:induction false} SortBySorted<T(!new)>(s: seq<T>, leq: (T, T) -> bool)
    requires TotalPreorder(leq)
    ensures SortedBy(SortBy(s, leq), leq)
  {
    if s != [] {
      SortBySorted(s[..|s| - 1], leq);
      InsertBySorted(s[|s| - 1], SortBy(s[..|s| - 1], leq), leq);
    }
  }

  /** Elements satisfying p, in order (a store `find` with a filter). */
  function Filter<T>(s: seq<T>, p: T -> bool): (r: seq<T>)
    ensures |r| <= |s|
    ensures forall i :: 0 <= i < |r| ==> r[i] in s && p(r[i])
    ensures forall i :: 0 <= i < |s| && p(s[i]) ==> s[i] in r
    ensures multiset(r) <= multiset(s)
  {
    if s == [] then []
    else
      assert s == [s[0]] + s[1..];
      if p(s[0]) then [s[0]] + Filter(s[1..], p) else Filter(s[1..], p)
  }

  /** A prefix one element longer is the prefix with that element appended. */
  lemma PrefixExtend<T>(s: seq<T>, i: nat)
    requires i < |s|
    ensures s[..i + 1] == s[..i] + [s[i]]
  {
  }

  /** Filtering distributes over appending one element. */
  lemma {:induction false} FilterAppend<T>(s: seq<T>, x: T, p: T -> bool)
    ensures Filter(s + [x], p) == Filter(s, p) + (if p(x) then [x] else [])
  {
    if s != [] {
      var t := s + [x];
      var hd := if p(s[0]) then [s[0]] else [];
      var extra := if p(x) then [x] else [];
      assert t[1..] == s[1..] + [x];
      FilterAppend(s[1..], x, p);
      ConsStep(Filter(t, p), Filter(t[1..], p), Filter(s, p), Filter(s[1..], p), hd, extra);
    }
  }

  /** The sequence algebra of one step of FilterAppend. */
  lemma ConsStep<T>(whole: seq<T>, rest: seq<T>, front: seq<T>, frontRest: seq<T>, hd: seq<T>, extra: seq<T>)
    requires whole == hd + rest && front == hd + frontRest && rest == frontRest + extra
    ensures whole == front + extra
  {
  }

  /** Filters that agree on every element select the same elements. */
  lemma {:induction false} FilterSame<T>(s: seq<T>, p: T -> bool, q: T -> bool)
    requires forall x :: p(x) == q(x)
    ensures Filter(s, p) == Filter(s, q)
  {
    if s != [] {
      FilterSame(s[1..], p, q);
    }
  }
}
