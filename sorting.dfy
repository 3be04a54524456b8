/** Order-preserving filtering and a stable insertion sort, the two list
    operations a store read is built from. The store's ORDER BY is modelled by
    the stable sort: rows whose sort keys tie keep the order they have in the
    snapshot, which fixes one deterministic order for ties. */
module Sorting {

  /** Keeps the elements satisfying `keep`, in their original order. */
  function Filter<T(!new)>(s: seq<T>, keep: T -> bool): (r: seq<T>)
    ensures |r| <= |s|
    ensures forall x :: x in r <==> x in s && keep(x)
    ensures forall i :: 0 <= i < |r| ==> keep(r[i])
  {
    if |s| == 0 then []
    else if keep(s[0]) then [s[0]] + Filter(s[1..], keep)
    else Filter(s[1..], keep)
  }

  /** No two elements of `s` both satisfy `keep`. */
  predicate AtMostOneKept<T>(s: seq<T>, keep: T -> bool) {
    forall i, j :: 0 <= i < j < |s| && keep(s[i]) ==> !keep(s[j])
  }

  lemma {:induction false} FilterNoneKept<T(!new)>(s: seq<T>, keep: T -> bool)
    requires forall i :: 0 <= i < |s| ==> !keep(s[i])
    ensures Filter(s, keep) == []
  {
    if |s| > 0 {
      FilterNoneKept(s[1..], keep);
    }
  }

  /** What `.single()` relies on: when at most one element satisfies `keep`,
      the filter keeps at most one element. */
  lemma {:induction false} FilterAtMostOne<T(!new)>(s: seq<T>, keep: T -> bool)
    requires AtMostOneKept(s, keep)
    ensures |Filter(s, keep)| <= 1
  {
    if |s| > 0 {
      assert AtMostOneKept(s[1..], keep) by {
        forall i, j | 0 <= i < j < |s| - 1 && keep(s[1..][i]) ensures !keep(s[1..][j]) {
          assert s[1..][i] == s[i + 1] && s[1..][j] == s[j + 1];
        }
      }
      FilterAtMostOne(s[1..], keep);
      if keep(s[0]) {
        assert forall j :: 0 <= j < |s| - 1 ==> !keep(s[1..][j]) by {
          assert forall j :: 0 <= j < |s| - 1 ==> s[1..][j] == s[j + 1];
        }
        FilterNoneKept(s[1..], keep);
      }
    }
  }

  /** When at most one element satisfies `keep`, the filter keeps exactly one
      element if and only if some element satisfies `keep`. */
  lemma FilterSingle<T(!new)>(s: seq<T>, keep: T -> bool)
    ensures AtMostOneKept(s, keep) ==> ((exists x :: x in s && keep(x)) <==> |Filter(s, keep)| == 1)
  {
    if AtMostOneKept(s, keep) {
      FilterAtMostOne(s, keep);
      if x :| x in s && keep(x) {
        assert x in Filter(s, keep);
      }
      if |Filter(s, keep)| == 1 {
        assert Filter(s, keep)[0] in Filter(s, keep);
      }
    }
  }

  /** `le(a, b)`: `a` may be placed before `b`. */
  ghost predicate TotalPreorder<T(!new)>(le: (T, T) -> bool) {
    (forall a, b :: le(a, b) || le(b, a)) &&
    (forall a, b, c :: le(a, b) && le(b, c) ==> le(a, c))
  }

  predicate SortedBy<T>(s: seq<T>, le: (T, T) -> bool) {
    forall i, j :: 0 <= i < j < |s| ==> le(s[i], s[j])
  }

  /** Places `x` in front of the first element it may precede. */
  function Insert<T>(x: T, s: seq<T>, le: (T, T) -> bool): (r: seq<T>)
    ensures multiset(r) == multiset(s) + multiset{x}
  {
    if |s| == 0 || le(x, s[0]) then [x] + s
    else
      assert s == [s[0]] + s[1..];
      [s[0]] + Insert(x, s[1..], le)
  }

  function SortBy<T>(s: seq<T>, le: (T, T) -> bool): (r: seq<T>)
    ensures multiset(r) == multiset(s)
    ensures |r| == |s|
  {
    if |s| == 0 then []
    else
      assert s == [s[0]] + s[1..];
      Insert(s[0], SortBy(s[1..], le), le)
  }

  lemma {:induction false} InsertSorted<T(!new)>(x: T, s: seq<T>, le: (T, T) -> bool)
    requires TotalPreorder(le)
    requires SortedBy(s, le)
    ensures SortedBy(Insert(x, s, le), le)
  {
    if |s| > 0 && !le(x, s[0]) {
      InsertSorted(x, s[1..], le);
      var r := Insert(x, s, le);
      var t := Insert(x, s[1..], le);
      assert r == [s[0]] + t;
      assert le(s[0], x);
      forall k | 0 <= k < |t| ensures le(s[0], t[k]) {
        assert t[k] in multiset(s[1..]) + multiset{x};
        if t[k] != x {
          assert t[k] in s[1..];
        }
      }
    }
  }

  /** Sorting by a total preorder yields a list ordered by it. */
  lemma {:induction false} SortBySorted<T(!new)>(s: seq<T>, le: (T, T) -> bool)
    requires TotalPreorder(le)
    ensures SortedBy(SortBy(s, le), le)
  {
    if |s| > 0 {
      SortBySorted(s[1..], le);
      InsertSorted(s[0], SortBy(s[1..], le), le);
    }
  }
}
