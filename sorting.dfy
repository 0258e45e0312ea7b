/** Ordering query results (SQL's `ORDER BY`) as an insertion sort under a total "comes no later than" relation. */
module Sorting {
  import opened Prelude

  /** Every two elements are comparable one way or the other. */
  ghost predicate Total<T(!new)>(le: (T, T) -> bool) {
    forall a, b :: le(a, b) || le(b, a)
  }

  /** Each element comes no later than its successor. */
  predicate SortedBy<T>(s: seq<T>, le: (T, T) -> bool) {
    forall i :: 0 < i < |s| ==> le(s[i - 1], s[i])
  }

  function InsertBy<T(!new)>(x: T, s: seq<T>, le: (T, T) -> bool): (r: seq<T>)
    requires Total(le) && SortedBy(s, le)
    ensures SortedBy(r, le)
    ensures multiset(r) == multiset(s) + multiset{x}
    ensures |r| == |s| + 1
    ensures r[0] == x || (s != [] && r[0] == s[0])
  {
    if s == [] || le(x, s[0]) then [x] + s
    else
      var rest := InsertBy(x, s[1..], le);
      assert s == [s[0]] + s[1..];
      [s[0]] + rest
  }

  /** `s` rearranged so that it is sorted by `le`. */
  function SortBy<T(!new)>(s: seq<T>, le: (T, T) -> bool): (r: seq<T>)
    requires Total(le)
    ensures SortedBy(r, le)
    ensures multiset(r) == multiset(s)
    ensures |r| == |s|
  {
    if s == [] then []
    else
      assert s == [s[0]] + s[1..];
      InsertBy(s[0], SortBy(s[1..], le), le)
  }

  lemma {:induction false} SumOfInsertBy<T(!new)>(x: T, s: seq<T>, le: (T, T) -> bool, f: T -> real)
    requires Total(le) && SortedBy(s, le)
    ensures SumOf(InsertBy(x, s, le), f) == f(x) + SumOf(s, f)
  {
    if s == [] || le(x, s[0]) {
    } else {
      SumOfInsertBy(x, s[1..], le, f);
    }
  }

  /** Sorting does not change a sum over the rows. */
  lemma {:induction false} SumOfSortBy<T(!new)>(s: seq<T>, le: (T, T) -> bool, f: T -> real)
    requires Total(le)
    ensures SumOf(SortBy(s, le), f) == SumOf(s, f)
  {
    if s != [] {
      SumOfSortBy(s[1..], le, f);
      SumOfInsertBy(s[0], SortBy(s[1..], le), le, f);
    }
  }
}
