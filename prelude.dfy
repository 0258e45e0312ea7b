/** Small value types and sequence utilities shared by the whole model. */
module Prelude {

  /** A nullable column or an optional request field. */
  datatype Option<+T> = None | Some(value: T)

  /** The outcome of an operation that can throw. */
  datatype Result<+T, +E> = Success(value: T) | Failure(error: E)

  /** A strictly positive integer, such as the number of pieces in one pack. */
  type PosInt = n: int | n > 0 witness 1

  /** No element occurs twice. */
  predicate Distinct<T(==)>(s: seq<T>) {
    forall i, j :: 0 <= i < j < |s| ==> s[i] != s[j]
  }

  /** `a` is obtained from `b` by deleting elements: it keeps their relative order. */
  predicate Subsequence<T(==)>(a: seq<T>, b: seq<T>)
    decreases |b|
  {
    if a == [] then true
    else if b == [] then false
    else (a[0] == b[0] && Subsequence(a[1..], b[1..])) || Subsequence(a, b[1..])
  }

  lemma {:induction false} SubsequenceTransitive<T>(a: seq<T>, b: seq<T>, c: seq<T>)
    requires Subsequence(a, b) && Subsequence(b, c)
    ensures Subsequence(a, c)
    decreases |c|
  {
    if a == [] {
    } else if b[0] == c[0] && Subsequence(b[1..], c[1..]) {
      if a[0] == b[0] && Subsequence(a[1..], b[1..]) {
        SubsequenceTransitive(a[1..], b[1..], c[1..]);
      } else {
        SubsequenceTransitive(a, b[1..], c[1..]);
      }
    } else {
      SubsequenceTransitive(a, b, c[1..]);
    }
  }

  /** An element of a subsequence is an element of the whole. */
  lemma {:induction false} SubsequenceMember<T>(a: seq<T>, b: seq<T>, j: nat)
    requires Subsequence(a, b) && j < |a|
    ensures a[j] in b
    decreases |b|
  {
    if a[0] == b[0] && Subsequence(a[1..], b[1..]) {
      if j > 0 {
        SubsequenceMember(a[1..], b[1..], j - 1);
      }
    } else {
      SubsequenceMember(a, b[1..], j);
    }
  }

  /** The elements of `s` that satisfy `p`, in their original order (JavaScript's `filter`, SQL's `WHERE`). */
  function Filter<T(==)>(s: seq<T>, p: T -> bool): (r: seq<T>)
    ensures |r| <= |s|
  {
    if s == [] then []
    else if p(s[0]) then [s[0]] + Filter(s[1..], p)
    else Filter(s[1..], p)
  }

  /**
   * The filter keeps exactly the elements that satisfy `p`, in their original order,
   * and keeps them distinct when they were.
   */
  lemma {:induction false} FilterFacts<T>(s: seq<T>, p: T -> bool)
    ensures var r := Filter(s, p);
            && (forall i :: 0 <= i < |r| ==> r[i] in s && p(r[i]))
            && (forall i :: 0 <= i < |s| && p(s[i]) ==> s[i] in r)
            && Subsequence(r, s)
            && (Distinct(s) ==> Distinct(r))
    decreases |s|
  {
    if s != [] {
      var rest := s[1..];
      FilterFacts(rest, p);
      var fr := Filter(rest, p);
      var r := Filter(s, p);
      forall i | 0 <= i < |s| && p(s[i])
        ensures s[i] in r
      {
        if i > 0 {
          assert s[i] == rest[i - 1];
        }
      }
      if p(s[0]) {
        assert r == [s[0]] + fr;
        assert r[1..] == fr;
        if Distinct(s) {
          forall j | 0 <= j < |fr|
            ensures fr[j] != s[0]
          {
            var k :| 0 <= k < |rest| && rest[k] == fr[j];
            assert s[k + 1] == fr[j];
          }
        }
      } else {
        assert r == fr;
      }
    }
  }

  lemma {:induction false} FilterAppend<T>(s: seq<T>, t: seq<T>, p: T -> bool)
    ensures Filter(s + t, p) == Filter(s, p) + Filter(t, p)
  {
    if s == [] {
      assert s + t == t;
    } else {
      assert (s + t)[1..] == s[1..] + t;
      FilterAppend(s[1..], t, p);
    }
  }

  /** Two filters in a row depend only on the conjunction of their conditions. */
  lemma {:induction false} FilterTwice<T>(s: seq<T>, p: T -> bool, q: T -> bool, p2: T -> bool, q2: T -> bool)
    requires forall x :: (p(x) && q(x)) == (p2(x) && q2(x))
    ensures Filter(Filter(s, p), q) == Filter(Filter(s, p2), q2)
  {
    if s != [] {
      FilterTwice(s[1..], p, q, p2, q2);
    }
  }

  /** Filtering by `p` and then by `q` is filtering once by their conjunction. */
  lemma {:induction false} FilterConj<T>(s: seq<T>, p: T -> bool, q: T -> bool, r: T -> bool)
    requires forall x :: r(x) == (p(x) && q(x))
    ensures Filter(Filter(s, p), q) == Filter(s, r)
  {
    if s != [] {
      FilterConj(s[1..], p, q, r);
    }
  }

  /** The sum of `f` over the elements of `s` (SQL's `SUM`, 0 on no rows). */
  function SumOf<T>(s: seq<T>, f: T -> real): real {
    if s == [] then 0.0 else f(s[0]) + SumOf(s[1..], f)
  }

  lemma {:induction false} SumOfAppend<T>(s: seq<T>, t: seq<T>, f: T -> real)
    ensures SumOf(s + t, f) == SumOf(s, f) + SumOf(t, f)
  {
    if s == [] {
      assert s + t == t;
    } else {
      assert (s + t)[1..] == s[1..] + t;
      SumOfAppend(s[1..], t, f);
    }
  }

  /** The integer sum of `f` over the elements of `s`. */
  function IntSumOf<T>(s: seq<T>, f: T -> int): int {
    if s == [] then 0 else f(s[0]) + IntSumOf(s[1..], f)
  }

  lemma {:induction false} IntSumOfAppend<T>(s: seq<T>, t: seq<T>, f: T -> int)
    ensures IntSumOf(s + t, f) == IntSumOf(s, f) + IntSumOf(t, f)
  {
    if s == [] {
      assert s + t == t;
    } else {
      assert (s + t)[1..] == s[1..] + t;
      IntSumOfAppend(s[1..], t, f);
    }
  }
}
