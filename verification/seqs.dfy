/**
 * Helpers for tables kept as sequences of rows. A query's WHERE clause is a
 * `Filter`, an aggregate SUM is `SumOf`, and `collections.Counter` is `Count`.
 */
module Seqs {

  /** The rows of `s` that satisfy `p`, in table order. */
  function Filter<T(!new)>(s: seq<T>, p: T -> bool): (r: seq<T>)
    ensures |r| <= |s|
    ensures forall x :: x in r <==> x in s && p(x)
  {
    if s == [] then []
    else (if p(s[0]) then [s[0]] else []) + Filter(s[1..], p)
  }

  /** SUM(f(row)) over the rows of `s`; 0 for no rows (the `or 0` of the callers). */
  function SumOf<T>(s: seq<T>, f: T -> nat): nat
  {
    if s == [] then 0 else f(s[0]) + SumOf(s[1..], f)
  }

  /** Number of occurrences of `x` in `s`, as `collections.Counter(s)[x]`. */
  function Count<T(==)>(s: seq<T>, x: T): nat
  {
    if s == [] then 0 else (if s[0] == x then 1 else 0) + Count(s[1..], x)
  }

  /** No element occurs twice: the shape of a UNIQUE constraint. */
  predicate NoDup<T(==)>(s: seq<T>)
  {
    forall i, j | 0 <= i < j < |s| :: s[i] != s[j]
  }

  /** No two rows share a key. */
  predicate DistinctKeys<T, K(==)>(s: seq<T>, key: T -> K)
  {
    forall i, j | 0 <= i < j < |s| :: key(s[i]) != key(s[j])
  }

  /** Every row's key lies below `bound` (the next value of an autoincrement column). */
  predicate KeysBelow<T>(s: seq<T>, key: T -> nat, bound: nat)
  {
    forall i | 0 <= i < |s| :: key(s[i]) < bound
  }

  lemma {:induction false} FilterAppend<T(!new)>(a: seq<T>, b: seq<T>, p: T -> bool)
    ensures Filter(a + b, p) == Filter(a, p) + Filter(b, p)
  {
    if a == [] {
      assert a + b == b;
    } else {
      assert (a + b)[0] == a[0];
      assert (a + b)[1..] == a[1..] + b;
      FilterAppend(a[1..], b, p);
    }
  }

  /** Filtering with a predicate that every row satisfies changes nothing. */
  lemma {:induction false} FilterAll<T(!new)>(s: seq<T>, p: T -> bool)
    requires forall x :: x in s ==> p(x)
    ensures Filter(s, p) == s
  {
    if s != [] {
      assert s[0] in s;
      forall x | x in s[1..] ensures p(x) { assert x in s; }
      FilterAll(s[1..], p);
    }
  }

  /** A filter keeps the UNIQUE property of a key. */
  lemma {:induction false} FilterDistinctKeys<T(!new), K>(s: seq<T>, p: T -> bool, key: T -> K)
    requires DistinctKeys(s, key)
    ensures DistinctKeys(Filter(s, p), key)
  {
    if s != [] {
      var rest := Filter(s[1..], p);
      FilterDistinctKeys(s[1..], p, key);
      if p(s[0]) {
        var r := [s[0]] + rest;
        forall i, j | 0 <= i < j < |r| ensures key(r[i]) != key(r[j]) {
          if i == 0 {
            assert r[j] in s[1..];
            var k :| 0 <= k < |s[1..]| && s[1..][k] == r[j];
            assert s[k + 1] == r[j];
          } else {
            assert r[i] == rest[i - 1] && r[j] == rest[j - 1];
          }
        }
      }
    }
  }

  /** A filter keeps the absence of duplicates. */
  lemma {:induction false} FilterNoDup<T(!new)>(s: seq<T>, p: T -> bool)
    requires NoDup(s)
    ensures NoDup(Filter(s, p))
  {
    FilterDistinctKeys(s, p, (x: T) => x);
  }

  lemma {:induction false} FilterKeysBelow<T(!new)>(s: seq<T>, p: T -> bool, key: T -> nat, bound: nat)
    requires KeysBelow(s, key, bound)
    ensures KeysBelow(Filter(s, p), key, bound)
  {
    var r := Filter(s, p);
    forall i | 0 <= i < |r| ensures key(r[i]) < bound {
      assert r[i] in s;
      var k :| 0 <= k < |s| && s[k] == r[i];
    }
  }

  lemma {:induction false} SumOfAppend<T>(a: seq<T>, b: seq<T>, f: T -> nat)
    ensures SumOf(a + b, f) == SumOf(a, f) + SumOf(b, f)
  {
    if a == [] {
      assert a + b == b;
    } else {
      assert (a + b)[0] == a[0];
      assert (a + b)[1..] == a[1..] + b;
      SumOfAppend(a[1..], b, f);
    }
  }

  /** Two functions that agree on every row give the same sum. */
  lemma {:induction false} SumOfCongruent<T>(s: seq<T>, f: T -> nat, g: T -> nat)
    requires forall x :: x in s ==> f(x) == g(x)
    ensures SumOf(s, f) == SumOf(s, g)
  {
    if s != [] {
      assert s[0] in s;
      forall x | x in s[1..] ensures f(x) == g(x) { assert x in s; }
      SumOfCongruent(s[1..], f, g);
    }
  }

  lemma {:induction false} CountAppend<T>(a: seq<T>, b: seq<T>, x: T)
    ensures Count(a + b, x) == Count(a, x) + Count(b, x)
  {
    if a == [] {
      assert a + b == b;
    } else {
      assert (a + b)[0] == a[0];
      assert (a + b)[1..] == a[1..] + b;
      CountAppend(a[1..], b, x);
    }
  }

  /** An element occurs in a sequence exactly when its count is positive. */
  lemma {:induction false} CountPositive<T>(s: seq<T>, x: T)
    ensures Count(s, x) > 0 <==> x in s
  {
    if s != [] {
      CountPositive(s[1..], x);
      assert x in s <==> s[0] == x || x in s[1..];
    }
  }

  /** In a sequence without duplicates the number of rows is the number of distinct rows. */
  lemma {:induction false} NoDupCardinality<T>(s: seq<T>)
    requires NoDup(s)
    ensures |set x | x in s| == |s|
  {
    if s != [] {
      var tail := s[1..];
      assert NoDup(tail) by {
        forall i, j | 0 <= i < j < |tail| ensures tail[i] != tail[j] {
          assert tail[i] == s[i + 1] && tail[j] == s[j + 1];
        }
      }
      NoDupCardinality(tail);
      assert s[0] !in tail by {
        forall k | 0 <= k < |tail| ensures tail[k] != s[0] {
          assert tail[k] == s[k + 1];
        }
      }
      assert (set x | x in s) == (set x | x in tail) + {s[0]} by {
        assert forall x :: x in s <==> x == s[0] || x in tail;
      }
    }
  }

  /** A sum over a table is the sum over the rows `p` keeps plus the sum over the rows its complement `q` keeps. */
  lemma {:induction false} SumOfSplit<T(!new)>(s: seq<T>, p: T -> bool, q: T -> bool, f: T -> nat)
    requires forall x :: q(x) == !p(x)
    ensures SumOf(s, f) == SumOf(Filter(s, p), f) + SumOf(Filter(s, q), f)
  {
    if s != [] {
      SumOfSplit(s[1..], p, q, f);
      var head := if p(s[0]) then [s[0]] else [];
      var rest := if q(s[0]) then [s[0]] else [];
      SumOfAppend(head, Filter(s[1..], p), f);
      SumOfAppend(rest, Filter(s[1..], q), f);
    }
  }

  /** Deleting one row: `db.delete(row)` on a table without duplicate rows. */
  function RemoveRow<T(!new, ==)>(s: seq<T>, x: T): (r: seq<T>)
    ensures forall y :: y in r <==> y in s && y != x
  {
    Filter(s, (y: T) => y != x)
  }

  /** Deleting a row that is present removes exactly one row. */
  lemma {:induction false} RemoveRowDeletesOne<T(!new)>(s: seq<T>, x: T)
    requires NoDup(s) && x in s
    ensures NoDup(RemoveRow(s, x))
    ensures |RemoveRow(s, x)| == |s| - 1
  {
    FilterNoDup(s, (y: T) => y != x);
    NoDupCardinality(s);
    NoDupCardinality(RemoveRow(s, x));
    assert (set y | y in RemoveRow(s, x)) == (set y | y in s) - {x};
  }

  /** `.offset(skip).limit(limit)`: the rows from position `skip`, at most `limit` of them. */
  function Page<T>(s: seq<T>, skip: nat, limit: nat): (r: seq<T>)
    ensures |r| <= limit
    ensures skip >= |s| ==> r == []
    ensures |r| == if skip >= |s| then 0 else if limit <= |s| - skip then limit else |s| - skip
    ensures forall i | 0 <= i < |r| :: skip + i < |s| && r[i] == s[skip + i]
  {
    if skip >= |s| then []
    else if limit <= |s| - skip then s[skip..skip + limit]
    else s[skip..]
  }

  /** Appending a row whose key no row has keeps the key unique. */
  lemma AppendDistinctKey<T, K>(s: seq<T>, key: T -> K, x: T)
    requires DistinctKeys(s, key)
    requires forall y :: y in s ==> key(y) != key(x)
    ensures DistinctKeys(s + [x], key)
  {
    var t := s + [x];
    forall i, j | 0 <= i < j < |t| ensures key(t[i]) != key(t[j]) {
      if j == |s| {
        assert t[i] in s;
      } else {
        assert t[i] == s[i] && t[j] == s[j];
      }
    }
  }

  /** Appending a row keyed by the counter keeps the key unique and below the advanced counter. */
  lemma AppendFreshKey<T>(s: seq<T>, key: T -> nat, x: T, bound: nat)
    requires DistinctKeys(s, key) && KeysBelow(s, key, bound)
    requires key(x) == bound
    ensures DistinctKeys(s + [x], key) && KeysBelow(s + [x], key, bound + 1)
  {
    forall y | y in s ensures key(y) != key(x) {
      var k :| 0 <= k < |s| && s[k] == y;
    }
    AppendDistinctKey(s, key, x);
  }

  /** Appending a row that is not present keeps a table free of duplicates. */
  lemma AppendFresh<T>(s: seq<T>, x: T)
    requires NoDup(s) && x !in s
    ensures NoDup(s + [x])
  {
    var t := s + [x];
    forall i, j | 0 <= i < j < |t| ensures t[i] != t[j] {
      if j == |s| {
        assert t[i] in s;
      } else {
        assert t[i] == s[i] && t[j] == s[j];
      }
    }
  }

  /** Filters with predicates that agree on every row are equal. */
  lemma {:induction false} FilterCongruent<T(!new)>(s: seq<T>, p: T -> bool, q: T -> bool)
    requires forall x :: x in s ==> p(x) == q(x)
    ensures Filter(s, p) == Filter(s, q)
  {
    if s != [] {
      assert s[0] in s;
      forall x | x in s[1..] ensures p(x) == q(x) { assert x in s; }
      FilterCongruent(s[1..], p, q);
    }
  }

  /** Appending rows keyed by consecutive counter values keeps the key unique and below the advanced counter. */
  lemma AppendConsecutiveKeys<T>(s: seq<T>, t: seq<T>, key: T -> nat, bound: nat)
    requires DistinctKeys(s, key) && KeysBelow(s, key, bound)
    requires forall i | 0 <= i < |t| :: key(t[i]) == bound + i
    ensures DistinctKeys(s + t, key) && KeysBelow(s + t, key, bound + |t|)
  {
    var u := s + t;
    forall i, j | 0 <= i < j < |u| ensures key(u[i]) != key(u[j]) {
      if j < |s| {
        assert u[i] == s[i] && u[j] == s[j];
      } else if i < |s| {
        assert u[i] == s[i] && u[j] == t[j - |s|];
      } else {
        assert u[i] == t[i - |s|] && u[j] == t[j - |s|];
      }
    }
    forall i | 0 <= i < |u| ensures key(u[i]) < bound + |t| {
      if i < |s| {
        assert u[i] == s[i];
      } else {
        assert u[i] == t[i - |s|];
      }
    }
  }

  /** Two filters in a row are one filter with both conditions. */
  lemma {:induction false} FilterOfFilter<T(!new)>(s: seq<T>, p: T -> bool, q: T -> bool)
    ensures Filter(Filter(s, p), q) == Filter(s, (x: T) => p(x) && q(x))
  {
    if s != [] {
      FilterOfFilter(s[1..], p, q);
      var pq := (x: T) => p(x) && q(x);
      assert Filter(s, pq) == (if pq(s[0]) then [s[0]] else []) + Filter(s[1..], pq);
      if p(s[0]) {
        assert Filter(s, p) == [s[0]] + Filter(s[1..], p);
        FilterAppend([s[0]], Filter(s[1..], p), q);
        assert Filter([s[0]], q) == if q(s[0]) then [s[0]] else [] by {
          assert [s[0]][1..] == [];
        }
      } else {
        assert Filter(s, p) == Filter(s[1..], p);
      }
    }
  }
  /** Filtering twice is filtering once by any predicate equal to the conjunction. */
  lemma FilterConjunction<T(!new)>(s: seq<T>, p: T -> bool, q: T -> bool, pq: T -> bool)
    requires forall x :: pq(x) == (p(x) && q(x))
    ensures Filter(Filter(s, p), q) == Filter(s, pq)
  {
    FilterOfFilter(s, p, q);
    FilterCongruent(s, (x: T) => p(x) && q(x), pq);
  }


  /** Appending rows whose keys are distinct among themselves and from the existing rows keeps keys distinct. */
  lemma AppendDisjointKeys<T, K>(s: seq<T>, t: seq<T>, key: T -> K)
    requires DistinctKeys(s, key) && DistinctKeys(t, key)
    requires forall i, j | 0 <= i < |s| && 0 <= j < |t| :: key(s[i]) != key(t[j])
    ensures DistinctKeys(s + t, key)
  {
    var u := s + t;
    forall i, j | 0 <= i < j < |u| ensures key(u[i]) != key(u[j]) {
      if j < |s| {
        assert u[i] == s[i] && u[j] == s[j];
      } else if i < |s| {
        assert u[i] == s[i] && u[j] == t[j - |s|];
      } else {
        assert u[i] == t[i - |s|] && u[j] == t[j - |s|];
      }
    }
  }

  /** `s` with every row replaced by its image under `f`: an UPDATE applied row by row. */
  function MapRows<T>(s: seq<T>, f: T -> T): (r: seq<T>)
    ensures |r| == |s|
    ensures forall i | 0 <= i < |r| :: r[i] == f(s[i])
  {
    if s == [] then [] else [f(s[0])] + MapRows(s[1..], f)
  }

  /** An update that leaves the key alone keeps keys distinct and below their counter. */
  lemma MapRowsKeepsKeys<T>(s: seq<T>, f: T -> T, key: T -> nat, bound: nat)
    requires forall x :: key(f(x)) == key(x)
    requires DistinctKeys(s, key) && KeysBelow(s, key, bound)
    ensures DistinctKeys(MapRows(s, f), key) && KeysBelow(MapRows(s, f), key, bound)
  {
    var r := MapRows(s, f);
    forall i | 0 <= i < |r| ensures key(r[i]) == key(s[i]) {
      assert r[i] == f(s[i]);
    }
  }
}
