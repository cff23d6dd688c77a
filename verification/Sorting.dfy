/** A stable sort by a comparison, standing for the host's `Array.prototype.sort`, and what
    callers may conclude about its result. */
module Sorting {

  /** `le(a, b)` says that `a` may stand before `b`. */
  ghost predicate Ordering<T(!new)>(le: (T, T) -> bool) {
    && (forall a, b :: le(a, b) || le(b, a))
    && (forall a, b, c :: le(a, b) && le(b, c) ==> le(a, c))
  }

  ghost predicate Sorted<T>(le: (T, T) -> bool, s: seq<T>) {
    forall i, j | 0 <= i < j < |s| :: le(s[i], s[j])
  }

  function Insert<T>(le: (T, T) -> bool, x: T, s: seq<T>): (r: seq<T>)
    ensures multiset(r) == multiset(s) + multiset{x}
    ensures |r| == |s| + 1
  {
    if s == [] then [x]
    else if le(x, s[0]) then
      assert [x] + s == [x, s[0]] + s[1..];
      [x] + s
    else
      assert s == [s[0]] + s[1..];
      [s[0]] + Insert(le, x, s[1..])
  }

  function SortBy<T>(le: (T, T) -> bool, s: seq<T>): (r: seq<T>)
    ensures multiset(r) == multiset(s)
    ensures |r| == |s|
  {
    if s == [] then []
    else
      assert s == [s[0]] + s[1..];
      Insert(le, s[0], SortBy(le, s[1..]))
  }

  lemma SameMembers<T>(a: seq<T>, b: seq<T>)
    requires multiset(a) == multiset(b)
    ensures |a| == |b|
    ensures forall x :: x in a <==> x in b
  {
    assert |multiset(a)| == |a| && |multiset(b)| == |b|;
    forall x ensures x in a <==> x in b {
      assert x in a <==> x in multiset(a);
      assert x in b <==> x in multiset(b);
    }
  }

  lemma {:induction false} InsertKeepsSorted<T(!new)>(le: (T, T) -> bool, x: T, s: seq<T>)
    requires Ordering(le) && Sorted(le, s)
    ensures Sorted(le, Insert(le, x, s))
  {
    if s == [] {
    } else if le(x, s[0]) {
    } else {
      var tail := Insert(le, x, s[1..]);
      InsertKeepsSorted(le, x, s[1..]);
      assert s == [s[0]] + s[1..];
      forall j | 0 <= j < |tail| ensures le(s[0], tail[j]) {
        assert tail[j] in multiset(tail);
        assert tail[j] == x || tail[j] in s[1..];
      }
    }
  }

  lemma {:induction false} SortBySorts<T(!new)>(le: (T, T) -> bool, s: seq<T>)
    requires Ordering(le)
    ensures Sorted(le, SortBy(le, s))
  {
    if s != [] {
      SortBySorts(le, s[1..]);
      InsertKeepsSorted(le, s[0], SortBy(le, s[1..]));
    }
  }

  // ---------------------------------------------------------------- the first few

  predicate Distinct<T(==)>(s: seq<T>) {
    forall i, j | 0 <= i < j < |s| :: s[i] != s[j]
  }

  /** Only equal elements of `s` tie. */
  ghost predicate NoTies<T(!new)>(le: (T, T) -> bool, s: seq<T>) {
    forall x, y | x in s && y in s && le(x, y) && le(y, x) :: x == y
  }

  /** What a bounded, ordered selection from `pool` must be, said without an algorithm: in strict
      order, at most `limit` long, complete unless full, nothing left out ahead of anything kept. */
  ghost predicate IsTop<T(!new)>(le: (T, T) -> bool, limit: nat, pool: seq<T>, r: seq<T>) {
    && Sorted(le, r) && Distinct(r)
    && (forall x | x in r :: x in pool)
    && |r| <= limit
    && (|r| < limit ==> forall x | x in pool :: x in r)
    && (forall x, k | x in pool && x !in r && k in r :: le(k, x))
  }

  function Take<T>(n: nat, s: seq<T>): seq<T> {
    s[..if n <= |s| then n else |s|]
  }

  lemma DistinctFromMultiset<T>(a: seq<T>, b: seq<T>)
    requires multiset(a) == multiset(b) && Distinct(a)
    ensures Distinct(b)
  {
    forall x ensures multiset(a)[x] <= 1 { CountInDistinct(a, x); }
    forall i, j | 0 <= i < j < |b| ensures b[i] != b[j] {
      assert b == b[..j] + [b[j]] + b[j + 1..];
      assert b[i] in b[..j] && multiset(b)[b[j]] <= 1;
    }
  }

  lemma {:induction false} CountInDistinct<T>(a: seq<T>, x: T)
    requires Distinct(a)
    ensures multiset(a)[x] <= 1
  {
    if a != [] {
      CountInDistinct(a[1..], x);
      assert a == [a[0]] + a[1..];
      assert a[0] !in a[1..];
    }
  }

  /** Sorting and cutting selects correctly. */
  lemma TakeOfSortIsTop<T(!new)>(le: (T, T) -> bool, limit: nat, pool: seq<T>)
    requires Ordering(le) && Distinct(pool)
    ensures IsTop(le, limit, pool, Take(limit, SortBy(le, pool)))
  {
    var sorted := SortBy(le, pool);
    SortBySorts(le, pool);
    SameMembers(sorted, pool);
    DistinctFromMultiset(pool, sorted);
    var r := Take(limit, sorted);
    forall x | x in pool ensures x in r || (|r| == limit && forall k | k in r :: le(k, x)) {
      var j :| 0 <= j < |sorted| && sorted[j] == x;
      if j < |r| { assert r[j] == x; }
    }
  }

  /** And there is only one correct selection, whatever order the pool came in. */
  lemma TopIsUnique<T(!new)>(le: (T, T) -> bool, limit: nat, pool: seq<T>, a: seq<T>, b: seq<T>)
    requires NoTies(le, pool) && IsTop(le, limit, pool, a) && IsTop(le, limit, pool, b)
    ensures a == b
  {
    if |a| <= |b| {
      TopIsPrefix(le, limit, pool, a, b, |a|);
    } else {
      TopIsPrefix(le, limit, pool, b, a, |b|);
    }
  }

  lemma NothingBeyond<T>(a: seq<T>, b: seq<T>)
    requires |a| <= |b| && a == b[..|a|] && Distinct(b)
    requires forall x | x in b :: x in a
    ensures a == b
  {
    if b != [] {
      var i := |b| - 1;
      assert b[i] in b;
      var j :| 0 <= j < |a| && a[j] == b[i];
      assert b[j] == b[i];
    }
  }

  lemma {:induction false} TopIsPrefix<T(!new)>(le: (T, T) -> bool, limit: nat, pool: seq<T>, a: seq<T>, b: seq<T>, n: nat)
    requires NoTies(le, pool) && IsTop(le, limit, pool, a) && IsTop(le, limit, pool, b)
    requires n <= |a| <= |b|
    ensures a[..n] == b[..n]
    ensures n == |a| ==> a == b
  {
    if n > 0 {
      TopIsPrefix(le, limit, pool, a, b, n - 1);
      assert a[n - 1] in a && b[n - 1] in b;
      if a[n - 1] != b[n - 1] {
        TopNotAhead(le, limit, pool, a, b, n - 1);
        TopNotAhead(le, limit, pool, b, a, n - 1);
      }
    }
    forall j | 0 <= j < n ensures a[j] == b[j] { assert a[..n][j] == b[..n][j]; }
    if n == |a| && |a| < limit {
      NothingBeyond(a, b);
    }
  }

  lemma TopNotAhead<T(!new)>(le: (T, T) -> bool, limit: nat, pool: seq<T>, a: seq<T>, b: seq<T>, i: nat)
    requires IsTop(le, limit, pool, a) && IsTop(le, limit, pool, b)
    requires i < |a| && i < |b| && a[..i] == b[..i] && a[i] != b[i]
    ensures le(b[i], a[i])
  {
    forall j | 0 <= j < i ensures a[j] == b[j] { assert a[..i][j] == b[..i][j]; }
    assert a[i] in a;
    if a[i] in b {
      var j :| 0 <= j < |b| && b[j] == a[i];
    } else {
      assert b[i] in b;
    }
  }
}
