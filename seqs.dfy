/**
 * The collection operations the handlers build on: `filter`, `reduce` sums,
 * `new Set(...)` de-duplication, sorting by an `orderBy` key, `take`, and the
 * `acc[key] = (acc[key] || 0) + value` group-by dictionaries.
 */
module Seqs {
  import opened Wrappers

  /** `s.filter(p)`: the elements satisfying `p`, in order. */
  function Filter<T(!new)>(s: seq<T>, p: T -> bool): (r: seq<T>)
    ensures |r| <= |s|
    ensures forall x :: x in r <==> x in s && p(x)
    ensures forall i :: 0 <= i < |r| ==> p(r[i])
  {
    if s == [] then []
    else
      var rest := Filter(s[1..], p);
      assert forall x :: x in s <==> x == s[0] || x in s[1..];
      if p(s[0]) then [s[0]] + rest else rest
  }

  lemma {:induction false} FilterAppend<T(!new)>(a: seq<T>, b: seq<T>, p: T -> bool)
    ensures Filter(a + b, p) == Filter(a, p) + Filter(b, p)
  {
    if a == [] {
      assert a + b == b;
    } else {
      assert (a + b)[1..] == a[1..] + b;
      FilterAppend(a[1..], b, p);
    }
  }

  /** Filtering by a predicate every element satisfies changes nothing. */
  lemma {:induction false} FilterAll<T(!new)>(s: seq<T>, p: T -> bool)
    requires forall x :: x in s ==> p(x)
    ensures Filter(s, p) == s
  {
    if s != [] {
      assert s[0] in s;
      assert forall x :: x in s[1..] ==> x in s;
      FilterAll(s[1..], p);
      assert [s[0]] + s[1..] == s;
    }
  }

  /** Filtering by a predicate no element satisfies leaves nothing. */
  lemma {:induction false} FilterNone<T(!new)>(s: seq<T>, p: T -> bool)
    requires forall x :: x in s ==> !p(x)
    ensures Filter(s, p) == []
  {
    if s != [] {
      assert s[0] in s;
      assert forall x :: x in s[1..] ==> x in s;
      FilterNone(s[1..], p);
    }
  }

  /** Filters by predicates that agree on the elements of `s` are equal. */
  lemma {:induction false} FilterCongruent<T(!new)>(s: seq<T>, p: T -> bool, q: T -> bool)
    requires forall x :: x in s ==> p(x) == q(x)
    ensures Filter(s, p) == Filter(s, q)
  {
    if s != [] {
      assert s[0] in s;
      assert forall x :: x in s[1..] ==> x in s;
      FilterCongruent(s[1..], p, q);
    }
  }

  /** The first index whose element satisfies `p` (`findFirst`, `findIndex`). */
  function IndexWhere<T>(s: seq<T>, p: T -> bool): (r: Option<nat>)
    ensures r.Some? ==> r.value < |s| && p(s[r.value]) && forall j :: 0 <= j < r.value ==> !p(s[j])
    ensures r.None? ==> forall j :: 0 <= j < |s| ==> !p(s[j])
  {
    if s == [] then None
    else if p(s[0]) then Some(0)
    else match IndexWhere(s[1..], p)
      case Some(k) => Some(k + 1)
      case None => None
  }

  predicate Pairwise<T>(s: seq<T>, rel: (T, T) -> bool) {
    forall i, j :: 0 <= i < j < |s| ==> rel(s[i], s[j])
  }

  /** Filtering keeps a relation that holds between every earlier and later element. */
  lemma {:induction false} FilterPairwise<T(!new)>(s: seq<T>, p: T -> bool, rel: (T, T) -> bool)
    requires Pairwise(s, rel)
    ensures Pairwise(Filter(s, p), rel)
  {
    if s != [] {
      FilterPairwise(s[1..], p, rel);
      var rest := Filter(s[1..], p);
      if p(s[0]) {
        forall j | 0 <= j < |rest| ensures rel(s[0], rest[j]) {
          var k :| 0 <= k < |s[1..]| && s[1..][k] == rest[j];
          assert s[k + 1] == rest[j];
        }
        var r := [s[0]] + rest;
        forall i, j | 0 <= i < j < |r| ensures rel(r[i], r[j]) {
          if i > 0 {
            assert r[i] == rest[i - 1] && r[j] == rest[j - 1];
          } else {
            assert r[j] == rest[j - 1];
          }
        }
      }
    }
  }

  /** Filtering twice keeps what satisfies both predicates. */
  lemma {:induction false} FilterFilter<T(!new)>(s: seq<T>, p: T -> bool, q: T -> bool)
    ensures Filter(Filter(s, p), q) == Filter(s, Both(p, q))
  {
    if s != [] {
      FilterFilter(s[1..], p, q);
    }
  }

  /** `a` is `b` with some elements removed. */
  predicate IsSubsequence<T(==)>(a: seq<T>, b: seq<T>) {
    a == [] || (b != [] && ((a[0] == b[0] && IsSubsequence(a[1..], b[1..])) || IsSubsequence(a, b[1..])))
  }

  lemma {:induction false} FilterSubsequence<T(!new)>(s: seq<T>, p: T -> bool)
    ensures IsSubsequence(Filter(s, p), s)
  {
    if s != [] {
      FilterSubsequence(s[1..], p);
    }
  }

  function Either<T>(p: T -> bool, q: T -> bool): T -> bool {
    (x: T) => p(x) || q(x)
  }

  function Both<T>(p: T -> bool, q: T -> bool): T -> bool {
    (x: T) => p(x) && q(x)
  }

  /** Counting by two predicates counts the elements satisfying both twice. */
  lemma {:induction false} FilterInclusionExclusion<T(!new)>(s: seq<T>, p: T -> bool, q: T -> bool)
    ensures |Filter(s, p)| + |Filter(s, q)| == |Filter(s, Either(p, q))| + |Filter(s, Both(p, q))|
  {
    if s != [] {
      FilterInclusionExclusion(s[1..], p, q);
    }
  }

  /** `s.some(p)` */
  predicate Any<T>(s: seq<T>, p: T -> bool) {
    exists i :: 0 <= i < |s| && p(s[i])
  }

  /** `s.reduce((sum, x) => sum + f(x), 0)` */
  function SumOf<T>(s: seq<T>, f: T -> real): real {
    if s == [] then 0.0 else SumOf(s[..|s| - 1], f) + f(s[|s| - 1])
  }

  lemma {:induction false} SumOfAppend<T>(a: seq<T>, b: seq<T>, f: T -> real)
    ensures SumOf(a + b, f) == SumOf(a, f) + SumOf(b, f)
  {
    if b != [] {
      assert (a + b)[..|a + b| - 1] == a + b[..|b| - 1];
      SumOfAppend(a, b[..|b| - 1], f);
    } else {
      assert a + b == a;
    }
  }

  lemma {:induction false} SumOfCons<T>(x: T, s: seq<T>, f: T -> real)
    ensures SumOf([x] + s, f) == f(x) + SumOf(s, f)
  {
    SumOfAppend([x], s, f);
    assert [x][..0] == [];
  }

  /** Sums of two sequences of the same length agree when they agree element by element. */
  lemma {:induction false} SumOfPointwise<A, B>(s: seq<A>, f: A -> real, t: seq<B>, g: B -> real)
    requires |s| == |t|
    requires forall i :: 0 <= i < |s| ==> f(s[i]) == g(t[i])
    ensures SumOf(s, f) == SumOf(t, g)
  {
    if s != [] {
      SumOfPointwise(s[..|s| - 1], f, t[..|t| - 1], g);
    }
  }

  /** A sum of values that all lie in [lo, hi] lies in [|s| * lo, |s| * hi]. */
  lemma {:induction false} SumOfBounds<T>(s: seq<T>, f: T -> real, lo: real, hi: real)
    requires forall i :: 0 <= i < |s| ==> lo <= f(s[i]) <= hi
    ensures |s| as real * lo <= SumOf(s, f) <= |s| as real * hi
  {
    if s != [] {
      SumOfBounds(s[..|s| - 1], f, lo, hi);
    }
  }

  predicate NoDuplicates<T(==)>(s: seq<T>) {
    forall i, j :: 0 <= i < j < |s| ==> s[i] != s[j]
  }

  /** `Array.from(new Set(s))`: the first occurrence of every element, in order. */
  function Dedupe<T(==,!new)>(s: seq<T>): (r: seq<T>)
    ensures forall x :: x in r <==> x in s
    ensures NoDuplicates(r)
  {
    if s == [] then []
    else
      var d := Dedupe(s[..|s| - 1]);
      assert forall x :: x in s <==> x in s[..|s| - 1] || x == s[|s| - 1];
      if s[|s| - 1] in d then d else d + [s[|s| - 1]]
  }

  /** `new Set(s).size` of a duplicate-free sequence is its length. */
  lemma {:induction false} DistinctCount<T>(s: seq<T>)
    requires NoDuplicates(s)
    ensures |set x | x in s| == |s|
  {
    if s != [] {
      var init, last := s[..|s| - 1], s[|s| - 1];
      DistinctCount(init);
      assert (set x | x in s) == (set x | x in init) + {last} by {
        assert s == init + [last];
      }
      assert last !in (set x | x in init);
    }
  }

  /** `s.slice(0, n)`, Prisma's `take: n` */
  function Take<T>(s: seq<T>, n: nat): (r: seq<T>)
    ensures |r| == if |s| <= n then |s| else n
    ensures r == s[..|r|]
    ensures |s| <= n ==> r == s
  {
    if |s| <= n then s else s[..n]
  }

  // ---- Sorting (Prisma `orderBy`) ----

  ghost predicate TotalPreorder<T(!new)>(le: (T, T) -> bool) {
    && (forall a, b :: le(a, b) || le(b, a))
    && (forall a, b, c :: le(a, b) && le(b, c) ==> le(a, c))
  }

  predicate SortedBy<T>(s: seq<T>, le: (T, T) -> bool) {
    forall i, j :: 0 <= i < j < |s| ==> le(s[i], s[j])
  }

  function Insert<T>(x: T, s: seq<T>, le: (T, T) -> bool): (r: seq<T>)
    ensures multiset(r) == multiset(s) + multiset{x}
    ensures |r| == |s| + 1
  {
    if s == [] then [x]
    else if le(x, s[0]) then [x] + s
    else
      assert s == [s[0]] + s[1..];
      [s[0]] + Insert(x, s[1..], le)
  }

  /** Insertion sort: a stable sort of `s` by `le`. */
  function SortBy<T>(s: seq<T>, le: (T, T) -> bool): (r: seq<T>)
    ensures multiset(r) == multiset(s)
    ensures |r| == |s|
  {
    if s == [] then []
    else
      assert s == [s[0]] + s[1..];
      Insert(s[0], SortBy(s[1..], le), le)
  }

  lemma {:induction false} InsertSorted<T(!new)>(x: T, s: seq<T>, le: (T, T) -> bool)
    requires TotalPreorder(le) && SortedBy(s, le)
    ensures SortedBy(Insert(x, s, le), le)
  {
    if s != [] && !le(x, s[0]) {
      InsertSorted(x, s[1..], le);
      var r := Insert(x, s, le);
      var t := Insert(x, s[1..], le);
      assert r == [s[0]] + t;
      forall j | 0 <= j < |t| ensures le(s[0], t[j]) {
        assert t[j] in multiset(t);
        assert t[j] in multiset(s[1..]) || t[j] == x;
        if t[j] != x {
          var k :| 0 <= k < |s[1..]| && s[1..][k] == t[j];
          assert s[k + 1] == t[j];
        }
      }
    }
  }

  /** The sort returns a sorted permutation of its input. */
  lemma {:induction false} SortByCorrect<T(!new)>(s: seq<T>, le: (T, T) -> bool)
    requires TotalPreorder(le)
    ensures SortedBy(SortBy(s, le), le)
    ensures multiset(SortBy(s, le)) == multiset(s)
  {
    if s != [] {
      SortByCorrect(s[1..], le);
      InsertSorted(s[0], SortBy(s[1..], le), le);
    }
  }

  /** Newest first: `orderBy: { createdAt: "desc" }` for a key such as a timestamp. */
  function Descending<T>(key: T -> int): (T, T) -> bool {
    (a: T, b: T) => key(a) >= key(b)
  }

  lemma DescendingIsTotalPreorder<T(!new)>(key: T -> int)
    ensures TotalPreorder(Descending(key))
  {
  }

  /** Sorting newest first returns the same elements with non-increasing keys. */
  lemma SortedDescending<T(!new)>(s: seq<T>, key: T -> int)
    ensures var r := SortBy(s, Descending(key));
            && multiset(r) == multiset(s)
            && (forall x :: x in r <==> x in s)
            && forall i, j :: 0 <= i < j < |r| ==> key(r[i]) >= key(r[j])
  {
    DescendingIsTotalPreorder(key);
    SortByCorrect(s, Descending(key));
    var r := SortBy(s, Descending(key));
    forall x ensures x in r <==> x in s {
      assert x in r <==> x in multiset(r);
      assert x in s <==> x in multiset(s);
    }
    forall i, j | 0 <= i < j < |r| ensures key(r[i]) >= key(r[j]) {
      assert Descending(key)(r[i], r[j]);
    }
  }

  // ---- Group-by dictionaries ----

  /** `acc[k] = (acc[k] || 0) + v` */
  function AddTo<K>(acc: map<K, real>, k: K, v: real): map<K, real> {
    acc[k := (if k in acc then acc[k] else 0.0) + v]
  }

  /** The dictionary built by folding `AddTo` over `(key, value)` entries. */
  function GroupTotals<K>(entries: seq<(K, real)>): map<K, real> {
    if entries == [] then map[]
    else
      var last := entries[|entries| - 1];
      AddTo(GroupTotals(entries[..|entries| - 1]), last.0, last.1)
  }

  function EntryValue<K>(e: (K, real)): real { e.1 }

  /** The sum of all values of a dictionary. */
  ghost function MapSum<K>(m: map<K, real>): real
    decreases |m|
  {
    if m == map[] then 0.0
    else
      var k :| k in m;
      m[k] + MapSum(m - {k})
  }

  lemma {:induction false} MapSumRemove<K>(m: map<K, real>, k: K)
    requires k in m
    ensures MapSum(m) == m[k] + MapSum(m - {k})
    decreases |m|
  {
    var k' :| k' in m && MapSum(m) == m[k'] + MapSum(m - {k'});
    if k' != k {
      var both := m - {k} - {k'};
      assert m - {k'} - {k} == both;
      MapSumRemove(m - {k'}, k);
      MapSumRemove(m - {k}, k');
    }
  }

  lemma MapSumAddTo<K>(m: map<K, real>, k: K, v: real)
    ensures MapSum(AddTo(m, k, v)) == MapSum(m) + v
  {
    var n := AddTo(m, k, v);
    MapSumRemove(n, k);
    if k in m {
      assert n - {k} == m - {k};
      MapSumRemove(m, k);
    } else {
      assert n - {k} == m;
    }
  }

  /** Grouping conserves the total: the dictionary's values add up to the sum of all entries. */
  lemma {:induction false} GroupTotalsConserves<K>(entries: seq<(K, real)>)
    ensures MapSum(GroupTotals(entries)) == SumOf(entries, EntryValue)
  {
    if entries != [] {
      var last := entries[|entries| - 1];
      GroupTotalsConserves(entries[..|entries| - 1]);
      MapSumAddTo(GroupTotals(entries[..|entries| - 1]), last.0, last.1);
    }
  }

  function HasKey<K(==)>(k: K): ((K, real)) -> bool {
    (e: (K, real)) => e.0 == k
  }

  function EntriesWithKey<K(==,!new)>(entries: seq<(K, real)>, k: K): seq<(K, real)> {
    Filter(entries, HasKey(k))
  }

  /** A key is in the dictionary iff some entry has it. */
  lemma {:induction false} GroupTotalsKeys<K(!new)>(entries: seq<(K, real)>, k: K)
    ensures k in GroupTotals(entries) <==> exists i :: 0 <= i < |entries| && entries[i].0 == k
  {
    if entries != [] {
      var init := entries[..|entries| - 1];
      GroupTotalsKeys(init, k);
      if k in GroupTotals(init) {
        var i :| 0 <= i < |init| && init[i].0 == k;
        assert entries[i] == init[i];
      }
      if exists i :: 0 <= i < |entries| && entries[i].0 == k {
        var i :| 0 <= i < |entries| && entries[i].0 == k;
        if i < |init| { assert init[i] == entries[i]; }
      }
    }
  }

  /** The value under a key is the sum over exactly the entries with that key. */
  lemma {:induction false} GroupTotalsValue<K(!new)>(entries: seq<(K, real)>, k: K)
    requires k in GroupTotals(entries)
    ensures GroupTotals(entries)[k] == SumOf(EntriesWithKey(entries, k), EntryValue)
  {
    var init, last := entries[..|entries| - 1], entries[|entries| - 1];
    assert entries == init + [last];
    FilterAppend(init, [last], HasKey(k));
    SumOfAppend(EntriesWithKey(init, k), EntriesWithKey([last], k), EntryValue);
    if k in GroupTotals(init) {
      GroupTotalsValue(init, k);
    } else {
      GroupTotalsKeys(init, k);
      assert EntriesWithKey(init, k) == [];
    }
  }

  /** Moving the head of `s` onto the end of `a` keeps the concatenation. */
  lemma SnocThenAppend<T>(a: seq<T>, s: seq<T>)
    requires s != []
    ensures (a + [s[0]]) + s[1..] == a + s
  {
    assert s == [s[0]] + s[1..];
  }

  /** A prefix of a newest-first sequence holds no element older than one left out. */
  lemma PrefixIsNewest<T>(sorted: seq<T>, key: T -> int, m: nat)
    requires m <= |sorted|
    requires forall i, j :: 0 <= i < j < |sorted| ==> key(sorted[i]) >= key(sorted[j])
    ensures forall x, y :: x in sorted && x !in sorted[..m] && y in sorted[..m] ==> key(y) >= key(x)
  {
    var r := sorted[..m];
    forall x, y | x in sorted && x !in r && y in r ensures key(y) >= key(x) {
      var k :| 0 <= k < |sorted| && sorted[k] == x;
      var i :| 0 <= i < |r| && r[i] == y;
      assert k >= m;
      assert sorted[i] == y;
    }
  }

  /**
   * `orderBy: { key: "desc" }, take: n`: at most `n` elements of `s`, newest
   * first, all of `s` when it has no more than `n`, and none left out that is
   * newer than one taken.
   */
  lemma TakeNewest<T(!new)>(s: seq<T>, key: T -> int, n: nat)
    ensures var r := Take(SortBy(s, Descending(key)), n);
            && |r| == (if |s| <= n then |s| else n)
            && (forall x :: x in r ==> x in s)
            && (forall i, j :: 0 <= i < j < |r| ==> key(r[i]) >= key(r[j]))
            && (|s| <= n ==> multiset(r) == multiset(s))
            && forall x, y :: x in s && x !in r && y in r ==> key(y) >= key(x)
  {
    var sorted := SortBy(s, Descending(key));
    SortedDescending(s, key);
    var r := Take(sorted, n);
    assert r == sorted[..|r|];
    PrefixIsNewest(sorted, key, |r|);
    forall x | x in r ensures x in s {
      assert x in sorted;
    }
  }

  /** The same for the elements of `s` that satisfy `p` (a `where` before the `orderBy`). */
  lemma TakeNewestOf<T(!new)>(s: seq<T>, p: T -> bool, key: T -> int, n: nat)
    ensures var r := Take(SortBy(Filter(s, p), Descending(key)), n);
            && |r| == (if |Filter(s, p)| <= n then |Filter(s, p)| else n)
            && (forall x :: x in r ==> x in s && p(x))
            && (forall i, j :: 0 <= i < j < |r| ==> key(r[i]) >= key(r[j]))
            && forall x, y :: x in s && p(x) && x !in r && y in r ==> key(y) >= key(x)
  {
    TakeNewest(Filter(s, p), key, n);
  }
}
