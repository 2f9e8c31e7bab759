/**
 * Sequence operations that the dashboard code takes from JavaScript's Array
 * methods: `reduce` with `+`, `filter`, the stable `sort` with a numeric
 * comparator, and `slice` with its negative-index rule. Each is defined once
 * here, next to a reference definition or the property it guarantees.
 */
module Seqs {

  datatype Option<T> = None | Some(value: T)

  datatype Result<T, E> = Success(value: T) | Failure(error: E)

  // ---------------------------------------------------------------- sums

  /** The sum of `f` over the elements of `s`: the reference definition. */
  function Sum<T>(s: seq<T>, f: T -> real): real
  {
    if s == [] then 0.0 else f(s[0]) + Sum(s[1..], f)
  }

  /** `s.reduce((acc, x) => acc + f(x), acc)`: a left fold, which adds up the same total. */
  function Reduce<T>(s: seq<T>, f: T -> real, acc: real): (r: real)
    ensures r == acc + Sum(s, f)
  {
    if s == [] then acc else Reduce(s[1..], f, acc + f(s[0]))
  }

  lemma {:induction false} SumConcat<T>(a: seq<T>, b: seq<T>, f: T -> real)
    ensures Sum(a + b, f) == Sum(a, f) + Sum(b, f)
  {
    if a == [] {
      assert a + b == b;
    } else {
      assert (a + b)[1..] == a[1..] + b;
      SumConcat(a[1..], b, f);
    }
  }

  lemma SumSnoc<T>(s: seq<T>, x: T, f: T -> real)
    ensures Sum(s + [x], f) == Sum(s, f) + f(x)
  {
    SumConcat(s, [x], f);
    assert Sum([x], f) == f(x) + Sum([x][1..], f);
  }

  /** Every term lies in [lo, hi], so the sum lies between |s|·lo and |s|·hi. */
  lemma {:induction false} SumBounds<T>(s: seq<T>, f: T -> real, lo: real, hi: real)
    requires forall x :: x in s ==> lo <= f(x) <= hi
    ensures |s| as real * lo <= Sum(s, f) <= |s| as real * hi
  {
    if s != [] {
      SumBounds(s[1..], f, lo, hi);
      assert |s| as real * lo == lo + |s[1..]| as real * lo;
      assert |s| as real * hi == hi + |s[1..]| as real * hi;
    }
  }

  /** Every term lies in [lo, hi], so their mean does too. */
  lemma MeanInRange<T>(s: seq<T>, f: T -> real, lo: real, hi: real)
    requires |s| > 0
    requires forall x :: x in s ==> lo <= f(x) <= hi
    ensures lo <= Mean(Sum(s, f), |s|) <= hi
  {
    SumBounds(s, f, lo, hi);
    MeanBetween(Mean(Sum(s, f), |s|), |s| as real, Sum(s, f), lo, hi);
  }

  /** No term is negative, so neither is the sum. */
  lemma {:induction false} SumNonNegative<T>(s: seq<T>, f: T -> real)
    requires forall x :: x in s ==> 0.0 <= f(x)
    ensures 0.0 <= Sum(s, f)
  {
    if s != [] {
      SumNonNegative(s[1..], f);
    }
  }

  /** `Sum` of `f` over `a` equals `Sum` of `g` over `b` when they agree position by position. */
  lemma {:induction false} SumPointwise<A, B>(a: seq<A>, f: A -> real, b: seq<B>, g: B -> real)
    requires |a| == |b|
    requires forall i :: 0 <= i < |a| ==> f(a[i]) == g(b[i])
    ensures Sum(a, f) == Sum(b, g)
  {
    if a != [] {
      SumPointwise(a[1..], f, b[1..], g);
    }
  }

  function One<T>(x: T): real { 1.0 }

  lemma {:induction false} SumOne<T>(s: seq<T>)
    ensures Sum(s, One) == |s| as real
  {
    if s != [] {
      SumOne(s[1..]);
    }
  }

  // ---------------------------------------------------------- arithmetic

  lemma Quotient(n: real, d: real, q: real)
    requires d != 0.0 && n == d * q
    ensures n / d == q
  {
  }

  lemma PercentOf(part: real, whole: real)
    requires whole != 0.0
    ensures part / whole * 100.0 * whole == part * 100.0
  {
  }

  lemma MeanTimesCount(total: real, n: real)
    requires n != 0.0
    ensures total / n * n == total
  {
  }

  /** `part / whole * 100`, pinned down by what it is a percent of. */
  function Percent(part: real, whole: real): (r: real)
    requires whole != 0.0
    ensures r * whole == part * 100.0
  {
    PercentOf(part, whole);
    part / whole * 100.0
  }

  /** The mean of `n` values whose total is `total`. */
  function Mean(total: real, n: nat): (m: real)
    requires n > 0
    ensures m * n as real == total
  {
    MeanTimesCount(total, n as real);
    total / n as real
  }

  /** `s.reduce((sum, x) => sum + f(x), 0) / s.length`. */
  function ReduceMean<T>(s: seq<T>, f: T -> real): (m: real)
    requires |s| > 0
    ensures m * |s| as real == Sum(s, f)
    ensures m == 0.0 <==> Sum(s, f) == 0.0
  {
    Mean(Reduce(s, f, 0.0), |s|)
  }

  lemma MeanBetween(m: real, n: real, total: real, lo: real, hi: real)
    requires n > 0.0 && m * n == total
    requires n * lo <= total <= n * hi
    ensures lo <= m <= hi
  {
    CancelLeq(m, lo, n);
    CancelLeq(hi, m, n);
  }

  lemma Cancel(a: real, b: real, d: real)
    requires d != 0.0 && a * d == b * d
    ensures a == b
  {
  }

  lemma CancelLeq(a: real, b: real, d: real)
    requires d > 0.0 && b * d <= a * d
    ensures b <= a
  {
  }

  lemma ProductNonNegative(a: real, b: real)
    requires a >= 0.0 && b >= 0.0
    ensures a * b >= 0.0
  {
  }

  lemma ProductNonPositive(a: real, b: real)
    requires a >= 0.0 && b <= 0.0
    ensures a * b <= 0.0
  {
  }

  // -------------------------------------------------------------- filter

  /** `r` keeps elements of `s` in the relative order they have in `s`. */
  ghost predicate SubsequenceOf<T>(r: seq<T>, s: seq<T>)
    decreases |s|
  {
    r == [] ||
    (|s| > 0 && ((r[0] == s[0] && SubsequenceOf(r[1..], s[1..])) || SubsequenceOf(r, s[1..])))
  }

  /** Every sequence keeps all of itself. */
  lemma {:induction false} SubsequenceOfSelf<T>(s: seq<T>)
    ensures SubsequenceOf(s, s)
    decreases |s|
  {
    if s != [] {
      SubsequenceOfSelf(s[1..]);
    }
  }

  /** `s.filter(p)`. */
  function Filter<T(!new)>(s: seq<T>, p: T -> bool): (r: seq<T>)
    ensures |r| <= |s|
    ensures forall x :: x in r <==> x in s && p(x)
    ensures forall x :: multiset(r)[x] == if p(x) then multiset(s)[x] else 0
    ensures SubsequenceOf(r, s)
  {
    if s == [] then []
    else
      assert s == [s[0]] + s[1..];
      var rest := Filter(s[1..], p);
      if p(s[0]) then
        assert ([s[0]] + rest)[1..] == rest;
        [s[0]] + rest
      else rest
  }

  lemma {:induction false} FilterConcat<T(!new)>(a: seq<T>, b: seq<T>, p: T -> bool)
    ensures Filter(a + b, p) == Filter(a, p) + Filter(b, p)
  {
    if a == [] {
      assert a + b == b;
    } else {
      assert (a + b)[0] == a[0];
      assert (a + b)[1..] == a[1..] + b;
      FilterConcat(a[1..], b, p);
    }
  }

  lemma FilterSnoc<T(!new)>(s: seq<T>, x: T, p: T -> bool)
    ensures Filter(s + [x], p) == Filter(s, p) + (if p(x) then [x] else [])
  {
    FilterConcat(s, [x], p);
    assert Filter([x], p) == (if p(x) then [x] else []) + Filter([x][1..], p);
  }

  // ---------------------------------------------------------------- sort

  ghost predicate SortedBy<T>(s: seq<T>, key: T -> real)
  {
    forall i, j :: 0 <= i < j < |s| ==> key(s[i]) <= key(s[j])
  }

  ghost predicate SortedDescBy<T>(s: seq<T>, key: T -> real)
  {
    forall i, j :: 0 <= i < j < |s| ==> key(s[j]) <= key(s[i])
  }

  /** No two elements of `s` share a key. */
  ghost predicate DistinctKeys<T>(s: seq<T>, key: T -> real)
  {
    forall i, j :: 0 <= i < j < |s| ==> key(s[i]) != key(s[j])
  }

  /** Inserts `x` into the sorted `s` before the first element whose key is not smaller. */
  function InsertBy<T>(x: T, s: seq<T>, key: T -> real): (r: seq<T>)
    requires SortedBy(s, key)
    ensures |r| == |s| + 1
    ensures multiset(r) == multiset(s) + multiset{x}
    ensures SortedBy(r, key)
  {
    if s == [] || key(x) <= key(s[0]) then [x] + s
    else
      assert s == [s[0]] + s[1..];
      var t := InsertBy(x, s[1..], key);
      HeadKeyBelow(s, key);
      AllKeysAbove(t, s[1..], x, key, key(s[0]));
      [s[0]] + t
  }

  /** In a sorted sequence no element has a key below that of the first. */
  lemma HeadKeyBelow<T>(s: seq<T>, key: T -> real)
    requires s != [] && SortedBy(s, key)
    ensures forall y :: y in s[1..] ==> key(s[0]) <= key(y)
  {
    forall y | y in s[1..] ensures key(s[0]) <= key(y) {
      var k :| 0 <= k < |s[1..]| && s[1..][k] == y;
      assert s[k + 1] == y;
    }
  }

  /** A rearrangement of `s` with `x` added has every key at least `lo` when `s` and `x` do. */
  lemma AllKeysAbove<T>(t: seq<T>, s: seq<T>, x: T, key: T -> real, lo: real)
    requires multiset(t) == multiset(s) + multiset{x}
    requires lo <= key(x) && forall y :: y in s ==> lo <= key(y)
    ensures forall j :: 0 <= j < |t| ==> lo <= key(t[j])
  {
    forall j | 0 <= j < |t| ensures lo <= key(t[j]) {
      assert t[j] in multiset(t);
      if t[j] != x {
        assert t[j] in multiset(s);
      }
    }
  }

  /** A stable sort, ascending by `key`, as `s.sort((a, b) => key(a) - key(b))`. */
  function SortBy<T>(s: seq<T>, key: T -> real): (r: seq<T>)
    ensures |r| == |s|
    ensures multiset(r) == multiset(s)
    ensures SortedBy(r, key)
  {
    if s == [] then []
    else
      assert s == [s[0]] + s[1..];
      InsertBy(s[0], SortBy(s[1..], key), key)
  }

  function Negated<T>(key: T -> real): T -> real
  {
    x => -key(x)
  }

  /** A stable sort, descending by `key`, as `s.sort((a, b) => key(b) - key(a))`. */
  function SortDescBy<T>(s: seq<T>, key: T -> real): (r: seq<T>)
    ensures |r| == |s|
    ensures multiset(r) == multiset(s)
    ensures SortedDescBy(r, key)
  {
    var r := SortBy(s, Negated(key));
    assert forall i, j :: 0 <= i < j < |r| ==> -key(r[i]) <= -key(r[j]) by {
      forall i, j | 0 <= i < j < |r| ensures -key(r[i]) <= -key(r[j]) {
        assert Negated(key)(r[i]) <= Negated(key)(r[j]);
      }
    }
    r
  }

  lemma {:induction false} InsertByKeepsDistinctKeys<T>(x: T, s: seq<T>, key: T -> real)
    requires SortedBy(s, key) && DistinctKeys(s, key)
    requires forall y :: y in s ==> key(y) != key(x)
    ensures DistinctKeys(InsertBy(x, s, key), key)
  {
    if s == [] || key(x) <= key(s[0]) {
      ConsKeepsDistinctKeys(x, s, key);
    } else {
      assert s == [s[0]] + s[1..];
      DropHeadKeepsDistinctKeys(s, key);
      InsertByKeepsDistinctKeys(x, s[1..], key);
      HeadKeyUnique(s, key);
      InsertByAvoidsKey(x, s[1..], key, key(s[0]));
      ConsKeepsDistinctKeys(s[0], InsertBy(x, s[1..], key), key);
    }
  }

  /** Putting `h` in front of `t` keeps keys distinct when no element of `t` has the key of `h`. */
  lemma ConsKeepsDistinctKeys<T>(h: T, t: seq<T>, key: T -> real)
    requires DistinctKeys(t, key) && forall y :: y in t ==> key(y) != key(h)
    ensures DistinctKeys([h] + t, key)
  {
    var r := [h] + t;
    forall i, j | 0 <= i < j < |r| ensures key(r[i]) != key(r[j]) {
      assert r[j] == t[j - 1];
      if 0 < i {
        assert r[i] == t[i - 1];
      }
    }
  }

  /** In a sequence of distinct keys, no later element has the key of the first. */
  lemma HeadKeyUnique<T>(s: seq<T>, key: T -> real)
    requires s != [] && DistinctKeys(s, key)
    ensures forall y :: y in s[1..] ==> key(y) != key(s[0])
  {
    forall y | y in s[1..] ensures key(y) != key(s[0]) {
      var k :| 0 <= k < |s[1..]| && s[1..][k] == y;
      assert s[k + 1] == y;
    }
  }

  /** Inserting an element into a sequence does not introduce a key that neither had. */
  lemma InsertByAvoidsKey<T>(x: T, s: seq<T>, key: T -> real, v: real)
    requires SortedBy(s, key)
    requires key(x) != v && forall y :: y in s ==> key(y) != v
    ensures forall y :: y in InsertBy(x, s, key) ==> key(y) != v
  {
    var t := InsertBy(x, s, key);
    forall y | y in t ensures key(y) != v {
      assert y in multiset(t);
      if y != x {
        assert y in multiset(s);
      }
    }
  }

  lemma DropHeadKeepsDistinctKeys<T>(s: seq<T>, key: T -> real)
    requires s != [] && DistinctKeys(s, key)
    ensures DistinctKeys(s[1..], key)
  {
    forall i, j | 0 <= i < j < |s[1..]| ensures key(s[1..][i]) != key(s[1..][j]) {
      assert s[1..][i] == s[i + 1] && s[1..][j] == s[j + 1];
    }
  }

  /** Sorting keeps keys distinct, so a sort of distinct keys is strictly ascending. */
  lemma {:induction false} SortByKeepsDistinctKeys<T>(s: seq<T>, key: T -> real)
    requires DistinctKeys(s, key)
    ensures DistinctKeys(SortBy(s, key), key)
    ensures forall i, j :: 0 <= i < j < |SortBy(s, key)| ==> key(SortBy(s, key)[i]) < key(SortBy(s, key)[j])
  {
    if s != [] {
      assert s == [s[0]] + s[1..];
      DropHeadKeepsDistinctKeys(s, key);
      SortByKeepsDistinctKeys(s[1..], key);
      var t := SortBy(s[1..], key);
      forall y | y in t ensures key(y) != key(s[0]) {
        assert y in multiset(s[1..]);
        var k :| 0 <= k < |s[1..]| && s[1..][k] == y;
        assert s[k + 1] == y;
      }
      InsertByKeepsDistinctKeys(s[0], t, key);
    }
  }

  /** A permutation has the same elements. */
  lemma SameElements<T>(r: seq<T>, s: seq<T>)
    requires multiset(r) == multiset(s)
    ensures forall x :: x in r <==> x in s
  {
    forall x ensures x in r <==> x in s {
      assert x in r <==> x in multiset(r);
      assert x in s <==> x in multiset(s);
    }
  }

  // --------------------------------------------------------------- slice

  /** The position JavaScript's `slice` makes of a relative index `n` into a sequence of length `len`. */
  function JsIndex(n: int, len: nat): (k: nat)
    ensures k <= len
  {
    if n < 0 then (if len + n > 0 then len + n else 0)
    else if n < len then n
    else len
  }

  /** `s.slice(0, end)`. */
  function SliceTo<T>(s: seq<T>, end: int): (r: seq<T>)
    ensures |r| <= |s| && r == s[..|r|]
    ensures 0 <= end ==> |r| == if end < |s| then end else |s|
    ensures end < 0 ==> |r| == if |s| + end > 0 then |s| + end else 0
  {
    s[..JsIndex(end, |s|)]
  }

  /** `s.slice(start)`. */
  function SliceFrom<T>(s: seq<T>, start: int): (r: seq<T>)
    ensures |r| <= |s| && r == s[|s| - |r|..]
    ensures start < 0 ==> |r| == if -start < |s| then -start else |s|
    ensures 0 <= start ==> |r| == if start < |s| then |s| - start else 0
  {
    s[JsIndex(start, |s|)..]
  }

  /**
   * `s.sort((a, b) => key(b) - key(a)).slice(0, limit)`: the `limit` elements of
   * largest key, largest first. Every element left out has a key no larger than
   * every element kept.
   */
  function TopBy<T>(s: seq<T>, key: T -> real, limit: int): (r: seq<T>)
    ensures |r| == JsIndex(limit, |s|)
    ensures 0 <= limit ==> |r| <= limit
    ensures SortedDescBy(r, key)
    ensures multiset(r) <= multiset(s)
    ensures forall x, y :: x in r && y in multiset(s) - multiset(r) ==> key(y) <= key(x)
  {
    var t := SortDescBy(s, key);
    var k := JsIndex(limit, |s|);
    PrefixDominates(s, t, k, key);
    t[..k]
  }

  /** In a permutation `t` of `s` sorted descending, the first `k` elements dominate the rest of `s`. */
  lemma PrefixDominates<T>(s: seq<T>, t: seq<T>, k: nat, key: T -> real)
    requires k <= |t| && multiset(t) == multiset(s) && SortedDescBy(t, key)
    ensures SortedDescBy(t[..k], key)
    ensures multiset(t[..k]) <= multiset(s)
    ensures forall x, y :: x in t[..k] && y in multiset(s) - multiset(t[..k]) ==> key(y) <= key(x)
  {
    assert t == t[..k] + t[k..];
    assert multiset(s) - multiset(t[..k]) == multiset(t[k..]);
    forall x, y | x in t[..k] && y in multiset(t[k..]) ensures key(y) <= key(x) {
      assert y in t[k..];
      SplitDominates(t, k, key, x, y);
    }
  }

  lemma SplitDominates<T>(t: seq<T>, k: nat, key: T -> real, x: T, y: T)
    requires k <= |t| && SortedDescBy(t, key)
    requires x in t[..k] && y in t[k..]
    ensures key(y) <= key(x)
  {
    var i :| 0 <= i < k && t[..k][i] == x;
    var j :| 0 <= j < |t[k..]| && t[k..][j] == y;
    assert t[k + j] == y && t[i] == x;
  }

  // ------------------------------------------------------------ distinct

  ghost predicate Distinct<T>(s: seq<T>)
  {
    forall i, j :: 0 <= i < j < |s| ==> s[i] != s[j]
  }

  /** A sequence without repetitions has as many elements as the set of its elements. */
  lemma {:induction false} DistinctCard<T>(s: seq<T>)
    requires Distinct(s)
    ensures |set x | x in s| == |s|
  {
    if s != [] {
      var t := s[..|s| - 1];
      var x := s[|s| - 1];
      assert s == t + [x];
      assert Distinct(t);
      DistinctCard(t);
      assert x !in t;
      assert (set y | y in s) == (set y | y in t) + {x};
    }
  }

  // ------------------------------------------------------------ grouping

  /** The predicate `x => key(x) == k`, named so that every use of it is the same value. */
  function HasKey<T, K(==)>(key: T -> K, k: K): T -> bool
  {
    (x: T) => key(x) == k
  }

  /** Filtering by a key keeps exactly the elements with that key. */
  lemma FilterHasKey<T(!new), K>(s: seq<T>, key: T -> K, k: K)
    ensures forall x :: x in Filter(s, HasKey(key, k)) <==> x in s && key(x) == k
    ensures forall x :: multiset(Filter(s, HasKey(key, k)))[x] == if key(x) == k then multiset(s)[x] else 0
  {
    var r := Filter(s, HasKey(key, k));
    forall x
      ensures x in r <==> x in s && key(x) == k
      ensures multiset(r)[x] == if key(x) == k then multiset(s)[x] else 0
    {
      assert HasKey(key, k)(x) == (key(x) == k);
    }
  }

  /**
   * The keys of `s` in the order a JavaScript `Map` keyed by `key` holds them
   * after one `set` per element: by first occurrence, each key once.
   */
  function KeysInOrder<T(!new), K(==, !new)>(s: seq<T>, key: T -> K): (ks: seq<K>)
    ensures Distinct(ks)
    ensures forall k :: k in ks <==> exists x :: x in s && key(x) == k
  {
    if s == [] then []
    else
      var prev := KeysInOrder(s[..|s| - 1], key);
      var x := s[|s| - 1];
      assert s == s[..|s| - 1] + [x];
      if key(x) in prev then prev else prev + [key(x)]
  }

  /** The total of `f` over the elements of `s` whose key is `k`, as a function of `k`. */
  function GroupTotal<T(!new), K(==)>(s: seq<T>, key: T -> K, f: T -> real): K -> real
  {
    k => Sum(Filter(s, HasKey(key, k)), f)
  }

  lemma GroupTotalSnoc<T(!new), K>(s: seq<T>, x: T, key: T -> K, f: T -> real, k: K)
    ensures GroupTotal(s + [x], key, f)(k) == GroupTotal(s, key, f)(k) + (if key(x) == k then f(x) else 0.0)
  {
    var p := HasKey(key, k);
    assert GroupTotal(s + [x], key, f)(k) == Sum(Filter(s + [x], p), f);
    assert GroupTotal(s, key, f)(k) == Sum(Filter(s, p), f);
    FilterSnoc(s, x, p);
    if key(x) == k {
      assert Filter(s + [x], p) == Filter(s, p) + [x];
      SumSnoc(Filter(s, p), x, f);
    } else {
      assert Filter(s + [x], p) == Filter(s, p) + [];
      assert Filter(s, p) + [] == Filter(s, p);
    }
  }

  /** Adding `c` at the one key `k0` of a sequence of distinct keys adds `c` to the sum, if `k0` is there. */
  lemma {:induction false} SumShift<K>(ks: seq<K>, g: K -> real, h: K -> real, k0: K, c: real)
    requires Distinct(ks)
    requires forall k :: k in ks ==> h(k) == g(k) + (if k == k0 then c else 0.0)
    ensures Sum(ks, h) == Sum(ks, g) + (if k0 in ks then c else 0.0)
  {
    if ks != [] {
      assert Distinct(ks[1..]);
      SumShift(ks[1..], g, h, k0, c);
      assert ks[0] == k0 ==> k0 !in ks[1..];
      assert k0 in ks <==> k0 == ks[0] || k0 in ks[1..];
    }
  }

  /** Summing the group totals over distinct keys that cover every key of `s` sums `f` over `s`. */
  lemma {:induction false} SumByGroups<T(!new), K>(s: seq<T>, key: T -> K, f: T -> real, ks: seq<K>)
    requires Distinct(ks)
    requires forall x :: x in s ==> key(x) in ks
    ensures Sum(ks, GroupTotal(s, key, f)) == Sum(s, f)
  {
    if s == [] {
      forall k | k in ks ensures GroupTotal(s, key, f)(k) == 0.0 {
      }
      SumZero(ks, GroupTotal(s, key, f));
    } else {
      var t := s[..|s| - 1];
      var x := s[|s| - 1];
      assert s == t + [x];
      SumByGroups(t, key, f, ks);
      GroupTotalsSnoc(t, x, key, f, ks);
      SumSnoc(t, x, f);
    }
  }

  /** One more element adds its own term to the sum of the group totals. */
  lemma GroupTotalsSnoc<T(!new), K>(t: seq<T>, x: T, key: T -> K, f: T -> real, ks: seq<K>)
    requires Distinct(ks) && key(x) in ks
    ensures Sum(ks, GroupTotal(t + [x], key, f)) == Sum(ks, GroupTotal(t, key, f)) + f(x)
  {
    forall k | k in ks
      ensures GroupTotal(t + [x], key, f)(k) == GroupTotal(t, key, f)(k) + (if k == key(x) then f(x) else 0.0)
    {
      GroupTotalSnoc(t, x, key, f, k);
    }
    SumShift(ks, GroupTotal(t, key, f), GroupTotal(t + [x], key, f), key(x), f(x));
  }

  /** A key no element of `s` has totals zero. */
  lemma GroupTotalAbsent<T(!new), K>(s: seq<T>, key: T -> K, f: T -> real, k: K)
    requires forall x :: x in s ==> key(x) != k
    ensures GroupTotal(s, key, f)(k) == 0.0
  {
    var r := Filter(s, HasKey(key, k));
    assert forall i :: 0 <= i < |r| ==> r[i] in r;
    assert r == [];
  }

  lemma {:induction false} SumZero<T>(s: seq<T>, f: T -> real)
    requires forall x :: x in s ==> f(x) == 0.0
    ensures Sum(s, f) == 0.0
  {
    if s != [] {
      SumZero(s[1..], f);
    }
  }

  /** A permutation has the same sum. */
  lemma {:induction false} SumPermutation<T>(a: seq<T>, b: seq<T>, f: T -> real)
    requires multiset(a) == multiset(b)
    ensures Sum(a, f) == Sum(b, f)
    decreases |a|
  {
    if a != [] {
      assert a[0] in multiset(b);
      var i :| 0 <= i < |b| && b[i] == a[0];
      var rest := b[..i] + b[i + 1..];
      assert b == b[..i] + [b[i]] + b[i + 1..];
      assert a == [a[0]] + a[1..];
      assert multiset(b) == multiset(b[..i]) + multiset{b[i]} + multiset(b[i + 1..]);
      assert multiset(a) == multiset{a[0]} + multiset(a[1..]);
      assert multiset(rest) == multiset(b[..i]) + multiset(b[i + 1..]);
      assert multiset(rest) == multiset(b) - multiset{b[i]};
      assert multiset(a[1..]) == multiset(a) - multiset{a[0]};
      SumPermutation(a[1..], rest, f);
      SumConcat(b[..i], b[i + 1..], f);
      SumConcat(b[..i] + [b[i]], b[i + 1..], f);
      SumSnoc(b[..i], b[i], f);
    }
  }

  /** The distinct keys of `s` are as many as the set `keys` of its keys. */
  lemma KeysCount<T(!new), K(!new)>(s: seq<T>, key: T -> K, keys: set<K>)
    requires forall k :: k in keys <==> exists x :: x in s && key(x) == k
    ensures |KeysInOrder(s, key)| == |keys|
  {
    var ks := KeysInOrder(s, key);
    DistinctCard(ks);
    assert (set k | k in ks) == keys;
  }

  // --------------------------------------------------------- ordered map

  /** A JavaScript `Map`: its entries, and its keys in insertion order. */
  datatype OrderedMap<K(==), V> = OrderedMap(entries: map<K, V>, order: seq<K>)
  {
    /** `m.set(k, v)`: a new key goes to the end of the order, an existing one keeps its place. */
    function Set(k: K, v: V): OrderedMap<K, V>
    {
      OrderedMap(entries[k := v], if k in entries then order else order + [k])
    }
  }
}
