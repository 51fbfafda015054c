/**
 * The sort stage of the projection: sort configuration, the comparator, and
 * the stable sort that ECMAScript 2019 requires of `Array.prototype.sort`
 * (ECMA-262 10th edition, section 22.1.3.27).
 *
 * The sort is specified by `SortBy`, a stable insertion sort on sequences;
 * `SortInPlace` performs it on an array. `SortedUnique` shows that every
 * stable sort with this comparator yields the same sequence, so `SortBy`
 * stands for whatever stable algorithm the engine uses.
 */
module Sorting {
  import opened AssetModel

  datatype SortKey = Rank | Price | PriceChange24h | MarketCap
  datatype Direction = Ascending | Descending
  datatype SortConfig = SortConfig(key: SortKey, direction: Direction)

  /** The sort configuration of the initial state. */
  const DefaultSortConfig := SortConfig(Rank, Ascending)

  /** `a[key]`. */
  function KeyOf(a: Asset, key: SortKey): real {
    match key
    case Rank => a.rank as real
    case Price => a.price
    case PriceChange24h => a.priceChange24h
    case MarketCap => a.marketCap
  }

  /** The comparator handed to `sort`: negative puts `a` first, positive puts `b` first. */
  function Compare(a: Asset, b: Asset, cfg: SortConfig): int {
    var x, y := KeyOf(a, cfg.key), KeyOf(b, cfg.key);
    if x < y then (if cfg.direction == Ascending then -1 else 1)
    else if x > y then (if cfg.direction == Ascending then 1 else -1)
    else 0
  }

  /** Keys `x` then `y` are in order: non-decreasing ascending, non-increasing descending. */
  predicate InOrder(x: real, y: real, dir: Direction) {
    match dir
    case Ascending => x <= y
    case Descending => x >= y
  }

  /**
   * The comparator is consistent in the sense ECMAScript asks of it: it is
   * antisymmetric, it answers 0 exactly on equal keys, it orders by the key in
   * the chosen direction, and both "before" and "tied" are transitive.
   */
  lemma ComparatorConsistent(a: Asset, b: Asset, c: Asset, cfg: SortConfig)
    ensures Compare(a, b, cfg) == -Compare(b, a, cfg)
    ensures Compare(a, b, cfg) == 0 <==> KeyOf(a, cfg.key) == KeyOf(b, cfg.key)
    ensures Compare(a, b, cfg) <= 0 <==> InOrder(KeyOf(a, cfg.key), KeyOf(b, cfg.key), cfg.direction)
    ensures Compare(a, b, cfg) < 0 && Compare(b, c, cfg) < 0 ==> Compare(a, c, cfg) < 0
    ensures Compare(a, b, cfg) == 0 && Compare(b, c, cfg) == 0 ==> Compare(a, c, cfg) == 0
  {
  }

  /** Every earlier element is in order with every later one. */
  ghost predicate Sorted(s: seq<Asset>, cfg: SortConfig) {
    forall i, j :: 0 <= i < j < |s| ==> InOrder(KeyOf(s[i], cfg.key), KeyOf(s[j], cfg.key), cfg.direction)
  }

  /** The elements of `s` whose key equals `k`, in their order in `s`. */
  function WithKey(s: seq<Asset>, key: SortKey, k: real): seq<Asset> {
    if s == [] then []
    else (if KeyOf(s[0], key) == k then [s[0]] else []) + WithKey(s[1..], key, k)
  }

  /**
   * `r` keeps the relative order of every group of equal-keyed elements of
   * `s`: for each key value, the two sequences list the same elements in the
   * same order.
   */
  ghost predicate Stable(r: seq<Asset>, s: seq<Asset>, key: SortKey) {
    forall k :: WithKey(r, key, k) == WithKey(s, key, k)
  }

  /** No two elements of `s` share a key. */
  ghost predicate DistinctKeys(s: seq<Asset>, key: SortKey) {
    forall i, j :: 0 <= i < j < |s| ==> KeyOf(s[i], key) != KeyOf(s[j], key)
  }

  /**
   * Inserts `x` into `p` right after the last element that does not compare
   * after it: from the right end, every element that compares strictly after
   * `x` is stepped over.
   */
  function Insert(p: seq<Asset>, x: Asset, cfg: SortConfig): (r: seq<Asset>)
    ensures |r| == |p| + 1
  {
    if p == [] then [x]
    else if Compare(p[|p| - 1], x, cfg) > 0 then Insert(p[..|p| - 1], x, cfg) + [p[|p| - 1]]
    else p + [x]
  }

  /** Stable insertion sort: the last element is inserted into the sorted rest. */
  function SortBy(s: seq<Asset>, cfg: SortConfig): (r: seq<Asset>)
    ensures |r| == |s|
  {
    if s == [] then [] else Insert(SortBy(s[..|s| - 1], cfg), s[|s| - 1], cfg)
  }

  function Reverse(s: seq<Asset>): (r: seq<Asset>)
    ensures |r| == |s|
    ensures forall i :: 0 <= i < |s| ==> r[i] == s[|s| - 1 - i]
  {
    if s == [] then [] else Reverse(s[1..]) + [s[0]]
  }

  // ---------------------------------------------------------------------------
  // WithKey

  lemma {:induction false} WithKeyAppend(s: seq<Asset>, t: seq<Asset>, key: SortKey, k: real)
    ensures WithKey(s + t, key, k) == WithKey(s, key, k) + WithKey(t, key, k)
  {
    if s == [] {
      assert s + t == t;
    } else {
      assert (s + t)[1..] == s[1..] + t;
      WithKeyAppend(s[1..], t, key, k);
    }
  }

  /** Every element of `s` is counted in the group of its own key. */
  lemma {:induction false} WithKeyCount(s: seq<Asset>, key: SortKey, x: Asset)
    ensures multiset(WithKey(s, key, KeyOf(x, key)))[x] == multiset(s)[x]
  {
    if s != [] {
      WithKeyCount(s[1..], key, x);
      assert s == [s[0]] + s[1..];
    }
  }

  /** The group of key `k` holds only elements of `s` with key `k`. */
  lemma {:induction false} WithKeyMember(s: seq<Asset>, key: SortKey, k: real, x: Asset)
    requires x in WithKey(s, key, k)
    ensures x in s && KeyOf(x, key) == k
  {
    if s != [] && x !in (if KeyOf(s[0], key) == k then [s[0]] else []) {
      WithKeyMember(s[1..], key, k, x);
    }
  }

  /** Two sequences that agree group by group are permutations of each other. */
  lemma StableIsPermutation(r: seq<Asset>, s: seq<Asset>, key: SortKey)
    requires Stable(r, s, key)
    ensures multiset(r) == multiset(s)
  {
    forall x ensures multiset(r)[x] == multiset(s)[x] {
      WithKeyCount(r, key, x);
      WithKeyCount(s, key, x);
    }
  }

  /** Distinct keys make every group a singleton or empty. */
  lemma {:induction false} DistinctKeysGroups(s: seq<Asset>, key: SortKey, k: real)
    requires DistinctKeys(s, key)
    ensures |WithKey(s, key, k)| <= 1
  {
    if s != [] {
      assert DistinctKeys(s[1..], key);
      DistinctKeysGroups(s[1..], key, k);
      if KeyOf(s[0], key) == k && WithKey(s[1..], key, k) != [] {
        WithKeyMember(s[1..], key, k, WithKey(s[1..], key, k)[0]);
        assert false;
      }
    }
  }

  // ---------------------------------------------------------------------------
  // Insert

  lemma {:induction false} InsertMultiset(p: seq<Asset>, x: Asset, cfg: SortConfig)
    ensures multiset(Insert(p, x, cfg)) == multiset(p) + multiset{x}
    decreases |p|
  {
    if p != [] && Compare(p[|p| - 1], x, cfg) > 0 {
      InsertMultiset(p[..|p| - 1], x, cfg);
      assert p == p[..|p| - 1] + [p[|p| - 1]];
    }
  }

  /** Inserting `x` appends it to its own key group and leaves every other group alone. */
  lemma {:induction false} InsertWithKey(p: seq<Asset>, x: Asset, cfg: SortConfig, k: real)
    ensures WithKey(Insert(p, x, cfg), cfg.key, k)
         == WithKey(p, cfg.key, k) + (if KeyOf(x, cfg.key) == k then [x] else [])
    decreases |p|
  {
    var key := cfg.key;
    if p == [] {
    } else {
      var init, last := p[..|p| - 1], p[|p| - 1];
      assert p == init + [last];
      WithKeyAppend(init, [last], key, k);
      if Compare(last, x, cfg) > 0 {
        InsertWithKey(init, x, cfg, k);
        WithKeyAppend(Insert(init, x, cfg), [last], key, k);
        assert KeyOf(last, key) != KeyOf(x, key);
      } else {
        WithKeyAppend(p, [x], key, k);
      }
    }
  }

  lemma {:induction false} InsertSorted(p: seq<Asset>, x: Asset, cfg: SortConfig)
    requires Sorted(p, cfg)
    ensures Sorted(Insert(p, x, cfg), cfg)
    decreases |p|
  {
    if p != [] {
      var init, last := p[..|p| - 1], p[|p| - 1];
      if Compare(last, x, cfg) > 0 {
        assert Sorted(init, cfg);
        InsertSorted(init, x, cfg);
        InsertMultiset(init, x, cfg);
        var q := Insert(init, x, cfg);
        forall i | 0 <= i < |q|
          ensures InOrder(KeyOf(q[i], cfg.key), KeyOf(last, cfg.key), cfg.direction)
        {
          assert q[i] in multiset(init) + multiset{x};
        }
      }
    }
  }

  // ---------------------------------------------------------------------------
  // SortBy: sorted, stable, a permutation, and the only such sequence

  lemma {:induction false} SortBySorted(s: seq<Asset>, cfg: SortConfig)
    ensures Sorted(SortBy(s, cfg), cfg)
    decreases |s|
  {
    if s != [] {
      SortBySorted(s[..|s| - 1], cfg);
      InsertSorted(SortBy(s[..|s| - 1], cfg), s[|s| - 1], cfg);
    }
  }

  lemma {:induction false} SortByStable(s: seq<Asset>, cfg: SortConfig)
    ensures Stable(SortBy(s, cfg), s, cfg.key)
    decreases |s|
  {
    if s != [] {
      var init, last := s[..|s| - 1], s[|s| - 1];
      assert s == init + [last];
      SortByStable(init, cfg);
      forall k ensures WithKey(SortBy(s, cfg), cfg.key, k) == WithKey(s, cfg.key, k) {
        InsertWithKey(SortBy(init, cfg), last, cfg, k);
        WithKeyAppend(init, [last], cfg.key, k);
      }
    }
  }

  /** `SortBy` returns a sorted permutation of its input that keeps ties in input order. */
  lemma SortBySpec(s: seq<Asset>, cfg: SortConfig)
    ensures Sorted(SortBy(s, cfg), cfg)
    ensures multiset(SortBy(s, cfg)) == multiset(s)
    ensures Stable(SortBy(s, cfg), s, cfg.key)
  {
    SortBySorted(s, cfg);
    SortByStable(s, cfg);
    StableIsPermutation(SortBy(s, cfg), s, cfg.key);
  }

  /** Two sorted sequences that agree group by group are equal. */
  lemma {:induction false} SortedUnique(r1: seq<Asset>, r2: seq<Asset>, cfg: SortConfig)
    requires Sorted(r1, cfg) && Sorted(r2, cfg)
    requires Stable(r1, r2, cfg.key)
    ensures r1 == r2
    decreases |r1|
  {
    var key := cfg.key;
    StableIsPermutation(r1, r2, key);
    assert |r1| == |multiset(r1)| == |multiset(r2)| == |r2|;
    if r1 != [] {
      var m1, m2 := KeyOf(r1[0], key), KeyOf(r2[0], key);
      // the head of r1 has a key that some element of r2 has, which r2's head precedes
      assert WithKey(r1, key, m1)[0] == r1[0];
      WithKeyMember(r2, key, m1, r1[0]);
      var j :| 0 <= j < |r2| && r2[j] == r1[0];
      assert InOrder(m2, m1, cfg.direction) by {
        if j > 0 { assert InOrder(KeyOf(r2[0], key), KeyOf(r2[j], key), cfg.direction); }
      }
      assert WithKey(r2, key, m2)[0] == r2[0];
      WithKeyMember(r1, key, m2, r2[0]);
      var i :| 0 <= i < |r1| && r1[i] == r2[0];
      assert InOrder(m1, m2, cfg.direction) by {
        if i > 0 { assert InOrder(KeyOf(r1[0], key), KeyOf(r1[i], key), cfg.direction); }
      }
      assert m1 == m2;
      assert r1[0] == WithKey(r1, key, m1)[0] == WithKey(r2, key, m1)[0] == r2[0];
      forall k ensures WithKey(r1[1..], key, k) == WithKey(r2[1..], key, k) {
        var h := if KeyOf(r1[0], key) == k then [r1[0]] else [];
        assert WithKey(r1, key, k) == h + WithKey(r1[1..], key, k);
        assert WithKey(r2, key, k) == h + WithKey(r2[1..], key, k);
        assert WithKey(r1[1..], key, k) == WithKey(r1, key, k)[|h|..];
        assert WithKey(r2[1..], key, k) == WithKey(r2, key, k)[|h|..];
      }
      SortedUnique(r1[1..], r2[1..], cfg);
      assert r1 == [r1[0]] + r1[1..];
      assert r2 == [r2[0]] + r2[1..];
    }
  }

  /** Any sorted sequence that keeps the ties of `s` in their order is `SortBy(s, cfg)`. */
  lemma SortByCharacterized(r: seq<Asset>, s: seq<Asset>, cfg: SortConfig)
    requires Sorted(r, cfg) && Stable(r, s, cfg.key)
    ensures r == SortBy(s, cfg)
  {
    SortBySpec(s, cfg);
    SortedUnique(r, SortBy(s, cfg), cfg);
  }

  /** Sorting an already sorted projection again changes nothing. */
  lemma SortByIdempotent(s: seq<Asset>, cfg: SortConfig)
    ensures SortBy(SortBy(s, cfg), cfg) == SortBy(s, cfg)
  {
    SortBySpec(s, cfg);
    SortBySpec(SortBy(s, cfg), cfg);
    SortedUnique(SortBy(SortBy(s, cfg), cfg), SortBy(s, cfg), cfg);
  }

  lemma {:induction false} WithKeyReverse(s: seq<Asset>, key: SortKey, k: real)
    ensures WithKey(Reverse(s), key, k) == Reverse(WithKey(s, key, k))
  {
    if s != [] {
      WithKeyReverse(s[1..], key, k);
      WithKeyAppend(Reverse(s[1..]), [s[0]], key, k);
    }
  }

  /**
   * When no two elements share a key, sorting descending gives exactly the
   * reverse of sorting ascending.
   */
  lemma SortByReverse(s: seq<Asset>, key: SortKey)
    requires DistinctKeys(s, key)
    ensures SortBy(s, SortConfig(key, Descending)) == Reverse(SortBy(s, SortConfig(key, Ascending)))
  {
    var up := SortBy(s, SortConfig(key, Ascending));
    SortBySpec(s, SortConfig(key, Ascending));
    forall k ensures WithKey(Reverse(up), key, k) == WithKey(s, key, k) {
      WithKeyReverse(up, key, k);
      DistinctKeysGroups(s, key, k);
    }
    SortByCharacterized(Reverse(up), s, SortConfig(key, Descending));
  }

  // ---------------------------------------------------------------------------
  // The sort performed in place

  /**
   * Where `x` lands: after the prefix that ends in an element not comparing
   * after it, and before a suffix of elements that all compare after it.
   */
  lemma {:induction false} InsertPosition(p: seq<Asset>, x: Asset, cfg: SortConfig, j: int)
    requires 0 <= j <= |p|
    requires forall t :: j <= t < |p| ==> Compare(p[t], x, cfg) > 0
    requires j == 0 || Compare(p[j - 1], x, cfg) <= 0
    ensures Insert(p, x, cfg) == p[..j] + [x] + p[j..]
    decreases |p|
  {
    if j < |p| {
      var init, last := p[..|p| - 1], p[|p| - 1];
      assert Insert(p, x, cfg) == Insert(init, x, cfg) + [last];
      assert forall t :: j <= t < |init| ==> init[t] == p[t];
      InsertPosition(init, x, cfg, j);
      assert init[..j] == p[..j];
      assert init[j..] + [last] == p[j..];
    } else {
      assert p[..j] == p && p[j..] == [];
    }
  }

  /** Sorting one more element of the input inserts it into the sorted prefix. */
  lemma SortByPrefix(s: seq<Asset>, cfg: SortConfig, i: int)
    requires 0 <= i < |s|
    ensures SortBy(s[..i + 1], cfg) == Insert(SortBy(s[..i], cfg), s[i], cfg)
  {
    assert s[..i + 1][..i] == s[..i];
  }

  /** The array after the inner loop: the prefix, then `x`, then the shifted rest. */
  lemma ShiftedPrefix(a: array<Asset>, p: seq<Asset>, x: Asset, j: int)
    requires 0 <= j <= |p| < a.Length
    requires forall t :: 0 <= t < j ==> a[t] == p[t]
    requires a[j] == x
    requires forall t :: j < t <= |p| ==> a[t] == p[t - 1]
    ensures a[..|p| + 1] == p[..j] + [x] + p[j..]
  {
    var q := p[..j] + [x] + p[j..];
    forall t | 0 <= t <= |p| ensures a[t] == q[t] {
      if t > j { assert q[t] == p[j..][t - j - 1]; }
    }
  }

  /**
   * The inner loop of the insertion sort: shifts right every element of
   * `a[..i]` that compares after `a[i]`, then drops `a[i]` into the gap.
   */
  method InsertInPlace(a: array<Asset>, i: int, cfg: SortConfig)
    requires 0 <= i < a.Length
    modifies a
    ensures a[..i + 1] == Insert(old(a[..i]), old(a[i]), cfg)
    ensures forall t :: i < t < a.Length ==> a[t] == old(a[t])
  {
    var x := a[i];
    ghost var p := a[..i];
    var j := i;
    while j > 0 && Compare(a[j - 1], x, cfg) > 0
      invariant 0 <= j <= i
      invariant forall t :: 0 <= t < j ==> a[t] == p[t]
      invariant forall t :: j < t <= i ==> a[t] == p[t - 1]
      invariant forall t :: i < t < a.Length ==> a[t] == old(a[t])
      invariant forall t :: j <= t < i ==> Compare(p[t], x, cfg) > 0
    {
      a[j] := a[j - 1];
      j := j - 1;
    }
    a[j] := x;
    InsertPosition(p, x, cfg, j);
    ShiftedPrefix(a, p, x, j);
  }

  /** `a.sort(comparator)`: an insertion sort whose result is `SortBy` of the original contents. */
  method SortInPlace(a: array<Asset>, cfg: SortConfig)
    modifies a
    ensures a[..] == SortBy(old(a[..]), cfg)
  {
    ghost var s := a[..];
    var i := 0;
    while i < a.Length
      invariant 0 <= i <= a.Length
      invariant a[..i] == SortBy(s[..i], cfg)
      invariant forall t :: i <= t < a.Length ==> a[t] == s[t]
    {
      InsertInPlace(a, i, cfg);
      SortByPrefix(s, cfg, i);
      i := i + 1;
    }
    assert s[..a.Length] == s;
  }
}
