/**
 * `applyFiltersAndSorting`: the visible projection is the filtered
 * subsequence of the assets, stably sorted by the sort configuration.
 */
module Projection {
  import opened AssetModel
  import opened Filtering
  import opened Sorting

  /** The projection the store must always hold: filter, then stable sort. */
  function Project(assets: seq<Asset>, filters: Filters, cfg: SortConfig): seq<Asset> {
    SortBy(Select(assets, filters), cfg)
  }

  /** Filtering commutes with taking the group of one key value. */
  lemma {:induction false} WithKeySelect(s: seq<Asset>, f: Filters, key: SortKey, k: real)
    ensures WithKey(Select(s, f), key, k) == Select(WithKey(s, key, k), f)
  {
    if s != [] {
      WithKeySelect(s[1..], f, key, k);
      var h := if Matches(s[0], f) then [s[0]] else [];
      WithKeyAppend(h, Select(s[1..], f), key, k);
      var g := if KeyOf(s[0], key) == k then [s[0]] else [];
      SelectAppend(g, WithKey(s[1..], key, k), f);
    }
  }

  /**
   * The projection holds exactly the matching assets, once per occurrence,
   * ordered by the sort key in the configured direction, with assets of equal
   * key in their order in `assets`.
   */
  lemma ProjectSpec(assets: seq<Asset>, filters: Filters, cfg: SortConfig)
    ensures forall x :: x in Project(assets, filters, cfg) <==> x in assets && Matches(x, filters)
    ensures forall x :: multiset(Project(assets, filters, cfg))[x] == if Matches(x, filters) then multiset(assets)[x] else 0
    ensures Sorted(Project(assets, filters, cfg), cfg)
    ensures forall k :: WithKey(Project(assets, filters, cfg), cfg.key, k) == Select(WithKey(assets, cfg.key, k), filters)
  {
    var sel := Select(assets, filters);
    SortBySpec(sel, cfg);
    SelectCount(assets, filters);
    SelectIff(assets, filters);
    assert forall x :: x in Project(assets, filters, cfg) <==> x in multiset(sel);
    forall k ensures WithKey(Project(assets, filters, cfg), cfg.key, k) == Select(WithKey(assets, cfg.key, k), filters) {
      WithKeySelect(assets, filters, cfg.key, k);
    }
  }

  /** The projection is the only sequence with the properties of `ProjectSpec`. */
  lemma ProjectUnique(assets: seq<Asset>, filters: Filters, cfg: SortConfig, r: seq<Asset>)
    requires Sorted(r, cfg)
    requires forall k :: WithKey(r, cfg.key, k) == Select(WithKey(assets, cfg.key, k), filters)
    ensures r == Project(assets, filters, cfg)
  {
    forall k ensures WithKey(r, cfg.key, k) == WithKey(Select(assets, filters), cfg.key, k) {
      WithKeySelect(assets, filters, cfg.key, k);
    }
    SortByCharacterized(r, Select(assets, filters), cfg);
  }

  /** An inverted price or market-cap range empties the projection, without any error. */
  lemma InvertedRangeEmpty(assets: seq<Asset>, filters: Filters, cfg: SortConfig)
    requires filters.priceRange.min > filters.priceRange.max || filters.marketCapRange.min > filters.marketCapRange.max
    ensures Project(assets, filters, cfg) == []
  {
    forall x | x in assets ensures !Matches(x, filters) {
      InvertedRangeMatchesNothing(x, filters);
    }
    SelectNone(assets, filters);
  }

  /** Re-projecting the projection with the same settings changes nothing. */
  lemma ProjectIdempotent(assets: seq<Asset>, filters: Filters, cfg: SortConfig)
    ensures Project(Project(assets, filters, cfg), filters, cfg) == Project(assets, filters, cfg)
  {
    var p := Project(assets, filters, cfg);
    ProjectSpec(assets, filters, cfg);
    forall x | x in p ensures Matches(x, filters) { }
    SelectAll(p, filters);
    SortByIdempotent(Select(assets, filters), cfg);
  }

  /** Filtering cannot create two assets with the same key. */
  lemma {:induction false} SelectDistinct(s: seq<Asset>, f: Filters, key: SortKey)
    requires DistinctKeys(s, key)
    ensures DistinctKeys(Select(s, f), key)
  {
    if s != [] {
      assert DistinctKeys(s[1..], key);
      SelectDistinct(s[1..], f, key);
      var rest := Select(s[1..], f);
      forall x | x in rest ensures KeyOf(x, key) != KeyOf(s[0], key) {
        var j :| 0 <= j < |s[1..]| && s[1..][j] == x;
        assert s[j + 1] == x;
      }
      var r := Select(s, f);
      forall i, j | 0 <= i < j < |r| ensures KeyOf(r[i], key) != KeyOf(r[j], key) {
        if Matches(s[0], f) && i == 0 {
          assert r[j] == rest[j - 1];
        }
      }
    }
  }

  /** `applyFiltersAndSorting`: filter into a fresh array, sort it in place, return it. */
  method ApplyFiltersAndSorting(assets: seq<Asset>, filters: Filters, cfg: SortConfig) returns (r: seq<Asset>)
    ensures r == Project(assets, filters, cfg)
    ensures Sorted(r, cfg)
    ensures forall x :: x in r <==> x in assets && Matches(x, filters)
  {
    var filtered := Select(assets, filters);
    var a := new Asset[|filtered|](t requires 0 <= t < |filtered| => filtered[t]);
    assert a[..] == filtered;
    SortInPlace(a, cfg);
    r := a[..];
    ProjectSpec(assets, filters, cfg);
  }
}
