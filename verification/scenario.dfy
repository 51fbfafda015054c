/**
 * Clients of the store that walk through a small example: two
 * assets `a` (price 10, market cap 100) and `b` (price 20, market cap 200),
 * a price filter, a descending price sort and a streamed price update. What
 * they assert follows from the reducers' contracts.
 */
module Scenario {
  import opened Options
  import opened AssetModel
  import opened Filtering
  import opened Sorting
  import opened Projection
  import opened CryptoSlice

  /** Projecting two assets: keep the matching ones, swap them only if the first compares after the second. */
  lemma ProjectPair(a: Asset, b: Asset, f: Filters, cfg: SortConfig)
    ensures Project([a, b], f, cfg) ==
      if Matches(a, f) && Matches(b, f) then (if Compare(a, b, cfg) > 0 then [b, a] else [a, b])
      else (if Matches(a, f) then [a] else []) + (if Matches(b, f) then [b] else [])
  {
    assert [a, b][1..] == [b];
    assert [a, b][..1] == [a];
    var sel := Select([a, b], f);
    SelectAppend([a], [b], f);
    assert [a] + [b] == [a, b];
    assert [a][1..] == [] && [b][1..] == [];
    assert sel == (if Matches(a, f) then [a] else []) + (if Matches(b, f) then [b] else []);
    if |sel| == 2 {
      assert sel == [a, b];
      assert [a][..0] == [];
      assert SortBy([a], cfg) == [a];
      assert SortBy(sel, cfg) == Insert([a], b, cfg);
      assert Insert([a], b, cfg) == if Compare(a, b, cfg) > 0 then Insert([], b, cfg) + [a] else [a] + [b];
    } else if |sel| == 1 {
      assert SortBy(sel, cfg) == Insert([], sel[0], cfg);
    }
  }

  method PriceFilter(a: Asset, b: Asset)
    requires a.price == 10.0 && a.marketCap == 100.0
    requires b.price == 20.0 && b.marketCap == 200.0
  {
    EmptySearchMatchesAll(a);
    EmptySearchMatchesAll(b);
    var store := new Store();
    store.SetAssets([a, b]);
    ProjectPair(a, b, DefaultFilters, DefaultSortConfig);
    assert store.filteredAssets == (if a.rank > b.rank then [b, a] else [a, b]);

    // Only b lies in the price range [15, 25].
    store.SetFilters(FilterPatch(None, Some(Range(15.0, 25.0)), None));
    ProjectPair(a, b, store.filters, store.sortConfig);
    assert store.filteredAssets == [b];
  }

  method DescendingPrice(a: Asset, b: Asset)
    requires a.price == 10.0 && a.marketCap == 100.0
    requires b.price == 20.0 && b.marketCap == 200.0
  {
    EmptySearchMatchesAll(a);
    EmptySearchMatchesAll(b);
    var store := new Store();
    store.SetAssets([a, b]);

    // Without a filter, a descending price sort puts b first.
    store.SetSortConfig(SortConfig(Price, Descending));
    ProjectPair(a, b, store.filters, store.sortConfig);
    assert store.filteredAssets == [b, a];
  }

  method UpdateIntoRange(a: Asset, b: Asset)
    requires a.id == "a" && a.price == 10.0 && a.marketCap == 100.0
    requires b.price == 20.0 && b.marketCap == 200.0
  {
    var store := new Store();
    store.SetAssets([a, b]);
    store.SetFilters(FilterPatch(None, Some(Range(15.0, 25.0)), None));

    // Moving a's price to 15 changes only that price and brings a into the range.
    assert FirstIndexOf([a, b], "a") == 0;
    store.UpdateAsset("a", NoUpdate.(price := Some(15.0)));
    var a' := a.(price := 15.0);
    MergePriceOnly(a, 15.0);
    assert store.assets == [a', b];
    EmptySearchMatchesAll(a');
    EmptySearchMatchesAll(b);
    ProjectPair(a', b, store.filters, store.sortConfig);
    assert a' in store.filteredAssets && b in store.filteredAssets;
  }

  method UnknownIdIgnored(a: Asset, b: Asset)
    requires a.id == "a" && b.id == "b"
  {
    var store := new Store();
    store.SetAssets([a, b]);
    ghost var before := store.filteredAssets;

    // An update for an id the store does not track changes nothing.
    assert [a, b][1..] == [b];
    assert FirstIndexOf([a, b], "c") == -1;
    store.UpdateAsset("c", NoUpdate.(price := Some(1.0)));
    assert store.assets == [a, b] && store.filteredAssets == before;
  }
}
