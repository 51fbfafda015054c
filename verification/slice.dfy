/**
 * The crypto slice: the single store holding the canonical assets, the
 * filter and sort settings, the derived visible projection and the request
 * status, with one method per reducer. Every reducer that changes data
 * recomputes the projection from scratch, so `Valid()` -- the projection is
 * exactly `Project` of the current assets, filters and sort configuration --
 * holds after each of them.
 */
module CryptoSlice {
  import opened Options
  import opened AssetModel
  import opened Filtering
  import opened Sorting
  import opened Projection

  /** The index `findIndex` returns: the first asset with this id, or -1 when there is none. */
  function FirstIndexOf(s: seq<Asset>, id: string): (r: int)
    ensures -1 <= r < |s|
    ensures r == -1 ==> forall i :: 0 <= i < |s| ==> s[i].id != id
    ensures r != -1 ==> s[r].id == id && forall i :: 0 <= i < r ==> s[i].id != id
  {
    if s == [] then -1
    else if s[0].id == id then 0
    else
      var t := FirstIndexOf(s[1..], id);
      if t == -1 then -1 else t + 1
  }

  /** `assets.findIndex(asset => asset.id === id)`: a left-to-right scan. */
  method FindIndex(s: seq<Asset>, id: string) returns (r: int)
    ensures r == FirstIndexOf(s, id)
  {
    var i := 0;
    while i < |s|
      invariant 0 <= i <= |s|
      invariant forall t :: 0 <= t < i ==> s[t].id != id
    {
      if s[i].id == id {
        return i;
      }
      i := i + 1;
    }
    return -1;
  }

  class Store {
    var assets: seq<Asset>
    var filteredAssets: seq<Asset>
    var loading: bool
    var error: Option<string>
    var sortConfig: SortConfig
    var filters: Filters

    /** The projection is never stale. */
    ghost predicate Valid()
      reads this
    {
      filteredAssets == Project(assets, filters, sortConfig)
    }

    /** `initialState`. */
    constructor ()
      ensures Valid()
      ensures assets == [] && filteredAssets == [] && !loading && error == None
      ensures sortConfig == DefaultSortConfig && filters == DefaultFilters
    {
      assets := [];
      filteredAssets := [];
      loading := false;
      error := None;
      sortConfig := DefaultSortConfig;
      filters := DefaultFilters;
    }

    /** `setAssets`: replaces the assets, recomputes the projection, clears `loading` but not `error`. */
    method SetAssets(payload: seq<Asset>)
      modifies this
      ensures Valid()
      ensures assets == payload && !loading
      ensures error == old(error) && filters == old(filters) && sortConfig == old(sortConfig)
    {
      assets := payload;
      filteredAssets := ApplyFiltersAndSorting(payload, filters, sortConfig);
      loading := false;
    }

    /**
     * `updateAsset`: merges `updates` into the first asset with this id and
     * recomputes the projection; an unknown id leaves the whole state as it was.
     */
    method UpdateAsset(id: string, updates: AssetUpdate)
      requires Valid()
      modifies this
      ensures Valid()
      ensures loading == old(loading) && error == old(error)
      ensures filters == old(filters) && sortConfig == old(sortConfig)
      ensures var k := FirstIndexOf(old(assets), id);
        if k == -1 then assets == old(assets) && filteredAssets == old(filteredAssets)
        else assets == old(assets)[k := Merge(old(assets)[k], updates)]
    {
      var k := FindIndex(assets, id);
      if k != -1 {
        assets := assets[k := Merge(assets[k], updates)];
        filteredAssets := ApplyFiltersAndSorting(assets, filters, sortConfig);
      }
    }

    /** `setSortConfig`: replaces the sort configuration wholesale. */
    method SetSortConfig(cfg: SortConfig)
      modifies this
      ensures Valid()
      ensures sortConfig == cfg
      ensures assets == old(assets) && filters == old(filters)
      ensures loading == old(loading) && error == old(error)
    {
      sortConfig := cfg;
      filteredAssets := ApplyFiltersAndSorting(assets, filters, cfg);
    }

    /**
     * `setFilters`: spreads the payload over the filters. The projection is
     * computed from the payload spread once more over the already updated
     * filters, which is the same filters.
     */
    method SetFilters(patch: FilterPatch)
      modifies this
      ensures Valid()
      ensures filters == ApplyPatch(old(filters), patch)
      ensures assets == old(assets) && sortConfig == old(sortConfig)
      ensures loading == old(loading) && error == old(error)
    {
      filters := ApplyPatch(filters, patch);
      ApplyPatchSpec(old(filters), patch);
      filteredAssets := ApplyFiltersAndSorting(assets, ApplyPatch(filters, patch), sortConfig);
    }

    /** `resetFilters`: restores the initial filters. */
    method ResetFilters()
      modifies this
      ensures Valid()
      ensures filters == DefaultFilters
      ensures assets == old(assets) && sortConfig == old(sortConfig)
      ensures loading == old(loading) && error == old(error)
    {
      filters := DefaultFilters;
      filteredAssets := ApplyFiltersAndSorting(assets, DefaultFilters, sortConfig);
    }

    /** `setLoading`: changes `loading` and nothing else. */
    method SetLoading(value: bool)
      modifies this
      ensures loading == value
      ensures assets == old(assets) && filteredAssets == old(filteredAssets)
      ensures filters == old(filters) && sortConfig == old(sortConfig) && error == old(error)
      ensures old(Valid()) ==> Valid()
    {
      loading := value;
    }

    /** `setError`: records the error (or clears it with `None`) and clears `loading`. */
    method SetError(value: Option<string>)
      modifies this
      ensures error == value && !loading
      ensures assets == old(assets) && filteredAssets == old(filteredAssets)
      ensures filters == old(filters) && sortConfig == old(sortConfig)
      ensures old(Valid()) ==> Valid()
    {
      error := value;
      loading := false;
    }
  }
}
