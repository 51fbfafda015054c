# Crypto price tracker store — a Dafny model

This project models the state core of a cryptocurrency price tracker. The tracker is a Redux application.

Its store holds:
- the canonical list of tracked assets;
- the current filters: a case-insensitive search term plus inclusive price and market-cap ranges;
- the current sort configuration: a key and a direction;
- a loading flag and an optional error message;
- the derived list `filteredAssets`, which is the assets that pass the filters, stably sorted by the configuration.

Every reducer that touches assets, filters or sort configuration recomputes `filteredAssets` from scratch. The model states this as the class invariant `Store.Valid()`, "the projection is never stale", and every reducer is proved to keep it.

The model also covers the two pure helpers of the sort controls:
- `handleSort` picks the next sort configuration when a column button is clicked;
- `getSortIndicator` picks the arrow that button shows.

Modules, in dependency order:

- `Options` (option.dfy): the `Option` datatype.
- `AssetModel` (asset.dfy): the asset record and partial updates. Spreading an update over an asset (`{ ...asset, ...updates }`) is `Merge`.
- `Text` (text.dfy): `toLowerCase` restricted to ASCII, and `String.prototype.includes`, with soundness and completeness against an explicit occurrence predicate.
- `Filtering` (filters.dfy): filters, filter payloads, the filter predicate and `Select`, which models `Array.prototype.filter`.
- `Sorting` (sorting.dfy): the comparator; `SortBy`, a stable insertion sort on sequences that specifies the sort; and `SortInPlace`, the in-place array sort proved equal to it.
  - `SortedUnique` shows that any result that is sorted and keeps equal keys in input order is this one. So `SortBy` stands for whatever stable algorithm the JavaScript engine uses. ECMAScript 2019 (ECMA-262 10th edition, section 22.1.3.27) requires `Array.prototype.sort` to be stable.
- `Projection` (projection.dfy): `applyFiltersAndSorting` and the properties of the projection.
- `CryptoSlice` (slice.dfy): `findIndex` and the class `Store`, whose methods are the slice's reducers.
- `Controls` (controls.dfy): `handleSort` and `getSortIndicator`.
- `Scenario` (scenario.dfy): a worked example that drives a `Store` through loading two assets, a price filter, a descending sort, a streamed update and an update for an unknown id.

Numbers are modelled as mathematical reals, with `rank` an integer. The core only compares numbers and never computes with them.

## Model

| member | source | states |
|---|---|---|
| AssetModel.Merge | src/features/crypto/cryptoSlice.js:32 | `{ ...asset, ...updates }`: each field the update carries replaces the asset's, the others are kept; its properties are the `Merge…` lemmas below |
| AssetModel.MergePriceOnly | src/features/crypto/cryptoSlice.js:32 | an update that carries only a price changes the price and keeps every other field |
| AssetModel.MergeNoUpdate | src/features/crypto/cryptoSlice.js:32 | spreading an empty update leaves the asset unchanged |
| AssetModel.MergeFullUpdate | src/features/crypto/cryptoSlice.js:32 | an update that carries every field of `b` yields exactly `b`, whatever the old asset was |
| AssetModel.MergeIdempotent | src/features/crypto/cryptoSlice.js:32 | applying the same update twice gives the same asset as applying it once |
| AssetModel.MergeCombine | src/features/crypto/cryptoSlice.js:32 | two successive updates equal one update in which the later keys win |
| Text.ToLower | src/features/crypto/cryptoSlice.js:62-63 | `toLowerCase` keeps the length and lower-cases each character independently |
| Text.ToLowerIdempotent | src/features/crypto/cryptoSlice.js:62-63 | a lower-cased string has no capital letter, and lower-casing it again changes nothing |
| Text.Includes | src/features/crypto/cryptoSlice.js:62-63 | `String.prototype.includes`, trying every start index from the left; `IncludesIff` proves it agrees with the occurrence predicate |
| Text.IncludesSound | src/features/crypto/cryptoSlice.js:62-63 | when `includes` answers true, the needle occurs at some index of the haystack |
| Text.IncludesComplete | src/features/crypto/cryptoSlice.js:62-63 | every occurrence of the needle makes `includes` answer true |
| Text.IncludesIff | src/features/crypto/cryptoSlice.js:62-63 | `includes` is true exactly when the needle occurs somewhere in the haystack |
| Text.IncludesEmpty | src/features/crypto/cryptoSlice.js:62-63 | the empty string is included in every string |
| Filtering.DefaultFilters | src/features/crypto/cryptoSlice.js:12-16 | the initial filters: empty search term, price range [0, 100000], market-cap range [0, 10^12] |
| Filtering.ApplyPatch | src/features/crypto/cryptoSlice.js:41 | `{ ...filters, ...payload }`; `ApplyPatchSpec` proves which fields change and that a second spread changes nothing |
| Filtering.ApplyPatchSpec | src/features/crypto/cryptoSlice.js:41 | `{ ...filters, ...payload }` overwrites exactly the fields the payload carries and keeps the others; spreading the same payload twice equals spreading it once |
| Filtering.ResetThenRestore | src/features/crypto/cryptoSlice.js:12-16 | setting every field over the initial filters restores any filters exactly |
| Filtering.InRange | src/features/crypto/cryptoSlice.js:64-66 | the inclusive range test `min <= x && x <= max` |
| Filtering.MatchesSearch | src/features/crypto/cryptoSlice.js:62-63 | the lower-cased search term is included in the lower-cased name or symbol |
| Filtering.Matches | src/features/crypto/cryptoSlice.js:61-67 | the filter callback: search, price and market-cap conditions all hold; `MatchesIff` restates it through explicit occurrences |
| Filtering.MatchesIff | src/features/crypto/cryptoSlice.js:61-68 | an asset passes the filter if and only if the lower-cased term occurs in its lower-cased name or symbol, its price lies in the price range and its market cap lies in the market-cap range, all bounds inclusive |
| Filtering.EmptySearchMatchesAll | src/features/crypto/cryptoSlice.js:62-63 | an empty search term lets every asset through the search condition |
| Filtering.InvertedRangeMatchesNothing | src/features/crypto/cryptoSlice.js:64-66 | with a price or market-cap range whose minimum exceeds its maximum, no asset matches |
| Filtering.Select | src/features/crypto/cryptoSlice.js:61-68 | the filtered list is no longer than the input, and all its elements come from the input and match |
| Filtering.SelectCount | src/features/crypto/cryptoSlice.js:61-68 | each matching asset appears as often as in the input; non-matching assets do not appear |
| Filtering.SelectIff | src/features/crypto/cryptoSlice.js:61-68 | an asset is in the filtered list if and only if it is in the input and matches |
| Filtering.SelectAppend | src/features/crypto/cryptoSlice.js:61-68 | filtering a concatenation is concatenating the filtered parts, so input order is kept |
| Filtering.SelectNone | src/features/crypto/cryptoSlice.js:61-68 | when no element matches, the filtered list is empty |
| Filtering.SelectAll | src/features/crypto/cryptoSlice.js:61-68 | when every element matches, the filtered list is the input itself |
| Sorting.DefaultSortConfig | src/features/crypto/cryptoSlice.js:8-11 | the initial sort configuration: rank, ascending |
| Sorting.KeyOf | src/features/crypto/cryptoSlice.js:73-76 | `a[sortConfig.key]` for the four numeric sort columns |
| Sorting.Compare | src/features/crypto/cryptoSlice.js:72-80 | the comparator passed to `sort`; `ComparatorConsistent` proves it consistent and directional |
| Sorting.ComparatorConsistent | src/features/crypto/cryptoSlice.js:72-80 | the comparator is antisymmetric, is 0 exactly on equal keys, is non-positive exactly when the keys are in the configured direction, and both "before" and "tie" are transitive |
| Sorting.Insert | src/features/crypto/cryptoSlice.js:70-81 | inserting one asset lengthens the list by one |
| Sorting.SortBy | src/features/crypto/cryptoSlice.js:70-81 | sorting preserves length |
| Sorting.Reverse | src/components/Controls.jsx:23-29 | element `i` of the reversal is element `n-1-i` of the input |
| Sorting.WithKeyAppend | src/features/crypto/cryptoSlice.js:70-81 | the equal-key subsequence of a concatenation is the concatenation of the subsequences |
| Sorting.WithKeyCount | src/features/crypto/cryptoSlice.js:70-81 | an asset's equal-key subsequence holds it as often as the whole list does |
| Sorting.WithKeyMember | src/features/crypto/cryptoSlice.js:70-81 | the equal-key subsequence holds exactly the elements with that key |
| Sorting.StableIsPermutation | src/features/crypto/cryptoSlice.js:70-81 | a result that keeps every group of equal keys in input order is a permutation of the input |
| Sorting.DistinctKeysGroups | src/features/crypto/cryptoSlice.js:70-81 | when keys are pairwise distinct, each equal-key group has at most one element |
| Sorting.InsertMultiset | src/features/crypto/cryptoSlice.js:70-81 | insertion adds exactly the inserted asset |
| Sorting.InsertWithKey | src/features/crypto/cryptoSlice.js:70-81 | insertion appends the asset to the end of its own key group and leaves the other groups alone |
| Sorting.InsertSorted | src/features/crypto/cryptoSlice.js:70-81 | inserting into a sorted list yields a sorted list |
| Sorting.SortBySorted | src/features/crypto/cryptoSlice.js:70-81 | the result is ordered non-decreasing by key when ascending and non-increasing when descending |
| Sorting.SortByStable | src/features/crypto/cryptoSlice.js:70-81 | assets with equal keys keep their relative input order |
| Sorting.SortBySpec | src/features/crypto/cryptoSlice.js:70-81 | the sort result is sorted, a permutation of the input and stable |
| Sorting.SortedUnique | src/features/crypto/cryptoSlice.js:70-81 | two sorted lists with the same equal-key groups in the same order are identical, so every stable sort gives one result |
| Sorting.SortByCharacterized | src/features/crypto/cryptoSlice.js:70-81 | any sorted list that keeps the input's ties in order is `SortBy` of the input |
| Sorting.SortByIdempotent | src/features/crypto/cryptoSlice.js:70-81 | re-sorting a sorted result with the same configuration changes nothing |
| Sorting.WithKeyReverse | src/features/crypto/cryptoSlice.js:70-81 | the equal-key group of a reversed list is the reversed group |
| Sorting.SortByReverse | src/features/crypto/cryptoSlice.js:72-80 | with pairwise distinct keys, the descending sort is the reversed ascending sort |
| Sorting.InsertPosition | src/features/crypto/cryptoSlice.js:72-80 | insertion places the asset after the last element that does not compare after it |
| Sorting.SortByPrefix | src/features/crypto/cryptoSlice.js:70-81 | sorting one more input element inserts it into the sorted prefix |
| Sorting.ShiftedPrefix | src/features/crypto/cryptoSlice.js:72 | the array after shifting the larger elements right and writing the new one is prefix, new element, rest |
| Sorting.InsertInPlace | src/features/crypto/cryptoSlice.js:72-80 | one insertion step on the array produces the functional insertion in the prefix and leaves the rest of the array unchanged |
| Sorting.SortInPlace | src/features/crypto/cryptoSlice.js:72-80 | sorting the array in place leaves exactly `SortBy` of its original contents |
| Projection.Project | src/features/crypto/cryptoSlice.js:59-84 | the value `applyFiltersAndSorting` returns: the stable sort of the filtered assets; `ProjectSpec` and `ProjectUnique` characterise it exactly |
| Projection.WithKeySelect | src/features/crypto/cryptoSlice.js:59-84 | filtering commutes with taking an equal-key group |
| Projection.ProjectSpec | src/features/crypto/cryptoSlice.js:59-84 | the projection holds exactly the matching assets, each once per occurrence, sorted by the key in the configured direction, with ties in their order in `assets` |
| Projection.ProjectUnique | src/features/crypto/cryptoSlice.js:59-84 | any list with the properties of `ProjectSpec` is the projection |
| Projection.InvertedRangeEmpty | src/features/crypto/cryptoSlice.js:64-66 | an inverted price or market-cap range gives an empty projection, with no error |
| Projection.ProjectIdempotent | src/features/crypto/cryptoSlice.js:59-84 | projecting the projection again with the same filters and configuration changes nothing |
| Projection.SelectDistinct | src/features/crypto/cryptoSlice.js:61-68 | filtering keeps keys pairwise distinct |
| Projection.ApplyFiltersAndSorting | src/features/crypto/cryptoSlice.js:59-84 | filtering into a fresh array and sorting it returns the projection, which is sorted and holds exactly the matching assets |
| CryptoSlice.FirstIndexOf | src/features/crypto/cryptoSlice.js:30 | the result is -1 when no asset has the id, otherwise the index of the first asset that has it |
| CryptoSlice.FindIndex | src/features/crypto/cryptoSlice.js:30 | the left-to-right scan returns the first index with the id, or -1 |
| CryptoSlice.Store.Valid | src/features/crypto/cryptoSlice.js:23-47 | the invariant every reducer keeps: `filteredAssets` is the projection of the current assets, filters and sort configuration |
| CryptoSlice.Store.constructor | src/features/crypto/cryptoSlice.js:3-17 | the initial state has no assets, an empty projection, no loading and no error, sorts by rank ascending, has the default filters, and satisfies the invariant |
| CryptoSlice.Store.SetAssets | src/features/crypto/cryptoSlice.js:23-27 | the payload replaces the assets, the projection is recomputed, `loading` is cleared, and error, filters and sort configuration are kept |
| CryptoSlice.Store.UpdateAsset | src/features/crypto/cryptoSlice.js:28-35 | an unknown id leaves the whole state unchanged; otherwise only the first asset with the id is merged with the update, every other index is kept, and the projection is recomputed |
| CryptoSlice.Store.SetSortConfig | src/features/crypto/cryptoSlice.js:36-39 | the configuration is replaced wholesale and the projection recomputed; nothing else changes |
| CryptoSlice.Store.SetFilters | src/features/crypto/cryptoSlice.js:40-43 | the payload's fields overwrite the filters and the others are kept; the projection, built from the payload spread twice, is still the projection of the new filters |
| CryptoSlice.Store.ResetFilters | src/features/crypto/cryptoSlice.js:44-47 | the filters become the initial filters and the projection is recomputed; nothing else changes |
| CryptoSlice.Store.SetLoading | src/features/crypto/cryptoSlice.js:48-50 | only `loading` changes, so the invariant is kept |
| CryptoSlice.Store.SetError | src/features/crypto/cryptoSlice.js:51-54 | `error` is set and `loading` cleared; assets, projection, filters and configuration are kept, so the invariant is kept |
| Controls.HandleSort | src/components/Controls.jsx:23-29 | the new key is the clicked key; the direction is descending if and only if the clicked key is current and ascending |
| Controls.GetSortIndicator | src/components/Controls.jsx:31-34 | no arrow exactly when the key is not current; "↑" exactly when it is current and ascending; "↓" exactly when it is current and descending |
| Controls.NewKeyStartsAscending | src/components/Controls.jsx:24-28 | a key other than the current one always starts ascending |
| Controls.HandleSortTwice | src/components/Controls.jsx:23-29 | two clicks on the current key bring the configuration back to where it started |
| Controls.IndicatorAfterClick | src/components/Controls.jsx:23-34 | after a click, only the clicked button shows an arrow, and the arrow shows the direction the click chose |
| Controls.ToggleReversesProjection | src/components/Controls.jsx:23-29 | when the assets that pass the filters have pairwise distinct keys, clicking the current ascending key reverses the visible list |
| Scenario.ProjectPair | src/features/crypto/cryptoSlice.js:59-84 | projecting two assets keeps the matching ones and swaps them only when the first compares after the second |

## Left out

- `maxSupply` is an `Option` of a real; every other number is a real and `rank` is an integer. NaN, infinities and floating-point rounding are not modelled. The core only compares numbers.
- `toLowerCase` lower-cases ASCII capitals only; Unicode case mapping is not modelled.
- An update or filter payload names a field or leaves it out, one `Option` per field. A key that is present with the value `undefined` cannot be expressed. Neither can extra keys, or ranges that are not two-element arrays.
- `CryptoSlice.Store.UpdateAsset`: the merge rejects nothing. A key that is present overwrites the field, and no update is refused.
- `if (sortConfig.key)` in `applyFiltersAndSorting` is always true here: the sort key is one of the four numeric columns.
- The engine's own sort algorithm is modelled by an insertion sort. `Sorting.SortedUnique` shows that every stable sort with this comparator returns the same list.
- The error payload is `Option<string>`. An arbitrary JavaScript value is not modelled.
- The selectors (src/features/crypto/cryptoSlice.js:96-101) only read fields of the store. Redux Toolkit's action creators and Immer drafts are not modelled: the state is the fields of `Store`, and each reducer is a method.
- src/features/crypto/cryptoService.js (the mock feed's timers, randomness and float rounding) is not part of this model. Updates are arbitrary `AssetUpdate` values passed as parameters.
- The following are not part of this model: src/components/CryptoTable.jsx (rendering, the async load and the number formatters), src/hooks/useInterval.js, src/components/CryptoChart.jsx, src/components/Layout.jsx, src/App.jsx and tailwind.config.js.
- The parts of src/components/Controls.jsx other than `handleSort` and `getSortIndicator` are UI and are not modelled: the JSX, the `showFilters` toggle, the dispatching and the `Number(...)` parsing of range inputs.
