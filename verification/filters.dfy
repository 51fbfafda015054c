/**
 * The filter stage of the projection: the filter settings, their shallow
 * merge with a partial payload, the per-asset predicate and the
 * order-preserving selection `assets.filter(...)`.
 */
module Filtering {
  import opened Options
  import opened AssetModel
  import opened Text

  /** An inclusive range `[min, max]`; nothing stops `min > max`. */
  datatype Range = Range(min: real, max: real)

  datatype Filters = Filters(searchTerm: string, priceRange: Range, marketCapRange: Range)

  /** A partial filter payload: `None` is a key the payload does not carry. */
  datatype FilterPatch = FilterPatch(searchTerm: Option<string>, priceRange: Option<Range>, marketCapRange: Option<Range>)

  /** The filters of the initial state, restored by `resetFilters`. */
  const DefaultFilters := Filters("", Range(0.0, 100000.0), Range(0.0, 1000000000000.0))

  /** `{ ...f, ...p }`. */
  function ApplyPatch(f: Filters, p: FilterPatch): Filters {
    Filters(p.searchTerm.GetOr(f.searchTerm), p.priceRange.GetOr(f.priceRange), p.marketCapRange.GetOr(f.marketCapRange))
  }

  /** The patch that carries every field of `f`. */
  function FullPatch(f: Filters): FilterPatch {
    FilterPatch(Some(f.searchTerm), Some(f.priceRange), Some(f.marketCapRange))
  }

  /** Fields the patch carries are overwritten, the others kept; spreading the same patch twice is spreading it once. */
  lemma ApplyPatchSpec(f: Filters, p: FilterPatch)
    ensures p.searchTerm.Some? ==> ApplyPatch(f, p).searchTerm == p.searchTerm.value
    ensures p.searchTerm.None? ==> ApplyPatch(f, p).searchTerm == f.searchTerm
    ensures p.priceRange.Some? ==> ApplyPatch(f, p).priceRange == p.priceRange.value
    ensures p.priceRange.None? ==> ApplyPatch(f, p).priceRange == f.priceRange
    ensures p.marketCapRange.Some? ==> ApplyPatch(f, p).marketCapRange == p.marketCapRange.value
    ensures p.marketCapRange.None? ==> ApplyPatch(f, p).marketCapRange == f.marketCapRange
    ensures ApplyPatch(ApplyPatch(f, p), p) == ApplyPatch(f, p)
  {
  }

  /** Resetting and then setting every field back restores the filters exactly. */
  lemma ResetThenRestore(f: Filters)
    ensures ApplyPatch(DefaultFilters, FullPatch(f)) == f
  {
  }

  predicate InRange(x: real, r: Range) {
    x >= r.min && x <= r.max
  }

  /** Case-insensitive search on name or symbol. */
  predicate MatchesSearch(a: Asset, term: string) {
    Includes(ToLower(a.name), ToLower(term)) || Includes(ToLower(a.symbol), ToLower(term))
  }

  /** The predicate passed to `assets.filter`. */
  predicate Matches(a: Asset, f: Filters) {
    MatchesSearch(a, f.searchTerm) && InRange(a.price, f.priceRange) && InRange(a.marketCap, f.marketCapRange)
  }

  /** The search condition, stated with explicit occurrences of the lower-cased term. */
  ghost predicate SearchSpec(a: Asset, term: string) {
    || (exists i :: OccursAt(ToLower(a.name), ToLower(term), i))
    || (exists i :: OccursAt(ToLower(a.symbol), ToLower(term), i))
  }

  /** What `Matches` means: an occurrence of the term in name or symbol, and both inclusive bounds. */
  lemma MatchesIff(a: Asset, f: Filters)
    ensures Matches(a, f) ==>
      && SearchSpec(a, f.searchTerm)
      && f.priceRange.min <= a.price <= f.priceRange.max
      && f.marketCapRange.min <= a.marketCap <= f.marketCapRange.max
    ensures
      && SearchSpec(a, f.searchTerm)
      && f.priceRange.min <= a.price <= f.priceRange.max
      && f.marketCapRange.min <= a.marketCap <= f.marketCapRange.max
      ==> Matches(a, f)
  {
    IncludesIff(ToLower(a.name), ToLower(f.searchTerm));
    IncludesIff(ToLower(a.symbol), ToLower(f.searchTerm));
  }

  /** An empty search term lets every asset through the search condition. */
  lemma EmptySearchMatchesAll(a: Asset)
    ensures MatchesSearch(a, "")
  {
    assert ToLower("") == "";
    IncludesEmpty(ToLower(a.name));
  }

  /** An inverted range matches no asset at all. */
  lemma InvertedRangeMatchesNothing(a: Asset, f: Filters)
    requires f.priceRange.min > f.priceRange.max || f.marketCapRange.min > f.marketCapRange.max
    ensures !Matches(a, f)
  {
  }

  /** `s.filter(x => Matches(x, f))`: the matching elements, in their original order. */
  function Select(s: seq<Asset>, f: Filters): (r: seq<Asset>)
    ensures |r| <= |s|
    ensures forall x :: x in r ==> x in s && Matches(x, f)
  {
    if s == [] then []
    else (if Matches(s[0], f) then [s[0]] else []) + Select(s[1..], f)
  }

  /** Each matching element is selected once per occurrence; no other element is selected. */
  lemma {:induction false} SelectCount(s: seq<Asset>, f: Filters)
    ensures forall x :: multiset(Select(s, f))[x] == if Matches(x, f) then multiset(s)[x] else 0
  {
    if s != [] {
      SelectCount(s[1..], f);
      assert s == [s[0]] + s[1..];
    }
  }

  /** Soundness and completeness of the selection. */
  lemma SelectIff(s: seq<Asset>, f: Filters)
    ensures forall x :: x in Select(s, f) <==> x in s && Matches(x, f)
  {
    SelectCount(s, f);
    forall x | x in s && Matches(x, f) ensures x in Select(s, f) {
      assert multiset(Select(s, f))[x] > 0;
    }
  }

  /** Selection distributes over concatenation. */
  lemma {:induction false} SelectAppend(s: seq<Asset>, t: seq<Asset>, f: Filters)
    ensures Select(s + t, f) == Select(s, f) + Select(t, f)
  {
    if s == [] {
      assert s + t == t;
    } else {
      assert (s + t)[1..] == s[1..] + t;
      SelectAppend(s[1..], t, f);
    }
  }

  /** Selecting with a predicate no element satisfies keeps nothing. */
  lemma {:induction false} SelectNone(s: seq<Asset>, f: Filters)
    requires forall x :: x in s ==> !Matches(x, f)
    ensures Select(s, f) == []
  {
    if s != [] {
      assert s[0] in s;
      SelectNone(s[1..], f);
    }
  }

  /** Selecting with a predicate every element satisfies keeps the whole sequence. */
  lemma {:induction false} SelectAll(s: seq<Asset>, f: Filters)
    requires forall x :: x in s ==> Matches(x, f)
    ensures Select(s, f) == s
  {
    if s != [] {
      SelectAll(s[1..], f);
      assert s == [s[0]] + s[1..];
    }
  }
}
