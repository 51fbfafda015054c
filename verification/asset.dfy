/**
 * The record the store keeps for one tracked asset, and the shallow merge
 * `{ ...asset, ...updates }` that a streamed partial update performs on it.
 */
module AssetModel {
  import opened Options

  /** One tracked asset. `maxSupply == None` is the source's `null` (unlimited supply). */
  datatype Asset = Asset(
    id: string,
    rank: int,
    logo: string,
    name: string,
    symbol: string,
    price: real,
    priceChange1h: real,
    priceChange24h: real,
    priceChange7d: real,
    marketCap: real,
    volume24h: real,
    circulatingSupply: real,
    maxSupply: Option<real>,
    sparkline: seq<real>)

  /**
   * A partial update: one optional entry per field of `Asset`. `None` is a key
   * absent from the update object; `Some(v)` a key present with value `v`.
   */
  datatype AssetUpdate = AssetUpdate(
    id: Option<string>,
    rank: Option<int>,
    logo: Option<string>,
    name: Option<string>,
    symbol: Option<string>,
    price: Option<real>,
    priceChange1h: Option<real>,
    priceChange24h: Option<real>,
    priceChange7d: Option<real>,
    marketCap: Option<real>,
    volume24h: Option<real>,
    circulatingSupply: Option<real>,
    maxSupply: Option<Option<real>>,
    sparkline: Option<seq<real>>)

  /** The update that names no field. */
  const NoUpdate := AssetUpdate(None, None, None, None, None, None, None, None, None, None, None, None, None, None)

  /** The update that names every field, with the values of `a`. */
  function FullUpdate(a: Asset): AssetUpdate {
    AssetUpdate(Some(a.id), Some(a.rank), Some(a.logo), Some(a.name), Some(a.symbol), Some(a.price),
                Some(a.priceChange1h), Some(a.priceChange24h), Some(a.priceChange7d), Some(a.marketCap),
                Some(a.volume24h), Some(a.circulatingSupply), Some(a.maxSupply), Some(a.sparkline))
  }

  /** `{ ...a, ...u }`: every field present in `u` overwrites the one of `a`; the others are kept. */
  function Merge(a: Asset, u: AssetUpdate): Asset {
    Asset(u.id.GetOr(a.id), u.rank.GetOr(a.rank), u.logo.GetOr(a.logo), u.name.GetOr(a.name),
          u.symbol.GetOr(a.symbol), u.price.GetOr(a.price), u.priceChange1h.GetOr(a.priceChange1h),
          u.priceChange24h.GetOr(a.priceChange24h), u.priceChange7d.GetOr(a.priceChange7d),
          u.marketCap.GetOr(a.marketCap), u.volume24h.GetOr(a.volume24h),
          u.circulatingSupply.GetOr(a.circulatingSupply), u.maxSupply.GetOr(a.maxSupply),
          u.sparkline.GetOr(a.sparkline))
  }

  /** `{ ...u, ...v }` on two updates: a key of `v` wins over the same key of `u`. */
  function Combine(u: AssetUpdate, v: AssetUpdate): AssetUpdate {
    AssetUpdate(
      if v.id.Some? then v.id else u.id,
      if v.rank.Some? then v.rank else u.rank,
      if v.logo.Some? then v.logo else u.logo,
      if v.name.Some? then v.name else u.name,
      if v.symbol.Some? then v.symbol else u.symbol,
      if v.price.Some? then v.price else u.price,
      if v.priceChange1h.Some? then v.priceChange1h else u.priceChange1h,
      if v.priceChange24h.Some? then v.priceChange24h else u.priceChange24h,
      if v.priceChange7d.Some? then v.priceChange7d else u.priceChange7d,
      if v.marketCap.Some? then v.marketCap else u.marketCap,
      if v.volume24h.Some? then v.volume24h else u.volume24h,
      if v.circulatingSupply.Some? then v.circulatingSupply else u.circulatingSupply,
      if v.maxSupply.Some? then v.maxSupply else u.maxSupply,
      if v.sparkline.Some? then v.sparkline else u.sparkline)
  }

  /** An update naming only the price: the price changes and every other field is kept. */
  lemma MergePriceOnly(a: Asset, p: real)
    ensures Merge(a, NoUpdate.(price := Some(p))) == a.(price := p)
  {
  }

  /** Merging the empty update changes nothing. */
  lemma MergeNoUpdate(a: Asset)
    ensures Merge(a, NoUpdate) == a
  {
  }

  /** Merging an update that names every field yields exactly the values it carries. */
  lemma MergeFullUpdate(a: Asset, b: Asset)
    ensures Merge(a, FullUpdate(b)) == b
  {
  }

  /** Re-delivering the same update is harmless. */
  lemma MergeIdempotent(a: Asset, u: AssetUpdate)
    ensures Merge(Merge(a, u), u) == Merge(a, u)
  {
  }

  /** Two successive merges are one merge of the combined update (later keys win). */
  lemma MergeCombine(a: Asset, u: AssetUpdate, v: AssetUpdate)
    ensures Merge(Merge(a, u), v) == Merge(a, Combine(u, v))
  {
  }
}
