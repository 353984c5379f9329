/**
 * The four venue adapters of lib/pricing.ts, each a function of the already
 * decoded response of its venue. Every way a fetch can fail (network error,
 * non-success status, JSON or schema mismatch) is one `…Failed` value: the
 * adapters catch them all and return a quote with null prices. CSFloat is
 * the exception for the schema: a body that is not a list of listings is
 * `CsfloatMismatch`, which the adapter reports as 0 listings with null
 * prices, as it does for an empty list. The Steam
 * adapter is the exception for the status: it never tests `r.ok`, so a
 * non-success answer whose body fits the schema is a `SteamPriceOverview`
 * and is used as is; only a body that does not parse is `SteamFailed`.
 */
module Adapters {
  import opened Common
  import opened NumberText
  import opened Quotes

  /** The fixed EUR to USD conversion rate of `eurToUsd`. */
  const EurUsdRate: real := 1.08

  /** `eurToUsd`: a euro amount in dollars, rounded to cents by `toFixed(2)`. */
  function EurToUsd(eur: Option<real>): (r: Option<real>)
    ensures r.None? <==> eur.None?
    ensures eur.Some? ==> eur.value * EurUsdRate - 0.005 <= r.value <= eur.value * EurUsdRate + 0.005
    ensures eur.Some? ==> (r.value * 100.0).Floor as real == r.value * 100.0
    ensures eur.Some? && eur.value >= 0.0 ==> r.value >= 0.0
  {
    if eur.None? then None else Some(ToFixed2(eur.value * EurUsdRate))
  }

  // ---------- Skinport: the whole catalogue in euros, searched by name ----------

  datatype SkinportItem = SkinportItem(
    marketHashName: string,
    currency: string,
    minPrice: Option<real>,
    medianPrice: Option<real>,
    meanPrice: Option<real>,
    maxPrice: Option<real>,
    quantity: Option<real>)

  datatype SkinportFetch = SkinportFailed | SkinportCatalog(items: seq<SkinportItem>)

  /** `Array.prototype.find` by market hash name: the first matching position. */
  function FindByName(items: seq<SkinportItem>, name: string): (r: Option<nat>)
    ensures r.None? <==> forall i :: 0 <= i < |items| ==> items[i].marketHashName != name
    ensures r.Some? ==> r.value < |items| && items[r.value].marketHashName == name
    ensures r.Some? ==> forall j :: 0 <= j < r.value ==> items[j].marketHashName != name
  {
    if items == [] then None
    else if items[0].marketHashName == name then Some(0)
    else
      var k := FindByName(items[1..], name);
      if k.None? then None else Some(k.value + 1)
  }

  function SkinportQuote(name: string, fetch: SkinportFetch, now: string): (q: Quote)
    ensures q.venue == Skinport && q.lastSeen == now
    ensures q.bid.None? && q.volume24h.None?
    ensures fetch.SkinportFailed? ==> IsNullQuote(q)
    ensures fetch.SkinportCatalog? && FindByName(fetch.items, name).None? ==> IsNullQuote(q)
    ensures fetch.SkinportCatalog? && FindByName(fetch.items, name).Some? ==>
      var item := fetch.items[FindByName(fetch.items, name).value];
      q.ask == EurToUsd(item.minPrice) && q.median == EurToUsd(item.medianPrice)
      && q.listings == item.quantity
  {
    match fetch
    case SkinportFailed => NullQuote(Skinport, now)
    case SkinportCatalog(items) =>
      match FindByName(items, name)
      case None => NullQuote(Skinport, now)
      case Some(i) =>
        Quote(Skinport, EurToUsd(items[i].minPrice), None, EurToUsd(items[i].medianPrice),
              None, items[i].quantity, now)
  }

  // ---------- CSFloat: live listings in cents, needs an API key ----------

  datatype CsfloatListing = CsfloatListing(price: real, marketHashName: string)

  /** A failed fetch, a body that is not a listing array, or the listings returned. */
  datatype CsfloatFetch = CsfloatFailed | CsfloatMismatch | CsfloatListings(listings: seq<CsfloatListing>)

  /** `Math.min(...xs)` on a non-empty list. */
  function MinOf(xs: seq<real>): (m: real)
    requires |xs| > 0
    ensures m in xs
    ensures forall i :: 0 <= i < |xs| ==> m <= xs[i]
  {
    if |xs| == 1 then xs[0]
    else
      var rest := MinOf(xs[..|xs| - 1]);
      if xs[|xs| - 1] < rest then xs[|xs| - 1] else rest
  }

  function DollarPrices(listings: seq<CsfloatListing>): (p: seq<real>)
    ensures |p| == |listings|
    ensures forall i :: 0 <= i < |p| ==> p[i] == listings[i].price / 100.0
  {
    seq(|listings|, i requires 0 <= i < |listings| => listings[i].price / 100.0)
  }

  function CsfloatQuote(key: Option<string>, fetch: CsfloatFetch, now: string): (q: Quote)
    ensures q.venue == CSFloat && q.lastSeen == now
    ensures q.bid.None? && q.median.None? && q.volume24h.None?
    ensures !Configured(key) ==> IsNullQuote(q)
    ensures Configured(key) && fetch.CsfloatFailed? ==> IsNullQuote(q)
    ensures Configured(key) && (fetch.CsfloatMismatch? || (fetch.CsfloatListings? && fetch.listings == []))
      ==> q.ask.None? && q.listings == Some(0.0)
    ensures Configured(key) && fetch.CsfloatListings? && fetch.listings != [] ==>
      && q.listings == Some(|fetch.listings| as real)
      && q.ask.Some?
      && (exists i :: 0 <= i < |fetch.listings| && q.ask.value == fetch.listings[i].price / 100.0)
      && (forall i :: 0 <= i < |fetch.listings| ==> q.ask.value <= fetch.listings[i].price / 100.0)
  {
    if !Configured(key) then NullQuote(CSFloat, now)
    else
      match fetch
      case CsfloatFailed => NullQuote(CSFloat, now)
      case CsfloatMismatch => Quote(CSFloat, None, None, None, None, Some(0.0), now)
      case CsfloatListings(listings) =>
        if listings == [] then Quote(CSFloat, None, None, None, None, Some(0.0), now)
        else
          var ask := MinOf(DollarPrices(listings));
          Quote(CSFloat, Some(ask), None, None, None, Some(|listings| as real), now)
  }

  // ---------- Steam market: locale-formatted price strings ----------

  datatype SteamFetch =
    | SteamFailed
    | SteamPriceOverview(success: Option<bool>, lowestPrice: Option<string>,
                         medianPrice: Option<string>, volume: Option<string>)

  function SteamQuote(fetch: SteamFetch, now: string): (q: Quote)
    ensures q.venue == Steam && q.lastSeen == now
    ensures q.bid.None? && q.listings.None?
    ensures fetch.SteamFailed? ==> IsNullQuote(q)
    ensures fetch.SteamPriceOverview? ==>
      q.ask == ParseNumberString(fetch.lowestPrice) && q.median == ParseNumberString(fetch.medianPrice)
    ensures q.volume24h.Some? <==> fetch.SteamPriceOverview? && fetch.volume.Some? && fetch.volume.value != ""
    ensures q.volume24h.Some? ==> q.volume24h.value >= 0.0 && q.volume24h.value.Floor as real == q.volume24h.value
    ensures fetch.SteamPriceOverview? && fetch.volume.Some? && fetch.volume.value != "" ==>
      q.volume24h == Some(DigitsOnlyNumber(fetch.volume.value) as real)
  {
    match fetch
    case SteamFailed => NullQuote(Steam, now)
    case SteamPriceOverview(_, lowest, median, volume) =>
      var vol := if volume.Some? && volume.value != "" then Some(DigitsOnlyNumber(volume.value) as real) else None;
      Quote(Steam, ParseNumberString(lowest), None, ParseNumberString(median), vol, None, now)
  }

  /** A volume text with no digit at all ("-", "n/a") reads as 0 sales, not as a missing volume. */
  lemma VolumeWithoutDigitsIsZero(fetch: SteamFetch, now: string)
    requires fetch.SteamPriceOverview? && fetch.volume.Some? && fetch.volume.value != ""
    requires forall i :: 0 <= i < |fetch.volume.value| ==> !IsDigit(fetch.volume.value[i])
    ensures SteamQuote(fetch, now).volume24h == Some(0.0)
  {
    var v := fetch.volume.value;
    assert DigitsOnlyNumber(v) == 0;
    var q := SteamQuote(fetch, now);
    assert q.volume24h == Some(DigitsOnlyNumber(v) as real);
  }

  /** A volume with grouping commas reads as the whole number. */
  lemma GroupedVolumeReads(fetch: SteamFetch, now: string)
    requires fetch.SteamPriceOverview? && fetch.volume == Some("1,234")
    ensures SteamQuote(fetch, now).volume24h == Some(1234.0)
  {
    GroupedVolume();
  }

  // ---------- Buff: no public API, a placeholder ----------

  function BuffQuote(now: string): (q: Quote)
    ensures q.venue == Buff && q.lastSeen == now && IsNullQuote(q)
  {
    NullQuote(Buff, now)
  }

  /**
   * No adapter lets a failure escape: each turns a failed fetch (and
   * CSFloat a missing key, Buff every call) into a quote with null prices.
   */
  lemma AdaptersDegradeToNullQuotes(name: string, key: Option<string>, fetch: CsfloatFetch, now: string)
    ensures IsNullQuote(SkinportQuote(name, SkinportFailed, now))
    ensures IsNullQuote(CsfloatQuote(key, CsfloatFailed, now))
    ensures !Configured(key) ==> IsNullQuote(CsfloatQuote(key, fetch, now))
    ensures IsNullQuote(SteamQuote(SteamFailed, now))
    ensures IsNullQuote(BuffQuote(now)) && BuffQuote(now).venue == Buff
  {
  }

  /** The CSFloat ask is the cheapest listing, whatever order the listings come in. */
  lemma {:induction false} MinOfIsLeast(xs: seq<real>, ys: seq<real>)
    requires |xs| > 0 && multiset(xs) == multiset(ys)
    ensures |ys| > 0 && MinOf(xs) == MinOf(ys)
  {
    assert |ys| == |multiset(ys)| == |xs|;
    var a, b := MinOf(xs), MinOf(ys);
    assert a in multiset(ys) && b in multiset(xs);
    assert a in ys && b in xs;
  }
}
