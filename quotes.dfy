/**
 * The records the valuation engine passes around (lib/pricing.ts):
 * venue quotes, quotes with net proceeds, the fee model and the per-item
 * price matrix. Numbers are reals; absent fields are `None`.
 */
module Quotes {
  import opened Common

  datatype Venue = Steam | Skinport | CSFloat | Buff

  /** One venue's snapshot for one item, before fees (`VenueQuote`). */
  datatype Quote = Quote(
    venue: Venue,
    ask: Option<real>,
    bid: Option<real>,
    median: Option<real>,
    volume24h: Option<real>,
    listings: Option<real>,
    lastSeen: string)

  /** A quote with its net seller proceeds (`VenueNet`). */
  datatype VenueNet = VenueNet(quote: Quote, netAsk: Option<real>, netBid: Option<real>)

  /**
   * `FeeModel`: a percentage fee per venue, an optional flat payout fee per
   * venue and an optional currency haircut; missing entries count as 0.
   */
  datatype FeeModel = FeeModel(
    feePctByVenue: map<Venue, real>,
    payoutFeeByVenue: Option<map<Venue, real>>,
    fxHaircutPct: Option<real>)

  datatype PriceMatrix = PriceMatrix(
    name: string,
    quotes: seq<VenueNet>,
    bestVenue: Option<VenueNet>,
    liquidityScore: int,
    timeToSellDays: (real, real))

  /** A quote without any price, volume or listing data. */
  function NullQuote(venue: Venue, now: string): Quote {
    Quote(venue, None, None, None, None, None, now)
  }

  predicate IsNullQuote(q: Quote) {
    q.ask.None? && q.bid.None? && q.median.None? && q.volume24h.None? && q.listings.None?
  }
}
