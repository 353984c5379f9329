/**
 * Fee and FX netting (`applyFees` in lib/pricing.ts): turns a venue's ask
 * and bid into what a seller would receive there.
 */
module Fees {
  import opened Common
  import opened Quotes

  /** `fees.feePctByVenue[venue] ?? 0` */
  function FeePct(fees: FeeModel, venue: Venue): real {
    if venue in fees.feePctByVenue then fees.feePctByVenue[venue] else 0.0
  }

  /** `fees.payoutFeeByVenue?.[venue] ?? 0` */
  function PayoutFee(fees: FeeModel, venue: Venue): real {
    match fees.payoutFeeByVenue
    case None => 0.0
    case Some(m) => if venue in m then m[venue] else 0.0
  }

  /** `fees.fxHaircutPct ?? 0` */
  function FxHaircut(fees: FeeModel): real {
    fees.fxHaircutPct.GetOr(0.0)
  }

  /** Net proceeds of selling at `x`: `max(0, x·(1−pct)·(1−fx) − payout)`. */
  function NetOf(x: real, pct: real, fx: real, payout: real): (n: real)
    ensures n >= 0.0
  {
    Max(0.0, x * (1.0 - pct) * (1.0 - fx) - payout)
  }

  /** The `net` closure of `applyFees`: null stays null. */
  function Net(x: Option<real>, fees: FeeModel, venue: Venue): (r: Option<real>)
    ensures r.None? <==> x.None?
    ensures r.Some? ==> r.value == NetOf(x.value, FeePct(fees, venue), FxHaircut(fees), PayoutFee(fees, venue))
  {
    if x.None? then None
    else Some(NetOf(x.value, FeePct(fees, venue), FxHaircut(fees), PayoutFee(fees, venue)))
  }

  /**
   * `applyFees`: the quote unchanged, plus `netAsk` from the ask, or the
   * median when there is no ask, and `netBid` from the bid alone.
   */
  function ApplyFees(q: Quote, fees: FeeModel): (r: VenueNet)
    ensures r.quote == q
    ensures r.netAsk.None? <==> q.ask.None? && q.median.None?
    ensures q.ask.Some? ==> r.netAsk == Net(q.ask, fees, q.venue)
    ensures q.ask.None? ==> r.netAsk == Net(q.median, fees, q.venue)
    ensures r.netBid == Net(q.bid, fees, q.venue)
    ensures r.netAsk.Some? ==> r.netAsk.value >= 0.0
  {
    VenueNet(q, Net(if q.ask.Some? then q.ask else q.median, fees, q.venue), Net(q.bid, fees, q.venue))
  }

  /** Fees as the code expects them: fractions in [0, 1) and non-negative payouts. */
  ghost predicate ValidFees(fees: FeeModel) {
    && (forall v :: v in fees.feePctByVenue ==> 0.0 <= fees.feePctByVenue[v] < 1.0)
    && (fees.payoutFeeByVenue.Some? ==>
          forall v :: v in fees.payoutFeeByVenue.value ==> fees.payoutFeeByVenue.value[v] >= 0.0)
    && 0.0 <= FxHaircut(fees) < 1.0
  }

  lemma PositiveProduct(a: real, b: real)
    requires a >= 0.0 && b >= 0.0
    ensures a * b >= 0.0 && (a > 0.0 && b > 0.0 ==> a * b > 0.0)
  {
  }

  /** Fees never create value: the net of a non-negative price is at most the price. */
  lemma NetWithinPrice(x: real, pct: real, fx: real, payout: real)
    requires x >= 0.0 && 0.0 <= pct < 1.0 && 0.0 <= fx < 1.0 && payout >= 0.0
    ensures 0.0 <= NetOf(x, pct, fx, payout) <= x
  {
    PositiveProduct(x, 1.0 - pct);
    var kept := x * (1.0 - pct);
    assert kept == x - x * pct && x * pct >= 0.0;
    assert 0.0 <= kept <= x;
    PositiveProduct(kept, fx);
    assert kept * (1.0 - fx) == kept - kept * fx;
  }

  /** A higher price never nets less. */
  lemma NetMonotone(x: real, y: real, pct: real, fx: real, payout: real)
    requires x <= y && pct < 1.0 && fx < 1.0
    ensures NetOf(x, pct, fx, payout) <= NetOf(y, pct, fx, payout)
  {
    var f := (1.0 - pct) * (1.0 - fx);
    PositiveProduct(1.0 - pct, 1.0 - fx);
    PositiveProduct(y - x, f);
    assert x * (1.0 - pct) * (1.0 - fx) == x * f && y * (1.0 - pct) * (1.0 - fx) == y * f;
    assert (y - x) * f >= 0.0;
  }

  /** With valid fees, the net ask of a quote never exceeds its (non-negative) ask, or median without an ask. */
  lemma NetAskWithinRawPrice(q: Quote, fees: FeeModel)
    requires ValidFees(fees)
    requires q.ask.Some? ==> q.ask.value >= 0.0
    requires q.median.Some? ==> q.median.value >= 0.0
    ensures q.ask.Some? ==> ApplyFees(q, fees).netAsk.value <= q.ask.value
    ensures q.ask.None? && q.median.Some? ==> ApplyFees(q, fees).netAsk.value <= q.median.value
  {
    var pct, fx, payout := FeePct(fees, q.venue), FxHaircut(fees), PayoutFee(fees, q.venue);
    var price := if q.ask.Some? then q.ask else q.median;
    if price.Some? {
      NetWithinPrice(price.value, pct, fx, payout);
    }
  }

  /** A venue the fee model does not list, with no haircut, nets its full ask. */
  lemma UnlistedVenueNetsFullPrice(q: Quote, fees: FeeModel)
    requires q.venue !in fees.feePctByVenue
    requires fees.payoutFeeByVenue.None? || q.venue !in fees.payoutFeeByVenue.value
    requires FxHaircut(fees) == 0.0
    requires q.ask.Some? && q.ask.value >= 0.0
    ensures ApplyFees(q, fees).netAsk == q.ask
  {
  }

  /** The fee model `buildPriceMatrix` uses when its caller passes none. */
  function DefaultFees(): (f: FeeModel)
    ensures ValidFees(f)
    ensures FeePct(f, Steam) == 0.15 && FeePct(f, Skinport) == 0.12
    ensures FeePct(f, CSFloat) == 0.01 && FeePct(f, Buff) == 0.0
    ensures FxHaircut(f) == 0.0 && forall v :: PayoutFee(f, v) == 0.0
  {
    FeeModel(map[Steam := 0.15, Skinport := 0.12, CSFloat := 0.01], None, Some(0.0))
  }
}
