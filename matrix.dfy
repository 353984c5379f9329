/**
 * `buildPriceMatrix` (lib/pricing.ts): one quote per venue in the fixed
 * order Skinport, CSFloat, Steam, Buff, each netted of fees, the best venue
 * by net ask and the liquidity estimate. `buildPriceMatrix` runs the four
 * fetches concurrently; here their decoded results are inputs.
 */
module Matrix {
  import opened Common
  import opened Sorting
  import opened Quotes
  import opened Adapters
  import opened NumberText
  import opened Fees
  import opened Liquidity

  /** What the four venues answered for one item name, and the clock reading. */
  datatype VenueFeeds = VenueFeeds(
    steam: SteamFetch, skinport: SkinportFetch, csfloat: CsfloatFetch, now: string)

  /** The raw quotes in the order the matrix lists them, whatever order the fetches finished in. */
  function RawQuotes(name: string, feeds: VenueFeeds, csfloatKey: Option<string>): (raw: seq<Quote>)
    ensures |raw| == 4
    ensures raw[0].venue == Skinport && raw[1].venue == CSFloat
    ensures raw[2].venue == Steam && raw[3].venue == Buff
  {
    [ SkinportQuote(name, feeds.skinport, feeds.now),
      CsfloatQuote(csfloatKey, feeds.csfloat, feeds.now),
      SteamQuote(feeds.steam, feeds.now),
      BuffQuote(feeds.now) ]
  }

  /** The quotes that have a net ask, in their order (the `filter` step). */
  function Priced(qs: seq<VenueNet>): (ps: seq<VenueNet>)
    ensures forall i :: 0 <= i < |ps| ==> ps[i].netAsk.Some?
    ensures ps == [] <==> forall i :: 0 <= i < |qs| ==> qs[i].netAsk.None?
  {
    if qs == [] then []
    else (if qs[0].netAsk.Some? then [qs[0]] else []) + Priced(qs[1..])
  }

  /** The comparator's key: the net ask, 0 when there is none (the `?? 0` of the callers). */
  function NetAskKey(q: VenueNet): real {
    q.netAsk.GetOr(0.0)
  }

  /** `filter(netAsk != null).sort(descending by netAsk)[0] ?? null` */
  function BestVenue(qs: seq<VenueNet>): Option<VenueNet> {
    var ranked := SortDesc(Priced(qs), NetAskKey);
    if ranked == [] then None else Some(ranked[0])
  }

  /** `qs[i]` has the largest net ask, and every earlier quote with a net ask has a smaller one. */
  ghost predicate IsBestAt(qs: seq<VenueNet>, i: int) {
    && 0 <= i < |qs|
    && qs[i].netAsk.Some?
    && (forall j :: 0 <= j < |qs| && qs[j].netAsk.Some? ==> qs[j].netAsk.value <= qs[i].netAsk.value)
    && (forall j :: 0 <= j < i && qs[j].netAsk.Some? ==> qs[j].netAsk.value < qs[i].netAsk.value)
  }

  lemma BestSkipsUnpriced(qs: seq<VenueNet>)
    requires qs != [] && qs[0].netAsk.None?
    ensures BestVenue(qs) == BestVenue(qs[1..])
  {
    assert Priced(qs) == Priced(qs[1..]);
  }

  /** A priced first quote wins unless the rest has a strictly larger net ask. */
  lemma BestWithPricedHead(qs: seq<VenueNet>)
    requires qs != [] && qs[0].netAsk.Some?
    ensures var rest := BestVenue(qs[1..]);
      BestVenue(qs) == if rest.None? || NetAskKey(rest.value) <= NetAskKey(qs[0]) then Some(qs[0]) else rest
  {
    var ps := Priced(qs);
    assert ps == [qs[0]] + Priced(qs[1..]);
    assert ps[0] == qs[0] && ps[1..] == Priced(qs[1..]);
  }

  lemma BestAfterUnpricedHead(qs: seq<VenueNet>, i: int)
    requires qs != [] && qs[0].netAsk.None? && IsBestAt(qs[1..], i)
    ensures IsBestAt(qs, i + 1)
  {
    var rest := qs[1..];
    assert forall j :: 1 <= j < |qs| ==> qs[j] == rest[j - 1];
  }

  lemma BestIsPricedHead(qs: seq<VenueNet>)
    requires qs != [] && qs[0].netAsk.Some?
    requires forall j :: 0 <= j < |qs| - 1 && qs[1..][j].netAsk.Some? ==>
      qs[1..][j].netAsk.value <= qs[0].netAsk.value
    ensures IsBestAt(qs, 0)
  {
    var rest := qs[1..];
    assert forall j :: 1 <= j < |qs| ==> qs[j] == rest[j - 1];
  }

  lemma BestInRestBeatsHead(qs: seq<VenueNet>, i: int)
    requires qs != [] && qs[0].netAsk.Some? && IsBestAt(qs[1..], i)
    requires qs[0].netAsk.value < qs[1..][i].netAsk.value
    ensures IsBestAt(qs, i + 1)
  {
    var rest := qs[1..];
    assert forall j :: 1 <= j < |qs| ==> qs[j] == rest[j - 1];
  }

  /**
   * The best venue is null exactly when no quote has a net ask; otherwise
   * it is the first quote whose net ask is the largest.
   */
  lemma {:induction false} BestVenueIsFirstHighest(qs: seq<VenueNet>)
    ensures BestVenue(qs).None? <==> forall i :: 0 <= i < |qs| ==> qs[i].netAsk.None?
    ensures BestVenue(qs).Some? ==> exists i :: IsBestAt(qs, i) && qs[i] == BestVenue(qs).value
  {
    if qs != [] {
      var rest := qs[1..];
      BestVenueIsFirstHighest(rest);
      if qs[0].netAsk.None? {
        BestSkipsUnpriced(qs);
        if BestVenue(rest).Some? {
          var i :| IsBestAt(rest, i) && rest[i] == BestVenue(rest).value;
          BestAfterUnpricedHead(qs, i);
        } else {
          assert forall j :: 1 <= j < |qs| ==> qs[j] == rest[j - 1];
        }
      } else {
        BestWithPricedHead(qs);
        if BestVenue(rest).None? {
          BestIsPricedHead(qs);
        } else {
          var i :| IsBestAt(rest, i) && rest[i] == BestVenue(rest).value;
          if NetAskKey(rest[i]) <= NetAskKey(qs[0]) {
            BestIsPricedHead(qs);
          } else {
            BestInRestBeatsHead(qs, i);
          }
        }
      }
    }
  }

  /** `buildPriceMatrix`; with no fee model it uses `DefaultFees`. */
  function BuildPriceMatrix(name: string, feeds: VenueFeeds, csfloatKey: Option<string>,
                            fees: Option<FeeModel>): (m: PriceMatrix)
    ensures m.name == name && |m.quotes| == 4
    ensures m.quotes[0].quote.venue == Skinport && m.quotes[1].quote.venue == CSFloat
    ensures m.quotes[2].quote.venue == Steam && m.quotes[3].quote.venue == Buff
    ensures forall i :: 0 <= i < 4 ==>
      m.quotes[i] == ApplyFees(RawQuotes(name, feeds, csfloatKey)[i], fees.GetOr(DefaultFees()))
    ensures m.timeToSellDays == TimeToSell(m.liquidityScore)
  {
    var raw := RawQuotes(name, feeds, csfloatKey);
    var model := fees.GetOr(DefaultFees());
    var withFees := seq(4, i requires 0 <= i < 4 => ApplyFees(raw[i], model));
    var liquidity := ComputeLiquidity(withFees);
    PriceMatrix(name, withFees, BestVenue(withFees), liquidity.score, liquidity.tts)
  }

  /**
   * The matrix's best venue is null iff no venue has a net ask, else the
   * first of Skinport, CSFloat, Steam, Buff with the largest net ask; that
   * net ask is never negative.
   */
  lemma MatrixBestVenue(name: string, feeds: VenueFeeds, csfloatKey: Option<string>, fees: Option<FeeModel>)
    ensures var m := BuildPriceMatrix(name, feeds, csfloatKey, fees);
      && (m.bestVenue.None? <==> forall i :: 0 <= i < 4 ==> m.quotes[i].netAsk.None?)
      && (m.bestVenue.Some? ==> exists i :: IsBestAt(m.quotes, i) && m.quotes[i] == m.bestVenue.value)
      && (m.bestVenue.Some? ==> m.bestVenue.value.netAsk.value >= 0.0)
  {
    var m := BuildPriceMatrix(name, feeds, csfloatKey, fees);
    BestVenueIsFirstHighest(m.quotes);
  }

  /**
   * Given non-negative Skinport quantities, the score lies in 0..100 and the
   * time-to-sell band is ordered with the 0.25-day floor unused.
   */
  lemma MatrixLiquidityInRange(name: string, feeds: VenueFeeds, csfloatKey: Option<string>, fees: Option<FeeModel>)
    requires feeds.skinport.SkinportCatalog? ==>
      forall i :: 0 <= i < |feeds.skinport.items| && feeds.skinport.items[i].quantity.Some?
        ==> feeds.skinport.items[i].quantity.value >= 0.0
    ensures var m := BuildPriceMatrix(name, feeds, csfloatKey, fees);
      && 0 <= m.liquidityScore <= 100
      && 1.0 <= m.timeToSellDays.0 <= m.timeToSellDays.1
  {
    var m := BuildPriceMatrix(name, feeds, csfloatKey, fees);
    var raw := RawQuotes(name, feeds, csfloatKey);
    RawActivityNonNegative(name, feeds, csfloatKey);
    assert forall i :: 0 <= i < 4 ==> m.quotes[i].quote == raw[i];
    ScoreInRange(m.quotes);
    TimeToSellBand(m.liquidityScore);
  }

  /**
   * Only Steam reports a 24-hour volume. When it reports at least one sale
   * and neither Skinport nor CSFloat has listings, the matrix scores 18 in
   * exact arithmetic (see `SingleActiveVenueScore` on the rounding tie).
   */
  lemma SteamOnlyTradingScores18(name: string, feeds: VenueFeeds, csfloatKey: Option<string>,
                                 fees: Option<FeeModel>)
    requires feeds.steam.SteamPriceOverview? && feeds.steam.volume.Some? && feeds.steam.volume.value != ""
    requires DigitsOnlyNumber(feeds.steam.volume.value) >= 1
    requires RawQuotes(name, feeds, csfloatKey)[0].listings.GetOr(0.0) == 0.0
    requires RawQuotes(name, feeds, csfloatKey)[1].listings.GetOr(0.0) == 0.0
    ensures BuildPriceMatrix(name, feeds, csfloatKey, fees).liquidityScore == 18
  {
    var m := BuildPriceMatrix(name, feeds, csfloatKey, fees);
    var raw := RawQuotes(name, feeds, csfloatKey);
    assert forall i :: 0 <= i < 4 ==> m.quotes[i].quote == raw[i];
    var v := DigitsOnlyNumber(feeds.steam.volume.value) as real;
    assert raw[2].volume24h == Some(v);
    SingleActiveVenueScore(m.quotes, 2, v);
  }

  lemma RawActivityNonNegative(name: string, feeds: VenueFeeds, csfloatKey: Option<string>)
    requires feeds.skinport.SkinportCatalog? ==>
      forall i :: 0 <= i < |feeds.skinport.items| && feeds.skinport.items[i].quantity.Some?
        ==> feeds.skinport.items[i].quantity.value >= 0.0
    ensures var raw := RawQuotes(name, feeds, csfloatKey);
      forall i :: 0 <= i < 4 ==> raw[i].volume24h.GetOr(0.0) >= 0.0 && raw[i].listings.GetOr(0.0) >= 0.0
  {
  }

  /**
   * When every venue fails, the matrix still has its four quotes, all
   * without a net ask, no best venue, score 0 and a band of 7 to 15.4 days.
   */
  lemma AllVenuesFailed(name: string, now: string, csfloatKey: Option<string>, fees: Option<FeeModel>)
    ensures var m := BuildPriceMatrix(name, VenueFeeds(SteamFailed, SkinportFailed, CsfloatFailed, now), csfloatKey, fees);
      && |m.quotes| == 4
      && (forall i :: 0 <= i < 4 ==> m.quotes[i].netAsk.None? && m.quotes[i].netBid.None?)
      && m.bestVenue.None?
      && m.liquidityScore == 0
      && m.timeToSellDays == (7.0, 15.4)
  {
    var feeds := VenueFeeds(SteamFailed, SkinportFailed, CsfloatFailed, now);
    FailedFeedsGiveNullQuotes(name, feeds, csfloatKey);
    var m := BuildPriceMatrix(name, feeds, csfloatKey, fees);
    assert forall i :: 0 <= i < 4 ==> m.quotes[i].netAsk.None? && m.quotes[i].netBid.None?;
    BestVenueIsFirstHighest(m.quotes);
    IdleMarketScoresZero(m.quotes);
    TimeToSellExtremes();
  }

  lemma FailedFeedsGiveNullQuotes(name: string, feeds: VenueFeeds, csfloatKey: Option<string>)
    requires feeds.steam == SteamFailed && feeds.skinport == SkinportFailed && feeds.csfloat == CsfloatFailed
    ensures forall i :: 0 <= i < 4 ==> IsNullQuote(RawQuotes(name, feeds, csfloatKey)[i])
  {
    AdaptersDegradeToNullQuotes(name, csfloatKey, feeds.csfloat, feeds.now);
  }

  /**
   * Under the default fees, a Skinport ask of $100 and a CSFloat ask of
   * $120 net $88 and $118.80, and CSFloat is the best venue.
   */
  lemma TwoVenueExample(skinport: Quote, csfloat: Quote, steam: Quote, buff: Quote)
    requires skinport.venue == Skinport && skinport.ask == Some(100.0)
    requires csfloat.venue == CSFloat && csfloat.ask == Some(120.0)
    requires steam.venue == Steam && steam.ask.None? && steam.median.None?
    requires buff.venue == Buff && buff.ask.None? && buff.median.None?
    ensures var qs := [ApplyFees(skinport, DefaultFees()), ApplyFees(csfloat, DefaultFees()),
                       ApplyFees(steam, DefaultFees()), ApplyFees(buff, DefaultFees())];
      && qs[0].netAsk == Some(88.0) && qs[1].netAsk == Some(118.8)
      && BestVenue(qs) == Some(qs[1])
  {
    var qs := [ApplyFees(skinport, DefaultFees()), ApplyFees(csfloat, DefaultFees()),
               ApplyFees(steam, DefaultFees()), ApplyFees(buff, DefaultFees())];
    assert qs[0].netAsk == Some(88.0);
    assert qs[1].netAsk == Some(118.8);
    BestVenueIsFirstHighest(qs);
    var i :| IsBestAt(qs, i) && qs[i] == BestVenue(qs).value;
    assert i == 1;
  }
}
