/**
 * The liquidity heuristic (`computeLiquidity` in lib/pricing.ts): a 0–100
 * score from volumes and listing counts normalised by their per-item
 * maximum, and a time-to-sell band that shrinks linearly as it grows.
 */
module Liquidity {
  import opened Common
  import opened Quotes

  function VolumeOf(q: VenueNet): real {
    q.quote.volume24h.GetOr(0.0)
  }

  function ListingsOf(q: VenueNet): real {
    q.quote.listings.GetOr(0.0)
  }

  function Volumes(qs: seq<VenueNet>): (vs: seq<real>)
    ensures |vs| == |qs| && forall i :: 0 <= i < |qs| ==> vs[i] == VolumeOf(qs[i])
  {
    seq(|qs|, i requires 0 <= i < |qs| => VolumeOf(qs[i]))
  }

  function ListingCounts(qs: seq<VenueNet>): (ls: seq<real>)
    ensures |ls| == |qs| && forall i :: 0 <= i < |qs| ==> ls[i] == ListingsOf(qs[i])
  {
    seq(|qs|, i requires 0 <= i < |qs| => ListingsOf(qs[i]))
  }

  /** `Math.max(1, ...xs)`: the largest value, or 1 if none is larger. */
  function MaxAtLeastOne(xs: seq<real>): (m: real)
    ensures m >= 1.0
    ensures forall i :: 0 <= i < |xs| ==> xs[i] <= m
    ensures m == 1.0 || m in xs
  {
    if xs == [] then 1.0
    else Max(MaxAtLeastOne(xs[..|xs| - 1]), xs[|xs| - 1])
  }

  /** A venue's weighted composite, `0.7·volume/vMax + 0.3·listings/lMax`. */
  function Composite(q: VenueNet, vMax: real, lMax: real): real
    requires vMax > 0.0 && lMax > 0.0
  {
    0.7 * VolumeOf(q) / vMax + 0.3 * ListingsOf(q) / lMax
  }

  function SumComposite(qs: seq<VenueNet>, vMax: real, lMax: real): real
    requires vMax > 0.0 && lMax > 0.0
  {
    if qs == [] then 0.0
    else SumComposite(qs[..|qs| - 1], vMax, lMax) + Composite(qs[|qs| - 1], vMax, lMax)
  }

  /** `Math.round(mean(composites) · 100)`, the mean of no venues being 0. */
  function Score(qs: seq<VenueNet>): int {
    var vMax := MaxAtLeastOne(Volumes(qs));
    var lMax := MaxAtLeastOne(ListingCounts(qs));
    var count := if |qs| == 0 then 1 else |qs|;
    Round(SumComposite(qs, vMax, lMax) / count as real * 100.0)
  }

  /** `[tMin, 2.2·tMin]` in days, `tMin = max(0.25, 7 − score/100·6)`, each `toFixed(2)`. */
  function TimeToSell(score: int): (real, real) {
    var tMin := Max(0.25, 7.0 - (score as real / 100.0) * 6.0);
    (ToFixed2(tMin), ToFixed2(tMin * 2.2))
  }

  datatype LiquidityResult = LiquidityResult(score: int, tts: (real, real))

  function ComputeLiquidity(qs: seq<VenueNet>): (r: LiquidityResult)
    ensures r.tts == TimeToSell(r.score)
  {
    var s := Score(qs);
    LiquidityResult(s, TimeToSell(s))
  }

  // ---------- Score ----------

  ghost predicate NonNegativeActivity(qs: seq<VenueNet>) {
    forall i :: 0 <= i < |qs| ==> VolumeOf(qs[i]) >= 0.0 && ListingsOf(qs[i]) >= 0.0
  }

  /** A share of a positive whole lies in [0, 1]. */
  lemma ShareInUnitRange(part: real, whole: real)
    requires 0.0 <= part <= whole && whole > 0.0
    ensures 0.0 <= part / whole <= 1.0
  {
    var q := part / whole;
    assert q * whole == part;
    assert (q - 1.0) * whole == part - whole;
  }

  lemma ScaledShare(c: real, part: real, whole: real)
    requires whole > 0.0
    ensures c * part / whole == c * (part / whole)
  {
  }

  lemma CompositeInUnitRange(q: VenueNet, vMax: real, lMax: real)
    requires vMax > 0.0 && lMax > 0.0
    requires 0.0 <= VolumeOf(q) <= vMax && 0.0 <= ListingsOf(q) <= lMax
    ensures 0.0 <= Composite(q, vMax, lMax) <= 1.0
  {
    ShareInUnitRange(VolumeOf(q), vMax);
    ShareInUnitRange(ListingsOf(q), lMax);
    ScaledShare(0.7, VolumeOf(q), vMax);
    ScaledShare(0.3, ListingsOf(q), lMax);
  }

  lemma {:induction false} SumCompositeBounds(qs: seq<VenueNet>, vMax: real, lMax: real)
    requires vMax > 0.0 && lMax > 0.0 && NonNegativeActivity(qs)
    requires forall i :: 0 <= i < |qs| ==> VolumeOf(qs[i]) <= vMax && ListingsOf(qs[i]) <= lMax
    ensures 0.0 <= SumComposite(qs, vMax, lMax) <= |qs| as real
  {
    if qs != [] {
      var n := |qs| - 1;
      SumCompositeBounds(qs[..n], vMax, lMax);
      CompositeInUnitRange(qs[n], vMax, lMax);
    }
  }

  /** With non-negative volumes and listings, the score lies in 0..100. */
  lemma ScoreInRange(qs: seq<VenueNet>)
    requires NonNegativeActivity(qs)
    ensures 0 <= Score(qs) <= 100
  {
    var vs, ls := Volumes(qs), ListingCounts(qs);
    var vMax, lMax := MaxAtLeastOne(vs), MaxAtLeastOne(ls);
    assert forall i :: 0 <= i < |qs| ==> VolumeOf(qs[i]) <= vMax && ListingsOf(qs[i]) <= lMax by {
      forall i | 0 <= i < |qs| ensures VolumeOf(qs[i]) <= vMax && ListingsOf(qs[i]) <= lMax {
        assert vs[i] == VolumeOf(qs[i]) && ls[i] == ListingsOf(qs[i]);
      }
    }
    SumCompositeBounds(qs, vMax, lMax);
    var count := if |qs| == 0 then 1 else |qs|;
    var sum := SumComposite(qs, vMax, lMax);
    ShareInUnitRange(sum, count as real);
  }

  lemma {:induction false} SumCompositeOfIdle(qs: seq<VenueNet>, vMax: real, lMax: real)
    requires vMax > 0.0 && lMax > 0.0
    requires forall i :: 0 <= i < |qs| ==> VolumeOf(qs[i]) == 0.0 && ListingsOf(qs[i]) == 0.0
    ensures SumComposite(qs, vMax, lMax) == 0.0
  {
    if qs != [] {
      SumCompositeOfIdle(qs[..|qs| - 1], vMax, lMax);
    }
  }

  /** No volume and no listings anywhere (or no quotes at all) scores 0. */
  lemma IdleMarketScoresZero(qs: seq<VenueNet>)
    requires forall i :: 0 <= i < |qs| ==> VolumeOf(qs[i]) == 0.0 && ListingsOf(qs[i]) == 0.0
    ensures Score(qs) == 0
  {
    SumCompositeOfIdle(qs, MaxAtLeastOne(Volumes(qs)), MaxAtLeastOne(ListingCounts(qs)));
  }

  /** With a single positive value `v >= 1` and zeros elsewhere, `Math.max(1, ...xs)` is `v`. */
  lemma MaxOfSingleActive(xs: seq<real>, k: int, v: real)
    requires 0 <= k < |xs| && xs[k] == v && v >= 1.0
    requires forall i :: 0 <= i < |xs| && i != k ==> xs[i] == 0.0
    ensures MaxAtLeastOne(xs) == v
  {
    var m := MaxAtLeastOne(xs);
    assert m >= v;
    if m != 1.0 {
      var j :| 0 <= j < |xs| && xs[j] == m;
    }
  }

  /** When only slot `k` has any volume or listings, the sum of composites is that slot's composite. */
  lemma {:induction false} SumCompositeOfSingle(qs: seq<VenueNet>, k: int, vMax: real, lMax: real)
    requires vMax > 0.0 && lMax > 0.0 && 0 <= k < |qs|
    requires forall i :: 0 <= i < |qs| && i != k ==> VolumeOf(qs[i]) == 0.0 && ListingsOf(qs[i]) == 0.0
    ensures SumComposite(qs, vMax, lMax) == Composite(qs[k], vMax, lMax)
  {
    var n := |qs| - 1;
    if k == n {
      SumCompositeOfIdle(qs[..n], vMax, lMax);
    } else {
      SumCompositeOfSingle(qs[..n], k, vMax, lMax);
    }
  }

  /**
   * One venue trading (volume at least 1) among four, whichever it is, and
   * no listings anywhere: the composites are 0.7 and three zeros, their mean
   * 0.175 and, in exact arithmetic, the score 18. The mean times 100 is
   * 17.5, on `Math.round`'s tie, so binary doubles can round it to 17.
   */
  lemma SingleActiveVenueScore(qs: seq<VenueNet>, k: int, v: real)
    requires |qs| == 4 && 0 <= k < 4 && v >= 1.0 && VolumeOf(qs[k]) == v
    requires forall i :: 0 <= i < 4 && i != k ==> VolumeOf(qs[i]) == 0.0
    requires forall i :: 0 <= i < 4 ==> ListingsOf(qs[i]) == 0.0
    ensures Score(qs) == 18
  {
    var vs, ls := Volumes(qs), ListingCounts(qs);
    MaxOfSingleActive(vs, k, v);
    var vMax := MaxAtLeastOne(vs);
    var lMax := MaxAtLeastOne(ls);
    assert lMax == 1.0;
    var c := Composite(qs[k], vMax, lMax);
    assert c == 0.7 by {
      ScaledShare(0.7, v, v);
      assert v / v == 1.0;
    }
    SumCompositeOfSingle(qs, k, vMax, lMax);
    assert 0.7 / 4.0 * 100.0 == 17.5;
  }

  // ---------- Time to sell ----------

  /** For scores 0..100 the 0.25-day floor never applies and the lower bound is exact. */
  lemma TimeToSellBand(score: int)
    requires 0 <= score <= 100
    ensures TimeToSell(score).0 == (700 - 6 * score) as real / 100.0
    ensures 1.0 <= TimeToSell(score).0 <= TimeToSell(score).1
  {
    var tMin := 7.0 - (score as real / 100.0) * 6.0;
    assert tMin == (700 - 6 * score) as real / 100.0;
    assert tMin >= 1.0;
    RoundCentsOfCents(700 - 6 * score);
    RoundCentsMonotone(tMin, tMin * 2.2);
  }

  /** A higher score never lengthens either end of the band. */
  lemma TimeToSellNonIncreasing(s1: int, s2: int)
    requires s1 <= s2
    ensures TimeToSell(s2).0 <= TimeToSell(s1).0
    ensures TimeToSell(s2).1 <= TimeToSell(s1).1
  {
    var t1 := Max(0.25, 7.0 - (s1 as real / 100.0) * 6.0);
    var t2 := Max(0.25, 7.0 - (s2 as real / 100.0) * 6.0);
    assert t2 <= t1;
    RoundCentsMonotone(t2, t1);
    RoundCentsMonotone(t2 * 2.2, t1 * 2.2);
  }

  /** The band at the two ends of the scale: 7 to 15.4 days at 0, 1 to 2.2 days at 100. */
  lemma TimeToSellExtremes()
    ensures TimeToSell(0) == (7.0, 15.4)
    ensures TimeToSell(100) == (1.0, 2.2)
  {
    RoundCentsOfCents(700);
    RoundCentsOfCents(1540);
    RoundCentsOfCents(100);
    RoundCentsOfCents(220);
  }
}
