/** Delivery pricing and the delivery-radius check (lib/utils/distance.ts).
    The haversine distance is an input: it is floating-point trigonometry
    and is not part of this model. */
module Delivery {

  /** The pricing settings read from the environment. */
  datatype FeeConfig = FeeConfig(
    freeThreshold: real,
    baseFee: real,
    perKmFee: real,
    expressFee: real)

  /** The values used when the environment leaves a setting unset. */
  const DefaultFeeConfig := FeeConfig(5000.0, 100.0, 40.0, 150.0)

  /** Default maximum delivery radius, in kilometres. */
  const DefaultMaxRadiusKm: real := 5.0

  predicate NonNegative(c: FeeConfig) {
    c.freeThreshold >= 0.0 && c.baseFee >= 0.0 && c.perKmFee >= 0.0 && c.expressFee >= 0.0
  }

  /** `Math.round`: the nearest integer, halves rounded up. */
  function Round(x: real): (n: int)
    ensures n as real - 0.5 <= x < n as real + 0.5
  {
    (x + 0.5).Floor
  }

  /** `Round` is monotone. */
  lemma RoundMonotone(x: real, y: real)
    requires x <= y
    ensures Round(x) <= Round(y)
  {
  }

  /** `Round` leaves integers unchanged. */
  lemma RoundInteger(n: int)
    ensures Round(n as real) == n
  {
  }

  /** The fee before rounding: base plus per-km below the free-delivery
      threshold, nothing at or above it, plus the express surcharge. */
  function UnroundedFee(c: FeeConfig, distanceKm: real, cartTotal: real, express: bool): (fee: real)
    ensures cartTotal >= c.freeThreshold && !express ==> fee == 0.0
    ensures cartTotal >= c.freeThreshold && express ==> fee == c.expressFee
    ensures cartTotal < c.freeThreshold ==>
      fee == c.baseFee + distanceKm * c.perKmFee + (if express then c.expressFee else 0.0)
  {
    var fee := if cartTotal >= c.freeThreshold then 0.0 else c.baseFee + distanceKm * c.perKmFee;
    if express then fee + c.expressFee else fee
  }

  /** `calculateDeliveryFee`: the rounded fee. */
  function DeliveryFee(c: FeeConfig, distanceKm: real, cartTotal: real, express: bool): (fee: int)
    ensures fee as real - 0.5 <= UnroundedFee(c, distanceKm, cartTotal, express) < fee as real + 0.5
  {
    Round(UnroundedFee(c, distanceKm, cartTotal, express))
  }

  /** Free delivery at or above the threshold, unless express is asked for;
      then exactly the (rounded) express surcharge. */
  lemma FreeAtThreshold(c: FeeConfig, distanceKm: real, cartTotal: real)
    requires cartTotal >= c.freeThreshold
    ensures DeliveryFee(c, distanceKm, cartTotal, false) == 0
    ensures DeliveryFee(c, distanceKm, cartTotal, true) == Round(c.expressFee)
  {
  }

  /** With non-negative settings and distance the fee is never negative. */
  lemma FeeNonNegative(c: FeeConfig, distanceKm: real, cartTotal: real, express: bool)
    requires NonNegative(c) && distanceKm >= 0.0
    ensures DeliveryFee(c, distanceKm, cartTotal, express) >= 0
  {
    RoundMonotone(0.0, UnroundedFee(c, distanceKm, cartTotal, express));
  }

  /** For a fixed cart total and express choice, a longer distance never
      costs less. */
  lemma FeeMonotoneInDistance(c: FeeConfig, d1: real, d2: real, cartTotal: real, express: bool)
    requires c.perKmFee >= 0.0 && d1 <= d2
    ensures DeliveryFee(c, d1, cartTotal, express) <= DeliveryFee(c, d2, cartTotal, express)
  {
    assert d1 * c.perKmFee <= d2 * c.perKmFee;
    RoundMonotone(UnroundedFee(c, d1, cartTotal, express), UnroundedFee(c, d2, cartTotal, express));
  }

  /** The worked examples of the pricing comment, on the default settings. */
  lemma DefaultFeeExamples()
    ensures DeliveryFee(DefaultFeeConfig, 3.0, 4000.0, false) == 220
    ensures DeliveryFee(DefaultFeeConfig, 3.0, 5000.0, false) == 0
    ensures DeliveryFee(DefaultFeeConfig, 3.0, 5000.0, true) == 150
    ensures DeliveryFee(DefaultFeeConfig, 0.0, 4000.0, false) == 100
    ensures DeliveryFee(DefaultFeeConfig, 2.5, 100.0, true) == 350
  {
    RoundInteger(220);
    RoundInteger(0);
    RoundInteger(150);
    RoundInteger(100);
    RoundInteger(350);
  }

  /** Result of `isWithinDeliveryRadius`. */
  datatype RadiusResult = RadiusResult(withinRadius: bool, distance: real)

  /** `isWithinDeliveryRadius`, given the computed distance. */
  function RadiusCheck(distance: real, maxRadiusKm: real): (r: RadiusResult)
    ensures r.distance == distance
    ensures r.withinRadius <==> distance <= maxRadiusKm
  {
    RadiusResult(distance <= maxRadiusKm, distance)
  }

  /** The radius boundary itself qualifies; anything beyond does not. */
  lemma RadiusBoundary(maxRadiusKm: real, eps: real)
    requires eps > 0.0
    ensures RadiusCheck(maxRadiusKm, maxRadiusKm).withinRadius
    ensures !RadiusCheck(maxRadiusKm + eps, maxRadiusKm).withinRadius
  {
  }
}
