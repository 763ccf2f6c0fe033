/** The arithmetic of a donation: points, CO2 savings and levels. Quantities that the service rounds to
  * four decimals (`roundTo`) are whole numbers of 1/10000; points per kilogram are in 1/100. */
module DonationMath {
  import opened Sums

  datatype Category = Charity | Recycle
  datatype Disposition = ToReuse | ToRecycle | ToWaste
  datatype Level = Beginner | Explorer | Advocate | Champion

  type MaterialId = nat
  datatype Material = Material(pointsPerKg: int, co2PerKg: int)
  type Catalogue = map<MaterialId, Material>

  const UNIT := 10000

  /** Math.round of n / d: to the nearest whole number, halves up. */
  function Round(n: int, d: int): int
    requires d > 0
  {
    (2 * n + d) / (2 * d)
  }

  /** `roundTo` of an arbitrary number, in units. */
  function ToUnits(x: real): int {
    (x * 10000.0 + 0.5).Floor
  }

  /** A row of `donation_items`. */
  datatype Item = Item(material: MaterialId, weight: int, points: int, co2: int)

  function ItemPoints(m: Material, weight: int): int {
    Round(m.pointsPerKg * weight, 1000000)
  }

  /** Half of the virgin factor for reuse, a flat 0.7 per kilogram for recycling; nothing without weight. */
  function DonationCo2(category: Category, co2PerKg: int, weight: int): int {
    if weight <= 0 then 0
    else if category == Charity then Round(co2PerKg * weight, 2 * UNIT)
    else Round(7 * weight, 10)
  }

  function DispositionCo2(disposition: Disposition, co2PerKg: int, weight: int): int {
    if weight <= 0 then 0
    else match disposition
      case ToReuse => Round(co2PerKg * weight, 2 * UNIT)
      case ToRecycle => Round(7 * weight, 10)
      case ToWaste => 0
  }

  function Bonus(category: Category, basePoints: int): int {
    if category == Charity then Round(basePoints, 2) else 0
  }

  /** `resolveLevel`: the first threshold reached, from the top. */
  function LevelFor(points: int): Level {
    if points >= 2000 then Champion else if points >= 1000 then Advocate else if points >= 400 then Explorer else Beginner
  }

  function Points(items: seq<Item>): int { SeqSum(items, (i: Item) => i.points) }
  function Weight(items: seq<Item>): int { SeqSum(items, (i: Item) => i.weight) }
  function Co2(items: seq<Item>): int { SeqSum(items, (i: Item) => i.co2) }

  // ----- rounding -----

  /** The only whole number within half a unit of n / d, ties upward. */
  lemma RoundIsNearest(n: int, d: int)
    requires d > 0
    ensures -d < 2 * (d * Round(n, d)) - 2 * n <= d
  {
    var q := Round(n, d);
    assert 2 * d * q <= 2 * n + d < 2 * d * q + 2 * d;
    assert 2 * (d * q) == 2 * d * q;
  }

  /** `x` is within `tolerance` of `y`. */
  predicate Near(x: int, y: int, tolerance: int) {
    -tolerance <= x - y <= tolerance
  }

  /** What the saving of an item means, for a factor in 1/10000 kg per kg and a weight in 1/10000 kg: reuse
    * saves half of the factor per kilogram and recycling 0.7, to the nearest unit; waste saves nothing. */
  ghost predicate Saves(disposition: Disposition, factor: int, weight: int, co2: int) {
    if weight <= 0 then co2 == 0
    else match disposition
      case ToReuse => Near(20000 * co2, factor * weight, 10000)
      case ToRecycle => Near(10 * co2, 7 * weight, 5)
      case ToWaste => co2 == 0
  }

  /** The disposition that a donation is credited for in advance. */
  function Pledge(category: Category): Disposition {
    if category == Charity then ToReuse else ToRecycle
  }

  lemma {:induction false} SavingsMean(category: Category, disposition: Disposition, factor: int, weight: int)
    ensures Saves(disposition, factor, weight, DispositionCo2(disposition, factor, weight))
    ensures Saves(Pledge(category), factor, weight, DonationCo2(category, factor, weight))
  {
    RoundIsNearest(factor * weight, 2 * UNIT);
    RoundIsNearest(7 * weight, 10);
  }

  /** Units are the nearest ten-thousandths. */
  lemma {:induction false} ToUnitsIsNearest(x: real)
    ensures -0.5 < ToUnits(x) as real - 10000.0 * x <= 0.5
  {}

  /** What one item would earn without rounding, in millionths of a point. */
  function Exact(catalogue: Catalogue): Item -> int {
    (i: Item) => if i.material in catalogue then catalogue[i.material].pointsPerKg * i.weight else 0
  }

  ghost predicate Scored(catalogue: Catalogue, items: seq<Item>) {
    forall i :: i in items ==> i.material in catalogue && i.points == ItemPoints(catalogue[i.material], i.weight)
  }

  lemma {:induction false} BasePointsError(catalogue: Catalogue, items: seq<Item>)
    requires Scored(catalogue, items)
    ensures -(1000000 * |items|) <= 2 * (1000000 * Points(items)) - 2 * SeqSum(items, Exact(catalogue)) <= 1000000 * |items|
    decreases |items|
  {
    if items != [] {
      var n := |items| - 1;
      BasePointsError(catalogue, items[..n]);
      var last := items[n];
      assert last in items;
      RoundIsNearest(catalogue[last.material].pointsPerKg * last.weight, 1000000);
    }
  }

  /** For any n items the points awarded are within n/2 of the exact product when recycling, and within
    * 0.75 n + 0.5 of one and a half times it for charity (both sides here times four million). */
  lemma AwardError(catalogue: Catalogue, items: seq<Item>, category: Category)
    requires Scored(catalogue, items)
    ensures var exact, award := SeqSum(items, Exact(catalogue)), Points(items) + Bonus(category, Points(items));
      match category
      case Recycle => -(2000000 * |items|) <= 4000000 * award - 4 * exact <= 2000000 * |items|
      case Charity => -(3000000 * |items|) - 2000000 <= 4000000 * award - 6 * exact <= 3000000 * |items| + 2000000
  {
    BasePointsError(catalogue, items);
    RoundIsNearest(Points(items), 2);
  }

  /** Awards and totals do not depend on the order in which the items are listed. */
  lemma AwardIgnoresOrder(items: seq<Item>, other: seq<Item>)
    requires multiset(items) == multiset(other)
    ensures Points(items) == Points(other) && Weight(items) == Weight(other) && Co2(items) == Co2(other)
  {
    SeqSumPermute(items, other, (i: Item) => i.points);
    SeqSumPermute(items, other, (i: Item) => i.weight);
    SeqSumPermute(items, other, (i: Item) => i.co2);
  }

  lemma Co2NotNegative(category: Category, disposition: Disposition, co2PerKg: int, weight: int)
    requires co2PerKg >= 0
    ensures DonationCo2(category, co2PerKg, weight) >= 0
    ensures DispositionCo2(disposition, co2PerKg, weight) >= 0
  {
    if weight > 0 {
      assert co2PerKg * weight >= 0;
    }
  }
}
