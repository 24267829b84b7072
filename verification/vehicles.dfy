/**
 The rentable vehicles of the agency: a closed sum type over the two kinds of
 vehicle (cars and motorcycles), their availability flag, and the pricing rule
 each kind applies to a rental of a given number of days.

 Prices are exact rationals (`real`), so the 10% discount and the 15% surcharge
 are the exact factors 0.9 and 1.15.
 */
module Vehicles {

  /** A vehicle: the fields every vehicle shares plus the one field of its kind.
      `doors` is the number of doors of a car, `cc` the engine displacement of a
      motorcycle in cubic centimetres. */
  datatype Vehicle =
    | Car(brand: string, model: string, year: int, dailyRate: real, available: bool, doors: int)
    | Moto(brand: string, model: string, year: int, dailyRate: real, available: bool, cc: int)

  /** A rental longer than this many days earns a car the discount. */
  const DiscountThresholdDays: int := 7
  /** A motorcycle whose displacement exceeds this many cc pays the surcharge. */
  const SurchargeThresholdCc: int := 600
  /** Factor applied to a long car rental (a 10% discount). */
  const DiscountFactor: real := 0.9
  /** Factor applied to a large-displacement motorcycle (a 15% surcharge). */
  const SurchargeFactor: real := 1.15

  /** `a` and `b` describe the same vehicle: same kind, same catalogue fields and
      same daily rate. Only the availability flag may differ. */
  predicate SameDescription(a: Vehicle, b: Vehicle)
  {
    && a.Car? == b.Car?
    && a.brand == b.brand
    && a.model == b.model
    && a.year == b.year
    && a.dailyRate == b.dailyRate
    && (a.Car? ==> a.doors == b.doors)
    && (a.Moto? ==> a.cc == b.cc)
  }

  /** A new car. Every vehicle starts out available. */
  function NewCar(brand: string, model: string, year: int, dailyRate: real, doors: int): (v: Vehicle)
    ensures v.Car? && v.available
    ensures v.brand == brand && v.model == model && v.year == year
    ensures v.dailyRate == dailyRate && v.doors == doors
  {
    Car(brand, model, year, dailyRate, true, doors)
  }

  /** A new motorcycle. Every vehicle starts out available. */
  function NewMoto(brand: string, model: string, year: int, dailyRate: real, cc: int): (v: Vehicle)
    ensures v.Moto? && v.available
    ensures v.brand == brand && v.model == model && v.year == year
    ensures v.dailyRate == dailyRate && v.cc == cc
  {
    Moto(brand, model, year, dailyRate, true, cc)
  }

  /** Whether the vehicle may be rented. */
  function IsAvailable(v: Vehicle): bool
  {
    v.available
  }

  /** Sets the availability flag to `state`, whatever it was before. */
  function SetAvailability(v: Vehicle, state: bool): (r: Vehicle)
    ensures IsAvailable(r) == state
    ensures SameDescription(v, r)
  {
    v.(available := state)
  }

  /** Changes the daily rate; the kind, the other catalogue fields and the
      availability flag are kept. */
  function SetDailyRate(v: Vehicle, rate: real): (r: Vehicle)
    ensures r.dailyRate == rate
    ensures r.Car? == v.Car? && r.available == v.available
    ensures r.brand == v.brand && r.model == v.model && r.year == v.year
    ensures r.Car? ==> r.doors == v.doors
    ensures r.Moto? ==> r.cc == v.cc
  {
    v.(dailyRate := rate)
  }

  /** The undiscounted price: the daily rate times the number of days. */
  function BasePrice(v: Vehicle, days: int): real
  {
    v.dailyRate * (days as real)
  }

  /** Price of renting `v` for `days` days. A car rented for strictly more than
      seven days is discounted by 10%; a motorcycle of strictly more than 600cc
      is surcharged by 15%. For a non-negative base price the discount can only
      lower it and the surcharge can only raise it. */
  function Price(v: Vehicle, days: int): (r: real)
    ensures v.Car? && BasePrice(v, days) >= 0.0 ==> r <= BasePrice(v, days)
    ensures v.Moto? && BasePrice(v, days) >= 0.0 ==> r >= BasePrice(v, days)
  {
    if v.Car? then
      if days > DiscountThresholdDays then BasePrice(v, days) * DiscountFactor else BasePrice(v, days)
    else
      if v.cc > SurchargeThresholdCc then BasePrice(v, days) * SurchargeFactor else BasePrice(v, days)
  }

  /** The factor form of `Price`: the multiplier the pricing rule applies on
      top of the base price. `PriceIsScaledBase` proves that `Price` is the
      base price times this factor. */
  function PriceFactor(v: Vehicle, days: int): (f: real)
    ensures f > 0.0
  {
    if v.Car? then
      if days > DiscountThresholdDays then DiscountFactor else 1.0
    else
      if v.cc > SurchargeThresholdCc then SurchargeFactor else 1.0
  }

  // ---------------------------------------------------------------------
  // Pricing rules, case by case
  // ---------------------------------------------------------------------

  /** A car rented for at most seven days pays exactly rate × days: the
      seven-day boundary earns no discount. */
  lemma CarPriceUpToAWeek(v: Vehicle, days: int)
    requires v.Car? && days <= DiscountThresholdDays
    ensures Price(v, days) == v.dailyRate * (days as real)
  {
  }

  /** A car rented for more than seven days pays rate × days × 0.9. */
  lemma CarPriceOverAWeek(v: Vehicle, days: int)
    requires v.Car? && days > DiscountThresholdDays
    ensures Price(v, days) == v.dailyRate * (days as real) * DiscountFactor
  {
  }

  /** A motorcycle of at most 600cc pays exactly rate × days: 600cc itself is
      not surcharged. */
  lemma MotoPriceSmallEngine(v: Vehicle, days: int)
    requires v.Moto? && v.cc <= SurchargeThresholdCc
    ensures Price(v, days) == v.dailyRate * (days as real)
  {
  }

  /** A motorcycle of more than 600cc pays rate × days × 1.15. */
  lemma MotoPriceLargeEngine(v: Vehicle, days: int)
    requires v.Moto? && v.cc > SurchargeThresholdCc
    ensures Price(v, days) == v.dailyRate * (days as real) * SurchargeFactor
  {
  }

  /** The price is the base price scaled by a factor that depends only on the
      kind, the days and the displacement; the daily rate never enters the
      factor, so the price is linear in the rate. */
  lemma PriceIsScaledBase(v: Vehicle, days: int)
    ensures Price(v, days) == BasePrice(v, days) * PriceFactor(v, days)
    ensures PriceFactor(v, days) == PriceFactor(SetDailyRate(v, 0.0), days)
  {
  }

  /** Pricing reads nothing but the kind, the daily rate, the displacement and
      the days: the availability flag, the brand, the model, the year and the
      door count have no influence. In particular a vehicle that is already
      rented out is priced exactly as when it was free. */
  lemma PriceDependsOnlyOnRateAndKind(a: Vehicle, b: Vehicle, days: int)
    requires a.Car? == b.Car? && a.dailyRate == b.dailyRate
    requires a.Moto? ==> a.cc == b.cc
    ensures Price(a, days) == Price(b, days)
  {
  }

  /** Changing the availability flag never changes the price. */
  lemma PriceIgnoresAvailability(v: Vehicle, state: bool, days: int)
    ensures Price(SetAvailability(v, state), days) == Price(v, days)
  {
    PriceDependsOnlyOnRateAndKind(SetAvailability(v, state), v, days);
  }

  /** For a car with a non-negative rate, a longer rental never costs less:
      an eight-day rental (7.2 days' worth) still costs more than a seven-day
      one, so the discount creates no price cliff. */
  lemma CarPriceMonotone(v: Vehicle, d1: int, d2: int)
    requires v.Car? && v.dailyRate >= 0.0 && d1 <= d2
    ensures Price(v, d1) <= Price(v, d2)
  {
    var lo, hi := BasePrice(v, d1), BasePrice(v, d2);
    BasePriceMonotone(v, d1, d2);
    if d1 > DiscountThresholdDays {
      MulLeftMonotone(DiscountFactor, lo, hi);
      assert Price(v, d1) == lo * DiscountFactor && Price(v, d2) == hi * DiscountFactor;
    } else if d2 > DiscountThresholdDays {
      // lo <= a week at the full rate <= the discounted hi, since d2 >= 8
      BasePriceMonotone(v, d1, DiscountThresholdDays);
      DiscountedPriceAfterAWeek(v, d2);
      assert Price(v, d1) == lo && Price(v, d2) == hi * DiscountFactor;
    } else {
      assert Price(v, d1) == lo && Price(v, d2) == hi;
    }
  }

  /** The base price grows with the number of days when the rate is
      non-negative. */
  lemma BasePriceMonotone(v: Vehicle, d1: int, d2: int)
    requires v.dailyRate >= 0.0 && d1 <= d2
    ensures BasePrice(v, d1) <= BasePrice(v, d2)
  {
    MulLeftMonotone(v.dailyRate, d1 as real, d2 as real);
  }

  /** From the eighth day on, the discounted price is at least the
      undiscounted price of seven days. */
  lemma DiscountedPriceAfterAWeek(v: Vehicle, days: int)
    requires v.dailyRate >= 0.0 && days > DiscountThresholdDays
    ensures BasePrice(v, DiscountThresholdDays) <= BasePrice(v, days) * DiscountFactor
  {
    var rate := v.dailyRate;
    MulLeftMonotone(rate, DiscountThresholdDays as real, (days as real) * DiscountFactor);
    assert BasePrice(v, days) * DiscountFactor == rate * ((days as real) * DiscountFactor);
  }

  /** Multiplying by a non-negative factor preserves order. */
  lemma MulLeftMonotone(k: real, x: real, y: real)
    requires k >= 0.0 && x <= y
    ensures k * x <= k * y
  {
    assert k * y - k * x == k * (y - x);
  }

  /** For a motorcycle with a non-negative rate, a longer rental never costs
      less: the surcharge does not depend on the number of days. */
  lemma MotoPriceMonotone(v: Vehicle, d1: int, d2: int)
    requires v.Moto? && v.dailyRate >= 0.0 && d1 <= d2
    ensures Price(v, d1) <= Price(v, d2)
  {
    var lo, hi := BasePrice(v, d1), BasePrice(v, d2);
    BasePriceMonotone(v, d1, d2);
    if v.cc > SurchargeThresholdCc {
      MulLeftMonotone(SurchargeFactor, lo, hi);
      assert Price(v, d1) == lo * SurchargeFactor && Price(v, d2) == hi * SurchargeFactor;
    } else {
      assert Price(v, d1) == lo && Price(v, d2) == hi;
    }
  }

  /** Worked example: a car at 20000 per day rented for 8 days costs 144000. */
  lemma CarEightDaysExample()
    ensures Price(NewCar("Toyota", "Corolla", 2020, 20000.0, 4), 8) == 144000.0
  {
  }

  /** Worked example: a 650cc motorcycle at 10000 per day rented for 3 days
      costs 34500. */
  lemma MotoLargeEngineExample()
    ensures Price(NewMoto("Yamaha", "MT-07", 2021, 10000.0, 650), 3) == 34500.0
  {
  }

  // ---------------------------------------------------------------------
  // Availability flag
  // ---------------------------------------------------------------------

  /** Reading the flag back returns what was last set; setting it twice keeps
      only the last value; setting it to its current value changes nothing. */
  lemma AvailabilitySetGet(v: Vehicle, s: bool, t: bool)
    ensures IsAvailable(SetAvailability(v, s)) == s
    ensures SetAvailability(SetAvailability(v, s), t) == SetAvailability(v, t)
    ensures SetAvailability(v, IsAvailable(v)) == v
  {
  }
}
