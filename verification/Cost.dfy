/**
 Invocation usage, configured pricing and the attributed estimated cost.
 Rates and costs are integers in quanta of 10^-12 USD.
 */
module Cost {
  import opened Wrappers
  import opened Decimals

  const MAX_INT32 := 0x7FFF_FFFF

  datatype InvocationUsage = InvocationUsage(inputUnits: Option<int>, outputUnits: Option<int>, totalUnits: Option<int>) {
    predicate Valid() {
      && (inputUnits.Some? ==> inputUnits.value >= 0)
      && (outputUnits.Some? ==> outputUnits.value >= 0)
      && (totalUnits.Some? ==> totalUnits.value >= 0)
      && (totalUnits.Some? && inputUnits.Some? ==> totalUnits.value >= inputUnits.value)
      && (totalUnits.Some? && outputUnits.Some? ==> totalUnits.value >= outputUnits.value)
    }

    /** Every present count fits its INTEGER column. */
    predicate FitsColumns() {
      && (inputUnits.Some? ==> inputUnits.value <= MAX_INT32)
      && (outputUnits.Some? ==> outputUnits.value <= MAX_INT32)
      && (totalUnits.Some? ==> totalUnits.value <= MAX_INT32)
    }
  }

  datatype PricingSnapshot = PricingSnapshot(version: string, basisUnits: int, inputRate: int, outputRate: int) {
    predicate Valid() {
      basisUnits > 0 && inputRate >= 0 && outputRate >= 0
    }

    /** 18 digits of which 12 are decimal places, and an INTEGER basis. */
    predicate FitsColumns() {
      basisUnits <= MAX_INT32 && inputRate < Pow10(18) && outputRate < Pow10(18)
    }
  }

  datatype CostError = DecimalFailure(decimal: DecimalError) | NegativeCost | InconsistentTotal

  datatype InvocationCost = InvocationCost(
    inputCost: int,
    outputCost: int,
    totalCost: int,
    pricingVersion: string,
    pricingBasisUnits: int,
    pricingInputRate: int,
    pricingOutputRate: int)
  {
    /** The construction-time check; its sum is taken in the default 28-digit context. */
    predicate Valid() {
      && inputCost >= 0 && outputCost >= 0 && totalCost >= 0
      && totalCost == RoundSignificant(28, inputCost + outputCost)
    }
  }

  /** `Decimal(units) * rate / basis` in a 50-digit context, quantized half-even to 12 places. */
  function ComponentCost(units: nat, rate: nat, basis: nat): Result<nat, DecimalError>
    requires basis > 0
  {
    QuantizedQuotient(50, RoundSignificant(50, units * rate), basis)
  }

  function AttributeCost(usage: Option<InvocationUsage>, pricing: Option<PricingSnapshot>)
    : Result<Option<InvocationCost>, CostError>
    requires usage.Some? ==> usage.value.Valid()
    requires pricing.Some? ==> pricing.value.Valid()
  {
    if usage.None? || usage.value.inputUnits.None? || usage.value.outputUnits.None? || pricing.None? then
      Success(None)
    else
      var p := pricing.value;
      match (ComponentCost(usage.value.inputUnits.value, p.inputRate, p.basisUnits),
             ComponentCost(usage.value.outputUnits.value, p.outputRate, p.basisUnits))
      case (Failure(error), _) => Failure(DecimalFailure(error))
      case (_, Failure(error)) => Failure(DecimalFailure(error))
      case (Success(input), Success(output)) =>
        var cost := InvocationCost(input, output, RoundSignificant(28, input + output),
                                   p.version, p.basisUnits, p.inputRate, p.outputRate);
        if cost.Valid() then Success(Some(cost)) else Failure(InconsistentTotal)
  }

  /** The usage and pricing that a cost can be computed from. */
  predicate Attributable(usage: InvocationUsage, pricing: PricingSnapshot) {
    && usage.Valid() && usage.FitsColumns() && usage.inputUnits.Some? && usage.outputUnits.Some?
    && pricing.Valid() && pricing.FitsColumns()
  }

  /** The largest component cost, with 2^31 units at 10^18 quanta each. */
  const COMPONENT_BOUND: nat := (MAX_INT32 + 1) * Pow10(18)

  lemma ComponentBoundFits()
    ensures 2 * COMPONENT_BOUND < Pow10(28)
  {
    Pow10Add(10, 18);
    assert Pow10(10) == 10_000_000_000;
    MulLe(2 * (MAX_INT32 + 1) + 1, Pow10(10), Pow10(18));
  }

  lemma ProductBelow(units: nat, rate: nat, basis: nat)
    requires units <= MAX_INT32 && rate < Pow10(18) && basis > 0
    ensures units * rate < COMPONENT_BOUND <= basis * COMPONENT_BOUND
  {
    hide Pow10;
    MulLe(units, MAX_INT32, rate);
    MulLe(rate, Pow10(18), MAX_INT32);
    MulLe(1, basis, COMPONENT_BOUND);
  }

  lemma ProductFitsContext(units: nat, rate: nat, basis: nat)
    requires units <= MAX_INT32 && rate < Pow10(18) && basis > 0
    ensures units * rate < Pow10(50) && units * rate < basis * Pow10(28)
  {
    hide Pow10;
    ProductBelow(units, rate, basis);
    ComponentBoundFits();
    Pow10Monotone(28, 50);
    MulLe(COMPONENT_BOUND, Pow10(28), basis);
  }

  /** Two roundings at 50 digits are one exact rounding of units * rate / basis. */
  lemma ComponentCostIsOneRounding(units: nat, rate: nat, basis: nat)
    requires units <= MAX_INT32 && rate < Pow10(18) && 0 < basis <= MAX_INT32
    ensures ComponentCost(units, rate, basis).Success?
    ensures NearestEven(units * rate, basis, ComponentCost(units, rate, basis).value)
    ensures ComponentCost(units, rate, basis).value <= COMPONENT_BOUND
  {
    var n := units * rate;
    assert Pow10(10) == 10_000_000_000;
    hide Pow10, RoundHalfEven, RoundSignificant, QuantizedQuotient, NearestEven;
    Pow10Monotone(10, 22);
    ProductFitsContext(units, rate, basis);
    RoundSignificantSmall(50, n);
    QuantizedQuotientIsExact(28, 22, n, basis);
    RoundHalfEvenIsNearest(n, basis);
    ProductBelow(units, rate, basis);
    RoundHalfEvenAtMost(n, basis, COMPONENT_BOUND);
  }

  /** Within the persisted ranges attribution never fails: each component is the exact rational
      cost rounded once, the 28-digit total is the exact sum, and the pricing is copied. */
  lemma AttributedCostIsExact(usage: InvocationUsage, pricing: PricingSnapshot)
    requires Attributable(usage, pricing)
    ensures AttributeCost(Some(usage), Some(pricing)).Success?
    ensures var cost := AttributeCost(Some(usage), Some(pricing)).value;
            && cost.Some?
            && NearestEven(usage.inputUnits.value * pricing.inputRate, pricing.basisUnits, cost.value.inputCost)
            && NearestEven(usage.outputUnits.value * pricing.outputRate, pricing.basisUnits, cost.value.outputCost)
            && 0 <= cost.value.inputCost && 0 <= cost.value.outputCost
            && cost.value.totalCost == cost.value.inputCost + cost.value.outputCost < Pow10(28)
            && cost.value.pricingVersion == pricing.version
            && cost.value.pricingBasisUnits == pricing.basisUnits
            && cost.value.pricingInputRate == pricing.inputRate
            && cost.value.pricingOutputRate == pricing.outputRate
  {
    hide ComponentCost, RoundSignificant, Pow10, NearestEven;
    ComponentCostIsOneRounding(usage.inputUnits.value, pricing.inputRate, pricing.basisUnits);
    ComponentCostIsOneRounding(usage.outputUnits.value, pricing.outputRate, pricing.basisUnits);
    var input := ComponentCost(usage.inputUnits.value, pricing.inputRate, pricing.basisUnits).value;
    var output := ComponentCost(usage.outputUnits.value, pricing.outputRate, pricing.basisUnits).value;
    ComponentBoundFits();
    RoundSignificantSmall(28, input + output);
  }

  /** A cost is attributed exactly when both component counts and a price are known. */
  lemma CostIsAttributedExactlyWhenKnown(usage: Option<InvocationUsage>, pricing: Option<PricingSnapshot>)
    requires usage.Some? ==> usage.value.Valid() && usage.value.FitsColumns()
    requires pricing.Some? ==> pricing.value.Valid() && pricing.value.FitsColumns()
    ensures AttributeCost(usage, pricing).Success?
    ensures AttributeCost(usage, pricing).value.Some? <==>
            usage.Some? && usage.value.inputUnits.Some? && usage.value.outputUnits.Some? && pricing.Some?
  {
    if usage.Some? && usage.value.inputUnits.Some? && usage.value.outputUnits.Some? && pricing.Some? {
      AttributedCostIsExact(usage.value, pricing.value);
    }
  }

  // Drift between the ledger and the exact rational cost

  datatype Priced = Priced(usage: InvocationUsage, pricing: PricingSnapshot)

  ghost function ExactComponent(units: nat, rate: nat, basis: nat): real
    requires basis > 0
  {
    (units * rate) as real / basis as real
  }

  ghost function ExactCost(entry: Priced): real
    requires Attributable(entry.usage, entry.pricing)
  {
    ExactComponent(entry.usage.inputUnits.value, entry.pricing.inputRate, entry.pricing.basisUnits)
    + ExactComponent(entry.usage.outputUnits.value, entry.pricing.outputRate, entry.pricing.basisUnits)
  }

  predicate AllAttributable(entries: seq<Priced>) {
    forall i :: 0 <= i < |entries| ==> Attributable(entries[i].usage, entries[i].pricing)
  }

  ghost function ExactTotal(entries: seq<Priced>): real
    requires AllAttributable(entries)
  {
    if entries == [] then 0.0 else ExactCost(entries[0]) + ExactTotal(entries[1..])
  }

  /** The ledger's sum of stored totals; an entry whose attribution failed would store nothing. */
  function StoredTotal(entries: seq<Priced>): int
    requires AllAttributable(entries)
  {
    if entries == [] then 0
    else
      var stored := match AttributeCost(Some(entries[0].usage), Some(entries[0].pricing))
                    case Success(Some(cost)) => cost.totalCost
                    case _ => 0;
      stored + StoredTotal(entries[1..])
  }

  ghost function Distance(x: real, y: real): real {
    if x < y then y - x else x - y
  }

  lemma {:induction false} RealProduct(q: nat, d: int)
    ensures (q * d) as real == q as real * d as real
  {
    if q > 0 {
      RealProduct(q - 1, d);
      Distribute(q - 1, 1, d);
    }
  }

  lemma RealProductPositive(a: real, b: real)
    requires a > 0.0 && b > 0.0
    ensures a * b > 0.0
  {
  }

  lemma AtMostHalf(gap: real, d: real)
    requires d > 0.0 && 2.0 * (gap * d) <= d
    ensures gap <= 0.5
  {
    if gap > 0.5 {
      RealProductPositive(gap - 0.5, d);
    }
  }

  lemma GapAtMostHalf(gap: real, d: real, scaled: real)
    requires d > 0.0 && gap * d == scaled && 2.0 * scaled <= d
    ensures gap <= 0.5
  {
    assert 2.0 * (gap * d) == 2.0 * scaled;
    AtMostHalf(gap, d);
  }

  lemma NearestWithinHalf(n: nat, d: nat, q: nat)
    requires d > 0 && NearestEven(n, d, q)
    ensures Distance(q as real, n as real / d as real) <= 0.5
  {
    RealProduct(q, d);
    var x := n as real / d as real;
    assert x * d as real == n as real;
    GapAtMostHalf(q as real - x, d as real, (q * d) as real - n as real);
    GapAtMostHalf(x - q as real, d as real, n as real - (q * d) as real);
  }

  lemma EntryDrift(entry: Priced)
    requires Attributable(entry.usage, entry.pricing)
    ensures AttributeCost(Some(entry.usage), Some(entry.pricing)).Success?
    ensures AttributeCost(Some(entry.usage), Some(entry.pricing)).value.Some?
    ensures Distance(AttributeCost(Some(entry.usage), Some(entry.pricing)).value.value.totalCost as real,
                     ExactCost(entry)) <= 1.0
  {
    var u, p := entry.usage, entry.pricing;
    AttributedCostIsExact(u, p);
    var cost := AttributeCost(Some(u), Some(p)).value.value;
    hide AttributeCost, NearestEven;
    NearestWithinHalf(u.inputUnits.value * p.inputRate, p.basisUnits, cost.inputCost);
    NearestWithinHalf(u.outputUnits.value * p.outputRate, p.basisUnits, cost.outputCost);
  }

  /** Over n attributed rows the stored sum is within n quanta of the exact rational cost. */
  lemma {:induction false} LedgerDriftIsBounded(entries: seq<Priced>)
    requires AllAttributable(entries)
    ensures Distance(StoredTotal(entries) as real, ExactTotal(entries)) <= |entries| as real
  {
    if entries != [] {
      EntryDrift(entries[0]);
      LedgerDriftIsBounded(entries[1..]);
    }
  }
}
