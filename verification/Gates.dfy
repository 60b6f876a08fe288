/** UTC-day windows and the Runtime Principal usage limit. Time is integer microseconds. */
module UsageLimit {
  import opened Wrappers

  const DAY := 86_400_000_000

  datatype UsageWindow = UsageWindow(start: int, end: int) {
    predicate Contains(at: int) {
      start <= at < end
    }
  }

  datatype GateError = NegativeConsumption | InvalidConfiguration

  datatype UsageLimitDecision = UsageLimitDecision(
    allowed: bool, consumedUnits: int, limitUnits: int, allowanceUnits: int, window: UsageWindow)

  function UtcDayWindow(at: int): UsageWindow {
    var start := at - at % DAY;
    UsageWindow(start, start + DAY)
  }

  function DecideUsageLimit(consumed: int, limit: int, allowance: int, window: UsageWindow)
    : Result<UsageLimitDecision, GateError>
  {
    if consumed < 0 then Failure(NegativeConsumption)
    else if limit <= 0 || allowance <= 0 || allowance > limit then Failure(InvalidConfiguration)
    else Success(UsageLimitDecision(consumed + allowance <= limit, consumed, limit, allowance, window))
  }

  /** Every instant lies in exactly one UTC-day window, its own, from midnight to midnight. */
  lemma UtcDayWindowsPartitionTime(at: int, other: int)
    ensures UtcDayWindow(at).start % 86_400_000_000 == 0
    ensures UtcDayWindow(at).end == UtcDayWindow(at).start + 86_400_000_000
    ensures UtcDayWindow(at).Contains(at)
    ensures UtcDayWindow(other).Contains(at) <==> UtcDayWindow(other) == UtcDayWindow(at)
  {
    var w := UtcDayWindow(other);
    if w.Contains(at) {
      assert at == w.start + (at - w.start) && w.start == (other / DAY) * DAY;
      assert at / DAY == other / DAY;
    }
  }
}

/** The Tenant's daily estimated-cost budget. Amounts are integers in quanta of 10^-12 USD. */
module CostBudget {
  import opened Wrappers
  import opened Decimals
  import opened UsageLimit

  datatype TenantCostBudget = TenantCostBudget(limit: int, allowance: int) {
    predicate Valid() {
      0 < allowance <= limit
    }
  }

  datatype TenantCostBudgetDecision = TenantCostBudgetDecision(
    allowed: bool, attributedCost: int, budget: int, allowance: int, window: UsageWindow)

  /** The sum is a Decimal addition in the default context of 28 digits. */
  function DecideTenantCostBudget(attributed: int, budget: TenantCostBudget, window: UsageWindow)
    : Result<TenantCostBudgetDecision, GateError>
    requires budget.Valid()
  {
    if attributed < 0 then Failure(NegativeConsumption)
    else
      Success(TenantCostBudgetDecision(
                RoundSignificant(28, attributed + budget.allowance) <= budget.limit,
                attributed, budget.limit, budget.allowance, window))
  }

  /** The decision that exact arithmetic would take, for every attributed cost. */
  ghost predicate DecidesExactly(budget: TenantCostBudget)
    requires budget.Valid()
  {
    forall attributed: nat, window ::
      var decision := DecideTenantCostBudget(attributed, budget, window);
      decision.Success? && (decision.value.allowed <==> attributed + budget.allowance <= budget.limit)
  }

  /** The last value that the multiple of `unit` below it attracts. */
  predicate LastBeforeTurning(limit: nat, unit: nat)
    requires unit > 0
  {
    var tail := limit % unit;
    if (limit / unit) % 2 == 0 then 2 * tail == unit else 2 * (tail + 1) == unit
  }

  /** A limit of at most `precision` digits, or one just below where rounding turns upwards. */
  predicate Representable(precision: nat, limit: nat) {
    || limit < Pow10(precision)
    || LastBeforeTurning(limit, Pow10(ExcessDigits(precision, limit)))
  }

  ghost predicate RoundsApart(precision: nat, limit: nat) {
    RoundSignificant(precision, limit) <= limit < RoundSignificant(precision, limit + 1)
  }

  lemma SumsDecideExactly(precision: nat, limit: nat, sum: nat)
    requires precision > 0 && RoundsApart(precision, limit)
    ensures RoundSignificant(precision, sum) <= limit <==> sum <= limit
  {
    hide RoundSignificant;
    if sum <= limit {
      RoundSignificantMonotone(precision, sum, limit);
    } else {
      RoundSignificantMonotone(precision, limit + 1, sum);
    }
  }

  lemma ExactAtTheLimitOnly(budget: TenantCostBudget)
    requires budget.Valid()
    ensures DecidesExactly(budget) <==> RoundsApart(28, budget.limit)
  {
    hide RoundSignificant;
    var limit := budget.limit;
    if DecidesExactly(budget) {
      var window := UsageWindow(0, 0);
      var at: nat := limit - budget.allowance;
      assert DecideTenantCostBudget(at, budget, window).value.allowed;
      assert !DecideTenantCostBudget(at + 1, budget, window).value.allowed;
    }
    if RoundsApart(28, limit) {
      forall attributed: nat, window: UsageWindow
        ensures DecideTenantCostBudget(attributed, budget, window).Success?
        ensures DecideTenantCostBudget(attributed, budget, window).value.allowed
                <==> attributed + budget.allowance <= limit
      {
        SumsDecideExactly(28, limit, attributed + budget.allowance);
      }
    }
  }

  /** Where a limit and its successor round to, read off the digits that do not fit. */
  lemma RoundsApartIffRepresentable(precision: nat, limit: nat)
    requires precision > 0
    ensures RoundsApart(precision, limit) <==> Representable(precision, limit)
  {
    if limit < Pow10(precision) {
      hide RoundSignificant, ExcessDigits;
      RoundSignificantSmall(precision, limit);
      if limit + 1 < Pow10(precision) {
        RoundSignificantSmall(precision, limit + 1);
      } else {
        PowerOfTenRoundsToItself(precision);
      }
    } else {
      LargeLimit(precision, limit);
    }
  }

  lemma ExcessOne(precision: nat, s: nat)
    requires Pow10(precision) <= s < Pow10(precision + 1)
    ensures ExcessDigits(precision, s) == 1
  {
  }

  lemma PowerOfTenRoundsToItself(precision: nat)
    requires precision > 0
    ensures RoundSignificant(precision, Pow10(precision)) == Pow10(precision)
  {
    ExcessOne(precision, Pow10(precision));
    RoundHalfEvenExact(Pow10(precision - 1), 10);
  }

  /** The value that rounding to a grid of `unit` steps gives to grid * unit + tail == s. */
  function OnGrid(s: int, unit: int, evenGrid: bool, tail: int): int {
    if 2 * tail < unit || (2 * tail == unit && evenGrid) then s - tail else s - tail + unit
  }

  lemma HalfUnit(precision: nat, limit: nat) returns (half: nat)
    requires limit >= Pow10(precision)
    ensures ExcessDigits(precision, limit) > 0
    ensures half >= 5 && Pow10(ExcessDigits(precision, limit)) == 2 * half
  {
    half := 5 * Pow10(ExcessDigits(precision, limit) - 1);
  }

  lemma LargeLimit(precision: nat, limit: nat)
    requires precision > 0 && limit >= Pow10(precision)
    ensures RoundsApart(precision, limit) <==> LastBeforeTurning(limit, Pow10(ExcessDigits(precision, limit)))
  {
    hide ExcessDigits, Pow10, RoundSignificant, OnGrid;
    var half := HalfUnit(precision, limit);
    var unit := Pow10(ExcessDigits(precision, limit));
    var grid, tail := limit / unit, limit % unit;
    LargeLimitRoundsOnGrid(precision, limit, unit, half, grid, tail);
    TailDecides(limit, unit, half, grid % 2 == 0, tail,
                RoundSignificant(precision, limit), RoundSignificant(precision, limit + 1));
  }

  lemma TailDecides(limit: nat, unit: nat, half: nat, even: bool, tail: nat, rounded: nat, next: nat)
    requires unit == 2 * half && half >= 5 && tail < unit
    requires rounded == OnGrid(limit, unit, even, tail)
    requires tail + 1 < unit ==> next == OnGrid(limit + 1, unit, even, tail + 1)
    ensures rounded <= limit < next <==> if even then 2 * tail == unit else 2 * (tail + 1) == unit
  {
  }

  lemma LargeLimitRoundsOnGrid(precision: nat, limit: nat, unit: nat, half: nat, grid: nat, tail: nat)
    requires precision > 0 && ExcessDigits(precision, limit) > 0
    requires unit == 2 * half == Pow10(ExcessDigits(precision, limit))
    requires grid == limit / unit && tail == limit % unit
    ensures tail < unit
    ensures RoundSignificant(precision, limit) == OnGrid(limit, unit, grid % 2 == 0, tail)
    ensures tail + 1 < unit ==>
              RoundSignificant(precision, limit + 1) == OnGrid(limit + 1, unit, grid % 2 == 0, tail + 1)
  {
    hide ExcessDigits, Pow10, RoundSignificant;
    assert limit == grid * unit + tail;
    RoundingOnGrid(precision, limit, unit, half, grid, tail);
    if tail + 1 < unit {
      SameDecade(precision, limit, ExcessDigits(precision, limit));
      RoundingOnGrid(precision, limit + 1, unit, half, grid, tail + 1);
    }
  }

  /** Adding one without carrying into the kept digits keeps the number of excess digits. */
  lemma SameDecade(precision: nat, limit: nat, k: nat)
    requires precision > 0 && 0 < k == ExcessDigits(precision, limit)
    requires limit % Pow10(k) + 1 < Pow10(k)
    ensures ExcessDigits(precision, limit + 1) == k
  {
    hide ExcessDigits, Pow10;
    var p := ExcessDigits(precision, limit + 1);
    ExcessDigitsBound(precision, limit);
    ExcessDigitsBound(precision, limit + 1);
    Pow10Add(precision, k);
    NotAMultiple(limit, Pow10(k), Pow10(precision));
    if p < k {
      Pow10Monotone(precision + p, precision + k - 1);
    } else if p > k {
      Pow10Monotone(precision + k, precision + p - 1);
    }
  }

  lemma NotAMultiple(limit: nat, unit: nat, m: nat)
    requires unit > 0 && limit % unit + 1 < unit
    ensures limit + 1 != m * unit
  {
    var grid := limit / unit;
    if m <= grid {
      MulLe(m, grid, unit);
    } else {
      MulLe(grid + 1, m, unit);
      Distribute(grid, 1, unit);
    }
  }

  lemma GridNearest(s: nat, unit: nat, half: nat, grid: nat, tail: nat)
    requires unit == 2 * half && s == grid * unit + tail && tail < unit
    ensures NearestEven(s, unit, if tail < half || (tail == half && grid % 2 == 0) then grid else grid + 1)
  {
    Distribute(grid, 1, unit);
  }

  lemma RoundingOnGrid(precision: nat, s: nat, unit: nat, half: nat, grid: nat, tail: nat)
    requires unit == 2 * half == Pow10(ExcessDigits(precision, s))
    requires s == grid * unit + tail && tail < unit
    ensures RoundSignificant(precision, s) == OnGrid(s, unit, grid % 2 == 0, tail)
  {
    hide RoundHalfEven, ExcessDigits, Pow10, NearestEven;
    var q := if tail < half || (tail == half && grid % 2 == 0) then grid else grid + 1;
    Distribute(grid, 1, unit);
    GridNearest(s, unit, half, grid, tail);
    RoundHalfEvenIsNearest(s, unit);
    NearestEvenIsUnique(s, unit, q, RoundHalfEven(s, unit));
  }

  /** The 28-digit decision equals the exact one for every attributed cost exactly when the
      configured limit is representable; every limit below 10^16 USD is. */
  lemma BudgetDecisionIsExactIff(budget: TenantCostBudget)
    requires budget.Valid()
    ensures DecidesExactly(budget) <==> Representable(28, budget.limit)
  {
    ExactAtTheLimitOnly(budget);
    RoundsApartIffRepresentable(28, budget.limit);
  }

  lemma TenTimesEven(precision: nat)
    requires precision >= 2
    ensures Pow10(precision) == Pow10(precision - 1) * 10 && Pow10(precision - 1) % 2 == 0
    ensures Pow10(1) == 10 && Pow10(precision + 1) >= Pow10(precision) + 10
  {
    assert Pow10(precision - 1) == 10 * Pow10(precision - 2);
  }

  lemma RoundingJustAbove(precision: nat, tail: nat)
    requires precision >= 2 && tail < 10
    ensures RoundSignificant(precision, Pow10(precision) + tail) ==
            if tail <= 5 then Pow10(precision) else Pow10(precision) + 10
  {
    hide RoundSignificant, ExcessDigits, Pow10;
    TenTimesEven(precision);
    ExcessOne(precision, Pow10(precision) + tail);
    RoundingOnGrid(precision, Pow10(precision) + tail, 10, 5, Pow10(precision - 1), tail);
  }

  /** Two budgets of 29 digits for which rounding changes the answer, one in each direction. */
  lemma RoundingChangesTheAnswer(window: UsageWindow)
    ensures var lenient := TenantCostBudget(Pow10(28), 1);
            lenient.Valid() && DecideTenantCostBudget(Pow10(28), lenient, window).value.allowed
    ensures var strict := TenantCostBudget(Pow10(28) + 6, 1);
            strict.Valid() && !DecideTenantCostBudget(Pow10(28) + 5, strict, window).value.allowed
  {
    hide RoundSignificant;
    RoundingJustAbove(28, 1);
    RoundingJustAbove(28, 6);
  }

  /** How far the exact sum behind an allowed decision can lie above the limit. */
  function RoundingSlack(limit: nat): nat {
    if limit < Pow10(28) then 0 else 50
  }

  lemma RoundSignificantWithin(precision: nat, s: nat)
    ensures 2 * (s - RoundSignificant(precision, s)) <= Pow10(ExcessDigits(precision, s))
  {
    RoundHalfEvenIsNearest(s, Pow10(ExcessDigits(precision, s)));
  }

  /** An admitted cost leaves room for the allowance, up to half a unit of the 28th digit
      for limits of 29 or 30 digits. */
  lemma AdmittedCostFitsBudget(attributed: nat, budget: TenantCostBudget, window: UsageWindow)
    requires budget.Valid() && budget.limit < Pow10(30)
    requires DecideTenantCostBudget(attributed, budget, window).value.allowed
    ensures attributed + budget.allowance <= budget.limit + RoundingSlack(budget.limit)
  {
    var sum: nat := attributed + budget.allowance;
    var k := ExcessDigits(28, sum);
    RoundSignificantDecade(28, sum);
    RoundSignificantWithin(28, sum);
    if k >= 3 {
      Pow10Monotone(30, 28 + k - 1);
    } else if k >= 1 {
      Pow10Monotone(28, 28 + k - 1);
      Pow10Monotone(k, 2);
      assert Pow10(2) == 100;
    } else {
      RoundSignificantSmall(28, sum);
    }
  }
}
