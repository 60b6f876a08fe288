/** Every row the invocation handler builds can be constructed; when the database accepts it. */
module HandlerRows {
  import opened Wrappers
  import opened Decimals
  import opened Text
  import opened UsageLimit
  import opened CostBudget
  import opened Cost
  import opened Invocations
  import opened InvocationRows

  /** Built, and accepted by every CHECK. */
  predicate Persistable(r: Result<Invocation, InvocationError>) {
    r.Success? && Valid(r.value) && SatisfiesChecks(Store(r.value))
  }

  /** A principal's identity of at most 255 characters, and a call of less than 2^31 milliseconds. */
  predicate RequestFits(who: Identity) {
    |who.runtimePrincipalId| <= 255 && who.completedAt - who.startedAt < (MAX_INT32 + 1) * 1_000
  }

  /** Which columns can miss their types, apart from the two of the request. */
  lemma ColumnsFitIff(v: Invocation, who: Identity, status: InvocationStatus)
    requires Concludes(v, who, status)
    ensures FitsColumnTypes(Store(v)) <==>
            && RequestFits(who) && FitsCounts(Store(v)) && FitsUsageEvidence(v.usageEvidence)
            && FitsCostColumns(StoreCost(v.estimatedCost)) && FitsCostEvidence(v.costEvidence)
  {
    hide FitsCounts, FitsUsageEvidence, FitsCostColumns, FitsCostEvidence;
  }

  /** A row without telemetry and cost leaves only the request and the evidence. */
  lemma BareColumnsFitIff(v: Invocation, who: Identity, status: InvocationStatus)
    requires Concludes(v, who, status) && NoTelemetry(v) && v.estimatedCost.None?
    ensures FitsColumnTypes(Store(v)) <==>
            RequestFits(who) && FitsUsageEvidence(v.usageEvidence) && FitsCostEvidence(v.costEvidence)
  {
    ColumnsFitIff(v, who, status);
    assert FitsCounts(Store(v)) && FitsCostColumns(StoreCost(v.estimatedCost));
    hide FitsColumnTypes, Concludes, FitsUsageEvidence, FitsCostEvidence, RequestFits;
  }

  lemma AbsentEvidenceFits(e: LimitEvidence)
    requires e.Absent()
    ensures FitsUsageEvidence(e) && FitsCostEvidence(e)
  {
  }

  /** The CHECKs accept a valid aggregate without a cost and without cost-budget evidence. */
  lemma FreeRowsSatisfyChecks(v: Invocation)
    requires Valid(v) && v.estimatedCost.None? && v.costEvidence.Absent()
    ensures SatisfiesChecks(Store(v))
  {
    hide SatisfiesChecks, Construct;
    ChecksAcceptExactly(v);
  }

  /** Nothing of a denial or a failure but the request can miss its column. */
  lemma DeniedAndFailedRowsPersist(who: Identity)
    requires Buildable(who)
    ensures Persistable(Denied(who)) && Persistable(Failed(who))
    ensures FitsColumnTypes(Store(Denied(who).value)) <==> RequestFits(who)
    ensures FitsColumnTypes(Store(Failed(who).value)) <==> RequestFits(who)
  {
    hide Denied, Failed, Buildable, SatisfiesChecks, FitsColumnTypes, Concludes, RequestFits, Store, Valid;
    DeniedAndFailedAreBuiltIff(who);
    forall r | r in [Denied(who), Failed(who)]
      ensures Persistable(r) && (FitsColumnTypes(Store(r.value)) <==> RequestFits(who))
    {
      FreeRowsSatisfyChecks(r.value);
      AbsentEvidenceFits(r.value.usageEvidence);
      AbsentEvidenceFits(r.value.costEvidence);
      BareColumnsFitIff(r.value, who, if r == Denied(who) then DENIED else FAILED);
    }
    assert Denied(who) in [Denied(who), Failed(who)] && Failed(who) in [Denied(who), Failed(who)];
  }

  /** A rejection by the usage gate is exactly the evidence a limited row must show. Its columns are
      of type INTEGER: beyond 2^31 - 1 units the rejection cannot be recorded. */
  lemma LimitedRowsPersist(who: Identity, consumed: int, limit: int, allowance: int, window: UsageWindow)
    requires Buildable(who) && window == UtcDayWindow(who.startedAt)
    requires DecideUsageLimit(consumed, limit, allowance, window).Success?
    requires !DecideUsageLimit(consumed, limit, allowance, window).value.allowed
    ensures var r := Limited(who, consumed, limit, allowance, window.start, window.end);
            && Persistable(r)
            && (FitsColumnTypes(Store(r.value)) <==> RequestFits(who) && consumed <= MAX_INT32 && limit <= MAX_INT32)
  {
    hide Limited, Buildable, SatisfiesChecks, FitsColumnTypes, Concludes, RequestFits, Store, Valid, FitsCostEvidence;
    LimitedIsBuiltIff(who, consumed, limit, allowance, window.start, window.end);
    var v := Limited(who, consumed, limit, allowance, window.start, window.end).value;
    FreeRowsSatisfyChecks(v);
    AbsentEvidenceFits(v.costEvidence);
    BareColumnsFitIff(v, who, LIMITED);
  }

  /** A rejection by the budget gate can always be built; the exact CHECK accepts it whenever
      the configured limit is representable in 28 digits. */
  lemma CostLimitedRowsPersist(who: Identity, attributed: int, budget: TenantCostBudget, window: UsageWindow)
    requires Buildable(who) && budget.Valid() && window == UtcDayWindow(who.startedAt)
    requires DecideTenantCostBudget(attributed, budget, window).Success?
    requires !DecideTenantCostBudget(attributed, budget, window).value.allowed
    ensures var r := CostLimited(who, attributed, budget.limit, budget.allowance, window.start, window.end);
            && r.Success? && Valid(r.value)
            && (SatisfiesChecks(Store(r.value)) <==> attributed + budget.allowance > budget.limit)
            && (Representable(28, budget.limit) ==> SatisfiesChecks(Store(r.value)))
            && (FitsColumnTypes(Store(r.value)) <==> RequestFits(who) && attributed < Pow10(30) && budget.limit < Pow10(30))
  {
    hide CostLimited, Buildable, SatisfiesChecks, FitsColumnTypes, Concludes, RequestFits, Store, Valid, FitsUsageEvidence,
      Pow10, RoundSignificant, Representable;
    CostLimitedIsBuiltIff(who, attributed, budget.limit, budget.allowance, window.start, window.end);
    var v := CostLimited(who, attributed, budget.limit, budget.allowance, window.start, window.end).value;
    if Representable(28, budget.limit) {
      RejectionIsExact(attributed, budget, window);
    }
    ChecksAcceptExactly(v);
    AbsentEvidenceFits(v.usageEvidence);
    BareColumnsFitIff(v, who, COST_LIMITED);
  }

  lemma RejectionIsExact(attributed: nat, budget: TenantCostBudget, window: UsageWindow)
    requires budget.Valid() && Representable(28, budget.limit)
    ensures DecideTenantCostBudget(attributed, budget, window).Success?
    ensures DecideTenantCostBudget(attributed, budget, window).value.allowed <==>
            attributed + budget.allowance <= budget.limit
  {
    hide RoundSignificant, Representable;
    BudgetDecisionIsExactIff(budget);
  }

  /** A budget of 29 digits whose rejection the database then refuses to record: the sum equals
      the limit, and only its 28-digit rounding exceeds it. */
  lemma UnrecordableRejection(who: Identity)
    requires Buildable(who)
    ensures var budget := TenantCostBudget(Pow10(28) + 6, 1);
            var window := UtcDayWindow(who.startedAt);
            var r := CostLimited(who, Pow10(28) + 5, budget.limit, budget.allowance, window.start, window.end);
            && budget.Valid()
            && !DecideTenantCostBudget(Pow10(28) + 5, budget, window).value.allowed
            && r.Success? && !SatisfiesChecks(Store(r.value))
  {
    hide SatisfiesChecks, Strip, Construct, RoundSignificant, Representable, Buildable, CostLimited, FitsColumnTypes,
      RequestFits, Store, Valid, UtcDayWindow, Pow10;
    var window := UtcDayWindow(who.startedAt);
    RoundingChangesTheAnswer(window);
    CostLimitedRowsPersist(who, Pow10(28) + 5, TenantCostBudget(Pow10(28) + 6, 1), window);
  }

  /** An answer that can be recorded: text with a non-blank character, a response identity of 1 to 255
      characters once stripped, and valid usage within int32. */
  predicate ProviderResult(outputText: string, usage: Option<InvocationUsage>, responseId: Option<string>) {
    && Strip(outputText) != ""
    && ResponseIdValid(StripIfPresent(responseId))
    && (usage.Some? ==> usage.value.Valid() && usage.value.FitsColumns())
  }

  /** An answer with int32 usage, priced within the configured ranges, always becomes a row. */
  lemma SucceededRowsPersist(who: Identity, outputText: string, usage: Option<InvocationUsage>,
                             responseId: Option<string>, pricing: Option<PricingSnapshot>)
    requires Buildable(who) && ProviderResult(outputText, usage, responseId)
    requires pricing.Some? ==> pricing.value.Valid() && pricing.value.FitsColumns() && |pricing.value.version| <= 255
    ensures AttributeCost(usage, pricing).Success?
    ensures AttributeCost(usage, pricing).value.Some? ==> AttributeCost(usage, pricing).value.value.Valid()
    ensures var r := Succeeded(who, outputText, usage, responseId, AttributeCost(usage, pricing).value);
            Persistable(r) && (FitsColumnTypes(Store(r.value)) <==> RequestFits(who))
  {
    hide AttributeCost, Persistable, Pow10, Strip, Trimmed, NearestEven, FitsColumnTypes;
    CostIsAttributedExactlyWhenKnown(usage, pricing);
    var cost := AttributeCost(usage, pricing).value;
    if cost.Some? {
      AttributedCostIsExact(usage.value, pricing.value);
      AttributedCostIsValid(usage, pricing);
      CostFits(cost.value, pricing.value);
    }
    assert StorableCost(cost, usage);
    hide StorableCost;
    SucceededRowPersists(who, outputText, usage, responseId, cost);
  }

  lemma AttributedCostIsValid(usage: Option<InvocationUsage>, pricing: Option<PricingSnapshot>)
    requires usage.Some? ==> usage.value.Valid()
    requires pricing.Some? ==> pricing.value.Valid()
    requires AttributeCost(usage, pricing).Success? && AttributeCost(usage, pricing).value.Some?
    ensures AttributeCost(usage, pricing).value.value.Valid()
  {
    hide ComponentCost, RoundSignificant;
  }

  /** Everything the CHECKs and the column types ask of a cost. */
  predicate StorableCost(cost: Option<InvocationCost>, usage: Option<InvocationUsage>) {
    cost.Some? ==>
      && cost.value.Valid() && cost.value.totalCost == cost.value.inputCost + cost.value.outputCost
      && cost.value.pricingBasisUnits > 0 && cost.value.pricingInputRate >= 0 && cost.value.pricingOutputRate >= 0
      && usage.Some? && usage.value.inputUnits.Some? && usage.value.outputUnits.Some?
      && FitsCostColumns(StoreCost(cost))
  }

  lemma CostFits(cost: InvocationCost, pricing: PricingSnapshot)
    requires pricing.Valid() && pricing.FitsColumns() && |pricing.version| <= 255
    requires 0 <= cost.inputCost && 0 <= cost.outputCost && cost.totalCost == cost.inputCost + cost.outputCost < Pow10(28)
    requires cost.pricingVersion == pricing.version && cost.pricingBasisUnits == pricing.basisUnits
    requires cost.pricingInputRate == pricing.inputRate && cost.pricingOutputRate == pricing.outputRate
    ensures FitsCostColumns(StoreCost(Some(cost)))
  {
    hide Pow10;
    Pow10Monotone(28, 30);
  }

  lemma SucceededRowPersists(who: Identity, outputText: string, usage: Option<InvocationUsage>,
                             responseId: Option<string>, cost: Option<InvocationCost>)
    requires Buildable(who) && ProviderResult(outputText, usage, responseId) && StorableCost(cost, usage)
    ensures var r := Succeeded(who, outputText, usage, responseId, cost);
            Persistable(r) && (FitsColumnTypes(Store(r.value)) <==> RequestFits(who))
  {
    hide Succeeded, Buildable, SatisfiesChecks, FitsColumnTypes, Concludes, RequestFits, Store, Valid, FitsCounts, FitsCostColumns,
      FitsUsageEvidence, FitsCostEvidence, Strip, Trimmed;
    SucceededIsBuiltIff(who, outputText, usage, responseId, cost);
    var v := Succeeded(who, outputText, usage, responseId, cost).value;
    CountsFit(v);
    NoCostFits();
    AbsentEvidenceFits(v.usageEvidence);
    AbsentEvidenceFits(v.costEvidence);
    ChecksAcceptExactly(v);
    ColumnsFitIff(v, who, SUCCEEDED);
  }

  lemma CountsFit(v: Invocation)
    requires v.usage.Some? ==> v.usage.value.Valid() && v.usage.value.FitsColumns()
    requires ResponseIdValid(v.providerResponseId)
    ensures FitsCounts(Store(v))
  {
  }

  lemma NoCostFits()
    ensures FitsCostColumns(StoreCost(None))
  {
  }
}
