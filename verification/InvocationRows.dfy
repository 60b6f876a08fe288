/** The `invocations` table: its columns, its CHECK constraints, and the repository over it. */
module InvocationRows {
  import opened Wrappers
  import opened Decimals
  import opened Text
  import opened Cost
  import opened Invocations

  /** The pricing and cost snapshot columns, null together or present together. */
  datatype CostColumns = CostColumns(
    currency: Option<string>,
    input: Option<int>,
    output: Option<int>,
    total: Option<int>,
    pricingVersion: Option<string>,
    basisUnits: Option<int>,
    inputRate: Option<int>,
    outputRate: Option<int>)
  {
    predicate Absent() {
      && currency.None? && input.None? && output.None? && total.None? && pricingVersion.None?
      && basisUnits.None? && inputRate.None? && outputRate.None?
    }

    predicate Present() {
      && currency.Some? && input.Some? && output.Some? && total.Some? && pricingVersion.Some?
      && basisUnits.Some? && inputRate.Some? && outputRate.Some?
    }
  }

  datatype InvocationRow = InvocationRow(
    id: Id,
    tenantId: Id,
    agentId: Id,
    modelId: Id,
    status: InvocationStatus,
    inputText: string,
    outputText: Option<string>,
    startedAt: int,
    completedAt: int,
    policyDecisionId: Option<Id>,
    runtimePrincipalId: Option<string>,
    durationMs: Option<int>,
    inputUnits: Option<int>,
    outputUnits: Option<int>,
    totalUnits: Option<int>,
    providerResponseId: Option<string>,
    usageEvidence: LimitEvidence,
    cost: CostColumns,
    costEvidence: LimitEvidence)

  // CHECK constraints, in SQL's three-valued logic: a constraint rejects only what is false

  datatype Truth = True | False | Unknown

  function Known(b: bool): Truth {
    if b then True else False
  }

  function And(a: Truth, b: Truth): Truth {
    if a == False || b == False then False else if a == True && b == True then True else Unknown
  }

  function Or(a: Truth, b: Truth): Truth {
    if a == True || b == True then True else if a == False && b == False then False else Unknown
  }

  function AtLeast(a: Option<int>, b: int): Truth {
    if a.Some? then Known(a.value >= b) else Unknown
  }

  function Above(a: Option<int>, b: Option<int>): Truth {
    if a.Some? && b.Some? then Known(a.value > b.value) else Unknown
  }

  function AtMost(a: Option<int>, b: Option<int>): Truth {
    if a.Some? && b.Some? then Known(a.value <= b.value) else Unknown
  }

  function Equal(a: Option<int>, b: Option<int>): Truth {
    if a.Some? && b.Some? then Known(a.value == b.value) else Unknown
  }

  function Plus(a: Option<int>, b: Option<int>): Option<int> {
    if a.Some? && b.Some? then Some(a.value + b.value) else None
  }

  function StatusOutputCheck(r: InvocationRow): Truth {
    Known(if r.status == SUCCEEDED then r.outputText.Some? else r.outputText.None?)
  }

  function LimitedEvidenceCheck(r: InvocationRow): Truth {
    var e := r.usageEvidence;
    Or(And(And(Known(r.status == LIMITED && e.Present()), Above(Plus(e.consumed, e.allowance), e.limit)),
           And(AtMost(e.allowance, e.limit), Known(r.totalUnits.None? && r.providerResponseId.None?))),
       Known(r.status != LIMITED && e.Absent()))
  }

  function CostSnapshotCheck(c: CostColumns): Truth {
    Or(Known(c.Absent()),
       And(And(And(if c.currency.None? then Unknown else Known(c.currency.value == "USD"),
                   And(AtLeast(c.input, 0), AtLeast(c.output, 0))),
               And(Equal(c.total, Plus(c.input, c.output)), Known(c.pricingVersion.Some?))),
           And(Above(c.basisUnits, Some(0)), And(AtLeast(c.inputRate, 0), AtLeast(c.outputRate, 0)))))
  }

  function CostBudgetEvidenceCheck(r: InvocationRow): Truth {
    var e := r.costEvidence;
    Or(And(And(Known(r.status == COST_LIMITED && e.Present()),
               And(AtLeast(e.consumed, 0), Above(e.limit, Some(0)))),
           And(And(And(Above(e.allowance, Some(0)), AtMost(e.allowance, e.limit)),
                   Above(Plus(e.consumed, e.allowance), e.limit)),
               And(Above(e.windowEnd, e.windowStart),
                   Known(&& r.inputUnits.None? && r.outputUnits.None? && r.totalUnits.None?
                         && r.providerResponseId.None? && r.cost.total.None?)))),
       Known(r.status != COST_LIMITED && e.Absent()))
  }

  /** The constraints that mention one column, or the status and the output. */
  predicate SatisfiesColumnChecks(r: InvocationRow) {
    && StatusOutputCheck(r) != False
    && AtLeast(r.durationMs, 0) != False
    && AtLeast(r.inputUnits, 0) != False
    && AtLeast(r.outputUnits, 0) != False
    && AtLeast(r.totalUnits, 0) != False
    && AtLeast(r.usageEvidence.consumed, 0) != False
    && Above(r.usageEvidence.limit, Some(0)) != False
    && Above(r.usageEvidence.allowance, Some(0)) != False
  }

  predicate SatisfiesChecks(r: InvocationRow) {
    && SatisfiesColumnChecks(r)
    && LimitedEvidenceCheck(r) != False
    && CostSnapshotCheck(r.cost) != False
    && CostBudgetEvidenceCheck(r) != False
  }

  // Column types

  predicate FitsInteger(n: Option<int>) {
    n.Some? ==> -MAX_INT32 - 1 <= n.value <= MAX_INT32
  }

  /** NUMERIC(precision, 12), in quanta. */
  predicate FitsNumeric(n: Option<int>, precision: nat) {
    n.Some? ==> -1 * Pow10(precision) < n.value < Pow10(precision)
  }

  predicate FitsText(t: Option<string>) {
    t.Some? ==> |t.value| <= 255
  }

  predicate FitsCostColumns(c: CostColumns) {
    && FitsNumeric(c.input, 30) && FitsNumeric(c.output, 30) && FitsNumeric(c.total, 30)
    && FitsText(c.pricingVersion) && FitsInteger(c.basisUnits)
    && FitsNumeric(c.inputRate, 18) && FitsNumeric(c.outputRate, 18)
  }

  predicate FitsCounts(r: InvocationRow) {
    FitsInteger(r.inputUnits) && FitsInteger(r.outputUnits) && FitsInteger(r.totalUnits) && FitsText(r.providerResponseId)
  }

  predicate FitsUsageEvidence(e: LimitEvidence) {
    FitsInteger(e.consumed) && FitsInteger(e.limit) && FitsInteger(e.allowance)
  }

  predicate FitsCostEvidence(e: LimitEvidence) {
    FitsNumeric(e.consumed, 30) && FitsNumeric(e.limit, 30) && FitsNumeric(e.allowance, 30)
  }

  /** Every value is in the range of its column's type. */
  predicate FitsColumnTypes(r: InvocationRow) {
    && FitsText(r.runtimePrincipalId) && FitsInteger(r.durationMs) && FitsCounts(r)
    && FitsUsageEvidence(r.usageEvidence) && FitsCostColumns(r.cost) && FitsCostEvidence(r.costEvidence)
  }

  /** What the database accepts. */
  predicate Insertable(r: InvocationRow) {
    SatisfiesChecks(r) && FitsColumnTypes(r)
  }

  /** No count and no cost of a row is negative. */
  predicate CountsUp(r: InvocationRow) {
    && (r.inputUnits.Some? ==> r.inputUnits.value >= 0)
    && (r.outputUnits.Some? ==> r.outputUnits.value >= 0)
    && (r.totalUnits.Some? ==> r.totalUnits.value >= 0)
    && (r.cost.total.Some? ==> r.cost.total.value >= 0)
  }

  // Mapping between the aggregate and its row

  function StoreCost(c: Option<InvocationCost>): CostColumns {
    if c.None? then CostColumns(None, None, None, None, None, None, None, None)
    else
      CostColumns(Some("USD"), Some(c.value.inputCost), Some(c.value.outputCost), Some(c.value.totalCost),
                  Some(c.value.pricingVersion), Some(c.value.pricingBasisUnits),
                  Some(c.value.pricingInputRate), Some(c.value.pricingOutputRate))
  }

  function Store(v: Invocation): InvocationRow {
    var who, u := v.who, v.usage;
    InvocationRow(
      who.id, who.tenantId, who.agentId, who.modelId, v.status, who.inputText, v.outputText,
      who.startedAt, who.completedAt, Some(who.policyDecisionId), Some(who.runtimePrincipalId), v.durationMs,
      if u.Some? then u.value.inputUnits else None,
      if u.Some? then u.value.outputUnits else None,
      if u.Some? then u.value.totalUnits else None,
      v.providerResponseId, v.usageEvidence, StoreCost(v.estimatedCost), v.costEvidence)
  }

  datatype LoadError = IncompleteCostSnapshot | InvalidCost | InvalidUsage | InvalidInvocation(error: InvocationError)

  function UsageFromRow(r: InvocationRow): Result<Option<InvocationUsage>, LoadError> {
    if r.inputUnits.None? && r.outputUnits.None? && r.totalUnits.None? then Success(None)
    else
      var usage := InvocationUsage(r.inputUnits, r.outputUnits, r.totalUnits);
      if usage.Valid() then Success(Some(usage)) else Failure(InvalidUsage)
  }

  function CostFromRow(c: CostColumns): Result<Option<InvocationCost>, LoadError> {
    if c.currency.None? then Success(None)
    else if !c.Present() then Failure(IncompleteCostSnapshot)
    else
      var cost := InvocationCost(c.input.value, c.output.value, c.total.value, c.pricingVersion.value,
                                 c.basisUnits.value, c.inputRate.value, c.outputRate.value);
      if c.currency.value == "USD" && cost.Valid() then Success(Some(cost)) else Failure(InvalidCost)
  }

  function Rebuild(r: InvocationRow, usage: Option<InvocationUsage>, cost: Option<InvocationCost>): Invocation
    requires r.policyDecisionId.Some? && r.runtimePrincipalId.Some?
  {
    Invocation(
      Identity(r.id, r.tenantId, r.agentId, r.modelId, r.inputText, r.startedAt, r.completedAt,
               r.policyDecisionId.value, r.runtimePrincipalId.value),
      r.status, r.outputText, r.durationMs, usage, r.providerResponseId, r.usageEvidence, cost, r.costEvidence)
  }

  /** A row without a decision or a principal predates the aggregate and reads as absent. */
  function Load(r: InvocationRow): Result<Option<Invocation>, LoadError> {
    if r.policyDecisionId.None? || r.runtimePrincipalId.None? then Success(None)
    else
      var usage :- UsageFromRow(r);
      var cost :- CostFromRow(r.cost);
      match Construct(Rebuild(r, usage, cost))
      case Success(v) => Success(Some(v))
      case Failure(error) => Failure(InvalidInvocation(error))
  }

  /** A usage with no count present is stored as three nulls and reads back as no usage. */
  function Normalized(v: Invocation): Invocation {
    if v.usage == Some(InvocationUsage(None, None, None)) then v.(usage := None) else v
  }

  lemma NormalizedIsValid(v: Invocation)
    requires Valid(v)
    ensures Valid(Normalized(v))
  {
    hide Strip, RoundSignificant;
    assert MatchesStatus(v) ==> MatchesStatus(Normalized(v));
  }

  /** Loading what was stored never fails and changes nothing but an all-absent usage. */
  lemma LoadAfterStore(v: Invocation)
    requires Valid(v)
    ensures Load(Store(v)) == Success(Some(Normalized(v)))
  {
    hide Construct, RoundSignificant;
    NormalizedIsValid(v);
    assert UsageFromRow(Store(v)) == Success(Normalized(v).usage);
    assert CostFromRow(Store(v).cost) == Success(v.estimatedCost);
    assert Rebuild(Store(v), Normalized(v).usage, v.estimatedCost) == Normalized(v);
    hide UsageFromRow, CostFromRow, Rebuild, Store, Normalized;
  }

  /** Rows that the constructors could not have stored: old ones read as absent, and half a cost snapshot
      is refused. */
  lemma OtherRowsAreNotLoaded(r: InvocationRow)
    ensures r.policyDecisionId.None? || r.runtimePrincipalId.None? ==> Load(r) == Success(None)
    ensures && r.policyDecisionId.Some? && r.runtimePrincipalId.Some? && r.inputUnits.None? && r.outputUnits.None?
            && r.totalUnits.None? && r.cost.currency.Some?
            && (|| r.cost.input.None? || r.cost.output.None? || r.cost.total.None? || r.cost.pricingVersion.None?
                || r.cost.basisUnits.None? || r.cost.inputRate.None? || r.cost.outputRate.None?) ==>
              Load(r) == Failure(IncompleteCostSnapshot)
  {
    hide Construct;
  }

  // What the CHECK constraints say

  /** Unknown never decides the two evidence constraints: they hold exactly when the status comes with all
      five values, ordered, and the sum above the limit, or with none. */
  lemma EvidenceChecksMean(r: InvocationRow)
    ensures LimitedEvidenceCheck(r) != False <==>
            var e := r.usageEvidence;
            if r.status == LIMITED then
              && e.consumed.Some? && e.limit.Some? && e.allowance.Some? && e.windowStart.Some? && e.windowEnd.Some?
              && e.consumed.value + e.allowance.value > e.limit.value && e.allowance.value <= e.limit.value
              && r.totalUnits.None? && r.providerResponseId.None?
            else e == LimitEvidence(None, None, None, None, None)
    ensures CostBudgetEvidenceCheck(r) != False <==>
            var e := r.costEvidence;
            if r.status == COST_LIMITED then
              && e.consumed.Some? && e.limit.Some? && e.allowance.Some? && e.windowStart.Some? && e.windowEnd.Some?
              && e.consumed.value >= 0 && e.limit.value > 0 && 0 < e.allowance.value <= e.limit.value
              && e.consumed.value + e.allowance.value > e.limit.value && e.windowEnd.value > e.windowStart.value
              && r.inputUnits.None? && r.outputUnits.None? && r.totalUnits.None? && r.providerResponseId.None?
              && r.cost.total.None?
            else e == LimitEvidence(None, None, None, None, None)
  {
  }

  /** The cost snapshot's constraint refuses a known contradiction, and no more: a snapshot with some columns
      missing passes it. */
  lemma SnapshotCheckMeans(c: CostColumns)
    ensures CostSnapshotCheck(c) != False <==>
            || c == CostColumns(None, None, None, None, None, None, None, None)
            || (&& (c.currency.Some? ==> c.currency.value == "USD")
                && (c.input.Some? ==> c.input.value >= 0) && (c.output.Some? ==> c.output.value >= 0)
                && (c.total.Some? && c.input.Some? && c.output.Some? ==> c.total.value == c.input.value + c.output.value)
                && c.pricingVersion.Some? && (c.basisUnits.Some? ==> c.basisUnits.value > 0)
                && (c.inputRate.Some? ==> c.inputRate.value >= 0) && (c.outputRate.Some? ==> c.outputRate.value >= 0))
  {
  }

  // Which aggregates the CHECK constraints accept

  /** The stored total is the exact sum, and the copied pricing is what a snapshot guarantees. */
  predicate ExactCostSnapshot(v: Invocation) {
    v.estimatedCost.Some? ==>
      var c := v.estimatedCost.value;
      && c.totalCost == c.inputCost + c.outputCost
      && c.pricingBasisUnits > 0 && c.pricingInputRate >= 0 && c.pricingOutputRate >= 0
  }

  /** The rejected sum exceeds the budget exactly, not only after rounding to 28 digits. */
  predicate ExactCostEvidence(v: Invocation) {
    v.status == COST_LIMITED && v.costEvidence.Present() ==>
      v.costEvidence.consumed.value + v.costEvidence.allowance.value > v.costEvidence.limit.value
  }

  lemma ColumnChecksHold(v: Invocation)
    requires Valid(v)
    ensures SatisfiesColumnChecks(Store(v))
  {
    hide Strip, RoundSignificant;
  }

  lemma LimitedCheckHolds(v: Invocation)
    requires Valid(v)
    ensures LimitedEvidenceCheck(Store(v)) == True
  {
    hide Strip, OutputMatchesStatus, CostEvidenceMatchesStatus;
    assert UsageEvidenceMatchesStatus(v);
  }

  lemma CostSnapshotCheckIff(v: Invocation)
    requires Valid(v)
    ensures CostSnapshotCheck(StoreCost(v.estimatedCost)) == Known(ExactCostSnapshot(v))
  {
    hide Construct, RoundSignificant;
  }

  lemma CostEvidenceCheckIff(v: Invocation)
    requires Valid(v)
    ensures CostBudgetEvidenceCheck(Store(v)) == Known(ExactCostEvidence(v))
  {
    hide Strip, OutputMatchesStatus, UsageEvidenceMatchesStatus, RoundSignificant;
    assert CostEvidenceMatchesStatus(v) && CostMatchesStatus(v);
  }

  /** The database accepts a valid aggregate exactly when its two Decimal sums are exact. */
  lemma ChecksAcceptExactly(v: Invocation)
    requires Valid(v)
    ensures SatisfiesChecks(Store(v)) <==> ExactCostSnapshot(v) && ExactCostEvidence(v)
  {
    hide SatisfiesColumnChecks, LimitedEvidenceCheck, CostSnapshotCheck, CostBudgetEvidenceCheck, Construct;
    ColumnChecksHold(v);
    LimitedCheckHolds(v);
    CostSnapshotCheckIff(v);
    CostEvidenceCheckIff(v);
  }
}
