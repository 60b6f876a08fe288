/**
 What the statements of a call make of it, and what its row therefore records: read off the ledger, the
 configuration and the provider's answer, column by column, in every interleaving.
 */
module RowContents {
  import opened Wrappers
  import opened Text
  import opened Uuids
  import opened Decimals
  import opened UsageLimit
  import opened CostBudget
  import opened Cost
  import opened Invocations
  import opened InvocationRows
  import opened HandlerRows
  import opened Admission
  import Policy = PolicyRisk

  // Accepted calls

  /** An input of 1 to 10000 characters once stripped, the Tenant's own Agent and Model, and a provider
      that is supported. */
  predicate Acceptable(config: Config, command: Command) {
    && 0 < |Strip(command.inputText)| <= 10_000
    && command.tenantId in config.tenants
    && command.agentId in config.agents && config.agents[command.agentId] == command.tenantId
    && command.modelId in config.models && config.models[command.modelId].tenantId == command.tenantId
    && config.models[command.modelId].provider == "openai"
  }

  /** Anything else is refused before an invocation has an identity. */
  lemma AcceptsIff(config: Config, command: Command)
    ensures Accepts(config, command) <==> Acceptable(config, command)
  {
    hide Strip;
  }

  /** Every call was accepted, and not in the future. */
  ghost predicate CallsAccepted(config: Config, s: State) {
    forall id :: id in s.calls ==> Accepts(config, s.calls[id].command) && s.calls[id].startedAt <= s.now
  }

  lemma StepKeepsCallsAccepted(config: Config, s: State, e: Event)
    requires config.Valid() && Enabled(config, s, e) && CallsAccepted(config, s)
    ensures CallsAccepted(config, Apply(config, s, e))
  {
    hide Accepts, AfterUsageRead, AfterCostRead, AfterProvider, Denied, Failed, Build, Store, Insertable;
  }

  lemma {:induction false} RunKeepsCallsAccepted(config: Config, run: seq<State>, events: seq<Event>, i: nat)
    requires IsRun(config, run, events) && Initial(run[0]) && i < |run|
    ensures CallsAccepted(config, run[i])
  {
    hide Apply, Enabled, Accepts;
    if i > 0 {
      RunKeepsCallsAccepted(config, run, events, i - 1);
      RunStep(config, run, events, i - 1);
      StepKeepsCallsAccepted(config, run[i - 1], events[i - 1]);
    }
  }

  // The columns of a row

  /** The request, its decision and its duration in whole milliseconds. */
  predicate RecordsRequest(s: State, id: Uuid, decisionId: Uuid, row: InvocationRow)
    requires id in s.calls
  {
    var c := s.calls[id];
    && row.id == id && row.tenantId == c.command.tenantId && row.agentId == c.command.agentId
    && row.modelId == c.command.modelId && row.inputText == Strip(c.command.inputText)
    && row.runtimePrincipalId == Some(c.command.principalId) && row.policyDecisionId == Some(decisionId)
    && row.startedAt == c.startedAt && row.completedAt == s.now
    && row.durationMs.Some?
    && row.durationMs.value * 1_000 <= s.now - c.startedAt < (row.durationMs.value + 1) * 1_000
  }

  predicate NoOutcome(row: InvocationRow) {
    && row.outputText.None? && row.inputUnits.None? && row.outputUnits.None? && row.totalUnits.None?
    && row.providerResponseId.None? && row.cost == CostColumns(None, None, None, None, None, None, None, None)
  }

  const NOTHING := LimitEvidence(None, None, None, None, None)

  /** The units of the principal's day, and the cost of its Tenant's, that a read would find. */
  function Units(s: State, command: Command, at: int): int {
    Consumption(UsageMeter(command.principalId, UtcDayWindow(at)), s.ledger)
  }

  function Spent(s: State, command: Command, at: int): int {
    Consumption(CostMeter(command.tenantId, UtcDayWindow(at)), s.ledger)
  }

  predicate RecordsDenial(row: InvocationRow) {
    row.status == DENIED && NoOutcome(row) && row.usageEvidence == NOTHING && row.costEvidence == NOTHING
  }

  predicate RecordsFailure(row: InvocationRow) {
    row.status == FAILED && NoOutcome(row) && row.usageEvidence == NOTHING && row.costEvidence == NOTHING
  }

  /** What the read found, what was asked for, and the day it was for. */
  predicate RecordsUsageRejection(s: State, c: Call, row: InvocationRow) {
    var day := UtcDayWindow(c.startedAt);
    && row.status == LIMITED && NoOutcome(row) && row.costEvidence == NOTHING
    && row.usageEvidence == LimitEvidence(Some(Units(s, c.command, c.startedAt)), Some(c.command.usageLimit),
                                          Some(c.command.allowance), Some(day.start), Some(day.end))
  }

  predicate RecordsCostRejection(config: Config, s: State, c: Call, row: InvocationRow) {
    var day := UtcDayWindow(c.startedAt);
    && row.status == COST_LIMITED && NoOutcome(row) && row.usageEvidence == NOTHING
    && c.command.tenantId in config.budgets
    && row.costEvidence == LimitEvidence(Some(Spent(s, c.command, c.startedAt)),
                                         Some(config.budgets[c.command.tenantId].limit),
                                         Some(config.budgets[c.command.tenantId].allowance), Some(day.start), Some(day.end))
  }

  /** The answer's text and counts as they came, its identity stripped. */
  predicate RecordsAnswer(row: InvocationRow, outputText: string, usage: Option<InvocationUsage>, responseId: Option<string>) {
    && row.status == SUCCEEDED && row.usageEvidence == NOTHING && row.costEvidence == NOTHING
    && row.outputText == Some(outputText)
    && row.inputUnits == (if usage.Some? then usage.value.inputUnits else None)
    && row.outputUnits == (if usage.Some? then usage.value.outputUnits else None)
    && row.totalUnits == (if usage.Some? then usage.value.totalUnits else None)
    && row.providerResponseId == (if responseId.Some? then Some(Strip(responseId.value)) else None)
  }

  /** The price configured for the model's provider reference. */
  predicate HasPrice(config: Config, modelId: Uuid) {
    modelId in config.models && config.models[modelId].reference in config.pricing
  }

  /** A cost if and only if both counts and the price are known; then each count at the model's own rate,
      rounded once, and their exact sum, beside the price itself. */
  ghost predicate RecordsCost(config: Config, row: InvocationRow) {
    if !(HasPrice(config, row.modelId) && row.inputUnits.Some? && row.outputUnits.Some?) then
      row.cost == CostColumns(None, None, None, None, None, None, None, None)
    else
      var price := config.pricing[config.models[row.modelId].reference];
      && row.cost.Present() && row.cost.currency == Some("USD")
      && row.cost.pricingVersion == Some(price.version) && row.cost.basisUnits == Some(price.basisUnits)
      && row.cost.inputRate == Some(price.inputRate) && row.cost.outputRate == Some(price.outputRate)
      && (price.Valid() && price.FitsColumns() && 0 <= row.inputUnits.value <= MAX_INT32 && 0 <= row.outputUnits.value <= MAX_INT32 ==>
            && NearestEven(row.inputUnits.value * price.inputRate, price.basisUnits, row.cost.input.value)
            && NearestEven(row.outputUnits.value * price.outputRate, price.basisUnits, row.cost.output.value)
            && row.cost.total.value == row.cost.input.value + row.cost.output.value)
  }

  // What each statement makes of its call

  /** The request can be stored: its principal is named, in at most 255 characters, and it did not
      take 2^31 milliseconds. */
  predicate RequestStorable(s: State, command: Command, at: int) {
    |command.principalId| <= 255 && s.now - at < (MAX_INT32 + 1) * 1_000
  }

  lemma BuildableIff(config: Config, s: State, id: Uuid, decision: Policy.PolicyDecision)
    requires CallsAccepted(config, s) && id in s.calls
    ensures Buildable(Who(s, id, decision)) <==> Strip(s.calls[id].command.principalId) != ""
    ensures RequestFits(Who(s, id, decision)) <==> RequestStorable(s, s.calls[id].command, s.calls[id].startedAt)
  {
    hide Strip;
  }

  lemma RequestIsRecorded(s: State, id: Uuid, decision: Policy.PolicyDecision, v: Invocation, status: InvocationStatus)
    requires id in s.calls && Concludes(v, Who(s, id, decision), status)
    ensures RecordsRequest(s, id, decision.id, Store(v)) && Store(v).status == status
  {
    hide Strip;
  }

  /** A denied call becomes a denied row, unless its principal has no name. */
  lemma DenialOutcome(config: Config, s: State, id: Uuid)
    requires config.Valid() && CallsAccepted(config, s) && id in s.calls && s.calls[id].phase.Decided?
    requires s.calls[id].phase.decision.effect != Policy.ALLOW
    ensures Enabled(config, s, Deny(id)) && id in Apply(config, s, Deny(id)).calls
    ensures var c, phase := s.calls[id], Apply(config, s, Deny(id)).calls[id].phase;
            if Strip(c.command.principalId) == "" then phase == Raised
            else
              && phase.Built?
              && var row := Store(phase.invocation);
                 && RecordsRequest(s, id, c.phase.decision.id, row) && RecordsDenial(row)
                 && (Insertable(row) <==> RequestStorable(s, c.command, c.startedAt))
  {
    hide Strip, Denied, Buildable, Concludes, Insertable, FitsColumnTypes, SatisfiesChecks, RequestFits, RecordsRequest,
      RequestStorable, Valid;
    var decision := s.calls[id].phase.decision;
    DenialApplies(config, s, id);
    hide Apply, Enabled;
    BuildableIff(config, s, id, decision);
    DeniedAndFailedAreBuiltIff(Who(s, id, decision));
    assert Denied(Who(s, id, decision)) in [Denied(Who(s, id, decision)), Failed(Who(s, id, decision))];
    if Buildable(Who(s, id, decision)) {
      DeniedAndFailedRowsPersist(Who(s, id, decision));
      RequestIsRecorded(s, id, decision, Denied(Who(s, id, decision)).value, DENIED);
    }
    hide Who, Failed;
    assert forall row :: Insertable(row) <==> SatisfiesChecks(row) && FitsColumnTypes(row) by {
      InsertableMeans();
    }
  }

  lemma InsertableMeans()
    ensures forall row :: Insertable(row) <==> SatisfiesChecks(row) && FitsColumnTypes(row)
  {
    hide SatisfiesChecks, FitsColumnTypes;
  }

  /** A transport error becomes a failed row, likewise. */
  lemma TransportErrorOutcome(config: Config, s: State, id: Uuid)
    requires config.Valid() && CallsAccepted(config, s) && id in s.calls && s.calls[id].phase.CostAdmitted?
    ensures Enabled(config, s, ProviderFails(id)) && id in Apply(config, s, ProviderFails(id)).calls
    ensures var c, phase := s.calls[id], Apply(config, s, ProviderFails(id)).calls[id].phase;
            if Strip(c.command.principalId) == "" then phase == Raised
            else
              && phase.Built?
              && var row := Store(phase.invocation);
                 && RecordsRequest(s, id, c.phase.decision.id, row) && RecordsFailure(row)
                 && (Insertable(row) <==> RequestStorable(s, c.command, c.startedAt))
  {
    hide Strip, Failed, Buildable, Concludes, Insertable, FitsColumnTypes, SatisfiesChecks, RequestFits, RecordsRequest,
      RequestStorable, Valid;
    var decision := s.calls[id].phase.decision;
    TransportErrorApplies(config, s, id);
    hide Apply, Enabled;
    BuildableIff(config, s, id, decision);
    DeniedAndFailedAreBuiltIff(Who(s, id, decision));
    assert Failed(Who(s, id, decision)) in [Denied(Who(s, id, decision)), Failed(Who(s, id, decision))];
    if Buildable(Who(s, id, decision)) {
      DeniedAndFailedRowsPersist(Who(s, id, decision));
      RequestIsRecorded(s, id, decision, Failed(Who(s, id, decision)).value, FAILED);
    }
    hide Who, Denied;
    InsertableMeans();
  }

  /** The usage read, on any ledger: an exception, admission, or a limited row with what it found. */
  lemma UsageReadOutcome(config: Config, s: State, id: Uuid)
    requires config.Valid() && CallsAccepted(config, s) && id in s.calls && s.calls[id].phase.Decided?
    requires s.calls[id].phase.decision.effect == Policy.ALLOW
    ensures Enabled(config, s, ReadUsage(id)) && id in Apply(config, s, ReadUsage(id)).calls
    ensures var c, phase := s.calls[id], Apply(config, s, ReadUsage(id)).calls[id].phase;
            var known := Units(s, c.command, c.startedAt);
            if known < 0 || !(0 < c.command.allowance <= c.command.usageLimit) then phase == Raised
            else if known + c.command.allowance <= c.command.usageLimit then phase == UsageAdmitted(c.phase.decision)
            else if Strip(c.command.principalId) == "" then phase == Raised
            else
              && phase.Built?
              && var row := Store(phase.invocation);
                 && RecordsRequest(s, id, c.phase.decision.id, row) && RecordsUsageRejection(s, c, row)
                 && (Insertable(row) <==>
                       RequestStorable(s, c.command, c.startedAt) && known <= MAX_INT32 && c.command.usageLimit <= MAX_INT32)
  {
    hide Strip, Limited, Buildable, Concludes, Insertable, FitsColumnTypes, SatisfiesChecks, RequestFits, RecordsRequest,
      RequestStorable, Valid, Consumption, UtcDayWindow, Who;
    var c, who, day := s.calls[id], Who(s, id, s.calls[id].phase.decision), UtcDayWindow(s.calls[id].startedAt);
    UsageReadApplies(config, s, id);
    hide Apply, Enabled;
    BuildableIff(config, s, id, c.phase.decision);
    var known := Units(s, c.command, c.startedAt);
    LimitedIsBuiltIff(who, known, c.command.usageLimit, c.command.allowance, day.start, day.end);
    DayIsOrdered(c.startedAt);
    if Buildable(who) && known >= 0 && 0 < c.command.allowance <= c.command.usageLimit
       && known + c.command.allowance > c.command.usageLimit {
      assert who.startedAt == c.startedAt by {
        WhoStarted(s, id, c.phase.decision);
      }
      LimitedRowsPersist(who, known, c.command.usageLimit, c.command.allowance, day);
      RequestIsRecorded(s, id, c.phase.decision,
                        Limited(who, known, c.command.usageLimit, c.command.allowance, day.start, day.end).value, LIMITED);
    }
    InsertableMeans();
  }

  lemma WhoStarted(s: State, id: Uuid, decision: Policy.PolicyDecision)
    requires id in s.calls
    ensures Who(s, id, decision).startedAt == s.calls[id].startedAt
  {
  }

  lemma DayIsOrdered(at: int)
    ensures UtcDayWindow(at).start < UtcDayWindow(at).end
  {
  }

  /** The cost read, on any ledger: an exception, admission by the 28-digit sum, or a cost-limited row
      with what it found, which the database takes only if the exact sum exceeds the budget too. */
  lemma CostReadOutcome(config: Config, s: State, id: Uuid)
    requires config.Valid() && CallsAccepted(config, s) && id in s.calls && s.calls[id].phase.UsageAdmitted?
    ensures Enabled(config, s, ReadCost(id)) && id in Apply(config, s, ReadCost(id)).calls
    ensures var c, phase := s.calls[id], Apply(config, s, ReadCost(id)).calls[id].phase;
            var spent := Spent(s, c.command, c.startedAt);
            if c.command.tenantId !in config.budgets || spent < 0 then phase == Raised
            else
              var budget := config.budgets[c.command.tenantId];
              if RoundSignificant(28, spent + budget.allowance) <= budget.limit then phase == CostAdmitted(c.phase.decision)
              else if Strip(c.command.principalId) == "" then phase == Raised
              else
                && phase.Built?
                && var row := Store(phase.invocation);
                   && RecordsRequest(s, id, c.phase.decision.id, row) && RecordsCostRejection(config, s, c, row)
                   && (Insertable(row) <==>
                         && RequestStorable(s, c.command, c.startedAt) && spent + budget.allowance > budget.limit
                         && spent < Pow10(30) && budget.limit < Pow10(30))
  {
    hide Strip, CostLimited, Buildable, Concludes, Insertable, FitsColumnTypes, SatisfiesChecks, RequestFits, RecordsRequest,
      RequestStorable, Valid, Consumption, UtcDayWindow, Who, RoundSignificant, Pow10, Representable;
    var c, who, day := s.calls[id], Who(s, id, s.calls[id].phase.decision), UtcDayWindow(s.calls[id].startedAt);
    CostReadApplies(config, s, id);
    hide Apply, Enabled;
    BuildableIff(config, s, id, c.phase.decision);
    if c.command.tenantId in config.budgets {
      var spent, budget := Spent(s, c.command, c.startedAt), config.budgets[c.command.tenantId];
      CostLimitedIsBuiltIff(who, spent, budget.limit, budget.allowance, day.start, day.end);
      DayIsOrdered(c.startedAt);
      if Buildable(who) && spent >= 0 && RoundSignificant(28, spent + budget.allowance) > budget.limit {
        assert who.startedAt == c.startedAt by {
          WhoStarted(s, id, c.phase.decision);
        }
        CostLimitedRowsPersist(who, spent, budget, day);
        RequestIsRecorded(s, id, c.phase.decision,
                          CostLimited(who, spent, budget.limit, budget.allowance, day.start, day.end).value, COST_LIMITED);
      }
    }
    InsertableMeans();
  }

  /** Configured prices are within their columns. */
  ghost predicate PricesFit(config: Config) {
    forall reference :: reference in config.pricing ==>
      config.pricing[reference].FitsColumns() && |config.pricing[reference].version| <= 255
  }

  lemma PriceIsFound(config: Config, command: Command)
    ensures PricingFor(config, command).Some? <==> HasPrice(config, command.modelId)
    ensures HasPrice(config, command.modelId) ==>
              PricingFor(config, command) == Some(config.pricing[config.models[command.modelId].reference])
  {
  }

  /** What an attributed cost says in its columns. */
  lemma CostIsRecorded(config: Config, command: Command, usage: Option<InvocationUsage>, row: InvocationRow)
    requires config.Valid() && (usage.Some? ==> usage.value.Valid())
    requires AttributeCost(usage, PricingFor(config, command)).Success?
    requires row.modelId == command.modelId && row.cost == StoreCost(AttributeCost(usage, PricingFor(config, command)).value)
    requires row.inputUnits == (if usage.Some? then usage.value.inputUnits else None)
    requires row.outputUnits == (if usage.Some? then usage.value.outputUnits else None)
    ensures RecordsCost(config, row)
  {
    hide ComponentCost, RoundSignificant, NearestEven, Pow10;
    PriceIsFound(config, command);
    if HasPrice(config, row.modelId) && row.inputUnits.Some? && row.outputUnits.Some? {
      var price := config.pricing[config.models[row.modelId].reference];
      if price.FitsColumns() && row.inputUnits.value <= MAX_INT32 && row.outputUnits.value <= MAX_INT32 {
        PricedExactly(usage.value, price);
      }
    }
    hide PricingFor;
  }

  /** The total count plays no part in the price. */
  lemma PricedExactly(usage: InvocationUsage, price: PricingSnapshot)
    requires usage.Valid() && price.Valid() && price.FitsColumns()
    requires usage.inputUnits.Some? && usage.outputUnits.Some?
    requires usage.inputUnits.value <= MAX_INT32 && usage.outputUnits.value <= MAX_INT32
    ensures var r := AttributeCost(Some(usage), Some(price));
            && r.Success? && r.value.Some?
            && NearestEven(usage.inputUnits.value * price.inputRate, price.basisUnits, r.value.value.inputCost)
            && NearestEven(usage.outputUnits.value * price.outputRate, price.basisUnits, r.value.value.outputCost)
            && r.value.value.totalCost == r.value.value.inputCost + r.value.value.outputCost
  {
    hide ComponentCost, RoundSignificant, NearestEven, Pow10;
    var counts := usage.(totalUnits := None);
    AttributedCostIsExact(counts, price);
    assert AttributeCost(Some(usage), Some(price)) == AttributeCost(Some(counts), Some(price));
  }

  /** An answer that is built is recorded as it came and priced as its model is. */
  lemma AnswerIsRecorded(config: Config, s: State, id: Uuid, outputText: string, usage: Option<InvocationUsage>,
                         responseId: Option<string>)
    requires config.Valid() && id in s.calls && s.calls[id].phase.CostAdmitted?
    requires usage.Some? ==> usage.value.Valid()
    ensures var phase := AfterProvider(config, s, id, outputText, usage, responseId);
            && (phase.Raised? || phase.Built?)
            && (phase.Built? ==>
                  && Strip(s.calls[id].command.principalId) != "" && Strip(outputText) != ""
                  && ResponseIdValid(StripIfPresent(responseId))
                  && var row := Store(phase.invocation);
                     && RecordsRequest(s, id, s.calls[id].phase.decision.id, row)
                     && RecordsAnswer(row, outputText, usage, responseId) && RecordsCost(config, row))
  {
    hide Strip, Succeeded, Buildable, Concludes, RecordsRequest, Valid, Who, AttributeCost, PricingFor, RecordsCost;
    var who, pricing := Who(s, id, s.calls[id].phase.decision), PricingFor(config, s.calls[id].command);
    PricingIsValid(config, s.calls[id].command);
    var cost := AttributeCost(usage, pricing);
    if cost.Success? && (cost.value.Some? ==> cost.value.value.Valid()) {
      SucceededIsBuiltIff(who, outputText, usage, responseId, cost.value);
      BuildableIsNamed(s, id, s.calls[id].phase.decision);
      var r := Succeeded(who, outputText, usage, responseId, cost.value);
      if r.Success? {
        RequestIsRecorded(s, id, s.calls[id].phase.decision, r.value, SUCCEEDED);
        assert Store(r.value).modelId == s.calls[id].command.modelId by {
          ModelIsRecorded(s, id, s.calls[id].phase.decision.id, Store(r.value));
        }
        CostIsRecorded(config, s.calls[id].command, usage, Store(r.value));
      }
    }
  }

  lemma BuildableIsNamed(s: State, id: Uuid, decision: Policy.PolicyDecision)
    requires id in s.calls
    ensures Buildable(Who(s, id, decision)) ==> Strip(s.calls[id].command.principalId) != ""
  {
    hide Strip;
  }

  lemma ModelIsRecorded(s: State, id: Uuid, decisionId: Uuid, row: InvocationRow)
    requires id in s.calls && RecordsRequest(s, id, decisionId, row)
    ensures row.modelId == s.calls[id].command.modelId
  {
  }

  /** With int32 counts and prices within their columns nothing else can go wrong with an answer. */
  lemma FittingAnswersAreBuilt(config: Config, s: State, id: Uuid, outputText: string, usage: Option<InvocationUsage>,
                               responseId: Option<string>)
    requires config.Valid() && PricesFit(config) && CallsAccepted(config, s) && id in s.calls && s.calls[id].phase.CostAdmitted?
    requires Strip(s.calls[id].command.principalId) != ""
    requires Strip(outputText) != "" && ResponseIdValid(StripIfPresent(responseId))
    requires usage.Some? ==> usage.value.Valid() && usage.value.FitsColumns()
    ensures var phase := AfterProvider(config, s, id, outputText, usage, responseId);
            phase.Built? && (Insertable(Store(phase.invocation)) <==> RequestStorable(s, s.calls[id].command, s.calls[id].startedAt))
  {
    hide Strip, Succeeded, Buildable, Insertable, SatisfiesChecks, FitsColumnTypes, RequestFits, RequestStorable, Valid, Who,
      AttributeCost, PricingFor, ResponseIdValid;
    var who, pricing := Who(s, id, s.calls[id].phase.decision), PricingFor(config, s.calls[id].command);
    PriceIsFound(config, s.calls[id].command);
    PricingIsValid(config, s.calls[id].command);
    BuildableIff(config, s, id, s.calls[id].phase.decision);
    SucceededRowsPersist(who, outputText, usage, responseId, pricing);
    InsertableMeans();
  }

  lemma InsertedCountsFit(row: InvocationRow)
    requires Insertable(row)
    ensures row.inputUnits.Some? ==> row.inputUnits.value <= MAX_INT32
    ensures row.outputUnits.Some? ==> row.outputUnits.value <= MAX_INT32
    ensures row.totalUnits.Some? ==> row.totalUnits.value <= MAX_INT32
  {
    hide SatisfiesChecks, FitsCostColumns, FitsUsageEvidence, FitsCostEvidence, FitsText;
  }

  /** The answer: an exception, or a succeeded row that says what was answered and what it cost. Within
      the columns' ranges it becomes a stored row exactly when it has a text and a fitting identity. */
  lemma AnswerOutcome(config: Config, s: State, id: Uuid, outputText: string, usage: Option<InvocationUsage>,
                      responseId: Option<string>)
    requires config.Valid() && CallsAccepted(config, s) && id in s.calls && s.calls[id].phase.CostAdmitted?
    requires usage.Some? ==> usage.value.Valid()
    ensures var e := ProviderReturns(id, outputText, usage, responseId);
            Enabled(config, s, e) && id in Apply(config, s, e).calls
    ensures var c, phase := s.calls[id], Apply(config, s, ProviderReturns(id, outputText, usage, responseId)).calls[id].phase;
            && (phase == Raised || phase.Built?)
            && (phase.Built? ==>
                  var row := Store(phase.invocation);
                  && RecordsRequest(s, id, c.phase.decision.id, row)
                  && RecordsAnswer(row, outputText, usage, responseId) && RecordsCost(config, row))
            && (PricesFit(config) ==>
                  (phase.Built? && Insertable(Store(phase.invocation)) <==>
                     && Strip(c.command.principalId) != "" && Strip(outputText) != ""
                     && (responseId.Some? ==> 0 < |Strip(responseId.value)| <= 255)
                     && (usage.Some? ==> usage.value.FitsColumns()) && RequestStorable(s, c.command, c.startedAt)))
  {
    hide AfterProvider, RecordsRequest, RecordsCost, Strip, RequestStorable, Insertable, Store;
    AnswerApplies(config, s, id, outputText, usage, responseId);
    AnswerIsRecorded(config, s, id, outputText, usage, responseId);
    var c, phase := s.calls[id], AfterProvider(config, s, id, outputText, usage, responseId);
    assert ResponseIdValid(StripIfPresent(responseId)) <==> (responseId.Some? ==> 0 < |Strip(responseId.value)| <= 255);
    if phase.Built? && Insertable(Store(phase.invocation)) {
      InsertedCountsFit(Store(phase.invocation));
      if PricesFit(config) {
        FittingAnswersAreBuilt(config, s, id, outputText, usage, responseId);
      }
    }
    if && PricesFit(config) && Strip(c.command.principalId) != "" && Strip(outputText) != ""
       && ResponseIdValid(StripIfPresent(responseId)) && (usage.Some? ==> usage.value.FitsColumns()) {
      FittingAnswersAreBuilt(config, s, id, outputText, usage, responseId);
    }
    hide Apply, Enabled;
  }

  // The same as conditions on the tables, for a call that nobody disturbs

  /** The principal has a name, and the request fits its columns. */
  predicate Recordable(s: State, command: Command, at: int) {
    Strip(command.principalId) != "" && RequestStorable(s, command, at)
  }

  predicate Permitted(s: State, command: Command) {
    var key := Policy.PermissionKey(command.tenantId, command.agentId, command.modelId);
    key in s.permissions && s.permissions[key].effect == Policy.ALLOW
  }

  predicate UsageAdmits(s: State, command: Command, at: int) {
    && 0 < command.allowance <= command.usageLimit
    && 0 <= Units(s, command, at) <= command.usageLimit - command.allowance
  }

  predicate UsageRejects(s: State, command: Command, at: int) {
    && 0 < command.allowance <= command.usageLimit
    && 0 <= Units(s, command, at) && Units(s, command, at) > command.usageLimit - command.allowance
  }

  predicate UsageRejectionFits(s: State, command: Command, at: int) {
    Units(s, command, at) <= MAX_INT32 && command.usageLimit <= MAX_INT32
  }

  predicate CostAdmits(config: Config, s: State, command: Command, at: int)
    requires config.Valid()
  {
    && command.tenantId in config.budgets && 0 <= Spent(s, command, at)
    && RoundSignificant(28, Spent(s, command, at) + config.budgets[command.tenantId].allowance)
       <= config.budgets[command.tenantId].limit
  }

  predicate CostRejects(config: Config, s: State, command: Command, at: int)
    requires config.Valid()
  {
    && command.tenantId in config.budgets && 0 <= Spent(s, command, at)
    && RoundSignificant(28, Spent(s, command, at) + config.budgets[command.tenantId].allowance)
       > config.budgets[command.tenantId].limit
  }

  /** The database repeats the comparison exactly. */
  predicate CostRejectionFits(config: Config, s: State, command: Command, at: int) {
    && command.tenantId in config.budgets
    && Spent(s, command, at) + config.budgets[command.tenantId].allowance > config.budgets[command.tenantId].limit
    && Spent(s, command, at) < Pow10(30) && config.budgets[command.tenantId].limit < Pow10(30)
  }

  predicate AnswerFits(outputText: string, usage: Option<InvocationUsage>, responseId: Option<string>) {
    && Strip(outputText) != "" && (responseId.Some? ==> 0 < |Strip(responseId.value)| <= 255)
    && (usage.Some? ==> usage.value.FitsColumns())
  }

  /** The call has built a row that the database will take. */
  predicate Storing(phase: Phase) {
    phase.Built? && Insertable(Store(phase.invocation))
  }

  /** The conditions look at the ledger, the permissions and the clock alone. */
  lemma SameConditions(config: Config, s: State, t: State, command: Command, at: int)
    requires config.Valid() && t.ledger == s.ledger && t.now == s.now && t.permissions == s.permissions
    ensures Recordable(t, command, at) == Recordable(s, command, at) && Permitted(t, command) == Permitted(s, command)
    ensures UsageAdmits(t, command, at) == UsageAdmits(s, command, at)
    ensures UsageRejects(t, command, at) == UsageRejects(s, command, at)
    ensures UsageRejectionFits(t, command, at) == UsageRejectionFits(s, command, at)
    ensures CostAdmits(config, t, command, at) == CostAdmits(config, s, command, at)
    ensures CostRejects(config, t, command, at) == CostRejects(config, s, command, at)
    ensures CostRejectionFits(config, t, command, at) == CostRejectionFits(config, s, command, at)
  {
    hide Consumption, Strip, RoundSignificant, UtcDayWindow, Pow10;
  }

  lemma DenialDecides(config: Config, s: State, id: Uuid)
    requires config.Valid() && CallsAccepted(config, s) && id in s.calls && s.calls[id].phase.Decided?
    requires s.calls[id].phase.decision.effect != Policy.ALLOW
    ensures Storing(Build(Denied(Who(s, id, s.calls[id].phase.decision)))) <==>
            Recordable(s, s.calls[id].command, s.calls[id].startedAt)
  {
    hide Strip, Store, Insertable, RequestStorable, Build, RecordsRequest, RecordsDenial, CallsAccepted;
    DenialOutcome(config, s, id);
    DenialApplies(config, s, id);
    hide Apply, Enabled;
  }

  lemma TransportErrorDecides(config: Config, s: State, id: Uuid)
    requires config.Valid() && CallsAccepted(config, s) && id in s.calls && s.calls[id].phase.CostAdmitted?
    ensures Storing(Build(Failed(Who(s, id, s.calls[id].phase.decision)))) <==>
            Recordable(s, s.calls[id].command, s.calls[id].startedAt)
  {
    hide Strip, Store, Insertable, RequestStorable, Build, RecordsRequest, RecordsFailure, CallsAccepted;
    TransportErrorOutcome(config, s, id);
    TransportErrorApplies(config, s, id);
    hide Apply, Enabled;
  }

  lemma UsageReadDecides(config: Config, s: State, id: Uuid)
    requires config.Valid() && CallsAccepted(config, s) && id in s.calls && s.calls[id].phase.Decided?
    requires s.calls[id].phase.decision.effect == Policy.ALLOW
    ensures var command, at, phase := s.calls[id].command, s.calls[id].startedAt, AfterUsageRead(s, id);
            && (phase.UsageAdmitted? <==> UsageAdmits(s, command, at))
            && (Storing(phase) <==>
                  UsageRejects(s, command, at) && Recordable(s, command, at) && UsageRejectionFits(s, command, at))
  {
    hide Strip, Store, Insertable, RequestStorable, RecordsRequest, RecordsUsageRejection, CallsAccepted, AfterUsageRead, Units;
    UsageReadOutcome(config, s, id);
    UsageReadApplies(config, s, id);
    hide Apply, Enabled;
  }

  lemma CostReadDecides(config: Config, s: State, id: Uuid)
    requires config.Valid() && CallsAccepted(config, s) && id in s.calls && s.calls[id].phase.UsageAdmitted?
    ensures var command, at, phase := s.calls[id].command, s.calls[id].startedAt, AfterCostRead(config, s, id);
            && (phase.CostAdmitted? <==> CostAdmits(config, s, command, at))
            && (Storing(phase) <==>
                  CostRejects(config, s, command, at) && Recordable(s, command, at) && CostRejectionFits(config, s, command, at))
  {
    hide Strip, Store, Insertable, RequestStorable, RecordsRequest, RecordsCostRejection, CallsAccepted, AfterCostRead, Spent,
      RoundSignificant, Pow10;
    CostReadOutcome(config, s, id);
    CostReadApplies(config, s, id);
    hide Apply, Enabled;
  }

  lemma AnswerDecides(config: Config, s: State, id: Uuid, outputText: string, usage: Option<InvocationUsage>,
                      responseId: Option<string>)
    requires config.Valid() && PricesFit(config) && CallsAccepted(config, s)
    requires id in s.calls && s.calls[id].phase.CostAdmitted? && (usage.Some? ==> usage.value.Valid())
    ensures Storing(AfterProvider(config, s, id, outputText, usage, responseId)) <==>
            Recordable(s, s.calls[id].command, s.calls[id].startedAt) && AnswerFits(outputText, usage, responseId)
  {
    hide Strip, Store, Insertable, RequestStorable, RecordsRequest, RecordsAnswer, RecordsCost, CallsAccepted, AfterProvider;
    AnswerOutcome(config, s, id, outputText, usage, responseId);
    AnswerApplies(config, s, id, outputText, usage, responseId);
    hide Apply, Enabled;
  }

  // What each row of a run records

  /** This statement of the call, in this state, made it record this row. */
  ghost predicate ExplainedBy(config: Config, s: State, e: Event, id: Uuid, row: InvocationRow) {
    && id in s.calls && id in s.decisions && RecordsRequest(s, id, s.decisions[id].id, row)
    && var c := s.calls[id];
       match e
       case Deny(i) => i == id && RecordsDenial(row) && s.decisions[id].effect != Policy.ALLOW
       case ReadUsage(i) =>
         && i == id && RecordsUsageRejection(s, c, row)
         && Units(s, c.command, c.startedAt) >= 0 && 0 < c.command.allowance <= c.command.usageLimit
         && Units(s, c.command, c.startedAt) + c.command.allowance > c.command.usageLimit
       case ReadCost(i) =>
         && i == id && RecordsCostRejection(config, s, c, row) && Spent(s, c.command, c.startedAt) >= 0
         && var budget := config.budgets[c.command.tenantId];
            budget.Valid() && RoundSignificant(28, Spent(s, c.command, c.startedAt) + budget.allowance) > budget.limit
       case ProviderFails(i) => i == id && RecordsFailure(row)
       case ProviderReturns(i, outputText, usage, responseId) =>
         i == id && RecordsAnswer(row, outputText, usage, responseId) && RecordsCost(config, row)
       case _ => false
  }

  lemma BuildsAreExplained(config: Config, s: State, e: Event, id: Uuid)
    requires config.Valid() && Enabled(config, s, e) && CallsOk(s) && CallsAccepted(config, s)
    requires id in Apply(config, s, e).calls && Apply(config, s, e).calls[id].phase.Built?
    ensures var phase := Apply(config, s, e).calls[id].phase;
            (id in s.calls && s.calls[id].phase == phase) || ExplainedBy(config, s, e, id, Store(phase.invocation))
  {
    hide Apply, RecordsRequest, RecordsDenial, RecordsFailure, RecordsUsageRejection, RecordsCostRejection, RecordsAnswer,
      RecordsCost, Units, Spent, RoundSignificant, Strip, Store, Insertable, RequestStorable, Pow10, CallsAccepted, Accepts, CallOk;
    if id in s.calls && Apply(config, s, e).calls[id].phase == s.calls[id].phase {
    } else {
      BuildingSteps(config, s, e, id);
      DecisionIsRecorded(s, id);
      match e
      case Deny(_) => DenialOutcome(config, s, id);
      case ReadUsage(_) => UsageReadOutcome(config, s, id);
      case ReadCost(_) => CostReadOutcome(config, s, id);
      case ProviderFails(_) => TransportErrorOutcome(config, s, id);
      case ProviderReturns(_, outputText, usage, responseId) => AnswerOutcome(config, s, id, outputText, usage, responseId);
    }
  }

  lemma BuildingSteps(config: Config, s: State, e: Event, id: Uuid)
    requires config.Valid() && Enabled(config, s, e) && id in Apply(config, s, e).calls
    requires Apply(config, s, e).calls[id].phase.Built?
    requires !(id in s.calls && Apply(config, s, e).calls[id].phase == s.calls[id].phase)
    ensures (e.Deny? || e.ReadUsage? || e.ReadCost? || e.ProviderFails? || e.ProviderReturns?) && e.id == id && id in s.calls
  {
    hide AfterUsageRead, AfterCostRead, AfterProvider, Denied, Failed, Build, Store, Insertable, Accepts;
  }

  lemma DecisionIsRecorded(s: State, id: Uuid)
    requires CallsOk(s) && id in s.calls
    ensures s.calls[id].phase.Decided? || s.calls[id].phase.UsageAdmitted? || s.calls[id].phase.CostAdmitted? ==>
              id in s.decisions && s.decisions[id] == s.calls[id].phase.decision
  {
    hide Valid;
    assert CallOk(s, id);
  }

  /** Some earlier statement of its own call explains the row. */
  ghost predicate Explained(config: Config, run: seq<State>, events: seq<Event>, i: nat, id: Uuid, row: InvocationRow)
    requires |run| == |events| + 1 && i < |run|
  {
    exists n :: 0 <= n < i && ExplainedBy(config, run[n], events[n], id, row)
  }

  ghost predicate AllExplained(config: Config, run: seq<State>, events: seq<Event>, i: nat)
    requires |run| == |events| + 1 && i < |run|
  {
    && |run[0].ledger| <= |run[i].ledger|
    && (forall id :: id in run[i].calls && run[i].calls[id].phase.Built? ==>
          Explained(config, run, events, i, id, Store(run[i].calls[id].phase.invocation)))
    && (forall r :: |run[0].ledger| <= r < |run[i].ledger| ==>
          && Explained(config, run, events, i, run[i].ledger[r].id, run[i].ledger[r])
          && Insertable(run[i].ledger[r]))
  }

  lemma ExplainedLater(config: Config, run: seq<State>, events: seq<Event>, i: nat, id: Uuid, row: InvocationRow)
    requires |run| == |events| + 1 && i < |events|
    ensures Explained(config, run, events, i, id, row) ==> Explained(config, run, events, i + 1, id, row)
    ensures ExplainedBy(config, run[i], events[i], id, row) ==> Explained(config, run, events, i + 1, id, row)
  {
    hide ExplainedBy;
  }

  /** A step adds a row only by persisting what its call built. */
  lemma RowsArePersisted(config: Config, s: State, e: Event)
    requires config.Valid() && Enabled(config, s, e) && CallsOk(s)
    ensures var t := Apply(config, s, e);
            || t.ledger == s.ledger
            || (&& e.Persist? && e.id in s.calls && s.calls[e.id].phase.Built?
                && t.ledger == s.ledger + [Store(s.calls[e.id].phase.invocation)]
                && Store(s.calls[e.id].phase.invocation).id == e.id && Insertable(Store(s.calls[e.id].phase.invocation)))
  {
    hide AfterUsageRead, AfterCostRead, AfterProvider, Denied, Failed, Insertable, Accepts, Valid;
    if e.Persist? {
      assert CallOk(s, e.id);
    }
  }

  lemma StepKeepsExplained(config: Config, run: seq<State>, events: seq<Event>, i: nat)
    requires IsRun(config, run, events) && i < |events| && CallsOk(run[i]) && CallsAccepted(config, run[i])
    requires AllExplained(config, run, events, i)
    ensures AllExplained(config, run, events, i + 1)
  {
    hide Apply, Enabled, CallsOk, CallsAccepted, Explained, ExplainedBy, Store, Insertable;
    RunStep(config, run, events, i);
    var s, t := run[i], run[i + 1];
    RowsArePersisted(config, s, events[i]);
    forall id | id in t.calls && t.calls[id].phase.Built?
      ensures Explained(config, run, events, i + 1, id, Store(t.calls[id].phase.invocation))
    {
      BuildsAreExplained(config, s, events[i], id);
      ExplainedLater(config, run, events, i, id, Store(t.calls[id].phase.invocation));
    }
    forall r | |run[0].ledger| <= r < |t.ledger|
      ensures Explained(config, run, events, i + 1, t.ledger[r].id, t.ledger[r]) && Insertable(t.ledger[r])
    {
      ExplainedLater(config, run, events, i, t.ledger[r].id, t.ledger[r]);
      if r < |s.ledger| {
        assert s.ledger[r] == t.ledger[r];
      }
    }
  }

  lemma NothingToExplain(config: Config, run: seq<State>, events: seq<Event>)
    requires |run| == |events| + 1 && Initial(run[0])
    ensures AllExplained(config, run, events, 0)
  {
    hide ExplainedBy, Store, Insertable;
  }

  lemma {:induction false} RunKeepsExplained(config: Config, run: seq<State>, events: seq<Event>, i: nat)
    requires IsRun(config, run, events) && Initial(run[0]) && i < |run|
    ensures AllExplained(config, run, events, i)
  {
    hide Apply, Enabled, AllExplained, CallsOk, CallsAccepted, Initial;
    if i == 0 {
      NothingToExplain(config, run, events);
    } else {
      RunKeepsExplained(config, run, events, i - 1);
      RunKeepsCallsOk(config, run, events, i - 1);
      RunKeepsCallsAccepted(config, run, events, i - 1);
      StepKeepsExplained(config, run, events, i - 1);
    }
  }

  /** In every interleaving each appended row records its own call's request, and what the one statement
      that concluded the call found: a limited row the reading of its own usage gate, a cost-limited row
      that of its own cost gate, a succeeded row the answer to its own provider call and its price. */
  lemma RowsAreExplained(config: Config, run: seq<State>, events: seq<Event>, i: nat, r: nat) returns (n: nat)
    requires IsRun(config, run, events) && Initial(run[0]) && i < |run|
    requires |run[0].ledger| <= r < |run[i].ledger|
    ensures n < i && ExplainedBy(config, run[n], events[n], run[i].ledger[r].id, run[i].ledger[r])
  {
    hide Apply, Enabled, ExplainedBy;
    RunKeepsExplained(config, run, events, i);
    var row := run[i].ledger[r];
    assert Explained(config, run, events, i, row.id, row);
    n :| 0 <= n < i && ExplainedBy(config, run[n], events[n], row.id, row);
  }

  /** In every interleaving a limited row carries what its own usage read found, and that exceeds the limit. */
  lemma LimitedRowsCarryTheirReading(config: Config, run: seq<State>, events: seq<Event>, i: nat, r: nat) returns (n: nat)
    requires IsRun(config, run, events) && Initial(run[0]) && i < |run|
    requires |run[0].ledger| <= r < |run[i].ledger| && run[i].ledger[r].status == LIMITED
    ensures var row := run[i].ledger[r];
            && n < i && events[n] == ReadUsage(row.id) && row.id in run[n].calls
            && var command, day := run[n].calls[row.id].command, UtcDayWindow(row.startedAt);
               var known := Consumption(UsageMeter(command.principalId, day), run[n].ledger);
               && row.runtimePrincipalId == Some(command.principalId)
               && 0 <= known && 0 < command.allowance <= command.usageLimit < known + command.allowance
               && row.usageEvidence == LimitEvidence(Some(known), Some(command.usageLimit), Some(command.allowance),
                                                     Some(day.start), Some(day.end))
               && row.costEvidence == LimitEvidence(None, None, None, None, None)
  {
    hide Apply, Enabled, Consumption, UtcDayWindow, ExplainedBy, Initial;
    assert |run| == |events| + 1;
    hide IsRun;
    n := RowsAreExplained(config, run, events, i, r);
    ExplainedLimit(config, run[n], events[n], run[i].ledger[r]);
  }

  lemma ExplainedLimit(config: Config, s: State, e: Event, row: InvocationRow)
    requires ExplainedBy(config, s, e, row.id, row) && row.status == LIMITED
    ensures e == ReadUsage(row.id) && row.id in s.calls
    ensures var command, day := s.calls[row.id].command, UtcDayWindow(row.startedAt);
            var known := Consumption(UsageMeter(command.principalId, day), s.ledger);
            && row.runtimePrincipalId == Some(command.principalId)
            && 0 <= known && 0 < command.allowance <= command.usageLimit < known + command.allowance
            && row.usageEvidence == LimitEvidence(Some(known), Some(command.usageLimit), Some(command.allowance),
                                                  Some(day.start), Some(day.end))
            && row.costEvidence == LimitEvidence(None, None, None, None, None)
  {
    hide Consumption, UtcDayWindow, RecordsCost, Strip, RoundSignificant;
  }

  /** A cost-limited row carries what its own cost read found, and the 28-digit sum exceeds the budget. */
  lemma CostLimitedRowsCarryTheirReading(config: Config, run: seq<State>, events: seq<Event>, i: nat, r: nat) returns (n: nat)
    requires IsRun(config, run, events) && Initial(run[0]) && i < |run|
    requires |run[0].ledger| <= r < |run[i].ledger| && run[i].ledger[r].status == COST_LIMITED
    ensures var row := run[i].ledger[r];
            && n < i && events[n] == ReadCost(row.id) && row.tenantId in config.budgets && config.budgets[row.tenantId].Valid()
            && var budget, day := config.budgets[row.tenantId], UtcDayWindow(row.startedAt);
               var spent := Consumption(CostMeter(row.tenantId, day), run[n].ledger);
               && 0 <= spent && RoundSignificant(28, spent + budget.allowance) > budget.limit
               && row.costEvidence == LimitEvidence(Some(spent), Some(budget.limit), Some(budget.allowance),
                                                    Some(day.start), Some(day.end))
               && row.usageEvidence == LimitEvidence(None, None, None, None, None)
  {
    hide Apply, Enabled, Consumption, UtcDayWindow, ExplainedBy, Initial, RoundSignificant;
    assert |run| == |events| + 1;
    hide IsRun;
    n := RowsAreExplained(config, run, events, i, r);
    ExplainedCostLimit(config, run[n], events[n], run[i].ledger[r]);
  }

  lemma ExplainedCostLimit(config: Config, s: State, e: Event, row: InvocationRow)
    requires ExplainedBy(config, s, e, row.id, row) && row.status == COST_LIMITED
    ensures e == ReadCost(row.id) && row.tenantId in config.budgets && config.budgets[row.tenantId].Valid()
    ensures var budget, day := config.budgets[row.tenantId], UtcDayWindow(row.startedAt);
            var spent := Consumption(CostMeter(row.tenantId, day), s.ledger);
            && 0 <= spent && RoundSignificant(28, spent + budget.allowance) > budget.limit
            && row.costEvidence == LimitEvidence(Some(spent), Some(budget.limit), Some(budget.allowance),
                                                 Some(day.start), Some(day.end))
            && row.usageEvidence == LimitEvidence(None, None, None, None, None)
  {
    hide Consumption, UtcDayWindow, RecordsCost, Strip, RoundSignificant;
  }

  /** In every interleaving a succeeded row has a cost if and only if both its counts are known and its
      model's provider reference has a configured price; each component is the count at that price's
      rate rounded once, the total their exact sum. */
  lemma SucceededRowsArePriced(config: Config, run: seq<State>, events: seq<Event>, i: nat, r: nat)
    requires IsRun(config, run, events) && Initial(run[0]) && i < |run|
    requires |run[0].ledger| <= r < |run[i].ledger| && run[i].ledger[r].status == SUCCEEDED
    ensures run[i].ledger[r].modelId in config.models
    ensures var row := run[i].ledger[r];
            var reference := config.models[row.modelId].reference;
            && (row.cost.total.Some? <==> row.inputUnits.Some? && row.outputUnits.Some? && reference in config.pricing)
            && (row.cost.total.Some? && config.pricing[reference].FitsColumns() ==>
                  var price := config.pricing[reference];
                  && row.cost.input.Some? && row.cost.output.Some?
                  && NearestEven(row.inputUnits.value * price.inputRate, price.basisUnits, row.cost.input.value)
                  && NearestEven(row.outputUnits.value * price.outputRate, price.basisUnits, row.cost.output.value)
                  && row.cost.total.value == row.cost.input.value + row.cost.output.value
                  && row.cost.currency == Some("USD") && row.cost.pricingVersion == Some(price.version)
                  && row.cost.basisUnits == Some(price.basisUnits)
                  && row.cost.inputRate == Some(price.inputRate) && row.cost.outputRate == Some(price.outputRate))
  {
    hide Apply, Enabled, Insertable, NearestEven, Pow10, ExplainedBy, CallsAccepted, Accepts, Initial;
    var row := run[i].ledger[r];
    var n := RowsAreExplained(config, run, events, i, r);
    RunKeepsExplained(config, run, events, i);
    RunKeepsCallsAccepted(config, run, events, n);
    RunStep(config, run, events, n);
    hide IsRun;
    ExplainedSuccess(config, run[n], events[n], row);
    assert row.modelId in config.models && RecordsCost(config, row) && CountsAreValid(row);
    InsertedCountsFit(row);
  }

  predicate CountsAreValid(row: InvocationRow) {
    (row.inputUnits.Some? ==> row.inputUnits.value >= 0) && (row.outputUnits.Some? ==> row.outputUnits.value >= 0)
  }

  lemma ExplainedSuccess(config: Config, s: State, e: Event, row: InvocationRow)
    requires config.Valid() && CallsAccepted(config, s) && ExplainedBy(config, s, e, row.id, row) && row.status == SUCCEEDED
    requires Enabled(config, s, e)
    ensures row.modelId in config.models && RecordsCost(config, row) && CountsAreValid(row)
  {
    hide NearestEven, Strip, RecordsCost;
  }
}
