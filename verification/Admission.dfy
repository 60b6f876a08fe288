/**
 Invocation admission as a state machine: any number of calls interleave, one awaited statement
 at a time, a write and its commit together, over the permission, decision and invocation tables.
 No lock is held between statements, and the provider may answer at any later moment.
 */
module Admission {
  import opened Wrappers
  import opened Uuids
  import opened UsageLimit
  import opened CostBudget
  import opened Cost
  import opened Invocations
  import opened InvocationRows
  import Policy = PolicyRisk

  datatype ModelReference = ModelReference(tenantId: Uuid, provider: string, reference: string)

  datatype Config = Config(
    tenants: set<Uuid>,
    agents: map<Uuid, Uuid>,
    models: map<Uuid, ModelReference>,
    budgets: map<Uuid, TenantCostBudget>,
    pricing: map<string, PricingSnapshot>)
  {
    predicate Valid() {
      && (forall t :: t in budgets ==> budgets[t].Valid())
      && (forall m :: m in pricing ==> pricing[m].Valid())
    }
  }

  datatype Command = Command(
    principalId: string, tenantId: Uuid, agentId: Uuid, modelId: Uuid, inputText: string, usageLimit: int, allowance: int)
  {
    function Key(): Policy.PermissionKey {
      Policy.PermissionKey(tenantId, agentId, modelId)
    }
  }

  datatype Phase =
    | Accepted
    | PermissionRead(permission: Option<Policy.AgentModelPermission>)
    | Decided(decision: Policy.PolicyDecision)
    | UsageAdmitted(decision: Policy.PolicyDecision)
    | CostAdmitted(decision: Policy.PolicyDecision)
    | Built(invocation: Invocation)
    | Returned
    | Raised

  datatype Call = Call(command: Command, startedAt: int, phase: Phase)

  datatype ProviderCall = ProviderCall(invocationId: Uuid, failed: bool)

  datatype State = State(
    now: int,
    permissions: map<Policy.PermissionKey, Policy.AgentModelPermission>,
    decisions: map<Uuid, Policy.PolicyDecision>,
    ledger: seq<InvocationRow>,
    providerLog: seq<ProviderCall>,
    calls: map<Uuid, Call>)

  datatype Event =
    | Tick(now: int)
    | SetPermission(permission: Policy.AgentModelPermission)
    | Accept(id: Uuid, command: Command)
    | ReadPermission(id: Uuid)
    | CommitDecision(id: Uuid, decisionId: Uuid)
    | Deny(id: Uuid)
    | ReadUsage(id: Uuid)
    | ReadCost(id: Uuid)
    | ProviderReturns(id: Uuid, outputText: string, usage: Option<InvocationUsage>, responseId: Option<string>)
    | ProviderFails(id: Uuid)
    | Persist(id: Uuid)
    | Fail(id: Uuid)

  /** The checks that precede the invocation identity: input, Tenant, Agent, Model, provider. */
  predicate Accepts(config: Config, command: Command) {
    && ValidatedInput(command.inputText).Success?
    && command.tenantId in config.tenants
    && command.agentId in config.agents && config.agents[command.agentId] == command.tenantId
    && command.modelId in config.models && config.models[command.modelId].tenantId == command.tenantId
    && config.models[command.modelId].provider == "openai"
  }

  // The two ledger reads, as sums over the rows of one identity in one half-open window

  datatype Meter = UsageMeter(principalId: string, window: UsageWindow) | CostMeter(tenantId: Uuid, window: UsageWindow)

  function Reading(meter: Meter, row: InvocationRow): int {
    match meter
    case UsageMeter(principalId, window) =>
      if row.runtimePrincipalId == Some(principalId) && window.Contains(row.startedAt) && row.totalUnits.Some? then
        row.totalUnits.value
      else 0
    case CostMeter(tenantId, window) =>
      if row.tenantId == tenantId && window.Contains(row.startedAt) && row.cost.total.Some? then
        row.cost.total.value
      else 0
  }

  function Consumption(meter: Meter, ledger: seq<InvocationRow>): int {
    if ledger == [] then 0 else Consumption(meter, ledger[..|ledger| - 1]) + Reading(meter, ledger[|ledger| - 1])
  }

  // Events

  predicate Enabled(config: Config, s: State, e: Event) {
    match e
    case Tick(now) => now >= s.now
    case SetPermission(permission) => true
    case Accept(id, command) => id !in s.calls && id !in s.decisions && Accepts(config, command)
    case ReadPermission(id) => id in s.calls && s.calls[id].phase.Accepted?
    case CommitDecision(id, decisionId) =>
      && id in s.calls && s.calls[id].phase.PermissionRead?
      && (forall other :: other in s.decisions ==> s.decisions[other].id != decisionId)
    case Deny(id) => id in s.calls && s.calls[id].phase.Decided? && s.calls[id].phase.decision.effect != Policy.ALLOW
    case ReadUsage(id) => id in s.calls && s.calls[id].phase.Decided? && s.calls[id].phase.decision.effect == Policy.ALLOW
    case ReadCost(id) => id in s.calls && s.calls[id].phase.UsageAdmitted?
    case ProviderReturns(id, outputText, usage, responseId) =>
      id in s.calls && s.calls[id].phase.CostAdmitted? && (usage.Some? ==> usage.value.Valid())
    case ProviderFails(id) => id in s.calls && s.calls[id].phase.CostAdmitted?
    case Persist(id) =>
      id in s.calls && s.calls[id].phase.Built? && Insertable(Store(s.calls[id].phase.invocation))
    case Fail(id) => id in s.calls && !s.calls[id].phase.Returned? && !s.calls[id].phase.Raised?
  }

  function Move(s: State, id: Uuid, phase: Phase): State
    requires id in s.calls
  {
    s.(calls := s.calls[id := s.calls[id].(phase := phase)])
  }

  /** A construction error is raised to the caller; nothing is stored. */
  function Build(r: Result<Invocation, InvocationError>): Phase {
    match r
    case Success(v) => Built(v)
    case Failure(_) => Raised
  }

  function Who(s: State, id: Uuid, decision: Policy.PolicyDecision): Identity
    requires id in s.calls
  {
    var c := s.calls[id];
    Identity(id, c.command.tenantId, c.command.agentId, c.command.modelId, c.command.inputText,
             c.startedAt, s.now, decision.id, c.command.principalId)
  }

  function AfterUsageRead(s: State, id: Uuid): Phase
    requires id in s.calls && s.calls[id].phase.Decided?
  {
    var c := s.calls[id];
    var decision := c.phase.decision;
    var window := UtcDayWindow(c.startedAt);
    var consumed := Consumption(UsageMeter(c.command.principalId, window), s.ledger);
    match DecideUsageLimit(consumed, c.command.usageLimit, c.command.allowance, window)
    case Failure(_) => Raised
    case Success(d) =>
      if d.allowed then UsageAdmitted(decision)
      else Build(Limited(Who(s, id, decision), d.consumedUnits, d.limitUnits, d.allowanceUnits, window.start, window.end))
  }

  function AfterCostRead(config: Config, s: State, id: Uuid): Phase
    requires config.Valid() && id in s.calls && s.calls[id].phase.UsageAdmitted?
  {
    var c := s.calls[id];
    var decision := c.phase.decision;
    var window := UtcDayWindow(c.startedAt);
    if c.command.tenantId !in config.budgets then Raised
    else
      var budget := config.budgets[c.command.tenantId];
      var attributed := Consumption(CostMeter(c.command.tenantId, window), s.ledger);
      match DecideTenantCostBudget(attributed, budget, window)
      case Failure(_) => Raised
      case Success(d) =>
        if d.allowed then CostAdmitted(decision)
        else Build(CostLimited(Who(s, id, decision), d.attributedCost, d.budget, d.allowance, window.start, window.end))
  }

  function PricingFor(config: Config, command: Command): Option<PricingSnapshot> {
    if command.modelId in config.models && config.models[command.modelId].reference in config.pricing then
      Some(config.pricing[config.models[command.modelId].reference])
    else None
  }

  lemma PricingIsValid(config: Config, command: Command)
    requires config.Valid()
    ensures PricingFor(config, command).Some? ==> PricingFor(config, command).value.Valid()
  {
  }

  function AfterProvider(config: Config, s: State, id: Uuid, outputText: string, usage: Option<InvocationUsage>,
                         responseId: Option<string>): Phase
    requires config.Valid() && id in s.calls && s.calls[id].phase.CostAdmitted?
    requires usage.Some? ==> usage.value.Valid()
  {
    match AttributeCost(usage, PricingFor(config, s.calls[id].command))
    case Failure(_) => Raised
    case Success(cost) =>
      if cost.Some? && !cost.value.Valid() then Raised
      else Build(Succeeded(Who(s, id, s.calls[id].phase.decision), outputText, usage, responseId, cost))
  }

  function Apply(config: Config, s: State, e: Event): State
    requires config.Valid() && Enabled(config, s, e)
  {
    match e
    case Tick(now) => s.(now := now)
    case SetPermission(permission) => s.(permissions := s.permissions[permission.key := permission])
    case Accept(id, command) => s.(calls := s.calls[id := Call(command, s.now, Accepted)])
    case ReadPermission(id) =>
      var key := s.calls[id].command.Key();
      Move(s, id, PermissionRead(if key in s.permissions then Some(s.permissions[key]) else None))
    case CommitDecision(id, decisionId) =>
      var c := s.calls[id];
      var decision := Policy.Decide(c.phase.permission, decisionId, id, c.command.Key(), s.now);
      Move(s.(decisions := s.decisions[id := decision]), id, Decided(decision))
    case Deny(id) => Move(s, id, Build(Denied(Who(s, id, s.calls[id].phase.decision))))
    case ReadUsage(id) => Move(s, id, AfterUsageRead(s, id))
    case ReadCost(id) => Move(s, id, AfterCostRead(config, s, id))
    case ProviderReturns(id, outputText, usage, responseId) =>
      Move(s.(providerLog := s.providerLog + [ProviderCall(id, false)]), id,
           AfterProvider(config, s, id, outputText, usage, responseId))
    case ProviderFails(id) =>
      Move(s.(providerLog := s.providerLog + [ProviderCall(id, true)]), id,
           Build(Failed(Who(s, id, s.calls[id].phase.decision))))
    case Persist(id) => Move(s.(ledger := s.ledger + [Store(s.calls[id].phase.invocation)]), id, Returned)
    case Fail(id) => Move(s, id, Raised)
  }

  /** A run: every event is enabled where it happens and leads to the next state. */
  ghost predicate IsRun(config: Config, run: seq<State>, events: seq<Event>) {
    && config.Valid()
    && |run| == |events| + 1
    && forall i :: 0 <= i < |events| ==> Enabled(config, run[i], events[i]) && run[i + 1] == Apply(config, run[i], events[i])
  }

  lemma RunStep(config: Config, run: seq<State>, events: seq<Event>, i: nat)
    requires IsRun(config, run, events) && i < |events|
    ensures Enabled(config, run[i], events[i]) && run[i + 1] == Apply(config, run[i], events[i])
  {
    hide Apply, Enabled;
  }

  lemma RunExtends(config: Config, run: seq<State>, events: seq<Event>, e: Event, t: State)
    requires IsRun(config, run, events) && Enabled(config, run[|run| - 1], e)
    requires t == Apply(config, run[|run| - 1], e)
    ensures IsRun(config, run + [t], events + [e])
  {
    hide Apply, Enabled;
    var longer, more := run + [t], events + [e];
    forall i | 0 <= i < |more|
      ensures Enabled(config, longer[i], more[i]) && longer[i + 1] == Apply(config, longer[i], more[i])
    {
      if i < |events| {
        RunStep(config, run, events, i);
      }
    }
  }

  // What the statements with a computed outcome do to the state

  lemma UsageReadApplies(config: Config, s: State, id: Uuid)
    requires config.Valid() && id in s.calls && s.calls[id].phase.Decided?
    requires s.calls[id].phase.decision.effect == Policy.ALLOW
    ensures && Enabled(config, s, ReadUsage(id))
            && Apply(config, s, ReadUsage(id)) ==
               s.(calls := s.calls[id := s.calls[id].(phase := AfterUsageRead(s, id))])
  {
    hide AfterUsageRead;
  }

  lemma CostReadApplies(config: Config, s: State, id: Uuid)
    requires config.Valid() && id in s.calls && s.calls[id].phase.UsageAdmitted?
    ensures && Enabled(config, s, ReadCost(id))
            && Apply(config, s, ReadCost(id)) ==
               s.(calls := s.calls[id := s.calls[id].(phase := AfterCostRead(config, s, id))])
  {
    hide AfterCostRead;
  }

  lemma TransportErrorApplies(config: Config, s: State, id: Uuid)
    requires config.Valid() && id in s.calls && s.calls[id].phase.CostAdmitted?
    ensures && Enabled(config, s, ProviderFails(id))
            && Apply(config, s, ProviderFails(id)) ==
               s.(providerLog := s.providerLog + [ProviderCall(id, true)],
                  calls := s.calls[id := s.calls[id].(phase := Build(Failed(Who(s, id, s.calls[id].phase.decision))))])
  {
    hide Failed, Build;
  }

  lemma DenialApplies(config: Config, s: State, id: Uuid)
    requires config.Valid() && id in s.calls && s.calls[id].phase.Decided?
    requires s.calls[id].phase.decision.effect != Policy.ALLOW
    ensures && Enabled(config, s, Deny(id))
            && Apply(config, s, Deny(id)) ==
               s.(calls := s.calls[id := s.calls[id].(phase := Build(Denied(Who(s, id, s.calls[id].phase.decision))))])
  {
    hide Denied, Build;
  }

  lemma PersistApplies(config: Config, s: State, id: Uuid)
    requires config.Valid() && id in s.calls && s.calls[id].phase.Built?
    ensures var row := Store(s.calls[id].phase.invocation);
            if Insertable(row) then
              && Enabled(config, s, Persist(id))
              && Apply(config, s, Persist(id)) ==
                 s.(ledger := s.ledger + [row], calls := s.calls[id := s.calls[id].(phase := Returned)])
            else
              && Enabled(config, s, Fail(id))
              && Apply(config, s, Fail(id)) == s.(calls := s.calls[id := s.calls[id].(phase := Raised)])
  {
    hide Insertable, Store;
  }

  lemma AnswerApplies(config: Config, s: State, id: Uuid, outputText: string, usage: Option<InvocationUsage>,
                      responseId: Option<string>)
    requires config.Valid() && id in s.calls && s.calls[id].phase.CostAdmitted? && (usage.Some? ==> usage.value.Valid())
    ensures var e := ProviderReturns(id, outputText, usage, responseId);
            && Enabled(config, s, e)
            && Apply(config, s, e) ==
               s.(providerLog := s.providerLog + [ProviderCall(id, false)],
                  calls := s.calls[id := s.calls[id].(phase := AfterProvider(config, s, id, outputText, usage, responseId))])
  {
    hide AfterProvider;
  }

  /** No calls yet; permissions sit under their own keys. Earlier rows may be in the ledger. */
  predicate Initial(s: State) {
    && s.calls == map[] && s.decisions == map[] && s.providerLog == []
    && (forall key :: key in s.permissions ==> s.permissions[key].key == key)
  }

  // What every reachable state keeps about each call

  /** The decision on record for this call is the one it carries. */
  predicate Recorded(s: State, id: Uuid, decision: Policy.PolicyDecision)
    requires id in s.calls
  {
    && id in s.decisions && s.decisions[id] == decision
    && decision.invocationId == id && decision.key == s.calls[id].command.Key()
  }

  predicate BuiltFor(s: State, id: Uuid, v: Invocation)
    requires id in s.calls
  {
    var c := s.calls[id];
    && id in s.decisions && Recorded(s, id, s.decisions[id])
    && v.who.id == id && v.who.tenantId == c.command.tenantId && v.who.agentId == c.command.agentId
    && v.who.modelId == c.command.modelId && v.who.runtimePrincipalId == c.command.principalId
    && v.who.startedAt == c.startedAt && v.who.policyDecisionId == s.decisions[id].id
    && (v.status == DENIED <==> s.decisions[id].effect != Policy.ALLOW)
    && (v.status != SUCCEEDED ==> WithoutUsage(v))
    && Valid(v)
  }

  predicate CallOk(s: State, id: Uuid)
    requires id in s.calls
  {
    match s.calls[id].phase
    case Accepted => id !in s.decisions
    case PermissionRead(permission) =>
      id !in s.decisions && (permission.Some? ==> permission.value.key == s.calls[id].command.Key())
    case Decided(decision) => Recorded(s, id, decision)
    case UsageAdmitted(decision) => Recorded(s, id, decision) && decision.effect == Policy.ALLOW
    case CostAdmitted(decision) => Recorded(s, id, decision) && decision.effect == Policy.ALLOW
    case Built(v) => BuiltFor(s, id, v)
    case Returned => true
    case Raised => true
  }

  ghost predicate CallsOk(s: State) {
    && (forall id :: id in s.calls ==> CallOk(s, id))
    && (forall id :: id in s.decisions ==> id in s.calls)
    && (forall key :: key in s.permissions ==> s.permissions[key].key == key)
  }

  /** The phase a call moves to is justified by what it read, and the records it left. */
  lemma MoveKeepsCallsOk(s: State, t: State, id: Uuid)
    requires CallsOk(s) && id in s.calls && t.calls.Keys == s.calls.Keys
    requires forall other :: other in s.calls && other != id ==> t.calls[other] == s.calls[other]
    requires t.permissions == s.permissions && s.decisions.Keys <= t.decisions.Keys <= s.decisions.Keys + {id}
    requires forall other :: other in s.decisions ==> t.decisions[other] == s.decisions[other]
    requires CallOk(t, id)
    ensures CallsOk(t)
  {
    forall other | other in t.calls
      ensures CallOk(t, other)
    {
      if other != id {
        assert CallOk(s, other);
      }
    }
  }

  lemma ReadUsageOk(s: State, id: Uuid)
    requires CallsOk(s) && id in s.calls && s.calls[id].phase.Decided?
    requires s.calls[id].phase.decision.effect == Policy.ALLOW
    ensures CallOk(Move(s, id, AfterUsageRead(s, id)), id)
  {
    hide Limited, UtcDayWindow, Consumption, Valid;
    assert CallOk(s, id);
  }

  lemma ReadCostOk(config: Config, s: State, id: Uuid)
    requires config.Valid() && CallsOk(s) && id in s.calls && s.calls[id].phase.UsageAdmitted?
    ensures CallOk(Move(s, id, AfterCostRead(config, s, id)), id)
  {
    hide CostLimited, UtcDayWindow, Consumption, Valid, DecideTenantCostBudget;
    assert CallOk(s, id);
  }

  lemma ProviderReturnsOk(config: Config, s: State, id: Uuid, outputText: string, usage: Option<InvocationUsage>,
                          responseId: Option<string>)
    requires config.Valid() && CallsOk(s) && id in s.calls && s.calls[id].phase.CostAdmitted?
    requires usage.Some? ==> usage.value.Valid()
    ensures CallOk(Move(s, id, AfterProvider(config, s, id, outputText, usage, responseId)), id)
  {
    hide Succeeded, AttributeCost, PricingFor, Valid;
    assert CallOk(s, id);
  }

  lemma EnvironmentKeepsCallsOk(config: Config, s: State, e: Event)
    requires config.Valid() && CallsOk(s) && Enabled(config, s, e)
    requires e.Tick? || e.SetPermission? || e.Accept?
    ensures CallsOk(Apply(config, s, e))
  {
    var t := Apply(config, s, e);
    forall id | id in t.calls
      ensures CallOk(t, id)
    {
      if id in s.calls {
        assert CallOk(s, id);
      }
    }
  }

  lemma PolicyKeepsCallsOk(config: Config, s: State, e: Event)
    requires config.Valid() && CallsOk(s) && Enabled(config, s, e)
    requires e.ReadPermission? || e.CommitDecision?
    ensures CallsOk(Apply(config, s, e))
  {
    assert CallOk(s, e.id);
    MoveKeepsCallsOk(s, Apply(config, s, e), e.id);
  }

  lemma BuildsKeepCallsOk(config: Config, s: State, e: Event)
    requires config.Valid() && CallsOk(s) && Enabled(config, s, e)
    requires e.Deny? || e.ProviderFails? || e.Persist? || e.Fail?
    ensures CallsOk(Apply(config, s, e))
  {
    hide Denied, Failed, Store, Insertable, Valid;
    assert CallOk(s, e.id);
    MoveKeepsCallsOk(s, Apply(config, s, e), e.id);
  }

  lemma StepKeepsCallsOk(config: Config, s: State, e: Event)
    requires config.Valid() && CallsOk(s) && Enabled(config, s, e)
    ensures CallsOk(Apply(config, s, e))
  {
    match e
    case ReadUsage(id) =>
      hide CallsOk, CallOk, AfterUsageRead;
      ReadUsageOk(s, id);
      MoveKeepsCallsOk(s, Apply(config, s, e), id);
    case ReadCost(id) =>
      hide CallsOk, CallOk, AfterCostRead;
      ReadCostOk(config, s, id);
      MoveKeepsCallsOk(s, Apply(config, s, e), id);
    case ProviderReturns(id, outputText, usage, responseId) =>
      hide CallsOk, CallOk, AfterProvider;
      ProviderReturnsOk(config, s, id, outputText, usage, responseId);
      LogDoesNotMatter(Move(s, id, AfterProvider(config, s, id, outputText, usage, responseId)), Apply(config, s, e), id);
      MoveKeepsCallsOk(s, Apply(config, s, e), id);
    case Tick(_) => EnvironmentKeepsCallsOk(config, s, e);
    case SetPermission(_) => EnvironmentKeepsCallsOk(config, s, e);
    case Accept(_, _) => EnvironmentKeepsCallsOk(config, s, e);
    case ReadPermission(_) => PolicyKeepsCallsOk(config, s, e);
    case CommitDecision(_, _) => PolicyKeepsCallsOk(config, s, e);
    case Deny(_) => BuildsKeepCallsOk(config, s, e);
    case ProviderFails(_) => BuildsKeepCallsOk(config, s, e);
    case Persist(_) => BuildsKeepCallsOk(config, s, e);
    case Fail(_) => BuildsKeepCallsOk(config, s, e);
  }

  lemma LogDoesNotMatter(s: State, t: State, id: Uuid)
    requires id in s.calls && t == s.(providerLog := t.providerLog)
    ensures CallOk(t, id) == CallOk(s, id)
  {
  }

  lemma {:induction false} RunKeepsCallsOk(config: Config, run: seq<State>, events: seq<Event>, i: nat)
    requires IsRun(config, run, events) && Initial(run[0]) && i < |run|
    ensures CallsOk(run[i])
  {
    if i > 0 {
      RunKeepsCallsOk(config, run, events, i - 1);
      StepKeepsCallsOk(config, run[i - 1], events[i - 1]);
    }
  }
}
