/**
 The gateway's handler as it runs: each awaited statement changes the tables in place, and other
 calls may run between any two of them. The ghost history records which state-machine run the
 statements perform, so whatever holds of every run holds of every use of this class.
 */
module Gateways {
  import opened Wrappers
  import opened Uuids
  import opened Decimals
  import opened UsageLimit
  import opened CostBudget
  import opened Cost
  import opened Invocations
  import opened InvocationRows
  import opened Admission
  import opened GateSafety
  import opened RowContents
  import opened Text
  import Policy = PolicyRisk

  /** What the provider port does: it answers, raises a transport error, or raises anything else. */
  datatype ProviderResult =
    | Answer(outputText: string, usage: Option<InvocationUsage>, responseId: Option<string>)
    | TransportError
    | OtherError
  {
    predicate Valid() {
      Answer? && usage.Some? ==> usage.value.Valid()
    }
  }

  /** `NotAccepted` precedes the invocation's identity; `Rejected` names the row that was stored;
      everything else that is raised is `Unavailable`. */
  datatype GatewayError =
    | NotAccepted
    | Rejected(status: InvocationStatus)
    | Unavailable

  /** The awaited statements of one call, in order. */
  datatype Statement = READ_PERMISSION | COMMIT_DECISION | READ_USAGE | READ_COST | INVOKE_PROVIDER | PERSIST

  /** What surrounds a call: the events of others while it waits, and the statements that fail. */
  datatype Surroundings = Surroundings(others: Statement -> seq<Event>, failing: set<Statement>)

  /** No statement fails, and nothing happens in between. */
  ghost predicate Quiet(surroundings: Surroundings) {
    surroundings.failing == {} && forall statement :: surroundings.others(statement) == []
  }

  // How a call that nobody disturbs ends, from the tables and the provider's answer

  /** Past both gates. */
  ghost predicate Invoked(config: Config, s: State, command: Command, at: int, result: ProviderResult,
                          r: Result<Invocation, GatewayError>) {
    && (r.Failure? && r.error.Rejected? ==> r.error.status == FAILED)
    && (r == Failure(Rejected(FAILED)) <==> result.TransportError? && Recordable(s, command, at))
    && (PricesFit(config) ==>
          (r.Success? <==>
           result.Answer? && Recordable(s, command, at) && AnswerFits(result.outputText, result.usage, result.responseId)))
  }

  /** Past the usage gate. */
  ghost predicate CostGated(config: Config, s: State, command: Command, at: int, result: ProviderResult,
                            r: Result<Invocation, GatewayError>)
    requires config.Valid()
  {
    if CostAdmits(config, s, command, at) then Invoked(config, s, command, at, result, r)
    else
      && !r.Success? && (r.error.Rejected? ==> r.error.status == COST_LIMITED)
      && (r == Failure(Rejected(COST_LIMITED)) <==>
            CostRejects(config, s, command, at) && Recordable(s, command, at) && CostRejectionFits(config, s, command, at))
  }

  /** Once permitted. */
  ghost predicate UsageGated(config: Config, s: State, command: Command, at: int, result: ProviderResult,
                             r: Result<Invocation, GatewayError>)
    requires config.Valid()
  {
    if UsageAdmits(s, command, at) then CostGated(config, s, command, at, result, r)
    else
      && !r.Success? && (r.error.Rejected? ==> r.error.status == LIMITED)
      && (r == Failure(Rejected(LIMITED)) <==>
            UsageRejects(s, command, at) && Recordable(s, command, at) && UsageRejectionFits(s, command, at))
  }

  /** Once accepted. */
  ghost predicate PolicyGated(config: Config, s: State, command: Command, at: int, result: ProviderResult,
                              r: Result<Invocation, GatewayError>)
    requires config.Valid()
  {
    if Permitted(s, command) then UsageGated(config, s, command, at, result, r)
    else
      && !r.Success? && (r.error.Rejected? ==> r.error.status == DENIED)
      && (r == Failure(Rejected(DENIED)) <==> Recordable(s, command, at))
  }

  lemma SameVerdicts(config: Config, s: State, t: State, command: Command, at: int, result: ProviderResult,
                     r: Result<Invocation, GatewayError>)
    requires config.Valid() && t.ledger == s.ledger && t.now == s.now && t.permissions == s.permissions
    ensures Invoked(config, t, command, at, result, r) == Invoked(config, s, command, at, result, r)
    ensures CostGated(config, t, command, at, result, r) == CostGated(config, s, command, at, result, r)
    ensures UsageGated(config, t, command, at, result, r) == UsageGated(config, s, command, at, result, r)
  {
    hide Recordable, Permitted, UsageAdmits, UsageRejects, UsageRejectionFits, CostAdmits, CostRejects, CostRejectionFits;
    SameConditions(config, s, t, command, at);
  }

  function Subject(e: Event): Option<Uuid> {
    if e.Tick? || e.SetPermission? then None else Some(e.id)
  }

  /** Other calls neither move this one nor take rows away. */
  lemma OthersKeepCall(config: Config, s: State, e: Event, id: Uuid)
    requires config.Valid() && Enabled(config, s, e) && Subject(e) != Some(id) && id in s.calls
    ensures var t := Apply(config, s, e);
            id in t.calls && t.calls[id] == s.calls[id] && s.ledger <= t.ledger
  {
    hide AfterUsageRead, AfterCostRead, AfterProvider, Denied, Failed, Build, Store, Insertable, Accepts;
  }

  class Gateway {
    const config: Config
    var now: int
    var permissions: map<Policy.PermissionKey, Policy.AgentModelPermission>
    var decisions: map<Uuid, Policy.PolicyDecision>
    var ledger: seq<InvocationRow>
    var providerLog: seq<ProviderCall>
    var calls: map<Uuid, Call>
    ghost var run: seq<State>
    ghost var events: seq<Event>

    constructor (config: Config, now: int, permissions: map<Policy.PermissionKey, Policy.AgentModelPermission>,
                 ledger: seq<InvocationRow>)
      requires config.Valid()
      requires forall key :: key in permissions ==> permissions[key].key == key
      ensures Valid() && this.config == config && run == [Snapshot()] && events == []
      ensures Snapshot() == State(now, permissions, map[], ledger, [], map[])
    {
      this.config, this.now, this.permissions, this.ledger := config, now, permissions, ledger;
      decisions, providerLog, calls := map[], [], map[];
      run, events := [State(now, permissions, map[], ledger, [], map[])], [];
    }

    function Snapshot(): State
      reads this
    {
      State(now, permissions, decisions, ledger, providerLog, calls)
    }

    /** The fields are the last state of a run that started before any call. */
    ghost predicate Valid()
      reads this
    {
      IsRun(config, run, events) && Initial(run[0]) && run[|run| - 1] == Snapshot()
    }

    /** The history grew and nothing recorded was taken back. */
    twostate predicate Continues()
      reads this
    {
      Valid() && old(run) <= run && old(events) <= events && old(ledger) <= ledger
    }

    /** What the next statement of this call depends on is as it was. */
    twostate predicate Still(id: Uuid)
      reads this
    {
      && now == old(now) && permissions == old(permissions) && ledger == old(ledger)
      && old(id in calls) && id in calls
      && calls[id].command == old(calls[id].command) && calls[id].startedAt == old(calls[id].startedAt)
    }

    /** The fields have just performed `e`. */
    ghost method Record(before: State, e: Event)
      requires IsRun(config, run, events) && Initial(run[0]) && run[|run| - 1] == before
      requires Enabled(config, before, e) && Snapshot() == Apply(config, before, e)
      modifies this`run, this`events
      ensures Valid() && run == old(run) + [Snapshot()] && events == old(events) + [e]
    {
      assert |run| > 0;
      hide Apply, Enabled, IsRun;
      RunExtends(config, run, events, e, Snapshot());
      run, events := run + [Snapshot()], events + [e];
    }

    /** This call moves to its next phase, and the provider calls it made are logged. */
    method Advance(id: Uuid, phase: Phase, made: seq<ProviderCall>, ghost e: Event)
      requires Valid() && id in calls && Enabled(config, Snapshot(), e)
      requires Apply(config, Snapshot(), e) ==
               Snapshot().(providerLog := providerLog + made, calls := calls[id := calls[id].(phase := phase)])
      modifies this
      ensures Continues() && id in calls && calls[id].phase == phase && Still(id)
    {
      ghost var s := Snapshot();
      assert |run| > 0;
      hide IsRun, Initial, Apply, Enabled;
      providerLog := providerLog + made;
      calls := calls[id := calls[id].(phase := phase)];
      Record(s, e);
    }

    /** The row is inserted and the call returns. */
    method Append(id: Uuid, row: InvocationRow)
      requires Valid() && id in calls && Enabled(config, Snapshot(), Event.Persist(id))
      requires Apply(config, Snapshot(), Event.Persist(id)) ==
               Snapshot().(ledger := ledger + [row], calls := calls[id := calls[id].(phase := Returned)])
      modifies this
      ensures Continues() && id in calls && calls[id].phase.Returned? && ledger == old(ledger) + [row]
    {
      ghost var s := Snapshot();
      assert |run| > 0;
      hide IsRun, Initial, Apply, Enabled;
      ledger := ledger + [row];
      calls := calls[id := calls[id].(phase := Returned)];
      Record(s, Event.Persist(id));
    }

    /** Another call's statement, or the clock or an administrator, if it can happen now. */
    method Interfere(id: Uuid, e: Event)
      requires Valid() && id in calls
      modifies this
      ensures Continues() && id in calls && calls[id] == old(calls[id])
    {
      var s := Snapshot();
      assert |run| > 0 && config.Valid();
      hide Apply, Enabled, IsRun, Initial;
      if Enabled(config, s, e) && Subject(e) != Some(id) {
        OthersKeepCall(config, s, e, id);
        var t := Apply(config, s, e);
        now, permissions, decisions := t.now, t.permissions, t.decisions;
        ledger, providerLog, calls := t.ledger, t.providerLog, t.calls;
        assert Snapshot() == t;
        Record(s, e);
      }
    }

    /** What happens while this call waits. */
    method Await(id: Uuid, others: seq<Event>)
      requires Valid() && id in calls
      modifies this
      ensures Continues() && id in calls && calls[id] == old(calls[id])
      ensures others == [] ==> Snapshot() == old(Snapshot())
    {
      hide IsRun, Initial;
      for i := 0 to |others|
        invariant Continues() && id in calls && calls[id] == old(calls[id])
        invariant i == 0 ==> Snapshot() == old(Snapshot())
      {
        Interfere(id, others[i]);
      }
    }

    /** SUM over the rows of one principal in the window, null counts left out. */
    method ConsumedTotalUnits(principalId: string, window: UsageWindow) returns (consumed: int)
      ensures consumed == Consumption(UsageMeter(principalId, window), ledger)
    {
      consumed := 0;
      for i := 0 to |ledger|
        invariant consumed == Consumption(UsageMeter(principalId, window), ledger[..i])
      {
        var row := ledger[i];
        assert ledger[..i + 1][..i] == ledger[..i];
        if row.runtimePrincipalId == Some(principalId) && window.start <= row.startedAt < window.end
           && row.totalUnits.Some? {
          consumed := consumed + row.totalUnits.value;
        }
      }
      assert ledger[..|ledger|] == ledger;
    }

    /** SUM over the rows of one Tenant in the window, null costs left out. */
    method AttributedCost(tenantId: Uuid, window: UsageWindow) returns (cost: int)
      ensures cost == Consumption(CostMeter(tenantId, window), ledger)
    {
      cost := 0;
      for i := 0 to |ledger|
        invariant cost == Consumption(CostMeter(tenantId, window), ledger[..i])
      {
        var row := ledger[i];
        assert ledger[..i + 1][..i] == ledger[..i];
        if row.tenantId == tenantId && window.start <= row.startedAt < window.end && row.cost.total.Some? {
          cost := cost + row.cost.total.value;
        }
      }
      assert ledger[..|ledger|] == ledger;
    }

    /** An exception leaves the call; what it stored before stays. */
    method Raise(id: Uuid)
      requires Valid() && id in calls && !calls[id].phase.Returned? && !calls[id].phase.Raised?
      modifies this
      ensures Continues() && id in calls && calls[id].phase.Raised? && Still(id)
    {
      var s := Snapshot();
      assert |run| > 0;
      hide IsRun, Initial;
      calls := calls[id := calls[id].(phase := Raised)];
      Record(s, Fail(id));
    }

    method ReadPermission(id: Uuid)
      requires Valid() && id in calls && calls[id].phase.Accepted?
      modifies this
      ensures Continues() && id in calls && calls[id].phase.PermissionRead? && Still(id) && decisions == old(decisions)
      ensures calls[id].phase.permission.Some? && calls[id].phase.permission.value.effect == Policy.ALLOW <==>
                Permitted(old(Snapshot()), old(calls[id].command))
    {
      var s, c := Snapshot(), calls[id];
      assert |run| > 0;
      hide IsRun, Initial;
      var key := c.command.Key();
      var permission := if key in permissions then Some(permissions[key]) else None;
      calls := calls[id := c.(phase := PermissionRead(permission))];
      Record(s, Event.ReadPermission(id));
    }

    /** The decision commits on its own, before any gate; its identity must be new. */
    method CommitDecision(id: Uuid, decisionId: Uuid)
      requires Valid() && id in calls && calls[id].phase.PermissionRead?
      modifies this
      ensures Continues() && id in calls && (calls[id].phase.Decided? || calls[id].phase.Raised?) && Still(id)
      ensures calls[id].phase.Decided? <==> forall other :: other in old(decisions) ==> old(decisions)[other].id != decisionId
      ensures calls[id].phase.Decided? ==>
                (calls[id].phase.decision.effect == Policy.ALLOW <==>
                 var read := old(calls[id].phase); read.permission.Some? && read.permission.value.effect == Policy.ALLOW)
    {
      var s, c := Snapshot(), calls[id];
      assert |run| > 0;
      if exists other :: other in decisions && decisions[other].id == decisionId {
        Raise(id);
        return;
      }
      hide IsRun, Initial;
      var decision := Policy.Decide(c.phase.permission, decisionId, id, c.command.Key(), now);
      decisions := decisions[id := decision];
      calls := calls[id := c.(phase := Decided(decision))];
      Record(s, Event.CommitDecision(id, decisionId));
    }

    method RecordDenial(id: Uuid) returns (phase: Phase)
      requires id in calls && calls[id].phase.Decided?
      ensures phase == Build(Denied(Who(Snapshot(), id, calls[id].phase.decision)))
      ensures phase.Built? || phase.Raised?
      ensures phase.Built? ==> phase.invocation.status == DENIED
    {
      hide Who;
      var denied := Denied(Who(Snapshot(), id, calls[id].phase.decision));
      phase := if denied.Success? then Built(denied.value) else Raised;
    }

    method Deny(id: Uuid)
      requires Valid() && id in calls && calls[id].phase.Decided? && calls[id].phase.decision.effect != Policy.ALLOW
      modifies this
      ensures Continues() && id in calls && (calls[id].phase.Built? || calls[id].phase.Raised?) && Still(id)
      ensures calls[id].phase.Built? ==> calls[id].phase.invocation.status == DENIED
      ensures Storing(calls[id].phase) <==> Recordable(Snapshot(), calls[id].command, calls[id].startedAt)
    {
      var s := Snapshot();
      assert |run| > 0;
      assert config.Valid();
      hide IsRun, Initial, Apply, Enabled, CallsAccepted, Storing, Build, Who, Denied, Config.Valid, Accepts,
        Recordable, Permitted, UsageAdmits, UsageRejects, UsageRejectionFits, CostAdmits, CostRejects, CostRejectionFits;
      DenialApplies(config, s, id);
      CallsWereAccepted();
      DenialDecides(config, s, id);
      var phase := RecordDenial(id);
      assert providerLog + [] == providerLog;
      Advance(id, phase, [], Event.Deny(id));
      SameConditions(config, s, Snapshot(), calls[id].command, calls[id].startedAt);
    }

    method DecideUsage(id: Uuid) returns (phase: Phase)
      requires id in calls && calls[id].phase.Decided?
      ensures phase == AfterUsageRead(Snapshot(), id)
      ensures phase.Built? || phase.Raised? || phase.UsageAdmitted?
      ensures phase.UsageAdmitted? <==> UsageAdmits(Snapshot(), calls[id].command, calls[id].startedAt)
      ensures phase.Built? <==>
                && UsageRejects(Snapshot(), calls[id].command, calls[id].startedAt)
                && Buildable(Who(Snapshot(), id, calls[id].phase.decision))
      ensures phase.Built? ==>
                && phase.invocation.status == LIMITED
                && RecordsUsageRejection(Snapshot(), calls[id], Store(phase.invocation))
    {
      hide Consumption, UtcDayWindow, Limited, Buildable, Who, Concludes;
      var c := calls[id];
      var window := UtcDayWindow(c.startedAt);
      LimitedIsBuiltIff(Who(Snapshot(), id, c.phase.decision), Units(Snapshot(), c.command, c.startedAt), c.command.usageLimit,
                        c.command.allowance, window.start, window.end);
      DayIsOrdered(c.startedAt);
      var consumed := ConsumedTotalUnits(c.command.principalId, window);
      var usage := DecideUsageLimit(consumed, c.command.usageLimit, c.command.allowance, window);
      if usage.Failure? {
        return Raised;
      }
      if usage.value.allowed {
        return UsageAdmitted(c.phase.decision);
      }
      var limited := Limited(Who(Snapshot(), id, c.phase.decision), usage.value.consumedUnits, usage.value.limitUnits,
                             usage.value.allowanceUnits, usage.value.window.start, usage.value.window.end);
      phase := if limited.Success? then Built(limited.value) else Raised;
    }

    method CheckUsageLimit(id: Uuid)
      requires Valid() && id in calls && calls[id].phase.Decided? && calls[id].phase.decision.effect == Policy.ALLOW
      modifies this
      ensures Continues() && id in calls && (calls[id].phase.Built? || calls[id].phase.Raised? || calls[id].phase.UsageAdmitted?)
      ensures calls[id].phase.Built? ==> calls[id].phase.invocation.status == LIMITED
      ensures Still(id)
      ensures calls[id].phase.UsageAdmitted? <==> UsageAdmits(Snapshot(), calls[id].command, calls[id].startedAt)
      ensures Storing(calls[id].phase) <==>
                && UsageRejects(Snapshot(), calls[id].command, calls[id].startedAt)
                && Recordable(Snapshot(), calls[id].command, calls[id].startedAt)
                && UsageRejectionFits(Snapshot(), calls[id].command, calls[id].startedAt)
    {
      var s := Snapshot();
      assert |run| > 0;
      assert config.Valid();
      UsageReadApplies(config, s, id);
      CallsWereAccepted();
      UsageReadDecides(config, s, id);
      hide IsRun, Initial, AfterUsageRead, Apply, Enabled, CallsAccepted, Storing, RecordsUsageRejection, Buildable, Who,
        Recordable, Permitted, UsageAdmits, UsageRejects, UsageRejectionFits, CostAdmits, CostRejects, CostRejectionFits;
      var phase := DecideUsage(id);
      assert providerLog + [] == providerLog;
      Advance(id, phase, [], ReadUsage(id));
      SameConditions(config, s, Snapshot(), calls[id].command, calls[id].startedAt);
    }

    method DecideCost(id: Uuid) returns (phase: Phase)
      requires config.Valid() && id in calls && calls[id].phase.UsageAdmitted?
      ensures phase == AfterCostRead(config, Snapshot(), id)
      ensures phase.Built? || phase.Raised? || phase.CostAdmitted?
      ensures phase.CostAdmitted? <==> CostAdmits(config, Snapshot(), calls[id].command, calls[id].startedAt)
      ensures phase.Built? <==>
                && CostRejects(config, Snapshot(), calls[id].command, calls[id].startedAt)
                && Buildable(Who(Snapshot(), id, calls[id].phase.decision))
      ensures phase.Built? ==>
                && phase.invocation.status == COST_LIMITED
                && RecordsCostRejection(config, Snapshot(), calls[id], Store(phase.invocation))
    {
      hide Consumption, UtcDayWindow, RoundSignificant, CostLimited, Buildable, Who, Concludes;
      var c := calls[id];
      var window := UtcDayWindow(c.startedAt);
      if c.command.tenantId in config.budgets {
        CostLimitedIsBuiltIff(Who(Snapshot(), id, c.phase.decision), Spent(Snapshot(), c.command, c.startedAt),
                              config.budgets[c.command.tenantId].limit, config.budgets[c.command.tenantId].allowance,
                              window.start, window.end);
        DayIsOrdered(c.startedAt);
      }
      if c.command.tenantId !in config.budgets {
        return Raised;
      }
      var budget := config.budgets[c.command.tenantId];
      var attributed := AttributedCost(c.command.tenantId, window);
      var cost := DecideTenantCostBudget(attributed, budget, window);
      if cost.Failure? {
        return Raised;
      }
      if cost.value.allowed {
        return CostAdmitted(c.phase.decision);
      }
      var limited := CostLimited(Who(Snapshot(), id, c.phase.decision), cost.value.attributedCost, cost.value.budget,
                                 cost.value.allowance, window.start, window.end);
      phase := if limited.Success? then Built(limited.value) else Raised;
    }

    method CheckCostBudget(id: Uuid)
      requires Valid() && id in calls && calls[id].phase.UsageAdmitted?
      modifies this
      ensures Continues() && id in calls && (calls[id].phase.Built? || calls[id].phase.Raised? || calls[id].phase.CostAdmitted?)
      ensures calls[id].phase.Built? ==> calls[id].phase.invocation.status == COST_LIMITED
      ensures Still(id) && config.Valid()
      ensures calls[id].phase.CostAdmitted? <==> CostAdmits(config, Snapshot(), calls[id].command, calls[id].startedAt)
      ensures Storing(calls[id].phase) <==>
                && CostRejects(config, Snapshot(), calls[id].command, calls[id].startedAt)
                && Recordable(Snapshot(), calls[id].command, calls[id].startedAt)
                && CostRejectionFits(config, Snapshot(), calls[id].command, calls[id].startedAt)
    {
      var s := Snapshot();
      assert |run| > 0;
      assert config.Valid();
      CostReadApplies(config, s, id);
      CallsWereAccepted();
      CostReadDecides(config, s, id);
      hide IsRun, Initial, AfterCostRead, Apply, Enabled, CallsAccepted, Storing, RecordsCostRejection, Buildable, Who,
        Recordable, Permitted, UsageAdmits, UsageRejects, UsageRejectionFits, CostAdmits, CostRejects, CostRejectionFits;
      var phase := DecideCost(id);
      assert providerLog + [] == providerLog;
      Advance(id, phase, [], ReadCost(id));
      SameConditions(config, s, Snapshot(), calls[id].command, calls[id].startedAt);
    }

    /** A transport error becomes a failed row. */
    method ReceiveTransportError(id: Uuid)
      requires Valid() && id in calls && calls[id].phase.CostAdmitted?
      modifies this
      ensures Continues() && id in calls && (calls[id].phase.Built? || calls[id].phase.Raised?) && Still(id)
      ensures calls[id].phase.Built? ==> calls[id].phase.invocation.status == FAILED
      ensures Storing(calls[id].phase) <==> Recordable(Snapshot(), calls[id].command, calls[id].startedAt)
    {
      var s, c := Snapshot(), calls[id];
      assert |run| > 0;
      assert config.Valid();
      TransportErrorApplies(config, s, id);
      CallsWereAccepted();
      TransportErrorDecides(config, s, id);
      hide IsRun, Initial, Apply, Enabled, CallsAccepted, Storing, Build, Who, Denied, Failed,
        Recordable, Permitted, UsageAdmits, UsageRejects, UsageRejectionFits, CostAdmits, CostRejects, CostRejectionFits;
      var failed := Failed(Who(s, id, c.phase.decision));
      Advance(id, if failed.Success? then Built(failed.value) else Raised, [ProviderCall(id, true)], ProviderFails(id));
      SameConditions(config, s, Snapshot(), calls[id].command, calls[id].startedAt);
    }

    /** The answer is priced from the model's snapshot, then becomes a succeeded row. */
    method PriceAnswer(id: Uuid, outputText: string, usage: Option<InvocationUsage>, responseId: Option<string>)
      returns (phase: Phase)
      requires config.Valid() && id in calls && calls[id].phase.CostAdmitted? && (usage.Some? ==> usage.value.Valid())
      ensures phase == AfterProvider(config, Snapshot(), id, outputText, usage, responseId)
      ensures phase.Built? || phase.Raised?
      ensures phase.Built? ==> phase.invocation.status == SUCCEEDED && phase.invocation.usage == usage
      ensures phase.Built? ==>
                && RecordsAnswer(Store(phase.invocation), outputText, usage, responseId)
                && RecordsCost(config, Store(phase.invocation))
    {
      hide RecordsCost, RecordsAnswer, RecordsRequest;
      AnswerIsRecorded(config, Snapshot(), id, outputText, usage, responseId);
      var c := calls[id];
      assert PricingFor(config, c.command).Some? ==> PricingFor(config, c.command).value.Valid();
      hide PricingFor, AttributeCost;
      var cost := AttributeCost(usage, PricingFor(config, c.command));
      if cost.Failure? || (cost.value.Some? && !cost.value.value.Valid()) {
        return Raised;
      }
      var succeeded := Succeeded(Who(Snapshot(), id, c.phase.decision), outputText, usage, responseId, cost.value);
      phase := if succeeded.Success? then Built(succeeded.value) else Raised;
    }

    method ReceiveAnswer(id: Uuid, outputText: string, usage: Option<InvocationUsage>, responseId: Option<string>)
      requires Valid() && id in calls && calls[id].phase.CostAdmitted? && (usage.Some? ==> usage.value.Valid())
      modifies this
      ensures Continues() && id in calls && (calls[id].phase.Built? || calls[id].phase.Raised?)
      ensures calls[id].phase.Built? ==>
                && calls[id].phase.invocation.status == SUCCEEDED && calls[id].phase.invocation.usage == usage
                && RecordsAnswer(Store(calls[id].phase.invocation), outputText, usage, responseId)
                && RecordsCost(config, Store(calls[id].phase.invocation))
      ensures Still(id)
      ensures PricesFit(config) ==>
                (Storing(calls[id].phase) <==>
                 Recordable(Snapshot(), calls[id].command, calls[id].startedAt) && AnswerFits(outputText, usage, responseId))
    {
      var s := Snapshot();
      assert |run| > 0;
      assert config.Valid();
      AnswerApplies(config, s, id, outputText, usage, responseId);
      CallsWereAccepted();
      if PricesFit(config) {
        AnswerDecides(config, s, id, outputText, usage, responseId);
      }
      hide IsRun, Initial, AfterProvider, Apply, Enabled, CallsAccepted, PricesFit, RecordsAnswer, RecordsCost, AnswerFits,
        Storing, Recordable, Permitted, UsageAdmits, UsageRejects, UsageRejectionFits, CostAdmits, CostRejects, CostRejectionFits;
      var phase := PriceAnswer(id, outputText, usage, responseId);
      Advance(id, phase, [ProviderCall(id, false)], ProviderReturns(id, outputText, usage, responseId));
      SameConditions(config, s, Snapshot(), calls[id].command, calls[id].startedAt);
    }

    /** One row, or an integrity error and none. */
    method Persist(id: Uuid) returns (stored: bool)
      requires Valid() && id in calls && calls[id].phase.Built?
      modifies this
      ensures Continues() && id in calls
      ensures stored == Insertable(Store(old(calls[id].phase.invocation)))
      ensures stored ==> calls[id].phase.Returned? && ledger == old(ledger) + [Store(old(calls[id].phase.invocation))]
      ensures !stored ==> calls[id].phase.Raised? && ledger == old(ledger)
    {
      assert |run| > 0 && config.Valid();
      PersistApplies(config, Snapshot(), id);
      hide IsRun, Initial, Insertable, Store, Apply, Enabled;
      var row := Store(calls[id].phase.invocation);
      stored := Insertable(row);
      if stored {
        Append(id, row);
      } else {
        Raise(id);
      }
    }

    /** A row of this call, with this status, appended since the ledger had `from` rows. */
    ghost predicate HasRowSince(from: nat, id: Uuid, status: InvocationStatus)
      reads this
    {
      exists k :: from <= k < |ledger| && ledger[k].id == id && ledger[k].status == status
    }

    /** This very row, appended since the ledger had `from` rows. */
    ghost predicate StoredSince(from: nat, row: InvocationRow)
      reads this
    {
      exists k :: from <= k < |ledger| && ledger[k] == row
    }

    /** What every run keeps, at its last state. */
    lemma HistoryHolds()
      requires Valid()
      ensures CallsOk(Snapshot()) && LedgerOk(Snapshot(), |run[0].ledger|)
    {
      RunKeepsCallsOk(config, run, events, |run| - 1);
      RunKeepsLedgerOk(config, run, events, |run| - 1);
    }

    lemma CallsWereAccepted()
      requires Valid()
      ensures CallsAccepted(config, Snapshot())
    {
      assert |run| > 0;
      hide IsRun, Initial, CallsAccepted;
      RunKeepsCallsAccepted(config, run, events, |run| - 1);
    }

    lemma RowsBelongToReturnedCalls(id: Uuid)
      requires Valid() && id in calls && !calls[id].phase.Returned?
      ensures forall k :: |run[0].ledger| <= k < |ledger| ==> ledger[k].id != id
    {
      HistoryHolds();
      assert |run| > 0;
      hide CallsOk, IsRun, Initial, Outcomes;
      forall k | |run[0].ledger| <= k < |ledger|
        ensures ledger[k].id != id
      {
        assert RowLogged(Snapshot(), Snapshot().ledger[k]);
      }
    }

    lemma BuiltRowsBelongToTheirCall(id: Uuid)
      requires Valid() && id in calls && calls[id].phase.Built?
      ensures Store(calls[id].phase.invocation).id == id
    {
      HistoryHolds();
      assert CallOk(Snapshot(), id);
    }

    /** Waits for the ledger and stores the row this call built, if it built one. */
    method StoreRow(id: Uuid, surroundings: Surroundings) returns (stored: bool)
      requires Valid() && id in calls && (calls[id].phase.Built? || calls[id].phase.Raised?)
      modifies this
      ensures Continues() && id in calls
      ensures stored ==>
                && old(calls[id].phase.Built?) && calls[id].phase.Returned?
                && HasRowSince(|old(ledger)|, id, old(calls[id].phase).invocation.status)
                && Store(old(calls[id].phase).invocation).id == id
                && StoredSince(|old(ledger)|, Store(old(calls[id].phase).invocation))
      ensures !stored ==> calls[id].phase.Raised?
      ensures PERSIST !in surroundings.failing ==> (stored <==> Storing(old(calls[id].phase)))
    {
      assert |run| > 0;
      hide IsRun, Initial, Insertable, Enabled, Apply;
      if calls[id].phase.Raised? {
        return false;
      }
      ghost var v := calls[id].phase.invocation;
      BuiltRowsBelongToTheirCall(id);
      Await(id, surroundings.others(PERSIST));
      if PERSIST in surroundings.failing {
        Raise(id);
        return false;
      }
      stored := Persist(id);
      assert stored ==> ledger[|ledger| - 1] == Store(v);
    }

    /** The row of a call that ended early, and the exception its caller sees. */
    method Reject(id: Uuid, status: InvocationStatus, surroundings: Surroundings) returns (error: GatewayError)
      requires Valid() && id in calls && (calls[id].phase.Built? || calls[id].phase.Raised?)
      requires calls[id].phase.Built? ==> calls[id].phase.invocation.status == status
      modifies this
      ensures Continues() && id in calls
      ensures error == Unavailable || error == Rejected(status)
      ensures error == Unavailable ==> calls[id].phase.Raised?
      ensures error == Rejected(status) ==> calls[id].phase.Returned? && HasRowSince(|old(ledger)|, id, status)
      ensures PERSIST !in surroundings.failing ==> (error == Rejected(status) <==> Storing(old(calls[id].phase)))
    {
      hide IsRun, Initial, HasRowSince, Storing;
      var stored := StoreRow(id, surroundings);
      error := if stored then Rejected(status) else Unavailable;
    }

    /** Everything `r` may say about a call that was accepted. */
    ghost predicate Answers(from: nat, id: Uuid, result: ProviderResult, r: Result<Invocation, GatewayError>)
      reads this
    {
      && id in calls
      && match r
         case Success(v) =>
           && result.Answer? && v.status == SUCCEEDED && v.usage == result.usage
           && RecordsAnswer(Store(v), result.outputText, result.usage, result.responseId) && RecordsCost(config, Store(v))
           && Store(v).id == id && StoredSince(from, Store(v))
           && calls[id].phase.Returned? && HasRowSince(from, id, SUCCEEDED)
         case Failure(Rejected(status)) =>
           && status != SUCCEEDED && (status == FAILED ==> result.TransportError?)
           && calls[id].phase.Returned? && HasRowSince(from, id, status)
         case Failure(Unavailable) => calls[id].phase.Raised?
         case Failure(NotAccepted) => false
    }

    lemma AnswersSince(from: nat, later: nat, id: Uuid, result: ProviderResult, r: Result<Invocation, GatewayError>)
      requires from <= later && Answers(later, id, result, r)
      ensures Answers(from, id, result, r)
    {
      hide RecordsAnswer, RecordsCost, Store;
    }

    lemma RejectionAnswers(from: nat, later: nat, id: Uuid, result: ProviderResult, status: InvocationStatus, error: GatewayError)
      requires from <= later && id in calls && status != SUCCEEDED && (status == FAILED ==> result.TransportError?)
      requires error == Unavailable || error == Rejected(status)
      requires error == Unavailable ==> calls[id].phase.Raised?
      requires error == Rejected(status) ==> calls[id].phase.Returned? && HasRowSince(later, id, status)
      ensures Answers(from, id, result, Failure(error))
    {
    }

    lemma SuccessAnswers(from: nat, later: nat, id: Uuid, result: ProviderResult, v: Invocation, stored: bool)
      requires from <= later && id in calls && result.Answer? && v.status == SUCCEEDED && v.usage == result.usage
      requires RecordsAnswer(Store(v), result.outputText, result.usage, result.responseId) && RecordsCost(config, Store(v))
      requires stored ==> Store(v).id == id && StoredSince(later, Store(v))
      requires stored ==> calls[id].phase.Returned? && HasRowSince(later, id, SUCCEEDED)
      requires !stored ==> calls[id].phase.Raised?
      ensures Answers(from, id, result, if stored then Success(v) else Failure(Unavailable))
    {
    }

    /** The provider call and what follows it. */
    method Invoke(id: Uuid, result: ProviderResult, surroundings: Surroundings) returns (r: Result<Invocation, GatewayError>)
      requires Valid() && id in calls && calls[id].phase.CostAdmitted? && result.Valid()
      modifies this
      ensures Continues() && Answers(|old(ledger)|, id, result, r) && config.Valid()
      ensures Quiet(surroundings) ==>
                Invoked(config, old(Snapshot()), old(calls[id].command), old(calls[id].startedAt), result, r)
    {
      assert |run| > 0 && config.Valid();
      ghost var s, c := Snapshot(), calls[id];
      hide IsRun, Initial, Recordable, AnswerFits, PricesFit, Storing, HasRowSince, Answers, Quiet;
      Await(id, surroundings.others(INVOKE_PROVIDER));
      ghost var t := Snapshot();
      assert Quiet(surroundings) ==> t == s && INVOKE_PROVIDER !in surroundings.failing by {
        QuietMeans(surroundings);
      }
      if result.OtherError? || INVOKE_PROVIDER in surroundings.failing {
        Raise(id);
        RaisedAnswers(|s.ledger|, id, result);
        r := Failure(Unavailable);
      } else if result.TransportError? {
        var error := HandleTransportError(id, surroundings);
        RejectionAnswers(|s.ledger|, |t.ledger|, id, result, FAILED, error);
        r := Failure(error);
      } else {
        r := HandleAnswer(id, result, surroundings);
        AnswersSince(|s.ledger|, |t.ledger|, id, result, r);
      }
    }

    lemma QuietMeans(surroundings: Surroundings)
      ensures Quiet(surroundings) ==> surroundings.failing == {} && forall st :: surroundings.others(st) == []
    {
    }

    lemma RaisedAnswers(from: nat, id: Uuid, result: ProviderResult)
      requires id in calls && calls[id].phase.Raised?
      ensures Answers(from, id, result, Failure(Unavailable))
    {
    }

    method HandleTransportError(id: Uuid, surroundings: Surroundings) returns (error: GatewayError)
      requires Valid() && id in calls && calls[id].phase.CostAdmitted?
      modifies this
      ensures Continues() && id in calls && (error == Unavailable || error == Rejected(FAILED))
      ensures error == Unavailable ==> calls[id].phase.Raised?
      ensures error == Rejected(FAILED) ==> calls[id].phase.Returned? && HasRowSince(|old(ledger)|, id, FAILED)
      ensures Quiet(surroundings) ==>
                (error == Rejected(FAILED) <==>
                 Recordable(old(Snapshot()), old(calls[id].command), old(calls[id].startedAt)))
    {
      assert |run| > 0 && config.Valid();
      ghost var s := Snapshot();
      hide IsRun, Initial, Storing, HasRowSince,
        Recordable, Permitted, UsageAdmits, UsageRejects, UsageRejectionFits, CostAdmits, CostRejects, CostRejectionFits;
      ReceiveTransportError(id);
      SameConditions(config, s, Snapshot(), calls[id].command, calls[id].startedAt);
      error := Reject(id, FAILED, surroundings);
    }

    method HandleAnswer(id: Uuid, result: ProviderResult, surroundings: Surroundings)
      returns (r: Result<Invocation, GatewayError>)
      requires Valid() && id in calls && calls[id].phase.CostAdmitted? && result.Valid() && result.Answer?
      modifies this
      ensures Continues() && Answers(|old(ledger)|, id, result, r)
      ensures r.Success? || r == Failure(Unavailable)
      ensures Quiet(surroundings) && PricesFit(config) ==>
                (r.Success? <==>
                 && Recordable(old(Snapshot()), old(calls[id].command), old(calls[id].startedAt))
                 && AnswerFits(result.outputText, result.usage, result.responseId))
    {
      assert |run| > 0 && config.Valid();
      ghost var s := Snapshot();
      hide IsRun, Initial, AnswerFits, PricesFit, Storing, HasRowSince, StoredSince, Answers, RecordsAnswer, RecordsCost, Store,
        Recordable, Permitted, UsageAdmits, UsageRejects, UsageRejectionFits, CostAdmits, CostRejects, CostRejectionFits;
      ReceiveAnswer(id, result.outputText, result.usage, result.responseId);
      SameConditions(config, s, Snapshot(), calls[id].command, calls[id].startedAt);
      var phase := calls[id].phase;
      var stored := StoreRow(id, surroundings);
      if stored {
        SuccessAnswers(|s.ledger|, |s.ledger|, id, result, phase.invocation, stored);
        r := Success(phase.invocation);
      } else {
        RaisedAnswers(|s.ledger|, id, result);
        r := Failure(Unavailable);
      }
    }

    /** Waits for the usage gate and passes it, or not. */
    method PassUsageGate(id: Uuid, surroundings: Surroundings)
      requires Valid() && id in calls && calls[id].phase.Decided? && calls[id].phase.decision.effect == Policy.ALLOW
      modifies this
      ensures Continues() && id in calls && (calls[id].phase.Built? || calls[id].phase.Raised? || calls[id].phase.UsageAdmitted?)
      ensures calls[id].phase.Built? ==> calls[id].phase.invocation.status == LIMITED
      ensures Quiet(surroundings) ==>
                var s, command, at := old(Snapshot()), old(calls[id].command), old(calls[id].startedAt);
                && Still(id) && (calls[id].phase.UsageAdmitted? <==> UsageAdmits(s, command, at))
                && (Storing(calls[id].phase) <==>
                      UsageRejects(s, command, at) && Recordable(s, command, at) && UsageRejectionFits(s, command, at))
    {
      assert |run| > 0 && config.Valid();
      ghost var s := Snapshot();
      QuietMeans(surroundings);
      hide IsRun, Initial, Storing, Quiet,
        Recordable, Permitted, UsageAdmits, UsageRejects, UsageRejectionFits, CostAdmits, CostRejects, CostRejectionFits;
      Await(id, surroundings.others(READ_USAGE));
      if READ_USAGE in surroundings.failing {
        Raise(id);
      } else {
        CheckUsageLimit(id);
        SameConditionsWhenStill(s, id);
      }
    }

    method PassCostGate(id: Uuid, surroundings: Surroundings)
      requires Valid() && id in calls && calls[id].phase.UsageAdmitted?
      modifies this
      ensures Continues() && id in calls && (calls[id].phase.Built? || calls[id].phase.Raised? || calls[id].phase.CostAdmitted?)
      ensures calls[id].phase.Built? ==> calls[id].phase.invocation.status == COST_LIMITED
      ensures config.Valid()
      ensures Quiet(surroundings) ==>
                var s, command, at := old(Snapshot()), old(calls[id].command), old(calls[id].startedAt);
                && Still(id) && (calls[id].phase.CostAdmitted? <==> CostAdmits(config, s, command, at))
                && (Storing(calls[id].phase) <==>
                      && CostRejects(config, s, command, at) && Recordable(s, command, at)
                      && CostRejectionFits(config, s, command, at))
    {
      assert |run| > 0 && config.Valid();
      ghost var s := Snapshot();
      QuietMeans(surroundings);
      hide IsRun, Initial, Storing, Quiet,
        Recordable, Permitted, UsageAdmits, UsageRejects, UsageRejectionFits, CostAdmits, CostRejects, CostRejectionFits;
      Await(id, surroundings.others(READ_COST));
      if READ_COST in surroundings.failing {
        Raise(id);
      } else {
        CheckCostBudget(id);
        SameConditionsWhenStill(s, id);
      }
    }

    lemma SameConditionsWhenStill(s: State, id: Uuid)
      requires config.Valid() && id in calls
      ensures now == s.now && ledger == s.ledger && permissions == s.permissions ==>
                var t, command, at := Snapshot(), calls[id].command, calls[id].startedAt;
                && Recordable(t, command, at) == Recordable(s, command, at)
                && UsageAdmits(t, command, at) == UsageAdmits(s, command, at)
                && UsageRejects(t, command, at) == UsageRejects(s, command, at)
                && UsageRejectionFits(t, command, at) == UsageRejectionFits(s, command, at)
                && CostAdmits(config, t, command, at) == CostAdmits(config, s, command, at)
                && CostRejects(config, t, command, at) == CostRejects(config, s, command, at)
                && CostRejectionFits(config, t, command, at) == CostRejectionFits(config, s, command, at)
    {
      hide Recordable, Permitted, UsageAdmits, UsageRejects, UsageRejectionFits, CostAdmits, CostRejects, CostRejectionFits;
      if now == s.now && ledger == s.ledger && permissions == s.permissions {
        SameConditions(config, s, Snapshot(), calls[id].command, calls[id].startedAt);
      }
    }

    /** The usage gate, then the cost gate. */
    method Admit(id: Uuid, result: ProviderResult, surroundings: Surroundings) returns (r: Result<Invocation, GatewayError>)
      requires Valid() && id in calls && calls[id].phase.Decided? && calls[id].phase.decision.effect == Policy.ALLOW
      requires result.Valid()
      modifies this
      ensures Continues() && Answers(|old(ledger)|, id, result, r) && config.Valid()
      ensures Quiet(surroundings) ==>
                UsageGated(config, old(Snapshot()), old(calls[id].command), old(calls[id].startedAt), result, r)
    {
      assert |run| > 0 && config.Valid();
      ghost var s, c := Snapshot(), calls[id];
      QuietMeans(surroundings);
      hide IsRun, Initial, Storing, HasRowSince, CostGated, Answers, Quiet, Invoked,
        Recordable, Permitted, UsageAdmits, UsageRejects, UsageRejectionFits, CostAdmits, CostRejects, CostRejectionFits;
      PassUsageGate(id, surroundings);
      ghost var t := Snapshot();
      if !calls[id].phase.UsageAdmitted? {
        var error := Reject(id, LIMITED, surroundings);
        RejectionAnswers(|s.ledger|, |t.ledger|, id, result, LIMITED, error);
        return Failure(error);
      }
      r := AdmitCost(id, result, surroundings);
      AnswersSince(|s.ledger|, |t.ledger|, id, result, r);
      if Quiet(surroundings) {
        SameVerdicts(config, s, t, c.command, c.startedAt, result, r);
      }
    }

    /** The cost gate, then the provider. */
    method AdmitCost(id: Uuid, result: ProviderResult, surroundings: Surroundings) returns (r: Result<Invocation, GatewayError>)
      requires Valid() && id in calls && calls[id].phase.UsageAdmitted? && result.Valid()
      modifies this
      ensures Continues() && Answers(|old(ledger)|, id, result, r) && config.Valid()
      ensures Quiet(surroundings) ==>
                CostGated(config, old(Snapshot()), old(calls[id].command), old(calls[id].startedAt), result, r)
    {
      assert |run| > 0 && config.Valid();
      ghost var s, c := Snapshot(), calls[id];
      QuietMeans(surroundings);
      hide IsRun, Initial, Storing, HasRowSince, Invoked, Answers, Quiet,
        Recordable, Permitted, UsageAdmits, UsageRejects, UsageRejectionFits, CostAdmits, CostRejects, CostRejectionFits;
      PassCostGate(id, surroundings);
      ghost var t := Snapshot();
      if !calls[id].phase.CostAdmitted? {
        var error := Reject(id, COST_LIMITED, surroundings);
        RejectionAnswers(|s.ledger|, |t.ledger|, id, result, COST_LIMITED, error);
        return Failure(error);
      }
      r := Invoke(id, result, surroundings);
      AnswersSince(|s.ledger|, |t.ledger|, id, result, r);
      if Quiet(surroundings) {
        SameVerdicts(config, s, t, c.command, c.startedAt, result, r);
      }
    }

    /** Runtime policy: the permission is read and the decision committed before any gate. */
    method Decide(id: Uuid, decisionId: Uuid, surroundings: Surroundings)
      requires Valid() && id in calls && calls[id].phase.Accepted?
      modifies this
      ensures Continues() && id in calls && (calls[id].phase.Decided? || calls[id].phase.Raised?)
      ensures Quiet(surroundings) && (forall other :: other in old(decisions) ==> old(decisions)[other].id != decisionId) ==>
                && Still(id) && calls[id].phase.Decided?
                && (calls[id].phase.decision.effect == Policy.ALLOW <==> Permitted(old(Snapshot()), old(calls[id].command)))
    {
      hide IsRun, Initial, Permitted;
      Await(id, surroundings.others(READ_PERMISSION));
      if READ_PERMISSION in surroundings.failing {
        Raise(id);
        return;
      }
      ReadPermission(id);
      Await(id, surroundings.others(COMMIT_DECISION));
      if COMMIT_DECISION in surroundings.failing {
        Raise(id);
        return;
      }
      CommitDecision(id, decisionId);
    }

    method Accept(id: Uuid, command: Command)
      requires Valid() && id !in calls && Accepts(config, command)
      modifies this
      ensures Continues() && id in calls && calls[id].phase.Accepted? && ledger == old(ledger)
      ensures Snapshot() == old(Snapshot()).(calls := old(calls)[id := Call(command, old(now), Accepted)])
    {
      var s := Snapshot();
      HistoryHolds();
      assert |run| > 0;
      hide IsRun, Initial, LedgerOk, Accepts;
      calls := calls[id := Call(command, now, Accepted)];
      Record(s, Event.Accept(id, command));
    }

    /** The whole handler. Whatever the surroundings do, a call that was accepted ends in exactly one
        of three ways: an answer with its row, a rejection with its row, or an exception without one. */
    method Create(command: Command, id: Uuid, decisionId: Uuid, result: ProviderResult, surroundings: Surroundings)
      returns (r: Result<Invocation, GatewayError>)
      requires Valid() && id !in calls && result.Valid()
      modifies this
      ensures Continues()
      ensures r == Failure(NotAccepted) <==> !Acceptable(config, command)
      ensures r == Failure(NotAccepted) ==> Snapshot() == old(Snapshot())
      ensures r != Failure(NotAccepted) ==> Answers(|old(ledger)|, id, result, r)
      ensures r == Failure(Unavailable) ==> forall k :: |run[0].ledger| <= k < |ledger| ==> ledger[k].id != id
      ensures config.Valid()
      ensures && Quiet(surroundings) && Acceptable(config, command)
              && (forall other :: other in old(decisions) ==> old(decisions)[other].id != decisionId) ==>
                PolicyGated(config, old(Snapshot()), command, old(now), result, r)
    {
      assert |run| > 0 && config.Valid();
      AcceptsIff(config, command);
      hide IsRun, Initial, Accepts, Acceptable, Answers, PolicyGated, Quiet;
      if !Accepts(config, command) {
        return Failure(NotAccepted);
      }
      r := Process(command, id, decisionId, result, surroundings);
      RowsOfRaisedCalls(|old(ledger)|, id, result, r);
    }

    /** Accepted and, when nobody disturbs it, decided. */
    method Start(command: Command, id: Uuid, decisionId: Uuid, surroundings: Surroundings)
      requires Valid() && id !in calls && Accepts(config, command)
      modifies this
      ensures Continues() && id in calls && (calls[id].phase.Decided? || calls[id].phase.Raised?)
      ensures Quiet(surroundings) && (forall other :: other in old(decisions) ==> old(decisions)[other].id != decisionId) ==>
                && now == old(now) && permissions == old(permissions) && ledger == old(ledger)
                && calls[id].command == command && calls[id].startedAt == now && calls[id].phase.Decided?
                && (calls[id].phase.decision.effect == Policy.ALLOW <==> Permitted(old(Snapshot()), command))
    {
      assert |run| > 0 && config.Valid();
      ghost var s := Snapshot();
      hide IsRun, Initial, Accepts, Quiet,
        Recordable, Permitted, UsageAdmits, UsageRejects, UsageRejectionFits, CostAdmits, CostRejects, CostRejectionFits;
      Accept(id, command);
      SameConditions(config, s, Snapshot(), command, s.now);
      Decide(id, decisionId, surroundings);
    }

    method Process(command: Command, id: Uuid, decisionId: Uuid, result: ProviderResult, surroundings: Surroundings)
      returns (r: Result<Invocation, GatewayError>)
      requires Valid() && id !in calls && Accepts(config, command) && result.Valid()
      modifies this
      ensures Continues() && Answers(|old(ledger)|, id, result, r) && config.Valid()
      ensures Quiet(surroundings) && (forall other :: other in old(decisions) ==> old(decisions)[other].id != decisionId) ==>
                PolicyGated(config, old(Snapshot()), command, old(now), result, r)
    {
      assert |run| > 0 && config.Valid();
      ghost var s := Snapshot();
      hide IsRun, Initial, Accepts, HasRowSince, Answers, UsageGated, CostGated, Invoked, Quiet,
        Recordable, Permitted, UsageAdmits, UsageRejects, UsageRejectionFits, CostAdmits, CostRejects, CostRejectionFits;
      Start(command, id, decisionId, surroundings);
      ghost var t := Snapshot();
      r := Conclude(id, result, surroundings);
      if Quiet(surroundings) && forall other :: other in s.decisions ==> s.decisions[other].id != decisionId {
        SameVerdicts(config, s, t, command, s.now, result, r);
        SameConditions(config, s, t, command, s.now);
      }
      AnswersSince(|s.ledger|, |t.ledger|, id, result, r);
    }

    method Conclude(id: Uuid, result: ProviderResult, surroundings: Surroundings) returns (r: Result<Invocation, GatewayError>)
      requires Valid() && id in calls && (calls[id].phase.Decided? || calls[id].phase.Raised?) && result.Valid()
      modifies this
      ensures Continues() && Answers(|old(ledger)|, id, result, r) && config.Valid()
      ensures Quiet(surroundings) && old(calls[id].phase.Decided?) ==>
                var s, command, at := old(Snapshot()), old(calls[id].command), old(calls[id].startedAt);
                if old(calls[id].phase).decision.effect == Policy.ALLOW then UsageGated(config, s, command, at, result, r)
                else
                  && !r.Success? && (r.error.Rejected? ==> r.error.status == DENIED)
                  && (r == Failure(Rejected(DENIED)) <==> Recordable(s, command, at))
    {
      assert |run| > 0 && config.Valid();
      ghost var s := Snapshot();
      hide IsRun, Initial, UsageGated, CostGated, Invoked, Storing, HasRowSince, Answers,
        Recordable, Permitted, UsageAdmits, UsageRejects, UsageRejectionFits, CostAdmits, CostRejects, CostRejectionFits;
      if calls[id].phase.Raised? {
        RaisedAnswers(|s.ledger|, id, result);
        return Failure(Unavailable);
      }
      if calls[id].phase.decision.effect == Policy.ALLOW {
        r := Admit(id, result, surroundings);
      } else {
        Deny(id);
        SameConditions(config, s, Snapshot(), calls[id].command, calls[id].startedAt);
        var error := Reject(id, DENIED, surroundings);
        RejectionAnswers(|s.ledger|, |s.ledger|, id, result, DENIED, error);
        r := Failure(error);
      }
    }

    lemma RowsOfRaisedCalls(from: nat, id: Uuid, result: ProviderResult, r: Result<Invocation, GatewayError>)
      requires Valid() && Answers(from, id, result, r)
      ensures r != Failure(NotAccepted)
      ensures r == Failure(Unavailable) ==> forall k :: |run[0].ledger| <= k < |ledger| ==> ledger[k].id != id
    {
      hide IsRun, Initial;
      if r == Failure(Unavailable) {
        RowsBelongToReturnedCalls(id);
      }
    }
  }
}
