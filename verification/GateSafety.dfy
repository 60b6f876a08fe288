/**
 What the rows of the ledger prove about the gates that led to them: their decisions, the
 permissions behind those decisions, and the provider calls behind the executed ones.
 */
module GateSafety {
  import opened Wrappers
  import opened Text
  import opened Uuids
  import opened Cost
  import opened Invocations
  import opened InvocationRows
  import opened Admission
  import Policy = PolicyRisk

  /** The provider calls made for one invocation, in order: true for a transport error. */
  function Outcomes(log: seq<ProviderCall>, id: Uuid): seq<bool> {
    if log == [] then []
    else
      var last := log[|log| - 1];
      Outcomes(log[..|log| - 1], id) + (if last.invocationId == id then [last.failed] else [])
  }

  /** A succeeded row stands for one call that returned, a failed row for one that raised. */
  function ExpectedOutcomes(status: InvocationStatus): seq<bool> {
    match status
    case SUCCEEDED => [false]
    case FAILED => [true]
    case _ => []
  }

  lemma OutcomesAppend(log: seq<ProviderCall>, entry: ProviderCall, id: Uuid)
    ensures Outcomes(log + [entry], id) ==
            Outcomes(log, id) + (if entry.invocationId == id then [entry.failed] else [])
  {
    assert (log + [entry])[..|log|] == log;
  }

  /** A row names the one decision recorded for it, made for the same Tenant, Agent and Model. */
  predicate Linked(s: State, row: InvocationRow) {
    && row.id in s.calls && s.calls[row.id].phase.Returned?
    && row.id in s.decisions
    && var d := s.decisions[row.id];
       && row.policyDecisionId == Some(d.id)
       && d.invocationId == row.id
       && d.key == Policy.PermissionKey(row.tenantId, row.agentId, row.modelId)
       && (row.status == DENIED <==> d.effect != Policy.ALLOW)
  }

  predicate CallLogged(s: State, id: Uuid)
    requires id in s.calls
  {
    match s.calls[id].phase
    case Built(v) => Outcomes(s.providerLog, id) == ExpectedOutcomes(v.status)
    case Returned => true
    case Raised => true
    case _ => Outcomes(s.providerLog, id) == []
  }

  predicate RowLogged(s: State, row: InvocationRow) {
    Linked(s, row) && Outcomes(s.providerLog, row.id) == ExpectedOutcomes(row.status)
  }

  /** `base` rows were in the ledger before the run; every later row is linked, logged and unique. */
  ghost predicate RowsOk(s: State, base: nat) {
    && base <= |s.ledger|
    && (forall r :: base <= r < |s.ledger| ==> RowLogged(s, s.ledger[r]))
    && (forall q, r :: base <= q < r < |s.ledger| ==> s.ledger[q].id != s.ledger[r].id)
  }

  ghost predicate HasRow(s: State, base: nat, id: Uuid) {
    exists r :: base <= r < |s.ledger| && s.ledger[r].id == id
  }

  ghost predicate CallsLogged(s: State, base: nat) {
    && (forall id :: id in s.calls ==> CallLogged(s, id) && (s.calls[id].phase.Returned? ==> HasRow(s, base, id)))
    && (forall id :: id !in s.calls ==> Outcomes(s.providerLog, id) == [])
  }

  ghost predicate DecisionsDistinct(s: State) {
    forall a, b :: a in s.decisions && b in s.decisions && s.decisions[a].id == s.decisions[b].id ==> a == b
  }

  ghost predicate LedgerOk(s: State, base: nat) {
    RowsOk(s, base) && CallsLogged(s, base) && DecisionsDistinct(s)
  }

  lemma InitialLedgerOk(s: State)
    requires Initial(s)
    ensures LedgerOk(s, |s.ledger|)
  {
  }

  /** Rows stay linked while their calls stay returned and their decisions stay recorded. */
  lemma RowsStayOk(s: State, t: State, base: nat)
    requires RowsOk(s, base) && t.ledger == s.ledger
    requires forall id :: id in s.calls && s.calls[id].phase.Returned? ==> id in t.calls && t.calls[id] == s.calls[id]
    requires forall id :: id in s.decisions ==> id in t.decisions && t.decisions[id] == s.decisions[id]
    requires forall id :: id in s.calls && s.calls[id].phase.Returned? ==>
               Outcomes(t.providerLog, id) == Outcomes(s.providerLog, id)
    ensures RowsOk(t, base)
  {
    hide Outcomes;
    forall r | base <= r < |t.ledger|
      ensures RowLogged(t, t.ledger[r])
    {
      assert RowLogged(s, s.ledger[r]);
    }
  }

  /** Calls stay logged while no other call moves and no other call reaches the provider. */
  lemma CallsStayLogged(s: State, t: State, base: nat, id: Uuid)
    requires CallsLogged(s, base) && t.ledger == s.ledger
    requires id in t.calls && t.calls.Keys == s.calls.Keys + {id}
    requires forall other :: other in s.calls && other != id ==> t.calls[other] == s.calls[other]
    requires forall other :: other != id ==> Outcomes(t.providerLog, other) == Outcomes(s.providerLog, other)
    requires CallLogged(t, id) && !t.calls[id].phase.Returned?
    ensures CallsLogged(t, base)
  {
    hide Outcomes;
    forall other | other in t.calls
      ensures CallLogged(t, other) && (t.calls[other].phase.Returned? ==> HasRow(t, base, other))
    {
      if other != id {
        assert CallLogged(s, other);
        if s.calls[other].phase.Returned? {
          assert HasRow(s, base, other);
        }
      }
    }
  }

  lemma AnswerIsBuiltOrRaised(config: Config, s: State, id: Uuid, outputText: string, usage: Option<InvocationUsage>,
                              responseId: Option<string>)
    requires config.Valid() && id in s.calls && s.calls[id].phase.CostAdmitted? && (usage.Some? ==> usage.value.Valid())
    ensures var phase := AfterProvider(config, s, id, outputText, usage, responseId);
            phase.Raised? || (phase.Built? && phase.invocation.status == SUCCEEDED)
  {
    hide Succeeded, AttributeCost, PricingFor;
  }

  lemma TransportErrorIsBuiltOrRaised(who: Identity)
    ensures Build(Failed(who)).Raised? || (Build(Failed(who)).Built? && Build(Failed(who)).invocation.status == FAILED)
  {
    hide Failed;
  }

  /** One provider call adds one outcome, to its own invocation only. */
  lemma ProviderStepLogs(config: Config, s: State, e: Event, base: nat)
    requires config.Valid() && Enabled(config, s, e) && (e.ProviderReturns? || e.ProviderFails?)
    requires LedgerOk(s, base)
    ensures var t := Apply(config, s, e);
            && e.id in t.calls && !t.calls[e.id].phase.Returned? && CallLogged(t, e.id)
            && t == Move(s, e.id, t.calls[e.id].phase).(providerLog := t.providerLog)
            && t.providerLog == s.providerLog + [ProviderCall(e.id, e.ProviderFails?)]
  {
    hide AfterProvider, Failed, Build, RowsOk, Outcomes, DecisionsDistinct;
    assert CallLogged(s, e.id);
    assert s.calls[e.id].phase.CostAdmitted?;
    hide LedgerOk, CallsLogged;
    OutcomesAppend(s.providerLog, ProviderCall(e.id, e.ProviderFails?), e.id);
    match e {
      case ProviderReturns(id, outputText, usage, responseId) =>
        AnswerApplies(config, s, id, outputText, usage, responseId);
        AnswerIsBuiltOrRaised(config, s, id, outputText, usage, responseId);
      case ProviderFails(id) =>
        TransportErrorApplies(config, s, id);
        TransportErrorIsBuiltOrRaised(Who(s, id, s.calls[id].phase.decision));
    }
    hide Apply, Enabled;
  }

  lemma OthersUnlogged(log: seq<ProviderCall>, entry: ProviderCall)
    ensures forall other :: other != entry.invocationId ==> Outcomes(log + [entry], other) == Outcomes(log, other)
  {
    hide Outcomes;
    forall other | other != entry.invocationId
      ensures Outcomes(log + [entry], other) == Outcomes(log, other)
    {
      OutcomesAppend(log, entry, other);
    }
  }

  lemma ProviderStepKeepsLedgerOk(config: Config, s: State, e: Event, base: nat)
    requires config.Valid() && Enabled(config, s, e) && (e.ProviderReturns? || e.ProviderFails?)
    requires LedgerOk(s, base)
    ensures LedgerOk(Apply(config, s, e), base)
  {
    ProviderStepLogs(config, s, e, base);
    hide Apply, Outcomes, RowsOk, CallsLogged, CallLogged;
    OthersUnlogged(s.providerLog, ProviderCall(e.id, e.ProviderFails?));
    RowsStayOk(s, Apply(config, s, e), base);
    CallsStayLogged(s, Apply(config, s, e), base, e.id);
  }

  lemma PersistedRowIsLogged(config: Config, s: State, id: Uuid)
    requires config.Valid() && Enabled(config, s, Persist(id)) && CallsOk(s) && CallLogged(s, id)
    ensures RowLogged(Apply(config, s, Persist(id)), Store(s.calls[id].phase.invocation))
  {
    hide Insertable, Outcomes;
    assert CallOk(s, id);
  }

  lemma PersistKeepsLedgerOk(config: Config, s: State, id: Uuid, base: nat)
    requires config.Valid() && Enabled(config, s, Persist(id)) && CallsOk(s)
    requires LedgerOk(s, base)
    ensures LedgerOk(Apply(config, s, Persist(id)), base)
  {
    var t := Apply(config, s, Persist(id));
    var row := Store(s.calls[id].phase.invocation);
    assert CallLogged(s, id);
    PersistedRowIsLogged(config, s, id);
    assert row.id == id by {
      assert CallOk(s, id);
    }
    hide Insertable, Outcomes, Store, CallsOk;
    PersistKeepsRowsOk(s, t, row, base);
    PersistKeepsCallsLogged(s, t, row, base);
  }

  lemma PersistKeepsRowsOk(s: State, t: State, row: InvocationRow, base: nat)
    requires RowsOk(s, base) && row.id in s.calls && !s.calls[row.id].phase.Returned?
    requires t == Move(s, row.id, Returned).(ledger := s.ledger + [row])
    requires RowLogged(t, row)
    ensures RowsOk(t, base)
  {
    hide Outcomes;
    forall r | base <= r < |t.ledger|
      ensures RowLogged(t, t.ledger[r])
    {
      if r < |s.ledger| {
        assert RowLogged(s, s.ledger[r]);
      }
    }
    forall q | base <= q < |s.ledger|
      ensures t.ledger[q].id != row.id
    {
      assert RowLogged(s, s.ledger[q]);
    }
  }

  lemma PersistKeepsCallsLogged(s: State, t: State, row: InvocationRow, base: nat)
    requires CallsLogged(s, base) && base <= |s.ledger| && row.id in s.calls
    requires t == Move(s, row.id, Returned).(ledger := s.ledger + [row])
    ensures CallsLogged(t, base)
  {
    hide Outcomes;
    forall other | other in t.calls
      ensures CallLogged(t, other) && (t.calls[other].phase.Returned? ==> HasRow(t, base, other))
    {
      assert CallLogged(s, other);
      if other == row.id {
        assert t.ledger[|s.ledger|].id == row.id;
      } else if t.calls[other].phase.Returned? {
        var r :| base <= r < |s.ledger| && s.ledger[r].id == other;
        assert t.ledger[r].id == other;
      }
    }
  }

  lemma EnvironmentKeepsLedgerOk(config: Config, s: State, e: Event, base: nat)
    requires config.Valid() && Enabled(config, s, e)
    requires e.Tick? || e.SetPermission? || e.Accept?
    requires LedgerOk(s, base)
    ensures LedgerOk(Apply(config, s, e), base)
  {
    hide Outcomes, Accepts;
    var t := Apply(config, s, e);
    RowsStayOk(s, t, base);
    if e.Accept? {
      CallsStayLogged(s, t, base, e.id);
    } else {
      forall id | id in t.calls
        ensures CallLogged(t, id) && (t.calls[id].phase.Returned? ==> HasRow(t, base, id))
      {
        assert CallLogged(s, id);
        if s.calls[id].phase.Returned? {
          assert HasRow(s, base, id);
        }
      }
    }
  }

  lemma BuildStepLogged(config: Config, s: State, e: Event)
    requires config.Valid() && Enabled(config, s, e)
    requires e.ReadPermission? || e.CommitDecision? || e.Deny? || e.ReadUsage? || e.ReadCost? || e.Fail?
    requires CallLogged(s, e.id)
    ensures var t := Apply(config, s, e);
            && !t.calls[e.id].phase.Returned? && CallLogged(t, e.id)
            && t == Move(s, e.id, t.calls[e.id].phase).(decisions := t.decisions)
  {
    hide Denied, Limited, CostLimited, Consumption;
  }

  lemma StepKeepsLedgerOk(config: Config, s: State, e: Event, base: nat)
    requires config.Valid() && Enabled(config, s, e) && CallsOk(s)
    requires LedgerOk(s, base)
    ensures LedgerOk(Apply(config, s, e), base)
  {
    if e.Tick? || e.SetPermission? || e.Accept? {
      EnvironmentKeepsLedgerOk(config, s, e, base);
    } else if e.ProviderReturns? || e.ProviderFails? {
      ProviderStepKeepsLedgerOk(config, s, e, base);
    } else if e.Persist? {
      PersistKeepsLedgerOk(config, s, e.id, base);
    } else {
      assert CallLogged(s, e.id);
      BuildStepLogged(config, s, e);
      QuietStepKeepsLedgerOk(config, s, e, base);
    }
  }

  /** Steps that write no row and no provider call, and move one call. */
  lemma QuietStepKeepsLedgerOk(config: Config, s: State, e: Event, base: nat)
    requires config.Valid() && Enabled(config, s, e) && CallsOk(s) && LedgerOk(s, base)
    requires e.ReadPermission? || e.CommitDecision? || e.Deny? || e.ReadUsage? || e.ReadCost? || e.Fail?
    requires var t := Apply(config, s, e);
             && !t.calls[e.id].phase.Returned? && CallLogged(t, e.id)
             && t == Move(s, e.id, t.calls[e.id].phase).(decisions := t.decisions)
    ensures LedgerOk(Apply(config, s, e), base)
  {
    hide Outcomes, AfterUsageRead, AfterCostRead, Build, Denied, RowsOk, CallsLogged;
    var t := Apply(config, s, e);
    assert CallOk(s, e.id);
    RowsStayOk(s, t, base);
    CallsStayLogged(s, t, base, e.id);
  }

  lemma {:induction false} RunKeepsLedgerOk(config: Config, run: seq<State>, events: seq<Event>, i: nat)
    requires IsRun(config, run, events) && Initial(run[0]) && i < |run|
    ensures LedgerOk(run[i], |run[0].ledger|)
  {
    hide Apply, Enabled, LedgerOk;
    if i == 0 {
      InitialLedgerOk(run[0]);
    } else {
      RunKeepsLedgerOk(config, run, events, i - 1);
      RunKeepsCallsOk(config, run, events, i - 1);
      RunStep(config, run, events, i - 1);
      StepKeepsLedgerOk(config, run[i - 1], events[i - 1], |run[0].ledger|);
    }
  }

  // Permissions behind the decisions

  /** The call's own read, before the i-th state, found this permission and it allowed. */
  ghost predicate AllowedWhenRead(run: seq<State>, events: seq<Event>, i: nat, id: Uuid, key: Policy.PermissionKey,
                                  permissionId: Option<Uuid>)
    requires |run| == |events| + 1 && i < |run|
  {
    exists n :: 0 <= n < i && events[n] == ReadPermission(id)
      && key in run[n].permissions && run[n].permissions[key].effect == Policy.ALLOW
      && permissionId == Some(run[n].permissions[key].id)
  }

  ghost predicate AllowancesRead(run: seq<State>, events: seq<Event>, i: nat)
    requires |run| == |events| + 1 && i < |run|
  {
    var s := run[i];
    && (forall id :: (&& id in s.calls && s.calls[id].phase.PermissionRead? && s.calls[id].phase.permission.Some?
                      && s.calls[id].phase.permission.value.effect == Policy.ALLOW) ==>
          AllowedWhenRead(run, events, i, id, s.calls[id].command.Key(), Some(s.calls[id].phase.permission.value.id)))
    && (forall id :: id in s.decisions && s.decisions[id].effect == Policy.ALLOW ==>
          AllowedWhenRead(run, events, i, id, s.decisions[id].key, s.decisions[id].permissionId))
  }

  lemma AllowedLater(run: seq<State>, events: seq<Event>, i: nat, id: Uuid, key: Policy.PermissionKey, permissionId: Option<Uuid>)
    requires |run| == |events| + 1 && i < |events| && AllowedWhenRead(run, events, i, id, key, permissionId)
    ensures AllowedWhenRead(run, events, i + 1, id, key, permissionId)
  {
  }

  /** How one step changes what is known about a call's permission. */
  lemma PermissionsReadByStep(config: Config, s: State, e: Event, id: Uuid)
    requires config.Valid() && Enabled(config, s, e)
    ensures var t := Apply(config, s, e);
            && (id in t.calls && t.calls[id].phase.PermissionRead? ==>
                  id in s.calls && t.calls[id].command == s.calls[id].command
                  && (t.calls[id].phase == s.calls[id].phase
                      || (&& e == ReadPermission(id)
                          && t.calls[id].phase.permission ==
                             if s.calls[id].command.Key() in s.permissions then Some(s.permissions[s.calls[id].command.Key()])
                             else None)))
            && (id in t.decisions ==>
                  || (id in s.decisions && t.decisions[id] == s.decisions[id])
                  || (id in s.calls && s.calls[id].phase.PermissionRead?
                      && exists decisionId :: t.decisions[id] ==
                           Policy.Decide(s.calls[id].phase.permission, decisionId, id, s.calls[id].command.Key(), s.now)))
  {
    hide Limited, CostLimited, Denied, Failed, Succeeded, Consumption, AttributeCost, Store, Insertable, Accepts;
  }

  lemma AllowedAtRead(run: seq<State>, events: seq<Event>, i: nat, id: Uuid, key: Policy.PermissionKey,
                      permission: Policy.AgentModelPermission)
    requires |run| == |events| + 1 && i < |events| && events[i] == ReadPermission(id)
    requires key in run[i].permissions && run[i].permissions[key] == permission && permission.effect == Policy.ALLOW
    ensures AllowedWhenRead(run, events, i + 1, id, key, Some(permission.id))
  {
  }

  lemma StepKeepsAllowances(config: Config, run: seq<State>, events: seq<Event>, i: nat)
    requires IsRun(config, run, events) && i < |events| && AllowancesRead(run, events, i)
    ensures AllowancesRead(run, events, i + 1)
  {
    hide Apply, Enabled, AllowedWhenRead;
    RunStep(config, run, events, i);
    var s, t := run[i], run[i + 1];
    forall id | id in t.calls && t.calls[id].phase.PermissionRead? && t.calls[id].phase.permission.Some?
                && t.calls[id].phase.permission.value.effect == Policy.ALLOW
      ensures AllowedWhenRead(run, events, i + 1, id, t.calls[id].command.Key(), Some(t.calls[id].phase.permission.value.id))
    {
      PermissionsReadByStep(config, s, events[i], id);
      var key, permission := t.calls[id].command.Key(), t.calls[id].phase.permission.value;
      if t.calls[id].phase == s.calls[id].phase {
        AllowedLater(run, events, i, id, key, Some(permission.id));
      } else {
        AllowedAtRead(run, events, i, id, key, permission);
      }
    }
    forall id | id in t.decisions && t.decisions[id].effect == Policy.ALLOW
      ensures AllowedWhenRead(run, events, i + 1, id, t.decisions[id].key, t.decisions[id].permissionId)
    {
      PermissionsReadByStep(config, s, events[i], id);
      AllowedLater(run, events, i, id, t.decisions[id].key, t.decisions[id].permissionId);
    }
  }

  lemma {:induction false} RunKeepsAllowances(config: Config, run: seq<State>, events: seq<Event>, i: nat)
    requires IsRun(config, run, events) && Initial(run[0]) && i < |run|
    ensures AllowancesRead(run, events, i)
  {
    if i > 0 {
      hide Apply, Enabled;
      RunKeepsAllowances(config, run, events, i - 1);
      StepKeepsAllowances(config, run, events, i - 1);
    }
  }

  // The ledger reads behind the rows

  /** Before the i-th state the call read its principal's usage, and the gate admitted it. */
  ghost predicate PassedUsage(run: seq<State>, events: seq<Event>, i: nat, id: Uuid)
    requires |run| == |events| + 1 && i < |run|
  {
    exists n :: 0 <= n < i && events[n] == ReadUsage(id)
      && id in run[n].calls && run[n].calls[id].phase.Decided? && AfterUsageRead(run[n], id).UsageAdmitted?
  }

  /** After that it read its Tenant's cost, and that gate admitted it too. */
  ghost predicate PassedBoth(config: Config, run: seq<State>, events: seq<Event>, i: nat, id: Uuid)
    requires config.Valid() && |run| == |events| + 1 && i < |run|
  {
    exists n :: 0 <= n < i && events[n] == ReadCost(id)
      && id in run[n].calls && run[n].calls[id].phase.UsageAdmitted? && AfterCostRead(config, run[n], id).CostAdmitted?
      && PassedUsage(run, events, n, id)
  }

  /** What a row of this status has passed. */
  ghost predicate PassedFor(config: Config, run: seq<State>, events: seq<Event>, i: nat, id: Uuid, status: InvocationStatus)
    requires config.Valid() && |run| == |events| + 1 && i < |run|
  {
    && (status == COST_LIMITED ==> PassedUsage(run, events, i, id))
    && (status == SUCCEEDED || status == FAILED ==> PassedBoth(config, run, events, i, id))
  }

  ghost predicate CallPassed(config: Config, run: seq<State>, events: seq<Event>, i: nat, id: Uuid)
    requires config.Valid() && |run| == |events| + 1 && i < |run| && id in run[i].calls
  {
    match run[i].calls[id].phase
    case UsageAdmitted(_) => PassedUsage(run, events, i, id)
    case CostAdmitted(_) => PassedBoth(config, run, events, i, id)
    case Built(v) => PassedFor(config, run, events, i, id, v.status)
    case _ => true
  }

  ghost predicate AllPassed(config: Config, run: seq<State>, events: seq<Event>, i: nat)
    requires config.Valid() && |run| == |events| + 1 && i < |run|
  {
    && |run[0].ledger| <= |run[i].ledger|
    && (forall id :: id in run[i].calls ==> CallPassed(config, run, events, i, id))
    && (forall r :: |run[0].ledger| <= r < |run[i].ledger| ==>
          PassedFor(config, run, events, i, run[i].ledger[r].id, run[i].ledger[r].status))
  }

  lemma PassedLater(config: Config, run: seq<State>, events: seq<Event>, i: nat, id: Uuid)
    requires config.Valid() && |run| == |events| + 1 && i < |events|
    ensures PassedUsage(run, events, i, id) ==> PassedUsage(run, events, i + 1, id)
    ensures PassedBoth(config, run, events, i, id) ==> PassedBoth(config, run, events, i + 1, id)
    ensures PassedBoth(config, run, events, i, id) ==> PassedUsage(run, events, i, id)
  {
    hide AfterUsageRead, AfterCostRead;
  }

  lemma PassesUsageNow(run: seq<State>, events: seq<Event>, i: nat, id: Uuid)
    requires |run| == |events| + 1 && i < |events| && events[i] == ReadUsage(id)
    requires id in run[i].calls && run[i].calls[id].phase.Decided? && AfterUsageRead(run[i], id).UsageAdmitted?
    ensures PassedUsage(run, events, i + 1, id)
  {
  }

  lemma PassesBothNow(config: Config, run: seq<State>, events: seq<Event>, i: nat, id: Uuid)
    requires config.Valid() && |run| == |events| + 1 && i < |events| && events[i] == ReadCost(id)
    requires id in run[i].calls && run[i].calls[id].phase.UsageAdmitted? && AfterCostRead(config, run[i], id).CostAdmitted?
    requires PassedUsage(run, events, i, id)
    ensures PassedBoth(config, run, events, i + 1, id)
  {
  }

  /** Which step brings a call past a gate, or builds a row that needs it. */
  lemma GatesReadByStep(config: Config, s: State, e: Event, id: Uuid)
    requires config.Valid() && Enabled(config, s, e) && id in Apply(config, s, e).calls
    ensures var phase := Apply(config, s, e).calls[id].phase;
            || (id in s.calls && phase == s.calls[id].phase)
            || (id !in s.calls && phase.Accepted?)
            || (&& id in s.calls
                && (phase.UsageAdmitted? ==>
                      e == ReadUsage(id) && s.calls[id].phase.Decided? && AfterUsageRead(s, id).UsageAdmitted?)
                && (phase.CostAdmitted? ==>
                      e == ReadCost(id) && s.calls[id].phase.UsageAdmitted? && AfterCostRead(config, s, id).CostAdmitted?)
                && (phase.Built? && phase.invocation.status == COST_LIMITED ==> s.calls[id].phase.UsageAdmitted?)
                && (phase.Built? && phase.invocation.status in {SUCCEEDED, FAILED} ==> s.calls[id].phase.CostAdmitted?))
  {
    hide Limited, CostLimited, Denied, Failed, Succeeded, Consumption, AttributeCost, Store, Insertable, Accepts;
  }

  lemma CallStaysPassed(config: Config, run: seq<State>, events: seq<Event>, i: nat, id: Uuid)
    requires IsRun(config, run, events) && i < |events| && AllPassed(config, run, events, i) && id in run[i + 1].calls
    ensures CallPassed(config, run, events, i + 1, id)
  {
    hide Apply, Enabled, AfterUsageRead, AfterCostRead, PassedUsage, PassedBoth;
    RunStep(config, run, events, i);
    GatesReadByStep(config, run[i], events[i], id);
    PassedLater(config, run, events, i, id);
    if id in run[i].calls {
      assert CallPassed(config, run, events, i, id);
      var phase := run[i + 1].calls[id].phase;
      if phase != run[i].calls[id].phase {
        if phase.UsageAdmitted? {
          PassesUsageNow(run, events, i, id);
        } else if phase.CostAdmitted? {
          PassesBothNow(config, run, events, i, id);
        }
      }
    }
  }

  /** A step adds a row only by persisting what its call built. */
  lemma RowsAddedByStep(config: Config, s: State, e: Event)
    requires config.Valid() && Enabled(config, s, e) && CallsOk(s)
    ensures var t := Apply(config, s, e);
            || t.ledger == s.ledger
            || (&& e.Persist? && e.id in s.calls && s.calls[e.id].phase.Built?
                && |t.ledger| == |s.ledger| + 1 && t.ledger[..|s.ledger|] == s.ledger
                && t.ledger[|s.ledger|].id == e.id && t.ledger[|s.ledger|].status == s.calls[e.id].phase.invocation.status)
  {
    hide AfterUsageRead, AfterCostRead, AfterProvider, Denied, Failed, Insertable, Accepts, Valid;
    if e.Persist? {
      assert CallOk(s, e.id);
    }
  }

  lemma StepKeepsPassed(config: Config, run: seq<State>, events: seq<Event>, i: nat)
    requires IsRun(config, run, events) && i < |events| && CallsOk(run[i]) && AllPassed(config, run, events, i)
    ensures AllPassed(config, run, events, i + 1)
  {
    hide Apply, Enabled, AfterUsageRead, AfterCostRead, PassedUsage, PassedBoth, CallsOk;
    RunStep(config, run, events, i);
    var s, t := run[i], run[i + 1];
    RowsAddedByStep(config, s, events[i]);
    forall id | id in t.calls
      ensures CallPassed(config, run, events, i + 1, id)
    {
      CallStaysPassed(config, run, events, i, id);
    }
    forall r | |run[0].ledger| <= r < |t.ledger|
      ensures PassedFor(config, run, events, i + 1, t.ledger[r].id, t.ledger[r].status)
    {
      var row := t.ledger[r];
      PassedLater(config, run, events, i, row.id);
      if r < |s.ledger| {
        assert s.ledger[r] == row;
      } else {
        assert CallPassed(config, run, events, i, row.id);
      }
    }
  }

  lemma {:induction false} RunKeepsPassed(config: Config, run: seq<State>, events: seq<Event>, i: nat)
    requires IsRun(config, run, events) && Initial(run[0]) && i < |run|
    ensures AllPassed(config, run, events, i)
  {
    if i > 0 {
      hide Apply, Enabled, AllPassed;
      RunKeepsPassed(config, run, events, i - 1);
      RunKeepsCallsOk(config, run, events, i - 1);
      StepKeepsPassed(config, run, events, i - 1);
    }
  }

  // The two results

  /** Every row appended in a run passed its gates, in every interleaving: it links to exactly one
      committed decision for its own invocation, Tenant, Agent and Model; it is denied exactly when
      that decision did not allow; an allowing decision rests on the permission that the call's own
      read found allowing; a cost-limited row was admitted by the usage gate's read of the ledger; and
      an executed row by that read and then by the cost gate's. */
  lemma RowsPassedTheGates(config: Config, run: seq<State>, events: seq<Event>, i: nat, r: nat)
    requires IsRun(config, run, events) && Initial(run[0]) && i < |run|
    requires |run[0].ledger| <= r < |run[i].ledger|
    ensures var row := run[i].ledger[r];
            && row.id in run[i].decisions
            && var d := run[i].decisions[row.id];
               && row.policyDecisionId == Some(d.id) && d.invocationId == row.id
               && d.key == Policy.PermissionKey(row.tenantId, row.agentId, row.modelId)
               && (forall other :: other in run[i].decisions && run[i].decisions[other].id == d.id ==> other == row.id)
               && (row.status == DENIED <==> d.effect != Policy.ALLOW)
               && (row.status != DENIED ==> AllowedWhenRead(run, events, i, row.id, d.key, d.permissionId))
               && (row.status == COST_LIMITED ==> PassedUsage(run, events, i, row.id))
               && (row.status == SUCCEEDED || row.status == FAILED ==> PassedBoth(config, run, events, i, row.id))
  {
    hide Apply, Enabled, AllowedWhenRead, PassedUsage, PassedBoth;
    RunKeepsLedgerOk(config, run, events, i);
    RunKeepsAllowances(config, run, events, i);
    RunKeepsPassed(config, run, events, i);
    assert RowLogged(run[i], run[i].ledger[r]);
  }

  /** Each succeeded row has exactly one provider call and it returned, each failed row exactly one and
      it raised, a row of another status none. Conversely a logged call has a row exactly when its
      handler finished storing it; a handler that raises after the provider answered leaves none. */
  lemma ProviderCallsMatchRows(config: Config, run: seq<State>, events: seq<Event>, i: nat, id: Uuid)
    requires IsRun(config, run, events) && Initial(run[0]) && i < |run|
    ensures forall r :: |run[0].ledger| <= r < |run[i].ledger| && run[i].ledger[r].id == id ==>
              Outcomes(run[i].providerLog, id) == ExpectedOutcomes(run[i].ledger[r].status)
    ensures Outcomes(run[i].providerLog, id) != [] ==>
              id in run[i].calls && (HasRow(run[i], |run[0].ledger|, id) <==> run[i].calls[id].phase.Returned?)
    ensures forall q, r :: |run[0].ledger| <= q < r < |run[i].ledger| ==> run[i].ledger[q].id != run[i].ledger[r].id
  {
    hide Apply, Enabled, Outcomes;
    RunKeepsLedgerOk(config, run, events, i);
    if HasRow(run[i], |run[0].ledger|, id) {
      var r :| |run[0].ledger| <= r < |run[i].ledger| && run[i].ledger[r].id == id;
      assert RowLogged(run[i], run[i].ledger[r]);
    }
    if id in run[i].calls && run[i].calls[id].phase.Returned? {
      assert HasRow(run[i], |run[0].ledger|, id);
    }
  }

  /** The provider answers with white space only: the call is logged, the handler raises, and in every
      run that ends so the call has no row. */
  lemma BlankAnswersLeaveNoRow(config: Config, run: seq<State>, events: seq<Event>, id: Uuid, blank: string,
                               usage: Option<InvocationUsage>, responseId: Option<string>) returns (t: State)
    requires IsRun(config, run, events) && Initial(run[0]) && Strip(blank) == ""
    requires id in run[|events|].calls && run[|events|].calls[id].phase.CostAdmitted? && (usage.Some? ==> usage.value.Valid())
    ensures IsRun(config, run + [t], events + [ProviderReturns(id, blank, usage, responseId)])
    ensures Outcomes(t.providerLog, id) == [false] && !HasRow(t, |run[0].ledger|, id)
    ensures id in t.calls && t.calls[id].phase.Raised?
  {
    hide Strip;
    var s, e := run[|events|], ProviderReturns(id, blank, usage, responseId);
    BlankAnswerRaises(config, s, id, blank, usage, responseId);
    AnswerApplies(config, s, id, blank, usage, responseId);
    hide AfterProvider;
    t := Apply(config, s, e);
    RunExtends(config, run, events, e, t);
    RunKeepsLedgerOk(config, run, events, |events|);
    assert CallLogged(s, id);
    OutcomesAppend(s.providerLog, ProviderCall(id, false), id);
    hide Apply, Enabled, Outcomes;
    var longer, more := run + [t], events + [e];
    RunKeepsLedgerOk(config, longer, more, |more|);
    if HasRow(longer[|more|], |longer[0].ledger|, id) {
      ProviderCallsMatchRows(config, longer, more, |more|, id);
    }
  }

  lemma BlankAnswerRaises(config: Config, s: State, id: Uuid, blank: string, usage: Option<InvocationUsage>,
                          responseId: Option<string>)
    requires config.Valid() && id in s.calls && s.calls[id].phase.CostAdmitted? && (usage.Some? ==> usage.value.Valid())
    requires Strip(blank) == ""
    ensures AfterProvider(config, s, id, blank, usage, responseId) == Raised
  {
    hide AttributeCost, Succeeded, PricingFor, Strip;
    PricingIsValid(config, s.calls[id].command);
    var cost := AttributeCost(usage, PricingFor(config, s.calls[id].command));
    if cost.Success? && (cost.value.Some? ==> cost.value.value.Valid()) {
      SucceededIsBuiltIff(Who(s, id, s.calls[id].phase.decision), blank, usage, responseId, cost.value);
    }
  }
}
