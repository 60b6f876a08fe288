/**
 How far consumption can overshoot a limit. Both gates admit on a sum read earlier, so the
 bound counts the calls between that read and their persisted row. One argument covers the
 usage limit of a principal and the cost budget of a Tenant.
 */
module Overshoot {
  import opened Wrappers
  import opened Sets
  import opened Uuids
  import opened Decimals
  import opened UsageLimit
  import opened CostBudget
  import opened Cost
  import opened Invocations
  import opened InvocationRows
  import opened Admission

  /** The calls whose reported units or cost this meter will count. */
  predicate Belongs(meter: Meter, c: Call) {
    match meter
    case UsageMeter(principalId, window) => c.command.principalId == principalId && window.Contains(c.startedAt)
    case CostMeter(tenantId, window) => c.command.tenantId == tenantId && window.Contains(c.startedAt)
  }

  /** Past the meter's own gate, and not yet persisted or given up. */
  predicate PastGate(meter: Meter, phase: Phase) {
    match meter
    case UsageMeter(_, _) =>
      || phase.UsageAdmitted? || phase.CostAdmitted?
      || (phase.Built? && phase.invocation.status in {SUCCEEDED, FAILED, COST_LIMITED})
    case CostMeter(_, _) =>
      phase.CostAdmitted? || (phase.Built? && phase.invocation.status in {SUCCEEDED, FAILED})
  }

  ghost function InFlight(meter: Meter, s: State): set<Uuid> {
    set id | id in s.calls && Belongs(meter, s.calls[id]) && PastGate(meter, s.calls[id].phase)
  }

  /** What the gate leaves free of its limit for calls already running; the same for every call. */
  ghost predicate Admits(config: Config, meter: Meter, s: State, headroom: int) {
    match meter
    case UsageMeter(principalId, window) =>
      && window == UtcDayWindow(window.start)
      && forall id :: id in s.calls && s.calls[id].command.principalId == principalId ==>
           s.calls[id].command.usageLimit - s.calls[id].command.allowance == headroom
    case CostMeter(tenantId, window) =>
      && window == UtcDayWindow(window.start)
      && (tenantId in config.budgets ==>
            var b := config.budgets[tenantId];
            && b.Valid() && b.limit < Pow10(30)
            && b.limit + RoundingSlack(b.limit) - b.allowance == headroom)
  }

  ghost predicate ReportsAtMost(meter: Meter, s: State, most: nat) {
    forall id :: id in InFlight(meter, s) && s.calls[id].phase.Built? ==>
      Reading(meter, Store(s.calls[id].phase.invocation)) <= most
  }

  ghost predicate Bounded(meter: Meter, s: State, headroom: int, concurrent: nat, most: nat) {
    Consumption(meter, s.ledger) + most * |InFlight(meter, s)| <= headroom + concurrent * most
  }

  lemma MostTimes(most: nat, a: nat, b: nat)
    requires a <= b
    ensures most * a <= most * b
  {
  }

  lemma ConsumptionAppend(meter: Meter, ledger: seq<InvocationRow>, row: InvocationRow)
    ensures Consumption(meter, ledger + [row]) == Consumption(meter, ledger) + Reading(meter, row)
  {
    assert (ledger + [row])[..|ledger|] == ledger;
  }

  /** Passing the usage gate shows that consumption was within the headroom when it was read. */
  lemma UsageGateReads(config: Config, s: State, id: Uuid, principalId: string, window: UsageWindow, headroom: int)
    requires id in s.calls && s.calls[id].phase.Decided?
    requires Admits(config, UsageMeter(principalId, window), s, headroom)
    requires Belongs(UsageMeter(principalId, window), s.calls[id])
    requires AfterUsageRead(s, id).UsageAdmitted?
    ensures Consumption(UsageMeter(principalId, window), s.ledger) <= headroom
  {
    hide Consumption, Limited;
    var at := s.calls[id].startedAt;
    UtcDayWindowsPartitionTime(at, window.start);
    assert UtcDayWindow(at) == window;
  }

  lemma CostGateReads(config: Config, s: State, id: Uuid, tenantId: Uuid, window: UsageWindow, headroom: int)
    requires config.Valid() && id in s.calls && s.calls[id].phase.UsageAdmitted?
    requires Admits(config, CostMeter(tenantId, window), s, headroom)
    requires Belongs(CostMeter(tenantId, window), s.calls[id])
    requires AfterCostRead(config, s, id).CostAdmitted?
    ensures Consumption(CostMeter(tenantId, window), s.ledger) <= headroom
  {
    hide Consumption, CostLimited, RoundSignificant, Pow10;
    var at := s.calls[id].startedAt;
    UtcDayWindowsPartitionTime(at, window.start);
    assert UtcDayWindow(at) == window;
    var attributed := Consumption(CostMeter(tenantId, window), s.ledger);
    var budget := config.budgets[tenantId];
    if attributed >= 0 {
      AdmittedCostFitsBudget(attributed, budget, window);
    }
  }

  lemma EntersByTheUsageRead(config: Config, meter: Meter, s: State, e: Event, id: Uuid)
    requires config.Valid() && Enabled(config, s, e) && CallsOk(s) && meter.UsageMeter?
    requires id in InFlight(meter, Apply(config, s, e)) && id !in InFlight(meter, s)
    ensures e == ReadUsage(id) && Belongs(meter, s.calls[id]) && AfterUsageRead(s, id).UsageAdmitted?
  {
    hide Consumption, Limited, CostLimited, Succeeded, Failed, Denied, AttributeCost, Store, Insertable, Accepts,
      UtcDayWindow, PricingFor;
    assert id in s.calls ==> CallOk(s, id);
    hide CallOk;
  }

  lemma EntersByTheCostRead(config: Config, meter: Meter, s: State, e: Event, id: Uuid)
    requires config.Valid() && Enabled(config, s, e) && CallsOk(s) && meter.CostMeter?
    requires id in InFlight(meter, Apply(config, s, e)) && id !in InFlight(meter, s)
    ensures e == ReadCost(id) && Belongs(meter, s.calls[id]) && AfterCostRead(config, s, id).CostAdmitted?
  {
    hide Consumption, Limited, CostLimited, Succeeded, Failed, Denied, AttributeCost, Store, Insertable, Accepts,
      UtcDayWindow, PricingFor;
    assert id in s.calls ==> CallOk(s, id);
    hide CallOk;
  }

  /** A call enters flight only through its gate, and the gate saw the current ledger. */
  lemma EntersThroughTheGate(config: Config, meter: Meter, s: State, e: Event, headroom: int, id: Uuid)
    requires config.Valid() && Enabled(config, s, e) && CallsOk(s)
    requires Admits(config, meter, s, headroom)
    requires id in InFlight(meter, Apply(config, s, e)) && id !in InFlight(meter, s)
    ensures Consumption(meter, s.ledger) <= headroom
    ensures !e.Persist?
  {
    hide Consumption, Apply, AfterUsageRead, AfterCostRead, Admits, CallsOk, InFlight, Belongs;
    match meter
    case UsageMeter(principalId, window) =>
      EntersByTheUsageRead(config, meter, s, e, id);
      UsageGateReads(config, s, id, principalId, window, headroom);
    case CostMeter(tenantId, window) =>
      EntersByTheCostRead(config, meter, s, e, id);
      CostGateReads(config, s, id, tenantId, window, headroom);
  }

  /** A row counts for a meter only if its call was in flight past that meter's gate. */
  lemma OnlyInFlightRowsCount(meter: Meter, s: State, id: Uuid)
    requires CallsOk(s) && id in s.calls && s.calls[id].phase.Built?
    requires id !in InFlight(meter, s)
    ensures Reading(meter, Store(s.calls[id].phase.invocation)) == 0
  {
    assert CallOk(s, id);
  }

  /** Persisting ends one call's flight and starts no other. */
  lemma PersistLands(config: Config, meter: Meter, s: State, id: Uuid)
    requires config.Valid() && Enabled(config, s, Persist(id))
    ensures var t := Apply(config, s, Persist(id));
            && InFlight(meter, t) == InFlight(meter, s) - {id}
            && t.ledger == s.ledger + [Store(s.calls[id].phase.invocation)]
  {
    hide Insertable, Store;
  }

  lemma LandedBound(meter: Meter, s: State, t: State, id: Uuid, reading: int, headroom: int, concurrent: nat, most: nat)
    requires Bounded(meter, s, headroom, concurrent, most)
    requires InFlight(meter, t) == InFlight(meter, s) - {id}
    requires Consumption(meter, t.ledger) == Consumption(meter, s.ledger) + reading
    requires if id in InFlight(meter, s) then reading <= most else reading == 0
    ensures Bounded(meter, t, headroom, concurrent, most)
  {
    hide InFlight, Consumption;
    var before, after := InFlight(meter, s), InFlight(meter, t);
    if id in before {
      assert before == after + {id};
      assert most * (|after| + 1) == most * |after| + most;
    } else {
      assert before == after;
    }
  }

  lemma PersistKeepsBound(config: Config, meter: Meter, s: State, id: Uuid, headroom: int, concurrent: nat, most: nat)
    requires config.Valid() && Enabled(config, s, Persist(id)) && CallsOk(s)
    requires Bounded(meter, s, headroom, concurrent, most) && ReportsAtMost(meter, s, most)
    ensures Bounded(meter, Apply(config, s, Persist(id)), headroom, concurrent, most)
  {
    var v := s.calls[id].phase.invocation;
    if id !in InFlight(meter, s) {
      OnlyInFlightRowsCount(meter, s, id);
    }
    PersistLands(config, meter, s, id);
    hide Apply, Enabled, Bounded, InFlight, CallsOk, Consumption, Reading, Store;
    ConsumptionAppend(meter, s.ledger, Store(v));
    LandedBound(meter, s, Apply(config, s, Persist(id)), id, Reading(meter, Store(v)), headroom, concurrent, most);
  }

  lemma LedgerGrowsOnlyByPersist(config: Config, s: State, e: Event)
    requires config.Valid() && Enabled(config, s, e)
    ensures !e.Persist? ==> Apply(config, s, e).ledger == s.ledger
  {
  }

  lemma StepKeepsBound(config: Config, meter: Meter, s: State, e: Event, headroom: int, concurrent: nat, most: nat)
    requires config.Valid() && Enabled(config, s, e) && CallsOk(s)
    requires Admits(config, meter, s, headroom) && ReportsAtMost(meter, s, most)
    requires |InFlight(meter, Apply(config, s, e))| <= concurrent
    requires Bounded(meter, s, headroom, concurrent, most)
    ensures Bounded(meter, Apply(config, s, e), headroom, concurrent, most)
  {
    hide Apply, Enabled, InFlight, Consumption, CallsOk, Admits, ReportsAtMost;
    var t := Apply(config, s, e);
    LedgerGrowsOnlyByPersist(config, s, e);
    if e.Persist? {
      PersistKeepsBound(config, meter, s, e.id, headroom, concurrent, most);
    } else if InFlight(meter, t) <= InFlight(meter, s) {
      SubsetSize(InFlight(meter, t), InFlight(meter, s));
      MostTimes(most, |InFlight(meter, t)|, |InFlight(meter, s)|);
    } else {
      var id :| id in InFlight(meter, t) && id !in InFlight(meter, s);
      EntersThroughTheGate(config, meter, s, e, headroom, id);
      MostTimes(most, |InFlight(meter, t)|, concurrent);
    }
  }

  /** One UTC day, one meter: at most `concurrent` calls between their read and their row, each
      reporting at most `most`. */
  ghost predicate Day(config: Config, meter: Meter, run: seq<State>, events: seq<Event>,
                      headroom: int, concurrent: nat, most: nat) {
    && IsRun(config, run, events) && Initial(run[0])
    && (forall i :: 0 <= i < |run| ==> Admits(config, meter, run[i], headroom))
    && (forall i :: 0 <= i < |run| ==> |InFlight(meter, run[i])| <= concurrent)
    && (forall i :: 0 <= i < |run| ==> ReportsAtMost(meter, run[i], most))
    && Consumption(meter, run[0].ledger) <= headroom + concurrent * most
  }

  /** The overshoot bound, in every interleaving. */
  lemma {:induction false} OvershootIsBounded(config: Config, meter: Meter, run: seq<State>, events: seq<Event>,
                                              headroom: int, concurrent: nat, most: nat, i: nat)
    requires Day(config, meter, run, events, headroom, concurrent, most) && i < |run|
    ensures Bounded(meter, run[i], headroom, concurrent, most)
    ensures Consumption(meter, run[i].ledger) <= headroom + concurrent * most
  {
    hide Apply, Enabled, Consumption, CallsOk, Admits, ReportsAtMost;
    if i == 0 {
      assert InFlight(meter, run[0]) == {};
    } else {
      hide InFlight;
      OvershootIsBounded(config, meter, run, events, headroom, concurrent, most, i - 1);
      RunKeepsCallsOk(config, run, events, i - 1);
      RunStep(config, run, events, i - 1);
      StepKeepsBound(config, meter, run[i - 1], events[i - 1], headroom, concurrent, most);
    }
    MostTimes(most, 0, |InFlight(meter, run[i])|);
  }

  /** A principal's known units never exceed limit - allowance + k * M in its UTC day. */
  lemma UsageOvershoot(config: Config, principalId: string, at: int, run: seq<State>, events: seq<Event>,
                       limit: int, allowance: int, concurrent: nat, most: nat, i: nat)
    requires Day(config, UsageMeter(principalId, UtcDayWindow(at)), run, events, limit - allowance, concurrent, most)
    requires i < |run|
    ensures var known := Consumption(UsageMeter(principalId, UtcDayWindow(at)), run[i].ledger);
            && known <= limit - allowance + concurrent * most
            && (concurrent == 1 && most <= allowance ==> known <= limit)
  {
    hide Day;
    OvershootIsBounded(config, UsageMeter(principalId, UtcDayWindow(at)), run, events, limit - allowance, concurrent, most, i);
  }

  /** The same for a Tenant's estimated cost, over all of its principals at once. */
  lemma CostOvershoot(config: Config, tenantId: Uuid, at: int, run: seq<State>, events: seq<Event>,
                      concurrent: nat, most: nat, i: nat)
    requires tenantId in config.budgets && config.budgets[tenantId].Valid()
    requires var b := config.budgets[tenantId];
             Day(config, CostMeter(tenantId, UtcDayWindow(at)), run, events,
                 b.limit + RoundingSlack(b.limit) - b.allowance, concurrent, most)
    requires i < |run|
    ensures var b := config.budgets[tenantId];
            var cost := Consumption(CostMeter(tenantId, UtcDayWindow(at)), run[i].ledger);
            && cost <= b.limit + RoundingSlack(b.limit) - b.allowance + concurrent * most
            && (b.limit < Pow10(28) ==> cost <= b.limit - b.allowance + concurrent * most)
            && (b.limit < Pow10(28) && concurrent == 1 && most <= b.allowance ==> cost <= b.limit)
  {
    hide Day;
    var b := config.budgets[tenantId];
    OvershootIsBounded(config, CostMeter(tenantId, UtcDayWindow(at)), run, events,
                       b.limit + RoundingSlack(b.limit) - b.allowance, concurrent, most, i);
  }

  // Rejections last for the day

  lemma StoredRowsCountUp(v: Invocation)
    requires Insertable(Store(v))
    ensures CountsUp(Store(v))
  {
    hide LimitedEvidenceCheck, CostBudgetEvidenceCheck, StatusOutputCheck;
  }

  lemma StepConsumesMore(config: Config, meter: Meter, s: State, e: Event)
    requires config.Valid() && Enabled(config, s, e)
    ensures Consumption(meter, s.ledger) <= Consumption(meter, Apply(config, s, e).ledger)
  {
    hide Store, Insertable, Consumption;
    LedgerGrowsOnlyByPersist(config, s, e);
    if e.Persist? {
      var v := s.calls[e.id].phase.invocation;
      StoredRowsCountUp(v);
      ConsumptionAppend(meter, s.ledger, Store(v));
    }
  }

  lemma {:induction false} ConsumptionOnlyGrows(config: Config, meter: Meter, run: seq<State>, events: seq<Event>, i: nat, j: nat)
    requires IsRun(config, run, events) && i <= j < |run|
    ensures Consumption(meter, run[i].ledger) <= Consumption(meter, run[j].ledger)
    decreases j
  {
    hide Apply, Enabled, Consumption;
    if i < j {
      RunStep(config, run, events, j - 1);
      ConsumptionOnlyGrows(config, meter, run, events, i, j - 1);
      StepConsumesMore(config, meter, run[j - 1], events[j - 1]);
    }
  }

  /** Once a read of the usage gate rejects, every later read of the same day rejects. */
  lemma UsageRejectionsLast(config: Config, principalId: string, window: UsageWindow, run: seq<State>, events: seq<Event>,
                            limit: int, allowance: int, i: nat, j: nat)
    requires IsRun(config, run, events) && i <= j < |run|
    requires var d := DecideUsageLimit(Consumption(UsageMeter(principalId, window), run[i].ledger), limit, allowance, window);
             d.Success? && !d.value.allowed
    ensures var d := DecideUsageLimit(Consumption(UsageMeter(principalId, window), run[j].ledger), limit, allowance, window);
            d.Success? && !d.value.allowed
  {
    hide Consumption;
    ConsumptionOnlyGrows(config, UsageMeter(principalId, window), run, events, i, j);
  }

  lemma CostRejectionsLast(config: Config, tenantId: Uuid, window: UsageWindow, run: seq<State>, events: seq<Event>,
                           budget: TenantCostBudget, i: nat, j: nat)
    requires IsRun(config, run, events) && i <= j < |run| && budget.Valid()
    requires var d := DecideTenantCostBudget(Consumption(CostMeter(tenantId, window), run[i].ledger), budget, window);
             d.Success? && !d.value.allowed
    ensures var d := DecideTenantCostBudget(Consumption(CostMeter(tenantId, window), run[j].ledger), budget, window);
            d.Success? && !d.value.allowed
  {
    hide Consumption, RoundSignificant;
    var meter := CostMeter(tenantId, window);
    ConsumptionOnlyGrows(config, meter, run, events, i, j);
    RoundSignificantMonotone(28, Consumption(meter, run[i].ledger) + budget.allowance,
                             Consumption(meter, run[j].ledger) + budget.allowance);
  }
}
