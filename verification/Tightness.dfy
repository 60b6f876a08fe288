/**
 The overshoot bound is reached: neither gate sees the calls in flight, so any number may pass on
 the same reading, and all of them may land in full.
 */
module Tightness {
  import opened Wrappers
  import opened Sets
  import opened Uuids
  import opened Text
  import opened Decimals
  import opened UsageLimit
  import opened CostBudget
  import opened Cost
  import opened Invocations
  import opened InvocationRows
  import opened HandlerRows
  import opened Admission
  import opened Overshoot
  import Policy = PolicyRisk

  /** Whatever is in flight, the usage gate admits exactly while the ledger leaves room for one allowance. */
  lemma GateIgnoresFlights(s: State, id: Uuid)
    requires id in s.calls && s.calls[id].phase.Decided?
    ensures var c := s.calls[id].command;
            var known := Consumption(UsageMeter(c.principalId, UtcDayWindow(s.calls[id].startedAt)), s.ledger);
            AfterUsageRead(s, id).UsageAdmitted? <==>
            0 <= known <= c.usageLimit - c.allowance && 0 < c.allowance <= c.usageLimit
  {
    hide Limited, Consumption, UtcDayWindow;
  }

  /** The cost gate, likewise, looks at nothing but the ledger and the configured budget. */
  lemma CostGateIgnoresFlights(config: Config, s: State, id: Uuid)
    requires config.Valid() && id in s.calls && s.calls[id].phase.UsageAdmitted?
    ensures var tenantId := s.calls[id].command.tenantId;
            var known := Consumption(CostMeter(tenantId, UtcDayWindow(s.calls[id].startedAt)), s.ledger);
            AfterCostRead(config, s, id).CostAdmitted? <==>
            && tenantId in config.budgets && known >= 0
            && RoundSignificant(28, known + config.budgets[tenantId].allowance) <= config.budgets[tenantId].limit
  {
    hide CostLimited, Consumption, UtcDayWindow, RoundSignificant;
  }

  // One call up to the provider

  /** A call of this command, accepted now, passes policy and both gates. */
  predicate Open(config: Config, s: State, command: Command) {
    && config.Valid() && Accepts(config, command)
    && command.Key() in s.permissions && s.permissions[command.Key()].effect == Policy.ALLOW
    && 0 < command.allowance <= command.usageLimit
    && 0 <= Consumption(UsageMeter(command.principalId, UtcDayWindow(s.now)), s.ledger) <= command.usageLimit - command.allowance
    && command.tenantId in config.budgets
    && var attributed := Consumption(CostMeter(command.tenantId, UtcDayWindow(s.now)), s.ledger);
       && attributed >= 0
       && RoundSignificant(28, attributed + config.budgets[command.tenantId].allowance) <= config.budgets[command.tenantId].limit
  }

  /** The decision of a call, which takes the call's own identity for its own. */
  function Decision(s: State, id: Uuid, command: Command): Policy.PolicyDecision
    requires command.Key() in s.permissions
  {
    Policy.Decide(Some(s.permissions[command.Key()]), id, id, command.Key(), s.now)
  }

  function At(s: State, id: Uuid, command: Command, phase: Phase): State {
    s.(calls := s.calls[id := Call(command, s.now, phase)])
  }

  /** The state in which this call, decided, stands at a phase. */
  function DecidedAt(s: State, id: Uuid, command: Command, phase: Phase): State
    requires command.Key() in s.permissions
  {
    At(s, id, command, phase).(decisions := s.decisions[id := Decision(s, id, command)])
  }

  /** No call and no decision has this identity. */
  ghost predicate Unused(s: State, id: Uuid) {
    && id !in s.calls && id !in s.decisions
    && forall other :: other in s.decisions ==> s.decisions[other].id != id
  }

  lemma AcceptAndRead(config: Config, s: State, id: Uuid, command: Command)
    requires Open(config, s, command) && Unused(s, id)
    ensures var permission := Some(s.permissions[command.Key()]);
            IsRun(config, [s, At(s, id, command, Accepted), At(s, id, command, PermissionRead(permission))],
                  [Accept(id, command), ReadPermission(id)])
  {
    hide Accepts, Consumption, UtcDayWindow, RoundSignificant;
    assert Apply(config, At(s, id, command, Accepted), ReadPermission(id)) ==
           At(s, id, command, PermissionRead(Some(s.permissions[command.Key()])));
  }

  lemma Commits(config: Config, s: State, id: Uuid, command: Command)
    requires Open(config, s, command) && Unused(s, id)
    ensures var read := At(s, id, command, PermissionRead(Some(s.permissions[command.Key()])));
            IsRun(config, [read, DecidedAt(s, id, command, Decided(Decision(s, id, command)))], [CommitDecision(id, id)])
  {
    hide Accepts, Consumption, UtcDayWindow, RoundSignificant;
    var read := At(s, id, command, PermissionRead(Some(s.permissions[command.Key()])));
    assert Apply(config, read, CommitDecision(id, id)) == DecidedAt(s, id, command, Decided(Decision(s, id, command)));
  }

  lemma PassesUsage(config: Config, s: State, id: Uuid, command: Command)
    requires Open(config, s, command)
    ensures var d := Decision(s, id, command);
            IsRun(config, [DecidedAt(s, id, command, Decided(d)), DecidedAt(s, id, command, UsageAdmitted(d))], [ReadUsage(id)])
  {
    hide Accepts, Consumption, UtcDayWindow, RoundSignificant, AfterUsageRead, Apply, Enabled;
    var before := DecidedAt(s, id, command, Decided(Decision(s, id, command)));
    GateIgnoresFlights(before, id);
    AdmissionKeepsDecision(before, id);
    UsageReadApplies(config, before, id);
  }

  lemma AdmissionKeepsDecision(s: State, id: Uuid)
    requires id in s.calls && s.calls[id].phase.Decided? && AfterUsageRead(s, id).UsageAdmitted?
    ensures AfterUsageRead(s, id) == UsageAdmitted(s.calls[id].phase.decision)
  {
    hide Limited, Consumption, UtcDayWindow;
  }

  lemma PassesCost(config: Config, s: State, id: Uuid, command: Command)
    requires Open(config, s, command)
    ensures var d := Decision(s, id, command);
            IsRun(config, [DecidedAt(s, id, command, UsageAdmitted(d)), DecidedAt(s, id, command, CostAdmitted(d))], [ReadCost(id)])
  {
    hide Accepts, Consumption, UtcDayWindow, RoundSignificant, AfterCostRead, Apply, Enabled;
    var before := DecidedAt(s, id, command, UsageAdmitted(Decision(s, id, command)));
    CostGateIgnoresFlights(config, before, id);
    CostAdmissionKeepsDecision(config, before, id);
    CostReadApplies(config, before, id);
  }

  lemma CostAdmissionKeepsDecision(config: Config, s: State, id: Uuid)
    requires config.Valid() && id in s.calls && s.calls[id].phase.UsageAdmitted? && AfterCostRead(config, s, id).CostAdmitted?
    ensures AfterCostRead(config, s, id) == CostAdmitted(s.calls[id].phase.decision)
  {
    hide CostLimited, Consumption, UtcDayWindow, RoundSignificant;
  }

  lemma RunsJoin(config: Config, a: seq<State>, events: seq<Event>, b: seq<State>, more: seq<Event>)
    requires IsRun(config, a, events) && IsRun(config, b, more) && a[|events|] == b[0]
    ensures IsRun(config, a + b[1..], events + more)
    ensures (a + b[1..])[0] == a[0] && (a + b[1..])[|events + more|] == b[|more|]
  {
    hide Enabled, Apply;
    var run, all := a + b[1..], events + more;
    forall i | 0 <= i < |all|
      ensures Enabled(config, run[i], all[i]) && run[i + 1] == Apply(config, run[i], all[i])
    {
      if i < |events| {
        RunStep(config, a, events, i);
      } else {
        RunStep(config, b, more, i - |events|);
      }
    }
  }

  /** The five statements of one call, from when it is accepted to the provider. */
  function Climb(id: Uuid, command: Command): seq<Event> {
    [Accept(id, command), ReadPermission(id), CommitDecision(id, id), ReadUsage(id), ReadCost(id)]
  }

  lemma OneClimbs(config: Config, s: State, id: Uuid, command: Command) returns (run: seq<State>)
    requires Open(config, s, command) && Unused(s, id)
    ensures IsRun(config, run, Climb(id, command)) && run[0] == s
    ensures run[5] == DecidedAt(s, id, command, CostAdmitted(Decision(s, id, command)))
  {
    AcceptAndRead(config, s, id, command);
    Commits(config, s, id, command);
    PassesUsage(config, s, id, command);
    PassesCost(config, s, id, command);
    hide Open, IsRun, At, DecidedAt, Decision;
    var d, read := Decision(s, id, command), PermissionRead(Some(s.permissions[command.Key()]));
    var a := [s, At(s, id, command, Accepted), At(s, id, command, read)];
    var b := [At(s, id, command, read), DecidedAt(s, id, command, Decided(d))];
    var c := [DecidedAt(s, id, command, Decided(d)), DecidedAt(s, id, command, UsageAdmitted(d))];
    var e := [DecidedAt(s, id, command, UsageAdmitted(d)), DecidedAt(s, id, command, CostAdmitted(d))];
    RunsJoin(config, a, [Accept(id, command), ReadPermission(id)], b, [CommitDecision(id, id)]);
    RunsJoin(config, a + b[1..], [Accept(id, command), ReadPermission(id)] + [CommitDecision(id, id)], c, [ReadUsage(id)]);
    RunsJoin(config, a + b[1..] + c[1..], [Accept(id, command), ReadPermission(id)] + [CommitDecision(id, id)] + [ReadUsage(id)],
             e, [ReadCost(id)]);
    run := a + b[1..] + c[1..] + e[1..];
    assert Climb(id, command) ==
           [Accept(id, command), ReadPermission(id)] + [CommitDecision(id, id)] + [ReadUsage(id)] + [ReadCost(id)];
  }

  // All calls up to the provider

  /** These calls stand past both gates and nothing else has changed. */
  ghost predicate Aloft(s: State, t: State, ids: seq<Uuid>, command: Command) {
    && command.Key() in s.permissions
    && t.now == s.now && t.permissions == s.permissions && t.ledger == s.ledger
    && (forall id :: id in t.calls <==> id in ids) && (forall id :: id in t.decisions <==> id in ids)
    && (forall id :: id in ids ==>
          && t.calls[id] == Call(command, s.now, CostAdmitted(Decision(s, id, command)))
          && t.decisions[id].id == id)
  }

  ghost predicate Scripted(events: seq<Event>, ids: seq<Uuid>, command: Command, units: nat) {
    forall e :: e in events ==>
      && (e.Accept? ==> e.id in ids && e.command == command)
      && (e.ProviderReturns? ==> e == Answer(e.id, units))
  }

  lemma AllClimb(config: Config, s: State, ids: seq<Uuid>, command: Command, units: nat)
    returns (run: seq<State>, events: seq<Event>)
    requires Open(config, s, command) && s.calls == map[] && s.decisions == map[]
    requires forall i, j :: 0 <= i < j < |ids| ==> ids[i] != ids[j]
    ensures IsRun(config, run, events) && run[0] == s && Aloft(s, run[|events|], ids, command)
    ensures Scripted(events, ids, command, units)
    decreases |ids|
  {
    hide Accepts, Consumption, UtcDayWindow, RoundSignificant, Apply, Enabled, Decision;
    if ids == [] {
      run, events := [s], [];
    } else {
      var front, id := ids[..|ids| - 1], ids[|ids| - 1];
      var climbed, script := AllClimb(config, s, front, command, units);
      var t := climbed[|script|];
      assert id !in front;
      assert Open(config, t, command) && Unused(t, id);
      var more := OneClimbs(config, t, id, command);
      RunsJoin(config, climbed, script, more, Climb(id, command));
      run, events := climbed + more[1..], script + Climb(id, command);
      OneMoreAloft(s, t, front, id, command);
      assert ids == front + [id];
    }
  }

  lemma OneMoreAloft(s: State, t: State, front: seq<Uuid>, id: Uuid, command: Command)
    requires Aloft(s, t, front, command) && id !in front
    ensures Aloft(s, DecidedAt(t, id, command, CostAdmitted(Decision(t, id, command))), front + [id], command)
  {
  }

  // The answers and rows

  /** An answer that reports these units and nothing else. */
  function Answer(id: Uuid, units: nat): Event {
    ProviderReturns(id, "ok", Some(InvocationUsage(None, None, Some(units))), None)
  }

  /** Past both gates, with an identity its row can be built from. */
  predicate Airborne(s: State, id: Uuid) {
    && id in s.calls && s.calls[id].phase.CostAdmitted?
    && Buildable(Who(s, id, s.calls[id].phase.decision)) && RequestFits(Who(s, id, s.calls[id].phase.decision))
  }

  function Landing(s: State, id: Uuid, units: nat): Result<Invocation, InvocationError>
    requires Airborne(s, id)
  {
    Succeeded(Who(s, id, s.calls[id].phase.decision), "ok", Some(InvocationUsage(None, None, Some(units))), None, None)
  }

  /** The state after one call's answer and row. */
  function Landed(s: State, id: Uuid, units: nat): State
    requires Airborne(s, id) && Landing(s, id, units).Success?
  {
    s.(providerLog := s.providerLog + [ProviderCall(id, false)],
       ledger := s.ledger + [Store(Landing(s, id, units).value)],
       calls := s.calls[id := s.calls[id].(phase := Returned)])
  }

  lemma TotalOnlyIsFree(units: nat, pricing: Option<PricingSnapshot>)
    requires pricing.Some? ==> pricing.value.Valid()
    ensures AttributeCost(Some(InvocationUsage(None, None, Some(units))), pricing) == Success(None)
  {
    hide ComponentCost;
  }

  lemma TotalOnlyIsAnswerable(units: nat)
    requires units <= MAX_INT32
    ensures ProviderResult("ok", Some(InvocationUsage(None, None, Some(units))), None)
  {
    hide Strip;
    ShortTextStaysItself();
  }

  lemma ShortTextStaysItself()
    ensures Strip("ok") == "ok"
  {
    hide Strip;
    assert Trimmed("ok");
    StripKeepsTrimmed("ok");
  }

  lemma LandingPersists(s: State, id: Uuid, units: nat)
    requires Airborne(s, id) && units <= MAX_INT32
    ensures Landing(s, id, units).Success? && Insertable(Store(Landing(s, id, units).value))
  {
    hide Buildable, Succeeded, Strip, AttributeCost, ProviderResult, Who, FitsColumnTypes, SatisfiesChecks, RequestFits, Store, Valid;
    TotalOnlyIsFree(units, None);
    TotalOnlyIsAnswerable(units);
    SucceededRowsPersist(Who(s, id, s.calls[id].phase.decision), "ok", Some(InvocationUsage(None, None, Some(units))), None, None);
  }

  lemma AnswerPhase(config: Config, s: State, id: Uuid, units: nat)
    requires config.Valid() && Airborne(s, id) && Landing(s, id, units).Success?
    ensures AfterProvider(config, s, id, "ok", Some(InvocationUsage(None, None, Some(units))), None) ==
            Built(Landing(s, id, units).value)
  {
    hide Succeeded, Buildable, RequestFits, AttributeCost, Valid;
    PricingIsValid(config, s.calls[id].command);
    hide PricingFor;
    TotalOnlyIsFree(units, PricingFor(config, s.calls[id].command));
  }

  lemma AnswerBuilds(config: Config, s: State, id: Uuid, units: nat)
    requires config.Valid() && Airborne(s, id) && Landing(s, id, units).Success?
    ensures Enabled(config, s, Answer(id, units))
    ensures Apply(config, s, Answer(id, units)) ==
            s.(providerLog := s.providerLog + [ProviderCall(id, false)],
               calls := s.calls[id := s.calls[id].(phase := Built(Landing(s, id, units).value))])
  {
    AnswerPhase(config, s, id, units);
    hide Buildable, RequestFits, AfterProvider, Landing, Enabled, Apply;
    AnswerApplies(config, s, id, "ok", Some(InvocationUsage(None, None, Some(units))), None);
  }

  lemma LandedReading(s: State, id: Uuid, units: nat, meter: Meter)
    requires Airborne(s, id) && Landing(s, id, units).Success? && meter.UsageMeter? && Belongs(meter, s.calls[id])
    ensures Consumption(meter, Landed(s, id, units).ledger) == Consumption(meter, s.ledger) + units
  {
    ConsumptionAppend(meter, s.ledger, Store(Landing(s, id, units).value));
    hide Consumption, Succeeded, Buildable;
  }

  /** Landing one call leaves the others in the air. */
  lemma OthersStayAirborne(s: State, id: Uuid, units: nat, other: Uuid)
    requires Airborne(s, id) && Landing(s, id, units).Success? && Airborne(s, other) && other != id
    ensures Airborne(Landed(s, id, units), other)
  {
    hide Buildable, Succeeded;
  }

  lemma BuiltLands(config: Config, s: State, id: Uuid, v: Invocation, log: seq<ProviderCall>)
    requires config.Valid() && id in s.calls && Insertable(Store(v))
    ensures var t := s.(providerLog := log, calls := s.calls[id := s.calls[id].(phase := Built(v))]);
            && Enabled(config, t, Persist(id))
            && Apply(config, t, Persist(id)) ==
               s.(providerLog := log, ledger := s.ledger + [Store(v)], calls := s.calls[id := s.calls[id].(phase := Returned)])
  {
    hide Insertable, Store, Enabled, Apply;
    var t := s.(providerLog := log, calls := s.calls[id := s.calls[id].(phase := Built(v))]);
    PersistApplies(config, t, id);
    assert t.calls[id := t.calls[id].(phase := Returned)] == s.calls[id := s.calls[id].(phase := Returned)];
  }

  lemma TwoSteps(config: Config, s: State, e: Event, f: Event)
    requires config.Valid() && Enabled(config, s, e) && Enabled(config, Apply(config, s, e), f)
    ensures IsRun(config, [s, Apply(config, s, e), Apply(config, Apply(config, s, e), f)], [e, f])
  {
    hide Enabled, Apply;
  }

  lemma OneLands(config: Config, s: State, id: Uuid, units: nat) returns (between: State)
    requires config.Valid() && Airborne(s, id) && units <= MAX_INT32
    ensures Landing(s, id, units).Success?
    ensures IsRun(config, [s, between, Landed(s, id, units)], [Answer(id, units), Persist(id)])
  {
    assert id in s.calls;
    hide Enabled, Apply, Landing, Airborne, Insertable, Store, Answer, IsRun;
    LandingPersists(s, id, units);
    AnswerBuilds(config, s, id, units);
    BuiltLands(config, s, id, Landing(s, id, units).value, s.providerLog + [ProviderCall(id, false)]);
    between := Apply(config, s, Answer(id, units));
    assert Apply(config, between, Persist(id)) == Landed(s, id, units);
    hide Landed;
    TwoSteps(config, s, Answer(id, units), Persist(id));
  }

  /** Any calls of one principal and day that are past both gates can all land in full. */
  lemma {:induction false} FlightsLandInFull(config: Config, s: State, ids: seq<Uuid>, command: Command, units: nat, meter: Meter)
    returns (run: seq<State>, events: seq<Event>)
    requires config.Valid() && meter.UsageMeter? && units <= MAX_INT32
    requires forall i :: 0 <= i < |ids| ==> Airborne(s, ids[i]) && Belongs(meter, s.calls[ids[i]])
    requires forall i, j :: 0 <= i < j < |ids| ==> ids[i] != ids[j]
    ensures IsRun(config, run, events) && run[0] == s && Scripted(events, ids, command, units)
    ensures Consumption(meter, run[|events|].ledger) == Consumption(meter, s.ledger) + |ids| * units
    decreases |ids|
  {
    hide Apply, Enabled, Consumption, Landing, Store, Buildable, RequestFits;
    if ids == [] {
      run, events := [s], [];
    } else {
      var id, rest := ids[0], ids[1..];
      var between := OneLands(config, s, id, units);
      LandedReading(s, id, units, meter);
      var t := Landed(s, id, units);
      forall i | 0 <= i < |rest|
        ensures Airborne(t, rest[i]) && Belongs(meter, t.calls[rest[i]])
      {
        assert rest[i] == ids[i + 1];
        OthersStayAirborne(s, id, units, rest[i]);
      }
      var later, more := FlightsLandInFull(config, t, rest, command, units, meter);
      var two := [Answer(id, units), Persist(id)];
      RunsJoin(config, [s, between, t], two, later, more);
      run, events := [s, between, t] + later[1..], two + more;
      OneMore(|rest|, units);
    }
  }

  lemma OneMore(n: nat, units: nat)
    ensures (n + 1) * units == n * units + units
  {
  }

  // The day hypothesis along such a run

  /** Every call is one of these, of this command, and an answer of a built row reports these units. */
  ghost predicate OnScript(s: State, ids: seq<Uuid>, command: Command, units: nat) {
    forall id :: id in s.calls ==>
      && id in ids && s.calls[id].command == command
      && (s.calls[id].phase.Built? && s.calls[id].phase.invocation.usage.Some? ==>
            s.calls[id].phase.invocation.usage.value.totalUnits == Some(units))
  }

  /** Rows built by a step carry usage only if the step was an answer, and then that answer's. */
  lemma UsageBuiltByStep(config: Config, s: State, e: Event, id: Uuid)
    requires config.Valid() && Enabled(config, s, e) && id in Apply(config, s, e).calls
    ensures var c := Apply(config, s, e).calls[id];
            && (id in s.calls ==> c.command == s.calls[id].command)
            && (id !in s.calls ==> e.Accept? && e.id == id && c.command == e.command)
            && (c.phase.Built? && c.phase.invocation.usage.Some? ==>
                  || (id in s.calls && c.phase == s.calls[id].phase)
                  || (e.ProviderReturns? && e.id == id && c.phase.invocation.usage == e.usage))
  {
    hide Limited, CostLimited, Denied, Failed, Succeeded, Consumption, AttributeCost, Store, Insertable, Accepts;
  }

  lemma StepStaysOnScript(config: Config, s: State, e: Event, events: seq<Event>, ids: seq<Uuid>, command: Command, units: nat)
    requires config.Valid() && Enabled(config, s, e) && OnScript(s, ids, command, units)
    requires e in events && Scripted(events, ids, command, units)
    ensures OnScript(Apply(config, s, e), ids, command, units)
  {
    hide Apply, Enabled;
    forall id | id in Apply(config, s, e).calls
      ensures var c := Apply(config, s, e).calls[id];
              && id in ids && c.command == command
              && (c.phase.Built? && c.phase.invocation.usage.Some? ==> c.phase.invocation.usage.value.totalUnits == Some(units))
    {
      UsageBuiltByStep(config, s, e, id);
    }
  }

  lemma {:induction false} RunStaysOnScript(config: Config, run: seq<State>, events: seq<Event>, ids: seq<Uuid>, command: Command,
                                            units: nat, i: nat)
    requires IsRun(config, run, events) && Initial(run[0]) && Scripted(events, ids, command, units) && i < |run|
    ensures OnScript(run[i], ids, command, units)
  {
    if i > 0 {
      RunStaysOnScript(config, run, events, ids, command, units, i - 1);
      hide Apply, Enabled, OnScript, Scripted;
      RunStep(config, run, events, i - 1);
      StepStaysOnScript(config, run[i - 1], events[i - 1], events, ids, command, units);
    }
  }

  lemma ScriptedStatesAreOfTheDay(config: Config, s: State, ids: seq<Uuid>, command: Command, units: nat, at: int)
    requires CallsOk(s) && OnScript(s, ids, command, units)
    ensures var meter := UsageMeter(command.principalId, UtcDayWindow(at));
            && Admits(config, meter, s, command.usageLimit - command.allowance)
            && |InFlight(meter, s)| <= |ids| && ReportsAtMost(meter, s, units)
  {
    hide CallsOk;
    var meter := UsageMeter(command.principalId, UtcDayWindow(at));
    UtcDayWindowsPartitionTime(at, UtcDayWindow(at).start);
    UtcDayWindowsPartitionTime(UtcDayWindow(at).start, at);
    hide UtcDayWindow;
    ElementsSize(ids);
    SubsetSize(InFlight(meter, s), set id | id in ids);
    forall id | id in InFlight(meter, s) && s.calls[id].phase.Built?
      ensures Reading(meter, Store(s.calls[id].phase.invocation)) <= units
    {
    }
  }

  lemma ScriptedRunsAreDays(config: Config, run: seq<State>, events: seq<Event>, ids: seq<Uuid>, command: Command, units: nat, at: int)
    requires IsRun(config, run, events) && Initial(run[0]) && Scripted(events, ids, command, units)
    requires var headroom := command.usageLimit - command.allowance;
             Consumption(UsageMeter(command.principalId, UtcDayWindow(at)), run[0].ledger) <= headroom + |ids| * units
    ensures Day(config, UsageMeter(command.principalId, UtcDayWindow(at)), run, events,
                command.usageLimit - command.allowance, |ids|, units)
  {
    hide Apply, Enabled, Consumption, UtcDayWindow, InFlight, Admits, ReportsAtMost, OnScript, Scripted, CallsOk;
    forall i | 0 <= i < |run|
      ensures var meter := UsageMeter(command.principalId, UtcDayWindow(at));
              && Admits(config, meter, run[i], command.usageLimit - command.allowance)
              && |InFlight(meter, run[i])| <= |ids| && ReportsAtMost(meter, run[i], units)
    {
      RunKeepsCallsOk(config, run, events, i);
      RunStaysOnScript(config, run, events, ids, command, units, i);
      ScriptedStatesAreOfTheDay(config, run[i], ids, command, units, at);
    }
  }

  // The bound is reached

  lemma AloftAreAirborne(config: Config, s: State, t: State, ids: seq<Uuid>, command: Command)
    requires Open(config, s, command) && Strip(command.principalId) != "" && |command.principalId| <= 255
    requires Aloft(s, t, ids, command)
    ensures forall i :: 0 <= i < |ids| ==>
              Airborne(t, ids[i]) && Belongs(UsageMeter(command.principalId, UtcDayWindow(s.now)), t.calls[ids[i]])
  {
    hide Consumption, RoundSignificant, Strip;
    UtcDayWindowsPartitionTime(s.now, s.now);
    hide UtcDayWindow;
    forall i | 0 <= i < |ids|
      ensures Airborne(t, ids[i]) && Belongs(UsageMeter(command.principalId, UtcDayWindow(s.now)), t.calls[ids[i]])
    {
      assert ids[i] in ids;
    }
  }

  /** From every initial state whose ledger uses the principal's headroom up and no more, and for any
      number of identities and any report M within int32, some run of that day ends with consumption
      equal to limit - allowance + k * M: the bound of UsageOvershoot, under its own hypothesis. */
  lemma BoundIsReached(config: Config, s: State, command: Command, ids: seq<Uuid>, units: nat)
    returns (run: seq<State>, events: seq<Event>)
    requires Initial(s) && Open(config, s, command) && Strip(command.principalId) != "" && |command.principalId| <= 255
    requires forall i, j :: 0 <= i < j < |ids| ==> ids[i] != ids[j]
    requires units <= MAX_INT32
    requires Consumption(UsageMeter(command.principalId, UtcDayWindow(s.now)), s.ledger) == command.usageLimit - command.allowance
    ensures run != [] && run[0] == s
    ensures var meter, headroom := UsageMeter(command.principalId, UtcDayWindow(s.now)), command.usageLimit - command.allowance;
            && Day(config, meter, run, events, headroom, |ids|, units)
            && Consumption(meter, run[|run| - 1].ledger) == headroom + |ids| * units
  {
    hide Apply, Enabled, Consumption, UtcDayWindow, Accepts, RoundSignificant, Airborne, Belongs, Aloft, Scripted, Strip, Day;
    var meter := UsageMeter(command.principalId, UtcDayWindow(s.now));
    var up, climb := AllClimb(config, s, ids, command, units);
    var t := up[|climb|];
    AloftAreAirborne(config, s, t, ids, command);
    assert t.ledger == s.ledger by {
      AloftKeepsLedger(s, t, ids, command);
    }
    var down, land := FlightsLandInFull(config, t, ids, command, units, meter);
    RunsJoin(config, up, climb, down, land);
    run, events := up + down[1..], climb + land;
    ScriptsJoin(climb, land, ids, command, units);
    MostTimes(units, 0, |ids|);
    ScriptedRunsAreDays(config, run, events, ids, command, units, s.now);
  }

  lemma AloftKeepsLedger(s: State, t: State, ids: seq<Uuid>, command: Command)
    requires Aloft(s, t, ids, command)
    ensures t.ledger == s.ledger
  {
  }

  lemma ScriptsJoin(a: seq<Event>, b: seq<Event>, ids: seq<Uuid>, command: Command, units: nat)
    requires Scripted(a, ids, command, units) && Scripted(b, ids, command, units)
    ensures Scripted(a + b, ids, command, units)
  {
  }

  // A concrete day that starts with an empty ledger

  const SMALL_CONFIG := Config({0}, map[0 := 0], map[0 := ModelReference(0, "openai", "m")], map[0 := TenantCostBudget(1, 1)], map[])

  function SmallState(): State {
    var key := Policy.PermissionKey(0, 0, 0);
    State(0, map[key := Policy.AgentModelPermission(0, key, Policy.ALLOW, 0, 0)], map[], [], [], map[])
  }

  lemma SmallStateIsOpen(limit: int)
    requires limit > 0
    ensures var command := Command("p", 0, 0, 0, "hi", limit, limit);
            Initial(SmallState()) && Open(SMALL_CONFIG, SmallState(), command) && Strip(command.principalId) != ""
  {
    hide Strip, RoundSignificant, Pow10;
    SmallInputsAreTrimmed();
    OneIsExact();
    var meter := CostMeter(0, UtcDayWindow(0));
    hide UtcDayWindow;
    assert Consumption(meter, []) == 0;
  }

  lemma SmallInputsAreTrimmed()
    ensures Strip("p") == "p" && Strip("hi") == "hi"
  {
    hide Strip;
    StripKeepsTrimmed("p");
    StripKeepsTrimmed("hi");
  }

  lemma OneIsExact()
    ensures RoundSignificant(28, 1) == 1
  {
    hide RoundSignificant;
    assert Pow10(28) > 1 by {
      Pow10Monotone(1, 28);
    }
    hide Pow10;
    RoundSignificantSmall(28, 1);
  }

  /** With the allowance equal to the limit and an empty ledger, k concurrent calls reach k * M. */
  lemma EmptyLedgerReachesTheBound(limit: int, concurrent: nat, units: nat) returns (run: seq<State>, events: seq<Event>)
    requires limit > 0 && concurrent <= UUID_LIMIT && units <= MAX_INT32
    ensures run != [] && run[0].ledger == []
    ensures var meter := UsageMeter("p", UtcDayWindow(0));
            && Day(SMALL_CONFIG, meter, run, events, limit - limit, concurrent, units)
            && Consumption(meter, run[|run| - 1].ledger) == concurrent * units
  {
    hide Open, Initial, Strip, Day;
    SmallStateIsOpen(limit);
    var ids := seq(concurrent, i requires 0 <= i < concurrent => i as Uuid);
    run, events := BoundIsReached(SMALL_CONFIG, SmallState(), Command("p", 0, 0, 0, "hi", limit, limit), ids, units);
  }
}
