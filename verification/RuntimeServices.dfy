/** The runtime identity service and the audit chain of runtime principals. */
module RuntimeServices {
  import opened Wrappers
  import opened Text
  import opened Uuids
  import opened Fingerprints
  import opened AuditChain
  import opened UnitOfWorks
  import opened UsageLimit
  import opened InvocationRows
  import opened RuntimeIdentity

  /** The awaited statements of a command. */
  datatype Statement =
    | LOCK_LEGACY_IDENTITY | READ_PRINCIPAL | READ_CLAIM | READ_BINDING | INSPECT_ROWS | READ_CREDENTIALS | WRITE_ROWS | WRITE_AUDIT

  class RuntimeIdentityService {
    const uow: UnitOfWork<RuntimeState>

    constructor (uow: UnitOfWork<RuntimeState>)
      ensures this.uow == uow
    {
      this.uow := uow;
    }

    /** Whatever fails, and wherever, the whole command is committed or nothing is. */
    method Handle(x: Context, c: Command, failing: set<Statement>) returns (r: Result<(), RuntimeError>)
      modifies uow, uow.database
      ensures r.Success? ==> Execute(old(uow.database.committed), x, c) == Success(uow.database.committed)
      ensures r.Failure? ==> uow.database.committed == old(uow.database.committed)
      ensures failing == {} ==> r.Success? == Execute(old(uow.database.committed), x, c).Success?
      ensures r.Failure? && failing == {} ==> Execute(old(uow.database.committed), x, c) == Failure(r.error)
    {
      hide ExecuteCreate, ExecuteBind, ExecuteInitialize, ExecuteDisable;
      uow.Enter();
      match c {
        case Create(_, _, _, _, _, _, _, _) => r := CreateWithin(x, c, failing);
        case Bind(_, _, _) => r := BindWithin(x, c, failing);
        case Initialize(_, _, _, _) => r := InitializeWithin(x, c, failing);
        case Disable(_, _) => r := DisableWithin(x, c, failing);
      }
      if r.Success? {
        var committed := uow.Commit();
      }
      uow.Exit();
    }

    method CreateWithin(x: Context, c: Command, failing: set<Statement>) returns (r: Result<(), RuntimeError>)
      requires c.Create? && uow.session.Some?
      modifies uow
      ensures uow.session.Some?
      ensures r.Success? ==> ExecuteCreate(old(uow.Current()), x, c) == Success(uow.Current())
      ensures failing == {} ==> r.Success? == ExecuteCreate(old(uow.Current()), x, c).Success?
      ensures r.Failure? && failing == {} ==> ExecuteCreate(old(uow.Current()), x, c) == Failure(r.error)
    {
      hide WithLimits, Record;
      if !x.canManage {
        return Failure(ManagementDenied);
      }
      if c.expiresAt.Some? && c.expiresAt.value <= x.now {
        return Failure(InvalidCommand);
      }
      if READ_BINDING in failing {
        return Failure(Interrupted);
      }
      if c.agentId !in x.agents || x.agents[c.agentId] != c.tenantId {
        return Failure(BindingNotFound);
      }
      var principal :- WithLimits(
        RuntimePrincipal(c.newPrincipal, c.tenantId, c.agentId, x.now, None, None, None, None, None), c.daily, c.allowance);
      var s := uow.Current();
      if WRITE_ROWS in failing {
        return Failure(Interrupted);
      }
      if c.newPrincipal in s.principals || c.newCredential in s.credentials {
        return Failure(IntegrityFailure);
      }
      uow.Write(s.(credentials := s.credentials[c.newCredential := RuntimeCredential(c.newPrincipal, c.expiresAt, None)]));
      r := Save(principal, Record(c.auditId, x, RUNTIME_PRINCIPAL_CREATED, None, principal), failing);
    }

    method BindWithin(x: Context, c: Command, failing: set<Statement>) returns (r: Result<(), RuntimeError>)
      requires c.Bind? && uow.session.Some?
      modifies uow
      ensures uow.session.Some?
      ensures r.Success? ==> ExecuteBind(old(uow.Current()), x, c) == Success(uow.Current())
      ensures failing == {} ==> r.Success? == ExecuteBind(old(uow.Current()), x, c).Success?
      ensures r.Failure? && failing == {} ==> ExecuteBind(old(uow.Current()), x, c) == Failure(r.error)
    {
      hide BoundTo, Record, PreflightOf, Claimed;
      if !x.canManage {
        return Failure(ManagementDenied);
      }
      if LOCK_LEGACY_IDENTITY in failing || READ_PRINCIPAL in failing {
        return Failure(Interrupted);
      }
      var s := uow.Current();
      if c.principalId !in s.principals || !s.principals[c.principalId].Active() {
        return Failure(PrincipalNotFound);
      }
      var principal := s.principals[c.principalId];
      if principal.Bound() {
        return Failure(ContinuityConflict);
      }
      if READ_CLAIM in failing {
        return Failure(Interrupted);
      }
      if Claimed(s, c.legacyId) {
        return Failure(ContinuityConflict);
      }
      if INSPECT_ROWS in failing || READ_CREDENTIALS in failing {
        return Failure(Interrupted);
      }
      var preflight := ContinuityPreflight(x, principal, c.legacyId);
      if !preflight.Safe() {
        return Failure(InvalidCommand);
      }
      var bound :- BoundTo(principal, c.legacyId, x.now);
      if WRITE_ROWS in failing {
        return Failure(Interrupted);
      }
      // the UPDATE matches only a row without a legacy identity and without a binding time
      if principal.legacyId.Some? || principal.boundAt.Some? {
        return Failure(ContinuityConflict);
      }
      r := Save(bound, Record(c.auditId, x, RUNTIME_PRINCIPAL_IDENTITY_CONTINUITY_BOUND, Some(principal), bound), failing);
    }

    method ContinuityPreflight(x: Context, p: RuntimePrincipal, legacyId: string) returns (preflight: Preflight)
      requires uow.session.Some?
      ensures preflight == PreflightOf(x.config, uow.Current(), p, legacyId, x.now)
    {
      hide FactsAbout, PreflightFrom;
      var facts := Inspect(uow.Current().rows, legacyId, p, UtcDayWindow(x.now));
      var claimed := Claimed(uow.Current(), legacyId);
      var hasCredential := HasPotentiallyUsable(uow.Current(), p.principalId, x.now);
      preflight := PreflightFrom(x.config, p, legacyId, facts, claimed, hasCredential);
    }

    method InitializeWithin(x: Context, c: Command, failing: set<Statement>) returns (r: Result<(), RuntimeError>)
      requires c.Initialize? && uow.session.Some?
      modifies uow
      ensures uow.session.Some?
      ensures r.Success? ==> ExecuteInitialize(old(uow.Current()), x, c) == Success(uow.Current())
      ensures failing == {} ==> r.Success? == ExecuteInitialize(old(uow.Current()), x, c).Success?
      ensures r.Failure? && failing == {} ==> ExecuteInitialize(old(uow.Current()), x, c) == Failure(r.error)
    {
      hide ConfiguredWith, Record;
      if !x.canManage {
        return Failure(ManagementDenied);
      }
      if READ_PRINCIPAL in failing {
        return Failure(Interrupted);
      }
      var s := uow.Current();
      if c.principalId !in s.principals || !s.principals[c.principalId].Active() {
        return Failure(PrincipalNotFound);
      }
      var principal := s.principals[c.principalId];
      if principal.Configured() {
        return Failure(AlreadyInitialized);
      }
      var configured :- ConfiguredWith(principal, c.daily, c.allowance);
      if WRITE_ROWS in failing {
        return Failure(Interrupted);
      }
      // the UPDATE matches only a row without limits
      if principal.daily.Some? || principal.allowance.Some? {
        return Failure(AlreadyInitialized);
      }
      r := Save(configured, Record(c.auditId, x, RUNTIME_PRINCIPAL_USAGE_LIMITS_INITIALIZED, Some(principal), configured), failing);
    }

    method DisableWithin(x: Context, c: Command, failing: set<Statement>) returns (r: Result<(), RuntimeError>)
      requires c.Disable? && uow.session.Some?
      modifies uow
      ensures uow.session.Some?
      ensures r.Success? ==> ExecuteDisable(old(uow.Current()), x, c) == Success(uow.Current())
      ensures failing == {} ==> r.Success? == ExecuteDisable(old(uow.Current()), x, c).Success?
      ensures r.Failure? && failing == {} ==> ExecuteDisable(old(uow.Current()), x, c) == Failure(r.error)
    {
      hide Record;
      if !x.canManage {
        return Failure(ManagementDenied);
      }
      if READ_PRINCIPAL in failing {
        return Failure(Interrupted);
      }
      var s := uow.Current();
      if c.principalId !in s.principals || !s.principals[c.principalId].Active() {
        return Failure(PrincipalNotFound);
      }
      var principal := s.principals[c.principalId];
      var disabled := principal.(disabledAt := Some(x.now));
      if WRITE_ROWS in failing {
        return Failure(Interrupted);
      }
      r := Save(disabled, Record(c.auditId, x, RUNTIME_PRINCIPAL_DISABLED, Some(principal), disabled), failing);
    }

    /** The row, then its audit record. */
    method Save(p: RuntimePrincipal, record: AuditRecord, failing: set<Statement>) returns (r: Result<(), RuntimeError>)
      requires uow.session.Some?
      modifies uow
      ensures uow.session.Some?
      ensures r.Success? <==> WRITE_AUDIT !in failing
      ensures r.Success? ==> uow.Current() == Saved(old(uow.Current()), p, record)
    {
      uow.Write(uow.Current().(principals := uow.Current().principals[p.principalId := p]));
      if WRITE_AUDIT in failing {
        return Failure(Interrupted);
      }
      uow.Write(uow.Current().(audits := uow.Current().audits + [record]));
      r := Success(());
    }
  }

  // The audit chain of runtime principals, in serial runs

  ghost predicate ConsistentState(s: RuntimeState) {
    forall id :: id in s.principals ==> s.principals[id].principalId == id && s.principals[id].Valid()
  }

  function Canonical(s: RuntimeState, r: Resource): Option<string> {
    if r.kind == RUNTIME_PRINCIPAL && r.id in s.principals then Some(PrincipalText(s.principals[r.id])) else None
  }

  datatype Step = Step(x: Context, c: Command)

  function After(s: RuntimeState, step: Step): RuntimeState {
    var r := Execute(s, step.x, step.c);
    if r.Success? then r.value else s
  }

  function TouchBy(s: RuntimeState, step: Step, r: Resource): Touch {
    var t := After(s, step);
    if t.audits == s.audits || !(|s.audits| <= |t.audits|) then Untouched else TouchOf(t.audits[|s.audits|..], r)
  }

  /** Every change goes through one saved row and one record about it. */
  lemma SavingFollows(s: RuntimeState, t: RuntimeState, p: RuntimePrincipal, record: AuditRecord, r: Resource)
    requires ConsistentState(s) && p.Valid()
    requires t.principals == s.principals[p.principalId := p] && t.audits == s.audits + [record]
    requires record.resource == Resource(RUNTIME_PRINCIPAL, p.principalId) && record.after == PrincipalText(p)
    requires record.before == Canonical(s, record.resource)
    ensures ConsistentState(t) && t.audits != s.audits
    ensures Follows(Canonical(s, r), Canonical(t, r), TouchOf(t.audits[|s.audits|..], r))
  {
    hide PrincipalText;
    assert t.audits[|s.audits|..] == [record];
    assert [record][1..] == [];
    assert |t.audits| == |s.audits| + 1;
  }

  lemma StepFollows(s: RuntimeState, step: Step, r: Resource)
    requires ConsistentState(s)
    ensures ConsistentState(After(s, step))
    ensures Follows(Canonical(s, r), Canonical(After(s, step), r), TouchBy(s, step, r))
  {
    hide PrincipalText, PreflightOf, Claimed, Follows;
    var x, c := step.x, step.c;
    if Execute(s, x, c).Failure? {
      assert Follows(Canonical(s, r), Canonical(s, r), Untouched) by {
        UntouchedFollows(Canonical(s, r));
      }
    } else {
      var t := Execute(s, x, c).value;
      match c
      case Create(_, _, _, _, _, _, _, _) =>
        SavingFollows(s, t, t.principals[c.newPrincipal], t.audits[|s.audits|], r);
      case Bind(_, _, _) =>
        SavingFollows(s, t, t.principals[c.principalId], t.audits[|s.audits|], r);
      case Initialize(_, _, _, _) =>
        SavingFollows(s, t, t.principals[c.principalId], t.audits[|s.audits|], r);
      case Disable(_, _) =>
        SavingFollows(s, t, t.principals[c.principalId], t.audits[|s.audits|], r);
    }
  }

  lemma UntouchedFollows(state: Option<string>)
    ensures Follows(state, state, Untouched)
  {
  }

  ghost predicate SerialRun(run: seq<RuntimeState>, steps: seq<Step>) {
    && |run| == |steps| + 1 && ConsistentState(run[0])
    && forall i :: 0 <= i < |steps| ==> run[i + 1] == After(run[i], steps[i])
  }

  lemma {:induction false} SerialRunsStayConsistent(run: seq<RuntimeState>, steps: seq<Step>, i: nat)
    requires SerialRun(run, steps) && i < |run|
    ensures ConsistentState(run[i])
  {
    hide After, ConsistentState;
    if i > 0 {
      SerialRunsStayConsistent(run, steps, i - 1);
      StepFollows(run[i - 1], steps[i - 1], Resource(RUNTIME_PRINCIPAL, 0));
    }
  }

  ghost function States(run: seq<RuntimeState>, r: Resource): seq<Option<string>> {
    seq(|run|, i requires 0 <= i < |run| => Canonical(run[i], r))
  }

  ghost function Touches(run: seq<RuntimeState>, steps: seq<Step>, r: Resource): seq<Touch>
    requires |run| == |steps| + 1
  {
    seq(|steps|, i requires 0 <= i < |steps| => TouchBy(run[i], steps[i], r))
  }

  /** In every serial run the records of each runtime principal chain over its states. */
  lemma RuntimeAuditsChain(run: seq<RuntimeState>, steps: seq<Step>, r: Resource)
    requires SerialRun(run, steps)
    ensures History(States(run, r), Touches(run, steps, r))
  {
    hide After, ConsistentState, Follows, Canonical, TouchBy;
    var states, touches := States(run, r), Touches(run, steps, r);
    forall i | 0 <= i < |touches|
      ensures Follows(states[i], states[i + 1], touches[i])
    {
      SerialRunsStayConsistent(run, steps, i);
      StepFollows(run[i], steps[i], r);
    }
  }

  /** The current state of a runtime principal can be read back from its last record. */
  lemma LastRecordDecodes(run: seq<RuntimeState>, steps: seq<Step>, id: Uuid, i: nat)
    requires SerialRun(run, steps) && i < |steps|
    requires var touches := Touches(run, steps, Resource(RUNTIME_PRINCIPAL, id));
             touches[i].Recorded? && NoRecordBetween(touches, i + 1, |touches|)
    ensures id in run[|steps|].principals
    ensures RuntimePrincipalDecoded(Touches(run, steps, Resource(RUNTIME_PRINCIPAL, id))[i].after) ==
            Facts(run[|steps|].principals[id])
  {
    hide After, Follows, TouchBy, RuntimePrincipalCanonical, RuntimePrincipalDecoded;
    var r := Resource(RUNTIME_PRINCIPAL, id);
    RuntimeAuditsChain(run, steps, r);
    LastRecordDescribesState(States(run, r), Touches(run, steps, r), i);
    SerialRunsStayConsistent(run, steps, |steps|);
    assert Canonical(run[|steps|], r).Some?;
    assert run[|steps|].principals[id].Valid();
    RuntimePrincipalRoundTrip(Facts(run[|steps|].principals[id]));
  }
}
