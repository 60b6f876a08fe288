/** Agent-to-Model permissions, the decisions evaluated from them, and their audit records. */
module PolicyRisk {
  import opened Wrappers
  import opened Uuids
  import opened Fingerprints
  import opened AuditChain
  import opened UnitOfWorks

  datatype PolicyEffect = ALLOW | DENY

  datatype PermissionKey = PermissionKey(tenantId: Uuid, agentId: Uuid, modelId: Uuid)

  datatype AgentModelPermission = AgentModelPermission(
    id: Uuid, key: PermissionKey, effect: PolicyEffect, createdAt: int, updatedAt: int)

  datatype PolicyDecision = PolicyDecision(
    id: Uuid, invocationId: Uuid, key: PermissionKey, permissionId: Option<Uuid>, effect: PolicyEffect, decidedAt: int)

  /** Permissions are unique per key, and decisions per invocation. */
  datatype PolicyState = PolicyState(
    permissions: map<PermissionKey, AgentModelPermission>,
    decisions: map<Uuid, PolicyDecision>,
    audits: seq<AuditRecord>)

  datatype PolicyError =
    TenantNotAvailable | AgentNotAvailable | ModelNotAvailable | InvalidTimestamps | IntegrityFailure | Interrupted

  /** Existing Tenants, and the Tenant that owns each Agent and Model. */
  datatype Registry = Registry(tenants: set<Uuid>, agents: map<Uuid, Uuid>, models: map<Uuid, Uuid>)

  datatype SetPermissionCommand = SetPermissionCommand(key: PermissionKey, effect: PolicyEffect, principalId: string)

  function CheckRegistry(registry: Registry, key: PermissionKey): Option<PolicyError> {
    if key.tenantId !in registry.tenants then Some(TenantNotAvailable)
    else if key.agentId !in registry.agents || registry.agents[key.agentId] != key.tenantId then Some(AgentNotAvailable)
    else if key.modelId !in registry.models || registry.models[key.modelId] != key.tenantId then Some(ModelNotAvailable)
    else None
  }

  function GetEffective(s: PolicyState, key: PermissionKey): Option<AgentModelPermission> {
    if key in s.permissions then Some(s.permissions[key]) else None
  }

  /** INSERT ... ON CONFLICT DO UPDATE of the effect and the update time only. */
  function Upsert(s: PolicyState, proposed: AgentModelPermission): Result<PolicyState, PolicyError> {
    var key := proposed.key;
    if key in s.permissions then
      var updated := s.permissions[key].(effect := proposed.effect, updatedAt := proposed.updatedAt);
      if updated.updatedAt < updated.createdAt then Failure(InvalidTimestamps)
      else Success(s.(permissions := s.permissions[key := updated]))
    else if exists k :: k in s.permissions && s.permissions[k].id == proposed.id then Failure(IntegrityFailure)
    else Success(s.(permissions := s.permissions[key := proposed]))
  }

  function Facts(p: AgentModelPermission): PermissionFacts {
    PermissionFacts(p.key.tenantId, p.key.agentId, p.key.modelId, p.effect == ALLOW)
  }

  function PermissionSetRecord(auditId: Uuid, actor: string, previous: Option<AgentModelPermission>,
                               effective: AgentModelPermission, now: int): AuditRecord {
    AuditRecord(auditId, actor, Some(effective.key.tenantId), AGENT_MODEL_PERMISSION_SET,
                Resource(AGENT_MODEL_PERMISSION, effective.id), now,
                if previous.None? then None else Some(PermissionCanonical(Facts(previous.value))),
                PermissionCanonical(Facts(effective)))
  }

  /** The whole transaction: upsert plus one audit record, or nothing. */
  function SetPermission(s: PolicyState, command: SetPermissionCommand, permissionId: Uuid, auditId: Uuid, now: int)
    : Result<PolicyState, PolicyError>
  {
    var upserted :- Upsert(s, AgentModelPermission(permissionId, command.key, command.effect, now, now));
    Success(upserted.(audits := s.audits + [
      PermissionSetRecord(auditId, command.principalId, GetEffective(s, command.key),
                          upserted.permissions[command.key], now)]))
  }

  /** Deny by default: only a stored permission allows. */
  function Decide(permission: Option<AgentModelPermission>, decisionId: Uuid, invocationId: Uuid,
                  key: PermissionKey, now: int): PolicyDecision {
    PolicyDecision(decisionId, invocationId, key,
                   if permission.None? then None else Some(permission.value.id),
                   if permission.None? then DENY else permission.value.effect, now)
  }

  function Evaluate(s: PolicyState, decisionId: Uuid, invocationId: Uuid, key: PermissionKey, now: int)
    : Result<PolicyState, PolicyError>
  {
    if invocationId in s.decisions then Failure(IntegrityFailure)
    else
      var decision := Decide(GetEffective(s, key), decisionId, invocationId, key, now);
      Success(s.(decisions := s.decisions[invocationId := decision]))
  }

  class PolicyService {
    const uow: UnitOfWork<PolicyState>

    constructor (uow: UnitOfWork<PolicyState>)
      ensures this.uow == uow
    {
      this.uow := uow;
    }

    /** `fault` is the awaited statement, if any, at which the process or the database fails. */
    method Set(registry: Registry, command: SetPermissionCommand, permissionId: Uuid, auditId: Uuid, now: int,
               fault: Option<nat>)
      returns (r: Result<AgentModelPermission, PolicyError>)
      modifies uow, uow.database
      ensures r.Success? ==>
                && SetPermission(old(uow.database.committed), command, permissionId, auditId, now)
                   == Success(uow.database.committed)
                && GetEffective(uow.database.committed, command.key) == Some(r.value)
      ensures r.Failure? ==> uow.database.committed == old(uow.database.committed)
      ensures fault.None? ==>
                r.Success? == (&& CheckRegistry(registry, command.key).None?
                               && SetPermission(old(uow.database.committed), command, permissionId, auditId, now).Success?)
      ensures r == Failure(TenantNotAvailable) <==> command.key.tenantId !in registry.tenants
      ensures r == Failure(AgentNotAvailable) <==>
                && command.key.tenantId in registry.tenants
                && !(command.key.agentId in registry.agents && registry.agents[command.key.agentId] == command.key.tenantId)
      ensures r == Failure(ModelNotAvailable) <==>
                && command.key.tenantId in registry.tenants
                && command.key.agentId in registry.agents && registry.agents[command.key.agentId] == command.key.tenantId
                && !(command.key.modelId in registry.models && registry.models[command.key.modelId] == command.key.tenantId)
    {
      UpsertErrors(uow.database.committed, AgentModelPermission(permissionId, command.key, command.effect, now, now));
      var refused := CheckRegistry(registry, command.key);
      if refused.Some? {
        return Failure(refused.value);
      }
      var proposed := AgentModelPermission(permissionId, command.key, command.effect, now, now);
      uow.Enter();
      if fault == Some(0) {
        uow.Exit();
        return Failure(Interrupted);
      }
      var previous := GetEffective(uow.Current(), command.key);
      if fault == Some(1) {
        uow.Exit();
        return Failure(Interrupted);
      }
      var upserted := Upsert(uow.Current(), proposed);
      if upserted.Failure? {
        uow.Exit();
        return Failure(upserted.error);
      }
      uow.Write(upserted.value);
      var effective := upserted.value.permissions[command.key];
      if fault == Some(2) {
        uow.Exit();
        return Failure(Interrupted);
      }
      var audit := PermissionSetRecord(auditId, command.principalId, previous, effective, now);
      uow.Write(uow.Current().(audits := uow.Current().audits + [audit]));
      if fault == Some(3) {
        uow.Exit();
        return Failure(Interrupted);
      }
      var committed := uow.Commit();
      uow.Exit();
      r := Success(effective);
    }

    method EvaluateRuntimePermission(decisionId: Uuid, invocationId: Uuid, key: PermissionKey, now: int, fault: Option<nat>)
      returns (r: Result<PolicyDecision, PolicyError>)
      modifies uow, uow.database
      ensures r.Success? ==>
                && Evaluate(old(uow.database.committed), decisionId, invocationId, key, now)
                   == Success(uow.database.committed)
                && uow.database.committed.decisions[invocationId] == r.value
      ensures r.Failure? ==> uow.database.committed == old(uow.database.committed)
      ensures fault.None? ==> r.Success? == (invocationId !in old(uow.database.committed).decisions)
    {
      uow.Enter();
      if fault == Some(0) {
        uow.Exit();
        return Failure(Interrupted);
      }
      var permission := GetEffective(uow.Current(), key);
      var decision := Decide(permission, decisionId, invocationId, key, now);
      if fault == Some(1) {
        uow.Exit();
        return Failure(Interrupted);
      }
      if invocationId in uow.Current().decisions {
        uow.Exit();
        return Failure(IntegrityFailure);
      }
      uow.Write(uow.Current().(decisions := uow.Current().decisions[invocationId := decision]));
      if fault == Some(2) {
        uow.Exit();
        return Failure(Interrupted);
      }
      var committed := uow.Commit();
      uow.Exit();
      r := Success(decision);
    }
  }

  lemma UpsertErrors(s: PolicyState, proposed: AgentModelPermission)
    ensures var r := Upsert(s, proposed);
            r.Failure? ==> r.error == InvalidTimestamps || r.error == IntegrityFailure
  {
  }

  // What a permission keeps

  /** Setting fails only when an existing permission would be updated before it was created, or when a
      new one takes the identity of another. */
  lemma SetPermissionSucceedsIff(s: PolicyState, command: SetPermissionCommand, permissionId: Uuid, auditId: Uuid, now: int)
    ensures var r, known := SetPermission(s, command, permissionId, auditId, now), command.key in s.permissions;
            var taken := exists k :: k in s.permissions && s.permissions[k].id == permissionId;
            && (r.Success? <==> if known then s.permissions[command.key].createdAt <= now else !taken)
            && (r == Failure(InvalidTimestamps) <==> known && now < s.permissions[command.key].createdAt)
            && (r == Failure(IntegrityFailure) <==> !known && taken)
  {
    hide PermissionSetRecord;
  }

  /** A new permission is created now; every set leaves one record of who set what. */
  lemma SetPermissionRecords(s: PolicyState, command: SetPermissionCommand, permissionId: Uuid, auditId: Uuid, now: int)
    requires SetPermission(s, command, permissionId, auditId, now).Success?
    ensures var t := SetPermission(s, command, permissionId, auditId, now).value;
            && command.key in t.permissions && |t.audits| == |s.audits| + 1
            && (command.key !in s.permissions ==>
                  t.permissions[command.key] == AgentModelPermission(permissionId, command.key, command.effect, now, now))
            && var record := t.audits[|s.audits|];
               && record.auditId == auditId && record.actor == command.principalId && record.occurredAt == now
               && record.tenantId == Some(t.permissions[command.key].key.tenantId)
               && record.action == AGENT_MODEL_PERMISSION_SET
               && record.resource == Resource(AGENT_MODEL_PERMISSION, t.permissions[command.key].id)
               && (record.before.None? <==> command.key !in s.permissions)
  {
    hide PermissionCanonical;
  }

  /** Each row sits under its own key, and no two rows share an identity. */
  ghost predicate Consistent(s: PolicyState) {
    && (forall k :: k in s.permissions ==> s.permissions[k].key == k)
    && (forall j, k :: j in s.permissions && k in s.permissions && s.permissions[j].id == s.permissions[k].id ==> j == k)
    && (forall k :: k in s.permissions ==> s.permissions[k].createdAt <= s.permissions[k].updatedAt)
  }

  /** Setting an existing permission keeps its identity and creation time; no other row changes. */
  lemma SetPermissionKeepsIdentity(s: PolicyState, command: SetPermissionCommand, permissionId: Uuid, auditId: Uuid, now: int)
    requires Consistent(s)
    requires SetPermission(s, command, permissionId, auditId, now).Success?
    ensures var t := SetPermission(s, command, permissionId, auditId, now).value;
            && Consistent(t)
            && t.permissions.Keys == s.permissions.Keys + {command.key}
            && t.permissions[command.key].effect == command.effect
            && t.permissions[command.key].updatedAt == now
            && (command.key in s.permissions ==>
                  && t.permissions[command.key].id == s.permissions[command.key].id
                  && t.permissions[command.key].createdAt == s.permissions[command.key].createdAt)
            && (forall k :: k in s.permissions && k != command.key ==> t.permissions[k] == s.permissions[k])
            && t.decisions == s.decisions
            && |t.audits| == |s.audits| + 1 && t.audits[..|s.audits|] == s.audits
  {
  }

  /** A decision allows exactly when a stored permission allowed at the moment it was read. */
  lemma DecisionsDenyByDefault(s: PolicyState, decisionId: Uuid, invocationId: Uuid, key: PermissionKey, now: int)
    requires Consistent(s) && invocationId !in s.decisions
    ensures var t := Evaluate(s, decisionId, invocationId, key, now).value;
            && Consistent(t)
            && t.decisions.Keys == s.decisions.Keys + {invocationId}
            && t.decisions[invocationId].invocationId == invocationId
            && t.decisions[invocationId].key == key
            && (t.decisions[invocationId].effect == ALLOW <==>
                key in s.permissions && s.permissions[key].effect == ALLOW)
            && t.decisions[invocationId].permissionId == (if key in s.permissions then Some(s.permissions[key].id) else None)
            && t.decisions[invocationId].id == decisionId && t.decisions[invocationId].decidedAt == now
            && (forall other :: other in s.decisions ==> t.decisions[other] == s.decisions[other])
            && t.permissions == s.permissions && t.audits == s.audits
  {
  }

  // The audit chain of permissions in serial runs

  ghost function Canonical(s: PolicyState, x: Resource): Option<string> {
    if x.kind == AGENT_MODEL_PERMISSION && exists k :: k in s.permissions && s.permissions[k].id == x.id then
      var k :| k in s.permissions && s.permissions[k].id == x.id;
      Some(PermissionCanonical(Facts(s.permissions[k])))
    else None
  }

  lemma CanonicalIs(s: PolicyState, k: PermissionKey)
    requires Consistent(s) && k in s.permissions
    ensures Canonical(s, Resource(AGENT_MODEL_PERMISSION, s.permissions[k].id)) ==
            Some(PermissionCanonical(Facts(s.permissions[k])))
  {
  }

  /** The transaction's one record carries the state before and after, and touches nothing else. */
  lemma SetPermissionFollows(s: PolicyState, command: SetPermissionCommand, permissionId: Uuid, auditId: Uuid, now: int,
                             x: Resource)
    requires Consistent(s)
    requires SetPermission(s, command, permissionId, auditId, now).Success?
    ensures var t := SetPermission(s, command, permissionId, auditId, now).value;
            Follows(Canonical(s, x), Canonical(t, x), TouchOf(t.audits[|s.audits|..], x))
  {
    hide PermissionCanonical;
    var t := SetPermission(s, command, permissionId, auditId, now).value;
    SetPermissionKeepsIdentity(s, command, permissionId, auditId, now);
    var key := command.key;
    var record := t.audits[|s.audits|];
    assert t.audits[|s.audits|..] == [record];
    assert TouchOf([record][1..], x) == Untouched;
    assert record.resource == Resource(AGENT_MODEL_PERMISSION, t.permissions[key].id);
    if x == record.resource {
      CanonicalIs(t, key);
      if key in s.permissions {
        CanonicalIs(s, key);
      }
    } else if Canonical(s, x).Some? {
      var k :| k in s.permissions && s.permissions[k].id == x.id;
      CanonicalIs(s, k);
      CanonicalIs(t, k);
    }
  }

  /** One serial step: a committed set, a committed evaluation, or a refused or failed attempt. */
  ghost predicate SerialStep(s: PolicyState, t: PolicyState) {
    || t == s
    || (exists command, permissionId, auditId, now ::
          SetPermission(s, command, permissionId, auditId, now) == Success(t))
    || (exists decisionId, invocationId, key, now ::
          Evaluate(s, decisionId, invocationId, key, now) == Success(t))
  }

  ghost predicate SerialRun(run: seq<PolicyState>) {
    && |run| > 0 && Consistent(run[0])
    && forall i :: 0 <= i < |run| - 1 ==> SerialStep(run[i], run[i + 1])
  }

  lemma SerialStepFollows(s: PolicyState, t: PolicyState, x: Resource)
    requires Consistent(s) && SerialStep(s, t)
    ensures Consistent(t) && |s.audits| <= |t.audits|
    ensures Follows(Canonical(s, x), Canonical(t, x), TouchOf(t.audits[|s.audits|..], x))
  {
    if t == s {
    } else if command, permissionId, auditId, now :| SetPermission(s, command, permissionId, auditId, now) == Success(t) {
      SetPermissionKeepsIdentity(s, command, permissionId, auditId, now);
      SetPermissionFollows(s, command, permissionId, auditId, now, x);
    } else {
      var decisionId, invocationId, key, now :| Evaluate(s, decisionId, invocationId, key, now) == Success(t);
      assert t.permissions == s.permissions;
    }
  }

  lemma {:induction false} SerialRunsStayConsistent(run: seq<PolicyState>, i: nat)
    requires SerialRun(run) && i < |run|
    ensures Consistent(run[i])
  {
    if i > 0 {
      SerialRunsStayConsistent(run, i - 1);
      SerialStepFollows(run[i - 1], run[i], Resource(AGENT_MODEL_PERMISSION, 0));
    }
  }

  ghost function States(run: seq<PolicyState>, x: Resource): seq<Option<string>> {
    seq(|run|, i requires 0 <= i < |run| => Canonical(run[i], x))
  }

  ghost function Touches(run: seq<PolicyState>, x: Resource): seq<Touch>
    requires |run| > 0
  {
    seq(|run| - 1, i requires 0 <= i < |run| - 1 =>
      if |run[i].audits| <= |run[i + 1].audits| then TouchOf(run[i + 1].audits[|run[i].audits|..], x) else Untouched)
  }

  /** In every serial run the records of each permission chain over its actual states. */
  lemma PermissionAuditsChain(run: seq<PolicyState>, x: Resource)
    requires SerialRun(run)
    ensures History(States(run, x), Touches(run, x))
  {
    hide Canonical;
    var states, touches := States(run, x), Touches(run, x);
    forall i | 0 <= i < |touches|
      ensures Follows(states[i], states[i + 1], touches[i])
    {
      SerialRunsStayConsistent(run, i);
      SerialStepFollows(run[i], run[i + 1], x);
    }
  }
}
