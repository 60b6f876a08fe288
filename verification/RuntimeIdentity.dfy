/**
 Runtime principals: their one-shot transitions, and the binding of a principal to the legacy
 identity under which its Agent has been calling so far.
 */
module RuntimeIdentity {
  import opened Wrappers
  import opened Text
  import opened Uuids
  import opened Fingerprints
  import opened AuditChain
  import opened UsageLimit
  import opened Invocations
  import opened InvocationRows
  import opened Admission

  const MAX_LEGACY_ID_LENGTH := 255

  datatype RuntimePrincipal = RuntimePrincipal(
    principalId: Uuid, tenantId: Uuid, agentId: Uuid, createdAt: int, disabledAt: Option<int>,
    daily: Option<nat>, allowance: Option<nat>, legacyId: Option<string>, boundAt: Option<int>)
  {
    predicate Active() {
      disabledAt.None?
    }

    predicate Configured() {
      daily.Some?
    }

    predicate Bound() {
      legacyId.Some?
    }

    /** What construction guarantees, after it strips the legacy identity. */
    predicate Valid() {
      && (daily.Some? <==> allowance.Some?)
      && (daily.Some? ==> 0 < allowance.value <= daily.value)
      && (legacyId.Some? <==> boundAt.Some?)
      && (legacyId.Some? ==> legacyId.value != "" && |legacyId.value| <= MAX_LEGACY_ID_LENGTH && Trimmed(legacyId.value))
    }

    /** The identities whose usage counts as this principal's. */
    function ContinuityIds(): set<string> {
      {UuidText(principalId)} + if legacyId.Some? then {legacyId.value} else {}
    }
  }

  datatype RuntimeCredential = RuntimeCredential(principalId: Uuid, expiresAt: Option<int>, revokedAt: Option<int>) {
    predicate UsableAt(at: int) {
      revokedAt.None? && (expiresAt.None? || at < expiresAt.value)
    }
  }

  datatype RuntimeState = RuntimeState(
    principals: map<Uuid, RuntimePrincipal>, credentials: map<Uuid, RuntimeCredential>,
    rows: seq<InvocationRow>, audits: seq<AuditRecord>)

  /** One entry of the static configuration under which a legacy identity authenticates. */
  datatype LegacyConfiguration = LegacyConfiguration(tenantId: Uuid, agentId: Uuid, daily: nat, allowance: nat)

  datatype RuntimeError =
    | ManagementDenied | PrincipalNotFound | ContinuityConflict | InvalidCommand | AlreadyInitialized | BindingNotFound
    | IntegrityFailure | Interrupted

  // Transitions

  /** Construction with limits. */
  function WithLimits(p: RuntimePrincipal, daily: int, allowance: int): (r: Result<RuntimePrincipal, RuntimeError>)
    ensures r.Success? <==> 0 < allowance <= daily
    ensures r.Success? && p.Valid() ==> r.value.Valid() && r.value.Configured()
  {
    if daily <= 0 || allowance <= 0 || allowance > daily then Failure(InvalidCommand)
    else Success(p.(daily := Some(daily), allowance := Some(allowance)))
  }

  /** Only an active principal without limits is given limits, and nothing else of it changes. */
  function ConfiguredWith(p: RuntimePrincipal, daily: int, allowance: int): (r: Result<RuntimePrincipal, RuntimeError>)
    ensures r.Success? <==> p.Active() && !p.Configured() && 0 < allowance <= daily
    ensures r.Success? ==> r.value == p.(daily := Some(daily), allowance := Some(allowance))
    ensures r.Failure? ==> r.error == InvalidCommand
    ensures r.Success? && p.Valid() ==> r.value.Valid()
  {
    if !p.Active() || p.Configured() then Failure(InvalidCommand) else WithLimits(p, daily, allowance)
  }

  /** Only an active, unbound principal is bound, to the stripped identity at the given instant. */
  function BoundTo(p: RuntimePrincipal, legacyId: string, at: int): (r: Result<RuntimePrincipal, RuntimeError>)
    ensures r.Success? <==> p.Active() && !p.Bound() && 0 < |Strip(legacyId)| <= MAX_LEGACY_ID_LENGTH
    ensures r.Success? ==> r.value == p.(legacyId := Some(Strip(legacyId)), boundAt := Some(at))
    ensures r.Failure? ==> r.error == InvalidCommand
    ensures r.Success? && p.Valid() ==> r.value.Valid()
  {
    var stripped := Strip(legacyId);
    if !p.Active() || p.Bound() || stripped == "" || |stripped| > MAX_LEGACY_ID_LENGTH then Failure(InvalidCommand)
    else Success(p.(legacyId := Some(stripped), boundAt := Some(at)))
  }

  // Usage under several identities

  /** SUM of the known units of the rows carrying one of the identities in the window. */
  function ConsumedTotal(rows: seq<InvocationRow>, ids: set<string>, window: UsageWindow): int {
    if rows == [] then 0
    else
      var last := rows[|rows| - 1];
      ConsumedTotal(rows[..|rows| - 1], ids, window)
      + (if last.runtimePrincipalId.Some? && last.runtimePrincipalId.value in ids
            && window.Contains(last.startedAt) && last.totalUnits.Some? then last.totalUnits.value else 0)
  }

  method ConsumedTotalUnits(rows: seq<InvocationRow>, ids: set<string>, window: UsageWindow) returns (total: int)
    ensures total == ConsumedTotal(rows, ids, window)
  {
    total := 0;
    for i := 0 to |rows|
      invariant total == ConsumedTotal(rows[..i], ids, window)
    {
      var row := rows[i];
      assert rows[..i + 1][..i] == rows[..i];
      if row.runtimePrincipalId.Some? && row.runtimePrincipalId.value in ids
         && window.Contains(row.startedAt) && row.totalUnits.Some? {
        total := total + row.totalUnits.value;
      }
    }
    assert rows[..|rows|] == rows;
  }

  predicate Carries(row: InvocationRow, id: string) {
    row.runtimePrincipalId == Some(id)
  }

  /** The rows of an identity belong to this Tenant and Agent. */
  predicate Consistent(rows: seq<InvocationRow>, id: string, tenantId: Uuid, agentId: Uuid) {
    forall row :: row in rows && Carries(row, id) ==> row.tenantId == tenantId && row.agentId == agentId
  }

  function CountRows(rows: seq<InvocationRow>, id: string): nat {
    if rows == [] then 0
    else CountRows(rows[..|rows| - 1], id) + (if Carries(rows[|rows| - 1], id) then 1 else 0)
  }

  datatype ContinuityFacts = ContinuityFacts(historical: nat, sameDayUnits: int, legacyMismatch: bool, canonicalMismatch: bool)

  function FactsAbout(rows: seq<InvocationRow>, legacyId: string, p: RuntimePrincipal, day: UsageWindow): ContinuityFacts {
    ContinuityFacts(CountRows(rows, legacyId), ConsumedTotal(rows, {legacyId}, day),
                    !Consistent(rows, legacyId, p.tenantId, p.agentId),
                    !Consistent(rows, UuidText(p.principalId), p.tenantId, p.agentId))
  }

  lemma ConsistentAppend(rows: seq<InvocationRow>, row: InvocationRow, id: string, tenantId: Uuid, agentId: Uuid)
    ensures Consistent(rows + [row], id, tenantId, agentId) <==>
            Consistent(rows, id, tenantId, agentId)
            && (Carries(row, id) ==> row.tenantId == tenantId && row.agentId == agentId)
  {
    assert row in rows + [row];
    assert forall r :: r in rows ==> r in rows + [row];
  }

  /** One pass over the rows of both identities. */
  method Inspect(rows: seq<InvocationRow>, legacyId: string, p: RuntimePrincipal, day: UsageWindow) returns (f: ContinuityFacts)
    ensures f == FactsAbout(rows, legacyId, p, day)
  {
    hide UuidText, Consistent;
    var canonicalId := UuidText(p.principalId);
    f := ContinuityFacts(0, 0, false, false);
    assert Consistent([], legacyId, p.tenantId, p.agentId) && Consistent([], canonicalId, p.tenantId, p.agentId) by {
      NoRowsAreConsistent(legacyId, p.tenantId, p.agentId);
      NoRowsAreConsistent(canonicalId, p.tenantId, p.agentId);
    }
    for i := 0 to |rows|
      invariant f == FactsAbout(rows[..i], legacyId, p, day)
    {
      var row := rows[i];
      assert rows[..i + 1] == rows[..i] + [row] && rows[..i + 1][..i] == rows[..i];
      ConsistentAppend(rows[..i], row, legacyId, p.tenantId, p.agentId);
      ConsistentAppend(rows[..i], row, canonicalId, p.tenantId, p.agentId);
      var elsewhere := row.tenantId != p.tenantId || row.agentId != p.agentId;
      if Carries(row, legacyId) {
        var units := if CountsWithin(day, row) then row.totalUnits.value else 0;
        f := f.(historical := f.historical + 1, sameDayUnits := f.sameDayUnits + units,
                legacyMismatch := f.legacyMismatch || elsewhere);
      }
      if Carries(row, canonicalId) {
        f := f.(canonicalMismatch := f.canonicalMismatch || elsewhere);
      }
    }
    assert rows[..|rows|] == rows;
  }

  predicate CountsWithin(day: UsageWindow, row: InvocationRow) {
    day.Contains(row.startedAt) && row.totalUnits.Some?
  }

  lemma NoRowsAreConsistent(id: string, tenantId: Uuid, agentId: Uuid)
    ensures Consistent([], id, tenantId, agentId)
  {
  }

  // The continuity preflight

  type LegacyConfigurations = map<string, LegacyConfiguration>

  /** Settings hold stripped identities of at most 255 characters. */
  ghost predicate ValidConfigurations(config: LegacyConfigurations) {
    forall id :: id in config ==> id != "" && |id| <= MAX_LEGACY_ID_LENGTH && Trimmed(id)
  }

  datatype Preflight = Preflight(
    staticIdentityExists: bool, tenantMatches: bool, agentMatches: bool, unclaimed: bool, unbound: bool,
    limitsMatch: bool, facts: ContinuityFacts, cutoverReady: bool)
  {
    predicate Safe() {
      && staticIdentityExists && tenantMatches && agentMatches && unclaimed && unbound && limitsMatch
      && !facts.legacyMismatch && !facts.canonicalMismatch && cutoverReady
    }
  }

  predicate Claimed(s: RuntimeState, legacyId: string) {
    exists id :: id in s.principals && s.principals[id].legacyId == Some(legacyId)
  }

  predicate HasPotentiallyUsable(s: RuntimeState, principalId: Uuid, now: int) {
    exists id :: id in s.credentials && s.credentials[id].principalId == principalId && s.credentials[id].UsableAt(now)
  }

  /** The report, from what its reads returned. */
  function PreflightFrom(config: LegacyConfigurations, p: RuntimePrincipal, legacyId: string, facts: ContinuityFacts,
                         claimed: bool, hasCredential: bool): Preflight {
    var known := legacyId in config;
    Preflight(known, known && config[legacyId].tenantId == p.tenantId, known && config[legacyId].agentId == p.agentId,
              !claimed, !p.Bound(),
              known && p.daily == Some(config[legacyId].daily) && p.allowance == Some(config[legacyId].allowance),
              facts, p.Active() && p.Configured() && hasCredential)
  }

  function PreflightOf(config: LegacyConfigurations, s: RuntimeState, p: RuntimePrincipal, legacyId: string, now: int): Preflight {
    PreflightFrom(config, p, legacyId, FactsAbout(s.rows, legacyId, p, UtcDayWindow(now)), Claimed(s, legacyId),
                  HasPotentiallyUsable(s, p.principalId, now))
  }

  // The commands, when nothing else runs between their statements

  datatype Context = Context(actorId: Uuid, canManage: bool, now: int, config: LegacyConfigurations, agents: map<Uuid, Uuid>)

  datatype Command =
    | Create(tenantId: Uuid, agentId: Uuid, daily: int, allowance: int, expiresAt: Option<int>,
             newPrincipal: Uuid, newCredential: Uuid, auditId: Uuid)
    | Bind(principalId: Uuid, legacyId: string, auditId: Uuid)
    | Initialize(principalId: Uuid, daily: int, allowance: int, auditId: Uuid)
    | Disable(principalId: Uuid, auditId: Uuid)

  function Facts(p: RuntimePrincipal): RuntimePrincipalFacts {
    RuntimePrincipalFacts(p.principalId, p.tenantId, p.agentId, !p.Active(), p.daily, p.allowance, p.legacyId)
  }

  function PrincipalText(p: RuntimePrincipal): string {
    RuntimePrincipalCanonical(Facts(p))
  }

  function Record(auditId: Uuid, x: Context, action: AuditAction, before: Option<RuntimePrincipal>, after: RuntimePrincipal)
    : AuditRecord
  {
    AuditRecord(auditId, UuidText(x.actorId), Some(after.tenantId), action, Resource(RUNTIME_PRINCIPAL, after.principalId), x.now,
                if before.None? then None else Some(PrincipalText(before.value)), PrincipalText(after))
  }

  function Saved(s: RuntimeState, p: RuntimePrincipal, record: AuditRecord): RuntimeState {
    s.(principals := s.principals[p.principalId := p], audits := s.audits + [record])
  }

  function ExecuteCreate(s: RuntimeState, x: Context, c: Command): Result<RuntimeState, RuntimeError>
    requires c.Create?
  {
    if !x.canManage then Failure(ManagementDenied)
    else if c.expiresAt.Some? && c.expiresAt.value <= x.now then Failure(InvalidCommand)
    else if c.agentId !in x.agents || x.agents[c.agentId] != c.tenantId then Failure(BindingNotFound)
    else
      var p :- WithLimits(RuntimePrincipal(c.newPrincipal, c.tenantId, c.agentId, x.now, None, None, None, None, None),
                          c.daily, c.allowance);
      if c.newPrincipal in s.principals || c.newCredential in s.credentials then Failure(IntegrityFailure)
      else
        var added := s.(credentials := s.credentials[c.newCredential := RuntimeCredential(c.newPrincipal, c.expiresAt, None)]);
        Success(Saved(added, p, Record(c.auditId, x, RUNTIME_PRINCIPAL_CREATED, None, p)))
  }

  function ExecuteBind(s: RuntimeState, x: Context, c: Command): Result<RuntimeState, RuntimeError>
    requires c.Bind?
  {
    if !x.canManage then Failure(ManagementDenied)
    else if c.principalId !in s.principals || !s.principals[c.principalId].Active() then Failure(PrincipalNotFound)
    else
      var p := s.principals[c.principalId];
      if p.Bound() || Claimed(s, c.legacyId) then Failure(ContinuityConflict)
      else if !PreflightOf(x.config, s, p, c.legacyId, x.now).Safe() then Failure(InvalidCommand)
      else
        var bound :- BoundTo(p, c.legacyId, x.now);
        if p.boundAt.Some? then Failure(ContinuityConflict)
        else Success(Saved(s, bound, Record(c.auditId, x, RUNTIME_PRINCIPAL_IDENTITY_CONTINUITY_BOUND, Some(p), bound)))
  }

  function ExecuteInitialize(s: RuntimeState, x: Context, c: Command): Result<RuntimeState, RuntimeError>
    requires c.Initialize?
  {
    if !x.canManage then Failure(ManagementDenied)
    else if c.principalId !in s.principals || !s.principals[c.principalId].Active() then Failure(PrincipalNotFound)
    else
      var p := s.principals[c.principalId];
      if p.Configured() then Failure(AlreadyInitialized)
      else
        var configured :- ConfiguredWith(p, c.daily, c.allowance);
        if p.allowance.Some? then Failure(AlreadyInitialized)
        else Success(Saved(s, configured, Record(c.auditId, x, RUNTIME_PRINCIPAL_USAGE_LIMITS_INITIALIZED, Some(p), configured)))
  }

  function ExecuteDisable(s: RuntimeState, x: Context, c: Command): Result<RuntimeState, RuntimeError>
    requires c.Disable?
  {
    if !x.canManage then Failure(ManagementDenied)
    else if c.principalId !in s.principals || !s.principals[c.principalId].Active() then Failure(PrincipalNotFound)
    else
      var p := s.principals[c.principalId];
      var disabled := p.(disabledAt := Some(x.now));
      Success(Saved(s, disabled, Record(c.auditId, x, RUNTIME_PRINCIPAL_DISABLED, Some(p), disabled)))
  }

  function Execute(s: RuntimeState, x: Context, c: Command): Result<RuntimeState, RuntimeError> {
    match c
    case Create(_, _, _, _, _, _, _, _) => ExecuteCreate(s, x, c)
    case Bind(_, _, _) => ExecuteBind(s, x, c)
    case Initialize(_, _, _, _) => ExecuteInitialize(s, x, c)
    case Disable(_, _) => ExecuteDisable(s, x, c)
  }

  // What a command does, row by row

  /** A command writes one principal's row, and only the columns it is about. */
  lemma CommandEffects(s: RuntimeState, x: Context, c: Command)
    requires Execute(s, x, c).Success? && forall id :: id in s.principals ==> s.principals[id].principalId == id
    ensures var t := Execute(s, x, c).value;
            var id := if c.Create? then c.newPrincipal else c.principalId;
            && id in t.principals && t.principals.Keys == s.principals.Keys + {id} && t.rows == s.rows
            && (forall other :: other in s.principals && other != id ==> t.principals[other] == s.principals[other])
            && var q := t.principals[id];
               if c.Create? then
                 && id !in s.principals && c.newCredential !in s.credentials && q.Valid()
                 && q == RuntimePrincipal(id, c.tenantId, c.agentId, x.now, None, Some(c.daily), Some(c.allowance), None, None)
                 && x.agents[c.agentId] == c.tenantId
                 && t.credentials == s.credentials[c.newCredential := RuntimeCredential(id, c.expiresAt, None)]
                 && (forall at :: (c.expiresAt.Some? ==> at < c.expiresAt.value) ==> HasPotentiallyUsable(t, id, at))
               else
                 && id in s.principals && s.principals[id].Active() && t.credentials == s.credentials
                 && var p := s.principals[id];
                    match c
                    case Bind(_, legacyId, _) =>
                      && !p.Bound() && p.Configured() && !Claimed(s, legacyId) && legacyId in x.config
                      && x.config[legacyId].tenantId == p.tenantId && x.config[legacyId].agentId == p.agentId
                      && q == p.(legacyId := Some(Strip(legacyId)), boundAt := Some(x.now))
                    case Initialize(_, daily, allowance, _) =>
                      && !p.Configured() && 0 < allowance <= daily
                      && q == p.(daily := Some(daily), allowance := Some(allowance))
                    case _ => !q.Active() && q == p.(disabledAt := Some(x.now))
  {
    hide Record, FactsAbout, Strip, Trimmed;
    if c.Create? {
      var t := Execute(s, x, c).value;
      assert t.credentials[c.newCredential] == RuntimeCredential(c.newPrincipal, c.expiresAt, None);
    }
  }

  // Exactly when a command succeeds, and how it is refused otherwise

  /** Every row of the identity comes from this Tenant and Agent. */
  ghost predicate AllRowsFrom(rows: seq<InvocationRow>, id: string, tenantId: Uuid, agentId: Uuid) {
    forall i :: 0 <= i < |rows| && rows[i].runtimePrincipalId == Some(id) ==>
      rows[i].tenantId == tenantId && rows[i].agentId == agentId
  }

  /** A credential of the principal is neither revoked nor expired at the instant. */
  ghost predicate HasUsable(s: RuntimeState, principalId: Uuid, now: int) {
    exists id :: id in s.credentials && s.credentials[id].principalId == principalId
      && s.credentials[id].revokedAt.None? && (s.credentials[id].expiresAt.Some? ==> now < s.credentials[id].expiresAt.value)
  }

  lemma ConsistentMeans(rows: seq<InvocationRow>, id: string, tenantId: Uuid, agentId: Uuid)
    ensures Consistent(rows, id, tenantId, agentId) <==> AllRowsFrom(rows, id, tenantId, agentId)
  {
    if AllRowsFrom(rows, id, tenantId, agentId) {
      forall row | row in rows && Carries(row, id)
        ensures row.tenantId == tenantId && row.agentId == agentId
      {
        var i :| 0 <= i < |rows| && rows[i] == row;
      }
    }
    if Consistent(rows, id, tenantId, agentId) {
      forall i | 0 <= i < |rows| && rows[i].runtimePrincipalId == Some(id)
        ensures rows[i].tenantId == tenantId && rows[i].agentId == agentId
      {
        assert rows[i] in rows && Carries(rows[i], id);
      }
    }
  }

  lemma UsableMeans(s: RuntimeState, principalId: Uuid, now: int)
    ensures HasPotentiallyUsable(s, principalId, now) <==> HasUsable(s, principalId, now)
  {
    if HasPotentiallyUsable(s, principalId, now) {
      var id :| id in s.credentials && s.credentials[id].principalId == principalId && s.credentials[id].UsableAt(now);
      assert HasUsable(s, principalId, now);
    }
    if HasUsable(s, principalId, now) {
      var id :| id in s.credentials && s.credentials[id].principalId == principalId
        && s.credentials[id].revokedAt.None? && (s.credentials[id].expiresAt.Some? ==> now < s.credentials[id].expiresAt.value);
      assert s.credentials[id].UsableAt(now);
    }
  }

  /** What each entry of the report says about the tables. */
  lemma PreflightMeans(config: LegacyConfigurations, s: RuntimeState, p: RuntimePrincipal, legacyId: string, now: int)
    ensures var r, known := PreflightOf(config, s, p, legacyId, now), legacyId in config;
            && r.staticIdentityExists == known
            && (r.tenantMatches <==> known && config[legacyId].tenantId == p.tenantId)
            && (r.agentMatches <==> known && config[legacyId].agentId == p.agentId)
            && (r.limitsMatch <==>
                  known && p.daily == Some(config[legacyId].daily) && p.allowance == Some(config[legacyId].allowance))
            && (r.unclaimed <==> forall id :: id in s.principals ==> s.principals[id].legacyId != Some(legacyId))
            && (r.unbound <==> p.legacyId.None?)
            && (r.cutoverReady <==> p.disabledAt.None? && p.daily.Some? && HasUsable(s, p.principalId, now))
            && (r.facts.legacyMismatch <==> !AllRowsFrom(s.rows, legacyId, p.tenantId, p.agentId))
            && (r.facts.canonicalMismatch <==> !AllRowsFrom(s.rows, UuidText(p.principalId), p.tenantId, p.agentId))
            && r.facts.historical == |PositionsOf(s.rows, legacyId)|
            && r.facts.sameDayUnits == Consumption(UsageMeter(legacyId, UtcDayWindow(now)), s.rows)
  {
    hide Consistent, HasPotentiallyUsable, HasUsable, AllRowsFrom, UuidText, CountRows, ConsumedTotal, Consumption, UtcDayWindow;
    ConsistentMeans(s.rows, legacyId, p.tenantId, p.agentId);
    ConsistentMeans(s.rows, UuidText(p.principalId), p.tenantId, p.agentId);
    UsableMeans(s, p.principalId, now);
    RowsAreCounted(s.rows, legacyId);
    OneIdentityIsTheGateReading(s.rows, legacyId, UtcDayWindow(now));
  }

  function PositionsOf(rows: seq<InvocationRow>, id: string): set<nat> {
    set i | 0 <= i < |rows| && rows[i].runtimePrincipalId == Some(id)
  }

  lemma {:induction false} RowsAreCounted(rows: seq<InvocationRow>, id: string)
    ensures CountRows(rows, id) == |PositionsOf(rows, id)|
  {
    if rows == [] {
      assert PositionsOf(rows, id) == {};
    } else {
      var front := rows[..|rows| - 1];
      RowsAreCounted(front, id);
      PositionsAppend(front, rows[|front|], id);
      assert rows == front + [rows[|front|]];
    }
  }

  lemma PositionsAppend(rows: seq<InvocationRow>, row: InvocationRow, id: string)
    ensures |PositionsOf(rows + [row], id)| == |PositionsOf(rows, id)| + (if row.runtimePrincipalId == Some(id) then 1 else 0)
  {
    assert PositionsOf(rows + [row], id) ==
           PositionsOf(rows, id) + (if row.runtimePrincipalId == Some(id) then {|rows|} else {});
    assert |rows| !in PositionsOf(rows, id);
  }

  /** A bind needs the same Tenant, Agent and limits as the static identity, rows that all come from
      there, and a usable credential, besides an unbound principal and an unclaimed identity. */
  lemma BindSucceedsIff(s: RuntimeState, x: Context, c: Command)
    requires c.Bind? && forall id :: id in s.principals ==> s.principals[id].principalId == id
    ensures var r := Execute(s, x, c);
            var found := c.principalId in s.principals && s.principals[c.principalId].disabledAt.None?;
            var unclaimed := forall id :: id in s.principals ==> s.principals[id].legacyId != Some(c.legacyId);
            && (r == Failure(ManagementDenied) <==> !x.canManage)
            && (r == Failure(PrincipalNotFound) <==> x.canManage && !found)
            && (r.Success? ==> x.canManage && found)
            && (x.canManage && found ==>
                  var p := s.principals[c.principalId];
                  var safe := && c.legacyId in x.config
                              && x.config[c.legacyId].tenantId == p.tenantId && x.config[c.legacyId].agentId == p.agentId
                              && p.daily == Some(x.config[c.legacyId].daily)
                              && p.allowance == Some(x.config[c.legacyId].allowance)
                              && AllRowsFrom(s.rows, c.legacyId, p.tenantId, p.agentId)
                              && AllRowsFrom(s.rows, UuidText(p.principalId), p.tenantId, p.agentId)
                              && HasUsable(s, p.principalId, x.now)
                              && 0 < |Strip(c.legacyId)| <= MAX_LEGACY_ID_LENGTH;
                  && (r.Success? <==> p.legacyId.None? && p.boundAt.None? && unclaimed && safe)
                  && (r == Failure(InvalidCommand) <==> p.legacyId.None? && unclaimed && !safe)
                  && (r == Failure(ContinuityConflict) <==>
                        p.legacyId.Some? || !unclaimed || (p.boundAt.Some? && safe)))
  {
    hide Strip, Consistent, HasPotentiallyUsable, HasUsable, AllRowsFrom, UuidText, CountRows, ConsumedTotal, Consumption,
      UtcDayWindow, Record, BoundTo;
    if x.canManage && c.principalId in s.principals {
      PreflightMeans(x.config, s, s.principals[c.principalId], c.legacyId, x.now);
    }
    hide PreflightOf;
  }

  lemma CreateSucceedsIff(s: RuntimeState, x: Context, c: Command)
    requires c.Create?
    ensures var r := Execute(s, x, c);
            var future := c.expiresAt.Some? ==> x.now < c.expiresAt.value;
            var registered := c.agentId in x.agents && x.agents[c.agentId] == c.tenantId;
            var fits := 0 < c.allowance <= c.daily;
            var free := c.newPrincipal !in s.principals && c.newCredential !in s.credentials;
            && (r.Success? <==> x.canManage && future && registered && fits && free)
            && (r == Failure(ManagementDenied) <==> !x.canManage)
            && (r == Failure(InvalidCommand) <==> x.canManage && (!future || (registered && !fits)))
            && (r == Failure(BindingNotFound) <==> x.canManage && future && !registered)
            && (r == Failure(IntegrityFailure) <==> x.canManage && future && registered && fits && !free)
  {
    hide Record;
  }

  lemma InitializeSucceedsIff(s: RuntimeState, x: Context, c: Command)
    requires c.Initialize?
    ensures var r := Execute(s, x, c);
            var found := c.principalId in s.principals && s.principals[c.principalId].disabledAt.None?;
            && (r == Failure(ManagementDenied) <==> !x.canManage)
            && (r == Failure(PrincipalNotFound) <==> x.canManage && !found)
            && (r.Success? ==> x.canManage && found)
            && (x.canManage && found ==>
                  var p, fits := s.principals[c.principalId], 0 < c.allowance <= c.daily;
                  && (r.Success? <==> p.daily.None? && p.allowance.None? && fits)
                  && (r == Failure(InvalidCommand) <==> p.daily.None? && !fits)
                  && (r == Failure(AlreadyInitialized) <==> p.daily.Some? || (p.allowance.Some? && fits)))
  {
    hide Record;
  }

  lemma DisableSucceedsIff(s: RuntimeState, x: Context, c: Command)
    requires c.Disable?
    ensures var r := Execute(s, x, c);
            var found := c.principalId in s.principals && s.principals[c.principalId].disabledAt.None?;
            && (r.Success? <==> x.canManage && found)
            && (r == Failure(ManagementDenied) <==> !x.canManage)
            && (r == Failure(PrincipalNotFound) <==> x.canManage && !found)
  {
    hide Record;
  }

  /** The action and the principal that a command is recorded under. */
  lemma CommandsAreRecorded(s: RuntimeState, x: Context, c: Command)
    requires Execute(s, x, c).Success? && forall id :: id in s.principals ==> s.principals[id].principalId == id
    ensures var t := Execute(s, x, c).value;
            && |t.audits| == |s.audits| + 1 && t.audits[..|s.audits|] == s.audits
            && var record := t.audits[|s.audits|];
               && record.auditId == c.auditId && record.actor == UuidText(x.actorId) && record.occurredAt == x.now
               && record.resource == Resource(RUNTIME_PRINCIPAL, if c.Create? then c.newPrincipal else c.principalId)
               && (record.before.None? <==> c.Create?)
               && record.action == (match c
                                    case Create(_, _, _, _, _, _, _, _) => RUNTIME_PRINCIPAL_CREATED
                                    case Bind(_, _, _) => RUNTIME_PRINCIPAL_IDENTITY_CONTINUITY_BOUND
                                    case Initialize(_, _, _, _) => RUNTIME_PRINCIPAL_USAGE_LIMITS_INITIALIZED
                                    case Disable(_, _) => RUNTIME_PRINCIPAL_DISABLED)
               && (c.Create? ==> record.tenantId == Some(c.tenantId))
               && (!c.Create? && c.principalId in s.principals ==> record.tenantId == Some(s.principals[c.principalId].tenantId))
  {
    hide PrincipalText, UuidText, PreflightOf, Strip, Claimed;
  }

  // Conservation of usage

  /** Usage under two identities is the sum of both, or of one when they coincide. */
  lemma {:induction false} UsageAddsOverIdentities(rows: seq<InvocationRow>, a: string, b: string, window: UsageWindow)
    ensures ConsumedTotal(rows, {a} + {b}, window) ==
            ConsumedTotal(rows, {a}, window) + if a == b then 0 else ConsumedTotal(rows, {b}, window)
  {
    if a == b {
      assert {a} + {b} == {a};
    } else if rows != [] {
      UsageAddsOverIdentities(rows[..|rows| - 1], a, b, window);
    }
  }

  /** One identity's total is what the usage gate reads for it. */
  lemma {:induction false} OneIdentityIsTheGateReading(rows: seq<InvocationRow>, id: string, window: UsageWindow)
    ensures ConsumedTotal(rows, {id}, window) == Consumption(UsageMeter(id, window), rows)
  {
    if rows != [] {
      OneIdentityIsTheGateReading(rows[..|rows| - 1], id, window);
    }
  }

  /** After a bind the day's continuity total is what the preflight reported for the legacy identity
      plus the principal's own usage, counted once when the two identities are the same text. */
  lemma BindingConservesUsage(s: RuntimeState, x: Context, c: Command)
    requires c.Bind? && ValidConfigurations(x.config) && ExecuteBind(s, x, c).Success?
    ensures var p, day := s.principals[c.principalId], UtcDayWindow(x.now);
            var bound := ExecuteBind(s, x, c).value.principals[p.principalId];
            var own := UuidText(p.principalId);
            && bound.legacyId == Some(c.legacyId)
            && ConsumedTotal(s.rows, bound.ContinuityIds(), day) ==
               PreflightOf(x.config, s, p, c.legacyId, x.now).facts.sameDayUnits
               + (if own == c.legacyId then 0 else ConsumedTotal(s.rows, {own}, day))
            && ConsumedTotal(s.rows, p.ContinuityIds(), day) == ConsumedTotal(s.rows, {own}, day)
  {
    hide UuidText, ConsumedTotal, Consistent, CountRows, UtcDayWindow, Claimed, HasPotentiallyUsable, Record, Strip, Trimmed;
    var p, day := s.principals[c.principalId], UtcDayWindow(x.now);
    var own := UuidText(p.principalId);
    StripKeepsTrimmed(c.legacyId);
    UsageAddsOverIdentities(s.rows, c.legacyId, own, day);
    assert {own} + {c.legacyId} == {c.legacyId} + {own};
    assert {own} + {} == {own};
  }

  // Which principals share usage

  /** Two principals with different legacy identities share no usage exactly when neither legacy
      identity is the other principal's own text form. */
  lemma ContinuitySetsAreDisjointIff(p: RuntimePrincipal, q: RuntimePrincipal)
    requires p.principalId != q.principalId && (p.legacyId.Some? ==> p.legacyId != q.legacyId)
    ensures p.ContinuityIds() !! q.ContinuityIds() <==>
            p.legacyId != Some(UuidText(q.principalId)) && q.legacyId != Some(UuidText(p.principalId))
  {
    UuidTextRoundTrip(p.principalId);
    UuidTextRoundTrip(q.principalId);
    hide UuidText, UuidValue, Plain;
    var a, b := p.ContinuityIds(), q.ContinuityIds();
    assert UuidText(p.principalId) in a && UuidText(q.principalId) in b;
    assert p.legacyId.Some? ==> p.legacyId.value in a;
    assert q.legacyId.Some? ==> q.legacyId.value in b;
  }

  /** Usage of two sets of identities adds up when they are disjoint. */
  lemma {:induction false} DisjointUsageAdds(rows: seq<InvocationRow>, a: set<string>, b: set<string>, window: UsageWindow)
    requires a !! b
    ensures ConsumedTotal(rows, a + b, window) == ConsumedTotal(rows, a, window) + ConsumedTotal(rows, b, window)
  {
    if rows != [] {
      DisjointUsageAdds(rows[..|rows| - 1], a, b, window);
    }
  }

  /** One unit used under an identity at the start of a window. */
  function OneUnit(id: string, window: UsageWindow): InvocationRow {
    InvocationRow(0, 0, 0, 0, SUCCEEDED, "", None, window.start, window.start, None, Some(id), None, None, None, Some(1), None,
                  NO_EVIDENCE, CostColumns(None, None, None, None, None, None, None, None), NO_EVIDENCE)
  }

  lemma OneUnitCounts(id: string, ids: set<string>, window: UsageWindow)
    requires window.start < window.end
    ensures ConsumedTotal([OneUnit(id, window)], ids, window) == if id in ids then 1 else 0
  {
    assert [OneUnit(id, window)][..0] == [];
  }

  /** Two principals share no usage, on any ledger, exactly when neither legacy identity is the other
      principal's own text form; otherwise a unit counts for both. */
  lemma PrincipalsShareNoUsageIff(p: RuntimePrincipal, q: RuntimePrincipal, window: UsageWindow)
    requires p.principalId != q.principalId && (p.legacyId.Some? ==> p.legacyId != q.legacyId) && window.start < window.end
    ensures (forall rows ::
               ConsumedTotal(rows, p.ContinuityIds() + q.ContinuityIds(), window) ==
               ConsumedTotal(rows, p.ContinuityIds(), window) + ConsumedTotal(rows, q.ContinuityIds(), window))
            <==> p.legacyId != Some(UuidText(q.principalId)) && q.legacyId != Some(UuidText(p.principalId))
  {
    ContinuitySetsAreDisjointIff(p, q);
    hide ConsumedTotal, UuidText;
    var a, b := p.ContinuityIds(), q.ContinuityIds();
    if a !! b {
      forall rows
        ensures ConsumedTotal(rows, a + b, window) == ConsumedTotal(rows, a, window) + ConsumedTotal(rows, b, window)
      {
        DisjointUsageAdds(rows, a, b, window);
      }
    } else {
      var id :| id in a && id in b;
      OneUnitCounts(id, a, window);
      OneUnitCounts(id, b, window);
      OneUnitCounts(id, a + b, window);
    }
  }

  lemma {:induction false} FixedTextHasNoSpace(n: nat, k: nat)
    ensures forall i :: 0 <= i < k ==> !IsSpace(FixedText(16, n, k)[i])
  {
    hide DivideBy;
    if k > 0 {
      var r := DivideBy(n, 16);
      FixedTextHasNoSpace(r.quotient, k - 1);
    }
  }

  lemma UuidTextIsTrimmed(u: Uuid)
    ensures Trimmed(UuidText(u))
  {
    FixedTextHasNoSpace(u, 32);
    var hex := FixedText(16, u, 32);
    assert UuidText(u)[0] == hex[0] && UuidText(u)[35] == hex[31];
  }

  /** Two alike principals, of which the first has a credential; no invocation rows. */
  function TwoPrincipals(): RuntimeState {
    var own := RuntimePrincipal(1, 10, 20, 0, None, Some(5), Some(1), None, None);
    RuntimeState(map[1 := own, 2 := own.(principalId := 2)], map[7 := RuntimeCredential(1, None, None)], [], [])
  }

  /** A configuration whose one identity is the second principal's text form. */
  function TextConfiguration(now: int): Context {
    Context(0, true, now, map[UuidText(2) := LegacyConfiguration(10, 20, 5, 1)], map[])
  }

  /** A principal may be bound to another principal's text form: nothing on the way refuses it. */
  lemma BindingToAnotherPrincipalIsAccepted(now: int, auditId: Uuid)
    ensures ValidConfigurations(TextConfiguration(now).config)
    ensures var r := ExecuteBind(TwoPrincipals(), TextConfiguration(now), Bind(1, UuidText(2), auditId));
            && r.Success? && 1 in r.value.principals && 2 in r.value.principals
            && !(r.value.principals[1].ContinuityIds() !! r.value.principals[2].ContinuityIds())
  {
    hide Record, UtcDayWindow, UuidText, Strip;
    var text, s, x := UuidText(2), TwoPrincipals(), TextConfiguration(now);
    var own := s.principals[1];
    UuidTextIsTrimmed(2);
    StripKeepsTrimmed(text);
    assert s.credentials[7].UsableAt(now);
    assert HasPotentiallyUsable(s, 1, now);
    NoRowsAreConsistent(text, 10, 20);
    NoRowsAreConsistent(UuidText(1), 10, 20);
    assert !Claimed(s, text);
    assert PreflightOf(x.config, s, own, text, now).Safe();
    var bound := BoundTo(own, text, now);
    assert bound.Success? && text in bound.value.ContinuityIds() && text in s.principals[2].ContinuityIds();
  }
}
