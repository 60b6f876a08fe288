/**
 Any number of runtime identity transactions, interleaved statement by statement. A bind takes an
 advisory lock on a hash of the legacy identity, then the row lock of its principal; disable and
 initialize read without a lock and take the row lock when they update. Rows of invocations and
 credentials change freely in between.
 */
module Continuity {
  import opened Wrappers
  import opened Text
  import opened Uuids
  import opened AuditChain
  import opened UsageLimit
  import opened InvocationRows
  import opened RuntimeIdentity

  datatype Phase =
    | Begun
    | LegacyLocked
    | RowLocked(principal: RuntimePrincipal)
    | Unclaimed(principal: RuntimePrincipal)
    | Inspected(principal: RuntimePrincipal, facts: ContinuityFacts)
    | Rechecked(principal: RuntimePrincipal, facts: ContinuityFacts, claimed: bool)
    | Preflighted(principal: RuntimePrincipal)
    | Seen(principal: RuntimePrincipal)
    | Writing(principal: RuntimePrincipal)
    | Committed
    | Ended

  datatype Tx = Tx(x: Context, c: Command, phase: Phase)

  /** The unchanging static configuration, and the hash behind the advisory lock. */
  datatype Env = Env(config: LegacyConfigurations, hash: string -> int)

  datatype State = State(db: RuntimeState, legacyLocks: map<int, nat>, rowLocks: map<Uuid, nat>, txs: map<nat, Tx>)

  datatype Event =
    | Begin(id: nat, x: Context, c: Command)
    | LockLegacy(id: nat)
    | LockRow(id: nat)
    | Read(id: nat)
    | Commit(id: nat)
    | Abort(id: nat)
    | AppendRow(row: InvocationRow)
    | ChangeCredentials(credentials: map<Uuid, RuntimeCredential>)

  predicate Finished(t: Tx) {
    t.phase.Committed? || t.phase.Ended?
  }

  /** A bind between its row lock and its end. */
  predicate PastRowLock(phase: Phase) {
    phase.RowLocked? || phase.Unclaimed? || phase.Inspected? || phase.Rechecked? || phase.Preflighted?
  }

  predicate HoldsLegacy(t: Tx) {
    t.c.Bind? && (t.phase.LegacyLocked? || PastRowLock(t.phase))
  }

  predicate HoldsRow(t: Tx) {
    if t.c.Bind? then PastRowLock(t.phase) else !t.c.Create? && t.phase.Writing?
  }

  predicate CanLockRow(t: Tx) {
    if t.c.Bind? then t.phase.LegacyLocked? else !t.c.Create? && t.phase.Seen?
  }

  predicate CanRead(t: Tx) {
    if t.c.Bind? then PastRowLock(t.phase) && !t.phase.Preflighted? else !t.c.Create? && t.phase.Begun?
  }

  predicate CanCommit(t: Tx) {
    match t.c
    case Create(_, _, _, _, _, _, _, _) => t.phase.Begun?
    case Bind(_, _, _) => t.phase.Preflighted?
    case Initialize(_, _, _, _) => t.phase.Writing?
    case Disable(_, _) => t.phase.Writing?
  }

  /** What a transaction that has the row lock, or finds no row to lock, does with the row. */
  function AfterLockRow(db: RuntimeState, t: Tx): Phase
    requires CanLockRow(t)
  {
    if t.c.principalId !in db.principals then Ended
    else
      var p := db.principals[t.c.principalId];
      match t.c
      case Bind(_, _, _) => if !p.Active() || p.Bound() then Ended else RowLocked(p)
      case Initialize(_, _, _, _) => if p.daily.Some? || p.allowance.Some? then Ended else Writing(t.phase.principal)
      case Disable(_, _) => Writing(t.phase.principal)
  }

  function AfterRead(env: Env, db: RuntimeState, t: Tx): Phase
    requires CanRead(t)
  {
    match t.c
    case Bind(_, legacyId, _) =>
      var p := t.phase.principal;
      if t.phase.RowLocked? then if Claimed(db, legacyId) then Ended else Unclaimed(p)
      else if t.phase.Unclaimed? then Inspected(p, FactsAbout(db.rows, legacyId, p, UtcDayWindow(t.x.now)))
      else if t.phase.Inspected? then Rechecked(p, t.phase.facts, Claimed(db, legacyId))
      else
        var usable := HasPotentiallyUsable(db, p.principalId, t.x.now);
        if PreflightFrom(env.config, p, legacyId, t.phase.facts, t.phase.claimed, usable).Safe()
           && BoundTo(p, legacyId, t.x.now).Success? then Preflighted(p)
        else Ended
    case Initialize(principalId, daily, allowance, _) =>
      if principalId !in db.principals || !db.principals[principalId].Active() || db.principals[principalId].Configured()
         || ConfiguredWith(db.principals[principalId], daily, allowance).Failure? then Ended
      else Seen(db.principals[principalId])
    case Disable(principalId, _) =>
      if principalId !in db.principals || !db.principals[principalId].Active() then Ended
      else Seen(db.principals[principalId])
  }

  /** What a commit publishes. The updates touch only their own columns of the row as it is now. */
  function Published(db: RuntimeState, t: Tx): Result<RuntimeState, RuntimeError>
    requires CanCommit(t)
  {
    match t.c
    case Create(_, _, _, _, _, _, _, _) => ExecuteCreate(db, t.x, t.c)
    case Bind(principalId, legacyId, auditId) =>
      if principalId !in db.principals then Failure(ContinuityConflict)
      else
        var before, now := t.phase.principal, db.principals[principalId];
        var bound :- BoundTo(before, legacyId, t.x.now);
        if now.legacyId.Some? || now.boundAt.Some? then Failure(ContinuityConflict)
        else
          Success(Saved(db, now.(legacyId := bound.legacyId, boundAt := bound.boundAt),
                        Record(auditId, t.x, RUNTIME_PRINCIPAL_IDENTITY_CONTINUITY_BOUND, Some(before), bound)))
    case Initialize(principalId, daily, allowance, auditId) =>
      if principalId !in db.principals then Failure(AlreadyInitialized)
      else
        var before, now := t.phase.principal, db.principals[principalId];
        var configured :- ConfiguredWith(before, daily, allowance);
        Success(Saved(db, now.(daily := configured.daily, allowance := configured.allowance),
                      Record(auditId, t.x, RUNTIME_PRINCIPAL_USAGE_LIMITS_INITIALIZED, Some(before), configured)))
    case Disable(principalId, auditId) =>
      if principalId !in db.principals then Failure(PrincipalNotFound)
      else
        var before, now := t.phase.principal, db.principals[principalId];
        var disabledAt := Some(t.x.now);
        Success(Saved(db, now.(disabledAt := disabledAt),
                      Record(auditId, t.x, RUNTIME_PRINCIPAL_DISABLED, Some(before), before.(disabledAt := disabledAt))))
  }

  /** Rows of a statically configured identity come from its configured Tenant and Agent. */
  predicate FollowsConfiguration(env: Env, row: InvocationRow) {
    row.runtimePrincipalId.Some? && row.runtimePrincipalId.value in env.config ==>
      var known := env.config[row.runtimePrincipalId.value];
      row.tenantId == known.tenantId && row.agentId == known.agentId
  }

  predicate Enabled(env: Env, s: State, e: Event) {
    match e
    case Begin(id, x, c) => id !in s.txs && x.canManage && x.config == env.config
    case AppendRow(row) => FollowsConfiguration(env, row)
    case ChangeCredentials(_) => true
    case LockLegacy(id) =>
      && id in s.txs && s.txs[id].c.Bind? && s.txs[id].phase.Begun?
      && env.hash(s.txs[id].c.legacyId) !in s.legacyLocks
    case LockRow(id) =>
      && id in s.txs && CanLockRow(s.txs[id]) && s.txs[id].c.principalId !in s.rowLocks
    case Read(id) => id in s.txs && CanRead(s.txs[id])
    case Commit(id) => id in s.txs && CanCommit(s.txs[id])
    case Abort(id) => id in s.txs && !Finished(s.txs[id])
  }

  function Without<K>(locks: map<K, nat>, id: nat): map<K, nat> {
    map k | k in locks && locks[k] != id :: locks[k]
  }

  function Move(s: State, id: nat, phase: Phase): State
    requires id in s.txs
  {
    var t := s.txs[id].(phase := phase);
    if Finished(t) then
      s.(txs := s.txs[id := t], legacyLocks := Without(s.legacyLocks, id), rowLocks := Without(s.rowLocks, id))
    else s.(txs := s.txs[id := t])
  }

  function Apply(env: Env, s: State, e: Event): State
    requires Enabled(env, s, e)
  {
    match e
    case Begin(id, x, c) => s.(txs := s.txs[id := Tx(x, c, Begun)])
    case AppendRow(row) => s.(db := s.db.(rows := s.db.rows + [row]))
    case ChangeCredentials(credentials) => s.(db := s.db.(credentials := credentials))
    case LockLegacy(id) => Move(s, id, LegacyLocked).(legacyLocks := s.legacyLocks[env.hash(s.txs[id].c.legacyId) := id])
    case LockRow(id) =>
      var phase := AfterLockRow(s.db, s.txs[id]);
      if phase.Ended? then Move(s, id, Ended)
      else Move(s, id, phase).(rowLocks := s.rowLocks[s.txs[id].c.principalId := id])
    case Read(id) => Move(s, id, AfterRead(env, s.db, s.txs[id]))
    case Commit(id) =>
      var published := Published(s.db, s.txs[id]);
      if published.Success? then Move(s.(db := published.value), id, Committed) else Move(s, id, Ended)
    case Abort(id) => Move(s, id, Ended)
  }

  // The invariant

  ghost predicate OneToOne(db: RuntimeState) {
    forall a, b :: (&& a in db.principals && b in db.principals && db.principals[a].legacyId.Some?
                    && db.principals[a].legacyId == db.principals[b].legacyId) ==> a == b
  }

  /** A bound principal has the Tenant and Agent of its legacy configuration, and of all its rows. */
  ghost predicate BindingHolds(env: Env, db: RuntimeState, p: RuntimePrincipal) {
    p.Bound() ==>
      && p.legacyId.value in env.config
      && env.config[p.legacyId.value].tenantId == p.tenantId && env.config[p.legacyId.value].agentId == p.agentId
      && Consistent(db.rows, p.legacyId.value, p.tenantId, p.agentId)
  }

  predicate IsBinding(record: AuditRecord, id: Uuid) {
    record.action == RUNTIME_PRINCIPAL_IDENTITY_CONTINUITY_BOUND && record.resource == Resource(RUNTIME_PRINCIPAL, id)
  }

  function BindingRecords(audits: seq<AuditRecord>, id: Uuid): nat {
    if audits == [] then 0
    else BindingRecords(audits[..|audits| - 1], id) + (if IsBinding(audits[|audits| - 1], id) then 1 else 0)
  }

  ghost predicate DbOk(env: Env, db: RuntimeState) {
    && OneToOne(db)
    && (forall id :: id in db.principals ==>
          db.principals[id].principalId == id && db.principals[id].Valid() && BindingHolds(env, db, db.principals[id]))
    && (forall id :: BindingRecords(db.audits, id) == if id in db.principals && db.principals[id].Bound() then 1 else 0)
  }

  predicate RowIs(db: RuntimeState, id: Uuid, p: RuntimePrincipal) {
    id in db.principals && db.principals[id] == p
  }

  /** The row is as it was locked, active and unbound. */
  predicate HoldsUnbound(db: RuntimeState, t: Tx, p: RuntimePrincipal) {
    t.c.Bind? && RowIs(db, t.c.principalId, p) && p.Active() && !p.Bound()
  }

  /** The legacy configuration is the principal's, and so are all rows of the legacy identity. */
  ghost predicate LegacyIsOurs(env: Env, db: RuntimeState, legacyId: string, p: RuntimePrincipal) {
    legacyId in env.config && env.config[legacyId].tenantId == p.tenantId && env.config[legacyId].agentId == p.agentId
  }

  /** The principal has the limits of the static configuration. */
  predicate LimitsAgree(env: Env, legacyId: string, p: RuntimePrincipal) {
    && legacyId in env.config
    && p.daily == Some(env.config[legacyId].daily) && p.allowance == Some(env.config[legacyId].allowance)
  }

  /** What a transaction that holds locks has established, and still holds. */
  ghost predicate Knows(env: Env, db: RuntimeState, t: Tx) {
    match t.phase
    case RowLocked(p) => HoldsUnbound(db, t, p)
    case Unclaimed(p) => HoldsUnbound(db, t, p) && !Claimed(db, t.c.legacyId)
    case Inspected(p, facts) =>
      && HoldsUnbound(db, t, p) && !Claimed(db, t.c.legacyId)
      && (!facts.legacyMismatch && LegacyIsOurs(env, db, t.c.legacyId, p) ==> Consistent(db.rows, t.c.legacyId, p.tenantId, p.agentId))
    case Rechecked(p, facts, _) =>
      && HoldsUnbound(db, t, p) && !Claimed(db, t.c.legacyId)
      && (!facts.legacyMismatch && LegacyIsOurs(env, db, t.c.legacyId, p) ==> Consistent(db.rows, t.c.legacyId, p.tenantId, p.agentId))
    case Preflighted(p) =>
      && HoldsUnbound(db, t, p) && !Claimed(db, t.c.legacyId) && BoundTo(p, t.c.legacyId, t.x.now).Success?
      && LegacyIsOurs(env, db, t.c.legacyId, p) && Consistent(db.rows, t.c.legacyId, p.tenantId, p.agentId)
      && LimitsAgree(env, t.c.legacyId, p)
    case LegacyLocked => t.c.Bind?
    case Seen(p) => (t.c.Initialize? || t.c.Disable?) && p.principalId == t.c.principalId && p.Active()
    case Writing(p) =>
      && (t.c.Initialize? || t.c.Disable?) && t.c.principalId in db.principals && p.principalId == t.c.principalId
      && (t.c.Initialize? ==> db.principals[t.c.principalId].daily.None? && db.principals[t.c.principalId].allowance.None?)
    case _ => true
  }

  ghost predicate LegacyLocksOk(env: Env, s: State) {
    && (forall id :: id in s.txs && HoldsLegacy(s.txs[id]) ==>
          env.hash(s.txs[id].c.legacyId) in s.legacyLocks && s.legacyLocks[env.hash(s.txs[id].c.legacyId)] == id)
    && (forall h :: h in s.legacyLocks ==> s.legacyLocks[h] in s.txs && HoldsLegacy(s.txs[s.legacyLocks[h]]))
  }

  ghost predicate RowLocksOk(s: State) {
    && (forall id :: id in s.txs && HoldsRow(s.txs[id]) ==>
          s.txs[id].c.principalId in s.rowLocks && s.rowLocks[s.txs[id].c.principalId] == id)
    && (forall p :: p in s.rowLocks ==> s.rowLocks[p] in s.txs && HoldsRow(s.txs[s.rowLocks[p]]))
  }

  ghost predicate KnowledgeOk(env: Env, s: State) {
    forall id :: id in s.txs ==> Knows(env, s.db, s.txs[id])
  }

  ghost predicate Inv(env: Env, s: State) {
    LegacyLocksOk(env, s) && RowLocksOk(s) && KnowledgeOk(env, s) && DbOk(env, s.db)
  }

  ghost predicate Initial(env: Env, s: State) {
    s.txs == map[] && s.legacyLocks == map[] && s.rowLocks == map[] && DbOk(env, s.db) && ValidConfigurations(env.config)
  }

  lemma InitialInv(env: Env, s: State)
    requires Initial(env, s)
    ensures Inv(env, s)
  {
  }

  // Locks

  lemma MoveKeepsLocks(env: Env, s: State, id: nat, phase: Phase)
    requires LegacyLocksOk(env, s) && RowLocksOk(s) && id in s.txs
    requires var t := s.txs[id].(phase := phase);
             || Finished(t)
             || (HoldsLegacy(t) == HoldsLegacy(s.txs[id]) && HoldsRow(t) == HoldsRow(s.txs[id]))
    ensures LegacyLocksOk(env, Move(s, id, phase)) && RowLocksOk(Move(s, id, phase))
  {
  }

  lemma LockLegacyKeepsLocks(env: Env, s: State, id: nat)
    requires LegacyLocksOk(env, s) && RowLocksOk(s) && Enabled(env, s, LockLegacy(id))
    ensures var t := Apply(env, s, LockLegacy(id));
            LegacyLocksOk(env, t) && RowLocksOk(t)
  {
  }

  lemma LockRowKeepsLocks(env: Env, s: State, id: nat)
    requires LegacyLocksOk(env, s) && RowLocksOk(s) && Enabled(env, s, LockRow(id))
    ensures var t := Apply(env, s, LockRow(id));
            LegacyLocksOk(env, t) && RowLocksOk(t)
  {
    var tx, phase := s.txs[id], AfterLockRow(s.db, s.txs[id]);
    if phase.Ended? {
      MoveKeepsLocks(env, s, id, Ended);
    } else {
      assert HoldsRow(tx.(phase := phase)) && HoldsLegacy(tx.(phase := phase)) == HoldsLegacy(tx);
      hide AfterLockRow, Knows;
    }
  }

  // Knowledge

  lemma LockRowIsKnown(env: Env, db: RuntimeState, t: Tx)
    requires CanLockRow(t) && DbOk(env, db) && Knows(env, db, t)
    ensures Knows(env, db, t.(phase := AfterLockRow(db, t)))
  {
    hide OneToOne, BindingHolds, BindingRecords;
  }

  lemma ReadIsKnown(env: Env, db: RuntimeState, t: Tx)
    requires CanRead(t) && DbOk(env, db) && Knows(env, db, t)
    ensures Knows(env, db, t.(phase := AfterRead(env, db, t)))
  {
    hide OneToOne, BindingHolds, BindingRecords, Consistent, HasPotentiallyUsable, ConfiguredWith, BoundTo, CountRows,
      ConsumedTotal, UtcDayWindow, UuidText, PreflightFrom;
    if t.c.Bind? && t.phase.Rechecked? {
      SafePreflightIsKnown(env, db, t);
    }
  }

  /** A preflight that passes leaves a bind with nothing more to establish. */
  lemma SafePreflightIsKnown(env: Env, db: RuntimeState, t: Tx)
    requires t.c.Bind? && t.phase.Rechecked? && Knows(env, db, t)
    ensures Knows(env, db, t.(phase := AfterRead(env, db, t)))
  {
    hide Consistent, HasPotentiallyUsable, BoundTo, FactsAbout, Claimed, RowIs;
  }

  lemma ReadKeepsLocksHeld(env: Env, db: RuntimeState, t: Tx)
    requires CanRead(t)
    ensures var u := t.(phase := AfterRead(env, db, t));
            Finished(u) || (HoldsLegacy(u) == HoldsLegacy(t) && HoldsRow(u) == HoldsRow(t))
  {
    hide PreflightFrom, FactsAbout, Claimed, BoundTo, ConfiguredWith;
  }

  /** Rows of invocations and credentials may change under everyone. */
  lemma EnvironmentKeepsKnowledge(env: Env, db: RuntimeState, row: InvocationRow, t: Tx)
    requires Knows(env, db, t) && FollowsConfiguration(env, row)
    ensures Knows(env, db.(rows := db.rows + [row]), t)
  {
    if t.phase.Inspected? || t.phase.Rechecked? || t.phase.Preflighted? {
      ConsistentAppend(db.rows, row, t.c.legacyId, t.phase.principal.tenantId, t.phase.principal.agentId);
    }
    hide Consistent;
  }

  lemma AppendKeepsDbOk(env: Env, db: RuntimeState, row: InvocationRow)
    requires DbOk(env, db) && FollowsConfiguration(env, row)
    ensures DbOk(env, db.(rows := db.rows + [row]))
  {
    hide BindingRecords, Consistent;
    var after := db.(rows := db.rows + [row]);
    forall id | id in db.principals
      ensures BindingHolds(env, after, db.principals[id])
    {
      var p := db.principals[id];
      assert BindingHolds(env, db, p);
      if p.Bound() {
        ConsistentAppend(db.rows, row, p.legacyId.value, p.tenantId, p.agentId);
      }
    }
  }

  lemma MoveKeepsKnowledge(env: Env, s: State, id: nat, phase: Phase)
    requires KnowledgeOk(env, s) && id in s.txs && Knows(env, s.db, s.txs[id].(phase := phase))
    ensures KnowledgeOk(env, Move(s, id, phase)) && Move(s, id, phase).db == s.db
  {
    hide Knows;
  }

  /** The steps that publish nothing. */
  lemma QuietStepKeepsInv(env: Env, s: State, e: Event)
    requires Inv(env, s) && Enabled(env, s, e) && !e.Commit? && !e.AppendRow? && !e.ChangeCredentials?
    ensures Inv(env, Apply(env, s, e))
  {
    hide DbOk, Move, AfterRead, AfterLockRow, LegacyLocksOk, RowLocksOk, KnowledgeOk;
    match e
    case Begin(id, x, c) => BeginKeepsInv(env, s, id, x, c);
    case LockLegacy(id) =>
      LockLegacyKeepsLocks(env, s, id);
      MoveKeepsKnowledge(env, s, id, LegacyLocked);
      KnowledgeIgnoresLocks(env, Move(s, id, LegacyLocked), Apply(env, s, e));
    case LockRow(id) =>
      LockRowKeepsLocks(env, s, id);
      assert Knows(env, s.db, s.txs[id]) by { KnowsAt(env, s, id); }
      LockRowIsKnown(env, s.db, s.txs[id]);
      hide Knows;
      MoveKeepsKnowledge(env, s, id, AfterLockRow(s.db, s.txs[id]));
      KnowledgeIgnoresLocks(env, Move(s, id, AfterLockRow(s.db, s.txs[id])), Apply(env, s, e));
    case Read(id) =>
      assert Knows(env, s.db, s.txs[id]) by { KnowsAt(env, s, id); }
      ReadIsKnown(env, s.db, s.txs[id]);
      ReadKeepsLocksHeld(env, s.db, s.txs[id]);
      hide Knows;
      MoveKeepsLocks(env, s, id, AfterRead(env, s.db, s.txs[id]));
      MoveKeepsKnowledge(env, s, id, AfterRead(env, s.db, s.txs[id]));
    case Abort(id) =>
      MoveKeepsLocks(env, s, id, Ended);
      MoveKeepsKnowledge(env, s, id, Ended);
  }

  lemma BeginKeepsInv(env: Env, s: State, id: nat, x: Context, c: Command)
    requires Inv(env, s) && id !in s.txs
    ensures Inv(env, s.(txs := s.txs[id := Tx(x, c, Begun)]))
  {
    hide DbOk;
    assert Knows(env, s.db, Tx(x, c, Begun));
    hide Knows;
  }

  lemma KnowsAt(env: Env, s: State, id: nat)
    requires KnowledgeOk(env, s) && id in s.txs
    ensures Knows(env, s.db, s.txs[id])
  {
  }

  lemma KnowledgeIgnoresLocks(env: Env, s: State, t: State)
    requires KnowledgeOk(env, s) && t.db == s.db && t.txs == s.txs
    ensures KnowledgeOk(env, t)
  {
    hide Knows;
  }

  lemma AppendKeepsInv(env: Env, s: State, row: InvocationRow)
    requires Inv(env, s) && FollowsConfiguration(env, row)
    ensures Inv(env, s.(db := s.db.(rows := s.db.rows + [row])))
  {
    hide LegacyLocksOk, RowLocksOk, DbOk, Knows, FollowsConfiguration;
    AppendKeepsDbOk(env, s.db, row);
    LocksIgnoreDb(env, s, s.(db := s.db.(rows := s.db.rows + [row])));
    forall id | id in s.txs
      ensures Knows(env, s.db.(rows := s.db.rows + [row]), s.txs[id])
    {
      EnvironmentKeepsKnowledge(env, s.db, row, s.txs[id]);
    }
  }

  lemma CredentialsKeepKnowledge(env: Env, db: RuntimeState, credentials: map<Uuid, RuntimeCredential>, t: Tx)
    requires Knows(env, db, t)
    ensures Knows(env, db.(credentials := credentials), t)
  {
    hide Consistent, BoundTo;
  }

  lemma CredentialsKeepDbOk(env: Env, db: RuntimeState, credentials: map<Uuid, RuntimeCredential>)
    requires DbOk(env, db)
    ensures DbOk(env, db.(credentials := credentials))
  {
    hide BindingRecords, Consistent;
    forall id | id in db.principals
      ensures BindingHolds(env, db.(credentials := credentials), db.principals[id])
    {
      assert BindingHolds(env, db, db.principals[id]);
    }
  }

  lemma CredentialsKeepInv(env: Env, s: State, credentials: map<Uuid, RuntimeCredential>)
    requires Inv(env, s)
    ensures Inv(env, s.(db := s.db.(credentials := credentials)))
  {
    hide LegacyLocksOk, RowLocksOk, DbOk, Knows;
    CredentialsKeepDbOk(env, s.db, credentials);
    LocksIgnoreDb(env, s, s.(db := s.db.(credentials := credentials)));
    forall id | id in s.txs
      ensures Knows(env, s.db.(credentials := credentials), s.txs[id])
    {
      CredentialsKeepKnowledge(env, s.db, credentials, s.txs[id]);
    }
  }

  // Commits

  /** The legacy identity of the row before it is written, if there is such a row. */
  function LegacyIdOf(db: RuntimeState, id: Uuid): Option<string> {
    if id in db.principals then db.principals[id].legacyId else None
  }

  /** The writer holds the row's lock, or creates the row; a new legacy identity is under its lock. */
  ghost predicate MayWrite(s: State, id: nat, p: RuntimePrincipal) {
    && id in s.txs
    && (p.principalId in s.db.principals ==> HoldsRow(s.txs[id]) && s.txs[id].c.principalId == p.principalId)
    && (p.legacyId != LegacyIdOf(s.db, p.principalId) ==>
          HoldsLegacy(s.txs[id]) && p.legacyId == Some(s.txs[id].c.legacyId))
  }

  predicate Writes(a: RuntimeState, b: RuntimeState, p: RuntimePrincipal) {
    b.principals == a.principals[p.principalId := p] && b.rows == a.rows
  }

  lemma ClaimsAfterWrite(a: RuntimeState, b: RuntimeState, p: RuntimePrincipal, legacyId: string)
    requires Writes(a, b, p) && !Claimed(a, legacyId) && p.legacyId != Some(legacyId)
    ensures !Claimed(b, legacyId)
  {
    forall id | id in b.principals
      ensures b.principals[id].legacyId != Some(legacyId)
    {
      if id != p.principalId {
        assert id in a.principals;
      }
    }
  }

  /** Locks keep a commit from invalidating what another transaction established. */
  lemma WriteKeepsKnowledge(env: Env, s: State, id: nat, p: RuntimePrincipal, after: RuntimeState, other: nat)
    requires LegacyLocksOk(env, s) && RowLocksOk(s) && MayWrite(s, id, p) && Writes(s.db, after, p)
    requires other in s.txs && other != id && Knows(env, s.db, s.txs[other])
    ensures Knows(env, after, s.txs[other])
  {
    hide Consistent, Claimed, BoundTo;
    var t := s.txs[other];
    if HoldsRow(t) {
      assert t.c.principalId in s.db.principals;
      assert p.principalId != t.c.principalId;
      if t.c.Bind? && !t.phase.RowLocked? {
        assert HoldsLegacy(t);
        NoClaimBehindTheLock(env, s, id, p, other);
        ClaimsAfterWrite(s.db, after, p, t.c.legacyId);
      }
    }
  }

  /** Two holders of the lock on one legacy identity are the same transaction. */
  lemma NoClaimBehindTheLock(env: Env, s: State, id: nat, p: RuntimePrincipal, other: nat)
    requires LegacyLocksOk(env, s) && MayWrite(s, id, p) && other in s.txs && other != id && HoldsLegacy(s.txs[other])
    requires !Claimed(s.db, s.txs[other].c.legacyId)
    ensures p.legacyId != Some(s.txs[other].c.legacyId)
  {
  }

  lemma OneToOneAfterWrite(a: RuntimeState, b: RuntimeState, p: RuntimePrincipal)
    requires OneToOne(a) && Writes(a, b, p)
    requires p.legacyId == LegacyIdOf(a, p.principalId) || (p.legacyId.Some? && !Claimed(a, p.legacyId.value))
    ensures OneToOne(b)
  {
  }

  lemma RecordsAppend(audits: seq<AuditRecord>, record: AuditRecord, id: Uuid)
    ensures BindingRecords(audits + [record], id) == BindingRecords(audits, id) + (if IsBinding(record, id) then 1 else 0)
  {
    assert (audits + [record])[..|audits|] == audits;
  }

  lemma WriteKeepsDbOk(env: Env, a: RuntimeState, b: RuntimeState, p: RuntimePrincipal, record: AuditRecord)
    requires DbOk(env, a) && Writes(a, b, p) && b.audits == a.audits + [record]
    requires p.Valid() && BindingHolds(env, a, p)
    requires p.legacyId == LegacyIdOf(a, p.principalId)
             || (p.legacyId.Some? && !Claimed(a, p.legacyId.value) && LegacyIdOf(a, p.principalId).None?)
    requires record.resource == Resource(RUNTIME_PRINCIPAL, p.principalId)
    requires IsBinding(record, p.principalId) <==> p.legacyId != LegacyIdOf(a, p.principalId)
    ensures DbOk(env, b)
  {
    OneToOneAfterWrite(a, b, p);
    hide OneToOne, Consistent, BindingRecords, Claimed;
    forall id: Uuid
      ensures BindingRecords(b.audits, id) == BindingRecords(a.audits, id) + (if IsBinding(record, id) then 1 else 0)
    {
      RecordsAppend(a.audits, record, id);
    }
    forall id | id in b.principals
      ensures BindingHolds(env, b, b.principals[id])
    {
      assert BindingHolds(env, a, b.principals[id]);
    }
  }

  /** What a commit writes and records, as far as the invariant needs to know. */
  ghost predicate WritesAndRecords(env: Env, s: State, id: nat, after: RuntimeState, p: RuntimePrincipal, record: AuditRecord) {
    && Writes(s.db, after, p) && after.audits == s.db.audits + [record]
    && MayWrite(s, id, p) && p.Valid() && BindingHolds(env, s.db, p)
    && (p.legacyId == LegacyIdOf(s.db, p.principalId)
        || (p.legacyId.Some? && !Claimed(s.db, p.legacyId.value) && LegacyIdOf(s.db, p.principalId).None?))
    && record.resource == Resource(RUNTIME_PRINCIPAL, p.principalId)
    && (IsBinding(record, p.principalId) <==> p.legacyId != LegacyIdOf(s.db, p.principalId))
  }

  lemma BindWrites(env: Env, s: State, id: nat) returns (p: RuntimePrincipal, record: AuditRecord)
    requires Inv(env, s) && ValidConfigurations(env.config)
    requires Enabled(env, s, Commit(id)) && s.txs[id].c.Bind? && Published(s.db, s.txs[id]).Success?
    ensures WritesAndRecords(env, s, id, Published(s.db, s.txs[id]).value, p, record)
  {
    hide OneToOne, Consistent, BindingRecords, Claimed, LegacyLocksOk, RowLocksOk, PrincipalText, Strip, Trimmed, BoundTo;
    var t := s.txs[id];
    assert Knows(env, s.db, t);
    var now := s.db.principals[t.c.principalId];
    assert now.Valid() && now.principalId == t.c.principalId;
    p := BoundTo(now, t.c.legacyId, t.x.now).value;
    record := Record(t.c.auditId, t.x, RUNTIME_PRINCIPAL_IDENTITY_CONTINUITY_BOUND, Some(now), p);
    assert Published(s.db, t).value == Saved(s.db, p, record);
    hide DbOk, KnowledgeOk, Published, ValidConfigurations;
    assert Trimmed(t.c.legacyId);
    StripKeepsTrimmed(t.c.legacyId);
  }

  lemma UnboundWrites(env: Env, s: State, id: nat) returns (p: RuntimePrincipal, record: AuditRecord)
    requires Inv(env, s) && Enabled(env, s, Commit(id)) && !s.txs[id].c.Bind? && Published(s.db, s.txs[id]).Success?
    ensures WritesAndRecords(env, s, id, Published(s.db, s.txs[id]).value, p, record)
  {
    hide OneToOne, Consistent, BindingRecords, Claimed, LegacyLocksOk, RowLocksOk, PrincipalText, Strip, Trimmed, BoundTo,
      LegacyIsOurs;
    var t := s.txs[id];
    assert Knows(env, s.db, t);
    var after := Published(s.db, t).value;
    record := after.audits[|s.db.audits|];
    if t.c.Create? {
      hide ConfiguredWith;
      p := after.principals[t.c.newPrincipal];
    } else {
      hide WithLimits;
      p := after.principals[t.c.principalId];
      assert BindingHolds(env, s.db, s.db.principals[t.c.principalId]);
    }
  }

  lemma CommitKeepsKnowledge(env: Env, s: State, id: nat, p: RuntimePrincipal, after: RuntimeState)
    requires LegacyLocksOk(env, s) && RowLocksOk(s) && KnowledgeOk(env, s) && MayWrite(s, id, p) && Writes(s.db, after, p)
    ensures KnowledgeOk(env, Move(s.(db := after), id, Committed))
  {
    var t := Move(s.(db := after), id, Committed);
    assert t.db == after && t.txs == s.txs[id := s.txs[id].(phase := Committed)];
    assert Knows(env, after, t.txs[id]);
    hide Move, Knows, MayWrite, Writes, LegacyLocksOk, RowLocksOk;
    forall other | other in t.txs
      ensures Knows(env, after, t.txs[other])
    {
      if other != id {
        assert Knows(env, s.db, s.txs[other]);
        WriteKeepsKnowledge(env, s, id, p, after, other);
      }
    }
  }

  /** A commit that fails an integrity check publishes nothing and ends its transaction. */
  lemma RefusedCommitKeepsInv(env: Env, s: State, id: nat)
    requires Inv(env, s) && id in s.txs
    ensures Inv(env, Move(s, id, Ended))
  {
    MoveKeepsLocks(env, s, id, Ended);
    assert Knows(env, s.db, s.txs[id].(phase := Ended));
    hide LegacyLocksOk, RowLocksOk, DbOk, Knows;
  }

  lemma CommitKeepsInv(env: Env, s: State, e: Event)
    requires Inv(env, s) && ValidConfigurations(env.config) && Enabled(env, s, e) && e.Commit?
    ensures Inv(env, Apply(env, s, e))
  {
    if Published(s.db, s.txs[e.id]).Failure? {
      RefusedCommitKeepsInv(env, s, e.id);
      hide Inv, Published, Move;
    } else {
      var after := Published(s.db, s.txs[e.id]).value;
      assert Apply(env, s, e) == Move(s.(db := after), e.id, Committed);
      hide Apply, Enabled, Published;
      var p, record;
      if s.txs[e.id].c.Bind? {
        p, record := BindWrites(env, s, e.id);
      } else {
        p, record := UnboundWrites(env, s, e.id);
      }
      WriteKeepsDbOk(env, s.db, after, p, record);
      CommitKeepsKnowledge(env, s, e.id, p, after);
      MoveKeepsLocks(env, s, e.id, Committed);
      LocksIgnoreDb(env, Move(s, e.id, Committed), Move(s.(db := after), e.id, Committed));
      hide LegacyLocksOk, RowLocksOk, KnowledgeOk, DbOk;
    }
  }

  lemma LocksIgnoreDb(env: Env, s: State, t: State)
    requires LegacyLocksOk(env, s) && RowLocksOk(s) && t == s.(db := t.db)
    ensures LegacyLocksOk(env, t) && RowLocksOk(t)
  {
  }

  lemma EnvironmentApplies(env: Env, s: State, e: Event)
    requires Enabled(env, s, e) && (e.AppendRow? || e.ChangeCredentials?)
    ensures e.AppendRow? ==> Apply(env, s, e) == s.(db := s.db.(rows := s.db.rows + [e.row])) && FollowsConfiguration(env, e.row)
    ensures e.ChangeCredentials? ==> Apply(env, s, e) == s.(db := s.db.(credentials := e.credentials))
  {
  }

  lemma StepKeepsInv(env: Env, s: State, e: Event)
    requires Inv(env, s) && ValidConfigurations(env.config) && Enabled(env, s, e)
    ensures Inv(env, Apply(env, s, e))
  {
    hide Inv, Apply, Enabled, ValidConfigurations;
    if e.Commit? {
      CommitKeepsInv(env, s, e);
    } else if e.AppendRow? {
      EnvironmentApplies(env, s, e);
      AppendKeepsInv(env, s, e.row);
    } else if e.ChangeCredentials? {
      EnvironmentApplies(env, s, e);
      CredentialsKeepInv(env, s, e.credentials);
    } else {
      QuietStepKeepsInv(env, s, e);
    }
  }

  // Runs

  ghost predicate IsRun(env: Env, run: seq<State>, events: seq<Event>) {
    && |run| == |events| + 1
    && Initial(env, run[0])
    && forall i :: 0 <= i < |events| ==> Enabled(env, run[i], events[i]) && run[i + 1] == Apply(env, run[i], events[i])
  }

  lemma {:induction false} RunKeepsInv(env: Env, run: seq<State>, events: seq<Event>, i: nat)
    requires IsRun(env, run, events) && i < |run|
    ensures Inv(env, run[i])
  {
    hide Apply, Enabled, Inv, ValidConfigurations;
    if i == 0 {
      InitialInv(env, run[0]);
    } else {
      RunKeepsInv(env, run, events, i - 1);
      StepKeepsInv(env, run[i - 1], events[i - 1]);
    }
  }

  /** In every interleaving: no legacy identity has two principals, each bound principal has exactly
      one record of its binding and each unbound principal none, and every row that ever carried a
      bound legacy identity belongs to its principal's Tenant and Agent. */
  lemma BindingsAreOneToOne(env: Env, run: seq<State>, events: seq<Event>, i: nat, a: Uuid, b: Uuid)
    requires IsRun(env, run, events) && i < |run|
    requires a in run[i].db.principals && b in run[i].db.principals
    ensures var db := run[i].db;
            var p := db.principals[a];
            && (p.Bound() && p.legacyId == db.principals[b].legacyId ==> a == b)
            && BindingRecords(db.audits, a) == (if p.Bound() then 1 else 0)
            && (p.Bound() ==>
                  forall row :: row in db.rows && Carries(row, p.legacyId.value) ==>
                    row.tenantId == p.tenantId && row.agentId == p.agentId)
  {
    RunKeepsInv(env, run, events, i);
    assert BindingHolds(env, run[i].db, run[i].db.principals[a]);
    hide LegacyLocksOk, RowLocksOk, KnowledgeOk, BindingRecords;
  }

  /** What has been set stays: the binding and the limits as they are, the disabling as a fact. */
  ghost predicate KeepsWhatIsSet(a: RuntimeState, b: RuntimeState, id: Uuid) {
    id in a.principals ==>
      && id in b.principals
      && var p, q := a.principals[id], b.principals[id];
         && (p.Bound() ==> q.legacyId == p.legacyId && q.boundAt == p.boundAt)
         && (p.Configured() ==> q.daily == p.daily && q.allowance == p.allowance)
         && (p.disabledAt.Some? ==> q.disabledAt.Some?)
         && q.tenantId == p.tenantId && q.agentId == p.agentId && q.principalId == p.principalId
  }

  lemma CommitKeepsWhatIsSet(env: Env, s: State, id: nat, principalId: Uuid)
    requires Inv(env, s) && Enabled(env, s, Commit(id)) && Published(s.db, s.txs[id]).Success?
    ensures KeepsWhatIsSet(s.db, Published(s.db, s.txs[id]).value, principalId)
  {
    hide OneToOne, BindingHolds, BindingRecords, Claimed, Consistent, Record, LegacyLocksOk, RowLocksOk, Strip, BoundTo,
      ConfiguredWith, PrincipalText;
    assert Knows(env, s.db, s.txs[id]);
    hide Knows, KnowledgeOk, LegacyIsOurs;
    match s.txs[id].c
    case Create(_, _, _, _, _, _, _, _) =>
    case Bind(_, _, _) => assert !s.db.principals[s.txs[id].c.principalId].Bound();
    case Initialize(_, _, _, _) => assert !s.db.principals[s.txs[id].c.principalId].Configured();
    case Disable(_, _) =>
  }

  lemma OtherStepsKeepPrincipals(env: Env, s: State, e: Event)
    requires Enabled(env, s, e)
    requires e.Commit? ==> Published(s.db, s.txs[e.id]).Failure?
    ensures Apply(env, s, e).db.principals == s.db.principals
  {
    hide Published, AfterRead, AfterLockRow, Finished, Without, HoldsRow, HoldsLegacy, CanRead, CanLockRow, CanCommit;
  }

  lemma StepKeepsWhatIsSet(env: Env, s: State, e: Event, principalId: Uuid)
    requires Inv(env, s) && Enabled(env, s, e)
    ensures KeepsWhatIsSet(s.db, Apply(env, s, e).db, principalId)
  {
    hide Inv, Published, CanCommit;
    if e.Commit? && Published(s.db, s.txs[e.id]).Success? {
      assert Apply(env, s, e).db == Published(s.db, s.txs[e.id]).value;
      hide Apply, Enabled;
      CommitKeepsWhatIsSet(env, s, e.id, principalId);
    } else {
      hide Apply, Enabled;
      OtherStepsKeepPrincipals(env, s, e);
    }
  }

  /** In every interleaving a principal that is bound is never rebound, limits that are configured
      never change, and a principal that is disabled stays disabled. */
  lemma {:induction false} BindingsAreWrittenOnce(env: Env, run: seq<State>, events: seq<Event>, i: nat, j: nat, principalId: Uuid)
    requires IsRun(env, run, events) && i <= j < |run|
    ensures KeepsWhatIsSet(run[i].db, run[j].db, principalId)
    decreases j
  {
    if i == j {
      hide Apply, Enabled, Inv;
    } else {
      hide Apply, Enabled, Inv, Initial;
      BindingsAreWrittenOnce(env, run, events, i, j - 1, principalId);
      RunKeepsInv(env, run, events, j - 1);
      StepKeepsWhatIsSet(env, run[j - 1], events[j - 1], principalId);
    }
  }

  /** A bind that reaches its update always succeeds, and its record starts from the actual row. */
  lemma PreparedBindsSucceed(env: Env, s: State, id: nat)
    requires Inv(env, s) && Enabled(env, s, Commit(id)) && s.txs[id].c.Bind?
    ensures var c, r := s.txs[id].c, Published(s.db, s.txs[id]);
            && r.Success?
            && r.value.principals[c.principalId].Bound()
            && c.principalId in s.db.principals
            && |r.value.audits| == |s.db.audits| + 1
            && r.value.audits[|s.db.audits|].before == Some(PrincipalText(s.db.principals[c.principalId]))
            && r.value.audits[|s.db.audits|].after == PrincipalText(r.value.principals[c.principalId])
  {
    hide OneToOne, BindingHolds, BindingRecords, Claimed, Consistent, PrincipalText, LegacyLocksOk, RowLocksOk, Strip,
      BoundTo, LegacyIsOurs;
    assert Knows(env, s.db, s.txs[id]);
    assert s.db.principals[s.txs[id].c.principalId].Valid();
    hide Knows, DbOk, KnowledgeOk;
  }

  /** Whatever ran in between, a bind that commits found an active, unbound principal with the Tenant,
      the Agent and the limits of the static identity, an unclaimed identity, and rows that all come
      from there; and it writes the binding and nothing else of the row. */
  lemma CommittedBindsMatched(env: Env, run: seq<State>, events: seq<Event>, i: nat)
    requires IsRun(env, run, events) && i < |events| && events[i].Commit?
    requires events[i].id in run[i].txs && run[i].txs[events[i].id].c.Bind?
    ensures var t, db := run[i].txs[events[i].id], run[i].db;
            && t.c.principalId in db.principals && t.c.legacyId in env.config
            && var p, known := db.principals[t.c.principalId], env.config[t.c.legacyId];
               && p.disabledAt.None? && p.legacyId.None?
               && known.tenantId == p.tenantId && known.agentId == p.agentId
               && p.daily == Some(known.daily) && p.allowance == Some(known.allowance)
               && (forall id :: id in db.principals ==> db.principals[id].legacyId != Some(t.c.legacyId))
               && AllRowsFrom(db.rows, t.c.legacyId, p.tenantId, p.agentId)
               && t.c.principalId in run[i + 1].db.principals
               && run[i + 1].db.principals[t.c.principalId] ==
                  p.(legacyId := Some(Strip(t.c.legacyId)), boundAt := Some(t.x.now))
  {
    hide LegacyLocksOk, RowLocksOk, Initial, Strip, Consistent, AllRowsFrom, BoundTo, Apply;
    RunKeepsInv(env, run, events, i);
    var s, id := run[i], events[i].id;
    assert Enabled(env, s, Commit(id)) && run[i + 1] == Apply(env, s, Commit(id));
    hide IsRun;
    KnowsAt(env, s, id);
    var p := s.db.principals[s.txs[id].c.principalId];
    ConsistentMeans(s.db.rows, s.txs[id].c.legacyId, p.tenantId, p.agentId);
    BindCommits(env, s, id);
  }

  lemma BindCommits(env: Env, s: State, id: nat)
    requires Inv(env, s) && Enabled(env, s, Commit(id)) && s.txs[id].c.Bind?
    ensures var c, t := s.txs[id].c, Apply(env, s, Commit(id)).db;
            && c.principalId in s.db.principals && c.principalId in t.principals
            && t.principals[c.principalId] ==
               s.db.principals[c.principalId].(legacyId := Some(Strip(c.legacyId)), boundAt := Some(s.txs[id].x.now))
  {
    hide OneToOne, BindingHolds, BindingRecords, Claimed, Consistent, PrincipalText, LegacyLocksOk, RowLocksOk, Strip,
      BoundTo, LegacyIsOurs;
    KnowsAt(env, s, id);
    assert s.db.principals[s.txs[id].c.principalId].Valid();
  }

  // Progress

  /** Some transaction can take its next step; giving up does not count. */
  ghost predicate CanStep(env: Env, s: State) {
    exists id :: id in s.txs && (|| Enabled(env, s, LockLegacy(id)) || Enabled(env, s, LockRow(id))
                                 || Enabled(env, s, Read(id)) || Enabled(env, s, Commit(id)))
  }

  lemma RowHolderCanStep(env: Env, s: State, id: nat)
    requires id in s.txs && HoldsRow(s.txs[id])
    ensures CanStep(env, s)
  {
    assert Enabled(env, s, Read(id)) || Enabled(env, s, Commit(id));
  }

  lemma RowSeekerCanStep(env: Env, s: State, id: nat)
    requires RowLocksOk(s) && id in s.txs && CanLockRow(s.txs[id])
    ensures CanStep(env, s)
  {
    var row := s.txs[id].c.principalId;
    if row in s.rowLocks {
      RowHolderCanStep(env, s, s.rowLocks[row]);
    } else {
      assert Enabled(env, s, LockRow(id));
    }
  }

  /** The lock order excludes deadlock: while any transaction is pending, some transaction can step. */
  lemma Progress(env: Env, s: State, id: nat)
    requires Inv(env, s) && id in s.txs && !Finished(s.txs[id])
    ensures CanStep(env, s)
  {
    hide DbOk;
    var t := s.txs[id];
    assert Knows(env, s.db, t);
    hide CanStep, KnowledgeOk;
    if HoldsRow(t) {
      RowHolderCanStep(env, s, id);
    } else if CanLockRow(t) {
      RowSeekerCanStep(env, s, id);
    } else if t.c.Bind? && env.hash(t.c.legacyId) in s.legacyLocks {
      LegacyHolderCanStep(env, s, env.hash(t.c.legacyId));
    } else {
      BeginnerCanStep(env, s, id);
    }
  }

  lemma LegacyHolderCanStep(env: Env, s: State, h: int)
    requires LegacyLocksOk(env, s) && RowLocksOk(s) && h in s.legacyLocks
    ensures CanStep(env, s)
  {
    var holder := s.legacyLocks[h];
    assert holder in s.txs && HoldsLegacy(s.txs[holder]);
    if HoldsRow(s.txs[holder]) {
      RowHolderCanStep(env, s, holder);
    } else {
      RowSeekerCanStep(env, s, holder);
    }
  }

  lemma BeginnerCanStep(env: Env, s: State, id: nat)
    requires id in s.txs && s.txs[id].phase.Begun?
    requires s.txs[id].c.Bind? ==> env.hash(s.txs[id].c.legacyId) !in s.legacyLocks
    ensures CanStep(env, s)
  {
    var t := s.txs[id];
    assert t.c.Bind? ==> Enabled(env, s, LockLegacy(id));
    assert t.c.Create? ==> Enabled(env, s, Commit(id));
    assert t.c.Initialize? || t.c.Disable? ==> Enabled(env, s, Read(id));
  }

  /** How many steps a transaction can still take. */
  function Remaining(t: Tx): nat {
    match t.phase
    case Begun => 7
    case LegacyLocked => 6
    case RowLocked(_) => 5
    case Unclaimed(_) => 4
    case Inspected(_, _) => 3
    case Rechecked(_, _, _) => 2
    case Preflighted(_) => 1
    case Seen(_) => 2
    case Writing(_) => 1
    case Committed => 0
    case Ended => 0
  }

  /** The steps left to the transactions numbered below n. */
  function Work(s: State, n: nat): nat {
    if n == 0 then 0 else Work(s, n - 1) + if n - 1 in s.txs then Remaining(s.txs[n - 1]) else 0
  }

  lemma {:induction false} WorkDecreases(s: State, t: State, id: nat, n: nat)
    requires id in s.txs && id in t.txs && Remaining(t.txs[id]) < Remaining(s.txs[id])
    requires forall other :: other != id ==> (other in s.txs <==> other in t.txs)
    requires forall other :: other != id && other in s.txs ==> t.txs[other] == s.txs[other]
    ensures if id < n then Work(t, n) < Work(s, n) else Work(t, n) == Work(s, n)
  {
    hide Remaining;
    if n > 0 {
      WorkDecreases(s, t, id, n - 1);
    }
  }

  /** Every step of a transaction uses up one of its remaining steps and costs no other transaction
      any, so without new transactions all of them finish. */
  lemma StepsRunOut(env: Env, s: State, e: Event, n: nat)
    requires Enabled(env, s, e) && (e.LockLegacy? || e.LockRow? || e.Read? || e.Commit? || e.Abort?)
    requires e.id < n
    ensures Work(Apply(env, s, e), n) < Work(s, n)
  {
    OneStepLess(env, s, e);
    hide Apply, Enabled;
    WorkDecreases(s, Apply(env, s, e), e.id, n);
  }

  lemma LockRowUsesAStep(db: RuntimeState, t: Tx)
    requires CanLockRow(t)
    ensures Remaining(t.(phase := AfterLockRow(db, t))) < Remaining(t)
  {
  }

  lemma ReadUsesAStep(env: Env, db: RuntimeState, t: Tx)
    requires CanRead(t)
    ensures Remaining(t.(phase := AfterRead(env, db, t))) < Remaining(t)
  {
    hide PreflightFrom, FactsAbout, Claimed, BoundTo, ConfiguredWith, HasPotentiallyUsable, UtcDayWindow;
  }

  lemma MoveUsesAStep(s: State, id: nat, phase: Phase)
    requires id in s.txs && Remaining(s.txs[id].(phase := phase)) < Remaining(s.txs[id])
    ensures var t := Move(s, id, phase);
            && t.txs.Keys == s.txs.Keys
            && Remaining(t.txs[id]) < Remaining(s.txs[id])
            && forall other :: other != id && other in s.txs ==> t.txs[other] == s.txs[other]
  {
    hide Remaining;
  }

  lemma OneStepLess(env: Env, s: State, e: Event)
    requires Enabled(env, s, e) && (e.LockLegacy? || e.LockRow? || e.Read? || e.Commit? || e.Abort?)
    ensures var t := Apply(env, s, e);
            && t.txs.Keys == s.txs.Keys
            && Remaining(t.txs[e.id]) < Remaining(s.txs[e.id])
            && forall other :: other != e.id && other in s.txs ==> t.txs[other] == s.txs[other]
  {
    hide Published, AfterRead, AfterLockRow, Move;
    match e
    case LockLegacy(id) => MoveUsesAStep(s, id, LegacyLocked);
    case LockRow(id) =>
      LockRowUsesAStep(s.db, s.txs[id]);
      MoveUsesAStep(s, id, AfterLockRow(s.db, s.txs[id]));
    case Read(id) =>
      ReadUsesAStep(env, s.db, s.txs[id]);
      MoveUsesAStep(s, id, AfterRead(env, s.db, s.txs[id]));
    case Commit(id) =>
      var published := Published(s.db, s.txs[id]);
      if published.Success? {
        MoveUsesAStep(s.(db := published.value), id, Committed);
      } else {
        MoveUsesAStep(s, id, Ended);
      }
    case Abort(id) => MoveUsesAStep(s, id, Ended);
  }

  /** Steps that only transactions already begun take, none of them giving up. */
  predicate Proceeds(e: Event) {
    e.LockLegacy? || e.LockRow? || e.Read? || e.Commit?
  }

  ghost predicate Continues(env: Env, run: seq<State>, events: seq<Event>) {
    && |run| == |events| + 1
    && forall i :: 0 <= i < |events| ==>
         Proceeds(events[i]) && Enabled(env, run[i], events[i]) && run[i + 1] == Apply(env, run[i], events[i])
  }

  lemma SomeStep(env: Env, s: State, id: nat) returns (e: Event)
    requires Inv(env, s) && id in s.txs && !Finished(s.txs[id])
    ensures Enabled(env, s, e) && Proceeds(e) && e.id in s.txs
  {
    hide Inv;
    Progress(env, s, id);
    var other :| other in s.txs && (|| Enabled(env, s, LockLegacy(other)) || Enabled(env, s, LockRow(other))
                                    || Enabled(env, s, Read(other)) || Enabled(env, s, Commit(other)));
    e := if Enabled(env, s, LockLegacy(other)) then LockLegacy(other)
         else if Enabled(env, s, LockRow(other)) then LockRow(other)
         else if Enabled(env, s, Read(other)) then Read(other)
         else Commit(other);
  }

  lemma StepKeepsTransactions(env: Env, s: State, e: Event)
    requires Enabled(env, s, e) && Proceeds(e)
    ensures Apply(env, s, e).txs.Keys == s.txs.Keys
  {
    OneStepLess(env, s, e);
  }

  /** Some continuation, in which nobody gives up, finishes everybody. */
  lemma AllFinish(env: Env, s: State, n: nat) returns (run: seq<State>, events: seq<Event>)
    requires Inv(env, s) && ValidConfigurations(env.config) && forall id :: id in s.txs ==> id < n
    ensures Continues(env, run, events) && run[0] == s
    ensures forall id :: id in run[|events|].txs ==> Finished(run[|events|].txs[id])
    decreases Work(s, n)
  {
    hide Apply, Enabled, Inv, ValidConfigurations, Finished, Work;
    if forall id :: id in s.txs ==> Finished(s.txs[id]) {
      run, events := [s], [];
    } else {
      var id :| id in s.txs && !Finished(s.txs[id]);
      var e := SomeStep(env, s, id);
      var t := Apply(env, s, e);
      StepsRunOut(env, s, e, n);
      StepKeepsInv(env, s, e);
      StepKeepsTransactions(env, s, e);
      var rest, more := AllFinish(env, t, n);
      run, events := [s] + rest, [e] + more;
    }
  }

  lemma IdsAreBounded(ids: set<nat>) returns (n: nat)
    ensures forall id :: id in ids ==> id < n
    decreases |ids|
  {
    n := 0;
    if ids != {} {
      var one :| one in ids;
      var m := IdsAreBounded(ids - {one});
      n := if one < m then m else one + 1;
      assert forall id :: id in ids ==> id == one || id in ids - {one};
    }
  }

  /** From every reachable state, however the transactions have interleaved so far, they can all finish. */
  lemma EveryReachableStateCanFinish(env: Env, run: seq<State>, events: seq<Event>)
    returns (rest: seq<State>, more: seq<Event>)
    requires IsRun(env, run, events)
    ensures Continues(env, rest, more) && rest[0] == run[|events|]
    ensures forall id :: id in rest[|more|].txs ==> Finished(rest[|more|].txs[id])
  {
    hide Apply, Enabled, Inv, Finished, Continues;
    RunKeepsInv(env, run, events, |events|);
    var s := run[|events|];
    var n := IdsAreBounded(s.txs.Keys);
    rest, more := AllFinish(env, s, n);
  }

  // Without interleaving

  /** The one statement with which a transaction goes on. */
  function NextEvent(t: Tx, id: nat): Event {
    if CanCommit(t) then Commit(id) else if CanRead(t) then Read(id) else if CanLockRow(t) then LockRow(id) else LockLegacy(id)
  }

  function Alone(env: Env, s: State, id: nat, steps: nat): State
    requires id in s.txs
    decreases steps
  {
    if steps == 0 || Finished(s.txs[id]) || !Enabled(env, s, NextEvent(s.txs[id], id)) then s
    else Alone(env, Apply(env, s, NextEvent(s.txs[id], id)), id, steps - 1)
  }

  /** The state in which this transaction stands at this phase, and nobody else holds a lock. */
  function Placed(env: Env, s: State, id: nat, t: Tx): State {
    s.(txs := s.txs[id := t],
       legacyLocks := if HoldsLegacy(t) then map[env.hash(t.c.legacyId) := id] else map[],
       rowLocks := if HoldsRow(t) then map[t.c.principalId := id] else map[])
  }

  predicate NobodyHolds(s: State) {
    s.legacyLocks == map[] && s.rowLocks == map[]
  }

  /** How the run of one transaction ended, compared with its specification. */
  ghost predicate Executes(db: RuntimeState, x: Context, c: Command, id: nat, t: State) {
    && id in t.txs && Finished(t.txs[id]) && NobodyHolds(t)
    && var r := Execute(db, x, c);
       && (t.txs[id].phase.Committed? <==> r.Success?)
       && t.db == if r.Success? then r.value else db
  }

  lemma AloneStep(env: Env, s: State, id: nat, e: Event, steps: nat)
    requires id in s.txs && !Finished(s.txs[id]) && e == NextEvent(s.txs[id], id) && Enabled(env, s, e)
    requires id in Apply(env, s, e).txs
    ensures Alone(env, s, id, steps + 1) == Alone(env, Apply(env, s, e), id, steps)
    ensures Finished(Apply(env, s, e).txs[id]) ==> Alone(env, s, id, steps + 1) == Apply(env, s, e)
  {
    hide Apply, Enabled, NextEvent;
  }

  lemma LockLegacyAlone(env: Env, s: State, id: nat, x: Context, c: Command, n: nat)
    requires NobodyHolds(s) && c.Bind?
    ensures Alone(env, Placed(env, s, id, Tx(x, c, Begun)), id, n + 1) ==
            Alone(env, Placed(env, s, id, Tx(x, c, LegacyLocked)), id, n)
  {
    hide Alone, AfterRead, AfterLockRow, Published;
    var before := Placed(env, s, id, Tx(x, c, Begun));
    assert Apply(env, before, LockLegacy(id)) == Placed(env, s, id, Tx(x, c, LegacyLocked));
    AloneStep(env, before, id, LockLegacy(id), n);
  }

  /** A lock or a read moves the transaction on, or ends it and changes nothing. */
  ghost predicate GoesOn(env: Env, s: State, id: nat, t: Tx, phase: Phase, n: nat) {
    var u := t.(phase := phase);
    Alone(env, Placed(env, s, id, t), id, n + 1) ==
      if phase.Ended? then Placed(env, s, id, u) else Alone(env, Placed(env, s, id, u), id, n)
  }

  lemma LockRowAlone(env: Env, s: State, id: nat, t: Tx, n: nat)
    requires NobodyHolds(s) && CanLockRow(t)
    ensures GoesOn(env, s, id, t, AfterLockRow(s.db, t), n)
  {
    hide Alone, AfterRead, Published;
    var before := Placed(env, s, id, t);
    var u := t.(phase := AfterLockRow(s.db, t));
    assert u.phase.Ended? || (HoldsRow(u) && HoldsLegacy(u) == HoldsLegacy(t));
    hide AfterLockRow;
    assert Apply(env, before, LockRow(id)) == Placed(env, s, id, u);
    AloneStep(env, before, id, LockRow(id), n);
  }

  lemma ReadAlone(env: Env, s: State, id: nat, t: Tx, n: nat)
    requires NobodyHolds(s) && CanRead(t)
    ensures GoesOn(env, s, id, t, AfterRead(env, s.db, t), n)
  {
    hide Alone, AfterRead, AfterLockRow, Published;
    var before := Placed(env, s, id, t);
    var u := t.(phase := AfterRead(env, s.db, t));
    ReadKeepsLocksHeld(env, s.db, t);
    ReadsDoNotCommit(env, s.db, t);
    assert Apply(env, before, Read(id)) == Placed(env, s, id, u);
    AloneStep(env, before, id, Read(id), n);
  }

  lemma ReadsDoNotCommit(env: Env, db: RuntimeState, t: Tx)
    requires CanRead(t)
    ensures !AfterRead(env, db, t).Committed?
  {
    hide PreflightFrom, FactsAbout, Claimed, BoundTo, ConfiguredWith;
  }

  lemma CommitAlone(env: Env, s: State, id: nat, t: Tx, n: nat)
    requires NobodyHolds(s) && CanCommit(t)
    ensures var r, after := Published(s.db, t), Alone(env, Placed(env, s, id, t), id, n + 1);
            && id in after.txs && NobodyHolds(after)
            && after.txs[id].phase == (if r.Success? then Committed else Ended)
            && after.db == if r.Success? then r.value else s.db
  {
    hide Alone, AfterRead, AfterLockRow, Published;
    var before := Placed(env, s, id, t);
    AloneStep(env, before, id, Commit(id), n);
  }

  /** A row that is locked for a bind holds its own key. */
  ghost predicate Keyed(db: RuntimeState) {
    forall id :: id in db.principals ==> db.principals[id].principalId == id
  }

  lemma BindAlone(env: Env, s: State, id: nat, x: Context, c: Command)
    requires NobodyHolds(s) && Keyed(s.db) && x.canManage && x.config == env.config && c.Bind?
    ensures Executes(s.db, x, c, id, Alone(env, Placed(env, s, id, Tx(x, c, Begun)), id, 7))
  {
    hide Alone, FactsAbout, PreflightFrom, BoundTo, Published, HasPotentiallyUsable, Record, UtcDayWindow;
    LockLegacyAlone(env, s, id, x, c, 6);
    LockRowAlone(env, s, id, Tx(x, c, LegacyLocked), 5);
    if AfterLockRow(s.db, Tx(x, c, LegacyLocked)).RowLocked? {
      LockedBindAlone(env, s, id, x, c);
    }
    hide Claimed;
  }

  ghost predicate Ready(db: RuntimeState, x: Context, c: Command, p: RuntimePrincipal)
    requires c.Bind?
  {
    && !Claimed(db, c.legacyId)
    && PreflightOf(x.config, db, p, c.legacyId, x.now).Safe() && BoundTo(p, c.legacyId, x.now).Success?
  }

  lemma BindReads(env: Env, db: RuntimeState, x: Context, c: Command, p: RuntimePrincipal, facts: ContinuityFacts)
    requires c.Bind? && x.config == env.config && facts == FactsAbout(db.rows, c.legacyId, p, UtcDayWindow(x.now))
    ensures AfterRead(env, db, Tx(x, c, RowLocked(p))) == if Claimed(db, c.legacyId) then Ended else Unclaimed(p)
    ensures AfterRead(env, db, Tx(x, c, Unclaimed(p))) == Inspected(p, facts)
    ensures AfterRead(env, db, Tx(x, c, Inspected(p, facts))) == Rechecked(p, facts, Claimed(db, c.legacyId))
    ensures !Claimed(db, c.legacyId) ==>
              AfterRead(env, db, Tx(x, c, Rechecked(p, facts, false))) == if Ready(db, x, c, p) then Preflighted(p) else Ended
  {
    hide FactsAbout, BoundTo, HasPotentiallyUsable, UtcDayWindow, Claimed, Preflight.Safe;
  }

  lemma UnreadyBindsFail(db: RuntimeState, x: Context, c: Command)
    requires c.Bind? && c.principalId in db.principals && !Ready(db, x, c, db.principals[c.principalId])
    ensures Execute(db, x, c).Failure?
  {
    hide PreflightOf, BoundTo, Claimed, Record, Preflight.Safe;
  }

  lemma LockedBindAlone(env: Env, s: State, id: nat, x: Context, c: Command)
    requires NobodyHolds(s) && Keyed(s.db) && x.canManage && x.config == env.config && c.Bind?
    requires c.principalId in s.db.principals && s.db.principals[c.principalId].Active() && !s.db.principals[c.principalId].Bound()
    ensures var p := s.db.principals[c.principalId];
            Executes(s.db, x, c, id, Alone(env, Placed(env, s, id, Tx(x, c, RowLocked(p))), id, 5))
  {
    hide Alone, FactsAbout, Published, UtcDayWindow, Claimed, AfterRead, Execute, Ready;
    var p := s.db.principals[c.principalId];
    var facts := FactsAbout(s.db.rows, c.legacyId, p, UtcDayWindow(x.now));
    BindReads(env, s.db, x, c, p, facts);
    ReadAlone(env, s, id, Tx(x, c, RowLocked(p)), 4);
    ReadAlone(env, s, id, Tx(x, c, Unclaimed(p)), 3);
    ReadAlone(env, s, id, Tx(x, c, Inspected(p, facts)), 2);
    ReadAlone(env, s, id, Tx(x, c, Rechecked(p, facts, false)), 1);
    CommitAlone(env, s, id, Tx(x, c, Preflighted(p)), 0);
    if Ready(s.db, x, c, p) {
      BindPublishes(s.db, x, c);
    } else {
      UnreadyBindsFail(s.db, x, c);
    }
    assert Ready(s.db, x, c, p) ==> !Claimed(s.db, c.legacyId) by {
      ReadyIsUnclaimed(s.db, x, c, p);
    }
  }

  lemma ReadyIsUnclaimed(db: RuntimeState, x: Context, c: Command, p: RuntimePrincipal)
    requires c.Bind?
    ensures Ready(db, x, c, p) ==> !Claimed(db, c.legacyId)
  {
  }

  lemma BindPublishes(db: RuntimeState, x: Context, c: Command)
    requires Keyed(db) && x.canManage && c.Bind? && c.principalId in db.principals
    requires var p := db.principals[c.principalId];
             p.Active() && !p.Bound() && Ready(db, x, c, p)
    ensures Published(db, Tx(x, c, Preflighted(db.principals[c.principalId]))) == Execute(db, x, c)
  {
    hide PreflightOf, BoundTo, Claimed, Record;
  }

  lemma CreateAlone(env: Env, s: State, id: nat, x: Context, c: Command)
    requires NobodyHolds(s) && c.Create?
    ensures Executes(s.db, x, c, id, Alone(env, Placed(env, s, id, Tx(x, c, Begun)), id, 7))
  {
    hide Alone, ExecuteCreate;
    CommitAlone(env, s, id, Tx(x, c, Begun), 6);
  }

  lemma ReadersAlone(env: Env, s: State, id: nat, x: Context, c: Command)
    requires NobodyHolds(s) && Keyed(s.db) && x.canManage && (c.Initialize? || c.Disable?)
    ensures Executes(s.db, x, c, id, Alone(env, Placed(env, s, id, Tx(x, c, Begun)), id, 7))
  {
    hide Alone, ConfiguredWith, Record, Published;
    ReadAlone(env, s, id, Tx(x, c, Begun), 6);
    if AfterRead(env, s.db, Tx(x, c, Begun)).Seen? {
      var p := s.db.principals[c.principalId];
      LockRowAlone(env, s, id, Tx(x, c, Seen(p)), 5);
      if AfterLockRow(s.db, Tx(x, c, Seen(p))).Writing? {
        CommitAlone(env, s, id, Tx(x, c, Writing(p)), 4);
        ReadersPublish(s.db, x, c);
      }
    }
  }

  lemma ReadersPublish(db: RuntimeState, x: Context, c: Command)
    requires Keyed(db) && x.canManage && (c.Initialize? || c.Disable?) && c.principalId in db.principals
    requires var p := db.principals[c.principalId];
             && p.Active()
             && (c.Initialize? ==> !p.Configured() && p.allowance.None? && ConfiguredWith(p, c.daily, c.allowance).Success?)
    ensures Published(db, Tx(x, c, Writing(db.principals[c.principalId]))) == Execute(db, x, c)
  {
    hide ConfiguredWith, Record;
  }

  /** Without interleaving, the protocol does exactly what the command specifies. */
  lemma AloneExecutes(env: Env, s: State, id: nat, x: Context, c: Command)
    requires NobodyHolds(s) && Keyed(s.db) && id !in s.txs && x.canManage && x.config == env.config
    ensures Enabled(env, s, Begin(id, x, c))
    ensures Executes(s.db, x, c, id, Alone(env, Apply(env, s, Begin(id, x, c)), id, 7))
  {
    hide Alone, Executes;
    assert Apply(env, s, Begin(id, x, c)) == Placed(env, s, id, Tx(x, c, Begun));
    if c.Bind? {
      BindAlone(env, s, id, x, c);
    } else if c.Create? {
      CreateAlone(env, s, id, x, c);
    } else {
      ReadersAlone(env, s, id, x, c);
    }
  }
}
