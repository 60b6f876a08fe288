/**
 Any number of management transactions, interleaved statement by statement under READ COMMITTED.
 Bootstrap, revoke and disable hold one transaction-scoped advisory lock; create, issue and
 set_scopes take none. A transaction's writes become visible, all together, when it commits.
 */
module ManagementProtocol {
  import opened Wrappers
  import opened Text
  import opened Uuids
  import opened Instants
  import opened AuditChain
  import opened ManagementIdentity

  datatype Phase =
    | Begun
    | Locked
    | SawPrincipal(principal: Principal)
    | SawCredential(principal: Principal, credential: Credential)
    | SawManagers(principal: Principal, credential: Credential, other: bool)
    | Cleared(target: Option<Principal>, secret: Option<Credential>)
    | Committed
    | Ended

  datatype Tx = Tx(x: Context, c: Command, phase: Phase)

  datatype State = State(db: ManagementState, holder: Option<nat>, txs: map<nat, Tx>)

  /** `scopes` is what concurrent replacements of one principal's scopes leave behind. */
  datatype Event =
    | Begin(id: nat, x: Context, c: Command)
    | Lock(id: nat)
    | Read(id: nat)
    | ReadManagers(id: nat, first: Option<Uuid>)
    | Commit(id: nat, scopes: set<Uuid>)
    | Abort(id: nat)

  predicate NeedsLock(c: Command) {
    c.Bootstrap? || c.RevokeCredential? || c.DisablePrincipal?
  }

  predicate HoldsLock(t: Tx) {
    NeedsLock(t.c) && !t.phase.Begun? && !t.phase.Committed? && !t.phase.Ended?
  }

  /** The checks a command makes before its transaction; its actor was authenticated. */
  predicate MayBegin(db: ManagementState, x: Context, c: Command) {
    match c
    case Bootstrap(tokenMatches, _, tenantIds, _, _) => tokenMatches && tenantIds <= x.tenants
    case CreatePrincipal(_, _, tenantIds, _, _) =>
      x.actor.canManage && x.actor.principalId in db.principals && tenantIds <= x.tenants
    case IssueCredential(_, _, expiresAt, _, _) =>
      && x.actor.canManage && x.actor.principalId in db.principals
      && (expiresAt.Some? ==> x.now < expiresAt.value)
    case SetScopes(_, tenantIds, _) =>
      x.actor.canManage && x.actor.principalId in db.principals && tenantIds <= x.tenants
    case RevokeCredential(_, _, _) => x.actor.canManage && x.actor.principalId in db.principals
    case DisablePrincipal(_, _) => x.actor.canManage && x.actor.principalId in db.principals
  }

  predicate CanRead(t: Tx) {
    match t.c
    case Bootstrap(_, _, _, _, _) => t.phase.Locked?
    case CreatePrincipal(_, _, _, _, _) => false
    case IssueCredential(_, _, _, _, _) => t.phase.Begun?
    case SetScopes(_, _, _) => t.phase.Begun?
    case RevokeCredential(_, _, _) => t.phase.Locked? || t.phase.SawPrincipal? || t.phase.SawManagers?
    case DisablePrincipal(_, _) => t.phase.Locked?
  }

  predicate CanCommit(t: Tx) {
    match t.c
    case CreatePrincipal(_, _, _, _, _) => t.phase.Begun?
    case IssueCredential(_, _, _, _, _) => t.phase.SawPrincipal?
    case SetScopes(_, _, _) => t.phase.SawPrincipal?
    case _ => t.phase.Cleared?
  }

  /** Where a read leads; a refusal ends the transaction. */
  function AfterRead(db: ManagementState, t: Tx): Phase
    requires CanRead(t)
  {
    match t.c
    case Bootstrap(_, _, _, _, _) => if |db.principals| == 0 then Cleared(None, None) else Ended
    case RevokeCredential(principalId, credentialId, _) =>
      if t.phase.Locked? then
        if principalId in db.principals then SawPrincipal(db.principals[principalId]) else Ended
      else if t.phase.SawPrincipal? then
        if credentialId !in db.credentials || db.credentials[credentialId].principalId != principalId
           || db.credentials[credentialId].revokedAt.Some? then Ended
        else
          var p, credential := t.phase.principal, db.credentials[credentialId];
          if p.Active() && p.canManage then SawCredential(p, credential) else Cleared(Some(p), Some(credential))
      else if !t.phase.other && OwnUsable(db, principalId, credentialId, t.x.now) == {} then Ended
      else Cleared(Some(t.phase.principal), Some(t.phase.credential))
    case DisablePrincipal(principalId, _) =>
      if principalId !in db.principals || !db.principals[principalId].Active() then Ended
      else
        var p := db.principals[principalId];
        if p.canManage then SawPrincipal(p) else Cleared(Some(p), None)
    case IssueCredential(principalId, _, _, _, _) =>
      if principalId !in db.principals || !db.principals[principalId].Active() then Ended
      else SawPrincipal(db.principals[principalId])
    case SetScopes(principalId, _, _) =>
      if principalId in db.principals then SawPrincipal(db.principals[principalId]) else Ended
  }

  predicate CanReadManagers(t: Tx) {
    || (t.c.RevokeCredential? && t.phase.SawCredential?)
    || (t.c.DisablePrincipal? && t.phase.SawPrincipal?)
  }

  function AfterReadManagers(db: ManagementState, t: Tx, first: Option<Uuid>): Phase
    requires CanReadManagers(t)
  {
    var other := HasRecoverableManager(db, t.c.principalId, first, t.x.dbNow);
    if t.c.RevokeCredential? then SawManagers(t.phase.principal, t.phase.credential, other)
    else if other then Cleared(Some(t.phase.principal), None)
    else Ended
  }

  /** What a commit publishes; an integrity or construction error publishes nothing. */
  function Published(db: ManagementState, t: Tx, scopes: set<Uuid>): Result<ManagementState, ManagementError>
    requires CanCommit(t)
  {
    var x, c := t.x, t.c;
    match c
    case Bootstrap(_, displayName, tenantIds, newPrincipal, newCredential) =>
      var p :- NewPrincipal(newPrincipal, displayName, true, tenantIds, x.now);
      var issued :- NewCredential(newCredential, p.principalId, Some("bootstrap"), None, x.now);
      var added :- AddPrincipal(db, p);
      AddCredential(added, issued)
    case CreatePrincipal(displayName, canManage, tenantIds, newPrincipal, auditId) =>
      var p :- NewPrincipal(newPrincipal, displayName, canManage, tenantIds, x.now);
      var added :- AddPrincipal(db, p);
      Success(Audited(added, PrincipalRecord(auditId, x.actor, MANAGEMENT_PRINCIPAL_CREATED, None, p, x.now)))
    case IssueCredential(principalId, title, expiresAt, newCredential, auditId) =>
      var issued :- NewCredential(newCredential, principalId, title, expiresAt, x.now);
      var added :- AddCredential(db, issued);
      Success(Audited(added, CredentialRecord(auditId, x.actor, MANAGEMENT_CREDENTIAL_ISSUED, None, issued, x.now)))
    case SetScopes(principalId, tenantIds, auditId) =>
      var p := t.phase.principal;
      Success(Audited(ReplaceScopes(db, principalId, scopes),
                      PrincipalRecord(auditId, x.actor, MANAGEMENT_PRINCIPAL_SCOPES_SET, Some(p),
                                      p.(tenantIds := tenantIds), x.now)))
    case RevokeCredential(_, credentialId, auditId) =>
      if t.phase.secret.None? then Failure(CredentialNotFound)
      else
        var credential := t.phase.secret.value;
        Success(Audited(Revoked(db, credentialId, x.now),
                        CredentialRecord(auditId, x.actor, MANAGEMENT_CREDENTIAL_REVOKED, Some(credential),
                                         credential.(revokedAt := Some(x.now)), x.now)))
    case DisablePrincipal(principalId, auditId) =>
      if t.phase.target.None? then Failure(PrincipalNotFound)
      else
        var p := t.phase.target.value;
        Success(Audited(Disabled(db, principalId, x.now),
                        PrincipalRecord(auditId, x.actor, MANAGEMENT_PRINCIPAL_DISABLED, Some(p),
                                        p.(disabledAt := Some(x.now)), x.now)))
  }

  predicate Enabled(s: State, e: Event) {
    if e.Begin? then e.id !in s.txs && MayBegin(s.db, e.x, e.c)
    else
      && e.id in s.txs
      && var t := s.txs[e.id];
         match e
         case Lock(_) => NeedsLock(t.c) && t.phase.Begun? && s.holder.None?
         case Read(_) => CanRead(t)
         case ReadManagers(_, _) => CanReadManagers(t)
         case Commit(_, _) => CanCommit(t)
         case Abort(_) => !t.phase.Committed? && !t.phase.Ended?
  }

  /** The transaction moves on; one that finishes releases the lock it holds. */
  function Move(s: State, id: nat, phase: Phase): State
    requires id in s.txs
  {
    var released := (phase.Committed? || phase.Ended?) && s.holder == Some(id);
    s.(txs := s.txs[id := s.txs[id].(phase := phase)], holder := if released then None else s.holder)
  }

  function Apply(s: State, e: Event): State
    requires Enabled(s, e)
  {
    match e
    case Begin(id, x, c) => s.(txs := s.txs[id := Tx(x, c, Begun)])
    case Lock(id) => Move(s, id, Locked).(holder := Some(id))
    case Read(id) => Move(s, id, AfterRead(s.db, s.txs[id]))
    case ReadManagers(id, first) => Move(s, id, AfterReadManagers(s.db, s.txs[id], first))
    case Commit(id, scopes) =>
      var published := Published(s.db, s.txs[id], scopes);
      if published.Success? then Move(s.(db := published.value), id, Committed) else Move(s, id, Ended)
    case Abort(id) => Move(s, id, Ended)
  }

  // What a transaction under the lock knows

  ghost predicate OtherManager(db: ManagementState, principalId: Uuid, at: int) {
    exists other :: other != principalId && RecoverableManager(db, other, at)
  }

  /** Nothing but scopes can have changed since the principal was read. */
  predicate Current(db: ManagementState, id: Uuid, p: Principal) {
    id in db.principals && db.principals[id].canManage == p.canManage && db.principals[id].disabledAt == p.disabledAt
  }

  predicate CurrentCredential(db: ManagementState, c: Command, credential: Credential)
    requires c.RevokeCredential?
  {
    && c.credentialId in db.credentials && db.credentials[c.credentialId] == credential
    && credential.principalId == c.principalId && credential.revokedAt.None?
  }

  /** What a removal has established when it is cleared to commit. */
  ghost predicate Justified(db: ManagementState, x: Context, c: Command) {
    match c
    case Bootstrap(_, _, _, _, _) => db.principals == map[]
    case RevokeCredential(principalId, credentialId, _) =>
      && principalId in db.principals && credentialId in db.credentials
      && db.credentials[credentialId].principalId == principalId && db.credentials[credentialId].revokedAt.None?
      && (db.principals[principalId].Active() && db.principals[principalId].canManage ==>
            OtherManager(db, principalId, x.dbNow) || OwnUsable(db, principalId, credentialId, x.now) != {})
    case DisablePrincipal(principalId, _) =>
      && principalId in db.principals && db.principals[principalId].Active()
      && (db.principals[principalId].canManage ==> OtherManager(db, principalId, x.dbNow))
    case _ => false
  }

  ghost predicate Knows(db: ManagementState, t: Tx) {
    match t.phase
    case SawPrincipal(p) =>
      && !t.c.Bootstrap? && !t.c.CreatePrincipal? && Current(db, t.c.principalId, p)
      && (t.c.DisablePrincipal? ==> p.Active() && p.canManage)
    case SawCredential(p, credential) =>
      && t.c.RevokeCredential? && Current(db, t.c.principalId, p) && CurrentCredential(db, t.c, credential)
    case SawManagers(p, credential, other) =>
      && t.c.RevokeCredential? && Current(db, t.c.principalId, p) && CurrentCredential(db, t.c, credential)
      && (other ==> OtherManager(db, t.c.principalId, t.x.dbNow))
    case Cleared(_, _) => Justified(db, t.x, t.c)
    case _ => true
  }

  ghost predicate Inv(s: State) {
    && (forall id :: id in s.txs ==> (HoldsLock(s.txs[id]) <==> s.holder == Some(id)))
    && (s.holder.Some? ==> s.holder.value in s.txs && Knows(s.db, s.txs[s.holder.value]))
    && (forall id :: id in s.txs && !s.txs[id].c.Bootstrap? ==> s.db.principals != map[])
  }

  /** No transaction yet. */
  predicate Initial(s: State) {
    s.txs == map[] && s.holder.None?
  }

  // Lock-free transactions only add

  ghost predicate OnlyAdds(a: ManagementState, b: ManagementState) {
    && (forall id :: id in a.principals ==> Current(b, id, a.principals[id]))
    && (forall id :: id in a.credentials ==> id in b.credentials && b.credentials[id] == a.credentials[id])
  }

  lemma AdditionsOnlyAdd(db: ManagementState, p: Principal, c: Credential, id: Uuid, scopes: set<Uuid>)
    ensures AddPrincipal(db, p).Success? ==> OnlyAdds(db, AddPrincipal(db, p).value)
    ensures AddCredential(db, c).Success? ==> OnlyAdds(db, AddCredential(db, c).value)
    ensures OnlyAdds(db, ReplaceScopes(db, id, scopes))
  {
  }

  lemma LockFreeCommitsOnlyAdd(db: ManagementState, t: Tx, scopes: set<Uuid>)
    requires CanCommit(t) && !NeedsLock(t.c) && Published(db, t, scopes).Success?
    ensures OnlyAdds(db, Published(db, t, scopes).value)
  {
    hide Collapse, NewPrincipal, NewCredential, AddPrincipal, AddCredential, ReplaceScopes, PrincipalRecord, CredentialRecord;
    var nobody, nothing := Principal(0, "", false, {}, 0, None), Credential(0, 0, None, 0, None, None);
    if t.c.CreatePrincipal? {
      var p := NewPrincipal(t.c.newPrincipal, t.c.displayName, t.c.canManage, t.c.tenantIds, t.x.now).value;
      AdditionsOnlyAdd(db, p, nothing, 0, {});
    } else if t.c.IssueCredential? {
      var issued := NewCredential(t.c.newCredential, t.c.principalId, t.c.title, t.c.expiresAt, t.x.now).value;
      AdditionsOnlyAdd(db, nobody, issued, 0, {});
    } else {
      AdditionsOnlyAdd(db, nobody, nothing, t.c.principalId, scopes);
    }
  }

  lemma ManagersRemain(a: ManagementState, b: ManagementState, id: Uuid, at: int)
    requires OnlyAdds(a, b) && RecoverableManager(a, id, at)
    ensures RecoverableManager(b, id, at)
  {
    var c :| c in a.credentials && a.credentials[c].principalId == id && a.credentials[c].UsableAt(at);
    assert Current(b, id, a.principals[id]);
    assert b.credentials[c] == a.credentials[c];
  }

  lemma OtherManagersRemain(a: ManagementState, b: ManagementState, principalId: Uuid, at: int)
    requires OnlyAdds(a, b) && OtherManager(a, principalId, at)
    ensures OtherManager(b, principalId, at)
  {
    hide RecoverableManager, OnlyAdds;
    var other :| other != principalId && RecoverableManager(a, other, at);
    ManagersRemain(a, b, other, at);
  }

  lemma OwnUsableRemain(a: ManagementState, b: ManagementState, principalId: Uuid, except: Uuid, at: int)
    requires OnlyAdds(a, b) && OwnUsable(a, principalId, except, at) != {}
    ensures OwnUsable(b, principalId, except, at) != {}
  {
    var id :| id in OwnUsable(a, principalId, except, at);
    assert id in OwnUsable(b, principalId, except, at);
  }

  /** What a lock holder knows survives everything that the others may commit meanwhile. */
  lemma KnowledgeSurvivesAdditions(a: ManagementState, b: ManagementState, t: Tx)
    requires OnlyAdds(a, b) && Knows(a, t)
    requires t.c.Bootstrap? && t.phase.Cleared? ==> b.principals == a.principals
    ensures Knows(b, t)
  {
    hide OtherManager, OwnUsable;
    if t.c.RevokeCredential? || t.c.DisablePrincipal? {
      if OtherManager(a, t.c.principalId, t.x.dbNow) {
        OtherManagersRemain(a, b, t.c.principalId, t.x.dbNow);
      }
    }
    if t.c.RevokeCredential? {
      if OwnUsable(a, t.c.principalId, t.c.credentialId, t.x.now) != {} {
        OwnUsableRemain(a, b, t.c.principalId, t.c.credentialId, t.x.now);
      }
    }
  }

  lemma ReadsAreKnown(db: ManagementState, t: Tx)
    requires CanRead(t) && (NeedsLock(t.c) ==> Knows(db, t))
    ensures Knows(db, t.(phase := AfterRead(db, t)))
    ensures !AfterRead(db, t).Begun? && !AfterRead(db, t).Committed?
  {
    hide OtherManager, OwnUsable;
  }

  lemma ManagersReadAreKnown(db: ManagementState, t: Tx, first: Option<Uuid>)
    requires CanReadManagers(t) && Knows(db, t)
    ensures Knows(db, t.(phase := AfterReadManagers(db, t, first)))
    ensures !AfterReadManagers(db, t, first).Begun? && !AfterReadManagers(db, t, first).Committed?
  {
    hide RecoverableManager;
    assert HasRecoverableManager(db, t.c.principalId, first, t.x.dbNow) ==> RecoverableManager(db, first.value, t.x.dbNow);
  }

  /** Moving one transaction within what its lock allows keeps the invariant. */
  lemma MoveKeepsInv(s: State, id: nat, phase: Phase)
    requires Inv(s) && id in s.txs && !phase.Begun?
    requires NeedsLock(s.txs[id].c) ==> HoldsLock(s.txs[id]) || phase.Ended?
    requires Knows(s.db, s.txs[id].(phase := phase))
    ensures Inv(Move(s, id, phase))
  {
    hide Knows;
  }

  lemma QuietStepKeepsInv(s: State, e: Event)
    requires Inv(s) && Enabled(s, e) && !e.Commit?
    ensures Inv(Apply(s, e))
  {
    match e
    case Begin(_, _, _) => hide Knows;
    case Lock(_) => hide Justified, Current;
    case Read(id) =>
      var t := s.txs[id];
      assert NeedsLock(t.c) ==> HoldsLock(t);
      ReadsAreKnown(s.db, t);
      hide AfterRead, Inv, Knows;
      MoveKeepsInv(s, id, AfterRead(s.db, t));
    case ReadManagers(id, first) =>
      var t := s.txs[id];
      assert HoldsLock(t);
      ManagersReadAreKnown(s.db, t, first);
      hide AfterReadManagers, Inv, Knows;
      MoveKeepsInv(s, id, AfterReadManagers(s.db, t, first));
    case Abort(id) =>
      hide Inv;
      MoveKeepsInv(s, id, Ended);
  }

  /** A commit under the lock releases it; nobody else holds it. */
  lemma HolderCommitKeepsInv(s: State, id: nat, db: ManagementState)
    requires Inv(s) && id in s.txs && s.holder == Some(id) && s.db.principals.Keys <= db.principals.Keys
    ensures Inv(Move(s.(db := db), id, Committed))
  {
    hide Knows;
  }

  lemma LockFreeCommitKeepsInv(s: State, id: nat, db: ManagementState)
    requires Inv(s) && id in s.txs && !NeedsLock(s.txs[id].c) && s.db.principals.Keys <= db.principals.Keys
    requires s.holder.Some? ==> Knows(db, s.txs[s.holder.value])
    ensures Inv(Move(s.(db := db), id, Committed))
  {
    hide Knows;
  }

  /** Removals and bootstrap hold the lock; what others commit only adds. */
  lemma CommitKeepsInv(s: State, e: Event)
    requires Inv(s) && Enabled(s, e) && e.Commit?
    ensures Inv(Apply(s, e))
  {
    var t := s.txs[e.id];
    var published := Published(s.db, t, e.scopes);
    assert NeedsLock(t.c) ==> HoldsLock(t) && s.holder == Some(e.id);
    if published.Failure? {
      hide Inv, Published;
      MoveKeepsInv(s, e.id, Ended);
    } else {
      PrincipalsStay(s.db, t, e.scopes);
      hide Inv, Published, Knows, Move;
      if NeedsLock(t.c) {
        HolderCommitKeepsInv(s, e.id, published.value);
      } else {
        if s.holder.Some? {
          KnowledgeSurvives(s, e);
        }
        LockFreeCommitKeepsInv(s, e.id, published.value);
      }
    }
  }

  lemma AdditionsKeepKeys(db: ManagementState, p: Principal, c: Credential)
    ensures AddPrincipal(db, p).Success? ==> db.principals.Keys <= AddPrincipal(db, p).value.principals.Keys
    ensures AddCredential(db, c).Success? ==> AddCredential(db, c).value.principals == db.principals
  {
  }

  lemma PrincipalsStay(db: ManagementState, t: Tx, scopes: set<Uuid>)
    requires CanCommit(t) && Published(db, t, scopes).Success?
    ensures db.principals.Keys <= Published(db, t, scopes).value.principals.Keys
  {
    hide Collapse, NewPrincipal, NewCredential, AddPrincipal, AddCredential, PrincipalRecord, CredentialRecord;
    if t.c.Bootstrap? {
      var p := NewPrincipal(t.c.newPrincipal, t.c.displayName, true, t.c.tenantIds, t.x.now).value;
      var issued := NewCredential(t.c.newCredential, p.principalId, Some("bootstrap"), None, t.x.now).value;
      AdditionsKeepKeys(db, p, issued);
      AdditionsKeepKeys(AddPrincipal(db, p).value, p, issued);
    } else if t.c.CreatePrincipal? {
      var p := NewPrincipal(t.c.newPrincipal, t.c.displayName, t.c.canManage, t.c.tenantIds, t.x.now).value;
      AdditionsKeepKeys(db, p, Credential(0, 0, None, 0, None, None));
    } else if t.c.IssueCredential? {
      var issued := NewCredential(t.c.newCredential, t.c.principalId, t.c.title, t.c.expiresAt, t.x.now).value;
      AdditionsKeepKeys(db, Principal(0, "", false, {}, 0, None), issued);
    }
  }

  lemma KnowledgeSurvives(s: State, e: Event)
    requires Inv(s) && Enabled(s, e) && e.Commit? && s.holder.Some?
    requires !NeedsLock(s.txs[e.id].c) && Published(s.db, s.txs[e.id], e.scopes).Success?
    ensures Knows(Published(s.db, s.txs[e.id], e.scopes).value, s.txs[s.holder.value])
  {
    LockFreeCommitsOnlyAdd(s.db, s.txs[e.id], e.scopes);
    var holder := s.txs[s.holder.value];
    assert Knows(s.db, holder);
    assert s.db.principals != map[];
    assert holder.c.Bootstrap? ==> !holder.phase.Cleared?;
    hide Published, Knows, OnlyAdds, Inv;
    KnowledgeSurvivesAdditions(s.db, Published(s.db, s.txs[e.id], e.scopes).value, holder);
  }

  lemma StepKeepsInv(s: State, e: Event)
    requires Inv(s) && Enabled(s, e)
    ensures Inv(Apply(s, e))
  {
    hide Inv, Apply, Enabled;
    if e.Commit? {
      CommitKeepsInv(s, e);
    } else {
      QuietStepKeepsInv(s, e);
    }
  }

  // Runs

  ghost predicate IsRun(run: seq<State>, events: seq<Event>) {
    && |run| == |events| + 1
    && Initial(run[0])
    && forall i :: 0 <= i < |events| ==> Enabled(run[i], events[i]) && run[i + 1] == Apply(run[i], events[i])
  }

  lemma {:induction false} RunKeepsInv(run: seq<State>, events: seq<Event>, i: nat)
    requires IsRun(run, events) && i < |run|
    ensures Inv(run[i])
  {
    hide Apply, Enabled;
    if i > 0 {
      RunKeepsInv(run, events, i - 1);
      hide Inv;
      StepKeepsInv(run[i - 1], events[i - 1]);
    }
  }

  // Recoverability

  /** The instants at which a command keeps the system recoverable: a disabling judges usability at the
      database's transaction start, a revocation also at the service's clock, the others remove nothing. */
  predicate Judges(x: Context, c: Command, at: int) {
    && (c.RevokeCredential? ==> at <= x.now && at <= x.dbNow)
    && (c.DisablePrincipal? ==> at <= x.dbNow)
  }

  predicate StepJudges(s: State, e: Event, at: int)
    requires Enabled(s, e)
  {
    e.Commit? ==> Judges(s.txs[e.id].x, s.txs[e.id].c, at)
  }

  lemma UsableEarlier(s: ManagementState, id: Uuid, at: int, later: int)
    requires RecoverableManager(s, id, later) && at <= later
    ensures RecoverableManager(s, id, at)
  {
    var c :| c in s.credentials && s.credentials[c].principalId == id && s.credentials[c].UsableAt(later);
    assert s.credentials[c].UsableAt(at);
  }

  lemma RevocationKeepsRecoverability(db: ManagementState, x: Context, c: Command, at: int)
    requires c.RevokeCredential? && Justified(db, x, c) && Recoverable(db, at)
    requires at <= x.now && at <= x.dbNow
    ensures Recoverable(Revoked(db, c.credentialId, x.now), at)
  {
    var after := Revoked(db, c.credentialId, x.now);
    var manager :| RecoverableManager(db, manager, at);
    if manager != c.principalId {
      UntouchedByRevocation(db, c, x.now, manager, at);
    } else if OtherManager(db, c.principalId, x.dbNow) {
      var other :| other != c.principalId && RecoverableManager(db, other, x.dbNow);
      UsableEarlier(db, other, at, x.dbNow);
      UntouchedByRevocation(db, c, x.now, other, at);
    } else {
      var own :| own in OwnUsable(db, c.principalId, c.credentialId, x.now);
      assert after.credentials[own] == db.credentials[own] && after.credentials[own].UsableAt(at);
      assert RecoverableManager(after, c.principalId, at);
    }
  }

  lemma UntouchedByRevocation(db: ManagementState, c: Command, now: Instant, manager: Uuid, at: int)
    requires c.RevokeCredential? && c.credentialId in db.credentials
    requires db.credentials[c.credentialId].principalId == c.principalId
    requires manager != c.principalId && RecoverableManager(db, manager, at)
    ensures RecoverableManager(Revoked(db, c.credentialId, now), manager, at)
  {
    var id :| id in db.credentials && db.credentials[id].principalId == manager && db.credentials[id].UsableAt(at);
    assert Revoked(db, c.credentialId, now).credentials[id] == db.credentials[id];
  }

  lemma UntouchedByDisabling(db: ManagementState, c: Command, now: Instant, manager: Uuid, at: int)
    requires c.DisablePrincipal? && manager != c.principalId && RecoverableManager(db, manager, at)
    ensures RecoverableManager(Disabled(db, c.principalId, now), manager, at)
  {
  }

  lemma DisablingKeepsRecoverability(db: ManagementState, x: Context, c: Command, at: int)
    requires c.DisablePrincipal? && Justified(db, x, c) && Recoverable(db, at)
    requires at <= x.dbNow
    ensures Recoverable(Disabled(db, c.principalId, x.now), at)
  {
    var manager :| RecoverableManager(db, manager, at);
    if manager != c.principalId {
      UntouchedByDisabling(db, c, x.now, manager, at);
    } else {
      var other :| other != c.principalId && RecoverableManager(db, other, x.dbNow);
      UsableEarlier(db, other, at, x.dbNow);
      UntouchedByDisabling(db, c, x.now, other, at);
    }
  }

  lemma AuditsDoNotMatter(a: ManagementState, b: ManagementState, at: int)
    requires a.principals == b.principals && a.credentials == b.credentials && Recoverable(a, at)
    ensures Recoverable(b, at)
  {
    var id :| RecoverableManager(a, id, at);
    assert RecoverableManager(b, id, at);
  }

  /** No step, in any interleaving, destroys recoverability at an instant its transaction judges. */
  lemma StepKeepsRecoverability(s: State, e: Event, at: int)
    requires Inv(s) && Enabled(s, e) && StepJudges(s, e, at) && Recoverable(s.db, at)
    ensures Recoverable(Apply(s, e).db, at)
  {
    hide Recoverable, RecoverableManager, Knows;
    if e.Commit? && Published(s.db, s.txs[e.id], e.scopes).Success? {
      var t := s.txs[e.id];
      var after := Published(s.db, t, e.scopes).value;
      if NeedsLock(t.c) {
        HolderIsJustified(s, e.id);
        hide Collapse, Justified, NewPrincipal, NewCredential, Inv;
        if t.c.RevokeCredential? {
          RevocationKeepsRecoverability(s.db, t.x, t.c, at);
          AuditsDoNotMatter(Revoked(s.db, t.c.credentialId, t.x.now), after, at);
        } else if t.c.DisablePrincipal? {
          DisablingKeepsRecoverability(s.db, t.x, t.c, at);
          AuditsDoNotMatter(Disabled(s.db, t.c.principalId, t.x.now), after, at);
        } else {
          NobodyToLose(s.db, t.x, t.c, at);
        }
      } else {
        LockFreeCommitsOnlyAdd(s.db, t, e.scopes);
        hide Published, OnlyAdds, Inv;
        AdditionsKeepRecoverability(s.db, after, at);
      }
    }
  }

  lemma HolderIsJustified(s: State, id: nat)
    requires Inv(s) && id in s.txs && NeedsLock(s.txs[id].c) && s.txs[id].phase.Cleared?
    ensures Justified(s.db, s.txs[id].x, s.txs[id].c)
  {
    assert HoldsLock(s.txs[id]);
  }

  lemma NobodyToLose(db: ManagementState, x: Context, c: Command, at: int)
    requires c.Bootstrap? && Justified(db, x, c)
    ensures !Recoverable(db, at)
  {
  }

  lemma AdditionsKeepRecoverability(a: ManagementState, b: ManagementState, at: int)
    requires OnlyAdds(a, b) && Recoverable(a, at)
    ensures Recoverable(b, at)
  {
    hide RecoverableManager, OnlyAdds;
    var id :| RecoverableManager(a, id, at);
    ManagersRemain(a, b, id, at);
  }

  /** While every commit judges at or after `at`, someone who could manage principals at `at` remains. */
  lemma {:induction false} RecoverabilityIsNeverDestroyed(run: seq<State>, events: seq<Event>, i: nat, j: nat, at: int)
    requires IsRun(run, events) && i <= j < |run|
    requires forall k :: i <= k < j ==> StepJudges(run[k], events[k], at)
    requires Recoverable(run[i].db, at)
    ensures Recoverable(run[j].db, at)
    decreases j
  {
    hide Apply, StepJudges, Recoverable;
    if i < j {
      RecoverabilityIsNeverDestroyed(run, events, i, j - 1, at);
      RunKeepsInv(run, events, j - 1);
      hide Inv, Enabled;
      StepKeepsRecoverability(run[j - 1], events[j - 1], at);
    }
  }

  // Exactly which instants are safe

  /** Two managers; the first has a credential that never expires, the second one that does. */
  function TwoManagers(created: Instant, expires: Instant): ManagementState {
    ManagementState(
      map[1 := Principal(1, "a", true, {}, created, None), 2 := Principal(2, "b", true, {}, created, None)],
      map[1 := Credential(1, 1, None, created, None, None), 2 := Credential(2, 2, None, created, Some(expires), None)],
      [])
  }

  /** One manager with two credentials, of which the second expires. */
  function TwoCredentials(created: Instant, expires: Instant): ManagementState {
    ManagementState(
      map[1 := Principal(1, "a", true, {}, created, None)],
      map[1 := Credential(1, 1, None, created, None, None), 2 := Credential(2, 1, None, created, Some(expires), None)],
      [])
  }

  lemma ShortNamesAreNormal()
    ensures Collapse("a") == "a" && Collapse("b") == "b"
  {
    hide Collapse;
    assert Word("a") && Word("b");
    WordsAreCollapsed("a");
    WordsAreCollapsed("b");
  }

  lemma ExamplesAreConsistent(created: Instant, expires: Instant)
    requires created < expires
    ensures Consistent(TwoManagers(created, expires)) && Consistent(TwoCredentials(created, expires))
  {
    hide Collapse;
    ShortNamesAreNormal();
  }

  lemma TwoManagersLoseOne(x: Context, created: Instant, expires: Instant, auditId: Uuid)
    requires x.actor.canManage && x.first == Some(2) && x.dbNow < expires
    ensures var before := TwoManagers(created, expires);
            && FirstOther(before, 1, x.first) && Recoverable(before, expires)
            && forall c :: c in [DisablePrincipal(1, auditId), RevokeCredential(1, 1, auditId)] ==>
                 Execute(before, x, c).Success? && !Recoverable(Execute(before, x, c).value, expires)
  {
    hide PrincipalRecord, CredentialRecord, OwnUsable;
    var before := TwoManagers(created, expires);
    assert before.credentials[1].UsableAt(expires) && before.credentials[2].UsableAt(x.dbNow);
    assert RecoverableManager(before, 1, expires) && RecoverableManager(before, 2, x.dbNow);
  }

  lemma TwoCredentialsLoseOne(x: Context, created: Instant, expires: Instant, auditId: Uuid)
    requires x.actor.canManage && x.first == None && x.now < expires
    ensures var before, c := TwoCredentials(created, expires), RevokeCredential(1, 1, auditId);
            && FirstOther(before, 1, x.first) && Recoverable(before, expires)
            && Execute(before, x, c).Success? && !Recoverable(Execute(before, x, c).value, expires)
  {
    hide CredentialRecord;
    var before := TwoCredentials(created, expires);
    assert before.credentials[1].UsableAt(expires) && before.credentials[2].UsableAt(x.now);
    assert RecoverableManager(before, 1, expires);
    assert 2 in OwnUsable(before, 1, 1, x.now);
  }

  lemma ExecutedRemovalsAreJustified(s: ManagementState, x: Context, c: Command)
    requires (c.RevokeCredential? || c.DisablePrincipal?) && Execute(s, x, c).Success?
    ensures Justified(s, x, c)
    ensures var t := Execute(s, x, c).value;
            var changed := if c.RevokeCredential? then Revoked(s, c.credentialId, x.now) else Disabled(s, c.principalId, x.now);
            t.principals == changed.principals && t.credentials == changed.credentials
  {
    hide PrincipalRecord, CredentialRecord, OwnUsable, RecoverableManager;
    assert HasRecoverableManager(s, c.principalId, x.first, x.dbNow) ==> RecoverableManager(s, x.first.value, x.dbNow);
  }

  lemma ExecutionKeepsRecoverability(s: ManagementState, x: Context, c: Command, at: int)
    requires (c.RevokeCredential? || c.DisablePrincipal?) && Execute(s, x, c).Success?
    requires Judges(x, c, at) && Recoverable(s, at)
    ensures Recoverable(Execute(s, x, c).value, at)
  {
    ExecutedRemovalsAreJustified(s, x, c);
    hide Justified, Recoverable, Execute;
    if c.RevokeCredential? {
      RevocationKeepsRecoverability(s, x, c, at);
      AuditsDoNotMatter(Revoked(s, c.credentialId, x.now), Execute(s, x, c).value, at);
    } else {
      DisablingKeepsRecoverability(s, x, c, at);
      AuditsDoNotMatter(Disabled(s, c.principalId, x.now), Execute(s, x, c).value, at);
    }
  }

  /** Every disabling that this context permits, of whichever principal, from whichever consistent state
      and scan order, keeps a system that is recoverable at the instant recoverable at it. */
  ghost predicate DisablingIsSafe(x: Context, at: Instant) {
    forall s, id, auditId, first ::
      var y := x.(first := first);
      (&& Consistent(s) && FirstOther(s, id, first) && Recoverable(s, at)
       && Execute(s, y, DisablePrincipal(id, auditId)).Success?) ==>
        Recoverable(Execute(s, y, DisablePrincipal(id, auditId)).value, at)
  }

  ghost predicate RevocationIsSafe(x: Context, at: Instant) {
    forall s, id, credentialId, auditId, first ::
      var y := x.(first := first);
      (&& Consistent(s) && FirstOther(s, id, first) && Recoverable(s, at)
       && Execute(s, y, RevokeCredential(id, credentialId, auditId)).Success?) ==>
        Recoverable(Execute(s, y, RevokeCredential(id, credentialId, auditId)).value, at)
  }

  /** Disabling is safe at exactly the instants up to the database's transaction start. In particular it
      is safe at the service's own instant if and only if the database's clock is not behind, and at no
      later instant, such as that of its own commit when the transaction had to wait for the lock. */
  lemma DisablingIsSafeIff(x: Context, at: Instant)
    requires x.actor.canManage
    ensures DisablingIsSafe(x, at) <==> at <= x.dbNow
  {
    hide Execute, Recoverable, Consistent, TwoManagers, FirstOther;
    if at <= x.dbNow {
      forall s, id, auditId, first | Execute(s, x.(first := first), DisablePrincipal(id, auditId)).Success? && Recoverable(s, at)
        ensures Recoverable(Execute(s, x.(first := first), DisablePrincipal(id, auditId)).value, at)
      {
        ExecutionKeepsRecoverability(s, x.(first := first), DisablePrincipal(id, auditId), at);
      }
    } else {
      var y := x.(first := Some(2));
      TwoManagersLoseOne(y, x.dbNow, at, 0);
      ExamplesAreConsistent(x.dbNow, at);
      assert DisablePrincipal(1, 0) in [DisablePrincipal(1, 0), RevokeCredential(1, 1, 0)];
      assert !DisablingIsSafe(x, at);
    }
  }

  /** Revoking is safe at exactly the instants up to both clocks. */
  lemma RevocationIsSafeIff(x: Context, at: Instant)
    requires x.actor.canManage
    ensures RevocationIsSafe(x, at) <==> at <= x.now && at <= x.dbNow
  {
    hide Execute, Recoverable, Consistent, TwoManagers, TwoCredentials, FirstOther;
    if at <= x.now && at <= x.dbNow {
      forall s, id, credentialId, auditId, first
        | Execute(s, x.(first := first), RevokeCredential(id, credentialId, auditId)).Success? && Recoverable(s, at)
        ensures Recoverable(Execute(s, x.(first := first), RevokeCredential(id, credentialId, auditId)).value, at)
      {
        ExecutionKeepsRecoverability(s, x.(first := first), RevokeCredential(id, credentialId, auditId), at);
      }
    } else if at > x.dbNow {
      var y := x.(first := Some(2));
      TwoManagersLoseOne(y, x.dbNow, at, 0);
      ExamplesAreConsistent(x.dbNow, at);
      assert RevokeCredential(1, 1, 0) in [DisablePrincipal(1, 0), RevokeCredential(1, 1, 0)];
      assert !RevocationIsSafe(x, at);
    } else {
      var y := x.(first := None);
      TwoCredentialsLoseOne(y, x.now, at, 0);
      ExamplesAreConsistent(x.now, at);
      assert !RevocationIsSafe(x, at);
    }
  }

  /** When the database's clock is behind the service's, a disabling that is allowed can remove the last
      manager usable at the service's own instant. */
  lemma LaggingDatabaseClockLosesTheLastManager(x: Context, auditId: Uuid)
    requires x.dbNow < x.now && x.actor.canManage && x.first == Some(2)
    ensures var before, c := TwoManagers(x.dbNow, x.now), DisablePrincipal(1, auditId);
            && Consistent(before) && FirstOther(before, 1, x.first)
            && Execute(before, x, c).Success?
            && Recoverable(before, x.now) && !Recoverable(Execute(before, x, c).value, x.now)
  {
    hide Execute, Recoverable, Consistent, TwoManagers, FirstOther;
    TwoManagersLoseOne(x, x.dbNow, x.now, auditId);
    ExamplesAreConsistent(x.dbNow, x.now);
    assert DisablePrincipal(1, auditId) in [DisablePrincipal(1, auditId), RevokeCredential(1, 1, auditId)];
  }

  /** Transaction 1 begins with both clocks agreeing, then waits while transaction 0 holds the lock. */
  function WaitingRun(x: Context, later: Instant): seq<Event> {
    [Begin(0, x, DisablePrincipal(9, 0)), Lock(0), Begin(1, x, DisablePrincipal(1, 0)), Read(0),
     Lock(1), Read(1), ReadManagers(1, Some(2)), Commit(1, {})]
  }

  lemma HolderComesAndGoes(x: Context, later: Instant) returns (run: seq<State>)
    requires x.actor == Actor(1, true)
    ensures var db, other := TwoManagers(x.dbNow, later), Tx(x, DisablePrincipal(9, 0), Ended);
            && IsRun(run, WaitingRun(x, later)[..4])
            && run[0] == State(db, None, map[])
            && 1 in run[3].txs && !Enabled(run[3], Lock(1))
            && run[4] == State(db, None, map[0 := other, 1 := Tx(x, DisablePrincipal(1, 0), Begun)])
  {
    var db, c, d := TwoManagers(x.dbNow, later), DisablePrincipal(9, 0), DisablePrincipal(1, 0);
    assert 1 in db.principals && 9 !in db.principals;
    hide TwoManagers, Published, AfterReadManagers;
    var s0 := State(db, None, map[]);
    var s1 := State(db, None, map[0 := Tx(x, c, Begun)]);
    var s2 := State(db, Some(0), map[0 := Tx(x, c, Locked)]);
    var s3 := State(db, Some(0), map[0 := Tx(x, c, Locked), 1 := Tx(x, d, Begun)]);
    var s4 := State(db, None, map[0 := Tx(x, c, Ended), 1 := Tx(x, d, Begun)]);
    assert Apply(s0, Begin(0, x, c)) == s1;
    assert Apply(s1, Lock(0)) == s2;
    assert Apply(s2, Begin(1, x, d)) == s3;
    assert Apply(s3, Read(0)) == s4;
    run := [s0, s1, s2, s3, s4];
    assert WaitingRun(x, later)[..4] == [Begin(0, x, c), Lock(0), Begin(1, x, d), Read(0)];
    hide Apply, Enabled;
  }

  lemma WaiterCommits(s: State, x: Context, later: Instant) returns (t: seq<State>)
    requires x.actor == Actor(1, true) && x.dbNow < later && s.db == TwoManagers(x.dbNow, later) && s.holder.None?
    requires 1 in s.txs && s.txs[1] == Tx(x, DisablePrincipal(1, 0), Begun)
    ensures |t| == 5 && t[0] == s && t[3].db == s.db
    ensures var events := WaitingRun(x, later)[4..];
            forall i :: 0 <= i < 4 ==> Enabled(t[i], events[i]) && t[i + 1] == Apply(t[i], events[i])
    ensures 1 in t[4].txs && t[4].txs[1].phase.Committed?
    ensures t[4].db.principals == Disabled(s.db, 1, x.now).principals && t[4].db.credentials == s.db.credentials
  {
    hide PrincipalRecord;
    var p, c := s.db.principals[1], DisablePrincipal(1, 0);
    assert s.db.credentials[2].UsableAt(x.dbNow);
    assert HasRecoverableManager(s.db, 1, Some(2), x.dbNow);
    assert 1 in s.db.principals && p.Active() && p.canManage;
    hide RecoverableManager, TwoManagers, HasRecoverableManager;
    var t1 := Apply(s, Lock(1));
    assert t1.txs[1] == Tx(x, c, Locked) && t1.db == s.db;
    var t2 := Apply(t1, Read(1));
    assert t2.txs[1] == Tx(x, c, SawPrincipal(p)) && t2.db == s.db;
    var t3 := Apply(t2, ReadManagers(1, Some(2)));
    assert t3.txs[1] == Tx(x, c, Cleared(Some(p), None)) && t3.db == s.db;
    var t4 := Apply(t3, Commit(1, {}));
    t := [s, t1, t2, t3, t4];
    assert WaitingRun(x, later)[4..] == [Lock(1), Read(1), ReadManagers(1, Some(2)), Commit(1, {})];
  }

  /** Waiting for the lock is enough, with clocks that agree: both instants are read before the wait,
      the other manager's credential expires during it, and the commit leaves nobody who can manage
      principals from then on, although somebody could until that commit. */
  lemma WaitingForTheLockLosesTheLastManager(x: Context, later: Instant) returns (run: seq<State>)
    requires x.actor == Actor(1, true) && x.now == x.dbNow < later
    ensures IsRun(run, WaitingRun(x, later))
    ensures !Enabled(run[3], Lock(1)) && 1 in run[8].txs && run[8].txs[1].phase.Committed?
    ensures Recoverable(run[7].db, later) && !Recoverable(run[8].db, later)
  {
    var before := HolderComesAndGoes(x, later);
    var after := WaiterCommits(before[4], x, later);
    hide Apply, Enabled;
    run := before + after[1..];
    var events := WaitingRun(x, later);
    assert events[..4] + events[4..] == events;
    forall i | 0 <= i < 8
      ensures Enabled(run[i], events[i]) && run[i + 1] == Apply(run[i], events[i])
    {
      if i < 4 {
        assert events[i] == events[..4][i];
      } else {
        assert events[i] == events[4..][i - 4];
        assert run[i] == after[i - 4];
      }
    }
    OnlyTheFirstRemains(x, later);
    hide Recoverable;
    AuditsDoNotMatter(TwoManagers(x.dbNow, later), run[7].db, later);
    NobodyRemains(Disabled(TwoManagers(x.dbNow, later), 1, x.now), run[8].db, later);
  }

  lemma NobodyRemains(a: ManagementState, b: ManagementState, at: int)
    requires a.principals == b.principals && a.credentials == b.credentials && !Recoverable(a, at)
    ensures !Recoverable(b, at)
  {
    if Recoverable(b, at) {
      AuditsDoNotMatter(b, a, at);
    }
  }

  lemma OnlyTheFirstRemains(x: Context, later: Instant)
    requires x.dbNow < later
    ensures var db := TwoManagers(x.dbNow, later); Recoverable(db, later) && !Recoverable(Disabled(db, 1, x.now), later)
  {
    var db := TwoManagers(x.dbNow, later);
    assert db.credentials[1].UsableAt(later);
    assert RecoverableManager(db, 1, later);
  }

  // Bootstrap

  predicate Bootstraps(s: State, e: Event) {
    Enabled(s, e) && e.Commit? && s.txs[e.id].c.Bootstrap? && Published(s.db, s.txs[e.id], e.scopes).Success?
  }

  lemma BootstrapLeavesOneManager(db: ManagementState, t: Tx, scopes: set<Uuid>)
    requires CanCommit(t) && t.c.Bootstrap? && db.principals == map[] && Published(db, t, scopes).Success?
    ensures var after := Published(db, t, scopes).value;
            after.principals.Keys == {t.c.newPrincipal} && RecoverableManager(after, t.c.newPrincipal, t.x.now)
  {
    hide Collapse, NewPrincipal, NewCredential;
    var after := Published(db, t, scopes).value;
    assert t.c.newCredential in after.credentials && after.credentials[t.c.newCredential].UsableAt(t.x.now);
  }

  lemma BootstrapNeedsAnEmptyTable(s: State, e: Event)
    requires Inv(s) && Bootstraps(s, e)
    ensures s.db.principals == map[]
    ensures Apply(s, e).db.principals.Keys == {s.txs[e.id].c.newPrincipal}
    ensures Recoverable(Apply(s, e).db, s.txs[e.id].x.now)
  {
    HolderIsJustified(s, e.id);
    hide Inv, Knows, HoldsLock, RecoverableManager, Published;
    BootstrapLeavesOneManager(s.db, s.txs[e.id], e.scopes);
    assert Apply(s, e).db == Published(s.db, s.txs[e.id], e.scopes).value;
  }

  lemma {:induction false} PrincipalsAreNeverRemoved(run: seq<State>, events: seq<Event>, i: nat, j: nat)
    requires IsRun(run, events) && i <= j < |run|
    ensures run[i].db.principals.Keys <= run[j].db.principals.Keys
    decreases j
  {
    hide Published;
    if i < j {
      PrincipalsAreNeverRemoved(run, events, i, j - 1);
      var s, e := run[j - 1], events[j - 1];
      if e.Commit? && Published(s.db, s.txs[e.id], e.scopes).Success? {
        PrincipalsStay(s.db, s.txs[e.id], e.scopes);
      }
    }
  }

  /** Once any principal exists no bootstrap commits, so at most one ever does. */
  lemma BootstrapCommitsAtMostOnce(run: seq<State>, events: seq<Event>, i: nat, j: nat)
    requires IsRun(run, events) && i <= j < |events|
    ensures run[i].db.principals != map[] ==> !Bootstraps(run[j], events[j])
    ensures i < j && Bootstraps(run[i], events[i]) ==> !Bootstraps(run[j], events[j])
  {
    hide Apply, Enabled, Bootstraps, Inv;
    RunKeepsInv(run, events, i);
    RunKeepsInv(run, events, j);
    PrincipalsAreNeverRemoved(run, events, i, j);
    if Bootstraps(run[j], events[j]) {
      BootstrapNeedsAnEmptyTable(run[j], events[j]);
    }
    if i < j && Bootstraps(run[i], events[i]) {
      BootstrapNeedsAnEmptyTable(run[i], events[i]);
      PrincipalsAreNeverRemoved(run, events, i + 1, j);
      assert run[i + 1] == Apply(run[i], events[i]);
    }
  }

  // Records and terminal states

  lemma ChangesKeepAudits()
    ensures forall s, p :: AddPrincipal(s, p).Success? ==> AddPrincipal(s, p).value.audits == s.audits
    ensures forall s, c :: AddCredential(s, c).Success? ==> AddCredential(s, c).value.audits == s.audits
    ensures forall s, id, scopes :: ReplaceScopes(s, id, scopes).audits == s.audits
    ensures forall s, id, at :: Revoked(s, id, at).audits == s.audits && Disabled(s, id, at).audits == s.audits
  {
  }

  lemma RecordsNameTheirActor()
    ensures forall id, actor, action, before, after, now ::
              var r := PrincipalRecord(id, actor, action, before, after, now);
              r.auditId == id && r.actor == UuidText(actor.principalId)
    ensures forall id, actor, action, before, after, now ::
              var r := CredentialRecord(id, actor, action, before, after, now);
              r.auditId == id && r.actor == UuidText(actor.principalId)
  {
    hide UuidText, PrincipalText, CredentialText;
  }

  lemma PublishedRecord(db: ManagementState, t: Tx, scopes: set<Uuid>)
    requires CanCommit(t) && Published(db, t, scopes).Success?
    ensures var audits := Published(db, t, scopes).value.audits;
            if t.c.Bootstrap? then audits == db.audits
            else
              && |audits| == |db.audits| + 1 && audits[..|db.audits|] == db.audits
              && audits[|db.audits|].auditId == t.c.auditId && audits[|db.audits|].actor == UuidText(t.x.actor.principalId)
  {
    hide Collapse, NewPrincipal, NewCredential, AddPrincipal, AddCredential, ReplaceScopes, Revoked, Disabled, PrincipalRecord,
      CredentialRecord, UuidText;
    ChangesKeepAudits();
    RecordsNameTheirActor();
  }

  /** Every commit but bootstrap publishes exactly one record, of its own command; no other step
      publishes anything. */
  lemma CommitsAreRecordedOnce(s: State, e: Event)
    requires Enabled(s, e)
    ensures var before, after := s.db, Apply(s, e).db;
            if e.Commit? && Published(s.db, s.txs[e.id], e.scopes).Success? && !s.txs[e.id].c.Bootstrap? then
              && |after.audits| == |before.audits| + 1 && after.audits[..|before.audits|] == before.audits
              && after.audits[|before.audits|].auditId == s.txs[e.id].c.auditId
              && after.audits[|before.audits|].actor == UuidText(s.txs[e.id].x.actor.principalId)
            else after.audits == before.audits
    ensures !e.Commit? ==> Apply(s, e).db == s.db
  {
    hide Published, UuidText;
    if e.Commit? && Published(s.db, s.txs[e.id], e.scopes).Success? {
      PublishedRecord(s.db, s.txs[e.id], e.scopes);
    }
  }

  /** The ends recorded in `a` are the same in `b`. */
  predicate KeepsEnds(a: ManagementState, b: ManagementState, id: Uuid) {
    && (id in a.principals && a.principals[id].disabledAt.Some? ==>
          id in b.principals && b.principals[id].disabledAt == a.principals[id].disabledAt)
    && (id in a.credentials && a.credentials[id].revokedAt.Some? ==>
          id in b.credentials && b.credentials[id] == a.credentials[id])
  }

  lemma RemovalsKeepEnds(db: ManagementState, t: Tx, scopes: set<Uuid>, id: Uuid)
    requires CanCommit(t) && NeedsLock(t.c) && !t.c.Bootstrap? && Justified(db, t.x, t.c)
    requires Published(db, t, scopes).Success?
    ensures KeepsEnds(db, Published(db, t, scopes).value, id)
  {
    hide PrincipalRecord, CredentialRecord, OtherManager, OwnUsable;
  }

  lemma BootstrapKeepsEnds(db: ManagementState, t: Tx, scopes: set<Uuid>, id: Uuid)
    requires CanCommit(t) && t.c.Bootstrap? && Justified(db, t.x, t.c)
    requires Published(db, t, scopes).Success?
    ensures KeepsEnds(db, Published(db, t, scopes).value, id)
  {
    hide Collapse, NewPrincipal, NewCredential;
  }

  /** A disabled principal and a revoked credential keep the time at which they ended. */
  lemma TerminalStatesLast(s: State, e: Event, id: Uuid)
    requires Inv(s) && Enabled(s, e)
    ensures KeepsEnds(s.db, Apply(s, e).db, id)
  {
    hide Published, Knows;
    if e.Commit? && Published(s.db, s.txs[e.id], e.scopes).Success? {
      if NeedsLock(s.txs[e.id].c) {
        HolderIsJustified(s, e.id);
        hide Inv, KeepsEnds, Justified;
        if s.txs[e.id].c.Bootstrap? {
          BootstrapKeepsEnds(s.db, s.txs[e.id], e.scopes, id);
        } else {
          RemovalsKeepEnds(s.db, s.txs[e.id], e.scopes, id);
        }
      } else {
        LockFreeCommitsOnlyAdd(s.db, s.txs[e.id], e.scopes);
      }
    }
  }

  // One transaction alone

  predicate Finished(t: Tx) {
    t.phase.Committed? || t.phase.Ended?
  }

  /** The only thing a transaction that is not interrupted can do next. */
  function NextEvent(t: Tx, id: nat): Event {
    if NeedsLock(t.c) && t.phase.Begun? then Lock(id)
    else if CanReadManagers(t) then ReadManagers(id, t.x.first)
    else if CanRead(t) then Read(id)
    else if CanCommit(t) then Commit(id, if t.c.SetScopes? then t.c.tenantIds else {})
    else Abort(id)
  }

  function Alone(s: State, id: nat, steps: nat): State
    requires id in s.txs
    decreases steps
  {
    if steps == 0 || Finished(s.txs[id]) || !Enabled(s, NextEvent(s.txs[id], id)) then s
    else Alone(Apply(s, NextEvent(s.txs[id], id)), id, steps - 1)
  }

  lemma AloneStep(s: State, id: nat, e: Event, steps: nat)
    requires id in s.txs && !Finished(s.txs[id]) && e == NextEvent(s.txs[id], id) && Enabled(s, e)
    ensures id in Apply(s, e).txs && Alone(s, id, steps + 1) == Alone(Apply(s, e), id, steps)
    ensures Finished(Apply(s, e).txs[id]) ==> Alone(s, id, steps + 1) == Apply(s, e)
  {
    hide AfterRead, AfterReadManagers, Published;
  }

  /** How the run of one transaction ended, compared with its specification. */
  ghost predicate Executes(db: ManagementState, x: Context, c: Command, id: nat, t: State) {
    && id in t.txs && Finished(t.txs[id]) && t.holder.None?
    && var r := Execute(db, x, c);
       && (t.txs[id].phase.Committed? <==> r.Success?)
       && t.db == if r.Success? then r.value else db
  }

  /** The state in which this transaction, and no other, holds the lock. */
  function LockedAlone(s: State, id: nat, t: Tx): State {
    s.(txs := s.txs[id := t], holder := Some(id))
  }

  lemma LocksFirst(s: State, id: nat, x: Context, c: Command)
    requires s.holder.None? && id !in s.txs && MayBegin(s.db, x, c) && NeedsLock(c)
    ensures Alone(Apply(s, Begin(id, x, c)), id, 6) == Alone(LockedAlone(s, id, Tx(x, c, Locked)), id, 5)
  {
    hide Alone, MayBegin;
    var s1 := Apply(s, Begin(id, x, c));
    AloneStep(s1, id, Lock(id), 5);
    assert Apply(s1, Lock(id)) == LockedAlone(s, id, Tx(x, c, Locked));
  }

  /** One read under the lock: it moves on, or it ends the transaction and changes nothing. */
  lemma ReadAlone(s: State, id: nat, t: Tx, n: nat)
    requires NeedsLock(t.c) && CanRead(t)
    ensures var phase, after := AfterRead(s.db, t), Alone(LockedAlone(s, id, t), id, n + 1);
            if phase.Ended? then id in after.txs && after.txs[id].phase.Ended? && after.holder.None? && after.db == s.db
            else after == Alone(LockedAlone(s, id, t.(phase := phase)), id, n)
  {
    hide Alone, AfterRead, Published;
    var s1 := LockedAlone(s, id, t);
    AloneStep(s1, id, Read(id), n);
    assert AfterRead(s.db, t).Committed? ==> false by {
      ReadsDoNotCommit(s.db, t);
    }
    assert !AfterRead(s.db, t).Ended? ==> Apply(s1, Read(id)) == LockedAlone(s, id, t.(phase := AfterRead(s.db, t)));
  }

  lemma ReadsDoNotCommit(db: ManagementState, t: Tx)
    requires CanRead(t)
    ensures !AfterRead(db, t).Committed?
  {
    hide OwnUsable;
  }

  lemma ReadManagersAlone(s: State, id: nat, t: Tx, n: nat)
    requires CanReadManagers(t)
    ensures var phase, after := AfterReadManagers(s.db, t, t.x.first), Alone(LockedAlone(s, id, t), id, n + 1);
            if phase.Ended? then id in after.txs && after.txs[id].phase.Ended? && after.holder.None? && after.db == s.db
            else after == Alone(LockedAlone(s, id, t.(phase := phase)), id, n)
  {
    hide Alone, HasRecoverableManager, Published, CanRead, AfterRead;
    var s1 := LockedAlone(s, id, t);
    AloneStep(s1, id, ReadManagers(id, t.x.first), n);
    var phase := AfterReadManagers(s.db, t, t.x.first);
    assert !phase.Ended? ==> Apply(s1, ReadManagers(id, t.x.first)) == LockedAlone(s, id, t.(phase := phase));
  }

  lemma CommitAlone(s: State, id: nat, t: Tx, n: nat)
    requires NeedsLock(t.c) && t.phase.Cleared?
    ensures var r, after := Published(s.db, t, {}), Alone(LockedAlone(s, id, t), id, n + 1);
            && id in after.txs && after.txs[id].phase == (if r.Success? then Committed else Ended) && after.holder.None?
            && after.db == if r.Success? then r.value else s.db
  {
    hide Alone, Published, AfterRead;
    AloneStep(LockedAlone(s, id, t), id, Commit(id, {}), n);
  }

  lemma BootstrapAlone(s: State, id: nat, x: Context, c: Command)
    requires s.holder.None? && id !in s.txs && MayBegin(s.db, x, c) && c.Bootstrap?
    ensures Executes(s.db, x, c, id, Alone(Apply(s, Begin(id, x, c)), id, 6))
  {
    LocksFirst(s, id, x, c);
    ReadAlone(s, id, Tx(x, c, Locked), 4);
    CommitAlone(s, id, Tx(x, c, Cleared(None, None)), 3);
    BootstrapPublishes(s.db, x, c);
    hide Alone, Apply, Enabled, LockedAlone, Published, Execute, MayBegin;
  }

  lemma BootstrapPublishes(db: ManagementState, x: Context, c: Command)
    requires c.Bootstrap? && MayBegin(db, x, c)
    ensures if |db.principals| == 0 then Published(db, Tx(x, c, Cleared(None, None)), {}) == Execute(db, x, c)
            else Execute(db, x, c).Failure?
  {
    hide Collapse, NewPrincipal, NewCredential, AddPrincipal, AddCredential;
  }

  lemma DisableAlone(s: State, id: nat, x: Context, c: Command)
    requires s.holder.None? && id !in s.txs && MayBegin(s.db, x, c) && c.DisablePrincipal?
    ensures Executes(s.db, x, c, id, Alone(Apply(s, Begin(id, x, c)), id, 6))
  {
    hide Alone, Apply, Enabled, LockedAlone, HasRecoverableManager, PrincipalRecord, Disabled;
    LocksFirst(s, id, x, c);
    ReadAlone(s, id, Tx(x, c, Locked), 4);
    if c.principalId in s.db.principals && s.db.principals[c.principalId].Active() {
      var p := s.db.principals[c.principalId];
      var cleared := Tx(x, c, Cleared(Some(p), None));
      CommitAlone(s, id, cleared, 3);
      if p.canManage {
        ReadManagersAlone(s, id, Tx(x, c, SawPrincipal(p)), 3);
        CommitAlone(s, id, cleared, 2);
      }
    }
  }

  lemma RevokeAlone(s: State, id: nat, x: Context, c: Command)
    requires s.holder.None? && id !in s.txs && MayBegin(s.db, x, c) && c.RevokeCredential?
    ensures Executes(s.db, x, c, id, Alone(Apply(s, Begin(id, x, c)), id, 6))
  {
    hide Alone, Apply, Enabled, LockedAlone, HasRecoverableManager, OwnUsable, CredentialRecord, Revoked;
    LocksFirst(s, id, x, c);
    ReadAlone(s, id, Tx(x, c, Locked), 4);
    if c.principalId in s.db.principals {
      ReadAlone(s, id, Tx(x, c, SawPrincipal(s.db.principals[c.principalId])), 3);
      if c.credentialId in s.db.credentials {
        RevokeAloneFrom(s, id, x, c, s.db.principals[c.principalId], s.db.credentials[c.credentialId]);
      }
    }
  }

  /** From the two rows it read, a revocation checks the managers if it must, and commits. */
  lemma RevokeAloneFrom(s: State, id: nat, x: Context, c: Command, p: Principal, credential: Credential)
    requires c.RevokeCredential?
    ensures var t := Tx(x, c, Cleared(Some(p), Some(credential)));
            var r, direct := Published(s.db, t, {}), Alone(LockedAlone(s, id, t), id, 3);
            && id in direct.txs && direct.txs[id].phase == (if r.Success? then Committed else Ended) && direct.holder.None?
            && direct.db == if r.Success? then r.value else s.db
    ensures var t, r := Tx(x, c, SawCredential(p, credential)), Published(s.db, Tx(x, c, Cleared(Some(p), Some(credential))), {});
            var refused := !HasRecoverableManager(s.db, c.principalId, x.first, x.dbNow)
                           && OwnUsable(s.db, c.principalId, c.credentialId, x.now) == {};
            var checked := Alone(LockedAlone(s, id, t), id, 3);
            && id in checked.txs && checked.holder.None?
            && checked.txs[id].phase == (if !refused && r.Success? then Committed else Ended)
            && checked.db == if !refused && r.Success? then r.value else s.db
  {
    hide Alone, LockedAlone, HasRecoverableManager, OwnUsable, Published;
    var t := Tx(x, c, SawCredential(p, credential));
    var cleared := Tx(x, c, Cleared(Some(p), Some(credential)));
    CommitAlone(s, id, cleared, 2);
    CommitAlone(s, id, cleared, 0);
    ReadManagersAlone(s, id, t, 2);
    ReadAlone(s, id, t.(phase := AfterReadManagers(s.db, t, x.first)), 1);
  }

  lemma CreateAlone(s: State, id: nat, x: Context, c: Command)
    requires s.holder.None? && id !in s.txs && MayBegin(s.db, x, c) && c.CreatePrincipal?
    ensures Executes(s.db, x, c, id, Alone(Apply(s, Begin(id, x, c)), id, 6))
  {
    hide Alone, Published, Execute, MayBegin;
    CreatePublishes(s.db, x, c);
    assert Apply(s, Begin(id, x, c)) == s.(txs := s.txs[id := Tx(x, c, Begun)]);
    hide Apply, Enabled;
    LockFreeCommits(s, id, Tx(x, c, Begun), {}, 5);
  }

  lemma CreatePublishes(db: ManagementState, x: Context, c: Command)
    requires c.CreatePrincipal? && MayBegin(db, x, c)
    ensures Published(db, Tx(x, c, Begun), {}) == Execute(db, x, c)
  {
    hide Collapse, NewPrincipal, AddPrincipal, PrincipalRecord;
  }

  /** Committing, when nothing is locked. */
  lemma LockFreeCommits(s: State, id: nat, t: Tx, scopes: set<Uuid>, n: nat)
    requires s.holder.None? && CanCommit(t) && !NeedsLock(t.c)
    requires scopes == if t.c.SetScopes? then t.c.tenantIds else {}
    ensures var r, after := Published(s.db, t, scopes), Alone(s.(txs := s.txs[id := t]), id, n + 1);
            && id in after.txs && after.txs[id].phase == (if r.Success? then Committed else Ended) && after.holder.None?
            && after.db == if r.Success? then r.value else s.db
  {
    hide Alone, Published, AfterRead;
    AloneStep(s.(txs := s.txs[id := t]), id, Commit(id, scopes), n);
  }

  lemma ReadersAlone(s: State, id: nat, x: Context, c: Command)
    requires s.holder.None? && id !in s.txs && MayBegin(s.db, x, c) && (c.IssueCredential? || c.SetScopes?)
    ensures Executes(s.db, x, c, id, Alone(Apply(s, Begin(id, x, c)), id, 6))
  {
    hide Alone, NewCredential, PrincipalRecord, CredentialRecord, AddCredential, ReplaceScopes;
    var s1 := Apply(s, Begin(id, x, c));
    AloneStep(s1, id, Read(id), 5);
    if c.principalId in s.db.principals && (c.IssueCredential? ==> s.db.principals[c.principalId].Active()) {
      var t := Tx(x, c, SawPrincipal(s.db.principals[c.principalId]));
      assert Apply(s1, Read(id)) == s.(txs := s.txs[id := t]);
      LockFreeCommits(s, id, t, if c.SetScopes? then c.tenantIds else {}, 4);
    }
  }

  /** Whatever would succeed may begin; the actor of all but a bootstrap is an authenticated principal. */
  lemma SuccessMayBegin(db: ManagementState, x: Context, c: Command)
    requires c.Bootstrap? || x.actor.principalId in db.principals
    ensures Execute(db, x, c).Success? ==> MayBegin(db, x, c)
  {
    hide Collapse, NewPrincipal, NewCredential, AddPrincipal, AddCredential, HasRecoverableManager, OwnUsable;
  }

  /** Without interleaving, the protocol does exactly what the command specifies. */
  lemma AloneExecutes(s: State, id: nat, x: Context, c: Command)
    requires s.holder.None? && id !in s.txs && (c.Bootstrap? || x.actor.principalId in s.db.principals)
    ensures if Enabled(s, Begin(id, x, c)) then Executes(s.db, x, c, id, Alone(Apply(s, Begin(id, x, c)), id, 6))
            else Execute(s.db, x, c).Failure?
  {
    SuccessMayBegin(s.db, x, c);
    hide Execute;
    if !Enabled(s, Begin(id, x, c)) {
      return;
    }
    assert MayBegin(s.db, x, c);
    hide Executes, Alone, MayBegin, Apply, Enabled;
    if c.Bootstrap? {
      BootstrapAlone(s, id, x, c);
    } else if c.RevokeCredential? {
      RevokeAlone(s, id, x, c);
    } else if c.DisablePrincipal? {
      DisableAlone(s, id, x, c);
    } else if c.CreatePrincipal? {
      CreateAlone(s, id, x, c);
    } else {
      ReadersAlone(s, id, x, c);
    }
  }
}
