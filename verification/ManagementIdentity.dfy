/**
 Management principals and credentials, and the six commands over them. A command is one
 transaction: what it reads decides whether it changes anything, and it changes it as a whole.
 */
module ManagementIdentity {
  import opened Wrappers
  import opened Text
  import opened Uuids
  import opened Instants
  import opened Fingerprints
  import opened AuditChain

  const MAX_NAME_LENGTH := 100

  datatype Principal = Principal(
    principalId: Uuid, displayName: string, canManage: bool, tenantIds: set<Uuid>, createdAt: Instant,
    disabledAt: Option<Instant>)
  {
    predicate Active() {
      disabledAt.None?
    }

    predicate Valid() {
      displayName != "" && |displayName| <= MAX_NAME_LENGTH && Collapse(displayName) == displayName
    }
  }

  datatype Credential = Credential(
    credentialId: Uuid, principalId: Uuid, title: Option<string>, createdAt: Instant, expiresAt: Option<Instant>,
    revokedAt: Option<Instant>)
  {
    predicate UsableAt(at: int) {
      revokedAt.None? && (expiresAt.None? || at < expiresAt.value)
    }

    predicate Valid() {
      && (title.Some? ==> title.value != "" && |title.value| <= MAX_NAME_LENGTH && Collapse(title.value) == title.value)
      && (expiresAt.Some? ==> createdAt < expiresAt.value)
    }
  }

  datatype ManagementState = ManagementState(
    principals: map<Uuid, Principal>, credentials: map<Uuid, Credential>, audits: seq<AuditRecord>)

  datatype ManagementError =
    | BootstrapAuthenticationFailed | BootstrapAlreadyCompleted | PrincipalManagementDenied | InvalidCommand
    | PrincipalNotFound | CredentialNotFound | LastPrincipalManager | IntegrityFailure | Interrupted

  datatype Actor = Actor(principalId: Uuid, canManage: bool)

  /** Who asks, the service's clock, the database's transaction start, the principal row that the
      database scans first among the others, and the Tenants that exist. */
  datatype Context = Context(actor: Actor, now: Instant, dbNow: Instant, first: Option<Uuid>, tenants: set<Uuid>)

  /** The six commands; identifiers that the service generates are part of the command. */
  datatype Command =
    | Bootstrap(tokenMatches: bool, displayName: string, tenantIds: set<Uuid>, newPrincipal: Uuid, newCredential: Uuid)
    | CreatePrincipal(displayName: string, canManage: bool, tenantIds: set<Uuid>, newPrincipal: Uuid, auditId: Uuid)
    | IssueCredential(principalId: Uuid, title: Option<string>, expiresAt: Option<Instant>, newCredential: Uuid, auditId: Uuid)
    | SetScopes(principalId: Uuid, tenantIds: set<Uuid>, auditId: Uuid)
    | RevokeCredential(principalId: Uuid, credentialId: Uuid, auditId: Uuid)
    | DisablePrincipal(principalId: Uuid, auditId: Uuid)

  // Construction

  function NewPrincipal(id: Uuid, displayName: string, canManage: bool, tenantIds: set<Uuid>, now: Instant)
    : (r: Result<Principal, ManagementError>)
    ensures r.Success? <==> 0 < |Collapse(displayName)| <= MAX_NAME_LENGTH
    ensures r.Success? ==> r.value == Principal(id, Collapse(displayName), canManage, tenantIds, now, None) && r.value.Valid()
    ensures r.Failure? ==> r.error == InvalidCommand
  {
    hide Collapse;
    var name := Collapse(displayName);
    CollapseIsCanonical(displayName);
    if name == "" || |name| > MAX_NAME_LENGTH then Failure(InvalidCommand)
    else Success(Principal(id, name, canManage, tenantIds, now, None))
  }

  function NormalizedTitle(title: Option<string>): (r: Option<string>)
    ensures r.Some? ==> r.value != "" && Collapse(r.value) == r.value
    ensures r.Some? <==> title.Some? && Collapse(title.value) != ""
    ensures r.Some? ==> r.value == Collapse(title.value)
  {
    hide Collapse;
    if title.None? then None
    else
      CollapseIsCanonical(title.value);
      if Collapse(title.value) == "" then None else Some(Collapse(title.value))
  }

  function NewCredential(id: Uuid, principalId: Uuid, title: Option<string>, expiresAt: Option<Instant>, now: Instant)
    : (r: Result<Credential, ManagementError>)
    ensures r.Success? <==>
              && (title.Some? ==> |Collapse(title.value)| <= MAX_NAME_LENGTH)
              && (expiresAt.Some? ==> now < expiresAt.value)
    ensures r.Success? ==>
              && r.value.Valid() && r.value.revokedAt.None? && r.value.createdAt == now && r.value.expiresAt == expiresAt
              && r.value.credentialId == id && r.value.principalId == principalId
              && (r.value.title.Some? <==> title.Some? && Collapse(title.value) != "")
              && (r.value.title.Some? ==> r.value.title == Some(Collapse(title.value)))
    ensures r.Failure? ==> r.error == InvalidCommand
  {
    hide Collapse, NormalizedTitle;
    var normalized := NormalizedTitle(title);
    if normalized.Some? && |normalized.value| > MAX_NAME_LENGTH then Failure(InvalidCommand)
    else if expiresAt.Some? && expiresAt.value <= now then Failure(InvalidCommand)
    else Success(Credential(id, principalId, normalized, now, expiresAt, None))
  }

  /** Rows sit under their own keys, hold constructed values, and credentials have their principal. */
  ghost predicate Consistent(s: ManagementState) {
    && (forall id :: id in s.principals ==> s.principals[id].principalId == id && s.principals[id].Valid())
    && (forall id :: id in s.credentials ==>
          && s.credentials[id].credentialId == id && s.credentials[id].Valid()
          && s.credentials[id].principalId in s.principals)
  }

  // Queries

  /** This principal is an active manager with a usable credential. */
  predicate RecoverableManager(s: ManagementState, principalId: Uuid, at: int) {
    && principalId in s.principals && s.principals[principalId].Active() && s.principals[principalId].canManage
    && exists id :: id in s.credentials && s.credentials[id].principalId == principalId && s.credentials[id].UsableAt(at)
  }

  /** Someone can still manage principals. */
  ghost predicate Recoverable(s: ManagementState, at: int) {
    exists id :: RecoverableManager(s, id, at)
  }

  /** The EXISTS is correlated with the principal row of the enclosing query, whose first row
      decides the answer: the exclusion selects rows, it does not restrict the EXISTS. */
  predicate HasRecoverableManager(s: ManagementState, excluding: Uuid, first: Option<Uuid>, dbNow: int) {
    && first.Some? && first.value != excluding
    && RecoverableManager(s, first.value, dbNow)
  }

  /** The row a scan of the other principals may meet first, or none when there is no other. */
  predicate FirstOther(s: ManagementState, excluding: Uuid, first: Option<Uuid>) {
    if first.Some? then first.value in s.principals && first.value != excluding
    else forall id :: id in s.principals ==> id == excluding
  }

  /** Right for every scan order exactly when the other principals agree on the answer. */
  lemma RecoveryCheckIsExactIff(s: ManagementState, excluding: Uuid, dbNow: int)
    ensures (forall first :: FirstOther(s, excluding, first) ==>
               (HasRecoverableManager(s, excluding, first, dbNow) <==>
                exists other :: other != excluding && RecoverableManager(s, other, dbNow)))
            <==> (forall a, b :: a in s.principals && b in s.principals && a != excluding && b != excluding ==>
                    (RecoverableManager(s, a, dbNow) <==> RecoverableManager(s, b, dbNow)))
  {
    hide RecoverableManager;
    if forall first :: FirstOther(s, excluding, first) ==>
         (HasRecoverableManager(s, excluding, first, dbNow) <==>
          exists other :: other != excluding && RecoverableManager(s, other, dbNow)) {
      forall a, b | a in s.principals && b in s.principals && a != excluding && b != excluding
        ensures RecoverableManager(s, a, dbNow) <==> RecoverableManager(s, b, dbNow)
      {
        assert FirstOther(s, excluding, Some(a)) && FirstOther(s, excluding, Some(b));
        assert HasRecoverableManager(s, excluding, Some(a), dbNow) <==> HasRecoverableManager(s, excluding, Some(b), dbNow);
      }
    } else {
      var first :| FirstOther(s, excluding, first)
        && !(HasRecoverableManager(s, excluding, first, dbNow) <==>
             exists other :: other != excluding && RecoverableManager(s, other, dbNow));
      assert !HasRecoverableManager(s, excluding, first, dbNow);
      var other :| other != excluding && RecoverableManager(s, other, dbNow);
      ManagersAreStored(s, other, dbNow);
      assert first.Some? && !RecoverableManager(s, first.value, dbNow);
    }
  }

  lemma ManagersAreStored(s: ManagementState, id: Uuid, at: int)
    requires RecoverableManager(s, id, at)
    ensures id in s.principals
  {
  }

  /** Credentials of this principal, other than the given one, that are usable at the instant. */
  function OwnUsable(s: ManagementState, principalId: Uuid, except: Uuid, at: int): set<Uuid> {
    set id | id in s.credentials && s.credentials[id].principalId == principalId && id != except
             && s.credentials[id].UsableAt(at)
  }

  // Changes

  function AddPrincipal(s: ManagementState, p: Principal): Result<ManagementState, ManagementError> {
    if p.principalId in s.principals then Failure(IntegrityFailure)
    else Success(s.(principals := s.principals[p.principalId := p]))
  }

  function AddCredential(s: ManagementState, c: Credential): Result<ManagementState, ManagementError> {
    if c.credentialId in s.credentials || c.principalId !in s.principals then Failure(IntegrityFailure)
    else Success(s.(credentials := s.credentials[c.credentialId := c]))
  }

  /** UPDATE of the scopes, the disabling time or the revocation time; no row, no effect. */
  function ReplaceScopes(s: ManagementState, id: Uuid, tenantIds: set<Uuid>): ManagementState {
    if id in s.principals then s.(principals := s.principals[id := s.principals[id].(tenantIds := tenantIds)]) else s
  }

  function Disabled(s: ManagementState, id: Uuid, at: Instant): ManagementState {
    if id in s.principals then s.(principals := s.principals[id := s.principals[id].(disabledAt := Some(at))]) else s
  }

  function Revoked(s: ManagementState, id: Uuid, at: Instant): ManagementState {
    if id in s.credentials then s.(credentials := s.credentials[id := s.credentials[id].(revokedAt := Some(at))]) else s
  }

  function Audited(s: ManagementState, record: AuditRecord): ManagementState {
    s.(audits := s.audits + [record])
  }

  // Fingerprints

  function PrincipalFacts(p: Principal): ManagementPrincipalFacts {
    ManagementPrincipalFacts(p.principalId, p.displayName, p.tenantIds, p.canManage, !p.Active())
  }

  function CredentialFacts(c: Credential): ManagementCredentialFacts {
    ManagementCredentialFacts(c.credentialId, c.principalId, c.title, InstantText(c.createdAt),
                              if c.expiresAt.None? then None else Some(InstantText(c.expiresAt.value)),
                              c.revokedAt.Some?)
  }

  function PrincipalText(p: Principal): string {
    ManagementPrincipalCanonical(PrincipalFacts(p))
  }

  function CredentialText(c: Credential): string {
    ManagementCredentialCanonical(CredentialFacts(c))
  }

  function PrincipalRecord(auditId: Uuid, actor: Actor, action: AuditAction, before: Option<Principal>, after: Principal,
                           now: Instant)
    : AuditRecord
  {
    AuditRecord(auditId, UuidText(actor.principalId), None, action, Resource(MANAGEMENT_PRINCIPAL, after.principalId), now,
                if before.None? then None else Some(PrincipalText(before.value)), PrincipalText(after))
  }

  function CredentialRecord(auditId: Uuid, actor: Actor, action: AuditAction, before: Option<Credential>, after: Credential,
                            now: Instant)
    : AuditRecord
  {
    AuditRecord(auditId, UuidText(actor.principalId), None, action, Resource(MANAGEMENT_CREDENTIAL, after.credentialId), now,
                if before.None? then None else Some(CredentialText(before.value)), CredentialText(after))
  }

  // The commands, when nothing else runs between their statements

  function ExecuteBootstrap(s: ManagementState, x: Context, c: Command): Result<ManagementState, ManagementError>
    requires c.Bootstrap?
  {
    if !c.tokenMatches then Failure(BootstrapAuthenticationFailed)
    else if |s.principals| != 0 then Failure(BootstrapAlreadyCompleted)
    else if !(c.tenantIds <= x.tenants) then Failure(InvalidCommand)
    else
      var p :- NewPrincipal(c.newPrincipal, c.displayName, true, c.tenantIds, x.now);
      var issued :- NewCredential(c.newCredential, p.principalId, Some("bootstrap"), None, x.now);
      var added :- AddPrincipal(s, p);
      AddCredential(added, issued)
  }

  function ExecuteCreate(s: ManagementState, x: Context, c: Command): Result<ManagementState, ManagementError>
    requires c.CreatePrincipal?
  {
    if !x.actor.canManage then Failure(PrincipalManagementDenied)
    else if !(c.tenantIds <= x.tenants) then Failure(InvalidCommand)
    else
      var p :- NewPrincipal(c.newPrincipal, c.displayName, c.canManage, c.tenantIds, x.now);
      var added :- AddPrincipal(s, p);
      Success(Audited(added, PrincipalRecord(c.auditId, x.actor, MANAGEMENT_PRINCIPAL_CREATED, None, p, x.now)))
  }

  function ExecuteIssue(s: ManagementState, x: Context, c: Command): Result<ManagementState, ManagementError>
    requires c.IssueCredential?
  {
    if !x.actor.canManage then Failure(PrincipalManagementDenied)
    else if c.expiresAt.Some? && c.expiresAt.value <= x.now then Failure(InvalidCommand)
    else if c.principalId !in s.principals || !s.principals[c.principalId].Active() then Failure(PrincipalNotFound)
    else
      var issued :- NewCredential(c.newCredential, c.principalId, c.title, c.expiresAt, x.now);
      var added :- AddCredential(s, issued);
      Success(Audited(added, CredentialRecord(c.auditId, x.actor, MANAGEMENT_CREDENTIAL_ISSUED, None, issued, x.now)))
  }

  function ExecuteSetScopes(s: ManagementState, x: Context, c: Command): Result<ManagementState, ManagementError>
    requires c.SetScopes?
  {
    if !x.actor.canManage then Failure(PrincipalManagementDenied)
    else if c.principalId !in s.principals then Failure(PrincipalNotFound)
    else if !(c.tenantIds <= x.tenants) then Failure(InvalidCommand)
    else
      var p := s.principals[c.principalId];
      Success(Audited(ReplaceScopes(s, c.principalId, c.tenantIds),
                      PrincipalRecord(c.auditId, x.actor, MANAGEMENT_PRINCIPAL_SCOPES_SET, Some(p),
                                      p.(tenantIds := c.tenantIds), x.now)))
  }

  /** Revoking the last usable credential of the last recoverable manager is refused. */
  function ExecuteRevoke(s: ManagementState, x: Context, c: Command): Result<ManagementState, ManagementError>
    requires c.RevokeCredential?
  {
    if !x.actor.canManage then Failure(PrincipalManagementDenied)
    else if c.principalId !in s.principals then Failure(PrincipalNotFound)
    else if c.credentialId !in s.credentials || s.credentials[c.credentialId].principalId != c.principalId
            || s.credentials[c.credentialId].revokedAt.Some? then Failure(CredentialNotFound)
    else
      var p, credential := s.principals[c.principalId], s.credentials[c.credentialId];
      if p.Active() && p.canManage && !HasRecoverableManager(s, c.principalId, x.first, x.dbNow)
         && OwnUsable(s, c.principalId, c.credentialId, x.now) == {} then Failure(LastPrincipalManager)
      else
        Success(Audited(Revoked(s, c.credentialId, x.now),
                        CredentialRecord(c.auditId, x.actor, MANAGEMENT_CREDENTIAL_REVOKED, Some(credential),
                                         credential.(revokedAt := Some(x.now)), x.now)))
  }

  function ExecuteDisable(s: ManagementState, x: Context, c: Command): Result<ManagementState, ManagementError>
    requires c.DisablePrincipal?
  {
    if !x.actor.canManage then Failure(PrincipalManagementDenied)
    else if c.principalId !in s.principals || !s.principals[c.principalId].Active() then Failure(PrincipalNotFound)
    else
      var p := s.principals[c.principalId];
      if p.canManage && !HasRecoverableManager(s, c.principalId, x.first, x.dbNow) then Failure(LastPrincipalManager)
      else
        Success(Audited(Disabled(s, c.principalId, x.now),
                        PrincipalRecord(c.auditId, x.actor, MANAGEMENT_PRINCIPAL_DISABLED, Some(p),
                                        p.(disabledAt := Some(x.now)), x.now)))
  }

  function Execute(s: ManagementState, x: Context, c: Command): Result<ManagementState, ManagementError> {
    match c
    case Bootstrap(_, _, _, _, _) => ExecuteBootstrap(s, x, c)
    case CreatePrincipal(_, _, _, _, _) => ExecuteCreate(s, x, c)
    case IssueCredential(_, _, _, _, _) => ExecuteIssue(s, x, c)
    case SetScopes(_, _, _) => ExecuteSetScopes(s, x, c)
    case RevokeCredential(_, _, _) => ExecuteRevoke(s, x, c)
    case DisablePrincipal(_, _) => ExecuteDisable(s, x, c)
  }

  // What a command does, row by row

  /** Rows other than these are the same before and after. */
  predicate SameElsewhere(a: ManagementState, b: ManagementState, principals: set<Uuid>, credentials: set<Uuid>) {
    && a.principals.Keys <= b.principals.Keys <= a.principals.Keys + principals
    && a.credentials.Keys <= b.credentials.Keys <= a.credentials.Keys + credentials
    && (forall id :: id in a.principals && id !in principals ==> b.principals[id] == a.principals[id])
    && (forall id :: id in a.credentials && id !in credentials ==> b.credentials[id] == a.credentials[id])
  }

  /** A creation adds one active principal and changes no other row. */
  lemma CreationEffects(s: ManagementState, x: Context, c: Command)
    requires c.CreatePrincipal? && Execute(s, x, c).Success?
    ensures var t := Execute(s, x, c).value;
            && c.newPrincipal !in s.principals && c.newPrincipal in t.principals && c.tenantIds <= x.tenants
            && SameElsewhere(s, t, {c.newPrincipal}, {}) && t.credentials == s.credentials
            && t.principals[c.newPrincipal] ==
               Principal(c.newPrincipal, Collapse(c.displayName), c.canManage, c.tenantIds, x.now, None)
            && t.principals[c.newPrincipal].Valid()
  {
    hide PrincipalRecord, Collapse, NewPrincipal;
  }

  /** A bootstrap fills an empty table with one active manager and one credential of it, usable at
      every instant. */
  lemma BootstrapEffects(s: ManagementState, x: Context, c: Command)
    requires c.Bootstrap? && Execute(s, x, c).Success?
    ensures var t := Execute(s, x, c).value;
            && s.principals == map[] && t.principals.Keys == {c.newPrincipal} && c.tenantIds <= x.tenants
            && SameElsewhere(s, t, {c.newPrincipal}, {c.newCredential}) && t.audits == s.audits
            && c.newCredential in t.credentials && t.credentials[c.newCredential].principalId == c.newPrincipal
            && (forall at :: t.credentials[c.newCredential].UsableAt(at))
            && t.credentials[c.newCredential] ==
               Credential(c.newCredential, c.newPrincipal, Some("bootstrap"), x.now, None, None)
            && t.principals[c.newPrincipal] ==
               Principal(c.newPrincipal, Collapse(c.displayName), true, c.tenantIds, x.now, None)
            && t.principals[c.newPrincipal].Valid()
  {
    hide Collapse, NewPrincipal, NewCredential, NormalizedTitle;
    BootstrapTitleFits();
  }

  /** Issuing adds one credential of an active principal, usable until it expires. */
  lemma IssueEffects(s: ManagementState, x: Context, c: Command)
    requires c.IssueCredential? && Execute(s, x, c).Success?
    ensures var t := Execute(s, x, c).value;
            && SameElsewhere(s, t, {}, {c.newCredential}) && t.principals == s.principals
            && c.principalId in s.principals && s.principals[c.principalId].Active()
            && c.newCredential !in s.credentials && c.newCredential in t.credentials
            && var issued := t.credentials[c.newCredential];
               && issued.principalId == c.principalId && issued.Valid() && issued.createdAt == x.now
               && (issued.title.Some? <==> c.title.Some? && Collapse(c.title.value) != "")
               && (issued.title.Some? ==> issued.title == Some(Collapse(c.title.value)))
               && forall at :: issued.UsableAt(at) <==> (c.expiresAt.Some? ==> at < c.expiresAt.value)
  {
    hide CredentialRecord, NormalizedTitle, NewCredential, Collapse;
  }

  /** Scopes are replaced; a revocation ends a credential for every instant; a disabling ends a
      principal; each changes one row of the tables and nothing else in it. */
  lemma ChangeEffects(s: ManagementState, x: Context, c: Command)
    requires (c.SetScopes? || c.RevokeCredential? || c.DisablePrincipal?) && Execute(s, x, c).Success?
    ensures var t := Execute(s, x, c).value;
            && t.principals.Keys == s.principals.Keys && t.credentials.Keys == s.credentials.Keys
            && c.principalId in s.principals
            && (c.SetScopes? ==>
                  && SameElsewhere(s, t, {c.principalId}, {}) && c.tenantIds <= x.tenants
                  && t.principals[c.principalId].tenantIds == c.tenantIds
                  && t.principals[c.principalId] == s.principals[c.principalId].(tenantIds := t.principals[c.principalId].tenantIds))
            && (c.DisablePrincipal? ==>
                  && SameElsewhere(s, t, {c.principalId}, {})
                  && s.principals[c.principalId].Active() && !t.principals[c.principalId].Active()
                  && t.principals[c.principalId] == s.principals[c.principalId].(disabledAt := Some(x.now)))
            && (c.RevokeCredential? ==>
                  && SameElsewhere(s, t, {}, {c.credentialId})
                  && c.credentialId in s.credentials && s.credentials[c.credentialId].principalId == c.principalId
                  && s.credentials[c.credentialId].revokedAt.None?
                  && (forall at :: !t.credentials[c.credentialId].UsableAt(at)))
  {
    hide PrincipalRecord, CredentialRecord, HasRecoverableManager, OwnUsable;
  }

  // Exactly when a command succeeds, and how it is refused otherwise

  lemma BootstrapTitleFits()
    ensures Collapse("bootstrap") == "bootstrap"
  {
    hide Collapse;
    WordsAreCollapsed("bootstrap");
  }

  /** An empty set of Tenants is no obstacle to a bootstrap; nothing but these conditions is. */
  lemma BootstrapSucceedsIff(s: ManagementState, x: Context, c: Command)
    requires c.Bootstrap?
    ensures var r, fits := Execute(s, x, c), c.tenantIds <= x.tenants && 0 < |Collapse(c.displayName)| <= MAX_NAME_LENGTH;
            && (r.Success? <==> c.tokenMatches && s.principals == map[] && fits && c.newCredential !in s.credentials)
            && (r == Failure(BootstrapAuthenticationFailed) <==> !c.tokenMatches)
            && (r == Failure(BootstrapAlreadyCompleted) <==> c.tokenMatches && s.principals != map[])
            && (r == Failure(InvalidCommand) <==> c.tokenMatches && s.principals == map[] && !fits)
            && (r == Failure(IntegrityFailure) <==>
                  c.tokenMatches && s.principals == map[] && fits && c.newCredential in s.credentials)
  {
    hide Collapse, NewPrincipal, NewCredential;
    BootstrapTitleFits();
    assert |s.principals| == 0 <==> s.principals == map[];
  }

  lemma CreateSucceedsIff(s: ManagementState, x: Context, c: Command)
    requires c.CreatePrincipal?
    ensures var r, fits := Execute(s, x, c), c.tenantIds <= x.tenants && 0 < |Collapse(c.displayName)| <= MAX_NAME_LENGTH;
            && (r.Success? <==> x.actor.canManage && fits && c.newPrincipal !in s.principals)
            && (r == Failure(PrincipalManagementDenied) <==> !x.actor.canManage)
            && (r == Failure(InvalidCommand) <==> x.actor.canManage && !fits)
            && (r == Failure(IntegrityFailure) <==> x.actor.canManage && fits && c.newPrincipal in s.principals)
  {
    hide Collapse, NewPrincipal, PrincipalRecord;
  }

  /** A bad expiry is refused before the principal is looked for, a bad label after it. */
  lemma IssueSucceedsIff(s: ManagementState, x: Context, c: Command)
    requires c.IssueCredential?
    ensures var r := Execute(s, x, c);
            var future := c.expiresAt.Some? ==> x.now < c.expiresAt.value;
            var found := c.principalId in s.principals && s.principals[c.principalId].disabledAt.None?;
            var fits := c.title.Some? ==> |Collapse(c.title.value)| <= MAX_NAME_LENGTH;
            && (r.Success? <==> x.actor.canManage && future && found && fits && c.newCredential !in s.credentials)
            && (r == Failure(PrincipalManagementDenied) <==> !x.actor.canManage)
            && (r == Failure(InvalidCommand) <==> x.actor.canManage && (!future || (found && !fits)))
            && (r == Failure(PrincipalNotFound) <==> x.actor.canManage && future && !found)
            && (r == Failure(IntegrityFailure) <==>
                  x.actor.canManage && future && found && fits && c.newCredential in s.credentials)
  {
    hide Collapse, NewCredential, CredentialRecord;
  }

  /** A disabled principal's scopes may be replaced too. */
  lemma SetScopesSucceedsIff(s: ManagementState, x: Context, c: Command)
    requires c.SetScopes?
    ensures var r := Execute(s, x, c);
            && (r.Success? <==> x.actor.canManage && c.principalId in s.principals && c.tenantIds <= x.tenants)
            && (r == Failure(PrincipalManagementDenied) <==> !x.actor.canManage)
            && (r == Failure(PrincipalNotFound) <==> x.actor.canManage && c.principalId !in s.principals)
            && (r == Failure(InvalidCommand) <==>
                  x.actor.canManage && c.principalId in s.principals && !(c.tenantIds <= x.tenants))
  {
    hide PrincipalRecord;
  }

  /** What the recovery check finds: the other principal scanned first is a manager with a usable credential. */
  ghost predicate FirstIsRecoverable(s: ManagementState, x: Context, excluding: Uuid) {
    && x.first.Some? && x.first.value != excluding && x.first.value in s.principals
    && s.principals[x.first.value].disabledAt.None? && s.principals[x.first.value].canManage
    && exists id :: id in s.credentials && s.credentials[id].principalId == x.first.value
         && s.credentials[id].revokedAt.None? && (s.credentials[id].expiresAt.Some? ==> x.dbNow < s.credentials[id].expiresAt.value)
  }

  /** Another credential of the principal is usable at the service's instant. */
  ghost predicate HasAnotherUsable(s: ManagementState, x: Context, principalId: Uuid, credentialId: Uuid) {
    exists id :: id in s.credentials && id != credentialId && s.credentials[id].principalId == principalId
      && s.credentials[id].revokedAt.None? && (s.credentials[id].expiresAt.Some? ==> x.now < s.credentials[id].expiresAt.value)
  }

  lemma RecoveryCheckMeans(s: ManagementState, x: Context, excluding: Uuid)
    ensures HasRecoverableManager(s, excluding, x.first, x.dbNow) <==> FirstIsRecoverable(s, x, excluding)
  {
    if HasRecoverableManager(s, excluding, x.first, x.dbNow) {
      var id :| id in s.credentials && s.credentials[id].principalId == x.first.value && s.credentials[id].UsableAt(x.dbNow);
      assert FirstIsRecoverable(s, x, excluding);
    }
    if FirstIsRecoverable(s, x, excluding) {
      var id :| id in s.credentials && s.credentials[id].principalId == x.first.value
        && s.credentials[id].revokedAt.None? && (s.credentials[id].expiresAt.Some? ==> x.dbNow < s.credentials[id].expiresAt.value);
      assert s.credentials[id].UsableAt(x.dbNow);
    }
  }

  lemma OwnUsableMeans(s: ManagementState, x: Context, principalId: Uuid, credentialId: Uuid)
    ensures OwnUsable(s, principalId, credentialId, x.now) != {} <==> HasAnotherUsable(s, x, principalId, credentialId)
  {
    var own := OwnUsable(s, principalId, credentialId, x.now);
    if own != {} {
      var id :| id in own;
      assert s.credentials[id].UsableAt(x.now);
    }
    if HasAnotherUsable(s, x, principalId, credentialId) {
      var id :| id in s.credentials && id != credentialId && s.credentials[id].principalId == principalId
        && s.credentials[id].revokedAt.None? && (s.credentials[id].expiresAt.Some? ==> x.now < s.credentials[id].expiresAt.value);
      assert id in own;
    }
  }

  /** A revocation is refused for recovery only if an active manager would lose its last usable credential
      and the check finds nobody else. */
  lemma RevokeSucceedsIff(s: ManagementState, x: Context, c: Command)
    requires c.RevokeCredential?
    ensures var r := Execute(s, x, c);
            var found := c.credentialId in s.credentials && s.credentials[c.credentialId].principalId == c.principalId
                         && s.credentials[c.credentialId].revokedAt.None?;
            var last := c.principalId in s.principals
                        && s.principals[c.principalId].disabledAt.None? && s.principals[c.principalId].canManage
                        && !FirstIsRecoverable(s, x, c.principalId) && !HasAnotherUsable(s, x, c.principalId, c.credentialId);
            && (r.Success? <==> x.actor.canManage && c.principalId in s.principals && found && !last)
            && (r == Failure(PrincipalManagementDenied) <==> !x.actor.canManage)
            && (r == Failure(PrincipalNotFound) <==> x.actor.canManage && c.principalId !in s.principals)
            && (r == Failure(CredentialNotFound) <==> x.actor.canManage && c.principalId in s.principals && !found)
            && (r == Failure(LastPrincipalManager) <==> x.actor.canManage && found && last)
  {
    hide CredentialRecord, HasRecoverableManager, OwnUsable, FirstIsRecoverable, HasAnotherUsable;
    RecoveryCheckMeans(s, x, c.principalId);
    OwnUsableMeans(s, x, c.principalId, c.credentialId);
  }

  lemma DisableSucceedsIff(s: ManagementState, x: Context, c: Command)
    requires c.DisablePrincipal?
    ensures var r := Execute(s, x, c);
            var found := c.principalId in s.principals && s.principals[c.principalId].disabledAt.None?;
            var last := c.principalId in s.principals && s.principals[c.principalId].canManage
                        && !FirstIsRecoverable(s, x, c.principalId);
            && (r.Success? <==> x.actor.canManage && found && !last)
            && (r == Failure(PrincipalManagementDenied) <==> !x.actor.canManage)
            && (r == Failure(PrincipalNotFound) <==> x.actor.canManage && !found)
            && (r == Failure(LastPrincipalManager) <==> x.actor.canManage && found && last)
  {
    hide PrincipalRecord, HasRecoverableManager, FirstIsRecoverable;
    RecoveryCheckMeans(s, x, c.principalId);
  }

  /** The action and the resource that a command is recorded under. */
  lemma CommandsAreRecorded(s: ManagementState, x: Context, c: Command)
    requires Consistent(s) && !c.Bootstrap? && Execute(s, x, c).Success?
    ensures var t := Execute(s, x, c).value;
            && |t.audits| == |s.audits| + 1 && t.audits[..|s.audits|] == s.audits
            && var record := t.audits[|s.audits|];
               && record.auditId == c.auditId && record.actor == UuidText(x.actor.principalId) && record.tenantId.None?
               && record.occurredAt == x.now
               && (c.CreatePrincipal? ==>
                     && record.action == MANAGEMENT_PRINCIPAL_CREATED && record.before.None?
                     && record.resource == Resource(MANAGEMENT_PRINCIPAL, c.newPrincipal))
               && (c.IssueCredential? ==>
                     && record.action == MANAGEMENT_CREDENTIAL_ISSUED && record.before.None?
                     && record.resource == Resource(MANAGEMENT_CREDENTIAL, c.newCredential))
               && (c.SetScopes? ==>
                     && record.action == MANAGEMENT_PRINCIPAL_SCOPES_SET && record.before.Some?
                     && record.resource == Resource(MANAGEMENT_PRINCIPAL, c.principalId))
               && (c.RevokeCredential? ==>
                     && record.action == MANAGEMENT_CREDENTIAL_REVOKED && record.before.Some?
                     && record.resource == Resource(MANAGEMENT_CREDENTIAL, c.credentialId))
               && (c.DisablePrincipal? ==>
                     && record.action == MANAGEMENT_PRINCIPAL_DISABLED && record.before.Some?
                     && record.resource == Resource(MANAGEMENT_PRINCIPAL, c.principalId))
  {
    hide PrincipalText, CredentialText, UuidText, Collapse, NewPrincipal, NewCredential, HasRecoverableManager, OwnUsable;
  }

  /** A manager, a principal that manages nothing, and another manager. */
  function ThreePrincipals(): ManagementState {
    ManagementState(
      map[1 := Principal(1, "a", true, {}, 0, None), 2 := Principal(2, "b", false, {}, 0, None),
          3 := Principal(3, "c", true, {}, 0, None)],
      map[1 := Credential(1, 1, None, 0, None, None), 3 := Credential(3, 3, None, 0, None, None)],
      [])
  }

  lemma OnlyTheThirdIsAnotherManager(at: int)
    ensures var s := ThreePrincipals();
            RecoverableManager(s, 3, at) && !RecoverableManager(s, 2, at) && OwnUsable(s, 1, 1, at) == {}
  {
    var s := ThreePrincipals();
    assert s.credentials[3].UsableAt(at);
  }

  /** A refusal that is not needed: the scan meets a principal that manages nothing before it meets
      another recoverable manager, and so the manager cannot be disabled, nor its last credential revoked. */
  lemma RecoveryCheckRefusesWrongly(x: Context, auditId: Uuid)
    requires x.actor.canManage && x.first == Some(2)
    ensures var s := ThreePrincipals();
            && FirstOther(s, 1, x.first) && RecoverableManager(s, 3, x.dbNow) && RecoverableManager(s, 3, x.now)
            && Execute(s, x, DisablePrincipal(1, auditId)) == Failure(LastPrincipalManager)
            && Execute(s, x, RevokeCredential(1, 1, auditId)) == Failure(LastPrincipalManager)
  {
    OnlyTheThirdIsAnotherManager(x.dbNow);
    OnlyTheThirdIsAnotherManager(x.now);
    hide RecoverableManager, OwnUsable, PrincipalRecord, CredentialRecord;
  }
}
