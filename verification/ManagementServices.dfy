/** The management service: each command inside one Unit of Work, which any statement may interrupt. */
module ManagementServices {
  import opened Wrappers
  import opened Uuids
  import opened AuditChain
  import opened UnitOfWorks
  import opened ManagementIdentity

  /** The awaited statements of a command. */
  datatype Statement = LOCK | READ_PRINCIPALS | READ_TENANTS | READ_CREDENTIALS | CHECK_MANAGERS | LIST_OWN | WRITE_ROWS | WRITE_AUDIT

  class ManagementIdentityService {
    const uow: UnitOfWork<ManagementState>

    constructor (uow: UnitOfWork<ManagementState>)
      ensures this.uow == uow
    {
      this.uow := uow;
    }

    /** `async with`: the command's statements, its commit if they all succeed, and the rollback on
        leaving. Whatever fails, and wherever, nothing or everything is committed. */
    method Handle(x: Context, c: Command, failing: set<Statement>) returns (r: Result<(), ManagementError>)
      modifies uow, uow.database
      ensures r.Success? ==> Execute(old(uow.database.committed), x, c) == Success(uow.database.committed)
      ensures r.Failure? ==> uow.database.committed == old(uow.database.committed)
      ensures failing == {} ==> r.Success? == Execute(old(uow.database.committed), x, c).Success?
      ensures r.Failure? && failing == {} ==> Execute(old(uow.database.committed), x, c) == Failure(r.error)
    {
      hide ExecuteBootstrap, ExecuteCreate, ExecuteIssue, ExecuteSetScopes, ExecuteRevoke, ExecuteDisable;
      uow.Enter();
      match c {
        case Bootstrap(_, _, _, _, _) => r := BootstrapWithin(x, c, failing);
        case CreatePrincipal(_, _, _, _, _) => r := CreateWithin(x, c, failing);
        case IssueCredential(_, _, _, _, _) => r := IssueWithin(x, c, failing);
        case SetScopes(_, _, _) => r := SetScopesWithin(x, c, failing);
        case RevokeCredential(_, _, _) => r := RevokeWithin(x, c, failing);
        case DisablePrincipal(_, _) => r := DisableWithin(x, c, failing);
      }
      if r.Success? {
        var committed := uow.Commit();
      }
      uow.Exit();
    }

    method BootstrapWithin(x: Context, c: Command, failing: set<Statement>) returns (r: Result<(), ManagementError>)
      requires c.Bootstrap? && uow.session.Some?
      modifies uow
      ensures uow.session.Some?
      ensures r.Success? ==> ExecuteBootstrap(old(uow.Current()), x, c) == Success(uow.Current())
      ensures failing == {} ==> r.Success? == ExecuteBootstrap(old(uow.Current()), x, c).Success?
      ensures r.Failure? && failing == {} ==> ExecuteBootstrap(old(uow.Current()), x, c) == Failure(r.error)
    {
      hide NewPrincipal, NewCredential, AddPrincipal, AddCredential;
      if !c.tokenMatches {
        return Failure(BootstrapAuthenticationFailed);
      }
      if LOCK in failing || READ_PRINCIPALS in failing {
        return Failure(Interrupted);
      }
      if |uow.Current().principals| != 0 {
        return Failure(BootstrapAlreadyCompleted);
      }
      if READ_TENANTS in failing {
        return Failure(Interrupted);
      }
      if !(c.tenantIds <= x.tenants) {
        return Failure(InvalidCommand);
      }
      var principal :- NewPrincipal(c.newPrincipal, c.displayName, true, c.tenantIds, x.now);
      var issued :- NewCredential(c.newCredential, principal.principalId, Some("bootstrap"), None, x.now);
      if WRITE_ROWS in failing {
        return Failure(Interrupted);
      }
      var added :- AddPrincipal(uow.Current(), principal);
      uow.Write(added);
      var withCredential :- AddCredential(uow.Current(), issued);
      uow.Write(withCredential);
      r := Success(());
    }

    method CreateWithin(x: Context, c: Command, failing: set<Statement>) returns (r: Result<(), ManagementError>)
      requires c.CreatePrincipal? && uow.session.Some?
      modifies uow
      ensures uow.session.Some?
      ensures r.Success? ==> ExecuteCreate(old(uow.Current()), x, c) == Success(uow.Current())
      ensures failing == {} ==> r.Success? == ExecuteCreate(old(uow.Current()), x, c).Success?
      ensures r.Failure? && failing == {} ==> ExecuteCreate(old(uow.Current()), x, c) == Failure(r.error)
    {
      hide NewPrincipal, AddPrincipal, PrincipalRecord;
      if !x.actor.canManage {
        return Failure(PrincipalManagementDenied);
      }
      if READ_TENANTS in failing {
        return Failure(Interrupted);
      }
      if !(c.tenantIds <= x.tenants) {
        return Failure(InvalidCommand);
      }
      var principal :- NewPrincipal(c.newPrincipal, c.displayName, c.canManage, c.tenantIds, x.now);
      if WRITE_ROWS in failing {
        return Failure(Interrupted);
      }
      var added :- AddPrincipal(uow.Current(), principal);
      uow.Write(added);
      r := Audit(PrincipalRecord(c.auditId, x.actor, MANAGEMENT_PRINCIPAL_CREATED, None, principal, x.now), failing);
    }

    method IssueWithin(x: Context, c: Command, failing: set<Statement>) returns (r: Result<(), ManagementError>)
      requires c.IssueCredential? && uow.session.Some?
      modifies uow
      ensures uow.session.Some?
      ensures r.Success? ==> ExecuteIssue(old(uow.Current()), x, c) == Success(uow.Current())
      ensures failing == {} ==> r.Success? == ExecuteIssue(old(uow.Current()), x, c).Success?
      ensures r.Failure? && failing == {} ==> ExecuteIssue(old(uow.Current()), x, c) == Failure(r.error)
    {
      hide NewCredential, AddCredential, CredentialRecord;
      if !x.actor.canManage {
        return Failure(PrincipalManagementDenied);
      }
      if c.expiresAt.Some? && c.expiresAt.value <= x.now {
        return Failure(InvalidCommand);
      }
      if READ_PRINCIPALS in failing {
        return Failure(Interrupted);
      }
      var principal := FindPrincipal(c.principalId);
      if principal.None? || !principal.value.Active() {
        return Failure(PrincipalNotFound);
      }
      var issued :- NewCredential(c.newCredential, c.principalId, c.title, c.expiresAt, x.now);
      if WRITE_ROWS in failing {
        return Failure(Interrupted);
      }
      var added :- AddCredential(uow.Current(), issued);
      uow.Write(added);
      r := Audit(CredentialRecord(c.auditId, x.actor, MANAGEMENT_CREDENTIAL_ISSUED, None, issued, x.now), failing);
    }

    method SetScopesWithin(x: Context, c: Command, failing: set<Statement>) returns (r: Result<(), ManagementError>)
      requires c.SetScopes? && uow.session.Some?
      modifies uow
      ensures uow.session.Some?
      ensures r.Success? ==> ExecuteSetScopes(old(uow.Current()), x, c) == Success(uow.Current())
      ensures failing == {} ==> r.Success? == ExecuteSetScopes(old(uow.Current()), x, c).Success?
      ensures r.Failure? && failing == {} ==> ExecuteSetScopes(old(uow.Current()), x, c) == Failure(r.error)
    {
      hide ReplaceScopes, PrincipalRecord;
      if !x.actor.canManage {
        return Failure(PrincipalManagementDenied);
      }
      if READ_PRINCIPALS in failing {
        return Failure(Interrupted);
      }
      var principal := FindPrincipal(c.principalId);
      if principal.None? {
        return Failure(PrincipalNotFound);
      }
      if READ_TENANTS in failing {
        return Failure(Interrupted);
      }
      if !(c.tenantIds <= x.tenants) {
        return Failure(InvalidCommand);
      }
      var updated := principal.value.(tenantIds := c.tenantIds);
      if WRITE_ROWS in failing {
        return Failure(Interrupted);
      }
      uow.Write(ReplaceScopes(uow.Current(), c.principalId, updated.tenantIds));
      r := Audit(PrincipalRecord(c.auditId, x.actor, MANAGEMENT_PRINCIPAL_SCOPES_SET, principal, updated, x.now), failing);
    }

    method RevokeWithin(x: Context, c: Command, failing: set<Statement>) returns (r: Result<(), ManagementError>)
      requires c.RevokeCredential? && uow.session.Some?
      modifies uow
      ensures uow.session.Some?
      ensures r.Success? ==> ExecuteRevoke(old(uow.Current()), x, c) == Success(uow.Current())
      ensures failing == {} ==> r.Success? == ExecuteRevoke(old(uow.Current()), x, c).Success?
      ensures r.Failure? && failing == {} ==> ExecuteRevoke(old(uow.Current()), x, c) == Failure(r.error)
    {
      hide Revoked, CredentialRecord, HasRecoverableManager, OwnUsable;
      if !x.actor.canManage {
        return Failure(PrincipalManagementDenied);
      }
      if LOCK in failing || READ_PRINCIPALS in failing || READ_CREDENTIALS in failing {
        return Failure(Interrupted);
      }
      var principal := FindPrincipal(c.principalId);
      if principal.None? {
        return Failure(PrincipalNotFound);
      }
      if c.credentialId !in uow.Current().credentials {
        return Failure(CredentialNotFound);
      }
      var credential := uow.Current().credentials[c.credentialId];
      if credential.principalId != c.principalId || credential.revokedAt.Some? {
        return Failure(CredentialNotFound);
      }
      if principal.value.Active() && principal.value.canManage {
        if CHECK_MANAGERS in failing || LIST_OWN in failing {
          return Failure(Interrupted);
        }
        var otherManager := HasRecoverableManager(uow.Current(), c.principalId, x.first, x.dbNow);
        var usable := OwnUsable(uow.Current(), c.principalId, c.credentialId, x.now);
        if !otherManager && usable == {} {
          return Failure(LastPrincipalManager);
        }
      }
      var revoked := credential.(revokedAt := Some(x.now));
      if WRITE_ROWS in failing {
        return Failure(Interrupted);
      }
      uow.Write(Revoked(uow.Current(), c.credentialId, x.now));
      r := Audit(CredentialRecord(c.auditId, x.actor, MANAGEMENT_CREDENTIAL_REVOKED, Some(credential), revoked, x.now), failing);
    }

    method DisableWithin(x: Context, c: Command, failing: set<Statement>) returns (r: Result<(), ManagementError>)
      requires c.DisablePrincipal? && uow.session.Some?
      modifies uow
      ensures uow.session.Some?
      ensures r.Success? ==> ExecuteDisable(old(uow.Current()), x, c) == Success(uow.Current())
      ensures failing == {} ==> r.Success? == ExecuteDisable(old(uow.Current()), x, c).Success?
      ensures r.Failure? && failing == {} ==> ExecuteDisable(old(uow.Current()), x, c) == Failure(r.error)
    {
      hide Disabled, PrincipalRecord, HasRecoverableManager;
      if !x.actor.canManage {
        return Failure(PrincipalManagementDenied);
      }
      if LOCK in failing || READ_PRINCIPALS in failing {
        return Failure(Interrupted);
      }
      var principal := FindPrincipal(c.principalId);
      if principal.None? || !principal.value.Active() {
        return Failure(PrincipalNotFound);
      }
      if principal.value.canManage {
        if CHECK_MANAGERS in failing {
          return Failure(Interrupted);
        }
        if !HasRecoverableManager(uow.Current(), c.principalId, x.first, x.dbNow) {
          return Failure(LastPrincipalManager);
        }
      }
      var disabled := principal.value.(disabledAt := Some(x.now));
      if WRITE_ROWS in failing {
        return Failure(Interrupted);
      }
      uow.Write(Disabled(uow.Current(), c.principalId, x.now));
      r := Audit(PrincipalRecord(c.auditId, x.actor, MANAGEMENT_PRINCIPAL_DISABLED, principal, disabled, x.now), failing);
    }

    method FindPrincipal(id: Uuid) returns (p: Option<Principal>)
      requires uow.session.Some?
      ensures p == if id in uow.Current().principals then Some(uow.Current().principals[id]) else None
    {
      p := if id in uow.Current().principals then Some(uow.Current().principals[id]) else None;
    }

    method Audit(record: AuditRecord, failing: set<Statement>) returns (r: Result<(), ManagementError>)
      requires uow.session.Some?
      modifies uow
      ensures uow.session.Some?
      ensures r.Success? <==> WRITE_AUDIT !in failing
      ensures r.Success? ==> uow.Current() == Audited(old(uow.Current()), record)
    {
      if WRITE_AUDIT in failing {
        return Failure(Interrupted);
      }
      uow.Write(Audited(uow.Current(), record));
      r := Success(());
    }
  }
}
