/**
 The audit records of a runtime credential: one when it is issued and at most one when it is revoked.
 Their instants are printed in whatever offset they carry, the service's UTC, the one the caller
 gave the expiry in, or the one in which the database session returns its timestamps.
 */
module RuntimeCredentialAudits {
  import opened Wrappers
  import opened Text
  import opened Uuids
  import opened Instants
  import opened Fingerprints
  import opened AuditChain

  datatype RuntimeCredential = RuntimeCredential(
    credentialId: Uuid, principalId: Uuid, title: Option<string>, createdAt: Moment, expiresAt: Option<Moment>,
    revokedAt: Option<Moment>)
  {
    predicate Valid() {
      && (title.Some? ==> title.value != "" && Collapse(title.value) == title.value)
      && createdAt.Valid() && (expiresAt.Some? ==> expiresAt.value.Valid())
    }
  }

  /** The offset of the database session's time zone at each instant. */
  type Zone = Instant -> int

  function InZone(m: Moment, zone: Zone): Moment {
    Moment(m.at, zone(m.at))
  }

  /** The row holds the instants; reading it gives them in the session's time zone. */
  function ReadBack(c: RuntimeCredential, zone: Zone): RuntimeCredential {
    c.(createdAt := InZone(c.createdAt, zone),
       expiresAt := if c.expiresAt.None? then None else Some(InZone(c.expiresAt.value, zone)),
       revokedAt := if c.revokedAt.None? then None else Some(InZone(c.revokedAt.value, zone)))
  }

  /** The same lines as a management credential's. */
  function Facts(c: RuntimeCredential): ManagementCredentialFacts
    requires c.Valid()
  {
    ManagementCredentialFacts(c.credentialId, c.principalId, c.title, MomentText(c.createdAt),
                              if c.expiresAt.None? then None else Some(MomentText(c.expiresAt.value)), c.revokedAt.Some?)
  }

  function CredentialText(c: RuntimeCredential): string
    requires c.Valid()
  {
    ManagementCredentialCanonical(Facts(c))
  }

  function Record(auditId: Uuid, actor: Uuid, tenantId: Uuid, action: AuditAction, before: Option<RuntimeCredential>,
                  after: RuntimeCredential, now: Instant): AuditRecord
    requires (before.Some? ==> before.value.Valid()) && after.Valid()
  {
    AuditRecord(auditId, UuidText(actor), Some(tenantId), action, Resource(RUNTIME_CREDENTIAL, after.credentialId), now,
                if before.None? then None else Some(CredentialText(before.value)), CredentialText(after))
  }

  /** The record of issuing `c`. */
  function IssueRecord(auditId: Uuid, actor: Uuid, tenantId: Uuid, c: RuntimeCredential): AuditRecord
    requires c.Valid()
  {
    Record(auditId, actor, tenantId, RUNTIME_CREDENTIAL_ISSUED, None, c, c.createdAt.at)
  }

  /** The record of revoking the row that issuing `c` left. */
  function RevokeRecord(auditId: Uuid, actor: Uuid, tenantId: Uuid, c: RuntimeCredential, zone: Zone, now: Instant): AuditRecord
    requires ReadBack(c, zone).Valid()
  {
    var read := ReadBack(c, zone);
    Record(auditId, actor, tenantId, RUNTIME_CREDENTIAL_REVOKED, Some(read), read.(revokedAt := Some(Moment(now, 0))), now)
  }

  lemma FactsAreValid(c: RuntimeCredential)
    requires c.Valid()
    ensures Facts(c).Valid()
  {
    hide MomentText, Collapse;
    MomentTextIsPlain(c.createdAt);
    if c.expiresAt.Some? {
      MomentTextIsPlain(c.expiresAt.value);
    }
  }

  /** Two valid credentials share a text exactly when they share all facts. */
  lemma TextsDetermineFacts(c: RuntimeCredential, d: RuntimeCredential)
    requires c.Valid() && d.Valid()
    ensures CredentialText(c) == CredentialText(d) <==> Facts(c) == Facts(d)
  {
    hide MomentText, Collapse, ManagementCredentialCanonical, ManagementCredentialDecoded, ManagementCredentialFacts.Valid;
    FactsAreValid(c);
    FactsAreValid(d);
    ManagementCredentialRoundTrip(Facts(c));
    ManagementCredentialRoundTrip(Facts(d));
  }

  /** The revocation's before is the issue's after if and only if the database session returns the
      creation in UTC, and the expiry in the offset in which the caller gave it. */
  lemma RecordsJoinIff(c: RuntimeCredential, zone: Zone, issueId: Uuid, revokeId: Uuid, issuer: Uuid, revoker: Uuid,
                       tenantId: Uuid, now: Instant)
    requires c.Valid() && c.revokedAt.None? && c.createdAt.offset == 0 && ReadBack(c, zone).Valid()
    ensures RevokeRecord(revokeId, revoker, tenantId, c, zone, now).before ==
            Some(IssueRecord(issueId, issuer, tenantId, c).after)
            <==> zone(c.createdAt.at) == 0 && (c.expiresAt.Some? ==> zone(c.expiresAt.value.at) == c.expiresAt.value.offset)
  {
    hide MomentText, Collapse, CredentialText;
    var read := ReadBack(c, zone);
    TextsDetermineFacts(c, read);
    SameInstantSameTextIff(c.createdAt.at, 0, zone(c.createdAt.at));
    if c.expiresAt.Some? {
      SameInstantSameTextIff(c.expiresAt.value.at, c.expiresAt.value.offset, zone(c.expiresAt.value.at));
    }
  }

  const UTC: Zone := (_: Instant) => 0

  /** With the database in UTC an expiry given at +02:00 breaks the chain: the two texts differ although
      the credential is the same until it is revoked. */
  lemma ForeignOffsetBreaksTheChain(c: RuntimeCredential, at: Instant, auditId: Uuid, actor: Uuid, tenantId: Uuid, now: Instant)
    requires c.Valid() && c.revokedAt.None? && c.createdAt.offset == 0 && c.expiresAt == Some(Moment(at, 120))
    ensures ReadBack(c, UTC).Valid() && ReadBack(c, UTC) == c.(expiresAt := Some(Moment(at, 0)))
    ensures RevokeRecord(auditId, actor, tenantId, c, UTC, now).before != Some(IssueRecord(auditId, actor, tenantId, c).after)
  {
    hide Collapse, CredentialText;
    RecordsJoinIff(c, UTC, auditId, auditId, actor, actor, tenantId, now);
  }
}
