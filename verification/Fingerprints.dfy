/**
 The canonical strings behind audit fingerprints, and decoders that read the state back.
 The SHA-256 digest taken of each string is not modelled.
 */
module Fingerprints {
  import opened Wrappers
  import opened Text
  import opened Uuids

  function Flag(b: bool): string {
    if b then "true" else "false"
  }

  function OrEmpty(s: Option<string>): string {
    if s.None? then "" else s.value
  }

  function OptionOf(s: string): Option<string> {
    if s == "" then None else Some(s)
  }

  /** `value or ''` inside an f-string: absent and zero both print as nothing. */
  function LimitText(n: Option<nat>): string {
    if n.None? || n.value == 0 then "" else NumberText(10, n.value)
  }

  function LimitValue(s: string): Option<nat> {
    if s == "" then None else Some(NumberValue(10, s))
  }

  // Sorted identifier lists

  function Least(s: set<Uuid>): (m: Uuid)
    requires s != {}
    ensures IsLeast(s, m)
  {
    LeastExists(s);
    var m :| m in s && IsLeast(s, m);
    m
  }

  predicate IsLeast(s: set<Uuid>, m: Uuid) {
    m in s && forall x :: x in s ==> m <= x
  }

  lemma LeastOf(s: set<Uuid>) returns (m: Uuid)
    requires s != {}
    ensures IsLeast(s, m)
  {
    var y :| y in s;
    if s == {y} {
      m := y;
    } else {
      var n := LeastOf(s - {y});
      m := if n <= y then n else y;
      forall x | x in s
        ensures m <= x
      {
        assert x == y || x in s - {y};
      }
    }
  }

  lemma LeastExists(s: set<Uuid>)
    requires s != {}
    ensures exists m :: IsLeast(s, m)
  {
    var m := LeastOf(s);
  }

  function Sorted(s: set<Uuid>): seq<Uuid> {
    if s == {} then [] else [Least(s)] + Sorted(s - {Least(s)})
  }

  function CommaJoined(ids: seq<Uuid>): string {
    if ids == [] then ""
    else if |ids| == 1 then UuidText(ids[0])
    else UuidText(ids[0]) + "," + CommaJoined(ids[1..])
  }

  function TenantsText(s: set<Uuid>): string {
    CommaJoined(Sorted(s))
  }

  function TenantsValue(s: string): set<Uuid>
    decreases |s|
  {
    if |s| < 36 then {}
    else {UuidValue(s[..36])} + (if |s| == 36 then {} else TenantsValue(s[37..]))
  }

  lemma {:induction false} CommaJoinedRoundTrip(ids: seq<Uuid>)
    ensures TenantsValue(CommaJoined(ids)) == set x | x in ids
    ensures '\n' !in CommaJoined(ids)
  {
    if ids != [] {
      UuidTextRoundTrip(ids[0]);
      var s := CommaJoined(ids);
      assert s[..36] == UuidText(ids[0]);
      if |ids| > 1 {
        CommaJoinedRoundTrip(ids[1..]);
        assert s[37..] == CommaJoined(ids[1..]);
        assert |CommaJoined(ids[1..])| >= 36;
        assert ids == [ids[0]] + ids[1..];
      }
    }
  }

  lemma {:induction false} SortedKeepsElements(s: set<Uuid>)
    ensures forall x :: x in Sorted(s) <==> x in s
  {
    if s != {} {
      SortedKeepsElements(s - {Least(s)});
    }
  }

  lemma TenantsRoundTrip(s: set<Uuid>)
    ensures TenantsValue(TenantsText(s)) == s
    ensures '\n' !in TenantsText(s)
  {
    CommaJoinedRoundTrip(Sorted(s));
    SortedKeepsElements(s);
  }

  lemma LimitRoundTrip(n: Option<nat>)
    requires n.Some? ==> n.value > 0
    ensures LimitValue(LimitText(n)) == n
    ensures '\n' !in LimitText(n)
  {
    if n.Some? {
      NumberTextRoundTrip(10, n.value);
    }
  }

  lemma FlagRoundTrip(b: bool)
    ensures (Flag(b) == "true") == b && '\n' !in Flag(b)
  {
  }

  // Lines

  function Line(key: string, value: string): string {
    key + "=" + value + "\n"
  }

  function ThroughNewline(s: string): (n: nat)
    ensures n <= |s|
  {
    if s == "" || s[0] == '\n' then 0 else 1 + ThroughNewline(s[1..])
  }

  /** The value of the line that starts `s`, and what follows the line. */
  function Value(key: string, s: string): string {
    if |s| <= |key| then "" else var t := s[|key| + 1..]; t[..ThroughNewline(t)]
  }

  function Rest(key: string, s: string): string {
    if |s| <= |key| then ""
    else
      var t := s[|key| + 1..];
      var n := ThroughNewline(t);
      if n < |t| then t[n + 1..] else ""
  }

  lemma {:induction false} ThroughNewlineStops(value: string, rest: string)
    requires '\n' !in value
    ensures ThroughNewline(value + "\n" + rest) == |value|
  {
    var t := value + "\n" + rest;
    if value != "" {
      assert t[1..] == value[1..] + "\n" + rest;
      ThroughNewlineStops(value[1..], rest);
    }
  }

  lemma LineRoundTrip(key: string, value: string, rest: string)
    requires '\n' !in value
    ensures Value(key, Line(key, value) + rest) == value
    ensures Rest(key, Line(key, value) + rest) == rest
  {
    var s := Line(key, value) + rest;
    var t := s[|key| + 1..];
    assert t == value + "\n" + rest;
    ThroughNewlineStops(value, rest);
  }

  lemma LastValue(key: string, value: string)
    ensures (key + "=" + value)[|key| + 1..] == value
  {
  }

  // Agent-to-Model permissions

  datatype PermissionFacts = PermissionFacts(tenantId: Uuid, agentId: Uuid, modelId: Uuid, allow: bool)

  function EffectText(allow: bool): string {
    if allow then "allow" else "deny"
  }

  function PermissionCanonical(p: PermissionFacts): string {
    Line("tenant_id", UuidText(p.tenantId)) +
    (Line("agent_id", UuidText(p.agentId)) +
     (Line("model_id", UuidText(p.modelId)) +
      ("effect" + "=" + EffectText(p.allow))))
  }

  function DecodedUuid(s: string): Uuid {
    if |s| == 36 then UuidValue(s) else 0
  }

  function PermissionDecoded(s: string): PermissionFacts {
    var s1 := Rest("tenant_id", s);
    var s2 := Rest("agent_id", s1);
    var s3 := Rest("model_id", s2);
    PermissionFacts(DecodedUuid(Value("tenant_id", s)), DecodedUuid(Value("agent_id", s1)),
                    DecodedUuid(Value("model_id", s2)), |s3| >= 7 && s3[7..] == "allow")
  }

  lemma PermissionRoundTrip(p: PermissionFacts)
    ensures PermissionDecoded(PermissionCanonical(p)) == p
  {
    hide UuidText, UuidValue, Value, Rest, Line;
    UuidTextRoundTrip(p.tenantId);
    UuidTextRoundTrip(p.agentId);
    UuidTextRoundTrip(p.modelId);
    var s3 := "effect" + "=" + EffectText(p.allow);
    var s2 := Line("model_id", UuidText(p.modelId)) + s3;
    var s1 := Line("agent_id", UuidText(p.agentId)) + s2;
    LineRoundTrip("tenant_id", UuidText(p.tenantId), s1);
    LineRoundTrip("agent_id", UuidText(p.agentId), s2);
    LineRoundTrip("model_id", UuidText(p.modelId), s3);
    LastValue("effect", EffectText(p.allow));
  }

  // Management principals

  datatype ManagementPrincipalFacts = ManagementPrincipalFacts(
    principalId: Uuid, displayName: string, tenantIds: set<Uuid>, canManage: bool, disabled: bool)
  {
    /** Construction normalizes the display name. */
    predicate Valid() {
      Collapse(displayName) == displayName
    }
  }

  function ManagementPrincipalCanonical(p: ManagementPrincipalFacts): string {
    Line("principal_id", UuidText(p.principalId)) +
    (Line("display_name", Collapse(p.displayName)) +
     (Line("tenant_ids", TenantsText(p.tenantIds)) +
      (Line("can_manage_principals", Flag(p.canManage)) +
       ("disabled" + "=" + Flag(p.disabled)))))
  }

  function ManagementPrincipalDecoded(s: string): ManagementPrincipalFacts {
    var s1 := Rest("principal_id", s);
    var s2 := Rest("display_name", s1);
    var s3 := Rest("tenant_ids", s2);
    var s4 := Rest("can_manage_principals", s3);
    ManagementPrincipalFacts(DecodedUuid(Value("principal_id", s)), Value("display_name", s1),
                             TenantsValue(Value("tenant_ids", s2)), Value("can_manage_principals", s3) == "true",
                             |s4| >= 9 && s4[9..] == "true")
  }

  lemma ManagementPrincipalRoundTrip(p: ManagementPrincipalFacts)
    requires p.Valid()
    ensures ManagementPrincipalDecoded(ManagementPrincipalCanonical(p)) == p
  {
    hide UuidText, UuidValue, Value, Rest, Line, TenantsText, TenantsValue, Flag, Collapse;
    UuidTextRoundTrip(p.principalId);
    CollapseIsCanonical(p.displayName);
    TenantsRoundTrip(p.tenantIds);
    FlagRoundTrip(p.canManage);
    FlagRoundTrip(p.disabled);
    var s4 := "disabled" + "=" + Flag(p.disabled);
    var s3 := Line("can_manage_principals", Flag(p.canManage)) + s4;
    var s2 := Line("tenant_ids", TenantsText(p.tenantIds)) + s3;
    var s1 := Line("display_name", Collapse(p.displayName)) + s2;
    LineRoundTrip("principal_id", UuidText(p.principalId), s1);
    LineRoundTrip("display_name", Collapse(p.displayName), s2);
    LineRoundTrip("tenant_ids", TenantsText(p.tenantIds), s3);
    LineRoundTrip("can_manage_principals", Flag(p.canManage), s4);
    LastValue("disabled", Flag(p.disabled));
  }

  // Management credentials

  datatype ManagementCredentialFacts = ManagementCredentialFacts(
    credentialId: Uuid, principalId: Uuid, title: Option<string>, createdAt: string, expiresAt: Option<string>, revoked: bool)
  {
    /** Construction normalizes the label; instants are printed on one line. */
    predicate Valid() {
      && (title.Some? ==> title.value != "" && Collapse(title.value) == title.value)
      && '\n' !in createdAt
      && (expiresAt.Some? ==> expiresAt.value != "" && '\n' !in expiresAt.value)
    }
  }

  function LabelText(title: Option<string>): string {
    if title.None? then "" else Collapse(title.value)
  }

  function ManagementCredentialCanonical(c: ManagementCredentialFacts): string {
    Line("credential_id", UuidText(c.credentialId)) +
    (Line("principal_id", UuidText(c.principalId)) +
     (Line("label", LabelText(c.title)) +
      (Line("created_at", c.createdAt) +
       (Line("expires_at", OrEmpty(c.expiresAt)) +
        ("revoked" + "=" + Flag(c.revoked))))))
  }

  function ManagementCredentialDecoded(s: string): ManagementCredentialFacts {
    var s1 := Rest("credential_id", s);
    var s2 := Rest("principal_id", s1);
    var s3 := Rest("label", s2);
    var s4 := Rest("created_at", s3);
    var s5 := Rest("expires_at", s4);
    ManagementCredentialFacts(DecodedUuid(Value("credential_id", s)), DecodedUuid(Value("principal_id", s1)),
                              OptionOf(Value("label", s2)), Value("created_at", s3),
                              OptionOf(Value("expires_at", s4)), |s5| >= 8 && s5[8..] == "true")
  }

  lemma ManagementCredentialRoundTrip(c: ManagementCredentialFacts)
    requires c.Valid()
    ensures ManagementCredentialDecoded(ManagementCredentialCanonical(c)) == c
  {
    hide UuidText, UuidValue, Value, Rest, Line, Flag, Collapse;
    UuidTextRoundTrip(c.credentialId);
    UuidTextRoundTrip(c.principalId);
    if c.title.Some? {
      CollapseIsCanonical(c.title.value);
    }
    FlagRoundTrip(c.revoked);
    var s5 := "revoked" + "=" + Flag(c.revoked);
    var s4 := Line("expires_at", OrEmpty(c.expiresAt)) + s5;
    var s3 := Line("created_at", c.createdAt) + s4;
    var s2 := Line("label", LabelText(c.title)) + s3;
    var s1 := Line("principal_id", UuidText(c.principalId)) + s2;
    LineRoundTrip("credential_id", UuidText(c.credentialId), s1);
    LineRoundTrip("principal_id", UuidText(c.principalId), s2);
    LineRoundTrip("label", LabelText(c.title), s3);
    LineRoundTrip("created_at", c.createdAt, s4);
    LineRoundTrip("expires_at", OrEmpty(c.expiresAt), s5);
    LastValue("revoked", Flag(c.revoked));
  }

  // Runtime principals

  datatype RuntimePrincipalFacts = RuntimePrincipalFacts(
    principalId: Uuid, tenantId: Uuid, agentId: Uuid, disabled: bool,
    dailyLimit: Option<nat>, allowance: Option<nat>, legacyId: Option<string>)
  {
    /** Configured limits are positive and a legacy identity is not empty; it may hold line breaks. */
    predicate Valid() {
      && (dailyLimit.Some? ==> dailyLimit.value > 0)
      && (allowance.Some? ==> allowance.value > 0)
      && (legacyId.Some? ==> legacyId.value != "")
    }
  }

  const LEGACY_KEY := "legacy_runtime_principal_id"

  function RuntimeTail(legacyId: Option<string>, disabled: bool): string {
    LEGACY_KEY + "=" + OrEmpty(legacyId) + ("\n" + "disabled" + "=" + Flag(disabled))
  }

  function RuntimePrincipalCanonical(p: RuntimePrincipalFacts): string {
    Line("principal_id", UuidText(p.principalId)) +
    (Line("tenant_id", UuidText(p.tenantId)) +
     (Line("agent_id", UuidText(p.agentId)) +
      (Line("daily_usage_limit_units", LimitText(p.dailyLimit)) +
       (Line("per_invocation_allowance_units", LimitText(p.allowance)) +
        RuntimeTail(p.legacyId, p.disabled)))))
  }

  /** The flag is read from the end: the last letters of the tail are `=true` or `=false`. */
  function TailDisabled(s: string): bool {
    |s| >= 5 && s[|s| - 5] == '='
  }

  function TailLegacy(s: string): Option<string> {
    var suffix := if TailDisabled(s) then 14 else 15;
    if |s| < |LEGACY_KEY| + 1 + suffix then None else OptionOf(s[|LEGACY_KEY| + 1..|s| - suffix])
  }

  lemma RuntimeTailRoundTrip(legacyId: Option<string>, disabled: bool)
    requires legacyId.Some? ==> legacyId.value != ""
    ensures TailDisabled(RuntimeTail(legacyId, disabled)) == disabled
    ensures TailLegacy(RuntimeTail(legacyId, disabled)) == legacyId
  {
    var s := RuntimeTail(legacyId, disabled);
    var head := LEGACY_KEY + "=" + OrEmpty(legacyId);
    var end := "\n" + "disabled" + "=" + Flag(disabled);
    assert s == head + end;
    assert |end| == if disabled then 14 else 15;
    assert s[|s| - 5] == end[|end| - 5];
    assert s[..|s| - |end|] == head;
    LastValue(LEGACY_KEY, OrEmpty(legacyId));
    assert s[|LEGACY_KEY| + 1..|s| - |end|] == head[|LEGACY_KEY| + 1..];
  }

  function RuntimePrincipalDecoded(s: string): RuntimePrincipalFacts {
    var s1 := Rest("principal_id", s);
    var s2 := Rest("tenant_id", s1);
    var s3 := Rest("agent_id", s2);
    var s4 := Rest("daily_usage_limit_units", s3);
    var s5 := Rest("per_invocation_allowance_units", s4);
    RuntimePrincipalFacts(DecodedUuid(Value("principal_id", s)), DecodedUuid(Value("tenant_id", s1)),
                          DecodedUuid(Value("agent_id", s2)), TailDisabled(s5),
                          LimitValue(Value("daily_usage_limit_units", s3)),
                          LimitValue(Value("per_invocation_allowance_units", s4)), TailLegacy(s5))
  }

  lemma RuntimePrincipalRoundTrip(p: RuntimePrincipalFacts)
    requires p.Valid()
    ensures RuntimePrincipalDecoded(RuntimePrincipalCanonical(p)) == p
  {
    hide UuidText, UuidValue, Value, Rest, Line, LimitText, LimitValue, TailLegacy, TailDisabled, RuntimeTail;
    UuidTextRoundTrip(p.principalId);
    UuidTextRoundTrip(p.tenantId);
    UuidTextRoundTrip(p.agentId);
    LimitRoundTrip(p.dailyLimit);
    LimitRoundTrip(p.allowance);
    RuntimeTailRoundTrip(p.legacyId, p.disabled);
    var s5 := RuntimeTail(p.legacyId, p.disabled);
    var s4 := Line("per_invocation_allowance_units", LimitText(p.allowance)) + s5;
    var s3 := Line("daily_usage_limit_units", LimitText(p.dailyLimit)) + s4;
    var s2 := Line("agent_id", UuidText(p.agentId)) + s3;
    var s1 := Line("tenant_id", UuidText(p.tenantId)) + s2;
    LineRoundTrip("principal_id", UuidText(p.principalId), s1);
    LineRoundTrip("tenant_id", UuidText(p.tenantId), s2);
    LineRoundTrip("agent_id", UuidText(p.agentId), s3);
    LineRoundTrip("daily_usage_limit_units", LimitText(p.dailyLimit), s4);
    LineRoundTrip("per_invocation_allowance_units", LimitText(p.allowance), s5);
  }

  /** Valid states share a canonical string exactly when they are equal. */
  lemma CanonicalStringsAreInjective(
    a: PermissionFacts, b: PermissionFacts,
    m: ManagementPrincipalFacts, n: ManagementPrincipalFacts,
    c: ManagementCredentialFacts, d: ManagementCredentialFacts,
    p: RuntimePrincipalFacts, q: RuntimePrincipalFacts)
    requires m.Valid() && n.Valid() && c.Valid() && d.Valid() && p.Valid() && q.Valid()
    ensures PermissionCanonical(a) == PermissionCanonical(b) <==> a == b
    ensures ManagementPrincipalCanonical(m) == ManagementPrincipalCanonical(n) <==> m == n
    ensures ManagementCredentialCanonical(c) == ManagementCredentialCanonical(d) <==> c == d
    ensures RuntimePrincipalCanonical(p) == RuntimePrincipalCanonical(q) <==> p == q
  {
    hide PermissionCanonical, PermissionDecoded, ManagementPrincipalCanonical, ManagementPrincipalDecoded,
      ManagementCredentialCanonical, ManagementCredentialDecoded, RuntimePrincipalCanonical, RuntimePrincipalDecoded;
    PermissionRoundTrip(a);
    PermissionRoundTrip(b);
    ManagementPrincipalRoundTrip(m);
    ManagementPrincipalRoundTrip(n);
    ManagementCredentialRoundTrip(c);
    ManagementCredentialRoundTrip(d);
    RuntimePrincipalRoundTrip(p);
    RuntimePrincipalRoundTrip(q);
  }
}
