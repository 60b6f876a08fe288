/** The read models over credentials, and why they agree with authentication. */
module Inventories {
  import opened Wrappers
  import opened Uuids
  import opened ManagementIdentity
  import opened Evidence

  datatype InventoryState = ACTIVE | ITEM_REVOKED | ITEM_EXPIRED | ITEM_PRINCIPAL_DISABLED

  datatype InventoryItem = InventoryItem(credential: Credential, usable: bool, state: InventoryState)

  datatype InventoryResult = InventoryResult(items: seq<InventoryItem>, truncated: bool)

  datatype InventoryError = InvalidLimit | NotFound

  /** A disabled principal comes first here; authentication looks at it last. */
  function StateOf(c: Credential, principalDisabled: bool, now: int): InventoryState {
    if principalDisabled then ITEM_PRINCIPAL_DISABLED
    else if c.revokedAt.Some? then ITEM_REVOKED
    else if c.expiresAt.Some? && now >= c.expiresAt.value then ITEM_EXPIRED
    else ACTIVE
  }

  function ItemOf(c: Credential, principalDisabled: bool, now: int): InventoryItem {
    InventoryItem(c, StateOf(c, principalDisabled, now) == ACTIVE, StateOf(c, principalDisabled, now))
  }

  /** Authentication succeeds exactly when the secret matches and the inventory calls the credential
      active; otherwise the two name the same reason unless several apply. */
  lemma AuthenticationAgreesWithInventory(p: Principal, c: Credential, secretMatches: bool, at: int)
    ensures var outcome, state := OutcomeOf(p, c, secretMatches, at), StateOf(c, !p.Active(), at);
            && (outcome == SUCCEEDED <==> secretMatches && state == ACTIVE)
            && (state == ACTIVE <==> p.Active() && c.UsableAt(at))
            && (secretMatches && p.Active() ==>
                  && (outcome == REVOKED <==> state == ITEM_REVOKED)
                  && (outcome == EXPIRED <==> state == ITEM_EXPIRED))
            && (secretMatches && state == ITEM_PRINCIPAL_DISABLED ==>
                  (outcome == PRINCIPAL_DISABLED <==> c.UsableAt(at)))
  {
  }

  /** The credentials of one principal, in the order of the table. */
  function CredentialsOf(table: seq<Credential>, principalId: Uuid): seq<Credential> {
    if table == [] then []
    else
      var last := table[|table| - 1];
      CredentialsOf(table[..|table| - 1], principalId) + (if last.principalId == principalId then [last] else [])
  }

  /** The reader fetches one more than the limit; the handler lists the limit and says whether there
      are more. `ordered` holds the principal's credentials in the order of the query. */
  method ListCredentials(principals: map<Uuid, Principal>, principalId: Uuid, ordered: seq<Credential>, limit: int, now: int)
    returns (r: Result<InventoryResult, InventoryError>)
    ensures r == Failure(InvalidLimit) <==> !(1 <= limit <= 100)
    ensures r == Failure(NotFound) <==> 1 <= limit <= 100 && principalId !in principals
    ensures r.Success? ==>
              && (r.value.truncated <==> |ordered| > limit)
              && |r.value.items| == (if |ordered| < limit then |ordered| else limit)
              && forall i :: 0 <= i < |r.value.items| ==>
                   r.value.items[i] == ItemOf(ordered[i], !principals[principalId].Active(), now)
  {
    if !(1 <= limit <= 100) {
      return Failure(InvalidLimit);
    }
    if principalId !in principals {
      return Failure(NotFound);
    }
    var fetched := if |ordered| <= limit + 1 then ordered else ordered[..limit + 1];
    var disabled := !principals[principalId].Active();
    var items := [];
    var shown := if |fetched| < limit then |fetched| else limit;
    for i := 0 to shown
      invariant |items| == i
      invariant forall j :: 0 <= j < i ==> items[j] == ItemOf(ordered[j], disabled, now)
    {
      items := items + [ItemOf(fetched[i], disabled, now)];
    }
    r := Success(InventoryResult(items, |fetched| > limit));
  }

  function ActiveItems(ordered: seq<Credential>, principalDisabled: bool, now: int): nat {
    if ordered == [] then 0
    else
      ActiveItems(ordered[..|ordered| - 1], principalDisabled, now)
      + (if ItemOf(ordered[|ordered| - 1], principalDisabled, now).usable then 1 else 0)
  }

  // The principal inventory: two grouped subqueries, outer-joined to the principals

  datatype TenantScope = TenantScope(principalId: Uuid, tenantId: Uuid)

  /** What a grouped subquery sees of a row: whose it is, and what it adds to the SUM. */
  datatype Entry = Entry(principalId: Uuid, weight: nat)

  datatype Group = Group(principalId: Uuid, count: nat, sum: nat)

  function ScopeEntries(scopes: seq<TenantScope>): seq<Entry> {
    if scopes == [] then [] else ScopeEntries(scopes[..|scopes| - 1]) + [Entry(scopes[|scopes| - 1].principalId, 0)]
  }

  /** CASE WHEN revoked_at IS NULL AND (expires_at IS NULL OR expires_at > now) THEN 1 ELSE 0. */
  function CredentialEntries(table: seq<Credential>, now: int): seq<Entry> {
    if table == [] then []
    else
      var last := table[|table| - 1];
      CredentialEntries(table[..|table| - 1], now) + [Entry(last.principalId, if last.UsableAt(now) then 1 else 0)]
  }

  function Count(entries: seq<Entry>, id: Uuid): nat {
    if entries == [] then 0
    else Count(entries[..|entries| - 1], id) + (if entries[|entries| - 1].principalId == id then 1 else 0)
  }

  function Sum(entries: seq<Entry>, id: Uuid): nat {
    if entries == [] then 0
    else
      var last := entries[|entries| - 1];
      Sum(entries[..|entries| - 1], id) + (if last.principalId == id then last.weight else 0)
  }

  function GroupOf(entries: seq<Entry>, id: Uuid): Group {
    Group(id, Count(entries, id), Sum(entries, id))
  }

  predicate KeysAreDistinct(groups: seq<Group>) {
    forall i, j :: 0 <= i < j < |groups| ==> groups[i].principalId != groups[j].principalId
  }

  /** One row per principal with entries, no two for the same, in any order. */
  ghost predicate GroupedBy(groups: seq<Group>, entries: seq<Entry>) {
    && KeysAreDistinct(groups)
    && (forall g :: g in groups ==> g == GroupOf(entries, g.principalId) && g.count > 0)
    && (forall id :: Count(entries, id) > 0 ==> GroupOf(entries, id) in groups)
  }

  /** Adds one entry to the group of its principal, or starts a group. */
  function Grow(groups: seq<Group>, e: Entry): seq<Group> {
    if groups == [] then [Group(e.principalId, 1, e.weight)]
    else
      var front, last := groups[..|groups| - 1], groups[|groups| - 1];
      if last.principalId == e.principalId then front + [Group(e.principalId, last.count + 1, last.sum + e.weight)]
      else Grow(front, e) + [last]
  }

  lemma {:induction false} GrowChangesOneGroup(groups: seq<Group>, e: Entry)
    requires KeysAreDistinct(groups)
    ensures KeysAreDistinct(Grow(groups, e))
    ensures forall g: Group :: g.principalId != e.principalId ==> (g in Grow(groups, e) <==> g in groups)
    ensures forall g :: g in groups && g.principalId == e.principalId ==>
              Group(e.principalId, g.count + 1, g.sum + e.weight) in Grow(groups, e)
    ensures (forall g :: g in groups ==> g.principalId != e.principalId) ==> Group(e.principalId, 1, e.weight) in Grow(groups, e)
  {
    if groups != [] {
      var front, last := groups[..|groups| - 1], groups[|groups| - 1];
      assert groups == front + [last];
      if last.principalId == e.principalId {
        assert forall g :: g in front ==> g.principalId != e.principalId;
      } else {
        GrowChangesOneGroup(front, e);
        var grown := Grow(front, e);
        assert forall g :: g in grown && g.principalId == last.principalId ==> g in front;
        assert Grow(groups, e) == grown + [last];
      }
    }
  }

  lemma OneGroupPerKey(groups: seq<Group>, a: Group, b: Group)
    requires KeysAreDistinct(groups) && a in groups && b in groups && a.principalId == b.principalId
    ensures a == b
  {
  }

  /** GROUP BY principal_id with COUNT(*) and SUM, in one pass. */
  method GroupByPrincipal(entries: seq<Entry>) returns (groups: seq<Group>)
    ensures GroupedBy(groups, entries)
  {
    groups := [];
    for i := 0 to |entries|
      invariant GroupedBy(groups, entries[..i])
    {
      GrowKeepsGroupedBy(groups, entries[..i], entries[i]);
      assert entries[..i] + [entries[i]] == entries[..i + 1];
      groups := Grow(groups, entries[i]);
    }
    assert entries[..|entries|] == entries;
  }

  lemma EntryAppend(entries: seq<Entry>, e: Entry, id: Uuid)
    ensures Count(entries + [e], id) == Count(entries, id) + (if e.principalId == id then 1 else 0)
    ensures Sum(entries + [e], id) == Sum(entries, id) + (if e.principalId == id then e.weight else 0)
  {
    assert (entries + [e])[..|entries|] == entries;
  }

  lemma GrowKeepsGroupedBy(groups: seq<Group>, entries: seq<Entry>, e: Entry)
    requires GroupedBy(groups, entries)
    ensures GroupedBy(Grow(groups, e), entries + [e])
  {
    var more, grown, own := entries + [e], Grow(groups, e), GroupOf(entries, e.principalId);
    hide Grow, Count, Sum;
    forall id: Uuid
      ensures Count(more, id) == Count(entries, id) + (if id == e.principalId then 1 else 0)
      ensures Sum(more, id) == Sum(entries, id) + (if id == e.principalId then e.weight else 0)
    {
      EntryAppend(entries, e, id);
    }
    GrowChangesOneGroup(groups, e);
    if own in groups {
      assert GroupOf(more, e.principalId) == Group(e.principalId, own.count + 1, own.sum + e.weight);
    } else {
      assert Count(entries, e.principalId) == 0;
      NothingIsSummed(entries, e.principalId);
      assert forall g :: g in groups ==> g.principalId != e.principalId;
    }
    assert GroupOf(more, e.principalId) in grown;
    forall g | g in grown
      ensures g == GroupOf(more, g.principalId) && g.count > 0
    {
      if g.principalId == e.principalId {
        OneGroupPerKey(grown, g, GroupOf(more, e.principalId));
      }
    }
  }

  lemma {:induction false} NothingIsSummed(entries: seq<Entry>, id: Uuid)
    requires Count(entries, id) == 0
    ensures Sum(entries, id) == 0
  {
    if entries != [] {
      NothingIsSummed(entries[..|entries| - 1], id);
    }
  }

  /** The groups that match one row of the left side. */
  function Matching(groups: seq<Group>, id: Uuid): seq<Group> {
    if groups == [] then []
    else
      var last := groups[|groups| - 1];
      Matching(groups[..|groups| - 1], id) + (if last.principalId == id then [last] else [])
  }

  /** The left row once for each match, and once with NULLs if there is none. */
  function Paired<T>(row: T, matching: seq<Group>): seq<(T, Option<Group>)> {
    if matching == [] then [(row, None)]
    else seq(|matching|, i requires 0 <= i < |matching| => (row, Some(matching[i])))
  }

  /** LEFT OUTER JOIN ON groups.principal_id = key(row). */
  function LeftJoin<T>(rows: seq<T>, key: T -> Uuid, groups: seq<Group>): seq<(T, Option<Group>)> {
    if rows == [] then []
    else
      var last := rows[|rows| - 1];
      LeftJoin(rows[..|rows| - 1], key, groups) + Paired(last, Matching(groups, key(last)))
  }

  lemma {:induction false} MatchingElements(groups: seq<Group>, id: Uuid)
    ensures forall g :: g in Matching(groups, id) <==> g in groups && g.principalId == id
  {
    if groups != [] {
      var front, last := groups[..|groups| - 1], groups[|groups| - 1];
      assert groups == front + [last];
      MatchingElements(front, id);
    }
  }

  lemma {:induction false} NoMatch(groups: seq<Group>, id: Uuid)
    requires forall g :: g in groups ==> g.principalId != id
    ensures Matching(groups, id) == []
  {
    if groups != [] {
      var front, last := groups[..|groups| - 1], groups[|groups| - 1];
      assert groups == front + [last];
      assert last in groups;
      NoMatch(front, id);
    }
  }

  lemma {:induction false} AtMostOneMatches(groups: seq<Group>, id: Uuid)
    requires KeysAreDistinct(groups)
    ensures |Matching(groups, id)| <= 1
  {
    if groups != [] {
      var front, last := groups[..|groups| - 1], groups[|groups| - 1];
      if last.principalId == id {
        NoMatch(front, id);
      } else {
        AtMostOneMatches(front, id);
      }
    }
  }

  /** The group that a row finds in the join, by the table that was grouped. */
  function Found(entries: seq<Entry>, id: Uuid): Option<Group> {
    if Count(entries, id) == 0 then None else Some(GroupOf(entries, id))
  }

  lemma PairedWithItsGroup<T>(row: T, id: Uuid, groups: seq<Group>, entries: seq<Entry>)
    requires GroupedBy(groups, entries)
    ensures Paired(row, Matching(groups, id)) == [(row, Found(entries, id))]
  {
    var matching := Matching(groups, id);
    AtMostOneMatches(groups, id);
    MatchingElements(groups, id);
    hide Matching;
    if matching != [] {
      assert matching[0] in matching && matching == [matching[0]];
    }
  }

  /** A join with a grouped subquery neither drops nor repeats a row. */
  lemma {:induction false} JoinIsOneToOne<T>(rows: seq<T>, key: T -> Uuid, groups: seq<Group>, entries: seq<Entry>)
    requires GroupedBy(groups, entries)
    ensures |LeftJoin(rows, key, groups)| == |rows|
    ensures forall i :: 0 <= i < |rows| ==> LeftJoin(rows, key, groups)[i] == (rows[i], Found(entries, key(rows[i])))
  {
    hide GroupedBy, Found, Matching, Paired;
    if rows != [] {
      var front, last := rows[..|rows| - 1], rows[|rows| - 1];
      JoinIsOneToOne(front, key, groups, entries);
      PairedWithItsGroup(last, key(last), groups, entries);
    }
  }

  datatype PrincipalItem = PrincipalItem(principal: Principal, scopes: nat, credentials: nat, usable: nat)

  /** The selected columns: coalesce(count, 0), and no usable credential for a disabled principal. */
  function Selected(p: Principal, scopes: Option<Group>, credentials: Option<Group>): PrincipalItem {
    PrincipalItem(p, if scopes.None? then 0 else scopes.value.count,
                  if credentials.None? then 0 else credentials.value.count,
                  if !p.Active() || credentials.None? then 0 else credentials.value.sum)
  }

  function JoinBoth(principals: seq<Principal>, scopes: seq<Group>, credentials: seq<Group>)
    : seq<((Principal, Option<Group>), Option<Group>)>
  {
    LeftJoin(LeftJoin(principals, (p: Principal) => p.principalId, scopes),
             (row: (Principal, Option<Group>)) => row.0.principalId, credentials)
  }

  function SelectedRows(principals: seq<Principal>, scopes: seq<Group>, credentials: seq<Group>): (items: seq<PrincipalItem>)
    ensures |items| == |JoinBoth(principals, scopes, credentials)|
  {
    var rows := JoinBoth(principals, scopes, credentials);
    seq(|rows|, i requires 0 <= i < |rows| => Selected(rows[i].0.0, rows[i].0.1, rows[i].1))
  }

  /** The scope table holds each principal's Tenants, one row for each. */
  ghost predicate ScopesMatch(principals: seq<Principal>, scopes: seq<TenantScope>) {
    && (forall i, j :: 0 <= i < j < |scopes| ==> scopes[i] != scopes[j])
    && (forall p, t :: p in principals ==> (TenantScope(p.principalId, t) in scopes <==> t in p.tenantIds))
  }

  /** What the inventory should say of one principal. */
  function Expected(p: Principal, table: seq<Credential>, now: int): PrincipalItem {
    PrincipalItem(p, |p.tenantIds|, |CredentialsOf(table, p.principalId)|,
                  if p.Active() then Usable(table, p.principalId, now) else 0)
  }

  /** The credentials of a principal that are not revoked and not expired. */
  function Usable(table: seq<Credential>, principalId: Uuid, now: int): nat {
    if table == [] then 0
    else
      var last := table[|table| - 1];
      Usable(table[..|table| - 1], principalId, now) + (if last.principalId == principalId && last.UsableAt(now) then 1 else 0)
  }

  lemma {:induction false} CredentialsAreCounted(table: seq<Credential>, id: Uuid, now: int)
    ensures Count(CredentialEntries(table, now), id) == |CredentialsOf(table, id)|
    ensures Sum(CredentialEntries(table, now), id) == Usable(table, id, now)
  {
    if table != [] {
      var front, last := table[..|table| - 1], table[|table| - 1];
      CredentialsAreCounted(front, id, now);
      var e := Entry(last.principalId, if last.UsableAt(now) then 1 else 0);
      assert (CredentialEntries(front, now) + [e])[..|CredentialEntries(front, now)|] == CredentialEntries(front, now);
    }
  }

  /** Without repeated rows, the number of rows is the number of Tenants. */
  lemma {:induction false} ScopesAreCounted(scopes: seq<TenantScope>, id: Uuid, tenants: set<Uuid>)
    requires forall i, j :: 0 <= i < j < |scopes| ==> scopes[i] != scopes[j]
    requires forall t :: TenantScope(id, t) in scopes <==> t in tenants
    ensures Count(ScopeEntries(scopes), id) == |tenants|
  {
    if scopes == [] {
      forall t: Uuid
        ensures t !in tenants
      {
        assert TenantScope(id, t) !in scopes;
      }
      assert tenants == {};
    } else {
      var front, last := scopes[..|scopes| - 1], scopes[|scopes| - 1];
      assert scopes == front + [last] && last !in front;
      assert (ScopeEntries(front) + [Entry(last.principalId, 0)])[..|ScopeEntries(front)|] == ScopeEntries(front);
      if last.principalId == id {
        assert last == TenantScope(id, last.tenantId);
        ScopesAreCounted(front, id, tenants - {last.tenantId});
      } else {
        ScopesAreCounted(front, id, tenants);
      }
    }
  }

  /** The two joins multiply nothing, in whatever order the groups come: one row per principal, with the
      number of its Tenants and the counts of its own credentials. */
  lemma JoinsDoNotMultiply(principals: seq<Principal>, scopes: seq<TenantScope>, scopeGroups: seq<Group>,
                           table: seq<Credential>, credentialGroups: seq<Group>, now: int)
    requires ScopesMatch(principals, scopes)
    requires GroupedBy(scopeGroups, ScopeEntries(scopes)) && GroupedBy(credentialGroups, CredentialEntries(table, now))
    ensures |SelectedRows(principals, scopeGroups, credentialGroups)| == |principals|
    ensures forall i :: 0 <= i < |principals| ==>
              SelectedRows(principals, scopeGroups, credentialGroups)[i] == Expected(principals[i], table, now)
  {
    hide GroupedBy, Count, Sum, CredentialEntries, ScopeEntries, LeftJoin;
    var once := LeftJoin(principals, (p: Principal) => p.principalId, scopeGroups);
    JoinIsOneToOne(principals, (p: Principal) => p.principalId, scopeGroups, ScopeEntries(scopes));
    JoinIsOneToOne(once, (row: (Principal, Option<Group>)) => row.0.principalId, credentialGroups, CredentialEntries(table, now));
    forall i | 0 <= i < |principals|
      ensures SelectedRows(principals, scopeGroups, credentialGroups)[i] == Expected(principals[i], table, now)
    {
      var p := principals[i];
      ScopesAreCounted(scopes, p.principalId, p.tenantIds);
      CredentialsAreCounted(table, p.principalId, now);
      if Count(CredentialEntries(table, now), p.principalId) == 0 {
        NothingIsSummed(CredentialEntries(table, now), p.principalId);
      }
    }
  }

  datatype PrincipalInventory = PrincipalInventory(items: seq<PrincipalItem>, truncated: bool)

  /** `ordered` holds all principals in the order of the query. */
  method ListPrincipals(ordered: seq<Principal>, scopes: seq<TenantScope>, table: seq<Credential>, limit: int, now: int)
    returns (r: Result<PrincipalInventory, InventoryError>)
    requires ScopesMatch(ordered, scopes)
    ensures r.Success? <==> 1 <= limit <= 100
    ensures r.Failure? ==> r.error == InvalidLimit
    ensures r.Success? ==>
              && (r.value.truncated <==> |ordered| > limit)
              && |r.value.items| == (if |ordered| < limit then |ordered| else limit)
              && forall i :: 0 <= i < |r.value.items| ==> r.value.items[i] == Expected(ordered[i], table, now)
  {
    if !(1 <= limit <= 100) {
      return Failure(InvalidLimit);
    }
    var scopeGroups := GroupByPrincipal(ScopeEntries(scopes));
    var credentialGroups := GroupByPrincipal(CredentialEntries(table, now));
    var rows := SelectedRows(ordered, scopeGroups, credentialGroups);
    JoinsDoNotMultiply(ordered, scopes, scopeGroups, table, credentialGroups, now);
    var records := if |rows| <= limit + 1 then rows else rows[..limit + 1];
    r := Success(PrincipalInventory(if |records| <= limit then records else records[..limit], |records| > limit));
  }

  // The two usable counts

  lemma LeaveOutBeforeTheLast<T>(s: seq<T>, k: nat)
    requires k < |s| - 1
    ensures var front, rest := s[..|s| - 1], s[..k] + s[k + 1..];
            rest[..|rest| - 1] == front[..k] + front[k + 1..] && rest[|rest| - 1] == s[|s| - 1]
  {
  }

  lemma {:induction false} ActiveItemsWithout(s: seq<Credential>, k: nat, disabled: bool, now: int)
    requires k < |s|
    ensures ActiveItems(s, disabled, now) ==
            ActiveItems(s[..k] + s[k + 1..], disabled, now) + (if ItemOf(s[k], disabled, now).usable then 1 else 0)
  {
    hide ItemOf;
    var front, last := s[..|s| - 1], s[|s| - 1];
    if k == |s| - 1 {
      assert s[..k] + s[k + 1..] == front;
    } else {
      ActiveItemsWithout(front, k, disabled, now);
      var rest := s[..k] + s[k + 1..];
      LeaveOutBeforeTheLast(s, k);
    }
  }

  lemma RemoveOne(b: seq<Credential>, c: Credential) returns (k: nat)
    requires c in b
    ensures k < |b| && b[k] == c && multiset(b[..k] + b[k + 1..]) == multiset(b) - multiset{c}
  {
    k :| 0 <= k < |b| && b[k] == c;
    assert b == b[..k] + [b[k]] + b[k + 1..];
  }

  /** The order of the query does not matter to the count. */
  lemma {:induction false} ActiveItemsIgnoreOrder(a: seq<Credential>, b: seq<Credential>, disabled: bool, now: int)
    requires multiset(a) == multiset(b)
    ensures ActiveItems(a, disabled, now) == ActiveItems(b, disabled, now)
  {
    hide ItemOf;
    if a == [] {
      assert |b| == |multiset(b)| == 0;
    } else {
      var front, last := a[..|a| - 1], a[|a| - 1];
      assert a == front + [last];
      assert last in multiset(b);
      var k := RemoveOne(b, last);
      ActiveItemsIgnoreOrder(front, b[..k] + b[k + 1..], disabled, now);
      ActiveItemsWithout(b, k, disabled, now);
    }
  }

  lemma ActiveItemsAppend(s: seq<Credential>, c: Credential, disabled: bool, now: int)
    ensures ActiveItems(s + [c], disabled, now) ==
            ActiveItems(s, disabled, now) + (if ItemOf(c, disabled, now).usable then 1 else 0)
  {
    assert (s + [c])[..|s|] == s;
  }

  lemma {:induction false} UsableCountsActive(table: seq<Credential>, p: Principal, now: int)
    ensures ActiveItems(CredentialsOf(table, p.principalId), !p.Active(), now) ==
            if p.Active() then Usable(table, p.principalId, now) else 0
  {
    if table == [] {
      assert CredentialsOf(table, p.principalId) == [];
    } else {
      var front, last := table[..|table| - 1], table[|table| - 1];
      var own := CredentialsOf(front, p.principalId);
      UsableCountsActive(front, p, now);
      assert own + [] == own;
      hide ActiveItems;
      ActiveItemsAppend(own, last, !p.Active(), now);
    }
  }

  /** The inventory's counts of a principal are those of its untruncated credential inventory: all its
      items, and the active ones among them. */
  lemma UsableCountsAgree(p: Principal, table: seq<Credential>, ordered: seq<Credential>, now: int)
    requires multiset(ordered) == multiset(CredentialsOf(table, p.principalId))
    ensures Expected(p, table, now).usable == ActiveItems(ordered, !p.Active(), now)
    ensures Expected(p, table, now).credentials == |ordered|
  {
    var own := CredentialsOf(table, p.principalId);
    ActiveItemsIgnoreOrder(ordered, own, !p.Active(), now);
    UsableCountsActive(table, p, now);
    assert |ordered| == |multiset(ordered)| == |multiset(own)| == |own|;
  }
}
