/**
 Authentication evidence: a bounded table that keeps one row per credential, outcome and hour, and
 the authenticator that writes it. What the table means is the log of all attempts.
 */
module Evidence {
  import opened Wrappers
  import opened Sets
  import opened Uuids
  import opened UsageLimit
  import opened UnitOfWorks
  import opened ManagementIdentity

  const HOUR := 3_600_000_000
  const RETENTION := 90 * DAY
  const RETAINED_BUCKETS: nat := 2161

  datatype Outcome = SUCCEEDED | CREDENTIAL_MISMATCH | REVOKED | EXPIRED | PRINCIPAL_DISABLED

  datatype Key = Key(credentialId: Uuid, outcome: Outcome, bucket: int)

  datatype Evidence = Evidence(principalId: Uuid, firstObservedAt: int)

  type Table = map<Key, Evidence>

  /** One attempt whose credential and principal are known. */
  datatype Attempt = Attempt(credentialId: Uuid, principalId: Uuid, outcome: Outcome, at: int)

  function HourlyBucket(at: int): int {
    at - at % HOUR
  }

  function KeyOf(a: Attempt): Key {
    Key(a.credentialId, a.outcome, HourlyBucket(a.at))
  }

  /** DELETE of the buckets before the retention, then INSERT unless the key is there. */
  function Observe(table: Table, a: Attempt): Table {
    var kept := map k | k in table && k.bucket >= HourlyBucket(a.at) - RETENTION :: table[k];
    if KeyOf(a) in kept then kept else kept[KeyOf(a) := Evidence(a.principalId, a.at)]
  }

  function TableOf(log: seq<Attempt>): Table {
    if log == [] then map[] else Observe(TableOf(log[..|log| - 1]), log[|log| - 1])
  }

  /** The clock never went back between attempts. */
  predicate Nondecreasing(log: seq<Attempt>) {
    forall i, j :: 0 <= i < j < |log| ==> log[i].at <= log[j].at
  }

  function Times(log: seq<Attempt>): seq<int> {
    seq(|log|, i requires 0 <= i < |log| => log[i].at)
  }

  /** No attempt finds within its retention an hour that an attempt in between put out of its own. */
  predicate KeepsRetention(times: seq<int>) {
    forall i, j, m :: 0 <= i < j < m < |times| ==>
      !(HourlyBucket(times[m]) - RETENTION <= HourlyBucket(times[i]) < HourlyBucket(times[j]) - RETENTION)
  }

  /** Attempt i is the first with its key. */
  predicate FirstOfKey(log: seq<Attempt>, i: nat)
    requires i < |log|
  {
    forall j :: 0 <= j < i ==> KeyOf(log[j]) != KeyOf(log[i])
  }

  predicate Retained(key: Key, latest: int) {
    key.bucket >= HourlyBucket(latest) - RETENTION
  }

  /** The table holds exactly the retained keys of the log, each with its first attempt. */
  ghost predicate Indexes(table: Table, log: seq<Attempt>) {
    && (log == [] ==> table == map[])
    && (log != [] ==>
          var latest := log[|log| - 1].at;
          && (forall i :: 0 <= i < |log| && Retained(KeyOf(log[i]), latest) ==> KeyOf(log[i]) in table)
          && (forall k :: k in table ==> Retained(k, latest) && exists i :: 0 <= i < |log| && KeyOf(log[i]) == k)
          && (forall i :: 0 <= i < |log| && FirstOfKey(log, i) && KeyOf(log[i]) in table ==>
                table[KeyOf(log[i])] == Evidence(log[i].principalId, log[i].at)))
  }

  lemma BucketsFollowTheClock(a: int, b: int)
    requires a <= b
    ensures HourlyBucket(a) <= HourlyBucket(b)
    ensures HourlyBucket(a) <= a < HourlyBucket(a) + HOUR && HourlyBucket(a) % HOUR == 0
  {
  }

  /** What the new attempt retains, the one before it retained too. */
  lemma RetainedByTheLast(log: seq<Attempt>, a: Attempt, i: nat)
    requires KeepsRetention(Times(log + [a])) && i < |log| && Retained(KeyOf(log[i]), a.at)
    ensures Retained(KeyOf(log[i]), log[|log| - 1].at)
  {
    hide HourlyBucket;
    var times := Times(log + [a]);
    assert times[i] == log[i].at && times[|log| - 1] == log[|log| - 1].at && times[|log|] == a.at;
    if i < |log| - 1 {
      assert !(HourlyBucket(times[|log|]) - RETENTION <= HourlyBucket(times[i]) < HourlyBucket(times[|log| - 1]) - RETENTION);
    }
  }

  /** A key that is still retained was in the table before, or is the one just observed. */
  lemma RetainedKeysStay(table: Table, log: seq<Attempt>, a: Attempt, i: nat)
    requires Indexes(table, log) && KeepsRetention(Times(log + [a])) && i < |log| && Retained(KeyOf(log[i]), a.at)
    ensures KeyOf(log[i]) in Observe(table, a)
  {
    hide HourlyBucket;
    RetainedByTheLast(log, a, i);
  }

  lemma ObservedKeysWereAttempted(table: Table, log: seq<Attempt>, a: Attempt, k: Key)
    requires Indexes(table, log) && k in Observe(table, a)
    ensures Retained(k, a.at) && exists i :: 0 <= i < |log + [a]| && KeyOf((log + [a])[i]) == k
  {
    hide HourlyBucket;
    var longer := log + [a];
    if k == KeyOf(a) {
      assert KeyOf(longer[|log|]) == k;
    } else {
      var i :| 0 <= i < |log| && KeyOf(log[i]) == k;
      assert KeyOf(longer[i]) == k;
    }
  }

  /** One observation keeps the table exact; a purged key cannot come back into the retention. */
  lemma ObserveRefines(table: Table, log: seq<Attempt>, a: Attempt)
    requires Indexes(table, log) && KeepsRetention(Times(log + [a]))
    ensures Indexes(Observe(table, a), log + [a])
  {
    var after, longer := Observe(table, a), log + [a];
    assert KeyOf(a) in after;
    hide HourlyBucket, Observe, Retained, FirstOfKey, KeyOf;
    assert longer[|log|] == a && forall i :: 0 <= i < |log| ==> longer[i] == log[i];
    forall i | 0 <= i < |longer| && Retained(KeyOf(longer[i]), a.at)
      ensures KeyOf(longer[i]) in after
    {
      if i < |log| {
        RetainedKeysStay(table, log, a, i);
      }
    }
    forall k | k in after
      ensures Retained(k, a.at) && exists i :: 0 <= i < |longer| && KeyOf(longer[i]) == k
    {
      ObservedKeysWereAttempted(table, log, a, k);
    }
    forall i | 0 <= i < |longer| && FirstOfKey(longer, i) && KeyOf(longer[i]) in after
      ensures after[KeyOf(longer[i])] == Evidence(longer[i].principalId, longer[i].at)
    {
      FirstStaysFirst(table, log, a, i);
    }
  }

  /** A key met before in the current hour is still in the table. */
  lemma CurrentHourIsKept(table: Table, log: seq<Attempt>, a: Attempt, i: nat)
    requires Indexes(table, log) && KeepsRetention(Times(log + [a]))
    requires i < |log| && KeyOf(log[i]) == KeyOf(a)
    ensures KeyOf(log[i]) in table
  {
    hide HourlyBucket;
    RetainedByTheLast(log, a, i);
  }

  lemma FirstStaysFirst(table: Table, log: seq<Attempt>, a: Attempt, i: nat)
    requires Indexes(table, log) && KeepsRetention(Times(log + [a])) && i < |log + [a]| && FirstOfKey(log + [a], i)
    requires KeyOf((log + [a])[i]) in Observe(table, a)
    ensures Observe(table, a)[KeyOf((log + [a])[i])] == Evidence((log + [a])[i].principalId, (log + [a])[i].at)
  {
    hide HourlyBucket, Retained;
    var longer := log + [a];
    if i < |log| {
      assert longer[i] == log[i];
      assert FirstOfKey(log, i) by {
        assert forall j :: 0 <= j < i ==> longer[j] == log[j];
      }
      if KeyOf(log[i]) == KeyOf(a) {
        CurrentHourIsKept(table, log, a, i);
      }
      assert KeyOf(log[i]) in table;
      hide Indexes, FirstOfKey;
      assert Observe(table, a)[KeyOf(log[i])] == table[KeyOf(log[i])];
    } else {
      NewKeyIsAbsent(table, log, a);
    }
  }

  lemma NewKeyIsAbsent(table: Table, log: seq<Attempt>, a: Attempt)
    requires Indexes(table, log) && FirstOfKey(log + [a], |log|)
    ensures KeyOf(a) !in table
  {
    hide HourlyBucket, Retained, Observe;
    var longer := log + [a];
    forall k | k in table
      ensures k != KeyOf(a)
    {
      var i :| 0 <= i < |log| && KeyOf(log[i]) == k;
      assert longer[i] == log[i] && KeyOf(longer[i]) != KeyOf(longer[|log|]);
    }
  }

  lemma FrontKeepsRetention(log: seq<Attempt>, n: nat)
    requires n <= |log| && KeepsRetention(Times(log))
    ensures KeepsRetention(Times(log[..n]))
  {
    hide HourlyBucket;
    var times, front := Times(log), Times(log[..n]);
    assert forall i :: 0 <= i < n ==> front[i] == times[i];
  }

  /** After any log whose times keep the retention, the table is its exact index. */
  lemma {:induction false} TableIsExact(log: seq<Attempt>)
    requires KeepsRetention(Times(log))
    ensures Indexes(TableOf(log), log)
  {
    hide Observe, Indexes, KeepsRetention;
    if log == [] {
      EmptyRefines();
    } else {
      var front, last := log[..|log| - 1], log[|log| - 1];
      assert log == front + [last];
      FrontKeepsRetention(log, |log| - 1);
      TableIsExact(front);
      ObserveRefines(TableOf(front), front, last);
    }
  }

  lemma NondecreasingKeepsRetention(log: seq<Attempt>)
    requires Nondecreasing(log)
    ensures KeepsRetention(Times(log))
  {
    hide HourlyBucket;
    var times := Times(log);
    forall i, j, m | 0 <= i < j < m < |times|
      ensures !(HourlyBucket(times[m]) - RETENTION <= HourlyBucket(times[i]) < HourlyBucket(times[j]) - RETENTION)
    {
      BucketsFollowTheClock(times[j], times[m]);
    }
  }

  /** After any log under a clock that does not go back, the rows are exactly the distinct keys of the
      attempts within the retention, each with its earliest time. */
  lemma TableRefinesLog(log: seq<Attempt>)
    requires Nondecreasing(log)
    ensures Indexes(TableOf(log), log)
  {
    hide Indexes, TableOf, Nondecreasing, KeepsRetention;
    NondecreasingKeepsRetention(log);
    TableIsExact(log);
  }

  // Exactly which clocks keep the table exact

  /** Whoever attempts with whatever outcome at these times, the table is exact after each attempt. */
  ghost predicate AlwaysExact(times: seq<int>) {
    forall log, n :: Times(log) == times && 0 <= n <= |log| ==> Indexes(TableOf(log[..n]), log[..n])
  }

  /** Attempt i by one credential, all others by another. */
  function Singled(times: seq<int>, i: nat): seq<Attempt> {
    seq(|times|, n requires 0 <= n < |times| => Attempt(if n == i then 0 else 1, 0, SUCCEEDED, times[n]))
  }

  lemma {:induction false} PurgedStaysAway(times: seq<int>, i: nat, j: nat, n: nat)
    requires i < j < n <= |times| && HourlyBucket(times[i]) < HourlyBucket(times[j]) - RETENTION
    ensures KeyOf(Singled(times, i)[i]) !in TableOf(Singled(times, i)[..n])
  {
    hide HourlyBucket;
    var log := Singled(times, i);
    var front, last := log[..n][..n - 1], log[n - 1];
    assert log[..n][n - 1] == last && front == log[..n - 1];
    assert TableOf(log[..n]) == Observe(TableOf(front), last);
    assert KeyOf(last) != KeyOf(log[i]);
    if n > j + 1 {
      PurgedStaysAway(times, i, j, n - 1);
    }
  }

  /** A retention that is not kept leaves out an hour, for some attempts at those times. */
  lemma LostHour(times: seq<int>, i: nat, j: nat, m: nat)
    requires i < j < m < |times|
    requires HourlyBucket(times[m]) - RETENTION <= HourlyBucket(times[i]) < HourlyBucket(times[j]) - RETENTION
    ensures var log := Singled(times, i)[..m + 1];
            Retained(KeyOf(log[i]), log[m].at) && KeyOf(log[i]) !in TableOf(log) && !Indexes(TableOf(log), log)
  {
    hide HourlyBucket, TableOf;
    PurgedStaysAway(times, i, j, m + 1);
    var whole := Singled(times, i);
    var log := whole[..m + 1];
    assert log[i] == whole[i] && log[m] == whole[m];
  }

  /** The table is exact after every attempt, for all attempts made at these times, if and only if no
      attempt finds within its retention an hour that an earlier one had put out of its own. */
  lemma EvidenceIsExactIff(times: seq<int>)
    ensures AlwaysExact(times) <==> KeepsRetention(times)
  {
    hide HourlyBucket, TableOf, Indexes;
    if KeepsRetention(times) {
      forall log, n | Times(log) == times && 0 <= n <= |log|
        ensures Indexes(TableOf(log[..n]), log[..n])
      {
        FrontKeepsRetention(log, n);
        TableIsExact(log[..n]);
      }
    } else {
      var i, j, m :| 0 <= i < j < m < |times|
        && HourlyBucket(times[m]) - RETENTION <= HourlyBucket(times[i]) < HourlyBucket(times[j]) - RETENTION;
      LostHour(times, i, j, m);
      assert Times(Singled(times, i)) == times;
      assert 0 <= m + 1 <= |Singled(times, i)|;
    }
  }

  lemma TableOfAppend(log: seq<Attempt>, a: Attempt)
    ensures TableOf(log + [a]) == Observe(TableOf(log), a)
  {
    assert (log + [a])[..|log|] == log;
  }

  lemma EmptyRefines()
    ensures Indexes(map[], [])
  {
  }

  /** Whose attempt is first is also whose time is earliest. */
  lemma FirstIsEarliest(log: seq<Attempt>, i: nat, j: nat)
    requires Nondecreasing(log) && i < |log| && j < |log|
    requires FirstOfKey(log, i) && KeyOf(log[j]) == KeyOf(log[i])
    ensures log[i].at <= log[j].at
  {
    assert i <= j;
  }

  /** When the clock goes back, a purged hour within the retention of the new hour is lost. */
  lemma ClockGoingBackLosesEvidence(credentialId: Uuid, principalId: Uuid)
    ensures var log := [Attempt(credentialId, principalId, SUCCEEDED, 0),
                        Attempt(credentialId, principalId, SUCCEEDED, RETENTION + HOUR),
                        Attempt(credentialId, principalId, SUCCEEDED, HOUR)];
            && Retained(KeyOf(log[0]), log[2].at)
            && KeyOf(log[0]) !in TableOf(log)
  {
    var first := Attempt(credentialId, principalId, SUCCEEDED, 0);
    var second := Attempt(credentialId, principalId, SUCCEEDED, RETENTION + HOUR);
    var third := Attempt(credentialId, principalId, SUCCEEDED, HOUR);
    assert [first, second, third][..2] == [first, second] && [first, second][..1] == [first] && [first][..0] == [];
    assert HourlyBucket(0) == 0 && HourlyBucket(RETENTION + HOUR) == RETENTION + HOUR && HourlyBucket(HOUR) == HOUR;
    assert KeyOf(first) !in TableOf([first, second]);
    assert KeyOf(third) != KeyOf(first);
  }

  // The size of the table

  /** One of the first n hours from `low`. */
  predicate WithinHours(bucket: int, low: int, n: nat) {
    low <= bucket < low + n * HOUR && (bucket - low) % HOUR == 0
  }

  lemma LastHour(bucket: int, low: int, n: nat)
    requires n > 0
    ensures WithinHours(bucket, low, n) <==> WithinHours(bucket, low, n - 1) || bucket == low + (n - 1) * HOUR
  {
  }

  /** The keys of one credential and outcome in the first n hours from `low`. */
  ghost function HourKeys(credentialId: Uuid, outcome: Outcome, low: int, n: nat): (r: set<Key>)
    ensures |r| <= n
    ensures forall k: Key :: k.credentialId == credentialId && k.outcome == outcome && WithinHours(k.bucket, low, n) ==> k in r
  {
    if n == 0 then {}
    else
      assert forall bucket :: WithinHours(bucket, low, n) ==>
          WithinHours(bucket, low, n - 1) || bucket == low + (n - 1) * HOUR by {
        forall bucket
          ensures WithinHours(bucket, low, n) ==> WithinHours(bucket, low, n - 1) || bucket == low + (n - 1) * HOUR
        {
          LastHour(bucket, low, n);
        }
      }
      hide WithinHours;
      HourKeys(credentialId, outcome, low, n - 1) + {Key(credentialId, outcome, low + (n - 1) * HOUR)}
  }

  ghost function OutcomeKeys(credentialId: Uuid, low: int, n: nat): (r: set<Key>)
    ensures |r| <= 5 * n
    ensures forall k: Key :: k.credentialId == credentialId && WithinHours(k.bucket, low, n) ==> k in r
  {
    hide WithinHours;
    var a, b := HourKeys(credentialId, SUCCEEDED, low, n), HourKeys(credentialId, CREDENTIAL_MISMATCH, low, n);
    var c, d := HourKeys(credentialId, REVOKED, low, n), HourKeys(credentialId, EXPIRED, low, n);
    var e := HourKeys(credentialId, PRINCIPAL_DISABLED, low, n);
    UnionSize(a, b);
    UnionSize(a + b, c);
    UnionSize(a + b + c, d);
    UnionSize(a + b + c + d, e);
    a + b + c + d + e
  }

  lemma {:induction false} CredentialKeysBound(ids: set<Uuid>, low: int, n: nat) returns (keys: set<Key>)
    ensures |keys| <= |ids| * (5 * n)
    ensures forall k: Key :: k.credentialId in ids && WithinHours(k.bucket, low, n) ==> k in keys
    decreases |ids|
  {
    hide WithinHours;
    if ids == {} {
      keys := {};
    } else {
      var id :| id in ids;
      var rest := CredentialKeysBound(ids - {id}, low, n);
      var own := OutcomeKeys(id, low, n);
      UnionSize(rest, own);
      keys := rest + own;
      assert |ids - {id}| == |ids| - 1;
      OneMore(|ids|, 5 * n);
    }
  }

  lemma OneMore(a: int, b: int)
    ensures a * b == (a - 1) * b + b
  {
  }

  /** A retained bucket is one of the 2161 hours that end with the current one. */
  lemma RetainedHours(at: int, latest: int)
    requires at <= latest && HourlyBucket(latest) - RETENTION <= HourlyBucket(at)
    ensures WithinHours(HourlyBucket(at), HourlyBucket(latest) - RETENTION, RETAINED_BUCKETS)
  {
    BucketsFollowTheClock(at, latest);
    BucketsFollowTheClock(latest, latest);
  }

  /** Every key of a refining table comes from a retained attempt. */
  lemma KeysComeFromAttempts(table: Table, log: seq<Attempt>, k: Key) returns (i: nat)
    requires log != [] && Indexes(table, log) && k in table
    ensures i < |log| && KeyOf(log[i]) == k && Retained(k, log[|log| - 1].at)
  {
    hide HourlyBucket;
    i :| 0 <= i < |log| && KeyOf(log[i]) == k;
  }

  lemma KeysAreWithinHours(table: Table, log: seq<Attempt>, ids: set<Uuid>, k: Key)
    requires log != [] && Nondecreasing(log) && Indexes(table, log) && k in table
    requires forall i :: 0 <= i < |log| ==> log[i].credentialId in ids
    ensures k.credentialId in ids
    ensures WithinHours(k.bucket, HourlyBucket(log[|log| - 1].at) - RETENTION, RETAINED_BUCKETS)
  {
    hide HourlyBucket, WithinHours, Indexes;
    var i := KeysComeFromAttempts(table, log, k);
    assert log[i].at <= log[|log| - 1].at;
    RetainedHours(log[i].at, log[|log| - 1].at);
  }

  lemma RefiningTableIsBounded(table: Table, log: seq<Attempt>, ids: set<Uuid>)
    requires log != [] && Nondecreasing(log) && Indexes(table, log)
    requires forall i :: 0 <= i < |log| ==> log[i].credentialId in ids
    ensures |table| <= |ids| * (5 * RETAINED_BUCKETS)
  {
    hide HourlyBucket, WithinHours, Indexes, Nondecreasing;
    var low := HourlyBucket(log[|log| - 1].at) - RETENTION;
    var keys := CredentialKeysBound(ids, low, RETAINED_BUCKETS);
    forall k | k in table
      ensures k in keys
    {
      KeysAreWithinHours(table, log, ids, k);
    }
    SubsetSize(table.Keys, keys);
  }

  /** However many attempts there are, the table has at most 5 * 2161 rows per credential. */
  lemma TableIsBounded(log: seq<Attempt>, ids: set<Uuid>)
    requires Nondecreasing(log) && forall i :: 0 <= i < |log| ==> log[i].credentialId in ids
    ensures |TableOf(log)| <= |ids| * (5 * RETAINED_BUCKETS)
  {
    if log != [] {
      hide TableOf, Indexes, Nondecreasing;
      TableRefinesLog(log);
      RefiningTableIsBounded(TableOf(log), log, ids);
    }
  }

  // The authenticator

  datatype AuthenticatedIdentity = AuthenticatedIdentity(
    principalId: Uuid, credentialId: Uuid, tenantIds: set<Uuid>, canManage: bool)

  datatype AuthenticationState = AuthenticationState(identity: ManagementState, evidence: Table)

  datatype AuthenticationError = Unavailable

  /** The first check that fails, in the order in which they are made. */
  function OutcomeOf(p: Principal, c: Credential, secretMatches: bool, at: int): Outcome {
    if !secretMatches then CREDENTIAL_MISMATCH
    else if c.revokedAt.Some? then REVOKED
    else if c.expiresAt.Some? && at >= c.expiresAt.value then EXPIRED
    else if !p.Active() then PRINCIPAL_DISABLED
    else SUCCEEDED
  }

  /** Which check names the outcome when several would fail. */
  lemma FirstFailingCheckDecides(p: Principal, c: Credential, secretMatches: bool, at: int)
    ensures var outcome, expired := OutcomeOf(p, c, secretMatches, at), c.expiresAt.Some? && c.expiresAt.value <= at;
            && (outcome == CREDENTIAL_MISMATCH <==> !secretMatches)
            && (outcome == REVOKED <==> secretMatches && c.revokedAt.Some?)
            && (outcome == EXPIRED <==> secretMatches && c.revokedAt.None? && expired)
            && (outcome == PRINCIPAL_DISABLED <==> secretMatches && c.revokedAt.None? && !expired && p.disabledAt.Some?)
            && (outcome == SUCCEEDED <==> secretMatches && c.revokedAt.None? && !expired && p.disabledAt.None?)
  {
  }

  /** Every instant lies in exactly one hour, its own. */
  lemma HoursPartitionTime(at: int, other: int)
    ensures HourlyBucket(at) <= at < HourlyBucket(at) + 3_600_000_000
    ensures HourlyBucket(at) % 3_600_000_000 == 0
    ensures HourlyBucket(other) <= at < HourlyBucket(other) + 3_600_000_000 <==> HourlyBucket(other) == HourlyBucket(at)
  {
    if HourlyBucket(other) <= at < HourlyBucket(other) + HOUR {
      assert at / HOUR == other / HOUR;
    }
  }

  class ManagementAuthenticator {
    const uow: UnitOfWork<AuthenticationState>
    ghost var attempts: seq<Attempt>

    constructor (uow: UnitOfWork<AuthenticationState>)
      requires uow.database.committed.evidence == map[]
      ensures Valid() && this.uow == uow && attempts == []
    {
      this.uow, attempts := uow, [];
    }

    /** The table is what all recorded attempts made of it, one after another. */
    ghost predicate Valid()
      reads this, uow, uow.database
    {
      uow.database.committed.evidence == TableOf(attempts)
    }

    /** So it is the bounded index of them whenever their times kept the retention. */
    lemma TableIndexesAttempts()
      requires Valid()
      ensures KeepsRetention(Times(attempts)) ==> Indexes(uow.database.committed.evidence, attempts)
    {
      if KeepsRetention(Times(attempts)) {
        TableIsExact(attempts);
      }
    }

    /** Every outcome of a known credential leaves its evidence, or nothing at all if that fails. */
    method Authenticate(parsed: Option<Uuid>, secretMatches: bool, at: int, interrupted: bool)
      returns (r: Result<Option<AuthenticatedIdentity>, AuthenticationError>)
      requires Valid()
      modifies this, uow, uow.database
      ensures Valid()
      ensures uow.database.committed.identity == old(uow.database.committed.identity)
      ensures var s := old(uow.database.committed.identity);
              if || parsed.None? || parsed.value !in s.credentials
                 || s.credentials[parsed.value].principalId !in s.principals then
                && uow.database.committed == old(uow.database.committed) && attempts == old(attempts)
                && r == Success(None)
              else if interrupted then
                && uow.database.committed == old(uow.database.committed) && attempts == old(attempts)
                && r == Failure(Unavailable)
              else
                var c := s.credentials[parsed.value];
                var p := s.principals[c.principalId];
                var outcome := OutcomeOf(p, c, secretMatches, at);
                && attempts == old(attempts) + [Attempt(parsed.value, c.principalId, outcome, at)]
                && (r == Success(None) <==>
                      || !secretMatches || c.revokedAt.Some? || p.disabledAt.Some?
                      || (c.expiresAt.Some? && c.expiresAt.value <= at))
                && (r != Success(None) ==>
                      r == Success(Some(AuthenticatedIdentity(p.principalId, c.credentialId, p.tenantIds, p.canManage))))
    {
      hide Observe, Indexes, TableOf;
      if parsed.None? {
        return Success(None);
      }
      uow.Enter();
      var s := uow.Current().identity;
      if parsed.value !in s.credentials {
        uow.Exit();
        return Success(None);
      }
      var credential := s.credentials[parsed.value];
      if credential.principalId !in s.principals {
        uow.Exit();
        return Success(None);
      }
      var principal := s.principals[credential.principalId];
      var outcome := SUCCEEDED;
      if !secretMatches {
        outcome := CREDENTIAL_MISMATCH;
      } else if credential.revokedAt.Some? {
        outcome := REVOKED;
      } else if credential.expiresAt.Some? && at >= credential.expiresAt.value {
        outcome := EXPIRED;
      } else if !principal.Active() {
        outcome := PRINCIPAL_DISABLED;
      }
      if interrupted {
        uow.Exit();
        return Failure(Unavailable);
      }
      var attempt := Attempt(parsed.value, credential.principalId, outcome, at);
      TableOfAppend(attempts, attempt);
      uow.Write(uow.Current().(evidence := Observe(uow.Current().evidence, attempt)));
      var committed := uow.Commit();
      attempts := attempts + [attempt];
      uow.Exit();
      r := Success(if outcome == SUCCEEDED
                   then Some(AuthenticatedIdentity(principal.principalId, credential.credentialId,
                                                   principal.tenantIds, principal.canManage))
                   else None);
    }
  }
}
