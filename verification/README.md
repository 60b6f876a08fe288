# Governance gateway: verified model

This project models the correctness core of a governance control plane for AI invocations and proves
properties of it in Dafny 4.11. `dafny verify dfyconfig.toml` checks everything.

The system admits a request through policy, a UTC-day usage limit and a Tenant cost budget, calls a
model provider, and appends one immutable row to a ledger. The gates sum over the ledger that the rows
are appended to, and no lock is held across the provider call. Around that sit exact money arithmetic,
two identity lifecycles whose transactions interleave under advisory and row locks, an authentication
evidence table, and audit records that carry before/after fingerprints.

How the system is represented:

- The database is explicit state. A Unit of Work is a session that reads committed data until it writes
  and its own working copy from then on; commit publishes it, leaving the scope discards it.
- Concurrency is a state machine per protocol, one awaited statement per step, with READ COMMITTED reads.
  Two kinds of statement groups are one step: a transaction's own writes together with its commit, because
  nobody else sees uncommitted writes, and a principal's row together with its scopes in the management
  protocol. Results about runs hold for every interleaving of any number of calls or transactions.
- Stateful services are classes (`Gateway`, `PolicyService`, `ManagementIdentityService`,
  `RuntimeIdentityService`, `ManagementAuthenticator`, `InvocationRepository`). `Gateway.Create` runs with
  other calls' events scheduled between its statements, and records the state-machine run it performs.
- Money is an integer number of quanta of 10^-12 USD, time an integer number of UTC microseconds, an
  identifier a 128-bit number with its RFC 9562 section 4 text form. Rounding is roundTiesToEven of
  section 4.3.1 of IEEE 754-2019, in decimal.
- Generated identifiers, clocks, the provider's answer, which statement fails and what other
  transactions do are parameters or events.

Where to start: `Overshoot.OvershootIsBounded`, `GateSafety.RowsPassedTheGates`,
`Tightness.BoundIsReached`, `Cost.AttributedCostIsExact`, `ManagementProtocol.RecoverabilityIsNeverDestroyed`
and `ManagementProtocol.RevocationIsSafeIff`, `Continuity.BindingsAreOneToOne` and
`Continuity.EveryReachableStateCanFinish`, `Evidence.EvidenceIsExactIff`, `Reporting.ReportsAgreeOverRuns`,
`Gateways.Gateway.Create`, `RowContents.RowsAreExplained`.

What the proofs found:

- A budget decision adds in the default Decimal context of 28 digits. It equals exact arithmetic for every
  attributed cost exactly when the configured limit has at most 28 digits in quanta (below 10^16 USD) or
  sits right before a rounding boundary. Settings allow 30 digits; 29-digit counterexamples in both
  directions are `CostBudget.RoundingChangesTheAnswer`, and in one of them the rejected row cannot be
  stored, because the CHECK adds exactly (`HandlerRows.UnrecordableRejection`).
- The check for another recoverable manager answers for one principal row, the first one scanned among
  the others: a true answer is right, a false one need not be. It is right for every scan order exactly
  when the other principals agree (`ManagementIdentity.RecoveryCheckIsExactIff`).
  A concrete refusal that is not needed is `ManagementIdentity.RecoveryCheckRefusesWrongly`.
- The same check judges usability at the database's transaction start, the service judges a credential at its
  own clock, and both instants are read before the wait for the lock. A permitted disabling keeps the system
  recoverable at exactly the instants up to the database's (`ManagementProtocol.DisablingIsSafeIff`), a
  revocation at exactly those up to both (`ManagementProtocol.RevocationIsSafeIff`). Any later instant is lost
  for some state: the service's own when the database clock lags
  (`ManagementProtocol.LaggingDatabaseClockLosesTheLastManager`), or that of the commit when the other
  manager's credential expires during the wait, with clocks that agree
  (`ManagementProtocol.WaitingForTheLockLosesTheLastManager`).
- A legacy identity may be the text form of another principal's identifier; the two then share usage
  (`RuntimeIdentity.BindingToAnotherPrincipalIsAccepted`).
- Evidence survives a clock that goes back a little: the table is exact for all attempts made at given times
  exactly when none of them comes back within the retention of an hour that an attempt in between had put out
  of its own (`Evidence.EvidenceIsExactIff`). A step back over the purge horizon loses hours
  (`Evidence.ClockGoingBackLosesEvidence`).
- A usage rejection with more than 2^31 - 1 consumed units, or such a limit, does not fit its INTEGER columns
  and cannot be recorded (`HandlerRows.LimitedRowsPersist`).
- A provider call need not have a row: an answer of white space only is refused after the call
  (`GateSafety.BlankAnswersLeaveNoRow`).
- Runtime credentials' audit records print instants in the offset they happen to carry. Issue and revocation
  join exactly when the database session returns the creation in UTC and the expiry in the offset in which the
  caller gave it (`RuntimeCredentialAudits.RecordsJoinIff`); management credentials convert to UTC first.
- The CHECK meant to keep a cost snapshot complete passes incomplete ones, because null makes it unknown
  (`InvocationRows.SnapshotCheckMeans`); reading one with a currency fails
  (`InvocationRows.OtherRowsAreNotLoaded`). The repository itself only writes complete ones.
- A usage in which all counts are absent reads back as no usage (`InvocationRows.LoadAfterStore`).

## Model

| member | source | states |
|---|---|---|
| Decimals.NearestEvenIsUnique | src/valor/runtime_gateway/domain/cost.py:59-64 | At most one integer is the nearest to n/d with ties to even, so "nearest even" determines the rounded value |
| Decimals.RoundHalfEvenIsNearest | src/valor/runtime_gateway/domain/cost.py:59-64 | The quantization used in the model returns that nearest value for every quotient |
| Decimals.RoundingTwiceIsRoundingOnce | src/valor/runtime_gateway/domain/cost.py:57-64 | Rounding first on a grid finer than 1/d by an even factor and then to a whole number equals one rounding, for all n and d: ties survive and non-ties stay off the ties |
| Decimals.QuantizedQuotientIsExact | src/valor/runtime_gateway/domain/cost.py:57-64 | A quotient below 10^whole, divided at whole+fraction digits with d below 10^fraction and then quantized, is the exact quotient rounded once |
| Decimals.RoundSignificantMonotone | src/valor/runtime_gateway/domain/cost_budget.py:37 | Rounding to significant digits is monotone across decades |
| Cost.ComponentCostIsOneRounding | src/valor/runtime_gateway/domain/cost.py:57-64 | For int32 units and basis and rates below 10^18 quanta the 50-digit computation never fails and is one half-even rounding of the exact rational |
| Cost.AttributedCostIsExact | src/valor/runtime_gateway/domain/cost.py:52-74 | Within the persisted ranges both components are the exact cost rounded once, the total of the 28-digit addition is their exact sum below 10^28 quanta, and the pricing snapshot is copied |
| Cost.CostIsAttributedExactlyWhenKnown | src/valor/runtime_gateway/domain/cost.py:55-56 | A cost exists exactly when both component counts and a price are known; attribution never raises |
| Cost.LedgerDriftIsBounded | src/valor/runtime_gateway/domain/cost.py:52-74 | Over any n attributed rows the stored sum differs from the exact rational cost by at most n quanta |
| UsageLimit.UtcDayWindowsPartitionTime | src/valor/runtime_gateway/domain/usage_limit.py:22-27 | Every instant lies in its own UTC-day window, midnight to midnight, and in no other |
| CostBudget.BudgetDecisionIsExactIff | src/valor/runtime_gateway/domain/cost_budget.py:31-42 | The 28-digit decision equals the exact comparison for every attributed cost if and only if the limit is below 10^28 quanta or sits right before a rounding boundary |
| CostBudget.RoundingChangesTheAnswer | src/valor/runtime_gateway/domain/cost_budget.py:36-37 | A 29-digit budget that admits too much and one that rejects too early |
| CostBudget.AdmittedCostFitsBudget | src/valor/runtime_gateway/domain/cost_budget.py:36-37 | An admitted cost plus its allowance is within the limit, up to half a unit of the 28th digit for 29 and 30-digit limits |
| Invocations.ConstructYieldsValid | src/valor/runtime_gateway/domain/invocation.py:70-179 | Whatever construction accepts, it accepts again unchanged |
| Invocations.ConstructAcceptsIff | src/valor/runtime_gateway/domain/invocation.py:70-179 | Construction accepts a raw value if and only if its request is well formed, its duration is not negative, its stripped response identity fits and its groups of fields match its status; it strips the input and the response identity and changes nothing else |
| Invocations.DurationIsWholeMilliseconds | src/valor/runtime_gateway/domain/invocation.py:358-365 | The split into days, seconds and microseconds gives exactly the whole milliseconds between the instants |
| Invocations.SucceededIsBuiltIff | src/valor/runtime_gateway/domain/invocation.py:182-219 | An answer is built if and only if its request is well formed, its text is not blank, its stripped response identity fits, and a cost comes with both counts; it holds the given text, usage and cost, the whole milliseconds and no limit evidence |
| Invocations.DeniedAndFailedAreBuiltIff | src/valor/runtime_gateway/domain/invocation.py:222-275 | A denial or failure is built if and only if its request is well formed; it holds the request, its status and duration, and no output, telemetry, cost or evidence |
| Invocations.LimitedIsBuiltIff | src/valor/runtime_gateway/domain/invocation.py:278-316 | A usage rejection is built if and only if its request is well formed, its evidence is ordered and shows the limit exceeded; it records exactly that evidence |
| Invocations.CostLimitedIsBuiltIff | src/valor/runtime_gateway/domain/invocation.py:319-355 | A cost rejection likewise, with the limit exceeded by the 28-digit sum |
| InvocationRows.LoadAfterStore | src/valor/runtime_gateway/infrastructure/repository.py:34-152 | Loading a stored valid Invocation never fails and returns it, with an all-absent usage as none |
| InvocationRows.OtherRowsAreNotLoaded | src/valor/runtime_gateway/infrastructure/repository.py:92-152 | A row without a decision or a principal reads as absent; a cost snapshot with a currency and a missing column is refused |
| InvocationRows.ChecksAcceptExactly | src/valor/runtime_gateway/infrastructure/models.py:15-77 | In three-valued logic the CHECK constraints accept a valid Invocation if and only if its two Decimal sums are exact |
| InvocationRows.EvidenceChecksMean | src/valor/runtime_gateway/infrastructure/models.py:33-76 | For every row, nulls included, the two evidence CHECKs pass if and only if the status comes with all five ordered values and an exceeded limit, or with none |
| InvocationRows.SnapshotCheckMeans | src/valor/runtime_gateway/infrastructure/models.py:51-61 | The cost-snapshot CHECK passes if and only if everything is null or no present value contradicts it: a snapshot with missing columns passes |
| InvocationRepositories.InvocationRepository.Add | src/valor/runtime_gateway/infrastructure/repository.py:34-85 | An insert succeeds exactly when the identity is free, the CHECKs accept the row and every column fits its type; it adds that row alone, and otherwise changes nothing |
| InvocationRepositories.InvocationRepository.Get | src/valor/runtime_gateway/infrastructure/repository.py:87-121 | A read finds exactly the stored rows and never fails on a table filled by inserts |
| InvocationRepositories.InvocationRepository.AddThenGet | src/valor/runtime_gateway/infrastructure/repository.py:34-121 | What was added reads back, normalized |
| HandlerRows.DeniedAndFailedRowsPersist | src/valor/runtime_gateway/application/create_invocation.py:105-118 | Under a nondecreasing clock every denial and every transport failure is constructible and satisfies every CHECK; its columns fit if and only if the request fits its columns |
| HandlerRows.LimitedRowsPersist | src/valor/runtime_gateway/application/create_invocation.py:131-149 | Every rejection of the usage gate is constructible and satisfies every CHECK; its columns fit if and only if the request fits and neither the consumed units nor the limit exceeds 2^31 - 1 |
| HandlerRows.CostLimitedRowsPersist | src/valor/runtime_gateway/application/create_invocation.py:163-181 | Every rejection of the budget gate is constructible; the CHECK accepts it if and only if the exact sum exceeds the limit, and always when the limit is representable; its columns fit if and only if the request fits and both amounts are below 10^30 quanta |
| HandlerRows.UnrecordableRejection | src/valor/runtime_gateway/application/create_invocation.py:163-181 | A 29-digit budget whose rejection is constructible but refused by the CHECK |
| HandlerRows.SucceededRowsPersist | src/valor/runtime_gateway/application/create_invocation.py:202-223 | Every non-blank answer with int32 usage is priced without failing, constructible, and satisfies every CHECK; its columns fit if and only if the request fits |
| UnitOfWorks.UnitOfWork.Commit | src/valor/infrastructure/sqlalchemy_uow.py:31-34 | Publishes the working copy, or fails and changes nothing if the scope was never entered |
| UnitOfWorks.UnitOfWork.Rollback | src/valor/infrastructure/sqlalchemy_uow.py:36-39 | Discards the working copy and leaves committed data as it is |
| UnitOfWorks.UnitOfWork.Exit | src/valor/infrastructure/sqlalchemy_uow.py:18-29 | Leaving discards what was not committed and does nothing when never entered |
| PolicyRisk.PolicyService.Set | src/valor/policy_risk/application/set_permission.py:61-116 | With a failure at any awaited statement: the upsert and its audit record are both committed, or neither; an unknown Tenant, Agent or Model, or one of another Tenant, is refused with its own error and exactly then; without failure it succeeds exactly when the upsert is accepted |
| PolicyRisk.PolicyService.EvaluateRuntimePermission | src/valor/policy_risk/application/evaluate_permission.py:41-58 | A decision is committed as returned, or nothing is; one decision per invocation |
| PolicyRisk.SetPermissionKeepsIdentity | src/valor/policy_risk/infrastructure/repositories.py:38-63 | Setting an existing permission keeps its identity and creation time, changes its effect and update time, leaves every other row, and appends one record |
| PolicyRisk.SetPermissionSucceedsIff | src/valor/policy_risk/infrastructure/repositories.py:38-63 | The upsert is refused if and only if an existing permission would be updated before its creation, or a new one takes an existing identity |
| PolicyRisk.SetPermissionRecords | src/valor/policy_risk/application/set_permission.py:68-115 | A new permission has the given identity, effect and instant; the one record names actor, Tenant, instant and permission, and has no before exactly for a new permission |
| PolicyRisk.DecisionsDenyByDefault | src/valor/policy_risk/application/evaluate_permission.py:43-55 | A decision allows if and only if a stored permission for the same Tenant, Agent and Model allows; it names that permission, the invocation and the instant, and no other decision changes |
| PolicyRisk.SetPermissionFollows | src/valor/policy_risk/application/set_permission.py:80-115 | The one record carries the permission's state before and after, and no other resource is touched |
| PolicyRisk.PermissionAuditsChain | src/valor/policy_risk/application/set_permission.py:80-115 | In every serial run of sets, evaluations and failed attempts, each permission's records form a chain over its actual states |
| Admission.RunKeepsCallsOk | src/valor/runtime_gateway/application/create_invocation.py:98-228 | In every interleaving each call carries the decision recorded for it, passes a gate only with an allow, and builds valid rows that match its own command |
| Overshoot.OvershootIsBounded | src/valor/runtime_gateway/application/create_invocation.py:119-181 | For one UTC day and either meter, with at most k calls between their ledger read and their row and each reporting at most M: consumption plus M times the calls in flight never exceeds headroom plus k*M, in any interleaving |
| Overshoot.UsageOvershoot | src/valor/runtime_gateway/infrastructure/usage_reader.py:24-36 | A principal's known units never exceed limit - allowance + k*M; with k = 1 and M within the allowance they never exceed the limit |
| Overshoot.CostOvershoot | src/valor/runtime_gateway/infrastructure/cost_budget.py:36-51 | A Tenant's estimated cost, over all its principals, has the same bound; for 29 and 30-digit budgets it grows by the rounding slack |
| Overshoot.ConsumptionOnlyGrows | src/valor/runtime_gateway/infrastructure/usage_reader.py:24-36 | Neither sum ever decreases along a run |
| Overshoot.UsageRejectionsLast | src/valor/runtime_gateway/domain/usage_limit.py:30-43 | Once the usage gate rejects, every later read of the same day rejects |
| Overshoot.CostRejectionsLast | src/valor/runtime_gateway/domain/cost_budget.py:31-42 | Once the cost gate rejects, every later read of the same day rejects, rounding included |
| Tightness.GateIgnoresFlights | src/valor/runtime_gateway/domain/usage_limit.py:30-43 | Whatever is in flight, the usage gate admits if and only if the ledger leaves room for one allowance, so any number of calls may pass on the same reading |
| Tightness.CostGateIgnoresFlights | src/valor/runtime_gateway/domain/cost_budget.py:31-42 | The cost gate admits if and only if a budget is configured and the 28-digit sum of the ledger and the allowance is within it, whatever is in flight |
| Tightness.FlightsLandInFull | src/valor/runtime_gateway/application/create_invocation.py:182-228 | Any n calls of one principal that are past both gates can all land: some run from there grows consumption by n*M |
| Tightness.BoundIsReached | src/valor/runtime_gateway/application/create_invocation.py:84-228 | From every initial state whose ledger uses up exactly the headroom, for any number k of identities and any report M within int32, some run meets every hypothesis of the overshoot bound and ends with consumption equal to limit - allowance + k*M |
| Tightness.EmptyLedgerReachesTheBound | src/valor/runtime_gateway/application/create_invocation.py:84-228 | A concrete configuration and empty ledger from which k concurrent calls reach k*M, for every k and M |
| GateSafety.RowsPassedTheGates | src/valor/runtime_gateway/application/create_invocation.py:98-228 | In every interleaving each appended row links to exactly one decision, for its own invocation, Tenant, Agent and Model; it is denied if and only if that decision did not allow; any other row's own permission read returned the allowing permission its decision names; a cost-limited row's own usage read admitted it, and a succeeded or failed row's own usage read and then its own cost read did |
| GateSafety.ProviderCallsMatchRows | src/valor/runtime_gateway/application/create_invocation.py:182-223 | Each succeeded row has exactly one provider call and it returned, each failed row exactly one and it raised, other rows none; an invocation with a provider call has a row if and only if its handler finished storing it |
| GateSafety.BlankAnswersLeaveNoRow | src/valor/runtime_gateway/domain/invocation.py:93-95 | Every reachable call past both gates can be answered with white space only: the provider call is logged, the handler raises, and no row exists |
| RowContents.AcceptsIff | src/valor/runtime_gateway/application/create_invocation.py:84-98 | A call gets an invocation identity if and only if its stripped input has 1 to 10000 characters, its Tenant exists, its Agent and Model are that Tenant's, and the provider is supported |
| RowContents.DenialOutcome | src/valor/runtime_gateway/application/create_invocation.py:105-118 | In any state a denied call becomes a denied row with its request, decision, duration and nothing else, unless its principal has no name; the row is insertable exactly when the request fits its columns |
| RowContents.UsageReadOutcome | src/valor/runtime_gateway/application/create_invocation.py:119-149 | On any ledger the usage read raises for a negative sum or invalid limits, admits exactly when sum and allowance are within the limit, and otherwise becomes a limited row with the sum, limit, allowance and day it found; when that row is insertable, exactly |
| RowContents.CostReadOutcome | src/valor/runtime_gateway/application/create_invocation.py:150-181 | On any ledger the cost read raises without a budget, admits exactly by the 28-digit sum, and otherwise becomes a cost-limited row with the sum, budget, allowance and day; insertable exactly when the exact sum exceeds the budget too and everything fits |
| RowContents.TransportErrorOutcome | src/valor/runtime_gateway/application/create_invocation.py:187-200 | A transport error becomes a failed row with the request and nothing else, insertable exactly when the request fits |
| RowContents.AnswerOutcome | src/valor/runtime_gateway/application/create_invocation.py:202-223 | An answer becomes an exception or a succeeded row with its text, counts and stripped identity and the price of its own model; within the configured ranges it becomes an insertable row exactly when text, identity, counts and request fit |
| RowContents.RowsAreExplained | src/valor/runtime_gateway/application/create_invocation.py:98-228 | In every interleaving each appended row records its own call's request, and is explained column by column by one earlier statement of its own call |
| RowContents.LimitedRowsCarryTheirReading | src/valor/runtime_gateway/application/create_invocation.py:119-149 | In every interleaving a limited row carries exactly the sum its own usage read found, the limit, the allowance and the day, and they exceed the limit |
| RowContents.CostLimitedRowsCarryTheirReading | src/valor/runtime_gateway/application/create_invocation.py:150-181 | In every interleaving a cost-limited row carries exactly the sum its own cost read found, the configured budget and the day, and the 28-digit sum exceeds the budget |
| RowContents.SucceededRowsArePriced | src/valor/runtime_gateway/application/create_invocation.py:202-221 | In every interleaving a succeeded row has a cost if and only if both counts are known and its model's provider reference has a configured price; then each component is the count at that price's rate rounded once, the total their exact sum, and the price is copied |
| Gateways.Gateway.ConsumedTotalUnits | src/valor/runtime_gateway/infrastructure/usage_reader.py:17-36 | One pass over the ledger computes the principal's sum in the half-open window |
| Gateways.Gateway.AttributedCost | src/valor/runtime_gateway/infrastructure/cost_budget.py:36-51 | One pass over the ledger computes the Tenant's sum in the half-open window |
| Gateways.Gateway.DecideUsage | src/valor/runtime_gateway/application/create_invocation.py:119-147 | The usage gate over the current ledger: admitted exactly within the limit; a limited row exactly when the limit is exceeded and the request can be built, with the sum, limit, allowance and day |
| Gateways.Gateway.DecideCost | src/valor/runtime_gateway/application/create_invocation.py:150-179 | The cost gate over the current ledger: admitted exactly by the 28-digit sum; a cost-limited row exactly when that exceeds the budget and the request can be built, with the sum, budget, allowance and day |
| Gateways.Gateway.PriceAnswer | src/valor/runtime_gateway/application/create_invocation.py:202-221 | A succeeded row keeps the answer's text and counts and has the cost of its own model's configured price, or none when a count or the price is unknown |
| Gateways.Gateway.Persist | src/valor/runtime_gateway/application/create_invocation.py:225-228 | Exactly one row is appended, or none and an exception, decided by the CHECKs |
| Gateways.Gateway.Create | src/valor/runtime_gateway/application/create_invocation.py:84-223 | Whatever runs between its statements and whichever of them fail: refused before an identity exists, exactly for an unacceptable request and then without effect, or an answer with its priced row, or a rejection with its row, or an exception without a row. With nothing in between and no failure, which rejection or answer it is follows exactly from permission, ledger, limits, budget, provider result and column ranges |
| Gateways.Gateway.RowsBelongToReturnedCalls | src/valor/runtime_gateway/application/create_invocation.py:225-228 | A call that has not stored its row has no row in the ledger |
| Reporting.AggregateTotals | src/valor/runtime_gateway/infrastructure/reporting.py:42-90 | One pass computes every aggregate of the totals query, each a count or sum over the columns of the covered rows |
| Reporting.GroupRows | src/valor/runtime_gateway/infrastructure/reporting.py:152-168 | One group for each Agent, or Model, of a covered row, with the counts and sums over the columns of its own rows |
| Reporting.BreakDown | src/valor/runtime_gateway/infrastructure/reporting.py:133-171 | At most ten groups of the Agents, or Models, of the covered rows, each with the counts and sums over its own rows, by cost descending and id ascending, none better left out, truncated exactly beyond ten |
| Reporting.BreakdownIsUnique | src/valor/runtime_gateway/infrastructure/reporting.py:168-170 | Two listings of the same rows are equal: order, content and flag are determined |
| Reporting.CountsAreConserved | src/valor/runtime_gateway/infrastructure/reporting.py:54-71 | Status counts add up to the total, attributed plus unavailable equals provider-executed for usage and succeeded for cost |
| Reporting.GroupTotalsAreConserved | src/valor/runtime_gateway/infrastructure/reporting.py:152-168 | Over the full grouping every aggregate adds up to its overall total |
| Reporting.UntruncatedBreakdownAddsUp | src/valor/runtime_gateway/infrastructure/reporting.py:77-118 | An untruncated listing accounts for every total of the rows it saw, and for at least the totals of an earlier read of the same report |
| Reporting.LaterReadsReportMore | src/valor/runtime_gateway/infrastructure/reporting.py:78-81 | A later statement of a report never sees less than an earlier one |
| Reporting.RangesAdd | src/valor/runtime_gateway/infrastructure/reporting.py:72-76 | Reports of adjacent half-open ranges add up to the report of their union |
| Reporting.ReportAgreesWithBudgetGate | src/valor/runtime_gateway/infrastructure/reporting.py:52-76 | For any UTC day the report's estimated total is the sum that the budget gate reads |
| Reporting.ReportsAgreeOverRuns | src/valor/runtime_gateway/infrastructure/reporting.py:52-76 | In every interleaving and at every moment a UTC day's reported estimated total is the sum that the budget gate would read, with nothing assumed of the rows the run appends |
| Reporting.ReportsGrowOverRuns | src/valor/runtime_gateway/infrastructure/reporting.py:77-118 | In every interleaving a later report shows no less of any aggregate, and an untruncated breakdown adds up to the totals |
| Reporting.StoredCostOnlyWhenSucceeded | src/valor/runtime_gateway/domain/invocation.py:171-173 | Every stored aggregate carries a cost only when it succeeded |
| Reporting.GetTenantRuntimeReport | src/valor/runtime_gateway/application/reporting.py:108-130 | Refused exactly for an empty or over 31-day range, then exactly for an unknown Tenant; otherwise the totals and the Agent and Model breakdowns, all read off the columns of the rows each statement saw |
| Fingerprints.PermissionRoundTrip | src/valor/management_audit/domain/fingerprints.py:5-16 | A decoder recovers the permission's identifiers and effect from the canonical string |
| Fingerprints.ManagementPrincipalRoundTrip | src/valor/management_audit/domain/fingerprints.py:19-36 | A decoder recovers identifier, name, Tenant set and flags of a principal |
| Fingerprints.ManagementCredentialRoundTrip | src/valor/management_audit/domain/fingerprints.py:39-58 | A decoder recovers identifiers, label, instants and revocation of a credential |
| Fingerprints.RuntimePrincipalRoundTrip | src/valor/management_audit/domain/fingerprints.py:61-82 | A decoder recovers identifiers, optional limits, a legacy identity that may hold line breaks, and the flag |
| Fingerprints.CanonicalStringsAreInjective | src/valor/management_audit/domain/fingerprints.py:5-82 | Two valid states share a canonical string if and only if they are equal, for all four kinds |
| Uuids.UuidTextRoundTrip | src/valor/management_audit/domain/fingerprints.py:10-12 | The hyphenated text determines the 128-bit identifier and holds no separator |
| Instants.InstantTextRoundTrip | src/valor/management_identity/application/handlers.py:376-386 | The ISO text of a UTC instant, from the year 1 to the year 9999 and with microseconds only when there are any, determines the instant and is one plain line |
| Text.CollapseIsCanonical | src/valor/management_audit/domain/fingerprints.py:30 | Splitting and joining on white space is idempotent and leaves no line break |
| Text.CollapseIsExact | src/valor/management_identity/domain/models.py:6-12 | Collapsing keeps every visible character in order and leaves single spaces between words |
| Text.StripIsExact | src/valor/runtime_gateway/domain/invocation.py:31-36 | Stripping removes white space at both ends and nothing else |
| AuditChain.ConsecutiveRecordsJoin | src/valor/management_identity/application/handlers.py:317-363 | In any history whose steps follow their records, a record's before is the previous record's after |
| AuditChain.LastRecordDescribesState | src/valor/management_identity/application/handlers.py:317-363 | The last record's after describes the current state |
| AuditChain.FirstRecordStartsTheChain | src/valor/management_identity/application/handlers.py:109-125 | A resource's first record has no before if and only if nothing created it unrecorded, as bootstrap does |
| ManagementIdentity.RecoveryCheckIsExactIff | src/valor/management_identity/infrastructure/repositories.py:118-136 | The check for another recoverable manager is right for every scan order if and only if all other principals are recoverable or none is |
| ManagementIdentity.RecoveryCheckRefusesWrongly | src/valor/management_identity/infrastructure/repositories.py:118-136 | A concrete state in which a disabling and a revocation are refused for lack of another manager although there is one |
| ManagementIdentity.NewPrincipal | src/valor/management_identity/domain/models.py:6-30 | A principal is accepted if and only if its collapsed name has 1 to 100 characters, whatever its scopes; it is active and holds that name and everything else as given |
| ManagementIdentity.NewCredential | src/valor/management_identity/domain/models.py:45-72 | A credential is accepted if and only if its collapsed label has at most 100 characters and its expiry follows its creation; it is unrevoked and holds that label, or none if it is empty |
| ManagementIdentity.CreationEffects | src/valor/management_identity/application/handlers.py:127-148 | A creation adds exactly one principal, active, with the given scopes and flag and its collapsed name; no other row changes |
| ManagementIdentity.BootstrapEffects | src/valor/management_identity/application/handlers.py:109-125 | A bootstrap needs an empty table and leaves exactly one active manager with exactly one credential, usable at every instant |
| ManagementIdentity.IssueEffects | src/valor/management_identity/application/handlers.py:160-185 | Issuing adds one credential of an active principal with its collapsed label, usable exactly until its expiry; no other row changes |
| ManagementIdentity.ChangeEffects | src/valor/management_identity/application/handlers.py:187-267 | A scope replacement, revocation or disabling changes one row and only what it is about; a revoked credential is usable at no instant |
| ManagementIdentity.BootstrapSucceedsIff | src/valor/management_identity/application/handlers.py:109-125 | Succeeds if and only if the token matches, no principal exists, all Tenants exist, the name fits and the credential identity is free; each error exactly when |
| ManagementIdentity.CreateSucceedsIff | src/valor/management_identity/application/handlers.py:127-148 | Succeeds if and only if the actor may manage, all Tenants exist, the name fits and the identity is free; each error exactly when |
| ManagementIdentity.IssueSucceedsIff | src/valor/management_identity/application/handlers.py:160-185 | Succeeds if and only if the actor may manage, the expiry is in the future, the principal is active, the label fits and the identity is free; each error exactly when |
| ManagementIdentity.SetScopesSucceedsIff | src/valor/management_identity/application/handlers.py:187-206 | Succeeds if and only if the actor may manage, the principal exists, disabled or not, and all Tenants exist; each error exactly when |
| ManagementIdentity.RevokeSucceedsIff | src/valor/management_identity/application/handlers.py:208-242 | Succeeds if and only if the actor may manage, the credential is the principal's and unrevoked, and it is not the last usable one of an active manager with no other manager found; each error exactly when |
| ManagementIdentity.DisableSucceedsIff | src/valor/management_identity/application/handlers.py:244-267 | Succeeds if and only if the actor may manage, the principal is active, and it is no manager or another recoverable one is found; each error exactly when |
| ManagementIdentity.CommandsAreRecorded | src/valor/management_identity/application/handlers.py:127-363 | Every command but bootstrap appends one record with its own action, resource, actor and instant, and a before exactly for changes |
| ManagementServices.ManagementIdentityService.Handle | src/valor/management_identity/application/handlers.py:109-267 | Any command, with failures at any statements: everything is committed as specified, or nothing; without failures it succeeds exactly when its specification does and fails with the same error |
| ManagementAudits.ManagementAuditsChain | src/valor/management_identity/application/handlers.py:109-267 | In every serial run of the six commands, each principal's and credential's records chain over its actual states; bootstrapped rows start without a record |
| ManagementAudits.LastPrincipalRecordDecodes | src/valor/management_identity/application/handlers.py:317-339 | A principal's current state is read back from its last record |
| ManagementAudits.LastCredentialRecordDecodes | src/valor/management_identity/application/handlers.py:341-386 | A credential's current state, instants included, is read back from its last record |
| ManagementProtocol.RunKeepsInv | src/valor/management_identity/infrastructure/unit_of_work.py:51-54 | In every interleaving at most one transaction is past the lock, and what it has read still justifies what it will remove |
| ManagementProtocol.LockFreeCommitsOnlyAdd | src/valor/management_identity/application/handlers.py:127-206 | Create, issue and set_scopes remove no manager, no credential and no usability |
| ManagementProtocol.StepKeepsRecoverability | src/valor/management_identity/application/handlers.py:208-267 | No step of an interleaving destroys recoverability at an instant its transaction judges: up to the database clock for a disabling, up to both clocks for a revocation, any instant for the rest |
| ManagementProtocol.RecoverabilityIsNeverDestroyed | src/valor/management_identity/application/handlers.py:109-267 | Along any run whose steps judge an instant, a recoverable system stays recoverable at that instant |
| ManagementProtocol.DisablingIsSafeIff | src/valor/management_identity/application/handlers.py:244-267 | Over all consistent states and scan orders, no permitted disabling destroys recoverability at an instant if and only if the instant is not after the database clock of the transaction |
| ManagementProtocol.RevocationIsSafeIff | src/valor/management_identity/application/handlers.py:208-242 | No permitted revocation destroys recoverability at an instant if and only if the instant is after neither the service's nor the database's clock |
| ManagementProtocol.LaggingDatabaseClockLosesTheLastManager | src/valor/management_identity/infrastructure/repositories.py:126-129 | With the database clock behind the service clock, a permitted disabling loses the last manager usable at the service's instant |
| ManagementProtocol.WaitingForTheLockLosesTheLastManager | src/valor/management_identity/infrastructure/unit_of_work.py:51-54 | A concrete run with agreeing clocks: a disabling waits for the lock, the other manager's credential expires meanwhile, and its commit leaves nobody who can manage principals |
| ManagementProtocol.BootstrapNeedsAnEmptyTable | src/valor/management_identity/application/handlers.py:115-124 | A committing bootstrap finds no principal, and leaves one recoverable manager |
| ManagementProtocol.BootstrapCommitsAtMostOnce | src/valor/management_identity/application/handlers.py:109-125 | Once any principal exists no bootstrap commits, so at most one ever does, in any interleaving |
| ManagementProtocol.CommitsAreRecordedOnce | src/valor/management_identity/application/handlers.py:127-267 | Every commit but bootstrap publishes exactly one record, of its own actor and command; no other step publishes anything |
| ManagementProtocol.TerminalStatesLast | src/valor/management_identity/infrastructure/repositories.py:105-175 | A disabled principal and a revoked credential keep the time at which they ended, in any interleaving |
| ManagementProtocol.SuccessMayBegin | src/valor/management_identity/application/handlers.py:109-267 | Whatever command would succeed is let into the protocol |
| ManagementProtocol.AloneExecutes | src/valor/management_identity/application/handlers.py:109-267 | A transaction that runs alone through the protocol ends, releases the lock, commits exactly when the service's specification succeeds, and does exactly what it says; what is not let in would fail |
| RuntimeIdentity.ConfiguredWith | src/valor/runtime_identity/domain/models.py:106-117 | Limits are accepted if and only if the principal is active and has none, both are positive and the allowance is within the limit; only the two limits change |
| RuntimeIdentity.BoundTo | src/valor/runtime_identity/domain/models.py:95-104 | A binding succeeds if and only if the principal is active and unbound and the stripped identity has 1 to 255 characters; it stores that identity and the given instant and changes nothing else |
| RuntimeIdentity.CommandEffects | src/valor/runtime_identity/application/handlers.py:129-427 | A command writes one principal's row and only its own columns, and a creation one credential; a bind needs an active, configured, unbound principal and an unclaimed configured identity of the same Tenant and Agent |
| RuntimeIdentity.BindSucceedsIff | src/valor/runtime_identity/application/handlers.py:204-320 | Succeeds if and only if the actor may manage, the principal is active and unbound, the identity is unclaimed, configured for the same Tenant, Agent, limit and allowance and 1 to 255 characters, all rows of both identities come from that Tenant and Agent, and a credential is usable; each error exactly when |
| RuntimeIdentity.CreateSucceedsIff | src/valor/runtime_identity/application/handlers.py:129-172 | Succeeds if and only if the actor may manage, the expiry is in the future, the Agent is the Tenant's, the limits fit and both identities are free; each error exactly when |
| RuntimeIdentity.InitializeSucceedsIff | src/valor/runtime_identity/application/handlers.py:322-351 | Succeeds if and only if the actor may manage, the principal is active without limits, and the limits fit; each error exactly when |
| RuntimeIdentity.DisableSucceedsIff | src/valor/runtime_identity/application/handlers.py:407-427 | Succeeds if and only if the actor may manage and the principal is active; each error exactly when |
| RuntimeIdentity.CommandsAreRecorded | src/valor/runtime_identity/application/handlers.py:129-493 | Every command appends one record with its own action, principal, Tenant, actor and instant, and a before exactly for changes |
| RuntimeIdentity.PreflightMeans | src/valor/runtime_identity/application/handlers.py:259-320 | Every entry of the preflight report as a condition on the tables and the static configuration |
| RuntimeIdentity.ConsumedTotalUnits | src/valor/runtime_identity/infrastructure/repositories.py:265-278 | One pass computes the known units of a set of identities in the half-open window |
| RuntimeIdentity.Inspect | src/valor/runtime_identity/infrastructure/repositories.py:208-263 | One pass computes the historical count, the same-day units and both mismatch flags |
| RuntimeIdentity.UsageAddsOverIdentities | src/valor/runtime_identity/infrastructure/repositories.py:265-278 | Usage under two identities is the sum of both, counted once when they coincide |
| RuntimeIdentity.OneIdentityIsTheGateReading | src/valor/runtime_identity/infrastructure/repositories.py:265-278 | One identity's total is what the usage gate reads for it |
| RuntimeIdentity.BindingConservesUsage | src/valor/runtime_identity/application/handlers.py:204-257 | After a bind the day's continuity total is the preflight's legacy usage plus the principal's own, counted once when the identities coincide |
| RuntimeIdentity.ContinuitySetsAreDisjointIff | src/valor/runtime_identity/domain/models.py:88-93 | Two principals have disjoint identity sets if and only if neither legacy identity is the other's text form |
| RuntimeIdentity.PrincipalsShareNoUsageIff | src/valor/runtime_identity/infrastructure/repositories.py:265-278 | On every ledger two principals' continuity totals add up to the total of both if and only if neither legacy identity is the other's text form |
| RuntimeIdentity.BindingToAnotherPrincipalIsAccepted | src/valor/runtime_identity/application/handlers.py:204-241 | A binding to another principal's text form passes every check |
| RuntimeServices.RuntimeIdentityService.Handle | src/valor/runtime_identity/application/handlers.py:129-427 | Create, bind, initialize and disable with failures at any statements: everything is committed as specified, or nothing; without failures it succeeds exactly when its specification does and fails with the same error |
| RuntimeServices.RuntimeIdentityService.ContinuityPreflight | src/valor/runtime_identity/application/handlers.py:259-320 | The preflight reports the specified facts and checks |
| RuntimeServices.RuntimeAuditsChain | src/valor/runtime_identity/application/handlers.py:460-493 | In every serial run each runtime principal's records chain over its actual states |
| RuntimeServices.LastRecordDecodes | src/valor/runtime_identity/application/handlers.py:460-493 | A runtime principal's current state is read back from its last record |
| Instants.SameInstantSameTextIff | src/valor/runtime_identity/application/handlers.py:510-512 | The same instant is printed the same way in two offsets if and only if the offsets are equal |
| RuntimeCredentialAudits.RecordsJoinIff | src/valor/runtime_identity/application/handlers.py:495-529 | The revocation's before is the issue's after if and only if the database session returns the creation in UTC and the expiry in the offset in which the caller gave it |
| RuntimeCredentialAudits.ForeignOffsetBreaksTheChain | src/valor/runtime_identity/application/handlers.py:495-529 | With the database in UTC, every credential whose expiry was given at +02:00 has a broken chain |
| Continuity.RunKeepsInv | src/valor/runtime_identity/infrastructure/repositories.py:55-61 | In every interleaving each lock has one holder, and what a lock holder has established still holds |
| Continuity.BindingsAreOneToOne | src/valor/runtime_identity/application/handlers.py:204-241 | In every interleaving, hash collisions included: no legacy identity has two principals, each bound principal has exactly one binding record and each unbound one none, and every row of a bound legacy identity has its principal's Tenant and Agent |
| Continuity.BindingsAreWrittenOnce | src/valor/runtime_identity/infrastructure/repositories.py:77-128 | In every interleaving a bound principal is never rebound, configured limits never change, a disabled principal stays disabled |
| Continuity.PreparedBindsSucceed | src/valor/runtime_identity/application/handlers.py:226-240 | A bind that reaches its update succeeds, and its record goes from the actual row to the written one, whatever else runs |
| Continuity.CommittedBindsMatched | src/valor/runtime_identity/application/handlers.py:204-241 | In every interleaving a bind that commits found an active, unbound principal with the Tenant, Agent, limit and allowance of the static identity, nobody claiming it and all its rows from there, and wrote only the binding |
| Continuity.WriteKeepsKnowledge | src/valor/runtime_identity/infrastructure/repositories.py:101-128 | A commit under its locks invalidates nothing that another transaction has established |
| Continuity.Progress | src/valor/runtime_identity/application/handlers.py:210-211 | While any transaction is pending some transaction can take a step that is not giving up: the lock order excludes deadlock |
| Continuity.StepsRunOut | src/valor/runtime_identity/application/handlers.py:204-241 | Every step of a transaction uses up one of the finitely many steps left to all of them |
| Continuity.EveryReachableStateCanFinish | src/valor/runtime_identity/application/handlers.py:204-241 | From every reachable state some continuation, in which nobody gives up and nobody new begins, finishes every transaction |
| Continuity.AloneExecutes | src/valor/runtime_identity/application/handlers.py:129-427 | A transaction that runs alone through the protocol ends, holds no lock, commits exactly when the service's specification succeeds, and does exactly what it says |
| Evidence.ManagementAuthenticator.Authenticate | src/valor/management_identity/application/authentication.py:34-116 | Authenticated exactly when credential and principal are known, the secret matches, and neither revocation, expiry nor disabling stands against it; a known credential leaves one attempt with its outcome and an unknown one nothing; the table stays what the attempts so far make of it, under any clock; an interruption leaves nothing |
| Evidence.FirstFailingCheckDecides | src/valor/management_identity/application/authentication.py:45-97 | Each outcome exactly when: mismatch before revocation before expiry before disabling |
| Evidence.HoursPartitionTime | src/valor/management_identity/domain/authentication_evidence.py:15-18 | Every instant lies in its own full hour and in no other |
| Evidence.ObserveRefines | src/valor/management_identity/infrastructure/repositories.py:26-46 | While no attempt finds a purged hour within its retention again, one purge and insert-if-absent keeps the table the exact index |
| Evidence.EvidenceIsExactIff | src/valor/management_identity/infrastructure/repositories.py:26-46 | For any sequence of attempt times the table is the exact index of retained attempts after every attempt, whoever attempts with whatever outcome, if and only if no attempt comes back within the retention of an hour that an attempt in between had put out of its own |
| Evidence.TableRefinesLog | src/valor/management_identity/infrastructure/repositories.py:26-46 | In particular, under a clock that does not go back the rows are exactly the distinct credential, outcome and hour keys of the attempts within 90 days of the current bucket, each with its first attempt |
| Evidence.FirstIsEarliest | src/valor/management_identity/domain/authentication_evidence.py:21-33 | The first attempt of a key is its earliest |
| Evidence.TableIsBounded | src/valor/management_identity/infrastructure/repositories.py:26-46 | The table has at most 5 * 2161 rows per credential, however many attempts there are |
| Evidence.ClockGoingBackLosesEvidence | src/valor/management_identity/infrastructure/repositories.py:27-32 | A concrete log whose clock goes back by the whole retention: an hour within the retention of the new hour is missing |
| Inventories.AuthenticationAgreesWithInventory | src/valor/management_identity/application/credential_inventory.py:89-109 | Authentication succeeds if and only if the secret matches and the inventory state is active, despite the different orders; for an active principal the reasons agree |
| Inventories.ListCredentials | src/valor/management_identity/application/credential_inventory.py:72-86 | Lists the first items up to the limit and is marked truncated if and only if there are more; refuses a bad limit first, then an unknown principal |
| Inventories.GroupByPrincipal | src/valor/management_identity/infrastructure/principal_inventory_reader.py:21-49 | One pass groups: exactly one row per principal that has entries, with their count and sum |
| Inventories.JoinsDoNotMultiply | src/valor/management_identity/infrastructure/principal_inventory_reader.py:21-77 | The two outer joins with grouped subqueries, whatever order the groups come in, yield one row per principal, with the number of its Tenants and the counts of its own credentials |
| Inventories.ListPrincipals | src/valor/management_identity/application/principal_inventory.py:65-88 | Refuses exactly a bad limit; lists the first principals up to the limit, each with its own Tenant, credential and usable counts, and is marked truncated if and only if there are more |
| Inventories.UsableCountsAgree | src/valor/management_identity/infrastructure/principal_inventory_reader.py:29-63 | The counts of the principal inventory are those of the untruncated credential inventory, in any order of it: all its items, and its active ones |

## Left out

- HTTP routes, schemas, error mapping, health and logging: they hold no state of their own.
- The provider adapter and its network calls: an answer, a transport error or any other error is a parameter.
- HMAC and SHA-256: a secret's match is a parameter and a fingerprint stops at its canonical string.
- Runtime credentials' audit records inside the state machines of `RuntimeServices` and `Continuity`: `RuntimeCredentialAudits` treats the at most two records of one credential by themselves.
- Offsets from UTC with seconds: a moment's offset is a whole number of minutes, as in a request's timestamp.
- Tenant, Agent and Model registration: single-branch reads and writes.
- Foreign keys of the tables, apart from a credential's principal: the handlers check the same references first, and the mapping of a violation to an error is not modelled.
- Identifier collisions, except where an insert checks one: generated identifiers are taken as fresh.
- The time between the awaited ledger read and the completion time of a rejected row: both use the instant of the read; only the recorded duration could differ.
- Concurrent inserts of evidence, where the database's unique key decides: `Evidence` takes attempts one after another.
- A replacement of scopes that interleaves with another may leave a union: `ManagementProtocol` lets such a commit leave any scope set.
- The unique index on the legacy identity: `Continuity` shows that the locks alone keep the binding one-to-one.
- The ORDER BY of the two inventory queries: the listings take their rows in that order as given.
- Time zones elsewhere than in runtime credentials' audit records: every instant is UTC microseconds after conversion.
- Two writes of one transaction as separate steps: `Continuity` and `ManagementProtocol` publish them with the commit, and a reader of a principal and its scopes sees both at one moment.
- That some run reaches the bound on cost: `Tightness` shows it for usage.
- Continuity.BindingsAreWrittenOnce: for disabling it keeps the fact and not the time, because two disables that both read an active principal both write their time.
- Gateways.Gateway.Create: one call with scheduled interference; the parallel runs themselves are the state machine's.
