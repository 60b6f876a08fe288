/** Audit records and the before/after chains that they form, one resource at a time. */
module AuditChain {
  import opened Wrappers
  import opened Uuids

  datatype ResourceType =
    AGENT_MODEL_PERMISSION | MANAGEMENT_PRINCIPAL | MANAGEMENT_CREDENTIAL | RUNTIME_PRINCIPAL | RUNTIME_CREDENTIAL

  datatype AuditAction =
    | AGENT_MODEL_PERMISSION_SET
    | MANAGEMENT_PRINCIPAL_CREATED
    | MANAGEMENT_CREDENTIAL_ISSUED
    | MANAGEMENT_CREDENTIAL_REVOKED
    | MANAGEMENT_PRINCIPAL_DISABLED
    | MANAGEMENT_PRINCIPAL_SCOPES_SET
    | RUNTIME_PRINCIPAL_CREATED
    | RUNTIME_PRINCIPAL_DISABLED
    | RUNTIME_PRINCIPAL_USAGE_LIMITS_INITIALIZED
    | RUNTIME_PRINCIPAL_IDENTITY_CONTINUITY_BOUND
    | RUNTIME_CREDENTIAL_ISSUED
    | RUNTIME_CREDENTIAL_REVOKED

  datatype Resource = Resource(kind: ResourceType, id: Uuid)

  /** A record of a successful mutation; canonical strings stand for their digests. */
  datatype AuditRecord = AuditRecord(
    auditId: Uuid,
    actor: string,
    tenantId: Option<Uuid>,
    action: AuditAction,
    resource: Resource,
    occurredAt: int,
    before: Option<string>,
    after: string)

  /** What one committed transaction does to one resource. */
  datatype Touch = Untouched | Unrecorded | Recorded(before: Option<string>, after: string)

  /** The touch that the records a transaction appended make on a resource. */
  function TouchOf(appended: seq<AuditRecord>, x: Resource): Touch {
    if appended == [] then Untouched
    else if appended[0].resource == x then Recorded(appended[0].before, appended[0].after)
    else TouchOf(appended[1..], x)
  }

  /** The canonical state of a resource before and after a transaction, None while it is absent.
      Only the bootstrap of a resource goes unrecorded. */
  ghost predicate Follows(before: Option<string>, after: Option<string>, touch: Touch) {
    match touch
    case Untouched => after == before
    case Unrecorded => before.None? && after.Some?
    case Recorded(b, a) => before == b && after == Some(a)
  }

  ghost predicate History(states: seq<Option<string>>, touches: seq<Touch>) {
    && |states| == |touches| + 1
    && forall i :: 0 <= i < |touches| ==> Follows(states[i], states[i + 1], touches[i])
  }

  ghost predicate NoRecordBetween(touches: seq<Touch>, i: nat, j: nat)
    requires j <= |touches|
  {
    forall k :: i <= k < j ==> !touches[k].Recorded?
  }

  lemma {:induction false} UnrecordedTimeChangesNothing(states: seq<Option<string>>, touches: seq<Touch>, i: nat, j: nat)
    requires History(states, touches) && i <= j <= |touches|
    requires NoRecordBetween(touches, i, j) && states[i].Some?
    ensures states[j] == states[i]
    decreases j
  {
    if i < j {
      UnrecordedTimeChangesNothing(states, touches, i, j - 1);
      assert Follows(states[j - 1], states[j], touches[j - 1]);
    }
  }

  /** Consecutive records of a resource join up: the later before is the earlier after. */
  lemma ConsecutiveRecordsJoin(states: seq<Option<string>>, touches: seq<Touch>, i: nat, j: nat)
    requires History(states, touches) && i < j < |touches|
    requires touches[i].Recorded? && touches[j].Recorded? && NoRecordBetween(touches, i + 1, j)
    ensures touches[j].before == Some(touches[i].after)
  {
    assert Follows(states[i], states[i + 1], touches[i]);
    UnrecordedTimeChangesNothing(states, touches, i + 1, j);
    assert Follows(states[j], states[j + 1], touches[j]);
  }

  /** The last record's after describes the current state. */
  lemma LastRecordDescribesState(states: seq<Option<string>>, touches: seq<Touch>, i: nat)
    requires History(states, touches) && i < |touches|
    requires touches[i].Recorded? && NoRecordBetween(touches, i + 1, |touches|)
    ensures states[|touches|] == Some(touches[i].after)
  {
    assert Follows(states[i], states[i + 1], touches[i]);
    UnrecordedTimeChangesNothing(states, touches, i + 1, |touches|);
  }

  lemma {:induction false} AbsentUntilCreated(states: seq<Option<string>>, touches: seq<Touch>, j: nat)
    requires History(states, touches) && j <= |touches|
    requires states[0].None? && forall k :: 0 <= k < j ==> touches[k].Untouched?
    ensures states[j].None?
    decreases j
  {
    if j > 0 {
      AbsentUntilCreated(states, touches, j - 1);
      assert Follows(states[j - 1], states[j], touches[j - 1]);
    }
  }

  /** The first record of a resource has no before exactly when no bootstrap created it. */
  lemma FirstRecordStartsTheChain(states: seq<Option<string>>, touches: seq<Touch>, j: nat)
    requires History(states, touches) && j < |touches| && states[0].None?
    requires touches[j].Recorded? && NoRecordBetween(touches, 0, j)
    ensures touches[j].before.None? <==> forall k :: 0 <= k < j ==> touches[k].Untouched?
  {
    assert Follows(states[j], states[j + 1], touches[j]);
    if forall k :: 0 <= k < j ==> touches[k].Untouched? {
      AbsentUntilCreated(states, touches, j);
    } else {
      var k :| 0 <= k < j && !touches[k].Untouched?;
      assert Follows(states[k], states[k + 1], touches[k]);
      UnrecordedTimeChangesNothing(states, touches, k + 1, j);
    }
  }
}
