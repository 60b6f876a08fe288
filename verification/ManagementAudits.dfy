/** The audit chains of management principals and credentials, in serial runs. */
module ManagementAudits {
  import opened Wrappers
  import opened Text
  import opened Uuids
  import opened Instants
  import opened Fingerprints
  import opened AuditChain
  import opened ManagementIdentity

  function Canonical(s: ManagementState, r: Resource): Option<string> {
    if r.kind == MANAGEMENT_PRINCIPAL && r.id in s.principals then Some(PrincipalText(s.principals[r.id]))
    else if r.kind == MANAGEMENT_CREDENTIAL && r.id in s.credentials then Some(CredentialText(s.credentials[r.id]))
    else None
  }

  /** A command with the identity of its caller and its circumstances. */
  datatype Step = Step(x: Context, c: Command)

  function After(s: ManagementState, step: Step): ManagementState {
    var r := Execute(s, step.x, step.c);
    if r.Success? then r.value else s
  }

  /** Bootstrap stores its two rows without a record; every other change leaves one. */
  function TouchBy(s: ManagementState, step: Step, r: Resource): Touch {
    var c, t := step.c, After(s, step);
    if t == s then Untouched
    else if c.Bootstrap? then
      if r == Resource(MANAGEMENT_PRINCIPAL, c.newPrincipal) || r == Resource(MANAGEMENT_CREDENTIAL, c.newCredential)
      then Unrecorded else Untouched
    else if |s.audits| <= |t.audits| then TouchOf(t.audits[|s.audits|..], r)
    else Untouched
  }

  lemma TouchOfOne(record: AuditRecord, r: Resource)
    ensures TouchOf([record], r) == if record.resource == r then Recorded(record.before, record.after) else Untouched
  {
    assert [record][1..] == [];
  }

  lemma BootstrapFollows(s: ManagementState, step: Step, r: Resource)
    requires Consistent(s) && step.c.Bootstrap?
    ensures Consistent(After(s, step)) && After(s, step).audits == s.audits
    ensures Follows(Canonical(s, r), Canonical(After(s, step), r), TouchBy(s, step, r))
  {
    hide NewPrincipal, NewCredential, PrincipalText, CredentialText, Collapse;
  }

  lemma CreateFollows(s: ManagementState, step: Step, r: Resource)
    requires Consistent(s) && step.c.CreatePrincipal? && Execute(s, step.x, step.c).Success?
    ensures Consistent(After(s, step)) && |After(s, step).audits| == |s.audits| + 1
    ensures Follows(Canonical(s, r), Canonical(After(s, step), r), TouchBy(s, step, r))
  {
    hide NewPrincipal, PrincipalText, CredentialText, Collapse, TouchOf;
    var t := After(s, step);
    assert t.audits[|s.audits|..] == [t.audits[|s.audits|]];
    TouchOfOne(t.audits[|s.audits|], r);
  }

  lemma IssueFollows(s: ManagementState, step: Step, r: Resource)
    requires Consistent(s) && step.c.IssueCredential? && Execute(s, step.x, step.c).Success?
    ensures Consistent(After(s, step)) && |After(s, step).audits| == |s.audits| + 1
    ensures Follows(Canonical(s, r), Canonical(After(s, step), r), TouchBy(s, step, r))
  {
    hide NewCredential, PrincipalText, CredentialText, Collapse, TouchOf;
    var t := After(s, step);
    assert t.audits[|s.audits|..] == [t.audits[|s.audits|]];
    TouchOfOne(t.audits[|s.audits|], r);
  }

  lemma SetScopesFollows(s: ManagementState, step: Step, r: Resource)
    requires Consistent(s) && step.c.SetScopes? && Execute(s, step.x, step.c).Success?
    ensures Consistent(After(s, step)) && |After(s, step).audits| == |s.audits| + 1
    ensures Follows(Canonical(s, r), Canonical(After(s, step), r), TouchBy(s, step, r))
  {
    hide PrincipalText, CredentialText, Collapse, TouchOf;
    var t := After(s, step);
    assert t.audits[|s.audits|..] == [t.audits[|s.audits|]];
    TouchOfOne(t.audits[|s.audits|], r);
  }

  lemma RevokeFollows(s: ManagementState, step: Step, r: Resource)
    requires Consistent(s) && step.c.RevokeCredential? && Execute(s, step.x, step.c).Success?
    ensures Consistent(After(s, step)) && |After(s, step).audits| == |s.audits| + 1
    ensures Follows(Canonical(s, r), Canonical(After(s, step), r), TouchBy(s, step, r))
  {
    hide PrincipalText, CredentialText, Collapse, TouchOf, HasRecoverableManager, OwnUsable;
    var t := After(s, step);
    assert t.audits[|s.audits|..] == [t.audits[|s.audits|]];
    TouchOfOne(t.audits[|s.audits|], r);
  }

  lemma DisableFollows(s: ManagementState, step: Step, r: Resource)
    requires Consistent(s) && step.c.DisablePrincipal? && Execute(s, step.x, step.c).Success?
    ensures Consistent(After(s, step)) && |After(s, step).audits| == |s.audits| + 1
    ensures Follows(Canonical(s, r), Canonical(After(s, step), r), TouchBy(s, step, r))
  {
    hide PrincipalText, CredentialText, Collapse, TouchOf, HasRecoverableManager;
    var t := After(s, step);
    assert t.audits[|s.audits|..] == [t.audits[|s.audits|]];
    TouchOfOne(t.audits[|s.audits|], r);
  }

  lemma StepFollows(s: ManagementState, step: Step, r: Resource)
    requires Consistent(s)
    ensures Consistent(After(s, step))
    ensures Follows(Canonical(s, r), Canonical(After(s, step), r), TouchBy(s, step, r))
  {
    if Execute(s, step.x, step.c).Success? {
      hide Consistent, Execute, Follows, Canonical, TouchBy, After;
      match step.c
      case Bootstrap(_, _, _, _, _) => BootstrapFollows(s, step, r);
      case CreatePrincipal(_, _, _, _, _) => CreateFollows(s, step, r);
      case IssueCredential(_, _, _, _, _) => IssueFollows(s, step, r);
      case SetScopes(_, _, _) => SetScopesFollows(s, step, r);
      case RevokeCredential(_, _, _) => RevokeFollows(s, step, r);
      case DisablePrincipal(_, _) => DisableFollows(s, step, r);
    }
  }

  ghost predicate SerialRun(run: seq<ManagementState>, steps: seq<Step>) {
    && |run| == |steps| + 1 && Consistent(run[0])
    && forall i :: 0 <= i < |steps| ==> run[i + 1] == After(run[i], steps[i])
  }

  lemma {:induction false} SerialRunsStayConsistent(run: seq<ManagementState>, steps: seq<Step>, i: nat)
    requires SerialRun(run, steps) && i < |run|
    ensures Consistent(run[i])
  {
    hide After, Consistent;
    if i > 0 {
      SerialRunsStayConsistent(run, steps, i - 1);
      StepFollows(run[i - 1], steps[i - 1], Resource(MANAGEMENT_PRINCIPAL, 0));
    }
  }

  ghost function States(run: seq<ManagementState>, r: Resource): seq<Option<string>> {
    seq(|run|, i requires 0 <= i < |run| => Canonical(run[i], r))
  }

  ghost function Touches(run: seq<ManagementState>, steps: seq<Step>, r: Resource): seq<Touch>
    requires |run| == |steps| + 1
  {
    seq(|steps|, i requires 0 <= i < |steps| => TouchBy(run[i], steps[i], r))
  }

  /** In every serial run the records of each principal and credential chain over its states. */
  lemma ManagementAuditsChain(run: seq<ManagementState>, steps: seq<Step>, r: Resource)
    requires SerialRun(run, steps)
    ensures History(States(run, r), Touches(run, steps, r))
  {
    hide After, Consistent, Follows, Canonical, TouchBy;
    var states, touches := States(run, r), Touches(run, steps, r);
    forall i | 0 <= i < |touches|
      ensures Follows(states[i], states[i + 1], touches[i])
    {
      SerialRunsStayConsistent(run, steps, i);
      StepFollows(run[i], steps[i], r);
    }
  }

  /** The current state of a principal can be read back from its last record. */
  lemma LastPrincipalRecordDecodes(run: seq<ManagementState>, steps: seq<Step>, id: Uuid, i: nat)
    requires SerialRun(run, steps) && i < |steps|
    requires var touches := Touches(run, steps, Resource(MANAGEMENT_PRINCIPAL, id));
             touches[i].Recorded? && NoRecordBetween(touches, i + 1, |touches|)
    ensures id in run[|steps|].principals
    ensures ManagementPrincipalDecoded(Touches(run, steps, Resource(MANAGEMENT_PRINCIPAL, id))[i].after) ==
            PrincipalFacts(run[|steps|].principals[id])
  {
    hide After, Consistent, Follows, TouchBy, ManagementPrincipalCanonical, ManagementPrincipalDecoded;
    var r := Resource(MANAGEMENT_PRINCIPAL, id);
    ManagementAuditsChain(run, steps, r);
    LastRecordDescribesState(States(run, r), Touches(run, steps, r), i);
    var last := run[|steps|];
    SerialRunsStayConsistent(run, steps, |steps|);
    assert Canonical(last, r).Some?;
    StoredFactsAreValid(last, id);
    ManagementPrincipalRoundTrip(PrincipalFacts(last.principals[id]));
  }

  lemma StoredFactsAreValid(s: ManagementState, id: Uuid)
    requires Consistent(s) && id in s.principals
    ensures PrincipalFacts(s.principals[id]).Valid()
  {
  }

  lemma PlainIsOneLine()
    ensures forall s: string :: Plain(s) ==> '\n' !in s
  {
  }

  lemma StoredCredentialFactsAreValid(s: ManagementState, id: Uuid)
    requires Consistent(s) && id in s.credentials
    ensures CredentialFacts(s.credentials[id]).Valid()
  {
    hide InstantText, InstantValue, Plain;
    assert forall s: string :: Plain(s) ==> '\n' !in s by {
      PlainIsOneLine();
    }
    var c := s.credentials[id];
    InstantTextRoundTrip(c.createdAt);
    if c.expiresAt.Some? {
      InstantTextRoundTrip(c.expiresAt.value);
    }
  }

  /** The current state of a credential can be read back from its last record. */
  lemma LastCredentialRecordDecodes(run: seq<ManagementState>, steps: seq<Step>, id: Uuid, i: nat)
    requires SerialRun(run, steps) && i < |steps|
    requires var touches := Touches(run, steps, Resource(MANAGEMENT_CREDENTIAL, id));
             touches[i].Recorded? && NoRecordBetween(touches, i + 1, |touches|)
    ensures id in run[|steps|].credentials
    ensures ManagementCredentialDecoded(Touches(run, steps, Resource(MANAGEMENT_CREDENTIAL, id))[i].after) ==
            CredentialFacts(run[|steps|].credentials[id])
    ensures var decoded := ManagementCredentialDecoded(Touches(run, steps, Resource(MANAGEMENT_CREDENTIAL, id))[i].after);
            && InstantValue(decoded.createdAt) == run[|steps|].credentials[id].createdAt
            && (decoded.expiresAt.Some? <==> run[|steps|].credentials[id].expiresAt.Some?)
            && (decoded.expiresAt.Some? ==>
                  InstantValue(decoded.expiresAt.value) == run[|steps|].credentials[id].expiresAt.value)
  {
    hide After, Consistent, Follows, TouchBy, ManagementCredentialCanonical, ManagementCredentialDecoded, InstantText, InstantValue;
    var r := Resource(MANAGEMENT_CREDENTIAL, id);
    ManagementAuditsChain(run, steps, r);
    LastRecordDescribesState(States(run, r), Touches(run, steps, r), i);
    var last := run[|steps|];
    SerialRunsStayConsistent(run, steps, |steps|);
    assert Canonical(last, r).Some?;
    StoredCredentialFactsAreValid(last, id);
    ManagementCredentialRoundTrip(CredentialFacts(last.credentials[id]));
    InstantTextRoundTrip(last.credentials[id].createdAt);
    if last.credentials[id].expiresAt.Some? {
      InstantTextRoundTrip(last.credentials[id].expiresAt.value);
    }
  }
}
