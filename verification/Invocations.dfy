/** The Invocation aggregate: construction-time validation and the five constructors. */
module Invocations {
  import opened Wrappers
  import opened Decimals
  import opened Text
  import opened Cost
  import opened Uuids

  type Id = Uuid

  const MAX_INVOCATION_INPUT_LENGTH := 10_000
  const MAX_PROVIDER_RESPONSE_ID_LENGTH := 255

  datatype InvocationStatus = SUCCEEDED | FAILED | DENIED | LIMITED | COST_LIMITED

  datatype InvocationError = InvalidInput | InvalidOutput | InvalidValue

  /** Who asked for what, when, and under which decision: the columns of every Invocation. */
  datatype Identity = Identity(
    id: Id,
    tenantId: Id,
    agentId: Id,
    modelId: Id,
    inputText: string,
    startedAt: int,
    completedAt: int,
    policyDecisionId: Id,
    runtimePrincipalId: string)

  /** The five columns in which a gate records why it rejected; one group for each gate. */
  datatype LimitEvidence = LimitEvidence(
    consumed: Option<int>,
    limit: Option<int>,
    allowance: Option<int>,
    windowStart: Option<int>,
    windowEnd: Option<int>)
  {
    predicate Present() {
      consumed.Some? && limit.Some? && allowance.Some? && windowStart.Some? && windowEnd.Some?
    }

    predicate Absent() {
      consumed.None? && limit.None? && allowance.None? && windowStart.None? && windowEnd.None?
    }

    /** All five are given, ranges and window included; what is left is to compare the sum. */
    predicate Ordered() {
      && Present()
      && consumed.value >= 0
      && limit.value > 0
      && 0 < allowance.value <= limit.value
      && windowEnd.value > windowStart.value
    }
  }

  const NO_EVIDENCE := LimitEvidence(None, None, None, None, None)

  datatype Invocation = Invocation(
    who: Identity,
    status: InvocationStatus,
    outputText: Option<string>,
    durationMs: Option<int>,
    usage: Option<InvocationUsage>,
    providerResponseId: Option<string>,
    usageEvidence: LimitEvidence,
    estimatedCost: Option<InvocationCost>,
    costEvidence: LimitEvidence)

  function ValidatedInput(value: string): Result<string, InvocationError> {
    var canonical := Strip(value);
    if canonical == "" || |canonical| > MAX_INVOCATION_INPUT_LENGTH then Failure(InvalidInput)
    else Success(canonical)
  }

  predicate NoTelemetry(v: Invocation) {
    v.usage.None? && v.providerResponseId.None?
  }

  /** Output belongs to a succeeded Invocation, and only to it. */
  predicate OutputMatchesStatus(v: Invocation) {
    if v.status == SUCCEEDED then v.outputText.Some? && Strip(v.outputText.value) != ""
    else v.outputText.None?
  }

  /** Usage-limit evidence belongs to a limited Invocation, and shows the limit exceeded. */
  predicate UsageEvidenceMatchesStatus(v: Invocation) {
    var e := v.usageEvidence;
    if v.status == LIMITED then
      e.Ordered() && NoTelemetry(v) && e.consumed.value + e.allowance.value > e.limit.value
    else e.Absent()
  }

  /** Cost-budget evidence belongs to a cost-limited Invocation. Its sum is a Decimal addition
      in the default context of 28 digits. */
  predicate CostEvidenceMatchesStatus(v: Invocation) {
    var e := v.costEvidence;
    if v.status == COST_LIMITED then
      e.Ordered() && NoTelemetry(v) && RoundSignificant(28, e.consumed.value + e.allowance.value) > e.limit.value
    else e.Absent()
  }

  /** An estimated cost belongs to a succeeded Invocation with both component counts. */
  predicate CostMatchesStatus(v: Invocation) {
    v.estimatedCost.Some? ==>
      && v.status == SUCCEEDED
      && v.usage.Some? && v.usage.value.inputUnits.Some? && v.usage.value.outputUnits.Some?
  }

  predicate MatchesStatus(v: Invocation) {
    && OutputMatchesStatus(v) && UsageEvidenceMatchesStatus(v)
    && CostEvidenceMatchesStatus(v) && CostMatchesStatus(v)
  }

  predicate ResponseIdValid(value: Option<string>) {
    value.Some? ==> 0 < |value.value| <= MAX_PROVIDER_RESPONSE_ID_LENGTH
  }

  function StripIfPresent(value: Option<string>): Option<string> {
    if value.None? then None else Some(Strip(value.value))
  }

  /** `__post_init__`: strips the input and the response identity, and validates the rest. */
  function Construct(raw: Invocation): (r: Result<Invocation, InvocationError>)
    requires raw.usage.Some? ==> raw.usage.value.Valid()
    requires raw.estimatedCost.Some? ==> raw.estimatedCost.value.Valid()
    ensures r.Success? ==>
              r.value == raw.(who := raw.who.(inputText := r.value.who.inputText),
                              providerResponseId := r.value.providerResponseId)
  {
    var input :- ValidatedInput(raw.who.inputText);
    var v := raw.(who := raw.who.(inputText := input), providerResponseId := StripIfPresent(raw.providerResponseId));
    if Strip(v.who.runtimePrincipalId) == "" || v.who.completedAt < v.who.startedAt then Failure(InvalidValue)
    else if v.durationMs.Some? && v.durationMs.value < 0 then Failure(InvalidValue)
    else if !ResponseIdValid(v.providerResponseId) then Failure(InvalidValue)
    else if !OutputMatchesStatus(v) then Failure(InvalidOutput)
    else if !MatchesStatus(v) then Failure(InvalidValue)
    else Success(v)
  }

  /** What every Invocation object satisfies: construction accepts it and leaves it as it is. */
  predicate Valid(v: Invocation) {
    && (v.usage.Some? ==> v.usage.value.Valid())
    && (v.estimatedCost.Some? ==> v.estimatedCost.value.Valid())
    && Construct(v) == Success(v)
  }

  lemma ConstructYieldsValid(raw: Invocation)
    requires raw.usage.Some? ==> raw.usage.value.Valid()
    requires raw.estimatedCost.Some? ==> raw.estimatedCost.value.Valid()
    requires Construct(raw).Success?
    ensures Valid(Construct(raw).value)
  {
    hide Strip, Trimmed, OutputMatchesStatus, MatchesStatus;
    var v := Construct(raw).value;
    StripIsIdempotent(raw.who.inputText);
    if v.providerResponseId.Some? {
      StripIsIdempotent(raw.providerResponseId.value);
    }
  }

  /** Stripping the input and the response identity does not affect how fields match the status. */
  lemma StrippingKeepsMatching(v: Invocation, input: string)
    ensures MatchesStatus(v.(who := v.who.(inputText := input), providerResponseId := StripIfPresent(v.providerResponseId)))
            == MatchesStatus(v)
  {
    hide Strip, RoundSignificant;
  }

  /** A request that passed input validation, from a named principal, on a clock that did not go back. */
  predicate Buildable(who: Identity) {
    && ValidatedInput(who.inputText).Success?
    && Strip(who.runtimePrincipalId) != ""
    && who.startedAt <= who.completedAt
  }

  /** Construction accepts a raw value if and only if its request is buildable, its duration is not
      negative, its stripped response identity fits, and its other fields match its status. */
  lemma ConstructAcceptsIff(raw: Invocation)
    requires raw.usage.Some? ==> raw.usage.value.Valid()
    requires raw.estimatedCost.Some? ==> raw.estimatedCost.value.Valid()
    ensures Construct(raw).Success? <==>
            && Buildable(raw.who) && (raw.durationMs.Some? ==> raw.durationMs.value >= 0)
            && ResponseIdValid(StripIfPresent(raw.providerResponseId)) && MatchesStatus(raw)
    ensures Construct(raw).Success? ==>
              && Valid(Construct(raw).value)
              && Construct(raw).value == raw.(who := raw.who.(inputText := Strip(raw.who.inputText)),
                                              providerResponseId := StripIfPresent(raw.providerResponseId))
  {
    hide Strip, Trimmed, OutputMatchesStatus, UsageEvidenceMatchesStatus, CostEvidenceMatchesStatus, CostMatchesStatus;
    if ValidatedInput(raw.who.inputText).Success? {
      StrippingKeepsMatching(raw, Strip(raw.who.inputText));
    }
    if Construct(raw).Success? {
      ConstructYieldsValid(raw);
    }
    hide Valid, StripIfPresent;
  }

  // The constructors

  /** Whole milliseconds between two instants, as `timedelta` splits them. */
  function DurationMs(startedAt: int, completedAt: int): Result<int, InvocationError> {
    if completedAt < startedAt then Failure(InvalidValue)
    else
      var delta := completedAt - startedAt;
      var days, rest := delta / 86_400_000_000, delta % 86_400_000_000;
      var seconds, microseconds := rest / 1_000_000, rest % 1_000_000;
      Success(days * 86_400_000 + seconds * 1_000 + microseconds / 1_000)
  }

  lemma DurationIsWholeMilliseconds(startedAt: int, completedAt: int)
    requires startedAt <= completedAt
    ensures DurationMs(startedAt, completedAt).Success?
    ensures var ms := DurationMs(startedAt, completedAt).value;
            0 <= ms && ms * 1_000 <= completedAt - startedAt < (ms + 1) * 1_000
  {
  }

  /** The columns every constructor fills the same way. */
  function Bare(who: Identity, status: InvocationStatus, duration: int): Invocation {
    Invocation(who, status, None, Some(duration), None, None, NO_EVIDENCE, None, NO_EVIDENCE)
  }

  /** The identity columns of a row, as the request and its decision gave them. */
  predicate Records(v: Invocation, who: Identity, status: InvocationStatus) {
    v.status == status && v.who == who.(inputText := v.who.inputText)
  }

  /** Construction of a value, which is then valid. */
  function Validated(raw: Invocation): (r: Result<Invocation, InvocationError>)
    requires raw.usage.Some? ==> raw.usage.value.Valid()
    requires raw.estimatedCost.Some? ==> raw.estimatedCost.value.Valid()
    ensures r == Construct(raw) && (r.Success? ==> Valid(r.value))
    ensures r.Success? ==>
              r.value == raw.(who := raw.who.(inputText := r.value.who.inputText),
                              providerResponseId := r.value.providerResponseId)
  {
    var v :- Construct(raw);
    ConstructYieldsValid(raw);
    Success(v)
  }

  predicate WithoutUsage(v: Invocation) {
    v.usage.None? && v.estimatedCost.None?
  }

  function Succeeded(who: Identity, outputText: string, usage: Option<InvocationUsage>,
                     providerResponseId: Option<string>, estimatedCost: Option<InvocationCost>)
    : (r: Result<Invocation, InvocationError>)
    requires usage.Some? ==> usage.value.Valid()
    requires estimatedCost.Some? ==> estimatedCost.value.Valid()
    ensures r.Success? ==>
              && Valid(r.value) && Records(r.value, who, SUCCEEDED)
              && r.value.usage == usage && r.value.estimatedCost == estimatedCost
  {
    var duration :- DurationMs(who.startedAt, who.completedAt);
    hide Construct, Valid;
    Validated(Bare(who, SUCCEEDED, duration).(outputText := Some(outputText), usage := usage,
                                              providerResponseId := providerResponseId,
                                              estimatedCost := estimatedCost))
  }

  function Failed(who: Identity): (r: Result<Invocation, InvocationError>)
    ensures r.Success? ==> Valid(r.value) && Records(r.value, who, FAILED) && WithoutUsage(r.value)
  {
    var duration :- DurationMs(who.startedAt, who.completedAt);
    hide Construct, Valid;
    Validated(Bare(who, FAILED, duration))
  }

  function Denied(who: Identity): (r: Result<Invocation, InvocationError>)
    ensures r.Success? ==> Valid(r.value) && Records(r.value, who, DENIED) && WithoutUsage(r.value)
  {
    var duration :- DurationMs(who.startedAt, who.completedAt);
    hide Construct, Valid;
    Validated(Bare(who, DENIED, duration))
  }

  function Limited(who: Identity, consumed: int, limit: int, allowance: int, windowStart: int, windowEnd: int)
    : (r: Result<Invocation, InvocationError>)
    ensures r.Success? ==> Valid(r.value) && Records(r.value, who, LIMITED) && WithoutUsage(r.value)
  {
    var duration :- DurationMs(who.startedAt, who.completedAt);
    hide Construct, Valid;
    Validated(Bare(who, LIMITED, duration)
              .(usageEvidence := LimitEvidence(Some(consumed), Some(limit), Some(allowance),
                                               Some(windowStart), Some(windowEnd))))
  }

  function CostLimited(who: Identity, consumed: int, limit: int, allowance: int, windowStart: int, windowEnd: int)
    : (r: Result<Invocation, InvocationError>)
    ensures r.Success? ==> Valid(r.value) && Records(r.value, who, COST_LIMITED) && WithoutUsage(r.value)
  {
    var duration :- DurationMs(who.startedAt, who.completedAt);
    hide Construct, Valid;
    Validated(Bare(who, COST_LIMITED, duration)
              .(costEvidence := LimitEvidence(Some(consumed), Some(limit), Some(allowance),
                                              Some(windowStart), Some(windowEnd))))
  }

  // When an Invocation is built, and what it then holds

  /** The request as it is recorded, and the whole milliseconds it took. */
  predicate Concludes(v: Invocation, who: Identity, status: InvocationStatus) {
    && v.who == who.(inputText := Strip(who.inputText)) && v.status == status
    && v.durationMs.Some?
    && var ms := v.durationMs.value;
       0 <= ms && ms * 1_000 <= who.completedAt - who.startedAt < (ms + 1) * 1_000
  }

  /** A denial or a failure is built for every buildable request, and holds nothing but the request. */
  lemma DeniedAndFailedAreBuiltIff(who: Identity)
    ensures forall r :: r in [Denied(who), Failed(who)] ==>
              && (r.Success? <==> Buildable(who))
              && (r.Success? ==>
                    && r.value.outputText.None? && NoTelemetry(r.value) && r.value.estimatedCost.None?
                    && r.value.usageEvidence.Absent() && r.value.costEvidence.Absent())
    ensures Buildable(who) ==> Concludes(Denied(who).value, who, DENIED) && Concludes(Failed(who).value, who, FAILED)
  {
    hide Strip, Construct, RoundSignificant;
    if who.startedAt <= who.completedAt {
      DurationIsWholeMilliseconds(who.startedAt, who.completedAt);
      var duration := DurationMs(who.startedAt, who.completedAt).value;
      ConstructAcceptsIff(Bare(who, DENIED, duration));
      ConstructAcceptsIff(Bare(who, FAILED, duration));
    }
    hide DurationMs, Valid;
  }

  /** A rejection is built if and only if its evidence is ordered and shows the limit exceeded; the
      evidence is recorded as it was given. */
  lemma LimitedIsBuiltIff(who: Identity, consumed: int, limit: int, allowance: int, windowStart: int, windowEnd: int)
    ensures var r, e := Limited(who, consumed, limit, allowance, windowStart, windowEnd),
                        LimitEvidence(Some(consumed), Some(limit), Some(allowance), Some(windowStart), Some(windowEnd));
            && (r.Success? <==> Buildable(who) && e.Ordered() && consumed + allowance > limit)
            && (r.Success? ==>
                  && Concludes(r.value, who, LIMITED) && r.value.usageEvidence == e && r.value.costEvidence.Absent()
                  && r.value.outputText.None? && NoTelemetry(r.value) && r.value.estimatedCost.None?)
  {
    hide Strip, Construct, RoundSignificant;
    var e := LimitEvidence(Some(consumed), Some(limit), Some(allowance), Some(windowStart), Some(windowEnd));
    if who.startedAt <= who.completedAt {
      DurationIsWholeMilliseconds(who.startedAt, who.completedAt);
      ConstructAcceptsIff(Bare(who, LIMITED, DurationMs(who.startedAt, who.completedAt).value).(usageEvidence := e));
    }
    hide DurationMs, Valid;
  }

  /** The same for the cost gate, whose sum is a Decimal addition of 28 digits. */
  lemma CostLimitedIsBuiltIff(who: Identity, consumed: int, limit: int, allowance: int, windowStart: int, windowEnd: int)
    ensures var r, e := CostLimited(who, consumed, limit, allowance, windowStart, windowEnd),
                        LimitEvidence(Some(consumed), Some(limit), Some(allowance), Some(windowStart), Some(windowEnd));
            && (r.Success? <==> Buildable(who) && e.Ordered() && RoundSignificant(28, consumed + allowance) > limit)
            && (r.Success? ==>
                  && Concludes(r.value, who, COST_LIMITED) && r.value.costEvidence == e && r.value.usageEvidence.Absent()
                  && r.value.outputText.None? && NoTelemetry(r.value) && r.value.estimatedCost.None?)
  {
    hide Strip, Construct, RoundSignificant;
    var e := LimitEvidence(Some(consumed), Some(limit), Some(allowance), Some(windowStart), Some(windowEnd));
    if who.startedAt <= who.completedAt {
      DurationIsWholeMilliseconds(who.startedAt, who.completedAt);
      ConstructAcceptsIff(Bare(who, COST_LIMITED, DurationMs(who.startedAt, who.completedAt).value).(costEvidence := e));
    }
    hide DurationMs, Valid;
  }

  /** An answer is built if and only if its text is not blank, its response identity fits once
      stripped, and a cost comes with both component counts. The text is kept as it came. */
  lemma SucceededIsBuiltIff(who: Identity, outputText: string, usage: Option<InvocationUsage>,
                            providerResponseId: Option<string>, estimatedCost: Option<InvocationCost>)
    requires usage.Some? ==> usage.value.Valid()
    requires estimatedCost.Some? ==> estimatedCost.value.Valid()
    ensures var r := Succeeded(who, outputText, usage, providerResponseId, estimatedCost);
            && (r.Success? <==>
                  && Buildable(who) && Strip(outputText) != "" && ResponseIdValid(StripIfPresent(providerResponseId))
                  && (estimatedCost.Some? ==> usage.Some? && usage.value.inputUnits.Some? && usage.value.outputUnits.Some?))
            && (r.Success? ==>
                  && Concludes(r.value, who, SUCCEEDED) && r.value.outputText == Some(outputText)
                  && r.value.usage == usage && r.value.estimatedCost == estimatedCost
                  && r.value.providerResponseId == StripIfPresent(providerResponseId)
                  && r.value.usageEvidence.Absent() && r.value.costEvidence.Absent())
  {
    hide Strip, Construct, RoundSignificant;
    if who.startedAt <= who.completedAt {
      DurationIsWholeMilliseconds(who.startedAt, who.completedAt);
      ConstructAcceptsIff(Bare(who, SUCCEEDED, DurationMs(who.startedAt, who.completedAt).value)
                          .(outputText := Some(outputText), usage := usage,
                            providerResponseId := providerResponseId, estimatedCost := estimatedCost));
    }
    hide DurationMs, Valid;
  }
}
