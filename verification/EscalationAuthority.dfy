/**
 Validation, building and assessment of one escalation authority artifact
 (`escalation_authority_writer.py`, with the transition rules of
 `lifecycle_transition_writer.py`). Main results: normalisation is a fixpoint, so an artifact
 is assessed valid exactly when its payload validated when it was built; exactly which
 payloads are valid and which block the release; and exactly which changes of a payload under
 an unchanged provenance go unnoticed: those that normalisation undoes, a lifted block included.
 */
module EscalationAuthority {
  import opened Text
  import opened Json
  import opened EscalationLog

  const WRITER_ID := "governance_tools.escalation_authority_writer"
  const WRITER_VERSION := "1.0"
  const ARTIFACT_SCHEMA := "e1b.phase_b.escalation_authority.v1"

  const BLOCKED := "release_blocked"
  const REASONS := "release_block_reasons"

  const MITIGATION_STATES: set<string> := {
    "pending_human_validation", "pending_independent_validation", "author_provisional", "validated",
    "waived_by_policy" }
  const TRACK_STATES: set<string> := {
    "pending_validation", "pending_independent_validation", "closure_eligible", "closed", "governance_incomplete" }
  const ROUTE_STATES: set<string> := { "assigned", "in_progress", "overdue", "completed", "not_applicable" }
  const COVERAGE_ERAS: set<string> := { "CURRENT", "TRANSITION", "PRE-SKIP-TYPE-ERA" }
  const LIFECYCLE_STATES: set<string> := {
    "created", "active", "superseded", "resolved_provisional", "resolved_confirmed", "invalidated", "archived" }

  // ---------------------------------------------------------------- lifecycle transitions

  const ALLOWED_TRANSITIONS: set<(string, string)> := {
    ("created", "active"), ("active", "superseded"), ("active", "resolved_provisional"),
    ("resolved_provisional", "resolved_confirmed"), ("active", "invalidated"), ("superseded", "archived"),
    ("resolved_provisional", "archived"), ("resolved_confirmed", "archived"), ("invalidated", "archived") }

  /** Errors of `validate_lifecycle_transition`; none means the transition is allowed. */
  function TransitionErrors(from: string, to: string, actor: string, auto: bool): seq<string> {
    var invalid := (if from in LIFECYCLE_STATES then [] else ["from_state_invalid"])
                   + (if to in LIFECYCLE_STATES then [] else ["to_state_invalid"]);
    if invalid != [] then invalid
    else
      (if (from, to) in ALLOWED_TRANSITIONS then [] else ["transition_not_allowed"])
      + (if from == "active" && to == "resolved_confirmed" then ["active_to_resolved_confirmed_forbidden"] else [])
      + (if to == "resolved_confirmed" && auto then ["resolved_confirmed_auto_write_forbidden"] else [])
      + (if to == "resolved_confirmed" && actor == "author_provisional"
         then ["author_provisional_cannot_confirm_resolution"] else [])
      + (if to == "resolved_confirmed" && actor !in {"reviewer_confirmed", "reviewer"}
         then ["resolved_confirmed_requires_reviewer_confirmation"] else [])
  }

  // ---------------------------------------------------------------- validation

  /** The payload entries the validator looks at, apart from the two it writes. */
  datatype Inputs = Inputs(id: Json, mitigation: Json, track: Json, route: Json,
                           owner: Json, target: Json, dueDate: Json, claimsResolved: Json,
                           claimUsed: Json, era: Json, caveat: Json, contamination: Json,
                           closed: Json, lifecycle: Json, transition: Json)

  function InputsOf(p: Obj): Inputs {
    Inputs(
      Get(p, "escalation_id"), Get(p, "mitigation_validation_state"), Get(p, "governance_track_state"),
      if "forced_route_status" in p then p["forced_route_status"] else JStr("not_applicable"),
      Get(p, "forced_owner"), Get(p, "forced_escalation_target"), Get(p, "forced_route_due_date"),
      Get(p, "release_claims_resolved"), Get(p, "protected_claim_used"), Get(p, "coverage_era"),
      Get(p, "coverage_caveat"), Get(p, "contamination_status"), Get(p, "escalation_closed"),
      Get(p, "authority_lifecycle_state"), Get(p, "lifecycle_transition"))
  }

  predicate Among(j: Json, states: set<string>) {
    j.JStr? && j.s in states
  }

  function Fault(bad: bool, message: string): (faults: seq<string>)
    ensures faults == [] <==> !bad
  {
    if bad then [message] else []
  }

  function TextFault(value: Json, key: string): seq<string> {
    Fault(!IsText(value), key + " is required and must be a non-empty string")
  }

  function StateFaults(v: Inputs): seq<string> {
    TextFault(v.id, "escalation_id")
    + Fault(!Among(v.mitigation, MITIGATION_STATES), "mitigation_validation_state is invalid")
    + Fault(!Among(v.track, TRACK_STATES), "governance_track_state is invalid")
    + Fault(!Among(v.route, ROUTE_STATES), "forced_route_status is invalid")
  }

  function ProvisionalFaults(v: Inputs): seq<string> {
    TextFault(v.owner, "forced_owner")
    + TextFault(v.target, "forced_escalation_target")
    + TextFault(v.dueDate, "forced_route_due_date")
    + Fault(v.route == JStr("not_applicable"),
            "forced_route_status must not be not_applicable when mitigation_validation_state=author_provisional")
  }

  function RouteFaults(v: Inputs): seq<string> {
    (if v.mitigation == JStr("author_provisional") then ProvisionalFaults(v) else [])
    + Fault(Truthy(v.claimsResolved) && v.route == JStr("overdue"),
            "release_claims_resolved cannot be true when forced_route_status=overdue")
  }

  function EraFault(v: Inputs): seq<string> {
    Fault(!Among(v.era, COVERAGE_ERAS), "coverage_era is required and must be valid when protected_claim_used=true")
  }

  function CaveatFault(v: Inputs): seq<string> {
    Fault(v.era != JStr("CURRENT") && v.caveat != JStr("not_supported_under_current_coverage"),
          "coverage_caveat must be not_supported_under_current_coverage when coverage_era is not CURRENT")
  }

  function CoverageFaults(v: Inputs): seq<string> {
    if !Truthy(v.claimUsed) then [] else EraFault(v) + CaveatFault(v)
  }

  function EarlyFaults(v: Inputs): seq<string> {
    StateFaults(v) + RouteFaults(v) + CoverageFaults(v)
  }

  function ClosureFaults(v: Inputs): seq<string> {
    Fault(Truthy(v.closed)
          && Among(v.track, {"pending_validation", "pending_independent_validation", "governance_incomplete"}),
          "escalation_closed=true is inconsistent with current governance_track_state")
    + Fault(v.lifecycle != JNull && !Among(v.lifecycle, LIFECYCLE_STATES), "authority_lifecycle_state is invalid")
  }

  function ConfirmationFaults(t: Obj): seq<string> {
    var confirmation := Get(t, "reviewer_confirmation");
    if !confirmation.JObj? then ["resolved_confirmed requires lifecycle_transition.reviewer_confirmation"]
    else
      Fault(!IsText(Get(confirmation.fields, "reviewer_id")),
            "lifecycle_transition.reviewer_confirmation.reviewer_id is required")
      + Fault(!IsText(Get(confirmation.fields, "confirmed_at")),
              "lifecycle_transition.reviewer_confirmation.confirmed_at is required")
  }

  function ActorFaults(t: Obj): seq<string> {
    Fault(!IsText(Get(t, "from_state")), "lifecycle_transition.from_state is required")
    + Fault(!IsText(Get(t, "actor")), "lifecycle_transition.actor is required")
  }

  /** The transition guard runs only when nothing was wrong before. */
  function GuardErrors(state: string, t: Obj, before: seq<string>): seq<string> {
    if before + ActorFaults(t) == [] && Get(t, "from_state").JStr? && Get(t, "actor").JStr?
    then TransitionErrors(Get(t, "from_state").s, state, Get(t, "actor").s, Truthy(Get(t, "auto")))
    else []
  }

  /** Faults of the transition record; `before` are the faults found so far. */
  function TransitionFaults(state: string, t: Obj, before: seq<string>): seq<string> {
    var guard := GuardErrors(state, t, before);
    ActorFaults(t)
    + Fault(guard != [], "lifecycle_transition_guard_failed:" + Joined(guard))
    + (if state == "resolved_confirmed" then ConfirmationFaults(t) else [])
  }

  predicate Resolved(j: Json) {
    Among(j, {"resolved_provisional", "resolved_confirmed"})
  }

  function ResolutionFaults(v: Inputs, before: seq<string>): seq<string> {
    if !Resolved(v.lifecycle) then []
    else if !v.transition.JObj? then ["lifecycle_transition is required for resolved_* lifecycle states"]
    else TransitionFaults(v.lifecycle.s, v.transition.fields, before)
  }

  /** All errors of a payload, in the order the validator reports them. */
  function Faults(v: Inputs): seq<string> {
    var before := EarlyFaults(v) + ClosureFaults(v);
    before + ResolutionFaults(v, before)
  }

  /** The five release-block rules, in the order the validator applies them. */
  datatype BlockRule = Overdue | Coverage | Contamination | Active | Invalidated

  function RuleReason(rule: BlockRule): string {
    match rule
    case Overdue => "forced_route_overdue"
    case Coverage => "protected_claim_invalid_under_current_coverage"
    case Contamination => "contamination_unresolved"
    case Active => "authority_state_active"
    case Invalidated => "authority_state_invalidated"
  }

  predicate RuleApplies(v: Inputs, rule: BlockRule) {
    match rule
    case Overdue => v.route == JStr("overdue")
    case Coverage => Truthy(v.claimUsed) && v.era != JStr("CURRENT") && EarlyFaults(v) == []
    case Contamination => v.contamination == JStr("unresolved")
    case Active => v.lifecycle == JStr("active")
    case Invalidated => v.lifecycle == JStr("invalidated")
  }

  function RuleReasons(v: Inputs, rules: seq<BlockRule>): seq<string> {
    if rules == [] then []
    else Fault(RuleApplies(v, rules[0]), RuleReason(rules[0])) + RuleReasons(v, rules[1..])
  }

  /** The reasons the validator adds to a payload, in order. */
  function BlockReasons(v: Inputs): seq<string> {
    RuleReasons(v, [Overdue, Coverage, Contamination, Active, Invalidated])
  }

  /** Looking these values up in a set raises when they are lists or objects. */
  predicate Checkable(v: Inputs) {
    && Hashable(v.mitigation) && Hashable(v.track) && Hashable(v.route) && Hashable(v.lifecycle)
    && (Truthy(v.claimUsed) ==> Hashable(v.era))
  }

  function WithDefaults(p: Obj): Obj {
    var q := if BLOCKED in p then p else p[BLOCKED := JBool(false)];
    if REASONS in q then q else q[REASONS := JArr([])]
  }

  /** Whether `reason in reasons` holds, or raises, for whatever the payload holds there. */
  function ReasonListed(reasons: Json, reason: string): Outcome<bool> {
    match reasons
    case JArr(items) => Done(JStr(reason) in items)
    case JStr(s) => Done(Contains(s, reason))
    case JObj(fields) => Done(reason in fields)
    case _ => Raised
  }

  /** `_append_release_block`: only a list can take a new reason. */
  function AddBlock(p: Obj, reason: string): Outcome<Obj>
    requires REASONS in p
  {
    var listed := ReasonListed(p[REASONS], reason);
    if listed.Raised? then Raised
    else if listed.value then Done(p[BLOCKED := JBool(true)])
    else if p[REASONS].JArr? then Done(p[REASONS := JArr(p[REASONS].items + [JStr(reason)])][BLOCKED := JBool(true)])
    else Raised
  }

  function AddBlocks(p: Obj, reasons: seq<string>): Outcome<Obj>
    requires REASONS in p
    decreases |reasons|
  {
    if reasons == [] then Done(p)
    else
      var next := AddBlock(p, reasons[0]);
      if next.Raised? then Raised else AddBlocks(next.value, reasons[1..])
  }

  datatype Validation = Validation(errors: seq<string>, normalized: Obj) {
    predicate Ok() { errors == [] }
  }

  /** What `validate_prewrite_payload` returns, or that it raises. */
  function Validate(p: Obj): Outcome<Validation> {
    var v := InputsOf(p);
    if !Checkable(v) then Raised
    else
      var blocked := AddBlocks(WithDefaults(p), BlockReasons(v));
      if blocked.Raised? then Raised else Done(Validation(Faults(v), blocked.value))
  }

  // ---------------------------------------------------------------- the validator as it runs

  method AppendReleaseBlock(p: Obj, reason: string) returns (r: Outcome<Obj>)
    requires REASONS in p
    ensures r == AddBlock(p, reason)
    ensures r.Done? ==> REASONS in r.value
  {
    var listed := ReasonListed(p[REASONS], reason);
    if listed.Raised? {
      return Raised;
    }
    var q := p;
    if !listed.value {
      if !p[REASONS].JArr? {
        return Raised;
      }
      q := q[REASONS := JArr(p[REASONS].items + [JStr(reason)])];
    }
    return Done(q[BLOCKED := JBool(true)]);
  }

  lemma {:induction false} AddBlocksAppend(p: Obj, a: seq<string>, b: seq<string>)
    requires REASONS in p
    ensures AddBlocks(p, a).Raised? ==> AddBlocks(p, a + b).Raised?
    ensures AddBlocks(p, a).Done? ==> REASONS in AddBlocks(p, a).value
    ensures AddBlocks(p, a).Done? ==> AddBlocks(p, a + b) == AddBlocks(AddBlocks(p, a).value, b)
    decreases |a|
  {
    if a == [] {
      assert a + b == b;
    } else {
      assert (a + b)[0] == a[0] && (a + b)[1..] == a[1..] + b;
      var next := AddBlock(p, a[0]);
      if next.Done? {
        AddBlocksAppend(next.value, a[1..], b);
      }
    }
  }

  /** One guarded `_append_release_block`; `later` are the rules still to come. */
  method BlockIf(v: Inputs, p: Obj, bad: bool, rule: BlockRule, ghost later: seq<BlockRule>) returns (r: Outcome<Obj>)
    requires REASONS in p && bad == RuleApplies(v, rule)
    ensures r.Raised? ==> AddBlocks(p, RuleReasons(v, [rule] + later)).Raised?
    ensures r.Done? ==> REASONS in r.value
    ensures r.Done? ==> AddBlocks(p, RuleReasons(v, [rule] + later)) == AddBlocks(r.value, RuleReasons(v, later))
  {
    hide RuleApplies, RuleReason;
    var reason := RuleReason(rule);
    assert ([rule] + later)[1..] == later;
    AddBlocksAppend(p, Fault(bad, reason), RuleReasons(v, later));
    r := Done(p);
    if bad {
      r := AppendReleaseBlock(p, reason);
      assert [reason][1..] == [];
    }
  }

  method CollectStateFaults(v: Inputs) returns (errors: seq<string>)
    ensures errors == StateFaults(v)
  {
    hide Among, Fault, TextFault;
    errors := TextFault(v.id, "escalation_id");
    errors := errors + Fault(!Among(v.mitigation, MITIGATION_STATES), "mitigation_validation_state is invalid");
    errors := errors + Fault(!Among(v.track, TRACK_STATES), "governance_track_state is invalid");
    errors := errors + Fault(!Among(v.route, ROUTE_STATES), "forced_route_status is invalid");
  }

  method CollectEarlyFaults(v: Inputs) returns (errors: seq<string>)
    ensures errors == EarlyFaults(v)
  {
    hide StateFaults, ProvisionalFaults, CoverageFaults, Truthy, Fault;
    errors := CollectStateFaults(v);
    if v.mitigation == JStr("author_provisional") {
      errors := errors + ProvisionalFaults(v);
    }
    errors := errors + Fault(Truthy(v.claimsResolved) && v.route == JStr("overdue"),
                             "release_claims_resolved cannot be true when forced_route_status=overdue");
    assert errors == StateFaults(v) + RouteFaults(v);
    errors := errors + CoverageFaults(v);
  }

  method CollectFaults(v: Inputs) returns (errors: seq<string>)
    ensures errors == Faults(v)
  {
    hide EarlyFaults, ClosureFaults, TransitionFaults;
    errors := CollectEarlyFaults(v);
    errors := errors + ClosureFaults(v);
    if Resolved(v.lifecycle) {
      if !v.transition.JObj? {
        errors := errors + ["lifecycle_transition is required for resolved_* lifecycle states"];
      } else {
        errors := errors + TransitionFaults(v.lifecycle.s, v.transition.fields, errors);
      }
    }
  }

  /** The validator step by step; a failing append ends it with an exception. */
  method ValidatePrewritePayload(p: Obj) returns (r: Outcome<Validation>)
    ensures r == Validate(p)
  {
    hide InputsOf, AddBlocks, RuleReasons, EarlyFaults, Faults, WithDefaults, Truthy, RuleReason;
    var v := InputsOf(p);
    if !Checkable(v) {
      return Raised;
    }
    StartBlocks(p);
    var early := CollectEarlyFaults(v);
    var errors := CollectFaults(v);
    var next := BlockIf(v, WithDefaults(p), v.route == JStr("overdue"), Overdue,
                        [Coverage, Contamination, Active, Invalidated]);
    assert [Overdue, Coverage, Contamination, Active, Invalidated]
         == [Overdue] + [Coverage, Contamination, Active, Invalidated];
    if next.Raised? { return Raised; }
    next := BlockIf(v, next.value, Truthy(v.claimUsed) && v.era != JStr("CURRENT") && early == [], Coverage,
                    [Contamination, Active, Invalidated]);
    assert [Coverage, Contamination, Active, Invalidated] == [Coverage] + [Contamination, Active, Invalidated];
    if next.Raised? { return Raised; }
    next := BlockIf(v, next.value, v.contamination == JStr("unresolved"), Contamination, [Active, Invalidated]);
    assert [Contamination, Active, Invalidated] == [Contamination] + [Active, Invalidated];
    if next.Raised? { return Raised; }
    next := BlockIf(v, next.value, v.lifecycle == JStr("active"), Active, [Invalidated]);
    assert [Active, Invalidated] == [Active] + [Invalidated];
    if next.Raised? { return Raised; }
    next := BlockIf(v, next.value, v.lifecycle == JStr("invalidated"), Invalidated, []);
    assert [Invalidated] == [Invalidated] + [];
    if next.Raised? { return Raised; }
    NoMoreBlocks(next.value, v);
    return Done(Validation(errors, next.value));
  }

  lemma NoMoreBlocks(p: Obj, v: Inputs)
    requires REASONS in p
    ensures AddBlocks(p, RuleReasons(v, [])) == Done(p)
  {
  }

  lemma StartBlocks(p: Obj)
    ensures REASONS in WithDefaults(p)
  {
  }

  // ---------------------------------------------------------------- normalisation is a fixpoint

  lemma InputsUnaffected(p: Obj, reasons: Json, blocked: Json)
    ensures InputsOf(p[REASONS := reasons]) == InputsOf(p)
    ensures InputsOf(p[BLOCKED := blocked]) == InputsOf(p)
  {
  }

  lemma DefaultsUnaffected(p: Obj)
    ensures InputsOf(WithDefaults(p)) == InputsOf(p)
    ensures REASONS in WithDefaults(p) && BLOCKED in WithDefaults(p)
  {
    hide InputsOf;
    InputsUnaffected(p, JArr([]), JBool(false));
    InputsUnaffected(p[BLOCKED := JBool(false)], JArr([]), JBool(false));
  }

  predicate Blocks(p: Obj, reason: string) {
    REASONS in p && ReasonListed(p[REASONS], reason) == Done(true) && Get(p, BLOCKED) == JBool(true)
  }

  lemma AddBlockEffect(p: Obj, reason: string)
    requires REASONS in p && AddBlock(p, reason).Done?
    ensures var q := AddBlock(p, reason).value;
      && REASONS in q && BLOCKED in q && InputsOf(q) == InputsOf(p) && Blocks(q, reason)
      && (forall r :: Blocks(p, r) ==> Blocks(q, r))
  {
    var q := AddBlock(p, reason).value;
    assert BLOCKED != REASONS;
    hide InputsOf, Contains;
    if ReasonListed(p[REASONS], reason) == Done(true) {
      InputsUnaffected(p, JNull, JBool(true));
    } else {
      var more := JArr(p[REASONS].items + [JStr(reason)]);
      InputsUnaffected(p, more, JNull);
      InputsUnaffected(p[REASONS := more], JNull, JBool(true));
    }
  }

  /** After adding blocks every one of them is there, and earlier ones stay. */
  lemma {:induction false} AddBlocksEffect(p: Obj, reasons: seq<string>)
    requires REASONS in p && AddBlocks(p, reasons).Done?
    ensures var q := AddBlocks(p, reasons).value;
      && REASONS in q && InputsOf(q) == InputsOf(p)
      && (BLOCKED in p || reasons != [] ==> BLOCKED in q)
      && (forall r :: r in reasons ==> Blocks(q, r))
      && (forall r :: Blocks(p, r) ==> Blocks(q, r))
    decreases |reasons|
  {
    if reasons != [] {
      hide InputsOf, Blocks, AddBlock;
      AddBlockEffect(p, reasons[0]);
      var next := AddBlock(p, reasons[0]).value;
      AddBlocksEffect(next, reasons[1..]);
      assert forall r :: r in reasons ==> r == reasons[0] || r in reasons[1..];
    }
  }

  lemma {:induction false} AddBlocksTwice(p: Obj, reasons: seq<string>)
    requires REASONS in p && forall r :: r in reasons ==> Blocks(p, r)
    ensures AddBlocks(p, reasons) == Done(p)
    decreases |reasons|
  {
    if reasons != [] {
      assert Blocks(p, reasons[0]);
      assert p[BLOCKED := JBool(true)] == p;
      AddBlocksTwice(p, reasons[1..]);
    }
  }

  /** Validating a normalised payload returns it unchanged, with the same errors. */
  lemma NormalizationFixpoint(p: Obj)
    requires Validate(p).Done?
    ensures Validate(Validate(p).value.normalized) == Validate(p)
    ensures InputsOf(Validate(p).value.normalized) == InputsOf(p)
    ensures REASONS in Validate(p).value.normalized
  {
    hide InputsOf, BlockReasons, Faults, Checkable, Blocks, AddBlock;
    DefaultsUnaffected(p);
    var q := Validate(p).value.normalized;
    AddBlocksEffect(WithDefaults(p), BlockReasons(InputsOf(p)));
    assert WithDefaults(q) == q;
    AddBlocksTwice(q, BlockReasons(InputsOf(p)));
  }

  // ---------------------------------------------------------------- artifacts

  const FINGERPRINT_KEYS: set<string> := {
    "escalation_id", "mitigation_validation_state", "governance_track_state", "forced_owner",
    "forced_escalation_target", "forced_route_due_date", "forced_route_status", "protected_claim_used",
    "coverage_era", "coverage_caveat", "contamination_status", "release_claims_resolved",
    "release_blocked", "release_block_reasons", "authority_lifecycle_state", "lifecycle_transition" }

  const SEED := WRITER_ID + "|" + WRITER_VERSION + "|" + ARTIFACT_SCHEMA + "|"

  /** An absolute path, resolved, as its segments. */
  type Path = seq<string>

  /**
   What the environment supplies: serialisation, key order of objects, the text of a value
   that is no string, and the resolved path of the authority directory.
   */
  datatype Env = Env(codec: Codec, keyOrder: Obj -> seq<string>, text: Json -> string, root: Path)

  function Canonical(p: Obj): Obj {
    map key | key in FINGERPRINT_KEYS :: Get(p, key)
  }

  function Fingerprint(c: Codec, p: Obj): string {
    c.sha(SEED + c.dumps(JObj(Canonical(p))))
  }

  function CanonicalHash(c: Codec, p: Obj): string {
    c.sha(c.dumps(JObj(Canonical(p))))
  }

  datatype Provenance = Provenance(writerId: Json, writerVersion: Json, writtenAt: Json, linkage: Json, valid: Json,
                                   errors: Json, sourceHash: Json, normalizedHash: Json, fingerprint: Json)

  function ProvenanceJson(v: Provenance): Obj {
    map["writer_id" := v.writerId, "writer_version" := v.writerVersion, "written_at" := v.writtenAt,
        "provenance_linkage_version" := v.linkage, "authority_valid" := v.valid, "authority_errors" := v.errors,
        "source_inputs_hash" := v.sourceHash, "normalized_payload_hash" := v.normalizedHash,
        "payload_fingerprint" := v.fingerprint]
  }

  function ReadProvenance(o: Obj): Provenance {
    Provenance(Get(o, "writer_id"), Get(o, "writer_version"), Get(o, "written_at"),
               Get(o, "provenance_linkage_version"), Get(o, "authority_valid"), Get(o, "authority_errors"),
               Get(o, "source_inputs_hash"), Get(o, "normalized_payload_hash"), Get(o, "payload_fingerprint"))
  }

  /** The validator's copy is shallow: a reasons list in the caller's payload is the one that grows. */
  function CallerAfter(p: Obj, normalized: Obj): Obj {
    if REASONS in p && p[REASONS].JArr? then p[REASONS := Get(normalized, REASONS)] else p
  }

  function BuiltProvenance(c: Codec, p: Obj, v: Validation, at: string): Provenance {
    Provenance(JStr(WRITER_ID), JStr(WRITER_VERSION), JStr(at), JStr("v1"), JBool(v.Ok()), JArr(Strings(v.errors)),
               JStr(c.sha(c.dumps(JObj(CallerAfter(p, v.normalized))))),
               JStr(CanonicalHash(c, v.normalized)), JStr(Fingerprint(c, v.normalized)))
  }

  function LogReference(hash: string, normalized: Obj): Json {
    JObj(map["entry_hash" := JStr(hash), "escalation_id" := Get(normalized, "escalation_id"),
             "binding_version" := JStr("v1")])
  }

  /** The parts of an artifact file that are read back. */
  datatype Artifact = Artifact(schema: Json, provenance: Json, payload: Json, logReference: Json)

  function ReadArtifact(o: Obj): Artifact {
    Artifact(Get(o, "artifact_schema"), Get(o, "authority_provenance"), Get(o, "payload"), Get(o, "log_reference"))
  }

  function ArtifactJson(a: Artifact): Json {
    var o: Obj := map["artifact_type" := JStr("e1b_phase_b_escalation_authority"), "artifact_schema" := a.schema,
                      "authority_provenance" := a.provenance, "payload" := a.payload];
    JObj(if a.logReference == JNull then o else o["log_reference" := a.logReference])
  }

  /** `build_authority_artifact`; `at` is the time written into the provenance. */
  function BuildArtifact(c: Codec, p: Obj, at: string, logHash: Option<string>): Outcome<Json> {
    var v := Validate(p);
    if v.Raised? then Raised
    else Done(ArtifactJson(Artifact(
                JStr(ARTIFACT_SCHEMA),
                JObj(ProvenanceJson(BuiltProvenance(c, p, v.value, at))),
                JObj(v.value.normalized),
                ReferenceOf(logHash, v.value.normalized))))
  }

  // ---------------------------------------------------------------- assessment

  datatype Level = LogBindingFailed | NoEvidence | LogUnbound | LogBound

  datatype Record = Record(authorityValid: bool, escalationId: Json, lifecycle: Json,
                           releaseBlocked: bool, reasons: seq<Json>, logBinding: Option<bool>, level: Level)

  predicate TrustedWriter(schema: Json, v: Provenance) {
    && v.writerId == JStr(WRITER_ID) && v.writerVersion == JStr(WRITER_VERSION)
    && schema == JStr(ARTIFACT_SCHEMA) && v.linkage == JStr("v1")
  }

  predicate LinkageOk(v: Provenance) {
    IsText(v.writtenAt) && IsText(v.fingerprint) && IsText(v.sourceHash) && IsText(v.normalizedHash)
  }

  predicate AuthorityValid(c: Codec, schema: Json, v: Provenance, check: Validation) {
    && check.Ok() && TrustedWriter(schema, v) && LinkageOk(v)
    && v.fingerprint == JStr(Fingerprint(c, check.normalized))
    && v.normalizedHash == JStr(CanonicalHash(c, check.normalized))
    && v.valid == JBool(true)
  }

  function AddUnique(reasons: seq<Json>, bad: bool, reason: string): seq<Json> {
    if bad && JStr(reason) !in reasons then reasons + [JStr(reason)] else reasons
  }

  function UntrustedReasons(c: Codec, schema: Json, v: Provenance, check: Validation, own: seq<Json>): seq<Json> {
    var r := AddUnique(own, true, "untrusted_escalation_provenance");
    var r := AddUnique(r, !TrustedWriter(schema, v), "untrusted_writer_identity");
    var r := AddUnique(r, !LinkageOk(v), "missing_or_invalid_provenance_linkage");
    var r := AddUnique(r, v.fingerprint != JStr(Fingerprint(c, check.normalized)), "payload_fingerprint_mismatch");
    var r := AddUnique(r, v.normalizedHash != JStr(CanonicalHash(c, check.normalized)),
                       "normalized_payload_hash_mismatch");
    AddUnique(r, !check.Ok(), "payload_prewrite_validation_failed")
  }

  function LogBinding(reference: Json, known: set<string>): Option<bool> {
    if !reference.JObj? then None
    else
      var hash := Get(reference.fields, "entry_hash");
      Some(hash.JStr? && hash.s != "" && hash.s in known)
  }

  function EvidenceLevel(reference: Json, known: Option<set<string>>): Level {
    if known.None? then
      if reference.JObj? && Truthy(Get(reference.fields, "entry_hash")) then LogUnbound else NoEvidence
    else match LogBinding(reference, known.value)
      case Some(true) => LogBound
      case Some(false) => LogBindingFailed
      case None => NoEvidence
  }

  const UNTRUSTED := Record(false, JNull, JNull, true, [JStr("untrusted_escalation_provenance")], None, NoEvidence)

  /** The stored reasons as the assessment lists them, after the validator has seen the payload. */
  function OwnReasons(e: Env, p: Obj, check: Validation): Outcome<seq<Json>> {
    ListOf(Get(CallerAfter(p, check.normalized), REASONS), e.keyOrder)
  }

  function AssessParsed(e: Env, a: Artifact, known: Option<set<string>>): Outcome<Record> {
    var provenance, payload := OrEmpty(a.provenance), OrEmpty(a.payload);
    if provenance.Raised? || payload.Raised? then Raised
    else
      var check := Validate(payload.value);
      if check.Raised? then Raised
      else
        var own := OwnReasons(e, payload.value, check.value);
        if own.Raised? then Raised
        else
          var v := ReadProvenance(provenance.value);
          var valid := AuthorityValid(e.codec, a.schema, v, check.value);
          Done(Record(
                 valid, Get(payload.value, "escalation_id"), Get(payload.value, "authority_lifecycle_state"),
                 Truthy(Get(payload.value, BLOCKED)) || !valid,
                 if valid then own.value else UntrustedReasons(e.codec, a.schema, v, check.value, own.value),
                 if known.None? then None else LogBinding(a.logReference, known.value),
                 EvidenceLevel(a.logReference, known)))
  }

  /** What `assess_authority_artifact` reports on a file, or that it raises. */
  function AssessArtifact(e: Env, file: FileContent, known: Option<set<string>>): Outcome<Record> {
    if !file.Parsed? then Done(UNTRUSTED)
    else if !file.json.JObj? then Raised
    else AssessParsed(e, ReadArtifact(file.json.fields), known)
  }

  // ---------------------------------------------------------------- writing, then assessing

  lemma ProvenanceRoundTrip(v: Provenance)
    ensures ReadProvenance(ProvenanceJson(v)) == v && ProvenanceJson(v) != map[]
  {
    assert "writer_id" in ProvenanceJson(v);
  }

  lemma ArtifactRoundTrip(a: Artifact)
    ensures ArtifactJson(a).JObj? && ReadArtifact(ArtifactJson(a).fields) == a
  {
  }

  predicate Listable(j: Json) {
    !Truthy(j) || j.JArr? || j.JStr? || j.JObj?
  }

  lemma AssessConsistent(e: Env, a: Artifact, known: Option<set<string>>, provenance: Obj, v: Validation)
    requires a.provenance == JObj(provenance) && a.payload == JObj(v.normalized)
    requires Validate(v.normalized) == Done(v)
    requires TrustedWriter(a.schema, ReadProvenance(provenance)) && LinkageOk(ReadProvenance(provenance))
    requires ReadProvenance(provenance).fingerprint == JStr(Fingerprint(e.codec, v.normalized))
    requires ReadProvenance(provenance).normalizedHash == JStr(CanonicalHash(e.codec, v.normalized))
    requires ReadProvenance(provenance).valid == JBool(v.Ok())
    ensures AssessParsed(e, a, known).Raised? <==> !Listable(Get(v.normalized, REASONS))
    ensures AssessParsed(e, a, known).Done? ==>
              var r := AssessParsed(e, a, known).value;
              && (r.authorityValid <==> v.Ok())
              && r.releaseBlocked == (Truthy(Get(v.normalized, BLOCKED)) || !v.Ok())
              && r.escalationId == Get(v.normalized, "escalation_id")
              && r.lifecycle == Get(v.normalized, "authority_lifecycle_state")
              && r.level == EvidenceLevel(a.logReference, known)
              && (v.Ok() ==> ListOf(Get(v.normalized, REASONS), e.keyOrder) == Done(r.reasons))
  {
    hide Validate, ReadProvenance, Fingerprint, CanonicalHash, UntrustedReasons, EvidenceLevel, LogBinding,
      TrustedWriter, LinkageOk, Characters, Strings, CallerAfter;
    EmptyPayload(provenance);
    EmptyPayload(v.normalized);
    SameAfter(v.normalized);
  }

  lemma SameAfter(p: Obj)
    ensures CallerAfter(p, p) == p
  {
  }

  /** `payload or {}` of an empty object is the empty object itself. */
  lemma EmptyPayload(p: Obj)
    ensures OrEmpty(JObj(p)) == Done(p)
  {
  }

  lemma InputsIds(p: Obj, q: Obj)
    requires InputsOf(p) == InputsOf(q)
    ensures Get(p, "escalation_id") == Get(q, "escalation_id")
    ensures Get(p, "authority_lifecycle_state") == Get(q, "authority_lifecycle_state")
  {
    assert InputsOf(p).id == InputsOf(q).id && InputsOf(p).lifecycle == InputsOf(q).lifecycle;
  }

  /** The log reference a build writes. */
  function ReferenceOf(logHash: Option<string>, normalized: Obj): Json {
    if logHash.Some? then LogReference(logHash.value, normalized) else JNull
  }

  /**
   Assessing a freshly built artifact: it raises only when the payload's reasons are no
   list-like value, and otherwise the artifact is valid exactly when its payload validated,
   carries the payload's id and lifecycle state, and blocks exactly as the writer reported.
   */
  lemma BuiltThenAssessed(e: Env, p: Obj, at: string, logHash: Option<string>, known: Option<set<string>>)
    requires LawfulCodec(e.codec) && Strip(at) != "" && Validate(p).Done?
    ensures BuildArtifact(e.codec, p, at, logHash).Done?
    ensures var v := Validate(p).value;
      var assessed := AssessArtifact(e, Parsed(BuildArtifact(e.codec, p, at, logHash).value), known);
      && (assessed.Raised? <==> !Listable(Get(v.normalized, REASONS)))
      && (assessed.Done? ==>
            && (assessed.value.authorityValid <==> v.Ok())
            && assessed.value.releaseBlocked == (Truthy(Get(v.normalized, BLOCKED)) || !v.Ok())
            && assessed.value.escalationId == Get(p, "escalation_id")
            && assessed.value.lifecycle == Get(p, "authority_lifecycle_state")
            && assessed.value.level == EvidenceLevel(ReferenceOf(logHash, v.normalized), known)
            && (v.Ok() ==> ListOf(Get(v.normalized, REASONS), e.keyOrder) == Done(assessed.value.reasons)))
  {
    var v := Validate(p).value;
    NormalizationFixpoint(p);
    InputsIds(p, v.normalized);
    BuiltInputs(e.codec, p, v, at);
    var b := BuiltProvenance(e.codec, p, v, at);
    var a := Artifact(JStr(ARTIFACT_SCHEMA), JObj(ProvenanceJson(b)), JObj(v.normalized),
                      ReferenceOf(logHash, v.normalized));
    ArtifactRoundTrip(a);
    ProvenanceRoundTrip(b);
    BuiltMarks(e.codec, p, v, at);
    assert Validate(v.normalized) == Done(v);
    AssessConsistent(e, a, known, ProvenanceJson(b), v);
    hide Validate, ProvenanceJson, ReadProvenance, ArtifactJson, ReadArtifact, AssessParsed, LawfulCodec, EvidenceLevel,
      InputsOf, BuiltProvenance;
    assert BuildArtifact(e.codec, p, at, logHash) == Done(ArtifactJson(a));
  }

  lemma BuiltMarks(c: Codec, p: Obj, v: Validation, at: string)
    ensures var b := BuiltProvenance(c, p, v, at);
      && b.fingerprint == JStr(Fingerprint(c, v.normalized))
      && b.normalizedHash == JStr(CanonicalHash(c, v.normalized))
      && b.valid == JBool(v.Ok())
  {
  }

  lemma BuiltInputs(c: Codec, p: Obj, v: Validation, at: string)
    requires LawfulCodec(c) && Strip(at) != ""
    ensures var b := BuiltProvenance(c, p, v, at);
      TrustedWriter(JStr(ARTIFACT_SCHEMA), b) && LinkageOk(b)
  {
  }

  lemma ReferenceBound(hash: string, normalized: Obj, known: set<string>)
    requires hash != "" && hash in known
    ensures EvidenceLevel(ReferenceOf(Some(hash), normalized), Some(known)) == LogBound
  {
    assert Get(LogReference(hash, normalized).fields, "entry_hash") == JStr(hash);
  }

  /**
   An artifact built with the hash of an append is bound to the log, whatever was appended
   later, if reading the log and assessing the artifact end: the former raises exactly on a
   line with JSON but no object, the latter exactly on reasons that are no list-like value.
   */
  lemma BuiltIsBound(e: Env, p: Obj, at: string, entry: Obj, text: string, before: seq<Obj>, after: seq<Obj>)
    requires LawfulCodec(e.codec) && Strip(at) != "" && Validate(p).Done?
    requires LineEnded(text) && BreakFree(e.codec.dumps(JObj(entry)))
    requires Get(entry, "_entry_hash") == JStr(EntryHash(e.codec, entry))
    ensures BuildArtifact(e.codec, p, at, Some(EntryHash(e.codec, entry))).Done?
    ensures var log := AppendAll(e.codec, text, before + [entry] + after);
      var hashes := LogHashes(e.codec, Some(log));
      var built := BuildArtifact(e.codec, p, at, Some(EntryHash(e.codec, entry))).value;
      && (hashes.Raised? <==> exists i :: 0 <= i < |LogLines(log)| && NonObject(e.codec, LogLines(log)[i]))
      && (hashes.Done? ==>
            var assessed := AssessArtifact(e, Parsed(built), Some(hashes.value));
            && (assessed.Raised? <==> !Listable(Get(Validate(p).value.normalized, REASONS)))
            && (assessed.Done? ==> assessed.value.level == LogBound))
  {
    hide *;
    var hash := EntryHash(e.codec, entry);
    HashNonEmpty(e.codec, entry);
    BuiltThenAssessed(e, p, at, Some(hash), None);
    AppendedHashFound(e.codec, text, before, entry, after);
    var hashes := LogHashes(e.codec, Some(AppendAll(e.codec, text, before + [entry] + after)));
    if hashes.Done? {
      BuiltThenAssessed(e, p, at, Some(hash), Some(hashes.value));
      ReferenceBound(hash, Validate(p).value.normalized, hashes.value);
    }
  }

  /**
   Outright: with a log that read well before, entries without line separators, and reasons
   that can be listed, nothing raises and the artifact is bound.
   */
  lemma BuiltIsBoundOutright(e: Env, p: Obj, at: string, entry: Obj, text: string, before: seq<Obj>, after: seq<Obj>)
    requires LawfulCodec(e.codec) && Strip(at) != "" && Validate(p).Done?
    requires Listable(Get(Validate(p).value.normalized, REASONS))
    requires LineEnded(text) && LogHashes(e.codec, Some(text)).Done? && Clean(e.codec, before + [entry] + after)
    requires Get(entry, "_entry_hash") == JStr(EntryHash(e.codec, entry))
    ensures var hashes := LogHashes(e.codec, Some(AppendAll(e.codec, text, before + [entry] + after)));
      var built := BuildArtifact(e.codec, p, at, Some(EntryHash(e.codec, entry)));
      && hashes.Done? && built.Done?
      && AssessArtifact(e, Parsed(built.value), Some(hashes.value)).Done?
      && AssessArtifact(e, Parsed(built.value), Some(hashes.value)).value.level == LogBound
  {
    CleanEntry(e.codec, before, entry, after);
    hide *;
    HashNonEmpty(e.codec, entry);
    BuiltIsBound(e, p, at, entry, text, before, after);
    CleanAppendHashes(e.codec, text, before + [entry] + after);
  }

  lemma CleanEntry(c: Codec, before: seq<Obj>, entry: Obj, after: seq<Obj>)
    requires Clean(c, before + [entry] + after)
    ensures BreakFree(c.dumps(JObj(entry)))
  {
    assert (before + [entry] + after)[|before|] == entry;
  }

  lemma HashNonEmpty(c: Codec, entry: Obj)
    requires LawfulCodec(c)
    ensures EntryHash(c, entry) != ""
  {
    assert Strip("") == "";
  }

  ghost predicate Injective(c: Codec) {
    && (forall a: string, b: string :: c.sha(a) == c.sha(b) ==> a == b)
    && (forall a: Obj, b: Obj :: c.dumps(JObj(a)) == c.dumps(JObj(b)) ==> a == b)
  }

  /** A list of reasons stays a list when the validator adds to it. */
  lemma {:induction false} ListStaysList(p: Obj, reasons: seq<string>)
    requires REASONS in p && p[REASONS].JArr? && AddBlocks(p, reasons).Done?
    ensures REASONS in AddBlocks(p, reasons).value && AddBlocks(p, reasons).value[REASONS].JArr?
    decreases |reasons|
  {
    if reasons != [] {
      assert BLOCKED != REASONS;
      ListStaysList(AddBlock(p, reasons[0]).value, reasons[1..]);
    }
  }

  /** Only a list can take new reasons, and a list always can. */
  lemma {:induction false} ListTakesBlocks(p: Obj, reasons: seq<string>)
    requires REASONS in p && p[REASONS].JArr?
    ensures AddBlocks(p, reasons).Done?
    decreases |reasons|
  {
    if reasons != [] {
      assert BLOCKED != REASONS;
      ListTakesBlocks(AddBlock(p, reasons[0]).value, reasons[1..]);
    }
  }

  lemma NormalizedList(p: Obj)
    requires Validate(p).Done? && REASONS in p && p[REASONS].JArr?
    ensures REASONS in Validate(p).value.normalized && Validate(p).value.normalized[REASONS].JArr?
  {
    hide AddBlocks, InputsOf, BlockReasons, Validate;
    NormalizedBlocks(p);
    assert BLOCKED != REASONS;
    ListStaysList(WithDefaults(p), BlockReasons(InputsOf(p)));
  }

  lemma ListableIff(j: Json, keyOrder: Obj -> seq<string>)
    ensures ListOf(j, keyOrder).Done? <==> Listable(j)
  {
    hide Characters, Strings;
  }

  /** Whether the stored reasons can be listed does not depend on what the validator added. */
  lemma OwnReasonsListable(e: Env, p: Obj)
    requires Validate(p).Done?
    ensures OwnReasons(e, p, Validate(p).value).Done? <==> Listable(Get(p, REASONS))
  {
    if REASONS in p && p[REASONS].JArr? {
      NormalizedList(p);
    }
    hide Validate, ListOf;
    ListableIff(Get(CallerAfter(p, Validate(p).value.normalized), REASONS), e.keyOrder);
  }

  lemma AssessStep(e: Env, a: Artifact, provenance: Obj, p: Obj, known: Option<set<string>>)
    requires OrEmpty(a.provenance) == Done(provenance) && OrEmpty(a.payload) == Done(p)
    ensures AssessParsed(e, a, known).Done? <==> Validate(p).Done? && OwnReasons(e, p, Validate(p).value).Done?
    ensures AssessParsed(e, a, known).Done? ==>
              AssessParsed(e, a, known).value.authorityValid
              == AuthorityValid(e.codec, a.schema, ReadProvenance(provenance), Validate(p).value)
  {
    hide Validate, AuthorityValid, ReadProvenance, OwnReasons, UntrustedReasons, EvidenceLevel, LogBinding, OrEmpty,
      Truthy, Get;
  }

  /** When an artifact is assessed valid, all in terms of its parts. */
  lemma AssessedValidIff(e: Env, schema: Json, provenance: Obj, p: Obj, ref: Json, known: Option<set<string>>)
    ensures var r := AssessParsed(e, Artifact(schema, JObj(provenance), JObj(p), ref), known);
      r.Done? && r.value.authorityValid
      <==> && Validate(p).Done? && Listable(Get(p, REASONS))
           && AuthorityValid(e.codec, schema, ReadProvenance(provenance), Validate(p).value)
  {
    EmptyPayload(provenance);
    EmptyPayload(p);
    hide *;
    if Validate(p).Done? { OwnReasonsListable(e, p); }
    AssessStep(e, Artifact(schema, JObj(provenance), JObj(p), ref), provenance, p, known);
  }

  lemma SealedPayload(c: Codec, schema: Json, v: Provenance, p: Validation, q: Validation)
    requires Injective(c) && AuthorityValid(c, schema, v, p)
    ensures AuthorityValid(c, schema, v, q) <==> q.Ok() && Canonical(q.normalized) == Canonical(p.normalized)
  {
    hide Canonical, TrustedWriter, LinkageOk;
    var a, b := Canonical(p.normalized), Canonical(q.normalized);
    assert c.dumps(JObj(a)) == c.dumps(JObj(b)) ==> a == b;
  }

  /**
   With a collision-free digest and an artifact that is assessed valid, another payload under
   the same provenance is assessed valid exactly when it validates, its reasons can be listed,
   and normalising it gives the same fingerprinted entries. The entries that are stored may
   differ as far as normalisation makes up for it.
   */
  lemma TamperEvident(e: Env, schema: Json, provenance: Obj, p: Obj, q: Obj, ref1: Json, ref2: Json,
                      known: Option<set<string>>)
    requires Injective(e.codec)
    requires AssessParsed(e, Artifact(schema, JObj(provenance), JObj(p), ref1), known).Done?
    requires AssessParsed(e, Artifact(schema, JObj(provenance), JObj(p), ref1), known).value.authorityValid
    ensures Validate(p).Done?
    ensures var r := AssessParsed(e, Artifact(schema, JObj(provenance), JObj(q), ref2), known);
      r.Done? && r.value.authorityValid
      <==> && Validate(q).Done? && Validate(q).value.Ok() && Listable(Get(q, REASONS))
           && Canonical(Validate(q).value.normalized) == Canonical(Validate(p).value.normalized)
  {
    AssessedValidIff(e, schema, provenance, p, ref1, known);
    AssessedValidIff(e, schema, provenance, q, ref2, known);
    hide AssessParsed, Validate, Canonical, ReadProvenance, AuthorityValid, Injective, Listable;
    if Validate(q).Done? {
      SealedPayload(e.codec, schema, ReadProvenance(provenance), Validate(p).value, Validate(q).value);
    }
  }

  /** An artifact as it is built, but with the payload stored as it was given. */
  function StoredRaw(c: Codec, p: Obj, at: string): Artifact
    requires Validate(p).Done?
  {
    Artifact(JStr(ARTIFACT_SCHEMA), JObj(ProvenanceJson(BuiltProvenance(c, p, Validate(p).value, at))), JObj(p), JNull)
  }

  /** Every payload that validates passes under its own built provenance as it was given, with its own block only. */
  lemma RawPayloadPasses(e: Env, p: Obj, at: string, known: Option<set<string>>)
    requires LawfulCodec(e.codec) && Strip(at) != ""
    requires Validate(p).Done? && Validate(p).value.Ok() && Listable(Get(p, REASONS))
    ensures var r := AssessParsed(e, StoredRaw(e.codec, p, at), known);
      r.Done? && r.value.authorityValid && r.value.releaseBlocked == Truthy(Get(p, BLOCKED))
  {
    var v := Validate(p).value;
    var b := BuiltProvenance(e.codec, p, v, at);
    BuiltInputs(e.codec, p, v, at);
    BuiltMarks(e.codec, p, v, at);
    ProvenanceRoundTrip(b);
    AssessedValidIff(e, JStr(ARTIFACT_SCHEMA), ProvenanceJson(b), p, JNull, known);
    assert AuthorityValid(e.codec, JStr(ARTIFACT_SCHEMA), b, v) by {
      hide Validate, LinkageOk, TrustedWriter, BuiltProvenance;
    }
    ValidBlock(e, StoredRaw(e.codec, p, at), known);
    EmptyPayload(p);
    hide AssessParsed, Validate, AuthorityValid, BuiltProvenance, ProvenanceJson, ReadProvenance, Listable;
  }

  lemma ValidBlock(e: Env, a: Artifact, known: Option<set<string>>)
    requires AssessParsed(e, a, known).Done? && AssessParsed(e, a, known).value.authorityValid
    ensures OrEmpty(a.payload).Done? && Validate(OrEmpty(a.payload).value).Done?
    ensures var p, r := OrEmpty(a.payload).value, AssessParsed(e, a, known).value;
      && r.releaseBlocked == Truthy(Get(p, BLOCKED))
      && OwnReasons(e, p, Validate(p).value) == Done(r.reasons)
  {
    hide Validate, AuthorityValid, OwnReasons, UntrustedReasons, EvidenceLevel, LogBinding, ReadProvenance;
  }

  // ---------------------------------------------------------------- what a valid payload states

  predicate StatesWell(v: Inputs) {
    && IsText(v.id) && Among(v.mitigation, MITIGATION_STATES) && Among(v.track, TRACK_STATES)
    && Among(v.route, ROUTE_STATES)
  }

  predicate RouteWell(v: Inputs) {
    && (v.mitigation == JStr("author_provisional") ==>
          IsText(v.owner) && IsText(v.target) && IsText(v.dueDate) && v.route != JStr("not_applicable"))
    && (v.route == JStr("overdue") ==> !Truthy(v.claimsResolved))
  }

  predicate CoverageWell(v: Inputs) {
    Truthy(v.claimUsed) ==>
      Among(v.era, COVERAGE_ERAS)
      && (v.era == JStr("CURRENT") || v.caveat == JStr("not_supported_under_current_coverage"))
  }

  predicate ClosureWell(v: Inputs) {
    && (Truthy(v.closed) ==> v.track == JStr("closure_eligible") || v.track == JStr("closed"))
    && (v.lifecycle == JNull || Among(v.lifecycle, LIFECYCLE_STATES))
  }

  /** A reviewer's manual confirmation, signed and dated. */
  predicate Confirmed(t: Obj) {
    && Get(t, "from_state") == JStr("resolved_provisional") && !Truthy(Get(t, "auto"))
    && (Get(t, "actor") == JStr("reviewer") || Get(t, "actor") == JStr("reviewer_confirmed"))
    && Get(t, "reviewer_confirmation").JObj?
    && IsText(Get(Get(t, "reviewer_confirmation").fields, "reviewer_id"))
    && IsText(Get(Get(t, "reviewer_confirmation").fields, "confirmed_at"))
  }

  predicate ResolutionWell(v: Inputs) {
    && (v.lifecycle == JStr("resolved_provisional") ==>
          && v.transition.JObj? && Get(v.transition.fields, "from_state") == JStr("active")
          && IsText(Get(v.transition.fields, "actor")))
    && (v.lifecycle == JStr("resolved_confirmed") ==> v.transition.JObj? && Confirmed(v.transition.fields))
  }

  predicate WellStated(v: Inputs) {
    StatesWell(v) && RouteWell(v) && CoverageWell(v) && ClosureWell(v) && ResolutionWell(v)
  }

  lemma StatesIff(v: Inputs)
    ensures StateFaults(v) == [] <==> StatesWell(v)
  {
    hide IsText, Among;
  }

  lemma ProvisionalIff(v: Inputs)
    ensures ProvisionalFaults(v) == []
       <==> IsText(v.owner) && IsText(v.target) && IsText(v.dueDate) && v.route != JStr("not_applicable")
  {
    hide IsText, Fault;
  }

  lemma RouteIff(v: Inputs)
    ensures RouteFaults(v) == [] <==> RouteWell(v)
  {
    ProvisionalIff(v);
    hide IsText, Truthy, Fault, ProvisionalFaults;
  }

  lemma EraIff(v: Inputs)
    ensures EraFault(v) == [] <==> Among(v.era, COVERAGE_ERAS)
  {
    hide Among, Fault;
  }

  lemma CaveatIff(v: Inputs)
    ensures CaveatFault(v) == []
       <==> v.era == JStr("CURRENT") || v.caveat == JStr("not_supported_under_current_coverage")
  {
    hide Fault;
  }

  lemma CoverageIff(v: Inputs)
    ensures CoverageFaults(v) == [] <==> CoverageWell(v)
  {
    EraIff(v);
    CaveatIff(v);
    hide Truthy, Among, EraFault, CaveatFault;
  }

  lemma EarlyIff(v: Inputs)
    ensures EarlyFaults(v) == [] <==> StatesWell(v) && RouteWell(v) && CoverageWell(v)
  {
    StatesIff(v);
    RouteIff(v);
    CoverageIff(v);
    hide StateFaults, RouteFaults, CoverageFaults, StatesWell, RouteWell, CoverageWell;
  }

  lemma ClosureIff(v: Inputs)
    requires Among(v.track, TRACK_STATES)
    ensures ClosureFaults(v) == [] <==> ClosureWell(v)
  {
    hide Truthy;
  }

  /** Only an active case resolves, and only a reviewer confirms, by hand, what was resolved. */
  lemma TransitionAllowedIff(from: string, actor: string, auto: bool)
    ensures TransitionErrors(from, "resolved_provisional", actor, auto) == [] <==> from == "active"
    ensures TransitionErrors(from, "resolved_confirmed", actor, auto) == []
       <==> from == "resolved_provisional" && !auto && (actor == "reviewer" || actor == "reviewer_confirmed")
  {
  }

  lemma TextIsString(j: Json)
    ensures IsText(j) ==> j.JStr?
  {
  }

  lemma WordsAreText()
    ensures IsText(JStr("active")) && IsText(JStr("resolved_provisional"))
    ensures IsText(JStr("reviewer")) && IsText(JStr("reviewer_confirmed"))
  {
    StripTrimmed("active");
    StripTrimmed("resolved_provisional");
    StripTrimmed("reviewer");
    StripTrimmed("reviewer_confirmed");
  }

  lemma ConfirmationIff(t: Obj)
    ensures ConfirmationFaults(t) == []
       <==> && Get(t, "reviewer_confirmation").JObj?
            && IsText(Get(Get(t, "reviewer_confirmation").fields, "reviewer_id"))
            && IsText(Get(Get(t, "reviewer_confirmation").fields, "confirmed_at"))
  {
    hide IsText, Get;
  }

  /** Without a fault of the actor the guard decides. */
  lemma GuardIff(state: string, t: Obj)
    requires state == "resolved_provisional" || state == "resolved_confirmed"
    ensures ActorFaults(t) == [] && GuardErrors(state, t, []) == []
       <==> if state == "resolved_confirmed"
            then && Get(t, "from_state") == JStr("resolved_provisional") && !Truthy(Get(t, "auto"))
                 && (Get(t, "actor") == JStr("reviewer") || Get(t, "actor") == JStr("reviewer_confirmed"))
            else Get(t, "from_state") == JStr("active") && IsText(Get(t, "actor"))
  {
    WordsAreText();
    var from, actor := Get(t, "from_state"), Get(t, "actor");
    TextIsString(from);
    TextIsString(actor);
    if from.JStr? && actor.JStr? {
      TransitionAllowedIff(from.s, actor.s, Truthy(Get(t, "auto")));
    }
    hide IsText, Truthy, TransitionErrors, Get;
  }

  lemma TransitionIff(state: string, t: Obj)
    requires state == "resolved_provisional" || state == "resolved_confirmed"
    ensures TransitionFaults(state, t, []) == []
       <==> if state == "resolved_confirmed" then Confirmed(t)
            else Get(t, "from_state") == JStr("active") && IsText(Get(t, "actor"))
  {
    GuardIff(state, t);
    ConfirmationIff(t);
    hide IsText, Truthy, ActorFaults, GuardErrors, ConfirmationFaults, Get, Joined;
  }

  lemma ResolutionIff(v: Inputs)
    ensures ResolutionFaults(v, []) == [] <==> ResolutionWell(v)
  {
    if v.transition.JObj? && Resolved(v.lifecycle) { TransitionIff(v.lifecycle.s, v.transition.fields); }
    hide TransitionFaults, Confirmed, IsText, Get;
  }

  lemma FaultParts(v: Inputs)
    ensures Faults(v) == [] <==> EarlyFaults(v) == [] && ClosureFaults(v) == [] && ResolutionFaults(v, []) == []
  {
    hide EarlyFaults, ClosureFaults, ResolutionFaults;
  }

  /** A payload has no fault exactly when every part of it is well stated. */
  lemma ValidIff(v: Inputs)
    ensures Faults(v) == [] <==> WellStated(v)
  {
    FaultParts(v);
    EarlyIff(v);
    ResolutionIff(v);
    if StatesWell(v) { ClosureIff(v); }
    hide Faults, EarlyFaults, ClosureFaults, ResolutionFaults, StatesWell, RouteWell, CoverageWell, ClosureWell,
      ResolutionWell;
  }

  lemma DefaultBlocked(p: Obj)
    ensures Truthy(Get(WithDefaults(p), BLOCKED)) <==> Truthy(Get(p, BLOCKED))
  {
    assert BLOCKED != REASONS;
  }

  lemma BlocksIsTrue(p: Obj, reason: string)
    requires Blocks(p, reason)
    ensures Truthy(Get(p, BLOCKED))
  {
    hide ReasonListed;
  }

  lemma NormalizedBlocks(p: Obj)
    requires Validate(p).Done?
    ensures REASONS in WithDefaults(p)
    ensures AddBlocks(WithDefaults(p), BlockReasons(InputsOf(p))) == Done(Validate(p).value.normalized)
  {
    StartBlocks(p);
    hide InputsOf, BlockReasons, Faults, Checkable, AddBlocks;
  }

  lemma NoBlocks(p: Obj)
    requires REASONS in p
    ensures AddBlocks(p, []) == Done(p)
  {
  }

  /** A normalised payload blocks the release iff it did before or one of the block rules applies. */
  lemma BlockedIff(p: Obj)
    requires Validate(p).Done?
    ensures Truthy(Get(Validate(p).value.normalized, BLOCKED))
       <==> Truthy(Get(p, BLOCKED)) || exists rule :: RuleApplies(InputsOf(p), rule)
  {
    hide *;
    var reasons := BlockReasons(InputsOf(p));
    NormalizedBlocks(p);
    SomeRuleApplies(InputsOf(p));
    if reasons == [] {
      NoBlocks(WithDefaults(p));
      DefaultBlocked(p);
    } else {
      AddBlocksEffect(WithDefaults(p), reasons);
      assert reasons[0] in reasons;
      BlocksIsTrue(Validate(p).value.normalized, reasons[0]);
    }
  }

  lemma SomeRuleApplies(v: Inputs)
    ensures BlockReasons(v) != [] <==> exists rule :: RuleApplies(v, rule)
  {
    hide RuleApplies, RuleReason;
    RuleReasonsEmpty(v, [Overdue, Coverage, Contamination, Active, Invalidated]);
    forall rule ensures rule in [Overdue, Coverage, Contamination, Active, Invalidated] {
      match rule { case Overdue => case Coverage => case Contamination => case Active => case Invalidated => }
    }
  }

  lemma {:induction false} RuleReasonsEmpty(v: Inputs, rules: seq<BlockRule>)
    ensures RuleReasons(v, rules) == [] <==> forall rule :: rule in rules ==> !RuleApplies(v, rule)
  {
    hide RuleApplies, RuleReason;
    if rules != [] {
      RuleReasonsEmpty(v, rules[1..]);
      assert rules == [rules[0]] + rules[1..];
    }
  }

  /**
   A valid artifact blocks exactly as its stored payload says. That is the block of the
   normalised payload, which a writer reports, exactly when the stored payload blocks or none
   of the five rules applies; a stored list of reasons names every rule that applies all the same.
   */
  lemma ValidBlocksIff(e: Env, a: Artifact, known: Option<set<string>>)
    requires AssessParsed(e, a, known).Done? && AssessParsed(e, a, known).value.authorityValid
    ensures OrEmpty(a.payload).Done? && Validate(OrEmpty(a.payload).value).Done?
    ensures var p, r := OrEmpty(a.payload).value, AssessParsed(e, a, known).value;
      && (r.releaseBlocked <==> Truthy(Get(p, BLOCKED)))
      && ((r.releaseBlocked <==> Truthy(Get(Validate(p).value.normalized, BLOCKED)))
          <==> Truthy(Get(p, BLOCKED)) || forall rule :: !RuleApplies(InputsOf(p), rule))
      && (REASONS in p && p[REASONS].JArr? ==>
            forall rule :: RuleApplies(InputsOf(p), rule) ==> JStr(RuleReason(rule)) in r.reasons)
  {
    hide *;
    ValidBlock(e, a, known);
    var p, r := OrEmpty(a.payload).value, AssessParsed(e, a, known).value;
    BlockedIff(p);
    if REASONS in p && p[REASONS].JArr? {
      forall rule | RuleApplies(InputsOf(p), rule) ensures JStr(RuleReason(rule)) in r.reasons {
        RuleNamed(e, p, rule);
      }
    }
  }

  lemma {:induction false} RuleListed(v: Inputs, rules: seq<BlockRule>, rule: BlockRule)
    requires RuleApplies(v, rule) && rule in rules
    ensures RuleReason(rule) in RuleReasons(v, rules)
  {
    hide RuleApplies, RuleReason;
    if rule != rules[0] {
      assert rules == [rules[0]] + rules[1..];
      RuleListed(v, rules[1..], rule);
    }
  }

  lemma RuleNamed(e: Env, p: Obj, rule: BlockRule)
    requires Validate(p).Done? && RuleApplies(InputsOf(p), rule) && REASONS in p && p[REASONS].JArr?
    ensures OwnReasons(e, p, Validate(p).value).Done?
    ensures JStr(RuleReason(rule)) in OwnReasons(e, p, Validate(p).value).value
  {
    hide *;
    var v, q := InputsOf(p), Validate(p).value.normalized;
    NormalizedBlocks(p);
    NormalizedList(p);
    assert rule in [Overdue, Coverage, Contamination, Active, Invalidated] by {
      match rule { case Overdue => case Coverage => case Contamination => case Active => case Invalidated => }
    }
    RuleListed(v, [Overdue, Coverage, Contamination, Active, Invalidated], rule);
    BlockReasonsAre(v);
    AddBlocksEffect(WithDefaults(p), BlockReasons(v));
    ListedInOwn(e, p, RuleReason(rule));
  }

  lemma BlockReasonsAre(v: Inputs)
    ensures BlockReasons(v) == RuleReasons(v, [Overdue, Coverage, Contamination, Active, Invalidated])
  {
    hide RuleReasons;
  }

  lemma ListedInOwn(e: Env, p: Obj, reason: string)
    requires Validate(p).Done? && REASONS in p && p[REASONS].JArr?
    requires REASONS in Validate(p).value.normalized && Validate(p).value.normalized[REASONS].JArr?
    requires Blocks(Validate(p).value.normalized, reason)
    ensures OwnReasons(e, p, Validate(p).value).Done?
    ensures JStr(reason) in OwnReasons(e, p, Validate(p).value).value
  {
    hide Validate;
  }

  /** A payload that the contamination rule alone blocks. */
  const CONTAMINATED: Obj := map[
    "escalation_id" := JStr("e"), "mitigation_validation_state" := JStr("validated"),
    "governance_track_state" := JStr("closed"), "contamination_status" := JStr("unresolved")]

  lemma ContaminatedInputs()
    ensures InputsOf(CONTAMINATED) == Inputs(
              JStr("e"), JStr("validated"), JStr("closed"), JStr("not_applicable"), JNull, JNull, JNull, JNull, JNull,
              JNull, JNull, JStr("unresolved"), JNull, JNull, JNull)
    ensures Get(CONTAMINATED, REASONS) == JNull == Get(CONTAMINATED, BLOCKED)
    ensures REASONS in WithDefaults(CONTAMINATED) && WithDefaults(CONTAMINATED)[REASONS].JArr?
  {
  }

  lemma ContaminatedWell()
    ensures WellStated(InputsOf(CONTAMINATED)) && Checkable(InputsOf(CONTAMINATED))
    ensures RuleApplies(InputsOf(CONTAMINATED), Contamination)
  {
    ContaminatedInputs();
    StripTrimmed("e");
    hide InputsOf, Strip;
  }

  lemma ContaminatedIsValid()
    ensures Validate(CONTAMINATED).Done? && Validate(CONTAMINATED).value.Ok()
    ensures !Truthy(Get(CONTAMINATED, BLOCKED)) && Listable(Get(CONTAMINATED, REASONS))
    ensures Listable(Get(Validate(CONTAMINATED).value.normalized, REASONS))
    ensures RuleApplies(InputsOf(CONTAMINATED), Contamination)
  {
    ContaminatedInputs();
    ContaminatedWell();
    ValidIff(InputsOf(CONTAMINATED));
    hide InputsOf, WithDefaults, AddBlocks, BlockReasons, RuleApplies, Faults, WellStated, Checkable;
    ListTakesBlocks(WithDefaults(CONTAMINATED), BlockReasons(InputsOf(CONTAMINATED)));
    ListStaysList(WithDefaults(CONTAMINATED), BlockReasons(InputsOf(CONTAMINATED)));
  }

  /**
   Lifting a block goes unnoticed: the artifact built from this payload blocks the release,
   and with the block and its reason taken out of the stored payload it is as valid as before
   and does not.
   */
  lemma LiftedBlockExample(e: Env, at: string, known: Option<set<string>>)
    requires LawfulCodec(e.codec) && Strip(at) != ""
    ensures var built := BuildArtifact(e.codec, CONTAMINATED, at, None);
      && built.Done?
      && AssessArtifact(e, Parsed(built.value), known).Done?
      && AssessArtifact(e, Parsed(built.value), known).value.authorityValid
      && AssessArtifact(e, Parsed(built.value), known).value.releaseBlocked
    ensures Validate(CONTAMINATED).Done?
    ensures var edited := AssessParsed(e, StoredRaw(e.codec, CONTAMINATED, at), known);
      edited.Done? && edited.value.authorityValid && !edited.value.releaseBlocked
  {
    ContaminatedIsValid();
    hide *;
    BuiltThenAssessed(e, CONTAMINATED, at, None, known);
    BlockedIff(CONTAMINATED);
    RawPayloadPasses(e, CONTAMINATED, at, known);
  }

  lemma ValidHasNoFaults(e: Env, a: Artifact, known: Option<set<string>>)
    requires AssessParsed(e, a, known).Done? && AssessParsed(e, a, known).value.authorityValid
    ensures OrEmpty(a.payload).Done? && Faults(InputsOf(OrEmpty(a.payload).value)) == []
    ensures AssessParsed(e, a, known).value.lifecycle == Get(OrEmpty(a.payload).value, "authority_lifecycle_state")
  {
    hide Faults, InputsOf, UntrustedReasons, ReadProvenance, TrustedWriter, LinkageOk, AddBlocks, BlockReasons;
  }

  /**
   Any file assessed valid in state resolved_confirmed records a reviewer's manual
   confirmation, reached from resolved_provisional.
   */
  lemma ConfirmedByReviewer(e: Env, a: Artifact, known: Option<set<string>>)
    requires AssessParsed(e, a, known).Done? && AssessParsed(e, a, known).value.authorityValid
    requires AssessParsed(e, a, known).value.lifecycle == JStr("resolved_confirmed")
    ensures OrEmpty(a.payload).Done? && Get(OrEmpty(a.payload).value, "lifecycle_transition").JObj?
    ensures Confirmed(Get(OrEmpty(a.payload).value, "lifecycle_transition").fields)
  {
    var p := OrEmpty(a.payload).value;
    ValidHasNoFaults(e, a, known);
    ValidIff(InputsOf(p));
    hide AssessParsed, Faults, Confirmed;
    assert InputsOf(p).lifecycle == JStr("resolved_confirmed");
    assert InputsOf(p).transition == Get(p, "lifecycle_transition");
  }
}
