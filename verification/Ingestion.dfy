/**
 The ingestion contract of `enumd_ingestion_contract.py` and the semantic analysis of
 `enumd_semantic_isolation.py` it is meant to change. Main results: the contract removes
 exactly `policy.decision` from what the analysis finds in each candidate, so no batch
 concludes a collision afterwards and the downgrade is achieved exactly when it did before;
 masks commute, remove exactly the fields under their paths, and never raise a conclusion;
 and exactly which masks change whether the analysis raises.
 */
module Ingestion {
  import opened Text
  import opened Json

  type Path = p: seq<string> | p != [] witness ["policy"]

  // ---------------------------------------------------------------- the registry

  datatype Risk = High | Medium | Low

  datatype Field = PolicyDecision | RepoReadinessLevel | CloseoutSchemaValidity | CloseoutContentSufficiency
                 | RepoCloseoutActivationState

  const REGISTRY := [PolicyDecision, RepoReadinessLevel, CloseoutSchemaValidity, CloseoutContentSufficiency,
                     RepoCloseoutActivationState]

  function PathOf(f: Field): Path {
    match f
    case PolicyDecision => ["policy", "decision"]
    case RepoReadinessLevel => ["checks", "repo_readiness_level"]
    case CloseoutSchemaValidity => ["checks", "closeout_schema_validity"]
    case CloseoutContentSufficiency => ["checks", "closeout_content_sufficiency"]
    case RepoCloseoutActivationState => ["checks", "repo_closeout_activation_state"]
  }

  function RiskOf(f: Field): Risk {
    match f
    case PolicyDecision => High
    case RepoReadinessLevel => Medium
    case CloseoutSchemaValidity => Medium
    case CloseoutContentSufficiency => Low
    case RepoCloseoutActivationState => Low
  }

  // ---------------------------------------------------------------- reading a path

  function Lookup(cur: Json, path: seq<string>): Option<Json> {
    if path == [] then Some(cur)
    else if !cur.JObj? || path[0] !in cur.fields then None
    else Lookup(cur.fields[path[0]], path[1..])
  }

  /** `_get_nested`. */
  method GetNested(data: Obj, parts: seq<string>) returns (r: Option<Json>)
    ensures r == Lookup(JObj(data), parts)
  {
    var cur := JObj(data);
    for i := 0 to |parts|
      invariant Lookup(JObj(data), parts) == Lookup(cur, parts[i..])
    {
      assert parts[i..][1..] == parts[i + 1..];
      if !cur.JObj? || parts[i] !in cur.fields {
        return None;
      }
      cur := cur.fields[parts[i]];
    }
    return Some(cur);
  }

  /** A path counts when it exists and does not hold null. */
  predicate Present(o: Obj, path: Path) {
    Lookup(JObj(o), path).Some? && Lookup(JObj(o), path).value != JNull
  }

  // ---------------------------------------------------------------- analysing candidates

  function Found(o: Obj, registry: seq<Field>): seq<Field> {
    if registry == [] then []
    else (if Present(o, PathOf(registry[0])) then [registry[0]] else []) + Found(o, registry[1..])
  }

  /** The authority-like fields of a candidate, in registry order. */
  function AuthorityFields(o: Obj): seq<Field> {
    Found(o, REGISTRY)
  }

  predicate HasHigh(fields: seq<Field>) {
    exists i :: 0 <= i < |fields| && RiskOf(fields[i]) == High
  }

  function InducementRisk(fields: seq<Field>): Risk {
    if HasHigh(fields) then High else if fields != [] then Medium else Low
  }

  lemma FoundStep(o: Obj, registry: seq<Field>, i: nat)
    requires i < |registry|
    ensures Found(o, registry[i..])
         == (if Present(o, PathOf(registry[i])) then [registry[i]] else []) + Found(o, registry[i + 1..])
  {
    hide Present, PathOf;
    assert registry[i..][1..] == registry[i + 1..];
  }

  method FindFields(candidate: Obj, registry: seq<Field>) returns (fields: seq<Field>)
    ensures fields == Found(candidate, registry)
  {
    fields := [];
    assert registry[0..] == registry;
    for i := 0 to |registry|
      invariant fields + Found(candidate, registry[i..]) == Found(candidate, registry)
    {
      hide PathOf, Found, Lookup;
      FoundStep(candidate, registry, i);
      var value := GetNested(candidate, PathOf(registry[i]));
      if value.None? || value.value == JNull {
        assert [] + Found(candidate, registry[i + 1..]) == Found(candidate, registry[i + 1..]);
        continue;
      }
      Associative(fields, [registry[i]], Found(candidate, registry[i + 1..]));
      fields := fields + [registry[i]];
    }
    assert registry[|registry|..] == [] && fields + [] == fields;
  }

  /** The order of an object's keys, and whether the lower-cased text of an error names a boundary failure. */
  datatype Host = Host(keyOrder: Obj -> seq<string>, mentions: Json -> bool)

  /** Values that have a length. */
  predicate Sized(j: Json) {
    j.JStr? || j.JArr? || j.JObj?
  }

  const LAYERS := "closeout_per_layer_results"
  const MISSING := "missing_fields"

  /** The missing fields a candidate reports; raises where a block on the way has another shape. */
  function MissingFields(c: Obj): Outcome<Json> {
    var checks := OrEmpty(Get(c, "checks"));
    if checks.Raised? then Raised
    else
      var layers := if LAYERS in checks.value then checks.value[LAYERS] else JObj(map[]);
      if !layers.JObj? then Raised
      else
        var missing := if MISSING in layers.fields then layers.fields[MISSING] else JArr([]);
        if Sized(missing) then Done(missing) else Raised
  }

  /** `_classify_ingestion_valid`. */
  function IngestionValid(c: Obj): Outcome<bool> {
    var missing, errors := MissingFields(c), Get(c, "errors");
    if missing.Raised? then Raised
    else if Truthy(missing.value) then Done(false)
    else if Truthy(errors) && !Sized(errors) then Raised
    else Done(!Truthy(errors))
  }

  predicate ReportsBoundary(h: Host, error: Json) {
    (error.JObj? || error.JStr?) && h.mentions(error)
  }

  /** `_classify_boundary_status`. */
  function BoundaryFails(h: Host, c: Obj): Outcome<bool> {
    var errors := ListOf(Get(c, "errors"), h.keyOrder);
    if errors.Raised? then Raised
    else Done(exists i :: 0 <= i < |errors.value| && ReportsBoundary(h, errors.value[i]))
  }

  datatype Analysis = Analysis(ingestionValid: bool, boundaryFails: bool, fields: seq<Field>, risk: Risk)

  /** `analyze_candidate`, or that it raises. */
  function Analyze(h: Host, c: Obj): Outcome<Analysis> {
    var valid, fails := IngestionValid(c), BoundaryFails(h, c);
    if valid.Raised? || fails.Raised? then Raised
    else Done(Analysis(valid.value, fails.value, AuthorityFields(c), InducementRisk(AuthorityFields(c))))
  }

  method ClassifyBoundaryStatus(h: Host, c: Obj) returns (r: Outcome<bool>)
    ensures r == BoundaryFails(h, c)
  {
    var errors := ListOf(Get(c, "errors"), h.keyOrder);
    if errors.Raised? {
      return Raised;
    }
    for i := 0 to |errors.value|
      invariant forall j :: 0 <= j < i ==> !ReportsBoundary(h, errors.value[j])
    {
      var error := errors.value[i];
      if error.JObj? && h.mentions(error) {
        return Done(true);
      }
      if error.JStr? && h.mentions(error) {
        return Done(true);
      }
    }
    return Done(false);
  }

  method AnalyzeCandidate(h: Host, candidate: Obj) returns (r: Outcome<Analysis>)
    ensures r == Analyze(h, candidate)
  {
    hide IngestionValid, BoundaryFails;
    var valid := IngestionValid(candidate);
    if valid.Raised? {
      return Raised;
    }
    var fails := ClassifyBoundaryStatus(h, candidate);
    if fails.Raised? {
      return Raised;
    }
    var fields := FindFields(candidate, REGISTRY);
    var risk := if HasHigh(fields) then High else if |fields| > 0 then Medium else Low;
    return Done(Analysis(valid.value, fails.value, fields, risk));
  }

  datatype Conclusion = Safe | InducementRiskFound | SemanticCollision

  function Rank(c: Conclusion): nat {
    match c case Safe => 0 case InducementRiskFound => 1 case SemanticCollision => 2
  }

  function HighHits(samples: seq<seq<Field>>): nat {
    if samples == [] then 0 else (if HasHigh(samples[0]) then 1 else 0) + HighHits(samples[1..])
  }

  function AnyHits(samples: seq<seq<Field>>): nat {
    if samples == [] then 0 else (if samples[0] != [] then 1 else 0) + AnyHits(samples[1..])
  }

  /** Collision from half of the batch on. */
  function Conclude(samples: seq<seq<Field>>): Conclusion {
    if samples == [] then Safe
    else if 2 * HighHits(samples) >= |samples| then SemanticCollision
    else if AnyHits(samples) > 0 then InducementRiskFound
    else Safe
  }

  method ClassifyBatch(samples: seq<seq<Field>>) returns (c: Conclusion)
    ensures c == Conclude(samples)
  {
    if samples == [] {
      return Safe;
    }
    var high, any := 0, 0;
    for i := 0 to |samples|
      invariant high + HighHits(samples[i..]) == HighHits(samples)
      invariant any + AnyHits(samples[i..]) == AnyHits(samples)
    {
      assert samples[i..][1..] == samples[i + 1..];
      if HasHigh(samples[i]) { high := high + 1; }
      if samples[i] != [] { any := any + 1; }
    }
    assert samples[|samples|..] == [];
    if 2 * high >= |samples| {
      return SemanticCollision;
    }
    return if any > 0 then InducementRiskFound else Safe;
  }

  // ---------------------------------------------------------------- the contract

  datatype Reinterpretation = Reinterpretation(raw: string, safeLabel: Option<string>, mitigated: bool)

  /** The known decisions; anything else is left without a label. */
  function Reinterpret(raw: string): Reinterpretation {
    if raw == "DO_NOT_PROMOTE" then Reinterpretation(raw, Some("memory_promotion_disallowed"), true)
    else if raw == "PROMOTE" then Reinterpretation(raw, Some("memory_promotion_allowed"), true)
    else if raw == "DEFER" then Reinterpretation(raw, Some("memory_promotion_deferred"), true)
    else Reinterpretation(raw, None, false)
  }

  function ReinterpretationJson(r: Reinterpretation): Json {
    JObj(map[
      "raw_value" := JStr(r.raw),
      "actual_scope" := if r.mitigated then JStr("session_memory_promotion") else JNull,
      "consumer_safe_label" := if r.safeLabel.Some? then JStr(r.safeLabel.value) else JNull,
      "non_equivalence" := if r.mitigated
        then JArr([JStr("not_repo_governance_promotion"), JStr("not_integration_readiness_verdict")]) else JArr([]),
      "semantic_collision_mitigated" := JBool(r.mitigated),
      "reinterpretation_status" := JStr(if r.mitigated then "applied" else "unknown_value")])
  }

  /** What the contract reports about one candidate. */
  datatype Meta = Meta(complete: bool, failed: Option<Json>)

  function MetaJson(m: Meta, at: string): Json {
    JObj(map[
      "version" := JStr("1.0"), "applied_at" := JStr(at),
      "reinterpretations_applied" := JArr(if m.complete then [JStr("policy.decision")] else []),
      "reinterpretation_failures" := JArr(if m.failed.Some? then [m.failed.value] else []),
      "collision_mitigation_complete" := JBool(m.complete)])
  }

  const PROVENANCE_NOTE :=
    "Raw policy fields demoted to provenance by ingestion contract. "
    + "Use policy_decision_reinterpreted for semantic access."

  /** `str(value)`; `text` gives it for values that are no strings. */
  function PyStr(j: Json, text: Json -> string): string {
    if j.JStr? then j.s else text(j)
  }

  function DemotedPolicy(policy: Obj): Json {
    JObj(map["_raw_provenance" := JObj(policy), "_provenance_note" := JStr(PROVENANCE_NOTE)])
  }

  /** `apply_ingestion_contract`; it raises on a policy that is neither empty nor an object. */
  function Apply(c: Obj, at: string, text: Json -> string): Outcome<(Obj, Meta)> {
    var policy := OrEmpty(Get(c, "policy"));
    if policy.Raised? then Raised
    else
      var raw := Get(policy.value, "decision");
      if raw == JNull then
        var meta := Meta(false, None);
        Done((c["ingestion_contract" := MetaJson(meta, at)], meta))
      else
        var r := Reinterpret(PyStr(raw, text));
        var meta := if r.mitigated then Meta(true, None)
                    else Meta(false, Some(JObj(map["field" := JStr("policy.decision"), "raw_value" := raw,
                                                   "status" := JStr("unknown_value")])));
        Done((c["policy_decision_reinterpreted" := ReinterpretationJson(r)]
               ["policy" := DemotedPolicy(policy.value)]
               ["ingestion_contract" := MetaJson(meta, at)], meta))
  }

  function ApplyAll(batch: seq<Obj>, at: string, text: Json -> string): Outcome<seq<(Obj, Meta)>> {
    if batch == [] then Done([])
    else
      var first, rest := Apply(batch[0], at, text), ApplyAll(batch[1..], at, text);
      if first.Raised? || rest.Raised? then Raised else Done([first.value] + rest.value)
  }

  function SamplesOf(batch: seq<Obj>): seq<seq<Field>> {
    if batch == [] then [] else [AuthorityFields(batch[0])] + SamplesOf(batch[1..])
  }

  function Candidates(applied: seq<(Obj, Meta)>): seq<Obj> {
    if applied == [] then [] else [applied[0].0] + Candidates(applied[1..])
  }

  function CompleteCount(applied: seq<(Obj, Meta)>): nat {
    if applied == [] then 0 else (if applied[0].1.complete then 1 else 0) + CompleteCount(applied[1..])
  }

  function FailureCount(applied: seq<(Obj, Meta)>): nat {
    if applied == [] then 0 else (if applied[0].1.failed.Some? then 1 else 0) + FailureCount(applied[1..])
  }

  /** One sample of the report: the risk before and after, and what the contract did. */
  datatype Row = Row(before: Risk, after: Risk, meta: Meta)

  function RowsOf(batch: seq<Obj>, applied: seq<(Obj, Meta)>): seq<Row> {
    if batch == [] || applied == [] then []
    else
      [Row(InducementRisk(AuthorityFields(batch[0])), InducementRisk(AuthorityFields(applied[0].0)), applied[0].1)]
      + RowsOf(batch[1..], applied[1..])
  }

  datatype ProbeReport = ProbeReport(before: Conclusion, after: Conclusion, downgradeAchieved: bool, mitigated: nat,
                                     failures: nat, rows: seq<Row>)

  predicate AllAnalysed(h: Host, batch: seq<Obj>) {
    forall i :: 0 <= i < |batch| ==> Analyze(h, batch[i]).Done?
  }

  function ReportOf(batch: seq<Obj>, applied: seq<(Obj, Meta)>): ProbeReport {
    var before, after := Conclude(SamplesOf(batch)), Conclude(SamplesOf(Candidates(applied)));
    ProbeReport(before, after, before == SemanticCollision && after != SemanticCollision,
                CompleteCount(applied), FailureCount(applied), RowsOf(batch, applied))
  }

  /** `run_ingestion_contract_probe` on the candidates that parsed. */
  function Probe(h: Host, batch: seq<Obj>, at: string, text: Json -> string): Outcome<ProbeReport> {
    var applied := ApplyAll(batch, at, text);
    if applied.Raised? || !AllAnalysed(h, batch) then Raised else Done(ReportOf(batch, applied.value))
  }

  /** The contract changes neither checks nor errors, so a candidate stays as valid as it was. */
  lemma ContractKeepsStanding(h: Host, c: Obj, at: string, text: Json -> string)
    requires Apply(c, at, text).Done?
    ensures IngestionValid(Apply(c, at, text).value.0) == IngestionValid(c)
    ensures BoundaryFails(h, Apply(c, at, text).value.0) == BoundaryFails(h, c)
    ensures Analyze(h, Apply(c, at, text).value.0).Done? <==> Analyze(h, c).Done?
  {
    KeptKeys(c, at, text);
    StandingOf(h, c, Apply(c, at, text).value.0);
  }

  /** Validity and boundary status are read from checks and errors alone. */
  lemma StandingOf(h: Host, c: Obj, d: Obj)
    requires Get(d, "checks") == Get(c, "checks") && Get(d, "errors") == Get(c, "errors")
    ensures IngestionValid(d) == IngestionValid(c) && BoundaryFails(h, d) == BoundaryFails(h, c)
    ensures Analyze(h, d).Done? <==> Analyze(h, c).Done?
  {
    assert MissingFields(d) == MissingFields(c) by { hide OrEmpty, Get, Sized; }
    hide MissingFields, ListOf, OrEmpty, Get, AuthorityFields, InducementRisk, Truthy, Sized;
  }

  lemma KeptKeys(c: Obj, at: string, text: Json -> string)
    requires Apply(c, at, text).Done?
    ensures var after := Apply(c, at, text).value.0;
      Get(after, "checks") == Get(c, "checks") && Get(after, "errors") == Get(c, "errors")
  {
    hide ReinterpretationJson, MetaJson, Reinterpret, PyStr, DemotedPolicy;
  }

  /** What the loop has gathered from some candidates. */
  datatype Gathered = Gathered(before: seq<seq<Field>>, after: seq<seq<Field>>, mitigated: nat, failures: nat,
                               rows: seq<Row>)

  function Gather(batch: seq<Obj>, applied: seq<(Obj, Meta)>): Gathered {
    Gathered(SamplesOf(batch), SamplesOf(Candidates(applied)), CompleteCount(applied), FailureCount(applied),
             RowsOf(batch, applied))
  }

  function Joined(a: Gathered, b: Gathered): Gathered {
    Gathered(a.before + b.before, a.after + b.after, a.mitigated + b.mitigated, a.failures + b.failures,
             a.rows + b.rows)
  }

  function Single(c: Obj, at: string, text: Json -> string): Gathered
    requires Apply(c, at, text).Done?
  {
    var after, meta := Apply(c, at, text).value.0, Apply(c, at, text).value.1;
    Gathered([AuthorityFields(c)], [AuthorityFields(after)],
             if meta.complete then 1 else 0, if meta.failed.Some? then 1 else 0,
             [Row(InducementRisk(AuthorityFields(c)), InducementRisk(AuthorityFields(after)), meta)])
  }

  lemma JoinedAssociative(a: Gathered, b: Gathered, c: Gathered)
    ensures Joined(Joined(a, b), c) == Joined(a, Joined(b, c))
  {
  }

  lemma JoinedEmpty(a: Gathered)
    ensures Joined(a, Gathered([], [], 0, 0, [])) == a && Joined(Gathered([], [], 0, 0, []), a) == a
  {
  }

  lemma ProbeStep(batch: seq<Obj>, i: nat, at: string, text: Json -> string)
    requires i < |batch|
    ensures ApplyAll(batch[i..], at, text).Raised?
       <==> Apply(batch[i], at, text).Raised? || ApplyAll(batch[i + 1..], at, text).Raised?
    ensures ApplyAll(batch[i..], at, text).Done? ==>
              Gather(batch[i..], ApplyAll(batch[i..], at, text).value)
              == Joined(Single(batch[i], at, text), Gather(batch[i + 1..], ApplyAll(batch[i + 1..], at, text).value))
  {
    hide Apply, AuthorityFields, InducementRisk;
    assert batch[i..][1..] == batch[i + 1..];
    if ApplyAll(batch[i..], at, text).Done? {
      var rest := ApplyAll(batch[i + 1..], at, text).value;
      var all := ApplyAll(batch[i..], at, text).value;
      assert all[1..] == rest;
      assert Candidates(all)[1..] == Candidates(rest);
    }
  }

  lemma AnalysisParts(h: Host, c: Obj)
    requires Analyze(h, c).Done?
    ensures Analyze(h, c).value.fields == AuthorityFields(c)
    ensures Analyze(h, c).value.risk == InducementRisk(AuthorityFields(c))
  {
    hide IngestionValid, BoundaryFails, AuthorityFields, InducementRisk;
  }

  lemma JoinedSingle(seen: Gathered, c: Obj, at: string, text: Json -> string)
    requires Apply(c, at, text).Done?
    ensures var after, meta := Apply(c, at, text).value.0, Apply(c, at, text).value.1;
      Joined(seen, Single(c, at, text))
      == Gathered(seen.before + [AuthorityFields(c)], seen.after + [AuthorityFields(after)],
                  if meta.complete then seen.mitigated + 1 else seen.mitigated,
                  if meta.failed.Some? then seen.failures + 1 else seen.failures,
                  seen.rows + [Row(InducementRisk(AuthorityFields(c)), InducementRisk(AuthorityFields(after)), meta)])
  {
    hide Apply, AuthorityFields, InducementRisk;
  }

  lemma NothingGathered(at: string, text: Json -> string)
    ensures ApplyAll([], at, text) == Done([]) && Gather([], []) == Gathered([], [], 0, 0, [])
  {
  }

  lemma ReportIs(batch: seq<Obj>, applied: seq<(Obj, Meta)>)
    ensures var g := Gather(batch, applied);
      ReportOf(batch, applied)
      == ProbeReport(Conclude(g.before), Conclude(g.after),
                     Conclude(g.before) == SemanticCollision && Conclude(g.after) != SemanticCollision,
                     g.mitigated, g.failures, g.rows)
  {
    hide Conclude;
  }

  /** The probe's loop over the batch. */
  method RunProbe(h: Host, batch: seq<Obj>, at: string, text: Json -> string) returns (r: Outcome<ProbeReport>)
    ensures r == Probe(h, batch, at, text)
  {
    hide Apply, Conclude, Analyze, Gather, Joined, AuthorityFields, InducementRisk, ApplyAll;
    var before, after: seq<seq<Field>> := [], [];
    var mitigated, failures := 0, 0;
    var rows: seq<Row> := [];
    ghost var all := ApplyAll(batch, at, text);
    ghost var seen := Gathered([], [], 0, 0, []);
    assert batch[0..] == batch;
    if all.Done? { JoinedEmpty(Gather(batch, all.value)); }
    for i := 0 to |batch|
      invariant seen == Gathered(before, after, mitigated, failures, rows)
      invariant AllAnalysed(h, batch[..i])
      invariant ApplyAll(batch[i..], at, text).Raised? <==> all.Raised?
      invariant all.Done? ==>
                  Joined(seen, Gather(batch[i..], ApplyAll(batch[i..], at, text).value)) == Gather(batch, all.value)
    {
      ProbeStep(batch, i, at, text);
      var first := AnalyzeCandidate(h, batch[i]);
      if first.Raised? {
        return Raised;
      }
      var applied := Apply(batch[i], at, text);
      if applied.Raised? {
        return Raised;
      }
      ContractKeepsStanding(h, batch[i], at, text);
      var second := AnalyzeCandidate(h, applied.value.0);
      ghost var one := Single(batch[i], at, text);
      AnalysisParts(h, batch[i]);
      AnalysisParts(h, applied.value.0);
      var row := Row(first.value.risk, second.value.risk, applied.value.1);
      if all.Done? { JoinedAssociative(seen, one, Gather(batch[i + 1..], ApplyAll(batch[i + 1..], at, text).value)); }
      JoinedSingle(seen, batch[i], at, text);
      seen := Joined(seen, one);
      before, after, rows := before + [first.value.fields], after + [second.value.fields], rows + [row];
      if applied.value.1.complete {
        mitigated := mitigated + 1;
      }
      if applied.value.1.failed.Some? {
        failures := failures + 1;
      }
      assert batch[..i + 1] == batch[..i] + [batch[i]];
    }
    assert batch[|batch|..] == [] && batch[..|batch|] == batch;
    NothingGathered(at, text);
    JoinedEmpty(seen);
    if all.Done? { ReportIs(batch, all.value); }
    var conclusionBefore := ClassifyBatch(before);
    var conclusionAfter := ClassifyBatch(after);
    return Done(ProbeReport(conclusionBefore, conclusionAfter,
      conclusionBefore == SemanticCollision && (conclusionAfter == Safe || conclusionAfter == InducementRiskFound),
      mitigated, failures, rows));
  }

  // ---------------------------------------------------------------- what the contract removes

  function Without(fields: seq<Field>, f: Field): seq<Field> {
    if fields == [] then []
    else (if fields[0] == f then [] else [fields[0]]) + Without(fields[1..], f)
  }

  lemma KeyPresent(o: Obj, a: string, b: string)
    ensures Present(o, [a, b]) <==>
      a in o && o[a].JObj? && b in o[a].fields && o[a].fields[b] != JNull
  {
    hide Present;
    assert [a, b][1..] == [b];
    PresentStep(o, [a, b]);
    if a in o && o[a].JObj? {
      PresentStep(o[a].fields, [b]);
    }
  }

  lemma PolicyAfter(c: Obj, at: string, text: Json -> string)
    requires Apply(c, at, text).Done?
    ensures var after := Apply(c, at, text).value.0;
      "policy" in after && after["policy"].JObj? && "decision" in after["policy"].fields ==>
        after["policy"].fields["decision"] == JNull
  {
    hide ReinterpretationJson, MetaJson, Reinterpret, PyStr;
    assert "decision" !in DemotedPolicy(OrEmpty(Get(c, "policy")).value).fields;
  }

  lemma ChecksAfter(c: Obj, at: string, text: Json -> string)
    requires Apply(c, at, text).Done?
    ensures var after := Apply(c, at, text).value.0;
      ("checks" in after <==> "checks" in c) && ("checks" in c ==> after["checks"] == c["checks"])
  {
    hide ReinterpretationJson, MetaJson, Reinterpret, PyStr, DemotedPolicy;
  }

  /** The contract hides `policy.decision` and leaves every other registered field as it was. */
  lemma ContractFields(c: Obj, at: string, text: Json -> string, f: Field)
    requires Apply(c, at, text).Done?
    ensures Present(Apply(c, at, text).value.0, PathOf(f)) <==> f != PolicyDecision && Present(c, PathOf(f))
  {
    PolicyAfter(c, at, text);
    ChecksAfter(c, at, text);
    hide Apply;
    var path := PathOf(f);
    KeyPresent(c, path[0], path[1]);
    KeyPresent(Apply(c, at, text).value.0, path[0], path[1]);
    assert path == [path[0], path[1]];
  }

  lemma {:induction false} FoundWithout(c: Obj, after: Obj, registry: seq<Field>)
    requires forall f :: Present(after, PathOf(f)) <==> f != PolicyDecision && Present(c, PathOf(f))
    ensures Found(after, registry) == Without(Found(c, registry), PolicyDecision)
  {
    hide Present, PathOf;
    if registry != [] {
      FoundWithout(c, after, registry[1..]);
      var rest := Found(c, registry[1..]);
      if Present(c, PathOf(registry[0])) {
        assert ([registry[0]] + rest)[1..] == rest;
      } else {
        assert [] + rest == rest;
      }
    }
  }

  /** The contract removes exactly `policy.decision` from a candidate's authority-like fields. */
  lemma ContractRemovesDecision(c: Obj, at: string, text: Json -> string)
    requires Apply(c, at, text).Done?
    ensures AuthorityFields(Apply(c, at, text).value.0) == Without(AuthorityFields(c), PolicyDecision)
  {
    hide Apply, PathOf, Present;
    forall f ensures Present(Apply(c, at, text).value.0, PathOf(f)) <==> f != PolicyDecision && Present(c, PathOf(f)) {
      ContractFields(c, at, text, f);
    }
    FoundWithout(c, Apply(c, at, text).value.0, REGISTRY);
  }

  lemma {:induction false} WithoutHigh(fields: seq<Field>)
    ensures !HasHigh(Without(fields, PolicyDecision))
  {
    if fields != [] {
      WithoutHigh(fields[1..]);
    }
  }

  lemma {:induction false} NoHighHits(samples: seq<seq<Field>>)
    requires forall i :: 0 <= i < |samples| ==> !HasHigh(samples[i])
    ensures HighHits(samples) == 0
  {
    hide HasHigh;
    if samples != [] {
      NoHighHits(samples[1..]);
    }
  }

  lemma {:induction false} AppliedSamples(batch: seq<Obj>, at: string, text: Json -> string)
    requires ApplyAll(batch, at, text).Done?
    ensures |SamplesOf(Candidates(ApplyAll(batch, at, text).value))| == |batch|
    ensures forall i :: 0 <= i < |batch| ==> !HasHigh(SamplesOf(Candidates(ApplyAll(batch, at, text).value))[i])
  {
    hide Apply, AuthorityFields, HasHigh;
    if batch != [] {
      var all, rest := ApplyAll(batch, at, text).value, ApplyAll(batch[1..], at, text).value;
      assert all[1..] == rest && all[0] == Apply(batch[0], at, text).value;
      assert Candidates(all)[1..] == Candidates(rest);
      AppliedSamples(batch[1..], at, text);
      ContractRemovesDecision(batch[0], at, text);
      WithoutHigh(AuthorityFields(batch[0]));
      hide Candidates, ApplyAll;
    }
  }

  /**
   After the contract no batch concludes a semantic collision, so the downgrade is achieved
   exactly when the batch concluded one before.
   */
  lemma DowngradeIff(h: Host, batch: seq<Obj>, at: string, text: Json -> string)
    requires Probe(h, batch, at, text).Done?
    ensures Probe(h, batch, at, text).value.after != SemanticCollision
    ensures Probe(h, batch, at, text).value.downgradeAchieved <==> Conclude(SamplesOf(batch)) == SemanticCollision
  {
    hide HasHigh, ApplyAll, Candidates, Analyze, RowsOf, CompleteCount, FailureCount;
    AppliedSamples(batch, at, text);
    NoHighHits(SamplesOf(Candidates(ApplyAll(batch, at, text).value)));
  }

  lemma ApplyOne(c: Obj, at: string, text: Json -> string)
    requires Apply(c, at, text).Done?
    ensures ApplyAll([c], at, text) == Done([Apply(c, at, text).value])
    ensures CompleteCount([Apply(c, at, text).value]) == if Apply(c, at, text).value.1.complete then 1 else 0
  {
    hide Apply;
    assert [c][1..] == [];
    var first := Apply(c, at, text).value;
    assert [first] + [] == [first];
    assert [first][1..] == [];
  }

  /** The downgrade says nothing about mitigation: an unknown decision is hidden all the same. */
  lemma DowngradeWithoutMitigation(h: Host, c: Obj, at: string, text: Json -> string)
    requires c == map["policy" := JObj(map["decision" := JStr("X")])]
    ensures Probe(h, [c], at, text).Done?
    ensures Probe(h, [c], at, text).value.downgradeAchieved && Probe(h, [c], at, text).value.mitigated == 0
  {
    UnknownDecision(c, at, text);
    PlainCandidate(h, c);
    KeyPresent(c, "policy", "decision");
    OneSampleCollides(c);
    hide Apply, AuthorityFields, Conclude, ApplyAll, CompleteCount, FailureCount, RowsOf, SamplesOf, Candidates,
      Analyze;
    ApplyOne(c, at, text);
    DowngradeIff(h, [c], at, text);
  }

  lemma PlainCandidate(h: Host, c: Obj)
    requires "checks" !in c && "errors" !in c
    ensures Analyze(h, c) == Done(Analysis(true, false, AuthorityFields(c), InducementRisk(AuthorityFields(c))))
  {
    hide AuthorityFields, InducementRisk;
    assert OrEmpty(JNull) == Done(map[]) && ListOf(JNull, h.keyOrder) == Done([]);
  }

  lemma DecisionReported(c: Obj, at: string, text: Json -> string)
    requires Apply(c, at, text).Done?
    ensures var meta := Apply(c, at, text).value.1;
      && !(meta.complete && meta.failed.Some?)
      && (meta.complete || meta.failed.Some? <==> HasHigh(AuthorityFields(c)))
  {
    FoundMembers(c, REGISTRY);
    KeyPresent(c, "policy", "decision");
    DecisionMeta(c, at, text);
    hide Apply, Present;
    var fields := AuthorityFields(c);
    assert PathOf(PolicyDecision) == ["policy", "decision"];
    if HasHigh(fields) {
      var i :| 0 <= i < |fields| && RiskOf(fields[i]) == Risk.High;
      assert fields[i] in fields && fields[i] == PolicyDecision;
    }
    if PolicyDecision in fields {
      var i :| 0 <= i < |fields| && fields[i] == PolicyDecision;
    }
    assert PolicyDecision in REGISTRY by { assert REGISTRY[0] == PolicyDecision; }
  }

  lemma DecisionMeta(c: Obj, at: string, text: Json -> string)
    requires Apply(c, at, text).Done?
    ensures var meta := Apply(c, at, text).value.1;
      && !(meta.complete && meta.failed.Some?)
      && (meta.complete || meta.failed.Some? <==>
            "policy" in c && c["policy"].JObj? && "decision" in c["policy"].fields
                && c["policy"].fields["decision"] != JNull)
  {
    hide MetaJson, ReinterpretationJson, DemotedPolicy, Reinterpret, PyStr;
  }

  /**
   Every decision is either mitigated or reported as a failure: the two counts add up to the
   candidates on which the analysis found a decision before.
   */
  lemma {:induction false} DecisionsAccounted(batch: seq<Obj>, at: string, text: Json -> string)
    requires ApplyAll(batch, at, text).Done?
    ensures CompleteCount(ApplyAll(batch, at, text).value) + FailureCount(ApplyAll(batch, at, text).value)
         == HighHits(SamplesOf(batch))
  {
    hide Apply, AuthorityFields, HasHigh;
    if batch != [] {
      var all, rest := ApplyAll(batch, at, text).value, ApplyAll(batch[1..], at, text).value;
      assert all[1..] == rest && all[0] == Apply(batch[0], at, text).value;
      DecisionReported(batch[0], at, text);
      DecisionsAccounted(batch[1..], at, text);
    }
  }

  lemma UnknownDecision(c: Obj, at: string, text: Json -> string)
    requires c == map["policy" := JObj(map["decision" := JStr("X")])]
    ensures Apply(c, at, text).Done? && !Apply(c, at, text).value.1.complete
  {
    hide MetaJson, ReinterpretationJson, DemotedPolicy;
    assert Get(c, "policy") == JObj(map["decision" := JStr("X")]);
  }

  lemma OneSampleCollides(c: Obj)
    requires Present(c, PathOf(PolicyDecision))
    ensures Conclude(SamplesOf([c])) == SemanticCollision
  {
    hide Present, PathOf;
    assert [c][1..] == [];
    var fields := AuthorityFields(c);
    assert REGISTRY[0] == PolicyDecision && fields[0] == PolicyDecision;
    assert HasHigh(fields);
    var rest: seq<seq<Field>> := [fields][1..];
    assert rest == [];
  }

  // ---------------------------------------------------------------- masks

  /** `_mask_field`: the field at the path becomes null, if its parents are objects. */
  function Mask(o: Obj, path: Path): Obj
    decreases |path|
  {
    if |path| == 1 then o[path[0] := JNull]
    else if path[0] in o && o[path[0]].JObj? then o[path[0] := JObj(Mask(o[path[0]].fields, path[1..]))]
    else o
  }

  lemma PresentStep(o: Obj, path: Path)
    ensures |path| == 1 ==> (Present(o, path) <==> path[0] in o && o[path[0]] != JNull)
    ensures |path| > 1 ==>
              (Present(o, path) <==> path[0] in o && o[path[0]].JObj? && Present(o[path[0]].fields, path[1..]))
  {
    if path[0] in o {
      assert Lookup(JObj(o), path) == Lookup(o[path[0]], path[1..]);
    }
  }

  /** After a mask exactly the paths that do not run through the masked one are as present as before. */
  lemma {:induction false} MaskedPresence(o: Obj, path: Path, at: Path)
    ensures Present(Mask(o, path), at) <==> Present(o, at) && !(path <= at)
    decreases |path|
  {
    hide Present;
    PresentStep(o, at);
    PresentStep(Mask(o, path), at);
    if path[0] == at[0] && |path| > 1 && |at| > 1 && path[0] in o && o[path[0]].JObj? {
      MaskedPresence(o[path[0]].fields, path[1..], at[1..]);
      assert path <= at <==> path[1..] <= at[1..] by {
        assert path == [path[0]] + path[1..] && at == [at[0]] + at[1..];
      }
    }
    if |at| == 1 && |path| > 1 {
      assert !(path <= at);
    }
    if |path| == 1 && path[0] == at[0] {
      assert path <= at;
    }
  }

  /** Any two masks commute, nested paths included. */
  lemma {:induction false} MasksCommute(o: Obj, p: Path, q: Path)
    ensures Mask(Mask(o, p), q) == Mask(Mask(o, q), p)
    decreases |p|
  {
    if p[0] == q[0] && |p| > 1 && |q| > 1 && p[0] in o && o[p[0]].JObj? {
      MasksCommute(o[p[0]].fields, p[1..], q[1..]);
      var k, f := p[0], o[p[0]].fields;
      assert Mask(Mask(o, p), q) == o[k := JObj(Mask(Mask(f, p[1..]), q[1..]))];
      assert Mask(Mask(o, q), p) == o[k := JObj(Mask(Mask(f, q[1..]), p[1..]))];
    }
  }

  function MaskAll(o: Obj, paths: seq<Path>): Obj
    decreases |paths|
  {
    if paths == [] then o else MaskAll(Mask(o, paths[0]), paths[1..])
  }

  /** A list of masks hides exactly the paths that run through one of them. */
  lemma {:induction false} MaskAllPresence(o: Obj, paths: seq<Path>, at: Path)
    ensures Present(MaskAll(o, paths), at) <==> Present(o, at) && forall i :: 0 <= i < |paths| ==> !(paths[i] <= at)
    decreases |paths|
  {
    hide Present, Mask;
    if paths != [] {
      MaskedPresence(o, paths[0], at);
      MaskAllPresence(Mask(o, paths[0]), paths[1..], at);
      assert (forall i :: 0 <= i < |paths| ==> !(paths[i] <= at))
        <==> !(paths[0] <= at) && forall i :: 0 <= i < |paths[1..]| ==> !(paths[1..][i] <= at) by {
        assert forall i :: 0 < i < |paths| ==> paths[i] == paths[1..][i - 1];
      }
    }
  }

  /** The samples of a batch under a list of masks. */
  function MaskedSamples(batch: seq<Obj>, paths: seq<Path>): seq<seq<Field>> {
    if batch == [] then [] else [AuthorityFields(MaskAll(batch[0], paths))] + MaskedSamples(batch[1..], paths)
  }

  /** The candidates under a list of masks. */
  function MaskBatch(batch: seq<Obj>, paths: seq<Path>): seq<Obj> {
    if batch == [] then [] else [MaskAll(batch[0], paths)] + MaskBatch(batch[1..], paths)
  }

  /** The conclusion of a scenario: contract first, then the masks, then the analysis. */
  function Scenario(h: Host, batch: seq<Obj>, paths: seq<Path>, at: string, text: Json -> string): Outcome<Conclusion> {
    var applied := ApplyAll(batch, at, text);
    if applied.Raised? || !AllAnalysed(h, MaskBatch(Candidates(applied.value), paths)) then Raised
    else Done(Conclude(MaskedSamples(Candidates(applied.value), paths)))
  }

  /** `_run_scenario`'s loop over the masks of one candidate. */
  method ApplyMasks(candidate: Obj, paths: seq<Path>) returns (masked: Obj)
    ensures masked == MaskAll(candidate, paths)
  {
    masked := candidate;
    assert paths[0..] == paths;
    for i := 0 to |paths|
      invariant MaskAll(masked, paths[i..]) == MaskAll(candidate, paths)
    {
      hide Mask;
      assert paths[i..][1..] == paths[i + 1..];
      masked := Mask(masked, paths[i]);
    }
    assert paths[|paths|..] == [];
  }

  predicate SubFields(a: seq<Field>, b: seq<Field>) {
    forall i :: 0 <= i < |a| ==> a[i] in b
  }

  lemma {:induction false} FoundMembers(o: Obj, registry: seq<Field>)
    ensures forall f :: f in Found(o, registry) <==> f in registry && Present(o, PathOf(f))
  {
    hide Present, PathOf;
    if registry != [] {
      FoundMembers(o, registry[1..]);
      assert registry == [registry[0]] + registry[1..];
    }
  }

  lemma MasksShrinkFields(o: Obj, paths: seq<Path>)
    ensures SubFields(AuthorityFields(MaskAll(o, paths)), AuthorityFields(o))
  {
    hide Present, PathOf, MaskAll, Found;
    FoundMembers(o, REGISTRY);
    FoundMembers(MaskAll(o, paths), REGISTRY);
    var a := AuthorityFields(MaskAll(o, paths));
    forall i | 0 <= i < |a| ensures a[i] in AuthorityFields(o) {
      assert a[i] in a;
      MaskAllPresence(o, paths, PathOf(a[i]));
    }
  }

  lemma {:induction false} FewerHits(a: seq<seq<Field>>, b: seq<seq<Field>>)
    requires |a| == |b| && forall i :: 0 <= i < |a| ==> SubFields(a[i], b[i])
    ensures HighHits(a) <= HighHits(b) && AnyHits(a) <= AnyHits(b)
  {
    if a != [] {
      if HasHigh(a[0]) {
        var i :| 0 <= i < |a[0]| && RiskOf(a[0][i]) == High;
        assert a[0][i] in b[0];
      }
      if a[0] != [] {
        assert a[0][0] in b[0];
      }
      FewerHits(a[1..], b[1..]);
    }
  }

  lemma {:induction false} MaskedBatch(batch: seq<Obj>, paths: seq<Path>)
    ensures |MaskedSamples(batch, paths)| == |batch| == |MaskedSamples(batch, [])|
    ensures forall i :: 0 <= i < |batch| ==> SubFields(MaskedSamples(batch, paths)[i], MaskedSamples(batch, [])[i])
  {
    hide AuthorityFields, SubFields;
    if batch != [] {
      MasksShrinkFields(batch[0], paths);
      assert MaskAll(batch[0], []) == batch[0];
      hide MaskAll;
      MaskedBatch(batch[1..], paths);
    }
  }

  /** Masks never raise the conclusion of a scenario. */
  lemma MasksNeverRaise(h: Host, batch: seq<Obj>, paths: seq<Path>, at: string, text: Json -> string)
    requires Scenario(h, batch, paths, at, text).Done? && Scenario(h, batch, [], at, text).Done?
    ensures Rank(Scenario(h, batch, paths, at, text).value) <= Rank(Scenario(h, batch, [], at, text).value)
  {
    hide ApplyAll, Candidates, MaskedSamples, SubFields, AllAnalysed, MaskBatch;
    var candidates := Candidates(ApplyAll(batch, at, text).value);
    MaskedBatch(candidates, paths);
    FewerHits(MaskedSamples(candidates, paths), MaskedSamples(candidates, []));
  }

  // ---------------------------------------------------------------- masks and exceptions

  /** What the analysis needs of the errors of a candidate so as not to raise. */
  predicate ErrorsOk(c: Obj) {
    !Truthy(Get(c, "errors")) || Sized(Get(c, "errors"))
  }

  predicate MissingOk(layers: Obj) {
    MISSING in layers ==> Sized(layers[MISSING])
  }

  predicate LayersOk(checks: Obj) {
    LAYERS in checks ==> checks[LAYERS].JObj? && MissingOk(checks[LAYERS].fields)
  }

  /** What it needs of the checks. */
  predicate ChecksOk(c: Obj) {
    !Truthy(Get(c, "checks")) || (Get(c, "checks").JObj? && LayersOk(Get(c, "checks").fields))
  }

  lemma AnalyzeEndsIff(h: Host, c: Obj)
    ensures Analyze(h, c).Done? <==> ErrorsOk(c) && ChecksOk(c)
  {
    hide AuthorityFields, InducementRisk, Characters, Strings, ReportsBoundary;
    MissingEndsIff(c);
    hide MissingFields, ChecksOk;
  }

  lemma MissingEndsIff(c: Obj)
    ensures MissingFields(c).Done? <==> ChecksOk(c)
  {
  }

  /** The masks that run through a key, seen from below it. */
  function Under(key: string, paths: seq<Path>): seq<Path> {
    if paths == [] then []
    else (if paths[0][0] == key && |paths[0]| > 1 then [paths[0][1..]] else []) + Under(key, paths[1..])
  }

  lemma {:induction false} UnderMembers(key: string, paths: seq<Path>, path: Path)
    ensures path in Under(key, paths) <==> [key] + path in paths
  {
    if paths != [] {
      UnderMembers(key, paths[1..], path);
      assert paths == [paths[0]] + paths[1..];
      assert ([key] + path)[1..] == path;
      if paths[0][0] == key && |paths[0]| > 1 {
        assert paths[0] == [key] + paths[0][1..];
      }
    }
  }

  /** What masks leave at a key: null if it is masked itself, else what they leave below it. */
  lemma {:induction false} MaskedKey(o: Obj, paths: seq<Path>, key: string)
    ensures [key] in paths ==> key in MaskAll(o, paths) && MaskAll(o, paths)[key] == JNull
    ensures [key] !in paths ==>
              && (key in MaskAll(o, paths) <==> key in o)
              && (key in o ==>
                    MaskAll(o, paths)[key]
                    == if o[key].JObj? then JObj(MaskAll(o[key].fields, Under(key, paths))) else o[key])
    decreases |paths|
  {
    if paths != [] {
      hide Under;
      var path, rest := paths[0], paths[1..];
      assert paths == [path] + rest;
      MaskedKey(Mask(o, path), rest, key);
      UnderStep(key, paths);
      if path == [key] {
        assert Mask(o, path)[key] == JNull;
      } else if path[0] == key {
        assert |path| > 1;
      }
    } else {
      assert Under(key, paths) == [];
    }
  }

  lemma UnderStep(key: string, paths: seq<Path>)
    requires paths != []
    ensures var path, rest := paths[0], Under(key, paths[1..]);
      Under(key, paths) == if path[0] == key && |path| > 1 then [path[1..]] + rest else rest
  {
  }

  lemma MaskedMissing(layers: Obj, paths: seq<Path>)
    ensures MissingOk(MaskAll(layers, paths)) <==> MissingOk(layers) && [MISSING] !in paths
  {
    MaskedKey(layers, paths, MISSING);
    hide MaskAll;
  }

  lemma MaskedLayers(checks: Obj, paths: seq<Path>)
    ensures LayersOk(MaskAll(checks, paths))
       <==> && LayersOk(checks) && [LAYERS] !in paths
            && (LAYERS in checks ==> [LAYERS, MISSING] !in paths)
  {
    MaskedKey(checks, paths, LAYERS);
    UnderMembers(LAYERS, paths, [MISSING]);
    assert [LAYERS] + [MISSING] == [LAYERS, MISSING];
    if LAYERS in checks && checks[LAYERS].JObj? {
      MaskedMissing(checks[LAYERS].fields, Under(LAYERS, paths));
    }
    hide MaskAll, MissingOk, Under;
  }

  lemma MaskedErrors(c: Obj, paths: seq<Path>)
    ensures ErrorsOk(MaskAll(c, paths)) <==> ErrorsOk(c) || ["errors"] in paths
  {
    MaskedKey(c, paths, "errors");
    hide MaskAll;
  }

  /** The masks leave a block of checks that the analysis can read. */
  predicate ChecksSpared(c: Obj, paths: seq<Path>) {
    Get(c, "checks").JObj? ==>
      && ["checks", LAYERS] !in paths
      && (LAYERS in Get(c, "checks").fields ==> ["checks", LAYERS, MISSING] !in paths)
  }

  lemma MaskedChecks(c: Obj, paths: seq<Path>)
    ensures ChecksOk(MaskAll(c, paths)) <==> (ChecksOk(c) && ChecksSpared(c, paths)) || ["checks"] in paths
  {
    MaskedKey(c, paths, "checks");
    UnderMembers("checks", paths, [LAYERS]);
    UnderMembers("checks", paths, [LAYERS, MISSING]);
    assert ["checks"] + [LAYERS] == ["checks", LAYERS];
    assert ["checks"] + [LAYERS, MISSING] == ["checks", LAYERS, MISSING];
    if "checks" in c && c["checks"].JObj? {
      MaskedLayers(c["checks"].fields, Under("checks", paths));
      EmptyLayers(c["checks"].fields);
    }
    hide MaskAll, LayersOk, Under;
  }

  lemma EmptyLayers(checks: Obj)
    ensures checks == map[] ==> LayersOk(checks)
  {
  }

  /**
   Exactly when the analysis of a masked candidate ends: its errors can be read or are masked,
   and its checks can be read and are spared by the masks below them, or are masked as a whole.
   */
  lemma MaskedAnalysisEndsIff(h: Host, c: Obj, paths: seq<Path>)
    ensures Analyze(h, MaskAll(c, paths)).Done?
       <==> && (ErrorsOk(c) || ["errors"] in paths)
            && ((ChecksOk(c) && ChecksSpared(c, paths)) || ["checks"] in paths)
  {
    AnalyzeEndsIff(h, MaskAll(c, paths));
    MaskedErrors(c, paths);
    MaskedChecks(c, paths);
    hide Analyze, ErrorsOk, ChecksOk, ChecksSpared, MaskAll;
  }

  /** Masking a malformed block keeps the analysis from raising. */
  lemma MaskCanRescue(h: Host)
    ensures var c: Obj := map["checks" := JStr("x")];
      Analyze(h, c).Raised? && Analyze(h, Mask(c, ["checks"])).Done?
    ensures var c: Obj := map["errors" := JInt(1)];
      Analyze(h, c).Raised? && Analyze(h, Mask(c, ["errors"])).Done?
  {
    hide Analyze;
    forall c: Obj { AnalyzeEndsIff(h, c); }
  }

  /** Masking a field that the analysis measures makes it raise. */
  lemma MaskCanRaise(h: Host)
    ensures var c: Obj := map["checks" := JObj(map["a" := JNull])];
      Analyze(h, c).Done? && Analyze(h, Mask(c, ["checks", LAYERS])).Raised?
    ensures var c: Obj := map["checks" := JObj(map[LAYERS := JObj(map[])])];
      Analyze(h, c).Done? && Analyze(h, Mask(c, ["checks", LAYERS, MISSING])).Raised?
  {
    hide Analyze, MaskAll;
    var c: Obj, d: Obj := map["checks" := JObj(map["a" := JNull])], map["checks" := JObj(map[LAYERS := JObj(map[])])];
    AnalyzeEndsIff(h, c);
    AnalyzeEndsIff(h, d);
    OneMask(c, ["checks", LAYERS]);
    OneMask(d, ["checks", LAYERS, MISSING]);
    MaskedAnalysisEndsIff(h, c, [["checks", LAYERS]]);
    MaskedAnalysisEndsIff(h, d, [["checks", LAYERS, MISSING]]);
  }

  lemma OneMask(o: Obj, path: Path)
    ensures MaskAll(o, [path]) == Mask(o, path)
  {
    hide Mask;
    assert [path][1..] == [];
  }

  /** The masks that can change whether the analysis of some candidate raises. */
  predicate Disturbing(path: Path) {
    || path == ["errors"] || path == ["checks"]
    || path == ["checks", LAYERS] || path == ["checks", LAYERS, MISSING]
  }

  predicate Neutral(paths: seq<Path>) {
    forall path :: path in paths ==> !Disturbing(path)
  }

  lemma NeutralKeepsStanding(h: Host, c: Obj, paths: seq<Path>)
    requires Neutral(paths)
    ensures Analyze(h, MaskAll(c, paths)).Done? <==> Analyze(h, c).Done?
  {
    MaskedAnalysisEndsIff(h, c, paths);
    AnalyzeEndsIff(h, c);
    hide Analyze, ErrorsOk, ChecksOk, MaskAll;
  }

  /** For masks that are not neutral, a candidate on which they matter, whatever else it holds. */
  function Witness(paths: seq<Path>): Obj {
    if ["checks"] in paths then map["checks" := JStr("x")]
    else if ["errors"] in paths then map["errors" := JInt(1)]
    else if ["checks", LAYERS] in paths then map["checks" := JObj(map[])]
    else map["checks" := JObj(map[LAYERS := JObj(map[])])]
  }

  lemma WitnessDisturbed(h: Host, c: Obj, paths: seq<Path>)
    requires !Neutral(paths)
    requires Get(c, "errors") == Get(Witness(paths), "errors") && Get(c, "checks") == Get(Witness(paths), "checks")
    ensures Analyze(h, MaskAll(c, paths)).Done? <==> !Analyze(h, c).Done?
  {
    MaskedAnalysisEndsIff(h, c, paths);
    AnalyzeEndsIff(h, c);
    hide Analyze, MaskAll;
  }

  lemma {:induction false} BatchKeepsStanding(h: Host, batch: seq<Obj>, paths: seq<Path>)
    requires Neutral(paths)
    ensures |MaskBatch(batch, paths)| == |batch|
    ensures AllAnalysed(h, MaskBatch(batch, paths)) <==> AllAnalysed(h, batch)
  {
    hide Analyze, MaskAll, Neutral;
    if batch != [] {
      NeutralKeepsStanding(h, batch[0], paths);
      BatchKeepsStanding(h, batch[1..], paths);
      var masked := MaskBatch(batch, paths);
      assert masked[1..] == MaskBatch(batch[1..], paths);
      AnalysedCons(h, batch);
      AnalysedCons(h, masked);
    }
  }

  lemma AnalysedCons(h: Host, batch: seq<Obj>)
    requires batch != []
    ensures AllAnalysed(h, batch) <==> Analyze(h, batch[0]).Done? && AllAnalysed(h, batch[1..])
  {
    hide Analyze;
    assert forall i :: 0 < i < |batch| ==> batch[i] == batch[1..][i - 1];
  }

  lemma NeutralScenario(h: Host, batch: seq<Obj>, paths: seq<Path>, at: string, text: Json -> string)
    requires Neutral(paths)
    ensures Scenario(h, batch, paths, at, text).Raised? <==> Scenario(h, batch, [], at, text).Raised?
  {
    hide ApplyAll, Candidates, Analyze, AllAnalysed, Disturbing, MaskBatch, MaskedSamples;
    if ApplyAll(batch, at, text).Done? {
      BatchKeepsStanding(h, Candidates(ApplyAll(batch, at, text).value), paths);
      BatchKeepsStanding(h, Candidates(ApplyAll(batch, at, text).value), []);
    }
  }

  /** The scenario of one accepted candidate. */
  lemma ScenarioOfOne(h: Host, c: Obj, paths: seq<Path>, at: string, text: Json -> string)
    requires Apply(c, at, text).Done?
    ensures Scenario(h, [c], paths, at, text).Done? <==> Analyze(h, MaskAll(Apply(c, at, text).value.0, paths)).Done?
  {
    hide Apply, Analyze, MaskAll, MaskedSamples;
    ApplyOne(c, at, text);
    var d := Apply(c, at, text).value;
    var applied := [d];
    assert applied[1..] == [];
    assert Candidates(applied) == [d.0];
    var one := [d.0];
    assert one[1..] == [];
    var masked := [MaskAll(d.0, paths)];
    assert MaskBatch(one, paths) == masked;
    assert masked[0] == MaskAll(d.0, paths) && masked[1..] == [];
    AnalysedCons(h, masked);
  }

  /**
   Masks leave every scenario as likely to raise as without them exactly when none of them is
   one of the four that the analysis stumbles over.
   */
  lemma MasksRaiseNothingIff(h: Host, paths: seq<Path>, at: string, text: Json -> string)
    ensures (forall batch :: Scenario(h, batch, paths, at, text).Raised? <==> Scenario(h, batch, [], at, text).Raised?)
       <==> Neutral(paths)
  {
    hide *;
    if Neutral(paths) {
      forall batch ensures Scenario(h, batch, paths, at, text).Raised? <==> Scenario(h, batch, [], at, text).Raised? {
        NeutralScenario(h, batch, paths, at, text);
      }
    } else {
      DisturbedScenario(h, paths, at, text);
    }
  }

  lemma DisturbedScenario(h: Host, paths: seq<Path>, at: string, text: Json -> string)
    requires !Neutral(paths)
    ensures Scenario(h, [Witness(paths)], paths, at, text).Raised?
         <==> Scenario(h, [Witness(paths)], [], at, text).Done?
  {
    var c := Witness(paths);
    assert Apply(c, at, text).Done? by { assert Get(c, "policy") == JNull; }
    KeptKeys(c, at, text);
    hide Apply, Scenario, Analyze, Witness, Neutral;
    var d := Apply(c, at, text).value.0;
    WitnessDisturbed(h, d, paths);
    ScenarioOfOne(h, c, paths, at, text);
    ScenarioOfOne(h, c, [], at, text);
    assert MaskAll(d, []) == d;
  }

  const MEDIUM_LOW: seq<Path> := [PathOf(RepoReadinessLevel), PathOf(CloseoutSchemaValidity),
                                  PathOf(CloseoutContentSufficiency), PathOf(RepoCloseoutActivationState)]

  lemma MediumLowCovers(f: Field)
    requires f != PolicyDecision
    ensures exists i :: 0 <= i < |MEDIUM_LOW| && MEDIUM_LOW[i] <= PathOf(f)
  {
    hide PathOf;
    var i := match f case RepoReadinessLevel => 0 case CloseoutSchemaValidity => 1
                     case CloseoutContentSufficiency => 2 case RepoCloseoutActivationState => 3;
    assert MEDIUM_LOW[i] <= PathOf(f);
  }

  lemma {:induction false} FoundNothing(o: Obj, registry: seq<Field>)
    requires forall f :: !Present(o, PathOf(f))
    ensures Found(o, registry) == []
  {
    hide Present, PathOf;
    if registry != [] {
      FoundNothing(o, registry[1..]);
    }
  }

  lemma NothingLeft(c: Obj, at: string, text: Json -> string)
    requires Apply(c, at, text).Done?
    ensures AuthorityFields(MaskAll(Apply(c, at, text).value.0, MEDIUM_LOW)) == []
  {
    hide Apply, Present, PathOf, MaskAll, Found;
    var after := Apply(c, at, text).value.0;
    var masked := MaskAll(after, MEDIUM_LOW);
    forall f ensures !Present(masked, PathOf(f)) {
      ContractFields(c, at, text, f);
      MaskAllPresence(after, MEDIUM_LOW, PathOf(f));
      if f != PolicyDecision {
        MediumLowCovers(f);
      }
    }
    FoundNothing(masked, REGISTRY);
  }

  lemma {:induction false} NoHits(samples: seq<seq<Field>>)
    requires forall i :: 0 <= i < |samples| ==> samples[i] == []
    ensures AnyHits(samples) == 0 && HighHits(samples) == 0
  {
    if samples != [] { NoHits(samples[1..]); }
  }

  lemma {:induction false} AllEmpty(batch: seq<Obj>, at: string, text: Json -> string)
    requires ApplyAll(batch, at, text).Done?
    ensures var samples := MaskedSamples(Candidates(ApplyAll(batch, at, text).value), MEDIUM_LOW);
      |samples| == |batch| && forall i :: 0 <= i < |samples| ==> samples[i] == []
  {
    if batch != [] {
      hide *;
      SamplesCons(batch, at, text);
      AllEmpty(batch[1..], at, text);
      NothingLeft(batch[0], at, text);
    } else {
      hide Apply, AuthorityFields, MaskAll;
    }
  }

  lemma SamplesCons(batch: seq<Obj>, at: string, text: Json -> string)
    requires batch != [] && ApplyAll(batch, at, text).Done?
    ensures Apply(batch[0], at, text).Done? && ApplyAll(batch[1..], at, text).Done?
    ensures MaskedSamples(Candidates(ApplyAll(batch, at, text).value), MEDIUM_LOW)
         == [AuthorityFields(MaskAll(Apply(batch[0], at, text).value.0, MEDIUM_LOW))]
            + MaskedSamples(Candidates(ApplyAll(batch[1..], at, text).value), MEDIUM_LOW)
  {
    hide Apply, AuthorityFields, MaskAll;
    var rest, all := ApplyAll(batch[1..], at, text).value, ApplyAll(batch, at, text).value;
    assert all[1..] == rest && all[0] == Apply(batch[0], at, text).value;
    assert Candidates(all)[1..] == Candidates(rest) && Candidates(all)[0] == all[0].0;
  }

  lemma RegistryMasksNeutral()
    ensures Neutral(MEDIUM_LOW)
  {
  }

  /** With every medium and low field masked, every batch is safe, and raises only if it did without masks. */
  lemma AllMaskedIsSafe(h: Host, batch: seq<Obj>, at: string, text: Json -> string)
    ensures Scenario(h, batch, MEDIUM_LOW, at, text)
         == if Scenario(h, batch, [], at, text).Raised? then Raised else Done(Safe)
  {
    RegistryMasksNeutral();
    NeutralScenario(h, batch, MEDIUM_LOW, at, text);
    hide ApplyAll, Candidates, MaskedSamples, AllAnalysed, MaskBatch;
    if Scenario(h, batch, MEDIUM_LOW, at, text).Done? {
      AllEmpty(batch, at, text);
      NoHits(MaskedSamples(Candidates(ApplyAll(batch, at, text).value), MEDIUM_LOW));
    }
  }
}
