/**
 Failure classification (`failure_disposition.py`) and the closeout gate that reads it
 (`gate_policy.py`). Main results: the counts of a batch are conserved and unknown failures
 are exactly the escalated ones; under the default policy a blocked gate implies a blocked
 verdict and the two differ exactly with no production fix and one to three unknowns; and
 under every policy further failing tests never unblock the gate.
 */
module FailureGate {
  import opened Text

  datatype Kind = StaleAssertion | PlatformMock | IntegrationDrift | ExternalExclusion | Unknown

  datatype Action = IgnoreForVerdict | TestFixOnly | ProductionFixRequired | Escalate | Quarantine

  datatype Confidence = High | Tentative | Unclassified

  const UNKNOWN_ESCALATION_THRESHOLD := 3

  function DefaultAction(k: Kind): Action {
    match k
    case StaleAssertion => TestFixOnly
    case PlatformMock => TestFixOnly
    case IntegrationDrift => ProductionFixRequired
    case ExternalExclusion => Quarantine
    case Unknown => Escalate
  }

  // ---------------------------------------------------------------- classification

  datatype Rule = Rule(kind: Kind, confidence: Confidence, patterns: seq<string>)

  const RULES: seq<Rule> := [
    Rule(ExternalExclusion, High, ["trust_signal", "reviewer_handoff", "governance_auditor", "publication_reader",
                                   "release_.*pipeline", "failure_mode_test_matrix", "governance_decision_model_v\\d"]),
    Rule(StaleAssertion, High, ["folder_flag", "includes_log_flag", "includes_source_path", "stale",
                                "old[_\\- ]?assertion", "deprecated[_\\- ]?flag"]),
    Rule(PlatformMock, High, ["posix", "posi[xX]path", "macos.*exe.*detection", "darwin.*exe", "bundle.*binary",
                              "platform[_\\- ]?mock", "unsupportedoperation"]),
    Rule(IntegrationDrift, High, ["dfu[_\\- ]?mode", "dfu[_\\- ]?sequence", "run_dfu", "integration.*drift",
                                  "called.*0.*expected.*1", "assert.*called.*once"]),
    Rule(StaleAssertion, Tentative, ["assert.*flag", "assert.*arg", "expected.*command"]),
    Rule(IntegrationDrift, Tentative, ["called_once", "not_called", "mock.*never"]) ]

  /** Pattern search and lower-casing, of which nothing is assumed. */
  datatype Matcher = Matcher(search: (string, string) -> bool, lower: string -> string)

  function Combined(m: Matcher, testId: string, extra: seq<string>): string {
    if extra == [] then m.lower(testId)
    else Combined(m, testId, extra[..|extra| - 1]) + " " + m.lower(extra[|extra| - 1])
  }

  function Matched(m: Matcher, patterns: seq<string>, text: string): seq<string> {
    if patterns == [] then []
    else (if m.search(patterns[0], text) then [patterns[0]] else []) + Matched(m, patterns[1..], text)
  }

  datatype Disposition = Disposition(testId: string, kind: Kind, action: Action, confidence: Confidence,
                                     signals: seq<string>, expansionCandidate: bool)

  /** The first rule with a matching pattern decides; without one the failure is unknown. */
  function FirstMatch(m: Matcher, rules: seq<Rule>, testId: string, text: string): Disposition {
    if rules == [] then Disposition(testId, Unknown, Escalate, Unclassified, [], false)
    else
      var matched := Matched(m, rules[0].patterns, text);
      if matched != [] then
        Disposition(testId, rules[0].kind, DefaultAction(rules[0].kind), rules[0].confidence, matched, false)
      else FirstMatch(m, rules[1..], testId, text)
  }

  function Classify(m: Matcher, testId: string, extra: seq<string>): Disposition {
    FirstMatch(m, RULES, testId, Combined(m, testId, extra))
  }

  method ClassifyFailure(m: Matcher, testId: string, extra: seq<string>) returns (d: Disposition)
    ensures d == Classify(m, testId, extra)
  {
    var combined := Combined(m, testId, extra);
    assert RULES[0..] == RULES;
    for i := 0 to |RULES|
      invariant FirstMatch(m, RULES[i..], testId, combined) == Classify(m, testId, extra)
    {
      hide Matched, Combined, DefaultAction;
      assert RULES[i..][1..] == RULES[i + 1..];
      var rule := RULES[i];
      var matched := Matched(m, rule.patterns, combined);
      if matched != [] {
        return Disposition(testId, rule.kind, DefaultAction(rule.kind), rule.confidence, matched, false);
      }
    }
    assert RULES[|RULES|..] == [];
    return Disposition(testId, Unknown, Escalate, Unclassified, [], false);
  }

  lemma {:induction false} MatchShape(m: Matcher, rules: seq<Rule>, testId: string, text: string)
    requires forall i :: 0 <= i < |rules| ==> rules[i].kind != Unknown && rules[i].confidence != Unclassified
    ensures var d := FirstMatch(m, rules, testId, text);
      && d.action == DefaultAction(d.kind)
      && (d.kind == Unknown <==> d.confidence == Unclassified)
      && (d.kind == Unknown <==> forall i :: 0 <= i < |rules| ==> Matched(m, rules[i].patterns, text) == [])
  {
    hide Matched;
    if rules != [] {
      MatchShape(m, rules[1..], testId, text);
      assert forall i :: 0 < i < |rules| ==> rules[i] == rules[1..][i - 1];
      if Matched(m, rules[0].patterns, text) == [] {
        assert (forall i :: 0 <= i < |rules| ==> Matched(m, rules[i].patterns, text) == [])
          <==> (forall i :: 0 <= i < |rules[1..]| ==> Matched(m, rules[1..][i].patterns, text) == []);
      }
    }
  }

  lemma RulesClassify()
    ensures forall i :: 0 <= i < |RULES| ==> RULES[i].kind != Unknown && RULES[i].confidence != Unclassified
  {
  }

  /**
   A failure is escalated exactly when it is unknown, which is exactly when no pattern of any
   rule matches; none is ever ignored for the verdict.
   */
  lemma UnknownIsEscalated(m: Matcher, testId: string, extra: seq<string>)
    ensures var d := Classify(m, testId, extra);
      && (d.action == Escalate <==> d.kind == Unknown)
      && (d.action == ProductionFixRequired <==> d.kind == IntegrationDrift)
      && (d.confidence == Unclassified <==> d.kind == Unknown)
      && d.action != IgnoreForVerdict
      && (d.kind == Unknown <==>
            forall i :: 0 <= i < |RULES| ==> Matched(m, RULES[i].patterns, Combined(m, testId, extra)) == [])
  {
    RulesClassify();
    hide Matched, FirstMatch, Combined;
    MatchShape(m, RULES, testId, Combined(m, testId, extra));
  }

  // ---------------------------------------------------------------- batches

  function CountKind(ds: seq<Disposition>, k: Kind): nat {
    if ds == [] then 0 else CountKind(ds[..|ds| - 1], k) + (if ds[|ds| - 1].kind == k then 1 else 0)
  }

  function CountAction(ds: seq<Disposition>, a: Action): nat {
    if ds == [] then 0 else CountAction(ds[..|ds| - 1], a) + (if ds[|ds| - 1].action == a then 1 else 0)
  }

  function CountConfidence(ds: seq<Disposition>, c: Confidence): nat {
    if ds == [] then 0 else CountConfidence(ds[..|ds| - 1], c) + (if ds[|ds| - 1].confidence == c then 1 else 0)
  }

  /** Extra signals per test id, as given. */
  function SignalsFor(extra: map<string, seq<string>>, testId: string): seq<string> {
    if testId in extra then extra[testId] else []
  }

  function ClassifyOne(m: Matcher, extra: map<string, seq<string>>, testId: string): Disposition {
    var d := Classify(m, testId, SignalsFor(extra, testId));
    d.(expansionCandidate := d.kind == Unknown)
  }

  function ClassifyAll(m: Matcher, extra: map<string, seq<string>>, tests: seq<string>): seq<Disposition> {
    if tests == [] then []
    else ClassifyAll(m, extra, tests[..|tests| - 1]) + [ClassifyOne(m, extra, tests[|tests| - 1])]
  }

  datatype Batch = Batch(total: nat, byKind: map<Kind, nat>, byAction: map<Action, nat>,
                         byConfidence: map<Confidence, nat>, verdictBlocked: bool, unknownCount: nat,
                         expansionSignal: bool, results: seq<Disposition>)

  predicate Tallies(b: Batch, ds: seq<Disposition>) {
    && b.results == ds && b.total == |ds|
    && (forall k :: k in b.byKind && b.byKind[k] == CountKind(ds, k))
    && (forall a :: a in b.byAction && b.byAction[a] == CountAction(ds, a))
    && (forall c :: c in b.byConfidence && b.byConfidence[c] == CountConfidence(ds, c))
    && b.verdictBlocked == (CountAction(ds, ProductionFixRequired) > 0 || CountAction(ds, Escalate) > 0)
    && b.unknownCount == CountKind(ds, Unknown)
    && b.expansionSignal == (CountKind(ds, Unknown) >= UNKNOWN_ESCALATION_THRESHOLD)
  }

  /** The three tables of counters. */
  datatype Counters = Counters(byKind: map<Kind, nat>, byAction: map<Action, nat>, byConfidence: map<Confidence, nat>)

  predicate Counted(c: Counters, ds: seq<Disposition>) {
    && (forall k :: k in c.byKind && c.byKind[k] == CountKind(ds, k))
    && (forall a :: a in c.byAction && c.byAction[a] == CountAction(ds, a))
    && (forall f :: f in c.byConfidence && c.byConfidence[f] == CountConfidence(ds, f))
  }

  const KINDS: set<Kind> := {StaleAssertion, PlatformMock, IntegrationDrift, ExternalExclusion, Unknown}
  const ACTIONS: set<Action> := {IgnoreForVerdict, TestFixOnly, ProductionFixRequired, Escalate, Quarantine}
  const CONFIDENCES: set<Confidence> := {High, Tentative, Unclassified}

  function Zeros(): Counters {
    Counters(map k | k in KINDS :: 0, map a | a in ACTIONS :: 0, map f | f in CONFIDENCES :: 0)
  }

  lemma ZerosCount()
    ensures Counted(Zeros(), [])
  {
    forall k: Kind ensures k in KINDS {
      match k
      case StaleAssertion => case PlatformMock => case IntegrationDrift => case ExternalExclusion => case Unknown =>
    }
    forall a: Action ensures a in ACTIONS {
      match a
      case IgnoreForVerdict => case TestFixOnly => case ProductionFixRequired => case Escalate => case Quarantine =>
    }
    forall f: Confidence ensures f in CONFIDENCES { match f case High => case Tentative => case Unclassified => }
  }

  lemma CountStep(ds: seq<Disposition>, d: Disposition, k: Kind, a: Action, f: Confidence)
    ensures CountKind(ds + [d], k) == CountKind(ds, k) + (if d.kind == k then 1 else 0)
    ensures CountAction(ds + [d], a) == CountAction(ds, a) + (if d.action == a then 1 else 0)
    ensures CountConfidence(ds + [d], f) == CountConfidence(ds, f) + (if d.confidence == f then 1 else 0)
  {
    assert (ds + [d])[..|ds|] == ds;
  }

  /** One iteration's three increments. */
  method Increment(c: Counters, d: Disposition, ghost ds: seq<Disposition>) returns (out: Counters)
    requires Counted(c, ds)
    ensures Counted(out, ds + [d])
  {
    forall k, a, f
      ensures CountKind(ds + [d], k) == CountKind(ds, k) + (if d.kind == k then 1 else 0)
      ensures CountAction(ds + [d], a) == CountAction(ds, a) + (if d.action == a then 1 else 0)
      ensures CountConfidence(ds + [d], f) == CountConfidence(ds, f) + (if d.confidence == f then 1 else 0)
    {
      CountStep(ds, d, k, a, f);
    }
    hide CountKind, CountAction, CountConfidence;
    out := Counters(c.byKind[d.kind := c.byKind[d.kind] + 1],
                    c.byAction[d.action := c.byAction[d.action] + 1],
                    c.byConfidence[d.confidence := c.byConfidence[d.confidence] + 1]);
  }

  /** `classify_batch`: results and counters are filled in one pass. */
  method ClassifyBatch(m: Matcher, extra: map<string, seq<string>>, tests: seq<string>) returns (b: Batch)
    ensures Tallies(b, ClassifyAll(m, extra, tests))
  {
    hide Classify, CountKind, CountAction, CountConfidence;
    var results: seq<Disposition> := [];
    var counters := Zeros();
    ZerosCount();
    for i := 0 to |tests|
      invariant results == ClassifyAll(m, extra, tests[..i])
      invariant Counted(counters, results)
    {
      hide Counted;
      assert tests[..i + 1][..i] == tests[..i];
      NotCandidateYet(m, tests[i], SignalsFor(extra, tests[i]));
      var r := ClassifyFailure(m, tests[i], SignalsFor(extra, tests[i]));
      if r.kind == Unknown {
        r := r.(expansionCandidate := true);
      }
      counters := Increment(counters, r, results);
      results := results + [r];
    }
    assert tests[..|tests|] == tests;
    var unknownCount := counters.byKind[Unknown];
    b := Batch(|results|, counters.byKind, counters.byAction, counters.byConfidence,
               counters.byAction[ProductionFixRequired] > 0 || counters.byAction[Escalate] > 0,
               unknownCount, unknownCount >= UNKNOWN_ESCALATION_THRESHOLD, results);
  }

  lemma {:induction false} FirstMatchPlain(m: Matcher, rules: seq<Rule>, testId: string, text: string)
    ensures !FirstMatch(m, rules, testId, text).expansionCandidate
  {
    if rules != [] {
      FirstMatchPlain(m, rules[1..], testId, text);
    }
  }

  lemma NotCandidateYet(m: Matcher, testId: string, extra: seq<string>)
    ensures !Classify(m, testId, extra).expansionCandidate
  {
    FirstMatchPlain(m, RULES, testId, Combined(m, testId, extra));
  }

  // ---------------------------------------------------------------- conservation

  /** Dispositions as classification yields them. */
  predicate Classified(d: Disposition) {
    && d.action == DefaultAction(d.kind)
    && (d.kind == Unknown <==> d.confidence == Unclassified)
  }

  lemma {:induction false} AllClassified(m: Matcher, extra: map<string, seq<string>>, tests: seq<string>)
    ensures |ClassifyAll(m, extra, tests)| == |tests|
    ensures forall i :: 0 <= i < |tests| ==> Classified(ClassifyAll(m, extra, tests)[i])
  {
    if tests != [] {
      var n := |tests| - 1;
      AllClassified(m, extra, tests[..n]);
      RulesClassify();
      hide Matched, FirstMatch;
      var signals := SignalsFor(extra, tests[n]);
      MatchShape(m, RULES, tests[n], Combined(m, tests[n], signals));
    }
  }

  /** Sums over kinds, over actions and over confidences all give the number of failures. */
  lemma {:induction false} CountsConserved(ds: seq<Disposition>)
    ensures CountKind(ds, StaleAssertion) + CountKind(ds, PlatformMock) + CountKind(ds, IntegrationDrift)
            + CountKind(ds, ExternalExclusion) + CountKind(ds, Unknown) == |ds|
    ensures CountAction(ds, IgnoreForVerdict) + CountAction(ds, TestFixOnly) + CountAction(ds, ProductionFixRequired)
            + CountAction(ds, Escalate) + CountAction(ds, Quarantine) == |ds|
    ensures CountConfidence(ds, High) + CountConfidence(ds, Tentative) + CountConfidence(ds, Unclassified) == |ds|
  {
    if ds != [] {
      CountsConserved(ds[..|ds| - 1]);
    }
  }

  /** In a classified batch the actions are exactly the kinds, renamed. */
  lemma {:induction false} ActionsFollowKinds(ds: seq<Disposition>)
    requires forall i :: 0 <= i < |ds| ==> Classified(ds[i])
    ensures CountAction(ds, Escalate) == CountKind(ds, Unknown) == CountConfidence(ds, Unclassified)
    ensures CountAction(ds, ProductionFixRequired) == CountKind(ds, IntegrationDrift)
    ensures CountAction(ds, TestFixOnly) == CountKind(ds, StaleAssertion) + CountKind(ds, PlatformMock)
    ensures CountAction(ds, Quarantine) == CountKind(ds, ExternalExclusion)
    ensures CountAction(ds, IgnoreForVerdict) == 0
  {
    if ds != [] {
      ActionsFollowKinds(ds[..|ds| - 1]);
      assert Classified(ds[|ds| - 1]);
    }
  }

  // ---------------------------------------------------------------- the gate

  datatype Policy = Policy(failMode: string, blockingActions: seq<string>, unknownMode: string, unknownThreshold: int,
                           staleSeconds: int)

  const DEFAULT_POLICY := Policy("strict", ["production_fix_required"], "block_if_count_exceeds", 3, 86400)

  datatype ArtifactState = Absent | Malformed | Stale | Fresh

  /** The artifact as classified: its state, load error, age, and the batch it carries, if any. */
  datatype Artifact = Artifact(state: ArtifactState, disposition: Option<Batch>, loadError: string, age: int)

  datatype Message =
    | AbsentError | MalformedError(why: string)
    | GateAction(name: string, count: nat)
    | GateUnknown(count: nat) | GateUnknownExceeds(count: nat, threshold: int)
    | UnknownAdvisory(count: nat, mode: string)
    | ExpansionSignal(count: nat)
    | StaleWarning(age: int)
    | AuditAbsent | AuditMalformed(why: string) | AuditStale(age: int)

  datatype Decision = Decision(blocked: bool, errors: seq<Message>, warnings: seq<Message>, state: ArtifactState)

  /** `by_action.get(name, 0)`. */
  function CountNamed(byAction: map<Action, nat>, name: string): nat {
    if name == "ignore_for_verdict" && IgnoreForVerdict in byAction then byAction[IgnoreForVerdict]
    else if name == "test_fix_only" && TestFixOnly in byAction then byAction[TestFixOnly]
    else if name == "production_fix_required" && ProductionFixRequired in byAction then byAction[ProductionFixRequired]
    else if name == "escalate" && Escalate in byAction then byAction[Escalate]
    else if name == "quarantine" && Quarantine in byAction then byAction[Quarantine]
    else 0
  }

  function ActionErrors(byAction: map<Action, nat>, names: seq<string>): seq<Message> {
    if names == [] then []
    else
      var count := CountNamed(byAction, names[0]);
      (if count > 0 then [GateAction(names[0], count)] else []) + ActionErrors(byAction, names[1..])
  }

  function UnknownErrors(p: Policy, count: nat): seq<Message> {
    if p.unknownMode == "always_block" && count > 0 then [GateUnknown(count)]
    else if p.unknownMode == "block_if_count_exceeds" && count > p.unknownThreshold
    then [GateUnknownExceeds(count, p.unknownThreshold)]
    else []
  }

  function UnknownWarnings(p: Policy, count: nat): seq<Message> {
    if UnknownErrors(p, count) == [] && count > 0 then [UnknownAdvisory(count, p.unknownMode)] else []
  }

  /** Warnings in whose text the name of the expansion signal already occurs. */
  predicate Mentions(w: Message) {
    w.ExpansionSignal?
    || (w.UnknownAdvisory? && Contains(w.mode, "taxonomy_expansion_signal"))
    || (w.AuditMalformed? && Contains(w.why, "taxonomy_expansion_signal"))
  }

  function AddAdvisory(b: Batch, warnings: seq<Message>): seq<Message> {
    if b.expansionSignal && !(exists i :: 0 <= i < |warnings| && Mentions(warnings[i]))
    then warnings + [ExpansionSignal(b.unknownCount)]
    else warnings
  }

  function Dispose(disp: Option<Batch>, p: Policy, state: ArtifactState): Decision {
    if disp.None? then Decision(false, [], [], state)
    else
      var b := disp.value;
      var errors := ActionErrors(b.byAction, p.blockingActions) + UnknownErrors(p, b.unknownCount);
      Decision(errors != [], errors, AddAdvisory(b, UnknownWarnings(p, b.unknownCount)), state)
  }

  lemma ActionErrorsStep(byAction: map<Action, nat>, names: seq<string>, i: nat)
    requires i < |names|
    ensures ActionErrors(byAction, names[i..])
         == if CountNamed(byAction, names[i]) > 0
            then [GateAction(names[i], CountNamed(byAction, names[i]))] + ActionErrors(byAction, names[i + 1..])
            else ActionErrors(byAction, names[i + 1..])
  {
    hide CountNamed;
    assert names[i..][1..] == names[i + 1..];
  }

  method CollectActionErrors(byAction: map<Action, nat>, names: seq<string>)
      returns (blocked: bool, errors: seq<Message>)
    ensures errors == ActionErrors(byAction, names) && blocked == (errors != [])
  {
    blocked, errors := false, [];
    assert names[0..] == names;
    for i := 0 to |names|
      invariant errors + ActionErrors(byAction, names[i..]) == ActionErrors(byAction, names)
      invariant blocked == (errors != [])
    {
      hide CountNamed, ActionErrors;
      ActionErrorsStep(byAction, names, i);
      var count := CountNamed(byAction, names[i]);
      if count > 0 {
        Associative(errors, [GateAction(names[i], count)], ActionErrors(byAction, names[i + 1..]));
        blocked := true;
        errors := errors + [GateAction(names[i], count)];
      }
    }
    assert names[|names|..] == [] && errors + [] == errors;
  }

  /** `_evaluate_disposition`. */
  method EvaluateDisposition(disp: Option<Batch>, p: Policy, state: ArtifactState) returns (d: Decision)
    ensures d == Dispose(disp, p, state)
  {
    hide ActionErrors, AddAdvisory;
    if disp.None? {
      return Decision(false, [], [], state);
    }
    var b := disp.value;
    var blocked, errors := CollectActionErrors(b.byAction, p.blockingActions);
    var warnings: seq<Message> := [];
    var unknown := b.unknownCount;
    if p.unknownMode == "always_block" && unknown > 0 {
      blocked := true;
      errors := errors + [GateUnknown(unknown)];
    } else if p.unknownMode == "block_if_count_exceeds" && unknown > p.unknownThreshold {
      blocked := true;
      errors := errors + [GateUnknownExceeds(unknown, p.unknownThreshold)];
    } else if unknown > 0 {
      warnings := [UnknownAdvisory(unknown, p.unknownMode)];
    }
    assert errors == ActionErrors(b.byAction, p.blockingActions) + UnknownErrors(p, unknown);
    assert warnings == UnknownWarnings(p, unknown);
    warnings := AddAdvisory(b, warnings);
    return Decision(blocked, errors, warnings, state);
  }

  function AuditWarnings(a: Artifact): seq<Message> {
    match a.state
    case Absent => [AuditAbsent]
    case Malformed => [AuditMalformed(a.loadError)]
    case Stale => [AuditStale(a.age)]
    case Fresh => []
  }

  /** What `evaluate_gate` decides. */
  function Gate(a: Artifact, p: Policy): Decision {
    if p.failMode == "audit" then
      var w := AuditWarnings(a);
      Decision(false, [], if a.disposition.Some? then AddAdvisory(a.disposition.value, w) else w, a.state)
    else if p.failMode == "strict" && a.state.Absent? then Decision(true, [AbsentError], [], a.state)
    else if p.failMode == "strict" && a.state.Malformed? then Decision(true, [MalformedError(a.loadError)], [], a.state)
    else if p.failMode == "permissive" && !a.state.Fresh? then Decision(false, [], [], a.state)
    else
      var d := Dispose(a.disposition, p, a.state);
      if p.failMode == "strict" && a.state.Stale? then d.(warnings := [StaleWarning(a.age)] + d.warnings) else d
  }

  method EvaluateGate(a: Artifact, p: Policy) returns (d: Decision)
    ensures d == Gate(a, p)
  {
    if p.failMode == "audit" {
      var warnings := AuditWarnings(a);
      if a.disposition.Some? {
        warnings := AddAdvisory(a.disposition.value, warnings);
      }
      return Decision(false, [], warnings, a.state);
    }
    if p.failMode == "strict" {
      if a.state.Absent? {
        return Decision(true, [AbsentError], [], a.state);
      }
      if a.state.Malformed? {
        return Decision(true, [MalformedError(a.loadError)], [], a.state);
      }
      if a.state.Stale? {
        d := EvaluateDisposition(a.disposition, p, a.state);
        d := d.(warnings := [StaleWarning(a.age)] + d.warnings);
        return;
      }
    }
    if p.failMode == "permissive" && !a.state.Fresh? {
      return Decision(false, [], [], a.state);
    }
    d := EvaluateDisposition(a.disposition, p, a.state);
  }

  // ---------------------------------------------------------------- when the gate blocks

  predicate ActionBlocks(byAction: map<Action, nat>, names: seq<string>) {
    exists i :: 0 <= i < |names| && CountNamed(byAction, names[i]) > 0
  }

  predicate UnknownBlocks(p: Policy, count: nat) {
    (p.unknownMode == "always_block" && count > 0)
    || (p.unknownMode == "block_if_count_exceeds" && count > p.unknownThreshold)
  }

  lemma {:induction false} ActionErrorsMeaning(byAction: map<Action, nat>, names: seq<string>)
    ensures ActionErrors(byAction, names) != [] <==> ActionBlocks(byAction, names)
  {
    hide CountNamed;
    if names != [] {
      ActionErrorsMeaning(byAction, names[1..]);
      assert forall i :: 0 < i < |names| ==> names[i] == names[1..][i - 1];
      if ActionBlocks(byAction, names[1..]) {
        var i :| 0 <= i < |names[1..]| && CountNamed(byAction, names[1..][i]) > 0;
        assert names[i + 1] == names[1..][i];
      }
    }
  }

  /**
   The gate blocks exactly when an absent or malformed artifact is read in strict mode, or a
   batch is evaluated (not in audit mode, and in permissive mode only if fresh) that holds a
   blocking action or too many unknowns; and it reports errors exactly when it blocks.
   */
  lemma GateBlocksIff(a: Artifact, p: Policy)
    ensures Gate(a, p).blocked <==>
      || (p.failMode == "strict" && (a.state.Absent? || a.state.Malformed?))
      || (p.failMode != "audit" && (p.failMode == "permissive" ==> a.state.Fresh?)
          && a.disposition.Some?
          && (ActionBlocks(a.disposition.value.byAction, p.blockingActions)
              || UnknownBlocks(p, a.disposition.value.unknownCount)))
    ensures Gate(a, p).blocked <==> Gate(a, p).errors != []
    ensures Gate(a, p).state == a.state
  {
    if a.disposition.Some? {
      ActionErrorsMeaning(a.disposition.value.byAction, p.blockingActions);
    }
    hide ActionErrors, ActionBlocks, AddAdvisory;
  }

  /** Under the default policy, gate and verdict on the same fresh batch. */
  lemma GateVersusVerdict(m: Matcher, extra: map<string, seq<string>>, tests: seq<string>, b: Batch, age: int)
    requires Tallies(b, ClassifyAll(m, extra, tests))
    ensures var blocked := Gate(Artifact(Fresh, Some(b), "", age), DEFAULT_POLICY).blocked;
      && (blocked ==> b.verdictBlocked)
      && (b.verdictBlocked && !blocked <==> b.byAction[ProductionFixRequired] == 0 && 1 <= b.unknownCount <= 3)
  {
    var ds := ClassifyAll(m, extra, tests);
    AllClassified(m, extra, tests);
    ActionsFollowKinds(ds);
    hide ClassifyAll, CountAction, CountKind, CountConfidence;
    GateBlocksIff(Artifact(Fresh, Some(b), "", age), DEFAULT_POLICY);
    assert DEFAULT_POLICY.blockingActions == ["production_fix_required"];
    ProductionNamed(b.byAction);
    hide CountNamed;
    assert ActionBlocks(b.byAction, ["production_fix_required"]) <==> b.byAction[ProductionFixRequired] > 0 by {
      assert ["production_fix_required"][0] == "production_fix_required";
    }
  }

  lemma ProductionNamed(byAction: map<Action, nat>)
    requires ProductionFixRequired in byAction
    ensures CountNamed(byAction, "production_fix_required") == byAction[ProductionFixRequired]
  {
  }

  // ---------------------------------------------------------------- more failures

  lemma {:induction false} ClassifyAllAppend(m: Matcher, extra: map<string, seq<string>>, a: seq<string>,
                                             b: seq<string>)
    ensures ClassifyAll(m, extra, a + b) == ClassifyAll(m, extra, a) + ClassifyAll(m, extra, b)
  {
    hide ClassifyOne;
    if b == [] {
      assert a + b == a;
    } else {
      var n := |b| - 1;
      assert (a + b)[..|a + b| - 1] == a + b[..n] && (a + b)[|a + b| - 1] == b[n];
      ClassifyAllAppend(m, extra, a, b[..n]);
      Associative(ClassifyAll(m, extra, a), ClassifyAll(m, extra, b[..n]), [ClassifyOne(m, extra, b[n])]);
    }
  }

  lemma {:induction false} CountsAppend(a: seq<Disposition>, b: seq<Disposition>, action: Action, kind: Kind)
    ensures CountAction(a + b, action) == CountAction(a, action) + CountAction(b, action)
    ensures CountKind(a + b, kind) == CountKind(a, kind) + CountKind(b, kind)
  {
    if b == [] {
      assert a + b == a;
    } else {
      var n := |b| - 1;
      assert (a + b)[..|a + b| - 1] == a + b[..n] && (a + b)[|a + b| - 1] == b[n];
      CountsAppend(a, b[..n], action, kind);
    }
  }

  /** Counts depend on which tests failed and how often, not on their order; more tests count at least as much. */
  lemma {:induction false} CountsMonotone(m: Matcher, extra: map<string, seq<string>>, some: seq<string>,
                                          more: seq<string>, action: Action, kind: Kind)
    requires multiset(some) <= multiset(more)
    ensures CountAction(ClassifyAll(m, extra, some), action) <= CountAction(ClassifyAll(m, extra, more), action)
    ensures CountKind(ClassifyAll(m, extra, some), kind) <= CountKind(ClassifyAll(m, extra, more), kind)
    decreases |some|
  {
    hide *;
    if some == [] {
      NoCounts(m, extra, action, kind);
    } else {
      var n := |some| - 1;
      var before, after := TakeOut(some, more);
      CountsMonotone(m, extra, some[..n], before + after, action, kind);
      CountsSplit(m, extra, some[..n], some[n], [], action, kind);
      assert some[..n] + [some[n]] + [] == some && some[..n] + [] == some[..n];
      CountsSplit(m, extra, before, some[n], after, action, kind);
    }
  }

  lemma NoCounts(m: Matcher, extra: map<string, seq<string>>, action: Action, kind: Kind)
    ensures CountAction(ClassifyAll(m, extra, []), action) == 0 && CountKind(ClassifyAll(m, extra, []), kind) == 0
  {
  }

  /** One test more or less in the middle of a batch. */
  lemma CountsSplit(m: Matcher, extra: map<string, seq<string>>, before: seq<string>, t: string, after: seq<string>,
                    action: Action, kind: Kind)
    ensures CountAction(ClassifyAll(m, extra, before + [t] + after), action)
         == CountAction(ClassifyAll(m, extra, before + after), action)
            + CountAction(ClassifyAll(m, extra, [t]), action)
    ensures CountKind(ClassifyAll(m, extra, before + [t] + after), kind)
         == CountKind(ClassifyAll(m, extra, before + after), kind) + CountKind(ClassifyAll(m, extra, [t]), kind)
  {
    hide ClassifyOne, CountAction, CountKind, ClassifyAll;
    var a, x, b := ClassifyAll(m, extra, before), ClassifyAll(m, extra, [t]), ClassifyAll(m, extra, after);
    ClassifyAllAppend(m, extra, before + [t], after);
    ClassifyAllAppend(m, extra, before, [t]);
    ClassifyAllAppend(m, extra, before, after);
    CountsAppend(a + x, b, action, kind);
    CountsAppend(a, x, action, kind);
    CountsAppend(a, b, action, kind);
  }

  /** Whatever the policy and the artifact's state, further failing tests never unblock the gate. */
  lemma MoreFailuresNeverUnblock(m: Matcher, extra: map<string, seq<string>>, some: seq<string>, more: seq<string>,
                                 b1: Batch, b2: Batch, a: Artifact, p: Policy)
    requires multiset(some) <= multiset(more)
    requires Tallies(b1, ClassifyAll(m, extra, some)) && Tallies(b2, ClassifyAll(m, extra, more))
    requires Gate(a.(disposition := Some(b1)), p).blocked
    ensures Gate(a.(disposition := Some(b2)), p).blocked
  {
    GateBlocksIff(a.(disposition := Some(b1)), p);
    GateBlocksIff(a.(disposition := Some(b2)), p);
    forall action, kind
      ensures CountAction(ClassifyAll(m, extra, some), action) <= CountAction(ClassifyAll(m, extra, more), action)
      ensures CountKind(ClassifyAll(m, extra, some), kind) <= CountKind(ClassifyAll(m, extra, more), kind)
    {
      CountsMonotone(m, extra, some, more, action, kind);
    }
    hide ClassifyAll, CountAction, CountKind, CountConfidence, Gate, CountNamed;
    forall name ensures CountNamed(b1.byAction, name) <= CountNamed(b2.byAction, name) {
      NamedMonotone(b1.byAction, b2.byAction, name);
    }
  }

  lemma NamedMonotone(a: map<Action, nat>, b: map<Action, nat>, name: string)
    requires forall action :: action in a && action in b && a[action] <= b[action]
    ensures CountNamed(a, name) <= CountNamed(b, name)
  {
  }
}
