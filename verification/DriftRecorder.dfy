/**
 The recorder of the governance drift check (`governance_drift_checker.py`): checks that
 stay failed once failed, findings, warnings and errors, the severity roll-up and what is
 reported to the risk signal. Main results hold for every sequence of recorder calls.
 */
module DriftRecorder {
  datatype Severity = Critical | Warning | OtherSeverity(name: string)

  datatype Finding = Finding(check: string, severity: Severity, detail: string)

  /** `Stale` is the direct write of the plan freshness check; `Note` only warns. */
  datatype Call =
    | Fail(check: string, severity: Severity, detail: string)
    | Pass(check: string)
    | Stale(text: string)
    | Note(text: string)

  const PLAN_FRESHNESS := "plan_freshness"

  datatype Record = Record(checks: map<string, bool>, findings: seq<Finding>, warnings: seq<string>,
                           errors: seq<string>)

  function Line(f: Finding): string {
    f.check + ": " + f.detail
  }

  function After(r: Record, c: Call): Record {
    match c
    case Fail(check, severity, detail) =>
      var f := Finding(check, severity, detail);
      var checks, findings := r.checks[check := false], r.findings + [f];
      if severity == Critical then Record(checks, findings, r.warnings, r.errors + [Line(f)])
      else Record(checks, findings, r.warnings + [Line(f)], r.errors)
    case Pass(check) => if check in r.checks then r else r.(checks := r.checks[check := true])
    case Stale(text) => r.(checks := r.checks[PLAN_FRESHNESS := false], warnings := r.warnings + [text])
    case Note(text) => r.(warnings := r.warnings + [text])
  }

  function Recorded(calls: seq<Call>): Record {
    if calls == [] then Record(map[], [], [], [])
    else After(Recorded(calls[..|calls| - 1]), calls[|calls| - 1])
  }

  class Recorder {
    var checks: map<string, bool>
    var findings: seq<Finding>
    var warnings: seq<string>
    var errors: seq<string>

    function State(): Record
      reads this
    {
      Record(checks, findings, warnings, errors)
    }

    constructor ()
      ensures State() == Recorded([])
    {
      checks, findings, warnings, errors := map[], [], [], [];
    }

    method Fail(check: string, severity: Severity, detail: string)
      modifies this
      ensures State() == After(old(State()), Call.Fail(check, severity, detail))
    {
      findings := findings + [Finding(check, severity, detail)];
      checks := checks[check := false];
      if severity == Critical {
        errors := errors + [check + ": " + detail];
      } else {
        warnings := warnings + [check + ": " + detail];
      }
    }

    method Pass(check: string)
      modifies this`checks
      ensures State() == After(old(State()), Call.Pass(check))
    {
      if check !in checks {
        checks := checks[check := true];
      }
      if checks[check] != false {
        checks := checks[check := true];
        assert check in old(checks) ==> checks == old(checks);
      }
    }

    method MarkStale(text: string)
      modifies this`checks, this`warnings
      ensures State() == After(old(State()), Stale(text))
    {
      checks := checks[PLAN_FRESHNESS := false];
      warnings := warnings + [text];
    }

    method Warn(text: string)
      modifies this`warnings
      ensures State() == After(old(State()), Note(text))
    {
      warnings := warnings + [text];
    }
  }

  // ---------------------------------------------------------------- checks

  predicate Mentions(c: Call, check: string) {
    match c
    case Fail(k, _, _) => k == check
    case Pass(k) => k == check
    case Stale(_) => check == PLAN_FRESHNESS
    case Note(_) => false
  }

  predicate Fails(c: Call, check: string) {
    !c.Pass? && Mentions(c, check)
  }

  lemma AfterCheck(r: Record, c: Call, check: string)
    ensures check in After(r, c).checks <==> check in r.checks || Mentions(c, check)
    ensures check in After(r, c).checks ==>
              (!After(r, c).checks[check] <==> (check in r.checks && !r.checks[check]) || Fails(c, check))
  {
    hide Line;
  }

  /** A check is known iff some call mentions it, and failed iff some call ever failed it. */
  lemma {:induction false} FailureIsSticky(calls: seq<Call>, check: string)
    ensures check in Recorded(calls).checks <==> exists i :: 0 <= i < |calls| && Mentions(calls[i], check)
    ensures check in Recorded(calls).checks ==>
              (!Recorded(calls).checks[check] <==> exists i :: 0 <= i < |calls| && Fails(calls[i], check))
  {
    if calls != [] {
      var n := |calls| - 1;
      FailureIsSticky(calls[..n], check);
      AfterCheck(Recorded(calls[..n]), calls[n], check);
      FailsMentions(calls[n], check);
      assert Recorded(calls) == After(Recorded(calls[..n]), calls[n]);
      hide Mentions, Fails, After, Recorded;
      assert forall i :: 0 <= i < n ==> calls[..n][i] == calls[i];
    }
  }

  lemma FailsMentions(c: Call, check: string)
    ensures Fails(c, check) ==> Mentions(c, check)
  {
  }

  // ---------------------------------------------------------------- findings and verdict

  /** The findings of the given sort, in order. */
  function Findings(findings: seq<Finding>, critical: bool): seq<Finding> {
    if findings == [] then []
    else
      Findings(findings[..|findings| - 1], critical)
      + (if (findings[|findings| - 1].severity == Critical) == critical then [findings[|findings| - 1]] else [])
  }

  function Lines(findings: seq<Finding>): seq<string> {
    if findings == [] then [] else Lines(findings[..|findings| - 1]) + [Line(findings[|findings| - 1])]
  }

  function Extra(calls: seq<Call>): nat {
    if calls == [] then 0
    else Extra(calls[..|calls| - 1]) + (if calls[|calls| - 1].Stale? || calls[|calls| - 1].Note? then 1 else 0)
  }

  lemma FindingsSnoc(findings: seq<Finding>, f: Finding, critical: bool)
    ensures Findings(findings + [f], critical)
         == if (f.severity == Critical) == critical then Findings(findings, critical) + [f]
            else Findings(findings, critical)
    ensures Lines(findings + [f]) == Lines(findings) + [Line(f)]
  {
    hide Line;
    assert (findings + [f])[..|findings|] == findings;
    assert Findings(findings, critical) + [] == Findings(findings, critical);
  }

  lemma AfterFailure(r: Record, c: Call)
    requires c.Fail? && r.errors == Lines(Findings(r.findings, true))
    ensures var s, f := After(r, c), Finding(c.check, c.severity, c.detail);
      && s.findings == r.findings + [f] && s.errors == Lines(Findings(s.findings, true))
      && |s.warnings| - |r.warnings| == |Findings(s.findings, false)| - |Findings(r.findings, false)|
      && |s.errors| + |s.warnings| == |r.errors| + |r.warnings| + 1
  {
    var f := Finding(c.check, c.severity, c.detail);
    FindingsSnoc(r.findings, f, true);
    FindingsSnoc(r.findings, f, false);
    FindingsSnoc(Findings(r.findings, true), f, true);
    hide Lines, Findings, Line;
  }

  lemma AfterDirect(r: Record, c: Call)
    requires !c.Fail?
    ensures After(r, c).findings == r.findings && After(r, c).errors == r.errors
    ensures |After(r, c).warnings| == |r.warnings| + (if c.Stale? || c.Note? then 1 else 0)
  {
  }

  /**
   The errors are the critical findings, one line each and in order; every other finding is
   a warning, and nothing else is but the direct warnings.
   */
  lemma {:induction false} ErrorsAreCriticalFindings(calls: seq<Call>)
    ensures Recorded(calls).errors == Lines(Findings(Recorded(calls).findings, true))
    ensures |Recorded(calls).warnings| == |Findings(Recorded(calls).findings, false)| + Extra(calls)
    ensures |Recorded(calls).errors| + |Recorded(calls).warnings| == |Recorded(calls).findings| + Extra(calls)
  {
    if calls != [] {
      var n := |calls| - 1;
      ErrorsAreCriticalFindings(calls[..n]);
      assert Recorded(calls) == After(Recorded(calls[..n]), calls[n]);
      hide Lines, Findings, After, Recorded;
      if calls[n].Fail? {
        AfterFailure(Recorded(calls[..n]), calls[n]);
      } else {
        AfterDirect(Recorded(calls[..n]), calls[n]);
      }
    }
  }

  lemma {:induction false} LinesLength(findings: seq<Finding>)
    ensures |Lines(findings)| == |findings|
  {
    if findings != [] { LinesLength(findings[..|findings| - 1]); }
  }

  predicate HasFinding(findings: seq<Finding>, severity: Severity) {
    exists i :: 0 <= i < |findings| && findings[i].severity == severity
  }

  datatype Verdict = Verdict(ok: bool, severity: string)

  function VerdictOf(r: Record): Verdict {
    var critical := HasFinding(r.findings, Critical);
    Verdict(!critical, if critical then "critical" else if HasFinding(r.findings, Warning) then "warning" else "ok")
  }

  predicate FailsWith(c: Call, severity: Severity) {
    c.Fail? && c.severity == severity
  }

  lemma {:induction false} FindingsAreFailures(calls: seq<Call>, severity: Severity)
    ensures HasFinding(Recorded(calls).findings, severity)
         <==> exists i :: 0 <= i < |calls| && FailsWith(calls[i], severity)
  {
    if calls != [] {
      var n := |calls| - 1;
      FindingsAreFailures(calls[..n], severity);
      hide Line;
      var r, s := Recorded(calls[..n]), Recorded(calls);
      assert forall i :: 0 <= i < n ==> calls[..n][i] == calls[i];
      if calls[n].Fail? {
        assert s.findings[|r.findings|].severity == calls[n].severity;
        assert FailsWith(calls[n], severity) || !FailsWith(calls[n], severity);
        assert forall i :: 0 <= i < |r.findings| ==> s.findings[i] == r.findings[i];
      }
    }
  }

  lemma {:induction false} CriticalFound(findings: seq<Finding>)
    ensures Findings(findings, true) != [] <==> HasFinding(findings, Critical)
  {
    if findings != [] {
      var n := |findings| - 1;
      CriticalFound(findings[..n]);
      FindingsSnoc(findings[..n], findings[n], true);
      assert findings == findings[..n] + [findings[n]];
      assert forall i :: 0 <= i < n ==> findings[..n][i] == findings[i];
    }
  }

  /** Ok means no errors, that is, no critical failure in any call; the severity is the worst one. */
  lemma VerdictMeaning(calls: seq<Call>)
    ensures var r := Recorded(calls);
      && (VerdictOf(r).ok <==> r.errors == [])
      && (VerdictOf(r).ok <==> forall i :: 0 <= i < |calls| ==> !FailsWith(calls[i], Critical))
      && (VerdictOf(r).severity == "ok"
          <==> forall i :: 0 <= i < |calls| ==> !FailsWith(calls[i], Critical) && !FailsWith(calls[i], Warning))
  {
    var r := Recorded(calls);
    ErrorsAreCriticalFindings(calls);
    CriticalFound(r.findings);
    LinesLength(Findings(r.findings, true));
    FindingsAreFailures(calls, Critical);
    FindingsAreFailures(calls, Warning);
    hide Recorded, Findings, Lines;
  }

  /** The calls the checker makes: failures are critical or warnings. */
  predicate Graded(calls: seq<Call>) {
    forall i :: 0 <= i < |calls| && calls[i].Fail? ==> calls[i].severity == Critical || calls[i].severity == Warning
  }

  /**
   The verdict may be "ok" although a check is recorded as failed: exactly when nothing
   failed but the plan was found stale, which leaves no finding.
   */
  lemma SilentFailureIff(calls: seq<Call>)
    requires Graded(calls)
    ensures var r := Recorded(calls);
      (VerdictOf(r).severity == "ok" && exists check :: check in r.checks && !r.checks[check])
      <==> (forall i :: 0 <= i < |calls| ==> !calls[i].Fail?) && exists i :: 0 <= i < |calls| && calls[i].Stale?
  {
    var r := Recorded(calls);
    VerdictMeaning(calls);
    hide Recorded, VerdictOf;
    FailureIsSticky(calls, PLAN_FRESHNESS);
    if i :| 0 <= i < |calls| && calls[i].Stale? {
      assert Fails(calls[i], PLAN_FRESHNESS) && Mentions(calls[i], PLAN_FRESHNESS);
    }
    if VerdictOf(r).severity == "ok" {
      forall i | 0 <= i < |calls| ensures !calls[i].Fail? {
        assert !FailsWith(calls[i], Critical) && !FailsWith(calls[i], Warning);
      }
      if check :| check in r.checks && !r.checks[check] {
        FailureIsSticky(calls, check);
      }
    }
  }

  /** A run in which one check passed and the plan was stale is "ok" with a failed check. */
  lemma SilentFailureExample()
    ensures var r := Recorded([Pass("baseline_yaml_present"), Stale("plan is stale")]);
      VerdictOf(r) == Verdict(true, "ok") && r.checks == map["baseline_yaml_present" := true, PLAN_FRESHNESS := false]
  {
    var calls := [Pass("baseline_yaml_present"), Stale("plan is stale")];
    assert calls[..1] == [Pass("baseline_yaml_present")] && calls[..1][..0] == [];
    assert Recorded(calls[..1]) == Record(map["baseline_yaml_present" := true], [], [], []);
  }

  lemma SameChecks(calls: seq<Call>, permuted: seq<Call>, check: string)
    requires forall c :: c in calls <==> c in permuted
    ensures var a, b := Recorded(calls).checks, Recorded(permuted).checks;
      (check in a <==> check in b) && (check in a ==> a[check] == b[check])
  {
    FailureIsSticky(calls, check);
    FailureIsSticky(permuted, check);
    SameOccurrences(calls, permuted, check);
    hide *;
  }

  lemma SameFindings(calls: seq<Call>, permuted: seq<Call>, severity: Severity)
    requires forall c :: c in calls <==> c in permuted
    ensures HasFinding(Recorded(calls).findings, severity) <==> HasFinding(Recorded(permuted).findings, severity)
  {
    FindingsAreFailures(calls, severity);
    FindingsAreFailures(permuted, severity);
    hide *;
    forall i | 0 <= i < |calls| ensures exists j :: 0 <= j < |permuted| && permuted[j] == calls[i] {
      assert calls[i] in permuted;
    }
    forall i | 0 <= i < |permuted| ensures exists j :: 0 <= j < |calls| && calls[j] == permuted[i] {
      assert permuted[i] in calls;
    }
  }

  /** What is recorded of the checks, and the verdict, do not depend on the order of the calls. */
  lemma RecordOrderFree(calls: seq<Call>, permuted: seq<Call>)
    requires multiset(calls) == multiset(permuted)
    ensures Recorded(calls).checks == Recorded(permuted).checks
    ensures VerdictOf(Recorded(calls)) == VerdictOf(Recorded(permuted))
  {
    hide Recorded, HasFinding;
    assert forall c :: c in calls <==> c in multiset(calls);
    assert forall c :: c in permuted <==> c in multiset(permuted);
    var a, b := Recorded(calls).checks, Recorded(permuted).checks;
    forall check ensures (check in a <==> check in b) && (check in a ==> a[check] == b[check]) {
      SameChecks(calls, permuted, check);
    }
    SameFindings(calls, permuted, Critical);
    SameFindings(calls, permuted, Warning);
  }

  lemma SameOccurrences(calls: seq<Call>, permuted: seq<Call>, check: string)
    requires forall c :: c in calls <==> c in permuted
    ensures (exists i :: 0 <= i < |calls| && Mentions(calls[i], check))
       <==> exists i :: 0 <= i < |permuted| && Mentions(permuted[i], check)
    ensures (exists i :: 0 <= i < |calls| && Fails(calls[i], check))
       <==> exists i :: 0 <= i < |permuted| && Fails(permuted[i], check)
  {
    hide Mentions, Fails;
    forall i | 0 <= i < |calls| ensures exists j :: 0 <= j < |permuted| && permuted[j] == calls[i] {
      assert calls[i] in permuted;
    }
    forall i | 0 <= i < |permuted| ensures exists j :: 0 <= j < |calls| && calls[j] == permuted[i] {
      assert permuted[i] in calls;
    }
  }

  // ---------------------------------------------------------------- emission

  /** Components whose protection a failed critical check puts in doubt. */
  const COMPONENT_OF: map<string, string> := map[
    "baseline_yaml_present" := "drift_baseline_integrity",
    "protected_files_present" := "runtime_enforcement_entrypoint",
    "protected_files_unmodified" := "runtime_enforcement_entrypoint",
    "protected_file_sentinel_present" := "drift_baseline_integrity",
    "contract_required_fields_present" := "drift_baseline_integrity"]

  /** What a run of the check asks of the risk signal. */
  datatype Emission = WriteSignal(affected: set<string>) | ClearSignal | LeaveSignal

  function Affected(findings: seq<Finding>): set<string> {
    set f | f in findings && f.severity == Critical && f.check in COMPONENT_OF :: COMPONENT_OF[f.check]
  }

  function Emit(r: Record): Emission {
    if !HasFinding(r.findings, Critical) then ClearSignal
    else if Affected(r.findings) == {} then LeaveSignal
    else WriteSignal(Affected(r.findings))
  }

  lemma {:induction false} FindingRecorded(calls: seq<Call>, c: Call)
    requires c.Fail?
    ensures c in calls <==> Finding(c.check, c.severity, c.detail) in Recorded(calls).findings
  {
    if calls != [] {
      var n := |calls| - 1;
      FindingRecorded(calls[..n], c);
      hide Line;
      assert calls == calls[..n] + [calls[n]];
    }
  }

  /** A call is a critical failure of the component. */
  predicate Harms(c: Call, component: string) {
    FailsWith(c, Critical) && c.check in COMPONENT_OF && COMPONENT_OF[c.check] == component
  }

  predicate Harmed(calls: seq<Call>, component: string) {
    exists i :: 0 <= i < |calls| && Harms(calls[i], component)
  }

  lemma AffectedMeaning(calls: seq<Call>, component: string)
    ensures component in Affected(Recorded(calls).findings) <==> Harmed(calls, component)
  {
    hide Recorded;
    var findings := Recorded(calls).findings;
    var components := COMPONENT_OF;
    if i :| 0 <= i < |calls| && Harms(calls[i], component) {
      FindingRecorded(calls, calls[i]);
      assert Finding(calls[i].check, Critical, calls[i].detail) in findings;
    }
    if component in Affected(findings) {
      var f :| f in findings && f.severity == Critical && f.check in components && components[f.check] == component;
      var c := Call.Fail(f.check, f.severity, f.detail);
      FindingRecorded(calls, c);
      var i :| 0 <= i < |calls| && calls[i] == c;
      assert Harms(calls[i], component);
    }
  }

  /**
   A run clears the signal iff nothing failed critically, writes it iff a critical failure
   has a component, naming exactly these, and otherwise leaves an earlier signal standing.
   */
  lemma EmitMeaning(calls: seq<Call>)
    ensures var e := Emit(Recorded(calls));
      && (e.ClearSignal? <==> forall i :: 0 <= i < |calls| ==> !FailsWith(calls[i], Critical))
      && (e.WriteSignal? <==> exists component :: Harmed(calls, component))
      && (e.WriteSignal? ==> forall component :: component in e.affected <==> Harmed(calls, component))
  {
    FindingsAreFailures(calls, Critical);
    forall component ensures component in Affected(Recorded(calls).findings) <==> Harmed(calls, component) {
      AffectedMeaning(calls, component);
    }
    forall component | Harmed(calls, component) ensures exists i :: 0 <= i < |calls| && FailsWith(calls[i], Critical) {
      var i :| 0 <= i < |calls| && Harms(calls[i], component);
      HarmIsCritical(calls[i], component);
    }
    hide Recorded, Affected, Harmed, FailsWith, HasFinding;
    var affected := Affected(Recorded(calls).findings);
    if affected != {} {
      var component :| component in affected;
      assert Harmed(calls, component);
    }
  }

  lemma HarmIsCritical(c: Call, component: string)
    requires Harms(c, component)
    ensures FailsWith(c, Critical)
  {
  }
}
