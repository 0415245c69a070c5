/**
 The framework risk signal (`framework_risk_signal.py`): one file that is overwritten,
 expires after 48 hours and is cleared with or without regard to its source; the overrides
 derived from it; and the level a session then starts at (`session_start.py`). Main results
 hold for every run of writes and clears, and join the drift recorder to the session.
 */
module RiskSignal {
  import opened Text
  import opened DriftRecorder

  const KNOWN_COMPONENTS: set<string> := {
    "task_level_detection", "domain_contract_loading", "summary_first_gate", "rule_selection",
    "runtime_enforcement_entrypoint", "runtime_enforcement_quality_trend", "drift_baseline_integrity"}

  const SIGNAL_VERSION := 1
  const FRAMEWORK_SCOPE := "framework"
  const DRIFT_SOURCE := "governance_drift_checker"

  /** Times are in microseconds. */
  const HOUR := 3_600_000_000
  const DEFAULT_MAX_AGE_HOURS := 48

  datatype Signal = Signal(version: int, generatedAt: string, severity: string, affected: seq<string>, source: string,
                           scope: string)

  /** The signal file: missing, not JSON, or a document. */
  datatype Slot = Absent | Unreadable | Stored(signal: Signal)

  /** Printing and parsing of times; a printed time parses back. */
  datatype Clock = Clock(iso: int -> string, parse: string -> Option<int>)

  ghost predicate LawfulClock(k: Clock) {
    forall t :: k.parse(k.iso(t)) == Some(t)
  }

  // ---------------------------------------------------------------- writing, clearing, reading

  datatype Action =
    | Write(affected: seq<string>, severity: string, source: string)
    | Clear
    | ClearFor(source: string)

  function Known(components: seq<string>): seq<string> {
    if components == [] then []
    else Known(components[..|components| - 1])
         + (if components[|components| - 1] in KNOWN_COMPONENTS then [components[|components| - 1]] else [])
  }

  function SignalOf(k: Clock, at: int, a: Action): Signal
    requires a.Write?
  {
    Signal(SIGNAL_VERSION, k.iso(at), a.severity, Known(a.affected), a.source, FRAMEWORK_SCOPE)
  }

  function Act(k: Clock, slot: Slot, at: int, a: Action): Slot {
    match a
    case Write(_, _, _) => Stored(SignalOf(k, at, a))
    case Clear => Absent
    case ClearFor(source) => if slot.Stored? && slot.signal.source == source then Absent else slot
  }

  /** `read_risk_signal`; a signal from the future has a negative age and is readable. */
  function Read(k: Clock, slot: Slot, now: int, maxAgeHours: int): Option<Signal> {
    if !slot.Stored? || slot.signal.scope != FRAMEWORK_SCOPE || slot.signal.version != SIGNAL_VERSION then None
    else
      var generated := k.parse(slot.signal.generatedAt);
      if generated.None? || now - generated.value > maxAgeHours * HOUR then None else Some(slot.signal)
  }

  // ---------------------------------------------------------------- runs

  datatype Step = Step(at: int, action: Action)

  function Run(k: Clock, slot: Slot, steps: seq<Step>): Slot {
    if steps == [] then slot
    else Act(k, Run(k, slot, steps[..|steps| - 1]), steps[|steps| - 1].at, steps[|steps| - 1].action)
  }

  /** The action removes or replaces a signal of the source. */
  predicate Erases(a: Action, source: string) {
    a.Write? || a.Clear? || a.source == source
  }

  /** Step `i` writes, and no later step erases what it wrote. */
  predicate Standing(steps: seq<Step>, i: int) {
    && 0 <= i < |steps| && steps[i].action.Write?
    && forall j :: i < j < |steps| ==> !Erases(steps[j].action, steps[i].action.source)
  }

  lemma StandingSnoc(steps: seq<Step>, last: Step, i: int)
    ensures Standing(steps + [last], i)
       <==> if i == |steps| then last.action.Write?
            else Standing(steps, i) && !Erases(last.action, steps[i].action.source)
  {
    var all := steps + [last];
    if 0 <= i < |steps| {
      assert all[i] == steps[i];
      assert all[|steps|] == last;
      assert forall j :: i < j < |steps| ==> all[j] == steps[j];
    }
  }

  /** After a run from no signal the file holds exactly the standing write, if there is one. */
  lemma {:induction false} StandingIsStored(k: Clock, steps: seq<Step>)
    ensures forall i :: Standing(steps, i) ==>
              Run(k, Absent, steps) == Stored(SignalOf(k, steps[i].at, steps[i].action))
    ensures Run(k, Absent, steps) == Absent || exists i :: Standing(steps, i)
  {
    hide Standing, Erases;
    if steps == [] {
      NothingStands();
    } else {
      var n := |steps| - 1;
      var before, last := steps[..n], steps[n];
      assert steps == before + [last];
      StandingIsStored(k, before);
      StandingStep(k, before, last);
    }
  }

  lemma NothingStands()
    ensures forall i :: !Standing([], i)
  {
  }

  lemma StandingStep(k: Clock, before: seq<Step>, last: Step)
    requires forall i :: Standing(before, i) ==>
               Run(k, Absent, before) == Stored(SignalOf(k, before[i].at, before[i].action))
    requires Run(k, Absent, before) == Absent || exists i :: Standing(before, i)
    ensures forall i :: Standing(before + [last], i) ==>
              Run(k, Absent, before + [last])
                   == Stored(SignalOf(k, (before + [last])[i].at, (before + [last])[i].action))
    ensures Run(k, Absent, before + [last]) == Absent || exists i :: Standing(before + [last], i)
  {
    var steps := before + [last];
    assert steps[..|steps| - 1] == before;
    hide Standing;
    forall i | Standing(steps, i)
      ensures Run(k, Absent, steps) == Stored(SignalOf(k, steps[i].at, steps[i].action))
    {
      StandingSnoc(before, last, i);
    }
    if Run(k, Absent, steps) != Absent {
      if last.action.Write? {
        StandingSnoc(before, last, |before|);
        assert Standing(steps, |before|);
      } else {
        var i :| Standing(before, i);
        StandingSnoc(before, last, i);
        assert Standing(steps, i);
      }
    }
  }

  /** A signal is readable iff a write stands and is at most the given number of hours old. */
  lemma {:induction false} ReadableIff(k: Clock, steps: seq<Step>, now: int, maxAgeHours: int)
    requires LawfulClock(k)
    ensures Read(k, Run(k, Absent, steps), now, maxAgeHours).Some?
       <==> exists i :: Standing(steps, i) && now - steps[i].at <= maxAgeHours * HOUR
    ensures forall i :: Standing(steps, i) && now - steps[i].at <= maxAgeHours * HOUR ==>
              Read(k, Run(k, Absent, steps), now, maxAgeHours) == Some(SignalOf(k, steps[i].at, steps[i].action))
  {
    StandingIsStored(k, steps);
    hide Run, Erases;
    forall i | Standing(steps, i)
      ensures Read(k, Run(k, Absent, steps), now, maxAgeHours)
           == if now - steps[i].at <= maxAgeHours * HOUR then Some(SignalOf(k, steps[i].at, steps[i].action)) else None
    {
      assert k.parse(k.iso(steps[i].at)) == Some(steps[i].at);
    }
  }

  /** The steps without the scoped clears of one source. */
  function WithoutClears(steps: seq<Step>, source: string): seq<Step> {
    if steps == [] then []
    else WithoutClears(steps[..|steps| - 1], source)
         + (if steps[|steps| - 1].action == ClearFor(source) then [] else [steps[|steps| - 1]])
  }

  /** A source that never wrote cannot be noticed by its clears, in any run. */
  lemma {:induction false} ForeignClearsInvisible(k: Clock, slot: Slot, steps: seq<Step>, source: string)
    requires forall i :: 0 <= i < |steps| && steps[i].action.Write? ==> steps[i].action.source != source
    requires slot.Stored? ==> slot.signal.source != source
    ensures Run(k, slot, steps) == Run(k, slot, WithoutClears(steps, source))
    ensures Run(k, slot, steps).Stored? ==> Run(k, slot, steps).signal.source != source
  {
    if steps != [] {
      var n := |steps| - 1;
      ForeignClearsInvisible(k, slot, steps[..n], source);
      var kept := WithoutClears(steps[..n], source);
      if steps[n].action == ClearFor(source) {
        assert kept + [] == kept;
      } else {
        assert (kept + [steps[n]])[..|kept|] == kept;
      }
    }
  }

  /** Steps that erase nothing of the source of a stored signal keep it. */
  lemma {:induction false} SignalKept(k: Clock, signal: Signal, steps: seq<Step>)
    requires forall i :: 0 <= i < |steps| ==> !Erases(steps[i].action, signal.source)
    ensures Run(k, Stored(signal), steps) == Stored(signal)
  {
    if steps != [] {
      SignalKept(k, signal, steps[..|steps| - 1]);
      assert !Erases(steps[|steps| - 1].action, signal.source);
    }
  }

  // ---------------------------------------------------------------- overrides

  /** The keys an override may set. */
  datatype Override = Override(minTaskLevel: Option<string>, disableSummaryFirst: Option<bool>)

  const NO_OVERRIDE := Override(None, None)
  const L1_ONLY := Override(Some("L1"), None)
  const L1_NO_SUMMARY := Override(Some("L1"), Some(true))

  const COMPONENT_OVERRIDES: map<string, Override> := map[
    "task_level_detection" := L1_ONLY,
    "domain_contract_loading" := L1_NO_SUMMARY,
    "summary_first_gate" := L1_NO_SUMMARY,
    "rule_selection" := L1_ONLY,
    "runtime_enforcement_entrypoint" := L1_ONLY,
    "runtime_enforcement_quality_trend" := L1_ONLY,
    "drift_baseline_integrity" := L1_ONLY]

  function LevelRank(level: string): nat {
    if level == "L1" then 1 else if level == "L2" then 2 else 0
  }

  function Entry(table: map<string, Override>, component: string): Override {
    if component in table then table[component] else NO_OVERRIDE
  }

  /**
   `m` merges the entries of these components: the level of greatest rank and the
   disjunction of the flags, each present iff some entry sets it.
   */
  predicate Merges(table: map<string, Override>, components: set<string>, m: Override) {
    && (m.minTaskLevel.None? ==> forall c :: c in components ==> Entry(table, c).minTaskLevel.None?)
    && (m.minTaskLevel.Some? ==>
          && (exists c :: c in components && Entry(table, c).minTaskLevel == m.minTaskLevel)
          && forall c :: c in components && Entry(table, c).minTaskLevel.Some? ==>
                LevelRank(Entry(table, c).minTaskLevel.value) <= LevelRank(m.minTaskLevel.value))
    && (m.disableSummaryFirst.None? ==> forall c :: c in components ==> Entry(table, c).disableSummaryFirst.None?)
    && (m.disableSummaryFirst.Some? ==>
          && (exists c :: c in components && Entry(table, c).disableSummaryFirst.Some?)
          && (m.disableSummaryFirst.value
              <==> exists c :: c in components && Entry(table, c).disableSummaryFirst == Some(true)))
  }

  method ComputeOverrides(table: map<string, Override>, components: seq<string>) returns (m: Override)
    ensures Merges(table, Members(components), m)
  {
    m := NO_OVERRIDE;
    ghost var seen: set<string> := {};
    for i := 0 to |components|
      invariant seen == Members(components[..i])
      invariant Merges(table, seen, m)
    {
      ghost var before := m;
      var o := Entry(table, components[i]);
      if o.minTaskLevel.Some? {
        if m.minTaskLevel.None? || LevelRank(o.minTaskLevel.value) > LevelRank(m.minTaskLevel.value) {
          m := m.(minTaskLevel := o.minTaskLevel);
        }
      }
      if o.disableSummaryFirst.Some? {
        m := m.(disableSummaryFirst :=
          Some((m.disableSummaryFirst.Some? && m.disableSummaryFirst.value) || o.disableSummaryFirst.value));
      }
      MergeStep(table, seen, components[i], before, m);
      seen := seen + {components[i]};
      assert components[..i + 1] == components[..i] + [components[i]];
    }
    assert components[..|components|] == components;
  }

  lemma MergeStep(table: map<string, Override>, seen: set<string>, c: string, before: Override, m: Override)
    requires Merges(table, seen, before)
    requires var o := Entry(table, c);
      && m.minTaskLevel == (if o.minTaskLevel.Some? && (before.minTaskLevel.None?
                                || LevelRank(o.minTaskLevel.value) > LevelRank(before.minTaskLevel.value))
                            then o.minTaskLevel else before.minTaskLevel)
      && m.disableSummaryFirst == (if o.disableSummaryFirst.Some?
                                   then Some((before.disableSummaryFirst.Some? && before.disableSummaryFirst.value)
                                             || o.disableSummaryFirst.value)
                                   else before.disableSummaryFirst)
    ensures Merges(table, seen + {c}, m)
  {
    hide LevelRank, Entry;
    assert c in seen + {c};
    assert forall x :: x in seen ==> x in seen + {c};
    assert forall x :: x in seen + {c} ==> x in seen || x == c;
  }

  /** Levels of one rank are the same level, as in the table of the source. */
  predicate RanksSeparate(table: map<string, Override>) {
    forall c, d ::
      (&& c in table && d in table && table[c].minTaskLevel.Some? && table[d].minTaskLevel.Some?
       && LevelRank(table[c].minTaskLevel.value) == LevelRank(table[d].minTaskLevel.value))
      ==> table[c].minTaskLevel == table[d].minTaskLevel
  }

  lemma OverridesSeparate()
    ensures RanksSeparate(COMPONENT_OVERRIDES)
  {
  }

  /**
   More components only strengthen the overrides; so two listings of the same components,
   in any order, give the same ones.
   */
  lemma OverridesMonotone(table: map<string, Override>, some: set<string>, more: set<string>, m: Override, m': Override)
    requires some <= more && Merges(table, some, m) && Merges(table, more, m')
    ensures m.minTaskLevel.Some? ==>
              m'.minTaskLevel.Some? && LevelRank(m.minTaskLevel.value) <= LevelRank(m'.minTaskLevel.value)
    ensures m.disableSummaryFirst.Some? ==> m'.disableSummaryFirst.Some?
    ensures m.disableSummaryFirst == Some(true) ==> m'.disableSummaryFirst == Some(true)
  {
    hide LevelRank, Entry;
  }

  lemma OverridesOrderFree(table: map<string, Override>, components: set<string>, m: Override, m': Override)
    requires RanksSeparate(table) && Merges(table, components, m) && Merges(table, components, m')
    ensures m == m'
  {
    OverridesMonotone(table, components, components, m, m');
    OverridesMonotone(table, components, components, m', m);
    hide LevelRank;
  }

  /** The source's own table: two listings of the same components give equal overrides. */
  lemma TableOrderFree(a: seq<string>, b: seq<string>, m: Override, m': Override)
    requires Members(a) == Members(b)
    requires Merges(COMPONENT_OVERRIDES, Members(a), m) && Merges(COMPONENT_OVERRIDES, Members(b), m')
    ensures m == m'
  {
    OverridesSeparate();
    hide Merges, RanksSeparate;
    OverridesOrderFree(COMPONENT_OVERRIDES, Members(a), m, m');
  }

  /** The level a session starts at: only ever raised. */
  function StartLevel(level: string, m: Override): string {
    if m.minTaskLevel.Some? && m.minTaskLevel.value != "" && LevelRank(m.minTaskLevel.value) > LevelRank(level)
    then m.minTaskLevel.value else level
  }

  // ---------------------------------------------------------------- the file

  class SignalFile {
    var slot: Slot

    constructor ()
      ensures slot == Absent
    {
      slot := Absent;
    }

    method WriteSignal(k: Clock, at: int, affected: seq<string>, severity: string, source: string)
      modifies this
      ensures slot == Act(k, old(slot), at, Write(affected, severity, source))
    {
      var known: seq<string> := [];
      for i := 0 to |affected|
        invariant known == Known(affected[..i])
        invariant slot == old(slot)
      {
        assert affected[..i + 1][..i] == affected[..i];
        if affected[i] in KNOWN_COMPONENTS {
          known := known + [affected[i]];
        } else {
          assert known + [] == known;
        }
      }
      assert affected[..|affected|] == affected;
      slot := Stored(Signal(SIGNAL_VERSION, k.iso(at), severity, known, source, FRAMEWORK_SCOPE));
    }

    /** `locked` is true when the file cannot be deleted. */
    method ClearSignal(k: Clock, at: int, locked: bool) returns (deleted: bool)
      modifies this
      ensures slot == if locked then old(slot) else Act(k, old(slot), at, Clear)
      ensures deleted <==> old(slot) != slot
    {
      if slot == Absent || locked {
        return false;
      }
      slot := Absent;
      return true;
    }

    method ClearSignalForSource(k: Clock, at: int, source: string, locked: bool) returns (deleted: bool)
      modifies this
      ensures slot == if locked then old(slot) else Act(k, old(slot), at, ClearFor(source))
      ensures deleted <==> old(slot) != slot
    {
      if slot.Absent? || slot.Unreadable? || slot.signal.source != source || locked {
        return false;
      }
      slot := Absent;
      return true;
    }

    method ReadSignal(k: Clock, now: int, maxAgeHours: int) returns (r: Option<Signal>)
      ensures r == Read(k, slot, now, maxAgeHours)
    {
      if slot.Absent? || slot.Unreadable? {
        return None;
      }
      if slot.signal.scope != FRAMEWORK_SCOPE || slot.signal.version != SIGNAL_VERSION {
        return None;
      }
      var generated := k.parse(slot.signal.generatedAt);
      if generated.None? || now - generated.value > maxAgeHours * HOUR {
        return None;
      }
      return Some(slot.signal);
    }

    /** The end of a drift run; `listing` is the order in which the set of components is listed. */
    method EmitDrift(k: Clock, at: int, record: Record, listing: seq<string>, locked: bool)
      requires Emit(record).WriteSignal? ==> Members(listing) == Emit(record).affected
      modifies this
      ensures slot == if locked && Emit(record).ClearSignal? then old(slot)
                      else Emitted(k, old(slot), at, record, listing)
    {
      if HasFinding(record.findings, Critical) {
        if Affected(record.findings) != {} {
          WriteSignal(k, at, listing, "critical", DRIFT_SOURCE);
        }
      } else {
        var _ := ClearSignal(k, at, locked);
      }
    }
  }

  function Emitted(k: Clock, slot: Slot, at: int, record: Record, listing: seq<string>): Slot {
    match Emit(record)
    case ClearSignal => Act(k, slot, at, Clear)
    case LeaveSignal => slot
    case WriteSignal(_) => Act(k, slot, at, Write(listing, "critical", DRIFT_SOURCE))
  }

  // ---------------------------------------------------------------- from drift to session

  lemma ComponentsKnown()
    ensures forall check :: check in COMPONENT_OF ==> COMPONENT_OF[check] in KNOWN_COMPONENTS
    ensures forall c :: c in KNOWN_COMPONENTS ==> Entry(COMPONENT_OVERRIDES, c).minTaskLevel == Some("L1")
  {
  }

  lemma {:induction false} KnownMembers(components: seq<string>, c: string)
    ensures c in Known(components) <==> c in components && c in KNOWN_COMPONENTS
  {
    if components != [] {
      KnownMembers(components[..|components| - 1], c);
      assert components == components[..|components| - 1] + [components[|components| - 1]];
    }
  }

  /**
   A drift run in which a check with a component fails critically keeps every session off
   the lowest level for 48 hours, whatever was stored before and whatever clears other
   sources make, until the signal is rewritten, cleared, or cleared by the drift check.
   */
  lemma CriticalDriftRaisesSessions(k: Clock, slot: Slot, at: int, calls: seq<Call>, listing: seq<string>,
                                    later: seq<Step>, now: int, m: Override, level: string)
    requires LawfulClock(k)
    requires exists component :: Harmed(calls, component)
    requires Emit(Recorded(calls)).WriteSignal? ==> Members(listing) == Emit(Recorded(calls)).affected
    requires forall i :: 0 <= i < |later| ==> !Erases(later[i].action, DRIFT_SOURCE)
    requires now - at <= DEFAULT_MAX_AGE_HOURS * HOUR
    requires var r := Read(k, Run(k, Emitted(k, slot, at, Recorded(calls), listing), later), now,
                           DEFAULT_MAX_AGE_HOURS);
      r.Some? ==> Merges(COMPONENT_OVERRIDES, Members(r.value.affected), m)
    ensures Read(k, Run(k, Emitted(k, slot, at, Recorded(calls), listing), later), now, DEFAULT_MAX_AGE_HOURS)
         == Some(SignalOf(k, at, Write(listing, "critical", DRIFT_SOURCE)))
    ensures m.minTaskLevel == Some("L1")
    ensures LevelRank(StartLevel(level, m)) == if LevelRank(level) >= 1 then LevelRank(level) else 1
  {
    EmitMeaning(calls);
    var component :| Harmed(calls, component);
    hide *;
    assert component in Emit(Recorded(calls)).affected;
    DriftSignalStands(k, slot, at, Recorded(calls), listing, later, now);
    ListingHolds(listing, component, Emit(Recorded(calls)).affected);
    SignalRaises(calls, component, listing, m);
    LevelRaised(level, m);
  }

  lemma ListingHolds(listing: seq<string>, component: string, affected: set<string>)
    requires Members(listing) == affected && component in affected
    ensures component in listing
  {
  }

  lemma LevelRaised(level: string, m: Override)
    requires m.minTaskLevel == Some("L1")
    ensures LevelRank(StartLevel(level, m)) == if LevelRank(level) >= 1 then LevelRank(level) else 1
  {
  }

  lemma DriftSignalStands(k: Clock, slot: Slot, at: int, record: Record, listing: seq<string>, later: seq<Step>,
                          now: int)
    requires LawfulClock(k) && Emit(record).WriteSignal?
    requires forall i :: 0 <= i < |later| ==> !Erases(later[i].action, DRIFT_SOURCE)
    requires now - at <= DEFAULT_MAX_AGE_HOURS * HOUR
    ensures Read(k, Run(k, Emitted(k, slot, at, record, listing), later), now, DEFAULT_MAX_AGE_HOURS)
         == Some(SignalOf(k, at, Write(listing, "critical", DRIFT_SOURCE)))
    ensures SignalOf(k, at, Write(listing, "critical", DRIFT_SOURCE)).affected == Known(listing)
  {
    hide Emit, Erases, Known, Run;
    SignalKept(k, SignalOf(k, at, Write(listing, "critical", DRIFT_SOURCE)), later);
    assert k.parse(k.iso(at)) == Some(at);
  }

  lemma SignalRaises(calls: seq<Call>, component: string, listing: seq<string>, m: Override)
    requires Harmed(calls, component) && component in listing
    requires Merges(COMPONENT_OVERRIDES, Members(Known(listing)), m)
    ensures m.minTaskLevel == Some("L1")
  {
    ComponentsKnown();
    forall c ensures c in Known(listing) <==> c in listing && c in KNOWN_COMPONENTS { KnownMembers(listing, c); }
    HarmedIsKnown(calls, component);
    hide Known, Entry, LevelRank, Harmed;
    assert component in Known(listing);
  }

  lemma HarmedIsKnown(calls: seq<Call>, component: string)
    requires Harmed(calls, component)
    ensures component in KNOWN_COMPONENTS
  {
    ComponentsKnown();
  }

  /**
   The drift check itself clears without regard to the source: a run without a critical
   failure erases the signal of every source, and one whose critical failures have no
   component leaves even its own earlier signal standing.
   */
  lemma DriftErasesOrLeaves(k: Clock, slot: Slot, at: int, calls: seq<Call>, listing: seq<string>)
    ensures (forall i :: 0 <= i < |calls| ==> !FailsWith(calls[i], Critical)) ==>
              Emitted(k, slot, at, Recorded(calls), listing) == Absent
    ensures (exists i :: 0 <= i < |calls| && FailsWith(calls[i], Critical))
            && (forall component :: !Harmed(calls, component)) ==>
              Emitted(k, slot, at, Recorded(calls), listing) == slot
  {
    EmitMeaning(calls);
    hide Recorded, Emit, FailsWith, Harmed;
  }
}
