/**
 Evidence aggregation for candidate rules (`agents_rule_evidence_aggregation.py`), with the
 entry checks of `agents_rule_promotion_schema.py` and `agents_rule_aggregation_artifact.py`.
 Main results: counted and duplicate references account for every event in the window and do
 not depend on event order; permission to resurface is monotone in evidence and time; every
 result is accepted as an active or a suppressed entry; and the derived specificity is free
 of event order when earliest events of a reference do not disagree, but not in general.
 */
module EvidenceAggregation {
  import opened Text
  import opened Json
  import opened Sorting

  // ---------------------------------------------------------------- candidates, events, ledger

  const SECTION_KEYS: map<string, string> := map[
    "must_test_path" := "must_test_paths", "forbidden_behavior" := "forbidden_behaviors",
    "escalation_trigger" := "escalation_triggers", "risk_level_boundary" := "risk_levels"]

  const CONCRETE: set<string> := {"real_path", "real_command", "irreversible_boundary", "concrete_side_effect"}

  datatype Candidate = Candidate(
    id: string, kind: string, sectionKey: string, normalized: string, evidenceCount: int, windowDays: int,
    observedFrom: seq<string>, specificity: string, basis: seq<string>, status: string,
    firstSeen: Option<string>, lastSeen: Option<string>)

  datatype Event = Event(candidateId: string, ref: string, observedAt: string, specificity: string, basis: seq<string>)

  datatype LedgerEntry = LedgerEntry(
    candidateId: string, decision: string, approvedBy: string, reviewSource: string, reviewRef: string,
    approvedAt: string, targetSection: string, evidenceRefs: seq<string>, note: Option<string>, patchStatus: string,
    suppressDays: int, suppressionUntil: Option<string>, condition: Option<string>)

  /** Timestamp parsing and the digest of an id, of which nothing is assumed. */
  datatype Clock = Clock(parse: string -> Option<int>, digest: string -> string)

  function IdDigest(k: Clock, normalized: string): string {
    var d := k.digest(normalized);
    if |d| > 12 then d[..12] else d
  }

  predicate Given(text: Option<string>) {
    text.Some? && text.value != ""
  }

  predicate HasConcrete(basis: seq<string>) {
    exists i :: 0 <= i < |basis| && basis[i] in CONCRETE
  }

  /** `AgentsRuleCandidate.validate` passes. */
  predicate ValidCandidate(k: Clock, c: Candidate) {
    && c.kind in SECTION_KEYS && c.sectionKey == SECTION_KEYS[c.kind]
    && c.specificity in {"low", "medium", "high"}
    && (forall i :: 0 <= i < |c.basis| ==> c.basis[i] in CONCRETE + {"generic_only"})
    && c.status in {"observed", "needs_human_review", "rejected"}
    && c.evidenceCount >= 1 && c.windowDays >= 1 && c.observedFrom != [] && c.normalized != ""
    && c.id == c.kind + ":" + c.normalized + ":" + IdDigest(k, c.normalized)
    && (c.specificity == "high" ==> HasConcrete(c.basis))
  }

  predicate ValidEvent(k: Clock, e: Event) {
    e.candidateId != "" && e.ref != "" && k.parse(e.observedAt).Some? && e.specificity in {"low", "medium", "high"}
  }

  /** `AgentsRulePromotionLedgerEntry.validate` passes on a rejection. */
  predicate ValidRejection(r: LedgerEntry) {
    && r.candidateId != "" && r.approvedBy != "" && r.reviewSource != "" && r.reviewRef != "" && r.approvedAt != ""
    && r.targetSection in SECTION_KEYS.Values && r.patchStatus in {"not_proposed", "proposed", "landed"}
    && Given(r.note) && r.suppressDays >= 1 && Given(r.suppressionUntil) && Given(r.condition)
  }

  // ---------------------------------------------------------------- the window

  /** Bounds of the window; an empty or missing bound is open. */
  datatype Window = Window(first: Option<int>, last: Option<int>)

  function Bound(k: Clock, text: Option<string>): Outcome<Option<int>> {
    if !Given(text) then Done(None)
    else if k.parse(text.value).None? then Raised
    else Done(k.parse(text.value))
  }

  function WindowOf(k: Clock, c: Candidate): Outcome<Window> {
    var first, last := Bound(k, c.firstSeen), Bound(k, c.lastSeen);
    if first.Raised? || last.Raised? then Raised
    else if first.value.Some? && last.value.Some? && last.value.value < first.value.value then Raised
    else Done(Window(first.value, last.value))
  }

  predicate Inside(k: Clock, w: Window, e: Event) {
    var t := k.parse(e.observedAt);
    t.Some? && (w.first.Some? ==> w.first.value <= t.value) && (w.last.Some? ==> t.value <= w.last.value)
  }

  // ---------------------------------------------------------------- ordering and scanning

  /** The sort key: reference first, then the time as text. */
  predicate EventLe(a: Event, b: Event) {
    if a.ref == b.ref then StrLe(a.observedAt, b.observedAt) else StrLe(a.ref, b.ref)
  }

  function InsertEvent(s: seq<Event>, e: Event): seq<Event> {
    if s == [] then [e]
    else if EventLe(s[0], e) then [s[0]] + InsertEvent(s[1..], e)
    else [e] + s
  }

  /** Stable sort by key. */
  function SortEvents(s: seq<Event>): seq<Event> {
    if s == [] then [] else InsertEvent(SortEvents(s[..|s| - 1]), s[|s| - 1])
  }

  datatype Scan = Scan(unique: map<string, Event>, duplicates: seq<string>)

  function ScanOne(k: Clock, w: Window, s: Scan, e: Event): Scan {
    if !Inside(k, w, e) then s
    else if e.ref in s.unique then s.(duplicates := s.duplicates + [e.ref])
    else s.(unique := s.unique[e.ref := e])
  }

  function ScanEvents(k: Clock, w: Window, events: seq<Event>): Scan {
    if events == [] then Scan(map[], [])
    else ScanOne(k, w, ScanEvents(k, w, events[..|events| - 1]), events[|events| - 1])
  }

  /** The references of the events inside the window, with repetition. */
  function InsideRefs(k: Clock, w: Window, events: seq<Event>): seq<string> {
    if events == [] then []
    else
      InsideRefs(k, w, events[..|events| - 1])
      + (if Inside(k, w, events[|events| - 1]) then [events[|events| - 1].ref] else [])
  }

  function EventsOf(c: Candidate, events: seq<Event>): seq<Event> {
    if events == [] then []
    else EventsOf(c, events[..|events| - 1])
         + (if events[|events| - 1].candidateId == c.id then [events[|events| - 1]] else [])
  }

  lemma CountAppend(refs: seq<string>, x: string, r: string)
    ensures multiset(refs + [x])[r] == multiset(refs)[r] + (if x == r then 1 else 0)
  {
    assert multiset(refs + [x]) == multiset(refs) + multiset{x};
  }

  lemma ScanStep(k: Clock, w: Window, events: seq<Event>)
    requires events != []
    ensures var n := |events| - 1;
      && ScanEvents(k, w, events) == ScanOne(k, w, ScanEvents(k, w, events[..n]), events[n])
      && InsideRefs(k, w, events)
         == if Inside(k, w, events[n]) then InsideRefs(k, w, events[..n]) + [events[n].ref]
             else InsideRefs(k, w, events[..n])
  {
    hide Inside, ScanOne;
    assert InsideRefs(k, w, events[..|events| - 1]) + [] == InsideRefs(k, w, events[..|events| - 1]);
  }

  lemma {:induction false} ScanCounts(k: Clock, w: Window, events: seq<Event>, r: string)
    ensures multiset(InsideRefs(k, w, events))[r]
         == (if r in ScanEvents(k, w, events).unique then 1 else 0) + multiset(ScanEvents(k, w, events).duplicates)[r]
    ensures r in ScanEvents(k, w, events).unique <==> multiset(InsideRefs(k, w, events))[r] > 0
  {
    if events != [] {
      var n := |events| - 1;
      ScanStep(k, w, events);
      ScanCounts(k, w, events[..n], r);
      hide Inside, ScanEvents, InsideRefs;
      CountAppend(InsideRefs(k, w, events[..n]), events[n].ref, r);
      CountAppend(ScanEvents(k, w, events[..n]).duplicates, events[n].ref, r);
    }
  }

  /** Every event inside the window is counted once or listed as a duplicate. */
  lemma {:induction false} ScanConserves(k: Clock, w: Window, events: seq<Event>)
    ensures multiset(InsideRefs(k, w, events))
         == multiset(ScanEvents(k, w, events).unique.Keys) + multiset(ScanEvents(k, w, events).duplicates)
    ensures forall r :: r in ScanEvents(k, w, events).unique <==> r in InsideRefs(k, w, events)
  {
    hide ScanEvents, InsideRefs;
    var s, refs := ScanEvents(k, w, events), InsideRefs(k, w, events);
    forall r
      ensures multiset(refs)[r] == (multiset(s.unique.Keys) + multiset(s.duplicates))[r]
      ensures r in s.unique <==> r in refs
    {
      ScanCounts(k, w, events, r);
      assert r in refs <==> r in multiset(refs);
    }
  }

  /** Duplicates are exactly the references with two or more events inside the window. */
  lemma DuplicatesAreRepeated(k: Clock, w: Window, events: seq<Event>, r: string)
    ensures r in ScanEvents(k, w, events).duplicates <==> multiset(InsideRefs(k, w, events))[r] >= 2
  {
    ScanCounts(k, w, events, r);
    hide ScanEvents, InsideRefs;
    assert r in ScanEvents(k, w, events).duplicates <==> r in multiset(ScanEvents(k, w, events).duplicates);
  }

  // ---------------------------------------------------------------- event order does not matter

  lemma {:induction false} CandidateEvents(c: Candidate, events: seq<Event>, e: Event)
    ensures multiset(EventsOf(c, events))[e] == if e.candidateId == c.id then multiset(events)[e] else 0
  {
    if events != [] {
      var n := |events| - 1;
      CandidateEvents(c, events[..n], e);
      assert events == events[..n] + [events[n]];
      assert multiset(events) == multiset(events[..n]) + multiset{events[n]};
      if events[n].candidateId == c.id {
        assert multiset(EventsOf(c, events)) == multiset(EventsOf(c, events[..n])) + multiset{events[n]};
      } else {
        assert EventsOf(c, events[..n]) + [] == EventsOf(c, events[..n]);
      }
    }
  }

  lemma {:induction false} InsertContents(s: seq<Event>, e: Event)
    ensures multiset(InsertEvent(s, e)) == multiset(s) + multiset{e}
  {
    hide EventLe;
    if s != [] {
      InsertContents(s[1..], e);
      assert s == [s[0]] + s[1..];
    }
  }

  lemma {:induction false} SortContents(s: seq<Event>)
    ensures multiset(SortEvents(s)) == multiset(s)
  {
    hide InsertEvent;
    if s != [] {
      var n := |s| - 1;
      SortContents(s[..n]);
      InsertContents(SortEvents(s[..n]), s[n]);
      assert s == s[..n] + [s[n]];
    }
  }

  /** The events the scan runs over. */
  function Ordered(c: Candidate, events: seq<Event>): seq<Event> {
    SortEvents(EventsOf(c, events))
  }

  lemma OrderedMonotone(c: Candidate, some: seq<Event>, more: seq<Event>)
    requires multiset(some) <= multiset(more)
    ensures multiset(Ordered(c, some)) <= multiset(Ordered(c, more))
  {
    SortContents(EventsOf(c, some));
    SortContents(EventsOf(c, more));
    hide EventsOf, SortEvents;
    forall e ensures multiset(EventsOf(c, some))[e] <= multiset(EventsOf(c, more))[e] {
      CandidateEvents(c, some, e);
      CandidateEvents(c, more, e);
      assert multiset(some)[e] <= multiset(more)[e];
    }
  }

  lemma {:induction false} RefsAppend(k: Clock, w: Window, a: seq<Event>, b: seq<Event>)
    ensures InsideRefs(k, w, a + b) == InsideRefs(k, w, a) + InsideRefs(k, w, b)
  {
    hide Inside;
    if b == [] {
      assert a + b == a;
    } else {
      var n := |b| - 1;
      assert (a + b)[..|a + b| - 1] == a + b[..n] && (a + b)[|a + b| - 1] == b[n];
      RefsAppend(k, w, a, b[..n]);
    }
  }

  lemma RefsSplit(k: Clock, w: Window, before: seq<Event>, e: Event, after: seq<Event>)
    ensures multiset(InsideRefs(k, w, before + [e] + after))
         == multiset(InsideRefs(k, w, before + after)) + multiset(InsideRefs(k, w, [e]))
  {
    hide InsideRefs;
    RefsAppend(k, w, before + [e], after);
    RefsAppend(k, w, before, [e]);
    RefsAppend(k, w, before, after);
    var a, x, b := InsideRefs(k, w, before), InsideRefs(k, w, [e]), InsideRefs(k, w, after);
    assert multiset(a + x + b) == multiset(a) + multiset(x) + multiset(b);
    assert multiset(a + b) == multiset(a) + multiset(b);
  }

  lemma NoRefs(k: Clock, w: Window)
    ensures InsideRefs(k, w, []) == []
  {
  }

  /** More events, in any order, only add references. */
  lemma {:induction false} RefsMonotone(k: Clock, w: Window, some: seq<Event>, more: seq<Event>)
    requires multiset(some) <= multiset(more)
    ensures multiset(InsideRefs(k, w, some)) <= multiset(InsideRefs(k, w, more))
    decreases |some|
  {
    hide *;
    if some == [] {
      NoRefs(k, w);
    } else {
      var n := |some| - 1;
      var before, after := TakeOut(some, more);
      RefsMonotone(k, w, some[..n], before + after);
      RefsSplit(k, w, before, some[n], after);
      RefsSplit(k, w, some[..n], some[n], []);
      assert some[..n] + [some[n]] + [] == some && some[..n] + [] == some[..n];
    }
  }

  // ---------------------------------------------------------------- aggregation

  function Strength(e: Event): string {
    if HasConcrete(e.basis) then "high" else if "generic_only" in e.basis then "low" else "medium"
  }

  predicate AllGeneric(unique: map<string, Event>) {
    unique.Keys != {} && forall r :: r in unique ==> Strength(unique[r]) == "low"
  }

  predicate SomeConcrete(unique: map<string, Event>) {
    exists r :: r in unique && Strength(unique[r]) == "high"
  }

  function DerivedSpecificity(own: string, unique: map<string, Event>): string {
    if AllGeneric(unique) && own != "low" then "low"
    else if SomeConcrete(unique) && own != "high" then "high"
    else own
  }

  datatype Permission = Permission(allowed: bool, reason: string, suppressed: bool)

  function Rejections(c: Candidate, ledger: seq<LedgerEntry>): seq<LedgerEntry> {
    if ledger == [] then []
    else
      Rejections(c, ledger[..|ledger| - 1])
      + (if ledger[|ledger| - 1].candidateId == c.id && ledger[|ledger| - 1].decision == "rejected"
         then [ledger[|ledger| - 1]] else [])
  }

  /** The first of the entries with the greatest `approved_at` text. */
  function Latest(entries: seq<LedgerEntry>): LedgerEntry
    requires entries != []
  {
    if |entries| == 1 then entries[0]
    else
      var before := Latest(entries[..|entries| - 1]);
      if StrLe(entries[|entries| - 1].approvedAt, before.approvedAt) then before else entries[|entries| - 1]
  }

  /** Whether the candidate may resurface at `now` with `count` pieces of evidence. */
  function Permit(latest: LedgerEntry, until: int, now: int, count: nat): Permission {
    if now < until then Permission(false, "suppressed_until_not_reached", true)
    else if latest.condition == Some("material_evidence_increase") then
      if count <= |latest.evidenceRefs| then Permission(false, "material_evidence_increase_not_met", true)
      else Permission(true, "material_evidence_increase_met", false)
    else Permission(true, "suppression_expired", false)
  }

  function Suppression(k: Clock, c: Candidate, ledger: seq<LedgerEntry>, now: Option<int>,
                       count: nat): Outcome<Permission> {
    var rejected := Rejections(c, ledger);
    if rejected == [] then Done(Permission(true, "no_rejection_suppression", false))
    else
      var latest := Latest(rejected);
      if !ValidRejection(latest) || now.None? then Raised
      else
        var until := k.parse(latest.suppressionUntil.value);
        if until.None? then Raised else Done(Permit(latest, until.value, now.value, count))
  }

  datatype Summary = Summary(candidateId: string, counted: set<string>, duplicates: set<string>, count: nat,
                             specificity: string, permission: Permission)

  /** `aggregate_candidate_evidence`; `now` is the time it reads, none when its text does not parse. */
  function Aggregate(k: Clock, c: Candidate, events: seq<Event>, ledger: seq<LedgerEntry>,
                     now: Option<int>): Outcome<Summary> {
    var own := EventsOf(c, events);
    var window := WindowOf(k, c);
    if !ValidCandidate(k, c) || window.Raised? || exists e :: e in own && !ValidEvent(k, e) then Raised
    else
      var s := ScanEvents(k, window.value, Ordered(c, events));
      var permission := Suppression(k, c, ledger, now, |s.unique.Keys|);
      if permission.Raised? then Raised
      else Done(Summary(c.id, s.unique.Keys, Members(s.duplicates), |s.unique.Keys|,
                        DerivedSpecificity(c.specificity, s.unique), permission.value))
  }

  // ---------------------------------------------------------------- the loops

  method CollectUnique(k: Clock, w: Window, events: seq<Event>)
      returns (unique: map<string, Event>, duplicates: seq<string>)
    ensures Scan(unique, duplicates) == ScanEvents(k, w, events)
  {
    unique, duplicates := map[], [];
    for i := 0 to |events|
      invariant Scan(unique, duplicates) == ScanEvents(k, w, events[..i])
    {
      assert events[..i + 1][..i] == events[..i];
      var e := events[i];
      var observedAt := k.parse(e.observedAt);
      if observedAt.None? || (w.first.Some? && observedAt.value < w.first.value) {
        continue;
      }
      if w.last.Some? && observedAt.value > w.last.value {
        continue;
      }
      if e.ref in unique {
        duplicates := duplicates + [e.ref];
        continue;
      }
      unique := unique[e.ref := e];
    }
    assert events[..|events|] == events;
  }

  /** The result lists are sorted and hold the references of the summary, each once. */
  method AggregateCandidateEvidence(k: Clock, c: Candidate, events: seq<Event>, ledger: seq<LedgerEntry>,
                                    now: Option<int>)
      returns (r: Outcome<Summary>, counted: seq<string>, duplicates: seq<string>)
    ensures r == Aggregate(k, c, events, ledger, now)
    ensures r.Done? ==> StrictlySorted(counted) && forall x :: x in counted <==> x in r.value.counted
    ensures r.Done? ==> StrictlySorted(duplicates) && forall x :: x in duplicates <==> x in r.value.duplicates
  {
    hide ValidCandidate, ValidEvent, ScanEvents, SortEvents, Suppression, AllGeneric, SomeConcrete, StrictlySorted;
    counted, duplicates := [], [];
    var own := EventsOf(c, events);
    var window := WindowOf(k, c);
    if !ValidCandidate(k, c) || window.Raised? || exists e :: e in own && !ValidEvent(k, e) {
      return Raised, counted, duplicates;
    }
    var unique, repeated := CollectUnique(k, window.value, SortEvents(own));
    var count := |unique.Keys|;
    var derived := c.specificity;
    if AllGeneric(unique) && derived != "low" {
      derived := "low";
    } else if SomeConcrete(unique) && derived != "high" {
      derived := "high";
    }
    var permission := Suppression(k, c, ledger, now, count);
    if permission.Raised? {
      return Raised, counted, duplicates;
    }
    counted := SortSet(unique.Keys);
    duplicates := SortSet(Members(repeated));
    r := Done(Summary(c.id, unique.Keys, Members(repeated), count, derived, permission.value));
  }

  // ---------------------------------------------------------------- main results

  /**
   Counted references are exactly those of the window, duplicates those with two or more
   events there, and the multiset of events is the counted ones plus the further ones.
   */
  lemma SummaryMeaning(k: Clock, c: Candidate, events: seq<Event>, ledger: seq<LedgerEntry>, now: Option<int>)
    requires Aggregate(k, c, events, ledger, now).Done?
    ensures var refs := InsideRefs(k, WindowOf(k, c).value, Ordered(c, events));
      var s := Aggregate(k, c, events, ledger, now).value;
      && (forall r :: r in s.counted <==> r in refs)
      && (forall r :: r in s.duplicates <==> multiset(refs)[r] >= 2)
      && s.count == |s.counted|
      && multiset(s.counted) <= multiset(refs)
      && forall r :: r in multiset(refs) - multiset(s.counted) <==> r in s.duplicates
  {
    var w := WindowOf(k, c).value;
    var ordered := Ordered(c, events);
    ScanConserves(k, w, ordered);
    forall r ensures r in ScanEvents(k, w, ordered).duplicates <==> multiset(InsideRefs(k, w, ordered))[r] >= 2 {
      DuplicatesAreRepeated(k, w, ordered, r);
    }
    hide ScanEvents, InsideRefs, Ordered, Suppression, ValidCandidate, DerivedSpecificity, EventsOf;
    var s := ScanEvents(k, w, ordered);
    assert multiset(InsideRefs(k, w, ordered)) - multiset(s.unique.Keys) == multiset(s.duplicates);
    assert forall r :: r in multiset(s.duplicates) <==> r in s.duplicates;
  }

  lemma SetSize<T>(a: set<T>, b: set<T>)
    requires a <= b
    ensures |a| <= |b|
  {
    assert b == a + (b - a);
  }

  lemma PermitMonotone(latest: LedgerEntry, until: int, now: int, later: int, few: nat, many: nat)
    requires now <= later && few <= many && Permit(latest, until, now, few).allowed
    ensures Permit(latest, until, later, many).allowed
  {
  }

  /**
   With more events, in any order, at a later time, references are only added, and a
   candidate that was allowed to resurface still is.
   */
  lemma MoreEvidenceNeverSuppresses(k: Clock, c: Candidate, some: seq<Event>, more: seq<Event>,
                                    ledger: seq<LedgerEntry>, now: Option<int>, later: Option<int>)
    requires multiset(some) <= multiset(more)
    requires now.Some? && later.Some? && now.value <= later.value
    requires Aggregate(k, c, some, ledger, now).Done? && Aggregate(k, c, more, ledger, later).Done?
    ensures var a, b := Aggregate(k, c, some, ledger, now).value, Aggregate(k, c, more, ledger, later).value;
      && a.counted <= b.counted && a.duplicates <= b.duplicates && a.count <= b.count
      && (a.permission.allowed ==> b.permission.allowed)
  {
    hide ScanEvents, InsideRefs, Ordered, ValidCandidate, DerivedSpecificity, EventsOf, Rejections, Latest, Permit,
      WindowOf;
    var w := WindowOf(k, c).value;
    OrderedMonotone(c, some, more);
    RefsMonotone(k, w, Ordered(c, some), Ordered(c, more));
    SummaryMeaning(k, c, some, ledger, now);
    SummaryMeaning(k, c, more, ledger, later);
    var refs, refs' := InsideRefs(k, w, Ordered(c, some)), InsideRefs(k, w, Ordered(c, more));
    var a, b := Aggregate(k, c, some, ledger, now).value, Aggregate(k, c, more, ledger, later).value;
    forall r ensures r in refs ==> r in refs' {
      assert r in refs <==> r in multiset(refs);
      assert r in refs' <==> r in multiset(refs');
    }
    forall r ensures multiset(refs)[r] <= multiset(refs')[r] {
    }
    SetSize(a.counted, b.counted);
    var rejected := Rejections(c, ledger);
    if rejected != [] && a.permission.allowed {
      var latest := Latest(rejected);
      PermitMonotone(latest, k.parse(latest.suppressionUntil.value).value, now.value, later.value, a.count, b.count);
    }
  }

  lemma SameOwnEvents(c: Candidate, events: seq<Event>, permuted: seq<Event>, e: Event)
    requires multiset(events) == multiset(permuted)
    ensures e in EventsOf(c, events) <==> e in EventsOf(c, permuted)
  {
    CandidateEvents(c, events, e);
    CandidateEvents(c, permuted, e);
    hide EventsOf;
    assert e in EventsOf(c, events) <==> e in multiset(EventsOf(c, events));
    assert e in EventsOf(c, permuted) <==> e in multiset(EventsOf(c, permuted));
  }

  /** Whether the aggregation raises: nothing of it depends on how much evidence there is. */
  lemma DoneIff(k: Clock, c: Candidate, events: seq<Event>, ledger: seq<LedgerEntry>, now: Option<int>)
    ensures Aggregate(k, c, events, ledger, now).Done?
       <==> && ValidCandidate(k, c) && WindowOf(k, c).Done? && Suppression(k, c, ledger, now, 0).Done?
            && forall e :: e in EventsOf(c, events) ==> ValidEvent(k, e)
  {
    hide ValidCandidate, WindowOf, ScanEvents, Ordered, ValidEvent, Rejections, Latest, Permit, ValidRejection,
      DerivedSpecificity, EventsOf;
  }

  /** References, counts, permission, and whether it raises do not depend on the order of the events. */
  lemma SummaryOrderFree(k: Clock, c: Candidate, events: seq<Event>, permuted: seq<Event>, ledger: seq<LedgerEntry>,
                         now: Option<int>)
    requires multiset(events) == multiset(permuted)
    ensures Aggregate(k, c, events, ledger, now).Done? <==> Aggregate(k, c, permuted, ledger, now).Done?
    ensures Aggregate(k, c, events, ledger, now).Done? ==>
              var a, b := Aggregate(k, c, events, ledger, now).value, Aggregate(k, c, permuted, ledger, now).value;
              && a.candidateId == b.candidateId && a.counted == b.counted && a.duplicates == b.duplicates
              && a.count == b.count && a.permission == b.permission
  {
    DoneIff(k, c, events, ledger, now);
    DoneIff(k, c, permuted, ledger, now);
    forall e ensures e in EventsOf(c, events) <==> e in EventsOf(c, permuted) {
      SameOwnEvents(c, events, permuted, e);
    }
    if Aggregate(k, c, events, ledger, now).Done? {
      SameSummary(k, c, events, permuted, ledger, now);
    }
  }

  lemma SameSummary(k: Clock, c: Candidate, events: seq<Event>, permuted: seq<Event>, ledger: seq<LedgerEntry>,
                    now: Option<int>)
    requires multiset(events) == multiset(permuted)
    requires Aggregate(k, c, events, ledger, now).Done? && Aggregate(k, c, permuted, ledger, now).Done?
    ensures var a, b := Aggregate(k, c, events, ledger, now).value, Aggregate(k, c, permuted, ledger, now).value;
      && a.candidateId == b.candidateId && a.counted == b.counted && a.duplicates == b.duplicates
      && a.count == b.count && a.permission == b.permission
  {
    hide *;
    SummaryParts(k, c, events, ledger, now);
    SummaryParts(k, c, permuted, ledger, now);
    var w := WindowOf(k, c).value;
    var x, y := Ordered(c, events), Ordered(c, permuted);
    OrderedMonotone(c, events, permuted);
    OrderedMonotone(c, permuted, events);
    RefsMonotone(k, w, x, y);
    RefsMonotone(k, w, y, x);
    SummaryMeaning(k, c, events, ledger, now);
    SummaryMeaning(k, c, permuted, ledger, now);
    assert multiset(InsideRefs(k, w, x)) == multiset(InsideRefs(k, w, y));
    assert forall r :: r in InsideRefs(k, w, x) <==> r in multiset(InsideRefs(k, w, x));
    assert forall r :: r in InsideRefs(k, w, y) <==> r in multiset(InsideRefs(k, w, y));
  }

  lemma SummaryParts(k: Clock, c: Candidate, events: seq<Event>, ledger: seq<LedgerEntry>, now: Option<int>)
    requires Aggregate(k, c, events, ledger, now).Done?
    ensures WindowOf(k, c).Done?
    ensures var s := Aggregate(k, c, events, ledger, now).value;
      s.candidateId == c.id && Suppression(k, c, ledger, now, s.count) == Done(s.permission)
  {
    hide ScanEvents, Ordered, ValidCandidate, DerivedSpecificity, EventsOf, WindowOf, Suppression, ValidEvent;
  }

  /** An entry of the persisted artifact, active or suppressed. */
  predicate ValidEntry(s: Summary, suppressedList: bool) {
    && Strip(s.candidateId) != "" && s.count >= 0
    && (suppressedList ==> !s.permission.allowed)
    && (!suppressedList ==> !s.permission.suppressed)
  }

  lemma IdNotBlank(k: Clock, c: Candidate)
    requires ValidCandidate(k, c)
    ensures Strip(c.id) != ""
  {
    var i, j := StripWindow(c.id);
    assert c.id[0] == c.kind[0];
    assert !IsSpace(c.id[0]);
  }

  /** Every result validates on exactly one side: active iff it may resurface, else suppressed. */
  lemma EveryResultValidates(k: Clock, c: Candidate, events: seq<Event>, ledger: seq<LedgerEntry>, now: Option<int>)
    requires Aggregate(k, c, events, ledger, now).Done?
    ensures var s := Aggregate(k, c, events, ledger, now).value;
      && s.permission.suppressed == !s.permission.allowed
      && (ValidEntry(s, false) <==> s.permission.allowed)
      && (ValidEntry(s, true) <==> !s.permission.allowed)
  {
    hide ScanEvents, Ordered, ValidCandidate, ValidRejection, DerivedSpecificity, EventsOf, Rejections, Latest, Strip,
      WindowOf, ValidEvent;
    IdNotBlank(k, c);
  }

  // ---------------------------------------------------------------- the derived specificity

  /** Whether the strength of `e` is `x`, or is not, as `want` says. */
  predicate Is(x: string, want: bool, e: Event) {
    (Strength(e) == x) == want
  }

  /** Sorted before, with a tie of keys in favour of the events that are as wanted. */
  predicate Before(x: string, want: bool, a: Event, b: Event) {
    EventLe(a, b) && (EventLe(b, a) && Is(x, want, b) ==> Is(x, want, a))
  }

  predicate AllFrom(x: string, want: bool, e: Event, s: seq<Event>) {
    forall f :: f in s ==> Before(x, want, e, f)
  }

  predicate InOrder(x: string, want: bool, s: seq<Event>) {
    s == [] || (AllFrom(x, want, s[0], s[1..]) && InOrder(x, want, s[1..]))
  }

  /** The events that are as wanted come first. */
  predicate Grouped(x: string, want: bool, s: seq<Event>) {
    s == []
    || (Grouped(x, want, s[..|s| - 1])
        && (Is(x, want, s[|s| - 1]) ==> forall f :: f in s[..|s| - 1] ==> Is(x, want, f)))
  }

  lemma EventLeLaws(a: Event, b: Event, c: Event)
    ensures EventLe(a, b) || EventLe(b, a)
    ensures EventLe(a, b) && EventLe(b, c) ==> EventLe(a, c)
  {
    StrLeTotal(a.ref, b.ref);
    StrLeTotal(b.ref, c.ref);
    StrLeTotal(a.observedAt, b.observedAt);
    if StrLe(a.ref, b.ref) && StrLe(b.ref, c.ref) { StrLeTransitive(a.ref, b.ref, c.ref); }
    if StrLe(a.observedAt, b.observedAt) && StrLe(b.observedAt, c.observedAt) {
      StrLeTransitive(a.observedAt, b.observedAt, c.observedAt);
    }
  }

  lemma AllFromInsert(x: string, want: bool, a: Event, s: seq<Event>, e: Event)
    requires AllFrom(x, want, a, s) && Before(x, want, a, e)
    ensures AllFrom(x, want, a, InsertEvent(s, e))
  {
    hide Before, InsertEvent;
    forall f | f in InsertEvent(s, e) ensures Before(x, want, a, f) {
      InsertContents(s, e);
      assert f in multiset(InsertEvent(s, e));
      assert f in multiset(s) || f == e;
    }
  }

  /** What sorts strictly below the first of an ordered sequence sorts below all of it. */
  lemma AllFromBelow(x: string, want: bool, e: Event, a: Event, s: seq<Event>)
    requires !EventLe(a, e) && AllFrom(x, want, a, s)
    ensures AllFrom(x, want, e, [a] + s)
  {
    hide EventLe, Is;
    EventLeLaws(e, a, a);
    forall f | f in [a] + s ensures Before(x, want, e, f) {
      EventLeLaws(a, f, e);
      EventLeLaws(e, a, f);
      EventLeLaws(a, a, a);
    }
  }

  lemma NothingBelow(x: string, want: bool, e: Event)
    ensures AllFrom(x, want, e, [])
  {
  }

  lemma {:induction false} InsertInOrder(x: string, want: bool, s: seq<Event>, e: Event)
    requires InOrder(x, want, s)
    requires Is(x, want, e) ==> forall f :: f in s ==> Is(x, want, f)
    ensures InOrder(x, want, InsertEvent(s, e))
  {
    hide EventLe, AllFrom, Is;
    if s == [] {
      NothingBelow(x, want, e);
      assert [e][1..] == [];
    } else if EventLe(s[0], e) {
      InsertInOrder(x, want, s[1..], e);
      AllFromInsert(x, want, s[0], s[1..], e);
      assert InsertEvent(s, e)[1..] == InsertEvent(s[1..], e);
    } else {
      AllFromBelow(x, want, e, s[0], s[1..]);
      assert s == [s[0]] + s[1..];
      assert InsertEvent(s, e)[1..] == s;
    }
  }

  lemma SortMembers(s: seq<Event>)
    ensures forall f :: f in SortEvents(s) <==> f in s
  {
    SortContents(s);
    hide SortEvents;
    assert forall f :: f in SortEvents(s) <==> f in multiset(SortEvents(s));
    assert forall f :: f in s <==> f in multiset(s);
  }

  /** Sorting is stable: it keeps a grouping among events of equal keys. */
  lemma {:induction false} SortInOrder(x: string, want: bool, s: seq<Event>)
    requires Grouped(x, want, s)
    ensures InOrder(x, want, SortEvents(s))
  {
    hide InsertEvent, AllFrom, Is;
    if s != [] {
      SortInOrder(x, want, s[..|s| - 1]);
      SortMembers(s[..|s| - 1]);
      InsertInOrder(x, want, SortEvents(s[..|s| - 1]), s[|s| - 1]);
    }
  }

  lemma {:induction false} InOrderPair(x: string, want: bool, s: seq<Event>, i: nat, j: nat)
    requires InOrder(x, want, s) && i < j < |s|
    ensures Before(x, want, s[i], s[j])
  {
    hide Before;
    if i == 0 {
      assert s[j] == s[1..][j - 1];
    } else {
      InOrderPair(x, want, s[1..], i - 1, j - 1);
    }
  }

  /** Scanning in order keeps the first event of every reference. */
  lemma {:induction false} ScanKeepsFirst(k: Clock, w: Window, x: string, want: bool, events: seq<Event>, r: string)
    requires forall i, j :: 0 <= i < j < |events| ==> Before(x, want, events[i], events[j])
    requires r in ScanEvents(k, w, events).unique
    ensures var kept := ScanEvents(k, w, events).unique[r];
      && kept.ref == r && kept in events && Inside(k, w, kept)
      && forall f :: f in events && Inside(k, w, f) && f.ref == r ==> f == kept || Before(x, want, kept, f)
  {
    hide Before, Inside;
    var n := |events| - 1;
    var before, last := events[..n], events[n];
    assert events == before + [last];
    if r in ScanEvents(k, w, before).unique {
      ScanKeepsFirst(k, w, x, want, before, r);
      var kept := ScanEvents(k, w, before).unique[r];
      var i :| 0 <= i < n && events[i] == kept;
      assert Before(x, want, events[i], events[n]);
    } else {
      forall f | f in before ensures !(Inside(k, w, f) && f.ref == r) {
        if Inside(k, w, f) { ScanFinds(k, w, before, f); }
      }
    }
  }

  lemma {:induction false} ScanFinds(k: Clock, w: Window, events: seq<Event>, f: Event)
    requires f in events && Inside(k, w, f)
    ensures f.ref in ScanEvents(k, w, events).unique
  {
    hide Inside;
    var n := |events| - 1;
    assert events == events[..n] + [events[n]];
    if f in events[..n] {
      ScanFinds(k, w, events[..n], f);
    }
  }

  lemma OrderedPairs(x: string, want: bool, c: Candidate, events: seq<Event>)
    requires Grouped(x, want, EventsOf(c, events))
    ensures var s := Ordered(c, events); forall i, j :: 0 <= i < j < |s| ==> Before(x, want, s[i], s[j])
  {
    SortInOrder(x, want, EventsOf(c, events));
    hide SortEvents, InOrder, Before;
    var s := Ordered(c, events);
    forall i, j | 0 <= i < j < |s| ensures Before(x, want, s[i], s[j]) {
      InOrderPair(x, want, s, i, j);
    }
  }

  /** The events kept for the candidate, by reference. */
  function Kept(k: Clock, w: Window, c: Candidate, events: seq<Event>): map<string, Event> {
    ScanEvents(k, w, Ordered(c, events)).unique
  }

  /** `e` is an event of the window, and none of its reference there is earlier. */
  ghost predicate Earliest(k: Clock, w: Window, events: seq<Event>, e: Event) {
    && e in events && Inside(k, w, e)
    && forall f :: f in events && Inside(k, w, f) && f.ref == e.ref ==> StrLe(e.observedAt, f.observedAt)
  }

  lemma {:induction false} AllGrouped(s: seq<Event>)
    ensures Grouped("", false, s)
  {
    if s != [] { AllGrouped(s[..|s| - 1]); }
  }

  /** Whatever the order, the event kept for a reference is an earliest one. */
  lemma KeptIsEarliest(k: Clock, w: Window, c: Candidate, events: seq<Event>, r: string)
    requires r in Kept(k, w, c, events)
    ensures Kept(k, w, c, events)[r].ref == r && Earliest(k, w, Ordered(c, events), Kept(k, w, c, events)[r])
  {
    var s := Ordered(c, events);
    AllGrouped(EventsOf(c, events));
    OrderedPairs("", false, c, events);
    ScanKeepsFirst(k, w, "", false, s, r);
    hide ScanEvents, Ordered, StrLe, Inside, Strength;
    var kept := Kept(k, w, c, events)[r];
    StrLeTotal(kept.observedAt, kept.observedAt);
  }

  /** When wanted events are given first, a wanted earliest event makes the kept one wanted. */
  lemma KeptAsWanted(k: Clock, w: Window, x: string, want: bool, c: Candidate, events: seq<Event>, e: Event)
    requires Grouped(x, want, EventsOf(c, events))
    requires Earliest(k, w, Ordered(c, events), e) && Is(x, want, e)
    ensures e.ref in Kept(k, w, c, events) && Is(x, want, Kept(k, w, c, events)[e.ref])
  {
    var s := Ordered(c, events);
    hide ScanEvents, Ordered, StrLe, Inside, Strength, EventsOf, Is;
    OrderedPairs(x, want, c, events);
    ScanFinds(k, w, s, e);
    ScanKeepsFirst(k, w, x, want, s, e.ref);
    KeptIsEarliest(k, w, c, events, e.ref);
  }

  function Only(x: string, want: bool, s: seq<Event>): seq<Event> {
    if s == [] then []
    else Only(x, want, s[..|s| - 1]) + (if Is(x, want, s[|s| - 1]) then [s[|s| - 1]] else [])
  }

  /** The same events with the wanted ones first. */
  function Regroup(x: string, want: bool, s: seq<Event>): seq<Event> {
    Only(x, want, s) + Only(x, !want, s)
  }

  lemma MultisetSnoc(s: seq<Event>, last: Event, e: Event)
    ensures multiset(s + [last])[e] == multiset(s)[e] + (if e == last then 1 else 0)
  {
    assert multiset(s + [last]) == multiset(s) + multiset{last};
  }

  lemma OnlyStep(x: string, want: bool, s: seq<Event>, last: Event)
    ensures Only(x, want, s + [last]) == if Is(x, want, last) then Only(x, want, s) + [last] else Only(x, want, s)
  {
    hide Is;
    assert (s + [last])[..|s|] == s;
    assert Only(x, want, s) + [] == Only(x, want, s);
  }

  lemma OnlyContentsStep(x: string, want: bool, s: seq<Event>, last: Event, e: Event)
    requires multiset(Only(x, want, s))[e] == if Is(x, want, e) then multiset(s)[e] else 0
    ensures multiset(Only(x, want, s + [last]))[e] == if Is(x, want, e) then multiset(s + [last])[e] else 0
  {
    hide *;
    OnlyStep(x, want, s, last);
    MultisetSnoc(s, last, e);
    MultisetSnoc(Only(x, want, s), last, e);
  }

  lemma {:induction false} OnlyContents(x: string, want: bool, s: seq<Event>, e: Event)
    ensures multiset(Only(x, want, s))[e] == if Is(x, want, e) then multiset(s)[e] else 0
  {
    if s != [] {
      hide *;
      var n := |s| - 1;
      OnlyContents(x, want, s[..n], e);
      OnlyContentsStep(x, want, s[..n], s[n], e);
      assert s == s[..n] + [s[n]];
    }
  }

  lemma RegroupContents(x: string, want: bool, s: seq<Event>)
    ensures multiset(Regroup(x, want, s)) == multiset(s)
  {
    hide Only, Strength;
    assert multiset(Regroup(x, want, s)) == multiset(Only(x, want, s)) + multiset(Only(x, !want, s));
    forall e ensures multiset(Regroup(x, want, s))[e] == multiset(s)[e] {
      OnlyContents(x, want, s, e);
      OnlyContents(x, !want, s, e);
    }
  }

  lemma OnlyMembers(x: string, want: bool, s: seq<Event>, e: Event)
    requires e in Only(x, want, s)
    ensures Is(x, want, e)
  {
    OnlyContents(x, want, s, e);
    hide Only, Is;
    assert e in multiset(Only(x, want, s));
  }

  /** A grouped sequence stays grouped when unwanted events follow. */
  lemma {:induction false} GroupedAppend(x: string, want: bool, a: seq<Event>, b: seq<Event>)
    requires Grouped(x, want, a) && forall f :: f in b ==> !Is(x, want, f)
    ensures Grouped(x, want, a + b)
  {
    hide Is;
    if b == [] {
      assert a + b == a;
    } else {
      var n := |b| - 1;
      GroupedAppend(x, want, a, b[..n]);
      assert (a + b)[..|a + b| - 1] == a + b[..n] && (a + b)[|a + b| - 1] == b[n];
    }
  }

  lemma {:induction false} WantedGrouped(x: string, want: bool, s: seq<Event>)
    requires forall f :: f in s ==> Is(x, want, f)
    ensures Grouped(x, want, s)
  {
    hide Is;
    if s != [] { WantedGrouped(x, want, s[..|s| - 1]); }
  }

  lemma RegroupGrouped(x: string, want: bool, s: seq<Event>)
    ensures Grouped(x, want, Regroup(x, want, s))
  {
    hide Only, Strength;
    forall f | f in Only(x, want, s) ensures Is(x, want, f) { OnlyMembers(x, want, s, f); }
    forall f | f in Only(x, !want, s) ensures !Is(x, want, f) { OnlyMembers(x, !want, s, f); }
    WantedGrouped(x, want, Only(x, want, s));
    GroupedAppend(x, want, Only(x, want, s), Only(x, !want, s));
  }

  lemma {:induction false} OwnGrouped(x: string, want: bool, c: Candidate, s: seq<Event>)
    requires Grouped(x, want, s)
    ensures Grouped(x, want, EventsOf(c, s)) && forall f :: f in EventsOf(c, s) ==> f in s
  {
    hide Is;
    if s != [] {
      var n := |s| - 1;
      OwnGrouped(x, want, c, s[..n]);
      var own := EventsOf(c, s[..n]);
      if s[n].candidateId == c.id {
        assert (own + [s[n]])[..|own|] == own;
      } else {
        assert own + [] == own;
      }
    }
  }

  ghost predicate SameEvents(a: seq<Event>, b: seq<Event>) {
    multiset(a) == multiset(b)
  }

  lemma EarliestTransfers(k: Clock, w: Window, c: Candidate, a: seq<Event>, b: seq<Event>, e: Event)
    requires SameEvents(a, b)
    ensures Earliest(k, w, Ordered(c, a), e) <==> Earliest(k, w, Ordered(c, b), e)
  {
    OrderedMonotone(c, a, b);
    OrderedMonotone(c, b, a);
    hide StrLe, Inside, Ordered;
    assert forall f :: f in Ordered(c, a) <==> f in multiset(Ordered(c, a));
    assert forall f :: f in Ordered(c, b) <==> f in multiset(Ordered(c, b));
  }

  /** The references that occur among the earliest events. */
  lemma KeptReferences(k: Clock, w: Window, c: Candidate, a: seq<Event>, b: seq<Event>)
    requires SameEvents(a, b)
    ensures Kept(k, w, c, a).Keys == Kept(k, w, c, b).Keys
  {
    hide ScanEvents, InsideRefs, Ordered;
    OrderedMonotone(c, a, b);
    OrderedMonotone(c, b, a);
    RefsMonotone(k, w, Ordered(c, a), Ordered(c, b));
    RefsMonotone(k, w, Ordered(c, b), Ordered(c, a));
    forall r ensures r in Kept(k, w, c, a) <==> r in Kept(k, w, c, b) {
      ScanCounts(k, w, Ordered(c, a), r);
      ScanCounts(k, w, Ordered(c, b), r);
    }
  }

  /** Some earliest event of the reference is as wanted. */
  ghost predicate MayBe(k: Clock, w: Window, c: Candidate, events: seq<Event>, r: string, x: string, want: bool) {
    exists e :: Earliest(k, w, Ordered(c, events), e) && e.ref == r && Is(x, want, e)
  }

  /** What is kept is possible, in any order of the events. */
  lemma KeptMayBe(k: Clock, w: Window, c: Candidate, events: seq<Event>, p: seq<Event>, r: string, x: string,
                  want: bool)
    requires SameEvents(events, p) && r in Kept(k, w, c, p) && Is(x, want, Kept(k, w, c, p)[r])
    ensures MayBe(k, w, c, events, r, x, want)
  {
    hide Earliest, Is, Ordered, SameEvents, Kept;
    KeptIsEarliest(k, w, c, p, r);
    EarliestTransfers(k, w, c, events, p, Kept(k, w, c, p)[r]);
  }

  /** Giving the wanted events first, every possible wish is fulfilled at once. */
  lemma RegroupFulfils(k: Clock, w: Window, c: Candidate, events: seq<Event>, x: string, want: bool)
    ensures var p := Regroup(x, want, events);
      && SameEvents(events, p)
      && forall r :: MayBe(k, w, c, events, r, x, want) ==> r in Kept(k, w, c, p) && Is(x, want, Kept(k, w, c, p)[r])
  {
    var p := Regroup(x, want, events);
    RegroupContents(x, want, events);
    RegroupGrouped(x, want, events);
    OwnGrouped(x, want, c, p);
    hide Earliest, Is, Ordered, Kept, Regroup, Grouped, EventsOf;
    forall r | MayBe(k, w, c, events, r, x, want) ensures r in Kept(k, w, c, p) && Is(x, want, Kept(k, w, c, p)[r]) {
      var e :| Earliest(k, w, Ordered(c, events), e) && e.ref == r && Is(x, want, e);
      EarliestTransfers(k, w, c, events, p, e);
      KeptAsWanted(k, w, x, want, c, p, e);
    }
  }

  function Derived(k: Clock, w: Window, c: Candidate, events: seq<Event>): string {
    DerivedSpecificity(c.specificity, Kept(k, w, c, events))
  }

  /** Every order of the same events derives the same specificity. */
  ghost predicate OrderFree(k: Clock, w: Window, c: Candidate, events: seq<Event>) {
    forall p :: SameEvents(events, p) ==> Derived(k, w, c, p) == Derived(k, w, c, events)
  }

  /** If some earliest event is of strength "high", the earliest events of some reference all are. */
  ghost predicate HighSettled(k: Clock, w: Window, c: Candidate, events: seq<Event>) {
    var refs := Kept(k, w, c, events).Keys;
    (exists r :: r in refs && MayBe(k, w, c, events, r, "high", true))
    ==> exists r :: r in refs && !MayBe(k, w, c, events, r, "high", false)
  }

  /** If every reference has an earliest event of strength "low", all the earliest events are "low". */
  ghost predicate LowSettled(k: Clock, w: Window, c: Candidate, events: seq<Event>) {
    var refs := Kept(k, w, c, events).Keys;
    (forall r :: r in refs ==> MayBe(k, w, c, events, r, "low", true))
    ==> forall r :: r in refs ==> !MayBe(k, w, c, events, r, "low", false)
  }

  lemma HighSettledSuffices(k: Clock, w: Window, c: Candidate, events: seq<Event>, p: seq<Event>, q: seq<Event>)
    requires HighSettled(k, w, c, events) && SameEvents(events, p) && SameEvents(events, q)
    requires SomeConcrete(Kept(k, w, c, p))
    ensures SomeConcrete(Kept(k, w, c, q))
  {
    hide Kept, Strength, MayBe;
    KeptReferences(k, w, c, events, p);
    KeptReferences(k, w, c, events, q);
    var a, b := Kept(k, w, c, p), Kept(k, w, c, q);
    var r :| r in a && Strength(a[r]) == "high";
    KeptMayBe(k, w, c, events, p, r, "high", true);
    var r' :| r' in Kept(k, w, c, events).Keys && !MayBe(k, w, c, events, r', "high", false);
    if !Is("high", true, b[r']) { KeptMayBe(k, w, c, events, q, r', "high", false); }
  }

  lemma LowSettledSuffices(k: Clock, w: Window, c: Candidate, events: seq<Event>, p: seq<Event>, q: seq<Event>)
    requires LowSettled(k, w, c, events) && SameEvents(events, p) && SameEvents(events, q)
    requires AllGeneric(Kept(k, w, c, p))
    ensures AllGeneric(Kept(k, w, c, q))
  {
    hide Kept, Strength, MayBe;
    KeptReferences(k, w, c, events, p);
    KeptReferences(k, w, c, events, q);
    var a, b := Kept(k, w, c, p), Kept(k, w, c, q);
    forall r | r in a ensures MayBe(k, w, c, events, r, "low", true) { KeptMayBe(k, w, c, events, p, r, "low", true); }
    forall r | r in b ensures Strength(b[r]) == "low" {
      if !Is("low", true, b[r]) { KeptMayBe(k, w, c, events, q, r, "low", false); }
    }
  }

  lemma HighUnsettled(k: Clock, w: Window, c: Candidate, events: seq<Event>)
    requires c.specificity != "high" && !HighSettled(k, w, c, events)
    ensures !OrderFree(k, w, c, events)
  {
    hide Kept, Strength, MayBe, Regroup, SameEvents;
    RegroupFulfils(k, w, c, events, "high", true);
    RegroupFulfils(k, w, c, events, "high", false);
    var p, q := Regroup("high", true, events), Regroup("high", false, events);
    KeptReferences(k, w, c, events, p);
    KeptReferences(k, w, c, events, q);
    var r :| r in Kept(k, w, c, events).Keys && MayBe(k, w, c, events, r, "high", true);
    assert Strength(Kept(k, w, c, p)[r]) == "high";
    assert Derived(k, w, c, p) == "high";
    assert Derived(k, w, c, q) != "high";
  }

  lemma LowUnsettled(k: Clock, w: Window, c: Candidate, events: seq<Event>)
    requires c.specificity != "low" && !LowSettled(k, w, c, events)
    ensures !OrderFree(k, w, c, events)
  {
    hide Kept, Strength, MayBe, Regroup, SameEvents;
    RegroupFulfils(k, w, c, events, "low", true);
    RegroupFulfils(k, w, c, events, "low", false);
    var p, q := Regroup("low", true, events), Regroup("low", false, events);
    KeptReferences(k, w, c, events, p);
    KeptReferences(k, w, c, events, q);
    var r :| r in Kept(k, w, c, events).Keys && MayBe(k, w, c, events, r, "low", false);
    assert Strength(Kept(k, w, c, q)[r]) != "low";
    assert Derived(k, w, c, p) == "low";
    assert Derived(k, w, c, q) != "low";
  }

  lemma HighIsNotLow(unique: map<string, Event>)
    ensures !(SomeConcrete(unique) && AllGeneric(unique))
  {
  }

  /**
   Exactly when the order of the events does not influence the derived specificity: among
   events of one reference and time the first given is kept, so strength must be settled
   by the earliest events.
   */
  lemma SpecificityOrderFreeIff(k: Clock, w: Window, c: Candidate, events: seq<Event>)
    ensures OrderFree(k, w, c, events)
       <==> && (c.specificity != "high" ==> HighSettled(k, w, c, events))
            && (c.specificity != "low" ==> LowSettled(k, w, c, events))
  {
    hide Kept, SomeConcrete, AllGeneric, HighSettled, LowSettled, SameEvents;
    if c.specificity != "high" && !HighSettled(k, w, c, events) {
      HighUnsettled(k, w, c, events);
    } else if c.specificity != "low" && !LowSettled(k, w, c, events) {
      LowUnsettled(k, w, c, events);
    } else {
      forall p | SameEvents(events, p) ensures Derived(k, w, c, p) == Derived(k, w, c, events) {
        SettledAgree(k, w, c, events, p);
      }
    }
  }

  lemma SettledAgree(k: Clock, w: Window, c: Candidate, events: seq<Event>, p: seq<Event>)
    requires SameEvents(events, p)
    requires c.specificity != "high" ==> HighSettled(k, w, c, events)
    requires c.specificity != "low" ==> LowSettled(k, w, c, events)
    ensures Derived(k, w, c, p) == Derived(k, w, c, events)
  {
    assert SameEvents(events, events);
    hide Kept, SomeConcrete, AllGeneric, HighSettled, LowSettled, SameEvents;
    var a, b := Kept(k, w, c, p), Kept(k, w, c, events);
    HighIsNotLow(a);
    HighIsNotLow(b);
    if c.specificity != "high" {
      if SomeConcrete(a) { HighSettledSuffices(k, w, c, events, p, events); }
      if SomeConcrete(b) { HighSettledSuffices(k, w, c, events, events, p); }
    }
    if c.specificity != "low" {
      if AllGeneric(a) { LowSettledSuffices(k, w, c, events, p, events); }
      if AllGeneric(b) { LowSettledSuffices(k, w, c, events, events, p); }
    }
  }

  /** Two events with the same reference and time but unlike strength: the first one given decides. */
  lemma TieIsDecidedByInputOrder(k: Clock, c: Candidate, concrete: Event, generic: Event)
    requires concrete.candidateId == generic.candidateId == c.id && concrete.ref == generic.ref
    requires concrete.observedAt == generic.observedAt && k.parse(concrete.observedAt).Some?
    requires Strength(concrete) == "high" && Strength(generic) == "low" && c.specificity == "medium"
    ensures var w := Window(None, None);
      && DerivedSpecificity("medium", ScanEvents(k, w, Ordered(c, [concrete, generic])).unique) == "high"
      && DerivedSpecificity("medium", ScanEvents(k, w, Ordered(c, [generic, concrete])).unique) == "low"
  {
    TieScan(k, c, concrete, generic);
    TieScan(k, c, generic, concrete);
    hide ScanEvents, Ordered, Strength;
    assert SomeConcrete(map[concrete.ref := concrete]) by { assert concrete.ref in map[concrete.ref := concrete]; }
    assert concrete.ref in map[concrete.ref := concrete];
    assert !AllGeneric(map[concrete.ref := concrete]);
    assert generic.ref in map[generic.ref := generic];
    assert AllGeneric(map[generic.ref := generic]);
  }

  lemma TieScan(k: Clock, c: Candidate, x: Event, y: Event)
    requires x.candidateId == y.candidateId == c.id && x.ref == y.ref
    requires x.observedAt == y.observedAt && k.parse(x.observedAt).Some?
    ensures ScanEvents(k, Window(None, None), Ordered(c, [x, y])).unique == map[x.ref := x]
  {
    StrLeTotal(x.observedAt, y.observedAt);
    hide StrLe;
    assert [x, y][..1] == [x] && [x][..0] == [];
    assert EventsOf(c, [x]) == [x] && EventsOf(c, [x, y]) == [x, y];
    assert SortEvents([x]) == [x];
    assert SortEvents([x, y]) == InsertEvent([x], y) == [x, y];
    var w := Window(None, None);
    assert ScanEvents(k, w, [x]) == Scan(map[x.ref := x], []);
  }
}
