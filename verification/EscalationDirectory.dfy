/**
 Aggregation over the authority directory and the three stores as a state machine
 (`escalation_authority_writer.py`). Main results: exactly when a present directory leaves
 the release unblocked; adding a file never unblocks it; file order does not matter; and
 over every run of writes a valid artifact lies at the path of its id, a write touches only
 its own path, and a stored invalid payload makes the directory block for good exactly when
 its id does not lead out of it.
 */
module EscalationDirectory {
  import opened Text
  import opened Json
  import opened EscalationLog
  import opened EscalationAuthority

  // ---------------------------------------------------------------- effective lifecycle states

  /** Position in the precedence table; 6 for states that are not in it. */
  function Rank(state: string): nat {
    if state == "invalidated" then 0
    else if state == "active" then 1
    else if state == "resolved_confirmed" then 2
    else if state == "resolved_provisional" then 3
    else if state == "superseded" then 4
    else if state == "archived" then 5
    else 6
  }

  lemma RankInjective(a: string, b: string)
    requires Rank(a) == Rank(b) < 6
    ensures a == b
  {
  }

  predicate Eligible(r: Record) {
    IsText(r.escalationId) && r.lifecycle.JStr? && Rank(r.lifecycle.s) < 6
  }

  /** `_pick_precedence_state` of the state held so far and a new one. */
  function Pick(held: string, state: string): string {
    if Rank(held) <= Rank(state) then held else state
  }

  function WithRecord(effective: map<string, string>, r: Record): map<string, string> {
    if !Eligible(r) then effective
    else
      var id, state := r.escalationId.s, r.lifecycle.s;
      effective[id := if id in effective then Pick(effective[id], state) else state]
  }

  function Effective(records: seq<Record>): map<string, string> {
    if records == [] then map[]
    else WithRecord(Effective(records[..|records| - 1]), records[|records| - 1])
  }

  /** `r` records `state` for `id`. */
  predicate Records(r: Record, id: string, state: string) {
    Eligible(r) && r.escalationId.s == id && r.lifecycle.s == state
  }

  /** The effective state of an id is the recorded state of least rank; ids without one have none. */
  lemma {:induction false} EffectiveIsMinimum(records: seq<Record>, id: string)
    ensures id in Effective(records) <==> exists r :: r in records && Eligible(r) && r.escalationId.s == id
    ensures id in Effective(records) ==> exists r :: r in records && Records(r, id, Effective(records)[id])
    ensures id in Effective(records) ==>
              forall r :: r in records && Eligible(r) && r.escalationId.s == id ==>
                Rank(Effective(records)[id]) <= Rank(r.lifecycle.s)
  {
    hide Rank, Strip;
    if records != [] {
      var n := |records| - 1;
      var before, last := records[..n], records[n];
      assert records == before + [last];
      EffectiveIsMinimum(before, id);
      assert forall r :: r in records <==> r in before || r == last;
      if id in Effective(before) && !(Eligible(last) && last.escalationId.s == id) {
        var r :| r in before && Records(r, id, Effective(before)[id]);
        assert r in records;
      } else if Eligible(last) && last.escalationId.s == id {
        assert last in records && Records(last, id, last.lifecycle.s);
        if id in Effective(before) {
          var r :| r in before && Records(r, id, Effective(before)[id]);
          assert r in records;
        }
      }
    }
  }

  /** Two directories with the same records, in any order, have the same effective states. */
  lemma EffectiveOrderFree(a: seq<Record>, b: seq<Record>)
    requires forall r :: r in a <==> r in b
    ensures Effective(a) == Effective(b)
  {
    hide Effective, Eligible, Rank;
    forall id
      ensures id in Effective(a) <==> id in Effective(b)
      ensures id in Effective(a) ==> Effective(a)[id] == Effective(b)[id]
    {
      EffectiveIsMinimum(a, id);
      EffectiveIsMinimum(b, id);
      if id in Effective(a) {
        EffectiveAgrees(a, b, id);
      }
    }
    assert Effective(a).Keys == Effective(b).Keys;
  }

  lemma EffectiveAgrees(a: seq<Record>, b: seq<Record>, id: string)
    requires (forall r :: r in a <==> r in b) && id in Effective(a)
    ensures id in Effective(b) && Effective(a)[id] == Effective(b)[id]
  {
    hide Effective, Rank;
    EffectiveIsMinimum(a, id);
    EffectiveIsMinimum(b, id);
    var r :| r in a && Records(r, id, Effective(a)[id]);
    var s :| s in b && Records(s, id, Effective(b)[id]);
    RankInjective(Effective(a)[id], Effective(b)[id]);
  }

  // ---------------------------------------------------------------- a present directory

  predicate IdHas(effective: map<string, string>, id: string, state: string) {
    id in effective && effective[id] == state
  }

  predicate SomeHas(effective: map<string, string>, state: string) {
    exists id :: id in effective && IdHas(effective, id, state)
  }

  predicate Overridden(effective: map<string, string>, id: Json) {
    id.JStr? && IdHas(effective, id.s, "resolved_confirmed")
  }

  predicate PrecedenceViolated(effective: map<string, string>, reg: RegisterView) {
    || SomeHas(effective, "invalidated")
    || SomeHas(effective, "active")
    || exists id :: id in reg.activeIds && Overridden(effective, id)
  }

  predicate AllValid(records: seq<Record>) {
    forall r :: r in records ==> r.authorityValid
  }

  predicate SomeBlocks(records: seq<Record>) {
    exists r :: r in records && r.releaseBlocked
  }

  predicate RegisterMissing(reg: RegisterView, required: bool) {
    required && !reg.available
  }

  predicate RegisterProblem(reg: RegisterView) {
    reg.available && !reg.ok
  }

  datatype Verdict = Verdict(available: bool, ok: bool, blocked: bool, reasons: set<Json>,
                             effective: map<string, string>)

  function OverrideReason(id: Json): Json
    requires id.JStr?
  {
    JStr("authority_precedence_active_register_overrides_resolved_confirmed:" + id.s)
  }

  function StateReason(invalidated: bool): Json {
    JStr(if invalidated then "authority_precedence_invalidated_blocks_release"
         else "authority_precedence_active_blocks_release")
  }

  function PrecedenceReasons(effective: map<string, string>, reg: RegisterView): set<Json> {
    (if SomeHas(effective, "invalidated") then {StateReason(true)} else {})
    + (if SomeHas(effective, "active") then {StateReason(false)} else {})
    + (set id | id in reg.activeIds && Overridden(effective, id) :: OverrideReason(id))
  }

  function RegisterReasons(reg: RegisterView, required: bool): set<Json> {
    (if RegisterMissing(reg, required) then {JStr("mandatory_register_missing")} else {})
    + (if RegisterProblem(reg) then set r | r in reg.reasons :: JStr(r) else {})
  }

  function OwnReasons(records: seq<Record>): set<Json> {
    set r, x | r in records && x in r.reasons :: x
  }

  /** The verdict on the records of a present directory. */
  function Judge(records: seq<Record>, reg: RegisterView, required: bool): Verdict {
    var effective := Effective(records);
    var violated := PrecedenceViolated(effective, reg);
    Verdict(
      records != [],
      AllValid(records) && !RegisterProblem(reg) && !violated && !RegisterMissing(reg, required),
      SomeBlocks(records) || !AllValid(records) || violated || RegisterMissing(reg, required) || RegisterProblem(reg),
      OwnReasons(records) + PrecedenceReasons(effective, reg) + RegisterReasons(reg, required),
      effective)
  }

  /**
   A present directory leaves the release unblocked exactly when no record blocks or is
   invalid, none records an active or invalidated state, no id the register lists as active
   is recorded resolved_confirmed, and the register is trusted and, if required, present.
   */
  lemma UnblockedIff(records: seq<Record>, reg: RegisterView, required: bool)
    ensures !Judge(records, reg, required).blocked <==>
      && (forall r :: r in records ==> r.authorityValid && !r.releaseBlocked)
      && (forall r :: r in records && Eligible(r) ==> r.lifecycle.s != "active" && r.lifecycle.s != "invalidated")
      && (forall r :: r in records && Eligible(r) && r.lifecycle.s == "resolved_confirmed" ==>
            r.escalationId !in reg.activeIds)
      && !RegisterMissing(reg, required) && !RegisterProblem(reg)
  {
    forall id ensures Settled(records, id) { SettledStates(records, id); }
    hide Effective, Eligible, RegisterMissing, RegisterProblem, PrecedenceReasons, RegisterReasons, OwnReasons,
      Settled, Rank;
    UnblockedPrecedence(records, reg);
  }

  /** What the effective state of one id says about its records. */
  ghost predicate Settled(records: seq<Record>, id: string) {
    var e := Effective(records);
    && (IdHas(e, id, "invalidated") <==> exists r :: r in records && Records(r, id, "invalidated"))
    && (IdHas(e, id, "active") ==> exists r :: r in records && Records(r, id, "active"))
    && ((exists r :: r in records && Records(r, id, "active")) ==>
          IdHas(e, id, "active") || IdHas(e, id, "invalidated"))
    && (IdHas(e, id, "resolved_confirmed") ==> exists r :: r in records && Records(r, id, "resolved_confirmed"))
    && ((exists r :: r in records && Records(r, id, "resolved_confirmed")) ==>
          IdHas(e, id, "resolved_confirmed") || IdHas(e, id, "active") || IdHas(e, id, "invalidated"))
  }

  lemma LowRanks(state: string)
    ensures Rank(state) <= 0 <==> state == "invalidated"
    ensures Rank(state) <= 1 <==> state == "invalidated" || state == "active"
    ensures Rank(state) <= 2 <==> state == "invalidated" || state == "active" || state == "resolved_confirmed"
  {
  }

  lemma SettledStates(records: seq<Record>, id: string)
    ensures Settled(records, id)
  {
    EffectiveIsMinimum(records, id);
    var e := Effective(records);
    if id in e {
      LowRanks(e[id]);
    }
    LowRanks("invalidated");
    LowRanks("active");
    LowRanks("resolved_confirmed");
    hide Effective, Rank, Strip;
  }

  lemma UnblockedPrecedence(records: seq<Record>, reg: RegisterView)
    requires forall id :: Settled(records, id)
    ensures !PrecedenceViolated(Effective(records), reg) <==>
      && (forall r :: r in records && Eligible(r) ==> r.lifecycle.s != "active" && r.lifecycle.s != "invalidated")
      && (forall r :: r in records && Eligible(r) && r.lifecycle.s == "resolved_confirmed" ==>
            r.escalationId !in reg.activeIds)
  {
    hide Effective, Rank, Strip;
    var e := Effective(records);
    if PrecedenceViolated(e, reg) {
      if SomeHas(e, "invalidated") {
        var id :| id in e && IdHas(e, id, "invalidated");
        assert Settled(records, id);
      } else if SomeHas(e, "active") {
        var id :| id in e && IdHas(e, id, "active");
        assert Settled(records, id);
      } else {
        var id :| id in reg.activeIds && Overridden(e, id);
        assert Settled(records, id.s);
        var r :| r in records && Records(r, id.s, "resolved_confirmed");
        assert r.escalationId == id;
      }
    } else {
      forall r | r in records && Eligible(r)
        ensures r.lifecycle.s != "active" && r.lifecycle.s != "invalidated"
        ensures r.lifecycle.s == "resolved_confirmed" ==> r.escalationId !in reg.activeIds
      {
        RecordUnblocked(records, reg, r);
      }
    }
  }

  lemma RecordUnblocked(records: seq<Record>, reg: RegisterView, r: Record)
    requires r in records && Eligible(r) && Settled(records, r.escalationId.s)
    requires !PrecedenceViolated(Effective(records), reg)
    ensures r.lifecycle.s != "active" && r.lifecycle.s != "invalidated"
    ensures r.lifecycle.s == "resolved_confirmed" ==> r.escalationId !in reg.activeIds
  {
    hide Effective, Rank, Strip;
    var e, id := Effective(records), r.escalationId.s;
    assert Records(r, id, r.lifecycle.s);
    assert IdHas(e, id, "invalidated") ==> SomeHas(e, "invalidated");
    assert IdHas(e, id, "active") ==> SomeHas(e, "active");
    assert r.escalationId in reg.activeIds && IdHas(e, id, "resolved_confirmed") ==> Overridden(e, r.escalationId);
  }

  // ---------------------------------------------------------------- the aggregation loops

  predicate Distinct(reasons: seq<Json>) {
    forall i, j :: 0 <= i < j < |reasons| ==> reasons[i] != reasons[j]
  }

  function SetOf(reasons: seq<Json>): set<Json> {
    set x | x in reasons
  }

  /** Appending in turn whatever is not there yet. */
  function Onto(reasons: seq<Json>, more: seq<Json>): seq<Json> {
    if more == [] then reasons
    else
      var before := Onto(reasons, more[..|more| - 1]);
      if more[|more| - 1] in before then before else before + [more[|more| - 1]]
  }

  /** The reasons of the records, each where it first occurs. */
  function OwnOrdered(records: seq<Record>): seq<Json> {
    if records == [] then [] else Onto(OwnOrdered(records[..|records| - 1]), records[|records| - 1].reasons)
  }

  method AppendUnique(reasons: seq<Json>, reason: Json) returns (out: seq<Json>)
    requires Distinct(reasons)
    ensures Distinct(out) && SetOf(out) == SetOf(reasons) + {reason}
    ensures out == if reason in reasons then reasons else reasons + [reason]
  {
    out := reasons;
    if reason !in reasons {
      out := out + [reason];
    }
  }

  method AppendAllUnique(reasons: seq<Json>, more: seq<Json>) returns (out: seq<Json>)
    requires Distinct(reasons)
    ensures Distinct(out) && SetOf(out) == SetOf(reasons) + SetOf(more)
    ensures out == Onto(reasons, more) && reasons <= out
  {
    out := reasons;
    for i := 0 to |more|
      invariant Distinct(out) && SetOf(out) == SetOf(reasons) + SetOf(more[..i])
      invariant out == Onto(reasons, more[..i]) && reasons <= out
    {
      hide Distinct;
      assert more[..i + 1] == more[..i] + [more[i]];
      assert more[..i + 1][..i] == more[..i];
      out := AppendUnique(out, more[i]);
    }
    assert more[..|more|] == more;
  }

  lemma OwnStep(records: seq<Record>, i: nat)
    requires i < |records|
    ensures OwnReasons(records[..i + 1]) == OwnReasons(records[..i]) + SetOf(records[i].reasons)
    ensures OwnOrdered(records[..i + 1]) == Onto(OwnOrdered(records[..i]), records[i].reasons)
  {
    hide Onto;
    assert records[..i + 1] == records[..i] + [records[i]];
    assert records[..i + 1][..i] == records[..i];
  }

  method CollectOwnReasons(records: seq<Record>) returns (reasons: seq<Json>)
    ensures Distinct(reasons) && SetOf(reasons) == OwnReasons(records) && reasons == OwnOrdered(records)
  {
    reasons := [];
    for i := 0 to |records|
      invariant Distinct(reasons) && SetOf(reasons) == OwnReasons(records[..i]) && reasons == OwnOrdered(records[..i])
    {
      hide *;
      OwnStep(records, i);
      reasons := AppendAllUnique(reasons, records[i].reasons);
    }
    assert records[..|records|] == records;
  }

  lemma EffectiveStep(records: seq<Record>, i: nat)
    requires i < |records|
    ensures Effective(records[..i + 1]) == WithRecord(Effective(records[..i]), records[i])
  {
    hide WithRecord;
    assert records[..i + 1][..i] == records[..i];
  }

  method CollectEffective(records: seq<Record>) returns (effective: map<string, string>)
    ensures effective == Effective(records)
  {
    effective := map[];
    for i := 0 to |records|
      invariant effective == Effective(records[..i])
    {
      hide Rank, IsText, Effective, Pick;
      EffectiveStep(records, i);
      var r := records[i];
      if !IsText(r.escalationId) {
        continue;
      }
      RankBound(r.lifecycle);
      if !r.lifecycle.JStr? || Rank(r.lifecycle.s) == 6 {
        continue;
      }
      TextIsString(r.escalationId);
      var id := r.escalationId.s;
      effective := effective[id := if id in effective then Pick(effective[id], r.lifecycle.s) else r.lifecycle.s];
    }
    assert records[..|records|] == records;
  }

  lemma RankBound(j: Json)
    ensures j.JStr? ==> Rank(j.s) <= 6
  {
  }

  /** The reasons for the ids of `done`. */
  ghost function StateReasons(effective: map<string, string>, done: set<string>): set<Json> {
    (if exists id :: id in done && IdHas(effective, id, "invalidated") then {StateReason(true)} else {})
    + (if exists id :: id in done && IdHas(effective, id, "active") then {StateReason(false)} else {})
  }

  lemma OneMoreState(effective: map<string, string>, done: set<string>, id: string)
    ensures StateReasons(effective, done + {id}) == StateReasons(effective, done)
      + (if IdHas(effective, id, "invalidated") then {StateReason(true)} else {})
      + (if IdHas(effective, id, "active") then {StateReason(false)} else {})
  {
    hide IdHas, StateReason;
    assert (exists k :: k in done + {id} && IdHas(effective, k, "invalidated"))
      <==> (exists k :: k in done && IdHas(effective, k, "invalidated")) || IdHas(effective, id, "invalidated");
    assert (exists k :: k in done + {id} && IdHas(effective, k, "active"))
      <==> (exists k :: k in done && IdHas(effective, k, "active")) || IdHas(effective, id, "active");
  }

  lemma UnionAssociative<T>(a: set<T>, b: set<T>, c: set<T>)
    ensures a + (b + c) == (a + b) + c
  {
  }

  /** One iteration: the reason of the id at hand joins those found so far. */
  method StepState(ghost effective: map<string, string>, ghost done: set<string>, ghost id: string, state: string,
                   ghost start: seq<Json>, violated: bool, reasons: seq<Json>)
      returns (nowViolated: bool, out: seq<Json>)
    requires id in effective && effective[id] == state && Distinct(reasons)
    requires violated <==> StateReasons(effective, done) != {}
    requires SetOf(reasons) == SetOf(start) + StateReasons(effective, done)
    ensures Distinct(out) && (nowViolated <==> StateReasons(effective, done + {id}) != {})
    ensures SetOf(out) == SetOf(start) + StateReasons(effective, done + {id}) && reasons <= out
  {
    hide StateReasons, SetOf, Distinct;
    OneMoreState(effective, done, id);
    nowViolated, out := violated, reasons;
    if state == "invalidated" {
      UnionAssociative(SetOf(start), StateReasons(effective, done), {StateReason(true)});
      nowViolated := true;
      out := AppendUnique(out, StateReason(true));
    } else if state == "active" {
      UnionAssociative(SetOf(start), StateReasons(effective, done), {StateReason(false)});
      nowViolated := true;
      out := AppendUnique(out, StateReason(false));
    }
  }

  lemma NoStateReasons(effective: map<string, string>, start: seq<Json>)
    ensures StateReasons(effective, {}) == {} && SetOf(start) + StateReasons(effective, {}) == SetOf(start)
  {
  }

  /** The loop over the effective states, in any iteration order. */
  method CollectStates(effective: map<string, string>, start: seq<Json>) returns (violated: bool, reasons: seq<Json>)
    requires Distinct(start)
    ensures violated <==> StateReasons(effective, effective.Keys) != {}
    ensures Distinct(reasons) && SetOf(reasons) == SetOf(start) + StateReasons(effective, effective.Keys)
    ensures start <= reasons
  {
    hide *;
    NoStateReasons(effective, start);
    violated, reasons := false, start;
    var ids := effective.Keys;
    ghost var done: set<string> := {};
    while ids != {}
      invariant ids + done == effective.Keys && ids !! done
      invariant Distinct(reasons) && start <= reasons
      invariant violated <==> StateReasons(effective, done) != {}
      invariant SetOf(reasons) == SetOf(start) + StateReasons(effective, done)
      decreases |ids|
    {
      var id :| id in ids;
      violated, reasons := StepState(effective, done, id, effective[id], start, violated, reasons);
      ids, done := ids - {id}, done + {id};
    }
    assert done == effective.Keys;
  }

  ghost function OverrideReasons(effective: map<string, string>, ids: set<Json>): set<Json> {
    set id | id in ids && Overridden(effective, id) :: OverrideReason(id)
  }

  lemma OneMoreOverride(effective: map<string, string>, ids: set<Json>, id: Json)
    ensures OverrideReasons(effective, ids + {id})
         == OverrideReasons(effective, ids) + (if Overridden(effective, id) then {OverrideReason(id)} else {})
  {
    hide OverrideReason;
  }

  method StepOverride(effective: map<string, string>, ghost done: set<Json>, id: Json,
                      ghost start: seq<Json>, violated: bool, reasons: seq<Json>)
      returns (nowViolated: bool, out: seq<Json>)
    requires Distinct(reasons)
    requires violated <==> OverrideReasons(effective, done) != {}
    requires SetOf(reasons) == SetOf(start) + OverrideReasons(effective, done)
    ensures Distinct(out) && (nowViolated <==> OverrideReasons(effective, done + {id}) != {})
    ensures SetOf(out) == SetOf(start) + OverrideReasons(effective, done + {id}) && reasons <= out
  {
    hide OverrideReasons, OverrideReason, SetOf, Distinct;
    OneMoreOverride(effective, done, id);
    nowViolated, out := violated, reasons;
    if id.JStr? && id.s in effective && effective[id.s] == "resolved_confirmed" {
      UnionAssociative(SetOf(start), OverrideReasons(effective, done), {OverrideReason(id)});
      nowViolated := true;
      out := AppendUnique(out, OverrideReason(id));
    }
  }

  lemma NoOverrideReasons(effective: map<string, string>, start: seq<Json>)
    ensures OverrideReasons(effective, {}) == {} && SetOf(start) + OverrideReasons(effective, {}) == SetOf(start)
  {
  }

  /** The loop over the ids the register lists as active, in any iteration order. */
  method CollectOverrides(effective: map<string, string>, ids: set<Json>, start: seq<Json>)
      returns (violated: bool, reasons: seq<Json>)
    requires Distinct(start)
    ensures violated <==> OverrideReasons(effective, ids) != {}
    ensures Distinct(reasons) && SetOf(reasons) == SetOf(start) + OverrideReasons(effective, ids)
    ensures start <= reasons
  {
    hide *;
    NoOverrideReasons(effective, start);
    violated, reasons := false, start;
    var left := ids;
    ghost var done: set<Json> := {};
    while left != {}
      invariant left + done == ids && left !! done
      invariant Distinct(reasons) && start <= reasons
      invariant violated <==> OverrideReasons(effective, done) != {}
      invariant SetOf(reasons) == SetOf(start) + OverrideReasons(effective, done)
      decreases |left|
    {
      var id :| id in left;
      violated, reasons := StepOverride(effective, done, id, start, violated, reasons);
      left, done := left - {id}, done + {id};
    }
    assert done == ids;
  }

  lemma PrecedencePieces(effective: map<string, string>, reg: RegisterView)
    ensures PrecedenceReasons(effective, reg)
         == StateReasons(effective, effective.Keys) + OverrideReasons(effective, SetOf(reg.activeIds))
    ensures PrecedenceViolated(effective, reg)
         <==> StateReasons(effective, effective.Keys) != {} || OverrideReasons(effective, SetOf(reg.activeIds)) != {}
  {
    hide OverrideReason, IdHas;
    var s := StateReasons(effective, effective.Keys);
    assert SomeHas(effective, "invalidated") ==> StateReason(true) in s;
    assert SomeHas(effective, "active") ==> StateReason(false) in s;
    if PrecedenceViolated(effective, reg) && s == {} {
      var id :| id in reg.activeIds && Overridden(effective, id);
      assert OverrideReason(id) in OverrideReasons(effective, SetOf(reg.activeIds));
    }
  }

  method AddRegisterReasons(reg: RegisterView, required: bool, start: seq<Json>) returns (reasons: seq<Json>)
    requires Distinct(start)
    ensures Distinct(reasons) && SetOf(reasons) == SetOf(start) + RegisterReasons(reg, required)
    ensures start <= reasons
  {
    hide SetOf, Distinct;
    reasons := start;
    if RegisterMissing(reg, required) {
      reasons := AppendUnique(reasons, JStr("mandatory_register_missing"));
    }
    if RegisterProblem(reg) {
      reasons := AppendAllUnique(reasons, Strings(reg.reasons));
      StringSet(reg.reasons);
    }
  }

  /** The verdict as the source computes it, flag by flag and reason by reason. */
  method JudgeRecords(records: seq<Record>, reg: RegisterView, required: bool) returns (v: Verdict, reasons: seq<Json>)
    ensures v == Judge(records, reg, required)
    ensures Distinct(reasons) && SetOf(reasons) == v.reasons && OwnOrdered(records) <= reasons
  {
    hide OwnOrdered, Effective, PrecedenceReasons, PrecedenceViolated, OwnReasons, Eligible, StateReasons,
      OverrideReasons, RegisterReasons, SetOf, Distinct, RegisterMissing, RegisterProblem;
    var allOk := AllValid(records);
    var blocked := SomeBlocks(records) || (|records| > 0 && !allOk);
    reasons := CollectOwnReasons(records);
    var effective := CollectEffective(records);
    PrecedencePieces(effective, reg);
    var active, overridden;
    active, reasons := CollectStates(effective, reasons);
    overridden, reasons := CollectOverrides(effective, SetOf(reg.activeIds), reasons);
    UnionAssociative(OwnReasons(records), StateReasons(effective, effective.Keys),
                     OverrideReasons(effective, SetOf(reg.activeIds)));
    var violated := active || overridden;
    if violated {
      blocked := true;
    }
    if RegisterMissing(reg, required) || RegisterProblem(reg) {
      blocked := true;
    }
    reasons := AddRegisterReasons(reg, required, reasons);
    v := Verdict(|records| > 0, allOk && !RegisterProblem(reg) && !violated && !RegisterMissing(reg, required),
                 blocked, SetOf(reasons), effective);
  }

  lemma StringSet(items: seq<string>)
    ensures SetOf(Strings(items)) == set r | r in items :: JStr(r)
  {
    StringsMembers(items);
    StringsOnly(items);
  }

  lemma {:induction false} StringsOnly(items: seq<string>)
    ensures forall j :: j in Strings(items) ==> j.JStr?
  {
    if items != [] {
      StringsOnly(items[1..]);
    }
  }

  // ---------------------------------------------------------------- from files to a verdict

  /** Assessing files in turn; the first one that raises ends the assessment. */
  function AssessAll(e: Env, files: seq<FileContent>, known: Option<set<string>>): Outcome<seq<Record>> {
    if files == [] then Done([])
    else
      var first := AssessArtifact(e, files[0], known);
      var rest := AssessAll(e, files[1..], known);
      if first.Raised? || rest.Raised? then Raised else Done([first.value] + rest.value)
  }

  datatype Source = RegisterRequiredMissing | EscalationExpectedMissing | RegisterIntegrityFailed | NoEscalationExpected
                  | WriterMonopoly

  datatype Assessment = Assessment(source: Source, verdict: Verdict)

  function Refusal(source: Source, reasons: set<Json>): Assessment {
    Assessment(source, Verdict(false, false, true, reasons, map[]))
  }

  predicate EscalationActive(log: Option<string>, reg: RegisterView) {
    (log.Some? && log.value != "") || (reg.available && reg.ok && reg.activeIds != [])
  }

  function AssessMissing(log: Option<string>, reg: RegisterView, required: bool): Assessment {
    if RegisterMissing(reg, required) then
      Refusal(RegisterRequiredMissing, {JStr("mandatory_register_missing")})
    else if EscalationActive(log, reg) then
      Refusal(EscalationExpectedMissing, {JStr("escalation_active_but_no_authority_artifacts")})
    else if RegisterProblem(reg) then
      Refusal(RegisterIntegrityFailed, set r | r in reg.reasons :: JStr(r))
    else Assessment(NoEscalationExpected, Verdict(false, true, false, {}, map[]))
  }

  /**
   What `assess_authority_directory` reports. `dir` lists the artifact files in the order
   they are read; none when the directory is missing. Log and register activity counts only then.
   */
  function AssessDirectory(e: Env, dir: Option<seq<FileContent>>, log: Option<string>, register: FileContent,
                           required: bool): Outcome<Assessment>
  {
    var reg := AssessRegister(register, e.keyOrder);
    if reg.Raised? then Raised
    else if dir.None? then Done(AssessMissing(log, reg.value, required))
    else
      var hashes := LogHashes(e.codec, log);
      if hashes.Raised? then Raised
      else
        var records := AssessAll(e, dir.value, Some(hashes.value));
        if records.Raised? || exists id :: id in reg.value.activeIds && !Hashable(id) then Raised
        else Done(Assessment(WriterMonopoly, Judge(records.value, reg.value, required)))
  }

  /** The records of the files, read one after the other; an exception ends the reading. */
  method AssessFiles(e: Env, files: seq<FileContent>, known: Option<set<string>>) returns (r: Outcome<seq<Record>>)
    ensures r == AssessAll(e, files, known)
  {
    var records: seq<Record> := [];
    assert files[0..] == files;
    assert AssessAll(e, files, known).Done? ==>
             [] + AssessAll(e, files, known).value == AssessAll(e, files, known).value;
    for i := 0 to |files|
      invariant AssessAll(e, files, known).Raised? <==> AssessAll(e, files[i..], known).Raised?
      invariant AssessAll(e, files[i..], known).Done? ==>
                  AssessAll(e, files, known) == Done(records + AssessAll(e, files[i..], known).value)
    {
      hide AssessArtifact;
      assert files[i..][1..] == files[i + 1..];
      var record := AssessArtifact(e, files[i], known);
      if record.Raised? {
        return Raised;
      }
      if AssessAll(e, files[i + 1..], known).Done? {
        Associative(records, [record.value], AssessAll(e, files[i + 1..], known).value);
      }
      records := records + [record.value];
    }
    assert records + [] == records;
    return Done(records);
  }

  // ---------------------------------------------------------------- reports beside the verdict

  /** How artifacts are bound to the log, and the weakest evidence among them. */
  datatype Evidence = Evidence(bound: nat, unbound: nat, noReference: nat, level: Level)

  function Strength(level: Level): nat {
    match level case LogBindingFailed => 0 case NoEvidence => 1 case LogUnbound => 2 case LogBound => 3
  }

  function CountBinding(records: seq<Record>, binding: Option<bool>): nat {
    if records == [] then 0
    else
      CountBinding(records[..|records| - 1], binding)
      + (if records[|records| - 1].logBinding == binding then 1 else 0)
  }

  function Weakest(records: seq<Record>): Level {
    if records == [] then NoEvidence
    else
      var last := records[|records| - 1].level;
      if |records| == 1 then last
      else
        var before := Weakest(records[..|records| - 1]);
        if Strength(last) < Strength(before) then last else before
  }

  function EvidenceOf(records: seq<Record>): Evidence {
    Evidence(CountBinding(records, Some(true)), CountBinding(records, Some(false)), CountBinding(records, None),
             Weakest(records))
  }

  lemma {:induction false} BindingsCounted(records: seq<Record>)
    ensures CountBinding(records, Some(true)) + CountBinding(records, Some(false)) + CountBinding(records, None)
         == |records|
  {
    if records != [] {
      BindingsCounted(records[..|records| - 1]);
      match records[|records| - 1].logBinding {
        case None =>
        case Some(b) => assert b == true || b == false;
      }
    }
  }

  /**
   Every artifact is counted once; the directory's level is the weakest of its artifacts, so
   a directory counts as bound exactly when it has artifacts and all of them are.
   */
  lemma {:induction false} EvidenceMeaning(records: seq<Record>)
    ensures var e := EvidenceOf(records);
      && e.bound + e.unbound + e.noReference == |records|
      && (records != [] ==> exists r :: r in records && r.level == e.level)
      && (forall r :: r in records ==> Strength(e.level) <= Strength(r.level))
      && (e.level == LogBound <==> records != [] && forall r :: r in records ==> r.level == LogBound)
  {
    BindingsCounted(records);
    if records != [] {
      hide CountBinding;
      var n := |records| - 1;
      EvidenceMeaning(records[..n]);
      assert records == records[..n] + [records[n]];
      assert records[n] in records;
      if n > 0 {
        var r :| r in records[..n] && r.level == Weakest(records[..n]);
        assert r in records;
      }
    }
  }

  /** Reported when the caller requires a log; it never blocks. */
  function LogAdvisory(requireLog: bool, log: Option<string>): Option<string> {
    if !requireLog then None
    else if log.None? then Some("escalation_log_missing")
    else if log.value == "" then Some("escalation_log_empty")
    else None
  }

  /** The whole assessment with its reports; `evidence` and `advisory` decide nothing. */
  method AssessAuthorityDirectory(e: Env, dir: Option<seq<FileContent>>, log: Option<string>, register: FileContent,
                                  required: bool, requireLog: bool)
      returns (r: Outcome<Assessment>, reasons: seq<Json>, evidence: Option<Evidence>, advisory: Option<string>)
    ensures r == AssessDirectory(e, dir, log, register, required)
    ensures r.Done? ==> SetOf(reasons) == r.value.verdict.reasons
    ensures evidence.Some? <==> r.Done? && dir.Some?
    ensures evidence.Some? ==>
              evidence.value == EvidenceOf(AssessAll(e, dir.value, Some(LogHashes(e.codec, log).value)).value)
    ensures advisory == if r.Done? && (dir.Some? || r.value.source == NoEscalationExpected)
                        then LogAdvisory(requireLog, log) else None
  {
    hide AssessRegister, AssessAll, Judge, LogHashes, EscalationActive, RegisterProblem, Hashable, EvidenceOf;
    reasons, evidence, advisory := [], None, None;
    var reg := AssessRegister(register, e.keyOrder);
    if reg.Raised? {
      return Raised, reasons, evidence, advisory;
    }
    if dir.None? {
      if RegisterMissing(reg.value, required) {
        reasons := [JStr("mandatory_register_missing")];
      } else if EscalationActive(log, reg.value) {
        reasons := [JStr("escalation_active_but_no_authority_artifacts")];
      } else if RegisterProblem(reg.value) {
        reasons := Strings(reg.value.reasons);
        StringSet(reg.value.reasons);
      } else {
        advisory := LogAdvisory(requireLog, log);
      }
      return Done(AssessMissing(log, reg.value, required)), reasons, evidence, advisory;
    }
    var hashes := ReadLogEntryHashes(e.codec, log);
    if hashes.Raised? {
      return Raised, reasons, evidence, advisory;
    }
    var records := AssessFiles(e, dir.value, Some(hashes.value));
    if records.Raised? || exists id :: id in reg.value.activeIds && !Hashable(id) {
      return Raised, reasons, evidence, advisory;
    }
    var v;
    v, reasons := JudgeRecords(records.value, reg.value, required);
    evidence, advisory := Some(EvidenceOf(records.value)), LogAdvisory(requireLog, log);
    r := Done(Assessment(WriterMonopoly, v));
  }

  lemma {:induction false} AssessAllMembers(e: Env, files: seq<FileContent>, known: Option<set<string>>)
    ensures AssessAll(e, files, known).Raised? <==> exists f :: f in files && AssessArtifact(e, f, known).Raised?
    ensures AssessAll(e, files, known).Done? ==> |AssessAll(e, files, known).value| == |files|
    ensures AssessAll(e, files, known).Done? ==>
              forall r :: r in AssessAll(e, files, known).value
                     <==> exists f :: f in files && AssessArtifact(e, f, known) == Done(r)
  {
    hide AssessArtifact;
    if files != [] {
      AssessAllMembers(e, files[1..], known);
      assert files == [files[0]] + files[1..];
      assert forall f :: f in files <==> f == files[0] || f in files[1..];
    }
  }

  /** The verdict depends on the set of records only, not on their order. */
  lemma JudgeOrderFree(a: seq<Record>, b: seq<Record>, reg: RegisterView, required: bool)
    requires forall r :: r in a <==> r in b
    ensures Judge(a, reg, required) == Judge(b, reg, required)
  {
    EffectiveOrderFree(a, b);
    hide Effective, PrecedenceViolated, PrecedenceReasons, RegisterReasons, RegisterMissing, RegisterProblem;
    assert OwnReasons(a) == OwnReasons(b);
    assert a == [] <==> b == [] by {
      if a != [] { assert a[0] in b; }
      if b != [] { assert b[0] in a; }
    }
  }

  lemma JudgeMonotone(a: seq<Record>, b: seq<Record>, reg: RegisterView, required: bool)
    requires forall r :: r in a ==> r in b
    requires Judge(a, reg, required).blocked
    ensures Judge(b, reg, required).blocked
  {
    UnblockedIff(a, reg, required);
    UnblockedIff(b, reg, required);
    hide Judge, Eligible, RegisterMissing, RegisterProblem;
  }

  /** With log and register fixed, no added file, of whatever content, ever unblocks the release. */
  lemma MoreFilesNeverUnblock(e: Env, some: seq<FileContent>, more: seq<FileContent>, log: Option<string>,
                              register: FileContent, required: bool)
    requires forall f :: f in some ==> f in more
    requires AssessDirectory(e, Some(some), log, register, required).Done?
    requires AssessDirectory(e, Some(some), log, register, required).value.verdict.blocked
    ensures AssessDirectory(e, Some(more), log, register, required).Raised?
         || AssessDirectory(e, Some(more), log, register, required).value.verdict.blocked
  {
    hide AssessArtifact, Judge, AssessRegister, LogHashes, AssessAll;
    var known := Some(LogHashes(e.codec, log).value);
    var reg := AssessRegister(register, e.keyOrder).value;
    AssessAllMembers(e, some, known);
    AssessAllMembers(e, more, known);
    if AssessAll(e, more, known).Done? {
      JudgeMonotone(AssessAll(e, some, known).value, AssessAll(e, more, known).value, reg, required);
    }
  }

  /** The order in which the files are read changes nothing. */
  lemma FileOrderFree(e: Env, a: seq<FileContent>, b: seq<FileContent>, log: Option<string>,
                      register: FileContent, required: bool)
    requires forall f :: f in a <==> f in b
    ensures AssessDirectory(e, Some(a), log, register, required) == AssessDirectory(e, Some(b), log, register, required)
  {
    hide AssessArtifact, Judge, AssessRegister, LogHashes, AssessAll;
    if AssessRegister(register, e.keyOrder).Done? && LogHashes(e.codec, log).Done? {
      var known := Some(LogHashes(e.codec, log).value);
      AssessAllMembers(e, a, known);
      AssessAllMembers(e, b, known);
      if AssessAll(e, a, known).Done? {
        JudgeOrderFree(AssessAll(e, a, known).value, AssessAll(e, b, known).value,
                       AssessRegister(register, e.keyOrder).value, required);
      }
    }
  }

  lemma ActiveRegister(ids: seq<string>, at: string, keyOrder: Obj -> seq<string>)
    requires ids != []
    ensures AssessRegister(Parsed(RegisterJson(ids, at)), keyOrder).Done?
    ensures var reg := AssessRegister(Parsed(RegisterJson(ids, at)), keyOrder).value;
      && reg.available && reg.ok && reg.activeIds != [] && forall id :: id in reg.activeIds ==> id.JStr?
  {
    RegisterRoundTrip(ids, at, keyOrder);
    StringsOnly(Dedup(ids));
    hide AssessRegister, RegisterJson, Dedup, Strings;
    assert ids[0] in ids && JStr(ids[0]) in AssessRegister(Parsed(RegisterJson(ids, at)), keyOrder).value.activeIds;
  }

  lemma NoRecords(e: Env, known: Option<set<string>>)
    ensures AssessAll(e, [], known) == Done([])
  {
  }

  lemma MissingBlocks(e: Env, log: Option<string>, register: FileContent, required: bool)
    requires AssessRegister(register, e.keyOrder).Done?
    requires var reg := AssessRegister(register, e.keyOrder).value; reg.available && reg.ok && reg.activeIds != []
    ensures AssessDirectory(e, None, log, register, required).Done?
    ensures AssessDirectory(e, None, log, register, required).value.verdict.blocked
  {
    hide AssessRegister, LogHashes, AssessAll, Judge;
  }

  lemma NothingBlocks(reg: RegisterView, required: bool)
    requires reg.available && reg.ok
    ensures !Judge([], reg, required).blocked
  {
    UnblockedIff([], reg, required);
    hide Judge, Eligible;
  }

  /** A present directory whose files can all be read is judged by their records. */
  lemma AssessPresent(e: Env, files: seq<FileContent>, log: Option<string>, register: FileContent, required: bool,
                      reg: RegisterView, hashes: set<string>, records: seq<Record>)
    requires AssessRegister(register, e.keyOrder) == Done(reg) && LogHashes(e.codec, log) == Done(hashes)
    requires AssessAll(e, files, Some(hashes)) == Done(records) && forall id :: id in reg.activeIds ==> Hashable(id)
    ensures AssessDirectory(e, Some(files), log, register, required)
         == Done(Assessment(WriterMonopoly, Judge(records, reg, required)))
  {
    hide AssessRegister, LogHashes, AssessAll, Judge, AssessMissing, Hashable;
  }

  lemma StringsHashable(ids: seq<Json>)
    requires forall id :: id in ids ==> id.JStr?
    ensures forall id :: id in ids ==> Hashable(id)
  {
  }

  lemma EmptyUnblocked(e: Env, log: Option<string>, register: FileContent, required: bool)
    requires AssessRegister(register, e.keyOrder).Done? && LogHashes(e.codec, log).Done?
    requires var reg := AssessRegister(register, e.keyOrder).value;
      reg.available && reg.ok && forall id :: id in reg.activeIds ==> id.JStr?
    ensures AssessDirectory(e, Some([]), log, register, required).Done?
    ensures !AssessDirectory(e, Some([]), log, register, required).value.verdict.blocked
  {
    hide *;
    var reg, hashes := AssessRegister(register, e.keyOrder).value, LogHashes(e.codec, log).value;
    StringsHashable(reg.activeIds);
    NoRecords(e, Some(hashes));
    NothingBlocks(reg, required);
    AssessPresent(e, [], log, register, required, reg, hashes, []);
  }

  /** Activity without a directory blocks; an empty directory is not blocked by it. */
  lemma EmptyDirectoryIsLenient(e: Env, log: Option<string>, ids: seq<string>, at: string)
    requires LogHashes(e.codec, log).Done? && ids != []
    ensures var register := Parsed(RegisterJson(ids, at));
      && AssessDirectory(e, None, log, register, true).Done?
      && AssessDirectory(e, None, log, register, true).value.verdict.blocked
      && AssessDirectory(e, Some([]), log, register, true).Done?
      && !AssessDirectory(e, Some([]), log, register, true).value.verdict.blocked
  {
    hide *;
    ActiveRegister(ids, at, e.keyOrder);
    MissingBlocks(e, log, Parsed(RegisterJson(ids, at)), true);
    EmptyUnblocked(e, log, Parsed(RegisterJson(ids, at)), true);
  }

  // ---------------------------------------------------------------- paths of artifacts

  /** One segment of a path text, entered from a resolved path. */
  function Enter(path: Path, segment: string): Path {
    if segment == "" || segment == "." then path
    else if segment == ".." then (if path == [] then [] else path[..|path| - 1])
    else path + [segment]
  }

  function Walk(path: Path, segments: seq<string>): Path
    decreases |segments|
  {
    if segments == [] then path else Walk(Enter(path, segments[0]), segments[1..])
  }

  /** The name of an id's file, which may hold slashes. */
  function FileName(e: Env, id: Json): string {
    (if id.JStr? then id.s else e.text(id)) + ".json"
  }

  /** Where the name leads from: an absolute one leaves the authority directory aside. */
  function Base(e: Env, name: string): Path {
    if StartsWith(name, "/") then [] else e.root
  }

  /** `default_authority_artifact_path(...).resolve()`. */
  function PathOf(e: Env, id: Json): Path {
    var name := FileName(e, id);
    Walk(Base(e, name), SplitOn(name, '/'))
  }

  predicate EndsWith(s: string, suffix: string) {
    |suffix| <= |s| && s[|s| - |suffix|..] == suffix
  }

  /** What `authority_dir.glob("*.json")` finds: the directory's own entries of that name. */
  predicate Listed(root: Path, path: Path) {
    path != [] && path[..|path| - 1] == root && EndsWith(path[|path| - 1], ".json")
  }

  /** The folders an id names in front of its file lead back to the authority directory. */
  predicate StaysInside(e: Env, id: Json) {
    var name := FileName(e, id);
    var segments := SplitOn(name, '/');
    Walk(Base(e, name), segments[..|segments| - 1]) == e.root
  }

  lemma {:induction false} WalkLast(path: Path, segments: seq<string>)
    requires segments != []
    ensures Walk(path, segments) == Enter(Walk(path, segments[..|segments| - 1]), segments[|segments| - 1])
    decreases |segments|
  {
    hide Enter;
    if |segments| > 1 {
      WalkLast(Enter(path, segments[0]), segments[1..]);
      assert segments[1..][..|segments| - 2] == segments[..|segments| - 1][1..];
    } else {
      assert segments[1..] == [] && segments[..0] == [];
    }
  }

  lemma WalkOne(path: Path, segment: string)
    ensures Walk(path, [segment]) == Enter(path, segment)
  {
    WalkLast(path, [segment]);
    assert [segment][..0] == [];
    hide Enter;
  }

  lemma WalkFirst(path: Path, segments: seq<string>)
    requires segments != []
    ensures Walk(path, segments) == Walk(Enter(path, segments[0]), segments[1..])
  {
    hide Enter;
  }

  lemma {:induction false} LastSegment(name: string)
    requires EndsWith(name, ".json")
    ensures EndsWith(SplitOn(name, '/')[|SplitOn(name, '/')| - 1], ".json")
    decreases |name|
  {
    var k := IndexOf(name, '/');
    if k < |name| {
      var rest := name[k + 1..];
      assert name[|name| - 5..] == ".json";
      assert forall i :: |name| - 5 <= i < |name| ==> name[i] == ".json"[i + 5 - |name|];
      assert k < |name| - 5;
      assert rest[|rest| - 5..] == name[|name| - 5..];
      LastSegment(rest);
    }
  }

  /** The listing reads the path of an id exactly when the folders of the id lead back. */
  lemma ListedIff(e: Env, id: Json)
    ensures Listed(e.root, PathOf(e, id)) <==> StaysInside(e, id)
  {
    var name := FileName(e, id);
    assert EndsWith(name, ".json");
    var segments := SplitOn(name, '/');
    LastSegment(name);
    WalkLast(Base(e, name), segments);
    hide SplitOn, Walk, FileName, Base;
    var last := segments[|segments| - 1];
    assert |last| >= 5;
    assert PathOf(e, id) == Walk(Base(e, name), segments[..|segments| - 1]) + [last];
  }

  /** An id without a slash stays inside, under its own name. */
  lemma PlainPath(e: Env, id: Json)
    requires id.JStr? && '/' !in id.s
    ensures PathOf(e, id) == e.root + [id.s + ".json"] && StaysInside(e, id)
  {
    var name := FileName(e, id);
    assert name == id.s + ".json" && '/' !in ".json" && '/' !in name;
    assert IndexOf(name, '/') == |name| && SplitOn(name, '/') == [name];
    var segments: Path := [name];
    assert segments[..0] == [];
    assert |name| >= 5;
    WalkOne(e.root, name);
    hide Walk, SplitOn, FileName;
  }

  /** Ids without slashes never share a file. */
  lemma PlainPathsDiffer(e: Env, a: Json, b: Json)
    requires a.JStr? && b.JStr? && '/' !in a.s && '/' !in b.s && PathOf(e, a) == PathOf(e, b)
    ensures a == b
  {
    PlainPath(e, a);
    PlainPath(e, b);
    hide PathOf, StaysInside;
    var x, y := a.s + ".json", b.s + ".json";
    assert (e.root + [x])[|e.root|] == (e.root + [y])[|e.root|];
    assert x[..|x| - 5] == a.s && y[..|y| - 5] == b.s;
  }

  /** With a slash they may: `./e` names the file of `e`. */
  lemma SharedPathExample(e: Env)
    ensures PathOf(e, JStr("./e")) == PathOf(e, JStr("e")) && StaysInside(e, JStr("./e"))
  {
    hide PathOf, StaysInside, SplitOn;
    PlainPath(e, JStr("e"));
    NameInFolder(e, ".", "e");
    assert "." + "/" + "e" == "./e" && "e" + ".json" == "e.json";
    SlashedPath(e, JStr("./e"), ".", "e.json");
  }

  lemma NameInFolder(e: Env, folder: string, file: string)
    requires folder != "" && '/' !in folder && '/' !in file
    ensures SplitOn(FileName(e, JStr(folder + "/" + file)), '/') == [folder, file + ".json"]
    ensures !StartsWith(FileName(e, JStr(folder + "/" + file)), "/")
  {
    var name, k, rest := FileName(e, JStr(folder + "/" + file)), |folder|, file + ".json";
    assert name == folder + "/" + rest && '/' !in ".json" && '/' !in rest;
    assert name[0] == folder[0] && name[k] == '/' && forall i :: 0 <= i < k ==> name[i] == folder[i];
    assert name[..k] == folder && name[k + 1..] == rest;
    assert IndexOf(name, '/') == k && IndexOf(rest, '/') == |rest|;
  }

  lemma SlashedPath(e: Env, id: Json, folder: string, file: string)
    requires SplitOn(FileName(e, id), '/') == [folder, file] && !StartsWith(FileName(e, id), "/")
    ensures PathOf(e, id) == Enter(Enter(e.root, folder), file)
    ensures StaysInside(e, id) <==> Enter(e.root, folder) == e.root
  {
    hide SplitOn, FileName, Enter, Walk;
    var segments: Path := [folder, file];
    assert segments[1..] == [file] && segments[..1] == [folder];
    WalkOne(e.root, folder);
    WalkOne(Enter(e.root, folder), file);
    WalkFirst(e.root, segments);
  }

  // ---------------------------------------------------------------- writing artifacts

  datatype WriteStep = WriteStep(payload: Obj, outFile: Option<Path>, at: string)

  datatype WriteResult =
    | PathViolation
    | ExistingUntrusted
    | Written(ok: bool, releaseBlocked: bool, reasons: Json, errors: seq<string>)

  function IdOf(p: Obj): Json {
    if "escalation_id" in p then p["escalation_id"] else JStr("unknown-escalation")
  }

  function CanonicalPath(e: Env, p: Obj): Path {
    PathOf(e, IdOf(p))
  }

  predicate Untrusted(e: Env, file: FileContent) {
    AssessArtifact(e, file, None).Raised? || !AssessArtifact(e, file, None).value.authorityValid
  }

  /** What the writer reports of a stored payload. */
  function Reported(v: Validation): WriteResult {
    var reasons := Get(v.normalized, REASONS);
    Written(v.Ok(), Truthy(Get(v.normalized, BLOCKED)), if Truthy(reasons) then reasons else JArr([]), v.errors)
  }

  /** `write_authority_artifact` on the artifact files. */
  function Write(e: Env, files: map<Path, FileContent>, step: WriteStep)
      : Outcome<(map<Path, FileContent>, WriteResult)>
  {
    var path := CanonicalPath(e, step.payload);
    if step.outFile.Some? && step.outFile.value != path then Done((files, PathViolation))
    else if path in files && AssessArtifact(e, files[path], None).Raised? then Raised
    else if path in files && Untrusted(e, files[path]) then Done((files, ExistingUntrusted))
    else
      var built := BuildArtifact(e.codec, step.payload, step.at, None);
      if built.Raised? then Raised
      else
        var v := Validate(step.payload).value;
        Done((files[path := Parsed(built.value)], Reported(v)))
  }

  /** The files after a write; a write that raises leaves them as they were. */
  function After(e: Env, files: map<Path, FileContent>, step: WriteStep): map<Path, FileContent> {
    var r := Write(e, files, step);
    if r.Raised? then files else r.value.0
  }

  function RunWrites(e: Env, files: map<Path, FileContent>, steps: seq<WriteStep>): map<Path, FileContent>
    decreases |steps|
  {
    if steps == [] then files else RunWrites(e, After(e, files, steps[0]), steps[1..])
  }

  /** A write touches at most the canonical path of its payload. */
  lemma WriteTouchesOwnPath(e: Env, files: map<Path, FileContent>, step: WriteStep, path: Path)
    requires path != CanonicalPath(e, step.payload)
    ensures path in After(e, files, step) <==> path in files
    ensures path in files ==> After(e, files, step)[path] == files[path]
  {
    hide AssessArtifact, BuildArtifact, Validate;
  }

  lemma UntrustedKept(e: Env, files: map<Path, FileContent>, step: WriteStep, path: Path)
    requires path in files && Untrusted(e, files[path])
    ensures path in After(e, files, step) && After(e, files, step)[path] == files[path]
  {
    hide AssessArtifact, BuildArtifact, Validate, CanonicalPath;
  }

  /** What is stored and not valid stays as it is, whatever is written later. */
  lemma {:induction false} UntrustedFrozen(e: Env, files: map<Path, FileContent>, steps: seq<WriteStep>, path: Path)
    requires path in files && Untrusted(e, files[path])
    ensures path in RunWrites(e, files, steps) && RunWrites(e, files, steps)[path] == files[path]
    decreases |steps|
  {
    if steps != [] {
      hide Untrusted, After;
      UntrustedKept(e, files, steps[0], path);
      UntrustedFrozen(e, After(e, files, steps[0]), steps[1..], path);
    }
  }

  predicate WrittenAs(e: Env, path: Path, file: FileContent, p: Obj, at: string) {
    && Validate(p).Done? && Strip(at) != "" && path == CanonicalPath(e, p)
    && BuildArtifact(e.codec, p, at, None).Done?
    && file == Parsed(BuildArtifact(e.codec, p, at, None).value)
  }

  /** Every file was written by the writer, at the path of its payload's id. */
  ghost predicate AllWritten(e: Env, files: map<Path, FileContent>) {
    forall path :: path in files ==> exists p: Obj, at: string :: WrittenAs(e, path, files[path], p, at)
  }

  predicate Dated(steps: seq<WriteStep>) {
    forall i :: 0 <= i < |steps| ==> Strip(steps[i].at) != ""
  }

  lemma WriteKeepsWritten(e: Env, files: map<Path, FileContent>, step: WriteStep)
    requires AllWritten(e, files) && Strip(step.at) != ""
    ensures AllWritten(e, After(e, files, step))
  {
    hide AssessArtifact, Validate, Strip, CanonicalPath;
    var after := After(e, files, step);
    forall path | path in after
      ensures exists p: Obj, at: string :: WrittenAs(e, path, after[path], p, at)
    {
      if path in files && after[path] == files[path] {
        var p: Obj, at: string :| WrittenAs(e, path, files[path], p, at);
        assert WrittenAs(e, path, after[path], p, at);
      } else {
        WriteStores(e, files, step, path);
        assert WrittenAs(e, path, after[path], step.payload, step.at);
      }
    }
  }

  lemma WriteStores(e: Env, files: map<Path, FileContent>, step: WriteStep, path: Path)
    requires path in After(e, files, step) && (path !in files || After(e, files, step)[path] != files[path])
    requires Strip(step.at) != ""
    ensures WrittenAs(e, path, After(e, files, step)[path], step.payload, step.at)
  {
    hide AssessArtifact, Strip, CanonicalPath, InputsOf, Faults, AddBlocks, BlockReasons, ArtifactJson;
  }

  lemma {:induction false} RunKeepsWritten(e: Env, files: map<Path, FileContent>, steps: seq<WriteStep>)
    requires AllWritten(e, files) && Dated(steps)
    ensures AllWritten(e, RunWrites(e, files, steps))
    decreases |steps|
  {
    if steps != [] {
      assert Strip(steps[0].at) != "";
      hide AllWritten, After, Strip;
      WriteKeepsWritten(e, files, steps[0]);
      RunKeepsWritten(e, After(e, files, steps[0]), steps[1..]);
    }
  }

  lemma ValidId(p: Obj)
    requires Faults(InputsOf(p)) == []
    ensures IsText(IdOf(p)) && IdOf(p) == Get(p, "escalation_id")
  {
    hide ProvisionalFaults, RouteFaults, CoverageFaults, ClosureFaults, ResolutionFaults, Among, Strip;
    assert StateFaults(InputsOf(p)) == [];
    assert TextFault(InputsOf(p).id, "escalation_id") == [];
  }

  /** In every run of writes from an empty directory, a valid artifact carries the id of its path. */
  lemma ValidCarriesId(e: Env, steps: seq<WriteStep>, path: Path, known: Option<set<string>>)
    requires LawfulCodec(e.codec) && Dated(steps) && path in RunWrites(e, map[], steps)
    requires AssessArtifact(e, RunWrites(e, map[], steps)[path], known).Done?
    requires AssessArtifact(e, RunWrites(e, map[], steps)[path], known).value.authorityValid
    ensures IsText(AssessArtifact(e, RunWrites(e, map[], steps)[path], known).value.escalationId)
    ensures PathOf(e, AssessArtifact(e, RunWrites(e, map[], steps)[path], known).value.escalationId) == path
  {
    hide AssessArtifact, BuildArtifact, LawfulCodec, InputsOf, Faults, AddBlocks, BlockReasons, Strip;
    RunKeepsWritten(e, map[], steps);
    var files := RunWrites(e, map[], steps);
    var p: Obj, at: string :| WrittenAs(e, path, files[path], p, at);
    BuiltThenAssessed(e, p, at, None, known);
    ValidId(p);
  }

  lemma ValidityIgnoresLog(e: Env, file: FileContent, known: Option<set<string>>)
    ensures AssessArtifact(e, file, known).Raised? <==> AssessArtifact(e, file, None).Raised?
    ensures AssessArtifact(e, file, known).Done? ==>
              AssessArtifact(e, file, known).value.authorityValid == AssessArtifact(e, file, None).value.authorityValid
  {
    hide Validate, AuthorityValid, UntrustedReasons, EvidenceLevel, LogBinding, ListOf, ReadProvenance;
  }

  /** While a file that is not valid is among those read, the directory blocks or the assessment raises. */
  lemma UntrustedBlocks(e: Env, dir: seq<FileContent>, file: FileContent, log: Option<string>, register: FileContent,
                        required: bool)
    requires file in dir && Untrusted(e, file)
    ensures AssessDirectory(e, Some(dir), log, register, required).Raised?
         || AssessDirectory(e, Some(dir), log, register, required).value.verdict.blocked
  {
    hide AssessArtifact, AssessRegister, LogHashes, AssessAll, Effective, PrecedenceViolated, PrecedenceReasons,
      OwnReasons;
    if AssessDirectory(e, Some(dir), log, register, required).Done? {
      var known := Some(LogHashes(e.codec, log).value);
      AssessAllMembers(e, dir, known);
      ValidityIgnoresLog(e, file, known);
      var r := AssessArtifact(e, file, known).value;
      assert AssessArtifact(e, file, known) == Done(r) && r in AssessAll(e, dir, known).value;
    }
  }

  lemma StoredAsBuilt(e: Env, files: map<Path, FileContent>, step: WriteStep)
    requires Write(e, files, step).Done? && Write(e, files, step).value.1.Written?
    ensures Validate(step.payload).Done? && BuildArtifact(e.codec, step.payload, step.at, None).Done?
    ensures CanonicalPath(e, step.payload) in After(e, files, step)
    ensures After(e, files, step)[CanonicalPath(e, step.payload)]
         == Parsed(BuildArtifact(e.codec, step.payload, step.at, None).value)
    ensures var v, result := Validate(step.payload).value, Write(e, files, step).value.1;
      result.ok == v.Ok() && result == Reported(v)
  {
    hide AssessArtifact, InputsOf, Faults, AddBlocks, BlockReasons, ArtifactJson, CanonicalPath;
  }

  /** Assessing what a write stored agrees with what the write reported. */
  lemma WriteAgreesWithAssessment(e: Env, files: map<Path, FileContent>, step: WriteStep, known: Option<set<string>>)
    requires LawfulCodec(e.codec) && Strip(step.at) != ""
    requires Write(e, files, step).Done? && Write(e, files, step).value.1.Written?
    ensures CanonicalPath(e, step.payload) in After(e, files, step)
    ensures var result := Write(e, files, step).value.1;
      var assessed := AssessArtifact(e, After(e, files, step)[CanonicalPath(e, step.payload)], known);
      assessed.Done? ==>
        && (assessed.value.authorityValid <==> result.ok)
        && (result.ok <==> result.errors == [])
        && (result.ok ==> assessed.value.releaseBlocked == result.releaseBlocked)
        && (result.ok ==> ListOf(result.reasons, e.keyOrder) == Done(assessed.value.reasons))
  {
    hide *;
    StoredAsBuilt(e, files, step);
    BuiltThenAssessed(e, step.payload, step.at, None, known);
    ReportedMeaning(Validate(step.payload).value, e.keyOrder);
  }

  lemma ReportedMeaning(v: Validation, keyOrder: Obj -> seq<string>)
    ensures var result := Reported(v);
      && result.Written? && (result.ok <==> v.errors == []) && (result.ok <==> v.Ok()) && result.errors == v.errors
      && result.releaseBlocked == Truthy(Get(v.normalized, BLOCKED))
      && ListOf(result.reasons, keyOrder) == ListOf(Get(v.normalized, REASONS), keyOrder)
  {
  }

  /** `dir` holds what the directory listing reads among the files. */
  ghost predicate Lists(root: Path, files: map<Path, FileContent>, dir: seq<FileContent>) {
    forall f :: f in dir <==> exists path :: path in files && Listed(root, path) && files[path] == f
  }

  predicate BlocksOrRaises(e: Env, dir: seq<FileContent>, log: Option<string>, register: FileContent, required: bool) {
    || AssessDirectory(e, Some(dir), log, register, required).Raised?
    || AssessDirectory(e, Some(dir), log, register, required).value.verdict.blocked
  }

  /** Whatever is written from here on, with any log and register, the directory blocks or its assessment raises. */
  ghost predicate BlocksForGood(e: Env, files: map<Path, FileContent>) {
    forall later, dir, log, register, required ::
      Lists(e.root, RunWrites(e, files, later), dir) ==> BlocksOrRaises(e, dir, log, register, required)
  }

  /** The two directories read the same. */
  ghost predicate ReadAlike(root: Path, a: map<Path, FileContent>, b: map<Path, FileContent>) {
    forall path :: Listed(root, path) ==> (path in a <==> path in b) && (path in a ==> a[path] == b[path])
  }

  lemma AlikeLists(root: Path, a: map<Path, FileContent>, b: map<Path, FileContent>, dir: seq<FileContent>)
    requires ReadAlike(root, a, b) && Lists(root, a, dir)
    ensures Lists(root, b, dir)
  {
    hide Listed;
    forall f ensures f in dir <==> exists path :: path in b && Listed(root, path) && b[path] == f {
      if f in dir {
        var path :| path in a && Listed(root, path) && a[path] == f;
        assert path in b && b[path] == f;
      }
      if path :| path in b && Listed(root, path) && b[path] == f {
        assert path in a && a[path] == f;
      }
    }
  }

  lemma AlikeSymmetric(root: Path, a: map<Path, FileContent>, b: map<Path, FileContent>)
    requires ReadAlike(root, a, b)
    ensures ReadAlike(root, b, a)
  {
    hide Listed;
  }

  /** What a write leaves at a path depends on what was there only. */
  lemma WriteIsLocal(e: Env, a: map<Path, FileContent>, b: map<Path, FileContent>, step: WriteStep, path: Path)
    requires (path in a <==> path in b) && (path in a ==> a[path] == b[path])
    ensures path in After(e, a, step) <==> path in After(e, b, step)
    ensures path in After(e, a, step) ==> After(e, a, step)[path] == After(e, b, step)[path]
  {
    hide AssessArtifact, BuildArtifact, Validate, CanonicalPath, Reported;
  }

  lemma {:induction false} RunsReadAlike(e: Env, a: map<Path, FileContent>, b: map<Path, FileContent>,
                                         steps: seq<WriteStep>)
    requires ReadAlike(e.root, a, b)
    ensures ReadAlike(e.root, RunWrites(e, a, steps), RunWrites(e, b, steps))
    decreases |steps|
  {
    if steps != [] {
      hide After, Listed;
      forall path | Listed(e.root, path)
        ensures path in After(e, a, steps[0]) <==> path in After(e, b, steps[0])
        ensures path in After(e, a, steps[0]) ==> After(e, a, steps[0])[path] == After(e, b, steps[0])[path]
      {
        WriteIsLocal(e, a, b, steps[0], path);
      }
      RunsReadAlike(e, After(e, a, steps[0]), After(e, b, steps[0]), steps[1..]);
    }
  }

  lemma AlikeBlocksForGood(e: Env, a: map<Path, FileContent>, b: map<Path, FileContent>)
    requires ReadAlike(e.root, a, b) && BlocksForGood(e, a)
    ensures BlocksForGood(e, b)
  {
    hide ReadAlike, Lists, BlocksOrRaises, RunWrites;
    forall later, dir, log, register, required | Lists(e.root, RunWrites(e, b, later), dir)
      ensures BlocksOrRaises(e, dir, log, register, required)
    {
      RunsReadAlike(e, a, b, later);
      AlikeSymmetric(e.root, RunWrites(e, a, later), RunWrites(e, b, later));
      AlikeLists(e.root, RunWrites(e, b, later), RunWrites(e, a, later), dir);
    }
  }

  /** A write outside the listing changes nothing that is read. */
  lemma UnlistedWriteIsUnseen(e: Env, files: map<Path, FileContent>, step: WriteStep)
    requires !StaysInside(e, IdOf(step.payload))
    ensures ReadAlike(e.root, files, After(e, files, step))
  {
    ListedIff(e, IdOf(step.payload));
    hide After, PathOf, StaysInside, Listed;
    forall path | Listed(e.root, path)
      ensures path in files <==> path in After(e, files, step)
      ensures path in files ==> files[path] == After(e, files, step)[path]
    {
      WriteTouchesOwnPath(e, files, step, path);
    }
  }

  /** An untrusted file at a path that the listing reads blocks for good. */
  lemma UntrustedBlocksForGood(e: Env, files: map<Path, FileContent>, path: Path)
    requires path in files && Untrusted(e, files[path]) && Listed(e.root, path)
    ensures BlocksForGood(e, files)
  {
    hide Untrusted, Listed, AssessDirectory, RunWrites;
    forall later, dir, log, register, required | Lists(e.root, RunWrites(e, files, later), dir)
      ensures BlocksOrRaises(e, dir, log, register, required)
    {
      UntrustedFrozen(e, files, later, path);
      assert files[path] in dir;
      UntrustedBlocks(e, dir, files[path], log, register, required);
    }
  }

  /**
   Once an invalid payload is stored, the directory blocks for good exactly when the folders
   of its id lead back to the directory, or when it did so before.
   */
  lemma InvalidWriteIsFinalIff(e: Env, files: map<Path, FileContent>, step: WriteStep)
    requires LawfulCodec(e.codec) && Strip(step.at) != ""
    requires Write(e, files, step).Done?
    requires Write(e, files, step).value.1.Written? && !Write(e, files, step).value.1.ok
    ensures BlocksForGood(e, After(e, files, step)) <==> StaysInside(e, IdOf(step.payload)) || BlocksForGood(e, files)
  {
    var path, after := CanonicalPath(e, step.payload), After(e, files, step);
    WriteAgreesWithAssessment(e, files, step, None);
    assert Untrusted(e, after[path]) by { hide AssessArtifact, Write, StaysInside, PathOf; }
    ListedIff(e, IdOf(step.payload));
    hide *;
    if StaysInside(e, IdOf(step.payload)) {
      UntrustedBlocksForGood(e, after, path);
    } else {
      UnlistedWriteIsUnseen(e, files, step);
      if BlocksForGood(e, files) { AlikeBlocksForGood(e, files, after); }
      AlikeSymmetric(e.root, files, after);
      if BlocksForGood(e, after) { AlikeBlocksForGood(e, after, files); }
    }
  }

  lemma NothingListed(e: Env, files: map<Path, FileContent>)
    requires ReadAlike(e.root, map[], files)
    ensures Lists(e.root, files, [])
  {
    hide Listed;
  }

  /** A directory in which nothing can be read never blocks for good. */
  lemma EmptyNotForGood(e: Env)
    ensures !BlocksForGood(e, map[])
  {
    var register := Parsed(RegisterJson(["x"], "t"));
    ActiveRegister(["x"], "t", e.keyOrder);
    assert LogHashes(e.codec, None).Done?;
    hide *;
    EmptyUnblocked(e, None, register, true);
    NothingStored(e);
    assert !BlocksOrRaises(e, [], None, register, true) by { BlocksMeans(e, [], None, register, true); }
    BlocksAt(e, map[], [], [], None, register, true);
  }

  lemma NothingStored(e: Env)
    ensures RunWrites(e, map[], []) == map[] && Lists(e.root, map[], [])
  {
    hide Listed;
  }

  lemma BlocksMeans(e: Env, dir: seq<FileContent>, log: Option<string>, register: FileContent, required: bool)
    ensures BlocksOrRaises(e, dir, log, register, required)
       <==> || AssessDirectory(e, Some(dir), log, register, required).Raised?
            || AssessDirectory(e, Some(dir), log, register, required).value.verdict.blocked
  {
  }

  lemma BlocksAt(e: Env, files: map<Path, FileContent>, later: seq<WriteStep>, dir: seq<FileContent>,
                 log: Option<string>, register: FileContent, required: bool)
    requires Lists(e.root, RunWrites(e, files, later), dir)
    ensures BlocksForGood(e, files) ==> BlocksOrRaises(e, dir, log, register, required)
  {
    hide Lists, BlocksOrRaises, RunWrites;
  }

  /** A payload with an id that leads into a folder of its own, and with nothing else. */
  const STRAY: Obj := map["escalation_id" := JStr("a/b")]

  lemma StrayInputs()
    ensures !Among(InputsOf(STRAY).mitigation, MITIGATION_STATES) && Checkable(InputsOf(STRAY))
    ensures REASONS in WithDefaults(STRAY) && WithDefaults(STRAY)[REASONS].JArr?
    ensures IdOf(STRAY) == JStr("a/b")
  {
  }

  lemma StrayIsInvalid()
    ensures Validate(STRAY).Done? && !Validate(STRAY).value.Ok()
  {
    StrayInputs();
    var v := InputsOf(STRAY);
    ValidIff(v);
    ListTakesBlocks(WithDefaults(STRAY), BlockReasons(v));
    hide InputsOf, WithDefaults, AddBlocks, BlockReasons, Faults, Checkable, Among, RouteWell, CoverageWell,
      ClosureWell, ResolutionWell, IsText;
  }

  lemma StrayPath(e: Env)
    ensures !StaysInside(e, JStr("a/b"))
  {
    hide SplitOn, StaysInside;
    NameInFolder(e, "a", "b");
    assert "a" + "/" + "b" == "a/b" && "b" + ".json" == "b.json";
    SlashedPath(e, JStr("a/b"), "a", "b.json");
    assert |e.root + ["a"]| == |e.root| + 1;
  }

  lemma FirstWrite(e: Env, p: Obj, at: string)
    requires Validate(p).Done?
    ensures Write(e, map[], WriteStep(p, None, at)).Done?
    ensures Write(e, map[], WriteStep(p, None, at)).value.1.Written?
    ensures Write(e, map[], WriteStep(p, None, at)).value.1.ok == Validate(p).value.Ok()
  {
    hide Validate, CanonicalPath, ArtifactJson, BuiltProvenance;
  }

  /**
   With active escalations in the register a missing directory blocks. Writing an invalid
   payload under the id `a/b` creates the directory on the way, reports the payload as
   invalid, and leaves nothing that is read and nothing that blocks.
   */
  lemma StrayWriteExample(e: Env, ids: seq<string>, log: Option<string>, at: string)
    requires LogHashes(e.codec, log).Done? && ids != []
    ensures var register := Parsed(RegisterJson(ids, at));
      var step := WriteStep(STRAY, None, at);
      && AssessDirectory(e, None, log, register, true).Done?
      && AssessDirectory(e, None, log, register, true).value.verdict.blocked
      && Write(e, map[], step).Done? && Write(e, map[], step).value.1.Written? && !Write(e, map[], step).value.1.ok
      && Lists(e.root, After(e, map[], step), [])
      && !BlocksOrRaises(e, [], log, register, true)
  {
    StrayInputs();
    StrayIsInvalid();
    hide *;
    StrayPath(e);
    FirstWrite(e, STRAY, at);
    var step := WriteStep(STRAY, None, at);
    StepPayload(STRAY, at);
    UnlistedWriteIsUnseen(e, map[], step);
    NothingListed(e, After(e, map[], step));
    EmptyDirectoryIsLenient(e, log, ids, at);
    BlocksMeans(e, [], log, Parsed(RegisterJson(ids, at)), true);
  }

  lemma StepPayload(p: Obj, at: string)
    ensures WriteStep(p, None, at).payload == p
  {
  }

  // ---------------------------------------------------------------- the stores, updated in place

  /** The authority directory, the append-only log and the companion register of one project. */
  class EscalationStore {
    const env: Env
    var artifacts: map<Path, FileContent>
    var log: Option<string>
    var register: FileContent

    constructor (env: Env)
      ensures this.env == env && artifacts == map[] && log == None && register == Absent
    {
      this.env := env;
      artifacts, log, register := map[], None, Absent;
    }

    /** Appends one entry and returns it as written; refused entries leave the log as it was. */
    method AppendLogEntry(entry: Obj, at: string) returns (r: Outcome<Obj>)
      modifies this`log
      ensures r == NormalizeEntry(env.codec, entry, at)
      ensures r.Raised? ==> log == old(log)
      ensures r.Done? ==> log == Some(AppendLine(env.codec, if old(log).Some? then old(log).value else "", r.value))
    {
      if "_writer_id" in entry || "_writer_version" in entry {
        return Raised;
      }
      var normalized := entry;
      normalized := normalized["_writer_id" := JStr(LOG_WRITER_ID)];
      normalized := normalized["_writer_version" := JStr(LOG_WRITER_VERSION)];
      normalized := normalized["_written_at" := JStr(at)];
      normalized := normalized["_entry_hash" := JStr(EntryHash(env.codec, normalized))];
      log := Some(AppendLine(env.codec, if log.Some? then log.value else "", normalized));
      return Done(normalized);
    }

    method WriteRegister(ids: seq<string>, at: string)
      modifies this`register
      ensures register == Parsed(RegisterJson(ids, at))
    {
      register := Parsed(RegisterJson(ids, at));
    }

    /** Writes one artifact, or refuses; an exception leaves the directory as it was. */
    method WriteAuthorityArtifact(step: WriteStep) returns (r: Outcome<WriteResult>)
      modifies this`artifacts
      ensures artifacts == After(env, old(artifacts), step)
      ensures r.Raised? <==> Write(env, old(artifacts), step).Raised?
      ensures r.Done? ==> r.value == Write(env, old(artifacts), step).value.1
    {
      hide AssessArtifact, BuildArtifact, Validate;
      var target := CanonicalPath(env, step.payload);
      if step.outFile.Some? && step.outFile.value != target {
        return Done(PathViolation);
      }
      if target in artifacts {
        var existing := AssessArtifact(env, artifacts[target], None);
        if existing.Raised? {
          return Raised;
        }
        if !existing.value.authorityValid {
          return Done(ExistingUntrusted);
        }
      }
      var check := ValidatePrewritePayload(step.payload);
      BuildRaises(env.codec, step.payload, step.at);
      if check.Raised? {
        return Raised;
      }
      artifacts := artifacts[target := Parsed(BuildArtifact(env.codec, step.payload, step.at, None).value)];
      return Done(Reported(check.value));
    }
  }

  lemma BuildRaises(c: Codec, p: Obj, at: string)
    ensures BuildArtifact(c, p, at, None).Raised? <==> Validate(p).Raised?
  {
  }
}
