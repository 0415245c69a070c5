/**
 The escalation log and register of `escalation_log_writer.py`. The log is a text file to
 which entries are appended as one JSON line each and which is read back with `splitlines`.
 Main results: a log produced only by appends is judged trusted exactly when no serialised
 entry holds a line separator; appends of such entries add exactly their hashes to what is
 read; and an entry's hash is found after every later append unless the reader raises, which
 it does exactly on a line that holds JSON but no object.
 */
module EscalationLog {
  import opened Text
  import opened Json

  const LOG_WRITER_ID := "governance_tools.escalation_log_writer"
  const LOG_WRITER_VERSION := "1.0"
  const REGISTER_WRITER_ID := "governance_tools.escalation_register_writer"
  const REGISTER_WRITER_VERSION := "1.0"
  const REGISTER_SCHEMA := "e1b.phase_b.escalation_register.v1"

  /** Serialisation and digest, of which only the laws below are used. */
  datatype Codec = Codec(dumps: Json -> string, loads: string -> Option<Json>, sha: string -> string)

  /** Objects print in braces, control characters are escaped, and no proper prefix parses. */
  ghost predicate LawfulCodec(c: Codec) {
    && (forall o: Obj :: LawfulText(c, o))
    && (forall s: string :: Strip(c.sha(s)) != "")
  }

  ghost predicate LawfulText(c: Codec, o: Obj) {
    var t := c.dumps(JObj(o));
    && |t| >= 2 && t[0] == '{' && t[|t| - 1] == '}'
    && (forall i :: 0 <= i < |t| ==> t[i] >= ' ')
    && c.loads(t) == Some(JObj(o))
    && (forall k :: 0 < k < |t| ==> c.loads(t[..k]) == None)
  }

  /** A line boundary of `splitlines` that JSON text does not escape. */
  const LINE_SEPARATOR := "\U{2028}"

  /** A JSON list that the reader finds on a line of its own. */
  const ENCLOSED_LIST := LINE_SEPARATOR + "[]" + LINE_SEPARATOR

  /** Text without quotes, backslashes and control characters, which is printed as it is. */
  predicate PrintsAsIs(s: string) {
    forall i :: 0 <= i < |s| ==> s[i] >= ' ' && s[i] != '"' && s[i] != '\\'
  }

  ghost predicate Verbatim(c: Codec) {
    forall o: Obj, key: string, s: string ::
      key in o && o[key] == JStr(s) && PrintsAsIs(s) ==> Contains(c.dumps(JObj(o)), s)
  }

  // ---------------------------------------------------------------- appending

  function EntryHash(c: Codec, entry: Obj): string {
    c.sha(c.dumps(JObj(map[
      "escalation_id" := Get(entry, "escalation_id"),
      "_writer_id" := Get(entry, "_writer_id"),
      "_written_at" := Get(entry, "_written_at")])))
  }

  function Identified(entry: Obj, at: string): Obj {
    entry["_writer_id" := JStr(LOG_WRITER_ID)]
         ["_writer_version" := JStr(LOG_WRITER_VERSION)]
         ["_written_at" := JStr(at)]
  }

  /** The entry as it is written; a caller that sets the writer fields itself is refused. */
  function NormalizeEntry(c: Codec, entry: Obj, at: string): Outcome<Obj> {
    if "_writer_id" in entry || "_writer_version" in entry then Raised
    else Done(Identified(entry, at)["_entry_hash" := JStr(EntryHash(c, Identified(entry, at)))])
  }

  function AppendLine(c: Codec, text: string, entry: Obj): string {
    text + c.dumps(JObj(entry)) + "\n"
  }

  /** The log after a sequence of accepted appends. */
  function AppendAll(c: Codec, text: string, entries: seq<Obj>): string
    decreases |entries|
  {
    if entries == [] then text else AppendAll(c, AppendLine(c, text, entries[0]), entries[1..])
  }

  predicate WrittenByLogWriter(entry: Obj) {
    "_writer_id" in entry && entry["_writer_id"] == JStr(LOG_WRITER_ID)
  }

  // ---------------------------------------------------------------- reading

  function NonBlank(lines: seq<string>): seq<string> {
    if lines == [] then []
    else (if Strip(lines[0]) == "" then [] else [Strip(lines[0])]) + NonBlank(lines[1..])
  }

  function LogLines(text: string): seq<string> {
    NonBlank(SplitLines(text))
  }

  function HashOf(entry: Obj): set<string> {
    var h := Get(entry, "_entry_hash");
    if h.JStr? && h.s != "" then {h.s} else {}
  }

  /** Hashes on these lines; a line holding JSON that is no object makes the reader raise. */
  function HashesOn(c: Codec, lines: seq<string>): Outcome<set<string>> {
    if lines == [] then Done({})
    else
      var rest := HashesOn(c, lines[1..]);
      var here := c.loads(lines[0]);
      if here.Some? && !here.value.JObj? then Raised
      else if rest.Raised? then Raised
      else if here.None? then rest
      else Done(HashOf(here.value.fields) + rest.value)
  }

  function LogHashes(c: Codec, log: Option<string>): Outcome<set<string>> {
    if log.None? then Done({}) else HashesOn(c, LogLines(log.value))
  }

  datatype Tally = Tally(trusted: nat, legacy: nat, untrusted: nat, invalidLines: seq<nat>)

  function TallyOf(c: Codec, line: string, number: nat): Outcome<Tally> {
    var here := c.loads(line);
    if here.None? then Done(Tally(0, 0, 1, [number]))
    else if !here.value.JObj? then Raised
    else
      var id := Get(here.value.fields, "_writer_id");
      if id == JNull then Done(Tally(0, 1, 0, []))
      else if id == JStr(LOG_WRITER_ID) then Done(Tally(1, 0, 0, []))
      else Done(Tally(0, 0, 1, []))
  }

  function AddTally(a: Tally, b: Tally): (sum: Tally)
    ensures b.invalidLines == [] ==> sum.invalidLines == a.invalidLines
  {
    assert a.invalidLines + [] == a.invalidLines;
    Tally(a.trusted + b.trusted, a.legacy + b.legacy, a.untrusted + b.untrusted, a.invalidLines + b.invalidLines)
  }

  /** Counts over the first `n` lines. */
  function TallyLines(c: Codec, lines: seq<string>, n: nat): Outcome<Tally>
    requires n <= |lines|
  {
    if n == 0 then Done(Tally(0, 0, 0, []))
    else
      var before := TallyLines(c, lines, n - 1);
      var here := TallyOf(c, lines[n - 1], n);
      if before.Raised? || here.Raised? then Raised else Done(AddTally(before.value, here.value))
  }

  datatype Integrity = LogAbsent | LogUnreadable | Trusted | LegacyOnly | UntrustedPresent

  datatype IntegrityReport = IntegrityReport(integrity: Integrity, tally: Tally, releaseBlocked: bool)

  function Report(tally: Tally): IntegrityReport {
    IntegrityReport(
      if tally.untrusted > 0 then UntrustedPresent else if tally.legacy > 0 then LegacyOnly else Trusted,
      tally,
      tally.untrusted > 0 || tally.invalidLines != [])
  }

  /** What `assess_log_writer_integrity` reports. */
  function LogIntegrity(c: Codec, log: Option<string>): Outcome<IntegrityReport> {
    if log.None? then Done(IntegrityReport(LogAbsent, Tally(0, 0, 0, []), false))
    else
      var lines := LogLines(log.value);
      var tally := TallyLines(c, lines, |lines|);
      if tally.Raised? then Raised else Done(Report(tally.value))
  }

  // ---------------------------------------------------------------- the loops

  method ReadLogEntryHashes(c: Codec, log: Option<string>) returns (r: Outcome<set<string>>)
    ensures r == LogHashes(c, log)
  {
    if log.None? {
      return Done({});
    }
    var hashes: set<string> := {};
    var lines := SplitLines(log.value);
    ghost var all := HashesOn(c, NonBlank(lines));
    for i := 0 to |lines|
      invariant var rest := HashesOn(c, NonBlank(lines[i..]));
        if rest.Raised? then all.Raised? else all.Done? && all.value == hashes + rest.value
    {
      hide LawfulCodec, Strip;
      assert lines[i..][1..] == lines[i + 1..] && lines[i..][0] == lines[i];
      var line := Strip(lines[i]);
      if line == "" {
        assert NonBlank(lines[i..]) == NonBlank(lines[i + 1..]);
        continue;
      }
      assert NonBlank(lines[i..])[1..] == NonBlank(lines[i + 1..]);
      var entry := c.loads(line);
      if entry.None? {
        continue;
      }
      if !entry.value.JObj? {
        return Raised;
      }
      var h := Get(entry.value.fields, "_entry_hash");
      if h.JStr? && h.s != "" {
        hashes := hashes + {h.s};
      }
    }
    return Done(hashes);
  }

  lemma TallyNext(c: Codec, lines: seq<string>, n: nat)
    requires n < |lines| && TallyLines(c, lines, n).Done?
    ensures var t, here := TallyLines(c, lines, n).value, c.loads(lines[n]);
      TallyLines(c, lines, n + 1)
      == if here.None? then Done(t.(untrusted := t.untrusted + 1, invalidLines := t.invalidLines + [n + 1]))
         else if !here.value.JObj? then Raised
         else if Get(here.value.fields, "_writer_id") == JNull then Done(t.(legacy := t.legacy + 1))
         else if Get(here.value.fields, "_writer_id") == JStr(LOG_WRITER_ID) then Done(t.(trusted := t.trusted + 1))
         else Done(t.(untrusted := t.untrusted + 1))
  {
    hide Get;
  }

  /** `readable` is false when opening an existing log fails. */
  method AssessLogWriterIntegrity(c: Codec, log: Option<string>, readable: bool) returns (r: Outcome<IntegrityReport>)
    ensures r == if log.Some? && !readable then Done(IntegrityReport(LogUnreadable, Tally(0, 0, 0, []), true))
                 else LogIntegrity(c, log)
  {
    if log.None? {
      return Done(IntegrityReport(LogAbsent, Tally(0, 0, 0, []), false));
    }
    if !readable {
      return Done(IntegrityReport(LogUnreadable, Tally(0, 0, 0, []), true));
    }
    hide LogLines, Get, TallyOf, AddTally, Strip, SplitLines, NonBlank;
    var trusted, legacy, untrusted := 0, 0, 0;
    var errors: seq<nat> := [];
    var lines := LogLines(log.value);
    for i := 0 to |lines|
      invariant TallyLines(c, lines, i) == Done(Tally(trusted, legacy, untrusted, errors))
    {
      hide *;
      TallyNext(c, lines, i);
      var entry := c.loads(lines[i]);
      if entry.None? {
        errors := errors + [i + 1];
        untrusted := untrusted + 1;
        continue;
      }
      if !entry.value.JObj? {
        RaisedStays(c, lines, i + 1, |lines|);
        return Raised;
      }
      var writerId := Get(entry.value.fields, "_writer_id");
      if writerId == JNull {
        legacy := legacy + 1;
      } else if writerId == JStr(LOG_WRITER_ID) {
        trusted := trusted + 1;
      } else {
        untrusted := untrusted + 1;
      }
    }
    return Done(Report(Tally(trusted, legacy, untrusted, errors)));
  }

  lemma {:induction false} RaisedStays(c: Codec, lines: seq<string>, m: nat, n: nat)
    requires m <= n <= |lines| && TallyLines(c, lines, m).Raised?
    ensures TallyLines(c, lines, n).Raised?
    decreases n
  {
    if m < n {
      RaisedStays(c, lines, m, n - 1);
    }
  }

  // ---------------------------------------------------------------- what appending leaves in the file

  predicate LineEnded(text: string) {
    text == "" || text[|text| - 1] == '\n'
  }

  lemma {:induction false} NonBlankAppend(a: seq<string>, b: seq<string>)
    ensures NonBlank(a + b) == NonBlank(a) + NonBlank(b)
  {
    hide Strip;
    if a == [] {
      assert a + b == b;
    } else {
      assert (a + b)[0] == a[0] && (a + b)[1..] == a[1..] + b;
      NonBlankAppend(a[1..], b);
    }
  }

  lemma LogLinesAppend(text: string, more: string)
    requires LineEnded(text)
    ensures LogLines(text + more) == LogLines(text) + LogLines(more)
  {
    SplitAppend(text, more);
    NonBlankAppend(SplitLines(text), SplitLines(more));
  }

  lemma SerializedTrimmed(c: Codec, e: Obj)
    requires LawfulText(c, e)
    ensures Strip(c.dumps(JObj(e))) == c.dumps(JObj(e))
  {
    StripTrimmed(c.dumps(JObj(e)));
  }

  /** A serialised entry without line separators is one log line, whatever follows. */
  lemma CleanLine(c: Codec, e: Obj, rest: string)
    requires LawfulText(c, e) && BreakFree(c.dumps(JObj(e)))
    ensures LogLines(c.dumps(JObj(e)) + "\n" + rest) == [c.dumps(JObj(e))] + LogLines(rest)
  {
    var t := c.dumps(JObj(e));
    SerializedTrimmed(c, e);
    hide Strip, LawfulText;
    assert t != "" by { EntryNonEmpty(c, e); }
    SplitFirstLine(t, rest);
    assert ([t] + SplitLines(rest))[1..] == SplitLines(rest);
  }

  lemma EntryNonEmpty(c: Codec, e: Obj)
    requires LawfulText(c, e)
    ensures c.dumps(JObj(e)) != ""
  {
  }

  /** One with a line separator breaks apart, and its first piece is no JSON. */
  lemma BrokenLine(c: Codec, e: Obj, rest: string)
    requires LawfulText(c, e) && !BreakFree(c.dumps(JObj(e)))
    ensures LogLines(c.dumps(JObj(e)) + "\n" + rest) != []
    ensures c.loads(LogLines(c.dumps(JObj(e)) + "\n" + rest)[0]) == None
  {
    var t := c.dumps(JObj(e));
    var s := t + "\n" + rest;
    var k := FirstBreak(t);
    assert k > 0 && k < |t|;
    BreaksEarly(t, "\n" + rest);
    assert s == t + ("\n" + rest);
    SplitStep(s, k, k + BreakLength(s, k));
    assert s[..k] == t[..k];
    var m := BrokenPiece(t, k);
    assert t[..k][..m] == t[..m];
    hide Strip;
    var lines := SplitLines(s);
    assert lines[0] == t[..k];
  }

  lemma BreaksEarly(t: string, rest: string)
    requires FirstBreak(t) < |t|
    ensures FirstBreak(t + rest) == FirstBreak(t)
  {
    var k := FirstBreak(t);
    assert t + rest == t[..k] + (t[k..] + rest);
    FirstBreakAt(t[..k], t[k..] + rest);
  }

  lemma BrokenPiece(t: string, k: nat) returns (m: nat)
    requires 0 < k < |t| && t[0] == '{'
    ensures 0 < m <= k && Strip(t[..k]) == t[..k][..m]
  {
    var i, j := StripWindow(t[..k]);
    assert t[..k][0] == '{';
    m := j;
  }

  lemma {:induction false} AppendAllSplit(c: Codec, text: string, a: seq<Obj>, b: seq<Obj>)
    ensures AppendAll(c, text, a + b) == AppendAll(c, AppendAll(c, text, a), b)
    decreases |a|
  {
    if a == [] {
      assert a + b == b;
    } else {
      hide AppendLine;
      assert (a + b)[0] == a[0] && (a + b)[1..] == a[1..] + b;
      AppendAllSplit(c, AppendLine(c, text, a[0]), a[1..], b);
    }
  }

  /** Appending extends the text. */
  lemma {:induction false} AppendAllExtends(c: Codec, text: string, entries: seq<Obj>)
    requires LineEnded(text)
    ensures text <= AppendAll(c, text, entries) && LineEnded(AppendAll(c, text, entries))
    decreases |entries|
  {
    if entries != [] {
      AppendAllExtends(c, AppendLine(c, text, entries[0]), entries[1..]);
    }
  }

  /** Where one entry of a log stands: the lines before it, its own text, and the rest. */
  lemma EntryPosition(c: Codec, text: string, before: seq<Obj>, e: Obj, after: seq<Obj>)
      returns (head: string, rest: string)
    requires LineEnded(text)
    ensures LineEnded(head) && head == AppendAll(c, text, before)
    ensures AppendAll(c, text, before + [e] + after) == head + (c.dumps(JObj(e)) + "\n" + rest)
  {
    head := AppendAll(c, text, before);
    AppendAllExtends(c, text, before);
    AppendAllSplit(c, text, before + [e], after);
    AppendAllSplit(c, text, before, [e]);
    assert [e][1..] == [];
    var line := AppendLine(c, head, e);
    assert AppendAll(c, head, [e]) == line;
    AppendAllExtends(c, line, after);
    var whole := AppendAll(c, line, after);
    rest := whole[|line|..];
    assert whole == line + rest;
  }

  // ---------------------------------------------------------------- main results

  predicate Clean(c: Codec, entries: seq<Obj>) {
    forall i :: 0 <= i < |entries| ==> BreakFree(c.dumps(JObj(entries[i])))
  }

  predicate AllWrittenByLogWriter(entries: seq<Obj>) {
    forall i :: 0 <= i < |entries| ==> WrittenByLogWriter(entries[i])
  }

  lemma {:induction false} CleanLogLines(c: Codec, entries: seq<Obj>)
    requires LawfulCodec(c) && Clean(c, entries)
    ensures |LogLines(AppendAll(c, "", entries))| == |entries|
    ensures forall i :: 0 <= i < |entries| ==> LogLines(AppendAll(c, "", entries))[i] == c.dumps(JObj(entries[i]))
    decreases |entries|
  {
    if entries == [] {
      assert LogLines("") == [];
    } else {
      var n := |entries| - 1;
      var before, e := entries[..n], entries[n];
      assert entries == before + [e] + [];
      assert BreakFree(c.dumps(JObj(e))) && LawfulText(c, e);
      hide BreakFree, LawfulText, LogLines, AppendAll;
      CleanLogLines(c, before);
      var head, rest := EntryPosition(c, "", before, e, []);
      assert AppendAll(c, "", entries) == AppendLine(c, head, e) by { AppendedLast(c, before, e); }
      assert head + (c.dumps(JObj(e)) + "\n" + "") == AppendLine(c, head, e);
      LogLinesAppend(head, c.dumps(JObj(e)) + "\n" + "");
      CleanLine(c, e, "");
      assert LogLines("") == [] by { EmptyLog(); }
    }
  }

  lemma EmptyLog()
    ensures LogLines("") == []
  {
  }

  lemma AppendedLast(c: Codec, before: seq<Obj>, e: Obj)
    ensures AppendAll(c, "", before + [e]) == AppendLine(c, AppendAll(c, "", before), e)
    ensures before + [e] + [] == before + [e]
  {
    AppendAllSplit(c, "", before, [e]);
    assert [e][1..] == [];
  }

  lemma TrustedLine(c: Codec, e: Obj, n: nat)
    requires LawfulText(c, e) && WrittenByLogWriter(e)
    ensures TallyOf(c, c.dumps(JObj(e)), n) == Done(Tally(1, 0, 0, []))
  {
  }

  lemma {:induction false} TrustedTally(c: Codec, entries: seq<Obj>, lines: seq<string>, n: nat)
    requires LawfulCodec(c) && AllWrittenByLogWriter(entries) && n <= |entries| == |lines|
    requires forall i :: 0 <= i < |entries| ==> lines[i] == c.dumps(JObj(entries[i]))
    ensures TallyLines(c, lines, n) == Done(Tally(n, 0, 0, []))
    decreases n
  {
    hide TallyOf, LawfulText, WrittenByLogWriter;
    if n > 0 {
      TrustedTally(c, entries, lines, n - 1);
      var e := entries[n - 1];
      assert LawfulText(c, e) && WrittenByLogWriter(e) && lines[n - 1] == c.dumps(JObj(e));
      TrustedLine(c, e, n);
    }
  }

  lemma {:induction false} UnparsedCounts(c: Codec, lines: seq<string>, k: nat, n: nat)
    requires k < n <= |lines| && c.loads(lines[k]) == None
    ensures TallyLines(c, lines, n).Raised? || TallyLines(c, lines, n).value.untrusted > 0
    decreases n
  {
    if k < n - 1 {
      UnparsedCounts(c, lines, k, n - 1);
    }
  }

  lemma IntegrityOf(c: Codec, text: string, tally: Outcome<Tally>)
    requires TallyLines(c, LogLines(text), |LogLines(text)|) == tally
    ensures LogIntegrity(c, Some(text)) == if tally.Raised? then Raised else Done(Report(tally.value))
  {
    hide LogLines, TallyLines, Report;
  }

  lemma CleanLogTrusted(c: Codec, entries: seq<Obj>)
    requires LawfulCodec(c) && AllWrittenByLogWriter(entries) && Clean(c, entries)
    ensures LogIntegrity(c, Some(AppendAll(c, "", entries)))
         == Done(IntegrityReport(Trusted, Tally(|entries|, 0, 0, []), false))
  {
    assert Report(Tally(|entries|, 0, 0, [])) == IntegrityReport(Trusted, Tally(|entries|, 0, 0, []), false);
    hide *;
    var log := AppendAll(c, "", entries);
    CleanLogLines(c, entries);
    TrustedTally(c, entries, LogLines(log), |entries|);
    IntegrityOf(c, log, Done(Tally(|entries|, 0, 0, [])));
  }

  lemma BrokenEntryCounts(c: Codec, before: seq<Obj>, e: Obj, after: seq<Obj>)
    requires LawfulText(c, e) && !BreakFree(c.dumps(JObj(e)))
    ensures var lines := LogLines(AppendAll(c, "", before + [e] + after));
      TallyLines(c, lines, |lines|).Raised? || TallyLines(c, lines, |lines|).value.untrusted > 0
  {
    assert LineEnded("");
    hide *;
    var head, rest := EntryPosition(c, "", before, e, after);
    LogLinesAppend(head, c.dumps(JObj(e)) + "\n" + rest);
    BrokenLine(c, e, rest);
    var lines := LogLines(AppendAll(c, "", before + [e] + after));
    UnparsedCounts(c, lines, |LogLines(head)|, |lines|);
  }

  lemma UncleanLogNotTrusted(c: Codec, entries: seq<Obj>)
    requires LawfulCodec(c) && !Clean(c, entries)
    ensures var report := LogIntegrity(c, Some(AppendAll(c, "", entries)));
      report.Raised? || (report.value.integrity == UntrustedPresent && report.value.releaseBlocked)
  {
    var i :| 0 <= i < |entries| && !BreakFree(c.dumps(JObj(entries[i])));
    assert LawfulText(c, entries[i]);
    hide LogLines, AppendAll, BreakFree, TallyLines, LogIntegrity, LawfulText;
    assert entries == entries[..i] + [entries[i]] + entries[i + 1..];
    BrokenEntryCounts(c, entries[..i], entries[i], entries[i + 1..]);
    var log := AppendAll(c, "", entries);
    IntegrityOf(c, log, TallyLines(c, LogLines(log), |LogLines(log)|));
  }

  /**
   A log produced only by appends is judged trusted, with one trusted entry per append, if
   and only if no serialised entry holds a line separator: JSON text leaves U+0085, U+2028
   and U+2029 as they are, and reading splits the line there.
   */
  lemma AppendedLogTrusted(c: Codec, entries: seq<Obj>)
    requires LawfulCodec(c) && AllWrittenByLogWriter(entries)
    ensures Clean(c, entries) ==>
              LogIntegrity(c, Some(AppendAll(c, "", entries)))
              == Done(IntegrityReport(Trusted, Tally(|entries|, 0, 0, []), false))
    ensures !Clean(c, entries) ==>
              LogIntegrity(c, Some(AppendAll(c, "", entries))).Raised?
              || (LogIntegrity(c, Some(AppendAll(c, "", entries))).value.integrity == UntrustedPresent
                  && LogIntegrity(c, Some(AppendAll(c, "", entries))).value.releaseBlocked)
  {
    hide *;
    if Clean(c, entries) {
      CleanLogTrusted(c, entries);
    } else {
      UncleanLogNotTrusted(c, entries);
    }
  }

  lemma ContainedBreak(t: string, s: string)
    requires Contains(t, s) && !BreakFree(s)
    ensures !BreakFree(t)
  {
    var i :| 0 <= i <= |t| && OccursAt(t, s, i);
    var k :| 0 <= k < |s| && IsBreak(s[k]);
    assert t[i..i + |s|][k] == t[i + k];
  }

  /** The fields of the caller survive normalisation. */
  lemma AcceptedKeeps(c: Codec, entry: Obj, at: string, key: string)
    requires NormalizeEntry(c, entry, at).Done? && key in entry && key != "_entry_hash" && key != "_written_at"
    ensures var e := NormalizeEntry(c, entry, at).value; key in e && e[key] == entry[key] && WrittenByLogWriter(e)
  {
    hide EntryHash;
  }

  lemma SpoiledEntry(c: Codec, before: seq<Obj>, e: Obj, after: seq<Obj>, key: string, s: string)
    requires Verbatim(c) && key in e && e[key] == JStr(s) && PrintsAsIs(s) && !BreakFree(s)
    ensures !Clean(c, before + [e] + after)
  {
    assert Contains(c.dumps(JObj(e)), s);
    ContainedBreak(c.dumps(JObj(e)), s);
    hide BreakFree;
    assert (before + [e] + after)[|before|] == e;
  }

  lemma AllWrittenJoin(before: seq<Obj>, e: Obj, after: seq<Obj>)
    requires AllWrittenByLogWriter(before) && WrittenByLogWriter(e) && AllWrittenByLogWriter(after)
    ensures AllWrittenByLogWriter(before + [e] + after)
  {
    hide WrittenByLogWriter;
  }

  predicate NotTrusted(report: Outcome<IntegrityReport>) {
    report.Raised? || report.value.integrity == UntrustedPresent
  }

  /** An accepted entry with a plain text that holds a line separator spoils every log it is appended to. */
  lemma SeparatorIsNotTrusted(c: Codec, entry: Obj, at: string, key: string, s: string, before: seq<Obj>,
                              after: seq<Obj>)
    requires LawfulCodec(c) && Verbatim(c) && NormalizeEntry(c, entry, at).Done?
    requires key in entry && key != "_entry_hash" && key != "_written_at" && entry[key] == JStr(s)
    requires PrintsAsIs(s) && !BreakFree(s)
    requires AllWrittenByLogWriter(before) && AllWrittenByLogWriter(after)
    ensures NotTrusted(LogIntegrity(c, Some(AppendAll(c, "", before + [NormalizeEntry(c, entry, at).value] + after))))
  {
    var e := NormalizeEntry(c, entry, at).value;
    AcceptedKeeps(c, entry, at, key);
    SpoiledEntry(c, before, e, after, key, s);
    AllWrittenJoin(before, e, after);
    hide LawfulCodec, LogIntegrity, AppendAll, Clean, AllWrittenByLogWriter, NormalizeEntry, Verbatim, PrintsAsIs,
      BreakFree;
    AppendedLogTrusted(c, before + [e] + after);
  }

  /** The writer accepts an escalation id that is one line separator, and its log is not trusted. */
  lemma SeparatorExample(c: Codec, at: string)
    requires LawfulCodec(c) && Verbatim(c)
    ensures var entry := map["escalation_id" := JStr(LINE_SEPARATOR)];
      && NormalizeEntry(c, entry, at).Done?
      && NotTrusted(LogIntegrity(c, Some(AppendAll(c, "", [NormalizeEntry(c, entry, at).value]))))
  {
    var entry := map["escalation_id" := JStr(LINE_SEPARATOR)];
    assert "escalation_id" != "_entry_hash" && "escalation_id" != "_written_at";
    assert IsBreak(LINE_SEPARATOR[0]);
    var e := NormalizeEntry(c, entry, at).value;
    assert [] + [e] + [] == [e];
    hide LawfulCodec, LogIntegrity, AppendAll, NormalizeEntry, Verbatim, NotTrusted;
    assert NormalizeEntry(c, entry, at).Done? by { Accepted(c, entry, at); }
    SeparatorIsNotTrusted(c, entry, at, "escalation_id", LINE_SEPARATOR, [], []);
  }

  lemma Accepted(c: Codec, entry: Obj, at: string)
    requires "_writer_id" !in entry && "_writer_version" !in entry
    ensures NormalizeEntry(c, entry, at).Done?
  {
  }

  // ---------------------------------------------------------------- what is read back

  predicate NonObject(c: Codec, line: string) {
    c.loads(line).Some? && !c.loads(line).value.JObj?
  }

  /** Reading raises exactly when some line holds JSON that is no object. */
  lemma {:induction false} ReadingRaisesIff(c: Codec, lines: seq<string>)
    ensures HashesOn(c, lines).Raised? <==> exists i :: 0 <= i < |lines| && NonObject(c, lines[i])
  {
    hide HashOf;
    if lines != [] {
      ReadingRaisesIff(c, lines[1..]);
      assert forall i :: 0 < i < |lines| ==> lines[i] == lines[1..][i - 1];
      assert NonObject(c, lines[0]) || !NonObject(c, lines[0]);
    }
  }

  lemma {:induction false} HashesAppend(c: Codec, a: seq<string>, b: seq<string>)
    ensures HashesOn(c, a + b).Raised? <==> HashesOn(c, a).Raised? || HashesOn(c, b).Raised?
    ensures HashesOn(c, a + b).Done? ==> HashesOn(c, a + b).value == HashesOn(c, a).value + HashesOn(c, b).value
  {
    hide HashOf;
    if a == [] {
      assert a + b == b;
    } else {
      assert (a + b)[1..] == a[1..] + b;
      HashesAppend(c, a[1..], b);
    }
  }

  function HashesOf(entries: seq<Obj>): set<string> {
    if entries == [] then {} else HashOf(entries[0]) + HashesOf(entries[1..])
  }

  lemma {:induction false} HashesOfMember(entries: seq<Obj>, i: nat)
    requires i < |entries|
    ensures HashOf(entries[i]) <= HashesOf(entries)
  {
    hide HashOf;
    if i > 0 { HashesOfMember(entries[1..], i - 1); }
  }

  lemma OneHash(c: Codec, e: Obj)
    requires LawfulText(c, e)
    ensures HashesOn(c, [c.dumps(JObj(e))]) == Done(HashOf(e))
  {
    hide HashOf;
    var lines := [c.dumps(JObj(e))];
    assert lines[1..] == [] && HashesOn(c, []) == Done({});
    assert HashOf(e) + {} == HashOf(e);
  }

  lemma CleanAppendHash(c: Codec, text: string, e: Obj)
    requires LawfulCodec(c) && LineEnded(text) && BreakFree(c.dumps(JObj(e)))
    ensures LineEnded(AppendLine(c, text, e))
    ensures LogHashes(c, Some(AppendLine(c, text, e))).Raised? <==> LogHashes(c, Some(text)).Raised?
    ensures LogHashes(c, Some(text)).Done? ==>
              LogHashes(c, Some(AppendLine(c, text, e))) == Done(LogHashes(c, Some(text)).value + HashOf(e))
  {
    assert LawfulText(c, e);
    var line := c.dumps(JObj(e));
    hide LogLines, HashesOn, HashOf, BreakFree, LawfulText;
    assert AppendLine(c, text, e) == text + (line + "\n" + "");
    LogLinesAppend(text, line + "\n" + "");
    CleanLine(c, e, "");
    EmptyLog();
    assert [line] + LogLines("") == [line];
    HashesAppend(c, LogLines(text), [line]);
    OneHash(c, e);
  }

  /**
   Appending entries without line separators to any text adds exactly their hashes to what
   is read, and makes the reader raise only if it did before.
   */
  lemma {:induction false} CleanAppendHashes(c: Codec, text: string, entries: seq<Obj>)
    requires LawfulCodec(c) && LineEnded(text) && Clean(c, entries)
    ensures LogHashes(c, Some(AppendAll(c, text, entries))).Raised? <==> LogHashes(c, Some(text)).Raised?
    ensures LogHashes(c, Some(text)).Done? ==>
              LogHashes(c, Some(AppendAll(c, text, entries)))
                   == Done(LogHashes(c, Some(text)).value + HashesOf(entries))
    decreases |entries|
  {
    if entries != [] {
      hide LogHashes, HashOf, BreakFree, LawfulCodec, AppendLine, LineEnded;
      var next := AppendLine(c, text, entries[0]);
      CleanAppendHash(c, text, entries[0]);
      CleanAppendHashes(c, next, entries[1..]);
      if LogHashes(c, Some(text)).Done? {
        var was, own, later := LogHashes(c, Some(text)).value, HashOf(entries[0]), HashesOf(entries[1..]);
        assert (was + own) + later == was + (own + later);
      }
    } else {
      hide LogHashes;
      assert LogHashes(c, Some(text)).Done? ==> LogHashes(c, Some(text)).value + {} == LogHashes(c, Some(text)).value;
    }
  }

  lemma {:induction false} NonBlankMember(lines: seq<string>, line: string)
    requires line in lines && Strip(line) == line && line != ""
    ensures line in NonBlank(lines)
  {
    hide Strip;
    if lines[0] != line {
      NonBlankMember(lines[1..], line);
    }
  }

  /** Once a separator-enclosed `[]` is in the log, the list is read as a line and the reader raises. */
  lemma EnclosedListRaises(c: Codec, text: string, before: string, after: string)
    requires c.loads("[]") == Some(JArr([])) && text == before + ENCLOSED_LIST + after
    ensures LogHashes(c, Some(text)).Raised?
  {
    var head, tail := before + LINE_SEPARATOR, LINE_SEPARATOR + after;
    assert text == head + ("[]" + tail);
    LineBetween(head, "[]", tail);
    StripTrimmed("[]");
    hide SplitLines, HashesOn, NonBlank, Strip;
    NonBlankMember(SplitLines(text), "[]");
    ReadingRaisesIff(c, LogLines(text));
    var i :| 0 <= i < |LogLines(text)| && LogLines(text)[i] == "[]";
    assert NonObject(c, LogLines(text)[i]);
  }

  /** The writer accepts an id that makes every later reading of its log raise. */
  lemma RaisingExample(c: Codec, at: string, text: string, after: seq<Obj>)
    requires LawfulCodec(c) && Verbatim(c) && c.loads("[]") == Some(JArr([])) && LineEnded(text)
    ensures var entry := map["escalation_id" := JStr(ENCLOSED_LIST)];
      && NormalizeEntry(c, entry, at).Done?
      && LogHashes(c, Some(AppendAll(c, text, [NormalizeEntry(c, entry, at).value] + after))).Raised?
  {
    var id := ENCLOSED_LIST;
    var entry := map["escalation_id" := JStr(id)];
    assert PrintsAsIs(id);
    assert "escalation_id" != "_entry_hash" && "escalation_id" != "_written_at";
    Accepted(c, entry, at);
    AcceptedKeeps(c, entry, at, "escalation_id");
    var e := NormalizeEntry(c, entry, at).value;
    assert Contains(c.dumps(JObj(e)), id);
    hide *;
    VerbatimInLog(c, text, e, after, id);
  }

  lemma ContainedParts(t: string, s: string) returns (before: string, after: string)
    requires Contains(t, s)
    ensures t == before + s + after
  {
    var i :| 0 <= i <= |t| && OccursAt(t, s, i);
    before, after := t[..i], t[i + |s|..];
  }

  lemma VerbatimInLog(c: Codec, text: string, e: Obj, after: seq<Obj>, id: string)
    requires Contains(c.dumps(JObj(e)), id) && id == ENCLOSED_LIST && LineEnded(text)
    requires c.loads("[]") == Some(JArr([]))
    ensures LogHashes(c, Some(AppendAll(c, text, [e] + after))).Raised?
  {
    var t := c.dumps(JObj(e));
    var a, b := ContainedParts(t, id);
    hide AppendAll, LogHashes, Contains;
    assert [] + [e] + after == [e] + after;
    var head, rest := EntryPosition(c, text, [], e, after);
    var all := AppendAll(c, text, [e] + after);
    assert all == (head + a) + id + (b + ("\n" + rest));
    EnclosedListRaises(c, all, head + a, b + ("\n" + rest));
  }

  lemma {:induction false} HashesInclude(c: Codec, lines: seq<string>, k: nat)
    requires k < |lines| && c.loads(lines[k]).Some? && c.loads(lines[k]).value.JObj?
    ensures HashesOn(c, lines).Raised? || HashOf(c.loads(lines[k]).value.fields) <= HashesOn(c, lines).value
  {
    if k > 0 {
      HashesInclude(c, lines[1..], k - 1);
    }
  }

  /**
   The hash of an append without line separator is in the log after every later sequence of
   appends, unless the reader raises, which it does exactly on a line with JSON but no
   object. It does not when the text read well before and all appends are without separator.
   */
  lemma AppendedHashFound(c: Codec, text: string, before: seq<Obj>, e: Obj, after: seq<Obj>)
    requires LawfulCodec(c) && LineEnded(text) && BreakFree(c.dumps(JObj(e)))
    requires Get(e, "_entry_hash").JStr? && Get(e, "_entry_hash").s != ""
    ensures var log := AppendAll(c, text, before + [e] + after);
      && (LogHashes(c, Some(log)).Raised? <==> exists i :: 0 <= i < |LogLines(log)| && NonObject(c, LogLines(log)[i]))
      && (LogHashes(c, Some(log)).Done? ==> Get(e, "_entry_hash").s in LogHashes(c, Some(log)).value)
      && (LogHashes(c, Some(text)).Done? && Clean(c, before + [e] + after) ==> LogHashes(c, Some(log)).Done?)
  {
    assert LawfulText(c, e);
    hide LogLines, AppendAll, BreakFree;
    var head, rest := EntryPosition(c, text, before, e, after);
    LogLinesAppend(head, c.dumps(JObj(e)) + "\n" + rest);
    CleanLine(c, e, rest);
    var lines := LogLines(AppendAll(c, text, before + [e] + after));
    assert lines[|LogLines(head)|] == c.dumps(JObj(e));
    assert c.loads(c.dumps(JObj(e))) == Some(JObj(e));
    HashesInclude(c, lines, |LogLines(head)|);
    ReadingRaisesIff(c, lines);
    if Clean(c, before + [e] + after) { CleanAppendHashes(c, text, before + [e] + after); }
  }

  /** What `append_escalation_log_entry` writes carries the writer's identity and a usable hash. */
  lemma NormalizedEntry(c: Codec, entry: Obj, at: string)
    requires LawfulCodec(c) && NormalizeEntry(c, entry, at).Done?
    ensures var e := NormalizeEntry(c, entry, at).value;
      && WrittenByLogWriter(e) && e["_written_at"] == JStr(at)
      && e["_entry_hash"] == JStr(EntryHash(c, e)) && EntryHash(c, e) != ""
      && Get(e, "escalation_id") == Get(entry, "escalation_id")
  {
    var e := NormalizeEntry(c, entry, at).value;
    assert EntryHash(c, e) == EntryHash(c, Identified(entry, at));
    assert Strip("") == "";
  }

  // ---------------------------------------------------------------- the register

  /** A file: absent, not JSON, or loaded. */
  datatype FileContent = Absent | Unreadable(why: string) | Parsed(json: Json)

  datatype RegisterView = RegisterView(available: bool, ok: bool, activeIds: seq<Json>, reasons: seq<string>)

  function Dedup(ids: seq<string>): seq<string> {
    if ids == [] then []
    else
      var before := Dedup(ids[..|ids| - 1]);
      if ids[|ids| - 1] in before then before else before + [ids[|ids| - 1]]
  }

  function RegisterJson(ids: seq<string>, at: string): Json {
    JObj(map[
      "register_schema" := JStr(REGISTER_SCHEMA),
      "writer_id" := JStr(REGISTER_WRITER_ID),
      "writer_version" := JStr(REGISTER_WRITER_VERSION),
      "written_at" := JStr(at),
      "active_escalation_ids" := JArr(Strings(Dedup(ids))),
      "active_case_count" := JInt(|Dedup(ids)|)])
  }

  function AssessRegister(file: FileContent, keyOrder: Obj -> seq<string>): Outcome<RegisterView> {
    match file
    case Absent => Done(RegisterView(false, true, [], []))
    case Unreadable(why) => Done(RegisterView(true, false, [], ["register_unreadable:" + why]))
    case Parsed(json) =>
      if !json.JObj? then Raised
      else
        var r := json.fields;
        var trusted := Get(r, "writer_id") == JStr(REGISTER_WRITER_ID)
                       && Get(r, "writer_version") == JStr(REGISTER_WRITER_VERSION)
                       && Get(r, "register_schema") == JStr(REGISTER_SCHEMA);
        var ids := ListOf(Get(r, "active_escalation_ids"), keyOrder);
        if ids.Raised? then Raised
        else Done(RegisterView(true, trusted, ids.value, if trusted then [] else ["register_writer_untrusted"]))
  }

  lemma {:induction false} DedupMembers(ids: seq<string>)
    ensures forall id :: id in Dedup(ids) <==> id in ids
    ensures forall i, j :: 0 <= i < j < |Dedup(ids)| ==> Dedup(ids)[i] != Dedup(ids)[j]
  {
    if ids != [] {
      var n := |ids| - 1;
      DedupMembers(ids[..n]);
      assert ids == ids[..n] + [ids[n]];
    }
  }

  lemma {:induction false} StringsMembers(items: seq<string>)
    ensures |Strings(items)| == |items|
    ensures forall id :: JStr(id) in Strings(items) <==> id in items
  {
    if items != [] {
      StringsMembers(items[1..]);
      assert items == [items[0]] + items[1..];
    }
  }

  /** A register as it was written is trusted and lists exactly the ids given, each once. */
  lemma RegisterRoundTrip(ids: seq<string>, at: string, keyOrder: Obj -> seq<string>)
    ensures AssessRegister(Parsed(RegisterJson(ids, at)), keyOrder).Done?
    ensures var view := AssessRegister(Parsed(RegisterJson(ids, at)), keyOrder).value;
      && view.available && view.ok && view.reasons == []
      && view.activeIds == Strings(Dedup(ids))
      && (forall id :: JStr(id) in view.activeIds <==> id in ids)
  {
    DedupMembers(ids);
    StringsMembers(Dedup(ids));
    hide Strings, Dedup;
  }
}
