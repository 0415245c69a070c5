/**
 The in-place contract editor of `adopt_governance.py`: it inserts list entries into the
 lines of an existing contract.yaml. Main results: an edit changes nothing the parser sees
 except the entries it adds exactly when `EditSafe` holds, and a second adoption run leaves
 the file alone.
 */
module ContractEditor {
  import opened Text
  import opened FlatYaml

  const OVERRIDE_KEY := "ai_behavior_override"
  const DOCUMENTS_KEY := "documents"
  const AGENTS_BASE := "AGENTS.base.md"
  const REQUIRED_DOCUMENTS: seq<string> :=
    [AGENTS_BASE, "PLAN.md", "governance/TESTING.md", "governance/ARCHITECTURE.md"]

  // ---------------------------------------------------------------- the edit on lines

  /** The two spellings of a list key that the editor recognises. */
  predicate IsExact(line: string, key: string) {
    Strip(line) == key + ": []" || Strip(line) == key + ":"
  }

  function FirstExact(lines: seq<string>, key: string): (i: nat)
    ensures i <= |lines|
    ensures forall j :: 0 <= j < i ==> !IsExact(lines[j], key)
    ensures i < |lines| ==> IsExact(lines[i], key)
  {
    if lines == [] || IsExact(lines[0], key) then 0
    else
      var i := FirstExact(lines[1..], key);
      assert forall j :: 0 < j < |lines| ==> lines[j] == lines[1..][j - 1];
      i + 1
  }

  predicate IsListLine(line: string) {
    StartsWith(line, "  - ") || Strip(line) == ""
  }

  /** End of the run of item and blank lines from `from` on. */
  function SkipList(lines: seq<string>, from: nat): (p: nat)
    requires from <= |lines|
    ensures from <= p <= |lines|
    ensures forall j :: from <= j < p ==> IsListLine(lines[j])
    ensures p < |lines| ==> !IsListLine(lines[p])
    decreases |lines| - from
  {
    if from < |lines| && IsListLine(lines[from]) then SkipList(lines, from + 1) else from
  }

  lemma {:induction false} ItemLinesAppend(a: seq<string>, e: string)
    ensures ItemLines(a + [e]) == ItemLines(a) + [ItemLine(e)]
  {
    if a == [] {
      assert [e][1..] == [];
    } else {
      assert (a + [e])[1..] == a[1..] + [e];
      ItemLinesAppend(a[1..], e);
    }
  }

  /** A new block at the end, after a blank line unless there is one. */
  function AppendBlock(lines: seq<string>, key: string, entries: seq<string>): seq<string> {
    var gap := if lines != [] && Strip(lines[|lines| - 1]) != "" then [""] else [];
    lines + gap + [key + ":"] + ItemLines(entries)
  }

  function EditLines(lines: seq<string>, key: string, entries: seq<string>): seq<string> {
    var i := FirstExact(lines, key);
    if i == |lines| then AppendBlock(lines, key, entries)
    else if Strip(lines[i]) == key + ": []" then
      lines[..i] + [key + ":"] + ItemLines(entries) + lines[i + 1..]
    else
      var p := SkipList(lines, i + 1);
      lines[..p] + ItemLines(entries) + lines[p..]
  }

  /** `lines.insert(at + offset, ...)` for each entry in turn. */
  method InsertAt(lines: seq<string>, at: nat, entries: seq<string>) returns (out: seq<string>)
    requires at <= |lines|
    ensures out == lines[..at] + ItemLines(entries) + lines[at..]
  {
    out := lines;
    for offset := 0 to |entries|
      invariant out == lines[..at] + ItemLines(entries[..offset]) + lines[at..]
      invariant |ItemLines(entries[..offset])| == offset
    {
      hide ItemLine;
      assert entries[..offset + 1] == entries[..offset] + [entries[offset]];
      ItemLinesAppend(entries[..offset], entries[offset]);
      out := out[..at + offset] + [ItemLine(entries[offset])] + out[at + offset..];
    }
    assert entries[..|entries|] == entries;
  }

  /** `lines.append(...)` for each entry in turn. */
  method AppendItems(lines: seq<string>, entries: seq<string>) returns (out: seq<string>)
    ensures out == lines + ItemLines(entries)
  {
    out := lines;
    for k := 0 to |entries|
      invariant out == lines + ItemLines(entries[..k])
    {
      hide ItemLine;
      assert entries[..k + 1] == entries[..k] + [entries[k]];
      ItemLinesAppend(entries[..k], entries[k]);
      out := out + [ItemLine(entries[k])];
    }
    assert entries[..|entries|] == entries;
  }

  lemma ReplacedHead(lines: seq<string>, i: nat, head: string)
    requires i < |lines|
    ensures lines[i := head][..i + 1] == lines[..i] + [head]
    ensures lines[i := head][i + 1..] == lines[i + 1..]
  {
  }

  /** The editing loop both `_ensure_contract_*` functions run on their own key. */
  method InsertEntries(lines: seq<string>, key: string, entries: seq<string>) returns (out: seq<string>)
    ensures out == EditLines(lines, key, entries)
  {
    hide Strip, IsListLine, ItemLines;
    out := lines;
    var index := 0;
    while index < |lines|
      invariant index <= |lines| && out == lines
      invariant forall j :: 0 <= j < index ==> !IsExact(lines[j], key)
    {
      var stripped := Strip(lines[index]);
      if stripped == key + ": []" {
        assert FirstExact(lines, key) == index;
        out := InsertAt(lines[index := key + ":"], index + 1, entries);
        ReplacedHead(lines, index, key + ":");
        return;
      }
      if stripped == key + ":" {
        assert FirstExact(lines, key) == index;
        var insertAt := index + 1;
        while insertAt < |lines| && IsListLine(lines[insertAt])
          invariant index < insertAt <= |lines|
          invariant SkipList(lines, index + 1) == SkipList(lines, insertAt)
        {
          insertAt := insertAt + 1;
        }
        assert insertAt == SkipList(lines, insertAt);
        out := InsertAt(lines, insertAt, entries);
        return;
      }
      index := index + 1;
    }
    if out != [] && Strip(out[|out| - 1]) != "" {
      out := out + [""];
    }
    out := out + [key + ":"];
    out := AppendItems(out, entries);
    assert FirstExact(lines, key) == |lines|;
  }

  // ---------------------------------------------------------------- which lines set a key

  predicate SetsKey(line: string, key: string) {
    var kind := Classify(line);
    (kind.ListHead? || kind.Entry?) && kind.key == key
  }

  function Mark(line: string, key: string): seq<bool> {
    if SetsKey(line, key) then [IsExact(line, key)] else []
  }

  /** One flag for each line that sets `key`, in order: true when it has the exact form. */
  function Marks(lines: seq<string>, key: string): seq<bool> {
    if lines == [] then [] else Mark(lines[0], key) + Marks(lines[1..], key)
  }

  lemma {:induction false} MarksAppend(a: seq<string>, b: seq<string>, key: string)
    ensures Marks(a + b, key) == Marks(a, key) + Marks(b, key)
  {
    hide Mark;
    if a == [] {
      assert a + b == b;
    } else {
      MarksAppend(a[1..], b, key);
      assert (a + b)[0] == a[0] && (a + b)[1..] == a[1..] + b;
      Associative(Mark(a[0], key), Marks(a[1..], key), Marks(b, key));
    }
  }

  lemma {:induction false} MarksNone(lines: seq<string>, key: string)
    requires forall i :: 0 <= i < |lines| ==> !SetsKey(lines[i], key)
    ensures Marks(lines, key) == []
  {
    if lines != [] {
      MarksNone(lines[1..], key);
    }
  }

  lemma {:induction false} MarksInexact(lines: seq<string>, key: string)
    requires forall i :: 0 <= i < |lines| ==> !IsExact(lines[i], key)
    ensures true !in Marks(lines, key)
  {
    if lines != [] {
      MarksInexact(lines[1..], key);
    }
  }

  /**
   When an edit is safe: the line the editor will find is the only exact one and the last
   that sets the key; or it will find none and the parsed list is empty.
   */
  predicate EditSafe(lines: seq<string>, key: string) {
    var m := Marks(lines, key);
    if true in m then m[|m| - 1] && true !in m[..|m| - 1]
    else ParseLines(lines).Ok? && AsList(ParseLines(lines).value, key) == []
  }

  lemma ExactNonEmpty(line: string, key: string)
    requires IsExact(line, key)
    ensures line != ""
  {
    assert (key + ":")[|key|] == ':' == (key + ": []")[|key|];
  }

  lemma IndentedKeyIsNested(line: string, key: string)
    requires PlainKey(key) && IsExact(line, key) && line != "" && line[0] == ' '
    ensures Classify(line) == Nested
  {
    var body := Strip(line);
    assert body[0] == key[0];
  }

  lemma ExactIsHead(line: string, key: string)
    requires PlainKey(key) && IsExact(line, key) && line != "" && line[0] != ' '
    ensures Classify(line) == ListHead(key)
  {
    var body := Strip(line);
    ExactBodyIsHead(body, key);
    assert line[0] != BOM by {
      var i, j := StripWindow(line);
      assert body[0] == key[0];
      assert i == 0 ==> line[0] == body[0];
    }
    SameStripSameKind(line, body);
  }

  lemma ExactBodyIsHead(body: string, key: string)
    requires PlainKey(key) && (body == key + ":" || body == key + ": []")
    ensures Classify(body) == ListHead(key) && Strip(body) == body && body[0] == key[0]
  {
    hide Classify, Strip, LStripBom;
    if body == key + ":" {
      PrintedHead(key);
    } else {
      assert body == key + ":" + " []";
      assert " []" == " " + "[]" + "";
      StripPadded(" ", "[]", "");
      ClassifyKeyLine(key, " []");
      StripTrimmed(body);
    }
  }

  lemma SameStripSameKind(line: string, body: string)
    requires Strip(line) == body == Strip(body) && line != "" && body != ""
    requires line[0] != BOM && body[0] != BOM && line[0] != ' ' && body[0] != ' '
    ensures Classify(line) == Classify(body)
  {
    hide Strip, ParseScalar, IndexOf;
    assert LStripBom(line) == line && LStripBom(body) == body;
  }

  lemma PrintedHead(key: string)
    requires PlainKey(key)
    ensures Classify(key + ":") == ListHead(key) && Strip(key + ":") == key + ":"
    ensures Classify("") == Ignored && Strip("") == ""
  {
    assert key + ":" == key + ":" + "";
    ClassifyKeyLine(key, "");
    StripTrimmed(key + ":");
  }

  // ---------------------------------------------------------------- entries survive as list items

  /** Texts the parser returns as they are when printed after `  - `. */
  predicate PlainEntry(e: string) {
    PrintableItem(e) && ParseScalar(e) == e
  }

  predicate PlainEntries(entries: seq<string>) {
    forall i :: 0 <= i < |entries| ==> PlainEntry(entries[i])
  }

  lemma {:induction false} PlainScalars(entries: seq<string>)
    requires PlainEntries(entries)
    ensures ScalarsOf(entries) == entries && forall i :: 0 <= i < |entries| ==> PrintableItem(entries[i])
  {
    hide ParseScalar, PrintableItem;
    if entries != [] {
      PlainScalars(entries[1..]);
      assert PlainEntry(entries[0]);
      assert forall i :: 0 < i < |entries| ==> entries[i] == entries[1..][i - 1];
    }
  }

  lemma RunItems(st: State, entries: seq<string>)
    requires PlainEntries(entries) && st.cur != "" && st.Valid()
    ensures Run(st, ItemLines(entries)) ==
            Ok(st.(data := st.data[st.cur := Items(ItemsOf(st.data, st.cur) + entries)]))
  {
    PlainScalars(entries);
    hide Run, ItemLines, ScalarsOf, PrintableItem;
    RunItemLines(st, entries);
  }

  lemma PlainItemLine(e: string)
    requires PlainEntry(e)
    ensures Classify(ItemLine(e)) == Item(e)
  {
    ClassifyItemLine(e);
  }

  // ---------------------------------------------------------------- two runs side by side

  /** `t` is `s` with `extra` inserted at position `n` of the list under `key`. */
  ghost predicate Ahead(s: State, t: State, key: string, n: nat, extra: seq<string>) {
    && s.cur == t.cur
    && key in s.data && s.data[key].Items? && n <= |s.data[key].items|
    && t.data == s.data[key := Items(s.data[key].items[..n] + extra + s.data[key].items[n..])]
  }

  lemma AheadStep(s: State, t: State, key: string, n: nat, extra: seq<string>, line: string)
    requires Ahead(s, t, key, n, extra) && !SetsKey(line, key)
    ensures Apply(s, Classify(line)).Err? ==> Apply(t, Classify(line)) == Apply(s, Classify(line))
    ensures Apply(s, Classify(line)).Ok? ==> Apply(t, Classify(line)).Ok?
    ensures Apply(s, Classify(line)).Ok? ==>
              Ahead(Apply(s, Classify(line)).value, Apply(t, Classify(line)).value, key, n, extra)
  {
    hide Classify;
    var kind := Classify(line);
    if kind.Item? && s.cur == key != "" {
      var l := s.data[key].items;
      assert (l + [kind.item])[..n] + extra + (l + [kind.item])[n..]
        == (l[..n] + extra + l[n..]) + [kind.item];
    }
  }

  /** Lines that do not set the key again keep the insertion. */
  lemma {:induction false} AheadRun(s: State, t: State, key: string, n: nat, extra: seq<string>, lines: seq<string>)
    requires Ahead(s, t, key, n, extra) && Marks(lines, key) == [] && Run(s, lines).Ok?
    ensures Run(t, lines).Ok? && Ahead(Run(s, lines).value, Run(t, lines).value, key, n, extra)
    decreases |lines|
  {
    if lines != [] {
      AheadStep(s, t, key, n, extra, lines[0]);
      AheadRun(Apply(s, Classify(lines[0])).value, Apply(t, Classify(lines[0])).value, key, n, extra, lines[1..]);
    }
  }

  /** A later line that sets the key again loses the insertion. */
  lemma {:induction false} AheadLost(s: State, t: State, key: string, n: nat, extra: seq<string>, lines: seq<string>)
    requires Ahead(s, t, key, n, extra) && Marks(lines, key) != []
    ensures Run(t, lines) == Run(s, lines)
    decreases |lines|
  {
    hide Classify, IsExact;
    var kind := Classify(lines[0]);
    if SetsKey(lines[0], key) {
      assert Apply(s, kind).value == Apply(t, kind).value;
    } else {
      AheadStep(s, t, key, n, extra, lines[0]);
      if Apply(s, kind).Ok? {
        AheadLost(Apply(s, kind).value, Apply(t, kind).value, key, n, extra, lines[1..]);
      }
    }
  }

  /** Item and blank lines leave the same list open. */
  lemma {:induction false} ListLinesKeepOpen(st: State, lines: seq<string>)
    requires st.Valid() && st.cur != "" && Run(st, lines).Ok?
    requires forall i :: 0 <= i < |lines| ==> IsListLine(lines[i])
    ensures Run(st, lines).value.cur == st.cur
    decreases |lines|
  {
    if lines != [] {
      ListLineKind(lines[0]);
      ListLinesKeepOpen(Apply(st, Classify(lines[0])).value, lines[1..]);
    }
  }

  lemma ListLineKind(line: string)
    requires IsListLine(line)
    ensures Classify(line).Ignored? || Classify(line).Item? || Classify(line).Nested?
  {
    if Strip(line) == "" {
      var i, j := StripWindow(line);
      assert LStripBom(line) == line;
    } else {
      assert line[0] == ' ';
    }
  }

  // ---------------------------------------------------------------- the law of one edit

  /** `now` holds what `old` held, with `entries` inserted somewhere in the list under `key`. */
  ghost predicate Adds(old_: map<string, Value>, now: map<string, Value>, key: string, entries: seq<string>) {
    && now.Keys == old_.Keys + {key}
    && (forall k :: k in old_ && k != key ==> now[k] == old_[k])
    && now[key].Items?
    && exists n :: 0 <= n <= |AsList(old_, key)| && InsertedAt(AsList(old_, key), now[key].items, entries, n)
  }

  predicate InsertedAt(l: seq<string>, r: seq<string>, entries: seq<string>, n: nat)
    requires n <= |l|
  {
    r == l[..n] + entries + l[n..]
  }

  lemma AppendParses(lines: seq<string>, key: string, entries: seq<string>)
    requires PlainKey(key) && PlainEntries(entries) && ParseLines(lines).Ok?
    ensures ParseLines(AppendBlock(lines, key, entries)) == Ok(ParseLines(lines).value[key := Items(entries)])
  {
    hide Classify, ParseScalar, Trimmed, Strip;
    var gap := if lines != [] && Strip(lines[|lines| - 1]) != "" then [""] else [];
    var st := Run(START, lines).value;
    RunAppend(START, lines, gap);
    PrintedHead(key);
    RunOne(st, "");
    RunAppend(START, lines + gap, [key + ":"]);
    RunOne(st, key + ":");
    RunAppend(START, lines + gap + [key + ":"], ItemLines(entries));
    var open_ := State(st.data[key := Items([])], key);
    RunItems(open_, entries);
    assert [] + entries == entries;
    assert open_.data[key := Items(entries)] == st.data[key := Items(entries)];
  }

  /** A list block in the middle of a file: parsing goes through the state it leaves open. */
  lemma RunBlock(before: seq<string>, head: string, key: string, items: seq<string>, tail: seq<string>)
      returns (s: State)
    requires Run(START, before + [head] + items + tail).Ok? && Classify(head) == ListHead(key) && key != ""
    requires forall i :: 0 <= i < |items| ==> IsListLine(items[i])
    ensures s.Valid() && s.cur == key
    ensures Run(START, before + [head] + items) == Ok(s)
  {
    hide Classify, IsListLine;
    RunAppend(START, before + [head] + items, tail);
    RunAppend(START, before + [head], items);
    RunAppend(START, before, [head]);
    var s0 := Run(START, before).value;
    RunOne(s0, head);
    var s1 := State(s0.data[key := Items([])], key);
    ListLinesKeepOpen(s1, items);
    OpenListExists(s1, items);
    s := Run(s1, items).value;
  }

  lemma RunSameHead(before: seq<string>, head: string, newHead: string, items: seq<string>)
    requires Classify(head) == Classify(newHead)
    ensures Run(START, before + [newHead] + items) == Run(START, before + [head] + items)
  {
    hide Classify;
    RunAppend(START, before + [head], items);
    RunAppend(START, before + [newHead], items);
    RunAppend(START, before, [head]);
    RunAppend(START, before, [newHead]);
    if Run(START, before).Ok? {
      RunOne(Run(START, before).value, head);
      RunOne(Run(START, before).value, newHead);
    }
  }

  lemma CutAround(lines: seq<string>, i: nat, p: nat)
    requires i < p <= |lines|
    ensures lines == lines[..i] + [lines[i]] + lines[i + 1..p] + lines[p..]
    ensures lines[..p] == lines[..i] + [lines[i]] + lines[i + 1..p]
    ensures lines == lines[..i] + lines[i..] && lines[i..] != [] && lines[i..][0] == lines[i]
  {
  }

  lemma FoundHead(lines: seq<string>, key: string)
    requires PlainKey(key) && ParseLines(lines).Ok? && FirstExact(lines, key) < |lines|
    ensures Classify(lines[FirstExact(lines, key)]) == ListHead(key)
  {
    hide Classify, Strip, PlainKey, IsExact, FirstExact;
    var i := FirstExact(lines, key);
    var head := lines[i];
    ExactNonEmpty(head, key);
    CutAround(lines, i, i + 1);
    if head[0] == ' ' {
      IndentedKeyIsNested(head, key);
      RunAppend(START, lines[..i], lines[i..]);
    }
    ExactIsHead(head, key);
  }

  /** The four pieces of a file the editor found `key` in: before, key line, list lines, rest. */
  lemma FoundPieces(lines: seq<string>, key: string, entries: seq<string>)
      returns (before: seq<string>, head: string, newHead: string, items: seq<string>, after: seq<string>)
    requires PlainKey(key) && ParseLines(lines).Ok? && FirstExact(lines, key) < |lines|
    ensures before == lines[..FirstExact(lines, key)] && lines == before + [head] + items + after
    ensures EditLines(lines, key, entries) == before + [newHead] + items + ItemLines(entries) + after
    ensures Classify(head) == Classify(newHead) == ListHead(key) && IsExact(head, key)
    ensures forall i :: 0 <= i < |items| ==> IsListLine(items[i])
  {
    hide Classify, IsListLine, Strip, ParseLines, PlainKey, FirstExact, ItemLines;
    FoundHead(lines, key);
    PrintedHead(key);
    var i := FirstExact(lines, key);
    before, head := lines[..i], lines[i];
    if Strip(head) == key + ": []" {
      newHead, items, after := key + ":", [], lines[i + 1..];
    } else {
      var p := SkipList(lines, i + 1);
      newHead, items, after := head, lines[i + 1..p], lines[p..];
      CutAround(lines, i, p);
      forall j | 0 <= j < |items| ensures IsListLine(items[j]) {
        assert items[j] == lines[i + 1 + j];
      }
    }
  }

  /** What an edit at a found key line does to the parse. */
  lemma FoundParses(lines: seq<string>, key: string, entries: seq<string>)
      returns (after: seq<string>, s: State, t: State, n: nat)
    requires PlainKey(key) && PlainEntries(entries) && ParseLines(lines).Ok?
    requires FirstExact(lines, key) < |lines|
    ensures Run(START, lines) == Run(s, after)
    ensures Run(START, EditLines(lines, key, entries)) == Run(t, after)
    ensures Ahead(s, t, key, n, entries)
    ensures Marks(lines, key) == Marks(lines[..FirstExact(lines, key)], key) + [true] + Marks(after, key)
  {
    hide Classify, IsListLine, Strip, EditLines, Marks, PlainEntry;
    var before, head, newHead, items, rest := FoundPieces(lines, key, entries);
    after := rest;
    s := RunBlock(before, head, key, items, after);
    RunAppend(START, before + [head] + items, after);
    RunSameHead(before, head, newHead, items);
    RunItems(s, entries);
    RunAppend(START, before + [newHead] + items, ItemLines(entries));
    RunAppend(START, before + [newHead] + items + ItemLines(entries), after);
    var l := s.data[key].items;
    t, n := s.(data := s.data[key := Items(l + entries)]), |l|;
    assert l[..n] + entries + l[n..] == l + entries;
    BlockMarks(before, head, items, after, key);
  }

  lemma ListLinesSetNothing(items: seq<string>, key: string)
    requires forall i :: 0 <= i < |items| ==> IsListLine(items[i])
    ensures Marks(items, key) == []
  {
    hide IsListLine, Classify;
    forall i | 0 <= i < |items| ensures !SetsKey(items[i], key) { ListLineKind(items[i]); }
    MarksNone(items, key);
  }

  lemma MarksOfPieces(before: seq<string>, head: string, items: seq<string>, after: seq<string>, key: string)
    ensures Marks(before + [head] + items + after, key)
         == Marks(before, key) + Mark(head, key) + Marks(items, key) + Marks(after, key)
  {
    MarkOne(head, key);
    hide *;
    MarksAppend(before + [head] + items, after, key);
    MarksAppend(before + [head], items, key);
    MarksAppend(before, [head], key);
  }

  lemma MarkOne(head: string, key: string)
    ensures Marks([head], key) == Mark(head, key)
  {
    hide Mark;
    assert [head][1..] == [];
  }

  lemma BlockMarks(before: seq<string>, head: string, items: seq<string>, after: seq<string>, key: string)
    requires Classify(head) == ListHead(key) && IsExact(head, key)
    requires forall i :: 0 <= i < |items| ==> IsListLine(items[i])
    ensures Marks(before + [head] + items + after, key) == Marks(before, key) + [true] + Marks(after, key)
  {
    hide Marks, IsListLine, Classify, IsExact;
    MarksOfPieces(before, head, items, after, key);
    ListLinesSetNothing(items, key);
  }

  /**
   An edit always yields a file that parses, and what the parser sees changes by exactly
   the inserted entries if and only if the edit was safe.
   */
  lemma EditLaw(lines: seq<string>, key: string, entries: seq<string>)
    requires PlainKey(key) && PlainEntries(entries) && entries != [] && ParseLines(lines).Ok?
    ensures ParseLines(EditLines(lines, key, entries)).Ok?
    ensures EditSafe(lines, key) <==>
            Adds(ParseLines(lines).value, ParseLines(EditLines(lines, key, entries)).value, key, entries)
  {
    MarksInexact(lines[..FirstExact(lines, key)], key);
    if FirstExact(lines, key) == |lines| {
      assert lines[..|lines|] == lines;
      EditLawAppended(lines, key, entries);
    } else {
      EditLawFound(lines, key, entries);
    }
  }

  lemma EditLawAppended(lines: seq<string>, key: string, entries: seq<string>)
    requires PlainKey(key) && PlainEntries(entries) && entries != [] && ParseLines(lines).Ok?
    requires FirstExact(lines, key) == |lines| && true !in Marks(lines, key)
    ensures ParseLines(EditLines(lines, key, entries)).Ok?
    ensures EditSafe(lines, key) <==>
            Adds(ParseLines(lines).value, ParseLines(EditLines(lines, key, entries)).value, key, entries)
  {
    hide Classify, PlainEntries, PlainKey, Marks, Run, AppendBlock, FirstExact;
    AppendParses(lines, key, entries);
    var l := AsList(ParseLines(lines).value, key);
    if l == [] {
      assert InsertedAt(l, entries, entries, 0);
    }
  }

  lemma EditLawFound(lines: seq<string>, key: string, entries: seq<string>)
    requires PlainKey(key) && PlainEntries(entries) && entries != [] && ParseLines(lines).Ok?
    requires FirstExact(lines, key) < |lines| && true !in Marks(lines[..FirstExact(lines, key)], key)
    ensures ParseLines(EditLines(lines, key, entries)).Ok?
    ensures EditSafe(lines, key) <==>
            Adds(ParseLines(lines).value, ParseLines(EditLines(lines, key, entries)).value, key, entries)
  {
    hide Classify, PlainEntries, PlainKey, Marks, Run, EditLines, FirstExact;
    var after, s, t, n := FoundParses(lines, key, entries);
    var m, before := Marks(lines, key), Marks(lines[..FirstExact(lines, key)], key);
    assert m[|before|];
    if Marks(after, key) == [] {
      AheadRun(s, t, key, n, entries, after);
      var now := ParseLines(EditLines(lines, key, entries)).value;
      assert InsertedAt(AsList(ParseLines(lines).value, key), now[key].items, entries, n);
      assert m[..|m| - 1] == before;
    } else {
      AheadLost(s, t, key, n, entries, after);
      assert m[..|m| - 1][|before|];
    }
  }

  // ---------------------------------------------------------------- the two edits on a file

  function Missing(required: seq<string>, present: seq<string>): seq<string> {
    if required == [] then []
    else (if required[0] in present then [] else [required[0]]) + Missing(required[1..], present)
  }

  predicate References(data: map<string, Value>) {
    AGENTS_BASE in AsList(data, DOCUMENTS_KEY) || AGENTS_BASE in AsList(data, OVERRIDE_KEY)
  }

  function MissingDocuments(data: map<string, Value>): seq<string> {
    Missing(REQUIRED_DOCUMENTS, AsList(data, DOCUMENTS_KEY))
  }

  function EditText(text: string, key: string, entries: seq<string>): string {
    Unlines(EditLines(SplitLines(text), key, entries))
  }

  /** File text after `_ensure_contract_agents_base_reference`. */
  function EnsureAgentsBase(text: string): Result<string> {
    var parsed := Parse(text);
    if parsed.Err? then Err(parsed.error)
    else if References(parsed.value) then Ok(text)
    else Ok(EditText(text, OVERRIDE_KEY, [AGENTS_BASE]))
  }

  /** File text after `_ensure_contract_governance_docs`. */
  function EnsureDocuments(text: string): Result<string> {
    var parsed := Parse(text);
    if parsed.Err? then Err(parsed.error)
    else if MissingDocuments(parsed.value) == [] then Ok(text)
    else Ok(EditText(text, DOCUMENTS_KEY, MissingDocuments(parsed.value)))
  }

  /** File names: characters of keys and the slash. */
  predicate IsFileName(e: string) {
    e != "" && forall i :: 0 <= i < |e| ==> IsKeyChar(e[i]) || e[i] == '/'
  }

  lemma FileNameIsPlain(e: string)
    requires IsFileName(e)
    ensures PlainEntry(e)
  {
    assert IsKeyChar(e[0]) || e[0] == '/';
    assert IsKeyChar(e[|e| - 1]) || e[|e| - 1] == '/';
    StripTrimmed(e);
  }

  lemma FileNames()
    ensures IsFileName(AGENTS_BASE) && IsFileName("PLAN.md")
    ensures IsFileName("governance/TESTING.md") && IsFileName("governance/ARCHITECTURE.md")
  {
  }

  lemma PlainKeys()
    ensures PlainKey(OVERRIDE_KEY) && PlainKey(DOCUMENTS_KEY)
  {
  }

  lemma PlainNames()
    ensures PlainKey(OVERRIDE_KEY) && PlainKey(DOCUMENTS_KEY)
    ensures PlainEntries(REQUIRED_DOCUMENTS) && PlainEntries([AGENTS_BASE])
  {
    PlainKeys();
    FileNames();
    hide IsFileName, PlainEntry, PlainKey;
    FileNameIsPlain(AGENTS_BASE);
    forall i | 0 <= i < |REQUIRED_DOCUMENTS| ensures PlainEntry(REQUIRED_DOCUMENTS[i]) {
      FileNameIsPlain(REQUIRED_DOCUMENTS[i]);
    }
  }

  lemma {:induction false} MissingMembers(required: seq<string>, present: seq<string>)
    ensures forall e :: e in Missing(required, present) <==> e in required && e !in present
    ensures (forall e :: e in required ==> e in present) ==> Missing(required, present) == []
  {
    if required != [] {
      MissingMembers(required[1..], present);
      assert required == [required[0]] + required[1..];
    }
  }

  lemma MissingPlain(data: map<string, Value>)
    ensures PlainEntries(MissingDocuments(data))
  {
    PlainNames();
    MissingMembers(REQUIRED_DOCUMENTS, AsList(data, DOCUMENTS_KEY));
    var m := MissingDocuments(data);
    forall i | 0 <= i < |m| ensures PlainEntry(m[i]) {
      assert m[i] in m;
    }
  }

  lemma {:induction false} ItemLinesNeutral(entries: seq<string>, key: string)
    requires PlainEntries(entries)
    ensures AllBreakFree(ItemLines(entries)) && Marks(ItemLines(entries), key) == []
  {
    hide Classify, PlainEntry, BreakFree, ItemLine, IsExact;
    if entries != [] {
      PlainItemLine(entries[0]);
      ItemLineBreakFree(entries[0]);
      ItemLinesNeutral(entries[1..], key);
    }
  }

  lemma ItemLineBreakFree(e: string)
    requires PlainEntry(e)
    ensures BreakFree(ItemLine(e))
  {
  }

  lemma BreakFreeJoin(a: seq<string>, b: seq<string>, c: seq<string>, d: seq<string>)
    requires AllBreakFree(a) && AllBreakFree(b) && AllBreakFree(c) && AllBreakFree(d)
    ensures AllBreakFree(a + b + c + d)
  {
    hide BreakFree;
  }

  lemma EditBreakFree(lines: seq<string>, key: string, entries: seq<string>)
    requires AllBreakFree(lines) && PlainKey(key) && PlainEntries(entries)
    ensures AllBreakFree(EditLines(lines, key, entries))
  {
    assert BreakFree(key + ":") && BreakFree("");
    hide Strip, IsListLine, PlainEntries, ItemLines, IsExact, BreakFree, PlainKey;
    ItemLinesNeutral(entries, key);
    var i := FirstExact(lines, key);
    if i == |lines| {
      var gap := if lines != [] && Strip(lines[|lines| - 1]) != "" then [""] else [];
      BreakFreeJoin(lines, gap, [key + ":"], ItemLines(entries));
    } else if Strip(lines[i]) == key + ": []" {
      BreakFreeJoin(lines[..i], [key + ":"], ItemLines(entries), lines[i + 1..]);
    } else {
      var p := SkipList(lines, i + 1);
      BreakFreeJoin(lines[..p], ItemLines(entries), lines[p..], []);
      assert EditLines(lines, key, entries) == lines[..p] + ItemLines(entries) + lines[p..] + [];
    }
  }

  /** Splitting the edited file gives the edited lines. */
  lemma EditTextLines(text: string, key: string, entries: seq<string>)
    requires PlainKey(key) && PlainEntries(entries)
    ensures SplitLines(EditText(text, key, entries)) == EditLines(SplitLines(text), key, entries)
  {
    hide PlainEntry, EditLines;
    SplitLinesBreakFree(text);
    EditBreakFree(SplitLines(text), key, entries);
    SplitUnlines(EditLines(SplitLines(text), key, entries));
  }

  /** An edit of one key leaves every line that sets another key, in order. */
  lemma EditKeepsMarks(lines: seq<string>, key: string, entries: seq<string>, other: string)
    requires PlainKey(key) && PlainEntries(entries) && ParseLines(lines).Ok? && other != key
    ensures Marks(EditLines(lines, key, entries), other) == Marks(lines, other)
  {
    hide Classify, PlainEntries, Strip, IsExact, ItemLines, ParseLines, Marks, IsListLine, PlainKey, FirstExact;
    ItemLinesNeutral(entries, other);
    PrintedHead(key);
    if FirstExact(lines, key) == |lines| {
      AppendKeepsMarks(lines, key, entries, other);
    } else {
      var before, head, newHead, items, after := FoundPieces(lines, key, entries);
      hide EditLines;
      ListLinesSetNothing(items, other);
      BlockNeutral(before, head, items, after, other);
      var block := items + ItemLines(entries);
      MarksAppend(items, ItemLines(entries), other);
      BlockNeutral(before, newHead, block, after, other);
      assert before + [newHead] + items + ItemLines(entries) + after == before + [newHead] + block + after;
    }
  }

  lemma BlockNeutral(before: seq<string>, head: string, items: seq<string>, after: seq<string>, key: string)
    requires !SetsKey(head, key) && Marks(items, key) == []
    ensures Marks(before + [head] + items + after, key) == Marks(before, key) + Marks(after, key)
  {
    hide Marks, SetsKey;
    MarksOfPieces(before, head, items, after, key);
  }

  lemma AppendKeepsMarks(lines: seq<string>, key: string, entries: seq<string>, other: string)
    requires Classify(key + ":") == ListHead(key) && Classify("") == Ignored && other != key
    requires Marks(ItemLines(entries), other) == []
    ensures Marks(AppendBlock(lines, key, entries), other) == Marks(lines, other)
  {
    hide Classify, Strip, ItemLines, IsExact, Marks;
    var gap := if lines != [] && Strip(lines[|lines| - 1]) != "" then [""] else [];
    MarksNone(gap, other);
    BlockNeutral(lines + gap, key + ":", ItemLines(entries), [], other);
    MarksNone([], other);
    MarksAppend(lines, gap, other);
    assert AppendBlock(lines, key, entries) == lines + gap + [key + ":"] + ItemLines(entries) + [];
  }

  /** The law of one edit for a file: safe edits add exactly the entries, unsafe ones never do. */
  lemma EditTextLaw(text: string, key: string, entries: seq<string>)
    requires PlainKey(key) && PlainEntries(entries) && entries != [] && Parse(text).Ok?
    ensures Parse(EditText(text, key, entries)).Ok?
    ensures EditSafe(SplitLines(text), key) <==>
            Adds(Parse(text).value, Parse(EditText(text, key, entries)).value, key, entries)
  {
    hide PlainEntry, EditLines, EditSafe;
    EditTextLines(text, key, entries);
    EditLaw(SplitLines(text), key, entries);
  }

  lemma AddedMembers(was: map<string, Value>, now: map<string, Value>, key: string, entries: seq<string>, e: string)
    requires Adds(was, now, key, entries)
    ensures e in AsList(now, key) <==> e in AsList(was, key) || e in entries
  {
    var l := AsList(was, key);
    var n :| 0 <= n <= |l| && InsertedAt(l, now[key].items, entries, n);
    assert l == l[..n] + l[n..];
  }

  /** What one step of adoption guarantees for a file whose edit of that key is safe. */
  lemma AgentsBaseStep(text: string)
    requires Parse(text).Ok?
    requires References(Parse(text).value) || EditSafe(SplitLines(text), OVERRIDE_KEY)
    ensures EnsureAgentsBase(text).Ok? && Parse(EnsureAgentsBase(text).value).Ok?
    ensures References(Parse(EnsureAgentsBase(text).value).value)
    ensures AsList(Parse(EnsureAgentsBase(text).value).value, DOCUMENTS_KEY) == AsList(Parse(text).value, DOCUMENTS_KEY)
    ensures Marks(SplitLines(EnsureAgentsBase(text).value), DOCUMENTS_KEY) == Marks(SplitLines(text), DOCUMENTS_KEY)
    ensures EnsureAgentsBase(text).value == text
            || Adds(Parse(text).value, Parse(EnsureAgentsBase(text).value).value, OVERRIDE_KEY, [AGENTS_BASE])
  {
    hide PlainEntry, EditLines, EditSafe, PlainKey, Marks, Adds;
    PlainNames();
    if !References(Parse(text).value) {
      EditTextLaw(text, OVERRIDE_KEY, [AGENTS_BASE]);
      EditTextLines(text, OVERRIDE_KEY, [AGENTS_BASE]);
      EditKeepsMarks(SplitLines(text), OVERRIDE_KEY, [AGENTS_BASE], DOCUMENTS_KEY);
      var was, now := Parse(text).value, Parse(EditText(text, OVERRIDE_KEY, [AGENTS_BASE])).value;
      AddedMembers(was, now, OVERRIDE_KEY, [AGENTS_BASE], AGENTS_BASE);
      AddsElsewhere(was, now, OVERRIDE_KEY, [AGENTS_BASE], DOCUMENTS_KEY);
    }
  }

  lemma AddsElsewhere(was: map<string, Value>, now: map<string, Value>, key: string, entries: seq<string>, k: string)
    requires Adds(was, now, key, entries) && k != key
    ensures k in now <==> k in was
    ensures k in was ==> now[k] == was[k]
    ensures AsList(now, k) == AsList(was, k)
  {
    assert k in now.Keys <==> k in was.Keys + {key};
  }

  lemma DocumentsStep(text: string)
    requires Parse(text).Ok?
    requires MissingDocuments(Parse(text).value) == [] || EditSafe(SplitLines(text), DOCUMENTS_KEY)
    ensures EnsureDocuments(text).Ok? && Parse(EnsureDocuments(text).value).Ok?
    ensures MissingDocuments(Parse(EnsureDocuments(text).value).value) == []
    ensures forall e :: e in REQUIRED_DOCUMENTS ==> e in AsList(Parse(EnsureDocuments(text).value).value, DOCUMENTS_KEY)
    ensures EnsureDocuments(text).value == text
            || Adds(Parse(text).value, Parse(EnsureDocuments(text).value).value, DOCUMENTS_KEY,
                    MissingDocuments(Parse(text).value))
  {
    hide PlainEntry, EditLines, EditSafe, PlainKey, Adds, Missing;
    var was := Parse(text).value;
    var missing := MissingDocuments(was);
    MissingMembers(REQUIRED_DOCUMENTS, AsList(was, DOCUMENTS_KEY));
    if missing != [] {
      PlainNames();
      MissingPlain(was);
      EditTextLaw(text, DOCUMENTS_KEY, missing);
      var now := Parse(EditText(text, DOCUMENTS_KEY, missing)).value;
      forall e ensures e in AsList(now, DOCUMENTS_KEY) <==> e in AsList(was, DOCUMENTS_KEY) || e in missing {
        AddedMembers(was, now, DOCUMENTS_KEY, missing, e);
      }
      MissingMembers(REQUIRED_DOCUMENTS, AsList(now, DOCUMENTS_KEY));
    }
  }

  /** Both edits in the order of `adopt_existing`. */
  function Adopt(text: string): Result<string> {
    var first := EnsureAgentsBase(text);
    if first.Err? then first else EnsureDocuments(first.value)
  }

  /**
   Adopting a contract whose two edits are safe lists every required document and refers to
   AGENTS.base.md, touches no other entry, and adopting again changes nothing.
   */
  lemma AdoptionStable(text: string)
    requires Parse(text).Ok?
    requires References(Parse(text).value) || EditSafe(SplitLines(text), OVERRIDE_KEY)
    requires MissingDocuments(Parse(text).value) == [] || EditSafe(SplitLines(text), DOCUMENTS_KEY)
    ensures Adopt(text).Ok? && Parse(Adopt(text).value).Ok?
    ensures forall e :: e in REQUIRED_DOCUMENTS ==> e in AsList(Parse(Adopt(text).value).value, DOCUMENTS_KEY)
    ensures forall k :: k != OVERRIDE_KEY && k != DOCUMENTS_KEY ==>
              (k in Parse(Adopt(text).value).value <==> k in Parse(text).value)
    ensures forall k :: k in Parse(text).value && k != OVERRIDE_KEY && k != DOCUMENTS_KEY ==>
              Parse(Adopt(text).value).value[k] == Parse(text).value[k]
    ensures Adopt(Adopt(text).value) == Ok(Adopt(text).value)
  {
    hide PlainEntry, EditLines, Marks, Adds, Parse, MissingDocuments, EditText;
    AgentsBaseStep(text);
    var first := EnsureAgentsBase(text).value;
    assert MissingDocuments(Parse(first).value) == [] || EditSafe(SplitLines(first), DOCUMENTS_KEY) by {
      SafeTransfers(text, first);
    }
    DocumentsStep(first);
    var second := EnsureDocuments(first).value;
    forall k | k != OVERRIDE_KEY && k != DOCUMENTS_KEY
      ensures k in Parse(second).value <==> k in Parse(text).value
      ensures k in Parse(text).value ==> Parse(second).value[k] == Parse(text).value[k]
    {
      if first != text {
        AddsElsewhere(Parse(text).value, Parse(first).value, OVERRIDE_KEY, [AGENTS_BASE], k);
      }
      if second != first {
        AddsElsewhere(Parse(first).value, Parse(second).value, DOCUMENTS_KEY, MissingDocuments(Parse(first).value), k);
      }
    }
    assert AGENTS_BASE in REQUIRED_DOCUMENTS by { assert REQUIRED_DOCUMENTS[0] == AGENTS_BASE; }
    assert References(Parse(second).value);
  }

  lemma SafeTransfers(text: string, first: string)
    requires Parse(text).Ok? && Parse(first).Ok?
    requires MissingDocuments(Parse(text).value) == [] || EditSafe(SplitLines(text), DOCUMENTS_KEY)
    requires AsList(Parse(first).value, DOCUMENTS_KEY) == AsList(Parse(text).value, DOCUMENTS_KEY)
    requires Marks(SplitLines(first), DOCUMENTS_KEY) == Marks(SplitLines(text), DOCUMENTS_KEY)
    ensures MissingDocuments(Parse(first).value) == [] || EditSafe(SplitLines(first), DOCUMENTS_KEY)
  {
    hide Marks, Missing, Run;
  }

  /** Without a key line in any spelling, or with a single exact one, an edit is always safe. */
  lemma SingleExactIsSafe(lines: seq<string>, key: string)
    requires ParseLines(lines).Ok?
    requires Marks(lines, key) == [] || Marks(lines, key) == [true]
    ensures EditSafe(lines, key)
  {
    hide Marks;
    if Marks(lines, key) == [] {
      AbsentKey(START, lines, key);
    }
  }

  lemma {:induction false} AbsentKey(st: State, lines: seq<string>, key: string)
    requires Marks(lines, key) == [] && key !in st.data && st.Valid() && Run(st, lines).Ok?
    ensures key !in Run(st, lines).value.data
    decreases |lines|
  {
    if lines != [] {
      hide Classify, IsExact;
      AbsentKey(Apply(st, Classify(lines[0])).value, lines[1..], key);
    }
  }

  /** A scalar `documents:` entry is not safe: the new block replaces it, so its document is lost. */
  lemma ScalarDocumentIsLost(text: string)
    requires Parse(text).Ok? && DOCUMENTS_KEY in Parse(text).value && Parse(text).value[DOCUMENTS_KEY].Scalar?
    requires FirstExact(SplitLines(text), DOCUMENTS_KEY) == |SplitLines(text)|
    requires MissingDocuments(Parse(text).value) != []
    ensures EnsureDocuments(text).Ok? && Parse(EnsureDocuments(text).value).Ok?
    ensures Parse(text).value[DOCUMENTS_KEY].text !in AsList(Parse(EnsureDocuments(text).value).value, DOCUMENTS_KEY)
  {
    hide Run, PlainKey, PlainEntry, Missing, IsExact, AppendBlock;
    var was := Parse(text).value;
    PlainNames();
    MissingPlain(was);
    MissingMembers(REQUIRED_DOCUMENTS, AsList(was, DOCUMENTS_KEY));
    EditTextLines(text, DOCUMENTS_KEY, MissingDocuments(was));
    AppendParses(SplitLines(text), DOCUMENTS_KEY, MissingDocuments(was));
  }

  lemma ScalarLine(key: string)
    requires PlainKey(key)
    ensures Classify(key + ": x") == Entry(key, "x") && !IsExact(key + ": x", key) && BreakFree(" x")
  {
    var line := key + ": x";
    assert line == key + ":" + " x" && " x" == " " + "x" + "";
    ClassifyKeyLine(key, " x");
    StripPadded(" ", "x", "");
    assert line[0] == key[0] && line[|line| - 1] == 'x';
    StripTrimmed(line);
    assert (key + ": []")[|key| + 2] == '[' && line[|key| + 2] == 'x';
  }

  lemma OneScalarLine(line: string, key: string, v: string, entries: seq<string>)
    requires Classify(line) == Entry(key, v) && !IsExact(line, key) && PlainKey(key) && PlainEntries(entries)
    ensures ParseLines([line]) == Ok(map[key := Scalar(v)])
    ensures ParseLines(EditLines([line], key, entries)) == Ok(map[key := Items(entries)])
  {
    hide Classify, IsExact, PlainKey, PlainEntries, AppendBlock;
    RunOne(START, line);
    assert START.data[key := Scalar(v)] == map[key := Scalar(v)];
    AppendParses([line], key, entries);
    assert map[key := Scalar(v)][key := Items(entries)] == map[key := Items(entries)];
  }

  lemma AllMissing(data: map<string, Value>)
    requires data == map[DOCUMENTS_KEY := Scalar("x")]
    ensures MissingDocuments(data) == REQUIRED_DOCUMENTS
  {
    assert AsList(data, DOCUMENTS_KEY) == ["x"];
    FileNames();
    NothingPresent(REQUIRED_DOCUMENTS, "x");
  }

  lemma {:induction false} NothingPresent(required: seq<string>, other: string)
    requires other !in required
    ensures Missing(required, [other]) == required
  {
    if required != [] { NothingPresent(required[1..], other); }
  }

  /** A contract.yaml that lists its one document as a scalar: the edit replaces it. */
  lemma ScalarIsLostExample()
    ensures Parse("documents: x") == Ok(map[DOCUMENTS_KEY := Scalar("x")])
    ensures EnsureDocuments("documents: x").Ok?
    ensures Parse(EnsureDocuments("documents: x").value) == Ok(map[DOCUMENTS_KEY := Items(REQUIRED_DOCUMENTS)])
  {
    PlainNames();
    ScalarLine(DOCUMENTS_KEY);
    DocumentsLine();
    SplitOneLine("documents: x");
    AllMissing(map[DOCUMENTS_KEY := Scalar("x")]);
    hide ParseLines, EditLines, SplitLines, MissingDocuments, Classify, IsExact, PlainKey, PlainEntries, BreakFree;
    OneScalarLine("documents: x", DOCUMENTS_KEY, "x", REQUIRED_DOCUMENTS);
    EditTextLines("documents: x", DOCUMENTS_KEY, REQUIRED_DOCUMENTS);
  }

  lemma DocumentsLine()
    ensures DOCUMENTS_KEY + ": x" == "documents: x" && BreakFree("documents: x")
  {
  }

  // ---------------------------------------------------------------- the file

  /** An existing contract.yaml, rewritten in place by the two edits. */
  class ContractFile {
    var text: string

    constructor (text: string)
      ensures this.text == text
    {
      this.text := text;
    }

    /** Returns whether the file was (or, on a dry run, would be) modified. */
    method EnsureAgentsBaseReference(dryRun: bool) returns (changed: Result<bool>)
      modifies this
      ensures Parse(old(text)).Err? ==> changed == Err(Parse(old(text)).error) && text == old(text)
      ensures Parse(old(text)).Ok? ==> changed == Ok(!References(Parse(old(text)).value))
      ensures Parse(old(text)).Ok? ==> text == if dryRun then old(text) else EnsureAgentsBase(old(text)).value
    {
      var parsed := ParseContractYaml(text);
      if parsed.Err? {
        return Err(parsed.error);
      }
      if References(parsed.value) {
        return Ok(false);
      }
      var lines := InsertEntries(SplitLines(text), OVERRIDE_KEY, [AGENTS_BASE]);
      if !dryRun {
        text := Unlines(lines);
      }
      return Ok(true);
    }

    method EnsureGovernanceDocs(dryRun: bool) returns (changed: Result<bool>)
      modifies this
      ensures Parse(old(text)).Err? ==> changed == Err(Parse(old(text)).error) && text == old(text)
      ensures Parse(old(text)).Ok? ==> changed == Ok(MissingDocuments(Parse(old(text)).value) != [])
      ensures Parse(old(text)).Ok? ==> text == if dryRun then old(text) else EnsureDocuments(old(text)).value
    {
      var parsed := ParseContractYaml(text);
      if parsed.Err? {
        return Err(parsed.error);
      }
      var missing := MissingDocuments(parsed.value);
      if missing == [] {
        return Ok(false);
      }
      var lines := InsertEntries(SplitLines(text), DOCUMENTS_KEY, missing);
      if !dryRun {
        text := Unlines(lines);
      }
      return Ok(true);
    }
  }
}
