/**
 The governance contract as text: rendering (`contract_renderer.py`), wrapping a prompt
 (`governed_prompt.py`), and extraction and parsing (`contract_validator.py`). Main results:
 extraction finds the rendered block exactly when the prompt holds no fenced contract, and
 parsing it recovers every field, up to surrounding whitespace, exactly when no value spans
 lines.
 */
module ContractBlock {
  import opened Text

  const HEADER := "[Governance Contract]"
  const FENCE := "```"

  // ---------------------------------------------------------------- rendering

  datatype GovernanceContract = GovernanceContract(lang: string, level: string, scope: string, plan: string,
                                                   loaded: string, context: string, pressure: string)

  datatype Field = Field(key: string, value: string)

  function AsFields(c: GovernanceContract): seq<Field> {
    [Field("LANG", c.lang), Field("LEVEL", c.level), Field("SCOPE", c.scope), Field("PLAN", c.plan),
     Field("LOADED", c.loaded), Field("CONTEXT", c.context), Field("PRESSURE", c.pressure)]
  }

  predicate Complete(fields: seq<Field>) {
    forall i :: 0 <= i < |fields| ==> Strip(fields[i].value) != ""
  }

  function FieldLine(f: Field): string {
    f.key + " = " + f.value
  }

  function FieldLines(fields: seq<Field>): seq<string> {
    if fields == [] then [] else [FieldLine(fields[0])] + FieldLines(fields[1..])
  }

  function Join(lines: seq<string>): string {
    if lines == [] then "" else if |lines| == 1 then lines[0] else lines[0] + "\n" + Join(lines[1..])
  }

  /** None where a required field is blank and rendering raises. */
  function RenderBlock(fields: seq<Field>): Option<string> {
    if Complete(fields) then Some(Join([HEADER] + FieldLines(fields))) else None
  }

  function GovernedPrompt(fields: seq<Field>, prompt: string): Option<string> {
    var block := RenderBlock(fields);
    if block.None? then None else Some(block.value + "\n\n" + Strip(prompt) + "\n")
  }

  // ---------------------------------------------------------------- extraction

  /** Characters of a field name: capital letters and the underscore. */
  predicate IsNameChar(c: char) {
    'A' <= c <= 'Z' || c == '_'
  }

  function NameRun(s: string): (k: nat)
    ensures k <= |s| && (forall i :: 0 <= i < k ==> IsNameChar(s[i])) && (k < |s| ==> !IsNameChar(s[k]))
  {
    if s == "" || !IsNameChar(s[0]) then 0
    else
      var r := NameRun(s[1..]);
      assert forall i :: 0 < i < |s| ==> s[i] == s[1..][i - 1];
      1 + r
  }

  function SpaceRun(s: string): (k: nat)
    ensures k <= |s| && (forall i :: 0 <= i < k ==> IsSpace(s[i])) && (k < |s| ==> !IsSpace(s[k]))
  {
    if s == "" || !IsSpace(s[0]) then 0
    else
      var r := SpaceRun(s[1..]);
      assert forall i :: 0 < i < |s| ==> s[i] == s[1..][i - 1];
      1 + r
  }

  /** Length of a field at the start of `s`; the whitespace around the sign may span lines. */
  function FieldLength(s: string): (n: Option<nat>)
    ensures n.Some? ==> 0 < n.value <= |s|
  {
    var name := NameRun(s);
    var sign := name + SpaceRun(s[name..]);
    if name == 0 || sign == |s| || s[sign] != '=' then None
    else
      var value := sign + 1 + SpaceRun(s[sign + 1..]);
      var end := value + IndexOf(s[value..], '\n');
      Some(if end < |s| then end + 1 else end)
  }

  function FieldsLength(s: string): (n: nat)
    ensures n <= |s|
    decreases |s|
  {
    var first := FieldLength(s);
    if first.None? then 0 else first.value + FieldsLength(s[first.value..])
  }

  /** Length of a fenced contract at the start of `s`. */
  function FenceLength(s: string): (n: Option<nat>)
    ensures n.Some? ==> n.value <= |s|
  {
    if !(FENCE <= s) then None
    else
      var line := 3 + IndexOf(s[3..], '\n');
      if line == |s| || !(HEADER + "\n" <= s[line + 1..]) then None
      else
        var inside := line + 1 + |HEADER| + 1;
        var close := Find(s[inside..], FENCE);
        if close.None? then None else Some(inside + close.value + 3)
  }

  /** First occurrence of `sub`. */
  function Find(s: string, sub: string): (k: Option<nat>)
    ensures k.Some? ==> OccursAt(s, sub, k.value)
  {
    if sub <= s then Some(0)
    else if s == "" then None
    else
      var r := Find(s[1..], sub);
      assert r.Some? ==> s[r.value + 1..r.value + 1 + |sub|] == s[1..][r.value..r.value + |sub|];
      if r.None? then None else Some(1 + r.value)
  }

  /** The first fenced contract in the text. */
  function Fenced(s: string): Option<string> {
    var here := FenceLength(s);
    if here.Some? then Some(s[..here.value]) else if s == "" then None else Fenced(s[1..])
  }

  /** The first plain contract; one without fields hides all later ones. */
  function Plain(s: string): Option<string> {
    var k := Find(s, HEADER + "\n");
    if k.None? then None
    else
      var start := k.value + |HEADER| + 1;
      var n := FieldsLength(s[start..]);
      if Strip(s[start..start + n]) == "" then None else Some(s[k.value..start + n])
  }

  function ExtractBlock(text: string): Option<string> {
    var fenced := Fenced(text);
    if fenced.Some? then fenced else Plain(text)
  }

  // ---------------------------------------------------------------- parsing

  function LineField(line: string): Option<Field> {
    var stripped := Strip(line);
    var sign := IndexOf(line, '=');
    if sign == |line| || "[" <= stripped || "`" <= stripped || Strip(line[..sign]) == "" then None
    else Some(Field(Strip(line[..sign]), Strip(line[sign + 1..])))
  }

  function FieldsOf(lines: seq<string>): map<string, string> {
    if lines == [] then map[]
    else
      var before, f := FieldsOf(lines[..|lines| - 1]), LineField(lines[|lines| - 1]);
      if f.None? then before else before[f.value.key := f.value.value]
  }

  function ParsedFields(block: string): map<string, string> {
    FieldsOf(SplitLines(block))
  }

  method ParseContractFields(block: string) returns (fields: map<string, string>)
    ensures fields == ParsedFields(block)
  {
    hide Strip;
    fields := map[];
    var lines := SplitLines(block);
    for i := 0 to |lines|
      invariant fields == FieldsOf(lines[..i])
    {
      assert lines[..i + 1][..i] == lines[..i];
      var line := lines[i];
      var stripped := Strip(line);
      var sign := IndexOf(line, '=');
      if sign == |line| || "[" <= stripped || "`" <= stripped {
        continue;
      }
      var key := Strip(line[..sign]);
      if key != "" {
        fields := fields[key := Strip(line[sign + 1..])];
      }
    }
    assert lines[..|lines|] == lines;
  }

  // ---------------------------------------------------------------- one field

  predicate IsName(key: string) {
    key != "" && forall i :: 0 <= i < |key| ==> IsNameChar(key[i])
  }

  predicate LineFree(s: string) {
    forall i :: 0 <= i < |s| ==> s[i] != '\n'
  }

  lemma SignAhead(s: string, n: nat)
    requires 0 < n && n + 1 < |s| && s[n] == ' ' && s[n + 1] == '=' && forall k :: 0 <= k < n ==> IsNameChar(s[k])
    ensures NameRun(s) == n && SpaceRun(s[n..]) == 1
  {
    hide NameRun, SpaceRun;
    assert s[n..][0] == ' ' && s[n..][1] == '=';
  }

  lemma ValueEnds(s: string, from: nat, at: nat, i: nat, v: string)
    requires from <= at && at + |v| < |s| && s[at..at + |v|] == v && s[at + |v|] == '\n'
    requires i < |v| && !IsSpace(v[i]) && LineFree(v)
    requires forall k :: from <= k < at ==> s[k] == ' '
    ensures var value := from + SpaceRun(s[from..]); value + IndexOf(s[value..], '\n') == at + |v|
  {
    hide SpaceRun, IndexOf;
    var run := SpaceRun(s[from..]);
    var value := from + run;
    assert s[from..][at + i - from] == v[i];
    forall j | 0 <= j < at - from ensures IsSpace(s[from..][j]) {
      assert s[from + j] == ' ';
    }
    assert s[value..][at + |v| - value] == '\n';
    assert forall j :: 0 <= j < at + |v| - value ==> s[value..][j] == v[value - at + j];
  }

  /** `s` starts with a rendered field and a line feed. */
  predicate FieldFirst(s: string, key: string, value: string) {
    var n := |key|;
    && n + 3 + |value| < |s| && s[..n] == key && s[n] == ' ' && s[n + 1] == '=' && s[n + 2] == ' '
    && s[n + 3..n + 3 + |value|] == value && s[n + 3 + |value|] == '\n'
  }

  lemma FieldLayout(f: Field, rest: string)
    ensures FieldFirst(FieldLine(f) + "\n" + rest, f.key, f.value) && |FieldLine(f)| == |f.key| + 3 + |f.value|
  {
  }

  lemma MeasuredLength(s: string, n: nat, end: nat)
    requires 0 < n && n + 1 < |s| && NameRun(s) == n && SpaceRun(s[n..]) == 1 && s[n + 1] == '='
    requires var value := n + 2 + SpaceRun(s[n + 2..]); value + IndexOf(s[value..], '\n') == end < |s|
    ensures FieldLength(s) == Some(end + 1)
  {
    hide NameRun, SpaceRun, IndexOf;
  }

  lemma NameAhead(s: string, key: string)
    requires |key| <= |s| && s[..|key|] == key && IsName(key)
    ensures forall k :: 0 <= k < |key| ==> IsNameChar(s[k])
  {
    hide IsNameChar;
    assert forall k :: 0 <= k < |key| ==> s[k] == key[k];
  }

  lemma NotBlank(v: string) returns (i: nat)
    requires Strip(v) != ""
    ensures i < |v| && !IsSpace(v[i])
  {
    var j: nat;
    i, j := StripWindow(v);
    assert v[i] == Strip(v)[0];
  }

  lemma FieldMeasured(s: string, key: string, value: string)
    requires FieldFirst(s, key, value) && IsName(key) && LineFree(value) && Strip(value) != ""
    ensures FieldLength(s) == Some(|key| + 3 + |value| + 1)
  {
    hide FieldLength, NameRun, SpaceRun, IndexOf, Strip, LineFree, IsNameChar, IsSpace;
    var n := |key|;
    var i := NotBlank(value);
    NameAhead(s, key);
    SignAhead(s, n);
    ValueEnds(s, n + 2, n + 3, i, value);
    MeasuredLength(s, n, n + 3 + |value|);
  }

  /** A rendered field is matched to the end of its line, whatever follows. */
  lemma FieldAhead(f: Field, rest: string)
    requires IsName(f.key) && LineFree(f.value) && Strip(f.value) != ""
    ensures FieldLength(FieldLine(f) + "\n" + rest) == Some(|FieldLine(f)| + 1)
  {
    hide *;
    FieldLayout(f, rest);
    FieldMeasured(FieldLine(f) + "\n" + rest, f.key, f.value);
  }

  /** A line that starts with a name starts with its first letter when stripped. */
  lemma StrippedStart(line: string)
    requires line != "" && !IsSpace(line[0])
    ensures Strip(line) != "" && Strip(line)[0] == line[0]
  {
    var i, j := StripWindow(line);
    hide Strip;
    assert i == 0 && j > 0;
  }

  lemma SignPosition(key: string, rest: string)
    requires IsName(key)
    ensures IndexOf(key + (" =" + rest), '=') == |key| + 1
  {
    var line := key + (" =" + rest);
    assert line[|key| + 1] == '=' && line[|key|] == ' ';
    assert forall k :: 0 <= k < |key| ==> line[k] == key[k];
    hide IndexOf;
  }

  /** A rendered line parses to its field; the value may hold further signs. */
  lemma LineParses(f: Field)
    requires IsName(f.key)
    ensures LineField(FieldLine(f)) == Some(Field(f.key, Strip(f.value)))
  {
    var line, n := FieldLine(f), |f.key|;
    assert line == f.key + (" =" + (" " + f.value));
    SignPosition(f.key, " " + f.value);
    assert line[0] == f.key[0] && IsNameChar(f.key[0]);
    StrippedStart(line);
    assert line[..n + 1] == "" + f.key + " " && line[n + 2..] == " " + f.value;
    assert IsNameChar(f.key[n - 1]);
    hide IndexOf, Strip;
    StripPadded("", f.key, " ");
    StripLeft(" ", f.value);
  }

  // ---------------------------------------------------------------- the block

  predicate Named(fields: seq<Field>) {
    forall i :: 0 <= i < |fields| ==> IsName(fields[i].key)
  }

  /** No value holds a line feed. */
  predicate OneLine(fields: seq<Field>) {
    forall i :: 0 <= i < |fields| ==> LineFree(fields[i].value)
  }

  /** No value holds any line boundary. */
  predicate NoBreaks(fields: seq<Field>) {
    forall i :: 0 <= i < |fields| ==> BreakFree(fields[i].value)
  }

  /** The rendered block with a line feed at its end. */
  function BlockText(fields: seq<Field>): string {
    Unlines([HEADER] + FieldLines(fields))
  }

  lemma {:induction false} JoinUnlines(lines: seq<string>)
    requires lines != []
    ensures Join(lines) + "\n" == Unlines(lines)
  {
    if |lines| == 1 {
      assert lines[1..] == [];
      assert Unlines(lines) == lines[0] + "\n" + "";
    } else {
      JoinUnlines(lines[1..]);
      hide *;
      JoinStep(lines);
      assert lines[0] + "\n" + Join(lines[1..]) + "\n" == lines[0] + "\n" + (Join(lines[1..]) + "\n");
    }
  }

  lemma JoinStep(lines: seq<string>)
    requires |lines| > 1
    ensures Join(lines) == lines[0] + "\n" + Join(lines[1..])
    ensures Unlines(lines) == lines[0] + "\n" + Unlines(lines[1..])
  {
  }

  lemma PromptText(fields: seq<Field>, prompt: string)
    requires Complete(fields)
    ensures RenderBlock(fields).value + "\n" == BlockText(fields)
    ensures GovernedPrompt(fields, prompt) == Some(BlockText(fields) + ("\n" + (Strip(prompt) + "\n")))
  {
    JoinUnlines([HEADER] + FieldLines(fields));
    hide Join, Strip, FieldLines;
    var block, p := RenderBlock(fields).value, Strip(prompt);
    assert block + "\n\n" + p + "\n" == (block + "\n") + ("\n" + (p + "\n"));
  }

  lemma FieldsStep(fields: seq<Field>, tail: string)
    requires fields != []
    ensures Unlines(FieldLines(fields)) + tail
         == FieldLine(fields[0]) + "\n" + (Unlines(FieldLines(fields[1..])) + tail)
    ensures |Unlines(FieldLines(fields))| == |FieldLine(fields[0])| + 1 + |Unlines(FieldLines(fields[1..]))|
  {
    hide FieldLine;
    assert FieldLines(fields)[1..] == FieldLines(fields[1..]);
  }

  lemma {:induction false} FieldsAhead(fields: seq<Field>, tail: string)
    requires Named(fields) && OneLine(fields) && Complete(fields)
    requires tail == "" || !IsNameChar(tail[0])
    ensures FieldsLength(Unlines(FieldLines(fields)) + tail) == |Unlines(FieldLines(fields))|
    decreases |fields|
  {
    if fields == [] {
      assert Unlines(FieldLines([])) + tail == tail;
      assert FieldLength(tail) == None;
    } else {
      var f, rest := fields[0], Unlines(FieldLines(fields[1..])) + tail;
      FieldAhead(f, rest);
      FieldsAhead(fields[1..], tail);
      FieldsStep(fields, tail);
      hide FieldLength, FieldLine, FieldLines, Unlines, Strip;
      var s := FieldLine(f) + "\n" + rest;
      assert s[|FieldLine(f)| + 1..] == rest;
    }
  }

  // ---------------------------------------------------------------- no fence in the block

  /** A line starts no fenced contract unless the header is the next line. */
  lemma {:induction false} LineHasNoFence(line: string, rest: string)
    requires LineFree(line) && (line == "" || !(HEADER <= rest))
    ensures Fenced(line + "\n" + rest) == Fenced(rest)
    decreases |line|
  {
    var s := line + "\n" + rest;
    NoFenceHere(line, rest);
    hide FenceLength;
    if line == "" {
      assert s[1..] == rest;
    } else {
      assert s[1..] == line[1..] + "\n" + rest;
      LineHasNoFence(line[1..], rest);
    }
  }

  lemma NoFenceHere(line: string, rest: string)
    requires LineFree(line) && (line == "" || !(HEADER <= rest))
    ensures FenceLength(line + "\n" + rest) == None
  {
    var s := line + "\n" + rest;
    if FENCE <= s {
      assert s[0] == '`' && s[1] == '`' && s[2] == '`';
      assert |line| >= 3 by {
        assert s[|line|] == '\n';
      }
      assert s[3..][|line| - 3] == '\n';
      assert forall i :: 0 <= i < |line| - 3 ==> s[3..][i] == line[i + 3];
      assert IndexOf(s[3..], '\n') == |line| - 3;
      assert s[|line| + 1..] == rest;
      assert HEADER + "\n" <= rest ==> HEADER <= rest;
    }
  }

  lemma NotHeader(f: Field, rest: string)
    requires IsName(f.key)
    ensures !(HEADER <= FieldLine(f) + rest)
  {
    assert (FieldLine(f) + rest)[0] == f.key[0];
    assert HEADER[0] == '[';
  }

  lemma {:induction false} FieldsHaveNoFence(fields: seq<Field>, tail: string)
    requires Named(fields) && OneLine(fields)
    ensures Fenced(Unlines(FieldLines(fields)) + ("\n" + tail)) == Fenced(tail)
    ensures !(HEADER <= Unlines(FieldLines(fields)) + ("\n" + tail))
    decreases |fields|
  {
    if fields == [] {
      assert Unlines(FieldLines([])) + ("\n" + tail) == "" + "\n" + tail;
      LineHasNoFence("", tail);
      assert ("" + "\n" + tail)[0] == '\n' && HEADER[0] == '[';
    } else {
      FieldsHaveNoFence(fields[1..], tail);
      FieldsStep(fields, "\n" + tail);
      FieldLineFree(fields[0]);
      var rest := Unlines(FieldLines(fields[1..])) + ("\n" + tail);
      NotHeader(fields[0], "\n" + rest);
      hide Fenced, FieldLine, FieldLines, Unlines;
      assert FieldLine(fields[0]) + ("\n" + rest) == FieldLine(fields[0]) + "\n" + rest;
      LineHasNoFence(FieldLine(fields[0]), rest);
    }
  }

  lemma FieldLineFree(f: Field)
    requires IsName(f.key) && LineFree(f.value)
    ensures LineFree(FieldLine(f))
  {
  }

  lemma BlockHasNoFence(fields: seq<Field>, tail: string)
    requires Named(fields) && OneLine(fields)
    ensures Fenced(BlockText(fields) + ("\n" + tail)) == Fenced(tail)
  {
    FieldsHaveNoFence(fields, tail);
    HeaderLineFree();
    assert ([HEADER] + FieldLines(fields))[1..] == FieldLines(fields);
    var rest := Unlines(FieldLines(fields)) + ("\n" + tail);
    assert BlockText(fields) + ("\n" + tail) == HEADER + "\n" + rest;
    hide Fenced, FieldLines;
    LineHasNoFence(HEADER, rest);
  }

  lemma HeaderLineFree()
    ensures LineFree(HEADER) && BreakFree(HEADER)
  {
  }

  // ---------------------------------------------------------------- main results

  lemma FieldsNotBlank(fields: seq<Field>)
    requires fields != [] && Named(fields)
    ensures Strip(Unlines(FieldLines(fields))) != ""
  {
    FieldsStep(fields, "");
    var s := Unlines(FieldLines(fields));
    assert s + "" == s;
    assert s[0] == fields[0].key[0];
    var i, j := StripWindow(s);
  }

  lemma PlainAtStart(body: string, rest: string)
    requires FieldsLength(body + rest) == |body| && Strip(body) != ""
    ensures Plain(HEADER + "\n" + (body + rest)) == Some(HEADER + "\n" + body)
  {
    hide FieldsLength, Strip;
    var h := HEADER + "\n";
    var s := h + (body + rest);
    var start := |HEADER| + 1;
    assert Find(s, h) == Some(0);
    assert s[start..] == body + rest;
    assert s[start..start + |body|] == body && s[..start + |body|] == h + body;
  }

  lemma BlockIsHeaded(fields: seq<Field>)
    ensures BlockText(fields) == HEADER + "\n" + Unlines(FieldLines(fields))
  {
    hide FieldLines;
    assert ([HEADER] + FieldLines(fields))[1..] == FieldLines(fields);
  }

  lemma PlainFindsBlock(fields: seq<Field>, tail: string)
    requires fields != [] && Named(fields) && OneLine(fields) && Complete(fields)
    ensures Plain(BlockText(fields) + ("\n" + tail)) == Some(BlockText(fields))
  {
    hide *;
    var body, rest := Unlines(FieldLines(fields)), "\n" + tail;
    BlockIsHeaded(fields);
    NewlineIsNoName(tail);
    FieldsAhead(fields, rest);
    FieldsNotBlank(fields);
    PlainAtStart(body, rest);
    Associative(HEADER + "\n", body, rest);
  }

  lemma NewlineIsNoName(tail: string)
    ensures !IsNameChar(("\n" + tail)[0])
  {
  }

  /**
   From a governed prompt extraction returns the rendered block and its line feed if and
   only if the user's prompt holds no fenced contract; otherwise it returns that one.
   */
  lemma ExtractsOwnBlockIff(fields: seq<Field>, prompt: string)
    requires fields != [] && Named(fields) && OneLine(fields) && Complete(fields)
    ensures var text, fenced := GovernedPrompt(fields, prompt).value, Fenced(Strip(prompt) + "\n");
      && (ExtractBlock(text) == Some(RenderBlock(fields).value + "\n") <==> fenced == None)
      && (fenced.Some? ==> ExtractBlock(text) == fenced)
  {
    PromptText(fields, prompt);
    BlockHasNoFence(fields, Strip(prompt) + "\n");
    PlainFindsBlock(fields, Strip(prompt) + "\n");
    FencedStart(Strip(prompt) + "\n");
    BlockStart(fields);
    hide Fenced, Plain, BlockText, RenderBlock, Strip;
  }

  lemma {:induction false} FencedStart(s: string)
    ensures Fenced(s).Some? ==> FENCE <= Fenced(s).value
  {
    if FenceLength(s).Some? {
      FenceStart(s);
    } else if s != "" {
      FencedStart(s[1..]);
    }
  }

  lemma FenceStart(s: string)
    requires FenceLength(s).Some?
    ensures FENCE <= s[..FenceLength(s).value]
  {
  }

  lemma BlockStart(fields: seq<Field>)
    ensures !(FENCE <= BlockText(fields))
  {
    assert BlockText(fields)[0] == '[';
    assert FENCE[0] == '`';
  }

  predicate DistinctNames(fields: seq<Field>) {
    forall i, j :: 0 <= i < j < |fields| ==> fields[i].key != fields[j].key
  }

  /** The parsed fields are these, each value without surrounding whitespace, and no others. */
  predicate Recovers(fields: seq<Field>, parsed: map<string, string>) {
    && (forall i :: 0 <= i < |fields| ==> fields[i].key in parsed && parsed[fields[i].key] == Strip(fields[i].value))
    && forall key :: key in parsed ==> exists i :: 0 <= i < |fields| && fields[i].key == key
  }

  lemma {:induction false} LinesSnoc(fields: seq<Field>)
    requires fields != []
    ensures FieldLines(fields) == FieldLines(fields[..|fields| - 1]) + [FieldLine(fields[|fields| - 1])]
    decreases |fields|
  {
    hide FieldLine;
    if |fields| > 1 {
      var init := fields[..|fields| - 1];
      LinesSnoc(fields[1..]);
      assert fields[1..][..|fields| - 2] == init[1..];
      assert FieldLines(init) == [FieldLine(fields[0])] + FieldLines(init[1..]);
      hide FieldLines;
      Associative([FieldLine(fields[0])], FieldLines(init[1..]), [FieldLine(fields[|fields| - 1])]);
    } else {
      assert fields[1..] == [] && fields[..0] == [];
    }
  }

  lemma FieldsOfSnoc(before: seq<string>, line: string, f: Field)
    requires LineField(line) == Some(f)
    ensures FieldsOf(before + [line]) == FieldsOf(before)[f.key := f.value]
  {
    hide LineField;
    assert (before + [line])[..|before|] == before;
  }

  lemma HeaderAlone()
    ensures Recovers([], FieldsOf([HEADER] + FieldLines([])))
  {
    HeaderIsNoField();
    hide LineField;
    assert [HEADER] + FieldLines([]) == [HEADER] && [HEADER][..0] == [];
  }

  lemma {:induction false} LinesRecover(fields: seq<Field>)
    requires Named(fields) && DistinctNames(fields)
    ensures Recovers(fields, FieldsOf([HEADER] + FieldLines(fields)))
    decreases |fields|
  {
    if fields == [] {
      HeaderAlone();
    } else {
      var n := |fields| - 1;
      assert IsName(fields[n].key) && Named(fields[..n]) && DistinctNames(fields[..n]);
      hide *;
      var before := [HEADER] + FieldLines(fields[..n]);
      LinesRecover(fields[..n]);
      LinesSnoc(fields);
      LineParses(fields[n]);
      Associative([HEADER], FieldLines(fields[..n]), [FieldLine(fields[n])]);
      FieldsOfSnoc(before, FieldLine(fields[n]), Field(fields[n].key, Strip(fields[n].value)));
      RecoversSnoc(fields, FieldsOf(before));
    }
  }

  lemma RecoversSnoc(fields: seq<Field>, parsed: map<string, string>)
    requires fields != [] && DistinctNames(fields) && Recovers(fields[..|fields| - 1], parsed)
    ensures Recovers(fields, parsed[fields[|fields| - 1].key := Strip(fields[|fields| - 1].value)])
  {
    hide Strip;
    var n := |fields| - 1;
    assert forall i :: 0 <= i < n ==> fields[..n][i] == fields[i];
    assert fields[n].key == fields[n].key;
  }

  lemma HeaderIsNoField()
    ensures LineField(HEADER) == None
  {
    assert HEADER[0] == '[' && HEADER[|HEADER| - 1] == ']';
    StripTrimmed(HEADER);
  }

  lemma {:induction false} FieldLinesBreakFree(fields: seq<Field>)
    requires Named(fields) && NoBreaks(fields)
    ensures AllBreakFree(FieldLines(fields))
  {
    if fields != [] {
      FieldLinesBreakFree(fields[1..]);
      assert BreakFree(FieldLine(fields[0]));
      hide FieldLine, BreakFree;
    }
  }

  /** Parsing the rendered block recovers every field; a value may hold the sign itself. */
  lemma BlockRecovers(fields: seq<Field>)
    requires Named(fields) && DistinctNames(fields) && NoBreaks(fields)
    ensures Recovers(fields, ParsedFields(BlockText(fields)))
  {
    FieldLinesBreakFree(fields);
    HeaderLineFree();
    hide BreakFree, FieldLines, FieldsOf, Recovers;
    SplitUnlines([HEADER] + FieldLines(fields));
    LinesRecover(fields);
  }

  lemma {:induction false} ParsedValuesBreakFree(lines: seq<string>, key: string)
    requires AllBreakFree(lines) && key in FieldsOf(lines)
    ensures BreakFree(FieldsOf(lines)[key])
  {
    var n := |lines| - 1;
    var f := LineField(lines[n]);
    if f.Some? && f.value.key == key {
      var line := lines[n];
      var sign := IndexOf(line, '=');
      assert BreakFree(line);
      StripKeepsBreakFree(line[sign + 1..]);
    } else {
      ParsedValuesBreakFree(lines[..n], key);
    }
  }

  /** Extraction and parsing of the governed prompt give the fields back. */
  predicate RoundTrips(fields: seq<Field>, prompt: string) {
    var text := GovernedPrompt(fields, prompt);
    text.Some? && var block := ExtractBlock(text.value); block.Some? && Recovers(fields, ParsedFields(block.value))
  }

  lemma BrokenValueIsLost(fields: seq<Field>, i: nat, block: string)
    requires i < |fields| && !BreakFree(Strip(fields[i].value))
    ensures !Recovers(fields, ParsedFields(block))
  {
    hide BreakFree, FieldsOf, Strip;
    SplitLinesBreakFree(block);
    if fields[i].key in ParsedFields(block) {
      ParsedValuesBreakFree(SplitLines(block), fields[i].key);
    }
  }

  /** A prompt that holds a fenced contract without fields. */
  const FENCED_PROMPT := "```\n[Governance Contract]\n```"

  lemma FencedPromptText()
    ensures FENCED_PROMPT == FENCE + "\n" + (HEADER + "\n" + FENCE)
  {
  }

  lemma FencedPromptFacts()
    ensures Strip(FENCED_PROMPT) == FENCED_PROMPT
    ensures FENCED_PROMPT == FENCE + "\n" + (HEADER + "\n" + FENCE)
    ensures LineFree(FENCE) && BreakFree(FENCE)
  {
    FencedPromptText();
    var inner := "\n" + (HEADER + "\n");
    assert FENCED_PROMPT == FENCE + inner + FENCE;
    assert FENCE[0] == '`' && FENCE[|FENCE| - 1] == '`';
    hide Strip;
    StripTrimmed(FENCE + inner + FENCE);
  }

  lemma FenceAround(rest: string)
    requires LineFree(FENCE)
    ensures Fenced(FENCE + "\n" + (HEADER + "\n" + FENCE) + rest) == Some(FENCE + "\n" + (HEADER + "\n" + FENCE))
  {
    var h := HEADER + "\n";
    var s := FENCE + "\n" + (h + FENCE) + rest;
    assert FENCE <= s && s[3..][0] == '\n';
    assert IndexOf(s[3..], '\n') == 0;
    assert s[4..] == h + (FENCE + rest);
    assert h <= s[4..];
    var inside := 4 + |HEADER| + 1;
    assert s[inside..] == FENCE + rest;
    assert Find(s[inside..], FENCE) == Some(0);
    assert FenceLength(s) == Some(inside + 3);
    assert s[..inside + 3] == FENCE + "\n" + (h + FENCE);
  }

  lemma FencedLines()
    ensures SplitLines(FENCED_PROMPT) == [FENCE, HEADER, FENCE]
  {
    FencedPromptFacts();
    HeaderLineFree();
    hide BreakFree;
    SplitFirstLine(FENCE, HEADER + "\n" + FENCE);
    SplitFirstLine(HEADER, FENCE);
    SplitOneLine(FENCE);
    assert [FENCE] + ([HEADER] + [FENCE]) == [FENCE, HEADER, FENCE];
  }

  lemma FenceIsNoField()
    ensures LineField(FENCE) == None
  {
    assert FENCE[0] == '`' && FENCE[1] == '`' && FENCE[2] == '`';
    assert IndexOf(FENCE, '=') == 3;
  }

  lemma {:induction false} NoFields(lines: seq<string>)
    requires forall i :: 0 <= i < |lines| ==> LineField(lines[i]) == None
    ensures FieldsOf(lines) == map[]
  {
    hide LineField;
    if lines != [] { NoFields(lines[..|lines| - 1]); }
  }

  lemma FencedHasNoFields()
    ensures ParsedFields(FENCED_PROMPT) == map[]
  {
    FenceIsNoField();
    HeaderIsNoField();
    FencedLines();
    hide LineField, FieldsOf, SplitLines;
    NoFields([FENCE, HEADER, FENCE]);
  }

  /** From such a prompt extraction returns the fenced text, so no contract survives it. */
  lemma FencedPromptExample(fields: seq<Field>)
    requires fields != [] && Named(fields) && OneLine(fields) && Complete(fields)
    ensures ExtractBlock(GovernedPrompt(fields, FENCED_PROMPT).value) == Some(FENCED_PROMPT)
    ensures !RoundTrips(fields, FENCED_PROMPT)
  {
    FencedPromptFacts();
    FenceAround("\n");
    FencedHasNoFields();
    ExtractsOwnBlockIff(fields, FENCED_PROMPT);
    hide Fenced, ExtractBlock, ParsedFields, GovernedPrompt, Strip, Complete, OneLine, Named;
    var none: map<string, string> := map[];
    assert !Recovers(fields, none) by { assert fields[0].key !in none; }
  }

  predicate TrimmedValues(fields: seq<Field>) {
    forall i :: 0 <= i < |fields| ==> Trimmed(fields[i].value)
  }

  lemma BreakFreeIsLineFree(s: string)
    requires BreakFree(s)
    ensures LineFree(s)
  {
  }

  /**
   With a prompt that holds no fenced contract, every contract whose values are complete and
   without line boundaries survives rendering, wrapping, extraction and parsing; and among
   contracts with trimmed values only these do, whatever the prompt.
   */
  lemma GovernedPromptRoundTrip(c: GovernanceContract, prompt: string)
    ensures Complete(AsFields(c)) && NoBreaks(AsFields(c)) && Fenced(Strip(prompt) + "\n") == None ==>
              RoundTrips(AsFields(c), prompt)
    ensures TrimmedValues(AsFields(c)) && RoundTrips(AsFields(c), prompt) ==>
              Complete(AsFields(c)) && NoBreaks(AsFields(c))
  {
    ContractNames(c);
    FieldsRoundTrip(AsFields(c), prompt);
  }

  lemma ContractNames(c: GovernanceContract)
    ensures AsFields(c) != [] && Named(AsFields(c)) && DistinctNames(AsFields(c))
  {
  }

  lemma FieldsRoundTrip(fields: seq<Field>, prompt: string)
    requires fields != [] && Named(fields) && DistinctNames(fields)
    ensures Complete(fields) && NoBreaks(fields) && Fenced(Strip(prompt) + "\n") == None ==> RoundTrips(fields, prompt)
    ensures TrimmedValues(fields) && RoundTrips(fields, prompt) ==> Complete(fields) && NoBreaks(fields)
  {
    hide Strip, Fenced, Plain, ParsedFields, Recovers, BreakFree, LineFree, Trimmed, FieldLines, Join;
    if Complete(fields) && NoBreaks(fields) && Fenced(Strip(prompt) + "\n") == None {
      forall i | 0 <= i < |fields| ensures LineFree(fields[i].value) { BreakFreeIsLineFree(fields[i].value); }
      ExtractsOwnBlockIff(fields, prompt);
      PromptText(fields, prompt);
      BlockRecovers(fields);
    }
    if TrimmedValues(fields) && RoundTrips(fields, prompt) {
      var block := ExtractBlock(GovernedPrompt(fields, prompt).value).value;
      forall i | 0 <= i < |fields| ensures BreakFree(fields[i].value) {
        StripTrimmed(fields[i].value);
        if !BreakFree(fields[i].value) { BrokenValueIsLost(fields, i, block); }
      }
    }
  }
}
