/**
 The flat YAML subset of `domain_contract_loader.py`: `key: value`, and `key:` followed
 by indented `- item` lines. The parser is a state machine over lines; a line is first
 classified, then applied to the entries read so far and the list that is open.
 */
module FlatYaml {
  import opened Text

  datatype Value = Scalar(text: string) | Items(items: seq<string>)

  datatype ParseError = IndentedOutsideList | MissingColon

  datatype Result<+T> = Ok(value: T) | Err(error: ParseError)

  datatype LineKind =
    | Ignored                              // blank or comment
    | Item(item: string)                   // indented `- item`
    | Nested                               // indented, anything else
    | NoColon
    | ListHead(key: string)                // `key:` or `key: []`
    | Entry(key: string, text: string)     // `key: value`

  /** One pair of matching quotes around the value is dropped. */
  function ParseScalar(raw: string): string {
    var parsed := Strip(raw);
    if |parsed| >= 2 && parsed[0] == parsed[|parsed| - 1] && parsed[0] in {'"', '\''}
    then parsed[1..|parsed| - 1]
    else parsed
  }

  function Classify(raw: string): LineKind {
    var stripped := Strip(LStripBom(raw));
    if stripped == "" || stripped[0] == '#' then Ignored
    else if raw != "" && raw[0] == ' ' then
      if StartsWith(stripped, "- ") then Item(ParseScalar(stripped[2..])) else Nested
    else
      var k := IndexOf(stripped, ':');
      if k == |stripped| then NoColon
      else
        var key := LStripBom(Strip(stripped[..k]));
        var value := Strip(stripped[k + 1..]);
        if value == "" || value == "[]" then ListHead(key) else Entry(key, ParseScalar(value))
  }

  /** `cur` is the key of the open list; the empty string when none is open. */
  datatype State = State(data: map<string, Value>, cur: string) {
    ghost predicate Valid() {
      cur != "" ==> cur in data && data[cur].Items?
    }
  }

  const START := State(map[], "")

  function ItemsOf(data: map<string, Value>, key: string): seq<string> {
    if key in data && data[key].Items? then data[key].items else []
  }

  function Apply(st: State, kind: LineKind): Result<State> {
    match kind
    case Ignored => Ok(st)
    case Item(v) =>
      if st.cur == "" then Err(IndentedOutsideList)
      else Ok(st.(data := st.data[st.cur := Items(ItemsOf(st.data, st.cur) + [v])]))
    case Nested => Err(IndentedOutsideList)
    case NoColon => Err(MissingColon)
    case ListHead(key) => Ok(State(st.data[key := Items([])], key))
    case Entry(key, text) => Ok(State(st.data[key := Scalar(text)], ""))
  }

  function Run(st: State, lines: seq<string>): Result<State>
    decreases |lines|
  {
    if lines == [] then Ok(st)
    else
      var r := Apply(st, Classify(lines[0]));
      if r.Err? then r else Run(r.value, lines[1..])
  }

  function ParseLines(lines: seq<string>): Result<map<string, Value>> {
    var r := Run(START, lines);
    if r.Err? then Err(r.error) else Ok(r.value.data)
  }

  /** What `_parse_contract_yaml` returns, or the kind of error it raises. */
  function Parse(text: string): Result<map<string, Value>> {
    ParseLines(SplitLines(text))
  }

  /** `_as_list` of an entry that may be missing. */
  function AsList(data: map<string, Value>, key: string): seq<string> {
    if key !in data then []
    else match data[key] case Items(items) => items case Scalar(text) => [text]
  }

  // ---------------------------------------------------------------- the loop

  lemma {:induction false} RunAppend(st: State, a: seq<string>, b: seq<string>)
    ensures Run(st, a + b) == if Run(st, a).Err? then Run(st, a) else Run(Run(st, a).value, b)
    decreases |a|
  {
    if a == [] {
      assert a + b == b;
    } else {
      assert (a + b)[1..] == a[1..] + b;
      var r := Apply(st, Classify(a[0]));
      if r.Ok? {
        RunAppend(r.value, a[1..], b);
      }
    }
  }

  lemma RunOne(st: State, line: string)
    ensures Run(st, [line]) == Apply(st, Classify(line))
  {
    assert [line][1..] == [];
  }

  /** The open list always has an entry holding a list: the parser's own assertion cannot fire. */
  lemma {:induction false} OpenListExists(st: State, lines: seq<string>)
    requires st.Valid() && Run(st, lines).Ok?
    ensures Run(st, lines).value.Valid()
    decreases |lines|
  {
    if lines != [] {
      OpenListExists(Apply(st, Classify(lines[0])).value, lines[1..]);
    }
  }

  lemma RunNext(lines: seq<string>, i: nat, st: State)
    requires i < |lines| && Run(START, lines[..i]) == Ok(st)
    ensures Run(START, lines[..i + 1]) == Apply(st, Classify(lines[i]))
    ensures Apply(st, Classify(lines[i])).Err? ==> Run(START, lines) == Apply(st, Classify(lines[i]))
  {
    hide *;
    assert lines[..i + 1] == lines[..i] + [lines[i]] && lines == lines[..i + 1] + lines[i + 1..];
    RunAppend(START, lines[..i], [lines[i]]);
    RunOne(st, lines[i]);
    RunAppend(START, lines[..i + 1], lines[i + 1..]);
  }

  /** What one iteration of the loop does, branch by branch. */
  lemma LineStep(st: State, raw: string)
    requires st.Valid()
    ensures var stripped := Strip(LStripBom(raw));
      Apply(st, Classify(raw))
      == if stripped == "" || stripped[0] == '#' then Ok(st)
         else if raw != "" && raw[0] == ' ' then
           if st.cur == "" || !StartsWith(stripped, "- ") then Err(IndentedOutsideList)
           else Ok(State(st.data[st.cur := Items(st.data[st.cur].items + [ParseScalar(stripped[2..])])], st.cur))
         else
           var k := IndexOf(stripped, ':');
           if k == |stripped| then Err(MissingColon)
           else
             var key, value := LStripBom(Strip(stripped[..k])), Strip(stripped[k + 1..]);
             if value == "" || value == "[]" then Ok(State(st.data[key := Items([])], key))
             else Ok(State(st.data[key := Scalar(ParseScalar(value))], ""))
  {
    hide Strip, LStripBom, IndexOf, ParseScalar;
  }

  method ParseContractYaml(text: string) returns (r: Result<map<string, Value>>)
    ensures r == Parse(text)
  {
    hide Run, Apply, Classify, SplitLines, Strip, LStripBom, ParseScalar, IndexOf;
    var data: map<string, Value> := map[];
    var currentListKey := "";
    var lines := SplitLines(text);
    assert Run(START, lines[..0]) == Ok(START) by { RunNothing(START); }
    for i := 0 to |lines|
      invariant Run(START, lines[..i]) == Ok(State(data, currentListKey))
      invariant State(data, currentListKey).Valid()
    {
      ghost var before := State(data, currentListKey);
      RunNext(lines, i, before);
      LineStep(before, lines[i]);
      var rawLine := lines[i];
      var stripped := Strip(LStripBom(rawLine));
      if stripped == "" || stripped[0] == '#' {
        continue;
      }
      if rawLine != "" && rawLine[0] == ' ' {
        if currentListKey == "" || !StartsWith(stripped, "- ") {
          return Err(IndentedOutsideList);
        }
        data := data[currentListKey := Items(data[currentListKey].items + [ParseScalar(stripped[2..])])];
        continue;
      }
      currentListKey := "";
      var k := IndexOf(stripped, ':');
      if k == |stripped| {
        return Err(MissingColon);
      }
      var key := LStripBom(Strip(stripped[..k]));
      var value := Strip(stripped[k + 1..]);
      if value == "" || value == "[]" {
        data := data[key := Items([])];
        currentListKey := key;
        continue;
      }
      data := data[key := Scalar(ParseScalar(value))];
    }
    assert lines[..|lines|] == lines;
    return Ok(data);
  }

  lemma RunNothing(st: State)
    ensures Run(st, []) == Ok(st)
  {
  }

  // ---------------------------------------------------------------- lines as the writers print them

  predicate IsKeyChar(c: char) {
    'a' <= c <= 'z' || 'A' <= c <= 'Z' || '0' <= c <= '9' || c == '_' || c == '.'
  }

  /** The keys the governance tools write: letters, digits, `_` and `.`. */
  predicate PlainKey(key: string) {
    key != "" && forall i :: 0 <= i < |key| ==> IsKeyChar(key[i])
  }

  lemma FirstColon(key: string, rest: string)
    requires PlainKey(key) && rest != "" && rest[0] == ':'
    ensures IndexOf(key + rest, ':') == |key|
  {
    var s := key + rest;
    var k := IndexOf(s, ':');
    assert forall i :: 0 <= i < |key| ==> s[i] == key[i];
    assert s[|key|] == ':';
  }

  /** Stripping a printed key line only shortens what follows the colon, at its right end. */
  lemma StripKeyLine(key: string, tail: string) returns (cut: string)
    requires PlainKey(key)
    ensures Strip(key + ":" + tail) == key + ":" + cut && Strip(cut) == Strip(tail)
  {
    var i, j := StripWindow(tail);
    var head := key + ":";
    if i == j {
      cut := "";
      assert key + ":" + tail == "" + head + tail;
      StripPadded("", head, tail);
    } else {
      cut := tail[..j];
      var body := head + cut;
      assert Trimmed(body) by {
        assert body[|body| - 1] == tail[i..j][j - i - 1];
      }
      assert key + ":" + tail == "" + body + tail[j..];
      StripPadded("", body, tail[j..]);
      assert cut == tail[..i] + tail[i..j] + "";
      StripPadded(tail[..i], tail[i..j], "");
    }
  }

  /** A stripped line made of a plain key, a colon and a value. */
  lemma ClassifyKeyed(raw: string, key: string, cut: string)
    requires PlainKey(key) && raw != "" && raw[0] == key[0] && Strip(LStripBom(raw)) == key + ":" + cut
    ensures Classify(raw) ==
            if Strip(cut) == "" || Strip(cut) == "[]" then ListHead(key) else Entry(key, ParseScalar(Strip(cut)))
  {
    var stripped := key + ":" + cut;
    assert stripped == key + (":" + cut) && IsKeyChar(key[0]) && IsKeyChar(key[|key| - 1]);
    FirstColon(key, ":" + cut);
    assert stripped[..|key|] == key && stripped[|key| + 1..] == cut && stripped[0] == key[0];
    StripTrimmed(key);
    assert LStripBom(key) == key;
    hide Strip, IndexOf, ParseScalar;
  }

  /** A printed `key:` followed by any value text is a list head or an entry for that key. */
  lemma ClassifyKeyLine(key: string, tail: string)
    requires PlainKey(key)
    ensures Classify(key + ":" + tail) ==
            if Strip(tail) == "" || Strip(tail) == "[]" then ListHead(key)
            else Entry(key, ParseScalar(Strip(tail)))
  {
    var raw := key + ":" + tail;
    assert raw[0] == key[0] && IsKeyChar(key[0]);
    assert LStripBom(raw) == raw;
    var cut := StripKeyLine(key, tail);
    hide Strip, LStripBom, Classify, ParseScalar, PlainKey;
    ClassifyKeyed(raw, key, cut);
  }

  /** A printed `  - text` line is the item it prints, for any trimmed text. */
  lemma ClassifyItemLine(text: string)
    requires text != "" && Trimmed(text)
    ensures Classify(ItemLine(text)) == Item(ParseScalar(text))
  {
    var raw := ItemLine(text);
    var body := "- " + text;
    assert raw == "  " + body + "";
    StripPadded("  ", body, "");
    assert body[2..] == text;
  }

  // ---------------------------------------------------------------- printed lists

  /** Texts that print as one item line. */
  predicate PrintableItem(item: string) {
    item != "" && Trimmed(item) && BreakFree(item)
  }

  function ItemLine(item: string): string {
    "  - " + item
  }

  function ItemLines(items: seq<string>): seq<string> {
    if items == [] then [] else [ItemLine(items[0])] + ItemLines(items[1..])
  }

  function ScalarsOf(items: seq<string>): seq<string> {
    if items == [] then [] else [ParseScalar(items[0])] + ScalarsOf(items[1..])
  }

  /** Printed items join the list that is open, in order. */
  lemma {:induction false} RunItemLines(st: State, items: seq<string>)
    requires st.Valid() && st.cur != ""
    requires forall i :: 0 <= i < |items| ==> PrintableItem(items[i])
    ensures Run(st, ItemLines(items)) ==
            Ok(st.(data := st.data[st.cur := Items(ItemsOf(st.data, st.cur) + ScalarsOf(items))]))
    decreases |items|
  {
    hide Classify, ParseScalar, Trimmed, BreakFree;
    var have := ItemsOf(st.data, st.cur);
    if items == [] {
      assert have + ScalarsOf(items) == have;
      assert st.data == st.data[st.cur := Items(have)];
    } else {
      var v := ParseScalar(items[0]);
      ClassifyItemLine(items[0]);
      var next := st.(data := st.data[st.cur := Items(have + [v])]);
      var lines := ItemLines(items);
      assert lines[0] == ItemLine(items[0]) && lines[1..] == ItemLines(items[1..]);
      RunItemLines(next, items[1..]);
      Associative(have, [v], ScalarsOf(items[1..]));
      var all := Items(have + ScalarsOf(items));
      assert next.data[st.cur := all] == st.data[st.cur := all];
    }
  }

  /** Quoting protects every text, whatever quotes or spaces it holds. */
  lemma ParseQuoted(text: string)
    ensures ParseScalar("\"" + text + "\"") == text
  {
    StripTrimmed("\"" + text + "\"");
  }
}
