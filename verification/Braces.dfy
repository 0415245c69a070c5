/**
 The brace matcher of `domain_validator_loader.py`. Main results: from an opening brace it
 returns the shortest balanced segment, or none exactly when no balanced segment exists;
 and these segments are exactly the printed blocks of nested code, so a block followed by
 any text is cut off at its own closing brace.
 */
module Braces {
  import opened Text

  function Weight(c: char): int {
    if c == '{' then 1 else if c == '}' then -1 else 0
  }

  /** Opening minus closing braces. */
  function Depth(s: string): int {
    if s == "" then 0 else Depth(s[..|s| - 1]) + Weight(s[|s| - 1])
  }

  /** The text from `start` to `end` is balanced, and no proper part of it from `start` is. */
  predicate Segment(text: string, start: nat, end: nat) {
    && start < end <= |text|
    && Depth(text[start..end]) == 0
    && forall k :: start < k < end ==> Depth(text[start..k]) > 0
  }

  // ---------------------------------------------------------------- the matcher

  method FindEnd(text: string, open: nat) returns (end: Option<nat>)
    requires open < |text| && text[open] == '{'
    ensures end.Some? ==> Segment(text, open, end.value)
    ensures end.None? ==> forall e :: open < e <= |text| ==> Depth(text[open..e]) > 0
  {
    var depth := 0;
    var index := open;
    while index < |text|
      invariant open <= index <= |text| && depth == Depth(text[open..index])
      invariant forall k :: open < k <= index ==> Depth(text[open..k]) > 0
    {
      assert text[open..index + 1][..index - open] == text[open..index];
      if text[index] == '{' {
        depth := depth + 1;
      } else if text[index] == '}' {
        depth := depth - 1;
        if depth == 0 {
          return Some(index + 1);
        }
      }
      assert depth > 0 by {
        if index == open { assert depth == 1; } else { assert Depth(text[open..index]) > 0; }
      }
      index := index + 1;
    }
    return None;
  }

  /** A definition found by the pattern: its name, where it starts and where its brace opens. */
  datatype Match = Match(name: string, start: nat, open: nat)

  datatype FunctionBlock = FunctionBlock(name: string, body: string)

  predicate Found(text: string, m: Match) {
    m.start <= m.open < |text| && text[m.open] == '{'
  }

  /** The stripped text up to the end of the segment, or up to the brace when there is none. */
  ghost predicate Extracted(text: string, m: Match, block: FunctionBlock)
    requires Found(text, m)
  {
    && block.name == m.name
    && (forall e: nat :: Segment(text, m.open, e) ==> block.body == Strip(text[m.start..e]))
    && ((forall e: nat :: !Segment(text, m.open, e)) ==> block.body == Strip(text[m.start..m.open + 1]))
  }

  method ExtractFunctionBlocks(text: string, matches: seq<Match>) returns (blocks: seq<FunctionBlock>)
    requires forall i :: 0 <= i < |matches| ==> Found(text, matches[i])
    ensures |blocks| == |matches|
    ensures forall i :: 0 <= i < |matches| ==> Extracted(text, matches[i], blocks[i])
  {
    hide Strip;
    blocks := [];
    for i := 0 to |matches|
      invariant |blocks| == i
      invariant forall j :: 0 <= j < i ==> Extracted(text, matches[j], blocks[j])
    {
      var m := matches[i];
      var end := FindEnd(text, m.open);
      var snippet := if end.Some? then Strip(text[m.start..end.value]) else Strip(text[m.start..m.open + 1]);
      forall e: nat | Segment(text, m.open, e) ensures end == Some(e) {
        if end.Some? { SegmentUnique(text, m.open, e, end.value); }
      }
      blocks := blocks + [FunctionBlock(m.name, snippet)];
    }
  }

  /** There is at most one segment from a brace, and it is the shortest balanced text from there. */
  lemma SegmentUnique(text: string, start: nat, a: nat, b: nat)
    requires Segment(text, start, a) && start < b <= |text| && Depth(text[start..b]) == 0
    ensures a <= b
    ensures Segment(text, start, b) ==> a == b
  {
    hide Depth;
  }

  // ---------------------------------------------------------------- nested code

  datatype Code = Other(c: char) | Block(body: seq<Code>)

  function Print(code: Code): string {
    match code
    case Other(c) => [c]
    case Block(body) => "{" + PrintAll(body) + "}"
  }

  function PrintAll(items: seq<Code>): string {
    if items == [] then "" else Print(items[0]) + PrintAll(items[1..])
  }

  /** Braces occur only around blocks. */
  predicate WellFormed(code: Code) {
    match code
    case Other(c) => Weight(c) == 0
    case Block(body) => AllWellFormed(body)
  }

  predicate AllWellFormed(items: seq<Code>) {
    items == [] || (WellFormed(items[0]) && AllWellFormed(items[1..]))
  }

  lemma {:induction false} DepthAppend(a: string, b: string)
    ensures Depth(a + b) == Depth(a) + Depth(b)
  {
    if b == "" {
      assert a + b == a;
    } else {
      assert (a + b)[..|a + b| - 1] == a + b[..|b| - 1];
      DepthAppend(a, b[..|b| - 1]);
    }
  }

  /** No prefix closes more than it opens, and all that is opened is closed. */
  predicate Nested(s: string) {
    Depth(s) == 0 && forall k :: 0 <= k <= |s| ==> Depth(s[..k]) >= 0
  }

  lemma NestedAppend(a: string, b: string)
    requires Nested(a) && Nested(b)
    ensures Nested(a + b)
  {
    DepthAppend(a, b);
    forall k | 0 <= k <= |a + b| ensures Depth((a + b)[..k]) >= 0 {
      if k <= |a| {
        assert (a + b)[..k] == a[..k];
      } else {
        assert (a + b)[..k] == a + b[..k - |a|];
        DepthAppend(a, b[..k - |a|]);
      }
    }
  }

  /** Around nested text a pair of braces makes a segment. */
  lemma BracesAround(inner: string)
    requires Nested(inner)
    ensures Segment("{" + inner + "}", 0, |inner| + 2)
    ensures Nested("{" + inner + "}")
  {
    var s := "{" + inner + "}";
    assert Depth("{") == 1 by { assert "{"[..0] == ""; }
    assert Depth("}") == -1 by { assert "}"[..0] == ""; }
    forall k | 0 < k <= |inner| + 1 ensures Depth(s[0..k]) > 0 && Depth(s[..k]) > 0 {
      assert s[0..k] == s[..k] == "{" + inner[..k - 1];
      DepthAppend("{", inner[..k - 1]);
    }
    assert s[..|s|] == s[0..|s|] == s;
    DepthAppend("{" + inner, "}");
    DepthAppend("{", inner);
  }

  lemma {:induction false} PrintIsNested(code: Code)
    requires WellFormed(code)
    ensures Nested(Print(code))
    ensures code.Block? ==> Segment(Print(code), 0, |Print(code)|)
    decreases code
  {
    match code {
      case Other(c) =>
        assert [c][..0] == "" && [c][..1] == [c];
      case Block(body) =>
        PrintAllIsNested(body);
        BracesAround(PrintAll(body));
    }
  }

  lemma {:induction false} PrintAllIsNested(items: seq<Code>)
    requires AllWellFormed(items)
    ensures Nested(PrintAll(items))
    decreases items
  {
    if items != [] {
      PrintIsNested(items[0]);
      PrintAllIsNested(items[1..]);
      NestedAppend(Print(items[0]), PrintAll(items[1..]));
    }
  }

  /** A block of code, wherever it stands and whatever follows, ends where the matcher says. */
  lemma BlockEndsAtItsBrace(before: string, code: Code, after: string)
    requires WellFormed(code) && code.Block?
    ensures Segment(before + Print(code) + after, |before|, |before| + |Print(code)|)
  {
    var s, text := Print(code), before + Print(code) + after;
    PrintIsNested(code);
    forall k | 0 <= k <= |s| ensures text[|before|..|before| + k] == s[0..k] {
    }
    hide Depth;
    forall k | |before| < k < |before| + |s| ensures Depth(text[|before|..k]) > 0 {
      assert text[|before|..|before| + (k - |before|)] == s[0..k - |before|];
    }
  }

  /** The first position behind `from` at which the depth is zero. */
  function FirstZero(s: string, from: nat): (k: nat)
    requires from <= |s| && Depth(s) == 0
    ensures from <= k <= |s| && Depth(s[..k]) == 0
    ensures forall j :: from <= j < k ==> Depth(s[..j]) != 0
    decreases |s| - from
  {
    assert s[..|s|] == s;
    if Depth(s[..from]) == 0 then from else FirstZero(s, from + 1)
  }

  lemma DropPrefix(s: string, k: nat)
    requires Nested(s) && k <= |s| && Depth(s[..k]) == 0
    ensures Nested(s[k..])
  {
    assert s == s[..k] + s[k..];
    DepthAppend(s[..k], s[k..]);
    forall j | 0 <= j <= |s[k..]| ensures Depth(s[k..][..j]) >= 0 {
      assert s[..k + j] == s[..k] + s[k..][..j];
      DepthAppend(s[..k], s[k..][..j]);
    }
  }

  /** A segment is a pair of braces around nested text. */
  lemma SegmentShape(s: string)
    requires Segment(s, 0, |s|) && s[0] == '{'
    ensures |s| >= 2 && s == "{" + s[1..|s| - 1] + "}" && Nested(s[1..|s| - 1])
  {
    assert s[0..|s|] == s;
    assert Depth(s[..1]) == 1 by { assert s[..1][..0] == ""; }
    assert s[0..1] == s[..1];
    assert s != s[..1];
    var n := |s| - 1;
    assert s[0..n] == s[..n];
    assert Weight(s[n]) < 0;
    var inner := s[1..n];
    assert s[..n] == s[..1] + inner;
    DepthAppend(s[..1], inner);
    forall k | 0 <= k <= |inner| ensures Depth(inner[..k]) >= 0 {
      assert s[0..k + 1] == s[..1] + inner[..k];
      DepthAppend(s[..1], inner[..k]);
    }
  }

  /** Nested text is printed code. */
  lemma {:induction false} NestedIsPrinted(s: string) returns (items: seq<Code>)
    requires Nested(s)
    ensures AllWellFormed(items) && PrintAll(items) == s
    decreases |s|
  {
    if s == "" {
      return [];
    }
    assert Depth(s[..1]) == Weight(s[0]) by { assert s[..1][..0] == ""; }
    assert Depth(s[..1]) >= 0;
    var k := FirstZero(s, 1);
    var head, first := s[..k], Other(s[0]);
    assert s == head + s[k..];
    DropPrefix(s, k);
    var rest := NestedIsPrinted(s[k..]);
    if s[0] == '{' {
      FirstSegment(s, k);
      SegmentShape(head);
      var body := NestedIsPrinted(head[1..k - 1]);
      first := Block(body);
    }
    items := [first] + rest;
    assert items[1..] == rest && Print(first) == head;
  }

  lemma FirstSegment(s: string, k: nat)
    requires Nested(s) && s != "" && s[0] == '{' && 1 <= k <= |s| && Depth(s[..k]) == 0
    requires forall j :: 1 <= j < k ==> Depth(s[..j]) != 0
    ensures k > 0 && Segment(s[..k], 0, k)
  {
    hide Depth;
    assert s[..k][0..k] == s[..k];
    forall j | 0 < j < k ensures Depth(s[..k][0..j]) > 0 {
      assert s[..k][0..j] == s[..j];
      assert Depth(s[..j]) >= 0;
    }
  }

  lemma SegmentPrints(text: string, open: nat, end: nat) returns (code: Code)
    requires Segment(text, open, end) && text[open] == '{'
    ensures WellFormed(code) && code.Block? && Print(code) == text[open..end]
  {
    var s := text[open..end];
    SegmentInPlace(text, open, end);
    SegmentShape(s);
    hide Segment, Depth, Nested;
    var body := NestedIsPrinted(s[1..|s| - 1]);
    code := Block(body);
  }

  lemma PrintsSegment(text: string, open: nat, end: nat, code: Code)
    requires open < end <= |text| && WellFormed(code) && code.Block? && Print(code) == text[open..end]
    ensures Segment(text, open, end)
  {
    hide *;
    BlockEndsAtItsBrace(text[..open], code, text[end..]);
    assert text[..open] + text[open..end] + text[end..] == text;
  }

  /** Segments from an opening brace are exactly the printed blocks. */
  lemma SegmentIsBlock(text: string, open: nat, end: nat)
    requires open < end <= |text| && text[open] == '{'
    ensures Segment(text, open, end)
       <==> exists code :: WellFormed(code) && code.Block? && Print(code) == text[open..end]
  {
    hide *;
    if Segment(text, open, end) {
      var code := SegmentPrints(text, open, end);
    }
    if code :| WellFormed(code) && code.Block? && Print(code) == text[open..end] {
      PrintsSegment(text, open, end, code);
    }
  }

  lemma SegmentInPlace(text: string, open: nat, end: nat)
    requires Segment(text, open, end)
    ensures Segment(text[open..end], 0, end - open)
  {
    hide Depth;
    var s := text[open..end];
    assert s[0..|s|] == s;
    forall k | 0 < k < |s| ensures Depth(s[0..k]) > 0 {
      assert s[0..k] == text[open..open + k];
      assert Depth(text[open..open + k]) > 0;
    }
  }
}
