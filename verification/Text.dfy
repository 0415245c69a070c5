/**
 String operations of the governance tools, on sequences of characters: whitespace
 stripping, line splitting and searching, with the laws the parsers rely on.
 Character classes follow Python's `str`: `strip` removes Unicode whitespace and
 `splitlines` breaks on every line boundary, not only on line feeds.
 */
module Text {

  datatype Option<+T> = None | Some(value: T)

  const BOM := '\U{FEFF}'

  /** Whitespace as `str.strip` sees it. */
  predicate IsSpace(c: char) {
    || '\t' <= c <= '\r'
    || '\U{1C}' <= c <= ' '
    || c == '\U{85}' || c == '\U{A0}' || c == '\U{1680}'
    || '\U{2000}' <= c <= '\U{200A}'
    || c == '\U{2028}' || c == '\U{2029}' || c == '\U{202F}' || c == '\U{205F}' || c == '\U{3000}'
  }

  /** Line boundaries as `str.splitlines` sees them. */
  predicate IsBreak(c: char) {
    || '\n' <= c <= '\r'
    || '\U{1C}' <= c <= '\U{1E}'
    || c == '\U{85}' || c == '\U{2028}' || c == '\U{2029}'
  }

  predicate BreakFree(s: string) {
    forall i :: 0 <= i < |s| ==> !IsBreak(s[i])
  }

  predicate AllBreakFree(lines: seq<string>) {
    forall i :: 0 <= i < |lines| ==> BreakFree(lines[i])
  }

  // ---------------------------------------------------------------- stripping

  function LStrip(s: string): string {
    if s != "" && IsSpace(s[0]) then LStrip(s[1..]) else s
  }

  function RStrip(s: string): string {
    if s != "" && IsSpace(s[|s| - 1]) then RStrip(s[..|s| - 1]) else s
  }

  function Strip(s: string): string {
    RStrip(LStrip(s))
  }

  /** `lstrip` of the byte order mark only. */
  function LStripBom(s: string): string {
    if s != "" && s[0] == BOM then LStripBom(s[1..]) else s
  }

  /** No whitespace at either end. */
  predicate Trimmed(s: string) {
    s != "" ==> !IsSpace(s[0]) && !IsSpace(s[|s| - 1])
  }

  lemma StripTrimmed(s: string)
    requires Trimmed(s)
    ensures Strip(s) == s
  {
  }

  lemma {:induction false} LStripSuffix(s: string) returns (k: nat)
    ensures k <= |s| && LStrip(s) == s[k..]
    ensures forall i :: 0 <= i < k ==> IsSpace(s[i])
    ensures LStrip(s) != "" ==> !IsSpace(LStrip(s)[0])
  {
    if s != "" && IsSpace(s[0]) {
      var j := LStripSuffix(s[1..]);
      k := j + 1;
      assert forall i :: 0 < i < k ==> s[i] == s[1..][i - 1];
    } else {
      k := 0;
    }
  }

  lemma {:induction false} RStripPrefix(s: string) returns (k: nat)
    ensures k <= |s| && RStrip(s) == s[..k]
    ensures forall i :: k <= i < |s| ==> IsSpace(s[i])
    ensures RStrip(s) != "" ==> !IsSpace(RStrip(s)[k - 1])
  {
    if s != "" && IsSpace(s[|s| - 1]) {
      k := RStripPrefix(s[..|s| - 1]);
      assert s[..|s| - 1][..k] == s[..k];
    } else {
      k := |s|;
    }
  }

  /** Stripping keeps one window of the string, trimmed, and drops only whitespace around it. */
  lemma StripWindow(s: string) returns (i: nat, j: nat)
    ensures i <= j <= |s| && Strip(s) == s[i..j] && Trimmed(Strip(s))
    ensures forall k :: 0 <= k < i || j <= k < |s| ==> IsSpace(s[k])
  {
    i := LStripSuffix(s);
    var n := RStripPrefix(s[i..]);
    j := i + n;
    assert forall k :: j <= k < |s| ==> s[k] == s[i..][k - i];
  }

  lemma {:induction false} LStripSpaces(pad: string, s: string)
    requires forall i :: 0 <= i < |pad| ==> IsSpace(pad[i])
    requires s != "" ==> !IsSpace(s[0])
    ensures LStrip(pad + s) == s
  {
    if pad == "" {
      assert pad + s == s;
    } else {
      assert (pad + s)[1..] == pad[1..] + s;
      LStripSpaces(pad[1..], s);
    }
  }

  lemma {:induction false} RStripSpaces(s: string, pad: string)
    requires forall i :: 0 <= i < |pad| ==> IsSpace(pad[i])
    requires s != "" ==> !IsSpace(s[|s| - 1])
    ensures RStrip(s + pad) == s
  {
    if pad == "" {
      assert s + pad == s;
    } else {
      var init := pad[..|pad| - 1];
      assert (s + pad)[..|s + pad| - 1] == s + init;
      RStripSpaces(s, init);
    }
  }

  /** Whitespace around a trimmed string is exactly what stripping removes. */
  lemma StripPadded(left: string, s: string, right: string)
    requires forall i :: 0 <= i < |left| ==> IsSpace(left[i])
    requires forall i :: 0 <= i < |right| ==> IsSpace(right[i])
    requires Trimmed(s)
    ensures Strip(left + s + right) == s
  {
    if s == "" {
      assert left + s + right == (left + right) + "";
      LStripSpaces(left + right, "");
    } else {
      assert left + s + right == left + (s + right);
      LStripSpaces(left, s + right);
      RStripSpaces(s, right);
    }
  }

  /** Whitespace in front never matters to `strip`. */
  lemma StripLeft(pad: string, s: string)
    requires forall i :: 0 <= i < |pad| ==> IsSpace(pad[i])
    ensures Strip(pad + s) == Strip(s)
  {
    var i, j := StripWindow(s);
    assert pad + s == (pad + s[..i]) + s[i..j] + s[j..];
    StripPadded(pad + s[..i], s[i..j], s[j..]);
  }

  lemma StripKeepsBreakFree(s: string)
    requires BreakFree(s)
    ensures BreakFree(Strip(s))
  {
    var i, j := StripWindow(s);
  }

  lemma {:induction false} LStripBomSuffix(s: string) returns (k: nat)
    ensures k <= |s| && LStripBom(s) == s[k..]
    ensures forall i :: 0 <= i < k ==> s[i] == BOM
    ensures LStripBom(s) != "" ==> LStripBom(s)[0] != BOM
  {
    if s != "" && s[0] == BOM {
      var j := LStripBomSuffix(s[1..]);
      k := j + 1;
    } else {
      k := 0;
    }
  }

  // ---------------------------------------------------------------- searching

  /** Index of the first occurrence of `c`, or the length. */
  function IndexOf(s: string, c: char): (k: nat)
    ensures k <= |s|
    ensures k < |s| ==> s[k] == c
    ensures forall i :: 0 <= i < k ==> s[i] != c
  {
    if s == "" || s[0] == c then 0
    else
      var r := IndexOf(s[1..], c);
      assert forall i :: 0 < i <= r ==> s[i] == s[1..][i - 1] || i == |s|;
      1 + r
  }

  /** `s.split(c)`. */
  function SplitOn(s: string, c: char): (parts: seq<string>)
    ensures parts != []
    decreases |s|
  {
    var k := IndexOf(s, c);
    if k == |s| then [s] else [s[..k]] + SplitOn(s[k + 1..], c)
  }

  lemma {:induction false} SplitOnFree(s: string, c: char)
    ensures forall i :: 0 <= i < |SplitOn(s, c)| ==> c !in SplitOn(s, c)[i]
    decreases |s|
  {
    var k := IndexOf(s, c);
    if k < |s| {
      SplitOnFree(s[k + 1..], c);
    }
  }

  predicate StartsWith(s: string, prefix: string) {
    prefix <= s
  }

  predicate OccursAt(s: string, sub: string, i: int) {
    0 <= i && i + |sub| <= |s| && s[i..i + |sub|] == sub
  }

  predicate Contains(s: string, sub: string) {
    exists i :: 0 <= i <= |s| && OccursAt(s, sub, i)
  }

  /** Python's `<=` on strings: lexicographic by code point. */
  predicate StrLe(a: string, b: string) {
    a == "" || (b != "" && (a[0] < b[0] || (a[0] == b[0] && StrLe(a[1..], b[1..]))))
  }

  lemma {:induction false} StrLeTotal(a: string, b: string)
    ensures StrLe(a, b) || StrLe(b, a)
    ensures StrLe(a, b) && StrLe(b, a) ==> a == b
    ensures StrLe(a, a)
  {
    if a != "" {
      StrLeTotal(a[1..], if b != "" then b[1..] else "");
      if b != "" && StrLe(a, b) && StrLe(b, a) {
        assert a == [a[0]] + a[1..] && b == [b[0]] + b[1..];
      }
    }
  }

  lemma {:induction false} StrLeTransitive(a: string, b: string, c: string)
    requires StrLe(a, b) && StrLe(b, c)
    ensures StrLe(a, c)
  {
    if a != "" && a[0] == b[0] == c[0] {
      StrLeTransitive(a[1..], b[1..], c[1..]);
    }
  }

  // ---------------------------------------------------------------- lines

  /** Index of the first line boundary, or the length. */
  function FirstBreak(s: string): (k: nat)
    ensures k <= |s|
    ensures k < |s| ==> IsBreak(s[k])
    ensures forall i :: 0 <= i < k ==> !IsBreak(s[i])
  {
    if s == "" || IsBreak(s[0]) then 0
    else
      var r := FirstBreak(s[1..]);
      assert forall i :: 0 < i < |s| ==> s[i] == s[1..][i - 1];
      1 + r
  }

  /** A carriage return and the line feed after it are one boundary. */
  function BreakLength(s: string, k: nat): (n: nat)
    requires k < |s|
    ensures 1 <= n <= |s| - k
  {
    if s[k] == '\r' && k + 1 < |s| && s[k + 1] == '\n' then 2 else 1
  }

  function SplitLines(s: string): seq<string>
    decreases |s|
  {
    if s == "" then []
    else
      var k := FirstBreak(s);
      if k == |s| then [s]
      else [s[..k]] + SplitLines(s[k + BreakLength(s, k)..])
  }

  /** Every line followed by a line feed. */
  function Unlines(lines: seq<string>): string {
    if lines == [] then "" else lines[0] + "\n" + Unlines(lines[1..])
  }

  lemma FirstBreakAt(line: string, rest: string)
    requires BreakFree(line) && rest != "" && IsBreak(rest[0])
    ensures FirstBreak(line + rest) == |line|
  {
    var s := line + rest;
    assert s[|line|] == rest[0];
    assert forall i :: 0 <= i < |line| ==> s[i] == line[i];
  }

  lemma SplitFirstLine(line: string, rest: string)
    requires BreakFree(line)
    ensures SplitLines(line + "\n" + rest) == [line] + SplitLines(rest)
  {
    var s := line + "\n" + rest;
    assert s == line + ("\n" + rest);
    FirstBreakAt(line, "\n" + rest);
    assert s[|line|] == '\n';
    assert s[..|line|] == line && s[|line| + 1..] == rest;
  }

  lemma SplitOneLine(line: string)
    requires BreakFree(line) && line != ""
    ensures SplitLines(line) == [line]
  {
  }

  /** Printing lines and splitting the text again returns the same lines. */
  lemma {:induction false} SplitUnlines(lines: seq<string>)
    requires AllBreakFree(lines)
    ensures SplitLines(Unlines(lines)) == lines
  {
    if lines != [] {
      SplitFirstLine(lines[0], Unlines(lines[1..]));
      SplitUnlines(lines[1..]);
    }
  }

  lemma {:induction false} SplitLinesBreakFree(s: string)
    ensures AllBreakFree(SplitLines(s))
    decreases |s|
  {
    if s != "" {
      var k := FirstBreak(s);
      assert BreakFree(s[..k]);
      if k < |s| {
        SplitLinesBreakFree(s[k + BreakLength(s, k)..]);
      }
    }
  }

  lemma FirstBreakOfLine(text: string, i: nat)
    requires i < |text| && IsBreak(text[i])
    ensures FirstBreak(text) <= i && BreakFree(text[..FirstBreak(text)]) && IsBreak(text[FirstBreak(text)])
  {
    hide FirstBreak;
  }

  /** The text ends in a line boundary that nothing following can change. */
  predicate Ended(text: string) {
    text != "" && IsBreak(text[|text| - 1]) && text[|text| - 1] != '\r'
  }

  lemma AppendKeepsFirstLine(text: string, more: string) returns (k: nat, n: nat)
    requires Ended(text)
    ensures k == FirstBreak(text) < |text| && n == k + BreakLength(text, k) <= |text|
    ensures k == FirstBreak(text + more) && n == k + BreakLength(text + more, k)
    ensures (text + more)[..k] == text[..k] && (text + more)[n..] == text[n..] + more
  {
    FirstBreakOfLine(text, |text| - 1);
    k := FirstBreak(text);
    FirstBreakAt(text[..k], text[k..] + more);
    hide FirstBreak, BreakFree;
    n := k + BreakLength(text, k);
    assert text + more == text[..k] + (text[k..] + more);
  }

  lemma {:induction false} SplitStep(s: string, k: nat, n: nat)
    requires s != "" && k == FirstBreak(s) < |s| && n == k + BreakLength(s, k)
    ensures SplitLines(s) == [s[..k]] + SplitLines(s[n..])
  {
    hide FirstBreak, BreakLength, IsBreak;
  }

  /** `",".join(parts)`. */
  function Joined(parts: seq<string>): string {
    if parts == [] then "" else if |parts| == 1 then parts[0] else parts[0] + "," + Joined(parts[1..])
  }

  function Members<T(==)>(s: seq<T>): set<T> {
    set x | x in s
  }

  lemma Associative<T>(a: seq<T>, b: seq<T>, c: seq<T>)
    ensures a + (b + c) == (a + b) + c
  {
  }

  lemma LessOne<T(!new)>(a: multiset<T>, b: multiset<T>, x: T)
    requires a + multiset{x} <= b + multiset{x}
    ensures a <= b
  {
    forall y ensures a[y] <= b[y] {
      assert (a + multiset{x})[y] <= (b + multiset{x})[y];
    }
  }

  /** The last of some elements occurs among more; without it the inclusion still holds. */
  lemma TakeOut<T(!new)>(some: seq<T>, more: seq<T>) returns (before: seq<T>, after: seq<T>)
    requires some != [] && multiset(some) <= multiset(more)
    ensures more == before + [some[|some| - 1]] + after
    ensures multiset(some[..|some| - 1]) <= multiset(before + after)
  {
    var n := |some| - 1;
    var last := some[n];
    assert some == some[..n] + [last];
    assert last in multiset(more);
    var i :| 0 <= i < |more| && more[i] == last;
    before, after := more[..i], more[i + 1..];
    assert more == before + [last] + after;
    assert multiset(more) == multiset(before + after) + multiset{last};
    assert multiset(some) == multiset(some[..n]) + multiset{last};
    LessOne(multiset(some[..n]), multiset(before + after), last);
  }

  lemma RestEnded(text: string, n: nat)
    requires Ended(text) && n <= |text|
    ensures text[n..] == "" || Ended(text[n..])
  {
    hide IsBreak;
  }

  /** What stands between two line boundaries is a line. */
  lemma LineBetween(before: string, line: string, after: string)
    requires Ended(before) && BreakFree(line) && line != "" && after != "" && IsBreak(after[0])
    ensures line in SplitLines(before + (line + after))
  {
    SplitAppend(before, line + after);
    FirstBreakAt(line, after);
    var s := line + after;
    assert SplitLines(s)[0] == s[..|line|] == line;
    hide SplitLines, FirstBreak;
    assert (SplitLines(before) + SplitLines(s))[|SplitLines(before)|] == line;
  }

  /** A text that is empty or ends in a line boundary splits independently of what follows. */
  lemma {:induction false} SplitAppend(text: string, more: string)
    requires text == "" || Ended(text)
    ensures SplitLines(text + more) == SplitLines(text) + SplitLines(more)
    decreases |text|
  {
    if text == "" {
      assert text + more == more;
    } else {
      hide *;
      var k, n := AppendKeepsFirstLine(text, more);
      SplitStep(text + more, k, n);
      SplitStep(text, k, n);
      var rest := text[n..];
      RestEnded(text, n);
      SplitAppend(rest, more);
      Associative([text[..k]], SplitLines(rest), SplitLines(more));
    }
  }

  lemma {:induction false} UnlinesAppend(a: seq<string>, b: seq<string>)
    ensures Unlines(a + b) == Unlines(a) + Unlines(b)
  {
    if a == [] {
      assert a + b == b;
    } else {
      assert (a + b)[1..] == a[1..] + b;
      UnlinesAppend(a[1..], b);
    }
  }
}
