/**
 The scanners of `AGENTS.md` sections: the full parser (`agents_calibration_maturity.py`),
 the early-exit scanner (`governance_drift_checker.py`) and the placeholder scanner
 (`adopt_governance.py`). Main result: the exact condition under which the early-exit
 scanner reports the keys whose fully parsed content consists of stub lines only.
 */
module Sections {
  import opened Text

  /** The anchor pattern on a stripped line; an anchor is a comment closed on its own line. */
  datatype Reader = Reader(anchor: string -> Option<string>)

  ghost predicate LawfulReader(r: Reader) {
    forall line: string :: r.anchor(line).Some? ==> Opens(line) && Closes(line)
  }

  predicate Opens(stripped: string) {
    "<!--" <= stripped
  }

  predicate Closes(stripped: string) {
    Contains(stripped, "-->")
  }

  const STUB_DASH := "N/A \U{2014} fill in or replace"
  const STUB_HYPHEN := "N/A - fill in or replace"

  predicate Stub(stripped: string) {
    STUB_DASH <= stripped || STUB_HYPHEN <= stripped
  }

  predicate Heading(line: string) {
    "##" <= Strip(line)
  }

  function Key(r: Reader, line: string): Option<string> {
    r.anchor(Strip(line))
  }

  // ---------------------------------------------------------------- one line of a section

  datatype Sight = Skipped(inComment: bool) | Content

  function See(line: string, inComment: bool): Sight {
    var stripped := Strip(line);
    if stripped == "" then Skipped(inComment)
    else if inComment || Opens(stripped) then Skipped(!Closes(stripped))
    else Content
  }

  lemma AnchorIsClosed(r: Reader, line: string, inComment: bool)
    requires LawfulReader(r) && Key(r, line).Some?
    ensures See(line, inComment) == Skipped(false) && !Heading(line)
  {
    assert Opens(Strip(line)) && Closes(Strip(line));
    assert Strip(line)[0] == '<';
    hide Strip, Contains;
  }

  // ---------------------------------------------------------------- the full parser

  datatype Section = Section(key: string, content: seq<string>)

  predicate AtEnd(lines: seq<string>) {
    lines == [] || Heading(lines[0])
  }

  /** Content up to the next heading, without comments and blank lines. */
  function Body(lines: seq<string>, inComment: bool): seq<string> {
    if AtEnd(lines) then []
    else match See(lines[0], inComment)
      case Skipped(c) => Body(lines[1..], c)
      case Content => [Strip(lines[0])] + Body(lines[1..], false)
  }

  function AfterBody(lines: seq<string>): (rest: seq<string>)
    ensures |rest| <= |lines|
  {
    if AtEnd(lines) then lines else AfterBody(lines[1..])
  }

  /** All sections in order, repeated keys included. */
  function Sections(r: Reader, lines: seq<string>): seq<Section>
    decreases |lines|
  {
    if lines == [] then []
    else match Key(r, lines[0])
      case None => Sections(r, lines[1..])
      case Some(key) => [Section(key, Body(lines[1..], false))] + Sections(r, AfterBody(lines[1..]))
  }

  /** Assignment to a dictionary that keeps insertion order. */
  function Put(d: seq<Section>, s: Section): seq<Section> {
    if d == [] then [s]
    else if d[0].key == s.key then [s] + d[1..]
    else [d[0]] + Put(d[1..], s)
  }

  /** The dictionary the sections end up in. */
  function Keyed(sections: seq<Section>): seq<Section> {
    if sections == [] then [] else Put(Keyed(sections[..|sections| - 1]), sections[|sections| - 1])
  }

  // ---------------------------------------------------------------- the early-exit scanner

  datatype Probed = Probed(found: bool, rest: seq<string>)

  /** Looks for content that is no stub, and stops right behind it. */
  function Probe(lines: seq<string>, inComment: bool): (p: Probed)
    ensures |p.rest| <= |lines|
  {
    if AtEnd(lines) then Probed(false, lines)
    else match See(lines[0], inComment)
      case Skipped(c) => Probe(lines[1..], c)
      case Content => if Stub(Strip(lines[0])) then Probe(lines[1..], false) else Probed(true, lines[1..])
  }

  function EmptyKeys(r: Reader, lines: seq<string>): seq<string>
    decreases |lines|
  {
    if lines == [] then []
    else match Key(r, lines[0])
      case None => EmptyKeys(r, lines[1..])
      case Some(key) =>
        var p := Probe(lines[1..], false);
        (if p.found then [] else [key]) + EmptyKeys(r, p.rest)
  }

  // ---------------------------------------------------------------- the loops

  method ParseGovernanceSections(r: Reader, text: string) returns (sections: seq<Section>)
    ensures sections == Keyed(Sections(r, SplitLines(text)))
  {
    hide Key, Heading, Put, Strip, Opens, Closes, SplitLines, Body, AfterBody;
    var lines := SplitLines(text);
    ghost var done: seq<Section> := [];
    sections := [];
    var i := 0;
    while i < |lines|
      invariant 0 <= i <= |lines|
      invariant sections == Keyed(done) && done + Sections(r, lines[i..]) == Sections(r, lines)
    {
      assert lines[i..][1..] == lines[i + 1..];
      var key := Key(r, lines[i]);
      i := i + 1;
      if key.None? {
        continue;
      }
      var content: seq<string>;
      content, i := ReadBody(lines, i);
      var section := Section(key.value, content);
      sections := Put(sections, section);
      assert (done + [section])[..|done|] == done;
      assert done + ([section] + Sections(r, lines[i..])) == (done + [section]) + Sections(r, lines[i..]);
      done := done + [section];
    }
    assert lines[|lines|..] == [] && done + [] == done;
  }

  method ReadBody(lines: seq<string>, start: nat) returns (content: seq<string>, i: nat)
    requires start <= |lines|
    ensures start <= i <= |lines| && content == Body(lines[start..], false) && lines[i..] == AfterBody(lines[start..])
  {
    hide Heading, Strip, Opens, Closes;
    content, i := [], start;
    var inComment := false;
    while i < |lines| && !Heading(lines[i])
      invariant start <= i <= |lines|
      invariant content + Body(lines[i..], inComment) == Body(lines[start..], false)
      invariant AfterBody(lines[i..]) == AfterBody(lines[start..])
    {
      assert lines[i..][1..] == lines[i + 1..];
      var stripped := Strip(lines[i]);
      i := i + 1;
      if stripped == "" {
        continue;
      }
      if inComment {
        if Closes(stripped) {
          inComment := false;
        }
        continue;
      }
      if Opens(stripped) {
        if !Closes(stripped) {
          inComment := true;
        }
        continue;
      }
      assert (content + [stripped]) + Body(lines[i..], false) == content + ([stripped] + Body(lines[i..], false));
      content := content + [stripped];
    }
    assert content + [] == content;
  }

  method FindEmptyGovernanceSections(r: Reader, text: string) returns (emptyKeys: seq<string>)
    ensures emptyKeys == EmptyKeys(r, SplitLines(text))
  {
    hide Key, Heading, Strip, Opens, Closes, Stub, SplitLines, Probe;
    var lines := SplitLines(text);
    emptyKeys := [];
    var i := 0;
    while i < |lines|
      invariant 0 <= i <= |lines|
      invariant emptyKeys + EmptyKeys(r, lines[i..]) == EmptyKeys(r, lines)
    {
      assert lines[i..][1..] == lines[i + 1..];
      var key := Key(r, lines[i]);
      i := i + 1;
      if key.Some? {
        var found: bool;
        found, i := ProbeBody(lines, i);
        if !found {
          assert (emptyKeys + [key.value]) + EmptyKeys(r, lines[i..])
               == emptyKeys + ([key.value] + EmptyKeys(r, lines[i..]));
          emptyKeys := emptyKeys + [key.value];
        } else {
          assert [] + EmptyKeys(r, lines[i..]) == EmptyKeys(r, lines[i..]);
        }
      }
    }
    assert lines[|lines|..] == [] && emptyKeys + [] == emptyKeys;
  }

  method ProbeBody(lines: seq<string>, start: nat) returns (found: bool, i: nat)
    requires start <= |lines|
    ensures start <= i <= |lines| && Probe(lines[start..], false) == Probed(found, lines[i..])
  {
    hide Heading, Strip, Opens, Closes, Stub;
    found, i := false, start;
    var inComment := false;
    while i < |lines| && !Heading(lines[i])
      invariant start <= i <= |lines| && !found
      invariant Probe(lines[i..], inComment) == Probe(lines[start..], false)
    {
      assert lines[i..][1..] == lines[i + 1..];
      var stripped := Strip(lines[i]);
      i := i + 1;
      if stripped == "" {
        continue;
      }
      if inComment {
        if Closes(stripped) {
          inComment := false;
        }
        continue;
      }
      if Opens(stripped) {
        if !Closes(stripped) {
          inComment := true;
        }
        continue;
      }
      if Stub(stripped) {
        continue;
      }
      found := true;
      break;
    }
  }

  /** The keys of sections that have content, all of it beginning with "N/A". */
  function PlaceholderKeys(sections: seq<Section>): seq<string> {
    if sections == [] then []
    else
      PlaceholderKeys(sections[..|sections| - 1])
      + (if sections[|sections| - 1].content != [] && AllPlaceholder(sections[|sections| - 1].content)
         then [sections[|sections| - 1].key] else [])
  }

  predicate AllPlaceholder(content: seq<string>) {
    forall i :: 0 <= i < |content| ==> "N/A" <= content[i]
  }

  method PlaceholderAgentsSections(r: Reader, text: string) returns (placeholders: seq<string>)
    ensures placeholders == PlaceholderKeys(Sections(r, SplitLines(text)))
  {
    hide Key, Heading, Strip, AllPlaceholder;
    var lines := SplitLines(text);
    ghost var done: seq<Section> := [];
    placeholders := [];
    var i := 0;
    while i < |lines|
      invariant 0 <= i <= |lines|
      invariant placeholders == PlaceholderKeys(done) && done + Sections(r, lines[i..]) == Sections(r, lines)
    {
      assert lines[i..][1..] == lines[i + 1..];
      var key := Key(r, lines[i]);
      i := i + 1;
      if key.None? {
        continue;
      }
      var content: seq<string>;
      content, i := ReadBody(lines, i);
      ghost var section := Section(key.value, content);
      assert (done + [section])[..|done|] == done;
      assert done + ([section] + Sections(r, lines[i..])) == (done + [section]) + Sections(r, lines[i..]);
      done := done + [section];
      if content == [] {
        assert placeholders + [] == placeholders;
        continue;
      }
      if AllPlaceholder(content) {
        placeholders := placeholders + [key.value];
      } else {
        assert placeholders + [] == placeholders;
      }
    }
    assert lines[|lines|..] == [] && done + [] == done;
  }

  // ---------------------------------------------------------------- one section

  predicate AllStub(content: seq<string>) {
    forall i :: 0 <= i < |content| ==> Stub(content[i])
  }

  /** Some line before the next heading is content and no stub. */
  predicate HasReal(lines: seq<string>, inComment: bool) {
    !AllStub(Body(lines, inComment))
  }

  lemma AllStubCons(x: string, content: seq<string>)
    ensures AllStub([x] + content) <==> Stub(x) && AllStub(content)
  {
    hide Stub;
    assert ([x] + content)[0] == x;
    assert forall i :: 0 <= i < |content| ==> ([x] + content)[i + 1] == content[i];
  }

  /** The probe stops early iff the section has real content; else it ends where the section ends. */
  lemma {:induction false} ProbeIsExact(lines: seq<string>, inComment: bool)
    ensures Probe(lines, inComment).found <==> HasReal(lines, inComment)
    ensures AfterBody(Probe(lines, inComment).rest) == AfterBody(lines)
    ensures !Probe(lines, inComment).found ==> Probe(lines, inComment).rest == AfterBody(lines)
  {
    hide Heading, See, Stub, Strip, AllStub;
    if AtEnd(lines) {
      NoLines();
    } else {
      match See(lines[0], inComment) {
        case Skipped(c) => ProbeIsExact(lines[1..], c);
        case Content =>
          ProbeIsExact(lines[1..], false);
          AllStubCons(Strip(lines[0]), Body(lines[1..], false));
      }
    }
  }

  lemma NoLines()
    ensures AllStub([])
  {
  }

  /** Every anchor before the next heading is followed by real content before that heading. */
  predicate Followed(r: Reader, lines: seq<string>) {
    AtEnd(lines)
    || ((Key(r, lines[0]).Some? ==> HasReal(lines[1..], false)) && Followed(r, lines[1..]))
  }

  /** Up to real content, every anchor is followed by it. */
  lemma {:induction false} FollowedThroughProbe(r: Reader, lines: seq<string>, inComment: bool)
    requires LawfulReader(r) && Probe(lines, inComment).found
    ensures Followed(r, lines) <==> Followed(r, Probe(lines, inComment).rest)
  {
    hide Heading, See, Stub, Strip, HasReal, LawfulReader, Key;
    if Key(r, lines[0]).Some? {
      AnchorIsClosed(r, lines[0], inComment);
      ProbeIsExact(lines[1..], false);
      FollowedThroughProbe(r, lines[1..], false);
    } else {
      match See(lines[0], inComment) {
        case Skipped(c) => FollowedThroughProbe(r, lines[1..], c);
        case Content => if Stub(Strip(lines[0])) { FollowedThroughProbe(r, lines[1..], false); }
      }
    }
  }

  // ---------------------------------------------------------------- stray anchors

  /** What the scanner reports before the next heading. */
  function Stray(r: Reader, lines: seq<string>): seq<string>
    decreases |lines|
  {
    if AtEnd(lines) then []
    else match Key(r, lines[0])
      case None => Stray(r, lines[1..])
      case Some(key) =>
        var p := Probe(lines[1..], false);
        if p.found then Stray(r, p.rest) else [key]
  }

  lemma {:induction false} StraySplit(r: Reader, lines: seq<string>)
    ensures EmptyKeys(r, lines) == Stray(r, lines) + EmptyKeys(r, AfterBody(lines))
    decreases |lines|
  {
    hide Heading, Key, Probe;
    if !AtEnd(lines) {
      match Key(r, lines[0]) {
        case None => StraySplit(r, lines[1..]);
        case Some(key) =>
          var p := Probe(lines[1..], false);
          ProbeIsExact(lines[1..], false);
          if p.found {
            StraySplit(r, p.rest);
            assert [] + EmptyKeys(r, p.rest) == EmptyKeys(r, p.rest);
          }
      }
    }
  }

  lemma {:induction false} NoStrayIff(r: Reader, lines: seq<string>)
    requires LawfulReader(r)
    ensures Stray(r, lines) == [] <==> Followed(r, lines)
    decreases |lines|
  {
    hide Heading, Key, Probe, HasReal, LawfulReader;
    if !AtEnd(lines) {
      match Key(r, lines[0]) {
        case None => NoStrayIff(r, lines[1..]);
        case Some(key) =>
          ProbeIsExact(lines[1..], false);
          var p := Probe(lines[1..], false);
          if p.found {
            NoStrayIff(r, p.rest);
            FollowedThroughProbe(r, lines[1..], false);
          }
      }
    }
  }

  // ---------------------------------------------------------------- the two scanners

  function StubKeys(sections: seq<Section>): seq<string> {
    if sections == [] then []
    else (if AllStub(sections[0].content) then [sections[0].key] else []) + StubKeys(sections[1..])
  }

  /** In every section with real content, each anchor is followed by real content of that section. */
  predicate Tidy(r: Reader, lines: seq<string>)
    decreases |lines|
  {
    if lines == [] then true
    else if Key(r, lines[0]).None? then Tidy(r, lines[1..])
    else (HasReal(lines[1..], false) ==> Followed(r, lines[1..])) && Tidy(r, AfterBody(lines[1..]))
  }

  lemma {:induction false} ScannerAgrees(r: Reader, lines: seq<string>)
    requires LawfulReader(r)
    ensures |EmptyKeys(r, lines)| >= |StubKeys(Sections(r, lines))|
    ensures Tidy(r, lines) ==> EmptyKeys(r, lines) == StubKeys(Sections(r, lines))
    ensures !Tidy(r, lines) ==> |EmptyKeys(r, lines)| > |StubKeys(Sections(r, lines))|
    decreases |lines|
  {
    if lines != [] {
      hide Key, LawfulReader, AllStub, Probe, Followed;
      if Key(r, lines[0]).None? {
        ScannerAgrees(r, lines[1..]);
      } else {
        var rest := lines[1..];
        var p := Probe(rest, false);
        ProbeIsExact(rest, false);
        ScannerAgrees(r, AfterBody(rest));
        assert Sections(r, lines)[1..] == Sections(r, AfterBody(rest));
        if p.found {
          FollowedThroughProbe(r, rest, false);
          NoStrayIff(r, p.rest);
          StraySplit(r, p.rest);
          assert [] + EmptyKeys(r, p.rest) == EmptyKeys(r, p.rest);
        }
      }
    }
  }

  predicate DistinctKeys(sections: seq<Section>) {
    forall i, j :: 0 <= i < j < |sections| ==> sections[i].key != sections[j].key
  }

  lemma {:induction false} PutFresh(d: seq<Section>, s: Section)
    requires forall i :: 0 <= i < |d| ==> d[i].key != s.key
    ensures Put(d, s) == d + [s]
  {
    if d != [] {
      PutFresh(d[1..], s);
      assert d == [d[0]] + d[1..];
    }
  }

  lemma {:induction false} DistinctKeyed(sections: seq<Section>)
    requires DistinctKeys(sections)
    ensures Keyed(sections) == sections
  {
    if sections != [] {
      var n := |sections| - 1;
      DistinctKeyed(sections[..n]);
      PutFresh(sections[..n], sections[n]);
    }
  }

  /**
   On a document with distinct keys the early-exit scanner reports, in order, exactly the
   keys whose parsed content is stubs only, if and only if no anchor in a section comes
   after all of its real content: from such an anchor the scanner reads a section anew.
   */
  lemma EarlyExitAgreesIff(r: Reader, text: string)
    requires LawfulReader(r) && DistinctKeys(Sections(r, SplitLines(text)))
    ensures EmptyKeys(r, SplitLines(text)) == StubKeys(Keyed(Sections(r, SplitLines(text))))
         <==> Tidy(r, SplitLines(text))
  {
    ScannerAgrees(r, SplitLines(text));
    DistinctKeyed(Sections(r, SplitLines(text)));
  }

  const ANCHOR := "<!-- governance:key=k -->"

  /** A reader that knows one anchor. */
  const ONE_ANCHOR := Reader((line: string) => if line == ANCHOR then Some("k") else None)

  lemma AnchorFacts()
    ensures Strip(ANCHOR) == ANCHOR && ANCHOR != "" && BreakFree(ANCHOR) && Opens(ANCHOR) && Closes(ANCHOR)
    ensures !Heading(ANCHOR)
  {
    StripTrimmed(ANCHOR);
    assert |ANCHOR| == 25 && OccursAt(ANCHOR, "-->", 22);
    assert ANCHOR[0] == '<' && "##"[0] == '#';
  }

  lemma OneAnchorLawful()
    ensures LawfulReader(ONE_ANCHOR)
  {
    AnchorFacts();
  }

  lemma WordFacts()
    ensures Strip("x") == "x" && BreakFree("x") && "x" != ANCHOR && !Opens("x") && !Stub("x") && !Heading("x")
  {
    StripTrimmed("x");
    assert |"<!--"| == 4 && |STUB_DASH| > 1 && |STUB_HYPHEN| > 1 && |"##"| == 2;
  }

  /** How a reader sees an anchor line `a` for `key` and a line `x` of real content. */
  predicate AnchorAndWord(r: Reader, a: string, x: string, key: string) {
    && Key(r, a) == Some(key) && Key(r, x) == None && !Heading(a) && !Heading(x)
    && See(a, false) == Skipped(false) && See(x, false) == Content && Strip(x) == x && !Stub(x)
  }

  lemma TailOfUntidy(r: Reader, a: string, x: string, key: string)
    requires AnchorAndWord(r, a, x, key)
    ensures Body([a], false) == [] && Body([x, a], false) == [x]
    ensures AfterBody([a]) == [] && AfterBody([x, a]) == []
    ensures Probe([x, a], false) == Probed(true, [a]) && EmptyKeys(r, [a]) == [key]
  {
    hide Strip, Heading, See, Stub, Key;
    assert [x, a][1..] == [a] && [a][1..] == [];
    assert Body([], false) == [] && Probe([], false) == Probed(false, []);
  }

  /** An anchor, real content, and the anchor again: the scanner reports the key, the parser has content. */
  lemma UntidyFamily(r: Reader, a: string, x: string, key: string)
    requires LawfulReader(r) && AnchorAndWord(r, a, x, key)
    ensures Sections(r, [a, x, a]) == [Section(key, [x])] && EmptyKeys(r, [a, x, a]) == [key]
    ensures !Tidy(r, [a, x, a])
  {
    TailOfUntidy(r, a, x, key);
    ScannerAgrees(r, [a, x, a]);
    hide Strip, Heading, See, Stub, Body, Probe, AfterBody, LawfulReader, Tidy;
    assert [a, x, a][1..] == [x, a];
    assert Sections(r, []) == [] && Sections(r, [a, x, a]) == [Section(key, [x])];
    assert EmptyKeys(r, [a, x, a]) == [] + EmptyKeys(r, [a]);
    OneSection(key, x);
  }

  lemma OneSection(key: string, x: string)
    requires !Stub(x)
    ensures StubKeys([Section(key, [x])]) == [] && DistinctKeys([Section(key, [x])])
  {
    hide Stub;
    assert [x][0] == x;
    assert !AllStub([x]);
    assert [Section(key, [x])][1..] == [];
  }

  lemma OneAnchorSeen()
    ensures LawfulReader(ONE_ANCHOR) && AnchorAndWord(ONE_ANCHOR, ANCHOR, "x", "k")
    ensures AllBreakFree([ANCHOR, "x", ANCHOR]) && !Stub("x")
  {
    AnchorFacts();
    WordFacts();
    OneAnchorLawful();
    hide Strip, Heading, Opens, Closes, Stub, LawfulReader, BreakFree;
  }

  /** An untidy document that a lawful reader meets: an anchor, a word, and the anchor again. */
  lemma UntidyExample()
    ensures var text := Unlines([ANCHOR, "x", ANCHOR]);
      && LawfulReader(ONE_ANCHOR) && DistinctKeys(Sections(ONE_ANCHOR, SplitLines(text)))
      && !Tidy(ONE_ANCHOR, SplitLines(text))
      && StubKeys(Keyed(Sections(ONE_ANCHOR, SplitLines(text)))) == []
      && EmptyKeys(ONE_ANCHOR, SplitLines(text)) == ["k"]
  {
    hide *;
    OneAnchorSeen();
    SplitUnlines([ANCHOR, "x", ANCHOR]);
    UntidyFamily(ONE_ANCHOR, ANCHOR, "x", "k");
    OneSection("k", "x");
    DistinctKeyed([Section("k", ["x"])]);
  }

  /** With a repeated key the dictionary keeps the last content, and the scanner looks at each. */
  lemma RepeatedKeyDiffers(r: Reader, lines: seq<string>, stub: Section, filled: Section)
    requires LawfulReader(r) && Tidy(r, lines) && Sections(r, lines) == [stub, filled]
    requires stub.key == filled.key && AllStub(stub.content) && !AllStub(filled.content)
    ensures EmptyKeys(r, lines) == [stub.key]
    ensures StubKeys(Keyed(Sections(r, lines))) == []
  {
    ScannerAgrees(r, lines);
    hide Sections, AllStub, EmptyKeys;
    assert [stub, filled][1..] == [filled] && [filled][1..] == [];
    assert [stub, filled][..1] == [stub] && [stub][..0] == [];
    assert StubKeys([filled]) == [];
    assert StubKeys([stub, filled]) == [stub.key];
    assert Keyed([stub]) == [stub];
    assert Keyed([stub, filled]) == [filled] + [stub][1..];
  }

  lemma StubIsPlaceholder(line: string)
    requires Stub(line)
    ensures "N/A" <= line
  {
    assert STUB_DASH[..3] == "N/A" && STUB_HYPHEN[..3] == "N/A";
  }

  lemma {:induction false} PlaceholderMembers(sections: seq<Section>, i: nat)
    requires i < |sections| && sections[i].content != [] && AllPlaceholder(sections[i].content)
    ensures sections[i].key in PlaceholderKeys(sections)
  {
    hide AllPlaceholder;
    if i < |sections| - 1 {
      PlaceholderMembers(sections[..|sections| - 1], i);
    }
  }

  /** A stub section is either without content or reported by the placeholder scanner. */
  lemma {:induction false} StubsArePlaceholders(sections: seq<Section>, i: nat)
    requires i < |sections| && AllStub(sections[i].content)
    ensures sections[i].content == [] || sections[i].key in PlaceholderKeys(sections)
  {
    if sections[i].content != [] {
      forall j | 0 <= j < |sections[i].content| ensures "N/A" <= sections[i].content[j] {
        StubIsPlaceholder(sections[i].content[j]);
      }
      hide Stub;
      PlaceholderMembers(sections, i);
    }
  }
}
