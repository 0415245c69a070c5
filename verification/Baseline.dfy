/**
 The baseline file of `adopt_governance.py`: its printer, the reader that must undo it, and
 the refresh that reads one baseline and prints the next. Main results: what is written is
 read back, and no number of refreshes changes the mandate; the plan path is kept exactly
 when it survives the scalar parser.
 */
module Baseline {
  import opened Text
  import opened FlatYaml

  // ---------------------------------------------------------------- printed documents

  /** A piece of a printed file: a comment or blank line, a `key: value` line, or a list. */
  datatype Block =
    | Note(line: string)
    | Field(key: string, value: string)
    | Listing(key: string, items: seq<string>)

  /** Every block prints as lines the parser accepts, and no text holds a line break. */
  predicate Printable(block: Block) {
    match block
    case Note(line) => BreakFree(line) && Classify(line) == Ignored
    case Field(key, value) => PlainKey(key) && BreakFree(value)
    case Listing(key, items) =>
      PlainKey(key) && forall i :: 0 <= i < |items| ==> PrintableItem(items[i])
  }

  predicate AllPrintable(doc: seq<Block>) {
    forall i :: 0 <= i < |doc| ==> Printable(doc[i])
  }

  function BlockLines(block: Block): seq<string> {
    match block
    case Note(line) => [line]
    case Field(key, value) => [key + ":" + (" " + value)]
    case Listing(key, items) => [key + ":"] + ItemLines(items)
  }

  function DocLines(doc: seq<Block>): seq<string> {
    if doc == [] then [] else BlockLines(doc[0]) + DocLines(doc[1..])
  }

  /** The entry a block stands for. */
  function BlockValue(block: Block): Value
    requires !block.Note?
  {
    match block
    case Field(_, value) =>
      if Strip(value) == "" || Strip(value) == "[]" then Items([]) else Scalar(ParseScalar(Strip(value)))
    case Listing(_, items) => Items(ScalarsOf(items))
  }

  /** The entries of a document; a later block for a key replaces an earlier one. */
  function Meaning(data: map<string, Value>, doc: seq<Block>): map<string, Value>
    decreases |doc|
  {
    if doc == [] then data
    else if doc[0].Note? then Meaning(data, doc[1..])
    else Meaning(data[doc[0].key := BlockValue(doc[0])], doc[1..])
  }

  function FieldKind(key: string, value: string): LineKind {
    if Strip(value) == "" || Strip(value) == "[]" then ListHead(key) else Entry(key, ParseScalar(Strip(value)))
  }

  lemma FieldLine(key: string, value: string)
    requires PlainKey(key)
    ensures Classify(key + ":" + (" " + value)) == FieldKind(key, value)
  {
    StripLeft(" ", value);
    hide Classify, Strip, ParseScalar, PlainKey;
    ClassifyKeyLine(key, " " + value);
  }

  lemma FieldApplied(st: State, key: string, value: string)
    ensures var r := Apply(st, FieldKind(key, value));
      r.Ok? && r.value.Valid() && r.value.data == st.data[key := BlockValue(Field(key, value))]
  {
    hide Strip, ParseScalar;
  }

  lemma RunField(st: State, key: string, value: string)
    requires PlainKey(key)
    ensures Run(st, BlockLines(Field(key, value))).Ok?
    ensures Run(st, BlockLines(Field(key, value))).value.Valid()
    ensures Run(st, BlockLines(Field(key, value))).value.data == st.data[key := BlockValue(Field(key, value))]
  {
    var line := key + ":" + (" " + value);
    assert BlockLines(Field(key, value)) == [line];
    hide *;
    FieldLine(key, value);
    FieldApplied(st, key, value);
    RunOne(st, line);
  }

  lemma OpenedList(st: State, key: string)
    requires key != ""
    ensures var begun := State(st.data[key := Items([])], key);
      begun.Valid() && ItemsOf(begun.data, key) == []
  {
  }

  lemma RunListing(st: State, key: string, items: seq<string>)
    requires PlainKey(key) && forall i :: 0 <= i < |items| ==> PrintableItem(items[i])
    ensures Run(st, BlockLines(Listing(key, items))).Ok?
    ensures Run(st, BlockLines(Listing(key, items))).value.Valid()
    ensures Run(st, BlockLines(Listing(key, items))).value.data == st.data[key := Items(ScalarsOf(items))]
  {
    var line := key + ":";
    assert line == key + ":" + "" && key != "";
    ClassifyKeyLine(key, "");
    assert BlockLines(Listing(key, items)) == [line] + ItemLines(items);
    var begun := State(st.data[key := Items([])], key);
    OpenedList(st, key);
    assert Apply(st, ListHead(key)) == Ok(begun);
    assert Classify(line) == ListHead(key) by { StripTrimmed(""); }
    hide *;
    RunOne(st, line);
    RunAppend(st, [line], ItemLines(items));
    RunItemLines(begun, items);
    assert [] + ScalarsOf(items) == ScalarsOf(items);
    ListStays(st, key, ScalarsOf(items));
  }

  lemma ListStays(st: State, key: string, items: seq<string>)
    ensures var begun := State(st.data[key := Items([])], key);
      var full := begun.(data := begun.data[key := Items(items)]);
      full.Valid() && full.data == st.data[key := Items(items)]
  {
  }

  lemma RunBlock(st: State, block: Block)
    requires st.Valid() && Printable(block)
    ensures Run(st, BlockLines(block)).Ok?
    ensures Run(st, BlockLines(block)).value.Valid()
    ensures Run(st, BlockLines(block)).value.data == Meaning(st.data, [block])
  {
    hide Classify, PlainKey, PrintableItem, BreakFree, Run;
    assert [block][1..] == [];
    match block
    case Note(line) => RunOne(st, line);
    case Field(key, value) => RunField(st, key, value);
    case Listing(key, items) => RunListing(st, key, items);
  }

  lemma {:induction false} RunDoc(st: State, doc: seq<Block>)
    requires st.Valid() && AllPrintable(doc)
    ensures Run(st, DocLines(doc)).Ok?
    ensures Run(st, DocLines(doc)).value.data == Meaning(st.data, doc)
    decreases |doc|
  {
    if doc != [] {
      hide Run, BlockLines, Printable;
      RunBlock(st, doc[0]);
      RunAppend(st, BlockLines(doc[0]), DocLines(doc[1..]));
      assert [doc[0]][1..] == [];
      RunDoc(Run(st, BlockLines(doc[0])).value, doc[1..]);
    } else {
      assert DocLines(doc) == [];
    }
  }

  lemma {:induction false} ItemLinesBreakFree(items: seq<string>)
    requires forall i :: 0 <= i < |items| ==> PrintableItem(items[i])
    ensures AllBreakFree(ItemLines(items))
  {
    if items != [] {
      assert BreakFree("  - " + items[0]);
      hide BreakFree, PrintableItem;
      ItemLinesBreakFree(items[1..]);
    }
  }

  lemma BlockBreakFree(block: Block)
    requires Printable(block)
    ensures AllBreakFree(BlockLines(block))
  {
    match block
    case Note(line) =>
    case Field(key, value) =>
      assert BreakFree(key + ":" + (" " + value));
    case Listing(key, items) =>
      assert BreakFree(key + ":");
      hide BreakFree, PrintableItem;
      ItemLinesBreakFree(items);
  }

  lemma {:induction false} DocBreakFree(doc: seq<Block>)
    requires AllPrintable(doc)
    ensures AllBreakFree(DocLines(doc))
  {
    if doc != [] {
      hide BreakFree, Printable, BlockLines;
      BlockBreakFree(doc[0]);
      DocBreakFree(doc[1..]);
    }
  }

  /** Parsing a printed document returns its entries. */
  lemma ParseDocument(doc: seq<Block>)
    requires AllPrintable(doc)
    ensures Parse(Unlines(DocLines(doc))) == Ok(Meaning(map[], doc))
  {
    hide Printable, Run;
    DocBreakFree(doc);
    SplitUnlines(DocLines(doc));
    RunDoc(START, doc);
  }

  /** No block of the document stands for `key`. */
  predicate Silent(doc: seq<Block>, key: string) {
    forall i :: 0 <= i < |doc| ==> doc[i].Note? || doc[i].key != key
  }

  lemma {:induction false} MeaningAppend(data: map<string, Value>, a: seq<Block>, b: seq<Block>)
    ensures Meaning(data, a + b) == Meaning(Meaning(data, a), b)
    decreases |a|
  {
    if a == [] {
      assert a + b == b;
    } else {
      assert (a + b)[1..] == a[1..] + b && (a + b)[0] == a[0];
      MeaningAppend(if a[0].Note? then data else data[a[0].key := BlockValue(a[0])], a[1..], b);
    }
  }

  lemma {:induction false} MeaningSilent(data: map<string, Value>, doc: seq<Block>, key: string)
    requires Silent(doc, key)
    ensures key in Meaning(data, doc) <==> key in data
    ensures key in data ==> Meaning(data, doc)[key] == data[key]
    decreases |doc|
  {
    if doc != [] {
      MeaningSilent(if doc[0].Note? then data else data[doc[0].key := BlockValue(doc[0])], doc[1..], key);
    }
  }

  /** The entry of a key that exactly one block of the document stands for, or none. */
  lemma MeaningOf(before: seq<Block>, block: seq<Block>, after: seq<Block>, key: string)
    requires Silent(before, key) && Silent(after, key)
    requires block == [] || (|block| == 1 && !block[0].Note? && block[0].key == key)
    ensures key in Meaning(map[], before + block + after) <==> block != []
    ensures block != [] ==> Meaning(map[], before + block + after)[key] == BlockValue(block[0])
  {
    hide BlockValue;
    MeaningAppend(map[], before + block, after);
    MeaningAppend(map[], before, block);
    MeaningSilent(map[], before, key);
    MeaningSilent(Meaning(Meaning(map[], before), block), after, key);
    if block != [] {
      assert block[1..] == [];
    }
  }

  // ---------------------------------------------------------------- the baseline document

  const DEFAULT_PLAN := "PLAN.md"
  const PLAN_PATH := "plan_path"
  const REQUIRED := "plan_required_sections"
  const INVENTORY := "plan_section_inventory"

  /** Values recorded for information: provenance and file hashes. */
  datatype Stamp = Stamp(commit: string, frameworkRoot: string, now: string,
                         agentsBaseHash: string, planHash: string, contractHash: string, agentsHash: string)

  /** The groups of comment lines; their wording is not part of the model. */
  datatype Comments = Comments(head: seq<string>, provenance: seq<string>, integrity: seq<string>,
                               contract: seq<string>, observed: seq<string>)

  predicate StampBreakFree(st: Stamp) {
    && BreakFree(st.commit) && BreakFree(st.frameworkRoot) && BreakFree(st.now)
    && BreakFree(st.agentsBaseHash) && BreakFree(st.planHash)
    && BreakFree(st.contractHash) && BreakFree(st.agentsHash)
  }

  predicate AllComments(lines: seq<string>) {
    forall i :: 0 <= i < |lines| ==> BreakFree(lines[i]) && lines[i] != "" && lines[i][0] == '#'
  }

  predicate CommentsOnly(c: Comments) {
    && AllComments(c.head) && AllComments(c.provenance)
    && AllComments(c.integrity) && AllComments(c.contract) && AllComments(c.observed)
  }

  function Remarks(lines: seq<string>): seq<Block> {
    seq(|lines|, i requires 0 <= i < |lines| => Note(lines[i]))
  }

  /** The comments that open a section, after a blank line. */
  function Notes(lines: seq<string>): seq<Block> {
    [Note("")] + Remarks(lines)
  }

  /** The top of the file. */
  function Opening(c: Comments): seq<Block> {
    Remarks(c.head) + Notes(c.provenance)
  }

  function Quoted(headings: seq<string>): seq<string> {
    if headings == [] then [] else ["\"" + headings[0] + "\""] + Quoted(headings[1..])
  }

  function QuotedListing(key: string, headings: seq<string>): seq<Block> {
    if headings == [] then [] else [Listing(key, Quoted(headings))]
  }

  function PlanPathField(planRel: string): seq<Block> {
    if planRel == DEFAULT_PLAN then [] else [Field(PLAN_PATH, planRel)]
  }

  function Provenance(st: Stamp): seq<Block> {
    [ Field("schema_version", "\"1\""), Field("baseline_version", "1.0.0"),
      Field("source_commit", st.commit), Field("framework_root", st.frameworkRoot),
      Field("initialized_at", st.now), Field("initialized_by", "governance_tools/adopt_governance.py") ]
  }

  function Integrity(st: Stamp): seq<Block> {
    [ Field("sha256.AGENTS.base.md", st.agentsBaseHash), Field("sha256.PLAN.md", st.planHash),
      Field("sha256.contract.yaml", st.contractHash), Field("sha256.AGENTS.md", st.agentsHash),
      Field("overridable.AGENTS.base.md", "protected"), Field("overridable.PLAN.md", "overridable"),
      Field("overridable.contract.yaml", "overridable"), Field("overridable.AGENTS.md", "overridable") ]
  }

  const REQUIRED_FIELDS: seq<Block> :=
    [Listing("contract_required_fields", ["name", "framework_interface_version", "framework_compatible", "domain"])]

  function BaselineDoc(c: Comments, st: Stamp, planRel: string, inventory: seq<string>,
                       required: seq<string>): seq<Block> {
    Opening(c) + Provenance(st) + PlanPathField(planRel)
    + (Notes(c.integrity) + Integrity(st) + Notes(c.contract) + REQUIRED_FIELDS)
    + QuotedListing(REQUIRED, required)
    + Notes(c.observed)
    + QuotedListing(INVENTORY, inventory)
  }

  /** The text `_write_baseline_yaml` writes. */
  function BaselineText(c: Comments, st: Stamp, planRel: string, inventory: seq<string>,
                        required: seq<string>): string {
    Unlines(DocLines(BaselineDoc(c, st, planRel, inventory, required)))
  }

  // ---------------------------------------------------------------- the reader

  datatype BaselineState = BaselineState(planRel: string, required: seq<string>, inventory: seq<string>)

  /** `str(data.get("plan_path") or "PLAN.md")`; `listText` is Python's text of a list. */
  function ReadPlanPath(data: map<string, Value>, listText: seq<string> -> string): string {
    if PLAN_PATH !in data then DEFAULT_PLAN
    else match data[PLAN_PATH]
      case Scalar(text) => if text == "" then DEFAULT_PLAN else text
      case Items(items) => if items == [] then DEFAULT_PLAN else listText(items)
  }

  function ReadState(data: map<string, Value>, listText: seq<string> -> string): BaselineState {
    BaselineState(ReadPlanPath(data, listText), ItemsOf(data, REQUIRED), ItemsOf(data, INVENTORY))
  }

  /** A path the scalar parser returns as it was printed. */
  predicate Survives(path: string) {
    || path == DEFAULT_PLAN
    || (path != "" && path != "[]" && Trimmed(path) && !InQuotes(path))
  }

  predicate InQuotes(path: string) {
    |path| >= 2 && path[0] == path[|path| - 1] && path[0] in {'"', '\''}
  }

  lemma {:induction false} QuotedItems(headings: seq<string>)
    requires AllBreakFree(headings)
    ensures ScalarsOf(Quoted(headings)) == headings
    ensures forall i :: 0 <= i < |Quoted(headings)| ==> PrintableItem(Quoted(headings)[i])
  {
    if headings != [] {
      ParseQuoted(headings[0]);
      assert PrintableItem("\"" + headings[0] + "\"");
      hide ParseScalar, PrintableItem, BreakFree;
      QuotedItems(headings[1..]);
      assert headings == [headings[0]] + headings[1..];
    }
  }

  lemma NotesPrintable(lines: seq<string>)
    requires AllComments(lines)
    ensures AllPrintable(Notes(lines))
    ensures forall key :: Silent(Notes(lines), key)
  {
    forall i | 0 <= i < |Notes(lines)| ensures Printable(Notes(lines)[i]) {
      if i > 0 {
        CommentIgnored(lines[i - 1]);
      }
    }
  }

  lemma OpeningPrintable(c: Comments)
    requires AllComments(c.head) && AllComments(c.provenance)
    ensures AllPrintable(Opening(c))
    ensures forall key :: Silent(Opening(c), key)
  {
    NotesPrintable(c.head);
    NotesPrintable(c.provenance);
    hide Printable, AllComments, Classify;
    assert forall i :: 0 <= i < |c.head| ==> Remarks(c.head)[i] == Notes(c.head)[i + 1];
  }

  lemma CommentIgnored(line: string)
    requires line != "" && line[0] == '#'
    ensures Classify(line) == Ignored
  {
    assert LStripBom(line) == line;
    var i, j := StripWindow(line);
  }

  lemma ProvenanceKeys()
    ensures PlainKey("schema_version") && PlainKey("baseline_version") && PlainKey("source_commit")
    ensures PlainKey("framework_root") && PlainKey("initialized_at") && PlainKey("initialized_by")
  {
  }

  lemma ProtectedHashKeys()
    ensures PlainKey("sha256.AGENTS.base.md") && PlainKey("sha256.PLAN.md")
  {
  }

  lemma HashKeys()
    ensures PlainKey("sha256.AGENTS.base.md") && PlainKey("sha256.PLAN.md")
    ensures PlainKey("sha256.contract.yaml") && PlainKey("sha256.AGENTS.md")
  {
    ProtectedHashKeys();
  }

  lemma ProtectedKeys()
    ensures PlainKey("overridable.AGENTS.base.md") && PlainKey("overridable.PLAN.md")
  {
  }

  lemma ExtensibleKeys()
    ensures PlainKey("overridable.contract.yaml") && PlainKey("overridable.AGENTS.md")
  {
  }

  lemma OverridableKeys()
    ensures PlainKey("overridable.AGENTS.base.md") && PlainKey("overridable.PLAN.md")
    ensures PlainKey("overridable.contract.yaml") && PlainKey("overridable.AGENTS.md")
  {
    ProtectedKeys();
    ExtensibleKeys();
    hide PlainKey;
  }

  lemma SectionKeys()
    ensures PlainKey(REQUIRED) && PlainKey(INVENTORY)
  {
  }

  lemma ContractKey()
    ensures PlainKey(PLAN_PATH) && PlainKey("contract_required_fields")
  {
  }

  lemma PlanKeys()
    ensures PlainKey(PLAN_PATH) && PlainKey(REQUIRED) && PlainKey(INVENTORY) && PlainKey("contract_required_fields")
  {
    SectionKeys();
    ContractKey();
    hide PlainKey;
  }

  lemma FixedValues()
    ensures BreakFree("\"1\"") && BreakFree("1.0.0") && BreakFree("governance_tools/adopt_governance.py")
    ensures BreakFree("protected") && BreakFree("overridable")
  {
  }

  lemma FieldNames()
    ensures PrintableItem("name") && PrintableItem("framework_interface_version")
    ensures PrintableItem("framework_compatible") && PrintableItem("domain")
  {
  }

  lemma SectionsPrintable(st: Stamp)
    requires StampBreakFree(st)
    ensures AllPrintable(Provenance(st)) && AllPrintable(Integrity(st)) && AllPrintable(REQUIRED_FIELDS)
  {
    hide PlainKey, BreakFree, Classify, PrintableItem;
    ProvenanceKeys();
    HashKeys();
    OverridableKeys();
    PlanKeys();
    FixedValues();
    FieldNames();
  }

  lemma SectionsSilent(st: Stamp, key: string)
    requires key == PLAN_PATH || key == REQUIRED || key == INVENTORY
    ensures Silent(Provenance(st), key) && Silent(Integrity(st), key) && Silent(REQUIRED_FIELDS, key)
  {
  }

  lemma PrintableJoin(a: seq<Block>, b: seq<Block>)
    requires AllPrintable(a) && AllPrintable(b)
    ensures AllPrintable(a + b)
  {
    hide Printable;
  }

  lemma OptionalPrintable(planRel: string, key: string, headings: seq<string>)
    requires BreakFree(planRel) && AllBreakFree(headings) && PlainKey(key)
    ensures AllPrintable(PlanPathField(planRel)) && AllPrintable(QuotedListing(key, headings))
    ensures headings != [] ==> QuotedListing(key, headings)[0] == Listing(key, Quoted(headings))
  {
    PlanKeys();
    QuotedItems(headings);
    hide PlainKey, BreakFree, PrintableItem;
  }

  lemma DocPrintable(c: Comments, st: Stamp, planRel: string, inventory: seq<string>, required: seq<string>)
    requires CommentsOnly(c) && StampBreakFree(st)
    requires BreakFree(planRel) && AllBreakFree(inventory) && AllBreakFree(required)
    ensures AllPrintable(BaselineDoc(c, st, planRel, inventory, required))
  {
    PlanKeys();
    hide PlainKey, BreakFree, AllPrintable, Notes, Quoted;
    OpeningPrintable(c);
    NotesPrintable(c.integrity);
    NotesPrintable(c.contract);
    NotesPrintable(c.observed);
    SectionsPrintable(st);
    OptionalPrintable(planRel, REQUIRED, required);
    OptionalPrintable(planRel, INVENTORY, inventory);
    PrintableJoin(Opening(c), Provenance(st));
    PrintableJoin(Opening(c) + Provenance(st), PlanPathField(planRel));
    var middle := Notes(c.integrity) + Integrity(st) + Notes(c.contract) + REQUIRED_FIELDS;
    PrintableJoin(Notes(c.integrity), Integrity(st));
    PrintableJoin(Notes(c.integrity) + Integrity(st), Notes(c.contract));
    PrintableJoin(Notes(c.integrity) + Integrity(st) + Notes(c.contract), REQUIRED_FIELDS);
    var d := Opening(c) + Provenance(st) + PlanPathField(planRel);
    PrintableJoin(d, middle);
    PrintableJoin(d + middle, QuotedListing(REQUIRED, required));
    PrintableJoin(d + middle + QuotedListing(REQUIRED, required), Notes(c.observed));
    PrintableJoin(d + middle + QuotedListing(REQUIRED, required) + Notes(c.observed),
                  QuotedListing(INVENTORY, inventory));
  }

  lemma SilentJoin(a: seq<Block>, b: seq<Block>, key: string)
    requires Silent(a, key) && Silent(b, key)
    ensures Silent(a + b, key)
  {
  }

  lemma OthersSilent(planRel: string, inventory: seq<string>, required: seq<string>)
    ensures Silent(PlanPathField(planRel), REQUIRED) && Silent(PlanPathField(planRel), INVENTORY)
    ensures Silent(QuotedListing(REQUIRED, required), PLAN_PATH)
    ensures Silent(QuotedListing(REQUIRED, required), INVENTORY)
    ensures Silent(QuotedListing(INVENTORY, inventory), PLAN_PATH)
    ensures Silent(QuotedListing(INVENTORY, inventory), REQUIRED)
  {
    hide Quoted;
  }

  /** The stretches of the document between the three optional pieces. */
  ghost function Middle(c: Comments, st: Stamp): seq<Block> {
    Notes(c.integrity) + Integrity(st) + Notes(c.contract) + REQUIRED_FIELDS
  }

  lemma StretchesSilent(c: Comments, st: Stamp, key: string)
    requires CommentsOnly(c) && (key == PLAN_PATH || key == REQUIRED || key == INVENTORY)
    ensures Silent(Opening(c) + Provenance(st), key)
    ensures Silent(Middle(c, st), key)
    ensures Silent(Notes(c.observed), key)
  {
    hide Notes, Provenance, Integrity, AllComments;
    SectionsSilent(st, key);
    OpeningPrintable(c);
    NotesPrintable(c.integrity);
    NotesPrintable(c.contract);
    NotesPrintable(c.observed);
    hide Silent;
    SilentJoin(Opening(c), Provenance(st), key);
    SilentJoin(Notes(c.integrity), Integrity(st), key);
    SilentJoin(Notes(c.integrity) + Integrity(st), Notes(c.contract), key);
    SilentJoin(Notes(c.integrity) + Integrity(st) + Notes(c.contract), REQUIRED_FIELDS, key);
  }

  lemma PlanEntry(c: Comments, st: Stamp, planRel: string, inventory: seq<string>, required: seq<string>)
    requires CommentsOnly(c)
    ensures var data := Meaning(map[], BaselineDoc(c, st, planRel, inventory, required));
      && (PLAN_PATH in data <==> planRel != DEFAULT_PLAN)
      && (planRel != DEFAULT_PLAN ==> data[PLAN_PATH] == BlockValue(Field(PLAN_PATH, planRel)))
  {
    var a, b, d := Opening(c) + Provenance(st), Middle(c, st), Notes(c.observed);
    var p, r, i := PlanPathField(planRel), QuotedListing(REQUIRED, required), QuotedListing(INVENTORY, inventory);
    OthersSilent(planRel, inventory, required);
    StretchesSilent(c, st, PLAN_PATH);
    DocShape(c, st, planRel, inventory, required);
    hide Silent, Notes, Opening, Provenance, Middle, Meaning, Quoted, QuotedListing, BlockValue, BaselineDoc;
    SilentJoin(b, r, PLAN_PATH);
    SilentJoin(b + r, d, PLAN_PATH);
    SilentJoin(b + r + d, i, PLAN_PATH);
    MeaningOf(a, p, b + r + d + i, PLAN_PATH);
    assert BaselineDoc(c, st, planRel, inventory, required) == a + p + (b + r + d + i);
  }

  lemma RequiredEntry(c: Comments, st: Stamp, planRel: string, inventory: seq<string>, required: seq<string>)
    requires CommentsOnly(c)
    ensures var data := Meaning(map[], BaselineDoc(c, st, planRel, inventory, required));
      && (REQUIRED in data <==> required != [])
      && (required != [] ==> data[REQUIRED] == Items(ScalarsOf(Quoted(required))))
  {
    var a, b, d := Opening(c) + Provenance(st), Middle(c, st), Notes(c.observed);
    var p, r, i := PlanPathField(planRel), QuotedListing(REQUIRED, required), QuotedListing(INVENTORY, inventory);
    OthersSilent(planRel, inventory, required);
    StretchesSilent(c, st, REQUIRED);
    DocShape(c, st, planRel, inventory, required);
    hide Silent, Notes, Opening, Provenance, Middle, Meaning, Quoted, PlanPathField, ScalarsOf, BaselineDoc;
    SilentJoin(a, p, REQUIRED);
    SilentJoin(a + p, b, REQUIRED);
    SilentJoin(d, i, REQUIRED);
    MeaningOf(a + p + b, r, d + i, REQUIRED);
    assert BaselineDoc(c, st, planRel, inventory, required) == (a + p + b) + r + (d + i);
  }

  lemma InventoryEntry(c: Comments, st: Stamp, planRel: string, inventory: seq<string>, required: seq<string>)
    requires CommentsOnly(c)
    ensures var data := Meaning(map[], BaselineDoc(c, st, planRel, inventory, required));
      && (INVENTORY in data <==> inventory != [])
      && (inventory != [] ==> data[INVENTORY] == Items(ScalarsOf(Quoted(inventory))))
  {
    var a, b, d := Opening(c) + Provenance(st), Middle(c, st), Notes(c.observed);
    var p, r, i := PlanPathField(planRel), QuotedListing(REQUIRED, required), QuotedListing(INVENTORY, inventory);
    OthersSilent(planRel, inventory, required);
    StretchesSilent(c, st, INVENTORY);
    DocShape(c, st, planRel, inventory, required);
    assert Silent([], INVENTORY);
    hide Silent, Notes, Opening, Provenance, Middle, Meaning, Quoted, PlanPathField, ScalarsOf, BaselineDoc;
    SilentJoin(a, p, INVENTORY);
    SilentJoin(a + p, b, INVENTORY);
    SilentJoin(a + p + b, r, INVENTORY);
    SilentJoin(a + p + b + r, d, INVENTORY);
    MeaningOf(a + p + b + r + d, i, [], INVENTORY);
    assert BaselineDoc(c, st, planRel, inventory, required) == (a + p + b + r + d) + i + [];
  }

  /** What the parser finds under the three keys the reader asks for. */
  lemma BaselineEntries(c: Comments, st: Stamp, planRel: string, inventory: seq<string>, required: seq<string>)
    requires CommentsOnly(c)
    ensures var data := Meaning(map[], BaselineDoc(c, st, planRel, inventory, required));
      && (PLAN_PATH in data <==> planRel != DEFAULT_PLAN)
      && (planRel != DEFAULT_PLAN ==> data[PLAN_PATH] == BlockValue(Field(PLAN_PATH, planRel)))
      && (REQUIRED in data <==> required != [])
      && (required != [] ==> data[REQUIRED] == Items(ScalarsOf(Quoted(required))))
      && (INVENTORY in data <==> inventory != [])
      && (inventory != [] ==> data[INVENTORY] == Items(ScalarsOf(Quoted(inventory))))
  {
    PlanEntry(c, st, planRel, inventory, required);
    RequiredEntry(c, st, planRel, inventory, required);
    InventoryEntry(c, st, planRel, inventory, required);
    hide *;
  }

  lemma DocShape(c: Comments, st: Stamp, planRel: string, inventory: seq<string>, required: seq<string>)
    ensures BaselineDoc(c, st, planRel, inventory, required)
         == (Opening(c) + Provenance(st)) + PlanPathField(planRel) + Middle(c, st)
            + QuotedListing(REQUIRED, required) + Notes(c.observed) + QuotedListing(INVENTORY, inventory)
  {
  }

  /** The path read from a baseline that was written with `path`. */
  function Reread(path: string): string {
    if path == DEFAULT_PLAN then DEFAULT_PLAN
    else
      var v := BlockValue(Field(PLAN_PATH, path));
      if v.Items? || v.text == "" then DEFAULT_PLAN else v.text
  }

  /** What the scalar parser makes of a text is the text, or shorter. */
  lemma ScalarShrinks(raw: string)
    ensures ParseScalar(raw) == raw || |ParseScalar(raw)| < |raw|
    ensures ParseScalar(Strip(raw)) == ParseScalar(raw)
  {
    var i, j := StripWindow(raw);
    StripTrimmed(Strip(raw));
    hide Strip;
    assert i == 0 && j == |raw| ==> Strip(raw) == raw;
  }

  /** Exactly trimmed texts without quotes around them are kept. */
  lemma ScalarKeepsIff(path: string)
    ensures ParseScalar(path) == path <==> Trimmed(path) && !InQuotes(path)
    ensures Trimmed(path) ==> Strip(path) == path
  {
    var i, j := StripWindow(path);
    if Trimmed(path) { StripTrimmed(path); }
    hide Strip;
    if !Trimmed(path) {
      assert Strip(path) != path;
      assert |Strip(path)| < |path|;
    }
  }

  /** A path that does not survive comes back shorter, or as the default, and never as it was. */
  lemma RereadSurvivors(path: string)
    ensures Survives(path) <==> Reread(path) == path
    ensures Reread(path) == path || Reread(path) == DEFAULT_PLAN || |Reread(path)| < |path|
    ensures BlockValue(Field(PLAN_PATH, path)).Scalar? || BlockValue(Field(PLAN_PATH, path)) == Items([])
  {
    ScalarShrinks(path);
    ScalarKeepsIff(path);
    StripTrimmed("[]");
    hide ParseScalar, Strip, Trimmed, InQuotes;
  }

  /**
   Reading a written baseline returns the mandate and the inventory that were written, for
   all headings without line breaks, and the plan path as `Reread` says.
   */
  lemma ReadWritten(c: Comments, st: Stamp, planRel: string, inventory: seq<string>, required: seq<string>,
                    listText: seq<string> -> string)
    requires CommentsOnly(c) && StampBreakFree(st)
    requires BreakFree(planRel) && AllBreakFree(inventory) && AllBreakFree(required)
    ensures Parse(BaselineText(c, st, planRel, inventory, required)).Ok?
    ensures ReadState(Parse(BaselineText(c, st, planRel, inventory, required)).value, listText)
         == BaselineState(Reread(planRel), required, inventory)
  {
    DocPrintable(c, st, planRel, inventory, required);
    ParseDocument(BaselineDoc(c, st, planRel, inventory, required));
    BaselineEntries(c, st, planRel, inventory, required);
    QuotedItems(inventory);
    QuotedItems(required);
    RereadSurvivors(planRel);
    hide BlockValue, BaselineDoc, PrintableItem, Meaning;
  }

  // ---------------------------------------------------------------- refreshing

  function HeadingsOf(lines: seq<string>): seq<string> {
    if lines == [] then []
    else (if StartsWith(lines[0], "## ") then [RStrip(lines[0])] else []) + HeadingsOf(lines[1..])
  }

  function DetectPlanSections(text: string): seq<string> {
    HeadingsOf(SplitLines(text))
  }

  /** The repository at the time of one refresh: comment wording, recorded values and plan files. */
  datatype World = World(comments: Comments, stamp: string -> Stamp, plan: string -> Option<string>)

  ghost predicate ValidWorld(w: World) {
    CommentsOnly(w.comments) && forall path: string :: StampBreakFree(w.stamp(path))
  }

  function Inventory(w: World, planRel: string): seq<string> {
    var plan := w.plan(planRel);
    if plan.Some? then DetectPlanSections(plan.value) else []
  }

  /** The text `refresh_baseline` writes over `text`, or the error it raises. */
  function Refresh(text: string, w: World, listText: seq<string> -> string): Result<string> {
    var parsed := Parse(text);
    if parsed.Err? then Err(parsed.error)
    else
      var state := ReadState(parsed.value, listText);
      Ok(BaselineText(w.comments, w.stamp(state.planRel), state.planRel, Inventory(w, state.planRel), state.required))
  }

  function RefreshAll(text: string, worlds: seq<World>, listText: seq<string> -> string): Result<string>
    decreases |worlds|
  {
    if worlds == [] then Ok(text)
    else
      var first := Refresh(text, worlds[0], listText);
      if first.Err? then first else RefreshAll(first.value, worlds[1..], listText)
  }

  lemma {:induction false} HeadingsBreakFree(lines: seq<string>)
    requires AllBreakFree(lines)
    ensures AllBreakFree(HeadingsOf(lines))
  {
    if lines != [] {
      var k := RStripPrefix(lines[0]);
      assert BreakFree(RStrip(lines[0]));
      hide BreakFree, RStrip;
      HeadingsBreakFree(lines[1..]);
    }
  }

  predicate ValueBreakFree(v: Value) {
    match v case Scalar(text) => BreakFree(text) case Items(items) => AllBreakFree(items)
  }

  predicate DataBreakFree(data: map<string, Value>) {
    forall k :: k in data ==> ValueBreakFree(data[k])
  }

  lemma ScalarBreakFree(raw: string)
    requires BreakFree(raw)
    ensures BreakFree(ParseScalar(raw))
  {
    StripKeepsBreakFree(raw);
    hide Strip;
  }

  lemma ClassifyBreakFree(line: string)
    requires BreakFree(line)
    ensures Classify(line).Item? ==> BreakFree(Classify(line).item)
    ensures Classify(line).Entry? ==> BreakFree(Classify(line).text)
  {
    var n := LStripBomSuffix(line);
    var bare := LStripBom(line);
    StripKeepsBreakFree(bare);
    var stripped := Strip(bare);
    hide Strip, ParseScalar, LStripBom;
    if |stripped| >= 2 {
      ScalarBreakFree(stripped[2..]);
    }
    var k := IndexOf(stripped, ':');
    if k < |stripped| {
      StripKeepsBreakFree(stripped[k + 1..]);
      ScalarBreakFree(Strip(stripped[k + 1..]));
    }
  }

  /** Nothing the parser returns holds a line break. */
  lemma {:induction false} RunBreakFree(st: State, lines: seq<string>)
    requires AllBreakFree(lines) && DataBreakFree(st.data) && Run(st, lines).Ok?
    ensures DataBreakFree(Run(st, lines).value.data)
    decreases |lines|
  {
    if lines != [] {
      ClassifyBreakFree(lines[0]);
      hide Classify, BreakFree;
      RunBreakFree(Apply(st, Classify(lines[0])).value, lines[1..]);
    }
  }

  lemma StateBreakFree(text: string, listText: seq<string> -> string)
    requires Parse(text).Ok? && forall l: seq<string> :: BreakFree(listText(l))
    ensures var state := ReadState(Parse(text).value, listText);
      BreakFree(state.planRel) && AllBreakFree(state.required) && AllBreakFree(state.inventory)
  {
    assert BreakFree(DEFAULT_PLAN);
    SplitLinesBreakFree(text);
    hide BreakFree, Run;
    RunBreakFree(START, SplitLines(text));
  }

  /** One refresh of any readable baseline, hand-edited or not. */
  lemma RefreshState(text: string, w: World, listText: seq<string> -> string)
    requires Parse(text).Ok? && ValidWorld(w) && forall l: seq<string> :: BreakFree(listText(l))
    ensures var was := ReadState(Parse(text).value, listText);
      && Refresh(text, w, listText).Ok?
      && Parse(Refresh(text, w, listText).value).Ok?
      && ReadState(Parse(Refresh(text, w, listText).value).value, listText)
         == BaselineState(Reread(was.planRel), was.required, Inventory(w, was.planRel))
  {
    StateBreakFree(text, listText);
    var was := ReadState(Parse(text).value, listText);
    assert StampBreakFree(w.stamp(was.planRel));
    assert AllBreakFree(Inventory(w, was.planRel)) by {
      var plan := w.plan(was.planRel);
      if plan.Some? {
        SplitLinesBreakFree(plan.value);
        HeadingsBreakFree(SplitLines(plan.value));
      }
    }
    hide Parse, ReadState, BaselineText, Inventory, BreakFree, Reread, CommentsOnly;
    ReadWritten(w.comments, w.stamp(was.planRel), was.planRel, Inventory(w, was.planRel), was.required, listText);
  }

  /**
   However often a readable baseline is refreshed, whatever the repository looks like each
   time, the mandate read from it is the one it started with.
   */
  lemma {:induction false} MandateKept(text: string, worlds: seq<World>, listText: seq<string> -> string)
    requires Parse(text).Ok? && forall l: seq<string> :: BreakFree(listText(l))
    requires forall i :: 0 <= i < |worlds| ==> ValidWorld(worlds[i])
    ensures RefreshAll(text, worlds, listText).Ok? && Parse(RefreshAll(text, worlds, listText).value).Ok?
    ensures ReadState(Parse(RefreshAll(text, worlds, listText).value).value, listText).required
         == ReadState(Parse(text).value, listText).required
    decreases |worlds|
  {
    if worlds != [] {
      hide Parse, ReadState, Refresh, Reread, Inventory, ValidWorld, BreakFree;
      RefreshState(text, worlds[0], listText);
      MandateKept(Refresh(text, worlds[0], listText).value, worlds[1..], listText);
    }
  }

  function PathAfter(path: string, n: nat): string
    decreases n
  {
    if n == 0 then path else PathAfter(Reread(path), n - 1)
  }

  lemma {:induction false} PathLater(path: string, n: nat)
    ensures PathAfter(path, n) == path || PathAfter(path, n) == DEFAULT_PLAN || |PathAfter(path, n)| < |path|
    ensures Reread(path) == path ==> PathAfter(path, n) == path
    ensures n > 0 && Reread(path) != path ==> PathAfter(path, n) != path
    decreases n
  {
    if n > 0 {
      RereadSurvivors(path);
      assert Reread(DEFAULT_PLAN) == DEFAULT_PLAN;
      hide Survives, Reread;
      PathLater(Reread(path), n - 1);
      if Reread(path) == DEFAULT_PLAN {
        DefaultStays(n - 1);
      }
    }
  }

  lemma {:induction false} DefaultStays(n: nat)
    ensures PathAfter(DEFAULT_PLAN, n) == DEFAULT_PLAN
    decreases n
  {
    if n > 0 {
      DefaultStays(n - 1);
    }
  }

  lemma PathStep(path: string, n: nat)
    ensures PathAfter(path, 0) == path && PathAfter(path, n + 1) == PathAfter(Reread(path), n)
  {
  }

  lemma {:induction false} PathOfRefreshes(text: string, worlds: seq<World>, listText: seq<string> -> string)
    requires Parse(text).Ok? && forall l: seq<string> :: BreakFree(listText(l))
    requires forall i :: 0 <= i < |worlds| ==> ValidWorld(worlds[i])
    ensures RefreshAll(text, worlds, listText).Ok? && Parse(RefreshAll(text, worlds, listText).value).Ok?
    ensures ReadState(Parse(RefreshAll(text, worlds, listText).value).value, listText).planRel
         == PathAfter(ReadState(Parse(text).value, listText).planRel, |worlds|)
    decreases |worlds|
  {
    hide Parse, ReadState, Refresh, Reread, Inventory, ValidWorld, BreakFree, PathAfter;
    var path := ReadState(Parse(text).value, listText).planRel;
    if worlds == [] {
      PathStep(path, 0);
    } else {
      PathStep(path, |worlds| - 1);
      RefreshState(text, worlds[0], listText);
      PathOfRefreshes(Refresh(text, worlds[0], listText).value, worlds[1..], listText);
    }
  }

  /** The plan path is the old one after any positive number of refreshes if and only if it survives. */
  lemma PathKept(text: string, worlds: seq<World>, listText: seq<string> -> string)
    requires Parse(text).Ok? && worlds != [] && forall l: seq<string> :: BreakFree(listText(l))
    requires forall i :: 0 <= i < |worlds| ==> ValidWorld(worlds[i])
    ensures RefreshAll(text, worlds, listText).Ok? && Parse(RefreshAll(text, worlds, listText).value).Ok?
    ensures Survives(ReadState(Parse(text).value, listText).planRel) <==>
            ReadState(Parse(RefreshAll(text, worlds, listText).value).value, listText).planRel
            == ReadState(Parse(text).value, listText).planRel
  {
    hide Parse, ReadState, Refresh, Survives, ValidWorld, BreakFree, RefreshAll, Reread;
    PathOfRefreshes(text, worlds, listText);
    RereadSurvivors(ReadState(Parse(text).value, listText).planRel);
    PathLater(ReadState(Parse(text).value, listText).planRel, |worlds|);
  }

  /** A baseline of one line, with the path `'p'` in quotes of its own. */
  const QUOTED_PATH := "plan_path: \"'p'\"\n"

  lemma QuotedPathRead(listText: seq<string> -> string)
    ensures Parse(QUOTED_PATH).Ok?
    ensures ReadState(Parse(QUOTED_PATH).value, listText).planRel == "'p'"
  {
    var field := Field(PLAN_PATH, "\"'p'\"");
    var doc, line := [field], PLAN_PATH + ":" + (" " + "\"'p'\"");
    assert doc[1..] == [] && BlockLines(field) == [line];
    assert DocLines(doc) == [line] && [line][1..] == [];
    assert Unlines([line]) == line + "\n" + "" == QUOTED_PATH;
    PlainPlanPath();
    ParseQuoted("'p'");
    StripTrimmed("\"'p'\"");
    assert "\"" + "'p'" + "\"" == "\"'p'\"";
    hide Parse, PlainKey, Strip, ParseScalar;
    ParseDocument(doc);
  }

  lemma PlainPlanPath()
    ensures PlainKey(PLAN_PATH)
  {
  }

  lemma RereadQuoted()
    ensures Reread("'p'") == "p"
  {
    StripTrimmed("'p'");
  }

  /** A quoted path loses its quotes in the first refresh: it then names another file. */
  lemma QuotedPathIsLost(w: World, listText: seq<string> -> string)
    requires ValidWorld(w) && forall l: seq<string> :: BreakFree(listText(l))
    ensures Parse(QUOTED_PATH).Ok? && ReadState(Parse(QUOTED_PATH).value, listText).planRel == "'p'"
    ensures Refresh(QUOTED_PATH, w, listText).Ok? && Parse(Refresh(QUOTED_PATH, w, listText).value).Ok?
    ensures ReadState(Parse(Refresh(QUOTED_PATH, w, listText).value).value, listText).planRel == "p"
  {
    hide *;
    RereadQuoted();
    QuotedPathRead(listText);
    RefreshState(QUOTED_PATH, w, listText);
  }

  // ---------------------------------------------------------------- the file

  /** `.governance/baseline.yaml` of a repository; absent before adoption. */
  class BaselineFile {
    var content: Option<string>

    constructor ()
      ensures content == None
    {
      content := None;
    }

    /** `refresh_baseline`: exit code 1 without a baseline, an error when it does not parse. */
    method RefreshBaseline(w: World, listText: seq<string> -> string, dryRun: bool) returns (code: Result<int>)
      modifies this
      ensures old(content).None? ==> code == Ok(1) && content == None
      ensures old(content).Some? && Parse(old(content).value).Err? ==>
                code == Err(Parse(old(content).value).error) && content == old(content)
      ensures old(content).Some? && Parse(old(content).value).Ok? ==>
                code == Ok(0)
                && content == if dryRun then old(content) else Some(Refresh(old(content).value, w, listText).value)
    {
      if content.None? {
        return Ok(1);
      }
      var parsed := ParseContractYaml(content.value);
      if parsed.Err? {
        return Err(parsed.error);
      }
      var state := ReadState(parsed.value, listText);
      var inventory := Inventory(w, state.planRel);
      if dryRun {
        return Ok(0);
      }
      content := Some(BaselineText(w.comments, w.stamp(state.planRel), state.planRel, inventory, state.required));
      return Ok(0);
    }
  }
}
