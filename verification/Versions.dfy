/**
 Release versions of `framework_versioning.py`: parsing, the two comparison orders, and
 compatibility ranges. Main results: `compare_versions` is a total preorder that refines the
 core order; a range is met by a convex set of releases; and its answer depends on the order
 of its comparators exactly when one rejects the release and another gives no answer on it.
 */
module Versions {
  import opened Text

  datatype Version = Version(major: nat, minor: nat, patch: nat, suffix: string)

  // ---------------------------------------------------------------- parsing

  predicate IsDigit(c: char) {
    '0' <= c <= '9'
  }

  predicate AllDigits(s: string) {
    s != "" && forall i :: 0 <= i < |s| ==> IsDigit(s[i])
  }

  function DigitsValue(s: string): nat
    requires forall i :: 0 <= i < |s| ==> IsDigit(s[i])
  {
    if s == "" then 0
    else
      assert IsDigit(s[|s| - 1]);
      DigitsValue(s[..|s| - 1]) * 10 + (s[|s| - 1] as int - '0' as int)
  }

  predicate NumericParts(parts: seq<string>) {
    forall i :: 0 <= i < |parts| ==> AllDigits(parts[i])
  }

  function Numbers(parts: seq<string>): (r: seq<nat>)
    requires NumericParts(parts)
    ensures |r| == |parts|
  {
    if parts == [] then [] else [DigitsValue(parts[0])] + Numbers(parts[1..])
  }

  function At(numbers: seq<nat>, i: nat): nat {
    if i < |numbers| then numbers[i] else 0
  }

  /** The text after whitespace and one leading `v` are removed, up to the first dash. */
  function CoreText(version: string): string {
    var raw := Strip(version);
    var raw := if StartsWith(raw, "v") then raw[1..] else raw;
    raw[..IndexOf(raw, '-')]
  }

  function SuffixText(version: string): string {
    var raw := Strip(version);
    var raw := if StartsWith(raw, "v") then raw[1..] else raw;
    var k := IndexOf(raw, '-');
    if k == |raw| then "" else raw[k + 1..]
  }

  /** Missing components count as zero, components after the third are ignored. */
  function Normalize(version: string): Option<Version> {
    if version == "" then None
    else
      var parts := SplitOn(CoreText(version), '.');
      if !NumericParts(parts) then None
      else
        var n := Numbers(parts);
        Some(Version(At(n, 0), At(n, 1), At(n, 2), SuffixText(version)))
  }

  method NormalizeVersion(version: Option<string>) returns (r: Option<Version>)
    ensures r == if version.None? then None else Normalize(version.value)
  {
    if version.None? || version.value == "" {
      return None;
    }
    var parts := SplitOn(CoreText(version.value), '.');
    if !NumericParts(parts) {
      return None;
    }
    var ints := Numbers(parts);
    ghost var n := ints;
    while |ints| < 3
      invariant |n| <= |ints| && ints[..|n|] == n && |ints| <= |n| + 3
      invariant forall i :: |n| <= i < |ints| ==> ints[i] == 0
      decreases 3 - |ints|
    {
      ints := ints + [0];
    }
    assert forall i :: 0 <= i < |n| ==> ints[i] == n[i];
    return Some(Version(ints[0], ints[1], ints[2], SuffixText(version.value)));
  }

  // ---------------------------------------------------------------- the two orders

  /** -1, 0 or 1 as the first core is below, equal to or above the second. */
  function CoreSign(a: Version, b: Version): int {
    if a.major != b.major then (if a.major < b.major then -1 else 1)
    else if a.minor != b.minor then (if a.minor < b.minor then -1 else 1)
    else if a.patch != b.patch then (if a.patch < b.patch then -1 else 1)
    else 0
  }

  /** Suffixes compare as whole strings, and having none ranks highest. */
  function SuffixSign(a: string, b: string): int {
    if a == b then 0
    else if a == "" then 1
    else if b == "" then -1
    else if StrLe(a, b) then -1
    else 1
  }

  function Sign(a: Version, b: Version): int {
    if CoreSign(a, b) != 0 then CoreSign(a, b) else SuffixSign(a.suffix, b.suffix)
  }

  function CompareVersions(left: string, right: string): Option<int> {
    var a, b := Normalize(left), Normalize(right);
    if a.None? || b.None? then None else Some(Sign(a.value, b.value))
  }

  function CompareCores(left: string, right: string): Option<int> {
    var a, b := Normalize(left), Normalize(right);
    if a.None? || b.None? then None else Some(CoreSign(a.value, b.value))
  }

  lemma SuffixSignLaws(a: string, b: string, c: string)
    ensures SuffixSign(b, a) == -SuffixSign(a, b)
    ensures SuffixSign(a, b) == 0 <==> a == b
    ensures SuffixSign(a, b) <= 0 && SuffixSign(b, c) <= 0 ==> SuffixSign(a, c) <= 0
  {
    StrLeTotal(a, b);
    StrLeTotal(b, c);
    StrLeTotal(a, c);
    if StrLe(a, b) && StrLe(b, c) {
      StrLeTransitive(a, b, c);
    }
    hide StrLe;
  }

  lemma SignLaws(a: Version, b: Version, c: Version)
    ensures Sign(b, a) == -Sign(a, b)
    ensures Sign(a, b) == 0 <==> a == b
    ensures Sign(a, b) <= 0 && Sign(b, c) <= 0 ==> Sign(a, c) <= 0
  {
    SuffixSignLaws(a.suffix, b.suffix, c.suffix);
    hide SuffixSign;
  }

  /**
   On versions that parse, the comparison is a total preorder: defined, antisymmetric in
   sign, transitive, and zero exactly on versions with the same normal form.
   */
  lemma CompareIsTotalPreorder(x: string, y: string, z: string)
    requires Normalize(x).Some? && Normalize(y).Some? && Normalize(z).Some?
    ensures CompareVersions(x, y).Some? && CompareVersions(y, x) == Some(-CompareVersions(x, y).value)
    ensures CompareVersions(x, y) == Some(0) <==> Normalize(x) == Normalize(y)
    ensures CompareVersions(x, y).value <= 0 && CompareVersions(y, z).value <= 0 ==> CompareVersions(x, z).value <= 0
    ensures CompareVersions(x, y).value < 0 && CompareVersions(y, z).value <= 0 ==> CompareVersions(x, z).value < 0
    ensures CompareVersions(x, y).value <= 0 && CompareVersions(y, z).value < 0 ==> CompareVersions(x, z).value < 0
  {
    var a, b, c := Normalize(x).value, Normalize(y).value, Normalize(z).value;
    SignLaws(a, b, c);
    SignLaws(b, c, a);
    SignLaws(c, a, b);
    hide Normalize, Sign;
  }

  /** The core order decides first; within one core, no suffix ranks above every suffix. */
  lemma CompareRefinesCores(x: string, y: string)
    requires Normalize(x).Some? && Normalize(y).Some?
    ensures CompareCores(x, y).Some?
    ensures CompareCores(x, y).value != 0 ==> CompareVersions(x, y) == CompareCores(x, y)
    ensures CompareVersions(x, y).value <= 0 ==> CompareCores(x, y).value <= 0
    ensures CompareCores(x, y).value == 0 && Normalize(y).value.suffix == "" ==> CompareVersions(x, y).value <= 0
  {
    hide Normalize;
  }

  // ---------------------------------------------------------------- compatibility ranges

  datatype Operator = Ge | Le | Gt | Lt | Eq

  datatype Comparator = Comparator(op: Operator, version: string)

  /** Operators are tried in the order `>=`, `<=`, `>`, `<`, `==`. */
  function ParseComparator(text: string): Option<Comparator> {
    if StartsWith(text, ">=") then Some(Comparator(Ge, Strip(text[2..])))
    else if StartsWith(text, "<=") then Some(Comparator(Le, Strip(text[2..])))
    else if StartsWith(text, ">") then Some(Comparator(Gt, Strip(text[1..])))
    else if StartsWith(text, "<") then Some(Comparator(Lt, Strip(text[1..])))
    else if StartsWith(text, "==") then Some(Comparator(Eq, Strip(text[2..])))
    else None
  }

  predicate Meets(op: Operator, sign: int) {
    match op
    case Ge => sign >= 0
    case Le => sign <= 0
    case Gt => sign > 0
    case Lt => sign < 0
    case Eq => sign == 0
  }

  /** Whether one comparator accepts the release; none when either side does not parse. */
  function Check(current: string, comparator: string): Option<bool> {
    var c := ParseComparator(comparator);
    if c.None? then None
    else
      var sign := CompareCores(current, c.value.version);
      if sign.None? then None else Some(Meets(c.value.op, sign.value))
  }

  /** The first comparator that fails or does not parse decides. */
  function CheckAll(current: string, comparators: seq<string>): Option<bool> {
    if comparators == [] then Some(true)
    else
      var first := Check(current, comparators[0]);
      if first != Some(true) then first else CheckAll(current, comparators[1..])
  }

  function Comparators(items: seq<string>): seq<string> {
    if items == [] then []
    else (if Strip(items[0]) == "" then [] else [Strip(items[0])]) + Comparators(items[1..])
  }

  /** The comparators a range text stands for. */
  function Parts(range: string): seq<string> {
    Comparators(SplitOn(range, ','))
  }

  function Compatible(current: string, range: string): Option<bool> {
    var comparators := Parts(range);
    if current == "" || range == "" || comparators == [] then None else CheckAll(current, comparators)
  }

  method IsReleaseCompatible(current: Option<string>, range: Option<string>) returns (r: Option<bool>)
    ensures r == if current.None? || range.None? then None else Compatible(current.value, range.value)
  {
    hide Check, Parts;
    if current.None? || range.None? || current.value == "" || range.value == "" {
      return None;
    }
    var comparators := Parts(range.value);
    if comparators == [] {
      return None;
    }
    for i := 0 to |comparators|
      invariant CheckAll(current.value, comparators) == CheckAll(current.value, comparators[i..])
    {
      assert comparators[i..][1..] == comparators[i + 1..];
      var verdict := Check(current.value, comparators[i]);
      if verdict != Some(true) {
        return verdict;
      }
    }
    return Some(true);
  }

  /** What each verdict means: accepted by all; or decided by the first that does not accept. */
  lemma {:induction false} CheckAllMeaning(current: string, cs: seq<string>)
    ensures CheckAll(current, cs) == Some(true) <==> forall i :: 0 <= i < |cs| ==> Check(current, cs[i]) == Some(true)
    ensures CheckAll(current, cs) != Some(true) ==>
              exists i :: 0 <= i < |cs| && Check(current, cs[i]) == CheckAll(current, cs)
                && forall j :: 0 <= j < i ==> Check(current, cs[j]) == Some(true)
  {
    hide Check;
    if cs != [] {
      CheckAllMeaning(current, cs[1..]);
      assert forall i :: 0 < i < |cs| ==> cs[i] == cs[1..][i - 1];
      if Check(current, cs[0]) == Some(true) {
        if CheckAll(current, cs) != Some(true) {
          var k :| 0 <= k < |cs[1..]| && Check(current, cs[1..][k]) == CheckAll(current, cs[1..])
            && forall j :: 0 <= j < k ==> Check(current, cs[1..][j]) == Some(true);
          assert cs[k + 1] == cs[1..][k];
          assert forall j :: 0 <= j < k + 1 ==> Check(current, cs[j]) == Some(true);
        } else {
          forall i | 0 <= i < |cs| ensures Check(current, cs[i]) == Some(true) {
            if i > 0 { assert cs[i] == cs[1..][i - 1]; }
          }
        }
      } else {
        assert Check(current, cs[0]) == CheckAll(current, cs);
      }
    }
  }

  predicate Answers(current: string, cs: seq<string>, verdict: Option<bool>) {
    exists i :: 0 <= i < |cs| && Check(current, cs[i]) == verdict
  }

  /** Some comparator rejects the release and some other gives no answer on it. */
  predicate Mixed(current: string, cs: seq<string>) {
    Answers(current, cs, Some(false)) && Answers(current, cs, None)
  }

  lemma Accepts(current: string, a: seq<string>, b: seq<string>)
    requires forall c :: c in b ==> c in a
    requires CheckAll(current, a) == Some(true)
    ensures CheckAll(current, b) == Some(true)
  {
    hide Check;
    CheckAllMeaning(current, a);
    CheckAllMeaning(current, b);
    forall i | 0 <= i < |b| ensures Check(current, b[i]) == Some(true) {
      assert b[i] in a;
    }
  }

  lemma SameAnswers(current: string, a: seq<string>, b: seq<string>, verdict: Option<bool>)
    requires multiset(a) == multiset(b)
    ensures Answers(current, a, verdict) ==> Answers(current, b, verdict)
  {
    hide Check;
    if Answers(current, a, verdict) {
      var i :| 0 <= i < |a| && Check(current, a[i]) == verdict;
      assert a[i] in multiset(b);
      var j :| 0 <= j < |b| && b[j] == a[i];
    }
  }

  /** Any comparator that does not accept decides the verdict once it stands in front. */
  lemma DecidesInFront(current: string, cs: seq<string>, verdict: Option<bool>) returns (p: seq<string>)
    requires Answers(current, cs, verdict) && verdict != Some(true)
    ensures multiset(p) == multiset(cs) && CheckAll(current, p) == verdict
  {
    hide Check;
    var i :| 0 <= i < |cs| && Check(current, cs[i]) == verdict;
    p := [cs[i]] + (cs[..i] + cs[i + 1..]);
    assert cs == cs[..i] + [cs[i]] + cs[i + 1..];
  }

  /** What is neither accepted nor mixed is decided alike in every order. */
  lemma UnmixedVerdict(current: string, a: seq<string>, b: seq<string>)
    requires multiset(a) == multiset(b) && !Mixed(current, a)
    ensures CheckAll(current, a) == CheckAll(current, b)
  {
    hide Check, Answers;
    forall c ensures c in a <==> c in b {
      assert c in multiset(a) <==> c in multiset(b);
    }
    if CheckAll(current, a) == Some(true) {
      Accepts(current, a, b);
    } else if CheckAll(current, b) == Some(true) {
      Accepts(current, b, a);
    } else {
      Decided(current, a);
      Decided(current, b);
      SameAnswers(current, b, a, CheckAll(current, b));
      NoOrUnknown(CheckAll(current, a));
      NoOrUnknown(CheckAll(current, b));
    }
  }

  lemma NoOrUnknown(verdict: Option<bool>)
    requires verdict != Some(true)
    ensures verdict == None || verdict == Some(false)
  {
    if verdict.Some? {
      assert verdict.value == true || verdict.value == false;
    }
  }

  lemma Decided(current: string, cs: seq<string>)
    requires CheckAll(current, cs) != Some(true)
    ensures Answers(current, cs, CheckAll(current, cs))
  {
    hide Check;
    CheckAllMeaning(current, cs);
  }

  /** The verdict is the same for every order of the comparators exactly when they are not mixed. */
  lemma ComparatorOrderIff(current: string, cs: seq<string>)
    ensures (forall p :: multiset(p) == multiset(cs) ==> CheckAll(current, p) == CheckAll(current, cs))
       <==> !Mixed(current, cs)
  {
    hide Check, CheckAll;
    if Mixed(current, cs) {
      var rejects := DecidesInFront(current, cs, Some(false));
      var unknown := DecidesInFront(current, cs, None);
    } else {
      forall p | multiset(p) == multiset(cs) ensures CheckAll(current, p) == CheckAll(current, cs) {
        UnmixedVerdict(current, cs, p);
      }
    }
  }

  // ---------------------------------------------------------------- order in the text of a range

  predicate Part(s: string) {
    s != "" && Trimmed(s) && ',' !in s
  }

  predicate AllParts(parts: seq<string>) {
    forall i :: 0 <= i < |parts| ==> Part(parts[i])
  }

  lemma {:induction false} ComparatorsClean(items: seq<string>)
    requires forall i :: 0 <= i < |items| ==> ',' !in items[i]
    ensures AllParts(Comparators(items))
  {
    hide Strip, Trimmed;
    if items != [] {
      ComparatorsClean(items[1..]);
      var i, j := StripWindow(items[0]);
      assert ',' !in items[0];
    }
  }

  lemma {:induction false} SplitJoined(parts: seq<string>)
    requires parts != [] && AllParts(parts)
    ensures SplitOn(Joined(parts), ',') == parts
  {
    hide Trimmed;
    var s := Joined(parts);
    assert Part(parts[0]);
    if |parts| == 1 {
      assert IndexOf(s, ',') == |s|;
    } else {
      var rest := Joined(parts[1..]);
      assert s == parts[0] + "," + rest;
      assert s[|parts[0]|] == ',' && forall i :: 0 <= i < |parts[0]| ==> s[i] == parts[0][i];
      assert IndexOf(s, ',') == |parts[0]|;
      assert s[..|parts[0]|] == parts[0] && s[|parts[0]| + 1..] == rest;
      SplitJoined(parts[1..]);
    }
  }

  lemma {:induction false} ComparatorsOfParts(parts: seq<string>)
    requires AllParts(parts)
    ensures Comparators(parts) == parts
  {
    if parts != [] {
      assert Part(parts[0]);
      StripTrimmed(parts[0]);
      hide Strip, Trimmed;
      ComparatorsOfParts(parts[1..]);
    }
  }

  lemma NoParts()
    ensures Parts("") == []
  {
    assert SplitOn("", ',') == [""];
    assert Strip("") == "" && [""][1..] == [];
  }

  /** Every list of comparators that a range can hold is held by some range text. */
  lemma PartsOfJoined(parts: seq<string>)
    requires AllParts(parts)
    ensures Parts(Joined(parts)) == parts
  {
    if parts == [] {
      NoParts();
    } else {
      SplitJoined(parts);
      ComparatorsOfParts(parts);
    }
  }

  lemma PartsClean(range: string)
    ensures AllParts(Parts(range))
  {
    SplitOnFree(range, ',');
    ComparatorsClean(SplitOn(range, ','));
  }

  lemma {:induction false} JoinedNonEmpty(parts: seq<string>)
    requires AllParts(parts) && parts != []
    ensures Joined(parts) != ""
  {
    assert Part(parts[0]);
  }

  lemma PermutedParts(a: seq<string>, b: seq<string>)
    requires multiset(a) == multiset(b) && AllParts(a)
    ensures AllParts(b)
  {
    hide Part;
    forall i | 0 <= i < |b| ensures Part(b[i]) {
      assert b[i] in multiset(a);
    }
  }

  /** `current` and `range` past the guards of the check. */
  lemma CompatibleParts(current: string, range: string)
    requires current != "" && Parts(range) != []
    ensures Compatible(current, range) == CheckAll(current, Parts(range))
  {
    NoParts();
    hide CheckAll, Parts;
  }

  lemma EmptyReleaseUnmixed(cs: seq<string>)
    ensures !Mixed("", cs)
  {
    hide ParseComparator, Strip;
    forall i | 0 <= i < |cs| ensures Check("", cs[i]) == None { }
  }

  lemma NonEmptyRangeOrder(current: string, range: string)
    requires current != "" && Parts(range) != []
    ensures (forall other :: multiset(Parts(other)) == multiset(Parts(range)) ==>
               Compatible(current, other) == Compatible(current, range))
       <==> !Mixed(current, Parts(range))
  {
    hide *;
    PartsClean(range);
    CompatibleParts(current, range);
    if Mixed(current, Parts(range)) {
      var rejecting, unknown := MixedTexts(current, range);
    } else {
      forall other | multiset(Parts(other)) == multiset(Parts(range))
        ensures Compatible(current, other) == Compatible(current, range)
      {
        assert |multiset(Parts(other))| == |multiset(Parts(range))|;
        CompatibleParts(current, other);
        UnmixedVerdict(current, Parts(range), Parts(other));
      }
    }
  }

  /** A mixed range has one order that rejects the release and one that gives no answer. */
  lemma MixedTexts(current: string, range: string) returns (rejecting: string, unknown: string)
    requires current != "" && Mixed(current, Parts(range))
    ensures multiset(Parts(rejecting)) == multiset(Parts(range)) == multiset(Parts(unknown))
    ensures Compatible(current, rejecting) == Some(false) && Compatible(current, unknown) == None
  {
    PartsClean(range);
    var cs := Parts(range);
    hide Parts, Check, CheckAll, Compatible, Joined, Part;
    var no := DecidesInFront(current, cs, Some(false));
    var none := DecidesInFront(current, cs, None);
    assert |multiset(no)| == |multiset(cs)| == |multiset(none)|;
    PermutedParts(cs, no);
    PermutedParts(cs, none);
    rejecting, unknown := Joined(no), Joined(none);
    PartsOfJoined(no);
    PartsOfJoined(none);
    CompatibleParts(current, rejecting);
    CompatibleParts(current, unknown);
  }

  /**
   A range text is answered like every other one with the same comparators in any order,
   exactly when its comparators are not mixed.
   */
  lemma RangeOrderIff(current: string, range: string)
    ensures (forall other :: multiset(Parts(other)) == multiset(Parts(range)) ==>
               Compatible(current, other) == Compatible(current, range))
       <==> !Mixed(current, Parts(range))
  {
    if current == "" {
      EmptyReleaseUnmixed(Parts(range));
    } else if Parts(range) == [] {
      assert forall other :: multiset(Parts(other)) == multiset(Parts(range)) ==> |Parts(other)| == 0;
    } else {
      NonEmptyRangeOrder(current, range);
    }
  }

  lemma CheckConvex(low: string, mid: string, high: string, comparator: string)
    requires CompareCores(low, mid).Some? && CompareCores(low, mid).value <= 0
    requires CompareCores(mid, high).Some? && CompareCores(mid, high).value <= 0
    requires Check(low, comparator) == Some(true) && Check(high, comparator) == Some(true)
    ensures Check(mid, comparator) == Some(true)
  {
    hide Normalize, ParseComparator;
  }

  /** A release between two accepted ones, in the core order, is accepted. */
  lemma CompatibleConvex(low: string, mid: string, high: string, range: string)
    requires mid != ""
    requires CompareCores(low, mid).Some? && CompareCores(low, mid).value <= 0
    requires CompareCores(mid, high).Some? && CompareCores(mid, high).value <= 0
    requires Compatible(low, range) == Some(true) && Compatible(high, range) == Some(true)
    ensures Compatible(mid, range) == Some(true)
  {
    hide CompareCores, Check, Parts;
    var cs := Parts(range);
    CheckAllMeaning(low, cs);
    CheckAllMeaning(mid, cs);
    CheckAllMeaning(high, cs);
    forall i | 0 <= i < |cs| ensures Check(mid, cs[i]) == Some(true) {
      CheckConvex(low, mid, high, cs[i]);
    }
  }

  /** Two releases with the same core are accepted by the same ranges, whatever their suffixes. */
  lemma CompatibleIgnoresSuffix(x: string, y: string, range: string)
    requires CompareCores(x, y) == Some(0)
    ensures Compatible(x, range) == Compatible(y, range)
  {
    hide Parts, CompareCores, CheckAll;
    var cs := Parts(range);
    SameCoreSameChecks(x, y, cs);
    assert x != "" && y != "" by { NonEmptyParses(x, y); }
  }

  lemma NonEmptyParses(x: string, y: string)
    requires CompareCores(x, y).Some?
    ensures x != "" && y != ""
  {
  }

  lemma SameCoreSameCheck(x: string, y: string, comparator: string)
    requires CompareCores(x, y) == Some(0)
    ensures Check(x, comparator) == Check(y, comparator)
  {
    hide Normalize, ParseComparator, Meets;
  }

  lemma {:induction false} SameCoreSameChecks(x: string, y: string, cs: seq<string>)
    requires CompareCores(x, y) == Some(0)
    ensures CheckAll(x, cs) == CheckAll(y, cs)
  {
    hide Check, CompareCores;
    if cs != [] {
      SameCoreSameCheck(x, y, cs[0]);
      SameCoreSameChecks(x, y, cs[1..]);
    }
  }

  lemma OneParses()
    ensures Normalize("1") == Some(Version(1, 0, 0, ""))
  {
    StripTrimmed("1");
    assert CoreText("1") == "1" && SuffixText("1") == "";
    assert SplitOn("1", '.') == ["1"];
    assert ("1")[..0] == "";
    assert DigitsValue("1") == 1;
    assert ["1"][1..] == [];
    assert Numbers(["1"]) == [1];
  }

  lemma ShortComparators()
    ensures ParseComparator("<1") == Some(Comparator(Lt, "1")) && ParseComparator("x") == None
  {
    StripTrimmed("1");
    assert ("<1")[1..] == "1";
    assert ("<1")[0] == '<' && (">")[0] == '>' && (">=")[0] == '>' && ("<=")[1] == '=';
    hide Strip;
  }

  lemma ShortChecks()
    ensures Check("1", "<1") == Some(false) && Check("1", "x") == None
  {
    OneParses();
    ShortComparators();
    hide Normalize, ParseComparator;
  }

  lemma ShortVerdicts()
    ensures CheckAll("1", ["<1", "x"]) == Some(false) && CheckAll("1", ["x", "<1"]) == None
  {
    ShortChecks();
    hide Check;
  }

  lemma ShortTexts()
    ensures Parts("<1,x") == ["<1", "x"] && Parts("x,<1") == ["x", "<1"]
  {
    var ab, ba := ["<1", "x"], ["x", "<1"];
    assert ab[1..] == ["x"] && ba[1..] == ["<1"];
    assert "<1" + "," + "x" == "<1,x" && "x" + "," + "<1" == "x,<1";
    assert Joined(ab) == "<1,x" && Joined(ba) == "x,<1";
    hide Parts;
    PartsOfJoined(ab);
    PartsOfJoined(ba);
  }

  /** The range `<1,x` rejects release 1, and `x,<1` gives no answer on it. */
  lemma OrderMattersExample()
    ensures Compatible("1", "<1,x") == Some(false)
    ensures Compatible("1", "x,<1") == None
  {
    hide *;
    ShortVerdicts();
    ShortTexts();
    CompatibleParts("1", "<1,x");
    CompatibleParts("1", "x,<1");
  }
}
