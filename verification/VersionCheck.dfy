/**
 The version compatibility check of `governance_version_check.py`. Main results: raising the
 versions of a manifest never disables a feature, adds a missing migration or worsens the
 verdict; and the lists it reports partition the features.
 */
module VersionCheck {
  import opened Text
  import opened Sorting
  import opened Versions

  // ---------------------------------------------------------------- version tuples

  /** Digits with single underscores between them, as `int(...)` accepts. */
  predicate IntBody(s: string) {
    && s != "" && s[0] != '_' && s[|s| - 1] != '_'
    && (forall i :: 0 <= i < |s| ==> IsDigit(s[i]) || s[i] == '_')
    && (forall i :: 0 < i < |s| ==> !(s[i - 1] == '_' && s[i] == '_'))
  }

  function BodyValue(s: string): nat
    requires forall i :: 0 <= i < |s| ==> IsDigit(s[i]) || s[i] == '_'
  {
    if s == "" then 0
    else
      var last := s[|s| - 1];
      assert IsDigit(last) || last == '_';
      if last == '_' then BodyValue(s[..|s| - 1])
      else BodyValue(s[..|s| - 1]) * 10 + (last as int - '0' as int)
  }

  /** `int(text)`, or none where it raises ValueError. */
  function ParseInt(text: string): Option<int> {
    var s := Strip(text);
    var negative := StartsWith(s, "-");
    var body := if negative || StartsWith(s, "+") then s[1..] else s;
    if !IntBody(body) then None
    else
      var value: int := BodyValue(body);
      Some(if negative then -value else value)
  }

  function ParseInts(parts: seq<string>): Option<seq<int>> {
    if parts == [] then Some([])
    else
      var first, rest := ParseInt(parts[0]), ParseInts(parts[1..]);
      if first.None? || rest.None? then None else Some([first.value] + rest.value)
  }

  function ParseVersion(v: string): Option<seq<int>> {
    ParseInts(SplitOn(Strip(v), '.'))
  }

  function Padded(a: seq<int>, n: nat): (r: seq<int>)
    ensures |r| == if |a| >= n then |a| else n
    ensures forall i :: 0 <= i < |r| ==> r[i] == ZeroAt(a, i)
  {
    if |a| >= n then a else a + seq(n - |a|, i => 0)
  }

  function ZeroAt(a: seq<int>, i: nat): int {
    if i < |a| then a[i] else 0
  }

  /** Tuple comparison. */
  predicate TupleGe(a: seq<int>, b: seq<int>) {
    b == [] || (a != [] && (a[0] > b[0] || (a[0] == b[0] && TupleGe(a[1..], b[1..]))))
  }

  /** At least as new, missing components counting as zero. */
  predicate AtLeast(a: seq<int>, b: seq<int>) {
    var n := if |a| > |b| then |a| else |b|;
    TupleGe(Padded(a, n), Padded(b, n))
  }

  /** Whether a version meets a `>=` requirement; none where the source raises. */
  function Satisfies(actual: string, requirement: string): Option<bool> {
    var r := Strip(requirement);
    if !StartsWith(r, ">=") then None
    else
      var req, act := ParseVersion(r[2..]), ParseVersion(actual);
      if req.None? || act.None? then None else Some(AtLeast(act.value, req.value))
  }

  /** Comparison from component `i` up to `n`. */
  predicate GeFrom(a: seq<int>, b: seq<int>, i: nat, n: nat)
    decreases n - i
  {
    i >= n || ZeroAt(a, i) > ZeroAt(b, i) || (ZeroAt(a, i) == ZeroAt(b, i) && GeFrom(a, b, i + 1, n))
  }

  lemma {:induction false} TupleIsGeFrom(a: seq<int>, b: seq<int>, n: nat, i: nat)
    requires i <= n == |a| == |b|
    ensures TupleGe(a[i..], b[i..]) == GeFrom(a, b, i, n)
    decreases n - i
  {
    if i < n {
      assert a[i..][1..] == a[i + 1..] && b[i..][1..] == b[i + 1..];
      TupleIsGeFrom(a, b, n, i + 1);
    }
  }

  lemma {:induction false} GeFromSame(a: seq<int>, b: seq<int>, c: seq<int>, d: seq<int>, i: nat, n: nat)
    requires forall k :: i <= k < n ==> ZeroAt(a, k) == ZeroAt(c, k) && ZeroAt(b, k) == ZeroAt(d, k)
    ensures GeFrom(a, b, i, n) == GeFrom(c, d, i, n)
    decreases n - i
  {
    if i < n {
      hide ZeroAt;
      GeFromSame(a, b, c, d, i + 1, n);
    }
  }

  lemma {:induction false} GeFromBeyond(a: seq<int>, b: seq<int>, i: nat, n: nat, m: nat)
    requires n <= m && |a| <= n && |b| <= n
    ensures GeFrom(a, b, i, n) == GeFrom(a, b, i, m)
    decreases m - i
  {
    if i < m {
      GeFromBeyond(a, b, i + 1, n, m);
    }
  }

  lemma AtLeastIsGeFrom(a: seq<int>, b: seq<int>, n: nat)
    requires |a| <= n && |b| <= n
    ensures AtLeast(a, b) == GeFrom(a, b, 0, n)
  {
    var m := if |a| > |b| then |a| else |b|;
    var pa, pb := Padded(a, m), Padded(b, m);
    assert pa[0..] == pa && pb[0..] == pb;
    TupleIsGeFrom(pa, pb, m, 0);
    GeFromSame(pa, pb, a, b, 0, m);
    GeFromBeyond(a, b, 0, m, n);
  }

  lemma {:induction false} GeFromTransitive(a: seq<int>, b: seq<int>, c: seq<int>, i: nat, n: nat)
    requires GeFrom(a, b, i, n) && GeFrom(b, c, i, n)
    ensures GeFrom(a, c, i, n)
    decreases n - i
  {
    if i < n && ZeroAt(a, i) == ZeroAt(b, i) == ZeroAt(c, i) {
      GeFromTransitive(a, b, c, i + 1, n);
    }
  }

  /** The padded order is transitive, also over tuples of different lengths. */
  lemma AtLeastTransitive(a: seq<int>, b: seq<int>, c: seq<int>)
    requires AtLeast(a, b) && AtLeast(b, c)
    ensures AtLeast(a, c)
  {
    hide AtLeast, ZeroAt;
    var n := |a| + |b| + |c|;
    AtLeastIsGeFrom(a, b, n);
    AtLeastIsGeFrom(b, c, n);
    AtLeastIsGeFrom(a, c, n);
    GeFromTransitive(a, b, c, 0, n);
  }

  // ---------------------------------------------------------------- features

  type Manifest = map<string, string>

  datatype Requirement = Requirement(key: string, text: string)

  datatype Feature = Feature(name: string, requires_: seq<Requirement>, core: bool)

  predicate Met(m: Manifest, r: Requirement) {
    r.key in m && Satisfies(m[r.key], r.text) == Some(true)
  }

  predicate AllMet(m: Manifest, rs: seq<Requirement>) {
    forall i :: 0 <= i < |rs| ==> Met(m, rs[i])
  }

  predicate Enabled(m: Manifest, f: Feature) {
    AllMet(m, f.requires_)
  }

  function Migration(r: Requirement): string {
    r.key + ":" + r.text
  }

  /** One text for every requirement that is not met. */
  function Unmet(m: Manifest, rs: seq<Requirement>): set<string> {
    if rs == [] then {}
    else Unmet(m, rs[..|rs| - 1]) + (if Met(m, rs[|rs| - 1]) then {} else {Migration(rs[|rs| - 1])})
  }

  /** The migrations the manifest is missing. */
  function MissingOf(m: Manifest, features: seq<Feature>): set<string> {
    if features == [] then {}
    else MissingOf(m, features[..|features| - 1]) + Unmet(m, features[|features| - 1].requires_)
  }

  function EnabledNames(m: Manifest, features: seq<Feature>): seq<string> {
    if features == [] then []
    else (if Enabled(m, features[0]) then [features[0].name] else []) + EnabledNames(m, features[1..])
  }

  function DisabledNames(m: Manifest, features: seq<Feature>): seq<string> {
    if features == [] then []
    else (if Enabled(m, features[0]) then [] else [features[0].name]) + DisabledNames(m, features[1..])
  }

  datatype Verdict = Compatible | CompatibleWithDegradation | MigrationRequired

  function Severity(v: Verdict): nat {
    match v case Compatible => 0 case CompatibleWithDegradation => 1 case MigrationRequired => 2
  }

  function DetermineVerdict(disabled: seq<string>, coreNames: set<string>): Verdict {
    if disabled == [] then Compatible
    else if exists i :: 0 <= i < |disabled| && disabled[i] in coreNames then MigrationRequired
    else CompatibleWithDegradation
  }

  function CoreNames(features: seq<Feature>): set<string> {
    set f | f in features && f.core :: f.name
  }

  function VerdictOf(m: Manifest, features: seq<Feature>): Verdict {
    DetermineVerdict(Sort(DisabledNames(m, features)), CoreNames(features))
  }

  // ---------------------------------------------------------------- the evaluation loop

  lemma UnmetStep(m: Manifest, rs: seq<Requirement>, i: nat)
    requires i < |rs|
    ensures Unmet(m, rs[..i + 1]) == Unmet(m, rs[..i]) + (if Met(m, rs[i]) then {} else {Migration(rs[i])})
    ensures AllMet(m, rs[..i + 1]) <==> AllMet(m, rs[..i]) && Met(m, rs[i])
  {
    hide Met, Migration;
    assert rs[..i + 1][..i] == rs[..i];
    assert rs[..i + 1] == rs[..i] + [rs[i]];
  }

  method EvaluateFeature(m: Manifest, f: Feature) returns (ok: bool, missing: set<string>)
    ensures ok == Enabled(m, f) && missing == Unmet(m, f.requires_)
  {
    ok, missing := true, {};
    for i := 0 to |f.requires_|
      invariant ok == AllMet(m, f.requires_[..i])
      invariant missing == Unmet(m, f.requires_[..i])
    {
      hide Satisfies, Migration, Unmet, AllMet;
      var r := f.requires_[i];
      UnmetStep(m, f.requires_, i);
      if r.key !in m {
        ok := false;
        missing := missing + {Migration(r)};
        continue;
      }
      var satisfied := Satisfies(m[r.key], r.text);
      if satisfied != Some(true) {
        ok := false;
        missing := missing + {Migration(r)};
      }
    }
    assert f.requires_[..|f.requires_|] == f.requires_;
  }

  lemma FeatureStep(m: Manifest, features: seq<Feature>, i: nat)
    requires i < |features|
    ensures EnabledNames(m, features[i..])
         == if Enabled(m, features[i]) then [features[i].name] + EnabledNames(m, features[i + 1..])
            else EnabledNames(m, features[i + 1..])
    ensures DisabledNames(m, features[i..])
         == if Enabled(m, features[i]) then DisabledNames(m, features[i + 1..])
            else [features[i].name] + DisabledNames(m, features[i + 1..])
    ensures MissingOf(m, features[..i + 1]) == MissingOf(m, features[..i]) + Unmet(m, features[i].requires_)
  {
    hide Enabled, Unmet;
    assert features[i..][1..] == features[i + 1..];
    assert features[..i + 1][..i] == features[..i];
  }

  method ClassifyFeatures(m: Manifest, features: seq<Feature>)
      returns (on: seq<string>, off: seq<string>, migrations: set<string>)
    ensures on == EnabledNames(m, features) && off == DisabledNames(m, features)
    ensures migrations == MissingOf(m, features)
  {
    on, off, migrations := [], [], {};
    assert features[0..] == features && features[..0] == [];
    for i := 0 to |features|
      invariant on + EnabledNames(m, features[i..]) == EnabledNames(m, features)
      invariant off + DisabledNames(m, features[i..]) == DisabledNames(m, features)
      invariant migrations == MissingOf(m, features[..i])
    {
      hide *;
      FeatureStep(m, features, i);
      var ok, more := EvaluateFeature(m, features[i]);
      migrations := migrations + more;
      var name := features[i].name;
      if ok {
        Associative(on, [name], EnabledNames(m, features[i + 1..]));
        on := on + [name];
      } else {
        Associative(off, [name], DisabledNames(m, features[i + 1..]));
        off := off + [name];
      }
    }
    hide Met, Enabled, Unmet;
    assert features[..|features|] == features && features[|features|..] == [];
    assert on + [] == on && off + [] == off;
  }

  method EvaluateFeatures(m: Manifest, features: seq<Feature>)
      returns (enabled: seq<string>, disabled: seq<string>, missing: seq<string>)
    ensures enabled == Sort(EnabledNames(m, features)) && disabled == Sort(DisabledNames(m, features))
    ensures StrictlySorted(missing) && forall x :: x in missing <==> x in MissingOf(m, features)
  {
    hide *;
    var on, off, migrations := ClassifyFeatures(m, features);
    missing := SortSet(migrations);
    enabled, disabled := Sort(on), Sort(off);
  }

  // ---------------------------------------------------------------- what the lists mean

  function NamesOf(features: seq<Feature>): seq<string> {
    if features == [] then [] else [features[0].name] + NamesOf(features[1..])
  }

  lemma MultisetCons(name: string, names: seq<string>)
    ensures multiset([name] + names) == multiset{name} + multiset(names)
  {
  }

  lemma NamesStep(m: Manifest, features: seq<Feature>)
    requires features != []
    ensures NamesOf(features) == [features[0].name] + NamesOf(features[1..])
    ensures Enabled(m, features[0]) ==>
              && EnabledNames(m, features) == [features[0].name] + EnabledNames(m, features[1..])
              && DisabledNames(m, features) == DisabledNames(m, features[1..])
    ensures !Enabled(m, features[0]) ==>
              && EnabledNames(m, features) == EnabledNames(m, features[1..])
              && DisabledNames(m, features) == [features[0].name] + DisabledNames(m, features[1..])
  {
    hide Enabled;
  }

  lemma {:induction false} NamesPartition(m: Manifest, features: seq<Feature>)
    ensures multiset(EnabledNames(m, features)) + multiset(DisabledNames(m, features)) == multiset(NamesOf(features))
  {
    if features != [] {
      hide *;
      var name := features[0].name;
      NamesPartition(m, features[1..]);
      NamesStep(m, features);
      MultisetCons(name, NamesOf(features[1..]));
      if Enabled(m, features[0]) {
        MultisetCons(name, EnabledNames(m, features[1..]));
      } else {
        MultisetCons(name, DisabledNames(m, features[1..]));
      }
    }
  }

  lemma {:induction false} UnmetEmpty(m: Manifest, rs: seq<Requirement>)
    ensures Unmet(m, rs) == {} <==> forall i :: 0 <= i < |rs| ==> Met(m, rs[i])
  {
    hide Met, Migration;
    if rs != [] {
      var n := |rs| - 1;
      UnmetEmpty(m, rs[..n]);
      assert Unmet(m, rs) == {} <==> Unmet(m, rs[..n]) == {} && Met(m, rs[n]);
      assert forall i :: 0 <= i < n ==> rs[i] == rs[..n][i];
    }
  }

  lemma {:induction false} DisabledAppend(m: Manifest, a: seq<Feature>, f: Feature)
    ensures DisabledNames(m, a + [f]) == DisabledNames(m, a) + (if Enabled(m, f) then [] else [f.name])
  {
    hide Enabled;
    if a == [] {
      assert [f][1..] == [] && a + [f] == [f];
    } else {
      assert (a + [f])[0] == a[0] && (a + [f])[1..] == a[1..] + [f];
      DisabledAppend(m, a[1..], f);
    }
  }

  lemma {:induction false} MissingIffDisabled(m: Manifest, features: seq<Feature>)
    ensures MissingOf(m, features) == {} <==> DisabledNames(m, features) == []
  {
    if features != [] {
      var n := |features| - 1;
      var f := features[n];
      UnmetEmpty(m, f.requires_);
      assert Enabled(m, f) <==> Unmet(m, f.requires_) == {};
      hide Enabled, Unmet;
      MissingIffDisabled(m, features[..n]);
      assert features == features[..n] + [f];
      DisabledAppend(m, features[..n], f);
    }
  }

  /** Enabled and disabled names together are the features', and migrations are missing iff one is disabled. */
  lemma FeaturesPartition(m: Manifest, features: seq<Feature>)
    ensures multiset(Sort(EnabledNames(m, features))) + multiset(Sort(DisabledNames(m, features)))
         == multiset(NamesOf(features))
    ensures MissingOf(m, features) == {} <==> VerdictOf(m, features) == Compatible
  {
    hide *;
    NamesPartition(m, features);
    SortSorted(EnabledNames(m, features));
    SortSorted(DisabledNames(m, features));
    MissingIffDisabled(m, features);
    VerdictCompatible(m, features);
  }

  lemma VerdictCompatible(m: Manifest, features: seq<Feature>)
    ensures VerdictOf(m, features) == Compatible <==> DisabledNames(m, features) == []
  {
    var off := DisabledNames(m, features);
    SortSorted(off);
    hide Sort, DisabledNames, Sorted;
    assert |multiset(Sort(off))| == |Sort(off)| && |multiset(off)| == |off|;
  }

  /** Every entry that parses is replaced by one at least as new; the others may change freely. */
  ghost predicate Raises(was: Manifest, now: Manifest) {
    forall key :: key in was && ParseVersion(was[key]).Some? ==>
      key in now && ParseVersion(now[key]).Some?
      && AtLeast(ParseVersion(now[key]).value, ParseVersion(was[key]).value)
  }

  lemma MetStaysMet(was: Manifest, now: Manifest, r: Requirement)
    requires Raises(was, now) && Met(was, r)
    ensures Met(now, r)
  {
    hide AtLeast, ParseVersion, Strip;
    var req := ParseVersion(Strip(r.text)[2..]).value;
    AtLeastTransitive(ParseVersion(now[r.key]).value, ParseVersion(was[r.key]).value, req);
  }

  lemma {:induction false} DisabledShrinks(was: Manifest, now: Manifest, features: seq<Feature>)
    requires Raises(was, now)
    ensures forall n :: n in DisabledNames(now, features) ==> n in DisabledNames(was, features)
    ensures forall n :: n in EnabledNames(was, features) ==> n in EnabledNames(now, features)
  {
    if features != [] {
      if Enabled(was, features[0]) {
        forall i | 0 <= i < |features[0].requires_| ensures Met(now, features[0].requires_[i]) {
          MetStaysMet(was, now, features[0].requires_[i]);
        }
        assert Enabled(now, features[0]);
      }
      hide Met, Enabled, Raises;
      DisabledShrinks(was, now, features[1..]);
    }
  }

  /** Raising versions never disables a feature, adds a migration, or worsens the verdict. */
  lemma RaisingNeverHurts(was: Manifest, now: Manifest, features: seq<Feature>)
    requires Raises(was, now)
    ensures forall n :: n in EnabledNames(was, features) ==> n in EnabledNames(now, features)
    ensures forall n :: n in DisabledNames(now, features) ==> n in DisabledNames(was, features)
    ensures MissingOf(now, features) <= MissingOf(was, features)
    ensures Severity(VerdictOf(now, features)) <= Severity(VerdictOf(was, features))
  {
    DisabledShrinks(was, now, features);
    MissingShrinks(was, now, features);
    hide Raises, EnabledNames, DisabledNames, MissingOf, Sort, CoreNames;
    var a, b := DisabledNames(was, features), DisabledNames(now, features);
    forall n | n in Sort(b) ensures n in Sort(a) {
      SortMembers(b, n);
      SortMembers(a, n);
    }
    VerdictMonotone(Sort(a), Sort(b), CoreNames(features));
  }

  lemma VerdictMonotone(a: seq<string>, b: seq<string>, coreNames: set<string>)
    requires forall n :: n in b ==> n in a
    ensures Severity(DetermineVerdict(b, coreNames)) <= Severity(DetermineVerdict(a, coreNames))
  {
    if b != [] {
      assert b[0] in a;
    }
    if i :| 0 <= i < |b| && b[i] in coreNames {
      assert b[i] in a;
      var k :| 0 <= k < |a| && a[k] == b[i];
    }
  }

  lemma {:induction false} UnmetShrinks(was: Manifest, now: Manifest, rs: seq<Requirement>)
    requires Raises(was, now)
    ensures Unmet(now, rs) <= Unmet(was, rs)
  {
    if rs != [] {
      var r := rs[|rs| - 1];
      if Met(was, r) {
        MetStaysMet(was, now, r);
      }
      hide Met, Migration, Raises;
      UnmetShrinks(was, now, rs[..|rs| - 1]);
    }
  }

  lemma {:induction false} MissingShrinks(was: Manifest, now: Manifest, features: seq<Feature>)
    requires Raises(was, now)
    ensures MissingOf(now, features) <= MissingOf(was, features)
  {
    if features != [] {
      hide Unmet, Raises;
      UnmetShrinks(was, now, features[|features| - 1].requires_);
      MissingShrinks(was, now, features[..|features| - 1]);
    }
  }
}
