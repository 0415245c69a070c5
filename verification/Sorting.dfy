/** Python's `sorted` on strings and on sets of strings. */
module Sorting {
  import opened Text

  predicate Below(x: string, s: seq<string>) {
    forall y :: y in s ==> StrLe(x, y)
  }

  predicate Sorted(s: seq<string>) {
    s == [] || (Below(s[0], s[1..]) && Sorted(s[1..]))
  }

  /** Sorted and without repetition. */
  predicate StrictlySorted(s: seq<string>) {
    s == [] || (Below(s[0], s[1..]) && s[0] !in s[1..] && StrictlySorted(s[1..]))
  }

  /** `x` after every element not above it. */
  function Insert(s: seq<string>, x: string): seq<string> {
    if s == [] then [x]
    else if StrLe(s[0], x) then [s[0]] + Insert(s[1..], x)
    else [x] + s
  }

  function Sort(s: seq<string>): seq<string> {
    if s == [] then [] else Insert(Sort(s[..|s| - 1]), s[|s| - 1])
  }

  lemma {:induction false} InsertContents(s: seq<string>, x: string)
    ensures multiset(Insert(s, x)) == multiset(s) + multiset{x}
  {
    hide StrLe;
    if s != [] {
      InsertContents(s[1..], x);
      assert s == [s[0]] + s[1..];
    }
  }

  lemma InsertMembers(s: seq<string>, x: string, y: string)
    ensures y in Insert(s, x) <==> y in s || y == x
  {
    InsertContents(s, x);
    assert y in Insert(s, x) <==> y in multiset(Insert(s, x));
    hide Insert;
  }

  lemma BelowAfterInsert(a: string, s: seq<string>, x: string)
    requires Below(a, s) && StrLe(a, x)
    ensures Below(a, Insert(s, x))
  {
    hide StrLe, Insert;
    forall y | y in Insert(s, x) ensures StrLe(a, y) { InsertMembers(s, x, y); }
  }

  lemma BelowTransitive(x: string, a: string, s: seq<string>)
    requires StrLe(x, a) && Below(a, s)
    ensures Below(x, s)
  {
    forall y | y in s ensures StrLe(x, y) { StrLeTransitive(x, a, y); }
  }

  lemma {:induction false} InsertSorted(s: seq<string>, x: string)
    requires Sorted(s)
    ensures Sorted(Insert(s, x))
  {
    hide StrLe, Below;
    if s == [] {
      assert Below(x, []) by { EmptyAbove(x); }
      assert [x][1..] == [];
    } else {
      StrLeTotal(s[0], x);
      if StrLe(s[0], x) {
        InsertSorted(s[1..], x);
        BelowAfterInsert(s[0], s[1..], x);
        assert Insert(s, x)[1..] == Insert(s[1..], x);
      } else {
        BelowTransitive(x, s[0], s[1..]);
        BelowCons(x, s[0], s[1..]);
        assert s == [s[0]] + s[1..];
        assert Insert(s, x)[1..] == s;
      }
    }
  }

  lemma EmptyAbove(x: string)
    ensures Below(x, [])
  {
  }

  lemma BelowCons(x: string, a: string, s: seq<string>)
    requires StrLe(x, a) && Below(x, s)
    ensures Below(x, [a] + s)
  {
  }

  lemma {:induction false} SortSorted(s: seq<string>)
    ensures Sorted(Sort(s)) && multiset(Sort(s)) == multiset(s)
  {
    if s != [] {
      var n := |s| - 1;
      SortSorted(s[..n]);
      InsertSorted(Sort(s[..n]), s[n]);
      InsertContents(Sort(s[..n]), s[n]);
      assert s == s[..n] + [s[n]];
      hide Insert, Sorted;
    }
  }

  lemma SortMembers(s: seq<string>, y: string)
    ensures y in Sort(s) <==> y in s
  {
    SortSorted(s);
    hide Sort;
    assert y in Sort(s) <==> y in multiset(Sort(s));
  }

  /** There is one strictly sorted sequence for a set of strings. */
  lemma {:induction false} StrictlySortedUnique(a: seq<string>, b: seq<string>)
    requires StrictlySorted(a) && StrictlySorted(b) && forall x :: x in a <==> x in b
    ensures a == b
  {
    hide StrLe;
    if a != [] && b != [] {
      assert a == [a[0]] + a[1..] && b == [b[0]] + b[1..];
      assert a[0] in b && b[0] in a;
      StrLeTotal(a[0], b[0]);
      assert a[0] == b[0];
      forall x ensures x in a[1..] <==> x in b[1..] {
        assert x in a <==> x == a[0] || x in a[1..];
        assert x in b <==> x == b[0] || x in b[1..];
      }
      StrictlySortedUnique(a[1..], b[1..]);
    }
  }

  /** `sorted` of a set, whatever order the set is walked in. */
  method SortSet(s: set<string>) returns (r: seq<string>)
    ensures StrictlySorted(r) && forall x :: x in r <==> x in s
  {
    r := [];
    var left := s;
    while left != {}
      invariant left <= s && StrictlySorted(r)
      invariant forall x :: x in r <==> x in s - left
      decreases |left|
    {
      hide StrLe, Insert, StrictlySorted;
      var x :| x in left;
      InsertDistinct(r, x);
      forall y ensures y in Insert(r, x) <==> y in r || y == x { InsertMembers(r, x, y); }
      r := Insert(r, x);
      left := left - {x};
    }
  }

  lemma {:induction false} InsertDistinct(s: seq<string>, x: string)
    requires StrictlySorted(s) && x !in s
    ensures StrictlySorted(Insert(s, x))
  {
    hide StrLe, Below;
    if s == [] {
      EmptyAbove(x);
      assert [x][1..] == [];
    } else {
      StrLeTotal(s[0], x);
      if StrLe(s[0], x) {
        InsertDistinct(s[1..], x);
        BelowAfterInsert(s[0], s[1..], x);
        InsertMembers(s[1..], x, s[0]);
        assert Insert(s, x)[1..] == Insert(s[1..], x);
      } else {
        BelowTransitive(x, s[0], s[1..]);
        BelowCons(x, s[0], s[1..]);
        assert s == [s[0]] + s[1..];
        assert Insert(s, x)[1..] == s;
      }
    }
  }
}
