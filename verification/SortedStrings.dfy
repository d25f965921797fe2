/** A set of texts in ascending order of their characters. */
module SortedStrings {
  predicate Less(a: string, b: string) {
    b != "" && (a == "" || a[0] < b[0] || (a[0] == b[0] && Less(a[1..], b[1..])))
  }

  lemma {:induction false} LessIsStrict(a: string, b: string)
    ensures !(Less(a, b) && Less(b, a))
  {
    if a != "" && b != "" && a[0] == b[0] {
      LessIsStrict(a[1..], b[1..]);
    }
  }

  lemma {:induction false} LessIsTransitive(a: string, b: string, c: string)
    requires Less(a, b) && Less(b, c)
    ensures Less(a, c)
  {
    if a != "" && a[0] == b[0] == c[0] {
      LessIsTransitive(a[1..], b[1..], c[1..]);
    }
  }

  lemma {:induction false} LessIsTotal(a: string, b: string)
    ensures Less(a, b) || a == b || Less(b, a)
  {
    if a != "" && b != "" && a[0] == b[0] {
      LessIsTotal(a[1..], b[1..]);
      assert a == [a[0]] + a[1..] && b == [b[0]] + b[1..];
    }
  }

  /** In ascending order, each once. */
  predicate Ascending(s: seq<string>) {
    forall i, j :: 0 <= i < j < |s| ==> Less(s[i], s[j])
  }

  function Insert(x: string, s: seq<string>): seq<string> {
    if s == [] then [x]
    else if x == s[0] then s
    else if Less(x, s[0]) then [x] + s
    else [s[0]] + Insert(x, s[1..])
  }

  function SortedSet(list: seq<string>): seq<string> {
    if list == [] then [] else Insert(list[|list| - 1], SortedSet(list[..|list| - 1]))
  }

  lemma {:induction false} InsertFacts(x: string, s: seq<string>)
    requires Ascending(s)
    ensures Ascending(Insert(x, s)) && |Insert(x, s)| <= |s| + 1
    ensures forall y :: y in Insert(x, s) <==> y == x || y in s
  {
    if s != [] && x != s[0] {
      if Less(x, s[0]) {
        forall j | 0 <= j < |s| ensures Less(x, s[j]) {
          if j > 0 {
            LessIsTransitive(x, s[0], s[j]);
          }
        }
      } else {
        LessIsTotal(x, s[0]);
        InsertFacts(x, s[1..]);
        forall y | y in Insert(x, s[1..]) ensures Less(s[0], y) {
          if y != x {
            var j :| 0 <= j < |s[1..]| && s[1..][j] == y;
            assert s[j + 1] == y;
          }
        }
        assert s == [s[0]] + s[1..];
      }
    }
  }

  lemma {:induction false} SortedSetFacts(list: seq<string>)
    ensures Ascending(SortedSet(list)) && |SortedSet(list)| <= |list|
    ensures forall y :: y in SortedSet(list) <==> y in list
  {
    if list != [] {
      var init := list[..|list| - 1];
      SortedSetFacts(init);
      InsertFacts(list[|list| - 1], SortedSet(init));
      assert list == init + [list[|list| - 1]];
    }
  }

  lemma FirstIsLeast(s: seq<string>, y: string)
    requires Ascending(s) && y in s
    ensures y == s[0] || Less(s[0], y)
  {
  }

  lemma BothEmpty(s: seq<string>, t: seq<string>)
    requires forall y :: y in s ==> y in t
    ensures t == [] ==> s == []
  {
    if s != [] {
      assert s[0] in s;
    }
  }

  lemma RestHasTheRest(s: seq<string>, t: seq<string>)
    requires s != [] && t != [] && Ascending(s) && Ascending(t) && s[0] == t[0] && forall y :: y in s ==> y in t
    ensures forall y :: y in s[1..] ==> y in t[1..]
  {
    forall y | y in s[1..] ensures y in t[1..] {
      var i :| 0 <= i < |s[1..]| && s[1..][i] == y;
      assert s[i + 1] == y && Less(s[0], y) && y in s;
      var j :| 0 <= j < |t| && t[j] == y;
      LessIsStrict(y, y);
      assert j > 0 && t[1..][j - 1] == y;
    }
  }

  /** The elements alone decide the sequence. */
  lemma {:induction false} AscendingIsUnique(s: seq<string>, t: seq<string>)
    requires Ascending(s) && Ascending(t) && forall y :: y in s <==> y in t
    ensures s == t
  {
    BothEmpty(s, t);
    BothEmpty(t, s);
    if s != [] {
      assert s[0] in t;
      FirstIsLeast(t, s[0]);
      FirstIsLeast(s, t[0]);
      LessIsStrict(s[0], t[0]);
      RestHasTheRest(s, t);
      RestHasTheRest(t, s);
      AscendingIsUnique(s[1..], t[1..]);
      assert s == [s[0]] + s[1..] && t == [t[0]] + t[1..];
    }
  }
}
