/** Texts joined by a separator can be taken apart again at its first occurrence. */
module Separators {
  /** Where the character stands first, or the end. */
  function First(c: char, s: string): (i: nat)
    ensures i <= |s|
  {
    if s == "" || s[0] == c then 0 else 1 + First(c, s[1..])
  }

  lemma {:induction false} FirstAfter(c: char, a: string, rest: string)
    requires c !in a
    ensures First(c, a + [c] + rest) == |a|
  {
    if a != "" {
      FirstAfter(c, a[1..], rest);
      assert (a + [c] + rest)[1..] == a[1..] + [c] + rest;
    }
  }

  lemma SplitAtFirst(c: char, a: string, rest: string, b: string, rest': string)
    requires c !in a && c !in b && a + [c] + rest == b + [c] + rest'
    ensures a == b && rest == rest'
  {
    FirstAfter(c, a, rest);
    FirstAfter(c, b, rest');
    var s, s' := a + [c] + rest, b + [c] + rest';
    assert s[..|a|] == a && s'[..|b|] == b;
    assert s[|a| + 1..] == rest && s'[|b| + 1..] == rest';
  }
}
