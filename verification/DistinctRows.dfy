/** SELECT DISTINCT ON: sort by the key and then by a tie-break, keep the first row of every key.
    What that leaves, and when it does not depend on the order in which the rows were scanned. */
module DistinctRows {
  /** `keyLe` orders the keys; `tie` orders rows of the same key, the one to keep first. */
  datatype Order<!R(!new), !K(==, !new)> = Order(key: R -> K, keyLe: (K, K) -> bool, tie: (R, R) -> bool) {
    predicate Le(a: R, b: R) {
      if key(a) == key(b) then tie(a, b) else keyLe(key(a), key(b))
    }

    ghost predicate Valid() {
      && (forall k, l :: keyLe(k, l) || keyLe(l, k))
      && (forall k, l :: keyLe(k, l) && keyLe(l, k) ==> k == l)
      && (forall k, l, m :: keyLe(k, l) && keyLe(l, m) ==> keyLe(k, m))
      && (forall a, b :: tie(a, b) || tie(b, a))
      && (forall a, b, c :: tie(a, b) && tie(b, c) ==> tie(a, c))
    }

    /** No two different rows of a key are tied. */
    ghost predicate BreaksTies(rows: seq<R>) {
      forall a, b :: a in rows && b in rows && key(a) == key(b) && tie(a, b) && tie(b, a) ==> a == b
    }
  }

  function Insert<R(!new), K(==, !new)>(o: Order<R, K>, r: R, sorted: seq<R>): (s: seq<R>)
    ensures multiset(s) == multiset(sorted) + multiset{r}
  {
    if sorted == [] || o.Le(r, sorted[0]) then [r] + sorted
    else
      assert sorted == [sorted[0]] + sorted[1..];
      [sorted[0]] + Insert(o, r, sorted[1..])
  }

  function Sort<R(!new), K(==, !new)>(o: Order<R, K>, rows: seq<R>): (s: seq<R>)
    ensures multiset(s) == multiset(rows)
  {
    if rows == [] then []
    else
      assert rows == [rows[0]] + rows[1..];
      Insert(o, rows[0], Sort(o, rows[1..]))
  }

  function FirstOfEach<R(!new), K(==, !new)>(o: Order<R, K>, sorted: seq<R>): seq<R> {
    if sorted == [] then []
    else
      var m := |sorted| - 1;
      var kept := FirstOfEach(o, sorted[..m]);
      if m > 0 && o.key(sorted[m - 1]) == o.key(sorted[m]) then kept else kept + [sorted[m]]
  }

  function DistinctOn<R(!new), K(==, !new)>(o: Order<R, K>, rows: seq<R>): seq<R> {
    FirstOfEach(o, Sort(o, rows))
  }

  // ---------------------------------------------------------------------------
  // Sorting
  // ---------------------------------------------------------------------------

  ghost predicate Sorted<R(!new), K(!new)>(o: Order<R, K>, s: seq<R>) {
    forall i, j :: 0 <= i < j < |s| ==> o.Le(s[i], s[j])
  }

  lemma {:induction false} InsertSorts<R(!new), K(!new)>(o: Order<R, K>, r: R, sorted: seq<R>)
    requires o.Valid() && Sorted(o, sorted)
    ensures Sorted(o, Insert(o, r, sorted))
  {
    if sorted != [] {
      if o.Le(r, sorted[0]) {
        forall j | 0 <= j < |sorted| ensures o.Le(r, sorted[j]) {
        }
      } else {
        InsertSorts(o, r, sorted[1..]);
        var rest := Insert(o, r, sorted[1..]);
        forall j | 0 <= j < |rest| ensures o.Le(sorted[0], rest[j]) {
          assert rest[j] in multiset(rest);
          assert rest[j] == r || rest[j] in sorted[1..];
        }
      }
    }
  }

  lemma {:induction false} SortSorts<R(!new), K(!new)>(o: Order<R, K>, rows: seq<R>)
    requires o.Valid()
    ensures Sorted(o, Sort(o, rows))
  {
    if rows != [] {
      SortSorts(o, rows[1..]);
      InsertSorts(o, rows[0], Sort(o, rows[1..]));
    }
  }

  lemma SortHas<R(!new), K(!new)>(o: Order<R, K>, rows: seq<R>, r: R)
    ensures r in Sort(o, rows) <==> r in rows
  {
    assert r in Sort(o, rows) <==> r in multiset(Sort(o, rows));
    assert r in rows <==> r in multiset(rows);
  }

  lemma SameElements<R>(s: seq<R>, t: seq<R>, r: R)
    requires multiset(s) == multiset(t)
    ensures r in s <==> r in t
  {
    assert r in s <==> r in multiset(s);
    assert r in t <==> r in multiset(t);
  }

  lemma SameHead<R(!new), K(!new)>(o: Order<R, K>, s: seq<R>, t: seq<R>)
    requires o.Valid() && Sorted(o, s) && Sorted(o, t) && o.BreaksTies(s)
    requires s != [] && t != [] && s[0] in t && t[0] in s
    ensures s[0] == t[0]
  {
    assert o.Le(t[0], s[0]) && o.Le(s[0], t[0]);
  }

  lemma TailOf<R(!new), K(!new)>(o: Order<R, K>, s: seq<R>)
    requires s != [] && Sorted(o, s)
    ensures s == [s[0]] + s[1..] && multiset(s[1..]) == multiset(s) - multiset{s[0]}
    ensures Sorted(o, s[1..]) && (o.BreaksTies(s) ==> o.BreaksTies(s[1..]))
  {
    assert s == [s[0]] + s[1..];
  }

  /** Two sorted arrangements of the same rows are the same, if nothing is tied. */
  lemma {:induction false} SortedIsUnique<R(!new), K(!new)>(o: Order<R, K>, s: seq<R>, t: seq<R>)
    requires o.Valid() && Sorted(o, s) && Sorted(o, t) && multiset(s) == multiset(t) && o.BreaksTies(s)
    ensures s == t
  {
    if s == [] || t == [] {
      assert |multiset(s)| == |s| && |multiset(t)| == |t|;
    } else {
      SameElements(s, t, s[0]);
      SameElements(s, t, t[0]);
      SameHead(o, s, t);
      TailOf(o, s);
      TailOf(o, t);
      SortedIsUnique(o, s[1..], t[1..]);
    }
  }

  // ---------------------------------------------------------------------------
  // What is left
  // ---------------------------------------------------------------------------

  /** A kept row of the same key that comes no later. */
  predicate Represents<R(!new), K(==, !new)>(o: Order<R, K>, kept: seq<R>, r: R) {
    exists i :: 0 <= i < |kept| && o.key(kept[i]) == o.key(r) && o.tie(kept[i], r)
  }

  /** One row per key, each of them the first of its key among `rows`, in the order of the keys. */
  ghost predicate KeepsFirsts<R(!new), K(!new)>(o: Order<R, K>, rows: seq<R>, kept: seq<R>) {
    && (forall r :: r in kept ==> r in rows)
    && (forall i, j :: 0 <= i < j < |kept| ==>
          o.key(kept[i]) != o.key(kept[j]) && o.keyLe(o.key(kept[i]), o.key(kept[j])))
    && (forall r :: r in rows ==> Represents(o, kept, r))
  }

  lemma LastOfNewKey<R(!new), K(!new)>(o: Order<R, K>, sorted: seq<R>, r: R)
    requires o.Valid() && Sorted(o, sorted) && |sorted| > 1 && r in sorted[..|sorted| - 1]
    requires o.key(sorted[|sorted| - 2]) != o.key(sorted[|sorted| - 1])
    ensures o.key(r) != o.key(sorted[|sorted| - 1]) && o.keyLe(o.key(r), o.key(sorted[|sorted| - 1]))
  {
    var m := |sorted| - 1;
    var i :| 0 <= i < m && sorted[i] == r;
    assert i < m - 1 ==> o.Le(r, sorted[m - 1]);
    assert o.Le(r, sorted[m]) && o.Le(sorted[m - 1], sorted[m]);
  }

  lemma KeptNew<R(!new), K(!new)>(o: Order<R, K>, init: seq<R>, kept: seq<R>, last: R)
    requires KeepsFirsts(o, init, kept) && o.tie(last, last)
    requires forall r :: r in init ==> o.key(r) != o.key(last) && o.keyLe(o.key(r), o.key(last))
    ensures KeepsFirsts(o, init + [last], kept + [last])
  {
    var kept' := kept + [last];
    assert kept'[|kept|] == last;
    assert Represents(o, kept', last);
    forall r | r in init ensures Represents(o, kept', r) {
      assert Represents(o, kept, r);
      var i :| 0 <= i < |kept| && o.key(kept[i]) == o.key(r) && o.tie(kept[i], r);
      assert kept'[i] == kept[i];
    }
  }

  lemma {:induction false} FirstOfEachKeeps<R(!new), K(!new)>(o: Order<R, K>, sorted: seq<R>)
    requires o.Valid() && Sorted(o, sorted)
    ensures KeepsFirsts(o, sorted, FirstOfEach(o, sorted))
  {
    if sorted != [] {
      var m := |sorted| - 1;
      var init, last := sorted[..m], sorted[m];
      var kept := FirstOfEach(o, init);
      FirstOfEachKeeps(o, init);
      assert sorted == init + [last];
      if m > 0 && o.key(sorted[m - 1]) == o.key(last) {
        assert o.Le(sorted[m - 1], last) && sorted[m - 1] in init;
      } else {
        forall r | r in init ensures o.key(r) != o.key(last) && o.keyLe(o.key(r), o.key(last)) {
          LastOfNewKey(o, sorted, r);
        }
        KeptNew(o, init, kept, last);
      }
    }
  }

  /** The query returns one row per key that occurs, no key twice, and of every key a row that comes
      first among all rows of that key. */
  lemma DistinctOnKeepsFirsts<R(!new), K(!new)>(o: Order<R, K>, rows: seq<R>)
    requires o.Valid()
    ensures KeepsFirsts(o, rows, DistinctOn(o, rows))
  {
    SortSorts(o, rows);
    FirstOfEachKeeps(o, Sort(o, rows));
    forall r ensures r in Sort(o, rows) <==> r in rows {
      SortHas(o, rows, r);
    }
  }

  /** If no two rows of a key are tied, the result is the same whatever order the rows come in. */
  lemma DistinctOnIgnoresScanOrder<R(!new), K(!new)>(o: Order<R, K>, rows: seq<R>, scanned: seq<R>)
    requires o.Valid() && o.BreaksTies(rows) && multiset(rows) == multiset(scanned)
    ensures DistinctOn(o, rows) == DistinctOn(o, scanned)
  {
    SortSorts(o, rows);
    SortSorts(o, scanned);
    forall r ensures r in Sort(o, rows) <==> r in rows {
      SortHas(o, rows, r);
    }
    SortedIsUnique(o, Sort(o, rows), Sort(o, scanned));
  }
}
