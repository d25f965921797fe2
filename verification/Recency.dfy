/** Sequences without duplicates and the recency order of a history of keys. */
module Recency {
  ghost predicate NoDuplicates<K>(s: seq<K>) {
    forall i, j :: 0 <= i < j < |s| ==> s[i] != s[j]
  }

  ghost function Elements<K>(s: seq<K>): set<K> {
    set x | x in s
  }

  lemma {:induction false} NoDuplicatesCardinality<K>(s: seq<K>)
    requires NoDuplicates(s)
    ensures |Elements(s)| == |s|
  {
    if s != [] {
      NoDuplicatesCardinality(s[1..]);
      assert s == [s[0]] + s[1..];
      assert Elements(s) == Elements(s[1..]) + {s[0]};
    }
  }

  lemma TailFacts<K>(s: seq<K>)
    requires NoDuplicates(s) && s != []
    ensures NoDuplicates(s[1..])
    ensures forall x :: x in s[1..] <==> x in s && x != s[0]
  {
    assert s == [s[0]] + s[1..];
    forall x | x in s && x != s[0] ensures x in s[1..] {
      var i :| 0 <= i < |s| && s[i] == x;
      assert s[1..][i - 1] == x;
    }
  }

  function Without<K(==)>(s: seq<K>, k: K): seq<K> {
    if s == [] then []
    else if s[0] == k then Without(s[1..], k)
    else [s[0]] + Without(s[1..], k)
  }

  /** Moves `k` to the newest end, or puts it there. */
  function Touch<K(==)>(s: seq<K>, k: K): seq<K> {
    Without(s, k) + [k]
  }

  lemma {:induction false} WithoutConcat<K>(a: seq<K>, b: seq<K>, k: K)
    ensures Without(a + b, k) == Without(a, k) + Without(b, k)
  {
    if a == [] {
      assert a + b == b;
    } else {
      WithoutConcat(a[1..], b, k);
      assert (a + b)[1..] == a[1..] + b;
      assert Without(a + b, k) == (if a[0] == k then Without(a[1..] + b, k) else [a[0]] + Without(a[1..] + b, k));
    }
  }

  lemma {:induction false} WithoutElements<K>(s: seq<K>, k: K)
    ensures forall x :: x in Without(s, k) <==> x in s && x != k
    ensures k !in s ==> Without(s, k) == s
    ensures NoDuplicates(s) ==> NoDuplicates(Without(s, k))
  {
    if s != [] {
      var rest := Without(s[1..], k);
      WithoutElements(s[1..], k);
      assert s == [s[0]] + s[1..];
      if NoDuplicates(s) {
        assert s[0] !in s[1..];
        assert NoDuplicates(rest) && NoDuplicates([s[0]] + rest);
      }
    }
  }

  lemma TouchFacts<K>(s: seq<K>, k: K)
    ensures forall x :: x in Touch(s, k) <==> x in s || x == k
    ensures NoDuplicates(s) ==> NoDuplicates(Touch(s, k))
  {
    var rest := Without(s, k);
    WithoutElements(s, k);
    assert Touch(s, k) == rest + [k];
    assert forall x :: x in rest + [k] <==> x in rest || x == k;
  }

  lemma {:induction false} WithoutLength<K>(s: seq<K>, k: K)
    requires NoDuplicates(s)
    ensures |Without(s, k)| == if k in s then |s| - 1 else |s|
  {
    if s != [] {
      assert s == [s[0]] + s[1..];
      if s[0] == k {
        assert k !in s[1..];
        WithoutElements(s[1..], k);
      } else {
        WithoutLength(s[1..], k);
      }
    }
  }

  lemma TouchLength<K>(s: seq<K>, k: K)
    requires NoDuplicates(s)
    ensures |Touch(s, k)| == if k in s then |s| else |s| + 1
  {
    WithoutLength(s, k);
  }

  function LastN<K>(s: seq<K>, n: nat): seq<K> {
    if |s| <= n then s else s[|s| - n..]
  }

  lemma LastNMembership<K>(older: seq<K>, k: K, newer: seq<K>, n: nat)
    requires NoDuplicates(older + ([k] + newer))
    ensures k in LastN(older + ([k] + newer), n) <==> |newer| < n
  {
    var s := older + ([k] + newer);
    assert s[|older|] == k;
    if |s| > n {
      if |newer| < n {
        assert LastN(s, n)[|older| - (|s| - n)] == k;
      }
      if k in LastN(s, n) {
        var q :| 0 <= q < n && LastN(s, n)[q] == k;
        assert s[|s| - n + q] == k;
      }
    }
  }

  lemma LastNTouchNew<K>(older: seq<K>, w: seq<K>, k: K)
    requires NoDuplicates(older + w) && w != [] && k !in w
    ensures LastN(Touch(older + w, k), |w|) == w[1..] + [k]
  {
    WithoutConcat(older, w, k);
    WithoutElements(w, k);
    var rest := Without(older, k) + [w[0]];
    assert Touch(older + w, k) == rest + (w[1..] + [k]);
  }

  lemma InSuffixNotInPrefix<K>(older: seq<K>, newer: seq<K>, k: K)
    requires NoDuplicates(older + newer) && k in newer
    ensures k !in older
  {
    var j :| 0 <= j < |newer| && newer[j] == k;
    forall i | 0 <= i < |older| ensures older[i] != k {
      assert (older + newer)[i] != (older + newer)[|older| + j];
    }
  }

  lemma NoDuplicatesOfSuffix<K>(older: seq<K>, newer: seq<K>)
    requires NoDuplicates(older + newer)
    ensures NoDuplicates(newer)
  {
    forall i, j | 0 <= i < j < |newer| ensures newer[i] != newer[j] {
      assert (older + newer)[|older| + i] != (older + newer)[|older| + j];
    }
  }

  lemma LastNTouchKnown<K>(older: seq<K>, w: seq<K>, k: K)
    requires NoDuplicates(older + w) && k in w
    ensures LastN(Touch(older + w, k), |w|) == Touch(w, k)
  {
    InSuffixNotInPrefix(older, w, k);
    WithoutConcat(older, w, k);
    WithoutElements(older, k);
    NoDuplicatesOfSuffix(older, w);
    TouchLength(w, k);
    assert Touch(older + w, k) == older + Touch(w, k);
  }

  /** Touching a bounded window is touching the whole order and taking the window again. */
  lemma LastNTouch<K>(s: seq<K>, k: K, n: nat)
    requires NoDuplicates(s) && n > 0
    ensures LastN(Touch(s, k), n)
         == if k in LastN(s, n) then Touch(LastN(s, n), k)
            else if |s| >= n then LastN(s, n)[1..] + [k]
            else s + [k]
  {
    if |s| < n {
      WithoutElements(s, k);
      TouchLength(s, k);
    } else {
      var older, w := s[..|s| - n], s[|s| - n..];
      assert s == older + w;
      assert LastN(s, n) == w;
      if k in w {
        LastNTouchKnown(older, w, k);
      } else {
        LastNTouchNew(older, w, k);
      }
    }
  }

  /** Keys from least to most recently called. */
  function ByRecency<K(==)>(history: seq<K>): seq<K> {
    if history == [] then []
    else Touch(ByRecency(history[..|history| - 1]), history[|history| - 1])
  }

  /** The keys called after the last call of `k`. */
  function OthersSince<K(==)>(history: seq<K>, k: K): set<K> {
    if history == [] || history[|history| - 1] == k then {}
    else OthersSince(history[..|history| - 1], k) + {history[|history| - 1]}
  }

  lemma {:induction false} RecencyFacts<K>(history: seq<K>)
    ensures NoDuplicates(ByRecency(history))
    ensures forall k :: k in ByRecency(history) <==> k in history
  {
    if history != [] {
      var init, last := history[..|history| - 1], history[|history| - 1];
      RecencyFacts(init);
      TouchFacts(ByRecency(init), last);
      assert history == init + [last];
    }
  }

  lemma CardinalityWith<K>(s: set<K>, x: K)
    ensures |s + {x}| == if x in s then |s| else |s| + 1
  {
    if x in s {
      assert s + {x} == s;
    }
  }

  lemma TouchSplit<K>(older: seq<K>, x: K, newer: seq<K>, last: K)
    requires last != x
    ensures Touch(older + ([x] + newer), last) == Without(older, last) + ([x] + Touch(newer, last))
  {
    WithoutConcat(older, [x] + newer, last);
    WithoutConcat([x], newer, last);
  }

  /** In the recency order, exactly the keys called since `k` stand after `k`. */
  lemma {:induction false} RankOf<K>(history: seq<K>, k: K) returns (older: seq<K>, newer: seq<K>)
    requires k in history
    ensures ByRecency(history) == older + ([k] + newer)
    ensures forall x :: x in newer <==> x in OthersSince(history, k)
    ensures |newer| == |OthersSince(history, k)|
  {
    var init, last := history[..|history| - 1], history[|history| - 1];
    if last == k {
      older, newer := Without(ByRecency(init), k), [];
    } else {
      var older', newer' := RankOf(init, k);
      TouchSplit(older', k, newer', last);
      older, newer := Without(older', last), Touch(newer', last);
      TouchFacts(newer', last);
      RecencyFacts(init);
      NoDuplicatesOfSuffix(older', [k] + newer');
      NoDuplicatesOfSuffix([k], newer');
      TouchLength(newer', last);
      CardinalityWith(OthersSince(init, k), last);
    }
  }
}
