/** The decision log: a table that only takes inserts, in which a trigger chains every row to the row
    before it by a digest of number, previous hash and payload.

    The digest is any function to 64 hexadecimal digits. It is not assumed to be injective, which no
    such function is: every result that needs two strings to differ either holds or exhibits two
    different strings with the same digest. */
module AuditChain {
  import opened Decimals
  import opened Separators
  import opened Wrappers

  /** The columns no hash covers. */
  datatype Metadata = Metadata(
    businessId: string, eventType: string, entityRef: Option<string>, actorKind: string, actorId: Option<string>,
    proposalId: Option<string>, occurredAt: int)

  datatype Row = Row(number: int, metadata: Metadata, payload: string, prevHash: string, entryHash: string)

  /** The table in the order of its row numbers. */
  type Log = seq<Row>

  type Digest = string -> string

  predicate NoBar(s: string) {
    '|' !in s
  }

  ghost predicate Hexadecimal(digest: Digest) {
    forall s :: |digest(s)| == 64 && NoBar(digest(s))
  }

  // ---------------------------------------------------------------------------
  // The canonical string
  // ---------------------------------------------------------------------------

  function Decimal(n: int): string {
    if n < 0 then "-" + Digits(-n) else Digits(n)
  }

  function Canonical(number: int, prevHash: string, payload: string): string {
    Decimal(number) + "|" + prevHash + "|" + payload
  }

  lemma DigitsFacts(n: nat)
    ensures |Digits(n)| > 0 && NoBar(Digits(n)) && Digits(n)[0] != '-'
  {
    DigitsReadBack(n);
    assert forall i :: 0 <= i < |Digits(n)| ==> IsDigit(Digits(n)[i]);
  }

  lemma DecimalFacts(m: int, n: int)
    ensures NoBar(Decimal(m))
    ensures Decimal(m) == Decimal(n) ==> m == n
  {
    DigitsFacts(if m < 0 then -m else m);
    DigitsFacts(if n < 0 then -n else n);
    var a, b := Decimal(m), Decimal(n);
    if a == b {
      assert (m < 0) == (a[0] == '-') && (n < 0) == (b[0] == '-');
      assert m < 0 ==> a[1..] == Digits(-m);
      assert n < 0 ==> b[1..] == Digits(-n);
      DigitsInjective(if m < 0 then -m else m, if n < 0 then -n else n);
    }
  }

  /** What stands before the first bar, between it and the second, and behind that. */
  function Fields(text: string): Option<(string, string, string)> {
    var i := First('|', text);
    if i == |text| then None
    else
      var rest := text[i + 1..];
      var j := First('|', rest);
      if j == |rest| then None else Some((text[..i], rest[..j], rest[j + 1..]))
  }

  function Numeral(text: string): Option<int> {
    if text != "" && text[0] == '-' && AllDigits(text[1..]) then Some(0 - Value(text[1..]))
    else if AllDigits(text) then Some(Value(text))
    else None
  }

  /** The canonical string reads as the number in decimal, the previous hash and the payload, in this
      order, parted by bars. */
  lemma CanonicalReads(number: int, prevHash: string, payload: string)
    requires NoBar(prevHash)
    ensures Fields(Canonical(number, prevHash, payload)) == Some((Decimal(number), prevHash, payload))
    ensures Numeral(Decimal(number)) == Some(number)
  {
    var text, rest := Canonical(number, prevHash, payload), prevHash + "|" + payload;
    DecimalFacts(number, number);
    assert text == Decimal(number) + ['|'] + rest && rest == prevHash + ['|'] + payload;
    FirstAfter('|', Decimal(number), rest);
    FirstAfter('|', prevHash, payload);
    assert text[..|Decimal(number)|] == Decimal(number) && text[|Decimal(number)| + 1..] == rest;
    assert rest[..|prevHash|] == prevHash && rest[|prevHash| + 1..] == payload;
    var n := if number < 0 then -number else number;
    DigitsReadBack(n);
    DigitsFacts(n);
    assert number < 0 ==> Decimal(number)[1..] == Digits(n);
  }

  /** Number, previous hash and payload can be read back from the canonical string, although a payload
      may hold any number of bars. */
  lemma CanonicalDecodesUniquely(m: int, prev: string, payload: string, n: int, prev': string, payload': string)
    requires NoBar(prev) && NoBar(prev')
    requires Canonical(m, prev, payload) == Canonical(n, prev', payload')
    ensures m == n && prev == prev' && payload == payload'
  {
    DecimalFacts(m, n);
    DecimalFacts(n, m);
    assert Canonical(m, prev, payload) == Decimal(m) + "|" + (prev + "|" + payload);
    assert Canonical(n, prev', payload') == Decimal(n) + "|" + (prev' + "|" + payload');
    SplitAtFirst('|', Decimal(m), prev + "|" + payload, Decimal(n), prev' + "|" + payload');
    SplitAtFirst('|', prev, payload, prev', payload');
  }

  // ---------------------------------------------------------------------------
  // Chained logs
  // ---------------------------------------------------------------------------

  function Tip(log: Log): string {
    if log == [] then "" else log[|log| - 1].entryHash
  }

  /** The row names the hash before it and carries the digest of its own canonical string. */
  predicate Linked(digest: Digest, previous: string, r: Row) {
    r.prevHash == previous && r.entryHash == digest(Canonical(r.number, previous, r.payload))
  }

  predicate Chained(digest: Digest, log: Log) {
    log == [] ||
    (Linked(digest, Tip(log[..|log| - 1]), log[|log| - 1]) && Chained(digest, log[..|log| - 1]))
  }

  predicate SameEntry(r: Row, s: Row) {
    r.number == s.number && r.payload == s.payload && r.prevHash == s.prevHash && r.entryHash == s.entryHash
  }

  predicate Agree(a: Log, b: Log) {
    |a| == |b| && forall i :: 0 <= i < |a| ==> SameEntry(a[i], b[i])
  }

  predicate Collision(digest: Digest, pair: (string, string)) {
    pair.0 != pair.1 && digest(pair.0) == digest(pair.1)
  }

  lemma {:induction false} ChainedPrefix(digest: Digest, log: Log, n: nat)
    requires n <= |log|
    ensures Chained(digest, log) ==> Chained(digest, log[..n])
  {
    if n < |log| {
      ChainedPrefix(digest, log[..|log| - 1], n);
      assert log[..|log| - 1][..n] == log[..n];
    } else {
      assert log[..n] == log;
    }
  }

  lemma TipFacts(digest: Digest, log: Log)
    requires Hexadecimal(digest) && Chained(digest, log)
    ensures NoBar(Tip(log)) && (Tip(log) == "" <==> log == [])
  {
  }

  lemma AgreeUpToLast(a: Log, b: Log)
    requires a != [] && b != [] && Agree(a[..|a| - 1], b[..|b| - 1]) && SameEntry(a[|a| - 1], b[|b| - 1])
    ensures Agree(a, b)
  {
    forall i | 0 <= i < |a| ensures SameEntry(a[i], b[i]) {
      if i < |a| - 1 {
        assert SameEntry(a[..|a| - 1][i], b[..|b| - 1][i]);
      }
    }
  }

  /** The last hash stands for the whole log: two chained logs that end in the same hash have the same
      length and agree row by row on number and payload, or here are two different strings with the
      same digest. */
  lemma {:induction false} SameTipSameLog(digest: Digest, a: Log, b: Log) returns (collision: Option<(string, string)>)
    requires Hexadecimal(digest) && Chained(digest, a) && Chained(digest, b)
    requires Tip(a) == Tip(b)
    ensures collision.None? ==> Agree(a, b)
    ensures collision.Some? ==> Collision(digest, collision.value)
  {
    TipFacts(digest, a);
    TipFacts(digest, b);
    if a == [] || b == [] {
      return None;
    }
    var m, n := |a| - 1, |b| - 1;
    var r, s := a[m], b[n];
    var x, y := Canonical(r.number, r.prevHash, r.payload), Canonical(s.number, s.prevHash, s.payload);
    if x != y {
      return Some((x, y));
    }
    TipFacts(digest, a[..m]);
    TipFacts(digest, b[..n]);
    CanonicalDecodesUniquely(r.number, r.prevHash, r.payload, s.number, s.prevHash, s.payload);
    collision := SameTipSameLog(digest, a[..m], b[..n]);
    if collision.None? {
      AgreeUpToLast(a, b);
    }
  }

  lemma UpdatePrefix<T>(s: seq<T>, i: nat, x: T)
    requires i < |s| - 1
    ensures s[i := x] == s[..|s| - 1][i := x] + [s[|s| - 1]]
  {
  }

  lemma UpdateLast<T>(s: seq<T>, x: T)
    requires s != []
    ensures s[|s| - 1 := x] == s[..|s| - 1] + [x]
  {
  }

  lemma ChainedOnto(digest: Digest, log: Log, r: Row)
    requires Chained(digest, log) && Linked(digest, Tip(log), r)
    ensures Chained(digest, log + [r]) && Tip(log + [r]) == r.entryHash
  {
    assert (log + [r])[..|log|] == log;
  }

  /** Who, about what and when is not part of the entry: the metadata of any row can be exchanged
      without the chain or its tip showing it. */
  lemma {:induction false} MetadataIsNotCovered(digest: Digest, log: Log, i: nat, metadata: Metadata)
    requires Chained(digest, log) && i < |log|
    ensures var forged := log[i := log[i].(metadata := metadata)];
            Chained(digest, forged) && Tip(forged) == Tip(log)
  {
    var m, row := |log| - 1, log[i].(metadata := metadata);
    var init, last := log[..m], log[m];
    if i < m {
      MetadataIsNotCovered(digest, init, i, metadata);
      ChainedOnto(digest, init[i := row], last);
      UpdatePrefix(log, i, row);
    } else {
      ChainedOnto(digest, init, row);
      UpdateLast(log, row);
    }
  }

  // ---------------------------------------------------------------------------
  // The table
  // ---------------------------------------------------------------------------

  /** `number` is what the sequence gives, or what the client insists on. */
  datatype Statement =
    | Insert(number: int, metadata: Metadata, payload: string)
    | Update(number: int, row: Row)
    | Delete(number: int)
    | Truncate

  /** The row as the trigger completes it. */
  function Entry(digest: Digest, log: Log, e: Statement): Row
    requires e.Insert?
  {
    Row(e.number, e.metadata, e.payload, Tip(log), digest(Canonical(e.number, Tip(log), e.payload)))
  }

  predicate Accepts(digest: Digest, log: Log, e: Statement) {
    && e.Insert?
    && forall i :: 0 <= i < |log| ==> log[i].number != e.number && log[i].entryHash != Entry(digest, log, e).entryHash
  }

  function Place(log: Log, row: Row): Log {
    if log == [] || log[|log| - 1].number < row.number then log + [row]
    else Place(log[..|log| - 1], row) + [log[|log| - 1]]
  }

  function Apply(digest: Digest, log: Log, e: Statement): Log {
    if Accepts(digest, log, e) then Place(log, Entry(digest, log, e)) else log
  }

  function Run(digest: Digest, statements: seq<Statement>): Log {
    if statements == [] then []
    else Apply(digest, Run(digest, statements[..|statements| - 1]), statements[|statements| - 1])
  }

  function Upto(digest: Digest, statements: seq<Statement>, n: nat): Log
    requires n <= |statements|
  {
    Run(digest, statements[..n])
  }

  lemma UptoStep(digest: Digest, statements: seq<Statement>, n: nat)
    requires n < |statements|
    ensures Upto(digest, statements, n + 1) == Apply(digest, Upto(digest, statements, n), statements[n])
  {
    assert statements[..n + 1][..n] == statements[..n];
  }

  /** An insert the table takes although its number is not above all the others. */
  predicate InsertsBelow(digest: Digest, log: Log, e: Statement) {
    Accepts(digest, log, e) && log != [] && e.number < log[|log| - 1].number
  }

  /** What the trigger builds in order is chained. */
  lemma AppendChains(digest: Digest, log: Log, e: Statement)
    requires Chained(digest, log) && !InsertsBelow(digest, log, e)
    ensures Chained(digest, Apply(digest, log, e))
  {
    if Accepts(digest, log, e) {
      assert log != [] ==> log[|log| - 1].number != e.number;
      assert (log + [Entry(digest, log, e)])[..|log|] == log;
    }
  }

  lemma InitAndLast<T>(s: seq<T>, x: T)
    ensures (s + [x])[..|s|] == s && (s + [x])[|s|] == x
  {
  }

  lemma TipDiffers(digest: Digest, log: Log, row: Row)
    requires Chained(digest, log) && log != [] && row.entryHash != ""
    requires forall j :: 0 <= j < |log| ==> log[j].entryHash != row.entryHash
    ensures log[|log| - 1].prevHash != row.entryHash
  {
    var init := log[..|log| - 1];
    assert init != [] ==> Tip(init) == log[|log| - 2].entryHash;
  }

  /** A row placed below the last one breaks the chain: the row after it does not name it. */
  lemma {:induction false} PlaceBelowBreaks(digest: Digest, log: Log, row: Row)
    requires Hexadecimal(digest) && Chained(digest, log)
    requires log != [] && row.number < log[|log| - 1].number && |row.entryHash| == 64
    requires forall j :: 0 <= j < |log| ==> log[j].number != row.number && log[j].entryHash != row.entryHash
    ensures !Chained(digest, Place(log, row))
  {
    var m := |log| - 1;
    var init, below := log[..m], Place(log[..m], row);
    InitAndLast(below, log[m]);
    assert Place(log, row) == below + [log[m]];
    if init == [] || init[m - 1].number < row.number {
      InitAndLast(init, row);
      TipDiffers(digest, log, row);
      assert Tip(below) == row.entryHash;
    } else {
      PlaceBelowBreaks(digest, init, row);
      assert !Chained(digest, below);
    }
  }

  lemma BreaksIfBelow(digest: Digest, log: Log, e: Statement)
    requires Hexadecimal(digest) && Chained(digest, log)
    ensures InsertsBelow(digest, log, e) ==> !Chained(digest, Apply(digest, log, e))
  {
    if InsertsBelow(digest, log, e) {
      PlaceBelowBreaks(digest, log, Entry(digest, log, e));
    }
  }

  lemma {:induction false} ChainedUpto(digest: Digest, statements: seq<Statement>, n: nat)
    requires n <= |statements|
    requires forall m: nat :: m < n ==> !InsertsBelow(digest, Upto(digest, statements, m), statements[m])
    ensures Chained(digest, Upto(digest, statements, n))
  {
    if n > 0 {
      ChainedUpto(digest, statements, n - 1);
      UptoStep(digest, statements, n - 1);
      AppendChains(digest, Upto(digest, statements, n - 1), statements[n - 1]);
    }
  }

  /** The log is chained at every moment if and only if every insert took a number above the last one,
      which the table's own sequence does and a client that names the number need not. */
  lemma ChainedExactlyWhenNumbersRise(digest: Digest, statements: seq<Statement>)
    requires Hexadecimal(digest)
    ensures (forall n: nat :: n <= |statements| ==> Chained(digest, Upto(digest, statements, n)))
       <==> (forall n: nat :: n < |statements| ==> !InsertsBelow(digest, Upto(digest, statements, n), statements[n]))
  {
    if forall n: nat :: n < |statements| ==> !InsertsBelow(digest, Upto(digest, statements, n), statements[n]) {
      forall n: nat | n <= |statements| ensures Chained(digest, Upto(digest, statements, n)) {
        ChainedUpto(digest, statements, n);
      }
    }
    if forall n: nat :: n <= |statements| ==> Chained(digest, Upto(digest, statements, n)) {
      forall n: nat | n < |statements| ensures !InsertsBelow(digest, Upto(digest, statements, n), statements[n]) {
        UptoStep(digest, statements, n);
        assert Chained(digest, Upto(digest, statements, n)) && Chained(digest, Upto(digest, statements, n + 1));
        BreaksIfBelow(digest, Upto(digest, statements, n), statements[n]);
      }
    }
  }

  /** A history that breaks the chain: a number is inserted below another. The table takes it unless
      the two entries' strings, which differ, have the same digest. */
  lemma InsertingBelowIsReachable(digest: Digest, metadata: Metadata) returns (statements: seq<Statement>)
    requires Hexadecimal(digest)
    ensures statements == [Insert(2, metadata, "second"), Insert(1, metadata, "first")]
    ensures var above := Canonical(2, "", "second");
            || Collision(digest, (above, Canonical(1, digest(above), "first")))
            || (InsertsBelow(digest, Upto(digest, statements, 1), statements[1])
                && !Chained(digest, Run(digest, statements)))
  {
    statements := [Insert(2, metadata, "second"), Insert(1, metadata, "first")];
    var above := Canonical(2, "", "second");
    var below := Canonical(1, digest(above), "first");
    assert statements[..0] == [] && statements[..2] == statements;
    UptoStep(digest, statements, 0);
    UptoStep(digest, statements, 1);
    ChainedUpto(digest, statements, 1);
    assert above != below by {
      if above == below {
        CanonicalDecodesUniquely(2, "", "second", 1, digest(above), "first");
      }
    }
    BreaksIfBelow(digest, Upto(digest, statements, 1), statements[1]);
  }

  lemma {:induction false} PlaceKeeps(log: Log, row: Row, r: Row)
    requires r in log
    ensures r in Place(log, row)
  {
    if log != [] && row.number <= log[|log| - 1].number && r in log[..|log| - 1] {
      PlaceKeeps(log[..|log| - 1], row, r);
    }
  }

  /** Nothing is ever updated, deleted or truncated: a row once in the log stays in it as it is. */
  lemma {:induction false} RowsAreForever(digest: Digest, statements: seq<Statement>, n: nat, r: Row)
    requires n <= |statements| && r in Upto(digest, statements, n)
    ensures r in Run(digest, statements)
  {
    if n < |statements| {
      var init := statements[..|statements| - 1];
      assert init[..n] == statements[..n];
      RowsAreForever(digest, init, n, r);
      var log, e := Run(digest, init), statements[|statements| - 1];
      if Accepts(digest, log, e) {
        PlaceKeeps(log, Entry(digest, log, e), r);
      }
    } else {
      assert statements[..n] == statements;
    }
  }

  // ---------------------------------------------------------------------------
  // The table in place
  // ---------------------------------------------------------------------------

  class DecisionLog {
    const digest: Digest
    var rows: Log

    constructor (digest: Digest)
      ensures this.digest == digest && rows == []
    {
      this.digest, rows := digest, [];
    }

    /** The last hash by row number, or the empty string. */
    method PreviousHash() returns (previous: string)
      ensures previous == Tip(rows)
    {
      previous := "";
      if |rows| > 0 {
        previous := rows[|rows| - 1].entryHash;
      }
    }

    method InsertRow(number: int, metadata: Metadata, payload: string) returns (accepted: bool)
      modifies this
      ensures accepted == Accepts(digest, old(rows), Insert(number, metadata, payload))
      ensures rows == Apply(digest, old(rows), Insert(number, metadata, payload))
    {
      var previous := PreviousHash();
      var canonical := Decimal(number) + "|" + previous + "|" + payload;
      var row := Row(number, metadata, payload, previous, digest(canonical));
      for i := 0 to |rows|
        invariant rows == old(rows)
        invariant forall j :: 0 <= j < i ==> rows[j].number != number && rows[j].entryHash != row.entryHash
      {
        if rows[i].number == number || rows[i].entryHash == row.entryHash {
          return false;
        }
      }
      rows := Place(rows, row);
      return true;
    }

    method UpdateRow(number: int, row: Row) returns (accepted: bool)
      ensures accepted == Accepts(digest, rows, Update(number, row))
    {
      return false;
    }

    method DeleteRow(number: int) returns (accepted: bool)
      ensures accepted == Accepts(digest, rows, Delete(number))
    {
      return false;
    }

    method TruncateRows() returns (accepted: bool)
      ensures accepted == Accepts(digest, rows, Truncate)
    {
      return false;
    }

    /** Recomputes the chain, as a reader of the table can. */
    method Verify() returns (intact: bool)
      ensures intact == Chained(digest, rows)
    {
      var previous := "";
      for i := 0 to |rows|
        invariant previous == Tip(rows[..i]) && Chained(digest, rows[..i])
      {
        assert rows[..i + 1][..i] == rows[..i];
        if rows[i].prevHash != previous
          || rows[i].entryHash != digest(Canonical(rows[i].number, previous, rows[i].payload)) {
          ChainedPrefix(digest, rows, i + 1);
          return false;
        }
        previous := rows[i].entryHash;
      }
      assert rows[..|rows|] == rows;
      return true;
    }
  }
}
