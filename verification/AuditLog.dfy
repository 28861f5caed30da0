/**
 The audit table: rows are read in the order of their sequence numbers, which are not hashed. Which
 renumberings verification notices, and the append-only store itself.
 */
module AuditLog {
  import opened Common
  import opened Sorting
  import opened Json
  import opened Redaction
  import opened AuditChain

  predicate BySequence(r: Row, s: Row) {
    r.sequence <= s.sequence
  }

  /** The rows as every reader gets them. */
  function ReadingOrder(table: seq<Row>): seq<Row> {
    Sort(BySequence, table)
  }

  ghost predicate InOrder(rows: seq<Row>) {
    forall i, j :: 0 <= i < j < |rows| ==> rows[i].sequence < rows[j].sequence
  }

  /** The sequence number is the primary key. */
  ghost predicate UniqueSequences(rows: seq<Row>) {
    forall i, j :: 0 <= i < j < |rows| ==> rows[i].sequence != rows[j].sequence
  }

  /** Event hashes are a UNIQUE column. */
  ghost predicate UniqueHashes(rows: seq<Row>) {
    forall i, j :: 0 <= i < j < |rows| ==> rows[i].eventHash != rows[j].eventHash
  }

  lemma InOrderIsRead(rows: seq<Row>)
    requires InOrder(rows)
    ensures ReadingOrder(rows) == rows
  {
    SortOfSorted(BySequence, rows);
  }

  /** The two logs differ in nothing but their sequence numbers. */
  ghost predicate Renumbered(a: seq<Row>, b: seq<Row>) {
    |a| == |b| && forall i :: 0 <= i < |a| ==> b[i] == a[i].(sequence := b[i].sequence)
  }

  lemma RenumberedLinks(hash: string -> string, a: seq<Row>, b: seq<Row>, i: nat)
    requires Renumbered(a, b) && i < |a|
    ensures HeadBefore(a, i) == HeadBefore(b, i) && (LinkHolds(hash, a, i) <==> LinkHolds(hash, b, i))
  {
    assert b[i] == a[i].(sequence := b[i].sequence);
    assert i > 0 ==> b[i - 1] == a[i - 1].(sequence := b[i - 1].sequence);
  }

  /** Sequence numbers are not hashed: rows read in the same order verify alike, whatever their numbers. */
  lemma RenumberedInPlaceVerifiesAlike(hash: string -> string, a: seq<Row>, b: seq<Row>)
    requires Renumbered(a, b)
    ensures Chain(hash, a) <==> Chain(hash, b)
    ensures HeadBefore(a, |a|) == HeadBefore(b, |b|)
    ensures forall i: nat :: FirstBroken(hash, a, i) <==> FirstBroken(hash, b, i)
  {
    forall i: nat | i < |a|
      ensures HeadBefore(a, i) == HeadBefore(b, i) && (LinkHolds(hash, a, i) <==> LinkHolds(hash, b, i))
    {
      RenumberedLinks(hash, a, b, i);
    }
    forall i: nat
      ensures FirstBroken(hash, a, i) <==> FirstBroken(hash, b, i)
    {
      if FirstBroken(hash, a, i) {
        BreakMoves(hash, a, b, i);
      } else if FirstBroken(hash, b, i) {
        BreakMoves(hash, b, a, i);
      }
    }
    assert |a| > 0 ==> b[|a| - 1] == a[|a| - 1].(sequence := b[|a| - 1].sequence);
  }

  lemma BreakMoves(hash: string -> string, a: seq<Row>, b: seq<Row>, i: nat)
    requires Renumbered(a, b) && FirstBroken(hash, a, i)
    ensures FirstBroken(hash, b, i)
  {
    ChainPrefix(hash, a, i);
    ChainPrefix(hash, b, i);
    forall k: nat | k <= i
      ensures LinkHolds(hash, a, k) <==> LinkHolds(hash, b, k)
    {
      RenumberedLinks(hash, a, b, k);
    }
  }

  /** A hash names one place of the log: the same head before two places means the same place. */
  lemma HeadNamesPlace(hash: string -> string, rows: seq<Row>, i: nat, j: nat)
    requires Chain(hash, rows) && Hexadecimal(hash) && UniqueHashes(rows)
    requires i <= |rows| && j <= |rows| && HeadBefore(rows, i) == HeadBefore(rows, j)
    ensures i == j
  {
    HeadHasNoNewline(hash, rows, i);
    HeadHasNoNewline(hash, rows, j);
    if i > 0 && j > 0 {
      assert rows[i - 1].eventHash == rows[j - 1].eventHash;
    }
  }

  /** The row at one place of a chain over the same rows can only be the row of that place. */
  lemma PlaceKept(hash: string -> string, a: seq<Row>, b: seq<Row>, c: seq<Row>, n: nat)
    requires Chain(hash, a) && Hexadecimal(hash) && UniqueHashes(a) && Renumbered(a, b)
    requires Chain(hash, c) && |c| == |b| && (forall x :: x in c ==> x in b)
    requires n < |c| && forall i :: 0 <= i < n ==> c[i] == b[i]
    ensures c[n] == b[n]
  {
    assert c[n] in b;
    var j: nat :| j < |b| && b[j] == c[n];
    assert LinkHolds(hash, c, n) && LinkHolds(hash, a, j);
    RenumberedLinks(hash, a, b, n);
    assert HeadBefore(c, n) == HeadBefore(b, n);
    HeadNamesPlace(hash, a, n, j);
  }

  /** Rows of a valid log that form a chain again, in whatever order, are in the order they had. */
  lemma {:induction false} PlacesKept(hash: string -> string, a: seq<Row>, b: seq<Row>, c: seq<Row>, n: nat)
    requires Chain(hash, a) && Hexadecimal(hash) && UniqueHashes(a) && Renumbered(a, b)
    requires Chain(hash, c) && |c| == |b| && (forall x :: x in c ==> x in b) && n <= |c|
    ensures forall i :: 0 <= i < n ==> c[i] == b[i]
  {
    if n > 0 {
      PlacesKept(hash, a, b, c, n - 1);
      PlaceKept(hash, a, b, c, n - 1);
    }
  }

  lemma SequencesOrder()
    ensures TotalPreorder(BySequence)
  {
  }

  /**
   Renumbering the rows of a valid log goes unnoticed if and only if it keeps their order: then the
   log still verifies, with the same head; any other renumbering breaks the chain.
   */
  lemma RenumberingUnnoticedExactly(hash: string -> string, a: seq<Row>, b: seq<Row>)
    requires Chain(hash, a) && Hexadecimal(hash) && UniqueHashes(a)
    requires Renumbered(a, b) && UniqueSequences(b)
    ensures |ReadingOrder(b)| == |b|
    ensures Chain(hash, ReadingOrder(b)) <==> InOrder(b)
    ensures InOrder(b) ==> HeadBefore(ReadingOrder(b), |b|) == HeadBefore(a, |a|)
  {
    var c := ReadingOrder(b);
    SortPermutes(BySequence, b);
    if InOrder(b) {
      InOrderIsRead(b);
      RenumberedInPlaceVerifiesAlike(hash, a, b);
    }
    if Chain(hash, c) {
      PlacesKept(hash, a, b, c, |b|);
      assert c == b;
      SequencesOrder();
      SortSorts(BySequence, b);
    }
  }

  /** So exchanging two numbers of a valid log, and nothing else, is noticed. */
  lemma ExchangedNumbersAreNoticed(hash: string -> string, rows: seq<Row>, i: nat, j: nat)
    requires Chain(hash, rows) && Hexadecimal(hash) && UniqueHashes(rows) && InOrder(rows) && i < j < |rows|
    ensures var p, q := rows[i].(sequence := rows[j].sequence), rows[j].(sequence := rows[i].sequence);
            !Chain(hash, ReadingOrder(rows[i := p][j := q]))
  {
    var p, q := rows[i].(sequence := rows[j].sequence), rows[j].(sequence := rows[i].sequence);
    var b := rows[i := p][j := q];
    ExchangeKeepsUnique(rows, b, i, j);
    RenumberingUnnoticedExactly(hash, rows, b);
    assert b[i].sequence > b[j].sequence;
  }

  lemma ExchangeKeepsUnique(rows: seq<Row>, b: seq<Row>, i: nat, j: nat)
    requires InOrder(rows) && i < j < |rows| && |b| == |rows|
    requires b[i] == rows[i].(sequence := rows[j].sequence) && b[j] == rows[j].(sequence := rows[i].sequence)
    requires forall k :: 0 <= k < |b| && k != i && k != j ==> b[k] == rows[k]
    ensures Renumbered(rows, b) && UniqueSequences(b)
  {
  }

  /** The numbers a log that is only appended to gets. */
  ghost predicate Counted(rows: seq<Row>) {
    forall i :: 0 <= i < |rows| ==> rows[i].sequence == i + 1
  }

  /** Neither the id nor the hash of the row is taken. */
  predicate Unique(rows: seq<Row>, row: Row) {
    forall r :: r in rows ==> r.header.id != row.header.id && r.eventHash != row.eventHash
  }

  lemma UniqueGrows(rows: seq<Row>, row: Row)
    requires UniqueHashes(rows) && Unique(rows, row)
    ensures UniqueHashes(rows + [row])
  {
    var all := rows + [row];
    forall i, j | 0 <= i < j < |all|
      ensures all[i].eventHash != all[j].eventHash
    {
      assert all[i] in rows;
    }
  }

  /** What every log built by appending satisfies. */
  ghost predicate Stored(hash: string -> string, rows: seq<Row>) {
    Chain(hash, rows) && Counted(rows) && UniqueHashes(rows)
  }

  /** The row the next recording writes. */
  function RowFor(hash: string -> string, low: char -> string, rows: seq<Row>, h: Header, metadata: Py): Row {
    NewRow(hash, low, HeadBefore(rows, |rows|), |rows| + 1, h, metadata)
  }

  /** Each text is recorded in its own column, cut at the column's limit; id and time are those given. */
  ghost predicate Records(row: Header, h: Header) {
    && row.id == h.id && row.createdAt == h.createdAt
    && CutTo(row.eventType, h.eventType, 120) && CutTo(row.action, h.action, 120)
    && CutTo(row.actor, h.actor, 120) && CutTo(row.targetType, h.targetType, 120)
    && CutTo(row.targetId, h.targetId, 240) && CutTo(row.outcome, h.outcome, 40)
    && CutTo(row.summary, h.summary, 1000)
  }

  lemma HeaderIsRecorded(h: Header)
    ensures Records(ClipHeader(h), h)
  {
    ClipCuts(h.eventType, 120);
    ClipCuts(h.action, 120);
    ClipCuts(h.actor, 120);
    ClipCuts(h.targetType, 120);
    ClipCuts(h.targetId, 240);
    ClipCuts(h.outcome, 40);
    ClipCuts(h.summary, 1000);
  }

  lemma AppendKeepsStored(hash: string -> string, low: char -> string, rows: seq<Row>, h: Header, metadata: Py)
    requires Stored(hash, rows) && PlainNumbers(metadata)
    ensures var row := RowFor(hash, low, rows, h, metadata);
            && (Unique(rows, row) ==> Stored(hash, rows + [row]))
            && Records(row.header, h) && row.previousHash == HeadBefore(rows, |rows|)
            && row.eventHash == hash(HashInput(row.previousHash, row.header, Redact(low, metadata, "")))
            && row.sequence == |rows| + 1
            && Loads(row.metadata) == Some(SortKeys(Redact(low, metadata, "")))
  {
    HeaderIsRecorded(h);
    RecordedRowLinks(hash, low, rows, |rows| + 1, h, metadata);
    NewRowReloads(hash, low, HeadBefore(rows, |rows|), |rows| + 1, h, metadata);
    if Unique(rows, RowFor(hash, low, rows, h, metadata)) {
      UniqueGrows(rows, RowFor(hash, low, rows, h, metadata));
    }
  }

  /** The append-only log. */
  class AuditStore {
    const hash: string -> string
    const low: char -> string
    var rows: seq<Row>

    constructor (hash: string -> string, low: char -> string)
      ensures this.hash == hash && this.low == low && rows == []
    {
      this.hash := hash;
      this.low := low;
      rows := [];
    }

    ghost predicate Valid()
      reads this
    {
      Stored(hash, rows)
    }

    /** Appends one event. Ids and event hashes are UNIQUE columns; a repeat is refused. */
    method Record(h: Header, metadata: Py) returns (r: Result<Row>)
      requires Valid() && PlainNumbers(metadata)
      modifies this
      ensures Valid()
      ensures r.Err? ==> rows == old(rows)
      ensures r.Ok? ==> rows == old(rows) + [r.value]
      ensures r.Ok? ==>
                && r.value.header.id == h.id && r.value.header.createdAt == h.createdAt
                && CutTo(r.value.header.eventType, h.eventType, 120) && CutTo(r.value.header.action, h.action, 120)
                && CutTo(r.value.header.actor, h.actor, 120) && CutTo(r.value.header.targetType, h.targetType, 120)
                && CutTo(r.value.header.targetId, h.targetId, 240) && CutTo(r.value.header.outcome, h.outcome, 40)
                && CutTo(r.value.header.summary, h.summary, 1000)
      ensures r.Ok? ==>
                && r.value.previousHash == HeadBefore(old(rows), |old(rows)|) && r.value.sequence == |rows|
                && r.value.eventHash
                   == hash(HashInput(r.value.previousHash, r.value.header, Redact(low, metadata, "")))
      ensures r.Ok? ==> Loads(r.value.metadata) == Some(SortKeys(Redact(low, metadata, "")))
      ensures r.Ok? <==> Unique(old(rows), RowFor(hash, low, old(rows), h, metadata))
    {
      AppendKeepsStored(hash, low, rows, h, metadata);
      r := Insert(h, metadata);
    }

    method Insert(h: Header, metadata: Py) returns (r: Result<Row>)
      modifies this
      ensures r.Ok? <==> Unique(old(rows), RowFor(hash, low, old(rows), h, metadata))
      ensures r.Err? ==> rows == old(rows)
      ensures r.Ok? ==> r.value == RowFor(hash, low, old(rows), h, metadata) && rows == old(rows) + [r.value]
    {
      var previous := if rows == [] then "" else rows[|rows| - 1].eventHash;
      var row := NewRow(hash, low, previous, |rows| + 1, h, metadata);
      if !Unique(rows, row) {
        return Err("UNIQUE constraint failed");
      }
      rows := rows + [row];
      return Ok(row);
    }

    /** A log built by `Record` alone is reported intact, with its length and last hash. */
    method VerifyOwn() returns (v: Verdict)
      requires Valid()
      ensures v == Intact(|rows|, HeadBefore(rows, |rows|))
    {
      InOrderIsRead(rows);
      v := Verify(hash, ReadingOrder(rows));
    }
  }
}
