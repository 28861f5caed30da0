/**
 The hash-chained audit log: `AuditStore.record` and `verify`. The hash function is a parameter; the
 only thing assumed about it is stated at each theorem.
 */
module AuditChain {
  import opened Common
  import opened Json
  import opened Redaction

  datatype Header = Header(id: string, eventType: string, action: string, actor: string, targetType: string,
                           targetId: string, outcome: string, summary: string, createdAt: string)

  /** One row of `audit_events`; the metadata column holds JSON text. */
  datatype Row = Row(sequence: nat, header: Header, metadata: string, previousHash: string, eventHash: string)

  /** The fields of the hashed dictionary, in insertion order. */
  function Fields(h: Header, metadata: Json): seq<Entry> {
    [Entry("id", Str(h.id)), Entry("event_type", Str(h.eventType)), Entry("action", Str(h.action)),
     Entry("actor", Str(h.actor)), Entry("target_type", Str(h.targetType)), Entry("target_id", Str(h.targetId)),
     Entry("outcome", Str(h.outcome)), Entry("summary", Str(h.summary)), Entry("metadata", metadata),
     Entry("created_at", Str(h.createdAt))]
  }

  /** The dictionary whose JSON text is hashed. */
  function Canonical(h: Header, metadata: Json): Json {
    Obj(Fields(h, metadata))
  }

  /** What is hashed: the previous hash, a newline, and the canonical text of the event. */
  function HashInput(previous: string, h: Header, metadata: Json): string {
    previous + ['\n'] + Dumps(Canonical(h, metadata), Compact)
  }

  /** The hash a row must follow. */
  function HeadBefore(rows: seq<Row>, i: nat): string
    requires i <= |rows|
  {
    if i == 0 then "" else rows[i - 1].eventHash
  }

  function InputAt(rows: seq<Row>, i: nat): string
    requires i < |rows| && Loads(rows[i].metadata).Some?
  {
    HashInput(HeadBefore(rows, i), rows[i].header, Loads(rows[i].metadata).value)
  }

  /** Row i follows the rows before it and carries the hash of its own contents. */
  predicate LinkHolds(hash: string -> string, rows: seq<Row>, i: nat)
    requires i < |rows|
  {
    && Loads(rows[i].metadata).Some?
    && rows[i].previousHash == HeadBefore(rows, i)
    && rows[i].eventHash == hash(InputAt(rows, i))
  }

  ghost predicate Chain(hash: string -> string, rows: seq<Row>) {
    forall i :: 0 <= i < |rows| ==> LinkHolds(hash, rows, i)
  }

  /** `Unreadable` is the exception `json.loads` raises on a metadata column that is not JSON. */
  datatype Verdict =
    | Intact(count: nat, head: string)
    | Broken(count: nat, sequence: nat, head: string)
    | Unreadable(sequence: nat)

  /** Row i is the first whose link does not hold. */
  ghost predicate FirstBroken(hash: string -> string, rows: seq<Row>, i: nat) {
    i < |rows| && Chain(hash, rows[..i]) && !LinkHolds(hash, rows, i)
  }

  lemma ChainPrefix(hash: string -> string, rows: seq<Row>, n: nat)
    requires n <= |rows|
    ensures Chain(hash, rows[..n]) <==> forall i :: 0 <= i < n ==> LinkHolds(hash, rows, i)
  {
    forall i | 0 <= i < n
      ensures LinkHolds(hash, rows[..n], i) <==> LinkHolds(hash, rows, i)
    {
      assert HeadBefore(rows[..n], i) == HeadBefore(rows, i);
    }
  }

  /** Cutting rows off the end of a chain leaves a chain: only the head hash tells. */
  lemma TruncationKeepsChain(hash: string -> string, rows: seq<Row>, n: nat)
    requires Chain(hash, rows) && n <= |rows|
    ensures Chain(hash, rows[..n])
  {
    ChainPrefix(hash, rows, n);
  }

  /** Two events that print alike: the same fields, and metadata equal but for key order. */
  ghost predicate SameEvent(h: Header, m: Json, g: Header, n: Json) {
    h == g && SortKeys(m) == SortKeys(n)
  }

  lemma CanonicalValues(h: Header, m: Json)
    ensures SortValues(Fields(h, m)) == Fields(h, SortKeys(m))
  {
    var es, fs := Fields(h, m), Fields(h, SortKeys(m));
    FieldsAlike(h, m, SortKeys(m));
    SortValuesAt(es);
    forall i | 0 <= i < 10
      ensures SortValues(es)[i] == fs[i]
    {
      if i != 8 {
        TextKeepsOrder(es[i].value);
      }
    }
  }

  /** Apart from the metadata every field is text, and depends on the header alone. */
  lemma FieldsAlike(h: Header, m: Json, n: Json)
    ensures var es, fs := Fields(h, m), Fields(h, n);
            && |es| == 10 == |fs|
            && (forall i :: 0 <= i < 10 && i != 8 ==> es[i] == fs[i] && es[i].value.Str?)
            && es[8] == Entry("metadata", m) && fs[8] == Entry("metadata", n)
  {
  }

  lemma TextKeepsOrder(v: Json)
    requires v.Str?
    ensures SortKeys(v) == v
  {
  }

  lemma {:induction false} SortValuesAt(es: seq<Entry>)
    ensures forall i :: 0 <= i < |es| ==> SortValues(es)[i] == Entry(es[i].key, SortKeys(es[i].value))
  {
    if es != [] {
      SortValuesAt(es[1..]);
    }
  }

  lemma FieldsPinEvent(h: Header, m: Json, g: Header, n: Json)
    requires Fields(h, m) == Fields(g, n)
    ensures h == g && m == n
  {
    var x, y := Fields(h, m), Fields(g, n);
    assert x[0] == y[0] && x[1] == y[1] && x[2] == y[2] && x[3] == y[3] && x[4] == y[4];
    assert x[5] == y[5] && x[6] == y[6] && x[7] == y[7] && x[8] == y[8] && x[9] == y[9];
  }

  lemma FieldKeys(h: Header, m: Json, g: Header, n: Json)
    ensures SameKeys(Fields(h, m), Fields(g, n))
  {
  }

  /** The sorted dictionary determines the event. */
  lemma SortedCanonicalPinsEvent(h: Header, m: Json, g: Header, n: Json)
    ensures SortKeys(Canonical(h, m)) == SortKeys(Canonical(g, n)) <==> SameEvent(h, m, g, n)
  {
    CanonicalValues(h, m);
    CanonicalValues(g, n);
    if SortKeys(Canonical(h, m)) == SortKeys(Canonical(g, n)) {
      FieldKeys(h, SortKeys(m), g, SortKeys(n));
      SortSeparates(Fields(h, SortKeys(m)), Fields(g, SortKeys(n)));
      FieldsPinEvent(h, SortKeys(m), g, SortKeys(n));
    }
  }

  /** The hashed text is unambiguous: it determines the previous hash and the event. */
  lemma HashInputIsUnambiguous(p: string, h: Header, m: Json, q: string, g: Header, n: Json)
    requires '\n' !in p && '\n' !in q && Printable(m) && Printable(n)
    ensures HashInput(p, h, m) == HashInput(q, g, n) <==> p == q && SameEvent(h, m, g, n)
  {
    SortedCanonicalPinsEvent(h, m, g, n);
    if HashInput(p, h, m) == HashInput(q, g, n) {
      SplitOnce('\n', p, Dumps(Canonical(h, m), Compact), q, Dumps(Canonical(g, n), Compact));
      CanonicalPrints(h, m);
      CanonicalPrints(g, n);
      SortKeysSettles(Canonical(h, m));
      SortKeysSettles(Canonical(g, n));
      TextIsInjective(SortKeys(Canonical(h, m)), SortKeys(Canonical(g, n)), Compact);
    }
  }

  lemma CanonicalPrints(h: Header, m: Json)
    requires Printable(m)
    ensures Printable(Canonical(h, m))
  {
  }

  /** The digest of anything is hexadecimal text: not empty, and without a newline. */
  ghost predicate Hexadecimal(hash: string -> string) {
    forall x :: hash(x) != "" && '\n' !in hash(x)
  }

  /** No two different inputs that these two logs hash have the same digest. */
  ghost predicate NoCollision(hash: string -> string, a: seq<Row>, b: seq<Row>) {
    forall i, j :: 0 <= i < |a| && 0 <= j < |b|
                   && Loads(a[i].metadata).Some? && Loads(b[j].metadata).Some?
                   && hash(InputAt(a, i)) == hash(InputAt(b, j))
                   ==> InputAt(a, i) == InputAt(b, j)
  }

  /** The two rows say the same and carry the same hashes. */
  ghost predicate SameRow(r: Row, s: Row) {
    SameContent(r, s) && r.previousHash == s.previousHash && r.eventHash == s.eventHash
  }

  ghost predicate SameContent(r: Row, s: Row) {
    && Loads(r.metadata).Some? && Loads(s.metadata).Some?
    && SameEvent(r.header, Loads(r.metadata).value, s.header, Loads(s.metadata).value)
  }

  lemma HeadHasNoNewline(hash: string -> string, rows: seq<Row>, n: nat)
    requires Chain(hash, rows) && Hexadecimal(hash) && n <= |rows|
    ensures '\n' !in HeadBefore(rows, n)
    ensures HeadBefore(rows, n) == "" <==> n == 0
  {
    if n > 0 {
      assert LinkHolds(hash, rows, n - 1);
    }
  }

  /** Equal hashes come from equal events with equal predecessors. */
  lemma EqualHashesSameRows(hash: string -> string, a: seq<Row>, b: seq<Row>, i: nat, j: nat)
    requires Chain(hash, a) && Chain(hash, b) && Hexadecimal(hash)
    requires NoCollision(hash, a, b)
    requires i < |a| && j < |b| && a[i].eventHash == b[j].eventHash
    ensures SameRow(a[i], b[j]) && HeadBefore(a, i) == HeadBefore(b, j)
  {
    assert LinkHolds(hash, a, i) && LinkHolds(hash, b, j);
    HeadHasNoNewline(hash, a, i);
    HeadHasNoNewline(hash, b, j);
    LoadedValuesPrint(a[i].metadata);
    LoadedValuesPrint(b[j].metadata);
    HashInputIsUnambiguous(HeadBefore(a, i), a[i].header, Loads(a[i].metadata).value,
                           HeadBefore(b, j), b[j].header, Loads(b[j].metadata).value);
  }

  /** Both logs verify, and their hashing can be trusted on what they hold. */
  ghost predicate Trusted(hash: string -> string, a: seq<Row>, b: seq<Row>) {
    Chain(hash, a) && Chain(hash, b) && Hexadecimal(hash) && NoCollision(hash, a, b)
  }

  ghost predicate AgreeUpTo(a: seq<Row>, b: seq<Row>, m: nat) {
    m <= |a| && m <= |b| && forall i :: 0 <= i < m ==> SameRow(a[i], b[i])
  }

  lemma EqualHeads(hash: string -> string, a: seq<Row>, b: seq<Row>, m: nat, n: nat)
    requires Trusted(hash, a, b) && m <= |a| && n <= |b| && HeadBefore(a, m) == HeadBefore(b, n)
    ensures m == 0 <==> n == 0
    ensures m > 0 ==> SameRow(a[m - 1], b[n - 1]) && HeadBefore(a, m - 1) == HeadBefore(b, n - 1)
  {
    HeadHasNoNewline(hash, a, m);
    HeadHasNoNewline(hash, b, n);
    if m > 0 {
      EqualHashesSameRows(hash, a, b, m - 1, n - 1);
    }
  }

  /** Going back one step at a time from both ends meets the start of both, and everything between. */
  lemma {:induction false} BackToTheStart(level: (nat, nat) -> bool, same: (nat, nat) -> bool, m: nat, n: nat)
    requires forall i: nat, j: nat :: level(i, j) ==>
               (i == 0 <==> j == 0) && (i > 0 ==> same(i - 1, j - 1) && level(i - 1, j - 1))
    requires level(m, n)
    ensures m == n && forall i: nat :: i < m ==> same(i, i)
    decreases m
  {
    if m > 0 {
      BackToTheStart(level, same, m - 1, n - 1);
    }
  }

  function Level(a: seq<Row>, b: seq<Row>): (nat, nat) -> bool {
    (m: nat, n: nat) => m <= |a| && n <= |b| && HeadBefore(a, m) == HeadBefore(b, n)
  }

  ghost function Same(a: seq<Row>, b: seq<Row>): (nat, nat) -> bool {
    (i: nat, j: nat) => i < |a| && j < |b| && SameRow(a[i], b[j])
  }

  lemma HeadPinsPrefixes(hash: string -> string, a: seq<Row>, b: seq<Row>, m: nat, n: nat)
    requires Trusted(hash, a, b) && m <= |a| && n <= |b| && HeadBefore(a, m) == HeadBefore(b, n)
    ensures m == n && AgreeUpTo(a, b, m)
  {
    forall i: nat, j: nat | Level(a, b)(i, j)
      ensures i == 0 <==> j == 0
      ensures i > 0 ==> Same(a, b)(i - 1, j - 1) && Level(a, b)(i - 1, j - 1)
    {
      EqualHeads(hash, a, b, i, j);
    }
    BackToTheStart(Level(a, b), Same(a, b), m, n);
    AgreeFromSame(a, b, m);
  }

  lemma AgreeFromSame(a: seq<Row>, b: seq<Row>, m: nat)
    requires m <= |a| && m <= |b| && forall i: nat :: i < m ==> Same(a, b)(i, i)
    ensures AgreeUpTo(a, b, m)
  {
    forall i | 0 <= i < m
      ensures SameRow(a[i], b[i])
    {
      assert Same(a, b)(i, i);
    }
  }

  /**
   The head hash pins the whole log: two logs that both verify and end in the same head hash have the
   same length and agree event by event, unless the hash collides on something one of them hashed.
   Lengths need not be given: an empty log has an empty head.
   */
  lemma HeadHashPinsTheLog(hash: string -> string, a: seq<Row>, b: seq<Row>)
    requires Trusted(hash, a, b)
    ensures HeadBefore(a, |a|) == HeadBefore(b, |b|) <==> |a| == |b| && AgreeUpTo(a, b, |a|)
  {
    if HeadBefore(a, |a|) == HeadBefore(b, |b|) {
      HeadPinsPrefixes(hash, a, b, |a|, |b|);
    }
    if |a| == |b| && |a| > 0 && AgreeUpTo(a, b, |a|) {
      assert SameRow(a[|a| - 1], b[|a| - 1]);
    }
  }

  /** Rewriting what one event says, and nothing else, breaks the chain at that very event. */
  lemma RewritingBreaksTheLink(hash: string -> string, rows: seq<Row>, i: nat, changed: Row)
    requires Chain(hash, rows) && Hexadecimal(hash) && i < |rows|
    requires changed.previousHash == rows[i].previousHash && changed.eventHash == rows[i].eventHash
    requires NoCollision(hash, rows, rows[i := changed])
    requires Loads(changed.metadata).Some?
    ensures FirstBroken(hash, rows[i := changed], i) <==> !SameContent(rows[i], changed)
  {
    var after := rows[i := changed];
    assert after[..i] == rows[..i];
    TruncationKeepsChain(hash, rows, i);
    assert LinkHolds(hash, rows, i);
    assert HeadBefore(after, i) == HeadBefore(rows, i);
    HeadHasNoNewline(hash, rows, i);
    LoadedValuesPrint(rows[i].metadata);
    LoadedValuesPrint(changed.metadata);
    HashInputIsUnambiguous(HeadBefore(rows, i), rows[i].header, Loads(rows[i].metadata).value,
                           HeadBefore(rows, i), changed.header, Loads(changed.metadata).value);
  }

  function ClipHeader(h: Header): Header {
    Header(h.id, Clip(h.eventType, 120), Clip(h.action, 120), Clip(h.actor, 120), Clip(h.targetType, 120),
           Clip(h.targetId, 240), Clip(h.outcome, 40), Clip(h.summary, 1000), h.createdAt)
  }

  /** The row `record` writes after a log whose last hash is `previous`. */
  function NewRow(hash: string -> string, low: char -> string, previous: string, sequence: nat, h: Header,
                  metadata: Py): Row {
    var safe := Redact(low, metadata, "");
    Row(sequence, ClipHeader(h), Dumps(safe, Spaced), previous, hash(HashInput(previous, ClipHeader(h), safe)))
  }

  /** The value hashed at recording time and the value loaded at verification time hash alike. */
  lemma ReloadedMetadataHashesAlike(previous: string, h: Header, m: Json)
    requires Printable(m)
    ensures Loads(Dumps(m, Spaced)) == Some(SortKeys(m))
    ensures HashInput(previous, h, SortKeys(m)) == HashInput(previous, h, m)
  {
    StoredValuePrintsAlike(m, Spaced, Compact);
    CanonicalValues(h, m);
    CanonicalValues(h, SortKeys(m));
    SortKeysSettles(m);
  }

  lemma RecordedRowLinks(hash: string -> string, low: char -> string, rows: seq<Row>, sequence: nat, h: Header,
                         metadata: Py)
    requires Chain(hash, rows) && PlainNumbers(metadata)
    ensures var row := NewRow(hash, low, HeadBefore(rows, |rows|), sequence, h, metadata);
            Chain(hash, rows + [row])
  {
    var previous := HeadBefore(rows, |rows|);
    var row := NewRow(hash, low, previous, sequence, h, metadata);
    var all := rows + [row];
    var safe := Redact(low, metadata, "");
    RedactedValuesPrint(low, metadata, "");
    ReloadedMetadataHashesAlike(previous, ClipHeader(h), safe);
    SortKeysSettles(safe);
    assert all[..|rows|] == rows;
    ChainPrefix(hash, all, |rows|);
    assert HeadBefore(all, |rows|) == previous;
    assert LinkHolds(hash, all, |rows|);
  }

  lemma NewRowReloads(hash: string -> string, low: char -> string, previous: string, sequence: nat, h: Header,
                      metadata: Py)
    requires PlainNumbers(metadata)
    ensures Loads(NewRow(hash, low, previous, sequence, h, metadata).metadata)
            == Some(SortKeys(Redact(low, metadata, "")))
  {
    RedactedValuesPrint(low, metadata, "");
    ReloadedMetadataHashesAlike(previous, ClipHeader(h), Redact(low, metadata, ""));
  }

  /** The check of one row, as the walk makes it. */
  lemma RowChecks(hash: string -> string, rows: seq<Row>, i: nat)
    requires i < |rows| && Chain(hash, rows[..i])
    ensures LinkHolds(hash, rows, i) ==> Chain(hash, rows[..i + 1])
    ensures !LinkHolds(hash, rows, i) ==> FirstBroken(hash, rows, i)
  {
    ChainPrefix(hash, rows, i);
    ChainPrefix(hash, rows, i + 1);
  }

  lemma BrokenIsNoChain(hash: string -> string, rows: seq<Row>, i: nat)
    requires FirstBroken(hash, rows, i)
    ensures !Chain(hash, rows)
  {
  }

  /** Walks the stored rows in order and reports the first that does not link. */
  method Verify(hash: string -> string, rows: seq<Row>) returns (v: Verdict)
    ensures v.Intact? <==> Chain(hash, rows)
    ensures v.Intact? ==> v == Intact(|rows|, HeadBefore(rows, |rows|))
    ensures !v.Intact? ==>
              exists i: nat :: FirstBroken(hash, rows, i)
                          && v == if Loads(rows[i].metadata).None? then Unreadable(rows[i].sequence)
                                  else Broken(|rows|, rows[i].sequence, HeadBefore(rows, i))
  {
    var previousHash := "";
    var i := 0;
    while i < |rows|
      invariant 0 <= i <= |rows|
      invariant previousHash == HeadBefore(rows, i)
      invariant Chain(hash, rows[..i])
    {
      RowChecks(hash, rows, i);
      var loaded := Loads(rows[i].metadata);
      if loaded.None? {
        BrokenIsNoChain(hash, rows, i);
        return Unreadable(rows[i].sequence);
      }
      var expected := hash(HashInput(previousHash, rows[i].header, loaded.value));
      if rows[i].previousHash != previousHash || rows[i].eventHash != expected {
        BrokenIsNoChain(hash, rows, i);
        return Broken(|rows|, rows[i].sequence, previousHash);
      }
      previousHash := rows[i].eventHash;
      i := i + 1;
    }
    assert rows[..i] == rows;
    v := Intact(|rows|, previousHash);
  }
}
