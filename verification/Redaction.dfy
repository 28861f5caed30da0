/** Key-based redaction of audit metadata: `AuditStore._redact`. */
module Redaction {
  import opened Common
  import opened Json

  /** A metadata value as the caller passes it; dictionary keys are given by their `str`. */
  datatype Py =
    | PyNone
    | PyBool(b: bool)
    | PyNumber(lexeme: string)
    | PyStr(s: string)
    | PyList(items: seq<Py>)
    | PyDict(entries: seq<PyEntry>)
    | PyOther(text: string)

  datatype PyEntry = PyEntry(key: string, value: Py)

  const MARK := "[REDACTED]"
  const KEY_LIMIT := 160
  const TEXT_LIMIT := 4000
  const SIZE_LIMIT := 100
  const SENSITIVE_PARTS := ["authorization", "credential", "password", "secret", "token", "webhook_url"]

  /** `str.lower`, character by character: `low` may map one character to several. */
  function Lower(low: char -> string, s: string): string {
    if s == [] then [] else low(s[0]) + Lower(low, s[1..])
  }

  predicate Contains(s: string, part: string) {
    exists i :: 0 <= i <= |s| && IsPrefix(part, s[i..])
  }

  predicate IsPrefix(p: string, s: string) {
    |p| <= |s| && s[..|p|] == p
  }

  predicate Sensitive(low: char -> string, key: string) {
    exists part :: part in SENSITIVE_PARTS && Contains(Lower(low, key), part)
  }

  /** Assignment to a dictionary key: a repeated key keeps its place and takes the new value. */
  function Put(entries: seq<Entry>, e: Entry): seq<Entry> {
    if entries == [] then [e]
    else if entries[0].key == e.key then [e] + entries[1..]
    else [entries[0]] + Put(entries[1..], e)
  }

  function PutAll(done: seq<Entry>, entries: seq<Entry>): seq<Entry>
    decreases |entries|
  {
    if entries == [] then done else PutAll(Put(done, entries[0]), entries[1..])
  }

  function Redact(low: char -> string, v: Py, key: string): Json
    decreases v, 1
  {
    if Sensitive(low, key) then Str(MARK)
    else
      match v
      case PyNone => Null
      case PyBool(b) => Bool(b)
      case PyNumber(l) => Num(l)
      case PyStr(s) => Str(Clip(s, TEXT_LIMIT))
      case PyList(items) => Arr(RedactItems(low, items, SIZE_LIMIT))
      case PyDict(entries) => Obj(PutAll([], RedactEntries(low, entries, SIZE_LIMIT)))
      case PyOther(text) => Str(Clip(text, TEXT_LIMIT))
  }

  /** The first `n` items, redacted. */
  function RedactItems(low: char -> string, items: seq<Py>, n: nat): seq<Json>
    decreases items, 0
  {
    if items == [] || n == 0 then [] else [Redact(low, items[0], "")] + RedactItems(low, items[1..], n - 1)
  }

  function RedactEntries(low: char -> string, entries: seq<PyEntry>, n: nat): seq<Entry>
    decreases entries, 0
  {
    if entries == [] || n == 0 then []
    else [Entry(Clip(entries[0].key, KEY_LIMIT), Redact(low, entries[0].value, entries[0].key))]
         + RedactEntries(low, entries[1..], n - 1)
  }

  predicate UniqueKeys(entries: seq<Entry>) {
    forall i, j :: 0 <= i < j < |entries| ==> entries[i].key != entries[j].key
  }

  /** Nothing under a sensitive key but the mark, and everything within the size limits, at any depth. */
  predicate Safe(low: char -> string, v: Json)
    decreases v
  {
    match v
    case Str(s) => |s| <= TEXT_LIMIT
    case Arr(items) => |items| <= SIZE_LIMIT && forall x :: x in items ==> Safe(low, x)
    case Obj(entries) =>
      && |entries| <= SIZE_LIMIT && UniqueKeys(entries)
      && forall e :: e in entries ==>
           && |e.key| <= KEY_LIMIT
           && (Sensitive(low, e.key) ==> e.value == Str(MARK))
           && Safe(low, e.value)
    case _ => true
  }

  predicate SafeEntry(low: char -> string, e: Entry) {
    |e.key| <= KEY_LIMIT && (Sensitive(low, e.key) ==> e.value == Str(MARK)) && Safe(low, e.value)
  }

  // A clipped key is no more sensitive than the whole key.

  lemma {:induction false} LowerOfPrefix(low: char -> string, s: string, n: nat)
    requires n <= |s|
    ensures IsPrefix(Lower(low, s[..n]), Lower(low, s))
  {
    if n > 0 {
      LowerOfPrefix(low, s[1..], n - 1);
      assert s[..n][1..] == s[1..][..n - 1];
      var head, rest, part := low(s[0]), Lower(low, s[1..]), Lower(low, s[1..][..n - 1]);
      assert Lower(low, s[..n]) == head + part;
      assert (head + rest)[..|head + part|] == head + rest[..|part|];
    }
  }

  lemma ContainedInPrefix(p: string, s: string, part: string)
    requires IsPrefix(p, s) && Contains(p, part)
    ensures Contains(s, part)
  {
    var i :| 0 <= i <= |p| && IsPrefix(part, p[i..]);
    assert s[i..][..|part|] == p[i..][..|part|];
  }

  lemma ClippedKeyIsNoMoreSensitive(low: char -> string, key: string)
    ensures Sensitive(low, Clip(key, KEY_LIMIT)) ==> Sensitive(low, key)
  {
    if Sensitive(low, Clip(key, KEY_LIMIT)) && |key| > KEY_LIMIT {
      var part :| part in SENSITIVE_PARTS && Contains(Lower(low, Clip(key, KEY_LIMIT)), part);
      LowerOfPrefix(low, key, KEY_LIMIT);
      ContainedInPrefix(Lower(low, key[..KEY_LIMIT]), Lower(low, key), part);
    }
  }

  lemma EmptyKeyIsNotSensitive(low: char -> string)
    ensures !Sensitive(low, "")
  {
  }

  lemma {:induction false} PutKeeps(entries: seq<Entry>, e: Entry)
    requires UniqueKeys(entries)
    ensures UniqueKeys(Put(entries, e)) && |entries| <= |Put(entries, e)| <= |entries| + 1
    ensures forall x :: x in Put(entries, e) ==> x == e || x in entries
  {
    if entries != [] && entries[0].key != e.key {
      PutKeeps(entries[1..], e);
      var rest := Put(entries[1..], e);
      forall k | 0 <= k < |rest|
        ensures rest[k].key != entries[0].key
      {
        assert rest[k] in rest;
      }
    }
  }

  lemma {:induction false} PutAllKeeps(done: seq<Entry>, entries: seq<Entry>)
    requires UniqueKeys(done)
    ensures UniqueKeys(PutAll(done, entries)) && |PutAll(done, entries)| <= |done| + |entries|
    ensures forall x :: x in PutAll(done, entries) ==> x in done || x in entries
    decreases |entries|
  {
    if entries != [] {
      PutKeeps(done, entries[0]);
      PutAllKeeps(Put(done, entries[0]), entries[1..]);
    }
  }

  /** Whatever the caller passes, what is recorded is safe. */
  lemma {:induction false} RedactionIsSafe(low: char -> string, v: Py, key: string)
    ensures Safe(low, Redact(low, v, key))
    decreases v, 1
  {
    if !Sensitive(low, key) {
      match v {
        case PyList(items) => RedactedItemsAreSafe(low, items, SIZE_LIMIT);
        case PyDict(entries) =>
          RedactedEntriesAreSafe(low, entries, SIZE_LIMIT);
          PutAllKeeps([], RedactEntries(low, entries, SIZE_LIMIT));
          var all := PutAll([], RedactEntries(low, entries, SIZE_LIMIT));
          assert forall e :: e in all ==> SafeEntry(low, e);
        case _ =>
      }
    }
  }

  lemma {:induction false} RedactedItemsAreSafe(low: char -> string, items: seq<Py>, n: nat)
    ensures |RedactItems(low, items, n)| <= n
    ensures forall x :: x in RedactItems(low, items, n) ==> Safe(low, x)
    decreases items, 0
  {
    if items != [] && n != 0 {
      RedactionIsSafe(low, items[0], "");
      RedactedItemsAreSafe(low, items[1..], n - 1);
    }
  }

  lemma {:induction false} RedactedEntriesAreSafe(low: char -> string, entries: seq<PyEntry>, n: nat)
    ensures |RedactEntries(low, entries, n)| <= n
    ensures forall e :: e in RedactEntries(low, entries, n) ==> SafeEntry(low, e)
    decreases entries, 0
  {
    if entries != [] && n != 0 {
      RedactionIsSafe(low, entries[0].value, entries[0].key);
      ClippedKeyIsNoMoreSensitive(low, entries[0].key);
      RedactedEntriesAreSafe(low, entries[1..], n - 1);
    }
  }

  /** A recorded value passed in again. */
  function Reload(v: Json): Py
    decreases v, 1
  {
    match v
    case Null => PyNone
    case Bool(b) => PyBool(b)
    case Num(l) => PyNumber(l)
    case Str(s) => PyStr(s)
    case Arr(items) => PyList(ReloadItems(items))
    case Obj(entries) => PyDict(ReloadEntries(entries))
  }

  function ReloadItems(items: seq<Json>): seq<Py>
    decreases items, 0
  {
    if items == [] then [] else [Reload(items[0])] + ReloadItems(items[1..])
  }

  function ReloadEntries(entries: seq<Entry>): seq<PyEntry>
    decreases entries, 0
  {
    if entries == [] then [] else [PyEntry(entries[0].key, Reload(entries[0].value))] + ReloadEntries(entries[1..])
  }

  lemma {:induction false} PutNew(entries: seq<Entry>, e: Entry)
    requires forall x :: x in entries ==> x.key != e.key
    ensures Put(entries, e) == entries + [e]
  {
    if entries != [] {
      PutNew(entries[1..], e);
    }
  }

  lemma {:induction false} PutAllNew(done: seq<Entry>, entries: seq<Entry>)
    requires UniqueKeys(done + entries)
    ensures PutAll(done, entries) == done + entries
    decreases |entries|
  {
    if entries == [] {
      assert done + entries == done;
    } else {
      var all := done + entries;
      assert forall i :: 0 <= i < |done| ==> all[i] == done[i];
      assert all[|done|] == entries[0];
      PutNew(done, entries[0]);
      assert (done + [entries[0]]) + entries[1..] == all;
      PutAllNew(done + [entries[0]], entries[1..]);
    }
  }

  /** A safe value passes through redaction unchanged, under any key it may stand. */
  lemma {:induction false} SafeValuesPass(low: char -> string, v: Json, key: string)
    requires Safe(low, v) && (Sensitive(low, key) ==> v == Str(MARK))
    ensures Redact(low, Reload(v), key) == v
    decreases v, 1
  {
    if !Sensitive(low, key) {
      match v {
        case Arr(items) => SafeItemsPass(low, items, SIZE_LIMIT);
        case Obj(entries) => SafeObjectPasses(low, entries);
        case _ =>
      }
    }
  }

  lemma {:induction false} SafeObjectPasses(low: char -> string, entries: seq<Entry>)
    requires Safe(low, Obj(entries))
    ensures PutAll([], RedactEntries(low, ReloadEntries(entries), SIZE_LIMIT)) == entries
    decreases entries, 1
  {
    assert forall e :: e in entries ==> SafeEntry(low, e);
    SafeEntriesPass(low, entries, SIZE_LIMIT);
    assert [] + entries == entries;
    PutAllNew([], entries);
  }

  lemma {:induction false} SafeItemsPass(low: char -> string, items: seq<Json>, n: nat)
    requires |items| <= n && forall x :: x in items ==> Safe(low, x)
    ensures RedactItems(low, ReloadItems(items), n) == items
    decreases items, 0
  {
    if items != [] {
      EmptyKeyIsNotSensitive(low);
      SafeValuesPass(low, items[0], "");
      SafeItemsPass(low, items[1..], n - 1);
    }
  }

  lemma {:induction false} SafeEntriesPass(low: char -> string, entries: seq<Entry>, n: nat)
    requires |entries| <= n && forall e :: e in entries ==> SafeEntry(low, e)
    ensures RedactEntries(low, ReloadEntries(entries), n) == entries
    decreases entries, 0
  {
    if entries != [] {
      assert SafeEntry(low, entries[0]);
      SafeValuesPass(low, entries[0].value, entries[0].key);
      SafeEntriesPass(low, entries[1..], n - 1);
    }
  }

  /** Redaction leaves a recorded value alone exactly when it is safe; so it is idempotent. */
  lemma RedactionFixesExactlySafeValues(low: char -> string, j: Json, v: Py)
    ensures Redact(low, Reload(j), "") == j <==> Safe(low, j)
    ensures Redact(low, Reload(Redact(low, v, "")), "") == Redact(low, v, "")
  {
    EmptyKeyIsNotSensitive(low);
    RedactionIsSafe(low, Reload(j), "");
    if Safe(low, j) {
      SafeValuesPass(low, j, "");
    }
    RedactionIsSafe(low, v, "");
    SafeValuesPass(low, Redact(low, v, ""), "");
  }

  /** Numbers that print as numbers; everything else always prints. */
  predicate PlainNumbers(v: Py)
    decreases v
  {
    match v
    case PyNumber(l) => PlainNumber(l)
    case PyList(items) => forall x :: x in items ==> PlainNumbers(x)
    case PyDict(entries) => forall e :: e in entries ==> PlainNumbers(e.value)
    case _ => true
  }

  lemma {:induction false} RedactedValuesPrint(low: char -> string, v: Py, key: string)
    requires PlainNumbers(v)
    ensures Printable(Redact(low, v, key))
    decreases v, 1
  {
    if !Sensitive(low, key) {
      match v {
        case PyList(items) => RedactedItemsPrint(low, items, SIZE_LIMIT);
        case PyDict(entries) =>
          RedactedEntriesPrint(low, entries, SIZE_LIMIT);
          PutAllKeeps([], RedactEntries(low, entries, SIZE_LIMIT));
        case _ =>
      }
    }
  }

  lemma {:induction false} RedactedItemsPrint(low: char -> string, items: seq<Py>, n: nat)
    requires forall x :: x in items ==> PlainNumbers(x)
    ensures forall x :: x in RedactItems(low, items, n) ==> Printable(x)
    decreases items, 0
  {
    if items != [] && n != 0 {
      RedactedValuesPrint(low, items[0], "");
      RedactedItemsPrint(low, items[1..], n - 1);
    }
  }

  lemma {:induction false} RedactedEntriesPrint(low: char -> string, entries: seq<PyEntry>, n: nat)
    requires forall e :: e in entries ==> PlainNumbers(e.value)
    ensures forall e :: e in RedactEntries(low, entries, n) ==> Printable(e.value)
    decreases entries, 0
  {
    if entries != [] && n != 0 {
      RedactedValuesPrint(low, entries[0].value, entries[0].key);
      RedactedEntriesPrint(low, entries[1..], n - 1);
    }
  }

  // What redaction hides.

  /** The two values differ, at any depth, only in what stands under a sensitive key. */
  predicate DifferInSecrets(low: char -> string, v: Py, w: Py, key: string)
    decreases v
  {
    Sensitive(low, key)
    || match (v, w)
       case (PyList(xs), PyList(ys)) =>
         |xs| == |ys| && forall i :: 0 <= i < |xs| ==> DifferInSecrets(low, xs[i], ys[i], "")
       case (PyDict(es), PyDict(fs)) =>
         |es| == |fs| && forall i :: 0 <= i < |es| ==>
           es[i].key == fs[i].key && DifferInSecrets(low, es[i].value, fs[i].value, es[i].key)
       case _ => v == w
  }

  /** Such values are recorded alike: nothing under a sensitive key influences the record. */
  lemma {:induction false} SecretsDoNotShow(low: char -> string, v: Py, w: Py, key: string)
    requires DifferInSecrets(low, v, w, key)
    ensures Redact(low, v, key) == Redact(low, w, key)
    decreases v, 1
  {
    if !Sensitive(low, key) {
      match (v, w) {
        case (PyList(xs), PyList(ys)) => SecretItemsDoNotShow(low, xs, ys, SIZE_LIMIT);
        case (PyDict(es), PyDict(fs)) => SecretEntriesDoNotShow(low, es, fs, SIZE_LIMIT);
        case _ =>
      }
    }
  }

  lemma {:induction false} SecretItemsDoNotShow(low: char -> string, xs: seq<Py>, ys: seq<Py>, n: nat)
    requires |xs| == |ys| && forall i :: 0 <= i < |xs| ==> DifferInSecrets(low, xs[i], ys[i], "")
    ensures RedactItems(low, xs, n) == RedactItems(low, ys, n)
    decreases xs, 0
  {
    if xs != [] && n > 0 {
      SecretsDoNotShow(low, xs[0], ys[0], "");
      SecretItemsDoNotShow(low, xs[1..], ys[1..], n - 1);
    }
  }

  lemma {:induction false} SecretEntriesDoNotShow(low: char -> string, es: seq<PyEntry>, fs: seq<PyEntry>, n: nat)
    requires |es| == |fs|
    requires forall i :: 0 <= i < |es| ==>
               es[i].key == fs[i].key && DifferInSecrets(low, es[i].value, fs[i].value, es[i].key)
    ensures RedactEntries(low, es, n) == RedactEntries(low, fs, n)
    decreases es, 0
  {
    if es != [] && n > 0 {
      SecretsDoNotShow(low, es[0].value, fs[0].value, es[0].key);
      SecretEntriesDoNotShow(low, es[1..], fs[1..], n - 1);
    }
  }

  /**
   Other objects are not searched: a tuple or set is recorded as its text, so what a dictionary inside
   it holds shows exactly as far as the first 4000 characters of that text do.
   */
  lemma OtherObjectsShow(low: char -> string, text: string, other: string, key: string)
    requires !Sensitive(low, key)
    ensures Redact(low, PyDict([PyEntry(key, PyOther(text))]), "")
         == Redact(low, PyDict([PyEntry(key, PyOther(other))]), "")
       <==> Clip(text, TEXT_LIMIT) == Clip(other, TEXT_LIMIT)
  {
    EmptyKeyIsNotSensitive(low);
    OtherObjectRecorded(low, text, key);
    OtherObjectRecorded(low, other, key);
  }

  lemma OtherObjectRecorded(low: char -> string, text: string, key: string)
    requires !Sensitive(low, key)
    ensures Redact(low, PyDict([PyEntry(key, PyOther(text))]), "")
         == Obj([Entry(Clip(key, KEY_LIMIT), Str(Clip(text, TEXT_LIMIT)))])
  {
    EmptyKeyIsNotSensitive(low);
    var e := Entry(Clip(key, KEY_LIMIT), Str(Clip(text, TEXT_LIMIT)));
    var es := [PyEntry(key, PyOther(text))];
    assert es[1..] == [] && RedactEntries(low, [], SIZE_LIMIT - 1) == [];
    assert RedactEntries(low, es, SIZE_LIMIT) == [e];
    assert PutAll([], [e]) == PutAll(Put([], e), [e][1..]) == [e];
  }

  // What redaction keeps.

  /** `Lower` goes through the text character by character. */
  lemma {:induction false} LowerOfJoined(low: char -> string, s: string, t: string)
    ensures Lower(low, "") == "" && (forall c :: Lower(low, [c]) == low(c))
    ensures Lower(low, s + t) == Lower(low, s) + Lower(low, t)
  {
    if s == "" {
      assert s + t == t;
    } else {
      LowerOfJoined(low, s[1..], t);
      assert (s + t)[1..] == s[1..] + t;
    }
  }

  /** The part stands somewhere in the text. */
  ghost predicate Holds(text: string, part: string) {
    exists before: string, after: string :: text == before + part + after
  }

  lemma ContainsMeans(text: string, part: string)
    ensures Contains(text, part) <==> Holds(text, part)
  {
    if Contains(text, part) {
      var i :| 0 <= i <= |text| && IsPrefix(part, text[i..]);
      assert text == text[..i] + part + text[i + |part|..];
    }
    if before: string, after: string :| text == before + part + after {
      assert text[|before|..][..|part|] == part;
    }
  }

  /** A key is sensitive if one of six words stands in its lower-case form. */
  lemma SensitiveMeans(low: char -> string, key: string)
    ensures var text := Lower(low, key);
            Sensitive(low, key) <==>
              || Holds(text, "authorization") || Holds(text, "credential") || Holds(text, "password")
              || Holds(text, "secret") || Holds(text, "token") || Holds(text, "webhook_url")
  {
    var text := Lower(low, key);
    assert forall part :: part in SENSITIVE_PARTS <==>
             || part == "authorization" || part == "credential" || part == "password"
             || part == "secret" || part == "token" || part == "webhook_url";
    forall part
      ensures Contains(text, part) <==> Holds(text, part)
    {
      ContainsMeans(text, part);
    }
  }

  /** Under a key that is not sensitive a text is cut at 4000 characters and other plain values stay. */
  lemma PlainValuesStay(low: char -> string, v: Py, key: string)
    requires !Sensitive(low, key)
    ensures v == PyNone ==> Redact(low, v, key) == Null
    ensures v.PyBool? ==> Redact(low, v, key) == Bool(v.b)
    ensures v.PyNumber? ==> Redact(low, v, key) == Num(v.lexeme)
    ensures v.PyStr? ==> Redact(low, v, key).Str? && CutTo(Redact(low, v, key).s, v.s, 4000)
    ensures v.PyOther? ==> Redact(low, v, key).Str? && CutTo(Redact(low, v, key).s, v.text, 4000)
  {
  }

  lemma {:induction false} ItemsInOrder(low: char -> string, items: seq<Py>, n: nat)
    ensures |RedactItems(low, items, n)| == Min(n, |items|)
    ensures forall i :: 0 <= i < |RedactItems(low, items, n)| ==>
              RedactItems(low, items, n)[i] == Redact(low, items[i], "")
  {
    if items != [] && n > 0 {
      ItemsInOrder(low, items[1..], n - 1);
    }
  }

  /** Of a list the first hundred items stay, in order, each redacted on its own. */
  lemma FirstHundredItemsStay(low: char -> string, items: seq<Py>, key: string)
    requires !Sensitive(low, key)
    ensures var r := Redact(low, PyList(items), key);
            && r.Arr? && |r.items| == (if |items| <= 100 then |items| else 100)
            && forall i :: 0 <= i < |r.items| ==> r.items[i] == Redact(low, items[i], "")
  {
    ItemsInOrder(low, items, SIZE_LIMIT);
  }

  lemma {:induction false} EntriesInOrder(low: char -> string, entries: seq<PyEntry>, n: nat)
    ensures |RedactEntries(low, entries, n)| == Min(n, |entries|)
    ensures forall i :: 0 <= i < |RedactEntries(low, entries, n)| ==>
              RedactEntries(low, entries, n)[i]
              == Entry(Clip(entries[i].key, KEY_LIMIT), Redact(low, entries[i].value, entries[i].key))
  {
    if entries != [] && n > 0 {
      EntriesInOrder(low, entries[1..], n - 1);
    }
  }

  /** The i-th of these entries is the last with this key. */
  ghost predicate LastWith(entries: seq<Entry>, key: string, i: nat) {
    i < |entries| && entries[i].key == key && forall j :: i < j < |entries| ==> entries[j].key != key
  }

  lemma {:induction false} PutAllSnoc(done: seq<Entry>, es: seq<Entry>, e: Entry)
    ensures PutAll(done, es + [e]) == Put(PutAll(done, es), e)
    decreases |es|
  {
    if es == [] {
      assert es + [e] == [e] && [e][1..] == [];
      assert PutAll(Put(done, e), []) == Put(done, e);
    } else {
      PutAllSnoc(Put(done, es[0]), es[1..], e);
      assert (es + [e])[1..] == es[1..] + [e];
    }
  }

  /** The keys stay where they are; a new one comes last. */
  lemma {:induction false} PutPlaces(entries: seq<Entry>, e: Entry)
    ensures var r := Put(entries, e);
            && |entries| <= |r| && (forall k :: 0 <= k < |entries| ==> r[k].key == entries[k].key)
            && (|r| > |entries| ==> r == entries + [e] && forall x :: x in entries ==> x.key != e.key)
            && e in r
  {
    if entries == [] {
      assert Put(entries, e) == [e];
    } else if entries[0].key != e.key {
      PutPlaces(entries[1..], e);
      assert entries == [entries[0]] + entries[1..];
    } else {
      assert Put(entries, e) == [e] + entries[1..];
    }
  }

  lemma {:induction false} PutReplaces(entries: seq<Entry>, e: Entry)
    requires UniqueKeys(entries)
    ensures forall x :: x in Put(entries, e) ==> x == e || (x in entries && x.key != e.key)
  {
    if entries != [] {
      PutReplaces(entries[1..], e);
      forall x | x in entries[1..]
        ensures x.key != entries[0].key
      {
        var k :| 0 <= k < |entries[1..]| && entries[1..][k] == x;
        assert entries[k + 1] == x;
      }
    }
  }

  /** The first key is met in the list before the second. */
  ghost predicate MetFirst(es: seq<Entry>, k: string, l: string) {
    exists i :: 0 <= i < |es| && es[i].key == k && forall j :: 0 <= j <= i ==> es[j].key != l
  }

  lemma MetFirstGrows(es: seq<Entry>, e: Entry, k: string, l: string)
    requires MetFirst(es, k, l)
    ensures MetFirst(es + [e], k, l)
  {
    var i :| 0 <= i < |es| && es[i].key == k && forall j :: 0 <= j <= i ==> es[j].key != l;
    assert (es + [e])[i] == es[i] && forall j :: 0 <= j <= i ==> (es + [e])[j] == es[j];
  }

  /** A dictionary built by assignments: each key once, in the order first met, with the value last assigned. */
  ghost predicate Assigned(r: seq<Entry>, es: seq<Entry>) {
    && UniqueKeys(r)
    && (forall e :: e in r ==> AssignedLast(es, e))
    && (forall e :: e in es ==> HasKey(r, e.key))
    && (forall a, b :: 0 <= a < b < |r| ==> MetFirst(es, r[a].key, r[b].key))
  }

  ghost predicate AssignedLast(es: seq<Entry>, e: Entry) {
    exists i: nat :: LastWith(es, e.key, i) && es[i] == e
  }

  ghost predicate HasKey(r: seq<Entry>, key: string) {
    exists x :: x in r && x.key == key
  }

  lemma AssignedLastStep(es: seq<Entry>, e: Entry, x: Entry)
    ensures AssignedLast(es + [e], e)
    ensures AssignedLast(es, x) && x.key != e.key ==> AssignedLast(es + [e], x)
  {
    var all := es + [e];
    assert LastWith(all, e.key, |es|) && all[|es|] == e;
    if AssignedLast(es, x) && x.key != e.key {
      var i: nat :| LastWith(es, x.key, i) && es[i] == x;
      assert LastWith(all, x.key, i) && all[i] == x;
    }
  }

  lemma KeysStay(r: seq<Entry>, e: Entry, key: string)
    ensures HasKey(r, key) || e.key == key ==> HasKey(Put(r, e), key)
  {
    PutPlaces(r, e);
    if x :| x in r && x.key == key {
      var k :| 0 <= k < |r| && r[k] == x;
      assert Put(r, e)[k] in Put(r, e);
    }
  }

  lemma OrderStays(r: seq<Entry>, es: seq<Entry>, e: Entry, a: nat, b: nat)
    requires Assigned(r, es) && a < b < |Put(r, e)|
    ensures MetFirst(es + [e], Put(r, e)[a].key, Put(r, e)[b].key)
  {
    PutPlaces(r, e);
    PutKeeps(r, e);
    if b < |r| {
      MetFirstGrows(es, e, r[a].key, r[b].key);
    } else {
      assert r[a] in r && AssignedLast(es, r[a]);
      assert !HasKey(r, e.key);
      var i: nat :| LastWith(es, r[a].key, i) && es[i] == r[a];
      forall j | 0 <= j <= i
        ensures es[j].key != e.key
      {
        assert es[j] in es && HasKey(r, es[j].key);
      }
      assert MetFirst(es, r[a].key, e.key);
      MetFirstGrows(es, e, r[a].key, e.key);
    }
  }

  lemma AssignOnce(r: seq<Entry>, es: seq<Entry>, e: Entry)
    requires Assigned(r, es)
    ensures Assigned(Put(r, e), es + [e])
  {
    var all := Put(r, e);
    PutKeeps(r, e);
    PutReplaces(r, e);
    forall x | x in all
      ensures AssignedLast(es + [e], x)
    {
      AssignedLastStep(es, e, x);
    }
    forall x | x in es + [e]
      ensures HasKey(all, x.key)
    {
      KeysStay(r, e, x.key);
    }
    forall a, b | 0 <= a < b < |all|
      ensures MetFirst(es + [e], all[a].key, all[b].key)
    {
      OrderStays(r, es, e, a, b);
    }
  }

  lemma {:induction false} PutAllAssigns(es: seq<Entry>)
    ensures Assigned(PutAll([], es), es)
  {
    if es != [] {
      var front, last := es[..|es| - 1], es[|es| - 1];
      assert es == front + [last];
      PutAllAssigns(front);
      PutAllSnoc([], front, last);
      AssignOnce(PutAll([], front), front, last);
    }
  }

  /** The first hundred entries, each with its key cut at 160 characters and its value redacted under the key. */
  ghost predicate FirstHundred(low: char -> string, es: seq<Entry>, entries: seq<PyEntry>) {
    && |es| == (if |entries| <= 100 then |entries| else 100)
    && forall i :: 0 <= i < |es| ==>
         CutTo(es[i].key, entries[i].key, 160) && es[i].value == Redact(low, entries[i].value, entries[i].key)
  }

  /** Of a dictionary those are assigned one after the other: of keys that meet when cut, the last value stays. */
  lemma FirstHundredEntriesStay(low: char -> string, entries: seq<PyEntry>, key: string)
    requires !Sensitive(low, key)
    ensures var r := Redact(low, PyDict(entries), key);
            r.Obj? && exists es :: FirstHundred(low, es, entries) && Assigned(r.entries, es)
  {
    var es := RedactEntries(low, entries, SIZE_LIMIT);
    EntriesInOrder(low, entries, SIZE_LIMIT);
    PutAllAssigns(es);
    assert FirstHundred(low, es, entries);
  }
}
