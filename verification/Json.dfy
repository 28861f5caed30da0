/**
 JSON text as the audit log writes and reads it: `json.dumps` with ASCII escapes and either compact or
 spaced separators, `sort_keys`, and `json.loads`. Reading back what was written gives the value
 written, with nothing left over, so different values never share a text.
 */
module Json {
  import opened Common
  import opened Sorting

  /** Numbers are kept as their text. Objects keep the order of their entries. */
  datatype Json =
    | Null
    | Bool(b: bool)
    | Num(lexeme: string)
    | Str(s: string)
    | Arr(items: seq<Json>)
    | Obj(entries: seq<Entry>)

  datatype Entry = Entry(key: string, value: Json)

  datatype Style = Compact | Spaced

  // Writing.

  function HexDigit(n: nat): char
    requires n < 16
  {
    if n < 10 then ('0' as int + n) as char else ('a' as int + (n - 10)) as char
  }

  function Hex4(n: nat): string
    requires n < 0x1_0000
  {
    [HexDigit(n / 4096), HexDigit(n / 256 % 16), HexDigit(n / 16 % 16), HexDigit(n % 16)]
  }

  function EscapeChar(c: char): string {
    var n := c as int;
    if c == '"' then ['\\', '"']
    else if c == '\\' then ['\\', '\\']
    else if n == 10 then ['\\', 'n']
    else if n == 13 then ['\\', 'r']
    else if n == 9 then ['\\', 't']
    else if n == 12 then ['\\', 'f']
    else if n == 8 then ['\\', 'b']
    else if ' ' <= c <= '~' then [c]
    else if n < 0x1_0000 then ['\\', 'u'] + Hex4(n)
    else
      var m := n - 0x1_0000;
      ['\\', 'u'] + Hex4(0xd800 + m / 1024) + ['\\', 'u'] + Hex4(0xdc00 + m % 1024)
  }

  function Escape(s: string): string {
    if s == [] then [] else EscapeChar(s[0]) + Escape(s[1..])
  }

  function Quote(s: string): string {
    ['"'] + Escape(s) + ['"']
  }

  function ItemSeparator(style: Style): string {
    if style.Compact? then "," else ", "
  }

  function KeySeparator(style: Style): string {
    if style.Compact? then ":" else ": "
  }

  function Text(v: Json, style: Style): string
    decreases v, 1
  {
    match v
    case Null => "null"
    case Bool(b) => if b then "true" else "false"
    case Num(lexeme) => lexeme
    case Str(s) => Quote(s)
    case Arr(items) => ['['] + ItemsText(items, style) + [']']
    case Obj(entries) => ['{'] + EntriesText(entries, style) + ['}']
  }

  function ItemsText(items: seq<Json>, style: Style): string
    decreases items, 0
  {
    if items == [] then []
    else if |items| == 1 then Text(items[0], style)
    else Text(items[0], style) + (ItemSeparator(style) + ItemsText(items[1..], style))
  }

  function EntryText(e: Entry, style: Style): string
    decreases e, 0
  {
    Quote(e.key) + (KeySeparator(style) + Text(e.value, style))
  }

  function EntriesText(entries: seq<Entry>, style: Style): string
    decreases entries, 0
  {
    if entries == [] then []
    else if |entries| == 1 then EntryText(entries[0], style)
    else EntryText(entries[0], style) + (ItemSeparator(style) + EntriesText(entries[1..], style))
  }

  // Reading.

  function HexValue(c: char): Option<nat> {
    if '0' <= c <= '9' then Some(c as int - '0' as int)
    else if 'a' <= c <= 'f' then Some(c as int - 'a' as int + 10)
    else if 'A' <= c <= 'F' then Some(c as int - 'A' as int + 10)
    else None
  }

  /** The value of four hexadecimal digits. */
  function ReadHex4(s: string): (r: Option<nat>)
    ensures r.Some? ==> |s| >= 4 && r.value < 0x1_0000
  {
    if |s| < 4 then None
    else
      var a, b, c, d := HexValue(s[0]), HexValue(s[1]), HexValue(s[2]), HexValue(s[3]);
      if a.None? || b.None? || c.None? || d.None? then None
      else Some(a.value * 4096 + b.value * 256 + c.value * 16 + d.value)
  }

  /** A `\u` escape, or a surrogate pair of them; a lone surrogate is not a character here. */
  function ReadUnicode(s: string): (r: Option<(char, nat)>)
    requires |s| >= 2
    ensures r.Some? ==> 0 < r.value.1 <= |s|
  {
    var hi := ReadHex4(s[2..]);
    if hi.None? then None
    else if hi.value < 0xd800 || hi.value >= 0xe000 then Some((hi.value as char, 6))
    else if hi.value < 0xdc00 && |s| >= 12 && s[6] == '\\' && s[7] == 'u' then
      var lo := ReadHex4(s[8..]);
      if lo.Some? && 0xdc00 <= lo.value < 0xe000
      then Some(((0x1_0000 + (hi.value - 0xd800) * 1024 + (lo.value - 0xdc00)) as char, 12))
      else None
    else None
  }

  /** One character of a string literal and how much text it takes. */
  function ReadChar(s: string): (r: Option<(char, nat)>)
    requires s != []
    ensures r.Some? ==> 0 < r.value.1 <= |s|
  {
    if s[0] == '\\' then
      if |s| < 2 then None
      else if s[1] == '"' || s[1] == '\\' || s[1] == '/' then Some((s[1], 2))
      else if s[1] == 'n' then Some((10 as char, 2))
      else if s[1] == 'r' then Some((13 as char, 2))
      else if s[1] == 't' then Some((9 as char, 2))
      else if s[1] == 'f' then Some((12 as char, 2))
      else if s[1] == 'b' then Some((8 as char, 2))
      else if s[1] == 'u' then ReadUnicode(s)
      else None
    else if s[0] < ' ' then None
    else Some((s[0], 1))
  }

  /** The rest of a string literal after its opening quote. */
  function ReadString(s: string): (r: Option<(string, string)>)
    ensures r.Some? ==> |r.value.1| < |s|
    decreases |s|
  {
    if s == [] then None
    else if s[0] == '"' then Some(([], s[1..]))
    else
      var c := ReadChar(s);
      if c.None? then None
      else
        var rest := ReadString(s[c.value.1..]);
        if rest.None? then None else Some(([c.value.0] + rest.value.0, rest.value.1))
  }

  predicate Blank(c: char) {
    c == ' ' || c as int == 9 || c as int == 10 || c as int == 13
  }

  function SkipBlanks(s: string): (r: string)
    ensures |r| <= |s|
  {
    if s != [] && Blank(s[0]) then SkipBlanks(s[1..]) else s
  }

  predicate NumberChar(c: char) {
    '0' <= c <= '9' || 'a' <= c <= 'z' || 'A' <= c <= 'Z' || c == '+' || c == '-' || c == '.'
  }

  /** The length of the leading run of number characters. */
  function NumberRun(s: string): (n: nat)
    ensures n <= |s|
  {
    if s != [] && NumberChar(s[0]) then 1 + NumberRun(s[1..]) else 0
  }

  predicate StartsWith(s: string, p: string) {
    |p| <= |s| && s[..|p|] == p
  }

  function ReadValue(s: string): (r: Option<(Json, string)>)
    ensures r.Some? ==> |r.value.1| < |s|
    decreases |s|, 1
  {
    var t := SkipBlanks(s);
    if t == [] then None
    else if t[0] == '"' then
      var x := ReadString(t[1..]);
      if x.None? then None else Some((Str(x.value.0), x.value.1))
    else if t[0] == '[' then
      var u := SkipBlanks(t[1..]);
      if u != [] && u[0] == ']' then Some((Arr([]), u[1..]))
      else
        var xs := ReadItems(u);
        if xs.None? then None else Some((Arr(xs.value.0), xs.value.1))
    else if t[0] == '{' then
      var u := SkipBlanks(t[1..]);
      if u != [] && u[0] == '}' then Some((Obj([]), u[1..]))
      else
        var es := ReadEntries(u);
        if es.None? then None else Some((Obj(es.value.0), es.value.1))
    else if StartsWith(t, "null") then Some((Null, t[4..]))
    else if StartsWith(t, "true") then Some((Bool(true), t[4..]))
    else if StartsWith(t, "false") then Some((Bool(false), t[5..]))
    else if NumberRun(t) > 0 && t[0] != 'n' && t[0] != 't' && t[0] != 'f'
    then Some((Num(t[..NumberRun(t)]), t[NumberRun(t)..]))
    else None
  }

  function ReadItems(s: string): (r: Option<(seq<Json>, string)>)
    ensures r.Some? ==> |r.value.1| < |s|
    decreases |s|, 2
  {
    var x := ReadValue(s);
    if x.None? then None
    else
      var t := SkipBlanks(x.value.1);
      if t == [] then None
      else if t[0] == ']' then Some(([x.value.0], t[1..]))
      else if t[0] == ',' then
        var more := ReadItems(t[1..]);
        if more.None? then None else Some(([x.value.0] + more.value.0, more.value.1))
      else None
  }

  function ReadEntry(s: string): (r: Option<(Entry, string)>)
    ensures r.Some? ==> |r.value.1| < |s|
    decreases |s|, 2
  {
    var t := SkipBlanks(s);
    if t == [] || t[0] != '"' then None
    else
      var k := ReadString(t[1..]);
      if k.None? then None
      else
        var u := SkipBlanks(k.value.1);
        if u == [] || u[0] != ':' then None
        else
          var x := ReadValue(u[1..]);
          if x.None? then None else Some((Entry(k.value.0, x.value.0), x.value.1))
  }

  function ReadEntries(s: string): (r: Option<(seq<Entry>, string)>)
    ensures r.Some? ==> |r.value.1| < |s|
    decreases |s|, 3
  {
    var e := ReadEntry(s);
    if e.None? then None
    else
      var t := SkipBlanks(e.value.1);
      if t == [] then None
      else if t[0] == '}' then Some(([e.value.0], t[1..]))
      else if t[0] == ',' then
        var more := ReadEntries(t[1..]);
        if more.None? then None else Some(([e.value.0] + more.value.0, more.value.1))
      else None
  }

  /** `json.loads`; None where it raises. */
  function Loads(s: string): Option<Json> {
    var r := ReadValue(s);
    if r.Some? && SkipBlanks(r.value.1) == [] then Some(r.value.0) else None
  }

  // Reading back what was written.

  lemma HexDigitReads(n: nat)
    requires n < 16
    ensures HexValue(HexDigit(n)) == Some(n)
  {
  }

  lemma HexDigitsAddUp(n: nat)
    ensures n == n / 4096 * 4096 + n / 256 % 16 * 256 + n / 16 % 16 * 16 + n % 16
  {
    var a := n / 16;
    var b := a / 16;
    var c := b / 16;
    assert n / 256 == b && n / 4096 == c;
    assert n == a * 16 + n % 16;
    assert a == b * 16 + a % 16;
    assert b == c * 16 + b % 16;
  }

  lemma Hex4Reads(n: nat, rest: string)
    requires n < 0x1_0000
    ensures ReadHex4(Hex4(n) + rest) == Some(n)
  {
    var a, b, c, d := n / 4096, n / 256 % 16, n / 16 % 16, n % 16;
    HexDigitReads(a);
    HexDigitReads(b);
    HexDigitReads(c);
    HexDigitReads(d);
    HexDigitsAddUp(n);
    Hex4Spelled(a, b, c, d, rest);
  }

  lemma Hex4Spelled(a: nat, b: nat, c: nat, d: nat, rest: string)
    requires a < 16 && b < 16 && c < 16 && d < 16
    requires HexValue(HexDigit(a)) == Some(a) && HexValue(HexDigit(b)) == Some(b)
    requires HexValue(HexDigit(c)) == Some(c) && HexValue(HexDigit(d)) == Some(d)
    ensures ReadHex4([HexDigit(a), HexDigit(b), HexDigit(c), HexDigit(d)] + rest)
         == Some(a * 4096 + b * 256 + c * 16 + d)
  {
  }

  lemma BasicUnicodeReads(n: nat, rest: string)
    requires n < 0xd800 || 0xe000 <= n < 0x1_0000
    ensures ReadUnicode(['\\', 'u'] + Hex4(n) + rest) == Some((n as char, 6))
  {
    var s := ['\\', 'u'] + Hex4(n) + rest;
    assert s[2..] == Hex4(n) + rest;
    Hex4Reads(n, rest);
  }

  lemma SurrogatesRead(hi: nat, lo: nat, rest: string)
    requires 0xd800 <= hi < 0xdc00 <= lo < 0xe000
    ensures ReadUnicode(['\\', 'u'] + Hex4(hi) + ['\\', 'u'] + Hex4(lo) + rest)
         == Some(((0x1_0000 + (hi - 0xd800) * 1024 + (lo - 0xdc00)) as char, 12))
  {
    var s := ['\\', 'u'] + Hex4(hi) + ['\\', 'u'] + Hex4(lo) + rest;
    assert s[2..] == Hex4(hi) + (['\\', 'u'] + Hex4(lo) + rest);
    assert s[8..] == Hex4(lo) + rest;
    assert s[6] == '\\' && s[7] == 'u';
    Hex4Reads(hi, ['\\', 'u'] + Hex4(lo) + rest);
    Hex4Reads(lo, rest);
  }

  predicate NeedsUnicodeEscape(c: char) {
    c as int >= 0x7f || (c < ' ' && c as int !in {8, 9, 10, 12, 13})
  }

  lemma UnicodeEscapeSpelled(c: char)
    requires NeedsUnicodeEscape(c)
    ensures c as int < 0x1_0000 ==> EscapeChar(c) == ['\\', 'u'] + Hex4(c as int)
    ensures c as int >= 0x1_0000 ==>
              var m := c as int - 0x1_0000;
              && m / 1024 < 1024 && m == m / 1024 * 1024 + m % 1024
              && EscapeChar(c) == ['\\', 'u'] + Hex4(0xd800 + m / 1024) + ['\\', 'u'] + Hex4(0xdc00 + m % 1024)
  {
  }

  lemma BasicEscapeReads(c: char, e: string, rest: string)
    requires c as int < 0x1_0000 && e == ['\\', 'u'] + Hex4(c as int)
    ensures ReadUnicode(e + rest) == Some((c, |e|))
  {
    BasicUnicodeReads(c as int, rest);
  }

  lemma PairEscapeReads(c: char, hi: nat, lo: nat, e: string, rest: string)
    requires 0xd800 <= hi < 0xdc00 <= lo < 0xe000
    requires c as int == 0x1_0000 + (hi - 0xd800) * 1024 + (lo - 0xdc00)
    requires e == ['\\', 'u'] + Hex4(hi) + ['\\', 'u'] + Hex4(lo)
    ensures ReadUnicode(e + rest) == Some((c, |e|))
  {
    SurrogatesRead(hi, lo, rest);
  }

  lemma UnicodeReads(c: char, rest: string)
    requires NeedsUnicodeEscape(c)
    ensures ReadUnicode(EscapeChar(c) + rest) == Some((c, |EscapeChar(c)|))
  {
    UnicodeEscapeSpelled(c);
    var e := EscapeChar(c);
    if c as int < 0x1_0000 {
      BasicEscapeReads(c, e, rest);
    } else {
      var m := c as int - 0x1_0000;
      PairEscapeReads(c, 0xd800 + m / 1024, 0xdc00 + m % 1024, e, rest);
    }
  }

  lemma EscapedCharReads(c: char, rest: string)
    ensures EscapeChar(c) != [] && EscapeChar(c)[0] != '"'
    ensures ReadChar(EscapeChar(c) + rest) == Some((c, |EscapeChar(c)|))
  {
    if NeedsUnicodeEscape(c) {
      UnicodeReads(c, rest);
    }
  }

  lemma StringContinues(e: string, c: char, more: string, s: string, rest: string)
    requires e != [] && e[0] != '"'
    requires ReadChar(e + more) == Some((c, |e|)) && ReadString(more) == Some((s, rest))
    ensures ReadString(e + more) == Some(([c] + s, rest))
  {
    assert (e + more)[|e|..] == more;
    assert (e + more)[0] == e[0];
  }

  lemma {:induction false} EscapedStringReads(s: string, rest: string)
    ensures ReadString(Escape(s) + ['"'] + rest) == Some((s, rest))
  {
    if s == [] {
      assert Escape(s) + ['"'] + rest == ['"'] + rest;
      assert (['"'] + rest)[1..] == rest;
    } else {
      var e, more := EscapeChar(s[0]), Escape(s[1..]) + ['"'] + rest;
      assert Escape(s) + ['"'] + rest == e + more;
      EscapedCharReads(s[0], more);
      EscapedStringReads(s[1..], rest);
      StringContinues(e, s[0], more, s[1..], rest);
      assert s == [s[0]] + s[1..];
    }
  }

  /** A number as Python prints one: it cannot be taken for another token. */
  predicate PlainNumber(l: string) {
    l != [] && l[0] != 'n' && l[0] != 't' && l[0] != 'f' && forall i :: 0 <= i < |l| ==> NumberChar(l[i])
  }

  predicate Printable(v: Json)
    decreases v, 1
  {
    match v
    case Num(lexeme) => PlainNumber(lexeme)
    case Arr(items) => forall x :: x in items ==> Printable(x)
    case Obj(entries) => forall e :: e in entries ==> Printable(e.value)
    case _ => true
  }

  /** What may follow a value: the end, or the next piece of punctuation. */
  predicate Delimited(rest: string) {
    rest == [] || rest[0] == ',' || rest[0] == ']' || rest[0] == '}'
  }

  lemma {:induction false} NumberRunReads(l: string, rest: string)
    requires forall i :: 0 <= i < |l| ==> NumberChar(l[i])
    requires Delimited(rest)
    ensures NumberRun(l + rest) == |l|
  {
    if l == [] {
      assert l + rest == rest;
    } else {
      assert (l + rest)[1..] == l[1..] + rest;
      NumberRunReads(l[1..], rest);
    }
  }

  lemma TextStarts(v: Json, style: Style)
    requires Printable(v)
    ensures Text(v, style) != [] && !Blank(Text(v, style)[0])
    ensures Text(v, style)[0] != ']' && Text(v, style)[0] != '}'
  {
  }

  // One lemma for each turn the reader takes.

  lemma ArrayOpens(u: string, items: seq<Json>, rest: string)
    requires u != [] && u[0] != ']' && SkipBlanks(u) == u && ReadItems(u) == Some((items, rest))
    ensures ReadValue(['['] + u) == Some((Arr(items), rest))
  {
    assert (['['] + u)[1..] == u;
  }

  lemma ObjectOpens(u: string, entries: seq<Entry>, rest: string)
    requires u != [] && u[0] != '}' && SkipBlanks(u) == u && ReadEntries(u) == Some((entries, rest))
    ensures ReadValue(['{'] + u) == Some((Obj(entries), rest))
  {
    assert (['{'] + u)[1..] == u;
  }

  lemma EmptyOnesRead(rest: string)
    ensures ReadValue(['[', ']'] + rest) == Some((Arr([]), rest))
    ensures ReadValue(['{', '}'] + rest) == Some((Obj([]), rest))
  {
    assert (['[', ']'] + rest)[1..] == [']'] + rest;
    assert (['{', '}'] + rest)[1..] == ['}'] + rest;
  }

  lemma StringReads(s: string, rest: string)
    ensures ReadValue(Quote(s) + rest) == Some((Str(s), rest))
  {
    var t := Quote(s) + rest;
    assert t[1..] == Escape(s) + ['"'] + rest;
    EscapedStringReads(s, rest);
  }

  lemma NumberReads(l: string, rest: string)
    requires PlainNumber(l) && Delimited(rest)
    ensures ReadValue(l + rest) == Some((Num(l), rest))
  {
    var t := l + rest;
    NumberRunReads(l, rest);
    assert t[0] == l[0] && NumberChar(l[0]);
    NumberOpens(t, |l|);
    assert t[..|l|] == l && t[|l|..] == rest;
  }

  /** Text that starts like a number and like no other token is read as one. */
  lemma NumberOpens(t: string, n: nat)
    requires t != [] && NumberChar(t[0]) && t[0] != 'n' && t[0] != 't' && t[0] != 'f'
    requires NumberRun(t) == n && 0 < n <= |t|
    ensures ReadValue(t) == Some((Num(t[..n]), t[n..]))
  {
    assert SkipBlanks(t) == t;
    assert "null"[0] == 'n' && "true"[0] == 't' && "false"[0] == 'f';
    assert !StartsWith(t, "null") && !StartsWith(t, "true") && !StartsWith(t, "false");
  }

  lemma LiteralsRead(rest: string)
    ensures ReadValue("null" + rest) == Some((Null, rest))
    ensures ReadValue("true" + rest) == Some((Bool(true), rest))
    ensures ReadValue("false" + rest) == Some((Bool(false), rest))
  {
    var n, t, f := "null" + rest, "true" + rest, "false" + rest;
    assert n[..4] == "null" && n[4..] == rest;
    assert t[..4] == "true" && t[4..] == rest;
    assert f[..5] == "false" && f[5..] == rest;
  }

  lemma ItemsEnd(s: string, x: Json, rest: string)
    requires ReadValue(s) == Some((x, [']'] + rest))
    ensures ReadItems(s) == Some(([x], rest))
  {
    assert SkipBlanks([']'] + rest) == [']'] + rest;
    assert ([']'] + rest)[1..] == rest;
  }

  lemma ItemsContinue(s: string, x: Json, tail: string, items: seq<Json>, rest: string)
    requires ReadValue(s) == Some((x, [','] + tail)) && ReadItems(tail) == Some((items, rest))
    ensures ReadItems(s) == Some(([x] + items, rest))
  {
    assert SkipBlanks([','] + tail) == [','] + tail;
    assert ([','] + tail)[1..] == tail;
  }

  lemma EntriesEnd(s: string, e: Entry, rest: string)
    requires ReadEntry(s) == Some((e, ['}'] + rest))
    ensures ReadEntries(s) == Some(([e], rest))
  {
    assert SkipBlanks(['}'] + rest) == ['}'] + rest;
    assert (['}'] + rest)[1..] == rest;
  }

  lemma EntriesContinue(s: string, e: Entry, tail: string, entries: seq<Entry>, rest: string)
    requires ReadEntry(s) == Some((e, [','] + tail)) && ReadEntries(tail) == Some((entries, rest))
    ensures ReadEntries(s) == Some(([e] + entries, rest))
  {
    assert SkipBlanks([','] + tail) == [','] + tail;
    assert ([','] + tail)[1..] == tail;
  }

  lemma EntryReads(key: string, tail: string, v: Json, rest: string)
    requires ReadValue(tail) == Some((v, rest))
    ensures ReadEntry(Quote(key) + ([':'] + tail)) == Some((Entry(key, v), rest))
  {
    var colon := [':'] + tail;
    EscapedStringReads(key, colon);
    QuoteOpens(key, colon);
    KeyThenValue(Quote(key) + colon, Escape(key) + ['"'] + colon, key, colon, tail, v, rest);
  }

  lemma QuoteOpens(key: string, rest: string)
    ensures Quote(key) + rest == ['"'] + (Escape(key) + ['"'] + rest)
  {
  }

  lemma KeyThenValue(t: string, u: string, key: string, colon: string, tail: string, v: Json, rest: string)
    requires t == ['"'] + u && ReadString(u) == Some((key, colon))
    requires colon == [':'] + tail && ReadValue(tail) == Some((v, rest))
    ensures ReadEntry(t) == Some((Entry(key, v), rest))
  {
    assert t[1..] == u && SkipBlanks(t) == t;
    assert SkipBlanks(colon) == colon && colon[1..] == tail;
  }

  /** A blank in front changes nothing for the readers that skip blanks. */
  lemma BlankBefore(s: string)
    ensures ReadValue([' '] + s) == ReadValue(s)
    ensures ReadItems([' '] + s) == ReadItems(s)
    ensures ReadEntry([' '] + s) == ReadEntry(s)
    ensures ReadEntries([' '] + s) == ReadEntries(s)
  {
    assert ([' '] + s)[1..] == s;
    assert SkipBlanks([' '] + s) == SkipBlanks(s);
  }

  lemma BracketsSplit(items: seq<Json>, entries: seq<Entry>, style: Style, rest: string)
    ensures Text(Arr(items), style) + rest == ['['] + (ItemsText(items, style) + ([']'] + rest))
    ensures Text(Obj(entries), style) + rest == ['{'] + (EntriesText(entries, style) + (['}'] + rest))
  {
  }

  /** The main round trip: a written value, whatever punctuation follows it, is read back exactly. */
  lemma {:induction false} WrittenValueReads(v: Json, style: Style, rest: string)
    requires Printable(v) && Delimited(rest)
    ensures ReadValue(Text(v, style) + rest) == Some((v, rest))
    decreases v, 1
  {
    match v {
      case Null => LiteralsRead(rest);
      case Bool(b) => LiteralsRead(rest);
      case Num(l) => NumberReads(l, rest);
      case Str(s) => StringReads(s, rest);
      case Arr(items) =>
        if items == [] {
          EmptyOnesRead(rest);
          assert Text(v, style) == ['[', ']'];
        } else {
          WrittenItemsRead(items, style, rest);
          ItemsTextStarts(items, style, [']'] + rest);
          BracketsSplit(items, [], style, rest);
          ArrayOpens(ItemsText(items, style) + ([']'] + rest), items, rest);
        }
      case Obj(entries) =>
        if entries == [] {
          EmptyOnesRead(rest);
          assert Text(v, style) == ['{', '}'];
        } else {
          WrittenEntriesRead(entries, style, rest);
          EntriesTextStarts(entries, style, ['}'] + rest);
          BracketsSplit([], entries, style, rest);
          ObjectOpens(EntriesText(entries, style) + (['}'] + rest), entries, rest);
        }
    }
  }

  lemma ItemsTextStarts(items: seq<Json>, style: Style, rest: string)
    requires items != [] && Printable(items[0])
    ensures var t := ItemsText(items, style) + rest;
            t != [] && SkipBlanks(t) == t && t[0] != ']'
  {
    TextStarts(items[0], style);
  }

  lemma ItemsTextSplits(items: seq<Json>, style: Style, rest: string)
    requires |items| > 1
    ensures var more := ItemsText(items[1..], style) + rest;
            ItemsText(items, style) + rest
            == Text(items[0], style) + ([','] + if style.Compact? then more else [' '] + more)
  {
  }

  lemma {:induction false} WrittenItemsRead(items: seq<Json>, style: Style, rest: string)
    requires items != [] && forall x :: x in items ==> Printable(x)
    ensures var t := ItemsText(items, style) + ([']'] + rest);
            ReadItems(t) == Some((items, rest))
    decreases items, 0
  {
    var t := ItemsText(items, style) + ([']'] + rest);
    if |items| == 1 {
      WrittenValueReads(items[0], style, [']'] + rest);
      ItemsEnd(t, items[0], rest);
      assert items == [items[0]];
    } else {
      var more := ItemsText(items[1..], style) + ([']'] + rest);
      var tail := if style.Compact? then more else [' '] + more;
      ItemsTextSplits(items, style, [']'] + rest);
      WrittenValueReads(items[0], style, [','] + tail);
      WrittenItemsRead(items[1..], style, rest);
      BlankBefore(more);
      ItemsContinue(t, items[0], tail, items[1..], rest);
      assert items == [items[0]] + items[1..];
    }
  }

  lemma {:induction false} WrittenEntryReads(e: Entry, style: Style, rest: string)
    requires Printable(e.value) && Delimited(rest)
    ensures ReadEntry(EntryText(e, style) + rest) == Some((e, rest))
    decreases e, 0
  {
    var value := Text(e.value, style) + rest;
    var tail := if style.Compact? then value else [' '] + value;
    assert EntryText(e, style) + rest == Quote(e.key) + ([':'] + tail);
    WrittenValueReads(e.value, style, rest);
    BlankBefore(value);
    EntryReads(e.key, tail, e.value, rest);
  }

  lemma EntriesTextStarts(entries: seq<Entry>, style: Style, rest: string)
    requires entries != []
    ensures var t := EntriesText(entries, style) + rest;
            t != [] && SkipBlanks(t) == t && t[0] != '}'
  {
    assert EntryText(entries[0], style)[0] == '"';
  }

  lemma EntriesTextSplits(entries: seq<Entry>, style: Style, rest: string)
    requires |entries| > 1
    ensures var more := EntriesText(entries[1..], style) + rest;
            EntriesText(entries, style) + rest
            == EntryText(entries[0], style) + ([','] + if style.Compact? then more else [' '] + more)
  {
  }

  lemma {:induction false} WrittenEntriesRead(entries: seq<Entry>, style: Style, rest: string)
    requires entries != [] && forall e :: e in entries ==> Printable(e.value)
    ensures var t := EntriesText(entries, style) + (['}'] + rest);
            ReadEntries(t) == Some((entries, rest))
    decreases entries, 0
  {
    var t := EntriesText(entries, style) + (['}'] + rest);
    if |entries| == 1 {
      assert entries == [entries[0]];
      OneEntryReads(entries[0], style, rest);
    } else {
      var more := EntriesText(entries[1..], style) + (['}'] + rest);
      var tail := if style.Compact? then more else [' '] + more;
      EntriesTextSplits(entries, style, ['}'] + rest);
      WrittenEntryReads(entries[0], style, [','] + tail);
      WrittenEntriesRead(entries[1..], style, rest);
      BlankBefore(more);
      EntriesContinue(t, entries[0], tail, entries[1..], rest);
      assert entries == [entries[0]] + entries[1..];
    }
  }

  lemma OneEntryReads(e: Entry, style: Style, rest: string)
    requires Printable(e.value)
    ensures ReadEntries(EntriesText([e], style) + (['}'] + rest)) == Some(([e], rest))
    decreases e, 1
  {
    WrittenEntryReads(e, style, ['}'] + rest);
    EntriesEnd(EntryText(e, style) + (['}'] + rest), e, rest);
  }

  /** Whole documents: what is written loads as what was meant. */
  lemma WrittenDocumentLoads(v: Json, style: Style)
    requires Printable(v)
    ensures Loads(Text(v, style)) == Some(v)
  {
    assert Text(v, style) + [] == Text(v, style);
    WrittenValueReads(v, style, []);
  }

  lemma TextIsInjective(v: Json, w: Json, style: Style)
    requires Printable(v) && Printable(w) && Text(v, style) == Text(w, style)
    ensures v == w
  {
    WrittenDocumentLoads(v, style);
    WrittenDocumentLoads(w, style);
  }

  lemma {:induction false} NumberRunPlain(s: string)
    ensures forall i :: 0 <= i < NumberRun(s) ==> NumberChar(s[i])
  {
    if s != [] && NumberChar(s[0]) {
      NumberRunPlain(s[1..]);
      assert forall i :: 0 < i < NumberRun(s) ==> s[i] == s[1..][i - 1];
    }
  }

  /** Whatever loads, prints. */
  lemma {:induction false} ReadValuePrints(s: string)
    ensures ReadValue(s).Some? ==> Printable(ReadValue(s).value.0)
    decreases |s|, 1
  {
    var t := SkipBlanks(s);
    if t != [] {
      if t[0] == '[' {
        ReadItemsPrint(SkipBlanks(t[1..]));
      } else if t[0] == '{' {
        ReadEntriesPrint(SkipBlanks(t[1..]));
      } else {
        NumberRunPlain(t);
      }
    }
  }

  lemma {:induction false} ReadItemsPrint(s: string)
    ensures ReadItems(s).Some? ==> forall x :: x in ReadItems(s).value.0 ==> Printable(x)
    decreases |s|, 2
  {
    ReadValuePrints(s);
    if ReadValue(s).Some? {
      var t := SkipBlanks(ReadValue(s).value.1);
      if t != [] && t[0] == ',' {
        ReadItemsPrint(t[1..]);
      }
    }
  }

  lemma {:induction false} ReadEntryPrints(s: string)
    ensures ReadEntry(s).Some? ==> Printable(ReadEntry(s).value.0.value)
    decreases |s|, 2
  {
    var t := SkipBlanks(s);
    if t != [] && t[0] == '"' && ReadString(t[1..]).Some? {
      var u := SkipBlanks(ReadString(t[1..]).value.1);
      if u != [] && u[0] == ':' {
        ReadValuePrints(u[1..]);
      }
    }
  }

  lemma {:induction false} ReadEntriesPrint(s: string)
    ensures ReadEntries(s).Some? ==> forall e :: e in ReadEntries(s).value.0 ==> Printable(e.value)
    decreases |s|, 3
  {
    ReadEntryPrints(s);
    if ReadEntry(s).Some? {
      var t := SkipBlanks(ReadEntry(s).value.1);
      if t != [] && t[0] == ',' {
        ReadEntriesPrint(t[1..]);
      }
    }
  }

  lemma LoadedValuesPrint(s: string)
    ensures Loads(s).Some? ==> Printable(Loads(s).value)
  {
    ReadValuePrints(s);
  }

  // Sorted keys.

  predicate KeyLe(e: Entry, f: Entry) {
    LexLe(e.key, f.key)
  }

  lemma KeyOrder()
    ensures TotalPreorder(KeyLe)
  {
    LexOrder();
  }

  function SortKeys(v: Json): Json
    decreases v, 1
  {
    match v
    case Arr(items) => Arr(SortItems(items))
    case Obj(entries) => Obj(Sort(KeyLe, SortValues(entries)))
    case _ => v
  }

  function SortItems(items: seq<Json>): (r: seq<Json>)
    ensures |r| == |items|
    decreases items, 0
  {
    if items == [] then [] else [SortKeys(items[0])] + SortItems(items[1..])
  }

  function SortValues(entries: seq<Entry>): (r: seq<Entry>)
    ensures |r| == |entries|
    ensures forall i :: 0 <= i < |entries| ==> r[i].key == entries[i].key
    decreases entries, 0
  {
    if entries == [] then []
    else [Entry(entries[0].key, SortKeys(entries[0].value))] + SortValues(entries[1..])
  }

  /** `json.dumps(v, sort_keys=True)`. */
  function Dumps(v: Json, style: Style): string {
    Text(SortKeys(v), style)
  }

  /** Sorting the keys keeps a value printable, and doing it twice is doing it once. */
  lemma {:induction false} SortKeysSettles(v: Json)
    ensures SortKeys(SortKeys(v)) == SortKeys(v)
    ensures Printable(v) ==> Printable(SortKeys(v))
    decreases v, 1
  {
    match v {
      case Arr(items) => SortItemsSettles(items);
      case Obj(entries) =>
        var once := Sort(KeyLe, SortValues(entries));
        SortValuesSettles(entries);
        KeyOrder();
        SortSorts(KeyLe, SortValues(entries));
        SortPermutes(KeyLe, SortValues(entries));
        SettledValues(once);
        SortOfSorted(KeyLe, once);
      case _ =>
    }
  }

  lemma {:induction false} SettledValues(entries: seq<Entry>)
    requires forall e :: e in entries ==> SortKeys(e.value) == e.value
    ensures SortValues(entries) == entries
  {
    if entries != [] {
      SettledValues(entries[1..]);
    }
  }

  lemma {:induction false} SortItemsSettles(items: seq<Json>)
    ensures SortItems(SortItems(items)) == SortItems(items)
    ensures (forall x :: x in items ==> Printable(x)) ==> forall x :: x in SortItems(items) ==> Printable(x)
    decreases items, 0
  {
    if items != [] {
      SortKeysSettles(items[0]);
      SortItemsSettles(items[1..]);
    }
  }

  lemma {:induction false} SortValuesSettles(entries: seq<Entry>)
    ensures forall e :: e in SortValues(entries) ==> SortKeys(e.value) == e.value
    ensures (forall e :: e in entries ==> Printable(e.value)) ==>
              forall e :: e in SortValues(entries) ==> Printable(e.value)
    decreases entries, 0
  {
    if entries != [] {
      SortKeysSettles(entries[0].value);
      SortValuesSettles(entries[1..]);
    }
  }

  /**
   A value stored with sorted keys and loaded again prints exactly as the original does, in either
   style: the key order is the only thing that was lost, and printing sorts it anyway.
   */
  lemma StoredValuePrintsAlike(v: Json, stored: Style, printed: Style)
    requires Printable(v)
    ensures Loads(Dumps(v, stored)) == Some(SortKeys(v))
    ensures Dumps(SortKeys(v), printed) == Dumps(v, printed)
  {
    SortKeysSettles(v);
    WrittenDocumentLoads(SortKeys(v), stored);
  }

  /** Sorting compares keys only, so lists with the same keys that sort alike are alike. */
  lemma {:induction false} SortSeparates(es: seq<Entry>, fs: seq<Entry>)
    requires |es| == |fs| && forall i :: 0 <= i < |es| ==> es[i].key == fs[i].key
    requires Sort(KeyLe, es) == Sort(KeyLe, fs)
    ensures es == fs
  {
    if es != [] {
      var s, t := Sort(KeyLe, es[1..]), Sort(KeyLe, fs[1..]);
      SameKeysSort(es[1..], fs[1..]);
      InsertSeparates(es[0], s, fs[0], t);
      SortSeparates(es[1..], fs[1..]);
      assert es == [es[0]] + es[1..] && fs == [fs[0]] + fs[1..];
    }
  }

  ghost predicate SameKeys(s: seq<Entry>, t: seq<Entry>) {
    |s| == |t| && forall i :: 0 <= i < |s| ==> s[i].key == t[i].key
  }

  lemma {:induction false} InsertSameKeys(e: Entry, s: seq<Entry>, f: Entry, t: seq<Entry>)
    requires e.key == f.key && SameKeys(s, t)
    ensures SameKeys(Insert(KeyLe, e, s), Insert(KeyLe, f, t))
  {
    if s != [] && !KeyLe(e, s[0]) {
      InsertSameKeys(e, s[1..], f, t[1..]);
    }
  }

  lemma {:induction false} SameKeysSort(s: seq<Entry>, t: seq<Entry>)
    requires SameKeys(s, t)
    ensures SameKeys(Sort(KeyLe, s), Sort(KeyLe, t))
  {
    if s != [] {
      SameKeysSort(s[1..], t[1..]);
      InsertSameKeys(s[0], Sort(KeyLe, s[1..]), t[0], Sort(KeyLe, t[1..]));
    }
  }

  lemma {:induction false} InsertSeparates(e: Entry, s: seq<Entry>, f: Entry, t: seq<Entry>)
    requires e.key == f.key && SameKeys(s, t)
    requires Insert(KeyLe, e, s) == Insert(KeyLe, f, t)
    ensures e == f && s == t
  {
    var x, y := Insert(KeyLe, e, s), Insert(KeyLe, f, t);
    if s == [] || KeyLe(e, s[0]) {
      assert x == [e] + s && y == [f] + t;
      assert x[0] == e && y[0] == f && x[1..] == s && y[1..] == t;
    } else {
      var xs, ys := Insert(KeyLe, e, s[1..]), Insert(KeyLe, f, t[1..]);
      assert x == [s[0]] + xs && y == [t[0]] + ys;
      assert x[0] == s[0] && y[0] == t[0] && x[1..] == xs && y[1..] == ys;
      InsertSeparates(e, s[1..], f, t[1..]);
      assert s == [s[0]] + s[1..] && t == [t[0]] + t[1..];
    }
  }

  lemma {:induction false} SortValuesAlike(entries: seq<Entry>)
    ensures forall e :: e in SortValues(entries) <==> exists f :: f in entries && e == Entry(f.key, SortKeys(f.value))
  {
    if entries != [] {
      SortValuesAlike(entries[1..]);
      assert forall f :: f in entries <==> f == entries[0] || f in entries[1..];
    }
  }

  /** The keys of an object ascend, its entries are those there were, and so at every depth. */
  lemma KeysAscend(entries: seq<Entry>)
    ensures var r := SortKeys(Obj(entries));
            && r.Obj? && |r.entries| == |entries|
            && (forall i, j :: 0 <= i < j < |r.entries| ==> ComesBefore(r.entries[i].key, r.entries[j].key))
            && (forall e :: e in r.entries <==> exists f :: f in entries && e == Entry(f.key, SortKeys(f.value)))
  {
    var values := SortValues(entries);
    KeyOrder();
    SortSorts(KeyLe, values);
    SortPermutes(KeyLe, values);
    SortValuesAlike(entries);
    var r := Sort(KeyLe, values);
    forall i, j | 0 <= i < j < |r|
      ensures ComesBefore(r[i].key, r[j].key)
    {
      assert KeyLe(r[i], r[j]);
      LexLeMeans(r[i].key, r[j].key);
    }
  }

  lemma {:induction false} ItemsKeepOrder(items: seq<Json>)
    ensures SortKeys(Arr(items)).Arr? && |SortKeys(Arr(items)).items| == |items|
    ensures forall i :: 0 <= i < |items| ==> SortKeys(Arr(items)).items[i] == SortKeys(items[i])
  {
    if items != [] {
      ItemsKeepOrder(items[1..]);
    }
  }
}
