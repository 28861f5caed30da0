/** Small shared vocabulary: optional values and results. */
module Common {

  datatype Option<+T> = None | Some(value: T)

  datatype Result<+T> = Ok(value: T) | Err(message: string)

  /** How much a discovery reads. */
  datatype Depth = Quick | Standard | Deep

  /** The value a map holds for a key, if any. */
  function Lookup<K, V>(m: map<K, V>, k: K): Option<V> {
    if k in m then Some(m[k]) else None
  }

  /** Two maps that answer every lookup alike are the same map. */
  lemma SameLookups<K, V>(m: map<K, V>, n: map<K, V>)
    requires forall k :: Lookup(m, k) == Lookup(n, k)
    ensures m == n
  {
    forall k: K
      ensures k in m <==> k in n
      ensures k in m ==> m[k] == n[k]
    {
      assert Lookup(m, k) == Lookup(n, k);
    }
    assert m.Keys == n.Keys;
  }

  /** Text cut at a separator character has one reading when the first part lacks the separator. */
  lemma SplitOnce(sep: char, x: string, u: string, y: string, v: string)
    requires sep !in x && sep !in y
    requires x + [sep] + u == y + [sep] + v
    ensures x == y && u == v
  {
    var l, r := x + [sep] + u, y + [sep] + v;
    assert l[|x|] == sep && r[|y|] == sep;
    assert forall i :: 0 <= i < |x| ==> l[i] == x[i];
    assert forall i :: 0 <= i < |y| ==> r[i] == y[i];
    assert |x| == |y|;
    assert x == l[..|x|] == r[..|y|] == y;
    assert u == l[|x| + 1..] == r[|y| + 1..] == v;
  }

  lemma SubsetSize<T>(a: set<T>, b: set<T>)
    requires a <= b
    ensures |a| <= |b|
  {
    assert b == a + (b - a);
  }

  /** How many places of the list hold something that passes. */
  ghost function Number<T>(test: T -> bool, s: seq<T>): nat {
    |set i: nat | i < |s| && test(s[i])|
  }

  lemma MarkedAreCounted<T>(test: T -> bool, s: seq<T>, marked: set<nat>)
    requires forall i: nat :: i in marked <==> i < |s| && test(s[i])
    ensures |marked| == Number(test, s)
  {
    assert marked == set i: nat | i < |s| && test(s[i]);
  }

  lemma NoneCounted<T>(test: T -> bool, s: seq<T>)
    ensures s == [] ==> Number(test, s) == 0
  {
    var marked := set i: nat | i < |s| && test(s[i]);
    assert s == [] ==> marked == {};
  }

  lemma OneMoreCounted<T>(test: T -> bool, s: seq<T>, x: T)
    ensures Number(test, s + [x]) == Number(test, s) + if test(x) then 1 else 0
  {
    var before := set i: nat | i < |s| && test(s[i]);
    assert (set i: nat | i < |s + [x]| && test((s + [x])[i])) == before + if test(x) then {|s|} else {};
  }

  function Min(a: int, b: int): int {
    if a < b then a else b
  }

  /** The first `n` characters. */
  function Clip(s: string, n: nat): string {
    if |s| <= n then s else s[..n]
  }

  /** `str.strip`, for the characters that count as blank. */
  function Strip(blank: char -> bool, s: string): string
    decreases |s|
  {
    if s == [] then s
    else if blank(s[0]) then Strip(blank, s[1..])
    else if blank(s[|s| - 1]) then Strip(blank, s[..|s| - 1])
    else s
  }

  /** The text as far as the limit goes: whole if it fits, else exactly that long. */
  ghost predicate CutTo(cut: string, full: string, limit: nat) {
    && cut <= full && (|full| <= limit ==> cut == full) && (|full| > limit ==> |cut| == limit)
  }

  lemma ClipCuts(s: string, limit: nat)
    ensures CutTo(Clip(s, limit), s, limit)
  {
  }

  /** What is left after blanks are taken off both ends: everything between two runs of blanks. */
  ghost predicate Strips(blank: char -> bool, s: string, stripped: string) {
    exists i: nat, j: nat :: StripsAt(blank, s, stripped, i, j)
  }

  ghost predicate StripsAt(blank: char -> bool, s: string, stripped: string, i: nat, j: nat) {
    && i <= j <= |s| && stripped == s[i..j]
    && (forall k :: 0 <= k < i || j <= k < |s| ==> blank(s[k]))
    && (stripped != "" ==> !blank(stripped[0]) && !blank(stripped[|stripped| - 1]))
  }

  lemma {:induction false} StripPlaces(blank: char -> bool, s: string) returns (i: nat, j: nat)
    ensures StripsAt(blank, s, Strip(blank, s), i, j)
    decreases |s|
  {
    if s == "" {
      i, j := 0, 0;
    } else if blank(s[0]) {
      i, j := StripPlaces(blank, s[1..]);
      i, j := i + 1, j + 1;
    } else if blank(s[|s| - 1]) {
      i, j := StripPlaces(blank, s[..|s| - 1]);
    } else {
      i, j := 0, |s|;
    }
  }

  lemma StripStrips(blank: char -> bool, s: string)
    ensures Strips(blank, s, Strip(blank, s))
  {
    var i, j := StripPlaces(blank, s);
  }
}
