/**
 Python's `sorted` and `list.sort`: a stable sort by a total preorder. Stability is what
 makes sorting commute with deleting elements, which the retention proofs rely on.
 */
module Sorting {

  ghost predicate TotalPreorder<T(!new)>(le: (T, T) -> bool) {
    && (forall x, y :: le(x, y) || le(y, x))
    && (forall x, y, z :: le(x, y) && le(y, z) ==> le(x, z))
  }

  ghost predicate Sorted<T>(le: (T, T) -> bool, s: seq<T>) {
    forall i, j :: 0 <= i < j < |s| ==> le(s[i], s[j])
  }

  ghost predicate Distinct<T>(s: seq<T>) {
    forall i, j :: 0 <= i < j < |s| ==> s[i] != s[j]
  }

  function Insert<T>(le: (T, T) -> bool, x: T, s: seq<T>): seq<T> {
    if s == [] then [x]
    else if le(x, s[0]) then [x] + s
    else [s[0]] + Insert(le, x, s[1..])
  }

  function Sort<T>(le: (T, T) -> bool, s: seq<T>): seq<T> {
    if s == [] then [] else Insert(le, s[0], Sort(le, s[1..]))
  }

  function Filter<T>(keep: T -> bool, s: seq<T>): seq<T> {
    if s == [] then []
    else if keep(s[0]) then [s[0]] + Filter(keep, s[1..])
    else Filter(keep, s[1..])
  }

  lemma {:induction false} InsertPermutes<T>(le: (T, T) -> bool, x: T, s: seq<T>)
    ensures multiset(Insert(le, x, s)) == multiset{x} + multiset(s)
  {
    if s == [] {
    } else if le(x, s[0]) {
    } else {
      InsertPermutes(le, x, s[1..]);
      assert s == [s[0]] + s[1..];
    }
  }

  lemma {:induction false} SortPermutes<T>(le: (T, T) -> bool, s: seq<T>)
    ensures multiset(Sort(le, s)) == multiset(s)
    ensures |Sort(le, s)| == |s|
    ensures forall x :: x in Sort(le, s) <==> x in s
  {
    if s != [] {
      SortPermutes(le, s[1..]);
      InsertPermutes(le, s[0], Sort(le, s[1..]));
      assert s == [s[0]] + s[1..];
    }
    SameElements(Sort(le, s), s);
  }

  lemma SameElements<T>(s: seq<T>, t: seq<T>)
    requires multiset(s) == multiset(t)
    ensures |s| == |t| && forall x :: x in s <==> x in t
  {
    assert |multiset(s)| == |multiset(t)|;
    forall x: T
      ensures x in s <==> x in t
    {
      assert x in s <==> x in multiset(s);
      assert x in t <==> x in multiset(t);
    }
  }

  lemma {:induction false} InsertSorts<T(!new)>(le: (T, T) -> bool, x: T, s: seq<T>)
    requires TotalPreorder(le) && Sorted(le, s)
    ensures Sorted(le, Insert(le, x, s))
  {
    if s == [] {
    } else if le(x, s[0]) {
      assert forall k :: 0 <= k < |s| ==> le(x, s[k]);
    } else {
      var rest := Insert(le, x, s[1..]);
      InsertSorts(le, x, s[1..]);
      InsertPermutes(le, x, s[1..]);
      forall k | 0 <= k < |rest|
        ensures le(s[0], rest[k])
      {
        assert rest[k] in multiset(rest);
        assert rest[k] == x || rest[k] in s[1..];
      }
    }
  }

  lemma {:induction false} SortSorts<T(!new)>(le: (T, T) -> bool, s: seq<T>)
    requires TotalPreorder(le)
    ensures Sorted(le, Sort(le, s))
  {
    if s != [] {
      SortSorts(le, s[1..]);
      InsertSorts(le, s[0], Sort(le, s[1..]));
    }
  }

  lemma {:induction false} FilterMembers<T>(keep: T -> bool, s: seq<T>)
    ensures forall x :: x in Filter(keep, s) <==> x in s && keep(x)
    ensures |Filter(keep, s)| <= |s|
  {
    if s != [] {
      FilterMembers(keep, s[1..]);
      assert s == [s[0]] + s[1..];
    }
  }

  lemma {:induction false} FilterDistinct<T>(keep: T -> bool, s: seq<T>)
    requires Distinct(s)
    ensures Distinct(Filter(keep, s))
  {
    if s != [] {
      FilterDistinct(keep, s[1..]);
      FilterMembers(keep, s[1..]);
      assert forall k :: 0 <= k < |s[1..]| ==> s[1..][k] == s[k + 1];
      assert s[0] !in s[1..];
    }
  }

  lemma {:induction false} FilterConcat<T>(keep: T -> bool, s: seq<T>, t: seq<T>)
    ensures Filter(keep, s + t) == Filter(keep, s) + Filter(keep, t)
  {
    if s == [] {
      assert s + t == t;
    } else {
      FilterConcat(keep, s[1..], t);
      assert (s + t)[1..] == s[1..] + t;
    }
  }

  lemma {:induction false} FilterTwice<T>(p: T -> bool, q: T -> bool, both: T -> bool, s: seq<T>)
    requires forall x :: x in s ==> (both(x) <==> p(x) && q(x))
    ensures Filter(both, s) == Filter(q, Filter(p, s))
  {
    if s != [] {
      FilterTwice(p, q, both, s[1..]);
      assert p(s[0]) ==> ([s[0]] + Filter(p, s[1..]))[1..] == Filter(p, s[1..]);
    }
  }

  lemma {:induction false} FilterAll<T>(keep: T -> bool, s: seq<T>)
    requires forall x :: x in s ==> keep(x)
    ensures Filter(keep, s) == s
  {
    if s != [] {
      FilterAll(keep, s[1..]);
    }
  }

  lemma {:induction false} FilterNone<T>(keep: T -> bool, s: seq<T>)
    requires forall x :: x in s ==> !keep(x)
    ensures Filter(keep, s) == []
  {
    if s != [] {
      FilterNone(keep, s[1..]);
    }
  }

  lemma {:induction false} InsertFilter<T(!new)>(le: (T, T) -> bool, keep: T -> bool, x: T, s: seq<T>)
    requires TotalPreorder(le) && Sorted(le, s)
    ensures Filter(keep, Insert(le, x, s))
         == if keep(x) then Insert(le, x, Filter(keep, s)) else Filter(keep, s)
  {
    if s == [] {
    } else if le(x, s[0]) {
      assert ([x] + s)[1..] == s;
      FilterMembers(keep, s);
      assert forall y :: y in s ==> le(x, y);
      var f := Filter(keep, s);
      assert f != [] ==> f[0] in f && le(x, f[0]);
    } else {
      InsertFilter(le, keep, x, s[1..]);
      var rest := Insert(le, x, s[1..]);
      assert ([s[0]] + rest)[0] == s[0] && ([s[0]] + rest)[1..] == rest;
      var f := Filter(keep, s[1..]);
      assert ([s[0]] + f)[0] == s[0] && ([s[0]] + f)[1..] == f;
    }
  }

  /** Stability: deleting elements before or after a sort gives the same list. */
  lemma {:induction false} SortFilter<T(!new)>(le: (T, T) -> bool, keep: T -> bool, s: seq<T>)
    requires TotalPreorder(le)
    ensures Sort(le, Filter(keep, s)) == Filter(keep, Sort(le, s))
  {
    if s != [] {
      SortFilter(le, keep, s[1..]);
      SortSorts(le, s[1..]);
      InsertFilter(le, keep, s[0], Sort(le, s[1..]));
      var f := Filter(keep, s[1..]);
      assert ([s[0]] + f)[1..] == f;
    }
  }

  lemma {:induction false} SortOfSorted<T(!new)>(le: (T, T) -> bool, s: seq<T>)
    requires Sorted(le, s)
    ensures Sort(le, s) == s
  {
    if s != [] {
      SortOfSorted(le, s[1..]);
    }
  }

  /** Stability: elements that the order does not tell apart stay as they stood. */
  lemma SortIsStable<T(!new)>(le: (T, T) -> bool, alike: T -> bool, s: seq<T>)
    requires TotalPreorder(le) && forall x, y :: alike(x) && alike(y) ==> le(x, y)
    ensures Filter(alike, Sort(le, s)) == Filter(alike, s)
  {
    FilterMembers(alike, s);
    SortFilter(le, alike, s);
    SortOfSorted(le, Filter(alike, s));
  }

  lemma {:induction false} SortDistinct<T>(le: (T, T) -> bool, s: seq<T>)
    requires Distinct(s)
    ensures Distinct(Sort(le, s))
  {
    SortPermutes(le, s);
    DistinctCounts(s);
    CountsDistinct(Sort(le, s));
  }

  lemma {:induction false} DistinctCounts<T>(s: seq<T>)
    requires Distinct(s)
    ensures forall x :: x in s ==> multiset(s)[x] == 1
  {
    if s != [] {
      DistinctCounts(s[1..]);
      assert s == [s[0]] + s[1..];
      assert forall k :: 0 <= k < |s[1..]| ==> s[1..][k] == s[k + 1];
      assert s[0] !in s[1..];
    }
  }

  lemma CountsDistinct<T>(s: seq<T>)
    requires forall x :: x in s ==> multiset(s)[x] == 1
    ensures Distinct(s)
  {
    forall i, j | 0 <= i < j < |s|
      ensures s[i] != s[j]
    {
      CountsPair(s, i, j);
    }
  }

  lemma CountsPair<T>(s: seq<T>, i: nat, j: nat)
    requires i < j < |s|
    ensures s[i] == s[j] ==> multiset(s)[s[i]] >= 2
  {
    assert s == s[..j] + [s[j]] + s[j + 1..];
    assert s[..j][i] == s[i];
    assert s[i] in s[..j];
    assert multiset(s) == multiset(s[..j]) + multiset{s[j]} + multiset(s[j + 1..]);
  }

  // Where an element ends up.

  ghost predicate Before<T>(s: seq<T>, x: T, y: T) {
    exists i, j :: 0 <= i < j < |s| && s[i] == x && s[j] == y
  }

  lemma BeforeCons<T>(a: T, s: seq<T>, x: T, y: T)
    ensures Before([a] + s, x, y) <==> Before(s, x, y) || (x == a && y in s)
  {
    var all := [a] + s;
    if Before(s, x, y) {
      var i, j :| 0 <= i < j < |s| && s[i] == x && s[j] == y;
      assert all[i + 1] == x && all[j + 1] == y;
    }
    if x == a && y in s {
      var j :| 0 <= j < |s| && s[j] == y;
      assert all[0] == x && all[j + 1] == y;
    }
    if Before(all, x, y) {
      var i, j :| 0 <= i < j < |all| && all[i] == x && all[j] == y;
      assert s[j - 1] == y && (i > 0 ==> s[i - 1] == x);
    }
  }

  lemma {:induction false} FilterKeepsOrder<T>(keep: T -> bool, s: seq<T>, x: T, y: T)
    ensures Before(Filter(keep, s), x, y) <==> Before(s, x, y) && keep(x) && keep(y)
  {
    if s != [] {
      FilterKeepsOrder(keep, s[1..], x, y);
      FilterMembers(keep, s[1..]);
      assert s == [s[0]] + s[1..];
      BeforeCons(s[0], s[1..], x, y);
      BeforeCons(s[0], Filter(keep, s[1..]), x, y);
    }
  }

  lemma OneComesFirst<T>(s: seq<T>, x: T, y: T)
    requires Distinct(s) && x in s && y in s && x != y
    ensures Before(s, x, y) <==> !Before(s, y, x)
  {
    var i :| 0 <= i < |s| && s[i] == x;
    var j :| 0 <= j < |s| && s[j] == y;
    assert i < j ==> Before(s, x, y);
    assert j < i ==> Before(s, y, x);
  }

  /** Smaller, or of the same rank and earlier in the list. */
  ghost predicate Leads<T>(le: (T, T) -> bool, s: seq<T>, x: T, y: T) {
    x != y && le(x, y) && (!le(y, x) || Before(s, x, y))
  }

  lemma SortedBefore<T(!new)>(le: (T, T) -> bool, s: seq<T>, x: T, y: T)
    requires TotalPreorder(le) && Distinct(s) && x in s && y in s && x != y
    ensures Before(Sort(le, s), x, y) <==> Leads(le, s, x, y)
  {
    SortPermutes(le, s);
    SortDistinct(le, s);
    SortSorts(le, s);
    OneComesFirst(Sort(le, s), x, y);
    if le(x, y) && le(y, x) {
      var alike := (z: T) => z == x || z == y;
      SortIsStable(le, alike, s);
      FilterKeepsOrder(alike, s, x, y);
      FilterKeepsOrder(alike, Sort(le, s), x, y);
    }
  }

  lemma {:induction false} DistinctSize<T>(s: seq<T>)
    requires Distinct(s)
    ensures |set x | x in s| == |s|
  {
    if s != [] {
      var front, last := s[..|s| - 1], s[|s| - 1];
      DistinctSize(front);
      assert last !in front;
      assert (set x | x in s) == (set x | x in front) + {last};
    }
  }

  /** An element's place in the sorted list is the number of those that lead it. */
  lemma SortedPlace<T(!new)>(le: (T, T) -> bool, s: seq<T>, k: nat)
    requires TotalPreorder(le) && Distinct(s) && k < |Sort(le, s)|
    ensures |set x | x in s && Leads(le, s, x, Sort(le, s)[k])| == k
  {
    var t := Sort(le, s);
    var y := t[k];
    SortPermutes(le, s);
    SortDistinct(le, s);
    forall x
      ensures x in s && Leads(le, s, x, y) <==> x in t[..k]
    {
      assert y in t;
      if x in s && x != y {
        SortedBefore(le, s, x, y);
        BeforeIsPrefix(t, x, k);
      } else {
        assert x == y ==> x !in t[..k];
        assert x in t[..k] ==> x in t;
      }
    }
    assert (set x | x in s && Leads(le, s, x, y)) == set x | x in t[..k];
    DistinctSize(t[..k]);
  }

  lemma BeforeIsPrefix<T>(t: seq<T>, x: T, k: nat)
    requires Distinct(t) && k < |t|
    ensures Before(t, x, t[k]) <==> x in t[..k]
  {
    if Before(t, x, t[k]) {
      var i, j :| 0 <= i < j < |t| && t[i] == x && t[j] == t[k];
      assert j == k && t[..k][i] == x;
    }
    if x in t[..k] {
      var i :| 0 <= i < k && t[i] == x;
    }
  }

  // Strings ordered by code point, as Python compares them.

  predicate LexLe(s: string, t: string) {
    s == [] || (t != [] && (s[0] < t[0] || (s[0] == t[0] && LexLe(s[1..], t[1..]))))
  }

  /** At this place the first difference is. */
  ghost predicate SmallerAt(s: string, t: string, i: nat) {
    i < |s| && i < |t| && s[..i] == t[..i] && s[i] < t[i]
  }

  /** The order of texts: a text comes before its continuations, and else the first difference decides. */
  ghost predicate ComesBefore(s: string, t: string) {
    s <= t || exists i: nat :: SmallerAt(s, t, i)
  }

  lemma {:induction false} LexLeMeans(s: string, t: string)
    ensures LexLe(s, t) <==> ComesBefore(s, t)
  {
    if s != "" && t != "" {
      LexLeMeans(s[1..], t[1..]);
      FirstDifference(s, t);
    }
  }

  lemma FirstDifference(s: string, t: string)
    requires s != "" && t != ""
    ensures ComesBefore(s, t) <==> s[0] < t[0] || (s[0] == t[0] && ComesBefore(s[1..], t[1..]))
  {
    if s[0] < t[0] {
      assert SmallerAt(s, t, 0);
    } else if s[0] == t[0] {
      DifferenceInRest(s, t);
    } else {
      assert forall i :: 0 < i < |s| && i < |t| ==> s[..i][0] == s[0] && t[..i][0] == t[0];
    }
  }

  lemma SmallerShifts(c: char, u: string, v: string, i: nat)
    ensures SmallerAt(u, v, i) <==> SmallerAt([c] + u, [c] + v, i + 1)
  {
    if i < |u| && i < |v| {
      assert ([c] + u)[..i + 1] == [c] + u[..i] && ([c] + v)[..i + 1] == [c] + v[..i];
      assert ([c] + u[..i])[1..] == u[..i] && ([c] + v[..i])[1..] == v[..i];
    }
  }

  lemma PrefixShifts(c: char, u: string, v: string)
    ensures u <= v <==> [c] + u <= [c] + v
  {
    if [c] + u <= [c] + v {
      assert ([c] + v)[..|u| + 1] == [c] + u;
      assert v[..|u|] == ([c] + v)[1..|u| + 1];
    }
  }

  lemma DifferenceInRest(s: string, t: string)
    requires s != "" && t != "" && s[0] == t[0]
    ensures ComesBefore(s, t) <==> ComesBefore(s[1..], t[1..])
  {
    var u, v := s[1..], t[1..];
    assert s == [s[0]] + u && t == [s[0]] + v;
    PrefixShifts(s[0], u, v);
    if i: nat :| SmallerAt(s, t, i) {
      SmallerShifts(s[0], u, v, i - 1);
    }
    if i: nat :| SmallerAt(u, v, i) {
      SmallerShifts(s[0], u, v, i);
    }
  }

  lemma {:induction false} LexTotal(s: string, t: string)
    ensures LexLe(s, t) || LexLe(t, s)
    ensures LexLe(s, t) && LexLe(t, s) ==> s == t
  {
    if s != [] && t != [] && s[0] == t[0] {
      LexTotal(s[1..], t[1..]);
      assert s == [s[0]] + s[1..] && t == [t[0]] + t[1..];
    }
  }

  lemma {:induction false} LexTransitive(s: string, t: string, u: string)
    requires LexLe(s, t) && LexLe(t, u)
    ensures LexLe(s, u)
  {
    if s != [] && t != [] && u != [] && s[0] == t[0] == u[0] {
      LexTransitive(s[1..], t[1..], u[1..]);
    }
  }

  lemma LexOrder()
    ensures TotalPreorder(LexLe)
  {
    forall x, y
      ensures LexLe(x, y) || LexLe(y, x)
    {
      LexTotal(x, y);
    }
    forall x, y, z | LexLe(x, y) && LexLe(y, z)
      ensures LexLe(x, z)
    {
      LexTransitive(x, y, z);
    }
  }
}
