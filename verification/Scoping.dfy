/**
 Tenant isolation of the signal table: fingerprints are prefixed with a digest of the connection
 scope, and every row records the scope it was last written under.
 */
module Scoping {
  import opened Common
  import opened Signals

  /** The scope key a completed run passes to the response service. */
  function ScopeKey(b: Binding): string {
    b.alias + ['|'] + (b.connection + ['|'] + b.tenant)
  }

  /** Aliases follow `[a-z][a-z0-9-]*` and connection fingerprints are hexadecimal. */
  predicate PlainParts(b: Binding) {
    '|' !in b.alias && '|' !in b.connection
  }

  /** `digest` stands for the sixteen leading hexadecimal digits of SHA-256. */
  function ScopedFingerprint(digest: string -> string, scopeKey: string, fingerprint: string): string {
    if scopeKey == "" || fingerprint == "" then fingerprint
    else digest(scopeKey) + [':'] + fingerprint
  }

  function ScopeSightings(digest: string -> string, scopeKey: string, ss: seq<Sighting>): (r: seq<Sighting>)
    ensures |r| == |ss|
    ensures forall i :: 0 <= i < |ss| ==>
              r[i] == ss[i].(fingerprint := ScopedFingerprint(digest, scopeKey, ss[i].fingerprint))
  {
    if ss == [] then []
    else [ss[0].(fingerprint := ScopedFingerprint(digest, scopeKey, ss[0].fingerprint))]
         + ScopeSightings(digest, scopeKey, ss[1..])
  }

  lemma ScopeKeyPinsBinding(a: Binding, b: Binding)
    requires PlainParts(a) && PlainParts(b) && ScopeKey(a) == ScopeKey(b)
    ensures a == b
  {
    SplitOnce('|', a.alias, a.connection + ['|'] + a.tenant, b.alias, b.connection + ['|'] + b.tenant);
    SplitOnce('|', a.connection, a.tenant, b.connection, b.tenant);
  }

  /** Without that restriction on the parts, two tenants can share one scope key. */
  lemma ScopeKeyIsAmbiguousWithBars()
    ensures exists a: Binding, b: Binding :: a.tenant != b.tenant && ScopeKey(a) == ScopeKey(b)
  {
    var a := Binding("a|b", "c", "d");
    var b := Binding("a", "b", "c|d");
    assert ScopeKey(a) == "a|b|c|d";
    assert ScopeKey(b) == "a|b|c|d";
    assert a.tenant[0] != b.tenant[0];
  }

  /** The digest tells these two scope keys apart, and is as long as it always is. */
  predicate Separates(digest: string -> string, k: string, l: string) {
    |digest(k)| == 16 == |digest(l)| && (k != l ==> digest(k) != digest(l))
  }

  lemma ScopesDoNotMeet(digest: string -> string, k: string, l: string, x: string, y: string)
    requires Separates(digest, k, l) && k != "" && l != "" && x != "" && y != ""
    ensures ScopedFingerprint(digest, k, x) == ScopedFingerprint(digest, l, y) ==> k == l && x == y
  {
    var s, t := ScopedFingerprint(digest, k, x), ScopedFingerprint(digest, l, y);
    assert s[..16] == digest(k) && t[..16] == digest(l);
    assert s[17..] == x && t[17..] == y;
  }

  /** Every row is stored under the scope it was last written under. */
  ghost predicate KeyedByScope(rows: SignalTable, digest: string -> string) {
    forall f :: f in rows ==> KeyedUnder(f, rows[f].binding, digest)
  }

  ghost predicate KeyedUnder(f: string, b: Binding, digest: string -> string) {
    exists x :: x != "" && f == ScopedFingerprint(digest, ScopeKey(b), x)
  }

  /** The run reports its own signals, scoped with its own binding. */
  ghost predicate ScopedRun(o: Observation, digest: string -> string) {
    exists raw :: o.sightings == ScopeSightings(digest, ScopeKey(o.binding), raw)
  }

  lemma ScopedRunSees(o: Observation, digest: string -> string, f: string)
    requires ScopedRun(o, digest) && First(o.sightings, f).Some?
    ensures KeyedUnder(f, o.binding, digest)
  {
    FirstSeen(o.sightings, f);
    var raw: seq<Sighting> :| o.sightings == ScopeSightings(digest, ScopeKey(o.binding), raw);
    var s := First(o.sightings, f).value;
    var i :| 0 <= i < |raw| && o.sightings[i] == s;
    assert f == ScopedFingerprint(digest, ScopeKey(o.binding), raw[i].fingerprint);
    assert raw[i].fingerprint != "";
  }

  lemma CorrelationKeepsKeys(rows: SignalTable, o: Observation, digest: string -> string)
    requires KeyedByScope(rows, digest) && ScopedRun(o, digest)
    ensures KeyedByScope(Correlated(rows, o), digest)
  {
    forall f | f in Correlated(rows, o)
      ensures KeyedUnder(f, Correlated(rows, o)[f].binding, digest)
    {
      CorrelationIsPointwise(rows, o, f);
      if First(o.sightings, f).Some? {
        ScopedRunSees(o, digest, f);
      }
    }
  }

  /** A run never reports a fingerprint under which a row of another tenant stands. */
  lemma OthersRowsAreUnseen(rows: SignalTable, o: Observation, digest: string -> string, f: string)
    requires KeyedByScope(rows, digest) && ScopedRun(o, digest)
    requires f in rows && rows[f].binding.tenant != o.binding.tenant
    requires PlainParts(o.binding) && PlainParts(rows[f].binding)
    requires Separates(digest, ScopeKey(o.binding), ScopeKey(rows[f].binding))
    ensures First(o.sightings, f).None?
  {
    if First(o.sightings, f).Some? {
      ScopedRunSees(o, digest, f);
      var x :| x != "" && f == ScopedFingerprint(digest, ScopeKey(o.binding), x);
      assert KeyedUnder(f, rows[f].binding, digest);
      var y :| y != "" && f == ScopedFingerprint(digest, ScopeKey(rows[f].binding), y);
      ScopesDoNotMeet(digest, ScopeKey(o.binding), ScopeKey(rows[f].binding), x, y);
      ScopeKeyPinsBinding(o.binding, rows[f].binding);
      assert false;
    }
  }

  /**
   Exactly when a run touches a row of another tenant: never, unless the run itself carries no
   tenant, and then it closes the unresolved rows it covers.
   */
  lemma OtherTenantsRowsAreFramed(rows: SignalTable, o: Observation, digest: string -> string, f: string)
    requires KeyedByScope(rows, digest) && ScopedRun(o, digest)
    requires f in rows && rows[f].binding.tenant != o.binding.tenant
    requires PlainParts(o.binding) && PlainParts(rows[f].binding)
    requires Separates(digest, ScopeKey(o.binding), ScopeKey(rows[f].binding))
    ensures f in Correlated(rows, o)
    ensures Correlated(rows, o)[f] != rows[f]
       <==> (o.binding.tenant == "" && o.authoritative && !rows[f].status.Resolved? && Covers(o, rows[f].kind))
  {
    OthersRowsAreUnseen(rows, o, digest, f);
    CorrelationIsPointwise(rows, o, f);
  }
}
