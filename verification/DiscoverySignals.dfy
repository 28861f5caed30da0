/**
 The deterministic signals of one discovery result, and what a partial or shallow discovery may
 and may not do to the signal table and to response packages.
 */
module DiscoverySignals {
  import opened Common
  import opened Sorting
  import opened Signals
  import opened Scoping
  import opened Packages
  import opened Response
  import opened Discovery
  import opened SignalReport

  /** A signal built as the source builds it, with the authority its origin deserves. */
  ghost predicate WellMade(s: Sighting, failed: bool, w: Wording) {
    && (exists parts :: s.fingerprint == w.fingerprint(s.kind, parts))
    && (s.kind.Collection? ==> failed && s.authoritative && s.severity.High?)
    && (!s.kind.Collection? ==> s.authoritative == !failed)
    && (failed && Severe(s.severity) ==> s.kind.Collection?)
  }

  ghost predicate AllWellMade(ss: seq<Sighting>, failed: bool, w: Wording) {
    forall i :: 0 <= i < |ss| ==> WellMade(ss[i], failed, w)
  }

  ghost predicate NoneCollection(ss: seq<Sighting>) {
    forall i :: 0 <= i < |ss| ==> !ss[i].kind.Collection?
  }

  /** Well made, and about something else than a failed collection path. */
  ghost predicate Derived(ss: seq<Sighting>, failed: bool, w: Wording) {
    AllWellMade(ss, failed, w) && NoneCollection(ss)
  }

  lemma WellMadeConcat(ss: seq<Sighting>, ts: seq<Sighting>, failed: bool, w: Wording)
    requires AllWellMade(ss, failed, w) && AllWellMade(ts, failed, w)
    ensures AllWellMade(ss + ts, failed, w)
  {
    forall i | 0 <= i < |ss + ts|
      ensures WellMade((ss + ts)[i], failed, w)
    {
      assert if i < |ss| then (ss + ts)[i] == ss[i] else (ss + ts)[i] == ts[i - |ss|];
    }
  }

  lemma DerivedConcat(ss: seq<Sighting>, ts: seq<Sighting>, failed: bool, w: Wording)
    requires Derived(ss, failed, w) && Derived(ts, failed, w)
    ensures Derived(ss + ts, failed, w)
  {
    WellMadeConcat(ss, ts, failed, w);
  }

  lemma {:induction false} FindingsWellMade(fs: seq<Option<DiscoveryFinding>>, failed: bool, w: Wording)
    ensures Derived(FindingSignals(fs, failed, w), failed, w)
  {
    if fs != [] {
      FindingsWellMade(fs[..|fs| - 1], failed, w);
      if fs[|fs| - 1].Some? {
        var f := fs[|fs| - 1].value;
        var s := FindingSignal(f, |fs|, failed, w);
        assert s.fingerprint == w.fingerprint(s.kind, IdentityOf(f));
        DerivedOne(FindingSignals(fs[..|fs| - 1], failed, w), s, failed, w);
      }
    }
  }

  lemma DerivedOne(ss: seq<Sighting>, s: Sighting, failed: bool, w: Wording)
    requires Derived(ss, failed, w) && WellMade(s, failed, w) && !s.kind.Collection?
    ensures Derived(ss + [s], failed, w)
  {
    DerivedConcat(ss, [s], failed, w);
  }

  lemma {:induction false} ItemsWellMade(category: string, direction: string, items: seq<string>, failed: bool,
                                         w: Wording)
    ensures Derived(ItemSignals(category, direction, items, failed, w), failed, w)
  {
    if items != [] {
      ItemsWellMade(category, direction, items[..|items| - 1], failed, w);
      var s := ItemSignal(category, direction, items[|items| - 1], failed, w);
      assert s.fingerprint == w.fingerprint(s.kind, [category, direction, Clip(items[|items| - 1], 500)]);
    }
  }

  lemma {:induction false} InventoryWellMade(cs: seq<InventoryChange>, failed: bool, w: Wording)
    ensures Derived(InventorySignals(cs, failed, w), failed, w)
  {
    if cs != [] {
      var c := cs[|cs| - 1];
      InventoryWellMade(cs[..|cs| - 1], failed, w);
      ItemsWellMade(c.category, "added", c.added, failed, w);
      ItemsWellMade(c.category, "removed", c.removed, failed, w);
    }
  }

  lemma {:induction false} CoverageWellMade(cs: seq<CoverageChange>, failed: bool, w: Wording)
    ensures Derived(CoverageSignals(cs, failed, w), failed, w)
  {
    if cs != [] {
      CoverageWellMade(cs[..|cs| - 1], failed, w);
      var s := CoverageSignal(cs[|cs| - 1], failed, w);
      assert s.fingerprint == w.fingerprint(s.kind, [cs[|cs| - 1].domain]);
      DerivedOne(CoverageSignals(cs[..|cs| - 1], failed, w), s, failed, w);
    }
  }

  lemma {:induction false} CollectionWellMade(paths: seq<string>, errors: seq<CollectionError>, w: Wording)
    ensures AllWellMade(CollectionSignals(paths, errors, w), true, w)
  {
    if paths != [] {
      CollectionWellMade(paths[..|paths| - 1], errors, w);
      var s := PathSignal(paths[|paths| - 1], errors, w);
      assert s.fingerprint == w.fingerprint(s.kind, [Clip(paths[|paths| - 1], 500)]);
    }
  }

  /** Everything a discovery reports except its failed collection paths. */
  function DerivedSignals(r: DiscoveryResult, w: Wording): seq<Sighting> {
    var failed := r.failedCalls != 0;
    FindingSignals(r.findings, failed, w) + InventorySignals(r.inventory, failed, w)
    + CoverageSignals(r.coverage, failed, w) + MltkSignals(r, failed, w)
  }

  lemma MltkWellMade(r: DiscoveryResult, failed: bool, w: Wording)
    ensures Derived(MltkSignals(r, failed, w), failed, w)
  {
    var mltk := MltkSignals(r, failed, w);
    assert mltk != [] ==> mltk[0].fingerprint == w.fingerprint(Mltk, ["definitions"]);
  }

  lemma DerivedSignalsAreDerived(r: DiscoveryResult, w: Wording)
    ensures Derived(DerivedSignals(r, w), r.failedCalls != 0, w)
  {
    var failed := r.failedCalls != 0;
    var findings, inventory := FindingSignals(r.findings, failed, w), InventorySignals(r.inventory, failed, w);
    var coverage, mltk := CoverageSignals(r.coverage, failed, w), MltkSignals(r, failed, w);
    FindingsWellMade(r.findings, failed, w);
    InventoryWellMade(r.inventory, failed, w);
    CoverageWellMade(r.coverage, failed, w);
    MltkWellMade(r, failed, w);
    DerivedConcat(findings, inventory, failed, w);
    DerivedConcat(findings + inventory, coverage, failed, w);
    DerivedConcat(findings + inventory + coverage, mltk, failed, w);
  }

  lemma SignalsSplit(r: DiscoveryResult, w: Wording)
    ensures SignalsOf(r, w) == DerivedSignals(r, w) + CollectionSignals(FailedPaths(r), r.errors, w)
  {
  }

  lemma SignalsAreWellMade(r: DiscoveryResult, w: Wording)
    ensures AllWellMade(SignalsOf(r, w), r.failedCalls != 0, w)
  {
    var derived, collection := DerivedSignals(r, w), CollectionSignals(FailedPaths(r), r.errors, w);
    DerivedSignalsAreDerived(r, w);
    CollectionWellMade(FailedPaths(r), r.errors, w);
    SignalsSplit(r, w);
    WellMadeConcat(derived, collection, r.failedCalls != 0, w);
  }

  function AuthoritativeKinds(depth: Depth): set<Kind> {
    if depth.Quick? then {Inventory, Collection}
    else {Inventory, Collection, Coverage, Finding, Mltk}
  }

  /** The correlation call `process` makes for a completed run. */
  ghost predicate Reports(o: Observation, r: DiscoveryResult, w: Wording, digest: string -> string) {
    && o.sightings == ScopeSightings(digest, ScopeKey(o.binding), SignalsOf(r, w))
    && o.authoritative == (r.failedCalls == 0)
    && o.kinds == Some(AuthoritativeKinds(r.depth))
  }

  /**
   No false resolution. A run with failed calls closes nothing; a quick run closes only inventory and
   collection signals; and whatever is closed was not seen.
   */
  lemma OnlyFullReadsResolve(rows: SignalTable, o: Observation, r: DiscoveryResult, w: Wording,
                             digest: string -> string, f: string)
    requires Reports(o, r, w, digest) && f in rows && !rows[f].status.Resolved?
    ensures f in Correlated(rows, o)
    ensures Correlated(rows, o)[f].status.Resolved?
       <==> r.failedCalls == 0 && f !in Seen(o.sightings)
            && (o.binding.tenant == "" || rows[f].binding.tenant == o.binding.tenant)
            && (r.depth.Quick? ==> rows[f].kind.Inventory? || rows[f].kind.Collection?)
  {
    ResolvedExactlyWhenMissed(rows, o, f);
    FirstSeen(o.sightings, f);
    KindsCovered(o, r.depth, rows[f].kind);
  }

  lemma KindsCovered(o: Observation, depth: Depth, kind: Kind)
    requires o.kinds == Some(AuthoritativeKinds(depth))
    ensures Covers(o, kind) <==> (depth.Quick? ==> kind.Inventory? || kind.Collection?)
  {
  }

  /** The fingerprint tells the kinds of this run's own signals apart. */
  ghost predicate KindsSeparated(ss: seq<Sighting>) {
    forall s, t :: s in ss && t in ss && s.fingerprint == t.fingerprint ==> s.kind == t.kind
  }

  /** A failed path is severe and trusted; everything else is trusted exactly in a full read. */
  predicate TrustFits(s: Sighting, failed: bool) {
    if s.kind.Collection? then failed && s.authoritative && s.severity.High? else s.authoritative == !failed
  }

  lemma ObservedSightings(o: Observation, r: DiscoveryResult, w: Wording, digest: string -> string)
    requires Reports(o, r, w, digest)
    ensures forall s :: s in o.sightings ==> TrustFits(s, r.failedCalls != 0)
  {
    SignalsAreWellMade(r, w);
    var raw := SignalsOf(r, w);
    forall s | s in o.sightings
      ensures TrustFits(s, r.failedCalls != 0)
    {
      var i :| 0 <= i < |o.sightings| && o.sightings[i] == s;
      assert WellMade(raw[i], r.failedCalls != 0, w);
    }
  }

  /** All reports of one signal in a run deserve the same trust. */
  lemma ObservedAuthority(o: Observation, r: DiscoveryResult, w: Wording, digest: string -> string)
    requires Reports(o, r, w, digest) && KindsSeparated(o.sightings)
    ensures SameAuthority(o.sightings)
  {
    ObservedSightings(o, r, w, digest);
  }

  /**
   Response packages of a partial run hold collection failures and nothing derived from the
   incomplete read; those of a complete run hold none. Either way each signal is severe or repeated,
   and in no other open package of the tenant.
   */
  lemma PackagesFollowTheEvidence(d: Desk, o: Observation, r: DiscoveryResult, w: Wording,
                                  digest: string -> string, order: seq<string>)
    requires Reports(o, r, w, digest) && KindsSeparated(o.sightings)
    requires Enumerates(order, Seen(o.sightings))
    requires forall f :: f in Seen(o.sightings) && f in d.rows ==> d.rows[f].lastRun != o.runId
    ensures forall c :: c in ChosenBy(d, o, order, Some(o.binding)) ==>
              FollowsEvidence(c, r.failedCalls != 0, Covered(Expire(d.packages, o.now), o.binding.tenant))
  {
    ObservedAuthority(o, r, w, digest);
    ObservedSightings(o, r, w, digest);
    forall c | c in ChosenBy(d, o, order, Some(o.binding))
      ensures FollowsEvidence(c, r.failedCalls != 0, Covered(Expire(d.packages, o.now), o.binding.tenant))
    {
      PackagedSignalsAreWarranted(d, o, order, Some(o.binding), c);
      FirstSeen(o.sightings, c.fingerprint);
      CorrelationIsPointwise(d.rows, o, c.fingerprint);
      ChosenIsConfirmed(d, o, order, Some(o.binding), c);
    }
  }

  /** A collection failure exactly in a partial run; persistent, severe or repeated; not covered yet. */
  predicate FollowsEvidence(c: Candidate, failed: bool, covered: set<string>) {
    && (c.row.kind.Collection? <==> failed)
    && c.row.status.Persistent? && (Severe(c.row.severity) || c.row.consecutive >= 2)
    && c.fingerprint !in covered
  }

  lemma ChosenIsConfirmed(d: Desk, o: Observation, order: seq<string>, source: Option<Binding>, c: Candidate)
    requires SameAuthority(o.sightings) && Enumerates(order, Seen(o.sightings))
    requires c in ChosenBy(d, o, order, source)
    ensures First(o.sightings, c.fingerprint).Some?
    ensures First(o.sightings, c.fingerprint).value.authoritative
  {
    var covered := Covered(Expire(d.packages, o.now), CoverTenant(source));
    EligibleListed(order, Correlated(d.rows, o), covered, o.sightings);
    ChosenAreTheBest(EligibleFrom(order, Correlated(d.rows, o), covered, o.sightings));
    FirstSeen(o.sightings, c.fingerprint);
    ConfirmedWitness(o.sightings, c.fingerprint);
  }

  /** The fingerprint a failed collection path has in the signal table. */
  function PathFingerprint(o: Observation, path: string, w: Wording, digest: string -> string): string {
    ScopedFingerprint(digest, ScopeKey(o.binding), PathMark(path, w))
  }

  lemma {:induction false} PathIsListed(paths: seq<string>, errors: seq<CollectionError>, path: string,
                                        w: Wording)
    requires path in paths
    ensures exists s :: && s in CollectionSignals(paths, errors, w) && s.kind.Collection?
                        && s.fingerprint == PathMark(path, w)
  {
    var front, last := paths[..|paths| - 1], paths[|paths| - 1];
    if path == last {
      var all := CollectionSignals(paths, errors, w);
      assert all[|all| - 1] in all;
    } else {
      PathIsListed(front, errors, path, w);
      var s :| s in CollectionSignals(front, errors, w) && s.kind.Collection? && s.fingerprint == PathMark(path, w);
      assert s in CollectionSignals(paths, errors, w);
    }
  }

  lemma PathIsSeen(o: Observation, r: DiscoveryResult, w: Wording, digest: string -> string, path: string)
    requires Reports(o, r, w, digest) && path in FailedPaths(r)
    ensures exists s :: s in o.sightings && s.kind.Collection? && s.fingerprint == PathFingerprint(o, path, w, digest)
  {
    PathIsListed(FailedPaths(r), r.errors, path, w);
    var raw := SignalsOf(r, w);
    var s :| && s in CollectionSignals(FailedPaths(r), r.errors, w) && s.kind.Collection?
             && s.fingerprint == PathMark(path, w);
    assert s in raw;
    var i :| 0 <= i < |raw| && raw[i] == s;
    assert o.sightings[i] in o.sightings && o.sightings[i].kind.Collection?;
  }

  lemma PathReportsAreSevere(o: Observation, r: DiscoveryResult, w: Wording, digest: string -> string,
                             path: string)
    requires Reports(o, r, w, digest) && KindsSeparated(o.sightings) && path in FailedPaths(r)
    ensures SevereForSure(o.sightings, PathFingerprint(o, path, w, digest))
  {
    PathIsSeen(o, r, w, digest, path);
    ObservedSightings(o, r, w, digest);
    SevereIfCollection(o.sightings, PathFingerprint(o, path, w, digest), r.failedCalls != 0);
  }

  lemma SevereIfCollection(ss: seq<Sighting>, f: string, failed: bool)
    requires KindsSeparated(ss) && (forall s :: s in ss ==> TrustFits(s, failed))
    requires exists s :: s in ss && s.kind.Collection? && s.fingerprint == f
    ensures SevereForSure(ss, f)
  {
    var s :| s in ss && s.kind.Collection? && s.fingerprint == f;
    assert forall t :: t in ss && t.fingerprint == f ==> t.kind == s.kind;
  }

  /** Reported, and only with authority and a severe rating. */
  ghost predicate SevereForSure(ss: seq<Sighting>, f: string) {
    && (exists s :: s in ss && s.fingerprint == f)
    && (forall s :: s in ss && s.fingerprint == f ==> s.authoritative && Severe(s.severity))
  }

  /** Such a signal is persistent after the run, and confirmed by it. */
  lemma SevereForSureIsPersistent(rows: SignalTable, o: Observation, f: string)
    requires SevereForSure(o.sightings, f) && f != "" && (f in rows ==> rows[f].lastRun != o.runId)
    ensures f in Seen(o.sightings) && Confirmed(o.sightings, f)
    ensures f in Correlated(rows, o) && Correlated(rows, o)[f].status.Persistent?
  {
    AllConfirmed(o.sightings, f);
    FirstSeen(o.sightings, f);
    CorrelationIsPointwise(rows, o, f);
  }

  /** The signals of the failed paths, as the run reports them. */
  function PathFingerprints(o: Observation, paths: set<string>, w: Wording,
                            digest: string -> string): set<string> {
    set p | p in paths :: PathFingerprint(o, p, w, digest)
  }

  function PathSet(r: DiscoveryResult): set<string> {
    set p | p in FailedPaths(r)
  }

  lemma {:induction false} PathListed(paths: seq<string>, errors: seq<CollectionError>, w: Wording, i: nat)
    requires i < |CollectionSignals(paths, errors, w)|
    ensures exists p :: p in paths && CollectionSignals(paths, errors, w)[i].fingerprint == PathMark(p, w)
  {
    var front, last := paths[..|paths| - 1], paths[|paths| - 1];
    if i < |CollectionSignals(front, errors, w)| {
      PathListed(front, errors, w, i);
      var p :| p in front && CollectionSignals(front, errors, w)[i].fingerprint == PathMark(p, w);
      assert p in paths;
    } else {
      assert last in paths;
    }
  }

  lemma RawCollectionIsPath(r: DiscoveryResult, w: Wording, i: nat)
    requires i < |SignalsOf(r, w)| && SignalsOf(r, w)[i].kind.Collection?
    ensures exists p :: p in FailedPaths(r) && SignalsOf(r, w)[i].fingerprint == PathMark(p, w)
  {
    var derived, raw := DerivedSignals(r, w), SignalsOf(r, w);
    DerivedSignalsAreDerived(r, w);
    assert raw == derived + CollectionSignals(FailedPaths(r), r.errors, w);
    assert forall k :: 0 <= k < |derived| ==> raw[k] == derived[k];
    PathListed(FailedPaths(r), r.errors, w, i - |derived|);
  }

  /** A collection signal of a run stands for one of its failed paths. */
  lemma CollectionIsPath(o: Observation, r: DiscoveryResult, w: Wording, digest: string -> string)
    requires Reports(o, r, w, digest)
    ensures forall s :: s in o.sightings && s.kind.Collection? ==>
              s.fingerprint in PathFingerprints(o, PathSet(r), w, digest)
  {
    forall s | s in o.sightings && s.kind.Collection?
      ensures s.fingerprint in PathFingerprints(o, PathSet(r), w, digest)
    {
      var i :| 0 <= i < |o.sightings| && o.sightings[i] == s;
      RawCollectionIsPath(r, w, i);
      var p :| p in FailedPaths(r) && SignalsOf(r, w)[i].fingerprint == PathMark(p, w);
      assert p in PathSet(r) && s.fingerprint == PathFingerprint(o, p, w, digest);
    }
  }

  /** In a partial run, only failed paths compete for the package. */
  lemma OnlyPathsCompete(o: Observation, r: DiscoveryResult, w: Wording, digest: string -> string,
                         order: seq<string>, rows: SignalTable, covered: set<string>)
    requires Reports(o, r, w, digest) && r.failedCalls != 0 && Enumerates(order, Seen(o.sightings))
    ensures Fingerprints(EligibleFrom(order, rows, covered, o.sightings)) <= PathFingerprints(o, PathSet(r), w, digest)
  {
    EligibleListed(order, rows, covered, o.sightings);
    ObservedSightings(o, r, w, digest);
    CollectionIsPath(o, r, w, digest);
    forall c | c in EligibleFrom(order, rows, covered, o.sightings)
      ensures c.fingerprint in PathFingerprints(o, PathSet(r), w, digest)
    {
      ConfirmedWitness(o.sightings, c.fingerprint);
      var s :| s in o.sightings && s.fingerprint == c.fingerprint && s.authoritative;
    }
  }

  lemma {:induction false} FewerFingerprints(o: Observation, paths: set<string>, w: Wording,
                                             digest: string -> string)
    ensures |PathFingerprints(o, paths, w, digest)| <= |paths|
    decreases paths
  {
    if paths != {} {
      var p :| p in paths;
      FewerFingerprints(o, paths - {p}, w, digest);
      assert PathFingerprints(o, paths, w, digest)
        == PathFingerprints(o, paths - {p}, w, digest) + {PathFingerprint(o, p, w, digest)};
    }
  }

  lemma FewPathsCompete(o: Observation, r: DiscoveryResult, w: Wording, digest: string -> string,
                        order: seq<string>, rows: SignalTable, covered: set<string>)
    requires Reports(o, r, w, digest) && r.failedCalls != 0 && Enumerates(order, Seen(o.sightings))
    ensures |EligibleFrom(order, rows, covered, o.sightings)| <= |PathSet(r)|
  {
    var eligible := EligibleFrom(order, rows, covered, o.sightings);
    EligibleListed(order, rows, covered, o.sightings);
    DistinctCardinality(eligible);
    OnlyPathsCompete(o, r, w, digest, order, rows, covered);
    SubsetSize(Fingerprints(eligible), PathFingerprints(o, PathSet(r), w, digest));
    FewerFingerprints(o, PathSet(r), w, digest);
  }

  /** A severe, trusted signal in no open package is chosen when no more than twelve compete. */
  lemma SevereIsChosen(d: Desk, o: Observation, order: seq<string>, f: string)
    requires SevereForSure(o.sightings, f) && f != "" && (f in d.rows ==> d.rows[f].lastRun != o.runId)
    requires Enumerates(order, Seen(o.sightings))
    requires f !in Covered(Expire(d.packages, o.now), o.binding.tenant)
    requires var covered := Covered(Expire(d.packages, o.now), o.binding.tenant);
             |EligibleFrom(order, Correlated(d.rows, o), covered, o.sightings)| <= PACKAGE_LIMIT
    ensures f in Correlated(d.rows, o)
            && Candidate(f, Correlated(d.rows, o)[f]) in ChosenBy(d, o, order, Some(o.binding))
  {
    var covered, rows := Covered(Expire(d.packages, o.now), o.binding.tenant), Correlated(d.rows, o);
    SevereForSureIsPersistent(d.rows, o, f);
    EligibleListed(order, rows, covered, o.sightings);
    FewAreAllChosen(EligibleFrom(order, rows, covered, o.sightings));
  }

  /**
   No failed collection path of a run with at most twelve is passed over: once the run is processed,
   an open package of the tenant holds it.
   */
  lemma FailedPathsArePackaged(d: Desk, o: Observation, r: DiscoveryResult, w: Wording,
                               digest: string -> string, order: seq<string>, path: string)
    requires Reports(o, r, w, digest) && KindsSeparated(o.sightings) && path in FailedPaths(r)
    requires Enumerates(order, Seen(o.sightings)) && |PathSet(r)| <= PACKAGE_LIMIT
    requires var f := PathFingerprint(o, path, w, digest);
             f != "" && (f in d.rows ==> d.rows[f].lastRun != o.runId)
    ensures PathFingerprint(o, path, w, digest)
            in Covered(Processed(d, o, order, Some(o.binding)).packages, o.binding.tenant)
  {
    var f := PathFingerprint(o, path, w, digest);
    var covered := Covered(Expire(d.packages, o.now), o.binding.tenant);
    if f in covered {
      StaysCovered(d, o, order, Some(o.binding), f);
    } else {
      PathReportsAreSevere(o, r, w, digest, path);
      FewPathsCompete(o, r, w, digest, order, Correlated(d.rows, o), covered);
      SevereIsChosen(d, o, order, f);
      ChosenIsCovered(d, o, order, Some(o.binding), Candidate(f, Correlated(d.rows, o)[f]));
    }
  }

  lemma StaysCovered(d: Desk, o: Observation, order: seq<string>, source: Option<Binding>, f: string)
    requires f in Covered(Expire(d.packages, o.now), CoverTenant(source))
    ensures f in Covered(Processed(d, o, order, source).packages, CoverTenant(source))
  {
    var chosen := ChosenBy(d, o, order, source);
    if chosen != [] {
      CoverageGrows(Expire(d.packages, o.now), NewPackage(o, source, chosen), CoverTenant(source));
    }
  }

  // A run all of this speaks of: one failed path, and a package of it.

  const SEARCH_FAILED := DiscoveryResult(Quick, 1, [], [], [], 0, 0, ["search"], [])
  const PRIMARY := Binding("primary", "c", "t")

  function Sixteen(key: string): string {
    "0123456789abcdef"
  }

  const PLAIN := Wording((kind, parts) => "f", name => name, c => c == ' ')

  lemma SearchFailedReports() returns (o: Observation, f: string)
    ensures Reports(o, SEARCH_FAILED, PLAIN, Sixteen) && o.binding == PRIMARY && o.now == 0
    ensures f != "" && f == PathFingerprint(o, "search", PLAIN, Sixteen)
    ensures |o.sightings| == 1 && o.sightings[0].fingerprint == f && o.sightings[0].kind.Collection?
  {
    f := ScopedFingerprint(Sixteen, ScopeKey(PRIMARY), "f");
    var raw := PathSignal("search", [], PLAIN);
    o := Observation("r1", PRIMARY, [raw.(fingerprint := f)], false, Some(AuthoritativeKinds(Quick)), 0);
    assert FailedPaths(SEARCH_FAILED) == ["search"] && ["search"][..0] == [];
    assert SignalsOf(SEARCH_FAILED, PLAIN) == [raw];
    assert ScopeSightings(Sixteen, ScopeKey(PRIMARY), [raw]) == o.sightings;
  }

  /**
   `PackagesFollowTheEvidence` and `FailedPathsArePackaged` speak of this run: its failed path is
   packaged from an empty desk.
   */
  lemma APartialRunIsPackaged() returns (d: Desk, o: Observation, order: seq<string>, c: Candidate)
    ensures Reports(o, SEARCH_FAILED, PLAIN, Sixteen) && KindsSeparated(o.sightings)
    ensures Enumerates(order, Seen(o.sightings))
    ensures forall f :: f in Seen(o.sightings) && f in d.rows ==> d.rows[f].lastRun != o.runId
    ensures "search" in FailedPaths(SEARCH_FAILED) && |PathSet(SEARCH_FAILED)| <= PACKAGE_LIMIT
    ensures c in ChosenBy(d, o, order, Some(o.binding)) && c.row.kind.Collection?
  {
    var f;
    d := Desk(map[], []);
    o, f := SearchFailedReports();
    order := [f];
    assert o.sightings[0] in o.sightings;
    PathReportsAreSevere(o, SEARCH_FAILED, PLAIN, Sixteen, "search");
    FewPathsCompete(o, SEARCH_FAILED, PLAIN, Sixteen, order, Correlated(d.rows, o),
                    Covered(Expire(d.packages, 0), "t"));
    assert PathSet(SEARCH_FAILED) == {"search"};
    SevereIsChosen(d, o, order, f);
    c := Candidate(f, Correlated(d.rows, o)[f]);
    CorrelationIsPointwise(d.rows, o, f);
  }
}
