/**
 Cross-run signal correlation: the `assurance_signals` table and `correlate_signals`.

 `Correlated` says what one run does to the whole table, statement by statement;
 `RowAfter` says what it does to a single fingerprint, looking at nothing else.
 `CorrelationIsPointwise` connects the two, and most other results follow from it.
 */
module Signals {
  import opened Common
  import opened Sorting

  datatype Severity = Critical | High | Medium | Low

  datatype Kind = Inventory | Collection | Coverage | Finding | Mltk

  datatype SignalStatus = Watching | Persistent | Resolved

  /** The connection identity copied from a run onto everything it touches. */
  datatype Binding = Binding(alias: string, connection: string, tenant: string)

  /** What a signal says besides its title: its detail, its subject and the finding it comes from. */
  datatype Notes = Notes(detail: string, subject: string, reference: string)

  /** One deterministic signal as a run reports it. An empty fingerprint is ignored by the store. */
  datatype Sighting = Sighting(fingerprint: string, kind: Kind, severity: Severity, title: string, notes: Notes,
                               authoritative: bool)

  /** One call of `correlate_signals`; `kinds` is None when the run may resolve every kind. */
  datatype Observation = Observation(runId: string, binding: Binding, sightings: seq<Sighting>,
                                     authoritative: bool, kinds: Option<set<Kind>>, now: int)

  datatype SignalRow = SignalRow(kind: Kind, severity: Severity, title: string, notes: Notes, status: SignalStatus,
                                 occurrences: nat, consecutive: nat, firstRun: string, lastRun: string,
                                 firstSeenAt: int, lastSeenAt: int, resolvedAt: Option<int>,
                                 binding: Binding)

  type SignalTable = map<string, SignalRow>

  predicate Severe(severity: Severity) {
    severity.Critical? || severity.High?
  }

  predicate Covers(o: Observation, kind: Kind) {
    o.kinds.None? || kind in o.kinds.value
  }

  /** The rows selected before the update loop: unresolved, and of the run's tenant if it has one. */
  predicate Selected(row: SignalRow, o: Observation) {
    !row.status.Resolved? && (o.binding.tenant == "" || row.binding.tenant == o.binding.tenant)
  }

  function Seen(ss: seq<Sighting>): set<string> {
    set s | s in ss && s.fingerprint != "" :: s.fingerprint
  }

  /** What a sighting writes into its row. */
  function Sight(prior: Option<SignalRow>, s: Sighting, o: Observation): SignalRow {
    var occurrences := if prior.Some? then prior.value.occurrences + 1 else 1;
    var consecutive :=
      if s.authoritative then
        (if prior.Some? && !prior.value.status.Resolved? then prior.value.consecutive + 1 else 1)
      else
        (if prior.Some? then prior.value.consecutive else 0);
    var status :=
      if s.authoritative then
        (if Severe(s.severity) || consecutive >= 2 then Persistent else Watching)
      else
        (if prior.Some? then prior.value.status else Watching);
    SignalRow(s.kind, s.severity, s.title, s.notes, status, occurrences, consecutive,
              if prior.Some? then prior.value.firstRun else o.runId, o.runId,
              if prior.Some? then prior.value.firstSeenAt else o.now, o.now, None, o.binding)
  }

  function Resolve(row: SignalRow, now: int): SignalRow {
    row.(status := Resolved, consecutive := 0, resolvedAt := Some(now))
  }

  /** The body of the update loop for one item. */
  function AfterSighting(rows: SignalTable, s: Sighting, o: Observation): SignalTable {
    if s.fingerprint == "" || (s.fingerprint in rows && rows[s.fingerprint].lastRun == o.runId) then rows
    else rows[s.fingerprint := Sight(Lookup(rows, s.fingerprint), s, o)]
  }

  function AfterSightings(rows: SignalTable, ss: seq<Sighting>, o: Observation): SignalTable {
    if ss == [] then rows
    else AfterSighting(AfterSightings(rows, ss[..|ss| - 1], o), ss[|ss| - 1], o)
  }

  /** The fingerprints the resolution loop closes, chosen from the rows as they were at the start. */
  function Missed(before: SignalTable, o: Observation): set<string> {
    if o.authoritative then
      set f | f in before && Selected(before[f], o) && f !in Seen(o.sightings) && Covers(o, before[f].kind)
    else {}
  }

  function Correlated(before: SignalTable, o: Observation): SignalTable {
    var sighted := AfterSightings(before, o.sightings, o);
    map f | f in sighted :: if f in Missed(before, o) then Resolve(sighted[f], o.now) else sighted[f]
  }

  /** The run's first sighting of a fingerprint: later duplicates are skipped by the last-run check. */
  function First(ss: seq<Sighting>, f: string): Option<Sighting> {
    if ss == [] || f == "" then None
    else if ss[0].fingerprint == f then Some(ss[0])
    else First(ss[1..], f)
  }

  /** What one run does to one fingerprint. */
  function RowAfter(prior: Option<SignalRow>, first: Option<Sighting>, o: Observation): Option<SignalRow> {
    match first
    case Some(s) =>
      if prior.Some? && prior.value.lastRun == o.runId then prior else Some(Sight(prior, s, o))
    case None =>
      if prior.Some? && o.authoritative && Selected(prior.value, o) && Covers(o, prior.value.kind)
      then Some(Resolve(prior.value, o.now))
      else prior
  }

  lemma {:induction false} FirstSeen(ss: seq<Sighting>, f: string)
    ensures First(ss, f).Some? <==> f in Seen(ss)
    ensures First(ss, f).Some? ==> First(ss, f).value in ss && First(ss, f).value.fingerprint == f
  {
    if ss != [] && f != "" {
      FirstSeen(ss[1..], f);
      assert ss == [ss[0]] + ss[1..];
    }
  }

  lemma {:induction false} FirstSnoc(ss: seq<Sighting>, s: Sighting, f: string)
    ensures First(ss + [s], f)
         == if First(ss, f).Some? then First(ss, f)
            else if f != "" && s.fingerprint == f then Some(s) else None
  {
    if ss == [] {
      assert ss + [s] == [s];
    } else {
      assert (ss + [s])[1..] == ss[1..] + [s];
      FirstSnoc(ss[1..], s, f);
    }
  }

  lemma {:induction false} SightingsPointwise(rows: SignalTable, ss: seq<Sighting>, o: Observation, f: string)
    ensures Lookup(AfterSightings(rows, ss, o), f)
         == match First(ss, f)
            case None => Lookup(rows, f)
            case Some(_) => RowAfter(Lookup(rows, f), First(ss, f), o)
  {
    if ss != [] {
      var front, last := ss[..|ss| - 1], ss[|ss| - 1];
      SightingsPointwise(rows, front, o, f);
      assert ss == front + [last];
      FirstSnoc(front, last, f);
    }
  }

  /** The whole-table update is the single-fingerprint update at every fingerprint. */
  lemma CorrelationIsPointwise(rows: SignalTable, o: Observation, f: string)
    ensures Lookup(Correlated(rows, o), f) == RowAfter(Lookup(rows, f), First(o.sightings, f), o)
  {
    SightingsPointwise(rows, o.sightings, o, f);
    FirstSeen(o.sightings, f);
  }

  /** Correlating the same run again, at any later moment, changes nothing. */
  lemma CorrelationIsIdempotent(rows: SignalTable, o: Observation, later: int)
    ensures Correlated(Correlated(rows, o), o.(now := later)) == Correlated(rows, o)
  {
    var once := Correlated(rows, o);
    var again := o.(now := later);
    forall f
      ensures Lookup(Correlated(once, again), f) == Lookup(once, f)
    {
      CorrelationIsPointwise(rows, o, f);
      CorrelationIsPointwise(once, again, f);
    }
    SameLookups(Correlated(once, again), once);
  }

  predicate DistinctFingerprints(ss: seq<Sighting>) {
    forall i, j :: 0 <= i < j < |ss| ==> ss[i].fingerprint != ss[j].fingerprint
  }

  lemma {:induction false} FirstOfDistinct(ss: seq<Sighting>, s: Sighting)
    requires DistinctFingerprints(ss) && s in ss && s.fingerprint != ""
    ensures First(ss, s.fingerprint) == Some(s)
  {
    if ss[0] != s {
      FirstOfDistinct(ss[1..], s);
    }
  }

  /** The order in which a run lists its distinct signals does not matter. */
  lemma CorrelationIsOrderFree(rows: SignalTable, o: Observation, ss: seq<Sighting>)
    requires DistinctFingerprints(o.sightings) && DistinctFingerprints(ss)
    requires multiset(ss) == multiset(o.sightings)
    ensures Correlated(rows, o.(sightings := ss)) == Correlated(rows, o)
  {
    var p := o.(sightings := ss);
    forall f
      ensures Lookup(Correlated(rows, p), f) == Lookup(Correlated(rows, o), f)
    {
      CorrelationIsPointwise(rows, o, f);
      CorrelationIsPointwise(rows, p, f);
      FirstSeen(ss, f);
      FirstSeen(o.sightings, f);
      forall s: Sighting
        ensures s in ss <==> s in o.sightings
      {
        assert s in ss <==> s in multiset(ss);
      }
      if First(ss, f).Some? {
        FirstOfDistinct(o.sightings, First(ss, f).value);
      }
    }
    SameLookups(Correlated(rows, p), Correlated(rows, o));
  }

  /**
   Exactly which signals a run closes. In particular a partial read closes nothing, and a run that
   does not cover a kind closes no signal of that kind.
   */
  lemma ResolvedExactlyWhenMissed(rows: SignalTable, o: Observation, f: string)
    ensures f in rows ==> f in Correlated(rows, o)
    ensures (f in Correlated(rows, o) && Correlated(rows, o)[f].status.Resolved?
             && !(f in rows && rows[f].status.Resolved?))
       <==> (o.authoritative && f in rows && Selected(rows[f], o) && First(o.sightings, f).None?
             && Covers(o, rows[f].kind))
  {
    CorrelationIsPointwise(rows, o, f);
  }

  /** What every row of a table built by correlation satisfies. */
  predicate RowSound(row: SignalRow) {
    && (row.status.Resolved? ==> row.consecutive == 0)
    && (row.status.Watching? ==> row.consecutive <= 1)
    && (row.status.Persistent? ==> row.consecutive >= 1)
    && row.consecutive <= row.occurrences
    && (row.resolvedAt.Some? ==> row.status.Resolved?)
  }

  ghost predicate TableSound(rows: SignalTable) {
    forall f :: f in rows ==> RowSound(rows[f])
  }

  lemma CorrelationKeepsRowsSound(rows: SignalTable, o: Observation)
    requires TableSound(rows)
    ensures TableSound(Correlated(rows, o))
  {
    forall f | f in Correlated(rows, o)
      ensures RowSound(Correlated(rows, o)[f])
    {
      CorrelationIsPointwise(rows, o, f);
    }
  }

  /** A list that names every member of a set once, in some order. */
  ghost predicate Enumerates(order: seq<string>, fs: set<string>) {
    Distinct(order) && forall f :: f in order <==> f in fs
  }

  /** The signal table, updated in place. */
  class SignalStore {
    var rows: SignalTable

    constructor ()
      ensures rows == map[]
    {
      rows := map[];
    }

    /**
     Correlates one run and returns the fingerprints it saw. The source lists them by iterating
     over a set, so their order is not determined.
     */
    method CorrelateSignals(o: Observation) returns (correlated: seq<string>)
      modifies this
      ensures rows == Correlated(old(rows), o)
      ensures Enumerates(correlated, Seen(o.sightings))
      ensures forall f :: f in correlated ==> f in rows
    {
      var activeRows := map f | f in rows && Selected(rows[f], o) :: rows[f];
      RecordSightings(o);
      if o.authoritative {
        forall f | f in activeRows
          ensures f in rows
        {
          SightingsPointwise(old(rows), o.sightings, o, f);
          FirstSeen(o.sightings, f);
        }
        CloseMissed(o, activeRows);
      }
      assert rows == Correlated(old(rows), o);
      correlated := ListOf(set s | s in o.sightings && s.fingerprint != "" :: s.fingerprint);
      forall f | f in correlated
        ensures f in rows
      {
        CorrelationIsPointwise(old(rows), o, f);
        FirstSeen(o.sightings, f);
      }
    }

    /** The first loop: one insert or update for each reported signal. */
    method RecordSightings(o: Observation)
      modifies this
      ensures rows == AfterSightings(old(rows), o.sightings, o)
    {
      var i := 0;
      while i < |o.sightings|
        invariant 0 <= i <= |o.sightings|
        invariant rows == AfterSightings(old(rows), o.sightings[..i], o)
      {
        var s := o.sightings[i];
        assert o.sightings[..i + 1][..i] == o.sightings[..i];
        if s.fingerprint != "" && !(s.fingerprint in rows && rows[s.fingerprint].lastRun == o.runId) {
          rows := rows[s.fingerprint := Sight(Lookup(rows, s.fingerprint), s, o)];
        }
        i := i + 1;
      }
      assert o.sightings[..i] == o.sightings;
    }

    /** The second loop: over the rows that were open, as they read before the first loop. */
    method CloseMissed(o: Observation, activeRows: SignalTable)
      requires activeRows.Keys <= rows.Keys
      modifies this
      ensures rows.Keys == old(rows).Keys
      ensures forall f :: f in rows ==>
                rows[f] == if f in activeRows && f !in Seen(o.sightings) && Covers(o, activeRows[f].kind)
                           then Resolve(old(rows)[f], o.now) else old(rows)[f]
    {
      var seen := Seen(o.sightings);
      var pending := activeRows.Keys;
      while pending != {}
        invariant pending <= activeRows.Keys
        invariant rows.Keys == old(rows).Keys
        invariant forall f :: f in rows ==>
                    rows[f] == if f in activeRows && f !in pending && f !in seen && Covers(o, activeRows[f].kind)
                               then Resolve(old(rows)[f], o.now) else old(rows)[f]
        decreases pending
      {
        var f :| f in pending;
        if f !in seen && Covers(o, activeRows[f].kind) {
          rows := rows[f := Resolve(rows[f], o.now)];
        }
        pending := pending - {f};
      }
    }
  }

  method ListOf(fs: set<string>) returns (order: seq<string>)
    ensures Enumerates(order, fs)
  {
    order := [];
    var rest := fs;
    while rest != {}
      invariant rest <= fs
      invariant Enumerates(order, fs - rest)
      decreases rest
    {
      var f :| f in rest;
      order := order + [f];
      rest := rest - {f};
    }
  }
}
