/**
 The stored signal rows against a definition over the whole history of runs. Nothing below the
 heading "By history" mentions the incremental update: it speaks of which runs saw the signal and
 which runs should have seen it and did not.
 */
module SignalHistory {
  import opened Common
  import opened Signals

  type History = seq<Observation>

  /** The table after every run of the history, starting from an empty store. */
  function Table(h: History): SignalTable {
    if h == [] then map[] else Correlated(Table(h[..|h| - 1]), h[|h| - 1])
  }

  ghost predicate DistinctRuns(h: History) {
    forall i, j :: 0 <= i < j < |h| ==> h[i].runId != h[j].runId
  }

  // By history.

  predicate Sees(o: Observation, f: string) {
    First(o.sightings, f).Some?
  }

  predicate SeesForSure(o: Observation, f: string) {
    Sees(o, f) && First(o.sightings, f).value.authoritative
  }

  /** Run k is the last before position i that saw the signal. */
  ghost predicate LastSeen(h: History, f: string, i: nat, k: nat) {
    k < i <= |h| && Sees(h[k], f) && forall m :: k < m < i ==> !Sees(h[m], f)
  }

  ghost predicate FirstSeenIn(h: History, f: string, k: nat) {
    k < |h| && Sees(h[k], f) && forall m :: 0 <= m < k ==> !Sees(h[m], f)
  }

  /**
   Run i is a gap: it read everything, covers the signal's kind, is of the signal's tenant (or of
   none), and did not see it. Kind and tenant are those of the last sighting.
   */
  ghost predicate Gap(h: History, f: string, i: nat) {
    && i < |h| && h[i].authoritative && !Sees(h[i], f)
    && exists k: nat ::
         && LastSeen(h, f, i, k)
         && Covers(h[i], First(h[k].sightings, f).value.kind)
         && (h[i].binding.tenant == "" || h[k].binding.tenant == h[i].binding.tenant)
  }

  ghost function SightingRuns(h: History, f: string): set<nat> {
    set j: nat | j < |h| && Sees(h[j], f)
  }

  /** The authoritative sightings with no gap after them. */
  ghost function Streak(h: History, f: string): set<nat> {
    set j: nat | j < |h| && SeesForSure(h[j], f) && forall i: nat :: j < i < |h| ==> !Gap(h, f, i)
  }

  /** A gap with no authoritative sighting since. */
  ghost predicate Closed(h: History, f: string) {
    exists g: nat :: ClosedAt(h, f, g)
  }

  /** A gap at g with no authoritative sighting since. */
  ghost predicate ClosedAt(h: History, f: string, g: nat) {
    Gap(h, f, g) && forall j :: g < j < |h| ==> !SeesForSure(h[j], f)
  }

  /** Run a is the last that saw the signal authoritatively. */
  ghost predicate LastForSure(h: History, f: string, a: nat) {
    a < |h| && SeesForSure(h[a], f) && forall j :: a < j < |h| ==> !SeesForSure(h[j], f)
  }

  /** The last authoritative sighting was severe, or the signal has repeated. */
  ghost predicate Warranted(h: History, f: string) {
    exists a: nat ::
      LastForSure(h, f, a)
      && (Severe(First(h[a].sightings, f).value.severity) || |Streak(h, f)| >= 2)
  }

  /** The counters and the status of the row are those of the history. */
  ghost predicate StandingReflects(row: SignalRow, h: History, f: string) {
    && row.occurrences == |SightingRuns(h, f)|
    && row.consecutive == |Streak(h, f)|
    && (row.status.Resolved? <==> Closed(h, f))
    && (row.status.Persistent? <==> !Closed(h, f) && Warranted(h, f))
  }

  /** The description and owner of the row are those of the last sighting. */
  ghost predicate LatestReflects(row: SignalRow, h: History, f: string) {
    exists k: nat ::
      && LastSeen(h, f, |h|, k)
      && row.lastRun == h[k].runId && row.lastSeenAt == h[k].now && row.binding == h[k].binding
      && var s := First(h[k].sightings, f).value;
         row.kind == s.kind && row.severity == s.severity && row.title == s.title && row.notes == s.notes
  }

  ghost predicate OriginReflects(row: SignalRow, h: History, f: string) {
    exists k: nat ::
      FirstSeenIn(h, f, k) && row.firstRun == h[k].runId && row.firstSeenAt == h[k].now
  }

  ghost predicate FirstGapAfter(h: History, f: string, k: nat, g: nat) {
    k < g < |h| && Gap(h, f, g) && forall i: nat :: k < i < g ==> !Gap(h, f, i)
  }

  /**
   The resolution time is that of the first gap after the last sighting k, if there is one. It is lost
   when run k saw a signal that was closed and stayed so: nothing sets it again.
   */
  ghost predicate ClosingReflectsAt(row: SignalRow, h: History, f: string, k: nat) {
    && LastSeen(h, f, |h|, k)
    && match row.resolvedAt
       case Some(t) => !Closed(h[..k + 1], f) && exists g: nat :: FirstGapAfter(h, f, k, g) && t == h[g].now
       case None => Closed(h[..k + 1], f) || forall g: nat :: k < g < |h| ==> !Gap(h, f, g)
  }

  ghost predicate ClosingReflects(row: SignalRow, h: History, f: string) {
    exists k: nat :: ClosingReflectsAt(row, h, f, k)
  }

  /** The row says of the signal what the history says, in every column. */
  ghost predicate Reflects(row: SignalRow, h: History, f: string) {
    StandingReflects(row, h, f) && LatestReflects(row, h, f) && OriginReflects(row, h, f) && ClosingReflects(row, h, f)
  }

  // How the definitions move when one run is added.

  lemma LastSeenPrefix(h: History, o: Observation, f: string, i: nat, k: nat)
    requires i <= |h|
    ensures LastSeen(h + [o], f, i, k) <==> LastSeen(h, f, i, k)
  {
    assert forall m :: 0 <= m < |h| ==> (h + [o])[m] == h[m];
  }

  lemma GapPrefix(h: History, o: Observation, f: string, i: nat)
    requires i < |h|
    ensures Gap(h + [o], f, i) <==> Gap(h, f, i)
  {
    forall k: nat
      ensures LastSeen(h + [o], f, i, k) <==> LastSeen(h, f, i, k)
    {
      LastSeenPrefix(h, o, f, i, k);
    }
    assert (h + [o])[i] == h[i];
    if Gap(h, f, i) {
      var k: nat :| LastSeen(h, f, i, k) && Covers(h[i], First(h[k].sightings, f).value.kind)
        && (h[i].binding.tenant == "" || h[k].binding.tenant == h[i].binding.tenant);
      assert (h + [o])[k] == h[k];
      assert LastSeen(h + [o], f, i, k);
    }
    if Gap(h + [o], f, i) {
      var k: nat :| LastSeen(h + [o], f, i, k)
        && Covers((h + [o])[i], First((h + [o])[k].sightings, f).value.kind)
        && ((h + [o])[i].binding.tenant == "" || (h + [o])[k].binding.tenant == (h + [o])[i].binding.tenant);
      assert (h + [o])[k] == h[k];
      assert LastSeen(h, f, i, k);
    }
  }

  lemma SightingRunsGrow(h: History, o: Observation, f: string)
    ensures |SightingRuns(h + [o], f)| == |SightingRuns(h, f)| + if Sees(o, f) then 1 else 0
  {
    assert forall m :: 0 <= m < |h| ==> (h + [o])[m] == h[m];
    assert SightingRuns(h + [o], f) == SightingRuns(h, f) + if Sees(o, f) then {|h|} else {};
  }

  lemma StreakGrows(h: History, o: Observation, f: string)
    ensures |Streak(h + [o], f)|
         == if Gap(h + [o], f, |h|) then 0 else |Streak(h, f)| + if SeesForSure(o, f) then 1 else 0
  {
    var h' := h + [o];
    assert forall m :: 0 <= m < |h| ==> h'[m] == h[m];
    forall i: nat | i < |h|
      ensures Gap(h', f, i) <==> Gap(h, f, i)
    {
      GapPrefix(h, o, f, i);
    }
    if Gap(h', f, |h|) {
      assert Streak(h', f) == {};
    } else {
      var grown := Streak(h, f) + if SeesForSure(o, f) then {|h|} else {};
      forall j: nat
        ensures j in Streak(h', f) <==> j in grown
      {
        if j < |h| {
          assert (forall i: nat :: j < i < |h'| ==> !Gap(h', f, i))
            <==> (forall i: nat :: j < i < |h| ==> !Gap(h, f, i));
        }
      }
      assert Streak(h', f) == grown;
    }
  }

  lemma ClosedAtGrows(h: History, o: Observation, f: string, g: nat)
    requires g < |h|
    ensures ClosedAt(h + [o], f, g) <==> ClosedAt(h, f, g) && !SeesForSure(o, f)
  {
    var h' := h + [o];
    GapPrefix(h, o, f, g);
    assert h'[|h|] == o;
    assert forall j :: 0 <= j < |h| ==> h'[j] == h[j];
  }

  lemma ClosedGrows(h: History, o: Observation, f: string)
    ensures Closed(h + [o], f) <==> Gap(h + [o], f, |h|) || (Closed(h, f) && !SeesForSure(o, f))
  {
    var h' := h + [o];
    if Closed(h', f) && !Gap(h', f, |h|) {
      var g: nat :| ClosedAt(h', f, g);
      ClosedAtGrows(h, o, f, g);
    }
    if Closed(h, f) && !SeesForSure(o, f) {
      var g: nat :| ClosedAt(h, f, g);
      ClosedAtGrows(h, o, f, g);
    }
    if Gap(h', f, |h|) {
      assert ClosedAt(h', f, |h|);
    }
  }

  /** After a gap with no sighting since, the streak is empty. */
  lemma ClosedEndsStreak(h: History, f: string)
    requires Closed(h, f)
    ensures Streak(h, f) == {}
  {
    var g: nat :| ClosedAt(h, f, g);
    assert forall j: nat :: j < |h| && SeesForSure(h[j], f) ==> j < g;
  }

  lemma LastForSureGrows(h: History, o: Observation, f: string, a: nat)
    ensures LastForSure(h + [o], f, a)
       <==> if SeesForSure(o, f) then a == |h| else LastForSure(h, f, a)
  {
    var h' := h + [o];
    assert forall m :: 0 <= m < |h| ==> h'[m] == h[m];
    assert h'[|h|] == o;
  }

  lemma WarrantedAnew(h: History, o: Observation, f: string)
    requires SeesForSure(o, f)
    ensures Warranted(h + [o], f)
       <==> Severe(First(o.sightings, f).value.severity) || |Streak(h + [o], f)| >= 2
  {
    LastForSureGrows(h, o, f, |h|);
    forall a: nat
      ensures LastForSure(h + [o], f, a) ==> a == |h|
    {
      LastForSureGrows(h, o, f, a);
    }
  }

  lemma WarrantedStays(h: History, o: Observation, f: string)
    requires !SeesForSure(o, f) && !Gap(h + [o], f, |h|)
    ensures Warranted(h + [o], f) <==> Warranted(h, f)
  {
    StreakGrows(h, o, f);
    forall a: nat
      ensures LastForSure(h + [o], f, a) <==> LastForSure(h, f, a)
    {
      LastForSureGrows(h, o, f, a);
    }
    assert forall m :: 0 <= m < |h| ==> (h + [o])[m] == h[m];
  }

  lemma SightStanding(row: SignalRow, h: History, o: Observation, f: string)
    requires StandingReflects(row, h, f) && Sees(o, f)
    ensures StandingReflects(Sight(Some(row), First(o.sightings, f).value, o), h + [o], f)
  {
    SightingRunsGrow(h, o, f);
    StreakGrows(h, o, f);
    ClosedGrows(h, o, f);
    if Closed(h, f) {
      ClosedEndsStreak(h, f);
    }
    if SeesForSure(o, f) {
      WarrantedAnew(h, o, f);
    } else {
      WarrantedStays(h, o, f);
    }
  }

  lemma NewStanding(h: History, o: Observation, f: string)
    requires Sees(o, f) && forall k :: 0 <= k < |h| ==> !Sees(h[k], f)
    ensures StandingReflects(Sight(None, First(o.sightings, f).value, o), h + [o], f)
  {
    SightingRunsGrow(h, o, f);
    StreakGrows(h, o, f);
    ClosedGrows(h, o, f);
    assert SightingRuns(h, f) == {} && Streak(h, f) == {};
    if SeesForSure(o, f) {
      WarrantedAnew(h, o, f);
    } else {
      WarrantedStays(h, o, f);
    }
  }

  lemma UnseenStanding(row: SignalRow, h: History, o: Observation, f: string)
    requires StandingReflects(row, h, f) && !Sees(o, f)
    requires Gap(h + [o], f, |h|)
        <==> o.authoritative && Covers(o, row.kind)
             && (o.binding.tenant == "" || row.binding.tenant == o.binding.tenant)
    ensures StandingReflects(RowAfter(Some(row), None, o).value, h + [o], f)
  {
    SightingRunsGrow(h, o, f);
    StreakGrows(h, o, f);
    ClosedGrows(h, o, f);
    if Closed(h, f) {
      ClosedEndsStreak(h, f);
    }
    if !Gap(h + [o], f, |h|) {
      WarrantedStays(h, o, f);
    }
  }

  /** Where the row's kind and owner come from decides whether the next run leaves a gap. */
  lemma GapFromRow(row: SignalRow, h: History, o: Observation, f: string)
    requires LatestReflects(row, h, f) && !Sees(o, f)
    ensures Gap(h + [o], f, |h|)
       <==> o.authoritative && Covers(o, row.kind)
            && (o.binding.tenant == "" || row.binding.tenant == o.binding.tenant)
    ensures LatestReflects(row, h + [o], f)
  {
    var h' := h + [o];
    assert forall m :: 0 <= m < |h| ==> h'[m] == h[m];
    assert h'[|h|] == o;
    var k: nat :| LastSeen(h, f, |h|, k)
      && row.lastRun == h[k].runId && row.lastSeenAt == h[k].now && row.binding == h[k].binding
      && var s := First(h[k].sightings, f).value;
         row.kind == s.kind && row.severity == s.severity && row.title == s.title && row.notes == s.notes;
    LastSeenPrefix(h, o, f, |h|, k);
    assert LastSeen(h', f, |h'|, k);
    assert forall m: nat :: LastSeen(h', f, |h|, m) ==> m == k;
  }

  lemma OriginStays(row: SignalRow, h: History, o: Observation, f: string)
    requires OriginReflects(row, h, f)
    ensures OriginReflects(row, h + [o], f)
  {
    assert forall m :: 0 <= m < |h| ==> (h + [o])[m] == h[m];
    var k: nat :| FirstSeenIn(h, f, k) && row.firstRun == h[k].runId && row.firstSeenAt == h[k].now;
    assert FirstSeenIn(h + [o], f, k);
  }

  lemma SightLatest(prior: Option<SignalRow>, h: History, o: Observation, f: string)
    requires Sees(o, f)
    ensures LatestReflects(Sight(prior, First(o.sightings, f).value, o), h + [o], f)
  {
    assert (h + [o])[|h|] == o;
    assert LastSeen(h + [o], f, |h + [o]|, |h|);
  }

  lemma NewOrigin(h: History, o: Observation, f: string)
    requires Sees(o, f) && forall k :: 0 <= k < |h| ==> !Sees(h[k], f)
    ensures OriginReflects(Sight(None, First(o.sightings, f).value, o), h + [o], f)
  {
    assert forall m :: 0 <= m < |h| ==> (h + [o])[m] == h[m];
    assert (h + [o])[|h|] == o;
    assert FirstSeenIn(h + [o], f, |h|);
  }

  /** A gap is decided by the runs up to it. */
  lemma {:induction false} GapInPrefix(h: History, f: string, n: nat, i: nat)
    requires i < n <= |h|
    ensures Gap(h[..n], f, i) <==> Gap(h, f, i)
    decreases |h| - n
  {
    if n < |h| {
      assert h[..n + 1] == h[..n] + [h[n]];
      GapPrefix(h[..n], h[n], f, i);
      GapInPrefix(h, f, n + 1, i);
    } else {
      assert h[..n] == h;
    }
  }

  lemma FirstGapPrefix(h: History, o: Observation, f: string, k: nat, g: nat)
    requires g < |h|
    ensures FirstGapAfter(h + [o], f, k, g) <==> FirstGapAfter(h, f, k, g)
  {
    forall i: nat | i <= g
      ensures Gap(h + [o], f, i) <==> Gap(h, f, i)
    {
      GapPrefix(h, o, f, i);
    }
  }

  lemma ClosedAtInPrefix(h: History, f: string, k: nat, g: nat)
    requires LastSeen(h, f, |h|, k) && g <= k
    ensures ClosedAt(h[..k + 1], f, g) <==> ClosedAt(h, f, g)
  {
    GapInPrefix(h, f, k + 1, g);
    assert forall j :: 0 <= j < k + 1 ==> h[..k + 1][j] == h[j];
  }

  /** With the last sighting at k, the signal is closed if it was closed then or a gap came later. */
  lemma ClosedSince(h: History, f: string, k: nat)
    requires LastSeen(h, f, |h|, k)
    ensures Closed(h, f) <==> Closed(h[..k + 1], f) || exists g: nat :: k < g < |h| && Gap(h, f, g)
  {
    if Closed(h, f) {
      var g: nat :| ClosedAt(h, f, g);
      if g <= k {
        ClosedAtInPrefix(h, f, k, g);
      }
    }
    if Closed(h[..k + 1], f) {
      var g: nat :| ClosedAt(h[..k + 1], f, g);
      ClosedAtInPrefix(h, f, k, g);
    }
    if g: nat :| k < g < |h| && Gap(h, f, g) {
      assert ClosedAt(h, f, g);
    }
  }

  lemma SightClosing(prior: Option<SignalRow>, h: History, o: Observation, f: string)
    requires Sees(o, f)
    ensures ClosingReflects(Sight(prior, First(o.sightings, f).value, o), h + [o], f)
  {
    assert (h + [o])[|h|] == o;
    assert ClosingReflectsAt(Sight(prior, First(o.sightings, f).value, o), h + [o], f, |h|);
  }

  /** A run that misses an open signal is its first gap. */
  lemma MissClosing(row: SignalRow, h: History, o: Observation, f: string, k: nat)
    requires LastSeen(h, f, |h|, k) && !Sees(o, f) && !Closed(h, f) && Gap(h + [o], f, |h|)
    ensures ClosingReflectsAt(Resolve(row, o.now), h + [o], f, k)
  {
    var h' := h + [o];
    ClosedSince(h, f, k);
    LastSeenPrefix(h, o, f, |h|, k);
    assert LastSeen(h', f, |h'|, k);
    assert h'[..k + 1] == h[..k + 1];
    forall i: nat | k < i < |h|
      ensures !Gap(h', f, i)
    {
      GapPrefix(h, o, f, i);
    }
    assert FirstGapAfter(h', f, k, |h|) && h'[|h|] == o;
  }

  /** A run that does not see the signal and changes nothing: no gap, or one of a closed signal. */
  lemma ClosingStays(row: SignalRow, h: History, o: Observation, f: string, k: nat)
    requires ClosingReflectsAt(row, h, f, k) && !Sees(o, f)
    requires Gap(h + [o], f, |h|) ==> Closed(h, f)
    ensures ClosingReflectsAt(row, h + [o], f, k)
  {
    var h' := h + [o];
    ClosedSince(h, f, k);
    LastSeenPrefix(h, o, f, |h|, k);
    assert LastSeen(h', f, |h'|, k);
    assert h'[..k + 1] == h[..k + 1];
    match row.resolvedAt
    case Some(t) =>
      var g: nat :| FirstGapAfter(h, f, k, g) && t == h[g].now;
      FirstGapPrefix(h, o, f, k, g);
      assert h'[g] == h[g];
    case None =>
      forall i: nat | i < |h|
        ensures Gap(h', f, i) <==> Gap(h, f, i)
      {
        GapPrefix(h, o, f, i);
      }
  }

  lemma UnseenClosing(row: SignalRow, h: History, o: Observation, f: string)
    requires !Sees(o, f) && (row.status.Resolved? <==> Closed(h, f))
    requires Gap(h + [o], f, |h|)
        <==> o.authoritative && Covers(o, row.kind)
             && (o.binding.tenant == "" || row.binding.tenant == o.binding.tenant)
    ensures ClosingReflects(row, h, f) ==> ClosingReflects(RowAfter(Some(row), None, o).value, h + [o], f)
  {
    if k: nat :| ClosingReflectsAt(row, h, f, k) {
      if Gap(h + [o], f, |h|) && !Closed(h, f) {
        MissClosing(row, h, o, f, k);
      } else {
        ClosingStays(row, h, o, f, k);
      }
    }
  }

  /** One more run keeps the row of a known signal in step with the history. */
  lemma KnownRowReflects(row: SignalRow, h: History, o: Observation, f: string)
    ensures Reflects(row, h, f) && row.lastRun != o.runId ==>
              Reflects(RowAfter(Some(row), First(o.sightings, f), o).value, h + [o], f)
  {
    if Reflects(row, h, f) && row.lastRun != o.runId {
      if Sees(o, f) {
        SeenRowReflects(row, h, o, f);
      } else {
        UnseenRowReflects(row, h, o, f);
      }
    }
  }

  lemma SeenRowReflects(row: SignalRow, h: History, o: Observation, f: string)
    requires Reflects(row, h, f) && Sees(o, f)
    ensures Reflects(Sight(Some(row), First(o.sightings, f).value, o), h + [o], f)
  {
    var after := Sight(Some(row), First(o.sightings, f).value, o);
    OriginStays(row, h, o, f);
    SightStanding(row, h, o, f);
    SightLatest(Some(row), h, o, f);
    SightClosing(Some(row), h, o, f);
    SameOrigin(row, after, h + [o], f);
  }

  lemma UnseenRowReflects(row: SignalRow, h: History, o: Observation, f: string)
    requires !Sees(o, f)
    ensures Reflects(row, h, f) ==> Reflects(RowAfter(Some(row), None, o).value, h + [o], f)
  {
    if !Reflects(row, h, f) {
      return;
    }
    var after := RowAfter(Some(row), None, o).value;
    OriginStays(row, h, o, f);
    GapFromRow(row, h, o, f);
    UnseenStanding(row, h, o, f);
    UnseenClosing(row, h, o, f);
    SameOrigin(row, after, h + [o], f);
    SameLatest(row, after, h + [o], f);
  }

  lemma SameOrigin(row: SignalRow, other: SignalRow, h: History, f: string)
    requires OriginReflects(row, h, f) && other.firstRun == row.firstRun && other.firstSeenAt == row.firstSeenAt
    ensures OriginReflects(other, h, f)
  {
  }

  lemma SameLatest(row: SignalRow, other: SignalRow, h: History, f: string)
    requires LatestReflects(row, h, f)
    requires other.lastRun == row.lastRun && other.lastSeenAt == row.lastSeenAt && other.binding == row.binding
    requires other.kind == row.kind && other.severity == row.severity && other.title == row.title
    requires other.notes == row.notes
    ensures LatestReflects(other, h, f)
  {
  }

  /** A row that reflects the history names a run of it as its last. */
  lemma LastRunIsOfHistory(row: SignalRow, h: History, f: string)
    requires LatestReflects(row, h, f)
    ensures exists k :: 0 <= k < |h| && Sees(h[k], f) && row.lastRun == h[k].runId
  {
    var k: nat :| LastSeen(h, f, |h|, k) && row.lastRun == h[k].runId;
  }

  /** The row of a signal no earlier run saw. */
  lemma NewRowReflects(h: History, o: Observation, f: string)
    requires Sees(o, f) && forall k :: 0 <= k < |h| ==> !Sees(h[k], f)
    ensures Reflects(Sight(None, First(o.sightings, f).value, o), h + [o], f)
  {
    NewStanding(h, o, f);
    SightLatest(None, h, o, f);
    NewOrigin(h, o, f);
    SightClosing(None, h, o, f);
  }

  lemma SomeRunSees(h: History, o: Observation, f: string)
    ensures (exists k :: 0 <= k < |h + [o]| && Sees((h + [o])[k], f))
       <==> (exists k :: 0 <= k < |h| && Sees(h[k], f)) || Sees(o, f)
  {
    var h' := h + [o];
    assert h'[|h|] == o;
    assert forall k :: 0 <= k < |h| ==> h'[k] == h[k];
  }

  lemma DistinctExtends(h: History, o: Observation)
    requires DistinctRuns(h + [o])
    ensures DistinctRuns(h) && forall k :: 0 <= k < |h| ==> h[k].runId != o.runId
  {
    var h' := h + [o];
    assert h'[|h|] == o;
    assert forall k :: 0 <= k < |h| ==> h'[k] == h[k];
  }

  /** The table and the history agree about one signal. */
  ghost predicate InStep(rows: SignalTable, h: History, f: string) {
    && (f in rows <==> exists k :: 0 <= k < |h| && Sees(h[k], f))
    && (f in rows ==> Reflects(rows[f], h, f))
  }

  lemma KnownStaysInStep(rows: SignalTable, h: History, o: Observation, f: string)
    ensures InStep(rows, h, f) && f in rows && rows[f].lastRun != o.runId ==>
              InStep(Correlated(rows, o), h + [o], f)
  {
    CorrelationIsPointwise(rows, o, f);
    SomeRunSees(h, o, f);
    if f in rows {
      KnownRowReflects(rows[f], h, o, f);
    }
  }

  lemma NewStaysInStep(rows: SignalTable, h: History, o: Observation, f: string)
    requires InStep(rows, h, f) && f !in rows
    ensures InStep(Correlated(rows, o), h + [o], f)
  {
    CorrelationIsPointwise(rows, o, f);
    SomeRunSees(h, o, f);
    if Sees(o, f) {
      NewRowReflects(h, o, f);
    }
  }

  lemma StaysInStep(rows: SignalTable, h: History, o: Observation, f: string)
    requires InStep(rows, h, f) && DistinctRuns(h + [o])
    ensures InStep(Correlated(rows, o), h + [o], f)
  {
    if f in rows {
      DistinctExtends(h, o);
      LastRunIsOfHistory(rows[f], h, f);
      KnownStaysInStep(rows, h, o, f);
    } else {
      NewStaysInStep(rows, h, o, f);
    }
  }

  lemma {:induction false} AlwaysInStep(h: History, f: string)
    requires DistinctRuns(h)
    ensures InStep(Table(h), h, f)
  {
    if h != [] {
      var p, o := h[..|h| - 1], h[|h| - 1];
      assert h == p + [o];
      DistinctExtends(p, o);
      AlwaysInStep(p, f);
      StaysInStep(Table(p), p, o, f);
    }
  }

  /**
   Correlation refines history: for every sequence of distinct runs and every fingerprint, there is
   a row exactly when some run saw the signal, and then the row reflects the history.
   */
  lemma CorrelationRefinesHistory(h: History, f: string)
    requires DistinctRuns(h)
    ensures f in Table(h) <==> exists k :: 0 <= k < |h| && Sees(h[k], f)
    ensures f in Table(h) ==> Reflects(Table(h)[f], h, f)
  {
    AlwaysInStep(h, f);
  }

  /**
   Distinct runs are needed only against re-delivery: the store's guard compares with the last run
   alone, so a run delivered a second time after another one is counted twice.
   */
  lemma RedeliveredRunIsCountedTwice(a: Observation, b: Observation, f: string)
    requires a.runId != b.runId && Sees(a, f) && Sees(b, f)
    ensures f in Table([a, a]) && Table([a, a])[f].occurrences == 1
    ensures f in Table([a, b, a]) && Table([a, b, a])[f].occurrences == 3
  {
    assert [a][..0] == [] && [a, a][..1] == [a] && [a, b][..1] == [a] && [a, b, a][..2] == [a, b];
    CorrelationIsPointwise(Table([]), a, f);
    CorrelationIsPointwise(Table([a]), a, f);
    CorrelationIsPointwise(Table([a]), b, f);
    CorrelationIsPointwise(Table([a, b]), a, f);
  }
}
