/**
 Two couplings of the signal table that look natural and fail: a resolved row may carry no resolution
 time, and a persistent row may be neither severe nor repeated. Each is given with the exact histories
 that lead to it; both need a partial read.
 */
module SignalCouplings {
  import opened Common
  import opened Signals
  import opened SignalHistory

  lemma LastSeenOnce(h: History, f: string, j: nat, k: nat)
    requires LastSeen(h, f, |h|, j) && LastSeen(h, f, |h|, k)
    ensures j == k
  {
  }

  /** Closed up to and with a sighting: closed before it, and it was an untrusted one. */
  lemma ClosedThrough(h: History, f: string, k: nat)
    requires k < |h| && Sees(h[k], f)
    ensures Closed(h[..k + 1], f) <==> Closed(h[..k], f) && !SeesForSure(h[k], f)
  {
    assert h[..k + 1] == h[..k] + [h[k]];
    ClosedGrows(h[..k], h[k], f);
    assert (h[..k] + [h[k]])[k] == h[k];
  }

  lemma TimeIsLostExactly(row: SignalRow, h: History, f: string, k: nat)
    requires ClosingReflectsAt(row, h, f, k) && (row.status.Resolved? <==> Closed(h, f))
    ensures row.status.Resolved? && row.resolvedAt.None? <==> Closed(h[..k + 1], f)
  {
    ClosedSince(h, f, k);
  }

  /**
   A row is resolved without a resolution time if and only if its last sighting was an untrusted one
   of a signal that was closed by then.
   */
  lemma ResolvedWithoutTimeExactly(h: History, f: string, k: nat)
    requires DistinctRuns(h) && LastSeen(h, f, |h|, k)
    ensures f in Table(h)
    ensures Table(h)[f].status.Resolved? && Table(h)[f].resolvedAt.None?
       <==> Closed(h[..k], f) && !SeesForSure(h[k], f)
  {
    CorrelationRefinesHistory(h, f);
    var row := Table(h)[f];
    var j: nat :| ClosingReflectsAt(row, h, f, j);
    LastSeenOnce(h, f, j, k);
    TimeIsLostExactly(row, h, f, k);
    ClosedThrough(h, f, k);
  }

  /** The last authoritative sighting was severe and alone, and a later untrusted one was not severe. */
  ghost predicate Softened(h: History, f: string, a: nat, k: nat) {
    && LastForSure(h, f, a) && Severe(First(h[a].sightings, f).value.severity)
    && a < k && LastSeen(h, f, |h|, k) && !Severe(First(h[k].sightings, f).value.severity)
  }

  /** The last authoritative sighting of a signal that is not closed belongs to its streak. */
  lemma LastForSureInStreak(h: History, f: string, a: nat)
    requires LastForSure(h, f, a) && !Closed(h, f)
    ensures a in Streak(h, f)
  {
    forall i: nat | a < i < |h|
      ensures !Gap(h, f, i)
    {
      assert Gap(h, f, i) ==> ClosedAt(h, f, i);
    }
  }

  ghost predicate SoftenedSomehow(h: History, f: string) {
    exists a: nat, k: nat :: Softened(h, f, a, k)
  }

  predicate Mild(row: SignalRow) {
    row.status.Persistent? && !Severe(row.severity) && row.consecutive < 2
  }

  lemma MildIsSoftened(row: SignalRow, h: History, f: string, k: nat)
    requires StandingReflects(row, h, f) && LastSeen(h, f, |h|, k)
    requires row.severity == First(h[k].sightings, f).value.severity && Mild(row)
    ensures !Closed(h, f) && |Streak(h, f)| == 1 && SoftenedSomehow(h, f)
  {
    assert Warranted(h, f);
    var a: nat :| LastForSure(h, f, a) && Severe(First(h[a].sightings, f).value.severity);
    LastForSureInStreak(h, f, a);
    assert Softened(h, f, a, k);
  }

  lemma SoftenedIsMild(row: SignalRow, h: History, f: string, a: nat, k: nat)
    requires StandingReflects(row, h, f) && Softened(h, f, a, k) && !Closed(h, f) && |Streak(h, f)| == 1
    requires row.severity == First(h[k].sightings, f).value.severity
    ensures Mild(row)
  {
    assert Warranted(h, f);
  }

  lemma SeverityOfLast(row: SignalRow, h: History, f: string, k: nat)
    requires LatestReflects(row, h, f) && LastSeen(h, f, |h|, k)
    ensures row.severity == First(h[k].sightings, f).value.severity
  {
    var j: nat :| LastSeen(h, f, |h|, j) && row.severity == First(h[j].sightings, f).value.severity;
    LastSeenOnce(h, f, j, k);
  }

  /**
   A row is persistent though neither severe nor repeated if and only if the signal is not closed, its
   streak is a single severe sighting, and its last sighting was an untrusted one rated less.
   */
  lemma PersistentButMildExactly(h: History, f: string)
    requires DistinctRuns(h) && f in Table(h)
    ensures Mild(Table(h)[f]) <==> !Closed(h, f) && |Streak(h, f)| == 1 && SoftenedSomehow(h, f)
  {
    CorrelationRefinesHistory(h, f);
    var row := Table(h)[f];
    if Mild(row) {
      var k: nat :| LastSeen(h, f, |h|, k);
      SeverityOfLast(row, h, f, k);
      MildIsSoftened(row, h, f, k);
    }
    if !Closed(h, f) && |Streak(h, f)| == 1 && SoftenedSomehow(h, f) {
      var a: nat, k: nat :| Softened(h, f, a, k);
      SeverityOfLast(row, h, f, k);
      SoftenedIsMild(row, h, f, a, k);
    }
  }

  // Histories in which it happens.

  const TENANT := Binding("primary", "c", "t")

  function Sighted(run: string, severity: Severity, trusted: bool, now: int): Observation {
    Observation(run, TENANT, [Sighting("f", Finding, severity, "t", Notes("", "s", ""), trusted)], trusted, None, now)
  }

  function Missed(run: string, now: int): Observation {
    Observation(run, TENANT, [], true, None, now)
  }

  lemma TableOfTwo(a: Observation, b: Observation)
    ensures Lookup(Table([a, b]), "f")
         == RowAfter(RowAfter(None, First(a.sightings, "f"), a), First(b.sightings, "f"), b)
  {
    assert [a, b][..1] == [a] && [a][..0] == [];
    assert Table([a, b]) == Correlated(Table([a]), b) && Table([a]) == Correlated(Table([]), a);
    CorrelationIsPointwise(Table([]), a, "f");
    CorrelationIsPointwise(Table([a]), b, "f");
  }

  /** Seen, then missed by a full read, then seen by a partial one: resolved, and the time is gone. */
  lemma ResolutionTimeCanBeLost()
    ensures var h := [Sighted("r1", High, true, 1), Missed("r2", 2), Sighted("r3", Medium, false, 3)];
            && DistinctRuns(h) && "f" in Table(h)
            && Table(h)["f"].status.Resolved? && Table(h)["f"].resolvedAt.None?
  {
    var a, b, c := Sighted("r1", High, true, 1), Missed("r2", 2), Sighted("r3", Medium, false, 3);
    assert [a, b, c][..2] == [a, b];
    TableOfTwo(a, b);
    CorrelationIsPointwise(Table([a, b]), c, "f");
  }

  /** Severe once, then seen by a partial read that rates it lower: still persistent. */
  lemma PersistentCanBeMild()
    ensures var h := [Sighted("r1", High, true, 1), Sighted("r2", Medium, false, 2)];
            && DistinctRuns(h) && "f" in Table(h) && Table(h)["f"].status.Persistent?
            && !Severe(Table(h)["f"].severity) && Table(h)["f"].consecutive == 1
  {
    TableOfTwo(Sighted("r1", High, true, 1), Sighted("r2", Medium, false, 2));
  }
}
