/**
 Draining a backlog: persistent signals that no package covers yet, re-observed by run after run, are
 packaged twelve at a time, the best ones first.
 */
module BacklogDrain {
  import opened Common
  import opened Sorting
  import opened Signals
  import opened Packages
  import opened Response

  /** The signals of a set that no open package of the tenant covers. */
  function Backlog(d: Desk, fs: set<string>, tenant: string): set<string> {
    fs - Covered(d.packages, tenant)
  }

  /** What the run may package, as `process` sees it. */
  function EligibleIn(d: Desk, step: DeskStep, tenant: string): seq<Candidate>
    requires step.Process?
  {
    EligibleFrom(step.order, Correlated(d.rows, step.o), Covered(Expire(d.packages, step.o.now), tenant),
                 step.o.sightings)
  }

  /**
   A run of the tenant that sees all of these signals, with authority, and is new to them. It may see
   others, as long as none of them competes for the package.
   */
  ghost predicate Reobserves(d: Desk, step: DeskStep, fs: set<string>, tenant: string) {
    && step.Process? && step.source.Some? && step.source.value.tenant == tenant
    && fs <= Seen(step.o.sightings) && Enumerates(step.order, Seen(step.o.sightings))
    && (forall s :: s in step.o.sightings && s.fingerprint in fs ==> s.authoritative)
    && (forall f :: f in fs && f in d.rows ==> d.rows[f].lastRun != step.o.runId)
    && (forall c :: c in EligibleIn(d, step, tenant) ==> c.fingerprint in fs)
  }

  ghost predicate AllPersistent(rows: SignalTable, fs: set<string>) {
    forall f :: f in fs ==> f in rows && rows[f].status.Persistent? && rows[f].consecutive >= 1
  }

  ghost predicate NothingExpiresBy(ps: seq<Package>, now: int) {
    forall p :: p in ps && p.status.Review? ==> p.expiresAt > now
  }

  lemma ReobservedStayPersistent(d: Desk, step: DeskStep, fs: set<string>, tenant: string)
    requires AllPersistent(d.rows, fs) && Reobserves(d, step, fs, tenant)
    ensures AllPersistent(Correlated(d.rows, step.o), fs)
  {
    forall f | f in fs
      ensures f in Correlated(d.rows, step.o)
      ensures Correlated(d.rows, step.o)[f].status.Persistent? && Correlated(d.rows, step.o)[f].consecutive >= 1
    {
      CorrelationIsPointwise(d.rows, step.o, f);
      FirstSeen(step.o.sightings, f);
    }
  }

  lemma NothingExpired(ps: seq<Package>, now: int)
    requires NothingExpiresBy(ps, now)
    ensures Expire(ps, now) == ps
  {
    assert forall i :: 0 <= i < |ps| ==> ps[i] in ps;
  }

  /** The candidates of a re-observing run are exactly its backlog. */
  lemma EligibleIsBacklog(d: Desk, step: DeskStep, fs: set<string>, tenant: string)
    requires Reobserves(d, step, fs, tenant) && AllPersistent(d.rows, fs)
    requires NothingExpiresBy(d.packages, step.o.now)
    ensures var eligible := EligibleIn(d, step, tenant);
            && Distinct(eligible)
            && Fingerprints(eligible) == Backlog(d, fs, tenant)
            && (forall c :: c in eligible ==> OfRow(c, Correlated(d.rows, step.o)))
  {
    var rows := Correlated(d.rows, step.o);
    var ss := step.o.sightings;
    var eligible := EligibleIn(d, step, tenant);
    NothingExpired(d.packages, step.o.now);
    ReobservedStayPersistent(d, step, fs, tenant);
    EligibleListed(step.order, rows, Covered(d.packages, tenant), ss);
    forall f
      ensures f in Fingerprints(eligible) <==> f in Backlog(d, fs, tenant)
    {
      if f in Backlog(d, fs, tenant) {
        AllConfirmed(ss, f);
        assert Candidate(f, rows[f]) in eligible;
      }
    }
  }

  predicate OfRow(c: Candidate, rows: SignalTable) {
    c.fingerprint in rows && c.row == rows[c.fingerprint]
  }

  /**
   Between two desks, no signal of the set that is still uncovered outranks one that was covered:
   severity first, then streak, then title, as the rows read after the run.
   */
  ghost predicate TakesTheBest(before: Desk, after: Desk, fs: set<string>, tenant: string) {
    forall f, g :: f in Backlog(before, fs, tenant) - Backlog(after, fs, tenant) && g in Backlog(after, fs, tenant) ==>
      RankedBefore(after.rows, f, g)
  }

  predicate RankedBefore(rows: SignalTable, f: string, g: string) {
    f in rows && g in rows && NotBehind(rows[f], rows[g])
  }

  /** Twelve of the candidates, or all, are chosen: the best, and as many signals. */
  lemma ChosenOfRows(eligible: seq<Candidate>, rows: SignalTable)
    requires Distinct(eligible) && forall c :: c in eligible ==> OfRow(c, rows)
    ensures var chosen := Fingerprints(Chosen(eligible));
            && |Fingerprints(eligible)| == |eligible| && |chosen| == Min(PACKAGE_LIMIT, |eligible|)
            && chosen <= Fingerprints(eligible)
            && forall f, g :: f in chosen && g in Fingerprints(eligible) - chosen ==> RankedBefore(rows, f, g)
  {
    ChosenAreTheBest(eligible);
    DistinctCardinality(eligible);
    DistinctCardinality(Chosen(eligible));
  }

  lemma BacklogShrinks(d: Desk, step: DeskStep, fs: set<string>, tenant: string, chosen: seq<Candidate>)
    requires step.Process? && step.source.Some? && step.source.value.tenant == tenant
    requires Expire(d.packages, step.o.now) == d.packages
    requires chosen == ChosenBy(d, step.o, step.order, step.source)
    ensures Backlog(DeskNext(d, step), fs, tenant) == Backlog(d, fs, tenant) - Fingerprints(chosen)
    ensures forall p :: p in DeskNext(d, step).packages ==>
              p in d.packages || p.expiresAt == step.o.now + PACKAGE_LIFETIME
  {
    if chosen == [] {
      assert DeskNext(d, step).packages == d.packages;
    } else {
      CoverageGrows(d.packages, NewPackage(step.o, step.source, chosen), tenant);
    }
  }

  /** One such run covers the twelve best of its backlog, or all of it. */
  lemma DrainOnce(d: Desk, step: DeskStep, fs: set<string>, tenant: string)
    requires Reobserves(d, step, fs, tenant) && AllPersistent(d.rows, fs)
    requires NothingExpiresBy(d.packages, step.o.now)
    ensures var before, after := Backlog(d, fs, tenant), Backlog(DeskNext(d, step), fs, tenant);
            after <= before && |after| == |before| - Min(PACKAGE_LIMIT, |before|)
    ensures TakesTheBest(d, DeskNext(d, step), fs, tenant)
    ensures forall p :: p in DeskNext(d, step).packages ==>
              p in d.packages || p.expiresAt == step.o.now + PACKAGE_LIFETIME
  {
    var eligible := EligibleIn(d, step, tenant);
    var chosen := Chosen(eligible);
    NothingExpired(d.packages, step.o.now);
    EligibleIsBacklog(d, step, fs, tenant);
    ChosenOfRows(eligible, Correlated(d.rows, step.o));
    assert chosen == ChosenBy(d, step.o, step.order, step.source);
    BacklogShrinks(d, step, fs, tenant, chosen);
    assert |Backlog(d, fs, tenant) - Fingerprints(chosen)| == |Backlog(d, fs, tenant)| - |Fingerprints(chosen)|;
  }

  /** Packages made within the period outlive it. */
  lemma NewPackagesLast(d: Desk, step: DeskStep, from: int)
    requires NothingExpiresBy(d.packages, from + PACKAGE_LIFETIME - 1) && step.Process? && from <= step.o.now
    requires forall p :: p in DeskNext(d, step).packages ==>
               p in d.packages || p.expiresAt == step.o.now + PACKAGE_LIFETIME
    ensures NothingExpiresBy(DeskNext(d, step).packages, from + PACKAGE_LIFETIME - 1)
  {
  }

  /** What k runs leave of n, taken twelve at a time. */
  function Remaining(n: nat, k: nat): nat {
    n - Min(PACKAGE_LIMIT * k, n)
  }

  lemma TwelveMore(n: nat, k: nat)
    ensures Remaining(n, 0) == n && Remaining(Remaining(n, 1), k) == Remaining(n, k + 1)
  {
  }

  /** A schedule of such runs, all within one package lifetime. */
  ghost predicate Campaign(d: Desk, steps: seq<DeskStep>, fs: set<string>, tenant: string, from: int)
    decreases |steps|
  {
    steps == []
    || (&& Reobserves(d, steps[0], fs, tenant)
        && from <= steps[0].o.now < from + PACKAGE_LIFETIME
        && Campaign(DeskNext(d, steps[0]), steps[1..], fs, tenant, from))
  }

  lemma EmptyBacklogIsCovered(d: Desk, fs: set<string>, tenant: string)
    ensures |Backlog(d, fs, tenant)| == 0 ==> fs <= Covered(d.packages, tenant)
  {
    if |Backlog(d, fs, tenant)| == 0 {
      forall f | f in fs
        ensures f in Covered(d.packages, tenant)
      {
        assert f !in Backlog(d, fs, tenant);
      }
    }
  }

  ghost predicate EachTakesTheBest(d: Desk, steps: seq<DeskStep>, fs: set<string>, tenant: string) {
    forall i :: 0 <= i < |steps| ==> StepTakesTheBest(d, steps, i, fs, tenant)
  }

  ghost predicate StepTakesTheBest(d: Desk, steps: seq<DeskStep>, i: nat, fs: set<string>, tenant: string)
    requires i < |steps|
  {
    TakesTheBest(DeskAfter(d, steps[..i]), DeskAfter(d, steps[..i + 1]), fs, tenant)
  }

  lemma BestFirstContinues(d: Desk, steps: seq<DeskStep>, fs: set<string>, tenant: string)
    requires steps != [] && TakesTheBest(d, DeskNext(d, steps[0]), fs, tenant)
    requires EachTakesTheBest(DeskNext(d, steps[0]), steps[1..], fs, tenant)
    ensures EachTakesTheBest(d, steps, fs, tenant)
  {
    forall i | 0 <= i < |steps|
      ensures StepTakesTheBest(d, steps, i, fs, tenant)
    {
      DeskPrefix(d, steps, i + 1);
      if i == 0 {
        assert steps[..0] == [];
      } else {
        DeskPrefix(d, steps, i);
        assert StepTakesTheBest(DeskNext(d, steps[0]), steps[1..], i - 1, fs, tenant);
      }
    }
  }

  lemma DeskPrefix(d: Desk, steps: seq<DeskStep>, i: nat)
    requires 0 < i <= |steps|
    ensures DeskAfter(d, steps[..i]) == DeskAfter(DeskNext(d, steps[0]), steps[1..][..i - 1])
  {
    assert steps[..i][1..] == steps[1..][..i - 1] && steps[..i][0] == steps[0];
  }

  /** Every signal of the set is persistent, no open package expires during the schedule, and it re-observes them. */
  ghost predicate Draining(d: Desk, steps: seq<DeskStep>, fs: set<string>, tenant: string, from: int) {
    && AllPersistent(d.rows, fs) && Campaign(d, steps, fs, tenant, from)
    && NothingExpiresBy(d.packages, from + PACKAGE_LIFETIME - 1)
  }

  lemma DrainingContinues(d: Desk, steps: seq<DeskStep>, fs: set<string>, tenant: string, from: int)
    requires Draining(d, steps, fs, tenant, from) && steps != []
    ensures var next, n := DeskNext(d, steps[0]), |Backlog(d, fs, tenant)|;
            && Draining(next, steps[1..], fs, tenant, from)
            && |Backlog(next, fs, tenant)| == Remaining(n, 1)
            && TakesTheBest(d, next, fs, tenant)
  {
    DrainOnce(d, steps[0], fs, tenant);
    ReobservedStayPersistent(d, steps[0], fs, tenant);
    NewPackagesLast(d, steps[0], from);
  }

  lemma {:induction false} BacklogCounts(d: Desk, steps: seq<DeskStep>, fs: set<string>, tenant: string, from: int)
    requires Draining(d, steps, fs, tenant, from)
    ensures |Backlog(DeskAfter(d, steps), fs, tenant)| == Remaining(|Backlog(d, fs, tenant)|, |steps|)
    decreases |steps|
  {
    var n := |Backlog(d, fs, tenant)|;
    if steps == [] {
      TwelveMore(n, 0);
    } else {
      var rest := steps[1..];
      DrainingContinues(d, steps, fs, tenant, from);
      BacklogCounts(DeskNext(d, steps[0]), rest, fs, tenant, from);
      TwelveMore(n, |rest|);
      assert |steps| == |rest| + 1;
    }
  }

  lemma {:induction false} BestFirst(d: Desk, steps: seq<DeskStep>, fs: set<string>, tenant: string, from: int)
    requires Draining(d, steps, fs, tenant, from)
    ensures EachTakesTheBest(d, steps, fs, tenant)
    decreases |steps|
  {
    if steps != [] {
      DrainingContinues(d, steps, fs, tenant, from);
      BestFirst(DeskNext(d, steps[0]), steps[1..], fs, tenant, from);
      BestFirstContinues(d, steps, fs, tenant);
    }
  }

  /**
   Runs that keep re-observing the same persistent signals, in a week in which no package expires,
   package twelve more of them each time, each time the best of those left, until an open package
   covers every one.
   */
  lemma BacklogDrains(d: Desk, steps: seq<DeskStep>, fs: set<string>, tenant: string, from: int)
    requires Draining(d, steps, fs, tenant, from)
    ensures var n := |Backlog(d, fs, tenant)|;
            && |Backlog(DeskAfter(d, steps), fs, tenant)| == n - Min(PACKAGE_LIMIT * |steps|, n)
            && (n <= PACKAGE_LIMIT * |steps| ==> fs <= Covered(DeskAfter(d, steps).packages, tenant))
    ensures EachTakesTheBest(d, steps, fs, tenant)
  {
    BacklogCounts(d, steps, fs, tenant, from);
    BestFirst(d, steps, fs, tenant, from);
    EmptyBacklogIsCovered(DeskAfter(d, steps), fs, tenant);
  }
}
