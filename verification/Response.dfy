/**
 Response packaging after a completed run: `AssuranceResponseService.process`. It correlates the
 run's signals, keeps those that are persistent, not yet covered and seen authoritatively, ranks
 them, and packages at most twelve.
 */
module Response {
  import opened Common
  import opened Sorting
  import opened Signals
  import opened Packages

  /** In seconds, as all times are. */
  const PACKAGE_LIFETIME := 7 * 24 * 60 * 60
  const PACKAGE_LIMIT := 12

  datatype Candidate = Candidate(fingerprint: string, row: SignalRow)

  /** The tables one response step works on. */
  datatype Desk = Desk(rows: SignalTable, packages: seq<Package>)

  function SeverityRank(s: Severity): nat {
    match s
    case Critical => 4
    case High => 3
    case Medium => 2
    case Low => 1
  }

  /** Most severe first, then longest running, then by title. */
  predicate Outranks(c: Candidate, d: Candidate) {
    var x, y := SeverityRank(c.row.severity), SeverityRank(d.row.severity);
    x > y || (x == y && (c.row.consecutive > d.row.consecutive
                         || (c.row.consecutive == d.row.consecutive && LexLe(c.row.title, d.row.title))))
  }

  lemma OutranksIsOrder()
    ensures TotalPreorder(Outranks)
  {
    LexOrder();
  }

  function Candidates(order: seq<string>, rows: SignalTable): seq<Candidate> {
    if order == [] then []
    else CandidateOf(order[0], rows) + Candidates(order[1..], rows)
  }

  function CandidateOf(f: string, rows: SignalTable): seq<Candidate> {
    if f in rows then [Candidate(f, rows[f])] else []
  }

  /** Whether this run's own (last) report of the signal was authoritative. */
  predicate Confirmed(ss: seq<Sighting>, f: string) {
    if ss == [] then true
    else if ss[|ss| - 1].fingerprint == f then ss[|ss| - 1].authoritative
    else Confirmed(ss[..|ss| - 1], f)
  }

  predicate Eligible(c: Candidate, covered: set<string>, ss: seq<Sighting>) {
    c.row.status.Persistent? && c.fingerprint !in covered && Confirmed(ss, c.fingerprint)
  }

  function EligibleFrom(order: seq<string>, rows: SignalTable, covered: set<string>,
                        ss: seq<Sighting>): seq<Candidate> {
    Filter(c => Eligible(c, covered, ss), Candidates(order, rows))
  }

  function Chosen(eligible: seq<Candidate>): seq<Candidate> {
    var ranked := Sort(Outranks, eligible);
    ranked[..Min(PACKAGE_LIMIT, |ranked|)]
  }

  function SeverestOf(cs: seq<Candidate>): Severity
    requires cs != []
  {
    if |cs| == 1 then cs[0].row.severity
    else
      var rest := SeverestOf(cs[1..]);
      if SeverityRank(rest) > SeverityRank(cs[0].row.severity) then rest else cs[0].row.severity
  }

  function Fingerprints(cs: seq<Candidate>): set<string> {
    set c | c in cs :: c.fingerprint
  }

  /** The tenant whose open packages count as coverage. */
  function CoverTenant(source: Option<Binding>): string {
    if source.Some? then source.value.tenant else ""
  }

  /** Without a source run the package takes the tenant of its first signal. */
  function PackageTenant(source: Option<Binding>, chosen: seq<Candidate>): string
    requires chosen != []
  {
    if source.Some? then source.value.tenant
    else if chosen[0].row.binding.tenant != "" then chosen[0].row.binding.tenant
    else "workspace-primary"
  }

  function NewPackage(o: Observation, source: Option<Binding>, chosen: seq<Candidate>): Package
    requires chosen != []
  {
    Package(o.runId, SeverestOf(chosen), Review, Fingerprints(chosen), o.now + PACKAGE_LIFETIME, o.now, None,
            PackageTenant(source, chosen))
  }

  function ChosenBy(d: Desk, o: Observation, order: seq<string>, source: Option<Binding>): seq<Candidate> {
    var covered := Covered(Expire(d.packages, o.now), CoverTenant(source));
    Chosen(EligibleFrom(order, Correlated(d.rows, o), covered, o.sightings))
  }

  function Processed(d: Desk, o: Observation, order: seq<string>, source: Option<Binding>): Desk {
    var open := Expire(d.packages, o.now);
    var chosen := ChosenBy(d, o, order, source);
    Desk(Correlated(d.rows, o), if chosen == [] then open else open + [NewPackage(o, source, chosen)])
  }

  // What is chosen.

  lemma {:induction false} CandidatesListed(order: seq<string>, rows: SignalTable)
    ensures forall c :: c in Candidates(order, rows)
                   <==> c.fingerprint in order && c.fingerprint in rows && c.row == rows[c.fingerprint]
    ensures Distinct(order) ==> Distinct(Candidates(order, rows))
  {
    if order != [] {
      CandidatesListed(order[1..], rows);
      assert order == [order[0]] + order[1..];
      if Distinct(order) {
        assert forall k :: 0 <= k < |order[1..]| ==> order[1..][k] == order[k + 1];
        assert order[0] !in order[1..];
      }
    }
  }

  lemma EligibleListed(order: seq<string>, rows: SignalTable, covered: set<string>, ss: seq<Sighting>)
    ensures forall c :: c in EligibleFrom(order, rows, covered, ss)
                   <==> c.fingerprint in order && c.fingerprint in rows && c.row == rows[c.fingerprint]
                        && Eligible(c, covered, ss)
    ensures Distinct(order) ==> Distinct(EligibleFrom(order, rows, covered, ss))
  {
    CandidatesListed(order, rows);
    FilterMembers(c => Eligible(c, covered, ss), Candidates(order, rows));
    if Distinct(order) {
      FilterDistinct(c => Eligible(c, covered, ss), Candidates(order, rows));
    }
  }

  /**
   Of two rows, the first may stand before the second: it is at least as severe, on equal severity it
   has lasted at least as long, and on equal streaks its title comes no later.
   */
  predicate NotBehind(c: SignalRow, d: SignalRow) {
    && (d.severity.Critical? ==> c.severity.Critical?)
    && (d.severity.High? ==> c.severity.Critical? || c.severity.High?)
    && (d.severity.Medium? ==> !c.severity.Low?)
    && (c.severity == d.severity ==> c.consecutive >= d.consecutive)
    && (c.severity == d.severity && c.consecutive == d.consecutive ==> LexLe(c.title, d.title))
  }

  lemma OutranksMeans(c: Candidate, d: Candidate)
    ensures Outranks(c, d) <==> NotBehind(c.row, d.row)
  {
  }

  lemma FewAreAllChosen(eligible: seq<Candidate>)
    requires |eligible| <= PACKAGE_LIMIT
    ensures forall c :: c in eligible ==> c in Chosen(eligible)
  {
    SortPermutes(Outranks, eligible);
    assert Chosen(eligible) == Sort(Outranks, eligible);
  }

  /** A chosen signal is covered once the run has been processed. */
  lemma ChosenIsCovered(d: Desk, o: Observation, order: seq<string>, source: Option<Binding>, c: Candidate)
    requires c in ChosenBy(d, o, order, source)
    ensures c.fingerprint in Covered(Processed(d, o, order, source).packages, CoverTenant(source))
  {
    var chosen := ChosenBy(d, o, order, source);
    var p := NewPackage(o, source, chosen);
    CoverageGrows(Expire(d.packages, o.now), p, CoverTenant(source));
    assert OpenFor(p, CoverTenant(source)) && c.fingerprint in p.signals;
  }

  /** The chosen are the twelve best, or all when there are fewer; ties may fall either way. */
  lemma ChosenAreTheBest(eligible: seq<Candidate>)
    ensures |Chosen(eligible)| == Min(PACKAGE_LIMIT, |eligible|)
    ensures forall c :: c in Chosen(eligible) ==> c in eligible
    ensures Distinct(eligible) ==> Distinct(Chosen(eligible))
    ensures Distinct(eligible) ==>
              forall c, d :: c in Chosen(eligible) && d in eligible && d !in Chosen(eligible) ==>
                NotBehind(c.row, d.row)
  {
    var ranked := Sort(Outranks, eligible);
    SortPermutes(Outranks, eligible);
    OutranksIsOrder();
    SortSorts(Outranks, eligible);
    if Distinct(eligible) {
      SortDistinct(Outranks, eligible);
      forall c, d | c in Chosen(eligible) && d in eligible && d !in Chosen(eligible)
        ensures NotBehind(c.row, d.row)
      {
        OutranksMeans(c, d);
        var i :| 0 <= i < |Chosen(eligible)| && Chosen(eligible)[i] == c;
        assert d in ranked;
        var j :| 0 <= j < |ranked| && ranked[j] == d;
        assert j >= |Chosen(eligible)|;
      }
    }
  }

  /** The severity is that of one of the rows, and none is more severe: Critical, High, Medium, Low. */
  ghost predicate IsSeverest(severity: Severity, rows: iset<SignalRow>) {
    && (severity.Critical? <==> exists r :: r in rows && r.severity.Critical?)
    && (severity.High? <==> !severity.Critical? && exists r :: r in rows && r.severity.High?)
    && (severity.Medium? <==> !severity.Critical? && !severity.High? && exists r :: r in rows && r.severity.Medium?)
  }

  ghost function RowsOf(cs: seq<Candidate>): iset<SignalRow> {
    iset c | c in cs :: c.row
  }

  lemma {:induction false} SeverestIsHighest(cs: seq<Candidate>)
    requires cs != []
    ensures IsSeverest(SeverestOf(cs), RowsOf(cs))
    ensures exists c :: c in cs && c.row.severity == SeverestOf(cs)
  {
    if |cs| == 1 {
      assert RowsOf(cs) == iset{cs[0].row};
      assert cs[0] in cs;
    } else {
      SeverestIsHighest(cs[1..]);
      assert cs == [cs[0]] + cs[1..];
      assert RowsOf(cs) == iset{cs[0].row} + RowsOf(cs[1..]);
    }
  }

  lemma {:induction false} ConfirmedWitness(ss: seq<Sighting>, f: string)
    requires f in Seen(ss) && Confirmed(ss, f)
    ensures exists s :: s in ss && s.fingerprint == f && s.authoritative
  {
    var front, last := ss[..|ss| - 1], ss[|ss| - 1];
    assert ss == front + [last];
    if last.fingerprint != f {
      assert f in Seen(front);
      ConfirmedWitness(front, f);
    }
  }

  /** Every report of one fingerprint within a run carries the same authority. */
  ghost predicate SameAuthority(ss: seq<Sighting>) {
    forall s, t :: s in ss && t in ss && s.fingerprint == t.fingerprint ==> s.authoritative == t.authoritative
  }

  /**
   What a package promises the analyst: each signal in it was seen by this very run, is not in any
   other open package of the tenant, and is either severe or has repeated.
   */
  lemma PackagedSignalsAreWarranted(d: Desk, o: Observation, order: seq<string>, source: Option<Binding>,
                                    c: Candidate)
    requires Enumerates(order, Seen(o.sightings)) && SameAuthority(o.sightings)
    requires forall f :: f in Seen(o.sightings) && f in d.rows ==> d.rows[f].lastRun != o.runId
    requires c in ChosenBy(d, o, order, source)
    ensures c.fingerprint in Seen(o.sightings)
    ensures c.fingerprint !in Covered(Expire(d.packages, o.now), CoverTenant(source))
    ensures Lookup(Correlated(d.rows, o), c.fingerprint) == Some(c.row)
    ensures c.row.status.Persistent? && (Severe(c.row.severity) || c.row.consecutive >= 2)
  {
    var rows := Correlated(d.rows, o);
    var covered := Covered(Expire(d.packages, o.now), CoverTenant(source));
    var f := c.fingerprint;
    EligibleListed(order, rows, covered, o.sightings);
    ChosenAreTheBest(EligibleFrom(order, rows, covered, o.sightings));
    ConfirmedWitness(o.sightings, f);
    FirstSeen(o.sightings, f);
    CorrelationIsPointwise(d.rows, o, f);
  }

  // Open packages never overlap.

  lemma ProcessKeepsPackagesDisjoint(d: Desk, o: Observation, order: seq<string>, source: Option<Binding>)
    requires OpenDisjoint(d.packages)
    ensures OpenDisjoint(Processed(d, o, order, source).packages)
  {
    var open := Expire(d.packages, o.now);
    LeavingReviewKeepsDisjoint(d.packages, open);
    var rows := Correlated(d.rows, o);
    var covered := Covered(open, CoverTenant(source));
    var chosen := ChosenBy(d, o, order, source);
    if chosen != [] {
      EligibleListed(order, rows, covered, o.sightings);
      ChosenAreTheBest(EligibleFrom(order, rows, covered, o.sightings));
      AddingUncoveredKeepsDisjoint(open, NewPackage(o, source, chosen), CoverTenant(source));
    }
  }

  datatype DeskStep =
    | Process(o: Observation, order: seq<string>, source: Option<Binding>)
    | ExpireAt(now: int)
    | CloseOne(id: nat, now: int)

  function DeskNext(d: Desk, step: DeskStep): Desk {
    match step
    case Process(o, order, source) => Processed(d, o, order, source)
    case ExpireAt(now) => d.(packages := Expire(d.packages, now))
    case CloseOne(id, now) => d.(packages := Close(Expire(d.packages, now), id, now))
  }

  function DeskAfter(d: Desk, steps: seq<DeskStep>): Desk
    decreases |steps|
  {
    if steps == [] then d else DeskAfter(DeskNext(d, steps[0]), steps[1..])
  }

  /** Over every sequence of completed runs, expiries and closes. */
  lemma {:induction false} OpenPackagesNeverOverlap(d: Desk, steps: seq<DeskStep>)
    requires OpenDisjoint(d.packages)
    ensures OpenDisjoint(DeskAfter(d, steps).packages)
    decreases |steps|
  {
    if steps != [] {
      match steps[0] {
        case Process(o, order, source) =>
          ProcessKeepsPackagesDisjoint(d, o, order, source);
        case ExpireAt(now) =>
          LeavingReviewKeepsDisjoint(d.packages, Expire(d.packages, now));
        case CloseOne(id, now) =>
          LeavingReviewKeepsDisjoint(d.packages, Close(Expire(d.packages, now), id, now));
      }
      OpenPackagesNeverOverlap(DeskNext(d, steps[0]), steps[1..]);
    }
  }

  lemma {:induction false} AllConfirmed(ss: seq<Sighting>, f: string)
    requires forall s :: s in ss && s.fingerprint == f ==> s.authoritative
    ensures Confirmed(ss, f)
  {
    if ss != [] {
      assert ss[|ss| - 1] in ss;
      AllConfirmed(ss[..|ss| - 1], f);
    }
  }

  lemma {:induction false} DistinctCardinality(cs: seq<Candidate>)
    requires Distinct(cs)
    requires forall c, d :: c in cs && d in cs && c.fingerprint == d.fingerprint ==> c == d
    ensures |Fingerprints(cs)| == |cs|
  {
    if cs != [] {
      var rest := cs[1..];
      DistinctTail(cs);
      DistinctCardinality(rest);
      FingerprintsSplit(cs);
      assert cs[0].fingerprint !in Fingerprints(rest);
    }
  }

  lemma DistinctTail(cs: seq<Candidate>)
    requires cs != [] && Distinct(cs)
    ensures Distinct(cs[1..]) && cs[0] !in cs[1..] && forall c :: c in cs[1..] ==> c in cs
  {
    assert forall k :: 0 <= k < |cs[1..]| ==> cs[1..][k] == cs[k + 1];
  }

  lemma FingerprintsSplit(cs: seq<Candidate>)
    requires cs != []
    ensures Fingerprints(cs) == {cs[0].fingerprint} + Fingerprints(cs[1..])
  {
    assert cs == [cs[0]] + cs[1..];
  }

  // What the package is, in plain terms.

  /** The run's last report of the signal was authoritative. */
  ghost predicate LastReportTrusted(ss: seq<Sighting>, f: string) {
    forall i :: 0 <= i < |ss| && ss[i].fingerprint == f && (forall j :: i < j < |ss| ==> ss[j].fingerprint != f) ==>
      ss[i].authoritative
  }

  lemma {:induction false} ConfirmedMeans(ss: seq<Sighting>, f: string)
    ensures Confirmed(ss, f) <==> LastReportTrusted(ss, f)
  {
    if ss != [] {
      var front, last := ss[..|ss| - 1], ss[|ss| - 1];
      ConfirmedMeans(front, f);
      assert forall i :: 0 <= i < |front| ==> ss[i] == front[i];
      if last.fingerprint == f {
        assert ss[|ss| - 1].fingerprint == f;
      } else {
        SameLastReport(front, ss, f);
      }
    }
  }

  lemma SameLastReport(front: seq<Sighting>, ss: seq<Sighting>, f: string)
    requires ss != [] && front == ss[..|ss| - 1] && ss[|ss| - 1].fingerprint != f
    ensures LastReportTrusted(front, f) <==> LastReportTrusted(ss, f)
  {
    assert forall i :: 0 <= i < |front| ==> ss[i] == front[i];
    assert forall j :: 0 <= j < |ss| && ss[j].fingerprint == f ==> j < |front|;
  }

  /** The signal may be packaged by a run: seen by it, persistent now, not covered, and trusted at last. */
  ghost predicate Competes(f: string, rows: SignalTable, covered: set<string>, ss: seq<Sighting>) {
    && f in Seen(ss) && f in rows && rows[f].status.Persistent? && f !in covered
    && LastReportTrusted(ss, f)
  }

  ghost function RowsAt(rows: SignalTable, fs: set<string>): iset<SignalRow> {
    iset f | f in fs && f in rows :: rows[f]
  }

  /** The signals of the package: all that compete, or the twelve that stand before the others. */
  ghost predicate TakesTheFirst(signals: set<string>, rows: SignalTable, covered: set<string>, ss: seq<Sighting>) {
    && signals != {} && |signals| <= 12
    && (forall f :: f in signals ==> Competes(f, rows, covered, ss))
    && (forall g :: Competes(g, rows, covered, ss) && g !in signals ==> |signals| == 12)
    && (forall f, g :: f in signals && g !in signals && Competes(g, rows, covered, ss) ==> NotBehind(rows[f], rows[g]))
  }

  /** The tenant of the run, or of the first of the signals where the run is not known. */
  ghost predicate TenantFits(tenant: string, source: Option<Binding>, signals: set<string>, rows: SignalTable) {
    match source
    case Some(b) => tenant == b.tenant
    case None =>
      exists f :: && f in signals && f in rows
                  && (forall g :: g in signals && g in rows ==> NotBehind(rows[f], rows[g]))
                  && tenant == if rows[f].binding.tenant == "" then "workspace-primary" else rows[f].binding.tenant
  }

  ghost predicate PackageFits(p: Package, o: Observation, source: Option<Binding>, rows: SignalTable,
                              covered: set<string>) {
    && TakesTheFirst(p.signals, rows, covered, o.sightings)
    && IsSeverest(p.severity, RowsAt(rows, p.signals))
    && TenantFits(p.tenant, source, p.signals, rows)
    && p.sourceRun == o.runId && p.status.Review? && p.closedAt.None?
    && p.createdAt == o.now && p.expiresAt == p.createdAt + 604800
  }

  /** The candidates are the competing signals, each with its row. */
  lemma EligibleCompetes(order: seq<string>, rows: SignalTable, covered: set<string>, ss: seq<Sighting>)
    requires Enumerates(order, Seen(ss))
    ensures var eligible := EligibleFrom(order, rows, covered, ss);
            && Distinct(eligible)
            && (forall c :: c in eligible ==>
                  Competes(c.fingerprint, rows, covered, ss) && c.row == rows[c.fingerprint])
            && (forall f :: Competes(f, rows, covered, ss) ==> Candidate(f, rows[f]) in eligible)
  {
    EligibleListed(order, rows, covered, ss);
    forall f: string
      ensures Confirmed(ss, f) <==> LastReportTrusted(ss, f)
    {
      ConfirmedMeans(ss, f);
    }
  }

  lemma ChosenTakesTheFirst(eligible: seq<Candidate>, rows: SignalTable, covered: set<string>, ss: seq<Sighting>)
    requires eligible != [] && Distinct(eligible)
    requires forall c :: c in eligible ==> Competes(c.fingerprint, rows, covered, ss) && c.row == rows[c.fingerprint]
    requires forall f :: Competes(f, rows, covered, ss) ==> Candidate(f, rows[f]) in eligible
    ensures TakesTheFirst(Fingerprints(Chosen(eligible)), rows, covered, ss)
    ensures RowsAt(rows, Fingerprints(Chosen(eligible))) == RowsOf(Chosen(eligible))
  {
    var chosen := Chosen(eligible);
    ChosenAreTheBest(eligible);
    DistinctCardinality(chosen);
    assert chosen[0] in chosen;
    forall g | Competes(g, rows, covered, ss) && g !in Fingerprints(chosen)
      ensures |Fingerprints(chosen)| == 12
      ensures forall f :: f in Fingerprints(chosen) ==> NotBehind(rows[f], rows[g])
    {
      var d := Candidate(g, rows[g]);
      assert d in eligible && d !in chosen;
      if |eligible| <= PACKAGE_LIMIT {
        FewAreAllChosen(eligible);
      }
    }
  }

  /** The first of the chosen stands before all of them. */
  lemma FirstStandsFirst(eligible: seq<Candidate>, c: Candidate)
    requires c in Chosen(eligible)
    ensures NotBehind(Chosen(eligible)[0].row, c.row)
  {
    var ranked := Sort(Outranks, eligible);
    OutranksIsOrder();
    SortSorts(Outranks, eligible);
    var i :| 0 <= i < |Chosen(eligible)| && Chosen(eligible)[i] == c;
    assert ranked[i] == c && ranked[0] == Chosen(eligible)[0];
    assert Outranks(ranked[0], c);
    OutranksMeans(ranked[0], c);
  }

  lemma TenantOfChosen(eligible: seq<Candidate>, rows: SignalTable, source: Option<Binding>)
    requires Chosen(eligible) != []
    requires forall c :: c in Chosen(eligible) ==> c.fingerprint in rows && c.row == rows[c.fingerprint]
    ensures TenantFits(PackageTenant(source, Chosen(eligible)), source, Fingerprints(Chosen(eligible)), rows)
  {
    var chosen := Chosen(eligible);
    if source.None? {
      var f := chosen[0].fingerprint;
      assert chosen[0] in chosen;
      forall g | g in Fingerprints(chosen) && g in rows
        ensures NotBehind(rows[f], rows[g])
      {
        var c :| c in chosen && c.fingerprint == g;
        FirstStandsFirst(eligible, c);
      }
    }
  }

  lemma NewPackageFits(o: Observation, source: Option<Binding>, eligible: seq<Candidate>, rows: SignalTable,
                       covered: set<string>)
    requires eligible != [] && Distinct(eligible) && Chosen(eligible) != []
    requires forall c :: c in eligible ==>
               Competes(c.fingerprint, rows, covered, o.sightings) && c.row == rows[c.fingerprint]
    requires forall f :: Competes(f, rows, covered, o.sightings) ==> Candidate(f, rows[f]) in eligible
    ensures PackageFits(NewPackage(o, source, Chosen(eligible)), o, source, rows, covered)
  {
    ChosenAreTheBest(eligible);
    ChosenTakesTheFirst(eligible, rows, covered, o.sightings);
    SeverestIsHighest(Chosen(eligible));
    TenantOfChosen(eligible, rows, source);
  }

  /**
   What processing a run does to the packages: overdue ones expire, and if any signal competes exactly
   one package is added, which fits.
   */
  lemma ProcessedPackages(d: Desk, o: Observation, order: seq<string>, source: Option<Binding>)
    requires Enumerates(order, Seen(o.sightings))
    ensures PackagesFit(d.packages, Processed(d, o, order, source), o, source)
  {
    var covered, rows := Covered(Expire(d.packages, o.now), CoverTenant(source)), Correlated(d.rows, o);
    var eligible := EligibleFrom(order, rows, covered, o.sightings);
    EligibleCompetes(order, rows, covered, o.sightings);
    ChosenAreTheBest(eligible);
    if eligible != [] {
      NewPackageFits(o, source, eligible, rows, covered);
      assert eligible[0] in eligible;
    }
  }

  /** What is due expires. Then one package is appended if some signal competes that no open one holds. */
  ghost predicate PackagesFit(before: seq<Package>, after: Desk, o: Observation, source: Option<Binding>) {
    var open := Expire(before, o.now);
    var covered := Covered(open, if source.Some? then source.value.tenant else "");
    if exists f :: Competes(f, after.rows, covered, o.sightings)
    then |after.packages| == |open| + 1 && after.packages[..|open|] == open
         && PackageFits(after.packages[|open|], o, source, after.rows, covered)
    else after.packages == open
  }

  /** `AssuranceResponseService`: correlates and packages one completed run. */
  class ResponseService {
    const signals: SignalStore
    const shelf: PackageStore

    constructor (signals: SignalStore, shelf: PackageStore)
      ensures this.signals == signals && this.shelf == shelf
    {
      this.signals := signals;
      this.shelf := shelf;
    }

    ghost function Tables(): Desk
      reads signals, shelf
    {
      Desk(signals.rows, shelf.packages)
    }

    method Process(o: Observation, source: Option<Binding>) returns (id: Option<nat>, ghost order: seq<string>)
      modifies signals, shelf
      ensures Enumerates(order, Seen(o.sightings))
      ensures Tables() == Processed(old(Tables()), o, order, source)
      ensures PackagesFit(old(shelf.packages), Tables(), o, source)
      ensures id == if ChosenBy(old(Tables()), o, order, source) == [] then None
                    else Some(|old(shelf.packages)|)
    {
      ghost var before := Tables();
      id, order := CorrelateAndPackage(o, source);
      ProcessedPackages(before, o, order, source);
    }

    method CorrelateAndPackage(o: Observation, source: Option<Binding>)
      returns (id: Option<nat>, ghost order: seq<string>)
      modifies signals, shelf
      ensures Enumerates(order, Seen(o.sightings))
      ensures Tables() == Processed(old(Tables()), o, order, source)
      ensures id == if ChosenBy(old(Tables()), o, order, source) == [] then None
                    else Some(|old(shelf.packages)|)
    {
      var correlated := signals.CorrelateSignals(o);
      order := correlated;
      var covered := shelf.CoveredSignalFingerprints(CoverTenant(source), o.now);
      var eligible := [];
      var i := 0;
      while i < |correlated|
        invariant 0 <= i <= |correlated|
        invariant signals.rows == Correlated(old(signals.rows), o)
        invariant shelf.packages == Expire(old(shelf.packages), o.now)
        invariant eligible == EligibleFrom(correlated[..i], signals.rows, covered, o.sightings)
      {
        assert correlated[i] in correlated;
        var c := Candidate(correlated[i], signals.rows[correlated[i]]);
        EligibleSnoc(correlated[..i], correlated[i], signals.rows, covered, o.sightings);
        assert correlated[..i + 1] == correlated[..i] + [correlated[i]];
        if Eligible(c, covered, o.sightings) {
          eligible := eligible + [c];
        }
        i := i + 1;
      }
      assert correlated[..i] == correlated;
      if eligible == [] {
        id := None;
        return;
      }
      var chosen := Chosen(eligible);
      ChosenAreTheBest(eligible);
      var n := shelf.CreatePackage(NewPackage(o, source, chosen));
      id := Some(n);
    }
  }

  lemma {:induction false} CandidatesSnoc(order: seq<string>, f: string, rows: SignalTable)
    ensures Candidates(order + [f], rows) == Candidates(order, rows) + CandidateOf(f, rows)
  {
    if order == [] {
      assert order + [f] == [f];
    } else {
      var longer := order + [f];
      assert longer[0] == order[0] && longer[1..] == order[1..] + [f];
      CandidatesSnoc(order[1..], f, rows);
    }
  }

  lemma EligibleSnoc(order: seq<string>, f: string, rows: SignalTable, covered: set<string>, ss: seq<Sighting>)
    requires f in rows
    ensures var c := Candidate(f, rows[f]);
            EligibleFrom(order + [f], rows, covered, ss)
            == EligibleFrom(order, rows, covered, ss) + if Eligible(c, covered, ss) then [c] else []
  {
    CandidatesSnoc(order, f, rows);
    FilterConcat(c => Eligible(c, covered, ss), Candidates(order, rows), [Candidate(f, rows[f])]);
  }
}
