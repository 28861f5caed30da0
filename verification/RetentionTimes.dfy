/**
 Which storage a cleanup may take, by the metadata and the times themselves: the inventory is made by
 sorting and cutting, and lists exactly what is over, not in use, old enough, and behind enough others.
 */
module RetentionTimes {
  import opened Common
  import opened Sorting
  import opened Retention
  import opened RetentionRows

  // The rule by the times themselves.

  /** A missing time is the oldest. */
  predicate Older(a: Option<int>, b: Option<int>) {
    b.Some? && (a.None? || a.value < b.value)
  }

  /** Newer, or of the same time and listed first. */
  predicate Ahead(a: Option<int>, b: Option<int>, first: bool) {
    Older(b, a) || (a == b && first)
  }

  /** Old enough, present, and listed with its time and content. */
  ghost predicate Due(c: Candidate, at: Option<int>, minAge: nat, storage: Storage, now: int) {
    && c.createdAt == at && at.Some? && now - at.value >= minAge * 86400
    && c.location in storage && c.content == storage[c.location]
  }

  ghost function RowsAhead(vs: seq<Retained>, v: Retained): set<Retained> {
    set u | u in vs && u.tenant == v.tenant && Ahead(u.at, v.at, Before(vs, u, v))
  }

  /** One of the rows, with at least `keep` rows of its tenant ahead of it. */
  ghost predicate RowTaken(c: Candidate, vs: seq<Retained>, rule: Rule, storage: Storage, now: int) {
    exists v :: v in vs && c.id == v.id && c.location == Location(v.kind, v.tenant, v.id)
      && Due(c, v.at, rule.minAge, storage, now) && |RowsAhead(vs, v)| >= rule.keep
  }

  lemma UniquePlacesAreDistinct(vs: seq<Retained>)
    requires UniquePlaces(vs)
    ensures Distinct(vs)
  {
    assert forall i, j :: 0 <= i < j < |vs| ==> Place(vs[i]) != Place(vs[j]);
  }

  lemma NotBeforeItself<T>(s: seq<T>, x: T)
    requires Distinct(s)
    ensures !Before(s, x, x)
  {
  }

  lemma NewestFirstIsOrder()
    ensures TotalPreorder(NewestFirst)
  {
  }

  lemma LeadersAreAhead(vs: seq<Retained>, v: Retained)
    requires Distinct(vs) && v in vs
    ensures RowsAhead(vs, v)
         == set u | u in OfTenant(vs, v.tenant) && Leads(NewestFirst, OfTenant(vs, v.tenant), u, v)
  {
    var same := (u: Retained) => u.tenant == v.tenant;
    var group := OfTenant(vs, v.tenant);
    FilterMembers(same, vs);
    NotBeforeItself(vs, v);
    forall u
      ensures u in group && Leads(NewestFirst, group, u, v) <==>
                u in vs && u.tenant == v.tenant && Ahead(u.at, v.at, Before(vs, u, v))
    {
      FilterKeepsOrder(same, vs, u, v);
    }
  }

  /** Beyond the newest are exactly the rows with enough others ahead. */
  lemma BeyondExactly(vs: seq<Retained>, v: Retained, keep: nat)
    requires UniquePlaces(vs) && v in vs
    ensures v in Beyond(Ordered(vs, v.tenant), keep) <==> |RowsAhead(vs, v)| >= keep
  {
    var s := Ordered(vs, v.tenant);
    UniquePlacesAreDistinct(vs);
    OrderedListed(vs, v.tenant);
    var k :| 0 <= k < |s| && s[k] == v;
    NewestFirstIsOrder();
    FilterDistinct((u: Retained) => u.tenant == v.tenant, vs);
    SortedPlace(NewestFirst, OfTenant(vs, v.tenant), k);
    LeadersAreAhead(vs, v);
    PlaceInRest(s, k, keep);
  }

  lemma PlaceInRest<T>(s: seq<T>, k: nat, keep: nat)
    requires Distinct(s) && k < |s|
    ensures s[k] in Beyond(s, keep) <==> k >= keep
  {
    assert k >= keep ==> Beyond(s, keep)[k - keep] == s[k];
    assert forall j :: 0 <= j < |Beyond(s, keep)| ==> Beyond(s, keep)[j] == s[keep + j];
  }

  /** The record of one row. */
  ghost predicate RecordedAs(c: Candidate, v: Retained, minAge: nat, storage: Storage, now: int) {
    c.id == v.id && c.location == Location(v.kind, v.tenant, v.id) && Due(c, v.at, minAge, storage, now)
  }

  lemma {:induction false} RecordsExactly(vs: seq<Retained>, minAge: nat, storage: Storage, now: int, c: Candidate)
    ensures c in Records(vs, minAge, storage, now) <==>
              exists v :: v in vs && RecordedAs(c, v, minAge, storage, now)
  {
    if vs != [] {
      var front, last := vs[..|vs| - 1], vs[|vs| - 1];
      RecordsExactly(front, minAge, storage, now, c);
      assert c in RecordOf(last, minAge, storage, now) <==> RecordedAs(c, last, minAge, storage, now);
      assert forall v :: v in vs <==> v in front || v == last;
    }
  }

  lemma {:induction false} RecordsOfExactly(tenants: seq<string>, vs: seq<Retained>, rule: Rule, storage: Storage,
                                            now: int, c: Candidate)
    ensures c in RecordsOf(tenants, vs, rule, storage, now) <==>
              exists t :: t in tenants && c in Records(Beyond(Ordered(vs, t), rule.keep), rule.minAge, storage, now)
  {
    if tenants != [] {
      var front, last := tenants[..|tenants| - 1], tenants[|tenants| - 1];
      RecordsOfExactly(front, vs, rule, storage, now, c);
      assert forall t :: t in tenants <==> t in front || t == last;
    }
  }

  lemma {:induction false} TenantsListed(vs: seq<Retained>)
    ensures forall v :: v in vs ==> v.tenant in Tenants(vs)
  {
    if vs != [] {
      TenantsListed(vs[..|vs| - 1]);
    }
  }

  /** The rows that are taken, by their times. */
  lemma RetainedExactly(vs: seq<Retained>, rule: Rule, storage: Storage, now: int, c: Candidate)
    requires UniquePlaces(vs)
    ensures c in RetainedRecords(vs, rule, storage, now) <==> RowTaken(c, vs, rule, storage, now)
  {
    RecordsOfExactly(Tenants(vs), vs, rule, storage, now, c);
    TenantsListed(vs);
    if t :| t in Tenants(vs) && c in Records(Beyond(Ordered(vs, t), rule.keep), rule.minAge, storage, now) {
      var rest := Beyond(Ordered(vs, t), rule.keep);
      RecordsExactly(rest, rule.minAge, storage, now, c);
      var v :| v in rest && RecordedAs(c, v, rule.minAge, storage, now);
      OrderedListed(vs, t);
      assert v in Ordered(vs, t);
      BeyondExactly(vs, v, rule.keep);
    }
    if v :| v in vs && RecordedAs(c, v, rule.minAge, storage, now) && |RowsAhead(vs, v)| >= rule.keep {
      BeyondExactly(vs, v, rule.keep);
      RecordsExactly(Beyond(Ordered(vs, v.tenant), rule.keep), rule.minAge, storage, now, c);
    }
  }

  // Generations.

  /** In use: routed to, being copied or verified, the way back from a cutover, or being migrated back. */
  ghost predicate InUse(g: string, e: Estate) {
    g != "" && (Routed(g, e) || Incoming(g, e) || WayBack(g, e) || GoingBack(g, e))
  }

  ghost predicate Routed(g: string, e: Estate) {
    exists r :: r in e.routes && r.isolated && r.generation == g
  }

  ghost predicate Incoming(g: string, e: Estate) {
    exists m :: m in e.migrations && m.generation == g && (m.status == Copying || m.status == Verified)
  }

  ghost predicate WayBack(g: string, e: Estate) {
    exists m :: m in e.migrations && m.sourceGeneration == g && m.status == Cutover
      && m.generation != "" && Routed(m.generation, e)
  }

  ghost predicate GoingBack(g: string, e: Estate) {
    exists r :: r in e.reverses && r.generation == g && Underway(r)
  }

  ghost predicate Underway(r: Reverse) {
    r.status == ReverseCopying || r.status == ReverseVerified || r.status == FinalizedReady || r.status == Applying
  }

  lemma InUseIsProtected(g: string, e: Estate)
    ensures InUse(g, e) <==> g in ProtectedGenerations(e)
  {
    assert g != "" && Routed(g, e) <==> g in ActiveGenerations(e);
    assert forall h :: h in ActiveGenerations(e) <==> h != "" && Routed(h, e);
    assert g != "" && Incoming(g, e) <==> g in PendingGenerations(e);
    assert g != "" && WayBack(g, e) <==> g in RollbackSources(e);
    assert g != "" && GoingBack(g, e) <==> g in ReverseSources(e);
  }

  /** The migration is over and its generation is not in use. */
  ghost predicate Ended(m: Migration, e: Estate) {
    && m.generation != "" && !InUse(m.generation, e)
    && (m.status == MigrationFailed || m.status == RolledBack || m.status == ReverseMigrated || m.status == Cutover)
  }

  /** The generations of its tenant that go before it: newer, or as new and listed first. */
  ghost function GenerationsAhead(e: Estate, m: Migration): set<string> {
    set n | n in e.migrations && Ended(n, e) && n.tenant == m.tenant
         && Ahead(n.at, m.at, Before(e.migrations, n, m)) :: n.generation
  }

  function RowOf(m: Migration): Retained {
    Retained(TenantGeneration, m.tenant, m.generation, m.at)
  }

  lemma EndedIsTerminal(m: Migration, e: Estate)
    ensures Ended(m, e) <==> TerminalMigration(m, e)
  {
    InUseIsProtected(m.generation, e);
  }

  lemma TerminalRows(ms: seq<Migration>, e: Estate)
    ensures forall v :: v in TerminalGenerations(ms, e) <==>
              exists m :: m in ms && TerminalMigration(m, e) && RowOf(m) == v
  {
    GenerationsAreRows(ms, e);
    RowsMembers((k: Migration) => TerminalMigration(k, e), RowOf, ms);
  }

  ghost predicate UniqueGenerations(ms: seq<Migration>) {
    forall i, j :: 0 <= i < j < |ms| ==> ms[i].tenant != ms[j].tenant || ms[i].generation != ms[j].generation
  }

  /** The rows made of the entries that qualify. */
  function Rows<T, U>(keep: T -> bool, row: T -> U, s: seq<T>): seq<U> {
    if s == [] then [] else (if keep(s[0]) then [row(s[0])] else []) + Rows(keep, row, s[1..])
  }

  lemma {:induction false} RowsMember<T, U>(keep: T -> bool, row: T -> U, s: seq<T>, u: U)
    ensures u in Rows(keep, row, s) <==> exists x :: x in s && keep(x) && row(x) == u
  {
    if s != [] {
      RowsMember(keep, row, s[1..], u);
      assert forall x :: x in s <==> x == s[0] || x in s[1..];
    }
  }

  lemma RowsMembers<T, U(!new)>(keep: T -> bool, row: T -> U, s: seq<T>)
    ensures forall u :: u in Rows(keep, row, s) <==> exists x :: x in s && keep(x) && row(x) == u
  {
    forall u
      ensures u in Rows(keep, row, s) <==> exists x :: x in s && keep(x) && row(x) == u
    {
      RowsMember(keep, row, s, u);
    }
  }

  lemma {:induction false} RowsKeepOrder<T, U>(keep: T -> bool, row: T -> U, s: seq<T>, x: T, y: T)
    requires keep(x) && keep(y)
    requires forall z :: z in s && row(z) == row(x) ==> z == x
    requires forall z :: z in s && row(z) == row(y) ==> z == y
    ensures Before(Rows(keep, row, s), row(x), row(y)) <==> Before(s, x, y)
  {
    if s != [] {
      var rows := Rows(keep, row, s[1..]);
      assert s == [s[0]] + s[1..];
      assert s[0] in s;
      RowsKeepOrder(keep, row, s[1..], x, y);
      RowsMember(keep, row, s[1..], row(y));
      BeforeCons(s[0], s[1..], x, y);
      BeforeCons(row(s[0]), rows, row(x), row(y));
      if row(y) in rows {
        var z :| z in s[1..] && keep(z) && row(z) == row(y);
        assert z in s;
      }
      assert y in s[1..] ==> row(y) in rows;
      assert Rows(keep, row, s) == if keep(s[0]) then [row(s[0])] + rows else rows;
    }
  }

  lemma TerminalRowsInOrder(ms: seq<Migration>, e: Estate, n: Migration, m: Migration)
    requires UniqueGenerations(ms) && n in ms && m in ms && TerminalMigration(n, e) && TerminalMigration(m, e)
    ensures Before(TerminalGenerations(ms, e), RowOf(n), RowOf(m)) <==> Before(ms, n, m)
  {
    var over := (k: Migration) => TerminalMigration(k, e);
    GenerationsAreRows(ms, e);
    OneMigration(ms, n);
    OneMigration(ms, m);
    RowsKeepOrder(over, RowOf, ms, n, m);
  }

  lemma {:induction false} GenerationsAreRows(ms: seq<Migration>, e: Estate)
    ensures TerminalGenerations(ms, e) == Rows((k: Migration) => TerminalMigration(k, e), RowOf, ms)
  {
    if ms != [] {
      GenerationsAreRows(ms[1..], e);
    }
  }

  lemma OneMigration(ms: seq<Migration>, m: Migration)
    requires UniqueGenerations(ms) && m in ms
    ensures forall n :: n in ms && n.tenant == m.tenant && n.generation == m.generation ==> n == m
  {
  }

  lemma {:induction false} IdsCount(rows: set<Retained>)
    requires forall u, v :: u in rows && v in rows && u.id == v.id ==> u == v
    ensures |set u | u in rows :: u.id| == |rows|
  {
    if rows != {} {
      var u :| u in rows;
      var rest := rows - {u};
      IdsCount(rest);
      assert (set v | v in rows :: v.id) == (set v | v in rest :: v.id) + {u.id};
    }
  }

  lemma SameRow(vs: seq<Retained>, u: Retained, v: Retained)
    requires UniquePlaces(vs) && u in vs && v in vs && Place(u) == Place(v)
    ensures u == v
  {
    var i :| 0 <= i < |vs| && vs[i] == u;
    var j :| 0 <= j < |vs| && vs[j] == v;
  }

  /** As many rows as ids are ahead. */
  lemma RowIds(vs: seq<Retained>, v: Retained)
    requires UniquePlaces(vs) && forall u :: u in vs ==> u.kind == v.kind
    ensures |set u | u in RowsAhead(vs, v) :: u.id| == |RowsAhead(vs, v)|
  {
    forall u, w | u in RowsAhead(vs, v) && w in RowsAhead(vs, v) && u.id == w.id
      ensures u == w
    {
      SameRow(vs, u, w);
    }
    IdsCount(RowsAhead(vs, v));
  }

  lemma GenerationsAheadAreRows(e: Estate, m: Migration)
    requires UniqueGenerations(e.migrations) && m in e.migrations && Ended(m, e)
    ensures |GenerationsAhead(e, m)| == |RowsAhead(TerminalGenerations(e.migrations, e), RowOf(m))|
  {
    var vs := TerminalGenerations(e.migrations, e);
    TerminalRows(e.migrations, e);
    TerminalGenerationsListed(e.migrations, e);
    TerminalGenerationsUnique(e.migrations, e);
    EndedIsTerminal(m, e);
    forall n | n in e.migrations
      ensures Ended(n, e) ==> (Before(vs, RowOf(n), RowOf(m)) <==> Before(e.migrations, n, m))
      ensures Ended(n, e) <==> TerminalMigration(n, e)
    {
      EndedIsTerminal(n, e);
      if Ended(n, e) {
        TerminalRowsInOrder(e.migrations, e, n, m);
      }
    }
    assert GenerationsAhead(e, m) == set u | u in RowsAhead(vs, RowOf(m)) :: u.id;
    RowIds(vs, RowOf(m));
  }

  /** The generation of a migration that is over, with at least `keep` of its tenant's ahead of it. */
  ghost predicate GenerationTaken(c: Candidate, e: Estate, rule: Rule, storage: Storage, now: int) {
    exists m :: m in e.migrations && Ended(m, e)
      && c.id == m.generation && c.location == Location(TenantGeneration, m.tenant, m.generation)
      && Due(c, m.at, rule.minAge, storage, now) && |GenerationsAhead(e, m)| >= rule.keep
  }

  lemma GenerationsExactly(e: Estate, rule: Rule, storage: Storage, now: int, c: Candidate)
    requires UniqueIds(e)
    ensures c in RetainedRecords(TerminalGenerations(e.migrations, e), rule, storage, now) <==>
              GenerationTaken(c, e, rule, storage, now)
  {
    var vs := TerminalGenerations(e.migrations, e);
    TerminalGenerationsUnique(e.migrations, e);
    RetainedExactly(vs, rule, storage, now, c);
    TerminalRows(e.migrations, e);
    forall m | m in e.migrations
      ensures Ended(m, e) <==> TerminalMigration(m, e)
      ensures Ended(m, e) ==> |GenerationsAhead(e, m)| == |RowsAhead(vs, RowOf(m))|
    {
      EndedIsTerminal(m, e);
      if Ended(m, e) {
        GenerationsAheadAreRows(e, m);
      }
    }
    RowsAreGenerations(e, rule, storage, now, c);
  }

  lemma RowsAreGenerations(e: Estate, rule: Rule, storage: Storage, now: int, c: Candidate)
    requires var vs := TerminalGenerations(e.migrations, e);
             && (forall v :: v in vs <==> exists m :: m in e.migrations && TerminalMigration(m, e) && RowOf(m) == v)
             && forall m :: m in e.migrations ==>
                  && (Ended(m, e) <==> TerminalMigration(m, e))
                  && (Ended(m, e) ==> |GenerationsAhead(e, m)| == |RowsAhead(vs, RowOf(m))|)
    ensures RowTaken(c, TerminalGenerations(e.migrations, e), rule, storage, now) <==>
              GenerationTaken(c, e, rule, storage, now)
  {
    var vs := TerminalGenerations(e.migrations, e);
    if v :| v in vs && c.id == v.id && c.location == Location(v.kind, v.tenant, v.id)
            && Due(c, v.at, rule.minAge, storage, now) && |RowsAhead(vs, v)| >= rule.keep {
      var m :| m in e.migrations && TerminalMigration(m, e) && RowOf(m) == v;
      assert Ended(m, e);
    }
    if m :| m in e.migrations && Ended(m, e)
            && c.id == m.generation && c.location == Location(TenantGeneration, m.tenant, m.generation)
            && Due(c, m.at, rule.minAge, storage, now) && |GenerationsAhead(e, m)| >= rule.keep {
      assert RowOf(m) in vs;
    }
  }

  // Reverse snapshots.

  ghost predicate Settled(r: Reverse) {
    r.status == ReverseFailed || r.status == Superseded || r.status == Applied
  }

  ghost function SnapshotsAhead(e: Estate, r: Reverse): set<string> {
    set q | q in e.reverses && Settled(q) && q.tenant == r.tenant && Ahead(q.at, r.at, Before(e.reverses, q, r)) :: q.id
  }

  function RowOfReverse(r: Reverse): Retained {
    Retained(ReverseSnapshot, r.tenant, r.id, r.at)
  }

  lemma SettledRows(rs: seq<Reverse>)
    ensures forall v :: v in TerminalReverses(rs) <==> exists r :: r in rs && Settled(r) && RowOfReverse(r) == v
  {
    ReversesAreRows(rs);
    RowsMembers(IsOver, RowOfReverse, rs);
  }

  ghost predicate UniqueReverses(rs: seq<Reverse>) {
    forall i, j :: 0 <= i < j < |rs| ==> rs[i].tenant != rs[j].tenant || rs[i].id != rs[j].id
  }

  lemma SettledRowsInOrder(rs: seq<Reverse>, q: Reverse, r: Reverse)
    requires UniqueReverses(rs) && q in rs && r in rs && Settled(q) && Settled(r)
    ensures Before(TerminalReverses(rs), RowOfReverse(q), RowOfReverse(r)) <==> Before(rs, q, r)
  {
    ReversesAreRows(rs);
    OneReverse(rs, q);
    OneReverse(rs, r);
    RowsKeepOrder(IsOver, RowOfReverse, rs, q, r);
  }

  predicate IsOver(r: Reverse) {
    r.status.ReverseFailed? || r.status.Superseded? || r.status.Applied?
  }

  lemma {:induction false} ReversesAreRows(rs: seq<Reverse>)
    ensures TerminalReverses(rs) == Rows(IsOver, RowOfReverse, rs)
  {
    if rs != [] {
      ReversesAreRows(rs[1..]);
    }
  }

  lemma OneReverse(rs: seq<Reverse>, r: Reverse)
    requires UniqueReverses(rs) && r in rs
    ensures forall q :: q in rs && q.tenant == r.tenant && q.id == r.id ==> q == r
  {
  }

  lemma SnapshotsAheadAreRows(e: Estate, r: Reverse)
    requires UniqueReverses(e.reverses) && r in e.reverses && Settled(r)
    ensures |SnapshotsAhead(e, r)| == |RowsAhead(TerminalReverses(e.reverses), RowOfReverse(r))|
  {
    var vs := TerminalReverses(e.reverses);
    SettledRows(e.reverses);
    TerminalReversesListed(e.reverses);
    TerminalReversesUnique(e.reverses);
    forall q | q in e.reverses && Settled(q)
      ensures Before(vs, RowOfReverse(q), RowOfReverse(r)) <==> Before(e.reverses, q, r)
    {
      SettledRowsInOrder(e.reverses, q, r);
    }
    assert SnapshotsAhead(e, r) == set u | u in RowsAhead(vs, RowOfReverse(r)) :: u.id;
    RowIds(vs, RowOfReverse(r));
  }

  /** The snapshot of a settled reverse migration, with at least `keep` of its tenant's ahead of it. */
  ghost predicate SnapshotTaken(c: Candidate, e: Estate, rule: Rule, storage: Storage, now: int) {
    exists r :: r in e.reverses && Settled(r)
      && c.id == r.id && c.location == Location(ReverseSnapshot, r.tenant, r.id)
      && Due(c, r.at, rule.minAge, storage, now) && |SnapshotsAhead(e, r)| >= rule.keep
  }

  lemma SnapshotsExactly(e: Estate, rule: Rule, storage: Storage, now: int, c: Candidate)
    requires UniqueIds(e)
    ensures c in RetainedRecords(TerminalReverses(e.reverses), rule, storage, now) <==>
              SnapshotTaken(c, e, rule, storage, now)
  {
    var vs := TerminalReverses(e.reverses);
    TerminalReversesUnique(e.reverses);
    RetainedExactly(vs, rule, storage, now, c);
    SettledRows(e.reverses);
    forall r | r in e.reverses && Settled(r)
      ensures |SnapshotsAhead(e, r)| == |RowsAhead(vs, RowOfReverse(r))|
    {
      SnapshotsAheadAreRows(e, r);
    }
    RowsAreSnapshots(e, rule, storage, now, c);
  }

  lemma RowsAreSnapshots(e: Estate, rule: Rule, storage: Storage, now: int, c: Candidate)
    requires var vs := TerminalReverses(e.reverses);
             && (forall v :: v in vs <==> exists r :: r in e.reverses && Settled(r) && RowOfReverse(r) == v)
             && forall r :: r in e.reverses && Settled(r) ==>
                  |SnapshotsAhead(e, r)| == |RowsAhead(vs, RowOfReverse(r))|
    ensures RowTaken(c, TerminalReverses(e.reverses), rule, storage, now) <==>
              SnapshotTaken(c, e, rule, storage, now)
  {
    var vs := TerminalReverses(e.reverses);
    if v :| v in vs && c.id == v.id && c.location == Location(v.kind, v.tenant, v.id)
            && Due(c, v.at, rule.minAge, storage, now) && |RowsAhead(vs, v)| >= rule.keep {
      var r :| r in e.reverses && Settled(r) && RowOfReverse(r) == v;
    }
    if r :| r in e.reverses && Settled(r)
            && c.id == r.id && c.location == Location(ReverseSnapshot, r.tenant, r.id)
            && Due(c, r.at, rule.minAge, storage, now) && |SnapshotsAhead(e, r)| >= rule.keep {
      assert RowOfReverse(r) in vs;
    }
  }

  // Recovery files.

  /** The files of the directory that are there and go before it. */
  ghost function FilesAhead(files: seq<RecoveryFile>, kind: StorageKind, f: RecoveryFile, storage: Storage)
    : set<string>
  {
    set g | g in files && Location(kind, "", g.name) in storage
         && (g.modifiedAt > f.modifiedAt || (g.modifiedAt == f.modifiedAt && Before(files, g, f))) :: g.name
  }

  lemma {:induction false} NamesCount(fs: set<RecoveryFile>)
    requires forall f, g :: f in fs && g in fs && f.name == g.name ==> f == g
    ensures |set f | f in fs :: f.name| == |fs|
  {
    if fs != {} {
      var f :| f in fs;
      var rest := fs - {f};
      NamesCount(rest);
      assert (set g | g in fs :: g.name) == (set g | g in rest :: g.name) + {f.name};
    }
  }

  lemma LatestFirstIsOrder()
    ensures TotalPreorder(LatestFirst)
  {
  }

  lemma FilesAheadLead(files: seq<RecoveryFile>, kind: StorageKind, f: RecoveryFile, storage: Storage)
    requires UniqueNames(files) && f in files && FilePlace(kind, f) in storage
    ensures var there := Filter(Present(kind, storage), files);
            |FilesAhead(files, kind, f, storage)| == |set g | g in there && Leads(LatestFirst, there, g, f)|
  {
    var here := Present(kind, storage);
    var there := Filter(here, files);
    var leaders := set g | g in there && Leads(LatestFirst, there, g, f);
    UniqueNamesAreDistinct(files);
    FilterMembers(here, files);
    NotBeforeItself(files, f);
    forall g
      ensures g in leaders <==>
                && g in files && Location(kind, "", g.name) in storage
                && (g.modifiedAt > f.modifiedAt || (g.modifiedAt == f.modifiedAt && Before(files, g, f)))
    {
      FilterKeepsOrder(here, files, g, f);
    }
    assert FilesAhead(files, kind, f, storage) == set g | g in leaders :: g.name;
    NamesCount(leaders);
  }

  /** A file's place in the listing is the number of files ahead of it. */
  lemma ListingPlace(files: seq<RecoveryFile>, kind: StorageKind, storage: Storage, k: nat)
    requires UniqueNames(files) && k < |Listing(files, kind, storage)|
    ensures |FilesAhead(files, kind, Listing(files, kind, storage)[k], storage)| == k
  {
    var there := Filter(Present(kind, storage), files);
    var f := Listing(files, kind, storage)[k];
    UniqueNamesAreDistinct(files);
    FilterDistinct(Present(kind, storage), files);
    LatestFirstIsOrder();
    SortedPlace(LatestFirst, there, k);
    ListingListed(files, kind, storage);
    assert f in Listing(files, kind, storage);
    FilesAheadLead(files, kind, f, storage);
  }

  lemma FilesBeyondExactly(files: seq<RecoveryFile>, kind: StorageKind, storage: Storage, f: RecoveryFile, keep: nat)
    requires UniqueNames(files)
    ensures f in Beyond(Listing(files, kind, storage), keep) <==>
              f in files && Location(kind, "", f.name) in storage && |FilesAhead(files, kind, f, storage)| >= keep
  {
    var s := Listing(files, kind, storage);
    UniqueNamesAreDistinct(files);
    ListingListed(files, kind, storage);
    if f in s {
      var k :| 0 <= k < |s| && s[k] == f;
      ListingPlace(files, kind, storage, k);
      PlaceInRest(s, k, keep);
    } else {
      assert forall g :: g in Beyond(s, keep) ==> g in s;
    }
  }

  /** The record of one file: its package is not the pending one. */
  ghost predicate FileRecordedAs(c: Candidate, f: RecoveryFile, kind: StorageKind, minAge: nat, pending: string,
                                 storage: Storage, now: int) {
    && f.packageId != pending && c.id == f.packageId && c.location == Location(kind, "", f.name)
    && Due(c, Some(f.modifiedAt), minAge, storage, now)
  }

  lemma {:induction false} FileRecordsExactly(fs: seq<RecoveryFile>, kind: StorageKind, minAge: nat, pending: string,
                                              storage: Storage, now: int, c: Candidate)
    ensures c in FileRecords(fs, kind, minAge, pending, storage, now) <==>
              exists f :: f in fs && FileRecordedAs(c, f, kind, minAge, pending, storage, now)
  {
    if fs != [] {
      var front, last := fs[..|fs| - 1], fs[|fs| - 1];
      FileRecordsExactly(front, kind, minAge, pending, storage, now, c);
      assert c in FileRecord(last, kind, minAge, pending, storage, now) <==>
               FileRecordedAs(c, last, kind, minAge, pending, storage, now);
      assert forall f :: f in fs <==> f in front || f == last;
    }
  }

  /** A file of another package than the pending one, with at least `keep` files ahead of it. */
  ghost predicate FileTaken(c: Candidate, files: seq<RecoveryFile>, kind: StorageKind, rule: Rule, pending: string,
                            storage: Storage, now: int) {
    exists f :: f in files && FileRecordedAs(c, f, kind, rule.minAge, pending, storage, now)
      && |FilesAhead(files, kind, f, storage)| >= rule.keep
  }

  lemma FilesExactly(files: seq<RecoveryFile>, kind: StorageKind, rule: Rule, pending: string, storage: Storage,
                     now: int, c: Candidate)
    requires UniqueNames(files)
    ensures c in RecoveryRecords(files, kind, rule, pending, storage, now) <==>
              FileTaken(c, files, kind, rule, pending, storage, now)
  {
    var rest := Beyond(Listing(files, kind, storage), rule.keep);
    FileRecordsExactly(rest, kind, rule.minAge, pending, storage, now, c);
    if f :| f in rest && FileRecordedAs(c, f, kind, rule.minAge, pending, storage, now) {
      FilesBeyondExactly(files, kind, storage, f, rule.keep);
    }
    if f :| f in files && FileRecordedAs(c, f, kind, rule.minAge, pending, storage, now)
            && |FilesAhead(files, kind, f, storage)| >= rule.keep {
      FilesBeyondExactly(files, kind, storage, f, rule.keep);
    }
  }

  // The inventory.

  /** What the cleanup may take, said of the metadata and the times alone. */
  ghost predicate Taken(c: Candidate, e: Estate, p: Policy, storage: Storage, now: int) {
    match c.location.kind
    case TenantGeneration => GenerationTaken(c, e, p.generations, storage, now)
    case ReverseSnapshot => SnapshotTaken(c, e, p.reverses, storage, now)
    case RecoveryExport => FileTaken(c, e.exports, RecoveryExport, p.exports, e.pendingPackage, storage, now)
    case RecoveryCheckpoint =>
      FileTaken(c, e.checkpoints, RecoveryCheckpoint, p.checkpoints, e.pendingCheckpoint, storage, now)
  }

  /** The part of the inventory that lists this kind. */
  function PartFor(k: StorageKind, e: Estate, p: Policy, storage: Storage, now: int): seq<Candidate> {
    match k
    case TenantGeneration => RetainedRecords(TerminalGenerations(e.migrations, e), p.generations, storage, now)
    case ReverseSnapshot => RetainedRecords(TerminalReverses(e.reverses), p.reverses, storage, now)
    case RecoveryExport => RecoveryRecords(e.exports, RecoveryExport, p.exports, e.pendingPackage, storage, now)
    case RecoveryCheckpoint =>
      RecoveryRecords(e.checkpoints, RecoveryCheckpoint, p.checkpoints, e.pendingCheckpoint, storage, now)
  }

  lemma ListedByKind(e: Estate, p: Policy, storage: Storage, now: int, c: Candidate)
    ensures c in Inventory(e, p, storage, now) <==> c in PartFor(c.location.kind, e, p, storage, now)
  {
    InventoryListed(e, p, storage, now);
    KindsOfParts(e, p, storage, now);
  }

  /** The inventory lists exactly those. */
  lemma InventoryExactly(e: Estate, p: Policy, storage: Storage, now: int, c: Candidate)
    requires UniqueIds(e)
    ensures c in Inventory(e, p, storage, now) <==> Taken(c, e, p, storage, now)
  {
    ListedByKind(e, p, storage, now, c);
    match c.location.kind {
      case TenantGeneration => GenerationsExactly(e, p.generations, storage, now, c);
      case ReverseSnapshot => SnapshotsExactly(e, p.reverses, storage, now, c);
      case RecoveryExport =>
        FilesExactly(e.exports, RecoveryExport, p.exports, e.pendingPackage, storage, now, c);
      case RecoveryCheckpoint =>
        FilesExactly(e.checkpoints, RecoveryCheckpoint, p.checkpoints, e.pendingCheckpoint, storage, now, c);
    }
  }

  // Both directions without ties: no older others are enough to keep, newer ones enough to take.

  ghost function OtherGenerations(e: Estate, m: Migration, newer: bool): set<string> {
    set n | n in e.migrations && Ended(n, e) && n.tenant == m.tenant && n.generation != m.generation
         && if newer then Older(m.at, n.at) else !Older(n.at, m.at) :: n.generation
  }

  lemma GenerationCounts(e: Estate, m: Migration)
    requires UniqueGenerations(e.migrations) && m in e.migrations
    ensures |OtherGenerations(e, m, true)| <= |GenerationsAhead(e, m)| <= |OtherGenerations(e, m, false)|
  {
    OneMigration(e.migrations, m);
    NotBeforeItself(e.migrations, m);
    SubsetSize(OtherGenerations(e, m, true), GenerationsAhead(e, m));
    SubsetSize(GenerationsAhead(e, m), OtherGenerations(e, m, false));
  }

  lemma GenerationOf(c: Candidate, e: Estate, rule: Rule, storage: Storage, now: int, m: Migration)
    requires UniqueGenerations(e.migrations) && m in e.migrations && Ended(m, e)
    requires c.location == Location(TenantGeneration, m.tenant, m.generation)
    ensures GenerationTaken(c, e, rule, storage, now) <==>
              c.id == m.generation && Due(c, m.at, rule.minAge, storage, now) && |GenerationsAhead(e, m)| >= rule.keep
  {
    OneMigration(e.migrations, m);
  }

  lemma GenerationTakenExactly(e: Estate, p: Policy, storage: Storage, now: int, m: Migration)
    requires UniqueIds(e) && m in e.migrations && Ended(m, e)
    ensures var rule, l := p.generations, Location(TenantGeneration, m.tenant, m.generation);
            l in Locations(Inventory(e, p, storage, now)) <==>
              && m.at.Some? && now - m.at.value >= rule.minAge * 86400 && l in storage
              && |GenerationsAhead(e, m)| >= rule.keep
  {
    var rule, l := p.generations, Location(TenantGeneration, m.tenant, m.generation);
    if c :| c in Inventory(e, p, storage, now) && c.location == l {
      InventoryExactly(e, p, storage, now, c);
      GenerationOf(c, e, rule, storage, now, m);
    }
    if m.at.Some? && l in storage {
      var c := Candidate(m.generation, l, m.at, storage[l]);
      InventoryExactly(e, p, storage, now, c);
      GenerationOf(c, e, rule, storage, now, m);
    }
  }

  /** A generation is taken only if enough others are no older, and surely if enough are newer. */
  lemma GenerationsByTime(e: Estate, p: Policy, storage: Storage, now: int, m: Migration)
    requires UniqueIds(e) && m in e.migrations && Ended(m, e)
    ensures var rule, l := p.generations, Location(TenantGeneration, m.tenant, m.generation);
            var aged := m.at.Some? && now - m.at.value >= rule.minAge * 86400 && l in storage;
            && (l in Locations(Inventory(e, p, storage, now)) ==>
                  aged && |OtherGenerations(e, m, false)| >= rule.keep)
            && (aged && |OtherGenerations(e, m, true)| >= rule.keep ==> l in Locations(Inventory(e, p, storage, now)))
  {
    GenerationCounts(e, m);
    GenerationTakenExactly(e, p, storage, now, m);
  }

  ghost function OtherSnapshots(e: Estate, r: Reverse, newer: bool): set<string> {
    set q | q in e.reverses && Settled(q) && q.tenant == r.tenant && q.id != r.id
         && if newer then Older(r.at, q.at) else !Older(q.at, r.at) :: q.id
  }

  lemma SnapshotCounts(e: Estate, r: Reverse)
    requires UniqueReverses(e.reverses) && r in e.reverses
    ensures |OtherSnapshots(e, r, true)| <= |SnapshotsAhead(e, r)| <= |OtherSnapshots(e, r, false)|
  {
    OneReverse(e.reverses, r);
    NotBeforeItself(e.reverses, r);
    SubsetSize(OtherSnapshots(e, r, true), SnapshotsAhead(e, r));
    SubsetSize(SnapshotsAhead(e, r), OtherSnapshots(e, r, false));
  }

  lemma SnapshotOf(c: Candidate, e: Estate, rule: Rule, storage: Storage, now: int, r: Reverse)
    requires UniqueReverses(e.reverses) && r in e.reverses && Settled(r)
    requires c.location == Location(ReverseSnapshot, r.tenant, r.id)
    ensures SnapshotTaken(c, e, rule, storage, now) <==>
              c.id == r.id && Due(c, r.at, rule.minAge, storage, now) && |SnapshotsAhead(e, r)| >= rule.keep
  {
    OneReverse(e.reverses, r);
  }

  lemma SnapshotTakenExactly(e: Estate, p: Policy, storage: Storage, now: int, r: Reverse)
    requires UniqueIds(e) && r in e.reverses && Settled(r)
    ensures var rule, l := p.reverses, Location(ReverseSnapshot, r.tenant, r.id);
            l in Locations(Inventory(e, p, storage, now)) <==>
              && r.at.Some? && now - r.at.value >= rule.minAge * 86400 && l in storage
              && |SnapshotsAhead(e, r)| >= rule.keep
  {
    var rule, l := p.reverses, Location(ReverseSnapshot, r.tenant, r.id);
    if c :| c in Inventory(e, p, storage, now) && c.location == l {
      InventoryExactly(e, p, storage, now, c);
      SnapshotOf(c, e, rule, storage, now, r);
    }
    if r.at.Some? && l in storage {
      var c := Candidate(r.id, l, r.at, storage[l]);
      InventoryExactly(e, p, storage, now, c);
      SnapshotOf(c, e, rule, storage, now, r);
    }
  }

  lemma SnapshotsByTime(e: Estate, p: Policy, storage: Storage, now: int, r: Reverse)
    requires UniqueIds(e) && r in e.reverses && Settled(r)
    ensures var rule, l := p.reverses, Location(ReverseSnapshot, r.tenant, r.id);
            var aged := r.at.Some? && now - r.at.value >= rule.minAge * 86400 && l in storage;
            && (l in Locations(Inventory(e, p, storage, now)) ==> aged && |OtherSnapshots(e, r, false)| >= rule.keep)
            && (aged && |OtherSnapshots(e, r, true)| >= rule.keep ==> l in Locations(Inventory(e, p, storage, now)))
  {
    SnapshotCounts(e, r);
    SnapshotTakenExactly(e, p, storage, now, r);
  }

  ghost function OtherFiles(files: seq<RecoveryFile>, kind: StorageKind, f: RecoveryFile, storage: Storage,
                            newer: bool): set<string> {
    set g | g in files && Location(kind, "", g.name) in storage && g.name != f.name
         && if newer then g.modifiedAt > f.modifiedAt else g.modifiedAt >= f.modifiedAt :: g.name
  }

  /** The same for the files of a recovery directory, whose package must not be the pending one. */
  lemma FilesByTime(files: seq<RecoveryFile>, kind: StorageKind, rule: Rule, pending: string, storage: Storage,
                    now: int, f: RecoveryFile)
    requires UniqueNames(files) && f in files
    ensures var l := Location(kind, "", f.name);
            var listed := l in Locations(RecoveryRecords(files, kind, rule, pending, storage, now));
            var aged := f.packageId != pending && now - f.modifiedAt >= rule.minAge * 86400 && l in storage;
            && (listed ==> aged && |OtherFiles(files, kind, f, storage, false)| >= rule.keep)
            && (aged && |OtherFiles(files, kind, f, storage, true)| >= rule.keep ==> listed)
  {
    var l := Location(kind, "", f.name);
    UniqueNamesAreDistinct(files);
    SubsetSize(OtherFiles(files, kind, f, storage, true), FilesAhead(files, kind, f, storage));
    SubsetSize(FilesAhead(files, kind, f, storage), OtherFiles(files, kind, f, storage, false));
    if c :| c in RecoveryRecords(files, kind, rule, pending, storage, now) && c.location == l {
      FilesExactly(files, kind, rule, pending, storage, now, c);
    }
    if f.packageId != pending && now - f.modifiedAt >= rule.minAge * 86400 && l in storage
       && |FilesAhead(files, kind, f, storage)| >= rule.keep {
      var c := Candidate(f.packageId, l, Some(f.modifiedAt), storage[l]);
      FilesExactly(files, kind, rule, pending, storage, now, c);
      assert FileRecordedAs(c, f, kind, rule.minAge, pending, storage, now);
    }
  }
}
