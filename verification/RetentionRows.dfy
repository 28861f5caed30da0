/** What the four parts of the inventory list, and why nothing in them is listed twice. */
module RetentionRows {
  import opened Common
  import opened Sorting
  import opened Retention

  // What is listed, and why.

  lemma {:induction false} RecordsListed(vs: seq<Retained>, minAge: nat, storage: Storage, now: int)
    ensures forall c :: c in Records(vs, minAge, storage, now) ==>
              && c.location in storage && storage[c.location] == c.content
              && exists v :: v in vs && Place(v) == c.location && v.at == c.createdAt && OldEnough(v.at, minAge, now)
  {
    if vs != [] {
      RecordsListed(vs[..|vs| - 1], minAge, storage, now);
    }
  }

  lemma OrderedListed(vs: seq<Retained>, tenant: string)
    ensures forall v :: v in Ordered(vs, tenant) <==> v in vs && v.tenant == tenant
    ensures Distinct(vs) ==> Distinct(Ordered(vs, tenant))
  {
    FilterMembers((v: Retained) => v.tenant == tenant, vs);
    SortPermutes(NewestFirst, OfTenant(vs, tenant));
    if Distinct(vs) {
      FilterDistinct((v: Retained) => v.tenant == tenant, vs);
      SortDistinct(NewestFirst, OfTenant(vs, tenant));
    }
  }

  /** A retained record stands beyond its tenant's newest. */
  ghost predicate BeyondNewest(l: Location, vs: seq<Retained>, keep: nat) {
    exists v :: v in Beyond(Ordered(vs, l.tenant), keep) && Place(v) == l
  }

  lemma {:induction false} RecordsOfListed(tenants: seq<string>, vs: seq<Retained>, rule: Rule, storage: Storage,
                                           now: int)
    ensures forall c :: c in RecordsOf(tenants, vs, rule, storage, now) ==>
              && c.location in storage && storage[c.location] == c.content
              && c.location.tenant in tenants && BeyondNewest(c.location, vs, rule.keep)
              && OldEnough(c.createdAt, rule.minAge, now)
  {
    if tenants != [] {
      var t := tenants[|tenants| - 1];
      RecordsOfListed(tenants[..|tenants| - 1], vs, rule, storage, now);
      RecordsListed(Beyond(Ordered(vs, t), rule.keep), rule.minAge, storage, now);
      OrderedListed(vs, t);
      assert forall v :: v in Beyond(Ordered(vs, t), rule.keep) ==> v in Ordered(vs, t) && v.tenant == t;
    }
  }

  lemma {:induction false} FileRecordsListed(fs: seq<RecoveryFile>, kind: StorageKind, minAge: nat, pending: string,
                                             storage: Storage, now: int)
    ensures forall c :: c in FileRecords(fs, kind, minAge, pending, storage, now) ==>
              && c.location in storage && storage[c.location] == c.content
              && OldEnough(c.createdAt, minAge, now)
              && exists f :: f in fs && FilePlace(kind, f) == c.location && f.packageId != pending
  {
    if fs != [] {
      FileRecordsListed(fs[..|fs| - 1], kind, minAge, pending, storage, now);
    }
  }

  lemma ListingListed(files: seq<RecoveryFile>, kind: StorageKind, storage: Storage)
    ensures forall f :: f in Listing(files, kind, storage) <==> f in files && FilePlace(kind, f) in storage
    ensures Distinct(files) ==> Distinct(Listing(files, kind, storage))
  {
    FilterMembers(Present(kind, storage), files);
    SortPermutes(LatestFirst, Filter(Present(kind, storage), files));
    if Distinct(files) {
      FilterDistinct(Present(kind, storage), files);
      SortDistinct(LatestFirst, Filter(Present(kind, storage), files));
    }
  }

  lemma {:induction false} TerminalGenerationsListed(ms: seq<Migration>, e: Estate)
    ensures forall v :: v in TerminalGenerations(ms, e) ==>
              && v.kind.TenantGeneration? && v.id !in ProtectedGenerations(e)
              && exists m :: m in ms && TerminalMigration(m, e) && m.tenant == v.tenant && m.generation == v.id
  {
    if ms != [] {
      TerminalGenerationsListed(ms[1..], e);
    }
  }

  lemma {:induction false} TerminalReversesListed(rs: seq<Reverse>)
    ensures forall v :: v in TerminalReverses(rs) ==>
              && v.kind.ReverseSnapshot?
              && exists r :: r in rs && !ReverseInFlight(r) && r.tenant == v.tenant && r.id == v.id
  {
    if rs != [] {
      TerminalReversesListed(rs[1..]);
    }
  }

  // Ids are unique: what makes "the newest keep" a set of generations.

  ghost predicate UniqueIds(e: Estate) {
    && (forall i, j :: 0 <= i < j < |e.migrations| ==>
          e.migrations[i].tenant != e.migrations[j].tenant || e.migrations[i].generation != e.migrations[j].generation)
    && (forall i, j :: 0 <= i < j < |e.reverses| ==>
          e.reverses[i].tenant != e.reverses[j].tenant || e.reverses[i].id != e.reverses[j].id)
    && UniqueNames(e.exports) && UniqueNames(e.checkpoints)
  }

  ghost predicate UniqueNames(files: seq<RecoveryFile>) {
    forall i, j :: 0 <= i < j < |files| ==> files[i].name != files[j].name
  }

  ghost predicate UniquePlaces(vs: seq<Retained>) {
    forall i, j :: 0 <= i < j < |vs| ==> Place(vs[i]) != Place(vs[j])
  }

  lemma {:induction false} TerminalGenerationsUnique(ms: seq<Migration>, e: Estate)
    requires forall i, j :: 0 <= i < j < |ms| ==> ms[i].tenant != ms[j].tenant || ms[i].generation != ms[j].generation
    ensures UniquePlaces(TerminalGenerations(ms, e))
  {
    if ms != [] {
      TerminalGenerationsUnique(ms[1..], e);
      TerminalGenerationsListed(ms[1..], e);
      var rest := TerminalGenerations(ms[1..], e);
      forall k | 0 <= k < |rest|
        ensures rest[k].tenant != ms[0].tenant || rest[k].id != ms[0].generation
      {
        assert rest[k] in rest;
      }
    }
  }

  lemma {:induction false} TerminalReversesUnique(rs: seq<Reverse>)
    requires forall i, j :: 0 <= i < j < |rs| ==> rs[i].tenant != rs[j].tenant || rs[i].id != rs[j].id
    ensures UniquePlaces(TerminalReverses(rs))
  {
    if rs != [] {
      TerminalReversesUnique(rs[1..]);
      TerminalReversesListed(rs[1..]);
      var rest := TerminalReverses(rs[1..]);
      forall k | 0 <= k < |rest|
        ensures rest[k].tenant != rs[0].tenant || rest[k].id != rs[0].id
      {
        assert rest[k] in rest;
      }
    }
  }

  lemma UniqueNamesAreDistinct(files: seq<RecoveryFile>)
    requires UniqueNames(files)
    ensures Distinct(files)
    ensures forall f, g :: f in files && g in files && f.name == g.name ==> f == g
  {
    forall f, g | f in files && g in files && f.name == g.name
      ensures f == g
    {
      var i :| 0 <= i < |files| && files[i] == f;
      var j :| 0 <= j < |files| && files[j] == g;
    }
  }

  lemma InventoryListed(e: Estate, p: Policy, storage: Storage, now: int)
    ensures forall c :: c in Inventory(e, p, storage, now) <==> c in Unsorted(e, p, storage, now)
    ensures forall c :: c in Preview(e, p, storage, now) ==> c in Inventory(e, p, storage, now)
  {
    SortPermutes(PreviewOrder, Unsorted(e, p, storage, now));
  }

  /** The kinds of the four parts of the inventory. */
  lemma KindsOfParts(e: Estate, p: Policy, storage: Storage, now: int)
    ensures forall c :: c in RetainedRecords(TerminalGenerations(e.migrations, e), p.generations, storage, now) ==>
              c.location.kind.TenantGeneration?
    ensures forall c :: c in RetainedRecords(TerminalReverses(e.reverses), p.reverses, storage, now) ==>
              c.location.kind.ReverseSnapshot?
    ensures forall c :: c in RecoveryRecords(e.exports, RecoveryExport, p.exports, e.pendingPackage, storage, now) ==>
              c.location.kind.RecoveryExport?
    ensures forall c :: c in RecoveryRecords(e.checkpoints, RecoveryCheckpoint, p.checkpoints,
                                             e.pendingCheckpoint, storage, now) ==>
              c.location.kind.RecoveryCheckpoint?
  {
    var gs, rs := TerminalGenerations(e.migrations, e), TerminalReverses(e.reverses);
    TerminalGenerationsListed(e.migrations, e);
    TerminalReversesListed(e.reverses);
    RetainedKinds(gs, TenantGeneration, p.generations, storage, now);
    RetainedKinds(rs, ReverseSnapshot, p.reverses, storage, now);
    FileRecordsListed(Beyond(Listing(e.exports, RecoveryExport, storage), p.exports.keep), RecoveryExport,
                      p.exports.minAge, e.pendingPackage, storage, now);
    FileRecordsListed(Beyond(Listing(e.checkpoints, RecoveryCheckpoint, storage), p.checkpoints.keep),
                      RecoveryCheckpoint, p.checkpoints.minAge, e.pendingCheckpoint, storage, now);
  }

  lemma RetainedKinds(vs: seq<Retained>, kind: StorageKind, rule: Rule, storage: Storage, now: int)
    requires forall v :: v in vs ==> v.kind == kind
    ensures forall c :: c in RetainedRecords(vs, rule, storage, now) ==> c.location.kind == kind
  {
    RecordsOfListed(Tenants(vs), vs, rule, storage, now);
    forall c | c in RetainedRecords(vs, rule, storage, now)
      ensures c.location.kind == kind
    {
      OrderedListed(vs, c.location.tenant);
      var v :| v in Beyond(Ordered(vs, c.location.tenant), rule.keep) && Place(v) == c.location;
      assert v in Ordered(vs, c.location.tenant);
    }
  }
}
