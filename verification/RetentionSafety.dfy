/** What no cleanup removes: every candidate of the inventory lies outside the shielded storage. */
module RetentionSafety {
  import opened Common
  import opened Sorting
  import opened Retention
  import opened RetentionRows
  import opened RetentionTimes

  /** One of the tenant's newest `keep`: fewer go before it. */
  ghost predicate AmongNewest(l: Location, vs: seq<Retained>, keep: nat) {
    exists v :: v in vs && Location(v.kind, v.tenant, v.id) == l && |RowsAhead(vs, v)| < keep
  }

  lemma NewestAreNotBeyond(l: Location, vs: seq<Retained>, keep: nat)
    requires UniquePlaces(vs) && AmongNewest(l, vs, keep)
    ensures !BeyondNewest(l, vs, keep)
  {
    var v :| v in vs && Place(v) == l && |RowsAhead(vs, v)| < keep;
    BeyondExactly(vs, v, keep);
    OrderedListed(vs, l.tenant);
    forall u | u in Beyond(Ordered(vs, l.tenant), keep)
      ensures Place(u) != l
    {
      assert u in Ordered(vs, l.tenant);
      if Place(u) == l {
        SameRow(vs, u, v);
      }
    }
  }

  // What is shielded.

  ghost predicate GenerationShielded(l: Location, e: Estate, keep: nat) {
    || InUse(l.name, e)
    || exists m :: m in e.migrations && Ended(m, e) && m.tenant == l.tenant && m.generation == l.name
         && |GenerationsAhead(e, m)| < keep
  }

  ghost predicate SnapshotShielded(l: Location, e: Estate, keep: nat) {
    exists r :: r in e.reverses && r.tenant == l.tenant && r.id == l.name
      && (Underway(r) || (Settled(r) && |SnapshotsAhead(e, r)| < keep))
  }

  ghost predicate FileShielded(l: Location, files: seq<RecoveryFile>, keep: nat, pending: string, storage: Storage) {
    exists f :: f in files && Location(l.kind, "", f.name) == l
      && (f.packageId == pending || |FilesAhead(files, l.kind, f, storage)| < keep)
  }

  /**
   Storage that must survive: active, pending, rollback-source and reverse-source generations; each
   tenant's newest terminal generations and reverse snapshots; reverse migrations in flight; recovery
   files a pending restore names; and the newest files of each recovery directory.
   */
  ghost predicate Shielded(l: Location, e: Estate, p: Policy, storage: Storage) {
    match l.kind
    case TenantGeneration => GenerationShielded(l, e, p.generations.keep)
    case ReverseSnapshot => SnapshotShielded(l, e, p.reverses.keep)
    case RecoveryExport => FileShielded(l, e.exports, p.exports.keep, e.pendingPackage, storage)
    case RecoveryCheckpoint => FileShielded(l, e.checkpoints, p.checkpoints.keep, e.pendingCheckpoint, storage)
  }

  lemma ShieldedGenerationIsNotTaken(l: Location, e: Estate, rule: Rule, storage: Storage, now: int, c: Candidate)
    requires UniqueIds(e) && GenerationShielded(l, e, rule.keep) && GenerationTaken(c, e, rule, storage, now)
    ensures c.location != l
  {
    forall m | m in e.migrations && Ended(m, e) && |GenerationsAhead(e, m)| >= rule.keep
      ensures m.tenant != l.tenant || m.generation != l.name
    {
      OneMigration(e.migrations, m);
    }
  }

  lemma ShieldedSnapshotIsNotTaken(l: Location, e: Estate, rule: Rule, storage: Storage, now: int, c: Candidate)
    requires UniqueIds(e) && SnapshotShielded(l, e, rule.keep) && SnapshotTaken(c, e, rule, storage, now)
    ensures c.location != l
  {
    forall r | r in e.reverses && Settled(r) && |SnapshotsAhead(e, r)| >= rule.keep
      ensures r.tenant != l.tenant || r.id != l.name
    {
      OneReverse(e.reverses, r);
    }
  }

  lemma ShieldedFileIsNotTaken(l: Location, files: seq<RecoveryFile>, kind: StorageKind, rule: Rule, pending: string,
                               storage: Storage, now: int, c: Candidate)
    requires UniqueNames(files) && l.kind == kind && FileShielded(l, files, rule.keep, pending, storage)
    requires FileTaken(c, files, kind, rule, pending, storage, now)
    ensures c.location != l
  {
    UniqueNamesAreDistinct(files);
  }

  /** Nothing shielded is ever a candidate. */
  lemma ShieldedIsNoCandidate(l: Location, e: Estate, p: Policy, storage: Storage, now: int)
    requires UniqueIds(e) && Shielded(l, e, p, storage)
    ensures l !in Locations(Inventory(e, p, storage, now))
    ensures l !in Locations(Preview(e, p, storage, now))
  {
    InventoryListed(e, p, storage, now);
    forall c | c in Inventory(e, p, storage, now)
      ensures c.location != l
    {
      InventoryExactly(e, p, storage, now, c);
      if c.location.kind == l.kind {
        TakenIsNotShielded(l, e, p, storage, now, c);
      }
    }
  }

  lemma TakenIsNotShielded(l: Location, e: Estate, p: Policy, storage: Storage, now: int, c: Candidate)
    requires UniqueIds(e) && Shielded(l, e, p, storage) && Taken(c, e, p, storage, now) && c.location.kind == l.kind
    ensures c.location != l
  {
    match l.kind {
      case TenantGeneration => ShieldedGenerationIsNotTaken(l, e, p.generations, storage, now, c);
      case ReverseSnapshot => ShieldedSnapshotIsNotTaken(l, e, p.reverses, storage, now, c);
      case RecoveryExport =>
        ShieldedFileIsNotTaken(l, e.exports, RecoveryExport, p.exports, e.pendingPackage, storage, now, c);
      case RecoveryCheckpoint =>
        ShieldedFileIsNotTaken(l, e.checkpoints, RecoveryCheckpoint, p.checkpoints, e.pendingCheckpoint, storage, now,
                               c);
    }
  }
}
