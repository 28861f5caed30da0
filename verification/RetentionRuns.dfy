/** Sequences of cleanups: what survives all of them, and how soon the inventory is empty. */
module RetentionRuns {
  import opened Common
  import opened Sorting
  import opened Retention
  import opened RetentionRows
  import opened RetentionTimes
  import opened RetentionSafety

  /** The metadata, policy and clock one cleanup works with. */
  datatype Setting = Setting(estate: Estate, policy: Policy, now: int)

  /**
   What `Execute` does to the storage when nothing else writes to it: only previewed locations lose or
   change anything. A refused execution is one that changes nothing.
   */
  ghost predicate Cleans(before: Storage, after: Storage, s: Setting) {
    forall l :: l in before && l !in Locations(Preview(s.estate, s.policy, before, s.now)) ==>
      l in after && after[l] == before[l]
  }

  ghost predicate Campaign(storages: seq<Storage>, settings: seq<Setting>) {
    && |storages| == |settings| + 1
    && forall i :: 0 <= i < |settings| ==>
         UniqueIds(settings[i].estate) && Cleans(storages[i], storages[i + 1], settings[i])
  }

  /** Storage that is shielded whenever a cleanup runs survives all of them, unchanged. */
  lemma {:induction false} ShieldedStorageSurvives(storages: seq<Storage>, settings: seq<Setting>, l: Location, n: nat)
    requires Campaign(storages, settings) && n < |storages|
    requires l in storages[0]
    requires forall i :: 0 <= i < n ==> Shielded(l, settings[i].estate, settings[i].policy, storages[i])
    ensures l in storages[n] && storages[n][l] == storages[0][l]
  {
    if n > 0 {
      ShieldedStorageSurvives(storages, settings, l, n - 1);
      var s := settings[n - 1];
      assert Shielded(l, s.estate, s.policy, storages[n - 1]);
      ShieldedIsNoCandidate(l, s.estate, s.policy, storages[n - 1], s.now);
    }
  }

  // The newest files of a directory stay, so it never falls below its floor.

  lemma {:induction false} FilterGrows<T>(p: T -> bool, q: T -> bool, s: seq<T>)
    requires forall x :: x in s && p(x) ==> q(x)
    ensures |Filter(p, s)| <= |Filter(q, s)|
  {
    if s != [] {
      FilterGrows(p, q, s[1..]);
    }
  }

  /** The directory a kind of recovery file lives in, and its keep count. */
  predicate IsDirectory(files: seq<RecoveryFile>, kind: StorageKind, keep: nat, s: Setting) {
    (kind.RecoveryExport? && files == s.estate.exports && keep == s.policy.exports.keep)
    || (kind.RecoveryCheckpoint? && files == s.estate.checkpoints && keep == s.policy.checkpoints.keep)
  }

  lemma NewestFilesAreShielded(files: seq<RecoveryFile>, kind: StorageKind, keep: nat, s: Setting, storage: Storage,
                               i: nat)
    requires UniqueIds(s.estate) && IsDirectory(files, kind, keep, s) && i < keep && i < |Listing(files, kind, storage)|
    ensures var f := Listing(files, kind, storage)[i];
            FilePlace(kind, f) in storage && Shielded(FilePlace(kind, f), s.estate, s.policy, storage)
  {
    ListingListed(files, kind, storage);
    ListingPlace(files, kind, storage, i);
    assert Listing(files, kind, storage)[i] in Listing(files, kind, storage);
  }

  lemma NewestFilesRemain(files: seq<RecoveryFile>, kind: StorageKind, keep: nat, s: Setting, before: Storage,
                          after: Storage, i: nat)
    requires UniqueIds(s.estate) && Cleans(before, after, s) && IsDirectory(files, kind, keep, s)
    requires i < keep && i < |Listing(files, kind, before)|
    ensures FilePlace(kind, Listing(files, kind, before)[i]) in after
  {
    var l := FilePlace(kind, Listing(files, kind, before)[i]);
    NewestFilesAreShielded(files, kind, keep, s, before, i);
    ShieldedIsNoCandidate(l, s.estate, s.policy, before, s.now);
  }

  /** A cleanup leaves each recovery directory its newest files: never fewer than the keep count. */
  lemma DirectoryKeepsItsFloor(files: seq<RecoveryFile>, kind: StorageKind, keep: nat, s: Setting, before: Storage,
                               after: Storage)
    requires UniqueIds(s.estate) && Cleans(before, after, s) && IsDirectory(files, kind, keep, s)
    ensures |Listing(files, kind, after)| >= Min(keep, |Listing(files, kind, before)|)
  {
    var listed := Listing(files, kind, before);
    forall i: nat | i < keep && i < |listed|
      ensures FilePlace(kind, listed[i]) in after
    {
      NewestFilesRemain(files, kind, keep, s, before, after, i);
    }
    FirstsAreCounted(Present(kind, after), listed, Min(keep, |listed|));
    StillListed(files, kind, before, after);
  }

  lemma FirstsAreCounted<T>(keep: T -> bool, s: seq<T>, n: nat)
    requires n <= |s| && forall i :: 0 <= i < n ==> keep(s[i])
    ensures |Filter(keep, s)| >= n
  {
    assert s == s[..n] + s[n..];
    FilterConcat(keep, s[..n], s[n..]);
    FilterAll(keep, s[..n]);
  }

  /** The files of a listing that are still there are among those listed afterwards. */
  lemma StillListed(files: seq<RecoveryFile>, kind: StorageKind, before: Storage, after: Storage)
    ensures |Filter(Present(kind, after), Listing(files, kind, before))| <= |Listing(files, kind, after)|
  {
    var was, still := Present(kind, before), Present(kind, after);
    SortFilter(LatestFirst, still, Filter(was, files));
    SortPermutes(LatestFirst, Filter(still, Filter(was, files)));
    SortPermutes(LatestFirst, Filter(still, files));
    var both := (f: RecoveryFile) => was(f) && still(f);
    FilterTwice(was, still, both, files);
    FilterGrows(both, still, files);
  }

  // Convergence.

  function Without(storage: Storage, gone: set<Location>): Storage {
    map l | l in storage && l !in gone :: storage[l]
  }

  function Untouched(gone: set<Location>): Candidate -> bool {
    (c: Candidate) => c.location !in gone
  }

  lemma {:induction false} RecordsWithout(vs: seq<Retained>, minAge: nat, storage: Storage, gone: set<Location>,
                                          now: int)
    ensures Records(vs, minAge, Without(storage, gone), now)
            == Filter(Untouched(gone), Records(vs, minAge, storage, now))
  {
    if vs != [] {
      var front, last := vs[..|vs| - 1], vs[|vs| - 1];
      RecordsWithout(front, minAge, storage, gone, now);
      FilterConcat(Untouched(gone), Records(front, minAge, storage, now), RecordOf(last, minAge, storage, now));
    }
  }

  lemma {:induction false} RecordsOfWithout(tenants: seq<string>, vs: seq<Retained>, rule: Rule, storage: Storage,
                                            gone: set<Location>, now: int)
    ensures RecordsOf(tenants, vs, rule, Without(storage, gone), now)
         == Filter(Untouched(gone), RecordsOf(tenants, vs, rule, storage, now))
  {
    if tenants != [] {
      var front, t := tenants[..|tenants| - 1], tenants[|tenants| - 1];
      var rest := Beyond(Ordered(vs, t), rule.keep);
      RecordsOfWithout(front, vs, rule, storage, gone, now);
      RecordsWithout(rest, rule.minAge, storage, gone, now);
      FilterConcat(Untouched(gone), RecordsOf(front, vs, rule, storage, now), Records(rest, rule.minAge, storage, now));
    }
  }

  function FileUntouched(kind: StorageKind, gone: set<Location>): RecoveryFile -> bool {
    (f: RecoveryFile) => FilePlace(kind, f) !in gone
  }

  lemma FileRecordsSnoc(fs: seq<RecoveryFile>, f: RecoveryFile, kind: StorageKind, minAge: nat, pending: string,
                        storage: Storage, now: int)
    ensures FileRecords(fs + [f], kind, minAge, pending, storage, now)
         == FileRecords(fs, kind, minAge, pending, storage, now) + FileRecord(f, kind, minAge, pending, storage, now)
  {
    assert (fs + [f])[..|fs + [f]| - 1] == fs;
  }

  lemma FileRecordWithout(f: RecoveryFile, kind: StorageKind, minAge: nat, pending: string, storage: Storage,
                          gone: set<Location>, now: int)
    ensures Filter(Untouched(gone), FileRecord(f, kind, minAge, pending, storage, now))
         == if FileUntouched(kind, gone)(f)
            then FileRecord(f, kind, minAge, pending, Without(storage, gone), now) else []
  {
  }

  lemma {:induction false} FileRecordsWithout(fs: seq<RecoveryFile>, kind: StorageKind, minAge: nat, pending: string,
                                              storage: Storage, gone: set<Location>, now: int)
    ensures FileRecords(Filter(FileUntouched(kind, gone), fs), kind, minAge, pending, Without(storage, gone), now)
         == Filter(Untouched(gone), FileRecords(fs, kind, minAge, pending, storage, now))
  {
    if fs != [] {
      var front, last := fs[..|fs| - 1], fs[|fs| - 1];
      var kept := Filter(FileUntouched(kind, gone), front);
      assert fs == front + [last];
      FileRecordsWithout(front, kind, minAge, pending, storage, gone, now);
      FilterConcat(FileUntouched(kind, gone), front, [last]);
      FilterConcat(Untouched(gone), FileRecords(front, kind, minAge, pending, storage, now),
                   FileRecord(last, kind, minAge, pending, storage, now));
      FileRecordWithout(last, kind, minAge, pending, storage, gone, now);
      OneFiltered(FileUntouched(kind, gone), last);
      if FileUntouched(kind, gone)(last) {
        FileRecordsSnoc(kept, last, kind, minAge, pending, Without(storage, gone), now);
      } else {
        assert Filter(FileUntouched(kind, gone), fs) == kept;
      }
    }
  }

  lemma OneFiltered<T>(keep: T -> bool, x: T)
    ensures Filter(keep, [x]) == if keep(x) then [x] else []
  {
  }

  lemma ListingWithout(files: seq<RecoveryFile>, kind: StorageKind, storage: Storage, gone: set<Location>)
    ensures Listing(files, kind, Without(storage, gone))
            == Filter(FileUntouched(kind, gone), Listing(files, kind, storage))
  {
    FilterTwice(Present(kind, storage), FileUntouched(kind, gone), Present(kind, Without(storage, gone)), files);
    SortFilter(LatestFirst, FileUntouched(kind, gone), Filter(Present(kind, storage), files));
  }

  /** When only files beyond the newest go, the next files beyond the newest are what is left of them. */
  lemma BeyondWithout(s: seq<RecoveryFile>, keep: nat, untouched: RecoveryFile -> bool)
    requires forall i :: 0 <= i < keep && i < |s| ==> untouched(s[i])
    ensures Beyond(Filter(untouched, s), keep) == Filter(untouched, Beyond(s, keep))
  {
    if |s| <= keep {
      FilterAll(untouched, s);
    } else {
      var front, rest := s[..keep], s[keep..];
      BeyondFiltered(front, rest, untouched);
      assert front + rest == s;
    }
  }

  lemma BeyondFiltered(front: seq<RecoveryFile>, rest: seq<RecoveryFile>, untouched: RecoveryFile -> bool)
    requires forall i :: 0 <= i < |front| ==> untouched(front[i])
    ensures Beyond(Filter(untouched, front + rest), |front|) == Filter(untouched, rest)
    ensures Beyond(front + rest, |front|) == rest
  {
    FilterConcat(untouched, front, rest);
    FilterAll(untouched, front);
    BeyondFront(front, Filter(untouched, rest));
    BeyondFront(front, rest);
  }

  lemma BeyondFront<T>(front: seq<T>, rest: seq<T>)
    ensures Beyond(front + rest, |front|) == rest
  {
  }

  lemma RecoveryRecordsWithout(files: seq<RecoveryFile>, kind: StorageKind, rule: Rule, pending: string,
                               storage: Storage, gone: set<Location>, now: int)
    requires forall i :: 0 <= i < rule.keep && i < |Listing(files, kind, storage)| ==>
               FilePlace(kind, Listing(files, kind, storage)[i]) !in gone
    ensures RecoveryRecords(files, kind, rule, pending, Without(storage, gone), now)
         == Filter(Untouched(gone), RecoveryRecords(files, kind, rule, pending, storage, now))
  {
    var s := Listing(files, kind, storage);
    ListingWithout(files, kind, storage, gone);
    BeyondWithout(s, rule.keep, FileUntouched(kind, gone));
    FileRecordsWithout(Beyond(s, rule.keep), kind, rule.minAge, pending, storage, gone, now);
  }

  lemma NewestFilesStay(files: seq<RecoveryFile>, kind: StorageKind, keep: nat, s: Setting, storage: Storage,
                        gone: set<Location>)
    requires UniqueIds(s.estate) && gone <= Locations(Inventory(s.estate, s.policy, storage, s.now))
    requires IsDirectory(files, kind, keep, s)
    ensures forall i :: 0 <= i < keep && i < |Listing(files, kind, storage)| ==>
              FilePlace(kind, Listing(files, kind, storage)[i]) !in gone
  {
    var listed := Listing(files, kind, storage);
    forall i | 0 <= i < keep && i < |listed|
      ensures FilePlace(kind, listed[i]) !in gone
    {
      NewestFilesAreShielded(files, kind, keep, s, storage, i);
      ShieldedIsNoCandidate(FilePlace(kind, listed[i]), s.estate, s.policy, storage, s.now);
    }
  }

  lemma PreviewOrderIsOrder()
    ensures TotalPreorder(PreviewOrder)
  {
    LexOrder();
    forall c, d
      ensures PreviewOrder(c, d) || PreviewOrder(d, c)
    {
      LexTotal(c.id, d.id);
      LexTotal(KindName(c.location.kind), KindName(d.location.kind));
    }
    forall c, d, b | PreviewOrder(c, d) && PreviewOrder(d, b)
      ensures PreviewOrder(c, b)
    {
      PreviewOrderTransitive(c, d, b);
    }
  }

  lemma PreviewOrderTransitive(c: Candidate, d: Candidate, b: Candidate)
    requires PreviewOrder(c, d) && PreviewOrder(d, b)
    ensures PreviewOrder(c, b)
  {
    if c.createdAt == d.createdAt == b.createdAt {
      if c.location.kind == d.location.kind == b.location.kind {
        LexTransitive(c.id, d.id, b.id);
      } else {
        KindsOrdered(c.location.kind, d.location.kind, b.location.kind);
      }
    }
  }

  /** The names of the kinds order them: no two of them share a place. */
  lemma KindsOrdered(k: StorageKind, l: StorageKind, m: StorageKind)
    requires k == l || LexLe(KindName(k), KindName(l))
    requires l == m || LexLe(KindName(l), KindName(m))
    requires k != l || l != m
    ensures k != m && LexLe(KindName(k), KindName(m))
  {
    if k != l && l != m {
      LexTransitive(KindName(k), KindName(l), KindName(m));
    }
    LexTotal(KindName(k), KindName(l));
    KindNamesDiffer(k, l);
  }

  lemma KindNamesDiffer(k: StorageKind, l: StorageKind)
    ensures KindName(k) == KindName(l) ==> k == l
  {
    assert KindName(k)[0] == KindName(l)[0] && |KindName(k)| == |KindName(l)| ==> k == l;
  }

  /** Checkpoints before exports before snapshots before generations. */
  function KindRank(k: StorageKind): nat {
    match k
    case RecoveryCheckpoint => 0
    case RecoveryExport => 1
    case ReverseSnapshot => 2
    case TenantGeneration => 3
  }

  lemma KindsInOrder(k: StorageKind, l: StorageKind)
    ensures LexLe(KindName(k), KindName(l)) <==> KindRank(k) <= KindRank(l)
  {
    if k == l {
      LexTotal(KindName(k), KindName(l));
    } else if KindRank(k) < KindRank(l) {
      KindComesFirst(k, l);
    } else {
      KindComesFirst(l, k);
    }
  }

  /** The first letter in which the names differ decides. */
  lemma KindComesFirst(k: StorageKind, l: StorageKind)
    requires KindRank(k) < KindRank(l)
    ensures LexLe(KindName(k), KindName(l)) && !LexLe(KindName(l), KindName(k))
  {
    var x, y := KindName(k), KindName(l);
    var i := if l.TenantGeneration? then 0 else if l.ReverseSnapshot? then 2 else 9;
    assert SmallerAt(x, y, i);
    LexLeMeans(x, y);
    LexTotal(x, y);
  }

  /** The oldest come first, then by kind, then by id; the preview is the first hundred. */
  lemma InventoryIsInOrder(s: Setting, storage: Storage)
    ensures var all := Inventory(s.estate, s.policy, storage, s.now);
            && (forall i, j :: 0 <= i < j < |all| ==>
                  && !Older(all[j].createdAt, all[i].createdAt)
                  && (all[i].createdAt == all[j].createdAt ==>
                        && KindRank(all[i].location.kind) <= KindRank(all[j].location.kind)
                        && (all[i].location.kind == all[j].location.kind ==> ComesBefore(all[i].id, all[j].id))))
            && Preview(s.estate, s.policy, storage, s.now) == if |all| <= 100 then all else all[..100]
  {
    var all := Inventory(s.estate, s.policy, storage, s.now);
    PreviewOrderIsOrder();
    SortSorts(PreviewOrder, Unsorted(s.estate, s.policy, storage, s.now));
    forall i, j | 0 <= i < j < |all|
      ensures !Older(all[j].createdAt, all[i].createdAt)
      ensures all[i].createdAt == all[j].createdAt ==>
                && KindRank(all[i].location.kind) <= KindRank(all[j].location.kind)
                && (all[i].location.kind == all[j].location.kind ==> ComesBefore(all[i].id, all[j].id))
    {
      assert PreviewOrder(all[i], all[j]);
      KindsInOrder(all[i].location.kind, all[j].location.kind);
      LexLeMeans(all[i].id, all[j].id);
    }
  }

  /** Removing candidates removes exactly them from the inventory. */
  lemma InventoryWithout(s: Setting, storage: Storage, gone: set<Location>)
    requires UniqueIds(s.estate) && gone <= Locations(Inventory(s.estate, s.policy, storage, s.now))
    ensures Inventory(s.estate, s.policy, Without(storage, gone), s.now)
         == Filter(Untouched(gone), Inventory(s.estate, s.policy, storage, s.now))
  {
    var e, p, now := s.estate, s.policy, s.now;
    var gs, rs := TerminalGenerations(e.migrations, e), TerminalReverses(e.reverses);
    RecordsOfWithout(Tenants(gs), gs, p.generations, storage, gone, now);
    RecordsOfWithout(Tenants(rs), rs, p.reverses, storage, gone, now);
    NewestFilesStay(e.exports, RecoveryExport, p.exports.keep, s, storage, gone);
    RecoveryRecordsWithout(e.exports, RecoveryExport, p.exports, e.pendingPackage, storage, gone, now);
    NewestFilesStay(e.checkpoints, RecoveryCheckpoint, p.checkpoints.keep, s, storage, gone);
    RecoveryRecordsWithout(e.checkpoints, RecoveryCheckpoint, p.checkpoints, e.pendingCheckpoint, storage, gone, now);
    FilterFour(Untouched(gone), RetainedRecords(gs, p.generations, storage, now),
               RetainedRecords(rs, p.reverses, storage, now),
               RecoveryRecords(e.exports, RecoveryExport, p.exports, e.pendingPackage, storage, now),
               RecoveryRecords(e.checkpoints, RecoveryCheckpoint, p.checkpoints, e.pendingCheckpoint, storage, now));
    PreviewOrderIsOrder();
    SortFilter(PreviewOrder, Untouched(gone), Unsorted(e, p, storage, now));
  }

  lemma FilterFour<T>(keep: T -> bool, a: seq<T>, b: seq<T>, c: seq<T>, d: seq<T>)
    ensures Filter(keep, a + b + c + d) == Filter(keep, a) + Filter(keep, b) + Filter(keep, c) + Filter(keep, d)
  {
    FilterConcat(keep, a, b);
    FilterConcat(keep, a + b, c);
    FilterConcat(keep, a + b + c, d);
  }

  // No location is listed twice.

  ghost predicate DistinctLocations(cs: seq<Candidate>) {
    forall i, j :: 0 <= i < j < |cs| ==> cs[i].location != cs[j].location
  }

  lemma JoinDistinct(a: seq<Candidate>, b: seq<Candidate>)
    requires DistinctLocations(a) && DistinctLocations(b)
    requires forall c, d :: c in a && d in b ==> c.location != d.location
    ensures DistinctLocations(a + b)
  {
    forall i, j | 0 <= i < j < |a + b|
      ensures (a + b)[i].location != (a + b)[j].location
    {
      if i < |a| <= j {
        assert a[i] in a && b[j - |a|] in b;
      }
    }
  }

  lemma {:induction false} RecordsDistinct(vs: seq<Retained>, minAge: nat, storage: Storage, now: int)
    requires UniquePlaces(vs)
    ensures DistinctLocations(Records(vs, minAge, storage, now))
  {
    if vs != [] {
      var front, last := vs[..|vs| - 1], vs[|vs| - 1];
      RecordsDistinct(front, minAge, storage, now);
      RecordsListed(front, minAge, storage, now);
      JoinDistinct(Records(front, minAge, storage, now), RecordOf(last, minAge, storage, now));
    }
  }

  lemma {:induction false} TenantsDistinct(vs: seq<Retained>)
    ensures Distinct(Tenants(vs))
  {
    if vs != [] {
      TenantsDistinct(vs[..|vs| - 1]);
    }
  }

  lemma OrderedUnique(vs: seq<Retained>, tenant: string, keep: nat)
    requires UniquePlaces(vs)
    ensures UniquePlaces(Beyond(Ordered(vs, tenant), keep))
  {
    var s := Ordered(vs, tenant);
    OrderedListed(vs, tenant);
    assert Distinct(vs);
    forall i, j | 0 <= i < j < |s|
      ensures Place(s[i]) != Place(s[j])
    {
      assert s[i] in s && s[j] in s && s[i] != s[j];
      var a :| 0 <= a < |vs| && vs[a] == s[i];
      var b :| 0 <= b < |vs| && vs[b] == s[j];
      assert a < b || b < a;
    }
  }

  lemma {:induction false} RecordsOfDistinct(tenants: seq<string>, vs: seq<Retained>, rule: Rule, storage: Storage,
                                             now: int)
    requires UniquePlaces(vs) && Distinct(tenants)
    ensures DistinctLocations(RecordsOf(tenants, vs, rule, storage, now))
  {
    if tenants != [] {
      var front, t := tenants[..|tenants| - 1], tenants[|tenants| - 1];
      var rest := Beyond(Ordered(vs, t), rule.keep);
      RecordsOfDistinct(front, vs, rule, storage, now);
      OrderedUnique(vs, t, rule.keep);
      RecordsDistinct(rest, rule.minAge, storage, now);
      RecordsOfListed(front, vs, rule, storage, now);
      RecordsOfTenant(vs, t, rule, storage, now);
      assert t !in front;
      JoinDistinct(RecordsOf(front, vs, rule, storage, now), Records(rest, rule.minAge, storage, now));
    }
  }

  lemma RecordsOfTenant(vs: seq<Retained>, t: string, rule: Rule, storage: Storage, now: int)
    ensures forall c :: c in Records(Beyond(Ordered(vs, t), rule.keep), rule.minAge, storage, now) ==>
              c.location.tenant == t
  {
    RecordsListed(Beyond(Ordered(vs, t), rule.keep), rule.minAge, storage, now);
    OrderedListed(vs, t);
    assert forall v :: v in Beyond(Ordered(vs, t), rule.keep) ==> v in Ordered(vs, t);
  }

  lemma {:induction false} FileRecordsDistinct(fs: seq<RecoveryFile>, kind: StorageKind, minAge: nat, pending: string,
                                               storage: Storage, now: int)
    requires UniqueNames(fs)
    ensures DistinctLocations(FileRecords(fs, kind, minAge, pending, storage, now))
  {
    if fs != [] {
      var front, last := fs[..|fs| - 1], fs[|fs| - 1];
      FileRecordsDistinct(front, kind, minAge, pending, storage, now);
      FileRecordsListed(front, kind, minAge, pending, storage, now);
      JoinDistinct(FileRecords(front, kind, minAge, pending, storage, now),
                   FileRecord(last, kind, minAge, pending, storage, now));
    }
  }

  lemma RecoveryRecordsDistinct(files: seq<RecoveryFile>, kind: StorageKind, rule: Rule, pending: string,
                                storage: Storage, now: int)
    requires UniqueNames(files)
    ensures DistinctLocations(RecoveryRecords(files, kind, rule, pending, storage, now))
  {
    var s := Listing(files, kind, storage);
    UniqueNamesAreDistinct(files);
    ListingListed(files, kind, storage);
    forall i, j | 0 <= i < j < |s|
      ensures s[i].name != s[j].name
    {
      assert s[i] in s && s[j] in s && s[i] != s[j];
    }
    FileRecordsDistinct(Beyond(s, rule.keep), kind, rule.minAge, pending, storage, now);
  }

  lemma UnsortedDistinct(s: Setting, storage: Storage)
    requires UniqueIds(s.estate)
    ensures DistinctLocations(Unsorted(s.estate, s.policy, storage, s.now))
  {
    var e, p, now := s.estate, s.policy, s.now;
    var gs, rs := TerminalGenerations(e.migrations, e), TerminalReverses(e.reverses);
    TerminalGenerationsUnique(e.migrations, e);
    TerminalReversesUnique(e.reverses);
    TenantsDistinct(gs);
    TenantsDistinct(rs);
    RecordsOfDistinct(Tenants(gs), gs, p.generations, storage, now);
    RecordsOfDistinct(Tenants(rs), rs, p.reverses, storage, now);
    RecoveryRecordsDistinct(e.exports, RecoveryExport, p.exports, e.pendingPackage, storage, now);
    RecoveryRecordsDistinct(e.checkpoints, RecoveryCheckpoint, p.checkpoints, e.pendingCheckpoint, storage, now);
    KindsOfParts(e, p, storage, now);
    JoinFour(RetainedRecords(gs, p.generations, storage, now), RetainedRecords(rs, p.reverses, storage, now),
             RecoveryRecords(e.exports, RecoveryExport, p.exports, e.pendingPackage, storage, now),
             RecoveryRecords(e.checkpoints, RecoveryCheckpoint, p.checkpoints, e.pendingCheckpoint, storage, now));
  }

  lemma JoinFour(a: seq<Candidate>, b: seq<Candidate>, c: seq<Candidate>, d: seq<Candidate>)
    requires DistinctLocations(a) && DistinctLocations(b) && DistinctLocations(c) && DistinctLocations(d)
    requires forall x :: x in a ==> x.location.kind.TenantGeneration?
    requires forall x :: x in b ==> x.location.kind.ReverseSnapshot?
    requires forall x :: x in c ==> x.location.kind.RecoveryExport?
    requires forall x :: x in d ==> x.location.kind.RecoveryCheckpoint?
    ensures DistinctLocations(a + b + c + d)
  {
    JoinDistinct(a, b);
    JoinDistinct(a + b, c);
    JoinDistinct(a + b + c, d);
  }

  lemma SortKeepsLocationsDistinct(cs: seq<Candidate>)
    requires DistinctLocations(cs)
    ensures DistinctLocations(Sort(PreviewOrder, cs))
  {
    assert Distinct(cs);
    SortDistinct(PreviewOrder, cs);
    SortPermutes(PreviewOrder, cs);
    var sorted := Sort(PreviewOrder, cs);
    forall i, j | 0 <= i < j < |sorted|
      ensures sorted[i].location != sorted[j].location
    {
      assert sorted[i] in cs && sorted[j] in cs && sorted[i] != sorted[j];
      var a :| 0 <= a < |cs| && cs[a] == sorted[i];
      var b :| 0 <= b < |cs| && cs[b] == sorted[j];
      assert a < b || b < a;
    }
  }

  /** The preview names every location once. */
  lemma InventoryIsDistinct(s: Setting, storage: Storage)
    requires UniqueIds(s.estate)
    ensures DistinctLocations(Inventory(s.estate, s.policy, storage, s.now))
  {
    UnsortedDistinct(s, storage);
    SortKeepsLocationsDistinct(Unsorted(s.estate, s.policy, storage, s.now));
  }

  /** An execution without errors. */
  function CleanOnce(s: Setting, storage: Storage): Storage {
    Without(storage, Locations(Preview(s.estate, s.policy, storage, s.now)))
  }

  function Cleaner(s: Setting): Storage -> Storage {
    storage => CleanOnce(s, storage)
  }

  function InventoryOf(s: Setting): Storage -> seq<Candidate> {
    storage => Inventory(s.estate, s.policy, storage, s.now)
  }

  function Iterate<T>(step: T -> T, x: T, n: nat): T {
    if n == 0 then x else step(Iterate(step, x, n - 1))
  }

  /** That many error-free executions in a row. */
  function CleanTimes(s: Setting, storage: Storage, n: nat): Storage {
    Iterate(Cleaner(s), storage, n)
  }

  lemma LaterLocationsDiffer(all: seq<Candidate>, n: nat, j: nat)
    requires DistinctLocations(all) && n <= j < |all|
    ensures all[j].location !in Locations(all[..n])
  {
    forall d | d in all[..n]
      ensures d.location != all[j].location
    {
      var i :| 0 <= i < n && all[i] == d;
    }
  }

  lemma LaterOnesStay(all: seq<Candidate>, n: nat)
    requires DistinctLocations(all) && n <= |all|
    ensures Filter(Untouched(Locations(all[..n])), all[n..]) == all[n..]
  {
    forall c | c in all[n..]
      ensures c.location !in Locations(all[..n])
    {
      var j :| n <= j < |all| && all[j] == c;
      LaterLocationsDiffer(all, n, j);
    }
    FilterAll(Untouched(Locations(all[..n])), all[n..]);
  }

  lemma DroppingTheFirst(all: seq<Candidate>, n: nat)
    requires DistinctLocations(all) && n <= |all|
    ensures Filter(Untouched(Locations(all[..n])), all) == all[n..]
  {
    var front, rest := all[..n], all[n..];
    assert all == front + rest;
    LaterOnesStay(all, n);
    FrontIsTouched(front);
    FilterDropsFront(Untouched(Locations(front)), front, rest);
  }

  lemma FrontIsTouched(front: seq<Candidate>)
    ensures forall c :: c in front ==> !Untouched(Locations(front))(c)
  {
  }

  lemma FilterDropsFront<T>(keep: T -> bool, front: seq<T>, rest: seq<T>)
    requires forall x :: x in front ==> !keep(x)
    ensures Filter(keep, front + rest) == Filter(keep, rest)
  {
    FilterConcat(keep, front, rest);
    FilterNone(keep, front);
    assert [] + Filter(keep, rest) == Filter(keep, rest);
  }

  /** It takes the first hundred candidates off the inventory and leaves the rest in order. */
  lemma CleaningTakesTheFirst(s: Setting, storage: Storage)
    requires UniqueIds(s.estate)
    ensures var all := Inventory(s.estate, s.policy, storage, s.now);
            Inventory(s.estate, s.policy, CleanOnce(s, storage), s.now) == all[Min(MAX_PREVIEW_ITEMS, |all|)..]
  {
    var all := Inventory(s.estate, s.policy, storage, s.now);
    var n := Min(MAX_PREVIEW_ITEMS, |all|);
    InventoryIsDistinct(s, storage);
    assert forall c :: c in all[..n] ==> c in all;
    InventoryWithout(s, storage, Locations(all[..n]));
    DroppingTheFirst(all, n);
  }

  lemma DroppingAgain<T>(all: seq<T>, rest: seq<T>, last: seq<T>, a: nat, b: nat)
    requires rest == all[Min(a, |all|)..] && last == rest[Min(b, |rest|)..]
    ensures last == all[Min(a + b, |all|)..]
  {
  }

  /** Whatever takes a fixed number off a list each time takes that many times as many off in all. */
  lemma {:induction false} DroppingRepeatedly<T, U>(step: T -> T, list: T -> seq<U>, x: T, k: nat, n: nat)
    requires forall i: nat :: i < n ==>
               list(step(Iterate(step, x, i))) == list(Iterate(step, x, i))[Min(k, |list(Iterate(step, x, i))|)..]
    ensures list(Iterate(step, x, n)) == list(x)[Min(k * n, |list(x)|)..]
  {
    if n > 0 {
      DroppingRepeatedly(step, list, x, k, n - 1);
      DroppingAgain(list(x), list(Iterate(step, x, n - 1)), list(Iterate(step, x, n)), k * (n - 1), k);
      assert k * (n - 1) + k == k * n;
    }
  }

  /**
   With fixed metadata, policy and clock, error-free cleanups remove a hundred candidates at a time,
   in preview order, until the inventory is empty.
   */
  lemma CleanupsConverge(s: Setting, storage: Storage, n: nat)
    requires UniqueIds(s.estate)
    ensures var all := Inventory(s.estate, s.policy, storage, s.now);
            Inventory(s.estate, s.policy, CleanTimes(s, storage, n), s.now) == all[Min(MAX_PREVIEW_ITEMS * n, |all|)..]
  {
    var step, list := Cleaner(s), InventoryOf(s);
    forall i: nat | i < n
      ensures list(step(Iterate(step, storage, i)))
           == list(Iterate(step, storage, i))[Min(MAX_PREVIEW_ITEMS, |list(Iterate(step, storage, i))|)..]
    {
      CleaningTakesTheFirst(s, Iterate(step, storage, i));
    }
    DroppingRepeatedly(step, list, storage, MAX_PREVIEW_ITEMS, n);
  }

  /** An operator's approval holds for what was previewed then, or for nothing. */
  method ExecuteApproved(service: RetentionService, approved: seq<Item>, revision: nat, s: Setting, typed: string,
                         found: Storage, faults: Faults)
    returns (r: Result<Receipt>)
    requires forall items, other ::
               service.digest(revision, approved) == service.digest(other, items) ==>
                 revision == other && approved == items
    modifies service
    ensures r.Ok? ==> revision == s.policy.revision
                      && |r.value.outcomes| == |approved|
                      && (forall i :: 0 <= i < |approved| ==> r.value.outcomes[i].item == approved[i])
    ensures r.Ok? ==> Deleted(r.value.outcomes) !! service.storage.Keys
    ensures r.Ok? && faults.manifest == map[] ==> service.storage.Keys == found.Keys - Deleted(r.value.outcomes)
  {
    var preview := Preview(s.estate, s.policy, service.storage, s.now);
    var expected := service.digest(revision, approved);
    ItemsListed(preview);
    r := service.Execute(s.estate, s.policy, s.now, expected, typed, found, faults);
    if r.Ok? {
      ReportMatchesStorage(r.value, preview, expected, found, service.storage, faults);
    }
  }

  lemma ReportMatchesStorage(r: Receipt, cs: seq<Candidate>, expected: string, before: Storage, after: Storage,
                             faults: Faults)
    requires CarriedOut(r, cs, expected, before, after, faults)
    ensures Deleted(r.outcomes) !! after.Keys
    ensures faults.manifest == map[] ==> after.Keys == before.Keys - Deleted(r.outcomes)
  {
    assert ReportedBy(cs, faults) <= RemovedBy(cs, faults);
    if faults.manifest == map[] {
      assert ReportedBy(cs, faults) == RemovedBy(cs, faults);
    }
  }

  lemma {:induction false} ItemsListed(cs: seq<Candidate>)
    ensures |Items(cs)| == |cs|
    ensures forall i :: 0 <= i < |cs| ==> Items(cs)[i] == Item(cs[i].location, cs[i].content)
  {
    if cs != [] {
      ItemsListed(cs[1..]);
    }
  }

  /** With no other writer, an execution is a cleanup step; without errors it is exactly `CleanOnce`. */
  method ExecuteAlone(service: RetentionService, s: Setting, expected: string, typed: string, faults: Faults)
    returns (r: Result<Receipt>)
    modifies service
    ensures Cleans(old(service.storage), service.storage, s)
    ensures r.Ok? && faults.deletion == map[] ==> service.storage == CleanOnce(s, old(service.storage))
  {
    var before := service.storage;
    ghost var preview := Preview(s.estate, s.policy, before, s.now);
    r := service.Execute(s.estate, s.policy, s.now, expected, typed, before, faults);
    if r.Ok? && faults.deletion == map[] {
      CarriedOutCleanly(r.value, preview, expected, before, service.storage, faults);
    }
  }

  lemma CarriedOutCleanly(r: Receipt, cs: seq<Candidate>, expected: string, before: Storage, after: Storage,
                          faults: Faults)
    requires CarriedOut(r, cs, expected, before, after, faults) && faults.deletion == map[]
    ensures after == Without(before, Locations(cs))
  {
    assert RemovedBy(cs, faults) == Locations(cs);
    SameStorage(after, before, Locations(cs));
  }

  lemma SameStorage(after: Storage, before: Storage, gone: set<Location>)
    requires after.Keys == before.Keys - gone
    requires forall l :: l in after && l !in gone ==> after[l] == before[l]
    ensures after == Without(before, gone)
  {
  }
}
