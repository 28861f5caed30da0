/**
 Preview-bound cleanup of retained storage: what is a candidate, what the preview commits to, and what
 an execution removes. Storage is a map from location to content; migration, reverse-migration and
 route metadata and the recovery listings are given.
 */
module Retention {
  import opened Common
  import opened Sorting

  const DAY := 86400
  const MAX_PREVIEW_ITEMS := 100

  datatype StorageKind = TenantGeneration | ReverseSnapshot | RecoveryExport | RecoveryCheckpoint

  /** A directory or file under the data root; recovery files belong to no tenant. */
  datatype Location = Location(kind: StorageKind, tenant: string, name: string)

  datatype Content = Content(size: nat, files: nat, digest: string)

  type Storage = map<Location, Content>

  datatype MigrationStatus = Copying | Verified | Cutover | MigrationFailed | RolledBack | ReverseMigrated

  datatype Migration = Migration(tenant: string, generation: string, sourceGeneration: string,
                                 status: MigrationStatus, at: Option<int>)

  datatype ReverseStatus = ReverseCopying | ReverseVerified | FinalizedReady | Applying
                         | ReverseFailed | Superseded | Applied

  datatype Reverse = Reverse(tenant: string, id: string, generation: string, status: ReverseStatus, at: Option<int>)

  datatype Route = Route(isolated: bool, generation: string)

  /** A file of a recovery directory; the package id is the tail of its name. */
  datatype RecoveryFile = RecoveryFile(name: string, packageId: string, modifiedAt: int)

  datatype Estate = Estate(migrations: seq<Migration>, reverses: seq<Reverse>, routes: seq<Route>,
                           exports: seq<RecoveryFile>, checkpoints: seq<RecoveryFile>,
                           pendingPackage: string, pendingCheckpoint: string)

  /** Keep-newest count and minimum age in days for one kind. */
  datatype Rule = Rule(keep: nat, minAge: nat)

  datatype Policy = Policy(generations: Rule, reverses: Rule, exports: Rule, checkpoints: Rule, revision: nat)

  // What is protected.

  function ActiveGenerations(e: Estate): set<string> {
    set r | r in e.routes && r.isolated && r.generation != "" :: r.generation
  }

  function PendingGenerations(e: Estate): set<string> {
    set m | m in e.migrations && (m.status.Copying? || m.status.Verified?) && m.generation != "" :: m.generation
  }

  function RollbackSources(e: Estate): set<string> {
    set m | m in e.migrations && m.generation in ActiveGenerations(e) && m.status.Cutover? && m.sourceGeneration != ""
      :: m.sourceGeneration
  }

  predicate ReverseInFlight(r: Reverse) {
    r.status.ReverseCopying? || r.status.ReverseVerified? || r.status.FinalizedReady? || r.status.Applying?
  }

  function ReverseSources(e: Estate): set<string> {
    set r | r in e.reverses && ReverseInFlight(r) && r.generation != "" :: r.generation
  }

  function ProtectedGenerations(e: Estate): set<string> {
    ActiveGenerations(e) + PendingGenerations(e) + RollbackSources(e) + ReverseSources(e)
  }

  // What is retained, newest first.

  /** One row of either kind of migration table, as the keep-newest rule sees it. */
  datatype Retained = Retained(kind: StorageKind, tenant: string, id: string, at: Option<int>)

  function Place(v: Retained): Location {
    Location(v.kind, v.tenant, v.id)
  }

  predicate TerminalMigration(m: Migration, e: Estate) {
    && m.generation != "" && m.generation !in ProtectedGenerations(e)
    && (m.status.MigrationFailed? || m.status.RolledBack? || m.status.ReverseMigrated? || m.status.Cutover?)
  }

  function TerminalGenerations(ms: seq<Migration>, e: Estate): seq<Retained> {
    if ms == [] then []
    else (if TerminalMigration(ms[0], e)
          then [Retained(TenantGeneration, ms[0].tenant, ms[0].generation, ms[0].at)] else [])
         + TerminalGenerations(ms[1..], e)
  }

  function TerminalReverses(rs: seq<Reverse>): seq<Retained> {
    if rs == [] then []
    else (if rs[0].status.ReverseFailed? || rs[0].status.Superseded? || rs[0].status.Applied?
          then [Retained(ReverseSnapshot, rs[0].tenant, rs[0].id, rs[0].at)] else [])
         + TerminalReverses(rs[1..])
  }

  predicate NewerOrSame(a: Option<int>, b: Option<int>) {
    b.None? || (a.Some? && a.value >= b.value)
  }

  predicate NewestFirst(v: Retained, w: Retained) {
    NewerOrSame(v.at, w.at)
  }

  predicate LatestFirst(f: RecoveryFile, g: RecoveryFile) {
    f.modifiedAt >= g.modifiedAt
  }

  predicate OldEnough(at: Option<int>, days: nat, now: int) {
    at.Some? && now - at.value >= days * DAY
  }

  function Beyond<T>(s: seq<T>, keep: nat): seq<T> {
    if |s| <= keep then [] else s[keep..]
  }

  /** What the preview lists about one candidate; the id of a recovery file is its package's. */
  datatype Candidate = Candidate(id: string, location: Location, createdAt: Option<int>, content: Content)

  function RecordOf(v: Retained, minAge: nat, storage: Storage, now: int): seq<Candidate> {
    if OldEnough(v.at, minAge, now) && Place(v) in storage
    then [Candidate(v.id, Place(v), v.at, storage[Place(v)])] else []
  }

  function Records(vs: seq<Retained>, minAge: nat, storage: Storage, now: int): seq<Candidate> {
    if vs == [] then []
    else Records(vs[..|vs| - 1], minAge, storage, now) + RecordOf(vs[|vs| - 1], minAge, storage, now)
  }

  /** The tenants in order of first appearance. */
  function Tenants(vs: seq<Retained>): seq<string> {
    if vs == [] then []
    else
      var earlier := Tenants(vs[..|vs| - 1]);
      if vs[|vs| - 1].tenant in earlier then earlier else earlier + [vs[|vs| - 1].tenant]
  }

  function OfTenant(vs: seq<Retained>, tenant: string): seq<Retained> {
    Filter((v: Retained) => v.tenant == tenant, vs)
  }

  function Ordered(vs: seq<Retained>, tenant: string): seq<Retained> {
    Sort(NewestFirst, OfTenant(vs, tenant))
  }

  function RecordsOf(tenants: seq<string>, vs: seq<Retained>, rule: Rule, storage: Storage, now: int): seq<Candidate> {
    if tenants == [] then []
    else RecordsOf(tenants[..|tenants| - 1], vs, rule, storage, now)
         + Records(Beyond(Ordered(vs, tenants[|tenants| - 1]), rule.keep), rule.minAge, storage, now)
  }

  function RetainedRecords(vs: seq<Retained>, rule: Rule, storage: Storage, now: int): seq<Candidate> {
    RecordsOf(Tenants(vs), vs, rule, storage, now)
  }

  function FilePlace(kind: StorageKind, f: RecoveryFile): Location {
    Location(kind, "", f.name)
  }

  function Present(kind: StorageKind, storage: Storage): RecoveryFile -> bool {
    f => FilePlace(kind, f) in storage
  }

  /** The files of the directory that exist, latest first. */
  function Listing(files: seq<RecoveryFile>, kind: StorageKind, storage: Storage): seq<RecoveryFile> {
    Sort(LatestFirst, Filter(Present(kind, storage), files))
  }

  function FileRecord(f: RecoveryFile, kind: StorageKind, minAge: nat, pending: string, storage: Storage,
                      now: int): seq<Candidate> {
    var l := FilePlace(kind, f);
    if f.packageId != pending && OldEnough(Some(f.modifiedAt), minAge, now) && l in storage
    then [Candidate(f.packageId, l, Some(f.modifiedAt), storage[l])] else []
  }

  function FileRecords(fs: seq<RecoveryFile>, kind: StorageKind, minAge: nat, pending: string, storage: Storage,
                       now: int): seq<Candidate> {
    if fs == [] then []
    else FileRecords(fs[..|fs| - 1], kind, minAge, pending, storage, now)
         + FileRecord(fs[|fs| - 1], kind, minAge, pending, storage, now)
  }

  function RecoveryRecords(files: seq<RecoveryFile>, kind: StorageKind, rule: Rule, pending: string, storage: Storage,
                           now: int): seq<Candidate> {
    FileRecords(Beyond(Listing(files, kind, storage), rule.keep), kind, rule.minAge, pending, storage, now)
  }

  lemma OfTenantSnoc(vs: seq<Retained>, v: Retained, tenant: string)
    ensures OfTenant(vs + [v], tenant) == OfTenant(vs, tenant) + if v.tenant == tenant then [v] else []
  {
    FilterConcat((w: Retained) => w.tenant == tenant, vs, [v]);
  }

  /** Groups by tenant, then keeps each tenant's newest and lists the rest that are old enough. */
  method CollectRetained(vs: seq<Retained>, rule: Rule, storage: Storage, now: int) returns (records: seq<Candidate>)
    ensures records == RetainedRecords(vs, rule, storage, now)
  {
    var tenants, byTenant := GroupByTenant(vs);
    records := [];
    var k := 0;
    while k < |tenants|
      invariant 0 <= k <= |tenants|
      invariant records == RecordsOf(tenants[..k], vs, rule, storage, now)
    {
      assert tenants[k] in tenants;
      var rest := Beyond(Sort(NewestFirst, byTenant[tenants[k]]), rule.keep);
      var more := CollectOld(rest, rule.minAge, storage, now);
      assert tenants[..k + 1][..k] == tenants[..k];
      records := records + more;
      k := k + 1;
    }
    assert tenants[..k] == tenants;
  }

  lemma OfTenantGrows(vs: seq<Retained>, v: Retained)
    ensures forall u :: OfTenant(vs + [v], u) == OfTenant(vs, u) + if v.tenant == u then [v] else []
  {
    forall u
      ensures OfTenant(vs + [v], u) == OfTenant(vs, u) + if v.tenant == u then [v] else []
    {
      OfTenantSnoc(vs, v, u);
    }
  }

  /** A dictionary of lists, its keys in the order they were first met. */
  method GroupByTenant(vs: seq<Retained>) returns (tenants: seq<string>, byTenant: map<string, seq<Retained>>)
    ensures tenants == Tenants(vs)
    ensures forall t :: t in byTenant <==> t in tenants
    ensures forall t :: t in byTenant ==> byTenant[t] == OfTenant(vs, t)
  {
    tenants, byTenant := [], map[];
    var i := 0;
    while i < |vs|
      invariant 0 <= i <= |vs|
      invariant tenants == Tenants(vs[..i])
      invariant forall t :: t in byTenant <==> t in tenants
      invariant forall t :: OfTenant(vs[..i], t) == if t in byTenant then byTenant[t] else []
    {
      var t := vs[i].tenant;
      assert vs[..i + 1] == vs[..i] + [vs[i]];
      assert vs[..i + 1][..i] == vs[..i];
      OfTenantGrows(vs[..i], vs[i]);
      if t !in byTenant {
        tenants := tenants + [t];
        byTenant := byTenant[t := [vs[i]]];
      } else {
        byTenant := byTenant[t := byTenant[t] + [vs[i]]];
      }
      i := i + 1;
    }
    assert vs[..i] == vs;
  }

  method CollectOld(vs: seq<Retained>, minAge: nat, storage: Storage, now: int) returns (records: seq<Candidate>)
    ensures records == Records(vs, minAge, storage, now)
  {
    records := [];
    var i := 0;
    while i < |vs|
      invariant 0 <= i <= |vs|
      invariant records == Records(vs[..i], minAge, storage, now)
    {
      assert vs[..i + 1][..i] == vs[..i];
      if OldEnough(vs[i].at, minAge, now) && Place(vs[i]) in storage {
        records := records + [Candidate(vs[i].id, Place(vs[i]), vs[i].at, storage[Place(vs[i])])];
      }
      i := i + 1;
    }
    assert vs[..i] == vs;
  }

  method CollectRecovery(files: seq<RecoveryFile>, kind: StorageKind, rule: Rule, pending: string, storage: Storage,
                         now: int)
    returns (records: seq<Candidate>)
    ensures records == RecoveryRecords(files, kind, rule, pending, storage, now)
  {
    records := CollectFiles(Beyond(Listing(files, kind, storage), rule.keep), kind, rule.minAge, pending, storage, now);
  }

  method CollectFiles(fs: seq<RecoveryFile>, kind: StorageKind, minAge: nat, pending: string, storage: Storage,
                      now: int)
    returns (records: seq<Candidate>)
    ensures records == FileRecords(fs, kind, minAge, pending, storage, now)
  {
    records := [];
    for i := 0 to |fs|
      invariant records == FileRecords(fs[..i], kind, minAge, pending, storage, now)
    {
      assert fs[..i + 1][..i] == fs[..i];
      records := records + FileRecord(fs[i], kind, minAge, pending, storage, now);
    }
    assert fs[..|fs|] == fs;
  }

  // The preview.

  function KindName(k: StorageKind): string {
    match k
    case TenantGeneration => "tenant-generation"
    case ReverseSnapshot => "reverse-snapshot"
    case RecoveryExport => "recovery-export"
    case RecoveryCheckpoint => "recovery-checkpoint"
  }

  /** By creation time, then kind, then id. */
  predicate PreviewOrder(c: Candidate, d: Candidate) {
    if c.createdAt != d.createdAt then NewerOrSame(d.createdAt, c.createdAt)
    else if c.location.kind != d.location.kind then LexLe(KindName(c.location.kind), KindName(d.location.kind))
    else LexLe(c.id, d.id)
  }

  function Unsorted(e: Estate, p: Policy, storage: Storage, now: int): seq<Candidate> {
    RetainedRecords(TerminalGenerations(e.migrations, e), p.generations, storage, now)
    + RetainedRecords(TerminalReverses(e.reverses), p.reverses, storage, now)
    + RecoveryRecords(e.exports, RecoveryExport, p.exports, e.pendingPackage, storage, now)
    + RecoveryRecords(e.checkpoints, RecoveryCheckpoint, p.checkpoints, e.pendingCheckpoint, storage, now)
  }

  function Inventory(e: Estate, p: Policy, storage: Storage, now: int): seq<Candidate> {
    Sort(PreviewOrder, Unsorted(e, p, storage, now))
  }

  function Preview(e: Estate, p: Policy, storage: Storage, now: int): seq<Candidate> {
    var all := Inventory(e, p, storage, now);
    all[..Min(MAX_PREVIEW_ITEMS, |all|)]
  }

  /** What the preview digest covers of each candidate. */
  datatype Item = Item(location: Location, content: Content)

  function Items(cs: seq<Candidate>): seq<Item> {
    if cs == [] then [] else [Item(cs[0].location, cs[0].content)] + Items(cs[1..])
  }

  // The execution.

  datatype Outcome = Outcome(item: Item, deleted: bool)

  datatype Receipt = Receipt(digest: string, complete: bool, itemCount: nat, deletedBytes: nat, outcomes: seq<Outcome>)

  function Locations(cs: seq<Candidate>): set<Location> {
    set c | c in cs :: c.location
  }

  function Deleted(os: seq<Outcome>): set<Location> {
    set o | o in os && o.deleted :: o.item.location
  }

  function CountDeleted(os: seq<Outcome>): nat {
    if os == [] then 0 else CountDeleted(os[..|os| - 1]) + if os[|os| - 1].deleted then 1 else 0
  }

  function BytesDeleted(os: seq<Outcome>): nat {
    if os == [] then 0
    else BytesDeleted(os[..|os| - 1]) + if os[|os| - 1].deleted then os[|os| - 1].item.content.size else 0
  }

  /** The storage under which every candidate still reads as the preview says. */
  predicate StillAs(cs: seq<Candidate>, storage: Storage) {
    forall c :: c in cs ==> c.location in storage && storage[c.location] == c.content
  }

  /** What goes wrong when the manifest rows of a removed generation are deleted. */
  datatype ManifestFault = OsFailure | OtherFailure

  /**
   `deletion` names the locations whose deletion raises an OSError, with what is left there; `manifest`
   those whose manifest rows then cannot be removed: an OSError is reported, anything else escapes.
   */
  datatype Faults = Faults(deletion: Storage, manifest: map<Location, ManifestFault>)

  predicate ManifestFails(l: Location, faults: Faults) {
    l !in faults.deletion && l.kind.TenantGeneration? && l in faults.manifest
  }

  /** At this location an exception leaves the deletion loop. */
  predicate BreaksOff(l: Location, faults: Faults) {
    ManifestFails(l, faults) && faults.manifest[l].OtherFailure?
  }

  predicate NoneBreaksOff(cs: seq<Candidate>, faults: Faults) {
    forall c :: c in cs ==> !BreaksOff(c.location, faults)
  }

  /** What deleting these candidates takes away. */
  function RemovedBy(cs: seq<Candidate>, faults: Faults): set<Location> {
    set c | c in cs && c.location !in faults.deletion :: c.location
  }

  /** What of it can be reported as deleted. */
  function ReportedBy(cs: seq<Candidate>, faults: Faults): set<Location> {
    set c | c in cs && c.location !in faults.deletion && !ManifestFails(c.location, faults) :: c.location
  }

  /**
   Cleanup of the local storage. `digest` and `phrase` stand for the SHA-256 of the preview and for
   the confirmation built from the item count and the digest.
   */
  class RetentionService {
    const digest: (nat, seq<Item>) -> string
    const phrase: (nat, string) -> string
    const blank: char -> bool
    var storage: Storage
    var receipts: seq<Receipt>

    constructor (digest: (nat, seq<Item>) -> string, phrase: (nat, string) -> string, blank: char -> bool,
                 storage: Storage)
      ensures this.digest == digest && this.phrase == phrase && this.blank == blank
      ensures this.storage == storage && receipts == []
    {
      this.digest := digest;
      this.phrase := phrase;
      this.blank := blank;
      this.storage := storage;
      receipts := [];
    }

    /** The preview is not empty, the digest is its own, and the confirmation is typed exactly. */
    predicate Approves(cs: seq<Candidate>, p: Policy, expected: string, typed: string) {
      && cs != [] && expected == digest(p.revision, Items(cs))
      && Strip(blank, typed) == phrase(|cs|, expected)
    }

    /** The three refusals before anything is read again. */
    method Approve(cs: seq<Candidate>, p: Policy, expected: string, typed: string) returns (refusal: Option<string>)
      ensures refusal.None? <==> Approves(cs, p, expected, typed)
    {
      if cs == [] {
        return Some("No retained local storage currently satisfies the cleanup policy.");
      }
      if expected != digest(p.revision, Items(cs)) {
        return Some("The cleanup inventory changed; review a fresh preview before deleting.");
      }
      if Strip(blank, typed) != phrase(|cs|, expected) {
        return Some("Type the confirmation exactly to authorize cleanup.");
      }
      return None;
    }

    /**
     `found` is the storage as the second reading finds it, before anything is deleted: another
     process may have changed it since the preview.
     */
    method Execute(e: Estate, p: Policy, now: int, expected: string, typed: string, found: Storage, faults: Faults)
      returns (r: Result<Receipt>)
      modifies this
      ensures var preview := Preview(e, p, old(storage), now);
              var approved := Approves(preview, p, expected, typed);
              && (r.Ok? <==> approved && StillAs(preview, found) && NoneBreaksOff(preview, faults))
              && (r.Err? ==> receipts == old(receipts))
              && (!approved ==> storage == old(storage))
              && (approved && !StillAs(preview, found) ==> storage == found)
              && (r.Err? && approved && StillAs(preview, found) ==> BrokenOff(preview, found, storage, faults))
              && (r.Ok? ==> receipts == old(receipts) + [r.value]
                            && CarriedOut(r.value, preview, expected, found, storage, faults))
    {
      var preview := Preview(e, p, storage, now);
      var refusal := Approve(preview, p, expected, typed);
      if refusal.Some? {
        return Err(refusal.value);
      }
      storage := found;
      r := ValidateAndDelete(preview, expected, faults);
    }

    method ValidateAndDelete(cs: seq<Candidate>, expected: string, faults: Faults) returns (r: Result<Receipt>)
      modifies this
      ensures r.Ok? <==> StillAs(cs, old(storage)) && NoneBreaksOff(cs, faults)
      ensures r.Err? ==> receipts == old(receipts)
      ensures !StillAs(cs, old(storage)) ==> storage == old(storage)
      ensures r.Err? && StillAs(cs, old(storage)) ==> BrokenOff(cs, old(storage), storage, faults)
      ensures r.Ok? ==> receipts == old(receipts) + [r.value]
                        && CarriedOut(r.value, cs, expected, old(storage), storage, faults)
    {
      var same := Revalidate(cs, storage);
      if !same {
        return Err("Retained storage changed after preview; no files were deleted.");
      }
      StillThere(cs, storage);
      var outcomes, remaining, brokeOff := DeleteAll(cs, faults, storage);
      storage := remaining;
      if brokeOff {
        return Err("The manifest rows of a removed generation could not be deleted.");
      }
      assert cs[..|cs|] == cs;
      var count, bytes, complete := Account(outcomes);
      var receipt := Receipt(expected, complete, count, bytes, outcomes);
      receipts := receipts + [receipt];
      return Ok(receipt);
    }
  }

  /**
   The receipt lists every candidate in order. What could be removed is gone, and reported unless its
   manifest rows stayed; nothing outside the candidates changed; the sums are those of the list.
   */
  ghost predicate CarriedOut(r: Receipt, cs: seq<Candidate>, expected: string, before: Storage, after: Storage,
                             faults: Faults) {
    && r.digest == expected
    && ListsCandidates(r.outcomes, cs)
    && |r.outcomes| == |cs|
    && after.Keys == before.Keys - RemovedBy(cs, faults)
    && Deleted(r.outcomes) == ReportedBy(cs, faults)
    && OthersKept(before, after, cs)
    && r.itemCount == CountDeleted(r.outcomes)
    && r.deletedBytes == BytesDeleted(r.outcomes)
    && (r.complete <==> forall o :: o in r.outcomes ==> o.deleted)
  }

  ghost predicate ListsCandidates(os: seq<Outcome>, cs: seq<Candidate>) {
    |os| <= |cs| && forall i :: 0 <= i < |os| ==> os[i].item == Item(cs[i].location, cs[i].content)
  }

  ghost predicate OthersKept(before: Storage, after: Storage, cs: seq<Candidate>) {
    forall l :: l in before && l !in Locations(cs) ==> l in after && after[l] == before[l]
  }

  /** The first candidate whose manifest failure escapes ends the deletions: it is gone, the later ones are not. */
  ghost predicate BrokenOff(cs: seq<Candidate>, before: Storage, after: Storage, faults: Faults) {
    exists n: nat :: BrokenOffAt(cs, before, after, faults, n)
  }

  ghost predicate BrokenOffAt(cs: seq<Candidate>, before: Storage, after: Storage, faults: Faults, n: nat) {
    && n < |cs| && BreaksOff(cs[n].location, faults) && NoneBreaksOff(cs[..n], faults)
    && after.Keys == before.Keys - RemovedBy(cs[..n + 1], faults)
    && OthersKept(before, after, cs)
  }

  /** The count is the number of deletions reported. */
  lemma {:induction false} CountIsNumber(os: seq<Outcome>)
    ensures CountDeleted(os) == |set i: nat | i < |os| && os[i].deleted|
  {
    var marked := set i: nat | i < |os| && os[i].deleted;
    if os == [] {
      assert marked == {};
    } else {
      var front, last := os[..|os| - 1], |os| - 1;
      CountIsNumber(front);
      assert marked == (set i: nat | i < |front| && front[i].deleted) + if os[last].deleted then {last} else {};
    }
  }

  /** Bytes add up: those of a deletion are its size, any other outcome has none. */
  lemma {:induction false} BytesAddUp(os: seq<Outcome>, more: seq<Outcome>)
    ensures BytesDeleted([]) == 0
    ensures forall o :: BytesDeleted([o]) == if o.deleted then o.item.content.size else 0
    ensures BytesDeleted(os + more) == BytesDeleted(os) + BytesDeleted(more)
  {
    forall o: Outcome
      ensures BytesDeleted([o]) == if o.deleted then o.item.content.size else 0
    {
      assert [o][..0] == [] && BytesDeleted([o][..0]) == 0;
    }
    if more == [] {
      assert os + more == os;
    } else {
      BytesAddUp(os, more[..|more| - 1]);
      assert (os + more)[..|os + more| - 1] == os + more[..|more| - 1];
    }
  }

  /** What is reported deleted is exactly what is gone, if and only if no manifest row stayed behind. */
  lemma ReportIsExactIffManifestsGo(r: Receipt, cs: seq<Candidate>, expected: string, before: Storage, after: Storage,
                                    faults: Faults)
    requires CarriedOut(r, cs, expected, before, after, faults) && Locations(cs) <= before.Keys
    ensures Deleted(r.outcomes) == before.Keys - after.Keys
       <==> forall c :: c in cs ==> !ManifestFails(c.location, faults)
  {
    assert before.Keys - after.Keys == RemovedBy(cs, faults);
    if c :| c in cs && ManifestFails(c.location, faults) {
      assert c.location in RemovedBy(cs, faults) && c.location !in ReportedBy(cs, faults);
    }
  }

  /**
   One generation whose manifest rows cannot be removed: the cleanup ends with a receipt, the
   generation is gone, and the receipt reports an error and no deletion.
   */
  method AGenerationLeavesItsManifest() returns (service: RetentionService, receipt: Receipt)
    ensures service.storage == map[] && service.receipts == [receipt]
    ensures |receipt.outcomes| == 1 && !receipt.outcomes[0].deleted && !receipt.complete
    ensures Deleted(receipt.outcomes) == {} && receipt.itemCount == 0
  {
    var place := Location(TenantGeneration, "t", "g1");
    var c := Candidate("g1", place, Some(0), Content(1, 1, "d"));
    var faults := Faults(map[], map[place := OsFailure]);
    service := new RetentionService((n, items) => "d", (n, s) => "p", ch => ch == ' ', map[place := c.content]);
    assert c in [c];
    var r := service.ValidateAndDelete([c], "d", faults);
    assert RemovedBy([c], faults) == {place} && ReportedBy([c], faults) == {};
    receipt := r.value;
    var o := receipt.outcomes[0];
    assert o in receipt.outcomes && (o.deleted ==> o.item.location in Deleted(receipt.outcomes));
    assert receipt.outcomes[..0] == [] && CountDeleted(receipt.outcomes[..0]) == 0;
  }

  /** The same with a failure that escapes: the generation is gone, and there is no receipt at all. */
  method AnEscapingFailureLeavesNoReceipt() returns (service: RetentionService, r: Result<Receipt>)
    ensures r.Err? && service.storage == map[] && service.receipts == []
  {
    var place := Location(TenantGeneration, "t", "g1");
    var c := Candidate("g1", place, Some(0), Content(1, 1, "d"));
    var faults := Faults(map[], map[place := OtherFailure]);
    service := new RetentionService((n, items) => "d", (n, s) => "p", ch => ch == ' ', map[place := c.content]);
    assert c in [c] && BreaksOff(c.location, faults);
    r := service.ValidateAndDelete([c], "d", faults);
    ghost var n: nat :| BrokenOffAt([c], map[place := c.content], service.storage, faults, n);
    assert [c][..n + 1] == [c] && RemovedBy([c], faults) == {place};
  }

  lemma StillThere(cs: seq<Candidate>, storage: Storage)
    requires StillAs(cs, storage)
    ensures Locations(cs) <= storage.Keys
  {
  }

  /** Reads every candidate again before the first deletion. */
  method Revalidate(cs: seq<Candidate>, storage: Storage) returns (same: bool)
    ensures same <==> StillAs(cs, storage)
  {
    var i := 0;
    while i < |cs|
      invariant 0 <= i <= |cs|
      invariant forall k :: 0 <= k < i ==> cs[k].location in storage && storage[cs[k].location] == cs[k].content
    {
      if cs[i].location !in storage || storage[cs[i].location] != cs[i].content {
        assert cs[i] in cs;
        return false;
      }
      i := i + 1;
    }
    return true;
  }

  /** One removal: gone, or left as the failed deletion leaves it; nothing if it is gone already. */
  function Removed(remaining: Storage, l: Location, faults: Faults): Storage {
    if l !in remaining then remaining
    else if l in faults.deletion then remaining[l := faults.deletion[l]]
    else remaining - {l}
  }

  lemma RemovedByGrows(cs: seq<Candidate>, c: Candidate, faults: Faults)
    ensures RemovedBy(cs + [c], faults)
         == RemovedBy(cs, faults) + if c.location in faults.deletion then {} else {c.location}
    ensures ReportedBy(cs + [c], faults)
         == ReportedBy(cs, faults)
            + if c.location in faults.deletion || ManifestFails(c.location, faults) then {} else {c.location}
  {
    assert forall x :: x in cs + [c] <==> x in cs || x == c;
    forall l
      ensures l in RemovedBy(cs + [c], faults) <==>
                l in RemovedBy(cs, faults) || (l == c.location && l !in faults.deletion)
      ensures l in ReportedBy(cs + [c], faults) <==>
                l in ReportedBy(cs, faults) || (l == c.location && l !in faults.deletion && !ManifestFails(l, faults))
    {
      if l == c.location {
        assert c in cs + [c];
      }
    }
  }

  /** The deletions of these candidates have been made, and none of them broke off. */
  ghost predicate DeletedSoFar(cs: seq<Candidate>, outcomes: seq<Outcome>, storage: Storage, remaining: Storage,
                               faults: Faults) {
    && |outcomes| == |cs| && ListsCandidates(outcomes, cs) && NoneBreaksOff(cs, faults)
    && remaining.Keys == storage.Keys - RemovedBy(cs, faults)
    && Deleted(outcomes) == ReportedBy(cs, faults)
    && OthersKept(storage, remaining, cs)
  }

  /** Whether this removal takes anything away: a repeated location is gone already. */
  predicate TakesAway(remaining: Storage, l: Location, faults: Faults) {
    l in remaining && l !in faults.deletion
  }

  function OutcomeOf(remaining: Storage, c: Candidate, faults: Faults): Outcome {
    Outcome(Item(c.location, c.content), TakesAway(remaining, c.location, faults) && !ManifestFails(c.location, faults))
  }

  lemma RemovalStep(cs: seq<Candidate>, c: Candidate, storage: Storage, remaining: Storage, faults: Faults)
    requires c.location in storage && remaining.Keys == storage.Keys - RemovedBy(cs, faults)
    requires OthersKept(storage, remaining, cs)
    ensures var after := Removed(remaining, c.location, faults);
            after.Keys == storage.Keys - RemovedBy(cs + [c], faults) && OthersKept(storage, after, cs + [c])
  {
    RemovedByGrows(cs, c, faults);
    var after := Removed(remaining, c.location, faults);
    assert c in cs + [c];
    assert forall x :: x in cs ==> x in cs + [c];
    assert Locations(cs) <= Locations(cs + [c]) && c.location in Locations(cs + [c]);
  }

  /** A location that breaks off is still there, because none before it did. */
  lemma StillToRemove(cs: seq<Candidate>, c: Candidate, storage: Storage, remaining: Storage, faults: Faults)
    requires c.location in storage && remaining.Keys == storage.Keys - RemovedBy(cs, faults)
    requires NoneBreaksOff(cs, faults) && BreaksOff(c.location, faults)
    ensures TakesAway(remaining, c.location, faults)
  {
  }

  lemma OutcomeStep(cs: seq<Candidate>, c: Candidate, outcomes: seq<Outcome>, storage: Storage, remaining: Storage,
                    faults: Faults)
    requires DeletedSoFar(cs, outcomes, storage, remaining, faults) && c.location in storage
    requires !BreaksOff(c.location, faults)
    ensures DeletedSoFar(cs + [c], outcomes + [OutcomeOf(remaining, c, faults)], storage,
                         Removed(remaining, c.location, faults), faults)
  {
    RemovalStep(cs, c, storage, remaining, faults);
    RemovedByGrows(cs, c, faults);
    DeletedGrows(outcomes, OutcomeOf(remaining, c, faults));
  }

  /**
   One deletion after the other; a repeated location is gone the second time and reports an error. The
   loop ends early when an exception other than an OSError comes from the manifest rows.
   */
  method DeleteAll(cs: seq<Candidate>, faults: Faults, storage: Storage)
    returns (outcomes: seq<Outcome>, remaining: Storage, brokeOff: bool)
    requires Locations(cs) <= storage.Keys
    ensures brokeOff <==> !NoneBreaksOff(cs, faults)
    ensures brokeOff ==> BrokenOffAt(cs, storage, remaining, faults, |outcomes|)
    ensures !brokeOff ==> DeletedSoFar(cs, outcomes, storage, remaining, faults)
  {
    outcomes, remaining, brokeOff := [], storage, false;
    var i := 0;
    while i < |cs|
      invariant 0 <= i <= |cs| && DeletedSoFar(cs[..i], outcomes, storage, remaining, faults)
    {
      var c := cs[i];
      assert c in cs && c.location in Locations(cs);
      assert cs[..i + 1] == cs[..i] + [c];
      RemovalStep(cs[..i], c, storage, remaining, faults);
      if BreaksOff(c.location, faults) {
        StillToRemove(cs[..i], c, storage, remaining, faults);
        remaining := Removed(remaining, c.location, faults);
        KeptByPrefix(storage, remaining, cs, i + 1);
        brokeOff := true;
        return;
      }
      OutcomeStep(cs[..i], c, outcomes, storage, remaining, faults);
      outcomes := outcomes + [OutcomeOf(remaining, c, faults)];
      remaining := Removed(remaining, c.location, faults);
      i := i + 1;
    }
    assert cs[..i] == cs;
  }

  lemma KeptByPrefix(before: Storage, after: Storage, cs: seq<Candidate>, n: nat)
    requires n <= |cs| && OthersKept(before, after, cs[..n])
    ensures OthersKept(before, after, cs)
  {
    assert forall c :: c in cs[..n] ==> c in cs;
    assert Locations(cs[..n]) <= Locations(cs);
  }

  lemma DeletedGrows(os: seq<Outcome>, o: Outcome)
    ensures Deleted(os + [o]) == Deleted(os) + if o.deleted then {o.item.location} else {}
  {
    forall l
      ensures l in Deleted(os + [o]) <==> l in Deleted(os) || (o.deleted && l == o.item.location)
    {
      if l in Deleted(os) {
        var x :| x in os && x.deleted && x.item.location == l;
        assert x in os + [o];
      }
      if o.deleted && l == o.item.location {
        assert o in os + [o];
      }
    }
  }

  /** The sums and the status `record_run` stores. */
  method Account(os: seq<Outcome>) returns (count: nat, bytes: nat, complete: bool)
    ensures count == CountDeleted(os) && bytes == BytesDeleted(os)
    ensures complete <==> forall o :: o in os ==> o.deleted
  {
    count, bytes, complete := 0, 0, true;
    var i := 0;
    while i < |os|
      invariant 0 <= i <= |os|
      invariant count == CountDeleted(os[..i]) && bytes == BytesDeleted(os[..i])
      invariant complete <==> forall k :: 0 <= k < i ==> os[k].deleted
    {
      assert os[..i + 1][..i] == os[..i];
      if os[i].deleted {
        count, bytes := count + 1, bytes + os[i].item.content.size;
      } else {
        complete := false;
      }
      i := i + 1;
    }
    assert os[..i] == os;
  }
}
