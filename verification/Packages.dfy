/** Response packages: the `assurance_packages` table. A package's id is its position. */
module Packages {
  import opened Common
  import opened Signals

  datatype PackageStatus = Review | Expired | Closed

  datatype Package = Package(sourceRun: string, severity: Severity, status: PackageStatus,
                             signals: set<string>, expiresAt: int, createdAt: int, closedAt: Option<int>,
                             tenant: string)

  function ExpireOne(p: Package, now: int): Package {
    if p.status.Review? && p.expiresAt <= now then p.(status := Expired) else p
  }

  function Expire(ps: seq<Package>, now: int): (r: seq<Package>)
    ensures |r| == |ps|
    ensures forall i :: 0 <= i < |ps| ==> r[i] == ExpireOne(ps[i], now)
  {
    if ps == [] then [] else [ExpireOne(ps[0], now)] + Expire(ps[1..], now)
  }

  /** A package in review stays so until its time has come; then it has expired, and nothing else of it changes. */
  predicate Overdue(before: Package, after: Package, now: int) {
    && after == before.(status := after.status)
    && (after.status.Review? <==> before.status.Review? && before.expiresAt > now)
    && (after.status.Expired? <==> before.status.Expired? || (before.status.Review? && before.expiresAt <= now))
    && (after.status.Closed? <==> before.status.Closed?)
  }

  function Close(ps: seq<Package>, id: nat, now: int): seq<Package> {
    if id < |ps| && ps[id].status.Review?
    then ps[id := ps[id].(status := Closed, closedAt := Some(now))]
    else ps
  }

  /** Open packages of a tenant; the empty tenant asks for those of every tenant. */
  predicate OpenFor(p: Package, tenant: string) {
    p.status.Review? && (tenant == "" || p.tenant == tenant)
  }

  function Covered(ps: seq<Package>, tenant: string): set<string> {
    set p, f | p in ps && OpenFor(p, tenant) && f in p.signals :: f
  }

  /** A package in review, of this tenant if one is given, holds the signal. */
  ghost predicate OpenSignal(f: string, ps: seq<Package>, tenant: string) {
    exists p :: p in ps && p.status.Review? && f in p.signals && (tenant == "" || p.tenant == tenant)
  }

  /** No signal is in two open packages of one tenant. */
  ghost predicate OpenDisjoint(ps: seq<Package>) {
    forall i, j :: 0 <= i < j < |ps| && ps[i].status.Review? && ps[j].status.Review?
                   && ps[i].tenant == ps[j].tenant
                   ==> ps[i].signals !! ps[j].signals
  }

  /** Closing or expiring only ever takes packages out of review. */
  lemma LeavingReviewKeepsDisjoint(ps: seq<Package>, qs: seq<Package>)
    requires OpenDisjoint(ps) && |qs| == |ps|
    requires forall i :: 0 <= i < |ps| ==> qs[i].tenant == ps[i].tenant && qs[i].signals == ps[i].signals
                                           && (qs[i].status.Review? ==> ps[i].status.Review?)
    ensures OpenDisjoint(qs)
  {
  }

  lemma AddingUncoveredKeepsDisjoint(ps: seq<Package>, p: Package, tenant: string)
    requires OpenDisjoint(ps) && p.signals !! Covered(ps, tenant)
    requires tenant == "" || p.tenant == tenant
    ensures OpenDisjoint(ps + [p])
  {
    var qs := ps + [p];
    forall i, j | 0 <= i < j < |qs| && qs[i].status.Review? && qs[j].status.Review? && qs[i].tenant == qs[j].tenant
      ensures qs[i].signals !! qs[j].signals
    {
      if j == |ps| {
        assert qs[i] in ps && OpenFor(qs[i], tenant);
        assert qs[i].signals <= Covered(ps, tenant);
      }
    }
  }

  lemma CoverageGrows(ps: seq<Package>, p: Package, tenant: string)
    ensures Covered(ps + [p], tenant) == Covered(ps, tenant) + if OpenFor(p, tenant) then p.signals else {}
  {
    forall f
      ensures f in Covered(ps + [p], tenant) <==> f in Covered(ps, tenant) || (OpenFor(p, tenant) && f in p.signals)
    {
      if f in Covered(ps, tenant) {
        var q :| q in ps && OpenFor(q, tenant) && f in q.signals;
        assert q in ps + [p];
      }
      if OpenFor(p, tenant) && f in p.signals {
        assert p in ps + [p];
      }
    }
  }

  /** The package table, updated in place. */
  class PackageStore {
    var packages: seq<Package>

    constructor ()
      ensures packages == []
    {
      packages := [];
    }

    method ExpirePackages(now: int)
      modifies this
      ensures packages == Expire(old(packages), now)
      ensures |packages| == |old(packages)|
      ensures forall i :: 0 <= i < |packages| ==> Overdue(old(packages)[i], packages[i], now)
    {
      var updated := [];
      var i := 0;
      while i < |packages|
        invariant 0 <= i <= |packages| && |updated| == i
        invariant packages == old(packages)
        invariant forall k :: 0 <= k < i ==> updated[k] == ExpireOne(packages[k], now)
      {
        updated := updated + [ExpireOne(packages[i], now)];
        i := i + 1;
      }
      packages := updated;
    }

    method CoveredSignalFingerprints(tenant: string, now: int) returns (covered: set<string>)
      modifies this
      ensures packages == Expire(old(packages), now)
      ensures covered == Covered(packages, tenant)
      ensures forall f :: f in covered <==> OpenSignal(f, packages, tenant)
    {
      ExpirePackages(now);
      var ps := packages;
      covered := {};
      var i := 0;
      while i < |ps|
        invariant 0 <= i <= |ps| && packages == ps
        invariant covered == Covered(ps[..i], tenant)
      {
        CoverageGrows(ps[..i], ps[i], tenant);
        assert ps[..i + 1] == ps[..i] + [ps[i]];
        if OpenFor(ps[i], tenant) {
          covered := covered + ps[i].signals;
        }
        i := i + 1;
      }
      assert ps[..i] == ps;
    }

    method CreatePackage(p: Package) returns (id: nat)
      modifies this
      ensures packages == old(packages) + [p] && id == |old(packages)|
    {
      id := |packages|;
      packages := packages + [p];
    }

    method ClosePackage(id: nat, now: int)
      modifies this
      ensures packages == Close(Expire(old(packages), now), id, now)
      ensures |packages| == |old(packages)|
      ensures forall i :: 0 <= i < |packages| && i != id ==> Overdue(old(packages)[i], packages[i], now)
      ensures id < |packages| ==>
                var before, after := old(packages)[id], packages[id];
                if before.status.Review? && before.expiresAt > now
                then after.status.Closed? && after.closedAt == Some(now)
                     && after == before.(status := after.status, closedAt := after.closedAt)
                else Overdue(before, after, now)
    {
      ExpirePackages(now);
      if id < |packages| && packages[id].status.Review? {
        packages := packages[id := packages[id].(status := Closed, closedAt := Some(now))];
      }
    }
  }
}
