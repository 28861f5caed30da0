/**
 Tenants over whole histories: as long as every run carries a tenant, the rows of one tenant are
 exactly those that its own runs alone would have left.
 */
module TenantHistories {
  import opened Common
  import opened Signals
  import opened SignalHistory
  import opened Scoping

  /** Runs that carry a tenant and report under their own scope, with a digest that tells the scopes apart. */
  ghost predicate TenantRuns(h: History, digest: string -> string) {
    && (forall o :: o in h ==> o.binding.tenant != "" && PlainParts(o.binding) && ScopedRun(o, digest))
    && (forall o, p :: o in h && p in h ==> Separates(digest, ScopeKey(o.binding), ScopeKey(p.binding)))
  }

  /** The history as the tenant would tell it. */
  function RunsOf(h: History, tenant: string): History {
    if h == [] then []
    else
      var o := h[|h| - 1];
      RunsOf(h[..|h| - 1], tenant) + if o.binding.tenant == tenant then [o] else []
  }

  function RowsOf(rows: SignalTable, tenant: string): SignalTable {
    map f | f in rows && rows[f].binding.tenant == tenant :: rows[f]
  }

  /** Each row was last written by a run of the history, and is keyed under its scope. */
  ghost predicate WrittenBy(rows: SignalTable, h: History, digest: string -> string) {
    && KeyedByScope(rows, digest)
    && forall f :: f in rows ==> exists o :: o in h && rows[f].binding == o.binding
  }

  /** The table and the run agree with the scoping: what the step below needs of them. */
  ghost predicate Fits(rows: SignalTable, o: Observation, digest: string -> string) {
    && KeyedByScope(rows, digest) && ScopedRun(o, digest) && o.binding.tenant != "" && PlainParts(o.binding)
    && forall f :: f in rows ==>
         PlainParts(rows[f].binding) && Separates(digest, ScopeKey(o.binding), ScopeKey(rows[f].binding))
  }

  lemma WrittenFits(rows: SignalTable, h: History, o: Observation, digest: string -> string)
    requires WrittenBy(rows, h, digest) && TenantRuns(h + [o], digest)
    ensures Fits(rows, o, digest)
  {
    assert o in h + [o];
    forall f | f in rows
      ensures PlainParts(rows[f].binding) && Separates(digest, ScopeKey(o.binding), ScopeKey(rows[f].binding))
    {
      var p :| p in h && rows[f].binding == p.binding;
      assert p in h + [o];
    }
  }

  lemma StillWritten(rows: SignalTable, h: History, o: Observation, digest: string -> string)
    requires WrittenBy(rows, h, digest) && ScopedRun(o, digest)
    ensures WrittenBy(Correlated(rows, o), h + [o], digest)
  {
    CorrelationKeepsKeys(rows, o, digest);
    forall f | f in Correlated(rows, o)
      ensures exists p :: p in h + [o] && Correlated(rows, o)[f].binding == p.binding
    {
      CorrelationIsPointwise(rows, o, f);
      assert o in h + [o];
      if f in rows {
        var p :| p in h && rows[f].binding == p.binding;
        assert p in h + [o];
      }
    }
  }

  /** For each fingerprint: a run acts on the rows of its tenant as if there were no others. */
  lemma OwnRunSeesOwnRows(rows: SignalTable, o: Observation, digest: string -> string, f: string)
    requires Fits(rows, o, digest)
    ensures var t := o.binding.tenant;
            Lookup(RowsOf(Correlated(rows, o), t), f) == Lookup(Correlated(RowsOf(rows, t), o), f)
  {
    CorrelationIsPointwise(rows, o, f);
    CorrelationIsPointwise(RowsOf(rows, o.binding.tenant), o, f);
    if f in rows && rows[f].binding.tenant != o.binding.tenant {
      OthersRowsAreUnseen(rows, o, digest, f);
    }
  }

  /** And leaves the rows of every other tenant alone. */
  lemma OtherRunsLeaveRows(rows: SignalTable, o: Observation, digest: string -> string, tenant: string, f: string)
    requires Fits(rows, o, digest) && o.binding.tenant != tenant
    ensures Lookup(RowsOf(Correlated(rows, o), tenant), f) == Lookup(RowsOf(rows, tenant), f)
  {
    CorrelationIsPointwise(rows, o, f);
    if f in rows && rows[f].binding.tenant != o.binding.tenant {
      OthersRowsAreUnseen(rows, o, digest, f);
    }
  }

  lemma OneRunProjects(rows: SignalTable, o: Observation, digest: string -> string, tenant: string)
    requires Fits(rows, o, digest)
    ensures RowsOf(Correlated(rows, o), tenant)
         == if o.binding.tenant == tenant then Correlated(RowsOf(rows, tenant), o) else RowsOf(rows, tenant)
  {
    var own := if o.binding.tenant == tenant then Correlated(RowsOf(rows, tenant), o) else RowsOf(rows, tenant);
    forall f
      ensures Lookup(RowsOf(Correlated(rows, o), tenant), f) == Lookup(own, f)
    {
      if o.binding.tenant == tenant {
        OwnRunSeesOwnRows(rows, o, digest, f);
      } else {
        OtherRunsLeaveRows(rows, o, digest, tenant, f);
      }
    }
    SameLookups(RowsOf(Correlated(rows, o), tenant), own);
  }

  lemma TenantRunsPrefix(h: History, o: Observation, digest: string -> string)
    requires TenantRuns(h + [o], digest)
    ensures TenantRuns(h, digest) && ScopedRun(o, digest)
  {
    assert forall p :: p in h ==> p in h + [o];
    assert o in h + [o];
  }

  lemma {:induction false} TablesAreWritten(h: History, digest: string -> string)
    requires TenantRuns(h, digest)
    ensures WrittenBy(Table(h), h, digest)
  {
    if h != [] {
      var p, o := h[..|h| - 1], h[|h| - 1];
      assert h == p + [o];
      TenantRunsPrefix(p, o, digest);
      TablesAreWritten(p, digest);
      StillWritten(Table(p), p, o, digest);
    }
  }

  lemma RunsOfGrow(h: History, o: Observation, tenant: string)
    ensures RunsOf(h + [o], tenant) == RunsOf(h, tenant) + if o.binding.tenant == tenant then [o] else []
  {
    assert (h + [o])[..|h|] == h;
  }

  lemma OneMoreRun(h: History, o: Observation)
    ensures Table(h + [o]) == Correlated(Table(h), o)
  {
    assert (h + [o])[..|h|] == h;
  }

  lemma OneMoreProjects(h: History, o: Observation, tenant: string, digest: string -> string)
    requires Fits(Table(h), o, digest)
    ensures RowsOf(Table(h), tenant) == Table(RunsOf(h, tenant)) ==>
              RowsOf(Table(h + [o]), tenant) == Table(RunsOf(h + [o], tenant))
  {
    OneMoreRun(h, o);
    RunsOfGrow(h, o, tenant);
    OneRunProjects(Table(h), o, digest, tenant);
    if o.binding.tenant == tenant {
      OneMoreRun(RunsOf(h, tenant), o);
    } else {
      assert RunsOf(h, tenant) + [] == RunsOf(h, tenant);
    }
  }

  /** Histories of tenants project: no tenant can tell from its rows that there are others. */
  lemma {:induction false} TenantsProject(h: History, tenant: string, digest: string -> string)
    requires TenantRuns(h, digest)
    ensures RowsOf(Table(h), tenant) == Table(RunsOf(h, tenant))
  {
    if h == [] {
      assert RowsOf(map[], tenant) == map[];
    } else {
      var p, o := h[..|h| - 1], h[|h| - 1];
      assert h == p + [o];
      TenantRunsPrefix(p, o, digest);
      TenantsProject(p, tenant, digest);
      TablesAreWritten(p, digest);
      WrittenFits(Table(p), p, o, digest);
      OneMoreProjects(p, o, tenant, digest);
    }
  }

  // A run without a tenant is another matter.

  const MINE := Binding("a", "c", "t")
  const NOBODY := Binding("a", "c", "")

  function Sixteen(key: string): string {
    if key == "a|c|" then "0000000000000000" else "1111111111111111"
  }

  lemma TenantlessRunScopes()
    ensures ScopeKey(MINE) == "a|c|t" && ScopeKey(NOBODY) == "a|c|"
    ensures Separates(Sixteen, ScopeKey(MINE), ScopeKey(NOBODY)) && PlainParts(MINE) && PlainParts(NOBODY)
  {
    assert "a" + ['|'] + ("c" + ['|'] + "t") == "a|c|t";
    assert "a" + ['|'] + ("c" + ['|'] + "") == "a|c|";
    assert |"a|c|t"| == 5 && |"a|c|"| == 4;
  }

  /** A finding of tenant t, as its own run reports it. */
  function Found(f: string): Observation {
    Observation("r1", MINE, [Sighting(f, Finding, High, "s", Notes("", "s", ""), true)], true, None, 1)
  }

  /** A full run without a tenant, which sees nothing. */
  function Swept(): Observation {
    Observation("r2", NOBODY, [], true, None, 2)
  }

  lemma SweepCloses(f: string)
    requires f != ""
    ensures f in Table([Found(f)]) && Table([Found(f)])[f].status.Persistent? && Table([Found(f)])[f].binding == MINE
    ensures f in Table([Found(f), Swept()]) && Table([Found(f), Swept()])[f].status.Resolved?
    ensures Table([Found(f), Swept()])[f].binding == MINE
  {
    OneMoreRun([], Found(f));
    OneMoreRun([Found(f)], Swept());
    assert [] + [Found(f)] == [Found(f)] && [Found(f)] + [Swept()] == [Found(f), Swept()];
    CorrelationIsPointwise(Table([]), Found(f), f);
    CorrelationIsPointwise(Table([Found(f)]), Swept(), f);
  }

  lemma SweptHistoryIsScoped() returns (f: string)
    ensures f != "" && ScopedRun(Found(f), Sixteen) && ScopedRun(Swept(), Sixteen)
  {
    f := ScopedFingerprint(Sixteen, ScopeKey(MINE), "f");
    var raw := [Sighting("f", Finding, High, "s", Notes("", "s", ""), true)];
    TenantlessRunScopes();
    assert ScopeSightings(Sixteen, ScopeKey(MINE), raw) == Found(f).sightings;
    assert ScopeSightings(Sixteen, ScopeKey(NOBODY), []) == Swept().sightings;
  }

  /**
   Two runs: one of tenant t reports a signal, and a full run without a tenant closes it. Everything
   else the projection asks for holds, and the tenant's rows are not what its own runs left.
   */
  lemma TenantlessRunsDoNotProject() returns (h: History)
    ensures forall o :: o in h ==> PlainParts(o.binding) && ScopedRun(o, Sixteen)
    ensures forall o, p :: o in h && p in h ==> Separates(Sixteen, ScopeKey(o.binding), ScopeKey(p.binding))
    ensures RowsOf(Table(h), "t") != Table(RunsOf(h, "t"))
  {
    var f := SweptHistoryIsScoped();
    h := [Found(f), Swept()];
    TenantlessRunScopes();
    SweepCloses(f);
    OnlyFindingIsOwn(f);
    assert RowsOf(Table(h), "t")[f] != Table([Found(f)])[f];
  }

  lemma OnlyFindingIsOwn(f: string)
    ensures RunsOf([Found(f), Swept()], "t") == [Found(f)]
  {
    RunsOfGrow([], Found(f), "t");
    RunsOfGrow([Found(f)], Swept(), "t");
    assert [] + [Found(f)] == [Found(f)] && [Found(f)] + [Swept()] == [Found(f), Swept()];
  }
}
