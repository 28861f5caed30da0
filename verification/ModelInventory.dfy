/**
 Drift tracking of Splunk MLTK models: the merge of one scan into the stored snapshot, and the
 snapshot against the history of scans.
 */
module ModelInventory {
  import opened Common
  import opened Sorting

  datatype ModelStatus = New | Changed | Unchanged | Missing

  /** What a definition says of itself: its name, and the service it depends on with what was observed of it. */
  datatype Contract = Contract(name: string, service: string, observation: string)

  /** One stored model. `missingSince` and `previousFingerprint` are optional keys of the record. */
  datatype Model = Model(id: string, contract: Contract, fingerprint: string, firstSeenAt: int, lastSeenAt: int,
                         status: ModelStatus, missingSince: Option<int>, previousFingerprint: Option<string>)

  /** A normalized row of a scan. */
  datatype Observed = Observed(id: string, contract: Contract, fingerprint: string)

  /** `previous_models`: of several entries with one id the last counts; an empty id never does. */
  function ById(models: seq<Model>): map<string, Model> {
    if models == [] then map[]
    else
      var m := models[|models| - 1];
      if m.id == "" then ById(models[..|models| - 1]) else ById(models[..|models| - 1])[m.id := m]
  }

  function Merge(row: Observed, prior: Option<Model>, now: int): Model {
    var first := if prior.Some? then prior.value.firstSeenAt else now;
    if prior.None? || prior.value.status.Missing?
    then Model(row.id, row.contract, row.fingerprint, first, now, New, None, None)
    else if prior.value.fingerprint != row.fingerprint
    then Model(row.id, row.contract, row.fingerprint, first, now, Changed, None, Some(prior.value.fingerprint))
    else Model(row.id, row.contract, row.fingerprint, first, now, Unchanged, None, None)
  }

  function MarkMissing(prior: Model, now: int): Model {
    prior.(status := Missing, missingSince := if prior.missingSince.Some? then prior.missingSince else Some(now))
  }

  function Ids(rows: seq<Observed>): set<string> {
    set r | r in rows :: r.id
  }

  function Merged(rows: seq<Observed>, previous: map<string, Model>, now: int): seq<Model> {
    if rows == [] then []
    else
      var r := rows[|rows| - 1];
      Merged(rows[..|rows| - 1], previous, now) + [Merge(r, Lookup(previous, r.id), now)]
  }

  function CountStatus(models: seq<Model>, status: ModelStatus): nat {
    if models == [] then 0
    else CountStatus(models[..|models| - 1], status) + if models[|models| - 1].status == status then 1 else 0
  }

  /** Entries of the current scan whose definition passes a test. */
  function CountCurrent(models: seq<Model>, test: Contract -> bool): nat {
    if models == [] then 0
    else
      var m := models[|models| - 1];
      CountCurrent(models[..|models| - 1], test) + if !m.status.Missing? && test(m.contract) then 1 else 0
  }

  function OnOllama(): Contract -> bool {
    (c: Contract) => c.service == "ollama"
  }

  function NotObserved(): Contract -> bool {
    (c: Contract) => c.observation == "not-observed"
  }

  /** Missing models last, then by name without regard to case; `lower` is `str.lower`. */
  function DisplayOrder(lower: string -> string): (Model, Model) -> bool {
    (m: Model, n: Model) =>
      if m.status.Missing? != n.status.Missing? then n.status.Missing?
      else LexLe(lower(m.contract.name), lower(n.contract.name))
  }

  lemma DisplayOrderIsOrder(lower: string -> string)
    ensures TotalPreorder(DisplayOrder(lower))
  {
    forall m, n
      ensures DisplayOrder(lower)(m, n) || DisplayOrder(lower)(n, m)
    {
      LexTotal(lower(m.contract.name), lower(n.contract.name));
    }
    forall m, n, o | DisplayOrder(lower)(m, n) && DisplayOrder(lower)(n, o)
      ensures DisplayOrder(lower)(m, o)
    {
      if m.status.Missing? == n.status.Missing? == o.status.Missing? {
        LexTransitive(lower(m.contract.name), lower(n.contract.name), lower(o.contract.name));
      }
    }
  }

  ghost predicate UniqueModels(models: seq<Model>) {
    forall i, j :: 0 <= i < j < |models| ==> models[i].id != models[j].id
  }

  ghost predicate UniqueRows(rows: seq<Observed>) {
    forall i, j :: 0 <= i < j < |rows| ==> rows[i].id != rows[j].id
  }

  /** `models` holds exactly one entry for each key of `entries`, namely that entry. */
  ghost predicate Holds(models: seq<Model>, entries: map<string, Model>) {
    && UniqueModels(models)
    && (forall m :: m in models ==> m.id in entries && entries[m.id] == m)
    && (forall id :: id in entries ==> entries[id] in models && entries[id].id == id)
  }

  lemma HoldsFront(models: seq<Model>, entries: map<string, Model>)
    requires models != [] && Holds(models, entries)
    ensures var m := models[|models| - 1];
            m.id in entries && entries[m.id] == m && Holds(models[..|models| - 1], entries - {m.id})
  {
    var front, m := models[..|models| - 1], models[|models| - 1];
    assert m in models;
    assert forall x :: x in front ==> x in models && x.id != m.id;
    forall id | id in entries && id != m.id
      ensures entries[id] in front && entries[id].id == id
    {
      assert entries[id] in models && entries[id] != m;
    }
  }

  lemma {:induction false} ByIdHolds(models: seq<Model>, entries: map<string, Model>)
    requires Holds(models, entries) && "" !in entries
    ensures ById(models) == entries
  {
    if models == [] {
      assert entries == map[];
    } else {
      var m := models[|models| - 1];
      HoldsFront(models, entries);
      ByIdHolds(models[..|models| - 1], entries - {m.id});
      assert (entries - {m.id})[m.id := m] == entries;
    }
  }

  /** What one successful scan makes of the entries, seen as a map by id. */
  function Scanned(entries: map<string, Model>, rows: seq<Observed>, now: int): map<string, Model> {
    map id | id in entries.Keys + Ids(rows) ::
      if id in Ids(rows) then Merge(RowOf(rows, id), Lookup(entries, id), now) else MarkMissing(entries[id], now)
  }

  /** The scan's row with this id; with distinct ids there is only one. */
  function RowOf(rows: seq<Observed>, id: string): (r: Observed)
    requires id in Ids(rows)
    ensures r in rows && r.id == id
  {
    if rows[0].id == id then rows[0] else RowOf(rows[1..], id)
  }

  lemma {:induction false} RowOfUnique(rows: seq<Observed>, r: Observed)
    requires UniqueRows(rows) && r in rows
    ensures RowOf(rows, r.id) == r
  {
    if rows[0] != r {
      RowOfUnique(rows[1..], r);
    }
  }

  lemma {:induction false} MergedListed(rows: seq<Observed>, previous: map<string, Model>, now: int)
    ensures |Merged(rows, previous, now)| == |rows|
    ensures forall i :: 0 <= i < |rows| ==>
              Merged(rows, previous, now)[i] == Merge(rows[i], Lookup(previous, rows[i].id), now)
  {
    if rows != [] {
      MergedListed(rows[..|rows| - 1], previous, now);
    }
  }

  /** The figures of a scan's summary. */
  datatype Summary = Summary(observed: nat, added: nat, changed: nat, same: nat, missing: nat,
                             dependencies: nat, notObserved: nat)

  ghost function HowMany(models: seq<Model>, status: ModelStatus): nat {
    |set i: nat | i < |models| && models[i].status == status|
  }

  /** The summary counts the entries of the stored list; what a model depends on counts only while it is seen. */
  ghost predicate CountsEntries(s: Summary, models: seq<Model>, rows: seq<Observed>) {
    && s.observed == |rows|
    && s.added == HowMany(models, New) && s.changed == HowMany(models, Changed)
    && s.same == HowMany(models, Unchanged) && s.missing == HowMany(models, Missing)
    && s.dependencies
       == |set i: nat | i < |models| && models[i].status != Missing && models[i].contract.service == "ollama"|
    && s.notObserved
       == |set i: nat | i < |models| && models[i].status != Missing && models[i].contract.observation == "not-observed"|
  }

  function HasStatus(status: ModelStatus): Model -> bool {
    (m: Model) => m.status == status
  }

  function Observes(test: Contract -> bool): Model -> bool {
    (m: Model) => m.status != Missing && test(m.contract)
  }

  lemma {:induction false} CountIsNumber(models: seq<Model>, status: ModelStatus)
    ensures CountStatus(models, status) == Number(HasStatus(status), models)
  {
    if models == [] {
      NoneCounted(HasStatus(status), models);
    } else {
      var front, last := models[..|models| - 1], models[|models| - 1];
      CountIsNumber(front, status);
      OneMoreCounted(HasStatus(status), front, last);
      assert models == front + [last];
    }
  }

  lemma CountIsHowMany(models: seq<Model>, status: ModelStatus)
    ensures CountStatus(models, status) == HowMany(models, status)
  {
    CountIsNumber(models, status);
    var marked := set i: nat | i < |models| && models[i].status == status;
    MarkedAreCounted(HasStatus(status), models, marked);
  }

  lemma CountsAreNumbers(models: seq<Model>)
    ensures CountStatus(models, New) == HowMany(models, New) && CountStatus(models, Changed) == HowMany(models, Changed)
    ensures CountStatus(models, Unchanged) == HowMany(models, Unchanged)
    ensures CountStatus(models, Missing) == HowMany(models, Missing)
  {
    CountIsHowMany(models, New);
    CountIsHowMany(models, Changed);
    CountIsHowMany(models, Unchanged);
    CountIsHowMany(models, Missing);
  }

  lemma {:induction false} CurrentIsNumber(models: seq<Model>, test: Contract -> bool)
    ensures CountCurrent(models, test) == Number(Observes(test), models)
  {
    if models == [] {
      NoneCounted(Observes(test), models);
    } else {
      var front, last := models[..|models| - 1], models[|models| - 1];
      CurrentIsNumber(front, test);
      OneMoreCounted(Observes(test), front, last);
      assert models == front + [last];
    }
  }

  lemma DependenciesCounted(models: seq<Model>)
    ensures CountCurrent(models, OnOllama())
         == |set i: nat | i < |models| && models[i].status != Missing && models[i].contract.service == "ollama"|
  {
    CurrentIsNumber(models, OnOllama());
    var marked := set i: nat | i < |models| && models[i].status != Missing && models[i].contract.service == "ollama";
    MarkedAreCounted(Observes(OnOllama()), models, marked);
  }

  lemma UnobservedCounted(models: seq<Model>)
    ensures CountCurrent(models, NotObserved())
         == |set i: nat | i < |models| && models[i].status != Missing
                          && models[i].contract.observation == "not-observed"|
  {
    CurrentIsNumber(models, NotObserved());
    var marked := set i: nat | i < |models| && models[i].status != Missing
                               && models[i].contract.observation == "not-observed";
    MarkedAreCounted(Observes(NotObserved()), models, marked);
  }

  /** Of several stored entries with one id the last is looked up, and an empty id never. */
  lemma {:induction false} LastEntryIsLookedUp(models: seq<Model>, id: string, i: nat)
    requires i < |models| && models[i].id == id && forall j :: i < j < |models| ==> models[j].id != id
    ensures Lookup(ById(models), id) == if id == "" then None else Some(models[i])
  {
    ByIdKeys(models);
    if i < |models| - 1 && id != "" {
      LastEntryIsLookedUp(models[..|models| - 1], id, i);
    }
  }

  /** The stored snapshot, overwritten by every successful scan. */
  class ModelInventoryService {
    const lower: string -> string
    var models: seq<Model>

    constructor (lower: string -> string)
      ensures this.lower == lower && models == []
    {
      this.lower := lower;
      models := [];
    }

    /** One scan: None is demo mode or a failed query, which return before anything is written. */
    method Scan(result: Option<seq<Observed>>, now: int) returns (summary: Option<Summary>)
      modifies this
      ensures summary.Some? <==> result.Some?
      ensures result.None? ==> models == old(models)
      ensures result.Some? ==>
                && ScanResult(lower, models, ById(old(models)), result.value, now)
                && CountsEntries(summary.value, models, result.value)
    {
      if result.None? {
        return None;
      }
      var rows := result.value;
      var previous := ById(models);
      ByIdKeys(models);
      var merged, current := MergeRows(rows, previous, now);
      var absent := CollectMissing(previous, current, now);
      MergedListed(rows, previous, now);
      MergeIsListed(merged, absent, previous, rows, now);
      models := Sort(DisplayOrder(lower), merged + absent);
      var s := Summarize(models, rows);
      return Some(s);
    }
  }

  method Summarize(models: seq<Model>, rows: seq<Observed>) returns (s: Summary)
    ensures CountsEntries(s, models, rows)
  {
    var added := Count(models, New);
    var changed := Count(models, Changed);
    var same := Count(models, Unchanged);
    var missing := Count(models, Missing);
    var dependencies := CountTested(models, OnOllama());
    var notObserved := CountTested(models, NotObserved());
    CountsAreNumbers(models);
    DependenciesCounted(models);
    UnobservedCounted(models);
    s := Summary(|rows|, added, changed, same, missing, dependencies, notObserved);
  }

  lemma MergeIsListed(merged: seq<Model>, absent: seq<Model>, previous: map<string, Model>, rows: seq<Observed>,
                      now: int)
    requires merged == Merged(rows, previous, now) && |merged| == |rows| && UniqueModels(absent)
    requires forall m :: m in absent <==>
               exists id :: id in previous && id !in Ids(rows) && m == MarkMissing(previous[id], now)
    ensures MergeResult(merged + absent, previous, rows, now)
  {
    assert (merged + absent)[..|rows|] == merged && (merged + absent)[|rows|..] == absent;
  }

  /** The loop over the rows, each merged with what was stored of its model. */
  method MergeRows(rows: seq<Observed>, previous: map<string, Model>, now: int)
    returns (merged: seq<Model>, current: set<string>)
    ensures merged == Merged(rows, previous, now) && current == Ids(rows)
  {
    current, merged := {}, [];
    var i := 0;
    while i < |rows|
      invariant 0 <= i <= |rows|
      invariant merged == Merged(rows[..i], previous, now)
      invariant current == Ids(rows[..i])
    {
      var row := rows[i];
      assert rows[..i + 1][..i] == rows[..i];
      IdsSnoc(rows[..i], row);
      assert rows[..i + 1] == rows[..i] + [row];
      current := current + {row.id};
      var prior := Lookup(previous, row.id);
      var model := Model(row.id, row.contract, row.fingerprint,
                         if prior.Some? then prior.value.firstSeenAt else now, now, Unchanged, None, None);
      if prior.None? || prior.value.status.Missing? {
        model := model.(status := New);
      } else if prior.value.fingerprint != row.fingerprint {
        model := model.(status := Changed, previousFingerprint := Some(prior.value.fingerprint));
      }
      merged := merged + [model];
      i := i + 1;
    }
    assert rows[..i] == rows;
  }

  method CollectMissing(previous: map<string, Model>, current: set<string>, now: int) returns (absent: seq<Model>)
    requires forall id :: id in previous ==> previous[id].id == id
    ensures UniqueModels(absent)
    ensures forall m :: m in absent <==>
              exists id :: id in previous && id !in current && m == MarkMissing(previous[id], now)
  {
    absent := [];
    var rest := previous.Keys;
    while rest != {}
      invariant rest <= previous.Keys
      invariant UniqueModels(absent)
      invariant forall m :: m in absent ==>
                  m.id in previous && m.id !in rest && m.id !in current && m == MarkMissing(previous[m.id], now)
      invariant forall id :: id in previous && id !in rest && id !in current ==>
                  MarkMissing(previous[id], now) in absent
      decreases rest
    {
      var id :| id in rest;
      rest := rest - {id};
      if id !in current {
        forall k | 0 <= k < |absent|
          ensures absent[k].id != id
        {
          assert absent[k] in absent;
        }
        absent := absent + [MarkMissing(previous[id], now)];
      }
    }
  }

  method Count(models: seq<Model>, status: ModelStatus) returns (n: nat)
    ensures n == CountStatus(models, status)
  {
    n := 0;
    var i := 0;
    while i < |models|
      invariant 0 <= i <= |models|
      invariant n == CountStatus(models[..i], status)
    {
      assert models[..i + 1][..i] == models[..i];
      if models[i].status == status {
        n := n + 1;
      }
      i := i + 1;
    }
    assert models[..i] == models;
  }

  method CountTested(models: seq<Model>, test: Contract -> bool) returns (n: nat)
    ensures n == CountCurrent(models, test)
  {
    n := 0;
    for i := 0 to |models|
      invariant n == CountCurrent(models[..i], test)
    {
      assert models[..i + 1][..i] == models[..i];
      if !models[i].status.Missing? && test(models[i].contract) {
        n := n + 1;
      }
    }
    assert models[..|models|] == models;
  }

  lemma {:induction false} ByIdKeys(models: seq<Model>)
    ensures forall id :: id in ById(models) ==> ById(models)[id].id == id && ById(models)[id] in models && id != ""
  {
    if models != [] {
      ByIdKeys(models[..|models| - 1]);
    }
  }

  lemma IdsSnoc(rows: seq<Observed>, r: Observed)
    ensures Ids(rows + [r]) == Ids(rows) + {r.id}
  {
    forall id
      ensures id in Ids(rows + [r]) <==> id in Ids(rows) || id == r.id
    {
      if id in Ids(rows) {
        var x :| x in rows && x.id == id;
        assert x in rows + [r];
      }
      if id == r.id {
        assert r in rows + [r];
      }
    }
  }

  /** The four counts account for every entry. */
  lemma {:induction false} CountsAddUp(models: seq<Model>)
    ensures CountStatus(models, New) + CountStatus(models, Changed) + CountStatus(models, Unchanged)
            + CountStatus(models, Missing) == |models|
  {
    if models != [] {
      CountsAddUp(models[..|models| - 1]);
    }
  }

  /** The list before it is sorted: the merged rows, then the models the scan did not see. */
  ghost predicate MergeResult(models: seq<Model>, previous: map<string, Model>, rows: seq<Observed>, now: int) {
    && |models| >= |rows| && models[..|rows|] == Merged(rows, previous, now)
    && UniqueModels(models[|rows|..])
    && forall m :: m in models[|rows|..] <==>
         exists id :: id in previous && id !in Ids(rows) && m == MarkMissing(previous[id], now)
  }

  lemma MergeUniqueIffDistinctRows(models: seq<Model>, previous: map<string, Model>, rows: seq<Observed>, now: int)
    requires MergeResult(models, previous, rows, now) && forall id :: id in previous ==> previous[id].id == id
    ensures UniqueModels(models) <==> UniqueRows(rows)
  {
    MergedListed(rows, previous, now);
    var n := |rows|;
    assert forall i :: 0 <= i < n ==> models[i] == models[..n][i] && models[i].id == rows[i].id;
    if UniqueRows(rows) {
      forall i, j | 0 <= i < j < |models|
        ensures models[i].id != models[j].id
      {
        if i < n <= j {
          assert models[j] == models[n..][j - n];
          assert models[j] in models[n..];
          assert rows[i] in rows;
          assert models[j].id !in Ids(rows);
        } else if n <= i {
          assert models[i] == models[n..][i - n] && models[j] == models[n..][j - n];
        }
      }
    }
  }

  lemma SeenRowHolds(models: seq<Model>, previous: map<string, Model>, rows: seq<Observed>, now: int, i: nat)
    requires |models| >= |rows| && models[..|rows|] == Merged(rows, previous, now)
    requires UniqueRows(rows) && i < |rows|
    ensures var id := rows[i].id;
            id in Ids(rows) && id in Scanned(previous, rows, now) && models[i].id == id
            && models[i] == Scanned(previous, rows, now)[id] && models[i] in models
  {
    MergedListed(rows, previous, now);
    assert models[i] == models[..|rows|][i] && rows[i] in rows;
    RowOfUnique(rows, rows[i]);
  }

  lemma MissingHolds(models: seq<Model>, previous: map<string, Model>, rows: seq<Observed>, now: int, m: Model)
    requires MergeResult(models, previous, rows, now) && m in models[|rows|..]
    requires forall id :: id in previous ==> previous[id].id == id
    ensures m.id in Scanned(previous, rows, now) && m == Scanned(previous, rows, now)[m.id] && m in models
  {
  }

  lemma MergeRefinesMap(models: seq<Model>, previous: map<string, Model>, rows: seq<Observed>, now: int)
    requires MergeResult(models, previous, rows, now) && UniqueRows(rows)
    requires forall id :: id in previous ==> previous[id].id == id
    ensures Holds(models, Scanned(previous, rows, now))
  {
    MergeUniqueIffDistinctRows(models, previous, rows, now);
    var entries := Scanned(previous, rows, now);
    forall m | m in models
      ensures m.id in entries && entries[m.id] == m
    {
      var i :| 0 <= i < |models| && models[i] == m;
      if i < |rows| {
        SeenRowHolds(models, previous, rows, now, i);
      } else {
        assert models[i] == models[|rows|..][i - |rows|];
        MissingHolds(models, previous, rows, now, m);
      }
    }
    forall id | id in entries
      ensures entries[id] in models && entries[id].id == id
    {
      if id in Ids(rows) {
        var i :| 0 <= i < |rows| && rows[i].id == id;
        SeenRowHolds(models, previous, rows, now, i);
      } else {
        assert MarkMissing(previous[id], now) in models[|rows|..];
      }
    }
  }

  /** The list a scan leaves: those entries, in display order. */
  ghost predicate ScanResult(lower: string -> string, models: seq<Model>, previous: map<string, Model>,
                             rows: seq<Observed>, now: int) {
    exists merged :: MergeResult(merged, previous, rows, now) && models == Sort(DisplayOrder(lower), merged)
  }

  /** Sorting moves entries around and changes nothing else. */
  lemma SortKeepsEntries(le: (Model, Model) -> bool, merged: seq<Model>)
    ensures UniqueModels(Sort(le, merged)) <==> UniqueModels(merged)
    ensures forall m :: m in Sort(le, merged) <==> m in merged
  {
    SortPermutes(le, merged);
    if UniqueModels(merged) {
      RearrangedUnique(merged, Sort(le, merged));
    }
    if UniqueModels(Sort(le, merged)) {
      RearrangedUnique(Sort(le, merged), merged);
    }
  }

  lemma RearrangedUnique(s: seq<Model>, t: seq<Model>)
    requires UniqueModels(s) && multiset(s) == multiset(t)
    ensures UniqueModels(t)
  {
    assert Distinct(s);
    DistinctCounts(s);
    SameElements(s, t);
    forall i, j | 0 <= i < j < |t|
      ensures t[i].id != t[j].id
    {
      assert t[i] in s && t[j] in s;
      CountsPair(t, i, j);
    }
  }

  /** Missing models come last, and within either part the names, without regard to case, ascend. */
  lemma ScanIsInDisplayOrder(lower: string -> string, models: seq<Model>, previous: map<string, Model>,
                             rows: seq<Observed>, now: int)
    requires ScanResult(lower, models, previous, rows, now)
    ensures forall i, j :: 0 <= i < j < |models| ==>
              && (models[i].status == Missing ==> models[j].status == Missing)
              && ((models[i].status == Missing <==> models[j].status == Missing) ==>
                    ComesBefore(lower(models[i].contract.name), lower(models[j].contract.name)))
  {
    DisplayOrderIsOrder(lower);
    var merged :| MergeResult(merged, previous, rows, now) && models == Sort(DisplayOrder(lower), merged);
    SortSorts(DisplayOrder(lower), merged);
    forall i, j | 0 <= i < j < |models|
      ensures models[i].status == Missing ==> models[j].status == Missing
      ensures (models[i].status == Missing <==> models[j].status == Missing) ==>
                ComesBefore(lower(models[i].contract.name), lower(models[j].contract.name))
    {
      assert DisplayOrder(lower)(models[i], models[j]);
      LexLeMeans(lower(models[i].contract.name), lower(models[j].contract.name));
    }
  }

  /**
   A scan leaves one entry per id exactly when its own rows have distinct ids; the earlier snapshot
   does not matter.
   */
  lemma OneEntryPerIdIffDistinctRows(lower: string -> string, models: seq<Model>, previous: map<string, Model>,
                                     rows: seq<Observed>, now: int)
    requires ScanResult(lower, models, previous, rows, now)
    requires forall id :: id in previous ==> previous[id].id == id
    ensures UniqueModels(models) <==> UniqueRows(rows)
  {
    var merged :| MergeResult(merged, previous, rows, now) && models == Sort(DisplayOrder(lower), merged);
    MergeUniqueIffDistinctRows(merged, previous, rows, now);
    SortKeepsEntries(DisplayOrder(lower), merged);
  }

  /** With distinct ids, the list a scan leaves holds exactly the map-wise result. */
  lemma ScanRefinesMap(lower: string -> string, models: seq<Model>, previous: map<string, Model>,
                       rows: seq<Observed>, now: int)
    requires ScanResult(lower, models, previous, rows, now) && UniqueRows(rows)
    requires forall id :: id in previous ==> previous[id].id == id
    ensures Holds(models, Scanned(previous, rows, now))
  {
    var merged :| MergeResult(merged, previous, rows, now) && models == Sort(DisplayOrder(lower), merged);
    MergeRefinesMap(merged, previous, rows, now);
    SortKeepsEntries(DisplayOrder(lower), merged);
  }

  /** A scan that lists one model twice, from nothing: two entries with one id. */
  method ARepeatedIdIsStoredTwice(lower: string -> string, row: Observed) returns (service: ModelInventoryService)
    ensures |service.models| == 2 && !UniqueModels(service.models)
  {
    service := new ModelInventoryService(lower);
    var rows := [row, row];
    var _ := service.Scan(Some(rows), 0);
    assert rows[0].id == rows[1].id;
    OneEntryPerIdIffDistinctRows(lower, service.models, ById([]), rows, 0);
    NothingWasMissing(lower, service.models, rows, 0);
  }

  lemma NoneAbsent(merged: seq<Model>, rows: seq<Observed>, now: int)
    requires MergeResult(merged, map[], rows, now)
    ensures |merged| == |rows|
  {
    SomeMember(merged[|rows|..]);
  }

  lemma SomeMember(models: seq<Model>)
    ensures models == [] || exists m :: m in models
  {
    if models != [] {
      assert models[0] in models;
    }
  }

  lemma NothingWasMissing(lower: string -> string, models: seq<Model>, rows: seq<Observed>, now: int)
    requires ScanResult(lower, models, map[], rows, now)
    ensures |models| == |rows|
  {
    var merged :| MergeResult(merged, map[], rows, now) && models == Sort(DisplayOrder(lower), merged);
    SortPermutes(DisplayOrder(lower), merged);
    NoneAbsent(merged, rows, now);
  }

  // The snapshot against the history of scans.

  datatype ScanEvent = ScanEvent(rows: seq<Observed>, now: int)

  ghost predicate GoodScans(h: seq<ScanEvent>) {
    forall i :: 0 <= i < |h| ==> UniqueRows(h[i].rows) && "" !in Ids(h[i].rows)
  }

  function Snapshot(h: seq<ScanEvent>): map<string, Model> {
    if h == [] then map[] else Scanned(Snapshot(h[..|h| - 1]), h[|h| - 1].rows, h[|h| - 1].now)
  }

  predicate SeenIn(h: seq<ScanEvent>, id: string, i: nat) {
    i < |h| && id in Ids(h[i].rows)
  }

  function FingerprintIn(h: seq<ScanEvent>, id: string, i: nat): string
    requires SeenIn(h, id, i)
  {
    RowOf(h[i].rows, id).fingerprint
  }

  ghost predicate FirstScan(h: seq<ScanEvent>, id: string, i: nat) {
    SeenIn(h, id, i) && forall k: nat :: k < i ==> !SeenIn(h, id, k)
  }

  ghost predicate LastScan(h: seq<ScanEvent>, id: string, i: nat) {
    SeenIn(h, id, i) && forall k: nat :: i < k < |h| ==> !SeenIn(h, id, k)
  }

  /** What the entry of a model says when f is the first scan that saw it and l the last. */
  ghost predicate TellsAt(m: Model, h: seq<ScanEvent>, id: string, f: nat, l: nat) {
    && FirstScan(h, id, f) && LastScan(h, id, l)
    && m.id == id && m.firstSeenAt == h[f].now && m.lastSeenAt == h[l].now
    && m.fingerprint == FingerprintIn(h, id, l) && m.contract == RowOf(h[l].rows, id).contract
    && (m.status.Missing? <==> l + 1 < |h|)
    && (m.missingSince == if l + 1 < |h| then Some(h[l + 1].now) else None)
    && (l + 1 == |h| ==>
          if l == 0 || !SeenIn(h, id, l - 1) then m.status.New?
          else if FingerprintIn(h, id, l - 1) == FingerprintIn(h, id, l) then m.status.Unchanged?
          else m.status.Changed? && m.previousFingerprint == Some(FingerprintIn(h, id, l - 1)))
  }

  /** What the entry of a model must say after these scans, read off the scans alone. */
  ghost predicate Tells(m: Model, h: seq<ScanEvent>, id: string) {
    exists f: nat, l: nat :: TellsAt(m, h, id, f, l)
  }

  lemma OneMoreScan(p: seq<ScanEvent>, s: ScanEvent, id: string, k: nat)
    ensures k < |p| ==> (SeenIn(p + [s], id, k) <==> SeenIn(p, id, k))
    ensures k < |p| ==> (p + [s])[k] == p[k]
    ensures k < |p| && SeenIn(p, id, k) ==> FingerprintIn(p + [s], id, k) == FingerprintIn(p, id, k)
    ensures k == |p| ==> (SeenIn(p + [s], id, k) <==> id in Ids(s.rows)) && (p + [s])[k] == s
    ensures k > |p| ==> !SeenIn(p + [s], id, k)
  {
  }

  lemma FirstScanStays(p: seq<ScanEvent>, s: ScanEvent, id: string, f: nat)
    requires FirstScan(p, id, f)
    ensures FirstScan(p + [s], id, f)
  {
    forall k: nat | k <= f
      ensures SeenIn(p + [s], id, k) <==> SeenIn(p, id, k)
    {
      OneMoreScan(p, s, id, k);
    }
  }

  lemma LastScanStays(p: seq<ScanEvent>, s: ScanEvent, id: string, l: nat)
    requires LastScan(p, id, l) && id !in Ids(s.rows)
    ensures LastScan(p + [s], id, l)
  {
    forall k: nat | l <= k
      ensures SeenIn(p + [s], id, k) <==> k == l
    {
      OneMoreScan(p, s, id, k);
    }
  }

  lemma NewLastScan(p: seq<ScanEvent>, s: ScanEvent, id: string)
    requires id in Ids(s.rows)
    ensures LastScan(p + [s], id, |p|)
  {
    OneMoreScan(p, s, id, |p|);
  }

  lemma FirstSightingTells(p: seq<ScanEvent>, s: ScanEvent, id: string)
    requires id in Ids(s.rows) && forall k: nat :: !SeenIn(p, id, k)
    ensures Tells(Merge(RowOf(s.rows, id), None, s.now), p + [s], id)
  {
    forall k: nat | k < |p|
      ensures !SeenIn(p + [s], id, k)
    {
      OneMoreScan(p, s, id, k);
    }
    OneMoreScan(p, s, id, |p|);
    NewLastScan(p, s, id);
    assert TellsAt(Merge(RowOf(s.rows, id), None, s.now), p + [s], id, |p|, |p|);
  }

  lemma ResightingTells(m: Model, p: seq<ScanEvent>, s: ScanEvent, id: string)
    requires Tells(m, p, id) && id in Ids(s.rows)
    ensures Tells(Merge(RowOf(s.rows, id), Some(m), s.now), p + [s], id)
  {
    var f: nat, l: nat :| TellsAt(m, p, id, f, l);
    FirstScanStays(p, s, id, f);
    NewLastScan(p, s, id);
    OneMoreScan(p, s, id, f);
    OneMoreScan(p, s, id, |p|);
    OneMoreScan(p, s, id, |p| - 1);
    assert SeenIn(p, id, |p| - 1) <==> l + 1 == |p|;
    assert TellsAt(Merge(RowOf(s.rows, id), Some(m), s.now), p + [s], id, f, |p|);
  }

  lemma AbsenceTells(m: Model, p: seq<ScanEvent>, s: ScanEvent, id: string)
    requires Tells(m, p, id) && id !in Ids(s.rows)
    ensures Tells(MarkMissing(m, s.now), p + [s], id)
  {
    var f: nat, l: nat :| TellsAt(m, p, id, f, l);
    FirstScanStays(p, s, id, f);
    LastScanStays(p, s, id, l);
    OneMoreScan(p, s, id, f);
    OneMoreScan(p, s, id, l);
    OneMoreScan(p, s, id, l + 1);
    assert TellsAt(MarkMissing(m, s.now), p + [s], id, f, l);
  }

  ghost predicate EverSeen(h: seq<ScanEvent>, id: string) {
    exists k: nat :: SeenIn(h, id, k)
  }

  lemma EverSeenGrows(p: seq<ScanEvent>, s: ScanEvent, id: string)
    ensures EverSeen(p + [s], id) <==> EverSeen(p, id) || id in Ids(s.rows)
  {
    if EverSeen(p, id) {
      var k: nat :| SeenIn(p, id, k);
      OneMoreScan(p, s, id, k);
    }
    OneMoreScan(p, s, id, |p|);
    if EverSeen(p + [s], id) {
      var k: nat :| SeenIn(p + [s], id, k);
      OneMoreScan(p, s, id, k);
    }
  }

  /** After any scans there is an entry for exactly the ids ever seen, and it tells the scan history. */
  lemma {:induction false} InventoryIsItsHistory(h: seq<ScanEvent>, id: string)
    ensures id in Snapshot(h) <==> EverSeen(h, id)
    ensures id in Snapshot(h) ==> Tells(Snapshot(h)[id], h, id)
  {
    if h != [] {
      var p, s := h[..|h| - 1], h[|h| - 1];
      assert h == p + [s];
      InventoryIsItsHistory(p, id);
      EverSeenGrows(p, s, id);
      if id in Ids(s.rows) {
        if id in Snapshot(p) {
          ResightingTells(Snapshot(p)[id], p, s, id);
        } else {
          FirstSightingTells(p, s, id);
        }
      } else if id in Snapshot(p) {
        AbsenceTells(Snapshot(p)[id], p, s, id);
      }
    }
  }

  lemma {:induction false} SnapshotIds(h: seq<ScanEvent>)
    requires GoodScans(h)
    ensures "" !in Snapshot(h) && forall id :: id in Snapshot(h) ==> Snapshot(h)[id].id == id
  {
    if h != [] {
      SnapshotIds(h[..|h| - 1]);
    }
  }

  /** The stored list follows the history scan by scan. */
  method ScanOnce(service: ModelInventoryService, ghost h: seq<ScanEvent>, s: ScanEvent) returns (summary: Summary)
    requires GoodScans(h + [s]) && Holds(service.models, Snapshot(h))
    modifies service
    ensures Holds(service.models, Snapshot(h + [s]))
    ensures summary.added + summary.changed + summary.same + summary.missing == |service.models|
  {
    assert (h + [s])[..|h + [s]| - 1] == h;
    assert (h + [s])[|h|] == s;
    assert forall i :: 0 <= i < |h| ==> h[i] == (h + [s])[i];
    SnapshotIds(h);
    ByIdHolds(service.models, Snapshot(h));
    var figures := service.Scan(Some(s.rows), s.now);
    summary := figures.value;
    ScanRefinesMap(service.lower, service.models, Snapshot(h), s.rows, s.now);
    CountsAddUp(service.models);
    CountsAreNumbers(service.models);
  }
}
