/**
 The deterministic signals of one discovery result, as `_signals` lists them: findings, inventory
 changes, coverage changes, model drift, and failed collection paths.
 */
module SignalReport {
  import opened Common
  import opened Signals
  import opened Discovery
  import opened SignalLayout

  function Signal(kind: Kind, severity: Severity, title: string, notes: Notes, identity: seq<string>,
                  authoritative: bool, w: Wording): Sighting {
    Sighting(w.fingerprint(kind, identity), kind, severity, Clip(title, 240),
             Notes(Clip(notes.detail, 4000), Clip(notes.subject, 500), Clip(notes.reference, 40)), authoritative)
  }

  function Digits(n: nat): string {
    var last := [(n % 10 + '0' as nat) as char];
    if n < 10 then last else Digits(n / 10) + last
  }

  function OrElse(text: string, fallback: string): string {
    if text == "" then fallback else text
  }

  /** The name with blanks for underscores, in title case. */
  function Heading(name: string, w: Wording): string {
    w.titleCase(Unscored(name))
  }

  function Unscored(name: string): string {
    if name == "" then "" else [if name[0] == '_' then ' ' else name[0]] + Unscored(name[1..])
  }

  function IdentityOf(f: DiscoveryFinding): seq<string> {
    [OrElse(f.domain, "posture"), OrElse(f.title, "Discovery finding")]
  }

  function FindingSignal(f: DiscoveryFinding, index: nat, failed: bool, w: Wording): Sighting {
    var severity := if failed && Severe(f.severity) then Medium else f.severity;
    var detail := OrElse(f.evidence, f.nextStep);
    Signal(Finding, severity, IdentityOf(f)[1],
           Notes(if failed
                 then "Collection was incomplete; treat this derived finding as unverified. " + detail else detail,
                 IdentityOf(f)[0], "D" + Digits(index)),
           IdentityOf(f), !failed, w)
  }

  function FindingSignals(fs: seq<Option<DiscoveryFinding>>, failed: bool, w: Wording): seq<Sighting> {
    if fs == [] then []
    else
      var f := fs[|fs| - 1];
      FindingSignals(fs[..|fs| - 1], failed, w)
      + if f.Some? then [FindingSignal(f.value, |fs|, failed, w)] else []
  }

  function ItemSignal(category: string, direction: string, item: string, failed: bool, w: Wording): Sighting {
    var subject := Clip(item, 500);
    Signal(Inventory, Medium, Heading(category, w) + [' '] + direction,
           Notes(subject + " was " + direction + " in deterministic discovery inventory.", subject, ""),
           [category, direction, subject], !failed, w)
  }

  function ItemSignals(category: string, direction: string, items: seq<string>, failed: bool,
                       w: Wording): seq<Sighting> {
    if items == [] then []
    else ItemSignals(category, direction, items[..|items| - 1], failed, w)
         + [ItemSignal(category, direction, items[|items| - 1], failed, w)]
  }

  function ChangeSignals(c: InventoryChange, failed: bool, w: Wording): seq<Sighting> {
    ItemSignals(c.category, "added", c.added, failed, w) + ItemSignals(c.category, "removed", c.removed, failed, w)
  }

  function InventorySignals(cs: seq<InventoryChange>, failed: bool, w: Wording): seq<Sighting> {
    if cs == [] then []
    else InventorySignals(cs[..|cs| - 1], failed, w) + ChangeSignals(cs[|cs| - 1], failed, w)
  }

  function CoverageSignal(c: CoverageChange, failed: bool, w: Wording): Sighting {
    Signal(Coverage, Medium, Heading(c.domain, w) + " coverage changed", Notes(c.text, c.domain, ""), [c.domain],
           !failed, w)
  }

  function CoverageSignals(cs: seq<CoverageChange>, failed: bool, w: Wording): seq<Sighting> {
    if cs == [] then []
    else CoverageSignals(cs[..|cs| - 1], failed, w) + [CoverageSignal(cs[|cs| - 1], failed, w)]
  }

  function MltkSignals(r: DiscoveryResult, failed: bool, w: Wording): seq<Sighting> {
    if r.mltkChanged == 0 && r.mltkMissing == 0 then []
    else [Signal(Mltk, Medium, "Splunk MLTK model definitions drifted",
                 Notes(Digits(r.mltkChanged) + " changed and " + Digits(r.mltkMissing) + " missing model definitions.",
                       "mltk-model-catalog", ""),
                 ["definitions"], !failed, w)]
  }

  function ErrorTools(errors: seq<CollectionError>): seq<string> {
    if errors == [] then [] else [errors[0].tool] + ErrorTools(errors[1..])
  }

  /** `errors.get`, or nothing. */
  function ErrorOf(errors: seq<CollectionError>, path: string): string {
    if errors == [] then ""
    else if errors[0].tool == path then errors[0].message
    else ErrorOf(errors[1..], path)
  }

  /** The failed collection paths, or what stands in for them when none is named. */
  function FailedPaths(r: DiscoveryResult): seq<string> {
    if r.failedCalls == 0 then []
    else if r.failedTools != [] then r.failedTools
    else if r.errors != [] then ErrorTools(r.errors)
    else ["unknown MCP collection"]
  }

  /** The unscoped fingerprint of a failed path. */
  function PathMark(path: string, w: Wording): string {
    w.fingerprint(Collection, [Clip(path, 500)])
  }

  function PathSignal(path: string, errors: seq<CollectionError>, w: Wording): Sighting {
    var subject := Clip(path, 500);
    var detail := "The bounded read-only collection path failed: " + subject + ". " + ErrorOf(errors, path);
    Signal(Collection, High, "Assurance collection path failed", Notes(Strip(w.blank, detail), subject, ""),
           [subject], true, w)
  }

  function CollectionSignals(paths: seq<string>, errors: seq<CollectionError>, w: Wording): seq<Sighting> {
    if paths == [] then []
    else CollectionSignals(paths[..|paths| - 1], errors, w) + [PathSignal(paths[|paths| - 1], errors, w)]
  }

  function SignalsOf(r: DiscoveryResult, w: Wording): seq<Sighting> {
    var failed := r.failedCalls != 0;
    FindingSignals(r.findings, failed, w) + InventorySignals(r.inventory, failed, w)
    + CoverageSignals(r.coverage, failed, w) + MltkSignals(r, failed, w)
    + CollectionSignals(FailedPaths(r), r.errors, w)
  }

  /** The list is built by appending in loops, section by section. */
  method CollectSignals(r: DiscoveryResult, w: Wording) returns (values: seq<Sighting>)
    ensures values == SignalsOf(r, w)
    ensures LaidOut(values, r, w)
  {
    SignalsAreLaidOut(r, w);
    values := AppendSections(r, w);
  }

  method AppendSections(r: DiscoveryResult, w: Wording) returns (values: seq<Sighting>)
    ensures values == SignalsOf(r, w)
  {
    var failed := r.failedCalls != 0;
    values := CollectFindings(r.findings, failed, w);
    var inventory := CollectInventory(r.inventory, failed, w);
    var coverage := CollectCoverage(r.coverage, failed, w);
    var collection := CollectFailedPaths(FailedPaths(r), r.errors, w);
    values := values + inventory + coverage + MltkSignals(r, failed, w) + collection;
  }

  method CollectFindings(fs: seq<Option<DiscoveryFinding>>, failed: bool, w: Wording) returns (values: seq<Sighting>)
    ensures values == FindingSignals(fs, failed, w)
  {
    values := [];
    for i := 0 to |fs|
      invariant values == FindingSignals(fs[..i], failed, w)
    {
      assert fs[..i + 1][..i] == fs[..i];
      if fs[i].Some? {
        values := values + [FindingSignal(fs[i].value, i + 1, failed, w)];
      }
    }
    assert fs[..|fs|] == fs;
  }

  method CollectInventory(cs: seq<InventoryChange>, failed: bool, w: Wording) returns (values: seq<Sighting>)
    ensures values == InventorySignals(cs, failed, w)
  {
    values := [];
    for i := 0 to |cs|
      invariant values == InventorySignals(cs[..i], failed, w)
    {
      var added := CollectItems(cs[i].category, "added", cs[i].added, failed, w);
      var removed := CollectItems(cs[i].category, "removed", cs[i].removed, failed, w);
      assert cs[..i + 1][..i] == cs[..i];
      values := values + (added + removed);
    }
    assert cs[..|cs|] == cs;
  }

  method CollectItems(category: string, direction: string, items: seq<string>, failed: bool, w: Wording)
    returns (values: seq<Sighting>)
    ensures values == ItemSignals(category, direction, items, failed, w)
  {
    values := [];
    for i := 0 to |items|
      invariant values == ItemSignals(category, direction, items[..i], failed, w)
    {
      assert items[..i + 1][..i] == items[..i];
      values := values + [ItemSignal(category, direction, items[i], failed, w)];
    }
    assert items[..|items|] == items;
  }

  method CollectCoverage(cs: seq<CoverageChange>, failed: bool, w: Wording) returns (values: seq<Sighting>)
    ensures values == CoverageSignals(cs, failed, w)
  {
    values := [];
    for i := 0 to |cs|
      invariant values == CoverageSignals(cs[..i], failed, w)
    {
      assert cs[..i + 1][..i] == cs[..i];
      values := values + [CoverageSignal(cs[i], failed, w)];
    }
    assert cs[..|cs|] == cs;
  }

  method CollectFailedPaths(paths: seq<string>, errors: seq<CollectionError>, w: Wording)
    returns (values: seq<Sighting>)
    ensures values == CollectionSignals(paths, errors, w)
  {
    values := [];
    for i := 0 to |paths|
      invariant values == CollectionSignals(paths[..i], errors, w)
    {
      assert paths[..i + 1][..i] == paths[..i];
      values := values + [PathSignal(paths[i], errors, w)];
    }
    assert paths[..|paths|] == paths;
  }

  // The report as the layout describes it.

  lemma {:induction false} DigitsAreDecimal(n: nat)
    ensures Decimal(Digits(n), n) && (n > 0 ==> Digits(n)[0] != '0')
  {
    var last := [(n % 10 + '0' as nat) as char];
    if n >= 10 {
      DigitsAreDecimal(n / 10);
      assert (Digits(n / 10) + last)[..|Digits(n)| - 1] == Digits(n / 10);
    } else {
      assert Digits(n) == last && last[..0] == "";
    }
  }

  lemma {:induction false} UnscoredUnscores(name: string)
    ensures Unscores(Unscored(name), name)
  {
    if name != "" {
      UnscoredUnscores(name[1..]);
    }
  }

  lemma HeadingHeads(name: string, rest: string, w: Wording)
    ensures HeadedBy(Clip(Heading(name, w) + rest, 240), name, rest, w)
  {
    UnscoredUnscores(name);
    ClipCuts(Heading(name, w) + rest, 240);
  }

  lemma SignalIsCut(kind: Kind, severity: Severity, title: string, notes: Notes, identity: seq<string>,
                    authoritative: bool, w: Wording)
    ensures var s := Signal(kind, severity, title, notes, identity, authoritative, w);
            && CutTo(s.title, title, 240) && CutTo(s.notes.detail, notes.detail, 4000)
            && CutTo(s.notes.subject, notes.subject, 500) && CutTo(s.notes.reference, notes.reference, 40)
  {
    ClipCuts(title, 240);
    ClipCuts(notes.detail, 4000);
    ClipCuts(notes.subject, 500);
    ClipCuts(notes.reference, 40);
  }

  lemma FindingFits(f: DiscoveryFinding, index: nat, failed: bool, w: Wording)
    ensures IsFinding(FindingSignal(f, index, failed, w), f, index, failed, w)
  {
    DigitsAreDecimal(index);
    var detail := OrElse(f.evidence, f.nextStep);
    var full := if failed
                then "Collection was incomplete; treat this derived finding as unverified. " + detail else detail;
    var severity := if failed && Severe(f.severity) then Medium else f.severity;
    SignalIsCut(Finding, severity, IdentityOf(f)[1], Notes(full, IdentityOf(f)[0], "D" + Digits(index)),
                IdentityOf(f), !failed, w);
  }

  lemma ItemFits(category: string, direction: string, item: string, failed: bool, w: Wording)
    ensures IsItem(ItemSignal(category, direction, item, failed, w), category, direction, item, failed, w)
  {
    ClipCuts(item, 500);
    var subject := Clip(item, 500);
    assert Clip(subject, 500) == subject;
    assert Heading(category, w) + [' '] + direction == Heading(category, w) + (" " + direction);
    HeadingHeads(category, " " + direction, w);
    ClipCuts(subject + " was " + direction + " in deterministic discovery inventory.", 4000);
  }

  lemma CoverageFits(c: CoverageChange, failed: bool, w: Wording)
    ensures IsCoverage(CoverageSignal(c, failed, w), c, failed, w)
  {
    HeadingHeads(c.domain, " coverage changed", w);
    ClipCuts(c.domain, 500);
    ClipCuts(c.text, 4000);
  }

  lemma {:induction false} ErrorOfMeans(errors: seq<CollectionError>, path: string)
    ensures MessageFor(ErrorOf(errors, path), errors, path)
  {
    if errors != [] && errors[0].tool != path {
      ErrorOfMeans(errors[1..], path);
      assert forall i :: 0 <= i < |errors[1..]| ==> errors[1..][i] == errors[i + 1];
      MessageShifts(ErrorOf(errors, path), errors, path);
    }
  }

  lemma MessageShifts(message: string, errors: seq<CollectionError>, path: string)
    requires errors != [] && errors[0].tool != path && MessageFor(message, errors[1..], path)
    ensures MessageFor(message, errors, path)
  {
    var rest := errors[1..];
    assert forall i :: 0 < i < |errors| ==> errors[i] == rest[i - 1];
    if i :| 0 <= i < |rest| && rest[i].tool == path && rest[i].message == message
            && forall j :: 0 <= j < i ==> rest[j].tool != path {
      assert errors[i + 1] == rest[i];
      assert forall j :: 0 <= j < i + 1 ==> errors[j].tool != path;
    }
  }

  lemma PathFits(path: string, errors: seq<CollectionError>, w: Wording)
    ensures IsPath(PathSignal(path, errors, w), path, errors, w)
  {
    ClipCuts(path, 500);
    var subject, message := Clip(path, 500), ErrorOf(errors, path);
    assert Clip(subject, 500) == subject;
    ErrorOfMeans(errors, path);
    var text := "The bounded read-only collection path failed: " + subject + ". " + message;
    StripStrips(w.blank, text);
    ClipCuts(Strip(w.blank, text), 4000);
    assert Clip("Assurance collection path failed", 240) == "Assurance collection path failed";
  }

  lemma DictsGrow(fs: seq<Option<DiscoveryFinding>>, f: Option<DiscoveryFinding>, i: nat)
    ensures i <= |fs| ==> DictsBefore(fs + [f], i) == DictsBefore(fs, i)
    ensures DictsBefore(fs + [f], |fs| + 1) == DictsBefore(fs, |fs|) + if f.Some? then 1 else 0
  {
    var all := fs + [f];
    assert forall k :: 0 <= k < |fs| ==> all[k] == fs[k];
    if i <= |fs| {
      assert (set k: nat | k < i && k < |all| && all[k].Some?) == (set k: nat | k < i && k < |fs| && fs[k].Some?);
    }
    assert (set k: nat | k < |fs| + 1 && k < |all| && all[k].Some?)
        == (set k: nat | k < |fs| && k < |fs| && fs[k].Some?) + if f.Some? then {|fs|} else {};
  }

  lemma NoneBefore(fs: seq<Option<DiscoveryFinding>>, i: nat)
    ensures i == 0 ==> DictsBefore(fs, i) == 0
  {
    var before := set k: nat | k < i && k < |fs| && fs[k].Some?;
    assert i == 0 ==> before == {};
  }

  lemma {:induction false} FindingsCounted(fs: seq<Option<DiscoveryFinding>>, failed: bool, w: Wording)
    ensures |FindingSignals(fs, failed, w)| == DictsBefore(fs, |fs|)
  {
    if fs == [] {
      NoneBefore(fs, 0);
    } else {
      FindingsCounted(fs[..|fs| - 1], failed, w);
      DictsGrow(fs[..|fs| - 1], fs[|fs| - 1], 0);
      assert fs == fs[..|fs| - 1] + [fs[|fs| - 1]];
    }
  }

  /** The signal of a finding stands behind those of the findings before it. */
  lemma {:induction false} FindingAt(fs: seq<Option<DiscoveryFinding>>, failed: bool, w: Wording, i: nat)
    requires i < |fs| && fs[i].Some?
    ensures var k := DictsBefore(fs, i);
            k < |FindingSignals(fs, failed, w)|
            && FindingSignals(fs, failed, w)[k] == FindingSignal(fs[i].value, i + 1, failed, w)
  {
    var front, last := fs[..|fs| - 1], fs[|fs| - 1];
    assert fs == front + [last];
    DictsGrow(front, last, i);
    FindingsCounted(front, failed, w);
    if i < |front| {
      FindingAt(front, failed, w, i);
    }
  }

  lemma {:induction false} AllStandFor(fs: seq<Option<DiscoveryFinding>>, k: nat)
    requires k < DictsBefore(fs, |fs|)
    ensures StandsFor(fs, k)
  {
    if fs == [] {
      NoneBefore(fs, 0);
      assert false;
    } else {
      var front, last := fs[..|fs| - 1], fs[|fs| - 1];
      assert fs == front + [last];
      DictsGrow(front, last, |front|);
      if k < DictsBefore(front, |front|) {
        AllStandFor(front, k);
        var i :| 0 <= i < |front| && front[i].Some? && DictsBefore(front, i) == k;
        DictsGrow(front, last, i);
        assert fs[i] == front[i];
      } else {
        assert fs[|front|] == last;
      }
    }
  }

  lemma FindingsFit(fs: seq<Option<DiscoveryFinding>>, failed: bool, w: Wording)
    ensures FindingsListed(FindingSignals(fs, failed, w), fs, failed, w)
  {
    FindingsCounted(fs, failed, w);
    forall i | 0 <= i < |fs| && fs[i].Some?
      ensures DictsBefore(fs, i) < |FindingSignals(fs, failed, w)|
      ensures IsFinding(FindingSignals(fs, failed, w)[DictsBefore(fs, i)], fs[i].value, i + 1, failed, w)
    {
      FindingAt(fs, failed, w, i);
      FindingFits(fs[i].value, i + 1, failed, w);
    }
    forall k: nat | k < DictsBefore(fs, |fs|)
      ensures StandsFor(fs, k)
    {
      AllStandFor(fs, k);
    }
  }

  lemma {:induction false} ItemsFit(category: string, direction: string, items: seq<string>, failed: bool, w: Wording)
    ensures ItemsListed(ItemSignals(category, direction, items, failed, w), category, direction, items, failed, w)
  {
    if items != [] {
      ItemsFit(category, direction, items[..|items| - 1], failed, w);
      ItemFits(category, direction, items[|items| - 1], failed, w);
    }
  }

  lemma ChangeFits(c: InventoryChange, failed: bool, w: Wording)
    ensures ChangeListed(ChangeSignals(c, failed, w), c, failed, w)
  {
    var added := ItemSignals(c.category, "added", c.added, failed, w);
    var removed := ItemSignals(c.category, "removed", c.removed, failed, w);
    ItemsFit(c.category, "added", c.added, failed, w);
    ItemsFit(c.category, "removed", c.removed, failed, w);
    assert (added + removed)[..|added|] == added && (added + removed)[|added|..] == removed;
  }

  /** The signals of the inventory, category by category. */
  function ChangeParts(cs: seq<InventoryChange>, failed: bool, w: Wording): seq<seq<Sighting>> {
    seq(|cs|, i requires 0 <= i < |cs| => ChangeSignals(cs[i], failed, w))
  }

  lemma {:induction false} PartsJoin(cs: seq<InventoryChange>, failed: bool, w: Wording)
    ensures Joined(ChangeParts(cs, failed, w)) == InventorySignals(cs, failed, w)
  {
    if cs != [] {
      var front, c := cs[..|cs| - 1], cs[|cs| - 1];
      PartsJoin(front, failed, w);
      PartsSnoc(cs, failed, w);
      JoinedSnoc(ChangeParts(front, failed, w), ChangeSignals(c, failed, w));
    }
  }

  lemma PartsSnoc(cs: seq<InventoryChange>, failed: bool, w: Wording)
    requires cs != []
    ensures ChangeParts(cs, failed, w)
         == ChangeParts(cs[..|cs| - 1], failed, w) + [ChangeSignals(cs[|cs| - 1], failed, w)]
  {
  }

  lemma JoinedSnoc(parts: seq<seq<Sighting>>, part: seq<Sighting>)
    ensures Joined(parts + [part]) == Joined(parts) + part
  {
    assert (parts + [part])[..|parts + [part]| - 1] == parts;
  }

  lemma InventoryFits(cs: seq<InventoryChange>, failed: bool, w: Wording)
    ensures InventoryListed(InventorySignals(cs, failed, w), cs, failed, w)
  {
    var parts := ChangeParts(cs, failed, w);
    PartsJoin(cs, failed, w);
    forall i | 0 <= i < |cs|
      ensures ChangeListed(parts[i], cs[i], failed, w)
    {
      ChangeFits(cs[i], failed, w);
    }
    assert PartsFit(parts, InventorySignals(cs, failed, w), cs, failed, w);
  }

  lemma {:induction false} CoverageSectionFits(cs: seq<CoverageChange>, failed: bool, w: Wording)
    ensures CoverageListed(CoverageSignals(cs, failed, w), cs, failed, w)
  {
    if cs != [] {
      CoverageSectionFits(cs[..|cs| - 1], failed, w);
      CoverageFits(cs[|cs| - 1], failed, w);
    }
  }

  lemma DriftFits(r: DiscoveryResult, failed: bool, w: Wording)
    ensures DriftListed(MltkSignals(r, failed, w), r, failed, w)
  {
    DigitsAreDecimal(r.mltkChanged);
    DigitsAreDecimal(r.mltkMissing);
    ClipCuts(Digits(r.mltkChanged) + " changed and " + Digits(r.mltkMissing) + " missing model definitions.", 4000);
    assert Clip("Splunk MLTK model definitions drifted", 240) == "Splunk MLTK model definitions drifted";
    assert Clip("mltk-model-catalog", 500) == "mltk-model-catalog";
  }

  lemma {:induction false} PathsFit(paths: seq<string>, errors: seq<CollectionError>, w: Wording)
    ensures PathsListed(CollectionSignals(paths, errors, w), paths, errors, w)
  {
    if paths != [] {
      PathsFit(paths[..|paths| - 1], errors, w);
      PathFits(paths[|paths| - 1], errors, w);
    }
  }

  lemma {:induction false} ErrorToolsListed(errors: seq<CollectionError>)
    ensures |ErrorTools(errors)| == |errors|
    ensures forall i :: 0 <= i < |errors| ==> ErrorTools(errors)[i] == errors[i].tool
  {
    if errors != [] {
      ErrorToolsListed(errors[1..]);
    }
  }

  function SectionsOf(r: DiscoveryResult, w: Wording): Sections {
    var failed := r.failedCalls != 0;
    Sections(FindingSignals(r.findings, failed, w), InventorySignals(r.inventory, failed, w),
             CoverageSignals(r.coverage, failed, w), MltkSignals(r, failed, w),
             CollectionSignals(FailedPaths(r), r.errors, w))
  }

  lemma FailedPathsAreThose(r: DiscoveryResult)
    ensures PathsOf(FailedPaths(r), r)
  {
    ErrorToolsListed(r.errors);
  }

  lemma SectionsAllFit(r: DiscoveryResult, w: Wording)
    ensures SectionsFit(SectionsOf(r, w), r, w)
  {
    var failed := r.failedCalls != 0;
    FindingsFit(r.findings, failed, w);
    InventoryFits(r.inventory, failed, w);
    CoverageSectionFits(r.coverage, failed, w);
    DriftFits(r, failed, w);
    PathsFit(FailedPaths(r), r.errors, w);
    FailedPathsAreThose(r);
  }

  lemma SignalsAreLaidOut(r: DiscoveryResult, w: Wording)
    ensures LaidOut(SignalsOf(r, w), r, w)
  {
    SectionsAllFit(r, w);
    var x := SectionsOf(r, w);
    assert SignalsOf(r, w) == x.findings + x.inventory + x.coverage + x.drift + x.paths;
  }
}
