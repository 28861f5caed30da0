/**
 Which signals a discovery reports, read off its result: one for each finding, inventory item, coverage
 change and failed path, and one for model drift, in that order and with these texts.
 */
module SignalLayout {
  import opened Common
  import opened Signals
  import opened Discovery

  /** Trusted exactly in a full read. */
  predicate Derives(s: Sighting, kind: Kind, failed: bool) {
    s.kind == kind && s.authoritative == !failed
  }

  /** A severe finding of a partial read is reported as medium; every other keeps its severity. */
  predicate SeverityFits(reported: Severity, found: Severity, failed: bool) {
    && (failed && (found.Critical? || found.High?) ==> reported.Medium?)
    && (!failed || found.Medium? || found.Low? ==> reported == found)
  }

  /** A number as decimal digits, without leading zeros. */
  predicate Decimal(text: string, n: nat) {
    && text != "" && (forall i :: 0 <= i < |text| ==> '0' <= text[i] <= '9')
    && (|text| > 1 ==> text[0] != '0')
    && ValueOf(text) == n
  }

  function ValueOf(text: string): int {
    if text == "" then 0 else 10 * ValueOf(text[..|text| - 1]) + (text[|text| - 1] as int - '0' as int)
  }

  /** The name with every underscore replaced by a blank. */
  ghost predicate Unscores(plain: string, name: string) {
    && |plain| == |name|
    && forall i :: 0 <= i < |name| ==> plain[i] == if name[i] == '_' then ' ' else name[i]
  }

  ghost predicate HeadedBy(title: string, name: string, rest: string, w: Wording) {
    exists plain :: Unscores(plain, name) && CutTo(title, w.titleCase(plain) + rest, 240)
  }

  /** The index-th finding; missing texts have fixed replacements. */
  ghost predicate IsFinding(s: Sighting, f: DiscoveryFinding, index: nat, failed: bool, w: Wording) {
    var domain := if f.domain == "" then "posture" else f.domain;
    var title := if f.title == "" then "Discovery finding" else f.title;
    var detail := if f.evidence == "" then f.nextStep else f.evidence;
    && Derives(s, Finding, failed) && SeverityFits(s.severity, f.severity, failed)
    && s.fingerprint == w.fingerprint(Finding, [domain, title])
    && CutTo(s.title, title, 240) && CutTo(s.notes.subject, domain, 500)
    && (exists digits :: Decimal(digits, index) && CutTo(s.notes.reference, "D" + digits, 40))
    && CutTo(s.notes.detail,
             if failed
             then "Collection was incomplete; treat this derived finding as unverified. " + detail else detail,
             4000)
  }

  /** The item appeared in, or vanished from, a category of the inventory. */
  ghost predicate IsItem(s: Sighting, category: string, direction: string, item: string, failed: bool, w: Wording) {
    && Derives(s, Inventory, failed) && s.severity.Medium?
    && CutTo(s.notes.subject, item, 500) && s.notes.reference == ""
    && s.fingerprint == w.fingerprint(Inventory, [category, direction, s.notes.subject])
    && HeadedBy(s.title, category, " " + direction, w)
    && CutTo(s.notes.detail, s.notes.subject + " was " + direction + " in deterministic discovery inventory.", 4000)
  }

  ghost predicate IsCoverage(s: Sighting, c: CoverageChange, failed: bool, w: Wording) {
    && Derives(s, Coverage, failed) && s.severity.Medium?
    && s.fingerprint == w.fingerprint(Coverage, [c.domain])
    && HeadedBy(s.title, c.domain, " coverage changed", w)
    && CutTo(s.notes.subject, c.domain, 500) && s.notes.reference == "" && CutTo(s.notes.detail, c.text, 4000)
  }

  ghost predicate IsDrift(s: Sighting, r: DiscoveryResult, failed: bool, w: Wording) {
    && Derives(s, Mltk, failed) && s.severity.Medium?
    && s.fingerprint == w.fingerprint(Mltk, ["definitions"])
    && s.title == "Splunk MLTK model definitions drifted" && s.notes.subject == "mltk-model-catalog"
    && s.notes.reference == ""
    && exists changed, missing ::
         && Decimal(changed, r.mltkChanged) && Decimal(missing, r.mltkMissing)
         && CutTo(s.notes.detail, changed + " changed and " + missing + " missing model definitions.", 4000)
  }

  /** The message recorded for the path, if there is one. */
  ghost predicate MessageFor(message: string, errors: seq<CollectionError>, path: string) {
    || (exists i :: && 0 <= i < |errors| && errors[i].tool == path && errors[i].message == message
                    && forall j :: 0 <= j < i ==> errors[j].tool != path)
    || (message == "" && forall i :: 0 <= i < |errors| ==> errors[i].tool != path)
  }

  /** A failed path is severe, and trusted though the read was partial. */
  ghost predicate IsPath(s: Sighting, path: string, errors: seq<CollectionError>, w: Wording) {
    && s.kind.Collection? && s.severity.High? && s.authoritative
    && CutTo(s.notes.subject, path, 500) && s.notes.reference == ""
    && s.fingerprint == w.fingerprint(Collection, [s.notes.subject])
    && s.title == "Assurance collection path failed"
    && exists message, detail ::
         && MessageFor(message, errors, path)
         && Strips(w.blank, "The bounded read-only collection path failed: " + s.notes.subject + ". " + message, detail)
         && CutTo(s.notes.detail, detail, 4000)
  }

  // The sections.

  /** How many of the first i findings are dictionaries. */
  ghost function DictsBefore(fs: seq<Option<DiscoveryFinding>>, i: nat): nat {
    |set k: nat | k < i && k < |fs| && fs[k].Some?|
  }

  /** The k-th listed signal stands for some finding. */
  ghost predicate StandsFor(fs: seq<Option<DiscoveryFinding>>, k: nat) {
    exists i :: 0 <= i < |fs| && fs[i].Some? && DictsBefore(fs, i) == k
  }

  /** One signal for each finding that is a dictionary, in order, and no other. */
  ghost predicate FindingsListed(values: seq<Sighting>, fs: seq<Option<DiscoveryFinding>>, failed: bool, w: Wording) {
    && |values| == DictsBefore(fs, |fs|)
    && (forall i :: 0 <= i < |fs| && fs[i].Some? ==>
          && DictsBefore(fs, i) < |values|
          && IsFinding(values[DictsBefore(fs, i)], fs[i].value, i + 1, failed, w))
    && (forall k :: 0 <= k < |values| ==> StandsFor(fs, k))
  }

  ghost predicate ItemsListed(values: seq<Sighting>, category: string, direction: string, items: seq<string>,
                              failed: bool, w: Wording) {
    |values| == |items|
    && forall j :: 0 <= j < |items| ==> IsItem(values[j], category, direction, items[j], failed, w)
  }

  /** One signal for each added item, then one for each removed. */
  ghost predicate ChangeListed(values: seq<Sighting>, c: InventoryChange, failed: bool, w: Wording) {
    && |values| == |c.added| + |c.removed|
    && ItemsListed(values[..|c.added|], c.category, "added", c.added, failed, w)
    && ItemsListed(values[|c.added|..], c.category, "removed", c.removed, failed, w)
  }

  /** The values fall into one part for each category, in order. */
  ghost predicate InventoryListed(values: seq<Sighting>, cs: seq<InventoryChange>, failed: bool, w: Wording) {
    exists parts: seq<seq<Sighting>> :: PartsFit(parts, values, cs, failed, w)
  }

  ghost predicate PartsFit(parts: seq<seq<Sighting>>, values: seq<Sighting>, cs: seq<InventoryChange>, failed: bool,
                           w: Wording) {
    && |parts| == |cs| && values == Joined(parts)
    && forall i :: 0 <= i < |cs| ==> ChangeListed(parts[i], cs[i], failed, w)
  }

  function Joined(parts: seq<seq<Sighting>>): seq<Sighting> {
    if parts == [] then [] else Joined(parts[..|parts| - 1]) + parts[|parts| - 1]
  }

  ghost predicate CoverageListed(values: seq<Sighting>, cs: seq<CoverageChange>, failed: bool, w: Wording) {
    |values| == |cs| && forall i :: 0 <= i < |cs| ==> IsCoverage(values[i], cs[i], failed, w)
  }

  /** One signal if any definition changed or is missing. */
  ghost predicate DriftListed(values: seq<Sighting>, r: DiscoveryResult, failed: bool, w: Wording) {
    if r.mltkChanged == 0 && r.mltkMissing == 0 then values == []
    else |values| == 1 && IsDrift(values[0], r, failed, w)
  }

  /** The paths named as failed, else those with an error, else a stand-in; none in a full read. */
  ghost predicate PathsOf(paths: seq<string>, r: DiscoveryResult) {
    && (r.failedCalls == 0 ==> paths == [])
    && (r.failedCalls > 0 && r.failedTools != [] ==> paths == r.failedTools)
    && (r.failedCalls > 0 && r.failedTools == [] && r.errors != [] ==>
          |paths| == |r.errors| && forall i :: 0 <= i < |paths| ==> paths[i] == r.errors[i].tool)
    && (r.failedCalls > 0 && r.failedTools == [] && r.errors == [] ==> paths == ["unknown MCP collection"])
  }

  ghost predicate PathsListed(values: seq<Sighting>, paths: seq<string>, errors: seq<CollectionError>, w: Wording) {
    |values| == |paths| && forall i :: 0 <= i < |paths| ==> IsPath(values[i], paths[i], errors, w)
  }

  /** The five sections of a report. */
  datatype Sections = Sections(findings: seq<Sighting>, inventory: seq<Sighting>, coverage: seq<Sighting>,
                               drift: seq<Sighting>, paths: seq<Sighting>)

  ghost predicate SectionsFit(x: Sections, r: DiscoveryResult, w: Wording) {
    var failed := r.failedCalls > 0;
    && FindingsListed(x.findings, r.findings, failed, w)
    && InventoryListed(x.inventory, r.inventory, failed, w)
    && CoverageListed(x.coverage, r.coverage, failed, w)
    && DriftListed(x.drift, r, failed, w)
    && exists paths :: PathsOf(paths, r) && PathsListed(x.paths, paths, r.errors, w)
  }

  /** The report lists what the result holds, section after section, and nothing else. */
  ghost predicate LaidOut(values: seq<Sighting>, r: DiscoveryResult, w: Wording) {
    exists x: Sections ::
      values == x.findings + x.inventory + x.coverage + x.drift + x.paths && SectionsFit(x, r, w)
  }
}
