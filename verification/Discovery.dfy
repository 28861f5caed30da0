/** The result of a discovery, as far as its signals are read off it. */
module Discovery {
  import opened Common
  import opened Signals

  /** A finding; an empty text stands for a missing one. */
  datatype DiscoveryFinding = DiscoveryFinding(domain: string, title: string, severity: Severity, evidence: string,
                                               nextStep: string)

  datatype InventoryChange = InventoryChange(category: string, added: seq<string>, removed: seq<string>)

  /** A coverage change and its JSON text. */
  datatype CoverageChange = CoverageChange(domain: string, text: string)

  datatype CollectionError = CollectionError(tool: string, message: string)

  /** Findings that are not dictionaries are None: they are skipped, and counted in the references. */
  datatype DiscoveryResult = DiscoveryResult(depth: Depth, failedCalls: nat, findings: seq<Option<DiscoveryFinding>>,
                                             inventory: seq<InventoryChange>, coverage: seq<CoverageChange>,
                                             mltkChanged: nat, mltkMissing: nat,
                                             failedTools: seq<string>, errors: seq<CollectionError>)

  /** SHA-256 of a kind and its identity parts, `str.title`, and what `str.strip` strips. */
  datatype Wording = Wording(fingerprint: (Kind, seq<string>) -> string, titleCase: string -> string,
                             blank: char -> bool)
}
