/**
  The entities the pipeline passes around: the raw record the CVE data
  source returns, the Vulnerability built from it and the
  VulnerabilityEvent (one observed outcome of a vulnerability at a date).
  Dates are whole seconds on one naive clock.
 */
module Data {
  import opened Wrappers

  /** One attack pattern of a raw record; a key missing from the JSON object is `None`. */
  datatype CapecEntry = CapecEntry(id: Option<string>, name: Option<string>)

  /**
    The raw record `find_cve_by_id` returns, reduced to the keys the core
    reads. A key that the source catches a `KeyError` for is an `Option`.
   */
  datatype Record = Record(
    description: string,               // cve.description.description_data[0].value
    capec: Option<seq<CapecEntry>>,    // capec
    problemTypes: seq<seq<string>>,    // cve.problemtype.problemtype_data[i].description[j].value
    exploitabilityScore: Option<real>, // impact.baseMetricV3.exploitabilityScore
    vectorString: Option<string>,      // impact.baseMetricV3.cvssV3.vectorString
    references: seq<string>,           // cve.references.reference_data
    publishedDate: string,             // publishedDate, unparsed
    history: string                    // history, passed through untouched
  )

  /** The canonical vulnerability the features and the target are computed from. */
  datatype Vulnerability = Vulnerability(
    keywords: seq<string>,
    capec: seq<(string, string)>,      // (attack-pattern id, name)
    cwe: seq<string>,
    eScore: real,                      // CVSS v3 exploitability score
    cvssVector: string,
    referencesNumber: nat,
    publishedDate: int,
    history: string,
    target: Option<real>               // an override of the computed target
  )

  /** One row of the outcome history; `details` is `None` when the record could not be built. */
  datatype VulnerabilityEvent = VulnerabilityEvent(
    id: string,
    date: int,
    outcome: bool,
    details: Option<Vulnerability>
  )

  const SecondsPerDay: int := 86400

  /** `timedelta.days` of a difference of `seconds`: whole days, rounded down. */
  function Days(seconds: int): (d: int)
    ensures d * SecondsPerDay <= seconds < (d + 1) * SecondsPerDay
  {
    seconds / SecondsPerDay
  }
}
