/**
 * The records that flow between the YAML reader and the engines.
 * A YAML document is a mapping; only the keys the core reads are kept.
 */
module Faults {
  import opened Wrappers

  /** One entry of a fault's `causes` list; `text` is what Python's `str()` prints for it. */
  datatype Cause = Cause(text: string)

  /** The mapping under the `fault` key; a key the document lacks is `None`. */
  datatype FaultBody = FaultBody(
    name: Option<string>,
    symptoms: Option<seq<string>>,
    causes: Option<seq<Cause>>)

  /**
   * What the `fault` key of a document holds: no such key, a value that is
   * not a mapping (null, a string, a list), or a mapping.
   */
  datatype FaultEntry = Missing | NotMapping | Entry(body: FaultBody)

  /** A parsed fault document, with the `_source_file`, `_fault_number` and `_subsystem` tags. */
  datatype FaultDoc = FaultDoc(
    fault: FaultEntry,
    sourceFile: Option<string>,
    faultNumber: Option<int>,
    subsystem: Option<string>)

  /**
   * One engine result: the dictionary with keys `fault`, `confidence`,
   * `causes`, `source` and, for the semantic engine, `source_file` and
   * `fault_number`.
   */
  datatype Match = Match(
    fault: string,
    confidence: real,
    causes: seq<Cause>,
    source: string,
    sourceFile: Option<string>,
    faultNumber: Option<int>)

  function Confidence(m: Match): real { m.confidence }
}
