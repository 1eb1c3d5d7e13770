/** Projected records and the events that change them. */
module ControlRecords {
  import opened Ranges
  import opened Wrappers

  const SCHEMA_VERSION := "v2"
  const EVENT_RUN_STARTED_WITH_REPLACEMENT := "run_started_with_replacement"
  const EVENT_REPLACEMENT_COMMITTED := "replacement_committed"

  datatype Span = Span(ranges: seq<Range>, written: int, rest: string)

  datatype Meta = Meta(group: string, runId: string, overwrites: seq<Range>)

  /** One record. `replacingRun` and `replacedKeys` are read only in a replacement event; `rest`
      stands for the fields nothing here reads. */
  datatype Record = Record(
    key: string,
    kind: string,
    status: string,
    timestamp: Option<real>,
    schema: Option<string>,
    meta: Meta,
    span: Option<Span>,
    replacedBy: Option<string>,
    replacedAt: Option<real>,
    replacingRun: string,
    replacedKeys: seq<string>,
    rest: string)

  datatype Event = Event(eventType: string, timestamp: real, record: Record)

  type Current = map<string, Record>

  /** Every record is stored under its own non-empty key. */
  ghost predicate WellKeyed(m: Current) {
    forall k :: k in m ==> k != "" && m[k].key == k
  }
}
