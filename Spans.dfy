/**
 * The Jaeger span records as the Elasticsearch search response carries them
 * (SpansRecord and the types nested in it), and the accessors over one hit.
 * Records are values: decoding produces them and nothing changes them later.
 */
module Spans {
  import opened GoInt

  /** A JSON value the program declares as interface{} and never looks into. */
  datatype RawJson = RawJson(text: string)

  /** A float64 the program carries but never computes with (a hit's score, the maximum score). */
  datatype Float64 = Float64(bits: bv64)

  datatype Tag = Tag(key: string, valueType: string, value: string)

  datatype Process = Process(serviceName: string, tags: seq<Tag>)

  /** The span itself: the "_source" object of a hit. */
  datatype Source = Source(
    traceID: string,
    spanID: string,
    flags: Int64,
    operationName: string,
    references: seq<RawJson>,
    startTime: Int64,
    startTimeMillis: Int64,
    duration: Int64,
    tags: seq<Tag>,
    logs: seq<RawJson>,
    process: Process)

  datatype Hit = Hit(index: string, docType: string, id: string, score: Float64, source: Source)
  {
    function TraceId(): string { source.traceID }
    function SpanId(): string { source.spanID }
    function StartTimeMillis(): Int64 { source.startTimeMillis }
    function OperationName(): string { source.operationName }
    function ServiceName(): string { source.process.serviceName }
  }

  datatype Total = Total(value: Int64, relation: string)

  datatype HitsSummary = HitsSummary(total: Total, maxScore: Float64, hits: seq<Hit>)

  datatype Shards = Shards(total: Int64, successful: Int64, skipped: Int64, failed: Int64)

  /** One search response: the decoded body of a query or of the local span dump. */
  datatype SpansRecord = SpansRecord(took: Int64, timedOut: bool, shards: Shards, hits: HitsSummary)
  {
    function GetHits(): seq<Hit> { hits.hits }
  }

  /** Go's zero value of Source: empty strings, zero numbers, nil slices. */
  const ZeroSource: Source :=
    Source("", "", 0, "", [], 0, 0, 0, [], [], Process("", []))

  /** Go's zero value of Hit, returned next to an error. */
  const ZeroHit: Hit := Hit("", "", "", Float64(0), ZeroSource)
}
