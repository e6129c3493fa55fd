# Jaeger span reconciliation — a Dafny model

`poc-tracing-go` measures how long a change takes from the moment the
`collector-mercado-worker` service starts processing it (span operation
`process-ctle`) to the moment `changeprocessor` writes it to MongoDB (span
operation `write-to-mongo`). The live `main` (main.go:34-43) splits today
into 24 hour windows and, for each window, searches the Elasticsearch index
`test` for completion spans and logs how many it found. Pairing each
completion span with the initiation span of the same trace, and subtracting
their start times, exists only in a commented-out block of `main`
(main.go:61-74) that reads a local span dump. The model covers both.

This project models the deterministic core of `main.go` in Dafny and proves
what it does:

- **Hour windows** (`Windows`). `todayChunks` is a loop that appends 25 hour
  boundaries after a given midnight. The loop in `main` turns consecutive
  boundaries into 24 inclusive windows `[tc[i], tc[i+1]-1]` and builds one
  search body per window. Both are methods with loop invariants. Lemmas show
  that the windows split the day into hours: consecutive windows do not
  overlap and every instant of the day lies in exactly one window.
- **Query body** (`QueryBody`). `createBodyWithRange` caps the page size at
  10000. It splices six texts verbatim into a fixed JSON template, then
  applies the one `strings.Replace` call whose result it keeps. A parser for
  the template is its inverse. Further lemmas state exactly when the kept
  replacement changes the body.
- **Span matching** (`Matching`). `findEndOfTraces` and `findStartOfTrace`
  scan a decoded span dump with loops, proved against an order-preserving
  filter. The commented-out driver pairs each completion span with its
  initiation span and computes the time between them. The lemmas cover a
  unique match, no match and two matches, including the error text that
  carries the count.
- **Index name** (`IndexNames`). `indexToday` takes the date as parameters.
  It zero-pads the month but not the day, and returns only the day text.
- **Records** (`Spans`). `SpansRecord`, `Hit`, `Source`, `Process`, `Tag`,
  `Shards`, `Total` and `HitsSummery` (here `HitsSummary`) become datatypes.
  The getters (`getHits`, `getTraceId`, `getSpanId`, `getStartTimeMillis`,
  `getOperationName`, `getServiceName`, main.go:332-361) become member
  functions that return the field. The matching code reads spans only
  through these getters.
- Go semantics the model relies on are written out:
  - `GoInt`: int64 wrap-around and division that truncates toward zero.
  - `Decimal`: `strconv.Itoa`/`FormatInt`, with a parser as its inverse.
  - `GoStrings`: `strings.Replace` with n = 1.

The clock, the timezone database, HTTP and JSON decoding are outside the
model. The midnight timestamp, the date and the decoded span dump are
parameters.

Behaviour of the code worth knowing, all of it modelled as written:

- Jaeger names its daily span indices `jaeger-span-YYYY-MM-DD`.
  `indexToday` pads the month but not the day (see Findings).
- On a matching error the commented-out driver still subtracts the start
  time of the zero-value `Hit` (main.go:71), which is 0. Its "duration" is
  then the completion span's own start time (`Matching.ReconcileNoStart`).
- The only warning the code prints is when it caps the page size above
  10000 (main.go:222-224). It has no warning for a window that returns a
  full page, or for a negative duration.
- `findStartOfTrace` scans a local dump for the initiation span. It does not
  query the backend by trace id.

## Model

| member | source | states |
|---|---|---|
| `GoInt.Wrap64` | main.go:207 | int64 arithmetic gives the mathematical value whenever that value fits in an int64 |
| `GoInt.Wrap64Congruent` | main.go:207 | outside that range the int64 result differs from the mathematical value by a multiple of 2^64 |
| `GoInt.TruncDiv` | main.go:291 | Go's `/` on a positive divisor: the remainder has the sign of the dividend and is smaller than the divisor |
| `Decimal.NatToString` | main.go:220 | the decimal rendering is non-empty and all digits, starts with '0' only for zero, and has one digit below 10 and two from 10 to 99 |
| `Decimal.NatToStringRoundTrip` | main.go:220 | parsing the digits of n gives n back |
| `Decimal.IntToString` | main.go:220 | `strconv.FormatInt(x, 10)` and `strconv.Itoa`; its properties are the round trip, injectivity and shape lemmas below |
| `Decimal.IntToStringRoundTrip` | main.go:220 | `strconv.FormatInt` loses nothing: parsing the text gives the number back |
| `Decimal.IntToStringInjective` | main.go:220 | different numbers never render to the same text |
| `Decimal.IntToStringShape` | main.go:220 | the text is digits with a leading '-' exactly for negative numbers |
| `Decimal.ParseNatLeadingZero` | main.go:175 | the leading "0" put before a month does not change its value |
| `GoStrings.FirstIndex` | main.go:265 | the first occurrence of a pattern: it occurs there, nowhere earlier, and None exactly when it does not occur |
| `GoStrings.ReplaceOne` | main.go:265 | `strings.Replace(s, old, new, 1)`; what it returns is stated by `GoStrings.ReplaceOneUnchanged` and `GoStrings.ReplaceOneFound` |
| `GoStrings.ReplaceOneUnchanged` | main.go:260-265 | `strings.Replace(s, old, new, 1)` returns s unchanged exactly when old does not occur in s or old equals new |
| `GoStrings.ReplaceOneFound` | main.go:265 | when old occurs, the text before its first occurrence is kept, new takes that occurrence's place, and the rest follows |
| `QueryBody.SizeText` | main.go:220-225 | the size text is the canonical decimal of min(size, 10000): "10000" above the cap, the decimal of size otherwise, including 10000 itself and negative sizes |
| `QueryBody.CreateBodyWithRange` | main.go:219-269 | the body sent with each search: the template around the size text and the five values, then the kept `strings.Replace`; exactly when that differs from the plain template is stated by `QueryBody.CreateBodyWithRangeIsTemplate` |
| `QueryBody.RangeQueryBody` | main.go:227-259 | `jsonString`: the raw template with the size text and the five values spliced in verbatim, before any `strings.Replace`; stated by `QueryBody.ParseRangeQueryInverts`, `QueryBody.ParseRangeQueryOnlyTemplates` and `QueryBody.PlaceholderInBody` |
| `QueryBody.ParseRangeQueryInverts` | main.go:227-259 | the template holds the six texts verbatim at their places: reading a body back yields them when none contains the character that ends it |
| `QueryBody.ParseRangeQueryOnlyTemplates` | main.go:227-259 | only template bodies read back: whatever parses is exactly the template around the texts read |
| `QueryBody.PlaceholderInBody` | main.go:227-265 | "$sort" occurs in a template body exactly when it occurs in one of the spliced texts (the template itself has no '$') |
| `QueryBody.CreateBodyWithRangeIsTemplate` | main.go:219-269 | the returned body is the plain template exactly when the sort order is "$sort" or no value passed in contains "$sort" |
| `QueryBody.PlaceholderServiceNameRewritten` | main.go:265 | with service name "$sort" and any other sort order, the body names the sort order as the service, not the service given |
| `Matching.FilterMembers` | main.go:156-161 | the filter keeps exactly the elements that satisfy the condition |
| `Matching.FilterAppend` | main.go:156-161 | filtering keeps the original order: the filter of a concatenation is the concatenation of the filters |
| `Matching.FilterCount` | main.go:317-322 | the result has one element per matching position |
| `Matching.FilterSingle` | main.go:323-329 | the result has exactly one element iff exactly one position matches, and it is that position's element |
| `Matching.FindEndOfTraces` | main.go:152-163 | returns the hits of the dump whose operation is "write-to-mongo", in dump order, and never more hits than the dump holds |
| `Matching.FindStartOfTrace` | main.go:312-330 | with exactly one "process-ctle" hit of the trace, returns it and no error; otherwise returns the zero hit and the wrong-number error with the count |
| `Matching.StartLookup` | main.go:312-330 | the outcome of `findStartOfTrace` for a hit list and a trace id; stated by `Matching.StartLookupUnique` and `Matching.StartLookupFailure` |
| `Matching.WrongNumberCarriesCount` | main.go:323-325 | the error text is "Wrong number Start-Traces found: " + count + ", instead of 1", and the count reads back from it |
| `Matching.StartLookupUnique` | main.go:317-328 | the lookup succeeds iff the given initiation hit is the only one of its trace, and then returns that hit |
| `Matching.StartLookupFailure` | main.go:323-325 | on failure the hit is the zero value and the error carries the number of initiation hits, which is not 1 |
| `Matching.ReconcileDump` | main.go:62-74 | the driver yields one outcome per completion span, in order, each pairing it with the lookup of its trace and the int64 difference of start times |
| `Matching.ReconcileOne` | main.go:65-71 | one iteration of the driver: the lookup of the completion span's trace and the int64 difference of start times; stated by `Matching.ReconcileMatched`, `Matching.ReconcileNoStart` and `Matching.ReconcileTwoStarts` |
| `Matching.ReconcileCoversEnds` | main.go:62-64 | a hit gets an outcome iff it is in the dump and its operation is "write-to-mongo" |
| `Matching.ReconcileMatched` | main.go:65-71 | a unique initiation span gives no error, that span as start, and duration end.startTimeMillis - start.startTimeMillis, exact whenever both start times are non-negative |
| `Matching.ReconcileNoStart` | main.go:65-71 | no initiation span gives the error with count 0 and the zero hit, and the duration is end.startTimeMillis itself |
| `Matching.ReconcileTwoStarts` | main.go:65-71 | two initiation spans give the error with count 2 and the zero hit |
| `Matching.TimeToStringInSeconds` | main.go:290-294 | the text is the canonical decimal that `FormatInt` prints (so "0", never "00" or "-0") of the seconds, truncated toward zero: within one second of the milliseconds, on the same side of zero |
| `Windows.TodayChunks` | main.go:201-216 | 25 entries, entry i being midnight + i*3600000 as int64 arithmetic computes it |
| `Windows.DayBoundariesHourly` | main.go:204-208 | without overflow the boundaries start at midnight, are 3600000 apart and strictly increasing |
| `Windows.WindowAt` | main.go:35-36 | window i runs from boundary i to one millisecond before boundary i+1; its bounds are stated by `Windows.WindowsPartitionDay` |
| `Windows.WindowsPartitionDay` | main.go:34-36 | window i is [midnight + i h, midnight + (i+1) h - 1], each window is non-empty, and each ends one millisecond before the next begins; an instant lies in some window iff it lies in the day, and then in exactly one |
| `Windows.DayQueries` | main.go:34-43 | 24 searches in hour order, search i carrying the decimal bounds of window i and the body built from them |
| `Windows.QueryFor` | main.go:35-37 | the decimal bounds of a window and the body `query` is called with; stated by `Windows.QueryForCarriesWindow` |
| `Windows.QueryForCarriesWindow` | main.go:35-37 | each window's body is the plain template for "changeprocessor", "write-to-mongo", "desc" and 1000, and its bounds read back as the window's bounds |
| `IndexNames.ZeroPadded` | main.go:173-178 | the month text: a "0" in front of the decimal below 10, the plain decimal otherwise; stated by `IndexNames.ZeroPaddedTwoDigits` |
| `IndexNames.ZeroPaddedTwoDigits` | main.go:173-178 | for 0..99 the month text has exactly two digits and denotes the month |
| `IndexNames.IndexToday` | main.go:170-182 | returns the day alone, unpadded (one character for days 1-9), and that text ends the printed index name after a '-' |
| `IndexNames.PrintedIndexName` | main.go:180 | the index name `indexToday` prints; compared with Jaeger's layout by `IndexNames.PrintedIndexNameUnpaddedDay` and `IndexNames.PrintedIndexNameFromDay10` |
| `IndexNames.JaegerIndexName` | main.go:180 | the index name with the day zero-padded like the month, in Jaeger's `jaeger-span-YYYY-MM-DD` layout; stated by `IndexNames.JaegerIndexNameRoundTrip` and `IndexNames.PrintedIndexNameFromDay10` |
| `IndexNames.JaegerIndexNameRoundTrip` | main.go:180 | with the day padded too, every calendar date's index name reads back as that date in the "-MM-DD" layout |
| `IndexNames.PrintedIndexNameUnpaddedDay` | main.go:179-180 | for days 1-9 the printed name differs from the padded one and does not read back as the date |
| `IndexNames.PrintedIndexNameFromDay10` | main.go:179-180 | from day 10 on the printed name equals the padded one |
| `Spans.SpansRecord.GetHits` | main.go:332-334 | `getHits`: the hits of the search response; the record types are the datatypes of main.go:368-426 |
| `Spans.Hit.TraceId` | main.go:336-338 | `getTraceId`: the span's trace id, the key `findStartOfTrace` matches on |
| `Spans.Hit.SpanId` | main.go:340-342 | `getSpanId`: the span's own id |
| `Spans.Hit.StartTimeMillis` | main.go:344-346 | `getStartTimeMillis`: the span's start in epoch milliseconds, the value the driver subtracts |
| `Spans.Hit.OperationName` | main.go:355-357 | `getOperationName`: the operation both scans filter on |
| `Spans.Hit.ServiceName` | main.go:359-361 | `getServiceName`: the name of the process that emitted the span |

## Findings

| source | as written | input that shows it | evidently intended | confidence | as-written member | corrected member |
|---|---|---|---|---|---|---|
| main.go:179-180 | the day is rendered with `strconv.Itoa`, unpadded, although the month is padded | year 2021, month 6, day 5 prints `jaeger-span-2021-06-5` | `jaeger-span-2021-06-05`, the `YYYY-MM-DD` layout of Jaeger's daily span indices | medium, not executed | `IndexNames.PrintedIndexNameUnpaddedDay` | `IndexNames.JaegerIndexNameRoundTrip` |
| main.go:265 | the result of `strings.Replace(jsonString, "$sort", sort, 1)` is returned, so the first "$sort" inside a spliced value is replaced by the sort order | service name `$sort`, sort `desc`: the body matches service `desc` | the template with the values verbatim, as lines 227-259 build it | low, not executed | `QueryBody.PlaceholderServiceNameRewritten` | `QueryBody.ParseRangeQueryInverts` |

About the corrected members:

- `IndexNames.JaegerIndexName` is the padded name. Nothing else in the
  program uses the index name; it is only printed.
- `QueryBody.RangeQueryBody` is the plain template. `Windows.DayQueries`
  sends the as-written body, but `Windows.QueryForCarriesWindow` proves that
  for every window the as-written body is exactly the plain template.

## Left out

- `query` and `queryAll` (main.go:99-150) are left out. They are HTTP
  requests, a panic on transport failure and reading the response. The
  model stops at the request body that `query` would send.
- `createSpanRecordFromJSON` (main.go:429-448) and `json.Unmarshal` are left
  out: file I/O and Go's JSON decoder. The decoded `SpansRecord` is a
  parameter of the matching methods. `findEndOfTraces` and
  `findStartOfTrace` ignore their `path` argument and always read
  `spans.json`, so the model has no path parameter.
- `todayMidnightUnixTimeInMilliSeconds` (main.go:184-198), `time.Now` in
  `indexToday` and the Europe/Berlin location are left out: clock and
  timezone database. Midnight and the date are parameters.
- `timeStampInMilliSeconds` (main.go:272-288) is left out: RFC 3339 parsing
  by Go's time library.
- `getStartTimeAsLocalTime` (main.go:348-353) is left out: timezone
  rendering by Go's time library.
- `timeToStringInMinutes` (main.go:296-301) is left out: floating point.
- The float64 fields `Score` and `MaxScore` are carried as opaque 64-bit
  patterns and never computed with. The `interface{}` fields `References`
  and `Logs` are carried as raw JSON text.
- The `ES_DEV_JAEGER` lookup (main.go:96) is left out: configuration.
- All `fmt.Println`/`log.Println` output is left out. That includes the
  page-size warning, the hit count per window and the driver's log lines.
- The five `strings.Replace` calls on main.go:260-264 are not modelled. Go
  strings are immutable and their results are discarded, so they have no
  effect.
- Go strings are byte strings; here they are sequences of `char`. The model
  only compares strings for equality, concatenates them and searches for the
  ASCII pattern `"$sort"`. On valid UTF-8 the byte view and the character
  view agree on all three. Go strings that are not valid UTF-8 cannot be
  represented in the model.
- `Windows.DayQueries` requires at least 25 boundaries. With fewer, Go's
  loop would panic on an index out of range. Its only caller passes the 25
  entries of `todayChunks`.
- `QueryBody.ParseRangeQueryInverts` holds only for values without the
  character that ends them in the template (`"` for strings, `,` or newline
  for numbers). The code escapes nothing, so a service name containing `"`
  produces a body whose fields cannot be read back. The model states this
  limit instead of an escaping the code does not do.
