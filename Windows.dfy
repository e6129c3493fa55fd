/**
 * The day's hour boundaries (todayChunks, with the midnight timestamp given
 * instead of read from the clock) and the loop in main that turns consecutive
 * boundaries into 24 search windows and the request body for each.
 */
module Windows {
  import opened Wrappers
  import opened GoInt
  import opened Decimal
  import opened QueryBody
  import Matching

  const OneHourMillis: int := 3600000

  /** Boundary number hours: int64(hours)*int64(oneHourInMilliSeconds) + midnight, as Go's int64 computes it. */
  function ChunkAt(midnight: Int64, hours: nat): Int64 {
    Wrap64(hours * OneHourMillis + midnight)
  }

  /** chunks holds the 25 boundaries of the day that starts at midnight. */
  predicate IsDayBoundaries(midnight: Int64, chunks: seq<Int64>) {
    |chunks| == 25 && forall i | 0 <= i < 25 :: chunks[i] == ChunkAt(midnight, i)
  }

  /** todayChunks: 25 entries, one per hour from midnight to the following midnight. */
  method TodayChunks(midnight: Int64) returns (chunks: seq<Int64>)
    ensures IsDayBoundaries(midnight, chunks)
  {
    chunks := [];
    var hours := 0;
    while hours < 25
      invariant 0 <= hours <= 25 && |chunks| == hours
      invariant forall i | 0 <= i < hours :: chunks[i] == ChunkAt(midnight, i)
    {
      chunks := chunks + [Wrap64(hours * OneHourMillis + midnight)];
      hours := hours + 1;
    }
  }

  /** The day's last boundary is still an int64, so no boundary wraps around. */
  predicate NoDayOverflow(midnight: Int64) {
    midnight + 24 * OneHourMillis <= MaxInt64
  }

  /** The boundaries start at midnight, are one hour apart and strictly increasing. */
  lemma DayBoundariesHourly(midnight: Int64, chunks: seq<Int64>)
    requires IsDayBoundaries(midnight, chunks) && NoDayOverflow(midnight)
    ensures chunks[0] == midnight
    ensures forall i | 0 <= i < 24 :: chunks[i + 1] == chunks[i] + OneHourMillis
    ensures forall i, j | 0 <= i < j < 25 :: chunks[i] < chunks[j]
  {
    forall i | 0 <= i < 25 ensures chunks[i] == midnight + i * OneHourMillis {
      assert chunks[i] == ChunkAt(midnight, i);
    }
  }

  /** A search window: both bounds inclusive, in epoch milliseconds. */
  datatype Window = Window(from: Int64, to: Int64)

  predicate Covers(w: Window, t: int) {
    w.from <= t <= w.to
  }

  /** Window i of main's loop: from tc[i] to tc[i+1]-1, the subtraction in int64. */
  function WindowAt(tc: seq<Int64>, i: nat): Window
    requires i < 24 && |tc| >= 25
  {
    Window(tc[i], Wrap64(tc[i + 1] as int - 1))
  }

  /**
   * The 24 windows of a day split it into hours: window i runs from the i-th
   * boundary to one millisecond before the next, consecutive windows do not
   * overlap, and every instant of the day lies in exactly one window.
   */
  lemma WindowsPartitionDay(midnight: Int64, tc: seq<Int64>, t: int)
    requires IsDayBoundaries(midnight, tc) && NoDayOverflow(midnight)
    ensures forall i | 0 <= i < 24 ::
      WindowAt(tc, i).from == midnight + i * OneHourMillis
      && WindowAt(tc, i).to == midnight + (i + 1) * OneHourMillis - 1
      && WindowAt(tc, i).from < WindowAt(tc, i).to
    ensures forall i | 0 <= i < 23 :: WindowAt(tc, i).to + 1 == WindowAt(tc, i + 1).from
    ensures (exists i | 0 <= i < 24 :: Covers(WindowAt(tc, i), t)) <==> midnight <= t < midnight + 24 * OneHourMillis
    ensures forall i, j | 0 <= i < 24 && 0 <= j < 24 && Covers(WindowAt(tc, i), t) && Covers(WindowAt(tc, j), t) :: i == j
  {
    DayBoundariesHourly(midnight, tc);
    forall i | 0 <= i < 24
      ensures WindowAt(tc, i).from == midnight + i * OneHourMillis
      ensures WindowAt(tc, i).to == midnight + (i + 1) * OneHourMillis - 1
    {
      assert tc[i] == ChunkAt(midnight, i) && tc[i + 1] == ChunkAt(midnight, i + 1);
    }
    if midnight <= t < midnight + 24 * OneHourMillis {
      var i := (t - midnight) / OneHourMillis;
      assert i * OneHourMillis <= t - midnight < (i + 1) * OneHourMillis;
      assert Covers(WindowAt(tc, i), t);
    }
  }

  // ---------------------------------------------------------------------------
  // The per-window completion-span search of main

  const CompletionService: string := "changeprocessor"
  const CompletionSort: string := "desc"
  const CompletionPageSize: Int64 := 1000

  /** What main's loop sends for one window: the two bounds as text and the request body. */
  datatype WindowQuery = WindowQuery(from: string, to: string, body: string)

  function QueryFor(w: Window): WindowQuery {
    var from := IntToString(w.from);
    var to := IntToString(w.to);
    WindowQuery(from, to,
      CreateBodyWithRange(CompletionService, Matching.EndOperation, from, to, CompletionSort, CompletionPageSize))
  }

  /** main's loop over the 24 windows: the search it issues for each, in hour order. */
  method DayQueries(tc: seq<Int64>) returns (queries: seq<WindowQuery>)
    requires |tc| >= 25
    ensures |queries| == 24
    ensures forall i | 0 <= i < 24 :: queries[i] == QueryFor(WindowAt(tc, i))
  {
    queries := [];
    for i := 0 to 24
      invariant |queries| == i
      invariant forall k | 0 <= k < i :: queries[k] == QueryFor(WindowAt(tc, k))
    {
      var from := IntToString(tc[i]);
      var to := IntToString(Wrap64(tc[i + 1] as int - 1));
      var body := CreateBodyWithRange(CompletionService, Matching.EndOperation, from, to, CompletionSort, CompletionPageSize);
      var query := WindowQuery(from, to, body);
      assert query == QueryFor(WindowAt(tc, i));
      ghost var before := queries;
      queries := queries + [query];
      forall k | 0 <= k <= i ensures queries[k] == QueryFor(WindowAt(tc, k)) {
        if k < i {
          assert queries[k] == before[k];
        }
      }
    }
  }

  lemma DecimalTextIsPlain(i: int)
    ensures '$' !in IntToString(i) && ',' !in IntToString(i) && '\n' !in IntToString(i)
  {
    IntToStringShape(i);
    var s := IntToString(i);
    forall k | 0 <= k < |s| ensures s[k] != '$' && s[k] != ',' && s[k] != '\n' {
    }
  }

  lemma CompletionTextsArePlain()
    ensures '$' !in CompletionService && '$' !in Matching.EndOperation && '$' !in CompletionSort
    ensures '"' !in CompletionService && '"' !in Matching.EndOperation && '"' !in CompletionSort
  {
  }

  lemma CompletionPageSizeText()
    ensures SizeText(CompletionPageSize) == "1000"
  {
  }

  /**
   * The body sent for a window is the plain template (the kept strings.Replace
   * call changes nothing here) and reading it back yields the window's bounds,
   * the completion service and operation, "desc" and the page size 1000.
   */
  lemma QueryForCarriesWindow(w: Window)
    ensures var query := QueryFor(w);
      var q := RangeQuery("1000", CompletionService, Matching.EndOperation, query.from, query.to, CompletionSort);
      query.body == RangeQueryBody(q)
      && ParseRangeQuery(query.body) == Some(q)
      && IsIntText(query.from) && ParseInt(query.from) == w.from
      && IsIntText(query.to) && ParseInt(query.to) == w.to
  {
    var from, to := IntToString(w.from), IntToString(w.to);
    IntToStringRoundTrip(w.from);
    IntToStringRoundTrip(w.to);
    DecimalTextIsPlain(w.from);
    DecimalTextIsPlain(w.to);
    CompletionTextsArePlain();
    CompletionPageSizeText();
    NoDollarNoPlaceholder(CompletionService);
    NoDollarNoPlaceholder(Matching.EndOperation);
    NoDollarNoPlaceholder(CompletionSort);
    NoDollarNoPlaceholder(from);
    NoDollarNoPlaceholder(to);
    CreateBodyWithRangeIsTemplate(CompletionService, Matching.EndOperation, from, to, CompletionSort, CompletionPageSize);
    var q := RangeQuery("1000", CompletionService, Matching.EndOperation, from, to, CompletionSort);
    ParseRangeQueryInverts(q);
  }
}
