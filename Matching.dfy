/**
 * Span matching over a decoded span dump: collecting the completion spans
 * ("write-to-mongo"), looking up the single initiation span ("process-ctle")
 * of a trace, and the driver that pairs each completion span with its
 * initiation span and computes the time between them.
 */
module Matching {
  import opened Wrappers
  import opened GoInt
  import opened Decimal
  import opened Spans

  const EndOperation: string := "write-to-mongo"
  const StartOperation: string := "process-ctle"

  /** A completion span. */
  predicate IsEnd(h: Hit) {
    h.OperationName() == EndOperation
  }

  /** An initiation span of the trace traceID. */
  predicate IsStartOf(h: Hit, traceID: string) {
    h.TraceId() == traceID && h.OperationName() == StartOperation
  }

  // ---------------------------------------------------------------------------
  // Filtering a sequence, in order

  /** The elements of s that satisfy p, in their original order. */
  function Filter<T>(p: T -> bool, s: seq<T>): seq<T>
    decreases |s|
  {
    if s == [] then [] else Filter(p, s[..|s| - 1]) + (if p(s[|s| - 1]) then [s[|s| - 1]] else [])
  }

  /** The positions in s whose element satisfies p. */
  ghost function Positions<T>(p: T -> bool, s: seq<T>): set<int> {
    set i | 0 <= i < |s| && p(s[i])
  }

  /** Filter keeps exactly the elements that satisfy p and nothing else. */
  lemma {:induction false} FilterMembers<T>(p: T -> bool, s: seq<T>)
    ensures forall x :: x in Filter(p, s) <==> x in s && p(x)
    decreases |s|
  {
    if s != [] {
      FilterMembers(p, s[..|s| - 1]);
      assert s == s[..|s| - 1] + [s[|s| - 1]];
    }
  }

  /** Filtering a concatenation filters each part and keeps them in order. */
  lemma {:induction false} FilterAppend<T>(p: T -> bool, a: seq<T>, b: seq<T>)
    ensures Filter(p, a + b) == Filter(p, a) + Filter(p, b)
    decreases |b|
  {
    if b == [] {
      assert a + b == a;
    } else {
      var b' := b[..|b| - 1];
      assert (a + b)[..|a + b| - 1] == a + b';
      FilterAppend(p, a, b');
    }
  }

  /** The result has one element per position that satisfies p. */
  lemma {:induction false} FilterCount<T>(p: T -> bool, s: seq<T>)
    ensures |Filter(p, s)| == |Positions(p, s)|
    decreases |s|
  {
    if s != [] {
      var n := |s| - 1;
      FilterCount(p, s[..n]);
      var before := Positions(p, s[..n]);
      assert n !in before;
      if p(s[n]) {
        assert Positions(p, s) == before + {n};
      } else {
        assert Positions(p, s) == before;
      }
    }
  }

  /** Filter returns a single element exactly when one position satisfies p, and then it is that position's element. */
  lemma FilterSingle<T>(p: T -> bool, s: seq<T>, i: int)
    requires 0 <= i < |s| && p(s[i])
    ensures |Filter(p, s)| == 1 <==> Positions(p, s) == {i}
    ensures Positions(p, s) == {i} ==> Filter(p, s) == [s[i]]
  {
    FilterCount(p, s);
    FilterMembers(p, s);
    var ps := Positions(p, s);
    assert i in ps;
    if |ps| == 1 {
      assert |ps - {i}| == 0;
      assert ps - {i} == {};
    }
    if ps == {i} {
      assert s[i] in Filter(p, s);
    }
  }

  // ---------------------------------------------------------------------------
  // findEndOfTraces and findStartOfTrace

  /** The completion spans of hits, in order. */
  function EndsOf(hits: seq<Hit>): seq<Hit> {
    Filter(IsEnd, hits)
  }

  /** The initiation spans of the trace traceID in hits, in order. */
  function StartsOf(hits: seq<Hit>, traceID: string): seq<Hit> {
    Filter((h: Hit) => IsStartOf(h, traceID), hits)
  }

  /** findEndOfTraces: the completion spans of the dump, in their original order. */
  method FindEndOfTraces(dump: SpansRecord) returns (ends: seq<Hit>)
    ensures ends == EndsOf(dump.GetHits())
    ensures |ends| <= |dump.GetHits()|
  {
    var hits := dump.GetHits();
    ends := [];
    var i := 0;
    while i < |hits|
      invariant 0 <= i <= |hits|
      invariant ends == EndsOf(hits[..i])
      invariant |ends| <= i
    {
      var hit := hits[i];
      assert hits[..i + 1][..i] == hits[..i];
      if hit.OperationName() == EndOperation {
        ends := ends + [hit];
      }
      i := i + 1;
    }
    assert hits[..i] == hits;
  }

  /** Go's errorString. */
  datatype Error = ErrorString(s: string)

  const WrongNumberPrefix: string := "Wrong number Start-Traces found: "
  const WrongNumberSuffix: string := ", instead of 1"

  function WrongNumberOfStarts(count: nat): Error {
    ErrorString(WrongNumberPrefix + IntToString(count) + WrongNumberSuffix)
  }

  /** The error's message carries the number of initiation spans found, in decimal, between its fixed prefix and suffix. */
  lemma WrongNumberCarriesCount(count: nat)
    ensures var m := WrongNumberOfStarts(count).s;
      |m| > |WrongNumberPrefix| + |WrongNumberSuffix|
      && m[..|WrongNumberPrefix|] == WrongNumberPrefix
      && m[|m| - |WrongNumberSuffix|..] == WrongNumberSuffix
      && IsIntText(m[|WrongNumberPrefix|..|m| - |WrongNumberSuffix|])
      && ParseInt(m[|WrongNumberPrefix|..|m| - |WrongNumberSuffix|]) == count
  {
    var m := WrongNumberOfStarts(count).s;
    assert m[|WrongNumberPrefix|..|m| - |WrongNumberSuffix|] == IntToString(count);
    IntToStringRoundTrip(count);
  }

  /** What findStartOfTrace returns for hits and traceID: the hit and the error. */
  function StartLookup(hits: seq<Hit>, traceID: string): (Hit, Option<Error>) {
    var starts := StartsOf(hits, traceID);
    if |starts| != 1 then (ZeroHit, Some(WrongNumberOfStarts(|starts|))) else (starts[0], None)
  }

  /** findStartOfTrace over the dump: the single initiation span of the trace, or the zero hit and an error carrying the count. */
  method FindStartOfTrace(dump: SpansRecord, traceID: string) returns (start: Hit, err: Option<Error>)
    ensures (start, err) == StartLookup(dump.GetHits(), traceID)
  {
    var hits := dump.GetHits();
    var starts := [];
    var i := 0;
    while i < |hits|
      invariant 0 <= i <= |hits|
      invariant starts == StartsOf(hits[..i], traceID)
    {
      var hit := hits[i];
      assert hits[..i + 1][..i] == hits[..i];
      if hit.TraceId() == traceID && hit.OperationName() == StartOperation {
        starts := starts + [hit];
      }
      i := i + 1;
    }
    assert hits[..i] == hits;
    if |starts| != 1 {
      start, err := ZeroHit, Some(WrongNumberOfStarts(|starts|));
    } else {
      start, err := starts[0], None;
    }
  }

  /** The lookup succeeds exactly when one hit is an initiation span of the trace, and then returns that hit. */
  lemma StartLookupUnique(hits: seq<Hit>, traceID: string, i: int)
    requires 0 <= i < |hits| && IsStartOf(hits[i], traceID)
    ensures StartLookup(hits, traceID).1.None? <==> (forall j | 0 <= j < |hits| && IsStartOf(hits[j], traceID) :: j == i)
    ensures StartLookup(hits, traceID).1.None? ==> StartLookup(hits, traceID).0 == hits[i]
  {
    var p := (h: Hit) => IsStartOf(h, traceID);
    FilterSingle(p, hits, i);
    if forall j | 0 <= j < |hits| && IsStartOf(hits[j], traceID) :: j == i {
      assert Positions(p, hits) == {i};
    } else {
      var j :| 0 <= j < |hits| && IsStartOf(hits[j], traceID) && j != i;
      assert j in Positions(p, hits);
    }
  }

  /** When the lookup fails, the hit is the zero value and the error reports how many initiation spans there are. */
  lemma StartLookupFailure(hits: seq<Hit>, traceID: string)
    requires StartLookup(hits, traceID).1.Some?
    ensures StartLookup(hits, traceID).0 == ZeroHit
    ensures var count := |set j | 0 <= j < |hits| && IsStartOf(hits[j], traceID)|;
      count != 1 && StartLookup(hits, traceID).1 == Some(WrongNumberOfStarts(count))
  {
    var p := (h: Hit) => IsStartOf(h, traceID);
    FilterCount(p, hits);
    assert Positions(p, hits) == set j | 0 <= j < |hits| && IsStartOf(hits[j], traceID);
  }

  // ---------------------------------------------------------------------------
  // The reconciliation driver

  /** One outcome of the driver: the completion span, the initiation span found (the zero hit on error), the error and the time between them. */
  datatype Reconciliation = Reconciliation(end: Hit, start: Hit, err: Option<Error>, tookMillis: Int64)

  /** The driver's step for one completion span: look up its start and subtract the start times as Go's int64 does. */
  function ReconcileOne(hits: seq<Hit>, end: Hit): Reconciliation {
    var lookup := StartLookup(hits, end.TraceId());
    Reconciliation(end, lookup.0, lookup.1, Wrap64(end.StartTimeMillis() - lookup.0.StartTimeMillis()))
  }

  /** The driver: one outcome per completion span of the dump, in the dump's order. */
  method ReconcileDump(dump: SpansRecord) returns (results: seq<Reconciliation>)
    ensures |results| == |EndsOf(dump.GetHits())|
    ensures forall k | 0 <= k < |results| :: results[k] == ReconcileOne(dump.GetHits(), EndsOf(dump.GetHits())[k])
  {
    var ends := FindEndOfTraces(dump);
    results := [];
    for i := 0 to |ends|
      invariant |results| == i
      invariant forall k | 0 <= k < i :: results[k] == ReconcileOne(dump.GetHits(), ends[k])
    {
      var end := ends[i];
      var start, err := FindStartOfTrace(dump, end.TraceId());
      var timeDiff := Wrap64(end.StartTimeMillis() - start.StartTimeMillis());
      results := results + [Reconciliation(end, start, err, timeDiff)];
    }
  }

  /** Every outcome of the driver is about a completion span, and every completion span gets one. */
  lemma ReconcileCoversEnds(hits: seq<Hit>, h: Hit)
    ensures h in EndsOf(hits) <==> h in hits && h.OperationName() == EndOperation
  {
    FilterMembers(IsEnd, hits);
  }

  /** Exactly one initiation span: no error, that span is the start, and the duration is the difference of the start times when both are non-negative. */
  lemma ReconcileMatched(hits: seq<Hit>, end: Hit, i: int)
    requires 0 <= i < |hits| && IsStartOf(hits[i], end.TraceId())
    requires forall j | 0 <= j < |hits| && IsStartOf(hits[j], end.TraceId()) :: j == i
    ensures var r := ReconcileOne(hits, end);
      r.err.None? && r.start == hits[i]
      && (end.StartTimeMillis() >= 0 && hits[i].StartTimeMillis() >= 0 ==>
            r.tookMillis == end.StartTimeMillis() - hits[i].StartTimeMillis())
  {
    StartLookupUnique(hits, end.TraceId(), i);
  }

  /** No initiation span: the error reports 0, and the zero hit's start time 0 is subtracted. */
  lemma ReconcileNoStart(hits: seq<Hit>, end: Hit)
    requires forall j | 0 <= j < |hits| :: !IsStartOf(hits[j], end.TraceId())
    ensures var r := ReconcileOne(hits, end);
      r.err == Some(WrongNumberOfStarts(0)) && r.start == ZeroHit && r.tookMillis == end.StartTimeMillis()
  {
    var p := (h: Hit) => IsStartOf(h, end.TraceId());
    FilterCount(p, hits);
    assert Positions(p, hits) == {};
  }

  /** Two initiation spans: the error reports 2. */
  lemma ReconcileTwoStarts(hits: seq<Hit>, end: Hit, i: int, j: int)
    requires 0 <= i < j < |hits|
    requires forall k | 0 <= k < |hits| :: IsStartOf(hits[k], end.TraceId()) <==> k == i || k == j
    ensures var r := ReconcileOne(hits, end);
      r.err == Some(WrongNumberOfStarts(2)) && r.start == ZeroHit && r.tookMillis == end.StartTimeMillis()
  {
    var p := (h: Hit) => IsStartOf(h, end.TraceId());
    FilterCount(p, hits);
    assert Positions(p, hits) == {i, j};
  }

  /** timeToStringInSeconds: the whole seconds of a millisecond count, truncated toward zero as Go's / does, in decimal. */
  function TimeToStringInSeconds(milliSecs: Int64): (text: string)
    ensures IsIntText(text) && text == IntToString(ParseInt(text))
    ensures var secs := ParseInt(text);
      (milliSecs >= 0 ==> 0 <= milliSecs - secs * 1000 < 1000)
      && (milliSecs < 0 ==> -1000 < milliSecs - secs * 1000 <= 0)
  {
    var secs := TruncDiv(milliSecs, 1000);
    IntToStringRoundTrip(secs);
    IntToString(secs)
  }
}
