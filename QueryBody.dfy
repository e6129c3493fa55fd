/**
 * The request body of a windowed search (createBodyWithRange): a fixed JSON
 * template into which the page size, service name, operation name, range
 * bounds and sort order are concatenated verbatim, followed by the one
 * strings.Replace call whose result is kept.
 */
module QueryBody {
  import opened Wrappers
  import opened GoInt
  import opened Decimal
  import opened GoStrings

  /** The backend's largest page size. */
  const MaxPageSize: Int64 := 10000

  /** The placeholder searched for by the strings.Replace call whose result becomes the body. */
  const SortPlaceholder: string := "$sort"

  // The template, cut at the points where values are spliced in; each piece
  // is written one template line per literal, with its tabs and newlines.

  const Piece0: string :=
    "{\n" +
    "\t\t\"from\": 0,\n" +
    "\t\t\"size\": "

  const Piece1: string :=
    ",\n" +
    "\t\t\"query\": {\n" +
    "\t\t\t\"bool\": {\n" +
    "\t\t\t\t\"must\": [\n" +
    "\t\t\t\t\t{\n" +
    "\t\t\t\t\t\t\"match_phrase\": {\n" +
    "\t\t\t\t\t\t\t\"process.serviceName\": \""

  const Piece2: string :=
    "\"\n" +
    "\t\t\t\t\t\t}\n" +
    "\t\t\t\t\t},\n" +
    "\t\t\t\t\t{\n" +
    "\t\t\t\t\t\t\"match_phrase\": {\n" +
    "\t\t\t\t\t\t\t\"operationName\": \""

  const Piece3: string :=
    "\"\n" +
    "\t\t\t\t\t\t}\n" +
    "\t\t\t\t\t},\n" +
    "\t\t\t\t\t{\n" +
    "\t\t\t\t\t\t\"range\": {\n" +
    "\t\t\t\t\t\t\t\"startTimeMillis\": {\n" +
    "\t\t\t\t\t\t\t\t\"gte\": "

  const Piece4: string :=
    ",\n" +
    "\t\t\t\t\t\t\t\t\"lte\": "

  const Piece5: string :=
    "\n" +
    "\t\t\t\t\t\t\t}\n" +
    "\t\t\t\t\t\t}\n" +
    "\t\t\t\t\t}\n" +
    "\t\t\t\t]\n" +
    "\t\t\t}\n" +
    "\t\t},\n" +
    "\t\t\"sort\": [\n" +
    "\t\t\t{\n" +
    "\t\t\t\t\"startTimeMillis\": \""

  const Piece6: string :=
    "\"\n" +
    "\t\t\t}\n" +
    "\t\t]\n" +
    "\t}"

  /** The six texts spliced into the template, as the builder receives or computes them. */
  datatype RangeQuery = RangeQuery(
    size: string, serviceName: string, operationName: string, from: string, to: string, sort: string)

  /** The template with the six texts concatenated at their places. */
  function RangeQueryBody(q: RangeQuery): string {
    Piece0 + (q.size + (Piece1 + (q.serviceName + (Piece2 + (q.operationName + (Piece3 + (q.from
      + (Piece4 + (q.to + (Piece5 + (q.sort + Piece6)))))))))))
  }

  /** sizeAsString: the decimal of size, or "10000" when size exceeds the backend's page limit. */
  function SizeText(size: Int64): (text: string)
    ensures text == IntToString(if size > MaxPageSize then MaxPageSize else size)
    ensures IsIntText(text) && ParseInt(text) == if size > MaxPageSize then MaxPageSize else size
  {
    var sizeAsString := IntToString(size);
    IntToStringRoundTrip(if size > MaxPageSize then MaxPageSize else size);
    if size > 10000 then "10000" else sizeAsString
  }

  /**
   * createBodyWithRange. The template holds no '$', so the five strings.Replace
   * calls whose results are dropped change nothing; the last one, whose result
   * is returned, replaces the first "$sort" inside a spliced value, if any.
   */
  function CreateBodyWithRange(
    serviceName: string, operationName: string, from: string, to: string, sort: string, size: Int64): string
  {
    var jsonString := RangeQueryBody(RangeQuery(SizeText(size), serviceName, operationName, from, to, sort));
    ReplaceOne(jsonString, SortPlaceholder, sort)
  }

  // ---------------------------------------------------------------------------
  // Reading a body back

  /** s with the prefix piece removed, if s starts with it. */
  function SkipPiece(s: string, piece: string): Option<string> {
    if |piece| <= |s| && s[..|piece|] == piece then Some(s[|piece|..]) else None
  }

  /** The text of s before the first c, and the rest of s from that c on. */
  function ReadUntil(s: string, c: char): Option<(string, string)>
    decreases |s|
  {
    if s == [] then None
    else if s[0] == c then Some(([], s))
    else
      var (x, rest) :- ReadUntil(s[1..], c);
      Some(([s[0]] + x, rest))
  }

  /**
   * Reads the six texts back out of a body: each value ends where the text of
   * the template that follows it begins (',' after the size and the lower
   * bound, a newline after the upper bound, '"' after the strings).
   */
  function ParseRangeQuery(body: string): Option<RangeQuery> {
    var r0 :- SkipPiece(body, Piece0);
    var (size, r1) :- ReadUntil(r0, ',');
    var r2 :- SkipPiece(r1, Piece1);
    var (serviceName, r3) :- ReadUntil(r2, '"');
    var r4 :- SkipPiece(r3, Piece2);
    var (operationName, r5) :- ReadUntil(r4, '"');
    var r6 :- SkipPiece(r5, Piece3);
    var (from, r7) :- ReadUntil(r6, ',');
    var r8 :- SkipPiece(r7, Piece4);
    var (to, r9) :- ReadUntil(r8, '\n');
    var r10 :- SkipPiece(r9, Piece5);
    var (sort, r11) :- ReadUntil(r10, '"');
    var r12 :- SkipPiece(r11, Piece6);
    if r12 == [] then Some(RangeQuery(size, serviceName, operationName, from, to, sort)) else None
  }

  /** No spliced text contains the character that ends it in the template. */
  predicate Splicable(q: RangeQuery) {
    ',' !in q.size && '"' !in q.serviceName && '"' !in q.operationName
    && ',' !in q.from && '\n' !in q.to && '"' !in q.sort
  }

  lemma SkipPieceOf(piece: string, rest: string)
    ensures SkipPiece(piece + rest, piece) == Some(rest)
  {
    assert (piece + rest)[..|piece|] == piece;
  }

  lemma {:induction false} ReadUntilOf(x: string, rest: string, c: char)
    requires c !in x && |rest| > 0 && rest[0] == c
    ensures ReadUntil(x + rest, c) == Some((x, rest))
    decreases |x|
  {
    if x == [] {
      assert x + rest == rest;
    } else {
      assert (x + rest)[1..] == x[1..] + rest;
      ReadUntilOf(x[1..], rest, c);
      assert [x[0]] + x[1..] == x;
    }
  }

  lemma {:induction false} ReadUntilSplits(s: string, c: char)
    requires ReadUntil(s, c).Some?
    ensures var (x, rest) := ReadUntil(s, c).value;
      s == x + rest && c !in x && |rest| > 0 && rest[0] == c
    decreases |s|
  {
    if s[0] != c {
      ReadUntilSplits(s[1..], c);
    }
  }

  lemma SkipPieceSplits(s: string, piece: string)
    requires SkipPiece(s, piece).Some?
    ensures s == piece + SkipPiece(s, piece).value
  {
  }

  /** Reading back a body built from splicable texts gives those texts: the values sit verbatim at their places. */
  lemma ParseRangeQueryInverts(q: RangeQuery)
    requires Splicable(q)
    ensures ParseRangeQuery(RangeQueryBody(q)) == Some(q)
  {
    var r11 := Piece6;
    var r10 := q.sort + r11;
    var r9 := Piece5 + r10;
    var r8 := q.to + r9;
    var r7 := Piece4 + r8;
    var r6 := q.from + r7;
    var r5 := Piece3 + r6;
    var r4 := q.operationName + r5;
    var r3 := Piece2 + r4;
    var r2 := q.serviceName + r3;
    var r1 := Piece1 + r2;
    var r0 := q.size + r1;
    SkipPieceOf(Piece0, r0);
    ReadUntilOf(q.size, r1, ',');
    SkipPieceOf(Piece1, r2);
    ReadUntilOf(q.serviceName, r3, '"');
    SkipPieceOf(Piece2, r4);
    ReadUntilOf(q.operationName, r5, '"');
    SkipPieceOf(Piece3, r6);
    ReadUntilOf(q.from, r7, ',');
    SkipPieceOf(Piece4, r8);
    ReadUntilOf(q.to, r9, '\n');
    SkipPieceOf(Piece5, r10);
    ReadUntilOf(q.sort, r11, '"');
    SkipPieceOf(Piece6, []);
    assert Piece6 + [] == Piece6;
  }

  /** Only template bodies are read back: whatever parses is the template around splicable texts. */
  lemma ParseRangeQueryOnlyTemplates(body: string)
    requires ParseRangeQuery(body).Some?
    ensures var q := ParseRangeQuery(body).value; Splicable(q) && body == RangeQueryBody(q)
  {
    var r0 := SkipPiece(body, Piece0).value;
    SkipPieceSplits(body, Piece0);
    ReadUntilSplits(r0, ',');
    var (size, r1) := ReadUntil(r0, ',').value;
    SkipPieceSplits(r1, Piece1);
    var r2 := SkipPiece(r1, Piece1).value;
    ReadUntilSplits(r2, '"');
    var (serviceName, r3) := ReadUntil(r2, '"').value;
    SkipPieceSplits(r3, Piece2);
    var r4 := SkipPiece(r3, Piece2).value;
    ReadUntilSplits(r4, '"');
    var (operationName, r5) := ReadUntil(r4, '"').value;
    SkipPieceSplits(r5, Piece3);
    var r6 := SkipPiece(r5, Piece3).value;
    ReadUntilSplits(r6, ',');
    var (from, r7) := ReadUntil(r6, ',').value;
    SkipPieceSplits(r7, Piece4);
    var r8 := SkipPiece(r7, Piece4).value;
    ReadUntilSplits(r8, '\n');
    var (to, r9) := ReadUntil(r8, '\n').value;
    SkipPieceSplits(r9, Piece5);
    var r10 := SkipPiece(r9, Piece5).value;
    ReadUntilSplits(r10, '"');
    var (sort, r11) := ReadUntil(r10, '"').value;
    SkipPieceSplits(r11, Piece6);
    assert SkipPiece(r11, Piece6).value == [];
    assert r11 == Piece6;
  }

  // ---------------------------------------------------------------------------
  // When the kept strings.Replace call changes the body

  lemma NoDollarNoPlaceholder(s: string)
    requires '$' !in s
    ensures !Contains(s, SortPlaceholder)
  {
    forall i | 0 <= i && i + |SortPlaceholder| <= |s|
      ensures !OccursAt(s, SortPlaceholder, i)
    {
      assert s[i..i + |SortPlaceholder|][0] == s[i];
    }
  }

  lemma ContainsInAppend(a: string, b: string, pat: string)
    requires Contains(a, pat) || Contains(b, pat)
    ensures Contains(a + b, pat)
  {
    if Contains(a, pat) {
      var i :| OccursAt(a, pat, i);
      assert (a + b)[i..i + |pat|] == a[i..i + |pat|];
      assert OccursAt(a + b, pat, i);
    } else {
      var i :| OccursAt(b, pat, i);
      assert (a + b)[|a| + i..|a| + i + |pat|] == b[i..i + |pat|];
      assert OccursAt(a + b, pat, |a| + i);
    }
  }

  /**
   * "$sort" cannot straddle the seam of a + b when a holds no '$' or b does not
   * start with a letter of "sort".
   */
  lemma PlaceholderNotAcrossSeam(a: string, b: string)
    requires !Contains(a, SortPlaceholder) && !Contains(b, SortPlaceholder)
    requires '$' !in a || (|b| > 0 && b[0] !in "sort")
    ensures !Contains(a + b, SortPlaceholder)
  {
    var pat := SortPlaceholder;
    forall i | 0 <= i && i + |pat| <= |a + b|
      ensures !OccursAt(a + b, pat, i)
    {
      var window := (a + b)[i..i + |pat|];
      if i + |pat| <= |a| {
        assert window == a[i..i + |pat|];
        assert !OccursAt(a, pat, i);
      } else if i >= |a| {
        assert window == b[i - |a|..i - |a| + |pat|];
        assert !OccursAt(b, pat, i - |a|);
      } else if '$' !in a {
        assert window[0] == a[i];
      } else {
        assert window[|a| - i] == b[0];
        assert pat[|a| - i] in "sort";
      }
    }
  }

  // One lemma per piece: each literal check is cheap alone, all seven together are not.
  lemma Piece0HoldsNoDollar()
    ensures '$' !in Piece0
  {
  }

  lemma Piece1HoldsNoDollar()
    ensures '$' !in Piece1
  {
  }

  lemma Piece2HoldsNoDollar()
    ensures '$' !in Piece2
  {
  }

  lemma Piece3HoldsNoDollar()
    ensures '$' !in Piece3
  {
  }

  lemma Piece4HoldsNoDollar()
    ensures '$' !in Piece4
  {
  }

  lemma Piece5HoldsNoDollar()
    ensures '$' !in Piece5
  {
  }

  lemma Piece6HoldsNoDollar()
    ensures '$' !in Piece6
  {
  }

  lemma PiecesStartOutsideSort()
    ensures Piece1[0] == ',' && Piece2[0] == '"' && Piece3[0] == '"'
    ensures Piece4[0] == ',' && Piece5[0] == '\n' && Piece6[0] == '"'
  {
  }

  /** The field texts of q, in template order. */
  function Fields(q: RangeQuery): seq<string> {
    [q.size, q.serviceName, q.operationName, q.from, q.to, q.sort]
  }

  /** "$sort" occurs in a template body exactly when it occurs in one of the spliced texts. */
  lemma PlaceholderInBody(q: RangeQuery)
    ensures Contains(RangeQueryBody(q), SortPlaceholder) <==> exists k | 0 <= k < 6 :: Contains(Fields(q)[k], SortPlaceholder)
  {
    var pat := SortPlaceholder;
    var fs := Fields(q);
    var s11 := q.sort + Piece6;
    var s10 := Piece5 + s11;
    var s9 := q.to + s10;
    var s8 := Piece4 + s9;
    var s7 := q.from + s8;
    var s6 := Piece3 + s7;
    var s5 := q.operationName + s6;
    var s4 := Piece2 + s5;
    var s3 := q.serviceName + s4;
    var s2 := Piece1 + s3;
    var s1 := q.size + s2;
    var s0 := Piece0 + s1;
    assert s0 == RangeQueryBody(q);
    if exists k | 0 <= k < 6 :: Contains(fs[k], pat) {
      var k :| 0 <= k < 6 && Contains(fs[k], pat);
      if k == 5 { ContainsInAppend(q.sort, Piece6, pat); ContainsInAppend(Piece5, s11, pat); }
      if k >= 4 { ContainsInAppend(q.to, s10, pat); ContainsInAppend(Piece4, s9, pat); }
      if k >= 3 { ContainsInAppend(q.from, s8, pat); ContainsInAppend(Piece3, s7, pat); }
      if k >= 2 { ContainsInAppend(q.operationName, s6, pat); ContainsInAppend(Piece2, s5, pat); }
      if k >= 1 { ContainsInAppend(q.serviceName, s4, pat); ContainsInAppend(Piece1, s3, pat); }
      ContainsInAppend(q.size, s2, pat);
      ContainsInAppend(Piece0, s1, pat);
    } else {
      assert fs[0] == q.size && fs[1] == q.serviceName && fs[2] == q.operationName;
      assert fs[3] == q.from && fs[4] == q.to && fs[5] == q.sort;
      Piece0HoldsNoDollar();
      Piece1HoldsNoDollar();
      Piece2HoldsNoDollar();
      Piece3HoldsNoDollar();
      Piece4HoldsNoDollar();
      Piece5HoldsNoDollar();
      Piece6HoldsNoDollar();
      PiecesStartOutsideSort();
      NoDollarNoPlaceholder(Piece0);
      NoDollarNoPlaceholder(Piece1);
      NoDollarNoPlaceholder(Piece2);
      NoDollarNoPlaceholder(Piece3);
      NoDollarNoPlaceholder(Piece4);
      NoDollarNoPlaceholder(Piece5);
      NoDollarNoPlaceholder(Piece6);
      PlaceholderNotAcrossSeam(q.sort, Piece6);
      PlaceholderNotAcrossSeam(Piece5, s11);
      PlaceholderNotAcrossSeam(q.to, s10);
      PlaceholderNotAcrossSeam(Piece4, s9);
      PlaceholderNotAcrossSeam(q.from, s8);
      PlaceholderNotAcrossSeam(Piece3, s7);
      PlaceholderNotAcrossSeam(q.operationName, s6);
      PlaceholderNotAcrossSeam(Piece2, s5);
      PlaceholderNotAcrossSeam(q.serviceName, s4);
      PlaceholderNotAcrossSeam(Piece1, s3);
      PlaceholderNotAcrossSeam(q.size, s2);
      PlaceholderNotAcrossSeam(Piece0, s1);
    }
  }

  lemma SizeTextHoldsNoDollar(size: Int64)
    ensures '$' !in SizeText(size)
  {
    var text := SizeText(size);
    IntToStringShape(if size > MaxPageSize then MaxPageSize else size);
    forall k | 0 <= k < |text| ensures text[k] != '$' {
    }
  }

  /**
   * createBodyWithRange returns the plain template exactly when the sort order is
   * "$sort" itself or no value passed in contains "$sort".
   */
  lemma CreateBodyWithRangeIsTemplate(
    serviceName: string, operationName: string, from: string, to: string, sort: string, size: Int64)
    ensures var q := RangeQuery(SizeText(size), serviceName, operationName, from, to, sort);
      CreateBodyWithRange(serviceName, operationName, from, to, sort, size) == RangeQueryBody(q)
      <==> sort == SortPlaceholder
           || !(Contains(serviceName, SortPlaceholder) || Contains(operationName, SortPlaceholder)
                || Contains(from, SortPlaceholder) || Contains(to, SortPlaceholder) || Contains(sort, SortPlaceholder))
  {
    var q := RangeQuery(SizeText(size), serviceName, operationName, from, to, sort);
    var body := RangeQueryBody(q);
    assert CreateBodyWithRange(serviceName, operationName, from, to, sort, size) == ReplaceOne(body, SortPlaceholder, sort);
    ReplaceOneUnchanged(body, SortPlaceholder, sort);
    PlaceholderInBody(q);
    SizeTextHoldsNoDollar(size);
    NoDollarNoPlaceholder(SizeText(size));
    PlaceholderInTextFields(q);
  }

  /** With a size text free of "$sort", some field holds it exactly when one of the five text fields does. */
  lemma PlaceholderInTextFields(q: RangeQuery)
    requires !Contains(q.size, SortPlaceholder)
    ensures (exists k | 0 <= k < 6 :: Contains(Fields(q)[k], SortPlaceholder))
       <==> (Contains(q.serviceName, SortPlaceholder) || Contains(q.operationName, SortPlaceholder)
             || Contains(q.from, SortPlaceholder) || Contains(q.to, SortPlaceholder) || Contains(q.sort, SortPlaceholder))
  {
    var fs := Fields(q);
    assert fs[0] == q.size && fs[1] == q.serviceName && fs[2] == q.operationName;
    assert fs[3] == q.from && fs[4] == q.to && fs[5] == q.sort;
  }

  lemma RegroupHead(a: string, b: string, c: string, d: string, e: string)
    ensures a + (b + (c + (d + e))) == (a + (b + c)) + (d + e)
  {
  }

  lemma DifferentMiddle(head: string, x: string, y: string, tail: string)
    requires x != y
    ensures head + (x + tail) != head + (y + tail)
  {
    if |x| == |y| {
      assert (head + (x + tail))[|head|..|head| + |x|] == x;
      assert (head + (y + tail))[|head|..|head| + |y|] == y;
    } else {
      assert |head + (x + tail)| != |head + (y + tail)|;
    }
  }

  /** The kept strings.Replace call rewrites the first "$sort" after a '$'-free head. */
  lemma ReplaceAfterHead(head: string, tail: string, repl: string)
    requires '$' !in head && repl != SortPlaceholder
    ensures ReplaceOne(head + (SortPlaceholder + tail), SortPlaceholder, repl) == head + (repl + tail)
  {
    var pat := SortPlaceholder;
    var body := head + (pat + tail);
    var p0 := |head|;
    assert body[p0..p0 + |pat|] == pat;
    forall j | 0 <= j < p0 ensures !OccursAt(body, pat, j) {
      assert body[j..j + |pat|][0] == head[j];
    }
    assert OccursAt(body, pat, p0);
    var r := FirstIndex(body, pat);
    assert r.Some?;
    assert r.value == p0;
    assert body[..p0] == head && body[p0 + |pat|..] == tail;
  }

  /**
   * A service name that contains "$sort" does not reach the backend as given: with
   * service name "$sort" the body names the sort order as the service instead.
   */
  lemma PlaceholderServiceNameRewritten(
    operationName: string, from: string, to: string, sort: string, size: Int64)
    requires sort != SortPlaceholder
    ensures CreateBodyWithRange(SortPlaceholder, operationName, from, to, sort, size)
         == RangeQueryBody(RangeQuery(SizeText(size), sort, operationName, from, to, sort))
    ensures CreateBodyWithRange(SortPlaceholder, operationName, from, to, sort, size)
         != RangeQueryBody(RangeQuery(SizeText(size), SortPlaceholder, operationName, from, to, sort))
  {
    var pat := SortPlaceholder;
    var size' := SizeText(size);
    var head := Piece0 + (size' + Piece1);
    var tail := Piece2 + (operationName + (Piece3 + (from + (Piece4 + (to + (Piece5 + (sort + Piece6)))))));
    Piece0HoldsNoDollar();
    Piece1HoldsNoDollar();
    Piece2HoldsNoDollar();
    Piece3HoldsNoDollar();
    Piece4HoldsNoDollar();
    Piece5HoldsNoDollar();
    Piece6HoldsNoDollar();
    SizeTextHoldsNoDollar(size);
    ReplaceAfterHead(head, tail, sort);
    RegroupHead(Piece0, size', Piece1, pat, tail);
    RegroupHead(Piece0, size', Piece1, sort, tail);
    DifferentMiddle(head, sort, pat, tail);
  }
}
