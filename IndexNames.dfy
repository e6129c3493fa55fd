/**
 * The Elasticsearch index of a day (indexToday, with the date given instead of
 * read from the clock): "jaeger-span-" + year + "-" + month + "-" + day, where
 * the month is zero-padded to two digits and the day is not.
 */
module IndexNames {
  import opened Wrappers
  import opened Decimal

  const IndexPrefix: string := "jaeger-span-"

  /** The decimal of n with a "0" in front when n < 10, as indexToday renders the month. */
  function ZeroPadded(n: int): string {
    if n < 10 then "0" + IntToString(n) else IntToString(n)
  }

  /** For 0..99 the padded text has exactly two digits and denotes n. */
  lemma ZeroPaddedTwoDigits(n: int)
    requires 0 <= n <= 99
    ensures var text := ZeroPadded(n);
      |text| == 2 && AllDigits(text) && ParseNat(text) == n
  {
    NatToStringRoundTrip(n);
    if n < 10 {
      ParseNatLeadingZero(NatToString(n));
    }
  }

  /** The index name indexToday prints: month zero-padded, day as plain decimal. */
  function PrintedIndexName(year: int, month: int, day: int): string {
    IndexPrefix + IntToString(year) + "-" + ZeroPadded(month) + "-" + IntToString(day)
  }

  /**
   * indexToday: what it returns is the day alone, as plain decimal (one digit for
   * days 1 to 9), and that text is the last part of the name it prints.
   */
  function IndexToday(year: int, month: int, day: int): (dayText: string)
    ensures IsIntText(dayText) && ParseInt(dayText) == day
    ensures 1 <= day <= 9 ==> |dayText| == 1
    ensures var name := PrintedIndexName(year, month, day);
      |name| > |dayText| && name[|name| - |dayText|..] == dayText && name[|name| - |dayText| - 1] == '-'
  {
    var dayAsString := IntToString(day);
    IntToStringRoundTrip(day);
    var name := PrintedIndexName(year, month, day);
    assert name == (IndexPrefix + IntToString(year) + "-" + ZeroPadded(month) + "-") + dayAsString;
    dayAsString
  }

  // ---------------------------------------------------------------------------
  // Reading an index name back, in the fixed-width layout "...-YYYY-MM-DD"

  datatype Date = Date(year: int, month: int, day: int)

  /** The date of a name "jaeger-span-<year>-<MM>-<DD>" whose month and day have two digits each. */
  function ParseIndexName(name: string): Option<Date> {
    var n := |name|;
    if n < |IndexPrefix| + 7 || name[..|IndexPrefix|] != IndexPrefix || name[n - 6] != '-' || name[n - 3] != '-' then None
    else
      var year, mm, dd := name[|IndexPrefix|..n - 6], name[n - 5..n - 3], name[n - 2..];
      if IsIntText(year) && AllDigits(mm) && AllDigits(dd) then
        Some(Date(ParseInt(year), ParseNat(mm), ParseNat(dd)))
      else None
  }

  /** The index name with the day zero-padded as well, as Jaeger names its daily span indices. */
  function JaegerIndexName(year: int, month: int, day: int): string {
    IndexPrefix + IntToString(year) + "-" + ZeroPadded(month) + "-" + ZeroPadded(day)
  }

  /** The padded name of every calendar date reads back as that date. */
  lemma JaegerIndexNameRoundTrip(year: int, month: int, day: int)
    requires 1 <= month <= 12 && 1 <= day <= 31
    ensures ParseIndexName(JaegerIndexName(year, month, day)) == Some(Date(year, month, day))
  {
    var y, mm, dd := IntToString(year), ZeroPadded(month), ZeroPadded(day);
    IntToStringRoundTrip(year);
    ZeroPaddedTwoDigits(month);
    ZeroPaddedTwoDigits(day);
    NameParts(IndexPrefix, y, mm, dd);
  }

  /** The parts of prefix + y + "-" + mm + "-" + dd sit where ParseIndexName looks for them. */
  lemma NameParts(prefix: string, y: string, mm: string, dd: string)
    requires |mm| == 2 && |dd| == 2
    ensures var name := prefix + y + "-" + mm + "-" + dd; var n := |name|;
      n == |prefix| + |y| + 6 && name[..|prefix|] == prefix
      && name[n - 6] == '-' && name[n - 3] == '-'
      && name[|prefix|..n - 6] == y && name[n - 5..n - 3] == mm && name[n - 2..] == dd
  {
    var name := prefix + y + "-" + mm + "-" + dd;
    var n := |name|;
    assert name[..|prefix|] == prefix;
    assert name[|prefix|..n - 6] == y;
    assert name[n - 5..n - 3] == mm;
    assert name[n - 2..] == dd;
  }

  /** The last character of a decimal rendering is a digit. */
  lemma IntToStringEndsInDigit(i: int)
    ensures var s := IntToString(i); |s| >= 1 && IsDigit(s[|s| - 1])
  {
    IntToStringShape(i);
    var s := IntToString(i);
    if i < 0 {
      assert s[|s| - 1] == s[1..][|s| - 2];
    }
  }

  /** For days 1 to 9 the printed name does not have the "-MM-DD" layout and does not read back as the date. */
  lemma PrintedIndexNameUnpaddedDay(year: int, month: int, day: int)
    requires 1 <= month <= 12 && 1 <= day <= 9
    ensures PrintedIndexName(year, month, day) != JaegerIndexName(year, month, day)
    ensures ParseIndexName(PrintedIndexName(year, month, day)) == None
  {
    var y := IntToString(year);
    var name := PrintedIndexName(year, month, day);
    ZeroPaddedTwoDigits(month);
    assert |IntToString(day)| == 1;
    assert |name| == |IndexPrefix| + |y| + 5;
    IntToStringEndsInDigit(year);
    assert name[|name| - 6] == y[|y| - 1];
    assert |name| != |JaegerIndexName(year, month, day)|;
  }

  /** From the 10th of a month on, the printed name is the padded one. */
  lemma PrintedIndexNameFromDay10(year: int, month: int, day: int)
    requires day >= 10
    ensures PrintedIndexName(year, month, day) == JaegerIndexName(year, month, day)
  {
  }
}
