/** Worked examples of the kick-off time normaliser. Each example is proved
    from the general lemmas of `Timestamp` and `Calendar`; the lemmas named
    `...Input`, `...Output` and `...Text` only spell the literal texts out
    numeral by numeral, kept apart so that the solver meets each literal on
    its own. */
module TimestampExamples {
  import opened Errors
  import opened Calendar
  import opened Timestamp

  /** A rendered plain text is normalised to the formatted shifted datetime. */
  lemma NormalizeRendered(dt: DateTime, next: DateTime)
    requires Valid(dt) && dt.microsecond == 0
    requires AddOffset(dt) == Ok(next)
    ensures AddHoursAndFormat(RenderPlain(dt)) == Ok(Format(next))
  {
    ParseRenderPlain(dt);
  }

  /** Literal numerals for the examples only. `Two` and `Four` spell out the
      two- and four-digit zero-padded numerals that `Timestamp.Digits`
      defines recursively (`TwoDigits` and `FourDigits` prove them equal), so
      that the example texts can be checked digit by digit without unfolding
      the recursion on literals. Nothing outside this module uses them. */
  function DigitChar(n: nat): char
    requires n < 10
  {
    ('0' as int + n) as char
  }

  function Two(n: nat): string
    requires n < 100
  {
    [DigitChar(n / 10), DigitChar(n % 10)]
  }

  function Four(n: nat): string
    requires n < 10000
  {
    [DigitChar(n / 1000), DigitChar(n / 100 % 10), DigitChar(n / 10 % 10), DigitChar(n % 10)]
  }

  /** The two digits of a two-digit numeral. */
  lemma TwoDigits(n: nat)
    requires n < 100
    ensures Digits(n, 2) == Two(n)
  {
    assert Digits(n, 2) == Digits(n / 10, 1) + [DigitChar(n % 10)];
  }

  /** The four digits of a four-digit numeral. */
  lemma FourDigits(n: nat)
    requires n < 10000
    ensures Digits(n, 4) == Four(n)
  {
    assert n / 10 / 10 == n / 100 && n / 100 / 10 == n / 1000 && n / 100 < 100;
    TwoDigits(n / 100);
    assert Digits(n / 10, 3) == Digits(n / 100, 2) + [DigitChar(n / 10 % 10)];
  }

  /** A stamp is the concatenation of its numerals and separators. */
  lemma StampText(dt: DateTime, sep: char)
    requires Valid(dt)
    ensures Stamp(dt, sep) == Four(dt.year) + "-" + Two(dt.month) + "-" + Two(dt.day) + [sep]
                              + Two(dt.hour) + ":" + Two(dt.minute) + ":" + Two(dt.second)
  {
    FourDigits(dt.year); TwoDigits(dt.month); TwoDigits(dt.day);
    TwoDigits(dt.hour); TwoDigits(dt.minute); TwoDigits(dt.second);
  }

  /** The stamp of a datetime given by its fields, spelled out. */
  lemma StampSpelled(dt: DateTime, sep: char, y: string, mo: string, d: string, h: string, mi: string, se: string)
    requires Valid(dt)
    requires y == Four(dt.year) && mo == Two(dt.month) && d == Two(dt.day)
    requires h == Two(dt.hour) && mi == Two(dt.minute) && se == Two(dt.second)
    ensures Stamp(dt, sep) == y + "-" + mo + "-" + d + [sep] + h + ":" + mi + ":" + se
  {
    StampText(dt, sep);
  }

  // ----- Kick-off examples -----

  /** 15:00 UTC on 10 March 2024 is printed as 17:00 the same day. */
  lemma KickoffExample(s: string, out: string)
    requires s == "2024-03-10T15:00:00Z" && out == "2024-03-10 17:00:00"
    ensures AddHoursAndFormat(s) == Ok(out)
  {
    var dt, next := DateTime(2024, 3, 10, 15, 0, 0, 0), DateTime(2024, 3, 10, 17, 0, 0, 0);
    KickoffInput(dt, s);
    KickoffOutput(next, out);
    RolloverExamples();
    NormalizeRendered(dt, next);
  }

  lemma KickoffInput(dt: DateTime, s: string)
    requires Valid(dt) && dt.year == 2024 && dt.month == 3 && dt.day == 10
    requires dt.hour == 15 && dt.minute == 0 && dt.second == 0
    requires s == "2024-03-10T15:00:00Z"
    ensures RenderPlain(dt) == s
  {
    var y, mo, d, h, z := "2024", "03", "10", "15", "00";
    assert Four(dt.year) == y && Two(dt.month) == mo && Two(dt.day) == d;
    assert Two(dt.hour) == h && Two(dt.minute) == z && Two(dt.second) == z;
    StampSpelled(dt, 'T', y, mo, d, h, z, z);
    KickoffInputText(y, mo, d, h, z, Stamp(dt, 'T'), s);
  }

  lemma KickoffOutput(next: DateTime, out: string)
    requires Valid(next) && next.year == 2024 && next.month == 3 && next.day == 10
    requires next.hour == 17 && next.minute == 0 && next.second == 0
    requires out == "2024-03-10 17:00:00"
    ensures Format(next) == out
  {
    var y, mo, d, h, z := "2024", "03", "10", "17", "00";
    assert Four(next.year) == y && Two(next.month) == mo && Two(next.day) == d;
    assert Two(next.hour) == h && Two(next.minute) == z && Two(next.second) == z;
    StampSpelled(next, ' ', y, mo, d, h, z, z);
    KickoffOutputText(y, mo, d, h, z, out);
  }

  lemma KickoffInputText(y: string, mo: string, d: string, h: string, z: string, t: string, s: string)
    requires y == "2024" && mo == "03" && d == "10" && h == "15" && z == "00"
    requires t == y + "-" + mo + "-" + d + "T" + h + ":" + z + ":" + z
    requires s == "2024-03-10T15:00:00Z"
    ensures t + "Z" == s
  {
  }

  lemma KickoffOutputText(y: string, mo: string, d: string, h: string, z: string, out: string)
    requires y == "2024" && mo == "03" && d == "10" && h == "17" && z == "00"
    requires out == "2024-03-10 17:00:00"
    ensures y + "-" + mo + "-" + d + " " + h + ":" + z + ":" + z == out
  {
  }

  /** The same kick-off written with microseconds gives the same output. */
  lemma FractionalKickoffExample(s: string, out: string)
    requires s == "2024-03-10T15:00:00.123456Z" && out == "2024-03-10 17:00:00"
    ensures AddHoursAndFormat(s) == Ok(out)
  {
    var plain, fraction := "2024-03-10T15:00:00Z", "123456";
    FractionalSpelling(plain, fraction, s);
    KickoffExample(plain, out);
    FractionDiscarded(plain, fraction);
  }

  lemma FractionalSpelling(plain: string, fraction: string, s: string)
    requires plain == "2024-03-10T15:00:00Z" && fraction == "123456" && s == "2024-03-10T15:00:00.123456Z"
    ensures s == plain[..HeadLength] + "." + fraction + plain[HeadLength..]
    ensures |plain| == HeadLength + 1 && '.' !in plain
    ensures 1 <= |fraction| <= MaxFractionDigits && AllDigits(fraction)
  {
  }

  // ----- A shift across the end of a year -----

  /** 23:30 UTC on New Year's Eve is printed as 01:30 on 1 January of the next year. */
  lemma YearEndExample(s: string, out: string)
    requires s == "2024-12-31T23:30:00Z" && out == "2025-01-01 01:30:00"
    ensures AddHoursAndFormat(s) == Ok(out)
  {
    var dt, next := DateTime(2024, 12, 31, 23, 30, 0, 0), DateTime(2025, 1, 1, 1, 30, 0, 0);
    YearEndInput(dt, s);
    YearEndOutput(next, out);
    RolloverExamples();
    NormalizeRendered(dt, next);
  }

  lemma YearEndInput(dt: DateTime, s: string)
    requires Valid(dt) && dt.year == 2024 && dt.month == 12 && dt.day == 31
    requires dt.hour == 23 && dt.minute == 30 && dt.second == 0
    requires s == "2024-12-31T23:30:00Z"
    ensures RenderPlain(dt) == s
  {
    var y, mo, d, h, mi, z := "2024", "12", "31", "23", "30", "00";
    assert Four(dt.year) == y && Two(dt.month) == mo && Two(dt.day) == d;
    assert Two(dt.hour) == h && Two(dt.minute) == mi && Two(dt.second) == z;
    StampSpelled(dt, 'T', y, mo, d, h, mi, z);
    YearEndInputText(y, mo, d, h, mi, z, Stamp(dt, 'T'), s);
  }

  lemma YearEndOutput(next: DateTime, out: string)
    requires Valid(next) && next.year == 2025 && next.month == 1 && next.day == 1
    requires next.hour == 1 && next.minute == 30 && next.second == 0
    requires out == "2025-01-01 01:30:00"
    ensures Format(next) == out
  {
    var y, one, mi, z := "2025", "01", "30", "00";
    assert Four(next.year) == y && Two(next.month) == one && Two(next.day) == one;
    assert Two(next.hour) == one && Two(next.minute) == mi && Two(next.second) == z;
    StampSpelled(next, ' ', y, one, one, one, mi, z);
    YearEndOutputText(y, one, mi, z, out);
  }

  lemma YearEndInputText(y: string, mo: string, d: string, h: string, mi: string, z: string, t: string, s: string)
    requires y == "2024" && mo == "12" && d == "31" && h == "23" && mi == "30" && z == "00"
    requires t == y + "-" + mo + "-" + d + "T" + h + ":" + mi + ":" + z
    requires s == "2024-12-31T23:30:00Z"
    ensures t + "Z" == s
  {
  }

  lemma YearEndOutputText(y: string, one: string, mi: string, z: string, out: string)
    requires y == "2025" && one == "01" && mi == "30" && z == "00"
    requires out == "2025-01-01 01:30:00"
    ensures y + "-" + one + "-" + one + " " + one + ":" + mi + ":" + z == out
  {
  }

  // ----- Out-of-range fields are rejected whatever the rest of the text -----

  lemma MonthThirteenRejected(s: string)
    requires |s| >= 7 && s[5..7] == "13"
    ensures AddHoursAndFormat(s) == Err(TimeDataError)
  {
    assert Number(s[5..7]) == 13;
  }

  lemma FebruaryThirtiethRejected(s: string)
    requires |s| >= 10 && s[5..7] == "02" && s[8..10] == "30"
    ensures AddHoursAndFormat(s) == Err(TimeDataError)
  {
    assert Number(s[5..7]) == 2 && Number(s[8..10]) == 30;
  }

  /** 29 February exists only in leap years, and 2023 is not one. */
  lemma NonLeapFebruaryTwentyNinthRejected(s: string)
    requires |s| >= 10 && s[0..4] == "2023" && s[5..7] == "02" && s[8..10] == "29"
    ensures AddHoursAndFormat(s) == Err(TimeDataError)
  {
    assert "2023"[..3] == "202" && "202"[..2] == "20";
    assert Number(s[0..4]) == 2023 && Number(s[5..7]) == 2 && Number(s[8..10]) == 29;
  }

  lemma HourTwentyFourRejected(s: string)
    requires |s| >= 13 && s[11..13] == "24"
    ensures AddHoursAndFormat(s) == Err(TimeDataError)
  {
    assert Number(s[11..13]) == 24;
  }

  /** The last two hours `datetime` can represent overflow when shifted. */
  lemma LastHoursOverflow(dt: DateTime)
    requires Valid(dt) && dt.microsecond == 0
    requires dt.year == MaxYear && dt.month == 12 && dt.day == 31 && dt.hour >= 22
    ensures AddHoursAndFormat(RenderPlain(dt)) == Err(DateOverflow)
  {
    ParseRenderPlain(dt);
  }
}
