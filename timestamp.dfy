/** `FotmobAPI.add_hours_and_format`: parse an ISO-8601 UTC kick-off time with
    `datetime.strptime` ("%Y-%m-%dT%H:%M:%SZ", or "%Y-%m-%dT%H:%M:%S.%fZ" when
    the text contains a '.'), add two hours, and render "%Y-%m-%d %H:%M:%S". */
module Timestamp {
  import opened Errors
  import opened Calendar

  /** Length of "YYYY-MM-DDTHH:MM:SS", the part both input patterns share. */
  const HeadLength: nat := 19
  /** `%f` reads at most six digits. */
  const MaxFractionDigits: nat := 6
  /** Length of the output "YYYY-MM-DD HH:MM:SS". */
  const OutputLength: nat := 19

  // ----- Decimal digits -----

  predicate IsDigit(c: char)
  {
    '0' <= c <= '9'
  }

  predicate AllDigits(s: string)
  {
    forall i :: 0 <= i < |s| ==> IsDigit(s[i])
  }

  function Pow10(n: nat): (p: nat)
    ensures p >= 1
  {
    if n == 0 then 1 else 10 * Pow10(n - 1)
  }

  /** The value of a decimal numeral, as `int()` reads it. */
  function Number(s: string): (n: nat)
    requires AllDigits(s)
    ensures n < Pow10(|s|)
  {
    if s == [] then 0 else Number(s[..|s| - 1]) * 10 + (s[|s| - 1] as int - '0' as int)
  }

  /** `n` as a zero-padded numeral of `width` digits, as strftime's `%Y`, `%m`, ... print it. */
  function Digits(n: nat, width: nat): (s: string)
    requires n < Pow10(width)
    ensures |s| == width && AllDigits(s)
    ensures Number(s) == n
  {
    if width == 0 then []
    else
      assert n / 10 < Pow10(width - 1);
      var init := Digits(n / 10, width - 1);
      var s := init + [('0' as int + n % 10) as char];
      assert s[..|s| - 1] == init;
      assert Number(s) == Number(init) * 10 + n % 10;
      s
  }

  /** Reading a numeral and printing it back at its own width gives it back. */
  lemma {:induction false} DigitsOfNumber(s: string)
    requires AllDigits(s)
    ensures Digits(Number(s), |s|) == s
  {
    if s != [] {
      var init := s[..|s| - 1];
      var d := s[|s| - 1] as int - '0' as int;
      DigitsOfNumber(init);
      var n := Number(s);
      assert n == Number(init) * 10 + d;
      assert n / 10 == Number(init) && n % 10 == d;
      assert Digits(n, |s|) == Digits(Number(init), |init|) + [('0' as int + d) as char];
      assert s == init + [s[|s| - 1]];
    }
  }

  // ----- The input patterns -----

  /** strptime matches the literal letters of the format case-insensitively. */
  predicate IsT(c: char) { c == 'T' || c == 't' }
  predicate IsZ(c: char) { c == 'Z' || c == 'z' }

  /** The text begins with "YYYY-MM-DDTHH:MM:SS", every field zero-padded. */
  predicate HeadShape(s: string)
  {
    && |s| >= HeadLength
    && AllDigits(s[0..4]) && s[4] == '-' && AllDigits(s[5..7]) && s[7] == '-' && AllDigits(s[8..10])
    && IsT(s[10])
    && AllDigits(s[11..13]) && s[13] == ':' && AllDigits(s[14..16]) && s[16] == ':' && AllDigits(s[17..19])
  }

  /** The fields written in the head, with the given microsecond. */
  function HeadFields(s: string, microsecond: int): DateTime
    requires HeadShape(s)
  {
    DateTime(Number(s[0..4]), Number(s[5..7]), Number(s[8..10]),
             Number(s[11..13]), Number(s[14..16]), Number(s[17..19]), microsecond)
  }

  /** "%Y-%m-%dT%H:%M:%SZ" */
  predicate PlainShape(s: string)
  {
    |s| == HeadLength + 1 && HeadShape(s) && IsZ(s[HeadLength])
  }

  /** "%Y-%m-%dT%H:%M:%S.%fZ", with one to six fraction digits. */
  predicate FractionalShape(s: string)
  {
    && HeadLength + 3 <= |s| <= HeadLength + 2 + MaxFractionDigits
    && HeadShape(s) && s[HeadLength] == '.'
    && AllDigits(s[HeadLength + 1..|s| - 1]) && IsZ(s[|s| - 1])
  }

  /** `%f`: the digits are padded on the right to six and read as microseconds. */
  function FractionMicroseconds(s: string): (us: int)
    requires FractionalShape(s)
    ensures 0 <= us < 1000000
  {
    var f := s[HeadLength + 1..|s| - 1];
    PowerSplit(|f|, MaxFractionDigits - |f|);
    Number(f) * Pow10(MaxFractionDigits - |f|)
  }

  lemma {:induction false} PowerSplit(a: nat, b: nat)
    ensures Pow10(a) * Pow10(b) == Pow10(a + b)
  {
    if a > 0 {
      PowerSplit(a - 1, b);
    }
  }

  /** The `datetime` constructor: ValueError for fields out of range. */
  function Construct(dt: DateTime): (r: Result<DateTime>)
    ensures r.Ok? <==> Valid(dt)
    ensures r.Ok? ==> r.value == dt
    ensures r.Err? ==> r.error == TimeDataError
  {
    if Valid(dt) then Ok(dt) else Err(TimeDataError)
  }

  /** `strptime(s, "%Y-%m-%dT%H:%M:%SZ")`: accepted exactly when the text has
      the plain shape and its fields are in range; no microseconds. */
  function ParsePlain(s: string): (r: Result<DateTime>)
    ensures r.Ok? <==> PlainShape(s) && Valid(HeadFields(s, 0))
    ensures r.Ok? ==> r.value == HeadFields(s, 0) && r.value.microsecond == 0
    ensures r.Err? ==> r.error == TimeDataError
  {
    if PlainShape(s) then Construct(HeadFields(s, 0)) else Err(TimeDataError)
  }

  /** `strptime(s, "%Y-%m-%dT%H:%M:%S.%fZ")`: accepted exactly when the text
      has the fractional shape and its fields are in range; the microseconds
      are the fraction's digits padded on the right. */
  function ParseFractional(s: string): (r: Result<DateTime>)
    ensures r.Ok? <==> FractionalShape(s) && Valid(HeadFields(s, 0))
    ensures r.Ok? ==> r.value == HeadFields(s, FractionMicroseconds(s))
    ensures r.Err? ==> r.error == TimeDataError
  {
    if FractionalShape(s) then Construct(HeadFields(s, FractionMicroseconds(s))) else Err(TimeDataError)
  }

  /** The two patterns are told apart by a '.' anywhere in the text; since the
      plain pattern never contains one and the fractional one always does,
      the choice loses nothing: the text parses exactly when it has one of the
      two shapes and its fields are in range. */
  function Parse(s: string): (r: Result<DateTime>)
    ensures r.Ok? <==> (PlainShape(s) || FractionalShape(s)) && Valid(HeadFields(s, 0))
    ensures r.Err? ==> r.error == TimeDataError
    ensures r.Ok? ==> Valid(r.value)
  {
    PlainHasNoDot(s);
    FractionalHasDot(s);
    if '.' in s then ParseFractional(s) else ParsePlain(s)
  }

  lemma PlainHasNoDot(s: string)
    ensures PlainShape(s) ==> '.' !in s
  {
    if PlainShape(s) {
      forall i | 0 <= i < |s| ensures s[i] != '.' {
        if i < 4 { assert s[0..4][i] == s[i]; }
        else if 5 <= i < 7 { assert s[5..7][i - 5] == s[i]; }
        else if 8 <= i < 10 { assert s[8..10][i - 8] == s[i]; }
        else if 11 <= i < 13 { assert s[11..13][i - 11] == s[i]; }
        else if 14 <= i < 16 { assert s[14..16][i - 14] == s[i]; }
        else if 17 <= i < 19 { assert s[17..19][i - 17] == s[i]; }
      }
    }
  }

  lemma FractionalHasDot(s: string)
    ensures FractionalShape(s) ==> '.' in s
  {
    if FractionalShape(s) {
      assert s[HeadLength] == '.';
    }
  }

  /** A text containing '.' is accepted only in the fractional pattern, one
      without only in the plain pattern. */
  lemma PatternChosenByDot(s: string)
    ensures '.' in s && Parse(s).Ok? ==> FractionalShape(s) && !PlainShape(s)
    ensures '.' !in s && Parse(s).Ok? ==> PlainShape(s) && !FractionalShape(s)
  {
    PlainHasNoDot(s);
    FractionalHasDot(s);
  }

  // ----- The output format -----

  /** "YYYY-MM-DD HH:MM:SS" */
  predicate OutputShape(r: string)
  {
    && |r| == OutputLength
    && AllDigits(r[0..4]) && r[4] == '-' && AllDigits(r[5..7]) && r[7] == '-' && AllDigits(r[8..10])
    && r[10] == ' '
    && AllDigits(r[11..13]) && r[13] == ':' && AllDigits(r[14..16]) && r[16] == ':' && AllDigits(r[17..19])
  }

  /** The datetime an output string denotes (it carries no microsecond). */
  function OutputFields(r: string): DateTime
    requires OutputShape(r)
  {
    DateTime(Number(r[0..4]), Number(r[5..7]), Number(r[8..10]),
             Number(r[11..13]), Number(r[14..16]), Number(r[17..19]), 0)
  }

  /** The fields of `dt` as zero-padded numerals, "YYYY-MM-DD" and "HH:MM:SS"
      joined by `sep`. */
  function Stamp(dt: DateTime, sep: char): (r: string)
    requires Valid(dt)
  {
    Digits(dt.year, 4) + "-" + Digits(dt.month, 2) + "-" + Digits(dt.day, 2) + [sep]
      + Digits(dt.hour, 2) + ":" + Digits(dt.minute, 2) + ":" + Digits(dt.second, 2)
  }

  lemma StampSlices(dt: DateTime, sep: char)
    requires Valid(dt)
    ensures var r := Stamp(dt, sep);
      && |r| == 19
      && r[0..4] == Digits(dt.year, 4) && r[4] == '-' && r[5..7] == Digits(dt.month, 2) && r[7] == '-'
      && r[8..10] == Digits(dt.day, 2) && r[10] == sep
      && r[11..13] == Digits(dt.hour, 2) && r[13] == ':' && r[14..16] == Digits(dt.minute, 2) && r[16] == ':'
      && r[17..19] == Digits(dt.second, 2)
  {
  }

  /** `strftime('%Y-%m-%d %H:%M:%S')`: the microsecond is not printed. */
  function Format(dt: DateTime): (r: string)
    requires Valid(dt)
    ensures OutputShape(r)
    ensures OutputFields(r) == dt.(microsecond := 0)
  {
    StampSlices(dt, ' ');
    Stamp(dt, ' ')
  }

  /** The output layout position by position: separators at 4, 7, 10, 13 and 16,
      digits everywhere else. */
  lemma OutputLayout(r: string)
    requires OutputShape(r)
    ensures |r| == 19
    ensures r[4] == '-' && r[7] == '-' && r[10] == ' ' && r[13] == ':' && r[16] == ':'
    ensures forall i :: 0 <= i < 19 && i != 4 && i != 7 && i != 10 && i != 13 && i != 16 ==> IsDigit(r[i])
  {
    forall i | 0 <= i < 19 && i != 4 && i != 7 && i != 10 && i != 13 && i != 16 ensures IsDigit(r[i]) {
      if i < 4 { assert r[0..4][i] == r[i]; }
      else if i < 7 { assert r[5..7][i - 5] == r[i]; }
      else if i < 10 { assert r[8..10][i - 8] == r[i]; }
      else if i < 13 { assert r[11..13][i - 11] == r[i]; }
      else if i < 16 { assert r[14..16][i - 14] == r[i]; }
      else { assert r[17..19][i - 17] == r[i]; }
    }
  }

  // ----- The normaliser -----

  /** `FotmobAPI.add_hours_and_format`. */
  function AddHoursAndFormat(s: string): (r: Result<string>)
    ensures r.Ok? ==> Parse(s).Ok? && OutputShape(r.value) && Valid(OutputFields(r.value))
    ensures r.Ok? ==> Seconds(OutputFields(r.value)) == Seconds(Parse(s).value) + OffsetHours * 3600
    ensures r.Err? <==> Parse(s).Err?
                        || (var dt := Parse(s).value; IsLastDay(dt.year, dt.month, dt.day) && dt.hour + OffsetHours >= 24)
    ensures r.Err? ==> r.error == (if Parse(s).Err? then TimeDataError else DateOverflow)
  {
    var dt :- Parse(s);
    var shifted :- AddOffset(dt);
    Ok(Format(shifted))
  }

  // ----- Round trips between the input patterns and the parsed datetime -----

  /** The plain input text for a datetime: "YYYY-MM-DDTHH:MM:SSZ". */
  function RenderPlain(dt: DateTime): string
    requires Valid(dt)
  {
    Stamp(dt, 'T') + "Z"
  }

  /** The fractional input text for a datetime: "YYYY-MM-DDTHH:MM:SS.<fraction>Z". */
  function RenderFractional(dt: DateTime, fraction: string): string
    requires Valid(dt)
  {
    Stamp(dt, 'T') + "." + fraction + "Z"
  }

  /** The head of a rendered text reads back as the rendered fields. */
  lemma StampReadsBack(dt: DateTime, s: string)
    requires Valid(dt)
    requires |s| >= HeadLength && s[..HeadLength] == Stamp(dt, 'T')
    ensures HeadShape(s)
    ensures HeadFields(s, 0) == dt.(microsecond := 0)
  {
    HeadSlices(dt, s);
    assert Number(s[0..4]) == dt.year && Number(s[5..7]) == dt.month && Number(s[8..10]) == dt.day;
    assert Number(s[11..13]) == dt.hour && Number(s[14..16]) == dt.minute && Number(s[17..19]) == dt.second;
  }

  lemma HeadSlices(dt: DateTime, s: string)
    requires Valid(dt)
    requires |s| >= HeadLength && s[..HeadLength] == Stamp(dt, 'T')
    ensures s[0..4] == Digits(dt.year, 4) && s[4] == '-' && s[5..7] == Digits(dt.month, 2) && s[7] == '-'
    ensures s[8..10] == Digits(dt.day, 2) && s[10] == 'T'
    ensures s[11..13] == Digits(dt.hour, 2) && s[13] == ':' && s[14..16] == Digits(dt.minute, 2) && s[16] == ':'
    ensures s[17..19] == Digits(dt.second, 2)
  {
    StampSlices(dt, 'T');
    PrefixSlices(s, Stamp(dt, 'T'));
  }

  /** A text beginning with a 19-character head has the head's fields and separators. */
  lemma PrefixSlices(s: string, h: string)
    requires |h| == HeadLength && |s| >= HeadLength && s[..HeadLength] == h
    ensures s[0..4] == h[0..4] && s[5..7] == h[5..7] && s[8..10] == h[8..10]
    ensures s[11..13] == h[11..13] && s[14..16] == h[14..16] && s[17..19] == h[17..19]
    ensures s[4] == h[4] && s[7] == h[7] && s[10] == h[10] && s[13] == h[13] && s[16] == h[16]
  {
    assert forall i :: 0 <= i < HeadLength ==> s[i] == h[i];
  }

  /** Every valid datetime without microseconds is read back from its plain text. */
  lemma ParseRenderPlain(dt: DateTime)
    requires Valid(dt) && dt.microsecond == 0
    ensures Parse(RenderPlain(dt)) == Ok(dt)
  {
    var s := RenderPlain(dt);
    assert s[..HeadLength] == Stamp(dt, 'T');
    StampReadsBack(dt, s);
    PlainHasNoDot(s);
  }

  /** Every valid datetime is read back from its fractional text, the digits
      giving the microsecond padded on the right to six places. */
  lemma ParseRenderFractional(dt: DateTime, fraction: string)
    requires Valid(dt)
    requires 1 <= |fraction| <= MaxFractionDigits && AllDigits(fraction)
    requires dt.microsecond == Number(fraction) * Pow10(MaxFractionDigits - |fraction|)
    ensures Parse(RenderFractional(dt, fraction)) == Ok(dt)
  {
    var s := RenderFractional(dt, fraction);
    RenderedFractionalFields(dt, fraction, s);
    FractionalHasDot(s);
    assert Parse(s) == ParseFractional(s);
  }

  lemma RenderedFractionalFields(dt: DateTime, fraction: string, s: string)
    requires Valid(dt)
    requires 1 <= |fraction| <= MaxFractionDigits && AllDigits(fraction)
    requires dt.microsecond == Number(fraction) * Pow10(MaxFractionDigits - |fraction|)
    requires s == RenderFractional(dt, fraction)
    ensures FractionalShape(s) && HeadFields(s, FractionMicroseconds(s)) == dt
  {
    assert s[..HeadLength] == Stamp(dt, 'T');
    StampReadsBack(dt, s);
    assert s[HeadLength] == '.';
    assert s[HeadLength + 1..|s| - 1] == fraction;
  }

  /** Parsing reads exactly the fields written: formatting the parsed datetime
      reproduces the input's date and time with the 'T' replaced by a space. */
  lemma ParseReadsWrittenFields(s: string)
    requires Parse(s).Ok?
    ensures Format(Parse(s).value) == s[..10] + " " + s[11..19]
  {
    var dt := Parse(s).value;
    DigitsOfNumber(s[0..4]);
    DigitsOfNumber(s[5..7]);
    DigitsOfNumber(s[8..10]);
    DigitsOfNumber(s[11..13]);
    DigitsOfNumber(s[14..16]);
    DigitsOfNumber(s[17..19]);
    StampSlices(dt, ' ');
    var expected := s[..10] + " " + s[11..19];
    SpacedSlices(s, expected);
    SameFields(Format(dt), expected);
  }

  /** The head of `s` with its 'T' replaced by a space has the head's fields. */
  lemma SpacedSlices(s: string, e: string)
    requires |s| >= HeadLength && e == s[..10] + " " + s[11..19]
    ensures |e| == OutputLength
    ensures e[0..4] == s[0..4] && e[5..7] == s[5..7] && e[8..10] == s[8..10]
    ensures e[11..13] == s[11..13] && e[14..16] == s[14..16] && e[17..19] == s[17..19]
    ensures e[4] == s[4] && e[7] == s[7] && e[10] == ' ' && e[13] == s[13] && e[16] == s[16]
  {
  }

  /** Two 19-character texts with the same fields and separators are equal. */
  lemma SameFields(r: string, e: string)
    requires |r| == |e| == OutputLength
    requires r[0..4] == e[0..4] && r[5..7] == e[5..7] && r[8..10] == e[8..10]
    requires r[11..13] == e[11..13] && r[14..16] == e[14..16] && r[17..19] == e[17..19]
    requires r[4] == e[4] && r[7] == e[7] && r[10] == e[10] && r[13] == e[13] && r[16] == e[16]
    ensures r == e
  {
    forall i | 0 <= i < OutputLength ensures r[i] == e[i] {
      if i < 4 { assert r[0..4][i] == r[i] && e[0..4][i] == e[i]; }
      else if 5 <= i < 7 { assert r[5..7][i - 5] == r[i] && e[5..7][i - 5] == e[i]; }
      else if 8 <= i < 10 { assert r[8..10][i - 8] == r[i] && e[8..10][i - 8] == e[i]; }
      else if 11 <= i < 13 { assert r[11..13][i - 11] == r[i] && e[11..13][i - 11] == e[i]; }
      else if 14 <= i < 16 { assert r[14..16][i - 14] == r[i] && e[14..16][i - 14] == e[i]; }
      else if 17 <= i < 19 { assert r[17..19][i - 17] == r[i] && e[17..19][i - 17] == e[i]; }
    }
  }

  /** Fractional seconds are discarded: inserting ".<digits>" before the final
      'Z' of a plain text changes neither the result nor the error. */
  lemma FractionDiscarded(s: string, fraction: string)
    requires |s| == HeadLength + 1 && '.' !in s
    requires 1 <= |fraction| <= MaxFractionDigits && AllDigits(fraction)
    ensures AddHoursAndFormat(s[..HeadLength] + "." + fraction + s[HeadLength..]) == AddHoursAndFormat(s)
  {
    var t := s[..HeadLength] + "." + fraction + s[HeadLength..];
    InsertedFraction(s, fraction, t);
    if PlainShape(s) && Valid(HeadFields(s, 0)) {
      var a := HeadFields(s, 0);
      var us := FractionMicroseconds(t);
      assert Parse(s) == Ok(a);
      assert Parse(t) == Ok(a.(microsecond := us));
      OffsetKeepsMicrosecond(a, us);
    } else {
      assert Parse(s).Err? && Parse(t).Err?;
    }
  }

  /** The text with a fraction inserted has the fractional shape exactly when
      the original has the plain one, and the same head fields. */
  lemma InsertedFraction(s: string, fraction: string, t: string)
    requires |s| == HeadLength + 1 && '.' !in s
    requires 1 <= |fraction| <= MaxFractionDigits && AllDigits(fraction)
    requires t == s[..HeadLength] + "." + fraction + s[HeadLength..]
    ensures '.' in t
    ensures HeadShape(t) <==> HeadShape(s)
    ensures FractionalShape(t) <==> PlainShape(s)
    ensures HeadShape(s) ==> HeadFields(t, 0) == HeadFields(s, 0)
  {
    assert t[HeadLength] == '.';
    assert t[HeadLength + 1..|t| - 1] == fraction;
    assert t[|t| - 1] == s[HeadLength];
    assert t[0..4] == s[0..4] && t[5..7] == s[5..7] && t[8..10] == s[8..10];
    assert t[11..13] == s[11..13] && t[14..16] == s[14..16] && t[17..19] == s[17..19];
  }

  /** Shifting and formatting never look at the microsecond. */
  lemma OffsetKeepsMicrosecond(dt: DateTime, us: int)
    requires Valid(dt) && 0 <= us < 1000000
    ensures AddOffset(dt.(microsecond := us)).Ok? <==> AddOffset(dt).Ok?
    ensures AddOffset(dt).Ok? ==>
      Format(AddOffset(dt.(microsecond := us)).value) == Format(AddOffset(dt).value)
  {
    var x := dt.(microsecond := us);
    assert x.(microsecond := dt.microsecond) == dt;
    if AddOffset(dt).Ok? {
      var a, b := AddOffset(dt).value, AddOffset(x).value;
      assert b == a.(microsecond := us);
      assert Stamp(b, ' ') == Stamp(a, ' ');
    }
  }
}
