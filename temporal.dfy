/**
 * Calendar dates, clock times and date-times as Python's datetime module
 * represents them, with the text forms the pipeline produces and reads:
 * isoformat() of dates and date-times, str() of a date-time, the
 * strptime(text, '%Y-%m-%d') reading of a date and the fromisoformat()
 * reading of a date-time (the grammar of CPython 3.7 to 3.10). UTC offsets
 * are whole minutes east of UTC; a date-time without one is naive.
 */
module Temporal {
  import opened Common

  predicate IsLeapYear(y: int)
  {
    y % 4 == 0 && (y % 100 != 0 || y % 400 == 0)
  }

  function DaysInMonth(y: int, m: int): int
    requires 1 <= m <= 12
  {
    if m == 2 then (if IsLeapYear(y) then 29 else 28)
    else if m == 4 || m == 6 || m == 9 || m == 11 then 30
    else 31
  }

  datatype Date = Date(year: int, month: int, day: int)
  {
    /** The range datetime.date accepts. */
    predicate Valid()
    {
      1 <= year <= 9999 && 1 <= month <= 12 && 1 <= day <= DaysInMonth(year, month)
    }
  }

  datatype Time = Time(hour: int, minute: int, second: int, microsecond: int)
  {
    predicate Valid()
    {
      0 <= hour < 24 && 0 <= minute < 60 && 0 <= second < 60 && 0 <= microsecond < 1000000
    }
  }

  const Midnight := Time(0, 0, 0, 0)

  /** A date the datetime module can hold. */
  type CalendarDate = d: Date | d.Valid() witness Date(1, 1, 1)

  predicate ValidOffset(minutes: int)
  {
    -1440 < minutes < 1440
  }

  /** A date-time; `offset` is None for a naive value and the UTC offset in minutes otherwise. */
  datatype DateTime = DateTime(date: Date, time: Time, offset: Option<int>)
  {
    predicate Valid()
    {
      date.Valid() && time.Valid() && (offset.Some? ==> ValidOffset(offset.value))
    }
  }

  /** A date-time the datetime module can hold. */
  type Moment = dt: DateTime | dt.Valid() witness DateTime(Date(1, 1, 1), Midnight, None)

  // ---------------------------------------------------------------
  // Text forms
  // ---------------------------------------------------------------

  /** date.isoformat(): YYYY-MM-DD. */
  function DateText(d: Date): string
    requires d.Valid()
  {
    ZeroPad(d.year, 4) + "-" + ZeroPad(d.month, 2) + "-" + ZeroPad(d.day, 2)
  }

  /** HH:MM:SS, followed by .ffffff when `micro` holds. */
  function TimeText(t: Time, micro: bool): string
    requires t.Valid()
  {
    ZeroPad(t.hour, 2) + ":" + ZeroPad(t.minute, 2) + ":" + ZeroPad(t.second, 2)
    + (if micro then "." + ZeroPad(t.microsecond, 6) else "")
  }

  function Abs(i: int): nat
  {
    if i < 0 then -i else i
  }

  /** The +HH:MM / -HH:MM suffix of an aware value; nothing for a naive one. */
  function OffsetText(offset: Option<int>): string
    requires offset.Some? ==> ValidOffset(offset.value)
  {
    match offset
    case None => ""
    case Some(m) =>
      (if m < 0 then "-" else "+") + ZeroPad(Abs(m) / 60, 2) + ":" + ZeroPad(Abs(m) % 60, 2)
  }

  function IsoFormat(dt: DateTime, sep: char, micro: bool): string
    requires dt.Valid()
  {
    DateText(dt.date) + [sep] + TimeText(dt.time, micro) + OffsetText(dt.offset)
  }

  /** datetime.isoformat(timespec='microseconds'). */
  function IsoMicro(dt: DateTime): string
    requires dt.Valid()
  {
    IsoFormat(dt, 'T', true)
  }

  /** datetime.isoformat(): the fraction only when it is not zero. */
  function IsoAuto(dt: DateTime): string
    requires dt.Valid()
  {
    IsoFormat(dt, 'T', dt.time.microsecond != 0)
  }

  /** str() of a datetime: isoformat with a space between date and time. */
  function DateTimeStr(dt: DateTime): string
    requires dt.Valid()
  {
    IsoFormat(dt, ' ', dt.time.microsecond != 0)
  }

  // ---------------------------------------------------------------
  // Reading dates: strptime(text, '%Y-%m-%d')
  // ---------------------------------------------------------------

  /**
   * datetime.strptime(text, '%Y-%m-%d') on text without spaces: exactly four
   * year digits, one or two month digits, one or two day digits, a date that
   * exists, and nothing left over.
   */
  function StrptimeDate(s: string): (r: Option<Date>)
    ensures r.Some? ==> r.value.Valid()
  {
    var parts := Split(s, '-');
    if |parts| == 3 && |parts[0]| == 4 && AllDigits(parts[0])
       && 1 <= |parts[1]| <= 2 && AllDigits(parts[1])
       && 1 <= |parts[2]| <= 2 && AllDigits(parts[2])
    then
      var d := Date(DigitsValue(parts[0]), DigitsValue(parts[1]), DigitsValue(parts[2]));
      if d.Valid() then Some(d) else None
    else
      None
  }

  // ---------------------------------------------------------------
  // Reading date-times: datetime.fromisoformat(text)
  // ---------------------------------------------------------------

  predicate DigitsAt(s: string, i: nat, n: nat)
  {
    i + n <= |s| && AllDigits(s[i..i + n])
  }

  function ValueAt(s: string, i: nat, n: nat): nat
    requires DigitsAt(s, i, n)
  {
    DigitsValue(s[i..i + n])
  }

  /** The fixed YYYY-MM-DD head of an ISO text. */
  function ParseIsoDate(s: string): (r: Option<Date>)
    ensures r.Some? ==> r.value.Valid()
  {
    if |s| == 10 && s[4] == '-' && s[7] == '-' && DigitsAt(s, 0, 4) && DigitsAt(s, 5, 2) && DigitsAt(s, 8, 2) then
      var d := Date(ValueAt(s, 0, 4), ValueAt(s, 5, 2), ValueAt(s, 8, 2));
      if d.Valid() then Some(d) else None
    else
      None
  }

  /** HH, HH:MM, HH:MM:SS, HH:MM:SS.fff or HH:MM:SS.ffffff. */
  function ParseClock(c: string): (r: Option<Time>)
    ensures r.Some? ==> r.value.Valid()
  {
    var t :=
      if |c| == 2 && DigitsAt(c, 0, 2) then
        Some(Time(ValueAt(c, 0, 2), 0, 0, 0))
      else if |c| == 5 && c[2] == ':' && DigitsAt(c, 0, 2) && DigitsAt(c, 3, 2) then
        Some(Time(ValueAt(c, 0, 2), ValueAt(c, 3, 2), 0, 0))
      else if 8 <= |c| && c[2] == ':' && c[5] == ':' && DigitsAt(c, 0, 2) && DigitsAt(c, 3, 2) && DigitsAt(c, 6, 2) then
        var hms := Time(ValueAt(c, 0, 2), ValueAt(c, 3, 2), ValueAt(c, 6, 2), 0);
        if |c| == 8 then Some(hms)
        else if |c| == 12 && c[8] == '.' && DigitsAt(c, 9, 3) then Some(hms.(microsecond := ValueAt(c, 9, 3) * 1000))
        else if |c| == 15 && c[8] == '.' && DigitsAt(c, 9, 6) then Some(hms.(microsecond := ValueAt(c, 9, 6)))
        else None
      else
        None;
    if t.Some? && t.value.Valid() then t else None
  }

  /** Nothing (a naive value) or +HH:MM / -HH:MM strictly inside one day. */
  function ParseOffset(z: string): (r: Option<Option<int>>)
    ensures r.Some? && r.value.Some? ==> ValidOffset(r.value.value)
  {
    if |z| == 0 then Some(None)
    else if |z| == 6 && (z[0] == '+' || z[0] == '-') && z[3] == ':' && DigitsAt(z, 1, 2) && DigitsAt(z, 4, 2) then
      var magnitude: int := ValueAt(z, 1, 2) * 60 + ValueAt(z, 4, 2);
      var m := if z[0] == '-' then -magnitude else magnitude;
      if ValidOffset(m) then Some(Some(m)) else None
    else
      None
  }

  /** Index of the first '+' or '-' in t, or |t| when it has none. */
  function SignIndex(t: string): (k: nat)
    ensures k <= |t|
    ensures forall i :: 0 <= i < k ==> t[i] != '+' && t[i] != '-'
    ensures k < |t| ==> t[k] == '+' || t[k] == '-'
  {
    if |t| == 0 || t[0] == '+' || t[0] == '-' then 0 else 1 + SignIndex(t[1..])
  }

  /**
   * datetime.fromisoformat(text): a YYYY-MM-DD date, then optionally any one
   * separator character and a time whose UTC offset starts at the first sign.
   */
  function ParseIsoDateTime(s: string): (r: Option<DateTime>)
    ensures r.Some? ==> r.value.Valid()
  {
    if |s| < 10 then None
    else match ParseIsoDate(s[..10])
      case None => None
      case Some(d) =>
        if |s| == 10 then Some(DateTime(d, Midnight, None))
        else
          var t := s[11..];
          var k := SignIndex(t);
          match (ParseClock(t[..k]), ParseOffset(t[k..]))
          case (Some(clock), Some(offset)) => Some(DateTime(d, clock, offset))
          case _ => None
  }

  // ---------------------------------------------------------------
  // Round trips
  // ---------------------------------------------------------------

  lemma Pad2(n: nat)
    requires n < 100
    ensures |ZeroPad(n, 2)| == 2 && AllDigits(ZeroPad(n, 2)) && DigitsValue(ZeroPad(n, 2)) == n
  {
    assert Pow10(2) == 100;
    ZeroPadExact(n, 2);
  }

  lemma DateTextShape(d: Date)
    requires d.Valid()
    ensures |DateText(d)| == 10
    ensures DateText(d)[..4] == ZeroPad(d.year, 4) && DateText(d)[4] == '-'
    ensures DateText(d)[5..7] == ZeroPad(d.month, 2) && DateText(d)[7] == '-'
    ensures DateText(d)[8..] == ZeroPad(d.day, 2)
    ensures AllDigits(ZeroPad(d.year, 4)) && DigitsValue(ZeroPad(d.year, 4)) == d.year
    ensures AllDigits(ZeroPad(d.month, 2)) && DigitsValue(ZeroPad(d.month, 2)) == d.month
    ensures AllDigits(ZeroPad(d.day, 2)) && DigitsValue(ZeroPad(d.day, 2)) == d.day
  {
    assert Pow10(4) == 10000;
    ZeroPadExact(d.year, 4);
    Pad2(d.month);
    Pad2(d.day);
  }

  /** Reading the ISO date text back gives the date. */
  lemma {:induction false} ParseIsoDateOfDateText(d: Date)
    requires d.Valid()
    ensures ParseIsoDate(DateText(d)) == Some(d)
  {
    DateTextShape(d);
    var s := DateText(d);
    assert s[0..4] == s[..4];
    assert s[8..10] == s[8..];
    assert DigitsAt(s, 0, 4) && DigitsAt(s, 5, 2) && DigitsAt(s, 8, 2);
  }

  /** strptime('%Y-%m-%d') reads the ISO text of any valid date back to that date. */
  lemma {:induction false} StrptimeOfDateText(d: Date)
    requires d.Valid()
    ensures StrptimeDate(DateText(d)) == Some(d)
  {
    DateTextShape(d);
    var y, m, dd := ZeroPad(d.year, 4), ZeroPad(d.month, 2), ZeroPad(d.day, 2);
    assert '-' !in y && '-' !in m && '-' !in dd;
    assert DateText(d) == y + ['-'] + (m + ['-'] + dd);
    SplitAfterHead(y, '-', m + ['-'] + dd);
    SplitAfterHead(m, '-', dd);
    SplitWithoutSeparator(dd, '-');
    assert Split(DateText(d), '-') == [y, m, dd];
  }

  lemma TimeTextShape(t: Time, micro: bool)
    requires t.Valid()
    ensures var c := TimeText(t, micro);
      |c| == (if micro then 15 else 8)
      && c[2] == ':' && c[5] == ':' && DigitsAt(c, 0, 2) && DigitsAt(c, 3, 2) && DigitsAt(c, 6, 2)
      && ValueAt(c, 0, 2) == t.hour && ValueAt(c, 3, 2) == t.minute && ValueAt(c, 6, 2) == t.second
      && (micro ==> c[8] == '.' && DigitsAt(c, 9, 6) && ValueAt(c, 9, 6) == t.microsecond)
      && (forall i :: 0 <= i < |c| ==> c[i] != '+' && c[i] != '-')
  {
    Pad2(t.hour);
    Pad2(t.minute);
    Pad2(t.second);
    var h, m, sec := ZeroPad(t.hour, 2), ZeroPad(t.minute, 2), ZeroPad(t.second, 2);
    var f := if micro then "." + ZeroPad(t.microsecond, 6) else "";
    if micro {
      assert Pow10(6) == 1000000;
      ZeroPadExact(t.microsecond, 6);
      assert f[1..] == ZeroPad(t.microsecond, 6);
    }
    ClockShape(h, m, sec, f);
    var c := TimeText(t, micro);
    assert c == h + ":" + m + ":" + sec + f;
    if micro {
      assert c[9..15] == f[1..];
    }
  }

  /** The layout of HH:MM:SS followed by a fraction, for any two-digit parts. */
  lemma ClockShape(h: string, m: string, sec: string, f: string)
    requires |h| == 2 && |m| == 2 && |sec| == 2 && AllDigits(h) && AllDigits(m) && AllDigits(sec)
    requires |f| > 0 ==> f[0] == '.' && AllDigits(f[1..])
    ensures var c := h + ":" + m + ":" + sec + f;
      |c| == 8 + |f| && c[2] == ':' && c[5] == ':'
      && c[0..2] == h && c[3..5] == m && c[6..8] == sec && c[8..] == f
      && (|f| > 0 ==> c[9..] == f[1..])
      && (forall i :: 0 <= i < |c| ==> c[i] != '+' && c[i] != '-')
  {
    var c := h + ":" + m + ":" + sec + f;
    assert c[0..2] == h;
    assert c[3..5] == m;
    assert c[6..8] == sec;
    assert c[8..] == f;
    if |f| > 0 {
      assert c[9..] == f[1..];
    }
    forall i | 0 <= i < |c|
      ensures c[i] != '+' && c[i] != '-'
    {
      if i < 2 {
        assert c[i] == h[i];
      } else if 2 < i < 5 {
        assert c[i] == m[i - 3];
      } else if 5 < i < 8 {
        assert c[i] == sec[i - 6];
      } else if i > 8 {
        assert c[i] == f[1..][i - 9];
      }
    }
  }

  /** The clock text reads back as the time, when the fraction is shown or is zero. */
  lemma {:induction false} ParseClockOfTimeText(t: Time, micro: bool)
    requires t.Valid() && (micro || t.microsecond == 0)
    ensures ParseClock(TimeText(t, micro)) == Some(t)
  {
    TimeTextShape(t, micro);
  }

  /** The offset suffix reads back as the offset. */
  lemma {:induction false} ParseOffsetOfOffsetText(offset: Option<int>)
    requires offset.Some? ==> ValidOffset(offset.value)
    ensures ParseOffset(OffsetText(offset)) == Some(offset)
    ensures OffsetText(offset) == [] || OffsetText(offset)[0] == '+' || OffsetText(offset)[0] == '-'
  {
    if offset.Some? {
      var m := offset.value;
      var h, mm := Abs(m) / 60, Abs(m) % 60;
      Pad2(h);
      Pad2(mm);
      var z := OffsetText(offset);
      assert z[1..3] == ZeroPad(h, 2);
      assert z[4..6] == ZeroPad(mm, 2);
    }
  }

  lemma {:induction false} SignIndexAppend(a: string, b: string)
    requires forall i :: 0 <= i < |a| ==> a[i] != '+' && a[i] != '-'
    requires b == [] || b[0] == '+' || b[0] == '-'
    ensures SignIndex(a + b) == |a|
  {
    if |a| > 0 {
      assert (a + b)[1..] == a[1..] + b;
      SignIndexAppend(a[1..], b);
    } else {
      assert a + b == b;
    }
  }

  /**
   * Every ISO text this model renders (with 'T' or a space, with or without
   * the fraction when it is zero) is read back by fromisoformat exactly.
   */
  lemma {:induction false} ParseIsoOfIsoFormat(dt: DateTime, sep: char, micro: bool)
    requires dt.Valid() && (micro || dt.time.microsecond == 0)
    ensures ParseIsoDateTime(IsoFormat(dt, sep, micro)) == Some(dt)
  {
    DateTextShape(dt.date);
    TimeTextShape(dt.time, micro);
    ParseIsoDateOfDateText(dt.date);
    ParseClockOfTimeText(dt.time, micro);
    ParseOffsetOfOffsetText(dt.offset);
    ParseIsoOfParts(DateText(dt.date), sep, TimeText(dt.time, micro), OffsetText(dt.offset));
  }

  /** A date text, a separator, a sign-free clock and an offset text parse part by part. */
  lemma {:induction false} ParseIsoOfParts(d: string, sep: char, c: string, z: string)
    requires |d| == 10 && ParseIsoDate(d).Some?
    requires forall i :: 0 <= i < |c| ==> c[i] != '+' && c[i] != '-'
    requires z == [] || z[0] == '+' || z[0] == '-'
    requires ParseClock(c).Some? && ParseOffset(z).Some?
    ensures ParseIsoDateTime(d + [sep] + c + z)
      == Some(DateTime(ParseIsoDate(d).value, ParseClock(c).value, ParseOffset(z).value))
  {
    var s := d + [sep] + c + z;
    assert s[..10] == d;
    assert s[11..] == c + z;
    SignIndexAppend(c, z);
    assert (c + z)[..|c|] == c;
    assert (c + z)[|c|..] == z;
  }

  /** Rendered ISO texts hold no 'Z' (so replacing 'Z' by '+00:00' leaves them alone). */
  lemma IsoFormatHasNoZ(dt: DateTime, sep: char, micro: bool)
    requires dt.Valid() && sep != 'Z'
    ensures 'Z' !in IsoFormat(dt, sep, micro)
  {
    var t := dt.time;
    PadHasNoZ(dt.date.year, 4);
    PadHasNoZ(dt.date.month, 2);
    PadHasNoZ(dt.date.day, 2);
    assert 'Z' !in DateText(dt.date);
    PadHasNoZ(t.hour, 2);
    PadHasNoZ(t.minute, 2);
    PadHasNoZ(t.second, 2);
    PadHasNoZ(t.microsecond, 6);
    assert 'Z' !in TimeText(t, micro);
    if dt.offset.Some? {
      PadHasNoZ(Abs(dt.offset.value) / 60, 2);
      PadHasNoZ(Abs(dt.offset.value) % 60, 2);
    }
    assert 'Z' !in OffsetText(dt.offset);
  }

  lemma PadHasNoZ(n: nat, width: nat)
    ensures 'Z' !in ZeroPad(n, width)
  {
    ZeroPadDigits(n, width);
  }

  /** isoformat(timespec='microseconds') round-trips through fromisoformat. */
  lemma IsoMicroRoundTrip(dt: DateTime)
    requires dt.Valid()
    ensures ParseIsoDateTime(IsoMicro(dt)) == Some(dt)
  {
    ParseIsoOfIsoFormat(dt, 'T', true);
  }

  /** str() of a datetime round-trips through fromisoformat. */
  lemma DateTimeStrRoundTrip(dt: DateTime)
    requires dt.Valid()
    ensures ParseIsoDateTime(DateTimeStr(dt)) == Some(dt)
  {
    ParseIsoOfIsoFormat(dt, ' ', dt.time.microsecond != 0);
  }

  /** A bare ISO date reads as naive midnight of that date. */
  lemma {:induction false} ParseIsoOfDateText(d: Date)
    requires d.Valid()
    ensures ParseIsoDateTime(DateText(d)) == Some(DateTime(d, Midnight, None))
  {
    DateTextShape(d);
    ParseIsoDateOfDateText(d);
    assert DateText(d)[..10] == DateText(d);
  }
}
