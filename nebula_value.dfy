/**
 * Rendering of one extracted cell value as an nGQL literal for a target
 * Nebula property type (format_nebula_value of the pipeline execution
 * service). A value that cannot be converted to the target type becomes
 * the literal NULL.
 */
module NebulaValue {
  import opened Common
  import opened Temporal

  /** The Python values a cell of an extracted source row can hold. */
  datatype RawValue =
    | PyNone
    | PyBool(b: bool)
    | PyInt(i: int)
    | PyStr(s: string)
    | PyDate(date: CalendarDate)
    | PyDateTime(dt: Moment)
      /** A float: str() gives `text`, int() truncates it to `trunc`, or raises (NaN, infinities). */
    | PyFloat(text: string, trunc: Option<int>)
      /** Any other object, a Decimal say: str() gives `text`, int() gives `intValue` or raises. */
    | PyObject(text: string, intValue: Option<int>)

  /** Python's str() of the value. */
  function StrOf(v: RawValue): string
  {
    match v
    case PyNone => "None"
    case PyBool(b) => if b then "True" else "False"
    case PyInt(i) => IntToString(i)
    case PyStr(s) => s
    case PyDate(d) => DateText(d)
    case PyDateTime(dt) => DateTimeStr(dt)
    case PyFloat(text, _) => text
    case PyObject(text, _) => text
  }

  /** Python's int() of the value, None where it raises. */
  function IntOf(v: RawValue): Option<int>
  {
    match v
    case PyBool(b) => Some(if b then 1 else 0)
    case PyInt(i) => Some(i)
    case PyStr(s) => ParseInt(s)
    case PyFloat(_, trunc) => trunc
    case PyObject(_, intValue) => intValue
    case _ => None
  }

  /** How a target property type name is handled. */
  datatype TargetKind = StringKind | IntegerKind | FloatKind | BoolKind | DateKind | DateTimeKind | TimestampKind | Untyped

  const IntegerTypeNames: seq<string> := ["INT", "INT8", "INT16", "INT32", "INT64"]
  const FloatTypeNames: seq<string> := ["FLOAT", "DOUBLE"]
  const TrueWords: seq<string> := ["true", "1", "yes", "t"]
  const FalseWords: seq<string> := ["false", "0", "no", "f"]

  /** Every type name some branch of the rendering handles. */
  const HandledTypeNames: set<string> :=
    {"STRING", "INT", "INT8", "INT16", "INT32", "INT64", "FLOAT", "DOUBLE", "BOOL", "DATE", "DATETIME", "TIMESTAMP"}

  /**
   * Each handled name selects its own branch; a missing or empty name, and
   * a name no branch handles, fall back to the untyped rendering.
   */
  function Classify(target: Option<string>): (k: TargetKind)
    ensures k == Untyped <==> target.None? || target.value !in HandledTypeNames
    ensures k == StringKind <==> target == Some("STRING")
    ensures k == IntegerKind <==> target.Some? && target.value in IntegerTypeNames
    ensures k == FloatKind <==> target.Some? && target.value in FloatTypeNames
    ensures k == BoolKind <==> target == Some("BOOL")
    ensures k == DateKind <==> target == Some("DATE")
    ensures k == DateTimeKind <==> target == Some("DATETIME")
    ensures k == TimestampKind <==> target == Some("TIMESTAMP")
  {
    match target
    case None => Untyped
    case Some(name) =>
      if name == "STRING" then StringKind
      else if name in IntegerTypeNames then IntegerKind
      else if name in FloatTypeNames then FloatKind
      else if name == "BOOL" then BoolKind
      else if name == "DATE" then DateKind
      else if name == "DATETIME" then DateTimeKind
      else if name == "TIMESTAMP" then TimestampKind
      else Untyped
  }

  /** A double-quoted nGQL string literal holding s. */
  function Quoted(s: string): string
  {
    "\"" + Escape(s) + "\""
  }

  /** A naive date-time is taken to be UTC; an aware one keeps its offset. */
  function AssumeUtc(dt: Moment): (r: Moment)
    ensures r.offset.Some?
    ensures dt.offset.Some? ==> r == dt
    ensures r.date == dt.date && r.time == dt.time
  {
    if dt.offset.Some? then dt else dt.(offset := Some(0))
  }

  function DateLiteral(text: string): string
  {
    "date(\"" + text + "\")"
  }

  function DateTimeLiteral(dt: Moment): string
  {
    "datetime(\"" + IsoMicro(AssumeUtc(dt)) + "\")"
  }

  function IntegerLiteral(v: RawValue): string
  {
    match IntOf(v)
    case Some(i) => IntToString(i)
    case None => "NULL"
  }

  /**
   * The nGQL literal for `value` under the target type name `target`.
   * `floatText` stands for Python's str(float(value)), None where float()
   * raises; floating point is not modelled otherwise.
   */
  function FormatNebulaValue(value: RawValue, target: Option<string>, floatText: RawValue -> Option<string>): (r: string)
    ensures value == PyNone ==> r == "NULL"
  {
    if value == PyNone then "NULL"
    else match Classify(target)
      case StringKind => Quoted(StrOf(value))
      case IntegerKind => IntegerLiteral(value)
      case TimestampKind => IntegerLiteral(value)
      case FloatKind => (match floatText(value) case Some(text) => text case None => "NULL")
      case BoolKind => BoolLiteral(value)
      case DateKind => DateTargetLiteral(value)
      case DateTimeKind => DateTimeTargetLiteral(value)
      case Untyped =>
        if value.PyStr? then Quoted(value.s)
        else if value.PyInt? || value.PyFloat? || value.PyBool? then StrOf(value)
        else Quoted(StrOf(value))
  }

  /** BOOL: a Python bool keeps its value; any other value is read from its lower-cased str(). */
  function BoolLiteral(value: RawValue): string
  {
    if value.PyBool? then (if value.b then "true" else "false")
    else
      var word := Lower(StrOf(value));
      if word in TrueWords then "true" else if word in FalseWords then "false" else "NULL"
  }

  /** DATE: a date, a datetime, or the strptime of the text before the first space. */
  function DateTargetLiteral(value: RawValue): string
  {
    if value.PyDate? then DateLiteral(DateText(value.date))
    else if value.PyDateTime? then DateLiteral(IsoAuto(value.dt))
    else
      match StrptimeDate(Split(StrOf(value), ' ')[0])
      case Some(d) => DateLiteral(DateText(d))
      case None => "NULL"
  }

  /** DATETIME: a datetime, or the fromisoformat of the text with Z read as +00:00. */
  function DateTimeTargetLiteral(value: RawValue): string
  {
    if value.PyDateTime? then DateTimeLiteral(value.dt)
    else
      match ParseIsoDateTime(ReplaceChar(StrOf(value), 'Z', "+00:00"))
      case Some(dt) => DateTimeLiteral(dt)
      case None => "NULL"
  }

  // ---------------------------------------------------------------
  // Properties of the rendering
  // ---------------------------------------------------------------

  /** A quoted literal is closed by its last character only and reads back as the text. */
  lemma QuotedRoundTrip(s: string)
    ensures var q := Quoted(s);
      |q| >= 2 && q[0] == '"' && q[|q| - 1] == '"'
      && WellEscaped(q[1..|q| - 1]) && Unescape(q[1..|q| - 1]) == s
  {
    EscapeRoundTrip(s);
    var q := Quoted(s);
    assert q[1..|q| - 1] == Escape(s);
  }

  /** Under STRING every non-None value becomes a safe literal of its str(). */
  lemma StringTargetRoundTrip(value: RawValue, target: Option<string>, floatText: RawValue -> Option<string>)
    requires value != PyNone && Classify(target) == StringKind
    ensures var r := FormatNebulaValue(value, target, floatText);
      |r| >= 2 && r[0] == '"' && r[|r| - 1] == '"'
      && WellEscaped(r[1..|r| - 1]) && Unescape(r[1..|r| - 1]) == StrOf(value)
  {
    QuotedRoundTrip(StrOf(value));
  }

  lemma NullIsNotAnInteger()
    ensures ParseInt("NULL") == None
  {
    var t := "NULL";
    assert !IsBlank(t[0]) && !IsBlank(t[|t| - 1]) && !IsDigit(t[1]);
    ParseIntRejectsInner(t, 1);
  }

  /**
   * Under an INT type or TIMESTAMP the literal is NULL exactly when int()
   * refuses the value, and otherwise it reads back as int(value).
   */
  lemma IntegerTargetRoundTrip(value: RawValue, target: Option<string>, floatText: RawValue -> Option<string>)
    requires value != PyNone
    requires Classify(target) == IntegerKind || Classify(target) == TimestampKind
    ensures var r := FormatNebulaValue(value, target, floatText);
      (r == "NULL" <==> IntOf(value).None?) && (IntOf(value).Some? ==> ParseInt(r) == IntOf(value))
  {
    NullIsNotAnInteger();
    if IntOf(value).Some? {
      ParseIntOfIntToString(IntOf(value).value);
    }
  }

  /**
   * Under an INT type or TIMESTAMP a text with blanks around a number
   * renders as that number (`int(" 12 ")` is 12), and a float or a Decimal
   * renders as its truncation.
   */
  lemma IntegerTargetOfPaddedText(pre: string, t: string, post: string, target: Option<string>, floatText: RawValue -> Option<string>)
    requires forall i :: 0 <= i < |pre| ==> IsBlank(pre[i])
    requires forall i :: 0 <= i < |post| ==> IsBlank(post[i])
    requires |t| > 0 && !IsBlank(t[0]) && !IsBlank(t[|t| - 1])
    requires Classify(target) == IntegerKind || Classify(target) == TimestampKind
    ensures FormatNebulaValue(PyStr(pre + t + post), target, floatText) == FormatNebulaValue(PyStr(t), target, floatText)
    ensures forall text, i :: FormatNebulaValue(PyFloat(text, Some(i)), target, floatText) == IntToString(i)
    ensures forall text, i :: FormatNebulaValue(PyObject(text, Some(i)), target, floatText) == IntToString(i)
  {
    ParseIntIgnoresBlanks(pre, t, post);
    IntegerKindLiteral(PyStr(pre + t + post), target, floatText);
    IntegerKindLiteral(PyStr(t), target, floatText);
    forall text, i
      ensures FormatNebulaValue(PyFloat(text, Some(i)), target, floatText) == IntToString(i)
      ensures FormatNebulaValue(PyObject(text, Some(i)), target, floatText) == IntToString(i)
    {
      IntegerKindLiteral(PyFloat(text, Some(i)), target, floatText);
      IntegerKindLiteral(PyObject(text, Some(i)), target, floatText);
    }
  }

  /**
   * Under BOOL the literal is true, false or NULL; a Python bool keeps its
   * value, and any other value is read from its str() without regard to
   * letter case.
   */
  lemma BoolTargetWords(value: RawValue, target: Option<string>, floatText: RawValue -> Option<string>)
    requires value != PyNone && Classify(target) == BoolKind
    ensures var r := FormatNebulaValue(value, target, floatText);
      (r == "true" || r == "false" || r == "NULL")
      && (value.PyBool? ==> r == (if value.b then "true" else "false"))
      && (value.PyStr? ==> r == FormatNebulaValue(PyStr(Lower(value.s)), target, floatText))
  {
    if value.PyStr? {
      LowerIdempotent(value.s);
    }
  }

  /** The integers 1 and 0 read as true and false under BOOL. */
  lemma BoolTargetOfBits(target: Option<string>, floatText: RawValue -> Option<string>)
    requires Classify(target) == BoolKind
    ensures FormatNebulaValue(PyInt(1), target, floatText) == "true"
    ensures FormatNebulaValue(PyInt(0), target, floatText) == "false"
  {
    assert Lower(IntToString(1)) == "1";
    assert Lower(IntToString(0)) == "0";
  }

  /**
   * Under DATE the ISO text of a date, alone or followed by a space and
   * anything else (a time of day), gives the same literal as the date itself.
   */
  lemma DateTargetOfText(d: CalendarDate, rest: string, target: Option<string>, floatText: RawValue -> Option<string>)
    requires Classify(target) == DateKind
    requires rest == [] || rest[0] == ' '
    ensures FormatNebulaValue(PyStr(DateText(d) + rest), target, floatText) == DateLiteral(DateText(d))
    ensures FormatNebulaValue(PyDate(d), target, floatText) == DateLiteral(DateText(d))
  {
    DateTextHead(d, rest);
    StrptimeOfDateText(d);
    DateKindLiteral(PyStr(DateText(d) + rest), target, floatText);
    DateKindLiteral(PyDate(d), target, floatText);
  }

  /** The text before the first space of a date text followed by a space or nothing is the date text. */
  lemma DateTextHead(d: CalendarDate, rest: string)
    requires rest == [] || rest[0] == ' '
    ensures Split(DateText(d) + rest, ' ')[0] == DateText(d)
  {
    var text := DateText(d);
    assert ' ' !in text by {
      assert text == ZeroPad(d.year, 4) + "-" + ZeroPad(d.month, 2) + "-" + ZeroPad(d.day, 2);
      PadHasNoSpace(d.year, 4);
      PadHasNoSpace(d.month, 2);
      PadHasNoSpace(d.day, 2);
    }
    if rest == [] {
      SplitWithoutSeparator(text, ' ');
      assert text + rest == text;
    } else {
      assert text + rest == text + [' '] + rest[1..];
      SplitAfterHead(text, ' ', rest[1..]);
    }
  }

  lemma PadHasNoSpace(n: nat, width: nat)
    ensures ' ' !in ZeroPad(n, width)
  {
    ZeroPadDigits(n, width);
  }

  /**
   * Under DATE a datetime counts as a date (datetime is a subclass of
   * date), so its literal carries the whole date-time text and is not the
   * literal of its calendar date.
   */
  lemma DateTargetOfDateTime(dt: Moment, target: Option<string>, floatText: RawValue -> Option<string>)
    requires Classify(target) == DateKind
    ensures FormatNebulaValue(PyDateTime(dt), target, floatText) == DateLiteral(IsoAuto(dt))
    ensures FormatNebulaValue(PyDateTime(dt), target, floatText) != DateLiteral(DateText(dt.date))
  {
    DateTextShape(dt.date);
    TimeTextShape(dt.time, dt.time.microsecond != 0);
    assert |IsoAuto(dt)| > |DateText(dt.date)|;
    assert |DateLiteral(IsoAuto(dt))| > |DateLiteral(DateText(dt.date))|;
  }

  /**
   * Under DATETIME the literal of a datetime always carries a UTC offset,
   * and its text reads back through fromisoformat as the value, with UTC
   * assumed for a naive one.
   */
  lemma DateTimeTargetIsAware(dt: Moment, target: Option<string>, floatText: RawValue -> Option<string>)
    requires Classify(target) == DateTimeKind
    ensures FormatNebulaValue(PyDateTime(dt), target, floatText) == "datetime(\"" + IsoMicro(AssumeUtc(dt)) + "\")"
    ensures var u: DateTime := AssumeUtc(dt); ParseIsoDateTime(IsoMicro(u)) == Some(u) && u.offset.Some?
  {
    IsoMicroRoundTrip(AssumeUtc(dt));
  }

  /**
   * Under DATETIME the isoformat() text and the str() text of a datetime
   * give the same literal as the datetime itself.
   */
  lemma DateTimeTargetOfText(dt: Moment, target: Option<string>, floatText: RawValue -> Option<string>)
    requires Classify(target) == DateTimeKind
    ensures FormatNebulaValue(PyStr(IsoMicro(dt)), target, floatText) == FormatNebulaValue(PyDateTime(dt), target, floatText)
    ensures FormatNebulaValue(PyStr(DateTimeStr(dt)), target, floatText) == FormatNebulaValue(PyDateTime(dt), target, floatText)
  {
    IsoFormatHasNoZ(dt, 'T', true);
    IsoMicroRoundTrip(dt);
    DateTimeTextReadsBack(IsoMicro(dt), dt, target, floatText);
    IsoFormatHasNoZ(dt, ' ', dt.time.microsecond != 0);
    DateTimeStrRoundTrip(dt);
    DateTimeTextReadsBack(DateTimeStr(dt), dt, target, floatText);
  }

  /** Under DATETIME a Z-free text that reads as a datetime gives that datetime's literal. */
  lemma DateTimeTextReadsBack(text: string, dt: Moment, target: Option<string>, floatText: RawValue -> Option<string>)
    requires Classify(target) == DateTimeKind
    requires 'Z' !in text && ParseIsoDateTime(text).Some? && ParseIsoDateTime(text).value == dt
    ensures FormatNebulaValue(PyStr(text), target, floatText) == FormatNebulaValue(PyDateTime(dt), target, floatText)
  {
    ReplaceCharAbsent(text, 'Z', "+00:00");
    DateTimeTargetOfParsed(text, target, floatText);
  }

  /** Under DATETIME a text that reads as a datetime gives that datetime's literal. */
  lemma DateTimeTargetOfParsed(text: string, target: Option<string>, floatText: RawValue -> Option<string>)
    requires Classify(target) == DateTimeKind
    requires ParseIsoDateTime(ReplaceChar(text, 'Z', "+00:00")).Some?
    ensures FormatNebulaValue(PyStr(text), target, floatText)
      == DateTimeLiteral(ParseIsoDateTime(ReplaceChar(text, 'Z', "+00:00")).value)
  {
    DateTimeKindLiteral(PyStr(text), target, floatText);
  }

  lemma IntegerKindLiteral(value: RawValue, target: Option<string>, floatText: RawValue -> Option<string>)
    requires value != PyNone && (Classify(target) == IntegerKind || Classify(target) == TimestampKind)
    ensures FormatNebulaValue(value, target, floatText) == IntegerLiteral(value)
  {
  }

  lemma DateKindLiteral(value: RawValue, target: Option<string>, floatText: RawValue -> Option<string>)
    requires value != PyNone && Classify(target) == DateKind
    ensures FormatNebulaValue(value, target, floatText) == DateTargetLiteral(value)
  {
  }

  lemma DateTimeKindLiteral(value: RawValue, target: Option<string>, floatText: RawValue -> Option<string>)
    requires value != PyNone && Classify(target) == DateTimeKind
    ensures FormatNebulaValue(value, target, floatText) == DateTimeTargetLiteral(value)
  {
  }

  lemma UtcOffsetText()
    ensures OffsetText(Some(0)) == "+00:00"
  {
    assert NatToString(0) == "0";
    assert ZeroPad(0, 2) == "00";
  }

  lemma ZuluReplaced(s: string)
    requires 'Z' !in s
    ensures ReplaceChar(s + "Z", 'Z', "+00:00") == s + "+00:00"
  {
    ReplaceCharAbsent(s, 'Z', "+00:00");
    ReplaceCharAppend(s, "Z", 'Z', "+00:00");
    assert ReplaceChar("Z", 'Z', "+00:00") == "+00:00" + ReplaceChar("", 'Z', "+00:00");
  }

  /** A trailing Z on a naive ISO text is read as the UTC offset. */
  lemma DateTimeTargetOfZulu(dt: Moment, target: Option<string>, floatText: RawValue -> Option<string>)
    requires Classify(target) == DateTimeKind && dt.offset.None?
    ensures FormatNebulaValue(PyStr(IsoMicro(dt) + "Z"), target, floatText) == FormatNebulaValue(PyDateTime(dt), target, floatText)
  {
    var utc: Moment := dt.(offset := Some(0));
    var text := IsoMicro(dt);
    IsoFormatHasNoZ(dt, 'T', true);
    ZuluReplaced(text);
    UtcIsoMicro(dt);
    IsoMicroRoundTrip(utc);
    DateTimeTargetOfParsed(text + "Z", target, floatText);
    assert AssumeUtc(utc) == utc == AssumeUtc(dt);
  }

  lemma UtcIsoMicro(dt: Moment)
    requires dt.Valid() && dt.offset.None?
    ensures IsoMicro(dt.(offset := Some(0))) == IsoMicro(dt) + "+00:00"
  {
    UtcOffsetText();
    assert OffsetText(dt.offset) == "";
  }

  /** Under DATETIME a date is midnight UTC of that day. */
  lemma DateTimeTargetOfDate(d: CalendarDate, target: Option<string>, floatText: RawValue -> Option<string>)
    requires Classify(target) == DateTimeKind
    ensures FormatNebulaValue(PyDate(d), target, floatText) == DateTimeLiteral(DateTime(d, Midnight, Some(0)))
  {
    DateTextHasNoZ(d);
    ReplaceCharAbsent(DateText(d), 'Z', "+00:00");
    ParseIsoOfDateText(d);
  }

  lemma DateTextHasNoZ(d: CalendarDate)
    requires d.Valid()
    ensures 'Z' !in DateText(d)
  {
    PadHasNoZ(d.year, 4);
    PadHasNoZ(d.month, 2);
    PadHasNoZ(d.day, 2);
  }

  /**
   * Without a handled type name the rendering is the STRING rendering,
   * except that ints, floats and bools are written bare, as Python prints them.
   */
  lemma UntypedIsStringExceptNumbers(value: RawValue, target: Option<string>, floatText: RawValue -> Option<string>)
    requires value != PyNone && Classify(target) == Untyped
    ensures !value.PyInt? && !value.PyFloat? && !value.PyBool? ==>
      FormatNebulaValue(value, target, floatText) == FormatNebulaValue(value, Some("STRING"), floatText)
    ensures value.PyBool? ==> FormatNebulaValue(value, target, floatText) == (if value.b then "True" else "False")
    ensures value.PyInt? ==> FormatNebulaValue(value, target, floatText) == IntToString(value.i)
    ensures value.PyFloat? ==> FormatNebulaValue(value, target, floatText) == value.text
  {
  }
}
