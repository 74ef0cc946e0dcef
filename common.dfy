/**
 * Shared value types and text helpers used across the model: an optional
 * value, decimal rendering and parsing of integers (Python's str(int) and
 * int(str) on the accepted subset), ASCII lower-casing, prefix/substring
 * tests, split/join with the Python and JavaScript semantics for a single
 * separator character, and the backslash escaping used for quoted nGQL
 * string literals.
 */
module Common {

  datatype Option<T> = None | Some(value: T)
  {
    function GetOr(default: T): T
    {
      if Some? then value else default
    }
  }

  // ---------------------------------------------------------------
  // Decimal digits
  // ---------------------------------------------------------------

  predicate IsDigit(c: char)
  {
    '0' <= c <= '9'
  }

  predicate AllDigits(s: string)
  {
    forall i :: 0 <= i < |s| ==> IsDigit(s[i])
  }

  function DigitChar(d: nat): char
    requires d < 10
  {
    (48 + d) as char
  }

  function DigitValue(c: char): nat
    requires IsDigit(c)
  {
    (c as int) - 48
  }

  /** Value of a string of decimal digits, most significant digit first. */
  function DigitsValue(s: string): nat
    requires AllDigits(s)
  {
    if s == [] then 0 else DigitsValue(s[..|s| - 1]) * 10 + DigitValue(s[|s| - 1])
  }

  function Pow10(k: nat): nat
  {
    if k == 0 then 1 else 10 * Pow10(k - 1)
  }

  /** Python's str() of a non-negative int: its shortest decimal form. */
  function NatToString(n: nat): (s: string)
    ensures 1 <= |s| && AllDigits(s)
  {
    if n < 10 then [DigitChar(n)] else NatToString(n / 10) + [DigitChar(n % 10)]
  }

  /** Python's str() of an int. */
  function IntToString(i: int): string
  {
    if i < 0 then "-" + NatToString(-i) else NatToString(i)
  }

  /** The decimal form of an int holds only digits and the minus sign. */
  lemma NumberOmits(i: int, c: char)
    requires !IsDigit(c) && c != '-'
    ensures c !in IntToString(i)
  {
    var s := IntToString(i);
    if i < 0 {
      assert s == "-" + NatToString(-i);
      assert forall k :: 1 <= k < |s| ==> s[k] == NatToString(-i)[k - 1];
    }
  }

  lemma {:induction false} DigitsValueOfNatToString(n: nat)
    ensures DigitsValue(NatToString(n)) == n
  {
    if n >= 10 {
      var s := NatToString(n);
      assert s[..|s| - 1] == NatToString(n / 10);
      DigitsValueOfNatToString(n / 10);
    }
  }

  lemma {:induction false} NatToStringLength(n: nat, k: nat)
    requires 1 <= k && n < Pow10(k)
    ensures |NatToString(n)| <= k
  {
    if n >= 10 {
      assert k != 1 by {
        assert Pow10(1) == 10;
      }
      NatToStringLength(n / 10, k - 1);
    }
  }

  lemma {:induction false} DigitsValueLeadingZeros(z: nat, s: string)
    requires AllDigits(s)
    ensures AllDigits(Zeros(z) + s)
    ensures DigitsValue(Zeros(z) + s) == DigitsValue(s)
  {
    if z > 0 {
      var u := Zeros(z - 1) + s;
      assert Zeros(z) == "0" + Zeros(z - 1);
      assert Zeros(z) + s == "0" + u;
      DigitsValueLeadingZeros(z - 1, s);
      DigitsValueZeroHead(u);
    } else {
      assert Zeros(z) + s == s;
    }
  }

  lemma {:induction false} DigitsValueZeroHead(s: string)
    requires AllDigits(s)
    ensures AllDigits("0" + s)
    ensures DigitsValue("0" + s) == DigitsValue(s)
  {
    if s != [] {
      var t := "0" + s;
      assert t[..|t| - 1] == "0" + s[..|s| - 1];
      DigitsValueZeroHead(s[..|s| - 1]);
    }
  }

  function Zeros(z: nat): (s: string)
    ensures |s| == z && AllDigits(s)
  {
    if z == 0 then "" else "0" + Zeros(z - 1)
  }

  /**
   * Zero-padded decimal of n in at least `width` characters, as Python's
   * "%0<width>d" and "{:0<width>d}" render a non-negative int.
   */
  function ZeroPad(n: nat, width: nat): string
  {
    var s := NatToString(n);
    if |s| >= width then s else Zeros(width - |s|) + s
  }

  /** A value below 10^width is rendered in exactly `width` digits that read back as the value. */
  lemma ZeroPadExact(n: nat, width: nat)
    requires 1 <= width && n < Pow10(width)
    ensures |ZeroPad(n, width)| == width
    ensures AllDigits(ZeroPad(n, width))
    ensures DigitsValue(ZeroPad(n, width)) == n
  {
    NatToStringLength(n, width);
    DigitsValueOfNatToString(n);
    ZeroPadValue(n, width);
  }

  /** Padding keeps the digits' value, and the text is at least `width` long. */
  lemma ZeroPadValue(n: nat, width: nat)
    ensures |ZeroPad(n, width)| == if |NatToString(n)| < width then width else |NatToString(n)|
    ensures AllDigits(ZeroPad(n, width))
    ensures DigitsValue(ZeroPad(n, width)) == DigitsValue(NatToString(n))
  {
    var s := NatToString(n);
    if |s| < width {
      DigitsValueLeadingZeros(width - |s|, s);
    }
  }

  lemma ZeroPadDigits(n: nat, width: nat)
    ensures AllDigits(ZeroPad(n, width))
  {
    var s := NatToString(n);
    if |s| < width {
      var p := Zeros(width - |s|) + s;
      assert forall i :: 0 <= i < |p| ==> IsDigit(p[i]) by {
        forall i | 0 <= i < |p| ensures IsDigit(p[i]) {
          if i < width - |s| {
            assert p[i] == Zeros(width - |s|)[i];
          } else {
            assert p[i] == s[i - (width - |s|)];
          }
        }
      }
    }
  }

  /** Python's "%0<width>d" for any int: the sign counts towards the width. */
  function SignedZeroPad(i: int, width: nat): string
  {
    if i < 0 then "-" + ZeroPad(-i, if width > 0 then width - 1 else 0) else ZeroPad(i, width)
  }

  /** The ASCII characters Python's str.strip() and int() treat as blanks. */
  predicate IsBlank(c: char)
  {
    c == ' ' || c == '\t' || c == '\n' || c == '\r' || c == '\U{000B}' || c == '\U{000C}'
  }

  /** The text without its leading blanks. */
  function StripLeading(s: string): (r: string)
    ensures |r| <= |s| && r == s[|s| - |r|..]
    ensures |r| > 0 ==> !IsBlank(r[0])
    ensures forall i :: 0 <= i < |s| - |r| ==> IsBlank(s[i])
    decreases |s|
  {
    if |s| > 0 && IsBlank(s[0]) then StripLeading(s[1..]) else s
  }

  /** The text without its trailing blanks. */
  function StripTrailing(s: string): (r: string)
    ensures |r| <= |s| && r == s[..|r|]
    ensures |r| > 0 ==> !IsBlank(r[|r| - 1])
    ensures forall i :: |r| <= i < |s| ==> IsBlank(s[i])
    decreases |s|
  {
    if |s| > 0 && IsBlank(s[|s| - 1]) then StripTrailing(s[..|s| - 1]) else s
  }

  /** str.strip() on ASCII blanks. */
  function Strip(s: string): string
  {
    StripTrailing(StripLeading(s))
  }

  /** An optional '+' or '-' followed by one or more ASCII digits. */
  function ParseSignedDigits(t: string): (r: Option<int>)
    ensures r.Some? <==>
      (|t| > 0 && AllDigits(t)) || (|t| > 1 && (t[0] == '-' || t[0] == '+') && AllDigits(t[1..]))
  {
    if |t| > 1 && (t[0] == '-' || t[0] == '+') && AllDigits(t[1..]) then
      var magnitude: int := DigitsValue(t[1..]);
      Some(if t[0] == '-' then -magnitude else magnitude)
    else if |t| > 0 && AllDigits(t) then
      Some(DigitsValue(t))
    else
      None
  }

  /**
   * Python's int() applied to a str, on the subset modelled here: blanks
   * around an optional '+' or '-' followed by one or more ASCII digits.
   */
  function ParseInt(s: string): (r: Option<int>)
    ensures var t := Strip(s);
      r.Some? <==> (|t| > 0 && AllDigits(t)) || (|t| > 1 && (t[0] == '-' || t[0] == '+') && AllDigits(t[1..]))
    ensures (forall i :: 0 <= i < |s| ==> IsBlank(s[i])) ==> r.None?
  {
    ParseSignedDigits(Strip(s))
  }

  lemma StripLeadingOfPadded(pre: string, t: string)
    requires forall i :: 0 <= i < |pre| ==> IsBlank(pre[i])
    requires |t| > 0 && !IsBlank(t[0])
    ensures StripLeading(pre + t) == t
    decreases |pre|
  {
    if |pre| > 0 {
      assert (pre + t)[1..] == pre[1..] + t;
      StripLeadingOfPadded(pre[1..], t);
    } else {
      assert pre + t == t;
    }
  }

  lemma StripTrailingOfPadded(t: string, post: string)
    requires forall i :: 0 <= i < |post| ==> IsBlank(post[i])
    requires |t| > 0 && !IsBlank(t[|t| - 1])
    ensures StripTrailing(t + post) == t
    decreases |post|
  {
    if |post| > 0 {
      assert (t + post)[..|t + post| - 1] == t + post[..|post| - 1];
      StripTrailingOfPadded(t, post[..|post| - 1]);
    } else {
      assert t + post == t;
    }
  }

  /** A text with no blank at either end is read as it stands. */
  lemma ParseIntOfTrimmed(t: string)
    requires |t| > 0 && !IsBlank(t[0]) && !IsBlank(t[|t| - 1])
    ensures Strip(t) == t
    ensures ParseInt(t) == ParseSignedDigits(t)
  {
    StripLeadingOfPadded("", t);
    assert "" + t == t;
    StripTrailingOfPadded(t, "");
    assert t + "" == t;
  }

  /** A text with no blank at either end and a non-digit after its first character is refused. */
  lemma ParseIntRejectsInner(t: string, k: int)
    requires |t| > 0 && !IsBlank(t[0]) && !IsBlank(t[|t| - 1])
    requires 0 < k < |t| && !IsDigit(t[k])
    ensures ParseInt(t) == None
  {
    ParseIntOfTrimmed(t);
    assert t[1..][k - 1] == t[k];
  }

  /** int() ignores the blanks around a number: `int(" 12 ")` is 12. */
  lemma {:induction false} ParseIntIgnoresBlanks(pre: string, t: string, post: string)
    requires forall i :: 0 <= i < |pre| ==> IsBlank(pre[i])
    requires forall i :: 0 <= i < |post| ==> IsBlank(post[i])
    requires |t| > 0 && !IsBlank(t[0]) && !IsBlank(t[|t| - 1])
    ensures ParseInt(pre + t + post) == ParseInt(t)
  {
    assert pre + t + post == pre + (t + post);
    StripLeadingOfPadded(pre, t + post);
    StripTrailingOfPadded(t, post);
    StripLeadingOfPadded("", t);
    StripTrailingOfPadded(t, "");
    assert t + "" == t;
  }

  /** Rendering an int and reading it back gives the int again. */
  lemma ParseIntOfIntToString(i: int)
    ensures ParseInt(IntToString(i)) == Some(i)
  {
    var s := IntToString(i);
    if i < 0 {
      var d := NatToString(-i);
      assert s == "-" + d;
      assert s[0] == '-' && s[1..] == d;
      DigitsValueOfNatToString(-i);
      assert ParseSignedDigits(s) == Some(i);
    } else {
      DigitsValueOfNatToString(i);
      assert ParseSignedDigits(s) == Some(i);
    }
    assert !IsBlank(s[0]) && !IsBlank(s[|s| - 1]);
    ParseIntOfTrimmed(s);
  }

  // ---------------------------------------------------------------
  // Case and searching
  // ---------------------------------------------------------------

  /** str.lower() / String.prototype.toLowerCase() on ASCII letters. */
  function LowerChar(c: char): char
  {
    if 'A' <= c <= 'Z' then (c as int + 32) as char else c
  }

  function Lower(s: string): string
  {
    if s == [] then "" else [LowerChar(s[0])] + Lower(s[1..])
  }

  /** Lower-casing twice is lower-casing once. */
  lemma {:induction false} LowerIdempotent(s: string)
    ensures Lower(Lower(s)) == Lower(s)
  {
    if s != [] {
      LowerIdempotent(s[1..]);
      assert Lower(s)[1..] == Lower(s[1..]);
    }
  }

  predicate StartsWith(s: string, prefix: string)
  {
    |prefix| <= |s| && s[..|prefix|] == prefix
  }

  /** `sub in s` (Python) or s.includes(sub) (JavaScript). */
  predicate Contains(s: string, sub: string)
    decreases |s|
  {
    StartsWith(s, sub) || (|s| > 0 && Contains(s[1..], sub))
  }

  /** Every string is found inside any string that extends it on both sides. */
  lemma {:induction false} ContainsInfix(a: string, sub: string, b: string)
    ensures Contains(a + sub + b, sub)
    decreases |a|
  {
    if a == [] {
      assert (a + sub + b)[..|sub|] == sub;
    } else {
      assert (a + sub + b)[1..] == a[1..] + sub + b;
      ContainsInfix(a[1..], sub, b);
    }
  }

  // ---------------------------------------------------------------
  // Split and join
  // ---------------------------------------------------------------

  /** `sep.join(parts)` / `parts.join(sep)`. */
  function Join(parts: seq<string>, sep: string): string
  {
    if |parts| == 0 then ""
    else if |parts| == 1 then parts[0]
    else parts[0] + sep + Join(parts[1..], sep)
  }

  /**
   * `s.split(c)` for a single separator character, in Python and JavaScript
   * alike: it always yields at least one piece, and no piece holds c.
   */
  function Split(s: string, c: char): (parts: seq<string>)
    ensures |parts| >= 1
    ensures forall k :: 0 <= k < |parts| ==> c !in parts[k]
  {
    if |s| == 0 then [""]
    else
      var rest := Split(s[1..], c);
      if s[0] == c then [""] + rest
      else [[s[0]] + rest[0]] + rest[1..]
  }

  /** Splitting and joining back with the same separator restores the text. */
  lemma {:induction false} JoinSplit(s: string, c: char)
    ensures Join(Split(s, c), [c]) == s
  {
    if |s| > 0 {
      var rest := Split(s[1..], c);
      JoinSplit(s[1..], c);
      if s[0] == c {
        assert Split(s, c) == [""] + rest;
        assert ([""] + rest)[1..] == rest;
      } else {
        var parts := [[s[0]] + rest[0]] + rest[1..];
        assert Split(s, c) == parts;
        if |rest| == 1 {
          assert Join(parts, [c]) == [s[0]] + rest[0];
        } else {
          assert parts[1..] == rest[1..];
          assert Join(rest, [c]) == rest[0] + [c] + Join(rest[1..], [c]);
        }
      }
    }
  }

  /** Text without the separator is one piece. */
  lemma {:induction false} SplitWithoutSeparator(s: string, c: char)
    requires c !in s
    ensures Split(s, c) == [s]
  {
    if |s| > 0 {
      SplitWithoutSeparator(s[1..], c);
      assert s[0] != c;
      assert [s[0]] + s[1..] == s;
    }
  }

  /** A separator after a separator-free head splits the head off as the first piece. */
  lemma {:induction false} SplitAfterHead(a: string, c: char, b: string)
    requires c !in a
    ensures Split(a + [c] + b, c) == [a] + Split(b, c)
  {
    if |a| > 0 {
      assert (a + [c] + b)[1..] == a[1..] + [c] + b;
      SplitAfterHead(a[1..], c, b);
      assert [a[0]] + a[1..] == a;
    } else {
      assert (a + [c] + b)[1..] == b;
    }
  }

  /** Text holding the separator splits into at least two pieces. */
  lemma {:induction false} SplitOfSeparator(s: string, c: char)
    requires c in s
    ensures |Split(s, c)| >= 2
  {
    if s[0] != c {
      assert c in s[1..] by {
        var k :| 0 <= k < |s| && s[k] == c;
        assert s[1..][k - 1] == c;
      }
      SplitOfSeparator(s[1..], c);
    }
  }

  /** A separator-free head stays at the front of the first piece. */
  lemma {:induction false} SplitHeadAppend(a: string, b: string, c: char)
    requires c !in a
    ensures Split(a + b, c)[0] == a + Split(b, c)[0]
  {
    if |a| > 0 {
      assert (a + b)[1..] == a[1..] + b;
      SplitHeadAppend(a[1..], b, c);
      assert [a[0]] + a[1..] == a;
    } else {
      assert a + b == b;
    }
  }

  /** Splitting a join of separator-free pieces gives the pieces back. */
  lemma {:induction false} SplitJoin(parts: seq<string>, c: char)
    requires |parts| > 0
    requires forall k :: 0 <= k < |parts| ==> c !in parts[k]
    ensures Split(Join(parts, [c]), c) == parts
    decreases |parts|
  {
    if |parts| == 1 {
      SplitWithoutSeparator(parts[0], c);
    } else {
      SplitJoin(parts[1..], c);
      SplitAfterHead(parts[0], c, Join(parts[1..], [c]));
      assert parts == [parts[0]] + parts[1..];
    }
  }

  // ---------------------------------------------------------------
  // Replacing and escaping
  // ---------------------------------------------------------------

  /** `s.replace(c, t)` for a single character c: every occurrence is replaced. */
  function ReplaceChar(s: string, c: char, t: string): string
  {
    if |s| == 0 then ""
    else (if s[0] == c then t else [s[0]]) + ReplaceChar(s[1..], c, t)
  }

  lemma {:induction false} ReplaceCharAbsent(s: string, c: char, t: string)
    requires c !in s
    ensures ReplaceChar(s, c, t) == s
  {
    if |s| > 0 {
      ReplaceCharAbsent(s[1..], c, t);
    }
  }

  /**
   * The escaping applied before a value is put inside double quotes in an
   * nGQL statement: first every backslash is doubled, then every double
   * quote gets a backslash in front of it.
   */
  function Escape(s: string): string
  {
    ReplaceChar(ReplaceChar(s, '\\', "\\\\"), '"', "\\\"")
  }

  /** Escape, one character at a time. */
  function EscapeEach(s: string): string
  {
    if |s| == 0 then ""
    else (if s[0] == '\\' then "\\\\" else if s[0] == '"' then "\\\"" else [s[0]]) + EscapeEach(s[1..])
  }

  lemma {:induction false} ReplaceCharAppend(a: string, b: string, c: char, t: string)
    ensures ReplaceChar(a + b, c, t) == ReplaceChar(a, c, t) + ReplaceChar(b, c, t)
  {
    if |a| > 0 {
      assert (a + b)[1..] == a[1..] + b;
      ReplaceCharAppend(a[1..], b, c, t);
    } else {
      assert a + b == b;
    }
  }

  lemma {:induction false} EscapeIsEscapeEach(s: string)
    ensures Escape(s) == EscapeEach(s)
  {
    if |s| > 0 {
      EscapeIsEscapeEach(s[1..]);
      var head := if s[0] == '\\' then "\\\\" else [s[0]];
      assert ReplaceChar(s, '\\', "\\\\") == head + ReplaceChar(s[1..], '\\', "\\\\");
      ReplaceCharAppend(head, ReplaceChar(s[1..], '\\', "\\\\"), '"', "\\\"");
      if s[0] == '\\' {
        assert ReplaceChar(head, '"', "\\\"") == "\\\\";
      } else if s[0] == '"' {
        assert ReplaceChar(head, '"', "\\\"") == "\\\"";
      } else {
        assert ReplaceChar(head, '"', "\\\"") == [s[0]];
      }
    }
  }

  /** Reads a backslash-escaped text back: a backslash takes the next character literally. */
  function Unescape(t: string): string
  {
    if |t| == 0 then ""
    else if t[0] == '\\' && |t| >= 2 then [t[1]] + Unescape(t[2..])
    else [t[0]] + Unescape(t[1..])
  }

  /**
   * The escaped body of a literal: no bare double quote, and every
   * backslash starts a two-character escape of a backslash or a quote, so
   * the literal cannot be closed early.
   */
  predicate WellEscaped(t: string)
  {
    if |t| == 0 then true
    else if t[0] == '\\' then |t| >= 2 && (t[1] == '\\' || t[1] == '"') && WellEscaped(t[2..])
    else t[0] != '"' && WellEscaped(t[1..])
  }

  /** Escaping is undone by Unescape, and it never leaves a bare quote behind. */
  lemma {:induction false} EscapeRoundTrip(s: string)
    ensures Unescape(Escape(s)) == s
    ensures WellEscaped(Escape(s))
  {
    EscapeIsEscapeEach(s);
    EscapeEachRoundTrip(s);
  }

  lemma {:induction false} EscapeEachRoundTrip(s: string)
    ensures Unescape(EscapeEach(s)) == s
    ensures WellEscaped(EscapeEach(s))
  {
    if |s| > 0 {
      EscapeEachRoundTrip(s[1..]);
      var e := EscapeEach(s);
      if s[0] == '\\' || s[0] == '"' {
        assert e[2..] == EscapeEach(s[1..]);
      } else {
        assert e[1..] == EscapeEach(s[1..]);
      }
    }
  }

  /** Text with neither a backslash nor a double quote is left as it is. */
  lemma {:induction false} EscapePlain(s: string)
    requires '\\' !in s && '"' !in s
    ensures Escape(s) == s
  {
    ReplaceCharAbsent(s, '\\', "\\\\");
    ReplaceCharAbsent(s, '"', "\\\"");
  }
}
