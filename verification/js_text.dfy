/**
 * The JavaScript string operations the reset-token format relies on:
 * `split` on a one-character separator, `parseInt(s, 10)`, and the decimal
 * rendering of a non-negative integer in a template literal.
 */
module JsText {
  import opened Wrappers

  predicate IsDigit(c: char)
  {
    '0' <= c <= '9'
  }

  predicate AllDigits(s: string)
  {
    forall i :: 0 <= i < |s| ==> IsDigit(s[i])
  }

  /** ECMAScript's StrWhiteSpaceChar: WhiteSpace and LineTerminator code points. */
  predicate IsJsSpace(c: char)
  {
    c == '\t' || c == '\n' || c == '\U{000B}' || c == '\U{000C}' || c == '\r' || c == ' '
    || c == '\U{00A0}' || c == '\U{1680}' || ('\U{2000}' <= c <= '\U{200A}')
    || c == '\U{2028}' || c == '\U{2029}' || c == '\U{202F}' || c == '\U{205F}'
    || c == '\U{3000}' || c == '\U{FEFF}'
  }

  /** `s.split(sep)`: the pieces between occurrences of `sep`, always at least one. */
  function Split(s: string, sep: char): (parts: seq<string>)
    ensures |parts| >= 1
    ensures forall i :: 0 <= i < |parts| ==> sep !in parts[i]
  {
    if s == [] then [""]
    else
      var rest := Split(s[1..], sep);
      if s[0] == sep then [""] + rest
      else [[s[0]] + rest[0]] + rest[1..]
  }

  /** `parts.join(sep)`. */
  function Join(parts: seq<string>, sep: string): string
  {
    if parts == [] then ""
    else if |parts| == 1 then parts[0]
    else parts[0] + sep + Join(parts[1..], sep)
  }

  /** Splitting loses nothing: joining the pieces back gives the original string. */
  lemma {:induction false} JoinSplit(s: string, sep: char)
    ensures Join(Split(s, sep), [sep]) == s
  {
    if s != [] {
      var rest := Split(s[1..], sep);
      JoinSplit(s[1..], sep);
      if s[0] == sep {
        assert Split(s, sep)[1..] == rest;
      } else {
        var parts := Split(s, sep);
        if |rest| == 1 {
          assert parts == [[s[0]] + rest[0]];
        } else {
          assert parts[1..] == rest[1..];
          assert Join(rest, [sep]) == rest[0] + [sep] + Join(rest[1..], [sep]);
        }
      }
    }
  }

  /** A piece free of the separator, then the separator, splits off as the first piece. */
  lemma {:induction false} SplitAtFirst(a: string, sep: char, b: string)
    requires sep !in a
    ensures Split(a + [sep] + b, sep) == [a] + Split(b, sep)
  {
    if a == [] {
      assert a + [sep] + b == [sep] + b;
      assert ([sep] + b)[1..] == b;
    } else {
      var s := a + [sep] + b;
      assert s[0] == a[0] && s[1..] == a[1..] + [sep] + b;
      SplitAtFirst(a[1..], sep, b);
      assert [a[0]] + a[1..] == a;
    }
  }

  /** A string without the separator is a single piece. */
  lemma {:induction false} SplitNoSeparator(s: string, sep: char)
    requires sep !in s
    ensures Split(s, sep) == [s]
  {
    if s != [] {
      SplitNoSeparator(s[1..], sep);
      assert [s[0]] + s[1..] == s;
    }
  }

  /**
   * Joining pieces that do not contain the separator, then splitting, gives
   * the pieces back.
   */
  lemma {:induction false} SplitJoin(parts: seq<string>, sep: char)
    requires |parts| >= 1
    requires forall i :: 0 <= i < |parts| ==> sep !in parts[i]
    ensures Split(Join(parts, [sep]), sep) == parts
  {
    if |parts| == 1 {
      SplitNoSeparator(parts[0], sep);
    } else {
      SplitJoin(parts[1..], sep);
      SplitAtFirst(parts[0], sep, Join(parts[1..], [sep]));
      assert parts == [parts[0]] + parts[1..];
    }
  }

  /** There is a second piece exactly when the separator occurs. */
  lemma {:induction false} SplitHasSecond(s: string, sep: char)
    ensures |Split(s, sep)| >= 2 <==> sep in s
  {
    if s != [] {
      SplitHasSecond(s[1..], sep);
      if s[0] != sep {
        assert sep in s <==> sep in s[1..];
      }
    }
  }

  /** Leading whitespace skipped. */
  function TrimStart(s: string): (r: string)
    ensures |r| <= |s| && r == s[|s| - |r|..]
    ensures r == [] || !IsJsSpace(r[0])
    ensures forall i :: 0 <= i < |s| - |r| ==> IsJsSpace(s[i])
  {
    if s != [] && IsJsSpace(s[0]) then TrimStart(s[1..]) else s
  }

  /** The longest prefix made of decimal digits. */
  function DigitRun(s: string): (r: string)
    ensures |r| <= |s| && r == s[..|r|] && AllDigits(r)
    ensures |r| < |s| ==> !IsDigit(s[|r|])
  {
    if s != [] && IsDigit(s[0]) then [s[0]] + DigitRun(s[1..]) else ""
  }

  /** The value of a string of decimal digits, most significant first. */
  function DigitsValue(ds: string): nat
    requires AllDigits(ds)
  {
    if ds == [] then 0
    else DigitsValue(ds[..|ds| - 1]) * 10 + ((ds[|ds| - 1] as int) - ('0' as int))
  }

  /**
   * `parseInt(s, 10)`: skip leading whitespace, take an optional sign, then
   * the longest run of decimal digits; no digits gives NaN (`None`).
   */
  function ParseInt(s: string): (r: Option<int>)
    ensures r.None? <==> DigitRun(SignStripped(TrimStart(s))) == ""
  {
    var t := TrimStart(s);
    var digits := DigitRun(SignStripped(t));
    if digits == "" then None
    else if t[0] == '-' then Some(-(DigitsValue(digits) as int))
    else Some(DigitsValue(digits))
  }

  /** The text after a leading `+` or `-`, if any. */
  function SignStripped(t: string): (r: string)
    ensures r == t || (t != [] && (t[0] == '+' || t[0] == '-') && r == t[1..])
  {
    if t != [] && (t[0] == '+' || t[0] == '-') then t[1..] else t
  }

  /**
   * `${n}` for a non-negative integer: its decimal digits. JavaScript prints
   * this form below 10^21 only; larger values are not told apart here.
   */
  function DecimalString(n: nat): (s: string)
    ensures s != [] && AllDigits(s)
  {
    var d := [('0' as int + n % 10) as char];
    if n < 10 then d else DecimalString(n / 10) + d
  }

  /** Reading the digits back gives the number. */
  lemma {:induction false} DigitsValueOfDecimal(n: nat)
    ensures DigitsValue(DecimalString(n)) == n
  {
    var s := DecimalString(n);
    if n >= 10 {
      DigitsValueOfDecimal(n / 10);
      assert s[..|s| - 1] == DecimalString(n / 10);
    }
  }

  /** The digit run of a digit string followed by a non-digit is that digit string. */
  lemma {:induction false} DigitRunStopsAtNonDigit(ds: string, suffix: string)
    requires AllDigits(ds)
    requires suffix == [] || !IsDigit(suffix[0])
    ensures DigitRun(ds + suffix) == ds
  {
    if ds != [] {
      assert (ds + suffix)[0] == ds[0];
      assert (ds + suffix)[1..] == ds[1..] + suffix;
      DigitRunStopsAtNonDigit(ds[1..], suffix);
    } else {
      assert ds + suffix == suffix;
    }
  }

  /**
   * `parseInt` reads back what `${n}` wrote, and ignores whatever follows
   * the digits when that does not start with a digit ("123abc" is 123).
   */
  lemma ParseIntDecimal(n: nat, suffix: string)
    requires suffix == [] || !IsDigit(suffix[0])
    ensures ParseInt(DecimalString(n) + suffix) == Some(n)
  {
    var ds := DecimalString(n);
    var s := ds + suffix;
    assert s[0] == ds[0] && IsDigit(s[0]);
    DigitIsNotBlankNorSign(s[0]);
    assert TrimStart(s) == s;
    assert SignStripped(s) == s;
    DigitRunStopsAtNonDigit(ds, suffix);
    DigitsValueOfDecimal(n);
  }

  /** A digit is neither whitespace nor a sign. */
  lemma DigitIsNotBlankNorSign(c: char)
    requires IsDigit(c)
    ensures !IsJsSpace(c) && c != '+' && c != '-'
  {
  }

  /** A string whose first non-blank character (after an optional sign) is not a digit is NaN. */
  lemma ParseIntNaN(s: string)
    requires var t := SignStripped(TrimStart(s)); t == [] || !IsDigit(t[0])
    ensures ParseInt(s) == None
  {
  }

  /** "123abc" parses as 123. */
  lemma ParseIntDigitPrefix()
    ensures ParseInt("123abc") == Some(123)
  {
    assert DecimalString(123) == "123" by {
      assert DecimalString(1) == "1";
      assert DecimalString(12) == "12";
    }
    assert "123abc" == DecimalString(123) + "abc";
    ParseIntDecimal(123, "abc");
  }
}
