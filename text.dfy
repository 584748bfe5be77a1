/** The handful of Python string built-ins the bill computation relies on:
    `str.split` with a one-character separator, `str.replace` of one
    character, `int()` on decimal text, `str()` of an integer and `float()`
    on plain decimal text. */
module Text {
  import opened Outcomes

  // ---------------------------------------------------------------------
  // str.split(sep)
  // ---------------------------------------------------------------------

  /** `s.split(sep)`: every occurrence of `sep` cuts, empty pieces are kept,
      and the empty string splits into one empty piece. */
  function Split(s: string, sep: char): (parts: seq<string>)
    ensures |parts| >= 1
    ensures forall i :: 0 <= i < |parts| ==> sep !in parts[i]
    decreases |s|
  {
    if s == [] then [[]]
    else
      var rest := Split(s[1..], sep);
      if s[0] == sep then [[]] + rest
      else [[s[0]] + rest[0]] + rest[1..]
  }

  /** `sep.join(parts)`, the inverse of `Split`. */
  function Join(parts: seq<string>, sep: char): string
    requires |parts| >= 1
    decreases |parts|
  {
    if |parts| == 1 then parts[0] else parts[0] + [sep] + Join(parts[1..], sep)
  }

  /** Joining the pieces of a split gives back the original text. */
  lemma {:induction false} JoinSplit(s: string, sep: char)
    ensures Join(Split(s, sep), sep) == s
    decreases |s|
  {
    if s != [] {
      JoinSplit(s[1..], sep);
      var rest := Split(s[1..], sep);
      if s[0] != sep {
        if |rest| == 1 {
          assert Split(s, sep) == [[s[0]] + rest[0]];
        } else {
          assert Split(s, sep)[1..] == rest[1..];
        }
      } else {
        assert Split(s, sep)[1..] == rest;
      }
    }
  }

  /** Text without the separator splits into itself. */
  lemma {:induction false} SplitNoSep(a: string, sep: char)
    requires sep !in a
    ensures Split(a, sep) == [a]
    decreases |a|
  {
    if a != [] {
      SplitNoSep(a[1..], sep);
      assert [a[0]] + a[1..] == a;
    }
  }

  /** Cutting at the first separator: the piece before it comes first. */
  lemma {:induction false} SplitAt(a: string, b: string, sep: char)
    requires sep !in a
    ensures Split(a + [sep] + b, sep) == [a] + Split(b, sep)
    decreases |a|
  {
    var s := a + [sep] + b;
    if a == [] {
      assert s[1..] == b;
    } else {
      assert s[1..] == a[1..] + [sep] + b;
      SplitAt(a[1..], b, sep);
      assert [a[0]] + a[1..] == a;
    }
  }

  /** Splitting a join of separator-free pieces recovers the pieces. */
  lemma {:induction false} SplitJoin(parts: seq<string>, sep: char)
    requires |parts| >= 1
    requires forall i :: 0 <= i < |parts| ==> sep !in parts[i]
    ensures Split(Join(parts, sep), sep) == parts
    decreases |parts|
  {
    if |parts| == 1 {
      SplitNoSep(parts[0], sep);
    } else {
      SplitJoin(parts[1..], sep);
      SplitAt(parts[0], Join(parts[1..], sep), sep);
      assert [parts[0]] + parts[1..] == parts;
    }
  }

  /** The three pieces of `a SEP b SEP c`. */
  lemma Split3(a: string, b: string, c: string, sep: char)
    requires sep !in a && sep !in b && sep !in c
    ensures Split(a + [sep] + b + [sep] + c, sep) == [a, b, c]
  {
    SplitJoin([a, b, c], sep);
    assert Join([a, b, c], sep) == a + [sep] + b + [sep] + c by {
      assert Join([b, c], sep) == b + [sep] + c;
      assert [a, b, c][1..] == [b, c];
    }
  }

  // ---------------------------------------------------------------------
  // str.replace(old, new) for single characters
  // ---------------------------------------------------------------------

  /** `s.replace(from, to)` where both are one character: every `from` becomes
      `to`, nothing else moves, so no `from` is left and text without one is
      unchanged. */
  function Replace(s: string, from: char, to: char): (r: string)
    ensures |r| == |s|
    ensures forall i :: 0 <= i < |s| ==> r[i] == (if s[i] == from then to else s[i])
    ensures from != to ==> from !in r
    ensures from !in s ==> r == s
    decreases |s|
  {
    if s == [] then [] else [if s[0] == from then to else s[0]] + Replace(s[1..], from, to)
  }

  // ---------------------------------------------------------------------
  // Decimal digits, int() and str()
  // ---------------------------------------------------------------------

  predicate IsDigit(c: char) {
    '0' <= c <= '9'
  }

  predicate AllDigits(s: string) {
    forall i :: 0 <= i < |s| ==> IsDigit(s[i])
  }

  function DigitValue(c: char): (d: nat)
    requires IsDigit(c)
    ensures d < 10
  {
    (c as int) - ('0' as int)
  }

  function DigitChar(d: nat): (c: char)
    requires d < 10
    ensures IsDigit(c) && DigitValue(c) == d
  {
    (('0' as int) + d) as char
  }

  /** A string of digits holds no other character. */
  lemma DigitsExclude(s: string, c: char)
    requires AllDigits(s) && !IsDigit(c)
    ensures c !in s
  {
  }

  /** The value of a string of decimal digits, most significant first; the
      empty string is 0. */
  function DigitsValue(s: string): nat
    requires AllDigits(s)
  {
    if s == [] then 0 else DigitsValue(s[..|s| - 1]) * 10 + DigitValue(s[|s| - 1])
  }

  /** `str(n)` for a non-negative integer: shortest decimal text. */
  function NatToString(n: nat): (s: string)
    ensures |s| >= 1 && AllDigits(s)
    ensures s[0] == '0' ==> n == 0
  {
    if n < 10 then [DigitChar(n)] else NatToString(n / 10) + [DigitChar(n % 10)]
  }

  /** `str(i)` for any integer. */
  function IntToString(i: int): string {
    if i < 0 then "-" + NatToString(-i) else NatToString(i)
  }

  /** The digits of `str(n)` read back give `n`. */
  lemma {:induction false} NatToStringValue(n: nat)
    ensures DigitsValue(NatToString(n)) == n
  {
    if n >= 10 {
      NatToStringValue(n / 10);
      var s := NatToString(n);
      assert s[..|s| - 1] == NatToString(n / 10);
    }
  }

  /** Strips one leading sign character, as `int()` and `float()` accept it. */
  function Unsigned(s: string): string {
    if |s| > 0 && (s[0] == '-' || s[0] == '+') then s[1..] else s
  }

  predicate Negative(s: string) {
    |s| > 0 && s[0] == '-'
  }

  /** `int(s)`: an optional sign followed by at least one decimal digit;
      anything else raises ValueError. */
  function ParseInt(s: string): (r: Result<int>)
    ensures r.Ok? <==> |Unsigned(s)| > 0 && AllDigits(Unsigned(s))
    ensures r.Ok? && !Negative(s) ==> r.value >= 0
  {
    var body := Unsigned(s);
    if |body| == 0 || !AllDigits(body) then Err(NotANumber)
    else if Negative(s) then Ok(-(DigitsValue(body) as int))
    else Ok(DigitsValue(body))
  }

  /** `int(str(i)) == i`. */
  lemma ParseIntToString(i: int)
    ensures ParseInt(IntToString(i)) == Ok(i)
  {
    var n: nat := if i < 0 then -i else i;
    NatToStringValue(n);
    var s := NatToString(n);
    if i < 0 {
      assert IntToString(i)[1..] == s;
    } else {
      assert IsDigit(s[0]);
    }
  }

  /** `int(s)` of a run of decimal digits is their decimal value; leading
      zeros do not change it. */
  lemma ParseIntDigits(s: string)
    requires |s| > 0 && AllDigits(s)
    ensures ParseInt(s) == Ok(DigitsValue(s))
  {
    assert IsDigit(s[0]);
  }

  // ---------------------------------------------------------------------
  // float() on plain decimal text
  // ---------------------------------------------------------------------

  /** The value of the digits after a decimal point: the first one counts
      tenths, the next hundredths, and so on. */
  function FractionValue(frac: string): (r: real)
    requires AllDigits(frac)
    ensures 0.0 <= r < 1.0
  {
    if frac == [] then 0.0 else (DigitValue(frac[0]) as real + FractionValue(frac[1..])) / 10.0
  }

  /** The value of `whole.frac`, both strings of digits. */
  function DecimalValue(whole: string, frac: string): real
    requires AllDigits(whole) && AllDigits(frac)
  {
    DigitsValue(whole) as real + FractionValue(frac)
  }

  /** `float(s)` for text of the form `[sign] digits [. digits]` with at least
      one digit; anything else raises ValueError. */
  function ParseReal(s: string): (r: Result<real>)
    ensures r.Ok? && !Negative(s) ==> r.value >= 0.0
  {
    var parts := Split(Unsigned(s), '.');
    if |parts| > 2 then Err(NotANumber)
    else
      var whole := parts[0];
      var frac := if |parts| == 2 then parts[1] else "";
      if !AllDigits(whole) || !AllDigits(frac) || |whole| + |frac| == 0 then Err(NotANumber)
      else if Negative(s) then Ok(-DecimalValue(whole, frac))
      else Ok(DecimalValue(whole, frac))
  }

  /** The value `float()` gives to unsigned decimal text, negated after a
      minus sign. */
  function Signed(s: string, v: real): real {
    if Negative(s) then -v else v
  }

  /** `float()` succeeds only on an optional sign followed by digits, or by
      digits, one `.` and digits, with at least one digit in all. */
  lemma ParseRealShape(s: string)
    requires ParseReal(s).Ok?
    ensures var u := Unsigned(s);
            || (|u| > 0 && AllDigits(u))
            || exists k :: 0 <= k < |u| && u[k] == '.' && AllDigits(u[..k]) && AllDigits(u[k + 1..]) && |u| > 1
  {
    var u := Unsigned(s);
    var parts := Split(u, '.');
    JoinSplit(u, '.');
    if |parts| == 1 {
      assert u == parts[0];
    } else {
      assert |parts| == 2;
      assert parts[1..] == [parts[1]];
      assert u == parts[0] + ['.'] + parts[1];
      var k := |parts[0]|;
      assert u[..k] == parts[0] && u[k + 1..] == parts[1];
    }
  }

  /** `float()` of a signed run of digits is the signed value of the digits. */
  lemma ParseRealDigits(s: string)
    requires |Unsigned(s)| > 0 && AllDigits(Unsigned(s))
    ensures ParseReal(s) == Ok(Signed(s, DigitsValue(Unsigned(s)) as real))
  {
    DigitsExclude(Unsigned(s), '.');
    SplitNoSep(Unsigned(s), '.');
  }

  /** `float()` of a signed `W.F` is the signed value of W plus the fraction F. */
  lemma ParseRealPoint(s: string, whole: string, frac: string)
    requires Unsigned(s) == whole + "." + frac
    requires AllDigits(whole) && AllDigits(frac) && |whole| + |frac| > 0
    ensures ParseReal(s) == Ok(Signed(s, DecimalValue(whole, frac)))
  {
    DigitsExclude(whole, '.');
    DigitsExclude(frac, '.');
    assert whole + "." + frac == whole + ['.'] + frac;
    SplitAt(whole, frac, '.');
    SplitNoSep(frac, '.');
  }
}
