/**
  Python's `str(n)` / f-string rendering of an `int`, and Python's `int(s)` parse of a
  decimal string (surrounding whitespace, an optional sign, ASCII digits with single
  underscores between them).
 */
module Numbers {
  import opened Wrappers
  import opened Strings

  predicate IsDigit(c: char) {
    '0' <= c <= '9'
  }

  predicate AllDigits(s: string) {
    forall i :: 0 <= i < |s| ==> IsDigit(s[i])
  }

  /** A non-empty run of ASCII digits: what the regular expression `\d+` captures here. */
  predicate IsNumeral(s: string) {
    s != [] && AllDigits(s)
  }

  function DigitChar(d: nat): (c: char)
    requires d < 10
    ensures IsDigit(c)
  {
    ('0' as int + d) as char
  }

  function DigitValue(c: char): (d: nat)
    requires IsDigit(c)
    ensures d < 10
  {
    c as int - '0' as int
  }

  /** The decimal digits of `n`, most significant first, without leading zeros. */
  function NatToString(n: nat): (s: string)
    ensures IsNumeral(s)
    ensures |s| > 1 ==> s[0] != '0'
  {
    if n < 10 then [DigitChar(n)] else NatToString(n / 10) + [DigitChar(n % 10)]
  }

  /** Python's `str(n)` (and `f"{n}"`) for an `int`. */
  function IntToString(n: int): string
  {
    if n < 0 then "-" + NatToString(-n) else NatToString(n)
  }

  /** The value of a string of decimal digits (leading zeros allowed). */
  function NumeralValue(s: string): nat
    requires AllDigits(s)
  {
    if s == [] then 0 else NumeralValue(s[..|s| - 1]) * 10 + DigitValue(s[|s| - 1])
  }

  /** Reading back the digits of `n` gives `n`. */
  lemma {:induction false} NumeralValueOfNatToString(n: nat)
    ensures NumeralValue(NatToString(n)) == n
  {
    var s := NatToString(n);
    if n >= 10 {
      NumeralValueOfNatToString(n / 10);
      assert s[..|s| - 1] == NatToString(n / 10);
    }
  }

  /** Digits with single underscores between them, as Python's `int()` accepts. */
  predicate IsUnderscoredNumeral(b: string) {
    && b != []
    && IsDigit(b[0])
    && IsDigit(b[|b| - 1])
    && (forall i :: 0 <= i < |b| ==> IsDigit(b[i]) || b[i] == '_')
    && (forall i, j :: 0 <= i < |b| && 0 <= j < |b| && j == i + 1 ==> !(b[i] == '_' && b[j] == '_'))
  }

  function DropUnderscores(b: string): (r: string)
    requires forall i :: 0 <= i < |b| ==> IsDigit(b[i]) || b[i] == '_'
    ensures AllDigits(r)
    ensures AllDigits(b) ==> r == b
  {
    if b == [] then []
    else (if b[0] == '_' then [] else [b[0]]) + DropUnderscores(b[1..])
  }

  /**
    Python's `int(s)` for base 10: `None` where Python raises `ValueError`.
    Non-ASCII decimal digits, which Python also accepts, are not modelled.
   */
  function ParseInt(s: string): Option<int>
  {
    ParseStripped(Strip(s))
  }

  /** `int()` of text already stripped of surrounding whitespace. */
  function ParseStripped(t: string): Option<int>
  {
    if t == [] then None
    else if t[0] == '-' || t[0] == '+' then ParseBody(t[0] == '-', t[1..])
    else ParseBody(false, t)
  }

  /** `int()` of the text after the optional sign. */
  function ParseBody(negative: bool, body: string): Option<int>
  {
    if !IsUnderscoredNumeral(body) then None
    else
      var v: int := NumeralValue(DropUnderscores(body));
      Some(if negative then -v else v)
  }

  /** `int(str(n)) == n` for every `int`. */
  lemma ParseIntOfIntToString(n: int)
    ensures ParseInt(IntToString(n)) == Some(n)
  {
    var m: nat := if n < 0 then -n else n;
    var digits := NatToString(m);
    NumeralValueOfNatToString(m);
    var s := IntToString(n);
    if n < 0 {
      assert s == "-" + digits;
      ParseIntOfSignedNumeral(digits);
      assert ParseInt("-" + digits) == Some(n);
    } else {
      assert s == digits;
      ParseIntOfNumeral(digits);
      assert ParseInt(digits) == Some(n);
    }
  }

  /** `int("-" + d)` of a numeral `d` is its value negated. */
  lemma ParseIntOfSignedNumeral(d: string)
    requires IsNumeral(d)
    ensures ParseInt("-" + d) == Some(-(NumeralValue(d) as int))
  {
    SignedNumeralStripped(d);
    SignedNumeralBody(d);
  }

  lemma SignedNumeralStripped(d: string)
    requires IsNumeral(d)
    ensures Strip("-" + d) == "-" + d
  {
    var s := "-" + d;
    assert s[|s| - 1] == d[|d| - 1];
    StripNoEdgeSpace(s);
  }

  lemma SignedNumeralBody(d: string)
    requires IsNumeral(d)
    ensures ParseStripped("-" + d) == Some(-(NumeralValue(d) as int))
  {
    assert ("-" + d)[1..] == d;
    NumeralIsUnderscored(d);
  }

  /** A run of digits is a valid `int()` body that loses nothing to underscore removal. */
  lemma NumeralIsUnderscored(d: string)
    requires IsNumeral(d)
    ensures IsUnderscoredNumeral(d) && DropUnderscores(d) == d
    ensures ParseBody(false, d) == Some(NumeralValue(d))
  {
  }

  /** `int(d)` of a captured `\d+` group is its numeral value: it can never raise. */
  lemma ParseIntOfNumeral(d: string)
    requires IsNumeral(d)
    ensures ParseInt(d) == Some(NumeralValue(d))
  {
    StripNoEdgeSpace(d);
    NumeralIsUnderscored(d);
  }

  /** The rendering of an `int` holds only digits and, in front, a minus sign. */
  lemma IntToStringLacks(n: int, c: char)
    requires !IsDigit(c) && c != '-'
    ensures Lacks(IntToString(n), c)
  {
    if n < 0 {
      var d := NatToString(-n);
      assert forall i :: 1 <= i < |"-" + d| ==> ("-" + d)[i] == d[i - 1];
    }
  }

  /** The rendering of an `int` is non-empty, does not start with whitespace and ends with a digit. */
  lemma IntToStringEdges(n: int)
    ensures var s := IntToString(n); s != [] && !IsSpace(s[0]) && IsDigit(s[|s| - 1])
  {
    if n < 0 {
      var d := NatToString(-n);
      assert ("-" + d)[|"-" + d| - 1] == d[|d| - 1];
    }
  }

  /**
    `map(int, text.split("x"))` unpacked into two values: exactly two "x"-separated parts that
    both parse, else `None` where Python raises `ValueError`.
   */
  function SizeText(res: string): Option<(int, int)>
  {
    var parts := Split(res, "x");
    if |parts| != 2 then None
    else
      match (ParseInt(parts[0]), ParseInt(parts[1]))
      case (Some(w), Some(h)) => Some((w, h))
      case _ => None
  }

  /** `SizeText` reads back the text `f"{w}x{h}"`. */
  lemma {:induction false} SizeTextOf(w: int, h: int)
    ensures SizeText(IntToString(w) + "x" + IntToString(h)) == Some((w, h))
  {
    var sw, sh := IntToString(w), IntToString(h);
    IntToStringLacks(w, 'x');
    IntToStringLacks(h, 'x');
    SplitAfterLacking(sw, "x", sh);
    SplitLacking(sh, "x");
    assert Split(sw + "x" + sh, "x") == [sw, sh];
    ParseIntOfIntToString(w);
    ParseIntOfIntToString(h);
  }

  /** Text with two "x" splits into three parts, which cannot be unpacked into two. */
  lemma {:induction false} SizeTextTwoSeparators(p: string, q: string, r: string)
    requires Lacks(p, 'x') && Lacks(q, 'x') && Lacks(r, 'x')
    ensures SizeText(p + "x" + q + "x" + r).None?
  {
    assert p + "x" + q + "x" + r == p + "x" + (q + "x" + r);
    SplitAfterLacking(p, "x", q + "x" + r);
    SplitAfterLacking(q, "x", r);
    SplitLacking(r, "x");
  }
}
