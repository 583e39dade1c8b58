/**
 * Decimal numbers as the core uses them: Python's `Decimal(text)` on plain decimal text,
 * `str(n)` for naturals, and the fixed-point renderings `"{:.Nf}"` and `"{:,.Nf}"`
 * (round half to even, comma thousands separators).
 */
module Numbers {
  import opened Options
  import opened Text

  /** `n * 10^k` */
  function ShiftLeft(n: nat, k: nat): nat {
    if k == 0 then n else 10 * ShiftLeft(n, k - 1)
  }

  /** `v / 10^k` */
  function Shift(v: real, k: nat): (r: real)
    ensures v >= 0.0 ==> r >= 0.0
  {
    if k == 0 then v else Shift(v, k - 1) / 10.0
  }

  /** `v * 10^k` */
  function Unshift(v: real, k: nat): (r: real)
    ensures v >= 0.0 ==> r >= 0.0
  {
    if k == 0 then v else Unshift(v, k - 1) * 10.0
  }

  lemma {:induction false} ShiftUnshift(v: real, k: nat)
    ensures Shift(Unshift(v, k), k) == v
  {
    if k > 0 {
      ShiftOfTenfold(Unshift(v, k - 1), k);
      ShiftUnshift(v, k - 1);
    }
  }

  lemma {:induction false} ShiftOfTenfold(v: real, k: nat)
    requires k > 0
    ensures Shift(v * 10.0, k) == Shift(v, k - 1)
  {
    if k > 1 {
      ShiftOfTenfold(v, k - 1);
    }
  }

  lemma {:induction false} ShiftAdds(a: real, b: real, k: nat)
    ensures Shift(a + b, k) == Shift(a, k) + Shift(b, k)
  {
    if k > 0 {
      ShiftAdds(a, b, k - 1);
    }
  }

  lemma {:induction false} ShiftMonotone(a: real, b: real, k: nat)
    requires a <= b
    ensures Shift(a, k) <= Shift(b, k)
  {
    if k > 0 {
      ShiftMonotone(a, b, k - 1);
    }
  }

  lemma {:induction false} ShiftNegates(a: real, k: nat)
    ensures Shift(-a, k) == -Shift(a, k)
  {
    if k > 0 {
      ShiftNegates(a, k - 1);
    }
  }

  lemma {:induction false} UnshiftOfNat(n: nat, k: nat)
    ensures Unshift(n as real, k) == ShiftLeft(n, k) as real
  {
    if k > 0 {
      UnshiftOfNat(n, k - 1);
    }
  }

  function Abs(x: real): (r: real)
    ensures r >= 0.0 && (r == x || r == -x)
  {
    if x < 0.0 then -x else x
  }

  // -------------------------------------------------------------- digits

  predicate IsDigit(c: char) {
    '0' <= c <= '9'
  }

  predicate AllDigits(s: string) {
    forall i :: 0 <= i < |s| ==> IsDigit(s[i])
  }

  function DigitValue(c: char): (d: nat)
    requires IsDigit(c)
    ensures d < 10
  {
    c as int - '0' as int
  }

  function DigitChar(d: nat): (c: char)
    requires d < 10
    ensures IsDigit(c) && DigitValue(c) == d
  {
    (d + '0' as int) as char
  }

  /** `str(n)` for a natural number: its decimal digits, most significant first. */
  function NatToString(n: nat): (s: string)
    ensures s != [] && AllDigits(s)
    decreases n
  {
    if n < 10 then [DigitChar(n)] else NatToString(n / 10) + [DigitChar(n % 10)]
  }

  /** The number a string of decimal digits denotes (0 for the empty string). */
  function DigitsValue(s: string): nat
    requires AllDigits(s)
    decreases |s|
  {
    if s == [] then 0 else 10 * DigitsValue(s[..|s| - 1]) + DigitValue(s[|s| - 1])
  }

  /** Reading back `str(n)` gives `n`. */
  lemma {:induction false} NatToStringValue(n: nat)
    ensures DigitsValue(NatToString(n)) == n
    decreases n
  {
    if n >= 10 {
      var s := NatToString(n);
      assert s[..|s| - 1] == NatToString(n / 10);
      NatToStringValue(n / 10);
    }
  }

  /** `str` is injective on naturals. */
  lemma NatToStringInjective(m: nat, n: nat)
    requires NatToString(m) == NatToString(n)
    ensures m == n
  {
    NatToStringValue(m);
    NatToStringValue(n);
  }

  /** The last `width` decimal digits of `n`, with leading zeros. */
  function PaddedDigits(n: nat, width: nat): (s: string)
    ensures |s| == width && AllDigits(s)
  {
    if width == 0 then "" else PaddedDigits(n / 10, width - 1) + [DigitChar(n % 10)]
  }

  /** `n` with its last `width` decimal digits removed. */
  function DropDigits(n: nat, width: nat): nat {
    if width == 0 then n else DropDigits(n / 10, width - 1)
  }

  /** Splitting off the last `width` digits and putting them back gives `n`. */
  lemma {:induction false} DropAndPaddedDigits(n: nat, width: nat)
    ensures ShiftLeft(DropDigits(n, width), width) + DigitsValue(PaddedDigits(n, width)) == n
  {
    if width > 0 {
      var s := PaddedDigits(n, width);
      assert s[..|s| - 1] == PaddedDigits(n / 10, width - 1);
      DropAndPaddedDigits(n / 10, width - 1);
    }
  }

  /** Thousands grouping of a digit string: a comma before every third digit from the right. */
  function Group(s: string): (r: string)
    decreases |s|
  {
    if |s| <= 3 then s else Group(s[..|s| - 3]) + "," + s[|s| - 3..]
  }

  // ------------------------------------------------- the digit/dot filter

  predicate IsDigitOrDot(c: char) {
    IsDigit(c) || c == '.'
  }

  /** `re.sub(r'[^\d.]', '', s)`: every character except digits and '.' removed. */
  function KeepDigitsAndDots(s: string): (r: string)
    ensures |r| <= |s|
    ensures forall i :: 0 <= i < |r| ==> IsDigitOrDot(r[i])
  {
    if s == [] then []
    else (if IsDigitOrDot(s[0]) then [s[0]] else []) + KeepDigitsAndDots(s[1..])
  }

  lemma {:induction false} KeepDigitsAndDotsAppend(a: string, b: string)
    ensures KeepDigitsAndDots(a + b) == KeepDigitsAndDots(a) + KeepDigitsAndDots(b)
    decreases |a|
  {
    if a == [] {
      assert a + b == b;
    } else {
      assert (a + b)[0] == a[0];
      assert (a + b)[1..] == a[1..] + b;
      KeepDigitsAndDotsAppend(a[1..], b);
    }
  }

  lemma {:induction false} KeepDigitsAndDotsKeeps(s: string)
    requires forall i :: 0 <= i < |s| ==> IsDigitOrDot(s[i])
    ensures KeepDigitsAndDots(s) == s
    decreases |s|
  {
    if s != [] {
      KeepDigitsAndDotsKeeps(s[1..]);
    }
  }

  /** Removing the separators from a grouped digit string gives the digits back. */
  lemma {:induction false} KeepDigitsAndDotsUngroups(s: string)
    requires AllDigits(s)
    ensures KeepDigitsAndDots(Group(s)) == s
    decreases |s|
  {
    if |s| <= 3 {
      KeepDigitsAndDotsKeeps(s);
    } else {
      var front, back := s[..|s| - 3], s[|s| - 3..];
      KeepDigitsAndDotsUngroups(front);
      KeepDigitsAndDotsAppend(Group(front) + ",", back);
      KeepDigitsAndDotsAppend(Group(front), ",");
      KeepDigitsAndDotsKeeps(back);
      assert front + back == s;
    }
  }

  // ------------------------------------------------------------ decimals

  /** A Python `Decimal`: a finite value, a NaN (quiet or signalling) or an infinity. */
  datatype Dec = Fin(value: real) | NaN | Inf(positive: bool)

  /**
   * `Decimal(s)` for an unsigned mantissa: digits with at most one '.', and at least one digit.
   * Anything else (an empty string, a lone '.', a second '.', any other character) does not convert.
   */
  function ParseMantissa(s: string): (r: Option<real>)
    ensures r.Some? ==> r.value >= 0.0
  {
    match FindChar(s, '.')
    case None =>
      if s != [] && AllDigits(s) then Some(DigitsValue(s) as real) else None
    case Some(i) =>
      var whole, frac := s[..i], s[i + 1..];
      if AllDigits(whole) && AllDigits(frac) && |whole| + |frac| > 0 then
        Some(DigitsValue(whole) as real + Shift(DigitsValue(frac) as real, |frac|))
      else None
  }

  /**
   * `Decimal(text)`: surrounding whitespace is ignored, an optional sign is read, then either a
   * special value (`NaN`, `sNaN`, `Inf`, `Infinity`, any case) or a mantissa.
   */
  function ParseDecimal(text: string): Option<Dec> {
    var t := Strip(text);
    var negative := t != [] && t[0] == '-';
    var body := if t != [] && (t[0] == '-' || t[0] == '+') then t[1..] else t;
    var word := Lower(body);
    if word == "nan" || word == "snan" then Some(NaN)
    else if word == "inf" || word == "infinity" then Some(Inf(!negative))
    else match ParseMantissa(body)
      case None => None
      case Some(v) => Some(Fin(if negative then -v else v))
  }

  /** On a string of digits and dots, `Decimal` reads exactly the mantissa. */
  lemma ParseDecimalOfDigitsAndDots(s: string)
    requires forall i :: 0 <= i < |s| ==> IsDigitOrDot(s[i])
    ensures ParseDecimal(s) == (match ParseMantissa(s) case None => None case Some(v) => Some(Fin(v)))
  {
    assert IsStripped(s);
    StripOfStripped(s);
    if s != [] {
      var w := Lower(s);
      assert w[0] == s[0];
      assert w != "nan" && w != "snan" && w != "inf" && w != "infinity" by {
        assert "nan"[0] == 'n' && "snan"[0] == 's' && "inf"[0] == 'i' && "infinity"[0] == 'i';
      }
    }
  }

  // ------------------------------------------------------------ rendering

  /** Round to the nearest integer, ties to the even neighbour (Python's default for `format`). */
  function RoundHalfEven(q: real): (n: int)
    ensures q - 0.5 <= n as real <= q + 0.5
    ensures q - (q.Floor as real) == 0.5 ==> n % 2 == 0
    ensures q >= 0.0 ==> n >= 0
  {
    var f := q.Floor;
    var r := q - f as real;
    if r > 0.5 then f + 1
    else if r < 0.5 then f
    else if f % 2 == 0 then f else f + 1
  }

  /** `Abs(x)` counted in units of the last of `places` decimal places, rounded half to even. */
  function Scaled(x: real, places: nat): nat {
    RoundHalfEven(Unshift(Abs(x), places))
  }

  /** The magnitude that `FormatFixed(x, places, _)` displays. */
  function Rounded(x: real, places: nat): real {
    Shift(Scaled(x, places) as real, places)
  }

  /** `"{:.Nf}".format(x)` (`grouping` false) and `"{:,.Nf}".format(x)` (`grouping` true), N = `places`. */
  function FormatFixed(x: real, places: nat, grouping: bool): string {
    var scaled := Scaled(x, places);
    var digits := NatToString(DropDigits(scaled, places));
    (if x < 0.0 then "-" else "")
    + (if grouping then Group(digits) else digits)
    + (if places == 0 then "" else "." + PaddedDigits(scaled, places))
  }

  /** The displayed magnitude is within half a unit of the last place of the true magnitude. */
  lemma RoundedIsClose(x: real, places: nat)
    ensures Abs(Rounded(x, places) - Abs(x)) <= Shift(0.5, places)
  {
    var u := Unshift(Abs(x), places);
    var n := Scaled(x, places) as real;
    assert -0.5 <= n - u <= 0.5;
    ShiftUnshift(Abs(x), places);
    ShiftAdds(n - u, u, places);
    ShiftMonotone(n - u, 0.5, places);
    ShiftMonotone(-0.5, n - u, places);
    ShiftNegates(0.5, places);
  }

  /** The filter keeps the integer digits (without separators) and the '.' and fraction digits. */
  lemma FormatFixedKept(x: real, places: nat, grouping: bool)
    ensures KeepDigitsAndDots(FormatFixed(x, places, grouping)) ==
      NatToString(DropDigits(Scaled(x, places), places))
      + (if places == 0 then "" else "." + PaddedDigits(Scaled(x, places), places))
  {
    var scaled := Scaled(x, places);
    var digits := NatToString(DropDigits(scaled, places));
    var sign: string := if x < 0.0 then "-" else "";
    var body := if grouping then Group(digits) else digits;
    var tail := if places == 0 then "" else "." + PaddedDigits(scaled, places);
    assert FormatFixed(x, places, grouping) == sign + body + tail;
    assert KeepDigitsAndDots(body) == digits by {
      if grouping {
        KeepDigitsAndDotsUngroups(digits);
      } else {
        KeepDigitsAndDotsKeeps(digits);
      }
    }
    assert KeepDigitsAndDots(sign + body) == digits by {
      KeepDigitsAndDotsAppend(sign, body);
      assert KeepDigitsAndDots(sign) == [];
      assert [] + digits == digits;
    }
    assert KeepDigitsAndDots(sign + body + tail) == digits + tail by {
      KeepDigitsAndDotsAppend(sign + body, tail);
      KeepDigitsAndDotsKeeps(tail);
    }
  }

  lemma FirstDotAfterDigits(w: string, f: string)
    requires AllDigits(w)
    ensures FindChar(w + "." + f, '.').Some? && FindChar(w + "." + f, '.').value == |w|
  {
    var s := w + "." + f;
    assert s[|w|] == '.';
    assert forall j :: 0 <= j < |w| ==> s[j] == w[j];
  }

  /** How `Decimal` reads a string whose first '.' separates the digit strings `w` and `f`. */
  lemma ParseMantissaAtDot(s: string, w: string, f: string)
    requires w != [] && AllDigits(w) && AllDigits(f)
    requires FindChar(s, '.').Some? && FindChar(s, '.').value == |w|
    requires s[..|w|] == w && s[|w| + 1..] == f
    ensures ParseMantissa(s).Some?
    ensures ParseMantissa(s).value == DigitsValue(w) as real + Shift(DigitsValue(f) as real, |f|)
  {
  }

  /** How `Decimal` reads a digit string, a '.', and a digit string. */
  lemma ParseMantissaOfFixed(w: string, f: string)
    requires w != [] && AllDigits(w) && AllDigits(f)
    ensures ParseMantissa(w + "." + f).Some?
    ensures ParseMantissa(w + "." + f).value == DigitsValue(w) as real + Shift(DigitsValue(f) as real, |f|)
  {
    var s := w + "." + f;
    FirstDotAfterDigits(w, f);
    assert s[..|w|] == w && s[|w| + 1..] == f;
    ParseMantissaAtDot(s, w, f);
  }

  /** Shifting `whole * 10^k + frac` right by `k` places gives `whole` plus the shifted fraction. */
  lemma RecombineFraction(n: nat, whole: nat, frac: nat, k: nat)
    requires n == ShiftLeft(whole, k) + frac
    ensures Shift(n as real, k) == whole as real + Shift(frac as real, k)
  {
    UnshiftOfNat(whole, k);
    ShiftAdds(ShiftLeft(whole, k) as real, frac as real, k);
    ShiftUnshift(whole as real, k);
  }

  /** A rendering without decimals reads back as its whole part. */
  lemma WholeReadsBack(x: real, grouping: bool)
    ensures ParseMantissa(KeepDigitsAndDots(FormatFixed(x, 0, grouping))).Some?
    ensures ParseMantissa(KeepDigitsAndDots(FormatFixed(x, 0, grouping))).value == Rounded(x, 0)
  {
    var scaled := Scaled(x, 0);
    var digits := NatToString(DropDigits(scaled, 0));
    FormatFixedKept(x, 0, grouping);
    assert KeepDigitsAndDots(FormatFixed(x, 0, grouping)) == digits by {
      assert digits + "" == digits;
    }
    NatToStringValue(scaled);
    assert ParseMantissa(digits).value == scaled as real;
    assert Rounded(x, 0) == scaled as real;
  }

  /** The digits of `scaled`, with a '.' before its last `places` digits, read as `scaled / 10^places`. */
  lemma MantissaOfScaled(scaled: nat, places: nat)
    requires places > 0
    ensures ParseMantissa(NatToString(DropDigits(scaled, places)) + "." + PaddedDigits(scaled, places)).Some?
    ensures ParseMantissa(NatToString(DropDigits(scaled, places)) + "." + PaddedDigits(scaled, places)).value
            == Shift(scaled as real, places)
  {
    var whole := DropDigits(scaled, places);
    var digits := NatToString(whole);
    var fd := PaddedDigits(scaled, places);
    NatToStringValue(whole);
    DropAndPaddedDigits(scaled, places);
    ParseMantissaOfFixed(digits, fd);
    var frac := DigitsValue(fd);
    var v := ParseMantissa(digits + "." + fd).value;
    assert |fd| == places && DigitsValue(digits) == whole;
    assert v == whole as real + Shift(frac as real, places);
    assert scaled == ShiftLeft(whole, places) + frac;
    RecombineFraction(scaled, whole, frac, places);
  }

  /** A rendering with decimals reads back as its whole part plus its shifted fraction digits. */
  lemma FractionReadsBack(x: real, places: nat, grouping: bool)
    requires places > 0
    ensures ParseMantissa(KeepDigitsAndDots(FormatFixed(x, places, grouping))).Some?
    ensures ParseMantissa(KeepDigitsAndDots(FormatFixed(x, places, grouping))).value == Rounded(x, places)
  {
    var scaled := Scaled(x, places);
    var digits := NatToString(DropDigits(scaled, places));
    var fd := PaddedDigits(scaled, places);
    FormatFixedKept(x, places, grouping);
    assert digits + ("." + fd) == digits + "." + fd;
    MantissaOfScaled(scaled, places);
  }

  /** The digits of a rendering, read back with the digit/dot filter, are the rendered magnitude. */
  lemma FormatFixedReadsBack(x: real, places: nat, grouping: bool)
    ensures ParseMantissa(KeepDigitsAndDots(FormatFixed(x, places, grouping))).Some?
    ensures ParseMantissa(KeepDigitsAndDots(FormatFixed(x, places, grouping))).value == Rounded(x, places)
  {
    if places == 0 {
      WholeReadsBack(x, grouping);
    } else {
      FractionReadsBack(x, places, grouping);
    }
  }
}
