/** Decimal digit strings: the `isdigit()` test and the `int()` conversion
    the move counters go through, with decimal rendering as their inverse. */
module Numbers {
  import opened FenTypes
  import opened Alphabet

  // ---------------------------------------------------------------------
  // Python's digit classes, after the Unicode 15.0 character database
  // ---------------------------------------------------------------------

  /** The digit of code point `n` in the run of ten decimal digits whose
      zero is at `zero`, if `n` lies in that run. */
  function Run(n: int, zero: int): (d: Option<nat>)
    ensures d.Some? <==> zero <= n < zero + 10
    ensures d.Some? ==> d.value <= 9 && n == zero + d.value
  {
    if zero <= n < zero + 10 then Some(n - zero) else None
  }

  /** The digit value of a character of Unicode category Nd, the characters
      for which Python's `str.isdecimal()` holds and which `int()` reads;
      `None` for every other character. Category Nd is made of 68 runs of
      ten, each from its zero to its nine; they are listed highest first,
      so each character is looked up in the last run starting at or below
      it. */
  function DecimalDigitOf(c: char): Option<nat>
  {
    var n := c as int;
    if n >= 0x1FBF0 then Run(n, 0x1FBF0)
    else if n >= 0x1E950 then Run(n, 0x1E950)
    else if n >= 0x1E4F0 then Run(n, 0x1E4F0)
    else if n >= 0x1E2F0 then Run(n, 0x1E2F0)
    else if n >= 0x1E140 then Run(n, 0x1E140)
    else if n >= 0x1D7F6 then Run(n, 0x1D7F6)
    else if n >= 0x1D7EC then Run(n, 0x1D7EC)
    else if n >= 0x1D7E2 then Run(n, 0x1D7E2)
    else if n >= 0x1D7D8 then Run(n, 0x1D7D8)
    else if n >= 0x1D7CE then Run(n, 0x1D7CE)
    else if n >= 0x16B50 then Run(n, 0x16B50)
    else if n >= 0x16AC0 then Run(n, 0x16AC0)
    else if n >= 0x16A60 then Run(n, 0x16A60)
    else if n >= 0x11F50 then Run(n, 0x11F50)
    else if n >= 0x11DA0 then Run(n, 0x11DA0)
    else if n >= 0x11D50 then Run(n, 0x11D50)
    else if n >= 0x11C50 then Run(n, 0x11C50)
    else if n >= 0x11950 then Run(n, 0x11950)
    else if n >= 0x118E0 then Run(n, 0x118E0)
    else if n >= 0x11730 then Run(n, 0x11730)
    else if n >= 0x116C0 then Run(n, 0x116C0)
    else if n >= 0x11650 then Run(n, 0x11650)
    else if n >= 0x114D0 then Run(n, 0x114D0)
    else if n >= 0x11450 then Run(n, 0x11450)
    else if n >= 0x112F0 then Run(n, 0x112F0)
    else if n >= 0x111D0 then Run(n, 0x111D0)
    else if n >= 0x11136 then Run(n, 0x11136)
    else if n >= 0x110F0 then Run(n, 0x110F0)
    else if n >= 0x11066 then Run(n, 0x11066)
    else if n >= 0x10D30 then Run(n, 0x10D30)
    else if n >= 0x104A0 then Run(n, 0x104A0)
    else if n >= 0xFF10 then Run(n, 0xFF10)
    else if n >= 0xABF0 then Run(n, 0xABF0)
    else if n >= 0xAA50 then Run(n, 0xAA50)
    else if n >= 0xA9F0 then Run(n, 0xA9F0)
    else if n >= 0xA9D0 then Run(n, 0xA9D0)
    else if n >= 0xA900 then Run(n, 0xA900)
    else if n >= 0xA8D0 then Run(n, 0xA8D0)
    else if n >= 0xA620 then Run(n, 0xA620)
    else if n >= 0x1C50 then Run(n, 0x1C50)
    else if n >= 0x1C40 then Run(n, 0x1C40)
    else if n >= 0x1BB0 then Run(n, 0x1BB0)
    else if n >= 0x1B50 then Run(n, 0x1B50)
    else if n >= 0x1A90 then Run(n, 0x1A90)
    else if n >= 0x1A80 then Run(n, 0x1A80)
    else if n >= 0x19D0 then Run(n, 0x19D0)
    else if n >= 0x1946 then Run(n, 0x1946)
    else if n >= 0x1810 then Run(n, 0x1810)
    else if n >= 0x17E0 then Run(n, 0x17E0)
    else if n >= 0x1090 then Run(n, 0x1090)
    else if n >= 0x1040 then Run(n, 0x1040)
    else if n >= 0xF20 then Run(n, 0xF20)
    else if n >= 0xED0 then Run(n, 0xED0)
    else if n >= 0xE50 then Run(n, 0xE50)
    else if n >= 0xDE6 then Run(n, 0xDE6)
    else if n >= 0xD66 then Run(n, 0xD66)
    else if n >= 0xCE6 then Run(n, 0xCE6)
    else if n >= 0xC66 then Run(n, 0xC66)
    else if n >= 0xBE6 then Run(n, 0xBE6)
    else if n >= 0xB66 then Run(n, 0xB66)
    else if n >= 0xAE6 then Run(n, 0xAE6)
    else if n >= 0xA66 then Run(n, 0xA66)
    else if n >= 0x9E6 then Run(n, 0x9E6)
    else if n >= 0x966 then Run(n, 0x966)
    else if n >= 0x7C0 then Run(n, 0x7C0)
    else if n >= 0x6F0 then Run(n, 0x6F0)
    else if n >= 0x660 then Run(n, 0x660)
    else if n >= 0x30 then Run(n, 0x30)
    else None
  }

  /** Python `c.isdecimal()`. */
  predicate IsPyDecimal(c: char) {
    DecimalDigitOf(c).Some?
  }

  /** The characters of Unicode numeric type Digit: Python's `isdigit()`
      holds for them but `isdecimal()` does not, and `int()` refuses them
      with a `ValueError`. They are the superscripts ⁰ to ⁹, the
      subscripts ₀ to ₉, the circled and parenthesised digits ① to ⑨, the
      Ethiopic digits and a few others. */
  predicate IsDigitOnly(c: char) {
    var n := c as int;
    false
      || (0xB2 <= n <= 0xB3)
      || (0xB9 <= n <= 0xB9)
      || (0x1369 <= n <= 0x1371)
      || (0x19DA <= n <= 0x19DA)
      || (0x2070 <= n <= 0x2070)
      || (0x2074 <= n <= 0x2079)
      || (0x2080 <= n <= 0x2089)
      || (0x2460 <= n <= 0x2468)
      || (0x2474 <= n <= 0x247C)
      || (0x2488 <= n <= 0x2490)
      || (0x24EA <= n <= 0x24EA)
      || (0x24F5 <= n <= 0x24FD)
      || (0x24FF <= n <= 0x24FF)
      || (0x2776 <= n <= 0x277E)
      || (0x2780 <= n <= 0x2788)
      || (0x278A <= n <= 0x2792)
      || (0x10A40 <= n <= 0x10A43)
      || (0x10E60 <= n <= 0x10E68)
      || (0x11052 <= n <= 0x1105A)
      || (0x1F100 <= n <= 0x1F10A)
  }

  /** Python `c.isdigit()`: a decimal or a digit-only character. */
  predicate IsPyDigit(c: char) {
    IsPyDecimal(c) || IsDigitOnly(c)
  }

  /** Python `s.isdigit()`. */
  predicate PyIsDigit(s: string) {
    |s| > 0 && forall k :: 0 <= k < |s| ==> IsPyDigit(s[k])
  }

  /** Python `s.isdecimal()`: the texts `int()` reads without a sign. */
  predicate PyIsDecimal(s: string) {
    |s| > 0 && forall k :: 0 <= k < |s| ==> IsPyDecimal(s[k])
  }

  /** An ASCII character passes `isdigit()` exactly when it is one of '0'
      to '9', and `int()` reads such a digit as its usual value. */
  lemma AsciiDigit(c: char)
    requires c < '\U{80}'
    ensures IsPyDigit(c) <==> IsDecimalDigit(c)
    ensures IsDecimalDigit(c) ==> DecimalDigitOf(c) == Some(DigitValue(c))
  {
  }

  /** A decimal digit string in ASCII, the only digits FEN writes. */
  predicate AllDigits(s: string) {
    |s| > 0 && forall k :: 0 <= k < |s| ==> IsDecimalDigit(s[k])
  }

  /** The ASCII digit strings are exactly the ASCII texts that pass
      Python's `isdigit()`, and they all pass `isdecimal()`. */
  lemma AllDigitsAscii(s: string)
    ensures AllDigits(s) <==> PyIsDigit(s) && forall k :: 0 <= k < |s| ==> s[k] < '\U{80}'
    ensures AllDigits(s) ==> PyIsDecimal(s)
  {
    forall k | 0 <= k < |s| && s[k] < '\U{80}' {
      AsciiDigit(s[k]);
    }
  }

  function Pow10(n: nat): (p: nat)
    ensures p >= 1
  {
    if n == 0 then 1 else 10 * Pow10(n - 1)
  }

  /** Python `int(s)` on a digit string, most significant digit first. The
      value has at most `|s|` decimal digits, and exactly `|s|` when there
      is no leading zero. */
  function DigitsValue(s: string): (v: nat)
    requires forall k :: 0 <= k < |s| ==> IsDecimalDigit(s[k])
    ensures v < Pow10(|s|)
    ensures |s| > 0 && s[0] != '0' ==> Pow10(|s| - 1) <= v
  {
    if |s| == 0 then 0 else 10 * DigitsValue(s[..|s| - 1]) + DigitValue(s[|s| - 1])
  }

  /** The shortest decimal rendering of `n`, as `str(n)` writes it. */
  function Decimal(n: nat): (s: string)
    ensures AllDigits(s)
    ensures s[0] != '0' || n == 0
  {
    if n < 10 then [DigitChar(n)] else Decimal(n / 10) + [DigitChar(n % 10)]
  }

  /** Reading back a rendered number gives the number. */
  lemma {:induction false} DecimalRoundTrip(n: nat)
    ensures DigitsValue(Decimal(n)) == n
  {
    var s := Decimal(n);
    if n >= 10 {
      DecimalRoundTrip(n / 10);
      assert s[..|s| - 1] == Decimal(n / 10);
    } else {
      assert s[..0] == [];
    }
  }

  /** A leading zero does not change the value. */
  lemma {:induction false} LeadingZero(s: string)
    requires forall k :: 0 <= k < |s| ==> IsDecimalDigit(s[k])
    ensures DigitsValue("0" + s) == DigitsValue(s)
  {
    if |s| > 0 {
      var t := "0" + s;
      assert t[..|t| - 1] == "0" + s[..|s| - 1];
      LeadingZero(s[..|s| - 1]);
    } else {
      assert ("0" + s)[..0] == [];
    }
  }

  /** Reading a digit string without a leading zero and writing the value
      back in decimal gives the string: `int()` and `str()` are inverse on
      canonical digit strings. */
  lemma {:induction false} DigitsRoundTrip(s: string)
    requires AllDigits(s) && (s[0] != '0' || |s| == 1)
    ensures Decimal(DigitsValue(s)) == s
  {
    var n := DigitsValue(s);
    var d := s[|s| - 1];
    assert DigitChar(DigitValue(d)) == d;
    if |s| == 1 {
      assert s[..0] == [];
      assert s == [d];
    } else {
      var t := s[..|s| - 1];
      assert t[0] == s[0];
      DigitsRoundTrip(t);
      assert n / 10 == DigitsValue(t) && n % 10 == DigitValue(d);
      assert s == t + [d];
    }
  }

  // ---------------------------------------------------------------------
  // Python's `int()` on a text that passed `isdigit()`
  // ---------------------------------------------------------------------

  /** CPython's default bound on the digits `int()` converts from a text
      (`sys.int_info.default_max_str_digits`), in force from Python 3.11,
      3.10.7, 3.9.14 and 3.8.14 on. */
  const MaxStrDigits := 4300

  /** The value `int()` reads from decimal characters of any script, most
      significant first: each character counts with its Nd digit value. */
  function PyDecimalValue(s: string): (v: nat)
    requires forall k :: 0 <= k < |s| ==> IsPyDecimal(s[k])
  {
    if |s| == 0 then 0
    else
      var c := s[|s| - 1];
      assert IsPyDecimal(c);
      10 * PyDecimalValue(s[..|s| - 1]) + DecimalDigitOf(c).value
  }

  /** On ASCII digits, `int()` reads the usual decimal value. */
  lemma {:induction false} PyDecimalValueAscii(s: string)
    requires forall k :: 0 <= k < |s| ==> IsDecimalDigit(s[k])
    ensures forall k :: 0 <= k < |s| ==> IsPyDecimal(s[k])
    ensures PyDecimalValue(s) == DigitsValue(s)
  {
    forall k | 0 <= k < |s| {
      AsciiDigit(s[k]);
    }
    if |s| > 0 {
      PyDecimalValueAscii(s[..|s| - 1]);
    }
  }

  /** Python `int(s)` on a text that passed `isdigit()`: its value, or
      `None` where `int()` raises `ValueError`, which is on a digit that is
      not decimal and on a text of more than `MaxStrDigits` digits. */
  function PyInt(s: string): (v: Option<nat>)
    requires PyIsDigit(s)
    ensures v.Some? <==> PyIsDecimal(s) && |s| <= MaxStrDigits
    ensures v.Some? ==> v.value == PyDecimalValue(s)
    ensures AllDigits(s) && |s| <= MaxStrDigits ==> v == Some(DigitsValue(s))
  {
    if !PyIsDecimal(s) || |s| > MaxStrDigits then None
    else if AllDigits(s) then PyDecimalValueAscii(s); Some(PyDecimalValue(s))
    else Some(PyDecimalValue(s))
  }
}
