/**
 Int32 values as the settings screens read and write them: `int.ToString()`,
 `int.Parse` / `int.TryParse` with the default `NumberStyles.Integer`, and the
 unchecked wrap-around of C# `int` arithmetic.
 */
module Numbers {
  import opened Wrappers
  import opened Text

  const Int32Min: int := -0x8000_0000
  const Int32Max: int := 0x7FFF_FFFF

  predicate IsInt32(n: int) {
    Int32Min <= n <= Int32Max
  }

  /** Unchecked C# `int` arithmetic: `n` reduced modulo 2^32 into the Int32 range. */
  function Wrap32(n: int): (r: int)
    ensures IsInt32(r)
    ensures IsInt32(n) ==> r == n
    ensures (r - n) % 0x1_0000_0000 == 0
  {
    (n - Int32Min) % 0x1_0000_0000 + Int32Min
  }

  /** The white space `NumberStyles.AllowLeadingWhite`/`AllowTrailingWhite` accept:
      U+0009..U+000D and U+0020 only (narrower than `Char.IsWhiteSpace`). */
  predicate IsNumberWhite(c: char) {
    c == ' ' || ('\t' <= c <= '\r')
  }

  predicate IsDigit(c: char) {
    '0' <= c <= '9'
  }

  predicate AllDigits(s: string) {
    forall i :: 0 <= i < |s| ==> IsDigit(s[i])
  }

  function DigitValue(c: char): nat
    requires IsDigit(c)
  {
    c as int - '0' as int
  }

  function DigitChar(d: nat): (c: char)
    requires d < 10
    ensures IsDigit(c) && DigitValue(c) == d
  {
    ('0' as int + d) as char
  }

  /** The value of a string of decimal digits, most significant first. */
  function DigitsValue(ds: string): nat
    requires AllDigits(ds)
  {
    if ds == [] then 0 else 10 * DigitsValue(ds[..|ds| - 1]) + DigitValue(ds[|ds| - 1])
  }

  /** The shortest decimal representation of `n`. */
  function NatToDigits(n: nat): (r: string)
    ensures r != [] && AllDigits(r)
    ensures DigitsValue(r) == n
  {
    if n < 10 then [DigitChar(n)]
    else
      var r := NatToDigits(n / 10) + [DigitChar(n % 10)];
      assert r[..|r| - 1] == NatToDigits(n / 10);
      r
  }

  /** `int.ToString()` (the negative sign is "-"). */
  function FormatInt32(n: int): (r: string)
    ensures r != [] && IsDigit(r[|r| - 1])
    ensures n >= 0 <==> IsDigit(r[0])
  {
    if n < 0 then "-" + NatToDigits(-n) else NatToDigits(n)
  }

  /** `int.Parse(s)` / `int.TryParse(s, out n)` with `NumberStyles.Integer`: optional
      white space, an optional "+" or "-", one or more ASCII digits, optional white
      space, and a value within Int32. None is the `FormatException`/`OverflowException`
      of `Parse` and the `false` of `TryParse`. */
  function ParseInt32(s: string): (r: Option<int>)
    ensures r.Some? ==> IsInt32(r.value)
    ensures r.Some? ==> exists i :: 0 <= i < |s| && IsDigit(s[i])
  {
    var t := TrimWith(s, IsNumberWhite);
    var r := ParseSigned(t);
    assert r.Some? ==> exists j :: 0 <= j < |s| && IsDigit(s[j]) by {
      if r.Some? {
        var i :| 0 <= i < |t| && IsDigit(t[i]);
        assert t[i] in s;
      }
    }
    r
  }

  /** The sign and digits between the white space. */
  function ParseSigned(t: string): (r: Option<int>)
    ensures r.Some? ==> IsInt32(r.value)
    ensures r.Some? ==> exists i :: 0 <= i < |t| && IsDigit(t[i])
  {
    if |t| > 0 && (t[0] == '-' || t[0] == '+') then
      var r := ParseMagnitude(t[1..], t[0] == '-');
      if r.Some? then
        assert IsDigit(t[1..][0]);
        r
      else r
    else
      ParseMagnitude(t, false)
  }

  /** One or more digits, negated when `negative`, within Int32. */
  function ParseMagnitude(digits: string, negative: bool): (r: Option<int>)
    ensures r.Some? ==> IsInt32(r.value) && digits != [] && IsDigit(digits[0])
    ensures r.Some? ==> AllDigits(digits) && r.value == if negative then -(DigitsValue(digits) as int) else DigitsValue(digits)
  {
    if digits == [] || !AllDigits(digits) then None
    else
      var magnitude: int := DigitsValue(digits);
      var v := if negative then -magnitude else magnitude;
      if IsInt32(v) then Some(v) else None
  }

  /** An optional sign: nothing, "+" or "-". */
  predicate IsSign(sign: string) {
    sign == [] || sign == "+" || sign == "-"
  }

  /** The value of `digits` under `sign`. */
  function SignedValue(sign: string, digits: string): int
    requires AllDigits(digits)
  {
    if sign == "-" then -(DigitsValue(digits) as int) else DigitsValue(digits)
  }

  /** `s` splits into white space, an optional sign, one or more digits and white
      space: the shape `NumberStyles.Integer` admits. */
  predicate IsIntegerText(s: string, lead: string, sign: string, digits: string, trail: string) {
    && s == lead + sign + digits + trail
    && AllWith(lead, IsNumberWhite) && AllWith(trail, IsNumberWhite)
    && IsSign(sign) && digits != [] && AllDigits(digits)
  }

  /** Integer text whose value fits in Int32. */
  ghost predicate WellFormedInt(s: string) {
    exists lead, sign, digits, trail ::
      IsIntegerText(s, lead, sign, digits, trail) && IsInt32(SignedValue(sign, digits))
  }

  /** A sign followed by digits reads as their signed value. */
  lemma ParseSignedAccepts(sign: string, digits: string)
    requires IsSign(sign) && digits != [] && AllDigits(digits) && IsInt32(SignedValue(sign, digits))
    ensures ParseSigned(sign + digits) == Some(SignedValue(sign, digits))
  {
    var t := sign + digits;
    if sign == [] {
      assert t == digits;
      assert IsDigit(digits[0]);
    } else {
      assert t[0] == sign[0];
      assert t[1..] == digits;
    }
  }

  /** Every well-formed integer text within Int32 parses to its value. */
  lemma ParseInt32Accepts(s: string, lead: string, sign: string, digits: string, trail: string)
    requires IsIntegerText(s, lead, sign, digits, trail) && IsInt32(SignedValue(sign, digits))
    ensures ParseInt32(s) == Some(SignedValue(sign, digits))
  {
    var core := sign + digits;
    assert s == lead + core + trail;
    assert core[|core| - 1] == digits[|digits| - 1];
    assert IsDigit(digits[|digits| - 1]);
    assert IsTrimmedWith(core, IsNumberWhite) by {
      if sign == [] {
        assert core[0] == digits[0];
        assert IsDigit(digits[0]);
      } else {
        assert core[0] == sign[0];
      }
    }
    TrimWithPadded(lead, core, trail, IsNumberWhite);
    ParseSignedAccepts(sign, digits);
  }

  /** Whatever parses is well-formed integer text, and the result is its value. */
  lemma ParseInt32Shape(s: string)
    requires ParseInt32(s).Some?
    ensures exists lead, sign, digits, trail ::
      IsIntegerText(s, lead, sign, digits, trail) && ParseInt32(s).value == SignedValue(sign, digits)
  {
    var lead, trail := TrimWithParts(s, IsNumberWhite);
    var t := TrimWith(s, IsNumberWhite);
    assert ParseSigned(t) == ParseInt32(s);
    var sign, digits := SignedParts(t);
    ShapeWitness(s, lead, sign, digits, trail, t, ParseSigned(t).value);
  }

  /** The sign and the digits `ParseSigned` read. */
  lemma SignedParts(t: string) returns (sign: string, digits: string)
    requires ParseSigned(t).Some?
    ensures t == sign + digits && IsSign(sign)
    ensures ParseMagnitude(digits, sign == "-") == ParseSigned(t)
  {
    if |t| > 0 && (t[0] == '-' || t[0] == '+') {
      digits := t[1..];
      sign := if t[0] == '-' then "-" else "+";
      assert t == sign + digits;
    } else {
      sign, digits := [], t;
      assert t == sign + digits;
    }
  }

  /** One decomposition found by `ParseInt32Shape`, packaged for its `exists`. */
  lemma ShapeWitness(s: string, lead: string, sign: string, digits: string, trail: string,
                     t: string, v: int)
    requires AllWith(lead, IsNumberWhite) && AllWith(trail, IsNumberWhite)
    requires s == lead + t + trail && t == sign + digits && IsSign(sign)
    requires ParseMagnitude(digits, sign == "-") == Some(v)
    ensures IsIntegerText(s, lead, sign, digits, trail) && v == SignedValue(sign, digits)
  {
    assert s == lead + sign + digits + trail;
  }

  /** `int.TryParse` succeeds exactly on white space, an optional sign, digits and
      white space whose value fits in Int32, and then yields that value. */
  lemma ParseInt32Means(s: string)
    ensures ParseInt32(s).Some? <==> WellFormedInt(s)
    ensures forall lead, sign, digits, trail ::
      (IsIntegerText(s, lead, sign, digits, trail) && IsInt32(SignedValue(sign, digits))) ==>
        ParseInt32(s) == Some(SignedValue(sign, digits))
  {
    forall lead, sign, digits, trail |
      IsIntegerText(s, lead, sign, digits, trail) && IsInt32(SignedValue(sign, digits))
      ensures ParseInt32(s) == Some(SignedValue(sign, digits))
    {
      ParseInt32Accepts(s, lead, sign, digits, trail);
    }
    if ParseInt32(s).Some? {
      ParseInt32Shape(s);
    }
  }

  /** Digits, with an optional "-" before them, are integer text without padding. */
  lemma SignedText(sign: string, digits: string)
    requires (sign == [] || sign == "-") && digits != [] && AllDigits(digits)
    ensures IsIntegerText(sign + digits, [], sign, digits, [])
  {
    assert sign + digits == [] + sign + digits + [];
  }

  /** What `ToString` writes, `Parse` reads back. */
  lemma ParseFormat(n: int)
    requires IsInt32(n)
    ensures ParseInt32(FormatInt32(n)) == Some(n)
  {
    var sign := if n < 0 then "-" else [];
    var digits := NatToDigits(if n < 0 then -n else n);
    assert FormatInt32(n) == sign + digits;
    SignedText(sign, digits);
    assert SignedValue(sign, digits) == n;
    ParseInt32Accepts(sign + digits, [], sign, digits, []);
  }

  /** The millisecond interval `seconds * 1000` as an unchecked Int32 product. */
  function IntervalMs(seconds: int): (r: int)
    ensures IsInt32(r)
    ensures 0 < seconds <= Int32Max / 1000 ==> r == seconds * 1000
  {
    Wrap32(seconds * 1000)
  }

  /** Large intervals wrap around to a negative number of milliseconds. */
  lemma IntervalMsWraps()
    ensures IntervalMs(2_147_484) < 0
  {
  }
}
