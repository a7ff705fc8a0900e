/** `Number(t)` on text without a decimal point, where it is a whole number: white space
    around it, a sign, leading zeros, an exponent that leaves it whole, and the hexadecimal,
    octal and binary radixes. Text that does not read as a whole number has none. */
module Numbers {
  import opened Wrappers
  import opened Texts

  const PLUS: CodeUnit := 0x2B

  /** A run of digits of one radix. */
  function RadixValue(t: Text, radix: nat): Option<nat> {
    if t == [] then None
    else
      match HexValue(t[|t| - 1])
      case None => None
      case Some(d) =>
        if d >= radix then None
        else if |t| == 1 then Some(d)
        else match RadixValue(t[..|t| - 1], radix) case Some(n) => Some(radix * n + d) case None => None
  }

  /** The radix a leading "0x", "0o" or "0b" names, in either case. */
  function RadixOf(c: CodeUnit): Option<nat> {
    if c == 0x78 || c == 0x58 then Some(16)
    else if c == 0x6F || c == 0x4F then Some(8)
    else if c == 0x62 || c == 0x42 then Some(2)
    else None
  }

  function DigitRun(t: Text): (n: nat)
    ensures n <= |t| && AllDigits(t[..n])
    ensures n < |t| ==> !IsDigit(t[n])
  {
    if t == [] || !IsDigit(t[0]) then 0
    else
      var n := DigitRun(t[1..]);
      assert t[..n + 1] == [t[0]] + t[1..][..n];
      n + 1
  }

  function Negated(n: Option<int>): Option<int> {
    match n case Some(k) => Some(-k) case None => None
  }

  /** Digits with an optional sign before them. */
  function Signed(t: Text): Option<int> {
    if t != [] && t[0] == MINUS then Negated(Unsigned(t[1..]))
    else Unsigned(if t != [] && t[0] == PLUS then t[1..] else t)
  }

  function Unsigned(t: Text): Option<int> {
    if t != [] && AllDigits(t) then Some(DigitsValue(t)) else None
  }

  /** `mantissa * 10^exponent`, where that is whole. */
  function Scaled(mantissa: nat, exponent: int): Option<int> {
    if exponent >= 0 then Some(mantissa * Pow10(exponent))
    else if mantissa % Pow10(-exponent) == 0 then Some(mantissa / Pow10(-exponent))
    else None
  }

  /** Digits, and an optional exponent after `e` or `E`. */
  function Decimal(t: Text): Option<int> {
    var n := DigitRun(t);
    if n == 0 then None
    else if n == |t| then Some(DigitsValue(t[..n]))
    else if t[n] != 0x65 && t[n] != 0x45 then None
    else match Signed(t[n + 1..]) case Some(exponent) => Scaled(DigitsValue(t[..n]), exponent) case None => None
  }

  /** `Number(t)`, if it is a whole number. */
  function WholeNumber(text: Text): Option<int> {
    var t := Trim(text);
    if t == [] then Some(0)
    else if |t| >= 2 && t[0] == ZERO && RadixOf(t[1]).Some? then RadixValue(t[2..], RadixOf(t[1]).value)
    else if t[0] == MINUS then Negated(Decimal(t[1..]))
    else Decimal(if t[0] == PLUS then t[1..] else t)
  }

  lemma {:induction false} DigitRunWhole(t: Text)
    requires AllDigits(t)
    ensures DigitRun(t) == |t|
  {
  }

  lemma {:induction false} DigitRunStops(t: Text, n: nat)
    requires n < |t| && AllDigits(t[..n]) && !IsDigit(t[n])
    ensures DigitRun(t) == n
  {
    if n > 0 {
      assert t[0] == t[..n][0] && t[..n][1..] == t[1..][..n - 1];
      DigitRunStops(t[1..], n - 1);
    }
  }

  /** Plain digits are read as digits. */
  lemma {:induction false} DigitsAreWhole(t: Text)
    requires t != [] && AllDigits(t)
    ensures WholeNumber(t) == Some(DigitsValue(t))
  {
    assert IsDigit(t[0]) && IsDigit(t[|t| - 1]);
    assert |t| >= 2 ==> IsDigit(t[1]);
    DigitRunWhole(t);
    assert t[..|t|] == t;
  }

  /** Zeros in front change nothing. */
  lemma {:induction false} PaddedIsWhole(width: nat, n: nat)
    ensures WholeNumber(PadZeros(width, Digits(n))) == Some(n) && DOT !in PadZeros(width, Digits(n))
  {
    PadZerosKeepsValue(width, Digits(n));
    DigitsRoundTrip(n);
    DigitsAreWhole(PadZeros(width, Digits(n)));
  }

  /** Nor does white space around. */
  lemma {:induction false} SpacedIsWhole(before: Text, t: Text, after: Text)
    requires forall i | 0 <= i < |before| :: IsSpace(before[i])
    requires forall i | 0 <= i < |after| :: IsSpace(after[i])
    requires t != [] && !IsSpace(t[0]) && !IsSpace(t[|t| - 1])
    ensures WholeNumber(before + t + after) == WholeNumber(t)
  {
    TrimAround(before, t, after);
    TrimAround([], t, []);
    assert [] + t + [] == t;
  }

  lemma {:induction false} TrimAround(before: Text, t: Text, after: Text)
    requires forall i | 0 <= i < |before| :: IsSpace(before[i])
    requires forall i | 0 <= i < |after| :: IsSpace(after[i])
    requires t != [] && !IsSpace(t[0]) && !IsSpace(t[|t| - 1])
    ensures Trim(before + t + after) == t
  {
    if before != [] {
      assert (before + t + after)[1..] == before[1..] + t + after;
      TrimAround(before[1..], t, after);
    } else {
      assert before + t + after == t + after;
      TrimAfter(t, after);
    }
  }

  lemma {:induction false} TrimAfter(t: Text, after: Text)
    requires forall i | 0 <= i < |after| :: IsSpace(after[i])
    requires t != [] && !IsSpace(t[|t| - 1])
    ensures TrimEnd(t + after) == t
  {
    if after == [] {
      assert t + after == t;
    } else {
      var n := |after| - 1;
      assert (t + after)[..|t| + n] == t + after[..n];
      TrimAfter(t, after[..n]);
    }
  }

  // ------------------------------------------------- exponents and radixes

  lemma {:induction false} SignedDigits(e: Text)
    requires e != [] && AllDigits(e)
    ensures var v: int := DigitsValue(e);
            Signed(e) == Some(v) && Signed([PLUS] + e) == Some(v) && Signed([MINUS] + e) == Some(-v)
  {
    assert IsDigit(e[0]);
    assert ([PLUS] + e)[1..] == e && ([MINUS] + e)[1..] == e;
  }

  lemma {:induction false} UnspacedIsDecimal(t: Text)
    requires t != [] && IsDigit(t[0]) && IsDigit(t[|t| - 1]) && (|t| > 1 ==> RadixOf(t[1]).None?)
    ensures WholeNumber(t) == Decimal(t)
  {
    Unspaced(t);
  }

  lemma {:induction false} Unspaced(t: Text)
    requires t != [] && !IsSpace(t[0]) && !IsSpace(t[|t| - 1])
    ensures Trim(t) == t
  {
    TrimAround([], t, []);
    assert [] + t + [] == t;
  }

  lemma {:induction false} DecimalParts(m: Text, c: CodeUnit, tail: Text)
    requires m != [] && AllDigits(m) && (c == 0x65 || c == 0x45)
    ensures Decimal(m + ([c] + tail)) == match Signed(tail) case Some(e) => Scaled(DigitsValue(m), e) case None => None
  {
    var t := m + ([c] + tail);
    assert t[..|m|] == m && t[|m|] == c && t[|m| + 1..] == tail;
    DigitRunStops(t, |m|);
  }

  lemma {:induction false} WithExponent(m: Text, c: CodeUnit, tail: Text)
    requires m != [] && AllDigits(m) && (c == 0x65 || c == 0x45) && tail != [] && IsDigit(tail[|tail| - 1])
    ensures WholeNumber(m + ([c] + tail)) == match Signed(tail) case Some(e) => Scaled(DigitsValue(m), e) case None => None
  {
    var t := m + ([c] + tail);
    assert t[0] == m[0] && t[|t| - 1] == tail[|tail| - 1] && t[1] == if |m| > 1 then m[1] else c;
    UnspacedIsDecimal(t);
    DecimalParts(m, c, tail);
  }

  /** Digits, an exponent mark and digits with or without a sign: the first times the power
      of ten, and with a minus the number that times the power of ten is the first. */
  lemma {:induction false} ExponentIsRead(m: Text, c: CodeUnit, e: Text, quotient: nat)
    requires m != [] && AllDigits(m) && e != [] && AllDigits(e) && (c == 0x65 || c == 0x45)
    ensures WholeNumber(m + ([c] + e)) == Some(DigitsValue(m) * Pow10(DigitsValue(e)))
    ensures WholeNumber(m + ([c] + ([PLUS] + e))) == Some(DigitsValue(m) * Pow10(DigitsValue(e)))
    ensures WholeNumber(m + ([c] + ([MINUS] + e))) == Some(quotient)
       <==> quotient * Pow10(DigitsValue(e)) == DigitsValue(m)
  {
    SignedDigits(e);
    WithExponent(m, c, e);
    WithExponent(m, c, [PLUS] + e);
    WithExponent(m, c, [MINUS] + e);
    ScaledDown(DigitsValue(m), DigitsValue(e), quotient);
  }

  lemma {:induction false} ScaledDown(n: nat, k: nat, q: nat)
    ensures var down: int := k; Scaled(n, -down) == Some(q) <==> q * Pow10(k) == n
  {
    ExactQuotient(n, Pow10(k), n / Pow10(k), n % Pow10(k), q);
    if k == 0 {
      assert Pow10(0) == 1 && n / 1 == n;
    }
  }

  lemma {:induction false} ExactQuotient(n: int, d: int, whole: int, rest: int, q: int)
    requires 0 <= rest < d && n == d * whole + rest
    ensures rest == 0 && whole == q <==> q * d == n
  {
    if q > whole {
      AtLeast(q - whole, d);
      assert q * d == whole * d + (q - whole) * d;
    } else if q < whole {
      AtLeast(whole - q, d);
      assert whole * d == q * d + (whole - q) * d;
    }
  }

  lemma {:induction false} AtLeast(a: int, d: int)
    requires a >= 1 && d >= 0
    ensures a * d >= d
  {
  }

  /** The number digits make in a radix, most significant first. */
  function Horner(digits: seq<nat>, radix: nat): nat {
    if digits == [] then 0 else radix * Horner(digits[..|digits| - 1], radix) + digits[|digits| - 1]
  }

  ghost predicate DigitsIn(radix: nat, digits: seq<nat>) {
    forall i | 0 <= i < |digits| :: digits[i] < radix
  }

  function Written(digits: seq<nat>): (t: Text)
    requires DigitsIn(16, digits)
    ensures |t| == |digits|
  {
    seq(|digits|, i requires 0 <= i < |digits| => HexDigit(digits[i]))
  }

  lemma {:induction false} RadixDigits(digits: seq<nat>, radix: nat)
    requires radix <= 16 && digits != [] && DigitsIn(radix, digits)
    ensures RadixValue(Written(digits), radix) == Some(Horner(digits, radix))
  {
    var t, n := Written(digits), |digits| - 1;
    assert t[..n] == Written(digits[..n]);
    assert HexValue(t[n]) == Some(digits[n]);
    if n > 0 {
      RadixDigits(digits[..n], radix);
    } else {
      assert digits[..0] == [] && Horner([], radix) == 0;
    }
  }

  /** "0x", "0o" and "0b", in either case, and digits of that radix. */
  lemma {:induction false} RadixIsRead(digits: seq<nat>, mark: CodeUnit, radix: nat)
    requires || ((mark == 0x78 || mark == 0x58) && radix == 16)
             || ((mark == 0x6F || mark == 0x4F) && radix == 8)
             || ((mark == 0x62 || mark == 0x42) && radix == 2)
    requires digits != [] && DigitsIn(radix, digits)
    ensures WholeNumber([0x30, mark] + Written(digits)) == Some(Horner(digits, radix))
  {
    var t := [0x30, mark] + Written(digits);
    RadixDigits(digits, radix);
    assert t[|t| - 1] == HexDigit(digits[|digits| - 1]);
    Unspaced(t);
    assert t[2..] == Written(digits);
  }

  // -------------------------------------------------------------- decimals

  /** The value of digits with an optional decimal point and digits after it. */
  function DecimalValue(t: Text): Option<real> {
    var n := DigitRun(t);
    if n == 0 then None
    else if n == |t| then Some(DigitsValue(t[..n]) as real)
    else if t[n] != DOT || n + 1 == |t| || !AllDigits(t[n + 1..]) then None
    else Some(DigitsValue(t[..n]) as real + DigitsValue(t[n + 1..]) as real / Pow10(|t| - n - 1) as real)
  }

  lemma {:induction false} WholeDecimal(t: Text)
    requires t != [] && AllDigits(t)
    ensures DecimalValue(t) == Some(DigitsValue(t) as real)
  {
    DigitRunWhole(t);
    assert t[..|t|] == t;
  }

  lemma {:induction false} PointDecimal(whole: Text, part: Text, w: nat, p: nat, scale: real)
    requires whole != [] && AllDigits(whole) && part != [] && AllDigits(part)
    requires w == DigitsValue(whole) && p == DigitsValue(part) && scale == Pow10(|part|) as real
    ensures DecimalValue(whole + [DOT] + part) == Some(w as real + p as real / scale)
  {
    var t := whole + [DOT] + part;
    assert t[..|whole|] == whole && t[|whole| + 1..] == part;
    DigitRunStops(t, |whole|);
  }
}
