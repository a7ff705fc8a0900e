/** JavaScript strings: sequences of UTF-16 code units, with the order `<` and
    `Array.prototype.sort` use on them, decimal digits and the numbers they denote,
    padding with zeros, splitting and joining at a separator, and trimming of the white
    space and line terminators of ECMA-262. */
module Texts {
  import opened Wrappers

  type CodeUnit = x: int | 0 <= x < 0x1_0000

  type Text = seq<CodeUnit>

  const TAB: CodeUnit := 0x09
  const LF: CodeUnit := 0x0A
  const CR: CodeUnit := 0x0D
  const QUOTE: CodeUnit := 0x22
  const COMMA: CodeUnit := 0x2C
  const MINUS: CodeUnit := 0x2D
  const DOT: CodeUnit := 0x2E
  const ZERO: CodeUnit := 0x30
  const COLON: CodeUnit := 0x3A
  const SEMICOLON: CodeUnit := 0x3B
  const BOM: CodeUnit := 0xFEFF

  /** A literal written in the source text, as code units. */
  function Ascii(s: string): (t: Text)
    ensures |t| == |s|
    ensures forall i | 0 <= i < |s| :: s[i] as int < 0x1_0000 ==> t[i] == s[i] as int
  {
    seq(|s|, i requires 0 <= i < |s| => if s[i] as int < 0x1_0000 then s[i] as int else 0xFFFD)
  }

  /** Concatenation regrouped so that what comes first stands alone. */
  lemma {:induction false} Regroup(a: Text, b: Text, c: Text, d: Text)
    ensures a + b + c + d == a + (b + (c + d))
    ensures (a + b + c + d)[|a|..] == b + (c + d)
  {
  }

  // ---------------------------------------------------------------- order

  /** `a < b` on JavaScript strings: lexicographic by code unit. */
  predicate LexLess(a: Text, b: Text) {
    if b == [] then false
    else if a == [] then true
    else if a[0] != b[0] then a[0] < b[0]
    else LexLess(a[1..], b[1..])
  }

  /** A proper prefix, or smaller at the first place where they differ. */
  ghost predicate ComesBefore(a: Text, b: Text) {
    || (a <= b && a != b)
    || exists k: nat :: DiffersAt(a, b, k)
  }

  ghost predicate DiffersAt(a: Text, b: Text, k: nat) {
    k < |a| && k < |b| && a[..k] == b[..k] && a[k] < b[k]
  }

  lemma {:induction false} BeforeFromRest(a: Text, b: Text)
    requires a != [] && b != [] && a[0] == b[0] && ComesBefore(a[1..], b[1..])
    ensures ComesBefore(a, b)
  {
    assert a == [a[0]] + a[1..] && b == [b[0]] + b[1..];
    if !(a[1..] <= b[1..]) {
      var k: nat :| DiffersAt(a[1..], b[1..], k);
      assert a[..k + 1] == [a[0]] + a[1..][..k] && b[..k + 1] == [b[0]] + b[1..][..k];
      assert DiffersAt(a, b, k + 1);
    }
  }

  lemma {:induction false} RestFromBefore(a: Text, b: Text)
    requires a != [] && b != [] && ComesBefore(a, b)
    ensures a[0] < b[0] || (a[0] == b[0] && ComesBefore(a[1..], b[1..]))
  {
    assert a == [a[0]] + a[1..] && b == [b[0]] + b[1..];
    if !(a <= b) {
      var k: nat :| DiffersAt(a, b, k);
      if k > 0 {
        assert a[0] == a[..k][0] && b[0] == b[..k][0];
        assert a[1..][..k - 1] == a[..k][1..] && b[1..][..k - 1] == b[..k][1..];
        assert DiffersAt(a[1..], b[1..], k - 1);
      }
    }
  }

  lemma {:induction false} LexLessMeans(a: Text, b: Text)
    ensures LexLess(a, b) <==> ComesBefore(a, b)
  {
    if a != [] && b != [] {
      if ComesBefore(a, b) {
        RestFromBefore(a, b);
      }
      if a[0] == b[0] {
        LexLessMeans(a[1..], b[1..]);
        if ComesBefore(a[1..], b[1..]) {
          BeforeFromRest(a, b);
        }
      } else if a[0] < b[0] {
        assert DiffersAt(a, b, 0);
      }
    }
  }

  lemma {:induction false} LexIrreflexive(a: Text)
    ensures !LexLess(a, a)
  {
    if a != [] {
      LexIrreflexive(a[1..]);
    }
  }

  lemma {:induction false} LexTotal(a: Text, b: Text)
    ensures LexLess(a, b) || a == b || LexLess(b, a)
  {
    if a != [] && b != [] && a[0] == b[0] {
      LexTotal(a[1..], b[1..]);
      assert a == [a[0]] + a[1..] && b == [b[0]] + b[1..];
    }
  }

  lemma {:induction false} LexTransitive(a: Text, b: Text, c: Text)
    requires LexLess(a, b) && LexLess(b, c)
    ensures LexLess(a, c)
  {
    if a != [] && a[0] == b[0] == c[0] {
      LexTransitive(a[1..], b[1..], c[1..]);
    }
  }

  lemma {:induction false} LexAsymmetric(a: Text, b: Text)
    requires LexLess(a, b)
    ensures !LexLess(b, a)
  {
    if LexLess(b, a) {
      LexTransitive(a, b, a);
      LexIrreflexive(a);
    }
  }

  /** A common prefix does not matter to the order. */
  lemma {:induction false} LexCommonPrefix(p: Text, a: Text, b: Text)
    ensures LexLess(p + a, p + b) == LexLess(a, b)
  {
    if p == [] {
      assert p + a == a && p + b == b;
    } else {
      assert (p + a)[1..] == p[1..] + a && (p + b)[1..] == p[1..] + b;
      LexCommonPrefix(p[1..], a, b);
    }
  }

  /** Prefixes of one length that differ decide the order, whatever follows. */
  lemma {:induction false} LexDecidedByPrefix(p: Text, q: Text, a: Text, b: Text)
    requires |p| == |q| && p != q
    ensures LexLess(p + a, q + b) == LexLess(p, q)
  {
    if p[0] == q[0] {
      assert p == [p[0]] + p[1..] && q == [q[0]] + q[1..];
      assert (p + a)[1..] == p[1..] + a && (q + b)[1..] == q[1..] + b;
      LexDecidedByPrefix(p[1..], q[1..], a, b);
    } else {
      assert (p + a)[0] == p[0] && (q + b)[0] == q[0];
    }
  }

  // --------------------------------------------------------------- digits

  predicate IsDigit(c: CodeUnit) {
    ZERO <= c <= ZERO + 9
  }

  predicate AllDigits(t: Text) {
    forall i | 0 <= i < |t| :: IsDigit(t[i])
  }

  /** `String(n)` for a whole number below 10^21. */
  function Digits(n: nat): (t: Text)
    ensures |t| > 0 && AllDigits(t)
  {
    if n < 10 then [ZERO + n] else Digits(n / 10) + [ZERO + n % 10]
  }

  /** The number a run of digits denotes. */
  function DigitsValue(t: Text): nat
    requires AllDigits(t)
  {
    if t == [] then 0 else 10 * DigitsValue(t[..|t| - 1]) + (t[|t| - 1] - ZERO)
  }

  lemma {:induction false} DigitsRoundTrip(n: nat)
    ensures DigitsValue(Digits(n)) == n
  {
    if n >= 10 {
      DigitsRoundTrip(n / 10);
      assert Digits(n)[..|Digits(n)| - 1] == Digits(n / 10);
    }
  }

  function Pow10(k: nat): (p: nat)
    ensures p > 0
  {
    if k == 0 then 1 else 10 * Pow10(k - 1)
  }

  lemma {:induction false} DigitsValueBound(t: Text)
    requires AllDigits(t)
    ensures DigitsValue(t) < Pow10(|t|)
  {
    if t != [] {
      DigitsValueBound(t[..|t| - 1]);
    }
  }

  lemma {:induction false} DigitsLength(n: nat, width: nat)
    requires width > 0
    ensures |Digits(n)| <= width <==> n < Pow10(width)
  {
    if n >= 10 {
      if width > 1 {
        DigitsLength(n / 10, width - 1);
      } else {
        assert Pow10(1) == 10 * Pow10(0);
      }
    } else {
      assert Pow10(width) >= 10 by { assert Pow10(width) == 10 * Pow10(width - 1); }
    }
  }

  /** `t.padStart(width, "0")`. */
  function PadZeros(width: nat, t: Text): (r: Text)
    ensures |r| == if |t| < width then width else |t|
    decreases width - |t|
  {
    if |t| >= width then t else PadZeros(width, [ZERO] + t)
  }

  lemma {:induction false} LeadingZero(t: Text)
    requires AllDigits(t)
    ensures AllDigits([ZERO] + t) && DigitsValue([ZERO] + t) == DigitsValue(t)
  {
    var z := [ZERO] + t;
    if t != [] {
      LeadingZero(t[..|t| - 1]);
      assert z[..|z| - 1] == [ZERO] + t[..|t| - 1];
      assert z[|z| - 1] == t[|t| - 1];
    } else {
      assert z[..0] == [];
    }
  }

  lemma {:induction false} PadZerosKeepsValue(width: nat, t: Text)
    requires AllDigits(t)
    ensures AllDigits(PadZeros(width, t)) && DigitsValue(PadZeros(width, t)) == DigitsValue(t)
    decreases width - |t|
  {
    if |t| < width {
      LeadingZero(t);
      PadZerosKeepsValue(width, [ZERO] + t);
    }
  }

  /** Runs of digits of one length sort as text exactly as they do as numbers. */
  lemma {:induction false} DigitsSortNumerically(a: Text, b: Text)
    requires AllDigits(a) && AllDigits(b) && |a| == |b|
    ensures LexLess(a, b) <==> DigitsValue(a) < DigitsValue(b)
    ensures a == b <==> DigitsValue(a) == DigitsValue(b)
  {
    if a != [] {
      var n := |a| - 1;
      var p, q, x, y := a[..n], b[..n], [a[n]], [b[n]];
      DigitsSortNumerically(p, q);
      assert a == p + x && b == q + y;
      if p == q {
        LexCommonPrefix(p, x, y);
      } else {
        LexDecidedByPrefix(p, q, x, y);
      }
    }
  }

  // -------------------------------------------------------- split and join

  /** `t.split(sep)` for a one-unit separator. */
  function Split(t: Text, sep: CodeUnit): (parts: seq<Text>)
    ensures |parts| >= 1
  {
    if t == [] then [[]]
    else
      var rest := Split(t[1..], sep);
      if t[0] == sep then [[]] + rest else [[t[0]] + rest[0]] + rest[1..]
  }

  /** `parts.join(sep)` for a one-unit separator. */
  function Join(parts: seq<Text>, sep: CodeUnit): Text {
    if parts == [] then []
    else if |parts| == 1 then parts[0]
    else parts[0] + [sep] + Join(parts[1..], sep)
  }

  lemma {:induction false} JoinSplit(t: Text, sep: CodeUnit)
    ensures Join(Split(t, sep), sep) == t
  {
    if t != [] {
      JoinSplit(t[1..], sep);
      var rest := Split(t[1..], sep);
      if t[0] == sep {
        assert ([[]] + rest)[1..] == rest;
        assert Join([[]] + rest, sep) == [] + [sep] + t[1..];
      } else {
        var parts := [[t[0]] + rest[0]] + rest[1..];
        assert parts[1..] == rest[1..];
        assert Join(parts, sep) == [t[0]] + Join(rest, sep);
      }
    }
  }

  /** Splitting cuts off a leading part that holds no separator. */
  lemma {:induction false} SplitFirst(a: Text, b: Text, sep: CodeUnit)
    requires sep !in a
    ensures Split(a + [sep] + b, sep) == [a] + Split(b, sep)
  {
    var t := a + [sep] + b;
    if a == [] {
      assert t[1..] == b;
    } else {
      assert t[1..] == a[1..] + [sep] + b;
      SplitFirst(a[1..], b, sep);
      assert [a[0]] + a[1..] == a;
    }
  }

  lemma {:induction false} SplitWhole(a: Text, sep: CodeUnit)
    requires sep !in a
    ensures Split(a, sep) == [a]
  {
    if a != [] {
      SplitWhole(a[1..], sep);
      assert [a[0]] + a[1..] == a;
    }
  }

  // ---------------------------------------------------- hexadecimal digits

  function HexDigit(d: nat): CodeUnit
    requires d < 16
  {
    if d < 10 then ZERO + d else 0x61 + (d - 10)
  }

  function HexValue(c: CodeUnit): (d: Option<nat>)
    ensures d.Some? ==> d.value < 16
  {
    if IsDigit(c) then Some(c - ZERO)
    else if 0x61 <= c <= 0x66 then Some(c - 0x61 + 10)
    else if 0x41 <= c <= 0x46 then Some(c - 0x41 + 10)
    else None
  }

  // ---------------------------------------------------------- white space

  /** What `trim` strips: the white space and line terminators of ECMA-262. */
  predicate IsSpace(c: CodeUnit) {
    || 0x09 <= c <= 0x0D || c == 0x20 || c == 0xA0 || c == 0x1680
    || 0x2000 <= c <= 0x200A || c == 0x2028 || c == 0x2029
    || c == 0x202F || c == 0x205F || c == 0x3000 || c == BOM
  }

  function TrimStart(t: Text): (r: Text)
    ensures r != [] ==> !IsSpace(r[0])
    ensures |r| <= |t|
  {
    if t != [] && IsSpace(t[0]) then TrimStart(t[1..]) else t
  }

  function TrimEnd(t: Text): (r: Text)
    ensures r != [] ==> !IsSpace(r[|r| - 1])
    ensures r <= t
  {
    if t != [] && IsSpace(t[|t| - 1]) then TrimEnd(t[..|t| - 1]) else t
  }

  /** `t.trim()`. */
  function Trim(t: Text): Text {
    TrimEnd(TrimStart(t))
  }

  predicate AllSpaces(t: Text) {
    forall i | 0 <= i < |t| :: IsSpace(t[i])
  }

  lemma {:induction false} TrimEndDrops(t: Text) returns (after: Text)
    ensures t == TrimEnd(t) + after && AllSpaces(after)
  {
    if t != [] && IsSpace(t[|t| - 1]) {
      after := TrimEndDrops(t[..|t| - 1]);
      after := after + [t[|t| - 1]];
    } else {
      after := [];
    }
  }

  lemma {:induction false} TrimStartDrops(t: Text) returns (before: Text)
    ensures t == before + TrimStart(t) && AllSpaces(before)
  {
    if t != [] && IsSpace(t[0]) {
      before := TrimStartDrops(t[1..]);
      before := [t[0]] + before;
    } else {
      before := [];
    }
  }

  lemma {:induction false} TrimKeepsStart(t: Text)
    requires Trim(t) != []
    ensures !IsSpace(Trim(t)[0]) && !IsSpace(Trim(t)[|Trim(t)| - 1])
  {
    assert Trim(t)[0] == TrimStart(t)[0];
  }

  /** What stands around a trimmed text is white space, and none is left at its ends. */
  lemma {:induction false} TrimMeans(t: Text) returns (before: Text, after: Text)
    ensures t == before + Trim(t) + after && AllSpaces(before) && AllSpaces(after)
    ensures Trim(t) != [] ==> !IsSpace(Trim(t)[0]) && !IsSpace(Trim(t)[|Trim(t)| - 1])
  {
    before := TrimStartDrops(t);
    after := TrimEndDrops(TrimStart(t));
    if Trim(t) != [] {
      TrimKeepsStart(t);
    }
  }

  lemma {:induction false} TrimIsEmpty(t: Text)
    ensures Trim(t) == [] <==> forall i | 0 <= i < |t| :: IsSpace(t[i])
  {
    var before, after := TrimMeans(t);
    if Trim(t) != [] {
      assert t[|before|] == Trim(t)[0];
    }
  }
}
