/** Certificate verification tokens: a streaming base-32 encoder over a 32-bit
    accumulator that is never masked, against the digits of one big number. */
module Token {
  import opened Texts

  type Byte = x: int | 0 <= x < 256

  /** Crockford base 32: no I, L, O or U. */
  const ALPHABET: Text := Ascii("0123456789ABCDEFGHJKMNPQRSTVWXYZ")

  // ----------------------------------------------------------------- shifts

  /** `n >>> bits`. */
  function Shr(n: nat, bits: nat): nat {
    if bits == 0 then n else Shr(n / 2, bits - 1)
  }

  /** `n << bits`, before it is cut to a word. */
  function Shl(n: nat, bits: nat): nat
    decreases bits
  {
    if bits == 0 then n else Shl(2 * n, bits - 1)
  }

  lemma {:induction false} ShrAdd(n: nat, a: nat, b: nat)
    ensures Shr(n, a + b) == Shr(Shr(n, a), b)
  {
    if a > 0 {
      ShrAdd(n / 2, a - 1, b);
    }
  }

  lemma {:induction false} ShlAdd(n: nat, a: nat, b: nat)
    ensures Shl(n, a + b) == Shl(Shl(n, a), b)
    decreases a
  {
    if a > 0 {
      ShlAdd(2 * n, a - 1, b);
    }
  }

  lemma {:induction false} ShlLinear(m: nat, n: nat, bits: nat)
    ensures Shl(m + n, bits) == Shl(m, bits) + Shl(n, bits)
    ensures Shl(0x1_0000_0000 * n, bits) == 0x1_0000_0000 * Shl(n, bits)
    decreases bits
  {
    if bits > 0 {
      ShlLinear(2 * m, 2 * n, bits - 1);
      assert 2 * m + 2 * n == 2 * (m + n);
      assert 2 * (0x1_0000_0000 * n) == 0x1_0000_0000 * (2 * n);
    }
  }

  lemma {:induction false} ShiftFour(n: nat)
    ensures Shr(n, 4) == n / 16 && Shl(n, 4) == 16 * n
  {
    assert Shr(n, 2) == Shr(n / 2, 1) && Shr(n / 2, 1) == n / 2 / 2;
    assert Shr(n / 4, 2) == Shr(n / 4 / 2, 1) && Shr(n / 4 / 2, 1) == n / 4 / 2 / 2;
    ShrAdd(n, 2, 2);
    assert Shl(n, 2) == Shl(2 * n, 1) && Shl(2 * n, 1) == 4 * n;
    assert Shl(4 * n, 2) == Shl(8 * n, 1) && Shl(8 * n, 1) == 16 * n;
    ShlAdd(n, 2, 2);
  }

  lemma {:induction false} ShiftFive(n: nat)
    ensures Shr(n, 5) == n / 32 && Shl(n, 5) == 32 * n
  {
    ShiftFour(n / 2);
    ShiftFour(2 * n);
  }

  lemma {:induction false} ShiftEight(n: nat, b: Byte)
    ensures Shr(256 * n + b, 8) == n && Shl(n, 8) == 256 * n
  {
    ShiftFour(256 * n + b);
    ShiftFour((256 * n + b) / 16);
    ShrAdd(256 * n + b, 4, 4);
    ShiftFour(n);
    ShiftFour(16 * n);
    ShlAdd(n, 4, 4);
  }

  lemma {:induction false} ShiftWord(n: nat)
    ensures Shl(n, 32) == 0x1_0000_0000 * n
  {
    ShiftEight(n, 0);
    ShiftEight(Shl(n, 8), 0);
    ShiftEight(Shl(n, 16), 0);
    ShiftEight(Shl(n, 24), 0);
    ShlAdd(n, 8, 8);
    ShlAdd(n, 16, 8);
    ShlAdd(n, 24, 8);
  }

  lemma {:induction false} ShlTwice(n: nat, bits: nat)
    ensures Shl(2 * n, bits) == 2 * Shl(n, bits)
  {
    ShlLinear(n, n, bits);
  }

  /** Shifting back what was shifted in leaves the rest shifted. */
  lemma {:induction false} ShrOver(rest: nat, n: nat, bits: nat)
    ensures Shr(rest + Shl(n, bits), bits) == Shr(rest, bits) + n
  {
    if bits > 0 {
      ShlTwice(n, bits - 1);
      assert (rest + Shl(n, bits)) / 2 == rest / 2 + Shl(n, bits - 1);
      ShrOver(rest / 2, n, bits - 1);
    }
  }

  lemma {:induction false} ShrZero(bits: nat)
    ensures Shr(0, bits) == 0
  {
    if bits > 0 {
      ShrZero(bits - 1);
    }
  }

  lemma {:induction false} ShrShl(n: nat, bits: nat)
    ensures Shr(Shl(n, bits), bits) == n
  {
    ShrZero(bits);
    ShrOver(0, n, bits);
  }

  // ----------------------------------------------------------- specification

  /** An accumulator holds the low 32 bits. */
  function ToWord(n: nat): nat {
    n % 0x1_0000_0000
  }

  /** The bytes as one big-endian number. */
  function BigEndian(bytes: seq<Byte>): nat {
    if bytes == [] then 0 else 256 * BigEndian(bytes[..|bytes| - 1]) + bytes[|bytes| - 1]
  }

  lemma {:induction false} AlphabetSize()
    ensures |ALPHABET| == 32
  {
  }

  function Symbol(digit: nat): CodeUnit
    requires digit < 32
  {
    AlphabetSize();
    ALPHABET[digit]
  }

  /** The last `count` base-32 digits of `n`, most significant first. */
  function Symbols(n: nat, count: nat): (t: Text)
    ensures |t| == count
  {
    if count == 0 then [] else Symbols(n / 32, count - 1) + [Symbol(n % 32)]
  }

  /** Zero bits that fill the last digit. */
  function Padding(bytes: nat): (p: nat)
    ensures p < 5
  {
    (5 - 8 * bytes % 5) % 5
  }

  function SymbolCount(bytes: nat): (count: nat)
    ensures 5 * count == 8 * bytes + Padding(bytes)
  {
    (8 * bytes + Padding(bytes)) / 5
  }

  /** The digits of the bytes, padded with zero bits to a whole number of digits. */
  function TokenSymbols(bytes: seq<Byte>): (t: Text)
    ensures |t| == SymbolCount(|bytes|)
  {
    Symbols(Shl(BigEndian(bytes), Padding(|bytes|)), SymbolCount(|bytes|))
  }

  /** `out.match(/.{1,4}/g)`. */
  function Groups(t: Text): seq<Text> {
    if t == [] then [] else if |t| <= 4 then [t] else [t[..4]] + Groups(t[4..])
  }

  function Printed(symbols: Text): Text {
    Join([Ascii("AA")] + Groups(symbols), MINUS)
  }

  // ------------------------------------------------------------ the encoder

  lemma {:induction false} HighPart(high: nat, bits: nat)
    requires bits <= 27
    ensures Shl(32 * Shl(high, 27 - bits), bits) == 0x1_0000_0000 * high
  {
    ShiftFive(Shl(high, 27 - bits));
    ShlAdd(high, 27 - bits, 5);
    ShlAdd(high, 32 - bits, bits);
    ShiftWord(high);
  }

  /** The low word of a number decides its low bits. */
  lemma {:induction false} LowBits(n: nat, bits: nat)
    requires bits <= 27
    ensures Shr(ToWord(n), bits) % 32 == Shr(n, bits) % 32
  {
    var high, low := n / 0x1_0000_0000, n % 0x1_0000_0000;
    var k := Shl(high, 27 - bits);
    HighPart(high, bits);
    ShrOver(low, 32 * k, bits);
    assert n == low + Shl(32 * k, bits);
    Mod32(k, Shr(low, bits));
  }

  /** What was written holds every bit of `n` but the last few. */
  predicate Encoded(out: Text, n: nat, bits: nat) {
    out == Symbols(Shr(n, bits), |out|)
  }

  lemma {:induction false} OneSymbol(out: Text, n: nat, bits: nat)
    requires 5 <= bits <= 12 && Encoded(out, n, bits)
    ensures Encoded(out + [Symbol(Shr(ToWord(n), bits - 5) % 32)], n, bits - 5)
  {
    LowBits(n, bits - 5);
    ShrAdd(n, bits - 5, 5);
    ShiftFive(Shr(n, bits - 5));
  }

  lemma {:induction false} DropByte(n: nat, b: Byte, bits: nat)
    ensures Shr(256 * n + b, bits + 8) == Shr(n, bits)
  {
    ShiftEight(n, b);
    ShrAdd(256 * n + b, 8, bits);
  }

  lemma {:induction false} OneByte(out: Text, n: nat, b: Byte, bits: nat)
    requires Encoded(out, n, bits)
    ensures Encoded(out, 256 * n + b, bits + 8)
  {
    DropByte(n, b, bits);
  }

  lemma {:induction false} WordIs(x: nat, k: nat, r: nat)
    requires x == 0x1_0000_0000 * k + r && r < 0x1_0000_0000
    ensures ToWord(x) == r
  {
  }

  /** Shifting a byte into the accumulator, with the bits that fall off its top. */
  lemma {:induction false} ShiftByte(n: nat, value: nat, b: Byte)
    requires value == ToWord(n)
    ensures ToWord(Shl(value, 8)) + b == ToWord(256 * n + b)
  {
    ShiftEight(value, b);
    TopByteFallsOff(n, b);
  }

  /** A byte comes in: the accumulator and what was written follow the number. */
  lemma {:induction false} TakeByte(out: Text, before: nat, n: nat, value: nat, b: Byte, bits: nat)
    requires n == 256 * before + b && value == ToWord(before) && Encoded(out, before, bits)
    ensures ToWord(Shl(value, 8)) + b == ToWord(n) && Encoded(out, n, bits + 8)
  {
    OneByte(out, before, b, bits);
    ShiftByte(before, value, b);
  }

  lemma {:induction false} TopByteFallsOff(n: nat, b: Byte)
    ensures ToWord(256 * ToWord(n)) + b == ToWord(256 * n + b)
  {
    var high, low := n / 0x1_0000_0000, ToWord(n);
    var over, kept := low / 0x100_0000, low % 0x100_0000;
    assert low == 0x100_0000 * over + kept && n == 0x1_0000_0000 * high + low;
    WordIs(256 * low, over, 256 * kept);
    WordIs(256 * n + b, 256 * high + over, 256 * kept + b);
  }

  lemma {:induction false} ShiftedBits(n: nat, bits: nat)
    ensures ToWord(Shl(ToWord(n), bits)) % 32 == Shl(n, bits) % 32
  {
    var high, low := n / 0x1_0000_0000, n % 0x1_0000_0000;
    ShlLinear(low, high, bits);
    ShlLinear(low, 0x1_0000_0000 * high, bits);
    assert n == low + 0x1_0000_0000 * high;
    SameLowBits(Shl(low, bits), Shl(high, bits));
  }

  lemma {:induction false} SameLowBits(x: nat, k: nat)
    ensures ToWord(x) % 32 == (x + 0x1_0000_0000 * k) % 32
  {
    var q := x / 0x1_0000_0000;
    assert x + 0x1_0000_0000 * k == 32 * (0x800_0000 * (k + q)) + ToWord(x);
    Mod32(0x800_0000 * (k + q), ToWord(x));
  }

  lemma {:induction false} Mod32(k: nat, r: nat)
    ensures (32 * k + r) % 32 == r % 32
  {
  }

  lemma {:induction false} PaddingIs(bytes: nat, bits: nat, written: nat)
    requires bits < 5 && 5 * written + bits == 8 * bytes
    ensures bits == 0 ==> Padding(bytes) == 0 && SymbolCount(bytes) == written
    ensures bits > 0 ==> Padding(bytes) == 5 - bits && SymbolCount(bytes) == written + 1
  {
    assert 8 * bytes % 5 == bits;
  }

  /** The bits left over, filled up with zeros. */
  lemma {:induction false} LastSymbol(out: Text, n: nat, bits: nat)
    requires 0 < bits < 5 && Encoded(out, n, bits)
    ensures out + [Symbol(ToWord(Shl(ToWord(n), 5 - bits)) % 32)] == Symbols(Shl(n, 5 - bits), |out| + 1)
  {
    ShiftedBits(n, 5 - bits);
    ShrShl(n, 5 - bits);
    ShrAdd(Shl(n, 5 - bits), 5 - bits, bits);
    ShiftFive(Shl(n, 5 - bits));
  }

  lemma {:induction false} Finish(out: Text, bytes: seq<Byte>, bits: nat)
    requires bits < 5 && 5 * |out| + bits == 8 * |bytes| && Encoded(out, BigEndian(bytes), bits)
    ensures TokenSymbols(bytes)
         == if bits == 0 then out else out + [Symbol(ToWord(Shl(ToWord(BigEndian(bytes)), 5 - bits)) % 32)]
  {
    PaddingIs(|bytes|, bits, |out|);
    if bits > 0 {
      LastSymbol(out, BigEndian(bytes), bits);
    }
  }

  /** The inner loop: whole digits leave the accumulator while it holds any. */
  method WriteDigits(value: nat, before: nat, written: Text, ghost n: nat) returns (bits: nat, out: Text)
    requires value == ToWord(n) && before <= 12 && Encoded(written, n, before)
    ensures bits < 5 && 5 * |out| + bits == 5 * |written| + before
    ensures Encoded(out, n, bits)
  {
    bits, out := before, written;
    while bits >= 5
      invariant bits <= 12 && 5 * |out| + bits == 5 * |written| + before && Encoded(out, n, bits)
    {
      OneSymbol(out, n, bits);
      bits := bits - 5;
      out := out + [Symbol(Shr(value, bits) % 32)];
    }
  }

  /** The streaming loop writes the digits of the whole number, for any length. */
  method MintVerificationToken(bytes: seq<Byte>) returns (token: Text)
    ensures token == Printed(TokenSymbols(bytes))
  {
    var bits: nat, value: nat := 0, 0;
    var out: Text := [];
    ghost var n: nat := 0;
    for k := 0 to |bytes|
      invariant n == BigEndian(bytes[..k]) && value == ToWord(n)
      invariant bits < 5 && 5 * |out| + bits == 8 * k && Encoded(out, n, bits)
    {
      var b := bytes[k];
      ghost var before := n;
      assert bytes[..k + 1][..k] == bytes[..k];
      n := BigEndian(bytes[..k + 1]);
      TakeByte(out, before, n, value, b, bits);
      value := ToWord(Shl(value, 8)) + b;
      bits, out := WriteDigits(value, bits + 8, out, n);
    }
    assert bytes[..|bytes|] == bytes;
    Finish(out, bytes, bits);
    if bits > 0 {
      out := out + [Symbol(ToWord(Shl(value, 5 - bits)) % 32)];
    }
    return Printed(out);
  }

  // ----------------------------------------------------------------- shape

  lemma {:induction false} AlphabetDistinct(i: nat, j: nat)
    requires i < 32 && j < 32 && Symbol(i) == Symbol(j)
    ensures i == j
  {
    AlphabetIncreases();
    if i < j {
      Rises(i, j);
    } else if j < i {
      Rises(j, i);
    }
  }

  lemma {:induction false} AlphabetIncreases()
    ensures forall i | 0 <= i < 31 :: Symbol(i) < Symbol(i + 1)
  {
  }

  lemma {:induction false} DashIsNoSymbol()
    ensures forall i | 0 <= i < 32 :: Symbol(i) != MINUS
  {
  }

  lemma {:induction false} Rises(i: nat, j: nat)
    requires i < j < 32
    ensures Symbol(i) < Symbol(j)
  {
    AlphabetIncreases();
    if i < j - 1 {
      Rises(i, j - 1);
    }
  }

  predicate InAlphabet(c: CodeUnit) {
    exists d: nat | d < 32 :: Symbol(d) == c
  }

  lemma {:induction false} SymbolsInAlphabet(n: nat, count: nat)
    ensures forall i | 0 <= i < count :: InAlphabet(Symbols(n, count)[i])
  {
    if count > 0 {
      SymbolsInAlphabet(n / 32, count - 1);
      assert InAlphabet(Symbol(n % 32));
    }
  }

  /** The digits determine a number of no more bits. */
  lemma {:induction false} SymbolsDetermine(m: nat, n: nat, count: nat)
    requires Shr(m, 5 * count) == 0 == Shr(n, 5 * count) && Symbols(m, count) == Symbols(n, count)
    ensures m == n
  {
    if count > 0 {
      LastDigits(m, n, count);
      ShrAdd(m, 5, 5 * count - 5);
      ShrAdd(n, 5, 5 * count - 5);
      ShiftFive(m);
      ShiftFive(n);
      SymbolsDetermine(m / 32, n / 32, count - 1);
    }
  }

  lemma {:induction false} LastDigits(m: nat, n: nat, count: nat)
    requires count > 0 && Symbols(m, count) == Symbols(n, count)
    ensures m % 32 == n % 32 && Symbols(m / 32, count - 1) == Symbols(n / 32, count - 1)
  {
    var s, t := Symbols(m, count), Symbols(n, count);
    assert s[..count - 1] == Symbols(m / 32, count - 1) && t[..count - 1] == Symbols(n / 32, count - 1);
    assert s[count - 1] == t[count - 1];
    AlphabetDistinct(m % 32, n % 32);
  }

  lemma {:induction false} BigEndianBound(bytes: seq<Byte>)
    ensures Shr(BigEndian(bytes), 8 * |bytes|) == 0
  {
    if bytes != [] {
      var n := |bytes| - 1;
      BigEndianBound(bytes[..n]);
      DropByte(BigEndian(bytes[..n]), bytes[n], 8 * n);
    }
  }

  lemma {:induction false} BigEndianDetermines(a: seq<Byte>, b: seq<Byte>)
    requires |a| == |b| && BigEndian(a) == BigEndian(b)
    ensures a == b
  {
    if a != [] {
      var n := |a| - 1;
      assert a[n] == b[n] && BigEndian(a[..n]) == BigEndian(b[..n]);
      BigEndianDetermines(a[..n], b[..n]);
      assert a == a[..n] + [a[n]] && b == b[..n] + [b[n]];
    }
  }

  // --------------------------------------------------------------- reading

  /** What a symbol stands for: the digits, and then the letters without I, L, O and U. */
  function SymbolValue(c: CodeUnit): int {
    if 0x30 <= c <= 0x39 then c - 0x30
    else if 0x41 <= c <= 0x48 then c - 0x41 + 10
    else if 0x4A <= c <= 0x4B then c - 0x4A + 18
    else if 0x4D <= c <= 0x4E then c - 0x4D + 20
    else if 0x50 <= c <= 0x54 then c - 0x50 + 22
    else if 0x56 <= c <= 0x5A then c - 0x56 + 27
    else -1
  }

  lemma {:induction false} SymbolsRead()
    ensures forall d: nat | d < 32 :: SymbolValue(Symbol(d)) == d
  {
    AlphabetSize();
  }

  lemma {:induction false} OneSymbolEach(c: CodeUnit, e: CodeUnit)
    requires SymbolValue(c) == SymbolValue(e) >= 0
    ensures c == e
  {
  }

  /** The alphabet is the digits and the capital letters but I, L, O and U, in this order. */
  lemma {:induction false} AlphabetIs(c: CodeUnit)
    ensures InAlphabet(c) <==> SymbolValue(c) >= 0
    ensures InAlphabet(c) <==> 0x30 <= c <= 0x39 || (0x41 <= c <= 0x5A && c != 0x49 && c != 0x4C && c != 0x4F && c != 0x55)
  {
    SymbolsRead();
    if SymbolValue(c) >= 0 {
      OneSymbolEach(c, Symbol(SymbolValue(c)));
    }
  }

  /** The number that symbols stand for, the first the most significant. */
  function ValueOf(symbols: Text): int {
    if symbols == [] then 0
    else 32 * ValueOf(symbols[..|symbols| - 1]) + SymbolValue(symbols[|symbols| - 1])
  }

  lemma {:induction false} SymbolsAreRead(n: nat, count: nat)
    requires Shr(n, 5 * count) == 0
    ensures ValueOf(Symbols(n, count)) == n
  {
    SymbolsRead();
    if count > 0 {
      ShrAdd(n, 5, 5 * count - 5);
      ShiftFive(n);
      SymbolsAreRead(n / 32, count - 1);
      assert Symbols(n, count)[..count - 1] == Symbols(n / 32, count - 1);
    }
  }

  /** Read as one number, the symbols of a token are its bytes, filled up with zero bits. */
  lemma {:induction false} TokenIsRead(bytes: seq<Byte>)
    ensures ValueOf(TokenSymbols(bytes)) == Shl(BigEndian(bytes), Padding(|bytes|))
  {
    PaddedWithin(bytes);
    SymbolsAreRead(Shl(BigEndian(bytes), Padding(|bytes|)), SymbolCount(|bytes|));
  }

  lemma {:induction false} DashesAt(t: Text, k: nat)
    requires MINUS !in t && k < |Join(Groups(t), MINUS)|
    ensures Join(Groups(t), MINUS)[k] == MINUS <==> k % 5 == 4
  {
    if |t| > 4 {
      GroupsJoin(t[4..]);
      JoinFirst(t[..4], Groups(t[4..]));
      if k > 4 {
        DashesAt(t[4..], k - 5);
      }
    }
  }

  /** A dash stands after "AA" and after every fourth symbol, and nowhere else. */
  lemma {:induction false} PrintedDashes(symbols: Text, k: nat)
    requires symbols != [] && MINUS !in symbols && k < |Printed(symbols)|
    ensures Printed(symbols)[k] == MINUS <==> k % 5 == 2
    ensures Printed(symbols)[0] == Printed(symbols)[1] == 0x41
  {
    JoinFirst(Ascii("AA"), Groups(symbols));
    if k > 2 {
      DashesAt(symbols, k - 3);
    }
  }

  // ------------------------------------------------------------- injectivity

  function WithoutDashes(t: Text): Text {
    if t == [] then [] else (if t[0] == MINUS then [] else [t[0]]) + WithoutDashes(t[1..])
  }

  lemma {:induction false} WithoutDashesAppend(a: Text, b: Text)
    ensures WithoutDashes(a + b) == WithoutDashes(a) + WithoutDashes(b)
  {
    if a == [] {
      assert a + b == b;
    } else {
      assert (a + b)[1..] == a[1..] + b;
      WithoutDashesAppend(a[1..], b);
    }
  }

  lemma {:induction false} NoDashes(t: Text)
    requires MINUS !in t
    ensures WithoutDashes(t) == t
  {
    if t != [] {
      NoDashes(t[1..]);
      assert t == [t[0]] + t[1..];
    }
  }

  lemma {:induction false} GroupsJoin(t: Text)
    requires MINUS !in t
    ensures WithoutDashes(Join(Groups(t), MINUS)) == t
    ensures |Join(Groups(t), MINUS)| == |t| + (if t == [] then 0 else (|t| - 1) / 4)
  {
    NoDashes(t);
    if |t| > 4 {
      GroupsJoin(t[4..]);
      JoinFirst(t[..4], Groups(t[4..]));
      NoDashes(t[..4]);
      assert t == t[..4] + t[4..];
    }
  }

  lemma {:induction false} JoinFirst(first: Text, parts: seq<Text>)
    requires parts != []
    ensures Join([first] + parts, MINUS) == first + [MINUS] + Join(parts, MINUS)
    ensures WithoutDashes(Join([first] + parts, MINUS)) == WithoutDashes(first) + WithoutDashes(Join(parts, MINUS))
  {
    assert ([first] + parts)[1..] == parts;
    WithoutDashesAppend(first + [MINUS], Join(parts, MINUS));
    WithoutDashesAppend(first, [MINUS]);
    assert WithoutDashes([MINUS]) == [] by { assert [MINUS][1..] == []; }
  }

  /** The printed token is "AA" and the symbols, with dashes between. */
  lemma {:induction false} PrintedHolds(symbols: Text)
    requires symbols != [] && MINUS !in symbols
    ensures WithoutDashes(Printed(symbols)) == Ascii("AA") + symbols
    ensures |Printed(symbols)| == 3 + |symbols| + (|symbols| - 1) / 4
  {
    GroupsJoin(symbols);
    JoinFirst(Ascii("AA"), Groups(symbols));
    assert Ascii("AA")[0] == 0x41 && Ascii("AA")[1] == 0x41;
    NoDashes(Ascii("AA"));
  }

  lemma {:induction false} TokenHasNoDashes(bytes: seq<Byte>)
    ensures MINUS !in TokenSymbols(bytes)
    ensures forall i | 0 <= i < |TokenSymbols(bytes)| :: InAlphabet(TokenSymbols(bytes)[i])
  {
    NoDashAmong(Shl(BigEndian(bytes), Padding(|bytes|)), SymbolCount(|bytes|));
  }

  lemma {:induction false} NoDashAmong(n: nat, count: nat)
    ensures MINUS !in Symbols(n, count)
    ensures forall i | 0 <= i < |Symbols(n, count)| :: InAlphabet(Symbols(n, count)[i])
  {
    SymbolsInAlphabet(n, count);
    DashIsNoSymbol();
  }

  /** Sixteen bytes make "AA" and 26 alphabet symbols, with a dash before each group of four. */
  lemma {:induction false} TokenShape(bytes: seq<Byte>)
    requires |bytes| == 16
    ensures |TokenSymbols(bytes)| == 26 && |Printed(TokenSymbols(bytes))| == 35
    ensures WithoutDashes(Printed(TokenSymbols(bytes))) == Ascii("AA") + TokenSymbols(bytes)
    ensures forall i | 0 <= i < 26 :: InAlphabet(TokenSymbols(bytes)[i])
    ensures forall k | 0 <= k < 35 :: Printed(TokenSymbols(bytes))[k] == MINUS <==> k % 5 == 2
  {
    TokenHasNoDashes(bytes);
    PrintedHolds(TokenSymbols(bytes));
    forall k | 0 <= k < 35 ensures Printed(TokenSymbols(bytes))[k] == MINUS <==> k % 5 == 2 {
      PrintedDashes(TokenSymbols(bytes), k);
    }
  }

  lemma {:induction false} SameTokenSameSymbols(a: seq<Byte>, b: seq<Byte>)
    requires a != [] && b != [] && Printed(TokenSymbols(a)) == Printed(TokenSymbols(b))
    ensures TokenSymbols(a) == TokenSymbols(b)
  {
    TokenHasNoDashes(a);
    TokenHasNoDashes(b);
    PrintedHolds(TokenSymbols(a));
    PrintedHolds(TokenSymbols(b));
    assert TokenSymbols(a) == (Ascii("AA") + TokenSymbols(a))[2..];
    assert TokenSymbols(b) == (Ascii("AA") + TokenSymbols(b))[2..];
  }

  lemma {:induction false} PaddedWithin(bytes: seq<Byte>)
    ensures Shr(Shl(BigEndian(bytes), Padding(|bytes|)), 5 * SymbolCount(|bytes|)) == 0
  {
    var n, p := BigEndian(bytes), Padding(|bytes|);
    BigEndianBound(bytes);
    ShrAdd(Shl(n, p), p, 8 * |bytes|);
    ShrShl(n, p);
  }

  /** Different random bytes give different tokens. */
  lemma {:induction false} TokensDiffer(a: seq<Byte>, b: seq<Byte>)
    requires |a| == |b| && a != b
    ensures Printed(TokenSymbols(a)) != Printed(TokenSymbols(b))
  {
    if Printed(TokenSymbols(a)) == Printed(TokenSymbols(b)) {
      var p := Padding(|a|);
      SameTokenSameSymbols(a, b);
      PaddedWithin(a);
      PaddedWithin(b);
      SymbolsDetermine(Shl(BigEndian(a), p), Shl(BigEndian(b), p), SymbolCount(|a|));
      ShrShl(BigEndian(a), p);
      ShrShl(BigEndian(b), p);
      BigEndianDetermines(a, b);
    }
  }
}
