/** The base64 helpers. Shifts, masks and bitwise-or of values below 2^24 are written
    as division, remainder and sum, where the 32-bit operators agree with them. */
module Base64 {
  import opened Texts

  type Byte = x: int | 0 <= x < 256

  const PAD: CodeUnit := 0x3D

  /** `B64_CHARS[i]`. */
  function Symbol(i: nat): CodeUnit
    requires i < 64
  {
    if i < 26 then 0x41 + i
    else if i < 52 then 0x61 + (i - 26)
    else if i < 62 then ZERO + (i - 52)
    else if i == 62 then 0x2B else 0x2F
  }

  predicate IsSymbol(c: CodeUnit) {
    0x41 <= c <= 0x5A || 0x61 <= c <= 0x7A || IsDigit(c) || c == 0x2B || c == 0x2F
  }

  /** `B64_LOOKUP[c]`; only symbols are ever looked up. */
  function Lookup(c: CodeUnit): (i: nat)
    ensures i < 64 && (IsSymbol(c) ==> Symbol(i) == c)
  {
    if !IsSymbol(c) then 0
    else if c == 0x2B then 62
    else if c == 0x2F then 63
    else if IsDigit(c) then c - ZERO + 52
    else if c <= 0x5A then c - 0x41
    else c - 0x61 + 26
  }

  lemma {:induction false} LookupSymbol(i: nat)
    requires i < 64
    ensures IsSymbol(Symbol(i)) && Lookup(Symbol(i)) == i
  {
  }

  // ------------------------------------------------------- specification

  function Min(a: nat, b: nat): nat {
    if a < b then a else b
  }

  /** Byte `i`, or 0 past the end. */
  function At(b: seq<Byte>, i: nat): (n: int)
    ensures 0 <= n < 256
  {
    if i < |b| then b[i] else 0
  }

  /** One to three bytes as four characters. */
  function EncodeGroup(b: seq<Byte>): (t: Text)
    requires 1 <= |b| <= 3
    ensures |t| == 4
  {
    var triple := 0x10000 * At(b, 0) + 0x100 * At(b, 1) + At(b, 2);
    [Symbol(triple / 0x40000 % 64),
     Symbol(triple / 0x1000 % 64),
     if |b| > 1 then Symbol(triple / 0x40 % 64) else PAD,
     if |b| > 2 then Symbol(triple % 64) else PAD]
  }

  function Encode(b: seq<Byte>): Text {
    if b == [] then [] else
      var n := Min(3, |b|);
      EncodeGroup(b[..n]) + Encode(b[n..])
  }

  /** `b64.replace(/[^A-Za-z0-9+/]/g, "")`. */
  function OnlySymbols(t: Text): (r: Text)
    ensures forall i | 0 <= i < |r| :: IsSymbol(r[i])
  {
    if t == [] then []
    else if IsSymbol(t[0]) then [t[0]] + OnlySymbols(t[1..])
    else OnlySymbols(t[1..])
  }

  function Triple(c: Text): (n: nat)
    requires 1 <= |c| <= 4
    ensures n < 0x100_0000
  {
    0x40000 * Lookup(c[0]) + 0x1000 * (if |c| > 1 then Lookup(c[1]) else 0)
    + 0x40 * (if |c| > 2 then Lookup(c[2]) else 0) + (if |c| > 3 then Lookup(c[3]) else 0)
  }

  /** Up to four characters as `floor(3 * |c| / 4)` bytes. */
  function DecodeGroup(c: Text): (b: seq<Byte>)
    requires 1 <= |c| <= 4
    ensures |b| == 3 * |c| / 4
  {
    var triple := Triple(c);
    [triple / 0x10000, triple / 0x100 % 256, triple % 256][..3 * |c| / 4]
  }

  function DecodeSymbols(c: Text): (b: seq<Byte>)
    ensures |b| == 3 * |c| / 4
  {
    if c == [] then [] else
      var n := Min(4, |c|);
      DecodeGroup(c[..n]) + DecodeSymbols(c[n..])
  }

  function Decode(t: Text): seq<Byte> {
    DecodeSymbols(OnlySymbols(t))
  }

  // ------------------------------------------------------------ round trip

  lemma {:induction false} OnlySymbolsConcat(a: Text, b: Text)
    ensures OnlySymbols(a + b) == OnlySymbols(a) + OnlySymbols(b)
  {
    if a == [] {
      assert a + b == b;
    } else {
      assert (a + b)[1..] == a[1..] + b;
      OnlySymbolsConcat(a[1..], b);
    }
  }

  /** The symbols of an encoded group, without its padding. */
  lemma {:induction false} GroupSymbols(b: seq<Byte>)
    requires 1 <= |b| <= 3
    ensures OnlySymbols(EncodeGroup(b)) == EncodeGroup(b)[..|b| + 1]
  {
    var t := EncodeGroup(b);
    var s0, s1, s2, s3 := t[..1], t[1..2], t[2..3], t[3..];
    assert t == s0 + (s1 + (s2 + s3));
    OnlySymbolsConcat(s0, s1 + (s2 + s3));
    OnlySymbolsConcat(s1, s2 + s3);
    OnlySymbolsConcat(s2, s3);
    assert OnlySymbols(s0) == s0 && OnlySymbols(s1) == s1;
    assert OnlySymbols(s2) == if |b| > 1 then s2 else [];
    assert OnlySymbols(s3) == if |b| > 2 then s3 else [];
  }

  /** Four six-bit digits hold a 24-bit number. */
  lemma {:induction false} SixBitDigits(n: nat)
    requires n < 0x100_0000
    ensures n == 0x40000 * (n / 0x40000 % 64) + 0x1000 * (n / 0x1000 % 64) + 0x40 * (n / 0x40 % 64) + n % 64
  {
    var a := n / 64;
    var b := a / 64;
    var c := b / 64;
    assert a == n / 0x40 && b == n / 0x1000 && c == n / 0x40000;
  }

  lemma {:induction false} GroupRoundTrip(b: seq<Byte>)
    requires 1 <= |b| <= 3
    ensures |OnlySymbols(EncodeGroup(b))| == |b| + 1
    ensures DecodeGroup(OnlySymbols(EncodeGroup(b))) == b
  {
    GroupSymbols(b);
    var n := 0x10000 * At(b, 0) + 0x100 * At(b, 1) + At(b, 2);
    GroupTriple(b, n);
    BytesOf(n, At(b, 0), At(b, 1), At(b, 2));
  }

  /** The characters left after padding is dropped still spell the whole number. */
  lemma {:induction false} GroupTriple(b: seq<Byte>, n: int)
    requires 1 <= |b| <= 3 && n == 0x10000 * At(b, 0) + 0x100 * At(b, 1) + At(b, 2)
    ensures Triple(EncodeGroup(b)[..|b| + 1]) == n
  {
    SixBitDigits(n);
    ShortGroupsEndInZero(At(b, 0), At(b, 1));
    TripleOfSymbols(EncodeGroup(b)[..|b| + 1], n / 0x40000 % 64, n / 0x1000 % 64, n / 0x40 % 64, n % 64);
  }

  lemma {:induction false} ShortGroupsEndInZero(b0: int, b1: int)
    ensures (0x10000 * b0) / 0x40 % 64 == 0 && (0x10000 * b0) % 64 == 0
    ensures (0x10000 * b0 + 0x100 * b1) % 64 == 0
  {
    assert 0x10000 * b0 == 0x40 * (0x400 * b0) && 0x400 * b0 == 64 * (16 * b0);
    assert 0x10000 * b0 + 0x100 * b1 == 64 * (0x400 * b0 + 4 * b1);
  }

  lemma {:induction false} TripleOfSymbols(c: Text, d0: nat, d1: nat, d2: nat, d3: nat)
    requires 2 <= |c| <= 4 && d0 < 64 && d1 < 64 && d2 < 64 && d3 < 64
    requires c[0] == Symbol(d0) && c[1] == Symbol(d1)
    requires if |c| > 2 then c[2] == Symbol(d2) else d2 == 0
    requires if |c| > 3 then c[3] == Symbol(d3) else d3 == 0
    ensures Triple(c) == 0x40000 * d0 + 0x1000 * d1 + 0x40 * d2 + d3
  {
    LookupSymbol(d0);
    LookupSymbol(d1);
    LookupSymbol(d2);
    LookupSymbol(d3);
  }

  lemma {:induction false} BytesOf(n: int, b0: int, b1: int, b2: int)
    requires 0 <= b0 < 256 && 0 <= b1 < 256 && 0 <= b2 < 256
    requires n == 0x10000 * b0 + 0x100 * b1 + b2
    ensures n / 0x10000 == b0 && n / 0x100 % 256 == b1 && n % 256 == b2
  {
    assert n / 0x100 == 0x100 * b0 + b1;
  }

  /** Decoding undoes encoding, for every byte string. */
  lemma {:induction false} RoundTrip(b: seq<Byte>)
    ensures Decode(Encode(b)) == b
  {
    if b != [] {
      var n := Min(3, |b|);
      var head, rest := EncodeGroup(b[..n]), Encode(b[n..]);
      OnlySymbolsConcat(head, rest);
      GroupSymbols(b[..n]);
      GroupRoundTrip(b[..n]);
      RoundTrip(b[n..]);
      var c := OnlySymbols(head);
      if n < 3 {
        assert b[n..] == [] && c + OnlySymbols(rest) == c;
        assert c[..|c|] == c;
      } else {
        assert (c + OnlySymbols(rest))[..4] == c && (c + OnlySymbols(rest))[4..] == OnlySymbols(rest);
      }
      assert b == b[..n] + b[n..];
    }
  }

  lemma {:induction false} GroupsOfThree(n: nat)
    requires n > 0
    ensures (n + 2) / 3 == 1 + (n - Min(3, n) + 2) / 3
  {
  }

  /** How many bytes are missing from the last group of three. */
  function Missing(n: nat): (m: nat)
    ensures m < 3 && (n + m) % 3 == 0
  {
    (3 - n % 3) % 3
  }

  lemma {:induction false} MissingBefore(n: nat)
    requires n > 0
    ensures if n <= 3 then Missing(n) == 3 - n else Missing(n) == Missing(n - 3)
  {
  }

  /** As many '=' as bytes are missing from the last group of three, at the end and nowhere
      else; the rest are symbols. */
  lemma {:induction false} EncodedShape(b: seq<Byte>, i: nat)
    requires i < |Encode(b)|
    ensures if i + Missing(|b|) >= |Encode(b)| then Encode(b)[i] == 0x3D else IsSymbol(Encode(b)[i])
  {
    var n := Min(3, |b|);
    MissingBefore(|b|);
    GroupShape(b[..n]);
    if i >= 4 {
      EncodedShape(b[n..], i - 4);
    } else if |b| > 3 {
      EncodedLength(b[n..]);
    }
  }

  lemma {:induction false} GroupShape(b: seq<Byte>)
    requires 1 <= |b| <= 3
    ensures forall i | 0 <= i < 4 :: if i > |b| then EncodeGroup(b)[i] == 0x3D else IsSymbol(EncodeGroup(b)[i])
  {
  }

  lemma {:induction false} EncodedLength(b: seq<Byte>)
    ensures |Encode(b)| == 4 * ((|b| + 2) / 3)
  {
    if b != [] {
      GroupsOfThree(|b|);
      EncodedLength(b[Min(3, |b|)..]);
    }
  }

  // --------------------------------------------------------------- loops

  lemma {:induction false} EncodeStep(b: seq<Byte>, i: nat)
    requires i < |b|
    ensures Encode(b[i..]) == EncodeGroup(b[i..Min(i + 3, |b|)]) + Encode(b[Min(i + 3, |b|)..])
  {
    var n := Min(3, |b| - i);
    assert b[i..][..n] == b[i..Min(i + 3, |b|)];
    assert b[i..][n..] == b[Min(i + 3, |b|)..];
  }

  /** The group that starts at byte `i`. */
  lemma {:induction false} GroupAt(b: seq<Byte>, i: nat)
    requires i < |b|
    ensures var triple := 0x10000 * At(b, i) + 0x100 * At(b, i + 1) + At(b, i + 2);
            EncodeGroup(b[i..Min(i + 3, |b|)])
            == [Symbol(triple / 0x40000 % 64), Symbol(triple / 0x1000 % 64),
                if i + 1 < |b| then Symbol(triple / 0x40 % 64) else PAD,
                if i + 2 < |b| then Symbol(triple % 64) else PAD]
  {
    var group := b[i..Min(i + 3, |b|)];
    assert At(group, 0) == At(b, i) && At(group, 1) == At(b, i + 1) && At(group, 2) == At(b, i + 2);
  }

  lemma {:induction false} Reassociate<T>(a: seq<T>, b: seq<T>, c: seq<T>)
    ensures a + (b + c) == (a + b) + c
  {
  }

  method BytesToBase64(bytes: array<Byte>) returns (out: Text)
    ensures out == Encode(bytes[..])
    ensures |out| == 4 * ((bytes.Length + 2) / 3)
  {
    out := [];
    var i := 0;
    ghost var all := bytes[..];
    while i < bytes.Length
      invariant 0 <= i <= bytes.Length + 2
      invariant out + Encode(all[Min(i, |all|)..]) == Encode(all)
    {
      var b0: int := bytes[i];
      var has1 := i + 1 < bytes.Length;
      var has2 := i + 2 < bytes.Length;
      var b1: int := if has1 then bytes[i + 1] else 0;
      var b2: int := if has2 then bytes[i + 2] else 0;
      var triple := 0x10000 * b0 + 0x100 * b1 + b2;
      var c0, c1 := Symbol(triple / 0x40000 % 64), Symbol(triple / 0x1000 % 64);
      var c2 := if has1 then Symbol(triple / 0x40 % 64) else PAD;
      var c3 := if has2 then Symbol(triple % 64) else PAD;
      var group := [c0, c1, c2, c3];
      EncodeStep(all, i);
      GroupAt(all, i);
      assert group == EncodeGroup(all[i..Min(i + 3, |all|)]);
      Reassociate(out, group, Encode(all[Min(i + 3, |all|)..]));
      out := out + group;
      i := i + 3;
    }
    EncodedLength(all);
  }

  function LookupAt(c: Text, i: nat): (n: nat)
    ensures n < 64
  {
    if i < |c| then Lookup(c[i]) else 0
  }

  function TripleAt(c: Text, i: nat): (n: nat)
    ensures n < 0x100_0000
  {
    0x40000 * LookupAt(c, i) + 0x1000 * LookupAt(c, i + 1) + 0x40 * LookupAt(c, i + 2) + LookupAt(c, i + 3)
  }

  function ThreeBytes(n: nat): (b: seq<Byte>)
    requires n < 0x100_0000
    ensures |b| == 3
  {
    [n / 0x10000, n / 0x100 % 256, n % 256]
  }

  lemma {:induction false} DecodeStep(c: Text, i: nat)
    requires i < |c|
    ensures DecodeSymbols(c[i..])
         == ThreeBytes(TripleAt(c, i))[..3 * Min(4, |c| - i) / 4] + DecodeSymbols(c[Min(i + 4, |c|)..])
  {
    var n := Min(4, |c| - i);
    var group := c[i..Min(i + 4, |c|)];
    assert c[i..][..n] == group;
    assert c[i..][n..] == c[Min(i + 4, |c|)..];
    assert Triple(group) == TripleAt(c, i);
  }

  lemma {:induction false} ThreePuts(
      done: seq<Byte>, p1: seq<Byte>, p2: seq<Byte>, p3: seq<Byte>, b: seq<Byte>, room: nat)
    requires |b| == 3
    requires p1 == done + [b[0]][..Min(1, room)]
    requires p2 == p1 + [b[1]][..Min(2, room) - Min(1, room)]
    requires p3 == p2 + [b[2]][..Min(3, room) - Min(2, room)]
    ensures p3 == done + b[..Min(3, room)]
  {
  }

  /** `written` is what the characters before `4 * rounds` decode to. */
  predicate DecodedSoFar(clean: Text, rounds: nat, written: seq<Byte>) {
    written + DecodeSymbols(clean[Min(4 * rounds, |clean|)..]) == DecodeSymbols(clean)
  }

  /** The source writes into a buffer of the final length at `outPos`; here `out` is
      that buffer, and a write past its end is skipped as there. */
  method Base64ToBytes(b64: Text) returns (out: array<Byte>)
    ensures fresh(out)
    ensures out[..] == Decode(b64)
  {
    var clean := OnlySymbols(b64);
    var byteLen := 3 * |clean| / 4;
    out := new Byte[byteLen](_ => 0);
    var outPos := 0;
    var i := 0;
    ghost var rounds: nat := 0;
    while i < |clean|
      invariant i == 4 * rounds && i <= |clean| + 3
      invariant outPos == Min(3 * rounds, byteLen) <= out.Length == byteLen
      invariant DecodedSoFar(clean, rounds, out[..outPos])
    {
      DecodeRound(clean, rounds, out[..outPos]);
      outPos := PutThree(out, outPos, TripleAt(clean, i));
      i := i + 4;
      rounds := rounds + 1;
    }
    AllRead(|clean|, rounds);
    assert out[..] == out[..outPos];
  }

  lemma {:induction false} ThreeQuarters(q: nat, r: nat)
    ensures 3 * (4 * q + r) / 4 == 3 * q + 3 * r / 4
  {
    assert 3 * (4 * q + r) == 4 * (3 * q) + 3 * r;
  }

  /** One round of the loop: the room left in the buffer is what the remaining
      characters decode to. */
  lemma {:induction false} DecodeRound(c: Text, q: nat, done: seq<Byte>)
    requires 4 * q < |c| && DecodedSoFar(c, q, done)
    ensures 3 * q <= 3 * |c| / 4
    ensures 3 * q + Min(3, 3 * |c| / 4 - 3 * q) == Min(3 * (q + 1), 3 * |c| / 4)
    ensures DecodedSoFar(c, q + 1, done + ThreeBytes(TripleAt(c, 4 * q))[..Min(3, 3 * |c| / 4 - 3 * q)])
  {
    RoundStep(c, q);
    Reassociate(done, ThreeBytes(TripleAt(c, 4 * q))[..Min(3, 3 * |c| / 4 - 3 * q)],
                DecodeSymbols(c[Min(4 * q + 4, |c|)..]));
  }

  lemma {:induction false} RoundStep(c: Text, q: nat)
    requires 4 * q < |c|
    ensures 3 * q <= 3 * |c| / 4
    ensures DecodeSymbols(c[4 * q..])
         == ThreeBytes(TripleAt(c, 4 * q))[..Min(3, 3 * |c| / 4 - 3 * q)] + DecodeSymbols(c[Min(4 * q + 4, |c|)..])
  {
    RoomLeft(|c|, q);
    DecodeStep(c, 4 * q);
  }

  lemma {:induction false} AllRead(length: nat, rounds: nat)
    requires 4 * rounds >= length
    ensures Min(3 * rounds, 3 * length / 4) == 3 * length / 4
  {
    ThreeQuarters(rounds, 0);
  }

  lemma {:induction false} RoomLeft(length: nat, q: nat)
    requires 4 * q < length
    ensures 3 * q <= 3 * length / 4
    ensures 3 * Min(4, length - 4 * q) / 4 == Min(3, 3 * length / 4 - 3 * q)
  {
    ThreeQuarters(q, length - 4 * q);
  }

  /** The three guarded writes of one round. */
  method PutThree(out: array<Byte>, outPos: nat, triple: nat) returns (next: nat)
    requires outPos <= out.Length && triple < 0x100_0000
    modifies out
    ensures next == outPos + Min(3, out.Length - outPos)
    ensures out[..next] == old(out[..outPos]) + ThreeBytes(triple)[..next - outPos]
  {
    ghost var done := out[..outPos];
    next := Put(out, outPos, triple / 0x10000);
    ghost var p1 := out[..next];
    next := Put(out, next, triple / 0x100 % 256);
    ghost var p2 := out[..next];
    next := Put(out, next, triple % 256);
    ThreePuts(done, p1, p2, out[..next], ThreeBytes(triple), out.Length - outPos);
  }

  /** `if (outPos < byteLen) out[outPos++] = b`. */
  method Put(out: array<Byte>, outPos: nat, b: Byte) returns (next: nat)
    requires outPos <= out.Length
    modifies out
    ensures next == Min(outPos + 1, out.Length)
    ensures out[..next] == old(out[..outPos]) + [b][..next - outPos]
  {
    next := outPos;
    if outPos < out.Length {
      out[outPos] := b;
      next := outPos + 1;
    }
  }
}

/** What the encoding says, read by the table of the standard. */
module Base64Reading {
  import opened Texts
  import opened Base64

  /** The value of a symbol in table 1 of RFC 4648; '=' stands for zero bits. */
  function Sextet(c: CodeUnit): nat {
    if 0x41 <= c <= 0x5A then c - 0x41
    else if 0x61 <= c <= 0x7A then c - 0x61 + 26
    else if 0x30 <= c <= 0x39 then c - 0x30 + 52
    else if c == 0x2B then 62
    else if c == 0x2F then 63
    else 0
  }

  lemma {:induction false} SymbolReads(i: nat)
    requires i < 64
    ensures Sextet(Symbol(i)) == i
  {
  }

  /** The number four characters at `i` stand for. */
  function SextetsAt(t: Text, i: nat): nat
    requires i + 4 <= |t|
  {
    0x40000 * Sextet(t[i]) + 0x1000 * Sextet(t[i + 1]) + 0x40 * Sextet(t[i + 2]) + Sextet(t[i + 3])
  }

  /** The number three bytes at `i` make, zeros past the end. */
  function BytesAt(b: seq<Byte>, i: nat): nat {
    0x10000 * At(b, i) + 0x100 * At(b, i + 1) + At(b, i + 2)
  }

  lemma {:induction false} MultipleOf64(n: nat, k: nat)
    requires n == 64 * k
    ensures n / 64 == k && n % 64 == 0
  {
  }

  /** Sextets past the last byte hold nothing. */
  lemma {:induction false} NothingBelow(n: nat, k: nat)
    ensures n == 0x10000 * k ==> n / 0x40 % 64 == 0 && n % 64 == 0
    ensures n == 0x100 * k ==> n % 64 == 0
  {
    if n == 0x10000 * k {
      MultipleOf64(n, 1024 * k);
      MultipleOf64(1024 * k, 16 * k);
    } else if n == 0x100 * k {
      MultipleOf64(n, 4 * k);
    }
  }

  lemma {:induction false} FourSymbols(t: Text, p: nat, q: nat, r: nat, s: nat)
    requires |t| == 4 && p < 64 && q < 64 && r < 64 && s < 64
    requires t[0] == Symbol(p) && t[1] == Symbol(q)
    requires t[2] == Symbol(r) || (t[2] == PAD && r == 0)
    requires t[3] == Symbol(s) || (t[3] == PAD && s == 0)
    ensures SextetsAt(t, 0) == 0x40000 * p + 0x1000 * q + 0x40 * r + s
  {
    SymbolReads(p);
    SymbolReads(q);
    SymbolReads(r);
    SymbolReads(s);
  }

  lemma {:induction false} FirstGroupReads(b: seq<Byte>)
    requires 1 <= |b| <= 3
    ensures SextetsAt(EncodeGroup(b), 0) == BytesAt(b, 0)
  {
    var triple := 0x10000 * At(b, 0) + 0x100 * At(b, 1) + At(b, 2);
    SixBitDigits(triple);
    NothingBelow(triple, At(b, 0));
    NothingBelow(triple, 0x100 * At(b, 0) + At(b, 1));
    FourSymbols(EncodeGroup(b), triple / 0x40000 % 64, triple / 0x1000 % 64, triple / 0x40 % 64, triple % 64);
  }

  lemma {:induction false} LaterGroup(group: Text, rest: Text, b: seq<Byte>, i: nat, j: nat)
    requires |group| == 4 && i + 4 <= |rest| && |b| > 3
    ensures SextetsAt(group + rest, i + 4) == SextetsAt(rest, i)
    ensures BytesAt(b, j + 3) == BytesAt(b[3..], j)
  {
  }

  lemma {:induction false} FirstGroup(group: Text, rest: Text, b: seq<Byte>)
    requires |group| == 4
    ensures SextetsAt(group + rest, 0) == SextetsAt(group, 0)
    ensures BytesAt(b, 0) == BytesAt(b[..Min(3, |b|)], 0)
  {
  }

  /** Every four characters are the three bytes they stand for. */
  lemma {:induction false} GroupIsRead(b: seq<Byte>, k: nat)
    requires 3 * k < |b|
    ensures 4 * k + 4 <= |Encode(b)| && SextetsAt(Encode(b), 4 * k) == BytesAt(b, 3 * k)
  {
    var n := Min(3, |b|);
    var group, rest := EncodeGroup(b[..n]), Encode(b[n..]);
    if k == 0 {
      FirstGroupReads(b[..n]);
      FirstGroup(group, rest, b);
    } else {
      GroupIsRead(b[3..], k - 1);
      LaterGroup(group, rest, b, 4 * (k - 1), 3 * (k - 1));
    }
  }
}
