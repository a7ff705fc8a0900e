/** The bytes that are hashed. */
module Utf8 {
  import opened Texts
  import opened Json
  import opened JsonCanonical
  import opened Events

  // A canonical text holds no unpaired surrogate, so its UTF-8 bytes determine it, and equal
  // hashes of different texts are collisions.

  type Byte = x: int | 0 <= x < 256

  /** Every surrogate is half of a pair. */
  predicate WellFormed(t: Text) {
    if t == [] then true
    else if IsHigh(t[0]) then |t| >= 2 && IsLow(t[1]) && WellFormed(t[2..])
    else !IsLow(t[0]) && WellFormed(t[1..])
  }

  // ------------------------------------------- canonical text is well formed

  lemma {:induction false} WellFormedAppend(a: Text, b: Text)
    requires WellFormed(a) && WellFormed(b)
    ensures WellFormed(a + b)
  {
    if a == [] {
      assert a + b == b;
    } else if IsHigh(a[0]) {
      assert (a + b)[2..] == a[2..] + b;
      WellFormedAppend(a[2..], b);
    } else {
      assert (a + b)[1..] == a[1..] + b;
      WellFormedAppend(a[1..], b);
    }
  }

  lemma {:induction false} PlainUnits(t: Text)
    requires forall i | 0 <= i < |t| :: t[i] < 0xD800
    ensures WellFormed(t)
  {
    if t != [] {
      PlainUnits(t[1..]);
    }
  }

  lemma {:induction false} EscapedUnit(c: CodeUnit)
    ensures WellFormed(EscapeUnit(c))
  {
    if IsHigh(c) || IsLow(c) || c < 0xD800 {
      PlainUnits(EscapeUnit(c));
    } else {
      assert EscapeUnit(c)[1..] == [];
    }
  }

  lemma {:induction false} EscapedText(s: Text)
    ensures WellFormed(Escape(s))
  {
    if s != [] {
      if |s| >= 2 && IsHigh(s[0]) && IsLow(s[1]) {
        EscapedText(s[2..]);
        assert [s[0], s[1]][2..] == [];
        WellFormedAppend([s[0], s[1]], Escape(s[2..]));
      } else {
        EscapedUnit(s[0]);
        EscapedText(s[1..]);
        WellFormedAppend(EscapeUnit(s[0]), Escape(s[1..]));
      }
    }
  }

  lemma {:induction false} QuotedText(s: Text)
    ensures WellFormed(Quote(s))
  {
    EscapedText(s);
    PlainUnits([QUOTE]);
    WellFormedAppend([QUOTE], Escape(s));
    WellFormedAppend([QUOTE] + Escape(s), [QUOTE]);
  }

  lemma {:induction false} StringifiedText(v: Value)
    ensures WellFormed(Stringify(v))
    decreases v
  {
    match v
    case Str(s) => QuotedText(s);
    case Arr(items) =>
      StringifiedItems(items);
      Bracketed([LBRACKET], StringifyItems(items), [RBRACKET]);
    case Obj(fields) =>
      StringifiedMembers(fields);
      Bracketed([LBRACE], StringifyMembers(fields), [RBRACE]);
    case _ => PlainUnits(Stringify(v));
  }

  lemma {:induction false} Bracketed(left: Text, body: Text, right: Text)
    requires WellFormed(body) && forall i | 0 <= i < |left| :: left[i] < 0xD800
    requires forall i | 0 <= i < |right| :: right[i] < 0xD800
    ensures WellFormed(left + body + right)
  {
    PlainUnits(left);
    PlainUnits(right);
    WellFormedAppend(left, body);
    WellFormedAppend(left + body, right);
  }

  lemma {:induction false} StringifiedItems(items: Values)
    ensures WellFormed(StringifyItems(items))
    decreases items
  {
    if items.Item? {
      StringifiedText(items.head);
      StringifiedItems(items.tail);
      Bracketed([], Stringify(items.head), [COMMA]);
      assert [] + Stringify(items.head) + [COMMA] == Stringify(items.head) + [COMMA];
      WellFormedAppend(Stringify(items.head) + [COMMA], StringifyItems(items.tail));
    }
  }

  lemma {:induction false} StringifiedMembers(fields: Fields)
    ensures WellFormed(StringifyMembers(fields))
    decreases fields
  {
    if fields.Field? {
      StringifiedMembers(fields.rest);
      if !fields.value.Undefined? {
        QuotedText(fields.key);
        StringifiedText(fields.value);
        PlainUnits([COLON]);
        WellFormedAppend(Quote(fields.key), [COLON]);
        WellFormedAppend(Quote(fields.key) + [COLON], Stringify(fields.value));
        var member := Quote(fields.key) + [COLON] + Stringify(fields.value);
        PlainUnits([COMMA]);
        WellFormedAppend(member, [COMMA]);
        WellFormedAppend(member + [COMMA], StringifyMembers(fields.rest));
      }
    }
  }

  /** `canonicalize` never prints an unpaired surrogate, whatever strings it is given. */
  lemma {:induction false} CanonicalTextIsWellFormed(v: Value)
    requires Canonicalize(v).Some?
    ensures WellFormed(Canonicalize(v).value)
  {
    CanonicalizePrintsNormalForm(v);
    StringifiedText(Normalize(v));
  }

  // ----------------------------------------------------------------- UTF-8

  /** The code point at the start, and how many units hold it; an unpaired surrogate
      becomes U+FFFD. */
  function PointAt(t: Text): (nat, nat)
    requires t != []
  {
    if |t| >= 2 && IsHigh(t[0]) && IsLow(t[1]) then
      var high: int, low: int := t[0] - 0xD800, t[1] - 0xDC00;
      (0x1_0000 + high * 0x400 + low, 2)
    else if IsHigh(t[0]) || IsLow(t[0]) then (0xFFFD, 1)
    else (t[0], 1)
  }

  function EncodePoint(c: nat): (bytes: seq<Byte>)
    requires c < 0x11_0000
    ensures bytes != []
  {
    var c1 := c / 0x40;
    var c2 := c1 / 0x40;
    var c3 := c2 / 0x40;
    if c < 0x80 then [c]
    else if c < 0x800 then [0xC0 + c1, 0x80 + c % 0x40]
    else if c < 0x1_0000 then [0xE0 + c2, 0x80 + c1 % 0x40, 0x80 + c % 0x40]
    else [0xF0 + c3, 0x80 + c2 % 0x40, 0x80 + c1 % 0x40, 0x80 + c % 0x40]
  }

  /** `new TextEncoder().encode(t)`. */
  function Encode(t: Text): seq<Byte> {
    if t == [] then []
    else
      var (point, units) := PointAt(t);
      EncodePoint(point) + Encode(t[units..])
  }

  /** The first byte tells how many belong to the code point ... */
  function LengthFrom(first: Byte): (n: nat)
    ensures n > 0
  {
    if first < 0x80 then 1 else if first < 0xE0 then 2 else if first < 0xF0 then 3 else 4
  }

  /** ... and the bytes tell the code point. */
  function PointValue(p: seq<Byte>): int {
    if |p| == 1 then p[0]
    else if |p| == 2 then 0x40 * (p[0] as int - 0xC0) + (p[1] as int - 0x80)
    else if |p| == 3 then 0x1000 * (p[0] as int - 0xE0) + 0x40 * (p[1] as int - 0x80) + (p[2] as int - 0x80)
    else if |p| == 4 then
      0x4_0000 * (p[0] as int - 0xF0) + 0x1000 * (p[1] as int - 0x80) + 0x40 * (p[2] as int - 0x80) + (p[3] as int - 0x80)
    else 0
  }

  /** A code point in UTF-16. */
  function UnitsOf(c: int): Text {
    if 0 <= c < 0x1_0000 then [c]
    else if 0x1_0000 <= c < 0x11_0000 then [0xD800 + (c - 0x1_0000) / 0x400, 0xDC00 + (c - 0x1_0000) % 0x400]
    else []
  }

  /** The other bytes are marked as such, and fewer would not hold the code point. */
  predicate IsPoint(p: seq<Byte>) {
    && (forall k | 0 < k < |p| :: 0x80 <= p[k] < 0xC0)
    && PointValue(p) >= (if |p| == 1 then 0 else if |p| == 2 then 0x80 else if |p| == 3 then 0x800 else 0x1_0000)
  }

  /** Reading, by section 3 of RFC 3629: nothing is read from what is not well formed on. */
  function Decode(bytes: seq<Byte>): Text {
    if bytes == [] || LengthFrom(bytes[0]) > |bytes| || !IsPoint(bytes[..LengthFrom(bytes[0])]) then []
    else
      var n := LengthFrom(bytes[0]);
      UnitsOf(PointValue(bytes[..n])) + Decode(bytes[n..])
  }

  lemma {:induction false} PointRoundTrip(c: nat)
    requires c < 0x11_0000
    ensures |EncodePoint(c)| == LengthFrom(EncodePoint(c)[0])
    ensures PointValue(EncodePoint(c)) == c && IsPoint(EncodePoint(c))
  {
  }

  lemma {:induction false} PointIsRead(c: nat, rest: seq<Byte>)
    requires c < 0x11_0000
    ensures Decode(EncodePoint(c) + rest) == UnitsOf(c) + Decode(rest)
  {
    PointRoundTrip(c);
    var p := EncodePoint(c);
    assert (p + rest)[0] == p[0] && (p + rest)[..|p|] == p && (p + rest)[|p|..] == rest;
  }

  lemma {:induction false} UnitsOfPoint(t: Text)
    requires t != [] && WellFormed(t)
    ensures var (c, n) := PointAt(t);
            n <= |t| && c < 0x11_0000 && UnitsOf(c) == t[..n] && WellFormed(t[n..])
  {
  }

  /** The bytes of a well-formed text, decoded, are that text. */
  lemma {:induction false} DecodeEncode(t: Text)
    requires WellFormed(t)
    ensures Decode(Encode(t)) == t
  {
    if t != [] {
      var (c, n) := PointAt(t);
      UnitsOfPoint(t);
      PointIsRead(c, Encode(t[n..]));
      DecodeEncode(t[n..]);
      assert t == t[..n] + t[n..];
    }
  }

  /** So they determine it. */
  lemma {:induction false} EncodeIsInjective(a: Text, b: Text)
    requires WellFormed(a) && WellFormed(b) && Encode(a) == Encode(b)
    ensures a == b
  {
    DecodeEncode(a);
    DecodeEncode(b);
  }

  /** A collision of event hashes is a collision of the byte hash: two events whose
      canonical texts differ are hashed over different bytes. */
  lemma {:induction false} CollisionsAreOfBytes(digest: seq<Byte> -> Text, x: Signable, y: Signable)
    requires CollidingPair(t => digest(Encode(t)), x, y)
    ensures var a, b := Canonicalize(SignablePart(x)), Canonicalize(SignablePart(y));
            a.Some? && b.Some? && Encode(a.value) != Encode(b.value)
            && digest(Encode(a.value)) == digest(Encode(b.value))
  {
    var a, b := Canonicalize(SignablePart(x)).value, Canonicalize(SignablePart(y)).value;
    CanonicalTextIsWellFormed(SignablePart(x));
    CanonicalTextIsWellFormed(SignablePart(y));
    if Encode(a) == Encode(b) {
      EncodeIsInjective(a, b);
    }
  }
}
