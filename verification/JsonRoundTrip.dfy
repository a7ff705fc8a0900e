/** Printing and parsing JSON. */
module JsonRoundTrip {
  import opened Wrappers
  import opened Texts
  import opened Json

  // `JSON.parse` undoes `JSON.stringify` on plain values, up to fields that were undefined
  // and so were never printed.

  /** The value with every undefined field left out. */
  function Clean(v: Value): Value {
    match v
    case Arr(items) => Arr(CleanItems(items))
    case Obj(fields) => Obj(CleanFields(fields))
    case _ => v
  }

  function CleanItems(items: Values): Values {
    match items
    case NoItems => NoItems
    case Item(v, rest) => Item(Clean(v), CleanItems(rest))
  }

  function CleanFields(fields: Fields): Fields {
    match fields
    case NoFields => NoFields
    case Field(k, v, rest) =>
      if v.Undefined? then CleanFields(rest) else Field(k, Clean(v), CleanFields(rest))
  }

  // -------------------------------------------------------------- strings

  lemma {:induction false} HexRoundTrip(d: nat)
    requires d < 16
    ensures HexValue(HexDigit(d)) == Some(d)
  {
  }

  /** Four hex digits hold a code unit. */
  lemma {:induction false} FourHexRoundTrip(c: CodeUnit)
    ensures FourHex(ToFourHex(c)) == Some(c)
  {
    HexRoundTrip(c / 16 / 16 / 16);
    HexRoundTrip(c / 16 / 16 % 16);
    HexRoundTrip(c / 16 % 16);
    HexRoundTrip(c % 16);
  }

  lemma {:induction false} EscapeUnitRoundTrip(c: CodeUnit, tail: Text)
    ensures Unescape(EscapeUnit(c) + tail) == Prepend(Some(c), Unescape(tail))
  {
    var t := EscapeUnit(c) + tail;
    assert t[|EscapeUnit(c)|..] == tail;
    if |EscapeUnit(c)| == 6 {
      FourHexRoundTrip(c);
      assert t[2..6] == ToFourHex(c);
    }
  }

  lemma {:induction false} UnescapeRaw(c: CodeUnit, tail: Text)
    requires c >= 0x20 && c != QUOTE && c != BACKSLASH
    ensures Unescape([c] + tail) == Prepend(Some(c), Unescape(tail))
  {
    assert ([c] + tail)[1..] == tail;
  }

  /** One step of the escaper, read back in front of any text. */
  lemma {:induction false} UnescapeStep(s: Text, end: Text)
    requires s != [] && (|s| >= 2 && IsHigh(s[0]) ==> !IsLow(s[1]))
    ensures Unescape(Escape(s) + end) == Prepend(Some(s[0]), Unescape(Escape(s[1..]) + end))
  {
    EscapeUnitRoundTrip(s[0], Escape(s[1..]) + end);
    assert Escape(s) + end == EscapeUnit(s[0]) + (Escape(s[1..]) + end);
  }

  lemma {:induction false} UnescapePair(h: CodeUnit, l: CodeUnit, tail: Text)
    requires IsHigh(h) && IsLow(l)
    ensures Unescape([h, l] + tail) == Prepend(Some(h), Prepend(Some(l), Unescape(tail)))
  {
    UnescapeRaw(l, tail);
    UnescapeRaw(h, [l] + tail);
    assert [h, l] + tail == [h] + ([l] + tail);
  }

  lemma {:induction false} UnescapePairStep(s: Text, end: Text)
    requires |s| >= 2 && IsHigh(s[0]) && IsLow(s[1])
    ensures Unescape(Escape(s) + end) == Prepend(Some(s[0]), Prepend(Some(s[1]), Unescape(Escape(s[2..]) + end)))
  {
    UnescapePair(s[0], s[1], Escape(s[2..]) + end);
    assert Escape(s) + end == [s[0], s[1]] + (Escape(s[2..]) + end);
  }

  lemma {:induction false} PrependHead(s: Text, rest: Text)
    ensures s != [] ==> Prepend(Some(s[0]), Some((s[1..], rest))) == Some((s, rest))
    ensures |s| >= 2 ==> Prepend(Some(s[0]), Prepend(Some(s[1]), Some((s[2..], rest)))) == Some((s, rest))
  {
    if s != [] {
      assert s == [s[0]] + s[1..];
    }
    if |s| >= 2 {
      assert s == [s[0]] + ([s[1]] + s[2..]);
    }
  }

  lemma {:induction false} UnescapeEnd(rest: Text)
    ensures Unescape([] + ([QUOTE] + rest)) == Some(([], rest))
  {
    assert [] + ([QUOTE] + rest) == [QUOTE] + rest && ([QUOTE] + rest)[1..] == rest;
  }

  /** A quoted string is read back whole, whatever text follows it. */
  lemma {:induction false} EscapeRoundTrip(s: Text, rest: Text)
    ensures Unescape(Escape(s) + ([QUOTE] + rest)) == Some((s, rest))
  {
    PrependHead(s, rest);
    if s == [] {
      UnescapeEnd(rest);
    } else if |s| >= 2 && IsHigh(s[0]) && IsLow(s[1]) {
      EscapeRoundTrip(s[2..], rest);
      UnescapePairStep(s, [QUOTE] + rest);
    } else {
      EscapeRoundTrip(s[1..], rest);
      UnescapeStep(s, [QUOTE] + rest);
    }
  }

  // ------------------------------------------------------ shortest escapes

  /** Surrogates that are not half of a pair. */
  function Unpaired(s: Text): nat {
    if s == [] then 0
    else if |s| >= 2 && IsHigh(s[0]) && IsLow(s[1]) then Unpaired(s[2..])
    else (if IsHigh(s[0]) || IsLow(s[0]) then 1 else 0) + Unpaired(s[1..])
  }

  /** The units it takes to write one, were surrogates never escaped. */
  function WidthOf(c: CodeUnit): nat {
    if IsHigh(c) || IsLow(c) then 1 else |EscapeUnit(c)|
  }

  function Width(s: Text): nat {
    if s == [] then 0 else WidthOf(s[0]) + Width(s[1..])
  }

  lemma {:induction false} EscapeWidth(s: Text)
    ensures |Escape(s)| == Width(s) + 5 * Unpaired(s)
  {
    if s != [] {
      if |s| >= 2 && IsHigh(s[0]) && IsLow(s[1]) {
        EscapeWidth(s[2..]);
        assert s[1..][0] == s[1] && s[1..][1..] == s[2..];
      } else {
        EscapeWidth(s[1..]);
      }
    }
  }

  /** However a text is written as a literal, it is not shorter than as it is printed, but for
      the six units an unpaired surrogate is always given. */
  lemma {:induction false} EscapeIsShortest(s: Text, body: Text)
    requires Unescape(body) == Some((s, []))
    ensures |Escape(s)| + 1 <= |body| + 5 * Unpaired(s)
  {
    EscapeWidth(s);
    WidthWithin(s, body);
  }

  lemma {:induction false} WidthWithin(s: Text, body: Text)
    requires Unescape(body) == Some((s, []))
    ensures Width(s) + 1 <= |body|
    decreases |body|
  {
    if s != [] {
      var n := if body[0] != BACKSLASH then 1 else if body[1] == LETTER_U then 6 else 2;
      UnescapedRest(s, body, n);
      WidthWithin(s[1..], body[n..]);
    } else {
      assert body != [];
    }
  }

  /** One step of reading: the first unit, no wider than what it is read from, and the rest. */
  lemma {:induction false} UnescapedRest(s: Text, body: Text, n: nat)
    requires Unescape(body) == Some((s, [])) && s != []
    requires n == if body[0] != BACKSLASH then 1 else if body[1] == LETTER_U then 6 else 2
    ensures n <= |body| && Unescape(body[n..]) == Some((s[1..], [])) && WidthOf(s[0]) <= n
  {
    var rest := Unescape(body[n..]);
    assert rest.Some? && s == [s[0]] + rest.value.0;
  }

  /** What is escaped by number has four digits, the letters small. */
  lemma {:induction false} HexIsSmall(c: CodeUnit, i: nat)
    requires i < 4
    ensures IsDigit(ToFourHex(c)[i]) || 0x61 <= ToFourHex(c)[i] <= 0x66
  {
  }

  // --------------------------------------------------------------- values

  /** Text after a number that cannot be taken for more of it. */
  predicate EndsNumber(rest: Text) {
    rest == [] || !IsNumberUnit(rest[0])
  }

  lemma {:induction false} NumberRunStops(n: Text, rest: Text)
    requires forall i | 0 <= i < |n| :: IsNumberUnit(n[i])
    requires EndsNumber(rest)
    ensures NumberRun(n + rest) == |n|
  {
    if n == [] {
      assert n + rest == rest;
    } else {
      assert (n + rest)[1..] == n[1..] + rest;
      NumberRunStops(n[1..], rest);
    }
  }

  lemma {:induction false} ParseLexeme(n: Lexeme, rest: Text)
    requires EndsNumber(rest)
    ensures ParseValue(n + rest) == Some((Num(n), rest))
  {
    NumberRunStops(n, rest);
    var t := n + rest;
    assert t[..|n|] == n && t[|n|..] == rest;
    assert t[0] == n[0];
    assert !(NULL_TEXT <= t) && !(TRUE_TEXT <= t) && !(FALSE_TEXT <= t);
  }

  lemma {:induction false} ParseQuoted(s: Text, rest: Text)
    ensures Quote(s) + rest == [QUOTE] + (Escape(s) + ([QUOTE] + rest))
    ensures Unescape((Quote(s) + rest)[1..]) == Some((s, rest))
  {
    EscapeRoundTrip(s, rest);
    Regroup([QUOTE], Escape(s), [QUOTE], rest);
  }

  lemma {:induction false} ParseWord(word: Text, rest: Text)
    requires word in {NULL_TEXT, TRUE_TEXT, FALSE_TEXT}
    ensures ParseValue(word + rest) == Some((if word == NULL_TEXT then Null else Bool(word == TRUE_TEXT), rest))
  {
    var t := word + rest;
    assert t[|word|..] == rest;
    assert t[0] == word[0];
    assert word <= t;
  }

  lemma {:induction false} ParseArray(body: Text, items: Option<Values>, rest: Text)
    requires items.None? ==> body == []
    requires items.Some? ==> body != [] && body[0] != RBRACKET
    requires items.Some? ==> ParseItems(body + ([RBRACKET] + rest)) == Some((items.value, rest))
    ensures ParseValue([LBRACKET] + body + [RBRACKET] + rest)
         == Some((Arr(if items.None? then NoItems else items.value), rest))
  {
    var t := [LBRACKET] + body + [RBRACKET] + rest;
    assert t[1..] == body + ([RBRACKET] + rest);
    if items.None? {
      assert t[2..] == rest;
    }
  }

  lemma {:induction false} ParseObject(body: Text, fields: Option<Fields>, rest: Text)
    requires fields.None? ==> body == []
    requires fields.Some? ==> body != [] && body[0] != RBRACE
    requires fields.Some? ==> ParseMembers(body + ([RBRACE] + rest)) == Some((fields.value, rest))
    ensures ParseValue([LBRACE] + body + [RBRACE] + rest)
         == Some((Obj(if fields.None? then NoFields else fields.value), rest))
  {
    var t := [LBRACE] + body + [RBRACE] + rest;
    assert t[1..] == body + ([RBRACE] + rest);
    if fields.None? {
      assert t[2..] == rest;
    }
  }

  /** Printing a plain value and reading it back gives it without its undefined
      fields, and leaves the following text untouched. */
  lemma {:induction false} ParseStringify(v: Value, rest: Text)
    requires Plain(v) && EndsNumber(rest)
    ensures ParseValue(Stringify(v) + rest) == Some((Clean(v), rest))
    decreases v
  {
    match v
    case Null => ParseWord(NULL_TEXT, rest);
    case Bool(b) => ParseWord(if b then TRUE_TEXT else FALSE_TEXT, rest);
    case Num(lexeme) => ParseLexeme(lexeme, rest);
    case Str(s) => ParseQuoted(s, rest);
    case Arr(items) =>
      if items.Item? {
        ParseStringifyItems(items, rest);
        ParseArray(StringifyItems(items), Some(CleanItems(items)), rest);
      } else {
        ParseArray([], None, rest);
      }
    case Obj(fields) =>
      MembersEmpty(fields);
      if StringifyMembers(fields) != [] {
        ParseStringifyMembers(fields, rest);
        ParseObject(StringifyMembers(fields), Some(CleanFields(fields)), rest);
      } else {
        ParseObject([], None, rest);
      }
  }

  /** One printed item, read back in front of what follows it. */
  lemma {:induction false} ParseElement(t: Text, v: Value, after: Text)
    requires after != [] && ParseValue(t + after) == Some((v, after))
    ensures ParseItems(t + after)
         == if after[0] == RBRACKET then Some((Item(v, NoItems), after[1..]))
            else if after[0] != COMMA || ParseItems(after[1..]).None? then None
            else var r := ParseItems(after[1..]).value; Some((Item(v, r.0), r.1))
  {
  }

  lemma {:induction false} AfterFirst(first: Text, more: Text, end: Text)
    ensures first + [COMMA] + more + end == first + ([COMMA] + (more + end))
    ensures ([COMMA] + (more + end))[1..] == more + end
  {
    Regroup(first, [COMMA], more, end);
  }

  lemma {:induction false} ParseStringifyItems(items: Values, rest: Text)
    requires items.Item? && PlainItems(items)
    ensures ParseItems(StringifyItems(items) + ([RBRACKET] + rest)) == Some((CleanItems(items), rest))
    decreases items
  {
    var Item(v, others) := items;
    var end, more := [RBRACKET] + rest, StringifyItems(others);
    var after := if others.NoItems? then end else [COMMA] + (more + end);
    ParseStringify(v, after);
    ParseElement(Stringify(v), Clean(v), after);
    if others.NoItems? {
      assert end[1..] == rest;
    } else {
      ParseStringifyItems(others, rest);
      AfterFirst(Stringify(v), more, end);
    }
  }

  lemma {:induction false} MembersEmpty(fields: Fields)
    ensures StringifyMembers(fields) == [] <==> CleanFields(fields).NoFields?
  {
    if fields.Field? {
      MembersEmpty(fields.rest);
    }
  }

  /** One printed member, read back in front of what follows it. */
  lemma {:induction false} ParseMember(k: Text, t: Text, v: Value, after: Text)
    requires after != [] && ParseValue(t + after) == Some((v, after))
    ensures ParseMembers(Quote(k) + [COLON] + t + after)
         == if after[0] == RBRACE then Some((Field(k, v, NoFields), after[1..]))
            else if after[0] != COMMA || ParseMembers(after[1..]).None? then None
            else var r := ParseMembers(after[1..]).value; Some((Field(k, v, r.0), r.1))
  {
    var m := [COLON] + (t + after);
    ParseQuoted(k, m);
    Regroup(Quote(k), [COLON], t, after);
    assert m[1..] == t + after;
  }

  lemma {:induction false} ParseStringifyMembers(fields: Fields, rest: Text)
    requires StringifyMembers(fields) != [] && PlainFields(fields)
    ensures ParseMembers(StringifyMembers(fields) + ([RBRACE] + rest)) == Some((CleanFields(fields), rest))
    decreases fields
  {
    var Field(k, v, others) := fields;
    var end := [RBRACE] + rest;
    var more := StringifyMembers(others);
    if v.Undefined? {
      ParseStringifyMembers(others, rest);
    } else {
      MembersEmpty(others);
      var after := if more == [] then end else [COMMA] + (more + end);
      ParseStringify(v, after);
      ParseMember(k, Stringify(v), Clean(v), after);
      if more == [] {
        assert end[1..] == rest;
      } else {
        ParseStringifyMembers(others, rest);
        Regroup(Quote(k) + [COLON] + Stringify(v), [COMMA], more, end);
        assert after[1..] == more + end;
      }
    }
  }

  /** `JSON.parse(JSON.stringify(v))` is `v` without its undefined fields. */
  lemma {:induction false} ParseAfterStringify(v: Value)
    requires Plain(v)
    ensures JsonStringify(v).Some? && JsonParse(JsonStringify(v).value) == Some(Clean(v))
  {
    ParseStringify(v, []);
    assert Stringify(v) + [] == Stringify(v);
  }

  lemma {:induction false} CleanIsPlain(v: Value)
    requires Plain(v)
    ensures Plain(Clean(v)) && Clean(Clean(v)) == Clean(v)
    decreases v
  {
    match v
    case Arr(items) => CleanItemsArePlain(items);
    case Obj(fields) => CleanFieldsArePlain(fields);
    case _ =>
  }

  lemma {:induction false} CleanItemsArePlain(items: Values)
    requires PlainItems(items)
    ensures PlainItems(CleanItems(items)) && CleanItems(CleanItems(items)) == CleanItems(items)
    decreases items
  {
    if items.Item? {
      CleanIsPlain(items.head);
      CleanItemsArePlain(items.tail);
    }
  }

  lemma {:induction false} CleanFieldsArePlain(fields: Fields)
    requires PlainFields(fields)
    ensures PlainFields(CleanFields(fields)) && CleanFields(CleanFields(fields)) == CleanFields(fields)
    decreases fields
  {
    if fields.Field? {
      if !fields.value.Undefined? {
        CleanIsPlain(fields.value);
      }
      CleanFieldsArePlain(fields.rest);
    }
  }
}
