/** The JSON values an event payload can hold, and the three encodings of them the
    event log rests on: `canonicalize`, `JSON.stringify` and `JSON.parse`. A number is
    the text that prints it, and an object holds its keys in the order they were written. */
module Json {
  import opened Wrappers
  import opened Texts

  const LBRACE: CodeUnit := 0x7B
  const RBRACE: CodeUnit := 0x7D
  const LBRACKET: CodeUnit := 0x5B
  const RBRACKET: CodeUnit := 0x5D
  const BACKSLASH: CodeUnit := 0x5C
  const LETTER_U: CodeUnit := 0x75

  // "null", "true" and "false"
  const NULL_TEXT: Text := [0x6E, 0x75, 0x6C, 0x6C]
  const TRUE_TEXT: Text := [0x74, 0x72, 0x75, 0x65]
  const FALSE_TEXT: Text := [0x66, 0x61, 0x6C, 0x73, 0x65]

  predicate IsNumberUnit(c: CodeUnit) {
    IsDigit(c) || c == MINUS || c == 0x2B || c == DOT || c == 0x65
  }

  predicate IsLexeme(t: Text) {
    t != [] && (IsDigit(t[0]) || t[0] == MINUS) && forall i | 0 <= i < |t| :: IsNumberUnit(t[i])
  }

  /** The text `JSON.stringify` prints for a finite number; it stands for the number. */
  type Lexeme = t: Text | IsLexeme(t) witness [ZERO]

  /** A plain JavaScript value. `Undefined` may sit in an object field; `NonFinite`
      is NaN or an infinity. */
  datatype Value =
    | Null
    | Bool(b: bool)
    | Num(lexeme: Lexeme)
    | NonFinite
    | Str(s: Text)
    | Arr(items: Values)
    | Obj(fields: Fields)
    | Undefined

  datatype Values = NoItems | Item(head: Value, tail: Values)

  /** Own enumerable properties in their enumeration order. */
  datatype Fields = NoFields | Field(key: Text, value: Value, rest: Fields)

  /** What `canonicalize` accepts: finite numbers, and undefined only as a field. */
  predicate Plain(v: Value) {
    match v
    case NonFinite => false
    case Undefined => false
    case Arr(items) => PlainItems(items)
    case Obj(fields) => PlainFields(fields)
    case _ => true
  }

  predicate PlainItems(items: Values) {
    items.NoItems? || (Plain(items.head) && PlainItems(items.tail))
  }

  predicate PlainFields(fields: Fields) {
    fields.NoFields? || ((fields.value.Undefined? || Plain(fields.value)) && PlainFields(fields.rest))
  }

  /** An object holds each key once, at every depth. */
  predicate UniqueKeys(v: Value) {
    match v
    case Arr(items) => UniqueKeysItems(items)
    case Obj(fields) => UniqueKeysFields(fields)
    case _ => true
  }

  predicate UniqueKeysItems(items: Values) {
    items.NoItems? || (UniqueKeys(items.head) && UniqueKeysItems(items.tail))
  }

  predicate UniqueKeysFields(fields: Fields) {
    fields.NoFields? || (!HasKey(fields.rest, fields.key) && UniqueKeys(fields.value) && UniqueKeysFields(fields.rest))
  }

  /** A value JavaScript can hold. */
  type JsValue = v: Value | UniqueKeys(v) witness Null

  predicate HasKey(fields: Fields, key: Text) {
    fields.Field? && (fields.key == key || HasKey(fields.rest, key))
  }

  function Size(v: Value): (n: nat)
    ensures n > 0
  {
    match v
    case Arr(items) => 1 + SizeOfItems(items)
    case Obj(fields) => 1 + SizeOfFields(fields)
    case _ => 1
  }

  function SizeOfItems(items: Values): nat {
    match items
    case NoItems => 0
    case Item(v, rest) => 1 + Size(v) + SizeOfItems(rest)
  }

  function SizeOfFields(fields: Fields): nat {
    match fields
    case NoFields => 0
    case Field(_, v, rest) => 1 + Size(v) + SizeOfFields(rest)
  }

  // -------------------------------------------------------------- strings

  predicate IsHigh(c: CodeUnit) { 0xD800 <= c <= 0xDBFF }

  predicate IsLow(c: CodeUnit) { 0xDC00 <= c <= 0xDFFF }

  function ToFourHex(c: CodeUnit): (t: Text)
    ensures |t| == 4
  {
    var c1 := c / 16;
    var c2 := c1 / 16;
    var c3 := c2 / 16;
    [HexDigit(c3), HexDigit(c2 % 16), HexDigit(c1 % 16), HexDigit(c % 16)]
  }

  /** Section 7 of RFC 8259 as `JSON.stringify` applies it to one code unit; a
      surrogate gets here only when it is unpaired. */
  function EscapeUnit(c: CodeUnit): (t: Text)
    ensures t != []
  {
    if c == QUOTE || c == BACKSLASH then [BACKSLASH, c]
    else if c == 0x08 then [BACKSLASH, 0x62]
    else if c == TAB then [BACKSLASH, 0x74]
    else if c == LF then [BACKSLASH, 0x6E]
    else if c == 0x0C then [BACKSLASH, 0x66]
    else if c == CR then [BACKSLASH, 0x72]
    else if c < 0x20 || IsHigh(c) || IsLow(c) then [BACKSLASH, LETTER_U] + ToFourHex(c)
    else [c]
  }

  function Escape(s: Text): Text {
    if s == [] then []
    else if |s| >= 2 && IsHigh(s[0]) && IsLow(s[1]) then [s[0], s[1]] + Escape(s[2..])
    else EscapeUnit(s[0]) + Escape(s[1..])
  }

  function Quote(s: Text): Text {
    [QUOTE] + Escape(s) + [QUOTE]
  }

  // ------------------------------------------------------- JSON.stringify

  /** `JSON.stringify` of a value in an array: what it omits elsewhere is `null` there. */
  function Stringify(v: Value): (t: Text)
    ensures t != [] && t[0] != RBRACKET && t[0] != RBRACE
    decreases v
  {
    match v
    case Null => NULL_TEXT
    case Bool(b) => if b then TRUE_TEXT else FALSE_TEXT
    case Num(lexeme) => lexeme
    case NonFinite => NULL_TEXT
    case Str(s) => Quote(s)
    case Arr(items) => [LBRACKET] + StringifyItems(items) + [RBRACKET]
    case Obj(fields) => [LBRACE] + StringifyMembers(fields) + [RBRACE]
    case Undefined => NULL_TEXT
  }

  function StringifyItems(items: Values): (t: Text)
    ensures t == [] <==> items.NoItems?
    ensures t != [] ==> t[0] != RBRACKET
  {
    match items
    case NoItems => []
    case Item(v, NoItems) => Stringify(v)
    case Item(v, rest) => Stringify(v) + [COMMA] + StringifyItems(rest)
  }

  /** Object members, comma separated, skipping fields that are undefined. */
  function StringifyMembers(fields: Fields): (t: Text)
    ensures t != [] ==> t[0] == QUOTE
  {
    match fields
    case NoFields => []
    case Field(k, v, rest) =>
      var more := StringifyMembers(rest);
      if v.Undefined? then more
      else
        var member := Quote(k) + [COLON] + Stringify(v);
        if more == [] then member else member + [COMMA] + more
  }

  /** `JSON.stringify(v)`: `None` is JavaScript's `undefined`. */
  function JsonStringify(v: Value): Option<Text> {
    if v.Undefined? then None else Some(Stringify(v))
  }

  // --------------------------------------------------------- canonicalize

  /** `Object.keys(obj).filter((k) => obj[k] !== undefined)`. */
  function Defined(fields: Fields): (r: Fields)
    ensures SizeOfFields(r) <= SizeOfFields(fields)
  {
    match fields
    case NoFields => NoFields
    case Field(k, v, rest) => if v.Undefined? then Defined(rest) else Field(k, v, Defined(rest))
  }

  function InsertByKey(key: Text, value: Value, fields: Fields): (r: Fields)
    ensures SizeOfFields(r) == 1 + Size(value) + SizeOfFields(fields)
  {
    match fields
    case NoFields => Field(key, value, NoFields)
    case Field(k, v, rest) =>
      if LexLess(k, key) then Field(k, v, InsertByKey(key, value, rest)) else Field(key, value, fields)
  }

  /** `.sort()`: by key, in code-unit order. */
  function SortByKey(fields: Fields): (r: Fields)
    ensures SizeOfFields(r) == SizeOfFields(fields)
  {
    match fields
    case NoFields => NoFields
    case Field(k, v, rest) => InsertByKey(k, v, SortByKey(rest))
  }

  /** `canonicalize`: `None` where the source throws. */
  function Canonicalize(v: Value): Option<Text>
    decreases Size(v)
  {
    match v
    case Null => Some(NULL_TEXT)
    case Bool(b) => Some(if b then TRUE_TEXT else FALSE_TEXT)
    case Num(lexeme) => Some(lexeme)
    case NonFinite => None
    case Str(s) => Some(Quote(s))
    case Arr(items) =>
      (match CanonicalizeItems(items)
       case None => None
       case Some(t) => Some([LBRACKET] + t + [RBRACKET]))
    case Obj(fields) =>
      (match CanonicalizeMembers(SortByKey(Defined(fields)))
       case None => None
       case Some(t) => Some([LBRACE] + t + [RBRACE]))
    case Undefined => None
  }

  function CanonicalizeItems(items: Values): Option<Text>
    decreases SizeOfItems(items)
  {
    match items
    case NoItems => Some([])
    case Item(v, rest) =>
      match (Canonicalize(v), CanonicalizeItems(rest))
      case (Some(t), Some(more)) => Some(if rest.NoItems? then t else t + [COMMA] + more)
      case _ => None
  }

  function CanonicalizeMembers(fields: Fields): Option<Text>
    decreases SizeOfFields(fields)
  {
    match fields
    case NoFields => Some([])
    case Field(k, v, rest) =>
      match (Canonicalize(v), CanonicalizeMembers(rest))
      case (Some(t), Some(more)) =>
        var member := Quote(k) + [COLON] + t;
        Some(if rest.NoFields? then member else member + [COMMA] + more)
      case _ => None
  }

  // ----------------------------------------------------------- JSON.parse

  /** The body of a string literal up to its closing quote, and what follows. */
  function Unescape(t: Text): (r: Option<(Text, Text)>)
    ensures r.Some? ==> |r.value.1| < |t|
  {
    if t == [] then None
    else if t[0] == QUOTE then Some(([], t[1..]))
    else if t[0] < 0x20 then None
    else if t[0] != BACKSLASH then Prepend(Some(t[0]), Unescape(t[1..]))
    else if |t| < 2 then None
    else if t[1] == LETTER_U then
      if |t| < 6 then None else Prepend(FourHex(t[2..6]), Unescape(t[6..]))
    else Prepend(ShortEscape(t[1]), Unescape(t[2..]))
  }

  function Prepend(c: Option<CodeUnit>, r: Option<(Text, Text)>): Option<(Text, Text)> {
    if c.None? || r.None? then None else Some(([c.value] + r.value.0, r.value.1))
  }

  function FourHex(h: Text): Option<CodeUnit>
    requires |h| == 4
  {
    match (HexValue(h[0]), HexValue(h[1]), HexValue(h[2]), HexValue(h[3]))
    case (Some(a), Some(b), Some(c), Some(d)) => Some(0x1000 * a + 0x100 * b + 0x10 * c + d)
    case _ => None
  }

  function ShortEscape(c: CodeUnit): Option<CodeUnit> {
    if c == QUOTE || c == BACKSLASH || c == 0x2F then Some(c)
    else if c == 0x62 then Some(0x08)
    else if c == 0x74 then Some(TAB)
    else if c == 0x6E then Some(LF)
    else if c == 0x66 then Some(0x0C)
    else if c == 0x72 then Some(CR)
    else None
  }

  function NumberRun(t: Text): (n: nat)
    ensures n <= |t|
    ensures forall i | 0 <= i < n :: IsNumberUnit(t[i])
  {
    if t == [] || !IsNumberUnit(t[0]) then 0 else 1 + NumberRun(t[1..])
  }

  /** A value at the start of `t`, and the text after it. */
  function ParseValue(t: Text): (r: Option<(Value, Text)>)
    ensures r.Some? ==> |r.value.1| < |t|
    decreases |t|, 0
  {
    if t == [] then None
    else if t[0] == LBRACE then
      if |t| >= 2 && t[1] == RBRACE then Some((Obj(NoFields), t[2..]))
      else
        match ParseMembers(t[1..])
        case Some((fields, rest)) => Some((Obj(fields), rest))
        case None => None
    else if t[0] == LBRACKET then
      if |t| >= 2 && t[1] == RBRACKET then Some((Arr(NoItems), t[2..]))
      else
        match ParseItems(t[1..])
        case Some((items, rest)) => Some((Arr(items), rest))
        case None => None
    else if t[0] == QUOTE then
      match Unescape(t[1..])
      case Some((s, rest)) => Some((Str(s), rest))
      case None => None
    else if NULL_TEXT <= t then Some((Null, t[4..]))
    else if TRUE_TEXT <= t then Some((Bool(true), t[4..]))
    else if FALSE_TEXT <= t then Some((Bool(false), t[5..]))
    else
      var n := NumberRun(t);
      if n > 0 && (IsDigit(t[0]) || t[0] == MINUS) then Some((Num(t[..n]), t[n..])) else None
  }

  /** One or more values up to the closing bracket. */
  function ParseItems(t: Text): (r: Option<(Values, Text)>)
    ensures r.Some? ==> |r.value.1| < |t|
    decreases |t|, 1
  {
    match ParseValue(t)
    case None => None
    case Some((v, t1)) =>
      if t1 == [] then None
      else if t1[0] == RBRACKET then Some((Item(v, NoItems), t1[1..]))
      else if t1[0] != COMMA then None
      else
        match ParseItems(t1[1..])
        case Some((items, rest)) => Some((Item(v, items), rest))
        case None => None
  }

  /** One or more members up to the closing brace. */
  function ParseMembers(t: Text): (r: Option<(Fields, Text)>)
    ensures r.Some? ==> |r.value.1| < |t|
    decreases |t|, 1
  {
    if t == [] || t[0] != QUOTE then None
    else
      match Unescape(t[1..])
      case None => None
      case Some((k, t1)) =>
        if t1 == [] || t1[0] != COLON then None
        else
          match ParseValue(t1[1..])
          case None => None
          case Some((v, t2)) =>
            if t2 == [] then None
            else if t2[0] == RBRACE then Some((Field(k, v, NoFields), t2[1..]))
            else if t2[0] != COMMA then None
            else
              match ParseMembers(t2[1..])
              case Some((fields, rest)) => Some((Field(k, v, fields), rest))
              case None => None
  }

  /** `JSON.parse(t)` on text without insignificant white space: `None` where it throws. */
  function JsonParse(t: Text): Option<Value> {
    match ParseValue(t)
    case Some((v, rest)) => if rest == [] then Some(v) else None
    case None => None
  }
}
