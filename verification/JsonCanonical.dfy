/** Canonical texts. */
module JsonCanonical {
  import opened Wrappers
  import opened Texts
  import opened Json
  import opened JsonRoundTrip

  // `canonicalize` gives two values the same text exactly when they are the same logical
  // value: equal up to the order of keys and to undefined fields.

  // ---------------------------------------------- what "the same value" is

  /** `obj[key]`: `None` for a key that is absent or undefined. */
  function Get(fields: Fields, key: Text): (r: Option<Value>)
    ensures r.Some? ==> Size(r.value) <= SizeOfFields(fields)
  {
    match fields
    case NoFields => None
    case Field(k, v, rest) =>
      if k != key then Get(rest, key) else if v.Undefined? then None else Some(v)
  }

  /** Equality of JSON values: objects are compared key by key. */
  ghost predicate SameValue(v: Value, w: Value)
    decreases Size(v)
  {
    match (v, w)
    case (Arr(a), Arr(b)) => SameItems(a, b)
    case (Obj(f), Obj(g)) =>
      forall k: Text ::
        && Get(f, k).Some? == Get(g, k).Some?
        && (Get(f, k).Some? ==> SameValue(Get(f, k).value, Get(g, k).value))
    case (Arr(_), _) => false
    case (Obj(_), _) => false
    case _ => v == w
  }

  ghost predicate SameItems(a: Values, b: Values)
    decreases SizeOfItems(a)
  {
    a.Item? == b.Item? && (a.Item? ==> SameValue(a.head, b.head) && SameItems(a.tail, b.tail))
  }

  // ---------------------------------------------------------- normal form

  /** Undefined fields dropped and keys sorted, at every depth. */
  function Normalize(v: Value): (r: Value)
    ensures r.Undefined? <==> v.Undefined?
  {
    match v
    case Arr(items) => Arr(NormalizeItems(items))
    case Obj(fields) => Obj(NormalizeFields(fields))
    case _ => v
  }

  function NormalizeItems(items: Values): Values {
    match items
    case NoItems => NoItems
    case Item(v, rest) => Item(Normalize(v), NormalizeItems(rest))
  }

  function NormalizeFields(fields: Fields): Fields {
    match fields
    case NoFields => NoFields
    case Field(k, v, rest) =>
      if v.Undefined? then NormalizeFields(rest) else InsertByKey(k, Normalize(v), NormalizeFields(rest))
  }

  function NormalizeEach(fields: Fields): Fields {
    match fields
    case NoFields => NoFields
    case Field(k, v, rest) => Field(k, Normalize(v), NormalizeEach(rest))
  }

  /** Every field present and plain: what is left to print after filtering. */
  predicate AllPlain(fields: Fields) {
    fields.NoFields? || (Plain(fields.value) && AllPlain(fields.rest))
  }

  lemma {:induction false} InsertEach(k: Text, v: Value, fields: Fields)
    ensures NormalizeEach(InsertByKey(k, v, fields)) == InsertByKey(k, Normalize(v), NormalizeEach(fields))
    ensures AllPlain(InsertByKey(k, v, fields)) <==> Plain(v) && AllPlain(fields)
  {
    if fields.Field? && LexLess(fields.key, k) {
      InsertEach(k, v, fields.rest);
    }
  }

  lemma {:induction false} SortThenNormalize(fields: Fields)
    ensures NormalizeEach(SortByKey(Defined(fields))) == NormalizeFields(fields)
    ensures AllPlain(SortByKey(Defined(fields))) <==> PlainFields(fields)
  {
    if fields.Field? {
      SortThenNormalize(fields.rest);
      if !fields.value.Undefined? {
        InsertEach(fields.key, fields.value, SortByKey(Defined(fields.rest)));
      }
    }
  }

  /** `canonicalize` succeeds exactly on plain values, and then prints the normal form. */
  lemma {:induction false} CanonicalizePrintsNormalForm(v: Value)
    ensures Canonicalize(v) == if Plain(v) then Some(Stringify(Normalize(v))) else None
    decreases Size(v)
  {
    match v
    case Arr(items) => CanonicalItems(items);
    case Obj(fields) =>
      SortThenNormalize(fields);
      CanonicalMembers(SortByKey(Defined(fields)));
    case _ =>
  }

  lemma {:induction false} CanonicalItems(items: Values)
    ensures CanonicalizeItems(items) == if PlainItems(items) then Some(StringifyItems(NormalizeItems(items))) else None
    decreases SizeOfItems(items)
  {
    if items.Item? {
      CanonicalizePrintsNormalForm(items.head);
      CanonicalItems(items.tail);
    }
  }

  lemma {:induction false} CanonicalMembers(fields: Fields)
    ensures CanonicalizeMembers(fields)
         == if AllPlain(fields) then Some(StringifyMembers(NormalizeEach(fields))) else None
    ensures AllPlain(fields) ==> (StringifyMembers(NormalizeEach(fields)) == [] <==> fields.NoFields?)
    decreases SizeOfFields(fields)
  {
    if fields.Field? {
      CanonicalizePrintsNormalForm(fields.value);
      CanonicalMembers(fields.rest);
    }
  }

  // ------------------------------------- the normal form is clean and plain

  lemma {:induction false} NormalFormIsClean(v: Value)
    requires Plain(v)
    ensures Plain(Normalize(v)) && Clean(Normalize(v)) == Normalize(v)
    decreases v
  {
    match v
    case Arr(items) => NormalItemsAreClean(items);
    case Obj(fields) => NormalFieldsAreClean(fields);
    case _ =>
  }

  lemma {:induction false} NormalItemsAreClean(items: Values)
    requires PlainItems(items)
    ensures PlainItems(NormalizeItems(items)) && CleanItems(NormalizeItems(items)) == NormalizeItems(items)
    decreases items
  {
    if items.Item? {
      NormalFormIsClean(items.head);
      NormalItemsAreClean(items.tail);
    }
  }

  lemma {:induction false} NormalFieldsAreClean(fields: Fields)
    requires PlainFields(fields)
    ensures PlainFields(NormalizeFields(fields)) && CleanFields(NormalizeFields(fields)) == NormalizeFields(fields)
    decreases fields
  {
    if fields.Field? {
      NormalFieldsAreClean(fields.rest);
      if !fields.value.Undefined? {
        NormalFormIsClean(fields.value);
        InsertClean(fields.key, Normalize(fields.value), NormalizeFields(fields.rest));
      }
    }
  }

  lemma {:induction false} InsertClean(k: Text, v: Value, fields: Fields)
    requires Plain(v) && Clean(v) == v && PlainFields(fields) && CleanFields(fields) == fields
    ensures PlainFields(InsertByKey(k, v, fields))
    ensures CleanFields(InsertByKey(k, v, fields)) == InsertByKey(k, v, fields)
  {
    if fields.Field? {
      CleanShorter(fields.rest);
      if LexLess(fields.key, k) {
        InsertClean(k, v, fields.rest);
      }
    }
  }

  lemma {:induction false} CleanShorter(fields: Fields)
    ensures FieldCount(CleanFields(fields)) <= FieldCount(fields)
  {
    if fields.Field? {
      CleanShorter(fields.rest);
    }
  }

  function FieldCount(fields: Fields): nat {
    if fields.NoFields? then 0 else 1 + FieldCount(fields.rest)
  }

  /** Dropping undefined fields first does not change the normal form. */
  lemma {:induction false} NormalizeClean(v: Value)
    ensures Normalize(Clean(v)) == Normalize(v)
    decreases v
  {
    match v
    case Arr(items) => NormalizeCleanItems(items);
    case Obj(fields) => NormalizeCleanFields(fields);
    case _ =>
  }

  lemma {:induction false} NormalizeCleanItems(items: Values)
    ensures NormalizeItems(CleanItems(items)) == NormalizeItems(items)
    decreases items
  {
    if items.Item? {
      NormalizeClean(items.head);
      NormalizeCleanItems(items.tail);
    }
  }

  lemma {:induction false} NormalizeCleanFields(fields: Fields)
    ensures NormalizeFields(CleanFields(fields)) == NormalizeFields(fields)
    decreases fields
  {
    if fields.Field? {
      NormalizeClean(fields.value);
      NormalizeCleanFields(fields.rest);
    }
  }

  // ------------------------------------------------- normal forms decide it

  predicate StrictlySorted(fields: Fields) {
    fields.Field? && fields.rest.Field? ==> LexLess(fields.key, fields.rest.key) && StrictlySorted(fields.rest)
  }

  predicate AllDefined(fields: Fields) {
    fields.Field? ==> !fields.value.Undefined? && AllDefined(fields.rest)
  }

  lemma {:induction false} InsertSorted(k: Text, v: Value, fields: Fields)
    requires StrictlySorted(fields) && !HasKey(fields, k)
    ensures StrictlySorted(InsertByKey(k, v, fields))
  {
    if fields.Field? {
      LexTotal(fields.key, k);
      if LexLess(fields.key, k) {
        InsertSorted(k, v, fields.rest);
      }
    }
  }

  lemma {:induction false} InsertKeys(k: Text, v: Value, fields: Fields, key: Text)
    requires !v.Undefined?
    ensures HasKey(InsertByKey(k, v, fields), key) <==> k == key || HasKey(fields, key)
    ensures Get(InsertByKey(k, v, fields), key) == if k == key then Some(v) else Get(fields, key)
    ensures AllDefined(fields) ==> AllDefined(InsertByKey(k, v, fields))
  {
    if fields.Field? && LexLess(fields.key, k) {
      LexIrreflexive(k);
      InsertKeys(k, v, fields.rest, key);
    }
  }

  lemma {:induction false} NormalFieldsSorted(fields: Fields)
    requires UniqueKeysFields(fields)
    ensures StrictlySorted(NormalizeFields(fields)) && AllDefined(NormalizeFields(fields))
  {
    if fields.Field? {
      NormalFieldsSorted(fields.rest);
      NormalFieldsGet(fields.rest, fields.key);
      if !fields.value.Undefined? {
        InsertSorted(fields.key, Normalize(fields.value), NormalizeFields(fields.rest));
        InsertKeys(fields.key, Normalize(fields.value), NormalizeFields(fields.rest), fields.key);
      }
    }
  }

  /** Looking a key up in the normal form. */
  lemma {:induction false} NormalFieldsGet(fields: Fields, key: Text)
    requires UniqueKeysFields(fields)
    ensures HasKey(NormalizeFields(fields), key) ==> HasKey(fields, key)
    ensures HasKey(fields, key) || Get(fields, key).None?
    ensures Get(NormalizeFields(fields), key)
         == if Get(fields, key).None? then None else Some(Normalize(Get(fields, key).value))
  {
    if fields.Field? {
      NormalFieldsGet(fields.rest, key);
      NoKeyNoValue(NormalizeFields(fields.rest), key);
      if !fields.value.Undefined? {
        InsertKeys(fields.key, Normalize(fields.value), NormalizeFields(fields.rest), key);
      }
    }
  }

  lemma {:induction false} NoKeyNoValue(fields: Fields, key: Text)
    ensures !HasKey(fields, key) ==> Get(fields, key).None?
    ensures AllDefined(fields) && Get(fields, key).None? ==> !HasKey(fields, key)
  {
    if fields.Field? {
      NoKeyNoValue(fields.rest, key);
    }
  }

  /** A key below the first key of a sorted list is not in it. */
  lemma {:induction false} BelowIsAbsent(fields: Fields, key: Text)
    requires StrictlySorted(fields) && (fields.Field? ==> LexLess(key, fields.key))
    ensures Get(fields, key).None?
  {
    if fields.Field? {
      LexIrreflexive(key);
      if fields.rest.Field? {
        LexTransitive(key, fields.key, fields.rest.key);
      }
      BelowIsAbsent(fields.rest, key);
    }
  }

  /** Sorted lists that answer every lookup alike are the same list. */
  lemma {:induction false} SortedIsExtensional(f: Fields, g: Fields)
    requires StrictlySorted(f) && StrictlySorted(g) && AllDefined(f) && AllDefined(g)
    requires forall k: Text :: Get(f, k) == Get(g, k)
    ensures f == g
  {
    if f.Field? {
      assert Get(f, f.key) == Get(g, f.key);
    }
    if g.Field? {
      assert Get(f, g.key) == Get(g, g.key);
    }
    if f.Field? && g.Field? {
      LexTotal(f.key, g.key);
      if LexLess(f.key, g.key) {
        BelowIsAbsent(g, f.key);
      } else if LexLess(g.key, f.key) {
        BelowIsAbsent(f, g.key);
      } else {
        BelowIsAbsent(f.rest, f.key);
        BelowIsAbsent(g.rest, g.key);
        forall k: Text ensures Get(f.rest, k) == Get(g.rest, k) {
          assert Get(f, k) == Get(g, k);
        }
        SortedIsExtensional(f.rest, g.rest);
      }
    }
  }

  lemma {:induction false} GetIsPlain(fields: Fields, key: Text)
    requires PlainFields(fields) && UniqueKeysFields(fields) && Get(fields, key).Some?
    ensures Plain(Get(fields, key).value) && UniqueKeys(Get(fields, key).value)
  {
    if fields.key != key {
      GetIsPlain(fields.rest, key);
    }
  }

  /** Two values have one normal form exactly when they are the same value. */
  lemma {:induction false} NormalFormDecides(v: Value, w: Value)
    requires Plain(v) && Plain(w) && UniqueKeys(v) && UniqueKeys(w)
    ensures Normalize(v) == Normalize(w) <==> SameValue(v, w)
    decreases Size(v)
  {
    match (v, w)
    case (Arr(a), Arr(b)) => NormalItemsDecide(a, b);
    case (Obj(f), Obj(g)) => NormalFieldsDecide(f, g);
    case _ =>
  }

  lemma {:induction false} NormalItemsDecide(a: Values, b: Values)
    requires PlainItems(a) && PlainItems(b) && UniqueKeysItems(a) && UniqueKeysItems(b)
    ensures NormalizeItems(a) == NormalizeItems(b) <==> SameItems(a, b)
    decreases SizeOfItems(a)
  {
    if a.Item? && b.Item? {
      NormalFormDecides(a.head, b.head);
      NormalItemsDecide(a.tail, b.tail);
    }
  }

  lemma {:induction false} NormalFieldsDecide(f: Fields, g: Fields)
    requires PlainFields(f) && PlainFields(g) && UniqueKeysFields(f) && UniqueKeysFields(g)
    ensures NormalizeFields(f) == NormalizeFields(g) <==> SameValue(Obj(f), Obj(g))
    decreases SizeOfFields(f)
  {
    var m, n := NormalizeFields(f), NormalizeFields(g);
    NormalFieldsSorted(f);
    NormalFieldsSorted(g);
    forall k: Text
      ensures Get(m, k) == Get(n, k) <==>
              && Get(f, k).Some? == Get(g, k).Some?
              && (Get(f, k).Some? ==> SameValue(Get(f, k).value, Get(g, k).value))
    {
      NormalFieldsGet(f, k);
      NormalFieldsGet(g, k);
      if Get(f, k).Some? && Get(g, k).Some? {
        GetIsPlain(f, k);
        GetIsPlain(g, k);
        NormalFormDecides(Get(f, k).value, Get(g, k).value);
      }
    }
    if forall k: Text :: Get(m, k) == Get(n, k) {
      SortedIsExtensional(m, n);
    }
  }

  // --------------------------------------------------- what the text says

  /** Each key comes before the next, at every depth. */
  ghost predicate KeysAscend(v: Value) {
    match v
    case Arr(items) => KeysAscendIn(items)
    case Obj(fields) => FieldsAscend(fields)
    case _ => true
  }

  ghost predicate KeysAscendIn(items: Values) {
    items.Item? ==> KeysAscend(items.head) && KeysAscendIn(items.tail)
  }

  ghost predicate FieldsAscend(fields: Fields) {
    fields.Field? ==>
      && KeysAscend(fields.value) && FieldsAscend(fields.rest)
      && (fields.rest.Field? ==> ComesBefore(fields.key, fields.rest.key))
  }

  ghost predicate ValuesAscend(fields: Fields) {
    fields.Field? ==> KeysAscend(fields.value) && ValuesAscend(fields.rest)
  }

  lemma {:induction false} InsertAscends(k: Text, v: Value, fields: Fields)
    requires ValuesAscend(fields) && KeysAscend(v)
    ensures ValuesAscend(InsertByKey(k, v, fields))
  {
    if fields.Field? && LexLess(fields.key, k) {
      InsertAscends(k, v, fields.rest);
    }
  }

  lemma {:induction false} SortedAscends(fields: Fields)
    requires StrictlySorted(fields) && ValuesAscend(fields)
    ensures FieldsAscend(fields)
  {
    if fields.Field? {
      if fields.rest.Field? {
        LexLessMeans(fields.key, fields.rest.key);
      }
      SortedAscends(fields.rest);
    }
  }

  lemma {:induction false} NormalFormAscends(v: Value)
    requires UniqueKeys(v)
    ensures KeysAscend(Normalize(v))
    decreases v
  {
    match v
    case Arr(items) => NormalItemsAscend(items);
    case Obj(fields) =>
      NormalValuesAscend(fields);
      NormalFieldsSorted(fields);
      SortedAscends(NormalizeFields(fields));
    case _ =>
  }

  lemma {:induction false} NormalItemsAscend(items: Values)
    requires UniqueKeysItems(items)
    ensures KeysAscendIn(NormalizeItems(items))
    decreases items
  {
    if items.Item? {
      NormalFormAscends(items.head);
      NormalItemsAscend(items.tail);
    }
  }

  lemma {:induction false} NormalValuesAscend(fields: Fields)
    requires UniqueKeysFields(fields)
    ensures ValuesAscend(NormalizeFields(fields))
    decreases fields
  {
    if fields.Field? {
      NormalValuesAscend(fields.rest);
      if !fields.value.Undefined? {
        NormalFormAscends(fields.value);
        InsertAscends(fields.key, Normalize(fields.value), NormalizeFields(fields.rest));
      }
    }
  }

  lemma {:induction false} NormalFormIsSame(v: Value)
    requires UniqueKeys(v)
    ensures SameValue(v, Normalize(v))
    decreases Size(v)
  {
    match v
    case Arr(items) => NormalItemsAreSame(items);
    case Obj(fields) =>
      forall k: Text
        ensures Get(fields, k).Some? == Get(NormalizeFields(fields), k).Some?
        ensures Get(fields, k).Some? ==> SameValue(Get(fields, k).value, Get(NormalizeFields(fields), k).value)
      {
        NormalFieldsGet(fields, k);
        if Get(fields, k).Some? {
          GetIsUnique(fields, k);
          NormalFormIsSame(Get(fields, k).value);
        }
      }
    case _ =>
  }

  lemma {:induction false} NormalItemsAreSame(items: Values)
    requires UniqueKeysItems(items)
    ensures SameItems(items, NormalizeItems(items))
    decreases SizeOfItems(items)
  {
    if items.Item? {
      NormalFormIsSame(items.head);
      NormalItemsAreSame(items.tail);
    }
  }

  lemma {:induction false} GetIsUnique(fields: Fields, key: Text)
    requires UniqueKeysFields(fields) && Get(fields, key).Some?
    ensures UniqueKeys(Get(fields, key).value)
  {
    if fields.key != key {
      GetIsUnique(fields.rest, key);
    }
  }

  // ---------------------------------------------------------- main results

  /** The canonical text of a plain value, parsed, is that value with its keys in ascending
      order of code units at every depth. */
  lemma {:induction false} CanonicalTextMeans(v: Value)
    requires Plain(v) && UniqueKeys(v)
    ensures Canonicalize(v).Some? && JsonParse(Canonicalize(v).value).Some?
    ensures var w := JsonParse(Canonicalize(v).value).value; SameValue(v, w) && KeysAscend(w)
  {
    CanonicalizePrintsNormalForm(v);
    NormalFormIsClean(v);
    ParseAfterStringify(Normalize(v));
    NormalFormIsSame(v);
    NormalFormAscends(v);
  }

  /** `canonicalize` identifies exactly the values that are the same up to key
      order and undefined fields. */
  lemma {:induction false} CanonicalTextIdentifiesValues(v: Value, w: Value)
    requires UniqueKeys(v) && UniqueKeys(w)
    requires Canonicalize(v).Some? && Canonicalize(w).Some?
    ensures Canonicalize(v) == Canonicalize(w) <==> SameValue(v, w)
  {
    CanonicalizePrintsNormalForm(v);
    CanonicalizePrintsNormalForm(w);
    NormalFormIsClean(v);
    NormalFormIsClean(w);
    ParseAfterStringify(Normalize(v));
    ParseAfterStringify(Normalize(w));
    NormalFormDecides(v, w);
  }

  /** Storing a plain value as JSON and reading it back keeps its canonical text. */
  lemma {:induction false} StorageKeepsCanonicalText(v: Value)
    requires Plain(v)
    ensures JsonStringify(v).Some? && JsonParse(JsonStringify(v).value).Some?
    ensures Canonicalize(JsonParse(JsonStringify(v).value).value) == Canonicalize(v)
    ensures Canonicalize(v).Some?
  {
    ParseAfterStringify(v);
    CleanIsPlain(v);
    NormalizeClean(v);
    CanonicalizePrintsNormalForm(v);
    CanonicalizePrintsNormalForm(Clean(v));
  }
}
