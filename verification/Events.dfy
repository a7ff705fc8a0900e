/** Device events: the signable object, its hash, and what a chain of hashes binds. */
module Events {
  import opened Wrappers
  import opened Texts
  import opened Numbers
  import opened Json
  import opened JsonCanonical

  datatype Signable = Signable(
    eventId: Text,
    aggregateType: Text,
    aggregateId: Text,
    seqNo: nat,
    eventType: Text,
    payload: Value,
    hlc: Text,
    prevHash: Option<Text>,
    deviceId: Option<Text>,
    actorUserId: Option<Text>)

  datatype DeviceEvent = DeviceEvent(signable: Signable, eventHash: Text, deviceSig: Text)

  // ------------------------------------------------------ object literals

  function FromPairs(pairs: seq<(Text, Value)>): Fields {
    if pairs == [] then NoFields else Field(pairs[0].0, pairs[0].1, FromPairs(pairs[1..]))
  }

  ghost predicate DistinctKeys(pairs: seq<(Text, Value)>) {
    forall i, j | 0 <= i < j < |pairs| :: pairs[i].0 != pairs[j].0
  }

  lemma {:induction false} PairsGet(pairs: seq<(Text, Value)>, i: nat)
    requires i < |pairs| && DistinctKeys(pairs)
    ensures Get(FromPairs(pairs), pairs[i].0) == if pairs[i].1.Undefined? then None else Some(pairs[i].1)
  {
    if i > 0 {
      assert pairs[i] == pairs[1..][i - 1];
      PairsGet(pairs[1..], i - 1);
    }
  }

  lemma {:induction false} PairsNoOtherKey(pairs: seq<(Text, Value)>, key: Text)
    requires forall i | 0 <= i < |pairs| :: pairs[i].0 != key
    ensures !HasKey(FromPairs(pairs), key) && Get(FromPairs(pairs), key).None?
  {
    if pairs != [] {
      PairsNoOtherKey(pairs[1..], key);
    }
  }

  lemma {:induction false} PairsShape(pairs: seq<(Text, Value)>)
    requires DistinctKeys(pairs)
    requires forall i | 0 <= i < |pairs| :: UniqueKeys(pairs[i].1)
    ensures UniqueKeysFields(FromPairs(pairs))
    ensures PlainFields(FromPairs(pairs)) <==> forall i | 0 <= i < |pairs| :: pairs[i].1.Undefined? || Plain(pairs[i].1)
  {
    if pairs != [] {
      PairsNoOtherKey(pairs[1..], pairs[0].0);
      PairsShape(pairs[1..]);
      assert pairs == [pairs[0]] + pairs[1..];
    }
  }

  /** An object literal. */
  function Object(pairs: seq<(Text, Value)>): (v: JsValue)
    requires DistinctKeys(pairs)
    requires forall i | 0 <= i < |pairs| :: UniqueKeys(pairs[i].1)
  {
    PairsShape(pairs);
    Obj(FromPairs(pairs))
  }

  // ------------------------------------------------------ what is hashed

  function Number(n: nat): Value {
    Num(Digits(n))
  }

  function Nullable(t: Option<Text>): Value {
    if t.None? then Null else Str(t.value)
  }

  function SignablePairs(e: Signable): seq<(Text, Value)> {
    [(Ascii("eventId"), Str(e.eventId)),
     (Ascii("aggregateType"), Str(e.aggregateType)),
     (Ascii("aggregateId"), Str(e.aggregateId)),
     (Ascii("seq"), Number(e.seqNo)),
     (Ascii("eventType"), Str(e.eventType)),
     (Ascii("payload"), e.payload),
     (Ascii("hlc"), Str(e.hlc)),
     (Ascii("prevHash"), Nullable(e.prevHash)),
     (Ascii("deviceId"), Nullable(e.deviceId)),
     (Ascii("actorUserId"), Nullable(e.actorUserId))]
  }

  /** The object hashed and signed. */
  function SignablePart(e: Signable): Value {
    Obj(FromPairs(SignablePairs(e)))
  }

  /** `computeEventHash`: `None` where canonicalization throws. SHA-256 over the
      UTF-8 bytes is the parameter `sha`. */
  function EventHash(sha: Text -> Text, e: Signable): Option<Text> {
    match Canonicalize(SignablePart(e))
    case None => None
    case Some(t) => Some(sha(t))
  }

  predicate EventHashMatches(sha: Text -> Text, e: DeviceEvent) {
    EventHash(sha, e.signable) == Some(e.eventHash)
  }

  lemma {:induction false} SignableKeysDistinct(e: Signable)
    ensures DistinctKeys(SignablePairs(e))
  {
    var p := SignablePairs(e);
    assert p[0].0[5] != p[5].0[5];
    assert p[2].0[1] != p[9].0[1];
    assert p[3].0[0] != p[6].0[0];
    assert p[7].0[0] != p[8].0[0];
    assert forall i | 0 <= i < |p| :: |p[i].0| == [7, 13, 11, 3, 9, 7, 3, 8, 8, 11][i];
  }

  lemma {:induction false} SignablePartShape(e: Signable)
    ensures Plain(SignablePart(e)) <==> e.payload.Undefined? || Plain(e.payload)
    ensures UniqueKeys(e.payload) ==> UniqueKeys(SignablePart(e))
  {
    var p := SignablePairs(e);
    SignableKeysDistinct(e);
    assert p[5].1 == e.payload;
    if UniqueKeys(e.payload) {
      PairsShape(p);
    } else {
      PlainPairs(p);
    }
  }

  lemma {:induction false} PlainPairs(pairs: seq<(Text, Value)>)
    ensures PlainFields(FromPairs(pairs)) <==> forall i | 0 <= i < |pairs| :: pairs[i].1.Undefined? || Plain(pairs[i].1)
  {
    if pairs != [] {
      PlainPairs(pairs[1..]);
      assert pairs == [pairs[0]] + pairs[1..];
    }
  }

  /** Hashing throws exactly on a payload that cannot be canonicalized. */
  lemma {:induction false} HashesExactlyPlainPayloads(sha: Text -> Text, e: Signable)
    ensures EventHash(sha, e).Some? <==> e.payload.Undefined? || Plain(e.payload)
  {
    SignablePartShape(e);
    CanonicalizePrintsNormalForm(SignablePart(e));
  }

  /** A key of the object that is signed. */
  predicate IsSignedKey(k: Text) {
    || k == Ascii("eventId") || k == Ascii("aggregateType") || k == Ascii("aggregateId") || k == Ascii("seq")
    || k == Ascii("eventType") || k == Ascii("payload") || k == Ascii("hlc") || k == Ascii("prevHash")
    || k == Ascii("deviceId") || k == Ascii("actorUserId")
  }

  lemma {:induction false} SignedKeys(e: Signable, k: Text)
    ensures Get(FromPairs(SignablePairs(e)), k).Some? ==> IsSignedKey(k)
  {
    if !IsSignedKey(k) {
      PairsNoOtherKey(SignablePairs(e), k);
    }
  }

  lemma {:induction false} SignedAt(e: Signable, fields: Fields, i: nat)
    requires SameValue(SignablePart(e), Obj(fields)) && i < 10
    ensures var (k, v) := SignablePairs(e)[i];
            Get(fields, k).Some? == !v.Undefined? && (!v.Undefined? ==> SameValue(v, Get(fields, k).value))
  {
    SignableKeysDistinct(e);
    PairsGet(SignablePairs(e), i);
    var k := SignablePairs(e)[i].0;
    assert Get(FromPairs(SignablePairs(e)), k).Some? == Get(fields, k).Some?;
  }

  /** `fields` hold the event, each of its ten parts under its name, and nothing else. */
  ghost predicate HoldsEvent(fields: Fields, e: Signable) {
    && Get(fields, Ascii("eventId")) == Some(Str(e.eventId))
    && Get(fields, Ascii("aggregateType")) == Some(Str(e.aggregateType))
    && Get(fields, Ascii("aggregateId")) == Some(Str(e.aggregateId))
    && Get(fields, Ascii("seq")).Some? && Get(fields, Ascii("seq")).value.Num?
    && WholeNumber(Get(fields, Ascii("seq")).value.lexeme) == Some(e.seqNo)
    && Get(fields, Ascii("eventType")) == Some(Str(e.eventType))
    && Get(fields, Ascii("hlc")) == Some(Str(e.hlc))
    && Get(fields, Ascii("prevHash")) == Some(if e.prevHash.Some? then Str(e.prevHash.value) else Null)
    && Get(fields, Ascii("deviceId")) == Some(if e.deviceId.Some? then Str(e.deviceId.value) else Null)
    && Get(fields, Ascii("actorUserId")) == Some(if e.actorUserId.Some? then Str(e.actorUserId.value) else Null)
    && Get(fields, Ascii("payload")).Some? == !e.payload.Undefined?
    && (!e.payload.Undefined? ==> SameValue(e.payload, Get(fields, Ascii("payload")).value))
    && forall k: Text | Get(fields, k).Some? :: IsSignedKey(k)
  }

  lemma {:induction false} SameHoldsEvent(e: Signable, fields: Fields)
    requires SameValue(SignablePart(e), Obj(fields))
    ensures HoldsEvent(fields, e)
  {
    SignedAt(e, fields, 0);
    SignedAt(e, fields, 1);
    SignedAt(e, fields, 2);
    SignedAt(e, fields, 3);
    SignedAt(e, fields, 4);
    SignedAt(e, fields, 5);
    SignedAt(e, fields, 6);
    SignedAt(e, fields, 7);
    SignedAt(e, fields, 8);
    SignedAt(e, fields, 9);
    DigitsRoundTrip(e.seqNo);
    DigitsAreWhole(Digits(e.seqNo));
    forall k: Text | Get(fields, k).Some? ensures IsSignedKey(k) {
      assert Get(FromPairs(SignablePairs(e)), k).Some? == Get(fields, k).Some?;
      SignedKeys(e, k);
    }
  }

  /** The hash is over a text that, parsed, is the event: ten parts under their names, keys in
      ascending order. */
  lemma {:induction false} HashedTextHoldsTheEvent(sha: Text -> Text, e: Signable) returns (text: Text, fields: Fields)
    requires UniqueKeys(e.payload) && (e.payload.Undefined? || Plain(e.payload))
    ensures EventHash(sha, e) == Some(sha(text)) && JsonParse(text) == Some(Obj(fields))
    ensures HoldsEvent(fields, e) && KeysAscend(Obj(fields))
  {
    SignablePartShape(e);
    CanonicalTextMeans(SignablePart(e));
    text := Canonicalize(SignablePart(e)).value;
    fields := JsonParse(text).value.fields;
    SameHoldsEvent(e, fields);
  }

  /** One event: every field equal, and the payload the same JSON value. */
  ghost predicate SameSignable(a: Signable, b: Signable) {
    && a == b.(payload := a.payload)
    && a.payload.Undefined? == b.payload.Undefined?
    && (!a.payload.Undefined? ==> SameValue(a.payload, b.payload))
  }

  /** Objects with the same keys that are the same value agree at each key. */
  lemma {:induction false} SameAtKey(p: seq<(Text, Value)>, q: seq<(Text, Value)>, i: nat)
    requires i < |p| == |q| && p[i].0 == q[i].0 && DistinctKeys(p) && DistinctKeys(q)
    requires SameValue(Obj(FromPairs(p)), Obj(FromPairs(q)))
    ensures p[i].1.Undefined? == q[i].1.Undefined?
    ensures !p[i].1.Undefined? ==> SameValue(p[i].1, q[i].1)
  {
    var f, g := FromPairs(p), FromPairs(q);
    PairsGet(p, i);
    PairsGet(q, i);
    assert Get(f, p[i].0).Some? == Get(g, p[i].0).Some?;
  }

  ghost predicate Agree(v: Value, w: Value) {
    v.Undefined? == w.Undefined? && (!v.Undefined? ==> SameValue(v, w))
  }

  lemma {:induction false} SignablesAgree(a: Signable, b: Signable)
    requires SameValue(SignablePart(a), SignablePart(b))
    ensures forall i | 0 <= i < 10 :: Agree(SignablePairs(a)[i].1, SignablePairs(b)[i].1)
  {
    var p, q := SignablePairs(a), SignablePairs(b);
    SignableKeysDistinct(a);
    SignableKeysDistinct(b);
    forall i | 0 <= i < 10 ensures Agree(p[i].1, q[i].1) {
      assert p[i].0 == q[i].0;
      SameAtKey(p, q, i);
    }
  }

  lemma {:induction false} SameText(s: Option<Text>, t: Option<Text>)
    requires Agree(Nullable(s), Nullable(t))
    ensures s == t
  {
  }

  /** The ten fields of the signable object are exactly what distinguishes events. */
  lemma {:induction false} SameObjectSameEvent(a: Signable, b: Signable)
    requires SameValue(SignablePart(a), SignablePart(b))
    ensures SameSignable(a, b)
  {
    SignablesAgree(a, b);
    var p, q := SignablePairs(a), SignablePairs(b);
    assert Agree(p[3].1, q[3].1);
    DigitsRoundTrip(a.seqNo);
    DigitsRoundTrip(b.seqNo);
    AgreeingTexts(a, b);
    assert Agree(p[5].1, q[5].1);
  }

  lemma {:induction false} AgreeingTexts(a: Signable, b: Signable)
    requires forall i | 0 <= i < 10 :: Agree(SignablePairs(a)[i].1, SignablePairs(b)[i].1)
    ensures a == b.(payload := a.payload, seqNo := a.seqNo)
  {
    var p, q := SignablePairs(a), SignablePairs(b);
    assert Agree(p[0].1, q[0].1) && Agree(p[1].1, q[1].1) && Agree(p[2].1, q[2].1);
    assert Agree(p[4].1, q[4].1) && Agree(p[6].1, q[6].1);
    assert Agree(p[7].1, q[7].1) && Agree(p[8].1, q[8].1) && Agree(p[9].1, q[9].1);
    SameText(Some(a.eventId), Some(b.eventId));
    SameText(Some(a.aggregateType), Some(b.aggregateType));
    SameText(Some(a.aggregateId), Some(b.aggregateId));
    SameText(Some(a.eventType), Some(b.eventType));
    SameText(Some(a.hlc), Some(b.hlc));
    SameText(a.prevHash, b.prevHash);
    SameText(a.deviceId, b.deviceId);
    SameText(a.actorUserId, b.actorUserId);
  }

  // ---------------------------------------------------------- hash chains

  function PrevOf(sha: Text -> Text, chain: seq<Signable>, i: nat): Option<Text>
    requires i <= |chain|
  {
    if i == 0 then None else EventHash(sha, chain[i - 1])
  }

  /** Event `i` can be hashed and carries the hash of the one before it. */
  ghost predicate LinkedAt(sha: Text -> Text, chain: seq<Signable>, i: nat)
    requires i < |chain|
  {
    && UniqueKeys(chain[i].payload)
    && EventHash(sha, chain[i]).Some?
    && chain[i].prevHash == PrevOf(sha, chain, i)
  }

  /** Each event carries the hash of the one before it; the first carries null. */
  ghost predicate Chained(sha: Text -> Text, chain: seq<Signable>) {
    forall i | 0 <= i < |chain| :: LinkedAt(sha, chain, i)
  }

  ghost predicate SameEvents(a: seq<Signable>, b: seq<Signable>) {
    |a| == |b| && forall i | 0 <= i < |a| :: SameSignable(a[i], b[i])
  }

  /** Two different canonical texts, one from each chain, with one hash. */
  ghost predicate Collision(sha: Text -> Text, a: seq<Signable>, b: seq<Signable>) {
    exists i, j :: 0 <= i < |a| && 0 <= j < |b| && CollidingPair(sha, a[i], b[j])
  }

  predicate CollidingPair(sha: Text -> Text, x: Signable, y: Signable) {
    && EventHash(sha, x).Some? && EventHash(sha, x) == EventHash(sha, y)
    && Canonicalize(SignablePart(x)) != Canonicalize(SignablePart(y))
  }

  /** Equal hashes mean the same event, or a collision of `sha`. */
  lemma {:induction false} EqualHashesSameEvent(sha: Text -> Text, x: Signable, y: Signable)
    requires UniqueKeys(x.payload) && UniqueKeys(y.payload)
    requires EventHash(sha, x).Some? && EventHash(sha, x) == EventHash(sha, y)
    ensures SameSignable(x, y) || CollidingPair(sha, x, y)
  {
    if !CollidingPair(sha, x, y) {
      SignablePartShape(x);
      SignablePartShape(y);
      CanonicalTextIdentifiesValues(SignablePart(x), SignablePart(y));
      SameObjectSameEvent(x, y);
    }
  }

  /** The head hash binds the whole chain: two chains with one head hash hold the
      same events in the same order, or they exhibit a collision of `sha`. */
  lemma {:induction false} HeadHashBindsTheChain(sha: Text -> Text, a: seq<Signable>, b: seq<Signable>)
    requires Chained(sha, a) && Chained(sha, b)
    requires PrevOf(sha, a, |a|) == PrevOf(sha, b, |b|)
    ensures SameEvents(a, b) || Collision(sha, a, b)
  {
    EmptyChainHead(sha, a);
    EmptyChainHead(sha, b);
    if a != [] && b != [] {
      BindLast(sha, a, b);
      if !Collision(sha, a, b) {
        ShorterChains(sha, a, b);
        HeadHashBindsTheChain(sha, a[..|a| - 1], b[..|b| - 1]);
        ExtendChains(sha, a, b);
      }
    }
  }

  lemma {:induction false} EmptyChainHead(sha: Text -> Text, chain: seq<Signable>)
    requires Chained(sha, chain)
    ensures PrevOf(sha, chain, |chain|).None? <==> chain == []
  {
    assert chain != [] ==> LinkedAt(sha, chain, |chain| - 1);
  }

  /** One head hash: the last events agree, and so do the heads before them. */
  lemma {:induction false} BindLast(sha: Text -> Text, a: seq<Signable>, b: seq<Signable>)
    requires Chained(sha, a) && Chained(sha, b) && a != [] && b != []
    requires PrevOf(sha, a, |a|) == PrevOf(sha, b, |b|)
    ensures Collision(sha, a, b)
         || (SameSignable(a[|a| - 1], b[|b| - 1]) && PrevOf(sha, a, |a| - 1) == PrevOf(sha, b, |b| - 1))
  {
    var m, n := |a| - 1, |b| - 1;
    assert LinkedAt(sha, a, m) && LinkedAt(sha, b, n);
    EqualHashesSameEvent(sha, a[m], b[n]);
    if CollidingPair(sha, a[m], b[n]) {
      assert Collision(sha, a, b);
    }
  }

  lemma {:induction false} ShorterChains(sha: Text -> Text, a: seq<Signable>, b: seq<Signable>)
    requires Chained(sha, a) && Chained(sha, b) && a != [] && b != []
    requires PrevOf(sha, a, |a| - 1) == PrevOf(sha, b, |b| - 1)
    ensures Chained(sha, a[..|a| - 1]) && Chained(sha, b[..|b| - 1])
    ensures PrevOf(sha, a[..|a| - 1], |a[..|a| - 1]|) == PrevOf(sha, b[..|b| - 1], |b[..|b| - 1]|)
  {
    var m, n := |a| - 1, |b| - 1;
    assert |a[..m]| == m && |b[..n]| == n;
    ChainedPrefix(sha, a, m);
    ChainedPrefix(sha, b, n);
  }

  lemma {:induction false} ExtendChains(sha: Text -> Text, a: seq<Signable>, b: seq<Signable>)
    requires a != [] && b != [] && SameSignable(a[|a| - 1], b[|b| - 1])
    requires SameEvents(a[..|a| - 1], b[..|b| - 1]) || Collision(sha, a[..|a| - 1], b[..|b| - 1])
    ensures SameEvents(a, b) || Collision(sha, a, b)
  {
    ExtendSame(a, b);
    ExtendCollision(sha, a, b, |a| - 1, |b| - 1);
  }

  lemma {:induction false} ExtendSame(a: seq<Signable>, b: seq<Signable>)
    requires a != [] && b != [] && SameSignable(a[|a| - 1], b[|b| - 1])
    ensures SameEvents(a[..|a| - 1], b[..|b| - 1]) ==> SameEvents(a, b)
  {
    var s, t := a[..|a| - 1], b[..|b| - 1];
    if SameEvents(s, t) {
      forall i | 0 <= i < |a| ensures SameSignable(a[i], b[i]) {
        assert i < |s| ==> SameSignable(s[i], t[i]);
      }
    }
  }

  lemma {:induction false} ExtendCollision(sha: Text -> Text, a: seq<Signable>, b: seq<Signable>, m: nat, n: nat)
    requires m <= |a| && n <= |b|
    ensures Collision(sha, a[..m], b[..n]) ==> Collision(sha, a, b)
  {
    if Collision(sha, a[..m], b[..n]) {
      var i, j :| 0 <= i < m && 0 <= j < n && CollidingPair(sha, a[..m][i], b[..n][j]);
      assert CollidingPair(sha, a[i], b[j]);
    }
  }

  lemma {:induction false} ChainedPrefix(sha: Text -> Text, chain: seq<Signable>, n: nat)
    requires Chained(sha, chain) && n <= |chain|
    ensures Chained(sha, chain[..n])
    ensures PrevOf(sha, chain[..n], n) == PrevOf(sha, chain, n)
  {
    forall i | 0 <= i < n ensures LinkedAt(sha, chain[..n], i) {
      assert LinkedAt(sha, chain, i);
    }
  }
}
