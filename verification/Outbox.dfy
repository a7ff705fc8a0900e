/** Authoring, and what every run of it keeps. */
module Outbox {
  import opened Wrappers
  import opened Texts
  import opened Json
  import opened JsonRoundTrip
  import opened JsonCanonical
  import opened Events
  import opened Hlc
  import opened Store

  /** SHA-256 over UTF-8, and the device's signature, as functions. */
  datatype Device = Device(deviceId: Text, actorUserId: Option<Text>, sha: Text -> Text, sign: Text -> Text)

  /** What a caller passes to `author`, with the random event id and the wall clock. */
  datatype Draft = Draft(
    aggregateType: Text, aggregateId: Text, eventType: Text, payload: JsValue, eventId: Text, now: int)

  /** `CannotCanonicalize`, `BadStamp` and `ConstraintViolated` are the ways `author` throws. */
  datatype AuthorError = CannotCanonicalize | BadStamp | ConstraintViolated

  function ChainHeadOf(rows: seq<OutboxRow>): Option<Text> {
    if rows == [] then None else Some(rows[|rows| - 1].eventHash)
  }

  /** `resumeClock`: from the last row, or a fresh clock. */
  function ResumeClock(d: Device, rows: seq<OutboxRow>): Option<HlcState> {
    if rows == [] then Some(HlcInit(d.deviceId))
    else
      match Decode(rows[|rows| - 1].hlc)
      case None => None
      case Some(last) => Some(last.(nodeId := d.deviceId))
  }

  function SignableFor(d: Device, rows: seq<OutboxRow>, draft: Draft, clock: HlcState): Signable {
    Signable(draft.eventId, draft.aggregateType, draft.aggregateId,
             MaxSeq(rows, draft.aggregateType, draft.aggregateId) + 1,
             draft.eventType, draft.payload, Encode(HlcSend(clock, draft.now)), ChainHeadOf(rows),
             Some(d.deviceId), d.actorUserId)
  }

  function RowFor(e: DeviceEvent, payloadJson: Text, deviceId: Text): OutboxRow {
    var s := e.signable;
    OutboxRow(s.eventId, s.aggregateType, s.aggregateId, s.seqNo, s.eventType, payloadJson, s.hlc, s.prevHash,
              e.eventHash, e.deviceSig, s.actorUserId, deviceId, false)
  }

  /** What `author` returns and the row it writes, as a function of the outbox. */
  function Authored(d: Device, rows: seq<OutboxRow>, draft: Draft): Result<(DeviceEvent, OutboxRow), AuthorError> {
    match ResumeClock(d, rows)
    case None => Failure(BadStamp)
    case Some(clock) =>
      var signable := SignableFor(d, rows, draft, clock);
      match EventHash(d.sha, signable)
      case None => Failure(CannotCanonicalize)
      case Some(hash) =>
        var event := DeviceEvent(signable, hash, d.sign(hash));
        match JsonStringify(draft.payload)
        case None => Failure(ConstraintViolated) // payload_json is NOT NULL
        case Some(json) =>
          var row := RowFor(event, json, d.deviceId);
          if Conflicts(rows, row) then Failure(ConstraintViolated) else Success((event, row))
  }

  /** `toDeviceEvent`: `None` where `JSON.parse` throws. */
  function ToDeviceEvent(row: OutboxRow): Option<DeviceEvent> {
    match JsonParse(row.payloadJson)
    case None => None
    case Some(payload) =>
      Some(DeviceEvent(
        Signable(row.eventId, row.aggregateType, row.aggregateId, row.seqNo, row.eventType, payload, row.hlc,
                 row.prevHash, Some(row.deviceId), row.actorUserId),
        row.eventHash, row.deviceSig))
  }

  lemma {:induction false} RowIsOfEvent(d: Device, rows: seq<OutboxRow>, draft: Draft)
    requires Authored(d, rows, draft).Success?
    ensures var (event, row) := Authored(d, rows, draft).value;
            row.eventId == event.signable.eventId && row.hlc == event.signable.hlc
  {
  }

  class EventAuthor {
    const store: FieldStore
    const device: Device

    constructor (store: FieldStore, device: Device)
      ensures this.store == store && this.device == device
    {
      this.store, this.device := store, device;
    }

    /** Reads the head, then appends: calls must not overlap, so one call is one step. */
    method Author(draft: Draft) returns (r: Result<DeviceEvent, AuthorError>)
      modifies store`outbox
      ensures match Authored(device, old(store.outbox), draft)
              case Failure(e) => r == Failure(e) && store.outbox == old(store.outbox)
              case Success((event, row)) => r == Success(event) && store.outbox == old(store.outbox) + [row]
    {
      var seqNo := store.NextSeq(draft.aggregateType, draft.aggregateId);
      var prevHash := store.ChainHead();
      var clock: HlcState;
      match store.LastHlc() {
        case None =>
          clock := HlcInit(device.deviceId);
        case Some(last) =>
          var decoded := Decode(last);
          if decoded.None? {
            return Failure(BadStamp);
          }
          clock := decoded.value.(nodeId := device.deviceId);
      }
      var stamp := Encode(HlcSend(clock, draft.now));
      var signable := Signable(draft.eventId, draft.aggregateType, draft.aggregateId, seqNo, draft.eventType,
                               draft.payload, stamp, prevHash, Some(device.deviceId), device.actorUserId);
      var hash := EventHash(device.sha, signable);
      if hash.None? {
        return Failure(CannotCanonicalize);
      }
      var event := DeviceEvent(signable, hash.value, device.sign(hash.value));
      var json := JsonStringify(draft.payload);
      if json.None? {
        return Failure(ConstraintViolated);
      }
      var ok := store.AppendOutbox(RowFor(event, json.value, device.deviceId));
      if !ok {
        return Failure(ConstraintViolated);
      }
      return Success(event);
    }
  }

  // -------------------------------------------------------- the good log
  //
  // One unbroken hash chain, sequence numbers 1..n per aggregate, strictly increasing
  // stamps, and rows whose stored payload re-hashes to the stored hash.

  /** How many of the first `n` rows belong to an aggregate. */
  function CountOf(rows: seq<OutboxRow>, n: nat, aggregateType: Text, aggregateId: Text): nat
    requires n <= |rows|
  {
    if n == 0 then 0
    else CountOf(rows, n - 1, aggregateType, aggregateId)
         + (if SameAggregate(rows[n - 1], aggregateType, aggregateId) then 1 else 0)
  }

  function PrevHashAt(rows: seq<OutboxRow>, i: nat): Option<Text>
    requires i <= |rows|
  {
    if i == 0 then None else Some(rows[i - 1].eventHash)
  }

  /** A stored row rebuilds an event of this device that hashes to the stored hash. */
  predicate Survives(d: Device, row: OutboxRow) {
    && row.deviceId == d.deviceId && row.actorUserId == d.actorUserId
    && row.deviceSig == d.sign(row.eventHash)
    && ToDeviceEvent(row).Some?
    && UniqueKeys(ToDeviceEvent(row).value.signable.payload)
    && EventHashMatches(d.sha, ToDeviceEvent(row).value)
  }

  predicate ClockMovedOn(rows: seq<OutboxRow>, i: nat)
    requires i < |rows|
  {
    && Decode(rows[i].hlc).Some? && NonNegative(Decode(rows[i].hlc).value)
    && (i > 0 ==> Decode(rows[i - 1].hlc).Some? && Later(Decode(rows[i - 1].hlc).value, Decode(rows[i].hlc).value))
  }

  /** Row `i` continues the rows before it. */
  ghost predicate GoodRow(d: Device, rows: seq<OutboxRow>, i: nat)
    requires i < |rows|
  {
    && rows[i].prevHash == PrevHashAt(rows, i)
    && rows[i].seqNo == CountOf(rows, i, rows[i].aggregateType, rows[i].aggregateId) + 1
    && ClockMovedOn(rows, i)
    && Survives(d, rows[i])
  }

  ghost predicate DistinctIds(rows: seq<OutboxRow>) {
    forall i, j | 0 <= i < j < |rows| :: rows[i].eventId != rows[j].eventId
  }

  ghost predicate GoodLog(d: Device, rows: seq<OutboxRow>) {
    DistinctIds(rows) && forall i | 0 <= i < |rows| :: GoodRow(d, rows, i)
  }

  // ------------------------------------------------- every author keeps it

  lemma {:induction false} CountIsLocal(r: seq<OutboxRow>, s: seq<OutboxRow>, n: nat, ty: Text, id: Text)
    requires n <= |r| && n <= |s|
    requires forall i | 0 <= i < n :: SameAggregate(r[i], ty, id) == SameAggregate(s[i], ty, id)
    ensures CountOf(r, n, ty, id) == CountOf(s, n, ty, id)
  {
    if n > 0 {
      CountIsLocal(r, s, n - 1, ty, id);
    }
  }

  /** Equal but for the sync flag. */
  predicate SameRow(a: OutboxRow, b: OutboxRow) {
    a.(acked := false) == b.(acked := false)
  }

  ghost predicate SameRows(r: seq<OutboxRow>, s: seq<OutboxRow>) {
    |r| == |s| && forall i | 0 <= i < |r| :: SameRow(r[i], s[i])
  }

  lemma {:induction false} GoodLogIgnoresFlags(d: Device, r: seq<OutboxRow>, s: seq<OutboxRow>)
    requires GoodLog(d, r) && SameRows(r, s)
    ensures GoodLog(d, s)
  {
    forall i | 0 <= i < |s| ensures GoodRow(d, s, i) {
      assert GoodRow(d, r, i) && SameRow(r[i], s[i]);
      assert i > 0 ==> SameRow(r[i - 1], s[i - 1]);
      forall k | 0 <= k < i
        ensures SameAggregate(r[k], s[i].aggregateType, s[i].aggregateId)
             == SameAggregate(s[k], s[i].aggregateType, s[i].aggregateId)
      {
        assert SameRow(r[k], s[k]);
      }
      CountIsLocal(r, s, i, s[i].aggregateType, s[i].aggregateId);
    }
    forall i, j | 0 <= i < j < |s| ensures s[i].eventId != s[j].eventId {
      assert SameRow(r[i], s[i]) && SameRow(r[j], s[j]);
    }
  }

  /** Row `i` carries the next number of its aggregate. */
  predicate Numbered(rows: seq<OutboxRow>, i: nat)
    requires i < |rows|
  {
    rows[i].seqNo == CountOf(rows, i, rows[i].aggregateType, rows[i].aggregateId) + 1
  }

  lemma {:induction false} NumberedBefore(rows: seq<OutboxRow>, n: nat)
    requires n <= |rows| && forall i | 0 <= i < |rows| :: Numbered(rows, i)
    ensures forall i | 0 <= i < n :: Numbered(rows[..n], i)
  {
    forall i | 0 <= i < n ensures Numbered(rows[..n], i) {
      assert Numbered(rows, i);
      CountIsLocal(rows[..n], rows, i, rows[i].aggregateType, rows[i].aggregateId);
    }
  }

  /** With no gaps, the largest sequence number is the number of rows. */
  lemma {:induction false} MaxSeqIsCount(rows: seq<OutboxRow>, ty: Text, id: Text)
    requires forall i | 0 <= i < |rows| :: Numbered(rows, i)
    ensures MaxSeq(rows, ty, id) == CountOf(rows, |rows|, ty, id)
  {
    if rows != [] {
      var n := |rows| - 1;
      NumberedBefore(rows, n);
      MaxSeqIsCount(rows[..n], ty, id);
      CountIsLocal(rows[..n], rows, n, ty, id);
      assert Numbered(rows, n);
    }
  }

  lemma {:induction false} CleanKeepsUniqueKeys(v: Value)
    requires UniqueKeys(v)
    ensures UniqueKeys(Clean(v))
    decreases v
  {
    match v
    case Arr(items) => CleanItemsKeepUniqueKeys(items);
    case Obj(fields) => CleanFieldsKeepUniqueKeys(fields);
    case _ =>
  }

  lemma {:induction false} CleanItemsKeepUniqueKeys(items: Values)
    requires UniqueKeysItems(items)
    ensures UniqueKeysItems(CleanItems(items))
    decreases items
  {
    if items.Item? {
      CleanKeepsUniqueKeys(items.head);
      CleanItemsKeepUniqueKeys(items.tail);
    }
  }

  lemma {:induction false} CleanFieldsKeepUniqueKeys(fields: Fields)
    requires UniqueKeysFields(fields)
    ensures UniqueKeysFields(CleanFields(fields))
    decreases fields
  {
    if fields.Field? {
      CleanKeepsUniqueKeys(fields.value);
      CleanFieldsKeepUniqueKeys(fields.rest);
      CleanHasNoNewKey(fields.rest, fields.key);
    }
  }

  lemma {:induction false} CleanHasNoNewKey(fields: Fields, key: Text)
    ensures HasKey(CleanFields(fields), key) ==> HasKey(fields, key)
  {
    if fields.Field? {
      CleanHasNoNewKey(fields.rest, key);
    }
  }

  lemma {:induction false} CleanPairs(e: Signable)
    ensures NormalizeFields(FromPairs(SignablePairs(e.(payload := Clean(e.payload)))))
         == NormalizeFields(FromPairs(SignablePairs(e)))
  {
    var p, q := SignablePairs(e), SignablePairs(e.(payload := Clean(e.payload)));
    NormalizeClean(e.payload);
    assert q == p[5 := (p[5].0, Clean(e.payload))];
    NormalizePairs(p, q);
  }

  /** Two events that differ only in how undefined fields of the payload are held. */
  lemma {:induction false} CleanPayloadSameHash(sha: Text -> Text, e: Signable)
    requires Plain(e.payload)
    ensures EventHash(sha, e.(payload := Clean(e.payload))) == EventHash(sha, e)
  {
    var c := e.(payload := Clean(e.payload));
    CleanIsPlain(e.payload);
    SignablePartShape(e);
    SignablePartShape(c);
    CanonicalizePrintsNormalForm(SignablePart(e));
    CanonicalizePrintsNormalForm(SignablePart(c));
    CleanPairs(e);
  }

  lemma {:induction false} NormalizePairs(p: seq<(Text, Value)>, q: seq<(Text, Value)>)
    requires |p| == |q|
    requires forall i | 0 <= i < |p| :: p[i].0 == q[i].0 && Normalize(p[i].1) == Normalize(q[i].1)
    ensures NormalizeFields(FromPairs(p)) == NormalizeFields(FromPairs(q))
  {
    if p != [] {
      NormalizePairs(p[1..], q[1..]);
    }
  }

  /** Every authored event survives storage: printed, parsed back and rebuilt, it
      hashes to the hash stored beside it. */
  lemma {:induction false} AuthoredEventSurvives(d: Device, rows: seq<OutboxRow>, draft: Draft)
    requires Authored(d, rows, draft).Success?
    ensures Survives(d, Authored(d, rows, draft).value.1)
    ensures ToDeviceEvent(Authored(d, rows, draft).value.1).value.eventHash
         == Authored(d, rows, draft).value.0.eventHash
  {
    var (event, row) := Authored(d, rows, draft).value;
    HashesExactlyPlainPayloads(d.sha, event.signable);
    assert Plain(draft.payload);
    ParseAfterStringify(draft.payload);
    CleanKeepsUniqueKeys(draft.payload);
    CleanPayloadSameHash(d.sha, event.signable);
  }

  lemma {:induction false} NewRowCounts(d: Device, rows: seq<OutboxRow>, row: OutboxRow)
    requires GoodLog(d, rows)
    ensures MaxSeq(rows, row.aggregateType, row.aggregateId)
         == CountOf(rows + [row], |rows|, row.aggregateType, row.aggregateId)
  {
    forall i | 0 <= i < |rows|
      ensures Numbered(rows, i)
    {
      assert GoodRow(d, rows, i);
    }
    MaxSeqIsCount(rows, row.aggregateType, row.aggregateId);
    CountIsLocal(rows, rows + [row], |rows|, row.aggregateType, row.aggregateId);
  }

  lemma {:induction false} NewRowMovesClock(d: Device, rows: seq<OutboxRow>, row: OutboxRow, now: int)
    requires GoodLog(d, rows) && ResumeClock(d, rows).Some?
    requires row.hlc == Encode(HlcSend(ResumeClock(d, rows).value, now))
    ensures ClockMovedOn(rows + [row], |rows|)
  {
    var clock := ResumeClock(d, rows).value;
    if rows != [] {
      assert GoodRow(d, rows, |rows| - 1);
    }
    SendMovesOn(clock, now);
    DecodeEncode(HlcSend(clock, now));
  }

  /** The clock an outbox stands at. */
  function ClockOf(rows: seq<OutboxRow>): HlcState
    requires rows != [] ==> Decode(rows[|rows| - 1].hlc).Some?
  {
    if rows == [] then HlcState(0, 0, []) else Decode(rows[|rows| - 1].hlc).value
  }

  /** The stamp of an authored event names the device, is later than the last one and not
      before the wall clock, and no earlier one would do. */
  lemma {:induction false} AuthoredStampIsEarliest(d: Device, rows: seq<OutboxRow>, draft: Draft, other: HlcState)
    requires GoodLog(d, rows) && Authored(d, rows, draft).Success?
    ensures rows != [] ==> Decode(rows[|rows| - 1].hlc).Some?
    ensures var stamp := Decode(Authored(d, rows, draft).value.1.hlc);
            && stamp.Some? && stamp.value.nodeId == d.deviceId
            && stamp.value.physical >= draft.now && Later(ClockOf(rows), stamp.value)
            && (other.counter >= 0 && other.physical >= draft.now && Later(ClockOf(rows), other) ==>
                  !Later(other, stamp.value))
  {
    if rows != [] {
      assert GoodRow(d, rows, |rows| - 1);
    }
    NewRowShape(d, rows, draft);
    var clock := ResumeClock(d, rows).value;
    SendMovesOn(clock, draft.now);
    DecodeEncode(HlcSend(clock, draft.now));
    if other.counter >= 0 && other.physical >= draft.now && Later(ClockOf(rows), other) {
      SendIsEarliest(clock, draft.now, other);
    }
  }

  lemma {:induction false} GoodLogResumes(d: Device, rows: seq<OutboxRow>)
    requires GoodLog(d, rows)
    ensures ResumeClock(d, rows).Some?
  {
    if rows != [] {
      assert GoodRow(d, rows, |rows| - 1);
    }
  }

  lemma {:induction false} NewRowShape(d: Device, rows: seq<OutboxRow>, draft: Draft)
    requires Authored(d, rows, draft).Success?
    ensures var row := Authored(d, rows, draft).value.1;
            && ResumeClock(d, rows).Some?
            && row.hlc == Encode(HlcSend(ResumeClock(d, rows).value, draft.now))
            && row.prevHash == ChainHeadOf(rows)
            && row.seqNo == MaxSeq(rows, row.aggregateType, row.aggregateId) + 1
            && !Conflicts(rows, row)
  {
  }

  /** One `author` call, for any draft and any wall clock, keeps the log good. */
  lemma {:induction false} AuthorKeepsGoodLog(d: Device, rows: seq<OutboxRow>, draft: Draft)
    requires GoodLog(d, rows) && Authored(d, rows, draft).Success?
    ensures GoodLog(d, rows + [Authored(d, rows, draft).value.1])
  {
    var row := Authored(d, rows, draft).value.1;
    NewRowShape(d, rows, draft);
    NewRowCounts(d, rows, row);
    NewRowMovesClock(d, rows, row, draft.now);
    AuthoredEventSurvives(d, rows, draft);
    GoodLogExtends(d, rows, row);
  }

  lemma {:induction false} GoodLogExtends(d: Device, rows: seq<OutboxRow>, row: OutboxRow)
    requires GoodLog(d, rows) && !Conflicts(rows, row) && Survives(d, row)
    requires row.prevHash == ChainHeadOf(rows)
    requires row.seqNo == CountOf(rows + [row], |rows|, row.aggregateType, row.aggregateId) + 1
    requires ClockMovedOn(rows + [row], |rows|)
    ensures GoodLog(d, rows + [row])
  {
    var after := rows + [row];
    forall i | 0 <= i < |rows| ensures GoodRow(d, after, i) {
      OldRowStaysGood(d, rows, row, i);
    }
    assert GoodRow(d, after, |rows|);
    DistinctIdsExtend(rows, row);
  }

  lemma {:induction false} OldRowStaysGood(d: Device, rows: seq<OutboxRow>, row: OutboxRow, i: nat)
    requires i < |rows| && GoodRow(d, rows, i)
    ensures GoodRow(d, rows + [row], i)
  {
    CountIsLocal(rows, rows + [row], i, rows[i].aggregateType, rows[i].aggregateId);
  }

  lemma {:induction false} DistinctIdsExtend(rows: seq<OutboxRow>, row: OutboxRow)
    requires DistinctIds(rows) && !Conflicts(rows, row)
    ensures DistinctIds(rows + [row])
  {
  }

  /** On a good log `author` throws for two reasons only: a payload that cannot be
      canonicalized or stored, and an event id already used. */
  lemma {:induction false} AuthorSucceedsExactlyWhen(d: Device, rows: seq<OutboxRow>, draft: Draft)
    requires GoodLog(d, rows)
    ensures Authored(d, rows, draft).Success?
       <==> Plain(draft.payload) && forall i | 0 <= i < |rows| :: rows[i].eventId != draft.eventId
  {
    GoodLogResumes(d, rows);
    var signable := SignableFor(d, rows, draft, ResumeClock(d, rows).value);
    HashesExactlyPlainPayloads(d.sha, signable);
    NextSeqIsUnused(rows, draft.aggregateType, draft.aggregateId);
  }

  lemma {:induction false} NextSeqIsUnused(rows: seq<OutboxRow>, ty: Text, id: Text)
    ensures forall i | 0 <= i < |rows| && SameAggregate(rows[i], ty, id) :: rows[i].seqNo <= MaxSeq(rows, ty, id)
  {
    if rows != [] {
      var before := rows[..|rows| - 1];
      NextSeqIsUnused(before, ty, id);
      assert forall i | 0 <= i < |before| :: before[i] == rows[i];
    }
  }

  // ------------------------------------------------------------ every run

  /** The outbox after a run of `author` calls; one that throws writes nothing. */
  function AuthorRun(d: Device, drafts: seq<Draft>): seq<OutboxRow> {
    if drafts == [] then []
    else
      var rows := AuthorRun(d, drafts[..|drafts| - 1]);
      match Authored(d, rows, drafts[|drafts| - 1])
      case Success((_, row)) => rows + [row]
      case Failure(_) => rows
  }

  lemma {:induction false} RunIsGood(d: Device, drafts: seq<Draft>)
    ensures GoodLog(d, AuthorRun(d, drafts))
  {
    if drafts != [] {
      RunIsGood(d, drafts[..|drafts| - 1]);
      var rows := AuthorRun(d, drafts[..|drafts| - 1]);
      if Authored(d, rows, drafts[|drafts| - 1]).Success? {
        AuthorKeepsGoodLog(d, rows, drafts[|drafts| - 1]);
      }
    }
  }

  /** An outbox, and the error that stopped the call writing to it. */
  type Written = (seq<OutboxRow>, Option<AuthorError>)

  function AuthorOne(d: Device, sofar: Written, draft: Draft): Written {
    if sofar.1.Some? then sofar
    else
      match Authored(d, sofar.0, draft)
      case Failure(e) => (sofar.0, Some(e))
      case Success((_, row)) => (sofar.0 + [row], None)
  }

  /** A call that authors several events in turn, and stops where one throws. */
  function AuthorAll(d: Device, rows: seq<OutboxRow>, drafts: seq<Draft>): Written {
    if drafts == [] then (rows, None)
    else AuthorOne(d, AuthorAll(d, rows, drafts[..|drafts| - 1]), drafts[|drafts| - 1])
  }

  lemma {:induction false} AuthorAllStops(d: Device, rows: seq<OutboxRow>, drafts: seq<Draft>, n: nat)
    requires n <= |drafts| && AuthorAll(d, rows, drafts[..n]).1.Some?
    ensures AuthorAll(d, rows, drafts) == AuthorAll(d, rows, drafts[..n])
  {
    if n < |drafts| {
      var m := |drafts| - 1;
      assert drafts[..m][..n] == drafts[..n];
      AuthorAllStops(d, rows, drafts[..m], n);
    } else {
      assert drafts[..n] == drafts;
    }
  }

  /** One more event: it decides the whole call when it throws. */
  lemma {:induction false} AuthorNext(d: Device, rows: seq<OutboxRow>, drafts: seq<Draft>, n: nat)
    requires n < |drafts| && AuthorAll(d, rows, drafts[..n]).1.None?
    ensures var before := AuthorAll(d, rows, drafts[..n]).0;
            match Authored(d, before, drafts[n])
            case Failure(e) => AuthorAll(d, rows, drafts) == (before, Some(e))
            case Success((_, row)) => AuthorAll(d, rows, drafts[..n + 1]) == (before + [row], None)
  {
    assert drafts[..n + 1][..n] == drafts[..n];
    if AuthorAll(d, rows, drafts[..n + 1]).1.Some? {
      AuthorAllStops(d, rows, drafts, n + 1);
    }
  }

  /** The sequence numbers one aggregate received, in order. */
  function SeqNumbers(rows: seq<OutboxRow>, ty: Text, id: Text): seq<nat> {
    if rows == [] then []
    else SeqNumbers(rows[..|rows| - 1], ty, id)
         + (if SameAggregate(rows[|rows| - 1], ty, id) then [rows[|rows| - 1].seqNo] else [])
  }

  lemma {:induction false} GoodLogPrefix(d: Device, rows: seq<OutboxRow>, n: nat)
    requires GoodLog(d, rows) && n <= |rows|
    ensures GoodLog(d, rows[..n])
  {
    forall i | 0 <= i < n ensures GoodRow(d, rows[..n], i) {
      assert GoodRow(d, rows, i);
      CountIsLocal(rows, rows[..n], i, rows[i].aggregateType, rows[i].aggregateId);
    }
  }

  /** Gap free: the numbers are exactly 1..n. */
  lemma {:induction false} SeqNumbersAreOneToN(d: Device, rows: seq<OutboxRow>, ty: Text, id: Text)
    requires GoodLog(d, rows)
    ensures |SeqNumbers(rows, ty, id)| == CountOf(rows, |rows|, ty, id)
    ensures forall k | 0 <= k < |SeqNumbers(rows, ty, id)| :: SeqNumbers(rows, ty, id)[k] == k + 1
  {
    if rows != [] {
      var n := |rows| - 1;
      GoodLogPrefix(d, rows, n);
      SeqNumbersAreOneToN(d, rows[..n], ty, id);
      CountIsLocal(rows, rows[..n], n, ty, id);
      assert GoodRow(d, rows, n);
    }
  }

  /** Both are stamps, and the first was given out before the second. */
  ghost predicate GivenBefore(a: Text, b: Text) {
    IsStamp(a) && IsStamp(b) && Later(Decode(a).value, Decode(b).value)
  }

  lemma {:induction false} NeighboursIncrease(d: Device, rows: seq<OutboxRow>, j: nat, before: Text)
    requires GoodLog(d, rows) && 0 < j < |rows| && before == rows[j - 1].hlc
    ensures GivenBefore(before, rows[j].hlc)
  {
    assert GoodRow(d, rows, j);
  }

  lemma {:induction false} GivenInTurn(a: Text, b: Text, c: Text)
    requires GivenBefore(a, b) && GivenBefore(b, c)
    ensures GivenBefore(a, c)
  {
  }

  lemma {:induction false} GivenSorts(a: Text, b: Text)
    requires GivenBefore(a, b)
    ensures StampBefore(a, b)
  {
    CompareDecides(a, b);
  }

  /** A transitive relation that holds from each item to the next holds from each to all after. */
  lemma {:induction false} ChainOf(before: (Text, Text) -> bool, ts: seq<Text>, i: nat, j: nat)
    requires i < j < |ts|
    requires forall a: Text, b: Text, c: Text :: before(a, b) && before(b, c) ==> before(a, c)
    requires forall k, n | 0 <= k < n < |ts| && n == k + 1 :: before(ts[k], ts[n])
    ensures before(ts[i], ts[j])
    decreases j
  {
    if i + 1 < j {
      ChainOf(before, ts, i, j - 1);
      assert before(ts[j - 1], ts[j]);
    }
  }

  function Stamps(rows: seq<OutboxRow>): (ts: seq<Text>)
    ensures |ts| == |rows|
  {
    seq(|rows|, i requires 0 <= i < |rows| => rows[i].hlc)
  }

  lemma {:induction false} StampsIncrease(d: Device, rows: seq<OutboxRow>, i: nat, j: nat)
    requires GoodLog(d, rows) && i < j < |rows|
    ensures GivenBefore(rows[i].hlc, rows[j].hlc) && StampBefore(rows[i].hlc, rows[j].hlc)
  {
    var ts, before := Stamps(rows), (a, b) => GivenBefore(a, b);
    forall a: Text, b: Text, c: Text | before(a, b) && before(b, c) ensures before(a, c) {
      GivenInTurn(a, b, c);
    }
    forall k, n | 0 <= k < n < |ts| && n == k + 1 ensures before(ts[k], ts[n]) {
      NeighboursIncrease(d, rows, n, ts[k]);
    }
    ChainOf(before, ts, i, j);
    GivenSorts(rows[i].hlc, rows[j].hlc);
  }

  /** Over every run of `author` calls, with a wall clock that may stand still, go
      back or restart: the chain is unbroken from null, every aggregate is numbered
      1..n without a gap, and stamps strictly increase. */
  lemma {:induction false} EveryRunIsAChain(d: Device, drafts: seq<Draft>, ty: Text, id: Text)
    ensures var rows := AuthorRun(d, drafts);
            && (forall i | 0 <= i < |rows| :: rows[i].prevHash == PrevHashAt(rows, i))
            && (forall i, j | 0 <= i < j < |rows| :: StampBefore(rows[i].hlc, rows[j].hlc))
            && (forall k | 0 <= k < |SeqNumbers(rows, ty, id)| :: SeqNumbers(rows, ty, id)[k] == k + 1)
  {
    var rows := AuthorRun(d, drafts);
    RunIsGood(d, drafts);
    forall i | 0 <= i < |rows| ensures rows[i].prevHash == PrevHashAt(rows, i) {
      assert GoodRow(d, rows, i);
    }
    forall i, j | 0 <= i < j < |rows| ensures StampBefore(rows[i].hlc, rows[j].hlc) {
      StampsIncrease(d, rows, i, j);
    }
    SeqNumbersAreOneToN(d, rows, ty, id);
  }

  // ------------------------------------------------------- tamper evidence

  function Rebuilt(rows: seq<OutboxRow>): seq<Signable>
    requires forall i | 0 <= i < |rows| :: ToDeviceEvent(rows[i]).Some?
  {
    seq(|rows|, i requires 0 <= i < |rows| => ToDeviceEvent(rows[i]).value.signable)
  }

  lemma {:induction false} GoodLogRebuilds(d: Device, rows: seq<OutboxRow>)
    requires GoodLog(d, rows)
    ensures forall i | 0 <= i < |rows| :: ToDeviceEvent(rows[i]).Some?
  {
    forall i | 0 <= i < |rows| ensures ToDeviceEvent(rows[i]).Some? {
      assert GoodRow(d, rows, i);
    }
  }

  lemma {:induction false} GoodLogIsChained(d: Device, rows: seq<OutboxRow>)
    requires GoodLog(d, rows)
    requires forall i | 0 <= i < |rows| :: ToDeviceEvent(rows[i]).Some?
    ensures Chained(d.sha, Rebuilt(rows))
    ensures PrevOf(d.sha, Rebuilt(rows), |rows|) == ChainHeadOf(rows)
  {
    forall i | 0 <= i < |rows| ensures LinkedAt(d.sha, Rebuilt(rows), i) {
      RebuiltIsLinked(d, rows, i);
    }
    if rows != [] {
      assert GoodRow(d, rows, |rows| - 1);
    }
  }

  lemma {:induction false} RebuiltIsLinked(d: Device, rows: seq<OutboxRow>, i: nat)
    requires GoodLog(d, rows) && i < |rows|
    requires forall i | 0 <= i < |rows| :: ToDeviceEvent(rows[i]).Some?
    ensures LinkedAt(d.sha, Rebuilt(rows), i)
  {
    RebuiltHash(d, rows, i);
    if i > 0 {
      RebuiltHash(d, rows, i - 1);
    }
    LinkedBy(d.sha, Rebuilt(rows), i);
  }

  lemma {:induction false} LinkedBy(sha: Text -> Text, chain: seq<Signable>, i: nat)
    requires i < |chain| && UniqueKeys(chain[i].payload) && EventHash(sha, chain[i]).Some?
    requires chain[i].prevHash == if i == 0 then None else EventHash(sha, chain[i - 1])
    ensures LinkedAt(sha, chain, i)
  {
  }

  lemma {:induction false} RebuiltHash(d: Device, rows: seq<OutboxRow>, i: nat)
    requires GoodLog(d, rows) && i < |rows|
    requires forall i | 0 <= i < |rows| :: ToDeviceEvent(rows[i]).Some?
    ensures var e := Rebuilt(rows)[i];
            && EventHash(d.sha, e) == Some(rows[i].eventHash)
            && UniqueKeys(e.payload) && e.prevHash == PrevHashAt(rows, i)
  {
    assert GoodRow(d, rows, i);
  }

  /** The chain head of an outbox binds its events: whatever else hashes to that head as
      an unbroken chain, with whatever numbering and stamps, holds the same events, or
      exhibits a collision. No stored event can be altered, dropped or added without
      breaking a link or moving the head. */
  lemma {:induction false} ChainHeadBindsTheOutbox(d: Device, rows: seq<OutboxRow>, others: seq<Signable>)
    requires GoodLog(d, rows) && Chained(d.sha, others) && PrevOf(d.sha, others, |others|) == ChainHeadOf(rows)
    requires forall i | 0 <= i < |rows| :: ToDeviceEvent(rows[i]).Some?
    ensures SameEvents(Rebuilt(rows), others) || Collision(d.sha, Rebuilt(rows), others)
  {
    GoodLogIsChained(d, rows);
    HeadHashBindsTheChain(d.sha, Rebuilt(rows), others);
  }
}
