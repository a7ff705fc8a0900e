/** What the log says of an inspection. */
module InspectionLog {
  import opened Wrappers
  import opened Texts
  import opened Json
  import opened JsonRoundTrip
  import opened JsonCanonical
  import opened Events
  import opened Scoring
  import opened Store
  import opened Outbox
  import opened Inspection

  // Answers, submissions and their order are read from the event log alone; the tables agree
  // with it in every state a run of calls can reach.

  // ------------------------------------------------- reading stored payloads

  /** A field of a stored payload, once parsed back. */
  function FieldOf(row: OutboxRow, key: Text): Option<Value> {
    match JsonParse(row.payloadJson)
    case Some(Obj(fields)) => Get(fields, key)
    case _ => None
  }

  function TextOf(row: OutboxRow, key: Text): Option<Text> {
    match FieldOf(row, key)
    case Some(Str(t)) => Some(t)
    case _ => None
  }

  lemma {:induction false} GetClean(fields: Fields, key: Text)
    requires UniqueKeysFields(fields)
    ensures Get(CleanFields(fields), key) == match Get(fields, key) case None => None case Some(v) => Some(Clean(v))
  {
    if fields.Field? {
      GetClean(fields.rest, key);
      if fields.key == key {
        NoKeyNoValue(fields.rest, key);
      }
    }
  }

  /** A point as it is stored: two numbers, and maybe a third. */
  function PointIn(v: Option<Value>): Option<GeoPoint> {
    match v
    case Some(Obj(fields)) =>
      (match (Get(fields, Ascii("lat")), Get(fields, Ascii("lng")), Get(fields, Ascii("accuracyM")))
       case (Some(Num(lat)), Some(Num(lng)), None) => Some(GeoPoint(Num(lat), Num(lng), None))
       case (Some(Num(lat)), Some(Num(lng)), Some(Num(accuracy))) =>
         Some(GeoPoint(Num(lat), Num(lng), Some(Num(accuracy))))
       case _ => None)
    case _ => None
  }

  /** A check-in as it is stored. */
  function CheckinIn(v: Option<Value>): Option<Checkin> {
    match v
    case Some(Obj(fields)) =>
      (match (PointIn(Get(fields, Ascii("point"))), Get(fields, Ascii("distanceFromRegisteredM")),
              Get(fields, Ascii("flagged")))
       case (Some(point), Some(Num(distance)), Some(Bool(flagged))) => Some(Checkin(point, Num(distance), flagged))
       case _ => None)
    case _ => None
  }

  /** A list of texts as it is stored. */
  function TextsIn(items: Values): Option<seq<Text>> {
    match items
    case NoItems => Some([])
    case Item(Str(t), rest) =>
      (match TextsIn(rest)
       case Some(more) => Some([t] + more)
       case None => None)
    case _ => None
  }

  /** A field of an object literal, read back from the object once it is stored. */
  lemma {:induction false} ReadsAt(pairs: seq<(Text, Value)>, i: nat)
    requires i < |pairs| && DistinctKeys(pairs)
    requires forall k | 0 <= k < |pairs| :: UniqueKeys(pairs[k].1)
    ensures Get(CleanFields(FromPairs(pairs)), pairs[i].0)
         == if pairs[i].1.Undefined? then None else Some(Clean(pairs[i].1))
  {
    PairsShape(pairs);
    GetClean(FromPairs(pairs), pairs[i].0);
    PairsGet(pairs, i);
  }

  lemma {:induction false} PointIsRead(p: GeoPoint)
    requires Finite(p)
    ensures PointIn(Some(Clean(PointValue(p)))) == Some(p)
  {
    var pairs: seq<(Text, Value)> :=
      [(Ascii("lat"), p.lat), (Ascii("lng"), p.lng),
       (Ascii("accuracyM"), if p.accuracyM.Some? then p.accuracyM.value else Undefined)];
    assert |pairs[0].0| == 3 && |pairs[1].0| == 3 && |pairs[2].0| == 9;
    assert pairs[0].0[1] != pairs[1].0[1];
    ReadsAt(pairs, 0);
    ReadsAt(pairs, 1);
    ReadsAt(pairs, 2);
  }

  lemma {:induction false} CheckinIsRead(c: Checkin)
    requires Finite(c.point) && c.distanceM.Num?
    ensures CheckinIn(Some(Clean(CheckinValue(c)))) == Some(c)
  {
    var pairs: seq<(Text, Value)> :=
      [(Ascii("point"), PointValue(c.point)), (Ascii("distanceFromRegisteredM"), c.distanceM),
       (Ascii("flagged"), Bool(c.flagged))];
    assert |pairs[0].0| == 5 && |pairs[1].0| == 23 && |pairs[2].0| == 7;
    ReadsAt(pairs, 0);
    ReadsAt(pairs, 1);
    ReadsAt(pairs, 2);
    PointIsRead(c.point);
  }

  lemma {:induction false} TextsAreRead(ts: seq<Text>)
    ensures CleanItems(Strings(ts)) == Strings(ts) && TextsIn(Strings(ts)) == Some(ts)
  {
    if ts != [] {
      TextsAreRead(ts[1..]);
      assert ts == [ts[0]] + ts[1..];
    }
  }

  /** A row was written for a draft. */
  ghost predicate MadeFrom(row: OutboxRow, draft: Draft) {
    && row.eventId == draft.eventId
    && SameAggregate(row, draft.aggregateType, draft.aggregateId)
    && row.eventType == draft.eventType
    && !row.acked
    && Plain(draft.payload)
    && JsonParse(row.payloadJson) == Some(Clean(draft.payload))
  }

  lemma {:induction false} AuthoredIsMadeFrom(d: Device, rows: seq<OutboxRow>, draft: Draft)
    requires Authored(d, rows, draft).Success?
    ensures MadeFrom(Authored(d, rows, draft).value.1, draft)
  {
    var (event, row) := Authored(d, rows, draft).value;
    HashesExactlyPlainPayloads(d.sha, event.signable);
    ParseAfterStringify(draft.payload);
  }

  /** The field of a stored object literal, by its place in the literal. */
  lemma {:induction false} StoredField(row: OutboxRow, draft: Draft, pairs: seq<(Text, Value)>, i: nat)
    requires MadeFrom(row, draft) && draft.payload == Obj(FromPairs(pairs))
    requires i < |pairs| && DistinctKeys(pairs)
    ensures FieldOf(row, pairs[i].0) == if pairs[i].1.Undefined? then None else Some(Clean(pairs[i].1))
  {
    GetClean(FromPairs(pairs), pairs[i].0);
    PairsGet(pairs, i);
  }

  lemma {:induction false} StoredText(
      row: OutboxRow, draft: Draft, pairs: seq<(Text, Value)>, i: nat, key: Text, text: Text)
    requires MadeFrom(row, draft) && draft.payload == Obj(FromPairs(pairs))
    requires i < |pairs| && DistinctKeys(pairs) && pairs[i] == (key, Str(text))
    ensures TextOf(row, key) == Some(text)
  {
    StoredField(row, draft, pairs, i);
  }

  // --------------------------------------------------- the answers in a log

  datatype Answer = Answer(response: Response, remark: Option<Text>)

  datatype Entry = Entry(ref: Text, answer: Answer)

  /** The words of the wire. */
  function ResponseFrom(t: Text): Option<Response> {
    if t == Ascii("yes") then Some(Yes)
    else if t == Ascii("no") then Some(No)
    else if t == Ascii("na") then Some(NA)
    else None
  }

  function SeverityFrom(t: Text): Option<Severity> {
    if t == Ascii("critical") then Some(Critical)
    else if t == Ascii("major") then Some(Major)
    else if t == Ascii("minor") then Some(Minor)
    else None
  }

  function BandFrom(t: Text): Option<Band> {
    if t == Ascii("satisfactory") then Some(Satisfactory)
    else if t == Ascii("needs_improvement") then Some(NeedsImprovement)
    else if t == Ascii("critical_issues") then Some(CriticalIssues)
    else None
  }

  /** The answer a row records for an inspection, read from its stored payload. */
  function AnswerIn(row: OutboxRow, inspectionId: Text): Option<Entry> {
    if !SameAggregate(row, Ascii("inspection"), inspectionId) || row.eventType != Ascii("ResponseRecorded") then None
    else
      match (TextOf(row, Ascii("checkpointRef")), TextOf(row, Ascii("response")))
      case (Some(ref), Some(t)) =>
        (match ResponseFrom(t)
         case Some(response) => Some(Entry(ref, Answer(response, TextOf(row, Ascii("remark")))))
         case None => None)
      case _ => None
  }

  /** The latest answer to one checkpoint: the log read backwards. */
  function LatestAnswer(rows: seq<OutboxRow>, inspectionId: Text, ref: Text): Option<Answer> {
    if rows == [] then None
    else
      match AnswerIn(rows[|rows| - 1], inspectionId)
      case Some(entry) =>
        if entry.ref == ref then Some(entry.answer) else LatestAnswer(rows[..|rows| - 1], inspectionId, ref)
      case None => LatestAnswer(rows[..|rows| - 1], inspectionId, ref)
  }

  /** Replace the answer to a checkpoint where it stands, or add it at the end. */
  function Put(entries: seq<Entry>, e: Entry): seq<Entry> {
    if entries == [] then [e]
    else if entries[0].ref == e.ref then [e] + entries[1..]
    else [entries[0]] + Put(entries[1..], e)
  }

  /** The log folded forwards: one entry per checkpoint, in the order first answered. */
  function LogAnswers(rows: seq<OutboxRow>, inspectionId: Text): seq<Entry> {
    if rows == [] then []
    else
      var before := LogAnswers(rows[..|rows| - 1], inspectionId);
      match AnswerIn(rows[|rows| - 1], inspectionId)
      case Some(entry) => Put(before, entry)
      case None => before
  }

  function Lookup(entries: seq<Entry>, ref: Text): Option<Answer> {
    if entries == [] then None
    else if entries[0].ref == ref then Some(entries[0].answer)
    else Lookup(entries[1..], ref)
  }

  lemma {:induction false} LookupPut(entries: seq<Entry>, e: Entry, ref: Text)
    ensures Lookup(Put(entries, e), ref) == if ref == e.ref then Some(e.answer) else Lookup(entries, ref)
  {
    if entries != [] && entries[0].ref != e.ref {
      LookupPut(entries[1..], e, ref);
    }
  }

  /** Folding forwards and reading backwards find the same answer. */
  lemma {:induction false} FoldFindsLatest(rows: seq<OutboxRow>, inspectionId: Text, ref: Text)
    ensures Lookup(LogAnswers(rows, inspectionId), ref) == LatestAnswer(rows, inspectionId, ref)
  {
    if rows != [] {
      var before := rows[..|rows| - 1];
      FoldFindsLatest(before, inspectionId, ref);
      match AnswerIn(rows[|rows| - 1], inspectionId)
      case Some(entry) => LookupPut(LogAnswers(before, inspectionId), entry, ref);
      case None =>
    }
  }

  ghost predicate DistinctRefs(entries: seq<Entry>) {
    forall i, j | 0 <= i < j < |entries| :: entries[i].ref != entries[j].ref
  }

  lemma {:induction false} PutKeepsDistinct(entries: seq<Entry>, e: Entry)
    requires DistinctRefs(entries)
    ensures DistinctRefs(Put(entries, e))
    ensures forall i | 0 <= i < |Put(entries, e)| ::
              Put(entries, e)[i].ref == e.ref || exists j | 0 <= j < |entries| :: entries[j].ref == Put(entries, e)[i].ref
  {
    if entries != [] {
      var rest := entries[1..];
      assert forall j | 0 <= j < |rest| :: rest[j] == entries[j + 1];
      if entries[0].ref != e.ref {
        PutKeepsDistinct(rest, e);
      }
    }
  }

  /** Each checkpoint has one entry. */
  lemma {:induction false} LogRefsDistinct(rows: seq<OutboxRow>, inspectionId: Text)
    ensures DistinctRefs(LogAnswers(rows, inspectionId))
  {
    if rows != [] {
      var before := rows[..|rows| - 1];
      LogRefsDistinct(before, inspectionId);
      match AnswerIn(rows[|rows| - 1], inspectionId)
      case Some(entry) => PutKeepsDistinct(LogAnswers(before, inspectionId), entry);
      case None =>
    }
  }

  // --------------------------------------------------- the answers in a table

  function EntryOf(r: ResponseRow): Entry {
    Entry(r.checkpointRef, Answer(r.response, r.remark))
  }

  function Entries(rows: seq<ResponseRow>): (es: seq<Entry>)
    ensures |es| == |rows|
  {
    seq(|rows|, i requires 0 <= i < |rows| => EntryOf(rows[i]))
  }

  function TableAnswers(rows: seq<ResponseRow>, inspectionId: Text): seq<Entry> {
    Entries(ResponsesOf(rows, inspectionId))
  }

  lemma {:induction false} TableAnswersFirst(rows: seq<ResponseRow>, id: Text)
    requires rows != []
    ensures TableAnswers(rows, id)
         == (if rows[0].inspectionId == id then [EntryOf(rows[0])] else []) + TableAnswers(rows[1..], id)
  {
  }

  /** The upsert does to the table what one more event does to the log. */
  lemma {:induction false} UpsertPuts(rows: seq<ResponseRow>, r: ResponseRow, id: Text)
    ensures TableAnswers(Upsert(rows, r), id)
         == if r.inspectionId == id then Put(TableAnswers(rows, id), EntryOf(r)) else TableAnswers(rows, id)
  {
    var after := Upsert(rows, r);
    TableAnswersFirst(after, id);
    if rows == [] {
      assert after[1..] == [];
    } else {
      TableAnswersFirst(rows, id);
      UpsertPuts(rows[1..], r, id);
      if SameKey(rows[0], r) {
        assert after[1..] == rows[1..];
      } else {
        assert after[1..] == Upsert(rows[1..], r);
      }
      if rows[0].inspectionId == id {
        assert TableAnswers(rows, id)[1..] == TableAnswers(rows[1..], id);
      }
    }
  }

  // --------------------------------------------------------- calls and runs

  datatype Op =
    | Start(input: StartInput, draws: Draws)
    | Record(inspectionId: Text, answer: RecordInput, draws: Draws)
    | Capture(inspectionId: Text, exhibit: CaptureInput, draws: Draws)
    | SignOffOp(inspectionId: Text, signOff: SignOff, draws: Draws)
    | Sync(ids: seq<Text>) // a push is answered, and `markAcked` is called with these ids

  function Synced(t: Tables, ids: seq<Text>): Tables {
    t.(outbox := AckAll(t.outbox, ids))
  }

  function Apply(d: Device, t: Tables, op: Op): Tables {
    match op
    case Start(input, draws) => Started(d, t, input, draws).0
    case Record(id, answer, draws) => Recorded(d, t, id, answer, draws).0
    case Capture(id, exhibit, draws) => Captured(d, t, id, exhibit, draws).0
    case SignOffOp(id, signOff, draws) => SignedOff(d, t, id, signOff, draws).0
    case Sync(ids) => Synced(t, ids)
  }

  /** The tables after a run of completed calls and acknowledgements, on a device that has its instruments. */
  function RunOps(d: Device, versions: seq<InstrumentVersion>, facilities: map<Text, Text>, ops: seq<Op>): Tables {
    if ops == [] then Tables([], [], [], [], versions, facilities)
    else Apply(d, RunOps(d, versions, facilities, ops[..|ops| - 1]), ops[|ops| - 1])
  }

  predicate IsSubmission(row: OutboxRow, inspectionId: Text) {
    SameAggregate(row, Ascii("inspection"), inspectionId) && row.eventType == Ascii("InspectionSubmitted")
  }

  /** How many times the log says an inspection was submitted. */
  function Submissions(rows: seq<OutboxRow>, inspectionId: Text): nat {
    if rows == [] then 0
    else Submissions(rows[..|rows| - 1], inspectionId) + (if IsSubmission(rows[|rows| - 1], inspectionId) then 1 else 0)
  }

  predicate IsSubmitted(t: Tables, inspectionId: Text) {
    match FindInspection(t.inspections, inspectionId)
    case Some(row) => row.submitted
    case None => false
  }

  /** A stored answer keeps the instrument's rules: its weight, N/A only where it is
      accepted, and No only with a remark. */
  predicate ObeysInstrument(t: Tables, r: ResponseRow) {
    match CheckpointOf(t, r.inspectionId, r.checkpointRef)
    case Failure(_) => false
    case Success(spec) =>
      && spec.weight == r.weight
      && (r.response.NA? ==> spec.allowsNa)
      && (r.response.No? ==> r.remark.Some? && r.remark.value != [])
  }

  /** The log and the tables tell one story about one inspection. */
  ghost predicate Agrees(t: Tables, id: Text) {
    && TableAnswers(t.responses, id) == LogAnswers(t.outbox, id)
    && Submissions(t.outbox, id) == (if IsSubmitted(t, id) then 1 else 0)
  }

  ghost predicate Consistent(d: Device, t: Tables) {
    && GoodLog(d, t.outbox)
    && (forall id: Text :: Agrees(t, id))
    && (forall i | 0 <= i < |t.responses| :: ObeysInstrument(t, t.responses[i]))
  }
}
