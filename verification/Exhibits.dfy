/** Rows and events that name each other. */
module Exhibits {
  import opened Wrappers
  import opened Texts
  import opened Json
  import opened Events
  import opened Scoring
  import opened Store
  import opened Outbox
  import opened Inspection
  import opened InspectionLog
  import opened InspectionSteps
  import opened InspectionRuns
  import opened Corrections

  // The exhibit an `EvidenceCaptured` event binds is in the evidence table under the same
  // hash, and an answer's row carries the id of an event, which no later event repeats.

  /** The event and the row are of one exhibit. */
  predicate OfExhibit(row: OutboxRow, e: EvidenceRow) {
    && SameAggregate(row, Ascii("inspection"), e.inspectionId)
    && TextOf(row, Ascii("evidenceId")) == Some(e.evidenceId)
    && TextOf(row, Ascii("checkpointRef")) == Some(e.checkpointRef)
    && TextOf(row, Ascii("sha256")) == Some(e.sha256)
    && TextOf(row, Ascii("mime")) == Some(e.mime)
    && TextOf(row, Ascii("capturedAt")) == Some(e.capturedAt)
    && PointIn(FieldOf(row, Ascii("point"))) == Some(e.point)
  }

  ghost predicate Kept(evidence: seq<EvidenceRow>, row: OutboxRow) {
    exists k :: 0 <= k < |evidence| && OfExhibit(row, evidence[k])
  }

  ghost predicate ExhibitsKept(t: Tables) {
    forall i | 0 <= i < |t.outbox| && t.outbox[i].eventType == Ascii("EvidenceCaptured") ::
      Kept(t.evidence, t.outbox[i])
  }

  /** No event of a call is an exhibit. */
  ghost predicate NoneCaptured(t: Tables, after: Tables) {
    && t.outbox <= after.outbox && t.evidence <= after.evidence
    && forall i | |t.outbox| <= i < |after.outbox| :: after.outbox[i].eventType != Ascii("EvidenceCaptured")
  }

  lemma {:induction false} KeptStill(evidence: seq<EvidenceRow>, more: seq<EvidenceRow>, row: OutboxRow)
    requires Kept(evidence, row) && evidence <= more
    ensures Kept(more, row)
  {
    var k :| 0 <= k < |evidence| && OfExhibit(row, evidence[k]);
    assert OfExhibit(row, more[k]);
  }

  lemma {:induction false} QuietKeepsExhibits(t: Tables, after: Tables)
    requires ExhibitsKept(t) && NoneCaptured(t, after)
    ensures ExhibitsKept(after)
  {
    forall i | 0 <= i < |after.outbox| && after.outbox[i].eventType == Ascii("EvidenceCaptured")
      ensures Kept(after.evidence, after.outbox[i])
    {
      assert after.outbox[i] == t.outbox[i];
      KeptStill(t.evidence, after.evidence, t.outbox[i]);
    }
  }

  lemma {:induction false} CapturedKeys(evidenceId: Text, input: CaptureInput)
    ensures DistinctKeys(CapturedPairs(evidenceId, input))
  {
    var pairs := CapturedPairs(evidenceId, input);
    assert forall i | 0 <= i < |pairs| :: |pairs[i].0| == [10, 13, 6, 4, 10, 5][i];
    assert pairs[0].0[0] != pairs[4].0[0];
  }

  lemma {:induction false} CapturedRow(row: OutboxRow, id: Text, input: CaptureInput, draws: Draws)
    requires MadeFrom(row, CaptureDraft(id, input, draws)) && Finite(input.at)
    ensures OfExhibit(row, ExhibitRow(id, input, draws.uuid(0)))
  {
    var pairs, draft := CapturedPairs(draws.uuid(0), input), CaptureDraft(id, input, draws);
    CapturedKeys(draws.uuid(0), input);
    StoredText(row, draft, pairs, 0, Ascii("evidenceId"), draws.uuid(0));
    StoredText(row, draft, pairs, 1, Ascii("checkpointRef"), input.checkpointRef);
    StoredText(row, draft, pairs, 2, Ascii("sha256"), input.sha256);
    StoredText(row, draft, pairs, 3, Ascii("mime"), input.mime);
    StoredText(row, draft, pairs, 4, Ascii("capturedAt"), input.capturedAt);
    StoredField(row, draft, pairs, 5);
    PointIsRead(input.at);
  }

  /** The row of an exhibit as it was taken, waiting to be uploaded. */
  predicate NewExhibit(e: EvidenceRow, id: Text, input: CaptureInput) {
    && e.inspectionId == id && e.checkpointRef == input.checkpointRef && e.sha256 == input.sha256
    && e.localUri == input.localUri && e.mime == input.mime && e.capturedAt == input.capturedAt
    && e.point == input.at && !e.uploaded
  }

  /** An exhibit that is taken adds one row, under the id that is returned, and one event,
      which reads as the exhibit of that row. */
  lemma {:induction false} CaptureWrites(d: Device, t: Tables, id: Text, input: CaptureInput, draws: Draws)
    requires Captured(d, t, id, input, draws).1.Success?
    ensures var (after, r) := Captured(d, t, id, input, draws);
            var k, n := |t.evidence|, |t.outbox|;
            && |after.evidence| == k + 1 && after.evidence[..k] == t.evidence
            && NewExhibit(after.evidence[k], id, input) && after.evidence[k].evidenceId == r.value
            && |after.outbox| == n + 1 && after.outbox[..n] == t.outbox
            && after.outbox[n].eventType == Ascii("EvidenceCaptured") && OfExhibit(after.outbox[n], after.evidence[k])
  {
    var draft := CaptureDraft(id, input, draws);
    AuthoredIsMadeFrom(d, t.outbox, draft);
    ExhibitIsPlain(id, input, draws);
    CapturedRow(Authored(d, t.outbox, draft).value.1, id, input, draws);
  }

  lemma {:induction false} CaptureKeepsExhibits(d: Device, t: Tables, id: Text, input: CaptureInput, draws: Draws)
    requires ExhibitsKept(t)
    ensures ExhibitsKept(Captured(d, t, id, input, draws).0)
  {
    var after, draft := Captured(d, t, id, input, draws).0, CaptureDraft(id, input, draws);
    if Captured(d, t, id, input, draws).1.Success? {
      var row := Authored(d, t.outbox, draft).value.1;
      AuthoredIsMadeFrom(d, t.outbox, draft);
      ExhibitIsPlain(id, input, draws);
      CapturedRow(row, id, input, draws);
      OneMoreExhibit(t, after, row, ExhibitRow(id, input, draws.uuid(0)));
    } else {
      QuietKeepsExhibits(t, after);
    }
  }

  lemma {:induction false} OneMoreExhibit(t: Tables, after: Tables, row: OutboxRow, e: EvidenceRow)
    requires ExhibitsKept(t) && OfExhibit(row, e)
    requires after.outbox == t.outbox + [row] && after.evidence == t.evidence + [e]
    ensures ExhibitsKept(after)
  {
    forall i | 0 <= i < |after.outbox| && after.outbox[i].eventType == Ascii("EvidenceCaptured")
      ensures Kept(after.evidence, after.outbox[i])
    {
      if i < |t.outbox| {
        KeptStill(t.evidence, after.evidence, t.outbox[i]);
      } else {
        assert OfExhibit(row, after.evidence[|t.evidence|]);
      }
    }
  }

  lemma {:induction false} StartCapturesNothing(d: Device, t: Tables, input: StartInput, draws: Draws)
    ensures NoneCaptured(t, Started(d, t, input, draws).0)
  {
    EventTypesDiffer();
  }

  lemma {:induction false} RecordCapturesNothing(d: Device, t: Tables, id: Text, input: RecordInput, draws: Draws)
    ensures NoneCaptured(t, Recorded(d, t, id, input, draws).0)
  {
    EventTypesDiffer();
  }

  lemma {:induction false} SignOffCapturesNothing(d: Device, t: Tables, id: Text, s: SignOff, draws: Draws)
    ensures NoneCaptured(t, SignedOff(d, t, id, s, draws).0)
  {
    SignedOffParts(d, t, id, s, draws);
    if ReadyToSign(t, id) {
      var after := AuthorAll(d, t.outbox, DraftsOf(t, id, s, draws)).0;
      AuthorAllMade(d, t.outbox, DraftsOf(t, id, s, draws));
      SignOffWrites(t.outbox, after, FindInspection(t.inspections, id).value, RatingOf(t, id).value,
                    ProvisionalFindings(t, id).value, s, draws);
      EventTypesDiffer();
    }
  }

  lemma {:induction false} SyncKeepsExhibits(t: Tables, ids: seq<Text>)
    requires ExhibitsKept(t)
    ensures ExhibitsKept(Synced(t, ids))
  {
    var after := Synced(t, ids);
    forall i | 0 <= i < |after.outbox| && after.outbox[i].eventType == Ascii("EvidenceCaptured")
      ensures Kept(after.evidence, after.outbox[i])
    {
      var k :| 0 <= k < |t.evidence| && OfExhibit(t.outbox[i], t.evidence[k]);
      SyncedExhibit(t.outbox[i], after.outbox[i], t.evidence[k]);
    }
  }

  lemma {:induction false} SyncedExhibit(row: OutboxRow, synced: OutboxRow, e: EvidenceRow)
    requires OfExhibit(row, e) && synced == row.(acked := synced.acked)
    ensures OfExhibit(synced, e)
  {
    assert forall key: Text :: FieldOf(synced, key) == FieldOf(row, key);
  }

  lemma {:induction false} ApplyKeepsExhibits(d: Device, t: Tables, op: Op)
    requires ExhibitsKept(t)
    ensures ExhibitsKept(Apply(d, t, op))
  {
    match op
    case Start(input, draws) =>
      StartCapturesNothing(d, t, input, draws);
      QuietKeepsExhibits(t, Started(d, t, input, draws).0);
    case Record(id, input, draws) =>
      RecordCapturesNothing(d, t, id, input, draws);
      QuietKeepsExhibits(t, Recorded(d, t, id, input, draws).0);
    case Capture(id, input, draws) => CaptureKeepsExhibits(d, t, id, input, draws);
    case SignOffOp(id, s, draws) =>
      SignOffCapturesNothing(d, t, id, s, draws);
      QuietKeepsExhibits(t, SignedOff(d, t, id, s, draws).0);
    case Sync(ids) => SyncKeepsExhibits(t, ids);
  }

  /** After any run, every `EvidenceCaptured` event in the log has its row in the evidence
      table, for the same inspection and checkpoint and with the same hash. */
  lemma {:induction false} EveryExhibitIsKept(
      d: Device, versions: seq<InstrumentVersion>, facilities: map<Text, Text>, ops: seq<Op>)
    ensures ExhibitsKept(RunOps(d, versions, facilities, ops))
  {
    if ops != [] {
      EveryExhibitIsKept(d, versions, facilities, ops[..|ops| - 1]);
      ApplyKeepsExhibits(d, RunOps(d, versions, facilities, ops[..|ops| - 1]), ops[|ops| - 1]);
    }
  }

  // ------------------------------------------------ the ids of the answers

  predicate HasEvent(rows: seq<OutboxRow>, id: Text) {
    exists i :: 0 <= i < |rows| && rows[i].eventId == id
  }

  ghost predicate AnswersAreEvents(t: Tables) {
    forall k | 0 <= k < |t.responses| :: HasEvent(t.outbox, t.responses[k].id)
  }

  lemma {:induction false} EventsStay(rows: seq<OutboxRow>, more: seq<OutboxRow>, id: Text)
    requires HasEvent(rows, id) && rows <= more
    ensures HasEvent(more, id)
  {
    var i :| 0 <= i < |rows| && rows[i].eventId == id;
    assert more[i].eventId == id;
  }

  lemma {:induction false} SameAnswersAreEvents(t: Tables, after: Tables)
    requires AnswersAreEvents(t) && after.responses == t.responses && t.outbox <= after.outbox
    ensures AnswersAreEvents(after)
  {
    forall k | 0 <= k < |after.responses| ensures HasEvent(after.outbox, after.responses[k].id) {
      EventsStay(t.outbox, after.outbox, t.responses[k].id);
    }
  }

  lemma {:induction false} RecordKeepsAnswerIds(d: Device, t: Tables, id: Text, input: RecordInput, draws: Draws)
    requires AnswersAreEvents(t)
    ensures AnswersAreEvents(Recorded(d, t, id, input, draws).0)
  {
    var after, draft := Recorded(d, t, id, input, draws).0, RecordDraft(id, input, draws);
    if Recorded(d, t, id, input, draws).1.Success? {
      var row := Authored(d, t.outbox, draft).value.1;
      var r := ResponseRowFor(id, input, CheckpointOf(t, id, input.checkpointRef).value, row);
      OneMoreAnswer(t, after, row, r);
    } else {
      SameAnswersAreEvents(t, after);
    }
  }

  lemma {:induction false} OneMoreAnswer(t: Tables, after: Tables, row: OutboxRow, r: ResponseRow)
    requires AnswersAreEvents(t) && r.id == row.eventId
    requires after.outbox == t.outbox + [row] && after.responses == Upsert(t.responses, r)
    ensures AnswersAreEvents(after)
  {
    assert after.outbox[|t.outbox|].eventId == r.id;
    forall k | 0 <= k < |after.responses| ensures HasEvent(after.outbox, after.responses[k].id) {
      UpsertHolds(t.responses, r, k);
      if k < |t.responses| && after.responses[k].id == t.responses[k].id {
        EventsStay(t.outbox, after.outbox, t.responses[k].id);
      }
    }
  }

  lemma {:induction false} StartKeepsAnswerIds(d: Device, t: Tables, input: StartInput, draws: Draws)
    requires AnswersAreEvents(t)
    ensures AnswersAreEvents(Started(d, t, input, draws).0)
  {
    SameAnswersAreEvents(t, Started(d, t, input, draws).0);
  }

  lemma {:induction false} CaptureKeepsAnswerIds(d: Device, t: Tables, id: Text, input: CaptureInput, draws: Draws)
    requires AnswersAreEvents(t)
    ensures AnswersAreEvents(Captured(d, t, id, input, draws).0)
  {
    SameAnswersAreEvents(t, Captured(d, t, id, input, draws).0);
  }

  lemma {:induction false} ApplyKeepsAnswerIds(d: Device, t: Tables, op: Op)
    requires AnswersAreEvents(t)
    ensures AnswersAreEvents(Apply(d, t, op))
  {
    match op
    case Record(id, input, draws) => RecordKeepsAnswerIds(d, t, id, input, draws);
    case Start(input, draws) => StartKeepsAnswerIds(d, t, input, draws);
    case Capture(id, input, draws) => CaptureKeepsAnswerIds(d, t, id, input, draws);
    case SignOffOp(id, s, draws) =>
      SignOffCapturesNothing(d, t, id, s, draws);
      SameAnswersAreEvents(t, SignedOff(d, t, id, s, draws).0);
    case Sync(ids) => SyncKeepsAnswerIds(t, ids);
  }

  lemma {:induction false} SyncKeepsAnswerIds(t: Tables, ids: seq<Text>)
    requires AnswersAreEvents(t)
    ensures AnswersAreEvents(Synced(t, ids))
  {
    forall k | 0 <= k < |t.responses| ensures HasEvent(Synced(t, ids).outbox, t.responses[k].id) {
      var i :| 0 <= i < |t.outbox| && t.outbox[i].eventId == t.responses[k].id;
      assert Synced(t, ids).outbox[i].eventId == t.outbox[i].eventId;
    }
  }

  lemma {:induction false} EveryAnswerIsAnEvent(
      d: Device, versions: seq<InstrumentVersion>, facilities: map<Text, Text>, ops: seq<Op>)
    ensures AnswersAreEvents(RunOps(d, versions, facilities, ops))
  {
    if ops != [] {
      EveryAnswerIsAnEvent(d, versions, facilities, ops[..|ops| - 1]);
      ApplyKeepsAnswerIds(d, RunOps(d, versions, facilities, ops[..|ops| - 1]), ops[|ops| - 1]);
    }
  }

  /** In a reachable state the id an answer is stored under, that of the event just
      authored, is the key of no row: the upsert never breaks the table's primary key. */
  lemma {:induction false} AnswerIdIsNew(
      d: Device, versions: seq<InstrumentVersion>, facilities: map<Text, Text>, ops: seq<Op>,
      id: Text, input: RecordInput, draws: Draws, k: nat)
    requires var t := RunOps(d, versions, facilities, ops);
             Recorded(d, t, id, input, draws).1.Success? && k < |t.responses|
    ensures var t := RunOps(d, versions, facilities, ops);
            t.responses[k].id != Recorded(d, t, id, input, draws).0.outbox[|t.outbox|].eventId
  {
    var t := RunOps(d, versions, facilities, ops);
    EveryRunIsConsistent(d, versions, facilities, ops);
    EveryAnswerIsAnEvent(d, versions, facilities, ops);
    AnswerTaken(d, t, id, input, draws);
    AuthorSucceedsExactlyWhen(d, t.outbox, RecordDraft(id, input, draws));
    var i :| 0 <= i < |t.outbox| && t.outbox[i].eventId == t.responses[k].id;
  }
}
