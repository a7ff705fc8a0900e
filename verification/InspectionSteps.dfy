/** What every call on an inspection keeps: the log stays good, each answer table entry
    stays the latest answer in the log, each stored answer stays within the rules of its
    instrument, and an inspection is marked submitted exactly when its log says so. */
module InspectionSteps {
  import opened Wrappers
  import opened Texts
  import opened Json
  import opened Scoring
  import opened Store
  import opened Outbox
  import opened Inspection
  import opened InspectionLog

  // -------------------------------------------------- what one row adds

  lemma {:induction false} EventTypesDiffer()
    ensures RECORDED != STARTED && RECORDED != CAPTURED && RECORDED != RAISED && RECORDED != SUBMITTED
    ensures SUBMITTED != STARTED && SUBMITTED != CAPTURED && SUBMITTED != RAISED
    ensures CAPTURED != STARTED && CAPTURED != RAISED && RAISED != STARTED
  {
    assert |STARTED| == 17 && |RECORDED| == 16 && |CAPTURED| == 16 && |RAISED| == 13 && |SUBMITTED| == 19;
    assert RECORDED[0] != CAPTURED[0];
  }

  lemma {:induction false} OneMoreRow(rows: seq<OutboxRow>, row: OutboxRow, id: Text)
    ensures LogAnswers(rows + [row], id)
         == match AnswerIn(row, id) case Some(e) => Put(LogAnswers(rows, id), e) case None => LogAnswers(rows, id)
    ensures Submissions(rows + [row], id) == Submissions(rows, id) + (if IsSubmission(row, id) then 1 else 0)
  {
    assert (rows + [row])[..|rows|] == rows;
  }

  /** Rows that record no answer and submit nothing say nothing new. */
  lemma {:induction false} QuietRows(rows: seq<OutboxRow>, more: seq<OutboxRow>, id: Text)
    requires forall i | 0 <= i < |more| :: more[i].eventType != RECORDED && more[i].eventType != SUBMITTED
    ensures LogAnswers(rows + more, id) == LogAnswers(rows, id)
    ensures Submissions(rows + more, id) == Submissions(rows, id)
  {
    if more == [] {
      assert rows + more == rows;
    } else {
      var n := |more| - 1;
      QuietRows(rows, more[..n], id);
      QuietRow(rows + more[..n], more[n], id);
      assert rows + more == rows + more[..n] + [more[n]];
    }
  }

  lemma {:induction false} QuietRow(rows: seq<OutboxRow>, row: OutboxRow, id: Text)
    requires row.eventType != RECORDED && row.eventType != SUBMITTED
    ensures LogAnswers(rows + [row], id) == LogAnswers(rows, id)
    ensures Submissions(rows + [row], id) == Submissions(rows, id)
  {
    OneMoreRow(rows, row, id);
  }

  /** What a `ResponseRecorded` row says once it is stored. */
  lemma {:induction false} RecordedRowAnswers(row: OutboxRow, id: Text, input: RecordInput, draws: Draws, other: Text)
    requires MadeFrom(row, RecordDraft(id, input, draws))
    ensures AnswerIn(row, other)
         == if other == id then Some(Entry(input.checkpointRef, Answer(input.response, KeptRemark(input.remark)))) else None
  {
    if other == id {
      RecordedRowFields(row, id, input, draws);
      ResponseTexts();
    }
  }

  lemma {:induction false} ResponseTexts()
    ensures forall r: Response :: ResponseFrom(ResponseText(r)) == Some(r)
  {
    assert |Ascii("yes")| == 3 && |Ascii("no")| == 2 && |Ascii("na")| == 2;
    assert Ascii("no")[1] != Ascii("na")[1];
  }

  lemma {:induction false} RecordedRowFields(row: OutboxRow, id: Text, input: RecordInput, draws: Draws)
    requires MadeFrom(row, RecordDraft(id, input, draws))
    ensures TextOf(row, K_REF) == Some(input.checkpointRef)
    ensures TextOf(row, K_RESPONSE) == Some(ResponseText(input.response))
    ensures TextOf(row, K_REMARK) == KeptRemark(input.remark)
  {
    var pairs := RecordedPairs(input.checkpointRef, input.response, KeptRemark(input.remark), input.evidenceIds);
    assert forall i | 0 <= i < |pairs| :: |pairs[i].0| == [13, 8, 6, 11][i];
    var draft := RecordDraft(id, input, draws);
    StoredField(row, draft, pairs, 0);
    StoredField(row, draft, pairs, 1);
    StoredField(row, draft, pairs, 2);
  }

  // ------------------------------------------------------ several rows at once

  /** The rows past `rows` were written for the first of the drafts, in order. */
  ghost predicate Continues(rows: seq<OutboxRow>, after: seq<OutboxRow>, drafts: seq<Draft>) {
    && rows <= after && |after| - |rows| <= |drafts|
    && forall i | 0 <= i < |after| - |rows| :: MadeFrom(after[|rows| + i], drafts[i])
  }

  lemma {:induction false} ContinuesOne(rows: seq<OutboxRow>, after: seq<OutboxRow>, row: OutboxRow, drafts: seq<Draft>)
    requires drafts != [] && Continues(rows, after, drafts[..|drafts| - 1]) && |after| - |rows| == |drafts| - 1
    requires MadeFrom(row, drafts[|drafts| - 1])
    ensures Continues(rows, after + [row], drafts)
  {
    forall i | 0 <= i < |drafts| ensures MadeFrom((after + [row])[|rows| + i], drafts[i]) {
      assert i < |drafts| - 1 ==> drafts[..|drafts| - 1][i] == drafts[i];
    }
  }

  lemma {:induction false} AuthorAllMade(d: Device, rows: seq<OutboxRow>, drafts: seq<Draft>)
    ensures Continues(rows, AuthorAll(d, rows, drafts).0, drafts)
    ensures AuthorAll(d, rows, drafts).1.None? <==> |AuthorAll(d, rows, drafts).0| == |rows| + |drafts|
  {
    if drafts != [] {
      var n := |drafts| - 1;
      AuthorAllMade(d, rows, drafts[..n]);
      var before := AuthorAll(d, rows, drafts[..n]);
      assert Continues(rows, before.0, drafts);
      if before.1.None? && Authored(d, before.0, drafts[n]).Success? {
        AuthoredIsMadeFrom(d, before.0, drafts[n]);
        ContinuesOne(rows, before.0, Authored(d, before.0, drafts[n]).value.1, drafts);
      }
    }
  }

  lemma {:induction false} AuthorAllKeepsGoodLog(d: Device, rows: seq<OutboxRow>, drafts: seq<Draft>)
    requires GoodLog(d, rows)
    ensures GoodLog(d, AuthorAll(d, rows, drafts).0)
  {
    if drafts != [] {
      var n := |drafts| - 1;
      AuthorAllKeepsGoodLog(d, rows, drafts[..n]);
      var (before, error) := AuthorAll(d, rows, drafts[..n]);
      if error.None? && Authored(d, before, drafts[n]).Success? {
        AuthorKeepsGoodLog(d, before, drafts[n]);
      }
    }
  }

  // ------------------------------------------------------- every call agrees

  /** Looking up an instrument does not see a new inspection, or a submission. */
  lemma {:induction false} SameCheckpoints(t: Tables, after: Tables, r: ResponseRow)
    requires ObeysInstrument(t, r) && after.versions == t.versions
    requires forall id: Text | FindInspection(t.inspections, id).Some? ::
               && FindInspection(after.inspections, id).Some?
               && FindInspection(after.inspections, id).value.versionId == FindInspection(t.inspections, id).value.versionId
    ensures ObeysInstrument(after, r)
  {
  }

  lemma {:induction false} FindAfterInsert(rows: seq<InspectionRow>, row: InspectionRow, id: Text)
    ensures FindInspection(rows + [row], id)
         == if FindInspection(rows, id).Some? then FindInspection(rows, id)
            else if row.id == id then Some(row) else None
  {
    if rows != [] {
      assert (rows + [row])[1..] == rows[1..] + [row];
      FindAfterInsert(rows[1..], row, id);
    }
  }

  lemma {:induction false} FindAfterSubmit(
      rows: seq<InspectionRow>, submitted: Text, rating: RatingResult, signatures: Signatures, id: Text)
    ensures FindInspection(Submitted(rows, submitted, rating, signatures), id)
         == match FindInspection(rows, id)
            case None => None
            case Some(row) =>
              Some(if id == submitted then row.(submitted := true, rating := Some(rating), signatures := Some(signatures))
                   else row)
  {
    if rows != [] {
      assert Submitted(rows, submitted, rating, signatures)[1..] == Submitted(rows[1..], submitted, rating, signatures);
      FindAfterSubmit(rows[1..], submitted, rating, signatures, id);
    }
  }

  /** A quiet row, authored, keeps everything. */
  lemma {:induction false} QuietStep(d: Device, t: Tables, draft: Draft)
    requires Consistent(d, t) && Authored(d, t.outbox, draft).Success?
    requires draft.eventType != RECORDED && draft.eventType != SUBMITTED
    ensures Consistent(d, Appended(t, Authored(d, t.outbox, draft).value.1))
  {
    var row := Authored(d, t.outbox, draft).value.1;
    var after := Appended(t, row);
    AuthorKeepsGoodLog(d, t.outbox, draft);
    AuthoredIsMadeFrom(d, t.outbox, draft);
    forall id: Text ensures Agrees(after, id) {
      OneMoreRow(t.outbox, row, id);
      assert Agrees(t, id);
    }
    forall i | 0 <= i < |after.responses| ensures ObeysInstrument(after, after.responses[i]) {
      SameCheckpoints(t, after, t.responses[i]);
    }
  }

  lemma {:induction false} InsertStep(d: Device, t: Tables, row: InspectionRow)
    requires Consistent(d, t) && FindInspection(t.inspections, row.id).None? && !row.submitted
    ensures Consistent(d, t.(inspections := t.inspections + [row]))
  {
    var after := t.(inspections := t.inspections + [row]);
    forall id: Text ensures Agrees(after, id) {
      FindAfterInsert(t.inspections, row, id);
      assert Agrees(t, id);
    }
    forall id: Text | FindInspection(t.inspections, id).Some?
      ensures FindInspection(after.inspections, id) == FindInspection(t.inspections, id)
    {
      FindAfterInsert(t.inspections, row, id);
    }
    forall i | 0 <= i < |after.responses| ensures ObeysInstrument(after, after.responses[i]) {
      SameCheckpoints(t, after, t.responses[i]);
    }
  }

  lemma {:induction false} StartStep(d: Device, t: Tables, input: StartInput, draws: Draws)
    requires Consistent(d, t)
    ensures Consistent(d, Started(d, t, input, draws).0)
  {
    EventTypesDiffer();
    if input.facilityId in t.facilities {
      var version := FindVersionForType(t.versions, t.facilities[input.facilityId]);
      var id := draws.uuid(0);
      if version.Some? && FindInspection(t.inspections, id).None? {
        var row := NewInspection(id, input, version.value);
        InsertStep(d, t, row);
        var t1 := t.(inspections := t.inspections + [row]);
        var payload := StartedPayload(input.reference, input.facilityId, version.value, input.checkin);
        var draft := Draft(INSPECTION, id, STARTED, payload, draws.uuid(1), draws.now(0));
        if Authored(d, t1.outbox, draft).Success? {
          QuietStep(d, t1, draft);
        }
      }
    }
  }

  /** An exhibit row says nothing of the answers. */
  lemma {:induction false} ExhibitStep(d: Device, t: Tables, evidence: seq<EvidenceRow>)
    requires Consistent(d, t)
    ensures Consistent(d, t.(evidence := evidence))
  {
    var after := t.(evidence := evidence);
    forall id: Text ensures Agrees(after, id) {
      assert Agrees(t, id);
    }
    forall i | 0 <= i < |after.responses| ensures ObeysInstrument(after, after.responses[i]) {
      SameCheckpoints(t, after, t.responses[i]);
    }
  }

  lemma {:induction false} CaptureStep(d: Device, t: Tables, id: Text, input: CaptureInput, draws: Draws)
    requires Consistent(d, t)
    ensures Consistent(d, Captured(d, t, id, input, draws).0)
  {
    EventTypesDiffer();
    var draft := CaptureDraft(id, input, draws);
    if CheckpointOf(t, id, input.checkpointRef).Success? && !HasExhibit(t.evidence, draws.uuid(0)) {
      var evidence := t.evidence + [ExhibitRow(id, input, draws.uuid(0))];
      ExhibitStep(d, t, evidence);
      if Authored(d, t.outbox, draft).Success? {
        QuietStep(d, t.(evidence := evidence), draft);
      }
    }
  }

  lemma {:induction false} UpsertKeepsRows(t: Tables, after: Tables, r: ResponseRow)
    requires forall i | 0 <= i < |t.responses| :: ObeysInstrument(t, t.responses[i])
    requires after.inspections == t.inspections && after.versions == t.versions && ObeysInstrument(t, r)
    requires after.responses == Upsert(t.responses, r)
    ensures forall i | 0 <= i < |after.responses| :: ObeysInstrument(after, after.responses[i])
  {
    forall i | 0 <= i < |after.responses| ensures ObeysInstrument(after, after.responses[i]) {
      UpsertHolds(t.responses, r, i);
    }
  }

  /** A row after the upsert is the new row, an old row, or an old row for the same
      checkpoint with the new answer. */
  lemma {:induction false} UpsertHolds(rows: seq<ResponseRow>, r: ResponseRow, i: nat)
    requires i < |Upsert(rows, r)|
    ensures var x := Upsert(rows, r)[i];
            || x == r
            || (i < |rows| && x == rows[i])
            || (i < |rows| && SameKey(rows[i], r) && x == Reanswered(rows[i], r))
  {
    if rows != [] && i > 0 {
      if !SameKey(rows[0], r) {
        UpsertHolds(rows[1..], r, i - 1);
      }
    }
  }

  lemma {:induction false} RecordStep(d: Device, t: Tables, id: Text, input: RecordInput, draws: Draws)
    requires Consistent(d, t)
    ensures Consistent(d, Recorded(d, t, id, input, draws).0)
  {
    var spec, draft := CheckpointOf(t, id, input.checkpointRef), RecordDraft(id, input, draws);
    if spec.Success? && RefusedAnswer(spec.value, input).None? && Authored(d, t.outbox, draft).Success? {
      var row := Authored(d, t.outbox, draft).value.1;
      var r := ResponseRowFor(id, input, spec.value, row);
      var after := Appended(t, row).(responses := Upsert(t.responses, r));
      AuthorKeepsGoodLog(d, t.outbox, draft);
      AuthoredIsMadeFrom(d, t.outbox, draft);
      UpsertKeepsRows(t, after, r);
      forall other: Text ensures Agrees(after, other) {
        RecordAgrees(t, after, row, r, id, input, draws, other);
      }
    }
  }

  lemma {:induction false} RecordAgrees(
      t: Tables, after: Tables, row: OutboxRow, r: ResponseRow, id: Text, input: RecordInput, draws: Draws, other: Text)
    requires Agrees(t, other) && MadeFrom(row, RecordDraft(id, input, draws))
    requires r.inspectionId == id
    requires EntryOf(r) == Entry(input.checkpointRef, Answer(input.response, KeptRemark(input.remark)))
    requires after == t.(outbox := t.outbox + [row], responses := Upsert(t.responses, r))
    ensures Agrees(after, other)
  {
    EventTypesDiffer();
    OneMoreRow(t.outbox, row, other);
    RecordedRowAnswers(row, id, input, draws, other);
    UpsertPuts(t.responses, r, other);
  }

  /** What a sign-off that stops early leaves behind: findings, and no submission. */
  lemma {:induction false} FindingsAreQuiet(
      rows: seq<OutboxRow>, after: seq<OutboxRow>, inspection: InspectionRow, rating: RatingResult,
      findings: seq<ProvisionalFinding>, s: SignOff, draws: Draws, id: Text)
    requires Continues(rows, after, SubmitDrafts(inspection, rating, findings, s, draws))
    requires |after| <= |rows| + |findings|
    ensures LogAnswers(after, id) == LogAnswers(rows, id) && Submissions(after, id) == Submissions(rows, id)
  {
    EventTypesDiffer();
    var more := after[|rows|..];
    assert after == rows + more;
    forall i | 0 <= i < |more| ensures more[i].eventType == RAISED {
      assert MadeFrom(after[|rows| + i], SubmitDrafts(inspection, rating, findings, s, draws)[i]);
    }
    QuietRows(rows, more, id);
  }

  /** A sign-off that completes adds one submission, and no answer. */
  lemma {:induction false} SubmissionCounts(
      rows: seq<OutboxRow>, after: seq<OutboxRow>, inspection: InspectionRow, rating: RatingResult,
      findings: seq<ProvisionalFinding>, s: SignOff, draws: Draws, id: Text)
    requires Continues(rows, after, SubmitDrafts(inspection, rating, findings, s, draws))
    requires |after| == |rows| + |findings| + 1
    ensures LogAnswers(after, id) == LogAnswers(rows, id)
    ensures Submissions(after, id) == Submissions(rows, id) + (if id == inspection.id then 1 else 0)
  {
    EventTypesDiffer();
    var n, drafts := |findings|, SubmitDrafts(inspection, rating, findings, s, draws);
    var before, last := after[..|rows| + n], after[|rows| + n];
    forall i | 0 <= i < n ensures MadeFrom(before[|rows| + i], drafts[i]) {
      assert MadeFrom(after[|rows| + i], drafts[i]);
    }
    assert Continues(rows, before, drafts);
    FindingsAreQuiet(rows, before, inspection, rating, findings, s, draws, id);
    assert MadeFrom(last, drafts[n]);
    SubmissionRow(last, inspection, rating, n, s, draws, id);
    OneMoreRow(before, last, id);
    assert after == before + [last];
  }

  lemma {:induction false} SubmissionRow(
      row: OutboxRow, inspection: InspectionRow, rating: RatingResult, n: nat, s: SignOff, draws: Draws, id: Text)
    requires MadeFrom(row, SubmitDraft(inspection, rating, n, s, draws))
    ensures AnswerIn(row, id).None? && (IsSubmission(row, id) <==> id == inspection.id)
  {
    EventTypesDiffer();
  }

  /** A sign-off writes findings and a submission, nothing else. */
  lemma {:induction false} SignOffWrites(
      rows: seq<OutboxRow>, after: seq<OutboxRow>, inspection: InspectionRow, rating: RatingResult,
      findings: seq<ProvisionalFinding>, s: SignOff, draws: Draws)
    requires Continues(rows, after, SubmitDrafts(inspection, rating, findings, s, draws))
    ensures rows <= after
    ensures forall i | |rows| <= i < |after| :: after[i].eventType == RAISED || after[i].eventType == SUBMITTED
  {
    forall i | |rows| <= i < |after| ensures after[i].eventType == RAISED || after[i].eventType == SUBMITTED {
      assert MadeFrom(after[|rows| + (i - |rows|)], SubmitDrafts(inspection, rating, findings, s, draws)[i - |rows|]);
    }
  }

  /** Every check `submit` makes before it writes anything. */
  predicate ReadyToSign(t: Tables, id: Text) {
    && FindInspection(t.inspections, id).Some? && !FindInspection(t.inspections, id).value.submitted
    && UnansweredRefs(t, id) == Success([])
    && RatingOf(t, id).Success? && ProvisionalFindings(t, id).Success?
  }

  function DraftsOf(t: Tables, id: Text, s: SignOff, draws: Draws): seq<Draft>
    requires ReadyToSign(t, id)
  {
    SubmitDrafts(FindInspection(t.inspections, id).value, RatingOf(t, id).value, ProvisionalFindings(t, id).value, s, draws)
  }

  lemma {:induction false} SignedOffParts(d: Device, t: Tables, id: Text, s: SignOff, draws: Draws)
    ensures !ReadyToSign(t, id) ==> SignedOff(d, t, id, s, draws).0 == t && SignedOff(d, t, id, s, draws).1.Failure?
    ensures ReadyToSign(t, id) ==>
              var (rows, stopped) := AuthorAll(d, t.outbox, DraftsOf(t, id, s, draws));
              SignedOff(d, t, id, s, draws)
              == match SubmitError(ProvisionalFindings(t, id).value, s, stopped)
                 case Some(e) => (t.(outbox := rows), Failure(e))
                 case None =>
                   (t.(outbox := rows,
                       inspections := Submitted(t.inspections, id, RatingOf(t, id).value, SignaturesOf(s))),
                    Success(RatingOf(t, id).value))
  {
  }

  lemma {:induction false} SignOffStep(d: Device, t: Tables, id: Text, s: SignOff, draws: Draws)
    requires Consistent(d, t)
    ensures Consistent(d, SignedOff(d, t, id, s, draws).0)
  {
    SignedOffParts(d, t, id, s, draws);
    if ReadyToSign(t, id) {
      var drafts := DraftsOf(t, id, s, draws);
      var after := SignedOff(d, t, id, s, draws).0;
      AuthorAllKeepsGoodLog(d, t.outbox, drafts);
      AuthorAllMade(d, t.outbox, drafts);
      forall other: Text ensures Agrees(after, other) {
        SignOffAgrees(d, t, id, s, draws, other);
      }
      forall other: Text | FindInspection(t.inspections, other).Some?
        ensures FindInspection(after.inspections, other).Some?
        ensures FindInspection(after.inspections, other).value.versionId
             == FindInspection(t.inspections, other).value.versionId
      {
        FindAfterSubmit(t.inspections, id, RatingOf(t, id).value, SignaturesOf(s), other);
      }
      forall i | 0 <= i < |after.responses| ensures ObeysInstrument(after, after.responses[i]) {
        SameCheckpoints(t, after, t.responses[i]);
      }
    }
  }

  lemma {:induction false} SignOffAgrees(d: Device, t: Tables, id: Text, s: SignOff, draws: Draws, other: Text)
    requires ReadyToSign(t, id) && Agrees(t, other)
    requires Agrees(t, id)
    ensures Agrees(SignedOff(d, t, id, s, draws).0, other)
  {
    SignedOffParts(d, t, id, s, draws);
    var drafts := DraftsOf(t, id, s, draws);
    var inspection, rating := FindInspection(t.inspections, id).value, RatingOf(t, id).value;
    var findings := ProvisionalFindings(t, id).value;
    var written := AuthorAll(d, t.outbox, drafts);
    AuthorAllMade(d, t.outbox, drafts);
    if SubmitError(findings, s, written.1).Some? {
      FindingsAreQuiet(t.outbox, written.0, inspection, rating, findings, s, draws, other);
    } else {
      SubmissionCounts(t.outbox, written.0, inspection, rating, findings, s, draws, other);
      FindAfterSubmit(t.inspections, id, rating, SignaturesOf(s), other);
    }
  }

  /** Acknowledging rows says nothing of any inspection. */
  lemma {:induction false} AcksSayNothing(rows: seq<OutboxRow>, ids: seq<Text>, id: Text)
    ensures LogAnswers(AckAll(rows, ids), id) == LogAnswers(rows, id)
    ensures Submissions(AckAll(rows, ids), id) == Submissions(rows, id)
  {
    if rows != [] {
      var n := |rows| - 1;
      AcksSayNothing(rows[..n], ids, id);
      assert AckAll(rows, ids)[..n] == AckAll(rows[..n], ids);
      assert AnswerIn(AckAll(rows, ids)[n], id) == AnswerIn(rows[n], id);
    }
  }

  lemma {:induction false} SyncStep(d: Device, t: Tables, ids: seq<Text>)
    requires Consistent(d, t)
    ensures Consistent(d, Synced(t, ids))
  {
    var after := Synced(t, ids);
    GoodLogIgnoresFlags(d, t.outbox, after.outbox);
    forall id: Text ensures Agrees(after, id) {
      AcksSayNothing(t.outbox, ids, id);
      assert Agrees(t, id);
    }
    forall i | 0 <= i < |after.responses| ensures ObeysInstrument(after, after.responses[i]) {
      SameCheckpoints(t, after, t.responses[i]);
    }
  }

  lemma {:induction false} ApplyKeepsConsistent(d: Device, t: Tables, op: Op)
    requires Consistent(d, t)
    ensures Consistent(d, Apply(d, t, op))
  {
    match op
    case Start(input, draws) => StartStep(d, t, input, draws);
    case Record(id, answer, draws) => RecordStep(d, t, id, answer, draws);
    case Capture(id, exhibit, draws) => CaptureStep(d, t, id, exhibit, draws);
    case SignOffOp(id, signOff, draws) => SignOffStep(d, t, id, signOff, draws);
    case Sync(ids) => SyncStep(d, t, ids);
  }
}
