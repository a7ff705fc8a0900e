/** What the inspection table and the log keep of each other. */
module InspectionRecords {
  import opened Wrappers
  import opened Texts
  import opened Json
  import opened Events
  import opened Scoring
  import opened Store
  import opened Outbox
  import opened Inspection
  import opened InspectionLog
  import opened InspectionSteps
  import opened InspectionRuns
  import opened SignOffs
  import opened Corrections

  // ------------------------------------------------------ the signed rating

  /** Row `k` of the log submits `id` with the rating of the log before it, and with as many
      findings as that has refs answered No. */
  ghost predicate SubmittedAt(rows: seq<OutboxRow>, k: nat, id: Text, rating: RatingResult, version: InstrumentVersion) {
    && k < |rows|
    && SubmitsWith(rows[k], id, |NoRefs(LogAnswers(rows[..k], id))|, rating)
    && rating == LogRating(rows[..k], id, version)
  }

  ghost predicate RatingRecorded(t: Tables, id: Text) {
    match FindInspection(t.inspections, id)
    case None => true
    case Some(row) =>
      if !row.submitted then row.rating.None?
      else
        && row.rating.Some? && VersionOf(t, id).Success?
        && exists k: nat :: SubmittedAt(t.outbox, k, id, row.rating.value, VersionOf(t, id).value)
  }

  lemma {:induction false} SubmittedStill(
      rows: seq<OutboxRow>, more: seq<OutboxRow>, k: nat, id: Text, rating: RatingResult, version: InstrumentVersion)
    requires SubmittedAt(rows, k, id, rating, version) && rows <= more
    ensures SubmittedAt(more, k, id, rating, version)
  {
    assert more[..k] == rows[..k];
  }

  lemma {:induction false} SameSubmission(x: OutboxRow, y: OutboxRow, id: Text, findings: nat, rating: RatingResult)
    requires SameRow(x, y) && SubmitsWith(x, id, findings, rating)
    ensures SubmitsWith(y, id, findings, rating)
  {
  }

  lemma {:induction false} SubmittedAcked(
      rows: seq<OutboxRow>, ids: seq<Text>, k: nat, id: Text, rating: RatingResult, version: InstrumentVersion)
    requires SubmittedAt(rows, k, id, rating, version)
    ensures SubmittedAt(AckAll(rows, ids), k, id, rating, version)
  {
    AcksSayNothing(rows[..k], ids, id);
    SameSubmission(rows[k], AckAll(rows, ids)[k], id, |NoRefs(LogAnswers(rows[..k], id))|, rating);
    assert AckAll(rows, ids)[..k] == AckAll(rows[..k], ids);
  }

  /** The log grows and the row of the inspection stays. */
  lemma {:induction false} RatingStays(t: Tables, after: Tables, id: Text)
    requires RatingRecorded(t, id) && t.outbox <= after.outbox
    requires FindInspection(after.inspections, id) == FindInspection(t.inspections, id)
    requires VersionOf(t, id).Success? ==> VersionOf(after, id) == VersionOf(t, id)
    ensures RatingRecorded(after, id)
  {
    if IsSubmitted(t, id) {
      var rating, version := FindInspection(t.inspections, id).value.rating.value, VersionOf(t, id).value;
      var k: nat :| SubmittedAt(t.outbox, k, id, rating, version);
      SubmittedStill(t.outbox, after.outbox, k, id, rating, version);
    }
  }

  lemma {:induction false} SyncKeepsRating(t: Tables, ids: seq<Text>, id: Text)
    requires RatingRecorded(t, id)
    ensures RatingRecorded(Synced(t, ids), id)
  {
    if IsSubmitted(t, id) {
      var rating, version := FindInspection(t.inspections, id).value.rating.value, VersionOf(t, id).value;
      var k: nat :| SubmittedAt(t.outbox, k, id, rating, version);
      SubmittedAcked(t.outbox, ids, k, id, rating, version);
    }
  }

  lemma {:induction false} StartKeepsRating(d: Device, t: Tables, input: StartInput, draws: Draws, id: Text)
    requires RatingRecorded(t, id)
    ensures RatingRecorded(Started(d, t, input, draws).0, id)
  {
    var after := Started(d, t, input, draws).0;
    if after.inspections != t.inspections {
      var version := FindVersionForType(t.versions, t.facilities[input.facilityId]).value;
      FindAfterInsert(t.inspections, NewInspection(draws.uuid(0), input, version), id);
    }
    if FindInspection(t.inspections, id).Some? {
      RatingStays(t, after, id);
    }
  }

  /** The sign-off of the inspection itself. */
  lemma {:induction false} SignOffRecordsRating(d: Device, t: Tables, id: Text, s: SignOff, draws: Draws)
    requires Consistent(d, t) && SignedOff(d, t, id, s, draws).1.Success?
    ensures RatingRecorded(SignedOff(d, t, id, s, draws).0, id)
  {
    SignedOffParts(d, t, id, s, draws);
    var after, rating := SignedOff(d, t, id, s, draws).0, RatingOf(t, id).value;
    FindAfterSubmit(t.inspections, id, rating, SignaturesOf(s), id);
    SignOffKeepsVersion(d, t, id, s, draws, id);
    SubmissionIsLast(d, t, id, s, draws, after.outbox);
  }

  lemma {:induction false} SubmissionIsLast(
      d: Device, t: Tables, id: Text, s: SignOff, draws: Draws, after: seq<OutboxRow>)
    requires Consistent(d, t) && ReadyToSign(t, id) && AllDated(ProvisionalFindings(t, id).value, s)
    requires AuthorAll(d, t.outbox, DraftsOf(t, id, s, draws)) == (after, None)
    ensures VersionOf(t, id).Success? && after != []
    ensures SubmittedAt(after, |after| - 1, id, RatingOf(t, id).value, VersionOf(t, id).value)
  {
    var inspection, rating := FindInspection(t.inspections, id).value, RatingOf(t, id).value;
    var findings := ProvisionalFindings(t, id).value;
    AuthorAllMade(d, t.outbox, DraftsOf(t, id, s, draws));
    ConsistentRating(d, t, id);
    FindingsAreDerived(d, t, id);
    AdverseRefs(d, t, id);
    LastRowSubmits(t.outbox, after, inspection, rating, findings, s, draws);
    assert FindInspection(t.inspections, id).value.id == id;
  }

  lemma {:induction false} LastRowSubmits(
      rows: seq<OutboxRow>, after: seq<OutboxRow>, inspection: InspectionRow, rating: RatingResult,
      findings: seq<ProvisionalFinding>, s: SignOff, draws: Draws)
    requires Continues(rows, after, SubmitDrafts(inspection, rating, findings, s, draws))
    requires |after| == |rows| + |findings| + 1
    ensures SubmitsWith(after[|after| - 1], inspection.id, |findings|, rating)
    ensures LogAnswers(after[..|after| - 1], inspection.id) == LogAnswers(rows, inspection.id)
  {
    var drafts, before := SubmitDrafts(inspection, rating, findings, s, draws), after[..|after| - 1];
    assert MadeFrom(after[|rows| + |findings|], drafts[|findings|]);
    SubmitRow(after[|after| - 1], inspection, rating, |findings|, s, draws);
    forall i | 0 <= i < |before| - |rows| ensures MadeFrom(before[|rows| + i], drafts[i]) {
      assert MadeFrom(after[|rows| + i], drafts[i]);
    }
    FindingsAreQuiet(rows, before, inspection, rating, findings, s, draws, inspection.id);
  }

  lemma {:induction false} SignOffKeepsRating(d: Device, t: Tables, other: Text, s: SignOff, draws: Draws, id: Text)
    requires Consistent(d, t) && RatingRecorded(t, id)
    ensures RatingRecorded(SignedOff(d, t, other, s, draws).0, id)
  {
    SignedOffParts(d, t, other, s, draws);
    if SignedOff(d, t, other, s, draws).1.Success? && id == other {
      SignOffRecordsRating(d, t, id, s, draws);
    } else if ReadyToSign(t, other) {
      AuthorAllMade(d, t.outbox, DraftsOf(t, other, s, draws));
      FindAfterSubmit(t.inspections, other, RatingOf(t, other).value, SignaturesOf(s), id);
      if VersionOf(t, id).Success? {
        SignOffKeepsVersion(d, t, other, s, draws, id);
      }
      RatingStays(t, SignedOff(d, t, other, s, draws).0, id);
    }
  }

  lemma {:induction false} AnswerKeepsRating(d: Device, t: Tables, other: Text, input: RecordInput, draws: Draws, id: Text)
    requires RatingRecorded(t, id)
    ensures RatingRecorded(Recorded(d, t, other, input, draws).0, id)
  {
    RecordKeepsVersion(d, t, other, input, draws, id);
    RatingStays(t, Recorded(d, t, other, input, draws).0, id);
  }

  lemma {:induction false} CaptureKeepsRating(d: Device, t: Tables, other: Text, input: CaptureInput, draws: Draws, id: Text)
    requires RatingRecorded(t, id)
    ensures RatingRecorded(Captured(d, t, other, input, draws).0, id)
  {
    CaptureKeepsVersion(d, t, other, input, draws, id);
    RatingStays(t, Captured(d, t, other, input, draws).0, id);
  }

  lemma {:induction false} ApplyKeepsRating(d: Device, t: Tables, op: Op, id: Text)
    requires Consistent(d, t) && RatingRecorded(t, id)
    ensures RatingRecorded(Apply(d, t, op), id)
  {
    match op
    case Start(input, draws) => StartKeepsRating(d, t, input, draws, id);
    case Record(other, input, draws) => AnswerKeepsRating(d, t, other, input, draws, id);
    case Capture(other, input, draws) => CaptureKeepsRating(d, t, other, input, draws, id);
    case SignOffOp(other, s, draws) => SignOffKeepsRating(d, t, other, s, draws, id);
    case Sync(ids) => SyncKeepsRating(t, ids, id);
  }

  /** After any run, whatever was done since: an inspection that is marked submitted holds
      the rating that its `InspectionSubmitted` event carries, and that is the rating of the
      log as it stood before that event. One that is not so marked holds none. */
  lemma {:induction false} SignedRatingIsTheLogs(
      d: Device, versions: seq<InstrumentVersion>, facilities: map<Text, Text>, ops: seq<Op>, id: Text)
    ensures RatingRecorded(RunOps(d, versions, facilities, ops), id)
  {
    if ops != [] {
      var before := ops[..|ops| - 1];
      SignedRatingIsTheLogs(d, versions, facilities, before, id);
      EveryRunIsConsistent(d, versions, facilities, before);
      ApplyKeepsRating(d, RunOps(d, versions, facilities, before), ops[|ops| - 1], id);
    }
  }

  // ------------------------------------------------------- rows and starts

  predicate IsStart(row: OutboxRow, id: Text) {
    SameAggregate(row, Ascii("inspection"), id) && row.eventType == Ascii("InspectionStarted")
  }

  function Starts(rows: seq<OutboxRow>, id: Text): nat {
    if rows == [] then 0
    else Starts(rows[..|rows| - 1], id) + (if IsStart(rows[|rows| - 1], id) then 1 else 0)
  }

  /** The event and the row are of one visit. */
  predicate OfVisit(row: OutboxRow, visit: InspectionRow) {
    && TextOf(row, Ascii("reference")) == Some(visit.reference)
    && TextOf(row, Ascii("facilityId")) == Some(visit.facilityId)
    && TextOf(row, Ascii("instrumentVersionId")) == Some(visit.versionId)
    && TextOf(row, Ascii("structureHash")) == Some(visit.structureHash)
    && CheckinIn(FieldOf(row, Ascii("checkin"))) == Some(visit.checkin)
  }

  /** Every start of `id` in the log is of the row that stands under `id`. */
  ghost predicate StartsMatch(t: Tables, id: Text) {
    forall i | 0 <= i < |t.outbox| && IsStart(t.outbox[i], id) ::
      FindInspection(t.inspections, id).Some? && OfVisit(t.outbox[i], FindInspection(t.inspections, id).value)
  }

  /** The call begins the visit `id`: its row is inserted. */
  predicate Begins(t: Tables, op: Op, id: Text) {
    && op.Start? && op.draws.uuid(0) == id && FindInspection(t.inspections, id).None?
    && op.input.facilityId in t.facilities
    && FindVersionForType(t.versions, t.facilities[op.input.facilityId]).Some?
  }

  /** And the event is authored. */
  predicate Completes(t: Tables, op: Op, id: Text) {
    Begins(t, op, id) && FiniteCheckin(op.input.checkin) && UnusedEvent(t, op.draws.uuid(1))
  }

  /** Some call of the run began the visit and authored its event. */
  predicate StartedWhole(
      d: Device, versions: seq<InstrumentVersion>, facilities: map<Text, Text>, ops: seq<Op>, id: Text)
  {
    ops != [] &&
    var before, last := ops[..|ops| - 1], ops[|ops| - 1];
    StartedWhole(d, versions, facilities, before, id) || Completes(RunOps(d, versions, facilities, before), last, id)
  }

  /** Some call of the run began the visit and threw while authoring its event. */
  predicate StartedHalf(
      d: Device, versions: seq<InstrumentVersion>, facilities: map<Text, Text>, ops: seq<Op>, id: Text)
  {
    ops != [] &&
    var before, last := ops[..|ops| - 1], ops[|ops| - 1];
    var t := RunOps(d, versions, facilities, before);
    StartedHalf(d, versions, facilities, before, id) || (Begins(t, last, id) && !Completes(t, last, id))
  }

  /** What a call does to the visit `id`: its row, and the starts in the log. */
  ghost predicate StartStep(t: Tables, after: Tables, id: Text, begins: bool, completes: bool) {
    && (FindInspection(after.inspections, id).Some? <==> FindInspection(t.inspections, id).Some? || begins)
    && (begins ==> FindInspection(t.inspections, id).None?)
    && Starts(after.outbox, id) == Starts(t.outbox, id) + (if completes then 1 else 0)
    && (StartsMatch(t, id) ==> StartsMatch(after, id))
  }

  lemma {:induction false} NoStarts(rows: seq<OutboxRow>, more: seq<OutboxRow>, id: Text)
    requires rows <= more && forall i | |rows| <= i < |more| :: more[i].eventType != STARTED
    ensures Starts(more, id) == Starts(rows, id)
    decreases |more|
  {
    if |more| > |rows| {
      NoStarts(rows, more[..|more| - 1], id);
    } else {
      assert more == rows;
    }
  }

  /** The call starts nothing, and the row of `id` is the same but for its signing off. */
  ghost predicate StartsNothing(t: Tables, after: Tables, id: Text) {
    && t.outbox <= after.outbox
    && (forall i | |t.outbox| <= i < |after.outbox| :: after.outbox[i].eventType != STARTED)
    && match FindInspection(t.inspections, id)
       case None => FindInspection(after.inspections, id).None?
       case Some(row) =>
         && FindInspection(after.inspections, id).Some?
         && FindInspection(after.inspections, id).value.(submitted := false, rating := None, signatures := None)
            == row.(submitted := false, rating := None, signatures := None)
  }

  lemma {:induction false} QuietStarts(t: Tables, after: Tables, id: Text)
    requires StartsNothing(t, after, id)
    ensures StartStep(t, after, id, false, false)
  {
    NoStarts(t.outbox, after.outbox, id);
    if StartsMatch(t, id) {
      forall i | 0 <= i < |after.outbox| && IsStart(after.outbox[i], id)
        ensures FindInspection(after.inspections, id).Some?
        ensures OfVisit(after.outbox[i], FindInspection(after.inspections, id).value)
      {
        assert after.outbox[i] == t.outbox[i];
      }
    }
  }

  lemma {:induction false} StartedRow(
      row: OutboxRow, id: Text, input: StartInput, version: InstrumentVersion, eventId: Text, now: int)
    requires MadeFrom(row, Draft(INSPECTION, id, STARTED,
                                 StartedPayload(input.reference, input.facilityId, version, input.checkin), eventId, now))
    requires FiniteCheckin(input.checkin)
    ensures IsStart(row, id) && OfVisit(row, NewInspection(id, input, version))
  {
    var pairs := StartedPairs(input.reference, input.facilityId, version, input.checkin);
    var draft := Draft(INSPECTION, id, STARTED,
                       StartedPayload(input.reference, input.facilityId, version, input.checkin), eventId, now);
    StartedKeys(input.reference, input.facilityId, version, input.checkin);
    StoredText(row, draft, pairs, 0, Ascii("reference"), input.reference);
    StoredText(row, draft, pairs, 1, Ascii("facilityId"), input.facilityId);
    StoredText(row, draft, pairs, 2, Ascii("instrumentVersionId"), version.id);
    StoredText(row, draft, pairs, 3, Ascii("structureHash"), version.structureHash);
    StoredField(row, draft, pairs, 4);
    CheckinIsRead(input.checkin);
  }

  lemma {:induction false} StartedKeys(
      reference: Text, facilityId: Text, version: InstrumentVersion, checkin: Checkin)
    ensures DistinctKeys(StartedPairs(reference, facilityId, version, checkin))
  {
    var pairs := StartedPairs(reference, facilityId, version, checkin);
    assert forall i | 0 <= i < |pairs| :: |pairs[i].0| == [9, 10, 19, 13, 7][i];
  }

  /** A visit begins: its row is inserted, and its event may be authored. */
  lemma {:induction false} BeginStep(
      t: Tables, after: Tables, id: Text, visit: InspectionRow, row: OutboxRow, completes: bool)
    requires FindInspection(t.inspections, id).None? && visit.id == id && after.inspections == t.inspections + [visit]
    requires after.outbox == if completes then t.outbox + [row] else t.outbox
    requires completes ==> IsStart(row, id) && OfVisit(row, visit)
    ensures StartStep(t, after, id, true, completes)
  {
    FindAfterInsert(t.inspections, visit, id);
    if completes {
      assert (t.outbox + [row])[..|t.outbox|] == t.outbox;
    }
    if StartsMatch(t, id) {
      assert forall i | 0 <= i < |t.outbox| :: !IsStart(t.outbox[i], id);
    }
  }

  /** Another visit begins. */
  lemma {:induction false} OtherBegins(
      t: Tables, after: Tables, id: Text, visit: InspectionRow, row: OutboxRow, completes: bool)
    requires visit.id != id && after.inspections == t.inspections + [visit]
    requires after.outbox == if completes then t.outbox + [row] else t.outbox
    requires completes ==> IsStart(row, visit.id)
    ensures StartStep(t, after, id, false, false)
  {
    FindAfterInsert(t.inspections, visit, id);
    if completes {
      assert (t.outbox + [row])[..|t.outbox|] == t.outbox;
    }
    if StartsMatch(t, id) {
      forall i | 0 <= i < |after.outbox| && IsStart(after.outbox[i], id)
        ensures FindInspection(after.inspections, id).Some?
        ensures OfVisit(after.outbox[i], FindInspection(after.inspections, id).value)
      {
        assert i < |t.outbox| && after.outbox[i] == t.outbox[i];
      }
    }
  }

  /** The row is inserted, and the event is authored or not. */
  lemma {:induction false} InsertedStep(
      d: Device, t: Tables, visit: InspectionRow, input: StartInput, version: InstrumentVersion, draft: Draft, id: Text)
    requires FindInspection(t.inspections, visit.id).None? && visit == NewInspection(visit.id, input, version)
    requires draft == Draft(INSPECTION, visit.id, STARTED,
                            StartedPayload(input.reference, input.facilityId, version, input.checkin),
                            draft.eventId, draft.now)
    ensures var authored := Authored(d, t.outbox, draft);
            var after := t.(inspections := t.inspections + [visit],
                            outbox := if authored.Success? then t.outbox + [authored.value.1] else t.outbox);
            StartStep(t, after, id, visit.id == id, visit.id == id && authored.Success?)
  {
    var authored := Authored(d, t.outbox, draft);
    var after := t.(inspections := t.inspections + [visit],
                    outbox := if authored.Success? then t.outbox + [authored.value.1] else t.outbox);
    if authored.Success? {
      AuthoredIsMadeFrom(d, t.outbox, draft);
      StartIsPlain(input, version);
      StartedRow(authored.value.1, visit.id, input, version, draft.eventId, draft.now);
      if visit.id == id {
        BeginStep(t, after, id, visit, authored.value.1, true);
      } else {
        OtherBegins(t, after, id, visit, authored.value.1, true);
      }
    } else {
      RowWithoutEvent(t, after, visit, id);
    }
  }

  lemma {:induction false} RowWithoutEvent(t: Tables, after: Tables, visit: InspectionRow, id: Text)
    requires FindInspection(t.inspections, visit.id).None? && after == t.(inspections := t.inspections + [visit])
    ensures StartStep(t, after, id, visit.id == id, false)
  {
    FindAfterInsert(t.inspections, visit, id);
  }

  lemma {:induction false} StartCall(d: Device, t: Tables, input: StartInput, draws: Draws, id: Text)
    requires Consistent(d, t)
    ensures var op := Op.Start(input, draws);
            StartStep(t, Started(d, t, input, draws).0, id, Begins(t, op, id), Completes(t, op, id))
  {
    StartIsTaken(d, t, input, draws);
    if Begins(t, Op.Start(input, draws), draws.uuid(0)) {
      var version := FindVersionForType(t.versions, t.facilities[input.facilityId]).value;
      var payload := StartedPayload(input.reference, input.facilityId, version, input.checkin);
      InsertedStep(d, t, NewInspection(draws.uuid(0), input, version), input, version,
                   Draft(INSPECTION, draws.uuid(0), STARTED, payload, draws.uuid(1), draws.now(0)), id);
    }
  }

  /** A call that authors one event, of another kind, or none. */
  lemma {:induction false} OneEventStartsNothing(d: Device, t: Tables, after: Tables, draft: Draft, id: Text)
    requires after.inspections == t.inspections && draft.eventType != STARTED
    requires after.outbox == t.outbox
          || (Authored(d, t.outbox, draft).Success?
              && after.outbox == t.outbox + [Authored(d, t.outbox, draft).value.1])
    ensures StartsNothing(t, after, id)
  {
    if Authored(d, t.outbox, draft).Success? {
      AuthoredIsMadeFrom(d, t.outbox, draft);
    }
  }

  lemma {:induction false} AnswerCall(d: Device, t: Tables, other: Text, input: RecordInput, draws: Draws, id: Text)
    ensures StartStep(t, Recorded(d, t, other, input, draws).0, id, false, false)
  {
    EventTypesDiffer();
    OneEventStartsNothing(d, t, Recorded(d, t, other, input, draws).0, RecordDraft(other, input, draws), id);
    QuietStarts(t, Recorded(d, t, other, input, draws).0, id);
  }

  lemma {:induction false} CaptureCall(d: Device, t: Tables, other: Text, input: CaptureInput, draws: Draws, id: Text)
    ensures StartStep(t, Captured(d, t, other, input, draws).0, id, false, false)
  {
    EventTypesDiffer();
    OneEventStartsNothing(d, t, Captured(d, t, other, input, draws).0, CaptureDraft(other, input, draws), id);
    QuietStarts(t, Captured(d, t, other, input, draws).0, id);
  }

  lemma {:induction false} SignOffStartsNothing(
      t: Tables, after: Tables, inspection: InspectionRow, rating: RatingResult, findings: seq<ProvisionalFinding>,
      s: SignOff, draws: Draws, id: Text)
    requires Continues(t.outbox, after.outbox, SubmitDrafts(inspection, rating, findings, s, draws))
    requires after.inspections == t.inspections
          || after.inspections == Submitted(t.inspections, inspection.id, rating, SignaturesOf(s))
    ensures StartsNothing(t, after, id)
  {
    SignOffWrites(t.outbox, after.outbox, inspection, rating, findings, s, draws);
    EventTypesDiffer();
    FindAfterSubmit(t.inspections, inspection.id, rating, SignaturesOf(s), id);
  }

  lemma {:induction false} SignOffCall(d: Device, t: Tables, other: Text, s: SignOff, draws: Draws, id: Text)
    ensures StartStep(t, SignedOff(d, t, other, s, draws).0, id, false, false)
  {
    var after := SignedOff(d, t, other, s, draws).0;
    SignedOffParts(d, t, other, s, draws);
    if ReadyToSign(t, other) {
      AuthorAllMade(d, t.outbox, DraftsOf(t, other, s, draws));
      SignOffStartsNothing(t, after, FindInspection(t.inspections, other).value, RatingOf(t, other).value,
                           ProvisionalFindings(t, other).value, s, draws, id);
    }
    QuietStarts(t, after, id);
  }

  lemma {:induction false} AcksStartNothing(rows: seq<OutboxRow>, ids: seq<Text>, id: Text)
    ensures Starts(AckAll(rows, ids), id) == Starts(rows, id)
  {
    if rows != [] {
      AcksStartNothing(rows[..|rows| - 1], ids, id);
      assert AckAll(rows, ids)[..|rows| - 1] == AckAll(rows[..|rows| - 1], ids);
    }
  }

  lemma {:induction false} SyncCall(t: Tables, ids: seq<Text>, id: Text)
    ensures StartStep(t, Synced(t, ids), id, false, false)
  {
    AcksStartNothing(t.outbox, ids, id);
    if StartsMatch(t, id) {
      forall i | 0 <= i < |t.outbox| && IsStart(Synced(t, ids).outbox[i], id)
        ensures FindInspection(t.inspections, id).Some?
        ensures OfVisit(Synced(t, ids).outbox[i], FindInspection(t.inspections, id).value)
      {
        assert IsStart(t.outbox[i], id);
      }
    }
  }

  lemma {:induction false} EveryCall(d: Device, t: Tables, op: Op, id: Text)
    requires Consistent(d, t)
    ensures StartStep(t, Apply(d, t, op), id, Begins(t, op, id), Completes(t, op, id))
  {
    match op
    case Start(input, draws) => StartCall(d, t, input, draws, id);
    case Record(other, input, draws) => AnswerCall(d, t, other, input, draws, id);
    case Capture(other, input, draws) => CaptureCall(d, t, other, input, draws, id);
    case SignOffOp(other, s, draws) => SignOffCall(d, t, other, s, draws, id);
    case Sync(ids) => SyncCall(t, ids, id);
  }

  /** After any run: an inspection has its row exactly when some call began it, and its one
      `InspectionStarted` event exactly when that call completed; otherwise it has a row and
      never an event. The event holds what the row holds. */
  lemma {:induction false} StartedExactlyWhen(
      d: Device, versions: seq<InstrumentVersion>, facilities: map<Text, Text>, ops: seq<Op>, id: Text)
    ensures var t := RunOps(d, versions, facilities, ops);
            var whole, half := StartedWhole(d, versions, facilities, ops, id), StartedHalf(d, versions, facilities, ops, id);
            && (FindInspection(t.inspections, id).Some? <==> whole || half) && !(whole && half)
            && Starts(t.outbox, id) == (if whole then 1 else 0)
            && StartsMatch(t, id)
  {
    if ops != [] {
      var before, last := ops[..|ops| - 1], ops[|ops| - 1];
      StartedExactlyWhen(d, versions, facilities, before, id);
      EveryRunIsConsistent(d, versions, facilities, before);
      EveryCall(d, RunOps(d, versions, facilities, before), last, id);
    }
  }

  /** A visit that starts is in the table as it was given, under an instrument for the type of
      its facility, unsigned. */
  lemma {:induction false} StartWrites(d: Device, t: Tables, input: StartInput, draws: Draws)
    requires Started(d, t, input, draws).1.Success?
    ensures var visit := FindInspection(Started(d, t, input, draws).0.inspections, draws.uuid(0));
            && Started(d, t, input, draws).1.value == draws.uuid(0) && visit.Some?
            && visit.value.reference == input.reference && visit.value.facilityId == input.facilityId
            && visit.value.checkin == input.checkin
            && !visit.value.submitted && visit.value.rating.None? && visit.value.signatures.None?
            && input.facilityId in t.facilities
            && exists v :: v in t.versions && v.facilityType == t.facilities[input.facilityId]
                           && v.id == visit.value.versionId && v.structureHash == visit.value.structureHash
  {
    var version := FindVersionForType(t.versions, t.facilities[input.facilityId]).value;
    FindAfterInsert(t.inspections, NewInspection(draws.uuid(0), input, version), draws.uuid(0));
  }

  // --------------------------------------------------- what an answer writes

  /** The evidence an answer names, as it is stored. */
  function EvidenceIn(row: OutboxRow): Option<seq<Text>> {
    match FieldOf(row, Ascii("evidenceIds"))
    case None => Some([])
    case Some(Arr(items)) => TextsIn(items)
    case _ => None
  }

  /** The row records this answer of the inspection. */
  ghost predicate HoldsAnswer(row: OutboxRow, id: Text, input: RecordInput) {
    && AnswerIn(row, id) == Some(Entry(input.checkpointRef,
         Answer(input.response, if HasWords(input.remark) then Some(Trim(input.remark.value)) else None)))
    && EvidenceIn(row) == Some(input.evidenceIds)
  }

  lemma {:induction false} AnswerRow(row: OutboxRow, id: Text, input: RecordInput, draws: Draws)
    requires MadeFrom(row, RecordDraft(id, input, draws))
    ensures HoldsAnswer(row, id, input)
  {
    RecordedRowAnswers(row, id, input, draws, id);
    KeptExactlyWhen(input.remark);
    var pairs := RecordedPairs(input.checkpointRef, input.response, KeptRemark(input.remark), input.evidenceIds);
    assert forall i | 0 <= i < |pairs| :: |pairs[i].0| == [13, 8, 6, 11][i];
    StoredField(row, RecordDraft(id, input, draws), pairs, 3);
    TextsAreRead(input.evidenceIds);
  }

  lemma {:induction false} FoundAfterUpsert(rows: seq<ResponseRow>, r: ResponseRow)
    ensures var found := FindResponse(Upsert(rows, r), r.inspectionId, r.checkpointRef);
            && found.Some? && found.value.response == r.response && found.value.remark == r.remark
            && found.value.recordedHlc == r.recordedHlc
  {
    if rows != [] && !SameKey(rows[0], r) {
      FoundAfterUpsert(rows[1..], r);
      assert Upsert(rows, r)[1..] == Upsert(rows[1..], r);
    }
  }

  /** An answer that is taken adds one row to the log, which holds the answer with its remark
      and evidence, and leaves it in the table under the stamp of that row. */
  lemma {:induction false} AnswerWrites(d: Device, t: Tables, id: Text, input: RecordInput, draws: Draws)
    requires Recorded(d, t, id, input, draws).1.Success?
    ensures var after := Recorded(d, t, id, input, draws).0;
            && |after.outbox| == |t.outbox| + 1 && after.outbox[..|t.outbox|] == t.outbox
            && HoldsAnswer(after.outbox[|t.outbox|], id, input)
            && FindResponse(after.responses, id, input.checkpointRef).Some?
            && FindResponse(after.responses, id, input.checkpointRef).value.recordedHlc == after.outbox[|t.outbox|].hlc
  {
    var draft := RecordDraft(id, input, draws);
    var row := Authored(d, t.outbox, draft).value.1;
    AuthoredIsMadeFrom(d, t.outbox, draft);
    AnswerRow(row, id, input, draws);
    FoundAfterUpsert(t.responses, ResponseRowFor(id, input, CheckpointOf(t, id, input.checkpointRef).value, row));
  }
}
