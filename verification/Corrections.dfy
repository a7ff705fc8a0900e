/** What later calls do to an inspection. */
module Corrections {
  import opened Wrappers
  import opened Texts
  import opened Json
  import opened Events
  import opened Scoring
  import opened Store
  import opened Outbox
  import opened Inspection
  import opened InspectionLog
  import opened InspectionSteps
  import opened InspectionRuns
  import opened SignOffs

  // Which calls are taken, what a correction does to the rating, and how long the rating
  // that was signed stands.

  lemma {:induction false} RunNext(
      d: Device, versions: seq<InstrumentVersion>, facilities: map<Text, Text>, ops: seq<Op>, op: Op)
    ensures RunOps(d, versions, facilities, ops + [op]) == Apply(d, RunOps(d, versions, facilities, ops), op)
  {
    assert (ops + [op])[..|ops|] == ops;
  }

  // -------------------------------------------------- when a call is taken

  predicate UnusedEvent(t: Tables, eventId: Text) {
    forall i | 0 <= i < |t.outbox| :: t.outbox[i].eventId != eventId
  }

  lemma {:induction false} ExhibitIsPlain(id: Text, input: CaptureInput, draws: Draws)
    ensures Plain(CaptureDraft(id, input, draws).payload) <==> Finite(input.at)
  {
    var pairs := CapturedPairs(draws.uuid(0), input);
    PlainPairs(pairs);
    assert pairs[5].1 == PointValue(input.at);
  }

  /** In a reachable state an exhibit is taken exactly when its checkpoint is on the
      instrument, its coordinates are numbers and its two ids are new, whether or not the
      inspection has been submitted. */
  lemma {:induction false} CaptureSucceedsExactlyWhen(
      d: Device, versions: seq<InstrumentVersion>, facilities: map<Text, Text>, ops: seq<Op>,
      id: Text, input: CaptureInput, draws: Draws)
    ensures var t := RunOps(d, versions, facilities, ops);
            Captured(d, t, id, input, draws).1.Success?
            == (&& CheckpointOf(t, id, input.checkpointRef).Success? && Finite(input.at)
                && !HasExhibit(t.evidence, draws.uuid(0)) && UnusedEvent(t, draws.uuid(1)))
  {
    var t := RunOps(d, versions, facilities, ops);
    EveryRunIsConsistent(d, versions, facilities, ops);
    ExhibitIsPlain(id, input, draws);
    AuthorSucceedsExactlyWhen(d, t.outbox, CaptureDraft(id, input, draws));
  }

  predicate FiniteCheckin(c: Checkin) {
    Finite(c.point) && c.distanceM.Num?
  }

  lemma {:induction false} CheckinIsPlain(c: Checkin)
    ensures Plain(CheckinValue(c)) <==> FiniteCheckin(c)
  {
    var pairs: seq<(Text, Value)> :=
      [(Ascii("point"), PointValue(c.point)), (Ascii("distanceFromRegisteredM"), c.distanceM),
       (Ascii("flagged"), Bool(c.flagged))];
    PlainPairs(pairs);
    assert pairs[0].1 == PointValue(c.point) && pairs[1].1 == c.distanceM;
  }

  lemma {:induction false} StartIsPlain(input: StartInput, version: InstrumentVersion)
    ensures Plain(StartedPayload(input.reference, input.facilityId, version, input.checkin)) <==> FiniteCheckin(input.checkin)
  {
    var pairs := StartedPairs(input.reference, input.facilityId, version, input.checkin);
    PlainPairs(pairs);
    CheckinIsPlain(input.checkin);
    assert pairs[4].1 == CheckinValue(input.checkin);
  }

  lemma {:induction false} StartIsTaken(d: Device, t: Tables, input: StartInput, draws: Draws)
    requires Consistent(d, t)
    ensures Started(d, t, input, draws).1.Success?
            == (&& input.facilityId in t.facilities
                && FindVersionForType(t.versions, t.facilities[input.facilityId]).Some?
                && FindInspection(t.inspections, draws.uuid(0)).None?
                && FiniteCheckin(input.checkin) && UnusedEvent(t, draws.uuid(1)))
  {
    if input.facilityId in t.facilities && FindVersionForType(t.versions, t.facilities[input.facilityId]).Some? {
      var version := FindVersionForType(t.versions, t.facilities[input.facilityId]).value;
      StartIsPlain(input, version);
      var payload := StartedPayload(input.reference, input.facilityId, version, input.checkin);
      AuthorSucceedsExactlyWhen(
        d, t.outbox, Draft(INSPECTION, draws.uuid(0), STARTED, payload, draws.uuid(1), draws.now(0)));
    }
  }

  /** In a reachable state a visit starts exactly when the facility and an instrument for
      it are on the device, the check-in is made of numbers and the two ids are new. */
  lemma {:induction false} StartSucceedsExactlyWhen(
      d: Device, versions: seq<InstrumentVersion>, facilities: map<Text, Text>, ops: seq<Op>,
      input: StartInput, draws: Draws)
    ensures var t := RunOps(d, versions, facilities, ops);
            Started(d, t, input, draws).1.Success?
            == (&& input.facilityId in t.facilities
                && FindVersionForType(t.versions, t.facilities[input.facilityId]).Some?
                && FindInspection(t.inspections, draws.uuid(0)).None?
                && FiniteCheckin(input.checkin) && UnusedEvent(t, draws.uuid(1)))
  {
    EveryRunIsConsistent(d, versions, facilities, ops);
    StartIsTaken(d, RunOps(d, versions, facilities, ops), input, draws);
  }

  // ----------------------------------------------------- one more answer

  /** What an answer that is taken does: one event, the latest of its ref; every other
      ref, and every other table but the answers, is as it was. */
  lemma {:induction false} AnswerTaken(d: Device, t: Tables, id: Text, input: RecordInput, draws: Draws)
    requires Recorded(d, t, id, input, draws).1.Success?
    ensures var after := Recorded(d, t, id, input, draws).0;
            && after == t.(outbox := after.outbox, responses := after.responses)
            && |after.outbox| == |t.outbox| + 1 && t.outbox <= after.outbox
            && after.outbox[|t.outbox|].eventId == draws.uuid(0)
            && LogAnswers(after.outbox, id)
               == Put(LogAnswers(t.outbox, id), Entry(input.checkpointRef, Answer(input.response, KeptRemark(input.remark))))
  {
    var draft := RecordDraft(id, input, draws);
    var row := Authored(d, t.outbox, draft).value.1;
    AuthoredIsMadeFrom(d, t.outbox, draft);
    RecordedRowAnswers(row, id, input, draws, id);
    OneMoreRow(t.outbox, row, id);
  }

  lemma {:induction false} LookupAt(entries: seq<Entry>, ref: Text) returns (i: nat)
    requires Lookup(entries, ref).Some?
    ensures i < |entries| && entries[i].ref == ref && Some(entries[i].answer) == Lookup(entries, ref)
    ensures forall answer: Answer :: Put(entries, Entry(ref, answer)) == entries[i := Entry(ref, answer)]
  {
    if entries[0].ref == ref {
      i := 0;
    } else {
      var k := LookupAt(entries[1..], ref);
      i := k + 1;
      forall answer: Answer ensures Put(entries, Entry(ref, answer)) == entries[i := Entry(ref, answer)] {
        assert entries == [entries[0]] + entries[1..];
      }
    }
  }

  lemma {:induction false} CorrectedLines(sections: seq<Section>, entries: seq<Entry>, i: nat, e: Entry)
    requires i < |entries| && entries[i].ref == e.ref
    ensures var lines := LinesFor(sections, entries);
            LinesFor(sections, entries[i := e]) == lines[i := lines[i].(response := e.answer.response)]
  {
  }

  /** Over every run: once an answer of No is corrected to Yes or N/A, the rating on
      screen is no lower and its band no worse. */
  lemma {:induction false} RecordedCorrectionNeverHurts(
      d: Device, versions: seq<InstrumentVersion>, facilities: map<Text, Text>, ops: seq<Op>,
      id: Text, input: RecordInput, draws: Draws)
    requires var t := RunOps(d, versions, facilities, ops);
             && Recorded(d, t, id, input, draws).1.Success? && !input.response.No?
             && LatestAnswer(t.outbox, id, input.checkpointRef).Some?
             && LatestAnswer(t.outbox, id, input.checkpointRef).value.response.No?
    ensures var t := RunOps(d, versions, facilities, ops);
            var before, after := RatingOf(t, id), RatingOf(Recorded(d, t, id, input, draws).0, id);
            && before.Success? && after.Success?
            && after.value.hundredths >= before.value.hundredths && Rank(after.value.band) <= Rank(before.value.band)
  {
    var t := RunOps(d, versions, facilities, ops);
    var after := Recorded(d, t, id, input, draws).0;
    EveryRunIsConsistent(d, versions, facilities, ops);
    RecordStep(d, t, id, input, draws);
    AnswerTaken(d, t, id, input, draws);
    ConsistentRating(d, t, id);
    ConsistentRating(d, after, id);
    FoldFindsLatest(t.outbox, id, input.checkpointRef);
    var e := Entry(input.checkpointRef, Answer(input.response, KeptRemark(input.remark)));
    CorrectedRating(t.outbox, after.outbox, id, VersionOf(t, id).value, e);
  }

  lemma {:induction false} CorrectedRating(
      rows: seq<OutboxRow>, after: seq<OutboxRow>, id: Text, version: InstrumentVersion, e: Entry)
    requires Lookup(LogAnswers(rows, id), e.ref).Some? && Lookup(LogAnswers(rows, id), e.ref).value.response.No?
    requires !e.answer.response.No? && LogAnswers(after, id) == Put(LogAnswers(rows, id), e)
    ensures LogRating(after, id, version).hundredths >= LogRating(rows, id, version).hundredths
    ensures Rank(LogRating(after, id, version).band) <= Rank(LogRating(rows, id, version).band)
  {
    var entries := LogAnswers(rows, id);
    var i := LookupAt(entries, e.ref);
    assert Put(entries, Entry(e.ref, e.answer)) == entries[i := Entry(e.ref, e.answer)];
    CorrectedLines(version.sections, entries, i, e);
    CorrectionNeverHurts(LinesFor(version.sections, entries), i, e.answer.response, version.bands);
  }

  // ------------------------------------------------ how long a rating stands

  predicate Answers(op: Op, id: Text) {
    op.Record? && op.inspectionId == id
  }

  /** The instrument a visit was started under stays its instrument. */
  lemma {:induction false} VersionStays(d: Device, t: Tables, op: Op, id: Text)
    requires VersionOf(t, id).Success?
    ensures VersionOf(Apply(d, t, op), id) == VersionOf(t, id)
  {
    match op
    case Start(input, draws) => StartKeepsVersion(d, t, input, draws, id);
    case SignOffOp(other, s, draws) => SignOffKeepsVersion(d, t, other, s, draws, id);
    case Record(other, input, draws) => RecordKeepsVersion(d, t, other, input, draws, id);
    case Capture(other, input, draws) => CaptureKeepsVersion(d, t, other, input, draws, id);
    case Sync(_) =>
  }

  lemma {:induction false} RecordKeepsVersion(d: Device, t: Tables, other: Text, input: RecordInput, draws: Draws, id: Text)
    ensures VersionOf(Recorded(d, t, other, input, draws).0, id) == VersionOf(t, id)
  {
  }

  lemma {:induction false} CaptureKeepsVersion(d: Device, t: Tables, other: Text, input: CaptureInput, draws: Draws, id: Text)
    ensures VersionOf(Captured(d, t, other, input, draws).0, id) == VersionOf(t, id)
  {
  }

  lemma {:induction false} StartKeepsVersion(d: Device, t: Tables, input: StartInput, draws: Draws, id: Text)
    requires VersionOf(t, id).Success?
    ensures VersionOf(Started(d, t, input, draws).0, id) == VersionOf(t, id)
  {
    if Started(d, t, input, draws).0.inspections != t.inspections {
      var version := FindVersionForType(t.versions, t.facilities[input.facilityId]).value;
      FindAfterInsert(t.inspections, NewInspection(draws.uuid(0), input, version), id);
    }
  }

  lemma {:induction false} SubmittedKeepsVersion(
      t: Tables, after: Tables, other: Text, rating: RatingResult, signatures: Signatures, id: Text)
    requires VersionOf(t, id).Success? && after.versions == t.versions
    requires after.inspections == t.inspections || after.inspections == Submitted(t.inspections, other, rating, signatures)
    ensures VersionOf(after, id) == VersionOf(t, id)
  {
    FindAfterSubmit(t.inspections, other, rating, signatures, id);
  }

  lemma {:induction false} SignOffKeepsVersion(d: Device, t: Tables, other: Text, s: SignOff, draws: Draws, id: Text)
    requires VersionOf(t, id).Success?
    ensures VersionOf(SignedOff(d, t, other, s, draws).0, id) == VersionOf(t, id)
  {
    SignedOffParts(d, t, other, s, draws);
    if ReadyToSign(t, other) {
      SubmittedKeepsVersion(
        t, SignedOff(d, t, other, s, draws).0, other, RatingOf(t, other).value, SignaturesOf(s), id);
    }
  }

  lemma {:induction false} QuietEvent(d: Device, rows: seq<OutboxRow>, draft: Draft, id: Text)
    requires draft.eventType != RECORDED && draft.eventType != SUBMITTED && Authored(d, rows, draft).Success?
    ensures LogAnswers(rows + [Authored(d, rows, draft).value.1], id) == LogAnswers(rows, id)
  {
    AuthoredIsMadeFrom(d, rows, draft);
    OneMoreRow(rows, Authored(d, rows, draft).value.1, id);
  }

  /** Only an answer on an inspection changes its answers. */
  lemma {:induction false} OnlyAnswersChangeAnswers(d: Device, t: Tables, op: Op, id: Text)
    requires !Answers(op, id)
    ensures LogAnswers(Apply(d, t, op).outbox, id) == LogAnswers(t.outbox, id)
  {
    EventTypesDiffer();
    match op
    case Start(input, draws) => StartIsQuiet(d, t, input, draws, id);
    case Capture(other, input, draws) =>
      if Authored(d, t.outbox, CaptureDraft(other, input, draws)).Success? {
        QuietEvent(d, t.outbox, CaptureDraft(other, input, draws), id);
      }
    case Record(other, input, draws) => OtherAnswer(d, t, other, input, draws, id);
    case SignOffOp(other, s, draws) => SignOffIsQuiet(d, t, other, s, draws, id);
    case Sync(ids) => AcksSayNothing(t.outbox, ids, id);
  }

  lemma {:induction false} StartIsQuiet(d: Device, t: Tables, input: StartInput, draws: Draws, id: Text)
    ensures LogAnswers(Started(d, t, input, draws).0.outbox, id) == LogAnswers(t.outbox, id)
  {
    EventTypesDiffer();
    if Started(d, t, input, draws).1.Success? {
      var version := FindVersionForType(t.versions, t.facilities[input.facilityId]).value;
      var payload := StartedPayload(input.reference, input.facilityId, version, input.checkin);
      QuietEvent(d, t.outbox, Draft(INSPECTION, draws.uuid(0), STARTED, payload, draws.uuid(1), draws.now(0)), id);
    }
  }

  lemma {:induction false} OtherAnswer(
      d: Device, t: Tables, other: Text, input: RecordInput, draws: Draws, id: Text)
    requires other != id
    ensures LogAnswers(Recorded(d, t, other, input, draws).0.outbox, id) == LogAnswers(t.outbox, id)
  {
    var draft := RecordDraft(other, input, draws);
    if Recorded(d, t, other, input, draws).1.Success? {
      var row := Authored(d, t.outbox, draft).value.1;
      AuthoredIsMadeFrom(d, t.outbox, draft);
      RecordedRowAnswers(row, other, input, draws, id);
      OneMoreRow(t.outbox, row, id);
    }
  }

  lemma {:induction false} SignOffIsQuiet(d: Device, t: Tables, other: Text, s: SignOff, draws: Draws, id: Text)
    ensures LogAnswers(SignedOff(d, t, other, s, draws).0.outbox, id) == LogAnswers(t.outbox, id)
  {
    SignedOffParts(d, t, other, s, draws);
    if ReadyToSign(t, other) {
      var inspection, rating := FindInspection(t.inspections, other).value, RatingOf(t, other).value;
      var findings := ProvisionalFindings(t, other).value;
      var written := AuthorAll(d, t.outbox, DraftsOf(t, other, s, draws));
      AuthorAllMade(d, t.outbox, DraftsOf(t, other, s, draws));
      if SubmitError(findings, s, written.1).Some? {
        FindingsAreQuiet(t.outbox, written.0, inspection, rating, findings, s, draws, id);
      } else {
        SubmissionCounts(t.outbox, written.0, inspection, rating, findings, s, draws, id);
      }
    }
  }

  /** What the log and the instrument make of an inspection is left alone. */
  ghost predicate SameStanding(t: Tables, later: Tables, id: Text) {
    VersionOf(later, id) == VersionOf(t, id) && LogAnswers(later.outbox, id) == LogAnswers(t.outbox, id)
  }

  /** The tables after more calls. */
  function RunFrom(d: Device, t: Tables, more: seq<Op>): Tables {
    if more == [] then t else Apply(d, RunFrom(d, t, more[..|more| - 1]), more[|more| - 1])
  }

  lemma {:induction false} RunsOn(
      d: Device, versions: seq<InstrumentVersion>, facilities: map<Text, Text>, ops: seq<Op>, more: seq<Op>)
    ensures RunOps(d, versions, facilities, ops + more) == RunFrom(d, RunOps(d, versions, facilities, ops), more)
    decreases |more|
  {
    if more == [] {
      assert ops + more == ops;
    } else {
      var before, last := more[..|more| - 1], more[|more| - 1];
      RunsOn(d, versions, facilities, ops, before);
      RunNext(d, versions, facilities, ops + before, last);
      assert ops + more == ops + before + [last];
    }
  }

  lemma {:induction false} StandsUntilAnswered(d: Device, t: Tables, more: seq<Op>, id: Text)
    requires VersionOf(t, id).Success? && forall i | 0 <= i < |more| :: !Answers(more[i], id)
    ensures SameStanding(t, RunFrom(d, t, more), id)
  {
    if more != [] {
      StandsUntilAnswered(d, t, more[..|more| - 1], id);
      StandsNext(d, t, RunFrom(d, t, more[..|more| - 1]), more[|more| - 1], id);
    }
  }

  lemma {:induction false} StandsNext(d: Device, t: Tables, later: Tables, op: Op, id: Text)
    requires VersionOf(t, id).Success? && SameStanding(t, later, id) && !Answers(op, id)
    ensures SameStanding(t, Apply(d, later, op), id)
  {
    VersionStays(d, later, op, id);
    OnlyAnswersChangeAnswers(d, later, op, id);
  }

  /** Whatever else is done on the device, the rating of an inspection on screen is the
      one it had, until the inspection is answered again. */
  lemma {:induction false} RatingStandsUntilAnswered(
      d: Device, versions: seq<InstrumentVersion>, facilities: map<Text, Text>, ops: seq<Op>, more: seq<Op>, id: Text)
    requires VersionOf(RunOps(d, versions, facilities, ops), id).Success?
    requires forall i | 0 <= i < |more| :: !Answers(more[i], id)
    ensures RatingOf(RunOps(d, versions, facilities, ops + more), id) == RatingOf(RunOps(d, versions, facilities, ops), id)
  {
    RunsOn(d, versions, facilities, ops, more);
    StandsUntilAnswered(d, RunOps(d, versions, facilities, ops), more, id);
    RatingScoresTheLog(d, versions, facilities, ops + more, id);
    RatingScoresTheLog(d, versions, facilities, ops, id);
  }
}
