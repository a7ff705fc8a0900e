/** One visit: start, answer, capture, rate, sign off. Each operation is a function of
    the tables, and a method that brings the store to exactly that result. */
module Inspection {
  import opened Wrappers
  import opened Texts
  import opened Numbers
  import opened Json
  import opened Events
  import opened Scoring
  import opened Store
  import opened Outbox

  datatype InspectionError =
    | UnknownFacility
    | NoInstrument
    | UnknownInspection
    | VersionMissing
    | DuplicateInspection
    | DuplicateEvidence
    | UnknownCheckpoint(ref: Text)
    | NaNotAllowed(ref: Text)
    | RemarkNeeded(ref: Text)
    | AlreadySubmitted
    | Unanswered(refs: seq<Text>)
    | AuthorFailed(error: AuthorError)
    | NotADate

  // ------------------------------------------------------- checkpoint refs

  /** `${section}.${checkpoint}`. */
  function RefText(section: nat, checkpoint: nat): Text {
    Digits(section) + [DOT] + Digits(checkpoint)
  }

  function FindSection(sections: seq<Section>, ordinal: int): Option<Section> {
    if sections == [] then None
    else if sections[0].ordinal == ordinal then Some(sections[0])
    else FindSection(sections[1..], ordinal)
  }

  function FindOrdinal(checkpoints: seq<Checkpoint>, ordinal: int): Option<Checkpoint> {
    if checkpoints == [] then None
    else if checkpoints[0].ordinal == ordinal then Some(checkpoints[0])
    else FindOrdinal(checkpoints[1..], ordinal)
  }

  /** `findCheckpoint`: the first two dotted parts, read as whole numbers. */
  function FindCheckpoint(sections: seq<Section>, ref: Text): Option<Checkpoint> {
    var parts := Split(ref, DOT);
    if |parts| < 2 then None
    else
      match (WholeNumber(parts[0]), WholeNumber(parts[1]))
      case (Some(s), Some(c)) =>
        (match FindSection(sections, s)
         case None => None
         case Some(section) => FindOrdinal(section.checkpoints, c))
      case _ => None
  }

  /** `Number(part)`, with the destructuring default "0"; a part that is not a whole
      number never gets past `FindCheckpoint`. */
  function RefPart(ref: Text, i: nat): int {
    var parts := Split(ref, DOT);
    if i >= |parts| then 0
    else match WholeNumber(parts[i]) case Some(n) => n case None => 0
  }

  /** `compareRefs(a, b) < 0`. */
  predicate RefBefore(a: Text, b: Text) {
    RefPart(a, 0) < RefPart(b, 0) || (RefPart(a, 0) == RefPart(b, 0) && RefPart(a, 1) < RefPart(b, 1))
  }

  // --------------------------------------------------------------- queries

  function VersionOf(t: Tables, inspectionId: Text): Result<InstrumentVersion, InspectionError> {
    match FindInspection(t.inspections, inspectionId)
    case None => Failure(UnknownInspection)
    case Some(row) =>
      match FindVersion(t.versions, row.versionId)
      case None => Failure(VersionMissing)
      case Some(version) => Success(version)
  }

  function CheckpointOf(t: Tables, inspectionId: Text, ref: Text): Result<Checkpoint, InspectionError> {
    match VersionOf(t, inspectionId)
    case Failure(e) => Failure(e)
    case Success(version) =>
      match FindCheckpoint(version.sections, ref)
      case None => Failure(UnknownCheckpoint(ref))
      case Some(spec) => Success(spec)
  }

  datatype ProvisionalFinding = ProvisionalFinding(checkpointRef: Text, severity: Severity, summary: Text)

  function NoAnswers(rows: seq<ResponseRow>): seq<ResponseRow> {
    if rows == [] then []
    else if rows[0].response.No? then [rows[0]] + NoAnswers(rows[1..])
    else NoAnswers(rows[1..])
  }

  function InsertByRef(r: ResponseRow, rows: seq<ResponseRow>): seq<ResponseRow> {
    if rows != [] && RefBefore(rows[0].checkpointRef, r.checkpointRef) then [rows[0]] + InsertByRef(r, rows[1..])
    else [r] + rows
  }

  function SortByRef(rows: seq<ResponseRow>): seq<ResponseRow> {
    if rows == [] then [] else InsertByRef(rows[0], SortByRef(rows[1..]))
  }

  /** `.map`: the first checkpoint that is not found throws. */
  function FindingsFor(
      t: Tables, inspectionId: Text, rows: seq<ResponseRow>): (r: Result<seq<ProvisionalFinding>, InspectionError>)
    ensures r.Success? ==> |r.value| == |rows|
    ensures r.Success? ==> forall i | 0 <= i < |rows| :: r.value[i].checkpointRef == rows[i].checkpointRef
  {
    if rows == [] then Success([])
    else
      match CheckpointOf(t, inspectionId, rows[0].checkpointRef)
      case Failure(e) => Failure(e)
      case Success(spec) =>
        match FindingsFor(t, inspectionId, rows[1..])
        case Failure(e) => Failure(e)
        case Success(rest) =>
          var summary := if rows[0].remark.Some? then rows[0].remark.value else spec.promptEn;
          Success([ProvisionalFinding(rows[0].checkpointRef, spec.severityOnFail, summary)] + rest)
  }

  function ProvisionalFindings(t: Tables, inspectionId: Text): Result<seq<ProvisionalFinding>, InspectionError> {
    FindingsFor(t, inspectionId, SortByRef(NoAnswers(ResponsesOf(t.responses, inspectionId))))
  }

  function ScoredResponses(rows: seq<ResponseRow>): seq<ScoredCheckpoint> {
    seq(|rows|, i requires 0 <= i < |rows| => ScoredCheckpoint(rows[i].weight, rows[i].response))
  }

  function OpenFindings(findings: seq<ProvisionalFinding>): seq<FindingLike> {
    seq(|findings|, i requires 0 <= i < |findings| => FindingLike(findings[i].severity, true))
  }

  function RatingOf(t: Tables, inspectionId: Text): Result<RatingResult, InspectionError> {
    match (VersionOf(t, inspectionId), ProvisionalFindings(t, inspectionId))
    case (Failure(e), _) => Failure(e)
    case (_, Failure(e)) => Failure(e)
    case (Success(version), Success(findings)) =>
      Success(Score(ScoredResponses(ResponsesOf(t.responses, inspectionId)), OpenFindings(findings), version.bands))
  }

  function SectionRefs(section: Section): seq<Text> {
    seq(|section.checkpoints|, i requires 0 <= i < |section.checkpoints| =>
      RefText(section.ordinal, section.checkpoints[i].ordinal))
  }

  /** Every ref on the instrument, in order. */
  function AllRefs(sections: seq<Section>): seq<Text> {
    if sections == [] then [] else AllRefs(sections[..|sections| - 1]) + SectionRefs(sections[|sections| - 1])
  }

  predicate HasAnswer(rows: seq<ResponseRow>, inspectionId: Text, ref: Text) {
    exists i | 0 <= i < |rows| :: rows[i].inspectionId == inspectionId && rows[i].checkpointRef == ref
  }

  function MissingFrom(refs: seq<Text>, rows: seq<ResponseRow>, inspectionId: Text): seq<Text> {
    if refs == [] then []
    else
      MissingFrom(refs[..|refs| - 1], rows, inspectionId)
      + (if HasAnswer(rows, inspectionId, refs[|refs| - 1]) then [] else [refs[|refs| - 1]])
  }

  lemma {:induction false} NextMissing(before: seq<Text>, refs: seq<Text>, j: nat, rows: seq<ResponseRow>, id: Text)
    requires j < |refs|
    ensures MissingFrom(before + refs[..j + 1], rows, id)
         == MissingFrom(before + refs[..j], rows, id) + (if HasAnswer(rows, id, refs[j]) then [] else [refs[j]])
  {
    var longer := before + refs[..j + 1];
    assert longer[..|longer| - 1] == before + refs[..j];
  }

  // --------------------------------------------------------------- payloads

  const INSPECTION: Text := Ascii("inspection")
  const FINDING: Text := Ascii("finding")
  const STARTED: Text := Ascii("InspectionStarted")
  const RECORDED: Text := Ascii("ResponseRecorded")
  const CAPTURED: Text := Ascii("EvidenceCaptured")
  const RAISED: Text := Ascii("FindingRaised")
  const SUBMITTED: Text := Ascii("InspectionSubmitted")
  const K_REF: Text := Ascii("checkpointRef")
  const K_RESPONSE: Text := Ascii("response")
  const K_REMARK: Text := Ascii("remark")
  const K_COUNT: Text := Ascii("findingsCount")
  const K_PERCENT: Text := Ascii("ratingPercent")
  const K_BAND: Text := Ascii("ratingBand")
  const K_INSPECTION: Text := Ascii("inspectionId")
  const K_SUMMARY: Text := Ascii("summary")
  const K_SEVERITY: Text := Ascii("severity")
  const K_EVIDENCE: Text := Ascii("evidenceId")
  const K_SHA: Text := Ascii("sha256")

  function ResponseText(r: Response): Text {
    match r case Yes => Ascii("yes") case No => Ascii("no") case NA => Ascii("na")
  }

  function SeverityText(s: Severity): Text {
    match s case Critical => Ascii("critical") case Major => Ascii("major") case Minor => Ascii("minor")
  }

  function BandText(b: Band): Text {
    match b
    case Satisfactory => Ascii("satisfactory")
    case NeedsImprovement => Ascii("needs_improvement")
    case CriticalIssues => Ascii("critical_issues")
  }

  function Strings(ts: seq<Text>): (v: Values)
    ensures UniqueKeysItems(v) && PlainItems(v)
  {
    if ts == [] then NoItems else Item(Str(ts[0]), Strings(ts[1..]))
  }

  function OptionalText(t: Option<Text>): (v: Value)
    ensures UniqueKeys(v) && (v.Undefined? || Plain(v))
  {
    if t.None? then Undefined else Str(t.value)
  }

  /** The number a rating of so many hundredths prints as. */
  function PercentText(hundredths: nat): Lexeme {
    var whole, part := Digits(hundredths / 100), hundredths % 100;
    if part == 0 then whole
    else if part % 10 == 0 then whole + [DOT, ZERO + part / 10]
    else whole + [DOT, ZERO + part / 10, ZERO + part % 10]
  }

  function PointValue(p: GeoPoint): (v: JsValue)
    ensures Plain(v) <==> Finite(p)
  {
    var pairs: seq<(Text, Value)> :=
      [(Ascii("lat"), p.lat), (Ascii("lng"), p.lng),
       (Ascii("accuracyM"), if p.accuracyM.Some? then p.accuracyM.value else Undefined)];
    assert |pairs[0].0| == 3 && |pairs[1].0| == 3 && |pairs[2].0| == 9;
    assert pairs[0].0[1] != pairs[1].0[1];
    PlainPairs(pairs);
    assert pairs[0].1 == p.lat && pairs[1].1 == p.lng;
    Object(pairs)
  }

  /** Every coordinate is a number that prints. */
  predicate Finite(p: GeoPoint) {
    p.lat.Num? && p.lng.Num? && (p.accuracyM.Some? ==> p.accuracyM.value.Num?)
  }

  function CheckinValue(c: Checkin): JsValue {
    var pairs: seq<(Text, Value)> :=
      [(Ascii("point"), PointValue(c.point)), (Ascii("distanceFromRegisteredM"), c.distanceM),
       (Ascii("flagged"), Bool(c.flagged))];
    assert |pairs[0].0| == 5 && |pairs[1].0| == 23 && |pairs[2].0| == 7;
    Object(pairs)
  }

  function StartedPairs(
      reference: Text, facilityId: Text, version: InstrumentVersion, checkin: Checkin): seq<(Text, Value)> {
    [(Ascii("reference"), Str(reference)),
     (Ascii("facilityId"), Str(facilityId)),
     (Ascii("instrumentVersionId"), Str(version.id)),
     (Ascii("structureHash"), Str(version.structureHash)),
     (Ascii("checkin"), CheckinValue(checkin))]
  }

  function StartedPayload(reference: Text, facilityId: Text, version: InstrumentVersion, checkin: Checkin): JsValue {
    var pairs := StartedPairs(reference, facilityId, version, checkin);
    assert forall i | 0 <= i < |pairs| :: |pairs[i].0| == [9, 10, 19, 13, 7][i];
    Object(pairs)
  }

  function RecordedPairs(
      ref: Text, response: Response, remark: Option<Text>, evidenceIds: seq<Text>): seq<(Text, Value)> {
    [(K_REF, Str(ref)),
     (K_RESPONSE, Str(ResponseText(response))),
     (K_REMARK, OptionalText(remark)),
     (Ascii("evidenceIds"), if evidenceIds == [] then Undefined else Arr(Strings(evidenceIds)))]
  }

  function RecordedPayload(ref: Text, response: Response, remark: Option<Text>, evidenceIds: seq<Text>): JsValue {
    var pairs := RecordedPairs(ref, response, remark, evidenceIds);
    assert forall i | 0 <= i < |pairs| :: |pairs[i].0| == [13, 8, 6, 11][i];
    Object(pairs)
  }

  function CapturedPairs(evidenceId: Text, input: CaptureInput): seq<(Text, Value)> {
    [(K_EVIDENCE, Str(evidenceId)),
     (K_REF, Str(input.checkpointRef)),
     (K_SHA, Str(input.sha256)),
     (Ascii("mime"), Str(input.mime)),
     (Ascii("capturedAt"), Str(input.capturedAt)),
     (Ascii("point"), PointValue(input.at))]
  }

  function CapturedPayload(evidenceId: Text, input: CaptureInput): JsValue {
    var pairs := CapturedPairs(evidenceId, input);
    assert forall i | 0 <= i < |pairs| :: |pairs[i].0| == [10, 13, 6, 4, 10, 5][i];
    assert pairs[0].0[0] != pairs[4].0[0];
    Object(pairs)
  }

  function FindingPairs(reference: Text, inspectionId: Text, f: ProvisionalFinding, dueDate: Text): seq<(Text, Value)> {
    [(Ascii("reference"), Str(reference)),
     (K_INSPECTION, Str(inspectionId)),
     (K_REF, Str(f.checkpointRef)),
     (K_SUMMARY, Str(f.summary)),
     (K_SEVERITY, Str(SeverityText(f.severity))),
     (Ascii("dueDate"), Str(dueDate))]
  }

  function FindingPayload(reference: Text, inspectionId: Text, f: ProvisionalFinding, dueDate: Text): JsValue {
    var pairs := FindingPairs(reference, inspectionId, f, dueDate);
    assert forall i | 0 <= i < |pairs| :: |pairs[i].0| == [9, 12, 13, 7, 8, 7][i];
    assert pairs[3].0[0] != pairs[5].0[0];
    Object(pairs)
  }

  /** `dueDate` is None where `toISOString` throws. */
  datatype SignOff = SignOff(
    inspectorUserId: Text, inspectorSignedAt: Text, repName: Text, repRole: Text, repSignedAt: Text,
    dueDate: Severity -> Option<Text>)

  function SubmittedPairs(rating: RatingResult, findings: nat, s: SignOff): seq<(Text, Value)> {
    [(K_PERCENT, Num(PercentText(rating.hundredths))),
     (K_BAND, Str(BandText(rating.band))),
     (K_COUNT, Number(findings)),
     (Ascii("inspector"), InspectorValue(s)),
     (Ascii("facilityRep"), RepValue(s))]
  }

  function InspectorValue(s: SignOff): (v: JsValue)
    ensures Plain(v)
  {
    var pairs := [(Ascii("userId"), Str(s.inspectorUserId)), (Ascii("signedAt"), Str(s.inspectorSignedAt))];
    assert |pairs[0].0| == 6 && |pairs[1].0| == 8;
    PlainPairs(pairs);
    Object(pairs)
  }

  function RepValue(s: SignOff): (v: JsValue)
    ensures Plain(v)
  {
    var pairs := [(Ascii("name"), Str(s.repName)), (Ascii("role"), Str(s.repRole)), (Ascii("signedAt"), Str(s.repSignedAt))];
    assert |pairs[0].0| == 4 && |pairs[1].0| == 4 && |pairs[2].0| == 8;
    assert pairs[0].0[0] != pairs[1].0[0];
    PlainPairs(pairs);
    Object(pairs)
  }

  function SubmittedPayload(rating: RatingResult, findings: nat, s: SignOff): JsValue {
    var pairs := SubmittedPairs(rating, findings, s);
    assert forall i | 0 <= i < |pairs| :: |pairs[i].0| == [13, 10, 13, 9, 11][i];
    assert pairs[0].0[0] != pairs[2].0[0];
    Object(pairs)
  }

  /** `CA-${reference.slice(-6)}-${padded index + 1}`. */
  function FindingReference(reference: Text, index: nat): Text {
    Ascii("CA-") + (if |reference| <= 6 then reference else reference[|reference| - 6..]) + [MINUS]
    + PadZeros(2, Digits(index + 1))
  }

  // ------------------------------------------------------------- operations

  datatype StartInput = StartInput(facilityId: Text, reference: Text, checkin: Checkin)

  datatype CaptureInput = CaptureInput(
    checkpointRef: Text, sha256: Text, localUri: Text, mime: Text, capturedAt: Text, at: GeoPoint)

  datatype RecordInput = RecordInput(
    checkpointRef: Text, response: Response, remark: Option<Text>, evidenceIds: seq<Text>)

  /** Random ids and wall-clock readings, in the order one call draws them. */
  datatype Draws = Draws(uuid: nat -> Text, now: nat -> int)

  /** `remark?.trim() || undefined`. */
  function KeptRemark(remark: Option<Text>): Option<Text> {
    if remark.None? || Trim(remark.value) == [] then None else Some(Trim(remark.value))
  }

  function Appended(t: Tables, row: OutboxRow): Tables {
    t.(outbox := t.outbox + [row])
  }

  function NewInspection(id: Text, input: StartInput, version: InstrumentVersion): InspectionRow {
    InspectionRow(id, input.reference, input.facilityId, version.id, version.structureHash, input.checkin,
                  false, None, None)
  }

  function Started(d: Device, t: Tables, input: StartInput, draws: Draws): (Tables, Result<Text, InspectionError>) {
    if input.facilityId !in t.facilities then (t, Failure(UnknownFacility))
    else
      match FindVersionForType(t.versions, t.facilities[input.facilityId])
      case None => (t, Failure(NoInstrument))
      case Some(version) =>
        var id := draws.uuid(0);
        var row := NewInspection(id, input, version);
        if FindInspection(t.inspections, id).Some? then (t, Failure(DuplicateInspection))
        else
          var t1 := t.(inspections := t.inspections + [row]);
          var payload := StartedPayload(input.reference, input.facilityId, version, input.checkin);
          match Authored(d, t1.outbox, Draft(INSPECTION, id, STARTED, payload, draws.uuid(1), draws.now(0)))
          case Failure(e) => (t1, Failure(AuthorFailed(e)))
          case Success((_, row)) => (Appended(t1, row), Success(id))
  }

  /** The reason `recordResponse` refuses an answer before writing anything. */
  function RefusedAnswer(spec: Checkpoint, input: RecordInput): Option<InspectionError> {
    if input.response.NA? && !spec.allowsNa then Some(NaNotAllowed(input.checkpointRef))
    else if input.response.No? && KeptRemark(input.remark).None? then Some(RemarkNeeded(input.checkpointRef))
    else None
  }

  function RecordDraft(inspectionId: Text, input: RecordInput, draws: Draws): Draft {
    Draft(INSPECTION, inspectionId, RECORDED,
          RecordedPayload(input.checkpointRef, input.response, KeptRemark(input.remark), input.evidenceIds),
          draws.uuid(0), draws.now(0))
  }

  function ResponseRowFor(inspectionId: Text, input: RecordInput, spec: Checkpoint, row: OutboxRow): ResponseRow {
    ResponseRow(row.eventId, inspectionId, input.checkpointRef, input.response, KeptRemark(input.remark),
                spec.weight, row.hlc)
  }

  function Recorded(d: Device, t: Tables, inspectionId: Text, input: RecordInput, draws: Draws)
    : (Tables, Result<(), InspectionError>)
  {
    match CheckpointOf(t, inspectionId, input.checkpointRef)
    case Failure(e) => (t, Failure(e))
    case Success(spec) =>
      if RefusedAnswer(spec, input).Some? then (t, Failure(RefusedAnswer(spec, input).value))
      else
        match Authored(d, t.outbox, RecordDraft(inspectionId, input, draws))
        case Failure(e) => (t, Failure(AuthorFailed(e)))
        case Success((_, row)) =>
          (Appended(t, row).(responses := Upsert(t.responses, ResponseRowFor(inspectionId, input, spec, row))),
           Success(()))
  }

  function ExhibitRow(inspectionId: Text, input: CaptureInput, evidenceId: Text): EvidenceRow {
    EvidenceRow(evidenceId, inspectionId, input.checkpointRef, input.sha256, input.localUri, input.mime,
                input.capturedAt, input.at, false)
  }

  function CaptureDraft(inspectionId: Text, input: CaptureInput, draws: Draws): Draft {
    Draft(INSPECTION, inspectionId, CAPTURED, CapturedPayload(draws.uuid(0), input), draws.uuid(1), draws.now(0))
  }

  function Captured(d: Device, t: Tables, inspectionId: Text, input: CaptureInput, draws: Draws)
    : (Tables, Result<Text, InspectionError>)
  {
    match CheckpointOf(t, inspectionId, input.checkpointRef)
    case Failure(e) => (t, Failure(e))
    case Success(_) =>
      var evidenceId := draws.uuid(0);
      if HasExhibit(t.evidence, evidenceId) then (t, Failure(DuplicateEvidence))
      else
        var t1 := t.(evidence := t.evidence + [ExhibitRow(inspectionId, input, evidenceId)]);
        match Authored(d, t.outbox, CaptureDraft(inspectionId, input, draws))
        case Failure(e) => (t1, Failure(AuthorFailed(e)))
        case Success((_, row)) => (Appended(t1, row), Success(evidenceId))
  }

  predicate Dated(f: ProvisionalFinding, s: SignOff) {
    s.dueDate(f.severity).Some?
  }

  /** How many findings stand before the first that has no due date. */
  function DatedCount(findings: seq<ProvisionalFinding>, s: SignOff): (n: nat)
    ensures n <= |findings| && forall i | 0 <= i < n :: Dated(findings[i], s)
    ensures n < |findings| ==> !Dated(findings[n], s)
  {
    if findings == [] || !Dated(findings[0], s) then 0 else 1 + DatedCount(findings[1..], s)
  }

  predicate AllDated(findings: seq<ProvisionalFinding>, s: SignOff) {
    DatedCount(findings, s) == |findings|
  }

  function RaisedDraft(inspection: InspectionRow, f: ProvisionalFinding, index: nat, s: SignOff, draws: Draws): Draft
    requires Dated(f, s)
  {
    Draft(FINDING, draws.uuid(2 * index), RAISED,
          FindingPayload(FindingReference(inspection.reference, index), inspection.id, f, s.dueDate(f.severity).value),
          draws.uuid(2 * index + 1), draws.now(index))
  }

  function SubmitDraft(
      inspection: InspectionRow, rating: RatingResult, findings: nat, s: SignOff, draws: Draws): Draft {
    Draft(INSPECTION, inspection.id, SUBMITTED, SubmittedPayload(rating, findings, s),
          draws.uuid(2 * findings), draws.now(findings))
  }

  /** The findings a sign-off authors: those before the first that has no due date. */
  function RaisedDrafts(inspection: InspectionRow, findings: seq<ProvisionalFinding>, s: SignOff, draws: Draws)
    : (drafts: seq<Draft>)
    ensures |drafts| == DatedCount(findings, s)
  {
    seq(DatedCount(findings, s), i requires 0 <= i < DatedCount(findings, s) =>
      RaisedDraft(inspection, findings[i], i, s, draws))
  }

  /** What a sign-off authors, in order: the findings, and then, where all have due dates,
      the submission. */
  function SubmitDrafts(
      inspection: InspectionRow, rating: RatingResult, findings: seq<ProvisionalFinding>, s: SignOff, draws: Draws)
    : (drafts: seq<Draft>)
    ensures |drafts| == DatedCount(findings, s) + (if AllDated(findings, s) then 1 else 0)
  {
    RaisedDrafts(inspection, findings, s, draws)
    + (if AllDated(findings, s) then [SubmitDraft(inspection, rating, |findings|, s, draws)] else [])
  }

  /** The error that authoring stopped with, or else that of the first undated finding. */
  function SubmitError(findings: seq<ProvisionalFinding>, s: SignOff, error: Option<AuthorError>): Option<InspectionError> {
    if error.Some? then Some(AuthorFailed(error.value))
    else if !AllDated(findings, s) then Some(NotADate)
    else None
  }

  /** `unanswered`: throws where the instrument version cannot be found. */
  function UnansweredRefs(t: Tables, inspectionId: Text): Result<seq<Text>, InspectionError> {
    match VersionOf(t, inspectionId)
    case Failure(e) => Failure(e)
    case Success(version) => Success(MissingFrom(AllRefs(version.sections), t.responses, inspectionId))
  }

  function SignaturesOf(s: SignOff): Signatures {
    Signatures(s.inspectorSignedAt, s.repName, s.repSignedAt, s.repSignedAt)
  }

  function SignedOff(d: Device, t: Tables, inspectionId: Text, s: SignOff, draws: Draws)
    : (Tables, Result<RatingResult, InspectionError>)
  {
    match FindInspection(t.inspections, inspectionId)
    case None => (t, Failure(UnknownInspection))
    case Some(inspection) =>
      if inspection.submitted then (t, Failure(AlreadySubmitted))
      else
        match (UnansweredRefs(t, inspectionId), RatingOf(t, inspectionId), ProvisionalFindings(t, inspectionId))
        case (Failure(e), _, _) => (t, Failure(e))
        case (Success(missing), rating, findings) =>
          if missing != [] then (t, Failure(Unanswered(missing)))
          else if rating.Failure? then (t, Failure(rating.error))
          else if findings.Failure? then (t, Failure(findings.error))
          else
            var drafts := SubmitDrafts(inspection, rating.value, findings.value, s, draws);
            var (rows, stopped) := AuthorAll(d, t.outbox, drafts);
            var error := SubmitError(findings.value, s, stopped);
            if error.Some? then (t.(outbox := rows), Failure(error.value))
            else
              (t.(outbox := rows,
                  inspections := Submitted(t.inspections, inspectionId, rating.value, SignaturesOf(s))),
               Success(rating.value))
  }

  // ---------------------------------------------------------- the session

  class FieldInspection {
    const store: FieldStore
    const author: EventAuthor

    ghost predicate Valid() {
      author.store == store
    }

    constructor (store: FieldStore, author: EventAuthor)
      requires author.store == store
      ensures Valid() && this.store == store && this.author == author
    {
      this.store, this.author := store, author;
    }

    method Start(input: StartInput, draws: Draws) returns (r: Result<Text, InspectionError>)
      requires Valid()
      modifies store`outbox, store`inspections
      ensures (store.State(), r) == Started(author.device, old(store.State()), input, draws)
    {
      if input.facilityId !in store.facilities {
        return Failure(UnknownFacility);
      }
      var version := FindVersionForType(store.versions, store.facilities[input.facilityId]);
      if version.None? {
        return Failure(NoInstrument);
      }
      var id := draws.uuid(0);
      var ok := store.InsertInspection(NewInspection(id, input, version.value));
      if !ok {
        return Failure(DuplicateInspection);
      }
      var payload := StartedPayload(input.reference, input.facilityId, version.value, input.checkin);
      var event := author.Author(Draft(INSPECTION, id, STARTED, payload, draws.uuid(1), draws.now(0)));
      if event.Failure? {
        return Failure(AuthorFailed(event.error));
      }
      return Success(id);
    }

    method RecordResponse(inspectionId: Text, input: RecordInput, draws: Draws) returns (r: Result<(), InspectionError>)
      requires Valid()
      modifies store`outbox, store`responses
      ensures (store.State(), r) == Recorded(author.device, old(store.State()), inspectionId, input, draws)
    {
      var spec := CheckpointOf(store.State(), inspectionId, input.checkpointRef);
      if spec.Failure? {
        return Failure(spec.error);
      }
      var refused := RefusedAnswer(spec.value, input);
      if refused.Some? {
        return Failure(refused.value);
      }
      var event := author.Author(RecordDraft(inspectionId, input, draws));
      if event.Failure? {
        return Failure(AuthorFailed(event.error));
      }
      var e := event.value.signable;
      RowIsOfEvent(author.device, old(store.outbox), RecordDraft(inspectionId, input, draws));
      store.UpsertResponse(
        ResponseRow(e.eventId, inspectionId, input.checkpointRef, input.response, KeptRemark(input.remark),
                    spec.value.weight, e.hlc));
      return Success(());
    }

    method CaptureEvidence(inspectionId: Text, input: CaptureInput, draws: Draws)
      returns (r: Result<Text, InspectionError>)
      requires Valid()
      modifies store`outbox, store`evidence
      ensures (store.State(), r) == Captured(author.device, old(store.State()), inspectionId, input, draws)
    {
      var spec := CheckpointOf(store.State(), inspectionId, input.checkpointRef);
      if spec.Failure? {
        return Failure(spec.error);
      }
      var evidenceId := draws.uuid(0);
      var ok := store.InsertEvidence(ExhibitRow(inspectionId, input, evidenceId));
      if !ok {
        return Failure(DuplicateEvidence);
      }
      var event := author.Author(CaptureDraft(inspectionId, input, draws));
      if event.Failure? {
        return Failure(AuthorFailed(event.error));
      }
      return Success(evidenceId);
    }

    method MissingRefs(inspectionId: Text) returns (r: Result<seq<Text>, InspectionError>)
      ensures r == UnansweredRefs(store.State(), inspectionId)
    {
      var version := VersionOf(store.State(), inspectionId);
      if version.Failure? {
        return Failure(version.error);
      }
      var sections := version.value.sections;
      var refs: seq<Text> := [];
      for i := 0 to |sections|
        invariant refs == MissingFrom(AllRefs(sections[..i]), store.responses, inspectionId)
      {
        var section := sections[i];
        ghost var before := AllRefs(sections[..i]);
        assert before + SectionRefs(section)[..0] == before;
        for j := 0 to |section.checkpoints|
          invariant refs == MissingFrom(before + SectionRefs(section)[..j], store.responses, inspectionId)
        {
          var ref := RefText(section.ordinal, section.checkpoints[j].ordinal);
          NextMissing(before, SectionRefs(section), j, store.responses, inspectionId);
          if !HasAnswer(store.responses, inspectionId, ref) {
            refs := refs + [ref];
          }
        }
        assert sections[..i + 1][..i] == sections[..i];
        assert before + SectionRefs(section)[..|section.checkpoints|] == before + SectionRefs(section);
      }
      assert sections[..|sections|] == sections;
      return Success(refs);
    }

    /** The first half of `submit`: each finding is its own aggregate on the one chain. */
    method AuthorFindings(inspection: InspectionRow, findings: seq<ProvisionalFinding>, s: SignOff, draws: Draws)
      returns (error: Option<InspectionError>)
      requires Valid()
      modifies store`outbox
      ensures var (rows, stopped) := AuthorAll(
                author.device, old(store.outbox), RaisedDrafts(inspection, findings, s, draws));
              store.outbox == rows && error == SubmitError(findings, s, stopped)
    {
      ghost var drafts := RaisedDrafts(inspection, findings, s, draws);
      for index := 0 to |findings|
        invariant index <= |drafts|
        invariant AuthorAll(author.device, old(store.outbox), drafts[..index]) == (store.outbox, None)
      {
        if !Dated(findings[index], s) {
          assert drafts[..index] == drafts;
          return Some(NotADate);
        }
        AuthorNext(author.device, old(store.outbox), drafts, index);
        var raised := author.Author(RaisedDraft(inspection, findings[index], index, s, draws));
        if raised.Failure? {
          return Some(AuthorFailed(raised.error));
        }
      }
      assert drafts[..|findings|] == drafts;
      return None;
    }

    /** The authoring half of `submit`: the findings, then the submission. */
    method AuthorSubmission(
        inspection: InspectionRow, rating: RatingResult, findings: seq<ProvisionalFinding>, s: SignOff, draws: Draws)
      returns (error: Option<InspectionError>)
      requires Valid()
      modifies store`outbox
      ensures var (rows, stopped) := AuthorAll(
                author.device, old(store.outbox), SubmitDrafts(inspection, rating, findings, s, draws));
              store.outbox == rows && error == SubmitError(findings, s, stopped)
    {
      ghost var drafts := SubmitDrafts(inspection, rating, findings, s, draws);
      ghost var raised := RaisedDrafts(inspection, findings, s, draws);
      assert drafts[..|raised|] == raised;
      error := AuthorFindings(inspection, findings, s, draws);
      if error.Some? {
        if error.value.AuthorFailed? {
          AuthorAllStops(author.device, old(store.outbox), drafts, |raised|);
        } else {
          assert drafts == raised;
        }
        return;
      }
      AuthorNext(author.device, old(store.outbox), drafts, |findings|);
      assert drafts[..|drafts|] == drafts;
      var event := author.Author(SubmitDraft(inspection, rating, |findings|, s, draws));
      if event.Failure? {
        return Some(AuthorFailed(event.error));
      }
      return None;
    }

    method Submit(inspectionId: Text, s: SignOff, draws: Draws) returns (r: Result<RatingResult, InspectionError>)
      requires Valid()
      modifies store`outbox, store`inspections
      ensures (store.State(), r) == SignedOff(author.device, old(store.State()), inspectionId, s, draws)
    {
      var inspection := FindInspection(store.inspections, inspectionId);
      if inspection.None? {
        return Failure(UnknownInspection);
      }
      if inspection.value.submitted {
        return Failure(AlreadySubmitted);
      }
      var missing := MissingRefs(inspectionId);
      if missing.Failure? {
        return Failure(missing.error);
      }
      if missing.value != [] {
        return Failure(Unanswered(missing.value));
      }
      var rating := RatingOf(store.State(), inspectionId);
      if rating.Failure? {
        return Failure(rating.error);
      }
      var findings := ProvisionalFindings(store.State(), inspectionId);
      if findings.Failure? {
        return Failure(findings.error);
      }
      var error := AuthorSubmission(inspection.value, rating.value, findings.value, s, draws);
      if error.Some? {
        return Failure(error.value);
      }
      store.MarkSubmitted(inspectionId, rating.value, SignaturesOf(s));
      return Success(rating.value);
    }
  }
}
