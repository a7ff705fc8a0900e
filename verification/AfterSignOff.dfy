/** A visit that is signed off, and then answered again: one run of calls, for any
    instrument of one checkpoint, whose every state is known. */
module AfterSignOff {
  import opened Wrappers
  import opened Texts
  import opened Numbers
  import opened Json
  import opened Scoring
  import opened Store
  import opened Outbox
  import opened Inspection
  import opened FindingOrder
  import opened InspectionLog
  import opened InspectionSteps
  import opened InspectionRuns
  import opened SignOffs
  import opened Corrections

  /** For any instrument of one checkpoint: it is answered No under its own ref and under
      another spelling, signed off, answered again, and shown an exhibit. */
  datatype Visit = Visit(
    start: StartInput, facilityType: Text, bands: RatingBands, section: nat, spec: Checkpoint, alias: Text,
    remark: Text, signOff: SignOff, exhibit: CaptureInput)

  function Instrument(v: Visit): InstrumentVersion {
    InstrumentVersion([], v.facilityType, v.bands, [], [Section(v.section, [v.spec])])
  }

  function OwnRef(v: Visit): Text {
    RefText(v.section, v.spec.ordinal)
  }

  /** A weighty checkpoint, another spelling of its ref, and input the device accepts. */
  predicate Proper(v: Visit) {
    && v.spec.weight > 0 && v.alias != OwnRef(v)
    && FindCheckpoint(Instrument(v).sections, v.alias) == Some(v.spec)
    && Trim(v.remark) != [] && FiniteCheckin(v.start.checkin)
    && v.exhibit.checkpointRef == OwnRef(v) && Finite(v.exhibit.at)
    && forall severity: Severity :: v.signOff.dueDate(severity).Some?
  }

  /** An instrument of one checkpoint, any section and any ref: zeros in front of either
      number make such a visit of whatever else the device accepts. */
  lemma {:induction false} PaddedVisitIsProper(v: Visit, width: nat, other: nat)
    requires v.spec.weight > 0 && Trim(v.remark) != [] && FiniteCheckin(v.start.checkin)
    requires v.exhibit.checkpointRef == OwnRef(v) && Finite(v.exhibit.at)
    requires forall severity: Severity :: v.signOff.dueDate(severity).Some?
    requires v.alias == PadZeros(width, Digits(v.section)) + [DOT] + PadZeros(other, Digits(v.spec.ordinal))
    requires width > |Digits(v.section)| || other > |Digits(v.spec.ordinal)|
    ensures Proper(v)
  {
    PaddedRefsAreAliases(Instrument(v).sections, v.section, v.spec.ordinal, width, other);
    OneRefFound(v);
  }

  /** One such visit: checkpoint 1.1, also spelled 01.1. */
  lemma {:induction false} SomeVisitIsProper() returns (v: Visit)
    ensures Proper(v)
  {
    var at := GeoPoint(Num([ZERO]), Num([ZERO]), None);
    var spec := Checkpoint(1, [], 1, Major, false);
    v := Visit(StartInput([], [], Checkin(at, Num([ZERO]), false)), [], RatingBands(0.0, 0.0), 1, spec,
               PadZeros(1 + |Digits(1)|, Digits(1)) + [DOT] + Digits(1), [ZERO],
               SignOff([], [], [], [], [], severity => Some([])), CaptureInput(RefText(1, 1), [], [], [], [], at));
    PaddedVisitIsProper(v, 1 + |Digits(1)|, 0);
  }

  // ------------------------------------------------------- ids that differ

  /** The ids the k-th call draws. */
  function DrawsOfCall(k: CodeUnit): Draws {
    Draws((i: nat) => [k] + Digits(i), (i: nat) => 0)
  }

  /** Every event so far was authored by a call before the k-th. */
  predicate DrawnBefore(rows: seq<OutboxRow>, k: int) {
    forall i | 0 <= i < |rows| :: rows[i].eventId != [] && rows[i].eventId[0] < k
  }

  lemma {:induction false} DrawsDiffer(k: CodeUnit, i: nat, j: nat)
    requires i != j
    ensures DrawsOfCall(k).uuid(i) != DrawsOfCall(k).uuid(j)
  {
    DigitsRoundTrip(i);
    DigitsRoundTrip(j);
    assert DrawsOfCall(k).uuid(i)[1..] == Digits(i) && DrawsOfCall(k).uuid(j)[1..] == Digits(j);
  }

  lemma {:induction false} NewCallUnused(t: Tables, k: CodeUnit, i: nat)
    requires DrawnBefore(t.outbox, k)
    ensures UnusedEvent(t, DrawsOfCall(k).uuid(i))
  {
    assert DrawsOfCall(k).uuid(i)[0] == k;
  }

  lemma {:induction false} SignOffUnused(rows: seq<OutboxRow>, drafts: seq<Draft>, k: CodeUnit)
    requires DrawnBefore(rows, k)
    requires forall i | 0 <= i < |drafts| - 1 :: drafts[i].eventId == DrawsOfCall(k).uuid(2 * i + 1)
    requires drafts != [] && drafts[|drafts| - 1].eventId == DrawsOfCall(k).uuid(2 * (|drafts| - 1))
    ensures UnusedIds(rows, drafts)
  {
    forall i | 0 <= i < |drafts| ensures UnusedId(rows, drafts, i) {
      assert drafts[i].eventId[0] == k;
      forall j | 0 <= j < i ensures drafts[j].eventId != drafts[i].eventId {
        DrawsDiffer(k, 2 * j + 1, if i == |drafts| - 1 then 2 * i else 2 * i + 1);
      }
    }
  }

  // -------------------------------------------------------- the instrument

  lemma {:induction false} OneRefFound(v: Visit)
    ensures FindCheckpoint(Instrument(v).sections, OwnRef(v)) == Some(v.spec)
    ensures AllRefs(Instrument(v).sections) == [OwnRef(v)]
  {
    RefTextParts(v.section, v.spec.ordinal);
    var sections := Instrument(v).sections;
    assert sections[..0] == [];
    assert AllRefs(sections) == AllRefs(sections[..0]) + SectionRefs(sections[0]);
  }

  lemma {:induction false} AliasIsSamePlace(v: Visit)
    requires Proper(v)
    ensures SamePlace(v.alias, OwnRef(v))
  {
    RefTextParts(v.section, v.spec.ordinal);
    var i := FoundAtItsPlace(Instrument(v).sections, v.alias);
  }

  // ------------------------------------------------------------- the calls

  const FIRST: CodeUnit := 1

  function VisitId(): Text {
    DrawsOfCall(FIRST).uuid(0)
  }

  function Adverse(v: Visit, ref: Text): RecordInput {
    RecordInput(ref, No, Some(v.remark), [])
  }

  function Better(v: Visit): RecordInput {
    RecordInput(OwnRef(v), Yes, None, [])
  }

  function Facilities(v: Visit): map<Text, Text> {
    map[v.start.facilityId := v.facilityType]
  }

  function VisitRun(d: Device, v: Visit, ops: seq<Op>): Tables {
    RunOps(d, [Instrument(v)], Facilities(v), ops)
  }

  function Opened(v: Visit): seq<Op> {
    [Op.Start(v.start, DrawsOfCall(1))]
  }

  function AnsweredOnce(v: Visit): seq<Op> {
    Opened(v) + [Record(VisitId(), Adverse(v, OwnRef(v)), DrawsOfCall(2))]
  }

  function Answered(v: Visit): seq<Op> {
    AnsweredOnce(v) + [Record(VisitId(), Adverse(v, v.alias), DrawsOfCall(3))]
  }

  function Signed(v: Visit): seq<Op> {
    Answered(v) + [SignOffOp(VisitId(), v.signOff, DrawsOfCall(4))]
  }

  function AnsweredAgain(v: Visit): seq<Op> {
    Signed(v) + [Record(VisitId(), Better(v), DrawsOfCall(5))]
  }

  /** The visit runs on its instrument, is signed with a rating or not yet, and call `k`
      is the next; `entries` are its answers in the log. */
  ghost predicate Stage(v: Visit, t: Tables, signed: Option<RatingResult>, k: int, entries: seq<Entry>) {
    && VersionOf(t, VisitId()) == Success(Instrument(v))
    && FindInspection(t.inspections, VisitId()).Some?
    && FindInspection(t.inspections, VisitId()).value.submitted == signed.Some?
    && FindInspection(t.inspections, VisitId()).value.rating == signed
    && t.evidence == []
    && DrawnBefore(t.outbox, k)
    && LogAnswers(t.outbox, VisitId()) == entries
  }

  lemma {:induction false} StartStage(d: Device, v: Visit)
    requires Proper(v)
    ensures Stage(v, VisitRun(d, v, Opened(v)), None, 2, [])
    ensures Started(d, VisitRun(d, v, []), v.start, DrawsOfCall(1)).1 == Success(VisitId())
  {
    StartSucceedsExactlyWhen(d, [Instrument(v)], Facilities(v), [], v.start, DrawsOfCall(1));
    RunNext(d, [Instrument(v)], Facilities(v), [], Opened(v)[0]);
    assert Opened(v) == [] + [Opened(v)[0]];
    StartIsQuiet(d, VisitRun(d, v, []), v.start, DrawsOfCall(1), VisitId());
    FirstStage(d, v);
  }

  lemma {:induction false} FirstStage(d: Device, v: Visit)
    requires Started(d, VisitRun(d, v, []), v.start, DrawsOfCall(1)).1.Success?
    ensures var t := Started(d, VisitRun(d, v, []), v.start, DrawsOfCall(1)).0;
            && VersionOf(t, VisitId()) == Success(Instrument(v)) && t.evidence == []
            && DrawnBefore(t.outbox, 2)
            && FindInspection(t.inspections, VisitId()) == Some(NewInspection(VisitId(), v.start, Instrument(v)))
  {
    var payload := StartedPayload(v.start.reference, v.start.facilityId, Instrument(v), v.start.checkin);
    var draft := Draft(INSPECTION, VisitId(), STARTED, payload, DrawsOfCall(1).uuid(1), DrawsOfCall(1).now(0));
    AuthoredIsMadeFrom(d, [], draft);
    assert draft.eventId[0] == 1;
  }

  lemma {:induction false} AnswerStage(
      d: Device, v: Visit, ops: seq<Op>, signed: Option<RatingResult>, input: RecordInput, k: CodeUnit, entries: seq<Entry>, e: Entry)
    requires Stage(v, VisitRun(d, v, ops), signed, k, entries) && k < 100
    requires FindCheckpoint(Instrument(v).sections, input.checkpointRef) == Some(v.spec)
    requires RefusedAnswer(v.spec, input).None?
    requires e == Entry(input.checkpointRef, Answer(input.response, KeptRemark(input.remark)))
    ensures Recorded(d, VisitRun(d, v, ops), VisitId(), input, DrawsOfCall(k)).1.Success?
    ensures Stage(v, VisitRun(d, v, ops + [Record(VisitId(), input, DrawsOfCall(k))]), signed, k + 1, Put(entries, e))
  {
    var t := VisitRun(d, v, ops);
    NewCallUnused(t, k, 0);
    KeptExactlyWhen(input.remark);
    RecordSucceedsExactlyWhen(d, [Instrument(v)], Facilities(v), ops, VisitId(), input, DrawsOfCall(k));
    RunNext(d, [Instrument(v)], Facilities(v), ops, Record(VisitId(), input, DrawsOfCall(k)));
    AnswerTaken(d, t, VisitId(), input, DrawsOfCall(k));
    NextStage(v, t, Recorded(d, t, VisitId(), input, DrawsOfCall(k)).0, signed, k, entries, Put(entries, e));
  }

  lemma {:induction false} NextStage(
      v: Visit, t: Tables, after: Tables, signed: Option<RatingResult>, k: CodeUnit, entries: seq<Entry>, more: seq<Entry>)
    requires Stage(v, t, signed, k, entries)
    requires after == t.(outbox := after.outbox, responses := after.responses)
    requires |after.outbox| == |t.outbox| + 1 && t.outbox <= after.outbox
    requires after.outbox[|t.outbox|].eventId == DrawsOfCall(k).uuid(0)
    requires LogAnswers(after.outbox, VisitId()) == more
    ensures Stage(v, after, signed, k + 1, more)
  {
    assert after.outbox[|t.outbox|].eventId[0] == k;
    assert forall i | 0 <= i < |t.outbox| :: after.outbox[i] == t.outbox[i];
  }

  // ---------------------------------------------------- up to the signature

  function NoEntry(v: Visit, ref: Text): Entry {
    Entry(ref, Answer(No, Some(Trim(v.remark))))
  }

  function TwoEntries(v: Visit): seq<Entry> {
    [NoEntry(v, OwnRef(v)), NoEntry(v, v.alias)]
  }

  lemma {:induction false} AdverseIsTaken(v: Visit, ref: Text)
    requires Proper(v)
    ensures RefusedAnswer(v.spec, Adverse(v, ref)).None? && KeptRemark(Adverse(v, ref).remark) == Some(Trim(v.remark))
  {
  }

  lemma {:induction false} OwnRefAnswered(d: Device, v: Visit)
    requires Proper(v)
    ensures Stage(v, VisitRun(d, v, AnsweredOnce(v)), None, 3, [NoEntry(v, OwnRef(v))])
  {
    StartStage(d, v);
    OneRefFound(v);
    AdverseIsTaken(v, OwnRef(v));
    AnswerStage(d, v, Opened(v), None, Adverse(v, OwnRef(v)), 2, [], NoEntry(v, OwnRef(v)));
  }

  /** Both spellings are accepted, and the log holds both answers. */
  lemma {:induction false} BothSpellingsAnswered(d: Device, v: Visit)
    requires Proper(v)
    ensures Stage(v, VisitRun(d, v, Answered(v)), None, 4, TwoEntries(v))
  {
    OwnRefAnswered(d, v);
    AdverseIsTaken(v, v.alias);
    AnswerStage(d, v, AnsweredOnce(v), None, Adverse(v, v.alias), 3, [NoEntry(v, OwnRef(v))], NoEntry(v, v.alias));
    PutSecond(NoEntry(v, OwnRef(v)), NoEntry(v, v.alias));
  }

  lemma {:induction false} PutSecond(first: Entry, second: Entry)
    requires first.ref != second.ref
    ensures Put([first], second) == [first, second]
  {
    assert [first][1..] == [];
  }

  lemma {:induction false} PutFirst(first: Entry, second: Entry, e: Entry)
    requires first.ref == e.ref
    ensures Put([first, second], e) == [e, second]
  {
    assert [first, second][1..] == [second];
  }

  // -------------------------------------------------------- the signature

  lemma {:induction false} EntriesAreLatest(v: Visit, t: Tables, signed: Option<RatingResult>, k: int, entries: seq<Entry>)
    requires Stage(v, t, signed, k, entries) && entries != []
    ensures LatestAnswer(t.outbox, VisitId(), entries[0].ref) == Some(entries[0].answer)
  {
    FoldFindsLatest(t.outbox, VisitId(), entries[0].ref);
  }

  lemma {:induction false} ReadyToBeSigned(d: Device, v: Visit)
    requires Proper(v)
    ensures ReadyToSign(VisitRun(d, v, Answered(v)), VisitId())
  {
    var t := VisitRun(d, v, Answered(v));
    BothSpellingsAnswered(d, v);
    EntriesAreLatest(v, t, None, 4, TwoEntries(v));
    OneRefFound(v);
    ReadyExactlyWhen(d, [Instrument(v)], Facilities(v), Answered(v), VisitId());
  }

  lemma {:induction false} AllAreDated(v: Visit, findings: seq<ProvisionalFinding>)
    requires Proper(v)
    ensures AllDated(findings, v.signOff)
  {
    assert forall i | 0 <= i < |findings| :: v.signOff.dueDate(findings[i].severity).Some?;
  }

  lemma {:induction false} DraftIds(t: Tables, id: Text, s: SignOff, k: CodeUnit)
    requires ReadyToSign(t, id) && DrawnBefore(t.outbox, k) && AllDated(ProvisionalFindings(t, id).value, s)
    ensures UnusedIds(t.outbox, DraftsOf(t, id, s, DrawsOfCall(k)))
    ensures forall i | 0 <= i < |DraftsOf(t, id, s, DrawsOfCall(k))| ::
              var eventId := DraftsOf(t, id, s, DrawsOfCall(k))[i].eventId; eventId != [] && eventId[0] == k
  {
    var inspection, rating := FindInspection(t.inspections, id).value, RatingOf(t, id).value;
    SubmitDraftIds(inspection, rating, ProvisionalFindings(t, id).value, s, k);
    SignOffUnused(t.outbox, DraftsOf(t, id, s, DrawsOfCall(k)), k);
  }

  lemma {:induction false} SubmitDraftIds(
      inspection: InspectionRow, rating: RatingResult, findings: seq<ProvisionalFinding>, s: SignOff, k: CodeUnit)
    requires AllDated(findings, s)
    ensures var drafts := SubmitDrafts(inspection, rating, findings, s, DrawsOfCall(k));
            && (forall i | 0 <= i < |findings| :: drafts[i].eventId == DrawsOfCall(k).uuid(2 * i + 1))
            && drafts[|findings|].eventId == DrawsOfCall(k).uuid(2 * |findings|)
            && forall i | 0 <= i < |drafts| :: drafts[i].eventId != [] && drafts[i].eventId[0] == k
  {
    var drafts := SubmitDrafts(inspection, rating, findings, s, DrawsOfCall(k));
    forall i | 0 <= i < |findings|
      ensures drafts[i].eventId == DrawsOfCall(k).uuid(2 * i + 1)
    {
      assert drafts[i] == RaisedDraft(inspection, findings[i], i, s, DrawsOfCall(k));
    }
    assert drafts[|findings|] == SubmitDraft(inspection, rating, |findings|, s, DrawsOfCall(k));
  }

  /** The visit is signed off, with the rating two adverse answers give: none. */
  lemma {:induction false} VisitIsSigned(d: Device, v: Visit) returns (rating: RatingResult)
    requires Proper(v)
    ensures SignedOff(d, VisitRun(d, v, Answered(v)), VisitId(), v.signOff, DrawsOfCall(4)).1 == Success(rating)
    ensures rating == LogRating(VisitRun(d, v, Answered(v)).outbox, VisitId(), Instrument(v))
  {
    var t := VisitRun(d, v, Answered(v));
    ReadyToBeSigned(d, v);
    BothSpellingsAnswered(d, v);
    AllAreDated(v, ProvisionalFindings(t, VisitId()).value);
    DraftIds(t, VisitId(), v.signOff, 4);
    SignOffSucceedsExactlyWhen(d, [Instrument(v)], Facilities(v), Answered(v), VisitId(), v.signOff, DrawsOfCall(4));
    SubmitMeans(d, [Instrument(v)], Facilities(v), Answered(v), VisitId(), v.signOff, DrawsOfCall(4));
    rating := SignedOff(d, t, VisitId(), v.signOff, DrawsOfCall(4)).1.value;
  }

  lemma {:induction false} SignedRun(d: Device, v: Visit)
    ensures VisitRun(d, v, Signed(v))
         == SignedOff(d, VisitRun(d, v, Answered(v)), VisitId(), v.signOff, DrawsOfCall(4)).0
  {
    RunNext(d, [Instrument(v)], Facilities(v), Answered(v), SignOffOp(VisitId(), v.signOff, DrawsOfCall(4)));
  }

  /** The answers stand, and the visit is submitted. */
  lemma {:induction false} SignedStage(d: Device, v: Visit) returns (rating: RatingResult)
    requires Proper(v)
    ensures rating == LogRating(VisitRun(d, v, Answered(v)).outbox, VisitId(), Instrument(v))
    ensures Stage(v, VisitRun(d, v, Signed(v)), Some(rating), 5, TwoEntries(v))
  {
    rating := VisitIsSigned(d, v);
    ReadyToBeSigned(d, v);
    BothSpellingsAnswered(d, v);
    SignedTables(d, v, VisitRun(d, v, Answered(v)), rating);
    SignedRun(d, v);
  }

  lemma {:induction false} SignedTables(d: Device, v: Visit, t: Tables, rating: RatingResult)
    requires Stage(v, t, None, 4, TwoEntries(v)) && ReadyToSign(t, VisitId()) && Proper(v)
    requires SignedOff(d, t, VisitId(), v.signOff, DrawsOfCall(4)).1 == Success(rating)
    ensures Stage(v, SignedOff(d, t, VisitId(), v.signOff, DrawsOfCall(4)).0, Some(rating), 5, TwoEntries(v))
  {
    var drafts := DraftsOf(t, VisitId(), v.signOff, DrawsOfCall(4));
    SignedOffParts(d, t, VisitId(), v.signOff, DrawsOfCall(4));
    SignOffIsQuiet(d, t, VisitId(), v.signOff, DrawsOfCall(4), VisitId());
    SignOffKeepsVersion(d, t, VisitId(), v.signOff, DrawsOfCall(4), VisitId());
    FindAfterSubmit(t.inspections, VisitId(), rating, SignaturesOf(v.signOff), VisitId());
    AllAreDated(v, ProvisionalFindings(t, VisitId()).value);
    DraftIds(t, VisitId(), v.signOff, 4);
    AuthorAllMade(d, t.outbox, drafts);
    WrittenBefore(t.outbox, AuthorAll(d, t.outbox, drafts).0, drafts, 4);
  }

  lemma {:induction false} WrittenBefore(rows: seq<OutboxRow>, after: seq<OutboxRow>, drafts: seq<Draft>, k: int)
    requires DrawnBefore(rows, k) && Continues(rows, after, drafts)
    requires forall i | 0 <= i < |drafts| :: drafts[i].eventId != [] && drafts[i].eventId[0] == k
    ensures DrawnBefore(after, k + 1)
  {
    forall i | 0 <= i < |after| ensures after[i].eventId != [] && after[i].eventId[0] < k + 1 {
      if i < |rows| {
        assert after[i] == rows[i];
      } else {
        assert MadeFrom(after[|rows| + (i - |rows|)], drafts[i - |rows|]);
      }
    }
  }

  // ------------------------------------------------------------ the ratings

  function LineOf(v: Visit, response: Response): Line {
    Line(v.spec.weight, response, v.spec.severityOnFail)
  }

  lemma {:induction false} RatingOfTwo(v: Visit, first: Entry, second: Entry)
    requires Proper(v) && first.ref == OwnRef(v) && second.ref == v.alias && second.answer.response.No?
    requires !first.answer.response.NA?
    ensures Rating(LinesFor(Instrument(v).sections, [first, second]), v.bands).hundredths
         == if first.answer.response.Yes? then 5000 else 0
  {
    OneRefFound(v);
    var lines := LinesFor(Instrument(v).sections, [first, second]);
    assert lines == [LineOf(v, first.answer.response), LineOf(v, No)];
    SumsOfTwo(Scored(lines), v.spec.weight, first.answer.response);
    HalfOf(v.spec.weight);
  }

  lemma {:induction false} SumsOfTwo(cs: seq<ScoredCheckpoint>, w: nat, first: Response)
    requires cs == [ScoredCheckpoint(w, first), ScoredCheckpoint(w, No)] && !first.NA?
    ensures WeightedYes(cs) == (if first.Yes? then w else 0) && WeightedAnswered(cs) == 2 * w
  {
    var one := cs[..1];
    assert one == [cs[0]] && one[..0] == [];
    assert WeightedYes(one[..0]) == 0 && WeightedAnswered(one[..0]) == 0;
    assert WeightedYes(one) == (if first.Yes? then w else 0) && WeightedAnswered(one) == w;
    assert cs[..|cs| - 1] == one;
  }

  lemma {:induction false} HalfOf(w: nat)
    requires w > 0
    ensures Hundredths(w, 2 * w) == 5000 && Hundredths(0, 2 * w) == 0
  {
    assert 2 * (10000 * w) + 2 * w == (4 * w) * 5000 + 2 * w;
    QuotientIs(2 * (10000 * w) + 2 * w, 4 * w, 5000);
    QuotientIs(2 * w, 4 * w, 0);
  }

  lemma {:induction false} QuotientIs(x: nat, y: nat, q: nat)
    requires y > 0 && y * q <= x < y * q + y
    ensures x / y == q
  {
    QuotientAtLeast(x, y, q);
    if x / y > q {
      ScaleUp(y, q + 1, x / y);
    }
  }

  // ------------------------------------------------- what the visit shows

  /** One checkpoint, answered No under two spellings, raises two findings, and neither
      sorts before the other. */
  lemma {:induction false} OneCheckpointRaisesTwoFindings(d: Device, v: Visit)
    requires Proper(v)
    ensures var t, after := VisitRun(d, v, Answered(v)), VisitRun(d, v, Signed(v));
            && t.outbox <= after.outbox && |after.outbox| == |t.outbox| + 3
            && var refs := RefsIn(after.outbox[|t.outbox|..][..2]);
               && multiset(refs) == multiset{OwnRef(v), v.alias} && !Increasing(refs)
               && CheckpointOf(t, VisitId(), OwnRef(v)) == CheckpointOf(t, VisitId(), v.alias) == Success(v.spec)
  {
    var t, after := VisitRun(d, v, Answered(v)), VisitRun(d, v, Signed(v));
    var rating := VisitIsSigned(d, v);
    SignedRun(d, v);
    BothSpellingsAnswered(d, v);
    OneRefFound(v);
    SubmitMeans(d, [Instrument(v)], Facilities(v), Answered(v), VisitId(), v.signOff, DrawsOfCall(4));
    TwoFindings(v, t, rating, after.outbox[|t.outbox|..]);
  }

  lemma {:induction false} TwoFindings(v: Visit, t: Tables, rating: RatingResult, added: seq<OutboxRow>)
    requires Proper(v) && LogAnswers(t.outbox, VisitId()) == TwoEntries(v)
    requires SignOffRecord(t, VisitId(), rating, added)
    ensures |added| == 3 && multiset(RefsIn(added[..2])) == multiset{OwnRef(v), v.alias} && !Increasing(RefsIn(added[..2]))
  {
    TwoNoRefs(NoEntry(v, OwnRef(v)), NoEntry(v, v.alias));
    TwoTexts(RefsIn(added[..|added| - 1]), OwnRef(v), v.alias);
    AliasIsSamePlace(v);
    FindingsIncreaseExactlyWhen(t, VisitId(), rating, added);
  }

  lemma {:induction false} TwoNoRefs(first: Entry, second: Entry)
    requires first.answer.response.No? && second.answer.response.No?
    ensures NoRefs([first, second]) == [first.ref, second.ref]
    ensures first.ref in NoRefs([first, second]) && second.ref in NoRefs([first, second])
  {
    var entries := [first, second];
    assert entries[1..] == [second] && [second][1..] == [];
    assert NoRefs([second]) == [second.ref];
    assert NoRefs(entries)[0] == first.ref && NoRefs(entries)[1] == second.ref;
  }

  lemma {:induction false} TwoTexts(refs: seq<Text>, a: Text, b: Text)
    requires multiset(refs) == multiset([a, b])
    ensures |refs| == 2 && multiset(refs) == multiset{a, b}
  {
    assert |multiset(refs)| == |refs|;
  }

  /** Row number `n` of the log submits the visit with two findings and this rating. */
  ghost predicate SubmissionAt(rows: seq<OutboxRow>, n: nat, rating: RatingResult) {
    n < |rows| && SubmitsWith(rows[n], VisitId(), 2, rating)
  }

  lemma {:induction false} SubmissionInLog(d: Device, v: Visit, rating: RatingResult)
    requires Proper(v) && rating == LogRating(VisitRun(d, v, Answered(v)).outbox, VisitId(), Instrument(v))
    ensures SubmissionAt(VisitRun(d, v, Signed(v)).outbox, |VisitRun(d, v, Answered(v)).outbox| + 2, rating)
  {
    var t, after := VisitRun(d, v, Answered(v)), VisitRun(d, v, Signed(v));
    var signed := VisitIsSigned(d, v);
    SignedRun(d, v);
    BothSpellingsAnswered(d, v);
    SubmitMeans(d, [Instrument(v)], Facilities(v), Answered(v), VisitId(), v.signOff, DrawsOfCall(4));
    TwoFindings(v, t, rating, after.outbox[|t.outbox|..]);
  }

  lemma {:induction false} SubmissionStays(rows: seq<OutboxRow>, more: seq<OutboxRow>, n: nat, rating: RatingResult)
    requires SubmissionAt(rows, n, rating) && rows <= more
    ensures SubmissionAt(more, n, rating)
  {
  }

  lemma {:induction false} LogGrowsByAnswer(d: Device, v: Visit)
    requires Recorded(d, VisitRun(d, v, Signed(v)), VisitId(), Better(v), DrawsOfCall(5)).1.Success?
    ensures VisitRun(d, v, Signed(v)).outbox <= VisitRun(d, v, AnsweredAgain(v)).outbox
  {
    RunNext(d, [Instrument(v)], Facilities(v), Signed(v), Record(VisitId(), Better(v), DrawsOfCall(5)));
    AnswerTaken(d, VisitRun(d, v, Signed(v)), VisitId(), Better(v), DrawsOfCall(5));
  }

  /** A submitted inspection still takes answers and exhibits. The answer is the latest in
      the log and moves the rating on screen to half, while the rating that was signed, in
      the table and in the `InspectionSubmitted` event, stays at nothing. */
  lemma {:induction false} SubmittedInspectionIsNotClosed(d: Device, v: Visit) returns (signed: RatingResult)
    requires Proper(v)
    ensures var before, later := VisitRun(d, v, Signed(v)), VisitRun(d, v, AnsweredAgain(v));
            && signed.hundredths == 0
            && IsSubmitted(before, VisitId()) && IsSubmitted(later, VisitId())
            && FindInspection(later.inspections, VisitId()).value.rating == Some(signed)
            && SubmissionAt(later.outbox, |VisitRun(d, v, Answered(v)).outbox| + 2, signed)
            && Recorded(d, before, VisitId(), Better(v), DrawsOfCall(5)).1.Success?
            && LatestAnswer(later.outbox, VisitId(), OwnRef(v)) == Some(Answer(Yes, None))
            && RatingOf(later, VisitId()).Success? && RatingOf(later, VisitId()).value.hundredths == 5000
            && Captured(d, later, VisitId(), v.exhibit, DrawsOfCall(6)).1.Success?
  {
    signed := SignedStage(d, v);
    BothSpellingsAnswered(d, v);
    RatingOfTwo(v, NoEntry(v, OwnRef(v)), NoEntry(v, v.alias));
    AgainStage(d, v, signed);
    SubmissionInLog(d, v, signed);
    LogGrowsByAnswer(d, v);
    var later := VisitRun(d, v, AnsweredAgain(v));
    SubmissionStays(VisitRun(d, v, Signed(v)).outbox, later.outbox, |VisitRun(d, v, Answered(v)).outbox| + 2, signed);
    LaterShows(d, v, later, signed);
    NewCallUnused(later, 6, 1);
    OneRefFound(v);
    CaptureSucceedsExactlyWhen(
      d, [Instrument(v)], Facilities(v), AnsweredAgain(v), VisitId(), v.exhibit, DrawsOfCall(6));
    RatingScoresTheLog(d, [Instrument(v)], Facilities(v), AnsweredAgain(v), VisitId());
  }

  function BetterEntries(v: Visit): seq<Entry> {
    [Entry(OwnRef(v), Answer(Yes, None)), NoEntry(v, v.alias)]
  }

  lemma {:induction false} AgainStage(d: Device, v: Visit, signed: RatingResult)
    requires Proper(v) && Stage(v, VisitRun(d, v, Signed(v)), Some(signed), 5, TwoEntries(v))
    ensures Recorded(d, VisitRun(d, v, Signed(v)), VisitId(), Better(v), DrawsOfCall(5)).1.Success?
    ensures Stage(v, VisitRun(d, v, AnsweredAgain(v)), Some(signed), 6, BetterEntries(v))
  {
    OneRefFound(v);
    PutFirst(NoEntry(v, OwnRef(v)), NoEntry(v, v.alias), Entry(OwnRef(v), Answer(Yes, None)));
    AnswerStage(d, v, Signed(v), Some(signed), Better(v), 5, TwoEntries(v), Entry(OwnRef(v), Answer(Yes, None)));
  }

  lemma {:induction false} LaterShows(d: Device, v: Visit, later: Tables, signed: RatingResult)
    requires Proper(v) && Stage(v, later, Some(signed), 6, BetterEntries(v))
    ensures LatestAnswer(later.outbox, VisitId(), OwnRef(v)) == Some(Answer(Yes, None))
    ensures LogRating(later.outbox, VisitId(), Instrument(v)).hundredths == 5000
  {
    EntriesAreLatest(v, later, Some(signed), 6, BetterEntries(v));
    RatingOfTwo(v, BetterEntries(v)[0], BetterEntries(v)[1]);
  }
}
