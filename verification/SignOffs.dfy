/** What a sign-off means. */
module SignOffs {
  import opened Wrappers
  import opened Texts
  import opened Numbers
  import opened Json
  import opened JsonRoundTrip
  import opened JsonCanonical
  import opened Events
  import opened Scoring
  import opened Store
  import opened Outbox
  import opened Inspection
  import opened FindingOrder
  import opened InspectionLog
  import opened InspectionSteps
  import opened InspectionRuns

  // The rating, the findings and the submission all follow from the event log.

  // ---------------------------------------------------- the rating of a log

  /** One line per ref answered in the log, weighed by the instrument. */
  function LineFor(sections: seq<Section>, e: Entry): Line {
    match FindCheckpoint(sections, e.ref)
    case Some(spec) => Line(spec.weight, e.answer.response, spec.severityOnFail)
    case None => Line(0, e.answer.response, Minor)
  }

  function LinesFor(sections: seq<Section>, entries: seq<Entry>): (lines: seq<Line>)
    ensures |lines| == |entries|
  {
    seq(|entries|, i requires 0 <= i < |entries| => LineFor(sections, entries[i]))
  }

  /** The rating the log alone gives an inspection. */
  function LogRating(rows: seq<OutboxRow>, id: Text, version: InstrumentVersion): RatingResult {
    Rating(LinesFor(version.sections, LogAnswers(rows, id)), version.bands)
  }

  lemma {:induction false} ResponsesAreRows(rows: seq<ResponseRow>, id: Text, i: nat)
    requires i < |ResponsesOf(rows, id)|
    ensures ResponsesOf(rows, id)[i] in rows && ResponsesOf(rows, id)[i].inspectionId == id
  {
    if rows[0].inspectionId == id {
      if i > 0 {
        ResponsesAreRows(rows[1..], id, i - 1);
      }
    } else {
      ResponsesAreRows(rows[1..], id, i);
    }
  }

  lemma {:induction false} ResponsesObey(d: Device, t: Tables, id: Text, i: nat)
    requires Consistent(d, t) && i < |ResponsesOf(t.responses, id)|
    ensures ObeysInstrument(t, ResponsesOf(t.responses, id)[i]) && ResponsesOf(t.responses, id)[i].inspectionId == id
  {
    ResponsesAreRows(t.responses, id, i);
    var r := ResponsesOf(t.responses, id)[i];
    var k :| 0 <= k < |t.responses| && t.responses[k] == r;
  }

  lemma {:induction false} SameScores(d: Device, t: Tables, id: Text)
    requires Consistent(d, t) && VersionOf(t, id).Success?
    ensures Scored(LinesFor(VersionOf(t, id).value.sections, LogAnswers(t.outbox, id)))
         == ScoredResponses(ResponsesOf(t.responses, id))
  {
    assert Agrees(t, id);
    var rs, lines := ResponsesOf(t.responses, id), LinesFor(VersionOf(t, id).value.sections, LogAnswers(t.outbox, id));
    forall i | 0 <= i < |rs| ensures Scored(lines)[i] == ScoredResponses(rs)[i] {
      ResponsesObey(d, t, id, i);
      assert TableAnswers(t.responses, id)[i] == EntryOf(rs[i]);
    }
  }

  // --------------------------------------------------------- the findings

  /** The finding an adverse answer raises. */
  ghost predicate FindingOf(t: Tables, id: Text, f: ProvisionalFinding, r: ResponseRow) {
    && CheckpointOf(t, id, r.checkpointRef).Success? && r.remark.Some?
    && f == ProvisionalFinding(
              r.checkpointRef, CheckpointOf(t, id, r.checkpointRef).value.severityOnFail, r.remark.value)
  }

  lemma {:induction false} FindingsOfRows(t: Tables, id: Text, rows: seq<ResponseRow>)
    requires forall i | 0 <= i < |rows| ::
               rows[i].inspectionId == id && rows[i].response.No? && ObeysInstrument(t, rows[i])
    ensures FindingsFor(t, id, rows).Success? && |FindingsFor(t, id, rows).value| == |rows|
    ensures forall i | 0 <= i < |rows| :: FindingOf(t, id, FindingsFor(t, id, rows).value[i], rows[i])
  {
    if rows != [] {
      FindingsOfRows(t, id, rows[1..]);
      assert ObeysInstrument(t, rows[0]);
      var rest := FindingsFor(t, id, rows[1..]).value;
      forall i | 0 < i < |rows| ensures FindingOf(t, id, FindingsFor(t, id, rows).value[i], rows[i]) {
        assert FindingOf(t, id, rest[i - 1], rows[1..][i - 1]);
      }
    }
  }

  function AdverseRows(t: Tables, id: Text): seq<ResponseRow> {
    SortByRef(NoAnswers(ResponsesOf(t.responses, id)))
  }

  /** The adverse answers are found on the instrument, each with its remark. */
  lemma {:induction false} AdverseRowsObey(d: Device, t: Tables, id: Text)
    requires Consistent(d, t)
    ensures forall i | 0 <= i < |AdverseRows(t, id)| ::
              var r := AdverseRows(t, id)[i];
              r.inspectionId == id && r.response.No? && ObeysInstrument(t, r) && r in ResponsesOf(t.responses, id)
  {
    var rs := ResponsesOf(t.responses, id);
    forall i | 0 <= i < |AdverseRows(t, id)|
      ensures var r := AdverseRows(t, id)[i];
              r.inspectionId == id && r.response.No? && ObeysInstrument(t, r) && r in rs
    {
      var r := AdverseRows(t, id)[i];
      SortMember(NoAnswers(rs), r);
      NoAnswersMember(rs, r);
      var k :| 0 <= k < |rs| && rs[k] == r;
      ResponsesObey(d, t, id, k);
    }
  }

  /** Deriving findings never fails in a reachable state, and gives one per adverse answer. */
  lemma {:induction false} FindingsAreDerived(d: Device, t: Tables, id: Text)
    requires Consistent(d, t)
    ensures ProvisionalFindings(t, id).Success? && |ProvisionalFindings(t, id).value| == |AdverseRows(t, id)|
    ensures forall i | 0 <= i < |AdverseRows(t, id)| ::
              FindingOf(t, id, ProvisionalFindings(t, id).value[i], AdverseRows(t, id)[i])
  {
    AdverseRowsObey(d, t, id);
    FindingsOfRows(t, id, AdverseRows(t, id));
  }

  function LogLines(t: Tables, id: Text): seq<Line>
    requires VersionOf(t, id).Success?
  {
    LinesFor(VersionOf(t, id).value.sections, LogAnswers(t.outbox, id))
  }

  /** A finding comes from an adverse line of the log ... */
  lemma {:induction false} FindingHasLine(d: Device, t: Tables, id: Text, i: nat) returns (k: nat)
    requires Consistent(d, t) && VersionOf(t, id).Success? && i < |AdverseRows(t, id)|
    ensures ProvisionalFindings(t, id).Success? && i < |ProvisionalFindings(t, id).value|
    ensures k < |LogLines(t, id)| && LogLines(t, id)[k].response.No?
    ensures LogLines(t, id)[k].severityOnFail == ProvisionalFindings(t, id).value[i].severity
  {
    var rs, adverse := ResponsesOf(t.responses, id), AdverseRows(t, id);
    FindingsAreDerived(d, t, id);
    AdverseRowsObey(d, t, id);
    assert FindingOf(t, id, ProvisionalFindings(t, id).value[i], adverse[i]);
    k :| 0 <= k < |rs| && rs[k] == adverse[i];
    assert Agrees(t, id);
    LineOfRow(t, id, k);
  }

  /** ... and every adverse line raises one. */
  lemma {:induction false} LineHasFinding(d: Device, t: Tables, id: Text, k: nat) returns (i: nat)
    requires Consistent(d, t) && VersionOf(t, id).Success? && k < |LogLines(t, id)| && LogLines(t, id)[k].response.No?
    ensures ProvisionalFindings(t, id).Success? && i < |ProvisionalFindings(t, id).value|
    ensures LogLines(t, id)[k].severityOnFail == ProvisionalFindings(t, id).value[i].severity
  {
    var rs, adverse := ResponsesOf(t.responses, id), AdverseRows(t, id);
    assert Agrees(t, id);
    LineOfRow(t, id, k);
    ResponsesObey(d, t, id, k);
    NoAnswersMember(rs, rs[k]);
    SortMember(NoAnswers(rs), rs[k]);
    FindingsAreDerived(d, t, id);
    i :| 0 <= i < |adverse| && adverse[i] == rs[k];
    assert FindingOf(t, id, ProvisionalFindings(t, id).value[i], adverse[i]);
  }

  lemma {:induction false} SameSeverities(d: Device, t: Tables, id: Text, severity: Severity)
    requires Consistent(d, t) && VersionOf(t, id).Success? && ProvisionalFindings(t, id).Success?
    ensures HasOpen(OpenFindings(ProvisionalFindings(t, id).value), severity)
       <==> HasOpen(Raised(LogLines(t, id)), severity)
  {
    var lines, findings := LogLines(t, id), ProvisionalFindings(t, id).value;
    RaisedFromNo(lines, severity);
    FindingsAreDerived(d, t, id);
    if HasOpen(OpenFindings(findings), severity) {
      var i :| 0 <= i < |findings| && OpenFindings(findings)[i] == FindingLike(severity, true);
      var k := FindingHasLine(d, t, id, i);
    }
    forall k | 0 <= k < |lines| && lines[k].response.No? && lines[k].severityOnFail == severity
      ensures HasOpen(OpenFindings(findings), severity)
    {
      var i := LineHasFinding(d, t, id, k);
      assert OpenFindings(findings)[i] == FindingLike(severity, true);
    }
  }

  lemma {:induction false} LineOfRow(t: Tables, id: Text, k: nat)
    requires Agrees(t, id) && VersionOf(t, id).Success? && k < |ResponsesOf(t.responses, id)|
    ensures k < |LogAnswers(t.outbox, id)|
    ensures LinesFor(VersionOf(t, id).value.sections, LogAnswers(t.outbox, id))[k]
         == LineFor(VersionOf(t, id).value.sections, EntryOf(ResponsesOf(t.responses, id)[k]))
  {
    assert TableAnswers(t.responses, id)[k] == EntryOf(ResponsesOf(t.responses, id)[k]);
  }

  /** After any run, the rating on screen is the rating of the log: the latest answer
      to each checkpoint, weighed by the instrument. */
  lemma {:induction false} RatingScoresTheLog(
      d: Device, versions: seq<InstrumentVersion>, facilities: map<Text, Text>, ops: seq<Op>, id: Text)
    ensures var t := RunOps(d, versions, facilities, ops);
            RatingOf(t, id) == match VersionOf(t, id)
                               case Failure(e) => Failure(e)
                               case Success(version) => Success(LogRating(t.outbox, id, version))
  {
    EveryRunIsConsistent(d, versions, facilities, ops);
    ConsistentRating(d, RunOps(d, versions, facilities, ops), id);
  }

  lemma {:induction false} ConsistentRating(d: Device, t: Tables, id: Text)
    requires Consistent(d, t)
    ensures RatingOf(t, id) == match VersionOf(t, id)
                               case Failure(e) => Failure(e)
                               case Success(version) => Success(LogRating(t.outbox, id, version))
  {
    if VersionOf(t, id).Success? {
      FindingsAreDerived(d, t, id);
      SameScores(d, t, id);
      SameSeverities(d, t, id, Critical);
      SameSeverities(d, t, id, Major);
    }
  }

  // ---------------------------------------------------------- the band of a log

  /** A checkpoint this severe on the instrument, whose latest answer in the log is No. */
  ghost predicate FailedIn(rows: seq<OutboxRow>, id: Text, sections: seq<Section>, ref: Text, severity: Severity) {
    && LatestAnswer(rows, id, ref).Some? && LatestAnswer(rows, id, ref).value.response.No?
    && FindCheckpoint(sections, ref).Some? && FindCheckpoint(sections, ref).value.severityOnFail == severity
  }

  ghost predicate SomeFailed(rows: seq<OutboxRow>, id: Text, sections: seq<Section>, severity: Severity) {
    exists ref: Text :: FailedIn(rows, id, sections, ref, severity)
  }

  lemma {:induction false} LookupFinds(es: seq<Entry>, ref: Text) returns (k: nat)
    requires Lookup(es, ref).Some?
    ensures k < |es| && es[k] == Entry(ref, Lookup(es, ref).value)
  {
    if es[0].ref == ref {
      k := 0;
    } else {
      k := LookupFinds(es[1..], ref);
      k := k + 1;
    }
  }

  lemma {:induction false} FailedIsLine(
      rows: seq<OutboxRow>, id: Text, sections: seq<Section>, severity: Severity)
    requires severity.Critical? || severity.Major?
    ensures SomeNo(LinesFor(sections, LogAnswers(rows, id)), severity) <==> SomeFailed(rows, id, sections, severity)
  {
    var es, lines := LogAnswers(rows, id), LinesFor(sections, LogAnswers(rows, id));
    if SomeNo(lines, severity) {
      var i :| 0 <= i < |lines| && lines[i].response.No? && lines[i].severityOnFail == severity;
      LogRefsDistinct(rows, id);
      LookupDistinct(es, i);
      FoldFindsLatest(rows, id, es[i].ref);
      assert lines[i] == LineFor(sections, es[i]);
      assert FailedIn(rows, id, sections, es[i].ref, severity);
    }
    if SomeFailed(rows, id, sections, severity) {
      var ref: Text :| FailedIn(rows, id, sections, ref, severity);
      FoldFindsLatest(rows, id, ref);
      var k := LookupFinds(es, ref);
      assert lines[k] == LineFor(sections, es[k]);
    }
  }

  /** The band of a log: critical issues exactly when a critical checkpoint's latest answer is
      No or the rating is below the lower bound, and satisfactory exactly when no critical
      and no major one's is and the rating is at both bounds. */
  lemma {:induction false} LogBandExactlyWhen(rows: seq<OutboxRow>, id: Text, version: InstrumentVersion)
    ensures var r := LogRating(rows, id, version);
            && (r.band.CriticalIssues? <==>
                  || SomeFailed(rows, id, version.sections, Critical)
                  || r.hundredths as real < 100.0 * version.bands.needsImprovementMin)
            && (r.band.Satisfactory? <==>
                  && !SomeFailed(rows, id, version.sections, Critical)
                  && !SomeFailed(rows, id, version.sections, Major)
                  && r.hundredths as real >= 100.0 * version.bands.needsImprovementMin
                  && r.hundredths as real >= 100.0 * version.bands.satisfactoryMin)
  {
    BandExactlyWhen(LinesFor(version.sections, LogAnswers(rows, id)), version.bands);
    FailedIsLine(rows, id, version.sections, Critical);
    FailedIsLine(rows, id, version.sections, Major);
  }

  // -------------------------------------------------------- order of findings

  /** The refs answered No. */
  function NoRefs(entries: seq<Entry>): seq<Text> {
    if entries == [] then []
    else (if entries[0].answer.response.No? then [entries[0].ref] else []) + NoRefs(entries[1..])
  }

  lemma {:induction false} NoRefsOfRows(rows: seq<ResponseRow>)
    ensures NoRefs(Entries(rows)) == RowRefs(NoAnswers(rows))
  {
    if rows != [] {
      NoRefsOfRows(rows[1..]);
      assert Entries(rows)[1..] == Entries(rows[1..]);
      if rows[0].response.No? {
        assert RowRefs([rows[0]] + NoAnswers(rows[1..])) == [rows[0].checkpointRef] + RowRefs(NoAnswers(rows[1..]));
      }
    }
  }

  /** The findings of a reachable state: one per ref answered No, in ref order. */
  lemma {:induction false} AdverseRefs(d: Device, t: Tables, id: Text)
    requires Consistent(d, t)
    ensures multiset(RowRefs(AdverseRows(t, id))) == multiset(NoRefs(LogAnswers(t.outbox, id)))
    ensures |AdverseRows(t, id)| == |NoRefs(LogAnswers(t.outbox, id))|
    ensures InRefOrder(RowRefs(AdverseRows(t, id)))
  {
    var rs := ResponsesOf(t.responses, id);
    assert Agrees(t, id);
    NoRefsOfRows(rs);
    SortKeepsRefs(NoAnswers(rs));
    assert |multiset(RowRefs(AdverseRows(t, id)))| == |AdverseRows(t, id)|;
    SortOrders(NoAnswers(rs));
    OrderedRefs(AdverseRows(t, id));
  }

  // ------------------------------------------------------ what a sign-off writes

  /** The number a stored field reads as. */
  function NumberIn(row: OutboxRow, key: Text): Option<real> {
    match FieldOf(row, key)
    case Some(Num(lexeme)) => DecimalValue(lexeme)
    case _ => None
  }

  /** A text field of an object that is itself a field. */
  function TextWithin(row: OutboxRow, key: Text, inner: Text): Option<Text> {
    match FieldOf(row, key)
    case Some(Obj(fields)) =>
      (match Get(fields, inner)
       case Some(Str(t)) => Some(t)
       case _ => None)
    case _ => None
  }

  function SeverityIn(row: OutboxRow): Option<Severity> {
    match TextOf(row, Ascii("severity"))
    case Some(t) => SeverityFrom(t)
    case None => None
  }

  function BandIn(row: OutboxRow): Option<Band> {
    match TextOf(row, Ascii("ratingBand"))
    case Some(t) => BandFrom(t)
    case None => None
  }

  predicate IsFinding(row: OutboxRow) {
    row.aggregateType == Ascii("finding") && row.eventType == Ascii("FindingRaised")
  }

  /** A stored row raises a finding for the latest answer to a checkpoint of `id`. */
  ghost predicate RaisesFor(t: Tables, id: Text, ref: Text, row: OutboxRow) {
    && IsFinding(row)
    && TextOf(row, Ascii("inspectionId")) == Some(id)
    && TextOf(row, Ascii("checkpointRef")) == Some(ref)
    && TextOf(row, Ascii("summary")).Some?
    && LatestAnswer(t.outbox, id, ref) == Some(Answer(No, TextOf(row, Ascii("summary"))))
    && CheckpointOf(t, id, ref).Success?
    && SeverityIn(row) == Some(CheckpointOf(t, id, ref).value.severityOnFail)
  }

  /** A stored row submits `id` with a count of findings and a rating. */
  ghost predicate SubmitsWith(row: OutboxRow, id: Text, findings: nat, rating: RatingResult) {
    && IsSubmission(row, id)
    && NumberIn(row, Ascii("findingsCount")) == Some(findings as real)
    && NumberIn(row, Ascii("ratingPercent")) == Some(rating.hundredths as real / 100.0)
    && BandIn(row) == Some(rating.band)
  }

  /** It says who signed, and when. */
  ghost predicate SignedBy(row: OutboxRow, s: SignOff) {
    && TextWithin(row, Ascii("inspector"), Ascii("userId")) == Some(s.inspectorUserId)
    && TextWithin(row, Ascii("inspector"), Ascii("signedAt")) == Some(s.inspectorSignedAt)
    && TextWithin(row, Ascii("facilityRep"), Ascii("name")) == Some(s.repName)
    && TextWithin(row, Ascii("facilityRep"), Ascii("role")) == Some(s.repRole)
    && TextWithin(row, Ascii("facilityRep"), Ascii("signedAt")) == Some(s.repSignedAt)
  }

  /** A stored row holds one finding. */
  ghost predicate Raises(row: OutboxRow, id: Text, f: ProvisionalFinding) {
    && IsFinding(row)
    && TextOf(row, Ascii("inspectionId")) == Some(id)
    && TextOf(row, Ascii("checkpointRef")) == Some(f.checkpointRef)
    && TextOf(row, Ascii("summary")) == Some(f.summary)
    && SeverityIn(row) == Some(f.severity)
  }

  /** It is the finding numbered `n` of the inspection called `reference`, due when its
      severity says. */
  ghost predicate Numbered(row: OutboxRow, reference: Text, n: nat, s: SignOff) {
    && SeverityIn(row).Some? && TextOf(row, Ascii("dueDate")) == s.dueDate(SeverityIn(row).value)
    && TextOf(row, Ascii("reference")).Some?
    && FindingNumber(TextOf(row, Ascii("reference")).value, reference) == Some(n)
  }

  /** `CA-<the last six characters of the inspection's>-<number>`, at least two digits. */
  function FindingNumber(reference: Text, inspection: Text): Option<int> {
    var suffix := if |inspection| <= 6 then inspection else inspection[|inspection| - 6..];
    var front := Ascii("CA-") + suffix + Ascii("-");
    if front <= reference && |reference| >= |front| + 2 then WholeNumber(reference[|front|..]) else None
  }

  lemma {:induction false} ReferenceIsRead(inspection: Text, index: nat)
    ensures FindingNumber(FindingReference(inspection, index), inspection) == Some(index + 1)
  {
    var suffix := if |inspection| <= 6 then inspection else inspection[|inspection| - 6..];
    var front, number := Ascii("CA-") + suffix + Ascii("-"), PadZeros(2, Digits(index + 1));
    assert Ascii("-") == [MINUS];
    assert FindingReference(inspection, index) == front + number;
    PaddedIsWhole(2, index + 1);
    assert (front + number)[|front|..] == number;
  }

  lemma {:induction false} PercentParts(h: nat, whole: nat, d: nat, e: nat)
    requires h == 100 * whole + 10 * d + e && d < 10 && e < 10
    ensures PercentText(h)
         == if d == 0 && e == 0 then Digits(whole)
            else if e == 0 then Digits(whole) + [DOT, ZERO + d] else Digits(whole) + [DOT, ZERO + d, ZERO + e]
  {
    assert h / 100 == whole && h % 100 == 10 * d + e;
    assert (10 * d + e) / 10 == d && (10 * d + e) % 10 == e;
  }

  /** The rating is printed so that it reads as itself, and no zero could be left out. */
  lemma {:induction false} PercentIsRead(h: nat)
    ensures DecimalValue(PercentText(h)) == Some(h as real / 100.0)
    ensures DOT in PercentText(h) ==> PercentText(h)[|PercentText(h)| - 1] != ZERO
  {
    PercentReads(h, h / 100, h / 10 % 10, h % 10);
  }

  lemma {:induction false} PercentReads(h: nat, whole: nat, d: nat, e: nat)
    requires h == 100 * whole + 10 * d + e && d < 10 && e < 10
    ensures DecimalValue(PercentText(h)) == Some(h as real / 100.0)
    ensures DOT in PercentText(h) ==> PercentText(h)[|PercentText(h)| - 1] != ZERO
  {
    PercentParts(h, whole, d, e);
    DigitsRoundTrip(whole);
    if d == 0 && e == 0 {
      WholeDecimal(Digits(whole));
    } else if e == 0 {
      OneDecimal(whole, d);
    } else {
      TwoDecimals(whole, d, e);
    }
  }

  lemma {:induction false} OneDecimal(whole: nat, d: nat)
    requires d < 10
    ensures DecimalValue(Digits(whole) + [DOT, ZERO + d]) == Some(whole as real + d as real / 10.0)
  {
    OneDigit(d);
    assert Pow10(1) == 10 * Pow10(0);
    PrintedDecimal(whole, [ZERO + d], d, 10.0, Digits(whole) + [DOT, ZERO + d]);
  }

  lemma {:induction false} TwoDecimals(whole: nat, d: nat, e: nat)
    requires d < 10 && e < 10
    ensures DecimalValue(Digits(whole) + [DOT, ZERO + d, ZERO + e])
         == Some(whole as real + (10 * d + e) as real / 100.0)
  {
    TwoDigits(d, e);
    assert Pow10(1) == 10 * Pow10(0);
    assert Pow10(2) == 100;
    PrintedDecimal(whole, [ZERO + d, ZERO + e], 10 * d + e, 100.0, Digits(whole) + [DOT, ZERO + d, ZERO + e]);
  }

  lemma {:induction false} PrintedDecimal(whole: nat, digits: Text, p: nat, scale: real, t: Text)
    requires digits != [] && AllDigits(digits) && DigitsValue(digits) == p && scale == Pow10(|digits|) as real
    requires t == Digits(whole) + [DOT] + digits
    ensures DecimalValue(t) == Some(whole as real + p as real / scale)
  {
    DigitsRoundTrip(whole);
    PointDecimal(Digits(whole), digits, whole, p, scale);
  }

  lemma {:induction false} OneDigit(d: nat)
    requires d < 10
    ensures DigitsValue([ZERO + d]) == d
  {
    assert [ZERO + d][..0] == [];
  }

  lemma {:induction false} TwoDigits(d: nat, e: nat)
    requires d < 10 && e < 10
    ensures AllDigits([ZERO + d, ZERO + e]) && DigitsValue([ZERO + d, ZERO + e]) == 10 * d + e
  {
    assert [ZERO + d, ZERO + e][..1] == [ZERO + d];
    OneDigit(d);
  }

  lemma {:induction false} SeverityTexts()
    ensures forall s: Severity :: SeverityFrom(SeverityText(s)) == Some(s)
  {
    assert |Ascii("critical")| == 8 && |Ascii("major")| == 5 && |Ascii("minor")| == 5;
    assert Ascii("major")[1] != Ascii("minor")[1];
  }

  lemma {:induction false} BandTexts()
    ensures forall b: Band :: BandFrom(BandText(b)) == Some(b)
  {
    assert |Ascii("satisfactory")| == 12 && |Ascii("needs_improvement")| == 17 && |Ascii("critical_issues")| == 15;
  }

  lemma {:induction false} CountIsRead(n: nat)
    ensures DecimalValue(Digits(n)) == Some(n as real)
  {
    DigitsRoundTrip(n);
    WholeDecimal(Digits(n));
  }

  lemma {:induction false} FindingFields(
      row: OutboxRow, inspection: InspectionRow, f: ProvisionalFinding, i: nat, s: SignOff, draws: Draws)
    requires Dated(f, s) && MadeFrom(row, RaisedDraft(inspection, f, i, s, draws))
    ensures TextOf(row, Ascii("reference")) == Some(FindingReference(inspection.reference, i))
    ensures TextOf(row, Ascii("inspectionId")) == Some(inspection.id)
    ensures TextOf(row, Ascii("checkpointRef")) == Some(f.checkpointRef)
    ensures TextOf(row, Ascii("summary")) == Some(f.summary)
    ensures TextOf(row, Ascii("severity")) == Some(SeverityText(f.severity))
    ensures TextOf(row, Ascii("dueDate")) == s.dueDate(f.severity)
  {
    var reference, due := FindingReference(inspection.reference, i), s.dueDate(f.severity).value;
    var pairs, draft := FindingPairs(reference, inspection.id, f, due), RaisedDraft(inspection, f, i, s, draws);
    FindingKeys(reference, inspection.id, f, due);
    StoredText(row, draft, pairs, 0, Ascii("reference"), reference);
    StoredText(row, draft, pairs, 1, Ascii("inspectionId"), inspection.id);
    StoredText(row, draft, pairs, 2, Ascii("checkpointRef"), f.checkpointRef);
    StoredText(row, draft, pairs, 3, Ascii("summary"), f.summary);
    StoredText(row, draft, pairs, 4, Ascii("severity"), SeverityText(f.severity));
    StoredText(row, draft, pairs, 5, Ascii("dueDate"), due);
  }

  lemma {:induction false} FindingKeys(reference: Text, inspectionId: Text, f: ProvisionalFinding, dueDate: Text)
    ensures DistinctKeys(FindingPairs(reference, inspectionId, f, dueDate))
  {
    var pairs := FindingPairs(reference, inspectionId, f, dueDate);
    assert forall i | 0 <= i < |pairs| :: |pairs[i].0| == [9, 12, 13, 7, 8, 7][i];
    assert pairs[3].0[0] != pairs[5].0[0];
  }

  lemma {:induction false} FindingRow(
      row: OutboxRow, inspection: InspectionRow, f: ProvisionalFinding, i: nat, s: SignOff, draws: Draws)
    requires Dated(f, s) && MadeFrom(row, RaisedDraft(inspection, f, i, s, draws))
    ensures Raises(row, inspection.id, f) && Numbered(row, inspection.reference, i + 1, s)
  {
    FindingFields(row, inspection, f, i, s, draws);
    SeverityTexts();
    ReferenceIsRead(inspection.reference, i);
  }

  lemma {:induction false} SubmitFields(
      row: OutboxRow, inspection: InspectionRow, rating: RatingResult, n: nat, s: SignOff, draws: Draws)
    requires MadeFrom(row, SubmitDraft(inspection, rating, n, s, draws))
    ensures FieldOf(row, Ascii("ratingPercent")) == Some(Num(PercentText(rating.hundredths)))
    ensures FieldOf(row, Ascii("ratingBand")) == Some(Str(BandText(rating.band)))
    ensures FieldOf(row, Ascii("findingsCount")) == Some(Num(Digits(n)))
    ensures FieldOf(row, Ascii("inspector")) == Some(Clean(InspectorValue(s)))
    ensures FieldOf(row, Ascii("facilityRep")) == Some(Clean(RepValue(s)))
  {
    var pairs := SubmittedPairs(rating, n, s);
    assert forall i | 0 <= i < |pairs| :: |pairs[i].0| == [13, 10, 13, 9, 11][i];
    assert pairs[0].0[0] != pairs[2].0[0];
    var draft := SubmitDraft(inspection, rating, n, s, draws);
    StoredField(row, draft, pairs, 0);
    StoredField(row, draft, pairs, 1);
    StoredField(row, draft, pairs, 2);
    StoredField(row, draft, pairs, 3);
    StoredField(row, draft, pairs, 4);
    assert pairs[3].1 == InspectorValue(s) && pairs[4].1 == RepValue(s);
  }

  lemma {:induction false} SubmitRow(
      row: OutboxRow, inspection: InspectionRow, rating: RatingResult, n: nat, s: SignOff, draws: Draws)
    requires MadeFrom(row, SubmitDraft(inspection, rating, n, s, draws))
    ensures SubmitsWith(row, inspection.id, n, rating)
  {
    SubmitFields(row, inspection, rating, n, s, draws);
    PercentIsRead(rating.hundredths);
    CountIsRead(n);
    BandTexts();
  }

  lemma {:induction false} SignaturesStored(
      row: OutboxRow, inspection: InspectionRow, rating: RatingResult, n: nat, s: SignOff, draws: Draws)
    requires MadeFrom(row, SubmitDraft(inspection, rating, n, s, draws))
    ensures SignedBy(row, s)
  {
    SubmitFields(row, inspection, rating, n, s, draws);
    SignersAreRead(row, s);
  }

  lemma {:induction false} SignersAreRead(row: OutboxRow, s: SignOff)
    requires FieldOf(row, Ascii("inspector")) == Some(Clean(InspectorValue(s)))
    requires FieldOf(row, Ascii("facilityRep")) == Some(Clean(RepValue(s)))
    ensures SignedBy(row, s)
  {
    InspectorIsRead(s);
    RepIsRead(s);
  }

  lemma {:induction false} InspectorIsRead(s: SignOff)
    ensures InspectorValue(s).Obj? && Clean(InspectorValue(s)).Obj?
    ensures Get(Clean(InspectorValue(s)).fields, Ascii("userId")) == Some(Str(s.inspectorUserId))
    ensures Get(Clean(InspectorValue(s)).fields, Ascii("signedAt")) == Some(Str(s.inspectorSignedAt))
  {
    var pairs := [(Ascii("userId"), Str(s.inspectorUserId)), (Ascii("signedAt"), Str(s.inspectorSignedAt))];
    assert |pairs[0].0| == 6 && |pairs[1].0| == 8;
    ReadsAt(pairs, 0);
    ReadsAt(pairs, 1);
  }

  lemma {:induction false} RepIsRead(s: SignOff)
    ensures Clean(RepValue(s)).Obj?
    ensures Get(Clean(RepValue(s)).fields, Ascii("name")) == Some(Str(s.repName))
    ensures Get(Clean(RepValue(s)).fields, Ascii("role")) == Some(Str(s.repRole))
    ensures Get(Clean(RepValue(s)).fields, Ascii("signedAt")) == Some(Str(s.repSignedAt))
  {
    var pairs := [(Ascii("name"), Str(s.repName)), (Ascii("role"), Str(s.repRole)), (Ascii("signedAt"), Str(s.repSignedAt))];
    assert |pairs[0].0| == 4 && |pairs[1].0| == 4 && |pairs[2].0| == 8;
    assert pairs[0].0[0] != pairs[1].0[0];
    ReadsAt(pairs, 0);
    ReadsAt(pairs, 1);
    ReadsAt(pairs, 2);
  }

  lemma {:induction false} NoneMissing(refs: seq<Text>, rows: seq<ResponseRow>, id: Text)
    ensures MissingFrom(refs, rows, id) == [] <==> forall i | 0 <= i < |refs| :: HasAnswer(rows, id, refs[i])
  {
    var missing := MissingFrom(refs, rows, id);
    if missing != [] {
      MissingMembers(refs, rows, id, missing[0]);
    }
    forall i | 0 <= i < |refs| && missing == [] ensures HasAnswer(rows, id, refs[i]) {
      MissingMembers(refs, rows, id, refs[i]);
    }
  }

  /** The answer a finding was derived from is the latest in the log. */
  lemma {:induction false} AdverseIsLatest(d: Device, t: Tables, id: Text, r: ResponseRow)
    requires Consistent(d, t) && r in ResponsesOf(t.responses, id)
    ensures LatestAnswer(t.outbox, id, r.checkpointRef) == Some(Answer(r.response, r.remark))
  {
    assert Agrees(t, id);
    var rs := ResponsesOf(t.responses, id);
    var k :| 0 <= k < |rs| && rs[k] == r;
    var es := LogAnswers(t.outbox, id);
    assert es[k] == EntryOf(r);
    LogRefsDistinct(t.outbox, id);
    LookupDistinct(es, k);
    FoldFindsLatest(t.outbox, id, r.checkpointRef);
  }

  lemma {:induction false} LookupDistinct(es: seq<Entry>, k: nat)
    requires DistinctRefs(es) && k < |es|
    ensures Lookup(es, es[k].ref) == Some(es[k].answer)
  {
    if k > 0 {
      var rest := es[1..];
      assert forall j | 0 <= j < |rest| :: rest[j] == es[j + 1];
      LookupDistinct(rest, k - 1);
    }
  }

  function RefsIn(rows: seq<OutboxRow>): (refs: seq<Text>)
    ensures |refs| == |rows|
  {
    seq(|rows|, i requires 0 <= i < |rows| => match TextOf(rows[i], Ascii("checkpointRef")) case Some(t) => t case None => [])
  }

  /** What a completed sign-off adds to the log. */
  ghost predicate SignOffRecord(t: Tables, id: Text, rating: RatingResult, added: seq<OutboxRow>) {
    added != [] &&
    var raised, last := added[..|added| - 1], added[|added| - 1];
    && multiset(RefsIn(raised)) == multiset(NoRefs(LogAnswers(t.outbox, id)))
    && InRefOrder(RefsIn(raised))
    && (forall i | 0 <= i < |raised| :: RaisesFor(t, id, RefsIn(raised)[i], raised[i]))
    && SubmitsWith(last, id, |raised|, rating)
  }

  /** Only the row of `id` changed, and it says submitted, by whom, and with what rating. */
  ghost predicate MarkedSubmitted(t: Tables, after: Tables, id: Text, rating: RatingResult, s: SignOff) {
    && |after.inspections| == |t.inspections|
    && after.responses == t.responses && after.evidence == t.evidence
    && (forall other: Text | other != id ::
          FindInspection(after.inspections, other) == FindInspection(t.inspections, other))
    && FindInspection(t.inspections, id).Some? && FindInspection(after.inspections, id).Some?
    && !FindInspection(t.inspections, id).value.submitted
    && FindInspection(after.inspections, id).value
       == FindInspection(t.inspections, id).value.(
            submitted := true, rating := Some(rating),
            signatures := Some(Signatures(s.inspectorSignedAt, s.repName, s.repSignedAt, s.repSignedAt)))
  }

  lemma {:induction false} MarksSubmitted(t: Tables, after: Tables, id: Text, rating: RatingResult, s: SignOff)
    requires FindInspection(t.inspections, id).Some? && !FindInspection(t.inspections, id).value.submitted
    requires after.inspections == Submitted(t.inspections, id, rating, SignaturesOf(s))
    requires after.responses == t.responses && after.evidence == t.evidence
    ensures MarkedSubmitted(t, after, id, rating, s)
  {
    forall other: Text
      ensures FindInspection(after.inspections, other)
           == match FindInspection(t.inspections, other)
              case None => None
              case Some(row) =>
                Some(if other == id
                     then row.(submitted := true, rating := Some(rating), signatures := Some(SignaturesOf(s))) else row)
    {
      FindAfterSubmit(t.inspections, id, rating, SignaturesOf(s), other);
    }
  }

  /** Every checkpoint of the instrument has an answer in the log, under its own ref. */
  ghost predicate EverythingAnswered(rows: seq<OutboxRow>, id: Text, sections: seq<Section>) {
    forall i, j | 0 <= i < |sections| && 0 <= j < |sections[i].checkpoints| ::
      LatestAnswer(rows, id, RefText(sections[i].ordinal, sections[i].checkpoints[j].ordinal)).Some?
  }

  lemma {:induction false} RefsOfSections(sections: seq<Section>, ref: Text)
    ensures ref in AllRefs(sections) <==>
            exists i, j :: 0 <= i < |sections| && 0 <= j < |sections[i].checkpoints|
                           && ref == RefText(sections[i].ordinal, sections[i].checkpoints[j].ordinal)
  {
    if sections != [] {
      var n := |sections| - 1;
      RefsOfSections(sections[..n], ref);
      if ref in SectionRefs(sections[n]) {
        var j :| 0 <= j < |SectionRefs(sections[n])| && SectionRefs(sections[n])[j] == ref;
        assert ref == RefText(sections[n].ordinal, sections[n].checkpoints[j].ordinal);
      }
      forall i, j | 0 <= i < |sections| && 0 <= j < |sections[i].checkpoints|
                    && ref == RefText(sections[i].ordinal, sections[i].checkpoints[j].ordinal)
        ensures ref in AllRefs(sections)
      {
        if i == n {
          assert SectionRefs(sections[n])[j] == ref;
        }
      }
    }
  }

  ghost predicate RefsAnswered(rows: seq<OutboxRow>, id: Text, refs: seq<Text>) {
    forall ref | ref in refs :: LatestAnswer(rows, id, ref).Some?
  }

  lemma {:induction false} AnsweredExactlyWhen(rows: seq<OutboxRow>, id: Text, sections: seq<Section>)
    ensures EverythingAnswered(rows, id, sections) <==> RefsAnswered(rows, id, AllRefs(sections))
  {
    if EverythingAnswered(rows, id, sections) {
      forall ref | ref in AllRefs(sections) ensures LatestAnswer(rows, id, ref).Some? {
        RefsOfSections(sections, ref);
      }
    } else {
      var i, j :| 0 <= i < |sections| && 0 <= j < |sections[i].checkpoints|
                  && LatestAnswer(rows, id, RefText(sections[i].ordinal, sections[i].checkpoints[j].ordinal)).None?;
      RefsOfSections(sections, RefText(sections[i].ordinal, sections[i].checkpoints[j].ordinal));
    }
  }

  /** The findings are numbered from one and dated, and the submission says who signed. */
  ghost predicate SignOffDetails(reference: Text, s: SignOff, added: seq<OutboxRow>) {
    && added != [] && SignedBy(added[|added| - 1], s)
    && forall i | 0 <= i < |added| - 1 :: Numbered(added[i], reference, i + 1, s)
  }

  lemma {:induction false} WrittenDetails(
      rows: seq<OutboxRow>, after: seq<OutboxRow>, inspection: InspectionRow, rating: RatingResult,
      findings: seq<ProvisionalFinding>, s: SignOff, draws: Draws)
    requires Continues(rows, after, SubmitDrafts(inspection, rating, findings, s, draws))
    requires |after| == |rows| + |findings| + 1
    ensures SignOffDetails(inspection.reference, s, after[|rows|..])
  {
    var n, drafts, added := |findings|, SubmitDrafts(inspection, rating, findings, s, draws), after[|rows|..];
    assert MadeFrom(after[|rows| + n], drafts[n]);
    SignaturesStored(added[n], inspection, rating, n, s, draws);
    forall i | 0 <= i < n ensures Numbered(added[i], inspection.reference, i + 1, s) {
      assert MadeFrom(after[|rows| + i], drafts[i]);
      FindingRow(added[i], inspection, findings[i], i, s, draws);
    }
  }

  lemma {:induction false} DetailsAdded(d: Device, t: Tables, id: Text, s: SignOff, draws: Draws)
    requires ReadyToSign(t, id) && AuthorAll(d, t.outbox, DraftsOf(t, id, s, draws)).1.None?
    requires AllDated(ProvisionalFindings(t, id).value, s)
    ensures var after := AuthorAll(d, t.outbox, DraftsOf(t, id, s, draws)).0;
            |t.outbox| <= |after| && SignOffDetails(FindInspection(t.inspections, id).value.reference, s, after[|t.outbox|..])
  {
    var after := AuthorAll(d, t.outbox, DraftsOf(t, id, s, draws)).0;
    AuthorAllMade(d, t.outbox, DraftsOf(t, id, s, draws));
    WrittenDetails(t.outbox, after, FindInspection(t.inspections, id).value, RatingOf(t, id).value,
                   ProvisionalFindings(t, id).value, s, draws);
  }

  /** Sign-off succeeds only on a complete instrument, returns the rating of the log,
      adds to it one finding per ref whose latest answer is No, in ref order, and then one
      submission that carries the same count and rating, and marks this inspection, and
      no other, as submitted with that rating. */
  lemma {:induction false} SubmitMeans(
      d: Device, versions: seq<InstrumentVersion>, facilities: map<Text, Text>, ops: seq<Op>,
      id: Text, s: SignOff, draws: Draws)
    ensures var t := RunOps(d, versions, facilities, ops);
            var (after, r) := SignedOff(d, t, id, s, draws);
            r.Success? ==>
              && VersionOf(t, id).Success?
              && EverythingAnswered(t.outbox, id, VersionOf(t, id).value.sections)
              && r.value == LogRating(t.outbox, id, VersionOf(t, id).value)
              && t.outbox <= after.outbox
              && SignOffRecord(t, id, r.value, after.outbox[|t.outbox|..])
              && SignOffDetails(FindInspection(t.inspections, id).value.reference, s, after.outbox[|t.outbox|..])
              && MarkedSubmitted(t, after, id, r.value, s)
  {
    var t := RunOps(d, versions, facilities, ops);
    EveryRunIsConsistent(d, versions, facilities, ops);
    SignedOffParts(d, t, id, s, draws);
    if SignedOff(d, t, id, s, draws).1.Success? {
      ConsistentRating(d, t, id);
      ReadyIsAnswered(d, t, id);
      SignOffAdds(d, t, id, s, draws);
      DetailsAdded(d, t, id, s, draws);
      MarksSubmitted(t, SignedOff(d, t, id, s, draws).0, id, RatingOf(t, id).value, s);
    }
  }

  lemma {:induction false} ReadyIsAnswered(d: Device, t: Tables, id: Text)
    requires Consistent(d, t) && ReadyToSign(t, id)
    ensures EverythingAnswered(t.outbox, id, VersionOf(t, id).value.sections)
  {
    forall ref | ref in AllRefs(VersionOf(t, id).value.sections) ensures LatestAnswer(t.outbox, id, ref).Some? {
      EveryRefAnswered(d, t, id, ref);
    }
    AnsweredExactlyWhen(t.outbox, id, VersionOf(t, id).value.sections);
  }

  lemma {:induction false} EveryRefAnswered(d: Device, t: Tables, id: Text, ref: Text)
    requires Consistent(d, t) && ReadyToSign(t, id) && ref in AllRefs(VersionOf(t, id).value.sections)
    ensures LatestAnswer(t.outbox, id, ref).Some?
  {
    var refs := AllRefs(VersionOf(t, id).value.sections);
    NoneMissing(refs, t.responses, id);
    var i :| 0 <= i < |refs| && refs[i] == ref;
    assert HasAnswer(t.responses, id, refs[i]);
    LookupInTable(t.responses, id, ref);
    assert Agrees(t, id);
    FoldFindsLatest(t.outbox, id, ref);
  }

  /** What the rows of a completed sign-off hold. */
  lemma {:induction false} WrittenRows(
      rows: seq<OutboxRow>, after: seq<OutboxRow>, inspection: InspectionRow, rating: RatingResult,
      findings: seq<ProvisionalFinding>, s: SignOff, draws: Draws)
    returns (raised: seq<OutboxRow>, last: OutboxRow)
    requires Continues(rows, after, SubmitDrafts(inspection, rating, findings, s, draws))
    requires |after| == |rows| + |findings| + 1
    ensures after[|rows|..] == raised + [last] && |raised| == |findings|
    ensures forall i | 0 <= i < |raised| :: Raises(raised[i], inspection.id, findings[i])
    ensures SubmitsWith(last, inspection.id, |raised|, rating)
  {
    var n, drafts := |findings|, SubmitDrafts(inspection, rating, findings, s, draws);
    raised, last := after[|rows|..|rows| + n], after[|rows| + n];
    assert MadeFrom(after[|rows| + n], drafts[n]);
    SubmitRow(last, inspection, rating, n, s, draws);
    forall i | 0 <= i < n ensures Raises(raised[i], inspection.id, findings[i]) {
      assert MadeFrom(after[|rows| + i], drafts[i]);
      FindingRow(raised[i], inspection, findings[i], i, s, draws);
    }
  }

  lemma {:induction false} RaisesLatest(d: Device, t: Tables, id: Text, i: nat, f: ProvisionalFinding, row: OutboxRow)
    requires Consistent(d, t) && i < |AdverseRows(t, id)| && FindingOf(t, id, f, AdverseRows(t, id)[i])
    requires Raises(row, id, f)
    ensures RaisesFor(t, id, RowRefs(AdverseRows(t, id))[i], row)
  {
    AdverseRowsObey(d, t, id);
    AdverseIsLatest(d, t, id, AdverseRows(t, id)[i]);
  }

  lemma {:induction false} RecordFrom(
      d: Device, t: Tables, id: Text, rating: RatingResult, findings: seq<ProvisionalFinding>,
      raised: seq<OutboxRow>, last: OutboxRow)
    requires Consistent(d, t) && ProvisionalFindings(t, id) == Success(findings)
    requires |raised| == |findings| && SubmitsWith(last, id, |raised|, rating)
    requires forall i | 0 <= i < |raised| :: Raises(raised[i], id, findings[i])
    ensures SignOffRecord(t, id, rating, raised + [last])
  {
    AdverseRefs(d, t, id);
    RaisedForAll(d, t, id, findings, raised);
    assert (raised + [last])[..|raised|] == raised;
  }

  lemma {:induction false} RaisedForAll(
      d: Device, t: Tables, id: Text, findings: seq<ProvisionalFinding>, raised: seq<OutboxRow>)
    requires Consistent(d, t) && ProvisionalFindings(t, id) == Success(findings) && |raised| == |findings|
    requires forall i | 0 <= i < |raised| :: Raises(raised[i], id, findings[i])
    ensures RefsIn(raised) == RowRefs(AdverseRows(t, id))
    ensures forall i | 0 <= i < |raised| :: RaisesFor(t, id, RefsIn(raised)[i], raised[i])
  {
    FindingsAreDerived(d, t, id);
    forall i | 0 <= i < |raised| ensures RaisesFor(t, id, RowRefs(AdverseRows(t, id))[i], raised[i]) {
      assert FindingOf(t, id, findings[i], AdverseRows(t, id)[i]);
      RaisesLatest(d, t, id, i, findings[i], raised[i]);
    }
    assert RefsIn(raised) == RowRefs(AdverseRows(t, id));
  }

  lemma {:induction false} SignOffAdds(d: Device, t: Tables, id: Text, s: SignOff, draws: Draws)
    requires Consistent(d, t) && ReadyToSign(t, id)
    requires AuthorAll(d, t.outbox, DraftsOf(t, id, s, draws)).1.None?
    requires AllDated(ProvisionalFindings(t, id).value, s)
    ensures var after := AuthorAll(d, t.outbox, DraftsOf(t, id, s, draws)).0;
            t.outbox <= after && SignOffRecord(t, id, RatingOf(t, id).value, after[|t.outbox|..])
  {
    var inspection, rating := FindInspection(t.inspections, id).value, RatingOf(t, id).value;
    var findings := ProvisionalFindings(t, id).value;
    var raised, last := AuthoredRows(d, t.outbox, inspection, rating, findings, s, draws);
    RecordFrom(d, t, id, rating, findings, raised, last);
  }

  lemma {:induction false} AuthoredRows(
      d: Device, rows: seq<OutboxRow>, inspection: InspectionRow, rating: RatingResult,
      findings: seq<ProvisionalFinding>, s: SignOff, draws: Draws)
    returns (raised: seq<OutboxRow>, last: OutboxRow)
    requires AuthorAll(d, rows, SubmitDrafts(inspection, rating, findings, s, draws)).1.None?
    requires AllDated(findings, s)
    ensures var after := AuthorAll(d, rows, SubmitDrafts(inspection, rating, findings, s, draws)).0;
            rows <= after && after[|rows|..] == raised + [last]
    ensures |raised| == |findings| && forall i | 0 <= i < |raised| :: Raises(raised[i], inspection.id, findings[i])
    ensures SubmitsWith(last, inspection.id, |raised|, rating)
  {
    var after := AuthorAll(d, rows, SubmitDrafts(inspection, rating, findings, s, draws)).0;
    AuthorAllMade(d, rows, SubmitDrafts(inspection, rating, findings, s, draws));
    raised, last := WrittenRows(rows, after, inspection, rating, findings, s, draws);
  }

  // ------------------------------------------------------- canonical refs

  lemma {:induction false} NoRefsDistinct(entries: seq<Entry>)
    requires DistinctRefs(entries)
    ensures NoRepeats(NoRefs(entries))
    ensures forall x | x in NoRefs(entries) :: exists i | 0 <= i < |entries| :: entries[i].ref == x
  {
    if entries != [] {
      var rest := entries[1..];
      assert forall j | 0 <= j < |rest| :: rest[j] == entries[j + 1];
      NoRefsDistinct(rest);
      var refs := NoRefs(entries);
      if entries[0].answer.response.No? {
        assert refs == [entries[0].ref] + NoRefs(rest);
        assert refs[0] == entries[0].ref && refs[1..] == NoRefs(rest);
        assert refs[0] !in refs[1..];
      } else {
        assert refs == NoRefs(rest);
      }
    }
  }

  /** Every ref stands before the ones after it. */
  ghost predicate Increasing(refs: seq<Text>) {
    forall i, j | 0 <= i < j < |refs| :: RefBefore(refs[i], refs[j])
  }

  /** No checkpoint is named twice, under two spellings. */
  ghost predicate OneSpellingEach(refs: seq<Text>) {
    forall a, b | a in refs && b in refs && a != b :: !SamePlace(a, b)
  }

  lemma {:induction false} IncreasesExactlyWhen(refs: seq<Text>)
    requires InRefOrder(refs) && NoRepeats(refs)
    ensures Increasing(refs) <==> OneSpellingEach(refs)
  {
    if OneSpellingEach(refs) {
      forall i, j | 0 <= i < j < |refs| ensures RefBefore(refs[i], refs[j]) {
        NoRepeatsAt(refs, i, j);
        OneComesFirst(refs[i], refs[j]);
      }
    }
    if Increasing(refs) {
      forall a, b | a in refs && b in refs && a != b ensures !SamePlace(a, b) {
        var i :| 0 <= i < |refs| && refs[i] == a;
        var j :| 0 <= j < |refs| && refs[j] == b;
        assert if i < j then RefBefore(refs[i], refs[j]) else RefBefore(refs[j], refs[i]);
        OneComesFirst(a, b);
      }
    }
  }

  lemma {:induction false} SameMembers(a: seq<Text>, b: seq<Text>)
    requires multiset(a) == multiset(b)
    ensures forall x | x in a :: x in b
    ensures NoRepeats(a) <==> NoRepeats(b)
  {
    forall x | x in a ensures x in b {
      assert x in multiset(a);
    }
    NoRepeatsByCount(a);
    NoRepeatsByCount(b);
  }

  /** The findings of a sign-off stand in strictly increasing numeric order exactly when
      no checkpoint was answered No under two spellings of its ref. */
  lemma {:induction false} FindingsIncreaseExactlyWhen(t: Tables, id: Text, rating: RatingResult, added: seq<OutboxRow>)
    requires SignOffRecord(t, id, rating, added)
    ensures Increasing(RefsIn(added[..|added| - 1])) <==> OneSpellingEach(NoRefs(LogAnswers(t.outbox, id)))
  {
    var refs, answered := RefsIn(added[..|added| - 1]), NoRefs(LogAnswers(t.outbox, id));
    LogRefsDistinct(t.outbox, id);
    NoRefsDistinct(LogAnswers(t.outbox, id));
    SameMembers(refs, answered);
    SameMembers(answered, refs);
    IncreasesExactlyWhen(refs);
  }

  /** So they do where refs are written as the instrument writes them. */
  lemma {:induction false} CanonicalFindingsIncrease(t: Tables, id: Text, rating: RatingResult, added: seq<OutboxRow>)
    requires SignOffRecord(t, id, rating, added)
    requires forall ref | ref in NoRefs(LogAnswers(t.outbox, id)) :: Canonical(ref)
    ensures Increasing(RefsIn(added[..|added| - 1]))
  {
    var answered := NoRefs(LogAnswers(t.outbox, id));
    forall a, b | a in answered && b in answered && a != b ensures !SamePlace(a, b) {
      CanonicalRefsDiffer(a, b);
    }
    FindingsIncreaseExactlyWhen(t, id, rating, added);
  }

  // --------------------------------------------------- when a sign-off succeeds

  predicate UnusedId(rows: seq<OutboxRow>, drafts: seq<Draft>, i: nat)
    requires i < |drafts|
  {
    && (forall k | 0 <= k < |rows| :: rows[k].eventId != drafts[i].eventId)
    && (forall j | 0 <= j < i :: drafts[j].eventId != drafts[i].eventId)
  }

  /** The ids drawn for a call's events are new, and differ from each other. */
  predicate UnusedIds(rows: seq<OutboxRow>, drafts: seq<Draft>) {
    forall i | 0 <= i < |drafts| :: UnusedId(rows, drafts, i)
  }

  predicate AllPlainPayloads(drafts: seq<Draft>) {
    forall i | 0 <= i < |drafts| :: Plain(drafts[i].payload)
  }

  lemma {:induction false} IdsAfter(rows: seq<OutboxRow>, after: seq<OutboxRow>, drafts: seq<Draft>)
    requires drafts != [] && Continues(rows, after, drafts[..|drafts| - 1]) && |after| == |rows| + |drafts| - 1
    ensures UnusedId(rows, drafts, |drafts| - 1)
       <==> forall k | 0 <= k < |after| :: after[k].eventId != drafts[|drafts| - 1].eventId
  {
    var n := |drafts| - 1;
    forall k | |rows| <= k < |after| ensures after[k].eventId == drafts[k - |rows|].eventId {
      assert MadeFrom(after[|rows| + (k - |rows|)], drafts[..n][k - |rows|]);
    }
    forall j | 0 <= j < n ensures after[|rows| + j].eventId == drafts[j].eventId {
    }
  }

  /** Several events are all authored exactly when every payload is plain and every id new. */
  lemma {:induction false} AuthorAllSucceedsExactlyWhen(d: Device, rows: seq<OutboxRow>, drafts: seq<Draft>)
    requires GoodLog(d, rows)
    ensures AuthorAll(d, rows, drafts).1.None? <==> UnusedIds(rows, drafts) && AllPlainPayloads(drafts)
  {
    if drafts != [] {
      var n := |drafts| - 1;
      var before := AuthorAll(d, rows, drafts[..n]);
      AuthorAllSucceedsExactlyWhen(d, rows, drafts[..n]);
      OneMoreDraft(rows, drafts);
      if before.1.None? {
        AuthorAllKeepsGoodLog(d, rows, drafts[..n]);
        AuthorAllMade(d, rows, drafts[..n]);
        AuthorSucceedsExactlyWhen(d, before.0, drafts[n]);
        IdsAfter(rows, before.0, drafts);
      }
    }
  }

  lemma {:induction false} OneMoreDraft(rows: seq<OutboxRow>, drafts: seq<Draft>)
    requires drafts != []
    ensures var n := |drafts| - 1;
            (UnusedIds(rows, drafts) && AllPlainPayloads(drafts))
            == (&& UnusedIds(rows, drafts[..n]) && AllPlainPayloads(drafts[..n])
                && UnusedId(rows, drafts, n) && Plain(drafts[n].payload))
  {
    var n := |drafts| - 1;
    forall i | 0 <= i < n ensures UnusedId(rows, drafts[..n], i) <==> UnusedId(rows, drafts, i) {
    }
    forall i | 0 <= i < n ensures drafts[..n][i] == drafts[i] {
    }
  }

  lemma {:induction false} SubmitDraftsArePlain(
      inspection: InspectionRow, rating: RatingResult, findings: seq<ProvisionalFinding>, s: SignOff, draws: Draws)
    ensures AllPlainPayloads(SubmitDrafts(inspection, rating, findings, s, draws))
  {
    var drafts := SubmitDrafts(inspection, rating, findings, s, draws);
    forall i | 0 <= i < |drafts| ensures Plain(drafts[i].payload) {
      if i < DatedCount(findings, s) {
        FindingIsPlain(inspection, findings[i], i, s, draws);
      } else {
        SubmissionIsPlain(inspection, rating, |findings|, s, draws);
      }
    }
  }

  lemma {:induction false} FindingIsPlain(
      inspection: InspectionRow, f: ProvisionalFinding, i: nat, s: SignOff, draws: Draws)
    requires Dated(f, s)
    ensures Plain(RaisedDraft(inspection, f, i, s, draws).payload)
  {
    PlainPairs(FindingPairs(FindingReference(inspection.reference, i), inspection.id, f, s.dueDate(f.severity).value));
  }

  lemma {:induction false} SubmissionIsPlain(
      inspection: InspectionRow, rating: RatingResult, n: nat, s: SignOff, draws: Draws)
    ensures Plain(SubmitDraft(inspection, rating, n, s, draws).payload)
  {
    PlainPairs(SubmittedPairs(rating, n, s));
  }

  /** In a reachable state sign-off succeeds exactly when its checks pass, every finding has
      a due date and the ids it draws are new; only a signing time that is not a date, or a
      used id, can stop it with findings raised and no submission. */
  lemma {:induction false} SignOffSucceedsExactlyWhen(
      d: Device, versions: seq<InstrumentVersion>, facilities: map<Text, Text>, ops: seq<Op>,
      id: Text, s: SignOff, draws: Draws)
    ensures var t := RunOps(d, versions, facilities, ops);
            SignedOff(d, t, id, s, draws).1.Success?
            == (&& ReadyToSign(t, id) && AllDated(ProvisionalFindings(t, id).value, s)
                && UnusedIds(t.outbox, DraftsOf(t, id, s, draws)))
  {
    var t := RunOps(d, versions, facilities, ops);
    EveryRunIsConsistent(d, versions, facilities, ops);
    SignedOffParts(d, t, id, s, draws);
    if ReadyToSign(t, id) {
      AuthorAllSucceedsExactlyWhen(d, t.outbox, DraftsOf(t, id, s, draws));
      SubmitDraftsArePlain(FindInspection(t.inspections, id).value, RatingOf(t, id).value,
                           ProvisionalFindings(t, id).value, s, draws);
    }
  }

  /** In a reachable state the checks before writing come down to three. */
  lemma {:induction false} ReadyExactlyWhen(
      d: Device, versions: seq<InstrumentVersion>, facilities: map<Text, Text>, ops: seq<Op>, id: Text)
    ensures var t := RunOps(d, versions, facilities, ops);
            ReadyToSign(t, id)
            == (&& VersionOf(t, id).Success? && !IsSubmitted(t, id)
                && EverythingAnswered(t.outbox, id, VersionOf(t, id).value.sections))
  {
    var t := RunOps(d, versions, facilities, ops);
    EveryRunIsConsistent(d, versions, facilities, ops);
    ConsistentRating(d, t, id);
    FindingsAreDerived(d, t, id);
    if ReadyToSign(t, id) {
      ReadyIsAnswered(d, t, id);
    } else if VersionOf(t, id).Success? && !IsSubmitted(t, id) {
      AnsweredExactlyWhen(t.outbox, id, VersionOf(t, id).value.sections);
      var refs := AllRefs(VersionOf(t, id).value.sections);
      NoneMissing(refs, t.responses, id);
      var i :| 0 <= i < |refs| && !HasAnswer(t.responses, id, refs[i]);
      LookupInTable(t.responses, id, refs[i]);
      assert Agrees(t, id);
      FoldFindsLatest(t.outbox, id, refs[i]);
    }
  }

  lemma {:induction false} MissingMembers(refs: seq<Text>, rows: seq<ResponseRow>, id: Text, ref: Text)
    ensures ref in MissingFrom(refs, rows, id) <==> ref in refs && !HasAnswer(rows, id, ref)
  {
    if refs != [] {
      MissingMembers(refs[..|refs| - 1], rows, id, ref);
      assert refs == refs[..|refs| - 1] + [refs[|refs| - 1]];
    }
  }

  lemma {:induction false} MissingIsUnanswered(d: Device, t: Tables, id: Text, ref: Text)
    requires Consistent(d, t) && VersionOf(t, id).Success?
    ensures ref in MissingFrom(AllRefs(VersionOf(t, id).value.sections), t.responses, id)
       <==> ref in AllRefs(VersionOf(t, id).value.sections) && LatestAnswer(t.outbox, id, ref).None?
  {
    MissingMembers(AllRefs(VersionOf(t, id).value.sections), t.responses, id, ref);
    assert Agrees(t, id);
    FoldFindsLatest(t.outbox, id, ref);
    LookupInTable(t.responses, id, ref);
  }

  /** In a reachable state a sign-off is refused, with nothing written, for one of four
      reasons, and the refs it names as unanswered are those of the instrument that have no
      answer in the log. */
  lemma {:induction false} SignOffRefusals(
      d: Device, versions: seq<InstrumentVersion>, facilities: map<Text, Text>, ops: seq<Op>,
      id: Text, s: SignOff, draws: Draws, ref: Text)
    ensures var t := RunOps(d, versions, facilities, ops);
            var (after, r) := SignedOff(d, t, id, s, draws);
            && (r == Failure(UnknownInspection) <==> FindInspection(t.inspections, id).None?)
            && (r == Failure(AlreadySubmitted) <==> IsSubmitted(t, id))
            && (r == Failure(VersionMissing) <==> !IsSubmitted(t, id) && VersionOf(t, id) == Failure(VersionMissing))
            && (r.Failure? && r.error.Unanswered? <==>
                  && !IsSubmitted(t, id) && VersionOf(t, id).Success?
                  && !EverythingAnswered(t.outbox, id, VersionOf(t, id).value.sections))
            && (r.Failure? && r.error.Unanswered? ==>
                  (ref in r.error.refs <==>
                     ref in AllRefs(VersionOf(t, id).value.sections) && LatestAnswer(t.outbox, id, ref).None?))
            && (r.Failure? && !r.error.AuthorFailed? && !r.error.NotADate? ==> after == t)
  {
    var t := RunOps(d, versions, facilities, ops);
    EveryRunIsConsistent(d, versions, facilities, ops);
    ReadyExactlyWhen(d, versions, facilities, ops, id);
    SignedOffParts(d, t, id, s, draws);
    if VersionOf(t, id).Success? {
      FindingsAreDerived(d, t, id);
      ConsistentRating(d, t, id);
      MissingIsUnanswered(d, t, id, ref);
    }
  }

  // ------------------------------------------------- when an answer is taken

  lemma {:induction false} AnswerIsPlain(id: Text, input: RecordInput, draws: Draws)
    ensures Plain(RecordDraft(id, input, draws).payload)
  {
    PlainPairs(RecordedPairs(input.checkpointRef, input.response, KeptRemark(input.remark), input.evidenceIds));
  }

  /** There is more to it than white space. */
  predicate HasWords(remark: Option<Text>) {
    remark.Some? && exists i | 0 <= i < |remark.value| :: !IsSpace(remark.value[i])
  }

  lemma {:induction false} KeptExactlyWhen(remark: Option<Text>)
    ensures KeptRemark(remark) == if HasWords(remark) then Some(Trim(remark.value)) else None
  {
    if remark.Some? {
      TrimIsEmpty(remark.value);
    }
  }

  /** In a reachable state an answer is taken exactly when its checkpoint is on the
      instrument, it is N/A only where that is allowed, it has a remark if it is No, and
      its event id is new, whether or not the inspection has been submitted; it is then
      the latest answer in the log. */
  lemma {:induction false} RecordSucceedsExactlyWhen(
      d: Device, versions: seq<InstrumentVersion>, facilities: map<Text, Text>, ops: seq<Op>,
      id: Text, input: RecordInput, draws: Draws)
    ensures var t := RunOps(d, versions, facilities, ops);
            var (after, r) := Recorded(d, t, id, input, draws);
            && r.Success? == (&& CheckpointOf(t, id, input.checkpointRef).Success?
                              && (input.response.NA? ==> CheckpointOf(t, id, input.checkpointRef).value.allowsNa)
                              && (input.response.No? ==> HasWords(input.remark))
                              && forall i | 0 <= i < |t.outbox| :: t.outbox[i].eventId != draws.uuid(0))
            && (r.Success? ==> LatestAnswer(after.outbox, id, input.checkpointRef)
                               == Some(Answer(input.response, if HasWords(input.remark) then Some(Trim(input.remark.value))
                                                              else None)))
  {
    var t, draft := RunOps(d, versions, facilities, ops), RecordDraft(id, input, draws);
    EveryRunIsConsistent(d, versions, facilities, ops);
    KeptExactlyWhen(input.remark);
    AnswerIsPlain(id, input, draws);
    AuthorSucceedsExactlyWhen(d, t.outbox, draft);
    if Authored(d, t.outbox, draft).Success? {
      AuthoredIsMadeFrom(d, t.outbox, draft);
      var row := Authored(d, t.outbox, draft).value.1;
      LatestIsRecorded(t.outbox, row, id, input, draws);
    }
  }

  /** An answer is refused, with nothing written, because its checkpoint is not on the
      instrument, it is N/A where that is not allowed, or it is No with no remark. */
  lemma {:induction false} RecordRefusals(d: Device, t: Tables, id: Text, input: RecordInput, draws: Draws)
    ensures var (after, r) := Recorded(d, t, id, input, draws);
            var spec := CheckpointOf(t, id, input.checkpointRef);
            && (spec.Failure? ==> r == Failure(spec.error))
            && (r == Failure(NaNotAllowed(input.checkpointRef)) <==>
                  spec.Success? && input.response.NA? && !spec.value.allowsNa)
            && (r == Failure(RemarkNeeded(input.checkpointRef)) <==>
                  spec.Success? && input.response.No? && !HasWords(input.remark))
            && (r.Failure? ==> after == t)
  {
    KeptExactlyWhen(input.remark);
  }

  lemma {:induction false} LatestIsRecorded(
      rows: seq<OutboxRow>, row: OutboxRow, id: Text, input: RecordInput, draws: Draws)
    requires MadeFrom(row, RecordDraft(id, input, draws))
    ensures LatestAnswer(rows + [row], id, input.checkpointRef) == Some(Answer(input.response, KeptRemark(input.remark)))
  {
    RecordedRowAnswers(row, id, input, draws, id);
    assert (rows + [row])[..|rows|] == rows;
  }
}
