/** The on-device store: its tables as sequences in insertion (rowid) order, the
    queries as functions of a table, and the statements that update them. */
module Store {
  import opened Wrappers
  import opened Texts
  import opened Json
  import opened Scoring

  // -------------------------------------------------------------- records

  datatype OutboxRow = OutboxRow(
    eventId: Text,
    aggregateType: Text,
    aggregateId: Text,
    seqNo: nat,
    eventType: Text,
    payloadJson: Text,
    hlc: Text,
    prevHash: Option<Text>,
    eventHash: Text,
    deviceSig: Text,
    actorUserId: Option<Text>,
    deviceId: Text,
    acked: bool)

  datatype Checkpoint = Checkpoint(
    ordinal: nat, promptEn: Text, weight: nat, severityOnFail: Severity, allowsNa: bool)

  datatype Section = Section(ordinal: nat, checkpoints: seq<Checkpoint>)

  datatype InstrumentVersion = InstrumentVersion(
    id: Text, facilityType: Text, bands: RatingBands, structureHash: Text, sections: seq<Section>)

  /** A JavaScript number: one that prints, or NaN or an infinity. */
  type Reading = v: Value | v.Num? || v.NonFinite? witness NonFinite

  datatype GeoPoint = GeoPoint(lat: Reading, lng: Reading, accuracyM: Option<Reading>)

  /** Where the inspector stood, how far that is from the register, and whether it is flagged. */
  datatype Checkin = Checkin(point: GeoPoint, distanceM: Reading, flagged: bool)

  datatype Signatures = Signatures(inspectorSignedAt: Text, repName: Text, repSignedAt: Text, submittedAt: Text)

  datatype InspectionRow = InspectionRow(
    id: Text,
    reference: Text,
    facilityId: Text,
    versionId: Text,
    structureHash: Text,
    checkin: Checkin,
    submitted: bool,
    rating: Option<RatingResult>,
    signatures: Option<Signatures>)

  datatype ResponseRow = ResponseRow(
    id: Text,
    inspectionId: Text,
    checkpointRef: Text,
    response: Response,
    remark: Option<Text>,
    weight: nat,
    recordedHlc: Text)

  datatype EvidenceRow = EvidenceRow(
    evidenceId: Text,
    inspectionId: Text,
    checkpointRef: Text,
    sha256: Text,
    localUri: Text,
    mime: Text,
    capturedAt: Text,
    point: GeoPoint,
    uploaded: bool)

  /** All the tables at one moment. */
  datatype Tables = Tables(
    outbox: seq<OutboxRow>,
    inspections: seq<InspectionRow>,
    responses: seq<ResponseRow>,
    evidence: seq<EvidenceRow>,
    versions: seq<InstrumentVersion>,
    facilities: map<Text, Text>)

  // --------------------------------------------------------------- outbox

  predicate SameAggregate(row: OutboxRow, aggregateType: Text, aggregateId: Text) {
    row.aggregateType == aggregateType && row.aggregateId == aggregateId
  }

  /** `coalesce(max(seq), 0)` over one aggregate. */
  function MaxSeq(rows: seq<OutboxRow>, aggregateType: Text, aggregateId: Text): nat {
    if rows == [] then 0
    else
      var last, before := rows[|rows| - 1], MaxSeq(rows[..|rows| - 1], aggregateType, aggregateId);
      if SameAggregate(last, aggregateType, aggregateId) then Max(before, last.seqNo) else before
  }

  /** `INSERT` breaks the primary key or the unique (type, id, seq). */
  predicate Conflicts(rows: seq<OutboxRow>, row: OutboxRow) {
    exists i | 0 <= i < |rows| ::
      || rows[i].eventId == row.eventId
      || (SameAggregate(rows[i], row.aggregateType, row.aggregateId) && rows[i].seqNo == row.seqNo)
  }

  /** The rows still waiting, in rowid order. */
  function Pending(rows: seq<OutboxRow>): (p: seq<OutboxRow>)
    ensures |p| <= |rows|
  {
    if rows == [] then []
    else if rows[0].acked then Pending(rows[1..])
    else [rows[0]] + Pending(rows[1..])
  }

  lemma {:induction false} PendingRow(rows: seq<OutboxRow>, i: nat) returns (k: nat)
    requires i < |Pending(rows)|
    ensures k < |rows| && rows[k] == Pending(rows)[i] && !rows[k].acked
  {
    if rows[0].acked {
      k := PendingRow(rows[1..], i);
      k := k + 1;
    } else if i > 0 {
      k := PendingRow(rows[1..], i - 1);
      k := k + 1;
    } else {
      k := 0;
    }
  }

  function FirstPending(rows: seq<OutboxRow>, limit: nat): (p: seq<OutboxRow>)
    ensures |p| <= limit && p <= Pending(rows)
  {
    var all := Pending(rows);
    if |all| <= limit then all else all[..limit]
  }

  /** `UPDATE ... SET sync_state = 'acked' WHERE event_id = ?`. */
  function AckOne(rows: seq<OutboxRow>, id: Text): (r: seq<OutboxRow>)
    ensures |r| == |rows|
  {
    seq(|rows|, i requires 0 <= i < |rows| => if rows[i].eventId == id then rows[i].(acked := true) else rows[i])
  }

  /** Every row whose id is listed is acknowledged, and nothing else changes. */
  function AckAll(rows: seq<OutboxRow>, ids: seq<Text>): (r: seq<OutboxRow>)
    ensures |r| == |rows|
  {
    seq(|rows|, i requires 0 <= i < |rows| => if rows[i].eventId in ids then rows[i].(acked := true) else rows[i])
  }

  // ------------------------------------------------------------- lookups

  function FindInspection(rows: seq<InspectionRow>, id: Text): (r: Option<InspectionRow>)
    ensures r.Some? ==> r.value in rows && r.value.id == id
    ensures r.None? ==> forall i | 0 <= i < |rows| :: rows[i].id != id
  {
    if rows == [] then None else if rows[0].id == id then Some(rows[0]) else FindInspection(rows[1..], id)
  }

  function FindVersion(rows: seq<InstrumentVersion>, id: Text): Option<InstrumentVersion> {
    if rows == [] then None else if rows[0].id == id then Some(rows[0]) else FindVersion(rows[1..], id)
  }

  function FindVersionForType(rows: seq<InstrumentVersion>, facilityType: Text): (r: Option<InstrumentVersion>)
    ensures r.Some? ==> r.value in rows && r.value.facilityType == facilityType
    ensures r.None? ==> forall i | 0 <= i < |rows| :: rows[i].facilityType != facilityType
  {
    if rows == [] then None
    else if rows[0].facilityType == facilityType then Some(rows[0])
    else FindVersionForType(rows[1..], facilityType)
  }

  /** `SELECT * FROM local_response WHERE inspection_id = ?`. */
  function ResponsesOf(rows: seq<ResponseRow>, inspectionId: Text): seq<ResponseRow> {
    if rows == [] then []
    else if rows[0].inspectionId == inspectionId then [rows[0]] + ResponsesOf(rows[1..], inspectionId)
    else ResponsesOf(rows[1..], inspectionId)
  }

  /** A row with a later answer, remark and stamp; id and weight stay. */
  function Reanswered(row: ResponseRow, r: ResponseRow): ResponseRow {
    row.(response := r.response, remark := r.remark, recordedHlc := r.recordedHlc)
  }

  /** `INSERT ... ON CONFLICT (inspection_id, checkpoint_ref) DO UPDATE`. */
  function Upsert(rows: seq<ResponseRow>, r: ResponseRow): seq<ResponseRow> {
    if rows == [] then [r]
    else if SameKey(rows[0], r) then [Reanswered(rows[0], r)] + rows[1..]
    else [rows[0]] + Upsert(rows[1..], r)
  }

  predicate SameKey(a: ResponseRow, b: ResponseRow) {
    a.inspectionId == b.inspectionId && a.checkpointRef == b.checkpointRef
  }

  /** Where the table holds an answer under the same inspection and checkpoint. */
  function KeyIndex(rows: seq<ResponseRow>, r: ResponseRow): (k: Option<nat>)
    ensures k.Some? ==> k.value < |rows| && SameKey(rows[k.value], r)
    ensures k.Some? ==> forall i | 0 <= i < k.value :: !SameKey(rows[i], r)
    ensures k.None? ==> forall i | 0 <= i < |rows| :: !SameKey(rows[i], r)
  {
    if rows == [] then None
    else if SameKey(rows[0], r) then Some(0)
    else match KeyIndex(rows[1..], r) case Some(k) => Some(k + 1) case None => None
  }

  /** UNIQUE (inspection_id, checkpoint_ref). */
  ghost predicate KeysUnique(rows: seq<ResponseRow>) {
    forall i, j | 0 <= i < j < |rows| :: !SameKey(rows[i], rows[j])
  }

  lemma {:induction false} UpsertAtKey(rows: seq<ResponseRow>, r: ResponseRow)
    ensures Upsert(rows, r) == match KeyIndex(rows, r)
                               case None => rows + [r]
                               case Some(k) => rows[k := Reanswered(rows[k], r)]
  {
    if rows != [] && !SameKey(rows[0], r) {
      UpsertAtKey(rows[1..], r);
      match KeyIndex(rows[1..], r)
      case None => assert [rows[0]] + (rows[1..] + [r]) == rows + [r];
      case Some(k) =>
        var x := Reanswered(rows[k + 1], r);
        assert [rows[0]] + rows[1..][k := x] == rows[k + 1 := x];
    }
  }

  predicate HasExhibit(rows: seq<EvidenceRow>, evidenceId: Text) {
    exists i | 0 <= i < |rows| :: rows[i].evidenceId == evidenceId
  }

  function Submitted(
      rows: seq<InspectionRow>, id: Text, rating: RatingResult, signatures: Signatures): (r: seq<InspectionRow>)
    ensures |r| == |rows|
  {
    seq(|rows|, i requires 0 <= i < |rows| =>
      if rows[i].id == id then rows[i].(submitted := true, rating := Some(rating), signatures := Some(signatures))
      else rows[i])
  }

  // ---------------------------------------------------------- the database

  class FieldStore {
    var outbox: seq<OutboxRow>
    var inspections: seq<InspectionRow>
    var responses: seq<ResponseRow>
    var evidence: seq<EvidenceRow>
    var versions: seq<InstrumentVersion>
    var facilities: map<Text, Text> // facility id to facility type

    constructor (versions: seq<InstrumentVersion>, facilities: map<Text, Text>)
      ensures outbox == [] && inspections == [] && responses == [] && evidence == []
      ensures this.versions == versions && this.facilities == facilities
    {
      this.outbox, this.inspections, this.responses, this.evidence := [], [], [], [];
      this.versions, this.facilities := versions, facilities;
    }

    function State(): Tables
      reads this
    {
      Tables(outbox, inspections, responses, evidence, versions, facilities)
    }

    function NextSeq(aggregateType: Text, aggregateId: Text): nat
      reads this
    {
      MaxSeq(outbox, aggregateType, aggregateId) + 1
    }

    function ChainHead(): Option<Text>
      reads this
    {
      if outbox == [] then None else Some(outbox[|outbox| - 1].eventHash)
    }

    function LastHlc(): Option<Text>
      reads this
    {
      if outbox == [] then None else Some(outbox[|outbox| - 1].hlc)
    }

    function PendingEvents(limit: nat): seq<OutboxRow>
      reads this
    {
      FirstPending(outbox, limit)
    }

    /** A constraint violation throws and inserts nothing. */
    method AppendOutbox(row: OutboxRow) returns (ok: bool)
      modifies this`outbox
      ensures ok <==> !Conflicts(old(outbox), row.(acked := false))
      ensures outbox == if ok then old(outbox) + [row.(acked := false)] else old(outbox)
    {
      ok := !Conflicts(outbox, row.(acked := false));
      if ok {
        outbox := outbox + [row.(acked := false)];
      }
    }

    method MarkAcked(eventIds: seq<Text>)
      modifies this`outbox
      ensures outbox == AckAll(old(outbox), eventIds)
    {
      for n := 0 to |eventIds|
        invariant outbox == AckAll(old(outbox), eventIds[..n])
      {
        outbox := AckOne(outbox, eventIds[n]);
        AckStep(old(outbox), eventIds, n);
      }
      assert eventIds[..|eventIds|] == eventIds;
    }

    method InsertInspection(row: InspectionRow) returns (ok: bool)
      modifies this`inspections
      ensures ok <==> FindInspection(old(inspections), row.id).None?
      ensures inspections == if ok then old(inspections) + [row] else old(inspections)
    {
      ok := FindInspection(inspections, row.id).None?;
      if ok {
        inspections := inspections + [row];
      }
    }

    /** Where the key is new the row is added at the end; where it is not, one row
        changes, in answer, remark and stamp only. */
    method UpsertResponse(row: ResponseRow)
      modifies this`responses
      ensures (forall i | 0 <= i < |old(responses)| :: !SameKey(old(responses)[i], row)) ==>
                responses == old(responses) + [row]
      ensures forall k | 0 <= k < |old(responses)| && SameKey(old(responses)[k], row)
                         && (forall i | 0 <= i < k :: !SameKey(old(responses)[i], row)) ::
                && |responses| == |old(responses)|
                && responses[k].id == old(responses)[k].id && responses[k].weight == old(responses)[k].weight
                && SameKey(responses[k], row) && responses[k].response == row.response
                && responses[k].remark == row.remark && responses[k].recordedHlc == row.recordedHlc
                && forall i | 0 <= i < |responses| && i != k :: responses[i] == old(responses)[i]
      ensures KeysUnique(old(responses)) ==> KeysUnique(responses)
      ensures responses == Upsert(old(responses), row)
    {
      UpsertAtKey(responses, row);
      var k := 0;
      while k < |responses| && !SameKey(responses[k], row)
        invariant k <= |responses| && forall i | 0 <= i < k :: !SameKey(responses[i], row)
      {
        k := k + 1;
      }
      responses := if k < |responses| then responses[k := Reanswered(responses[k], row)] else responses + [row];
    }

    /** An evidence id used before throws and inserts nothing. */
    method InsertEvidence(row: EvidenceRow) returns (ok: bool)
      modifies this`evidence
      ensures ok <==> forall i | 0 <= i < |old(evidence)| :: old(evidence)[i].evidenceId != row.evidenceId
      ensures evidence == if ok then old(evidence) + [row] else old(evidence)
    {
      ok := !HasExhibit(evidence, row.evidenceId);
      if ok {
        evidence := evidence + [row];
      }
    }

    method MarkSubmitted(id: Text, rating: RatingResult, signatures: Signatures)
      modifies this`inspections
      ensures inspections == Submitted(old(inspections), id, rating, signatures)
    {
      inspections := Submitted(inspections, id, rating, signatures);
    }
  }

  lemma {:induction false} AckStep(rows: seq<OutboxRow>, ids: seq<Text>, n: nat)
    requires n < |ids|
    ensures AckOne(AckAll(rows, ids[..n]), ids[n]) == AckAll(rows, ids[..n + 1])
  {
    assert ids[..n + 1] == ids[..n] + [ids[n]];
  }
}
