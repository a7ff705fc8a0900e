/** Tables and log over every run of calls. */
module InspectionRuns {
  import opened Wrappers
  import opened Texts
  import opened Store
  import opened Outbox
  import opened Inspection
  import opened InspectionLog
  import opened InspectionSteps

  // ------------------------------------------------------------- every run

  /** In every state a run of completed calls reaches, the tables agree with the log. */
  lemma {:induction false} EveryRunIsConsistent(
      d: Device, versions: seq<InstrumentVersion>, facilities: map<Text, Text>, ops: seq<Op>)
    ensures Consistent(d, RunOps(d, versions, facilities, ops))
  {
    if ops != [] {
      EveryRunIsConsistent(d, versions, facilities, ops[..|ops| - 1]);
      ApplyKeepsConsistent(d, RunOps(d, versions, facilities, ops[..|ops| - 1]), ops[|ops| - 1]);
    }
  }

  /** No run submits one inspection twice: its log holds one `InspectionSubmitted`
      when it is marked submitted, and none otherwise. */
  lemma {:induction false} SubmittedAtMostOnce(
      d: Device, versions: seq<InstrumentVersion>, facilities: map<Text, Text>, ops: seq<Op>, id: Text)
    ensures var t := RunOps(d, versions, facilities, ops);
            Submissions(t.outbox, id) == if IsSubmitted(t, id) then 1 else 0
  {
    EveryRunIsConsistent(d, versions, facilities, ops);
    assert Agrees(RunOps(d, versions, facilities, ops), id);
  }

  // ------------------------------------------------ the table refines the log

  function FindResponse(rows: seq<ResponseRow>, id: Text, ref: Text): Option<ResponseRow> {
    if rows == [] then None
    else if rows[0].inspectionId == id && rows[0].checkpointRef == ref then Some(rows[0])
    else FindResponse(rows[1..], id, ref)
  }

  lemma {:induction false} LookupInTable(rows: seq<ResponseRow>, id: Text, ref: Text)
    ensures Lookup(TableAnswers(rows, id), ref)
         == match FindResponse(rows, id, ref) case None => None case Some(r) => Some(Answer(r.response, r.remark))
    ensures HasAnswer(rows, id, ref) <==> FindResponse(rows, id, ref).Some?
  {
    if rows != [] {
      TableAnswersFirst(rows, id);
      LookupInTable(rows[1..], id, ref);
      if rows[0].inspectionId == id {
        assert TableAnswers(rows, id)[1..] == TableAnswers(rows[1..], id);
      } else {
        assert TableAnswers(rows, id) == TableAnswers(rows[1..], id);
      }
      assert rows == [rows[0]] + rows[1..];
    }
  }

  /** After any run, a checkpoint has a row exactly when the log records an answer to
      it, and the row holds the latest answer and remark in the log. */
  lemma {:induction false} ResponseTableRefinesLog(
      d: Device, versions: seq<InstrumentVersion>, facilities: map<Text, Text>, ops: seq<Op>, id: Text, ref: Text)
    ensures var t := RunOps(d, versions, facilities, ops);
            && (HasAnswer(t.responses, id, ref) <==> LatestAnswer(t.outbox, id, ref).Some?)
            && LatestAnswer(t.outbox, id, ref)
               == match FindResponse(t.responses, id, ref)
                  case None => None
                  case Some(r) => Some(Answer(r.response, r.remark))
  {
    var t := RunOps(d, versions, facilities, ops);
    EveryRunIsConsistent(d, versions, facilities, ops);
    assert Agrees(t, id);
    FoldFindsLatest(t.outbox, id, ref);
    LookupInTable(t.responses, id, ref);
  }
}
