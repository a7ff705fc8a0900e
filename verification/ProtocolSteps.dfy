/** What every step of the system keeps, from one state to the next: the rows are a good
    log; what the gateway stores is a prefix of it; the acknowledged rows are a prefix of
    that; and every request and reply in the network, and every job of the gateway, is a
    segment that starts inside it. */
module ProtocolSteps {
  import opened Wrappers
  import opened Texts
  import opened Events
  import opened Hlc
  import opened Store
  import opened Outbox
  import opened Ingest
  import opened Gateway
  import opened Protocol

  // ------------------------------------------------------ rows and the wire

  lemma {:induction false} SameRowSameEvent(x: OutboxRow, y: OutboxRow)
    requires SameRow(x, y)
    ensures ToDeviceEvent(x) == ToDeviceEvent(y)
  {
  }

  lemma {:induction false} WireRow(d: Device, rows: seq<OutboxRow>)
    requires GoodLog(d, rows)
    ensures ToWire(rows).Some? && |Wire(rows)| == |rows|
    ensures forall i | 0 <= i < |rows| :: ToDeviceEvent(rows[i]) == Some(Wire(rows)[i])
  {
    GoodLogRebuilds(d, rows);
    ToWireOfRebuilding(rows);
  }

  /** What a good row's event carries. */
  lemma {:induction false} EventOfRow(d: Device, rows: seq<OutboxRow>, i: nat)
    requires GoodLog(d, rows) && i < |rows| == |Wire(rows)| && ToDeviceEvent(rows[i]) == Some(Wire(rows)[i])
    ensures var e := Wire(rows)[i];
            && e.signable.eventId == rows[i].eventId && e.signable.hlc == rows[i].hlc && e.eventHash == rows[i].eventHash
            && EventHash(d.sha, e.signable) == Some(e.eventHash) && e.deviceSig == d.sign(e.eventHash)
            && e.signable.prevHash == PrevHashAt(rows, i) && IsStamp(e.signable.hlc)
  {
    assert GoodRow(d, rows, i);
  }

  lemma {:induction false} PrevOnWire(d: Device, rows: seq<OutboxRow>, i: nat)
    requires GoodLog(d, rows) && i <= |rows|
    ensures i <= |Wire(rows)| && PrevAt(Wire(rows), i) == PrevHashAt(rows, i)
  {
    WireRow(d, rows);
    if i > 0 {
      EventOfRow(d, rows, i - 1);
    }
  }

  lemma {:induction false} WireIsDistinct(d: Device, rows: seq<OutboxRow>)
    requires GoodLog(d, rows)
    ensures DistinctEvents(Wire(rows))
  {
    WireRow(d, rows);
    forall i, j | 0 <= i < j < |rows|
      ensures Wire(rows)[i].signable.eventId != Wire(rows)[j].signable.eventId
    {
      EventOfRow(d, rows, i);
      EventOfRow(d, rows, j);
    }
  }

  lemma {:induction false} WireIsGenuine(d: Device, c: Checks, rows: seq<OutboxRow>)
    requires GoodLog(d, rows) && Enrolled(d, c)
    ensures Genuine(c, Wire(rows))
  {
    WireRow(d, rows);
    WireIsDistinct(d, rows);
    forall i | 0 <= i < |rows| ensures HonestAt(c, Wire(rows), i) {
      EventOfRow(d, rows, i);
      PrevOnWire(d, rows, i);
    }
  }

  lemma {:induction false} WireInOrder(d: Device, rows: seq<OutboxRow>)
    requires GoodLog(d, rows)
    ensures InOrder(Wire(rows)) && AllStamped(Wire(rows))
  {
    WireRow(d, rows);
    forall i | 0 <= i < |rows| ensures IsStamp(Wire(rows)[i].signable.hlc) {
      EventOfRow(d, rows, i);
    }
    forall i, j | 0 <= i < j < |rows| ensures EventBefore(Wire(rows)[i], Wire(rows)[j]) {
      EventOfRow(d, rows, i);
      EventOfRow(d, rows, j);
      StampsIncrease(d, rows, i, j);
    }
  }

  lemma {:induction false} WireIsHonest(d: Device, c: Checks, rows: seq<OutboxRow>)
    requires GoodLog(d, rows) && Enrolled(d, c)
    ensures Honest(c, Wire(rows))
  {
    WireIsGenuine(d, c, rows);
    WireInOrder(d, rows);
  }

  lemma {:induction false} WireExtends(d: Device, r: seq<OutboxRow>, s: seq<OutboxRow>)
    requires GoodLog(d, r) && GoodLog(d, s) && RowsExtend(r, s)
    ensures Wire(r) <= Wire(s)
    ensures |r| == |s| ==> Wire(r) == Wire(s)
  {
    WireRow(d, r);
    WireRow(d, s);
    forall i | 0 <= i < |r| ensures Wire(r)[i] == Wire(s)[i] {
      SameRowSameEvent(r[i], s[i]);
    }
  }

  lemma {:induction false} WireSegment(d: Device, rows: seq<OutboxRow>, from: nat, upto: nat)
    requires GoodLog(d, rows) && from <= upto <= |rows|
    ensures ToWire(rows[from..upto]).Some? && |ToWire(rows[from..upto]).value| == upto - from
    ensures Segment(Wire(rows), from, ToWire(rows[from..upto]).value)
  {
    WireRow(d, rows);
    ToWireOfRebuilding(rows[from..upto]);
    var events := ToWire(rows[from..upto]).value;
    forall k | 0 <= k < |events| ensures events[k] == Wire(rows)[from + k] {
      assert rows[from..upto][k] == rows[from + k];
    }
  }

  // ------------------------------------------------------------ invariant

  /** The acknowledged rows are the first `a`. */
  predicate AckedPrefix(rows: seq<OutboxRow>, a: nat) {
    a <= |rows| && forall i | 0 <= i < |rows| :: rows[i].acked <==> i < a
  }

  /** A batch that was cut from the outbox at or before row `a`. */
  ghost predicate SentFrom(wire: seq<DeviceEvent>, a: nat, batch: seq<DeviceEvent>) {
    exists from: nat :: from <= a && Segment(wire, from, batch)
  }

  predicate IdsAt(wire: seq<DeviceEvent>, from: nat, ids: seq<Text>) {
    from + |ids| <= |wire| && forall i | 0 <= i < |ids| :: ids[i] == wire[from + i].signable.eventId
  }

  /** A reply that acknowledges stored events only, from at or before row `a`. */
  ghost predicate AnswersFrom(wire: seq<DeviceEvent>, a: nat, stored: nat, ids: seq<Text>) {
    exists from: nat :: from <= a && from + |ids| <= stored && IdsAt(wire, from, ids)
  }

  /** Requests and replies, and the events the gateway's jobs work on. */
  ghost predicate Traffic(wire: seq<DeviceEvent>, s: State, a: nat) {
    && (forall k | 0 <= k < |s.requests| :: SentFrom(wire, a, s.requests[k]))
    && (forall k | 0 <= k < |s.replies| :: AnswersFrom(wire, a, |s.gateway.log|, s.replies[k]))
    && (forall j | 0 <= j < |s.gateway.jobs| :: SentFrom(wire, a, s.gateway.jobs[j].events))
  }

  /** With the first `a` rows acknowledged: acked <= stored <= authored. */
  ghost predicate Inv(d: Device, s: State, a: nat) {
    && GoodLog(d, s.rows) && Sound(Wire(s.rows), s.gateway)
    && a <= |s.gateway.log| && AckedPrefix(s.rows, a)
    && Traffic(Wire(s.rows), s, a)
  }

  lemma {:induction false} TrafficOutlives(
      wire: seq<DeviceEvent>, more: seq<DeviceEvent>, s: State, after: State, a: nat, b: nat)
    requires Traffic(wire, s, a) && wire <= more && a <= b && |s.gateway.log| <= |after.gateway.log|
    requires after.requests == s.requests && after.replies == s.replies
    requires |after.gateway.jobs| == |s.gateway.jobs|
    requires forall j | 0 <= j < |s.gateway.jobs| :: after.gateway.jobs[j].events == s.gateway.jobs[j].events
    ensures Traffic(more, after, b)
  {
    forall batch | SentFrom(wire, a, batch) ensures SentFrom(more, b, batch) {
      SentStill(wire, more, a, b, batch);
    }
    forall k | 0 <= k < |s.replies| ensures AnswersFrom(more, b, |after.gateway.log|, s.replies[k]) {
      AnswersStill(wire, more, a, b, |s.gateway.log|, |after.gateway.log|, s.replies[k]);
    }
  }

  lemma {:induction false} SentStill(
      wire: seq<DeviceEvent>, more: seq<DeviceEvent>, a: nat, b: nat, batch: seq<DeviceEvent>)
    requires SentFrom(wire, a, batch) && wire <= more && a <= b
    ensures SentFrom(more, b, batch)
  {
    var from: nat :| from <= a && Segment(wire, from, batch);
    assert Segment(more, from, batch);
  }

  lemma {:induction false} AnswersStill(
      wire: seq<DeviceEvent>, more: seq<DeviceEvent>, a: nat, b: nat, stored: nat, later: nat, ids: seq<Text>)
    requires AnswersFrom(wire, a, stored, ids) && wire <= more && a <= b && stored <= later
    ensures AnswersFrom(more, b, later, ids)
  {
    var from: nat :| from <= a && from + |ids| <= stored && IdsAt(wire, from, ids);
    assert IdsAt(more, from, ids);
  }

  // ---------------------------------------------------- the device's steps

  lemma {:induction false} AuthorStepKeeps(d: Device, c: Checks, s: State, draft: Draft, a: nat)
    requires Inv(d, s, a)
    ensures Inv(d, Next(d, c, s, Author(draft)), a)
  {
    if Authored(d, s.rows, draft).Success? {
      var row := Authored(d, s.rows, draft).value.1;
      AuthorKeepsGoodLog(d, s.rows, draft);
      RowAdded(d, s, row, a);
    }
  }

  lemma {:induction false} RowAdded(d: Device, s: State, row: OutboxRow, a: nat)
    requires Inv(d, s, a) && GoodLog(d, s.rows + [row]) && !row.acked
    ensures Inv(d, s.(rows := s.rows + [row]), a)
  {
    WireExtends(d, s.rows, s.rows + [row]);
    SoundOutlives(Wire(s.rows), Wire(s.rows + [row]), s.gateway);
    TrafficOutlives(Wire(s.rows), Wire(s.rows + [row]), s, s.(rows := s.rows + [row]), a, a);
  }

  lemma {:induction false} PendingOfPrefix(rows: seq<OutboxRow>, a: nat)
    requires AckedPrefix(rows, a)
    ensures Pending(rows) == rows[a..]
  {
    if rows != [] {
      if a > 0 {
        assert AckedPrefix(rows[1..], a - 1);
        PendingOfPrefix(rows[1..], a - 1);
      } else {
        assert AckedPrefix(rows[1..], 0);
        PendingOfPrefix(rows[1..], 0);
      }
    }
  }

  lemma {:induction false} PendingOnTheWire(d: Device, rows: seq<OutboxRow>, a: nat)
    requires GoodLog(d, rows) && AckedPrefix(rows, a)
    ensures ToWire(FirstPending(rows, PUSH_BATCH)).Some?
    ensures var batch := ToWire(FirstPending(rows, PUSH_BATCH)).value;
            Segment(Wire(rows), a, batch) && |batch| == if |rows| - a <= PUSH_BATCH then |rows| - a else PUSH_BATCH
  {
    PendingOfPrefix(rows, a);
    var upto := a + |FirstPending(rows, PUSH_BATCH)|;
    assert FirstPending(rows, PUSH_BATCH) == rows[a..upto];
    WireSegment(d, rows, a, upto);
  }

  lemma {:induction false} PushedKeeps(d: Device, s: State, batch: seq<DeviceEvent>, a: nat)
    requires Inv(d, s, a) && Segment(Wire(s.rows), a, batch)
    ensures Inv(d, AfterPush(s, batch), a)
  {
    assert SentFrom(Wire(s.rows), a, batch);
  }

  lemma {:induction false} PushStepKeeps(d: Device, c: Checks, s: State, a: nat)
    requires Inv(d, s, a)
    ensures Inv(d, Next(d, c, s, Push), a)
  {
    PendingOnTheWire(d, s.rows, a);
    PushedKeeps(d, s, ToWire(FirstPending(s.rows, PUSH_BATCH)).value, a);
  }

  /** Acknowledging a run of rows that starts inside the acked prefix. */
  lemma {:induction false} AckExtendsPrefix(d: Device, rows: seq<OutboxRow>, a: nat, from: nat, ids: seq<Text>)
    requires GoodLog(d, rows) && AckedPrefix(rows, a) && from <= a && from + |ids| <= |rows|
    requires forall i | 0 <= i < |ids| :: ids[i] == rows[from + i].eventId
    ensures AckedPrefix(AckAll(rows, ids), Max(a, from + |ids|))
    ensures SameRows(rows, AckAll(rows, ids)) && RowsExtend(rows, AckAll(rows, ids))
  {
    forall i | 0 <= i < |rows| ensures rows[i].eventId in ids <==> from <= i < from + |ids| {
      if from <= i < from + |ids| {
        assert ids[i - from] == rows[i].eventId;
      }
      if rows[i].eventId in ids {
        var k :| 0 <= k < |ids| && ids[k] == rows[i].eventId;
        assert rows[from + k].eventId == rows[i].eventId;
      }
    }
  }

  lemma {:induction false} IdsOfRows(d: Device, rows: seq<OutboxRow>, from: nat, ids: seq<Text>)
    requires GoodLog(d, rows) && IdsAt(Wire(rows), from, ids)
    ensures from + |ids| <= |rows| && forall i | 0 <= i < |ids| :: ids[i] == rows[from + i].eventId
  {
    WireRow(d, rows);
    forall i | 0 <= i < |ids| ensures ids[i] == rows[from + i].eventId {
      EventOfRow(d, rows, from + i);
    }
  }

  lemma {:induction false} MarkAckedStepKeeps(d: Device, c: Checks, s: State, reply: nat, a: nat) returns (b: nat)
    requires Inv(d, s, a)
    ensures Inv(d, Next(d, c, s, MarkAcked(reply)), b)
  {
    b := a;
    if s.inFlight && reply < |s.replies| {
      var ids := s.replies[reply];
      assert AnswersFrom(Wire(s.rows), a, |s.gateway.log|, ids);
      var from: nat :| from <= a && from + |ids| <= |s.gateway.log| && IdsAt(Wire(s.rows), from, ids);
      b := Max(a, from + |ids|);
      IdsOfRows(d, s.rows, from, ids);
      AckedKeeps(d, s, from, ids, a, b);
    }
  }

  lemma {:induction false} AckedKeeps(d: Device, s: State, from: nat, ids: seq<Text>, a: nat, b: nat)
    requires Inv(d, s, a) && from <= a && from + |ids| <= |s.gateway.log| && b == Max(a, from + |ids|)
    requires from + |ids| <= |s.rows| && forall i | 0 <= i < |ids| :: ids[i] == s.rows[from + i].eventId
    ensures Inv(d, s.(rows := AckAll(s.rows, ids), inFlight := false), b)
  {
    var acked := AckAll(s.rows, ids);
    AckExtendsPrefix(d, s.rows, a, from, ids);
    GoodLogIgnoresFlags(d, s.rows, acked);
    WireExtends(d, s.rows, acked);
    TrafficOutlives(Wire(s.rows), Wire(acked), s, s.(rows := acked, inFlight := false), a, b);
  }

  // --------------------------------------------------- the gateway's steps

  /** A job moves, on the same events. */
  lemma {:induction false} GatewayMoves(d: Device, s: State, g: Gateway, a: nat)
    requires Inv(d, s, a) && Sound(Wire(s.rows), g) && |s.gateway.log| <= |g.log|
    requires |g.jobs| == |s.gateway.jobs|
    requires forall j | 0 <= j < |g.jobs| :: g.jobs[j].events == s.gateway.jobs[j].events
    ensures Inv(d, WithGateway(s, g), a)
  {
    TrafficOutlives(Wire(s.rows), Wire(s.rows), s, WithGateway(s, g), a, a);
  }

  lemma {:induction false} OpenStepKeeps(
      d: Device, c: Checks, s: State, request: nat, arrived: seq<DeviceEvent>, a: nat)
    requires Inv(d, s, a) && Enrolled(d, c)
    ensures Inv(d, Next(d, c, s, Open(request, arrived)), a)
  {
    if Delivers(s, request, arrived) {
      OpenedJob(d, c, s, request, arrived, a);
      OpenedKeeps(d, s, Opened(s.gateway, arrived), request, a);
    }
  }

  /** A delivered request is ingested in the order it was authored in. */
  lemma {:induction false} OpenedJob(
      d: Device, c: Checks, s: State, request: nat, arrived: seq<DeviceEvent>, a: nat)
    requires Inv(d, s, a) && Enrolled(d, c) && Delivers(s, request, arrived)
    ensures Sound(Wire(s.rows), Opened(s.gateway, arrived))
    ensures Opened(s.gateway, arrived)
         == if s.gateway.active
            then s.gateway.(jobs := s.gateway.jobs + [Job(s.requests[request], 0, None, 0, Opening, None)])
            else s.gateway
  {
    WireIsHonest(d, c, s.rows);
    assert SentFrom(Wire(s.rows), a, s.requests[request]);
    var from: nat :| from <= a && Segment(Wire(s.rows), from, s.requests[request]);
    OpenedSound(c, Wire(s.rows), s.gateway, from, s.requests[request], arrived);
  }

  lemma {:induction false} OpenedKeeps(d: Device, s: State, g: Gateway, request: nat, a: nat)
    requires Inv(d, s, a) && Sound(Wire(s.rows), g) && request < |s.requests|
    requires g == if s.gateway.active
                  then s.gateway.(jobs := s.gateway.jobs + [Job(s.requests[request], 0, None, 0, Opening, None)])
                  else s.gateway
    ensures Inv(d, WithGateway(s, g), a)
  {
    assert SentFrom(Wire(s.rows), a, s.requests[request]);
  }

  lemma {:induction false} FinishStepKeeps(d: Device, c: Checks, s: State, j: nat, a: nat)
    requires Inv(d, s, a)
    ensures Inv(d, AfterFinish(s, j), a)
  {
    FinishedSound(Wire(s.rows), s.gateway, j);
    GatewayMoves(d, s, Finished(s.gateway, j), a);
    if IsDone(s.gateway, j) {
      DoneAnswers(d, s, j, a);
      assert AnswersFrom(Wire(s.rows), a, |s.gateway.log|, EventIds(s.gateway.jobs[j].events));
    }
  }

  lemma {:induction false} OneSegment(wire: seq<DeviceEvent>, x: nat, y: nat, events: seq<DeviceEvent>)
    requires DistinctEvents(wire) && Segment(wire, x, events) && Segment(wire, y, events) && events != []
    ensures x == y
  {
    assert events[0] == wire[x] == wire[y];
  }

  /** A job that is done names stored events, from at or before row `a`. */
  lemma {:induction false} DoneAnswers(d: Device, s: State, j: nat, a: nat)
    requires Inv(d, s, a) && IsDone(s.gateway, j)
    ensures AnswersFrom(Wire(s.rows), a, |s.gateway.log|, EventIds(s.gateway.jobs[j].events))
  {
    var wire, job := Wire(s.rows), s.gateway.jobs[j];
    WireIsDistinct(d, s.rows);
    assert SentFrom(wire, a, job.events) && JobSound(wire, s.gateway.log, job);
    DoneJobAnswers(wire, s.gateway.log, job, a);
  }

  lemma {:induction false} DoneJobAnswers(wire: seq<DeviceEvent>, log: seq<DeviceEvent>, job: Job, a: nat)
    requires DistinctEvents(wire) && log <= wire && a <= |log| && job.at == |job.events|
    requires SentFrom(wire, a, job.events) && JobSound(wire, log, job)
    ensures AnswersFrom(wire, a, |log|, EventIds(job.events))
  {
    var from: nat :| from <= a && Segment(wire, from, job.events);
    var other: nat :| JobFrom(wire, log, job, other);
    if job.events != [] {
      OneSegment(wire, from, other, job.events);
    }
    assert IdsAt(wire, from, EventIds(job.events));
  }

  lemma {:induction false} StepKeeps(d: Device, c: Checks, s: State, step: Step, a: nat) returns (b: nat)
    requires Inv(d, s, a) && Enrolled(d, c)
    ensures Inv(d, Next(d, c, s, step), b)
  {
    b := a;
    match step
    case Author(draft) => AuthorStepKeeps(d, c, s, draft, a);
    case Push => PushStepKeeps(d, c, s, a);
    case Open(request, arrived) => OpenStepKeeps(d, c, s, request, arrived, a);
    case Finish(j) => FinishStepKeeps(d, c, s, j, a);
    case MarkAcked(reply) => b := MarkAckedStepKeeps(d, c, s, reply, a);
    case GiveUp =>
    case SetActive(_) =>
    case ReadHead(j) =>
      HeadReadSound(Wire(s.rows), s.gateway, j);
      GatewayMoves(d, s, HeadRead(s.gateway, j), a);
    case Look(j) => LookStepKeeps(d, c, s, j, a);
    case Append(j) => AppendStepKeeps(d, c, s, j, a);
    case Abandon(j) =>
      AbandonedSound(Wire(s.rows), s.gateway, j);
      GatewayMoves(d, s, Abandoned(s.gateway, j), a);
  }

  lemma {:induction false} LookStepKeeps(d: Device, c: Checks, s: State, j: nat, a: nat)
    requires Inv(d, s, a) && Enrolled(d, c)
    ensures Inv(d, WithGateway(s, Looked(c, s.gateway, j)), a)
  {
    WireIsGenuine(d, c, s.rows);
    LookedSound(c, Wire(s.rows), s.gateway, j);
    LookedKeepsEvents(c, s.gateway, j);
    GatewayMoves(d, s, Looked(c, s.gateway, j), a);
  }

  lemma {:induction false} LookedKeepsEvents(c: Checks, g: Gateway, j: nat)
    ensures Looked(c, g, j).log == g.log && |Looked(c, g, j).jobs| == |g.jobs|
    ensures forall k | 0 <= k < |g.jobs| :: Looked(c, g, j).jobs[k].events == g.jobs[k].events
  {
  }

  lemma {:induction false} AppendStepKeeps(d: Device, c: Checks, s: State, j: nat, a: nat)
    requires Inv(d, s, a) && Enrolled(d, c)
    ensures Inv(d, WithGateway(s, Appended(s.gateway, j)), a)
  {
    WireIsGenuine(d, c, s.rows);
    AppendedSound(c, Wire(s.rows), s.gateway, j);
    GatewayMoves(d, s, Appended(s.gateway, j), a);
  }

  lemma {:induction false} RunOnKeeps(d: Device, c: Checks, s: State, steps: seq<Step>, a: nat) returns (b: nat)
    requires Enrolled(d, c) && Inv(d, s, a)
    ensures Inv(d, RunOn(d, c, s, steps), b)
  {
    b := a;
    if steps != [] {
      var before := steps[..|steps| - 1];
      b := RunOnKeeps(d, c, s, before, a);
      b := StepKeeps(d, c, RunOn(d, c, s, before), steps[|steps| - 1], b);
    }
  }

  lemma {:induction false} RunKeeps(d: Device, c: Checks, steps: seq<Step>) returns (a: nat)
    requires Enrolled(d, c)
    ensures Inv(d, Run(d, c, steps), a)
  {
    a := RunOnKeeps(d, c, Initial(), steps, 0);
  }
}
