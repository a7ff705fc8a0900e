/** Runs that can be given step by step: one exchange between device and gateway, the
    exchanges that deliver a whole outbox, and, from a state in which the recorded head or a
    job may still be mended, the steps that make the log grow. */
module Exchange {
  import opened Wrappers
  import opened Texts
  import opened Json
  import opened Events
  import opened Store
  import opened Outbox
  import opened Ingest
  import opened Gateway
  import opened GatewayRuns
  import opened Protocol
  import opened ProtocolSteps

  // ------------------------------------------------------- steps of a job

  /** A job handles its next `n` events. */
  function HandleSteps(j: nat, n: nat): seq<Step> {
    if n == 0 then [] else HandleSteps(j, n - 1) + [Look(j), Append(j)]
  }

  lemma {:induction false} RunOnOne(d: Device, c: Checks, s: State, x: Step)
    ensures RunOn(d, c, s, [x]) == Next(d, c, s, x)
  {
    RunOnLast(d, c, s, [], x);
    assert [] + [x] == [x];
  }

  lemma {:induction false} RunOnTwo(d: Device, c: Checks, s: State, x: Step, y: Step)
    ensures RunOn(d, c, s, [x, y]) == Next(d, c, Next(d, c, s, x), y)
  {
    RunOnOne(d, c, s, x);
    RunOnLast(d, c, s, [x], y);
    assert [x] + [y] == [x, y];
  }

  lemma {:induction false} RunHandleSteps(d: Device, c: Checks, s: State, j: nat, n: nat)
    ensures RunOn(d, c, s, HandleSteps(j, n)) == WithGateway(s, Handled(c, s.gateway, j, n))
  {
    if n > 0 {
      RunHandleSteps(d, c, s, j, n - 1);
      var before := WithGateway(s, Handled(c, s.gateway, j, n - 1));
      RunsOn(d, c, s, HandleSteps(j, n - 1), [Look(j), Append(j)]);
      RunOnTwo(d, c, before, Look(j), Append(j));
    }
  }

  /** A request arrives, and a job is opened for it that has read the head. */
  function OpenSteps(request: nat, arrived: seq<DeviceEvent>, j: nat): seq<Step> {
    [Open(request, arrived), ReadHead(j)]
  }

  /** The job a delivered request becomes, at its first event, with the recorded head. */
  function Started(g: Gateway, events: seq<DeviceEvent>): Gateway {
    g.(jobs := g.jobs + [Job(events, 0, g.head, g.covers, Looking, None)])
  }

  lemma {:induction false} RunOpenSteps(
      d: Device, c: Checks, s: State, request: nat, arrived: seq<DeviceEvent>, a: nat)
    requires Inv(d, s, a) && Enrolled(d, c) && Delivers(s, request, arrived) && s.gateway.active
    ensures RunOn(d, c, s, OpenSteps(request, arrived, |s.gateway.jobs|))
         == WithGateway(s, Started(s.gateway, s.requests[request]))
  {
    var j := |s.gateway.jobs|;
    OpenedJob(d, c, s, request, arrived, a);
    RunOnTwo(d, c, s, Open(request, arrived), ReadHead(j));
    var g := Opened(s.gateway, arrived);
    assert HeadRead(g, j).jobs == Started(s.gateway, s.requests[request]).jobs;
  }

  /** The recorded head is that of the last event stored, so a new job is in line. */
  lemma {:induction false} StartedInLine(d: Device, c: Checks, s: State, request: nat, a: nat, from: nat)
    requires Inv(d, s, a) && request < |s.requests| && s.gateway.head == LastHash(s.gateway.log)
    requires from <= a && Segment(Wire(s.rows), from, s.requests[request])
    ensures InLine(Wire(s.rows), Started(s.gateway, s.requests[request]), |s.gateway.jobs|, from)
  {
    var wire, g, j := Wire(s.rows), Started(s.gateway, s.requests[request]), |s.gateway.jobs|;
    LastOfPrefix(wire, g.log);
    assert JobFrom(wire, g.log, g.jobs[j], from);
  }

  // ------------------------------------------------------------- one round

  /** The batch a push would send. */
  function NextBatch(s: State): seq<DeviceEvent> {
    Wire(FirstPending(s.rows, PUSH_BATCH))
  }

  /** Push a batch, ingest it with nothing beside it, and mark its rows. */
  function RoundSteps(s: State): seq<Step> {
    var j, batch := |s.gateway.jobs|, NextBatch(s);
    [Push] + OpenSteps(|s.requests|, batch, j) + HandleSteps(j, |batch|) + [Finish(j), MarkAcked(|s.replies|)]
  }

  /** Nothing is on its way to the device, and the gateway's head is in step. */
  predicate Ready(s: State) {
    s.gateway.active && !s.inFlight && s.gateway.head == LastHash(s.gateway.log)
  }

  lemma {:induction false} PushRuns(d: Device, c: Checks, s: State, a: nat)
    requires Inv(d, s, a) && !s.inFlight && a < |s.rows|
    ensures Next(d, c, s, Push) == AfterPush(s, NextBatch(s)) && Inv(d, AfterPush(s, NextBatch(s)), a)
    ensures Segment(Wire(s.rows), a, NextBatch(s))
    ensures |NextBatch(s)| == if |s.rows| - a <= PUSH_BATCH then |s.rows| - a else PUSH_BATCH
  {
    PendingOnTheWire(d, s.rows, a);
    PendingOfPrefix(s.rows, a);
    PushedKeeps(d, s, NextBatch(s), a);
  }

  /** The state once the batch is ingested. */
  ghost predicate BatchStored(wire: seq<DeviceEvent>, s: State, after: State, j: nat, a: nat, n: nat)
    requires j == |s.gateway.jobs|
  {
    && after.rows == s.rows && after.requests == s.requests && after.replies == s.replies && after.inFlight == s.inFlight
    && |after.gateway.jobs| == j + 1 && after.gateway.active == s.gateway.active
    && after.gateway.jobs[..j] == s.gateway.jobs
    && after.gateway.head == s.gateway.head
    && after.gateway.log <= wire && |after.gateway.log| == Max(|s.gateway.log|, a + n)
    && after.gateway.jobs[j].phase == Looking && after.gateway.jobs[j].at == n
    && after.gateway.jobs[j].head == PrevAt(wire, |after.gateway.log|)
  }

  /** A delivered request is opened and its first `n` events are handled. */
  lemma {:induction false} HandleRequest(
      d: Device, c: Checks, s: State, request: nat, arrived: seq<DeviceEvent>, a: nat, from: nat, n: nat)
    returns (after: State)
    requires Inv(d, s, a) && Enrolled(d, c) && s.gateway.active && Delivers(s, request, arrived)
    requires s.gateway.head == LastHash(s.gateway.log)
    requires from <= a && Segment(Wire(s.rows), from, s.requests[request]) && n <= |s.requests[request]|
    ensures var j := |s.gateway.jobs|;
            && after == RunOn(d, c, s, OpenSteps(request, arrived, j) + HandleSteps(j, n))
            && BatchStored(Wire(s.rows), s, after, j, from, n)
            && after.gateway.jobs[j].events == s.requests[request]
  {
    var j, started := |s.gateway.jobs|, WithGateway(s, Started(s.gateway, s.requests[request]));
    RunsOn(d, c, s, OpenSteps(request, arrived, j), HandleSteps(j, n));
    RunOpenSteps(d, c, s, request, arrived, a);
    RunHandleSteps(d, c, started, j, n);
    after := WithGateway(started, Handled(c, started.gateway, j, n));
    WireIsGenuine(d, c, s.rows);
    StartedInLine(d, c, s, request, a, from);
    HandledInLine(c, Wire(s.rows), started.gateway, j, from, n);
    assert started.gateway.jobs[..j] == s.gateway.jobs;
  }

  /** The acknowledged rows are as many as they are. */
  lemma {:induction false} OneAckedPrefix(rows: seq<OutboxRow>, a: nat, b: nat)
    requires AckedPrefix(rows, a) && AckedPrefix(rows, b)
    ensures a == b
  {
    var m := if a < b then a else b;
    assert m < |rows| ==> (rows[m].acked <==> m < a) && (rows[m].acked <==> m < b);
  }

  /** The job is finished: the head is that of the last event stored, and the reply is out. */
  lemma {:induction false} FinishAnswers(wire: seq<DeviceEvent>, s: State, now: State, j: nat, a: nat, batch: seq<DeviceEvent>)
    requires j == |s.gateway.jobs| && BatchStored(wire, s, now, j, a, |batch|) && batch != []
    requires now.gateway.jobs[j].events == batch
    ensures AfterFinish(now, j)
         == now.(gateway := Finished(now.gateway, j), replies := s.replies + [EventIds(batch)])
    ensures Finished(now.gateway, j).log == now.gateway.log && Finished(now.gateway, j).active == now.gateway.active
    ensures Finished(now.gateway, j).head == LastHash(now.gateway.log)
  {
    LastOfPrefix(wire, now.gateway.log);
  }

  lemma {:induction false} BatchIds(d: Device, s: State, a: nat, batch: seq<DeviceEvent>)
    requires Inv(d, s, a) && Segment(Wire(s.rows), a, batch)
    ensures a + |batch| <= |s.rows| && AckedPrefix(AckAll(s.rows, EventIds(batch)), a + |batch|)
  {
    assert IdsAt(Wire(s.rows), a, EventIds(batch));
    IdsOfRows(d, s.rows, a, EventIds(batch));
    AckExtendsPrefix(d, s.rows, a, a, EventIds(batch));
  }

  lemma {:induction false} MarksBatch(d: Device, c: Checks, s: State, reply: nat, a: nat, batch: seq<DeviceEvent>)
    requires Inv(d, s, a) && Enrolled(d, c) && s.inFlight && reply < |s.replies| && s.replies[reply] == EventIds(batch)
    requires Segment(Wire(s.rows), a, batch)
    ensures var after := Next(d, c, s, MarkAcked(reply));
            && Inv(d, after, a + |batch|) && |after.rows| == |s.rows| && after.gateway == s.gateway && !after.inFlight
  {
    var b := MarkAckedStepKeeps(d, c, s, reply, a);
    Marked(d, c, s, reply);
    BatchIds(d, s, a, batch);
    SamePrefix(d, Next(d, c, s, MarkAcked(reply)), b, a + |batch|);
  }

  lemma {:induction false} Marked(d: Device, c: Checks, s: State, reply: nat)
    requires s.inFlight && reply < |s.replies|
    ensures Next(d, c, s, MarkAcked(reply)) == s.(rows := AckAll(s.rows, s.replies[reply]), inFlight := false)
  {
  }

  lemma {:induction false} SamePrefix(d: Device, s: State, b: nat, n: nat)
    requires Inv(d, s, b) && AckedPrefix(s.rows, n)
    ensures Inv(d, s, n)
  {
    OneAckedPrefix(s.rows, b, n);
  }

  lemma {:induction false} FinishedKeeps(
      d: Device, c: Checks, s: State, steps: seq<Step>, now: State, j: nat, a: nat)
    requires Inv(d, s, a) && Enrolled(d, c) && now == RunOn(d, c, s, steps) && now.rows == s.rows
    ensures Inv(d, AfterFinish(now, j), a)
  {
    var b := RunOnKeeps(d, c, s, steps, a);
    OneAckedPrefix(s.rows, a, b);
    FinishStepKeeps(d, c, now, j, a);
  }

  /** One round stores its batch and takes its rows off the queue. */
  lemma {:induction false} RoundDelivers(d: Device, c: Checks, s: State, a: nat) returns (after: State)
    requires Inv(d, s, a) && Enrolled(d, c) && Ready(s) && a < |s.rows|
    ensures after == RunOn(d, c, s, RoundSteps(s)) && Ready(after) && |after.rows| == |s.rows|
    ensures |NextBatch(s)| > 0 && Inv(d, after, a + |NextBatch(s)|)
    ensures |s.gateway.log| <= |after.gateway.log|
  {
    var j, batch, pushed := |s.gateway.jobs|, NextBatch(s), AfterPush(s, NextBatch(s));
    PushRuns(d, c, s, a);
    var now := HandleRequest(d, c, pushed, |s.requests|, batch, a, a, |batch|);
    var finished := AfterFinish(now, j);
    RoundOfParts(d, c, s, pushed, now, finished);
    FinishedKeeps(d, c, pushed, OpenSteps(|s.requests|, batch, j) + HandleSteps(j, |batch|), now, j, a);
    after := Next(d, c, finished, MarkAcked(|s.replies|));
    RoundEnds(d, c, s, pushed, now, j, a, batch);
  }

  lemma {:induction false} RoundEnds(
      d: Device, c: Checks, s: State, pushed: State, now: State, j: nat, a: nat, batch: seq<DeviceEvent>)
    requires Enrolled(d, c) && Inv(d, AfterFinish(now, j), a) && now.rows == s.rows && now.inFlight
    requires pushed == AfterPush(s, batch) && j == |s.gateway.jobs| && batch != []
    requires BatchStored(Wire(s.rows), pushed, now, j, a, |batch|) && now.gateway.jobs[j].events == batch
    requires Segment(Wire(s.rows), a, batch) && s.gateway.active
    ensures var after := Next(d, c, AfterFinish(now, j), MarkAcked(|s.replies|));
            && Ready(after) && |after.rows| == |s.rows| && Inv(d, after, a + |batch|)
            && |s.gateway.log| <= |after.gateway.log|
  {
    FinishAnswers(Wire(s.rows), pushed, now, j, a, batch);
    MarksBatch(d, c, AfterFinish(now, j), |s.replies|, a, batch);
  }

  lemma {:induction false} RoundOfParts(d: Device, c: Checks, s: State, pushed: State, now: State, finished: State)
    requires pushed == Next(d, c, s, Push)
    requires var j, batch := |s.gateway.jobs|, NextBatch(s);
             now == RunOn(d, c, pushed, OpenSteps(|s.requests|, batch, j) + HandleSteps(j, |batch|))
    requires finished == AfterFinish(now, |s.gateway.jobs|)
    ensures RunOn(d, c, s, RoundSteps(s)) == Next(d, c, finished, MarkAcked(|s.replies|))
  {
    var j, batch := |s.gateway.jobs|, NextBatch(s);
    var middle := OpenSteps(|s.requests|, batch, j) + HandleSteps(j, |batch|);
    var last := [Finish(j), MarkAcked(|s.replies|)];
    RunOnOne(d, c, s, Push);
    RunsOn(d, c, s, [Push], middle);
    RunsOn(d, c, s, [Push] + middle, last);
    RunOnTwo(d, c, now, Finish(j), MarkAcked(|s.replies|));
    assert RoundSteps(s) == [Push] + middle + last;
  }

  // -------------------------------------------------------- a whole outbox

  /** Finitely many rounds acknowledge every row and store every event. */
  lemma {:induction false} RoundsDeliver(d: Device, c: Checks, s: State, a: nat) returns (steps: seq<Step>, after: State)
    requires Inv(d, s, a) && Enrolled(d, c) && Ready(s)
    ensures after == RunOn(d, c, s, steps) && Inv(d, after, |after.rows|) && Ready(after)
    ensures |after.rows| == |s.rows| == |after.gateway.log|
    decreases |s.rows| - a
  {
    if a == |s.rows| {
      WireRow(d, s.rows);
      steps, after := [], s;
    } else {
      var next := RoundDelivers(d, c, s, a);
      WireRow(d, s.rows);
      PushRuns(d, c, s, a);
      var rest;
      rest, after := RoundsDeliver(d, c, next, a + |NextBatch(s)|);
      steps := RoundSteps(s) + rest;
      RunsOn(d, c, s, RoundSteps(s), rest);
    }
  }

  // ---------------------------------------------- what may still be mended

  /** A text longer than every event id, so none of them. */
  function FreshId(rows: seq<OutboxRow>): Text {
    if rows == [] then [ZERO] else FreshId(rows[1..]) + rows[0].eventId
  }

  lemma {:induction false} FreshIdIsFresh(rows: seq<OutboxRow>)
    ensures |FreshId(rows)| > 0 && forall i | 0 <= i < |rows| :: |rows[i].eventId| < |FreshId(rows)|
  {
    if rows != [] {
      FreshIdIsFresh(rows[1..]);
      assert forall i | 0 < i < |rows| :: rows[i] == rows[1..][i - 1];
    }
  }

  function FreshDraft(rows: seq<OutboxRow>): Draft {
    Draft([], [], [], Null, FreshId(rows), 0)
  }

  /** The drain idle, the device active, and one more event authored. */
  function Woken(s: State): State {
    WithGateway(s.(inFlight := false), s.gateway.(active := true))
  }

  function WakeSteps(s: State): seq<Step> {
    [GiveUp, SetActive(true)] + [Author(FreshDraft(s.rows))]
  }

  lemma {:induction false} WokenAuthors(d: Device, c: Checks, s: State, a: nat) returns (after: State)
    requires Inv(d, s, a)
    ensures after == Next(d, c, Woken(s), Author(FreshDraft(s.rows))) && Inv(d, after, a)
    ensures |after.rows| == |s.rows| + 1 && after.gateway == s.gateway.(active := true) && !after.inFlight
  {
    FreshIdIsFresh(s.rows);
    AuthorSucceedsExactlyWhen(d, s.rows, FreshDraft(s.rows));
    assert Inv(d, Woken(s), a);
    AuthorStepKeeps(d, c, Woken(s), FreshDraft(s.rows), a);
    after := Next(d, c, Woken(s), Author(FreshDraft(s.rows)));
  }

  lemma {:induction false} RunWakeSteps(d: Device, c: Checks, s: State)
    ensures RunOn(d, c, s, WakeSteps(s)) == Next(d, c, Woken(s), Author(FreshDraft(s.rows)))
  {
    RunOnTwo(d, c, s, GiveUp, SetActive(true));
    RunOnLast(d, c, s, [GiveUp, SetActive(true)], Author(FreshDraft(s.rows)));
  }

  /** With the head in step, one more event and a few rounds make the log grow. */
  lemma {:induction false} InStepGrows(d: Device, c: Checks, s: State, a: nat) returns (steps: seq<Step>)
    requires Inv(d, s, a) && Enrolled(d, c) && s.gateway.head == LastHash(s.gateway.log)
    ensures |RunOn(d, c, s, steps).gateway.log| > |s.gateway.log|
  {
    var authored := WokenAuthors(d, c, s, a);
    WireRow(d, s.rows);
    RunWakeSteps(d, c, s);
    var rest, after := RoundsDeliver(d, c, authored, a);
    steps := WakeSteps(s) + rest;
    RunsOn(d, c, s, WakeSteps(s), rest);
  }

  /** The log has grown, or the recorded head is that of its last event. */
  predicate Mends(g: Gateway, after: Gateway) {
    |after.log| > |g.log| || (after.head == LastHash(after.log) && |after.log| == |g.log|)
  }

  /** A job in line, run to its end, stores something or mends the recorded head. */
  lemma {:induction false} InLineMends(d: Device, c: Checks, s: State, j: nat, from: nat, a: nat)
    returns (steps: seq<Step>)
    requires Inv(d, s, a) && Enrolled(d, c) && InLine(Wire(s.rows), s.gateway, j, from)
    ensures Mends(s.gateway, RunOn(d, c, s, steps).gateway)
  {
    WireIsGenuine(d, c, s.rows);
    var n := ToGo(Wire(s.rows), s.gateway, j, from);
    steps := HandleSteps(j, n) + [Finish(j)];
    RunsToItsEnd(d, c, s, j, n);
    EndMends(c, Wire(s.rows), s.gateway, j, from, n);
  }

  function ToGo(wire: seq<DeviceEvent>, g: Gateway, j: nat, from: nat): (n: nat)
    requires InLine(wire, g, j, from)
    ensures g.jobs[j].at + n == |g.jobs[j].events|
  {
    |g.jobs[j].events| - g.jobs[j].at
  }

  lemma {:induction false} RunsToItsEnd(d: Device, c: Checks, s: State, j: nat, n: nat)
    ensures RunOn(d, c, s, HandleSteps(j, n) + [Finish(j)]).gateway == Finished(Handled(c, s.gateway, j, n), j)
  {
    RunHandleSteps(d, c, s, j, n);
    RunOnLast(d, c, s, HandleSteps(j, n), Finish(j));
  }

  lemma {:induction false} EndMends(c: Checks, wire: seq<DeviceEvent>, g: Gateway, j: nat, from: nat, n: nat)
    requires Genuine(c, wire) && InLine(wire, g, j, from) && g.jobs[j].at + n == |g.jobs[j].events|
    ensures Mends(g, Finished(Handled(c, g, j, n), j))
  {
    HandledInLine(c, wire, g, j, from, n);
    FinishMends(wire, g, Handled(c, g, j, n), j, from);
  }

  lemma {:induction false} FinishMends(wire: seq<DeviceEvent>, g: Gateway, handled: Gateway, j: nat, from: nat)
    requires InLine(wire, g, j, from) && HandledTo(wire, g, handled, j, from, |g.jobs[j].events|)
    ensures Mends(g, Finished(handled, j))
  {
    StaysInLine(wire, g, handled, j, from, |g.jobs[j].events|);
    LastOfPrefix(wire, handled.log);
  }

  /** A job in line can make the log grow. */
  lemma {:induction false} InLineGrows(d: Device, c: Checks, s: State, j: nat, from: nat, a: nat)
    returns (steps: seq<Step>)
    requires Inv(d, s, a) && Enrolled(d, c) && InLine(Wire(s.rows), s.gateway, j, from)
    ensures |RunOn(d, c, s, steps).gateway.log| > |s.gateway.log|
  {
    steps := InLineMends(d, c, s, j, from, a);
    var after := RunOn(d, c, s, steps);
    if |after.gateway.log| == |s.gateway.log| {
      var b := RunOnKeeps(d, c, s, steps, a);
      var rest := InStepGrows(d, c, after, b);
      RunsOn(d, c, s, steps, rest);
      steps := steps + rest;
    }
  }

  /** A job about to append an event stores it, or comes to be in line. */
  lemma {:induction false} AppendingMends(wire: seq<DeviceEvent>, g: Gateway, j: nat, from: nat)
    requires DistinctEvents(wire) && Sound(wire, g) && AtEvent(g, j, Appending) && JobFrom(wire, g.log, g.jobs[j], from)
    requires MayHeal(g.log, g.jobs[j])
    ensures || |Appended(g, j).log| > |g.log|
            || (InLine(wire, Appended(g, j), j, from) && Appended(g, j).log == g.log)
  {
    var k, after := from + g.jobs[j].at, Appended(g, j);
    AppendOutcome(wire, g, j, from);
    StoredExactly(wire, g.log, k);
    LastOfPrefix(wire, g.log);
    if k < |g.log| {
      AppendKeepsJob(wire, g.log, g.jobs[j], from);
      JobAndLogReplaced(wire, g, j, after.jobs[j], g.log);
    }
  }

  /** The job appends, and goes on in line where that stored nothing. */
  lemma {:induction false} AppendingGrows(d: Device, c: Checks, s: State, j: nat, from: nat, a: nat)
    returns (steps: seq<Step>)
    requires Inv(d, s, a) && Enrolled(d, c) && AtEvent(s.gateway, j, Appending)
    requires |Appended(s.gateway, j).log| > |s.gateway.log|
          || (InLine(Wire(s.rows), Appended(s.gateway, j), j, from) && Appended(s.gateway, j).log == s.gateway.log)
    ensures |RunOn(d, c, s, steps).gateway.log| > |s.gateway.log|
  {
    RunOnOne(d, c, s, Append(j));
    AppendStepKeeps(d, c, s, j, a);
    steps := GrowsAfter(d, c, s, WithGateway(s, Appended(s.gateway, j)), [Append(j)], j, from, a);
  }

  lemma {:induction false} GrowsAfter(
      d: Device, c: Checks, s: State, after: State, first: seq<Step>, j: nat, from: nat, a: nat)
    returns (steps: seq<Step>)
    requires Enrolled(d, c) && after == RunOn(d, c, s, first) && Inv(d, after, a)
    requires |after.gateway.log| > |s.gateway.log|
          || (InLine(Wire(after.rows), after.gateway, j, from) && after.gateway.log == s.gateway.log)
    ensures |RunOn(d, c, s, steps).gateway.log| > |s.gateway.log|
  {
    steps := first;
    if |after.gateway.log| <= |s.gateway.log| {
      var rest := InLineGrows(d, c, after, j, from, a);
      RunsOn(d, c, s, first, rest);
      steps := first + rest;
    }
  }

  lemma {:induction false} MayHealGrows(d: Device, c: Checks, s: State, j: nat, a: nat) returns (steps: seq<Step>)
    requires Inv(d, s, a) && Enrolled(d, c) && j < |s.gateway.jobs| && MayHeal(s.gateway.log, s.gateway.jobs[j])
    ensures |RunOn(d, c, s, steps).gateway.log| > |s.gateway.log|
  {
    var wire, g := Wire(s.rows), s.gateway;
    WireIsDistinct(d, s.rows);
    assert JobSound(wire, g.log, g.jobs[j]);
    var from: nat :| JobFrom(wire, g.log, g.jobs[j], from);
    if g.jobs[j].phase.Looking? {
      LastOfPrefix(wire, g.log);
      steps := InLineGrows(d, c, s, j, from, a);
    } else {
      AppendingMends(wire, g, j, from);
      steps := AppendingGrows(d, c, s, j, from, a);
    }
  }

  /** Where the recorded head is in step, or some job may mend it, the log can still grow. */
  lemma {:induction false} GrowsUnlessStranded(d: Device, c: Checks, s: State, a: nat) returns (steps: seq<Step>)
    requires Inv(d, s, a) && Enrolled(d, c) && !Stranded(s.gateway)
    ensures |RunOn(d, c, s, steps).gateway.log| > |s.gateway.log|
  {
    if s.gateway.head == LastHash(s.gateway.log) {
      steps := InStepGrows(d, c, s, a);
    } else {
      var j: nat :| j < |s.gateway.jobs| && MayHeal(s.gateway.log, s.gateway.jobs[j]);
      steps := MayHealGrows(d, c, s, j, a);
    }
  }
}
