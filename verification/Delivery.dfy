/** Delivery: what holds in every reachable state. */
module Delivery {
  import opened Wrappers
  import opened Texts
  import opened Events
  import opened Store
  import opened Outbox
  import opened Ingest
  import opened Gateway
  import opened GatewayRuns
  import opened Protocol
  import opened ProtocolSteps
  import opened Exchange

  // -------------------------------------------------------------- safety

  /** Stored once, at the row's own place. */
  ghost predicate StoredOnce(s: State, i: nat)
    requires i < |s.rows|
  {
    && i < |s.gateway.log| && ToDeviceEvent(s.rows[i]) == Some(s.gateway.log[i])
    && forall j | 0 <= j < |s.gateway.log| && s.gateway.log[j].signable.eventId == s.rows[i].eventId :: j == i
  }

  /** In every reachable state, however many ingests run side by side and however requests
      are lost, repeated, shuffled or left half done: the gateway's log for the device is a
      prefix of the outbox, and every acknowledged row is stored in it exactly once. */
  lemma {:induction false} EveryReachableStateIsSafe(d: Device, c: Checks, steps: seq<Step>)
    requires Enrolled(d, c)
    ensures var s := Run(d, c, steps);
            && |s.gateway.log| <= |s.rows|
            && (forall i | 0 <= i < |s.gateway.log| :: ToDeviceEvent(s.rows[i]) == Some(s.gateway.log[i]))
            && (forall i | 0 <= i < |s.rows| && s.rows[i].acked :: StoredOnce(s, i))
  {
    var s := Run(d, c, steps);
    var a := RunKeeps(d, c, steps);
    StoredIsPrefix(d, s, a);
    forall i | 0 <= i < |s.rows| && s.rows[i].acked ensures StoredOnce(s, i) {
      StoredOnceOnly(d, s, a, i);
    }
  }

  lemma {:induction false} StoredIsPrefix(d: Device, s: State, a: nat)
    requires Inv(d, s, a)
    ensures |s.gateway.log| <= |s.rows|
    ensures forall i | 0 <= i < |s.gateway.log| :: ToDeviceEvent(s.rows[i]) == Some(s.gateway.log[i])
  {
    WireRow(d, s.rows);
    forall i | 0 <= i < |s.gateway.log| ensures ToDeviceEvent(s.rows[i]) == Some(s.gateway.log[i]) {
      assert s.gateway.log[i] == Wire(s.rows)[i];
    }
  }

  lemma {:induction false} StoredOnceOnly(d: Device, s: State, a: nat, i: nat)
    requires Inv(d, s, a) && i < |s.rows| && i < |s.gateway.log|
    requires ToDeviceEvent(s.rows[i]) == Some(s.gateway.log[i])
    ensures StoredOnce(s, i)
  {
    WireRow(d, s.rows);
    WireIsDistinct(d, s.rows);
    EventOfRow(d, s.rows, i);
    forall j | 0 <= j < |s.gateway.log| && s.gateway.log[j].signable.eventId == s.rows[i].eventId ensures j == i {
      assert s.gateway.log[j] == Wire(s.rows)[j] && s.gateway.log[i] == Wire(s.rows)[i];
    }
  }

  /** An outbox row is never edited or removed: later states extend the rows, and a row's
      only change is from pending to acknowledged. */
  lemma {:induction false} RowsAreImmutable(d: Device, c: Checks, steps: seq<Step>, more: seq<Step>)
    ensures RowsExtend(Run(d, c, steps).rows, Run(d, c, steps + more).rows)
    decreases |more|
  {
    if more == [] {
      assert steps + more == steps;
    } else {
      var before, last := more[..|more| - 1], more[|more| - 1];
      RowsAreImmutable(d, c, steps, before);
      assert steps + more == steps + before + [last];
      RunOnLast(d, c, Initial(), steps + before, last);
      StepExtendsRows(d, c, Run(d, c, steps + before), last);
      ExtendIsTransitive(Run(d, c, steps).rows, Run(d, c, steps + before).rows, Run(d, c, steps + more).rows);
    }
  }

  /** In every reachable state an idle drain pushes the events of the oldest rows that are not
      acknowledged, in order, a hundred or as many as there are; and nothing where there are
      none. */
  lemma {:induction false} PushSendsTheOldest(d: Device, c: Checks, steps: seq<Step>) returns (acked: nat)
    requires Enrolled(d, c) && !Run(d, c, steps).inFlight
    ensures var s := Run(d, c, steps);
            && acked <= |s.rows| && (forall i | 0 <= i < |s.rows| :: s.rows[i].acked <==> i < acked)
            && if acked == |s.rows| then Next(d, c, s, Push) == s
               else
                 && Next(d, c, s, Push) == s.(requests := s.requests + [NextBatch(s)], inFlight := true)
                 && |NextBatch(s)| == (if |s.rows| - acked <= 100 then |s.rows| - acked else 100)
                 && forall k | 0 <= k < |NextBatch(s)| :: ToDeviceEvent(s.rows[acked + k]) == Some(NextBatch(s)[k])
  {
    var s := Run(d, c, steps);
    acked := RunKeeps(d, c, steps);
    PendingOfPrefix(s.rows, acked);
    if acked < |s.rows| {
      PushRuns(d, c, s, acked);
      WireRow(d, s.rows);
    }
  }

  // ------------------------------------------------- when it is refused

  /** The hash the next event must carry is that of the last row stored. */
  lemma {:induction false} LastHashOfRows(d: Device, s: State, a: nat)
    requires Inv(d, s, a)
    ensures |s.gateway.log| <= |s.rows| && LastHash(s.gateway.log) == PrevHashAt(s.rows, |s.gateway.log|)
    ensures HeadInStep(s) <==> s.gateway.head == LastHash(s.gateway.log)
  {
    WireRow(d, s.rows);
    PrevOnWire(d, s.rows, |s.gateway.log|);
    LastOfPrefix(Wire(s.rows), s.gateway.log);
  }

  /** In every reachable state a delivered request that the active gateway begins on is put
      in the order its events were authored in, whatever order they arrive in. */
  lemma {:induction false} DeliveredInOrder(
      d: Device, c: Checks, steps: seq<Step>, request: nat, arrived: seq<DeviceEvent>)
    requires Enrolled(d, c)
    requires Run(d, c, steps).gateway.active && Delivers(Run(d, c, steps), request, arrived)
    ensures var s := Run(d, c, steps);
            var after := Next(d, c, s, Open(request, arrived));
            && after.gateway.log == s.gateway.log && |after.gateway.jobs| == |s.gateway.jobs| + 1
            && after.gateway.jobs[|s.gateway.jobs|].events == s.requests[request]
            && after.gateway.jobs[|s.gateway.jobs|].refusal.None?
  {
    var a := RunKeeps(d, c, steps);
    OpenedJob(d, c, Run(d, c, steps), request, arrived, a);
  }

  /** In every reachable state, whatever runs beside it, an ingest is refused exactly when
      its next event is not stored and the head it goes by is not that of the last row
      stored; it is a chain break, and nothing but that ingest changes. */
  lemma {:induction false} RefusedExactlyWhen(d: Device, c: Checks, steps: seq<Step>, j: nat)
    requires Enrolled(d, c) && AtEvent(Run(d, c, steps).gateway, j, Looking)
    ensures var s := Run(d, c, steps);
            var id := NextEventOf(s.gateway, j).signable.eventId;
            var after := Next(d, c, s, Look(j));
            && |s.gateway.log| <= |s.rows| && |after.gateway.jobs| == |s.gateway.jobs|
            && (after.gateway.jobs[j].refusal.Some? <==>
                  !Stored(s.gateway.log, id) && s.gateway.jobs[j].head != PrevHashAt(s.rows, |s.gateway.log|))
            && (after.gateway.jobs[j].refusal.Some? ==>
                  after.gateway == s.gateway.(jobs := s.gateway.jobs[
                    j := s.gateway.jobs[j].(phase := Closed, refusal := Some(ChainBreak(id)))]))
  {
    var s := Run(d, c, steps);
    var a := RunKeeps(d, c, steps);
    WireIsGenuine(d, c, s.rows);
    LastHashOfRows(d, s, a);
    LookRefusesExactlyWhen(c, Wire(s.rows), s.gateway, j);
  }

  /** No step but a look refuses. */
  lemma {:induction false} OnlyLooksRefuse(d: Device, c: Checks, s: State, step: Step, j: nat)
    requires !step.Look? && j < |Next(d, c, s, step).gateway.jobs|
    ensures Next(d, c, s, step).gateway.jobs[j].refusal.Some? ==>
              j < |s.gateway.jobs| && s.gateway.jobs[j].refusal.Some?
  {
  }

  // --------------------------------------------- when the head is in step

  /** Two rows whose events have different canonical texts and one hash. */
  predicate RowsCollide(sha: Text -> Text, x: OutboxRow, y: OutboxRow) {
    && ToDeviceEvent(x).Some? && ToDeviceEvent(y).Some?
    && CollidingPair(sha, ToDeviceEvent(x).value.signable, ToDeviceEvent(y).value.signable)
  }

  ghost predicate OutboxCollides(sha: Text -> Text, rows: seq<OutboxRow>) {
    exists i, j :: 0 <= i < j < |rows| && RowsCollide(sha, rows[i], rows[j])
  }

  lemma {:induction false} OneHashTwoRows(d: Device, rows: seq<OutboxRow>, i: nat, j: nat)
    requires GoodLog(d, rows) && i < j < |rows| && rows[i].eventHash == rows[j].eventHash
    ensures RowsCollide(d.sha, rows[i], rows[j])
  {
    assert GoodRow(d, rows, i) && GoodRow(d, rows, j);
    EqualHashesSameEvent(d.sha, ToDeviceEvent(rows[i]).value.signable, ToDeviceEvent(rows[j]).value.signable);
  }

  lemma {:induction false} OneHeadTwoPlaces(d: Device, rows: seq<OutboxRow>, m: nat, n: nat)
    requires GoodLog(d, rows) && m < n <= |rows| && PrevHashAt(rows, m) == PrevHashAt(rows, n)
    ensures OutboxCollides(d.sha, rows)
  {
    OneHashTwoRows(d, rows, m - 1, n - 1);
  }

  /** An ingest is done and has a head to write. */
  predicate Writes(g: Gateway, j: nat) {
    IsDone(g, j) && g.jobs[j].head.Some?
  }

  /** The ingest, as it stood, that was the last in the run to write a head. */
  function LastWriter(d: Device, c: Checks, steps: seq<Step>): Option<Job> {
    if steps == [] then None
    else
      var before, last := steps[..|steps| - 1], steps[|steps| - 1];
      var g := Run(d, c, before).gateway;
      if WritesHead(g, last) then Some(g.jobs[last.job]) else LastWriter(d, c, before)
  }

  predicate WritesHead(g: Gateway, step: Step) {
    step.Finish? && Writes(g, step.job)
  }

  lemma {:induction false} OnlyWritersWrite(d: Device, c: Checks, s: State, step: Step)
    requires !WritesHead(s.gateway, step)
    ensures Next(d, c, s, step).gateway.head == s.gateway.head
    ensures Next(d, c, s, step).gateway.covers == s.gateway.covers
  {
  }

  lemma {:induction false} HeadIsLastWritten(d: Device, c: Checks, steps: seq<Step>)
    ensures var g := Run(d, c, steps).gateway;
            match LastWriter(d, c, steps)
            case None => g.head.None? && g.covers == 0
            case Some(job) => g.head == job.head && g.covers == job.covers
  {
    if steps != [] {
      var before, last := steps[..|steps| - 1], steps[|steps| - 1];
      HeadIsLastWritten(d, c, before);
      if !WritesHead(Run(d, c, before).gateway, last) {
        OnlyWritersWrite(d, c, Run(d, c, before), last);
      }
    }
  }

  /** Over every run: the recorded head is the one the last ingest to write one wrote, the
      hash of a stored event; it is in step exactly when that is the last one stored, unless
      the outbox holds a collision of `sha`. */
  lemma {:induction false} HeadInStepExactlyWhen(d: Device, c: Checks, steps: seq<Step>)
    requires Enrolled(d, c)
    ensures var s := Run(d, c, steps);
            var written := LastWriter(d, c, steps);
            var covers := if written.Some? then written.value.covers else 0;
            && covers <= |s.gateway.log| <= |s.rows|
            && s.gateway.head == (if written.Some? then written.value.head else None) == PrevHashAt(s.rows, covers)
            && (covers == |s.gateway.log| ==> HeadInStep(s))
            && (HeadInStep(s) ==> covers == |s.gateway.log| || OutboxCollides(d.sha, s.rows))
  {
    var s := Run(d, c, steps);
    var a := RunKeeps(d, c, steps);
    HeadIsLastWritten(d, c, steps);
    LastHashOfRows(d, s, a);
    PrevOnWire(d, s.rows, s.gateway.covers);
    if HeadInStep(s) && s.gateway.covers < |s.gateway.log| {
      OneHeadTwoPlaces(d, s.rows, s.gateway.covers, |s.gateway.log|);
    }
  }

  // -------------------------------------------------- when it is stranded

  lemma {:induction false} StepStrands(d: Device, c: Checks, s: State, step: Step, a: nat)
    requires Inv(d, s, a) && Enrolled(d, c) && Stranded(s.gateway)
    ensures Stranded(Next(d, c, s, step).gateway) && Next(d, c, s, step).gateway.log == s.gateway.log
  {
    match step
    case Open(request, arrived) => OpenedStrands(s.gateway, arrived);
    case ReadHead(j) => HeadReadStrands(s.gateway, j);
    case Look(j) =>
      WireIsGenuine(d, c, s.rows);
      LookedStrands(c, Wire(s.rows), s.gateway, j);
    case Append(j) => AppendedStrands(s.gateway, j);
    case Finish(j) => FinishedStrands(s.gateway, j);
    case Abandon(j) => AbandonedStrands(s.gateway, j);
    case _ =>
  }

  lemma {:induction false} StrandedForGood(d: Device, c: Checks, s: State, more: seq<Step>, a: nat)
    requires Inv(d, s, a) && Enrolled(d, c) && Stranded(s.gateway)
    ensures Stranded(RunOn(d, c, s, more).gateway) && RunOn(d, c, s, more).gateway.log == s.gateway.log
    decreases |more|
  {
    if more != [] {
      var before := more[..|more| - 1];
      StrandedForGood(d, c, s, before, a);
      var b := RunOnKeeps(d, c, s, before, a);
      StepStrands(d, c, RunOn(d, c, s, before), more[|more| - 1], b);
    }
  }

  /** Over every run: nothing that may follow makes the gateway's log grow exactly when the
      recorded head is not that of the last event stored and no ingest under way still has
      the right head or comes to it with the event it is appending. */
  lemma {:induction false} StrandedExactlyWhen(d: Device, c: Checks, steps: seq<Step>)
    requires Enrolled(d, c)
    ensures Stranded(Run(d, c, steps).gateway)
       <==> forall more :: Run(d, c, steps + more).gateway.log == Run(d, c, steps).gateway.log
  {
    var s := Run(d, c, steps);
    var a := RunKeeps(d, c, steps);
    if Stranded(s.gateway) {
      forall more ensures Run(d, c, steps + more).gateway.log == s.gateway.log {
        StrandedForGood(d, c, s, more, a);
        RunsOn(d, c, Initial(), steps, more);
      }
    } else {
      var more := GrowsUnlessStranded(d, c, s, a);
      RunsOn(d, c, Initial(), steps, more);
      assert Run(d, c, steps + more).gateway.log != s.gateway.log;
    }
  }

  /** No ingest has begun on its events and not ended. */
  predicate Quiet(g: Gateway) {
    forall j | 0 <= j < |g.jobs| :: !Running(g.jobs[j])
  }

  /** With no ingest running, that is exactly when the head is out of step. */
  lemma {:induction false} QuietStrandedExactlyWhen(d: Device, c: Checks, steps: seq<Step>)
    requires Enrolled(d, c) && Quiet(Run(d, c, steps).gateway)
    ensures !HeadInStep(Run(d, c, steps))
       <==> forall more :: Run(d, c, steps + more).gateway.log == Run(d, c, steps).gateway.log
  {
    var a := RunKeeps(d, c, steps);
    LastHashOfRows(d, Run(d, c, steps), a);
    StrandedExactlyWhen(d, c, steps);
  }

  // ------------------------------------------------------ one at a time

  /** Every ingest is begun after all before it have ended, and none is abandoned. */
  ghost predicate OneAtATime(d: Device, c: Checks, steps: seq<Step>) {
    forall i | 0 <= i < |steps| :: InTurn(d, c, steps, i)
  }

  predicate InTurn(d: Device, c: Checks, steps: seq<Step>, i: nat)
    requires i < |steps|
  {
    !steps[i].Abandon? && (steps[i].Open? ==> Idle(Run(d, c, steps[..i]).gateway))
  }

  lemma {:induction false} InTurnBefore(d: Device, c: Checks, steps: seq<Step>)
    requires OneAtATime(d, c, steps) && steps != []
    ensures OneAtATime(d, c, steps[..|steps| - 1]) && InTurn(d, c, steps, |steps| - 1)
  {
    var before := steps[..|steps| - 1];
    forall i | 0 <= i < |before| ensures InTurn(d, c, before, i) {
      assert InTurn(d, c, steps, i) && before[..i] == steps[..i];
    }
  }

  lemma {:induction false} StepInTurn(d: Device, c: Checks, s: State, step: Step, a: nat)
    requires Inv(d, s, a) && Enrolled(d, c) && Sequential(s.gateway)
    requires !step.Abandon? && (step.Open? ==> Idle(s.gateway))
    ensures Sequential(Next(d, c, s, step).gateway)
  {
    match step
    case Open(request, arrived) => OpenedInTurn(s.gateway, arrived);
    case ReadHead(j) => HeadReadInTurn(s.gateway, j);
    case Look(j) =>
      WireIsGenuine(d, c, s.rows);
      LookedInTurn(c, Wire(s.rows), s.gateway, j);
    case Append(j) => AppendedInTurn(s.gateway, j);
    case Finish(j) => FinishedInTurn(Wire(s.rows), s.gateway, j);
    case Author(_) => OthersInTurn(d, c, s, step);
    case Push => OthersInTurn(d, c, s, step);
    case MarkAcked(_) => OthersInTurn(d, c, s, step);
    case GiveUp => OthersInTurn(d, c, s, step);
    case SetActive(_) => OthersInTurn(d, c, s, step);
  }

  /** The device's own steps and its standing leave jobs, log and head alone. */
  lemma {:induction false} OthersInTurn(d: Device, c: Checks, s: State, step: Step)
    requires Sequential(s.gateway)
    requires step.Author? || step.Push? || step.MarkAcked? || step.GiveUp? || step.SetActive?
    ensures Sequential(Next(d, c, s, step).gateway)
  {
    var after := Next(d, c, s, step).gateway;
    assert after.jobs == s.gateway.jobs && after.log == s.gateway.log && after.head == s.gateway.head;
  }

  lemma {:induction false} RunInTurn(d: Device, c: Checks, steps: seq<Step>)
    requires Enrolled(d, c) && OneAtATime(d, c, steps)
    ensures Sequential(Run(d, c, steps).gateway)
  {
    if steps != [] {
      var before := steps[..|steps| - 1];
      InTurnBefore(d, c, steps);
      RunInTurn(d, c, before);
      var a := RunKeeps(d, c, before);
      StepInTurn(d, c, Run(d, c, before), steps[|steps| - 1], a);
    }
  }

  /** While ingests neither overlap nor are abandoned, none is ever refused, and between
      them the recorded head is in step. */
  lemma {:induction false} NeverRefusedOneAtATime(d: Device, c: Checks, steps: seq<Step>)
    requires Enrolled(d, c) && OneAtATime(d, c, steps)
    ensures var s := Run(d, c, steps);
            && (forall j | 0 <= j < |s.gateway.jobs| :: s.gateway.jobs[j].refusal.None?)
            && (Idle(s.gateway) ==> HeadInStep(s))
  {
    var a := RunKeeps(d, c, steps);
    RunInTurn(d, c, steps);
    LastHashOfRows(d, Run(d, c, steps), a);
  }

  // ------------------------------------------------------------- delivery

  /** From every reachable state in step, with the drain idle and the device active, finitely
      many steps acknowledge every row, and the gateway then holds the whole outbox. */
  lemma {:induction false} EverythingIsDelivered(d: Device, c: Checks, steps: seq<Step>) returns (more: seq<Step>)
    requires Enrolled(d, c) && HeadInStep(Run(d, c, steps))
    requires Run(d, c, steps).gateway.active && !Run(d, c, steps).inFlight
    ensures var s, after := Run(d, c, steps), Run(d, c, steps + more);
            && |after.rows| == |s.rows| == |after.gateway.log|
            && (forall i | 0 <= i < |after.rows| ::
                  after.rows[i].acked && ToDeviceEvent(after.rows[i]) == Some(after.gateway.log[i]))
  {
    var s := Run(d, c, steps);
    var a := RunKeeps(d, c, steps);
    LastHashOfRows(d, s, a);
    var after;
    more, after := RoundsDeliver(d, c, s, a);
    RunsOn(d, c, Initial(), steps, more);
    StoredIsPrefix(d, after, |after.rows|);
  }
}
