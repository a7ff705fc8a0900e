/** Cut-offs and overlaps: which ingests strand a device, and which are refused. */
module Overlaps {
  import opened Wrappers
  import opened Texts
  import opened Json
  import opened Events
  import opened Store
  import opened Outbox
  import opened Ingest
  import opened Gateway
  import opened GatewayRuns
  import opened Protocol
  import opened ProtocolSteps
  import opened Exchange
  import opened Delivery
  import opened SideBySide

  // ------------------------------------------------------------- cut off

  /** From a reachable state in step, a cut-off ingest of an active device stores something
      exactly when a new event is among those it got to. */
  lemma {:induction false} CutOffStoresExactlyWhen(
      d: Device, c: Checks, steps: seq<Step>, request: nat, arrived: seq<DeviceEvent>, n: nat)
    requires Enrolled(d, c) && HeadInStep(Run(d, c, steps)) && Run(d, c, steps).gateway.active
    requires Delivers(Run(d, c, steps), request, arrived) && n <= |Run(d, c, steps).requests[request]|
    ensures var s := Run(d, c, steps);
            CutOff(d, c, s, request, arrived, n).gateway.log != s.gateway.log
            <==> Unstored(s.gateway.log, s.requests[request][..n]) != []
  {
    var s := Run(d, c, steps);
    var a := RunKeeps(d, c, steps);
    CutOffOutcome(d, c, s, request, arrived, n, a);
    assert s.gateway.log == Wire(s.rows)[..|s.gateway.log|];
  }

  /** From a reachable state in step, a cut-off leaves the recorded head in step exactly
      when it stores nothing, or what it stores ends in the hash it began from, which is a
      collision of `sha` in the outbox. */
  lemma {:induction false} CutOffStrandsExactlyWhen(
      d: Device, c: Checks, steps: seq<Step>, request: nat, arrived: seq<DeviceEvent>, n: nat)
    requires Enrolled(d, c) && HeadInStep(Run(d, c, steps)) && Run(d, c, steps).gateway.active
    requires Delivers(Run(d, c, steps), request, arrived) && n <= |Run(d, c, steps).requests[request]|
    ensures var s := Run(d, c, steps);
            var cut := CutOff(d, c, s, request, arrived, n);
            && |s.gateway.log| <= |cut.gateway.log| <= |s.rows|
            && (HeadInStep(cut) <==> PrevHashAt(s.rows, |cut.gateway.log|) == PrevHashAt(s.rows, |s.gateway.log|))
            && (cut.gateway.log == s.gateway.log ==> HeadInStep(cut))
            && (cut.gateway.log != s.gateway.log ==> !HeadInStep(cut) || OutboxCollides(d.sha, s.rows))
  {
    var s := Run(d, c, steps);
    var a := RunKeeps(d, c, steps);
    CutOffOutcome(d, c, s, request, arrived, n, a);
    WireRow(d, s.rows);
    HeadLeftBehind(d, s, CutOff(d, c, s, request, arrived, n), a);
  }

  /** The log has grown and the recorded head has not moved. */
  lemma {:induction false} HeadLeftBehind(d: Device, s: State, cut: State, a: nat)
    requires Inv(d, s, a) && HeadInStep(s) && cut.rows == s.rows && cut.gateway.head == s.gateway.head
    requires |s.gateway.log| <= |cut.gateway.log| <= |s.rows|
    requires s.gateway.log <= cut.gateway.log
    ensures HeadInStep(cut) <==> PrevHashAt(s.rows, |cut.gateway.log|) == PrevHashAt(s.rows, |s.gateway.log|)
    ensures cut.gateway.log != s.gateway.log ==> !HeadInStep(cut) || OutboxCollides(d.sha, s.rows)
  {
    if cut.gateway.log != s.gateway.log && HeadInStep(cut) {
      OneHeadTwoPlaces(d, s.rows, |s.gateway.log|, |cut.gateway.log|);
    }
  }

  // ------------------------------------------------------------- overlap

  /** From a reachable state in step, with no ingest running and the device active: two
      ingests that overlap, both of which run to their ends, store all that was new and
      strand the device. No continuation ever stores another event, unless the outbox holds
      a collision of `sha`. */
  lemma {:induction false} OneOverlapStrandsTheDevice(
      d: Device, c: Checks, steps: seq<Step>, p: nat, q: nat, more: seq<Step>)
    requires Enrolled(d, c) && HeadInStep(Run(d, c, steps)) && Run(d, c, steps).gateway.active
    requires Quiet(Run(d, c, steps).gateway) && Overlapping(Run(d, c, steps), p, q)
    ensures var s := Run(d, c, steps);
            var after := Run(d, c, steps + OverlapSteps(s, p, q));
            && after.rows == s.rows && Quiet(after.gateway)
            && |after.gateway.log| == |s.gateway.log| + |Unstored(s.gateway.log, s.requests[q])|
            && (|| OutboxCollides(d.sha, s.rows)
                || (!HeadInStep(after)
                    && Run(d, c, steps + OverlapSteps(s, p, q) + more).gateway.log == after.gateway.log))
  {
    var s := Run(d, c, steps);
    var a := RunKeeps(d, c, steps);
    OverlapRuns(d, c, s, p, q, a);
    RunsOn(d, c, Initial(), steps, OverlapSteps(s, p, q));
    StrandedNow(d, c, steps + OverlapSteps(s, p, q), more, |s.gateway.log| + 1);
  }

  /** With no ingest running and the head of an earlier row recorded, the device is stranded. */
  lemma {:induction false} StrandedNow(d: Device, c: Checks, steps: seq<Step>, more: seq<Step>, m: nat)
    requires Enrolled(d, c) && Quiet(Run(d, c, steps).gateway)
    requires m < |Run(d, c, steps).gateway.log| <= |Run(d, c, steps).rows|
    requires Run(d, c, steps).gateway.head == PrevHashAt(Run(d, c, steps).rows, m)
    ensures var s := Run(d, c, steps);
            || OutboxCollides(d.sha, s.rows)
            || (!HeadInStep(s) && Run(d, c, steps + more).gateway.log == s.gateway.log)
  {
    var s := Run(d, c, steps);
    var a := RunKeeps(d, c, steps);
    if HeadInStep(s) {
      OneHeadTwoPlaces(d, s.rows, m, |s.gateway.log|);
    } else {
      QuietStrandedExactlyWhen(d, c, steps);
    }
  }

  /** None of its steps is an ingest abandoned: both run to their ends. */
  lemma {:induction false} OverlapAbandonsNone(s: State, p: nat, q: nat)
    requires Overlapping(s, p, q)
    ensures forall step | step in OverlapSteps(s, p, q) :: !step.Abandon?
  {
    var j, first := |s.gateway.jobs|, s.requests[p];
    var at := |first| - |Unstored(s.gateway.log, first)|;
    HandleAbandonsNone(j, at);
    HandleAbandonsNone(j + 1, |s.requests[q]|);
    HandleAbandonsNone(j, |first| - at - 1);
  }

  lemma {:induction false} HandleAbandonsNone(j: nat, n: nat)
    ensures forall step | step in HandleSteps(j, n) :: !step.Abandon?
  {
    if n > 0 {
      HandleAbandonsNone(j, n - 1);
    }
  }

  /** From a reachable state in step with the device active, two overlapping ingests that
      both run to their ends: one is refused, although the recorded head is in step before
      and after them, unless the outbox holds a collision of `sha`. */
  lemma {:induction false} OneOverlapIsRefused(d: Device, c: Checks, steps: seq<Step>, p: nat, q: nat)
    requires Enrolled(d, c) && HeadInStep(Run(d, c, steps)) && Run(d, c, steps).gateway.active
    requires Overlapping(Run(d, c, steps), p, q)
    ensures var s := Run(d, c, steps);
            var after := Run(d, c, steps + RefusalSteps(s, p, q));
            || OutboxCollides(d.sha, s.rows)
            || (HeadInStep(after) && after.rows == s.rows && |after.gateway.jobs| == |s.gateway.jobs| + 2
                && after.gateway.jobs[|s.gateway.jobs|].refusal.Some?)
  {
    var s := Run(d, c, steps);
    var a := RunKeeps(d, c, steps);
    if !OutboxCollides(d.sha, s.rows) {
      var after := RefusalFrom(d, c, s, p, q, a);
      RunsOn(d, c, Initial(), steps, RefusalSteps(s, p, q));
      var b := RunKeeps(d, c, steps + RefusalSteps(s, p, q));
      LastHashOfRows(d, after, b);
    }
  }

  // ------------------------------------------------------ how it comes to

  /** The recorded head in step, the device active, no ingest running, nothing in flight, and
      a row of the next batch not stored yet. */
  ghost predicate AtRest(s: State) {
    && HeadInStep(s) && s.gateway.active && Quiet(s.gateway) && !s.inFlight
    && Unstored(s.gateway.log, NextBatch(s)) != []
  }

  /** The next batch is pushed, stored whole, and cut off before the head is written. */
  function Interruption(s: State): seq<Step> {
    [Push] + CutOffSteps(AfterPush(s, NextBatch(s)), |s.requests|, NextBatch(s), |NextBatch(s)|)
  }

  lemma {:induction false} NextBatchRuns(d: Device, c: Checks, s: State, a: nat)
    requires Inv(d, s, a) && AtRest(s)
    ensures Next(d, c, s, Push) == AfterPush(s, NextBatch(s)) && Inv(d, AfterPush(s, NextBatch(s)), a)
    ensures Segment(Wire(s.rows), a, NextBatch(s)) && a < |s.rows|
    ensures |NextBatch(s)| == if |s.rows| - a <= PUSH_BATCH then |s.rows| - a else PUSH_BATCH
    ensures |Unstored(s.gateway.log, NextBatch(s))| == a + |NextBatch(s)| - |s.gateway.log|
  {
    PendingOnTheWire(d, s.rows, a);
    PushRuns(d, c, s, a);
    WireIsDistinct(d, s.rows);
    UnstoredOfSegment(Wire(s.rows), s.gateway.log, a, NextBatch(s));
  }

  lemma {:induction false} InterruptionRuns(d: Device, c: Checks, s: State, a: nat)
    requires Inv(d, s, a) && Enrolled(d, c) && AtRest(s)
    ensures var cut := RunOn(d, c, s, Interruption(s));
            var upto := |s.gateway.log| + |Unstored(s.gateway.log, NextBatch(s))|;
            upto <= |Wire(s.rows)| && CutOffLeaves(s, cut, Wire(s.rows)[..upto])
  {
    var batch := NextBatch(s);
    NextBatchRuns(d, c, s, a);
    RunOnOne(d, c, s, Push);
    RunsOn(d, c, s, [Push], CutOffSteps(AfterPush(s, batch), |s.requests|, batch, |batch|));
    assert batch[..|batch|] == batch;
    CutOffOutcome(d, c, AfterPush(s, batch), |s.requests|, batch, |batch|, a);
  }

  /** From any reachable state at rest, one push cut off between its appends and the head
      update strands the device: it stores those rows, and no continuation ever stores
      another event, unless the outbox holds a collision of `sha`. */
  lemma {:induction false} OneInterruptionStrandsTheDevice(d: Device, c: Checks, steps: seq<Step>, more: seq<Step>)
    requires Enrolled(d, c) && AtRest(Run(d, c, steps))
    ensures var s := Run(d, c, steps);
            var cut := Run(d, c, steps + Interruption(s));
            && cut.rows == s.rows
            && |cut.gateway.log| == |s.gateway.log| + |Unstored(s.gateway.log, NextBatch(s))|
            && (|| OutboxCollides(d.sha, s.rows)
                || (!HeadInStep(cut) && Run(d, c, steps + Interruption(s) + more).gateway.log == cut.gateway.log))
  {
    var s := Run(d, c, steps);
    var a := RunKeeps(d, c, steps);
    InterruptionRuns(d, c, s, a);
    WireRow(d, s.rows);
    RunsOn(d, c, Initial(), steps, Interruption(s));
    CutOffStaysQuiet(s, Run(d, c, steps + Interruption(s)), Run(d, c, steps + Interruption(s)).gateway.log);
    StrandedNow(d, c, steps + Interruption(s), more, |s.gateway.log|);
  }

  lemma {:induction false} CutOffStaysQuiet(s: State, cut: State, log: seq<DeviceEvent>)
    requires CutOffLeaves(s, cut, log) && Quiet(s.gateway)
    ensures Quiet(cut.gateway)
  {
    forall k | 0 <= k < |cut.gateway.jobs| ensures !Running(cut.gateway.jobs[k]) {
      if k < |s.gateway.jobs| {
        assert cut.gateway.jobs[k] == s.gateway.jobs[k];
      }
    }
  }

  /** A push times out, one more event is authored, and the drain pushes again. */
  function RetrySteps(draft: Draft): seq<Step> {
    [Push, GiveUp] + [Author(draft), Push]
  }

  lemma {:induction false} AuthorsOne(d: Device, c: Checks, s: State, draft: Draft, a: nat) returns (after: State)
    requires Inv(d, s, a) && Authored(d, s.rows, draft).Success?
    ensures after == Next(d, c, s, Author(draft)) && Inv(d, after, a)
    ensures after == s.(rows := after.rows) && |after.rows| == |s.rows| + 1 && Wire(s.rows) <= Wire(after.rows)
    ensures HeadInStep(s) ==> HeadInStep(after)
  {
    after := Next(d, c, s, Author(draft));
    AuthorStepKeeps(d, c, s, draft, a);
    WireExtends(d, s.rows, after.rows);
    WireRow(d, s.rows);
  }

  lemma {:induction false} RunRetrySteps(
      d: Device, c: Checks, s: State, draft: Draft, pushed: State, authored: State, after: State)
    requires pushed == Next(d, c, s, Push) && authored == Next(d, c, pushed.(inFlight := false), Author(draft))
    requires after == Next(d, c, authored, Push)
    ensures after == RunOn(d, c, s, RetrySteps(draft))
  {
    RunOnFour(d, c, s, Push, GiveUp, Author(draft), Push, pushed, pushed.(inFlight := false), authored);
  }

  lemma {:induction false} RunOnFour(
      d: Device, c: Checks, s: State, first: Step, second: Step, third: Step, fourth: Step, s1: State, s2: State, s3: State)
    requires s1 == Next(d, c, s, first) && s2 == Next(d, c, s1, second) && s3 == Next(d, c, s2, third)
    ensures RunOn(d, c, s, [first, second] + [third, fourth]) == Next(d, c, s3, fourth)
  {
    RunOnTwo(d, c, s, first, second);
    RunOnTwo(d, c, s2, third, fourth);
    RunsOn(d, c, s, [first, second], [third, fourth]);
  }

  /** Both batches are in the network: the second is the first and one more event. */
  ghost predicate SentTwice(s: State, after: State, a: nat) {
    && after.gateway == s.gateway && |after.rows| == |s.rows| + 1 && |after.requests| == |s.requests| + 2
    && Segment(Wire(after.rows), a, after.requests[|s.requests|])
    && Segment(Wire(after.rows), a, after.requests[|s.requests| + 1])
    && |after.requests[|s.requests|]| == |s.rows| - a && |after.requests[|s.requests| + 1]| == |s.rows| + 1 - a
  }

  lemma {:induction false} RetryRuns(d: Device, c: Checks, s: State, draft: Draft, a: nat) returns (after: State)
    requires Inv(d, s, a) && AtRest(s) && Authored(d, s.rows, draft).Success? && |s.rows| - a < PUSH_BATCH
    ensures after == RunOn(d, c, s, RetrySteps(draft)) && Inv(d, after, a)
    ensures SentTwice(s, after, a) && HeadInStep(after)
  {
    var pushed := AfterPush(s, NextBatch(s));
    NextBatchRuns(d, c, s, a);
    assert Inv(d, pushed.(inFlight := false), a);
    var authored := AuthorsOne(d, c, pushed.(inFlight := false), draft, a);
    after := PushesAgain(d, c, s, pushed, authored, a);
    RunRetrySteps(d, c, s, draft, pushed, authored, after);
  }

  lemma {:induction false} PushesAgain(
      d: Device, c: Checks, s: State, pushed: State, authored: State, a: nat) returns (after: State)
    requires Inv(d, s, a) && Inv(d, authored, a) && pushed == AfterPush(s, NextBatch(s)) && HeadInStep(authored)
    requires authored == pushed.(inFlight := false, rows := authored.rows)
    requires |authored.rows| == |s.rows| + 1 && Wire(s.rows) <= Wire(authored.rows)
    requires Segment(Wire(s.rows), a, NextBatch(s)) && |NextBatch(s)| == |s.rows| - a < PUSH_BATCH
    ensures after == Next(d, c, authored, Push) && Inv(d, after, a)
    ensures SentTwice(s, after, a) && HeadInStep(after)
  {
    PushRuns(d, c, authored, a);
    after := AfterPush(authored, NextBatch(authored));
    assert forall k | 0 <= k < |Wire(s.rows)| :: Wire(authored.rows)[k] == Wire(s.rows)[k];
  }

  /** Two requests that can overlap are in the network, the second with one event more. */
  ghost predicate Retried(s: State, after: State) {
    && HeadInStep(after) && after.gateway == s.gateway
    && Overlapping(after, |s.requests|, |s.requests| + 1)
    && |Unstored(s.gateway.log, after.requests[|s.requests| + 1])| == |Unstored(s.gateway.log, NextBatch(s))| + 1
  }

  /** From a reachable state at rest with a batch not full, a push that times out, one more
      event and a second push bring about two requests that can overlap. */
  lemma {:induction false} RetriesOverlap(d: Device, c: Checks, steps: seq<Step>, draft: Draft)
    requires Enrolled(d, c) && AtRest(Run(d, c, steps)) && |NextBatch(Run(d, c, steps))| < PUSH_BATCH
    requires Authored(d, Run(d, c, steps).rows, draft).Success?
    ensures Retried(Run(d, c, steps), Run(d, c, steps + RetrySteps(draft)))
  {
    var s := Run(d, c, steps);
    var a := RunKeeps(d, c, steps);
    NextBatchRuns(d, c, s, a);
    var after := RetryRuns(d, c, s, draft, a);
    RunsOn(d, c, Initial(), steps, RetrySteps(draft));
    SentTwiceOverlap(d, s, after, a);
  }

  lemma {:induction false} SentTwiceOverlap(d: Device, s: State, after: State, a: nat)
    requires Inv(d, s, a) && Inv(d, after, a) && AtRest(s) && SentTwice(s, after, a) && HeadInStep(after)
    requires Segment(Wire(s.rows), a, NextBatch(s)) && |NextBatch(s)| == |s.rows| - a
    ensures Retried(s, after)
  {
    var wire, log := Wire(after.rows), s.gateway.log;
    WireIsDistinct(d, after.rows);
    UnstoredOfSegment(wire, log, a, after.requests[|s.requests|]);
    UnstoredOfSegment(wire, log, a, after.requests[|s.requests| + 1]);
    WireIsDistinct(d, s.rows);
    UnstoredOfSegment(Wire(s.rows), log, a, NextBatch(s));
  }

  /** Such a state is one call away: the first event a device authors brings it about. */
  lemma {:induction false} FirstEventIsAtRest(d: Device, c: Checks, draft: Draft)
    requires Enrolled(d, c) && Plain(draft.payload)
    ensures AtRest(Run(d, c, [Author(draft)])) && |NextBatch(Run(d, c, [Author(draft)]))| == 1
  {
    OneRow(d, c, draft);
    var a := RunKeeps(d, c, [Author(draft)]);
    OneRowAtRest(d, Run(d, c, [Author(draft)]), a);
  }

  lemma {:induction false} OneRowAtRest(d: Device, s: State, a: nat)
    requires Inv(d, s, a) && |s.rows| == 1 && s == Initial().(rows := s.rows)
    ensures AtRest(s) && |NextBatch(s)| == 1
  {
    WireRow(d, s.rows);
    WireIsDistinct(d, s.rows);
    PendingOnTheWire(d, s.rows, a);
    UnstoredOfSegment(Wire(s.rows), [], a, NextBatch(s));
  }

  /** Cut off, that one event already strands it. */
  lemma {:induction false} FirstEventCanStrand(d: Device, c: Checks, draft: Draft, more: seq<Step>)
    requires Enrolled(d, c) && Plain(draft.payload)
    ensures var run := [Author(draft)] + Interruption(Run(d, c, [Author(draft)]));
            !HeadInStep(Run(d, c, run)) && Run(d, c, run + more).gateway.log == Run(d, c, run).gateway.log != []
  {
    FirstEventIsAtRest(d, c, draft);
    var a := RunKeeps(d, c, [Author(draft)]);
    OneRow(d, c, draft);
    OneInterruptionStrandsTheDevice(d, c, [Author(draft)], more);
  }

  lemma {:induction false} OneRow(d: Device, c: Checks, draft: Draft)
    requires Plain(draft.payload)
    ensures Run(d, c, [Author(draft)]) == Initial().(rows := Run(d, c, [Author(draft)]).rows)
    ensures |Run(d, c, [Author(draft)]).rows| == 1
    ensures Run(d, c, [Author(draft)]).rows[0].eventId == draft.eventId
  {
    AuthorSucceedsExactlyWhen(d, [], draft);
    RunOnOne(d, c, Initial(), Author(draft));
  }

  lemma {:induction false} SecondAuthored(d: Device, c: Checks, x: Draft, y: Draft)
    requires Enrolled(d, c) && Plain(x.payload) && Plain(y.payload) && x.eventId != y.eventId
    ensures Authored(d, Run(d, c, [Author(x)]).rows, y).Success?
  {
    OneRow(d, c, x);
    var a := RunKeeps(d, c, [Author(x)]);
    AuthorSucceedsExactlyWhen(d, Run(d, c, [Author(x)]).rows, y);
  }

  lemma {:induction false} RetriedFromOne(s: State, after: State)
    requires AtRest(s) && |NextBatch(s)| == 1 && s.requests == [] && s.gateway == Initial().gateway && Retried(s, after)
    ensures Overlapping(after, 0, 1) && HeadInStep(after) && after.gateway == Initial().gateway
    ensures |Unstored(after.gateway.log, after.requests[1])| == 2
  {
  }

  lemma {:induction false} TwoEventsSent(d: Device, c: Checks, x: Draft, y: Draft)
    requires Enrolled(d, c) && Plain(x.payload) && Plain(y.payload) && x.eventId != y.eventId
    ensures var s := Run(d, c, [Author(x)] + RetrySteps(y));
            && Overlapping(s, 0, 1) && HeadInStep(s) && s.gateway == Initial().gateway
            && |Unstored(s.gateway.log, s.requests[1])| == 2
  {
    OneRow(d, c, x);
    FirstEventIsAtRest(d, c, x);
    SecondAuthored(d, c, x, y);
    RetriesOverlap(d, c, [Author(x)], y);
    RetriedFromOne(Run(d, c, [Author(x)]), Run(d, c, [Author(x)] + RetrySteps(y)));
  }

  /** Two events, pushed first one and then both, and two ingests that overlap and run to
      their ends: everything is stored, and the device is stranded, or the two events are a
      collision of `sha`. */
  lemma {:induction false} TwoEventsCanStrand(d: Device, c: Checks, x: Draft, y: Draft, more: seq<Step>)
    requires Enrolled(d, c) && Plain(x.payload) && Plain(y.payload) && x.eventId != y.eventId
    ensures var sent := [Author(x)] + RetrySteps(y);
            && Overlapping(Run(d, c, sent), 0, 1)
            && var run := sent + OverlapSteps(Run(d, c, sent), 0, 1);
            && |Run(d, c, run).gateway.log| == 2
            && (|| OutboxCollides(d.sha, Run(d, c, run).rows)
                || (!HeadInStep(Run(d, c, run)) && Run(d, c, run + more).gateway.log == Run(d, c, run).gateway.log))
  {
    TwoEventsSent(d, c, x, y);
    OneOverlapStrandsTheDevice(d, c, [Author(x)] + RetrySteps(y), 0, 1, more);
  }
}
