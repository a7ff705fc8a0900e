/** What the gateway comes to when one ingest is cut off, or two overlap: the runs step by
    step, from a state in step in which every sent request lies at its place in the outbox. */
module SideBySide {
  import opened Wrappers
  import opened Texts
  import opened Json
  import opened Events
  import opened Store
  import opened Outbox
  import opened Ingest
  import opened Gateway
  import opened GatewayRuns
  import opened Protocol
  import opened ProtocolSteps
  import opened Exchange
  import opened Delivery

  /** The events of a batch that are not stored yet. */
  function Unstored(log: seq<DeviceEvent>, events: seq<DeviceEvent>): (r: seq<DeviceEvent>)
    ensures |r| <= |events|
  {
    if events == [] then []
    else (if Stored(log, events[0].signable.eventId) then [] else [events[0]]) + Unstored(log, events[1..])
  }

  lemma {:induction false} UnstoredOfSegment(
      wire: seq<DeviceEvent>, log: seq<DeviceEvent>, from: nat, events: seq<DeviceEvent>)
    requires DistinctEvents(wire) && log <= wire && Segment(wire, from, events)
    ensures |Unstored(log, events)|
         == if from + |events| <= |log| then 0 else if from <= |log| then from + |events| - |log| else |events|
    decreases |events|
  {
    if events != [] {
      StoredExactly(wire, log, from);
      assert forall k | 0 <= k < |events[1..]| :: events[1..][k] == wire[from + 1 + k];
      UnstoredOfSegment(wire, log, from + 1, events[1..]);
    }
  }

  /** Where a sent request lies in the outbox. */
  lemma {:induction false} RequestAt(d: Device, s: State, request: nat, a: nat) returns (from: nat)
    requires Inv(d, s, a) && request < |s.requests|
    ensures from <= a <= |s.gateway.log| && Segment(Wire(s.rows), from, s.requests[request])
    ensures |Unstored(s.gateway.log, s.requests[request])|
         == if from + |s.requests[request]| <= |s.gateway.log| then 0
            else from + |s.requests[request]| - |s.gateway.log|
  {
    WireIsDistinct(d, s.rows);
    assert SentFrom(Wire(s.rows), a, s.requests[request]);
    from :| from <= a && Segment(Wire(s.rows), from, s.requests[request]);
    UnstoredOfSegment(Wire(s.rows), s.gateway.log, from, s.requests[request]);
  }

  // ------------------------------------------------------------ cut off

  /** A request is delivered, its first `n` events are handled, and then the ingest is
      abandoned. */
  function CutOffSteps(s: State, request: nat, arrived: seq<DeviceEvent>, n: nat): seq<Step> {
    var j := |s.gateway.jobs|;
    OpenSteps(request, arrived, j) + HandleSteps(j, n) + [Abandon(j)]
  }

  /** The state a cut-off leaves. */
  function CutOff(d: Device, c: Checks, s: State, request: nat, arrived: seq<DeviceEvent>, n: nat): State {
    RunOn(d, c, s, CutOffSteps(s, request, arrived, n))
  }

  ghost predicate CutOffLeaves(s: State, cut: State, log: seq<DeviceEvent>) {
    && cut.rows == s.rows && cut.gateway.log == log && cut.gateway.head == s.gateway.head
    && |cut.gateway.jobs| == |s.gateway.jobs| + 1 && cut.gateway.jobs[..|s.gateway.jobs|] == s.gateway.jobs
    && cut.gateway.jobs[|s.gateway.jobs|].phase.Closed?
  }

  lemma {:induction false} CutOffOutcome(
      d: Device, c: Checks, s: State, request: nat, arrived: seq<DeviceEvent>, n: nat, a: nat)
    requires Inv(d, s, a) && Enrolled(d, c) && HeadInStep(s) && s.gateway.active
    requires Delivers(s, request, arrived) && n <= |s.requests[request]|
    ensures var cut := CutOff(d, c, s, request, arrived, n);
            var upto := |s.gateway.log| + |Unstored(s.gateway.log, s.requests[request][..n])|;
            upto <= |Wire(s.rows)| && CutOffLeaves(s, cut, Wire(s.rows)[..upto])
  {
    var from := RequestAt(d, s, request, a);
    WireIsDistinct(d, s.rows);
    UnstoredOfSegment(Wire(s.rows), s.gateway.log, from, s.requests[request][..n]);
    CutOffRuns(d, c, s, request, arrived, n, a, from);
  }

  lemma {:induction false} CutOffRuns(
      d: Device, c: Checks, s: State, request: nat, arrived: seq<DeviceEvent>, n: nat, a: nat, from: nat)
    requires Inv(d, s, a) && Enrolled(d, c) && HeadInStep(s) && s.gateway.active
    requires Delivers(s, request, arrived) && n <= |s.requests[request]|
    requires from <= a && Segment(Wire(s.rows), from, s.requests[request])
    ensures var upto := Max(|s.gateway.log|, from + n);
            upto <= |Wire(s.rows)| && CutOffLeaves(s, CutOff(d, c, s, request, arrived, n), Wire(s.rows)[..upto])
  {
    LastHashOfRows(d, s, a);
    var now := HandleRequest(d, c, s, request, arrived, a, from, n);
    CutOffIsAbandoned(d, c, s, request, arrived, n, now);
    AbandonedAfter(Wire(s.rows), s, now, |s.gateway.jobs|, from, n);
  }

  lemma {:induction false} CutOffIsAbandoned(
      d: Device, c: Checks, s: State, request: nat, arrived: seq<DeviceEvent>, n: nat, now: State)
    requires now == RunOn(d, c, s, OpenSteps(request, arrived, |s.gateway.jobs|) + HandleSteps(|s.gateway.jobs|, n))
    ensures CutOff(d, c, s, request, arrived, n) == WithGateway(now, Abandoned(now.gateway, |s.gateway.jobs|))
  {
    AbandonsLast(d, c, s, OpenSteps(request, arrived, |s.gateway.jobs|) + HandleSteps(|s.gateway.jobs|, n),
                 |s.gateway.jobs|, now);
  }

  lemma {:induction false} AbandonsLast(d: Device, c: Checks, s: State, steps: seq<Step>, j: nat, now: State)
    requires now == RunOn(d, c, s, steps)
    ensures RunOn(d, c, s, steps + [Abandon(j)]) == WithGateway(now, Abandoned(now.gateway, j))
  {
    RunOnLast(d, c, s, steps, Abandon(j));
  }

  lemma {:induction false} AbandonedAfter(wire: seq<DeviceEvent>, s: State, now: State, j: nat, a: nat, n: nat)
    requires j == |s.gateway.jobs| && BatchStored(wire, s, now, j, a, n)
    ensures CutOffLeaves(s, WithGateway(now, Abandoned(now.gateway, j)), now.gateway.log)
    ensures |now.gateway.log| <= |wire| && now.gateway.log == wire[..|now.gateway.log|]
  {
  }

  // ------------------------------------------------------------ overlap

  /** An ingest is begun, passes over its first `stored` events and looks at the next. */
  function BeginSteps(request: nat, events: seq<DeviceEvent>, j: nat, stored: nat): seq<Step> {
    OpenSteps(request, events, j) + HandleSteps(j, stored) + [Look(j)]
  }

  /** An ingest from beginning to end. */
  function WholeSteps(request: nat, events: seq<DeviceEvent>, j: nat): seq<Step> {
    OpenSteps(request, events, j) + HandleSteps(j, |events|) + [Finish(j)]
  }

  /** An ingest that has looked at an event appends it and goes on to its end. */
  function RestSteps(j: nat, left: nat): seq<Step> {
    [Append(j)] + HandleSteps(j, left) + [Finish(j)]
  }

  /** The gateway with one more ingest, which is about to append its first new event. */
  function Begun(g: Gateway, events: seq<DeviceEvent>, stored: nat): Gateway {
    g.(jobs := g.jobs + [Job(events, stored, g.head, g.covers, Appending, None)])
  }

  /** The first `at` events are stored: the ingest passes over them. */
  lemma {:induction false} PassesStored(c: Checks, wire: seq<DeviceEvent>, g: Gateway, j: nat, from: nat, at: nat)
    requires DistinctEvents(wire) && g.log <= wire && InPhase(g, j, Looking) && g.jobs[j].at == 0
    requires JobFrom(wire, g.log, g.jobs[j], from) && from + at == |g.log| && at < |g.jobs[j].events|
    ensures Handled(c, g, j, at) == g.(jobs := g.jobs[j := g.jobs[j].(at := at)])
    ensures JobFrom(wire, g.log, g.jobs[j].(at := at), from)
  {
    StoredUpTo(wire, g.log, from, g.jobs[j].events, at);
    HandledStored(c, g, j, at, at);
  }

  lemma {:induction false} StoredUpTo(
      wire: seq<DeviceEvent>, log: seq<DeviceEvent>, from: nat, events: seq<DeviceEvent>, n: nat)
    requires DistinctEvents(wire) && log <= wire && Segment(wire, from, events)
    requires n <= |events| && from + n <= |log|
    ensures forall k | 0 <= k < n :: Stored(log, events[k].signable.eventId)
  {
    forall k | 0 <= k < n ensures Stored(log, events[k].signable.eventId) {
      StoredExactly(wire, log, from + k);
    }
  }

  lemma {:induction false} BeginsAppending(c: Checks, wire: seq<DeviceEvent>, g: Gateway, j: nat, from: nat, at: nat)
    requires Genuine(c, wire) && InLine(wire, g, j, from) && g.jobs[j].at == 0
    requires from + at == |g.log| && at < |g.jobs[j].events|
    ensures Looked(c, Handled(c, g, j, at), j) == g.(jobs := g.jobs[j := g.jobs[j].(at := at, phase := Appending)])
  {
    PassesStored(c, wire, g, j, from, at);
    JobReplaced(wire, g, j, g.jobs[j].(at := at));
    LookOutcome(c, wire, g.(jobs := g.jobs[j := g.jobs[j].(at := at)]), j, from);
  }

  lemma {:induction false} RunBeginSteps(
      d: Device, c: Checks, s: State, request: nat, events: seq<DeviceEvent>, g: Gateway, j: nat, at: nat)
    requires RunOn(d, c, s, OpenSteps(request, events, j)) == WithGateway(s, g)
    ensures RunOn(d, c, s, BeginSteps(request, events, j, at)) == WithGateway(s, Looked(c, Handled(c, g, j, at), j))
  {
    RunsOn(d, c, s, OpenSteps(request, events, j), HandleSteps(j, at));
    RunHandleSteps(d, c, WithGateway(s, g), j, at);
    RunOnLast(d, c, s, OpenSteps(request, events, j) + HandleSteps(j, at), Look(j));
  }

  lemma {:induction false} StartedBegins(d: Device, c: Checks, s: State, request: nat, a: nat, from: nat, at: nat)
    requires Inv(d, s, a) && Enrolled(d, c) && HeadInStep(s) && request < |s.requests|
    requires from <= a && Segment(Wire(s.rows), from, s.requests[request])
    requires from + at == |s.gateway.log| && at < |s.requests[request]|
    ensures Looked(c, Handled(c, Started(s.gateway, s.requests[request]), |s.gateway.jobs|, at), |s.gateway.jobs|)
         == Begun(s.gateway, s.requests[request], at)
  {
    var j, started := |s.gateway.jobs|, Started(s.gateway, s.requests[request]);
    LastHashOfRows(d, s, a);
    WireIsGenuine(d, c, s.rows);
    StartedInLine(d, c, s, request, a, from);
    BeginsAppending(c, Wire(s.rows), started, j, from, at);
    assert Begun(s.gateway, s.requests[request], at).jobs
        == started.jobs[j := started.jobs[j].(at := at, phase := Appending)];
  }

  lemma {:induction false} Begins(d: Device, c: Checks, s: State, request: nat, a: nat, from: nat, at: nat)
    requires Inv(d, s, a) && Enrolled(d, c) && HeadInStep(s) && s.gateway.active && request < |s.requests|
    requires from <= a && Segment(Wire(s.rows), from, s.requests[request])
    requires from + at == |s.gateway.log| && at < |s.requests[request]|
    ensures RunOn(d, c, s, BeginSteps(request, s.requests[request], |s.gateway.jobs|, at))
         == WithGateway(s, Begun(s.gateway, s.requests[request], at))
  {
    var j, events := |s.gateway.jobs|, s.requests[request];
    RunOpenSteps(d, c, s, request, events, a);
    RunBeginSteps(d, c, s, request, events, Started(s.gateway, events), j, at);
    StartedBegins(d, c, s, request, a, from, at);
  }

  /** A whole ingest beside which nothing moves: what was new is stored, and the head is
      that of the last event stored. */
  ghost predicate Wholly(wire: seq<DeviceEvent>, s: State, after: State, upto: nat) {
    && after.rows == s.rows && after.requests == s.requests
    && after.gateway.log <= wire && |after.gateway.log| == Max(|s.gateway.log|, upto)
    && after.gateway.head == LastHash(after.gateway.log)
    && |after.gateway.jobs| == |s.gateway.jobs| + 1 && after.gateway.jobs[..|s.gateway.jobs|] == s.gateway.jobs
    && after.gateway.jobs[|s.gateway.jobs|].phase.Closed?
  }

  lemma {:induction false} WholeRequest(d: Device, c: Checks, s: State, request: nat, a: nat, from: nat)
    returns (after: State)
    requires Inv(d, s, a) && Enrolled(d, c) && HeadInStep(s) && s.gateway.active && request < |s.requests|
    requires from <= a && Segment(Wire(s.rows), from, s.requests[request]) && s.requests[request] != []
    ensures after == RunOn(d, c, s, WholeSteps(request, s.requests[request], |s.gateway.jobs|))
    ensures Wholly(Wire(s.rows), s, after, from + |s.requests[request]|)
  {
    var j, events := |s.gateway.jobs|, s.requests[request];
    LastHashOfRows(d, s, a);
    var now := HandleRequest(d, c, s, request, events, a, from, |events|);
    RunWholeSteps(d, c, s, request, events, j, now);
    after := AfterFinish(now, j);
    FinishesWholly(Wire(s.rows), s, now, j, from, events);
  }

  lemma {:induction false} RunWholeSteps(
      d: Device, c: Checks, s: State, request: nat, events: seq<DeviceEvent>, j: nat, now: State)
    requires now == RunOn(d, c, s, OpenSteps(request, events, j) + HandleSteps(j, |events|))
    ensures RunOn(d, c, s, WholeSteps(request, events, j)) == AfterFinish(now, j)
  {
    RunOnLast(d, c, s, OpenSteps(request, events, j) + HandleSteps(j, |events|), Finish(j));
  }

  lemma {:induction false} FinishesWholly(
      wire: seq<DeviceEvent>, s: State, now: State, j: nat, from: nat, events: seq<DeviceEvent>)
    requires j == |s.gateway.jobs| && BatchStored(wire, s, now, j, from, |events|) && events != []
    requires now.gateway.jobs[j].events == events
    ensures Wholly(wire, s, AfterFinish(now, j), from + |events|)
  {
    FinishAnswers(wire, s, now, j, from, events);
  }

  lemma {:induction false} LateAppended(wire: seq<DeviceEvent>, g: Gateway, j: nat, from: nat)
    requires DistinctEvents(wire) && Sound(wire, g) && AtEvent(g, j, Appending) && JobFrom(wire, g.log, g.jobs[j], from)
    requires from + |g.jobs[j].events| <= |g.log|
    ensures from + g.jobs[j].at < |wire|
    ensures Appended(g, j) == g.(jobs := g.jobs[j := AppendResult(wire, g.jobs[j], from + g.jobs[j].at)])
  {
    AppendOutcome(wire, g, j, from);
  }

  /** With all its events stored, an ingest passes over those it has not come to. */
  lemma {:induction false} PassesOver(c: Checks, g: Gateway, j: nat, done: Job)
    requires j < |g.jobs| && done.phase.Looking? && done.at <= |done.events|
    requires forall k | 0 <= k < |done.events| :: Stored(g.log, done.events[k].signable.eventId)
    ensures Handled(c, g.(jobs := g.jobs[j := done]), j, |done.events| - done.at)
         == g.(jobs := g.jobs[j := done.(at := |done.events|)])
  {
    var now := g.(jobs := g.jobs[j := done]);
    assert now.jobs[j] == done;
    HandledStored(c, now, j, |done.events| - done.at, |done.events|);
    assert now.jobs[j := done.(at := |done.events|)] == g.jobs[j := done.(at := |done.events|)];
  }

  /** At its end the head is taken back to the event the ingest had looked at. */
  lemma {:induction false} LateFinish(g: Gateway, j: nat, done: Job)
    requires j < |g.jobs| && done.phase.Looking? && done.head.Some?
    ensures Finished(g.(jobs := g.jobs[j := done.(at := |done.events|)]), j)
         == g.(jobs := g.jobs[j := done.(at := |done.events|, phase := Closed)], head := done.head, covers := done.covers)
  {
  }

  lemma {:induction false} RunRestSteps(d: Device, c: Checks, s: State, j: nat, left: nat)
    ensures RunOn(d, c, s, RestSteps(j, left))
         == AfterFinish(WithGateway(s, Handled(c, Appended(s.gateway, j), j, left)), j)
  {
    var appended := WithGateway(s, Appended(s.gateway, j));
    RunOnOne(d, c, s, Append(j));
    RunsOn(d, c, s, [Append(j)], HandleSteps(j, left));
    RunHandleSteps(d, c, appended, j, left);
    RunOnLast(d, c, s, [Append(j)] + HandleSteps(j, left), Finish(j));
  }

  lemma {:induction false} JobIsFrom(wire: seq<DeviceEvent>, log: seq<DeviceEvent>, job: Job, from: nat)
    requires DistinctEvents(wire) && log <= wire && JobSound(wire, log, job)
    requires Segment(wire, from, job.events) && job.events != []
    ensures JobFrom(wire, log, job, from)
  {
    var other: nat :| JobFrom(wire, log, job, other);
    OneSegment(wire, from, other, job.events);
  }

  /** An ingest comes back to its append with all its events stored meanwhile. */
  lemma {:induction false} LateRest(
      c: Checks, wire: seq<DeviceEvent>, g: Gateway, j: nat, from: nat, done: Job, left: nat)
    requires DistinctEvents(wire) && Sound(wire, g) && AtEvent(g, j, Appending) && JobFrom(wire, g.log, g.jobs[j], from)
    requires from + |g.jobs[j].events| <= |g.log|
    requires done == AppendResult(wire, g.jobs[j], from + g.jobs[j].at) && left == |done.events| - done.at
    ensures Handled(c, Appended(g, j), j, left) == g.(jobs := g.jobs[j := done.(at := |done.events|)])
  {
    LateAppended(wire, g, j, from);
    StoredUpTo(wire, g.log, from, done.events, |done.events|);
    PassesOver(c, g, j, done);
  }

  /** One ingest has looked at its first new event when another runs from its beginning to
      its end, and only then goes on. */
  function OverlapSteps(s: State, p: nat, q: nat): seq<Step>
    requires p < |s.requests| && q < |s.requests| && Unstored(s.gateway.log, s.requests[p]) != []
  {
    var j, first := |s.gateway.jobs|, s.requests[p];
    var at := |first| - |Unstored(s.gateway.log, first)|;
    BeginSteps(p, first, j, at) + WholeSteps(q, s.requests[q], j + 1) + RestSteps(j, |first| - at - 1)
  }

  /** Both requests hold the next event, the second one holds at least one more, and it
      reaches as far as the first. */
  predicate Overlapping(s: State, p: nat, q: nat) {
    && p < |s.requests| && q < |s.requests|
    && 0 < |Unstored(s.gateway.log, s.requests[p])| <= |Unstored(s.gateway.log, s.requests[q])|
    && 1 < |Unstored(s.gateway.log, s.requests[q])|
  }

  /** `begun` is `s` with one more ingest, about to append its first new event. */
  ghost predicate HasBegun(s: State, begun: State, events: seq<DeviceEvent>, at: nat) {
    begun == WithGateway(s, Begun(s.gateway, events, at))
  }

  /** The second ingest runs while the first is about to append. */
  lemma {:induction false} SecondRuns(
      d: Device, c: Checks, s: State, begun: State, steps: seq<Step>, first: seq<DeviceEvent>, at: nat,
      j: nat, q: nat, a: nat, from: nat)
    returns (now: State)
    requires j == |s.gateway.jobs| && Inv(d, s, a) && Enrolled(d, c) && HeadInStep(s) && s.gateway.active && q < |s.requests|
    requires begun == RunOn(d, c, s, steps) && HasBegun(s, begun, first, at)
    requires from <= a && Segment(Wire(s.rows), from, s.requests[q]) && s.requests[q] != []
    ensures now == RunOn(d, c, s, steps + WholeSteps(q, s.requests[q], j + 1))
    ensures Inv(d, now, a) && Wholly(Wire(s.rows), begun, now, from + |s.requests[q]|)
  {
    var second := WholeSteps(q, s.requests[q], j + 1);
    RunStays(d, c, s, steps, begun, a);
    now := WholeRequest(d, c, begun, q, a, from);
    RunStays(d, c, begun, second, now, a);
    RunsOn(d, c, s, steps, second);
  }

  /** Where the rows stay the same, as many are acknowledged. */
  lemma {:induction false} RunStays(d: Device, c: Checks, s: State, steps: seq<Step>, now: State, a: nat)
    requires Inv(d, s, a) && Enrolled(d, c) && now == RunOn(d, c, s, steps) && now.rows == s.rows
    ensures Inv(d, now, a)
  {
    var b := RunOnKeeps(d, c, s, steps, a);
    OneAckedPrefix(s.rows, a, b);
  }

  /** What an overlap leaves: all that was new is stored, and the head recorded is that of
      the first new event. */
  ghost predicate TakenBack(s: State, after: State, n: nat) {
    && after.rows == s.rows && |s.gateway.log| + n == |after.gateway.log| <= |s.rows|
    && s.gateway.log <= after.gateway.log
    && 0 < n && after.gateway.head == PrevHashAt(s.rows, |s.gateway.log| + 1)
    && (Quiet(s.gateway) ==> Quiet(after.gateway))
  }

  lemma {:induction false} FirstResumes(
      d: Device, c: Checks, now: State, wire: seq<DeviceEvent>, g: Gateway, j: nat, a: nat, from: nat, left: nat)
    returns (done: Job, after: Gateway)
    requires Inv(d, now, a) && wire == Wire(now.rows) && g == now.gateway && AtEvent(g, j, Appending)
    requires Segment(wire, from, g.jobs[j].events) && from + |g.jobs[j].events| <= |g.log|
    requires left == |g.jobs[j].events| - g.jobs[j].at - 1
    ensures done.phase.Closed? && from + g.jobs[j].at < |wire|
    ensures after == Finished(Handled(c, Appended(g, j), j, left), j)
    ensures after == g.(jobs := g.jobs[j := done], head := PrevAt(wire, from + g.jobs[j].at + 1), covers := done.covers)
  {
    WireIsDistinct(d, now.rows);
    JobIsFrom(wire, g.log, g.jobs[j], from);
    var appended := AppendResult(wire, g.jobs[j], from + g.jobs[j].at);
    LateRest(c, wire, g, j, from, appended, left);
    LateFinish(g, j, appended);
    done := appended.(at := |appended.events|, phase := Closed);
    after := Finished(Handled(c, Appended(g, j), j, left), j);
  }

  lemma {:induction false} HeadTakenBack(
      d: Device, s: State, begun: State, now: State, after: State, first: seq<DeviceEvent>, at: nat, upto: nat,
      done: Job)
    requires GoodLog(d, s.rows) && Sound(Wire(s.rows), s.gateway) && HasBegun(s, begun, first, at)
    requires Wholly(Wire(s.rows), begun, now, upto) && done.phase.Closed? && |s.gateway.log| < upto
    requires after.rows == s.rows && after.gateway.log == now.gateway.log
    requires after.gateway.jobs == now.gateway.jobs[|s.gateway.jobs| := done]
    requires |s.gateway.log| < |Wire(s.rows)| && after.gateway.head == PrevAt(Wire(s.rows), |s.gateway.log| + 1)
    ensures TakenBack(s, after, upto - |s.gateway.log|)
  {
    WireRow(d, s.rows);
    PrevOnWire(d, s.rows, |s.gateway.log| + 1);
    if Quiet(s.gateway) {
      StaysQuiet(Wire(s.rows), s, begun, now, after, first, at, upto, done);
    }
  }

  lemma {:induction false} StaysQuiet(
      wire: seq<DeviceEvent>, s: State, begun: State, now: State, after: State, first: seq<DeviceEvent>, at: nat,
      upto: nat, done: Job)
    requires HasBegun(s, begun, first, at) && Wholly(wire, begun, now, upto) && done.phase.Closed?
    requires after.gateway.jobs == now.gateway.jobs[|s.gateway.jobs| := done] && Quiet(s.gateway)
    ensures Quiet(after.gateway)
  {
    var g := after.gateway;
    forall k | 0 <= k < |g.jobs| ensures !Running(g.jobs[k]) {
      if k < |s.gateway.jobs| {
        assert s.gateway.jobs[k] == begun.gateway.jobs[k] == now.gateway.jobs[k];
      }
    }
  }

  lemma {:induction false} RunResumes(d: Device, c: Checks, now: State, j: nat, left: nat, g: Gateway)
    requires Finished(Handled(c, Appended(now.gateway, j), j, left), j) == g
    ensures RunOn(d, c, now, RestSteps(j, left)).rows == now.rows
    ensures RunOn(d, c, now, RestSteps(j, left)).gateway == g
  {
    RunRestSteps(d, c, now, j, left);
  }

  lemma {:induction false} StillBegun(
      wire: seq<DeviceEvent>, s: State, begun: State, now: State, first: seq<DeviceEvent>, at: nat, upto: nat)
    requires HasBegun(s, begun, first, at) && Wholly(wire, begun, now, upto) && at < |first|
    ensures AtEvent(now.gateway, |s.gateway.jobs|, Appending)
    ensures now.gateway.jobs[|s.gateway.jobs|].events == first && now.gateway.jobs[|s.gateway.jobs|].at == at
  {
    assert now.gateway.jobs[|s.gateway.jobs|] == begun.gateway.jobs[|s.gateway.jobs|];
  }

  lemma {:induction false} FirstGoesOn(
      d: Device, c: Checks, s: State, begun: State, now: State, j: nat, first: seq<DeviceEvent>, at: nat,
      a: nat, from: nat, upto: nat, left: nat)
    returns (after: State)
    requires Inv(d, s, a) && Inv(d, now, a) && HasBegun(s, begun, first, at) && Wholly(Wire(s.rows), begun, now, upto)
    requires j == |s.gateway.jobs| && at < |first| && from + at == |s.gateway.log| && from + |first| <= upto
    requires Segment(Wire(s.rows), from, first) && left == |first| - at - 1
    ensures after == RunOn(d, c, now, RestSteps(j, left)) && TakenBack(s, after, upto - |s.gateway.log|)
  {
    StillBegun(Wire(s.rows), s, begun, now, first, at, upto);
    var done, g := FirstResumes(d, c, now, Wire(s.rows), now.gateway, j, a, from, left);
    RunResumes(d, c, now, j, left, g);
    after := RunOn(d, c, now, RestSteps(j, left));
    HeadTakenBack(d, s, begun, now, after, first, at, upto, done);
  }

  lemma {:induction false} OverlapOfParts(
      d: Device, c: Checks, s: State, p: nat, q: nat, j: nat, first: seq<DeviceEvent>, at: nat, now: State,
      left: nat, after: State)
    requires p < |s.requests| && q < |s.requests| && Unstored(s.gateway.log, s.requests[p]) != []
    requires j == |s.gateway.jobs| && first == s.requests[p] && at == |first| - |Unstored(s.gateway.log, first)|
    requires now == RunOn(d, c, s, BeginSteps(p, first, j, at) + WholeSteps(q, s.requests[q], j + 1))
    requires left == |first| - at - 1 && after == RunOn(d, c, now, RestSteps(j, left))
    ensures after == RunOn(d, c, s, OverlapSteps(s, p, q))
  {
    RunsOn(d, c, s, BeginSteps(p, first, j, at) + WholeSteps(q, s.requests[q], j + 1), RestSteps(j, left));
  }

  /** The overlap stores all that is new, and takes the recorded head back. */
  lemma {:induction false} OverlapRuns(d: Device, c: Checks, s: State, p: nat, q: nat, a: nat)
    requires Inv(d, s, a) && Enrolled(d, c) && HeadInStep(s) && s.gateway.active && Overlapping(s, p, q)
    ensures TakenBack(s, RunOn(d, c, s, OverlapSteps(s, p, q)), |Unstored(s.gateway.log, s.requests[q])|)
  {
    var left := |Unstored(s.gateway.log, s.requests[p])|;
    var f := RequestAt(d, s, p, a);
    var h := RequestAt(d, s, q, a);
    var after := OverlapGoesOn(d, c, s, p, q, a, f, h, |s.requests[p]| - left, left - 1);
  }

  lemma {:induction false} OverlapGoesOn(
      d: Device, c: Checks, s: State, p: nat, q: nat, a: nat, f: nat, h: nat, at: nat, left: nat)
    returns (after: State)
    requires Inv(d, s, a) && Enrolled(d, c) && HeadInStep(s) && s.gateway.active
    requires p < |s.requests| && q < |s.requests| && f <= a && h <= a
    requires Segment(Wire(s.rows), f, s.requests[p]) && Segment(Wire(s.rows), h, s.requests[q])
    requires f + at == |s.gateway.log| && at < |s.requests[p]| && f + |s.requests[p]| <= h + |s.requests[q]|
    requires |Unstored(s.gateway.log, s.requests[p])| == |s.requests[p]| - at && left == |s.requests[p]| - at - 1
    ensures after == RunOn(d, c, s, OverlapSteps(s, p, q))
    ensures TakenBack(s, after, h + |s.requests[q]| - |s.gateway.log|)
  {
    var j, first := |s.gateway.jobs|, s.requests[p];
    var begun := WithGateway(s, Begun(s.gateway, first, at));
    Begins(d, c, s, p, a, f, at);
    var now := SecondRuns(d, c, s, begun, BeginSteps(p, first, j, at), first, at, j, q, a, h);
    after := FirstGoesOn(d, c, s, begun, now, j, first, at, a, f, h + |s.requests[q]|, left);
    OverlapOfParts(d, c, s, p, q, j, first, at, now, left, after);
  }

  // ---------------------------------------------------- the overlap refused

  /** An ingest has read the head when another stores the first new event; it passes over
      that event and looks at the one after; then the other goes on to its end. */
  function RefusalOf(
      p: nat, q: nat, first: seq<DeviceEvent>, second: seq<DeviceEvent>, j: nat, at: nat, from: nat): seq<Step>
    requires at < |first|
  {
    OpenSteps(q, second, j)
    + (OpenSteps(p, first, j + 1) + HandleSteps(j + 1, at + 1))
    + (HandleSteps(j, from + 1) + [Look(j)])
    + (HandleSteps(j + 1, |first| - at - 1) + [Finish(j + 1)])
  }

  function RefusalSteps(s: State, p: nat, q: nat): seq<Step>
    requires Overlapping(s, p, q)
  {
    RefusalOf(p, q, s.requests[p], s.requests[q], |s.gateway.jobs|,
              |s.requests[p]| - |Unstored(s.gateway.log, s.requests[p])|,
              |s.requests[q]| - |Unstored(s.gateway.log, s.requests[q])|)
  }

  /** An ingest passes over events that are stored, and is refused the first that is not:
      the head it goes by is not that of the last event stored. */
  lemma {:induction false} PassesAndFails(c: Checks, wire: seq<DeviceEvent>, g: Gateway, j: nat, from: nat, n: nat)
    returns (failed: Job)
    requires Genuine(c, wire) && Sound(wire, g) && InPhase(g, j, Looking) && g.jobs[j].at == 0
    requires JobFrom(wire, g.log, g.jobs[j], from) && from + n == |g.log| && n < |g.jobs[j].events|
    requires g.jobs[j].head != PrevAt(wire, |g.log|)
    ensures Looked(c, Handled(c, g, j, n), j) == g.(jobs := g.jobs[j := failed])
    ensures failed.phase.Closed? && failed.refusal == Some(ChainBreak(g.jobs[j].events[n].signable.eventId))
  {
    PassesStored(c, wire, g, j, from, n);
    var job := g.jobs[j].(at := n);
    failed := job.(phase := Closed, refusal := Some(ChainBreak(job.events[n].signable.eventId)));
    JobReplaced(wire, g, j, job);
    LookOutcome(c, wire, g.(jobs := g.jobs[j := job]), j, from);
  }

  /** An ingest in line goes on to its end: the head it writes is that of the last event. */
  lemma {:induction false} FinishesInLine(c: Checks, wire: seq<DeviceEvent>, g: Gateway, j: nat, from: nat, left: nat)
    returns (after: Gateway)
    requires Genuine(c, wire) && InLine(wire, g, j, from) && left == |g.jobs[j].events| - g.jobs[j].at && g.log != []
    ensures after == Finished(Handled(c, g, j, left), j)
    ensures |after.jobs| == |g.jobs| && after.jobs == g.jobs[j := after.jobs[j]]
    ensures after.head == LastHash(after.log)
  {
    HandledInLine(c, wire, g, j, from, left);
    var handled := Handled(c, g, j, left);
    LastOfPrefix(wire, handled.log);
    after := Finished(handled, j);
  }

  /** Ingest `j` has read the head of the first `n` events, and ingest `j + 1`, which began
      with them too, has stored one more. */
  ghost predicate Overtaken(
      wire: seq<DeviceEvent>, s: State, now: State, j: nat, second: seq<DeviceEvent>, first: seq<DeviceEvent>,
      at: nat, n: nat)
  {
    && now.rows == s.rows && |now.gateway.jobs| == j + 2
    && now.gateway.log <= wire && |now.gateway.log| == n + 1 && n <= |wire|
    && now.gateway.jobs[j].phase.Looking? && now.gateway.jobs[j].at == 0
    && now.gateway.jobs[j].events == second && now.gateway.jobs[j].head == PrevAt(wire, n)
    && now.gateway.jobs[j + 1].phase.Looking? && now.gateway.jobs[j + 1].events == first
    && now.gateway.jobs[j + 1].head == PrevAt(wire, n + 1) && now.gateway.jobs[j + 1].at == at + 1
  }

  /** A new ingest has read the head. */
  ghost predicate HasRead(s: State, begun: State, j: nat, second: seq<DeviceEvent>) {
    && begun.rows == s.rows && begun.requests == s.requests && begun.gateway.active == s.gateway.active
    && begun.gateway.log == s.gateway.log && begun.gateway.head == s.gateway.head
    && j == |s.gateway.jobs| && |begun.gateway.jobs| == j + 1
    && begun.gateway.jobs[j] == Job(second, 0, s.gateway.head, s.gateway.covers, Looking, None)
  }

  lemma {:induction false} SecondBegins(
      d: Device, c: Checks, s: State, q: nat, a: nat, j: nat) returns (begun: State)
    requires Inv(d, s, a) && Enrolled(d, c) && s.gateway.active && q < |s.requests| && j == |s.gateway.jobs|
    ensures begun == RunOn(d, c, s, OpenSteps(q, s.requests[q], j)) && Inv(d, begun, a)
    ensures HasRead(s, begun, j, s.requests[q])
  {
    RunOpenSteps(d, c, s, q, s.requests[q], a);
    begun := WithGateway(s, Started(s.gateway, s.requests[q]));
    RunStays(d, c, s, OpenSteps(q, s.requests[q], j), begun, a);
  }

  lemma {:induction false} FirstPasses(
      d: Device, c: Checks, s: State, p: nat, a: nat, j: nat, f: nat, n: nat) returns (now: State)
    requires Inv(d, s, a) && Enrolled(d, c) && s.gateway.active && p < |s.requests| && j == |s.gateway.jobs|
    requires s.gateway.head == LastHash(s.gateway.log)
    requires f <= a && Segment(Wire(s.rows), f, s.requests[p]) && n <= |s.requests[p]|
    ensures now == RunOn(d, c, s, OpenSteps(p, s.requests[p], j) + HandleSteps(j, n)) && Inv(d, now, a)
    ensures BatchStored(Wire(s.rows), s, now, j, f, n) && now.gateway.jobs[j].events == s.requests[p]
  {
    now := HandleRequest(d, c, s, p, s.requests[p], a, f, n);
    RunStays(d, c, s, OpenSteps(p, s.requests[p], j) + HandleSteps(j, n), now, a);
  }

  lemma {:induction false} FirstPassesSecond(
      d: Device, c: Checks, s: State, begun: State, j: nat, p: nat, second: seq<DeviceEvent>, a: nat, f: nat, at: nat)
    returns (now: State)
    requires HasRead(s, begun, j, second) && Inv(d, begun, a) && Enrolled(d, c) && s.gateway.active
    requires s.gateway.head == LastHash(s.gateway.log) && p < |s.requests|
    requires f <= a && Segment(Wire(s.rows), f, s.requests[p]) && at < |s.requests[p]|
    ensures now == RunOn(d, c, begun, OpenSteps(p, s.requests[p], j + 1) + HandleSteps(j + 1, at + 1)) && Inv(d, now, a)
    ensures BatchStored(Wire(s.rows), begun, now, j + 1, f, at + 1) && now.gateway.jobs[j + 1].events == s.requests[p]
  {
    now := FirstPasses(d, c, begun, p, a, j + 1, f, at + 1);
  }

  lemma {:induction false} Overtakes(
      d: Device, c: Checks, s: State, j: nat, p: nat, q: nat, a: nat, f: nat, at: nat)
    returns (begun: State, now: State)
    requires Inv(d, s, a) && Enrolled(d, c) && HeadInStep(s) && s.gateway.active && p < |s.requests| && q < |s.requests|
    requires j == |s.gateway.jobs| && f <= a && Segment(Wire(s.rows), f, s.requests[p])
    requires f + at == |s.gateway.log| && at < |s.requests[p]|
    ensures begun == RunOn(d, c, s, OpenSteps(q, s.requests[q], j))
    ensures now == RunOn(d, c, begun, OpenSteps(p, s.requests[p], j + 1) + HandleSteps(j + 1, at + 1))
    ensures Inv(d, now, a)
    ensures Overtaken(Wire(s.rows), s, now, j, s.requests[q], s.requests[p], at, |s.gateway.log|)
  {
    LastHashOfRows(d, s, a);
    begun := SecondBegins(d, c, s, q, a, j);
    now := FirstPassesSecond(d, c, s, begun, j, p, s.requests[q], a, f, at);
    OvertakenBy(Wire(s.rows), s, begun, now, j, s.requests[q], s.requests[p], f, at);
  }

  lemma {:induction false} OvertakenBy(
      wire: seq<DeviceEvent>, s: State, begun: State, now: State, j: nat, second: seq<DeviceEvent>,
      first: seq<DeviceEvent>, f: nat, at: nat)
    requires HasRead(s, begun, j, second)
    requires BatchStored(wire, begun, now, j + 1, f, at + 1) && f + at == |s.gateway.log| && s.gateway.log <= wire
    requires s.gateway.head == LastHash(s.gateway.log) && now.gateway.jobs[j + 1].events == first
    ensures Overtaken(wire, s, now, j, second, first, at, |s.gateway.log|)
  {
    LastOfPrefix(wire, s.gateway.log);
    assert now.gateway.jobs[j] == begun.gateway.jobs[j];
  }

  lemma {:induction false} FailsOvertaken(
      d: Device, c: Checks, wire: seq<DeviceEvent>, s: State, now: State, j: nat, second: seq<DeviceEvent>,
      first: seq<DeviceEvent>, at: nat, a: nat, h: nat, n: nat)
    returns (failed: Job)
    requires Inv(d, now, a) && Enrolled(d, c) && wire == Wire(s.rows)
    requires Overtaken(wire, s, now, j, second, first, at, h + n) && Segment(wire, h, second)
    requires n + 1 < |second| && PrevAt(wire, h + n) != PrevAt(wire, h + n + 1)
    ensures Looked(c, Handled(c, now.gateway, j, n + 1), j)
         == now.gateway.(jobs := now.gateway.jobs[j := failed])
    ensures failed.refusal == Some(ChainBreak(second[n + 1].signable.eventId))
  {
    WireIsGenuine(d, c, s.rows);
    JobIsFrom(wire, now.gateway.log, now.gateway.jobs[j], h);
    failed := PassesAndFails(c, wire, now.gateway, j, h, n + 1);
  }

  lemma {:induction false} RunPasses(d: Device, c: Checks, now: State, j: nat, n: nat, g: Gateway)
    requires Looked(c, Handled(c, now.gateway, j, n), j) == g
    ensures RunOn(d, c, now, HandleSteps(j, n) + [Look(j)]) == WithGateway(now, g)
  {
    RunHandleSteps(d, c, now, j, n);
    RunOnLast(d, c, now, HandleSteps(j, n), Look(j));
  }

  /** Ingest `j + 1` is the one that goes on, from its event number `at + 1`. */
  ghost predicate GoesOn(wire: seq<DeviceEvent>, s: State, now: State, j: nat, first: seq<DeviceEvent>, at: nat) {
    && now.rows == s.rows && |now.gateway.jobs| == j + 2 && now.gateway.log <= wire && now.gateway.log != []
    && now.gateway.jobs[j + 1].phase.Looking? && now.gateway.jobs[j + 1].events == first
    && now.gateway.jobs[j + 1].at == at + 1 && now.gateway.jobs[j + 1].head == LastHash(now.gateway.log)
  }

  /** The overtaken ingest is refused. */
  lemma {:induction false} OvertakenFails(
      d: Device, c: Checks, s: State, now: State, j: nat, second: seq<DeviceEvent>, first: seq<DeviceEvent>,
      at: nat, a: nat, h: nat, n: nat)
    returns (after: State)
    requires Inv(d, now, a) && Enrolled(d, c)
    requires Overtaken(Wire(s.rows), s, now, j, second, first, at, h + n) && Segment(Wire(s.rows), h, second)
    requires n + 1 < |second| && PrevAt(Wire(s.rows), h + n) != PrevAt(Wire(s.rows), h + n + 1)
    ensures after == RunOn(d, c, now, HandleSteps(j, n + 1) + [Look(j)])
    ensures Inv(d, after, a) && GoesOn(Wire(s.rows), s, after, j, first, at)
    ensures after.gateway.jobs[j].refusal == Some(ChainBreak(second[n + 1].signable.eventId))
  {
    var failed := FailsOvertaken(d, c, Wire(s.rows), s, now, j, second, first, at, a, h, n);
    var g := now.gateway.(jobs := now.gateway.jobs[j := failed]);
    RunPasses(d, c, now, j, n + 1, g);
    after := WithGateway(now, g);
    RunStays(d, c, now, HandleSteps(j, n + 1) + [Look(j)], after, a);
    LastOfPrefix(Wire(s.rows), g.log);
  }

  /** The other ingest goes on to its end. */
  lemma {:induction false} OtherFinishes(
      d: Device, c: Checks, s: State, now: State, j: nat, first: seq<DeviceEvent>, at: nat, a: nat, f: nat, left: nat)
    returns (after: State)
    requires Inv(d, now, a) && Enrolled(d, c) && GoesOn(Wire(s.rows), s, now, j, first, at)
    requires Segment(Wire(s.rows), f, first) && first != [] && left == |first| - at - 1
    ensures after == RunOn(d, c, now, HandleSteps(j + 1, left) + [Finish(j + 1)])
    ensures after.rows == s.rows && |after.gateway.jobs| == j + 2 && after.gateway.jobs[j] == now.gateway.jobs[j]
    ensures after.gateway.head == LastHash(after.gateway.log)
  {
    var wire, g := Wire(s.rows), now.gateway;
    WireIsGenuine(d, c, s.rows);
    JobIsFrom(wire, g.log, g.jobs[j + 1], f);
    LastOfPrefix(wire, g.log);
    var finished := FinishesInLine(c, wire, g, j + 1, f, left);
    RunHandleSteps(d, c, now, j + 1, left);
    RunOnLast(d, c, now, HandleSteps(j + 1, left), Finish(j + 1));
    after := AfterFinish(WithGateway(now, Handled(c, g, j + 1, left)), j + 1);
  }

  lemma {:induction false} RunOfFour(
      d: Device, c: Checks, s: State, w: seq<Step>, x: seq<Step>, y: seq<Step>, z: seq<Step>,
      begun: State, now: State, failed: State, after: State)
    requires begun == RunOn(d, c, s, w) && now == RunOn(d, c, begun, x)
    requires failed == RunOn(d, c, now, y) && after == RunOn(d, c, failed, z)
    ensures after == RunOn(d, c, s, w + x + y + z)
  {
    RunsOn(d, c, s, w, x);
    RunsOn(d, c, s, w + x, y);
    RunsOn(d, c, s, w + x + y, z);
  }

  /** What the overlap leaves: the overtaken ingest refused, and the head in step. */
  ghost predicate RefusedInStep(s: State, after: State, j: nat, event: DeviceEvent) {
    && after.rows == s.rows && j + 2 == |after.gateway.jobs|
    && after.gateway.jobs[j].refusal == Some(ChainBreak(event.signable.eventId))
    && after.gateway.head == LastHash(after.gateway.log)
  }

  /** The first batch is from event `f` and has `at` events before the first `n` end, the
      second is from `h` and has `from`; the head after one more event is another. */
  ghost predicate Placed(
      wire: seq<DeviceEvent>, n: nat, first: seq<DeviceEvent>, second: seq<DeviceEvent>,
      f: nat, h: nat, at: nat, from: nat)
  {
    && Segment(wire, f, first) && Segment(wire, h, second) && f + at == n == h + from && n < |wire|
    && at < |first| && from + 1 < |second| && PrevAt(wire, n) != PrevAt(wire, n + 1)
  }

  lemma {:induction false} SecondFails(
      d: Device, c: Checks, s: State, p: nat, q: nat, a: nat, f: nat, h: nat, j: nat, at: nat, from: nat)
    returns (begun: State, now: State, failed: State)
    requires Inv(d, s, a) && Enrolled(d, c) && HeadInStep(s) && s.gateway.active
    requires p < |s.requests| && q < |s.requests| && j == |s.gateway.jobs| && f <= a
    requires Placed(Wire(s.rows), |s.gateway.log|, s.requests[p], s.requests[q], f, h, at, from)
    ensures begun == RunOn(d, c, s, OpenSteps(q, s.requests[q], j))
    ensures now == RunOn(d, c, begun, OpenSteps(p, s.requests[p], j + 1) + HandleSteps(j + 1, at + 1))
    ensures failed == RunOn(d, c, now, HandleSteps(j, from + 1) + [Look(j)])
    ensures Inv(d, failed, a) && GoesOn(Wire(s.rows), s, failed, j, s.requests[p], at)
    ensures failed.gateway.jobs[j].refusal == Some(ChainBreak(s.requests[q][from + 1].signable.eventId))
  {
    begun, now := Overtakes(d, c, s, j, p, q, a, f, at);
    failed := OvertakenFails(d, c, s, now, j, s.requests[q], s.requests[p], at, a, h, from);
  }

  lemma {:induction false} OtherEnds(
      d: Device, c: Checks, s: State, failed: State, j: nat, first: seq<DeviceEvent>, at: nat, a: nat, f: nat,
      left: nat, event: DeviceEvent)
    returns (after: State)
    requires Inv(d, failed, a) && Enrolled(d, c) && GoesOn(Wire(s.rows), s, failed, j, first, at)
    requires failed.gateway.jobs[j].refusal == Some(ChainBreak(event.signable.eventId))
    requires Segment(Wire(s.rows), f, first) && first != [] && left == |first| - at - 1
    ensures after == RunOn(d, c, failed, HandleSteps(j + 1, left) + [Finish(j + 1)])
    ensures RefusedInStep(s, after, j, event)
  {
    after := OtherFinishes(d, c, s, failed, j, first, at, a, f, left);
  }

  lemma {:induction false} RefusalRuns(
      d: Device, c: Checks, s: State, p: nat, q: nat, a: nat, f: nat, h: nat, j: nat, at: nat, from: nat)
    returns (after: State)
    requires Inv(d, s, a) && Enrolled(d, c) && HeadInStep(s) && s.gateway.active
    requires p < |s.requests| && q < |s.requests| && j == |s.gateway.jobs| && f <= a
    requires Placed(Wire(s.rows), |s.gateway.log|, s.requests[p], s.requests[q], f, h, at, from)
    ensures after == RunOn(d, c, s, RefusalOf(p, q, s.requests[p], s.requests[q], j, at, from))
    ensures RefusedInStep(s, after, j, s.requests[q][from + 1])
  {
    var begun, now, failed := SecondFails(d, c, s, p, q, a, f, h, j, at, from);
    var left := |s.requests[p]| - at - 1;
    after := OtherEnds(d, c, s, failed, j, s.requests[p], at, a, f, left, s.requests[q][from + 1]);
    RefusalOfParts(d, c, s, p, q, s.requests[p], s.requests[q], j, at, from, left, begun, now, failed, after);
  }

  lemma {:induction false} RefusalOfParts(
      d: Device, c: Checks, s: State, p: nat, q: nat, first: seq<DeviceEvent>, second: seq<DeviceEvent>,
      j: nat, at: nat, from: nat, left: nat, begun: State, now: State, failed: State, after: State)
    requires at < |first| && left == |first| - at - 1
    requires begun == RunOn(d, c, s, OpenSteps(q, second, j))
    requires now == RunOn(d, c, begun, OpenSteps(p, first, j + 1) + HandleSteps(j + 1, at + 1))
    requires failed == RunOn(d, c, now, HandleSteps(j, from + 1) + [Look(j)])
    requires after == RunOn(d, c, failed, HandleSteps(j + 1, left) + [Finish(j + 1)])
    ensures after == RunOn(d, c, s, RefusalOf(p, q, first, second, j, at, from))
  {
    RunOfFour(d, c, s, OpenSteps(q, second, j), OpenSteps(p, first, j + 1) + HandleSteps(j + 1, at + 1),
              HandleSteps(j, from + 1) + [Look(j)], HandleSteps(j + 1, left) + [Finish(j + 1)],
              begun, now, failed, after);
  }

  lemma {:induction false} RefusalFrom(d: Device, c: Checks, s: State, p: nat, q: nat, a: nat) returns (after: State)
    requires Inv(d, s, a) && Enrolled(d, c) && HeadInStep(s) && s.gateway.active && Overlapping(s, p, q)
    requires !OutboxCollides(d.sha, s.rows)
    ensures after == RunOn(d, c, s, RefusalSteps(s, p, q))
    ensures after.rows == s.rows && |after.gateway.jobs| == |s.gateway.jobs| + 2
    ensures after.gateway.jobs[|s.gateway.jobs|].refusal.Some? && after.gateway.head == LastHash(after.gateway.log)
  {
    var f, at := FirstNew(d, s, p, a);
    var h, from := FirstNew(d, s, q, a);
    HeadsDiffer(d, s, a);
    RefusalStepsAt(s, p, q, at, from);
    after := RefusalRuns(d, c, s, p, q, a, f, h, |s.gateway.jobs|, at, from);
  }

  lemma {:induction false} RefusalStepsAt(s: State, p: nat, q: nat, at: nat, from: nat)
    requires Overlapping(s, p, q)
    requires at == |s.requests[p]| - |Unstored(s.gateway.log, s.requests[p])|
    requires from == |s.requests[q]| - |Unstored(s.gateway.log, s.requests[q])|
    ensures RefusalSteps(s, p, q) == RefusalOf(p, q, s.requests[p], s.requests[q], |s.gateway.jobs|, at, from)
  {
  }

  /** Which event of a sent request is the first that is not stored. */
  lemma {:induction false} FirstNew(d: Device, s: State, request: nat, a: nat) returns (from: nat, at: nat)
    requires Inv(d, s, a) && request < |s.requests| && Unstored(s.gateway.log, s.requests[request]) != []
    ensures from <= a && Segment(Wire(s.rows), from, s.requests[request]) && from + at == |s.gateway.log|
    ensures at == |s.requests[request]| - |Unstored(s.gateway.log, s.requests[request])|
  {
    from := RequestAt(d, s, request, a);
    at := |s.gateway.log| - from;
  }

  lemma {:induction false} HeadsDiffer(d: Device, s: State, a: nat)
    requires Inv(d, s, a) && !OutboxCollides(d.sha, s.rows) && |s.gateway.log| < |Wire(s.rows)|
    ensures PrevAt(Wire(s.rows), |s.gateway.log|) != PrevAt(Wire(s.rows), |s.gateway.log| + 1)
  {
    WireRow(d, s.rows);
    PrevOnWire(d, s.rows, |s.gateway.log|);
    PrevOnWire(d, s.rows, |s.gateway.log| + 1);
    if PrevHashAt(s.rows, |s.gateway.log|) == PrevHashAt(s.rows, |s.gateway.log| + 1) {
      OneHeadTwoPlaces(d, s.rows, |s.gateway.log|, |s.gateway.log| + 1);
    }
  }
}
