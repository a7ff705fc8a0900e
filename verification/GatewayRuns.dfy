/** What jobs of the gateway come to: refused, stuck for good, alone, in line with the last
    event stored, and one at a time. A job with nothing beside it is one whole ingest; a job
    in line stores what is new and leaves the right head. */
module GatewayRuns {
  import opened Wrappers
  import opened Texts
  import opened Events
  import opened Ingest
  import opened Gateway

  // ------------------------------------------------------------ refused

  /** The head that a next event must carry. */
  function LastHash(log: seq<DeviceEvent>): Option<Text> {
    if log == [] then None else Some(log[|log| - 1].eventHash)
  }

  lemma {:induction false} LastOfPrefix(wire: seq<DeviceEvent>, log: seq<DeviceEvent>)
    requires log <= wire
    ensures LastHash(log) == PrevAt(wire, |log|)
  {
  }

  /** A job of the device's own events is refused exactly when its next event is not stored
      and the head it goes by is not that of the last event stored; it is a chain break, and
      nothing else changes. */
  lemma {:induction false} LookRefusesExactlyWhen(c: Checks, wire: seq<DeviceEvent>, g: Gateway, j: nat)
    requires Genuine(c, wire) && Sound(wire, g) && AtEvent(g, j, Looking)
    ensures var id := NextEventOf(g, j).signable.eventId;
            var after := Looked(c, g, j);
            && |after.jobs| == |g.jobs|
            && (after.jobs[j].refusal.Some? <==> !Stored(g.log, id) && g.jobs[j].head != LastHash(g.log))
            && (after.jobs[j].refusal.Some? ==>
                  after == g.(jobs := g.jobs[j := g.jobs[j].(phase := Closed, refusal := Some(ChainBreak(id)))]))
  {
    assert JobSound(wire, g.log, g.jobs[j]);
    var from: nat :| JobFrom(wire, g.log, g.jobs[j], from);
    LookOutcome(c, wire, g, j, from);
    LastOfPrefix(wire, g.log);
  }

  // ------------------------------------------------------------ stranded

  /** A job that may yet store something, or write the right head. */
  predicate MayHeal(log: seq<DeviceEvent>, job: Job) {
    || (job.phase.Looking? && job.head == LastHash(log))
    || (job.phase.Appending? && job.at < |job.events|
        && (!Stored(log, job.events[job.at].signable.eventId)
            || LastHash(log) == Some(job.events[job.at].eventHash)))
  }

  /** The recorded head is not that of the last event stored, and no job will mend it. */
  predicate Stranded(g: Gateway) {
    g.head != LastHash(g.log) && forall j | 0 <= j < |g.jobs| :: !MayHeal(g.log, g.jobs[j])
  }

  lemma {:induction false} JobStaysStranded(g: Gateway, j: nat, job: Job)
    requires Stranded(g) && j < |g.jobs| && !MayHeal(g.log, job)
    ensures Stranded(g.(jobs := g.jobs[j := job]))
  {
  }

  lemma {:induction false} HeadReadStrands(g: Gateway, j: nat)
    requires Stranded(g)
    ensures Stranded(HeadRead(g, j)) && HeadRead(g, j).log == g.log
  {
    if InPhase(g, j, Opening) {
      JobStaysStranded(g, j, g.jobs[j].(head := g.head, covers := g.covers, phase := Looking));
    }
  }

  lemma {:induction false} LookedStrands(c: Checks, wire: seq<DeviceEvent>, g: Gateway, j: nat)
    requires Genuine(c, wire) && Sound(wire, g) && Stranded(g)
    ensures Stranded(Looked(c, g, j)) && Looked(c, g, j).log == g.log
  {
    if AtEvent(g, j, Looking) {
      assert !MayHeal(g.log, g.jobs[j]);
      assert JobSound(wire, g.log, g.jobs[j]);
      var from: nat :| JobFrom(wire, g.log, g.jobs[j], from);
      LookOutcome(c, wire, g, j, from);
      LastOfPrefix(wire, g.log);
      JobStaysStranded(g, j, LookResult(wire, g.log, g.jobs[j], from + g.jobs[j].at));
    }
  }

  lemma {:induction false} AppendedStrands(g: Gateway, j: nat)
    requires Stranded(g)
    ensures Stranded(Appended(g, j)) && Appended(g, j).log == g.log
  {
    if AtEvent(g, j, Appending) {
      assert !MayHeal(g.log, g.jobs[j]);
      JobStaysStranded(g, j, Appended(g, j).jobs[j]);
    }
  }

  lemma {:induction false} FinishedStrands(g: Gateway, j: nat)
    requires Stranded(g)
    ensures Stranded(Finished(g, j)) && Finished(g, j).log == g.log
  {
    if IsDone(g, j) {
      assert !MayHeal(g.log, g.jobs[j]);
      JobStaysStranded(g, j, g.jobs[j].(phase := Closed));
    }
  }

  lemma {:induction false} AbandonedStrands(g: Gateway, j: nat)
    requires Stranded(g)
    ensures Stranded(Abandoned(g, j)) && Abandoned(g, j).log == g.log
  {
    if j < |g.jobs| {
      JobStaysStranded(g, j, g.jobs[j].(phase := Closed));
    }
  }

  lemma {:induction false} OpenedStrands(g: Gateway, events: seq<DeviceEvent>)
    requires Stranded(g)
    ensures Stranded(Opened(g, events)) && Opened(g, events).log == g.log
  {
  }

  // ------------------------------------------------- one job, by itself

  /** One event looked up and, where it is new, appended. */
  function OneEvent(c: Checks, g: Gateway, j: nat): Gateway {
    Appended(Looked(c, g, j), j)
  }

  /** The next `n` events in turn. */
  function Handled(c: Checks, g: Gateway, j: nat, n: nat): Gateway {
    if n == 0 then g else OneEvent(c, Handled(c, g, j, n - 1), j)
  }

  /** A job by itself has got as far as processing the first `n` events in turn gets. */
  ghost predicate AsFarAs(g: Gateway, after: Gateway, j: nat, n: nat, p: Progress)
    requires j < |g.jobs|
  {
    && |after.jobs| == |g.jobs| && after.log == p.log
    && after == g.(log := after.log, jobs := g.jobs[j := after.jobs[j]])
    && after.jobs[j].events == g.jobs[j].events && after.jobs[j].refusal == p.error
    && (if p.error.Some? then after.jobs[j].phase == Closed
        else after.jobs[j].phase == Looking && after.jobs[j].at == n && after.jobs[j].head == p.head)
  }

  /** A job that looks at an event, by what it finds. */
  lemma {:induction false} OneEventBy(c: Checks, g: Gateway, j: nat)
    requires AtEvent(g, j, Looking)
    ensures var job, e := g.jobs[j], NextEventOf(g, j);
            OneEvent(c, g, j)
            == if Stored(g.log, e.signable.eventId) then g.(jobs := g.jobs[j := job.(at := job.at + 1)])
               else if CheckEvent(c, job.head, e).Some?
               then g.(jobs := g.jobs[j := job.(phase := Closed, refusal := CheckEvent(c, job.head, e))])
               else g.(log := g.log + [e],
                       jobs := g.jobs[j := job.(at := job.at + 1, head := Some(e.eventHash),
                                                covers := Place(g.log + [e], e.signable.eventId))])
  {
    var looked := Looked(c, g, j);
    assert Appended(looked, j).jobs == g.jobs[j := Appended(looked, j).jobs[j]];
  }

  lemma {:induction false} ClosedHandlesNothing(c: Checks, g: Gateway, j: nat)
    requires InPhase(g, j, Closed)
    ensures OneEvent(c, g, j) == g
  {
  }

  lemma {:induction false} OneEventAlone(c: Checks, g: Gateway, now: Gateway, j: nat, n: nat, p: Progress)
    requires j < |g.jobs| && AsFarAs(g, now, j, n, p) && n < |g.jobs[j].events|
    ensures AsFarAs(g, OneEvent(c, now, j), j, n + 1, ProcessOne(c, p, g.jobs[j].events[n]))
  {
    if p.error.Some? {
      ClosedHandlesNothing(c, now, j);
    } else {
      OneEventBy(c, now, j);
    }
  }

  lemma {:induction false} HandledIsProcessed(c: Checks, g: Gateway, j: nat, n: nat, p: Progress)
    requires InPhase(g, j, Looking) && g.jobs[j].at == 0 && g.jobs[j].refusal.None? && n <= |g.jobs[j].events|
    requires p == Progress(g.log, g.jobs[j].head, None)
    ensures AsFarAs(g, Handled(c, g, j, n), j, n, Process(c, p, g.jobs[j].events[..n]))
  {
    var events := g.jobs[j].events;
    if n == 0 {
      assert events[..0] == [];
      NothingProcessed(c, g, j, p);
    } else {
      HandledIsProcessed(c, g, j, n - 1, p);
      NextEvent(c, p, events, n - 1);
      OneEventAlone(c, g, Handled(c, g, j, n - 1), j, n - 1, Process(c, p, events[..n - 1]));
    }
  }

  lemma {:induction false} NothingProcessed(c: Checks, g: Gateway, j: nat, p: Progress)
    requires InPhase(g, j, Looking) && g.jobs[j].at == 0 && g.jobs[j].refusal.None?
    requires p == Progress(g.log, g.jobs[j].head, None)
    ensures AsFarAs(g, g, j, 0, Process(c, p, []))
  {
    assert g.jobs[j := g.jobs[j]] == g.jobs;
  }

  /** A job opened and run to its end with nothing beside it. */
  function Alone(c: Checks, g: Gateway, events: seq<DeviceEvent>): Gateway {
    var j, read := |g.jobs|, HeadRead(Opened(g, events), |g.jobs|);
    Finished(Handled(c, read, j, |events|), j)
  }

  lemma {:induction false} SortKeepsLength(events: seq<DeviceEvent>)
    ensures |SortByStamp(events)| == |events|
  {
    SortKeepsElements(events);
    assert |multiset(SortByStamp(events))| == |multiset(events)|;
  }

  /** Run by itself, a job leaves the log and the head that one whole ingest leaves, and is
      answered or refused as it is: for any events, honest or not. */
  lemma {:induction false} AloneIsIngested(c: Checks, g: Gateway, events: seq<DeviceEvent>)
    requires g.active && CanSort(events)
    ensures var (server, reply) := Ingested(c, ServerState(g.log, g.head, g.active), events);
            var after := Alone(c, g, events);
            && ServerState(after.log, after.head, after.active) == server
            && |after.jobs| == |g.jobs| + 1 && after.jobs[..|g.jobs|] == g.jobs
            && after.jobs[|g.jobs|].phase.Closed? && after.jobs[|g.jobs|].events == SortByStamp(events)
            && after.jobs[|g.jobs|].refusal == if reply.Failure? then Some(reply.error) else None
  {
    var j, read := |g.jobs|, HeadRead(Opened(g, events), |g.jobs|);
    var ordered := SortByStamp(events);
    SortKeepsLength(events);
    assert read == g.(jobs := g.jobs + [Job(ordered, 0, g.head, g.covers, Looking, None)]);
    HandledIsProcessed(c, read, j, |events|, Progress(g.log, g.head, None));
    assert ordered[..|events|] == ordered;
    FinishedAlone(c, g, read, Handled(c, read, j, |events|), ordered);
  }

  lemma {:induction false} FinishedAlone(
      c: Checks, g: Gateway, read: Gateway, handled: Gateway, ordered: seq<DeviceEvent>)
    requires read == g.(jobs := g.jobs + [Job(ordered, 0, g.head, g.covers, Looking, None)])
    requires AsFarAs(read, handled, |g.jobs|, |ordered|, Process(c, Progress(g.log, g.head, None), ordered))
    ensures var p := Process(c, Progress(g.log, g.head, None), ordered);
            var after := Finished(handled, |g.jobs|);
            && after.log == p.log && after.active == g.active
            && after.head == (if p.error.None? && p.head.Some? then p.head else g.head)
            && |after.jobs| == |g.jobs| + 1 && after.jobs[..|g.jobs|] == g.jobs
            && after.jobs[|g.jobs|].phase.Closed? && after.jobs[|g.jobs|].events == ordered
            && after.jobs[|g.jobs|].refusal == p.error
  {
    assert read.jobs[..|g.jobs|] == g.jobs;
  }

  /** The job has got to event number `at`, and nothing else is different. */
  ghost predicate PassedTo(g: Gateway, after: Gateway, j: nat, at: nat) {
    j < |g.jobs| && after == g.(jobs := g.jobs[j := g.jobs[j].(at := at)])
  }

  lemma {:induction false} NothingPassed(g: Gateway, j: nat, at: nat)
    requires j < |g.jobs| && at == g.jobs[j].at
    ensures PassedTo(g, g, j, at)
  {
    assert g.jobs[j := g.jobs[j]] == g.jobs;
  }

  lemma {:induction false} PassesOne(c: Checks, g: Gateway, now: Gateway, j: nat, at: nat, to: nat)
    requires InPhase(g, j, Looking) && at < |g.jobs[j].events| && Stored(g.log, g.jobs[j].events[at].signable.eventId)
    requires PassedTo(g, now, j, at) && to == at + 1
    ensures PassedTo(g, OneEvent(c, now, j), j, to)
  {
    OneEventBy(c, now, j);
  }

  /** A job passes over events that are all stored, up to event number `to`. */
  lemma {:induction false} HandledStored(c: Checks, g: Gateway, j: nat, n: nat, to: nat)
    requires InPhase(g, j, Looking) && g.jobs[j].at + n == to <= |g.jobs[j].events|
    requires forall k | g.jobs[j].at <= k < to :: Stored(g.log, g.jobs[j].events[k].signable.eventId)
    ensures PassedTo(g, Handled(c, g, j, n), j, to)
  {
    if n == 0 {
      NothingPassed(g, j, to);
    } else {
      HandledStored(c, g, j, n - 1, to - 1);
      PassesOne(c, g, Handled(c, g, j, n - 1), j, to - 1, to);
    }
  }

  // --------------------------------------------- a job that is in line

  /** A job from event number `from` that goes by the head of the last event stored. */
  ghost predicate InLine(wire: seq<DeviceEvent>, g: Gateway, j: nat, from: nat) {
    && Sound(wire, g) && InPhase(g, j, Looking)
    && JobFrom(wire, g.log, g.jobs[j], from) && g.jobs[j].head == PrevAt(wire, |g.log|)
  }

  /** From `g` on it has handled its events below `at` and stored those that were new:
      nothing is different but the log and how far the job is. */
  ghost predicate HandledTo(wire: seq<DeviceEvent>, g: Gateway, after: Gateway, j: nat, from: nat, at: nat)
    requires j < |g.jobs|
  {
    && |after.jobs| == |g.jobs| && |after.log| == Max(|g.log|, from + at) && after.log <= wire
    && after == g.(log := after.log, jobs := g.jobs[j := after.jobs[j]])
    && after.jobs[j] == g.jobs[j].(at := at, head := PrevAt(wire, |after.log|), covers := after.jobs[j].covers)
    && after.jobs[j].covers <= |after.log| && after.jobs[j].head == PrevAt(wire, after.jobs[j].covers)
  }

  /** The next event is stored: the job passes over it. */
  lemma {:induction false} StoredInLine(c: Checks, wire: seq<DeviceEvent>, g: Gateway, j: nat, from: nat)
    requires Genuine(c, wire) && InLine(wire, g, j, from) && g.jobs[j].at < |g.jobs[j].events|
    requires from + g.jobs[j].at < |g.log|
    ensures OneEvent(c, g, j) == g.(jobs := g.jobs[j := g.jobs[j].(at := g.jobs[j].at + 1)])
  {
    LookOutcome(c, wire, g, j, from);
  }

  /** The next event is the first that is not stored: the job stores it. */
  lemma {:induction false} NewInLine(c: Checks, wire: seq<DeviceEvent>, g: Gateway, j: nat, from: nat)
    requires Genuine(c, wire) && InLine(wire, g, j, from) && g.jobs[j].at < |g.jobs[j].events|
    requires from + g.jobs[j].at == |g.log|
    ensures |g.log| < |wire|
    ensures OneEvent(c, g, j)
         == g.(log := wire[..|g.log| + 1],
               jobs := g.jobs[j := g.jobs[j].(at := g.jobs[j].at + 1, head := PrevAt(wire, |g.log| + 1),
                                              covers := |g.log| + 1)])
  {
    var looked := Looked(c, g, j);
    LookOutcome(c, wire, g, j, from);
    assert JobFrom(wire, g.log, looked.jobs[j], from);
    JobReplaced(wire, g, j, looked.jobs[j]);
    AppendOutcome(wire, looked, j, from);
  }

  lemma {:induction false} OneEventInLine(c: Checks, wire: seq<DeviceEvent>, g: Gateway, j: nat, from: nat)
    requires Genuine(c, wire) && InLine(wire, g, j, from) && g.jobs[j].at < |g.jobs[j].events|
    ensures HandledTo(wire, g, OneEvent(c, g, j), j, from, g.jobs[j].at + 1)
  {
    if from + g.jobs[j].at < |g.log| {
      StoredInLine(c, wire, g, j, from);
    } else {
      NewInLine(c, wire, g, j, from);
    }
  }

  lemma {:induction false} StaysInLine(
      wire: seq<DeviceEvent>, g: Gateway, after: Gateway, j: nat, from: nat, at: nat)
    requires InLine(wire, g, j, from) && at <= |g.jobs[j].events| && HandledTo(wire, g, after, j, from, at)
    ensures InLine(wire, after, j, from)
  {
    assert JobFrom(wire, after.log, after.jobs[j], from);
    JobAndLogReplaced(wire, g, j, after.jobs[j], after.log);
  }

  lemma {:induction false} HandledOn(
      wire: seq<DeviceEvent>, g: Gateway, now: Gateway, after: Gateway, j: nat, from: nat, at: nat)
    requires j < |g.jobs| && HandledTo(wire, g, now, j, from, at) && HandledTo(wire, now, after, j, from, at + 1)
    ensures HandledTo(wire, g, after, j, from, at + 1)
  {
  }

  lemma {:induction false} NothingHandled(wire: seq<DeviceEvent>, g: Gateway, j: nat, from: nat)
    requires InLine(wire, g, j, from)
    ensures HandledTo(wire, g, g, j, from, g.jobs[j].at)
  {
    assert g.jobs[j := g.jobs[j]] == g.jobs;
  }

  lemma {:induction false} HandledInLine(c: Checks, wire: seq<DeviceEvent>, g: Gateway, j: nat, from: nat, n: nat)
    requires Genuine(c, wire) && InLine(wire, g, j, from) && g.jobs[j].at + n <= |g.jobs[j].events|
    ensures HandledTo(wire, g, Handled(c, g, j, n), j, from, g.jobs[j].at + n)
  {
    if n > 0 {
      HandledInLine(c, wire, g, j, from, n - 1);
      HandlesOneMore(c, wire, g, Handled(c, g, j, n - 1), j, from, g.jobs[j].at + n - 1);
    } else {
      NothingHandled(wire, g, j, from);
    }
  }

  lemma {:induction false} HandlesOneMore(
      c: Checks, wire: seq<DeviceEvent>, g: Gateway, now: Gateway, j: nat, from: nat, at: nat)
    requires Genuine(c, wire) && InLine(wire, g, j, from) && at < |g.jobs[j].events|
    requires HandledTo(wire, g, now, j, from, at)
    ensures HandledTo(wire, g, OneEvent(c, now, j), j, from, at + 1)
  {
    StaysInLine(wire, g, now, j, from, at);
    OneEventInLine(c, wire, now, j, from);
    HandledOn(wire, g, now, OneEvent(c, now, j), j, from, at);
  }

  // ----------------------------------------------------- one at a time

  /** No job runs beside another, none was refused, and the head the next event is checked
      against is that of the last event stored. */
  ghost predicate Sequential(g: Gateway) {
    && (forall j | 0 <= j < |g.jobs| :: g.jobs[j].refusal.None?)
    && (forall j | 0 <= j < |g.jobs| - 1 :: g.jobs[j].phase.Closed?)
    && (if |g.jobs| > 0 && Running(g.jobs[|g.jobs| - 1]) then RunsInOrder(g.log, g.jobs[|g.jobs| - 1])
        else g.head == LastHash(g.log))
  }

  ghost predicate RunsInOrder(log: seq<DeviceEvent>, job: Job) {
    && job.head == LastHash(log)
    && (job.phase.Appending? ==>
          job.at < |job.events| && !Stored(log, job.events[job.at].signable.eventId))
  }

  predicate Idle(g: Gateway) {
    forall j | 0 <= j < |g.jobs| :: g.jobs[j].phase.Closed?
  }

  lemma {:induction false} OpenedInTurn(g: Gateway, events: seq<DeviceEvent>)
    requires Sequential(g) && Idle(g)
    ensures Sequential(Opened(g, events))
  {
  }

  lemma {:induction false} HeadReadInTurn(g: Gateway, j: nat)
    requires Sequential(g)
    ensures Sequential(HeadRead(g, j))
  {
  }

  lemma {:induction false} LookedInTurn(c: Checks, wire: seq<DeviceEvent>, g: Gateway, j: nat)
    requires Genuine(c, wire) && Sound(wire, g) && Sequential(g)
    ensures Sequential(Looked(c, g, j))
  {
    if AtEvent(g, j, Looking) {
      LookRefusesExactlyWhen(c, wire, g, j);
      assert j == |g.jobs| - 1;
    }
  }

  lemma {:induction false} AppendedInTurn(g: Gateway, j: nat)
    requires Sequential(g)
    ensures Sequential(Appended(g, j))
  {
    if AtEvent(g, j, Appending) {
      assert j == |g.jobs| - 1;
    }
  }

  lemma {:induction false} FinishedInTurn(wire: seq<DeviceEvent>, g: Gateway, j: nat)
    requires Sound(wire, g) && Sequential(g)
    ensures Sequential(Finished(g, j))
  {
    if IsDone(g, j) {
      assert j == |g.jobs| - 1;
    }
  }
}
