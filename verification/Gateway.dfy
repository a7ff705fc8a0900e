/** The gateway, with ingests running side by side. `IngestService.ingest` awaits the store
    between looking an event up, appending it and writing the chain head, holds no lock and
    no transaction, and a client that times out pushes again. An ingest under way is a job;
    each of its awaits is a step. */
module Gateway {
  import opened Wrappers
  import opened Texts
  import opened Events
  import opened Hlc
  import opened Ingest

  datatype Phase =
    | Opening   // the device is active and the events are sorted; the head is not read yet
    | Looking   // at the next event, or past the last
    | Appending // the event was not stored and passed its checks
    | Closed    // answered, refused or gone

  /** `head` is the head the job goes by. It stands for the first `covers` stored events, a
      number that no step reads. */
  datatype Job = Job(
    events: seq<DeviceEvent>, at: nat, head: Option<Text>, covers: nat, phase: Phase, refusal: Option<IngestError>)

  /** The device's stored events, the chain head recorded beside them, and all its jobs. */
  datatype Gateway = Gateway(
    log: seq<DeviceEvent>, head: Option<Text>, covers: nat, active: bool, jobs: seq<Job>)

  // ------------------------------------------------------------- the awaits

  /** `getDevice`, and the events put in order of their stamps. */
  function Opened(g: Gateway, events: seq<DeviceEvent>): Gateway {
    if !g.active || !CanSort(events) then g
    else g.(jobs := g.jobs + [Job(SortByStamp(events), 0, None, 0, Opening, None)])
  }

  predicate InPhase(g: Gateway, j: nat, phase: Phase) {
    j < |g.jobs| && g.jobs[j].phase == phase
  }

  /** `getChainHead`. */
  function HeadRead(g: Gateway, j: nat): Gateway {
    if !InPhase(g, j, Opening) then g
    else g.(jobs := g.jobs[j := g.jobs[j].(head := g.head, covers := g.covers, phase := Looking)])
  }

  predicate AtEvent(g: Gateway, j: nat, phase: Phase) {
    InPhase(g, j, phase) && g.jobs[j].at < |g.jobs[j].events|
  }

  function NextEventOf(g: Gateway, j: nat): DeviceEvent
    requires j < |g.jobs| && g.jobs[j].at < |g.jobs[j].events|
  {
    g.jobs[j].events[g.jobs[j].at]
  }

  /** `eventExists`, and the checks an event that does not exist is put to. */
  function LookedUp(c: Checks, job: Job, stored: bool, e: DeviceEvent): Job {
    if stored then job.(at := job.at + 1)
    else
      match CheckEvent(c, job.head, e)
      case Some(error) => job.(phase := Closed, refusal := Some(error))
      case None => job.(phase := Appending)
  }

  function Looked(c: Checks, g: Gateway, j: nat): Gateway {
    if !AtEvent(g, j, Looking) then g
    else
      var e := NextEventOf(g, j);
      g.(jobs := g.jobs[j := LookedUp(c, g.jobs[j], Stored(g.log, e.signable.eventId), e)])
  }

  /** `INSERT ... ON CONFLICT (event_id) DO NOTHING`. */
  function Inserted(log: seq<DeviceEvent>, e: DeviceEvent): seq<DeviceEvent> {
    if Stored(log, e.signable.eventId) then log else log + [e]
  }

  /** How many events a log holds up to and with the one of this id. */
  function Place(log: seq<DeviceEvent>, id: Text): nat {
    if log == [] then 0
    else if log[|log| - 1].signable.eventId == id then |log|
    else Place(log[..|log| - 1], id)
  }

  /** `appendEvent`, and the head advanced to it. */
  function Appended(g: Gateway, j: nat): Gateway {
    if !AtEvent(g, j, Appending) then g
    else
      var job, e := g.jobs[j], NextEventOf(g, j);
      var log := Inserted(g.log, e);
      g.(log := log,
         jobs := g.jobs[j := job.(at := job.at + 1, head := Some(e.eventHash),
                                  covers := Place(log, e.signable.eventId), phase := Looking)])
  }

  predicate IsDone(g: Gateway, j: nat) {
    InPhase(g, j, Looking) && g.jobs[j].at == |g.jobs[j].events|
  }

  /** `setChainHead`, unless there is none to set. */
  function Finished(g: Gateway, j: nat): Gateway {
    if !IsDone(g, j) then g
    else
      var job := g.jobs[j];
      var closed := g.(jobs := g.jobs[j := job.(phase := Closed)]);
      if job.head.Some? then closed.(head := job.head, covers := job.covers) else closed
  }

  /** The store fails, or the gateway restarts. */
  function Abandoned(g: Gateway, j: nat): Gateway {
    if j >= |g.jobs| then g else g.(jobs := g.jobs[j := g.jobs[j].(phase := Closed)])
  }

  // ------------------------------------------------------- a device's events

  function PrevAt(wire: seq<DeviceEvent>, i: nat): Option<Text>
    requires i <= |wire|
  {
    if i == 0 then None else Some(wire[i - 1].eventHash)
  }

  /** An event that hashes and is signed as it says, and carries the hash before it. */
  ghost predicate HonestAt(c: Checks, wire: seq<DeviceEvent>, i: nat)
    requires i < |wire|
  {
    && EventHash(c.sha, wire[i].signable) == Some(wire[i].eventHash)
    && c.verify(wire[i].eventHash, wire[i].deviceSig)
    && wire[i].signable.prevHash == PrevAt(wire, i)
  }

  ghost predicate DistinctEvents(wire: seq<DeviceEvent>) {
    forall i, j | 0 <= i < j < |wire| :: wire[i].signable.eventId != wire[j].signable.eventId
  }

  ghost predicate Genuine(c: Checks, wire: seq<DeviceEvent>) {
    DistinctEvents(wire) && forall i | 0 <= i < |wire| :: HonestAt(c, wire, i)
  }

  /** Everything one device has authored, in order. */
  ghost predicate Honest(c: Checks, wire: seq<DeviceEvent>) {
    Genuine(c, wire) && InOrder(wire) && AllStamped(wire)
  }

  ghost predicate Segment(wire: seq<DeviceEvent>, from: nat, events: seq<DeviceEvent>) {
    from + |events| <= |wire| && forall k | 0 <= k < |events| :: events[k] == wire[from + k]
  }

  lemma {:induction false} SegmentSorts(
      c: Checks, wire: seq<DeviceEvent>, from: nat, events: seq<DeviceEvent>, arrived: seq<DeviceEvent>)
    requires Honest(c, wire) && Segment(wire, from, events) && multiset(arrived) == multiset(events)
    ensures CanSort(arrived) && SortByStamp(arrived) == events
  {
    ShuffledBatchIsRestored(events, arrived);
  }

  lemma {:induction false} StoredExactly(wire: seq<DeviceEvent>, log: seq<DeviceEvent>, k: nat)
    requires DistinctEvents(wire) && log <= wire && k < |wire|
    ensures Stored(log, wire[k].signable.eventId) <==> k < |log|
  {
    if k < |log| {
      assert log[k] == wire[k];
    }
  }

  lemma {:induction false} PlaceInPrefix(wire: seq<DeviceEvent>, log: seq<DeviceEvent>, k: nat)
    requires DistinctEvents(wire) && log <= wire && k < |log|
    ensures Place(log, wire[k].signable.eventId) == k + 1
  {
    if k < |log| - 1 {
      PlaceInPrefix(wire, log[..|log| - 1], k);
    }
  }

  lemma {:induction false} HonestCheck(c: Checks, wire: seq<DeviceEvent>, k: nat, head: Option<Text>)
    requires k < |wire| && HonestAt(c, wire, k)
    ensures CheckEvent(c, head, wire[k])
         == if head == PrevAt(wire, k) then None else Some(ChainBreak(wire[k].signable.eventId))
  {
  }

  // ------------------------------------------------------ what always holds

  predicate Running(job: Job) {
    job.phase.Looking? || job.phase.Appending?
  }

  /** A job of the device's own events from number `from`: all before the one it is at are
      stored, and the head it goes by is that of a stored event. */
  ghost predicate JobFrom(wire: seq<DeviceEvent>, log: seq<DeviceEvent>, job: Job, from: nat)
    requires log <= wire
  {
    && Segment(wire, from, job.events) && job.at <= |job.events| && from + job.at <= |log|
    && job.covers <= |log|
    && (Running(job) ==> job.head == PrevAt(wire, job.covers))
    && (job.phase.Appending? ==> job.at < |job.events| && job.head == PrevAt(wire, from + job.at))
    && (job.refusal.Some? ==> job.phase.Closed?)
  }

  ghost predicate JobSound(wire: seq<DeviceEvent>, log: seq<DeviceEvent>, job: Job)
    requires log <= wire
  {
    exists from: nat :: JobFrom(wire, log, job, from)
  }

  /** What is stored is a prefix of what the device authored, and every head in the
      gateway stands for a number of stored events. */
  ghost predicate Sound(wire: seq<DeviceEvent>, g: Gateway) {
    && g.log <= wire && g.covers <= |g.log| && g.head == PrevAt(wire, g.covers)
    && forall j | 0 <= j < |g.jobs| :: JobSound(wire, g.log, g.jobs[j])
  }

  lemma {:induction false} JobOutlives(
      wire: seq<DeviceEvent>, log: seq<DeviceEvent>, more: seq<DeviceEvent>, longer: seq<DeviceEvent>, job: Job)
    requires log <= wire && log <= longer && wire <= more && longer <= more && JobSound(wire, log, job)
    ensures JobSound(more, longer, job)
  {
    var from: nat :| JobFrom(wire, log, job, from);
    assert forall k | 0 <= k < |wire| :: more[k] == wire[k];
    assert JobFrom(more, longer, job, from);
  }

  /** The device authors on; the gateway is none the worse. */
  lemma {:induction false} SoundOutlives(wire: seq<DeviceEvent>, more: seq<DeviceEvent>, g: Gateway)
    requires Sound(wire, g) && wire <= more
    ensures Sound(more, g)
  {
    forall j | 0 <= j < |g.jobs| ensures JobSound(more, g.log, g.jobs[j]) {
      JobOutlives(wire, g.log, more, g.log, g.jobs[j]);
    }
  }

  /** One job moves; the log and the recorded head may move with it. */
  lemma {:induction false} JobMoves(wire: seq<DeviceEvent>, g: Gateway, after: Gateway, j: nat)
    requires Sound(wire, g) && j < |g.jobs| && |after.jobs| == |g.jobs| && after.jobs == g.jobs[j := after.jobs[j]]
    requires g.log <= after.log <= wire && after.covers <= |after.log| && after.head == PrevAt(wire, after.covers)
    requires JobSound(wire, after.log, after.jobs[j])
    ensures Sound(wire, after)
  {
    forall k | 0 <= k < |after.jobs| ensures JobSound(wire, after.log, after.jobs[k]) {
      if k != j {
        JobOutlives(wire, g.log, wire, after.log, g.jobs[k]);
      }
    }
  }

  lemma {:induction false} JobReplaced(wire: seq<DeviceEvent>, g: Gateway, j: nat, job: Job)
    requires Sound(wire, g) && j < |g.jobs| && JobSound(wire, g.log, job)
    ensures Sound(wire, g.(jobs := g.jobs[j := job]))
  {
  }

  lemma {:induction false} JobAndLogReplaced(
      wire: seq<DeviceEvent>, g: Gateway, j: nat, job: Job, log: seq<DeviceEvent>)
    requires Sound(wire, g) && j < |g.jobs| && g.log <= log <= wire && JobSound(wire, log, job)
    ensures Sound(wire, g.(log := log, jobs := g.jobs[j := job]))
  {
    JobMoves(wire, g, g.(log := log, jobs := g.jobs[j := job]), j);
  }

  lemma {:induction false} OpenedSound(
      c: Checks, wire: seq<DeviceEvent>, g: Gateway, from: nat, events: seq<DeviceEvent>, arrived: seq<DeviceEvent>)
    requires Honest(c, wire) && Sound(wire, g)
    requires Segment(wire, from, events) && from <= |g.log| && multiset(arrived) == multiset(events)
    ensures Sound(wire, Opened(g, arrived))
    ensures Opened(g, arrived)
         == if g.active then g.(jobs := g.jobs + [Job(events, 0, None, 0, Opening, None)]) else g
  {
    SegmentSorts(c, wire, from, events, arrived);
    assert JobFrom(wire, g.log, Job(events, 0, None, 0, Opening, None), from);
  }

  lemma {:induction false} HeadReadSound(wire: seq<DeviceEvent>, g: Gateway, j: nat)
    requires Sound(wire, g)
    ensures Sound(wire, HeadRead(g, j))
  {
    if InPhase(g, j, Opening) {
      var after := HeadRead(g, j);
      assert JobSound(wire, g.log, g.jobs[j]);
      var from: nat :| JobFrom(wire, g.log, g.jobs[j], from);
      assert JobFrom(wire, after.log, after.jobs[j], from);
      JobMoves(wire, g, after, j);
    }
  }

  /** What looking up its next event does to a job of the device's own events. */
  function LookResult(wire: seq<DeviceEvent>, log: seq<DeviceEvent>, job: Job, k: nat): Job
    requires log <= wire && k < |wire|
  {
    if k < |log| then job.(at := job.at + 1)
    else if job.head == PrevAt(wire, |log|) then job.(phase := Appending)
    else job.(phase := Closed, refusal := Some(ChainBreak(wire[k].signable.eventId)))
  }

  lemma {:induction false} JobLooks(c: Checks, wire: seq<DeviceEvent>, log: seq<DeviceEvent>, job: Job, from: nat)
    requires log <= wire && JobFrom(wire, log, job, from) && job.phase.Looking? && job.at < |job.events|
    requires DistinctEvents(wire) && HonestAt(c, wire, from + job.at)
    ensures var e := job.events[job.at];
            && e == wire[from + job.at] && (Stored(log, e.signable.eventId) <==> from + job.at < |log|)
            && LookedUp(c, job, Stored(log, e.signable.eventId), e) == LookResult(wire, log, job, from + job.at)
  {
    StoredExactly(wire, log, from + job.at);
    HonestCheck(c, wire, from + job.at, job.head);
  }

  lemma {:induction false} LookKeepsJob(wire: seq<DeviceEvent>, log: seq<DeviceEvent>, job: Job, from: nat)
    requires log <= wire && JobFrom(wire, log, job, from) && job.phase.Looking? && job.at < |job.events|
    ensures JobFrom(wire, log, LookResult(wire, log, job, from + job.at), from)
  {
  }

  lemma {:induction false} LookOutcome(c: Checks, wire: seq<DeviceEvent>, g: Gateway, j: nat, from: nat)
    requires Genuine(c, wire) && Sound(wire, g) && AtEvent(g, j, Looking) && JobFrom(wire, g.log, g.jobs[j], from)
    ensures from + g.jobs[j].at < |wire| && NextEventOf(g, j) == wire[from + g.jobs[j].at]
    ensures Stored(g.log, NextEventOf(g, j).signable.eventId) <==> from + g.jobs[j].at < |g.log|
    ensures Looked(c, g, j) == g.(jobs := g.jobs[j := LookResult(wire, g.log, g.jobs[j], from + g.jobs[j].at)])
  {
    assert HonestAt(c, wire, from + g.jobs[j].at);
    JobLooks(c, wire, g.log, g.jobs[j], from);
  }

  lemma {:induction false} LookedSound(c: Checks, wire: seq<DeviceEvent>, g: Gateway, j: nat)
    requires Genuine(c, wire) && Sound(wire, g)
    ensures Sound(wire, Looked(c, g, j))
  {
    if AtEvent(g, j, Looking) {
      assert JobSound(wire, g.log, g.jobs[j]);
      var from: nat :| JobFrom(wire, g.log, g.jobs[j], from);
      LookOutcome(c, wire, g, j, from);
      LookKeepsJob(wire, g.log, g.jobs[j], from);
      JobReplaced(wire, g, j, LookResult(wire, g.log, g.jobs[j], from + g.jobs[j].at));
    }
  }

  /** What appending does: nothing to an event stored meanwhile, and else it is the next. */
  function AppendResult(wire: seq<DeviceEvent>, job: Job, k: nat): Job
    requires k < |wire|
  {
    job.(at := job.at + 1, head := PrevAt(wire, k + 1), covers := k + 1, phase := Looking)
  }

  function LogAfter(wire: seq<DeviceEvent>, log: seq<DeviceEvent>, k: nat): seq<DeviceEvent>
    requires log <= wire && k < |wire|
  {
    if k < |log| then log else wire[..k + 1]
  }

  lemma {:induction false} InsertNext(wire: seq<DeviceEvent>, log: seq<DeviceEvent>, k: nat)
    requires DistinctEvents(wire) && log <= wire && k <= |log| && k < |wire|
    ensures Inserted(log, wire[k]) == LogAfter(wire, log, k)
    ensures log <= LogAfter(wire, log, k) <= wire
    ensures Place(LogAfter(wire, log, k), wire[k].signable.eventId) == k + 1
  {
    StoredExactly(wire, log, k);
    PlaceInPrefix(wire, LogAfter(wire, log, k), k);
  }

  lemma {:induction false} AppendKeepsJob(wire: seq<DeviceEvent>, log: seq<DeviceEvent>, job: Job, from: nat)
    requires log <= wire && JobFrom(wire, log, job, from) && job.phase.Appending?
    requires LogAfter(wire, log, from + job.at) <= wire
    ensures JobFrom(wire, LogAfter(wire, log, from + job.at), AppendResult(wire, job, from + job.at), from)
  {
  }

  lemma {:induction false} AppendOutcome(wire: seq<DeviceEvent>, g: Gateway, j: nat, from: nat)
    requires DistinctEvents(wire) && Sound(wire, g) && AtEvent(g, j, Appending)
    requires JobFrom(wire, g.log, g.jobs[j], from)
    ensures var k := from + g.jobs[j].at;
            && k < |wire| && k <= |g.log|
            && Appended(g, j) == g.(log := LogAfter(wire, g.log, k), jobs := g.jobs[j := AppendResult(wire, g.jobs[j], k)])
            && g.log <= LogAfter(wire, g.log, k) <= wire
  {
    InsertNext(wire, g.log, from + g.jobs[j].at);
  }

  lemma {:induction false} AppendedSoundFrom(wire: seq<DeviceEvent>, g: Gateway, j: nat, from: nat)
    requires DistinctEvents(wire) && Sound(wire, g) && AtEvent(g, j, Appending) && JobFrom(wire, g.log, g.jobs[j], from)
    ensures Sound(wire, Appended(g, j)) && g.log <= Appended(g, j).log
  {
    var k := from + g.jobs[j].at;
    AppendOutcome(wire, g, j, from);
    AppendKeepsJob(wire, g.log, g.jobs[j], from);
    JobAndLogReplaced(wire, g, j, AppendResult(wire, g.jobs[j], k), LogAfter(wire, g.log, k));
  }

  lemma {:induction false} AppendedSound(c: Checks, wire: seq<DeviceEvent>, g: Gateway, j: nat)
    requires Genuine(c, wire) && Sound(wire, g)
    ensures Sound(wire, Appended(g, j)) && g.log <= Appended(g, j).log
  {
    if AtEvent(g, j, Appending) {
      assert JobSound(wire, g.log, g.jobs[j]);
      var from: nat :| JobFrom(wire, g.log, g.jobs[j], from);
      AppendedSoundFrom(wire, g, j, from);
    }
  }

  lemma {:induction false} ClosedSound(wire: seq<DeviceEvent>, log: seq<DeviceEvent>, job: Job)
    requires log <= wire && JobSound(wire, log, job)
    ensures JobSound(wire, log, job.(phase := Closed))
  {
    var from: nat :| JobFrom(wire, log, job, from);
    assert JobFrom(wire, log, job.(phase := Closed), from);
  }

  lemma {:induction false} FinishedSound(wire: seq<DeviceEvent>, g: Gateway, j: nat)
    requires Sound(wire, g)
    ensures Sound(wire, Finished(g, j))
  {
    if IsDone(g, j) {
      assert JobSound(wire, g.log, g.jobs[j]);
      ClosedSound(wire, g.log, g.jobs[j]);
      JobMoves(wire, g, Finished(g, j), j);
    }
  }

  lemma {:induction false} AbandonedSound(wire: seq<DeviceEvent>, g: Gateway, j: nat)
    requires Sound(wire, g)
    ensures Sound(wire, Abandoned(g, j))
  {
    if j < |g.jobs| {
      assert JobSound(wire, g.log, g.jobs[j]);
      ClosedSound(wire, g.log, g.jobs[j]);
      JobMoves(wire, g, Abandoned(g, j), j);
    }
  }
}
