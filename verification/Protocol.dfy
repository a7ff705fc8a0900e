/** The device, the network and the gateway as one transition system: authoring runs
    between the steps of a drain, requests and replies are lost, delayed, repeated and
    reordered, and the gateway ingests any number of requests side by side. */
module Protocol {
  import opened Wrappers
  import opened Texts
  import opened Events
  import opened Store
  import opened Outbox
  import opened Ingest
  import opened Gateway

  const PUSH_BATCH: nat := 100

  /** `pending.map(toDeviceEvent)`: `None` where parsing a payload throws. */
  function ToWire(rows: seq<OutboxRow>): Option<seq<DeviceEvent>> {
    if rows == [] then Some([])
    else
      match (ToDeviceEvent(rows[0]), ToWire(rows[1..]))
      case (Some(e), Some(rest)) => Some([e] + rest)
      case _ => None
  }

  /** Every event the outbox holds, as it goes on the wire. */
  function Wire(rows: seq<OutboxRow>): seq<DeviceEvent> {
    match ToWire(rows) case Some(events) => events case None => []
  }

  /** `requests` holds every batch ever sent, `replies` every reply ever given. */
  datatype State = State(
    rows: seq<OutboxRow>,
    gateway: Gateway,
    requests: seq<seq<DeviceEvent>>,
    replies: seq<seq<Text>>,
    inFlight: bool)

  /** The numbers are those of requests, replies and jobs. Any number of jobs are under way
      at once, for one request or several, and their steps come in any order. */
  datatype Step =
    | Author(draft: Draft)
    | Push                                          // drain sends a batch
    | Open(request: nat, arrived: seq<DeviceEvent>) // a request arrives, in any order of its events
    | ReadHead(job: nat)
    | Look(job: nat)
    | Append(job: nat)
    | Finish(job: nat)                              // the head is written and the reply goes out
    | Abandon(job: nat)                             // the store fails, or the gateway restarts
    | MarkAcked(reply: nat)                         // a reply reaches the drain
    | GiveUp                                        // timeout, or an error reply
    | SetActive(active: bool)                       // the gateway revokes or restores the device

  function Initial(): State {
    State([], Gateway([], None, 0, true, []), [], [], false)
  }

  /** A delivered request holds the events that were sent, in any order. */
  predicate Delivers(s: State, request: nat, arrived: seq<DeviceEvent>) {
    request < |s.requests| && multiset(arrived) == multiset(s.requests[request])
  }

  /** One batch is on its way. */
  function AfterPush(s: State, batch: seq<DeviceEvent>): State {
    s.(requests := s.requests + [batch], inFlight := true)
  }

  function WithGateway(s: State, g: Gateway): State {
    s.(gateway := g)
  }

  /** A finished ingest is answered with the ids of all its events. */
  function AfterFinish(s: State, j: nat): State {
    var g := s.gateway;
    s.(gateway := Finished(g, j),
       replies := if IsDone(g, j) then s.replies + [EventIds(g.jobs[j].events)] else s.replies)
  }

  /** One step; a step that is not enabled changes nothing. One drain is in flight. */
  function Next(d: Device, c: Checks, s: State, step: Step): State {
    match step
    case Author(draft) =>
      (match Authored(d, s.rows, draft)
       case Success((_, row)) => s.(rows := s.rows + [row])
       case Failure(_) => s)
    case Push =>
      var batch := ToWire(FirstPending(s.rows, PUSH_BATCH));
      if s.inFlight || FirstPending(s.rows, PUSH_BATCH) == [] || batch.None? then s
      else AfterPush(s, batch.value)
    case Open(request, arrived) =>
      if Delivers(s, request, arrived) then WithGateway(s, Opened(s.gateway, arrived)) else s
    case ReadHead(job) => WithGateway(s, HeadRead(s.gateway, job))
    case Look(job) => WithGateway(s, Looked(c, s.gateway, job))
    case Append(job) => WithGateway(s, Appended(s.gateway, job))
    case Finish(job) => AfterFinish(s, job)
    case Abandon(job) => WithGateway(s, Abandoned(s.gateway, job))
    case MarkAcked(reply) =>
      if !s.inFlight || reply >= |s.replies| then s
      else s.(rows := AckAll(s.rows, s.replies[reply]), inFlight := false)
    case GiveUp => s.(inFlight := false)
    case SetActive(active) => WithGateway(s, s.gateway.(active := active))
  }

  /** The state after further steps. */
  function RunOn(d: Device, c: Checks, s: State, steps: seq<Step>): State {
    if steps == [] then s else Next(d, c, RunOn(d, c, s, steps[..|steps| - 1]), steps[|steps| - 1])
  }

  function Run(d: Device, c: Checks, steps: seq<Step>): State {
    RunOn(d, c, Initial(), steps)
  }

  /** The gateway hashes as the device does and knows the device's key. */
  ghost predicate Enrolled(d: Device, c: Checks) {
    c.sha == d.sha && forall h: Text :: c.verify(h, d.sign(h))
  }

  // -------------------------------------------------------- wire and rows

  lemma {:induction false} ToWireOfRebuilding(rows: seq<OutboxRow>)
    requires forall i | 0 <= i < |rows| :: ToDeviceEvent(rows[i]).Some?
    ensures ToWire(rows).Some? && |ToWire(rows).value| == |rows|
    ensures forall i | 0 <= i < |rows| :: ToDeviceEvent(rows[i]) == Some(ToWire(rows).value[i])
  {
    if rows != [] {
      ToWireOfRebuilding(rows[1..]);
      var rest := ToWire(rows[1..]).value;
      assert forall i | 0 <= i < |rest| :: ToDeviceEvent(rows[1..][i]) == Some(rest[i]);
    }
  }

  /** The recorded chain head is the hash of the last stored event. */
  predicate HeadInStep(s: State) {
    |s.gateway.log| <= |s.rows| && s.gateway.head == PrevHashAt(s.rows, |s.gateway.log|)
  }

  /** `s` has the rows of `r`, unchanged but for pending rows acknowledged, and maybe more. */
  ghost predicate RowsExtend(r: seq<OutboxRow>, s: seq<OutboxRow>) {
    |r| <= |s| && forall i | 0 <= i < |r| :: SameRow(r[i], s[i]) && (r[i].acked ==> s[i].acked)
  }

  lemma {:induction false} StepExtendsRows(d: Device, c: Checks, s: State, step: Step)
    ensures RowsExtend(s.rows, Next(d, c, s, step).rows)
  {
  }

  lemma {:induction false} ExtendIsTransitive(q: seq<OutboxRow>, r: seq<OutboxRow>, s: seq<OutboxRow>)
    requires RowsExtend(q, r) && RowsExtend(r, s)
    ensures RowsExtend(q, s)
  {
  }

  lemma {:induction false} RunOnLast(d: Device, c: Checks, s: State, steps: seq<Step>, last: Step)
    ensures RunOn(d, c, s, steps + [last]) == Next(d, c, RunOn(d, c, s, steps), last)
  {
    assert (steps + [last])[..|steps|] == steps;
  }

  lemma {:induction false} RunsOnNext(d: Device, c: Checks, s: State, now: State, steps: seq<Step>, more: seq<Step>)
    requires more != []
    requires RunOn(d, c, s, steps + more[..|more| - 1]) == RunOn(d, c, now, more[..|more| - 1])
    ensures RunOn(d, c, s, steps + more) == RunOn(d, c, now, more)
  {
    var all := steps + more;
    assert all[..|all| - 1] == steps + more[..|more| - 1] && all[|all| - 1] == more[|more| - 1];
  }

  lemma {:induction false} RunsOn(d: Device, c: Checks, s: State, steps: seq<Step>, more: seq<Step>)
    ensures RunOn(d, c, s, steps + more) == RunOn(d, c, RunOn(d, c, s, steps), more)
    decreases |more|
  {
    if more == [] {
      assert steps + more == steps;
    } else {
      RunsOn(d, c, s, steps, more[..|more| - 1]);
      RunsOnNext(d, c, s, RunOn(d, c, s, steps), steps, more);
    }
  }
}
