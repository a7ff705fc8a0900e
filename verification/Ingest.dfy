/** One whole ingest. */
module Ingest {
  import opened Wrappers
  import opened Texts
  import opened Events
  import opened Hlc

  // The gateway's ingest of one device's events: order by stamp, then for each event skip
  // it if stored, or check hash, signature and chain, and append.

  /** SHA-256, and signature verification under this device's public key. */
  datatype Checks = Checks(sha: Text -> Text, verify: (Text, Text) -> bool)

  datatype IngestError = NotActive | InvalidStamp | HashMismatch(id: Text) | BadSignature(id: Text) | ChainBreak(id: Text)

  /** The device's stored events, and the chain head recorded beside them. */
  datatype ServerState = ServerState(log: seq<DeviceEvent>, head: Option<Text>, active: bool)

  /** How far a batch got: the log, the running head, and what stopped it. */
  datatype Progress = Progress(log: seq<DeviceEvent>, head: Option<Text>, error: Option<IngestError>)

  predicate Stored(log: seq<DeviceEvent>, id: Text) {
    exists i | 0 <= i < |log| :: log[i].signable.eventId == id
  }

  function EventIds(events: seq<DeviceEvent>): (ids: seq<Text>)
    ensures |ids| == |events|
  {
    seq(|events|, i requires 0 <= i < |events| => events[i].signable.eventId)
  }

  // ------------------------------------------------------ ordering a batch

  /** `hlcCompare(a.hlc, b.hlc) < 0`. */
  predicate EventBefore(a: DeviceEvent, b: DeviceEvent) {
    StampBefore(a.signable.hlc, b.signable.hlc)
  }

  function InsertByStamp(e: DeviceEvent, events: seq<DeviceEvent>): seq<DeviceEvent> {
    if events != [] && EventBefore(events[0], e) then [events[0]] + InsertByStamp(e, events[1..])
    else [e] + events
  }

  /** `[...events].sort((a, b) => hlcCompare(a.hlc, b.hlc))`, a stable sort. */
  function SortByStamp(events: seq<DeviceEvent>): seq<DeviceEvent> {
    if events == [] then [] else InsertByStamp(events[0], SortByStamp(events[1..]))
  }

  /** The comparator throws on a stamp it cannot decode, once there are two to compare. */
  predicate CanSort(events: seq<DeviceEvent>) {
    |events| < 2 || forall i | 0 <= i < |events| :: Decode(events[i].signable.hlc).Some?
  }

  // -------------------------------------------------- processing in order

  function CheckEvent(c: Checks, head: Option<Text>, e: DeviceEvent): Option<IngestError> {
    if EventHash(c.sha, e.signable) != Some(e.eventHash) then Some(HashMismatch(e.signable.eventId))
    else if !c.verify(e.eventHash, e.deviceSig) then Some(BadSignature(e.signable.eventId))
    else if e.signable.prevHash != head then Some(ChainBreak(e.signable.eventId))
    else None
  }

  function ProcessOne(c: Checks, p: Progress, e: DeviceEvent): Progress {
    if p.error.Some? || Stored(p.log, e.signable.eventId) then p
    else
      match CheckEvent(c, p.head, e)
      case Some(error) => p.(error := Some(error))
      case None => Progress(p.log + [e], Some(e.eventHash), None)
  }

  /** The state after the events in turn; the first refusal stops the batch. */
  function Process(c: Checks, p: Progress, events: seq<DeviceEvent>): Progress {
    if events == [] then p
    else ProcessOne(c, Process(c, p, events[..|events| - 1]), events[|events| - 1])
  }

  /** One request. A refusal leaves what was already appended in the log and the
      recorded head as it was: the head is written once, after the whole batch. */
  function Ingested(
      c: Checks, s: ServerState, events: seq<DeviceEvent>): (ServerState, Result<seq<Text>, IngestError>) {
    if !s.active then (s, Failure(NotActive))
    else if !CanSort(events) then (s, Failure(InvalidStamp))
    else
      var ordered := SortByStamp(events);
      var p := Process(c, Progress(s.log, s.head, None), ordered);
      if p.error.Some? then (s.(log := p.log), Failure(p.error.value))
      else (s.(log := p.log, head := if p.head.Some? then p.head else s.head), Success(EventIds(ordered)))
  }

  class IngestService {
    const checks: Checks
    var log: seq<DeviceEvent>
    var chainHead: Option<Text>
    var active: bool

    function State(): ServerState
      reads this
    {
      ServerState(log, chainHead, active)
    }

    constructor (checks: Checks)
      ensures this.checks == checks && State() == ServerState([], None, true)
    {
      this.checks := checks;
      log, chainHead, active := [], None, true;
    }

    method Ingest(events: seq<DeviceEvent>) returns (r: Result<seq<Text>, IngestError>)
      modifies this`log, this`chainHead
      ensures (State(), r) == Ingested(checks, old(State()), events)
    {
      if !active {
        return Failure(NotActive);
      }
      if !CanSort(events) {
        return Failure(InvalidStamp);
      }
      var ordered := SortByStamp(events);
      var acked: seq<Text> := [];
      var head := chainHead;
      ghost var start := Progress(log, chainHead, None);
      for n := 0 to |ordered|
        invariant chainHead == old(chainHead)
        invariant Process(checks, start, ordered[..n]) == Progress(log, head, None)
        invariant acked == EventIds(ordered[..n])
      {
        var e := ordered[n];
        NextEvent(checks, start, ordered, n);
        acked := acked + [e.signable.eventId];
        if Stored(log, e.signable.eventId) {
          continue;
        }
        var error := CheckEvent(checks, head, e);
        if error.Some? {
          RefusalStops(checks, start, ordered, n + 1);
          assert ordered[..|ordered|] == ordered;
          return Failure(error.value);
        }
        log := log + [e];
        head := Some(e.eventHash);
      }
      assert ordered[..|ordered|] == ordered;
      if head.Some? {
        chainHead := head;
      }
      return Success(acked);
    }
  }

  lemma {:induction false} NextEvent(c: Checks, p: Progress, events: seq<DeviceEvent>, n: nat)
    requires n < |events|
    ensures Process(c, p, events[..n + 1]) == ProcessOne(c, Process(c, p, events[..n]), events[n])
    ensures EventIds(events[..n + 1]) == EventIds(events[..n]) + [events[n].signable.eventId]
  {
    assert events[..n + 1][..n] == events[..n];
  }

  lemma {:induction false} RefusalStops(c: Checks, p: Progress, events: seq<DeviceEvent>, n: nat)
    requires n <= |events| && Process(c, p, events[..n]).error.Some?
    ensures Process(c, p, events) == Process(c, p, events[..n])
    decreases |events|
  {
    if n == |events| {
      assert events[..n] == events;
    } else {
      assert events[..|events| - 1][..n] == events[..n];
      RefusalStops(c, p, events[..|events| - 1], n);
    }
  }

  // --------------------------------------------- order is restored by stamp

  ghost predicate InOrder(events: seq<DeviceEvent>) {
    forall i, j | 0 <= i < j < |events| :: EventBefore(events[i], events[j])
  }

  ghost predicate NoInversion(events: seq<DeviceEvent>) {
    forall i, j | 0 <= i < j < |events| :: !EventBefore(events[j], events[i])
  }

  ghost predicate AllStamped(events: seq<DeviceEvent>) {
    forall i | 0 <= i < |events| :: IsStamp(events[i].signable.hlc)
  }

  lemma {:induction false} InsertKeepsElements(e: DeviceEvent, events: seq<DeviceEvent>)
    ensures multiset(InsertByStamp(e, events)) == multiset(events) + multiset{e}
  {
    if events != [] && EventBefore(events[0], e) {
      InsertKeepsElements(e, events[1..]);
      assert events == [events[0]] + events[1..];
    }
  }

  lemma {:induction false} SortKeepsElements(events: seq<DeviceEvent>)
    ensures multiset(SortByStamp(events)) == multiset(events)
  {
    if events != [] {
      SortKeepsElements(events[1..]);
      InsertKeepsElements(events[0], SortByStamp(events[1..]));
      assert events == [events[0]] + events[1..];
    }
  }

  lemma {:induction false} BeforeIsTransitive(a: DeviceEvent, b: DeviceEvent, c: DeviceEvent)
    requires IsStamp(a.signable.hlc) && IsStamp(b.signable.hlc) && IsStamp(c.signable.hlc)
    ensures EventBefore(a, b) ==> !EventBefore(b, a)
    ensures !EventBefore(b, a) && !EventBefore(c, b) ==> !EventBefore(c, a)
  {
    var x, y, z := a.signable.hlc, b.signable.hlc, c.signable.hlc;
    CompareDecides(x, y);
    CompareDecides(y, x);
    CompareDecides(y, z);
    CompareDecides(x, z);
    CompareDecides(z, x);
    CompareDecides(z, y);
    CompareIsTotalOrder(x, y, z);
    CompareIsTotalOrder(z, y, x);
  }

  /** Nothing in `events` comes before `e`. */
  ghost predicate NoneBefore(events: seq<DeviceEvent>, e: DeviceEvent) {
    forall i | 0 <= i < |events| :: !EventBefore(events[i], e)
  }

  lemma {:induction false} HeadFirst(all: seq<DeviceEvent>)
    requires all != []
    ensures NoInversion(all) <==> NoneBefore(all[1..], all[0]) && NoInversion(all[1..])
    ensures AllStamped(all) <==> IsStamp(all[0].signable.hlc) && AllStamped(all[1..])
  {
    var rest := all[1..];
    assert forall i | 0 < i < |all| :: all[i] == rest[i - 1];
    assert forall i | 0 <= i < |rest| :: rest[i] == all[i + 1];
  }

  lemma {:induction false} InsertNoneBefore(e: DeviceEvent, events: seq<DeviceEvent>, x: DeviceEvent)
    requires NoneBefore(events, x) && !EventBefore(e, x)
    ensures NoneBefore(InsertByStamp(e, events), x)
  {
    if events != [] && EventBefore(events[0], e) {
      InsertNoneBefore(e, events[1..], x);
    }
  }

  lemma {:induction false} InsertKeepsOrder(e: DeviceEvent, events: seq<DeviceEvent>)
    requires NoInversion(events) && AllStamped(events) && IsStamp(e.signable.hlc)
    ensures NoInversion(InsertByStamp(e, events)) && AllStamped(InsertByStamp(e, events))
  {
    if events != [] {
      HeadFirst(events);
      BeforeIsTransitive(events[0], e, e);
      if EventBefore(events[0], e) {
        InsertKeepsOrder(e, events[1..]);
        InsertNoneBefore(e, events[1..], events[0]);
        HeadFirst(InsertByStamp(e, events));
      } else {
        NoneBeforeEither(e, events);
        HeadFirst(InsertByStamp(e, events));
      }
    }
  }

  lemma {:induction false} NoneBeforeEither(e: DeviceEvent, events: seq<DeviceEvent>)
    requires NoInversion(events) && AllStamped(events) && IsStamp(e.signable.hlc)
    requires events != [] && !EventBefore(events[0], e)
    ensures NoneBefore(events, e)
  {
    forall i | 0 < i < |events| ensures !EventBefore(events[i], e) {
      BeforeIsTransitive(e, events[0], events[i]);
    }
  }

  lemma {:induction false} SortIsOrdered(events: seq<DeviceEvent>)
    requires AllStamped(events)
    ensures NoInversion(SortByStamp(events)) && AllStamped(SortByStamp(events))
  {
    if events != [] {
      SortIsOrdered(events[1..]);
      InsertKeepsOrder(events[0], SortByStamp(events[1..]));
    }
  }

  lemma {:induction false} SameFirst(a: seq<DeviceEvent>, b: seq<DeviceEvent>)
    requires InOrder(a) && NoInversion(b) && multiset(a) == multiset(b) && a != [] && b != []
    ensures a[0] == b[0]
  {
    assert a[0] in multiset(b) && b[0] in multiset(a);
    var i :| 0 <= i < |a| && a[i] == b[0];
    var j :| 0 <= j < |b| && b[j] == a[0];
    assert i > 0 ==> EventBefore(a[0], a[i]);
    assert j > 0 ==> !EventBefore(b[j], b[0]);
  }

  lemma {:induction false} RestKeepsElements(a: seq<DeviceEvent>, b: seq<DeviceEvent>)
    requires multiset(a) == multiset(b) && a != [] && b != [] && a[0] == b[0]
    ensures multiset(a[1..]) == multiset(b[1..])
  {
    assert a == [a[0]] + a[1..] && b == [b[0]] + b[1..];
    assert multiset(a[1..]) == multiset(a) - multiset{a[0]};
    assert multiset(b[1..]) == multiset(b) - multiset{b[0]};
  }

  lemma {:induction false} OneOrderedArrangement(a: seq<DeviceEvent>, b: seq<DeviceEvent>)
    requires InOrder(a) && NoInversion(b) && multiset(a) == multiset(b)
    ensures a == b
  {
    assert |multiset(a)| == |multiset(b)|;
    if a != [] {
      SameFirst(a, b);
      RestKeepsElements(a, b);
      OneOrderedArrangement(a[1..], b[1..]);
      assert a == [a[0]] + a[1..] && b == [b[0]] + b[1..];
    }
  }

  /** A batch from one device is put back in authoring order however it arrives. */
  lemma {:induction false} ShuffledBatchIsRestored(batch: seq<DeviceEvent>, arrived: seq<DeviceEvent>)
    requires InOrder(batch) && AllStamped(batch) && multiset(arrived) == multiset(batch)
    ensures CanSort(arrived) && SortByStamp(arrived) == batch
  {
    forall i | 0 <= i < |arrived| ensures IsStamp(arrived[i].signable.hlc) {
      assert arrived[i] in multiset(batch);
    }
    SortIsOrdered(arrived);
    SortKeepsElements(arrived);
    OneOrderedArrangement(batch, SortByStamp(arrived));
  }
}
