/** What an ingest lets in, whoever sent it. */
module Verdicts {
  import opened Wrappers
  import opened Texts
  import opened Hlc
  import opened Events
  import opened Ingest
  import opened Gateway

  // Nothing is asked of the events here: they may be forged, out of order or repeated.

  // ------------------------------------------------------------- the tests

  /** The hash the event claims is that of what it carries. */
  predicate HashHolds(c: Checks, e: DeviceEvent) {
    EventHash(c.sha, e.signable) == Some(e.eventHash)
  }

  /** The signature is this device's, over that hash. */
  predicate SignatureHolds(c: Checks, e: DeviceEvent) {
    c.verify(e.eventHash, e.deviceSig)
  }

  predicate Genuinely(c: Checks, e: DeviceEvent) {
    HashHolds(c, e) && SignatureHolds(c, e)
  }

  predicate Passes(c: Checks, head: Option<Text>, e: DeviceEvent) {
    Genuinely(c, e) && e.signable.prevHash == head
  }

  /** The refusal names the event, and the first test it fails. */
  predicate NamesFirstFailure(c: Checks, e: DeviceEvent, error: IngestError) {
    match error
    case HashMismatch(id) => id == e.signable.eventId && !HashHolds(c, e)
    case BadSignature(id) => id == e.signable.eventId && HashHolds(c, e) && !SignatureHolds(c, e)
    case ChainBreak(id) => id == e.signable.eventId && HashHolds(c, e) && SignatureHolds(c, e)
    case _ => false
  }

  // ------------------------------------------------------ what a batch adds

  /** The events of a batch whose ids are not stored, each id once. */
  function New(log: seq<DeviceEvent>, events: seq<DeviceEvent>): seq<DeviceEvent> {
    if events == [] then []
    else
      var before, last := New(log, events[..|events| - 1]), events[|events| - 1];
      if Stored(log + before, last.signable.eventId) then before else before + [last]
  }

  /** The hash the event after these must carry. */
  function HeadAfter(head: Option<Text>, added: seq<DeviceEvent>): Option<Text> {
    if added == [] then head else Some(added[|added| - 1].eventHash)
  }

  /** Event `n` is not stored when its turn comes, and fails a test. */
  predicate FailsAt(c: Checks, log: seq<DeviceEvent>, head: Option<Text>, events: seq<DeviceEvent>, n: nat)
    requires n < |events|
  {
    var added := New(log, events[..n]);
    !Stored(log + added, events[n].signable.eventId) && !Passes(c, HeadAfter(head, added), events[n])
  }

  ghost predicate FirstFails(c: Checks, log: seq<DeviceEvent>, head: Option<Text>, events: seq<DeviceEvent>, n: nat) {
    && n < |events| && FailsAt(c, log, head, events, n)
    && forall m | 0 <= m < n :: !FailsAt(c, log, head, events, m)
  }

  ghost predicate NoneFails(c: Checks, log: seq<DeviceEvent>, head: Option<Text>, events: seq<DeviceEvent>) {
    forall n | 0 <= n < |events| :: !FailsAt(c, log, head, events, n)
  }

  lemma {:induction false} FailsBefore(
      c: Checks, log: seq<DeviceEvent>, head: Option<Text>, events: seq<DeviceEvent>, m: nat, n: nat)
    requires n < m <= |events|
    ensures FailsAt(c, log, head, events[..m], n) == FailsAt(c, log, head, events, n)
  {
    assert events[..m][..n] == events[..n];
  }

  lemma {:induction false} NoneFailsBefore(
      c: Checks, log: seq<DeviceEvent>, head: Option<Text>, events: seq<DeviceEvent>, m: nat)
    requires m <= |events| && forall n | 0 <= n < m :: !FailsAt(c, log, head, events, n)
    ensures NoneFails(c, log, head, events[..m])
  {
    forall n | 0 <= n < m ensures !FailsAt(c, log, head, events[..m], n) {
      FailsBefore(c, log, head, events, m, n);
    }
  }

  /** While none fails, processing has taken what is new. */
  lemma {:induction false} ProcessTakesNew(c: Checks, log: seq<DeviceEvent>, head: Option<Text>, events: seq<DeviceEvent>)
    requires NoneFails(c, log, head, events)
    ensures var added := New(log, events);
            Process(c, Progress(log, head, None), events) == Progress(log + added, HeadAfter(head, added), None)
  {
    if events == [] {
      assert log + [] == log;
    } else {
      var n := |events| - 1;
      NoneFailsBefore(c, log, head, events, n);
      ProcessTakesNew(c, log, head, events[..n]);
      TakesOne(c, log, New(log, events[..n]), head, events[n]);
      assert !FailsAt(c, log, head, events, n);
    }
  }

  lemma {:induction false} TakesOne(
      c: Checks, log: seq<DeviceEvent>, added: seq<DeviceEvent>, head: Option<Text>, e: DeviceEvent)
    ensures var p := Progress(log + added, HeadAfter(head, added), None);
            var stored := Stored(log + added, e.signable.eventId);
            && (stored ==> ProcessOne(c, p, e) == p)
            && (!stored && Passes(c, HeadAfter(head, added), e) ==>
                  ProcessOne(c, p, e) == Progress(log + (added + [e]), HeadAfter(head, added + [e]), None))
            && (!stored && !Passes(c, HeadAfter(head, added), e) ==>
                  && ProcessOne(c, p, e).log == log + added && ProcessOne(c, p, e).error.Some?
                  && NamesFirstFailure(c, e, ProcessOne(c, p, e).error.value))
  {
    assert log + added + [e] == log + (added + [e]);
  }

  /** The first that fails stops the batch. */
  lemma {:induction false} ProcessStopsAt(
      c: Checks, log: seq<DeviceEvent>, head: Option<Text>, events: seq<DeviceEvent>, n: nat)
    requires FirstFails(c, log, head, events, n)
    ensures var p := Process(c, Progress(log, head, None), events);
            && p.log == log + New(log, events[..n]) && p.error.Some?
            && NamesFirstFailure(c, events[n], p.error.value)
  {
    NoneFailsBefore(c, log, head, events, n);
    ProcessTakesNew(c, log, head, events[..n]);
    TakesOne(c, log, New(log, events[..n]), head, events[n]);
    NextEvent(c, Progress(log, head, None), events, n);
    RefusalStops(c, Progress(log, head, None), events, n + 1);
  }

  lemma {:induction false} FindFirst(
      c: Checks, log: seq<DeviceEvent>, head: Option<Text>, events: seq<DeviceEvent>, n: nat) returns (first: nat)
    requires n < |events| && FailsAt(c, log, head, events, n)
    ensures FirstFails(c, log, head, events, first)
    decreases n
  {
    if m: nat :| m < n && FailsAt(c, log, head, events, m) {
      first := FindFirst(c, log, head, events, m);
    } else {
      first := n;
    }
  }

  // ---------------------------------------------------- one whole request

  /** Two events or more, and a stamp among them that does not decode. */
  ghost predicate Unsortable(events: seq<DeviceEvent>) {
    |events| > 1 && exists i :: 0 <= i < |events| && Decode(events[i].signable.hlc).None?
  }

  /** For any request from any device. An inactive device is refused, and so is a batch that
      cannot be sorted. Otherwise it is refused if and only if, in the order of the stamps,
      some event is not stored when its turn comes and fails a test; the error names the
      first such event and the first test it fails, and what was new before it is kept. With
      none, all that is new is stored, the head is that of the last event added, and every
      event is acknowledged. */
  lemma {:induction false} IngestMeans(c: Checks, s: ServerState, events: seq<DeviceEvent>)
    ensures var (after, r) := Ingested(c, s, events);
            var ordered := SortByStamp(events);
            if !s.active then after == s && r == Failure(NotActive)
            else if Unsortable(events) then after == s && r == Failure(InvalidStamp)
            else
              && (r.Success? <==> NoneFails(c, s.log, s.head, ordered))
              && (forall n: nat | FirstFails(c, s.log, s.head, ordered, n) ::
                    && after == s.(log := s.log + New(s.log, ordered[..n]))
                    && r.Failure? && NamesFirstFailure(c, ordered[n], r.error))
              && (r.Success? ==>
                    && after == s.(log := s.log + New(s.log, ordered), head := HeadAfter(s.head, New(s.log, ordered)))
                    && r.value == EventIds(ordered))
  {
    if s.active && !Unsortable(events) {
      SortedMeans(c, s, SortByStamp(events));
    }
  }

  lemma {:induction false} SortedMeans(c: Checks, s: ServerState, ordered: seq<DeviceEvent>)
    ensures var p := Process(c, Progress(s.log, s.head, None), ordered);
            && (p.error.None? <==> NoneFails(c, s.log, s.head, ordered))
            && (forall n: nat | FirstFails(c, s.log, s.head, ordered, n) ::
                  && p.log == s.log + New(s.log, ordered[..n])
                  && p.error.Some? && NamesFirstFailure(c, ordered[n], p.error.value))
            && (p.error.None? ==>
                  p.log == s.log + New(s.log, ordered) && p.head == HeadAfter(s.head, New(s.log, ordered)))
  {
    forall n: nat | FirstFails(c, s.log, s.head, ordered, n)
      ensures var p := Process(c, Progress(s.log, s.head, None), ordered);
              && p.log == s.log + New(s.log, ordered[..n])
              && p.error.Some? && NamesFirstFailure(c, ordered[n], p.error.value)
    {
      ProcessStopsAt(c, s.log, s.head, ordered, n);
    }
    if NoneFails(c, s.log, s.head, ordered) {
      ProcessTakesNew(c, s.log, s.head, ordered);
    } else {
      var n: nat :| n < |ordered| && FailsAt(c, s.log, s.head, ordered, n);
      var first := FindFirst(c, s.log, s.head, ordered, n);
    }
  }

  // ------------------------------------------------- what was let in is good

  /** Each was not stored, hashes as it says, is signed by the device, and carries the hash
      of the one before it, the first that of the head. */
  ghost predicate Admissible(c: Checks, log: seq<DeviceEvent>, head: Option<Text>, added: seq<DeviceEvent>) {
    forall k | 0 <= k < |added| ::
      !Stored(log + added[..k], added[k].signable.eventId) && Passes(c, HeadAfter(head, added[..k]), added[k])
  }

  lemma {:induction false} OneMoreAdmissible(
      c: Checks, log: seq<DeviceEvent>, head: Option<Text>, added: seq<DeviceEvent>, e: DeviceEvent)
    requires Admissible(c, log, head, added)
    requires !Stored(log + added, e.signable.eventId) && Passes(c, HeadAfter(head, added), e)
    ensures Admissible(c, log, head, added + [e])
  {
    forall k | 0 <= k <= |added|
      ensures !Stored(log + (added + [e])[..k], (added + [e])[k].signable.eventId)
      ensures Passes(c, HeadAfter(head, (added + [e])[..k]), (added + [e])[k])
    {
      assert (added + [e])[..k] == added[..k];
      assert k == |added| ==> added[..k] == added;
    }
  }

  lemma {:induction false} NewIsAdmissible(c: Checks, log: seq<DeviceEvent>, head: Option<Text>, events: seq<DeviceEvent>)
    requires NoneFails(c, log, head, events)
    ensures Admissible(c, log, head, New(log, events))
  {
    if events != [] {
      var n := |events| - 1;
      NoneFailsBefore(c, log, head, events, n);
      NewIsAdmissible(c, log, head, events[..n]);
      assert !FailsAt(c, log, head, events, n);
      if !Stored(log + New(log, events[..n]), events[n].signable.eventId) {
        OneMoreAdmissible(c, log, head, New(log, events[..n]), events[n]);
      }
    }
  }

  /** For any request from any device: what an ingest adds to the log is admissible. */
  lemma {:induction false} IngestAddsOnlyAdmissible(c: Checks, s: ServerState, events: seq<DeviceEvent>)
    returns (added: seq<DeviceEvent>)
    ensures Ingested(c, s, events).0.log == s.log + added && Admissible(c, s.log, s.head, added)
  {
    var ordered := SortByStamp(events);
    IngestMeans(c, s, events);
    added := [];
    if s.active && !Unsortable(events) {
      if NoneFails(c, s.log, s.head, ordered) {
        NewIsAdmissible(c, s.log, s.head, ordered);
        added := New(s.log, ordered);
      } else {
        var n: nat :| n < |ordered| && FailsAt(c, s.log, s.head, ordered, n);
        var first := FindFirst(c, s.log, s.head, ordered, n);
        NoneFailsBefore(c, s.log, s.head, ordered, first);
        NewIsAdmissible(c, s.log, s.head, ordered[..first]);
        added := New(s.log, ordered[..first]);
      }
    } else {
      assert s.log + [] == s.log;
    }
  }

  // --------------------------------------------------- order of a batch

  /** The events of a batch whose stamps read as `x`, as they stand. */
  function WithStamp(events: seq<DeviceEvent>, x: HlcState): seq<DeviceEvent> {
    if events == [] then []
    else (if ReadsAs(events[0], x) then [events[0]] else []) + WithStamp(events[1..], x)
  }

  predicate ReadsAs(e: DeviceEvent, x: HlcState) {
    Decode(e.signable.hlc) == Some(x)
  }

  lemma {:induction false} BeforeReadsOtherwise(a: DeviceEvent, b: DeviceEvent, x: HlcState)
    requires IsStamp(a.signable.hlc) && IsStamp(b.signable.hlc) && EventBefore(a, b)
    ensures !(ReadsAs(a, x) && ReadsAs(b, x))
  {
    CompareDecides(a.signable.hlc, b.signable.hlc);
  }

  lemma {:induction false} WithStampFirst(e: DeviceEvent, rest: seq<DeviceEvent>, x: HlcState)
    ensures WithStamp([e] + rest, x) == (if ReadsAs(e, x) then [e] else []) + WithStamp(rest, x)
  {
    assert ([e] + rest)[1..] == rest;
  }

  lemma {:induction false} InsertIsStable(e: DeviceEvent, events: seq<DeviceEvent>, x: HlcState)
    requires IsStamp(e.signable.hlc) && AllStamped(events)
    ensures WithStamp(InsertByStamp(e, events), x) == WithStamp([e] + events, x)
  {
    if events != [] && EventBefore(events[0], e) {
      var first, rest := events[0], events[1..];
      InsertIsStable(e, rest, x);
      BeforeReadsOtherwise(first, e, x);
      WithStampFirst(first, InsertByStamp(e, rest), x);
      WithStampFirst(e, rest, x);
      WithStampFirst(e, events, x);
      Passing(if ReadsAs(first, x) then [first] else [], if ReadsAs(e, x) then [e] else [], WithStamp(rest, x));
    }
  }

  lemma {:induction false} Passing(a: seq<DeviceEvent>, b: seq<DeviceEvent>, rest: seq<DeviceEvent>)
    requires a == [] || b == []
    ensures a + (b + rest) == b + (a + rest)
  {
  }

  /** A batch that can be sorted is arranged so that no event stands before one with an
      earlier stamp, and events whose stamps read alike stay in the order they came in. */
  lemma {:induction false} SortMeans(events: seq<DeviceEvent>, x: HlcState)
    requires AllStamped(events)
    ensures multiset(SortByStamp(events)) == multiset(events) && NoInversion(SortByStamp(events))
    ensures WithStamp(SortByStamp(events), x) == WithStamp(events, x)
  {
    SortKeepsElements(events);
    SortIsOrdered(events);
    SortIsStable(events, x);
  }

  lemma {:induction false} SortIsStable(events: seq<DeviceEvent>, x: HlcState)
    requires AllStamped(events)
    ensures WithStamp(SortByStamp(events), x) == WithStamp(events, x)
  {
    if events != [] {
      var rest := events[1..];
      assert AllStamped(rest);
      SortIsStable(rest, x);
      SortIsOrdered(rest);
      InsertIsStable(events[0], SortByStamp(rest), x);
      WithStampFirst(events[0], SortByStamp(rest), x);
    }
  }

  // ------------------------------------------------ ingests side by side

  /** What may happen at a gateway, on any requests. */
  datatype Move =
    | Begin(events: seq<DeviceEvent>)
    | Read(job: nat)
    | Look(job: nat)
    | Append(job: nat)
    | Finish(job: nat)
    | Abandon(job: nat)
    | Activate(active: bool)

  function Moved(c: Checks, g: Gateway, move: Move): Gateway {
    match move
    case Begin(events) => Opened(g, events)
    case Read(j) => HeadRead(g, j)
    case Look(j) => Looked(c, g, j)
    case Append(j) => Appended(g, j)
    case Finish(j) => Finished(g, j)
    case Abandon(j) => Abandoned(g, j)
    case Activate(active) => g.(active := active)
  }

  function Served(c: Checks, moves: seq<Move>): Gateway {
    if moves == [] then Gateway([], None, 0, true, [])
    else Moved(c, Served(c, moves[..|moves| - 1]), moves[|moves| - 1])
  }

  /** An event that is not stored is appended exactly when it passes; otherwise the ingest is
      refused, with the event's name and the first test it fails, and nothing else changes. */
  lemma {:induction false} LookMeans(c: Checks, g: Gateway, j: nat)
    requires AtEvent(g, j, Looking)
    ensures var e, job, after := NextEventOf(g, j), g.jobs[j], Looked(c, g, j);
            && |after.jobs| == |g.jobs| && after == g.(jobs := g.jobs[j := after.jobs[j]])
            && if Stored(g.log, e.signable.eventId) then after.jobs[j] == job.(at := job.at + 1)
               else if Passes(c, job.head, e) then after.jobs[j] == job.(phase := Appending)
               else
                 && after.jobs[j].phase.Closed? && after.jobs[j].refusal.Some?
                 && NamesFirstFailure(c, e, after.jobs[j].refusal.value)
  {
    assert Looked(c, g, j).jobs[j] == LookedUp(c, g.jobs[j], Stored(g.log, NextEventOf(g, j).signable.eventId), NextEventOf(g, j));
  }

  /** An ingest begins only on an active device and a batch that can be sorted. */
  lemma {:induction false} BeginMeans(g: Gateway, events: seq<DeviceEvent>)
    ensures Opened(g, events)
         == if g.active && !Unsortable(events)
            then g.(jobs := g.jobs + [Job(SortByStamp(events), 0, None, 0, Opening, None)])
            else g
  {
  }

  /** The hash of some event with that hash, signed by this device. */
  ghost predicate SignedHash(c: Checks, head: Option<Text>) {
    head.None? || exists e: DeviceEvent :: Genuinely(c, e) && e.eventHash == head.value
  }

  ghost predicate JobPassed(c: Checks, job: Job) {
    && SignedHash(c, job.head)
    && (job.phase.Appending? ==> job.at < |job.events| && Passes(c, job.head, job.events[job.at]))
  }

  ghost predicate EventPassed(c: Checks, e: DeviceEvent) {
    Genuinely(c, e) && SignedHash(c, e.signable.prevHash)
  }

  ghost predicate AllPassed(c: Checks, g: Gateway) {
    && SignedHash(c, g.head)
    && (forall i | 0 <= i < |g.log| :: EventPassed(c, g.log[i]))
    && (forall j | 0 <= j < |g.jobs| :: JobPassed(c, g.jobs[j]))
    && DistinctEvents(g.log)
  }

  lemma {:induction false} JobReplacedPassed(c: Checks, g: Gateway, j: nat, job: Job)
    requires AllPassed(c, g) && j < |g.jobs| && JobPassed(c, job)
    ensures AllPassed(c, g.(jobs := g.jobs[j := job]))
  {
  }

  lemma {:induction false} LookedPassed(c: Checks, g: Gateway, j: nat)
    requires AllPassed(c, g)
    ensures AllPassed(c, Looked(c, g, j))
  {
    if AtEvent(g, j, Looking) {
      assert JobPassed(c, g.jobs[j]);
      LookMeans(c, g, j);
      JobReplacedPassed(c, g, j, Looked(c, g, j).jobs[j]);
    }
  }

  /** What is appended is the event that passed, by the head its ingest goes by. */
  lemma {:induction false} AppendStoresPassed(c: Checks, g: Gateway, j: nat)
    requires AllPassed(c, g) && AtEvent(g, j, Appending)
    ensures var e := NextEventOf(g, j);
            && Passes(c, g.jobs[j].head, e)
            && Appended(g, j).log == (if Stored(g.log, e.signable.eventId) then g.log else g.log + [e])
  {
    assert JobPassed(c, g.jobs[j]);
  }

  lemma {:induction false} AppendedPassed(c: Checks, g: Gateway, j: nat)
    requires AllPassed(c, g)
    ensures AllPassed(c, Appended(g, j))
  {
    if AtEvent(g, j, Appending) {
      AppendStoresPassed(c, g, j);
      var e, after := NextEventOf(g, j), Appended(g, j);
      assert JobPassed(c, g.jobs[j]);
      assert SignedHash(c, Some(e.eventHash));
      LogPassed(c, g, after.log, e);
      JobReplacedPassed(c, g.(log := after.log), j, after.jobs[j]);
    }
  }

  lemma {:induction false} LogPassed(c: Checks, g: Gateway, log: seq<DeviceEvent>, e: DeviceEvent)
    requires AllPassed(c, g) && EventPassed(c, e)
    requires log == if Stored(g.log, e.signable.eventId) then g.log else g.log + [e]
    ensures AllPassed(c, g.(log := log))
  {
  }

  lemma {:induction false} MovedPassed(c: Checks, g: Gateway, move: Move)
    requires AllPassed(c, g)
    ensures AllPassed(c, Moved(c, g, move))
  {
    match move
    case Look(j) => LookedPassed(c, g, j);
    case Append(j) => AppendedPassed(c, g, j);
    case Read(j) =>
      if InPhase(g, j, Opening) {
        JobReplacedPassed(c, g, j, HeadRead(g, j).jobs[j]);
      }
    case Finish(j) =>
      if IsDone(g, j) {
        assert JobPassed(c, g.jobs[j]);
        JobReplacedPassed(c, g, j, g.jobs[j].(phase := Closed));
      }
    case Abandon(j) =>
      if j < |g.jobs| {
        assert JobPassed(c, g.jobs[j]);
        JobReplacedPassed(c, g, j, g.jobs[j].(phase := Closed));
      }
    case Begin(_) =>
    case Activate(_) =>
  }

  lemma {:induction false} ServedPassed(c: Checks, moves: seq<Move>)
    ensures AllPassed(c, Served(c, moves))
  {
    if moves != [] {
      ServedPassed(c, moves[..|moves| - 1]);
      MovedPassed(c, Served(c, moves[..|moves| - 1]), moves[|moves| - 1]);
    }
  }

  /** Whatever requests a gateway is sent, and however their ingests are interleaved or cut
      off: every event it has stored hashes as it says and is signed by the device, follows
      the hash of an event that does too, or nothing, and is stored once. */
  lemma {:induction false} OnlyGenuineEventsAreStored(c: Checks, moves: seq<Move>)
    ensures var log := Served(c, moves).log;
            && (forall i | 0 <= i < |log| ::
                  HashHolds(c, log[i]) && SignatureHolds(c, log[i]) && SignedHash(c, log[i].signable.prevHash))
            && (forall i, j | 0 <= i < j < |log| :: log[i].signable.eventId != log[j].signable.eventId)
  {
    ServedPassed(c, moves);
    var log := Served(c, moves).log;
    assert forall i | 0 <= i < |log| :: EventPassed(c, log[i]);
  }
}
