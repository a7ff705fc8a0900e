/** The push loop of `drain` against an arbitrary transport. */
module Drain {
  import opened Wrappers
  import opened Texts
  import opened Events
  import opened Store
  import opened Outbox
  import opened Ingest
  import opened Protocol

  /** What one `pushEvents` call comes back with: a thrown error, or the acked ids. */
  datatype PushReply = Failed(message: Text) | Acked(ids: seq<Text>)

  datatype DrainResult = DrainResult(eventsPushed: nat, blocked: Option<Text>)

  /** The gateway's reply to the n-th push of this drain. */
  type Transport = (nat, seq<DeviceEvent>) -> PushReply

  /** What the n-th push of these rows comes back with. */
  type Push = (nat, seq<OutboxRow>) -> PushReply

  ghost predicate Distinct(ids: seq<Text>) {
    forall i, j | 0 <= i < j < |ids| :: ids[i] != ids[j]
  }

  function RowIds(rows: seq<OutboxRow>): (ids: seq<Text>)
    ensures |ids| == |rows|
  {
    seq(|rows|, i requires 0 <= i < |rows| => rows[i].eventId)
  }

  const CANNOT_PARSE: Text := Ascii("Unexpected token in JSON")
  const NOTHING_ACKED: Text := Ascii("the server acknowledged nothing in this batch")

  // --------------------------------------------------- counting the queue

  lemma {:induction false} AckOnePending(rows: seq<OutboxRow>, id: Text)
    requires DistinctIds(rows)
    ensures |Pending(AckOne(rows, id))|
         == |Pending(rows)| - (if exists i :: 0 <= i < |rows| && rows[i].eventId == id && !rows[i].acked then 1 else 0)
  {
    if rows != [] {
      AckOnePending(rows[1..], id);
      assert AckOne(rows, id)[1..] == AckOne(rows[1..], id);
      if rows[0].eventId != id {
        forall i | 0 <= i < |rows[1..]| ensures rows[1..][i] == rows[i + 1] {}
        assert (exists i :: 0 <= i < |rows| && rows[i].eventId == id && !rows[i].acked)
          <==> (exists i :: 0 <= i < |rows[1..]| && rows[1..][i].eventId == id && !rows[1..][i].acked) by {
          if i :| 0 <= i < |rows| && rows[i].eventId == id && !rows[i].acked {
            assert rows[1..][i - 1] == rows[i];
          }
        }
      } else {
        assert forall i | 0 <= i < |rows[1..]| :: rows[1..][i].eventId != id;
      }
    }
  }

  predicate IsPending(rows: seq<OutboxRow>, id: Text) {
    exists i :: 0 <= i < |rows| && rows[i].eventId == id && !rows[i].acked
  }

  /** Acknowledging distinct pending rows takes exactly that many off the queue. */
  lemma {:induction false} AckAllPending(rows: seq<OutboxRow>, ids: seq<Text>)
    requires DistinctIds(rows) && Distinct(ids) && forall id | id in ids :: IsPending(rows, id)
    ensures |Pending(AckAll(rows, ids))| == |Pending(rows)| - |ids|
  {
    if ids == [] {
      assert AckAll(rows, ids) == rows;
    } else {
      var n := |ids| - 1;
      AckAllPending(rows, ids[..n]);
      AckStep(rows, ids, n);
      assert ids[..n + 1] == ids;
      var before := AckAll(rows, ids[..n]);
      assert ids[n] in ids && IsPending(rows, ids[n]);
      var i :| 0 <= i < |rows| && rows[i].eventId == ids[n] && !rows[i].acked;
      assert before[i] == rows[i];
      AckOnePending(before, ids[n]);
    }
  }

  /** A reply moves the loop on exactly when it names a row still pending. */
  lemma {:induction false} ProgressExactlyWhen(rows: seq<OutboxRow>, ids: seq<Text>)
    ensures |Pending(AckAll(rows, ids))| <= |Pending(rows)|
    ensures |Pending(AckAll(rows, ids))| < |Pending(rows)| <==> exists id :: id in ids && IsPending(rows, id)
  {
    AckAllShrinks(rows, ids);
    if id :| id in ids && IsPending(rows, id) {
      var i :| 0 <= i < |rows| && rows[i].eventId == id && !rows[i].acked;
      assert rows[i].eventId in ids;
    }
  }

  lemma {:induction false} AckAllShrinks(rows: seq<OutboxRow>, ids: seq<Text>)
    ensures |Pending(AckAll(rows, ids))| <= |Pending(rows)|
    ensures |Pending(AckAll(rows, ids))| < |Pending(rows)|
       <==> exists i :: 0 <= i < |rows| && !rows[i].acked && rows[i].eventId in ids
  {
    if rows != [] {
      AckAllShrinks(rows[1..], ids);
      assert AckAll(rows, ids)[1..] == AckAll(rows[1..], ids);
      assert forall i | 0 <= i < |rows[1..]| :: rows[1..][i] == rows[i + 1];
      if i :| 0 < i < |rows| && !rows[i].acked && rows[i].eventId in ids {
        assert rows[1..][i - 1] == rows[i];
      }
    }
  }

  lemma {:induction false} PendingIsPending(rows: seq<OutboxRow>)
    ensures forall i | 0 <= i < |Pending(rows)| :: IsPending(rows, Pending(rows)[i].eventId)
  {
    forall i | 0 <= i < |Pending(rows)| ensures IsPending(rows, Pending(rows)[i].eventId) {
      var k := PendingRow(rows, i);
    }
  }

  lemma {:induction false} PendingDistinct(rows: seq<OutboxRow>)
    requires DistinctIds(rows)
    ensures DistinctIds(Pending(rows))
  {
    if rows != [] {
      PendingDistinct(rows[1..]);
      forall i | 0 <= i < |Pending(rows[1..])| ensures Pending(rows[1..])[i].eventId != rows[0].eventId {
        var k := PendingRow(rows[1..], i);
        assert rows[k + 1] == Pending(rows[1..])[i];
      }
    }
  }

  /** What a batch names: rows still pending, each once. */
  lemma {:induction false} BatchIsPending(rows: seq<OutboxRow>, limit: nat)
    requires DistinctIds(rows)
    ensures DistinctIds(FirstPending(rows, limit))
    ensures forall id | id in RowIds(FirstPending(rows, limit)) :: IsPending(rows, id)
  {
    var batch := FirstPending(rows, limit);
    PendingDistinct(rows);
    PendingIsPending(rows);
    forall i | 0 <= i < |batch| ensures batch[i] == Pending(rows)[i] {
    }
  }

  // ------------------------------------------------------ round by round

  /** After a round the loop goes on, or it is done; with the outbox and the result. */
  datatype Turn =
    | Going(rows: seq<OutboxRow>, result: DrainResult)
    | Done(rows: seq<OutboxRow>, result: DrainResult)

  /** One time round the loop. */
  function Round(push: Push, attempt: nat, rows: seq<OutboxRow>, result: DrainResult): Turn {
    var pending := FirstPending(rows, PUSH_BATCH);
    if pending == [] then Done(rows, result)
    else
      match push(attempt, pending)
      case Failed(message) => Done(rows, result.(blocked := Some(message)))
      case Acked(ids) =>
        var after, counted := AckAll(rows, ids), result.(eventsPushed := result.eventsPushed + |ids|);
        if ids == [] then Done(after, counted.(blocked := Some(NOTHING_ACKED)))
        else if |pending| < PUSH_BATCH then Done(after, counted)
        else Going(after, counted)
  }

  /** The loop after `n` rounds. */
  function Rounds(push: Push, rows: seq<OutboxRow>, n: nat): Turn {
    if n == 0 then Going(rows, DrainResult(0, None))
    else
      match Rounds(push, rows, n - 1)
      case Done(r, result) => Done(r, result)
      case Going(r, result) => Round(push, n - 1, r, result)
  }

  lemma {:induction false} NextRound(push: Push, rows: seq<OutboxRow>, n: nat)
    ensures var turn := Rounds(push, rows, n);
            Rounds(push, rows, n + 1) == if turn.Done? then turn else Round(push, n, turn.rows, turn.result)
  {
  }

  ghost predicate Ends(push: Push, rows: seq<OutboxRow>) {
    exists n: nat :: Rounds(push, rows, n).Done?
  }

  lemma {:induction false} DoneStays(push: Push, rows: seq<OutboxRow>, n: nat, m: nat)
    requires n <= m && Rounds(push, rows, n).Done?
    ensures Rounds(push, rows, m) == Rounds(push, rows, n)
  {
    if n < m {
      DoneStays(push, rows, n, m - 1);
    }
  }

  /** A full batch is answered with ids, and none of them is of a row still pending. */
  ghost predicate Stuck(push: Push, attempt: nat, rows: seq<OutboxRow>) {
    var batch := FirstPending(rows, PUSH_BATCH);
    && |batch| == PUSH_BATCH && push(attempt, batch).Acked? && push(attempt, batch).ids != []
    && forall id | id in push(attempt, batch).ids :: !IsPending(rows, id)
  }

  lemma {:induction false} NothingToAck(rows: seq<OutboxRow>, ids: seq<Text>)
    requires forall id | id in ids :: !IsPending(rows, id)
    ensures AckAll(rows, ids) == rows
  {
    forall i | 0 <= i < |rows| && rows[i].eventId in ids ensures rows[i].acked {
      assert !IsPending(rows, rows[i].eventId);
    }
  }

  /** A round that is stuck leaves the outbox as it was, so the next sends the same
      batch; any other round that goes on shortens the queue. */
  lemma {:induction false} RoundMoves(push: Push, attempt: nat, rows: seq<OutboxRow>, result: DrainResult)
    ensures Stuck(push, attempt, rows) ==>
              Round(push, attempt, rows, result).Going? && Round(push, attempt, rows, result).rows == rows
    ensures !Stuck(push, attempt, rows) && Round(push, attempt, rows, result).Going? ==>
              |Pending(Round(push, attempt, rows, result).rows)| < |Pending(rows)|
  {
    var reply := push(attempt, FirstPending(rows, PUSH_BATCH));
    if Stuck(push, attempt, rows) {
      NothingToAck(rows, reply.ids);
    } else if reply.Acked? {
      ProgressExactlyWhen(rows, reply.ids);
    }
  }

  lemma {:induction false} StuckRound(push: Push, rows: seq<OutboxRow>, n: nat)
    requires Rounds(push, rows, n).Going? && Stuck(push, n, Rounds(push, rows, n).rows)
    ensures Rounds(push, rows, n + 1).Going?
    ensures Rounds(push, rows, n + 1).rows == Rounds(push, rows, n).rows
  {
    NextRound(push, rows, n);
    RoundMoves(push, n, Rounds(push, rows, n).rows, Rounds(push, rows, n).result);
  }

  lemma {:induction false} RoundShrinks(push: Push, rows: seq<OutboxRow>, n: nat)
    requires !Ends(push, rows)
    ensures var now, next := Rounds(push, rows, n).rows, Rounds(push, rows, n + 1).rows;
            |Pending(next)| <= |Pending(now)| && (!Stuck(push, n, now) ==> |Pending(next)| < |Pending(now)|)
  {
    assert Rounds(push, rows, n).Going? && Rounds(push, rows, n + 1).Going?;
    NextRound(push, rows, n);
    RoundMoves(push, n, Rounds(push, rows, n).rows, Rounds(push, rows, n).result);
  }

  /** From round `n` on, every round is stuck. */
  ghost predicate HangsFrom(push: Push, rows: seq<OutboxRow>, n: nat) {
    forall m: nat | n <= m :: Rounds(push, rows, m).Going? && Stuck(push, m, Rounds(push, rows, m).rows)
  }

  predicate Unmoved(queue: nat -> seq<OutboxRow>, m: nat) {
    queue(m + 1) == queue(m)
  }

  lemma {:induction false} NeverMoves(queue: nat -> seq<OutboxRow>, n: nat, m: nat)
    requires n <= m && forall k: nat | n <= k :: Unmoved(queue, k)
    ensures queue(m) == queue(n)
    decreases m - n
  {
    if n < m {
      NeverMoves(queue, n, m - 1);
      assert Unmoved(queue, m - 1);
    }
  }

  /** A loop that hangs sends one batch for ever. */
  lemma {:induction false} HangingRepeats(push: Push, rows: seq<OutboxRow>, n: nat, m: nat)
    requires HangsFrom(push, rows, n) && n <= m
    ensures FirstPending(Rounds(push, rows, m).rows, PUSH_BATCH) == FirstPending(Rounds(push, rows, n).rows, PUSH_BATCH)
  {
    var queue := (k: nat) => Rounds(push, rows, k).rows;
    forall k: nat | n <= k ensures Unmoved(queue, k) {
      StuckRound(push, rows, k);
    }
    NeverMoves(queue, n, m);
  }

  /** A length that never grows, and falls unless stuck. */
  predicate Falls(length: nat -> nat, stuck: nat -> bool, m: nat) {
    length(m + 1) <= length(m) && (stuck(m) || length(m + 1) < length(m))
  }

  lemma {:induction false} NeverGrows(length: nat -> nat, stuck: nat -> bool, n: nat, m: nat)
    requires n <= m && forall k: nat :: Falls(length, stuck, k)
    ensures length(m) <= length(n)
    decreases m - n
  {
    if n < m {
      NeverGrows(length, stuck, n, m - 1);
      assert Falls(length, stuck, m - 1);
    }
  }

  lemma {:induction false} StuckInTheEnd(length: nat -> nat, stuck: nat -> bool, n: nat) returns (k: nat)
    requires forall m: nat :: Falls(length, stuck, m)
    ensures forall m: nat | k <= m :: stuck(m)
    decreases length(n)
  {
    if m: nat :| n <= m && !stuck(m) {
      NeverGrows(length, stuck, n, m);
      assert Falls(length, stuck, m);
      k := StuckInTheEnd(length, stuck, m + 1);
    } else {
      k := n;
    }
  }

  lemma {:induction false} FindHang(push: Push, rows: seq<OutboxRow>) returns (k: nat)
    requires !Ends(push, rows)
    ensures HangsFrom(push, rows, k)
  {
    var length := (m: nat) => |Pending(Rounds(push, rows, m).rows)|;
    ghost var stuck := (m: nat) => Stuck(push, m, Rounds(push, rows, m).rows);
    forall m: nat ensures Falls(length, stuck, m) {
      RoundShrinks(push, rows, m);
    }
    k := StuckInTheEnd(length, stuck, 0);
    forall m: nat | k <= m ensures Rounds(push, rows, m).Going? && Stuck(push, m, Rounds(push, rows, m).rows) {
      assert stuck(m);
    }
  }

  /** Whatever the pushes come back with, the loop ends unless from some round on every
      full batch is answered with ids none of which is pending. */
  lemma {:induction false} EndsExactlyWhen(push: Push, rows: seq<OutboxRow>)
    ensures Ends(push, rows) <==> forall n: nat :: !HangsFrom(push, rows, n)
  {
    if Ends(push, rows) {
      var k: nat :| Rounds(push, rows, k).Done?;
      forall n: nat ensures !HangsFrom(push, rows, n) {
        DoneStays(push, rows, k, Max(n, k));
      }
    } else {
      var n := FindHang(push, rows);
    }
  }

  /** What comes back depends on the batch alone. */
  ghost predicate AnswersByBatch(push: Push) {
    forall m: nat, n: nat, batch: seq<OutboxRow> :: push(m, batch) == push(n, batch)
  }

  lemma {:induction false} StuckForGood(push: Push, rows: seq<OutboxRow>, n: nat, m: nat)
    requires AnswersByBatch(push) && n <= m
    requires Rounds(push, rows, n).Going? && Stuck(push, n, Rounds(push, rows, n).rows)
    ensures Rounds(push, rows, m).Going? && Rounds(push, rows, m).rows == Rounds(push, rows, n).rows
    ensures Stuck(push, m, Rounds(push, rows, m).rows)
  {
    if n < m {
      StuckForGood(push, rows, n, m - 1);
      StuckRound(push, rows, m - 1);
      StuckAtAnyAttempt(push, Rounds(push, rows, n).rows, n, m);
    }
  }

  lemma {:induction false} StuckAtAnyAttempt(push: Push, rows: seq<OutboxRow>, n: nat, m: nat)
    requires AnswersByBatch(push) && Stuck(push, n, rows)
    ensures Stuck(push, m, rows)
  {
    var batch := FirstPending(rows, PUSH_BATCH);
    assert push(m, batch) == push(n, batch);
  }

  /** A round the loop reaches with a batch that gets it no further. */
  ghost predicate ReachesStuck(push: Push, rows: seq<OutboxRow>, n: nat) {
    Rounds(push, rows, n).Going? && Stuck(push, n, Rounds(push, rows, n).rows)
  }

  /** Where the batch alone decides: the loop ends if and only if no full batch it
      reaches is answered with ids none of which is pending. */
  lemma {:induction false} EndsIfNeverStuck(push: Push, rows: seq<OutboxRow>)
    requires AnswersByBatch(push)
    ensures Ends(push, rows) <==> forall n: nat :: !ReachesStuck(push, rows, n)
  {
    EndsExactlyWhen(push, rows);
    forall n: nat | ReachesStuck(push, rows, n) ensures HangsFrom(push, rows, n) {
      forall m: nat | n <= m
        ensures Rounds(push, rows, m).Going? && Stuck(push, m, Rounds(push, rows, m).rows)
      {
        StuckForGood(push, rows, n, m);
      }
    }
    forall n: nat | HangsFrom(push, rows, n) ensures ReachesStuck(push, rows, n) {
    }
  }

  // ------------------------------------------------ what the rounds keep

  /** Every push that comes back acknowledges only rows of its batch, each once. */
  ghost predicate AcksItsBatch(push: Push) {
    forall n: nat, batch: seq<OutboxRow> | DistinctIds(batch) && push(n, batch).Acked? ::
      && Distinct(push(n, batch).ids)
      && forall id | id in push(n, batch).ids :: id in RowIds(batch)
  }

  ghost predicate AllRebuild(rows: seq<OutboxRow>) {
    forall i | 0 <= i < |rows| :: ToDeviceEvent(rows[i]).Some?
  }

  /** What holds between rounds: every event counted as pushed is off the queue. */
  ghost predicate Counted(before: seq<OutboxRow>, now: seq<OutboxRow>, pushed: nat) {
    DistinctIds(now) && pushed + |Pending(now)| == |Pending(before)|
  }

  lemma {:induction false} AckKeepsDistinct(rows: seq<OutboxRow>, ids: seq<Text>)
    requires DistinctIds(rows)
    ensures DistinctIds(AckAll(rows, ids))
  {
  }

  lemma {:induction false} RoundCounts(
      push: Push, attempt: nat, before: seq<OutboxRow>, now: seq<OutboxRow>, result: DrainResult)
    requires Counted(before, now, result.eventsPushed) && AcksItsBatch(push)
    ensures var turn := Round(push, attempt, now, result); Counted(before, turn.rows, turn.result.eventsPushed)
  {
    var batch := FirstPending(now, PUSH_BATCH);
    if push(attempt, batch).Acked? {
      var ids := push(attempt, batch).ids;
      BatchIsPending(now, PUSH_BATCH);
      AckAllPending(now, ids);
      AckKeepsDistinct(now, ids);
    }
  }

  lemma {:induction false} RoundsCount(push: Push, rows: seq<OutboxRow>, n: nat)
    requires DistinctIds(rows) && AcksItsBatch(push)
    ensures Counted(rows, Rounds(push, rows, n).rows, Rounds(push, rows, n).result.eventsPushed)
  {
    if n > 0 {
      RoundsCount(push, rows, n - 1);
      NextRound(push, rows, n - 1);
      RoundCounts(push, n - 1, rows, Rounds(push, rows, n - 1).rows, Rounds(push, rows, n - 1).result);
    }
  }

  lemma {:induction false} NotStuck(push: Push, attempt: nat, rows: seq<OutboxRow>)
    requires DistinctIds(rows) && AcksItsBatch(push)
    ensures !Stuck(push, attempt, rows)
  {
    BatchIsPending(rows, PUSH_BATCH);
    var reply := push(attempt, FirstPending(rows, PUSH_BATCH));
    if reply.Acked? && reply.ids != [] {
      assert reply.ids[0] in RowIds(FirstPending(rows, PUSH_BATCH));
    }
  }

  /** Pushes that acknowledge only what they send let the loop end. */
  lemma {:induction false} HonestLoopEnds(push: Push, rows: seq<OutboxRow>)
    requires DistinctIds(rows) && AcksItsBatch(push)
    ensures Ends(push, rows)
  {
    EndsExactlyWhen(push, rows);
    forall n: nat ensures !HangsFrom(push, rows, n) {
      var now := Rounds(push, rows, n).rows;
      RoundsCount(push, rows, n);
      NotStuck(push, n, now);
    }
  }

  /** Whatever comes back: no row changes but for its flag, the loop goes on only while
      nothing blocks it, and what blocks it leaves rows queued. */
  ghost predicate Orderly(before: seq<OutboxRow>, turn: Turn) {
    && RowsExtend(before, turn.rows) && |turn.rows| == |before|
    && (turn.Going? ==> turn.result.blocked.None?)
    && (turn.result.blocked.Some? ==> Pending(turn.rows) != [])
  }

  lemma {:induction false} RoundIsOrderly(
      push: Push, attempt: nat, before: seq<OutboxRow>, rows: seq<OutboxRow>, result: DrainResult)
    requires Orderly(before, Going(rows, result))
    ensures Orderly(before, Round(push, attempt, rows, result))
  {
    var after := Round(push, attempt, rows, result).rows;
    assert RowsExtend(rows, after);
    ExtendIsTransitive(before, rows, after);
    NothingToAck(rows, []);
  }

  lemma {:induction false} Ascend(holds: nat -> bool, n: nat)
    requires holds(0) && forall k: nat | holds(k) :: holds(k + 1)
    ensures holds(n)
  {
    if n > 0 {
      Ascend(holds, n - 1);
    }
  }

  lemma {:induction false} RoundsAreOrderly(push: Push, rows: seq<OutboxRow>, n: nat)
    ensures Orderly(rows, Rounds(push, rows, n))
  {
    ghost var holds := (k: nat) => Orderly(rows, Rounds(push, rows, k));
    forall k: nat | holds(k) ensures holds(k + 1) {
      NextIsOrderly(push, rows, k);
    }
    Ascend(holds, n);
  }

  lemma {:induction false} NextIsOrderly(push: Push, rows: seq<OutboxRow>, n: nat)
    requires Orderly(rows, Rounds(push, rows, n))
    ensures Orderly(rows, Rounds(push, rows, n + 1))
  {
    var turn := Rounds(push, rows, n);
    NextRound(push, rows, n);
    if turn.Going? {
      RoundIsOrderly(push, n, rows, turn.rows, turn.result);
    }
  }

  // ------------------------------------------------ what the replies said

  /** What came back in a round, where the loop got to it with rows to push. */
  function ReplyIn(push: Push, rows: seq<OutboxRow>, k: nat): Option<PushReply> {
    var turn := Rounds(push, rows, k);
    var batch := FirstPending(turn.rows, 100);
    if turn.Done? || batch == [] then None else Some(push(k, batch))
  }

  function IdsOf(reply: Option<PushReply>): seq<Text> {
    match reply case Some(Acked(ids)) => ids case _ => []
  }

  /** Ids acknowledged in the first `n` rounds, one after another. */
  function IdsBy(push: Push, rows: seq<OutboxRow>, n: nat): seq<Text> {
    if n == 0 then [] else IdsBy(push, rows, n - 1) + IdsOf(ReplyIn(push, rows, n - 1))
  }

  /** An error, or a reply that names nothing. */
  predicate Blocks(reply: Option<PushReply>) {
    reply.Some? && IdsOf(reply) == []
  }

  /** Nothing was pushed in a round, or what came back blocks, or there was no more to push. */
  predicate IsLast(push: Push, rows: seq<OutboxRow>, k: nat) {
    var reply := ReplyIn(push, rows, k);
    reply.None? || Blocks(reply) || |FirstPending(Rounds(push, rows, k).rows, 100)| < 100
  }

  /** A row is acknowledged when it was before or some reply named it, and otherwise as it
      was. */
  ghost predicate AckedAs(before: seq<OutboxRow>, now: seq<OutboxRow>, ids: seq<Text>) {
    && |now| == |before|
    && forall i | 0 <= i < |before| :: now[i] == before[i].(acked := before[i].acked || before[i].eventId in ids)
  }

  /** Blocked exactly when a round brought an error, which is then told, or no ids; ended
      exactly when a round was the last. */
  ghost predicate StoppedAs(reply: nat -> Option<PushReply>, last: nat -> bool, n: nat, turn: Turn) {
    && (turn.result.blocked.Some? <==> exists k :: 0 <= k < n && Blocks(reply(k)))
    && (forall k, message | 0 <= k < n && reply(k) == Some(Failed(message)) :: turn.result.blocked == Some(message))
    && (turn.Done? <==> exists k :: 0 <= k < n && last(k))
  }

  ghost predicate StopsAsReplied(push: Push, rows: seq<OutboxRow>, n: nat) {
    StoppedAs((k: nat) => ReplyIn(push, rows, k), (k: nat) => IsLast(push, rows, k), n, Rounds(push, rows, n))
  }

  lemma {:induction false} RoundAcks(
      before: seq<OutboxRow>, rows: seq<OutboxRow>, ids: seq<Text>, more: seq<Text>)
    requires AckedAs(before, rows, ids)
    ensures AckedAs(before, AckAll(rows, more), ids + more)
  {
  }

  /** The outbox and the count are those of the ids acknowledged. */
  ghost predicate CountedAs(rows: seq<OutboxRow>, turn: Turn, ids: seq<Text>) {
    AckedAs(rows, turn.rows, ids) && turn.result.eventsPushed == |ids|
  }

  lemma {:induction false} NextCounts(push: Push, rows: seq<OutboxRow>, n: nat)
    requires CountedAs(rows, Rounds(push, rows, n), IdsBy(push, rows, n))
    ensures CountedAs(rows, Rounds(push, rows, n + 1), IdsBy(push, rows, n + 1))
  {
    NextRound(push, rows, n);
    RoundAcks(rows, Rounds(push, rows, n).rows, IdsBy(push, rows, n), IdsOf(ReplyIn(push, rows, n)));
  }

  lemma {:induction false} LastRound(push: Push, rows: seq<OutboxRow>, n: nat)
    requires Rounds(push, rows, n).Going? && Rounds(push, rows, n).result.blocked.None?
    ensures var next, reply := Rounds(push, rows, n + 1), ReplyIn(push, rows, n);
            && (next.Done? <==> IsLast(push, rows, n))
            && (next.result.blocked.Some? <==> Blocks(reply))
            && (forall message | reply == Some(Failed(message)) :: next.result.blocked == Some(message))
  {
    NextRound(push, rows, n);
  }

  lemma {:induction false} StopsNow(reply: nat -> Option<PushReply>, last: nat -> bool, n: nat, turn: Turn)
    requires forall k: nat | Blocks(reply(k)) :: last(k)
    requires forall k: nat | k < n :: !last(k)
    requires turn.Done? <==> last(n)
    requires turn.result.blocked.Some? <==> Blocks(reply(n))
    requires forall message | reply(n) == Some(Failed(message)) :: turn.result.blocked == Some(message)
    ensures StoppedAs(reply, last, n + 1, turn)
  {
  }

  lemma {:induction false} StopsStill(reply: nat -> Option<PushReply>, last: nat -> bool, n: nat, turn: Turn)
    requires StoppedAs(reply, last, n, turn) && turn.Done? && reply(n).None?
    ensures StoppedAs(reply, last, n + 1, turn)
  {
  }

  /** The outbox, the count, what blocks the loop and whether it has ended are told by what
      came back. */
  ghost predicate FollowsReplies(push: Push, rows: seq<OutboxRow>, n: nat) {
    var turn := Rounds(push, rows, n);
    CountedAs(rows, turn, IdsBy(push, rows, n)) && StopsAsReplied(push, rows, n)
  }

  lemma {:induction false} NextFollows(push: Push, rows: seq<OutboxRow>, n: nat)
    requires FollowsReplies(push, rows, n)
    ensures FollowsReplies(push, rows, n + 1)
  {
    NextCounts(push, rows, n);
    NextStops(push, rows, n);
  }

  lemma {:induction false} NextStops(push: Push, rows: seq<OutboxRow>, n: nat)
    requires StopsAsReplied(push, rows, n)
    ensures StopsAsReplied(push, rows, n + 1)
  {
    var reply, last := (k: nat) => ReplyIn(push, rows, k), (k: nat) => IsLast(push, rows, k);
    var turn := Rounds(push, rows, n);
    if turn.Going? {
      RoundsAreOrderly(push, rows, n);
      LastRound(push, rows, n);
      StopsNow(reply, last, n, Rounds(push, rows, n + 1));
    } else {
      NextRound(push, rows, n);
      StopsStill(reply, last, n, turn);
    }
  }

  /** However far the loop has got, and whatever came back. */
  lemma {:induction false} DrainFollowsReplies(push: Push, rows: seq<OutboxRow>, n: nat)
    ensures FollowsReplies(push, rows, n)
  {
    ghost var holds := (k: nat) => FollowsReplies(push, rows, k);
    assert holds(0) by {
      assert Rounds(push, rows, 0) == Going(rows, DrainResult(0, None));
    }
    forall k: nat | holds(k) ensures holds(k + 1) {
      NextFollows(push, rows, k);
    }
    Ascend(holds, n);
  }

  // ----------------------------------------- pushes that acknowledge it all

  /** The rows of the batches sent from `rows`, and what can be sent of them. */
  ghost predicate AcksAllOf(push: Push, rows: seq<OutboxRow>) {
    forall n: nat, batch: seq<OutboxRow> | (forall row | row in batch :: row.(acked := false) in Unflagged(rows)) ::
      push(n, batch) == Acked(RowIds(batch))
  }

  /** The rows, without their sync flags. */
  function Unflagged(rows: seq<OutboxRow>): set<OutboxRow> {
    set i | 0 <= i < |rows| :: rows[i].(acked := false)
  }

  lemma {:induction false} SameUnflagged(r: seq<OutboxRow>, s: seq<OutboxRow>)
    requires RowsExtend(r, s) && |r| == |s|
    ensures Unflagged(s) <= Unflagged(r)
  {
    forall i | 0 <= i < |s| ensures s[i].(acked := false) in Unflagged(r) {
      assert SameRow(r[i], s[i]);
      assert r[i].(acked := false) in Unflagged(r);
    }
  }

  /** Nothing stops the loop until nothing is queued. */
  ghost predicate Unblocked(turn: Turn) {
    turn.result.blocked.None? && (turn.Done? ==> Pending(turn.rows) == [])
  }

  lemma {:induction false} RoundEmpties(push: Push, attempt: nat, rows: seq<OutboxRow>, result: DrainResult)
    requires DistinctIds(rows) && result.blocked.None?
    requires var batch := FirstPending(rows, PUSH_BATCH); push(attempt, batch) == Acked(RowIds(batch))
    ensures Unblocked(Round(push, attempt, rows, result))
  {
    var batch := FirstPending(rows, PUSH_BATCH);
    if batch != [] {
      BatchIsPending(rows, PUSH_BATCH);
      AckAllPending(rows, RowIds(batch));
    }
  }

  lemma {:induction false} RoundsEmpty(push: Push, rows: seq<OutboxRow>, n: nat)
    requires DistinctIds(rows) && AcksItsBatch(push) && AcksAllOf(push, rows)
    ensures Unblocked(Rounds(push, rows, n))
  {
    ghost var holds := (k: nat) => Unblocked(Rounds(push, rows, k));
    forall k: nat | holds(k) ensures holds(k + 1) {
      NextEmpties(push, rows, k);
    }
    Ascend(holds, n);
  }

  lemma {:induction false} NextEmpties(push: Push, rows: seq<OutboxRow>, n: nat)
    requires DistinctIds(rows) && AcksItsBatch(push) && AcksAllOf(push, rows) && Unblocked(Rounds(push, rows, n))
    ensures Unblocked(Rounds(push, rows, n + 1))
  {
    var turn := Rounds(push, rows, n);
    NextRound(push, rows, n);
    if turn.Going? {
      RoundsCount(push, rows, n);
      RoundsAreOrderly(push, rows, n);
      BatchOfRows(push, n, rows, turn.rows);
      RoundEmpties(push, n, turn.rows, turn.result);
    }
  }

  lemma {:induction false} BatchOfRows(push: Push, attempt: nat, rows: seq<OutboxRow>, now: seq<OutboxRow>)
    requires AcksAllOf(push, rows) && RowsExtend(rows, now) && |rows| == |now|
    ensures var batch := FirstPending(now, PUSH_BATCH); push(attempt, batch) == Acked(RowIds(batch))
  {
    SameUnflagged(rows, now);
    PendingUnflagged(now, PUSH_BATCH);
  }

  /** What a finished loop leaves behind. */
  ghost predicate Drained(push: Push, before: seq<OutboxRow>, now: seq<OutboxRow>, result: DrainResult) {
    && RowsExtend(before, now) && |now| == |before|
    && (result.blocked.Some? ==> Pending(now) != [])
    && (DistinctIds(before) && AcksItsBatch(push) ==>
          && result.eventsPushed + |Pending(now)| == |Pending(before)|
          && (AcksAllOf(push, before) ==> Pending(now) == [] && result.blocked.None?))
  }

  lemma {:induction false} DoneIsDrained(push: Push, rows: seq<OutboxRow>, n: nat)
    requires Rounds(push, rows, n).Done?
    ensures Drained(push, rows, Rounds(push, rows, n).rows, Rounds(push, rows, n).result)
  {
    RoundsAreOrderly(push, rows, n);
    if DistinctIds(rows) && AcksItsBatch(push) {
      RoundsCount(push, rows, n);
      if AcksAllOf(push, rows) {
        RoundsEmpty(push, rows, n);
      }
    }
  }

  // ------------------------------------------------------------- the loop

  /** `pushEvents(deviceId, pending.map(toDeviceEvent))`, and what is caught of it. */
  function Pushing(transport: Transport): Push {
    (n: nat, rows: seq<OutboxRow>) => match ToWire(rows)
                                      case None => Failed(CANNOT_PARSE)
                                      case Some(batch) => transport(n, batch)
  }

  lemma {:induction false} WireIds(rows: seq<OutboxRow>, batch: seq<DeviceEvent>)
    requires ToWire(rows) == Some(batch)
    ensures EventIds(batch) == RowIds(rows)
  {
    if rows != [] {
      var rest := ToWire(rows[1..]).value;
      WireIds(rows[1..], rest);
      assert EventIds(batch) == [rows[0].eventId] + EventIds(rest);
      assert RowIds(rows) == [rows[0].eventId] + RowIds(rows[1..]);
    }
  }

  /** Every reply acknowledges only events of the batch it answers, each once. */
  ghost predicate Honest(transport: Transport) {
    forall n: nat, batch: seq<DeviceEvent> | Distinct(EventIds(batch)) && transport(n, batch).Acked? ::
      && Distinct(transport(n, batch).ids)
      && forall id | id in transport(n, batch).ids :: id in EventIds(batch)
  }

  /** An honest gateway makes honest pushes, so the loop ends and counts right. */
  lemma {:induction false} HonestPushes(transport: Transport)
    requires Honest(transport)
    ensures AcksItsBatch(Pushing(transport))
  {
    forall n: nat, rows: seq<OutboxRow> | DistinctIds(rows) && Pushing(transport)(n, rows).Acked?
      ensures Distinct(Pushing(transport)(n, rows).ids)
      ensures forall id | id in Pushing(transport)(n, rows).ids :: id in RowIds(rows)
    {
      var batch := ToWire(rows).value;
      WireIds(rows, batch);
      forall i, j | 0 <= i < j < |rows| ensures EventIds(batch)[i] != EventIds(batch)[j] {
      }
    }
  }

  lemma {:induction false} BatchRebuilds(rows: seq<OutboxRow>, batch: seq<OutboxRow>)
    requires AllRebuild(rows) && forall row | row in batch :: row.(acked := false) in Unflagged(rows)
    ensures ToWire(batch).Some?
  {
    forall i | 0 <= i < |batch| ensures ToDeviceEvent(batch[i]).Some? {
      assert batch[i].(acked := false) in Unflagged(rows);
      var k :| 0 <= k < |rows| && rows[k].(acked := false) == batch[i].(acked := false);
    }
    ToWireOfRebuilding(batch);
  }

  /** A gateway that acknowledges every batch whole empties every outbox that rebuilds. */
  lemma {:induction false} GenerousPushes(transport: Transport, rows: seq<OutboxRow>)
    requires AllRebuild(rows)
    requires forall n: nat, batch: seq<DeviceEvent> :: transport(n, batch) == Acked(EventIds(batch))
    ensures AcksAllOf(Pushing(transport), rows) && Honest(transport)
  {
    forall n: nat, batch: seq<OutboxRow> | forall row | row in batch :: row.(acked := false) in Unflagged(rows)
      ensures Pushing(transport)(n, batch) == Acked(RowIds(batch))
    {
      BatchRebuilds(rows, batch);
      WireIds(batch, ToWire(batch).value);
    }
  }

  lemma {:induction false} PendingUnflagged(rows: seq<OutboxRow>, limit: nat)
    ensures forall row | row in FirstPending(rows, limit) :: row.(acked := false) in Unflagged(rows)
  {
    forall row | row in FirstPending(rows, limit) ensures row.(acked := false) in Unflagged(rows) {
      var i :| 0 <= i < |FirstPending(rows, limit)| && FirstPending(rows, limit)[i] == row;
      assert row == Pending(rows)[i];
      var k := PendingRow(rows, i);
      assert rows[k].(acked := false) in Unflagged(rows);
    }
  }

  /** A gateway that keeps answering with one id that is not pending is pushed the same
      full batch for ever. */
  lemma {:induction false} OldIdNeverEnds(transport: Transport, rows: seq<OutboxRow>, id: Text, n: nat)
    requires AllRebuild(rows) && |Pending(rows)| >= 100 && !IsPending(rows, id)
    requires forall m: nat, batch: seq<DeviceEvent> :: transport(m, batch) == Acked([id])
    ensures Rounds(Pushing(transport), rows, n).Going? && Rounds(Pushing(transport), rows, n).rows == rows
  {
    if n > 0 {
      OldIdNeverEnds(transport, rows, id, n - 1);
      OldIdIsStuck(transport, rows, id, n - 1);
      StuckRound(Pushing(transport), rows, n - 1);
    }
  }

  lemma {:induction false} OldIdIsStuck(transport: Transport, rows: seq<OutboxRow>, id: Text, attempt: nat)
    requires AllRebuild(rows) && |Pending(rows)| >= PUSH_BATCH && !IsPending(rows, id)
    requires forall m: nat, batch: seq<DeviceEvent> :: transport(m, batch) == Acked([id])
    ensures Stuck(Pushing(transport), attempt, rows)
  {
    PendingUnflagged(rows, PUSH_BATCH);
    BatchRebuilds(rows, FirstPending(rows, PUSH_BATCH));
  }

  /** The push loop comes to where its rounds come to, whenever they come to an end. No
      row changes but for its sync flag. Where pushes acknowledge only what they send,
      every event counted as pushed has left the queue; where they acknowledge all of it,
      nothing is left queued. */
  method Drain(store: FieldStore, transport: Transport) returns (result: DrainResult)
    requires Ends(Pushing(transport), store.outbox)
    modifies store`outbox
    ensures exists n: nat :: Rounds(Pushing(transport), old(store.outbox), n) == Done(store.outbox, result)
    ensures Drained(Pushing(transport), old(store.outbox), store.outbox, result)
  {
    ghost var push, before := Pushing(transport), store.outbox;
    ghost var last: nat :| Rounds(push, before, last).Done?;
    result := DrainResult(0, None);
    var attempt := 0;
    while true
      invariant Rounds(push, before, attempt) == Going(store.outbox, result)
      decreases last - attempt
    {
      if last <= attempt {
        DoneStays(push, before, last, attempt);
      }
      NextRound(push, before, attempt);
      var pending := store.PendingEvents(PUSH_BATCH);
      if |pending| == 0 {
        DoneIsDrained(push, before, attempt + 1);
        break;
      }
      var batch := ToWire(pending);
      if batch.None? {
        result := result.(blocked := Some(CANNOT_PARSE));
        DoneIsDrained(push, before, attempt + 1);
        return;
      }
      var reply := transport(attempt, batch.value);
      attempt := attempt + 1;
      if reply.Failed? {
        result := result.(blocked := Some(reply.message));
        DoneIsDrained(push, before, attempt);
        return;
      }
      store.MarkAcked(reply.ids);
      result := result.(eventsPushed := result.eventsPushed + |reply.ids|);
      if |reply.ids| == 0 {
        result := result.(blocked := Some(NOTHING_ACKED));
        DoneIsDrained(push, before, attempt);
        return;
      }
      if |pending| < PUSH_BATCH {
        DoneIsDrained(push, before, attempt);
        break;
      }
    }
  }
}
