# The offline evidence log, verified

A field inspector works for days without a network. Every answer, exhibit and
signature becomes a signed, hash-chained event in an outbox on the device; the
inspection shown on screen is derived from that log; and the log is drained to a
gateway over a link that loses, delays, repeats and reorders requests, and that may be
ingesting several of them at once. This project
models that path in Dafny and proves what the system's documentation promises of it,
together with the stand-alone encodings and calculations around it.

| file | models |
|---|---|
| `Texts.dfy`, `Numbers.dfy` | JavaScript strings as UTF-16 units: order, digits, padding, split, trim, and the whole numbers `Number` reads in them |
| `Json.dfy`, `JsonRoundTrip.dfy`, `JsonCanonical.dfy`, `Utf8.dfy` | JSON values, `canonicalize`, `JSON.stringify`, `JSON.parse`, and the bytes that are hashed |
| `Events.dfy` | the signed object, its hash, and hash chains |
| `Base64.dfy`, `Hlc.dfy` | the signature encoding and the hybrid logical clock |
| `Store.dfy`, `Outbox.dfy` | the device tables and authoring onto the outbox |
| `Ingest.dfy`, `Drain.dfy` | one whole ingest of the gateway, and the device's push loop |
| `Gateway.dfy`, `GatewayRuns.dfy` | ingests side by side, await by await: what each step does and keeps, and what an ingest alone comes to |
| `Verdicts.dfy` | what an ingest lets in, whoever sent it: the three tests, on any requests and over every run of the gateway |
| `Protocol.dfy`, `ProtocolSteps.dfy`, `Exchange.dfy`, `Delivery.dfy` | device, network and gateway as one transition system, what each step keeps, the exchanges that deliver an outbox, and the results over every run |
| `SideBySide.dfy`, `Overlaps.dfy` | ingests that are cut off or overlap, step by step, and what they leave |
| `Scoring.dfy`, `Inspection.dfy` | scoring, and the operations on an inspection |
| `InspectionLog.dfy`, `InspectionSteps.dfy`, `InspectionRuns.dfy` | what the log says of an inspection, what each call keeps, and the results over every run |
| `FindingOrder.dfy`, `SignOffs.dfy` | the order of findings, the rating of a log, and what a sign-off means |
| `Corrections.dfy`, `AfterSignOff.dfy`, `Exhibits.dfy`, `InspectionRecords.dfy` | which calls are taken, what a correction does, what happens after a sign-off, and what the tables and the log keep of each other |
| `Csv.dfy`, `Token.dfy`, `Calendar.dfy`, `Import.dfy`, `RateLimit.dfy` | the CSV reader and writer, verification tokens, certificate dates, the import planner, the sign-in limiter |

Objects with mutable state are classes (`FieldStore`, `EventAuthor`,
`FieldInspection`, `IngestService`, `UtcDate`, `Limiter`) and loops are loops; each
such method is proved against a function of the old state, and the results below are
proved of those functions, over every run. SHA-256, signing and verifying are
functions passed in; nothing is assumed of them except, in `Protocol.Enrolled`, that
the gateway hashes as the device does and accepts the device's own signatures. No
result rests on SHA-256 having no collisions: binding results say "the same events,
or here are two texts with one hash".

## What the code does where its documentation says otherwise

- `services/sync-gateway/src/sync/ingest.service.ts:54-90` awaits the store between looking
  an event up, appending it and, once and after the loop, recording the chain head, with no
  lock and no transaction; and a client that gives up after a minute
  (`apps/field/src/transport.ts:36-41`) pushes again. So ingests of one device overlap, and
  the recorded head can fall behind the log. An ingest is refused exactly when its next event
  is not stored and the head it goes by is not that of the last event stored
  (`Delivery.RefusedExactlyWhen`); the recorded head is in step exactly when the last ingest
  to write one wrote that of the last event stored, or the outbox holds a collision of
  SHA-256 (`Delivery.HeadInStepExactlyWhen`); and the log never grows again exactly when it
  is not and no ingest under way still has the right head or comes to it
  (`Delivery.StrandedExactlyWhen`). One push cut off before the head is recorded is enough
  (`Overlaps.OneInterruptionStrandsTheDevice`), and so are two overlapping ingests that both
  run to their ends (`Overlaps.OneOverlapStrandsTheDevice`), as after one time-out
  (`Overlaps.TwoEventsCanStrand`); an overlap can also refuse a batch with the recorded head
  in step before and after (`Overlaps.OneOverlapIsRefused`). Ingests that neither overlap nor
  are cut off are never refused (`Delivery.NeverRefusedOneAtATime`). Nothing is lost or stored
  twice in any case (`Delivery.EveryReachableStateIsSafe`).
- `packages/field-core/src/sync.ts:76-84` stops when a reply acknowledges nothing, but a
  full batch answered only with ids that are not pending leaves the queue as it was and
  is sent again. The loop ends exactly when that does not go on for ever
  (`Drain.EndsExactlyWhen`); with a server that answers by the batch alone, exactly when
  it never happens (`Drain.EndsIfNeverStuck`). One old id in every reply is enough
  (`Drain.OldIdNeverEnds`), and a server that acknowledges only what it is sent cannot do
  it (`Drain.HonestLoopEnds`).
- `packages/field-core/src/inspection.ts:277` calls a submitted inspection immutable,
  but answers and exhibits are still taken after submission, on the same conditions as
  before it (`SignOffs.RecordSucceedsExactlyWhen`,
  `Corrections.CaptureSucceedsExactlyWhen`). The rating that was signed then stays behind
  the rating of the log: `AfterSignOff.SubmittedInspectionIsNotClosed` is such a visit,
  for any instrument of one checkpoint. Until an answer is given the rating stands
  (`Corrections.RatingStandsUntilAnswered`), and it is submitted only once
  (`InspectionRuns.SubmittedAtMostOnce`), with the rating the log had then
  (`InspectionRecords.SignedRatingIsTheLogs`).
- `packages/field-core/src/inspection.ts:105-128` inserts the inspection before it authors
  its event, so a start that throws in between, on a check-in that is not made of numbers or
  an event id used before, leaves an inspection that never has one
  (`InspectionRecords.StartedExactlyWhen`).
- `packages/field-core/src/inspection.ts:353-372` reads a ref as two numbers, so "02.3",
  " 2.3" and "2e0.3" all find checkpoint 2.3, while the answer table and the log keep
  them apart (`FindingOrder.SpellingsFindOneCheckpoint`). A checkpoint answered under two
  spellings is weighed twice and raises two findings that stand in no order
  (`AfterSignOff.OneCheckpointRaisesTwoFindings`). Findings increase strictly exactly when
  that has not happened (`SignOffs.FindingsIncreaseExactlyWhen`).
- `packages/domain/src/hlc.ts:5-6` promises that stamps sort as text; this holds below
  10^15 and 10^5 and fails one past either bound (`Hlc.WidthsAreExact`). `hlcReceive` merges
  any stamp that decodes, also one that counts below zero; what is authored next then has
  zeros in front of a sign, which does not decode (`Hlc.NegativeCounterIsUnreadable`). A
  stamp is read back exactly when no negative number is shorter than its field
  (`Hlc.DecodeEncode`).
- `apps/console/lib/csv.ts` reads back what it writes only under the three conditions
  of `Csv.RoundTripExactlyWhen`.
- `services/sync-gateway/src/auth/email-sign-in.controller.ts:36` forgets every key when the
  map is full. A refused key is let through again within its window exactly when one of the
  calls under other keys empties the map (`RateLimit.RefusedUntilCleared`); its own calls do
  not help it (`RateLimit.OwnCallsStayRefused`), and 10001 new keys at one instant do
  (`RateLimit.FloodForgetsAnyKey`). A limit of zero lets one call through.
- `services/sync-gateway/src/console/facility-import.ts:187` keeps the licence of a
  refused row, so a corrected duplicate below it is refused too
  (`Import.RefusedRowHoldsItsLicence`).

## Model

| member | source | states |
|---|---|---|
| `Store.FieldStore.AppendOutbox` | packages/field-core/src/sqlite.ts:362-371 | an insert succeeds exactly when the event id and the (type, id, seq) triple are unused, and then the outbox is the old one with that row, pending, at its end |
| `Store.FieldStore.MarkAcked` | packages/field-core/src/sqlite.ts:390-394 | after the loop exactly the rows whose ids are listed have become acknowledged; nothing else changes |
| `Store.FieldStore.UpsertResponse` | packages/field-core/src/sqlite.ts:299-307 | where the table has no answer under the inspection and checkpoint the row is added at its end; where it has one, that row alone changes, in answer, remark and stamp, and keeps its id and weight; the unique key stays unique |
| `Store.FieldStore.InsertEvidence` | packages/field-core/src/sqlite.ts:318-327 | inserts exactly when the evidence id is unused |
| `Store.FieldStore.InsertInspection` | packages/field-core/src/sqlite.ts:268-280 | inserts exactly when the id is unused |
| `Outbox.EventAuthor.Author` | packages/field-core/src/outbox.ts:59-103 | returns the event and appends the row that the specification gives for the old outbox, or throws and writes nothing |
| `Outbox.AuthoredEventSurvives` | packages/field-core/src/outbox.ts:82-100 | the stored payload, printed and parsed back, rebuilds an event whose hash is the stored hash, for every payload including one with undefined fields |
| `Outbox.AuthorSucceedsExactlyWhen` | packages/field-core/src/outbox.ts:59-103 | on a good log a call throws for two reasons only: the payload is not plain JSON, or the event id was used before |
| `Outbox.AuthorKeepsGoodLog` | packages/field-core/src/outbox.ts:65-100 | one call, for any payload and any wall clock, keeps links, numbering, clock order and re-hashing |
| `Outbox.EveryRunIsAChain` | packages/field-core/src/outbox.ts:59-111 | after any run of calls, with a clock that may stand still, go back or restart: each prev_hash is the previous event_hash, every aggregate is numbered 1..n without gaps, stamps strictly increase |
| `Outbox.SeqNumbersAreOneToN` | packages/field-core/src/sqlite.ts:344-350 | an aggregate's sequence numbers are exactly 1..n, one per event |
| `Outbox.StampsIncrease` | packages/field-core/src/outbox.ts:105-111 | a later row's stamp is strictly later, by the comparator and by (physical, counter) |
| `Outbox.AuthoredStampIsEarliest` | packages/field-core/src/outbox.ts:65-111 | on a good log the stamp of an authored event names the device, is later than the last and not before the wall clock, and is the earliest that is |
| `Outbox.ChainHeadBindsTheOutbox` | packages/field-core/src/sqlite.ts:352-355 | any unbroken chain of events, however numbered and stamped, that hashes to the head of an outbox holds the same events as the outbox, or two different canonical texts with one hash are exhibited |
| `Outbox.AuthorNext` | packages/field-core/src/inspection.ts:295-318 | several events authored in turn: the first that throws ends the call and leaves the earlier ones written |
| `JsonRoundTrip.EscapeRoundTrip` | packages/domain/src/hashing.ts:25 | a quoted string is read back whole whatever follows it, for every sequence of UTF-16 units including unpaired surrogates |
| `JsonRoundTrip.EscapeIsShortest` | packages/domain/src/hashing.ts:25 | no way of writing a text as a literal is shorter than the one printed, but for unpaired surrogates, which are always escaped |
| `JsonRoundTrip.ParseAfterStringify` | packages/field-core/src/outbox.ts:92 | parsing what was printed gives the value back without its undefined fields |
| `JsonCanonical.CanonicalizePrintsNormalForm` | packages/domain/src/hashing.ts:16-43 | canonicalize throws exactly on values that are not plain JSON, and otherwise prints the value with keys sorted and undefined fields dropped at every depth |
| `JsonCanonical.CanonicalTextIdentifiesValues` | packages/domain/src/hashing.ts:11-43 | two plain values have one canonical text if and only if they are the same value up to key order and undefined fields |
| `JsonCanonical.CanonicalTextMeans` | packages/domain/src/hashing.ts:16-43 | the canonical text of a plain value, parsed, is that value with its keys in ascending order of code units at every depth |
| `JsonCanonical.StorageKeepsCanonicalText` | packages/domain/src/hashing.ts:30-40 | a value stored as JSON and read back has the same canonical text |
| `Utf8.CanonicalTextIsWellFormed` | packages/domain/src/hashing.ts:16-43 | a canonical text never holds an unpaired surrogate |
| `Utf8.DecodeEncode` | packages/domain/src/hashing.ts:67 | the bytes of a well-formed text, read by section 3 of RFC 3629 in shortest forms only, are that text |
| `Utf8.EncodeIsInjective` | packages/domain/src/hashing.ts:67 | the UTF-8 bytes of a well-formed text determine it |
| `Utf8.CollisionsAreOfBytes` | packages/domain/src/hashing.ts:66-69 | a collision of event hashes is a collision of the byte hash, not an artefact of the encoding |
| `Events.HashesExactlyPlainPayloads` | packages/domain/src/hashing.ts:66-69 | an event can be hashed exactly when its payload is plain JSON or absent |
| `Events.SameObjectSameEvent` | packages/domain/src/hashing.ts:46-59 | the ten signed fields are what distinguishes events: equal objects mean equal fields and the same payload value |
| `Events.HashedTextHoldsTheEvent` | packages/domain/src/hashing.ts:46-69 | the text hashed, parsed, holds the ten parts of the event under their names and nothing else, keys ascending |
| `Events.EqualHashesSameEvent` | packages/domain/src/hashing.ts:66-69 | equal hashes mean the same event, or exhibit a collision |
| `Events.HeadHashBindsTheChain` | packages/field-core/src/outbox.ts:66-84 | two well-linked chains, of whatever lengths, with one head hash hold the same events in the same order, or exhibit a collision |
| `Base64.BytesToBase64` | packages/domain/src/hashing.ts:109-124 | the loop computes the encoding, of length 4*ceil(n/3) |
| `Base64.Base64ToBytes` | packages/domain/src/hashing.ts:126-143 | the loop with its guarded writes into a buffer of the final size computes the decoding, for any text |
| `Base64.RoundTrip` | packages/domain/src/hashing.ts:109-143 | decoding undoes encoding for every byte string and every length mod 3 |
| `Base64.EncodedLength` | packages/domain/src/hashing.ts:109-124 | the encoding of n bytes has 4*ceil(n/3) characters |
| `Base64.EncodedShape` | packages/domain/src/hashing.ts:109-124 | it ends in as many = as bytes are missing from the last group of three, and is symbols before that |
| `Base64Reading.GroupIsRead` | packages/domain/src/hashing.ts:109-124 | every four characters, read by table 1 of RFC 4648, are the three bytes they stand for, zeros past the end |
| `Hlc.DecodeEncode` | packages/domain/src/hlc.ts:53-69 | decode undoes encode, also when the node id contains colons, exactly when no negative number is shorter than its field; otherwise it throws |
| `Hlc.CompareIsTotalOrder` | packages/domain/src/hlc.ts:72-78 | the comparator is antisymmetric and transitive, and zero exactly between stamps that decode alike |
| `Hlc.StampsSortAsText` | packages/domain/src/hlc.ts:5-15 | stamps whose numbers fit their fields sort as text in the comparator's order |
| `Hlc.WidthsAreExact` | packages/domain/src/hlc.ts:14-15 | text order is clock order below given bounds if and only if the bounds are at most 10^15 and 10^5, written out |
| `Hlc.SendMovesOn` | packages/domain/src/hlc.ts:22-30 | an authored stamp is strictly later than the clock it continues, for any wall clock, and not before the wall clock; it sorts after it exactly when both can be read, as they can from a clock not below zero |
| `Hlc.SendIsEarliest` | packages/domain/src/hlc.ts:22-30 | of all clocks that do not count below zero, are later than the one continued and not before the wall clock, it is the earliest |
| `Hlc.ReceiveIsAboveBoth` | packages/domain/src/hlc.ts:33-51 | merging any stamp that decodes, printed by encode or not, lands strictly above the local and the remote clock, and only a stamp that does not decode throws; the next event authored sorts after the one received if and only if its own stamp can be read |
| `Hlc.ReceiveIsEarliest` | packages/domain/src/hlc.ts:33-51 | of all clocks that do not count below zero, are later than the local and the remote one and not before the wall clock, the merge is the earliest |
| `Hlc.ReceiveStaysReadable` | packages/domain/src/hlc.ts:33-51 | from a clock not below zero it can be read whenever the stamp received does not count below zero |
| `Hlc.NegativeCounterIsUnreadable` | packages/domain/src/hlc.ts:33-69 | a stamp that counts from -1000 is merged, and the next stamp authored decodes nowhere |
| `Numbers.ExponentIsRead` | packages/domain/src/hlc.ts:62-63 | `Number` reads digits with an exponent as that many tens, and with a negative one exactly when that leaves a whole number, the exact quotient |
| `Numbers.RadixIsRead` | packages/domain/src/hlc.ts:62-63 | `Number` reads digits in hexadecimal, octal or binary, marked in either case, as the number they make in that radix |
| `Ingest.IngestService.Ingest` | services/sync-gateway/src/sync/ingest.service.ts:41-93 | the loop leaves the log, the recorded head and the reply that the specification gives: a refusal keeps what was appended before it and leaves the recorded head as it was; what that is on any request is `Verdicts.IngestMeans` |
| `Ingest.ShuffledBatchIsRestored` | services/sync-gateway/src/sync/ingest.service.ts:46-51 | sorting by stamp restores a device's authoring order however a batch arrives |
| `Verdicts.IngestMeans` | services/sync-gateway/src/sync/ingest.service.ts:41-93 | for any request from any device, honest or not: an inactive device and a batch that cannot be sorted are refused; otherwise the batch is refused if and only if, in stamp order, some event is not stored when its turn comes and its hash, its signature or its link fails; the error names the first such event and the first test it fails, and keeps what was new before it; with none, exactly what is new is stored, once each, and the head is that of the last event added |
| `Verdicts.IngestAddsOnlyAdmissible` | services/sync-gateway/src/sync/ingest.service.ts:66-82 | every event an ingest adds was not stored, hashes to its `eventHash`, is signed by the device over that hash, and carries the hash of the event added before it, or the recorded head |
| `Verdicts.SortMeans` | services/sync-gateway/src/sync/ingest.service.ts:46-51 | for events from anyone, the sorted batch holds the same events, none before one with an earlier stamp, and events whose stamps read alike in the order they came in |
| `Verdicts.LookMeans` | services/sync-gateway/src/sync/ingest.service.ts:54-81 | an ingest under way passes over a stored event, goes on to append one that passes the three tests, and otherwise is refused, naming the first that fails |
| `Verdicts.OnlyGenuineEventsAreStored` | services/sync-gateway/src/sync/ingest.service.ts:41-93 | over every run of ingests on arbitrary requests, interleaved and cut off anywhere: every stored event hashes as it says and is signed by the device, follows the hash of an event that does too, or nothing, and no id is stored twice |
| `GatewayRuns.AloneIsIngested` | services/sync-gateway/src/sync/ingest.service.ts:41-93 | for any events, honest or not, an ingest with nothing beside it leaves the log, the recorded head and the reply that one whole call of `ingest` leaves |
| `Delivery.EveryReachableStateIsSafe` | packages/field-core/src/sync.ts:64-85 | in every reachable state of interleaved authoring, pushes, ingests side by side, await by await, requests lost, repeated and shuffled, ingests abandoned anywhere and late replies, the gateway's log is a prefix of the outbox and every acknowledged row is stored in it exactly once |
| `Delivery.DeliveredInOrder` | services/sync-gateway/src/sync/ingest.service.ts:46-51 | in every reachable state a delivered request is taken in hand in the order its events were authored in, however they arrive |
| `Delivery.PushSendsTheOldest` | packages/field-core/src/sync.ts:64-72 | in every reachable state an idle drain pushes the oldest rows not acknowledged, in order, a hundred or as many as there are |
| `Delivery.RefusedExactlyWhen` | services/sync-gateway/src/sync/ingest.service.ts:54-81 | in every reachable state, whatever runs beside it, an ingest is refused exactly when its next event is not stored and the head it goes by is not that of the last row stored; it is a chain break and changes nothing else |
| `Delivery.HeadInStepExactlyWhen` | services/sync-gateway/src/sync/ingest.service.ts:84-90 | over every run the recorded head is what the last ingest to write one wrote, the hash of a stored event, and it is in step exactly when that is the last event stored, or with a collision in the outbox |
| `Delivery.StrandedExactlyWhen` | services/sync-gateway/src/sync/ingest.service.ts:54-90 | over every run, no continuation whatever makes the log grow if and only if the recorded head is not that of the last event stored and no ingest under way has the right head or comes to it with the event it is appending |
| `Delivery.QuietStrandedExactlyWhen` | services/sync-gateway/src/sync/ingest.service.ts:84-90 | with no ingest running, the device is stranded for good if and only if the recorded head is out of step |
| `Delivery.NeverRefusedOneAtATime` | services/sync-gateway/src/sync/ingest.service.ts:54-93 | over every run in which ingests neither overlap nor are abandoned, none is refused, and between them the recorded head is in step |
| `Delivery.EverythingIsDelivered` | packages/field-core/src/sync.ts:64-85 | from every reachable state in step with an idle drain and an active device, finitely many steps acknowledge every row, and the gateway's log is then the whole outbox |
| `Delivery.RowsAreImmutable` | packages/field-core/src/outbox.ts:19-21 | along any run outbox rows are only added, and a row's only change is from pending to acknowledged |
| `Overlaps.CutOffStoresExactlyWhen` | services/sync-gateway/src/sync/ingest.service.ts:54-93 | from any reachable state in step, an ingest cut off after n events stores something if and only if one of those n is not yet stored |
| `Overlaps.CutOffStrandsExactlyWhen` | services/sync-gateway/src/sync/ingest.service.ts:84-90 | from any reachable state in step, a cut-off leaves the head in step if and only if the last stored hash is the one it began from: when it stored nothing, or with a collision in the outbox |
| `Overlaps.OneInterruptionStrandsTheDevice` | services/sync-gateway/src/sync/ingest.service.ts:84-90 | from any reachable state at rest with a row of the next batch not stored, one push cut off before the head is written stores its rows and strands the device for good, or the outbox holds a collision |
| `Overlaps.FirstEventCanStrand` | services/sync-gateway/src/sync/ingest.service.ts:84-90 | such a state is one call away: for any first event, authored, pushed and cut off, the log never grows again |
| `Overlaps.OneOverlapStrandsTheDevice` | services/sync-gateway/src/sync/ingest.service.ts:54-90 | from any reachable state in step with no ingest running, two ingests of sent requests that overlap and both run to their ends store all that was new and strand the device for good, or the outbox holds a collision |
| `Overlaps.OneOverlapIsRefused` | services/sync-gateway/src/sync/ingest.service.ts:54-81 | from any such state there is an overlap in which one ingest is refused although the recorded head is in step before and after, or the outbox holds a collision |
| `Overlaps.RetriesOverlap` | apps/field/src/transport.ts:36-41 | from any reachable state at rest, a push that times out, one more event and a second push bring about two requests that can overlap so |
| `Overlaps.TwoEventsCanStrand` | services/sync-gateway/src/sync/ingest.service.ts:54-90 | for any two first events, pushed one and then both, two overlapping ingests store both and strand the device, or the two are a collision |
| `Drain.Drain` | packages/field-core/src/sync.ts:57-85 | whenever its rounds come to an end the loop comes to the same outbox and result; no row changes but for its flag, and what blocks it leaves rows queued; where pushes acknowledge only what they send, events pushed plus rows still queued are the rows queued at the start, and where they acknowledge all of it nothing is left queued; `DrainFollowsReplies` tells that outbox and result from the replies |
| `Drain.DrainFollowsReplies` | packages/field-core/src/sync.ts:64-85 | after any number of rounds, whatever came back: a row is acknowledged exactly when it was before or a reply named it, and otherwise unchanged; every id in a reply is counted; the loop is blocked exactly when a push failed, with its message, or was answered with no ids, and has ended exactly when a round pushed nothing, was blocked or sent fewer than a hundred rows |
| `Drain.EndsExactlyWhen` | packages/field-core/src/sync.ts:64-85 | for every transport, the loop ends if and only if it is not the case that from some round on every full batch is answered with ids none of which is pending |
| `Drain.EndsIfNeverStuck` | packages/field-core/src/sync.ts:64-85 | with a transport that answers by the batch alone, the loop ends if and only if no full batch it reaches is answered with ids none of which is pending |
| `Drain.HangingRepeats` | packages/field-core/src/sync.ts:64-85 | a loop that does not end sends one and the same batch for ever |
| `Drain.OldIdNeverEnds` | packages/field-core/src/sync.ts:76-84 | with a full batch queued, a gateway whose every reply names one row that is not pending keeps the loop going for ever, on the same rows |
| `Drain.HonestLoopEnds` | packages/field-core/src/sync.ts:64-85 | pushes that acknowledge only rows they send, each once, let the loop end |
| `Drain.HonestPushes` | packages/field-core/src/sync.ts:64-72 | a gateway that acknowledges only events it is sent makes such pushes |
| `Drain.GenerousPushes` | packages/field-core/src/sync.ts:64-72 | a gateway that acknowledges every batch whole acknowledges every row of an outbox whose payloads parse |
| `Drain.ProgressExactlyWhen` | packages/field-core/src/sync.ts:76-84 | acknowledging shortens the queue exactly when it names a row still pending |
| `Drain.AckAllPending` | packages/field-core/src/sqlite.ts:390-399 | acknowledging distinct pending rows takes exactly that many off the queue |
| `Scoring.ScoreInspection` | packages/domain/src/scoring.ts:36-69 | the accumulating loop computes the weighted sums, the twice rounded rating and the band; `WeightsAddUp`, `RatingIsAccurate` and `BandExactlyWhen` say what they are |
| `Scoring.RatingIsAccurate` | packages/domain/src/scoring.ts:50-54 | the rating is a percentage, and the hundredth nearest to the exact ratio, a half rounded up; the displayed value is the whole percent nearest to it, a half rounded up, within 0.505 of the ratio; both are 0 when nothing was answered |
| `Scoring.WeightsAddUp` | packages/domain/src/scoring.ts:40-48 | the two sums are additive over checklists, and one line counts its weight as answered unless it is N/A and towards the rating when it is Yes |
| `Scoring.BandExactlyWhen` | packages/domain/src/scoring.ts:56-66 | critical issues if and only if a critical line is answered No or the rating is below the lower bound; satisfactory if and only if no critical and no major line is and the rating is at both bounds |
| `Scoring.NotApplicableChangesNothing` | packages/domain/src/scoring.ts:3-5 | adding an N/A line changes neither rating nor band |
| `Scoring.CorrectionNeverHurts` | packages/domain/src/scoring.ts:44-66 | correcting a No to Yes or N/A never lowers the rating and never worsens the band once findings are derived again |
| `Corrections.RecordedCorrectionNeverHurts` | packages/field-core/src/inspection.ts:216-253 | over every run, recording Yes or N/A where the latest answer was No never lowers the rating on screen and never worsens its band |
| `Inspection.FieldInspection.Start` | packages/field-core/src/inspection.ts:81-132 | the new tables, check-in columns and structure hash among them, and the result are those the specification gives, error by error; `InspectionRecords.StartWrites` and `StartedExactlyWhen` say what they hold |
| `Inspection.FieldInspection.RecordResponse` | packages/field-core/src/inspection.ts:139-174 | the new tables and the result are those the specification gives: refusals write nothing, an answer is first logged and then upserted; `SignOffs.RecordSucceedsExactlyWhen` says when, and `InspectionRecords.AnswerWrites` what is written |
| `Inspection.FieldInspection.CaptureEvidence` | packages/field-core/src/inspection.ts:182-209 | an exhibit on a known checkpoint adds its row to the evidence table and then its event to the log; an id used before, or an event that cannot be authored, throws at its own place in that order; `Corrections.CaptureSucceedsExactlyWhen` says when, and `Exhibits.CaptureWrites` what is written |
| `Inspection.FieldInspection.MissingRefs` | packages/field-core/src/inspection.ts:256-266 | the nested loops list the refs of the instrument without a row, in instrument order |
| `Inspection.FieldInspection.AuthorFindings` | packages/field-core/src/inspection.ts:294-306 | the loop authors one event per finding, in order, and stops at the first that throws or has no due date |
| `Inspection.FieldInspection.AuthorSubmission` | packages/field-core/src/inspection.ts:294-318 | the findings and then the submission are authored in order, up to the first that throws; a finding without a due date throws before its event |
| `Inspection.FieldInspection.Submit` | packages/field-core/src/inspection.ts:273-332 | the new tables, rating and signatures of the inspection row among them, and the result are those the specification gives, in the order the checks are made; `SignOffs.SignOffSucceedsExactlyWhen` and `SignOffRefusals` say when, and `SubmitMeans` what is written |
| `InspectionLog.FoldFindsLatest` | packages/field-core/src/inspection.ts:139-174 | the log folded forwards and the log read backwards agree on the latest answer to a checkpoint |
| `InspectionLog.UpsertPuts` | packages/field-core/src/sqlite.ts:299-307 | the upsert does to the table what one more event does to the fold of the log |
| `InspectionSteps.ApplyKeepsConsistent` | packages/field-core/src/inspection.ts:81-332 | every call, and every acknowledgement of rows, keeps the log good, the tables in step with it, one submission event per submitted inspection, and every stored answer within the instrument's rules |
| `InspectionRuns.ResponseTableRefinesLog` | packages/field-core/src/inspection.ts:139-174 | after any run a checkpoint has a row exactly when the log records an answer to it, and the row holds the latest answer and remark |
| `InspectionRuns.SubmittedAtMostOnce` | packages/field-core/src/inspection.ts:276-280 | over any run the log holds one InspectionSubmitted for an inspection when it is marked submitted, and none otherwise |
| `InspectionRecords.SignedRatingIsTheLogs` | packages/field-core/src/inspection.ts:307-330 | after any run, whatever was done since, a submitted inspection holds the rating that its InspectionSubmitted event carries, which is the rating of the log before that event, with as many findings as refs were answered No there |
| `InspectionRecords.StartedExactlyWhen` | packages/field-core/src/inspection.ts:97-128 | after any run an inspection has its row exactly when some start got past its checks, and its one InspectionStarted event, with the row's own fields, exactly when that start had a finite check-in and a new event id; otherwise it never has one |
| `InspectionRecords.StartWrites` | packages/field-core/src/inspection.ts:81-132 | a visit that starts is in the table with its reference, facility and check-in, under an instrument for the type of its facility with that instrument's structure hash, unsigned |
| `InspectionRecords.AnswerWrites` | packages/field-core/src/inspection.ts:139-174 | an answer that is taken adds one event, read by the words of the wire format as that answer with its remark and evidence ids, and its row bears the stamp of that event |
| `SignOffs.RatingScoresTheLog` | packages/field-core/src/inspection.ts:216-226 | after any run the rating equals the scoring of the log's latest answers under the bound instrument |
| `SignOffs.LogBandExactlyWhen` | packages/field-core/src/inspection.ts:216-253 | critical issues if and only if the latest answer in the log to a critical checkpoint of the instrument is No or the rating is below the lower bound; satisfactory if and only if that of no critical and no major checkpoint is and the rating is at both bounds |
| `SignOffs.FindingsAreDerived` | packages/field-core/src/inspection.ts:236-253 | in a consistent state deriving findings never throws and gives one per adverse answer, with the instrument's severity and the inspector's remark |
| `SignOffs.SubmitMeans` | packages/field-core/src/inspection.ts:273-332 | a successful sign-off means every ref on the instrument is answered in the log, returns the log's rating, adds exactly one FindingRaised per ref whose latest answer is No, in ref order, each with its severity, summary, due date and a reference numbered from 01, then one InspectionSubmitted with the same count, rating and band and who signed when, and marks this inspection and no other as submitted, with that rating and the signatures; what is written is read back by the words, keys and decimal places of the wire format |
| `SignOffs.PercentIsRead` | packages/field-core/src/inspection.ts:307-309 | the printed rating, read digit by digit as a decimal, is exactly the rating, and ends in no zero that could be left out |
| `SignOffs.FindingsIncreaseExactlyWhen` | packages/field-core/src/inspection.ts:374-379 | the findings of a sign-off stand in strictly increasing numeric order if and only if no two different refs answered No read as the same numbers |
| `SignOffs.CanonicalFindingsIncrease` | packages/field-core/src/inspection.ts:374-379 | so they do when refs are written as the instrument writes them |
| `FindingOrder.RefsSortAsNumbers` | packages/field-core/src/inspection.ts:374-379 | refs as the instrument writes them sort by section and then by checkpoint, as numbers |
| `FindingOrder.RefSortMeans` | packages/field-core/src/inspection.ts:374-379 | for any refs, no answer stands before one whose ref comes first as numbers, and answers whose refs read as the same numbers stand in the order of the table |
| `FindingOrder.SpellingsFindOneCheckpoint` | packages/field-core/src/inspection.ts:353-379 | any two texts that read as the two numbers of a checkpoint, and anything after a second dot, find that checkpoint, and the ref sorts neither before nor after the instrument's own |
| `FindingOrder.PaddedRefsAreAliases` | packages/field-core/src/inspection.ts:353-379 | zeros in front of either number, to any width, find the same checkpoint, under a different ref exactly when there are any |
| `FindingOrder.SpacedRefsAreAliases` | packages/field-core/src/inspection.ts:353-379 | so does white space around either number |
| `AfterSignOff.OneCheckpointRaisesTwoFindings` | packages/field-core/src/inspection.ts:236-306 | a visit in which one checkpoint is answered No under its own ref and any other spelling is signed off with two findings for it, in no strict order |
| `AfterSignOff.SubmittedInspectionIsNotClosed` | packages/field-core/src/inspection.ts:139-209 | that visit, once submitted, still takes an answer and an exhibit: the answer is the latest in the log and the rating on screen becomes 50%, while the rating signed stays 0% in the table and in its InspectionSubmitted event |
| `AfterSignOff.PaddedVisitIsProper` | packages/field-core/src/inspection.ts:353-372 | there are such visits for every instrument of one weighty checkpoint: zeros in front of either number of its ref make one |
| `Corrections.RatingStandsUntilAnswered` | packages/field-core/src/inspection.ts:216-226 | over every run and whatever calls follow, the rating of an inspection is the one it had until the inspection is answered again |
| `Corrections.StartSucceedsExactlyWhen` | packages/field-core/src/inspection.ts:81-132 | after any run a visit starts exactly when its facility and an instrument for it are on the device, its check-in is made of finite numbers and its ids are new |
| `Corrections.CaptureSucceedsExactlyWhen` | packages/field-core/src/inspection.ts:182-209 | after any run an exhibit is taken exactly when its checkpoint is on the instrument, its coordinates are finite and its two ids are new, submitted or not |
| `Exhibits.EveryExhibitIsKept` | packages/field-core/src/inspection.ts:176-209 | after any run every EvidenceCaptured event in the log has its row in the evidence table, for the same inspection and checkpoint and with the same hash, type, time and point |
| `Exhibits.CaptureWrites` | packages/field-core/src/inspection.ts:182-209 | an exhibit that is taken adds one row as it was taken, not yet uploaded, under the id returned, and one event that reads as the exhibit of that row |
| `Exhibits.AnswerIdIsNew` | packages/field-core/src/inspection.ts:159-173 | after any run the id an answer is stored under is the key of no row already in the table |
| `SignOffs.AuthorAllSucceedsExactlyWhen` | packages/field-core/src/inspection.ts:294-318 | several events are all authored exactly when every payload is plain and every id drawn is new |
| `SignOffs.SignOffSucceedsExactlyWhen` | packages/field-core/src/inspection.ts:273-332 | after any run a sign-off succeeds exactly when its checks pass, every finding gets a due date, and the ids it draws are new |
| `SignOffs.ReadyExactlyWhen` | packages/field-core/src/inspection.ts:274-291 | after any run the checks pass exactly when the instrument is on the device, the inspection is not submitted and every ref is answered in the log |
| `SignOffs.SignOffRefusals` | packages/field-core/src/inspection.ts:273-291 | after any run each refusal of a sign-off happens exactly when its reason holds, writes nothing, and the refs named as unanswered are exactly those of the instrument with no answer in the log |
| `SignOffs.RecordSucceedsExactlyWhen` | packages/field-core/src/inspection.ts:139-174 | after any run an answer is taken exactly when its checkpoint is on the instrument, it is N/A only where that is allowed, it has a remark with words when it is No, and its event id is new, submitted or not; it is then the latest in the log, with its remark trimmed |
| `SignOffs.RecordRefusals` | packages/field-core/src/inspection.ts:139-152 | each refusal of an answer happens exactly when its reason holds and writes nothing |
| `Csv.DetectDelimiter` | apps/console/lib/csv.ts:15-24 | the counting loop picks the delimiter by how often each stands outside quotes; `DelimiterIsCommonest` says which that is |
| `Csv.DelimiterIsCommonest` | apps/console/lib/csv.ts:15-24 | the one picked stands at least as often outside quotes as either other; the comma where it is level, then the tab |
| `Csv.FirstLineMeans` | apps/console/lib/csv.ts:28-30 | the delimiter is detected on the text up to the first line feed, or CR and line feed, and a CR alone does not end it |
| `Csv.ParseCsvRecords` | apps/console/lib/csv.ts:27-72 | the character loop computes the records the recursive reading of the text gives, blank ones dropped; `ReadsWhatIsWritten` and `ParsesWhatIsWritten` say what that is |
| `Csv.ReadsWhatIsWritten` | apps/console/lib/csv.ts:36-70 | any sheet, with any delimiter, any cells in quotes or bare, quotes doubled, and any mix of LF, CR and CRLF line ends, the last with or without one, is read as the texts of its cells, record by record |
| `Csv.ParsesWhatIsWritten` | apps/console/lib/csv.ts:27-72 | a whole file written so, with or without a byte-order mark, is parsed as the texts of its cells with blank lines dropped, where its delimiter is the one detected on its first line |
| `Csv.ReadUnclosed` | apps/console/lib/csv.ts:36-70 | a quote that is never closed holds everything after it |
| `Csv.ReadKeeps` | apps/console/lib/csv.ts:37-66 | with any delimiter, reading loses no character but quotes, line breaks and delimiters |
| `Csv.RoundTripExactlyWhen` | apps/console/lib/csv.ts:27-96 | reading a written sheet gives it back if and only if every record has a field that is not blank, the text does not begin with a byte-order mark, and the delimiter detected on its first line is the comma |
| `Csv.PlainHeadingsKeepTheComma` | apps/console/lib/csv.ts:15-24 | headings without tabs or semicolons never change the delimiter |
| `Csv.SemicolonHeadingIsMisread` | apps/console/lib/csv.ts:28-30 | a sheet whose one heading is a;b is not read back |
| `Token.MintVerificationToken` | packages/domain/src/certificate.ts:62-78 | for any number of bytes the loop over a 32-bit accumulator that is never masked prints the base-32 digits of the bytes as one number padded with zero bits; `TokenIsRead` and `TokenShape` say what that is |
| `Token.WriteDigits` | packages/domain/src/certificate.ts:70-73 | the inner loop writes every whole digit the accumulator holds, although its high bits have been shifted out |
| `Token.TokenShape` | packages/domain/src/certificate.ts:56-78 | 16 bytes give 26 alphabet symbols after AA, 35 characters with a dash before each group of four |
| `Token.TokenIsRead` | packages/domain/src/certificate.ts:62-78 | read as one base-32 number by the values of its symbols, a token is its bytes, filled up with zero bits |
| `Token.AlphabetIs` | packages/domain/src/certificate.ts:51-54 | the alphabet is the digits and the capital letters but I, L, O and U, in this order |
| `Token.TokensDiffer` | packages/domain/src/certificate.ts:56-78 | different inputs of one length give different tokens |
| `Calendar.AddMonths` | services/sync-gateway/src/console/certificates.service.ts:205-210 | setting the month and then the date of a copy moves it by the months and then by exactly the days; the original is unchanged |
| `Calendar.DayFromYearIsClosedForm` | services/sync-gateway/src/console/certificates.service.ts:205-210 | the formula of section 21.4.1 of ECMA-262 for 1 January counts the days of whole Gregorian years, before and after 1970 |
| `Calendar.CivilRoundTrip` | services/sync-gateway/src/console/certificates.service.ts:207-208 | year, month and date read from the day a calendar date makes are that date |
| `Calendar.MonthsAfterMeans` | services/sync-gateway/src/console/certificates.service.ts:207 | adding months gives the same date of the target month where it has one, and otherwise as many days into the month after as it falls short |
| `Calendar.CertificateDates` | services/sync-gateway/src/console/certificates.service.ts:120-122 | for every issue date: issue < next due < valid to, valid to is 364 or 365 days on, next due 181 to 184 |
| `Calendar.ValidForAYear` | services/sync-gateway/src/console/certificates.service.ts:121 | validity is 365 days exactly when a 29 February falls in the period, and 364 otherwise |
| `Calendar.DueInHalfAYear` | services/sync-gateway/src/console/certificates.service.ts:122 | the next visit falls due 181 to 184 days after issue |
| `Import.Normalize` | services/sync-gateway/src/console/facility-import.ts:110-131 | the loop gives every column its first cell that is not blank, trimmed |
| `Import.FirstCellMeans` | services/sync-gateway/src/console/facility-import.ts:110-131 | that cell is the one none before which, under a heading for the same column, says anything; none where all are blank |
| `Import.PointIsInTheBox` | services/sync-gateway/src/console/facility-import.ts:145-166 | from two cells or from the single GPS cell, a row gets a point if and only if it gives two numbers that lie in the box one way round; the point lies in the box and is turned round only when as written it does not; no point and no error exactly when all three cells are blank |
| `Import.OneCellReadsAsTwo` | services/sync-gateway/src/console/facility-import.ts:145-157 | one GPS cell with two words, separated by any run of commas, semicolons and white space, reads as the two words in a cell each |
| `Import.PlanImport` | services/sync-gateway/src/console/facility-import.ts:169-229 | the loop with its seen map gives each row the result stated in terms of the rows above it, and counts them; `AcceptedExactlyWhen`, `AcceptedHolds` and `ErrorsExactlyWhen` say what that is |
| `Import.AcceptedCounts` | services/sync-gateway/src/console/facility-import.ts:227-228 | the count is the number of rows that are accepted |
| `Import.AcceptedExactlyWhen` | services/sync-gateway/src/console/facility-import.ts:179-225 | a row is accepted if and only if name, licence, type and point are good and no row above holds the same licence |
| `Import.AcceptedHolds` | services/sync-gateway/src/console/facility-import.ts:205-222 | an accepted facility holds what the row says column by column, and the point it gives when it gives one |
| `Import.ErrorsExactlyWhen` | services/sync-gateway/src/console/facility-import.ts:176-203 | each row is named and numbered as in the sheet, under a heading, and each error stands in it exactly when the row has that fault |
| `Import.AcceptedAreDistinct` | services/sync-gateway/src/console/facility-import.ts:182-187 | accepted licences are pairwise distinct and none was registered |
| `Import.DuplicateNamesFirst` | services/sync-gateway/src/console/facility-import.ts:186-187 | a row is reported as a duplicate of row n exactly when its licence is otherwise good and n is the first row that holds it |
| `Import.PlanningAgainAcceptsNothing` | services/sync-gateway/src/console/facility-import.ts:169-229 | planning the same sheet with the accepted licences registered accepts nothing |
| `Import.RefusedRowHoldsItsLicence` | services/sync-gateway/src/console/facility-import.ts:186-187 | a row that is itself refused still blocks every later row with its licence |
| `RateLimit.Limiter.Allow` | services/sync-gateway/src/auth/email-sign-in.controller.ts:32-42 | the new map and the answer are those the specification gives, including the clearing of a full map |
| `RateLimit.WindowGrants` | services/sync-gateway/src/auth/email-sign-in.controller.ts:40-41 | one window lets through exactly the calls made in it, up to the limit (one, when the limit is zero) |
| `RateLimit.GrantsInAnyInterval` | services/sync-gateway/src/auth/email-sign-in.controller.ts:24-43 | over any run with a clock that never goes back, any 15-minute interval lets a key through at most (2 + clearings in it) times the limit, so twice the limit when the map is not cleared |
| `RateLimit.RefusedUntilCleared` | services/sync-gateway/src/auth/email-sign-in.controller.ts:32-42 | after any run, a refused key is let through again within its window, after further calls under other keys, if and only if one of them empties the map |
| `RateLimit.OwnCallsStayRefused` | services/sync-gateway/src/auth/email-sign-in.controller.ts:36-41 | while the map is not emptied a refused key stays refused to the end of its window, whatever is called under it as well |
| `RateLimit.FloodForgetsExactlyWhen` | services/sync-gateway/src/auth/email-sign-in.controller.ts:32-42 | after any run, calls under new keys at one instant let a key through that was being refused, in the same window, if and only if they and the keys held are more than 10001 |
| `RateLimit.FloodForgetsAnyKey` | services/sync-gateway/src/auth/email-sign-in.controller.ts:32-42 | so 10001 calls under new keys do, whatever is held |

## Left out

- Outbox.EventAuthor.Author: `author` awaits the signer between reading the head and appending; calls are taken not to overlap, so one call is one step.
- Ingest.IngestService.Ingest: one whole call, by itself; ingests side by side are jobs of `Gateway`, one step to an await. One device's events: metrics and the returned cursor are not modelled, and an event id already stored by another device is not considered.
- Drain.Drain: the evidence upload, the pull and the cursor after the push loop are not modelled; authoring between its awaits is in `Protocol` instead. A transport is a function of the attempt and the batch.
- Inspection.FieldInspection.Start: the reference, the distance with its geofence arithmetic and the flag are parameters, as are the random ids.
- Inspection.FieldInspection.CaptureEvidence: the upload of the exhibit is not modelled; its row stays marked as not uploaded.
- Inspection.FieldInspection.Submit: the due date is a function of severity, with no value where the signing time makes none.
- Csv.ParseCsvRecords: `parseSheet`, which keys trimmed fields by heading, and `toDownloadCsv` are not modelled.
- Token.MintVerificationToken: the random source is a parameter, and bitwise operations on the accumulator are written as shifts of numbers cut to 32 bits.
- Base64.Base64ToBytes: bitwise operations are written as arithmetic; on a text that leaves a single symbol over, the lookup past its end is 0, which no written byte depends on.
- Calendar.AddMonths: the time of day, which these calls never move, and the printing of dates.
- Import.PlanImport: the heading words, the type words, `toUpperCase` and `Number` are parameters; sentences are error values.
- RateLimit.Limiter.Allow: the clock is a parameter, and the results over runs assume that it does not go back.
- Scoring.ScoreInspection: exact rationals instead of floating point; the rating is counted in hundredths of a percent.
- Hlc.DecodeEncode: `Number` and `String` are exact on whole numbers of any size, where the source rounds above 2^53 and prints an exponent from 10^21.
- Hlc.ReceiveIsAboveBoth: `Number` is modelled in full on whole numbers (white space, sign, exponent, other radixes, the empty text); a stamp with a fraction or a decimal point, such as "1.5:0:n" or "1.0:0:n", decodes there and not here.
- FindingOrder.SpellingsFindOneCheckpoint: `Number` on the parts of a ref is modelled in full (white space, sign, zeros, exponent, other radixes), but exactly: a part whose digits only round to a whole number as a double is not one here.
- JsonRoundTrip.ParseAfterStringify: `JSON.parse` is modelled on text without insignificant white space, and numbers stand for the text that prints them; integer-like keys are kept in the order written, and a key named `__proto__` is an ordinary key.
- The sync status, its listeners and the identity check of `syncNow`: its single-flight guard (`apps/field/src/auto-sync.ts:67-68`, `:101-103`) is the `inFlight` flag of `Protocol.State`. The gateway answers a job it finishes; what a request that throws is told is the step `GiveUp`.
- Values with `toJSON`, dates and class instances inside payloads: payloads are plain JSON.
- Crashes between the event append and the table update of one call: calls complete, as the code has no step that would recover from it.
- Replacing facilities and instrument versions while inspections are open (`applyBootstrap`): the instruments stay fixed during a run.
- Event ids drawn twice by different devices, and more than one device identity in one store: the chain head and the clock are read without a device filter.
- The pull phase, projections, findings workflow, decisions, escalation, users, sessions, jurisdictions, rendering, charts, maps, paging and translations: presentation, short branch tables, or code that would add only easy members.
