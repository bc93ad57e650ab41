# Verified model of the kernel's hard core

This Dafny project models the parts of the kernel in which several operations, several processes or
failures interact, and proves what they keep. `dafny verify dfyconfig.toml` checks everything.

| files | what they model |
|---|---|
| `Redaction.dfy`, `StreamCodec.dfy`, `AuditJournal.dfy`, `ConsumerGroup.dfy` | the pieces of the event pipeline: recursive redaction, the field list of a stream entry, processing and dead letters, the Redis consumer group |
| `Pipeline.dfy`, `PipelineInvariant.dfy`, `PipelineTheorems.dfy` | outbox, relays, stream, consumers, journal, dead letters and replay as one state machine. Any number of relays and consumers interleave; every remote call can succeed, fail, or take effect and be reported as failed; any process can stop between two steps |
| `FaithfulText.dfy` | a way of printing and reading back that meets what the pipeline assumes of it |
| `ClaimCycles.dfy`, `RelayProgress.dfy` | how often an entry is handled, and how long an outbox row waits |
| `EventServices.dfy`, `PipelineRefinement.dfy`, `DeliveryRefinement.dfy`, `DeliveryInterleaving.dfy`, `RelayRefinement.dfy`, `DeliveryOutcomes.dfy` | the relay and the consumer as imperative classes, what their calls leave of each entry, and the proofs that whatever they do is a run of the pipeline's state machine, of the delivery ledger and of the progress model |
| `ParentGraph.dfy`, `Organisations.dfy`, `CorpusElements.dfy` | trees of parent pointers guarded by a walk that remembers what it has seen |
| `MaterializedPath.dfy`, `PathMoves.dfy`, `DescendantQuery.dfy`, `NoeudUseCases.dfy` | the administrative tree guarded by a prefix test on paths, and the descendant query |
| `JwksCache.dfy`, `JwksVerifier.dfy` | the JWKS cache: single flight, TTL, stale fallback, forced refresh with a cooldown |
| `PriceGrids.dfy`, `PriceGridUseCases.dfy` | price grids, their workflow and the resolved price |
| `CityCounter.dfy` | the counter of attached cities against the real attachments |
| `RefreshTokens.dfy` | refresh-token families: rotation, replay, revocation |

In each component a state is a value, one step or use case is a function of it, and the main lemmas
quantify over every run of those functions. The code that updates objects in place is modelled by
classes whose methods are proved equal to these functions, so that the lemmas speak about the
methods too.

## Assumptions

- Only the relay writes the stream, the consumer group exists before the first XADD, and the stream is
  never trimmed. XCLAIM adds one to the delivery count.
- JSON printed and read back, and a date printed and read back, give the same value (`StreamCodec.Faithful`).
  Numbers are the finite binary64 numbers other than negative zero, dates the instants the language can
  print; `FaithfulText.FaithfulExists` shows that the assumption can be met.
- `evenement_id` has a unique index. Identifiers are fresh uuids; identifier columns refuse the empty text.
- The use cases of the trees, the grids, the cities and the tokens run as serial transactions.
- For the progress bound: rows inserted later sort later, and status updates succeed.
- The clock read by the JWKS cache never goes back. Dates are integers.

## Where the code falls short of its documentation

- The move to the dead letters acknowledges in a `finally`: when reading the entry or storing the letter
  fails, the entry is acknowledged and gone. `PipelineTheorems.AnEventCanBeLost` is such a run;
  `NothingLostIff` says of every run
  exactly when nothing is lost, `AcknowledgedIsKept` that storing every letter is enough.
- The claim timer starts a cycle even while the previous one is still running. Overlapping cycles can break
  the bound on deliveries (`ClaimCycles.OverlapBreaksTheBound`). `BoundedIffNeverLate` says of every run
  exactly when it holds, and cycles that do not overlap meet that condition.
- Reattaching an inner node rewrites only that node. Its descendants keep stale paths, the descendant
  query misses them, and a later move can close a cycle (`PathMoves.InnerMoveLeavesStalePaths`,
  `InnerMoveLetsACycleThrough`). `ExactAllAlongIffQuiet` says exactly which runs keep every path exact,
  `DescendantQuery.QueryRightIff` and `TestRightIff` when the query and the cycle test are right all the same,
  `PathMoves.AcceptedMoveIsAcyclicIff` and `ForestAllAlongIff` exactly which moves and runs keep the tree a tree, and
  `AcceptedCycleIsStale` that a cycle only ever passes through a stale path.
- A node should never stand at a rank without a named level. Creation checks this, reattachment does not
  (`PathMoves.MoveKeepsLevelsNamedIff`, `MoveCanReachAnUnnamedRank`).
- Revoking the family of a replayed token is part of a request that ends in an error. If the request's
  transaction is undone, so is the revocation (`RefreshTokens.ReplayRevokesIffKept`).
- Redaction drops an entry under the key `__proto__`, because assigning that key sets the prototype of
  the result instead of adding an entry. An empty organisation identifier is read back as none. An event
  with an empty type or identifier is never audited.
- The counter of cities can be too high when events are handled out of order, and then stays so
  (`CityCounter.OutOfOrderOvercounts`, `ExcessNeverShrinks`); it is never too low, and exact if and only if
  no decrement met a counter at zero (`ExactIffNothingClamped`).

If something other than the relay wrote the stream, a payload that is no JSON object would reach a dead
letter as raw text, which redaction by field names cannot reach (`AuditJournal.UnreadablePayloadIsKeptRaw`);
under the assumptions above no entry has such a payload.

## Model

| member | source | states |
|---|---|---|
| `Redaction.Idempotent` | src/audit/domain/services/redaction.ts:35-54 | Redacting a value already redacted at the same depth changes nothing, for values of any shape and depth. |
| `Redaction.NothingSensitiveSurvives` | src/audit/domain/services/redaction.ts:10-28 | Wherever a path of the redacted payload ends in a sensitive key, the value there is the text `[REDACTED]`. |
| `Redaction.DepthBounded` | src/audit/domain/services/redaction.ts:29-36 | No path of the redacted payload is longer than six steps, and what lies exactly there is the text `[REDACTED]`. |
| `Redaction.OpenPositionsPreserved` | src/audit/domain/services/redaction.ts:38-53 | Every position above the depth limit that no sensitive key covers is still there after redaction, a scalar with its value, a container with its size or its keys. |
| `Redaction.UnchangedIff` | src/audit/domain/services/redaction.ts:31-54 | Redaction leaves a value as it is if and only if no position of it is too deep, sensitive or lost; in particular a shallow payload without sensitive keys is kept unchanged. |
| `Redaction.SpellingIgnored` | src/audit/domain/services/redaction.ts:45 | A hyphen or an underscore anywhere in a key, and the case of any of its letters, make no difference to its normal form. |
| `Redaction.CapitalsIgnored` | src/audit/domain/services/redaction.ts:45 | Replacing any ASCII capital, anywhere in a key, by the small letter 32 places further on changes neither its normal form nor whether it is sensitive. |
| `Redaction.SensitiveIff` | src/audit/domain/services/redaction.ts:10-26 | A key is sensitive if and only if, separators left out, it spells one of the fifteen names letter by letter, each letter small, capital, or the Kelvin sign for k. |
| `Redaction.RedactValueByLoop` | src/audit/domain/services/redaction.ts:35-54 | The recursive program with its loops computes the redaction the lemmas are about. |
| `Redaction.RedactArrayByLoop` | src/audit/domain/services/redaction.ts:38-40 | Mapping over an array yields the redaction of each item one level deeper, in order. |
| `Redaction.RedactObjectByLoop` | src/audit/domain/services/redaction.ts:42-51 | Filling the result entry by entry, in any order of entries, yields the redacted object. |
| `StreamCodec.RoundTrip` | src/common/kernel-infrastructure/outbox/outbox-relay.service.ts:92-107 | Reading back the field list the relay writes gives every field back, whatever the texts in it are. |
| `StreamCodec.RoundTripExactIff` | src/audit/infrastructure/messaging/redis-streams-consumer.service.ts:237-250 | No information of the event is lost in the stream entry, except that an empty organisation identifier reads back as none: the organisation survives if and only if it is not the empty text. |
| `FaithfulText.FaithfulExists` | src/common/kernel-infrastructure/outbox/outbox-relay.service.ts:92-107 | What the pipeline assumes of printing and reading back can be met: some way of printing gives back every JSON value and every instant. |
| `StreamCodec.LastBindingWins` | src/audit/infrastructure/messaging/redis-streams-consumer.service.ts:238-241 | In a field list of any length, odd ones included, a lookup finds the value after the last occurrence of the key at an even position. |
| `StreamCodec.FieldNames` | src/common/kernel-infrastructure/outbox/outbox-relay.service.ts:92-107 | Each attribute of an event is found in its stream entry under its own name, an absent organisation as the empty text. |
| `StreamCodec.DefaultsOfAnAlienEntry` | src/audit/infrastructure/messaging/redis-streams-consumer.service.ts:243-250 | An entry that carries none of the six names is read as empty identifier and type, no organisation, the present time, an unknown source and an empty object. |
| `StreamCodec.ParseFieldsByLoop` | src/audit/infrastructure/messaging/redis-streams-consumer.service.ts:237-250 | The loop over pairs of fields yields the message the other lemmas speak of, on every list. |
| `AuditJournal.InsertKeepsOneRow` | src/audit/infrastructure/persistence/typeorm/orm-repositories.ts:33-50 | With the unique violation absorbed, an insertion never makes a second row for an event and always leaves the event audited. |
| `AuditJournal.RejectedIff` | src/audit/application/use-cases/process-stream-event.use-case.ts:34-53 | A message is refused if and only if its identifier or type is empty or, its event not being audited yet, its time is unusable or its payload is no JSON object. |
| `AuditJournal.ProcessingInsertsTheImage` | src/audit/application/use-cases/process-stream-event.use-case.ts:33-67 | Processing the stream entry of an event stores exactly that event's redacted image unless the event is audited already, and rejects exactly the events whose identifier or type is empty. |
| `AuditJournal.DeadLetterCarriesTheImage` | src/audit/application/use-cases/dead-letter.use-cases.ts:27-52 | The dead letter built from an event's entry carries the event's image, the delivery count, and no replay date. |
| `AuditJournal.UnreadablePayloadIsKeptRaw` | src/audit/application/use-cases/dead-letter.use-cases.ts:28-49 | A message whose payload is no JSON object is refused by processing, and its dead letter keeps the raw text as it came, unredacted. |
| `AuditJournal.ReplayInsertsTheImage` | src/audit/application/use-cases/dead-letter.use-cases.ts:69-85 | Replaying a dead letter inserts the very row the stream would have inserted: redacting twice, printing and reading back lose nothing. |
| `ConsumerGroup.PartitionsKept` | src/audit/infrastructure/messaging/redis-streams-consumer.service.ts:112-123 | Reading, claiming and acknowledging keep every entry of the stream in exactly one of undelivered, pending, acknowledged. |
| `ConsumerGroup.DeliveriesCounted` | src/audit/infrastructure/messaging/redis-streams-consumer.service.ts:153-179 | XREADGROUP hands out the next entries only, each for the first time; XCLAIM is exactly one delivery more; XACK removes exactly one entry from the pending list. |
| `PipelineInvariant.StepKeepsInv` | src/audit/infrastructure/messaging/redis-streams-consumer.service.ts:143-235 | Each step of any relay, consumer or replay, with every way its remote call can end, keeps the invariant of the whole pipeline. |
| `PipelineTheorems.RunKeepsInv` | src/audit/infrastructure/messaging/redis-streams-consumer.service.ts:103-235 | The pipeline's invariant holds in every reachable state, whatever fails, stops or races. |
| `PipelineTheorems.JournalMirrorsOutbox` | src/audit/application/use-cases/process-stream-event.use-case.ts:33-67 | In every reachable state the journal has at most one row per event and each row is the image of the outbox row with its identifier; so is each dead letter. |
| `PipelineTheorems.ImageIsFaithful` | src/audit/application/use-cases/process-stream-event.use-case.ts:56-64 | An audit row repeats identifier, type, source and timestamp of its event; the organisation, none standing for the empty text; and the redacted payload, which is the payload if and only if redaction has nothing to act on. |
| `PipelineTheorems.StepGrows` | src/audit/infrastructure/persistence/typeorm/orm-repositories.ts:33-50 | No step removes or rewrites an event, a stream entry, an audit row or the content of a dead letter. |
| `PipelineTheorems.HistoryIsNeverRewritten` | src/audit/infrastructure/persistence/typeorm/orm-repositories.ts:33-50 | Over any two successive runs everything stored by the first is still there, unchanged, after the second. |
| `PipelineTheorems.ExactlyOneStatus` | src/audit/infrastructure/messaging/redis-streams-consumer.service.ts:112-123 | Every stream entry is at all times exactly one of undelivered, pending or acknowledged. |
| `PipelineTheorems.StatusChanges` | src/common/kernel-infrastructure/outbox/outbox-event.repository.ts:79-100 | A row becomes published only through the relay, is given up only by a sweep and only when pending with enough attempts, and a published row stays published; attempts grow one by one. |
| `PipelineTheorems.PublishedIsInStream` | src/common/kernel-infrastructure/outbox/outbox-relay.service.ts:92-108 | Every outbox row marked as published has an entry in the stream. |
| `PipelineTheorems.PublishedIsAccountedFor` | src/common/kernel-infrastructure/outbox/outbox-relay.service.ts:92-108 | A published event has an entry that is still to be delivered or acknowledged, or is audited, dead-lettered, or among the entries acknowledged after a failed move. |
| `PipelineTheorems.AcknowledgedIsKept` | src/audit/infrastructure/messaging/redis-streams-consumer.service.ts:188-215 | In runs in which every dead letter could be built and stored, each acknowledged entry is audited or dead-lettered. |
| `PipelineTheorems.FinallyAcknowledges` | src/audit/infrastructure/messaging/redis-streams-consumer.service.ts:209-214 | The acknowledgement in the `finally` leaves the entry kept if and only if its letter was stored or the event was already audited or dead-lettered. |
| `PipelineTheorems.NothingLostIff` | src/audit/infrastructure/messaging/redis-streams-consumer.service.ts:188-215 | All along a run every acknowledged entry is audited or dead-lettered, if and only if the run never acknowledges an entry that is neither, after a move that archived nothing. |
| `PipelineTheorems.AnEventCanBeLost` | src/audit/infrastructure/messaging/redis-streams-consumer.service.ts:188-215 | A concrete run in which a published event ends acknowledged, neither audited nor dead-lettered, because reading the entry for the move failed. |
| `PipelineTheorems.DrainedJournalIsTheOutbox` | src/audit/application/use-cases/process-stream-event.use-case.ts:33-67 | When every row is published and every entry acknowledged and kept, the rows of the journal and of the dead letters together are exactly the images of the outbox; without dead letters the journal alone is. |
| `ClaimCycles.HandledAtMost` | src/audit/infrastructure/messaging/redis-streams-consumer.service.ts:143-186 | With claim cycles that do not overlap, no entry is handled more than maxDeliveries + 1 times, in any interleaving with readers. |
| `ClaimCycles.LeavesThePendingList` | src/audit/infrastructure/messaging/redis-streams-consumer.service.ts:163-180 | An entry that claim cycles have dealt with maxDeliveries + 1 times is no longer pending. |
| `ClaimCycles.StepDelivers` | src/audit/infrastructure/messaging/redis-streams-consumer.service.ts:143-186 | In every step, cycles overlapping or not, the count of a pending entry is its deliveries, which only a late claim takes over maxDeliveries + 1. |
| `ClaimCycles.BoundedIffNeverLate` | src/audit/infrastructure/messaging/redis-streams-consumer.service.ts:163-180 | In every run, cycles overlapping or not, an entry is delivered at most maxDeliveries + 1 times all along if and only if no XCLAIM of it succeeds once its count has passed maxDeliveries. |
| `ClaimCycles.NeverLateLeaves` | src/audit/infrastructure/messaging/redis-streams-consumer.service.ts:163-180 | An entry never claimed late is no longer pending once claim cycles have dealt with it maxDeliveries + 1 times. |
| `ClaimCycles.NoOverlapIsNeverLate` | src/audit/infrastructure/messaging/redis-streams-consumer.service.ts:163-180 | Cycles that do not overlap never claim an entry late. |
| `ClaimCycles.RunKeepsInv` | src/audit/infrastructure/messaging/redis-streams-consumer.service.ts:143-186 | Along every run without overlapping cycles, what the cycle in progress has read still agrees with the delivery counts. |
| `ClaimCycles.OverlapBreaksTheBound` | src/audit/infrastructure/messaging/redis-streams-consumer.service.ts:64-67 | Two claim cycles in progress at once can make an entry be handled three times when the limit is one. |
| `RelayProgress.AttemptedInTime` | src/common/kernel-infrastructure/outbox/outbox-relay.service.ts:66-133 | A pending row with r older pending rows is attempted within floor(r * (m + k - 1) / b) + 1 cycles, however the older rows fail. |
| `RelayProgress.MoveLowers` | src/common/kernel-infrastructure/outbox/outbox-event.repository.ts:71-100 | A move that does not try the row uses up b of the attempts its older rows can still have before they are swept. |
| `RelayProgress.BatchWithout` | src/common/kernel-infrastructure/outbox/outbox-event.repository.ts:71-77 | A batch that leaves a pending row out is full, and made of rows at least as old. |
| `EventServices.OutboxTable.Insert` | src/common/kernel-infrastructure/outbox/outbox-event.repository.ts:51-69 | A new event is stored as pending with no attempt; nothing else changes. |
| `EventServices.OutboxTable.FindPendingBatch` | src/common/kernel-infrastructure/outbox/outbox-event.repository.ts:71-77 | The batch holds distinct pending rows, oldest first, as many as allowed, none of those left out being older; or the query fails. |
| `EventServices.OutboxTable.MarkPublished` | src/common/kernel-infrastructure/outbox/outbox-event.repository.ts:79-81 | Exactly the named row becomes published, if the call took effect. |
| `EventServices.OutboxTable.MarkFailedAttempt` | src/common/kernel-infrastructure/outbox/outbox-event.repository.ts:83-86 | Exactly the named row has one attempt more, if the call took effect. |
| `EventServices.OutboxTable.MarkPermanentlyFailed` | src/common/kernel-infrastructure/outbox/outbox-event.repository.ts:88-100 | Exactly the pending rows with enough attempts are given up if the update took effect, and their number is the answer of one that succeeds. |
| `EventServices.SweepOutcome` | src/common/kernel-infrastructure/outbox/outbox-event.repository.ts:88-100 | The sweep turns exactly the pending rows with enough attempts to failed and leaves the others as they are; the rows it counts are the ones it changed. |
| `EventServices.AuditTable.ExistsByEvenementId` | src/audit/infrastructure/persistence/typeorm/orm-repositories.ts:28-31 | Answers whether some row of the journal is of the event. |
| `EventServices.AuditTable.Save` | src/audit/infrastructure/persistence/typeorm/orm-repositories.ts:33-50 | The row is appended unless the event has one, in which case the call succeeds and changes nothing. |
| `EventServices.DeadLetterTable.Insert` | src/audit/infrastructure/persistence/typeorm/orm-repositories.ts:104-106 | A letter under a new identifier is added, if the call took effect. |
| `EventServices.OutboxRelayService.RelayOne` | src/common/kernel-infrastructure/outbox/outbox-relay.service.ts:88-114 | For every way its three calls can end, the row and the stream end as PipelineRefinement.RelayOneIsARun and RelayedOrCounted require; it throws only when counting the failure fails. |
| `EventServices.OutboxRelayService.RunCycle` | src/common/kernel-infrastructure/outbox/outbox-relay.service.ts:66-86 | One cycle relays the oldest pending rows in order until it is stopped or an error ends it, the failure of the query included; it releases its flag in every case, and does nothing while another cycle is in progress. |
| `EventServices.OutboxRelayService.SweepPermanentFailures` | src/common/kernel-infrastructure/outbox/outbox-relay.service.ts:116-133 | The sweep gives up the rows that failed too often unless the service is stopped or the update fails, raises the alert exactly when it knows of some, and lets no error escape. |
| `EventServices.RedisStreamsConsumerService.Process` | src/audit/application/use-cases/process-stream-event.use-case.ts:33-67 | Stores the row the message calls for and nothing else; throws exactly for a refused message or a failed call. |
| `EventServices.RedisStreamsConsumerService.HandleMessage` | src/audit/infrastructure/messaging/redis-streams-consumer.service.ts:218-235 | A message is acknowledged only after it was processed without error; no failure escapes. |
| `EventServices.RedisStreamsConsumerService.MoveEntryToDeadLetter` | src/audit/infrastructure/messaging/redis-streams-consumer.service.ts:188-215 | The entry is acknowledged whether or not its letter could be stored; the method returns normally only if every call succeeded. |
| `EventServices.RedisStreamsConsumerService.ClaimOne` | src/audit/infrastructure/messaging/redis-streams-consumer.service.ts:163-180 | One line of a claim cycle is moved to the dead letters when delivered too often, otherwise claimed and handled. |
| `EventServices.RedisStreamsConsumerService.RunClaimCycle` | src/audit/infrastructure/messaging/redis-streams-consumer.service.ts:143-186 | A claim cycle asks for pending entries and deals with them in order until an error ends it; nothing happens once stopped or when the question fails. |
| `EventServices.RedisStream.XPending` | src/audit/infrastructure/messaging/redis-streams-consumer.service.ts:153-161 | The answer lists distinct pending entries with their current counts, or the call fails. |
| `EventServices.RedisStreamsConsumerService.ClaimLines` | src/audit/infrastructure/messaging/redis-streams-consumer.service.ts:163-180 | The listed entries are dealt with one by one, up to the error that ends the cycle. |
| `EventServices.RedisStreamsConsumerService.ReadOnce` | src/audit/infrastructure/messaging/redis-streams-consumer.service.ts:109-140 | One turn of the read loop calls `handleMessage` for the entries handed out, one after the other, with the effect that DeliveryOutcomes.ReadTurnOutcome describes. |
| `EventServices.RedisStreamsConsumerService.ReplayDeadLetter` | src/audit/application/use-cases/dead-letter.use-cases.ts:69-89 | A replay is refused for an unknown or already replayed letter, and marks the letter only after processing succeeded. |
| `PipelineRefinement.RelayOneIsARun` | src/common/kernel-infrastructure/outbox/outbox-relay.service.ts:88-114 | One relayed row is three steps of the pipeline machine: the store and the relay's next row agree. |
| `PipelineRefinement.CycleIsARun` | src/common/kernel-infrastructure/outbox/outbox-relay.service.ts:66-86 | A whole relay cycle, to whatever row it gets, is a run of the pipeline machine. |
| `PipelineRefinement.CycleIsAMove` | src/common/kernel-infrastructure/outbox/outbox-relay.service.ts:74-77 | A cycle whose status updates work moves the table exactly as the progress bound assumes: every row of the batch attempted once. |
| `PipelineRefinement.RelayedOrCounted` | src/common/kernel-infrastructure/outbox/outbox-relay.service.ts:88-114 | A row reported published has its entry at the end of the stream; otherwise its attempt is counted once if the count took effect; no other row changes. |
| `PipelineRefinement.HandlingIsARun` | src/audit/infrastructure/messaging/redis-streams-consumer.service.ts:218-235 | Handling one message is a run of the pipeline machine that leaves no consumer in the middle. |
| `PipelineRefinement.MovingIsARun` | src/audit/infrastructure/messaging/redis-streams-consumer.service.ts:188-215 | Moving one entry is a run of the pipeline machine, and the entry is lost exactly when it is acknowledged without a letter. |
| `PipelineRefinement.ClaimCycleIsARun` | src/audit/infrastructure/messaging/redis-streams-consumer.service.ts:143-186 | A claim cycle is a run of the pipeline machine. |
| `PipelineRefinement.ReadLoopIsARun` | src/audit/infrastructure/messaging/redis-streams-consumer.service.ts:109-140 | A turn of the read loop takes no step that the pipeline machine could not take; what it must do is DeliveryOutcomes.ReadTurnOutcome. |
| `PipelineRefinement.ReplayIsARun` | src/audit/application/use-cases/dead-letter.use-cases.ts:69-89 | A manual replay is a run of the pipeline machine. |
| `PipelineRefinement.OneDeliveryAudits` | src/audit/infrastructure/messaging/redis-streams-consumer.service.ts:218-235 | One delivery without a fault audits an auditable event and takes its entry off the pending list; an event that cannot be audited stays pending. |
| `PipelineRefinement.MoveArchivesOrLoses` | src/audit/infrastructure/messaging/redis-streams-consumer.service.ts:188-215 | A move stores the event's image when it can and takes the entry off the pending list even when it cannot. |
| `PipelineRefinement.ReplayedOnce` | src/audit/application/use-cases/dead-letter.use-cases.ts:73-76 | A letter whose replay succeeded is refused by every later replay. |
| `PipelineRefinement.ReplayAudits` | src/audit/application/use-cases/dead-letter.use-cases.ts:78-88 | A replay that succeeds leaves the event audited by its image, whether or not it already was. |
| `DeliveryOutcomes.ReachableTells` | src/audit/infrastructure/messaging/redis-streams-consumer.service.ts:103-235 | In every reachable state the entries, the journal and the group meet what the lemmas below assume of a store, the events being those of the outbox. |
| `DeliveryOutcomes.ReadTurnOutcome` | src/audit/infrastructure/messaging/redis-streams-consumer.service.ts:109-140 | After a turn of the read loop each entry received is acknowledged only if its event is auditable and its image in the journal, and is otherwise pending with one delivery; where no call failed every auditable one is acknowledged; every other entry, row and letter is as before. |
| `DeliveryOutcomes.FailedReadOutcome` | src/audit/infrastructure/messaging/redis-streams-consumer.service.ts:126-133 | A read reported as failed handles nothing; if it took effect, its entries are pending with one delivery. |
| `DeliveryOutcomes.ClaimedLineOutcome` | src/audit/infrastructure/messaging/redis-streams-consumer.service.ts:169-179 | A pending entry of at most maxDeliveries deliveries is claimed, which counts one more, and then acknowledged only with its image in the journal, otherwise left pending. |
| `DeliveryOutcomes.UnclaimedLineOutcome` | src/audit/infrastructure/messaging/redis-streams-consumer.service.ts:169-179 | An entry no longer pending, or not idle long enough, is left alone. |
| `DeliveryOutcomes.UnseenClaimOutcome` | src/audit/infrastructure/messaging/redis-streams-consumer.service.ts:169-185 | A claim that took effect but is reported as failed counts a delivery, handles nothing and ends the cycle. |
| `DeliveryOutcomes.MovedLineOutcome` | src/audit/infrastructure/messaging/redis-streams-consumer.service.ts:164-167 | A pending entry of more than maxDeliveries deliveries gets its letter, with its image and its count, if reading it and storing the letter worked, and is acknowledged if that call took effect; the cycle goes on exactly if all three calls worked. |
| `DeliveryOutcomes.FaultlessClaimCycle` | src/audit/infrastructure/messaging/redis-streams-consumer.service.ts:143-186 | A claim cycle without a fault settles every line: dead-lettered with image and count when delivered too often, otherwise audited and acknowledged, and still pending only if the event cannot be audited. |
| `DeliveryOutcomes.FaultlessCycle` | src/common/kernel-infrastructure/outbox/outbox-relay.service.ts:66-108 | A relay cycle without a fault appends the entries of its batch to the stream, in order and once each, and publishes each of its rows. |
| `DeliveryOutcomes.UnseenAddIsRepeated` | src/common/kernel-infrastructure/outbox/outbox-relay.service.ts:88-114 | An XADD that took effect but is reported as failed leaves the row pending with one attempt more, and the next attempt makes a second entry of the same event. |
| `DeliveryOutcomes.FaultlessReplay` | src/audit/application/use-cases/dead-letter.use-cases.ts:69-89 | The replay, without a fault, of a letter not yet replayed whose event can be audited succeeds: the image is in the journal and the letter bears the date, nothing else changes. |
| `DeliveryOutcomes.RefusedReplay` | src/audit/application/use-cases/dead-letter.use-cases.ts:69-89 | A letter whose event cannot be audited is refused by every replay, and stays unmarked. |
| `DeliveryRefinement.HandlingOnTheLedger` | src/audit/infrastructure/messaging/redis-streams-consumer.service.ts:218-235 | Handling one delivered message is a run of the delivery ledger, and exactly one call counted. |
| `DeliveryRefinement.ReadTurnOnTheLedger` | src/audit/infrastructure/messaging/redis-streams-consumer.service.ts:109-140 | A turn of the read loop is a run of the ledger in which each entry handed out is handled once. |
| `DeliveryRefinement.ClaimCycleOnTheLedger` | src/audit/infrastructure/messaging/redis-streams-consumer.service.ts:143-186 | A claim cycle is a run of the ledger that starts one cycle, ends it, and counts each call of `handleMessage`. |
| `DeliveryRefinement.CallsOnTheLedger` | src/audit/infrastructure/messaging/redis-streams-consumer.service.ts:103-186 | Any sequence of read turns and claim cycles, however their calls end, is a run of the ledger without overlapping cycles. |
| `DeliveryRefinement.HandleMessageIsBounded` | src/audit/infrastructure/messaging/redis-streams-consumer.service.ts:103-186 | Over any sequence of read turns and claim cycles run one after the other, whatever fails, `handleMessage` is called at most maxDeliveries + 1 times for an entry. |
| `DeliveryInterleaving.InterleavingIsALedgerRun` | src/audit/infrastructure/messaging/redis-streams-consumer.service.ts:59-67 | Any interleaving of the read loop with claim cycles that do not overlap, at every `await`, is a run of the ledger without overlapping cycles. |
| `DeliveryInterleaving.InterleavedCallsAreBounded` | src/audit/infrastructure/messaging/redis-streams-consumer.service.ts:103-186 | However the read loop and the claim cycles interleave and whatever fails, `handleMessage` is called at most maxDeliveries + 1 times for an entry. |
| `DeliveryInterleaving.ReceivedEntryIsHandled` | src/audit/infrastructure/messaging/redis-streams-consumer.service.ts:109-139 | What a read brings is queued in the order of the stream; the first entry is handled once and acknowledged, and the others are next. |
| `DeliveryInterleaving.FirstLineIsDealtWith` | src/audit/infrastructure/messaging/redis-streams-consumer.service.ts:163-180 | The first line of a cycle is moved without a call of `handleMessage` when delivered too often, otherwise claimed, handled once and acknowledged, and the cycle is at the next line. |
| `RelayRefinement.CallsAreATrace` | src/common/kernel-infrastructure/outbox/outbox-relay.service.ts:66-133 | Insertions, relay cycles whose status updates work, and sweeps are together a trace of the progress model. |
| `RelayRefinement.ServiceAttemptsInTime` | src/common/kernel-infrastructure/outbox/outbox-relay.service.ts:66-133 | Among the first floor(r * (m + k - 1) / b) + 1 cycles of the service one has the waiting row in its batch, however often XADD fails for older rows. |
| `ParentGraph.MoveKeepsAcyclic` | src/org/application/use-cases/organisation.use-cases.ts:117-126 | Giving a node another parent keeps a forest a forest, provided the node does not lie above that parent. |
| `ParentGraph.MoveBelowItselfMakesACycle` | src/org/application/use-cases/organisation.use-cases.ts:117-123 | Giving a node one of its own descendants, or itself, as its parent makes a cycle. |
| `ParentGraph.WalkEnds` | src/org/infrastructure/persistence/typeorm/orm-repositories.ts:104-116 | A walk up the parents may stop at the end or at a node already seen: on any data, cycles and missing parents included, the target is then out of reach. |
| `Organisations.AlwaysAForest` | src/org/application/use-cases/organisation.use-cases.ts:33-136 | After any run of creations and reattachments the parents exist and there is no cycle. |
| `Organisations.RefusedIffCyclic` | src/org/application/use-cases/organisation.use-cases.ts:113-124 | Between existing organisations a reattachment is refused exactly when it would close a cycle. |
| `Organisations.CreationOutcome` | src/org/application/use-cases/organisation.use-cases.ts:33-51 | In every reachable state a creation is accepted exactly without a mother or under an existing one, stores exactly that mother, and otherwise changes nothing and says why. |
| `Organisations.ReattachmentOutcome` | src/org/application/use-cases/organisation.use-cases.ts:109-136 | In every reachable state a reattachment of a known organisation is accepted exactly when it detaches it or its new mother exists and closes no cycle; it then changes the mother alone. |
| `Organisations.DescendantOrSelfIsAnOrder` | src/org/infrastructure/adapters/organisation-lookup.adapter.ts:39-42 | In every reachable state `isDescendantOrSelf` is reflexive, transitive and antisymmetric. |
| `Organisations.MovedBelow` | src/org/application/use-cases/organisation.use-cases.ts:126-127 | A reattachment carries along exactly the organisations below the moved one; everybody else keeps the same ancestors. |
| `Organisations.OrganisationRepository.IsDescendantOf` | src/org/infrastructure/persistence/typeorm/orm-repositories.ts:100-117 | On any data, corrupted or not, the walk ends and answers whether the candidate is met on the way up from the organisation, itself included. |
| `Organisations.OrganisationRepository.IsDescendantOrSelf` | src/org/infrastructure/adapters/organisation-lookup.adapter.ts:39-42 | Answers the order relation of DescendantOrSelfIsAnOrder. |
| `Organisations.Organisation.ReattachToParent` | src/org/domain/entities/organisation.entity.ts:104-110 | An organisation refuses itself as its mother and is then unchanged; otherwise only its mother changes. |
| `Organisations.OrganisationUseCases.Create` | src/org/application/use-cases/organisation.use-cases.ts:33-51 | Creates the organisation or reports why not, the new table being the one the run lemmas use. |
| `Organisations.OrganisationUseCases.Reattach` | src/org/application/use-cases/organisation.use-cases.ts:109-136 | Reattaches or reports why not, on any stored data, with the errors in the order of the checks. |
| `CorpusElements.AlwaysTrees` | src/referential-engine/application/use-cases/corpus-element.use-cases.ts:49-133 | After any run of attachments and reattachments every parent is in the same corpus and there is no cycle. |
| `CorpusElements.OneCorpusIsAlwaysEnough` | src/referential-engine/application/use-cases/corpus-element.use-cases.ts:124-126 | In every reachable state the walk over the rows of one corpus answers as the walk over the whole table would, and never leaves the corpus. |
| `CorpusElements.RefusedIffCyclic` | src/referential-engine/application/use-cases/corpus-element.use-cases.ts:118-129 | Inside one corpus a reattachment is refused exactly when it would close a cycle. |
| `CorpusElements.AttachmentOutcome` | src/referential-engine/application/use-cases/corpus-element.use-cases.ts:49-84 | An element is attached exactly to an existing corpus and node and under no parent or one of the same corpus, and is stored with just these. |
| `CorpusElements.ReattachmentOutcome` | src/referential-engine/application/use-cases/corpus-element.use-cases.ts:115-133 | A reattachment is accepted exactly when it detaches the element or its new parent is of the same corpus and closes no cycle; it then changes the parent of that element alone. |
| `CorpusElements.WouldCreateCycleInCorpus` | src/referential-engine/domain/entities/corpus-element.entity.ts:100-116 | On any list of elements, with cycles, missing parents or duplicate identifiers, the walk ends and answers whether the element lies on the way up from the candidate. |
| `CorpusElements.CorpusElementRepository.FindByCorpusVersionne` | src/referential-engine/infrastructure/persistence/typeorm/orm-repositories.ts:282-285 | The list read back holds the parents of exactly the rows of the corpus. |
| `CorpusElements.CorpusElementUseCases.Attach` | src/referential-engine/application/use-cases/corpus-element.use-cases.ts:49-84 | Attaches the element or reports why not, in the order of the checks. |
| `CorpusElements.CorpusElementUseCases.Reattach` | src/referential-engine/application/use-cases/corpus-element.use-cases.ts:115-133 | Reattaches the element or reports why not, on any stored data. |
| `MaterializedPath.JoinInjective` | src/referential-engine/domain/entities/noeud-hierarchique.entity.ts:63 | A path has only one splitting into segments. |
| `MaterializedPath.CreationOutcome` | src/referential-engine/application/use-cases/noeud-hierarchique.use-cases.ts:52-110 | A created node is a root of rank 1 of its country and domain, or a child in its parent's country and domain, one rank below it, its path the parent's plus its own identifier; neither is published and both are active; otherwise nothing is stored. |
| `MaterializedPath.ReattachmentOutcome` | src/referential-engine/application/use-cases/noeud-hierarchique.use-cases.ts:196-217 | A reattachment is accepted exactly for a known node without published active child and attached city, to the root or under a node of its country whose path does not start with its own; parent, path and rank alone change. |
| `MaterializedPath.AlwaysShaped` | src/referential-engine/domain/entities/noeud-hierarchique.entity.ts:49-160 | After any run, inner nodes moved or not, every path splits into as many segments as the node's rank, the last being the node; parents exist and are of the same country; the rank is one exactly for roots. |
| `MaterializedPath.ExactMeansExactPaths` | src/referential-engine/domain/entities/noeud-hierarchique.entity.ts:49-100 | That each path is its parent's path plus one segment is the same as each path naming the node's ancestors from the root down. |
| `MaterializedPath.PrefixTestIsExact` | src/referential-engine/domain/entities/noeud-hierarchique.entity.ts:201-209 | Where paths are exact, the comparison of strings holds if and only if the candidate is the node or lies below it in the tree. |
| `MaterializedPath.ExactIsAcyclic` | src/referential-engine/domain/entities/noeud-hierarchique.entity.ts:146-160 | Where paths are exact there is no cycle. |
| `PathMoves.MoveKeepsExactIff` | src/referential-engine/domain/entities/noeud-hierarchique.entity.ts:146-160 | Out of an exact state an accepted move leaves all paths exact if and only if the node is childless or keeps its parent. |
| `PathMoves.AcceptedMoveIsAcyclic` | src/referential-engine/application/use-cases/noeud-hierarchique.use-cases.ts:196-217 | Out of an exact state every accepted move, of inner nodes too, leaves a forest. |
| `PathMoves.RefusedIffCyclic` | src/referential-engine/application/use-cases/noeud-hierarchique.use-cases.ts:207-214 | Out of an exact state the string test refuses a move exactly when it would close a cycle. |
| `PathMoves.AcceptedMoveIsAcyclicIff` | src/referential-engine/application/use-cases/noeud-hierarchique.use-cases.ts:196-217 | Out of any forest, stale paths or not, an accepted move under a parent leaves a forest if and only if that parent does not lie below the node. |
| `PathMoves.ExactWayHasPrefix` | src/referential-engine/domain/entities/noeud-hierarchique.entity.ts:207-209 | Where no node on the way up from one node to another is stale, the path of the first starts with the path of the second. |
| `PathMoves.AcceptedCycleIsStale` | src/referential-engine/application/use-cases/noeud-hierarchique.use-cases.ts:207-217 | An accepted move that closes a cycle passed a stale node on the way up from the new parent to the moved node. |
| `PathMoves.ForestAllAlongIff` | src/referential-engine/application/use-cases/noeud-hierarchique.use-cases.ts:52-217 | The tree stays a tree all along a run if and only if no accepted command of the run puts a node below itself. |
| `PathMoves.CreationKeepsLevelsNamed` | src/referential-engine/application/use-cases/noeud-hierarchique.use-cases.ts:104-110 | Creation never puts a node at a rank for which its country names no level. |
| `PathMoves.MoveKeepsLevelsNamedIff` | src/referential-engine/application/use-cases/noeud-hierarchique.use-cases.ts:196-217 | A reattachment keeps every rank named if and only if the moved node's new rank is named: the code does not ask. |
| `PathMoves.MoveCanReachAnUnnamedRank` | src/referential-engine/application/use-cases/noeud-hierarchique.use-cases.ts:196-217 | A concrete accepted move takes a node to a rank for which its country names no level. |
| `PathMoves.ExactAllAlongIffQuiet` | src/referential-engine/application/use-cases/noeud-hierarchique.use-cases.ts:52-217 | Paths stay exact all along a run if and only if no accepted move of the run takes children to another parent. |
| `PathMoves.QuietRunIsExact` | src/referential-engine/application/use-cases/noeud-hierarchique.use-cases.ts:52-217 | Root creations, child creations, status changes and childless moves keep every path exact. |
| `PathMoves.ForestAfterQuietRun` | src/referential-engine/application/use-cases/noeud-hierarchique.use-cases.ts:196-217 | After such a run one more command of any kind still leaves a forest. |
| `PathMoves.LikeIsPrefix` | src/referential-engine/infrastructure/persistence/typeorm/orm-repositories.ts:91 | A LIKE pattern made of a path and a percent sign matches exactly the texts that start with the path. |
| `PathMoves.QueryIsThePrefixTest` | src/referential-engine/infrastructure/persistence/typeorm/orm-repositories.ts:85-96 | In every reachable state the descendant query is the cycle test without the paths equal to the given one. |
| `PathMoves.DescendantsAreTheSubtree` | src/referential-engine/application/use-cases/noeud-hierarchique.use-cases.ts:298-301 | Where paths are exact the descendant query returns precisely the nodes properly below the given one. |
| `PathMoves.QuietDescendantsAreTheSubtree` | src/referential-engine/application/use-cases/noeud-hierarchique.use-cases.ts:298-301 | In particular after every run of creations, status changes and moves that take no children elsewhere. |
| `DescendantQuery.QueryRightIff` | src/referential-engine/infrastructure/persistence/typeorm/orm-repositories.ts:85-96 | In every reachable state, stale paths and cycles included, the query returns exactly the nodes properly below the given one, if and only if along every parent edge a path extends that of the node exactly below the node or below another such path, and no cycle of such nodes leaves the node out. |
| `DescendantQuery.QueryRightInAForestIff` | src/referential-engine/application/use-cases/noeud-hierarchique.use-cases.ts:298-301 | While there is no cycle, comparing strings along each parent edge decides whether the query is right. |
| `DescendantQuery.TestRightIff` | src/referential-engine/domain/entities/noeud-hierarchique.entity.ts:207-209 | In every reachable state the cycle test is right for all moves of a node under the same condition as the query below it. |
| `PathMoves.InnerMoveLeavesStalePaths` | src/referential-engine/application/use-cases/noeud-hierarchique.use-cases.ts:216-217 | A concrete run: moving a node that has a child leaves the child under its old path, and the query no longer finds it. |
| `PathMoves.InnerMoveLetsACycleThrough` | src/referential-engine/application/use-cases/noeud-hierarchique.use-cases.ts:211-217 | Continuing that run, a second accepted move closes a cycle of two nodes. |
| `NoeudUseCases.NoeudHierarchique.ReattachToParent` | src/referential-engine/domain/entities/noeud-hierarchique.entity.ts:146-160 | Another country is refused without a change; otherwise parent, path and rank follow the new parent, and nothing else changes. |
| `NoeudUseCases.HasPublishedChild` | src/referential-engine/domain/entities/noeud-hierarchique.entity.ts:217-224 | Answers whether some child is both published and active. |
| `NoeudUseCases.NoeudRepository.FindChildren` | src/referential-engine/infrastructure/persistence/typeorm/orm-repositories.ts:80-83 | Lists exactly the nodes whose parent is the given one. |
| `NoeudUseCases.NoeudRepository.FindDescendants` | src/referential-engine/infrastructure/persistence/typeorm/orm-repositories.ts:85-96 | Returns the set that DescendantsAreTheSubtree and QueryRightIff speak of. |
| `NoeudUseCases.NoeudHierarchiqueUseCases.Create` | src/referential-engine/application/use-cases/noeud-hierarchique.use-cases.ts:52-110 | Creates a root or a child or reports why not, in the order of the checks, as the run lemmas assume. |
| `NoeudUseCases.NoeudHierarchiqueUseCases.Reattach` | src/referential-engine/application/use-cases/noeud-hierarchique.use-cases.ts:196-217 | Reattaches or reports why not, in the order of the checks, as the run lemmas assume. |
| `NoeudUseCases.NoeudHierarchiqueUseCases.ListDescendants` | src/referential-engine/application/use-cases/noeud-hierarchique.use-cases.ts:298-301 | The answer for a known node is the descendant query on its path. |
| `JwksCache.SingleFlight` | src/identity/infrastructure/security/supabase-session-verifier.adapter.ts:193-209 | Under every interleaving at most one network call per project is outstanding. |
| `JwksCache.GetKeysAnswers` | src/identity/infrastructure/security/supabase-session-verifier.adapter.ts:143-164 | `getKeys` answers keys younger than the TTL, or the keys of the shared call, or, that call having failed, exactly the set cached at the moment it failed; it throws only if there was none. |
| `JwksCache.NeverFailsOnceCached` | src/identity/infrastructure/security/supabase-session-verifier.adapter.ts:143-164 | Once a call for a project has succeeded, no later `getKeys` for it throws, whatever fails afterwards. |
| `JwksCache.CacheHoldsTheLastSuccess` | src/identity/infrastructure/security/supabase-session-verifier.adapter.ts:197-202 | The cached set of a project changes only when a call for it succeeds, and is then the set of that call with its time. |
| `JwksCache.ForcedRefreshRate` | src/identity/infrastructure/security/supabase-session-verifier.adapter.ts:167-190 | In any window of length w a project sees at most floor(w / cooldown) + 1 admitted forced refreshes, for any number of concurrent verifications. |
| `JwksCache.ForcedIffCooledDown` | src/identity/infrastructure/security/supabase-session-verifier.adapter.ts:167-190 | A forced refresh is admitted exactly when the cooldown has passed since every earlier admission of the project, or since the origin of time without one; admitted it waits for the project's one call, starting it only if none is under way, and refused it answers no keys at once. |
| `JwksCache.ForcedAnswers` | src/identity/infrastructure/security/supabase-session-verifier.adapter.ts:180-189 | In every reachable state an answered forced refresh gave the keys of the call it waited for if that succeeded, and no keys if it failed or the refresh was refused. |
| `JwksCache.FreshSetIsServed` | src/identity/infrastructure/security/supabase-session-verifier.adapter.ts:143-151 | `getKeys` answers a set younger than the TTL at once and starts nothing; otherwise it waits for the project's one call, starting it only if none is under way. |
| `JwksCache.WaiterGetsItsAnswer` | src/identity/infrastructure/security/supabase-session-verifier.adapter.ts:150-209 | The end of the call a verification waits for, its `finally` and the continuation bring that verification its answer: the new keys, now cached; or after a failure the stale ones, none or an error, the cache unchanged and no call under way. |
| `JwksCache.CallsOnlyGainAnswers` | src/identity/infrastructure/security/supabase-session-verifier.adapter.ts:143-190 | Whatever else happens, a verification keeps the call it waits for, and is answered once. |
| `JwksCache.RunKeepsInv` | src/identity/infrastructure/security/supabase-session-verifier.adapter.ts:143-209 | Map of calls under way, calls, callers and admissions agree in every reachable state. |
| `JwksVerifier.FirstAcceptedSkips` | src/identity/infrastructure/security/supabase-session-verifier.adapter.ts:120-134 | Keys that are no candidates or do not verify make no difference to the answer. |
| `JwksVerifier.FirstAcceptedIff` | src/identity/infrastructure/security/supabase-session-verifier.adapter.ts:120-136 | The answer is what the first key that bears the token's identifier, or any key without one, and verifies the token gave; there is none exactly when no such key does. |
| `JwksVerifier.JoseSupabaseSessionVerifier.FetchAndCache` | src/identity/infrastructure/security/supabase-session-verifier.adapter.ts:193-209 | The caller shares the call under way for its project, or the one this starts. |
| `JwksVerifier.JoseSupabaseSessionVerifier.GetKeys` | src/identity/infrastructure/security/supabase-session-verifier.adapter.ts:143-151 | The first stretch of `getKeys` is the step of the cache machine. |
| `JwksVerifier.JoseSupabaseSessionVerifier.ForceRefreshIfAllowed` | src/identity/infrastructure/security/supabase-session-verifier.adapter.ts:167-182 | The first stretch of a forced refresh is the step of the cache machine. |
| `JwksVerifier.JoseSupabaseSessionVerifier.FetchEnds` | src/identity/infrastructure/security/supabase-session-verifier.adapter.ts:197-202 | The end of a network call is the step of the cache machine. |
| `JwksVerifier.JoseSupabaseSessionVerifier.FetchFinally` | src/identity/infrastructure/security/supabase-session-verifier.adapter.ts:203-205 | The `finally` is the step of the cache machine. |
| `JwksVerifier.JoseSupabaseSessionVerifier.Resume` | src/identity/infrastructure/security/supabase-session-verifier.adapter.ts:150-189 | What a caller does with the end of the call it awaited is the step of the cache machine. |
| `JwksVerifier.JoseSupabaseSessionVerifier.TryVerifyWithKeys` | src/identity/infrastructure/security/supabase-session-verifier.adapter.ts:114-136 | The loop answers with the first candidate key that verifies, and fails exactly when none does. |
| `PriceGrids.OverlapIsASharedInstant` | src/product/domain/entities/grille-tarifaire.entity.ts:164-173 | Two valid windows overlap if and only if some instant lies in both. |
| `PriceGrids.InForceFromStartToEnd` | src/product/domain/entities/grille-tarifaire.entity.ts:123-128 | A grid is in force from its start on and up to its end, which is excluded, without interruption. |
| `PriceGrids.SuccessionLeavesNoGap` | src/product/domain/entities/grille-tarifaire.entity.ts:158-173 | A grid that starts when another ends does not overlap it, and at every instant of the two windows exactly one of them is in force. |
| `PriceGrids.RunKeepsInv` | src/product/application/use-cases/grille-tarifaire.use-cases.ts:49-168 | After any run windows are valid, no two published grids of an offer and currency overlap, and versions have no gap. |
| `PriceGrids.AtMostOnePrice` | src/product/application/use-cases/grille-tarifaire.use-cases.ts:191-205 | In every reachable state at most one published grid is in force for an offer, a currency and an instant. |
| `PriceGrids.PriceIgnoresRowOrder` | src/product/application/use-cases/grille-tarifaire.use-cases.ts:197-205 | The price resolved does not depend on the order in which the published grids are listed. |
| `PriceGrids.PublishableIff` | src/product/application/use-cases/grille-tarifaire.use-cases.ts:129-139 | A validated grid is accepted for publication if and only if no other published grid of its offer and currency shares an instant with it. |
| `PriceGrids.PublicationOutcome` | src/product/application/use-cases/grille-tarifaire.use-cases.ts:129-139 | An accepted publication turns the status of that grid, until then validated, to published and changes nothing else; an overlap is reported before a refused transition. |
| `PriceGrids.PublishedPriceIsFound` | src/product/application/use-cases/grille-tarifaire.use-cases.ts:191-205 | After an accepted publication the grid found for its offer and currency at any instant of its window is that grid, in whatever order the published grids are listed. |
| `PriceGrids.WorkflowOutcome` | src/product/application/use-cases/grille-tarifaire.use-cases.ts:110-120 | Validation is accepted exactly from draft, rejection from validated and archiving from published; each gives the grid its status and changes nothing else. |
| `PriceGrids.VersionsAreOneToN` | src/product/application/use-cases/grille-tarifaire.use-cases.ts:58-59 | The grids of an offer bear the versions 1 to n, each exactly once, n being their number. |
| `PriceGrids.CreationOutcome` | src/product/application/use-cases/grille-tarifaire.use-cases.ts:49-80 | In every reachable state a grid is created exactly for a known offer, a certified currency, an integral, non-negative amount, a window that ends after it starts and no published grid in force in it; it is a draft with the next version and what the caller gave. |
| `PriceGrids.OnlyStatusChanges` | src/product/domain/entities/grille-tarifaire.entity.ts:133-151 | Grids are never removed, only their status changes, along the workflow; a published grid can only be archived, an archived one never changes. |
| `PriceGridUseCases.GrilleTarifaire.MoveTo` | src/product/domain/entities/catalog-workflow.ts:21-35 | A transition outside the table is refused and changes nothing. |
| `PriceGridUseCases.OverlapsWithExisting` | src/product/domain/entities/grille-tarifaire.entity.ts:192-210 | The loop refuses exactly when another published grid of the same offer and currency overlaps. |
| `PriceGridUseCases.GrilleTarifaireRepository.FindPublieesByOffreEtDevise` | src/product/infrastructure/persistence/typeorm/orm-repositories.ts:242-247 | Lists exactly the published grids of the offer and the currency. |
| `PriceGridUseCases.GrilleTarifaireRepository.FindLatestVersion` | src/product/infrastructure/persistence/typeorm/orm-repositories.ts:249-252 | Finds the greatest version of the offer. |
| `PriceGridUseCases.GrilleTarifaireUseCases.Create` | src/product/application/use-cases/grille-tarifaire.use-cases.ts:49-99 | Creates the next version or reports why not, in the order of the checks. |
| `PriceGridUseCases.GrilleTarifaireUseCases.Publish` | src/product/application/use-cases/grille-tarifaire.use-cases.ts:129-139 | Publishes or reports why not, an overlap before a refused transition; an accepted publication saves the grid as published. |
| `PriceGridUseCases.GrilleTarifaireUseCases.MoveTo` | src/product/application/use-cases/grille-tarifaire.use-cases.ts:110-120 | Validation, rejection and archiving change the status alone, or nothing. |
| `PriceGridUseCases.GrilleTarifaireUseCases.ResolveActivePrice` | src/product/application/use-cases/grille-tarifaire.use-cases.ts:191-213 | Answers the price of a published grid in force, and an error exactly when there is none. |
| `CityCounter.PublicationOrderIsExact` | src/referential-engine/infrastructure/messaging/ville-rattachee-consumer.service.ts:188-198 | Handled in publication order, every counter equals the number of cities attached to the node, and the clamp never fires. |
| `CityCounter.NeverUndercounts` | src/referential-engine/infrastructure/persistence/typeorm/orm-repositories.ts:322-342 | With each increment and decrement applied once, in any order whatever, no counter is below the real number of attached cities. |
| `CityCounter.AnyOrderIsSafe` | src/referential-engine/infrastructure/messaging/ville-rattachee-consumer.service.ts:188-198 | With each event handled once, in any order, a counter at zero proves that no city is attached to the node. |
| `CityCounter.ExactIffNothingClamped` | src/referential-engine/infrastructure/persistence/typeorm/orm-repositories.ts:322-342 | With each increment and decrement applied once, in any order whatever, all counters are exact if and only if no decrement met a counter at zero. |
| `CityCounter.DeliveredExactIffNothingClamped` | src/referential-engine/infrastructure/messaging/ville-rattachee-consumer.service.ts:188-198 | With each event handled once, in any order, all counters are exact if and only if no decrement met a counter at zero. |
| `CityCounter.ExcessNeverShrinks` | src/referential-engine/infrastructure/persistence/typeorm/orm-repositories.ts:333-342 | By however much a counter exceeds increments less decrements, it exceeds them by at least as much after whatever is applied later. |
| `CityCounter.RunTracked` | src/referential/application/use-cases/ville.use-cases.ts:32-113 | The published events say exactly what happened: for each node, increments less decrements are its attached cities. |
| `CityCounter.CommandOutcome` | src/referential/application/use-cases/ville.use-cases.ts:32-114 | A city is created or moved exactly under a published node or none; its node is stored, and the event published names that node and, for a move, the one it left. |
| `CityCounter.OutOfOrderOvercounts` | src/referential-engine/infrastructure/persistence/typeorm/orm-repositories.ts:333-342 | A move handled before the creation it follows leaves a counter one too high, and whatever is handled later it stays too high by at least one. |
| `CityCounter.CompteurVillesRattachees.Incrementer` | src/referential-engine/infrastructure/persistence/typeorm/orm-repositories.ts:322-331 | Counts one more, from one when the node has no row. |
| `CityCounter.CompteurVillesRattachees.Decrementer` | src/referential-engine/infrastructure/persistence/typeorm/orm-repositories.ts:333-342 | Counts one less, never below zero. |
| `CityCounter.CompteurVillesRattachees.GetCompte` | src/referential-engine/infrastructure/persistence/typeorm/orm-repositories.ts:317-320 | A node without a row counts zero. |
| `CityCounter.VilleRattacheeConsumer.Handle` | src/referential-engine/infrastructure/messaging/ville-rattachee-consumer.service.ts:190-198 | The old node is decremented, then the new one incremented; an absent node is left alone. |
| `CityCounter.VilleUseCases.Create` | src/referential/application/use-cases/ville.use-cases.ts:32-70 | Stores the city and publishes its node, or reports why not. |
| `CityCounter.VilleUseCases.Move` | src/referential/application/use-cases/ville.use-cases.ts:88-114 | Stores the new node and publishes it with the old one, or reports why not. |
| `RefreshTokens.OneLiveTokenPerFamily` | src/identity/application/use-cases/refresh-token.use-case.ts:48-108 | In every reachable state a family has at most one token that was not consumed. |
| `RefreshTokens.ConsumedExactlyOnce` | src/identity/domain/entities/rbac-and-tokens.entity.ts:142-153 | Every consumed token was consumed exactly once, and no other ever. |
| `RefreshTokens.RotationIsAChain` | src/identity/application/use-cases/refresh-token.use-case.ts:97-108 | Every token of a family but its login token was minted by the consumption of exactly one token of the same family. |
| `RefreshTokens.RevokedFamilyIsFrozen` | src/identity/infrastructure/persistence/typeorm/orm-repositories.ts:197-199 | Once a revocation has been kept, no token of the family is ever consumed or minted again. |
| `RefreshTokens.ReplayRevokesIffKept` | src/identity/application/use-cases/refresh-token.use-case.ts:59-68 | A replayed token is answered by an error; the family's live token is refused from then on if and only if the writes of that failed request were kept. |
| `RefreshTokens.LoginThenRefresh` | src/identity/application/use-cases/refresh-token.use-case.ts:48-108 | The token of a login is accepted with its own hash for thirty days, its end excluded, and refused with any other; its successor in the same way with the successor's hash, the token itself being refused as used from then on. |
| `RefreshTokens.RefreshOutcome` | src/identity/application/use-cases/refresh-token.use-case.ts:48-115 | What a request leaves: the token consumed at its time when it was valid, a successor of the same user and family with the new hash exactly when the request went through, the family revoked after a replay, and every other token as it was. |
| `RefreshTokens.LoginOwnsItsFamily` | src/identity/application/use-cases/authenticate-user.use-case.ts:113-123 | Whatever follows a login, each token of its family bears the user who logged in. |
| `RefreshTokens.TokensKeepWhatTheyAre` | src/identity/domain/entities/rbac-and-tokens.entity.ts:142-157 | In every reachable state no step changes a token's user, hash, family or expiry, nor a consumption or revocation once set. |
| `RefreshTokens.RunKeepsInv` | src/identity/application/use-cases/refresh-token.use-case.ts:48-108 | Live tokens, consumptions, lineage and revocations agree in every reachable state, requests undone or not. |
| `RefreshTokens.RefreshToken.AssertValidAndConsume` | src/identity/domain/entities/rbac-and-tokens.entity.ts:142-153 | Revoked is reported before consumed, consumed before expired; on any error the token is unchanged. |
| `RefreshTokens.RefreshTokenRepository.RevokeFamily` | src/identity/infrastructure/persistence/typeorm/orm-repositories.ts:197-199 | Every token of the family is revoked, and no other. |
| `RefreshTokens.RefreshTokenUseCase.Execute` | src/identity/application/use-cases/refresh-token.use-case.ts:48-115 | The request's writes and answer, for an unknown, mismatched, revoked, replayed, expired or valid token. |
| `RefreshTokens.RefreshTokenUseCase.InTransaction` | src/identity/application/use-cases/refresh-token.use-case.ts:48-115 | Writes are kept or undone as a whole, the answer being the same. |
| `RefreshTokens.RefreshTokenUseCase.OpenFamily` | src/identity/application/use-cases/authenticate-user.use-case.ts:113-123 | A login adds the first token of a new family, the one LoginThenRefresh speaks of, and nothing else. |

## Left out

- HTTP controllers, DTO validation, guards, modules, migrations and configuration: no property spans them.
- Password hashing, token signing, signature verification, TOTP and encryption: foreign libraries; which key verifies a token is a parameter.
- Timers, the unbounded read loop and `BLOCK` timeouts: one turn of the read loop and one claim cycle are modelled, and runs chain them in any order.
- Group creation with `$`, trimming of the stream and entries missing from XRANGE: excluded by the assumptions.
- Logging, error texts (`derniereErreur`), `publieLe`, `modifieLe`, names, labels and the other fields no guard reads.
- `queryTrail`, listings and pagination, the order of listed children and descendants: they would only add easy members.
- The inheritance resolver, locale fallback, the workflow of administrative nodes (any change of status is allowed in its place), subscriptions and activation of organisations.
- Events published by the tree, grid and login use cases: they are written to the outbox in the same transaction and enter the model as `Publish`.
- Redelivery of events to the counter of cities: that consumer has no deduplication, so counting each event once is a hypothesis of its lemmas.
- Concurrent requests on one refresh token, and concurrent reattachments: excluded by the assumption of serial transactions.
- Exact paths for the descendants of a moved inner node: the code does not rewrite them.
- NaN timestamps: an unusable timestamp is rejected when the message is processed, where the source lets the database refuse the row; nothing is stored and the call throws in both.
- `verify` around its two attempts: the allow-list, the role test, and that a forced refresh is asked for only after a failed first attempt.
- The order of the entries of a JSON object.
