# WrapLink in Dafny

WrapLink is a link shortener: a Node.js service with an optional C++ redirect service beside it, PostgreSQL as the
source of truth and Redis in front. This project models the parts of it whose correctness is an argument over many
steps, and proves that argument. `dafny verify dfyconfig.toml` checks everything.

## What is modelled

**Short codes** (`Bits`, `Base62`, `CycleWalk`, `CodeScrambler`, `CodeAllocator`). Ids are scrambled by an eight-round
Feistel network on two 27-bit halves, cycle-walked into [0, 62^9) and printed as nine Base62 characters. The network
is inverted for every round function, a walk in a finite set is shown to return, and the first-return map is a
bijection. A state machine of any number of processes that draw blocks from one sequence then gives: no code is handed
out twice, whatever fails.

**Write-behind creation** (`PendingLinks`, `LinkTable`, `SyncQueue`, `WriteBehind`, `QueueSafety`, `LinkSafety`,
`Guarantees`, `LinkCreation`, `LinkSyncWorker`, `Undisturbed`). A created link is acknowledged once it is in Redis,
and workers move it to PostgreSQL. `LinkTable` and `SyncQueue` hold the operations of the two servers and the stores,
with classes for the code that changes state and functions that say what one atomic command does. `WriteBehind` puts
those commands into a transition system: any number of workers, creators and readers, with lock expiry, key expiry,
crashes and failed calls between any two steps. `QueueSafety` proves that the lock protects the trim, `LinkSafety`
what every step keeps, and `Guarantees` the promises over all runs. `LinkCreation` runs the code allocators and
write-behind creation together. `LinkSyncWorker` is the worker loop itself, and `Undisturbed` shows that the steps of
the transition system, taken without interference, do what the methods do.

**Clicks** (`ClickBuffer`, `ClickAggregator`). The double-buffered click counter with failure restore, retries and
bounded dropping, and the striped counter of the C++ service.

**Keys and time** (`Keys`, `Calendar`, `IsoTime`). The Redis keys, which both services must build alike; the closed form
for day numbers against a naive count of days (leap years as in Appendix C of RFC 3339); and the timestamp parser
against the printer of the format in section 5.6 of RFC 3339.

**Metrics** (`Snapshots`, `Metrics`, `MetricsProtocol`, `MetricsSafety`, `Cluster`). Snapshots and their merge; the
theorem that batches of any workers merge to what one collector would have seen; the flush protocol between workers and
primary over ordered channels; and the primary process with its worker indexes.

`Numbers` holds decimal digits, powers, remainders and sums, `Wrappers` the usual result types.

## What the proofs found

- Of two different records with one code in a batch, the second is neither stored nor reported
  (`LinkTable.SecondRecordLost`; exactly when: `LinkTable.AccountedExactlyWhenFirstOrStored`). That no accepted link
  is lost therefore rests on generated codes being unique: the guard of the enqueue step in `WriteBehind` demands it,
  and `LinkCreation.GeneratedCodesAreNew` shows that codes from the allocators always meet it.
- The replay test compares target and creation instant but not the expiry. A row of the same code, target and instant
  with another expiry makes a settled hash keep an expiry that PostgreSQL does not have
  (`Guarantees.TwinsCanDisagree`; exactly when: `Guarantees.CompletionAgreesExactlyOnEqualExpiry`).
- A worker puts a request of exactly zero duration in no bucket, the in-process collector in the first
  (`Snapshots.OneHotExactlyWhenPositive`, `Metrics.MergedAgreesExactlyWithoutZeroes`).
- The timestamp parser says it parses exactly what `toISOString` produces; it also accepts every day up to
  31 that its month does not have, and second 60 (`IsoTime.MissingDaysAreAccepted`, `IsoTime.SecondSixtyIsAccepted`;
  for one, `IsoTime.AcceptsFebruary31`; exactly when: `IsoTime.AcceptedIsPrintedExactlyWhenReal`).
- Labels that contain a NUL can make two series share one key (`Snapshots.NulLabelsCollide`; exactly when:
  `Snapshots.SeriesKeyIsItsOwnExactlyWhenNulFree`, and among the labels requests are accepted with
  `Snapshots.AcceptedKeyIsItsOwnExactly`).
- A flush that throws keeps its calls pending, and the worker acknowledges all the same, so a response can lack them
  (`MetricsSafety.ResponsesCanLackCalls`; exactly when: `MetricsSafety.AcknowledgementIsExact` for the response that
  the acknowledgement completes, `MetricsSafety.AnswerHoldsEverythingRecorded` for every response).
- An exit of a worker the primary does not know would give index 0 to a second worker
  (`Cluster.RestartKeepsIndexesExactlyWhenKnown`); the cluster module reports each exit once, so that does not arise.

## Model

| member | source | states |
|---|---|---|
| `Base62.PrintThenRead` | src/domain/code-allocator.ts:44-65 | a value below 62^n survives printing as n Base62 characters and reading back |
| `Base62.ReadThenPrint` | src/domain/code-allocator.ts:35-65 | every n-character Base62 string is the numeral of its own value, and that value is below 62^n |
| `Base62.NumeralAt` | src/domain/code-allocator.ts:35-65 | the character at each place of a numeral is the letter of the alphabet for the digit that the value has there |
| `Base62.EncodeBase62Fixed` | src/domain/code-allocator.ts:44-65 | fails exactly for a value that has no numeral of that length; otherwise the numeral reads back as the value |
| `Bits.XorBits` | src/domain/code-allocator.ts:190-201 | every bit of the exclusive or is set exactly when one of the two bits is, for all numbers |
| `Bits.BitsDetermine` | src/domain/code-allocator.ts:190-201 | numbers with the same bits are equal, so the bits say all about the exclusive or |
| `Bits.XorCancels` | src/domain/code-allocator.ts:199-201 | XOR with the same word twice is the identity, the only fact about a round that inverting the network needs |
| `CodeScrambler.RoundsInverse` | src/domain/code-allocator.ts:183-205 | the Feistel network, run backwards, undoes itself on every pair of halves, both ways, for every round function and every number of rounds |
| `CodeScrambler.RoundsAreWords` | src/domain/code-allocator.ts:183-205 | any number of rounds is the textbook recurrence: each new word is the one before the last, mixed with what the round function makes of the last |
| `CodeScrambler.WordBits` | src/domain/code-allocator.ts:190-201 | bit by bit, the new word has the bits of the one before the last, flipped where the round function says |
| `CodeScrambler.EightRounds` | src/domain/code-allocator.ts:183-205 | the network has eight rounds |
| `CodeScrambler.MixerValues` | src/domain/code-allocator.ts:207-220 | the mixer has these values, which fix its constants and shifts |
| `CycleWalk.Returns` | src/domain/code-allocator.ts:169-181 | for any bijection of a finite set, the walk from an inside point comes back inside after finitely many steps |
| `CycleWalk.FirstReturnInverse` | src/domain/code-allocator.ts:169-181 | the first-return maps of a bijection and of its inverse undo each other, so the cycle walk is a bijection of the inside points |
| `CodeScrambler.WalkedSteps` | src/domain/code-allocator.ts:169-181 | the walk inside the code space ends: some step is back inside, no earlier one was, and it is where the bijection says |
| `CodeScrambler.WalkedInverse` | src/domain/code-allocator.ts:169-181 | walking with the network and walking with the inverse network undo each other on [0, 62^9) |
| `CodeScrambler.InsideExactly` | src/domain/code-allocator.ts:169-181 | the test on the two halves is the test that their number is below 62^9 |
| `CodeScrambler.PermutedSteps` | src/domain/code-allocator.ts:125-181 | the permuted id is the first number below 62^9 that the walk from the id's halves comes to |
| `CodeScrambler.OrbitWords` | src/domain/code-allocator.ts:169-205 | from one point of the walk to the next it is eight rounds of the recurrence |
| `CodeScrambler.CodeCharacter` | src/domain/code-allocator.ts:138-167 | each of the nine characters of a code is the digit of the permuted id in that place |
| `CodeScrambler.PermutedIsBijection` | src/domain/code-allocator.ts:125-132 | for every round function `permute` is a bijection of [0, 62^9) onto itself |
| `CodeScrambler.CodeDeterminesId` | src/domain/code-allocator.ts:138-167 | the id can be read back from its nine characters, so distinct ids have distinct codes |
| `CodeScrambler.EveryCodeIsUsed` | src/domain/code-allocator.ts:138-167 | every string of nine Base62 characters is the code of an id |
| `CodeScrambler.DivideByParts` | src/domain/code-allocator.ts:147-163 | one digit of the two-limb division is the digit and quotient of the whole number, and the intermediate stays below 2^33 |
| `CodeScrambler.Scrambler.ApplyFeistel` | src/domain/code-allocator.ts:183-205 | the in-place loop over eight rounds computes the network whose inverse is proved |
| `CodeScrambler.Scrambler.PermuteHalves` | src/domain/code-allocator.ts:169-181 | the do-while loop terminates and ends at the first point of the orbit inside the code space |
| `CodeScrambler.Scrambler.Permute` | src/domain/code-allocator.ts:125-132 | an error exactly outside [0, 62^9), otherwise the bijection |
| `CodeScrambler.Scrambler.Digits` | src/domain/code-allocator.ts:147-167 | the long division without big integers prints the same numeral as the reference encoder, for every length the value fits |
| `CodeScrambler.Scrambler.Encode` | src/domain/code-allocator.ts:138-167 | the hot path gives exactly the reference encoding of the permuted id, or an error exactly outside the space |
| `CodeAllocator.BlockCodeAllocator.NextCodePass` | src/domain/code-allocator.ts:246-261 | a stretch between awaits hands out the code of the next id, or asks for a reservation only when none is under way |
| `CodeAllocator.BlockCodeAllocator.FinishReserve` | src/domain/code-allocator.ts:267-286 | a reply installs its block, from its start to its end, exactly when the block is valid, and otherwise changes nothing |
| `CodeAllocator.BlockCodeAllocator.ForgetReservation` | src/domain/code-allocator.ts:246-261 | the finally handler clears the reservation and nothing else |
| `CodeAllocator.OneReservationAtATime` | src/domain/code-allocator.ts:246-286 | over all runs: a call asks the sequence only when its allocator has no request out, a request or reply under way is never overwritten by a call, and a block is replaced only by a reply and only when its ids are used up |
| `CodeAllocator.HeldAreIssued` | src/domain/code-allocator.ts:246-261 | an allocator hands out the ids it holds one by one, in order and without a gap |
| `CodeAllocator.BlockIsHandedOut` | src/domain/code-allocator.ts:246-287 | a block of n ids that reaches its allocator is handed out whole by the next n passes, from its first id to its last, and the pass after that asks for another block |
| `CodeAllocator.BadBlockIsDropped` | src/domain/code-allocator.ts:270-283 | a block that fails a test is dropped |
| `CodeAllocator.FaultsHappen` | src/domain/code-allocator.ts:246-287 | at any point a query or its reply can be lost, and the sequence can answer with any block beyond what it gave before |
| `CodeAllocator.InvKept` | src/domain/code-allocator.ts:236-287 | blocks drawn by all processes stay disjoint from each other and from every id handed out, under every step |
| `CodeAllocator.CodesNeverRepeat` | src/domain/code-allocator.ts:236-287 | in every run of any number of allocators, with failures and callers in any interleaving, no two calls get the same code |
| `Keys.Fnv1a32` | src/cache/keys.ts:30-41 | the accumulator loop computes the 32-bit FNV-1a recurrence |
| `Keys.HashStep` | src/cache/keys.ts:34-38 | one more byte mixes the bits of the byte into the word and multiplies by the prime, for every text |
| `Keys.HashOfA` | test/keys.test.ts:33-36 | the published reference values for no byte and for the letter a |
| `Keys.KeysOfShard210` | test/keys.test.ts:1-60 | the keys of a link in shard 210 and of that shard, spelled out |
| `Keys.CoreFnv1a32` | cpp-redirect/src/core.hpp:22-29 | the C++ loop in unsigned words computes the same hash as the Node.js loop, which goes through signed words |
| `Keys.BuildCoreLinkKey` | cpp-redirect/src/core.hpp:31-48 | the C++ key, built from its own hash loop digit by digit, is the key of the Node.js service for every code |
| `Keys.BuildLinkKey` | src/cache/keys.ts:43-61 | the Node.js key, built from its own hash loop and padding, is that same key |
| `Keys.DecimalDigits` | cpp-redirect/src/core.hpp:38-48 | for every shard the four digits pushed one by one are the decimal number padded to four |
| `Keys.ServicesAgreeOnKeys` | cpp-redirect/src/core.hpp:38-48 | for every code, the key with the four digits pushed one by one is the key with the padded shard number |
| `Keys.LinkKeysDiffer` | src/cache/keys.ts:59-61 | different codes have different keys |
| `Keys.ShardKeysDiffer` | src/cache/keys.ts:59-73 | queue, lock, dead-letter and link keys never meet, within a shard or across shards |
| `Keys.TagsDiffer` | src/cache/keys.ts:47-57 | different shards have different hash tags, all of six characters |
| `Keys.ShardsForWorker` | src/cache/keys.ts:80-107 | lists exactly the shards whose remainder is the worker's index, increasing, or fails exactly for an index out of range |
| `Calendar.DaysFromCivilCounts` | cpp-redirect/src/core.hpp:62-69 | the closed form equals the naive count of days by year lengths and month lengths, for every date of every year |
| `Calendar.NextDayIsOneMore` | cpp-redirect/src/core.hpp:62-69 | 1970-01-01 is day 0 and the calendar successor of a date is one day more |
| `Calendar.NoWrapAround` | cpp-redirect/src/core.hpp:62-69 | for any month 1-12 and day 1-31 every intermediate lies in the unsigned 32-bit range, so the formula is that of the integers |
| `Calendar.DaysFromCivilOverflows` | cpp-redirect/src/core.hpp:62-69 | the closed form counts on for any day 1-31, whether or not the month has it |
| `Calendar.DaysFromCivilOrders` | cpp-redirect/src/core.hpp:62-69 | the day number orders dates and determines them, both ways |
| `IsoTime.Num` | cpp-redirect/src/core.hpp:78-86 | the digit loop reads the number and reports every character that is not a digit |
| `IsoTime.ParseIsoUtcMillis` | cpp-redirect/src/core.hpp:73-98 | the parser accepts exactly the texts of the shape with fields in range, and gives their instant |
| `IsoTime.ParsePrinted` | cpp-redirect/src/core.hpp:71-98 | the parser reads the printed form of every real instant of the years 0000-9999 as its epoch milliseconds |
| `IsoTime.ParsesEpoch` | cpp-redirect/test/core_test.cc:62 | the first instant that the C++ service's test names |
| `IsoTime.ParsesMidnight` | cpp-redirect/test/core_test.cc:63 | the second |
| `IsoTime.ParsesLeapDay` | cpp-redirect/test/core_test.cc:64 | the third, on a 29 February |
| `IsoTime.ParsesLastOfCentury` | cpp-redirect/test/core_test.cc:65 | the fourth, the last millisecond of 1999 |
| `IsoTime.RefusesOtherTexts` | cpp-redirect/test/core_test.cc:66-69 | the texts that the test names as none are refused |
| `IsoTime.RoundTrip` | cpp-redirect/src/core.hpp:71-98 | every millisecond of the years 0000-9999 survives printing as 24 characters and parsing |
| `IsoTime.PrintedIsAcceptedExactlyWhenInRange` | cpp-redirect/src/core.hpp:73-98 | any fields, real or not, printed in the shape are accepted if and only if each is in its range, and read as the instant the closed form gives |
| `IsoTime.AcceptedTexts` | cpp-redirect/src/core.hpp:73-98 | the accepted texts are exactly the printed fields in range |
| `IsoTime.AcceptedIsPrintedExactlyWhenReal` | cpp-redirect/src/core.hpp:90-93 | an accepted text is the print of some instant if and only if its day exists in its month and its second is not 60 |
| `IsoTime.MissingDaysAreAccepted` | cpp-redirect/src/core.hpp:90-93 | every day up to 31 that its month lacks is accepted and read as the day of the next month, and no instant is printed so |
| `IsoTime.SecondSixtyIsAccepted` | cpp-redirect/src/core.hpp:90-93 | second 60 of every minute is accepted and read as one second after second 59, and no instant is printed so |
| `IsoTime.AcceptsFebruary31` | cpp-redirect/src/core.hpp:90-93 | 2023-02-31T00:00:00.000Z is accepted, although no instant is printed as it |
| `IsoTime.AcceptsSecondSixty` | cpp-redirect/src/core.hpp:90-93 | 2016-12-31T23:59:60.000Z is accepted, although no instant is printed as it |
| `IsoTime.TextOrderIsTimeOrder` | cpp-redirect/src/core.hpp:71-98 | comparing two printed timestamps as strings compares the instants, both ways |
| `IsoTime.CivilOfDayCounts` | cpp-redirect/src/core.hpp:61-69 | walking the calendar n days from the first of January of any year ends at the date whose day number is n more |
| `IsoTime.EveryDayNumberIsReached` | cpp-redirect/src/core.hpp:61-69 | every day number, also before 1970 and before year 0, is that of a date |
| `PendingLinks.ReadableExactly` | src/store/write-behind-link-store.ts:92-98 | the worker takes exactly codes of 4 to 32 letters, digits, _ and -, with targets of 1 to 2,048 characters |
| `PendingLinks.SerializedFields` | src/store/write-behind-link-store.ts:64-75 | a link is serialized under its four names, with printed dates and null for no expiry |
| `PendingLinks.ParsesExactly` | src/store/write-behind-link-store.ts:77-129 | an object parses to a link if and only if its four fields say that link, readable and with valid dates |
| `PendingLinks.ParseUndoesSerialize` | src/store/write-behind-link-store.ts:64-129 | a serialized link parses back whole exactly when it passes the worker's checks on code and target, and to nothing otherwise |
| `PendingLinks.CoreParserReadsPrintedDates` | cpp-redirect/src/core.hpp:71-98 | the C++ timestamp parser can stand for the Date constructor on everything the serializer prints |
| `LinkTable.FirstOfEachIsFirst` | src/store/postgres-link-store.ts:206-215 | deduplication keeps exactly the first record of each code |
| `LinkTable.DistinctNothingDropped` | src/store/postgres-link-store.ts:206-215 | when no code occurs twice, deduplication changes nothing, not even the order |
| `LinkTable.FirstIsStored` | src/store/postgres-link-store.ts:217-261 | the first record of a code that was free is stored with its own target, creation instant and expiry |
| `LinkTable.ClassifyMeans` | src/store/postgres-link-store.ts:217-306 | whatever others insert between the two statements, a code of the batch is persisted exactly when the table holds its record and in conflict exactly when it holds another |
| `LinkTable.ClassifyPartitions` | src/store/postgres-link-store.ts:259-311 | persisted and conflicting codes are disjoint and together are the codes of the batch, each conflict reported once |
| `LinkTable.ReplayIsIdempotent` | src/store/postgres-link-store.ts:191-198 | replaying a batch after any further inserts changes no row and gives the same verdict |
| `LinkTable.StoredExactlyWhenWillHold` | src/store/postgres-link-store.ts:206-261 | the table ends up with a record's target and instant if and only if the row there before has them or, when there is none, the first record of its code in the batch does |
| `LinkTable.AccountedExactlyWhenFirstOrStored` | src/store/postgres-link-store.ts:206-213 | a record is stored or reported if and only if, on the table and batch before the call, it is the first of its code or matches the row there or, when there is none, the first of its code |
| `LinkTable.SecondRecordLost` | src/store/postgres-link-store.ts:206-213 | two different records of one code in a batch: the second is neither stored nor reported |
| `LinkTable.Deduplicate` | src/store/postgres-link-store.ts:206-215 | the map-filling loop computes the first record of each code, in order |
| `LinkTable.InsertRows` | src/store/postgres-link-store.ts:217-261 | row by row, ON CONFLICT DO NOTHING gives the grown table and the codes it wrote |
| `LinkTable.ClassifyRows` | src/store/postgres-link-store.ts:263-311 | the loop over rows not inserted gives the verdict whose meaning is proved |
| `LinkTable.PostgresLinkStore.Create` | src/store/postgres-link-store.ts:42-72 | inserts and returns the row exactly when the code is free |
| `LinkTable.PostgresLinkStore.Find` | src/store/postgres-link-store.ts:74-99 | finds the row itself, exactly while it has no expiry or a later one than now |
| `LinkTable.PostgresLinkStore.InsertPendingBatch` | src/store/postgres-link-store.ts:199-312 | both statements without interference: rows there before stay, first records of free codes are stored as they are, and each first record is persisted exactly when the row then has its target and instant, and in conflict otherwise |
| `LinkTable.PostgresLinkStore.RecordClickBatch` | src/store/postgres-link-store.ts:136-189 | refuses a batch with a count below one as a whole, else adds every count to its row and reports exactly the codes without a row |
| `SyncQueue.LastOfLast` | src/store/link-sync-worker.ts:94-100 | trimming after every push keeps the last 10,000 letters of the whole history |
| `SyncQueue.PartsOfList` | src/store/link-sync-worker.ts:94-100 | the first n entries and the rest make up the list, and the last n are its end |
| `SyncQueue.PendingHashLives` | src/store/write-behind-link-store.ts:29-49 | a pending hash shows the link as it is; a permanent one stays, any other is there until its link expires |
| `SyncQueue.SettledLives` | src/store/link-sync-worker.ts:72-84 | a settled hash keeps its link and goes when the cache's lifetime is over, or earlier when it would have gone anyway |
| `SyncQueue.FinishedHash` | src/store/link-sync-worker.ts:72-92 | of each hash: settled when pending and persisted, gone when pending and in conflict, otherwise untouched |
| `SyncQueue.CompletedShard` | src/store/link-sync-worker.ts:94-106 | a completed shard has lost what was consumed, its lock is free, and the last 10,000 dead letters are kept |
| `SyncQueue.LockLaws` | src/store/link-sync-worker.ts:108-138 | a free lock is taken with its deadline, a lock is released by its own token only, and nothing else of the shard changes |
| `SyncQueue.ReadExactly` | src/store/cached-link-store.ts:172-262 | a hash is served exactly while its link has a target and is not expired; no hash is a miss, any other hash is stale |
| `SyncQueue.CachedLives` | src/store/cached-link-store.ts:108-170 | the cached hash shows the link, keeps a pending flag, and goes after the cache's lifetime or the link's whole seconds left, whichever is shorter; a link in its last second is dropped |
| `SyncQueue.RedisServer.EnqueueLink` | src/store/write-behind-link-store.ts:23-49 | the code is taken exactly when it has a hash, the queue is full exactly at the bound; otherwise hash and queue entry appear together, else nothing changes |
| `SyncQueue.RedisServer.AcquireLock` | src/store/link-sync-worker.ts:123-138 | takes the lock exactly when nobody holds it |
| `SyncQueue.RedisServer.CompleteSync` | src/store/link-sync-worker.ts:62-106 | without the token nothing changes; with it the loops settle the pending hashes of persisted codes, drop those of conflicts, and trim exactly the consumed entries |
| `SyncQueue.RedisServer.ReleaseLock` | src/store/link-sync-worker.ts:108-114 | releases only a lock that holds the token |
| `SyncQueue.CachedLinkStore.ReadSafely` | src/store/cached-link-store.ts:172-262 | serves a live hash, reports a miss, and deletes a stale or malformed hash |
| `SyncQueue.CachedLinkStore.CacheSafely` | src/store/cached-link-store.ts:108-170 | writes the link with the shorter of cache and link lifetime, keeps a pending flag, and drops a link in its last second |
| `SyncQueue.CachedLinkStore.Find` | src/store/cached-link-store.ts:41-59 | a hit comes from Redis and changes nothing; everything else comes from PostgreSQL, a stale hash is dropped, and a row found is cached |
| `SyncQueue.CachedLinkStore.Create` | src/store/cached-link-store.ts:28-39 | caches exactly what PostgreSQL inserted |
| `SyncQueue.WriteBehindLinkStore.Create` | src/store/write-behind-link-store.ts:171-261 | the exact outcome and the exact state of queue, hashes and table for every answer of the script, and when it threw; acknowledged means queued with its pending hash or stored in PostgreSQL |
| `SyncQueue.WriteBehindLinkStore.CreateCustom` | src/store/write-behind-link-store.ts:279-301 | refuses an alias exactly when a queued link holds it or PostgreSQL does; otherwise stores and caches it |
| `QueueSafety.OwnerTrimsItsOwnBatch` | src/store/link-sync-worker.ts:399-519 | while its token is in the lock, the entries a worker is about to trim are exactly the head it read |
| `QueueSafety.NothingLeavesTheQueueUnconsumed` | src/store/link-sync-worker.ts:234-243 | in every run, what was pushed to a shard is what was consumed followed by what is queued, and the dead letters are the last 10,000 of their history |
| `QueueSafety.CompletionConsumesWhatWasRead` | src/store/link-sync-worker.ts:62-106 | a completion with the token consumes exactly the batch its worker read, in order; one without it changes nothing |
| `LinkSafety.VerdictIsSound` | src/store/postgres-link-store.ts:217-306 | with any other inserts between INSERT and SELECT the verdict a worker holds stays right for the table |
| `LinkSafety.BatchIsComplete` | src/store/link-sync-worker.ts:441-459 | because accepted codes are unique, no readable record of a batch is left out of the insert |
| `LinkSafety.AcknowledgedNeverLost` | src/store/link-sync-worker.ts:234-243 | the state invariants place every accepted record in its queue, in PostgreSQL or in the dead letters |
| `LinkSafety.DeletionSpares` | src/store/cached-link-store.ts:172-262 | a reader's late DEL of a stale hash cannot hit the hash of a living queued link |
| `LinkSafety.CompletionSpares` | src/store/link-sync-worker.ts:72-92 | completion leaves the hash of a code that PostgreSQL does not hold untouched |
| `LinkSafety.ServedKept` | src/store/cached-link-store.ts:41-59 | every step keeps an accepted link visible: in its hash, or in a row of its code |
| `Guarantees.NoAcceptedLinkIsLost` | src/store/link-sync-worker.ts:234-243 | at-least-once over all runs: an accepted link is queued, or PostgreSQL holds its target and creation instant, or it was dead-lettered with the right reason |
| `Guarantees.AcknowledgedIsServed` | src/store/cached-link-store.ts:41-59 | a find whose Redis read and PostgreSQL query lie anywhere after the acknowledgement gives the link with its own target, instant and expiry until it expires, if no other link owns its code |
| `Guarantees.FoundExactly` | src/store/cached-link-store.ts:41-59 | find answers with a hash that has a target and is live, and otherwise with the row of the code if that is live, and with nothing else |
| `Guarantees.FoundIsLive` | src/store/cached-link-store.ts:41-59 | over all runs, whatever find returns was live by the clock of the read it came from, and is the row of its code or a link accepted for it |
| `Guarantees.CacheAgreesWithTable` | src/store/link-sync-worker.ts:72-84 | every settled hash agrees with PostgreSQL on target and creation instant, and on the expiry unless the code has a twin with the same target and instant |
| `Guarantees.CompletionAgreesExactlyOnEqualExpiry` | src/store/postgres-link-store.ts:294-298 | completion leaves a persisted hash equal to its row if and only if the two already had the same expiry |
| `Guarantees.TwinsCanDisagree` | src/store/postgres-link-store.ts:294-298 | every pair of twins with different expiries has a run that ends with a settled hash and a row that differ |
| `Guarantees.RejectedIsNeverServed` | src/store/link-sync-worker.ts:86-92 | once a record that lost its code is out of the queue, Redis shows the owner's row or nothing |
| `LinkCreation.GeneratedCodesAreValid` | src/store/write-behind-link-store.ts:92-98 | every generated code passes the worker's test, so only the target decides whether its record is readable |
| `LinkCreation.AllocatorsRunAlone` | src/app.ts:333-365 | in the combined run the allocators go on as they do alone |
| `LinkCreation.GeneratedCodesAreNew` | src/app.ts:333-365 | in every run of allocators and write-behind creation together, a creation with a generated code meets the uniqueness that the enqueue step demands, and enqueues |
| `LinkCreation.CreatedLinksAreNeverLost` | src/app.ts:333-365 | so with generated codes every accepted link is queued, stored with its target and instant, or dead-lettered: as a conflict when its target has 1 to 2,048 characters, and as invalid only otherwise |
| `Undisturbed.FindIsFind` | src/store/cached-link-store.ts:41-59 | the steps of find with nobody in between leave Redis as the method Find does |
| `Undisturbed.CreateIsCreate` | src/store/write-behind-link-store.ts:279-301 | the steps of a synchronous create with nobody in between store and cache as the method Create does, or refuse |
| `Undisturbed.EnqueueIsEnqueue` | src/store/write-behind-link-store.ts:23-49 | the enqueue step is what the script does |
| `Undisturbed.BatchIsRead` | src/store/link-sync-worker.ts:399-439 | a worker that finds its shard free holds the head of the queue after its first steps |
| `Undisturbed.BatchIsSynced` | src/store/link-sync-worker.ts:441-519 | and ends the batch, with nobody in between, as the method SyncBatch does |
| `WriteBehind.FaultsHappen` | src/store/link-sync-worker.ts:399-529 | at any point time passes, locks and keys whose time is over go, workers and requests stop wherever they are, and late releases arrive |
| `LinkSyncWorker.Worker.Sort` | src/store/link-sync-worker.ts:441-452 | splits a batch into readable records and one dead letter for each other one |
| `LinkSyncWorker.Worker.SyncBatch` | src/store/link-sync-worker.ts:432-519 | one batch under the lock ends with exactly the completion of that batch and reports at least one record |
| `LinkSyncWorker.Worker.TakeBatch` | src/store/link-sync-worker.ts:432-439 | peeks, and when there is anything takes exactly that batch off the queue, each record stored or dead-lettered when codes are unique |
| `LinkSyncWorker.Worker.SyncShard` | src/store/link-sync-worker.ts:399-529 | consumes exactly the next maxBatchesPerShard * batchSize records or all there are, each of them stored or dead-lettered when codes are unique, frees the lock, and reports nothing exactly when the queue was empty; a shard locked by somebody else is left alone |
| `LinkSyncWorker.Worker.Tick` | src/store/link-sync-worker.ts:361-397 | every owned shard loses its next records to PostgreSQL or the dead letters, others lose nothing; no progress is reported exactly when all owned queues were empty |
| `LinkSyncWorker.Worker.Drain` | src/store/link-sync-worker.ts:313-329 | consumes exactly maxTicks ticks' worth from every owned queue, stored or dead-lettered, and so empties them when maxTicks is at least the longest backlog |
| `LinkSyncWorker.BatchPlaced` | src/store/link-sync-worker.ts:441-473 | with unique codes in a queue, every record of a batch is in PostgreSQL with its own target and instant or among the dead letters of that batch |
| `LinkSyncWorker.WentOn` | src/store/link-sync-worker.ts:313-329 | two stretches of draining add up, for what was taken and for where it went |
| `LinkSyncWorker.AllShardsRunOnce` | src/store/link-sync-worker.ts:531-552 | under every interleaving of the lanes, when none can go on every shard was run exactly once |
| `LinkSyncWorker.BatchMakesProgress` | src/store/link-sync-worker.ts:499-501 | a batch that is not empty is never reported as nothing |
| `ClickBuffer.AttemptsAreRemainder` | src/store/click-buffer.ts:213-247 | a code's attempt count is its number of unmatched replies in a row modulo the limit |
| `ClickBuffer.RunsOutEveryLimit` | src/store/click-buffer.ts:225-240 | clicks are given up exactly at every limit-th unmatched reply in a row |
| `ClickBuffer.ClickBuffer.Record` | src/store/click-buffer.ts:96-127 | an error exactly for a closed buffer or an empty code; one click more for the code, and a full buffer starts a flush |
| `ClickBuffer.ClickBuffer.BeginFlush` | src/store/click-buffer.ts:180-192 | the batch is the whole pending map, taken out at once, and only when no flush is under way |
| `ClickBuffer.ClickBuffer.SinkFails` | src/store/click-buffer.ts:193-211 | a failed flush puts every click of the batch back beside what was recorded meanwhile |
| `ClickBuffer.ClickBuffer.SinkReplies` | src/store/click-buffer.ts:213-247 | the two loops settle matched codes, put back unmatched ones with one attempt more, and drop exactly the clicks whose attempts ran out |
| `ClickBuffer.ClickBuffer.Close` | src/store/click-buffer.ts:150-169 | unless the sink throws, closing ends empty after at most maxUnmatchedAttempts flushes beyond the one under way, whatever the sink calls unmatched |
| `ClickBuffer.ClicksConserved` | src/store/click-buffer.ts:96-248 | in every run, per code and in total, recorded clicks are those applied, pending, in flight or dropped, each once |
| `ClickBuffer.CountersAreSums` | src/store/click-buffer.ts:96-248 | in every run pendingTotal, stepped as the code steps it, is the sum of the pending map, and the dropped counter the sum of all clicks given up |
| `ClickBuffer.DroppedAtTheLimit` | src/store/click-buffer.ts:213-247 | the dropped clicks of a code change exactly with an answer that calls it unmatched for a multiple of the limit in a row, by the code's whole batch |
| `ClickBuffer.AppliedAtReply` | src/store/click-buffer.ts:213-224 | the applied clicks of a code change exactly with an answer that calls it matched, by the code's whole batch |
| `ClickBuffer.FruitlessClickIsDropped` | src/store/click-buffer.ts:213-247 | for every code and limit, a click whose code has no link is pending again after every flush before the limit-th, and dropped with that one |
| `ClickBuffer.TotalsKept` | src/store/click-buffer.ts:96-248 | every step keeps the totals of the whole buffer in balance |
| `ClickAggregator.Aggregator.Record` | cpp-redirect/src/core.hpp:129-133 | adds to the code's own stripe and touches nothing else |
| `ClickAggregator.Aggregator.Drain` | cpp-redirect/src/core.hpp:135-147 | alone, lists every code once with its whole count and leaves all stripes empty |
| `ClickAggregator.Aggregator.Pending` | cpp-redirect/src/core.hpp:149-156 | alone, the sum over all stripes is the sum of all counts |
| `ClickAggregator.DrainsTakeWhatWasRecorded` | cpp-redirect/src/core.hpp:125-164 | in every interleaving of records and drains no click is lost or taken twice, and a finished drain leaves nothing behind that was recorded before it began |
| `ClickAggregator.DrainsListCodesOnce` | cpp-redirect/src/core.hpp:135-147 | no drain lists a code twice, whatever is recorded while it runs |
| `ClickAggregator.DrainTakesStripes` | cpp-redirect/src/core.hpp:135-147 | a drain alone takes exactly the clicks of the stripes it passes and leaves them empty |
| `ClickAggregator.RecordsAndBegins` | cpp-redirect/src/core.hpp:129-147 | a record adds its clicks to its stripe, and a drain that begins knows all that was recorded |
| `Snapshots.SeriesKeysEqualExactly` | src/metrics.ts:82-92 | two series share a key if and only if their statuses are equal and method NUL route reads the same |
| `Snapshots.SeriesKeyIsItsOwnExactlyWhenNulFree` | src/metrics.ts:82-92 | no other series has a series' key if and only if its method and route are free of NUL |
| `Snapshots.AcceptedKeyIsItsOwnExactly` | src/metrics.ts:82-92 | among labels that are not empty, as requests are accepted with, a key is its own if and only if the labels hold no NUL but at their outer ends |
| `Snapshots.SeriesKeyInjective` | src/metrics.ts:82-92 | one series free of NUL is enough for two equal keys to be of the same series |
| `Snapshots.NulLabelsCollide` | src/metrics.ts:82-92 | a NUL in a label gives two series with different labels and the same key |
| `Snapshots.ObserveDuration` | src/metrics.ts:197-231 | the bucket loop adds exactly one observation, in the first bucket whose bound is not below the duration |
| `Snapshots.BucketByBounds` | src/metrics.ts:45-58 | the bucket of a duration by the bounds in seconds |
| `Snapshots.OneHotExactlyWhenPositive` | src/cluster-metrics.ts:355-377 | the buckets a worker sends for one request are those of the in-process collector if and only if the duration is not 0 |
| `Snapshots.AddRequestDuration` | src/metrics.ts:233-250 | the loop adds two durations bucket by bucket |
| `Snapshots.AddSeriesUnique` | src/metrics.ts:268-318 | merging never gives a key two series |
| `Snapshots.MergeSeries` | src/metrics.ts:268-318 | the merge loop with its position map computes the merge whose sums are proved |
| `Snapshots.AddCounters` | src/metrics.ts:154-170 | only well-named positive counters are added, each once, in any order of the entries |
| `Snapshots.AddMetricsSnapshot` | src/metrics.ts:252-319 | the whole merge, in terms of the same specification |
| `Snapshots.MergeAdds` | src/metrics.ts:252-319 | every number a snapshot states, for every series key, bucket and counter, is the sum of those of the two snapshots merged |
| `Snapshots.AddToNothing` | src/cluster-metrics.ts:465-472 | merging a batch that could not be sent into the new pending snapshot restores the old one exactly |
| `Snapshots.AgreeingIsEqual` | src/metrics.ts:252-319 | valid snapshots that agree on every number have the same counters and the same series, up to their order |
| `Metrics.RenderBuckets` | src/metrics.ts:389-418 | rendered buckets are running sums that never fall, and the +Inf value is not below any of them if and only if the series' buckets hold no more than its count |
| `Metrics.CollectedBounded` | src/metrics.ts:197-231 | whatever the calls, no series of a collector holds more in its buckets than its count |
| `Metrics.MergedBounded` | src/cluster-metrics.ts:274-289 | nor does any series of the primary, whatever the batches |
| `Metrics.AddSeriesBounded` | src/metrics.ts:233-250 | merging keeps every series' buckets within its count |
| `Metrics.InProcessMetrics.Request` | src/metrics.ts:433-482 | one request adds its one-request snapshot, or nothing when the request is refused |
| `Metrics.InProcessMetrics.Increment` | src/metrics.ts:154-170 | one increment adds its one-counter snapshot, or nothing for a bad name or value |
| `Metrics.ClusterMetrics.Request` | src/cluster-metrics.ts:325-387 | a worker's request adds its one-request snapshot with the worker's own bucket rule |
| `Metrics.ClusterMetrics.Flush` | src/cluster-metrics.ts:444-473 | hands over everything pending exactly once, or keeps it all when there is no channel, nothing to send, or the send throws |
| `Metrics.MetricsAggregator.Add` | src/cluster-metrics.ts:274-289 | adds a batch to the primary's sum |
| `Metrics.AnswersPermuted` | src/metrics.ts:252-319 | what calls add up to does not depend on their order |
| `Metrics.CollectedSeries` | src/metrics.ts:433-482 | a series of a collector states the number of its accepted requests, the sum of their durations, and how many fall between which bounds |
| `Metrics.CollectedCounts` | src/metrics.ts:433-482 | created links, redirects and misses are the numbers of those calls, and a counter is the sum of its positive increments, for well-formed names only |
| `Metrics.MergedSays` | src/cluster-metrics.ts:274-289 | the primary states for every question what one worker would that had taken all calls |
| `Metrics.MergedAgreesExactlyWithoutZeroes` | src/cluster-metrics.ts:325-387 | for any split of calls into batches in any order, the merged snapshot agrees with one collector fed the same calls if and only if no accepted request took exactly no time |
| `Metrics.MergedIsOneCollector` | src/cluster-metrics.ts:274-289 | with labels free of NUL and no zero durations, the merged snapshot has the counters and series of the one collector, unique keys, and buckets within counts |
| `MetricsSafety.ConservedKept` | src/cluster-metrics.ts:444-473 | every step keeps a living worker's calls as merged, then in its channel, then pending, in the order recorded |
| `MetricsSafety.WorkerKeepsItsCalls` | src/cluster-metrics.ts:444-473 | in every run a living worker's recorded calls are those merged, followed by those in its channel, followed by those pending |
| `MetricsSafety.BalancedAlways` | src/cluster-metrics.ts:444-473 | in every run every call is merged once, on its way, or lost with a worker that died |
| `MetricsSafety.ClusterIsOneCollector` | src/cluster-metrics.ts:274-289 | when no call is on its way or lost, the primary's snapshot is that of one collector fed the calls of all workers |
| `MetricsSafety.AnsweredAtMostOnce` | src/cluster.ts:93-118 | in every run no snapshot request gets two responses |
| `MetricsSafety.RemovedStrikesOff` | src/cluster.ts:197-216 | striking a worker off: no pending snapshot awaits it or nobody, those that await others stay, those that awaited nobody else are answered when their requester is reachable, and nothing else changes |
| `MetricsSafety.RemovedIsFilter` | src/cluster.ts:197-216 | the loop that deletes entries as it goes is a filter of the pending snapshots |
| `MetricsSafety.ConfirmedAcknowledges` | src/cluster.ts:175-195 | an acknowledgement strikes its worker off the one snapshot of its request and keeps the mark, or completes it when the worker was the last |
| `MetricsSafety.RequestedExactly` | src/cluster.ts:120-173 | a request makes one new snapshot that awaits all reachable workers, and changes no other |
| `MetricsSafety.PendingIsAwaited` | src/cluster.ts:93-216 | in every run a pending snapshot awaits at least one worker, and none that has exited or acknowledged it |
| `MetricsProtocol.FaultsHappen` | src/cluster.ts:93-313 | at any point a worker can die with any part of its channel still to arrive, a request can time out, a send can throw |
| `MetricsSafety.AnswerHoldsEverythingRecorded` | src/cluster-metrics.ts:549-570 | the barrier, over all runs: each acknowledgement in a response was sent at some step of the run, and the response sums up everything that worker had recorded by then if and only if that flush did not throw, or nothing was pending, or the response also sums up a batch the worker sent later |
| `MetricsSafety.AcknowledgementIsExact` | src/cluster-metrics.ts:549-570 | over all runs, when an acknowledgement is handled, everything its worker recorded before it is merged if and only if that flush did not throw or nothing was pending; the response it completes sums up exactly what is merged then |
| `MetricsSafety.ResponsesCanLackCalls` | src/cluster-metrics.ts:444-473 | for every call there is a run, with a flush that throws, whose response awaits nobody and sums up nothing although its worker had recorded the call |
| `MetricsSafety.CutsKept` | src/cluster-metrics.ts:444-473 | no step splits the calls that a failed flush left pending: what is merged or sent of a worker never ends between them |
| `MetricsSafety.AnswerIsComplete` | src/cluster.ts:175-195 | a response contains, for every worker that acknowledged, all it had handed over before acknowledging; one that awaits nobody heard of every worker it asked, as an acknowledgement or an exit |
| `MetricsSafety.AcknowledgedMark` | src/cluster-metrics.ts:549-570 | the acknowledgement is the last message of the channel and marks what was recorded and handed over; nothing stays pending exactly when nothing was or the send did not throw |
| `Cluster.RestartKeepsIndexesExactlyWhenKnown` | src/cluster.ts:285-292 | taking over an exited worker's index keeps each index held exactly once if and only if the worker was known; the fallback to 0 would double an index |
| `Cluster.RestartMovesOneIndex` | src/cluster.ts:272-294 | a restart hands the index of the worker that exited to the new one and changes no other |
| `Cluster.OneMoreExit` | src/cluster.ts:272-294 | after any exits one more is one more restart, with the next worker id |
| `Cluster.IndexesAlways` | src/cluster.ts:264-294 | after any sequence of exits of live workers the live workers hold each index below n exactly once |
| `Cluster.EveryShardHasOneOwner` | src/cluster.ts:264-294 | after any such sequence each of the 1,024 shards belongs to exactly one live worker, for every n from 1 up |
| `Cluster.PrimaryProcess.constructor` | src/cluster.ts:264-270 | starts n workers with the indexes 0 to n-1 |
| `Cluster.PrimaryProcess.CompleteSnapshot` | src/cluster.ts:93-118 | takes the pending snapshot out and answers a connected requester with the sum of all batches so far |
| `Cluster.PrimaryProcess.RequestWorkerFlushes` | src/cluster.ts:120-173 | asks exactly the connected workers, or answers nobody when there are none |
| `Cluster.PrimaryProcess.AcknowledgeWorkerFlush` | src/cluster.ts:175-195 | strikes the worker off and completes the snapshot when it was the last; an unknown request changes nothing |
| `Cluster.PrimaryProcess.RemoveWorkerFromSnapshots` | src/cluster.ts:197-216 | strikes the worker off every pending snapshot and answers, with the metrics of now, exactly those that awaited nobody else and whose requester is connected |
| `Cluster.PrimaryProcess.AddBatch` | src/cluster.ts:237-240 | a batch enters the sum once, and earlier responses keep the sum they were sent with |
| `Cluster.PrimaryProcess.OnExit` | src/cluster.ts:272-294 | an exit leaves no snapshot that awaits the worker or nobody, answers those that awaited only it, and outside shutdown starts one worker with the index of the one that exited |
| `Cluster.PrimaryProcess.Shutdown` | src/cluster.ts:296-313 | drops every pending snapshot unanswered, once |

## Left out

- Clock differences: the application, Redis and PostgreSQL share one clock, and an instant is a whole number of milliseconds, so a `created_at` with microseconds from PostgreSQL's own `NOW()` is not told apart from its millisecond.
- Redis losing or evicting keys, replica lag, and scripts that run on another primary: the guarantees are for a Redis that keeps what it acknowledged.
- The `clicks` field of the Redis hash and `recordClick` on the cache; hash fields other than target, creation, expiry and the pending flag.
- Key derivation of the round keys (any keys, and for the bijection any round function), random tokens (fresh numbers), JSON text and `Date` parsing beyond what the serializer prints (a parsed value, and a reader of printed dates).
- Unreadable records that are no link at all: a queue entry is a link, readable or not; the text of a dead letter is its link and reason.
- Integer widths beyond those named: 64-bit counts, safe-integer limits and the rounding of duration sums (reals).
- Strings are sequences of Unicode characters where JavaScript counts UTF-16 units; keys hash one byte per character, as codes are ASCII.
- Overlong targets: nothing in creation bounds the normalised URL, so a link whose target exceeds 2,048 characters is accepted and then dead-lettered; the guarantees name that case instead of excluding it.
- SQL text, CHECK constraints, migrations, pools; `size`, `estimatedSize`, `isHealthy`, `backlog` and timers.
- HTTP routing, URL policy, API keys, rate limiting, configuration, the in-memory store, warm-up jobs, benchmarks: short branch checks or plumbing that would only add easy members.
- The Drogon and RapidJSON code around the C++ core.
- The shape checks on metrics messages: a batch is what a worker's collector produced.
- `created`, `redirect` and `miss` of the collectors as methods: each adds one to its field, and appears as a call in the split theorem.
- The requester's side of a snapshot request (its timeout and its map of pending promises); process ids reused by a later worker; signals and the forced shutdown.
- Rendering of metrics beyond the cumulative buckets: label escaping and sorting.
- Guarantees.AcknowledgedIsServed: the read is one Redis read and one later PostgreSQL query; a read that finds Redis down before the link is synced goes to PostgreSQL alone and is not covered.
- LinkSyncWorker.Worker.Drain: stated for a worker without competitors, failures and new entries, with its lanes one after another; every interleaving of lanes is covered by `LinkSyncWorker.AllShardsRunOnce`, and of workers by the transition system.
- LinkSyncWorker.Worker.Tick: shards run one after another, and neither the `isAvailable` test nor a shard that fails is modelled.
- SyncQueue.CachedLinkStore.ReadSafely: a hash with a bad creation instant or click count is not represented; an empty target stands for every malformed hash.
- LinkSyncWorker.Worker.SyncShard: the lock does not expire while it works; the transition system covers that.
- ClickBuffer.ClickBuffer.Close: nobody else calls `flush` while it waits; a sink that applies clicks and then throws counts as not having applied them.
- ClickAggregator.Aggregator.Pending: between two stripes other threads may record or drain, and then the sum is of no single moment; only the undisturbed sum is stated.
- MetricsSafety.AnswerIsComplete: speaks of what was handed over; when that is all that was recorded is `MetricsSafety.AnswerHoldsEverythingRecorded`.
- Snapshots.AddCounters: the source keeps counters in a plain object, so for the well-formed name `constructor` it reads an inherited function instead of nothing and the counter is no number any more; the model keeps a map and adds. Nothing in the repository counts under that name.
- MetricsSafety.ClusterIsOneCollector: messages sent by a worker that then dies may be cut off at any point; what is cut off is counted as lost.
