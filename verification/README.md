# agentdesktop: a Dafny model of its stateful cores

agentdesktop manages AI coding tools on developer machines. A daemon on each
machine keeps secrets, signs in to an LLM gateway and applies configurations
that a controller pushes; the controller enrolls devices, checks ID tokens and
keeps usage statistics. This project models the four parts of it whose
guarantees are about whole histories rather than single calls, and proves
those guarantees for all of them. `dafny verify dfyconfig.toml` checks the
whole project.

**Usage statistics** (`Usage*.dfy`, `Otlp*.dfy`). Gateway log records become
usage records, each named by a digest of its content. The store drops repeats,
sums records into hourly rollups, makes UTC days of old hours and expires old
days. `UsageTable` reads each maintenance statement as a placement of rows, so
that two statements compose row by row; `UsageStore` is the class with the
loops of `ingest` and `compact`; `UsageRuns` shows that every mixture of
batches, repeats and maintenance, complete or cut short, ends in the table of
the distinct records; `UsageReports` and `UsageBuckets` show that every report
reads as if it were made from the plain list of those records, and
`UsageReadings` reads every figure off the records themselves. `OtlpDecimal`,
`OtlpDigest` and `OtlpRecord` cover exact decimal parsing, the unique
decodability of the bytes fed to the digest, and the bounds of what is
accepted.

**The secret store** (`Secret*.dfy`). A secret is a sealed file, a key kept by
the operating system, an identity of the store, and perhaps a value an earlier
version left. Every operation is a sequence of steps any of which can fail.
`SecretStore` has the class and what each operation does to every disk,
`SecretRuns` what holds over all histories with failures, losses and damage,
and `SecretLock` all interleavings of readers and writers under the store
lock, one access at a time.

**Sign-in protocols** (`JwksCache.dfy`, `PendingEnrollments.dfy`,
`DeviceGrant.dfy`, `DevicePoll.dfy`). State machines of any number of
concurrent requests with an explicit clock: the cache of signing keys with its
single-flight refresh and cooldown, the bounded table of pending enrollments,
the single device grant of each account, and the polling loop of section 3.5
of RFC 8628.

**Configuration stream** (`ConfigStream.dfy`). The connection loop, the
reconcile tick and the user's program choice all apply the current
configuration; only one that applied may be restored at the next start.

Where the code and what it says about itself differ, the model follows the
code, and the difference is a result:

- Setting the expiry of a reservation is described as narrowing it. A slow
  answer extends it; `NarrowsExactlyWhenQuick` gives the exact condition and
  `SlotOutlivesReservation` a history.
- A `set` of a secret that stops part-way leaves `get` as it was exactly on
  the disks that are not `Exposed`; on the others it can bring back a value
  of an earlier version (`StaleValueCanReturn`).
- Saved configurations are ones that applied exactly when no revision is sent
  with two valid configurations (`SavedWasAppliedIff`). The controller keeps
  one revision across hot reloads (`crates/controller/src/daemon_config.rs`,
  lines 73 and 119), so this is a real hypothesis.
- A push that does not parse makes the loop forget an earlier push that is
  still waiting to be saved (`PendingPushForgotten`); a successful re-apply
  saves the newest valid push exactly when nothing was pushed after it
  (`ReapplySavesNewestValidIff`).
- Two secrets are independent exactly when neither is named like the other's
  key entry (`SetKeepsOthersIff`, `DeleteKeepsOthersIff`).
- Every ingest of a history counts exactly the records that come first if and
  only if no identifier repeats after a maintenance run that completed more
  than seven days after its first receipt (`CountsAlikeIffPrompt`); however
  late, a repeat without such a run is still recognised.

Time, randomness, failures and the answers of other systems are parameters or
steps of the models. Identifiers and keys drawn at random are taken to be new,
and a sealed file opens only with its own key and entry.

## Model

| member | source | states |
|---|---|---|
| `UsageWindow.PresetShape` | crates/usage/src/lib.rs:299-322 | every preset window consists of whole buckets aligned to the hour or the local day, and ends after now |
| `UsageWindow.PresetLength` | crates/usage/src/lib.rs:299-322 | exactly the four range names and offsets of at most 14 hours give a window: 24 hours by the hour, or 7, 30 or 90 days by the day |
| `UsageWindow.BucketsPartitionWindow` | crates/usage/src/lib.rs:339-363 | an instant has a bucket index exactly when it lies in the window, and the index names the one bucket that holds it |
| `UsageWindow.PresetAfterCutoff` | crates/usage/src/lib.rs:299-322 | every preset window starts after the hours that compaction turns into days |
| `UsageWindow.PreviousUnsplit` | crates/usage/src/lib.rs:327-337 | the period before a preset window starts at a UTC midnight whenever it reaches into compacted time, so no day is split by it |
| `UsageTable.RegroupAddRow` | crates/usage/src/store.rs:162-207 | moving or dropping rows commutes with inserting one: the measures land in the row's place |
| `UsageTable.RegroupCompose` | crates/usage/src/store.rs:162-207 | two maintenance statements have the effect of one whenever their row placements compose |
| `UsageTable.RegroupAbsorbs` | crates/usage/src/store.rs:162-207 | a later maintenance statement makes an earlier one with smaller cutoffs invisible |
| `UsageTable.RegroupedRecords` | crates/usage/src/store.rs:94-207 | a maintained table has a row exactly where a record is placed, with the sum of those records |
| `UsageStore.UsageStore.Collect` | crates/usage/src/store.rs:103-123 | the first loop keeps exactly the records whose identifier is new, in the batch too, and sums them per key saturating |
| `UsageStore.UsageStore.InsertBatch` | crates/usage/src/store.rs:124-155 | the second loop adds every rollup of the batch to its hourly row and changes no other row |
| `UsageStore.UsageStore.Ingest` | crates/usage/src/store.rs:94-158 | a batch whose transaction commits adds the new records and their receipts and returns their number; one that does not changes nothing |
| `UsageStore.UsageStore.Moved` | crates/usage/src/store.rs:164-195 | inserting the days row by row and deleting the hours moves every old hour to its UTC day, summing what falls together |
| `UsageStore.UsageStore.ExpireDays` | crates/usage/src/store.rs:196-200 | the days past their retention go, everything else stays |
| `UsageStore.UsageStore.Compact` | crates/usage/src/store.rs:162-207 | maintenance stopped after any of its three steps has done exactly those steps |
| `UsageBatch.SaturatedSums` | crates/usage/src/lib.rs:108-125 | the saturating sum per key is the exact sum cut off at the largest 64-bit integer |
| `UsageBatch.BatchOrderIndependent` | crates/usage/src/store.rs:103-123 | the rollups of a batch do not depend on the order of its records |
| `UsageBatch.MergedExact` | crates/usage/src/store.rs:103-150 | a batch whose sums fit is stored as if each record had been added by itself |
| `UsageBatch.AcceptedBatchFits` | crates/usage/src/otlp.rs:215-234 | no batch of at most 9223 accepted records saturates any sum |
| `UsageRuns.LedgerCountsFirstReceived` | crates/usage/src/store.rs:94-123 | the reference ledger counts exactly the first-received record of every identifier |
| `UsageRuns.RunRemembers` | crates/usage/src/store.rs:162-207 | while no forgotten identifier repeats, the receipts are exactly those first received no more than seven days before the last complete maintenance |
| `UsageRuns.CountsAlikeIffPrompt` | crates/usage/src/store.rs:94-207 | in every history in time order, every ingest counts exactly the first-received records if and only if no identifier repeats after a maintenance completed more than seven days after its first receipt |
| `UsageRuns.WithinSevenDays` | crates/usage/src/lib.rs:30-39 | repeats within seven days of the first receipt meet that condition |
| `UsageRuns.LateRepeatCountsTwice` | crates/usage/src/store.rs:94-207 | a record repeated after such a maintenance is counted twice |
| `UsageRuns.RunConserves` | crates/usage/src/store.rs:94-207 | after every history, one complete maintenance makes the same table of the store as of the plain records |
| `UsageRuns.CompactedTableCountsEachRecordOnce` | crates/usage/src/store.rs:94-207 | however ingests, repeats and maintenance mix, a history ending in a complete maintenance has the table of every distinct record added once, as first received, and maintained once |
| `UsageRuns.PlaceOfRecord` | crates/usage/src/store.rs:162-207 | a record counts in its hour, in its UTC day or nowhere, by its age |
| `UsageRuns.CompactedRow` | crates/usage/src/store.rs:94-207 | the same table row by row: present exactly where a distinct record is placed, holding the sum of those records |
| `UsageReports.CompactedKeepsQuery` | crates/usage/src/store.rs:162-207 | maintenance up to now, complete or not, changes neither the sums nor the groups of a period it cannot split |
| `UsageReports.CompactionInvisible` | crates/usage/src/store.rs:162-289 | for every preset range, legal UTC offset and filter, maintenance at now or earlier leaves summary and breakdowns of the window and of the period before it, and the series of the window, unchanged |
| `UsageReports.ReportsMatchRecords` | crates/usage/src/store.rs:94-289 | after every history the same reports of the store equal those made of the plain list of distinct records |
| `UsageReadings.RecordTotalsRead` | crates/usage/src/store.rs:80-90 | each of the ten totals adds up its own figure over the records in the period that meet every condition: spend billed per token, subscription spend and subscription requests by billing, the others over all |
| `UsageReadings.ReportsReadRecords` | crates/usage/src/store.rs:94-340 | after every history, for every preset range, legal UTC offset and filter, summary with distinct known users and devices, breakdowns by every dimension and series say figure by figure what is read off the distinct records, for the window and, but for the series, the period before it |
| `UsageBuckets.GroupsAddUp` | crates/usage/src/store.rs:244-289 | the groups of a breakdown or a series, in any order, add up to the summary |
| `UsageBuckets.FillBuckets` | crates/usage/src/report.rs:256-269 | every bucket, empty ones included, gets the saturating total of the rows whose start it holds |
| `UsageBuckets.BucketFoldExact` | crates/usage/src/lib.rs:151-173 | saturating bucket totals are exact when what the window adds up to fits in 64 bits |
| `UsageBuckets.BucketHoldsItsInstants` | crates/usage/src/lib.rs:339-358 | the sum of a bucket is the usage stored for exactly the bucket's instants |
| `UsageBuckets.SeriesAddsUp` | crates/usage/src/store.rs:244-264 | the rows of the series, one per stored start, add up to the summary |
| `UsageBuckets.BucketsAddUp` | crates/usage/src/lib.rs:339-358 | for every preset window and filter the exact sums of all buckets add up to the summary: no stored start falls between buckets or into two |
| `UsageBuckets.FilledBucketsAddUp` | crates/usage/src/report.rs:256-269 | when the summary fits in 64 bits, so do the buckets as the report fills them |
| `UsageBuckets.BucketsReportTheirInstants` | crates/usage/src/report.rs:256-269 | when the summary fits, each reported bucket is the usage stored for exactly its instants |
| `UsageReadings.BucketsReadRecords` | crates/usage/src/report.rs:256-269 | after every history, when the summary fits, each reported bucket says figure by figure what is read off the distinct records of its instants |
| `OtlpDecimal.HalfUpUnique` | crates/usage/src/otlp.rs:303-327 | at most one whole number of nanos is an amount rounded half up |
| `OtlpDecimal.ComputedIsNanos` | crates/usage/src/otlp.rs:303-327 | what the digits compute is the amount times a billion rounded half up, for a fraction of any length |
| `OtlpDecimal.NineDigitValue` | crates/usage/src/otlp.rs:303-327 | the digit loop computes the value of the first nine fraction digits, padded with zeros |
| `OtlpDecimal.DecimalNanos` | crates/usage/src/otlp.rs:303-327 | a plain decimal gives exactly that amount, and none exactly when it does not fit in 64 bits; other notation takes the floating-point path |
| `OtlpDigest.Decode` | crates/usage/src/otlp.rs:377-413 | no encoding of a value is the start of another, at any nesting depth |
| `OtlpDigest.SortIsStable` | crates/usage/src/otlp.rs:355-370 | sorting attributes keeps the entries of every key in their order |
| `OtlpDigest.SortedUnique` | crates/usage/src/otlp.rs:355-370 | sorted attributes are determined by what they hold under every key |
| `OtlpDigest.DigestIdentifiesRecord` | crates/usage/src/otlp.rs:355-413 | two records feed the hash the same bytes exactly when they agree on timestamps, identifiers, body and, key by key in order, attributes, an empty value counting as a missing one |
| `OtlpDigest.Hasher.HashBytes` | crates/usage/src/otlp.rs:372-375 | the hash receives the length-prefixed encoding of the bytes, and nothing else |
| `OtlpDigest.Hasher.HashValue` | crates/usage/src/otlp.rs:377-413 | the hash receives exactly the encoding of the value |
| `OtlpDigest.Hasher.HashRecord` | crates/usage/src/otlp.rs:355-370 | the hash receives exactly the digest bytes of the record |
| `OtlpRecord.CostBounds` | crates/usage/src/otlp.rs:291-300 | an accepted cost is not negative and at most 10^15 nanos |
| `OtlpRecord.TrimSplits` | crates/usage/src/otlp.rs:291-300 | trimming removes exactly the white space around a text |
| `OtlpRecord.CostReads` | crates/usage/src/otlp.rs:291-327 | an amount is accepted as exactly its billionths: rounded half up for a plain decimal, dollars times a billion for an integer |
| `OtlpRecord.OccurredReads` | crates/usage/src/otlp.rs:334-351 | a record counts at its time, or its observed time, or now when it has neither or is more than five minutes ahead, and is refused exactly when older than the retention |
| `OtlpRecord.AcceptedRecord` | crates/usage/src/otlp.rs:171-268 | an accepted record has non-negative bounded measures and falls in a whole, non-negative hour that is neither expired nor far ahead |
| `OtlpRecord.AcceptedSaysWhatWasSent` | crates/usage/src/otlp.rs:215-268 | every field of an accepted record is that of its own attribute: the four counts, zero when absent, the error, the cost, unpriced exactly without a cost and with tokens, and the hour that holds its time |
| `OtlpRecord.AcceptedIff` | crates/usage/src/otlp.rs:171-268 | a record is accepted if and only if its four counts and its cost are absent or in bounds and it is not too old |
| `OtlpRecord.ParsedExportFits` | crates/usage/src/otlp.rs:215-268 | an export of at most 9223 accepted records is summed exactly |
| `SecretStore.KeyEntryInjective` | crates/agent/src/secret_store.rs:433-442 | different stores and secrets have different key entries |
| `SecretStore.GetAnswers` | crates/agent/src/secret_store.rs:259-291 | exactly when `get` answers a secret, nothing or a malformed key: a secret comes from an earlier version without a file, or from a file sealed for this entry with its key |
| `SecretStore.Envelope.Read` | crates/agent/src/secret_store.rs:259-291 | reads without changing anything, as `Get` says |
| `SecretStore.Envelope.CreateStoreId` | crates/agent/src/secret_store.rs:389-404 | keeps a well-formed identity and otherwise writes a new one, failing exactly when the reading or the writing fails |
| `SecretStore.Envelope.Write` | crates/agent/src/secret_store.rs:293-329 | the step-by-step write leaves the disk and the result that `Set` gives, for every set of failing steps; `SetSucceedsIff` and `SetLeaves` say when that is success and what is left |
| `SecretStore.Envelope.Remove` | crates/agent/src/secret_store.rs:331-349 | the same for deleting |
| `SecretStore.SetReadsBack` | crates/agent/src/secret_store.rs:259-329 | from any disk, however damaged, a `set` that succeeds makes `get` answer exactly that secret |
| `SecretStore.SetSucceedsIff` | crates/agent/src/secret_store.rs:293-329 | on every disk `set` succeeds if and only if none of the steps it needs there fails; looking for the file and cleaning up never make it fail |
| `SecretStore.SetWithoutFaults` | crates/agent/src/secret_store.rs:293-329 | when nothing fails, writing or overwriting succeeds on every disk and is read back |
| `SecretStore.SetLeaves` | crates/agent/src/secret_store.rs:293-329 | a successful `set` keeps a well-formed identity and key or makes new ones, seals the file with that key, and removes an earlier version's value exactly when the file is new and clean-up works |
| `SecretStore.DeleteSucceedsIff` | crates/agent/src/secret_store.rs:331-349 | `delete` succeeds if and only if none of its steps fails, and leaves the identity |
| `SecretStore.SetKeepsOthers` | crates/agent/src/secret_store.rs:293-329 | no `set`, successful or not, changes the answer for another entry, unless one of the two is named like the other's key entry |
| `SecretStore.SetKeepsOthersIff` | crates/agent/src/secret_store.rs:293-329 | `set` of one entry leaves another alone on every disk if and only if neither is named like the other's key entry |
| `SecretStore.DeleteKeepsOthers` | crates/agent/src/secret_store.rs:331-349 | no `delete` changes the answer for another entry either, under the same condition |
| `SecretStore.DeleteKeepsOthersIff` | crates/agent/src/secret_store.rs:331-349 | the same if-and-only-if for `delete` |
| `SecretStore.PlainServicesApart` | crates/agent/src/secret_store.rs:433-442 | services that do not end in the key suffix meet the condition |
| `SecretStore.LosesKey` | crates/agent/src/secret_store.rs:293-349 | deleting or writing an entry named like another secret's key entry loses that secret |
| `SecretStore.LosesNamed` | crates/agent/src/secret_store.rs:293-349 | deleting or writing a secret loses the value of an entry named like the secret's own key entry |
| `SecretStore.StoppedSet` | crates/agent/src/secret_store.rs:293-329 | a `set` that stops leaves the answer as it was or, on an exposed disk, the answer without the file |
| `SecretStore.StoppedSetKeepsAnswer` | crates/agent/src/secret_store.rs:293-329 | every stopping `set` leaves the answer as it was if and only if the disk is not exposed |
| `SecretStore.StoppedSetWithoutLegacy` | crates/agent/src/secret_store.rs:293-329 | with no value of an earlier version, only an entry with a malformed key can change, to absent |
| `SecretStore.DeleteNeverRevives` | crates/agent/src/secret_store.rs:331-349 | a `delete` that stops leaves the answer as it was or absent, one that succeeds leaves nothing, and repeating a stopped one completes it |
| `SecretRuns.StepKeysFit` | crates/agent/src/secret_store.rs:293-349 | every operation, loss or damage keeps each well-formed key beside a file it opens |
| `SecretRuns.RunKeysFit` | crates/agent/src/secret_store.rs:293-404 | over every history from a store without files, no read ever fails because its key does not fit its file |
| `SecretRuns.StaleValueCanReturn` | crates/agent/src/secret_store.rs:293-329 | a failed clean-up, a lost key and a write that stops make `get` answer an earlier version's value again |
| `SecretLock.FinishIsSequential` | crates/agent/src/secret_store.rs:259-349 | a call taken alone, access by access, does what the sequential operation does |
| `SecretLock.CallsAreAtomic` | crates/agent/src/secret_store.rs:239-349 | in every interleaving writes and deletes take effect one at a time, and every call that returned answered as the sequential one on the disk of one state between its invocation and its return, the disk after the writes completed before it |
| `SecretLock.CallSpans` | crates/agent/src/secret_store.rs:239-349 | gives the steps of the invocation, of taking the lock and of releasing it; the state answered on is the one in which the lock was taken |
| `SecretLock.CallsEndAsDecided` | crates/agent/src/secret_store.rs:239-349 | in every interleaving a returned call ended as its failing steps alone decide on the disk on which it got the lock: without failures a `get` answers and a `set` or `delete` succeeds |
| `SecretLock.NoMixedKeys` | crates/agent/src/secret_store.rs:293-404 | competing first writes never leave one writer's key beside another's file |
| `JwksCache.Find` | crates/controller/src/oidc.rs:461-467 | the found key has the identifier; without one, no key of the set has it |
| `JwksCache.FetchesKeepCooldown` | crates/controller/src/oidc.rs:418-459 | any two fetches start at least the cooldown apart, however many lookups miss, fail or are cancelled |
| `JwksCache.SingleFlight` | crates/controller/src/oidc.rs:418-459 | at most one lookup is past the gate, and it holds it |
| `JwksCache.FoundKeyWasCached` | crates/controller/src/oidc.rs:418-467 | a returned key has the requested identifier and comes from a key set cached at some moment of the lookup |
| `JwksCache.FailedFetchCounts` | crates/controller/src/oidc.rs:447-459 | a failed or cancelled fetch frees the gate, keeps the cached keys and still counts as an attempt |
| `JwksCache.TurnedAway` | crates/controller/src/oidc.rs:427-447 | a lookup that misses within the cooldown starts no fetch |
| `JwksCache.CachedIsFound` | crates/controller/src/oidc.rs:423-425 | a cached key is returned at once without a fetch; any other lookup queues for the gate |
| `JwksCache.MissFetches` | crates/controller/src/oidc.rs:433-452 | a lookup that still misses and finds no attempt within the cooldown fetches |
| `JwksCache.FetchedKeyIsFound` | crates/controller/src/oidc.rs:449-459 | a lookup that fetched a key set returns its key if and only if that set has it, whatever other lookups do |
| `PendingEnrollments.PendingTable.Insert` | crates/controller/src/oidc.rs:279-301 | drops what has expired and takes a slot exactly if fewer than 1024 unexpired enrollments are pending |
| `PendingEnrollments.ReleaseUndoesInsert` | crates/controller/src/oidc.rs:279-308 | releasing a new reservation restores the table without what had expired, and its room |
| `PendingEnrollments.PendingTable.SetExpiry` | crates/controller/src/oidc.rs:313-317 | changes the deadline of that slot if it is there, and adds none |
| `PendingEnrollments.PendingTable.Complete` | crates/controller/src/oidc.rs:319-333 | takes the slot out whatever comes of it, and completes it with what was pending exactly before its deadline |
| `PendingEnrollments.NarrowsExactlyWhenQuick` | crates/controller/src/oidc.rs:310-317 | setting the expiry shortens a reservation if and only if the time the answer took and the lifetime together fit in ten minutes |
| `PendingEnrollments.SlowAnswerExtends` | crates/controller/src/oidc.rs:310-317 | an answer after five minutes that allows ten keeps the slot for fifteen |
| `PendingEnrollments.SlotOutlivesReservation` | crates/controller/src/oidc.rs:212-333 | a history in which an enrollment is completed two minutes after the ten it was reserved for |
| `PendingEnrollments.GrantLifetime` | crates/controller/src/oidc.rs:500-538 | an answer with both codes, an address and a lifetime is accepted, for the provider's lifetime up to ten minutes |
| `PendingEnrollments.EnrollmentsBounded` | crates/controller/src/oidc.rs:157-333 | in every history: at most 1024 pending, no deadline over ten minutes ahead, one grant request per reservation and none without, no slot left by a failed request, at most one completion and before its deadline |
| `PendingEnrollments.BrowserEnrollmentCompletes` | crates/controller/src/oidc.rs:157-333 | in every history a browser enrollment that found room is completed when presented, with its own hostname and nonce, at every moment of its ten minutes and not later |
| `PendingEnrollments.DeviceEnrollmentCompletes` | crates/controller/src/oidc.rs:212-333 | a device enrollment whose grant was answered while it was reserved is completed when presented, until the lifetime of the answer has passed and not later |
| `PendingEnrollments.GoneNeverCompletes` | crates/controller/src/oidc.rs:319-333 | an enrollment that is not pending any more is never completed |
| `PendingEnrollments.RequestsInFlightBounded` | crates/controller/src/oidc.rs:212-244 | at most 1024 device requests with a standing reservation are in flight at the provider |
| `DeviceGrant.AtMostOneGrant` | crates/agent/src/gateway_oidc.rs:265-319 | at every moment of every interleaving an account has at most one grant, being requested or live, and the live one is the pending one |
| `DeviceGrant.ReportedGrantWasLive` | crates/agent/src/gateway_oidc.rs:265-383 | a reported grant was live at a step during the call that reports it |
| `DeviceGrant.NoGrantMissed` | crates/agent/src/gateway_oidc.rs:369-383 | a check that finds neither tokens nor a pending grant overlooks none: a grant live when it read the token store is over and at no later moment has stored tokens |
| `DeviceGrant.StoredTokensFound` | crates/agent/src/gateway_oidc.rs:369-383 | no check misses tokens that a background poll stored before it and that have not expired |
| `DeviceGrant.CallsReturnWhatTheyFind` | crates/agent/src/gateway_oidc.rs:265-383 | found tokens are reported as signed in, a pending grant as the one live grant of the account, a received grant is pending from then on, and finding nothing twice leads to a request |
| `DeviceGrant.CancelledHoldsNothing` | crates/agent/src/gateway_oidc.rs:265-319 | a cancelled call leaves no lock behind |
| `DeviceGrant.OverIsFinal` | crates/agent/src/gateway_oidc.rs:306-318 | a grant that is over stays as it is at every later moment |
| `DeviceGrant.MoveLocks` | crates/agent/src/gateway_oidc.rs:265-319 | a call that only takes free locks leaves the login lock and the account locks with exactly the calls inside them |
| `DeviceGrant.NothingStoredMeanwhile` | crates/agent/src/gateway_oidc.rs:442-469 | no background poll stores tokens while a check holds the login lock |
| `DevicePoll.PollDeviceToken` | crates/agent/src/oidc.rs:514-572 | the loop makes the requests of the recursive polling `Poll` for every sequence of answers, delays and late timers, and ends signed in, rejected or lost exactly as the last answer was tokens, a refusal or a broken request, and expired exactly when all were pending |
| `DevicePoll.PollKeepsPace` | crates/agent/src/oidc.rs:514-572 | each request is sent when due, before the deadline, and settled by it; only pending answers are followed by another; the outcome is that of the last answer; polling ends by the deadline but for one late timer |
| `DevicePoll.PacedAt` | crates/agent/src/oidc.rs:522-541 | every request waited for the interval in force after the answer before it |
| `DevicePoll.IntervalGrows` | crates/agent/src/oidc.rs:565-569 | the interval in force is the first one and five seconds for every `slow_down`, as section 3.5 of RFC 8628 asks |
| `DevicePoll.IntervalsFit` | crates/agent/src/oidc.rs:514-572 | the number of requests times the interval is less than the lifetime of the code |
| `DevicePoll.ValidatedDevice` | crates/agent/src/gateway_oidc.rs:425-440 | a response is accepted exactly with both codes, an address and a lifetime, which is cut at half an hour |
| `DevicePoll.PollIntervalUsed` | crates/agent/src/gateway_oidc.rs:491-497 | the provider's interval is used up to a minute, and five seconds without one |
| `DevicePoll.ValidatedGrantRequests` | crates/agent/src/gateway_oidc.rs:425-497 | a validated grant lives at most half an hour, and paced requests for it number at most its lifetime divided by its interval, fewer than 1800 |
| `DevicePoll.PollOfValidatedGrant` | crates/agent/src/gateway_oidc.rs:442-469 | the polling that completes a validated grant keeps the pace and that bound, whatever the endpoint answers |
| `ConfigStream.StatusChannel.Publish` | crates/agent/src/tick.rs:97-108 | publishing never replaces the outcome of a later apply |
| `ConfigStream.Connection.HandlePush` | crates/agent/src/remote.rs:839-870 | a push is saved if it is valid, applies and saves; a valid one that is not saved is pending, and an invalid one clears what was pending |
| `ConfigStream.Connection.HandleOutcome` | crates/agent/src/remote.rs:818-838 | a successful outcome for the stream's revision saves the pending push; a failed save keeps it pending and is reported |
| `ConfigStream.SavedWasAppliedIff` | crates/agent/src/remote.rs:797-962 | over all pushes, ticks, choice changes, reconnects and logouts, everything saved had been applied if and only if no revision is sent with two valid configurations |
| `ConfigStream.ReusedRevision` | crates/agent/src/remote.rs:818-838 | with a revision used twice, a late outcome of the first configuration saves the second, which never applied |
| `ConfigStream.NewestSavedOrPending` | crates/agent/src/remote.rs:839-870 | between messages the newest push, if valid, is saved or pending, and nothing else is pending |
| `ConfigStream.ReapplySavesNewest` | crates/agent/src/remote.rs:818-838 | if the newest push is valid, a successful re-apply of it and a successful save leave it saved and nothing pending |
| `ConfigStream.ReapplySavesNewestValidIff` | crates/agent/src/remote.rs:818-870 | when a successful outcome for the newest valid push is taken and saving succeeds, that push becomes the saved one if and only if no push at all was received after it |
| `ConfigStream.TakeSavesOnlyNewest` | crates/agent/src/remote.rs:818-838 | taking an outcome saves the newest push of the stream or nothing |
| `ConfigStream.PushSettles` | crates/agent/src/remote.rs:839-870 | a valid push becomes current, is saved when apply and save succeed, and is pending when one of them fails |
| `ConfigStream.InvalidPushForgetsPending` | crates/agent/src/remote.rs:839-870 | after an invalid push, no outcome taken at any later moment of the stream saves anything until a valid push arrives |
| `ConfigStream.PendingPushForgotten` | crates/agent/src/remote.rs:818-870 | a full run in which a pending push is current, re-applied with success and taken, and yet not saved, because an invalid push came in between |
| `ConfigStream.OutcomesInOrder` | crates/agent/src/remote.rs:1136-1147 | outcomes are taken at most once and in the order of their applies |
| `ConfigStream.TakenIsOfThisStream` | crates/agent/src/remote.rs:758-763 | an outcome that a stream takes was published after the stream was opened |
| `ConfigStream.LoggedOutAppliesNothing` | crates/agent/src/remote.rs:566-587 | after a logout nothing is re-applied until a valid push arrives |

## Left out

- SQL integer overflow: stored columns are unbounded integers, so an insert that would exceed 64 bits is not modelled; sums in memory saturate as in the code.
- UsageReports.ReportsMatchRecords: does not cover ranking, limits or the display names of breakdowns, which only select and decorate the groups.
- UsageRuns.CompactedTableCountsEachRecordOnce: histories in which a forgotten identifier repeats, which the store counts again, and batches that overflow a 64-bit sum are outside it.
- Negative bucket starts: reports over compacted time are stated for non-negative starts, which `AcceptedRecord` establishes; SQL division truncates the others toward zero.
- OtlpRecord.AcceptedRecord: labels, UUIDs and client identifiers are given, and the floating-point paths of costs and counts are only taken to stay in their ranges.
- OtlpRecord.AcceptedIff: records that name no provider, which are skipped before anything is read, and the shortening of labels are not modelled.
- SHA-256, AES-GCM and base64: the digest is represented by the bytes fed to it, sealing by a box that opens with its own key and entry.
- SecretStore.Envelope.Write: a crash is a failing step after which nothing more happens; replacing a file is all-or-nothing.
- Stores in several directories at once, and keyrings without the file store.
- DeviceGrant.AtMostOneGrant: the class form is not used for the pending map and the locks, because calls and background polls interleave; they are steps on values.
- JwksCache.FetchesKeepCooldown: the same holds for the cached key set and the gate; time-outs of a fetch are failures of it.
- PendingEnrollments.EnrollmentsBounded: the checks of the hostname and the PKCE challenge before a slot is taken, and of the tokens after it is taken out, are not modelled.
- DevicePoll.PollDeviceToken: the text of token endpoint errors is reduced to the five kinds of answer the loop distinguishes.
- ConfigStream.SavedWasAppliedIff: applying is abstract, a configuration is named by its text, and the statuses sent to the controller are not modelled.
- The token refresh of the controller session, whose saves are not synchronised.
- The reconciler and its plans, the LLM proxy, program choice, identity migration and enrollment pages.
- gRPC, HTTP, TLS, certificates, the command line, the desktop interface, file watchers and logging.
