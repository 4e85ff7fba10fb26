# forgeline, verified

Dafny models of the parts of forgeline that carry its guarantees, and proofs of those guarantees. Everything is proved
for all inputs and all runs; a run is any finite sequence of steps, taken in any order that the code allows.

| module | what it models |
|---|---|
| `HubQueue`, `HubConservation`, `HubExpiry`, `HubDeadlines`, `HubCalls`, `HubAnswers`, `HubObjects` | The cloud's job queue. `enqueue` and `alarm` are cut at every `await`; calls interleave freely, each D1 request commits as a whole or changes nothing, and the object may crash. State: Hub rows and alarm, D1 rows and audit rows, the calls in flight with their place, the replies given. |
| `DeviceJobs`, `DeviceOnce`, `DeviceAnswers`, `DeviceLimits`, `DeviceHandling`, `DeviceObjects` | The device's job path: job body, journal, gates, executor, result. Disk and memory are separate; a crash drops the memory and `Journal::open` rebuilds it. |
| `DeviceFrames`, `FrameStarts`, `FrameReruns`, `DeviceEndpoint` | `on_frame`: the agent's verifier in front of the job path, over runs of raw text. The clock is read once for the verifier and once for the job. |
| `JobBodies`, `JobFrames`, `SealedJobs` | What a job frame has to hold, field by field, and what becomes of it. |
| `EventSpool`, `SpoolRuns`, `SpoolSteps`, `SpoolObjects` | Events on their way to the cloud: stored, sent on each connection, deleted by an ack. |
| `CanonicalJson`, `CanonicalReader`, `CanonicalInverse`, `DepthScan`, `JsonText`, `JsonScan`, `JsonInverse` | Canonical JSON (RFC 8785 as the protocol restricts it): the printer, a reader for exactly its texts, the bracket scan, and the JSON parser with and without the bound on nesting. |
| `JsonGrammar`, `JsonSpelling`, `JsonReading`, `JsonMeaning` | The grammar of RFC 8259 and the meaning of a text, written down without a parser, and the proof that the parser reads exactly that. |
| `Verdicts`, `Frames`, `FrameCodes`, `Replays`, `FrameRuns` | The reference frame verifier and the agent's, the code for each frame, their memories of accepted ids, and whole runs of both. |
| `Seals` | Sealing a frame, and what becomes of a sealed frame at a receiver. |
| `GifLzw` | The LZW stream and sub-blocks of the sprite generator, and the decoder of Appendix F of the GIF89a specification. |
| `CivilTime` | The closed form from day numbers to dates, against the Gregorian calendar counted day by day. |
| `Base64Url` | base64url without padding, strict. |
| `Ulids`, `TextOrder` | ULIDs and the order in which names are listed. |
| `Writes`, `WriteCalls` | `doWrites`, `applySizeLabels` and the retry loop of `go`. |
| `Drift` | The drift loop after delivery. |
| `RunLimited` | The bounded executor. |
| `Escapers` | The escapers of the launchd and systemd files. |
| `Options`, `Integers`, `Numerals`, `Sequences`, `Utf8` | What several of these share. |

The state machines are functions on values, so that runs can be reasoned about. Where the source updates an object in
place there is also a class with its fields, and every method of the class is proved to move the object's state
exactly as the machine's steps do.

Assumptions, all about what surrounds the code:

- A D1 batch that fails changes nothing; `jobs.id` is unique; a job is offered to one device's Hub. Rejected alarms
  stay pending, no later than they were set for, until the runtime gives up (`LoseAlarm`).
- A file is written whole or not at all, and a write that reports success is on disk.
- Text frames are well-formed UTF-8. `num` gives the double a numeral stands for and is exact on safe integers. The
  signature check is a parameter.
- `onCreated` has persisted when it returns. Adapters may answer anything at any call.
- Two `go` calls of one session do not overlap. The code does not rule it out: `canTransition` lets WRITING follow
  WRITING (`src/statemachine/engine.ts:85-88`), and `Writes.OverlapCreatesTwice` shows what two attempts do that read
  the session before either has persisted.

Some promises hold only under a condition. Exact conditions, as equivalences: `NoneEarlyIffOneExpiry`,
`OnceIffOneExpiry`, `TextsStartOnce`, `LimitHoldsExactly`, `MemoryIsTight`, `SameVerdictsOnTexts`, `ClearIsJustInTime`,
`CreatesExactly`, `OpensExactly`, `NoneRepeated`. Conditions shown to be needed by a run without them:
`CrashLeavesRowUnarmed`, `LostAlarmLeavesRows`, `ClockGoingBackRunsTwice`, `LostResultChangesAnswer`,
`LostResultExceedsLimit`, `CrashExceedsLimit`, `ClockBackExceedsLimit`, `ClockBackReplays`, `TimeOrderEnds`,
`EmptyEpicIsCreatedAgain`, `OverlapCreatesTwice`, `EarlyStampUnspaced`.

Where code and documentation disagree, the code is modelled: a full spool refuses a new event
(`agent/src/spool.rs:102-107`), while `docs/cloud-agent.md:596` says that the oldest is dropped.

## Model

| member | source | states |
|---|---|---|
| HubConservation.NeverLost | cloud/src/hub.ts:196-299 | Over every interleaving, D1 failure and crash, a job whose enqueue returned ok and not duplicate is queued in the Hub with a D1 row of the same metadata and hash, or marked expired in D1 with its audit row; whether it was due then is the subject of the next rows |
| HubExpiry.NeverLostNorEarly | cloud/src/hub.ts:196-299 | The same, and what was marked expired was due by the expiry D1 holds for it, in every run whose valid requests for one id name one expiry |
| HubExpiry.NoneEarlyIffOneExpiry | cloud/src/hub.ts:231-299 | Over all runs on a set of requests, no accepted job is marked expired before it is due exactly when the valid requests for one id name one expiry |
| HubExpiry.SecondOfferExpiresEarly | cloud/src/hub.ts:231-245 | With two expiries, a job offered again after a refused batch is marked expired, and forgotten by the Hub, at the first offer's expiry |
| HubConservation.StoresAgree | cloud/src/hub.ts:231-258 | D1 never says queued about a job the Hub does not hold, nor expired without an audit row |
| HubConservation.OneWinner | cloud/src/hub.ts:210-248 | Of all calls offering one job id, at most one is told that it queued it |
| HubConservation.QueueBounded | cloud/src/hub.ts:214-219 | The queue never holds more than 100 jobs, however enqueues interleave |
| HubDeadlines.DeadlineKept | cloud/src/hub.ts:247-309 | With no handler in flight, and no crash or abandoned alarm before, every queued job is covered by an alarm no later than its expiry |
| HubDeadlines.DeadlineRestored | cloud/src/hub.ts:142-144 | After any crashes and abandoned alarms the next connection restores that, for good |
| HubDeadlines.CrashLeavesRowUnarmed | cloud/src/hub.ts:219-247 | A crash between the Hub insert and the arming leaves a queued row without an alarm: the assumption of the deadline is needed |
| HubDeadlines.LostAlarmLeavesRows | cloud/src/hub.ts:283-299 | So does an alarm that the runtime gives up, until the next connection |
| HubCalls.EnqueueStores | cloud/src/hub.ts:203-248 | An undisturbed enqueue of a new valid job leaves it in both stores, audited, under the earliest alarm, and replies ok |
| HubCalls.EnqueueUndone | cloud/src/hub.ts:231-245 | When D1 refuses the batch, both stores are exactly as before |
| HubCalls.AlarmExpiresDue | cloud/src/hub.ts:259-299 | An undisturbed alarm marks exactly the due jobs in D1, keeping what D1 knew of them, adds one audit row for each and no other row, removes exactly those from the Hub, and arms for the earliest of the rest |
| HubCalls.AlarmUndone | cloud/src/hub.ts:255-258 | When D1 refuses the expiry batch, nothing changes and the alarm stays pending |
| HubCalls.AlarmFindsNothing | cloud/src/hub.ts:262-299 | An alarm with nothing due only sets itself to the earliest expiry again |
| HubAnswers.DisabledIsRefused | cloud/src/hub.ts:199-205 | While jobs are switched off every request, valid or not, is refused as jobs_disabled and audited, and neither store changes otherwise |
| HubAnswers.InvalidIsRefused | cloud/src/jobs.ts:45-74 | A request of the wrong shape, with a negative time, expiring before its issue, more than 24 hours after it, or not after now, is refused as invalid_job and audited |
| HubAnswers.KnownIsDuplicate | cloud/src/hub.ts:210-216 | A job that D1 or the Hub knows is accepted as a duplicate, and nothing changes |
| HubAnswers.UnreadIsSilent | cloud/src/hub.ts:208-214 | When the read that looks for the id fails, the call ends without a reply and leaves everything as it was |
| HubAnswers.FullIsRefused | cloud/src/hub.ts:217-218 | With 100 jobs pending a new one is refused as queue_full and audited |
| HubAnswers.RowsAreLetIn | cloud/src/hub.ts:203-229 | Over every run a row enters the queue only for a call that was told jobs are on, whose request was valid then, and that has carried that job since |
| HubAnswers.RecordsAreLetIn | cloud/src/hub.ts:203-240 | The same for a job that D1 comes to call queued |
| HubConservation.ConservedStep | cloud/src/hub.ts:196-299 | Every step keeps the invariant that ties Hub rows, D1 rows, audit rows, calls in flight and replies together |
| HubDeadlines.CoveredStep | cloud/src/hub.ts:247-309 | Every step but a crash or an abandoned alarm keeps each queued row covered by the alarm or by a call in flight that will arm it or take the row back |
| HubObjects.DeviceHub.EnqueueKnown | cloud/src/hub.ts:212-229 | The await-free segment of the duplicate check, the bound and the insert |
| HubObjects.DeviceHub.EnqueueBatched | cloud/src/hub.ts:241-248 | The segment after the D1 batch: take the row back, or arm |
| HubObjects.DeviceHub.AlarmFires | cloud/src/hub.ts:259-268 | The segment before the expiry batch |
| HubObjects.DeviceHub.AlarmMarked | cloud/src/hub.ts:294-298 | The loop that forgets the bodies, then arms |
| HubObjects.DeviceHub.ArmAlarm | cloud/src/hub.ts:305-309 | The alarm becomes the earliest expiry in the queue, or none |
| HubObjects.JobsDatabase.EnqueueBatch | cloud/src/hub.ts:234-240 | Job row and audit row in one transaction, refused if the id exists |
| HubObjects.JobsDatabase.ExpireBatch | cloud/src/hub.ts:282-293 | One upsert and one audit row for each due job, in any order, come to the expiry of all of them at once; a failed batch changes nothing |
| DeviceOnce.AtMostOnce | agent/src/device.rs:202-334 | Over every run of deliveries, redeliveries, failed journal writes, crashes, restarts and prunes under a clock that does not go back, the executor starts at most once per job id, if a job's deliveries repeat its expiry |
| DeviceOnce.OnceIffOneExpiry | agent/src/journal.rs:131-147 | Over all runs with such a clock and bodies from a set, no job starts twice exactly when the valid bodies for one job id carry one expiry |
| DeviceOnce.TwoExpiriesRunTwice | agent/src/journal.rs:131-147 | Two expiries for one id: the job runs once under each, the clock going forward |
| DeviceOnce.ClockGoingBackRunsTwice | agent/src/journal.rs:131-147 | Any valid job runs twice when the clock is set back across its expiry after it was pruned: the clock assumption is needed |
| DeviceAnswers.DurableBeforeAcknowledged | agent/src/device.rs:219-279 | Every acknowledged job has its entry on disk, from the ack until the entry is pruned |
| DeviceAnswers.SameAnswerEveryTime | agent/src/device.rs:219-327 | When result writes succeed, all results sent for a job while its entry is retained are equal, across crashes and restarts |
| DeviceAnswers.LostResultChangesAnswer | agent/src/device.rs:329-334 | A result that could not be recorded is answered "interrupted" the next time |
| DeviceLimits.HourlyLimit | agent/src/actions/mod.rs:270-281 | In any hour at most `jobs_per_hour` rate-limited jobs start, over every run whose clock does not go back, in which started jobs are recorded as executed and the limit stays the same |
| DeviceLimits.LimitHoldsExactly | agent/src/actions/mod.rs:270-281 | Of the runs that may lose a started job's record, crash before it is written, or set the clock back, the limit holds over all of them exactly when none of the three may happen |
| DeviceLimits.LostResultExceedsLimit | agent/src/device.rs:329-334 | A job whose result could not be recorded is not counted, so a second one starts at the same moment under a limit of one |
| DeviceLimits.CrashExceedsLimit | agent/src/device.rs:294-327 | Nor is a job counted during which the device stopped |
| DeviceLimits.ClockBackExceedsLimit | agent/src/journal.rs:135-147 | Nor one that was pruned before the clock was set back |
| DeviceHandling.ValidHandled | agent/src/device.rs:247-327 | A new valid job is journaled, run once or refused by the first failing gate, recorded, acknowledged and answered |
| DeviceHandling.InvalidHandled | agent/src/device.rs:294-306 | A job with a usable id and a broken body is journaled without expiry, acknowledged and rejected, and nothing runs |
| DeviceHandling.UnjournaledIgnored | agent/src/device.rs:268-278 | When the entry cannot be journaled, the frame leaves no trace: no ack, no run |
| DeviceHandling.RedeliveryAnswers | agent/src/device.rs:219-245 | A redelivery is acknowledged and answered from the journal, "interrupted" if it never finished, and starts nothing |
| DeviceObjects.Journal.Open | agent/src/journal.rs:46-83 | After opening, disk and memory hold the same entries: those of the directory that are at most 24 hours old or whose job has not expired, and those whose file cannot be deleted |
| DeviceObjects.Journal.Record | agent/src/journal.rs:95-108 | Durable first, then remembered; a failed write leaves both as they were |
| DeviceObjects.Journal.Prune | agent/src/journal.rs:131-147 | Forgets exactly the entries older than 24 hours whose job has expired, except files that cannot be deleted |
| DeviceObjects.Agent.OnJob | agent/src/device.rs:202-327 | Moves disk, memory and log exactly as the machine's five steps for one job frame, and returns the frames logged |
| DeviceObjects.Agent.RunJournaled | agent/src/device.rs:281-327 | Gates, executor, record of the result, ack and result |
| DeviceObjects.Agent.AnswerAgain | agent/src/device.rs:220-245 | The answer to a duplicate, and what it records |
| DeviceFrames.FramesAreJobs | agent/src/device.rs:135-187 | Every run of raw frames is, behind the verifier, a run of the job path, so that all that is proved of those holds of it |
| DeviceEndpoint.TextsStartOnce | agent/src/device.rs:135-327 | Over all runs that receive some raw texts, under a clock that does not go back, no job starts twice exactly when no text outlives another of its job: can still be accepted, its job not yet expired, when the journal may have forgotten the first (none does when a job's frames repeat its expiry) |
| FrameReruns.OnceIffNoneOutlives | agent/src/journal.rs:131-147 | The same behind any checks in front of the clock |
| FrameReruns.OutlivingStartsTwice | agent/src/journal.rs:131-147 | The run in which a text that outlives another starts their job a second time |
| DeviceEndpoint.StartedIsSigned | agent/src/wire/mod.rs:258-388 | Over every such run nothing starts but the job of a text that a trusted key signed for this device and whose window opens before the job expires |
| DeviceEndpoint.FrameHandler.OnFrame | agent/src/device.rs:135-187 | Verifier and job path move as the machine's steps for one frame; a frame without a job leaves the job path as it is |
| JobBodies.ParsedExactly | agent/src/actions/mod.rs:120-180 | A body is taken for a job exactly when every field is there with its type, the kind has 1 to 64 bytes and at most 24 hours lie between the times; and each part of the job is the field of its name |
| JobBodies.GateRefuses | agent/src/actions/mod.rs:225-281 | The first gate that refuses decides: its status is rejected and its code the one of that gate |
| JobBodies.KnownIsAnswered | agent/src/device.rs:219-245 | A known job gets its recorded answer, or failed with code internal if it never finished, and that answer is recorded |
| JobBodies.NamelessIsIgnored | agent/src/actions/mod.rs:120-135 | A body that names no job is ignored |
| JobFrames.FrameIsJournaled | agent/src/device.rs:135-278 | An accepted frame of type job, with a body that is a job's, is journaled under that job_id with that expires_at, and nothing else changes |
| JobFrames.FrameIsAnswered | agent/src/device.rs:135-327 | It is started exactly when no gate refuses it, and recorded, acknowledged and answered with the executor's result or the gate's code |
| JobFrames.BrokenFrameIsAnswered | agent/src/device.rs:294-306 | A job frame with a usable job_id and any other field missing, of the wrong type or out of bounds is acknowledged and rejected as invalid_params, and not started |
| JobFrames.OtherFrameIsIgnored | agent/src/device.rs:135-187 | A text that is not accepted, or whose type is not job, leaves the job path as it is |
| SealedJobs.SealedJobIsJournaled | agent/src/device.rs:135-278 | From the sender's draft: a job sealed by a trusted key and received in time is journaled with its own id and expiry |
| SealedJobs.SealedJobIsStarted | agent/src/actions/mod.rs:225-281 | And started exactly when its kind is known, its params are right, the clock is below its expiry, and pause, policy and hourly limit allow it |
| SpoolRuns.KeptUntilAcked | agent/src/spool.rs:101-173 | An event pushed stays in the spool, unchanged, until an ack names it |
| SpoolRuns.UnackedSentOnOpen | agent/src/device.rs:110-133 | The next connection sends every pushed event that was not acknowledged |
| SpoolRuns.NotTwiceBeforeAck | agent/src/device.rs:117-169 | On one connection no event is sent twice before its ack |
| SpoolRuns.SpoolBounded | agent/src/spool.rs:101-107 | The spool never holds more items than its limit |
| SpoolRuns.OpenSendsAll | agent/src/device.rs:110-133 | Opening sends exactly the spooled events, each once, oldest first |
| SpoolRuns.ListedInTimeOrder | agent/src/spool.rs:76-90 | Items named by ULIDs of different milliseconds are listed in time order |
| SpoolSteps.PushStores | agent/src/spool.rs:101-126 | An event is stored under its id exactly when there is room, the id is a ULID and the write succeeds |
| SpoolSteps.HookStores | agent/src/spool.rs:101-126 | A hook report is stored under its fresh id on the same terms, and is no event |
| SpoolSteps.DrainTakesHooks | agent/src/daemon.rs:142-158 | Draining takes the hook reports and leaves every event and every unreadable file |
| SpoolSteps.FlushSends | agent/src/device.rs:117-133 | While connected exactly the stored events not yet sent on the connection are sent, oldest first, and remembered |
| SpoolSteps.OpenSends | agent/src/device.rs:110-113 | A new connection sends exactly the stored events |
| SpoolSteps.AckDeletes | agent/src/device.rs:161-169 | An ack deletes the named item, if its name is a ULID, and only that, and forgets the send |
| SpoolSteps.AckedIsGone | agent/src/device.rs:110-169 | Over every run an acknowledged event is neither stored nor sent any more, unless it is pushed again |
| SpoolSteps.OpenedBeforeSent | agent/src/device.rs:110-133 | Over every run nothing is sent before a connection opened |
| SpoolObjects.SortNames | agent/src/spool.rs:77-90 | The names in the only sorted order there is |
| SpoolObjects.Spool.Store | agent/src/spool.rs:101-126 | Refuses when full or without an event id, else stores under the id |
| SpoolObjects.Spool.List | agent/src/spool.rs:130-143 | Readable items and unreadable names, oldest first |
| SpoolObjects.Spool.ReadEvents | agent/src/spool.rs:145-160 | The events among the readable items, in that order |
| SpoolObjects.Spool.Remove | agent/src/spool.rs:164-173 | Deletes the named item, and only names that are ULIDs |
| SpoolObjects.EventSender.OnOpen | agent/src/device.rs:110-113 | A new connection sends every event in the spool, whatever was sent before |
| SpoolObjects.EventSender.PendingEvents | agent/src/device.rs:117-133 | Sends what was not sent on this connection and remembers it |
| SpoolObjects.EventSender.OnAck | agent/src/device.rs:161-169 | Deletes the event and forgets that it was sent |
| CanonicalReader.ValueReadsBack | tools/wire-fixtures.ts:81-113 | A reader for the canonical grammar returns exactly the value and the rest from its text and any rest that does not start with a digit |
| CanonicalInverse.ReaderIsInverse | tools/wire-fixtures.ts:92-113 | A text is read as a value exactly when it is that value's canonical text (a value without -0) |
| CanonicalReader.CanonicalTextIsUnique | tools/wire-fixtures.ts:81-113 | Two values with equal canonical text are equal, but for the sign of a zero |
| CanonicalInverse.ReadIsCanonical | tools/wire-fixtures.ts:92-113 | The reader accepts canonical texts only: ascending printable keys, safe integers, the printer's escapes |
| DepthScan.NestingDepth | tools/wire-fixtures.ts:42-56 | The loop, which jumps over escaped characters, returns the deepest level of a character-by-character scan |
| DepthScan.ScanIsDepth | tools/wire-fixtures.ts:42-56 | On canonical text the scan finds the structural depth and ends outside strings at depth 0, whatever strings and keys hold |
| JsonScan.ScanIsLevels | tools/wire-fixtures.ts:40-56 | The same on every text that is JSON, canonical or not |
| JsonScan.BoundedValue | agent/src/wire/json.rs:161-248 | Parsing with a bound reads exactly what parsing without it reads, where that nests no deeper |
| JsonScan.SameReading | agent/src/wire/json.rs:20-26 | Scanning the raw text and then parsing without a bound reads every text as the agent's bounded parser does, failures included |
| JsonInverse.ParseUndoesCanonicalize | agent/src/wire/json.rs:123-133 | The JSON parser undoes the canonical printer |
| JsonReading.ParsesGrammar | agent/src/wire/json.rs:123-359 | The parser accepts exactly the texts of the JSON grammar, and reads each as what it spells |
| JsonMeaning.ReadsExactly | tools/wire-fixtures.ts:177-182 | A text is read as a value exactly when it is a JSON text that means it: escapes and UTF-16 by their values, lone surrogates, and the last of several members with one key |
| JsonMeaning.ReadsWithin | agent/src/wire/json.rs:123-248 | With the bound, exactly when it nests no deeper as well |
| JsonMeaning.DecodesExactly | agent/src/wire/json.rs:65-70 | Code units are a string exactly when they are its UTF-16 encoding |
| JsonMeaning.PrintsShortest | tools/wire-fixtures.ts:100-102 | Each character of a string is printed in the shortest of all its JSON spellings, hexadecimal digits in lower case |
| CanonicalInverse.ThrowsExactly | tools/wire-fixtures.ts:92-113 | A value has no canonical text exactly when some part of it is a number that is no safe integer, has a lone surrogate, or has an empty or unprintable key |
| Utf8.LengthInBytes | agent/src/wire/mod.rs:260-263 | The length that is bounded is the number of bytes of the text in UTF-8 (RFC 3629) |
| Frames.VerifyContext.VerifyFrame | tools/wire-fixtures.ts:174-221 | The reference verifier: verdict and memory for one frame |
| Frames.Verifier.Verify | agent/src/wire/mod.rs:258-388 | The agent's verifier: verdict and pruned memory for one frame |
| Frames.SameScreen | agent/src/wire/json.rs:20-26 | Every frame gets the same code from both verifiers up to the clock checks |
| FrameCodes.MalformedExactly | tools/wire-fixtures.ts:175-206 | Exactly the texts that are too long or too deep, not a JSON object with an integer v, or of version 1 and not in the closed format, field by field, get malformed |
| FrameCodes.UnsupportedVersionExactly | tools/wire-fixtures.ts:188 | Exactly those of another version get unsupported_version |
| FrameCodes.NonCanonicalExactly | tools/wire-fixtures.ts:199-208 | Exactly the frames in format that are not their own canonical text get non_canonical |
| FrameCodes.UnknownKeyExactly | tools/wire-fixtures.ts:209-211 | Exactly the canonical ones whose key the receiver does not hold for that sender get unknown_key |
| FrameCodes.BadSignatureExactly | tools/wire-fixtures.ts:212-213 | Exactly those whose key is held and does not verify the signature over domain and canonical text get bad_signature |
| FrameCodes.WrongRecipientExactly | tools/wire-fixtures.ts:215 | Exactly the genuine ones for someone else get wrong_recipient |
| FrameCodes.StaleExactly | tools/wire-fixtures.ts:216 | Exactly those more than five minutes off get stale |
| FrameCodes.ReplayExactly | tools/wire-fixtures.ts:217-218 | Exactly those in time whose sender and id were seen get replay |
| FrameCodes.AcceptedExactly | tools/wire-fixtures.ts:174-221 | And exactly the remaining ones are accepted |
| FrameCodes.AcceptedArrives | tools/wire-fixtures.ts:219-221 | The envelope of an accepted frame is what its text says |
| Frames.AcceptedIsGenuine | tools/wire-fixtures.ts:174-221 | An accepted frame is its own canonical text, at most 32 levels deep, signed by a key its sender owns, addressed to the receiver, in the window and not seen |
| Frames.SignedTextIsFrame | tools/wire-fixtures.ts:141-143 | Signed text and signature determine the frame's text: nothing in a frame is outside the signature |
| Seals.SealSucceeds | agent/src/wire/mod.rs:158-166 | A draft in the protocol's formats is refused exactly when its body has no canonical form |
| Seals.SealedIsAccepted | tools/wire-fixtures.ts:174-221 | A sealed frame is accepted by every receiver that trusts its sender exactly when it fits, is in the window and is new, and the receiver reads what was sealed |
| Replays.SeenKeyIsPair | tools/wire-fixtures.ts:217-219 | The memory's key stands for exactly one sender and id |
| Replays.AcceptedOnce | tools/wire-fixtures.ts:174-221 | Over any sequence of frames and clock readings, no sender's id is accepted twice |
| Replays.ReplayHasOriginal | tools/wire-fixtures.ts:217-219 | A frame is called a replay only when an earlier frame of the same sender and id was accepted |
| Replays.RejectedLeavesNoTrace | tools/wire-fixtures.ts:174-221 | Leaving a rejected frame out of a run changes neither what is remembered nor the verdict on any later frame |
| Replays.AgentAcceptsOnce | agent/src/wire/mod.rs:25-27 | Remembering ids for twice the window lets no frame in twice while the clock does not go back |
| Replays.MemoryIs | agent/src/wire/mod.rs:366-373 | After any run, whatever the clock did, the agent remembers exactly the keys it accepted, each since the last time, until a look-up more than the memory's span later |
| Replays.MemoryIsTight | agent/src/wire/mod.rs:25-27 | A memory lets some frame in twice exactly when it is shorter than twice the window |
| Replays.ClockBackReplays | agent/src/wire/mod.rs:366-373 | A clock set back lets a pruned frame in again: the clock assumption is needed |
| Replays.VerifiersAgree | agent/src/wire/mod.rs:362-373 | From the clock checks on, both verifiers agree on all runs exactly when no sender dates one id twice |
| FrameRuns.SameVerdictsOnTexts | agent/src/wire/mod.rs:4-8 | Reference and agent give the same verdicts on all runs over some raw texts exactly when no sender dates one id twice among them |
| FrameRuns.FrameAcceptedOnce | tools/wire-fixtures.ts:174-221 | The reference accepts each sender and id once, from raw frames |
| FrameRuns.AgentFrameAcceptedOnce | agent/src/wire/mod.rs:258-373 | The agent accepts no raw frame twice, although it forgets |
| FrameRuns.ReferenceVerdicts | tools/wire-fixtures.ts:174-221 | A verifying context fed with a run answers as the run's verdicts say |
| FrameRuns.AgentVerdicts | agent/src/wire/mod.rs:258-388 | So does the agent's verifier |
| GifLzw.Lzw | tools/gen-pet-sprites.ts:212-241 | The bytes start with the codes' bits, lowest first, and add fewer than eight more |
| GifLzw.BitWriter.Put | tools/gen-pet-sprites.ts:220-228 | Appends one code to the packed stream |
| GifLzw.OrIsPlus | tools/gen-pet-sprites.ts:221 | On 32-bit words the bitwise or of the accumulator is the addition the model uses |
| GifLzw.StreamIsRead | tools/gen-pet-sprites.ts:212-241 | A dictionary-building, width-growing decoder returns exactly the indices and never widens its codes, for minimum code sizes 2 to 8 |
| GifLzw.ClearIsJustInTime | tools/gen-pet-sprites.ts:216 | The decoder stays at its first width exactly as long as at most clear - 2 codes follow a clear |
| GifLzw.SubBlocks | tools/gen-pet-sprites.ts:268-272 | The loop that cuts data into sub-blocks of at most 255 bytes and ends them |
| GifLzw.BlocksReadBack | tools/gen-pet-sprites.ts:268-272 | A reader of sub-blocks gets the data and stops at the next block |
| GifLzw.EncodeImage | tools/gen-pet-sprites.ts:266-272 | One frame's image data decodes to the frame, whatever follows it |
| CivilTime.DateFollowsCalendar | agent/src/time.rs:18-30 | For every day, also before 1970, the closed form gives a date, and the next day the calendar's next date |
| CivilTime.EpochIs1970 | agent/src/time.rs:18-30 | Day 0 is 1970-01-01 |
| CivilTime.DatesAscend | agent/src/time.rs:18-30 | Later days have later dates |
| CivilTime.ClockInRange | agent/src/time.rs:31-36 | Hour, minute and second are in range and add up to the second of the day |
| CivilTime.WrittenReadsBack | agent/src/time.rs:31-36 | Whatever the year, every field is read back from its place counted from the end of the text, and the text has 20 characters exactly in the years -999 to 9999 |
| CivilTime.SameTextSameSecond | agent/src/time.rs:18-37 | Two times, of any year, have one text exactly when they fall in one second |
| Base64Url.OneSpelling | agent/src/b64.rs:12-60 | A text decodes to a byte string exactly when it is its encoding |
| Base64Url.Encode | agent/src/b64.rs:12-23 | The encoder's loops compute the encoding |
| Base64Url.Decode | agent/src/b64.rs:39-60 | The decoder's loops compute the decoding, refusals included |
| Base64Url.ChunkHoldsBits | agent/src/b64.rs:14-21 | The characters of a chunk hold the bits of its bytes in order, filled up with zeros |
| Base64Url.AlphabetIs | agent/src/b64.rs:10 | The alphabet of the table is the one of section 5 of RFC 4648 |
| Base64Url.SextetOfCharacter | agent/src/b64.rs:25-35 | The decoder's table undoes the alphabet |
| Base64Url.SignatureForm | tools/wire-fixtures.ts:133-137 | 86 characters of the alphabet decode strictly, and to 64 bytes, exactly when the last is A, Q, g or w |
| Ulids.Ulid | cloud/src/ids.ts:17-26 | The loop writes 26 base-32 digits of the time and the random bytes |
| Ulids.NameOrderIsTimeOrder | cloud/src/ids.ts:14-26 | An earlier millisecond gives a smaller name, whatever the random bits, up to 2^50 ms |
| Ulids.TimeOrderEnds | cloud/src/ids.ts:17-26 | From 2^50 ms on the order breaks: the name for 2^50 ms is smaller than that for any earlier time but zero, so the bound is exact |
| Ulids.UlidRoundTrip | cloud/src/ids.ts:17-26 | The digits decode to the 128-bit value and match the id format |
| Ulids.ValuesPrintBack | cloud/src/ids.ts:22-25 | Any text of digits is the printing of its value |
| TextOrder.ListingUnique | agent/src/spool.rs:88 | A set of names has one sorted listing |
| Writes.CreatesExactly | src/writes.ts:93-227 | An attempt calls createSingle, for a plan of one repository, or createEpic, for one of several, exactly when it gets past the draft and the publication and no real issue is persisted |
| Writes.CreatesOnce | src/writes.ts:118-227 | It publishes first, if at all, creates right after, and does neither twice |
| WriteCalls.CallsExactly | src/writes.ts:93-232 | Every call of an attempt, children asked for, labels put on and approval included, is made exactly when plan, persisted issues and answers call for it; the approval only when every label wanted could be put on |
| WriteCalls.CallsStaged | src/writes.ts:118-232 | The calls come in the order publish, create, look for children, label, approve, with at most one approval, the last |
| WriteCalls.NoCallTwice | src/writes.ts:118-232 | No call is made twice in one attempt, if neither the earlier issues nor the created ones name an issue twice |
| WriteCalls.OpensExactly | src/writes.ts:93-232 | An attempt succeeds exactly when it has issues to go on with, every repository of the plan has one, every label could be put on and the approval was given; and it returns those issues |
| WriteCalls.GoExactly | src/actions.ts:640-671 | One go in every case: whether it writes, its calls, the state it ends in and the issues it leaves |
| WriteCalls.DeathLeaves | src/actions.ts:640-671 | A go whose process dies leaves the session writing, and its issues as they were or, once persisted, as the attempt left them |
| Writes.NeverCreatesAgain | src/actions.ts:649-671 | Once a real issue is persisted, no later attempt creates anything, whatever failed or died in between |
| Writes.RealIssuesStay | src/actions.ts:649-671 | A real issue that is persisted once stays persisted |
| Writes.NoneRepeated | src/writes.ts:182-195 | No persisted set of issues ever holds a repository and number twice, exactly when no answer by which an attempt creates does |
| Writes.NoFalseDone | src/actions.ts:640-671 | A session is DONE only through an attempt with an issue for every expected repository, every size label on and the approval given, and its issues are still that attempt's |
| Writes.OpenedIsComplete | src/writes.ts:132-231 | The same for one attempt |
| Writes.EmptyEpicIsCreatedAgain | src/writes.ts:151-173 | An adapter that reports success without an issue makes the next attempt create the Epic again |
| Writes.OverlapCreatesTwice | src/actions.ts:640-651 | Two attempts that go by one snapshot without a real issue both create: that calls do not overlap is needed |
| Writes.OpenWork.DoWrites | src/writes.ts:93-232 | Outcome, calls and persisted issues of one attempt |
| Writes.OpenWork.ApplySizeLabels | src/writes.ts:65-83 | One label call per issue with a size, and the failures |
| Writes.OpenWork.Rediscover | src/writes.ts:185-189 | Children found again are added once |
| Writes.OpenWork.Go | src/actions.ts:640-671 | The state moves of one go around doWrites |
| Drift.PollsBounded | src/drift/reconcile.ts:227-241 | A session is polled at most max_polls times, whatever GitHub and the audits answer |
| Drift.PollsSpaced | src/drift/reconcile.ts:224-225 | Two polls are at least the polling interval apart, if events are stamped no earlier than their tick began |
| Drift.EarlyStampUnspaced | src/drift/reconcile.ts:224-241 | Any round stamped earlier than its tick polls too early after some round stamped on time |
| Drift.ReconciledIsLast | src/drift/reconcile.ts:220-221 | Nothing follows the event that ends the loop, so there is at most one |
| Drift.EndsInTime | src/drift/reconcile.ts:215-300 | max_polls + 1 rounds in which a session is due reconcile it |
| Drift.VerdictIsEarned | src/drift/reconcile.ts:156-210 | A session is called clean or drifted only once merged or with every issue closed, not all and not the umbrella's as NOT_PLANNED or DUPLICATE, by an audit of that round; and clean exactly when neither its flag nor any finding says drift |
| Drift.RoundAppends | src/drift/reconcile.ts:215-300 | What one round adds to a session's log, in every case |
| Drift.Reconciler.ReconcileDrift | src/drift/reconcile.ts:215-300 | One tick visits every listed session once and touches no other |
| Drift.Reconciler.AuditSession | src/drift/reconcile.ts:156-210 | The events of one audit |
| RunLimited.StartedInOrder | src/orchestrator/queue.ts:9-15 | In every schedule items are started once each, in index order |
| RunLimited.FlightBounded | src/orchestrator/queue.ts:2-17 | At most max(1, limit) items are in flight, all started and not finished |
| RunLimited.ResolvesWhenFinished | src/orchestrator/queue.ts:16 | When the call resolves, every item has finished, even if other schedules rejected |
| RunLimited.ResolvesAfterAll | src/orchestrator/queue.ts:2-17 | While tasks resolve, the call has resolved exactly when as many tasks have settled as there are items |
| RunLimited.NoneIdle | src/orchestrator/queue.ts:10-15 | No worker rests while items are left, unless its task rejected |
| RunLimited.RejectedForGood | src/orchestrator/queue.ts:10-16 | A task that rejects ends its worker for good: its item never counts as finished and the call never resolves |
| RunLimited.Executor.constructor | src/orchestrator/queue.ts:8-16 | The call up to its first wait |
| RunLimited.Executor.TaskSettles | src/orchestrator/queue.ts:10-15 | One worker from one wait to the next |
| Escapers.XmlIsMap | agent/src/service.rs:62-68 | The five replacements in a row are one simultaneous per-character map |
| Escapers.XmlReadsBack | agent/src/service.rs:62-68 | A reader of the five predefined entities, which refuses other markup, gets every text back |
| Escapers.SystemdIsMap | agent/src/service.rs:109-116 | The three replacements in a row are one simultaneous per-character map |
| Escapers.SystemdReadsBack | agent/src/service.rs:108-116 | A quoted value ends at its own quote, and unquoting and expanding specifiers give it back |

## Left out

- Cryptography and hashing: the signature check is a parameter, a hash is any string.
- Sockets, handshake, presence, the local socket, keystores and permissions. "At most one open socket" is not claimed:
  `fetch` awaits inside its replacement loop.
- The shape checks of a submitted job (types, lengths, alphabets, frame size) are one boolean; its clock checks are
  modelled.
- The order of audit rows within one D1 batch; log lines.
- An enqueue that returned `duplicate: true` is not claimed to be queued: the first caller's D1 write may still fail.
- DeviceObjects.Journal.Open: files that cannot be parsed, which the source keeps as received and unfinished.
- DeviceObjects.Agent.OnJob: the events that the source sends at the end of `on_job` are those of
  `SpoolObjects.EventSender.PendingEvents`; the two parts are modelled in two modules.
- The action bodies behind the gates; `data` of a result.
- Sealing a frame is taken to succeed; two processes pushing to one spool at the same instant are not modelled.
- JavaScript strings are sequences of code points; strings and keys that hold a lone surrogate have constructors of
  their own.
- Parsing a numeral to a double is the parameter `num`.
- The text of rejections, results, messages and cards.
- The GIF header, colour table and extension blocks around the image data.
- `fmt_relative`, and the plist and unit templates around the escaped values. A line break inside a systemd value is
  kept as it is, as in the source.
- A rehearsed (`dryRun`) go, which persists nothing; the assignment, the acceptance lint and the permission of a go
  are one boolean; issue texts and links; the commit of the delivery documents. A call that reports failure may still
  have created something: nothing is claimed about that.
- Notifications and event-store writes are taken not to throw in `go`. In the drift loop the last write of an audit may
  fail, or the process die before it (`CutOff`); the other writes are taken to succeed.
- The session state table, the review engine, leases and the worker tick.
