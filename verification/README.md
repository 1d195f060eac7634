# threads-archive: transactions, runs and codecs

The service archives Threads posts for their owners. It takes captures from a browser extension,
resolves them against the provider, appends facts about stored sources to an outbox, deletes what an
owner asks to be deleted, and links analyses that come back. This project models that core in Dafny.

- `Archive`, `Transactions`: the tables as maps, and every transaction as what it may commit. A
  statement that breaks a key commits nothing. Fresh UUIDs come from a counter, a version 5 UUID is the
  pair it is derived from, and the log of all events ever inserted is kept as history.
- `Integrity`, `Invariants`, `Preservation`, `Soundness`, `EventLog`, `History`, `Records`, `Journal`:
  what every transaction keeps, one row at a time and then transaction by transaction.
- `Workers`, `Runs`, `Scheduling`, `Answering`, `Deadlines`, `Committing`, `Stopping`, `Recovery`,
  `Tickets`: any number of overlapping resolver passes that work on stale rows and may stop between any
  two transactions, interleaved with all other transactions; safety, evidence, fairness, termination,
  recovery and the life of an operation over whole runs.
- `Effects`, `Announcements`, `Ownership`, `Distances`: what each transaction does, said on the rows
  and the log without the definition of the transaction, and what follows over whole runs for reports,
  owners, links and the time between claims.
- `Publishing`, `Stores`, `CaptureResolution`, `PrivacyDeletion`, `DeletionProperties`, `DeletionRows`:
  the stores as classes over one `Database`, statement by statement, proved to commit exactly their
  transactions; which rows a deletion takes, table by table; and one pass of the resolver, proved to be
  a run of the interleaving model.
- `OutboxRelay`, `OutboxPump`, `RelayRows`, `OutboxRows`, `Selection`, `Schedule`, `Config`: the pump, the
  acknowledgement of removals, the outbox table the two share with all transactions, the waits between
  attempts, and the settings the loader accepts.
- `ReplyGraph`, `ReplyStore`, `ReplyRuns`: the depth-first cycle test, the stored reply graph, and the
  graph the archive's own tables show over whole runs.
- `BlobRetention`, `BlobRuns`: stored bytes, their references and the deletion tasks.
- `Witnesses`, `BlobWitness`: runs from empty tables to states in which a property fails.
- `Text`, `Permalink`, `PlanEncoding`, `Reprocessing`, `ReprocessingRuns`, `Credential`: canonical
  forms, encodings and the chunked application of a plan.

Clocks, provider answers, broker answers, content digests, key material and random nonces are
parameters. SHA-256 and AES-GCM are function parameters with only the laws a lemma names. The waits
computed in double precision by the database are integers here: every value that occurs is an integer
below 2^53.

Where the code does not do what its documentation or its purpose says, the model follows the code:

- `crates/threads-archive/src/outbox_relay.rs:70` documents a first wait of 2 s after a failed
  publication; the statement at lines 162-165 uses the count before it grows, so it is 1 s
  (`Schedule.FailureBackoffDoubles`). The exponent is not clamped, so "cannot starve the rows behind
  it" (line 71) holds exactly below 1024 failures (`OutboxPump.PassReachesAllUnlessUnrecordable`).
- The retry limit is documented as a bound on failures before a report
  (`crates/threads-archive/src/capture_resolution.rs:135`); the 32-bit signed counter never reaches a
  limit above 2147483647, which the loader accepts (`Answering.UnreachableLimitNeverAnswers`,
  `Config.EveryLimitIsAccepted`).
- A second command under a known key keeps the first operation on its capture, so its own operation is
  never answered by a terminal report (`Tickets.KnownKeyIsNeverAnswered`); every statement about
  reports is per capture.
- A digest that returns after another one breaks the unique key of the source revisions and refuses the
  whole transaction (`Publishing.AppendOriginFact`). The pass that met it stops, nothing is counted, and
  the capture is leased again without a bound (`Committing.AnswerCommitsIff`,
  `Stopping.StoppingPassesClaimForever`, `Witnesses.ReturningDigestIsNeverAnswered`).
- The cleanup of the outbox in an owner deletion erases rows of other owners that are filed under the
  same post (`DeletionProperties.AnotherOwnersRowGoes`, `Witnesses.AnotherOwnersFactIsLost`).
- Synchronisation and export imports write replies without the cycle test, so the stored replies stay
  acyclic exactly under a condition on those writes (`ReplyRuns.ArchiveStaysAcyclicIff`). The test runs
  over all stored replies for every page, so with one stored cycle every page is refused as inaccessible
  until an owner deletion (`CaptureResolution.CaptureResolver.Attempt`,
  `ReplyRuns.CycleRefusesEveryPage`, `Witnesses.SynchronisationStoresCycle`).
- A completed deletion task blocks a later one for the same object, and check and delete are separate
  queries (`BlobRuns.FinishedIsNeverSweptAgain`, `BlobWitness.StoredTwiceIsLeftBehind`,
  `BlobRuns.CheckedDeleteCanLoseBytes`).
- A repeated item key is never reported but keeps a reprocessing run from completing
  (`Reprocessing.CompletesIffDistinct`).

## Model

| member | source | states |
|---|---|---|
| `CaptureResolution.FaultLeavesItsEvidence` | crates/threads-archive/src/capture_resolution.rs:59-105 | A failed attempt leaves exactly its own evidence: a deletion is on record afterwards if and only if it was before or the status was 404 or 410, one more failure is counted exactly for network trouble, an oversized answer, 408, 429 and every status that is no client error, and nothing is recorded about other captures |
| `Schedule.RetryDelayIsExact` | crates/threads-archive/src/capture_resolution.rs:124-130 | The saturating retry delay equals min(30·4^(n−1), 1800) over unbounded integers for every attempt n ≥ 1, never shrinks, and stays between 30 and 1800 |
| `Selection.SelectFirst` | crates/threads-archive/src/capture_resolution.rs:292-304 | Returns the first rows by key, then identifier, up to the limit: sorted, distinct, and nothing left out comes before anything taken |
| `CaptureResolution.SelectDue` | crates/threads-archive/src/capture_resolution.rs:292-304 | The selected captures are exactly the first due, unanswered, operation-bound ones in the order of the claiming query |
| `CaptureResolution.CaptureResolver.Claim` | crates/threads-archive/src/capture_resolution.rs:285-345 | The claim reads the first due captures and commits exactly the lease on them |
| `CaptureResolution.CaptureResolver.Attempt` | crates/threads-archive/src/capture_resolution.rs:388-438 | An attempt commits the evidence of its answer in one transaction, or nothing when the service itself fails; a page that meets a stored cycle of replies counts as inaccessible |
| `CaptureResolution.CaptureResolver.CountFailure` | crates/threads-archive/src/capture_resolution.rs:444-473 | Counter and next attempt are written from the attempts the claim read, saturating at the largest 32-bit signed integer |
| `CaptureResolution.CaptureResolver.Report` | crates/threads-archive/src/capture_resolution.rs:478-542 | Changes nothing when the capture is gone or answered; otherwise closes its guard, clears its schedule and appends one report, which is preserved if and only if the pass reports it preserved, the capture has a post and some stored source has the owner and that post; it then names such a source, and is inaccessible in its place otherwise |
| `Effects.ReportEffect` | crates/threads-archive/src/capture_resolution.rs:478-542 | The same for every committed report of the interleaving model, on the rows and the log alone |
| `Announcements.AnnouncementSays` | crates/threads-archive/src/capture_resolution.rs:478-542 | In every run each announcement of a stored, unanswered capture appends one report of its operation, preserved if and only if the pass found it preserved and its owner holds a source of its post |
| `Announcements.StoredPageIsAnnounced` | crates/threads-archive/src/capture_resolution.rs:348-542 | In every run a pass that stored a page announces it as preserved, whatever commits in between: the capture, if still stored and unanswered, has the post of the page, and the report names a source of its owner for that post exactly as long as one is stored, as one is right after the page |
| `Effects.LeaseEffect` | crates/threads-archive/src/capture_resolution.rs:305-338 | A lease moves the next attempt of the claimed captures and changes nothing else |
| `Effects.FailureEffect` | crates/threads-archive/src/capture.rs:577-617 | A failed attempt adds one failure row of its capture and nothing else |
| `Effects.CountEffect` | crates/threads-archive/src/capture_resolution.rs:444-473 | A count writes attempts and next attempt of its capture and nothing else |
| `Distances.LeasesKeepDistance` | crates/threads-archive/src/capture_resolution.rs:285-345 | In every run with any overlapping passes, a claimed capture that is not counted meanwhile is not claimed again for 120 seconds |
| `Distances.RetriesKeepDistance` | crates/threads-archive/src/capture_resolution.rs:124-130 | In every run a capture whose n-th failure was counted is not claimed again before min(30·4^(n−1), 1800) seconds after the start of the pass that counted it |
| `CaptureResolution.CaptureResolver.Process` | crates/threads-archive/src/capture_resolution.rs:348-385 | Every path through one claimed capture is a run of steps of the interleaving model |
| `CaptureResolution.CaptureResolver.RunDueOnce` | crates/threads-archive/src/capture_resolution.rs:270-282 | A whole pass, whatever the provider answers, is a run of the interleaving model that ends with an empty queue, or stops on a fault of the service |
| `CaptureResolution.PublicResolutionStore.Record` | crates/threads-archive/src/public_resolution.rs:257-401 | Raw evidence, post, revision, capture, resolution and fact of an observation commit together or not at all; with a cycle anywhere among the stored replies nothing does, and exactly then, once capture and permalink are in order, the cycle is the answer |
| `Effects.ResolveEffect` | crates/threads-archive/src/public_resolution.rs:257-307 | A committed page leaves, on the rows: raw evidence, the post of the last path segment with its account kept, a revision showing the one by the other, the capture resolved to that post, a resolution with the evidence, and the fact of the owner |
| `CaptureResolution.UpsertPost` | crates/threads-archive/src/public_resolution.rs:276-281 | The upsert on the provider identity keeps the stored account and is refused exactly when another post has the permalink |
| `Workers.StepKeepsInv` | crates/threads-archive/src/capture_resolution.rs:285-521 | Every step of any number of overlapping, stopping passes and every other transaction keeps the tables sound, the reports unique and every remembered count backed by stored failures |
| `Workers.AnswerIsBacked` | crates/threads-archive/src/capture_resolution.rs:411-438 | After an answer the pass only goes on to what is on record: a deletion row for a deletion, one more failure row for a failure |
| `Workers.CountKeepsCounts` | crates/threads-archive/src/capture_resolution.rs:444-473 | Writing back a stale counter keeps it at most the limit and at most the failures on record, and a report that gives up has the limit of failures behind it |
| `Runs.RunHolds` | crates/threads-archive/src/capture_resolution.rs:270-521 | The whole invariant holds in every state of every run from empty tables |
| `Runs.ReportedOnceThenNeverClaimed` | crates/threads-archive/src/capture_resolution.rs:285-357 | In every run each capture gets at most one terminal report, and once it has one no later pass claims it |
| `Runs.AnswersAreOnRecord` | crates/threads-archive/src/capture_resolution.rs:478-542 | A terminal report is only ever committed by an announcing pass, answers the operation the capture was accepted for, and is backed: the limit of failure rows, a deletion row, or a source its owner holds at that commit |
| `Runs.AttemptsStayBacked` | crates/threads-archive/src/capture_resolution.rs:444-473 | Under any stale reads the attempt counter never exceeds the limit or the stored failure rows |
| `Records.CommitOnward` | crates/threads-archive/src/capture_resolution.rs:478-493 | No transaction reopens a guard, changes the owner, permalink or ticket of a capture, or loses failure or deletion evidence of a capture that stays |
| `Records.DeleteOnward` | crates/threads-archive/src/privacy_deletion.rs:427-524 | An owner deletion takes the evidence of its own target only |
| `Scheduling.ClaimTakesBatch` | crates/threads-archive/src/capture_resolution.rs:292-338 | A claim that leaves a due capture out takes a full batch of the captures ahead of it |
| `Scheduling.ClaimedInTime` | crates/threads-archive/src/capture_resolution.rs:270-345 | With one resolver that does not stop and no delivery stamped before the due time, a due capture with k captures ahead is claimed within k / batch + 1 passes, whatever else commits between the steps |
| `Answering.AnsweredInTime` | crates/threads-archive/src/capture_resolution.rs:388-473 | With a limit the counter can reach, and as long as the resolver does not have to stop, a capture is claimed at most that many times and is then answered or was deleted |
| `Committing.PublishedIff` | crates/threads-archive/src/publishing.rs:195-283 | In a sound library a fact commits if and only if its source has an identity of its own and its digest is new to the source or that of a latest revision |
| `Committing.AnswerCommitsIff` | crates/threads-archive/src/capture_resolution.rs:388-438 | In every sound state an answer can commit if and only if its capture is stored, its fact may be told and, for a page, no other post has its permalink and the stored replies have no cycle |
| `Committing.UncommittableAnswerOnlyStops` | crates/threads-archive/src/capture_resolution.rs:388-438 | An answer that cannot commit has no step, and the stop that has to follow changes no table: no attempt is counted and nothing is reported |
| `Deadlines.AnsweredWithinPasses` | crates/threads-archive/src/capture_resolution.rs:270-473 | The two bounds together: with one resolver that does not stop, a clock that does not go back and never more than m captures ahead of it, a capture that maxAttempts·(m / batch + 1) passes found due is answered or was deleted once the resolver is done with it, whatever answers are stored and whatever else commits |
| `Stopping.StoppingPassesClaimForever` | crates/threads-archive/src/capture_resolution.rs:270-438 | Where an answer cannot be stored the bound fails: for every n there is a run of n passes that each claim the capture, fetch it and are stuck with an answer no step stores, after which the capture is as before, with neither an attempt counted nor a report |
| `Witnesses.ReturningDigestIsNeverAnswered` | crates/threads-archive/src/publishing.rs:195-283 | A run from empty tables that leads there: a page that returns after another one |
| `Answering.UnreachableLimitNeverAnswers` | crates/threads-archive/src/capture_resolution.rs:444-473 | With a limit beyond the largest 32-bit signed integer no run ever reports a retryable failure |
| `Recovery.AnswerIsRemembered` | crates/threads-archive/src/capture_resolution.rs:348-385 | A pass that stops between recording an answer and reporting it loses nothing: in every later state of the run, until another outcome of the capture is recorded, whoever reads the capture finds exactly the outcome that was about to be announced |
| `Recovery.LimitIsRemembered` | crates/threads-archive/src/capture_resolution.rs:375-385 | The same holds after the count that reached the limit, until an outcome of the capture is recorded or it is counted again |
| `Tickets.AnsweredWasTakenUp` | crates/threads-archive/src/browser_capture_inbox.rs:91-140 | Every terminal report of a run answers an operation and command that an earlier delivery took up, under a key that was new to its owner at that moment |
| `Tickets.KnownKeyIsNeverAnswered` | crates/threads-archive/src/browser_capture_inbox.rs:91-140 | A command that was delivered under a known key is answered by no terminal report of any state of the run, before or after |
| `Tickets.TakenUpIsNeverForgotten` | crates/threads-archive/src/browser_capture_inbox.rs:104-121 | A command that was taken up under a new key is never forgotten: in every later state of the run its capture was deleted, was answered, or waits for its next attempt under the same operation |
| `Tickets.SubmittedIsNeverClaimed` | crates/threads-archive/src/capture_resolution.rs:292-300 | A capture that was stored without an operation is claimed by no pass of any later state |
| `Stores.BrowserCaptureInbox.Deliver` | crates/threads-archive/src/browser_capture_inbox.rs:91-140 | A command is taken up once; a known key answers with its capture and leaves every capture as it was, first operation included |
| `Effects.DeliverEffect` | crates/threads-archive/src/browser_capture_inbox.rs:91-140 | A known command changes nothing; a new one is marked and reported as queued for the one capture of its owner and key, which is created with the URL and the ticket, due at once, exactly when there was none |
| `Stores.BrowserCaptureInbox.Reject` | crates/threads-archive/src/browser_capture_inbox.rs:149-175 | A refused command leaves its marker and one report together, once |
| `Effects.RejectEffect` | crates/threads-archive/src/browser_capture_inbox.rs:149-175 | A refused command is marked and reported as rejected under its operation, once, and nothing else changes |
| `Announcements.CommandsAreReportedOnce` | crates/threads-archive/src/browser_capture_inbox.rs:91-175 | In every run each command of the inbox was reported as queued or as rejected exactly once, and no other was |
| `Stores.CaptureStore.Submit` | crates/threads-archive/src/capture.rs:518-557 | A new key creates one capture, a known key replays the stored one |
| `Effects.SubmitEffect` | crates/threads-archive/src/capture.rs:518-557 | A submission stores one accepted, unscheduled capture without an operation exactly under a new key of its owner |
| `Stores.CaptureStore.RecordObservation` | crates/threads-archive/src/capture.rs:577-617 | An unknown capture changes nothing; a deletion or refusal leaves tombstone, resolution and status together; a failure leaves a failure row and nothing else |
| `Stores.CaptureStore.MarkUnavailable` | crates/threads-archive/src/capture.rs:622-697 | Status, tombstone, resolution and fact commit together or not at all |
| `Effects.MarkEffect` | crates/threads-archive/src/capture.rs:622-697 | A mark leaves status, tombstone with the post, and resolution of its capture, and a fact exactly when the capture has a post |
| `Soundness.CommitKeepsSound` | crates/threads-archive/src/privacy_deletion.rs:427-524 | Every transaction keeps identifiers fresh, every reference resolving, every resolution shown by a revision of the post its capture holds, and one post per provider identity |
| `Soundness.ObservationKeepsSound` | crates/threads-archive/src/public_resolution.rs:257-307 | Storing an observation keeps all references and the evidence of earlier resolutions of the capture |
| `Runs.PostsLeaveUnheld` | crates/threads-archive/src/privacy_deletion.rs:427-524 | In every run no row names a row that is not there, and a post leaves only in an owner deletion after which no capture, no source and no account holds it |
| `PrivacyDeletion.DeletionStore.Apply` | crates/threads-archive/src/privacy_deletion.rs:120-251 | A new operation is applied if and only if the target row is stored and its stored owner is the one who asks, and is refused as not found otherwise; a known one is a replay or a conflict; only an applied one changes anything, and then exactly as the deletion says |
| `Effects.DeleteAnswers` | crates/threads-archive/src/privacy_deletion.rs:120-251 | The answer of every deletion, each of the four exactly under its condition on the rows, and the record it leaves |
| `Ownership.OnlyItsOwnerDeletes` | crates/threads-archive/src/privacy_deletion.rs:229-251 | In every run a stored capture or account leaves in a step if and only if that step is a deletion of it under a new operation, asked for by its own stored owner |
| `Ownership.AppliedOnce` | crates/threads-archive/src/privacy_deletion.rs:120-221 | In every run, once an operation was applied, no later request under its identifier changes anything |
| `PrivacyDeletion.DeletionStore.ApplyTargetRows` | crates/threads-archive/src/privacy_deletion.rs:427-524 | The loops over posts, sources and raw objects reach the net effect of the request |
| `PrivacyDeletion.DeletionStore.RemoveFinalOwnerSource` | crates/threads-archive/src/privacy_deletion.rs:526-627 | The sources of one post go exactly when the owner keeps no other holding of it |
| `PrivacyDeletion.DeletionStore.RemoveUnreferencedPost` | crates/threads-archive/src/privacy_deletion.rs:629-718 | A post nothing holds goes with its rows, and with the raw objects nothing else names |
| `PrivacyDeletion.ScheduleBlobTasks` | crates/threads-archive/src/privacy_deletion.rs:720-739 | Each object gets a pending task unless it already has one |
| `DeletionProperties.NetEffectHolds` | crates/threads-archive/src/privacy_deletion.rs:427-718 | Every table after an owner deletion, outbox rows, log and identifiers included, in closed form from the tables before it |
| `DeletionProperties.SourceGoesIffLastHolding` | crates/threads-archive/src/privacy_deletion.rs:427-627 | A source goes, with exactly one removal fact, if and only if it is the owner's, the target holds its post, and the owner keeps neither another capture of the post nor another official account on it |
| `DeletionProperties.KeptSourceStaysWhole` | crates/threads-archive/src/privacy_deletion.rs:427-627 | A source that stays keeps owner, post, revisions and links, and its first capture never names the deleted one but passes to the first other capture its owner has of the post |
| `DeletionProperties.PostGoesIffUnheld` | crates/threads-archive/src/privacy_deletion.rs:629-718 | A post goes if and only if the target held it and afterwards no capture, source or account does |
| `DeletionProperties.DeletionKeepsForeignKeys` | crates/threads-archive/src/privacy_deletion.rs:427-718 | No surviving row names a deleted one, and surviving resolutions keep their evidence |
| `DeletionRows.ResolutionGoesIff` | crates/threads-archive/src/privacy_deletion.rs:427-524 | Resolutions go exactly with the deleted capture, and none changes |
| `DeletionRows.TombstoneGoesIff` | crates/threads-archive/src/privacy_deletion.rs:427-524 | A tombstone goes exactly with its post, or with the deleted capture when it names no post; one that stays only stops naming the capture |
| `DeletionRows.PostRowGoesIff` | crates/threads-archive/src/privacy_deletion.rs:629-718 | Media and revisions go exactly with their post, relations exactly with either post, and none changes |
| `DeletionRows.RawGoesIff` | crates/threads-archive/src/privacy_deletion.rs:647-718 | A raw object goes if and only if a post that goes showed it and no revision that stays and no export record names it |
| `DeletionRows.LibraryRowGoesIff` | crates/threads-archive/src/privacy_deletion.rs:526-627 | Source revisions and links go exactly with their source, and a removal guard of the owner comes exactly with each source that goes |
| `DeletionRows.StayingRows` | crates/threads-archive/src/privacy_deletion.rs:427-524 | Of the captures and accounts exactly the target goes and no other changes; a post that stays loses its account exactly with it |
| `DeletionRows.TaskComesIff` | crates/threads-archive/src/privacy_deletion.rs:720-739 | Blob tasks stay as they are, and a new pending one comes exactly for bytes that a row that goes named |
| `DeletionProperties.FactsAppended` | crates/threads-archive/src/privacy_deletion.rs:579-592 | The removal facts restart the fact stream of exactly the removed sources and answer no capture |
| `DeletionProperties.RowStaysIffOutlives` | crates/threads-archive/src/privacy_deletion.rs:567-577 | An outbox row stays, unchanged, if and only if it is a removal or is filed neither under the target nor under the post of a source that goes |
| `DeletionProperties.AnotherOwnersRowGoes` | crates/threads-archive/src/privacy_deletion.rs:567-577 | The cleanup is not limited to the deleting owner: a fact of another owner's source that stays is erased when it is filed under the post |
| `Witnesses.AnotherOwnersFactIsLost` | crates/threads-archive/src/privacy_deletion.rs:567-577 | A run from empty tables that leads to a deletion which does it, while the other owner's source stays |
| `Publishing.AppendOriginFact` | crates/threads-archive/src/publishing.rs:195-283 | One captured or updated fact, none when the latest digest repeats; refused when the source has no free identity or the digest was stored before and is not the latest, and only then when no two revisions share an instant |
| `Effects.PublishEffect` | crates/threads-archive/src/publishing.rs:195-283 | A committed fact, on the rows: the stored source of owner and post or a new one under the derived identity; nothing more when a latest revision carries the digest, otherwise one revision with a digest new to the source and one event, captured exactly for the first revision |
| `Effects.ObserveEffect` | crates/threads-archive/src/account_sync.rs:169-213 | An official post is the upsert by its code, which keeps a stored account unless one is given, and one revision that shows it by the raw evidence |
| `Effects.RelationEffect` | crates/threads-archive/src/account_sync.rs:215-244 | A relation row is the one of its post, target code and kind, stored or new, and names a stored post of that code exactly when there is one |
| `Publishing.EnsureSource` | crates/threads-archive/src/publishing.rs:498-521 | The stored source of the owner and post, or a new one under the derived identity, refused exactly when another post took that identity |
| `Publishing.FindLatest` | crates/threads-archive/src/publishing.rs:203-215 | Returns one of the latest revisions of the source, and none exactly when there is none |
| `History.FactInsert` | crates/threads-archive/src/publishing.rs:195-283 | Appending a fact keeps the stream one captured fact then updates, telling exactly the stored digests |
| `History.LatestIffStored` | crates/threads-archive/src/publishing.rs:203-246 | A source has a latest revision exactly when it was stored before, so the fact is the captured one exactly for a new source |
| `History.CommitKeepsTold` | crates/threads-archive/src/publishing.rs:195-283 | Every transaction keeps one report per capture, no link of a removed source, and facts that tell exactly the stored revisions |
| `Journal.OnlyReportsAnswer` | crates/threads-archive/src/capture_resolution.rs:478-521 | No transaction but a report changes how many terminal reports a capture has |
| `Journal.StreamOnlyGrows` | crates/threads-archive/src/publishing.rs:195-283 | A transaction adds at most one fact to the stream of a source, and only an owner deletion starts it over |
| `Runs.FactsTellRevisions` | crates/threads-archive/src/publishing.rs:195-283 | In every run the facts of a stored source since its last removal are one captured fact and then updates, one per stored revision, no two with the same digest |
| `Stores.KnowledgeCompletionStore.Record` | crates/threads-archive/src/knowledge.rs:45-166 | Linked if and only if the event is new, the source was never removed for the owner, it is stored for that owner and a revision of it has the digest; exactly then one link is added; duplicate if and only if the event is known, locally removed if and only if it is new and the source was removed |
| `Effects.CompleteEffect` | crates/threads-archive/src/knowledge.rs:45-166 | The same for every committed completion: accepted once, and the links afterwards are exact |
| `Ownership.LinkedWhileStored` | crates/threads-archive/src/knowledge.rs:45-136 | In every run an analysis that may link when it comes is linked, and stays linked in every later state while its source is stored |
| `Ownership.ToldRemovalIsNeverLinked` | crates/threads-archive/src/knowledge.rs:140-166 | In every run no analysis is linked to a source of whose removal for that owner an event told |
| `Journal.CommitLinksOnward` | crates/threads-archive/src/knowledge.rs:45-166 | Removal guards and accepted completions are never forgotten, and a link only appears when its event is first accepted |
| `Runs.RemovedIsNeverLinked` | crates/threads-archive/src/knowledge.rs:45-166 | In every run, once an owner's source was removed no later state links it, and a completion leaves the same link for ever or none, and a link belongs to the owner of its source |
| `OutboxRelay.RemovalLifecycle` | crates/threads-archive/src/removal_acknowledgement.rs:82-187 | In every run of interleaved pumps, failures, stops, acknowledgements and deletions a removal row stays, its acknowledgement is written once, a published one has a next copy scheduled and at least one accepted copy more than it counts, and once published and acknowledged it is never selected again and its schedule is frozen |
| `OutboxRelay.MoveKeepsAccount` | crates/threads-archive/src/removal_acknowledgement.rs:134-158 | Every publication and every counted copy was accepted by the broker |
| `OutboxRelay.MoveKeepsArmed` | crates/threads-archive/src/removal_acknowledgement.rs:82-101 | A next copy is scheduled exactly for published removals |
| `OutboxRelay.OnlyItsTenantAcknowledges` | crates/threads-archive/src/removal_acknowledgement.rs:167-187 | In every run an acknowledged removal was acknowledged with that outcome by its own tenant |
| `RelayRows.AcknowledgeEffect` | crates/threads-archive/src/removal_acknowledgement.rs:167-187 | An acknowledgement sets the outcome of a removal exactly when its own tenant sends it and nobody did before, and changes nothing else |
| `RelayRows.AcknowledgedIsNeverCopied` | crates/threads-archive/src/removal_acknowledgement.rs:109-187 | In every run, once its tenant acknowledged a removal, the first outcome stays for good and no later state offers the row for another copy at any instant |
| `RelayRows.PublicationEffect` | crates/threads-archive/src/removal_acknowledgement.rs:82-101 | A recorded publication stamps an unpublished row, schedules the first copy exactly of a removal, and changes nothing else |
| `RelayRows.CopyEffect` | crates/threads-archive/src/removal_acknowledgement.rs:134-158 | A recorded copy of an unacknowledged removal counts, forgets failures and schedules the next after min(after·2^resends, cap); nothing else changes |
| `RelayRows.RefusalEffect` | crates/threads-archive/src/outbox_relay.rs:156-174 | A recorded failure counts and waits min(2^n, 300) seconds, and cannot be recorded exactly beyond 1023 failures |
| `RelayRows.RefusedRowWaits` | crates/threads-archive/src/outbox_relay.rs:156-174 | In every run with any overlapping pumps, a row refused after n failures is not selected again before min(2^n, 300) seconds unless it is refused once more |
| `RelayRows.OldestFirst` | crates/threads-archive/src/outbox_relay.rs:81-95 | A pass takes rows that are unpublished and not backed off, oldest first, and leaves out only rows no older than all it takes, when its batch is full |
| `RelayRows.LongestDueFirst` | crates/threads-archive/src/removal_acknowledgement.rs:109-127 | A round of copies takes published, unacknowledged, due removals, longest due first, and leaves out only such that are no longer due |
| `OutboxRelay.CopiesAreSpaced` | crates/threads-archive/src/removal_acknowledgement.rs:82-158 | In every run a published removal that nobody acknowledged and no failure holds back is selected for another copy exactly once the delay for its number of copies has passed since the last move that recorded its publication or a copy, after which neither its count nor its schedule changed |
| `OutboxRows.RemovalRowIsNeverErased` | crates/threads-archive/src/privacy_deletion.rs:567-577 | In every run of the service the outbox row of a removal, once inserted, is in every later state, unchanged |
| `OutboxRows.CommitFollows` | crates/threads-archive/src/outbox_relay.rs:81-111 | Whatever commits, the outbox table changes only by rows inserted under new identifiers and rows other than removals erased: a relay in step with it follows by such moves, and its chosen, sent and owed copies stay |
| `OutboxPump.OutboxPump.FlushOutbox` | crates/threads-archive/src/outbox_relay.rs:81-111 | A pass handles the oldest due rows, sends copies of removals only when no fresh row was refused, surfaces the first failure, and is a run of the interleaved relay |
| `OutboxPump.OutboxPump.PublishAll` | crates/threads-archive/src/outbox_relay.rs:96-105 | The loop goes on past refused rows and ends only when the database refuses a statement |
| `OutboxPump.OutboxPump.ResendAll` | crates/threads-archive/src/outbox_relay.rs:115-142 | Copies go out up to the first refusal, which is recorded |
| `RelayRows.CopiesUpToRefusal` | crates/threads-archive/src/outbox_relay.rs:115-142 | A round of copies goes exactly up to the first refusal: rows before it are copied, its failure is recorded, and no other row changes |
| `OutboxPump.PassReachesAllUnlessUnrecordable` | crates/threads-archive/src/outbox_relay.rs:67-111 | A pass handles every selected row, each as its broker answer says with the whole row stated, if and only if no refused one has more than 1023 failures |
| `Schedule.FailureBackoffDoubles` | crates/threads-archive/src/outbox_relay.rs:156-174 | The first wait after a failed publication is one second, later ones double up to 300, and the statement has a value exactly below 1024 failures |
| `Schedule.ResendDelayIsExact` | crates/threads-archive/src/removal_acknowledgement.rs:134-158 | The clamped resend delay equals min(after·2^n, cap) for every count, never shrinks, and lies between the two settings |
| `Config.FromEnvironment` | crates/threads-archive/src/config.rs:208-259 | A configuration is handed out if and only if every entry with the prefix of the service is a number within the bounds of its key or accepted as it is, one entry sets the bus and one the raw object root, and the cap is not below the first delay; every setting of it is in range, and otherwise the keys of all violations are returned in order |
| `Config.RefusedIff` | crates/threads-archive/src/config.rs:262-382 | Whether an entry is refused depends on the entry alone, and is said on its texts: foreign keys never, number keys unless the text is digits after at most one plus sign within the bounds |
| `Config.LoadedDelayIsExact` | crates/threads-archive/src/config.rs:327-334 | For every configuration handed out the resend delay is the documented one |
| `Config.LastEntryWins` | crates/threads-archive/src/config.rs:208-334 | The last accepted entry of a key decides its setting, whatever comes before, between or after it |
| `Config.DefaultStays` | crates/threads-archive/src/config.rs:385-406 | A key without an accepted entry keeps its default: 5 attempts, batches of 8, 600 and 21600 seconds |
| `Config.NumberIsAccepted` | crates/threads-archive/src/config.rs:315-334 | A number is accepted exactly within the bounds of its key, and read as itself |
| `Config.EveryLimitIsAccepted` | crates/threads-archive/src/config.rs:315-318 | Every positive 32-bit limit is accepted |
| `ReplyGraph.VisitsCycle` | crates/threads-archive/src/public_resolution.rs:214-233 | A cycle that is found exists; otherwise the node and all it leads to is finished, and the chain of open calls is restored |
| `ReplyGraph.HasReplyCycle` | crates/threads-archive/src/public_resolution.rs:202-212 | Terminates and answers true exactly when the reply graph has a cycle |
| `ReplyGraph.CheckRelations` | crates/threads-archive/src/public_resolution.rs:156-184 | Refused for a malformed kind, else exactly when the replies to known targets have a cycle |
| `ReplyStore.KnownTargetsShowEveryCycle` | crates/threads-archive/src/public_resolution.rs:337-375 | Checking replies to known targets only finds a cycle exactly when all replies have one |
| `ReplyStore.RelationStore.Record` | crates/threads-archive/src/public_resolution.rs:313-401 | An observation is refused exactly for too many relations, a foreign source, a cycle among all stored and new replies, or a malformed kind; otherwise it is stored whole; also when a cycle was stored before |
| `ReplyStore.RecordAnswers` | crates/threads-archive/src/public_resolution.rs:156-401 | What a page with relations is answered, each answer exactly under its condition, a cycle said as a closed walk of stored and incoming replies; exactly a page without any fault is stored, with all its relations |
| `ReplyGraph.KindIsSpelled` | crates/threads-archive/src/relation.rs:53-71 | A kind is valid exactly as one lower-case letter followed by at most 31 lower-case letters, digits and underscores |
| `ReplyGraph.NewEdgeClosesCycleIff` | crates/threads-archive/src/account_sync.rs:215-244 | One more reply closes a cycle in an acyclic graph if and only if it replies to itself or to a post from which replies already lead back to it |
| `ReplyStore.WriteKeepsAcyclicIff` | crates/threads-archive/src/account_sync.rs:215-244 | Checked writes and deletions keep the stored replies acyclic, and a write without the check does if and only if it is no reply, or no such reply |
| `ReplyStore.RepliesStayAcyclic` | crates/threads-archive/src/public_resolution.rs:327-401 | In every run of writers and deletions the stored replies form no cycle as long as every unchecked reply was harmless when it was written |
| `ReplyStore.RunStaysAcyclicIff` | crates/threads-archive/src/data_export.rs:486-522 | A run stays acyclic throughout if and only if every unchecked reply in it was harmless when it was written |
| `ReplyStore.UncheckedReplyCanCloseCycle` | crates/threads-archive/src/account_sync.rs:215-244 | A state and an unchecked reply that closes a cycle in it |
| `ReplyRuns.CommitWrites` | crates/threads-archive/src/public_resolution.rs:327-401 | Every transaction of the archive is one write of the reply graph its own tables show: a checked page, a post, one unchecked relation row, or a deletion; only a deletion loses relations |
| `ReplyRuns.ArchiveStaysAcyclicIff` | crates/threads-archive/src/account_sync.rs:215-244 | No state of a run of the archive stores a cycle of replies if and only if no step of it writes an unchecked reply whose target already leads back to its post |
| `ReplyRuns.CycleRefusesEveryPage` | crates/threads-archive/src/public_resolution.rs:327-375 | Once a cycle is stored, no page of any post is stored until an owner deletion, because the test runs over all stored replies for every observation |
| `Witnesses.SynchronisationStoresCycle` | crates/threads-archive/src/account_sync.rs:215-244 | A run from empty tables that stores a cycle |
| `BlobRetention.RawObjectStore.Store` | crates/threads-archive/src/public_resolution/raw_object_store.rs:33-56 | Bytes are filed under their digest; an existing file is reused only while it has that digest |
| `BlobRetention.RawObjectStore.ReadVerified` | crates/threads-archive/src/public_resolution/raw_object_store.rs:100-118 | Bytes are handed out exactly under their own reference and while they have their digest |
| `BlobRetention.RawObjectStore.DeleteIfMatches` | crates/threads-archive/src/public_resolution/raw_object_delete.rs:31-60 | Afterwards the object is absent, exactly when reference and bytes match; nothing else changes |
| `BlobRetention.StoreThenRead` | crates/threads-archive/src/public_resolution/raw_object_store.rs:33-118 | What was stored reads back byte for byte if and only if no other file is in its place; a file that lost its digest is refused, and only one with the same digest is handed out instead |
| `BlobRetention.BlobWorker.ProcessTask` | crates/threads-archive/src/media_retention.rs:160-238 | Bytes go and the deletion task completes exactly when no raw, media or export row references them and the file matches |
| `Effects.SettleEffect` | crates/threads-archive/src/media_retention.rs:160-238 | An attempt counts once on its pending task, completes it exactly when the bytes are gone, and touches no other task |
| `BlobRetention.ReferencedIffNamed` | crates/threads-archive/src/media_retention.rs:180-200 | An object is referenced exactly when a raw row, a media row or an export run names it |
| `BlobRetention.ReferenceNamesOneObject` | crates/threads-archive/src/public_resolution/raw_object_store.rs:33-56 | Two canonical references are equal exactly when they name the same object: the hexadecimal spelling of a digest is injective |
| `BlobRetention.PlanMatchesTask` | crates/threads-archive/src/media_retention.rs:245-281 | The plan says delete exactly when the reference check of a deletion task would pass once that media row is gone |
| `BlobRuns.ReferencedBytesStay` | crates/threads-archive/src/media_retention.rs:160-220 | In every run where check and delete are one step and stores commit with their rows, every referenced object keeps its bytes |
| `BlobRuns.GoneRowsLeaveTasks` | crates/threads-archive/src/privacy_deletion.rs:647-739 | Every raw or media row that goes leaves a task for its bytes |
| `BlobRuns.RescheduledIffNotCompleted` | crates/threads-archive/src/privacy_deletion.rs:720-739 | The blob task a committed owner deletion leaves for the bytes of a row it deletes is pending if and only if the object had no completed task |
| `BlobRuns.FinishedIsNeverSweptAgain` | crates/threads-archive/src/media_retention.rs:160-220 | In every run a completed task stays completed, and bytes stored again under its object stay for good, also when no row references them any more |
| `BlobWitness.StoredTwiceIsLeftBehind` | crates/threads-archive/src/privacy_deletion.rs:720-739 | A run from empty tables that leaves such bytes behind, for every content and every digest function |
| `BlobRuns.DeleteIsSafeIffUnreferenced` | crates/threads-archive/src/media_retention.rs:180-208 | Deleting the bytes keeps every reference backed if and only if the object is unreferenced at that moment |
| `BlobRuns.CheckedDeleteCanLoseBytes` | crates/threads-archive/src/media_retention.rs:180-208 | In every state where the check passes, one transaction that stores the same bytes before the delete loses them |
| `Permalink.ParseRender` | crates/threads-archive/src/permalink.rs:95-186 | Every text of the documented grammar is accepted and read back part by part |
| `Permalink.RenderParse` | crates/threads-archive/src/permalink.rs:95-186 | Every accepted text belongs to the grammar and is the rendering of its parts |
| `Permalink.RefusalIsTrue` | crates/threads-archive/src/permalink.rs:95-186 | Every refused text has the fault its error names and is in order before it: length, separator, scheme, characters, port, host, short form, path shape, handle and post code |
| `Permalink.NamesAreSpelled` | crates/threads-archive/src/permalink.rs:52-58 | Handles and post codes character by character, with their lengths |
| `Permalink.CanonicalIsFixed` | crates/threads-archive/src/permalink.rs:174-186 | The canonical form is accepted and is its own canonical form |
| `Permalink.SamePermalinkIffSamePost` | crates/threads-archive/src/permalink.rs:95-186 | Two accepted texts have the same permalink if and only if their codes are equal and their handles are equal up to ASCII case |
| `Permalink.IdentityIsCode` | crates/threads-archive/src/public_resolution.rs:425-430 | The provider identity of an observation is the post code of its permalink |
| `PlanEncoding.EncodingIsInjective` | crates/threads-archive/src/data_export_reprocessing.rs:400-410 | Item lists with arbitrary keys and digests that are absent, or hold no newline and are not a dash, encode equally only if they are equal |
| `PlanEncoding.HexPlansAreInjective` | crates/threads-archive/src/data_export_reprocessing.rs:86-87 | Plans whose digests are absent or 64 hexadecimal digits encode equally if and only if they are equal |
| `PlanEncoding.EncodesAlikeIffBlankedAlike` | crates/threads-archive/src/data_export_reprocessing.rs:408-409 | Plans without newlines in digests encode equally if and only if they are equal up to dashes in place of absent digests |
| `PlanEncoding.DashCollides` | crates/threads-archive/src/data_export_reprocessing.rs:408-409 | A digest that is a single dash encodes like an absent one |
| `PlanEncoding.NewlineCollides` | crates/threads-archive/src/data_export_reprocessing.rs:400-410 | Any two items encode like one item that has a newline in its digest |
| `PlanEncoding.BuildPlan` | crates/threads-archive/src/data_export_reprocessing.rs:400-410 | The loop builds the canonical plan text |
| `Reprocessing.ReportIsSorted` | crates/threads-archive/src/data_export_reprocessing.rs:376-385 | The report holds exactly the inputs, ordered by key |
| `Reprocessing.SortIsStable` | crates/threads-archive/src/data_export_reprocessing.rs:376-385 | The items of every key stay in the order they came in |
| `Reprocessing.LeqIsByteOrder` | crates/threads-archive/src/data_export_reprocessing.rs:376-385 | The order of the keys is the lexicographic one: equal up to some position, and there at the end or smaller |
| `Reprocessing.SameReportIffSameByKey` | crates/threads-archive/src/data_export_reprocessing.rs:376-385 | Two inputs have the same report if and only if the items of each key come in the same order in both |
| `Reprocessing.RepeatedKeyShowsOrder` | crates/threads-archive/src/data_export_reprocessing.rs:376-385 | With a repeated key the report does depend on the order of the inputs |
| `Reprocessing.ReportIgnoresInputOrder` | crates/threads-archive/src/data_export_reprocessing.rs:376-410 | With distinct keys the report and the plan text do not depend on the order of the inputs |
| `Reprocessing.ResumesOnlySamePlan` | crates/threads-archive/src/data_export_reprocessing.rs:322-331 | If the fingerprint keeps two plans apart, an operation that began with one goes on only with the same report |
| `Reprocessing.ReprocessingStore.ApplyChunk` | crates/threads-archive/src/data_export_reprocessing.rs:173-351 | A changed plan is refused, a completed run changes nothing, a chunk stores the next items or nothing, and the run completes when as many rows as items are stored |
| `Reprocessing.ApplyEffect` | crates/threads-archive/src/data_export_reprocessing.rs:173-351 | A call is refused as another plan exactly when the run of its owner and operation was begun for another receipt, state or fingerprint; it changes only its own run, leaves a finished one alone, and answers complete exactly when its run is finished |
| `Reprocessing.PhaseSays` | crates/threads-archive/src/data_export_reprocessing.rs:255-302 | A run is finished exactly when every item is stored, and with warnings exactly when some item is a warning or a conflict |
| `Reprocessing.InsertChunk` | crates/threads-archive/src/data_export_reprocessing.rs:213-239 | The loop stores the first new items of the report, and is refused when a key comes twice |
| `Reprocessing.ChunksLeavePrefix` | crates/threads-archive/src/data_export_reprocessing.rs:213-239 | For distinct keys any sequence of chunk sizes leaves a prefix of the report, and the state of a one-shot apply once they add up |
| `ReprocessingRuns.OperationHoldsPrefix` | crates/threads-archive/src/data_export_reprocessing.rs:173-351 | After any calls of any owners and operations, in any order and with any inputs whose fingerprints do not collide, a stored operation has the plan of one of its calls and the items the calls for that plan leave on their own: the first of the report, as many as they asked for; it has completed if and only if they asked for all and the keys are distinct |
| `ReprocessingRuns.SameWorkIffAccepted` | crates/threads-archive/src/data_export_reprocessing.rs:322-331 | If the fingerprint keeps the plans of two calls apart, the comparison of receipt, plan and state accepts one after the other exactly when both ask for the same report |
| `Reprocessing.CompletesIffDistinct` | crates/threads-archive/src/data_export_reprocessing.rs:255-302 | A run completes if and only if its keys are distinct and its chunks add up to the report |
| `Reprocessing.CompleteStaysComplete` | crates/threads-archive/src/data_export_reprocessing.rs:194-204 | Once every item is stored further chunks change nothing |
| `Credential.DecodeEncode` | crates/threads-archive/src/oauth.rs:603-673 | Two tokens come back as they were |
| `Credential.EncodeDecode` | crates/threads-archive/src/oauth.rs:647-673 | Whatever is decoded encodes to the same bytes, so nothing may follow the two tokens, and both tokens are text |
| `Credential.WriteCredential` | crates/threads-archive/src/oauth.rs:603-617 | The buffer is the encoding of the two tokens, refused exactly for a token of 2^32 bytes or more |
| `Credential.ParseRender` | crates/threads-archive/src/oauth.rs:619-637 | Every well-formed envelope is read back field by field |
| `Credential.RenderParse` | crates/threads-archive/src/oauth.rs:619-637 | Every accepted envelope is the rendering of its fields |
| `Credential.Seal` | crates/threads-archive/src/oauth.rs:505-535 | The envelope byte by byte: marker, generation, digest of the label and the owner, nonce, and the encryption of the two length-prefixed tokens bound to the label and the owner; refused exactly for a token whose length does not fit |
| `Credential.OpenAfterSeal` | crates/threads-archive/src/oauth.rs:505-567 | Given a cipher whose decryption inverts encryption (section 2 of RFC 5116), what was sealed opens for the same owner and key generation with both tokens |
| `Credential.OpenRefusesOthers` | crates/threads-archive/src/oauth.rs:543-567 | What was sealed for an owner is refused for its key generation exactly under another one, and for its binding exactly when the generation is the same and the digest of the label followed by the other owner is not that of the label followed by the owner |
| `Credential.OwnerIsBound` | crates/threads-archive/src/oauth.rs:595-601 | The associated data is the label followed by the owner, so it differs exactly for different owners |
| `Credential.OrderIsLexicographic` | crates/threads-archive/src/oauth.rs:603-637 | The length bytes are most significant first: numbers compare as their bytes do from the left |

## Left out

- Network I/O, the oEmbed client, NATS consumers, telemetry, health routes, process supervision and the scheduler: plumbing around the modelled core.
- The official synchronisation and export import loops: their rows appear as separate transactions, which only adds intermediate states; parsing and ZIP reading are not modelled.
- Deletion previews and the per-class counts in the deletion inventory: closed tables with one-branch rules.
- Own-account credentials in the database, capability tables, media policy guards and re-resolution guards: each is one lookup with one refusal, and none of them interacts with the runs modelled here.
- The sort of normalised relations: the order in which relations are inserted changes no row.
- Upstream status of posts, note texts, original URLs and JSON envelopes: carried unchanged, they decide no modelled branch.
- Files as files: partial writes, hard links and temporary names of the raw object store are one map update, and a failing file system is not modelled.
- The checkpoint key, the counts and the timestamps of a reprocessing run: written for display only.
- CaptureResolution.CaptureResolver.RunDueOnce: all transactions of one pass are stamped with one instant, because the instant decides no modelled branch.
- OutboxPump.OutboxPump.FlushOutbox: one pass reads one clock value, because the order of its statements is what matters; the interleaved relay lets every statement read its own.
- Publishing.AppendOriginFact: says when a fact is refused exactly only while no two revisions of a source share an instant, because the query leaves open which of them is the latest.
- Scheduling.ClaimedInTime: assumes one resolver that does not stop, no delivery stamped before the due time, and that the resolver works on nothing it claimed before that time, because captures with earlier times would otherwise come ahead.
- Deadlines.AnsweredWithinPasses: assumes one resolver that does not stop, a clock that does not go back and a bound on the captures ahead, because without any one of them other captures may come ahead for ever; answers that cannot be stored are excluded, as for the bound on claims.
- Answering.AnsweredInTime: assumes one resolver that does not stop and a limit the counter can reach, because the property fails without either; answers that cannot commit are excluded, since the pass that meets one has to stop.
- Recovery.AnswerIsRemembered: assumes that earlier evidence about the capture is not stamped later than the answer, because the reading takes the latest stamp.
- CaptureResolution.PublicResolutionStore.Record: stores no relations with a page, because the oEmbed surface reports none; `ReplyStore.RelationStore.Record` models a page with relations.
- ReprocessingRuns.OperationHoldsPrefix: assumes that the plans of the calls at hand have different fingerprints unless they are one text, and plain digests, because two plans with one fingerprint are one plan to the store.
- BlobRuns.ReferencedBytesStay: takes check and delete as one step, because the property fails for two.
- Resend counters are unbounded: the 32-bit column would overflow only after 2^31 copies of one removal.
