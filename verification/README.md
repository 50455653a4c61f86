# A verified model of the paperless-ai-ocr service

The service turns scanned documents of a Paperless archive into text with the help of a model, and
publishes the text. This project models the parts of it where several processes share durable state, where
a loop can be cut off anywhere, or where two algorithms have to agree, and proves what they keep.

| file | subject |
|---|---|
| `Common`, `Decimal`, `Utf8` | shared values: options, white space, numerals, well-formed UTF-8 |
| `QueueModel`, `QueueSpec`, `Queue` | the tables, every transaction as a function, and the queue object whose methods are those transactions |
| `QueueLaws`, `LeaseLaws`, `StageLaws`, `CandidateLaws` | how tables evolve over any run: fencing, uniqueness, order, leases, checkpoints, stages, candidates; what each transaction grants and refuses |
| `Finalize`, `FinalizeLaws` | the finalization protocol of any number of finalizers, with crashes, stalls, takeovers and lost transactions |
| `Publishing` | which text is published: finalizers and checkpoints together |
| `Boundaries` | where the guarantees end, with witnesses and exact conditions |
| `Finalizing` | the finalizer as straight-line code; every call is a run of the protocol |
| `Escapes` | the two scanners for JSON unicode escapes |
| `Transcript`, `Canonical` | pages and batches, joining and taking apart, strict validation and the canonical form |
| `BatchGrammar` | a declared grammar of raw batches, and the reader as exactly that grammar |
| `Checkpoints`, `Worker`, `World` | resuming from durable checkpoints while other processes run |
| `Reconcile` | webhook candidates and the archive walk |
| `Workspace`, `Render` | the byte budget and the rendered pages |
| `SecureLog` | the bounded asynchronous logger |
| `TimeText` | timestamps as text |
| `Shutdown` | the worker loop and the end of the service as a protocol |
| `App` | the service, whose every run is a run of that protocol |

## How it is modelled

Each transaction of the queue is one atomic step: a function from the tables, the clock and its arguments to
the answer and the new tables (`QueueSpec`), and a method of the class `Queue` that is proved equal to it.
`Evolves` (`QueueLaws`) relates the tables to the tables any number of transactions later; it is what one
process may rely on while others run. Code that calls the store runs arbitrary transactions of everybody else
before each of its own (`World.Others`, `Finalizing.System.Others`, `Reconcile.Reconciler.Others`).

Remote services, the model, the file system, cancellation and the clock may answer anything. A transaction
may be lost before it commits, or be reported as failed although it committed. A crash or a stall is a process
that gets no further step.

The finalization results quantify over runs of any number of finalizers, so the protocol is a step function
with a program counter per call; `Finalizing` then writes the code of the finalizer and proves that whatever
it does, together with everybody else, is such a run.

Byte strings are strings with one character a byte. Ids, attempts, priorities and times are unbounded integers;
the byte budget uses 64-bit integers, so its arithmetic is proved not to overflow.

## What the proofs show about the code

* A canonical checkpoint may be refused when it is read back, because `<`, `>` and `&` take six bytes in it
  and the size limit applies again (`internal/ocr/validate.go:79`, `internal/ocr/validate.go:147`). Such a job
  never yields different content, but it can neither resume nor be reconstructed. `Canonical.CanonicalRoundTrip`
  gives the exact condition and `Canonical.CanonicalMayBeRefused` a family of inputs.
* Only startup recovers expired leases (`internal/app/app.go:492`), and a claim needs that no job is processing,
  so an expired lease holds up the whole queue until a restart (`LeaseLaws.ExpiredLeaseBlocksClaims`).
* An archive walk that is blocked by its page limit or by a loop stays blocked: its stored cursor never changes
  again (`Reconcile.Reconciler.RunOnce`).
* The store alone lets the last stage be reached without a dispatch (`internal/queue/queue.go:700`):
  `Boundaries.StoreAloneReachesLastStage` shows it for any job, and `Boundaries.UndispatchedExactly` says when it
  happens. That a completed job was dispatched is an invariant of finalizers and store together
  (`FinalizeLaws.CompletionMeansDelivery`).
* A stalled finalizer may change content and tags after a takeover, and content while no stage is durable
  (`internal/finalize/finalize.go:260`): `Boundaries.StalledFinalizerPublishes` shows a run for any job. What the
  code does keep is `Boundaries.RenewedBeforeCall`, and that the text is the same one in any case
  (`Publishing.OneContentPublished`).
* A claim that commits but is reported as failed, while the context ends, is open after a clean end of the service
  (`internal/app/app.go:381`, `internal/app/app.go:528`): `Shutdown.LostClaimStaysOpen` shows it for any job, and
  `Shutdown.CleanEndSettles` says that nothing else leaves a claim open.
* The guard that keeps a failed job from being retried beside current work for the same source never refuses
  (`internal/queue/queue.go:731`), since there is one row per source (`LeaseLaws.RetryFailedExactly`).

## Model

| member | source | states |
|---|---|---|
| FinalizeLaws.AtMostOnceDispatch | internal/finalize/finalize.go:292-312 | over every interleaving of finalizers, crashes, takeovers and other transactions, at most one dispatch call of a job is not answered by HTTP 503, and at most one is accepted |
| FinalizeLaws.DispatchComesLast | internal/finalize/finalize.go:260-312 | before any dispatch call, content, complete tag and failed-tag removal have been confirmed, in that order |
| FinalizeLaws.CompletionMeansDelivery | internal/finalize/finalize.go:260-327 | in every reachable state a completed job has the last success stage, a confirmed dispatch, exactly one accepted dispatch, and its trace shows the three confirmations before it |
| FinalizeLaws.SuccessExcludesFailure | internal/finalize/finalize.go:330-372 | no run records a terminal failure and reaches a success stage for one job; no job gets both tag additions; a dispatched job is never failure-marked |
| FinalizeLaws.ReturnedOkSettles | internal/finalize/finalize.go:321-327 | a finalizer call that returned without error has ended its claim, and a success has completed the job |
| FinalizeLaws.StaleFinalizerIsInert | internal/queue/queue.go:863-891 | once its claim is gone, no further step of a finalizer changes any table |
| FinalizeLaws.RunKeepsInv | internal/finalize/finalize.go:233-372 | the invariant that ties stages, dispatch states and traces together holds after every run |
| Publishing.OneContentPublished | internal/finalize/finalize.go:256-273 | if every success finalizer is started with content that the checkpoints of its job determine, then whatever is sent or confirmed for a job, by any finalizer, also a stalled one after a takeover, is one text, and the checkpoints determine it |
| Publishing.CompletedContent | internal/finalize/finalize.go:256-327 | a completed job was confirmed with the text that its checkpoints determine, and every content effect of the job carries this text |
| Publishing.RunKeepsContent | internal/finalize/finalize.go:116-201 | the invariant behind it holds after every run: every finalizer carries, and every content effect shows, determined content |
| Boundaries.UndispatchedExactly | internal/queue/queue.go:487-509 | over every run of the store alone: the last success stage without a confirmed dispatch arises if and only if an admitted advance to that stage commits while the dispatch is not confirmed |
| Boundaries.StoreAloneReachesLastStage | internal/queue/queue.go:692-708 | for any job, owner and token: seven transactions lead to the last stage with the dispatch not even reserved |
| Boundaries.RenewedBeforeCall | internal/finalize/finalize.go:410-417 | before every outside call of any run, the last two steps of the same finalizer renewed an active lease and its own admission, in that order |
| Boundaries.TakeoverDoesNotStopCalls | internal/finalize/finalize.go:260-266 | a finalizer that has renewed and stalls makes its outside call although its lease has been recovered meanwhile |
| Boundaries.StalledFinalizerPublishes | internal/finalize/finalize.go:256-273 | for any job, owners, token and content: a run in which the job is taken over and the stalled finalizer still sends its content, with no stage durable |
| Finalizing.Code.Process | internal/finalize/finalize.go:116-201 | the straight-line code, with everybody else in between, is a run of the protocol; returning without error means the claim is over and a success is completed; an active finalizer refuses a second call |
| Finalizing.Code.Succeed | internal/finalize/finalize.go:233-327 | the success path follows the protocol from its first renewal to its end, whatever stage it resumes at |
| Finalizing.Code.Deliver | internal/finalize/finalize.go:274-327 | tag, tag, dispatch and completion follow the protocol from every durable stage |
| Finalizing.Code.DispatchOnce | internal/finalize/finalize.go:293-312 | reserve, renew, dispatch, then confirm or reset: HTTP 503 alone leads to a reset, any other error to an ambiguous end |
| Finalizing.Code.MarkFailed | internal/finalize/finalize.go:330-372 | the failure path follows the protocol, and stops when the recorded intent is missing |
| Finalizing.Code.MutateTag | internal/finalize/finalize.go:374-408 | a tag mutation confirms its goal or stops where the protocol stops |
| Finalizing.Code.Transition | internal/finalize/finalize.go:135-162 | an error becomes the failed or retried job that the protocol says, unless the lease was lost |
| Finalizing.System.Guarantees | internal/finalize/finalize.go:241-327 | the guarantees of the protocol hold of the effects the code really made |
| Finalizing.System.PublishesOnce | internal/finalize/finalize.go:256-273 | of the effects that the code really made, all that send or confirm content for one job carry one text |
| QueueLaws.ClaimIsFirstDue | internal/queue/queue.go:228-279 | a claim takes exactly the first due job by priority, creation time and id, and nothing while any job is processing |
| QueueLaws.QueueUniqueness | internal/queue/queue.go:184-279 | from an empty store, over all runs: at most one job is processing, one row per document and checksum, priorities never drop, completed is final |
| QueueLaws.RunKeepsQueueInv | internal/queue/queue.go:228-279 | the queue invariant holds after every sequence of transactions |
| QueueLaws.ClaimFencedForEver | internal/queue/queue.go:863-874 | once a claim is gone it stays gone, and no transaction carrying it changes any table |
| QueueLaws.ClaimHoldsUntilGone | internal/queue/queue.go:246-260 | a claim handed out is held until it is gone, and the two exclude each other in every later state |
| QueueLaws.StaleClaimDoesNothing | internal/queue/queue.go:863-891 | a transaction whose lease is not active leaves every table as it was |
| QueueLaws.AdmissionNotDisplaced | internal/queue/queue.go:413-429 | while a claim is current, no other token replaces an unexpired admission |
| QueueLaws.RunEvolves | internal/queue/queue.go:301-389 | over all runs batch plans stay, completed batches keep their text, stages only move along valid transitions, confirmed dispatches and failures stay |
| LeaseLaws.ClaimIsActiveUntil | internal/queue/queue.go:246-260 | a new claim is active exactly until its lease expires |
| LeaseLaws.ClaimsAreUnique | internal/queue/queue.go:256-260 | no claim generation is ever handed out twice |
| LeaseLaws.RetryIsDueFrom | internal/queue/queue.go:628-644 | after a scheduled retry the claim is gone and the job is due exactly from the given time on |
| LeaseLaws.ReleasedIsDue | internal/queue/queue.go:647-670 | after a release the claim is gone and the job is due at once |
| LeaseLaws.RecoveryIsExact | internal/queue/queue.go:756-774 | recovery ends exactly the expired leases |
| LeaseLaws.RenewalExactly | internal/queue/queue.go:287-298 | a renewal is granted exactly to an active claim, which is then active until the new expiry and no longer; only its row changes, and a refusal changes nothing |
| LeaseLaws.ClaimSurvivesOthers | internal/queue/queue.go:863-874 | over every run before its expiry in which the holder itself does nothing, a claim stays active exactly until that expiry |
| LeaseLaws.RetryWaits | internal/queue/queue.go:628-644 | a retry is granted exactly to an active claim with a valid diagnostic and a time in the future; over every run before that time the job stays in retry and changes in its priority only |
| LeaseLaws.ReleaseExactly | internal/queue/queue.go:647-670 | a release answers whether the claim was active, ends it in that case, changes only its row, and otherwise nothing |
| LeaseLaws.CompletedForEver | internal/queue/queue.go:678-690 | a job is completed exactly by an active claim, and over every later run its row never changes again |
| LeaseLaws.FailedUntilRetried | internal/queue/queue.go:715-728 | a job is failed exactly by an active claim with a valid diagnostic, and its row never changes over any run in which no operator retries it |
| LeaseLaws.RetryFailedExactly | internal/queue/queue.go:731-753 | in every state with one row per source exactly the failed jobs can be retried, for any time in the future, and are then due from that time on with the attempts they had; the guard against current work never refuses |
| LeaseLaws.ClaimStateTells | internal/queue/queue.go:819-836 | after any run the state of a claim that was handed out is processing exactly while it holds the job; any other state means that the claim is gone with that state, none that a later claim took over |
| LeaseLaws.EnqueueExactly | internal/queue/queue.go:169-225 | a valid enqueue answers with the row of the source that is better than every other, promotes it only while it waits, and appends a pending row exactly when there was none; no other row changes, and invalid input changes nothing |
| LeaseLaws.SameSourceSameRow | internal/queue/queue.go:184-225 | over all runs, enqueueing the same source again answers with the same row and creates nothing |
| LeaseLaws.ExpiredLeaseBlocksClaims | internal/queue/queue.go:228-256 | until recovery runs, an expired lease stays as it is under every run and keeps every claim from succeeding |
| StageLaws.CheckpointExactly | internal/queue/queue.go:355-389 | a checkpoint is granted exactly to an active claim for a planned range that is open or holds the same text; then the text is stored and every other row of the plan stays; a refusal changes nothing |
| StageLaws.CheckpointOnce | internal/queue/queue.go:355-389 | after a granted checkpoint, over every run the text stays stored and any other text for the range is refused to everybody |
| StageLaws.AdmissionExactly | internal/queue/queue.go:392-442 | admission is granted exactly to an active claim under which no other token is admitted; it shows what is durable, leaves it as it is, and lasts until its expiry or that of the lease |
| StageLaws.AdmissionRenewal | internal/queue/queue.go:470-484 | exactly the admitted token extends its admission, to exactly the new expiry |
| StageLaws.AdmissionKept | internal/queue/queue.go:413-429 | over a whole run before its expiry the admission stays with its token whatever others do, and only that token moves the expiry |
| StageLaws.AdvanceExactly | internal/queue/queue.go:487-509 | an advance is granted exactly under admission, along a valid transition, from the durable stage or as a repetition, which changes nothing; no other job changes |
| StageLaws.AdvancedForEver | internal/queue/queue.go:692-708 | after an advance, no run brings the job back to the stage it left |
| StageLaws.DispatchExactly | internal/queue/queue.go:512-526 | the dispatch state moves along a valid transition, under admission, and only from the state the caller named; nothing else changes |
| StageLaws.ReservedOnce | internal/queue/queue.go:512-526 | after a reservation no other one is granted over any run without a reset, to whatever claim and token |
| StageLaws.FailureExcludesSuccess | internal/queue/queue.go:529-569 | a failure is recorded exactly by an active claim while no success stage is durable; over every later run a failure stays recorded and no success stage becomes durable |
| CandidateLaws.CandidateCountsWebhooks | internal/queue/queue.go:39-72 | over every run of everybody but the reconciler, the generation of a candidate grows by exactly the number of webhooks, its priority is the highest of theirs and the earlier one, and its age stays |
| CandidateLaws.DiscardExactly | internal/queue/queue.go:97-117 | a discard with the generation that was read removes the candidate if and only if no webhook for its document came since, and touches nothing else |
| CandidateLaws.ResolveExactly | internal/queue/queue.go:120-161 | a resolve with the generation that was read takes effect if and only if no webhook came since: then the candidate is gone and its source has a row with at least its priority; otherwise nothing changes |
| Queue.Queue.NextCandidate | internal/queue/queue.go:75-94 | the candidate that is first by priority, age and document, or none when there is none |
| Queue.Queue.EnsureBatches | internal/queue/queue.go:301-335 | creates the plan once, row by row, and afterwards accepts only the same plan |
| Worker.AnyCalls | internal/worker/worker.go:184-223 | any number of calls of any workers on any claims, one after another with anything in between: all results for one job carry the same content |
| Checkpoints.OverlappingCalls | internal/worker/worker.go:184-223 | calls overlap in any way, all transactions forming one run: what one call returns after any part of it and another after any other part, for the same job, is the same content |
| Checkpoints.OneContentPerJob | internal/worker/worker.go:337-428 | all results that are ever returned for one job carry the same content, whether transcribed, resumed or reconstructed |
| Checkpoints.DenotesOne | internal/ocr/validate.go:133-154 | a stored checkpoint text stands for one batch only, even where it is too long to be read back |
| Checkpoints.FixedLater | internal/queue/queue.go:301-389 | content that the checkpoints determine stays determined under every later transaction |
| Worker.Worker.Process | internal/worker/worker.go:184-223 | a result carries the content that the durable checkpoints determine; an interruption has given the claim back; a fault is recorded |
| Worker.Worker.FromImages | internal/worker/worker.go:359-396 | plan, resume, transcribe and join end in content that the checkpoints determine |
| Worker.Worker.FromDocument | internal/worker/worker.go:337-358 | the whole-document path asks first and checkpoints afterwards; what it returns is what the checkpoint says |
| Worker.Worker.Collect | internal/worker/worker.go:368-387 | after the loop every planned row holds a text that stands for the collected batch, and the model was only asked for rows without a text, a bounded number of times each |
| Worker.Worker.Reconstruct | internal/worker/worker.go:399-428 | content rebuilt from completed rows only; any gap is reported as incomplete |
| Worker.Worker.Transcribe | internal/worker/worker.go:472-528 | asks the model a bounded number of times; what it accepts is a batch of exactly the range, and the text it hands on is the canonical text of that batch |
| Worker.Worker.Checkpoint | internal/worker/worker.go:530-539 | afterwards the row of the range holds exactly the canonical text |
| Worker.PlanRanges | internal/worker/worker.go:583-595 | the planned ranges, for every supported page count |
| Worker.PlanIsValid | internal/worker/worker.go:590-594 | the queue accepts the plan: from page 1 to the last page without gap or overlap |
| Worker.PlanPartitions | internal/worker/worker.go:590-594 | every page stands in exactly one planned range |
| Transcript.Join | internal/ocr/validate.go:274-320 | succeeds exactly for consecutive valid batches within the size limit, with exactly the announced size |
| Transcript.CheckBatch | internal/ocr/validate.go:435-450 | accepts exactly the valid batches that start at the expected page |
| Transcript.JoinIsDecodable | internal/ocr/validate.go:274-320 | a decoder that uses headers, byte counts and padding recovers the exact pages, even when a page imitates a header |
| Transcript.JoinIgnoresBatching | internal/ocr/validate.go:281-319 | two successful joins are equal exactly when their pages are, however they are batched |
| Canonical.Validate | internal/ocr/validate.go:78-130 | the passes of the code, with the loop over the pages, give the batch of `Validated`, whose acceptance `BatchGrammar.ValidatedExactly` characterizes by a declared grammar |
| BatchGrammar.ReaderIsExact | internal/ocr/validate.go:86-97 | the reader accepts exactly the texts that are written by a declared grammar: any spacing, any order of the fields, any escapes, each field at most once; and it gives exactly the pages that the text says |
| BatchGrammar.ValidatedExactly | internal/ocr/validate.go:78-130 | a raw text is accepted as a batch if and only if it has the right size, passes the scans, is a writing of that batch, and the batch is valid |
| Canonical.LiteralObjectKeys | internal/ocr/validate.go:171-200 | accepts exactly when no string that a colon follows is written with an escape, and every string ends |
| Canonical.ValidateCanonical | internal/ocr/validate.go:133-154 | the validated batch and its canonical text |
| Canonical.CanonicalRoundTrip | internal/ocr/validate.go:79-154 | revalidating a canonical form gives the identical batch if and only if it is at most 64 KiB, and is refused otherwise |
| Canonical.CanonicalMayBeRefused | internal/ocr/validate.go:79-154 | one page of n opening angle brackets is accepted as written, but its canonical form only up to n = 10914 |
| Canonical.AnyWritingIsAccepted | internal/ocr/validate.go:78-130 | whichever JSON escapes a text is written with, the raw batch is accepted as the same batch exactly when it is not too long |
| Canonical.CanonicalIsInjective | internal/ocr/validate.go:138-153 | different valid batches never share a canonical form |
| Canonical.DecodedTextTokens | internal/ocr/validate.go:146-153 | reading back a printed page text gives it byte for byte |
| Escapes.ValidJsonUnicodeEscapes | internal/ocr/validate.go:206-248 | the forward scan decides its recursive definition |
| Escapes.ValidateSurrogateEscapes | internal/aigate/capability.go:369-395 | the scan that looks back decides its recursive definition |
| Escapes.EscapedBackslash | internal/aigate/capability.go:397-403 | an odd number of backslashes stands before the position |
| Escapes.ParseHexCodeUnit | internal/ocr/validate.go:250-269 | the value of four hexadecimal digits, or none |
| Escapes.ForwardAcceptsExactly | internal/ocr/validate.go:206-248 | on every byte sequence: accepted exactly when it consists of gaps and well-formed strings with every surrogate paired |
| Escapes.ScannersAgree | internal/aigate/capability.go:369-403 | on texts of well-formed strings and backslash-free gaps both scanners accept exactly when every surrogate is paired |
| BatchGrammar.ScannersAgreeOnBatches | internal/aigate/capability.go:361-403 | on every text that the batch reader accepts the two scanners give the same answer, and every validated batch passes both |
| Reconcile.Reconciler.RunOnce | internal/reconcile/reconcile.go:99-219 | wherever a pass stops: no webhook is lost, every document behind the stored cursor has a job, the cursor only moves forwards within the limit, a blocked cursor stays, a complete scan has covered the whole archive, and the counts of removals and pages are exact |
| Reconcile.Reconciler.ResolveNext | internal/reconcile/reconcile.go:101-151 | a candidate is removed only if no webhook came after its document fetch began, and then it is enqueued, missing or without checksum |
| Reconcile.Reconciler.ScanPage | internal/reconcile/reconcile.go:157-216 | a page is enqueued completely before the cursor passes it by exactly one page; fingerprints stay distinct |
| Reconcile.RemovalAnswers | internal/reconcile/reconcile.go:112-146 | removing a candidate whose generation did not change answers its last webhook |
| Reconcile.ForeignRun | internal/queue/queue.go:39-72 | any run of other transactions keeps every webhook accounted for; an unchanged generation means no new webhook |
| Reconcile.Reconciler.StoredIsWellFormed | internal/reconcile/reconcile.go:228-250 | a stored cursor is never refused when it is loaded |
| Workspace.Changed | internal/pdf/workspace.go:215-309 | changing one reservation changes the total and the count by that reservation only |
| Workspace.SlotWithinTotal | internal/pdf/workspace.go:282-309 | a reservation never exceeds what is reserved, so the lower bounds at zero change no value |
| Workspace.Workspace.Reserve | internal/pdf/workspace.go:152-183 | succeeds exactly within the budget and the free space, and adds one live reservation |
| Workspace.Workspace.ReserveRemaining | internal/pdf/workspace.go:186-212 | reserves exactly what is left of the budget |
| Workspace.Workspace.Close | internal/pdf/workspace.go:379-396 | succeeds exactly when closed already, or nothing is live and the directory could be removed |
| Workspace.Reservation.Grow | internal/pdf/workspace.go:215-246 | grows exactly within the budget and the free space |
| Workspace.Reservation.Resize | internal/pdf/workspace.go:249-264 | succeeds exactly for a smaller size of a live reservation |
| Workspace.Reservation.Shrink | internal/pdf/workspace.go:267-279 | gives back at most what the reservation holds |
| Workspace.Reservation.Release | internal/pdf/workspace.go:282-294 | gives the bytes back and ends the reservation; the bounds at zero change nothing |
| Workspace.Reservation.Retain | internal/pdf/workspace.go:297-309 | ends the reservation and keeps its bytes charged |
| Workspace.OwnedFile.Write | internal/pdf/workspace.go:312-327 | a complete write without an error is charged exactly; any other one, also one that reports an error with all bytes accepted, gives everything back that was charged for the file |
| Workspace.OwnedFile.Close | internal/pdf/workspace.go:349-361 | a closed file stays charged; a failing close gives its bytes back |
| Workspace.OwnedFile.Abort | internal/pdf/workspace.go:364-376 | gives back all bytes of the file |
| Render.CollectRenderedPages | internal/pdf/render.go:195-248 | accepts exactly the complete page sets within the budget; the result is the first to the last page in order, and the final order check never fires |
| Render.SortedIsExact | internal/pdf/render.go:240-246 | as many distinct in-range numbers as the range has, sorted, are exactly the range |
| Render.RenderPages | internal/pdf/render.go:94-168 | succeeds exactly when collecting does and the rest does; the reservation is always given back and the resize cannot fail |
| SecureLog.ExactAccounting | internal/securelog/logger.go:125-146 | in every interleaving, calls equal written plus dropped plus queued plus in flight, and what is written is a prefix of what was accepted |
| SecureLog.StoppedIsFinal | internal/securelog/logger.go:198-234 | after the consumer stopped nothing is queued or in flight and nothing is written any more; without a failure everything accepted was written |
| SecureLog.AsyncLogger.Write | internal/securelog/logger.go:125-144 | accepts exactly while open, not failed and not full; everything else is counted |
| SecureLog.AsyncLogger.RunAsync | internal/securelog/logger.go:198-213 | the consumer loop with producers in between is one of the interleavings |
| SecureLog.AsyncLogger.GiveUp | internal/securelog/logger.go:202-210 | counts the failed entry and every queued one exactly once |
| SecureLog.AsyncLogger.Close | internal/securelog/logger.go:218-234 | seals the queue and waits while producers and the consumer go on; a success means that the consumer has stopped with nothing queued or in flight, and a timeout may be reported at any time |
| TimeText.TextOrderIsTimeOrder | internal/queue/queue.go:1084-1086 | for all instants of the years 0000 to 9999 text order is time order |
| TimeText.ParseInvertsFormat | internal/queue/queue.go:1084-1090 | parsing inverts formatting |
| TimeText.InstantOfCivil | internal/queue/queue.go:1088-1090 | every valid calendar time is the calendar time of its instant |
| Shutdown.CleanEndSettles | internal/app/app.go:364-463 | over every run of the loop and the shutdown, with signals and transactions anywhere: after a clean end every claim that ever committed is over or was reported as failed after the context had ended; all are over if and only if those are |
| Shutdown.LostClaimStaysOpen | internal/app/app.go:528-532 | for any job, owner and duration: a run with a clean end that leaves a committed claim open |
| Shutdown.RunKeepsInv | internal/app/app.go:525-588 | the invariant that accounts for every committed claim holds after every run |
| App.Service.Run | internal/app/app.go:301-463 | the code as a run of that protocol: after a clean end every committed claim is over or lost in the one way named, and over its whole life all content that it published for a job is one text |
| App.Service.Round | internal/app/app.go:525-588 | a turn of the loop is a run of the protocol, with signals before and after the claim call; it ends at the loop head, or with the context ended |
| App.Service.SettleShutdownClaim | internal/app/app.go:466-486 | reports success only when the claim is over |
| App.Service.FinalizeSuccess | internal/app/app.go:553-559 | everything that the finalizer publishes is this content of this job, which the checkpoints still determine afterwards; a success has completed the job |
| App.RunFinalizer | internal/app/app.go:262-268 | a finalizer on the shared queue, step by step with everybody else in between: it publishes nothing but the content it was given, a failure publishes nothing, and returning without error ends the claim |

## Left out

- Audit columns (updated and completed times, creation times of batches and finalizations): they are written but never read by any decision that is modelled.
- QueueSpec: SQLite itself, busy retries and rollback; a transaction is atomic and either commits or does not.
- QueueSpec: queue depth and activity queries, which change nothing and decide nothing here.
- Finalize: tokens are arbitrary strings; no result needs them to be fresh. The heartbeat is the renewals of other processes plus a lost-lease report that may come at any time.
- Finalize.Step: an external call is one step that makes it and one that sees its answer; what the remote service does in between is not modelled.
- App.RunFinalizer: runs the protocol steps themselves on the queue; that the code takes these steps is proved in `Finalizing`.
- Worker.Worker.Process: the flag that refuses a second concurrent call of one worker, since calls of any number of workers may overlap anyway; the SHA-256 of the download in the result.
- Worker.Worker.Transcribe: the delay between attempts and its jitter.
- Canonical.Validate: of the general JSON decoder only the batch grammar is modelled; what it refuses for another reason than the grammar or the checks is refused here as well.
- Canonical.Validated: the refusal-phrase heuristic is an arbitrary predicate on texts.
- Transcript: bounding the native draft, and prompts.
- Reconcile.Reconciler.RunOnce: the counts of documents seen and jobs created, and the limit on document ids; the fingerprint is any function that yields 64 hexadecimal digits. A single reconciler is assumed, because generations restart at 1 after a removal.
- Workspace: names, paths, permissions and the directory itself; free space is an input.
- Render.RenderPages: running the renderer; the callback does not touch the workspace.
- SecureLog: the synchronous logger, and the validity checks of single events; an entry is its line.
- TimeText.ParseTime: reads the fixed-width UTC form only, not offsets or shorter fields.
- App.Service.Run: health and readiness endpoints, metrics and the HTTP server; their failures are arbitrary. A worker loop that is cut off counts as not ended.
- Escapes: the probe of the model's capabilities around its scanner.
- Liveness under real time: only safety and termination measures are stated.
