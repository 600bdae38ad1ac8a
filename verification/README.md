# Podcast production: a verified model of the back end

This project models the parts of the system where several processes, or several
readings of the same text, have to agree, and proves that they do.

- **Jobs, leases and the queue.** Rows in the `jobs` table are the truth about
  background work; messages are wake-ups. `Jobs` and `Queue` hold the table and the
  visibility-timeout queue as mutable classes with their methods. `QueueRuns` proves the
  queue's promises over whole runs, `QueueClients` again when clients interleave between
  single Redis commands. `Protocol` puts rows, queue and workers together as a transition
  system; `RowChanges`, `RowHistories`, `Leases` and `Stranding` prove what holds of all its runs,
  `Recovery` what can still become of a job;
  `Worker` is the worker's own code, proved to make only such runs.
- **The grounding wall.** `Text` is normalisation, `Words` what a normal form says and what
  it means to find one in another, `Transcripts` the transcript and selection by time,
  `Grounding` the validator, `Quotes` the validator told in words, `Windows` what the model is shown, `Plan`
  what is saved, `EvalGates` and `Policy` the checks after it.
- **The transcript cache.** `ArtifactCache` is content-addressed storage shared between
  episodes through pointer rows, with deletion, at the grain of single transactions and
  single storage operations; `Uploads` is about the uploads beside them.
- **Submission, scheduling and stages.** `Submission` is idempotent job creation under concurrency
  and crashes, `SubmissionRuns` when its answers fail, `Completions` what they leave behind;
  `Schedule` is posting slots and the client's suggestions; `Workflow` is the
  stages and their history. `Rows` and `Wrappers` hold what several modules share.

Code that updates state in place is a class or a method with loops, proved equal to
functions on values; the lemmas are about those functions. A transaction, a Redis command
and a storage operation are single steps. Time is an integer clock passed as a parameter.

Where the code and its own documentation disagree, the model follows the code:

- `apps/worker/main.py:46-50` says the visibility timeout makes a killed job's retry safe.
  That depends on when the redelivery is claimed. Expiries are noticed only when some
  `receive` starts, and a receive waits up to twenty seconds (line 178); the row's lease is
  taken after the message's. A redelivery claimed before the row's lease has lapsed is
  acked, and nothing is left to run the job; a later one runs it, while an attempt is left
  (`Stranding.RedeliveryRecoversIff`). With the default timeouts, message and row lease of
  300 seconds each, both happen (`Stranding.CrashInHandlerStrands`,
  `Stranding.CrashInHandlerRecovers`). After a crash in the last attempt the redelivery is
  acked whatever the times (`Stranding.CrashOnLastAttemptStrands`). A job stranded so is
  lost (`Recovery.StrandedIsLost`).
- `apps/worker/main.py:129` is meant for failures of the handler; it also catches the ack
  at line 118, and then a durable success is turned back to failed
  (`Leases.RaisedAckUndoesSuccess`). A finisher whose lease has lapsed does the same
  (`Leases.StaleFinisherUndoesSuccess`; for the exact case `Leases.FinalUnlessOverwritten`).
- `edlo/ai/windows.py:20-23` says thirty seconds of overlap is longer than any cold open
  that would be accepted; `edlo/jobs/plan.py:130-132` accepts a minute
  (`Windows.WholeIffShort`).
- `edlo/services/deletion.py:1-6` promises that no live row is left without its object.
  That needs one more thing than rows going first (`ArtifactCache.DeletionSafeIffUnhurried`).
- `edlo/services/workflow.py:17-27` lists a move from `blocked` back to `registered`; no
  role owns it, so it cannot happen (`Workflow.PublishedLastRegisteredNever`).
- `apps/api/app/submit.py:52` says the job is created or found and the answer is 202. A
  retry after its record has expired finds the job and does not get its 202, however often
  it is tried (`SubmissionRuns.FailsForGood`); nor does a request sent twice at once, the
  second time (`SubmissionRuns.TwinsCollide`; for both, `SubmissionRuns.ServerErrorIff`). And one idempotency key used
  for the plans of two episodes answers the second with the first one's job
  (`Submission.KeyIsPerKind`).

## Model

Rows marked (direct) say what the definitions come to in other terms, or are corollaries of
a row before; Dafny needs no proof of their own.

| member | source | states |
|---|---|---|
| `Jobs.JobTable.ClaimJob` | edlo/jobs/__init__.py:50-67 | takes the named row if it is claimable, leaving every other row; answers with the row it took, or with nothing and an unchanged table |
| `Jobs.JobTable.ClaimNextJob` | edlo/jobs/__init__.py:70-88 | takes an oldest claimable row, and nothing exactly when no row is claimable |
| `Jobs.JobTable.ExtendJobLease` | edlo/jobs/__init__.py:91-97 | moves the expiry of a row only while it is running and owned by the caller |
| `Jobs.JobTable.Succeed` | edlo/jobs/__init__.py:100-110 | the whole table after a success, whoever owned the row |
| `Jobs.JobTable.Fail` | edlo/jobs/__init__.py:113-134 | the whole table after a failure: dead once the larger of receive count and attempt reaches the maximum, else failed |
| `Jobs.JobTable.Kill` | edlo/jobs/__init__.py:137-146 | the whole table after a permanent failure, with the wrapped cause's class and the message cut to 2000 characters |
| `Jobs.JobTable.StaleQueuedJobs` | edlo/jobs/__init__.py:149-165 | a page of the oldest untouched queued rows past the cutoff: at most 100, each once, and nothing left out is older than something on it |
| `Jobs.LeaseHolds` | edlo/jobs/__init__.py:38-97 | (direct) a lease taken or extended at some time keeps every claim out for exactly its length, and lets one in after that exactly while an attempt is left |
| `RowChanges.RowsChangeRightly` | edlo/jobs/__init__.py:38-146 | in every reachable state, for every event: exactly when it gives a job up, fails, finishes, takes or extends it, told from the row's columns and the message in hand, and the whole row after it |
| `RowChanges.NeverGivenUpEarly` | edlo/jobs/__init__.py:120-134 | (direct) in every reachable state: a transient failure with fewer deliveries and fewer attempts than the maximum leaves the job failed and claimable at any time, whichever of the two is larger; any other leaves it dead for good |
| `RowChanges.DeadForACause` | edlo/jobs/__init__.py:113-146 | over every run: a job that is dead at the end was given up in it by an unknown kind, a permanent failure, or a failure out of deliveries or attempts |
| `RowHistories.RowsRememberRightly` | edlo/jobs/__init__.py:38-146 | from any point of any run: a row keeps kind, payload, maximum and creation time and its first start, attempts only add up, and errors and times fit the status, late finishers included |
| `Protocol.AttemptBudget` | edlo/jobs/__init__.py:28-47 | in every run, whatever crashes, lapses or arrives twice: `attempt` is the number of won claims and never exceeds `max_attempts` |
| `Protocol.RowsKeepShape` | edlo/jobs/__init__.py:28-146 | in every run: running iff owned iff leased, queued means untouched, failed means claimable now, finished means timed and never claimable |
| `Leases.MutualExclusionIff` | edlo/jobs/__init__.py:50-67 | over every run: at most one live worker is ever between claim and mark for a job if and only if no claim wins a job that a live worker is still handling |
| `Leases.MutualExclusion` | edlo/jobs/__init__.py:50-67 | and then whoever handles a job owns its row |
| `Leases.KeptRunsLetNobodyIn` | edlo/jobs/__init__.py:91-97 | if no live worker's row lease lapses in the handler, no claim of the run does that |
| `RowChanges.BeatsKeepOthersOut` | apps/worker/main.py:65-79 | over every run: if, while a worker is in a handler, its claim and its row heartbeats are never more than a lease apart, no live lease lapses, nobody is let in, and no two live workers are on one job |
| `Leases.FinalUnlessOverwritten` | edlo/jobs/__init__.py:100-146 | in every reachable state, leases lapsed or not: a step changes the status of a finished row if and only if a finisher or a raising ack marks it otherwise |
| `Leases.FinishedForGoodIff` | edlo/jobs/__init__.py:100-146 | over every run: a finished status is never left if and only if no event of the run does that |
| `Leases.FinalUnlessAckRaises` | apps/worker/main.py:113-135 | while no second worker has been let in, only the ack after a success raising into the catch-all does that |
| `Leases.FinishedForGood` | edlo/jobs/__init__.py:100-146 | so runs that let nobody in and in which no ack raises never leave `succeeded` or `dead` |
| `Leases.LapsedLeaseRunsTwice` | edlo/jobs/__init__.py:33 | a reachable state with two workers in the handler of one job, after a lapse |
| `Leases.StaleFinisherUndoesSuccess` | edlo/jobs/__init__.py:120-134 | a reachable state in which the first of them fails the job that the second has finished: `succeeded` becomes `failed` |
| `Leases.RaisedAckUndoesSuccess` | apps/worker/main.py:114-134 | a reachable state in which a raising ack turns a succeeded row back to failed |
| `Stranding.NoJobStrandedIff` | apps/worker/main.py:82-143 | over every run that lets nobody in: every unfinished job is at every moment queued and untouched, or running with its holder's message in flight, or failed with a delivery still owed or a claim about to be made, if and only if every event is harmless; harmful are putting back the message of a running job, claiming with a message put back, marking failed with nothing owed, and losing the worker that runs a job or is the last to hear of a failed one |
| `Stranding.ForwardUnlessHarmed` | apps/worker/main.py:82-143 | the same for one step, of any kind |
| `Stranding.NoJobStranded` | apps/worker/main.py:82-143 | with message leases kept and jobs bounded by the queue's limit, only lost workers and raising acks can be harmful |
| `Stranding.FailingIsHarmless` | edlo/jobs/__init__.py:128-131 | a job turns failed, not dead, only with a delivery left for the message in hand: the point of taking the larger of receive count and attempt |
| `Stranding.RedeliveryRecoversIff` | apps/worker/main.py:96-104 | after a crash in the handler, a redelivery claimed any time after the message is visible again runs the job again if and only if an attempt is left and the row's lease has lapsed by then |
| `Stranding.CrashInHandlerStrands` | apps/worker/main.py:96-104 | after a crash in the n-th attempt, a reachable state with the job stranded: its redelivery was claimed before the row's lease lapsed, as can happen with the default 300 and 300 seconds, or no delivery was left, or no attempt was left; for all n, limits and delays |
| `Stranding.CrashInHandlerRecovers` | apps/worker/main.py:96-104 | in every other case a reachable state in which the redelivery runs the job again as attempt n + 1; with the default timeouts, for every delay of a second or more |
| `Stranding.CrashOnLastAttemptStrands` | edlo/jobs/__init__.py:28-35 | after a crash in the last attempt the row stays running and can never be claimed, whatever the timeouts |
| `Stranding.DrainingLastDeliveryStrands` | apps/worker/main.py:184-191 | draining a worker that holds the last delivery strands a job that can still be claimed, for every receive limit from two on |
| `Stranding.TooFewDeliveriesStrand` | edlo/queue/rq_queue.py:86-88 | so does every queue limit below the attempts a job may have |
| `Recovery.SucceedsIffRecoverable` | apps/worker/main.py:82-153 | after any run: a job can still succeed, in some continuation in which only the reconciler sends jobs, if and only if it has succeeded, or a worker is in its handler, or it has an attempt left, is not over (or an ack that may yet raise would revive it), and a message for it is waiting, leased or just received, or it is queued for the reconciler |
| `Recovery.WayForwardLeadsOn` | apps/worker/main.py:82-143 | so the way forward of `NoJobStrandedIff` is one: from every reachable state a job that has it and is not dead can still succeed, past whatever waits before it; a queued one if its kind is known and the limits allow a first try |
| `Recovery.StrandedIsLost` | apps/worker/main.py:146-153 | and a stranded job never succeeds, whatever follows, unless something else than the reconciler sends it |
| `Worker.Process` | apps/worker/main.py:82-143 | one call does to table and queue exactly what a run of the protocol does, for every outcome of the handler and whether or not the ack after a success raises |
| `Worker.Turn` | apps/worker/main.py:178-192 | one poll of the main loop, drain branch included, is a run of the protocol |
| `Worker.Reconcile` | apps/worker/main.py:146-153 | re-enqueues one page of stale jobs, each once, as a run of the protocol |
| `Queue.RQQueue.Enqueue` | edlo/queue/rq_queue.py:42-58 | a new message at the back, or in flight until its delay is over |
| `Queue.RQQueue.RequeueExpired` | edlo/queue/rq_queue.py:60-64 | moves exactly the expired handles to the front, earliest deadline first |
| `Queue.RQQueue.Receive` | edlo/queue/rq_queue.py:66-102 | the queue after noticing expiries and delivering or burying from the front, and what is handed out |
| `Queue.RQQueue.Ack` | edlo/queue/rq_queue.py:104-105 | removes the handle's entry and nothing else |
| `Queue.RQQueue.ExtendLease` | edlo/queue/rq_queue.py:107-108 | rescores an entry that exists and never creates one |
| `QueueRuns.CountIsOrdinal` | edlo/queue/rq_queue.py:84-91 | in every run the receive count of a delivery is its ordinal, so it strictly rises and a message is delivered at most `max_receive_count` times |
| `QueueRuns.NeverEarly` | edlo/queue/rq_queue.py:60-64 | in every run a message is handed out only when the last deadline written for its handle has passed |
| `QueueRuns.StaleHandleIsHarmless` | edlo/queue/rq_queue.py:104-108 | in every run the handle of an earlier delivery, or of an acked message, can neither remove nor extend anything |
| `QueueRuns.FinishedForGood` | edlo/queue/rq_queue.py:86-88 | an acked or dead-lettered message is never delivered again |
| `QueueRuns.FirstInFirstOut` | edlo/queue/rq_queue.py:51-64 | of two undelayed messages the earlier sent is first delivered first, across receives, expiries put back at the front, drains and acks |
| `QueueRuns.ReceiveIsARun` | edlo/queue/rq_queue.py:66-102 | what `receive` promises is one run of single steps, so the lemmas about runs are about it |
| `QueueRuns.CallsAreSteps` | edlo/queue/rq_queue.py:42-58 | so is what `enqueue`, `ack` and `extend_lease` promise, one step each |
| `QueueRuns.DeliversAsAsked` | edlo/queue/rq_queue.py:71-102 | `receive` hands out no more than asked, and less only when nothing waits |
| `QueueClients.ExactlyOnePlace` | edlo/queue/rq_queue.py:60-105 | with any number of clients interleaved between single Redis commands every message is in exactly one place; never duplicated, and never lost unless a client dies holding it |
| `QueueClients.CrashLosesExactlyWhatIsHeld` | edlo/queue/rq_queue.py:73-92 | a client's death loses a message if and only if it had popped or swept one and not yet put it back |
| `QueueClients.NeverEarlyUnlessSwept` | edlo/queue/rq_queue.py:60-64 | between commands too, no delivery before the last deadline, if no heartbeat extends a handle that a sweep has already listed |
| `QueueClients.EarlyDeliveryIff` | edlo/queue/rq_queue.py:60-64 | wherever a run without one has come to: a command can lead, in some further interleaving, to a message given out before its last deadline if and only if it is such a heartbeat and the message has a delivery left |
| `QueueClients.EarlyBurialIff` | edlo/queue/rq_queue.py:84-88 | and to a message dead-lettered before its last deadline if and only if it is such a heartbeat and the message has none left |
| `QueueClients.EarlyRedelivery` | edlo/queue/rq_queue.py:60-64 | for every receive limit from two on, a reachable state of the race in which a message with a live extended lease is about to be delivered again |
| `Text.NormalizeMonotone` | edlo/ai/grounding.py:34-43 | if x occurs in y then normalised x occurs in normalised y, for every x, y and table of characters |
| `Text.NormalizeIsNormal` | edlo/ai/grounding.py:42-43 | a normal form is words and apostrophes, one space between, none around |
| `Text.SmartQuotesAgree` | edlo/ai/grounding.py:35-41 | texts that differ only in smart and straight quotes have one normal form |
| `Words.CaseMakesNoDifference` | edlo/ai/grounding.py:42 | texts that differ only in case have one normal form |
| `Words.SpellingOutMakesNoDifference` | edlo/ai/grounding.py:40 | nor does it make a difference to write ligatures and the like out |
| `Words.NormalTextIsKept` | edlo/ai/grounding.py:40-43 | a text of lower-case words and apostrophes with single spaces is its own normal form |
| `Words.NormalFormIsWords` | edlo/ai/grounding.py:34-43 | a normal form is the words of the decomposed, straightened, lower-cased text, its maximal runs of word characters and apostrophes, in order, with one space between |
| `Words.WordsBreak` | edlo/ai/grounding.py:42 | any other character, and nothing else, separates words |
| `Words.FoundIff` | edlo/ai/grounding.py:70-85 | one normal form occurs in another if and only if the words of the one are consecutive words of the other, the first perhaps the end of one and the last the beginning of one |
| `Transcripts.AcceptedIffValid` | edlo/transcription/schema.py:25-40 | checking neighbours accepts exactly the artifacts whose segments are well-formed, in order, apart and within the audio |
| `Transcripts.ReportedDefect` | edlo/transcription/schema.py:11-40 | which defect is reported: the first bad segment, then the first bad pair of neighbours, out of order before overlapping, and only then the end |
| `Transcripts.SelectedIsSlice` | edlo/transcription/schema.py:42-46 | the segments selected by an interval are one contiguous slice, from the first not yet ended to the last begun |
| `Transcripts.TextBetweenGrows` | edlo/transcription/schema.py:42-46 | the text of an interval occurs in the text of every wider one |
| `Transcripts.SliceInText` | edlo/transcription/schema.py:42-46 | consecutive segments are spoken, verbatim, within any times that enclose them |
| `Transcripts.SpokenAt` | edlo/transcription/schema.py:42-46 | every segment's text stands in the joined text verbatim and in its place, a space from its neighbours |
| `Quotes.SpokenWords` | edlo/transcription/schema.py:42-46 | the words of the joined text are those of the segments, in order: no word runs across two |
| `Grounding.Validate` | edlo/ai/grounding.py:46-98 | the loop computes the kept and the rejected list that the lemmas below are about |
| `Grounding.ValidatorSound` | edlo/ai/grounding.py:57-98 | kept candidates passed every rule, most confident first and within the cap; each rejection carries the first rule it breaks, or gave way to a full and at least as confident list |
| `Grounding.NothingLost` | edlo/ai/grounding.py:53-98 | kept and rejected are, as multisets, the candidates |
| `Grounding.KeptIsStableTop` | edlo/ai/grounding.py:96-98 | kept is the top of the one order of the passing candidates that descends and keeps ties in place |
| `Grounding.LocalImpliesGlobal` | edlo/ai/grounding.py:70-85 | a quote found at its timecode is found in the transcript: rule 3 implies rule 2 |
| `Grounding.WiderStillGrounded` | edlo/ai/grounding.py:79-85 | widening a candidate's span never loses its quote |
| `Grounding.ExcerptPasses` | edlo/ai/grounding.py:57-92 | a verbatim excerpt of consecutive segments, cited at their times, passes if and only if it is neither too short nor too long |
| `Grounding.ExcerptKept` | edlo/ai/grounding.py:57-98 | so `validate` keeps it unless the cap is full, and rejects it for nothing else |
| `Quotes.JudgedByWords` | edlo/ai/grounding.py:57-92 | what `validate` says of a candidate, in words and times alone: the six rules in order, over the segments heard within two seconds of its span |
| `Quotes.FabricatedIsRejected` | edlo/ai/grounding.py:70-77 | a quote with a word that is said nowhere, not even within a longer word, is never kept, whatever else is in it |
| `EvalGates.GatesHold` | edlo/evals/run.py:80-110 | the quote, timecode and flag gates hold for every case, and the human items are the flags, first and in order; the range gate holds iff every flag is in range; the cap gate iff the cold-open cap is not negative |
| `EvalGates.CutsFillTheRest` | edlo/ai/grounding.py:114-147 | (direct) after the flags come the most confident passing cuts, as proposed, as many as there are up to the places the flags leave under the cap |
| `EvalGates.PlansPassTheGates` | edlo/jobs/plan.py:126-148 | what is saved as a plan is what the gates are about, so they hold of it; and its candidates are what it kept and what it counts as rejected |
| `Policy.CheckPack` | edlo/services/policy.py:24-39 | the loops report the violations that the lemmas below are about, in order |
| `Policy.ReportedIffViolated` | edlo/services/policy.py:28-38 | a violation is reported if and only if there is one |
| `Policy.AllowedIffOurs` | edlo/services/policy.py:28-31 | a link passes if and only if its host is one of the three domains or lies under one; dropping `www.` makes no difference |
| `Policy.UnverifiedIffNotSaid` | edlo/services/policy.py:32-35 | a sponsor is reported if and only if its words are not said one after another |
| `Policy.SpokenSponsorNeverFlagged` | edlo/services/policy.py:32-35 | a sponsor named verbatim in the transcript, within a segment or across several, is never flagged |
| `Policy.EqualsSortedIff` | edlo/services/policy.py:36-38 | comparing with the sorted list asks whether the list ascends |
| `Windows.MakeWindows` | edlo/ai/windows.py:14-35 | the loop ends when windows advance, and returns the windows that the lemmas below are about |
| `Windows.WindowsInOrder` | edlo/ai/windows.py:25-35 | windows are numbered, strictly advance, start at multiples of window minus overlap, and hold exactly a contiguous slice of the segments |
| `Windows.EverySegmentIsShown` | edlo/ai/windows.py:27-34 | every segment is in some window |
| `Windows.MomentsAreWhole` | edlo/ai/windows.py:20-24 | a moment with speech, no longer than the overlap plus a millisecond, lies in one returned window with everything said in it |
| `Windows.WholeIffShort` | edlo/ai/windows.py:20-24 | that bound is exact, so not every cold open that validation accepts, up to a minute, is seen whole |
| `Windows.ShownOnceUnlessCrossing` | edlo/jobs/pack.py:35 | without overlap a segment is in more than one window if and only if it crosses the start of a window |
| `Windows.WindowQuotesPass` | edlo/ai/windows.py:29 | a quote from what one window shows, cited at its segments' times, passes the wall |
| `Plan.Propose` | edlo/jobs/plan.py:63-95 | a window counts with both its answers or with neither |
| `Plan.CandidatesAreProposed` | edlo/jobs/plan.py:63-126 | the candidates are those of the windows with both answers, with the model off none |
| `Plan.InputsMean` | edlo/jobs/plan.py:98-112 | the plan is made from the episode's newest transcript and all of its flags and nobody else's; none exactly without a transcript |
| `Plan.PlanRowsMean` | edlo/jobs/plan.py:142-183 | the plan's row, with each rule's count, the cuts and cold opens numbered in order, and the checklist |
| `Plan.PlanAccountsForEverything` | edlo/jobs/plan.py:129-148 | what was proposed is the model's cuts, the cold opens and the rejection counts, added up; with the model off all are zero |
| `Plan.ByStartRight` | edlo/jobs/plan.py:106-112 | the plan is made from every flag of the episode, once, in the order of their starts |
| `Plan.PlanStore.SavePlan` | edlo/jobs/plan.py:114-189 | all four tables and the episode's stage after a plan is saved |
| `Plan.PlanStore.GeneratePlan` | edlo/jobs/plan.py:98-189 | fails and changes nothing exactly when there is no transcript; otherwise the episode has one plan, made from its newest transcript and its own flags; other episodes keep theirs; the checklist is seeded once |
| `ArtifactCache.AlwaysServed` | edlo/jobs/transcribe.py:43-142 | in every run with handlers, crashes, unhurried deletions and failed storage deletes interleaved, each transcript row leads to the artifact for its checksum, is its own audio's and episode's, and its episode has left `registered` |
| `ArtifactCache.DeletionSafeIffUnhurried` | edlo/services/deletion.py:24-49 | a deletion can never lead to a broken pointer if and only if no handler is between finding an artifact that it orphans and inserting its own pointer |
| `ArtifactCache.RunReadsAsPlain` | edlo/jobs/transcribe.py:47-70 | shared artifacts are invisible: over any run, what readers find is what a plain store, going its own way with an artifact of its own for each audio file, would hold |
| `ArtifactCache.NothingLeaksIff` | edlo/services/deletion.py:29-43 | a step leaves an artifact accounted for by nothing if and only if it is a crash of its only account between upload and insert, an upload for deleted audio, a deletion of the episode between upload and insert, or a failed storage delete |
| `ArtifactCache.AlwaysCleanIff` | edlo/services/deletion.py:29-43 | over any run, every stored artifact is accounted for at every moment if and only if no step is one of these |
| `ArtifactCache.StoredIffReferenced` | edlo/services/deletion.py:29-43 | after such a run, once nothing is underway, a transcript object is stored if and only if some row points at it |
| `ArtifactCache.NeverTranscribedAgain` | edlo/jobs/transcribe.py:43-70 | once some audio with these bytes has its row, the engine never sees the bytes again, whatever is deleted, as long as no deletion takes the last row with their checksum |
| `ArtifactCache.TranscribedAgainIff` | edlo/jobs/transcribe.py:43-70 | a deletion can lead to the bytes being transcribed again if and only if it takes that last row |
| `ArtifactCache.LookMeans` | edlo/jobs/transcribe.py:43-70 | what a look-up finds: the newest row for the bytes decides, and the handler's own leaves nothing to do |
| `ArtifactCache.Archive.TranscribeAudio` | edlo/jobs/transcribe.py:24-142 | one call is a run of the steps; it runs the engine exactly when no row has the checksum, and if it succeeds the audio has its row |
| `ArtifactCache.Archive.DeleteEpisode` | edlo/services/deletion.py:24-49 | refuses a published episode; otherwise removes its rows and returns, each once, its uploads and the artifacts only its rows point at |
| `ArtifactCache.Archive.RemoveEpisode` | apps/api/app/routes/episodes.py:136-163 | after rows are gone, exactly the returned objects whose deletion did not fail are gone |
| `ArtifactCache.RemovalIsARun` | apps/api/app/routes/episodes.py:145-155 | removal, with any set of failing deletes, is a run of the steps and keeps the invariant |
| `ArtifactCache.PublishedKept` | edlo/services/deletion.py:26-27 | in every run a published episode stays published and keeps its audio and transcript rows, each leading to its artifact |
| `Uploads.UploadsAlwaysThere` | edlo/services/deletion.py:29-49 | in every run, whatever is deleted, hurried or not, and whichever storage deletes fail: while an audio row with a finished upload lives, its bytes are in storage and not about to go |
| `Uploads.UploadsLeakIff` | apps/api/app/routes/episodes.py:145-155 | over every run: no upload is ever left in storage without its row or a deletion underway if and only if no storage delete of an upload fails |
| `Uploads.UploadStoredIffAlive` | edlo/services/deletion.py:29-49 | after such a run, with no deletion underway, an upload is stored if and only if its row lives |
| `Uploads.StageMoves` | edlo/jobs/transcribe.py:116-142 | (direct) no step moves an episode but people's moves and its first transcript, which takes it from registered to mixing |
| `Uploads.MovesArePermitted` | edlo/services/workflow.py:50-86 | (direct) so every move is one that the workflow permits, to the mover or the system |
| `Submission.OneJobPerAudio` | apps/api/app/submit.py:39-81 | over any interleaving of requests, retries and crashes, however old the records: at most one job and one message for an audio file, and every 202 names that job |
| `Submission.ReplayedForADay` | apps/api/app/idempotency.py:24-36 | through any run, a remembered request gets the very same response for 24 hours, and its key with another body is refused |
| `Completions.AcceptedMeansReady` | apps/api/app/routes/audio.py:144-156 | over every interleaving and for good: the file of an accepted completion is ready and its episode's, and so is the file of every transcribe job, which is a rough mix besides |
| `Completions.OnItsOwn` | apps/api/app/routes/audio.py:126-184 | one request on its own that is not remembered: the first objection in the route's order, or the file ready and no other touched, the job new and announced or there already; and exactly when it is answered 500 |
| `SubmissionRuns.ServerErrorIff` | apps/api/app/submit.py:60-80 | in every interleaving: a request that looked and passed its checks is answered 500 if and only if its own expired record is there, put back by the rollback that found its job, or another request with its key and route has committed one since; otherwise it gets its answer |
| `SubmissionRuns.TwinsCollide` | apps/api/app/submit.py:79-80 | the second cause: the same first request sent twice at once, with nothing expired |
| `SubmissionRuns.CrashLeavesUnsent` | apps/api/app/submit.py:60-75 | a request that dies between its job's commit and the message leaves a job without one; tried again it is accepted as a replay, and still sends none: the reconciler's case |
| `SubmissionRuns.FailsForGood` | apps/api/app/submit.py:64-67 | after a request has failed on its own expired record: through any run, until a request with its key and route replaces the record, and only that does, no request with its key and route is accepted, those already in the middle of it included; and tried on its own at the end it is answered 500 if and only if its checks pass |
| `SubmissionRuns.OwnRetryReplacesNothing` | apps/api/app/submit.py:64-67 | (direct) a retry of it never does; only a request for another audio file can |
| `SubmissionRuns.PlanFailsForGood` | apps/api/app/routes/plans.py:73-89 | so after a plan or pack request has failed so, none with its key and route is ever accepted, whatever runs, and one tried on its own is answered 500 |
| `Submission.FirstTimeAccepted` | apps/api/app/submit.py:53-81 | uninterrupted, a passing request without a record is accepted, and announces its job if and only if no earlier request created it |
| `Submission.KeyIsPerKind` | apps/api/app/routes/plans.py:78-89 | over any run, the job in a 202 to a plan or pack request, replayed or not, is its own episode's if and only if no other episode's job of the kind has the key |
| `Submission.Api.CompleteUpload` | apps/api/app/routes/audio.py:110-184 | uninterrupted, the route with its commits and rollbacks is the requests' steps, answer and tables |
| `Submission.Api.GenerateJob` | apps/api/app/routes/plans.py:60-91 | the same for the plan and pack routes: uninterrupted, the route is the requests' steps, answer and tables |
| `Submission.Api.SubmitJob` | apps/api/app/submit.py:39-81 | row first, message after, response last, with the rollback's effect on the pending delete |
| `Submission.Api.Lookup` | apps/api/app/idempotency.py:24-36 | the stored response, a refusal, or none with the expired record deleted but not committed |
| `Submission.Api.Remember` | apps/api/app/idempotency.py:39-48 | inserts the record, or fails and rolls back when the key is taken |
| `Workflow.Episode.Transition` | edlo/services/workflow.py:50-86 | refuses exactly the unknown, the unlisted and the unowned moves, in that order; records every other, so that the history stays a path from `registered` to the current stage |
| `Workflow.LegalIff` | edlo/services/workflow.py:17-27 | (direct) the table of moves as a rule: one stage forward, one back once there is a plan, out of the way and back short of the last |
| `Workflow.OwnersIff` | edlo/services/workflow.py:29-37 | (direct) the table of owners as a rule: the audio editor until the mix is in, the video editor after that, the owner all, and alone the last |
| `Workflow.PublishedLastRegisteredNever` | edlo/services/workflow.py:19-37 | in every history an episode is published at most once, last, by an owner, from review; and `registered` is never entered again, though line 26 lists the move |
| `Workflow.SkippedOnlyByResuming` | edlo/services/workflow.py:19-27 | (direct) stages are first reached one after another if and only if no resumption from `blocked` skips one |
| `Workflow.AllStagesPassed` | edlo/services/workflow.py:19-27 | then every stage up to the furthest lies in the history |
| `Workflow.PublishedFromNothing` | edlo/services/workflow.py:26 | a history that is published with no mix, plan or edit behind it |
| `Schedule.RunKeepsConsistent` | edlo/services/schedule.py:32-49 | over any run of registrations, reassignments, refusals and deletions, publish_on is exactly the one slot an episode holds |
| `Schedule.ConsistentMeans` | edlo/models.py:58-64 | (direct) no two episodes share a date and no episode holds two |
| `Schedule.NextFreeSlot` | edlo/services/schedule.py:51-56 | ends at the least free date of the cadence, for any cadence but one of zero days on a taken date |
| `Schedule.RegisterFailsIffPast` | apps/api/app/routes/episodes.py:44-55 | (direct) registration never finds its date taken, and fails if and only if the first free date is past |
| `Schedule.SetSlotFailsIff` | apps/api/app/routes/episodes.py:109-122 | (direct) reassignment fails exactly on a past date or another episode's, and frees exactly the old date |
| `Schedule.ScheduleService.Assign` | edlo/services/schedule.py:32-49 | the new slots and publish_on; a refusal changes nothing |
| `Schedule.ScheduleService.CreateEpisode` | apps/api/app/routes/episodes.py:44-55 | registers at the first free date or not at all |
| `Schedule.ScheduleService.DeleteEpisode` | edlo/services/deletion.py:24-49 | frees the episode's date and no other |
| `Schedule.PublishedForGood` | edlo/services/deletion.py:26-27 | once an episode is published no run of requests removes it |
| `Schedule.SuggestedSlots` | apps/web/src/lib/dates.ts:58-70 | the first dates, as many as asked, among the first 200 of the cadence that are free and not past |
| `Schedule.FirstSuggestionIsServers` | apps/web/src/lib/dates.ts:53-70 | the client's first suggestion is the server's choice if and only if that is not past and within 200 steps |
| `Schedule.SuggestionsAccepted` | apps/web/src/lib/dates.ts:53-57 | the server accepts whatever the client suggests |

## Left out

- Stranding.NoJobStrandedIff: about runs that let no second worker in; what exactly lets one in is `Leases.MutualExclusionIff`.
- Recovery.SucceedsIffRecoverable: says that a job can still succeed, not that a fair scheduler makes it; scheduling is not modelled. Continuations in which the API or an operator sends the job are left out on purpose: they can always help.
- Acks that raise: after a success they are steps of the protocol and leave the queue as it was; one that raises after Redis has carried it out is not modelled. An ack that raises after a permanent failure or a refused claim ends the worker's process, and is a crash.
- ArtifactCache.AlwaysServed: stated for runs in which each deletion is unhurried, that is, orphans no artifact that a handler has found and not yet pointed at; `DeletionSafeIffUnhurried` shows that condition to be exact. The same goes for `RunReadsAsPlain`, `PublishedKept` and the lemmas on leaks over runs.
- ArtifactCache.NewestMeans: rows inserted at the same instant are ordered by insertion.
- Plan.ByStartRight: flags that start together are in the order of their rows, which the query leaves open.
- Schedule.NextFreeSlot: a cadence of zero days on a taken date, for which the loop would not end, is excluded by a precondition; nothing calls it so.
- Schedule.RegisterFailsIffPast: requests to the schedule run one after another; two registrations at once may find one date taken.
- Windows.MakeWindows: requires an overlap shorter than the window, without which the loop would not end.
- Submission.Api.CompleteUpload: the expired record is deleted and re-inserted by one session; locks that would make a second session wait are not modelled.
- The heartbeat thread's timing: heartbeats are steps that may happen at any time, late ones included; `RowChanges.BeatsKeepOthersOut` says how late they may be.
- Uploads that are never completed: in the model an upload's bytes are in storage from its completion on.
- `FOR UPDATE SKIP LOCKED`: claims are atomic, so a claim that skips a row another transaction has locked is a claim made a moment later. `claim_next_job` has no caller in the worker.
- Random message, job and episode ids are counters, so they never collide; 32-character checksum prefixes and request fingerprints never collide either.
- The character tables of Unicode: what a character decomposes to, its lower case, and what counts as a word or space character are parameters. Where it matters they are assumed to leave a plain space and the quotation marks as they are, and to count no space as part of a word. Reordering of combining marks and context-dependent lower-casing are not modelled.
- URL parsing: the host of a link is a parameter. The `detail` texts of rejections are left out; those of violations are kept where they name the link or sponsor.
- The language model is any list of candidates for each window, or an invalid answer; its retries and prompts are left out. The speech engine is a function of the checksum, and engine and model version are constant.
- `RQQueue.depth`, which nothing calls.
- S3, SQS, presigned URLs, downloads to scratch files, progress reports, logging, settings, roles and HTTP.
- Deletion of jobs, plans, flags and packs with an episode, beyond the job rows in `Protocol`; submission runs without deletions.
- The rest of the evaluation runner: soft checks, reports and counters; the React client apart from `suggestedSlots`; calendar arithmetic, since dates are day numbers.
