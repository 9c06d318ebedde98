# ADP verification model

ADP dispatches operations jobs to workers. A language model plans the work
through an agent loop, people approve risky jobs, and workers receive them over
streams. This Dafny project models the small concurrent state machines and the
stateful loops at the centre of that system and proves what they keep over all
inputs, all interleavings and all runs.

`dafny verify dfyconfig.toml` checks the whole project.

## How the model is laid out

| files | part of the system |
|---|---|
| `Basics.dfy`, `Routing.dfy` | strings as byte sequences, Go's string order, trimming, the worker routing rule and what it means |
| `Ids.dfy` | `prefix-%06d` ids, seeding the counter at start-up, string order against numeric order |
| `Jobs.dfy` | the `jobs` table, one method and one row function per SQL statement |
| `ControlPlane.dfy`, `ControlPlaneRuns.dfy` | the job handlers as interleaved processes with stale local reads, and how runs of them are built |
| `ControlPlaneSafety.dfy`, `ControlPlaneGate.dfy`, `ControlPlaneHistory.dfy`, `ControlPlaneCreation.dfy` | approval safety, decisions and completions, and idempotent creation, over whole runs |
| `ControlPlaneRows.dfy`, `ControlPlaneRequests.dfy`, `ControlPlaneServing.dfy` | what the rows say about the log of a run, where every event comes from, and what the handlers get done |
| `Hub.dfy`, `HubRuns.dfy` | the registry of worker streams: channels, reconnects, late unregisters |
| `Slices.dfy`, `AgentProtocol.dfy`, `AgentTheorems.dfy`, `AgentOutcome.dfy`, `AgentPayload.dfy`, `AgentRun.dfy`, `AgentChain.dfy`, `AgentRecovery.dfy` | the agent loop and the durable run observing it, on Go slices that may share a backing array; what a legal session is, why it ends, what its payloads show, and what every session, every chain of paused sessions and every run with crashes and failures keeps |
| `LlmStream.dfy`, `LlmAnswers.dfy` | assembly of a streamed model answer from any cuts, compared with the non-streaming path |
| `Scheduler.dfy`, `SchedulerHistory.dfy` | the in-memory store: selection over a map, at-most-once claiming, FIFO, and what its jobs say about a run |
| `Sanitize.dfy` | recursive sanitization of nested values, and which names are secret |
| `Services.dfy`, `ServiceFiles.dfy`, `ServicePrint.dfy`, `ServiceSpelling.dfy` | the `services.cnf` parser, which files it accepts, and reading back what is printed or spelled in any way |
| `Placeholders.dfy`, `PlaceholderOrder.dfy`, `PlaceholderCommands.dfy` | sequential placeholder substitution in commands, and when its order can be seen |
| `ConfigSync.dfy`, `ConfigSyncTheorems.dfy`, `ConfigSyncReport.dfy` | reconciling configuration files with stored ones, and what the report and the saved rows say |
| `EventReplay.dfy` | the event log of a run and its replay to clients that reconnect |

Three kinds of contract carry the results. Methods and classes that change state
are proved against specification functions or relations (`Jobs.JobTable`,
`Hub.Registry`, `AgentRun.Recorder`, `Scheduler.Store`, `Services.ServiceCatalog`,
`ConfigSync.Repository`, `EventReplay.EventStore`). Loops of the program are
methods with invariants. The theorems are lemmas about the specification side,
for every run or every input.

In the control plane a run is any list of labels: a request arrives, one handler
takes one step, other tables draw ids, or the server restarts, loses every
handler and seeds its id counter with any number. One SQL statement is one step, so between a handler's read and its next
write anything may happen. Any statement may fail.

In the agent model the model's answers, the tools' outputs and the repository's
success are arbitrary at every call, and a call of the model or the repository
that fails is an event of the log. The heap-level methods of `AgentRun` are
proved to produce only the legal logs of `AgentProtocol`; the theorems of
`AgentTheorems`, `AgentOutcome`, `AgentChain` and `AgentRecovery` are about every
legal log.

Many results are stated without the functions that the model computes with: who
may run what (`Routing.Suits`), which names are secret (`Sanitize.Secret`), how a
line may be spelled (`ServiceSpelling.Writes`), how an answer is cut
(`LlmAnswers.CutInto`), and what a row shows (`ControlPlaneRows.Shows`).

## What holds only under a condition

These are properties one might expect of the code that it has only in part. Each
is proved with its exact condition or shown with its failing family.

- The approval gate holds over all runs if and only if no call can be told that it
  needs approval, or no idempotency key can meet two different policy answers and
  no restart seeds the id counter below a stored job
  (`ControlPlaneGate.ApprovalGateHolds`). With a conflict, an operation that needs no
  approval finds the waiting job of one that did and assigns it (`ConflictRun`).
  With a low seed, a job id is drawn again while a dispatch of the deleted job is
  still about to write, and the write sets the new, waiting job running (`ReuseRun`).
  The program accepts a low seed silently when the query of the jobs table fails
  (`internal/infrastructure/db/postgres.go:79`). The cast in the query fails exactly
  for a job number that does not fit a BIGINT, and a query that succeeds covers the
  stored jobs (`SeedingCovers`, `Ids.SeedCounter`). The query may also fail for reasons
  outside the table; `covered == false` stands for all of them. Keys do not collide
  for generated run and worker ids (`KeyNamesCall`).
- All calls under one idempotency key return one job while it exists, over all
  runs, if and only if seeds cover the stored jobs or no call carries a key
  (`ControlPlaneCreation.CreateJobIdempotent`; the failing run is `TwoJobsRun`).
- A job row read back has no idempotency key, because the read does not select
  that column (`internal/infrastructure/db/postgres.go:382-387`), so the clones a
  dispatch makes carry none. Two dispatches of one pending job to the same workers
  each leave a clone, and the two are equal in every column but the id
  (`ControlPlaneCreation.DispatchedTwice`).
- Saved transcripts lose the names and arguments of tool calls, which are not
  encoded (`internal/infrastructure/llm/client.go:24-28`). A transcript comes back
  as it was saved exactly when no call in it carries either
  (`AgentChain.StoredForm`).
- The step a session resumes at follows from its answers exactly when it had an
  answer or started at step 1; otherwise it falls back to 1
  (`AgentChain.NextStepFallsBack`, and `FirstRequestFails` for every later start).
- A chain of pauses stays within `maxSteps` requests. A crash makes the run start
  over at the crashed session's own first step, and a failure before the first
  answer at step 1, so each of them adds up to `maxSteps` requests; any other
  failure adds one (`AgentRecovery.RecoveryBudget`). With crashes the bound is
  reached for every `maxSteps` and every number of crashes (`BudgetReached`).
- Inside a session the model is asked only when all calls of its last message are
  answered. After a pause the next session asks with them answered up to the call
  the pause came at, so all are answered exactly when that was the last
  (`AgentChain.ResumedAnswers`).
- Seeding skips a table in which some numeric suffix does not fit a BIGINT. New
  ids are new exactly when no skipped table holds an id that consists of a prefix,
  a dash and the padded digits of a number above the seed
  (`Ids.SeededIdsAreNew`).
- Ids compare as numbers up to 999999 and no further (`Ids.StringOrder` gives the
  exact rule), which bounds the first-created-first-served result. That result orders
  creations that do not overlap; overlapping ones may draw numbers and read the
  clock in different orders.
- Streaming and non-streaming answers agree exactly when every call has an id and
  a name, or some call's arguments are invalid JSON: only the streaming path
  rejects an empty id or name (`LlmAnswers.StreamingAgrees`).
- For parameters whose keys contain no braces, the order of the loop over the map
  is visible unless the values meet a condition, and the condition depends on the
  commands. For commands whose literals contain no '{', every order gives the
  simultaneous substitution if and only if the values are separate: no value
  contains another key's placeholder or ends in two or more characters of its
  beginning, and no value ends in a brace that another value can continue to it,
  unless that placeholder stands for itself (`PlaceholderOrder.OrderFreeIffSeparate`).
  For arbitrary commands it does so if and only if no value overlaps another key's
  placeholder at all, at either end or inside, under the same exception
  (`PlaceholderCommands.AnyCommandIffApart`); `LiteralBraceShows` is a family of
  separate values whose order an arbitrary command shows.
- An enforce-mode sync makes the store agree with every file exactly when files
  with the same kind and id have equal hashes; with several files under one key
  the last one wins. A second sync saves nothing exactly when moreover all its
  lookups succeed (`ConfigSyncTheorems.EnforceAgrees`, `LastWins`,
  `SecondSyncQuiet`).
- A failed lookup counts as a missing row
  (`internal/interfaces/http/server.go:228-235`). Missing mode therefore saves
  over an existing entry exactly when looking it up failed for some file
  (`ConfigSyncTheorems.MissingChangesNothing`).
- Sanitizing is idempotent on all maps exactly when it is on all texts
  (`Sanitize.Idempotent`), and on texts when redaction leaves sanitized text alone
  (`Sanitize.TextIdempotent`). The program's own pattern
  (`internal/domain/model/sensitive.go:11`) does not meet that hypothesis: 4090 times `a`
  followed by `token ,` are cut to end in `token …[truncated]`, which the pattern
  matches, so a second sanitizing changes the text again.

## Model

| member | source | states |
|---|---|---|
| `Routing.CanRunExactly` | internal/domain/model/worker_type.go:6-17 | a worker may run a job exactly when its type is shell, or both types are the same non-empty name, in letters of any case and with any blanks around it |
| `ControlPlaneGate.ApprovalGateHolds` | internal/interfaces/http/agent.go:386-464 | over every interleaving of create, dispatch, approve, reject, delete, assign-next and complete handlers with stale locals and restarts, a job that needs approval is never pending, running, succeeded or failed unless approved, nor cancelled unless rejected, and every pushed job was released, if and only if no call can be told that it needs approval, or restarts never seed below a stored job and no idempotency key can get both policy answers |
| `ControlPlaneSafety.ReachableInv` | internal/interfaces/http/job.go:221-290 | without a key conflict or a seed below a stored job, every reachable state keeps the invariant behind the gate: the rows, the key discipline and what every handler may still do with the row it read earlier |
| `ControlPlaneSafety.AssignNeedsRelease` | internal/infrastructure/db/postgres.go:544-548 | assignment has no status guard, so one assignment keeps the gate exactly when the row it hits needs no approval or has it |
| `ControlPlaneGate.ConflictRun` | internal/interfaces/http/agent.go:442-460 | if one key can get both answers, a legal run whose seeds all cover ends with an unapproved job running |
| `ControlPlaneGate.ReuseRun` | internal/infrastructure/db/postgres.go:79 | for any operation with one worker that the policy may gate, a restart that seeds with 0 leads a legal run to an unapproved job running, through a late write to a reused id |
| `ControlPlaneGate.SeedingCovers` | internal/infrastructure/db/postgres.go:76-85 | the cast in the jobs query fails exactly for a job number that does not fit a BIGINT, and a seed covers the table exactly when it covers the stored jobs; other failures of the query are not about the table |
| `ControlPlaneGate.KeyNamesCall` | internal/interfaces/http/agent.go:573-579 | the keys of generated runs and workers are equal exactly for the same run, call and worker, whatever text the model sends as call id; there is no key exactly without a call id or outside a run |
| `ControlPlaneHistory.JobDecidedAtMostOnce` | internal/infrastructure/db/postgres.go:601-637 | in every run, whatever restarts seed, each job receives at most one decision ever; a second one under the same id is about a job created in between |
| `ControlPlaneCreation.CreateJobIdempotent` | internal/infrastructure/db/postgres.go:315-368 | all calls with a key that return give the same id while that job exists, over all runs, if and only if restarts never seed below a stored job or no call carries a key |
| `ControlPlaneCreation.NoKeyTwice` | internal/infrastructure/db/schema.sql:58 | in every run, whatever restarts seed, at most one row carries a non-empty key |
| `ControlPlaneCreation.TwoJobsRun` | internal/infrastructure/db/postgres.go:318-320 | for any keyed operation, a restart that seeds with 0 leads a legal run to two jobs returned under one key |
| `ControlPlaneCreation.DispatchedTwice` | internal/interfaces/http/job.go:231-271 | under any policy a legal run with covering seeds has two dispatches of one pending job that leave two clones equal in every column but the id |
| `ControlPlaneHistory.CompletionsMapToAssignments` | internal/infrastructure/db/postgres.go:556-577 | in every run, whatever restarts seed, each accepted completion maps injectively to an earlier assignment of that job to that worker, and a repeated one is refused until a new assignment |
| `ControlPlaneHistory.CompletionsNeverExceedAssignments` | internal/infrastructure/workerstream/service.go:158-165 | a worker never completes a job more often than it was assigned to it |
| `ControlPlaneRows.RowsFollowLog` | internal/infrastructure/db/postgres.go:544-637 | in every run each row shows what the last event about its job did: status, decision, worker, output and times; there is none exactly after a deletion or before a creation; each completion comes right after an assignment to that worker and each decision right after the creation of a waiting job |
| `ControlPlaneRows.FinishedRows` | internal/infrastructure/db/postgres.go:556-577 | in every run a finished row has the status, output and finish time of the completion that closed the last assignment of the job, which was to the worker of the row |
| `ControlPlaneRows.CompletionAccepted` | internal/infrastructure/db/postgres.go:563-574 | in every run a result that reaches the database is accepted exactly when the last thing that happened to the job is its assignment to that worker; then the row is a success if one was reported and failed otherwise, with the reported output and time |
| `ControlPlaneRows.DecisionAccepted` | internal/infrastructure/db/postgres.go:601-637 | in every run a decision that reaches the database is accepted exactly when nothing has happened to the job since it was created waiting, and then the row shows it |
| `ControlPlaneRows.AssignmentShows` | internal/infrastructure/db/postgres.go:517-522 | an assignment of a job that is still there starts it for that worker and changes no other row |
| `ControlPlaneRows.DeletionShows` | internal/infrastructure/db/postgres.go:593-594 | a deletion removes the row that is there and no other |
| `ControlPlaneRows.RequestsAdmitted` | internal/infrastructure/db/postgres.go:585-591 | in every run a deletion goes on exactly for a job that nobody was given yet, a dispatch exactly for one that is also not waiting, and the queue offers a worker exactly such jobs, of its own type unless it is a shell |
| `ControlPlaneRequests.EverythingWasAsked` | internal/interfaces/http/agent.go:423-464 | in every run each decision, result and deletion goes back to the request for it, each new row to the operation, manual request or dispatch that describes it column by column, each assignment to a check that the worker suits the job or to the queue, and each pushed job to the row it was read from |
| `ControlPlaneServing.EveryWorkerTried` | internal/interfaces/http/agent.go:425-446 | until the server restarts, an operation that has finished has tried to create a job for each of its workers, and one that has not is on its way, whatever failed and whoever interfered |
| `ControlPlaneServing.OperationServed` | internal/interfaces/http/agent.go:420-464 | an operation that nothing disturbs, for distinct workers that suit it, leaves one job for each: waiting if approval is needed, otherwise running at that worker and pushed to it |
| `ControlPlaneServing.ApprovalServed` | internal/interfaces/http/approval.go:50-96 | an approval that nothing disturbs leaves the job approved, and hands it to its worker twice if it has one that suits it |
| `ControlPlaneServing.TurnsAway` | internal/infrastructure/db/postgres.go:541-543 | a dispatch to a worker that does not suit the job ends without touching it |
| `ControlPlaneServing.DispatchServed` | internal/interfaces/http/job.go:221-270 | a dispatch of a free job that nothing disturbs hands it to its first worker, if it suits, and turns to the others |
| `ControlPlaneServing.CopiesServed` | internal/interfaces/http/job.go:242-270 | each of the others gets a copy of the job under an id of its own, running there and pushed to it |
| `ControlPlaneServing.LoserFindsWinner` | internal/infrastructure/db/postgres.go:358-366 | an insert whose key was taken meanwhile returns the job that took it |
| `ControlPlaneServing.KeyGivesBack` | internal/infrastructure/db/postgres.go:316-321 | in every run a creation under a key that is on a row, with nothing in between, returns that job and adds nothing |
| `ControlPlaneServing.FailureStops` | internal/interfaces/http/agent.go:442-459 | a statement that fails, or finds no row to read or decide, changes nothing, and the handler gives up the creation or hand-over it was at, or ends; only an insert under a key looks the key up again |
| `ControlPlaneServing.PushIgnored` | internal/interfaces/http/agent.go:460 | a push that the stream does not take changes nothing and is not noticed |
| `Jobs.JobTable.FindByKey` | internal/infrastructure/db/postgres.go:318 | a lookup by key finds a row with that key or there is none |
| `Jobs.JobTable.Get` | internal/infrastructure/db/postgres.go:377-395 | a read gives every column but the idempotency key, or nothing for a missing id |
| `Jobs.JobTable.Insert` | internal/infrastructure/db/postgres.go:345-357 | the insert succeeds exactly for a new id and a key no row has, and then adds exactly that row |
| `Jobs.JobTable.CreateJob` | internal/infrastructure/db/postgres.go:315-368 | without other calls in between, a key that is on a row gives that row back and changes nothing; otherwise the next id is drawn and the row is added exactly if the id is new |
| `Jobs.JobTable.Approve` | internal/infrastructure/db/postgres.go:601-618 | only a job waiting for approval changes: it becomes pending and approved, with who, when and the comment, and one row is reported exactly then; other rows and what the job is stay |
| `Jobs.JobTable.Reject` | internal/infrastructure/db/postgres.go:620-637 | only a job waiting for approval changes: it becomes cancelled and rejected, with who, when and the comment, and one row is reported exactly then; other rows and what the job is stay |
| `Jobs.JobTable.Assign` | internal/infrastructure/db/postgres.go:544-548 | an existing row becomes running for the worker with the given start time, whatever its status; its decision, other rows and what the job is stay |
| `Jobs.JobTable.Complete` | internal/infrastructure/db/postgres.go:563-574 | only a running job of that worker finishes, as a success if it was reported as one and as failed otherwise, with the reported output and the finish time, and one row is reported exactly then; other rows and what the job is stay |
| `Jobs.JobTable.Delete` | internal/infrastructure/db/postgres.go:593 | exactly that row goes |
| `Hub.Registry.Register` | internal/infrastructure/workerstream/hub.go:22-32 | the old channel of the id is closed once and replaced by a new, open, empty one |
| `Hub.Registry.Unregister` | internal/infrastructure/workerstream/hub.go:34-42 | the channel is closed and the entry removed only if it is still the mapped one; otherwise nothing changes |
| `Hub.Registry.Push` | internal/infrastructure/workerstream/hub.go:70-84 | the message is appended to the mapped open channel exactly when there is one with fewer than 32 messages buffered; otherwise it is refused and nothing changes |
| `Hub.Registry.IsConnected` | internal/infrastructure/workerstream/hub.go:63-68 | true exactly for a mapped id |
| `Hub.Registry.Deliver` | internal/infrastructure/workerstream/service.go:98-105 | the stream takes the oldest buffered message and nothing else changes |
| `HubRuns.NoPanic` | internal/infrastructure/workerstream/hub.go:22-42 | over every run with reconnects and late unregisters no channel is closed twice and none is sent to once closed |
| `HubRuns.FifoConserved` | internal/infrastructure/workerstream/hub.go:70-84 | for every channel at all times, delivered then buffered messages are the accepted pushes in order, with at most 32 buffered |
| `HubRuns.PushAccepted` | internal/infrastructure/workerstream/hub.go:70-84 | in every run a push to an id with a live channel is appended to it while fewer than 32 messages sent to it have not been taken; at 32, and for an id without a live channel, it changes nothing |
| `HubRuns.FillsUp` | internal/infrastructure/workerstream/hub.go:23 | after a registration, with nothing taken, any pushes are accepted in order up to the 32nd, and all further ones are refused |
| `HubRuns.ConnectedIffLatestActive` | internal/infrastructure/workerstream/service.go:69-107 | an id is connected exactly while its latest registrant is active, on an open channel mapped under no other id |
| `HubRuns.LateUnregisterHarmless` | internal/infrastructure/workerstream/hub.go:34-42 | an unregister changes nothing exactly when the stream was replaced, so it never disturbs a successor |
| `AgentTheorems.TranscriptExact` | internal/interfaces/http/agent_runs.go:45-90 | every save writes the initial messages followed by one entry per produced message in order, assistant content sanitized and tool content verbatim, and every model request carries those same messages up to that sanitization |
| `AgentTheorems.DurableLagsByOne` | internal/interfaces/http/agent_runs.go:60-87 | at every crash point the durable transcript lacks at most the newest produced message |
| `AgentTheorems.ExecutionIsRecorded` | internal/application/agent/runtime.go:165-200 | no tool executes unless its requesting assistant message was saved and then its call row created, in the same batch |
| `AgentTheorems.RepliesInOrder` | internal/application/agent/runtime.go:183-234 | inside one session, the tool replies after an assistant message answer a prefix of its calls in order, and all of them whenever the model is asked again |
| `AgentTheorems.TargetsDiscovered` | internal/application/agent/runtime.go:183-192 | every executed tool but list_workers names only ids that successful list_workers payloads of the session contained before |
| `AgentTheorems.DiscoveredFrom` | internal/application/agent/runtime.go:291-299 | a discovered id is named by the payload of a list_workers call that ran before without error |
| `AgentTheorems.StepBudget` | internal/application/agent/runtime.go:133-165 | a session asks the model at most once per step left, and its last step follows from the number of answers |
| `AgentOutcome.WhyItEnded` | internal/application/agent/runtime.go:156-236 | a session ends with a final answer exactly after the save of an answer without calls; it pauses exactly after the save of a reply that lists a waiting job; it fails exactly when a call of the model or the store failed, no step is left, or the next call names an undeclared tool or an undiscovered target |
| `AgentOutcome.RepliesShow` | internal/application/agent/runtime.go:200-216 | every tool message answers the execution right before it, under its call's id and with its sanitized payload |
| `AgentOutcome.EntriesSanitized` | internal/interfaces/http/agent_runs.go:60-62 | what a session adds to the transcript is each answer with its content redacted and cut, and each tool message as it is |
| `AgentOutcome.TooMuchIsNotAuthorized` | internal/application/agent/runtime.go:183-192 | a call is refused exactly if its tool is not declared, or it is not list_workers and its arguments cannot be read or name an unknown worker |
| `AgentPayload.PayloadShows` | internal/application/agent/runtime.go:200-206 | the model is shown whether the call succeeded, its sanitized output, and the sanitized text of the error if there was one, and nothing else |
| `AgentPayload.PausesExactly` | internal/interfaces/http/agent_runs.go:110-120 | a run pauses after a call exactly when the output lists a job whose status is waiting_approval, whether or not the call failed |
| `AgentPayload.DiscoversExactly` | internal/application/agent/runtime.go:291-299 | the ids that an output of list_workers makes targets are exactly the non-empty ones of the workers it lists, as sanitizing leaves them |
| `AgentChain.StartsWhereItStopped` | internal/interfaces/http/agent_runs.go:90-105 | in a chain of paused and resumed sessions each one starts at the step after all calls made so far, from everything produced so far |
| `AgentChain.ChainWithinBudget` | internal/application/agent/runtime.go:136-137 | the step ranges of a chain are consecutive and disjoint, so the chain never asks the model more than `maxSteps` times |
| `AgentChain.ResumedAnswers` | internal/application/agent/runtime.go:230-233 | in a chain of paused sessions each next one starts from a transcript that answers the calls of the last request up to the one the pause came at, and its first request carries that; all are answered exactly when the pause came at the last |
| `AgentRecovery.RecoveryBudget` | internal/interfaces/http/server.go:179-192 | a run whose sessions pause, crash at any point or fail, and are executed again, asks the model at most `maxSteps` times, `maxSteps` more for each crash and each failure without an answer, and once more for each other failure |
| `AgentRecovery.BudgetReached` | internal/interfaces/http/server.go:187-190 | for every `maxSteps` and every number of crashes some run asks exactly as often as the bound says |
| `AgentRecovery.LinkKeeps` | internal/interfaces/http/agent_runs.go:37-50 | a pause and a failure with its last save done hand the whole transcript on, and a crash all of it but at most the newest produced message |
| `AgentRecovery.CrashesLoseOneEach` | internal/interfaces/http/agent_runs.go:37-50 | over any number of pauses, crashes and failures the transcript lacks at most one produced message per crash |
| `AgentChain.NextStepFallsBack` | internal/interfaces/http/agent_runs.go:91 | the recorded next step is right exactly when the session had an answer or started at 1 |
| `AgentChain.FirstRequestFails` | internal/interfaces/http/agent_runs.go:91 | a session resumed at any later step whose first request fails records step 1 |
| `AgentChain.StoredForm` | internal/infrastructure/llm/client.go:24-28 | a saved transcript is unchanged exactly when no tool call carries a name or arguments, and saving twice is saving once |
| `AgentChain.CollectIds` | internal/interfaces/http/agent.go:582-604 | the ids are the trimmed, non-empty, first occurrences in order, and an error exactly when there are none |
| `AgentChain.DistinctIds` | internal/interfaces/http/agent.go:590-603 | no collected id occurs twice, each is the trimmed form of a requested one, and every non-blank request is collected |
| `AgentChain.CollectsRequests` | internal/interfaces/http/agent.go:582-604 | the collected ids are exactly the trimmed non-blank ids of the request, its single worker first |
| `AgentChain.ActsOnDiscovered` | internal/interfaces/http/agent.go:353 | every worker an executed operation acts on is the trimmed form of an id discovered earlier in the session, and none is acted on twice |
| `AgentRun.ValidateTargets` | internal/application/agent/runtime.go:271-289 | accepts exactly the arguments that decode and name only discovered ids |
| `AgentRun.RecordDiscovered` | internal/application/agent/runtime.go:291-299 | adds exactly the non-empty ids the payload lists |
| `AgentRun.PayloadNeedsApproval` | internal/interfaces/http/agent_runs.go:110-120 | true exactly when some job in the payload waits for approval |
| `AgentRun.Recorder.Persist` | internal/interfaces/http/agent_runs.go:46-50 | a save records the whole transcript, and the durable row takes it exactly when the store succeeds |
| `AgentRun.Recorder.OnAssistant` | internal/interfaces/http/agent_runs.go:60-68 | appends the message with sanitized content to the observer's transcript, writing at most the one cell after its end if the array is shared, and then saves |
| `AgentRun.Recorder.OnToolCall` | internal/interfaces/http/agent_runs.go:69-74 | for the next call of the batch with authorized targets the call's row is created, or the failure is reported and nothing else happens |
| `AgentRun.Recorder.OnToolResult` | internal/interfaces/http/agent_runs.go:75-87 | appends the reply verbatim under the call's id and saves |
| `AgentRun.ProduceAssistant` | internal/application/agent/runtime.go:164-170 | the loop's slice and the observer's both grow by the message, although they may share one array |
| `AgentRun.ProduceReply` | internal/application/agent/runtime.go:212-233 | the same for a tool reply, which leaves the session broken, pausing, at the next call or at the next step |
| `AgentRun.RunMessages` | internal/application/agent/runtime.go:121-237 | the loop ends for any answers of the model and the tools, its events form a legal session whose last event is the reported outcome, and the reported steps are that session's; `AgentOutcome.WhyItEnded` says which outcome that is |
| `AgentRun.ExecutePersistentRun` | internal/interfaces/http/agent_runs.go:29-108 | one session is a legal log from the stored transcript and the stored step, raised to 1 if it is lower; finished runs are left alone, and a run whose first save fails does not start; after a successful last save the stored row has the session's transcript and next step, is completed exactly after a final answer, waiting exactly after a pause and failed or timed out exactly after a failure; otherwise it is still running at the old step |
| `AgentRun.Conclude` | internal/interfaces/http/agent_runs.go:91-105 | the final status is waiting exactly after a pause, completed exactly after a final answer and failed or timed out exactly after a failure, and is durable exactly when the last save succeeds |
| `Slices.Append` | internal/application/agent/runtime.go:165 | append extends the view by one element, in place exactly when the array has room and in a fresh array otherwise |
| `LlmStream.CompleteStream` | internal/infrastructure/llm/client.go:237-316 | returns the calls of indices 0, 1, ... up to the first unmentioned one, each assembled from its own fragments, and the content passed to the callback; every failure is reported exactly when it happens first |
| `LlmStream.ReadLines` | internal/infrastructure/llm/client.go:245-303 | the read loop ends at the end mark, the first failure or the end of file, having passed on and collected exactly the chunks before |
| `LlmStream.BuildAnswer` | internal/infrastructure/llm/client.go:304-316 | the open-ended index loop terminates and stops at the first missing index or the first unusable call |
| `LlmStream.Complete` | internal/infrastructure/llm/client.go:154-166 | the first choice is returned as it is exactly when there is one and all its arguments are valid JSON; otherwise the first invalid call is named |
| `LlmAnswers.InterleavingSeparates` | internal/infrastructure/llm/client.go:284-297 | from any interleaving that keeps per-index order, filtering by index gives each call's fragments back |
| `LlmAnswers.StreamReassembles` | internal/infrastructure/llm/client.go:237-316 | for any splitting of arguments, lines and choices and any interleaving across calls, the stream returns exactly the message they were cut from and the callback gets its content in non-empty pieces, unless the callback fails or a call is itself unusable, which is then the one named |
| `LlmAnswers.StreamFails` | internal/infrastructure/llm/client.go:246-282 | unless the callback failed, a body is refused as undecodable exactly if the line it stops at is, and as unreadable exactly if it breaks off before one; a callback that failed accepted every earlier list of pieces but not the last |
| `LlmAnswers.StreamingAgrees` | internal/infrastructure/llm/client.go:158-164 | streaming and non-streaming give the same message exactly when every id and name is non-empty or both refuse the arguments |
| `Scheduler.Store.NewId` | internal/infrastructure/scheduler/store.go:627-630 | the atomic draw of the next number, outside the lock |
| `Scheduler.Store.CreateJobWithOptions` | internal/infrastructure/scheduler/store.go:100-138 | a missing status means pending and a missing approval follows from whether approval is required; the row is added under the next id |
| `Scheduler.Store.RegisterWorker` | internal/infrastructure/scheduler/store.go:48-65 | the worker gets the next id of the shared counter and nothing else changes |
| `Scheduler.Store.Select` | internal/infrastructure/scheduler/store.go:180-200 | whatever the iteration order, the least eligible job by creation time and then id, or none exactly when none is eligible |
| `Scheduler.Store.AssignNextJob` | internal/infrastructure/scheduler/store.go:171-210 | a worker is given one of the oldest queued jobs that suit its type, which becomes running for it, and every other job is unchanged; it is given none exactly when it is unknown or no queued job suits it |
| `Scheduler.Store.AssignJobToWorker` | internal/infrastructure/scheduler/store.go:239-263 | succeeds exactly for a known worker that suits a known job, whatever the job's status, and then that job alone becomes running for it |
| `Scheduler.Store.CompleteJob` | internal/infrastructure/scheduler/store.go:212-237 | succeeds exactly for a job assigned to the worker, with no guard on its status, and then that job alone shows the reported result, output and time |
| `Scheduler.Store.ApproveJob` | internal/infrastructure/scheduler/store.go:278-300 | only a waiting job becomes pending and approved |
| `Scheduler.Store.RejectJob` | internal/infrastructure/scheduler/store.go:302-324 | only a waiting job becomes cancelled and rejected |
| `Scheduler.GivenOutOnce` | internal/infrastructure/scheduler/store.go:171-324 | over any sequence of store operations, with creations that overlap between draw and insert, AssignNextJob returns a job at most once |
| `SchedulerHistory.JobsFollowEvents` | internal/infrastructure/scheduler/store.go:171-324 | over any run a job is stored exactly if some operation was accepted for it, and then it shows the last such operation |
| `SchedulerHistory.FinishedJobs` | internal/infrastructure/scheduler/store.go:212-237 | over any run a finished job that was not created finished has the status, output and time of the last accepted report, by the worker it is assigned to |
| `SchedulerHistory.NextServes` | internal/infrastructure/scheduler/store.go:180-200 | over any run a known worker that asks is given nothing exactly when no queued job suits it, and otherwise one of the oldest such jobs |
| `Scheduler.StepKeepsOut` | internal/infrastructure/scheduler/store.go:186-189 | no operation brings a job back to waiting, pending or queued |
| `Scheduler.DrainOrder` | internal/infrastructure/scheduler/store.go:171-210 | asking until nothing is left yields exactly the eligible jobs in sorted order |
| `Scheduler.FirstCreatedFirst` | internal/infrastructure/scheduler/store.go:191 | while the clock does not run backwards and ids stay up to 999999, a worker is not given a job whose creation began after another eligible job was stored |
| `Ids.SuffixOfFormat` | internal/infrastructure/db/postgres.go:75-78 | the trailing digits of a generated id are its counter |
| `Ids.FormatShape` | internal/infrastructure/db/postgres.go:89-92 | an id is the prefix, a dash and the number in decimal, with zeros in front up to six digits and none beyond |
| `Ids.TrailingDigitsAre` | internal/infrastructure/db/postgres.go:77 | the suffix of an id is its longest run of digits at the end |
| `Ids.FormatInjective` | internal/infrastructure/scheduler/store.go:627-630 | generated ids are equal exactly for equal prefix and counter, for all counters |
| `Ids.TableMax` | internal/infrastructure/db/postgres.go:76-78 | the query fails exactly when some suffix does not fit, and otherwise gives the largest suffix |
| `Ids.SeedCounter` | internal/infrastructure/db/postgres.go:70-87 | the seed covers every table whose query succeeds and is a stored suffix or 0 |
| `Ids.ReissuedIsGenerated` | internal/infrastructure/db/postgres.go:89-92 | the generator gives a stored id again exactly when the id is a prefix, a dash and the padded digits of a number above the counter |
| `Ids.SeededIdsAreNew` | internal/infrastructure/db/postgres.go:68-92 | ids generated after seeding differ from every stored id exactly when no failed table holds an id of that form above the seed |
| `Ids.OversizedSuffixCausesReissue` | internal/infrastructure/db/postgres.go:79 | one oversized suffix lets a stored id be generated again |
| `Ids.StringOrder` | internal/infrastructure/scheduler/store.go:191 | string order of ids against numeric order, exactly, for all counters |
| `Ids.StringOrderIsNumeric` | internal/infrastructure/scheduler/store.go:627-630 | the two orders agree up to 999999 and differ at 1000000 |
| `Sanitize.SanitizedAt` | internal/domain/model/sensitive.go:33-60 | at any depth through maps and lists the value under the first secret name is replaced, nothing below it remains, and everything else keeps its place |
| `Sanitize.SensitiveIsSecret` | internal/domain/model/sensitive.go:34-38 | the sensitive names are exactly those in which one of the ten words occurs anywhere, in letters of any case and with any underscores and hyphens in between |
| `Sanitize.SecretsMasked` | internal/domain/model/sensitive.go:25-39 | in a sanitized map exactly the values under such names are masked, every other one is sanitized as it would be inside a list, and no name is lost or added |
| `Sanitize.SecretInside` | internal/domain/model/sensitive.go:36 | a secret name stays secret inside any longer name |
| `Sanitize.TextCut` | internal/domain/model/sensitive.go:15-21 | a redacted text of at most 4096 bytes stays as it is, and a longer one is cut there and marked |
| `Sanitize.LeavesSanitized` | internal/domain/model/sensitive.go:40-60 | at a path without secret names a text is redacted and cut, a value of another type is as it was, and containers keep their fields and lengths |
| `Sanitize.StringsBounded` | internal/domain/model/sensitive.go:15-21 | every string reached in a sanitized value has at most 4096 bytes plus the 14-byte suffix |
| `Sanitize.TextIdempotent` | internal/domain/model/sensitive.go:15-21 | sanitizing a text twice is sanitizing it once when redaction leaves sanitized text alone |
| `Sanitize.Idempotent` | internal/domain/model/sensitive.go:25-60 | sanitizing maps is idempotent exactly when sanitizing texts is |
| `Services.LoadServiceCatalog` | internal/config/services.go:52-114 | the line loop gives the catalog or the first problem of the parser's specification |
| `Services.ServiceCatalog.Add` | internal/config/services.go:116-125 | a profile is added exactly when it has a type and a host and its name is new |
| `Services.ServiceCatalog.Resolve` | internal/config/services.go:127-139 | finds exactly the profile of that valid name and type, and says which condition fails |
| `Services.ResolveServiceProfile` | internal/infrastructure/worker/runner.go:151-191 | each field of the profile that says something replaces the parameter of its name, and nothing else changes; it fails exactly without a catalog, a type or a matching profile |
| `ServiceFiles.AcceptedFiles` | internal/config/services.go:52-114 | a file is accepted exactly when it consists of sections with distinct valid names, supported keys, a type and a host; the catalog has the last value of every property |
| `ServiceFiles.OneProfilePerSection` | internal/config/services.go:60-72 | every accepted file yields one profile per section, under a valid unique name with non-empty type and host |
| `ServicePrint.PrintThenParse` | internal/config/services.go:52-125 | printing any well-formed catalog and parsing it gives it back, with any indentation and any blank and comment lines inserted |
| `ServicePrint.PrintedBlocks` | internal/config/services.go:55-82 | the printed lines of any blocks read as exactly those blocks |
| `ServicePrint.WriteThenRead` | internal/config/services.go:54-56 | the same for the text of a file: any file made of the printed lines and of blank and comment lines is split and read back |
| `ServicePrint.PrintThenRead` | internal/config/services.go:54-114 | the printed lines alone are such a file |
| `ServicePrint.ReturnDropped` | internal/config/services.go:54-56 | a carriage return before a newline is not part of the line |
| `ServiceSpelling.SpelledThenParsed` | internal/config/services.go:55-100 | any well-formed catalog is read back from lines with any blanks around names, keys, '=' and values, keys and types in letters of any case, and any blank and comment lines in between |
| `ServiceSpelling.SpelledThenRead` | internal/config/services.go:54-100 | the same from the text of a file made of such lines |
| `ServiceSpelling.LastValueCounts` | internal/config/services.go:80-100 | a key that is given again takes its last value |
| `ServiceSpelling.FirstBadLine` | internal/config/services.go:55-104 | a file that is refused while it is read has a first bad line: what comes before can be read, and the problem names that line, counted from 1 |
| `ServiceSpelling.ValidNames` | internal/config/services.go:13 | a name is valid exactly if it is one small letter or digit and at most 63 more characters, each a small letter, a digit, '_' or '-' |
| `Placeholders.SubstituteParams` | internal/infrastructure/worker/runner.go:193-198 | the result is one replacement pass per key in some order of the map |
| `Placeholders.FillsName` | internal/infrastructure/worker/runner.go:194-195 | a parameter takes the place of its name written as `{{.name}}`, in a text without other braces |
| `PlaceholderOrder.OnePass` | internal/infrastructure/worker/runner.go:195 | one pass fills exactly the holes of its key when no filled value opens its placeholder |
| `PlaceholderOrder.OrderFreeIffSeparate` | internal/infrastructure/worker/runner.go:193-198 | for braceless keys, every template whose literals contain no '{' and every order of the whole map give the simultaneous substitution if and only if no value opens a placeholder that its own pass would change |
| `PlaceholderOrder.SeparateIsSimultaneous` | internal/infrastructure/worker/runner.go:193-198 | then, for any such template, every iteration order over the whole map gives the simultaneous substitution |
| `PlaceholderOrder.SequentialIsSimultaneous` | internal/infrastructure/worker/runner.go:193-198 | in particular when literals and values contain no '{' and keys no braces |
| `PlaceholderOrder.OrderShows` | internal/infrastructure/worker/runner.go:194-196 | a value that is itself another key's placeholder is not separate, and two orders of the whole map give different results |
| `PlaceholderCommands.AnyCommandIffApart` | internal/infrastructure/worker/runner.go:193-198 | for braceless keys and arbitrary commands, every order of the whole map gives the simultaneous replacement of all placeholders if and only if no value overlaps the placeholder of another key whose pass changes something |
| `PlaceholderCommands.FilledIsSimultaneous` | internal/infrastructure/worker/runner.go:193-198 | on a template whose literals contain no '{' filling the holes is that simultaneous replacement |
| `PlaceholderCommands.LiteralBraceShows` | internal/infrastructure/worker/runner.go:194-196 | a value that is another key's placeholder without its first brace is separate, and yet some command shows the order |
| `ConfigSync.Repository.SaveManagedConfig` | internal/infrastructure/db/postgres.go:994-1015 | exactly the entry of the kind and id changes, or none if the save fails; the SQL upsert keeps the creation time of an existing entry, the in-memory one stores the given one |
| `ConfigSync.Repository.GetManagedConfig` | internal/infrastructure/db/postgres.go:1043-1057 | finds exactly the entry of the kind and id, unless the read fails |
| `ConfigSync.SyncEntry` | internal/interfaces/http/server.go:209-250 | the callback has the specified effect on store, report and error, with reads and saves that may fail |
| `ConfigSync.SyncManagedConfigs` | internal/interfaces/http/server.go:204-252 | the walk has the specified effect for every list of entries and every pattern of failing reads and saves |
| `ConfigSync.KeyInjective` | internal/infrastructure/db/memory.go:358-360 | keys of supported kinds determine kind and id |
| `ConfigSyncTheorems.CountersAddUp` | internal/interfaces/http/server.go:229-249 | imported, updated, in-sync and drifted add up to the files the walk got past, and it fails exactly when it did not get past all |
| `ConfigSyncTheorems.StopsAtFirst` | internal/interfaces/http/server.go:209-250 | the walk stops exactly at the first entry that cannot be read, identified or saved |
| `ConfigSyncTheorems.OthersUntouched` | internal/interfaces/http/server.go:209-250 | entries that no file names are not changed in either mode |
| `ConfigSyncTheorems.MissingChangesNothing` | internal/interfaces/http/server.go:228-244 | missing mode saves over an existing entry exactly when a lookup of it failed, and otherwise leaves it as it is |
| `ConfigSyncTheorems.MissingIsIdempotent` | internal/interfaces/http/server.go:228-244 | after a missing-mode sync a second one saves nothing exactly when all its lookups succeed |
| `ConfigSyncTheorems.LastWins` | internal/interfaces/http/server.go:245-249 | the last file with a key determines the stored content in enforce mode |
| `ConfigSyncTheorems.EnforceAgrees` | internal/interfaces/http/server.go:201-203 | an enforce sync makes the store agree with every file exactly when files with equal keys agree |
| `ConfigSyncTheorems.SecondSyncQuiet` | internal/interfaces/http/server.go:236-249 | a second enforce sync saves nothing exactly when files with equal keys agree and all its lookups succeed |
| `ConfigSyncReport.CountersMean` | internal/interfaces/http/server.go:229-249 | every save is an import or an update; when lookups succeed the imports are the entries that were not there before; enforce mode leaves nothing drifted and missing mode updates nothing |
| `ConfigSyncReport.DriftedDiffers` | internal/interfaces/http/server.go:240-244 | a missing-mode sync that runs to its end with all lookups succeeding reports as drifted exactly the entries that differ from some file |
| `ConfigSyncReport.SavedRows` | internal/interfaces/http/server.go:230-245 | a saved entry has every column from one of its files, and keeps the creation time it had |
| `ConfigSyncReport.FilesTaken` | internal/interfaces/http/config.go:165-190 | a file is taken exactly if it is YAML in a directory of templates or policies with a usable header, under the id of its header, a policy without one under default |
| `ConfigSyncReport.FilesRefused` | internal/interfaces/http/server.go:210-227 | the walk ends exactly at an entry that cannot be walked to or a YAML file there that cannot be read or has no usable header |
| `ConfigSyncReport.FilesStored` | internal/interfaces/http/server.go:209-250 | after a sync that ran to its end every such file has an entry under its kind and id |
| `EventReplay.EventStore.AddAgentEvent` | internal/infrastructure/db/memory.go:512-519 | the event gets the next id and is appended to its run's log only |
| `EventReplay.EventStore.ListAgentEvents` | internal/infrastructure/db/memory.go:520-530 | exactly the events of the run with a greater id, in order |
| `EventReplay.NoEventLostOrRepeated` | internal/interfaces/http/agent_runs.go:165-195 | a client that reconnects with its last id, any number of times and cut off anywhere, has a prefix of the log, and the next page is all the rest |

## Left out

- Several servers on one database: the control plane has one server, whose restart loses its handlers.
- Handlers of the control plane are processes over values, not methods: interleaving at statement granularity has no direct form in sequential Dafny. The statements themselves are methods of `Jobs.JobTable`.
- createModuleOperation: the checks before its create loop, and the filtering of workers by type, only decide which operations start; an operation starts with its list of compatible workers and the policy's answer.
- The manual, batch and YAML create handlers run one creation after another; they are modelled as independent creations, which allows more interleavings.
- AssignNextJob in SQL picks the earliest job; the control plane allows any eligible row, and the order is proved for the in-memory store.
- CreateJob's defaults for an empty status or approval, since every handler sets both; the in-memory store models them.
- The in-memory CreateJob's lookup of idempotency keys, which is not atomic with its insert; idempotency is proved for the SQL repository.
- Resuming a run after an approval and cancelling it after a rejection: sessions of one run do not overlap in the model, though nothing in the program serializes them.
- Observers that are nil and the event stream to the browser, and the evidence headings appended to a final answer.
- Columns of a tool-call row other than its id, audit logs, metrics and token costs.
- The text of JSON, YAML, SSE and protobuf: decoded values are modelled, with validity and decoding as parameters.
- Truncation of text in the middle of a UTF-8 sequence; strings are byte sequences and are kept as they are.
- The secret pattern: redaction is a parameter.
- Case folding and white space outside ASCII.
- Counters do not wrap around at 64 bits; timestamps are arbitrary numbers.
- Services.LoadServiceCatalog: file permissions and the default path; it is given the lines that `Services.Lines` splits, of any length, where the program's scanner stops at a line of 64 KB.
- PlaceholderOrder.OrderFreeIffSeparate: parameter keys that contain braces.
- PlaceholderCommands.AnyCommandIffApart: parameter keys that contain braces.
- Heartbeats, worker registration over gRPC, authorization tokens, and the other job filters and listings.
- Incident cases, conversations, worker logs, diagnosis plans and stored YAMLs: record keeping with easy members.
- Shell execution, templates, deployment and the user interface.
