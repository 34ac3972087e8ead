# Verified model of the video transcoding service

The service takes video tasks over an API, stores each task together with an outbox event, publishes the event to
RabbitMQ with publisher confirms, and lets any number of workers take the messages, transcode the video into several HLS
variants and upload the result. This project models its two hard parts in Dafny and proves what they promise:

* **Task delivery**: transactional outbox, publisher confirms, duplicate table and the row-locked task state machine,
  shared by any number of API servers, publishers, workers and recovery passes that interleave freely, crash, lose
  connections and see any answer of the broker.
* **The transcode planner**: scaling, rotation, the FFmpeg command with its filtergraph, the master playlist, progress
  reports, and the agreement between files written, paths stored and object keys.

`dafny verify dfyconfig.toml` checks everything.

## How it is laid out

| file | what it is |
|---|---|
| `Domain.dfy`, `Persistence.dfy` | entities, tables, and the repository code (`class Database`) proved against functions on the tables |
| `Pipeline.dfy` | the whole delivery pipeline as one step relation |
| `Safety.dfy` | the inductive invariant |
| `Guarantees.dfy` | what holds in every run |
| `NoTaskLost.dfy`, `Completion.dfy`, `Losses.dfy` | which faults lose a task, and that nothing else does |
| `Cancellation.dfy` | which steps overwrite a terminal status, cancellation above all, and runs in which they do |
| `Marks.dfy` | the duplicate check one table access at a time, with and without its unique index |
| `OutboxService.dfy`, `UseCases.dfy` | outbox service, API use cases, worker and message handler as imperative code |
| `Backlog.dfy` | what passes under one deadline achieve over a backlog, for equal creation times too |
| `Sequential.dfy` | that code, undisturbed, is a run of the step relation |
| `Confirms.dfy` | confirm matching: all interleavings at lock, map and channel granularity |
| `Broker.dfy`, `Sections.dfy` | the broker's critical sections as code, and each of them as a run of the confirm protocol |
| `Text.dfy`, `Paths.dfy` | splitting, joining, decimal numbers; lexical paths |
| `Scaling.dfy`, `Rotation.dfy`, `VideoInfo.dfy`, `Progress.dfy`, `Playlist.dfy` | one per `pkg/ffmpeg` component |
| `Filtergraph.dfy`, `GraphReader.dfy` | the graph builder, what graphs mean, and reading the built text back |
| `OutputPaths.dfy` | files, recorded paths, object keys, references, and directories in the way of files |
| `Segments.dfy` | FFmpeg's expansion of the segment pattern, and where segments end up |
| `FfmpegCommand.dfy`, `Transcoder.dfy` | the command and what it does by FFmpeg's rules; the whole transcode from plan to stored task |
| `Isolation.dfy` | what keeps two tasks' objects and working directories apart |

The delivery pipeline is one relation because its promises are about all parts together: a step is one database
transaction, one network event or one crash. A publisher's transaction is split into begin, row lock, status check, send,
confirm or no confirm, write, and commit or rollback; a recovery transaction into read, count and write, because it takes
no row lock. Counters such as `attempts`, `sends`, `rollbacks` and `stale` are history: no step reads them. The code of
each component is written as classes and loops in `Persistence`, `OutboxService`, `UseCases` and `Broker`, and
`Sequential`, `UseCases` and `Sections` prove that each operation, undisturbed, is a run of the relation it belongs to,
with the same effect.

## What is assumed

* A database transaction commits as a whole or not at all; `SELECT ... FOR UPDATE` keeps other lockers of the row out.
  A plain read inside a transaction locks nothing (read committed).
* `task_id` and `event_id` are unique. In `Pipeline` a message is checked and marked in one step, which is what the code
  does when `processed_messages` has its unique index; `Marks` drops that assumption.
* Each event of a backlog gets one answer of the broker, the same in every pass: an ack or a refusal, after some delay.
  Only waiting for answers takes time; the deadline of a pass is a parameter.
* FFmpeg opens the playlists that the paths name, and the segments that the expanded patterns name. For playlists that
  is certain without percent signs, as `%v` is expanded in them; the describing theorem excludes percent signs, the one
  about success leaves `%v` to the parameter that says whether FFmpeg finishes.
* A failed `Publish` uses up no delivery tag, the broker answers a tag at most once, and an ack means that the durable
  queue holds the message.
* One connection generation; payloads survive JSON; identifiers are natural numbers, only ever compared.
* All workers use the one consumer id, so marks are per message.

## Where code and documentation differ, or a promise fails

The model follows the code. Each of these promises fails, with an exact condition or a concrete run below.

* **The retry cap never takes effect.** The publish error is returned out of the transaction, so the retry count, the
  `failed` status and the last error are rolled back. Committed rows are only ever pending or published, with a retry
  count of zero (`CommittedOutboxRows`). So an event that the broker keeps refusing stays in every batch.
* **One unanswered event blocks the outbox.** All events of a pass share one context of 20 seconds, which is less than
  the 60 seconds that a single confirm may take, and the next pass starts with the same oldest event. A later event is
  certain to be published if and only if the refused events at least as old are fewer than the batch size, and neither
  before it nor before an acked event as old as it do those refusals, with its own answer, use up the pass
  (`CertainExactly`); it can be published at all if and only if that holds of the strictly older ones
  (`PossibleExactly`). For a broker that answers at once or not before the deadline: if and only if, of the events at
  least as old, fewer than the batch size are refused and none is left unanswered (`PromptlyCertain`). A pass that uses
  up its context also leaves nothing for the recovery and clean-up of that tick.
* **"At most one processing attempt" needs an isolated recovery.** Recovery reads the task without a lock. When a worker
  starts the task between that read and recovery's write, the write puts a started task back to queued. Attempts are at
  most one more than such late writes (`AttemptsAreBounded`), no other step makes a started task startable again
  (`ReopenedExactly`), and for every n, n late writes really allow n + 1 attempts (`BoundIsReached`). An undisturbed
  recovery transaction is never late (`RecoverIsRun`).
* **Recovery does not rescue stuck tasks.** The documentation says that the periodic scan recovers stuck tasks. Every
  task has an event from its submission on, so recovery never creates one (`RecoveryInsertsNothing`), and a task whose
  event is published and whose messages are gone is never started again, whatever recovery does (`SpentForever`).
* **Duplicates are marked before they are handled**, so some worker faults lose a task. `LossyExactly` gives the exact
  faults at a task's only carrier: a crash when the message cannot start the task again, a start whose reply is an error, a
  final write that is rolled back. Each of them really loses the task (`LossesAreReal`); without them and late recovery
  writes nothing is lost (`NoTaskIsLost`).
* **A worker's full-row save overwrites a cancellation.** A cancelled task stays cancelled under a step if and only if
  the step is neither a committed save of it by a worker nor a late recovery write (`CancelledStaysExactly`; for every
  terminal status and over runs `TerminalChangesExactly`, `TerminalKeptExactly`). It happens: in a run from the empty
  database a task cancelled while it is transcoded ends as a success (`CancelledThenSuccess`), and any worker under way
  can do it (`WorkerOverwrites`).
* **The duplicate table lacks its unique index at first.** The migration creates the index before the table and ignores
  the error, so the first start on an empty database leaves no index, and a later one adds it only if no message has two
  rows by then (`IndexedExactly`); with a message that has, no start does until its clean-up
  (`DuplicatesKeepIndexAway`). The bound on handler runs holds if and only if there is the index (`BoundedExactly`); for
  every n, n checks at the same time all pass without it (`RaceRuns`).
* **Task ids are not validated.** Two tasks have separate objects if and only if their ids clean to different paths, so
  `a` and `./a` share all of theirs (`TasksApartExactly`, `DifferentIdsShareKeys`). The working directory, which the
  worker removes at the end, lies below `cloud-media` exactly under a condition on the cleaned id (`StaysBelowExactly`);
  for slash-free ids, exactly for ordinary ones, and for `..` it is the temporary directory (`SlashFreeStaysBelow`).
  Generated ids are ordinary and keep everything apart (`OrdinaryTasksIsolated`).
* **The probe describes the last video stream, FFmpeg encodes the first.** They agree if and only if both streams have
  the same size and angle (`EncodedIsDescribedExactly`); a square cover picture behind a 1920 by 1080 video makes its
  720p variant a square (`CoverIsPlanned`).
* **Videos without an audio stream cannot be transcoded.** Every output maps the input's audio, which FFmpeg refuses when
  there is none, and nothing before the transcode excludes such videos (`CommandEncodesPlaylist`), although the probe's
  audio codec would tell (`AudioCodecExactly`, `ProbedFileEncodes`).
* **Some variant names fail.** The empty name, `.` and `..` make recorded paths and uploaded keys differ
  (`RecordedIsUploaded`); names with `#`, `?` or `:` make the playlist's references miss their files
  (`ReferenceIsUploaded`); `master.m3u8`, and `thumbnail.jpg` when there is a thumbnail, make a directory where a file is
  to be (`CollidesExactly`, `FixedNamesCollide`), and so do `index.m3u8` and the names of segments next to a variant
  called `.` or not at all (`FileCollidesExactly`, `SegmentCollidesExactly`), so that the transcode fails
  (`TranscodeSucceedsExactly`).
  A `%d` in a name sends the variant's segments elsewhere, even into another variant's directory
  (`SegmentPlace`, `SegmentsApartExactly`).
* **The size check of the validator only excludes zero**, so two negative sides in the allowed ratio pass it
  (`GateIsExact`, `NegativeSizesPassTheGate`); the planner falls back to 1920 by 1080, which keeps to sixteen times the
  target only from a target of 120 on (`AcceptedVideosStayInBounds`).
* **Rotations of a full turn or more** would choose a different filter than their normalised angle
  (`NormalizingKeepsFilter`); the probe always normalises.

Two remarks on the documentation: it gives 30 seconds for publisher confirms, while the code waits 60 and its recovery
loop at most 20 for all events together, which only the theorems on the backlog depend on; and the comments on the
rotation filters name the turning directions the other way round than FFmpeg's `transpose` works. The model gives
`transpose` its real meaning, with which the code turns a frame counterclockwise by the probed angle, as FFmpeg's display
matrix asks (`ProbedAngleIsUndone`).

## Model

| member | source | states |
|---|---|---|
| `Persistence.Database.InsertTaskAndEvent` | internal/usecase/outbox_service.go:121-154 | task row and event row appear together, the event pending, created now, with no retries and the configured limit or the column default of 10; or a duplicate key leaves all four tables as they were |
| `Persistence.Database.TryTransitionToProcessing` | internal/infrastructure/persistence/video_task.go:309-364 | a pending or queued task becomes processing with one log entry; from any other status nothing changes and the caller is told |
| `Persistence.CleanedUpIsNew` | internal/infrastructure/persistence/outbox.go:181-231 | after a clean-up a message counts as new exactly if it was cleaned up or never marked, and once marked again it is known again |
| `Safety.KeepsInv` | internal/usecase/outbox_service.go:212-293 | every step of any API server, publisher, broker, connection or worker keeps the whole invariant |
| `Guarantees.Reachable` | internal/infrastructure/broker/rabbitmq_broker.go:296-377 | so every run from the empty database ends in a state with the whole invariant |
| `Guarantees.AttemptsAreBounded` | internal/infrastructure/persistence/video_task.go:309-364 | in every run a task is started at most once more than recovery wrote late over it, with none of those at most once; the status log has exactly one entry to processing per start |
| `Guarantees.ReopenedExactly` | internal/usecase/outbox_service.go:364-423 | a step makes a started or finished task startable again if and only if it is a late recovery write of that task |
| `Guarantees.CommittedOutboxRows` | internal/usecase/outbox_service.go:250-276 | in every reachable state a row is pending or published, its retry count is zero, published means that the broker acked a copy of that event, and every pending row is eligible for the scan |
| `Guarantees.RowMovesOnce` | internal/usecase/outbox_service.go:212-293 | over any run a committed row changes at most once, from pending to published, and in its status only |
| `Guarantees.OnePublisherPerEvent` | internal/usecase/outbox_service.go:213-247 | no two publishers are between row lock and commit for one event, and none hands a message over unless the committed row is still pending |
| `Guarantees.CopiesAreBounded` | internal/usecase/outbox_service.go:212-293 | copies accepted by the broker number at most one plus the rolled-back sends |
| `Guarantees.OneSubmissionOneEvent` | internal/usecase/video_usecase.go:68-89 | each task id is submitted successfully at most once, and exists exactly when it has its one and only event, however submissions and recovery race |
| `Guarantees.RecoveryInsertsNothing` | internal/usecase/outbox_service.go:376-416 | in no reachable state does recovery insert an event |
| `Guarantees.TerminalIsFinal` | internal/usecase/worker.go:210-217 | over any run without a late recovery write, a terminal task with no worker on it stays as it is or becomes cancelled |
| `Guarantees.SettledOnce` | internal/infrastructure/broker/rabbitmq_broker.go:296-377 | a copy that was acked, discarded or dropped stays so for ever |
| `Guarantees.MessagesAreConserved` | internal/infrastructure/broker/rabbitmq_broker.go:296-377 | accepted copies are exactly the queued, the ones at a live delivery and the settled ones |
| `Guarantees.HandlerRunsAreBounded` | internal/infrastructure/broker/rabbitmq_broker.go:344-356 | with the unique index: between clean-ups the handler runs for a message at most once more than its duplicate check failed, in every run of the whole pipeline |
| `Marks.BoundedExactly` | internal/infrastructure/persistence/outbox.go:181-223 | of any table that starts, checks and clean-ups lead to, the bound on handler runs holds in all that may follow if and only if the table has the index |
| `Marks.RaceRuns` | internal/infrastructure/persistence/outbox.go:184-215 | for every n: without the index n checks of one message at the same time all answer that it is new, and the handler runs n times with no failed check |
| `Marks.IndexedExactly` | internal/infrastructure/persistence/database.go:48-63 | the first start on an empty database creates the table without the index, and the next start adds it if and only if by then no message has two rows |
| `Marks.DuplicatesKeepIndexAway` | internal/infrastructure/persistence/database.go:50-55 | once a message has two rows, no number of starts creates the index until that message is cleaned up |
| `Marks.OneStepExactly` | internal/infrastructure/persistence/outbox.go:184-215 | the one-step check of the pipeline answers and marks as the code does: always with the index, and without it exactly when no other check inserted in between |
| `NoTaskLost.NoTaskIsLost` | internal/usecase/worker.go:76-85 | in every run without the listed faults, each unfinished task has an eligible event, an undelivered unmarked message or a worker |
| `NoTaskLost.QuiescentMeansTerminal` | internal/infrastructure/broker/rabbitmq_broker.go:344-377 | so when nothing is pending, queued or in flight, every task is terminal |
| `NoTaskLost.SpentForever` | internal/usecase/outbox_service.go:349-434 | a task whose event is published and whose messages are gone is never started again, over any run |
| `Completion.UnfinishedTasksCanSucceed` | internal/usecase/worker.go:62-233 | from every state that a fault-free run reaches, every unfinished task can still be brought to success by fault-free steps: no lock, mark or lost connection blocks it for good |
| `Losses.LossyExactly` | internal/usecase/worker.go:76-85 | a step of a task's only carrier keeps the task in hand if and only if it is none of the listed faults |
| `Losses.LossesAreReal` | internal/infrastructure/broker/rabbitmq_broker.go:344-356 | after every one of those faults, fault-free steps lead to a state where the task is unfinished and will never be started |
| `Losses.LateRecoveryLoses` | internal/usecase/outbox_service.go:418-422 | a late recovery write over a finished task makes it unfinished for ever |
| `Losses.BoundIsReached` | internal/usecase/outbox_service.go:364-391 | for every n a run from the empty database starts one task n + 1 times with n late recovery writes |
| `Cancellation.TerminalChangesExactly` | internal/usecase/worker.go:134 | a step changes the status of a terminal task if and only if it is a committed save of another status by a worker, a late recovery write, or a cancellation of a task not yet cancelled |
| `Cancellation.CancelledStaysExactly` | internal/infrastructure/persistence/video_task.go:178-184 | a cancelled task stays cancelled if and only if the step is neither a committed save of it nor a late recovery write over it |
| `Cancellation.TerminalKeptExactly` | internal/usecase/worker.go:210-217 | over any run a terminal task keeps its status throughout if and only if no step of the run is such an overwrite |
| `Cancellation.WorkerOverwrites` | internal/usecase/worker.go:290-306 | from every state in which a worker is past the start of a cancelled task, its saves can make the task failed or successful, and processing again before the video's properties are saved |
| `Cancellation.CancellationIsOverwritten` | internal/usecase/worker.go:134 | runs from the empty database in which a cancelled task becomes processing, successful and failed |
| `Cancellation.CancelledThenSuccess` | internal/usecase/worker.go:217 | a run from the empty database in which a task is cancelled while it is being transcoded and then saved as a success |
| `OutboxService.Service.PublishSingleEvent` | internal/usecase/outbox_service.go:200-306 | the committed row becomes published exactly when it was pending and the broker acked before the caller's deadline; a failure leaves every table as before; the event is handed over exactly if it was pending and there was time left; the wait comes off that time |
| `OutboxService.Service.GetPendingEvents` | internal/infrastructure/persistence/outbox.go:96-114 | of the pending events with retries left the oldest, oldest first, distinct, as many as the limit allows; a negative limit means all |
| `OutboxService.Service.PublishOutboxEvents` | internal/usecase/outbox_service.go:176-197 | the batch is tried in order, whatever the answers, until the shared deadline: exactly that prefix is handed over, and exactly the events acked in time become published |
| `OutboxService.Service.RecoverPendingTasks` | internal/usecase/outbox_service.go:349-434 | task after task as one transaction each, a failed one changing nothing |
| `OutboxService.RecoveryQueuesAndAnnounces` | internal/usecase/outbox_service.go:361-431 | a recovery pass queues exactly the listed pending tasks, gives those without an event one new pending event, touches nothing else, and never gives a task a second event |
| `OutboxService.RecoveredRows` | internal/usecase/outbox_service.go:399-416 | every event that recovery adds is pending, created now, with no retries and the configured limit or the column default |
| `OutboxService.RecoveryIsIdempotent` | internal/usecase/outbox_service.go:371-391 | a second pass over the same tasks changes nothing |
| `Backlog.PublishedExactlyWhen` | internal/usecase/outbox_service.go:326-330 | when creation times differ: every series of enough passes publishes the event if and only if fewer older events than the batch size are refused, and neither before it nor before an older acked event do refusals and its own answer use up a pass |
| `Backlog.NeverReached` | internal/usecase/outbox_service.go:326-330 | for any order of ties: an event with a batch of refused events before it, or that is too late or behind one that is, is unchanged after any number of passes |
| `Backlog.Reached` | internal/usecase/outbox_service.go:326-330 | for any order of ties: otherwise more passes than there are acked events that may come before it publish the event |
| `Backlog.CertainExactly` | internal/usecase/outbox_service.go:326-330 | for any creation times, answers and delays: the event is published at the end of every long enough series of passes if and only if fewer events at least as old than the batch size are refused and no refusals as old, with the answer after them, use up a pass before it or before an acked event as old |
| `Backlog.PossibleExactly` | internal/usecase/outbox_service.go:326-330 | it is published at the end of some long enough series of passes if and only if the same holds of the strictly older events |
| `Backlog.PromptlyCertain` | internal/usecase/outbox_service.go:212-293 | when each answer comes at once or not before the deadline: publication is certain if and only if fewer events at least as old than the batch size are refused and none of them is left unanswered |
| `Backlog.BlockedPass` | internal/usecase/outbox_service.go:250-276 | refused events stay eligible, so an event that they keep out of the batch, or that the deadline keeps from being sent in time, is as blocked after a pass as before |
| `Backlog.PassDrains` | internal/usecase/outbox_service.go:326-330 | with an acking broker a pass takes events off the backlog and adds none: at least one if there are any and each answer comes before the deadline, and exactly min(batch size, backlog) if all answers of the batch do |
| `Backlog.BacklogDrains` | internal/usecase/outbox_service.go:315-346 | so k passes leave at most n - k events when each answer comes before the deadline, and exactly n - k * batch size, or none, when those of a whole batch do |
| `Sequential.PublishIsRun` | internal/usecase/outbox_service.go:212-293 | publishing one event alone is a run of the pipeline with the effect of the sequential code, and leaves no lock behind |
| `Sequential.PassIsRun` | internal/usecase/outbox_service.go:188-194 | a whole pass alone, cut off by its deadline or not, is a run of the pipeline, for all answers of the broker |
| `Sequential.RecoverIsRun` | internal/usecase/outbox_service.go:364-423 | a recovery transaction alone is a run of the pipeline with the sequential effect, and its write is not late |
| `UseCases.VideoUseCase.SubmitTranscodeTask` | internal/usecase/video_usecase.go:40-101 | submitted if and only if both arguments are given, task and event ids are new and the transaction is stored, even when the read for an existing task fails or the broker refuses; then exactly those two rows are new, the event created now, with the configured retry limit, and published as the broker acked; otherwise nothing changes, and each error has its own condition |
| `UseCases.VideoUseCase.CancelTask` | internal/usecase/video_usecase.go:226-240 | an existing task, whatever its status, becomes cancelled with one log entry from its old status, and no other task changes; for a missing one nothing changes |
| `UseCases.StoredRow` | internal/usecase/outbox_service.go:121-154 | over any run the row that a submission stored keeps task, creation time, zero retries and retry limit |
| `UseCases.SubmissionsKeepOrder` | internal/infrastructure/persistence/outbox.go:96-114 | in every run, of two submissions whose events are in the backlog the scan never takes the later one without the earlier one before it |
| `UseCases.WorkerUseCase.ProcessTask` | internal/usecase/worker.go:62-233 | a started task ends as a success if and only if every step works and the last save is not rolled back, and as failed if a step fails and that save is not rolled back; the handler succeeds only if everything did; without a start nothing changes and the handler succeeds; other tasks and tables never change, and the count of active tasks is restored |
| `UseCases.WorkerUseCase.HandleTaskError` | internal/usecase/worker.go:290-306 | the task is saved as failed, the outcome of the save is ignored, and the handler fails |
| `UseCases.HandleMessage` | internal/infrastructure/broker/rabbitmq_broker.go:296-377 | undecodable messages are rejected and known ones acked, both without any change; any other message, also after an error of the duplicate check, starts a startable task, which ends as in ProcessTask; acked if and only if the handler succeeds |
| `UseCases.RedeliveryIsHarmless` | internal/infrastructure/broker/rabbitmq_broker.go:344-356 | once a message was handled and the start not rolled back, handling it again changes no task and logs no start, even if the duplicate check fails |
| `UseCases.SubmitIsRun` | internal/usecase/outbox_service.go:110-173 | a submission with its immediate publish, alone, is a run of the pipeline that counts as submitted exactly when the code says so and leaves no lock behind |
| `UseCases.HandlingIsRun` | internal/infrastructure/broker/rabbitmq_broker.go:344-377 | handling a delivery alone is a run of the pipeline: same tables, and the copy acked or discarded as the code settles it |
| `Confirms.KeepsInv` | internal/infrastructure/broker/rabbitmq_broker.go:126-257 | every lock, map and channel operation of any call, the loop, the broker or shutdown keeps the confirm invariant |
| `Confirms.SuccessMeansAcked` | internal/infrastructure/broker/rabbitmq_broker.go:197-257 | a call reports success only if the broker acked the tag this very call sent; a reported nack is a nack of that tag or a shutdown; a closed channel or a timeout is never success |
| `Confirms.TagsAreDistinct` | internal/infrastructure/broker/rabbitmq_broker.go:210-233 | no two calls that sent share a delivery tag |
| `Confirms.LoopNeverBlocksOrPanics` | internal/infrastructure/broker/rabbitmq_broker.go:131-152 | no channel is closed twice or written after its close, and while the loop holds the mutex it always has a step to take |
| `Confirms.WaitingCallsAreFound` | internal/infrastructure/broker/rabbitmq_broker.go:146-152 | no wake-up is lost: a waiting call's channel is readable or still in the map under its tag |
| `Confirms.PendingChannelsAreFresh` | internal/infrastructure/broker/rabbitmq_broker.go:210-247 | outside the loop's critical section every channel in the map is open and empty |
| `Sections.PublishIsRun` | internal/infrastructure/broker/rabbitmq_broker.go:210-233 | a publishing section alone is a run of the confirm protocol with the effect of the code |
| `Sections.AwaitIsRun` | internal/infrastructure/broker/rabbitmq_broker.go:238-248 | so is the end of a waiting call, with the result that the code returns |
| `Sections.ConfirmIsRun` | internal/infrastructure/broker/rabbitmq_broker.go:146-152 | so is the loop's section for a confirmation, which never panics |
| `Sections.CloseAllIsRun` | internal/infrastructure/broker/rabbitmq_broker.go:131-139 | so is the loop's last section, in whatever order it closes the channels |
| `Broker.RabbitMQBroker.Publish` | internal/infrastructure/broker/rabbitmq_broker.go:210-233 | the object's table changes as in `Sections.PublishIsRun`: an accepted message leaves a fresh open channel under a tag never used before; a refused one leaves the map as it was |
| `Broker.RabbitMQBroker.Await` | internal/infrastructure/broker/rabbitmq_broker.go:238-248 | result and table as in `Sections.AwaitIsRun`: success exactly for a received ack in time; a timeout takes the entry out of the map and leaves the channel alone |
| `Broker.RabbitMQBroker.HandleConfirmation` | internal/infrastructure/broker/rabbitmq_broker.go:146-152 | the table changes as in `Sections.ConfirmIsRun`: exactly the channel under the tag gets the confirmation and is closed and removed; all others stay open and empty |
| `Broker.RabbitMQBroker.CloseAll` | internal/infrastructure/broker/rabbitmq_broker.go:131-139 | the table changes as in `Sections.CloseAllIsRun`: every waiting channel is closed and the map is empty |
| `Scaling.CalculateWithRotation` | pkg/ffmpeg/scale.go:28-64 | both sides even and at least 2 for every integer input; for positive sources and targets from 2 on, the short side the target rounded down to even and the long side X with 0 <= L*t - X*S < 2*S |
| `Scaling.ScalingBounds` | pkg/ffmpeg/scale.go:39-63 | the same bounds for the plan as a function, which the playlist and the filtergraph use |
| `Scaling.SmallTargets` | pkg/ffmpeg/scale.go:55-61 | targets below 2 give a short side of 2, targets of 0 and less 2 by 2 |
| `Scaling.MonotoneInTarget` | pkg/ffmpeg/scale.go:41-61 | a larger target never gives a smaller side |
| `Scaling.CommutesWithSwap` | pkg/ffmpeg/scale.go:33-39 | swapping the source sides swaps the planned sides, and a quarter turn is such a swap |
| `Scaling.FloatScalingExact` | pkg/ffmpeg/scale.go:44-48 | with products below 2^53 the floating-point expression, rounded to nearest at every operation, is the integer quotient |
| `Scaling.GateIsExact` | pkg/ffmpeg/validator.go:92-112 | despite rounding, for sides of either sign the gate accepts exactly the sizes whose sides have the same sign and a ratio between 1:16 and 16:1 |
| `Scaling.AcceptedVideosStayInBounds` | pkg/ffmpeg/validator.go:92-112 | an accepted video is scaled to sides of at most sixteen times the target if and only if its sides are positive or the target is at least 120 |
| `Scaling.NegativeSizesPassTheGate` | pkg/ffmpeg/validator.go:92-95 | every size with two negative sides in the ratio passes and is planned as 1920 by 1080, for every target and rotation |
| `Rotation.NormalizeRotation` | pkg/ffmpeg/video_info.go:136-142 | an angle in 0..359 that differs by full turns, also for negative angles |
| `Rotation.NormalizingKeepsFilter` | pkg/ffmpeg/rotation.go:21-35 | normalising keeps the chosen filter if and only if the angle is below a full turn or no proper quarter turn |
| `Rotation.FilterTurnsFrame` | pkg/ffmpeg/rotation.go:38-50 | over arbitrary pixel matrices the filter for 90 * k degrees below a full turn makes k quarter turns counterclockwise, and any other angle leaves the frame as it is |
| `Rotation.FilterGivesEffectiveDimensions` | pkg/ffmpeg/rotation.go:68-73 | the filtered frame has the effective dimensions |
| `Rotation.OppositeRestores` | pkg/ffmpeg/rotation.go:21-50 | the filter for an angle, then the filter for its normalised opposite, restores every frame if and only if the angle is below a full turn or no proper quarter turn |
| `VideoInfo.ParseRotationValue` | pkg/ffmpeg/video_info.go:123-133 | numbers and parsable strings give the angle modulo 360, anything else gives 0 |
| `VideoInfo.ChooseRotation` | pkg/ffmpeg/video_info.go:100-113 | the stream's own angle unless it is zero, otherwise that of the first display matrix with an angle other than zero, and 0 if and only if there is none |
| `VideoInfo.OtherSideDataIgnored` | pkg/ffmpeg/video_info.go:104-113 | side data of other kinds, and matrices without an angle, never change the chosen angle, wherever they stand |
| `VideoInfo.PhoneVideo` | pkg/ffmpeg/video_info.go:100-142 | an upright phone video with a display matrix of -90 degrees is turned by 270 degrees |
| `VideoInfo.ParseStreams` | pkg/ffmpeg/video_info.go:92-117 | size and rotation of the last video stream, the first audio codec named |
| `VideoInfo.EncodedIsDescribedExactly` | pkg/ffmpeg/video_info.go:93-113 | size and rotation are those of the first video stream, which FFmpeg encodes, if and only if first and last video stream agree in size and angle; always with a single one |
| `VideoInfo.AudioCodecExactly` | pkg/ffmpeg/video_info.go:114-116 | a codec is reported if and only if some audio stream names one; so it tells whether there is an audio stream as long as all of them do |
| `VideoInfo.ProbedAngleIsUndone` | pkg/ffmpeg/video_info.go:123-142 | whether a quarter angle is a number or a string, the filter chosen after probing makes that many quarter turns |
| `Progress.Parse` | pkg/ffmpeg/progress.go:29-66 | for every stream of lines the reports are exactly the running maxima of the percentages that the lines mean, each once, in increasing order, ending at the last; a line means the full hundredths of the duration up to its leftmost time stamp, 100 from the full duration on; none without a duration or a callback |
| `Progress.FindTimeExactly` | pkg/ffmpeg/progress.go:21-45 | a line carries a time if and only if it contains a printed time stamp, and then the time of the leftmost one |
| `Progress.StampReadsBack` | pkg/ffmpeg/progress.go:39-45 | a printed stamp h:m:s.c, after any text without a stamp and before any text, reads back as 360000h + 6000m + 100s + c hundredths |
| `Progress.Progress` | pkg/ffmpeg/progress.go:47-51 | p is below 100 with p * duration <= 100 * time < (p + 1) * duration, or 100 exactly from the full duration on |
| `Progress.ReportsAreSane` | internal/infrastructure/transcoder/ffmpeg_transcoder.go:169-175 | reports strictly increase, lie in 0..100, number at most 101, and map to 10 plus nine tenths of them, rounded down, without ever decreasing |
| `Progress.ReportsUnique` | pkg/ffmpeg/progress.go:29-66 | the lines determine the reports |
| `Playlist.BuildMasterPlaylist` | pkg/ffmpeg/hls.go:21-33 | the printed text, entry by entry, for every list of variants |
| `Playlist.RoundTrip` | pkg/ffmpeg/hls.go:21-33 | a reader of the EXT-X-STREAM-INF form recovers exactly the printed variants if and only if every name is newline-free, no name starts with '#', and no number is negative |
| `Playlist.PrintedInjective` | pkg/ffmpeg/hls.go:21-33 | different plain variant lists print differently |
| `Text.ParsePrinted` | pkg/ffmpeg/hls.go:27-28 | a decimal number reads back as itself |
| `Filtergraph.BuildFiltergraph` | internal/infrastructure/transcoder/ffmpeg_transcoder.go:331-370 | the built text is the printed graph for that rotation and these sizes, with one output label per variant; an error without variants |
| `Filtergraph.GraphIsCorrect` | internal/infrastructure/transcoder/ffmpeg_transcoder.go:331-370 | for any rotation and number of variants every pad is produced once and consumed once, and what remains are exactly the distinct output pads, turned as the rotation asks, of the planned sizes and with square pixels |
| `Filtergraph.TurnsAgree` | pkg/ffmpeg/rotation.go:53-65 | the graph's quarter turns are what the filters do to every frame of pixels |
| `GraphReader.GraphReadsBack` | internal/infrastructure/transcoder/ffmpeg_transcoder.go:353-369 | reading a graph's text gives the graph back |
| `GraphReader.TextIsCorrect` | internal/infrastructure/transcoder/ffmpeg_transcoder.go:331-370 | the built text, read and evaluated, has exactly the output pads with the planned sizes |
| `Paths.CleanIdempotent` | internal/infrastructure/transcoder/ffmpeg_transcoder.go:143-156 | cleaning a path twice is cleaning it once, for every path |
| `Paths.JoinedElements` | internal/usecase/worker.go:267 | joining ordinary names to any path, even an empty one, appends them to its cleaned elements |
| `OutputPaths.RecordedIsUploaded` | internal/usecase/worker.go:189-197 | for slash-free names the stored playlist path is the key under which the variant's playlist is uploaded if and only if the name is ordinary |
| `OutputPaths.FixedFilesAreUploaded` | internal/usecase/worker.go:183-188 | the stored paths of master playlist and thumbnail are their object keys, for every task id |
| `OutputPaths.ReferenceIsUploaded` | pkg/ffmpeg/hls.go:29 | a player resolves a variant's URI in the master playlist to the key of its playlist if and only if the name has no '#', '?' or ':' |
| `OutputPaths.KeysDiffer` | internal/usecase/worker.go:251-287 | variants have the same key exactly when they have the same name, and never the key of a fixed file |
| `OutputPaths.FilesDiffer` | internal/infrastructure/transcoder/ffmpeg_transcoder.go:143-156 | different ordinary names give different playlist files; below a rooted directory all of them are absolute |
| `OutputPaths.CollidesExactly` | internal/infrastructure/transcoder/ffmpeg_transcoder.go:143-148 | among slash-free names exactly the name of a fixed file makes the variant's directory collide with that file |
| `OutputPaths.FileCollidesExactly` | internal/infrastructure/transcoder/ffmpeg_transcoder.go:143-156 | among slash-free names a variant's directory is in the way of a file that FFmpeg writes for a variant if and only if the latter has no directory of its own and the former is called like the file |
| `OutputPaths.LiteralExactly` | internal/infrastructure/transcoder/ffmpeg_transcoder.go:143-156 | a slash-free variant's directory is free of percent signs if and only if the output directory and the name are |
| `Segments.SegmentPlace` | internal/infrastructure/transcoder/ffmpeg_transcoder.go:156 | a variant's pattern expanded at k is the segment's name in the expanded directory; that is the directory of its playlist if and only if expanding leaves it as it is, always so without percent signs |
| `Segments.SegmentsApartExactly` | internal/infrastructure/transcoder/ffmpeg_transcoder.go:156 | segments of variants with ordinary names are one file if and only if they have the same number and the names expand to the same; so without percent signs only for the same variant and number |
| `Segments.SegmentKeyExactly` | internal/usecase/worker.go:251-287 | a segment is uploaded under its name next to the key of its playlist if and only if expanding leaves its directory as it is |
| `Segments.SegmentCollidesExactly` | internal/infrastructure/transcoder/ffmpeg_transcoder.go:143-156 | among slash-free names a variant's directory is in the way of a segment if and only if the segment's variant has no directory of its own, the other is called like the segment, and the output directory does not expand |
| `Isolation.KeysCoincideExactly` | internal/usecase/worker.go:251-287 | for arbitrary task ids, workers and files of a transcode: two object keys are the same if and only if it is the same file and the ids clean to the same path |
| `Isolation.TasksApartExactly` | internal/usecase/video_usecase.go:40-63 | two tasks never write the same object if and only if their ids clean to different paths |
| `Isolation.DifferentIdsShareKeys` | internal/usecase/video_usecase.go:40-63 | for every ordinary id, the different id with "./" before it has the same key for every file |
| `Isolation.WorkDirElements` | internal/usecase/worker.go:97 | where the working directory of any id is: as many elements up from cloud-media as the cleaned id climbs, then down the rest |
| `Isolation.StaysBelowExactly` | internal/usecase/worker.go:97-110 | for arbitrary ids the directory that is removed lies below cloud-media if and only if something is left of the cleaned id after it came back the way it climbed out |
| `Isolation.SlashFreeStaysBelow` | internal/usecase/worker.go:97-110 | among slash-free ids exactly the ordinary ones stay below; the directory of "." is cloud-media itself, that of ".." the temporary directory |
| `Isolation.RemovesExactly` | internal/usecase/worker.go:103-110 | for ids that do not climb, removing one task's directory removes another's if and only if the one's cleaned id is a prefix of the other's |
| `Isolation.OrdinaryTasksIsolated` | internal/usecase/worker.go:97-110 | tasks with ordinary ids share objects or directories only if the ids are equal; removing the directory of ".." removes every such task's |
| `Transcoder.PlanOutputs` | internal/infrastructure/transcoder/ffmpeg_transcoder.go:140-167 | one output per variant, in order, with its size, directory, playlist and segment pattern; an error when a directory cannot be made |
| `FfmpegCommand.BuildCommand` | internal/infrastructure/transcoder/ffmpeg_transcoder.go:271-291 | the whole command: global options, filtergraph, then every output's arguments with its own label; an error without variants |
| `FfmpegCommand.TargetsReadBack` | internal/infrastructure/transcoder/ffmpeg_transcoder.go:287-291 | FFmpeg reads the output arguments as one target per output with that output's options and file, if and only if no playlist path looks like an option |
| `FfmpegCommand.MappedPads` | internal/infrastructure/transcoder/ffmpeg_transcoder.go:377-379 | each output takes its own pad and the input's audio, and nothing else |
| `FfmpegCommand.CommandEncodes` | internal/infrastructure/transcoder/ffmpeg_transcoder.go:232-327 | the command, read by FFmpeg's rules, reads the one input without FFmpeg's own rotation and writes every output's file from its own pad, turned as the rotation asks and in the output's size, with every pad mapped once, if and only if the input has an audio stream; otherwise FFmpeg refuses it |
| `FfmpegCommand.CommandTargets` | internal/infrastructure/transcoder/ffmpeg_transcoder.go:372-394 | read back, every target has exactly the configured codecs, rates, preset, keyframe distance and segment length, lists all segments, and has the output's own bitrate and segment pattern |
| `FfmpegCommand.CommandReads` | internal/infrastructure/transcoder/ffmpeg_transcoder.go:271-291 | read back, the command has the one input, the thread count if and only if one is configured, the graph, and no rotation by FFmpeg itself |
| `Transcoder.CommandEncodesPlaylist` | internal/infrastructure/transcoder/ffmpeg_transcoder.go:141-167 | below a rooted directory every planned command encodes, variant by variant, the sizes and files that the master playlist lists, if and only if the input has an audio stream |
| `Transcoder.CommandPlacesSegments` | internal/infrastructure/transcoder/ffmpeg_transcoder.go:141-167 | of every variant the command as read back puts segment k under its name into the directory of that target's own playlist, if and only if expanding leaves the directory as it is |
| `Transcoder.ProbedFileEncodes` | internal/infrastructure/transcoder/ffmpeg_transcoder.go:98-217 | for a probed file FFmpeg accepts the planned command if and only if the file has an audio stream, which a reported codec guarantees |
| `Transcoder.CoverIsPlanned` | pkg/ffmpeg/video_info.go:92-117 | for a 1920 by 1080 video with a square cover picture behind it, every result of the probe plans the 720p variant as 720 by 720 instead of 1280 by 720 |
| `Transcoder.RecordVariants` | internal/infrastructure/transcoder/ffmpeg_transcoder.go:184-198 | label, path and bandwidth per variant, in order |
| `Transcoder.LabelReadsBack` | internal/infrastructure/transcoder/ffmpeg_transcoder.go:184-198 | the recorded label reads back as the variant's target and whether the turned picture is higher than wide; a negative target cannot be read back |
| `Transcoder.GenerateMasterPlaylist` | internal/infrastructure/transcoder/ffmpeg_transcoder.go:396-408 | the playlist lists every variant with the size that the planner gives it |
| `Transcoder.OutputInfo.RewritePaths` | internal/usecase/worker.go:181-197 | every path becomes relative to the task, empty ones stay empty, bucket and all other variant fields stay |
| `Transcoder.Transcode` | internal/infrastructure/transcoder/ffmpeg_transcoder.go:98-217 | success if and only if there are variants, every directory can be made, FFmpeg accepts the command, can open the playlists and segments that its targets name and finishes in time, and the master playlist can be written; then command, playlist and reported paths |
| `Transcoder.TranscodeSucceedsExactly` | internal/infrastructure/transcoder/ffmpeg_transcoder.go:133-204 | for slash-free names, given that FFmpeg finishes in time and nothing else refuses: success if and only if there is a variant, an audio stream, no variant called like a fixed file, and none called like a playlist or segment that a variant without a directory of its own writes |
| `Transcoder.FixedNamesCollide` | internal/infrastructure/transcoder/ffmpeg_transcoder.go:143-148 | a variant called like a fixed file is reached by every path and reference, but its directory is that file's path |
| `Transcoder.StoredPathsAreKeys` | internal/usecase/worker.go:181-208 | after a transcode and the rewrite, the stored master playlist and thumbnail are object keys, and each slash-free variant's path is one exactly when its name is ordinary; base path, bucket and bandwidths are the task's, the configuration's and the variants' |
| `Transcoder.PlaylistDescribesOutputs` | internal/infrastructure/transcoder/ffmpeg_transcoder.go:396-408 | for slash-free names: reading the master playlist gives all variants with sizes and bandwidths, every URI resolves to the stored path, which is the key of the written file, every segment's key is next to it, no two variants write one file, none obstructs a fixed file and no path has a percent sign, if and only if every name is servable, every bandwidth non-negative, no name occurs twice, and the output directory, if it is used, has no percent sign |

## Left out

- Guarantees.AttemptsAreBounded: a bound of one plus the late recovery writes instead of one, because the code's recovery takes no row lock; BoundIsReached shows that the bound is reached for every number of them.
- Guarantees.TerminalIsFinal: for runs without a late recovery write over the task, because such a write does reopen a terminal task, as LateRecoveryLoses shows; with a worker on the task, TerminalKeptExactly has the exact condition.
- NoTaskLost.NoTaskIsLost: for configured retry limits from 0 on; with a negative limit no pending row is eligible, as CommittedOutboxRows states. The excluded faults lose tasks, as LossesAreReal shows.
- Transcoder.CommandEncodesPlaylist: for rooted temporary directories, as the system's default is; TargetsReadBack has the exact condition on the paths.
- Backlog.CertainExactly: for answers that stay the same from pass to pass; with changing answers BlockedPass and AdvancingPass hold of each pass.
- Transcoder.TranscodeSucceedsExactly: whether a directory that a percent sign expands to exists, `%v` in playlist paths, the timeout and everything inside FFmpeg are in the parameter that says whether it finishes and how many segments it writes.
- Marks.BoundedExactly: clean-ups remove all rows of a message at once.
- Broker reconnects: delivery tags restart and waiting calls are orphaned; only the worker, which never publishes, reconnects.
- GORM, Postgres and AMQP internals: taken as the assumptions above.
- Returned (unroutable) messages: the code only logs them; by assumption an acked message is in the queue.
- `MarkAsFailed`, `IncrementRetry` and the other repository methods that the live path never calls.
- `ListPendingTasks`: the age limit only narrows what recovery looks at; recovery may look at any pending task in the model.
- Progress, timestamps, messages and all task columns but the status: no step of the protocol reads them.
- The service's start, stop and ticker: passes and clean-ups may happen at any time in the model.
- Object storage, FFmpeg and FFprobe runs, temporary directories: parameters saying whether they succeed; of the files only names and keys are kept.
- JSON of payloads and columns, traces, logs, metrics, health checks, configuration, RPC handlers, Kubernetes files and tools.
- `FormatCommand`: only used for logging.
- Frame rate parsing and the duration and file checks of the validator: plain comparisons.
- Progress.Progress: real arithmetic instead of floating point, so a percentage may differ by one where rounding crosses a full hundredth; the reports' order and bounds do not depend on it. Lines too long for the scanner are not modelled, and Parse's goroutine is not joined with the end of the transcode.
- Scaling.CalculateWithRotation: integer quotients; equal to the floating-point code for products below 2^53 by FloatScalingExact, not claimed beyond.
- OutputPaths.Resolve: percent signs in references are kept, as the decoding is up to the object server.
- The broker's `running` flag, Start and Stop as code: they are steps of Confirms only.
- Files of variants whose names have slashes: the exact results on paths are for slash-free names.
