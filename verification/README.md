# VibeMux in Dafny

A model of four parts of VibeMux and proofs about them. `dafny verify dfyconfig.toml` checks
everything.

## What is modelled

**The task pipeline** (`crates/vibemux_a2a`).
`Runtime` is the task runtime's actor as a state machine: one command, one joined job, a stop, a
drain step, a deadline or one read of a subscriber per step, in any order. `RuntimeInvariant` and
`RuntimeRuns` show what every step keeps, `RuntimeResults` states what follows for every run,
`RuntimeEffects` and `RuntimeCommands` say which end a task gets and how each command is decided,
and `RuntimeOwner` is the actor as an object whose methods are proved to be those steps and whose whole
life is proved to be a run.
`Canonical` is the input identity, `Pagination` the size-bounded listing, `Contract` the
validators and bounds. `Wire` and `DeltaStream` are the conversions and the two stream state
machines, the server that turns snapshots into deltas and the client that rebuilds them, with
`StreamObjects` as their objects and `StreamMeaning` saying what each event does. `SseFraming` is the event reader over network chunks and
`SseDelivery` joins all of it end to end.

**The icon encoders** (`crates/vibemux_desktop/icon.rs`).
`Crc32`, `Adler32`, `Zlib`, `Png` and `Ico`, each next to a decoder written from its standard:
RFC 1950 section 2.2, RFC 1951 section 3.2.4, RFC 2083 sections 3.1 to 3.4, and the Windows icon
and bitmap formats. The side of the image is a parameter.

**The acceptance report** (`scripts/dual_track_acceptance`).
`CargoLog` reads a test log and `CargoMeaning` says what each line decides. `AcceptanceReport` is
the validation, the verdict and scenario E01, `AcceptanceMeaning` says when a report is valid and
which verdict it gets, `AcceptanceResults` is the fixed point, and `AcceptanceObjects` the loops and
the report changed in place.

**Runs and their event log** (`src/vibemux`).
`RunLifecycle` performs spawn, send, stop and reconcile over a store with a failure possible at
every step; `RunServices` is the services and the store as objects.

`Text`, `Options`, `Sets`, `Selections` and `Bytes` hold what several of them need.

## What became a parameter

- The executor returns any outcome at any time, panics included; a deadline may fire at any point
  of a drain; which step comes next is free.
- Task ids, job ids and reply channels are handed in as new values; which callers have gone away
  is handed in with each command that looks.
- A floating-point number of a payload is its exact value; how text is rounded to it is not modelled.
- Serialized sizes of JSON values and artifacts come from a `Codec`; the sizes of snapshots and
  lists are computed from them. UTF-8, JSON and the JSON-RPC envelope of a server-sent event are
  functions of a `Reader`.
- A response is its chunks and the error its reading ends with. Git, terminals, worktrees and
  the database are the outcomes of a call's steps. A log line is what the parser's patterns
  recognise in it. The files a report cites are the problems and statuses they give.

## Where the code falls short of what it is for

- The client validates every intermediate mixture of old and new artifacts against the 32 KiB
  bound, so a delta between two acceptable snapshots can be refused. `DeltaStream.ClientFollowsServer`
  gives the exact condition, `DeltaStream.MixtureCanBeRefused` the family of runs that fail it.
- The bitmap header of the ICO file lacks its compression field. `Ico.WrittenHeaderIsRefused` and
  `Ico.CompleteHeaderRoundTrip` show that this is so for every image and that nothing else is wrong.
- A report with an E01 that is not required may contradict its own record.
  `AcceptanceResults.FixedPointExactly` gives the exact condition.

## Model

| member | source | states |
|---|---|---|
| `RuntimeResults.OwnerInvariant` | crates/vibemux_a2a/src/task_runtime.rs:87-118 | in every reachable state the recorded job ids are the live jobs, at most `max_parallel`, one-to-one with the unfinished tasks; at most 64 tasks; distinct (subject, key); at most 8 waiters, only on unfinished tasks already told to cancel |
| `RuntimeResults.IdMismatchIsUnreachable` | crates/vibemux_a2a/src/task_runtime.rs:103-108 | the id a finished job returns is always the one recorded for it, so the mismatch branch is dead |
| `RuntimeResults.StoredSnapshotsAreWellFormed` | crates/vibemux_a2a/src/task_runtime.rs:595-631 | in every reachable state each stored snapshot passes validation, carries its own id, has artifacts only if completed, has an error code exactly if failed, and is never submitted |
| `RuntimeResults.TerminalTasksNeverChange` | crates/vibemux_a2a/src/task_runtime.rs:600-603 | over any run a task keeps owner, key and identity, and once terminal nothing about it changes |
| `RuntimeResults.ShutdownIsComplete` | crates/vibemux_a2a/src/task_runtime.rs:126-151 | after a normal drain or a deadline abort no job is live, every task is terminal and no cancel waits; success is reported exactly if the deadline never expired and no job of the whole run crashed or was aborted |
| `RuntimeResults.NothingStartsAfterStop` | crates/vibemux_a2a/src/task_runtime.rs:278-300 | no execution starts in any continuation after stop |
| `RuntimeResults.ExactlyOnceReplies` | crates/vibemux_a2a/src/task_runtime.rs:278-315 | once stopped, every command ever taken from the queue was answered exactly once, unless a turn found it abandoned by its caller, and then never |
| `RuntimeResults.NeverAnsweredTwice` | crates/vibemux_a2a/src/task_runtime.rs:373-496 | at no point of any run was a reply channel answered twice, or answered for a command that was not taken |
| `RuntimeResults.CancelIsAnsweredTerminal` | crates/vibemux_a2a/src/task_runtime.rs:448-473 | a cancel is only ever answered with an error or a terminal snapshot, however long it was parked |
| `RuntimeResults.AtMostOneExecution` | crates/vibemux_a2a/src/task_runtime.rs:392-441 | over any run no two executions start for one (subject, idempotency key) |
| `RuntimeResults.RepeatedSend` | crates/vibemux_a2a/src/task_runtime.rs:385-403 | however much later, a send whose key is stored changes nothing but its own answer: the current snapshot of that same task if the input identity is equal, a refusal otherwise |
| `RuntimeResults.SubscriptionTraces` | crates/vibemux_a2a/src/task_runtime.rs:555-594 | whatever a subscription has yielded is a prefix of [terminal] or of [working, terminal], never a lag or closed error; it is over exactly when it yielded the terminal snapshot, which is the stored one; after the runtime stopped a reader reaches it |
| `RuntimeEffects.JoinDecides` | crates/vibemux_a2a/src/task_runtime.rs:102-118 | in every reachable state the join of a job ends exactly its task with the state, error code and artifacts its result dictates, field by field; every waiting cancel and every open receiver of that task gets that snapshot, nothing else changes, and the first crash of all is kept as the failure |
| `RuntimeEffects.EndsByItsOwnJoin` | crates/vibemux_a2a/src/task_runtime.rs:595-631 | over every run, a task that has ended owes its end to the join of its own job: that step exists, and the stored snapshot is the one its result dictates |
| `RuntimeCommands.SendIsDecided` | crates/vibemux_a2a/src/task_runtime.rs:380-442 | in every reachable state a send with a new key starts an execution if and only if its numbers are exact, it continues no task, fewer than 64 tasks are stored and fewer than `max_parallel` jobs are live; otherwise only the answer changes: invalid request, then unsupported, then busy |
| `RuntimeCommands.GetIsDecided` | crates/vibemux_a2a/src/task_runtime.rs:443-447 | a caller reads exactly its own tasks as they are stored; anything else is not found, and nothing changes |
| `RuntimeCommands.CancelIsDecided` | crates/vibemux_a2a/src/task_runtime.rs:448-473 | the owner, state and waiter conditions of each outcome of a cancel: not found, the canceled snapshot, unsupported, busy at eight waiters whose callers are still there, or the task told to cancel and the caller waiting last |
| `RuntimeCommands.SubscribeIsDecided` | crates/vibemux_a2a/src/task_runtime.rs:481-494 | a caller follows only its own task, refused as busy exactly at 32 receivers, from its current snapshot on |
| `RuntimeCommands.ListIsDecided` | crates/vibemux_a2a/src/task_runtime.rs:474-480 | in every reachable state a listing is cut from exactly the caller's own tasks that pass the filters, and only the answer changes |
| `RuntimeCommands.WalkVisitsOwn` | crates/vibemux_a2a/src/task_runtime.rs:497-554 | over the stored tasks of any reachable state, sending every token back visits exactly the caller's own tasks that pass the filters, or ends with Busy at one that fits no page, after exactly those before it |
| `RuntimeCommands.StopReachesAll` | crates/vibemux_a2a/src/task_runtime.rs:295-315 | a stop rejects every queued command and tells exactly the unfinished tasks to cancel |
| `RuntimeCommands.StopReports` | crates/vibemux_a2a/src/task_runtime.rs:126-151 | the stopped runtime reports the deadline if it expired, else the first failure, else success |
| `RuntimeRuns.StepKeeps` | crates/vibemux_a2a/src/task_runtime.rs:278-300 | every enabled step of the actor keeps the whole invariant and only evolves tasks forward |
| `RuntimeRuns.RunKeeps` | crates/vibemux_a2a/src/task_runtime.rs:278-300 | every finite run keeps the whole invariant, and tasks only evolve forward over it |
| `RuntimeRuns.HandleKeeps` | crates/vibemux_a2a/src/task_runtime.rs:373-496 | every command keeps the invariant |
| `RuntimeRuns.JoinKeeps` | crates/vibemux_a2a/src/task_runtime.rs:102-118 | a joined job, finished or crashed, keeps the invariant |
| `RuntimeRuns.CancelAllKeeps` | crates/vibemux_a2a/src/task_runtime.rs:119-125 | signalling every unfinished task keeps the invariant |
| `RuntimeRuns.PollKeeps` | crates/vibemux_a2a/src/task_runtime.rs:555-581 | a subscriber reading one item keeps the invariant |
| `RuntimeOwner.Owner.constructor` | crates/vibemux_a2a/src/task_runtime.rs:93-101 | a new owner is the start state of the machine |
| `RuntimeOwner.Owner.HandleCommand` | crates/vibemux_a2a/src/task_runtime.rs:373-496 | one command, executed in place, is the machine's handling of that command and keeps the object valid |
| `RuntimeOwner.Owner.TakeSend` | crates/vibemux_a2a/src/task_runtime.rs:380-442 | a send in place: refused identity, repeated key, continuation, busy, or admission, each as `RuntimeCommands.SendIsDecided` and `RuntimeResults.RepeatedSend` decide it |
| `RuntimeOwner.Owner.StartTask` | crates/vibemux_a2a/src/task_runtime.rs:412-441 | an admitted send answers submitted, stores working, and starts the one job |
| `RuntimeOwner.Owner.TakeCancel` | crates/vibemux_a2a/src/task_runtime.rs:448-473 | a cancel in place, with its four outcomes |
| `RuntimeOwner.Owner.AwaitCancel` | crates/vibemux_a2a/src/task_runtime.rs:460-468 | closed waiters are dropped, then the cancel waits or is refused as busy at eight |
| `RuntimeOwner.Owner.TakeSubscribe` | crates/vibemux_a2a/src/task_runtime.rs:481-494 | a subscription starts with the current snapshot and a receiver, up to 32 receivers |
| `RuntimeOwner.Owner.TakeList` | crates/vibemux_a2a/src/task_runtime.rs:474-480 | a listing is answered from the owner's entries in map order |
| `RuntimeOwner.Owner.FindKey` | crates/vibemux_a2a/src/task_runtime.rs:392-396 | the search for a stored (subject, key) finds the task exactly if one is stored |
| `RuntimeOwner.Owner.FinishTask` | crates/vibemux_a2a/src/task_runtime.rs:595-631 | finishing in place is the machine's finish: terminal state, validation fallback, broadcast, all waiters answered, as `RuntimeEffects.JoinDecides` decides them |
| `RuntimeOwner.Owner.DrainWaiters` | crates/vibemux_a2a/src/task_runtime.rs:627-629 | every parked cancel is answered with the final snapshot, in order |
| `RuntimeOwner.Owner.PublishTo` | crates/vibemux_a2a/src/task_runtime.rs:592-594 | one broadcast reaches exactly the open receivers of that task |
| `RuntimeOwner.Owner.JoinedJob` | crates/vibemux_a2a/src/task_runtime.rs:102-118 | a joined result in place is the machine's join, the first failure kept |
| `RuntimeOwner.Owner.SignalAll` | crates/vibemux_a2a/src/task_runtime.rs:119-125 | exactly the unfinished tasks are told to cancel |
| `RuntimeOwner.Owner.RejectQueue` | crates/vibemux_a2a/src/task_runtime.rs:295-315 | every queued command is rejected, each answered once |
| `RuntimeOwner.Owner.FinishRemaining` | crates/vibemux_a2a/src/task_runtime.rs:139-147 | the loop over tasks a deadline left unfinished is dead: once every job is joined every task is terminal, and it changes nothing |
| `RuntimeOwner.Owner.RunOwner` | crates/vibemux_a2a/src/task_runtime.rs:278-300 | the object's whole life, any turns then stop and shutdown, is a run of the machine from its start; it ends with no job, every task terminal and no waiter, and reports success exactly if no deadline expired and no job crashed |
| `RuntimeOwner.Owner.ServeTurn` | crates/vibemux_a2a/src/task_runtime.rs:285-294 | one turn of the serving loop is a step of the machine and uses up only its own channel and ids |
| `RuntimeOwner.Owner.ReadStream` | crates/vibemux_a2a/src/task_runtime.rs:555-581 | one poll of a subscriber, in place, yields the next item and nothing after the end |
| `RuntimeOwner.Owner.Shutdown` | crates/vibemux_a2a/src/task_runtime.rs:126-151 | rejecting, draining, and a deadline at any point amount to a run of the machine that ends stopped with the reported result |
| `RuntimeOwner.Owner.DrainJobs` | crates/vibemux_a2a/src/task_runtime.rs:128-133 | joining jobs one by one until none is left or the deadline expires is a run of the machine |
| `RuntimeOwner.Owner.AbortJobs` | crates/vibemux_a2a/src/task_runtime.rs:134-148 | aborting, joining and failing what is left is a run of the machine that ends with the deadline error |
| `Canonical.CanonicalPayloadsDecideMeaning` | crates/vibemux_a2a/src/task_runtime.rs:323-372 | a payload is refused exactly if an integral number at some depth is beyond ±(2^53-1), and two accepted payloads normalise equally exactly if they are equal up to number spelling and key order |
| `Canonical.NormaliseIdempotent` | crates/vibemux_a2a/src/task_runtime.rs:323-372 | normalising a normalised payload changes nothing |
| `Canonical.NormaliseSound` | crates/vibemux_a2a/src/task_runtime.rs:323-372 | success exactly on exact payloads; the result is normal and means the same |
| `Canonical.NormalFormUnique` | crates/vibemux_a2a/src/task_runtime.rs:323-372 | two normal payloads of one meaning are equal |
| `Canonical.InputIdentityDecides` | crates/vibemux_a2a/src/task_runtime.rs:318-322 | two requests share an identity exactly if context, continued task and payload meaning agree |
| `Text.SortKeys` | crates/vibemux_a2a/src/task_runtime.rs:87-92 | the keys of a map in ascending order, each once, as the code's ordered map iterates them |
| `Contract.ErrorCodeIsIdentifier` | crates/vibemux_a2a/src/task_contract.rs:320-336 | every error code is itself a valid task identifier, so a failed snapshot validates |
| `Contract.BareSnapshotIsValid` | crates/vibemux_a2a/src/task_contract.rs:170-185 | a snapshot with valid ids, no artifacts and a valid or missing code always validates |
| `Pagination.PaginationIsAPartition` | crates/vibemux_a2a/src/task_runtime.rs:497-554 | following next-page tokens visits every matching task exactly once in order, or stops with Busy exactly at the first task that cannot fit alone, having seen exactly those before it |
| `Pagination.ListedIsViews` | crates/vibemux_a2a/src/task_runtime.rs:502-537 | the list a page is cut from is the only one that holds, in map order, a view of each entry of the caller with the context and state asked for |
| `Pagination.AnswerExactly` | crates/vibemux_a2a/src/task_runtime.rs:515-554 | each answer: invalid for a token that is no offset, Busy exactly if the next task does not fit alone, else a page that continues the list, with the total and a token exactly if more is left |
| `Pagination.WalkEnds` | crates/vibemux_a2a/src/task_runtime.rs:497-554 | following tokens ends with the whole list, or with Busy at a task that does not fit alone |
| `Pagination.PageIsLongest` | crates/vibemux_a2a/src/task_runtime.rs:530-550 | each page is the longest run of what is left that fits the request and the 32 KiB bound |
| `Pagination.TokenAdvances` | crates/vibemux_a2a/src/task_runtime.rs:551-553 | a page with a next token holds a task and the token is the offset just past it |
| `Pagination.ListTasks` | crates/vibemux_a2a/src/task_runtime.rs:497-554 | the in-place page builder is the listing function, and its validation after the loop never fails |
| `Pagination.FillPage` | crates/vibemux_a2a/src/task_runtime.rs:533-550 | the push, validate and pop loop ends at the longest fitting page or at Busy |
| `Pagination.Collect` | crates/vibemux_a2a/src/task_runtime.rs:502-514 | the filter keeps exactly the entries of the caller with the context and state asked for, each once and in map order, with artifacts only if asked for |
| `Pagination.FitsBySize` | crates/vibemux_a2a/src/task_contract.rs:241-258 | a page of valid tasks validates exactly if it is short and small enough |
| `Pagination.LongerPageDoesNotFit` | crates/vibemux_a2a/src/task_contract.rs:241-258 | once a page is too large every longer one is |
| `Wire.PartRoundTrip` | crates/vibemux_a2a/src/task_wire.rs:96-139 | a part is read back unchanged if valid and refused if not |
| `Wire.ArtifactRoundTrip` | crates/vibemux_a2a/src/task_wire.rs:194-206 | an artifact is read back unchanged if valid and refused if not |
| `Wire.SnapshotRoundTrip` | crates/vibemux_a2a/src/task_wire.rs:140-193 | a snapshot that can be sent is read back unchanged, error code included |
| `DeltaStream.ClientFollowsServer` | crates/vibemux_a2a/src/task_server.rs:185-243 | over every run the server accepts with distinct ids and matching interruption modes, the client reads all events without error and without ending early exactly if every intermediate mixture fits; it then agrees on identity, state, error code and artifact per id, and has ended exactly if the server is done |
| `DeltaStream.ClientKeepsOrder` | crates/vibemux_a2a/src/task_wire.rs:324-338 | if each snapshot's ids extend the previous ids the client's list is equal, order included |
| `DeltaStream.FirstBatch` | crates/vibemux_a2a/src/task_server.rs:232-238 | the first snapshot travels whole and puts both sides in step |
| `DeltaStream.LaterBatch` | crates/vibemux_a2a/src/task_server.rs:193-231 | a later snapshot's events are read to its state exactly if its mixtures fit; the ending status update is last |
| `DeltaStream.OpenedInStep` | crates/vibemux_a2a/src/task_grpc.rs:431-446 | a stream just opened on both sides is in step |
| `DeltaStream.MixtureCanBeRefused` | crates/vibemux_a2a/src/task_wire.rs:342-349 | for every size function: whenever two snapshots are within the bound and the old artifact together with the added one is not, the server emits the run and the client cannot be delivered it |
| `DeltaStream.RepeatedIdsDiverge` | crates/vibemux_a2a/src/task_wire.rs:324-338 | if two artifacts share an id and the second changes, the run is served and read without an error, and the client ends with an artifact the server dropped and without one it has |
| `DeltaStream.UpsertIsUpdate` | crates/vibemux_a2a/src/task_wire.rs:324-338 | replacing by id is a map update on lists with distinct ids |
| `StreamMeaning.EndsExactly` | crates/vibemux_a2a/src/task_server.rs:239-251 | a stream ends with the four terminal states, and with input or authorization required exactly if it stops on interruption |
| `StreamMeaning.ReadsUntilTheEnd` | crates/vibemux_a2a/src/task_server.rs:185-243 | a server reads up to and including the first snapshot that ends the stream, all of them if none does |
| `StreamMeaning.BatchExactly` | crates/vibemux_a2a/src/task_server.rs:185-201 | a server accepts exactly the valid snapshots of its task and context that keep every earlier artifact id, and which error it is otherwise |
| `StreamMeaning.LaterEvents` | crates/vibemux_a2a/src/task_server.rs:193-231 | a later snapshot is sent as one replacing update per new or changed artifact, in order, then a status update exactly if state or error code changed |
| `StreamMeaning.UpsertExactly` | crates/vibemux_a2a/src/task_wire.rs:324-338 | an update extends the parts of the first artifact of its id if it appends, replaces it if not, or adds the artifact at the end; every other artifact stays |
| `StreamMeaning.StatusExactly` | crates/vibemux_a2a/src/task_wire.rs:305-317 | a status update is accepted exactly after a snapshot of the same task with a specified state, and gives that state and error code if valid |
| `StreamMeaning.ArtifactExactly` | crates/vibemux_a2a/src/task_wire.rs:318-349 | an artifact update is accepted exactly after a snapshot of the same task, for a valid artifact and a valid result |
| `StreamMeaning.TaskExactly` | crates/vibemux_a2a/src/task_wire.rs:299-350 | a whole task is taken as it is, unless of another task or context than before |
| `StreamMeaning.ReceiveExactly` | crates/vibemux_a2a/src/task_grpc.rs:447-487 | a stream client accepts a decoded snapshot exactly if it is of the expected task and context, pins them, and has ended exactly if the state ends the stream |
| `StreamObjects.SubscriptionState.SnapshotEvents` | crates/vibemux_a2a/src/task_server.rs:185-243 | in place: exactly the batch of events is queued and the state moves on; a refused snapshot changes nothing |
| `StreamObjects.SubscriptionState.NextEvent` | crates/vibemux_a2a/src/task_server.rs:147-171 | each turn yields the next of what is left: pending events in order, then what the next items give, nothing after an error, a done state or the stop signal |
| `StreamObjects.SubscriptionState.AwaitItem` | crates/vibemux_a2a/src/task_server.rs:158-168 | waiting for an item, the deadline or the stop signal leaves what is still to be emitted unchanged |
| `StreamObjects.SubscriptionState.SignalStop` | crates/vibemux_a2a/src/task_server.rs:149-151 | after the stop signal nothing more is emitted, pending events included |
| `StreamObjects.SubscriptionState.MissesArtifact` | crates/vibemux_a2a/src/task_server.rs:194-201 | detects a snapshot that lost an artifact id |
| `StreamObjects.SubscriptionState.PushArtifacts` | crates/vibemux_a2a/src/task_server.rs:202-215 | queues exactly the new and changed artifacts, in order |
| `StreamObjects.ClientStream.ApplyEvent` | crates/vibemux_a2a/src/task_wire.rs:299-350 | in place: the next snapshot is stored, a refused event changes nothing |
| `StreamObjects.ClientStream.PutArtifact` | crates/vibemux_a2a/src/task_wire.rs:324-338 | the index search and replacement is the upsert by id |
| `StreamObjects.ClientStream.ReadEvent` | crates/vibemux_a2a/src/task_grpc.rs:447-487 | ids are pinned by the first snapshot; the stream ends on an error or an ending state |
| `StreamObjects.EmissionsAreServed` | crates/vibemux_a2a/src/task_server.rs:129-172 | what a subscription object emits over its life is the run's events one by one |
| `SseFraming.BoundaryIsStable` | crates/vibemux_a2a/src/task_client.rs:499-510 | a boundary found in a buffer stays the first boundary however many bytes are appended |
| `SseFraming.ChunkedIsOnePass` | crates/vibemux_a2a/src/task_client.rs:455-498 | reading chunk by chunk agrees with one pass over the bytes up to at most a chunk refused as too long, and is that pass while every chunk fits |
| `SseFraming.ChunkIndependence` | crates/vibemux_a2a/src/task_client.rs:455-498 | two ways of cutting the same bytes into chunks within the bound give the same results |
| `SseFraming.NextSnapshot` | crates/vibemux_a2a/src/task_client.rs:455-498 | a snapshot consumes input, and a buffer within 64 KiB stays within it |
| `SseFraming.EventBoundary` | crates/vibemux_a2a/src/task_client.rs:499-510 | the index scan finds the first frame end |
| `SseFraming.BoundaryIs` | crates/vibemux_a2a/src/task_client.rs:499-510 | the boundary is exactly the first index where a frame end starts |
| `SseFraming.BoundaryExactly` | crates/vibemux_a2a/src/task_client.rs:499-510 | the first boundary is exactly the first place where the bytes 10 10, 13 13 or 13 10 13 10 start, and the next frame starts after them |
| `SseFraming.FramesOfEvents` | crates/vibemux_a2a/src/task_client.rs:455-460 | events without line breaks come back one by one, however each is closed |
| `SseFraming.ResultsAreOwn` | crates/vibemux_a2a/src/task_client.rs:455-498 | whatever bytes arrive, cut anywhere, a client yields snapshots of the task it asked for only, goes on exactly after those that are not terminal, and stops with the first terminal one or an error |
| `SseFraming.DataRoundTrip` | crates/vibemux_a2a/src/task_client.rs:461-469 | a text of any number of lines, each sent as a data line ended by LF or CR LF, is read back with its line feeds |
| `SseFraming.OtherLineIsIgnored` | crates/vibemux_a2a/src/task_client.rs:461-469 | a line that is no data line changes nothing |
| `SseFraming.SseState.ReadSnapshot` | crates/vibemux_a2a/src/task_client.rs:455-498 | the drain and extend loop, in place, is the next-snapshot function; the buffer keeps its bound |
| `SseFraming.SseState.Poll` | crates/vibemux_a2a/src/task_client.rs:281-290 | the stream yields exactly the results and nothing after an error or a terminal snapshot |
| `SseDelivery.FramesAreDelivered` | crates/vibemux_a2a/src/task_client.rs:455-498 | end to end down to the bytes: server snapshots, as delta events, each written as one frame, the bytes cut into chunks anywhere, arrive as one good snapshot per event, the last agreeing with the server's; then nothing more if the task is over, else the error the response ends with |
| `SseDelivery.StreamIsDelivered` | crates/vibemux_a2a/src/task_client.rs:455-498 | the same for any bytes that carry the events, also with frames that hold no data |
| `SseDelivery.FramedCarries` | crates/vibemux_a2a/src/task_client.rs:458-470 | frames of one data line each, closed by empty lines, carry exactly their events |
| `SseDelivery.OnePassFeeds` | crates/vibemux_a2a/src/task_client.rs:455-498 | one pass over the bytes is feeding the events to the decoder |
| `Crc32.BurstIsDetected` | crates/vibemux_desktop/icon.rs:199-209 | two different byte strings of equal length that differ only within 32 consecutive bits, at any bit offset in the order the bits are taken, have different CRCs |
| `Crc32.ByteBurstIsDetected` | crates/vibemux_desktop/icon.rs:199-209 | so do strings that differ only within four consecutive bytes |
| `Crc32.CrcIsPolynomialDivision` | crates/vibemux_desktop/icon.rs:199-209 | the loop computes the remainder by the standard polynomial, bits least significant first, reflected and complemented |
| `Crc32.Compute` | crates/vibemux_desktop/icon.rs:199-209 | the nested loops compute the CRC function |
| `Crc32.BitStepLinear` | crates/vibemux_desktop/icon.rs:203-206 | the bit step is linear over exclusive or |
| `Crc32.SerialInjective` | crates/vibemux_desktop/icon.rs:199-209 | the same bits never merge two different states |
| `Crc32.StateIsSerial` | crates/vibemux_desktop/icon.rs:201-207 | taking a byte and making eight steps is taking one bit at each step |
| `Crc32.SerialIsWord` | crates/vibemux_desktop/icon.rs:199-209 | up to 32 bits act on the state as one word |
| `Adler32.Compute` | crates/vibemux_desktop/icon.rs:211-219 | on 32-bit numbers, no addition of the loop leaves the range, and the two sums joined by shift and or are the bits of the closed form: 1 plus the sum, and the length plus the sum weighted by distance from the end, modulo 65521 |
| `Bytes.ShiftOrIsSum` | crates/vibemux_desktop/icon.rs:218-218 | two 16-bit halves joined by shift and or are the bits of high times 65536 plus low |
| `Adler32.WeightedAppend` | crates/vibemux_desktop/icon.rs:214-217 | one more byte raises every weight by one |
| `Zlib.RoundTrip` | crates/vibemux_desktop/icon.rs:140-157 | a zlib decoder that checks the header, every block header, the one final block and the checksum recovers the data of every stream |
| `Zlib.BlocksRoundTrip` | crates/vibemux_desktop/icon.rs:143-154 | the stored blocks decode to the data and leave what follows them |
| `Zlib.StreamLength` | crates/vibemux_desktop/icon.rs:140-157 | the stream is the data, six bytes, and five bytes per block of at most 65535, one block for no data |
| `Zlib.Write` | crates/vibemux_desktop/icon.rs:140-157 | the block loop writes that stream |
| `Png.RoundTrip` | crates/vibemux_desktop/icon.rs:109-127 | a PNG decoder that checks the signature, every chunk CRC, the header and the closing chunk recovers the pixels, for every side up to 32766 |
| `Png.DataFits` | crates/vibemux_desktop/icon.rs:130-130 | the compressed data fits the 32-bit length field exactly for sides up to 32766 |
| `Png.ChunkRoundTrip` | crates/vibemux_desktop/icon.rs:129-137 | a chunk is read back with kind, data and a correct CRC |
| `Png.DamageIsDetected` | crates/vibemux_desktop/icon.rs:129-137 | a chunk changed within 32 consecutive bits of kind and data is refused |
| `Png.RowsRoundTrip` | crates/vibemux_desktop/icon.rs:110-116 | rows behind a zero filter byte decode to the pixels |
| `Png.PushChunk` | crates/vibemux_desktop/icon.rs:129-137 | appends exactly the chunk |
| `Png.FilteredRows` | crates/vibemux_desktop/icon.rs:110-116 | the row loop writes a zero byte and the pixels of each row |
| `Png.Write` | crates/vibemux_desktop/icon.rs:109-127 | writes signature, header, data and end in order |
| `Ico.WrittenHeaderIsRefused` | crates/vibemux_desktop/icon.rs:170-182 | for every side from 1 to 256 the file as written is refused by a bitmap reader: the header declares 40 bytes, holds 36, and has the image length where compression belongs |
| `Ico.CompleteHeaderRoundTrip` | crates/vibemux_desktop/icon.rs:160-197 | with the four missing bytes the same file decodes to the pixels, for every side from 1 to 256 |
| `Ico.BottomUpRoundTrip` | crates/vibemux_desktop/icon.rs:161-166 | bottom-up rows in blue, green, red, alpha order decode to the pixels |
| `Ico.Write` | crates/vibemux_desktop/icon.rs:160-197 | writes exactly the file with nothing in the compression field |
| `Ico.PushBottomUp` | crates/vibemux_desktop/icon.rs:161-166 | the reversed row loop writes the rows bottom-up |
| `CargoLog.ParseCargoTestOutput` | scripts/dual_track_acceptance/check_execution.py:323-398 | the line loop yields the run the log describes: each target from its header, the lines below it up to the next header and the artifacts before it; tests above the first header, unknown executables and compiler errors counted |
| `CargoLog.ResultsAreConserved` | scripts/dual_track_acceptance/check_execution.py:323-398 | test lines equal recorded outcomes plus duplicates over all targets plus the unattributed count |
| `CargoLog.NoProblemsReconciles` | scripts/dual_track_acceptance/check_execution.py:201-219 | with no problems, per target the test lines, the counts and the printed summary agree for passed, failed and ignored, and so do the totals of the whole log |
| `CargoLog.NoProblemsIs` | scripts/dual_track_acceptance/check_execution.py:263-273 | the problem list is empty exactly if every target is complete and nothing is unattributed, unknown or failed to compile |
| `CargoLog.CompleteIs` | scripts/dual_track_acceptance/check_execution.py:201-219 | a target has no problems exactly if it has a summary, its counts equal it, all planned tests reported, none filtered, none repeated |
| `CargoLog.SummaryIsPrinted` | scripts/dual_track_acceptance/check_execution.py:392-397 | a target keeps the first summary printed below its header |
| `CargoLog.TestsBySegment` | scripts/dual_track_acceptance/check_execution.py:370-391 | every test line is above the first header or below exactly one |
| `CargoMeaning.LogExactly` | scripts/dual_track_acceptance/check_execution.py:323-398 | by the positions of the log's lines: one target for each header, named by the last artifact above it for its executable or unknown; below it, up to the next header, the last planned count, for each test the outcome of its last line, each repetition in order, and the first summary; test lines above every header, executables without an artifact above and compiler errors |
| `CargoMeaning.SegmentsExactly` | scripts/dual_track_acceptance/check_execution.py:356-378 | the targets are the headers in order, each with the lines down to the next |
| `CargoMeaning.TargetExactly` | scripts/dual_track_acceptance/check_execution.py:356-397 | one target, field by field, from the lines above and below its header |
| `CargoMeaning.ArtifactsExactly` | scripts/dual_track_acceptance/check_execution.py:342-347 | the last artifact reported for an executable counts |
| `AcceptanceResults.DraftDecides` | scripts/dual_track_acceptance/runner.py:252-276 | for every unblocked run, final validation finds exactly what draft validation found, E01 passes exactly if that is nothing, and the verdict follows from the classes |
| `AcceptanceResults.RequiredE01IsFixedPoint` | scripts/dual_track_acceptance/runner.py:417-422 | with a required E01 the written report validates again to exactly the recorded problems and its verdict follows from its classes |
| `AcceptanceResults.FixedPointExactly` | scripts/dual_track_acceptance/runner.py:417-422 | in general the written report is a fixed point if and only if the draft has no problems, or E01 is required, or a required class of the draft failed; otherwise a second validation adds the verdict and the differing record |
| `AcceptanceResults.DraftTells` | scripts/dual_track_acceptance/assessment.py:319-343 | once E01 is decided against problems, a required class has failed exactly if E01 is required or a required class of the draft failed |
| `AcceptanceResults.OptionalE01IsNoFixedPoint` | scripts/dual_track_acceptance/runner.py:417-422 | for every draft with problems, no required E01 and no failed required class, the written report contradicts its own record |
| `AcceptanceResults.OptionalE01Instance` | scripts/dual_track_acceptance/runner.py:417-422 | a named report with an optional E01 and a missing field is such a draft |
| `AcceptanceResults.BlockedIsFixedPoint` | scripts/dual_track_acceptance/report_validation.py:299-311 | a blocked run's report validates again to what it records |
| `AcceptanceResults.PassMeansValid` | scripts/dual_track_acceptance/assessment.py:319-343 | a written pass has no problems on a second validation, and every required class passed, live classes of an offline run aside |
| `AcceptanceMeaning.VerdictExactly` | scripts/dual_track_acceptance/assessment.py:319-343 | each verdict if and only if, over the required classes: fail if one failed; full pass if live and all passed; offline pass if not live, none failed, some class needs no live run and all of those passed; blocked otherwise |
| `AcceptanceMeaning.WrittenVerdict` | scripts/dual_track_acceptance/runner.py:417-422 | the verdict of a written report in the same terms: fail with problems, otherwise exactly what its classes say |
| `AcceptanceMeaning.WrittenScenarios` | scripts/dual_track_acceptance/runner.py:252-276 | the written scenarios are the draft's, with only E01's class decided: pass without problems, fail with them |
| `AcceptanceMeaning.WorstIsWorst` | scripts/dual_track_acceptance/assessment.py:91-95 | a scenario's status is the most severe of its classes |
| `AcceptanceMeaning.StructureExactly` | scripts/dual_track_acceptance/report_validation.py:184-247 | no structural problem if and only if ids, classes, statuses, reasons, references and scenario statuses are well formed |
| `AcceptanceMeaning.ValidExactly` | scripts/dual_track_acceptance/report_validation.py:282-322 | an unblocked report is valid if and only if it is well formed, its artifacts load, every class but E01's is as they give it, E01 did not fail and the verdict follows |
| `AcceptanceMeaning.BlockedExactly` | scripts/dual_track_acceptance/report_validation.py:299-311 | a blocked report is valid if and only if it is well formed, its artifacts load, no command ran and every class and the verdict are blocked |
| `AcceptanceResults.ScenariosKeepProblems` | scripts/dual_track_acceptance/report_validation.py:211-231 | deciding E01 changes no structural or reconciliation finding and no scenario shape |
| `AcceptanceResults.DecidedEntryIsGood` | scripts/dual_track_acceptance/report_validation.py:213-229 | the entry written for E01 has no problems of its own, passing or failing |
| `AcceptanceObjects.ValidateReport` | scripts/dual_track_acceptance/report_validation.py:282-322 | the whole validation, blocked, draft and final |
| `AcceptanceObjects.Document.DecideE01` | scripts/dual_track_acceptance/runner.py:252-276 | in place: every E01 entry, its scenario status and the verdict become the decided ones |
| `AcceptanceObjects.Document.Finish` | scripts/dual_track_acceptance/runner.py:417-422 | in place: the report becomes the written one |
| `RunLifecycle.LogRefinesState` | src/vibemux/services.py:236-382 | over every sequence of calls with a failure at any step, a row's status is the one its last lifecycle event stands for, its committed history is what its events tell and one of seven (each a path of the transition table, none with a success), and rows are whole |
| `RunLifecycle.RunsAgree` | src/vibemux/storage.py:219-249 | after every sequence of calls, rows, committed statuses and events agree for every run |
| `RunLifecycle.SaveAgrees` | src/vibemux/storage.py:219-249 | a save with the event of its status, along one of the changes calls make, keeps row, history and events in agreement |
| `RunLifecycle.SpawnAgrees` | src/vibemux/services.py:277-359 | every spawn does, also when the save of RUNNING rolls back before FAILED |
| `RunLifecycle.CallAgrees` | src/vibemux/services.py:415-427 | every stop, reconcile and send does |
| `RunLifecycle.FinishedRunsAreKept` | src/vibemux/models.py:54-61 | a stopped or failed run is never changed again by any later calls |
| `RunLifecycle.ReconcileExactly` | src/vibemux/services.py:477-504 | a row becomes stale, with its event and nothing else changed, exactly if it was running, there were issues and the save commits |
| `RunLifecycle.StopExactly` | src/vibemux/services.py:415-427 | a row becomes stopped exactly if it was running or stale, its terminal was there and stopped, and the save commits; otherwise nothing changes |
| `RunLifecycle.SendExactly` | src/vibemux/services.py:390-413 | a message is logged exactly if the run is there, it was delivered and the append commits; no row ever changes |
| `RunLifecycle.SpawnExactly` | src/vibemux/services.py:236-382 | which row a spawn leaves: none, running, failed or still preparing, each exactly by the steps that worked; no other row changes |
| `RunLifecycle.FailedSpawnExactly` | src/vibemux/services.py:324-358 | the row of a failed spawn names what was made and opened, why it failed, and how it was undone, terminal before worktree |
| `RunLifecycle.SpawnLogs` | src/vibemux/services.py:277-382 | the events a spawn logs, in order |
| `RunServices.Storage.SaveRun` | src/vibemux/storage.py:219-249 | row and event commit together; a failure of either statement changes nothing |
| `RunServices.Storage.AppendEvent` | src/vibemux/storage.py:289-302 | one event is appended, or nothing |
| `RunServices.RunService.SpawnRun` | src/vibemux/services.py:236-382 | step by step, spawn leaves the specified store; a returned run is the stored RUNNING row |
| `RunServices.RunService.Compensate` | src/vibemux/services.py:324-358 | the exception path saves FAILED with its compensation from PREPARING or RUNNING, and saves nothing if undoing itself fails unexpectedly |
| `RunServices.RunService.StopRun` | src/vibemux/services.py:415-427 | the store is exactly as the calls specify, also on failure; it returns exactly if the run is there and, when running or stale, its terminal was there, stopped, and the save committed |
| `RunServices.RunService.ReconcileRun` | src/vibemux/services.py:477-504 | the store is exactly as the calls specify, also on failure; it returns exactly if the run is there and the save, where one is due, committed |
| `RunServices.RunService.SendText` | src/vibemux/services.py:390-413 | a delivered message is logged and changes no run |

## Left out

- HTTP, JSON-RPC, gRPC and socket plumbing, agent cards, credentials, ETags and URL checks: foreign calls or single branches.
- `request_to_wire`, `request_from_wire`, `reply_to_wire`, `reply_from_wire` and the state and error tables of `task_wire.rs`: one record field to one record field, or finite tables; the conversions with cases of their own are in `Wire`.
- Capacity of the command queue and of the broadcast channel: the queue is any sequence of accepted commands; that the channel never overflows is part of `RuntimeResults.SubscriptionTraces`.
- `render`, `inside_polygon` and `inside_rounded_square` of `icon.rs`: floating point over fixed constants.
- Recognising a line of a cargo log by pattern, normalising executable paths and deriving package names: `CargoLog` starts from the recognised line.
- The evidence checks, digests and projections behind `load_run_artifacts`, `assess_class` and the references of an entry: they enter validation as given findings, unchanged between a run and a later validation.
- The texts of problems, and the `evidence` and `reason` of a scenario, which validation never reads.
- The status of tasks, run metadata other than the failure code and the compensation, and overlapping calls on one run in `src/vibemux`.
- Png.RoundTrip: stated for sides up to 32766, because the code truncates the length of longer data (`Png.DataFits`).
- AcceptanceObjects.ValidateReport: the checks of fields, inputs, offline records and claims, the loading of artifacts and the re-derived statuses enter as given findings, because they read files and parts of the report that a run never changes once they are built.
- Ico.WrittenHeaderIsRefused: stated for sides up to 256, because a side is stored in one byte.
- DeltaStream.ClientFollowsServer: requires distinct artifact ids in each snapshot, because neither side enforces them and a repeated id diverges (`DeltaStream.RepeatedIdsDiverge`).
- RunLifecycle.LogRefinesState: requires that no two spawns use one run id, because ids are random UUIDs.
- AcceptanceResults.DraftDecides: requires one class for E01 that is not a live class, because `_decide_e01` writes only the first class.
