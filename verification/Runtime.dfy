/**
 The task runtime's owner as a state machine over its turns
 (crates/vibemux_a2a/src/task_runtime.rs): one command, one joined job, the stop signal, the
 shutdown deadline, the end of the drain, or one turn of a subscriber. The executor may return
 any outcome at any time or crash; the deadline may expire at any time during the drain.
 */
module Runtime {
  import opened Text
  import opened Canonical
  import opened Contract
  import opened Options
  import opened Pagination

  const EVENT_CAPACITY: nat := 16
  const MAX_RUNTIME_TASKS: nat := 64
  const MAX_CANCEL_WAITERS: nat := 8
  const MAX_SUBSCRIPTIONS: nat := 32

  type ReplyId = nat
  type JobId = nat
  type SubId = nat

  datatype Execution = CompletedWith(artifacts: seq<TaskArtifact>) | WasCanceled

  /** What joining a job yields: the executor's outcome, or a panic or abort. */
  datatype Joined = Finished(outcome: Result<Execution>) | Crashed

  datatype Command =
    | Send(subject: string, request: TaskRequest, reply: ReplyId)
    | Get(subject: string, id: string, reply: ReplyId)
    | Cancel(subject: string, id: string, reply: ReplyId)
    | Subscribe(subject: string, id: string, reply: ReplyId)
    | List(subject: string, listing: TaskListRequest, reply: ReplyId)

  datatype Answer =
    | SnapshotAnswer(snapshot: Result<TaskSnapshot>)
    | StreamAnswer(stream: Result<SubId>)
    | ListAnswer(list: Result<TaskList>)

  /** An answer sent on the reply channel of a command. */
  datatype Reply = Reply(to: ReplyId, answer: Answer)

  datatype Entry = Entry(
    subject: string,
    key: string,
    input: Identity,
    snapshot: TaskSnapshot,
    cancelled: bool,
    waiters: seq<ReplyId>)

  /** One broadcast receiver and the stream around it. `yielded` is what its reader got. */
  datatype Subscription = Subscription(
    task: string,
    initial: Option<TaskSnapshot>,
    queue: seq<TaskSnapshot>,
    lagged: bool,
    done: bool,
    open: bool,
    yielded: seq<Result<TaskSnapshot>>)

  datatype Start = Start(subject: string, key: string, id: string)

  /** The owner's fields, the reply channels and subscriptions it serves, and the history the
      results speak of: the commands taken, the waiters dropped because their caller had gone,
      the executions started, and whether any job crashed. */
  datatype State = State(
    entries: map<string, Entry>,
    jobs: map<JobId, string>,
    jobIds: map<JobId, string>,
    failure: Option<TaskError>,
    subs: map<SubId, Subscription>,
    replies: seq<Reply>,
    taken: set<ReplyId>,
    cancels: set<ReplyId>,
    dropped: set<ReplyId>,
    started: seq<Start>,
    crashed: bool)

  const INITIAL: State :=
    State(map[], map[], map[], None, map[], [], {}, {}, {}, [], false)

  /** Identifiers that are unique by construction: a version 4 UUID, a live task id, a receiver. */
  datatype NewIds = NewIds(task: string, job: JobId, sub: SubId)

  // -- Operations -----------------------------------------------------------------

  function FinishedSnapshot(codec: Codec, s: TaskSnapshot, result: Result<Execution>): TaskSnapshot
  {
    match result
    case Ok(WasCanceled) => s.(state := Canceled, errorCode := None)
    case Ok(CompletedWith(artifacts)) =>
      var completed := s.(artifacts := artifacts, state := Completed, errorCode := None);
      if ValidSnapshot(codec, completed) then completed
      else s.(artifacts := [], state := Failed, errorCode := Some(ErrorCode(Protocol)))
    case Err(error) => s.(state := Failed, errorCode := Some(ErrorCode(error)))
  }

  /** A broadcast to one receiver; a full receiver loses its oldest value and has lagged. */
  function Deliver(sub: Subscription, snapshot: TaskSnapshot): Subscription
  {
    if |sub.queue| < EVENT_CAPACITY then sub.(queue := sub.queue + [snapshot])
    else sub.(queue := sub.queue[1..] + [snapshot], lagged := true)
  }

  function Publish(subs: map<SubId, Subscription>, id: string, snapshot: TaskSnapshot): map<SubId, Subscription>
  {
    map k | k in subs ::
      if subs[k].task == id && subs[k].open then Deliver(subs[k], snapshot) else subs[k]
  }

  function AnswerAll(waiters: seq<ReplyId>, snapshot: TaskSnapshot): seq<Reply>
  {
    seq(|waiters|, i requires 0 <= i < |waiters| => Reply(waiters[i], SnapshotAnswer(Ok(snapshot))))
  }

  function Finish(codec: Codec, s: State, id: string, result: Result<Execution>): State
  {
    if id !in s.entries || s.entries[id].snapshot.state.IsTerminal() then s
    else
      var entry := s.entries[id];
      var snapshot := FinishedSnapshot(codec, entry.snapshot, result);
      s.(entries := s.entries[id := entry.(snapshot := snapshot, waiters := [])],
         subs := Publish(s.subs, id, snapshot),
         replies := s.replies + AnswerAll(entry.waiters, snapshot))
  }

  function FirstFailure(failure: Option<TaskError>, error: TaskError): Option<TaskError>
  {
    if failure.Some? then failure else Some(error)
  }

  /** `Owner::joined`. A finished job returns the task id its future captured. */
  function JoinJob(codec: Codec, s: State, job: JobId, result: Joined, aborted: Option<TaskError>): State
    requires job in s.jobs
  {
    var id := s.jobs[job];
    var known := if job in s.jobIds then Some(s.jobIds[job]) else None;
    var rest := s.(jobs := s.jobs - {job}, jobIds := s.jobIds - {job});
    match result
    case Finished(outcome) =>
      var failure := if known == Some(id) then s.failure else FirstFailure(s.failure, Internal);
      Finish(codec, rest.(failure := failure), id, outcome)
    case Crashed =>
      var error := if aborted.Some? then aborted.value else Internal;
      var after := if known.Some? then Finish(codec, rest, known.value, Err(error)) else rest;
      after.(failure := FirstFailure(after.failure, error), crashed := true)
  }

  function CancelAll(entries: map<string, Entry>): map<string, Entry>
  {
    map id | id in entries :: Signalled(entries[id])
  }

  function Signalled(entry: Entry): Entry
  {
    if entry.snapshot.state.IsTerminal() then entry else entry.(cancelled := true)
  }

  function AnswerNow(s: State, command: Command, answer: Answer): State
  {
    s.(replies := s.replies + [Reply(command.reply, answer)],
       taken := s.taken + {command.reply},
       cancels := if command.Cancel? then s.cancels + {command.reply} else s.cancels)
  }

  /** The waiters whose caller still listens. */
  function Listening(waiters: seq<ReplyId>, closed: set<ReplyId>): (kept: seq<ReplyId>)
    ensures |kept| <= |waiters|
    ensures forall w :: w in kept <==> w in waiters && w !in closed
    ensures Distinct(waiters) ==> Distinct(kept)
  {
    if waiters == [] then []
    else
      var last := |waiters| - 1;
      var before := Listening(waiters[..last], closed);
      assert waiters == waiters[..last] + [waiters[last]];
      if waiters[last] in closed then before else before + [waiters[last]]
  }

  predicate Distinct(waiters: seq<ReplyId>)
  {
    forall i, j :: 0 <= i < j < |waiters| ==> waiters[i] != waiters[j]
  }

  function OwnedSnapshot(s: State, subject: string, id: string): Result<TaskSnapshot>
  {
    if id in s.entries && s.entries[id].subject == subject then Ok(s.entries[id].snapshot) else Err(NotFound)
  }

  predicate SameKey(entry: Entry, subject: string, key: string)
  {
    entry.subject == subject && entry.key == key
  }

  /** The immediate answer to a send, or none if it is to be admitted. */
  ghost function SendAnswer(maxParallel: nat, s: State, command: Command): Option<Result<TaskSnapshot>>
    requires command.Send?
  {
    var subject, request := command.subject, command.request;
    match InputIdentity(request.contextId, request.continues, request.payload)
    case Refused => Some(Err(InvalidRequest))
    case Accepted(input) =>
      if exists id :: id in s.entries && SameKey(s.entries[id], subject, request.key) then
        var id :| id in s.entries && SameKey(s.entries[id], subject, request.key);
        Some(if s.entries[id].input == input then Ok(s.entries[id].snapshot) else Err(InvalidRequest))
      else if request.continues.ExistingTask? then Some(Err(Unsupported))
      else if |s.entries| >= MAX_RUNTIME_TASKS || |s.jobs| >= maxParallel then Some(Err(Busy))
      else None
  }

  ghost function HandleSend(maxParallel: nat, s: State, command: Command, ids: NewIds): State
    requires command.Send?
  {
    var request := command.request;
    match SendAnswer(maxParallel, s, command)
    case Some(answer) => AnswerNow(s, command, SnapshotAnswer(answer))
    case None => Admit(s, command, InputIdentity(request.contextId, request.continues, request.payload).value, ids)
  }

  /** The accepted send: it is answered with the submitted snapshot, stored as working, and its
      job is started. The broadcast that follows has no receiver yet. */
  function Admit(s: State, command: Command, input: Identity, ids: NewIds): State
    requires command.Send?
  {
    var submitted := TaskSnapshot(ids.task, command.request.contextId, Submitted, [], None);
    var entry := Entry(command.subject, command.request.key, input, submitted.(state := Working), false, []);
    AnswerNow(s, command, SnapshotAnswer(Ok(submitted))).(
      entries := s.entries[ids.task := entry],
      jobs := s.jobs[ids.job := ids.task],
      jobIds := s.jobIds[ids.job := ids.task],
      started := s.started + [Start(command.subject, command.request.key, ids.task)])
  }

  function HandleCancel(s: State, command: Command, closed: set<ReplyId>): State
    requires command.Cancel?
  {
    var id := command.id;
    if id !in s.entries || s.entries[id].subject != command.subject then
      AnswerNow(s, command, SnapshotAnswer(Err(NotFound)))
    else if s.entries[id].snapshot.state.Canceled? then
      AnswerNow(s, command, SnapshotAnswer(Ok(s.entries[id].snapshot)))
    else if s.entries[id].snapshot.state.IsTerminal() then
      AnswerNow(s, command, SnapshotAnswer(Err(Unsupported)))
    else
      var pruned := Prune(s, id, closed);
      if |pruned.entries[id].waiters| >= MAX_CANCEL_WAITERS then
        AnswerNow(pruned, command, SnapshotAnswer(Err(Busy)))
      else Park(pruned, command)
  }

  function Prune(s: State, id: string, closed: set<ReplyId>): State
    requires id in s.entries
  {
    var entry := s.entries[id];
    var gone := set w | w in entry.waiters && w in closed;
    s.(entries := s.entries[id := entry.(waiters := Listening(entry.waiters, closed))],
       dropped := s.dropped + gone)
  }

  function Park(s: State, command: Command): State
    requires command.Cancel? && command.id in s.entries
  {
    var entry := s.entries[command.id];
    s.(entries := s.entries[command.id := entry.(cancelled := true, waiters := entry.waiters + [command.reply])],
       taken := s.taken + {command.reply},
       cancels := s.cancels + {command.reply})
  }

  function Receivers(subs: map<SubId, Subscription>, id: string): set<SubId>
  {
    set k | k in subs && subs[k].task == id && subs[k].open
  }

  function HandleSubscribe(s: State, command: Command, ids: NewIds): State
    requires command.Subscribe?
  {
    match OwnedSnapshot(s, command.subject, command.id)
    case Err(error) => AnswerNow(s, command, StreamAnswer(Err(error)))
    case Ok(snapshot) =>
      if |Receivers(s.subs, command.id)| >= MAX_SUBSCRIPTIONS then
        AnswerNow(s, command, StreamAnswer(Err(Busy)))
      else
        AnswerNow(s, command, StreamAnswer(Ok(ids.sub))).(
          subs := s.subs[ids.sub := Subscription(command.id, Some(snapshot), [], false, false, true, [])])
  }

  /** The stored tasks in map order. */
  ghost function Rows(entries: map<string, Entry>): (rows: seq<Row>)
  {
    var ids := Sorted(entries.Keys);
    seq(|ids|, i requires 0 <= i < |ids| =>
      assert ids[i] in ids;
      Row(entries[ids[i]].subject, entries[ids[i]].snapshot))
  }

  ghost function Handle(codec: Codec, maxParallel: nat, s: State, command: Command, ids: NewIds,
                        closed: set<ReplyId>): State
  {
    match command
    case Send(_, _, _) => HandleSend(maxParallel, s, command, ids)
    case Get(subject, id, _) => AnswerNow(s, command, SnapshotAnswer(OwnedSnapshot(s, subject, id)))
    case Cancel(_, _, _) => HandleCancel(s, command, closed)
    case Subscribe(_, _, _) => HandleSubscribe(s, command, ids)
    case List(subject, listing, _) =>
      AnswerNow(s, command, ListAnswer(Listing(codec, Views(Rows(s.entries), subject, listing), listing)))
  }

  /** `reject_command`. */
  function Reject(s: State, command: Command): State
  {
    AnswerNow(s, command, match command
                          case Send(_, _, _) => SnapshotAnswer(Err(Server))
                          case Get(_, _, _) => SnapshotAnswer(Err(Server))
                          case Cancel(_, _, _) => SnapshotAnswer(Err(Server))
                          case Subscribe(_, _, _) => StreamAnswer(Err(Server))
                          case List(_, _, _) => ListAnswer(Err(Server)))
  }

  function RejectAll(s: State, queue: seq<Command>): State
    decreases |queue|
  {
    if queue == [] then s else RejectAll(Reject(s, queue[0]), queue[1..])
  }

  /** One poll of a subscriber's stream, when it can make progress. */
  function PollStream(sub: Subscription, senderGone: bool): Subscription
  {
    if sub.done then sub
    else if sub.initial.Some? then
      sub.(initial := None, yielded := sub.yielded + [Ok(sub.initial.value)],
           done := sub.initial.value.state.IsTerminal())
    else if sub.lagged then sub.(yielded := sub.yielded + [Err(Busy)], done := true)
    else if sub.queue != [] then
      sub.(queue := sub.queue[1..], yielded := sub.yielded + [Ok(sub.queue[0])],
           done := sub.queue[0].state.IsTerminal())
    else if senderGone then sub.(yielded := sub.yielded + [Err(Server)], done := true)
    else sub
  }

  // -- The machine ------------------------------------------------------------------

  datatype Phase = Serving | Draining | Aborting | Stopped(outcome: Result<()>)

  datatype System = System(owner: State, phase: Phase, expired: bool)

  datatype Step =
    | Take(command: Command, ids: NewIds, closed: set<ReplyId>)
    | JoinNext(job: JobId, result: Joined)
    | Stop(queue: seq<Command>)
    | Expire
    | DrainEnds
    | Poll(sub: SubId)
    | Unsubscribe(sub: SubId)

  /** What `RuntimeBackend` checks before it queues a command. */
  predicate Accepts(codec: Codec, command: Command)
  {
    && ValidIdentifier(command.subject)
    && (match command
        case Send(_, request, _) => ValidRequest(codec, request)
        case List(_, listing, _) => ValidListRequest(listing)
        case _ => ValidIdentifier(command.id))
  }

  predicate AreNew(s: State, ids: NewIds)
  {
    && ValidIdentifier(ids.task) && ids.task !in s.entries
    && ids.job !in s.jobs && ids.job !in s.jobIds
    && ids.sub !in s.subs
  }

  predicate NewReplies(s: State, queue: seq<Command>)
  {
    && (forall i :: 0 <= i < |queue| ==> queue[i].reply !in s.taken)
    && (forall i, j :: 0 <= i < j < |queue| ==> queue[i].reply != queue[j].reply)
  }

  ghost predicate Enabled(codec: Codec, sys: System, step: Step)
  {
    match step
    case Take(command, ids, closed) =>
      && sys.phase.Serving?
      && Accepts(codec, command)
      && command.reply !in sys.owner.taken
      && AreNew(sys.owner, ids)
    case JoinNext(job, result) => !sys.phase.Stopped? && job in sys.owner.jobs
    case Stop(queue) => sys.phase.Serving? && NewReplies(sys.owner, queue)
    case Expire => sys.phase.Draining?
    case DrainEnds => (sys.phase.Draining? || sys.phase.Aborting?) && sys.owner.jobs == map[]
    case Poll(sub) => sub in sys.owner.subs && sys.owner.subs[sub].open
    case Unsubscribe(sub) => sub in sys.owner.subs
  }

  /** The tasks a deadline leaves unfinished after every job was joined. */
  function FinishPending(codec: Codec, s: State, pending: seq<string>): State
    decreases |pending|
  {
    if pending == [] then s
    else FinishPending(codec, Finish(codec, s, pending[0], Err(Deadline)), pending[1..])
  }

  ghost function Next(codec: Codec, maxParallel: nat, sys: System, step: Step): System
    requires Enabled(codec, sys, step)
  {
    var s := sys.owner;
    match step
    case Take(command, ids, closed) => sys.(owner := Handle(codec, maxParallel, s, command, ids, closed))
    case JoinNext(job, result) =>
      sys.(owner := JoinJob(codec, s, job, result, if sys.phase.Aborting? then Some(Deadline) else None))
    case Stop(queue) =>
      var rejected := RejectAll(s, queue);
      sys.(owner := rejected.(entries := CancelAll(rejected.entries)), phase := Draining)
    case Expire => sys.(phase := Aborting, expired := true)
    case DrainEnds =>
      if sys.phase.Aborting? then
        sys.(owner := FinishPending(codec, s, Sorted(s.entries.Keys)), phase := Stopped(Err(Deadline)))
      else
        sys.(phase := Stopped(if s.failure.Some? then Err(s.failure.value) else Ok(())))
    case Poll(sub) =>
      sys.(owner := s.(subs := s.subs[sub := PollStream(s.subs[sub], sys.phase.Stopped?)]))
    case Unsubscribe(sub) => sys.(owner := s.(subs := s.subs[sub := s.subs[sub].(open := false)]))
  }

  const START: System := System(INITIAL, Serving, false)

  /** `run` can happen from `sys` and ends in `last`. */
  ghost predicate Runs(codec: Codec, maxParallel: nat, sys: System, run: seq<Step>, last: System)
    decreases |run|
  {
    if run == [] then last == sys
    else
      && Enabled(codec, sys, run[0])
      && Runs(codec, maxParallel, Next(codec, maxParallel, sys, run[0]), run[1..], last)
  }
}
