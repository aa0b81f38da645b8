/**
 What the task runtime guarantees over every run from its start
 (crates/vibemux_a2a/src/task_runtime.rs).
 */
module RuntimeResults {
  import opened Text
  import opened Canonical
  import opened Contract
  import opened Options
  import opened Pagination
  import opened Runtime
  import opened RuntimeInvariant
  import opened RuntimeRuns

  /** `last` is reached from the start by `run`. */
  ghost predicate Reaches(codec: Codec, maxParallel: nat, run: seq<Step>, last: System)
  {
    Runs(codec, maxParallel, START, run, last)
  }

  lemma ReachedIsGood(codec: Codec, maxParallel: nat, run: seq<Step>, last: System)
    requires Reaches(codec, maxParallel, run, last)
    ensures GoodSystem(codec, maxParallel, last)
  {
    StartIsGood(codec, maxParallel);
    RunKeeps(codec, maxParallel, START, run, last);
  }

  // -- The owner's state -----------------------------------------------------------------

  /** In every reachable state the recorded jobs are the live jobs, at most `maxParallel` of them;
      each is the one job of one unfinished task and every unfinished task has one. At most 64
      tasks are stored, no two with the same subject and key. At most eight cancellations wait on
      a task, only while it is unfinished and only after it was told to cancel. */
  lemma OwnerInvariant(codec: Codec, maxParallel: nat, run: seq<Step>, last: System)
    requires Reaches(codec, maxParallel, run, last)
    ensures last.owner.jobIds == last.owner.jobs && |last.owner.jobs| <= maxParallel
    ensures forall id :: id in last.owner.entries && !last.owner.entries[id].snapshot.state.IsTerminal() <==>
                         id in last.owner.jobs.Values
    ensures forall j, k :: j in last.owner.jobs && k in last.owner.jobs && last.owner.jobs[j] == last.owner.jobs[k] ==>
                           j == k
    ensures |last.owner.entries| <= MAX_RUNTIME_TASKS
    ensures forall a, b :: a in last.owner.entries && b in last.owner.entries && a != b ==>
                           !SameKey(last.owner.entries[a], last.owner.entries[b].subject, last.owner.entries[b].key)
    ensures forall id :: id in last.owner.entries && last.owner.entries[id].waiters != [] ==>
                         && |last.owner.entries[id].waiters| <= MAX_CANCEL_WAITERS
                         && last.owner.entries[id].cancelled
                         && !last.owner.entries[id].snapshot.state.IsTerminal()
  {
    hide GoodReplies, GoodSubs, GoodSnapshot, GoodStarts;
    ReachedIsGood(codec, maxParallel, run, last);
    assert forall id :: id in last.owner.entries ==> GoodEntry(codec, id, last.owner.entries[id]);
  }

  /** The id a finished job returns is always the one recorded for it. */
  lemma IdMismatchIsUnreachable(codec: Codec, maxParallel: nat, run: seq<Step>, last: System, job: JobId)
    requires Reaches(codec, maxParallel, run, last) && job in last.owner.jobs
    ensures job in last.owner.jobIds && last.owner.jobIds[job] == last.owner.jobs[job]
  {
    OwnerInvariant(codec, maxParallel, run, last);
  }

  /** Every stored snapshot is valid and carries its own id; it has artifacts only if completed,
      an error code exactly if failed, and is never submitted. */
  lemma StoredSnapshotsAreWellFormed(codec: Codec, maxParallel: nat, run: seq<Step>, last: System, id: string)
    requires Reaches(codec, maxParallel, run, last) && id in last.owner.entries
    ensures var s := last.owner.entries[id].snapshot;
            && s.taskId == id
            && ValidSnapshot(codec, s)
            && (s.artifacts != [] ==> s.state.Completed?)
            && (s.errorCode.Some? <==> s.state.Failed?)
            && s.state in {Working, Completed, Failed, Canceled}
  {
    hide GoodReplies, GoodSubs, GoodStarts, GoodJobs, DistinctKeys, ValidSnapshot;
    ReachedIsGood(codec, maxParallel, run, last);
    assert GoodEntry(codec, id, last.owner.entries[id]);
  }

  /** Over any run, a task keeps its owner, key and identity, and once ended nothing about it
      changes. */
  lemma TerminalTasksNeverChange(codec: Codec, maxParallel: nat, before: seq<Step>, mid: System, after: seq<Step>,
                                 last: System, id: string)
    requires Reaches(codec, maxParallel, before, mid) && Runs(codec, maxParallel, mid, after, last)
    requires id in mid.owner.entries
    ensures id in last.owner.entries
    ensures SameTask(mid.owner.entries[id], last.owner.entries[id])
    ensures mid.owner.entries[id].snapshot.state.IsTerminal() ==> last.owner.entries[id] == mid.owner.entries[id]
  {
    hide GoodSystem;
    ReachedIsGood(codec, maxParallel, before, mid);
    RunKeeps(codec, maxParallel, mid, after, last);
  }

  // -- Shutdown -------------------------------------------------------------------------------

  /** The reply channels of the commands one step takes from the queue. */
  function RepliesDue(step: Step): set<ReplyId>
  {
    match step
    case Take(command, _, _) => {command.reply}
    case Stop(queue) => set c | c in queue :: c.reply
    case _ => {}
  }

  function CancelsDue(step: Step): set<ReplyId>
  {
    match step
    case Take(command, _, _) => if command.Cancel? then {command.reply} else {}
    case Stop(queue) => set c | c in queue && c.Cancel? :: c.reply
    case _ => {}
  }

  predicate IsCrash(step: Step) { step.JoinNext? && step.result.Crashed? }

  predicate SomeCrash(run: seq<Step>) { exists i :: 0 <= i < |run| && IsCrash(run[i]) }

  predicate SomeExpiry(run: seq<Step>) { exists i :: 0 <= i < |run| && run[i].Expire? }

  /** The history one operation leaves. */
  ghost predicate Records(s: State, t: State, due: set<ReplyId>, cancels: set<ReplyId>, closed: set<ReplyId>)
  {
    && t.taken == s.taken + due
    && s.cancels + cancels <= t.cancels
    && t.dropped <= s.dropped + closed
    && t.crashed == s.crashed
  }

  lemma PruneRecords(s: State, id: string, closed: set<ReplyId>)
    requires id in s.entries
    ensures Records(s, Prune(s, id, closed), {}, {}, closed)
  {
  }

  lemma AnswerRecords(s: State, command: Command, answer: Answer)
    ensures Records(s, AnswerNow(s, command, answer), {command.reply},
                    if command.Cancel? then {command.reply} else {}, {})
  {
  }

  lemma ParkRecords(s: State, command: Command)
    requires command.Cancel? && command.id in s.entries
    ensures Records(s, Park(s, command), {command.reply}, {command.reply}, {})
  {
  }

  lemma RecordsCompose(s: State, p: State, t: State, due: set<ReplyId>, cancels: set<ReplyId>, closed: set<ReplyId>)
    requires Records(s, p, {}, {}, closed) && Records(p, t, due, cancels, {})
    ensures Records(s, t, due, cancels, closed)
  {
  }

  lemma SendRecords(maxParallel: nat, s: State, command: Command, ids: NewIds)
    requires command.Send?
    ensures Records(s, HandleSend(maxParallel, s, command, ids), {command.reply}, {}, {})
  {
    hide InputIdentity, Records, SendAnswer;
    var t := HandleSend(maxParallel, s, command, ids);
    var answer := t.replies[|s.replies|].answer;
    AnswerRecords(s, command, answer);
    SameRecords(s, AnswerNow(s, command, answer), t, {command.reply}, {}, {});
  }

  lemma SameRecords(s: State, p: State, t: State, due: set<ReplyId>, cancels: set<ReplyId>, closed: set<ReplyId>)
    requires Records(s, p, due, cancels, closed)
    requires t.taken == p.taken && t.cancels == p.cancels && t.dropped == p.dropped && t.crashed == p.crashed
    ensures Records(s, t, due, cancels, closed)
  {
  }

  lemma CancelRecords(s: State, command: Command, closed: set<ReplyId>)
    requires command.Cancel?
    ensures Records(s, HandleCancel(s, command, closed), {command.reply}, {command.reply}, closed)
  {
    hide Records, Listening;
    var t := HandleCancel(s, command, closed);
    var id := command.id;
    var p := s;
    if id in s.entries && s.entries[id].subject == command.subject && !Ended(s.entries[id]) {
      p := Prune(s, id, closed);
      PruneRecords(s, id, closed);
      ParkRecords(p, command);
      AnswerRecords(p, command, SnapshotAnswer(Err(Busy)));
    } else {
      NothingRecorded(s, closed);
      AnswerRecords(s, command, t.replies[|s.replies|].answer);
    }
    RecordsCompose(s, p, t, {command.reply}, {command.reply}, closed);
  }

  lemma NothingRecorded(s: State, closed: set<ReplyId>)
    ensures Records(s, s, {}, {}, closed)
  {
  }

  lemma HandleRecords(codec: Codec, maxParallel: nat, s: State, command: Command, ids: NewIds, closed: set<ReplyId>)
    ensures Records(s, Handle(codec, maxParallel, s, command, ids, closed), {command.reply},
                    if command.Cancel? then {command.reply} else {}, closed)
  {
    hide Records, HandleSend, HandleCancel, HandleSubscribe, AnswerNow, Listing, Views, Rows, OwnedSnapshot;
    var t := Handle(codec, maxParallel, s, command, ids, closed);
    NothingRecorded(s, closed);
    match command
    case Send(_, _, _) =>
      SendRecords(maxParallel, s, command, ids);
      RecordsCompose(s, s, t, {command.reply}, {}, closed);
    case Get(subject, id, _) =>
      AnswerRecords(s, command, SnapshotAnswer(OwnedSnapshot(s, subject, id)));
      RecordsCompose(s, s, t, {command.reply}, {}, closed);
    case Cancel(_, _, _) => CancelRecords(s, command, closed);
    case Subscribe(_, _, _) =>
      SubscribeRecords(s, command, ids);
      RecordsCompose(s, s, t, {command.reply}, {}, closed);
    case List(subject, listing, _) =>
      AnswerRecords(s, command, ListAnswer(Listing(codec, Views(Rows(s.entries), subject, listing), listing)));
      RecordsCompose(s, s, t, {command.reply}, {}, closed);
  }

  lemma SubscribeRecords(s: State, command: Command, ids: NewIds)
    requires command.Subscribe?
    ensures Records(s, HandleSubscribe(s, command, ids), {command.reply}, {}, {})
  {
    hide Receivers;
  }

  lemma FinishRecords(codec: Codec, s: State, id: string, result: Result<Execution>)
    ensures Records(s, Finish(codec, s, id, result), {}, {}, {})
    ensures Finish(codec, s, id, result).started == s.started
  {
    hide FinishedSnapshot, Publish, AnswerAll;
  }

  lemma StepHistory(codec: Codec, maxParallel: nat, sys: System, step: Step)
    requires GoodSystem(codec, maxParallel, sys) && Enabled(codec, sys, step)
    ensures var next := Next(codec, maxParallel, sys, step);
            && Records(sys.owner.(crashed := sys.owner.crashed || IsCrash(step)), next.owner,
                       RepliesDue(step), CancelsDue(step), if step.Take? then step.closed else {})
            && next.expired == (sys.expired || step.Expire?)
            && (!sys.phase.Serving? ==> next.owner.started == sys.owner.started && !next.phase.Serving?)
  {
    hide Good, Handle, JoinJob, Accepts, PollStream, CancelAll, RejectAll, FinishPending, Records;
    var s := sys.owner;
    var crashed := s.(crashed := s.crashed || IsCrash(step));
    NothingRecorded(s, {});
    match step
    case Take(command, ids, closed) => HandleRecords(codec, maxParallel, s, command, ids, closed);
    case JoinNext(job, result) =>
      JoinRecords(codec, maxParallel, s, job, result, if sys.phase.Aborting? then Some(Deadline) else None);
    case Stop(queue) =>
      RejectAllHistory(s, queue);
      var t := RejectAll(s, queue);
      SameRecords(s, t, t.(entries := CancelAll(t.entries)), RepliesDue(step), CancelsDue(step), {});
    case Expire =>
    case DrainEnds =>
      GoodMeansJobs(codec, maxParallel, s);
      NoJobsAllEnded(s);
      FinishPendingIsIdle(codec, s, Sorted(s.entries.Keys));
    case Poll(k) => SameRecords(s, s, Next(codec, maxParallel, sys, step).owner, {}, {}, {});
    case Unsubscribe(k) => SameRecords(s, s, Next(codec, maxParallel, sys, step).owner, {}, {}, {});
  }

  lemma JoinRecords(codec: Codec, maxParallel: nat, s: State, job: JobId, result: Joined, aborted: Option<TaskError>)
    requires Good(codec, maxParallel, s) && job in s.jobs
    ensures var t := JoinJob(codec, s, job, result, aborted);
            && Records(s.(crashed := s.crashed || result.Crashed?), t, {}, {}, {})
            && t.started == s.started
  {
    hide Good, Finish;
    GoodMeansJobs(codec, maxParallel, s);
    var outcome := if result.Finished? then result.outcome
                   else Err(if aborted.Some? then aborted.value else Internal);
    FinishRecords(codec, WithoutJob(s, job), s.jobs[job], outcome);
  }

  lemma {:induction false} RejectAllHistory(s: State, queue: seq<Command>)
    ensures Records(s, RejectAll(s, queue), set c | c in queue :: c.reply, set c | c in queue && c.Cancel? :: c.reply, {})
    ensures RejectAll(s, queue).started == s.started
    decreases |queue|
  {
    if queue != [] {
      RejectAllHistory(Reject(s, queue[0]), queue[1..]);
      assert queue == [queue[0]] + queue[1..];
    }
  }

  lemma {:induction false} RunHistory(codec: Codec, maxParallel: nat, sys: System, run: seq<Step>, last: System)
    requires GoodSystem(codec, maxParallel, sys) && Runs(codec, maxParallel, sys, run, last)
    ensures last.owner.crashed == (sys.owner.crashed || SomeCrash(run))
    ensures last.expired == (sys.expired || SomeExpiry(run))
    ensures !sys.phase.Serving? ==> last.owner.started == sys.owner.started && !last.phase.Serving?
    decreases |run|
  {
    hide GoodSystem, Enabled, Next, IsCrash, RepliesDue, CancelsDue;
    if run != [] {
      StepKeeps(codec, maxParallel, sys, run[0]);
      StepHistory(codec, maxParallel, sys, run[0]);
      RunHistory(codec, maxParallel, Next(codec, maxParallel, sys, run[0]), run[1..], last);
      assert forall i :: 0 <= i < |run| - 1 ==> run[1..][i] == run[i + 1];
      assert SomeCrash(run) <==> IsCrash(run[0]) || SomeCrash(run[1..]);
      assert SomeExpiry(run) <==> run[0].Expire? || SomeExpiry(run[1..]);
    }
  }

  /** Shutdown is complete on both paths. When the runtime has stopped, after a normal drain or a
      deadline abort, no job is live, every task has ended and no cancellation waits. It reports
      success exactly if the deadline never expired and no job of the whole run crashed or was
      aborted. */
  lemma ShutdownIsComplete(codec: Codec, maxParallel: nat, run: seq<Step>, last: System)
    requires Reaches(codec, maxParallel, run, last) && last.phase.Stopped?
    ensures last.owner.jobs == map[] && last.owner.jobIds == map[]
    ensures forall id :: id in last.owner.entries ==>
                         && last.owner.entries[id].snapshot.state.IsTerminal()
                         && last.owner.entries[id].waiters == []
    ensures last.phase.outcome.Ok? <==> !SomeExpiry(run) && !SomeCrash(run)
  {
    hide GoodReplies, GoodSubs, GoodStarts, DistinctKeys, GoodSnapshot;
    ReachedIsGood(codec, maxParallel, run, last);
    StartIsGood(codec, maxParallel);
    RunHistory(codec, maxParallel, START, run, last);
    NoJobsAllEnded(last.owner);
    assert forall id :: id in last.owner.entries ==> GoodEntry(codec, id, last.owner.entries[id]);
  }

  /** No execution starts once the runtime was told to stop. */
  lemma NothingStartsAfterStop(codec: Codec, maxParallel: nat, before: seq<Step>, mid: System, after: seq<Step>,
                               last: System)
    requires Reaches(codec, maxParallel, before, mid) && !mid.phase.Serving?
    requires Runs(codec, maxParallel, mid, after, last)
    ensures last.owner.started == mid.owner.started
  {
    ReachedIsGood(codec, maxParallel, before, mid);
    RunHistory(codec, maxParallel, mid, after, last);
  }

  // -- Replies -----------------------------------------------------------------------------

  function AllDue(run: seq<Step>): set<ReplyId>
  {
    if run == [] then {} else RepliesDue(run[0]) + AllDue(run[1..])
  }

  /** The reply channels known to be abandoned when some command was handled. */
  function AllClosed(run: seq<Step>): set<ReplyId>
  {
    if run == [] then {}
    else (if run[0].Take? then run[0].closed else {}) + AllClosed(run[1..])
  }

  lemma {:induction false} RunTakes(codec: Codec, maxParallel: nat, sys: System, run: seq<Step>, last: System)
    requires GoodSystem(codec, maxParallel, sys) && Runs(codec, maxParallel, sys, run, last)
    ensures last.owner.taken == sys.owner.taken + AllDue(run)
    ensures last.owner.dropped <= sys.owner.dropped + AllClosed(run)
    decreases |run|
  {
    hide GoodSystem, Enabled, Next, RepliesDue;
    if run != [] {
      StepKeeps(codec, maxParallel, sys, run[0]);
      StepHistory(codec, maxParallel, sys, run[0]);
      RunTakes(codec, maxParallel, Next(codec, maxParallel, sys, run[0]), run[1..], last);
    }
  }

  /** How often a reply channel was answered. */
  function AnswerCount(replies: seq<Reply>, r: ReplyId): nat
  {
    if replies == [] then 0
    else AnswerCount(replies[..|replies| - 1], r) + (if replies[|replies| - 1].to == r then 1 else 0)
  }

  lemma {:induction false} AnswerCountIsOne(replies: seq<Reply>, r: ReplyId)
    requires AnsweredOnce(replies)
    ensures AnswerCount(replies, r) == if r in Answered(replies) then 1 else 0
  {
    if replies != [] {
      var front, last := replies[..|replies| - 1], replies[|replies| - 1];
      AnswerCountIsOne(front, r);
      assert replies == front + [last];
      AnsweredConcat(front, [last]);
      assert Answered([last]) == {last.to} by {
        assert last in [last];
      }
      assert last.to !in Answered(front) by {
        forall x | x in front ensures x.to != last.to {
          var i :| 0 <= i < |front| && front[i] == x;
          assert replies[i].to != replies[|replies| - 1].to;
        }
      }
    }
  }

  /** Exactly-once replies. When the runtime has stopped, every command it ever took from its
      queue, served or rejected, was answered exactly once; the one exception is a command that
      some turn found abandoned by its caller, and that was never answered. */
  lemma ExactlyOnceReplies(codec: Codec, maxParallel: nat, run: seq<Step>, last: System, r: ReplyId)
    requires Reaches(codec, maxParallel, run, last) && last.phase.Stopped?
    requires r in AllDue(run)
    ensures AnswerCount(last.owner.replies, r) == 1 || (AnswerCount(last.owner.replies, r) == 0 && r in AllClosed(run))
  {
    hide GoodTasks, GoodSubs, AnsweredOnce, ParkedOnce;
    ReachedIsGood(codec, maxParallel, run, last);
    ShutdownIsComplete(codec, maxParallel, run, last);
    StartIsGood(codec, maxParallel);
    RunTakes(codec, maxParallel, START, run, last);
    AnswerCountIsOne(last.owner.replies, r);
    assert Parked(last.owner.entries) == {};
  }

  /** At no point of any run was a reply channel answered twice, or answered for a command that
      was not taken. */
  lemma NeverAnsweredTwice(codec: Codec, maxParallel: nat, run: seq<Step>, last: System, r: ReplyId)
    requires Reaches(codec, maxParallel, run, last)
    ensures AnswerCount(last.owner.replies, r) <= 1
    ensures AnswerCount(last.owner.replies, r) == 1 ==> r in AllDue(run)
  {
    hide GoodTasks, GoodSubs, AnsweredOnce, ParkedOnce, CancelAnswer;
    ReachedIsGood(codec, maxParallel, run, last);
    StartIsGood(codec, maxParallel);
    RunTakes(codec, maxParallel, START, run, last);
    AnswerCountIsOne(last.owner.replies, r);
  }

  lemma {:induction false} RunCancels(codec: Codec, maxParallel: nat, sys: System, run: seq<Step>, last: System, r: ReplyId)
    requires GoodSystem(codec, maxParallel, sys) && Runs(codec, maxParallel, sys, run, last)
    requires r in sys.owner.cancels || exists i :: 0 <= i < |run| && r in CancelsDue(run[i])
    ensures r in last.owner.cancels
    decreases |run|
  {
    hide GoodSystem, Enabled, Next, CancelsDue, RepliesDue;
    if run != [] {
      StepKeeps(codec, maxParallel, sys, run[0]);
      StepHistory(codec, maxParallel, sys, run[0]);
      if r !in sys.owner.cancels && r !in CancelsDue(run[0]) {
        var i :| 0 <= i < |run| && r in CancelsDue(run[i]);
        assert run[1..][i - 1] == run[i];
      }
      RunCancels(codec, maxParallel, Next(codec, maxParallel, sys, run[0]), run[1..], last, r);
    }
  }

  /** A cancellation is only ever answered with an error or with a terminal snapshot, however long
      it waited. */
  lemma CancelIsAnsweredTerminal(codec: Codec, maxParallel: nat, run: seq<Step>, last: System, i: nat, reply: Reply)
    requires Reaches(codec, maxParallel, run, last)
    requires i < |run| && reply.to in CancelsDue(run[i]) && reply in last.owner.replies
    ensures reply.answer.SnapshotAnswer?
    ensures reply.answer.snapshot.Ok? ==> reply.answer.snapshot.value.state.IsTerminal()
  {
    hide GoodTasks, GoodSubs, AnsweredOnce, ParkedOnce, CancelsDue;
    ReachedIsGood(codec, maxParallel, run, last);
    StartIsGood(codec, maxParallel);
    RunCancels(codec, maxParallel, START, run, last, reply.to);
  }

  // -- Idempotent sends ----------------------------------------------------------------------

  /** At-most-once execution. Over any run no two executions are started for one subject and
      idempotency key. */
  lemma AtMostOneExecution(codec: Codec, maxParallel: nat, run: seq<Step>, last: System, i: nat, j: nat)
    requires Reaches(codec, maxParallel, run, last)
    requires i < j < |last.owner.started|
    ensures last.owner.started[i].subject != last.owner.started[j].subject
            || last.owner.started[i].key != last.owner.started[j].key
  {
    hide GoodEntries, GoodReplies, GoodSubs, GoodJobs;
    ReachedIsGood(codec, maxParallel, run, last);
  }

  /** A repeated send starts nothing and changes nothing but its own answer, however much later it
      comes: it is given the current snapshot of the task its key first created if it asks for the
      same thing (the same context, continued task and payload meaning), and is refused otherwise. */
  lemma RepeatedSend(codec: Codec, maxParallel: nat, before: seq<Step>, mid: System, after: seq<Step>, last: System,
                     id: string, command: Command, ids: NewIds, closed: set<ReplyId>)
    requires Reaches(codec, maxParallel, before, mid) && Runs(codec, maxParallel, mid, after, last)
    requires id in mid.owner.entries && command.Send?
    requires SameKey(mid.owner.entries[id], command.subject, command.request.key)
    ensures id in last.owner.entries
    ensures var identity := InputIdentity(command.request.contextId, command.request.continues, command.request.payload);
            Handle(codec, maxParallel, last.owner, command, ids, closed) ==
            AnswerNow(last.owner, command, SnapshotAnswer(
              if identity == Accepted(mid.owner.entries[id].input) then Ok(last.owner.entries[id].snapshot)
              else Err(InvalidRequest)))
  {
    hide GoodEntries, GoodReplies, GoodSubs, GoodJobs, GoodStarts, DistinctKeys, InputIdentity, Handle, AnswerNow, Runs;
    TerminalTasksNeverChange(codec, maxParallel, before, mid, after, last, id);
    ReachedIsGood(codec, maxParallel, before, mid);
    RunKeeps(codec, maxParallel, mid, after, last);
    KnownKey(codec, maxParallel, last.owner, id, command, ids, closed);
  }

  /** A send with the key of a stored task, of which there is only one. */
  lemma KnownKey(codec: Codec, maxParallel: nat, s: State, id: string, command: Command, ids: NewIds,
                 closed: set<ReplyId>)
    requires DistinctKeys(s.entries) && id in s.entries && command.Send?
    requires SameKey(s.entries[id], command.subject, command.request.key)
    ensures var identity := InputIdentity(command.request.contextId, command.request.continues, command.request.payload);
            Handle(codec, maxParallel, s, command, ids, closed) ==
            AnswerNow(s, command, SnapshotAnswer(
              if identity == Accepted(s.entries[id].input) then Ok(s.entries[id].snapshot) else Err(InvalidRequest)))
  {
    hide InputIdentity, AnswerNow;
  }

  // -- Subscriptions -------------------------------------------------------------------------

  /** What a subscriber of task `id` may have read: a prefix of its terminal snapshot alone, or of
      its working snapshot and then its terminal one. */
  ghost predicate IsSubscriptionTrace(yielded: seq<Result<TaskSnapshot>>, id: string)
  {
    exists w: TaskSnapshot, t: TaskSnapshot ::
      && w.taskId == id && w.state.Working?
      && t.taskId == id && t.state.IsTerminal()
      && (yielded <= [Ok(t)] || yielded <= [Ok(w), Ok(t)])
  }

  /** Subscription traces. Whatever a runtime subscription has yielded is such a trace, without gap
      or duplicate and without a lag or closed error; the stream is over exactly when it yielded
      the terminal snapshot; and that snapshot is the stored one. Once the runtime has stopped, a
      subscriber that keeps reading reaches it. */
  lemma SubscriptionTraces(codec: Codec, maxParallel: nat, run: seq<Step>, last: System, k: SubId)
    requires Reaches(codec, maxParallel, run, last) && k in last.owner.subs
    ensures last.owner.subs[k].task in last.owner.entries
    ensures var sub := last.owner.subs[k];
            var stored := last.owner.entries[sub.task].snapshot;
            && IsSubscriptionTrace(sub.yielded, sub.task)
            && (sub.done <==> EndsTerminal(sub.yielded))
            && (EndsTerminal(sub.yielded) ==> sub.yielded[|sub.yielded| - 1] == Ok(stored))
            && (last.phase.Stopped? && sub.open ==> EndsTerminal(Trace(sub)))
  {
    hide GoodReplies, GoodStarts, DistinctKeys, ValidSnapshot, GoodJobs, GoodSub, IsSubscriptionTrace, Trace;
    ReachedIsGood(codec, maxParallel, run, last);
    var sub := last.owner.subs[k];
    SubHasTask(last.owner.entries, sub);
    assert GoodEntry(codec, sub.task, last.owner.entries[sub.task]);
    SubscriptionTrace(codec, last.owner.entries, sub);
    if last.phase.Stopped? {
      ShutdownIsComplete(codec, maxParallel, run, last);
    }
  }

  lemma SubHasTask(entries: map<string, Entry>, sub: Subscription)
    requires GoodSub(entries, sub)
    ensures sub.task in entries
  {
  }

  lemma SubscriptionTrace(codec: Codec, entries: map<string, Entry>, sub: Subscription)
    requires GoodSub(entries, sub) && GoodEntry(codec, sub.task, entries[sub.task])
    ensures var stored := entries[sub.task].snapshot;
            && IsSubscriptionTrace(sub.yielded, sub.task)
            && (sub.done <==> EndsTerminal(sub.yielded))
            && (EndsTerminal(sub.yielded) ==> sub.yielded[|sub.yielded| - 1] == Ok(stored))
            && (Ended(entries[sub.task]) && sub.open ==> EndsTerminal(Trace(sub)))
  {
    hide ValidSnapshot;
    var stored := entries[sub.task].snapshot;
    var w := WhileWorking(stored);
    var t := if stored.state.IsTerminal() then stored else stored.(state := Canceled);
    assert sub.yielded <= Trace(sub);
    assert stored.state.IsTerminal() || stored == w;
    assert sub.yielded <= [Ok(t)] || sub.yielded <= [Ok(w), Ok(t)];
  }
}
