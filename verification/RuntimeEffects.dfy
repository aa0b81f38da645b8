/**
 What each turn of the task runtime does, told by its effects and not by the functions that
 compute them (crates/vibemux_a2a/src/task_runtime.rs): which end a task gets from its execution,
 which sends are admitted and how the others are refused, whose tasks a caller can read, cancel,
 follow and list, and what the stop signal reaches.
 */
module RuntimeEffects {
  import opened Canonical
  import opened Contract
  import opened Options
  import opened Runtime
  import opened RuntimeInvariant
  import opened RuntimeRuns
  import opened RuntimeResults

  // -- The end of a task ------------------------------------------------------------------------

  /** The end a joined job gives to its task. Completed with exactly the executor's artifacts if
      that validates, and failed as a protocol error if not; canceled exactly for an execution that
      was canceled; failed with the executor's error; failed as internal, or as the deadline while
      jobs are being aborted, for one that crashed. */
  ghost predicate Dictates(codec: Codec, result: Joined, aborting: bool, before: TaskSnapshot, after: TaskSnapshot)
  {
    && after.taskId == before.taskId && after.contextId == before.contextId
    && match result
       case Crashed =>
         FailedWith(after, if aborting then "a2a_task_deadline" else "a2a_task_internal")
       case Finished(outcome) =>
         match outcome
         case Err(error) => FailedWith(after, ErrorCode(error))
         case Ok(WasCanceled) => after.state == Canceled && after.artifacts == [] && after.errorCode == None
         case Ok(CompletedWith(artifacts)) =>
           if ValidSnapshot(codec, TaskSnapshot(before.taskId, before.contextId, Completed, artifacts, None))
           then after.state == Completed && after.artifacts == artifacts && after.errorCode == None
           else FailedWith(after, "a2a_task_protocol")
  }

  predicate FailedWith(s: TaskSnapshot, code: string)
  {
    s.state == Failed && s.artifacts == [] && s.errorCode == Some(code)
  }

  /** The one result of a join as the task sees it. */
  function Outcome(result: Joined, aborting: bool): Result<Execution>
  {
    match result
    case Finished(outcome) => outcome
    case Crashed => Err(if aborting then Deadline else Internal)
  }

  lemma EndIsDictated(codec: Codec, s: TaskSnapshot, result: Joined, aborting: bool)
    requires s.artifacts == [] && s.errorCode == None
    ensures Dictates(codec, result, aborting, s, FinishedSnapshot(codec, s, Outcome(result, aborting)))
  {
    hide ValidSnapshot, ErrorCode;
    CodeTexts();
    if result.Finished? && result.outcome.Ok? && result.outcome.value.CompletedWith? {
      var artifacts := result.outcome.value.artifacts;
      assert s.(artifacts := artifacts, state := Completed, errorCode := None)
          == TaskSnapshot(s.taskId, s.contextId, Completed, artifacts, None);
    }
  }

  lemma CodeTexts()
    ensures ErrorCode(Deadline) == "a2a_task_deadline" && ErrorCode(Internal) == "a2a_task_internal"
    ensures ErrorCode(Protocol) == "a2a_task_protocol"
  {
    assert ERROR_PREFIX + "deadline" == "a2a_task_deadline";
    assert ERROR_PREFIX + "internal" == "a2a_task_internal";
    assert ERROR_PREFIX + "protocol" == "a2a_task_protocol";
  }

  /** Every broadcast finds room: no receiver of an unfinished task has lagged or lags now. */
  lemma Delivered(entries: map<string, Entry>, sub: Subscription, snapshot: TaskSnapshot)
    requires GoodSub(entries, sub) && sub.open && !Ended(entries[sub.task])
    ensures Deliver(sub, snapshot) == sub.(queue := sub.queue + [snapshot])
  {
    assert |sub.queue| <= |Trace(sub)| <= 1;
  }

  /** What finishing an unfinished task changes. */
  ghost predicate Ends(s: State, t: State, id: string, snapshot: TaskSnapshot)
    requires id in s.entries
  {
    && t.entries == s.entries[id := s.entries[id].(snapshot := snapshot, waiters := [])]
    && AllTold(s, t, s.entries[id].waiters, snapshot)
    && t.subs.Keys == s.subs.Keys
    && (forall k :: k in s.subs ==>
          t.subs[k] == if s.subs[k].task == id && s.subs[k].open
                       then s.subs[k].(queue := s.subs[k].queue + [snapshot]) else s.subs[k])
  }

  /** Every waiter is answered with the snapshot, in order, and nobody else is. */
  ghost predicate AllTold(s: State, t: State, waiters: seq<ReplyId>, snapshot: TaskSnapshot)
  {
    && |t.replies| == |s.replies| + |waiters| && s.replies <= t.replies
    && forall i :: 0 <= i < |waiters| ==>
         t.replies[|s.replies| + i] == Reply(waiters[i], SnapshotAnswer(Ok(snapshot)))
  }

  lemma FinishEnds(codec: Codec, s: State, id: string, result: Result<Execution>)
    requires GoodSubs(s.entries, s.subs) && id in s.entries && !Ended(s.entries[id])
    ensures Ends(s, Finish(codec, s, id, result), id, FinishedSnapshot(codec, s.entries[id].snapshot, result))
  {
    hide GoodSub, Deliver, FinishedSnapshot;
    var snapshot := FinishedSnapshot(codec, s.entries[id].snapshot, result);
    forall k | k in s.subs && s.subs[k].task == id && s.subs[k].open
      ensures Deliver(s.subs[k], snapshot) == s.subs[k].(queue := s.subs[k].queue + [snapshot])
    {
      Delivered(s.entries, s.subs[k], snapshot);
    }
  }

  /** The task of a live job is unfinished: it is working, without artifacts or an error. */
  lemma LiveTaskIsWorking(codec: Codec, maxParallel: nat, s: State, job: JobId)
    requires Good(codec, maxParallel, s) && job in s.jobs
    ensures var id := s.jobs[job];
            && id in s.entries && !Ended(s.entries[id])
            && s.entries[id].snapshot.state == Working
            && s.entries[id].snapshot.artifacts == [] && s.entries[id].snapshot.errorCode == None
            && s.entries[id].snapshot.taskId == id
    ensures job in s.jobIds && s.jobIds[job] == s.jobs[job]
  {
    hide GoodReplies, GoodSubs, GoodStarts, DistinctKeys, ValidSnapshot;
    RecordedJob(codec, maxParallel, s, job);
    assert s.jobs[job] in s.jobs.Values;
    assert GoodEntry(codec, s.jobs[job], s.entries[s.jobs[job]]);
  }

  /** Which end a task gets. In every reachable state, the join of a job ends exactly the task of
      that job as its result dictates; every caller waiting for the cancellation and every open
      receiver gets that same snapshot; the job is gone; and the first crash of all is the failure
      that is kept. */
  lemma JoinDecides(codec: Codec, maxParallel: nat, run: seq<Step>, sys: System, job: JobId, result: Joined)
    requires Reaches(codec, maxParallel, run, sys) && !sys.phase.Stopped? && job in sys.owner.jobs
    ensures var id, s := sys.owner.jobs[job], sys.owner;
            var t := Next(codec, maxParallel, sys, JoinNext(job, result)).owner;
            && id in s.entries && id in t.entries && !s.entries[id].snapshot.state.IsTerminal()
            && Dictates(codec, result, sys.phase.Aborting?, s.entries[id].snapshot, t.entries[id].snapshot)
            && Ends(s, t, id, t.entries[id].snapshot)
            && t.jobs == s.jobs - {job} && t.jobIds == s.jobIds - {job}
            && t.failure == (if s.failure.Some? || !result.Crashed? then s.failure
                             else Some(if sys.phase.Aborting? then Deadline else Internal))
            && t.started == s.started && t.taken == s.taken
  {
    hide GoodTasks, GoodReplies, GoodSubs, Finish, FinishedSnapshot, Dictates, Ends;
    var s, id := sys.owner, sys.owner.jobs[job];
    var outcome := Outcome(result, sys.phase.Aborting?);
    ReachedIsGood(codec, maxParallel, run, sys);
    LiveTaskIsWorking(codec, maxParallel, s, job);
    EndIsDictated(codec, s.entries[id].snapshot, result, sys.phase.Aborting?);
    JoinFinishes(codec, s, job, result, sys.phase.Aborting?);
    var rest := WithoutJob(s, job);
    FinishEnds(codec, rest, id, outcome);
    FinishTouches(codec, rest, id, outcome);
    EndsTransfers(rest, Finish(codec, rest, id, outcome), s, Next(codec, maxParallel, sys, JoinNext(job, result)).owner, id,
                  FinishedSnapshot(codec, s.entries[id].snapshot, outcome));
  }

  /** A join is a finish without the job, up to the recorded failure. */
  lemma JoinFinishes(codec: Codec, s: State, job: JobId, result: Joined, aborting: bool)
    requires job in s.jobs && job in s.jobIds && s.jobIds[job] == s.jobs[job]
    ensures var t := JoinJob(codec, s, job, result, if aborting then Some(Deadline) else None);
            var f := Finish(codec, WithoutJob(s, job), s.jobs[job], Outcome(result, aborting));
            && t == f.(failure := t.failure, crashed := t.crashed)
            && (f.failure == s.failure ==>
                  t.failure == if s.failure.Some? || !result.Crashed? then s.failure
                               else Some(if aborting then Deadline else Internal))
  {
    hide Finish;
  }

  lemma FinishTouches(codec: Codec, s: State, id: string, result: Result<Execution>)
    ensures var t := Finish(codec, s, id, result);
            t == s.(entries := t.entries, subs := t.subs, replies := t.replies)
  {
    hide FinishedSnapshot, Publish, AnswerAll;
  }

  lemma EndsTransfers(a: State, b: State, s: State, t: State, id: string, snapshot: TaskSnapshot)
    requires id in a.entries && Ends(a, b, id, snapshot)
    requires a.entries == s.entries && a.replies == s.replies && a.subs == s.subs
    requires b.entries == t.entries && b.replies == t.replies && b.subs == t.subs
    ensures Ends(s, t, id, snapshot) && t.entries[id].snapshot == snapshot
  {
  }

  // -- The end of a task, over a run ---------------------------------------------------------------

  /** Step `i` of the run is the join of the job of task `id`, with this result. */
  ghost predicate JoinsTask(codec: Codec, maxParallel: nat, run: seq<Step>, i: nat, mid: System, id: string)
    requires i < |run|
  {
    && Reaches(codec, maxParallel, run[..i], mid)
    && run[i].JoinNext? && run[i].job in mid.owner.jobs && mid.owner.jobs[run[i].job] == id
    && id in mid.owner.entries
  }

  /** The last step of a run, and the state before it. */
  lemma {:induction false} LastStep(codec: Codec, maxParallel: nat, sys: System, run: seq<Step>, last: System)
    returns (mid: System)
    requires run != [] && Runs(codec, maxParallel, sys, run, last)
    ensures Runs(codec, maxParallel, sys, run[..|run| - 1], mid)
    ensures Enabled(codec, mid, run[|run| - 1]) && last == Next(codec, maxParallel, mid, run[|run| - 1])
    decreases |run|
  {
    hide Enabled, Next;
    if |run| == 1 {
      mid := sys;
      assert run[1..] == [] && run[..0] == [];
    } else {
      mid := LastStep(codec, maxParallel, Next(codec, maxParallel, sys, run[0]), run[1..], last);
      assert run[1..][..|run| - 2] == run[..|run| - 1][1..];
      assert run[1..][|run| - 2] == run[|run| - 1];
    }
  }

  /** Jobs leave only by a join, and a task is stored together with its job. */
  lemma JobsStay(codec: Codec, maxParallel: nat, sys: System, step: Step, id: string)
    requires GoodSystem(codec, maxParallel, sys) && Enabled(codec, sys, step)
    requires step.JoinNext? ==> sys.owner.jobs[step.job] != id
    ensures var t := Next(codec, maxParallel, sys, step).owner;
            && (id in sys.owner.jobs.Values ==> id in t.jobs.Values)
            && (id !in sys.owner.entries && id in t.entries ==> id in t.jobs.Values)
  {
    hide Good, Handle, JoinJob, RejectAll, CancelAll, PollStream, FinishPending, Accepts, AreNew, NewReplies;
    var s := sys.owner;
    match step {
      case Take(command, ids, closed) => HandleKeepsJobs(codec, maxParallel, s, command, ids, closed, id);
      case JoinNext(job, result) =>
        JoinDropsOneJob(codec, s, job, result, if sys.phase.Aborting? then Some(Deadline) else None);
        if id in s.jobs.Values {
          var j :| j in s.jobs && s.jobs[j] == id;
          var t := JoinJob(codec, s, job, result, if sys.phase.Aborting? then Some(Deadline) else None);
          assert j in t.jobs && t.jobs[j] == id;
        }
      case Stop(queue) => RejectKeepsJobs(s, queue);
      case DrainEnds =>
        if sys.phase.Aborting? {
          PendingKeepsJobs(codec, s, Text.Sorted(s.entries.Keys));
        }
      case _ =>
    }
  }

  lemma HandleKeepsJobs(codec: Codec, maxParallel: nat, s: State, command: Command, ids: NewIds, closed: set<ReplyId>,
                        id: string)
    requires AreNew(s, ids)
    ensures var t := Handle(codec, maxParallel, s, command, ids, closed);
            && (id in s.jobs.Values ==> id in t.jobs.Values)
            && (id !in s.entries && id in t.entries ==> id in t.jobs.Values)
  {
    hide Handle, AreNew;
    var t := Handle(codec, maxParallel, s, command, ids, closed);
    assert ids.job !in s.jobs by { NewJob(s, ids); }
    HandleAddsOneJob(codec, maxParallel, s, command, ids, closed);
    if id in s.jobs.Values {
      var j :| j in s.jobs && s.jobs[j] == id;
      assert j in t.jobs && t.jobs[j] == id;
    }
    if id !in s.entries && id in t.entries {
      assert ids.job in t.jobs && t.jobs[ids.job] == id;
    }
  }

  lemma NewJob(s: State, ids: NewIds)
    requires AreNew(s, ids)
    ensures ids.job !in s.jobs
  {
  }

  /** A command stores no task and starts no job, or one of each, the job for the task. */
  ghost predicate AddsOneJob(s: State, t: State, ids: NewIds)
  {
    || (t.jobs == s.jobs && t.entries.Keys == s.entries.Keys)
    || (t.jobs == s.jobs[ids.job := ids.task] && t.entries.Keys == s.entries.Keys + {ids.task})
  }

  lemma HandleAddsOneJob(codec: Codec, maxParallel: nat, s: State, command: Command, ids: NewIds, closed: set<ReplyId>)
    ensures AddsOneJob(s, Handle(codec, maxParallel, s, command, ids, closed), ids)
  {
    hide HandleSend, HandleCancel, HandleSubscribe, AddsOneJob, Rows, Pagination.Views, Pagination.Listing;
    match command
    case Send(_, _, _) => SendAddsOneJob(maxParallel, s, command, ids);
    case Cancel(_, _, _) => CancelAddsNone(s, command, closed, ids);
    case Subscribe(_, _, _) => SubscribeAddsNone(s, command, ids);
    case Get(subject, id, _) => AnswerAddsNone(s, command, SnapshotAnswer(OwnedSnapshot(s, subject, id)), ids);
    case List(subject, listing, _) =>
      var views := Pagination.Views(Rows(s.entries), subject, listing);
      AnswerAddsNone(s, command, ListAnswer(Pagination.Listing(codec, views, listing)), ids);
  }

  lemma SendAddsOneJob(maxParallel: nat, s: State, command: Command, ids: NewIds)
    requires command.Send?
    ensures AddsOneJob(s, HandleSend(maxParallel, s, command, ids), ids)
  {
    hide SendAnswer, InputIdentity;
  }

  lemma CancelAddsNone(s: State, command: Command, closed: set<ReplyId>, ids: NewIds)
    requires command.Cancel?
    ensures AddsOneJob(s, HandleCancel(s, command, closed), ids)
  {
    hide Listening;
  }

  lemma SubscribeAddsNone(s: State, command: Command, ids: NewIds)
    requires command.Subscribe?
    ensures AddsOneJob(s, HandleSubscribe(s, command, ids), ids)
  {
    hide Receivers;
  }

  lemma AnswerAddsNone(s: State, command: Command, answer: Answer, ids: NewIds)
    ensures AddsOneJob(s, AnswerNow(s, command, answer), ids)
  {
  }

  lemma JoinDropsOneJob(codec: Codec, s: State, job: JobId, result: Joined, aborted: Option<TaskError>)
    requires job in s.jobs
    ensures var t := JoinJob(codec, s, job, result, aborted);
            t.jobs == s.jobs - {job} && t.entries.Keys == s.entries.Keys
  {
    hide FinishedSnapshot, Publish, AnswerAll;
  }

  lemma {:induction false} RejectKeepsJobs(s: State, queue: seq<Command>)
    ensures var t := RejectAll(s, queue);
            t.jobs == s.jobs && t.entries == s.entries && CancelAll(t.entries).Keys == s.entries.Keys
    decreases |queue|
  {
    if queue != [] {
      RejectKeepsJobs(Reject(s, queue[0]), queue[1..]);
    }
  }

  lemma {:induction false} PendingKeepsJobs(codec: Codec, s: State, pending: seq<string>)
    ensures var t := FinishPending(codec, s, pending); t.jobs == s.jobs && t.entries.Keys == s.entries.Keys
    decreases |pending|
  {
    hide FinishedSnapshot, Publish, AnswerAll;
    if pending != [] {
      PendingKeepsJobs(codec, Finish(codec, s, pending[0], Err(Deadline)), pending[1..]);
    }
  }

  /** A task has ended exactly if no live job is its own. */
  lemma EndedHasNoJob(codec: Codec, maxParallel: nat, s: State, id: string)
    requires Good(codec, maxParallel, s) && id in s.entries
    ensures s.entries[id].snapshot.state.IsTerminal() <==> id !in s.jobs.Values
  {
    hide GoodReplies, GoodSubs, GoodStarts, DistinctKeys, GoodEntries;
  }

  /** Every task that has ended owes its end to the join of its own job: some step `i` of the run is
      that join, and the stored snapshot is the one its result dictates. */
  lemma {:induction false} EndsByItsOwnJoin(codec: Codec, maxParallel: nat, run: seq<Step>, last: System, id: string)
    returns (i: nat, before: System)
    requires Reaches(codec, maxParallel, run, last)
    requires id in last.owner.entries && last.owner.entries[id].snapshot.state.IsTerminal()
    ensures i < |run| && JoinsTask(codec, maxParallel, run, i, before, id)
    ensures Dictates(codec, run[i].result, before.phase.Aborting?, before.owner.entries[id].snapshot,
                     last.owner.entries[id].snapshot)
    decreases |run|
  {
    hide Enabled, Next, Dictates, GoodSystem, Reaches, JoinsTask;
    NothingYet(codec, maxParallel, run, last);
    var n := |run| - 1;
    var mid := BeforeLast(codec, maxParallel, run, last);
    ReachedIsGood(codec, maxParallel, run[..n], mid);
    if id in mid.owner.entries && mid.owner.entries[id].snapshot.state.IsTerminal() {
      EndedStays(codec, maxParallel, mid, run[n], id);
      i, before := EndsByItsOwnJoin(codec, maxParallel, run[..n], mid, id);
      assert run[..n][i] == run[i];
      JoinedEarlier(codec, maxParallel, run, n, i, before, id);
    } else {
      EndingStep(codec, maxParallel, mid, run[n], id);
      JoinDecides(codec, maxParallel, run[..n], mid, run[n].job, run[n].result);
      i, before := n, mid;
      JoinedNow(codec, maxParallel, run, mid, id);
    }
  }

  lemma NothingYet(codec: Codec, maxParallel: nat, run: seq<Step>, last: System)
    requires Reaches(codec, maxParallel, run, last) && last.owner.entries != map[]
    ensures run != []
  {
  }

  lemma BeforeLast(codec: Codec, maxParallel: nat, run: seq<Step>, last: System) returns (mid: System)
    requires run != [] && Reaches(codec, maxParallel, run, last)
    ensures Reaches(codec, maxParallel, run[..|run| - 1], mid)
    ensures Enabled(codec, mid, run[|run| - 1]) && last == Next(codec, maxParallel, mid, run[|run| - 1])
  {
    hide Enabled, Next, Runs;
    mid := LastStep(codec, maxParallel, START, run, last);
  }

  lemma EndedStays(codec: Codec, maxParallel: nat, sys: System, step: Step, id: string)
    requires GoodSystem(codec, maxParallel, sys) && Enabled(codec, sys, step)
    requires id in sys.owner.entries && sys.owner.entries[id].snapshot.state.IsTerminal()
    ensures var t := Next(codec, maxParallel, sys, step).owner;
            id in t.entries && t.entries[id] == sys.owner.entries[id]
  {
    hide GoodSystem, Enabled, Next;
    StepKeeps(codec, maxParallel, sys, step);
  }

  lemma JoinedEarlier(codec: Codec, maxParallel: nat, run: seq<Step>, n: nat, i: nat, before: System, id: string)
    requires i < n <= |run| && JoinsTask(codec, maxParallel, run[..n], i, before, id)
    ensures JoinsTask(codec, maxParallel, run, i, before, id)
  {
    hide Reaches;
    assert run[..n][..i] == run[..i] && run[..n][i] == run[i];
  }

  lemma JoinedNow(codec: Codec, maxParallel: nat, run: seq<Step>, mid: System, id: string)
    requires run != [] && Reaches(codec, maxParallel, run[..|run| - 1], mid)
    requires var step := run[|run| - 1];
             step.JoinNext? && step.job in mid.owner.jobs && mid.owner.jobs[step.job] == id && id in mid.owner.entries
    ensures JoinsTask(codec, maxParallel, run, |run| - 1, mid, id)
  {
    hide Reaches;
  }

  /** A step after which a task has ended, and before which it had not, is the join of its job. */
  lemma EndingStep(codec: Codec, maxParallel: nat, sys: System, step: Step, id: string)
    requires GoodSystem(codec, maxParallel, sys) && Enabled(codec, sys, step)
    requires id in sys.owner.entries ==> !sys.owner.entries[id].snapshot.state.IsTerminal()
    requires var t := Next(codec, maxParallel, sys, step).owner;
             id in t.entries && t.entries[id].snapshot.state.IsTerminal()
    ensures step.JoinNext? && !sys.phase.Stopped? && step.job in sys.owner.jobs && sys.owner.jobs[step.job] == id
  {
    hide GoodSystem, Good, Next;
    var next := Next(codec, maxParallel, sys, step);
    StepKeeps(codec, maxParallel, sys, step);
    GoodMeansOwner(codec, maxParallel, sys);
    GoodMeansOwner(codec, maxParallel, next);
    EndedHasNoJob(codec, maxParallel, next.owner, id);
    if id in sys.owner.entries {
      EndedHasNoJob(codec, maxParallel, sys.owner, id);
    }
    if !(step.JoinNext? && sys.owner.jobs[step.job] == id) {
      JobsStay(codec, maxParallel, sys, step, id);
    }
  }
}
