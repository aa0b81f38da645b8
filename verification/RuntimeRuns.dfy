/**
 Whole runs of the task runtime (crates/vibemux_a2a/src/task_runtime.rs): what holds in every
 reachable state, what a finished shutdown guarantees, and what callers may rely on.
 */
module RuntimeRuns {
  import opened Text
  import opened Canonical
  import opened Contract
  import opened Options
  import opened Sets
  import opened Pagination
  import opened Runtime
  import opened RuntimeInvariant

  /** Every started execution belongs to one stored task of the same subject and key. */
  ghost predicate GoodStarts(entries: map<string, Entry>, started: seq<Start>)
  {
    && (forall i :: 0 <= i < |started| ==>
          started[i].id in entries && SameKey(entries[started[i].id], started[i].subject, started[i].key))
    && (forall i, j :: 0 <= i < j < |started| ==> started[i].id != started[j].id)
  }

  ghost predicate GoodTasks(codec: Codec, maxParallel: nat, s: State)
  {
    && GoodEntries(codec, s.entries)
    && DistinctKeys(s.entries)
    && GoodJobs(s.entries, s.jobs, s.jobIds)
    && |s.entries| <= MAX_RUNTIME_TASKS
    && |s.jobs| <= maxParallel
    && GoodStarts(s.entries, s.started)
    && (s.failure.Some? <==> s.crashed)
  }

  ghost predicate Good(codec: Codec, maxParallel: nat, s: State)
  {
    GoodTasks(codec, maxParallel, s) && GoodReplies(s) && GoodSubs(s.entries, s.subs)
  }

  ghost predicate GoodSystem(codec: Codec, maxParallel: nat, sys: System)
  {
    && Good(codec, maxParallel, sys.owner)
    && (sys.phase.Serving? || sys.phase.Draining? ==> !sys.expired)
    && (sys.phase.Aborting? ==> sys.expired)
    && (sys.phase.Stopped? ==>
          && sys.owner.jobs == map[]
          && (sys.phase.outcome.Ok? <==> !sys.expired && !sys.owner.crashed))
  }

  /** One task, before and after: who owns it and what was asked never change, and nothing about
      it changes once it ended. */
  predicate SameTask(a: Entry, b: Entry)
  {
    && a.subject == b.subject && a.key == b.key && a.input == b.input
    && a.snapshot.taskId == b.snapshot.taskId && a.snapshot.contextId == b.snapshot.contextId
    && (Ended(a) ==> a == b)
  }

  /** The history of `t` continues that of `s`. */
  ghost predicate Evolves(s: State, t: State)
  {
    && (forall id :: id in s.entries ==> id in t.entries && SameTask(s.entries[id], t.entries[id]))
    && s.replies <= t.replies
    && s.taken <= t.taken
    && s.dropped <= t.dropped
    && s.started <= t.started
    && (s.crashed ==> t.crashed)
  }

  lemma EvolvesTransitive(r: State, s: State, t: State)
    requires Evolves(r, s) && Evolves(s, t)
    ensures Evolves(r, t)
  {
  }

  // -- One turn ------------------------------------------------------------------------

  lemma AnswerKeeps(codec: Codec, maxParallel: nat, s: State, command: Command, answer: Answer)
    requires Good(codec, maxParallel, s) && command.reply !in s.taken
    requires command.Cancel? ==> CancelAnswer(answer)
    ensures Good(codec, maxParallel, AnswerNow(s, command, answer))
    ensures Evolves(s, AnswerNow(s, command, answer))
  {
    hide GoodEntry, GoodSubs, GoodReplies, DistinctKeys, GoodJobs, GoodStarts;
    RepliesAfterAnswer(s, command, answer);
  }

  /** The same tasks, up to their cancellation signal and waiters. */
  ghost predicate SameFacts(before: map<string, Entry>, after: map<string, Entry>)
  {
    && before.Keys == after.Keys
    && (forall id :: id in before ==>
          && SameKey(after[id], before[id].subject, before[id].key)
          && after[id].input == before[id].input
          && after[id].snapshot == before[id].snapshot)
  }

  lemma FactsKeepKeys(before: map<string, Entry>, after: map<string, Entry>, started: seq<Start>)
    requires SameFacts(before, after) && DistinctKeys(before) && GoodStarts(before, started)
    ensures DistinctKeys(after) && GoodStarts(after, started)
  {
  }

  lemma FactsKeepJobs(before: map<string, Entry>, after: map<string, Entry>, jobs: map<JobId, string>,
                      jobIds: map<JobId, string>)
    requires SameFacts(before, after) && GoodJobs(before, jobs, jobIds)
    ensures GoodJobs(after, jobs, jobIds)
  {
  }

  lemma FactsKeepSubs(before: map<string, Entry>, after: map<string, Entry>, subs: map<SubId, Subscription>)
    requires SameFacts(before, after) && GoodSubs(before, subs)
    ensures GoodSubs(after, subs)
  {
    hide Trace, Receivers;
    forall k | k in subs ensures GoodSub(after, subs[k]) {
      assert GoodSub(before, subs[k]);
    }
  }

  lemma FactsKeepTasks(codec: Codec, maxParallel: nat, s: State, t: State)
    requires GoodTasks(codec, maxParallel, s) && SameFacts(s.entries, t.entries) && GoodEntries(codec, t.entries)
    requires t.jobs == s.jobs && t.jobIds == s.jobIds && t.failure == s.failure
    requires t.started == s.started && t.crashed == s.crashed
    ensures GoodTasks(codec, maxParallel, t)
  {
    hide DistinctKeys, GoodJobs, GoodStarts, GoodEntries;
    FactsKeepKeys(s.entries, t.entries, s.started);
    FactsKeepJobs(s.entries, t.entries, s.jobs, s.jobIds);
    assert |s.entries.Keys| == |t.entries.Keys|;
  }

  lemma UpdateKeepsEntries(codec: Codec, entries: map<string, Entry>, id: string, e: Entry)
    requires GoodEntries(codec, entries) && id in entries && GoodEntry(codec, id, e)
    requires SameKey(e, entries[id].subject, entries[id].key)
    requires e.input == entries[id].input && e.snapshot == entries[id].snapshot
    ensures SameFacts(entries, entries[id := e]) && GoodEntries(codec, entries[id := e])
  {
    hide GoodEntry;
  }

  lemma PruneKeeps(codec: Codec, maxParallel: nat, s: State, id: string, closed: set<ReplyId>)
    requires Good(codec, maxParallel, s) && id in s.entries && !Ended(s.entries[id])
    ensures Good(codec, maxParallel, Prune(s, id, closed)) && Evolves(s, Prune(s, id, closed))
  {
    hide GoodSubs, GoodReplies, GoodSnapshot, GoodTasks;
    var e := Prune(s, id, closed).entries[id];
    TasksAreEntries(codec, maxParallel, s);
    assert GoodEntry(codec, id, e) by {
      assert GoodEntry(codec, id, s.entries[id]);
    }
    UpdateKeepsEntries(codec, s.entries, id, e);
    FactsKeepTasks(codec, maxParallel, s, Prune(s, id, closed));
    FactsKeepSubs(s.entries, s.entries[id := e], s.subs);
    RepliesAfterPrune(s, id, closed);
  }

  lemma TasksAreEntries(codec: Codec, maxParallel: nat, s: State)
    requires GoodTasks(codec, maxParallel, s)
    ensures GoodEntries(codec, s.entries)
  {
  }

  lemma ParkKeeps(codec: Codec, maxParallel: nat, s: State, command: Command)
    requires Good(codec, maxParallel, s) && command.Cancel? && command.reply !in s.taken
    requires command.id in s.entries && !Ended(s.entries[command.id])
    requires |s.entries[command.id].waiters| < MAX_CANCEL_WAITERS
    ensures Good(codec, maxParallel, Park(s, command)) && Evolves(s, Park(s, command))
  {
    hide GoodSubs, GoodReplies, GoodSnapshot, GoodTasks;
    var id := command.id;
    var e := Park(s, command).entries[id];
    TasksAreEntries(codec, maxParallel, s);
    assert GoodEntry(codec, id, e) by {
      assert GoodEntry(codec, id, s.entries[id]);
    }
    UpdateKeepsEntries(codec, s.entries, id, e);
    FactsKeepTasks(codec, maxParallel, s, Park(s, command));
    FactsKeepSubs(s.entries, s.entries[id := e], s.subs);
    RepliesAfterPark(s, command);
  }

  lemma CancelKeeps(codec: Codec, maxParallel: nat, s: State, command: Command, closed: set<ReplyId>)
    requires Good(codec, maxParallel, s) && command.Cancel? && command.reply !in s.taken
    ensures Good(codec, maxParallel, HandleCancel(s, command, closed))
    ensures Evolves(s, HandleCancel(s, command, closed))
  {
    hide Good, Evolves, Listening;
    var id := command.id;
    if id in s.entries && s.entries[id].subject == command.subject && !Ended(s.entries[id]) {
      PruneKeeps(codec, maxParallel, s, id, closed);
      var pruned := Prune(s, id, closed);
      if |pruned.entries[id].waiters| >= MAX_CANCEL_WAITERS {
        AnswerKeeps(codec, maxParallel, pruned, command, SnapshotAnswer(Err(Busy)));
        EvolvesTransitive(s, pruned, AnswerNow(pruned, command, SnapshotAnswer(Err(Busy))));
      } else {
        ParkKeeps(codec, maxParallel, pruned, command);
        EvolvesTransitive(s, pruned, Park(pruned, command));
      }
    } else {
      var answer :=
        if id !in s.entries || s.entries[id].subject != command.subject then SnapshotAnswer(Err(NotFound))
        else if s.entries[id].snapshot.state.Canceled? then SnapshotAnswer(Ok(s.entries[id].snapshot))
        else SnapshotAnswer(Err(Unsupported));
      AnswerKeeps(codec, maxParallel, s, command, answer);
    }
  }

  lemma AdmitKeeps(codec: Codec, maxParallel: nat, s: State, command: Command, input: Identity, ids: NewIds)
    requires Good(codec, maxParallel, s) && command.Send? && command.reply !in s.taken
    requires AreNew(s, ids) && ValidIdentifier(command.request.contextId)
    requires forall id :: id in s.entries ==> !SameKey(s.entries[id], command.subject, command.request.key)
    requires |s.entries| < MAX_RUNTIME_TASKS && |s.jobs| < maxParallel
    ensures Good(codec, maxParallel, Admit(s, command, input, ids))
    ensures Evolves(s, Admit(s, command, input, ids))
  {
    hide ValidIdentifier, GoodTasks, GoodReplies, GoodSubs;
    var t := Admit(s, command, input, ids);
    var e := t.entries[ids.task];
    AdmitKeepsTasks(codec, maxParallel, s, command, input, ids);
    AdmitKeepsSubs(s.entries, s.subs, ids.task, e);
    var submitted := e.snapshot.(state := Submitted);
    var answered := AnswerNow(s, command, SnapshotAnswer(Ok(submitted)));
    RepliesAfterAnswer(s, command, SnapshotAnswer(Ok(submitted)));
    RepliesAfterEntry(answered, t, ids.task, e);
  }

  lemma AdmitKeepsTasks(codec: Codec, maxParallel: nat, s: State, command: Command, input: Identity, ids: NewIds)
    requires GoodTasks(codec, maxParallel, s) && command.Send?
    requires AreNew(s, ids) && ValidIdentifier(command.request.contextId)
    requires forall id :: id in s.entries ==> !SameKey(s.entries[id], command.subject, command.request.key)
    requires |s.entries| < MAX_RUNTIME_TASKS && |s.jobs| < maxParallel
    ensures GoodTasks(codec, maxParallel, Admit(s, command, input, ids))
  {
    hide GoodJobs, GoodEntries, GoodStarts, DistinctKeys, ValidIdentifier;
    var t := Admit(s, command, input, ids);
    var e := t.entries[ids.task];
    EntriesAfterAdmit(codec, s.entries, e);
    JobsAreKnown(s);
    JobsAfterAdmit(s.entries, s.jobs, ids.task, e, ids.job);
    KeysAfterAdmit(s.entries, s.started, ids.task, e);
    SizeAfterInsert(s.entries, ids.task, e);
    SizeAfterInsert(s.jobs, ids.job, ids.task);
  }

  lemma EntriesAfterAdmit(codec: Codec, entries: map<string, Entry>, e: Entry)
    requires GoodEntries(codec, entries)
    requires e.snapshot == WhileWorking(e.snapshot) && e.waiters == []
    requires ValidIdentifier(e.snapshot.taskId) && ValidIdentifier(e.snapshot.contextId)
    ensures GoodEntries(codec, entries[e.snapshot.taskId := e])
  {
    BareSnapshotIsValid(codec, e.snapshot);
  }

  lemma KeysAfterAdmit(entries: map<string, Entry>, started: seq<Start>, id: string, e: Entry)
    requires DistinctKeys(entries) && GoodStarts(entries, started) && id !in entries
    requires forall x :: x in entries ==> !SameKey(entries[x], e.subject, e.key)
    ensures DistinctKeys(entries[id := e])
    ensures GoodStarts(entries[id := e], started + [Start(e.subject, e.key, id)])
  {
  }

  lemma SizeAfterInsert<K, V>(m: map<K, V>, k: K, v: V)
    requires k !in m
    ensures |m[k := v]| == |m| + 1
  {
    assert m[k := v].Keys == m.Keys + {k};
  }

  lemma JobsAreKnown(s: State)
    requires GoodJobs(s.entries, s.jobs, s.jobIds)
    ensures s.jobIds == s.jobs
  {
  }

  lemma AdmitKeepsSubs(entries: map<string, Entry>, subs: map<SubId, Subscription>, id: string, e: Entry)
    requires GoodSubs(entries, subs) && id !in entries
    ensures GoodSubs(entries[id := e], subs)
  {
    hide Trace;
    forall k | k in subs ensures GoodSub(entries[id := e], subs[k]) {
      assert GoodSub(entries, subs[k]);
    }
    assert Receivers(subs, id) == {} by {
      forall k | k in subs ensures subs[k].task != id {
        assert GoodSub(entries, subs[k]);
      }
    }
  }

  lemma SendKeeps(codec: Codec, maxParallel: nat, s: State, command: Command, ids: NewIds)
    requires Good(codec, maxParallel, s) && command.Send? && Accepts(codec, command)
    requires command.reply !in s.taken && AreNew(s, ids)
    ensures Good(codec, maxParallel, HandleSend(maxParallel, s, command, ids))
    ensures Evolves(s, HandleSend(maxParallel, s, command, ids))
  {
    hide Good, Evolves, InputIdentity, ValidIdentifier;
    var request := command.request;
    match SendAnswer(maxParallel, s, command)
    case Some(answer) => AnswerKeeps(codec, maxParallel, s, command, SnapshotAnswer(answer));
    case None =>
      var identity := InputIdentity(request.contextId, request.continues, request.payload);
      AdmitKeeps(codec, maxParallel, s, command, identity.value, ids);
  }

  lemma SubscribeKeeps(codec: Codec, maxParallel: nat, s: State, command: Command, ids: NewIds)
    requires Good(codec, maxParallel, s) && command.Subscribe?
    requires command.reply !in s.taken && AreNew(s, ids)
    ensures Good(codec, maxParallel, HandleSubscribe(s, command, ids))
    ensures Evolves(s, HandleSubscribe(s, command, ids))
  {
    hide Evolves, GoodTasks, GoodSubs, GoodReplies, ValidIdentifier;
    var t := HandleSubscribe(s, command, ids);
    var answer := t.replies[|s.replies|].answer;
    AnswerKeeps(codec, maxParallel, s, command, answer);
    if t.subs == s.subs {
      assert t == AnswerNow(s, command, answer);
    } else {
      var answered := AnswerNow(s, command, answer);
      assert t == answered.(subs := t.subs);
      NewSubIsGood(s.entries, s.subs, command.id, ids.sub, t.subs[ids.sub]);
      OnlySubsChange(codec, maxParallel, answered, t);
      SubsDoNotMatter(s, answered, t);
    }
  }

  lemma NewSubIsGood(entries: map<string, Entry>, subs: map<SubId, Subscription>, id: string, k: SubId, sub: Subscription)
    requires GoodSubs(entries, subs) && id in entries && k !in subs
    requires |Receivers(subs, id)| < MAX_SUBSCRIPTIONS
    requires sub == Subscription(id, Some(entries[id].snapshot), [], false, false, true, [])
    ensures GoodSubs(entries, subs[k := sub])
  {
    hide GoodSub, Trace, Receivers;
    var after := subs[k := sub];
    OpenedSubIsGood(entries, id, sub);
    forall x | x in entries ensures |Receivers(after, x)| <= MAX_SUBSCRIPTIONS {
      NewReceiver(subs, k, sub, x);
    }
  }

  lemma NewReceiver(subs: map<SubId, Subscription>, k: SubId, sub: Subscription, id: string)
    requires k !in subs && sub.open
    ensures Receivers(subs[k := sub], id) == Receivers(subs, id) + if sub.task == id then {k} else {}
  {
  }

  lemma OpenedSubIsGood(entries: map<string, Entry>, id: string, sub: Subscription)
    requires id in entries
    requires sub == Subscription(id, Some(entries[id].snapshot), [], false, false, true, [])
    ensures GoodSub(entries, sub)
  {
    assert Trace(sub) == [Ok(entries[id].snapshot)];
  }

  lemma OnlySubsChange(codec: Codec, maxParallel: nat, s: State, t: State)
    requires Good(codec, maxParallel, s) && t == s.(subs := t.subs) && GoodSubs(t.entries, t.subs)
    ensures Good(codec, maxParallel, t)
  {
    hide GoodEntry, GoodSubs, DistinctKeys, GoodJobs, GoodStarts, AnsweredOnce, ParkedOnce, CancelAnswer;
  }

  lemma SubsDoNotMatter(s: State, t: State, u: State)
    requires Evolves(s, t) && u == t.(subs := u.subs)
    ensures Evolves(s, u)
  {
  }

  lemma HandleKeeps(codec: Codec, maxParallel: nat, s: State, command: Command, ids: NewIds, closed: set<ReplyId>)
    requires Good(codec, maxParallel, s) && Accepts(codec, command)
    requires command.reply !in s.taken && AreNew(s, ids)
    ensures Good(codec, maxParallel, Handle(codec, maxParallel, s, command, ids, closed))
    ensures Evolves(s, Handle(codec, maxParallel, s, command, ids, closed))
  {
    hide Good, Evolves, HandleSend, HandleCancel, HandleSubscribe;
    match command
    case Send(_, _, _) => SendKeeps(codec, maxParallel, s, command, ids);
    case Get(subject, id, _) =>
      AnswerKeeps(codec, maxParallel, s, command, SnapshotAnswer(OwnedSnapshot(s, subject, id)));
    case Cancel(_, _, _) => CancelKeeps(codec, maxParallel, s, command, closed);
    case Subscribe(_, _, _) => SubscribeKeeps(codec, maxParallel, s, command, ids);
    case List(subject, listing, _) =>
      AnswerKeeps(codec, maxParallel, s, command,
                  ListAnswer(Listing(codec, Views(Rows(s.entries), subject, listing), listing)));
  }

  // -- Joins, the stop signal and the drain ----------------------------------------------

  lemma FinishKeepsEntries(codec: Codec, s: State, id: string, result: Result<Execution>)
    requires GoodEntries(codec, s.entries) && id in s.entries && !Ended(s.entries[id])
    ensures var t := Finish(codec, s, id, result);
            && GoodEntries(codec, t.entries)
            && t.entries == s.entries[id := t.entries[id]]
            && Ended(t.entries[id])
            && (forall x :: x in s.entries ==> SameTask(s.entries[x], t.entries[x]))
  {
    hide GoodEntry, FinishedSnapshot, AnswerAll, Publish;
    FinishedEntry(codec, id, s.entries[id], result);
  }

  lemma KeysAfterUpdate(entries: map<string, Entry>, started: seq<Start>, id: string, e: Entry)
    requires DistinctKeys(entries) && GoodStarts(entries, started) && id in entries
    requires SameKey(e, entries[id].subject, entries[id].key)
    ensures DistinctKeys(entries[id := e]) && GoodStarts(entries[id := e], started)
  {
  }

  /** The state between a join and the finish of the joined task. */
  function WithoutJob(s: State, job: JobId): State
  {
    s.(jobs := s.jobs - {job}, jobIds := s.jobIds - {job})
  }

  lemma FinishJobKeepsTasks(codec: Codec, maxParallel: nat, s: State, job: JobId, result: Result<Execution>)
    requires GoodTasks(codec, maxParallel, s) && job in s.jobs
    ensures GoodTasks(codec, maxParallel, Finish(codec, WithoutJob(s, job), s.jobs[job], result))
  {
    hide GoodEntries, DistinctKeys, GoodStarts, FinishedSnapshot, AnswerAll, Publish;
    var id := s.jobs[job];
    var t := Finish(codec, WithoutJob(s, job), id, result);
    FinishKeepsEntries(codec, WithoutJob(s, job), id, result);
    KeysAfterUpdate(s.entries, s.started, id, t.entries[id]);
    JobsAfterJoin(s.entries, s.jobs, job, t.entries[id]);
    assert t.entries.Keys == s.entries.Keys;
    assert t.jobs.Keys == s.jobs.Keys - {job};
  }

  /** Removing a job and finishing its task, up to the recorded failure. */
  lemma FinishJobKeeps(codec: Codec, maxParallel: nat, s: State, job: JobId, result: Result<Execution>)
    requires Good(codec, maxParallel, s) && job in s.jobs
    ensures var t := Finish(codec, WithoutJob(s, job), s.jobs[job], result);
            && Good(codec, maxParallel, t) && Evolves(s, t)
            && t.failure == s.failure && t.crashed == s.crashed
  {
    hide GoodEntries, GoodReplies, GoodSubs, DistinctKeys, GoodStarts, FinishedSnapshot, AnswerAll, Publish;
    var id := s.jobs[job];
    FinishKeepsEntries(codec, WithoutJob(s, job), id, result);
    FinishJobKeepsTasks(codec, maxParallel, s, job, result);
    JobsDoNotMatter(s, WithoutJob(s, job));
    RepliesAfterFinish(codec, WithoutJob(s, job), id, result);
    SubsAfterFinish(codec, WithoutJob(s, job), id, result);
  }

  lemma JobsDoNotMatter(s: State, t: State)
    requires GoodReplies(s) && t == s.(jobs := t.jobs, jobIds := t.jobIds)
    ensures GoodReplies(t)
  {
    hide AnsweredOnce, ParkedOnce, CancelAnswer, Answered, Parked;
  }

  lemma FailureDoesNotMatter(codec: Codec, maxParallel: nat, s: State, t: State)
    requires Good(codec, maxParallel, s) && t == s.(failure := t.failure, crashed := t.crashed)
    requires t.failure.Some? <==> t.crashed
    ensures Good(codec, maxParallel, t)
  {
    hide GoodEntries, GoodSubs, DistinctKeys, GoodJobs, GoodStarts, AnsweredOnce, ParkedOnce, CancelAnswer,
         Answered, Parked;
  }

  /** Joining a job finishes the task it was started for. The id the job returns is always the
      recorded one, so the mismatch branch is dead. */
  lemma JoinKeeps(codec: Codec, maxParallel: nat, s: State, job: JobId, result: Joined, aborted: Option<TaskError>)
    requires Good(codec, maxParallel, s) && job in s.jobs
    ensures job in s.jobIds && s.jobIds[job] == s.jobs[job]
    ensures var t := JoinJob(codec, s, job, result, aborted);
            && Good(codec, maxParallel, t) && Evolves(s, t)
            && t.crashed == (s.crashed || result.Crashed?)
  {
    hide Good, Evolves, JoinJob;
    RecordedJob(codec, maxParallel, s, job);
    match result
    case Finished(outcome) => FinishedKeeps(codec, maxParallel, s, job, outcome, aborted);
    case Crashed => CrashedKeeps(codec, maxParallel, s, job, aborted);
  }

  lemma RecordedJob(codec: Codec, maxParallel: nat, s: State, job: JobId)
    requires Good(codec, maxParallel, s) && job in s.jobs
    ensures job in s.jobIds && s.jobIds[job] == s.jobs[job]
  {
    hide GoodEntries, GoodReplies, GoodSubs, DistinctKeys, GoodStarts;
    JobsAreKnown(s);
  }

  lemma FinishedKeeps(codec: Codec, maxParallel: nat, s: State, job: JobId, outcome: Result<Execution>,
                      aborted: Option<TaskError>)
    requires Good(codec, maxParallel, s) && job in s.jobs
    ensures var t := JoinJob(codec, s, job, Finished(outcome), aborted);
            Good(codec, maxParallel, t) && Evolves(s, t) && t.crashed == s.crashed
  {
    hide Finish, Good, Evolves;
    RecordedJob(codec, maxParallel, s, job);
    FinishJobKeeps(codec, maxParallel, s, job, outcome);
  }

  lemma CrashedKeeps(codec: Codec, maxParallel: nat, s: State, job: JobId, aborted: Option<TaskError>)
    requires Good(codec, maxParallel, s) && job in s.jobs
    ensures var t := JoinJob(codec, s, job, Crashed, aborted);
            Good(codec, maxParallel, t) && Evolves(s, t) && t.crashed
  {
    hide Finish, GoodEntries, GoodReplies, GoodSubs, DistinctKeys, GoodStarts;
    var error := if aborted.Some? then aborted.value else Internal;
    RecordedJob(codec, maxParallel, s, job);
    FinishJobKeeps(codec, maxParallel, s, job, Err(error));
    FailureDoesNotMatter(codec, maxParallel, Finish(codec, WithoutJob(s, job), s.jobs[job], Err(error)),
                         JoinJob(codec, s, job, Crashed, aborted));
  }

  lemma {:induction false} RejectAllKeeps(codec: Codec, maxParallel: nat, s: State, queue: seq<Command>)
    requires Good(codec, maxParallel, s) && NewReplies(s, queue)
    ensures var t := RejectAll(s, queue);
            && Good(codec, maxParallel, t) && Evolves(s, t)
            && t.started == s.started && t.jobs == s.jobs
            && t.taken == s.taken + (set c | c in queue :: c.reply)
    decreases |queue|
  {
    hide Good, Evolves;
    if queue == [] {
      EvolvesReflexive(s);
    } else {
      var command := queue[0];
      var first := Reject(s, command);
      AnswerKeeps(codec, maxParallel, s, command, first.replies[|s.replies|].answer);
      RejectAllKeeps(codec, maxParallel, first, queue[1..]);
      EvolvesTransitive(s, first, RejectAll(s, queue));
      assert queue == [command] + queue[1..];
    }
  }

  lemma EvolvesReflexive(s: State)
    ensures Evolves(s, s)
  {
  }

  lemma CancelAllKeeps(codec: Codec, maxParallel: nat, s: State)
    requires Good(codec, maxParallel, s)
    ensures var t := s.(entries := CancelAll(s.entries)); Good(codec, maxParallel, t) && Evolves(s, t)
  {
    hide GoodReplies, GoodSubs, DistinctKeys, GoodJobs, GoodStarts, GoodSnapshot;
    var t := s.(entries := CancelAll(s.entries));
    forall id | id in t.entries ensures GoodEntry(codec, id, t.entries[id]) {
      assert GoodEntry(codec, id, s.entries[id]);
    }
    FactsKeepTasks(codec, maxParallel, s, t);
    FactsKeepSubs(s.entries, t.entries, s.subs);
    RepliesAfterCancelAll(s);
  }

  /** When no job is live every task has ended, so a deadline finds nothing left to finish. */
  lemma NoJobsAllEnded(s: State)
    requires GoodJobs(s.entries, s.jobs, s.jobIds) && s.jobs == map[]
    ensures forall id :: id in s.entries ==> Ended(s.entries[id])
  {
    assert s.jobs.Values == {};
  }

  lemma {:induction false} FinishPendingIsIdle(codec: Codec, s: State, pending: seq<string>)
    requires forall id :: id in s.entries ==> Ended(s.entries[id])
    ensures FinishPending(codec, s, pending) == s
    decreases |pending|
  {
    if pending != [] {
      FinishPendingIsIdle(codec, s, pending[1..]);
    }
  }

  lemma PollKeeps(codec: Codec, maxParallel: nat, s: State, k: SubId, senderGone: bool)
    requires Good(codec, maxParallel, s) && k in s.subs && s.subs[k].open
    requires senderGone ==> s.jobs == map[]
    ensures var t := s.(subs := s.subs[k := PollStream(s.subs[k], senderGone)]);
            Good(codec, maxParallel, t) && Evolves(s, t)
  {
    var sub := PollStream(s.subs[k], senderGone);
    SubsAfterPoll(s, k, senderGone);
    ReplaceSub(codec, maxParallel, s, k, sub);
  }

  lemma SubsAfterPoll(s: State, k: SubId, senderGone: bool)
    requires GoodJobs(s.entries, s.jobs, s.jobIds) && GoodSubs(s.entries, s.subs) && k in s.subs && s.subs[k].open
    requires senderGone ==> s.jobs == map[]
    ensures var sub := PollStream(s.subs[k], senderGone);
            GoodSub(s.entries, sub) && sub.task == s.subs[k].task && sub.open
  {
    hide Trace;
    assert GoodSub(s.entries, s.subs[k]);
    if senderGone {
      NoJobsAllEnded(s);
    }
    SubAfterPoll(s.entries, s.subs[k], senderGone);
  }

  lemma ReplaceSub(codec: Codec, maxParallel: nat, s: State, k: SubId, sub: Subscription)
    requires Good(codec, maxParallel, s) && k in s.subs && GoodSub(s.entries, sub)
    requires sub.task == s.subs[k].task && (sub.open ==> s.subs[k].open)
    ensures var t := s.(subs := s.subs[k := sub]); Good(codec, maxParallel, t) && Evolves(s, t)
  {
    hide GoodReplies, GoodTasks, GoodSub;
    var t := s.(subs := s.subs[k := sub]);
    forall id | id in t.entries ensures |Receivers(t.subs, id)| <= MAX_SUBSCRIPTIONS {
      assert Receivers(t.subs, id) <= Receivers(s.subs, id);
      SubsetSize(Receivers(t.subs, id), Receivers(s.subs, id));
    }
    OnlySubsChange(codec, maxParallel, s, t);
  }

  lemma ClosedSubIsGood(entries: map<string, Entry>, sub: Subscription)
    requires GoodSub(entries, sub)
    ensures GoodSub(entries, sub.(open := false))
  {
    assert Trace(sub.(open := false)) == Trace(sub);
  }

  // -- Every run -----------------------------------------------------------------------

  lemma StepKeeps(codec: Codec, maxParallel: nat, sys: System, step: Step)
    requires GoodSystem(codec, maxParallel, sys) && Enabled(codec, sys, step)
    ensures var next := Next(codec, maxParallel, sys, step);
            GoodSystem(codec, maxParallel, next) && Evolves(sys.owner, next.owner)
  {
    hide Good, Evolves, Handle, JoinJob, RejectAll, CancelAll, PollStream, Accepts, AreNew, NewReplies;
    var s := sys.owner;
    match step
    case Take(command, ids, closed) => HandleKeeps(codec, maxParallel, s, command, ids, closed);
    case JoinNext(job, result) =>
      JoinKeeps(codec, maxParallel, s, job, result, if sys.phase.Aborting? then Some(Deadline) else None);
    case Stop(queue) =>
      RejectAllKeeps(codec, maxParallel, s, queue);
      var rejected := RejectAll(s, queue);
      CancelAllKeeps(codec, maxParallel, rejected);
      EvolvesTransitive(s, rejected, rejected.(entries := CancelAll(rejected.entries)));
    case Expire => EvolvesReflexive(s);
    case DrainEnds =>
      EvolvesReflexive(s);
      GoodMeansJobs(codec, maxParallel, s);
      NoJobsAllEnded(s);
      FinishPendingIsIdle(codec, s, Sorted(s.entries.Keys));
    case Poll(k) => PollKeeps(codec, maxParallel, s, k, sys.phase.Stopped?);
    case Unsubscribe(k) =>
      GoodMeansJobs(codec, maxParallel, s);
      assert GoodSub(s.entries, s.subs[k]);
      ClosedSubIsGood(s.entries, s.subs[k]);
      ReplaceSub(codec, maxParallel, s, k, s.subs[k].(open := false));
  }

  lemma GoodMeansJobs(codec: Codec, maxParallel: nat, s: State)
    requires Good(codec, maxParallel, s)
    ensures GoodJobs(s.entries, s.jobs, s.jobIds) && (s.failure.Some? <==> s.crashed) && GoodSubs(s.entries, s.subs)
  {
  }

  lemma StartIsGood(codec: Codec, maxParallel: nat)
    ensures GoodSystem(codec, maxParallel, START)
  {
    assert Answered([]) == {} && Parked(map[]) == {};
  }

  lemma {:induction false} RunKeeps(codec: Codec, maxParallel: nat, sys: System, run: seq<Step>, last: System)
    requires GoodSystem(codec, maxParallel, sys) && Runs(codec, maxParallel, sys, run, last)
    ensures GoodSystem(codec, maxParallel, last) && Evolves(sys.owner, last.owner)
    decreases |run|
  {
    hide GoodSystem, Evolves, Enabled, Next;
    if run == [] {
      EvolvesReflexive(sys.owner);
    } else {
      StepKeeps(codec, maxParallel, sys, run[0]);
      var next := Next(codec, maxParallel, sys, run[0]);
      RunKeeps(codec, maxParallel, next, run[1..], last);
      EvolvesTransitive(sys.owner, next.owner, last.owner);
    }
  }

  lemma GoodMeansOwner(codec: Codec, maxParallel: nat, sys: System)
    requires GoodSystem(codec, maxParallel, sys)
    ensures Good(codec, maxParallel, sys.owner)
  {
  }

  lemma RowsAreListable(codec: Codec, maxParallel: nat, s: State)
    requires Good(codec, maxParallel, s)
    ensures Listable(codec, Rows(s.entries))
  {
    hide GoodReplies, GoodSubs, GoodJobs, GoodStarts, DistinctKeys, ValidSnapshot;
    var order := Sorted(s.entries.Keys);
    forall i | 0 <= i < |order| ensures ValidSnapshot(codec, Rows(s.entries)[i].snapshot) {
      assert order[i] in order;
      assert GoodEntry(codec, order[i], s.entries[order[i]]);
    }
    AscendingSize(order, s.entries.Keys);
  }

  lemma {:induction false} AscendingSize(order: seq<string>, keys: set<string>)
    requires Ascending(order) && forall k :: k in order <==> k in keys
    ensures |order| == |keys|
  {
    if order == [] {
      assert keys == {};
    } else {
      assert order[0] in keys;
      forall k ensures k in order[1..] <==> k in keys - {order[0]} {
        assert k in order <==> k == order[0] || k in order[1..];
      }
      AscendingSize(order[1..], keys - {order[0]});
    }
  }
}
