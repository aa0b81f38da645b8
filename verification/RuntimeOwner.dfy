/**
 The owner of the task runtime as the object it is: fields changed in place, turn by turn
 (crates/vibemux_a2a/src/task_runtime.rs). Every method is proved to take exactly the turn of
 the state machine, so the results over runs hold of the object.
 */
module RuntimeOwner {
  import opened Text
  import opened Canonical
  import opened Contract
  import opened Options
  import opened Pagination
  import opened Runtime
  import opened RuntimeInvariant
  import opened RuntimeRuns
  import opened RuntimeResults

  /** What comes to the owner while it serves: a command with the ids that may be made for it and
      the callers known to be gone, the end of some job, or a turn of a subscriber. */
  datatype Turn =
    | CommandTurn(command: Command, ids: NewIds, closed: set<ReplyId>)
    | JoinTurn(result: Joined)
    | ReadTurn(sub: SubId)
    | DropTurn(sub: SubId)

  /** Commands were checked before they were queued, and channels and ids are never used twice. */
  ghost predicate Proper(codec: Codec, turns: seq<Turn>, queue: seq<Command>)
  {
    && (forall t :: t in turns && t.CommandTurn? ==> Accepts(codec, t.command) && ValidIdentifier(t.ids.task))
    && (forall i, j :: 0 <= i < j < |turns| && turns[i].CommandTurn? && turns[j].CommandTurn? ==>
          Apart(turns[i], turns[j]))
    && (forall t, c :: t in turns && t.CommandTurn? && c in queue ==> t.command.reply != c.reply)
    && (forall i, j :: 0 <= i < j < |queue| ==> queue[i].reply != queue[j].reply)
  }

  predicate Apart(a: Turn, b: Turn)
    requires a.CommandTurn? && b.CommandTurn?
  {
    && a.command.reply != b.command.reply
    && a.ids.task != b.ids.task && a.ids.job != b.ids.job && a.ids.sub != b.ids.sub
  }

  /** Nothing that is still to come has been used. */
  ghost predicate Unused(s: State, turns: seq<Turn>, queue: seq<Command>)
  {
    && (forall t :: t in turns && t.CommandTurn? ==> t.command.reply !in s.taken && AreNew(s, t.ids))
    && NewReplies(s, queue)
  }

  class Owner {
    const codec: Codec
    const maxParallel: nat
    var entries: map<string, Entry>
    var jobs: map<JobId, string>
    var jobIds: map<JobId, string>
    var failure: Option<TaskError>
    var subs: map<SubId, Subscription>
    var replies: seq<Reply>
    ghost var taken: set<ReplyId>
    ghost var cancels: set<ReplyId>
    ghost var dropped: set<ReplyId>
    ghost var started: seq<Start>
    ghost var crashed: bool

    ghost function Model(): State
      reads this
    {
      State(entries, jobs, jobIds, failure, subs, replies, taken, cancels, dropped, started, crashed)
    }

    ghost predicate Valid()
      reads this
    {
      Good(codec, maxParallel, Model())
    }

    constructor (codec: Codec, maxParallel: nat)
      ensures Valid() && Model() == INITIAL
      ensures this.codec == codec && this.maxParallel == maxParallel
    {
      this.codec := codec;
      this.maxParallel := maxParallel;
      entries, jobs, jobIds, failure := map[], map[], map[], None;
      subs, replies := map[], [];
      taken, cancels, dropped, started, crashed := {}, {}, {}, [], false;
      new;
      StartIsGood(codec, maxParallel);
    }

    /** Sends one answer and retires the command's reply channel. */
    method Respond(command: Command, answer: Answer)
      modifies this
      ensures Model() == AnswerNow(old(Model()), command, answer)
    {
      replies := replies + [Reply(command.reply, answer)];
      taken := taken + {command.reply};
      if command.Cancel? {
        cancels := cancels + {command.reply};
      }
    }

    /** `publish`: one broadcast to every receiver of a task. */
    method PublishTo(id: string, snapshot: TaskSnapshot)
      modifies this`subs
      ensures subs == Publish(old(subs), id, snapshot)
    {
      hide Deliver;
      var rest := subs.Keys;
      while rest != {}
        invariant rest <= subs.Keys == old(subs).Keys
        invariant forall k :: k in rest ==> subs[k] == old(subs)[k]
        invariant forall k :: k in subs && k !in rest ==> subs[k] == Publish(old(subs), id, snapshot)[k]
        decreases |rest|
      {
        var k :| k in rest;
        if subs[k].task == id && subs[k].open {
          subs := subs[k := Deliver(subs[k], snapshot)];
        }
        rest := rest - {k};
      }
    }

    /** `finish`. */
    method FinishTask(id: string, result: Result<Execution>)
      modifies this
      ensures Model() == Finish(codec, old(Model()), id, result)
    {
      hide Publish, ValidSnapshot;
      if id !in entries || entries[id].snapshot.state.IsTerminal() {
        return;
      }
      var entry := entries[id];
      var snapshot := entry.snapshot;
      match result {
        case Ok(WasCanceled) =>
          snapshot := snapshot.(state := Canceled);
          snapshot := snapshot.(errorCode := None);
        case Ok(CompletedWith(artifacts)) =>
          snapshot := snapshot.(artifacts := artifacts);
          snapshot := snapshot.(state := Completed);
          snapshot := snapshot.(errorCode := None);
          if !ValidSnapshot(codec, snapshot) {
            snapshot := snapshot.(artifacts := []);
            snapshot := snapshot.(state := Failed);
            snapshot := snapshot.(errorCode := Some(ErrorCode(Protocol)));
          }
        case Err(error) =>
          snapshot := snapshot.(state := Failed);
          snapshot := snapshot.(errorCode := Some(ErrorCode(error)));
      }
      assert snapshot == FinishedSnapshot(codec, entry.snapshot, result);
      PublishTo(id, snapshot);
      DrainWaiters(entry.waiters, snapshot);
      entries := entries[id := entry.(snapshot := snapshot, waiters := [])];
    }

    method DrainWaiters(waiters: seq<ReplyId>, snapshot: TaskSnapshot)
      modifies this`replies
      ensures replies == old(replies) + AnswerAll(waiters, snapshot)
    {
      var rest := waiters;
      ghost var sent := 0;
      while rest != []
        invariant sent <= |waiters| && rest == waiters[sent..]
        invariant replies == old(replies) + AnswerAll(waiters, snapshot)[..sent]
        decreases |rest|
      {
        replies := replies + [Reply(rest[0], SnapshotAnswer(Ok(snapshot)))];
        rest := rest[1..];
        sent := sent + 1;
      }
    }

    /** `Owner::joined`. The id comes from the job itself. */
    method JoinedJob(job: JobId, result: Joined, aborted: Option<TaskError>)
      requires Valid() && job in jobs
      modifies this
      ensures Valid()
      ensures Model() == JoinJob(codec, old(Model()), job, result, aborted)
      ensures jobs == old(jobs) - {job}
    {
      hide Finish, Good;
      ghost var before := Model();
      var id := jobs[job];
      var known := if job in jobIds then Some(jobIds[job]) else None;
      jobs := jobs - {job};
      jobIds := jobIds - {job};
      match result {
        case Finished(outcome) =>
          if known != Some(id) {
            failure := FirstFailure(failure, Internal);
          }
          FinishKeepsJobs(codec, Model(), id, outcome);
          FinishTask(id, outcome);
        case Crashed =>
          var error := if aborted.Some? then aborted.value else Internal;
          if known.Some? {
            FinishKeepsJobs(codec, Model(), known.value, Err(error));
            FinishTask(known.value, Err(error));
          }
          failure := FirstFailure(failure, error);
          crashed := true;
      }
      JoinKeeps(codec, maxParallel, before, job, result, aborted);
    }

    // -- Commands -----------------------------------------------------------------------

    /** The task with this subject and key, in map order. */
    method FindKey(subject: string, key: string) returns (found: Option<string>)
      ensures found.Some? ==> found.value in entries && SameKey(entries[found.value], subject, key)
      ensures found.None? ==> forall id :: id in entries ==> !SameKey(entries[id], subject, key)
    {
      var order := SortKeys(entries.Keys);
      for i := 0 to |order|
        invariant forall j :: 0 <= j < i ==> order[j] in entries && !SameKey(entries[order[j]], subject, key)
      {
        assert order[i] in order;
        if SameKey(entries[order[i]], subject, key) {
          return Some(order[i]);
        }
      }
      found := None;
    }

    method TakeSend(command: Command, ids: NewIds)
      requires Valid() && command.Send? && Accepts(codec, command)
      requires command.reply !in taken && AreNew(Model(), ids)
      modifies this
      ensures Valid() && Model() == HandleSend(maxParallel, old(Model()), command, ids)
    {
      hide Good, InputIdentity;
      SendKeeps(codec, maxParallel, Model(), command, ids);
      var request := command.request;
      var identity := InputIdentity(request.contextId, request.continues, request.payload);
      if identity.Refused? {
        Respond(command, SnapshotAnswer(Err(InvalidRequest)));
        return;
      }
      var existing := FindKey(command.subject, request.key);
      if existing.Some? {
        OneTaskPerKey(codec, maxParallel, Model(), command.subject, request.key);
        var entry := entries[existing.value];
        Respond(command, SnapshotAnswer(if entry.input == identity.value then Ok(entry.snapshot) else Err(InvalidRequest)));
        return;
      }
      if request.continues.ExistingTask? {
        Respond(command, SnapshotAnswer(Err(Unsupported)));
        return;
      }
      if |entries| >= MAX_RUNTIME_TASKS || |jobs| >= maxParallel {
        Respond(command, SnapshotAnswer(Err(Busy)));
        return;
      }
      StartTask(command, identity.value, ids);
    }

    /** The accepted send: answer, store, broadcast, start. */
    method StartTask(command: Command, input: Identity, ids: NewIds)
      requires Valid() && command.Send? && ids.task !in entries
      modifies this
      ensures Model() == Admit(old(Model()), command, input, ids)
    {
      hide Good, Publish;
      var snapshot := TaskSnapshot(ids.task, command.request.contextId, Submitted, [], None);
      var entry := Entry(command.subject, command.request.key, input, snapshot, false, []);
      Respond(command, SnapshotAnswer(Ok(snapshot)));
      entry := entry.(snapshot := entry.snapshot.(state := Working));
      NoReceiversYet(codec, maxParallel, old(Model()), ids.task, entry.snapshot);
      PublishTo(ids.task, entry.snapshot);
      entries := entries[ids.task := entry];
      jobs := jobs[ids.job := ids.task];
      started := started + [Start(command.subject, command.request.key, ids.task)];
      jobIds := jobIds[ids.job := ids.task];
    }

    method TakeCancel(command: Command, closed: set<ReplyId>)
      requires Valid() && command.Cancel? && command.reply !in taken
      modifies this
      ensures Valid() && Model() == HandleCancel(old(Model()), command, closed)
    {
      hide Good, Prune, Park;
      CancelKeeps(codec, maxParallel, Model(), command, closed);
      var id := command.id;
      if id !in entries || entries[id].subject != command.subject {
        Respond(command, SnapshotAnswer(Err(NotFound)));
      } else if entries[id].snapshot.state == Canceled {
        Respond(command, SnapshotAnswer(Ok(entries[id].snapshot)));
      } else if entries[id].snapshot.state.IsTerminal() {
        Respond(command, SnapshotAnswer(Err(Unsupported)));
      } else {
        AwaitCancel(command, closed);
      }
    }

    /** A cancellation of an unfinished task waits, unless eight callers already do. */
    method AwaitCancel(command: Command, closed: set<ReplyId>)
      requires command.Cancel? && command.id in entries
      modifies this
      ensures var pruned := Prune(old(Model()), command.id, closed);
              Model() == if |pruned.entries[command.id].waiters| >= MAX_CANCEL_WAITERS
                         then AnswerNow(pruned, command, SnapshotAnswer(Err(Busy)))
                         else Park(pruned, command)
    {
      hide Listening;
      var id := command.id;
      var entry := entries[id];
      var kept := RetainListening(entry.waiters, closed);
      dropped := dropped + set w | w in entry.waiters && w in closed;
      entries := entries[id := entry.(waiters := kept)];
      if |kept| >= MAX_CANCEL_WAITERS {
        Respond(command, SnapshotAnswer(Err(Busy)));
      } else {
        entries := entries[id := entries[id].(cancelled := true)];
        entries := entries[id := entries[id].(waiters := entries[id].waiters + [command.reply])];
        taken := taken + {command.reply};
        cancels := cancels + {command.reply};
      }
    }

    method RetainListening(waiters: seq<ReplyId>, closed: set<ReplyId>) returns (kept: seq<ReplyId>)
      ensures kept == Listening(waiters, closed)
    {
      kept := [];
      for i := 0 to |waiters|
        invariant kept == Listening(waiters[..i], closed)
      {
        assert waiters[..i + 1][..i] == waiters[..i];
        if waiters[i] !in closed {
          kept := kept + [waiters[i]];
        }
      }
      assert waiters[..|waiters|] == waiters;
    }

    method TakeSubscribe(command: Command, ids: NewIds)
      requires Valid() && command.Subscribe? && command.reply !in taken && AreNew(Model(), ids)
      modifies this
      ensures Valid() && Model() == HandleSubscribe(old(Model()), command, ids)
    {
      hide Good;
      SubscribeKeeps(codec, maxParallel, Model(), command, ids);
      if command.id !in entries || entries[command.id].subject != command.subject {
        Respond(command, StreamAnswer(Err(NotFound)));
        return;
      }
      if |Receivers(subs, command.id)| >= MAX_SUBSCRIPTIONS {
        Respond(command, StreamAnswer(Err(Busy)));
        return;
      }
      var initial := entries[command.id].snapshot;
      subs := subs[ids.sub := Subscription(command.id, Some(initial), [], false, false, true, [])];
      Respond(command, StreamAnswer(Ok(ids.sub)));
    }

    method TakeList(command: Command)
      requires Valid() && command.List? && Accepts(codec, command) && command.reply !in taken
      modifies this
      ensures Valid()
      ensures Model() == AnswerNow(old(Model()), command,
                ListAnswer(Listing(codec, Views(Rows(old(entries)), command.subject, command.listing), command.listing)))
    {
      hide Good, Listing, Views;
      var order := SortKeys(entries.Keys);
      AscendingUnique(order, Sorted(entries.Keys));
      var rows := [];
      for i := 0 to |order|
        invariant rows == Rows(entries)[..i]
      {
        assert order[i] in order;
        rows := rows + [Row(entries[order[i]].subject, entries[order[i]].snapshot)];
      }
      assert rows == Rows(entries);
      RowsAreListable(codec, maxParallel, Model());
      var list := ListTasks(codec, rows, command.subject, command.listing);
      AnswerKeeps(codec, maxParallel, Model(), command, ListAnswer(list));
      Respond(command, ListAnswer(list));
    }

    /** `handle_command`. */
    method HandleCommand(command: Command, ids: NewIds, closed: set<ReplyId>)
      requires Valid() && Accepts(codec, command) && command.reply !in taken && AreNew(Model(), ids)
      modifies this
      ensures Valid()
      ensures Model() == Handle(codec, maxParallel, old(Model()), command, ids, closed)
    {
      hide Good, HandleSend, HandleCancel, HandleSubscribe, Accepts, AreNew, Listing, Views, Rows;
      match command {
        case Send(_, _, _) => TakeSend(command, ids);
        case Get(subject, id, _) =>
          var answer := OwnedEntry(subject, id);
          AnswerKeeps(codec, maxParallel, Model(), command, SnapshotAnswer(answer));
          Respond(command, SnapshotAnswer(answer));
        case Cancel(_, _, _) => TakeCancel(command, closed);
        case Subscribe(_, _, _) => TakeSubscribe(command, ids);
        case List(_, _, _) => TakeList(command);
      }
    }

    method OwnedEntry(subject: string, id: string) returns (answer: Result<TaskSnapshot>)
      ensures answer == OwnedSnapshot(Model(), subject, id)
    {
      if id in entries && entries[id].subject == subject {
        answer := Ok(entries[id].snapshot);
      } else {
        answer := Err(NotFound);
      }
    }

    // -- Subscribers ------------------------------------------------------------------

    /** `snapshot_stream`: one poll of an open subscription. It yields its initial snapshot, then
        what was broadcast, and nothing after a terminal snapshot or an error. */
    method ReadStream(k: SubId, senderGone: bool) returns (item: Option<Result<TaskSnapshot>>)
      requires Valid() && k in subs && subs[k].open && (senderGone ==> jobs == map[])
      modifies this`subs
      ensures Valid() && subs == old(subs)[k := PollStream(old(subs)[k], senderGone)]
      ensures subs[k].yielded == old(subs)[k].yielded + if item.Some? then [item.value] else []
    {
      hide Good;
      PollKeeps(codec, maxParallel, Model(), k, senderGone);
      var sub := subs[k];
      item := None;
      if !sub.done {
        if sub.initial.Some? {
          item := Some(Ok(sub.initial.value));
          sub := sub.(initial := None, done := sub.initial.value.state.IsTerminal());
        } else if sub.lagged {
          item := Some(Err(Busy));
          sub := sub.(done := true);
        } else if sub.queue != [] {
          item := Some(Ok(sub.queue[0]));
          sub := sub.(queue := sub.queue[1..], done := sub.queue[0].state.IsTerminal());
        } else if senderGone {
          item := Some(Err(Server));
          sub := sub.(done := true);
        }
      }
      if item.Some? {
        sub := sub.(yielded := sub.yielded + [item.value]);
      }
      subs := subs[k := sub];
    }

    /** A receiver that its reader dropped. */
    method DropStream(k: SubId)
      requires Valid() && k in subs
      modifies this`subs
      ensures Valid() && subs == old(subs)[k := old(subs)[k].(open := false)]
    {
      hide Good, Evolves;
      StepKeeps(codec, maxParallel, System(Model(), Serving, false), Unsubscribe(k));
      subs := subs[k := subs[k].(open := false)];
    }

    // -- The whole life ---------------------------------------------------------------

    /** `run_owner`: turns in the order they come, then the stop signal and the shutdown. `run` is
        a run of the state machine from its start, so that every result about runs holds of the
        object; the last two clauses are two of them. */
    method RunOwner(turns: seq<Turn>, queue: seq<Command>) returns (outcome: Result<()>, ghost run: seq<Step>)
      requires Valid() && Model() == INITIAL && Proper(codec, turns, queue)
      modifies this
      ensures Valid()
      ensures exists expired :: Reaches(codec, maxParallel, run, System(Model(), Stopped(outcome), expired))
      ensures jobs == map[]
      ensures forall id :: id in entries ==> entries[id].snapshot.state.IsTerminal() && entries[id].waiters == []
      ensures outcome.Ok? <==> !SomeExpiry(run) && !SomeCrash(run)
    {
      hide Good, Handle, JoinJob, Proper, Unused, Enabled, Next, PollStream;
      run := [];
      AllUnused(codec, turns, queue);
      assert turns[0..] == turns;
      for i := 0 to |turns|
        invariant Valid() && Proper(codec, turns[i..], queue) && Unused(Model(), turns[i..], queue)
        invariant Runs(codec, maxParallel, START, run, System(Model(), Serving, false))
      {
        assert turns[i..][0] == turns[i] && turns[i..][1..] == turns[i + 1..];
        run := ServeTurn(START, run, turns[i..], queue);
      }
      assert turns[|turns|..] == [];
      ghost var before := Model();
      ghost var rest, expired;
      QueueIsNew(Model(), queue);
      outcome, rest, expired := Shutdown(queue);
      RunsConcat(codec, maxParallel, START, run, System(before, Serving, false), rest,
                 System(Model(), Stopped(outcome), expired));
      run := run + rest;
      ShutdownIsComplete(codec, maxParallel, run, System(Model(), Stopped(outcome), expired));
    }

    /** One turn of the loop; the end of a job that is not there is no turn. */
    method ServeTurn(ghost start: System, ghost before: seq<Step>, turns: seq<Turn>, ghost queue: seq<Command>)
      returns (ghost run: seq<Step>)
      requires Valid() && turns != [] && Proper(codec, turns, queue) && Unused(Model(), turns, queue)
      requires Runs(codec, maxParallel, start, before, System(Model(), Serving, false))
      modifies this
      ensures Valid() && Proper(codec, turns[1..], queue) && Unused(Model(), turns[1..], queue)
      ensures Runs(codec, maxParallel, start, run, System(Model(), Serving, false))
    {
      hide Good, Handle, JoinJob, Proper, Unused, Runs, Accepts, AreNew, PollStream;
      ghost var sys := System(Model(), Serving, false);
      TurnsShrink(codec, Model(), turns, queue);
      run := before;
      match turns[0] {
        case CommandTurn(command, ids, closed) =>
          TurnIsNew(codec, Model(), turns, queue);
          StillUnused(codec, maxParallel, Model(), turns, queue);
          run := Extend(codec, maxParallel, start, run, sys, Take(command, ids, closed));
          HandleCommand(command, ids, closed);
        case JoinTurn(result) =>
          if jobs != map[] {
            var job :| job in jobs;
            JoinUsesNothing(codec, Model(), job, result, turns[1..], queue);
            run := Extend(codec, maxParallel, start, run, sys, JoinNext(job, result));
            JoinedJob(job, result, None);
          }
        case ReadTurn(k) =>
          if k in subs && subs[k].open {
            PollUsesNothing(Model(), k, PollStream(subs[k], false), turns[1..], queue);
            run := Extend(codec, maxParallel, start, run, sys, Poll(k));
            var _ := ReadStream(k, false);
          }
        case DropTurn(k) =>
          if k in subs {
            PollUsesNothing(Model(), k, subs[k].(open := false), turns[1..], queue);
            run := Extend(codec, maxParallel, start, run, sys, Unsubscribe(k));
            DropStream(k);
          }
      }
    }

    // -- Shutdown -----------------------------------------------------------------------

    method RejectQueue(queue: seq<Command>)
      requires Valid() && NewReplies(Model(), queue)
      modifies this
      ensures Valid() && Model() == RejectAll(old(Model()), queue)
    {
      hide Good;
      RejectAllKeeps(codec, maxParallel, Model(), queue);
      for i := 0 to |queue|
        invariant RejectAll(Model(), queue[i..]) == RejectAll(old(Model()), queue)
      {
        var command := queue[i];
        assert queue[i..][0] == command && queue[i..][1..] == queue[i + 1..];
        match command {
          case Send(_, _, _) => Respond(command, SnapshotAnswer(Err(Server)));
          case Get(_, _, _) => Respond(command, SnapshotAnswer(Err(Server)));
          case Cancel(_, _, _) => Respond(command, SnapshotAnswer(Err(Server)));
          case Subscribe(_, _, _) => Respond(command, StreamAnswer(Err(Server)));
          case List(_, _, _) => Respond(command, ListAnswer(Err(Server)));
        }
      }
    }

    /** `Owner::cancel_all`. */
    method SignalAll()
      requires Valid()
      modifies this`entries
      ensures Valid() && Model() == old(Model()).(entries := CancelAll(old(entries)))
    {
      hide Good, Signalled, CancelAll;
      CancelAllKeeps(codec, maxParallel, Model());
      var rest := entries.Keys;
      while rest != {}
        invariant rest <= entries.Keys == old(entries).Keys
        invariant forall id :: id in entries ==>
                    entries[id] == if id in rest then old(entries)[id] else Signalled(old(entries)[id])
        decreases |rest|
      {
        var id :| id in rest;
        Signal(id);
        rest := rest - {id};
      }
      AllSignalled(old(entries), entries);
    }

    method Signal(id: string)
      requires id in entries
      modifies this`entries
      ensures entries == old(entries)[id := Signalled(old(entries)[id])]
    {
      if !entries[id].snapshot.state.IsTerminal() {
        entries := entries[id := entries[id].(cancelled := true)];
      }
    }

    /** The end of `run_owner`: the queue is rejected, every job is told to cancel and joined; at
        any point the deadline may expire, after which the jobs are aborted and joined. `run` is
        the run of the state machine that this was. */
    method Shutdown(queue: seq<Command>) returns (outcome: Result<()>, ghost run: seq<Step>, ghost expired: bool)
      requires Valid() && NewReplies(Model(), queue)
      modifies this
      ensures Valid()
      ensures Runs(codec, maxParallel, System(old(Model()), Serving, false), run,
                   System(Model(), Stopped(outcome), expired))
    {
      hide Good, JoinJob, RejectAll, CancelAll, NewReplies, Handle, Finish;
      ghost var start := System(Model(), Serving, false);
      RejectQueue(queue);
      SignalAll();
      RunsOne(codec, maxParallel, start, Stop(queue));
      var timedOut;
      timedOut, run := DrainJobs(start, [Stop(queue)]);
      expired := timedOut;
      if timedOut {
        run := AbortJobs(start, run);
        outcome := Err(Deadline);
      } else {
        run := Extend(codec, maxParallel, start, run, System(Model(), Draining, false), DrainEnds);
        outcome := if failure.Some? then Err(failure.value) else Ok(());
      }
    }

    /** Joining every job, until the deadline expires. */
    method DrainJobs(ghost start: System, ghost before: seq<Step>) returns (timedOut: bool, ghost run: seq<Step>)
      requires Valid() && Runs(codec, maxParallel, start, before, System(Model(), Draining, false))
      modifies this
      ensures Valid() && (!timedOut ==> jobs == map[])
      ensures Runs(codec, maxParallel, start, run, System(Model(), if timedOut then Aborting else Draining, timedOut))
    {
      hide Good, JoinJob, Handle, Finish;
      timedOut, run := false, before;
      while jobs != map[] && !timedOut
        invariant Valid()
        invariant Runs(codec, maxParallel, start, run, System(Model(), if timedOut then Aborting else Draining, timedOut))
        decreases |jobs|, !timedOut
      {
        var expires: bool := *;
        if expires {
          timedOut := true;
          run := Extend(codec, maxParallel, start, run, System(Model(), Draining, false), Expire);
        } else {
          var job :| job in jobs;
          var result: Joined := *;
          run := Extend(codec, maxParallel, start, run, System(Model(), Draining, false), JoinNext(job, result));
          FewerJobs(jobs, job);
          JoinedJob(job, result, None);
        }
      }
    }

    /** After the deadline every job is aborted and joined, and what is left unfinished is failed. */
    method AbortJobs(ghost start: System, ghost before: seq<Step>) returns (ghost run: seq<Step>)
      requires Valid() && Runs(codec, maxParallel, start, before, System(Model(), Aborting, true))
      modifies this
      ensures Valid()
      ensures Runs(codec, maxParallel, start, run, System(Model(), Stopped(Err(Deadline)), true))
    {
      hide Good, JoinJob, Handle, Finish;
      run := before;
      while jobs != map[]
        invariant Valid()
        invariant Runs(codec, maxParallel, start, run, System(Model(), Aborting, true))
        decreases |jobs|
      {
        var job :| job in jobs;
        var result: Joined := *;
        run := Extend(codec, maxParallel, start, run, System(Model(), Aborting, true), JoinNext(job, result));
        FewerJobs(jobs, job);
        JoinedJob(job, result, Some(Deadline));
      }
      run := Extend(codec, maxParallel, start, run, System(Model(), Aborting, true), DrainEnds);
      var order := SortKeys(entries.Keys);
      AscendingUnique(order, Sorted(entries.Keys));
      FinishRemaining(order);
    }

    /** The loop over the tasks a deadline left unfinished. It is dead: once every job has been
        joined no task is unfinished, so that it changes nothing. */
    method FinishRemaining(order: seq<string>)
      requires Valid() && jobs == map[]
      modifies this
      ensures Valid() && Model() == old(Model()) == FinishPending(codec, old(Model()), order)
      ensures forall id :: id in entries ==> entries[id].snapshot.state.IsTerminal()
    {
      hide Good, Finish;
      for i := 0 to |order|
        invariant FinishPending(codec, Model(), order[i..]) == FinishPending(codec, old(Model()), order)
      {
        assert order[i..][0] == order[i] && order[i..][1..] == order[i + 1..];
        FinishTask(order[i], Err(Deadline));
      }
      GoodMeansJobs(codec, maxParallel, old(Model()));
      NoJobsAllEnded(old(Model()));
      FinishPendingIsIdle(codec, old(Model()), order);
    }
  }

  // -- Facts the methods use --------------------------------------------------------------

  lemma FinishKeepsJobs(codec: Codec, s: State, id: string, result: Result<Execution>)
    ensures Finish(codec, s, id, result).jobs == s.jobs
  {
    hide FinishedSnapshot, Publish, AnswerAll;
  }

  lemma OneTaskPerKey(codec: Codec, maxParallel: nat, s: State, subject: string, key: string)
    requires Good(codec, maxParallel, s)
    ensures forall a, b :: a in s.entries && b in s.entries && a != b && SameKey(s.entries[a], subject, key) ==>
                           !SameKey(s.entries[b], subject, key)
  {
    hide GoodEntries, GoodReplies, GoodSubs, GoodJobs, GoodStarts;
  }

  /** A task that is just being stored has no receiver. */
  lemma NoReceiversYet(codec: Codec, maxParallel: nat, s: State, id: string, snapshot: TaskSnapshot)
    requires Good(codec, maxParallel, s) && id !in s.entries
    ensures Publish(s.subs, id, snapshot) == s.subs
  {
    hide GoodTasks, GoodReplies, Trace;
    assert forall k :: k in s.subs ==> GoodSub(s.entries, s.subs[k]);
  }

  lemma AllSignalled(before: map<string, Entry>, after: map<string, Entry>)
    requires after.Keys == before.Keys && forall id :: id in before ==> after[id] == Signalled(before[id])
    ensures after == CancelAll(before)
  {
    hide Signalled;
  }

  lemma FewerJobs(jobs: map<JobId, string>, job: JobId)
    requires job in jobs
    ensures |jobs - {job}| < |jobs|
  {
    assert (jobs - {job}).Keys == jobs.Keys - {job};
  }

  lemma RunsOne(codec: Codec, maxParallel: nat, sys: System, step: Step)
    requires Enabled(codec, sys, step)
    ensures Runs(codec, maxParallel, sys, [step], Next(codec, maxParallel, sys, step))
  {
    assert [step][1..] == [];
    assert Runs(codec, maxParallel, Next(codec, maxParallel, sys, step), [], Next(codec, maxParallel, sys, step));
  }

  /** A run extended by one more step. */
  lemma {:induction false} Extend(codec: Codec, maxParallel: nat, sys: System, run: seq<Step>, last: System, step: Step)
    returns (longer: seq<Step>)
    requires Runs(codec, maxParallel, sys, run, last) && Enabled(codec, last, step)
    ensures longer == run + [step]
    ensures Runs(codec, maxParallel, sys, longer, Next(codec, maxParallel, last, step))
    decreases |run|
  {
    hide Enabled, Next;
    longer := run + [step];
    if run == [] {
      RunsOne(codec, maxParallel, sys, step);
    } else {
      var rest := Extend(codec, maxParallel, Next(codec, maxParallel, sys, run[0]), run[1..], last, step);
      assert longer[1..] == rest && longer[0] == run[0];
    }
  }

  lemma {:induction false} RunsConcat(codec: Codec, maxParallel: nat, sys: System, a: seq<Step>, mid: System, b: seq<Step>,
                                      last: System)
    requires Runs(codec, maxParallel, sys, a, mid) && Runs(codec, maxParallel, mid, b, last)
    ensures Runs(codec, maxParallel, sys, a + b, last)
    decreases |a|
  {
    hide Enabled, Next;
    if a == [] {
      assert a + b == b;
    } else {
      assert (a + b)[0] == a[0] && (a + b)[1..] == a[1..] + b;
      RunsConcat(codec, maxParallel, Next(codec, maxParallel, sys, a[0]), a[1..], mid, b, last);
    }
  }

  // -- Channels and ids still to come ---------------------------------------------------------

  lemma AllUnused(codec: Codec, turns: seq<Turn>, queue: seq<Command>)
    requires Proper(codec, turns, queue)
    ensures Unused(INITIAL, turns, queue)
  {
  }

  lemma QueueIsNew(s: State, queue: seq<Command>)
    requires Unused(s, [], queue)
    ensures NewReplies(s, queue)
  {
  }

  lemma TurnIsNew(codec: Codec, s: State, turns: seq<Turn>, queue: seq<Command>)
    requires turns != [] && turns[0].CommandTurn? && Proper(codec, turns, queue) && Unused(s, turns, queue)
    ensures Accepts(codec, turns[0].command) && turns[0].command.reply !in s.taken && AreNew(s, turns[0].ids)
  {
    hide Accepts, AreNew;
  }

  lemma TurnsShrink(codec: Codec, s: State, turns: seq<Turn>, queue: seq<Command>)
    requires turns != [] && Proper(codec, turns, queue) && Unused(s, turns, queue)
    ensures Proper(codec, turns[1..], queue) && Unused(s, turns[1..], queue)
  {
    hide Accepts, AreNew, NewReplies, Apart;
    assert forall t :: t in turns[1..] ==> t in turns;
  }

  /** What one command can use up: its own channel and the ids made for it. */
  ghost predicate Uses(s: State, t: State, command: Command, ids: NewIds)
  {
    && t.taken <= s.taken + {command.reply}
    && t.entries.Keys <= s.entries.Keys + {ids.task}
    && t.jobs.Keys <= s.jobs.Keys + {ids.job} && t.jobIds.Keys <= s.jobIds.Keys + {ids.job}
    && t.subs.Keys <= s.subs.Keys + {ids.sub}
  }

  lemma SendUses(maxParallel: nat, s: State, command: Command, ids: NewIds)
    requires command.Send?
    ensures Uses(s, HandleSend(maxParallel, s, command, ids), command, ids)
  {
    hide SendAnswer, InputIdentity;
  }

  lemma CancelUses(s: State, command: Command, closed: set<ReplyId>, ids: NewIds)
    requires command.Cancel?
    ensures Uses(s, HandleCancel(s, command, closed), command, ids)
  {
    hide Prune, Park, AnswerNow, Uses;
    var id := command.id;
    AnswerUses(s, command, SnapshotAnswer(Err(NotFound)), ids);
    AnswerUses(s, command, SnapshotAnswer(Err(Unsupported)), ids);
    if id in s.entries {
      AnswerUses(s, command, SnapshotAnswer(Ok(s.entries[id].snapshot)), ids);
      PruneUses(s, command, closed, ids);
    }
  }

  lemma PruneUses(s: State, command: Command, closed: set<ReplyId>, ids: NewIds)
    requires command.Cancel? && command.id in s.entries
    ensures var pruned := Prune(s, command.id, closed);
            && command.id in pruned.entries
            && Uses(s, AnswerNow(pruned, command, SnapshotAnswer(Err(Busy))), command, ids)
            && Uses(s, Park(pruned, command), command, ids)
  {
    hide Listening;
  }

  lemma SubscribeUses(s: State, command: Command, ids: NewIds)
    requires command.Subscribe?
    ensures Uses(s, HandleSubscribe(s, command, ids), command, ids)
  {
    hide Receivers;
  }

  lemma AnswerUses(s: State, command: Command, answer: Answer, ids: NewIds)
    ensures Uses(s, AnswerNow(s, command, answer), command, ids)
  {
  }

  lemma HandleUses(codec: Codec, maxParallel: nat, s: State, command: Command, ids: NewIds, closed: set<ReplyId>)
    ensures Uses(s, Handle(codec, maxParallel, s, command, ids, closed), command, ids)
  {
    hide Uses, HandleSend, HandleCancel, HandleSubscribe, AnswerNow, Listing, Views, Rows;
    match command
    case Send(_, _, _) => SendUses(maxParallel, s, command, ids);
    case Get(subject, id, _) => AnswerUses(s, command, SnapshotAnswer(OwnedSnapshot(s, subject, id)), ids);
    case Cancel(_, _, _) => CancelUses(s, command, closed, ids);
    case Subscribe(_, _, _) => SubscribeUses(s, command, ids);
    case List(subject, listing, _) =>
      AnswerUses(s, command, ListAnswer(Listing(codec, Views(Rows(s.entries), subject, listing), listing)), ids);
  }

  lemma StillUnused(codec: Codec, maxParallel: nat, s: State, turns: seq<Turn>, queue: seq<Command>)
    requires turns != [] && turns[0].CommandTurn? && Proper(codec, turns, queue) && Unused(s, turns, queue)
    ensures var turn := turns[0];
            Unused(Handle(codec, maxParallel, s, turn.command, turn.ids, turn.closed), turns[1..], queue)
  {
    hide Handle, Accepts;
    var turn := turns[0];
    HandleUses(codec, maxParallel, s, turn.command, turn.ids, turn.closed);
    assert forall i :: 0 < i < |turns| && turns[i].CommandTurn? ==> Apart(turn, turns[i]);
  }

  lemma JoinUsesNothing(codec: Codec, s: State, job: JobId, result: Joined, turns: seq<Turn>, queue: seq<Command>)
    requires job in s.jobs && Unused(s, turns, queue)
    ensures Unused(JoinJob(codec, s, job, result, None), turns, queue)
  {
    hide FinishedSnapshot, AnswerAll, Deliver;
  }

  lemma PollUsesNothing(s: State, k: SubId, sub: Subscription, turns: seq<Turn>, queue: seq<Command>)
    requires k in s.subs && Unused(s, turns, queue)
    ensures Unused(s.(subs := s.subs[k := sub]), turns, queue)
  {
  }
}
