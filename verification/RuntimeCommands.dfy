/**
 What each command and the stop signal do to the task runtime, told by their effects
 (crates/vibemux_a2a/src/task_runtime.rs, `handle_command`, `reject_command` and `cancel_all`).
 */
module RuntimeCommands {
  import opened Canonical
  import opened Contract
  import opened Options
  import opened Pagination
  import opened Runtime
  import opened RuntimeRuns
  import opened RuntimeResults
  import opened Selections
  import opened Text

  /** Nothing changes but that the command has been taken and answered. */
  ghost predicate OnlyAnswers(s: State, t: State, command: Command, answer: Answer)
  {
    t == s.(replies := s.replies + [Reply(command.reply, answer)],
            taken := s.taken + {command.reply},
            cancels := if command.Cancel? then s.cancels + {command.reply} else s.cancels)
  }

  // -- Send -------------------------------------------------------------------------------------

  /** A send that is admitted: exactly one execution starts, for this subject, key and new id; the
      caller is answered the submitted snapshot, and the task is stored as working. */
  ghost predicate Starts(s: State, t: State, command: Command, ids: NewIds)
    requires command.Send?
  {
    var request := command.request;
    && t.started == s.started + [Start(command.subject, request.key, ids.task)]
    && t.jobs == s.jobs[ids.job := ids.task] && t.jobIds == s.jobIds[ids.job := ids.task]
    && t.replies == s.replies + [Reply(command.reply, SnapshotAnswer(Ok(
         TaskSnapshot(ids.task, request.contextId, Submitted, [], None))))]
    && t.taken == s.taken + {command.reply}
    && ids.task in t.entries
    && t.entries == s.entries[ids.task := t.entries[ids.task]]
    && (var entry := t.entries[ids.task];
        && entry.subject == command.subject && entry.key == request.key
        && Accepted(entry.input) == InputIdentity(request.contextId, request.continues, request.payload)
        && entry.snapshot == TaskSnapshot(ids.task, request.contextId, Working, [], None)
        && !entry.cancelled && entry.waiters == [])
    && t.subs == s.subs && t.failure == s.failure && t.crashed == s.crashed && t.dropped == s.dropped
    && t.cancels == s.cancels
  }

  lemma IdentityIsExact(request: TaskRequest)
    ensures InputIdentity(request.contextId, request.continues, request.payload).Accepted? <==> Exact(request.payload)
  {
    NormaliseSound(request.payload);
  }

  /** Which sends are admitted. In every reachable serving state, a send whose subject and key are
      not stored starts an execution if and only if every integral number of its payload is exact,
      it continues no task, fewer than 64 tasks are stored and fewer than `maxParallel` jobs are
      live. Otherwise nothing but the answer changes: an invalid request for an inexact payload,
      then unsupported for a continuation, then busy. */
  lemma SendIsDecided(codec: Codec, maxParallel: nat, run: seq<Step>, sys: System, command: Command, ids: NewIds,
                      closed: set<ReplyId>)
    requires Reaches(codec, maxParallel, run, sys) && Enabled(codec, sys, Take(command, ids, closed))
    requires command.Send?
    requires forall id :: id in sys.owner.entries ==>
               sys.owner.entries[id].subject != command.subject || sys.owner.entries[id].key != command.request.key
    ensures var s, t := sys.owner, Next(codec, maxParallel, sys, Take(command, ids, closed)).owner;
            var exact, isNew := Exact(command.request.payload), command.request.continues.NewTask?;
            var room := |s.entries| < 64 && |s.jobs| < maxParallel;
            && (exact && isNew && room ==> Starts(s, t, command, ids))
            && (!exact ==> OnlyAnswers(s, t, command, SnapshotAnswer(Err(InvalidRequest))))
            && (exact && !isNew ==> OnlyAnswers(s, t, command, SnapshotAnswer(Err(Unsupported))))
            && (exact && isNew && !room ==> OnlyAnswers(s, t, command, SnapshotAnswer(Err(Busy))))
            && (t.started != s.started <==> exact && isNew && room)
  {
    hide InputIdentity, Exact, Reaches, Accepts, AreNew;
    IdentityIsExact(command.request);
  }

  // -- Get, cancel and subscribe ------------------------------------------------------------------

  /** The caller owns a stored task of that id. */
  predicate Owns(s: State, subject: string, id: string)
  {
    id in s.entries && s.entries[id].subject == subject
  }

  /** A caller reads exactly its own tasks, as they are stored. */
  lemma GetIsDecided(codec: Codec, maxParallel: nat, s: State, command: Command, ids: NewIds, closed: set<ReplyId>)
    requires command.Get?
    ensures OnlyAnswers(s, Handle(codec, maxParallel, s, command, ids, closed), command, SnapshotAnswer(
              if Owns(s, command.subject, command.id) then Ok(s.entries[command.id].snapshot) else Err(NotFound)))
  {
  }

  /** The waiters of a task whose callers still listen, in order. */
  ghost predicate StillListening(before: seq<ReplyId>, closed: set<ReplyId>, kept: seq<ReplyId>)
  {
    exists picked: seq<nat> ::
      Selects(picked, set n: nat | n < |before| && before[n] !in closed) && PicksOut(before, picked, kept)
  }

  lemma {:induction false} ListeningIs(before: seq<ReplyId>, closed: set<ReplyId>) returns (picked: seq<nat>)
    ensures Selects(picked, set n: nat | n < |before| && before[n] !in closed)
    ensures PicksOut(before, picked, Listening(before, closed))
  {
    hide Selects;
    var chosen := set n: nat | n < |before| && before[n] !in closed;
    if before == [] {
      SelectsNothing();
      assert chosen == {};
      picked := [];
    } else {
      var last := |before| - 1;
      var front := before[..last];
      var earlier := ListeningIs(front, closed);
      var chosenEarlier := set n: nat | n < |front| && front[n] !in closed;
      if before[last] in closed {
        assert chosen == chosenEarlier;
        picked := earlier;
      } else {
        SelectsOneMore(earlier, chosenEarlier, last);
        assert chosen == chosenEarlier + {last};
        picked := earlier + [last];
      }
    }
  }

  /** Which cancels wait. A caller cancels only its own task. A task already canceled is answered as
      it is, one that ended otherwise is refused. For an unfinished one, the waiters whose callers
      have gone are dropped first; the cancel is refused at eight, and otherwise the task is told
      to cancel and the caller waits behind the others. */
  lemma CancelIsDecided(codec: Codec, maxParallel: nat, s: State, command: Command, ids: NewIds, closed: set<ReplyId>)
    requires command.Cancel?
    ensures var id, t := command.id, Handle(codec, maxParallel, s, command, ids, closed);
            if !Owns(s, command.subject, id) then OnlyAnswers(s, t, command, SnapshotAnswer(Err(NotFound)))
            else if s.entries[id].snapshot.state == Canceled
            then OnlyAnswers(s, t, command, SnapshotAnswer(Ok(s.entries[id].snapshot)))
            else if s.entries[id].snapshot.state in {Completed, Failed, Rejected}
            then OnlyAnswers(s, t, command, SnapshotAnswer(Err(Unsupported)))
            else exists kept :: StillListening(s.entries[id].waiters, closed, kept)
                                && Waits(s, t, command, closed, kept)
  {
    hide Listening;
    var id := command.id;
    if id in s.entries {
      var waiters := s.entries[id].waiters;
      var picked := ListeningIs(waiters, closed);
      var kept := Listening(waiters, closed);
      assert StillListening(waiters, closed, kept);
      if Owns(s, command.subject, id) && !s.entries[id].snapshot.state.IsTerminal() {
        assert Waits(s, Handle(codec, maxParallel, s, command, ids, closed), command, closed, kept);
      }
    }
  }

  ghost predicate Waits(s: State, t: State, command: Command, closed: set<ReplyId>, kept: seq<ReplyId>)
    requires command.Cancel? && command.id in s.entries
  {
    var entry := s.entries[command.id];
    var waits := |kept| < 8;
    && t.entries == s.entries[command.id := entry.(
         cancelled := entry.cancelled || waits,
         waiters := if waits then kept + [command.reply] else kept)]
    && t.replies == s.replies + (if waits then [] else [Reply(command.reply, SnapshotAnswer(Err(Busy)))])
    && t.dropped == s.dropped + (set w | w in entry.waiters && w in closed)
    && t.taken == s.taken + {command.reply} && t.cancels == s.cancels + {command.reply}
    && t.jobs == s.jobs && t.jobIds == s.jobIds && t.subs == s.subs && t.started == s.started
    && t.failure == s.failure && t.crashed == s.crashed
  }

  /** A caller follows only its own task, up to 32 receivers of it, from its current snapshot on. */
  lemma SubscribeIsDecided(codec: Codec, maxParallel: nat, s: State, command: Command, ids: NewIds, closed: set<ReplyId>)
    requires command.Subscribe?
    ensures var id, t := command.id, Handle(codec, maxParallel, s, command, ids, closed);
            if !Owns(s, command.subject, id) then OnlyAnswers(s, t, command, StreamAnswer(Err(NotFound)))
            else if |OpenReceivers(s, id)| >= 32
            then OnlyAnswers(s, t, command, StreamAnswer(Err(Busy)))
            else && OnlyAnswers(s, t.(subs := s.subs), command, StreamAnswer(Ok(ids.sub)))
                 && t.subs == s.subs[ids.sub := Subscription(id, Some(s.entries[id].snapshot), [], false, false, true, [])]
  {
    assert OpenReceivers(s, command.id) == Receivers(s.subs, command.id);
  }

  ghost function OpenReceivers(s: State, id: string): set<SubId>
  {
    set k | k in s.subs && s.subs[k].task == id && s.subs[k].open
  }

  // -- List -----------------------------------------------------------------------------------------

  /** The caller's stored tasks in the context and the state that were asked for. */
  ghost function Own(s: State, subject: string, request: TaskListRequest): set<string>
  {
    set id | && id in s.entries && s.entries[id].subject == subject
             && (request.contextId == None || request.contextId == Some(s.entries[id].snapshot.contextId))
             && (request.state == None || request.state == Some(s.entries[id].snapshot.state))
  }

  /** Exactly those tasks, each once, in the order of their ids, as they are stored; without their
      artifacts unless they were asked for. */
  ghost predicate AreOwn(s: State, subject: string, request: TaskListRequest, tasks: seq<TaskSnapshot>)
  {
    && (forall i :: 0 <= i < |tasks| ==>
          tasks[i].taskId in Own(s, subject, request) && Shows(s.entries[tasks[i].taskId].snapshot, request, tasks[i]))
    && (forall id :: id in Own(s, subject, request) ==> exists i :: 0 <= i < |tasks| && tasks[i].taskId == id)
    && (forall i, j :: 0 <= i < j < |tasks| ==>
          tasks[i].taskId != tasks[j].taskId && Below(tasks[i].taskId, tasks[j].taskId))
  }

  /** Whose tasks a caller is listed. In every reachable state, what a listing is cut from are the
      caller's own tasks that pass the filters, and nothing but the answer changes. */
  lemma ListIsDecided(codec: Codec, maxParallel: nat, run: seq<Step>, sys: System, command: Command, ids: NewIds,
                      closed: set<ReplyId>)
    returns (tasks: seq<TaskSnapshot>)
    requires Reaches(codec, maxParallel, run, sys) && command.List?
    ensures Lists(Rows(sys.owner.entries), command.subject, command.listing, tasks)
    ensures AreOwn(sys.owner, command.subject, command.listing, tasks)
    ensures OnlyAnswers(sys.owner, Handle(codec, maxParallel, sys.owner, command, ids, closed), command,
                        ListAnswer(Listing(codec, tasks, command.listing)))
  {
    hide Lists, AreOwn, Listing, Views, Rows, Reaches;
    tasks := Views(Rows(sys.owner.entries), command.subject, command.listing);
    ListedIsViews(Rows(sys.owner.entries), command.subject, command.listing, tasks);
    ListedAreOwn(codec, maxParallel, run, sys, command.subject, command.listing, tasks);
  }

  lemma ListedAreOwn(codec: Codec, maxParallel: nat, run: seq<Step>, sys: System, subject: string,
                     request: TaskListRequest, tasks: seq<TaskSnapshot>)
    requires Reaches(codec, maxParallel, run, sys)
    requires Lists(Rows(sys.owner.entries), subject, request, tasks)
    ensures AreOwn(sys.owner, subject, request, tasks)
  {
    hide Reaches, Shows, Selects;
    var s := sys.owner;
    var order, rows := Text.Sorted(s.entries.Keys), Rows(s.entries);
    var picked: seq<nat> :| Selects(picked, Chosen(rows, subject, request)) && ShowsAll(rows, request, picked, tasks);
    forall i | 0 <= i < |tasks|
      ensures picked[i] < |order| && tasks[i].taskId == order[picked[i]] && order[picked[i]] in Own(s, subject, request)
      ensures order[picked[i]] in s.entries
      ensures Shows(s.entries[order[picked[i]]].snapshot, request, tasks[i])
    {
      PickedIsChosen(picked, Chosen(rows, subject, request), i);
      RowIs(codec, maxParallel, run, sys, picked[i]);
      ShowsId(s.entries[order[picked[i]]].snapshot, request, tasks[i]);
    }
    forall id | id in Own(s, subject, request)
      ensures exists i :: 0 <= i < |tasks| && tasks[i].taskId == id
    {
      var n :| 0 <= n < |order| && order[n] == id;
      assert n in Chosen(rows, subject, request);
      var i := ChosenIsPicked(picked, Chosen(rows, subject, request), n);
      assert tasks[i].taskId == id;
    }
    forall i, j | 0 <= i < j < |tasks|
      ensures tasks[i].taskId != tasks[j].taskId && Below(tasks[i].taskId, tasks[j].taskId)
    {
      PickedInOrder(picked, Chosen(rows, subject, request), i, j);
    }
  }

  lemma RowIs(codec: Codec, maxParallel: nat, run: seq<Step>, sys: System, n: nat)
    requires Reaches(codec, maxParallel, run, sys) && n < |Rows(sys.owner.entries)|
    ensures var order := Text.Sorted(sys.owner.entries.Keys);
            && |order| == |Rows(sys.owner.entries)| && order[n] in sys.owner.entries
            && Rows(sys.owner.entries)[n] == Row(sys.owner.entries[order[n]].subject, sys.owner.entries[order[n]].snapshot)
            && sys.owner.entries[order[n]].snapshot.taskId == order[n]
  {
    hide Reaches;
    var order := Text.Sorted(sys.owner.entries.Keys);
    assert order[n] in order;
    StoredSnapshotsAreWellFormed(codec, maxParallel, run, sys, order[n]);
  }

  lemma ShowsId(stored: TaskSnapshot, request: TaskListRequest, listed: TaskSnapshot)
    requires Shows(stored, request, listed)
    ensures listed.taskId == stored.taskId
  {
  }

  lemma PickedIsChosen(picked: seq<nat>, chosen: set<nat>, i: nat)
    requires Selects(picked, chosen) && i < |picked|
    ensures picked[i] in chosen
  {
    assert picked[i] in picked;
  }

  lemma ChosenIsPicked(picked: seq<nat>, chosen: set<nat>, n: nat) returns (i: nat)
    requires Selects(picked, chosen) && n in chosen
    ensures i < |picked| && picked[i] == n
  {
    assert n in picked;
    i :| i < |picked| && picked[i] == n;
  }

  lemma PickedInOrder(picked: seq<nat>, chosen: set<nat>, i: nat, j: nat)
    requires Selects(picked, chosen) && i < j < |picked|
    ensures picked[i] < picked[j]
  {
  }

  /** Which tasks a caller visits by sending every token back, while the stored tasks stay as they
      are: exactly its own ones that pass the filters; or it is told Busy at one of them that fits
      no page, after exactly those before it. */
  lemma WalkVisitsOwn(codec: Codec, maxParallel: nat, run: seq<Step>, sys: System, subject: string,
                      request: TaskListRequest, tasks: seq<TaskSnapshot>)
    requires Reaches(codec, maxParallel, run, sys) && ValidListRequest(request) && request.pageToken.None?
    requires Lists(Rows(sys.owner.entries), subject, request, tasks)
    ensures |tasks| <= MAX_I32
    ensures var walk := Follow(codec, tasks, request);
            && AreOwn(sys.owner, subject, request, tasks)
            && (walk.Complete? ==> walk.seen == tasks)
            && (walk.Halted? ==>
                  && walk.error == Busy && |walk.seen| < |tasks| && walk.seen == tasks[..|walk.seen|]
                  && !FitsAlone(codec, tasks, |walk.seen|))
  {
    hide Reaches, Lists, AreOwn, Follow, FitsAlone;
    ListedAreOwn(codec, maxParallel, run, sys, subject, request, tasks);
    StoredAreListable(codec, maxParallel, run, sys);
    WalkEnds(codec, Rows(sys.owner.entries), subject, request, tasks);
  }

  lemma StoredAreListable(codec: Codec, maxParallel: nat, run: seq<Step>, sys: System)
    requires Reaches(codec, maxParallel, run, sys)
    ensures Listable(codec, Rows(sys.owner.entries))
  {
    hide Reaches, Good, GoodSystem;
    ReachedIsGood(codec, maxParallel, run, sys);
    GoodMeansOwner(codec, maxParallel, sys);
    RowsAreListable(codec, maxParallel, sys.owner);
  }

  // -- Stop -----------------------------------------------------------------------------------------

  /** The refusal of a queued command, on its own kind of channel. */
  predicate IsRejection(command: Command, answer: Answer)
  {
    match command
    case Subscribe(_, _, _) => answer == StreamAnswer(Err(Server))
    case List(_, _, _) => answer == ListAnswer(Err(Server))
    case _ => answer == SnapshotAnswer(Err(Server))
  }

  /** The queue is rejected, one answer a command and in order, and nothing else has changed. */
  ghost predicate TurnedAway(s: State, t: State, queue: seq<Command>)
  {
    && |t.replies| == |s.replies| + |queue| && s.replies <= t.replies
    && (forall i :: 0 <= i < |queue| ==>
          t.replies[|s.replies| + i].to == queue[i].reply && IsRejection(queue[i], t.replies[|s.replies| + i].answer))
    && t == s.(replies := t.replies, taken := t.taken, cancels := t.cancels)
  }

  lemma {:induction false} QueueIsRejected(s: State, queue: seq<Command>)
    ensures TurnedAway(s, RejectAll(s, queue), queue)
    decreases |queue|
  {
    if queue != [] {
      var mid := Reject(s, queue[0]);
      var t := RejectAll(s, queue);
      QueueIsRejected(mid, queue[1..]);
      forall i | 0 <= i < |queue|
        ensures t.replies[|s.replies| + i].to == queue[i].reply
        ensures IsRejection(queue[i], t.replies[|s.replies| + i].answer)
      {
        if i == 0 {
          assert t.replies[|s.replies|] == mid.replies[|s.replies|];
        } else {
          assert queue[1..][i - 1] == queue[i];
          assert t.replies[|mid.replies| + (i - 1)] == t.replies[|s.replies| + i];
        }
      }
    }
  }

  /** What the stop signal reaches: every queued command is rejected, every unfinished task is told
      to cancel, and nothing about a task that has ended changes. */
  lemma StopReachesAll(codec: Codec, maxParallel: nat, sys: System, queue: seq<Command>)
    requires Enabled(codec, sys, Stop(queue))
    ensures var next := Next(codec, maxParallel, sys, Stop(queue));
            var s, t := sys.owner, next.owner;
            && next.phase == Draining && t.entries.Keys == s.entries.Keys
            && (forall id :: id in s.entries ==>
                  t.entries[id] == if s.entries[id].snapshot.state in {Completed, Failed, Canceled, Rejected}
                                   then s.entries[id] else s.entries[id].(cancelled := true))
            && TurnedAway(s, t.(entries := s.entries), queue)
  {
    hide NewReplies, RejectAll;
    QueueIsRejected(sys.owner, queue);
  }

  /** What the runtime reports when it has stopped: the deadline if it expired, else the first
      failure, else success. */
  lemma StopReports(codec: Codec, maxParallel: nat, sys: System)
    requires Enabled(codec, sys, DrainEnds)
    ensures var next := Next(codec, maxParallel, sys, DrainEnds);
            next.phase == Stopped(if sys.phase.Aborting? then Err(Deadline)
                                  else if sys.owner.failure.Some? then Err(sys.owner.failure.value) else Ok(()))
  {
    hide FinishPending;
  }
}
