/**
 What every turn of the task runtime keeps
 (crates/vibemux_a2a/src/task_runtime.rs).
 */
module RuntimeInvariant {
  import opened Contract
  import opened Options
  import opened Runtime

  // -- Stored snapshots ---------------------------------------------------------------

  predicate Ended(e: Entry) { e.snapshot.state.IsTerminal() }

  /** A stored snapshot is valid, carries artifacts only if completed and an error code exactly
      if failed, and is never seen as submitted. */
  ghost predicate GoodSnapshot(codec: Codec, s: TaskSnapshot)
  {
    && ValidSnapshot(codec, s)
    && (s.state.Working? || s.state.Completed? || s.state.Failed? || s.state.Canceled?)
    && (s.artifacts != [] ==> s.state.Completed?)
    && (s.errorCode.Some? <==> s.state.Failed?)
  }

  ghost predicate GoodEntry(codec: Codec, id: string, e: Entry)
  {
    && e.snapshot.taskId == id
    && GoodSnapshot(codec, e.snapshot)
    && |e.waiters| <= MAX_CANCEL_WAITERS
    && (e.waiters != [] ==> e.cancelled && !Ended(e))
  }

  ghost predicate GoodEntries(codec: Codec, entries: map<string, Entry>)
  {
    forall id :: id in entries ==> GoodEntry(codec, id, entries[id])
  }

  lemma FinishedIsGood(codec: Codec, s: TaskSnapshot, result: Result<Execution>)
    requires GoodSnapshot(codec, s) && s.state.Working?
    ensures var f := FinishedSnapshot(codec, s, result);
            && GoodSnapshot(codec, f)
            && f.state.IsTerminal()
            && f.taskId == s.taskId && f.contextId == s.contextId
  {
    ErrorCodeIsIdentifier(Protocol);
    var f := FinishedSnapshot(codec, s, result);
    if result.Err? {
      ErrorCodeIsIdentifier(result.error);
    }
    if f.artifacts == [] {
      BareSnapshotIsValid(codec, f);
    }
  }

  /** Finishing a stored task ends it, keeps its identity and leaves it well formed. */
  lemma FinishedEntry(codec: Codec, id: string, e: Entry, result: Result<Execution>)
    requires GoodEntry(codec, id, e) && !Ended(e)
    ensures var f := FinishedSnapshot(codec, e.snapshot, result);
            && GoodEntry(codec, id, e.(snapshot := f, waiters := []))
            && f.state.IsTerminal()
            && WhileWorking(f) == e.snapshot
  {
    FinishedIsGood(codec, e.snapshot, result);
  }

  // -- Jobs ---------------------------------------------------------------------------

  /** The live jobs stand one-to-one for the unfinished tasks, and are all known by id. */
  ghost predicate GoodJobs(entries: map<string, Entry>, jobs: map<JobId, string>, jobIds: map<JobId, string>)
  {
    && jobIds == jobs
    && (forall j :: j in jobs ==> jobs[j] in entries && !Ended(entries[jobs[j]]))
    && (forall j, k :: j in jobs && k in jobs && jobs[j] == jobs[k] ==> j == k)
    && (forall id :: id in entries && !Ended(entries[id]) ==> id in jobs.Values)
  }

  ghost predicate DistinctKeys(entries: map<string, Entry>)
  {
    forall a, b :: a in entries && b in entries && a != b ==>
      !SameKey(entries[a], entries[b].subject, entries[b].key)
  }

  lemma JobsAfterJoin(entries: map<string, Entry>, jobs: map<JobId, string>, job: JobId, e: Entry)
    requires GoodJobs(entries, jobs, jobs) && job in jobs && Ended(e)
    ensures GoodJobs(entries[jobs[job] := e], jobs - {job}, jobs - {job})
  {
    var after := jobs - {job};
    forall id | id in entries && id != jobs[job] && !Ended(entries[id]) ensures id in after.Values {
      var j :| j in jobs && jobs[j] == id;
      assert j in after && after[j] == id;
    }
  }

  lemma JobsAfterAdmit(entries: map<string, Entry>, jobs: map<JobId, string>, id: string, e: Entry, job: JobId)
    requires GoodJobs(entries, jobs, jobs) && id !in entries && job !in jobs && !Ended(e)
    ensures GoodJobs(entries[id := e], jobs[job := id], jobs[job := id])
  {
    var after := jobs[job := id];
    assert after[job] == id;
    forall x | x in entries && !Ended(entries[x]) ensures x in after.Values {
      var j :| j in jobs && jobs[j] == x;
      assert j in after && after[j] == x;
    }
  }

  // -- Replies ------------------------------------------------------------------------

  ghost function Answered(replies: seq<Reply>): set<ReplyId>
  {
    set r | r in replies :: r.to
  }

  ghost function Parked(entries: map<string, Entry>): set<ReplyId>
  {
    set id, w | id in entries && w in entries[id].waiters :: w
  }

  ghost predicate AnsweredOnce(replies: seq<Reply>)
  {
    forall i, j :: 0 <= i < j < |replies| ==> replies[i].to != replies[j].to
  }

  ghost predicate ParkedOnce(entries: map<string, Entry>)
  {
    && (forall id :: id in entries ==> Distinct(entries[id].waiters))
    && (forall a, b, w :: a in entries && b in entries && w in entries[a].waiters && w in entries[b].waiters ==>
          a == b)
  }

  /** A cancellation is answered with an error or with a terminal snapshot. */
  predicate CancelAnswer(answer: Answer)
  {
    answer.SnapshotAnswer? && (answer.snapshot.Ok? ==> answer.snapshot.value.state.IsTerminal())
  }

  /** Every command taken so far has exactly one answer, or waits on exactly one task, or was
      dropped because its caller had gone. Only cancellations wait. */
  ghost predicate GoodReplies(s: State)
  {
    && AnsweredOnce(s.replies)
    && ParkedOnce(s.entries)
    && Answered(s.replies) !! Parked(s.entries)
    && Answered(s.replies) !! s.dropped
    && Parked(s.entries) !! s.dropped
    && s.taken == Answered(s.replies) + Parked(s.entries) + s.dropped
    && Parked(s.entries) + s.dropped <= s.cancels <= s.taken
    && (forall r :: r in s.replies && r.to in s.cancels ==> CancelAnswer(r.answer))
  }

  lemma AnsweredConcat(a: seq<Reply>, b: seq<Reply>)
    ensures Answered(a + b) == Answered(a) + Answered(b)
  {
    forall t | t in Answered(a) + Answered(b) ensures t in Answered(a + b) {
      if t in Answered(a) {
        var r :| r in a && r.to == t;
        assert r in a + b;
      } else {
        var r :| r in b && r.to == t;
        assert r in a + b;
      }
    }
  }

  lemma RepliesAfterAnswer(s: State, command: Command, answer: Answer)
    requires GoodReplies(s) && command.reply !in s.taken
    requires command.Cancel? ==> CancelAnswer(answer)
    ensures GoodReplies(AnswerNow(s, command, answer))
  {
    var r := Reply(command.reply, answer);
    AnsweredConcat(s.replies, [r]);
    assert Answered([r]) == {command.reply} by {
      assert r in [r];
    }
    assert forall i :: 0 <= i < |s.replies| ==> s.replies[i] in s.replies;
  }

  /** Replacing one entry moves exactly its waiters. */
  lemma ParkedAfterUpdate(entries: map<string, Entry>, id: string, e: Entry)
    requires id in entries && ParkedOnce(entries)
    ensures Parked(entries[id := e]) ==
            (Parked(entries) - (set w | w in entries[id].waiters)) + (set w | w in e.waiters)
  {
    var after := entries[id := e];
    forall w | w in Parked(entries) && w !in entries[id].waiters ensures w in Parked(after) {
      var a :| a in entries && w in entries[a].waiters;
      assert a in after && w in after[a].waiters;
    }
    forall w | w in e.waiters ensures w in Parked(after) {
      assert id in after && w in after[id].waiters;
    }
    forall w | w in Parked(after) && w !in e.waiters
      ensures w in Parked(entries) && w !in entries[id].waiters
    {
      var a :| a in after && w in after[a].waiters;
      assert a in entries && w in entries[a].waiters;
    }
  }

  lemma AnswerAllAnswers(waiters: seq<ReplyId>, snapshot: TaskSnapshot)
    ensures Answered(AnswerAll(waiters, snapshot)) == set w | w in waiters
  {
    var replies := AnswerAll(waiters, snapshot);
    forall w | w in waiters ensures w in Answered(replies) {
      var i :| 0 <= i < |waiters| && waiters[i] == w;
      assert replies[i] in replies && replies[i].to == w;
    }
  }

  lemma AnswerAllIsTerminal(waiters: seq<ReplyId>, snapshot: TaskSnapshot, r: Reply)
    requires r in AnswerAll(waiters, snapshot)
    ensures r.answer == SnapshotAnswer(Ok(snapshot))
  {
  }

  lemma RepliesAfterFinish(codec: Codec, s: State, id: string, result: Result<Execution>)
    requires GoodReplies(s) && GoodEntries(codec, s.entries)
    ensures GoodReplies(Finish(codec, s, id, result))
  {
    hide FinishedSnapshot, GoodEntry, AnswerAll, Publish;
    if id in s.entries && !Ended(s.entries[id]) {
      var entry := s.entries[id];
      FinishedEntry(codec, id, entry, result);
      var snapshot := FinishedSnapshot(codec, entry.snapshot, result);
      var after := Finish(codec, s, id, result);
      var sent := AnswerAll(entry.waiters, snapshot);
      ParkedAfterUpdate(s.entries, id, after.entries[id]);
      AnsweredConcat(s.replies, sent);
      AnswerAllAnswers(entry.waiters, snapshot);
      assert forall w :: w in entry.waiters ==> w in Parked(s.entries);
      FinishAnswersOnce(s.replies, entry.waiters, snapshot);
      forall r | r in after.replies && r.to in after.cancels ensures CancelAnswer(r.answer) {
        assert r in s.replies || r in sent;
        if r in sent {
          AnswerAllIsTerminal(entry.waiters, snapshot, r);
        }
      }
    }
  }

  lemma FinishAnswersOnce(replies: seq<Reply>, waiters: seq<ReplyId>, snapshot: TaskSnapshot)
    requires AnsweredOnce(replies) && Distinct(waiters)
    requires forall w :: w in waiters ==> w !in Answered(replies)
    ensures AnsweredOnce(replies + AnswerAll(waiters, snapshot))
  {
    var sent := AnswerAll(waiters, snapshot);
    var all := replies + sent;
    forall i, j | 0 <= i < j < |all| ensures all[i].to != all[j].to {
      if i < |replies| <= j {
        assert replies[i] in replies;
        assert all[j].to == waiters[j - |replies|];
        assert all[j].to in waiters;
      }
    }
  }

  lemma RepliesAfterPrune(s: State, id: string, closed: set<ReplyId>)
    requires GoodReplies(s) && id in s.entries
    ensures GoodReplies(Prune(s, id, closed))
  {
    var after := Prune(s, id, closed);
    ParkedAfterUpdate(s.entries, id, after.entries[id]);
    assert forall w :: w in s.entries[id].waiters ==> w in Parked(s.entries);
  }

  lemma RepliesAfterPark(s: State, command: Command)
    requires GoodReplies(s) && command.Cancel? && command.id in s.entries && command.reply !in s.taken
    ensures GoodReplies(Park(s, command))
  {
    var after := Park(s, command);
    var before, now := s.entries[command.id], after.entries[command.id];
    ParkedAfterUpdate(s.entries, command.id, now);
    assert forall a, w :: a in s.entries && w in s.entries[a].waiters ==> w in Parked(s.entries);
    assert forall w :: w in now.waiters <==> w in before.waiters || w == command.reply;
    assert Distinct(now.waiters) by {
      assert forall i :: 0 <= i < |before.waiters| ==> before.waiters[i] in before.waiters;
    }
    assert forall r :: r in s.replies ==> r.to in Answered(s.replies);
  }

  lemma RepliesAfterEntry(s: State, t: State, id: string, e: Entry)
    requires GoodReplies(s) && id !in s.entries && e.waiters == []
    requires t.entries == s.entries[id := e]
    requires t.replies == s.replies && t.dropped == s.dropped && t.taken == s.taken && t.cancels == s.cancels
    ensures GoodReplies(t)
  {
    assert Parked(t.entries) == Parked(s.entries) by {
      forall w | w in Parked(s.entries) ensures w in Parked(t.entries) {
        var a :| a in s.entries && w in s.entries[a].waiters;
        assert a in t.entries && w in t.entries[a].waiters;
      }
    }
  }

  lemma RepliesAfterCancelAll(s: State)
    requires GoodReplies(s)
    ensures GoodReplies(s.(entries := CancelAll(s.entries)))
  {
    var after := CancelAll(s.entries);
    assert forall id :: id in s.entries ==> after[id].waiters == s.entries[id].waiters;
    forall w | w in Parked(s.entries) ensures w in Parked(after) {
      var a :| a in s.entries && w in s.entries[a].waiters;
      assert a in after && w in after[a].waiters;
    }
    assert Parked(after) == Parked(s.entries);
  }

  // -- Subscriptions -------------------------------------------------------------------

  /** What a subscriber has read and can still read, in order. */
  function Trace(sub: Subscription): seq<Result<TaskSnapshot>>
  {
    sub.yielded + (if sub.initial.Some? then [Ok(sub.initial.value)] else []) +
    seq(|sub.queue|, i requires 0 <= i < |sub.queue| => Ok(sub.queue[i]))
  }

  /** The snapshot a task had while it was worked on. */
  function WhileWorking(s: TaskSnapshot): TaskSnapshot
  {
    TaskSnapshot(s.taskId, s.contextId, Working, [], None)
  }

  predicate EndsTerminal(yielded: seq<Result<TaskSnapshot>>)
  {
    yielded != [] && yielded[|yielded| - 1].Ok? && yielded[|yielded| - 1].value.state.IsTerminal()
  }

  /** An open subscription reads the task's current snapshot, preceded by its working snapshot
      only if it was opened before the task ended. A receiver that was dropped may have missed
      the end. It never lags, and it is done exactly when it read the end. */
  ghost predicate GoodSub(entries: map<string, Entry>, sub: Subscription)
  {
    && sub.task in entries
    && !sub.lagged
    && (sub.initial.Some? ==> sub.yielded == [])
    && (sub.done <==> EndsTerminal(sub.yielded))
    && var now := entries[sub.task].snapshot;
       || Trace(sub) == [Ok(now)]
       || (Trace(sub) == [Ok(WhileWorking(now)), Ok(now)] && now.state.IsTerminal())
       || (Trace(sub) == [Ok(WhileWorking(now))] && !sub.open)
  }

  ghost predicate GoodSubs(entries: map<string, Entry>, subs: map<SubId, Subscription>)
  {
    && (forall k :: k in subs ==> GoodSub(entries, subs[k]))
    && (forall id :: id in entries ==> |Receivers(subs, id)| <= MAX_SUBSCRIPTIONS)
  }

  lemma SubAfterDeliver(entries: map<string, Entry>, sub: Subscription, after: map<string, Entry>)
    requires GoodSub(entries, sub) && sub.open
    requires !Ended(entries[sub.task])
    requires sub.task in after && Ended(after[sub.task])
    requires WhileWorking(after[sub.task].snapshot) == entries[sub.task].snapshot
    ensures GoodSub(after, Deliver(sub, after[sub.task].snapshot))
  {
    var s := after[sub.task].snapshot;
    assert |Trace(sub)| == 1;
    var delivered := Deliver(sub, s);
    assert Trace(delivered) == Trace(sub) + [Ok(s)];
  }

  lemma SubAfterMissed(entries: map<string, Entry>, sub: Subscription, after: map<string, Entry>)
    requires GoodSub(entries, sub) && !sub.open
    requires !Ended(entries[sub.task])
    requires sub.task in after && WhileWorking(after[sub.task].snapshot) == entries[sub.task].snapshot
    ensures GoodSub(after, sub)
  {
  }

  lemma ReceiversAfterPublish(subs: map<SubId, Subscription>, id: string, snapshot: TaskSnapshot, x: string)
    ensures Receivers(Publish(subs, id, snapshot), x) == Receivers(subs, x)
  {
    var after := Publish(subs, id, snapshot);
    assert forall k :: k in subs ==> after[k].task == subs[k].task && after[k].open == subs[k].open;
  }

  lemma SubsAfterFinish(codec: Codec, s: State, id: string, result: Result<Execution>)
    requires GoodEntries(codec, s.entries) && GoodSubs(s.entries, s.subs)
    ensures var t := Finish(codec, s, id, result); GoodSubs(t.entries, t.subs)
  {
    hide FinishedSnapshot, GoodEntry, AnswerAll, Trace, Receivers, Deliver;
    if id in s.entries && !Ended(s.entries[id]) {
      var t := Finish(codec, s, id, result);
      FinishedEntry(codec, id, s.entries[id], result);
      forall k | k in t.subs ensures GoodSub(t.entries, t.subs[k]) {
        if s.subs[k].task == id {
          if s.subs[k].open {
            SubAfterDeliver(s.entries, s.subs[k], t.entries);
          } else {
            SubAfterMissed(s.entries, s.subs[k], t.entries);
          }
        }
      }
      forall x | x in t.entries ensures |Receivers(t.subs, x)| <= MAX_SUBSCRIPTIONS {
        ReceiversAfterPublish(s.subs, id, t.entries[id].snapshot, x);
      }
    }
  }

  lemma SubAfterPoll(entries: map<string, Entry>, sub: Subscription, senderGone: bool)
    requires GoodSub(entries, sub) && sub.open
    requires senderGone ==> Ended(entries[sub.task])
    ensures GoodSub(entries, PollStream(sub, senderGone))
    ensures Trace(PollStream(sub, senderGone)) == Trace(sub)
  {
    var now := entries[sub.task].snapshot;
    var after := PollStream(sub, senderGone);
    if sub.done {
    } else if sub.initial.Some? {
      assert Trace(after) == Trace(sub);
      assert Trace(sub)[0] == Ok(sub.initial.value);
    } else if sub.queue != [] {
      assert Trace(after) == Trace(sub);
      assert Trace(sub)[|sub.yielded|] == Ok(sub.queue[0]);
    } else {
      assert Trace(sub) == sub.yielded;
    }
  }
}
