/**
 Runs and their event log (src/vibemux: `RunService.spawn`, `send` and `stop` and
 `ReconciliationService.reconcile` in services.py, `RUN_TRANSITIONS` and `Run.transition` in
 models.py, `save_run` and `append_event` in storage.py). Every step that leaves the process may
 fail; a save commits the row and its event together or changes nothing.
 */
module RunLifecycle {
  import opened Options

  // -- Runs and events ----------------------------------------------------------------------------

  datatype Status = Preparing | Running | Stale | Stopped | Failed | Succeeded

  function Allowed(status: Status): set<Status>
  {
    match status
    case Preparing => {Running, Failed}
    case Running => {Stopped, Failed, Succeeded, Stale}
    case Stale => {Stopped, Failed}
    case Stopped => {}
    case Failed => {}
    case Succeeded => {}
  }

  /** `Run.transition`: the new status, or a refusal; success needs an authority. */
  function Transition(status: Status, target: Status, authority: bool): Option<Status>
  {
    if target !in Allowed(status) || (target == Succeeded && !authority) then None else Some(target)
  }

  type RunId = string

  /** A row: where the run lives, and why and how a failed spawn was undone. */
  datatype Run = Run(
    status: Status,
    worktree: Option<string>,
    terminal: Option<string>,
    failure: Option<string>,
    compensation: seq<string>)

  const NEW_RUN: Run := Run(Preparing, None, None, None, [])

  datatype EventType = RunPreparing | RunStarted | RunFailed | RunStopped | RunStale | MessageSent | RoleNotRecorded

  datatype Event = Event(kind: EventType, run: RunId)

  /** The status a lifecycle event stands for. */
  function Implied(kind: EventType): Option<Status>
  {
    match kind
    case RunPreparing => Some(Preparing)
    case RunStarted => Some(Running)
    case RunFailed => Some(Failed)
    case RunStopped => Some(Stopped)
    case RunStale => Some(Stale)
    case MessageSent => None
    case RoleNotRecorded => None
  }

  // -- The store ----------------------------------------------------------------------------------

  /** The rows, the event table, and every status ever committed to a row. */
  datatype Store = Store(runs: map<RunId, Run>, events: seq<Event>, written: seq<(RunId, Status)>)

  const EMPTY: Store := Store(map[], [], [])

  /** `save_run` with an event, committed or rolled back as one. */
  function Save(store: Store, id: RunId, run: Run, kind: EventType, commits: bool): Store
  {
    if commits then
      Store(store.runs[id := run], store.events + [Event(kind, id)], store.written + [(id, run.status)])
    else store
  }

  /** `append_event`. */
  function Append(store: Store, id: RunId, kind: EventType, commits: bool): Store
  {
    if commits then store.(events := store.events + [Event(kind, id)]) else store
  }

  // -- The calls ----------------------------------------------------------------------------------

  /** A foreign step: it works, it refuses with an error of the application, or it fails otherwise. */
  datatype Step = Fine | Refused | Crashed

  /** What happens at each step of a spawn that is reached. */
  datatype SpawnSteps = SpawnSteps(
    ready: bool,
    prepared: bool,
    backend: bool,
    worktree: Option<string>,
    launch: bool,
    terminal: Option<string>,
    started: bool,
    stopped: Step,
    cleaned: Step,
    failed: bool,
    recorded: Step,
    audited: bool)

  const FAILURE := "spawn_failed"

  /** The terminal of a spawn, if it got as far as opening one. */
  function Opened(steps: SpawnSteps): Option<string>
  {
    if steps.worktree.Some? && steps.launch then steps.terminal else None
  }

  /** How a failed spawn was undone: what it had opened and made is stopped and removed, or kept. */
  function Compensation(terminal: Option<string>, worktree: Option<string>, stopped: Step, cleaned: Step): seq<string>
  {
    (if terminal.None? then [] else if stopped == Fine then ["terminal_stopped"] else ["terminal_preserved"])
    + (if worktree.None? then [] else if cleaned == Fine then ["worktree_removed"] else ["worktree_preserved"])
  }

  function FailedRun(steps: SpawnSteps): Run
  {
    Run(Failed, steps.worktree, Opened(steps), Some(FAILURE),
        Compensation(Opened(steps), steps.worktree, steps.stopped, steps.cleaned))
  }

  function Spawn(store: Store, id: RunId, steps: SpawnSteps): Store
  {
    var prepared := Save(store, id, NEW_RUN, RunPreparing, steps.prepared);
    var terminal := Opened(steps);
    if !steps.ready then store
    else if !steps.prepared || !steps.backend then prepared
    else if terminal.Some? && steps.started then
      var started := Save(prepared, id, Run(Running, steps.worktree, terminal, None, []), RunStarted, true);
      if steps.recorded == Refused then Append(started, id, RoleNotRecorded, steps.audited) else started
    else if (terminal.Some? && steps.stopped == Crashed) || (steps.worktree.Some? && steps.cleaned == Crashed)
    then prepared
    else Save(prepared, id, FailedRun(steps), RunFailed, steps.failed)
  }

  function Stop(store: Store, id: RunId, present: bool, stops: bool, commits: bool): Store
  {
    if id !in store.runs || (store.runs[id].status != Running && store.runs[id].status != Stale) then store
    else if !present || !stops then store
    else Save(store, id, store.runs[id].(status := Stopped), RunStopped, commits)
  }

  function Reconcile(store: Store, id: RunId, issues: bool, commits: bool): Store
  {
    if id !in store.runs || !issues || store.runs[id].status != Running then store
    else Save(store, id, store.runs[id].(status := Stale), RunStale, commits)
  }

  function Send(store: Store, id: RunId, delivered: bool, commits: bool): Store
  {
    if id !in store.runs || !delivered then store else Append(store, id, MessageSent, commits)
  }

  datatype Call =
    | SpawnCall(id: RunId, steps: SpawnSteps)
    | StopCall(id: RunId, present: bool, stops: bool, commits: bool)
    | ReconcileCall(id: RunId, issues: bool, commits: bool)
    | SendCall(id: RunId, delivered: bool, commits: bool)

  function Perform(store: Store, call: Call): Store
  {
    match call
    case SpawnCall(id, steps) => Spawn(store, id, steps)
    case StopCall(id, present, stops, commits) => Stop(store, id, present, stops, commits)
    case ReconcileCall(id, issues, commits) => Reconcile(store, id, issues, commits)
    case SendCall(id, delivered, commits) => Send(store, id, delivered, commits)
  }

  function PerformAll(store: Store, calls: seq<Call>): Store
  {
    if calls == [] then store
    else Perform(PerformAll(store, calls[..|calls| - 1]), calls[|calls| - 1])
  }

  /** A run id is new when it is made: no spawn reuses one. */
  predicate FreshIds(calls: seq<Call>)
  {
    forall i, j :: 0 <= i < j < |calls| && calls[i].SpawnCall? && calls[j].SpawnCall? ==> calls[i].id != calls[j].id
  }

  // -- When a call changes a run ------------------------------------------------------------------

  /** One row gets a new status, with its event; nothing else changes. */
  predicate Moves(before: Store, after: Store, id: RunId, status: Status, kind: EventType)
    requires id in before.runs
  {
    && after.runs == before.runs[id := before.runs[id].(status := status)]
    && after.events == before.events + [Event(kind, id)]
    && after.written == before.written + [(id, status)]
  }

  /** A reconcile makes a row stale exactly if it was running, there were issues and the save
      commits; otherwise nothing changes. */
  lemma ReconcileExactly(store: Store, id: RunId, issues: bool, commits: bool)
    ensures var after := Perform(store, ReconcileCall(id, issues, commits));
            if id in store.runs && store.runs[id].status == Running && issues && commits
            then Moves(store, after, id, Stale, RunStale)
            else after == store
  {
  }

  /** A stop makes a row stopped exactly if it was running or stale, its terminal was there and
      stopped, and the save commits; otherwise nothing changes. */
  lemma StopExactly(store: Store, id: RunId, present: bool, stops: bool, commits: bool)
    ensures var after := Perform(store, StopCall(id, present, stops, commits));
            if id in store.runs && store.runs[id].status in {Running, Stale} && present && stops && commits
            then Moves(store, after, id, Stopped, RunStopped)
            else after == store
  {
  }

  /** A send logs a message exactly if the run is there, it was delivered and the save commits; it
      never changes a row. */
  lemma SendExactly(store: Store, id: RunId, delivered: bool, commits: bool)
    ensures var after := Perform(store, SendCall(id, delivered, commits));
            if id in store.runs && delivered && commits
            then after == store.(events := store.events + [Event(MessageSent, id)])
            else after == store
  {
  }

  /** A spawn that worked up to and including the save of its start. */
  predicate Started(steps: SpawnSteps)
  {
    && steps.ready && steps.prepared && steps.backend
    && steps.worktree.Some? && steps.launch && steps.terminal.Some? && steps.started
  }

  /** A spawn that failed after its first save and could undo what it had begun: neither the
      terminal it had opened nor the worktree it had made failed unexpectedly. */
  predicate Undone(steps: SpawnSteps)
  {
    && steps.ready && steps.prepared && steps.backend && !Started(steps)
    && !(steps.worktree.Some? && steps.launch && steps.terminal.Some? && steps.stopped == Crashed)
    && !(steps.worktree.Some? && steps.cleaned == Crashed)
  }

  /** The row a spawn leaves. There is none exactly if it was not ready or its first save failed. It
      is running, with its worktree and terminal, exactly if every step up to the save of the start
      worked. It is failed exactly if a later step failed, what had been begun was undone, and that
      was saved. Otherwise it is still preparing. No other row changes. */
  lemma SpawnExactly(store: Store, id: RunId, steps: SpawnSteps)
    requires id !in store.runs
    ensures var after := Perform(store, SpawnCall(id, steps));
            && after.runs - {id} == store.runs
            && (id in after.runs <==> steps.ready && steps.prepared)
            && (id in after.runs && after.runs[id].status == Running <==> Started(steps))
            && (id in after.runs && after.runs[id].status == Failed <==> Undone(steps) && steps.failed)
            && (id in after.runs && after.runs[id].status == Preparing <==>
                  steps.ready && steps.prepared && !Started(steps) && !(Undone(steps) && steps.failed))
            && (Started(steps) ==> after.runs[id].worktree == steps.worktree && after.runs[id].terminal == steps.terminal)
  {
    assert store.runs - {id} == store.runs;
  }

  /** The row of a failed spawn names what had been made and opened, why it failed, and how it was
      undone: first the terminal, stopped or preserved, then the worktree, removed or preserved. */
  lemma FailedSpawnExactly(store: Store, id: RunId, steps: SpawnSteps)
    requires Undone(steps) && steps.failed
    ensures var after, opens := Perform(store, SpawnCall(id, steps)), steps.worktree.Some? && steps.launch;
            && id in after.runs
            && after.runs[id].worktree == steps.worktree
            && after.runs[id].terminal == (if opens then steps.terminal else None)
            && after.runs[id].failure == Some("spawn_failed")
            && (steps.worktree.None? ==> after.runs[id].compensation == [])
            && (steps.worktree.Some? ==>
                  var made := if steps.cleaned == Fine then "worktree_removed" else "worktree_preserved";
                  if opens && steps.terminal.Some? then
                    after.runs[id].compensation ==
                    [if steps.stopped == Fine then "terminal_stopped" else "terminal_preserved", made]
                  else after.runs[id].compensation == [made])
  {
  }

  /** The events a spawn logs, in order. */
  lemma SpawnLogs(store: Store, id: RunId, steps: SpawnSteps)
    ensures Perform(store, SpawnCall(id, steps)).events ==
            store.events
            + (if steps.ready && steps.prepared then [Event(RunPreparing, id)] else [])
            + (if Started(steps) then [Event(RunStarted, id)] else [])
            + (if Undone(steps) && steps.failed then [Event(RunFailed, id)] else [])
            + (if Started(steps) && steps.recorded == Refused && steps.audited then [Event(RoleNotRecorded, id)] else [])
  {
  }

  // -- Histories ------------------------------------------------------------------------------------

  /** The statuses committed to one row, in order. */
  function Written(written: seq<(RunId, Status)>, id: RunId): seq<Status>
  {
    if written == [] then []
    else
      var last := written[|written| - 1];
      Written(written[..|written| - 1], id) + if last.0 == id then [last.1] else []
  }

  /** The statuses the lifecycle events of one run stand for, in order. */
  function Told(events: seq<Event>, id: RunId): seq<Status>
  {
    if events == [] then []
    else
      var last := events[|events| - 1];
      Told(events[..|events| - 1], id)
      + if last.run == id && Implied(last.kind).Some? then [Implied(last.kind).value] else []
  }

  /** A run starts as preparing and every later status is an allowed successor. */
  predicate IsPath(statuses: seq<Status>)
  {
    && (statuses != [] ==> statuses[0] == Preparing)
    && forall i :: 0 < i < |statuses| ==> statuses[i] in Allowed(statuses[i - 1])
  }

  /** The histories there are. */
  predicate IsHistory(statuses: seq<Status>)
  {
    || statuses == []
    || statuses == [Preparing]
    || statuses == [Preparing, Failed]
    || statuses == [Preparing, Running]
    || statuses == [Preparing, Running, Stopped]
    || statuses == [Preparing, Running, Stale]
    || statuses == [Preparing, Running, Stale, Stopped]
  }

  /** The changes of status that calls make. */
  predicate Changes(from: Status, to: Status)
  {
    match from
    case Preparing => to == Running || to == Failed
    case Running => to == Stale || to == Stopped
    case Stale => to == Stopped
    case _ => false
  }

  lemma HistoryGrows(statuses: seq<Status>, status: Status)
    requires IsHistory(statuses)
    requires if statuses == [] then status == Preparing else Changes(statuses[|statuses| - 1], status)
    ensures IsHistory(statuses + [status])
  {
  }

  lemma HistoryIsPath(statuses: seq<Status>)
    requires IsHistory(statuses)
    ensures IsPath(statuses) && Succeeded !in statuses
  {
  }

  /** One run: events and row tell the same history. */
  predicate RunAgrees(store: Store, id: RunId)
  {
    var history := Written(store.written, id);
    && Told(store.events, id) == history
    && IsHistory(history)
    && (id in store.runs <==> history != [])
    && (id in store.runs ==> store.runs[id].status == history[|history| - 1] && RowIsWhole(store.runs[id]))
  }

  /** What a row holds in each status. */
  predicate RowIsWhole(run: Run)
  {
    && (run.status in {Running, Stale, Stopped} ==> run.worktree.Some? && run.terminal.Some?)
    && (run.status == Failed <==> run.failure == Some(FAILURE))
  }

  ghost predicate Agrees(store: Store)
  {
    forall id :: RunAgrees(store, id)
  }

  // -- Every save keeps the histories in agreement --------------------------------------------------

  lemma SaveAgrees(store: Store, id: RunId, run: Run, kind: EventType, commits: bool)
    requires Agrees(store) && Implied(kind) == Some(run.status) && RowIsWhole(run)
    requires if id in store.runs then Changes(store.runs[id].status, run.status) else run.status == Preparing
    ensures Agrees(Save(store, id, run, kind, commits))
  {
    hide IsHistory, Written, Told, RowIsWhole;
    if commits {
      var after := Save(store, id, run, kind, true);
      assert RunAgrees(store, id);
      HistoryGrows(Written(store.written, id), run.status);
      forall other
        ensures RunAgrees(after, other)
      {
        assert RunAgrees(store, other);
        WrittenAppend(store.written, id, run.status, other);
        ToldAppend(store.events, Event(kind, id), other);
      }
    }
  }

  lemma WrittenAppend(written: seq<(RunId, Status)>, id: RunId, status: Status, other: RunId)
    ensures Written(written + [(id, status)], other) ==
            if other == id then Written(written, other) + [status] else Written(written, other)
  {
    assert (written + [(id, status)])[..|written|] == written;
  }

  lemma ToldAppend(events: seq<Event>, event: Event, id: RunId)
    ensures Told(events + [event], id) ==
            if event.run == id && Implied(event.kind).Some? then Told(events, id) + [Implied(event.kind).value]
            else Told(events, id)
  {
    assert (events + [event])[..|events|] == events;
  }

  lemma AppendAgrees(store: Store, id: RunId, kind: EventType, commits: bool)
    requires Agrees(store) && Implied(kind).None?
    ensures Agrees(Append(store, id, kind, commits))
  {
    hide IsHistory, Written, Told, RowIsWhole;
    forall other
      ensures RunAgrees(Append(store, id, kind, commits), other)
    {
      assert RunAgrees(store, other);
      ToldAppend(store.events, Event(kind, id), other);
    }
  }

  // -- Every call does --------------------------------------------------------------------------------

  lemma SpawnAgrees(store: Store, id: RunId, steps: SpawnSteps)
    requires Agrees(store) && id !in store.runs
    ensures Agrees(Spawn(store, id, steps))
  {
    hide Agrees;
    SaveAgrees(store, id, NEW_RUN, RunPreparing, steps.prepared);
    if steps.prepared {
      var prepared := Save(store, id, NEW_RUN, RunPreparing, true);
      if Opened(steps).Some? {
        var run := Run(Running, steps.worktree, Opened(steps), None, []);
        SaveAgrees(prepared, id, run, RunStarted, true);
        AppendAgrees(Save(prepared, id, run, RunStarted, true), id, RoleNotRecorded, steps.audited);
      }
      SaveAgrees(prepared, id, FailedRun(steps), RunFailed, steps.failed);
    }
  }

  lemma CallAgrees(store: Store, call: Call)
    requires Agrees(store) && (call.SpawnCall? ==> call.id !in store.runs)
    ensures Agrees(Perform(store, call))
  {
    hide Spawn;
    match call {
      case SpawnCall(id, steps) => SpawnAgrees(store, id, steps);
      case StopCall(id, present, stops, commits) =>
        if id in store.runs && store.runs[id].status in {Running, Stale} {
          assert RunAgrees(store, id);
          SaveAgrees(store, id, store.runs[id].(status := Stopped), RunStopped, commits);
        }
      case ReconcileCall(id, issues, commits) =>
        if id in store.runs && store.runs[id].status == Running {
          assert RunAgrees(store, id);
          SaveAgrees(store, id, store.runs[id].(status := Stale), RunStale, commits);
        }
      case SendCall(id, delivered, commits) => AppendAgrees(store, id, MessageSent, commits);
    }
  }

  lemma EmptyAgrees()
    ensures Agrees(EMPTY)
  {
  }

  /** Only a spawn of its id makes a row. */
  lemma {:induction false} NeverSpawned(calls: seq<Call>, id: RunId)
    requires forall i :: 0 <= i < |calls| && calls[i].SpawnCall? ==> calls[i].id != id
    ensures id !in PerformAll(EMPTY, calls).runs
  {
    if calls != [] {
      NeverSpawned(calls[..|calls| - 1], id);
    }
  }

  lemma {:induction false} RunsAgree(calls: seq<Call>)
    requires FreshIds(calls)
    ensures Agrees(PerformAll(EMPTY, calls))
  {
    hide Agrees, Perform;
    if calls == [] {
      EmptyAgrees();
    } else {
      var front, last := calls[..|calls| - 1], calls[|calls| - 1];
      RunsAgree(front);
      if last.SpawnCall? {
        NeverSpawned(front, last.id);
      }
      CallAgrees(PerformAll(EMPTY, front), last);
    }
  }

  // -- Results ----------------------------------------------------------------------------------------

  /** The status the last lifecycle event of a run stands for. */
  function LastTold(events: seq<Event>, id: RunId): Option<Status>
  {
    if events == [] then None
    else
      var last := events[|events| - 1];
      if last.run == id && Implied(last.kind).Some? then Implied(last.kind)
      else LastTold(events[..|events| - 1], id)
  }

  lemma {:induction false} LastToldIs(events: seq<Event>, id: RunId)
    ensures var told := Told(events, id);
            LastTold(events, id) == if told == [] then None else Some(told[|told| - 1])
  {
    if events != [] {
      LastToldIs(events[..|events| - 1], id);
    }
  }

  /** The event log refines the run state. Over every sequence of calls, whatever fails at whatever
      step, a row's status is the one its last lifecycle event stands for, the statuses ever
      committed to it are the ones its events tell, and they are one of seven histories: each a path
      of the transition table, none with a success. */
  lemma LogRefinesState(calls: seq<Call>, id: RunId)
    requires FreshIds(calls)
    ensures var store := PerformAll(EMPTY, calls);
            && (id in store.runs <==> LastTold(store.events, id).Some?)
            && (id in store.runs ==> LastTold(store.events, id) == Some(store.runs[id].status))
            && (id in store.runs ==> store.runs[id].status != Succeeded && RowIsWhole(store.runs[id]))
            && Written(store.written, id) == Told(store.events, id)
            && IsHistory(Written(store.written, id)) && IsPath(Written(store.written, id))
  {
    hide PerformAll, Told, LastTold, Written, RowIsWhole, IsPath, IsHistory;
    RunsAgree(calls);
    var store := PerformAll(EMPTY, calls);
    assert RunAgrees(store, id);
    HistoryIsPath(Written(store.written, id));
    LastToldIs(store.events, id);
  }

  /** A run that has stopped or failed is never changed again. */
  lemma {:induction false} FinishedRunsAreKept(store: Store, calls: seq<Call>, id: RunId)
    requires id in store.runs && store.runs[id].status in {Stopped, Failed}
    requires forall i :: 0 <= i < |calls| && calls[i].SpawnCall? ==> calls[i].id != id
    ensures id in PerformAll(store, calls).runs && PerformAll(store, calls).runs[id] == store.runs[id]
  {
    if calls != [] {
      FinishedRunsAreKept(store, calls[..|calls| - 1], id);
    }
  }
}
