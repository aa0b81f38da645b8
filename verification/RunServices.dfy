/**
 The run services as objects (src/vibemux/services.py, storage.py): calls that change a run and
 the store step by step, with an exception path that compensates.
 */
module RunServices {
  import opened Options
  import opened RunLifecycle

  /** How a call ends for its caller. */
  datatype Outcome = Returned(run: Run) | Raised

  class Storage {
    var runs: map<RunId, Run>
    var events: seq<Event>
    ghost var written: seq<(RunId, Status)>

    ghost function Model(): Store
      reads this
    {
      Store(runs, events, written)
    }

    constructor ()
      ensures Model() == EMPTY
    {
      runs, events, written := map[], [], [];
    }

    /** The row and its event in one transaction; a failure of either statement undoes both. */
    method SaveRun(id: RunId, run: Run, kind: EventType, rowWorks: bool, eventWorks: bool) returns (saved: bool)
      modifies this
      ensures saved == (rowWorks && eventWorks)
      ensures Model() == Save(old(Model()), id, run, kind, saved)
    {
      if !rowWorks {
        return false;
      }
      var before := runs;
      runs := runs[id := run];
      if !eventWorks {
        runs := before;
        return false;
      }
      events := events + [Event(kind, id)];
      written := written + [(id, run.status)];
      saved := true;
    }

    method AppendEvent(id: RunId, kind: EventType, works: bool)
      modifies this
      ensures Model() == Append(old(Model()), id, kind, works)
    {
      if works {
        events := events + [Event(kind, id)];
      }
    }
  }

  class RunService {
    const storage: Storage

    constructor (storage: Storage)
      ensures this.storage == storage
    {
      this.storage := storage;
    }

    /** `RunService.spawn` for a run id just made. */
    method SpawnRun(id: RunId, steps: SpawnSteps) returns (outcome: Outcome)
      requires id !in storage.runs
      modifies storage
      ensures storage.Model() == Spawn(old(storage.Model()), id, steps)
      ensures outcome.Returned? ==>
                id in storage.runs && storage.runs[id] == outcome.run && outcome.run.status == Running
      ensures outcome.Returned? <==>
                Started(steps) && (steps.recorded == Fine || (steps.recorded == Refused && steps.audited))
    {
      if !steps.ready {
        return Raised;
      }
      var run := NEW_RUN;
      var saved := storage.SaveRun(id, run, RunPreparing, steps.prepared, true);
      if !saved || !steps.backend {
        return Raised;
      }
      var failed := true;
      if steps.worktree.Some? {
        run := run.(worktree := steps.worktree);
        if steps.launch && steps.terminal.Some? {
          run := run.(terminal := steps.terminal);
          var next := Transition(run.status, Running, false);
          run := run.(status := next.value);
          saved := storage.SaveRun(id, run, RunStarted, true, steps.started);
          failed := !saved;
        }
      }
      if failed {
        Compensate(id, run, steps);
        return Raised;
      }
      if steps.recorded == Refused {
        storage.AppendEvent(id, RoleNotRecorded, steps.audited);
      }
      if steps.recorded == Crashed || (steps.recorded == Refused && !steps.audited) {
        return Raised;
      }
      outcome := Returned(run);
    }

    /** The exception path: undo what was started, then record the failure. The run at hand may be
        ahead of its row, whose update to running was rolled back. */
    method Compensate(id: RunId, run: Run, steps: SpawnSteps)
      requires run.status in {Preparing, Running}
      modifies storage
      ensures storage.Model() ==
              if (run.terminal.Some? && steps.stopped == Crashed) || (run.worktree.Some? && steps.cleaned == Crashed)
              then old(storage.Model())
              else
                var after := run.(status := Failed, failure := Some(FAILURE),
                  compensation := Compensation(run.terminal, run.worktree, steps.stopped, steps.cleaned));
                Save(old(storage.Model()), id, after, RunFailed, steps.failed)
    {
      var compensation := [];
      if run.terminal.Some? {
        match steps.stopped {
          case Fine => compensation := compensation + ["terminal_stopped"];
          case Refused => compensation := compensation + ["terminal_preserved"];
          case Crashed => return;
        }
      }
      if run.worktree.Some? {
        match steps.cleaned {
          case Fine => compensation := compensation + ["worktree_removed"];
          case Refused => compensation := compensation + ["worktree_preserved"];
          case Crashed => return;
        }
      }
      assert compensation == Compensation(run.terminal, run.worktree, steps.stopped, steps.cleaned);
      var next := Transition(run.status, Failed, false);
      var after := run.(status := next.value, failure := Some(FAILURE), compensation := compensation);
      var _ := storage.SaveRun(id, after, RunFailed, true, steps.failed);
    }

    /** `RunService.send`: a delivered message is logged and changes no run. */
    method SendText(id: RunId, delivered: bool, commits: bool) returns (sent: bool)
      modifies storage
      ensures storage.Model() == Send(old(storage.Model()), id, delivered, commits)
      ensures sent == (id in storage.runs && delivered && commits)
    {
      if id !in storage.runs || !delivered {
        return false;
      }
      storage.AppendEvent(id, MessageSent, commits);
      sent := commits;
    }

    /** `RunService.stop`: only a running or stale run is stopped, and only with its terminal. */
    method StopRun(id: RunId, present: bool, stops: bool, commits: bool) returns (outcome: Outcome)
      modifies storage
      ensures storage.Model() == Stop(old(storage.Model()), id, present, stops, commits)
      ensures outcome.Returned? ==> id in storage.runs && storage.runs[id] == outcome.run
      ensures outcome.Returned? <==>
                && id in old(storage.runs)
                && (old(storage.runs)[id].status in {Running, Stale} ==> present && stops && commits)
    {
      if id !in storage.runs {
        return Raised;
      }
      var run := storage.runs[id];
      if run.status != Running && run.status != Stale {
        return Returned(run);
      }
      if !present || !stops {
        return Raised;
      }
      var next := Transition(run.status, Stopped, false);
      run := run.(status := next.value);
      var saved := storage.SaveRun(id, run, RunStopped, true, commits);
      if !saved {
        return Raised;
      }
      outcome := Returned(run);
    }

    /** `ReconciliationService.reconcile`: a running run with issues becomes stale. */
    method ReconcileRun(id: RunId, issues: bool, commits: bool) returns (outcome: Outcome)
      modifies storage
      ensures storage.Model() == Reconcile(old(storage.Model()), id, issues, commits)
      ensures outcome.Returned? ==> id in storage.runs && storage.runs[id] == outcome.run
      ensures outcome.Returned? <==>
                id in old(storage.runs) && (old(storage.runs)[id].status == Running && issues ==> commits)
    {
      if id !in storage.runs {
        return Raised;
      }
      var run := storage.runs[id];
      if issues && run.status == Running {
        var next := Transition(run.status, Stale, false);
        run := run.(status := next.value);
        var saved := storage.SaveRun(id, run, RunStale, true, commits);
        if !saved {
          return Raised;
        }
      }
      outcome := Returned(run);
    }
  }
}
