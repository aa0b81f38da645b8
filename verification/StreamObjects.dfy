/**
 The two ends of a task stream as objects: the server's subscription state with its queue of
 pending events (crates/vibemux_a2a/src/task_server.rs) and the client's stream state
 (crates/vibemux_a2a/src/task_grpc.rs, task_wire.rs).
 */
module StreamObjects {
  import opened Contract
  import opened Options
  import opened Wire
  import opened DeltaStream

  /** What the server gets while it waits for its backend's stream: an item, the deadline, or the
      signal to stop. An exhausted stream yields nothing more. */
  datatype Item = Snapshot(snapshot: TaskSnapshot) | Failure(error: TaskError) | TimedOut | StopSignal

  /** Everything a server still has to emit for the items to come. */
  function Emissions(codec: Codec, server: Server, items: seq<Item>): seq<Result<StreamResponse>>
    decreases |items|
  {
    if server.done then []
    else if items == [] then [Err(Protocol)]
    else
      match items[0]
      case Failure(error) => [Err(error)]
      case TimedOut => [Err(Deadline)]
      case StopSignal => []
      case Snapshot(s) =>
        match Batch(codec, server, s)
        case Err(error) => [Err(error)]
        case Ok(events) => Accepted(events) + Emissions(codec, Served(server, s), items[1..])
  }

  function Accepted(events: seq<StreamResponse>): seq<Result<StreamResponse>>
  {
    seq(|events|, i requires 0 <= i < |events| => Ok(events[i]))
  }

  class SubscriptionState {
    const codec: Codec
    const taskId: string
    const contextId: string
    const stopOnInterrupted: bool
    var stream: seq<Item>
    var previous: Option<TaskSnapshot>
    var pending: seq<Result<StreamResponse>>
    var done: bool
    var stopped: bool

    ghost function Model(): Server
      reads this
    {
      Server.Server(taskId, contextId, previous, done, stopOnInterrupted)
    }

    /** What is left to emit: nothing once the server is told to stop. */
    ghost function Remaining(): seq<Result<StreamResponse>>
      reads this
    {
      if stopped then [] else pending + Emissions(codec, Model(), stream)
    }

    constructor (codec: Codec, taskId: string, contextId: string, stopOnInterrupted: bool, stream: seq<Item>)
      ensures Model() == Server.Server(taskId, contextId, None, false, stopOnInterrupted)
      ensures this.codec == codec && this.stream == stream && pending == [] && !stopped
    {
      this.codec := codec;
      this.taskId, this.contextId, this.stopOnInterrupted := taskId, contextId, stopOnInterrupted;
      this.stream := stream;
      previous, pending, done, stopped := None, [], false, false;
    }

    /** `snapshot_events`. A refused snapshot changes nothing. */
    method SnapshotEvents(s: TaskSnapshot) returns (result: Result<()>)
      modifies this`previous, this`pending, this`done
      ensures Batch(codec, old(Model()), s).Err? ==>
                && result == Err(Batch(codec, old(Model()), s).error)
                && Model() == old(Model()) && pending == old(pending)
      ensures Batch(codec, old(Model()), s).Ok? ==>
                && result == Ok(())
                && Model() == Served(old(Model()), s)
                && pending == old(pending) + Accepted(Batch(codec, old(Model()), s).value)
    {
      hide ValidSnapshot, SnapshotToWire;
      if !ValidSnapshot(codec, s) {
        return Err(InvalidRequest);
      }
      if s.taskId != taskId || s.contextId != contextId {
        return Err(Protocol);
      }
      if previous.Some? {
        var missing := MissesArtifact(previous.value.artifacts, s.artifacts);
        if missing {
          return Err(Protocol);
        }
        PushArtifacts(s, previous.value.artifacts);
        if previous.value.state != s.state || previous.value.errorCode != s.errorCode {
          pending := pending + [Ok(StatusEvent(s))];
        }
      } else {
        var task := SnapshotToWire(codec, s);
        if task.Err? {
          return Err(task.error);
        }
        pending := pending + [Ok(TaskEvent(task.value))];
      }
      done := Ends(s.state, stopOnInterrupted);
      previous := Some(s);
      result := Ok(());
    }

    method MissesArtifact(before: seq<TaskArtifact>, after: seq<TaskArtifact>) returns (missing: bool)
      ensures missing <==> exists i :: 0 <= i < |before| && !HasId(after, before[i].id)
    {
      for i := 0 to |before|
        invariant forall j :: 0 <= j < i ==> HasId(after, before[j].id)
      {
        if IndexOf(after, before[i].id) == |after| {
          return true;
        }
      }
      missing := false;
    }

    method PushArtifacts(s: TaskSnapshot, before: seq<TaskArtifact>)
      modifies this`pending
      ensures pending == old(pending) + Accepted(ArtifactEvents(s, Changed(before, s.artifacts)))
    {
      hide ArtifactEvent;
      for i := 0 to |s.artifacts|
        invariant pending == old(pending) + Accepted(ArtifactEvents(s, Changed(before, s.artifacts[..i])))
      {
        assert s.artifacts[..i + 1][..i] == s.artifacts[..i];
        if s.artifacts[i] !in before {
          pending := pending + [Ok(ArtifactEvent(s, s.artifacts[i]))];
        }
      }
      assert s.artifacts[..|s.artifacts|] == s.artifacts;
    }

    /** The signal to stop, between two turns: what is still pending is not emitted. */
    method SignalStop()
      modifies this`stopped
      ensures Remaining() == []
    {
      stopped := true;
    }

    /** One turn of the stream: the next event in order, or none when nothing is left. */
    method NextEvent() returns (event: Option<Result<StreamResponse>>)
      modifies this
      ensures old(Remaining()) == [] ==> event.None? && Remaining() == []
      ensures old(Remaining()) != [] ==> event == Some(old(Remaining())[0]) && Remaining() == old(Remaining())[1..]
    {
      hide Emissions;
      while true
        invariant Remaining() == old(Remaining())
        decreases |stream|, !done
      {
        if stopped {
          return None;
        }
        if pending != [] {
          event := Some(pending[0]);
          pending := pending[1..];
          return;
        }
        if done {
          NothingMore(codec, Model(), stream);
          return None;
        }
        AwaitItem();
      }
    }

    /** Waiting for the next item and queuing what follows from it. */
    method AwaitItem()
      requires !stopped && !done && pending == []
      modifies this
      ensures Remaining() == old(Remaining())
      ensures |stream| < |old(stream)| || (stream == old(stream) && done)
    {
      hide Batch;
      var result: Result<()> := Err(Protocol);
      if stream != [] {
        var item := stream[0];
        stream := stream[1..];
        match item {
          case Snapshot(s) => result := SnapshotEvents(s);
          case Failure(error) => result := Err(error);
          case TimedOut => result := Err(Deadline);
          case StopSignal =>
            stopped := true;
            return;
        }
      }
      if result.Err? {
        done := true;
        pending := pending + [Err(result.error)];
        NothingMore(codec, Model(), stream);
      }
    }
  }

  lemma NothingMore(codec: Codec, server: Server, items: seq<Item>)
    requires server.done
    ensures Emissions(codec, server, items) == []
  {
  }

  class ClientStream {
    const codec: Codec
    const endOnInterrupted: bool
    var previous: Option<TaskSnapshot>
    var expectedTask: Option<string>
    var expectedContext: Option<string>
    var ended: bool

    ghost function Model(): Client
      reads this
    {
      Client.Client(previous, expectedTask, expectedContext, ended, endOnInterrupted)
    }

    constructor (codec: Codec, expectedTask: Option<string>, expectedContext: Option<string>, endOnInterrupted: bool)
      ensures Model() == Client.Client(None, expectedTask, expectedContext, false, endOnInterrupted)
      ensures this.codec == codec
    {
      this.codec, this.endOnInterrupted := codec, endOnInterrupted;
      this.expectedTask, this.expectedContext := expectedTask, expectedContext;
      previous, ended := None, false;
    }

    /** `apply_stream_response`: a refused event leaves the snapshot as it was. */
    method ApplyEvent(event: StreamResponse) returns (result: Result<TaskSnapshot>)
      modifies this`previous
      ensures result == Apply(codec, old(previous), event)
      ensures previous == if result.Ok? then Some(result.value) else old(previous)
    {
      hide ValidSnapshot, SnapshotFromWire, ArtifactFromWire;
      var next: TaskSnapshot;
      match event {
        case TaskEvent(task) =>
          var s := SnapshotFromWire(codec, task);
          if s.Err? {
            return Err(s.error);
          }
          next := s.value;
        case StatusUpdate(taskId, contextId, state, metadata) =>
          if previous.None? || previous.value.taskId != taskId || previous.value.contextId != contextId {
            return Err(Protocol);
          }
          if state.Unspecified? {
            return Err(Protocol);
          }
          next := previous.value;
          next := next.(state := state.state);
          next := next.(errorCode := CodeFromMetadata(metadata));
        case ArtifactUpdate(taskId, contextId, wire, append) =>
          if previous.None? || previous.value.taskId != taskId || previous.value.contextId != contextId {
            return Err(Protocol);
          }
          var artifact := ArtifactFromWire(codec, wire);
          if artifact.Err? {
            return Err(artifact.error);
          }
          next := previous.value;
          var artifacts := PutArtifact(next.artifacts, artifact.value, append == Some(true));
          next := next.(artifacts := artifacts);
        case MessageEvent => return Err(Protocol);
      }
      if !ValidSnapshot(codec, next) {
        return Err(InvalidRequest);
      }
      if previous.Some? && (previous.value.taskId != next.taskId || previous.value.contextId != next.contextId) {
        return Err(Protocol);
      }
      previous := Some(next);
      result := Ok(next);
    }

    method PutArtifact(artifacts: seq<TaskArtifact>, artifact: TaskArtifact, append: bool) returns (r: seq<TaskArtifact>)
      ensures r == Upsert(artifacts, artifact, append)
    {
      var i := 0;
      while i < |artifacts| && artifacts[i].id != artifact.id
        invariant 0 <= i <= |artifacts|
        invariant forall j :: 0 <= j < i ==> artifacts[j].id != artifact.id
      {
        i := i + 1;
      }
      assert i == IndexOf(artifacts, artifact.id);
      if i == |artifacts| {
        r := artifacts + [artifact];
      } else if append {
        r := artifacts[i := artifacts[i].(parts := artifacts[i].parts + artifact.parts)];
      } else {
        r := artifacts[i := artifact];
      }
    }

    /** One event of the stream: the ids are pinned by the first snapshot, and the stream ends with
        an error or with a state that ends it. */
    method ReadEvent(event: StreamResponse) returns (result: Result<TaskSnapshot>)
      requires !ended
      modifies this
      ensures Receive(codec, old(Model()), event).Ok? ==>
                Model() == Receive(codec, old(Model()), event).value && result == Ok(previous.value)
      ensures Receive(codec, old(Model()), event).Err? ==>
                result == Err(Receive(codec, old(Model()), event).error) && ended
    {
      hide Apply;
      result := ApplyEvent(event);
      if result.Ok? {
        var s := result.value;
        if (expectedTask.Some? && expectedTask.value != s.taskId)
           || (expectedContext.Some? && expectedContext.value != s.contextId) {
          result := Err(Protocol);
        } else {
          expectedTask := Some(s.taskId);
          expectedContext := Some(s.contextId);
        }
      }
      match result {
        case Ok(s) => ended := s.state.IsTerminal() || (endOnInterrupted && s.state.IsInterrupted());
        case Err(_) => ended := true;
      }
    }
  }

  /** What a subscription object emits over its life is the events of the run, one by one, for the
      snapshots the server accepts. */
  lemma {:induction false} EmissionsAreServed(codec: Codec, server: Server, snapshots: seq<TaskSnapshot>, items: seq<Item>)
    requires |items| >= |snapshots| && forall i :: 0 <= i < |snapshots| ==> items[i] == Snapshot(snapshots[i])
    requires Serve(codec, server, snapshots).Emitted?
    ensures var run := Serve(codec, server, snapshots);
            Accepted(run.events) <= Emissions(codec, server, items)
    ensures Serve(codec, server, snapshots).server.done ==>
            Emissions(codec, server, items) == Accepted(Serve(codec, server, snapshots).events)
    decreases |snapshots|
  {
    hide Batch;
    if snapshots != [] && !server.done {
      var s := snapshots[0];
      EmissionsAreServed(codec, Served(server, s), snapshots[1..], items[1..]);
      var events := Batch(codec, server, s).value;
      var rest := Serve(codec, Served(server, s), snapshots[1..]).events;
      assert Accepted(events + rest) == Accepted(events) + Accepted(rest);
    }
  }
}
