/**
 What the two ends of a task stream do with each snapshot and each event, told by their effects
 (crates/vibemux_a2a/src/task_server.rs, `snapshot_events` and `stream_finished`; task_wire.rs,
 `apply_stream_response`; task_grpc.rs, the stream state).
 */
module StreamMeaning {
  import opened Contract
  import opened DeltaStream
  import opened Options
  import opened Selections
  import opened Wire

  // -- The server -----------------------------------------------------------------------------------

  /** The states that end a stream: the four terminal ones, and the two that wait for the caller if
      the stream was opened to end there. */
  predicate EndsStream(state: TaskState, onInterrupted: bool)
  {
    || state in {Completed, Failed, Canceled, Rejected}
    || (onInterrupted && state in {InputRequired, AuthRequired})
  }

  lemma EndsExactly(state: TaskState, onInterrupted: bool)
    ensures Ends(state, onInterrupted) <==> EndsStream(state, onInterrupted)
  {
  }

  /** How far a server reads: up to and including the first snapshot that ends the stream, all of
      them if none does, and it is done exactly in the first case. */
  lemma {:induction false} ReadsUntilTheEnd(codec: Codec, server: Server, snapshots: seq<TaskSnapshot>) returns (n: nat)
    requires !server.done && Serve(codec, server, snapshots).Emitted?
    ensures n <= |snapshots|
    ensures var last := Serve(codec, server, snapshots).server;
            && last.previous == (if n == 0 then server.previous else Some(snapshots[n - 1]))
            && (forall i :: 0 <= i < n - 1 ==> !EndsStream(snapshots[i].state, server.stopOnInterrupted))
            && (last.done <==> n > 0 && EndsStream(snapshots[n - 1].state, server.stopOnInterrupted))
            && (!last.done ==> n == |snapshots|)
    decreases |snapshots|
  {
    hide Batch, Ends, EndsStream;
    n := 0;
    if snapshots != [] {
      var s := snapshots[0];
      EndsExactly(s.state, server.stopOnInterrupted);
      n := 1;
      if !Served(server, s).done {
        var rest := ReadsUntilTheEnd(codec, Served(server, s), snapshots[1..]);
        n := rest + 1;
      }
    }
  }

  /** Every id of the earlier snapshot is still there. */
  predicate KeepsIds(before: seq<TaskArtifact>, after: seq<TaskArtifact>)
  {
    forall i :: 0 <= i < |before| ==> exists j :: 0 <= j < |after| && after[j].id == before[i].id
  }

  /** Which snapshots a server accepts: valid ones of its task and context that keep the ids of the
      one before. Which error it is otherwise. */
  lemma BatchExactly(codec: Codec, server: Server, s: TaskSnapshot)
    ensures var batch := Batch(codec, server, s);
            if !ValidSnapshot(codec, s) then batch == Err(InvalidRequest)
            else if s.taskId != server.taskId || s.contextId != server.contextId then batch == Err(Protocol)
            else if server.previous.Some? && !KeepsIds(server.previous.value.artifacts, s.artifacts)
            then batch == Err(Protocol)
            else batch.Ok?
  {
    hide ValidSnapshot;
    if server.previous.Some? {
      var before := server.previous.value.artifacts;
      forall i | 0 <= i < |before|
        ensures HasId(s.artifacts, before[i].id) <==>
                exists j :: 0 <= j < |s.artifacts| && s.artifacts[j].id == before[i].id
      {
        HasIdIs(s.artifacts, before[i].id);
      }
    }
  }

  lemma {:induction false} ChangedExactly(before: seq<TaskArtifact>, artifacts: seq<TaskArtifact>)
    returns (picked: seq<nat>)
    ensures Selects(picked, set i: nat | i < |artifacts| && artifacts[i] !in before)
    ensures PicksOut(artifacts, picked, Changed(before, artifacts))
  {
    hide Selects;
    var chosen := set i: nat | i < |artifacts| && artifacts[i] !in before;
    if artifacts == [] {
      SelectsNothing();
      assert chosen == {};
      picked := [];
    } else {
      var last := |artifacts| - 1;
      var front := artifacts[..last];
      var earlier := ChangedExactly(before, front);
      var chosenEarlier := set i: nat | i < |front| && front[i] !in before;
      if artifacts[last] in before {
        assert chosen == chosenEarlier;
        picked := earlier;
      } else {
        SelectsOneMore(earlier, chosenEarlier, last);
        assert chosen == chosenEarlier + {last};
        picked := earlier + [last];
      }
    }
  }

  /** What a later snapshot is sent as: one replacing update for each artifact that is new or
      changed, in order, then a status update exactly if the state or the error code changed. */
  lemma LaterEvents(codec: Codec, server: Server, s: TaskSnapshot) returns (picked: seq<nat>)
    requires server.previous.Some? && Batch(codec, server, s).Ok?
    ensures Selects(picked, set i: nat | i < |s.artifacts| && s.artifacts[i] !in server.previous.value.artifacts)
    ensures var before, events := server.previous.value, Batch(codec, server, s).value;
            var changes := before.state != s.state || before.errorCode != s.errorCode;
            && |events| == |picked| + (if changes then 1 else 0)
            && (forall j :: 0 <= j < |picked| ==>
                  && picked[j] < |s.artifacts|
                  && events[j] ==
                     ArtifactUpdate(s.taskId, s.contextId, ArtifactToWire(s.artifacts[picked[j]]), Some(false)))
            && (changes ==>
                  && events[|picked|].StatusUpdate?
                  && events[|picked|].taskId == s.taskId && events[|picked|].contextId == s.contextId
                  && events[|picked|].state == Known(s.state)
                  && CodeFromMetadata(events[|picked|].metadata) == s.errorCode)
  {
    hide ValidSnapshot, ArtifactToWire, CodeFromMetadata, CodeToMetadata, Changed, Selects;
    picked := ChangedExactly(server.previous.value.artifacts, s.artifacts);
    CodeRoundTrip(s.errorCode);
  }

  // -- The client -----------------------------------------------------------------------------------

  /** An artifact update, exactly. The first artifact of its id, at `i`, is extended by the parts or
      replaced, with every other artifact as it was; one of a new id is added at the end. */
  lemma UpsertExactly(artifacts: seq<TaskArtifact>, artifact: TaskArtifact, append: bool, i: nat)
    requires i <= |artifacts| && (forall j :: 0 <= j < i ==> artifacts[j].id != artifact.id)
    requires i < |artifacts| ==> artifacts[i].id == artifact.id
    ensures var after := Upsert(artifacts, artifact, append);
            && |after| == (if i < |artifacts| then |artifacts| else |artifacts| + 1)
            && (forall j :: 0 <= j < |artifacts| && j != i ==> after[j] == artifacts[j])
            && (i == |artifacts| || !append ==> after[i] == artifact)
            && (i < |artifacts| && append ==>
                  && after[i].id == artifacts[i].id && after[i].name == artifacts[i].name
                  && after[i].parts == artifacts[i].parts + artifact.parts)
  {
    hide IndexOf;
    assert IndexOf(artifacts, artifact.id) == i;
  }

  /** The client has a snapshot of this task and context to apply an update to. */
  predicate Follows(previous: Option<TaskSnapshot>, taskId: string, contextId: string)
  {
    previous.Some? && previous.value.taskId == taskId && previous.value.contextId == contextId
  }

  /** What a client makes of a status update: the snapshot with that state and error code, if it
      follows one of the same task and the result is valid. */
  lemma StatusExactly(codec: Codec, previous: Option<TaskSnapshot>, taskId: string, contextId: string, state: WireState,
                      metadata: Metadata)
    ensures var result := Apply(codec, previous, StatusUpdate(taskId, contextId, state, metadata));
            if !Follows(previous, taskId, contextId) || state.Unspecified? then result == Err(Protocol)
            else
              var next := previous.value.(state := state.state, errorCode := CodeFromMetadata(metadata));
              result == if ValidSnapshot(codec, next) then Ok(next) else Err(InvalidRequest)
  {
    hide ValidSnapshot, CodeFromMetadata;
  }

  /** What a client makes of an artifact update: the snapshot with the artifact added, replaced or
      extended, if it follows one of the same task and artifact and result are valid. */
  lemma ArtifactExactly(codec: Codec, previous: Option<TaskSnapshot>, taskId: string, contextId: string,
                        artifact: TaskArtifact, append: Option<bool>)
    ensures var result := Apply(codec, previous, ArtifactUpdate(taskId, contextId, ArtifactToWire(artifact), append));
            if !Follows(previous, taskId, contextId) then result == Err(Protocol)
            else if !ValidArtifact(codec, artifact) then result == Err(InvalidRequest)
            else
              var next := previous.value.(artifacts := Upsert(previous.value.artifacts, artifact, append == Some(true)));
              result == if ValidSnapshot(codec, next) then Ok(next) else Err(InvalidRequest)
  {
    hide ValidSnapshot, ValidArtifact, ArtifactToWire, ArtifactFromWire, Upsert;
    ArtifactRoundTrip(codec, artifact);
  }

  /** What a client makes of a whole task: that snapshot, unless it is of another task or context
      than the one before. */
  lemma TaskExactly(codec: Codec, previous: Option<TaskSnapshot>, s: TaskSnapshot)
    requires SnapshotToWire(codec, s).Ok? && ValidSnapshot(codec, s)
    ensures var result := Apply(codec, previous, TaskEvent(SnapshotToWire(codec, s).value));
            result == if previous.Some? && !Follows(previous, s.taskId, s.contextId) then Err(Protocol) else Ok(s)
  {
    hide ValidSnapshot, SnapshotToWire, SnapshotFromWire;
    SnapshotRoundTrip(codec, s);
  }

  lemma MessageIsRefused(codec: Codec, previous: Option<TaskSnapshot>)
    ensures Apply(codec, previous, MessageEvent) == Err(Protocol)
  {
  }

  /** Which events a stream client accepts, and what it knows afterwards: the decoded snapshot, if it
      is of the task and context expected so far; these are then pinned, and the stream has ended
      exactly if the state ends it. */
  lemma ReceiveExactly(codec: Codec, client: Client, event: StreamResponse)
    ensures var decoded, next := Apply(codec, client.previous, event), Receive(codec, client, event);
            if decoded.Err? then next == Err(decoded.error)
            else
              var s := decoded.value;
              if (client.expectedTask.Some? && client.expectedTask.value != s.taskId)
                 || (client.expectedContext.Some? && client.expectedContext.value != s.contextId)
              then next == Err(Protocol)
              else next == Ok(Client.Client(Some(s), Some(s.taskId), Some(s.contextId),
                                            EndsStream(s.state, client.endOnInterrupted), client.endOnInterrupted))
  {
    hide Apply;
  }
}
