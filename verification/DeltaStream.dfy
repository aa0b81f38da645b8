/**
 Delta streaming: the server turns full snapshots into task, artifact and status events
 (crates/vibemux_a2a/src/task_server.rs), the client rebuilds snapshots from them
 (crates/vibemux_a2a/src/task_wire.rs, task_grpc.rs). The two run as separate state machines;
 this module states what each does and proves that the client follows the server.
 */
module DeltaStream {
  import opened Contract
  import opened Options
  import opened Sets
  import opened Wire

  // -- The server ------------------------------------------------------------------------

  datatype Server = Server(
    taskId: string,
    contextId: string,
    previous: Option<TaskSnapshot>,
    done: bool,
    stopOnInterrupted: bool)

  /** Whether a stream is over once this state was reported. */
  predicate Ends(state: TaskState, onInterrupted: bool)
  {
    state.IsTerminal() || (onInterrupted && state.IsInterrupted())
  }

  predicate HasId(artifacts: seq<TaskArtifact>, id: string)
  {
    exists i :: 0 <= i < |artifacts| && artifacts[i].id == id
  }

  /** The artifacts of a snapshot that the previous one does not have as they are. */
  function Changed(before: seq<TaskArtifact>, artifacts: seq<TaskArtifact>): seq<TaskArtifact>
  {
    if artifacts == [] then []
    else
      var last := artifacts[|artifacts| - 1];
      var front := Changed(before, artifacts[..|artifacts| - 1]);
      if last in before then front else front + [last]
  }

  function ArtifactEvent(s: TaskSnapshot, artifact: TaskArtifact): StreamResponse
  {
    ArtifactUpdate(s.taskId, s.contextId, ArtifactToWire(artifact), Some(false))
  }

  function ArtifactEvents(s: TaskSnapshot, changed: seq<TaskArtifact>): seq<StreamResponse>
  {
    seq(|changed|, i requires 0 <= i < |changed| => ArtifactEvent(s, changed[i]))
  }

  function StatusEvent(s: TaskSnapshot): StreamResponse
  {
    StatusUpdate(s.taskId, s.contextId, Known(s.state), CodeToMetadata(s.errorCode))
  }

  function StatusEvents(before: TaskSnapshot, s: TaskSnapshot): seq<StreamResponse>
  {
    if before.state != s.state || before.errorCode != s.errorCode then [StatusEvent(s)] else []
  }

  /** `snapshot_events`: what one snapshot adds to the queue, or why it is refused. */
  function Batch(codec: Codec, server: Server, s: TaskSnapshot): Result<seq<StreamResponse>>
  {
    if !ValidSnapshot(codec, s) then Err(InvalidRequest)
    else if s.taskId != server.taskId || s.contextId != server.contextId then Err(Protocol)
    else if server.previous.None? then
      var task :- SnapshotToWire(codec, s);
      Ok([TaskEvent(task)])
    else
      var before := server.previous.value;
      if exists i :: 0 <= i < |before.artifacts| && !HasId(s.artifacts, before.artifacts[i].id) then Err(Protocol)
      else Ok(ArtifactEvents(s, Changed(before.artifacts, s.artifacts)) + StatusEvents(before, s))
  }

  function Served(server: Server, s: TaskSnapshot): Server
  {
    server.(previous := Some(s), done := Ends(s.state, server.stopOnInterrupted))
  }

  /** The events of a whole error-free run. A server that is done reads no further snapshot. */
  datatype ServerRun = Refused | Emitted(server: Server, events: seq<StreamResponse>)

  function Serve(codec: Codec, server: Server, snapshots: seq<TaskSnapshot>): ServerRun
    decreases |snapshots|
  {
    if snapshots == [] || server.done then Emitted(server, [])
    else
      match Batch(codec, server, snapshots[0])
      case Err(_) => Refused
      case Ok(events) =>
        match Serve(codec, Served(server, snapshots[0]), snapshots[1..])
        case Refused => Refused
        case Emitted(last, rest) => Emitted(last, events + rest)
  }

  // -- The client ---------------------------------------------------------------------------

  datatype Client = Client(
    previous: Option<TaskSnapshot>,
    expectedTask: Option<string>,
    expectedContext: Option<string>,
    ended: bool,
    endOnInterrupted: bool)

  predicate Expects(expected: Option<string>, id: string)
  {
    expected.None? || expected.value == id
  }

  function Pinned(client: Client, s: TaskSnapshot): Client
  {
    client.(previous := Some(s), expectedTask := Some(s.taskId), expectedContext := Some(s.contextId),
            ended := Ends(s.state, client.endOnInterrupted))
  }

  /** One event read by the client: the next state, or the error that ends the stream. */
  function Receive(codec: Codec, client: Client, event: StreamResponse): Result<Client>
  {
    var s :- Apply(codec, client.previous, event);
    if !Expects(client.expectedTask, s.taskId) || !Expects(client.expectedContext, s.contextId) then Err(Protocol)
    else Ok(Pinned(client, s))
  }

  /** The client reads exactly these events without an error and without ending before the last. */
  function Feed(codec: Codec, client: Client, events: seq<StreamResponse>): Option<Client>
    decreases |events|
  {
    if events == [] then Some(client)
    else if client.ended then None
    else
      match Receive(codec, client, events[0])
      case Err(_) => None
      case Ok(next) => Feed(codec, next, events[1..])
  }

  lemma {:induction false} FeedConcat(codec: Codec, client: Client, a: seq<StreamResponse>, b: seq<StreamResponse>)
    ensures Feed(codec, client, a + b) ==
            match Feed(codec, client, a)
            case None => None
            case Some(mid) => Feed(codec, mid, b)
    decreases |a|
  {
    hide Receive;
    if a == [] {
      assert a + b == b;
    } else {
      assert (a + b)[0] == a[0] && (a + b)[1..] == a[1..] + b;
      if !client.ended && Receive(codec, client, a[0]).Ok? {
        FeedConcat(codec, Receive(codec, client, a[0]).value, a[1..], b);
      }
    }
  }

  // -- Artifact lists as sets by id -----------------------------------------------------------

  predicate DistinctIds(artifacts: seq<TaskArtifact>)
  {
    forall i, j :: 0 <= i < j < |artifacts| ==> artifacts[i].id != artifacts[j].id
  }

  /** The same artifacts in some order. With distinct ids: the same artifact per id. */
  ghost predicate SameArtifacts(a: seq<TaskArtifact>, b: seq<TaskArtifact>)
  {
    forall x :: x in a <==> x in b
  }

  lemma UpsertIsUpdate(artifacts: seq<TaskArtifact>, artifact: TaskArtifact)
    requires DistinctIds(artifacts)
    ensures var after := Upsert(artifacts, artifact, false);
            && DistinctIds(after)
            && (forall x :: x in after <==> x == artifact || (x in artifacts && x.id != artifact.id))
  {
    var i := IndexOf(artifacts, artifact.id);
    var after := Upsert(artifacts, artifact, false);
    if i < |artifacts| {
      forall x | x in artifacts && x.id != artifact.id ensures x in after {
        var j :| 0 <= j < |artifacts| && artifacts[j] == x;
        assert after[j] == x;
      }
      assert after[i] == artifact;
      forall x | x in after && x != artifact ensures x in artifacts && x.id != artifact.id {
        var j :| 0 <= j < |after| && after[j] == x;
        assert j != i && artifacts[j] == x;
      }
    }
  }

  function UpsertAll(artifacts: seq<TaskArtifact>, changed: seq<TaskArtifact>): seq<TaskArtifact>
  {
    if changed == [] then artifacts
    else Upsert(UpsertAll(artifacts, changed[..|changed| - 1]), changed[|changed| - 1], false)
  }

  lemma {:induction false} UpsertAllIsUpdate(artifacts: seq<TaskArtifact>, changed: seq<TaskArtifact>)
    requires DistinctIds(artifacts) && DistinctIds(changed)
    ensures var after := UpsertAll(artifacts, changed);
            && DistinctIds(after)
            && (forall x :: x in after <==> x in changed || (x in artifacts && !HasId(changed, x.id)))
  {
    hide Upsert;
    if changed != [] {
      var front, last := changed[..|changed| - 1], changed[|changed| - 1];
      UpsertAllIsUpdate(artifacts, front);
      UpsertIsUpdate(UpsertAll(artifacts, front), last);
      assert changed == front + [last];
      forall x ensures HasId(changed, x) <==> HasId(front, x) || last.id == x {
        HasIdSnoc(front, last, x);
      }
      forall x | x in front ensures x.id != last.id {
        var i :| 0 <= i < |front| && front[i] == x;
        assert changed[i].id != changed[|changed| - 1].id;
      }
    }
  }

  lemma HasIdSnoc(front: seq<TaskArtifact>, last: TaskArtifact, id: string)
    ensures HasId(front + [last], id) <==> HasId(front, id) || last.id == id
  {
    var all := front + [last];
    if HasId(front, id) {
      var i :| 0 <= i < |front| && front[i].id == id;
      assert all[i].id == id;
    }
    if last.id == id {
      assert all[|front|].id == id;
    }
  }

  lemma {:induction false} ChangedIs(before: seq<TaskArtifact>, artifacts: seq<TaskArtifact>)
    ensures forall x :: x in Changed(before, artifacts) <==> x in artifacts && x !in before
    ensures DistinctIds(artifacts) ==> DistinctIds(Changed(before, artifacts))
  {
    if artifacts != [] {
      var front, last := artifacts[..|artifacts| - 1], artifacts[|artifacts| - 1];
      ChangedIs(before, front);
      assert artifacts == front + [last];
      if DistinctIds(artifacts) {
        forall x | x in Changed(before, front) ensures x.id != last.id {
          var i :| 0 <= i < |front| && front[i] == x;
          assert artifacts[i].id != artifacts[|artifacts| - 1].id;
        }
      }
    }
  }

  lemma HasIdIs(artifacts: seq<TaskArtifact>, id: string)
    ensures HasId(artifacts, id) <==> exists x :: x in artifacts && x.id == id
  {
    if x :| x in artifacts && x.id == id {
      var i :| 0 <= i < |artifacts| && artifacts[i] == x;
    }
  }

  lemma SameIdSame(artifacts: seq<TaskArtifact>, x: TaskArtifact, y: TaskArtifact)
    requires DistinctIds(artifacts) && x in artifacts && y in artifacts && x.id == y.id
    ensures x == y
  {
    var i :| 0 <= i < |artifacts| && artifacts[i] == x;
    var j :| 0 <= j < |artifacts| && artifacts[j] == y;
  }

  /** Applying the changed artifacts to the old list yields the artifacts of the new snapshot. */
  lemma UpdateReachesNew(before: seq<TaskArtifact>, after: seq<TaskArtifact>)
    requires DistinctIds(before) && DistinctIds(after)
    requires forall i :: 0 <= i < |before| ==> HasId(after, before[i].id)
    ensures SameArtifacts(UpsertAll(before, Changed(before, after)), after)
  {
    var changed := Changed(before, after);
    ChangedIs(before, after);
    UpsertAllIsUpdate(before, changed);
    forall x | x in after && x in before ensures !HasId(changed, x.id) {
      HasIdIs(changed, x.id);
      if y :| y in changed && y.id == x.id {
        SameIdSame(after, x, y);
      }
    }
    forall x | x in before && !HasId(changed, x.id) ensures x in after {
      var i :| 0 <= i < |before| && before[i] == x;
      HasIdIs(after, x.id);
      var y :| y in after && y.id == x.id;
      HasIdIs(changed, x.id);
      SameIdSame(before, x, y);
    }
  }

  /** The same update of the same artifacts gives the same artifacts, whatever the order. */
  lemma SameUpdate(a: seq<TaskArtifact>, b: seq<TaskArtifact>, changed: seq<TaskArtifact>)
    requires DistinctIds(a) && DistinctIds(b) && DistinctIds(changed) && SameArtifacts(a, b)
    ensures SameArtifacts(UpsertAll(a, changed), UpsertAll(b, changed))
    ensures DistinctIds(UpsertAll(a, changed)) && DistinctIds(UpsertAll(b, changed))
  {
    UpsertAllIsUpdate(a, changed);
    UpsertAllIsUpdate(b, changed);
  }

  // -- Sizes do not depend on the order ----------------------------------------------------------

  lemma {:induction false} SizeWithout(codec: Codec, artifacts: seq<TaskArtifact>, i: nat)
    requires i < |artifacts|
    ensures var rest := artifacts[..i] + artifacts[i + 1..];
            ArtifactsSize(codec, artifacts) ==
            ArtifactsSize(codec, rest) + codec.artifactSize(artifacts[i]) + (if rest == [] then 0 else 1)
  {
    var front, last := artifacts[..|artifacts| - 1], artifacts[|artifacts| - 1];
    var rest := artifacts[..i] + artifacts[i + 1..];
    if i == |artifacts| - 1 {
      assert rest == front;
    } else {
      SizeWithout(codec, front, i);
      assert rest[..|rest| - 1] == front[..i] + front[i + 1..];
      assert rest[|rest| - 1] == last;
    }
  }

  lemma {:induction false} SameSize(codec: Codec, a: seq<TaskArtifact>, b: seq<TaskArtifact>)
    requires DistinctIds(a) && DistinctIds(b) && SameArtifacts(a, b)
    ensures |a| == |b| && ArtifactsSize(codec, a) == ArtifactsSize(codec, b)
    decreases |a|
  {
    assert |b| > 0 ==> b[0] in a;
    if a != [] {
      var front, last := a[..|a| - 1], a[|a| - 1];
      assert last in b;
      var i :| 0 <= i < |b| && b[i] == last;
      SameWithout(a, b, i);
      SameSize(codec, front, b[..i] + b[i + 1..]);
      SizeWithout(codec, b, i);
    }
  }

  /** Taking one artifact out of two lists with the same artifacts. */
  lemma SameWithout(a: seq<TaskArtifact>, b: seq<TaskArtifact>, i: nat)
    requires DistinctIds(a) && DistinctIds(b) && SameArtifacts(a, b)
    requires a != [] && i < |b| && b[i] == a[|a| - 1]
    ensures var front, rest := a[..|a| - 1], b[..i] + b[i + 1..];
            DistinctIds(front) && DistinctIds(rest) && SameArtifacts(front, rest)
  {
    var front, last, rest := a[..|a| - 1], a[|a| - 1], b[..i] + b[i + 1..];
    assert last !in front && last !in rest;
    forall x
      ensures x in front <==> x in rest
    {
      assert x in a <==> x in front || x == last;
      assert x in b <==> x in rest || x == last;
    }
  }

  // -- One batch ------------------------------------------------------------------------------

  /** What the client holds after the first `k` changed artifacts of a batch. */
  function Mixture(before: TaskSnapshot, changed: seq<TaskArtifact>, k: nat): TaskSnapshot
    requires k <= |changed|
  {
    before.(artifacts := UpsertAll(before.artifacts, changed[..k]))
  }

  /** Each mixture of old and new artifacts on the way to a snapshot fits the size bound. The
      server can tell from the two snapshots. */
  predicate MixturesFit(codec: Codec, before: TaskSnapshot, s: TaskSnapshot)
  {
    var changed := Changed(before.artifacts, s.artifacts);
    forall k :: 0 < k <= |changed| ==> SnapshotSize(codec, Mixture(before, changed, k)) <= MAX_TASK_WIRE_BYTES / 2
  }

  ghost predicate Agree(codec: Codec, p: TaskSnapshot, c: TaskSnapshot)
  {
    && c.taskId == p.taskId && c.contextId == p.contextId
    && c.state == p.state && c.errorCode == p.errorCode
    && DistinctIds(p.artifacts) && DistinctIds(c.artifacts) && SameArtifacts(p.artifacts, c.artifacts)
    && ValidSnapshotFields(codec, p)
  }

  /** Server and client are in step: same mode, same end, same task, and the client holds what the
      server last reported. */
  ghost predicate InStep(codec: Codec, server: Server, client: Client)
  {
    && client.endOnInterrupted == server.stopOnInterrupted
    && client.ended == server.done
    && Expects(client.expectedTask, server.taskId) && Expects(client.expectedContext, server.contextId)
    && (server.previous.None? ==> client.previous.None? && !server.done)
    && (server.previous.Some? ==>
          && client.previous.Some?
          && Agree(codec, server.previous.value, client.previous.value)
          && server.previous.value.taskId == server.taskId && server.previous.value.contextId == server.contextId
          && server.done == Ends(server.previous.value.state, server.stopOnInterrupted))
  }

  lemma FieldsAreValid(codec: Codec, s: TaskSnapshot)
    requires ValidSnapshotFields(codec, s)
    ensures forall x :: x in s.artifacts ==> ValidArtifact(codec, x)
  {
    hide ValidArtifact, ValidIdentifier;
  }

  function Ids(artifacts: seq<TaskArtifact>): set<string>
  {
    set x | x in artifacts :: x.id
  }

  lemma {:induction false} DistinctIdsCount(artifacts: seq<TaskArtifact>)
    requires DistinctIds(artifacts)
    ensures |Ids(artifacts)| == |artifacts|
  {
    if artifacts != [] {
      var front, last := artifacts[..|artifacts| - 1], artifacts[|artifacts| - 1];
      DistinctIdsCount(front);
      assert artifacts == front + [last];
      assert Ids(artifacts) == Ids(front) + {last.id};
      assert last.id !in Ids(front) by {
        assert forall i :: 0 <= i < |front| ==> front[i] == artifacts[i] && artifacts[i].id != last.id;
      }
    }
  }

  /** A mixture has no more artifacts than the new snapshot, and all of them are valid. */
  lemma MixtureFields(codec: Codec, before: TaskSnapshot, s: TaskSnapshot, c: TaskSnapshot, changed: seq<TaskArtifact>)
    requires ValidSnapshotFields(codec, before) && ValidSnapshotFields(codec, s)
    requires Agree(codec, before, c) && DistinctIds(s.artifacts) && DistinctIds(changed)
    requires forall x :: x in changed ==> x in s.artifacts
    requires forall i :: 0 <= i < |before.artifacts| ==> HasId(s.artifacts, before.artifacts[i].id)
    ensures ValidSnapshotFields(codec, c.(artifacts := UpsertAll(c.artifacts, changed)))
    ensures ArtifactsSize(codec, UpsertAll(c.artifacts, changed)) ==
            ArtifactsSize(codec, UpsertAll(before.artifacts, changed))
  {
    hide ValidArtifact, ValidIdentifier, ArtifactsSize;
    FieldsAreValid(codec, before);
    FieldsAreValid(codec, s);
    var after := UpsertAll(c.artifacts, changed);
    UpsertAllIsUpdate(c.artifacts, changed);
    SameUpdate(before.artifacts, c.artifacts, changed);
    SameSize(codec, UpsertAll(before.artifacts, changed), after);
    assert Ids(after) <= Ids(s.artifacts) by {
      forall x | x in after ensures x.id in Ids(s.artifacts) {
        if x !in changed {
          var i :| 0 <= i < |before.artifacts| && before.artifacts[i] == x;
          HasIdIs(s.artifacts, x.id);
        }
      }
    }
    DistinctIdsCount(after);
    DistinctIdsCount(s.artifacts);
    SubsetSize(Ids(after), Ids(s.artifacts));
    assert forall i :: 0 <= i < |after| ==> after[i] in after;
  }

  /** One artifact event: the client accepts it exactly if the mixture it leads to is valid. */
  lemma ReceiveArtifact(codec: Codec, client: Client, s: TaskSnapshot, artifact: TaskArtifact)
    requires client.previous.Some? && client.previous.value.taskId == s.taskId
    requires client.previous.value.contextId == s.contextId && ValidArtifact(codec, artifact)
    requires Expects(client.expectedTask, s.taskId) && Expects(client.expectedContext, s.contextId)
    ensures var c := client.previous.value;
            var next := c.(artifacts := Upsert(c.artifacts, artifact, false));
            Receive(codec, client, ArtifactEvent(s, artifact)) ==
            if ValidSnapshot(codec, next) then Ok(Pinned(client, next)) else Err(InvalidRequest)
  {
    hide ValidSnapshot, ValidArtifact, ArtifactToWire, ArtifactFromWire, Upsert;
    ArtifactRoundTrip(codec, artifact);
  }

  /** All artifact events of a batch, one after the other. */
  lemma {:induction false} FeedArtifacts(codec: Codec, client: Client, s: TaskSnapshot, changed: seq<TaskArtifact>)
    requires client.previous.Some? && client.previous.value.taskId == s.taskId
    requires client.previous.value.contextId == s.contextId
    requires forall x :: x in changed ==> ValidArtifact(codec, x)
    requires Expects(client.expectedTask, s.taskId) && Expects(client.expectedContext, s.contextId)
    requires !client.ended && !Ends(client.previous.value.state, client.endOnInterrupted)
    ensures var c := client.previous.value;
            var last := c.(artifacts := UpsertAll(c.artifacts, changed));
            Feed(codec, client, ArtifactEvents(s, changed)) ==
            if (forall k :: 0 < k <= |changed| ==> ValidSnapshot(codec, Mixture(c, changed, k)))
            then Some(if changed == [] then client else Pinned(client, last)) else None
    decreases |changed|
  {
    hide ValidSnapshot, ValidArtifact, Receive, Upsert, ArtifactEvent;
    var c := client.previous.value;
    var events := ArtifactEvents(s, changed);
    if changed != [] {
      var n := |changed| - 1;
      var front, last := changed[..n], changed[n];
      FeedArtifacts(codec, client, s, front);
      assert events == ArtifactEvents(s, front) + [ArtifactEvent(s, last)];
      FeedConcat(codec, client, ArtifactEvents(s, front), [ArtifactEvent(s, last)]);
      assert forall k :: 0 < k <= n ==> front[..k] == changed[..k];
      assert changed[..|changed|] == changed;
      var mid := if front == [] then client else Pinned(client, c.(artifacts := UpsertAll(c.artifacts, front)));
      NothingChanged(c.artifacts);
      assert mid.previous.value == c.(artifacts := UpsertAll(c.artifacts, front));
      ReceiveArtifact(codec, mid, s, last);
      FeedOne(codec, mid, ArtifactEvent(s, last));
      assert Mixture(c, changed, n + 1) == c.(artifacts := UpsertAll(c.artifacts, changed));
      if forall k :: 0 < k <= n ==> ValidSnapshot(codec, Mixture(c, front, k)) {
        assert forall k :: 0 < k <= n ==> Mixture(c, front, k) == Mixture(c, changed, k);
      } else {
        var k :| 0 < k <= n && !ValidSnapshot(codec, Mixture(c, front, k));
        assert !ValidSnapshot(codec, Mixture(c, changed, k));
      }
    }
  }

  lemma FeedOne(codec: Codec, client: Client, event: StreamResponse)
    requires !client.ended
    ensures Feed(codec, client, [event]) ==
            match Receive(codec, client, event) case Ok(next) => Some(next) case Err(_) => None
  {
    hide Receive;
    assert [event][1..] == [];
  }

  lemma CodeRoundTrip(code: Option<string>)
    ensures CodeFromMetadata(CodeToMetadata(code)) == code
  {
  }

  /** The status event that closes a batch is always accepted. */
  lemma ReceiveStatus(codec: Codec, client: Client, s: TaskSnapshot)
    requires client.previous.Some? && client.previous.value.taskId == s.taskId
    requires client.previous.value.contextId == s.contextId
    requires Expects(client.expectedTask, s.taskId) && Expects(client.expectedContext, s.contextId)
    requires ValidSnapshot(codec, client.previous.value.(state := s.state, errorCode := s.errorCode))
    ensures Receive(codec, client, StatusEvent(s)) ==
            Ok(Pinned(client, client.previous.value.(state := s.state, errorCode := s.errorCode)))
  {
    hide ValidSnapshot, CodeFromMetadata, CodeToMetadata;
    CodeRoundTrip(s.errorCode);
  }

  /** The client's mixtures are valid exactly if the server's mixtures fit. */
  lemma MixturesAreValid(codec: Codec, before: TaskSnapshot, s: TaskSnapshot, c: TaskSnapshot)
    requires ValidSnapshotFields(codec, s) && Agree(codec, before, c) && DistinctIds(s.artifacts)
    requires forall i :: 0 <= i < |before.artifacts| ==> HasId(s.artifacts, before.artifacts[i].id)
    ensures var changed := Changed(before.artifacts, s.artifacts);
            (forall k :: 0 < k <= |changed| ==> ValidSnapshot(codec, Mixture(c, changed, k))) <==>
            MixturesFit(codec, before, s)
  {
    hide ValidSnapshot, SnapshotSize, UpsertAll;
    var changed := Changed(before.artifacts, s.artifacts);
    if MixturesFit(codec, before, s) {
      forall k | 0 < k <= |changed| ensures ValidSnapshot(codec, Mixture(c, changed, k)) {
        assert SnapshotSize(codec, Mixture(before, changed, k)) <= MAX_TASK_WIRE_BYTES / 2;
        MixtureIsValid(codec, before, s, c, k);
      }
    } else {
      var k :| 0 < k <= |changed| && SnapshotSize(codec, Mixture(before, changed, k)) > MAX_TASK_WIRE_BYTES / 2;
      MixtureIsValid(codec, before, s, c, k);
    }
  }

  lemma MixtureIsValid(codec: Codec, before: TaskSnapshot, s: TaskSnapshot, c: TaskSnapshot, k: nat)
    requires ValidSnapshotFields(codec, s) && Agree(codec, before, c) && DistinctIds(s.artifacts)
    requires forall i :: 0 <= i < |before.artifacts| ==> HasId(s.artifacts, before.artifacts[i].id)
    requires k <= |Changed(before.artifacts, s.artifacts)|
    ensures var changed := Changed(before.artifacts, s.artifacts);
            ValidSnapshot(codec, Mixture(c, changed, k)) <==>
            SnapshotSize(codec, Mixture(before, changed, k)) <= MAX_TASK_WIRE_BYTES / 2
  {
    hide ValidSnapshotFields, ArtifactsSize, UpsertAll;
    var changed := Changed(before.artifacts, s.artifacts);
    ChangedIs(before.artifacts, s.artifacts);
    MixtureFields(codec, before, s, c, changed[..k]);
  }

  /** The artifacts of a batch lead the client to the artifacts of the snapshot. */
  lemma ArtifactsArrive(codec: Codec, before: TaskSnapshot, s: TaskSnapshot, c: TaskSnapshot)
    requires ValidSnapshot(codec, s) && Agree(codec, before, c) && DistinctIds(s.artifacts)
    requires forall i :: 0 <= i < |before.artifacts| ==> HasId(s.artifacts, before.artifacts[i].id)
    ensures var after := UpsertAll(c.artifacts, Changed(before.artifacts, s.artifacts));
            var next := c.(artifacts := after, state := s.state, errorCode := s.errorCode);
            && DistinctIds(after) && SameArtifacts(s.artifacts, after)
            && (c.taskId == s.taskId && c.contextId == s.contextId ==>
                  Agree(codec, s, next) && ValidSnapshot(codec, next))
  {
    hide ValidSnapshotFields, Changed, ArtifactsSize, UpsertAll;
    var changed := Changed(before.artifacts, s.artifacts);
    ChangedIs(before.artifacts, s.artifacts);
    SameUpdate(before.artifacts, c.artifacts, changed);
    UpdateReachesNew(before.artifacts, s.artifacts);
    var after := UpsertAll(c.artifacts, changed);
    SameSize(codec, s.artifacts, after);
    if c.taskId == s.taskId && c.contextId == s.contextId {
      SameFieldsValid(codec, s, s.(artifacts := after));
    }
  }

  lemma SameFieldsValid(codec: Codec, a: TaskSnapshot, b: TaskSnapshot)
    requires ValidSnapshotFields(codec, a) && b == a.(artifacts := b.artifacts)
    requires |a.artifacts| == |b.artifacts| && SameArtifacts(a.artifacts, b.artifacts)
    ensures ValidSnapshotFields(codec, b)
  {
    hide ValidArtifact, ValidIdentifier;
    FieldsAreValid(codec, a);
    assert forall i :: 0 <= i < |b.artifacts| ==> b.artifacts[i] in b.artifacts;
  }

  lemma ValidMeansFields(codec: Codec, s: TaskSnapshot)
    requires ValidSnapshot(codec, s)
    ensures ValidSnapshotFields(codec, s)
  {
  }

  /** The first snapshot is one task event, which the client takes over as it is. */
  lemma FirstBatch(codec: Codec, server: Server, client: Client, s: TaskSnapshot)
    requires InStep(codec, server, client) && server.previous.None? && DistinctIds(s.artifacts)
    requires Batch(codec, server, s).Ok?
    ensures Feed(codec, client, Batch(codec, server, s).value) == Some(Pinned(client, s))
    ensures InStep(codec, Served(server, s), Pinned(client, s))
  {
    hide ValidSnapshot, SnapshotFromWire;
    var task := SnapshotToWire(codec, s).value;
    SnapshotRoundTrip(codec, s);
    ValidMeansFields(codec, s);
    FeedOne(codec, client, TaskEvent(task));
  }

  /** A later snapshot: the client follows exactly if the mixtures fit, and is then in step. */
  lemma LaterBatch(codec: Codec, server: Server, client: Client, s: TaskSnapshot)
    requires InStep(codec, server, client) && server.previous.Some? && !server.done && DistinctIds(s.artifacts)
    requires Batch(codec, server, s).Ok?
    ensures var fed := Feed(codec, client, Batch(codec, server, s).value);
            && (fed.Some? <==> MixturesFit(codec, server.previous.value, s))
            && (fed.Some? ==> InStep(codec, Served(server, s), fed.value))
            && (fed.Some? ==>
                  var changed := Changed(server.previous.value.artifacts, s.artifacts);
                  fed.value.previous.value.artifacts == UpsertAll(client.previous.value.artifacts, changed))
  {
    hide ValidSnapshot, UpsertAll, MixturesFit, ArtifactEvents, Receive, ValidSnapshotFields,
         SameArtifacts, DistinctIds, HasId, StatusEvent;
    var before, c := server.previous.value, client.previous.value;
    var changed := Changed(before.artifacts, s.artifacts);
    ValidMeansFields(codec, s);
    ChangedAreValid(codec, before.artifacts, s);
    FeedArtifacts(codec, client, s, changed);
    MixturesAreValid(codec, before, s, c);
    FeedConcat(codec, client, ArtifactEvents(s, changed), StatusEvents(before, s));
    if MixturesFit(codec, before, s) {
      ArtifactsArrive(codec, before, s, c);
      var after := c.(artifacts := UpsertAll(c.artifacts, changed));
      var mid := if changed == [] then client else Pinned(client, after);
      NothingChanged(c.artifacts);
      assert mid.previous == Some(after);
      if StatusEvents(before, s) != [] {
        ReceiveStatus(codec, mid, s);
        FeedOne(codec, mid, StatusEvent(s));
      }
    }
  }

  lemma NothingChanged(artifacts: seq<TaskArtifact>)
    ensures UpsertAll(artifacts, []) == artifacts
  {
  }

  lemma ChangedAreValid(codec: Codec, before: seq<TaskArtifact>, s: TaskSnapshot)
    requires ValidSnapshotFields(codec, s)
    ensures forall x :: x in Changed(before, s.artifacts) ==> ValidArtifact(codec, x)
  {
    hide ValidArtifact, ValidIdentifier;
    FieldsAreValid(codec, s);
    ChangedIs(before, s.artifacts);
  }

  // -- Whole runs ---------------------------------------------------------------------------------

  /** Every step of a run can be delivered. */
  predicate Deliverable(codec: Codec, server: Server, snapshots: seq<TaskSnapshot>)
    decreases |snapshots|
  {
    snapshots == [] || server.done ||
    ((server.previous.Some? ==> MixturesFit(codec, server.previous.value, snapshots[0])) &&
     Deliverable(codec, Served(server, snapshots[0]), snapshots[1..]))
  }

  /** Delta streaming simulates full snapshots, and server and client end together. Over every run
      in which the server refuses nothing, with distinct artifact ids in each snapshot and matching
      interruption modes: the client reads all events, without an error and without ending before
      the last one, exactly if every mixture on the way fits the size bound. It then holds the
      identity, state, error code and artifact per id that the server last reported, and it has
      ended exactly if the server is done. */
  lemma {:induction false} ClientFollowsServer(codec: Codec, server: Server, client: Client, snapshots: seq<TaskSnapshot>)
    requires InStep(codec, server, client)
    requires forall i :: 0 <= i < |snapshots| ==> DistinctIds(snapshots[i].artifacts)
    requires Serve(codec, server, snapshots).Emitted?
    ensures var run := Serve(codec, server, snapshots);
            var fed := Feed(codec, client, run.events);
            && (fed.Some? <==> Deliverable(codec, server, snapshots))
            && (fed.Some? ==> InStep(codec, run.server, fed.value))
    decreases |snapshots|
  {
    hide InStep, Batch, MixturesFit, DistinctIds, Receive;
    if snapshots != [] && !server.done {
      var s := snapshots[0];
      var events := Batch(codec, server, s).value;
      var rest := Serve(codec, Served(server, s), snapshots[1..]);
      FeedConcat(codec, client, events, rest.events);
      if server.previous.None? {
        FirstBatch(codec, server, client, s);
      } else {
        LaterBatch(codec, server, client, s);
      }
      var fed := Feed(codec, client, events);
      if fed.Some? {
        ClientFollowsServer(codec, Served(server, s), fed.value, snapshots[1..]);
      }
    }
  }

  /** A stream just opened on both sides is in step. */
  lemma OpenedInStep(codec: Codec, taskId: string, contextId: string, expectedTask: Option<string>,
                     expectedContext: Option<string>, onInterrupted: bool)
    requires Expects(expectedTask, taskId) && Expects(expectedContext, contextId)
    ensures InStep(codec, Server.Server(taskId, contextId, None, false, onInterrupted),
                   Client.Client(None, expectedTask, expectedContext, false, onInterrupted))
  {
  }

  // -- List order -----------------------------------------------------------------------------------

  /** The ids of the new list continue those of the old one. */
  predicate Extends(before: seq<TaskArtifact>, after: seq<TaskArtifact>)
  {
    |before| <= |after| && forall i :: 0 <= i < |before| ==> after[i].id == before[i].id
  }

  predicate AllExtend(before: seq<TaskArtifact>, snapshots: seq<TaskSnapshot>)
    decreases |snapshots|
  {
    snapshots == [] ||
    (Extends(before, snapshots[0].artifacts) && AllExtend(snapshots[0].artifacts, snapshots[1..]))
  }

  function Tail(before: seq<TaskArtifact>, k: nat): seq<TaskArtifact>
  {
    if k <= |before| then before[k..] else []
  }

  /** Writing the artifact at position `k` of the new list into the partly updated old one. */
  lemma UpsertInPlace(before: seq<TaskArtifact>, after: seq<TaskArtifact>, k: nat)
    requires DistinctIds(after) && Extends(before, after) && k < |after|
    ensures Upsert(after[..k] + Tail(before, k), after[k], false) == after[..k + 1] + Tail(before, k + 1)
  {
    hide Upsert;
    var list, x := after[..k] + Tail(before, k), after[k];
    assert forall j :: 0 <= j < k ==> list[j] == after[j] && after[j].id != x.id;
    if k < |before| {
      assert list[k] == before[k];
      UpsertAt(list, x, k);
      Spliced(after, before, k);
    } else {
      assert list == after[..k];
      UpsertAt(list, x, k);
      assert list + [x] == after[..k + 1] + Tail(before, k + 1);
    }
  }

  lemma Spliced<T>(after: seq<T>, before: seq<T>, k: nat)
    requires k < |after| && k < |before|
    ensures (after[..k] + before[k..])[k := after[k]] == after[..k + 1] + before[k + 1..]
  {
  }

  /** The first artifact of an id is the one replaced. */
  lemma UpsertAt(list: seq<TaskArtifact>, x: TaskArtifact, k: nat)
    requires k <= |list| && (k < |list| ==> list[k].id == x.id)
    requires forall j :: 0 <= j < k ==> list[j].id != x.id
    ensures Upsert(list, x, false) == if k < |list| then list[k := x] else list + [x]
  {
    hide IndexOf;
    assert IndexOf(list, x.id) == k;
  }

  /** An artifact the old list already has sits at its position there. */
  lemma KeptInPlace(before: seq<TaskArtifact>, after: seq<TaskArtifact>, k: nat)
    requires DistinctIds(after) && Extends(before, after) && k < |after| && after[k] in before
    ensures after[..k] + Tail(before, k) == after[..k + 1] + Tail(before, k + 1)
  {
    var j :| 0 <= j < |before| && before[j] == after[k];
    assert after[j].id == after[k].id;
    assert j == k;
  }

  /** After the first `k` new artifacts the client's list is those, then the rest of the old list. */
  lemma {:induction false} UpdatedInPlace(before: seq<TaskArtifact>, after: seq<TaskArtifact>, k: nat)
    requires DistinctIds(after) && Extends(before, after) && k <= |after|
    ensures UpsertAll(before, Changed(before, after[..k])) == after[..k] + Tail(before, k)
  {
    hide Upsert, DistinctIds, Extends, Tail;
    if k == 0 {
      TailIsAll(before);
      assert after[..k] + before == before;
    } else {
      UpdatedInPlace(before, after, k - 1);
      var x := after[k - 1];
      assert after[..k][..k - 1] == after[..k - 1];
      if x in before {
        KeptInPlace(before, after, k - 1);
      } else {
        var done := Changed(before, after[..k - 1]);
        assert (done + [x])[..|done|] == done;
        UpsertInPlace(before, after, k - 1);
      }
    }
  }

  lemma TailIsAll(before: seq<TaskArtifact>)
    ensures Tail(before, 0) == before
  {
  }

  /** If the ids of each snapshot continue those of the one before, the client's snapshot is the
      server's, list order included. */
  lemma {:induction false} ClientKeepsOrder(codec: Codec, server: Server, client: Client, snapshots: seq<TaskSnapshot>)
    requires InStep(codec, server, client) && client.previous == server.previous
    requires forall i :: 0 <= i < |snapshots| ==> DistinctIds(snapshots[i].artifacts)
    requires AllExtend(if server.previous.Some? then server.previous.value.artifacts else [], snapshots)
    requires Serve(codec, server, snapshots).Emitted? && Deliverable(codec, server, snapshots)
    ensures Feed(codec, client, Serve(codec, server, snapshots).events).Some?
    ensures Feed(codec, client, Serve(codec, server, snapshots).events).value.previous ==
            Serve(codec, server, snapshots).server.previous
    decreases |snapshots|
  {
    hide Batch, MixturesFit, DistinctIds, Receive, Extends, Changed, UpsertAll;
    if snapshots != [] && !server.done {
      var s := snapshots[0];
      var events := Batch(codec, server, s).value;
      FeedConcat(codec, client, events, Serve(codec, Served(server, s), snapshots[1..]).events);
      if server.previous.None? {
        FirstBatch(codec, server, client, s);
      } else {
        LaterBatch(codec, server, client, s);
        FullUpdate(server.previous.value.artifacts, s.artifacts);
      }
      var fed := Feed(codec, client, events).value;
      SamePrevious(codec, Served(server, s), fed);
      ClientKeepsOrder(codec, Served(server, s), fed, snapshots[1..]);
    }
  }

  lemma FullUpdate(before: seq<TaskArtifact>, after: seq<TaskArtifact>)
    requires DistinctIds(after) && Extends(before, after)
    ensures UpsertAll(before, Changed(before, after)) == after
  {
    UpdatedInPlace(before, after, |after|);
    assert after[..|after|] == after;
  }

  lemma SamePrevious(codec: Codec, server: Server, client: Client)
    requires InStep(codec, server, client) && server.previous.Some?
    requires client.previous.value.artifacts == server.previous.value.artifacts
    ensures client.previous == server.previous
  {
  }

  // -- What the two preconditions exclude ------------------------------------------------------------

  /** A client can refuse an event of a run in which the server refused nothing. Under every size
      function: an artifact is added while another shrinks, both snapshots are within the bound,
      and the mixture between, which has the old artifact and the new one, is not. */
  lemma MixtureCanBeRefused(codec: Codec, base: TaskSnapshot, large: TaskArtifact, small: TaskArtifact, other: TaskArtifact)
    requires base.artifacts == [] && !base.state.IsTerminal()
    requires large.id == small.id && large != small && other.id != large.id
    requires ValidSnapshot(codec, base.(artifacts := [large]))
    requires ValidSnapshot(codec, base.(artifacts := [other, small]))
    requires SnapshotSize(codec, base.(artifacts := [large, other])) > MAX_TASK_WIRE_BYTES / 2
    ensures var server := Server.Server(base.taskId, base.contextId, None, false, false);
            var snapshots := [base.(artifacts := [large]), base.(artifacts := [other, small])];
            && (forall i :: 0 <= i < |snapshots| ==> DistinctIds(snapshots[i].artifacts))
            && Serve(codec, server, snapshots).Emitted? && !Deliverable(codec, server, snapshots)
  {
    hide ValidSnapshot, SnapshotSize;
    var first, second := base.(artifacts := [large]), base.(artifacts := [other, small]);
    var server := Server.Server(base.taskId, base.contextId, None, false, false);
    assert second.artifacts[1].id == large.id;
    TwoBatches(codec, server, first, second);
    ServeTwo(codec, server, first, second);
    UpdateOfTwo([large], other, small);
    UpsertAt([large], other, 1);
    assert [large] + [other] == [large, other];
    assert Mixture(first, [other, small], 1) == base.(artifacts := [large, other]);
    assert !MixturesFit(codec, first, second);
  }

  /** Two valid snapshots of one task are both accepted, if the first does not end the stream and
      the second keeps its ids. */
  lemma TwoBatches(codec: Codec, server: Server, a: TaskSnapshot, b: TaskSnapshot)
    requires server == Server.Server(a.taskId, a.contextId, None, false, false)
    requires ValidSnapshot(codec, a) && ValidSnapshot(codec, b) && !a.state.IsTerminal()
    requires b.taskId == a.taskId && b.contextId == a.contextId
    requires forall x :: x in a.artifacts ==> HasId(b.artifacts, x.id)
    ensures Batch(codec, server, a).Ok? && !Served(server, a).done && Batch(codec, Served(server, a), b).Ok?
  {
    hide ValidSnapshot;
  }

  /** Why ids have to be distinct. When two artifacts share one and the second changes, server and
      client go through the whole run without an error, and the client then has an artifact that
      the server dropped and lacks one that the server has. */
  lemma RepeatedIdsDiverge(codec: Codec, base: TaskSnapshot, a: TaskArtifact, b: TaskArtifact, c: TaskArtifact)
    requires base.artifacts == [] && !base.state.IsTerminal()
    requires a.id == b.id == c.id && a != b && a != c && b != c
    requires ValidSnapshot(codec, base.(artifacts := [a, b])) && ValidSnapshot(codec, base.(artifacts := [a, c]))
    requires ValidSnapshot(codec, base.(artifacts := [c, b]))
    ensures var server := Server.Server(base.taskId, base.contextId, None, false, false);
            var client := Client.Client(None, None, None, false, false);
            var run := Serve(codec, server, [base.(artifacts := [a, b]), base.(artifacts := [a, c])]);
            && run.Emitted? && run.server.previous == Some(base.(artifacts := [a, c]))
            && Feed(codec, client, run.events).Some?
            && Feed(codec, client, run.events).value.previous == Some(base.(artifacts := [c, b]))
    ensures !SameArtifacts([a, c], [c, b])
  {
    hide ValidSnapshot, ValidArtifact, Receive, ArtifactEvent, Upsert, Feed, Serve, SnapshotToWire;
    var first, second := base.(artifacts := [a, b]), base.(artifacts := [a, c]);
    var server := Server.Server(base.taskId, base.contextId, None, false, false);
    var client := Client.Client(None, None, None, false, false);
    assert second.artifacts[0].id == a.id;
    TwoBatches(codec, server, first, second);
    ServeTwo(codec, server, first, second);
    OpeningEvent(codec, server, client, first);
    SecondChanges(a, b, c);
    var events := Batch(codec, Served(server, first), second).value;
    assert events == [ArtifactEvent(second, c)];
    var pinned := Pinned(client, first);
    ArtifactsAreValid(codec, second);
    assert c in second.artifacts;
    ReceiveArtifact(codec, pinned, second, c);
    FeedOne(codec, pinned, ArtifactEvent(second, c));
    FeedConcat(codec, client, Batch(codec, server, first).value, events);
    assert b in [c, b] && b !in [a, c];
  }

  lemma ArtifactsAreValid(codec: Codec, s: TaskSnapshot)
    requires ValidSnapshot(codec, s)
    ensures forall x :: x in s.artifacts ==> ValidArtifact(codec, x)
  {
    hide ValidArtifact;
  }

  /** The first event of a stream, read by a client that expects nothing yet. */
  lemma OpeningEvent(codec: Codec, server: Server, client: Client, s: TaskSnapshot)
    requires server == Server.Server(s.taskId, s.contextId, None, false, false)
    requires client == Client.Client(None, None, None, false, false)
    requires ValidSnapshot(codec, s) && !s.state.IsTerminal()
    ensures Batch(codec, server, s).Ok? && Feed(codec, client, Batch(codec, server, s).value) == Some(Pinned(client, s))
  {
    hide ValidSnapshot, ArtifactToWire, SnapshotFromWire;
    var event := Batch(codec, server, s).value[0];
    SnapshotRoundTrip(codec, s);
    FeedOne(codec, client, event);
    assert Batch(codec, server, s).value == [event];
  }

  lemma SecondChanges(a: TaskArtifact, b: TaskArtifact, c: TaskArtifact)
    requires a.id == b.id == c.id && a != b && a != c && b != c
    ensures Changed([a, b], [a, c]) == [c] && Upsert([a, b], c, false) == [c, b]
  {
    assert [a, c][..1] == [a] && [a][..0] == [];
    assert Changed([a, b], [a]) == [];
    UpsertAt([a, b], c, 0);
  }

  lemma ServeTwo(codec: Codec, server: Server, a: TaskSnapshot, b: TaskSnapshot)
    requires !server.done && Batch(codec, server, a).Ok?
    requires !Served(server, a).done && Batch(codec, Served(server, a), b).Ok?
    ensures Serve(codec, server, [a, b]) ==
            Emitted(Served(Served(server, a), b),
                    Batch(codec, server, a).value + Batch(codec, Served(server, a), b).value)
    ensures server.previous.None? && Deliverable(codec, server, [a, b]) ==> MixturesFit(codec, a, b)
  {
    hide Batch, MixturesFit, Ends;
    var last := Served(Served(server, a), b);
    assert [a, b][1..] == [b] && [b][1..] == [];
    assert Serve(codec, last, []) == Emitted(last, []);
    assert Serve(codec, Served(server, a), [b]) == Emitted(last, Batch(codec, Served(server, a), b).value);
    assert Deliverable(codec, server, [a, b]) ==> Deliverable(codec, Served(server, a), [b]);
  }

  lemma UpdateOfTwo(before: seq<TaskArtifact>, x: TaskArtifact, y: TaskArtifact)
    requires x !in before && y !in before
    ensures Changed(before, [x, y]) == [x, y]
    ensures UpsertAll(before, [x, y][..1]) == Upsert(before, x, false)
  {
    assert [x, y][..1] == [x] && [x][..0] == [];
    assert Changed(before, [x]) == [x];
  }
}
