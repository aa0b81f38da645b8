/**
 Conversions between task contracts and wire records, and the client's decoder of stream
 updates (crates/vibemux_a2a/src/task_wire.rs).
 */
module Wire {
  import opened Canonical
  import opened Contract
  import opened Options

  datatype WireState = Known(state: TaskState) | Unspecified

  datatype WireContent =
    | TextContent(text: string)
    | DataContent(json: Json)
    | RawContent(bytes: seq<bv8>)
    | UrlContent(url: string)

  datatype WirePart = WirePart(content: WireContent, mediaType: Option<string>, filename: Option<string>)

  datatype WireArtifact = WireArtifact(id: string, name: Option<string>, parts: seq<WirePart>)

  type Metadata = Option<map<string, Json>>

  datatype WireTask = WireTask(
    id: string,
    contextId: string,
    state: WireState,
    artifacts: Option<seq<WireArtifact>>,
    metadata: Metadata)

  datatype StreamResponse =
    | TaskEvent(task: WireTask)
    | StatusUpdate(taskId: string, contextId: string, state: WireState, metadata: Metadata)
    | ArtifactUpdate(taskId: string, contextId: string, artifact: WireArtifact, append: Option<bool>)
    | MessageEvent

  // -- Parts, artifacts and snapshots -------------------------------------------------

  function PartToWire(part: TaskPart): WirePart
  {
    match part
    case Text(text) => WirePart(TextContent(text), None, None)
    case Data(json) => WirePart(DataContent(json), None, None)
    case Raw(bytes, mediaType, filename) => WirePart(RawContent(bytes), mediaType, filename)
    case Url(url, mediaType, filename) => WirePart(UrlContent(url), mediaType, filename)
  }

  function PartFromWire(codec: Codec, part: WirePart): Result<TaskPart>
  {
    var result := match part.content
      case TextContent(text) => Text(text)
      case DataContent(json) => Data(json)
      case RawContent(bytes) => Raw(bytes, part.mediaType, part.filename)
      case UrlContent(url) => Url(url, part.mediaType, part.filename);
    if ValidPart(codec, result) then Ok(result) else Err(InvalidRequest)
  }

  function PartsFromWire(codec: Codec, parts: seq<WirePart>): (r: Result<seq<TaskPart>>)
    ensures r.Ok? ==> |r.value| == |parts|
  {
    if parts == [] then Ok([])
    else
      var before :- PartsFromWire(codec, parts[..|parts| - 1]);
      var last :- PartFromWire(codec, parts[|parts| - 1]);
      Ok(before + [last])
  }

  function ArtifactToWire(artifact: TaskArtifact): WireArtifact
  {
    WireArtifact(artifact.id, artifact.name,
                 seq(|artifact.parts|, i requires 0 <= i < |artifact.parts| => PartToWire(artifact.parts[i])))
  }

  function ArtifactFromWire(codec: Codec, artifact: WireArtifact): Result<TaskArtifact>
  {
    var parts :- PartsFromWire(codec, artifact.parts);
    var result := TaskArtifact(artifact.id, artifact.name, parts);
    if ValidArtifact(codec, result) then Ok(result) else Err(InvalidRequest)
  }

  function ArtifactsFromWire(codec: Codec, artifacts: seq<WireArtifact>): Result<seq<TaskArtifact>>
  {
    if artifacts == [] then Ok([])
    else
      var before :- ArtifactsFromWire(codec, artifacts[..|artifacts| - 1]);
      var last :- ArtifactFromWire(codec, artifacts[|artifacts| - 1]);
      Ok(before + [last])
  }

  const ERROR_CODE := "error_code"

  function CodeToMetadata(code: Option<string>): Metadata
  {
    if code.Some? then Some(map[ERROR_CODE := Str(code.value)]) else None
  }

  function CodeFromMetadata(metadata: Metadata): Option<string>
  {
    if metadata.Some? && ERROR_CODE in metadata.value && metadata.value[ERROR_CODE].Str?
    then Some(metadata.value[ERROR_CODE].text) else None
  }

  function StateFromWire(state: WireState): Result<TaskState>
  {
    match state
    case Known(s) => Ok(s)
    case Unspecified => Err(Protocol)
  }

  function SnapshotToWire(codec: Codec, s: TaskSnapshot): Result<WireTask>
  {
    if !ValidSnapshot(codec, s) then Err(InvalidRequest)
    else Ok(WireTask(s.taskId, s.contextId, Known(s.state),
                     if s.artifacts == [] then None
                     else Some(seq(|s.artifacts|, i requires 0 <= i < |s.artifacts| => ArtifactToWire(s.artifacts[i]))),
                     CodeToMetadata(s.errorCode)))
  }

  function SnapshotFromWire(codec: Codec, task: WireTask): Result<TaskSnapshot>
  {
    var artifacts :- ArtifactsFromWire(codec, if task.artifacts.Some? then task.artifacts.value else []);
    var state :- StateFromWire(task.state);
    var s := TaskSnapshot(task.id, task.contextId, state, artifacts, CodeFromMetadata(task.metadata));
    if ValidSnapshot(codec, s) then Ok(s) else Err(InvalidRequest)
  }

  // -- Round trips -----------------------------------------------------------------------

  lemma {:induction false} PartsRoundTrip(codec: Codec, parts: seq<TaskPart>, wire: seq<WirePart>)
    requires |wire| == |parts| && forall i :: 0 <= i < |parts| ==> wire[i] == PartToWire(parts[i])
    ensures PartsFromWire(codec, wire) ==
            if forall i :: 0 <= i < |parts| ==> ValidPart(codec, parts[i]) then Ok(parts) else Err(InvalidRequest)
  {
    hide ValidPart;
    if parts != [] {
      var last := |parts| - 1;
      PartsRoundTrip(codec, parts[..last], wire[..last]);
      assert parts == parts[..last] + [parts[last]];
      PartRoundTrip(codec, parts[last]);
    }
  }

  lemma PartRoundTrip(codec: Codec, part: TaskPart)
    ensures PartFromWire(codec, PartToWire(part)) == if ValidPart(codec, part) then Ok(part) else Err(InvalidRequest)
  {
  }

  /** An artifact is read back unchanged exactly when it is valid. */
  lemma ArtifactRoundTrip(codec: Codec, artifact: TaskArtifact)
    ensures ArtifactFromWire(codec, ArtifactToWire(artifact)) ==
            if ValidArtifact(codec, artifact) then Ok(artifact) else Err(InvalidRequest)
  {
    hide ValidPart;
    PartsRoundTrip(codec, artifact.parts, ArtifactToWire(artifact).parts);
  }

  lemma {:induction false} ArtifactsRoundTrip(codec: Codec, artifacts: seq<TaskArtifact>, wire: seq<WireArtifact>)
    requires |wire| == |artifacts| && forall i :: 0 <= i < |artifacts| ==> wire[i] == ArtifactToWire(artifacts[i])
    requires forall i :: 0 <= i < |artifacts| ==> ValidArtifact(codec, artifacts[i])
    ensures ArtifactsFromWire(codec, wire) == Ok(artifacts)
  {
    hide ValidArtifact, ArtifactToWire, ArtifactFromWire;
    if artifacts != [] {
      var last := |artifacts| - 1;
      ArtifactsRoundTrip(codec, artifacts[..last], wire[..last]);
      ArtifactRoundTrip(codec, artifacts[last]);
      assert artifacts == artifacts[..last] + [artifacts[last]];
    }
  }

  /** A snapshot that can be sent is read back unchanged. */
  lemma SnapshotRoundTrip(codec: Codec, s: TaskSnapshot)
    requires SnapshotToWire(codec, s).Ok?
    ensures SnapshotFromWire(codec, SnapshotToWire(codec, s).value) == Ok(s)
  {
    hide ValidArtifact, ArtifactToWire, SnapshotSize;
    var task := SnapshotToWire(codec, s).value;
    ArtifactsRoundTrip(codec, s.artifacts, if task.artifacts.Some? then task.artifacts.value else []);
  }

  // -- The decoder --------------------------------------------------------------------------

  function IndexOf(artifacts: seq<TaskArtifact>, id: string): (i: nat)
    ensures i <= |artifacts|
    ensures i < |artifacts| ==> artifacts[i].id == id
    ensures forall j :: 0 <= j < i ==> artifacts[j].id != id
  {
    if artifacts == [] || artifacts[0].id == id then 0 else 1 + IndexOf(artifacts[1..], id)
  }

  /** The first artifact of the same id is extended or replaced; a new one is added at the end. */
  function Upsert(artifacts: seq<TaskArtifact>, artifact: TaskArtifact, append: bool): seq<TaskArtifact>
  {
    var i := IndexOf(artifacts, artifact.id);
    if i == |artifacts| then artifacts + [artifact]
    else if append then artifacts[i := artifacts[i].(parts := artifacts[i].parts + artifact.parts)]
    else artifacts[i := artifact]
  }

  /** The snapshot an event leads to, before it is checked as a whole. */
  function Updated(codec: Codec, previous: Option<TaskSnapshot>, event: StreamResponse): Result<TaskSnapshot>
  {
    match event
    case TaskEvent(task) => SnapshotFromWire(codec, task)
    case StatusUpdate(taskId, contextId, state, metadata) =>
      if previous.None? || previous.value.taskId != taskId || previous.value.contextId != contextId then Err(Protocol)
      else
        var known :- StateFromWire(state);
        Ok(previous.value.(state := known, errorCode := CodeFromMetadata(metadata)))
    case ArtifactUpdate(taskId, contextId, wire, append) =>
      if previous.None? || previous.value.taskId != taskId || previous.value.contextId != contextId then Err(Protocol)
      else
        var artifact :- ArtifactFromWire(codec, wire);
        Ok(previous.value.(artifacts := Upsert(previous.value.artifacts, artifact, append == Some(true))))
    case MessageEvent => Err(Protocol)
  }

  /** `apply_stream_response`: the next snapshot, or an error that changes nothing. */
  function Apply(codec: Codec, previous: Option<TaskSnapshot>, event: StreamResponse): Result<TaskSnapshot>
  {
    var next :- Updated(codec, previous, event);
    if !ValidSnapshot(codec, next) then Err(InvalidRequest)
    else if previous.Some? && (previous.value.taskId != next.taskId || previous.value.contextId != next.contextId)
    then Err(Protocol)
    else Ok(next)
  }
}
