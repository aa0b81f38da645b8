/**
 The bounded task contracts (crates/vibemux_a2a/src/task_contract.rs): states, snapshots,
 listings, their validators, and the serialized sizes the validators bound.
 */
module Contract {
  import opened Options
  import opened Text
  import opened Canonical

  datatype TaskError =
    | InvalidRequest | Unauthorized | Forbidden | NotFound | Unsupported | Busy
    | Deadline | Protocol | Transport | Server | Internal

  datatype Result<+T> = Ok(value: T) | Err(error: TaskError) {
    predicate IsFailure() { Err? }

    function PropagateFailure<U>(): Result<U>
      requires Err?
    {
      Err(error)
    }

    function Extract(): T
      requires Ok?
    {
      value
    }
  }

  const MAX_TASK_WIRE_BYTES: nat := 64 * 1024
  const MAX_TASK_PAYLOAD_BYTES: nat := 16 * 1024
  const MAX_TASK_PARTS: nat := 16
  const MAX_TASK_ARTIFACTS: nat := 16
  const MAX_LISTED_TASKS: nat := 32
  const MAX_I32: nat := 0x7FFF_FFFF

  datatype TaskState =
    | Submitted | Working | Completed | Failed | Canceled | InputRequired | Rejected | AuthRequired
  {
    predicate IsTerminal()
    {
      Completed? || Failed? || Canceled? || Rejected?
    }

    predicate IsInterrupted()
    {
      InputRequired? || AuthRequired?
    }

    function Name(): string
    {
      match this
      case Submitted => "submitted"
      case Working => "working"
      case Completed => "completed"
      case Failed => "failed"
      case Canceled => "canceled"
      case InputRequired => "input_required"
      case Rejected => "rejected"
      case AuthRequired => "auth_required"
    }
  }

  const ERROR_PREFIX := "a2a_task_"

  function ErrorCode(error: TaskError): string
  {
    ERROR_PREFIX + ErrorName(error)
  }

  function ErrorName(error: TaskError): string
  {
    match error
    case InvalidRequest => "invalid_request"
    case Unauthorized => "unauthorized"
    case Forbidden => "forbidden"
    case NotFound => "not_found"
    case Unsupported => "unsupported"
    case Busy => "busy"
    case Deadline => "deadline"
    case Protocol => "protocol"
    case Transport => "transport"
    case Server => "server"
    case Internal => "internal"
  }

  datatype TaskPart =
    | Text(text: string)
    | Data(json: Json)
    | Raw(bytes: seq<bv8>, mediaType: Option<string>, filename: Option<string>)
    | Url(url: string, mediaType: Option<string>, filename: Option<string>)

  datatype TaskArtifact = TaskArtifact(id: string, name: Option<string>, parts: seq<TaskPart>)

  datatype TaskSnapshot = TaskSnapshot(
    taskId: string,
    contextId: string,
    state: TaskState,
    artifacts: seq<TaskArtifact>,
    errorCode: Option<string>)

  datatype TaskRequest = TaskRequest(
    requestId: string,
    contextId: string,
    continues: TaskRef,
    key: string,
    payload: Json)

  datatype TaskListRequest = TaskListRequest(
    contextId: Option<string>,
    state: Option<TaskState>,
    pageSize: nat,
    pageToken: Option<string>,
    includeArtifacts: bool)

  datatype TaskList = TaskList(
    tasks: seq<TaskSnapshot>,
    nextPageToken: Option<string>,
    totalSize: nat)

  /** What the libraries decide: the serialized length of a JSON value and of an artifact, and
      whether a URL parses as http(s) without credentials. Every result holds for all of them. */
  datatype Codec = Codec(
    jsonSize: Json -> nat,
    artifactSize: TaskArtifact -> nat,
    urlAllowed: string -> bool)

  // -- Validators ---------------------------------------------------------------

  predicate IsIdentifierChar(c: char)
  {
    'a' <= c <= 'z' || 'A' <= c <= 'Z' || '0' <= c <= '9' || c == '_' || c == '-' || c == '.'
  }

  predicate ValidIdentifier(value: string)
  {
    0 < |value| <= 128 && AllIdentifierChars(value)
  }

  predicate AllIdentifierChars(value: string)
  {
    forall i :: 0 <= i < |value| ==> IsIdentifierChar(value[i])
  }

  predicate ValidMediaType(mediaType: Option<string>)
  {
    mediaType.Some? ==>
      && Utf8Length(mediaType.value) <= 128
      && '\r' !in mediaType.value && '\n' !in mediaType.value && '\0' !in mediaType.value
  }

  predicate ValidFilename(filename: Option<string>)
  {
    filename.Some? ==>
      && Utf8Length(filename.value) <= 256
      && '\0' !in filename.value && '\r' !in filename.value && '\n' !in filename.value
  }

  predicate ValidPart(codec: Codec, part: TaskPart)
  {
    match part
    case Text(text) => Utf8Length(text) <= MAX_TASK_PAYLOAD_BYTES
    case Data(json) => codec.jsonSize(json) <= MAX_TASK_PAYLOAD_BYTES
    case Raw(bytes, mediaType, filename) =>
      |bytes| <= MAX_TASK_PAYLOAD_BYTES && ValidMediaType(mediaType) && ValidFilename(filename)
    case Url(url, mediaType, filename) =>
      && Utf8Length(url) <= 2048
      && codec.urlAllowed(url)
      && ValidMediaType(mediaType)
      && ValidFilename(filename)
  }

  predicate ValidArtifact(codec: Codec, artifact: TaskArtifact)
  {
    && ValidIdentifier(artifact.id)
    && (artifact.name.Some? ==> Utf8Length(artifact.name.value) <= 256 && '\0' !in artifact.name.value)
    && 0 < |artifact.parts| <= MAX_TASK_PARTS
    && forall i :: 0 <= i < |artifact.parts| ==> ValidPart(codec, artifact.parts[i])
  }

  predicate ValidRequest(codec: Codec, request: TaskRequest)
  {
    && ValidIdentifier(request.requestId)
    && ValidIdentifier(request.contextId)
    && ValidIdentifier(request.key)
    && (request.continues.ExistingTask? ==> ValidIdentifier(request.continues.id))
    && codec.jsonSize(request.payload) <= MAX_TASK_PAYLOAD_BYTES
  }

  predicate ValidSnapshot(codec: Codec, s: TaskSnapshot)
  {
    ValidSnapshotFields(codec, s) && SnapshotSize(codec, s) <= MAX_TASK_WIRE_BYTES / 2
  }

  predicate ValidSnapshotFields(codec: Codec, s: TaskSnapshot)
  {
    && ValidIdentifier(s.taskId)
    && ValidIdentifier(s.contextId)
    && |s.artifacts| <= MAX_TASK_ARTIFACTS
    && (forall i :: 0 <= i < |s.artifacts| ==> ValidArtifact(codec, s.artifacts[i]))
    && (s.errorCode.Some? ==> ValidIdentifier(s.errorCode.value))
  }

  predicate ValidListRequest(request: TaskListRequest)
  {
    && 1 <= request.pageSize <= 32
    && (request.contextId.Some? ==> ValidIdentifier(request.contextId.value))
    && (request.pageToken.Some? ==> ValidToken(request.pageToken.value))
  }

  predicate ValidToken(token: string)
  {
    Utf8Length(token) <= 128 && '\0' !in token
  }

  predicate ValidList(codec: Codec, list: TaskList)
  {
    && |list.tasks| <= MAX_LISTED_TASKS
    && list.totalSize <= MAX_I32
    && (list.nextPageToken.Some? ==> ValidToken(list.nextPageToken.value))
    && (forall i :: 0 <= i < |list.tasks| ==> ValidSnapshot(codec, list.tasks[i]))
    && ListSize(codec, list) <= MAX_TASK_WIRE_BYTES / 2
  }

  // -- Serialized sizes -----------------------------------------------------------

  /** The JSON text of a snapshot whose identifiers need no escaping:
      `{"task_id":"","context_id":"","state":"","artifacts":[],"error_code":}` around its parts. */
  function SnapshotSize(codec: Codec, s: TaskSnapshot): nat
  {
    70 + |s.taskId| + |s.contextId| + |s.state.Name()| + ArtifactsSize(codec, s.artifacts) +
    OptionalTextSize(s.errorCode)
  }

  /** `null`, or the text between quotes. */
  function OptionalTextSize(text: Option<string>): nat
  {
    if text.Some? then 2 + |text.value| else 4
  }

  /** The elements of a JSON array and the commas between them. */
  function ArtifactsSize(codec: Codec, artifacts: seq<TaskArtifact>): nat
  {
    if artifacts == [] then 0
    else
      var last := |artifacts| - 1;
      ArtifactsSize(codec, artifacts[..last]) + (if last == 0 then 0 else 1) +
      codec.artifactSize(artifacts[last])
  }

  function TasksSize(codec: Codec, tasks: seq<TaskSnapshot>): nat
  {
    if tasks == [] then 0
    else
      var last := |tasks| - 1;
      TasksSize(codec, tasks[..last]) + (if last == 0 then 0 else 1) +
      SnapshotSize(codec, tasks[last])
  }

  /** `{"tasks":[],"next_page_token":,"total_size":}` around its parts. */
  function ListSize(codec: Codec, list: TaskList): nat
  {
    45 + TasksSize(codec, list.tasks) + OptionalTextSize(list.nextPageToken) +
    |Decimal(list.totalSize)|
  }

  // -- Facts the components share ---------------------------------------------------

  lemma ErrorCodeIsIdentifier(error: TaskError)
    ensures ValidIdentifier(ErrorCode(error)) && |ErrorCode(error)| <= 24
  {
    ErrorNameIsIdentifier(error);
    assert AllIdentifierChars(ERROR_PREFIX);
    var prefix, name, code := ERROR_PREFIX, ErrorName(error), ErrorCode(error);
    forall i | 0 <= i < |code| ensures IsIdentifierChar(code[i]) {
      assert code[i] == if i < |prefix| then prefix[i] else name[i - |prefix|];
    }
  }

  lemma ErrorNameIsIdentifier(error: TaskError)
    ensures AllIdentifierChars(ErrorName(error)) && |ErrorName(error)| <= 15
  {
    match error
    case InvalidRequest => assert AllIdentifierChars("invalid_request");
    case Unauthorized => assert AllIdentifierChars("unauthorized");
    case Forbidden => assert AllIdentifierChars("forbidden");
    case NotFound => assert AllIdentifierChars("not_found");
    case Unsupported => assert AllIdentifierChars("unsupported");
    case Busy => assert AllIdentifierChars("busy");
    case Deadline => assert AllIdentifierChars("deadline");
    case Protocol => assert AllIdentifierChars("protocol");
    case Transport => assert AllIdentifierChars("transport");
    case Server => assert AllIdentifierChars("server");
    case Internal => assert AllIdentifierChars("internal");
  }

  /** A snapshot without artifacts whose identifiers are valid always fits. */
  lemma BareSnapshotIsValid(codec: Codec, s: TaskSnapshot)
    requires ValidIdentifier(s.taskId) && ValidIdentifier(s.contextId) && s.artifacts == []
    requires s.errorCode.Some? ==> ValidIdentifier(s.errorCode.value)
    ensures ValidSnapshot(codec, s)
  {
    assert |s.state.Name()| <= 14;
  }
}
