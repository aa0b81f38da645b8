/**
 The task stream end to end over server-sent events: snapshots become events
 (crates/vibemux_a2a/src/task_server.rs), events travel in frames cut into arbitrary chunks
 (crates/vibemux_a2a/src/task_client.rs), and the client rebuilds the snapshots
 (crates/vibemux_a2a/src/task_wire.rs).
 */
module SseDelivery {
  import opened Bytes
  import opened Contract
  import opened Options
  import opened Wire
  import opened DeltaStream
  import opened SseFraming

  /** The frames of a byte stream hold exactly these events; frames without data do not matter. */
  predicate Carries(reader: Reader, bytes: seq<byte>, events: seq<StreamResponse>)
    decreases |bytes|
  {
    match Boundary(bytes)
    case None => events == []
    case Some(cut) =>
      match reader.utf8(bytes[..cut.dataEnd])
      case None => false
      case Some(text) =>
        if EventData(text) == "" then Carries(reader, bytes[cut.frameEnd..], events)
        else events != [] && reader.parse(EventData(text)) == Ok(events[0])
             && Carries(reader, bytes[cut.frameEnd..], events[1..])
  }

  /** The snapshots a client passes through while it reads events. */
  function Seen(codec: Codec, client: Client, events: seq<StreamResponse>): seq<Result<TaskSnapshot>>
    decreases |events|
  {
    if events == [] then []
    else
      match Receive(codec, client, events[0])
      case Err(error) => [Err(error)]
      case Ok(next) => [Apply(codec, client.previous, events[0])] + Seen(codec, next, events[1..])
  }

  /** A client of the server-sent-events stream: its task is known, terminal states end it. */
  predicate IsSseClient(reader: Reader, client: Client)
  {
    && client.expectedTask == Some(reader.expectedTask) && !client.endOnInterrupted
    && (client.expectedContext.Some? ==>
          client.previous.Some? && client.previous.value.contextId == client.expectedContext.value)
  }

  /** A frame with an event the client accepts is read as the client's next snapshot. */
  lemma ReceiveFrame(reader: Reader, client: Client, event: StreamResponse, frame: seq<byte>)
    requires IsSseClient(reader, client) && Receive(reader.codec, client, event).Ok?
    requires reader.utf8(frame).Some? && EventData(reader.utf8(frame).value) != ""
    requires reader.parse(EventData(reader.utf8(frame).value)) == Ok(event)
    ensures var next := Receive(reader.codec, client, event).value;
            && IsSseClient(reader, next) && next.previous.Some?
            && ReadFrame(reader, client.previous, frame) == Read(next.previous.value)
            && Apply(reader.codec, client.previous, event) == Ok(next.previous.value)
            && next.ended == next.previous.value.state.IsTerminal()
  {
    hide EventData, Apply;
  }

  /** Reading the bytes in one pass is feeding the events: each snapshot the client passes through is
      yielded, then nothing more if the last ends the stream, else the error the bytes end with. */
  lemma {:induction false} OnePassFeeds(reader: Reader, client: Client, bytes: seq<byte>, events: seq<StreamResponse>,
                                        ending: TaskError)
    requires IsSseClient(reader, client) && !client.ended && Carries(reader, bytes, events)
    requires Feed(reader.codec, client, events).Some?
    ensures var last := Feed(reader.codec, client, events).value;
            OnePass(reader, client.previous, bytes, ending) ==
            Seen(reader.codec, client, events) + if last.ended then [] else [Err(ending)]
    decreases |bytes|
  {
    hide Boundary, EventData, Receive, Apply, IsSseClient, ReadFrame;
    if Boundary(bytes).Some? {
      var cut := Boundary(bytes).value;
      var frame, rest := bytes[..cut.dataEnd], bytes[cut.frameEnd..];
      if EventData(reader.utf8(frame).value) == "" {
        SkippedFrame(reader, client.previous, frame);
        OnePassFeeds(reader, client, rest, events, ending);
      } else {
        var next := Receive(reader.codec, client, events[0]).value;
        ReceiveFrame(reader, client, events[0], frame);
        if next.ended {
          assert events[1..] == [];
        } else {
          OnePassFeeds(reader, next, rest, events[1..], ending);
        }
      }
    }
  }

  lemma SkippedFrame(reader: Reader, previous: Option<TaskSnapshot>, frame: seq<byte>)
    requires reader.utf8(frame).Some? && EventData(reader.utf8(frame).value) == ""
    ensures ReadFrame(reader, previous, frame) == Skipped
  {
    hide EventData;
  }

  lemma {:induction false} SeenAll(codec: Codec, client: Client, events: seq<StreamResponse>)
    requires Feed(codec, client, events).Some?
    ensures var seen := Seen(codec, client, events);
            && |seen| == |events| && (forall i :: 0 <= i < |seen| ==> seen[i].Ok?)
            && (events != [] ==>
                  Feed(codec, client, events).value.previous == Some(seen[|seen| - 1].value))
    decreases |events|
  {
    hide Apply;
    if events != [] {
      SeenAll(codec, Receive(codec, client, events[0]).value, events[1..]);
    }
  }

  // -- From events to bytes ---------------------------------------------------------------------------

  /** A frame that holds one event as one line of data, without a line break of its own. */
  predicate Encodes(reader: Reader, frame: seq<byte>, event: StreamResponse)
  {
    && LF !in frame && CR !in frame
    && reader.utf8(frame).Some?
    && FIELD + " " <= reader.utf8(frame).value
    && (var payload := reader.utf8(frame).value[|FIELD| + 1..];
        && payload != "" && '\n' !in payload
        && reader.parse(payload) == Ok(event))
  }

  /** What the reader makes of such a frame. */
  lemma EncodedIsRead(reader: Reader, frame: seq<byte>, event: StreamResponse)
    requires Encodes(reader, frame, event)
    ensures LF !in frame && CR !in frame && reader.utf8(frame).Some?
    ensures EventData(reader.utf8(frame).value) != ""
    ensures reader.parse(EventData(reader.utf8(frame).value)) == Ok(event)
  {
    hide EventData;
    var text := reader.utf8(frame).value;
    var payload := text[|FIELD| + 1..];
    assert text == FIELD + " " + payload;
    LineRoundTrip(payload);
  }

  /** Frames that hold the events, each closed by an empty line of any kind, carry exactly those
      events. */
  lemma {:induction false} FramedCarries(reader: Reader, frames: seq<Frame>, events: seq<StreamResponse>)
    requires |frames| == |events| && forall i :: 0 <= i < |frames| ==> Encodes(reader, frames[i].data, events[i])
    ensures Carries(reader, Framed(frames), events)
    decreases |frames|
  {
    hide Boundary, EventData, Encodes, EmptyLine;
    if frames == [] {
      NoBoundary();
    } else {
      EncodedIsRead(reader, frames[0].data, events[0]);
      FirstFrame(frames[0], Framed(frames[1..]));
      FramedCarries(reader, frames[1..], events[1..]);
    }
  }

  // -- End to end ---------------------------------------------------------------------------------------

  /** End to end. A server that refuses nothing reports snapshots with distinct artifact ids; its
      events travel in frames, cut into chunks anywhere within the buffer bound. If every mixture
      fits, the client yields one good snapshot per event, the last of which agrees with the
      server's last; it then yields nothing more if the task is over, and otherwise the error the
      response ends with. */
  lemma StreamIsDelivered(reader: Reader, contextId: string, snapshots: seq<TaskSnapshot>,
                          chunks: seq<seq<byte>>, ending: TaskError)
    requires forall i :: 0 <= i < |snapshots| ==> DistinctIds(snapshots[i].artifacts)
    requires Serve(reader.codec, Opening(reader, contextId), snapshots).Emitted?
    requires Deliverable(reader.codec, Opening(reader, contextId), snapshots)
    requires Carries(reader, Concat(chunks), Serve(reader.codec, Opening(reader, contextId), snapshots).events)
    requires Fits([], chunks)
    ensures var run := Serve(reader.codec, Opening(reader, contextId), snapshots);
            var results, n := Results(reader, Opened(chunks, ending)), |run.events|;
            && |results| == n + (if run.server.done then 0 else 1)
            && (forall i :: 0 <= i < n ==> results[i].Ok?)
            && (n > 0 ==> run.server.previous.Some?
                          && Agree(reader.codec, run.server.previous.value, results[n - 1].value))
            && (!run.server.done ==> results[n] == Err(ending))
  {
    hide Deliverable, Feed, Serve, Carries, OnePass, Results, Agree, Seen, Fits, DistinctIds;
    var server := Opening(reader, contextId);
    var run := Serve(reader.codec, server, snapshots);
    var client := Client.Client(None, Some(reader.expectedTask), None, false, false);
    OpenedInStep(reader.codec, reader.expectedTask, contextId, Some(reader.expectedTask), None, false);
    ClientFollowsServer(reader.codec, server, client, snapshots);
    OnePassFeeds(reader, client, Concat(chunks), run.events, ending);
    SeenAll(reader.codec, client, run.events);
    ChunkedIsOnePass(reader, Opened(chunks, ending));
    assert [] + Concat(chunks) == Concat(chunks);
  }

  /** End to end, down to the bytes: the server writes each of its events as one frame, and the
      bytes are cut into chunks anywhere within the buffer bound. */
  lemma FramesAreDelivered(reader: Reader, contextId: string, snapshots: seq<TaskSnapshot>, frames: seq<Frame>,
                           chunks: seq<seq<byte>>, ending: TaskError)
    requires forall i :: 0 <= i < |snapshots| ==> DistinctIds(snapshots[i].artifacts)
    requires Serve(reader.codec, Opening(reader, contextId), snapshots).Emitted?
    requires Deliverable(reader.codec, Opening(reader, contextId), snapshots)
    requires var events := Serve(reader.codec, Opening(reader, contextId), snapshots).events;
             |frames| == |events| && forall i :: 0 <= i < |frames| ==> Encodes(reader, frames[i].data, events[i])
    requires Concat(chunks) == Framed(frames) && Fits([], chunks)
    ensures var run := Serve(reader.codec, Opening(reader, contextId), snapshots);
            var results, n := Results(reader, Opened(chunks, ending)), |frames|;
            && |results| == n + (if run.server.done then 0 else 1)
            && (forall i :: 0 <= i < n ==> results[i].Ok?)
            && (n > 0 ==> run.server.previous.Some?
                          && Agree(reader.codec, run.server.previous.value, results[n - 1].value))
            && (!run.server.done ==> results[n] == Err(ending))
  {
    hide Deliverable, Serve, Carries, Results, Agree, Fits, DistinctIds, Encodes, Framed;
    FramedCarries(reader, frames, Serve(reader.codec, Opening(reader, contextId), snapshots).events);
    StreamIsDelivered(reader, contextId, snapshots, chunks, ending);
  }

  /** The server's side of a stream just opened for the client's task. */
  function Opening(reader: Reader, contextId: string): DeltaStream.Server
  {
    DeltaStream.Server.Server(reader.expectedTask, contextId, None, false, false)
  }
}
