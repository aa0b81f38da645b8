/**
 Server-sent events as the task client reads them (crates/vibemux_a2a/src/task_client.rs,
 `event_boundary`, `SseState` and `next_snapshot`): frames are cut out of a buffer that network
 chunks extend, and what is read does not depend on where the chunks were cut.
 */
module SseFraming {
  import opened Bytes
  import opened Contract
  import opened Options
  import opened Wire

  const LF: byte := 10
  const CR: byte := 13

  // -- Boundaries ---------------------------------------------------------------------------

  /** The length of the frame end that starts at an index, zero if none does. */
  function EndAt(bytes: seq<byte>, i: nat): (width: nat)
    ensures width > 0 ==> i + width <= |bytes|
  {
    if i + 4 <= |bytes| && bytes[i] == CR && bytes[i + 1] == LF && bytes[i + 2] == CR && bytes[i + 3] == LF then 4
    else if i + 2 <= |bytes| && bytes[i] == bytes[i + 1] && (bytes[i] == LF || bytes[i] == CR) then 2
    else 0
  }

  /** A frame: where its data ends and where the next frame starts. */
  datatype Cut = Cut(dataEnd: nat, frameEnd: nat)

  /** The first boundary at or after an index. */
  function BoundaryFrom(bytes: seq<byte>, i: nat): (cut: Option<Cut>)
    ensures cut.Some? ==> i <= cut.value.dataEnd < cut.value.frameEnd <= |bytes|
    decreases |bytes| - i
  {
    if i >= |bytes| then None
    else if EndAt(bytes, i) > 0 then Some(Cut(i, i + EndAt(bytes, i)))
    else BoundaryFrom(bytes, i + 1)
  }

  function Boundary(bytes: seq<byte>): (cut: Option<Cut>)
    ensures cut.Some? ==> cut.value.dataEnd < cut.value.frameEnd <= |bytes|
  {
    BoundaryFrom(bytes, 0)
  }

  method EventBoundary(bytes: seq<byte>) returns (cut: Option<Cut>)
    ensures cut == Boundary(bytes)
  {
    hide EndAt;
    for index := 0 to |bytes|
      invariant Boundary(bytes) == BoundaryFrom(bytes, index)
    {
      if EndAt(bytes, index) > 0 {
        return Some(Cut(index, index + EndAt(bytes, index)));
      }
    }
    return None;
  }

  /** A boundary is the first place where a frame end starts. */
  lemma {:induction false} BoundaryIs(bytes: seq<byte>, i: nat, cut: Cut)
    requires i <= cut.dataEnd
    ensures BoundaryFrom(bytes, i) == Some(cut) <==>
            && EndAt(bytes, cut.dataEnd) > 0 && cut.frameEnd == cut.dataEnd + EndAt(bytes, cut.dataEnd)
            && forall j :: i <= j < cut.dataEnd ==> EndAt(bytes, j) == 0
    decreases |bytes| - i
  {
    hide EndAt;
    if i < |bytes| && EndAt(bytes, i) == 0 && i < cut.dataEnd {
      BoundaryIs(bytes, i + 1, cut);
    }
  }

  lemma EndAtKept(bytes: seq<byte>, more: seq<byte>, i: nat)
    requires EndAt(bytes, i) > 0
    ensures EndAt(bytes + more, i) == EndAt(bytes, i)
  {
  }

  /** More bytes cannot complete a frame end before one that was already there: the only frame end
      long enough to straddle it would need a line feed and a carriage return where that one has
      two equal bytes. */
  lemma NoEarlierEnd(bytes: seq<byte>, more: seq<byte>, i: nat, j: nat)
    requires j < i && EndAt(bytes, i) > 0 && EndAt(bytes, j) == 0
    ensures EndAt(bytes + more, j) == 0
  {
  }

  /** A boundary found in a buffer stays the first boundary however many bytes are appended. */
  lemma BoundaryIsStable(bytes: seq<byte>, more: seq<byte>)
    requires Boundary(bytes).Some?
    ensures Boundary(bytes + more) == Boundary(bytes)
  {
    hide EndAt, BoundaryFrom;
    var cut := Boundary(bytes).value;
    BoundaryIs(bytes, 0, cut);
    EndAtKept(bytes, more, cut.dataEnd);
    forall j | 0 <= j < cut.dataEnd
      ensures EndAt(bytes + more, j) == 0
    {
      NoEarlierEnd(bytes, more, cut.dataEnd, j);
    }
    BoundaryIs(bytes + more, 0, cut);
  }

  // -- The data of a frame ------------------------------------------------------------------------

  function LineEnd(text: string): (i: nat)
    ensures i <= |text|
    ensures i < |text| ==> text[i] == '\n'
    ensures forall j :: 0 <= j < i ==> text[j] != '\n'
  {
    if text == "" || text[0] == '\n' then 0 else 1 + LineEnd(text[1..])
  }

  /** Lines end with a line feed, or a carriage return and a line feed; the last may have neither. */
  function Lines(text: string): seq<string>
  {
    if text == "" then []
    else
      var i := LineEnd(text);
      if i == |text| then [text]
      else [if i > 0 && text[i - 1] == '\r' then text[..i - 1] else text[..i]] + Lines(text[i + 1..])
  }

  const FIELD := "data:"

  /** The values of the data lines, each without one leading space, one to a line. */
  function DataLines(lines: seq<string>): seq<string>
  {
    if lines == [] then []
    else if FIELD <= lines[0] then
      var value := lines[0][|FIELD|..];
      [if value != "" && value[0] == ' ' then value[1..] else value] + DataLines(lines[1..])
    else DataLines(lines[1..])
  }

  function Join(lines: seq<string>): string
  {
    if lines == [] then "" else if |lines| == 1 then lines[0] else lines[0] + "\n" + Join(lines[1..])
  }

  function EventData(text: string): string
  {
    Join(DataLines(Lines(text)))
  }

  // -- One frame ----------------------------------------------------------------------------------

  /** How bytes become text and text becomes an event: UTF-8, JSON and, for JSON-RPC, the envelope
      of the call. */
  datatype Reader = Reader(
    codec: Codec,
    expectedTask: string,
    utf8: seq<byte> -> Option<string>,
    parse: string -> Result<StreamResponse>)

  datatype Outcome =
    | Skipped
    | Read(snapshot: TaskSnapshot)
    | Refused(error: TaskError, kept: Option<TaskSnapshot>)

  /** What a frame amounts to after the snapshot before it. */
  function ReadFrame(reader: Reader, previous: Option<TaskSnapshot>, frame: seq<byte>): Outcome
  {
    match reader.utf8(frame)
    case None => Refused(Protocol, previous)
    case Some(text) =>
      var data := EventData(text);
      if data == "" then Skipped
      else
        match reader.parse(data)
        case Err(error) => Refused(error, previous)
        case Ok(event) =>
          match Apply(reader.codec, previous, event)
          case Err(error) => Refused(error, previous)
          case Ok(snapshot) =>
            if snapshot.taskId != reader.expectedTask then Refused(Protocol, Some(snapshot)) else Read(snapshot)
  }

  // -- One pass over the whole stream ------------------------------------------------------------

  /** The results of reading a whole byte stream that breaks off with an error. */
  function OnePass(reader: Reader, previous: Option<TaskSnapshot>, bytes: seq<byte>, ending: TaskError):
    seq<Result<TaskSnapshot>>
    decreases |bytes|
  {
    match Boundary(bytes)
    case None => [Err(ending)]
    case Some(cut) =>
      match ReadFrame(reader, previous, bytes[..cut.dataEnd])
      case Skipped => OnePass(reader, previous, bytes[cut.frameEnd..], ending)
      case Refused(error, _) => [Err(error)]
      case Read(snapshot) =>
        [Ok(snapshot)] + if snapshot.state.IsTerminal() then []
                         else OnePass(reader, Some(snapshot), bytes[cut.frameEnd..], ending)
  }

  // -- The client, chunk by chunk -----------------------------------------------------------------

  /** The client between two snapshots. The response is the chunks still to come and the error its
      reading ends with: the deadline, or the transport. */
  datatype Sse = Sse(
    buffer: seq<byte>,
    previous: Option<TaskSnapshot>,
    finished: bool,
    chunks: seq<seq<byte>>,
    ending: TaskError)

  /** What the first frame in the buffer amounts to, and the client once it is taken out. */
  function First(reader: Reader, sse: Sse): Outcome
    requires Boundary(sse.buffer).Some?
  {
    ReadFrame(reader, sse.previous, sse.buffer[..Boundary(sse.buffer).value.dataEnd])
  }

  function Rest(sse: Sse): Sse
    requires Boundary(sse.buffer).Some?
  {
    sse.(buffer := sse.buffer[Boundary(sse.buffer).value.frameEnd..])
  }

  function After(sse: Sse, snapshot: TaskSnapshot): Sse
  {
    sse.(previous := Some(snapshot), finished := snapshot.state.IsTerminal())
  }

  datatype Next = Next(result: Result<TaskSnapshot>, sse: Sse)

  /** `next_snapshot`. */
  function NextSnapshot(reader: Reader, sse: Sse): (next: Next)
    ensures next.result.Ok? ==>
              |next.sse.chunks| < |sse.chunks| || (next.sse.chunks == sse.chunks && |next.sse.buffer| < |sse.buffer|)
    ensures |sse.buffer| <= MAX_TASK_WIRE_BYTES ==> |next.sse.buffer| <= MAX_TASK_WIRE_BYTES
    decreases |sse.chunks|, |sse.buffer|
  {
    if Boundary(sse.buffer).Some? then
      match First(reader, sse)
      case Skipped => NextSnapshot(reader, Rest(sse))
      case Refused(error, kept) => Next(Err(error), Rest(sse).(previous := kept))
      case Read(snapshot) => Next(Ok(snapshot), After(Rest(sse), snapshot))
    else if sse.chunks == [] then Next(Err(sse.ending), sse)
    else if |sse.chunks[0]| > (if |sse.buffer| < MAX_TASK_WIRE_BYTES then MAX_TASK_WIRE_BYTES - |sse.buffer| else 0)
    then Next(Err(Protocol), sse.(chunks := sse.chunks[1..]))
    else NextSnapshot(reader, sse.(buffer := sse.buffer + sse.chunks[0], chunks := sse.chunks[1..]))
  }

  /** Everything the stream of snapshots yields: it stops after an error or a terminal snapshot. */
  function Results(reader: Reader, sse: Sse): seq<Result<TaskSnapshot>>
    decreases |sse.chunks|, |sse.buffer|
  {
    if sse.finished then []
    else
      var next := NextSnapshot(reader, sse);
      if next.result.Err? then [next.result] else [next.result] + Results(reader, next.sse)
  }

  // -- Chunk independence -------------------------------------------------------------------------

  function Concat(chunks: seq<seq<byte>>): seq<byte>
  {
    if chunks == [] then [] else chunks[0] + Concat(chunks[1..])
  }

  /** The bytes after the last complete frame. */
  function Residue(bytes: seq<byte>): (rest: seq<byte>)
    ensures |rest| <= |bytes| && Boundary(rest).None?
    decreases |bytes|
  {
    match Boundary(bytes)
    case None => bytes
    case Some(cut) => Residue(bytes[cut.frameEnd..])
  }

  /** No chunk, added to the unfinished frame it continues, exceeds the bound of 64 KiB. */
  predicate Fits(buffer: seq<byte>, chunks: seq<seq<byte>>)
    decreases |chunks|
  {
    chunks == [] ||
    (var rest := Residue(buffer);
     |rest| + |chunks[0]| <= MAX_TASK_WIRE_BYTES && Fits(rest + chunks[0], chunks[1..]))
  }

  lemma FitsAfterFrame(buffer: seq<byte>, chunks: seq<seq<byte>>)
    requires Boundary(buffer).Some?
    ensures Fits(buffer, chunks) == Fits(buffer[Boundary(buffer).value.frameEnd..], chunks)
  {
  }

  /** The results to come, written with the frame at hand taken first. */
  lemma ResultsUnfold(reader: Reader, sse: Sse)
    requires !sse.finished && Boundary(sse.buffer).Some?
    ensures var outcome, rest := First(reader, sse), Rest(sse);
            && (outcome.Skipped? ==> Results(reader, sse) == Results(reader, rest))
            && (outcome.Refused? ==> Results(reader, sse) == [Err(outcome.error)])
            && (outcome.Read? ==>
                  Results(reader, sse) == [Ok(outcome.snapshot)] + Results(reader, After(rest, outcome.snapshot)))
  {
    hide Boundary, ReadFrame;
  }

  lemma ResultsRead(reader: Reader, sse: Sse)
    requires !sse.finished && Boundary(sse.buffer).None?
    requires sse.chunks != [] && |sse.buffer| + |sse.chunks[0]| <= MAX_TASK_WIRE_BYTES
    ensures Results(reader, sse)
         == Results(reader, sse.(buffer := sse.buffer + sse.chunks[0], chunks := sse.chunks[1..]))
  {
    hide Boundary, ReadFrame;
  }

  /** The results agree with the whole stream's until, at most, a chunk is refused as too long. */
  predicate Agrees(results: seq<Result<TaskSnapshot>>, whole: seq<Result<TaskSnapshot>>)
  {
    results == whole ||
    (results != [] && results[|results| - 1] == Err(Protocol) && results[..|results| - 1] <= whole)
  }

  lemma AgreesAfter(r: Result<TaskSnapshot>, results: seq<Result<TaskSnapshot>>, whole: seq<Result<TaskSnapshot>>)
    requires Agrees(results, whole)
    ensures Agrees([r] + results, [r] + whole)
  {
    if results != whole {
      assert ([r] + results)[..|results|] == [r] + results[..|results| - 1];
    }
  }

  /** Reading chunk by chunk is one pass over the bytes, cut short at most by a chunk that exceeds
      the bound; while every chunk fits, it is that pass exactly. */
  lemma {:induction false} ChunkedIsOnePass(reader: Reader, sse: Sse)
    requires !sse.finished && |sse.buffer| <= MAX_TASK_WIRE_BYTES
    ensures var whole := OnePass(reader, sse.previous, sse.buffer + Concat(sse.chunks), sse.ending);
            && Agrees(Results(reader, sse), whole)
            && (Fits(sse.buffer, sse.chunks) ==> Results(reader, sse) == whole)
    decreases |sse.chunks|, |sse.buffer|
  {
    hide Boundary, ReadFrame, Results, Agrees;
    var bytes := sse.buffer + Concat(sse.chunks);
    if Boundary(sse.buffer).Some? {
      FrameFirst(reader, sse);
    } else if sse.chunks == [] {
      assert bytes == sse.buffer;
      LastResult(reader, sse);
      SelfAgrees(Results(reader, sse));
    } else if |sse.buffer| + |sse.chunks[0]| > MAX_TASK_WIRE_BYTES {
      RefusedResult(reader, sse);
      RefusalAgrees(OnePass(reader, sse.previous, bytes, sse.ending));
    } else {
      ResultsRead(reader, sse);
      assert (sse.buffer + sse.chunks[0]) + Concat(sse.chunks[1..]) == bytes;
      ChunkedIsOnePass(reader, sse.(buffer := sse.buffer + sse.chunks[0], chunks := sse.chunks[1..]));
    }
  }

  /** The step for a frame that is already in the buffer. */
  lemma {:induction false} FrameFirst(reader: Reader, sse: Sse)
    requires !sse.finished && |sse.buffer| <= MAX_TASK_WIRE_BYTES && Boundary(sse.buffer).Some?
    ensures var whole := OnePass(reader, sse.previous, sse.buffer + Concat(sse.chunks), sse.ending);
            && Agrees(Results(reader, sse), whole)
            && (Fits(sse.buffer, sse.chunks) ==> Results(reader, sse) == whole)
    decreases |sse.chunks|, |sse.buffer|, 0
  {
    hide Boundary, ReadFrame, Results, Agrees;
    var bytes := sse.buffer + Concat(sse.chunks);
    BoundaryIsStable(sse.buffer, Concat(sse.chunks));
    var cut, rest, outcome := Boundary(sse.buffer).value, Rest(sse), First(reader, sse);
    assert bytes[..cut.dataEnd] == sse.buffer[..cut.dataEnd];
    assert bytes[cut.frameEnd..] == rest.buffer + Concat(sse.chunks);
    FitsAfterFrame(sse.buffer, sse.chunks);
    ResultsUnfold(reader, sse);
    if outcome.Skipped? {
      ChunkedIsOnePass(reader, rest);
    } else if outcome.Refused? || outcome.snapshot.state.IsTerminal() {
      if outcome.Read? {
        NoMoreResults(reader, After(rest, outcome.snapshot));
      }
      SelfAgrees(Results(reader, sse));
    } else {
      var next := After(rest, outcome.snapshot);
      ChunkedIsOnePass(reader, next);
      AgreesAfter(Ok(outcome.snapshot), Results(reader, next),
                  OnePass(reader, next.previous, next.buffer + Concat(next.chunks), next.ending));
    }
  }

  lemma SelfAgrees(results: seq<Result<TaskSnapshot>>)
    ensures Agrees(results, results)
  {
  }

  lemma RefusalAgrees(whole: seq<Result<TaskSnapshot>>)
    ensures Agrees([Err(Protocol)], whole)
  {
  }

  lemma RefusedResult(reader: Reader, sse: Sse)
    requires !sse.finished && Boundary(sse.buffer).None? && |sse.buffer| <= MAX_TASK_WIRE_BYTES
    requires sse.chunks != [] && |sse.buffer| + |sse.chunks[0]| > MAX_TASK_WIRE_BYTES
    ensures Results(reader, sse) == [Err(Protocol)] && !Fits(sse.buffer, sse.chunks)
  {
    hide Boundary;
  }

  lemma NoMoreResults(reader: Reader, sse: Sse)
    requires sse.finished
    ensures Results(reader, sse) == []
  {
  }

  lemma LastResult(reader: Reader, sse: Sse)
    requires !sse.finished && sse.chunks == [] && Boundary(sse.buffer).None?
    ensures Results(reader, sse) == [Err(sse.ending)]
  {
    hide Boundary;
  }

  /** A stream just opened. */
  function Opened(chunks: seq<seq<byte>>, ending: TaskError): Sse
  {
    Sse([], None, false, chunks, ending)
  }

  /** Two ways of cutting the same bytes into chunks within the bound give the same results. */
  lemma ChunkIndependence(reader: Reader, a: seq<seq<byte>>, b: seq<seq<byte>>, ending: TaskError)
    requires Concat(a) == Concat(b) && Fits([], a) && Fits([], b)
    ensures Results(reader, Opened(a, ending)) == Results(reader, Opened(b, ending))
  {
    hide Results, OnePass;
    ChunkedIsOnePass(reader, Opened(a, ending));
    ChunkedIsOnePass(reader, Opened(b, ending));
    assert [] + Concat(a) == [] + Concat(b);
  }

  // -- Every stream ---------------------------------------------------------------------------------

  lemma {:induction false} NextIsOwn(reader: Reader, sse: Sse)
    ensures var next := NextSnapshot(reader, sse);
            next.result.Ok? ==>
              && next.result.value.taskId == reader.expectedTask
              && next.sse.finished == next.result.value.state.IsTerminal()
    decreases |sse.chunks|, |sse.buffer|
  {
    hide Boundary, Apply, EventData;
    if Boundary(sse.buffer).Some? {
      if First(reader, sse).Skipped? {
        NextIsOwn(reader, Rest(sse));
      }
    } else if sse.chunks != [] {
      NextIsOwn(reader, sse.(buffer := sse.buffer + sse.chunks[0], chunks := sse.chunks[1..]));
    }
  }

  /** Whatever a server sends and however it is cut, the client yields snapshots of the task it asked
      for and of no other, goes on after each that is not terminal, and stops with the first terminal
      one or with an error. */
  lemma {:induction false} ResultsAreOwn(reader: Reader, sse: Sse)
    requires !sse.finished
    ensures var results := Results(reader, sse);
            && results != []
            && (forall i :: 0 <= i < |results| && results[i].Ok? ==>
                              results[i].value.taskId == reader.expectedTask)
            && (forall i :: 0 <= i < |results| - 1 ==> results[i].Ok? && !results[i].value.state.IsTerminal())
            && (results[|results| - 1].Ok? ==> results[|results| - 1].value.state.IsTerminal())
    decreases |sse.chunks|, |sse.buffer|
  {
    hide NextSnapshot;
    var next := NextSnapshot(reader, sse);
    NextIsOwn(reader, sse);
    if next.result.Ok? {
      if next.sse.finished {
        NoMoreResults(reader, next.sse);
      } else {
        ResultsAreOwn(reader, next.sse);
      }
    }
  }

  // -- Frames written by a server -----------------------------------------------------------------

  /** The three ways to close a frame. */
  datatype Closing = TwoLf | TwoCr | TwoCrLf

  /** The bytes of an empty line: line feeds are 10, carriage returns 13. */
  function EmptyLine(closing: Closing): seq<byte>
  {
    match closing
    case TwoLf => [10, 10]
    case TwoCr => [13, 13]
    case TwoCrLf => [13, 10, 13, 10]
  }

  /** The first boundary, exactly: the first place where an empty line of any of the three kinds
      starts. The frame's data ends there, and the next frame starts after it. */
  lemma BoundaryExactly(bytes: seq<byte>, cut: Cut)
    ensures Boundary(bytes) == Some(cut) <==>
            && (exists c :: EmptyLineAt(bytes, cut.dataEnd, c) && cut.frameEnd == cut.dataEnd + |EmptyLine(c)|)
            && forall j: nat, c :: j < cut.dataEnd ==> !EmptyLineAt(bytes, j, c)
  {
    hide BoundaryFrom, EndAt, EmptyLineAt, EmptyLine;
    BoundaryIs(bytes, 0, cut);
    EndAtExactly(bytes, cut.dataEnd);
    if forall j: nat, c :: j < cut.dataEnd ==> !EmptyLineAt(bytes, j, c) {
      forall j: nat | j < cut.dataEnd
        ensures EndAt(bytes, j) == 0
      {
        EndAtExactly(bytes, j);
      }
    } else {
      var j: nat, c :| j < cut.dataEnd && EmptyLineAt(bytes, j, c);
      EndAtExactly(bytes, j);
    }
  }

  predicate EmptyLineAt(bytes: seq<byte>, i: nat, closing: Closing)
  {
    i + |EmptyLine(closing)| <= |bytes| && bytes[i..i + |EmptyLine(closing)|] == EmptyLine(closing)
  }

  lemma EndAtExactly(bytes: seq<byte>, i: nat)
    ensures EndAt(bytes, i) == 0 <==> forall c :: !EmptyLineAt(bytes, i, c)
    ensures forall c :: EmptyLine(c) != []
    ensures forall c :: EmptyLineAt(bytes, i, c) ==> EndAt(bytes, i) == |EmptyLine(c)|
    ensures EndAt(bytes, i) > 0 ==> exists c :: EmptyLineAt(bytes, i, c) && EndAt(bytes, i) == |EmptyLine(c)|
  {
    forall c | EmptyLineAt(bytes, i, c)
      ensures EndAt(bytes, i) == |EmptyLine(c)|
    {
      var line := bytes[i..i + |EmptyLine(c)|];
      assert line[0] == bytes[i] && line[1] == bytes[i + 1];
      if c == TwoCrLf {
        assert line[2] == bytes[i + 2] && line[3] == bytes[i + 3];
      }
    }
    if EndAt(bytes, i) == 4 {
      assert EmptyLineAt(bytes, i, TwoCrLf);
    } else if EndAt(bytes, i) == 2 {
      assert EmptyLineAt(bytes, i, if bytes[i] == LF then TwoLf else TwoCr);
    }
  }

  /** One event as it is sent. */
  datatype Frame = Frame(data: seq<byte>, closing: Closing)

  function Framed(frames: seq<Frame>): seq<byte>
  {
    if frames == [] then [] else frames[0].data + EmptyLine(frames[0].closing) + Framed(frames[1..])
  }

  /** The data parts of the complete frames of a stream. */
  function Frames(bytes: seq<byte>): seq<seq<byte>>
    decreases |bytes|
  {
    match Boundary(bytes)
    case None => []
    case Some(cut) => [bytes[..cut.dataEnd]] + Frames(bytes[cut.frameEnd..])
  }

  /** Events without line breaks come back one by one, however each is closed. */
  lemma {:induction false} FramesOfEvents(frames: seq<Frame>)
    requires forall f :: f in frames ==> LF !in f.data && CR !in f.data
    ensures |Frames(Framed(frames))| == |frames|
    ensures forall i :: 0 <= i < |frames| ==> Frames(Framed(frames))[i] == frames[i].data
  {
    hide Boundary;
    if frames == [] {
      NoBoundary();
    } else {
      FirstFrame(frames[0], Framed(frames[1..]));
      FramesOfEvents(frames[1..]);
    }
  }

  lemma NoBoundary()
    ensures Boundary([]) == None
  {
  }

  lemma FirstFrame(f: Frame, rest: seq<byte>)
    requires LF !in f.data && CR !in f.data
    ensures var bytes, end := f.data + EmptyLine(f.closing) + rest, |f.data| + |EmptyLine(f.closing)|;
            && Boundary(bytes) == Some(Cut(|f.data|, end))
            && bytes[..|f.data|] == f.data && bytes[end..] == rest
  {
    hide BoundaryFrom;
    var bytes := f.data + EmptyLine(f.closing) + rest;
    forall j | 0 <= j < |f.data|
      ensures EndAt(bytes, j) == 0
    {
      assert bytes[j] == f.data[j] && f.data[j] in f.data;
    }
    EndAtExactly(bytes, |f.data|);
    assert EmptyLineAt(bytes, |f.data|, f.closing);
    BoundaryIs(bytes, 0, Cut(|f.data|, |f.data| + |EmptyLine(f.closing)|));
  }

  // -- Data written by a server ---------------------------------------------------------------------

  function DataLine(value: string): string
  {
    FIELD + " " + value
  }

  /** A text as data: a data line for each of its lines, with `eol` between two. */
  function Rendered(text: string, eol: string): string
    decreases |text|
  {
    var i := LineEnd(text);
    if i == |text| then DataLine(text) else DataLine(text[..i]) + eol + Rendered(text[i + 1..], eol)
  }

  /** The lines of a text, split at every line feed. */
  function SplitLines(text: string): (lines: seq<string>)
    ensures lines != []
  {
    var i := LineEnd(text);
    if i == |text| then [text] else [text[..i]] + SplitLines(text[i + 1..])
  }

  lemma {:induction false} JoinedAgain(text: string)
    ensures Join(SplitLines(text)) == text
  {
    hide LineEnd, Join;
    var i := LineEnd(text);
    if i == |text| {
      JoinsFirst(text, []);
      assert [text] + [] == [text];
    } else {
      JoinedAgain(text[i + 1..]);
      JoinsFirst(text[..i], SplitLines(text[i + 1..]));
      assert text == text[..i] + "\n" + text[i + 1..];
    }
  }

  lemma JoinsFirst(line: string, rest: seq<string>)
    ensures Join([line] + rest) == if rest == [] then line else line + "\n" + Join(rest)
  {
    assert ([line] + rest)[1..] == rest;
  }

  predicate IsEol(eol: string)
  {
    eol == "\n" || eol == "\r\n"
  }

  lemma FirstLine(line: string, rest: string, eol: string)
    requires IsEol(eol) && line != "" && '\n' !in line && '\r' !in line
    ensures Lines(line) == [line]
    ensures Lines(line + eol + rest) == [line] + Lines(rest)
  {
    hide Lines, LineEnd;
    var all, n := line + eol + rest, |line| + |eol| - 1;
    assert all[n] == '\n' && all[n + 1..] == rest;
    assert forall j :: 0 <= j < n ==> all[j] != '\n';
    LinesAt(line, |line|);
    LinesAt(all, n);
    if eol == "\r\n" {
      assert all[n - 1] == '\r' && all[..n - 1] == line;
    } else {
      assert all[n - 1] == line[|line| - 1] && all[..n] == line;
    }
  }

  lemma LinesAt(text: string, i: nat)
    requires i <= |text| && (i < |text| ==> text[i] == '\n') && forall j :: 0 <= j < i ==> text[j] != '\n'
    requires text != ""
    ensures if i == |text| then Lines(text) == [text]
            else Lines(text) == [if i > 0 && text[i - 1] == '\r' then text[..i - 1] else text[..i]] + Lines(text[i + 1..])
  {
    hide LineEnd;
    LineEndIs(text, i);
  }

  lemma LineEndIs(text: string, i: nat)
    requires i <= |text| && (i < |text| ==> text[i] == '\n') && forall j :: 0 <= j < i ==> text[j] != '\n'
    ensures LineEnd(text) == i
  {
    hide LineEnd;
  }

  lemma DataLineIs(value: string)
    ensures var line := DataLine(value); line != "" && FIELD <= line
    ensures '\n' !in value ==> '\n' !in DataLine(value)
    ensures '\r' !in value ==> '\r' !in DataLine(value)
  {
  }

  lemma OneDataLine(value: string, rest: seq<string>)
    ensures DataLines([DataLine(value)] + rest) == [value] + DataLines(rest)
  {
    var lines := [DataLine(value)] + rest;
    assert lines[0][|FIELD|..] == " " + value;
    assert lines[1..] == rest;
  }

  lemma {:induction false} RenderedData(text: string, eol: string)
    requires IsEol(eol) && '\r' !in text
    ensures DataLines(Lines(Rendered(text, eol))) == SplitLines(text)
    decreases |text|
  {
    hide Lines, DataLine, DataLines, LineEnd, IsEol;
    var i := LineEnd(text);
    DataLineIs(text[..i]);
    if i == |text| {
      assert text[..i] == text;
      FirstLine(DataLine(text), "", eol);
      NoData();
      OneDataLine(text, []);
      assert [DataLine(text)] + [] == [DataLine(text)];
      assert [text] + [] == [text];
    } else {
      var rest := Rendered(text[i + 1..], eol);
      FirstLine(DataLine(text[..i]), rest, eol);
      OneDataLine(text[..i], Lines(rest));
      RenderedData(text[i + 1..], eol);
    }
  }

  lemma NoData()
    ensures DataLines([]) == []
  {
  }

  /** A text of any number of lines, rendered with either end of line, is read back. */
  lemma DataRoundTrip(text: string, eol: string)
    requires IsEol(eol) && '\r' !in text
    ensures EventData(Rendered(text, eol)) == text
  {
    hide Lines, Rendered, DataLines, Join;
    RenderedData(text, eol);
    JoinedAgain(text);
  }

  /** One line of data may hold carriage returns. */
  lemma LineRoundTrip(payload: string)
    requires '\n' !in payload
    ensures EventData(DataLine(payload)) == payload
  {
    hide Lines, DataLine, DataLines;
    var text := DataLine(payload);
    DataLineIs(payload);
    LinesAt(text, |text|);
    NoData();
    OneDataLine(payload, []);
    assert [text] + [] == [text];
    assert [payload] + [] == [payload];
  }

  /** A line of another kind is ignored. */
  lemma OtherLineIsIgnored(line: string, rest: string, eol: string)
    requires IsEol(eol) && line != "" && '\n' !in line && '\r' !in line && !(FIELD <= line)
    ensures EventData(line + eol + rest) == EventData(rest)
  {
    hide Lines, Join;
    FirstLine(line, rest, eol);
    assert ([line] + Lines(rest))[1..] == Lines(rest);
  }

  // -- The client as an object --------------------------------------------------------------------

  class SseState {
    const reader: Reader
    const ending: TaskError
    var buffer: seq<byte>
    var previous: Option<TaskSnapshot>
    var finished: bool
    var chunks: seq<seq<byte>>

    /** The buffer never exceeds its bound. */
    ghost predicate Valid()
      reads this
    {
      |buffer| <= MAX_TASK_WIRE_BYTES
    }

    ghost function Model(): Sse
      reads this
    {
      Sse(buffer, previous, finished, chunks, ending)
    }

    constructor (reader: Reader, chunks: seq<seq<byte>>, ending: TaskError)
      ensures Valid() && this.reader == reader && Model() == Opened(chunks, ending)
    {
      this.reader, this.chunks, this.ending := reader, chunks, ending;
      buffer, previous, finished := [], None, false;
    }

    method ReadSnapshot() returns (result: Result<TaskSnapshot>)
      requires Valid()
      modifies this
      ensures Valid() && Next(result, Model()) == NextSnapshot(reader, old(Model()))
    {
      hide Boundary, ReadFrame;
      while true
        invariant Valid()
        invariant NextSnapshot(reader, Model()) == NextSnapshot(reader, old(Model()))
        decreases |chunks|, |buffer|
      {
        var cut := EventBoundary(buffer);
        if cut.Some? {
          var frame := buffer[..cut.value.dataEnd];
          buffer := buffer[cut.value.frameEnd..];
          var outcome := ReadFrame(reader, previous, frame);
          match outcome {
            case Skipped => continue;
            case Refused(error, kept) =>
              previous := kept;
              return Err(error);
            case Read(snapshot) =>
              previous := Some(snapshot);
              finished := snapshot.state.IsTerminal();
              return Ok(snapshot);
          }
        }
        if chunks == [] {
          return Err(ending);
        }
        var chunk := chunks[0];
        chunks := chunks[1..];
        if |chunk| > MAX_TASK_WIRE_BYTES - |buffer| {
          return Err(Protocol);
        }
        buffer := buffer + chunk;
      }
    }

    /** One item of the stream of snapshots; nothing after an error or a terminal snapshot. */
    method Poll() returns (item: Option<Result<TaskSnapshot>>)
      requires Valid()
      modifies this
      ensures Valid()
      ensures Results(reader, old(Model())) ==
              if item.None? then [] else [item.value] + Results(reader, Model())
    {
      hide NextSnapshot;
      if finished {
        return None;
      }
      var result := ReadSnapshot();
      if result.Err? {
        finished := true;
      }
      item := Some(result);
    }
  }
}
