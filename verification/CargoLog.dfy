/**
 The reading of a cargo test log (scripts/dual_track_acceptance/check_execution.py,
 `parse_cargo_test_output`, `TargetRun.problems` and `CargoTestRun.problems`): every test line is
 accounted for, and a log without problems has exactly the results its summaries print.
 */
module CargoLog {
  import opened Options

  datatype Outcome = Passed | Failed | Ignored

  datatype Summary = Summary(passed: nat, failed: nat, ignored: nat, measured: nat, filtered: nat) {
    function Of(outcome: Outcome): nat
    {
      match outcome
      case Passed => passed
      case Failed => failed
      case Ignored => ignored
    }
  }

  datatype Artifact = Artifact(package: string, kind: string, target: string)

  /** A line by what the parser recognises in it; `key` is an executable's normalised path. */
  datatype Line =
    | Built(key: string, artifact: Artifact)
    | CompilerError
    | Running(executable: string, key: string)
    | DocTests(package: string)
    | Planned(count: nat)
    | Test(name: string, outcome: Outcome)
    | Result(summary: Summary)
    | Other

  predicate IsHeader(line: Line)
  {
    line.Running? || line.DocTests?
  }

  datatype TargetRun = TargetRun(
    artifact: Artifact,
    executable: Option<string>,
    planned: Option<nat>,
    outcomes: map<string, Outcome>,
    duplicates: seq<string>,
    summary: Option<Summary>)

  datatype CargoRun = CargoRun(
    targets: seq<TargetRun>,
    unattributed: nat,
    unknown: seq<string>,
    errors: nat)

  // -- The parser -------------------------------------------------------------------------------

  function NewRun(artifact: Artifact, executable: Option<string>): TargetRun
  {
    TargetRun(artifact, executable, None, map[], [], None)
  }

  function Identify(artifacts: map<string, Artifact>, header: Line): Artifact
    requires IsHeader(header)
  {
    match header
    case DocTests(package) => Artifact(package, "doctest", package)
    case Running(executable, key) =>
      if key in artifacts then artifacts[key] else Artifact("unknown", "unknown", executable)
  }

  function Open(artifacts: map<string, Artifact>, header: Line): TargetRun
    requires IsHeader(header)
  {
    NewRun(Identify(artifacts, header), if header.Running? then Some(header.executable) else None)
  }

  /** What a line below a target's header changes in the target. */
  function Record(run: TargetRun, line: Line): TargetRun
  {
    match line
    case Planned(count) => run.(planned := Some(count))
    case Test(name, outcome) =>
      run.(duplicates := if name in run.outcomes then run.duplicates + [name] else run.duplicates,
           outcomes := run.outcomes[name := outcome])
    case Result(summary) => if run.summary.None? then run.(summary := Some(summary)) else run
    case _ => run
  }

  function RecordAll(run: TargetRun, lines: seq<Line>): TargetRun
  {
    if lines == [] then run else Record(RecordAll(run, lines[..|lines| - 1]), lines[|lines| - 1])
  }

  // -- The log by segments: the meaning of the result -------------------------------------------

  /** A header, all lines before it, and the lines after it up to the next header. */
  datatype Segment = Segment(before: seq<Line>, header: Line, body: seq<Line>)

  function UpToHeader(lines: seq<Line>): (front: seq<Line>)
    ensures forall l :: l in front ==> !IsHeader(l)
  {
    if lines == [] || IsHeader(lines[0]) then [] else [lines[0]] + UpToHeader(lines[1..])
  }

  function Segments(before: seq<Line>, lines: seq<Line>): (segments: seq<Segment>)
    ensures forall s :: s in segments ==> IsHeader(s.header)
    decreases |lines|
  {
    if lines == [] then []
    else
      var rest := Segments(before + [lines[0]], lines[1..]);
      if IsHeader(lines[0]) then [Segment(before, lines[0], UpToHeader(lines[1..]))] + rest else rest
  }

  /** The compiler artifacts reported by a log, the latest for each executable. */
  function Artifacts(lines: seq<Line>): map<string, Artifact>
  {
    if lines == [] then map[]
    else
      var last := lines[|lines| - 1];
      var earlier := Artifacts(lines[..|lines| - 1]);
      if last.Built? then earlier[last.key := last.artifact] else earlier
  }

  function TargetOf(segment: Segment): TargetRun
    requires IsHeader(segment.header)
  {
    RecordAll(Open(Artifacts(segment.before), segment.header), segment.body)
  }

  function Tests(lines: seq<Line>): nat
  {
    if lines == [] then 0 else (if lines[|lines| - 1].Test? then 1 else 0) + Tests(lines[..|lines| - 1])
  }

  function TestsWith(lines: seq<Line>, outcome: Outcome): nat
  {
    if lines == [] then 0
    else (if lines[|lines| - 1].Test? && lines[|lines| - 1].outcome == outcome then 1 else 0)
         + TestsWith(lines[..|lines| - 1], outcome)
  }

  function Errors(lines: seq<Line>): nat
  {
    if lines == [] then 0 else (if lines[|lines| - 1].CompilerError? then 1 else 0) + Errors(lines[..|lines| - 1])
  }

  /** The executables run without a compiler artifact reported before. */
  function Unknown(lines: seq<Line>): seq<string>
  {
    if lines == [] then []
    else
      var front, last := lines[..|lines| - 1], lines[|lines| - 1];
      Unknown(front) + if last.Running? && last.key !in Artifacts(front) then [last.executable] else []
  }

  /** The run a log describes. */
  ghost predicate Describes(lines: seq<Line>, run: CargoRun)
  {
    var segments := Segments([], lines);
    && |run.targets| == |segments|
    && (forall i :: 0 <= i < |segments| ==> run.targets[i] == TargetOf(segments[i]))
    && run.unattributed == Tests(UpToHeader(lines))
    && run.unknown == Unknown(lines)
    && run.errors == Errors(lines)
  }

  // -- Growing a log by a line --------------------------------------------------------------------

  lemma {:induction false} UpToHeaderAppend(lines: seq<Line>, line: Line)
    ensures UpToHeader(lines + [line]) ==
            if (exists l :: l in lines && IsHeader(l)) || IsHeader(line) then UpToHeader(lines) else lines + [line]
    ensures (forall l :: l in lines ==> !IsHeader(l)) ==> UpToHeader(lines) == lines
  {
    if lines == [] {
      assert (lines + [line])[1..] == [];
    } else {
      assert (lines + [line])[0] == lines[0] && (lines + [line])[1..] == lines[1..] + [line];
      UpToHeaderAppend(lines[1..], line);
      assert lines == [lines[0]] + lines[1..];
      if !IsHeader(lines[0]) && !(exists l :: l in lines && IsHeader(l)) && !IsHeader(line) {
        assert [lines[0]] + (lines[1..] + [line]) == lines + [line];
      }
    }
  }

  /** The segments once one more line is read. */
  function Grown(segments: seq<Segment>, lines: seq<Line>, line: Line): seq<Segment>
  {
    if IsHeader(line) then segments + [Segment(lines, line, [])]
    else if segments == [] then []
    else
      var n := |segments| - 1;
      segments[n := segments[n].(body := segments[n].body + [line])]
  }

  lemma {:induction false} NoSegments(before: seq<Line>, lines: seq<Line>)
    ensures Segments(before, lines) == [] <==> forall l :: l in lines ==> !IsHeader(l)
    decreases |lines|
  {
    hide UpToHeader;
    if lines != [] {
      NoSegments(before + [lines[0]], lines[1..]);
      assert forall l :: l in lines <==> l == lines[0] || l in lines[1..];
    }
  }

  lemma {:induction false} SegmentsAppend(before: seq<Line>, lines: seq<Line>, line: Line)
    ensures Segments(before, lines + [line]) == Grown(Segments(before, lines), before + lines, line)
    decreases |lines|
  {
    hide UpToHeader;
    var all := lines + [line];
    if lines == [] {
      assert all[1..] == [] && before + lines == before;
      assert UpToHeader([]) == [] by { NothingRead(); }
    } else {
      assert all[0] == lines[0] && all[1..] == lines[1..] + [line];
      var next := before + [lines[0]];
      assert next + lines[1..] == before + lines;
      SegmentsAppend(next, lines[1..], line);
      if IsHeader(lines[0]) {
        UpToHeaderAppend(lines[1..], line);
        NoSegments(next, lines[1..]);
        FirstSegment(Segment(before, lines[0], UpToHeader(lines[1..])), Segments(next, lines[1..]), before + lines, line);
      }
    }
  }

  /** A segment put in front of the others grows only while it is the last. */
  lemma FirstSegment(first: Segment, rest: seq<Segment>, lines: seq<Line>, line: Line)
    ensures Grown([first] + rest, lines, line) ==
            if rest == [] && !IsHeader(line) then [first.(body := first.body + [line])]
            else [first] + Grown(rest, lines, line)
  {
  }

  // -- The loop -----------------------------------------------------------------------------------

  method ParseCargoTestOutput(lines: seq<Line>) returns (run: CargoRun)
    ensures Describes(lines, run)
  {
    hide Tests, Errors, Unknown, Artifacts, Segments, UpToHeader, TargetOf;
    var artifacts: map<string, Artifact> := map[];
    var targets: seq<TargetRun> := [];
    var unattributed, unknown, errors := 0, [], 0;
    NothingRead();
    assert lines[..0] == [];
    for i := 0 to |lines|
      invariant artifacts == Artifacts(lines[..i])
      invariant Describes(lines[..i], CargoRun(targets, unattributed, unknown, errors))
    {
      var line := lines[i];
      assert lines[..i + 1] == lines[..i] + [line];
      OneMore(lines[..i], line, CargoRun(targets, unattributed, unknown, errors));
      match line {
        case Built(key, artifact) => artifacts := artifacts[key := artifact];
        case CompilerError => errors := errors + 1;
        case Running(executable, key) =>
          if key in artifacts {
            targets := targets + [NewRun(artifacts[key], Some(executable))];
          } else {
            unknown := unknown + [executable];
            targets := targets + [NewRun(Artifact("unknown", "unknown", executable), Some(executable))];
          }
        case DocTests(package) =>
          targets := targets + [NewRun(Artifact(package, "doctest", package), None)];
        case _ =>
          if targets == [] {
            if line.Test? {
              unattributed := unattributed + 1;
            }
          } else {
            var current := targets[|targets| - 1];
            match line {
              case Planned(count) => current := current.(planned := Some(count));
              case Test(name, outcome) =>
                if name in current.outcomes {
                  current := current.(duplicates := current.duplicates + [name]);
                }
                current := current.(outcomes := current.outcomes[name := outcome]);
              case Result(summary) =>
                if current.summary.None? {
                  current := current.(summary := Some(summary));
                }
              case _ =>
            }
            targets := targets[|targets| - 1 := current];
          }
      }
    }
    assert lines[..|lines|] == lines;
    run := CargoRun(targets, unattributed, unknown, errors);
  }

  lemma NothingRead()
    ensures Describes([], CargoRun([], 0, [], 0)) && Artifacts([]) == map[] && UpToHeader([]) == []
  {
  }

  /** One more line, read after a log described so far. */
  function After(artifacts: map<string, Artifact>, run: CargoRun, line: Line): CargoRun
  {
    if line.CompilerError? then run.(errors := run.errors + 1)
    else if IsHeader(line) then
      run.(targets := run.targets + [Open(artifacts, line)],
           unknown := if line.Running? && line.key !in artifacts then run.unknown + [line.executable] else run.unknown)
    else if line.Built? then run
    else if run.targets == [] then if line.Test? then run.(unattributed := run.unattributed + 1) else run
    else
      var n := |run.targets| - 1;
      run.(targets := run.targets[n := Record(run.targets[n], line)])
  }

  lemma OneMore(lines: seq<Line>, line: Line, run: CargoRun)
    requires Describes(lines, run)
    ensures Describes(lines + [line], After(Artifacts(lines), run, line))
    ensures Artifacts(lines + [line]) ==
            if line.Built? then Artifacts(lines)[line.key := line.artifact] else Artifacts(lines)
  {
    hide Artifacts, Tests, Errors, Unknown, Segments, UpToHeader, TargetOf;
    Counts(lines, line);
    SegmentsAppend([], lines, line);
    NoSegments([], lines);
    assert [] + lines == lines;
    UpToHeaderAppend(lines, line);
    if IsHeader(line) {
      TargetOpened(lines, line);
    } else if run.targets != [] {
      var segments := Segments([], lines);
      TargetGrown(segments[|segments| - 1], line);
    }
  }

  lemma Counts(lines: seq<Line>, line: Line)
    ensures Tests(lines + [line]) == Tests(lines) + if line.Test? then 1 else 0
    ensures Errors(lines + [line]) == Errors(lines) + if line.CompilerError? then 1 else 0
    ensures Unknown(lines + [line]) ==
            Unknown(lines) + if line.Running? && line.key !in Artifacts(lines) then [line.executable] else []
    ensures Artifacts(lines + [line]) ==
            if line.Built? then Artifacts(lines)[line.key := line.artifact] else Artifacts(lines)
  {
    assert (lines + [line])[..|lines|] == lines;
  }

  lemma TargetOpened(lines: seq<Line>, header: Line)
    requires IsHeader(header)
    ensures TargetOf(Segment(lines, header, [])) == Open(Artifacts(lines), header)
  {
    hide Artifacts;
  }

  lemma TargetGrown(segment: Segment, line: Line)
    requires IsHeader(segment.header)
    ensures TargetOf(segment.(body := segment.body + [line])) == Record(TargetOf(segment), line)
  {
    hide Artifacts, Record, Open;
    assert (segment.body + [line])[..|segment.body|] == segment.body;
  }

  // -- Conservation -------------------------------------------------------------------------------

  function TestsInSegments(segments: seq<Segment>, outcome: Outcome): nat
  {
    if segments == [] then 0
    else TestsWith(segments[0].body, outcome) + TestsInSegments(segments[1..], outcome)
  }

  lemma {:induction false} TestsFromFront(lines: seq<Line>, outcome: Outcome)
    requires lines != []
    ensures TestsWith(lines, outcome) ==
            (if lines[0].Test? && lines[0].outcome == outcome then 1 else 0) + TestsWith(lines[1..], outcome)
  {
    if |lines| > 1 {
      var front := lines[..|lines| - 1];
      TestsFromFront(front, outcome);
      assert front[1..] == lines[1..][..|lines| - 2];
    }
  }

  /** Every test line is above the first header or in the body of exactly one segment. */
  lemma {:induction false} TestsBySegment(before: seq<Line>, lines: seq<Line>, outcome: Outcome)
    ensures TestsWith(lines, outcome) ==
            TestsWith(UpToHeader(lines), outcome) + TestsInSegments(Segments(before, lines), outcome)
    decreases |lines|
  {
    hide TestsWith;
    if lines == [] {
      NoTests(outcome);
    } else {
      var rest := lines[1..];
      TestsFromFront(lines, outcome);
      TestsBySegment(before + [lines[0]], rest, outcome);
      if IsHeader(lines[0]) {
        NoTests(outcome);
        var segments := Segments(before, lines);
        assert segments[0].body == UpToHeader(rest) && segments[1..] == Segments(before + [lines[0]], rest);
      } else {
        var front := UpToHeader(lines);
        TestsFromFront(front, outcome);
        assert front[0] == lines[0] && front[1..] == UpToHeader(rest);
      }
    }
  }

  lemma NoTests(outcome: Outcome)
    ensures TestsWith([], outcome) == 0 && TestsInSegments([], outcome) == 0
  {
  }

  lemma {:induction false} TestsByOutcome(lines: seq<Line>)
    ensures Tests(lines) == TestsWith(lines, Passed) + TestsWith(lines, Failed) + TestsWith(lines, Ignored)
  {
    if lines != [] {
      TestsByOutcome(lines[..|lines| - 1]);
    }
  }

  /** Each test line adds an outcome or a duplicate. */
  lemma {:induction false} BodyConserved(run: TargetRun, lines: seq<Line>)
    ensures var after := RecordAll(run, lines);
            |after.outcomes| + |after.duplicates| == |run.outcomes| + |run.duplicates| + Tests(lines)
  {
    if lines != [] {
      var before, last := RecordAll(run, lines[..|lines| - 1]), lines[|lines| - 1];
      BodyConserved(run, lines[..|lines| - 1]);
      if last.Test? {
        UpdateCount(before.outcomes, last.name, last.outcome);
      }
    }
  }

  lemma UpdateCount(outcomes: map<string, Outcome>, name: string, outcome: Outcome)
    ensures |outcomes[name := outcome]| == |outcomes| + if name in outcomes then 0 else 1
  {
    var after := outcomes[name := outcome];
    assert after.Keys == outcomes.Keys + {name};
    assert |after.Keys| == |after| && |outcomes.Keys| == |outcomes|;
  }

  /** Recorded outcomes and duplicates over all targets. */
  function Recorded(targets: seq<TargetRun>): nat
  {
    if targets == [] then 0
    else |targets[0].outcomes| + |targets[0].duplicates| + Recorded(targets[1..])
  }

  lemma {:induction false} SegmentsConserved(segments: seq<Segment>, targets: seq<TargetRun>)
    requires |targets| == |segments|
    requires forall i :: 0 <= i < |segments| ==> IsHeader(segments[i].header) && targets[i] == TargetOf(segments[i])
    ensures Recorded(targets) == TestsInSegments(segments, Passed) + TestsInSegments(segments, Failed)
                                 + TestsInSegments(segments, Ignored)
  {
    hide Artifacts, TestsWith;
    if segments != [] {
      SegmentsConserved(segments[1..], targets[1..]);
      assert targets[0] == TargetOf(segments[0]);
      BodyConserved(Open(Artifacts(segments[0].before), segments[0].header), segments[0].body);
      TestsByOutcome(segments[0].body);
    }
  }

  /** Parsing conserves results: every test line of a log is a recorded outcome, a duplicate or
      unattributed. */
  lemma ResultsAreConserved(lines: seq<Line>, run: CargoRun)
    requires Describes(lines, run)
    ensures Tests(lines) == Recorded(run.targets) + run.unattributed
  {
    hide Segments, UpToHeader, TargetOf, TestsWith, TestsInSegments;
    TestsByOutcome(lines);
    TestsByOutcome(UpToHeader(lines));
    TestsBySegment([], lines, Passed);
    TestsBySegment([], lines, Failed);
    TestsBySegment([], lines, Ignored);
    SegmentsConserved(Segments([], lines), run.targets);
  }

  // -- Problems -----------------------------------------------------------------------------------

  function Count(outcomes: map<string, Outcome>, outcome: Outcome): nat
  {
    |set name | name in outcomes && outcomes[name] == outcome|
  }

  datatype Problem =
    | NoSummary
    | Disagrees(outcome: Outcome, counted: nat, printed: nat)
    | NotAllReported(planned: nat, reported: nat)
    | FilteredOut(count: nat)
    | Repeated(names: seq<string>)

  function CountProblem(run: TargetRun, summary: Summary, outcome: Outcome): seq<Problem>
  {
    var counted := Count(run.outcomes, outcome);
    if counted != summary.Of(outcome) then [Disagrees(outcome, counted, summary.Of(outcome))] else []
  }

  /** `TargetRun.problems`. */
  function TargetProblems(run: TargetRun): seq<Problem>
  {
    if run.summary.None? then [NoSummary]
    else
      var summary := run.summary.value;
      CountProblem(run, summary, Passed) + CountProblem(run, summary, Failed) + CountProblem(run, summary, Ignored)
      + (if run.planned.Some? && run.planned.value != |run.outcomes|
         then [NotAllReported(run.planned.value, |run.outcomes|)] else [])
      + (if summary.filtered != 0 then [FilteredOut(summary.filtered)] else [])
      + (if run.duplicates != [] then [Repeated(run.duplicates)] else [])
  }

  datatype RunProblem =
    | InTarget(artifact: Artifact, problem: Problem)
    | OutsideTargets(count: nat)
    | NoArtifact(executables: seq<string>)
    | CompilerErrors(count: nat)

  function Labelled(artifact: Artifact, problems: seq<Problem>): seq<RunProblem>
  {
    seq(|problems|, i requires 0 <= i < |problems| => InTarget(artifact, problems[i]))
  }

  function InTargets(targets: seq<TargetRun>): seq<RunProblem>
  {
    if targets == [] then []
    else Labelled(targets[0].artifact, TargetProblems(targets[0])) + InTargets(targets[1..])
  }

  /** `CargoTestRun.problems`. */
  function Problems(run: CargoRun): seq<RunProblem>
  {
    InTargets(run.targets)
    + (if run.unattributed != 0 then [OutsideTargets(run.unattributed)] else [])
    + (if run.unknown != [] then [NoArtifact(run.unknown)] else [])
    + (if run.errors != 0 then [CompilerErrors(run.errors)] else [])
  }

  /** A target whose counted results are what its summary prints, all of them, each once. */
  predicate Complete(run: TargetRun)
  {
    && run.summary.Some?
    && (forall outcome :: Count(run.outcomes, outcome) == run.summary.value.Of(outcome))
    && (run.planned.Some? ==> run.planned.value == |run.outcomes|)
    && run.summary.value.filtered == 0
    && run.duplicates == []
  }

  lemma CompleteIs(run: TargetRun)
    ensures TargetProblems(run) == [] <==> Complete(run)
  {
    hide Count;
    if TargetProblems(run) == [] {
      var summary := run.summary.value;
      forall outcome
        ensures Count(run.outcomes, outcome) == summary.Of(outcome)
      {
        assert CountProblem(run, summary, outcome) == [];
      }
    }
  }

  lemma {:induction false} InTargetsIs(targets: seq<TargetRun>)
    ensures InTargets(targets) == [] <==> forall t :: t in targets ==> Complete(t)
  {
    hide Complete, TargetProblems;
    if targets != [] {
      CompleteIs(targets[0]);
      InTargetsIs(targets[1..]);
      assert forall t :: t in targets <==> t == targets[0] || t in targets[1..];
    }
  }

  /** A run has no problems exactly if every target is complete, no test line is outside a target,
      every executable is known, and nothing failed to compile. */
  lemma NoProblemsIs(run: CargoRun)
    ensures Problems(run) == [] <==>
            && (forall t :: t in run.targets ==> Complete(t))
            && run.unattributed == 0 && run.unknown == [] && run.errors == 0
  {
    hide InTargets, Complete;
    InTargetsIs(run.targets);
  }

  // -- What an empty problem list means -----------------------------------------------------------

  /** The first result line. */
  function Printed(lines: seq<Line>): Option<Summary>
  {
    if lines == [] then None
    else if lines[0].Result? then Some(lines[0].summary)
    else Printed(lines[1..])
  }

  lemma {:induction false} PrintedAppend(lines: seq<Line>, line: Line)
    ensures Printed(lines + [line]) ==
            if Printed(lines).Some? then Printed(lines)
            else if line.Result? then Some(line.summary) else None
  {
    if lines == [] {
      assert (lines + [line])[1..] == [];
    } else {
      assert (lines + [line])[1..] == lines[1..] + [line];
      PrintedAppend(lines[1..], line);
    }
  }

  /** A target keeps the first summary printed below its header. */
  lemma {:induction false} SummaryIsPrinted(run: TargetRun, lines: seq<Line>)
    requires run.summary.None?
    ensures RecordAll(run, lines).summary == Printed(lines)
  {
    if lines != [] {
      var front, last := lines[..|lines| - 1], lines[|lines| - 1];
      SummaryIsPrinted(run, front);
      PrintedAppend(front, last);
      assert front + [last] == lines;
    }
  }

  lemma CountAppend(outcomes: map<string, Outcome>, name: string, added: Outcome, outcome: Outcome)
    requires name !in outcomes
    ensures Count(outcomes[name := added], outcome) == Count(outcomes, outcome) + if added == outcome then 1 else 0
  {
    var before := set n | n in outcomes && outcomes[n] == outcome;
    var after := outcomes[name := added];
    var now := set n | n in after && after[n] == outcome;
    assert name !in before;
    assert now == if added == outcome then before + {name} else before;
  }

  /** Without duplicates, the counted results are the test lines. */
  lemma {:induction false} CountedIsSeen(run: TargetRun, lines: seq<Line>, outcome: Outcome)
    requires run.outcomes == map[] && RecordAll(run, lines).duplicates == []
    ensures Count(RecordAll(run, lines).outcomes, outcome) == TestsWith(lines, outcome)
  {
    hide Count;
    if lines == [] {
      NothingCounted(outcome);
    } else {
      var front, last := lines[..|lines| - 1], lines[|lines| - 1];
      var before := RecordAll(run, front);
      CountedIsSeen(run, front, outcome);
      if last.Test? {
        CountAppend(before.outcomes, last.name, last.outcome, outcome);
      }
    }
  }

  lemma NothingCounted(outcome: Outcome)
    ensures Count(map[], outcome) == 0
  {
    var none: map<string, Outcome> := map[];
    assert (set name | name in none && none[name] == outcome) == {};
  }

  /** The results the summaries of all targets print. */
  function PrintedTotal(segments: seq<Segment>, outcome: Outcome): nat
  {
    if segments == [] then 0
    else (if Printed(segments[0].body).Some? then Printed(segments[0].body).value.Of(outcome) else 0)
         + PrintedTotal(segments[1..], outcome)
  }

  /** The test lines below a header, the target's counts and the summary printed there agree. */
  predicate Reconciles(segment: Segment, run: TargetRun)
  {
    && Printed(segment.body).Some?
    && forall outcome :: TestsWith(segment.body, outcome) == Count(run.outcomes, outcome)
                                                          == Printed(segment.body).value.Of(outcome)
  }

  lemma CompleteTarget(segment: Segment)
    requires IsHeader(segment.header) && Complete(TargetOf(segment))
    ensures Reconciles(segment, TargetOf(segment))
  {
    hide Artifacts, Count, TestsWith, RecordAll;
    var start := Open(Artifacts(segment.before), segment.header);
    SummaryIsPrinted(start, segment.body);
    forall outcome
      ensures Count(TargetOf(segment).outcomes, outcome) == TestsWith(segment.body, outcome)
    {
      CountedIsSeen(start, segment.body, outcome);
    }
  }

  lemma {:induction false} CompleteSegments(segments: seq<Segment>, outcome: Outcome)
    requires forall s :: s in segments ==> IsHeader(s.header) && Complete(TargetOf(s))
    ensures TestsInSegments(segments, outcome) == PrintedTotal(segments, outcome)
  {
    hide Complete, TestsWith, TargetOf, Printed, Count;
    if segments != [] {
      CompleteTarget(segments[0]);
      CompleteSegments(segments[1..], outcome);
    }
  }

  /** A log without problems holds exactly the results its summaries print: for every target the
      test lines below its header, its counts and the summary printed there agree, and over the
      whole log as many tests passed, failed and were ignored as the summaries say. */
  lemma NoProblemsReconciles(lines: seq<Line>, run: CargoRun)
    requires Describes(lines, run) && Problems(run) == []
    ensures forall outcome :: TestsWith(lines, outcome) == PrintedTotal(Segments([], lines), outcome)
    ensures forall i :: 0 <= i < |run.targets| ==> Reconciles(Segments([], lines)[i], run.targets[i])
  {
    hide Problems, Complete, Reconciles, Segments, TargetOf, TestsWith, Count, Printed, TestsInSegments, PrintedTotal,
         UpToHeader;
    var segments := Segments([], lines);
    NoProblemsIs(run);
    forall s | s in segments
      ensures Complete(TargetOf(s))
    {
      var i :| 0 <= i < |segments| && segments[i] == s;
      assert run.targets[i] in run.targets;
    }
    forall outcome
      ensures TestsWith(lines, outcome) == PrintedTotal(segments, outcome)
    {
      TestsBySegment([], lines, outcome);
      CompleteSegments(segments, outcome);
      NoneOutside(lines, outcome);
    }
    forall i | 0 <= i < |segments|
      ensures Reconciles(segments[i], run.targets[i])
    {
      CompleteTarget(segments[i]);
    }
  }

  lemma NoneOutside(lines: seq<Line>, outcome: Outcome)
    requires Tests(UpToHeader(lines)) == 0
    ensures TestsWith(UpToHeader(lines), outcome) == 0
  {
    hide Tests, TestsWith, UpToHeader;
    TestsByOutcome(UpToHeader(lines));
  }
}
