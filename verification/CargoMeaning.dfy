/**
 What a cargo test log says, by the positions of its lines
 (scripts/dual_track_acceptance/check_execution.py, `parse_cargo_test_output`): which lines make a
 target, and what each line of the log decides in the result.
 */
module CargoMeaning {
  import opened Options
  import opened Selections
  import opened CargoLog

  // -- Targets ------------------------------------------------------------------------------------

  ghost function Headers(lines: seq<Line>): set<nat>
  {
    set i: nat | i < |lines| && (lines[i].Running? || lines[i].DocTests?)
  }

  /** Where the lines below the i-th header end. */
  function End(heads: seq<nat>, i: nat, n: nat): nat
  {
    if i + 1 < |heads| then heads[i + 1] else n
  }

  /** A header with all lines above it and the lines below it up to an end. */
  predicate Covers(lines: seq<Line>, head: nat, end: nat, segment: Segment)
  {
    && head < end <= |lines|
    && segment.before == lines[..head] && segment.header == lines[head] && segment.body == lines[head + 1..end]
  }

  ghost predicate Splits(lines: seq<Line>, heads: seq<nat>, segments: seq<Segment>)
  {
    && |segments| == |heads|
    && forall i :: 0 <= i < |heads| ==> Covers(lines, heads[i], End(heads, i, |lines|), segments[i])
  }

  /** The segments of a log are its headers, each with the lines down to the next. */
  lemma {:induction false} SegmentsExactly(lines: seq<Line>) returns (heads: seq<nat>)
    ensures Selects(heads, Headers(lines)) && Splits(lines, heads, Segments([], lines))
  {
    hide Selects, Segments, Splits;
    if lines == [] {
      heads := [];
      SelectsNothing();
      assert Headers(lines) == {};
      NoSplit();
    } else {
      var front, n := lines[..|lines| - 1], |lines| - 1;
      var earlier := SegmentsExactly(front);
      assert lines == front + [lines[n]] && [] + front == front;
      SegmentsAppend([], front, lines[n]);
      SplitGrows(front, lines[n], earlier, Segments([], front));
      if IsHeader(lines[n]) {
        heads := earlier + [n];
        SelectsOneMore(earlier, Headers(front), n);
        assert Headers(lines) == Headers(front) + {n};
      } else {
        heads := earlier;
        assert Headers(lines) == Headers(front);
      }
    }
  }

  lemma NoSplit()
    ensures Splits([], [], Segments([], []))
  {
  }

  lemma SplitGrows(lines: seq<Line>, line: Line, heads: seq<nat>, segments: seq<Segment>)
    requires Splits(lines, heads, segments)
    ensures Splits(lines + [line], if IsHeader(line) then heads + [|lines|] else heads, Grown(segments, lines, line))
  {
    hide Covers;
    forall i | 0 <= i < |heads|
      ensures Covers(lines + [line], heads[i], End(heads, i, |lines|), segments[i])
      ensures End(heads, i, |lines|) == |lines| ==>
                Covers(lines + [line], heads[i], |lines| + 1, segments[i].(body := segments[i].body + [line]))
    {
      StillCovers(lines, line, heads[i], End(heads, i, |lines|), segments[i]);
    }
    HeaderCovers(lines, line);
  }

  lemma StillCovers(lines: seq<Line>, line: Line, head: nat, end: nat, segment: Segment)
    requires Covers(lines, head, end, segment)
    ensures Covers(lines + [line], head, end, segment)
    ensures end == |lines| ==> Covers(lines + [line], head, end + 1, segment.(body := segment.body + [line]))
  {
    var all := lines + [line];
    assert all[..head] == lines[..head] && all[head] == lines[head];
    assert all[head + 1..end] == lines[head + 1..end];
    if end == |lines| {
      assert all[head + 1..end + 1] == lines[head + 1..end] + [line];
    }
  }

  lemma HeaderCovers(lines: seq<Line>, header: Line)
    ensures Covers(lines + [header], |lines|, |lines| + 1, Segment(lines, header, []))
  {
    var all := lines + [header];
    assert all[..|lines|] == lines && all[|lines| + 1..|lines| + 1] == [];
  }

  // -- The first and the last line of a kind --------------------------------------------------------

  /** A kind of line: an artifact of an executable, a number of tests, a test of a name, a summary. */
  datatype Kind = Builds(key: string) | Plans | TestsOf(name: string) | Sums {
    predicate Has(line: Line)
    {
      match this
      case Builds(key) => line.Built? && line.key == key
      case Plans => line.Planned?
      case TestsOf(name) => line.Test? && line.name == name
      case Sums => line.Result?
    }
  }

  predicate At(lines: seq<Line>, i: nat, kind: Kind)
    ensures At(lines, i, kind) ==> i < |lines| && kind.Has(lines[i])
  {
    i < |lines| && kind.Has(lines[i])
  }

  ghost predicate Nowhere(lines: seq<Line>, kind: Kind)
  {
    forall i: nat :: !At(lines, i, kind)
  }

  ghost predicate LastAt(lines: seq<Line>, i: nat, kind: Kind)
    ensures LastAt(lines, i, kind) ==> At(lines, i, kind)
  {
    At(lines, i, kind) && forall j: nat :: i < j ==> !At(lines, j, kind)
  }

  ghost predicate FirstAt(lines: seq<Line>, i: nat, kind: Kind)
    ensures FirstAt(lines, i, kind) ==> At(lines, i, kind)
  {
    At(lines, i, kind) && forall j: nat :: j < i ==> !At(lines, j, kind)
  }

  lemma AtAppend(lines: seq<Line>, line: Line, i: nat, kind: Kind)
    ensures At(lines + [line], i, kind) <==> At(lines, i, kind) || (i == |lines| && kind.Has(line))
    ensures At(lines, i, kind) ==> i < |lines| && (lines + [line])[i] == lines[i]
  {
  }

  lemma NowhereAppend(lines: seq<Line>, line: Line, kind: Kind)
    ensures Nowhere(lines + [line], kind) <==> Nowhere(lines, kind) && !kind.Has(line)
  {
    hide At;
    AtAppend(lines, line, |lines|, kind);
    forall i: nat
      ensures At(lines + [line], i, kind) <==> At(lines, i, kind) || (i == |lines| && kind.Has(line))
    {
      AtAppend(lines, line, i, kind);
    }
  }

  lemma LastAppend(lines: seq<Line>, line: Line, i: nat, kind: Kind)
    requires LastAt(lines + [line], i, kind)
    ensures if kind.Has(line) then i == |lines|
            else LastAt(lines, i, kind) && At(lines, i, kind) && i < |lines| && (lines + [line])[i] == lines[i]
  {
    hide At;
    AtAppend(lines, line, |lines|, kind);
    AtAppend(lines, line, i, kind);
    forall j: nat | i < j
      ensures !At(lines, j, kind)
    {
      AtAppend(lines, line, j, kind);
    }
  }

  lemma FirstAppend(lines: seq<Line>, line: Line, i: nat, kind: Kind)
    requires FirstAt(lines + [line], i, kind)
    ensures if Nowhere(lines, kind) then i == |lines| && kind.Has(line)
            else FirstAt(lines, i, kind) && At(lines, i, kind) && i < |lines| && (lines + [line])[i] == lines[i]
  {
    hide At;
    AtAppend(lines, line, i, kind);
    forall j: nat
      ensures At(lines, j, kind) ==> At(lines + [line], j, kind) && j < |lines|
    {
      AtAppend(lines, line, j, kind);
    }
  }

  // -- Artifacts ----------------------------------------------------------------------------------

  /** The last report about an executable counts. */
  lemma {:induction false} ArtifactsExactly(lines: seq<Line>, key: string)
    ensures key in Artifacts(lines) <==> !Nowhere(lines, Builds(key))
    ensures forall i: nat :: LastAt(lines, i, Builds(key)) ==>
                               key in Artifacts(lines) && Artifacts(lines)[key] == lines[i].artifact
  {
    if lines != [] {
      hide At, LastAt, Nowhere;
      var front, last := lines[..|lines| - 1], lines[|lines| - 1];
      assert front + [last] == lines;
      ArtifactsExactly(front, key);
      NowhereAppend(front, last, Builds(key));
      forall i: nat | LastAt(lines, i, Builds(key))
        ensures key in Artifacts(lines) && Artifacts(lines)[key] == lines[i].artifact
      {
        LastAppend(front, last, i, Builds(key));
      }
    }
  }

  /** Which target a header names. Documentation tests name their package; an executable is the
      target of the last artifact reported for it above the header, or unknown. */
  ghost predicate Names(before: seq<Line>, header: Line, target: TargetRun)
  {
    && (header.DocTests? ==>
          && target.executable == None
          && target.artifact.package == header.package && target.artifact.kind == "doctest"
          && target.artifact.target == header.package)
    && (header.Running? ==>
          && target.executable == Some(header.executable)
          && (forall i: nat :: LastAt(before, i, Builds(header.key)) ==> target.artifact == before[i].artifact)
          && (Nowhere(before, Builds(header.key)) ==>
                && target.artifact.package == "unknown" && target.artifact.kind == "unknown"
                && target.artifact.target == header.executable))
  }

  // -- The lines below a header ---------------------------------------------------------------------

  /** The last announced number of tests counts. */
  ghost predicate PlannedIs(body: seq<Line>, planned: Option<nat>)
  {
    && (planned.None? <==> Nowhere(body, Plans))
    && forall i: nat :: LastAt(body, i, Plans) ==> planned == Some(body[i].count)
  }

  /** The first summary counts. */
  ghost predicate SummaryIs(body: seq<Line>, summary: Option<Summary>)
  {
    && (summary.None? <==> Nowhere(body, Sums))
    && forall i: nat :: FirstAt(body, i, Sums) ==> summary == Some(body[i].summary)
  }

  /** Exactly the tests with a line have an outcome, the one of their last line. */
  ghost predicate OutcomesAre(body: seq<Line>, outcomes: map<string, Outcome>)
  {
    forall name :: OutcomeIs(body, name, outcomes)
  }

  ghost predicate OutcomeIs(body: seq<Line>, name: string, outcomes: map<string, Outcome>)
  {
    && (name in outcomes <==> !Nowhere(body, TestsOf(name)))
    && forall i: nat :: LastAt(body, i, TestsOf(name)) ==> name in outcomes && outcomes[name] == body[i].outcome
  }

  /** The test lines whose name has a line above. */
  ghost function Repeats(body: seq<Line>): set<nat>
  {
    set i: nat | i < |body| && body[i].Test? && !Nowhere(body[..i], TestsOf(body[i].name))
  }

  ghost predicate NamedAt(body: seq<Line>, picked: seq<nat>, names: seq<string>)
  {
    && |names| == |picked|
    && forall i :: 0 <= i < |picked| ==> At(body, picked[i], TestsOf(names[i]))
  }

  /** The repeated names, one for each repetition, in the order of the lines. */
  ghost predicate RepeatedAre(body: seq<Line>, names: seq<string>)
  {
    exists picked: seq<nat> :: Selects(picked, Repeats(body)) && NamedAt(body, picked, names)
  }

  lemma {:induction false} PlannedExactly(run: TargetRun, body: seq<Line>)
    requires run.planned == None
    ensures PlannedIs(body, RecordAll(run, body).planned)
  {
    hide At, LastAt;
    if body != [] {
      hide Nowhere;
      var front, last := body[..|body| - 1], body[|body| - 1];
      assert front + [last] == body;
      PlannedExactly(run, front);
      NowhereAppend(front, last, Plans);
      forall i: nat | LastAt(body, i, Plans)
        ensures RecordAll(run, body).planned == Some(body[i].count)
      {
        LastAppend(front, last, i, Plans);
      }
    }
  }

  lemma {:induction false} SummaryExactly(run: TargetRun, body: seq<Line>)
    requires run.summary == None
    ensures SummaryIs(body, RecordAll(run, body).summary)
  {
    hide At, FirstAt;
    if body != [] {
      hide Nowhere;
      var front, last := body[..|body| - 1], body[|body| - 1];
      assert front + [last] == body;
      SummaryExactly(run, front);
      NowhereAppend(front, last, Sums);
      forall i: nat | FirstAt(body, i, Sums)
        ensures RecordAll(run, body).summary == Some(body[i].summary)
      {
        FirstAppend(front, last, i, Sums);
      }
    }
  }

  lemma {:induction false} OutcomesExactly(run: TargetRun, body: seq<Line>)
    requires run.outcomes == map[]
    ensures OutcomesAre(body, RecordAll(run, body).outcomes)
  {
    hide OutcomesAre, Record;
    if body == [] {
      NoOutcomes();
    } else {
      var front, last := body[..|body| - 1], body[|body| - 1];
      OutcomesExactly(run, front);
      OutcomesGrow(front, last, RecordAll(run, front).outcomes);
      RecordedOutcomes(RecordAll(run, front), last);
      assert front + [last] == body;
    }
  }

  lemma RecordedOutcomes(run: TargetRun, line: Line)
    ensures Record(run, line).outcomes == if line.Test? then run.outcomes[line.name := line.outcome] else run.outcomes
  {
  }

  lemma NoOutcomes()
    ensures OutcomesAre([], map[])
  {
  }

  lemma OutcomesGrow(body: seq<Line>, line: Line, outcomes: map<string, Outcome>)
    requires OutcomesAre(body, outcomes)
    ensures OutcomesAre(body + [line], if line.Test? then outcomes[line.name := line.outcome] else outcomes)
  {
    hide At, LastAt, Nowhere;
    var all := body + [line];
    var now := if line.Test? then outcomes[line.name := line.outcome] else outcomes;
    forall name
      ensures OutcomeIs(all, name, now)
    {
      assert OutcomeIs(body, name, outcomes);
      NowhereAppend(body, line, TestsOf(name));
      forall i: nat | LastAt(all, i, TestsOf(name))
        ensures name in now && now[name] == all[i].outcome
      {
        LastAppend(body, line, i, TestsOf(name));
      }
    }
  }

  lemma {:induction false} RepeatsExactly(run: TargetRun, body: seq<Line>) returns (picked: seq<nat>)
    requires run.outcomes == map[] && run.duplicates == []
    ensures Selects(picked, Repeats(body)) && NamedAt(body, picked, RecordAll(run, body).duplicates)
  {
    hide Selects, OutcomesAre, NamedAt, Repeats;
    if body == [] {
      picked := [];
      SelectsNothing();
      NoRepeats();
    } else {
      var front, n := body[..|body| - 1], |body| - 1;
      var earlier := RepeatsExactly(run, front);
      var before := RecordAll(run, front);
      OutcomesExactly(run, front);
      RepeatsGrow(front, body[n], before.outcomes);
      assert front + [body[n]] == body;
      NamedGrows(front, body[n], earlier, before.duplicates);
      if body[n].Test? && body[n].name in before.outcomes {
        picked := earlier + [n];
        SelectsOneMore(earlier, Repeats(front), n);
      } else {
        picked := earlier;
      }
    }
  }

  lemma NoRepeats()
    ensures Repeats([]) == {} && NamedAt([], [], [])
  {
  }

  lemma NamedGrows(body: seq<Line>, line: Line, picked: seq<nat>, names: seq<string>)
    requires NamedAt(body, picked, names)
    ensures NamedAt(body + [line], picked, names)
    ensures line.Test? ==> NamedAt(body + [line], picked + [|body|], names + [line.name])
  {
  }

  lemma RepeatsGrow(body: seq<Line>, line: Line, outcomes: map<string, Outcome>)
    requires OutcomesAre(body, outcomes)
    ensures Repeats(body + [line]) ==
            if line.Test? && line.name in outcomes then Repeats(body) + {|body|} else Repeats(body)
    ensures forall i :: i in Repeats(body) ==> i < |body|
  {
    hide Nowhere, At, LastAt;
    var all := body + [line];
    assert line.Test? ==> OutcomeIs(body, line.name, outcomes);
    assert all[..|body|] == body;
    assert forall i: nat :: i < |body| ==> all[..i] == body[..i];
  }

  // -- The whole log --------------------------------------------------------------------------------

  /** A target, read off the log. */
  ghost predicate Tells(before: seq<Line>, header: Line, body: seq<Line>, target: TargetRun)
  {
    && Names(before, header, target)
    && PlannedIs(body, target.planned)
    && OutcomesAre(body, target.outcomes)
    && RepeatedAre(body, target.duplicates)
    && SummaryIs(body, target.summary)
  }

  lemma TargetExactly(segment: Segment)
    requires IsHeader(segment.header)
    ensures Tells(segment.before, segment.header, segment.body, TargetOf(segment))
  {
    hide Artifacts, RecordAll, PlannedIs, OutcomesAre, Repeats, Selects, NamedAt, SummaryIs, Names;
    var start := Open(Artifacts(segment.before), segment.header);
    PlannedExactly(start, segment.body);
    OutcomesExactly(start, segment.body);
    var picked := RepeatsExactly(start, segment.body);
    SummaryExactly(start, segment.body);
    HeaderExactly(segment.before, segment.header);
    SameHeader(start, segment.body);
    SameNames(segment.before, segment.header, start, TargetOf(segment));
  }

  lemma HeaderExactly(before: seq<Line>, header: Line)
    requires IsHeader(header)
    ensures Names(before, header, Open(Artifacts(before), header))
  {
    hide Artifacts, At, LastAt, Nowhere;
    if header.Running? {
      ArtifactsExactly(before, header.key);
    }
  }

  lemma {:induction false} SameHeader(run: TargetRun, body: seq<Line>)
    ensures RecordAll(run, body).artifact == run.artifact && RecordAll(run, body).executable == run.executable
  {
    if body != [] {
      SameHeader(run, body[..|body| - 1]);
    }
  }

  lemma SameNames(before: seq<Line>, header: Line, a: TargetRun, b: TargetRun)
    requires Names(before, header, a) && a.artifact == b.artifact && a.executable == b.executable
    ensures Names(before, header, b)
  {
    hide At, LastAt, Nowhere;
  }

  /** The test lines above every header. */
  ghost function Outside(lines: seq<Line>): set<nat>
  {
    set i: nat | i < |lines| && lines[i].Test? && forall h :: h in Headers(lines) ==> i < h
  }

  ghost function Failures(lines: seq<Line>): set<nat>
  {
    set i: nat | i < |lines| && lines[i].CompilerError?
  }

  /** The headers of executables without an artifact above them. */
  ghost function Strangers(lines: seq<Line>): set<nat>
  {
    set i: nat | i < |lines| && lines[i].Running? && Nowhere(lines[..i], Builds(lines[i].key))
  }

  ghost predicate ExecutablesAt(lines: seq<Line>, picked: seq<nat>, executables: seq<string>)
  {
    && |executables| == |picked|
    && forall i :: 0 <= i < |picked| ==>
                     picked[i] < |lines| && lines[picked[i]].Running? && lines[picked[i]].executable == executables[i]
  }

  lemma {:induction false} ErrorsExactly(lines: seq<Line>)
    ensures Errors(lines) == |Failures(lines)|
  {
    if lines == [] {
      assert Failures(lines) == {};
    } else {
      var front, n := lines[..|lines| - 1], |lines| - 1;
      ErrorsExactly(front);
      assert Failures(lines) == if lines[n].CompilerError? then Failures(front) + {n} else Failures(front);
    }
  }

  lemma {:induction false} UnknownExactly(lines: seq<Line>) returns (picked: seq<nat>)
    ensures Selects(picked, Strangers(lines)) && ExecutablesAt(lines, picked, Unknown(lines))
  {
    hide Selects, Artifacts, Strangers, ExecutablesAt;
    if lines == [] {
      picked := [];
      SelectsNothing();
      NoStrangers();
    } else {
      var front, n := lines[..|lines| - 1], |lines| - 1;
      var earlier := UnknownExactly(front);
      StrangersGrow(front, lines[n]);
      ExecutablesGrow(front, lines[n], earlier, Unknown(front));
      assert front + [lines[n]] == lines;
      if lines[n].Running? && lines[n].key !in Artifacts(front) {
        picked := earlier + [n];
        SelectsOneMore(earlier, Strangers(front), n);
      } else {
        picked := earlier;
        assert Unknown(front) + [] == Unknown(front);
      }
    }
  }

  lemma NoStrangers()
    ensures Strangers([]) == {} && ExecutablesAt([], [], [])
  {
  }

  lemma ExecutablesGrow(lines: seq<Line>, line: Line, picked: seq<nat>, executables: seq<string>)
    requires ExecutablesAt(lines, picked, executables)
    ensures ExecutablesAt(lines + [line], picked, executables)
    ensures line.Running? ==> ExecutablesAt(lines + [line], picked + [|lines|], executables + [line.executable])
  {
  }

  lemma StrangersGrow(lines: seq<Line>, line: Line)
    ensures Strangers(lines + [line]) ==
            if line.Running? && line.key !in Artifacts(lines) then Strangers(lines) + {|lines|} else Strangers(lines)
    ensures forall i :: i in Strangers(lines) ==> i < |lines|
  {
    hide Artifacts, Nowhere, At, LastAt;
    var all := lines + [line];
    assert all[..|lines|] == lines;
    assert forall i: nat :: i < |lines| ==> all[..i] == lines[..i];
    if line.Running? {
      ArtifactsExactly(lines, line.key);
    }
  }

  /** The lines above the first header. */
  lemma {:induction false} UpToHeaderIs(lines: seq<Line>)
    ensures var n := |UpToHeader(lines)|;
            n <= |lines| && UpToHeader(lines) == lines[..n] && (n < |lines| ==> IsHeader(lines[n]))
  {
    if lines != [] && !IsHeader(lines[0]) {
      UpToHeaderIs(lines[1..]);
      var n := |UpToHeader(lines[1..])|;
      assert lines[..n + 1] == [lines[0]] + lines[1..][..n];
    }
  }

  ghost function TestLines(lines: seq<Line>): set<nat>
  {
    set i: nat | i < |lines| && lines[i].Test?
  }

  lemma {:induction false} TestsExactly(lines: seq<Line>)
    ensures Tests(lines) == |TestLines(lines)|
  {
    if lines == [] {
      assert TestLines(lines) == {};
    } else {
      var front, n := lines[..|lines| - 1], |lines| - 1;
      TestsExactly(front);
      assert TestLines(lines) == if lines[n].Test? then TestLines(front) + {n} else TestLines(front);
    }
  }

  lemma NoneAbove(lines: seq<Line>)
    ensures forall h :: h in Headers(lines) ==> |UpToHeader(lines)| <= h
  {
    UpToHeaderIs(lines);
    var front := UpToHeader(lines);
    assert forall h :: 0 <= h < |front| ==> front[h] == lines[h] && front[h] in front;
  }

  lemma OutsideExactly(lines: seq<Line>)
    ensures Tests(UpToHeader(lines)) == |Outside(lines)|
  {
    hide Tests, UpToHeader;
    UpToHeaderIs(lines);
    NoneAbove(lines);
    var n := |UpToHeader(lines)|;
    TestsExactly(UpToHeader(lines));
    assert n < |lines| ==> n in Headers(lines);
    assert TestLines(lines[..n]) == Outside(lines);
  }

  /** The result of reading a log, line by line of the log: there is one target for each header, with
      what the lines from it to the next header and the artifacts above it tell; test lines above
      every header are counted, executables without an artifact are named, errors are counted. */
  lemma LogExactly(lines: seq<Line>, run: CargoRun) returns (heads: seq<nat>, strangers: seq<nat>)
    requires Describes(lines, run)
    ensures Selects(heads, Headers(lines)) && |run.targets| == |heads|
    ensures forall i :: 0 <= i < |heads| ==>
                          && heads[i] < End(heads, i, |lines|) <= |lines|
                          && Tells(lines[..heads[i]], lines[heads[i]], lines[heads[i] + 1..End(heads, i, |lines|)],
                                   run.targets[i])
    ensures run.unattributed == |Outside(lines)|
    ensures Selects(strangers, Strangers(lines)) && ExecutablesAt(lines, strangers, run.unknown)
    ensures run.errors == |Failures(lines)|
  {
    hide Segments, Selects, TargetOf, Tells, Headers, Tests, UpToHeader, Outside, Unknown, Strangers, ExecutablesAt,
         Errors, Failures;
    heads := SegmentsExactly(lines);
    strangers := UnknownExactly(lines);
    OutsideExactly(lines);
    ErrorsExactly(lines);
    var segments := Segments([], lines);
    forall i | 0 <= i < |heads|
      ensures Tells(segments[i].before, segments[i].header, segments[i].body, run.targets[i])
    {
      assert segments[i] in segments;
      TargetExactly(segments[i]);
    }
  }
}
