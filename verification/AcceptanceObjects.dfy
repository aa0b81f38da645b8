/**
 The validation and the run of the acceptance report as they are executed: loops that append to
 a shared list of problems (report_validation.py), and a report changed in place (runner.py).
 */
module AcceptanceObjects {
  import opened AcceptanceReport
  import opened Options
  import opened Text

  method FindWorst(statuses: seq<Status>) returns (worst: Status)
    ensures worst == WorstStatus(statuses)
  {
    var precedence := [Fail, NotRun, Blocked, Pass];
    for i := 0 to 4
      invariant 0 < i ==> Fail !in statuses
      invariant 1 < i ==> NotRun !in statuses
      invariant 2 < i ==> Blocked !in statuses
      invariant 3 < i ==> Pass !in statuses
    {
      if precedence[i] in statuses {
        return precedence[i];
      }
    }
    return NotRun;
  }

  method AppendIf(problems: seq<Problem>, found: bool, problem: Problem) returns (all: seq<Problem>)
    ensures all == problems + if found then [problem] else []
  {
    all := problems;
    if found {
      all := all + [problem];
    }
  }

  method CheckReferences(problems: seq<Problem>, ctx: Context, id: string, entry: Entry) returns (all: seq<Problem>)
    ensures all == problems + ReferenceProblems(ctx, id, entry, entry.evidence)
  {
    hide ReferenceProblem;
    all := problems;
    var references := entry.evidence;
    for i := 0 to |references|
      invariant all + ReferenceProblems(ctx, id, entry, references[i..])
             == problems + ReferenceProblems(ctx, id, entry, references)
    {
      assert references[i..][1..] == references[i + 1..];
      var problem := ReferenceProblem(ctx, references[i]);
      if problem.Some? {
        all := all + [BadReference(id, entry.executionClass, problem.value)];
      }
    }
    assert references[|references|..] == [];
  }

  method CheckPass(problems: seq<Problem>, ctx: Context, id: string, entry: Entry) returns (all: seq<Problem>)
    ensures all == problems + PassProblems(ctx, id, entry)
  {
    hide ReferenceProblems;
    all := AppendIf(problems, entry.evidence == [], PassWithoutEvidence(id, entry.executionClass));
    all := CheckReferences(all, ctx, id, entry);
    all := AppendIf(all, ctx.mode == Offline && entry.executionClass in ctx.live,
                    LivePassedOffline(id, entry.executionClass));
  }

  method CheckEntry(problems: seq<Problem>, ctx: Context, id: string, entry: Entry, final: bool)
    returns (all: seq<Problem>)
    ensures all == problems + EntryProblems(ctx, id, entry, final)
  {
    hide PassProblems;
    all := AppendIf(problems, entry.status.Unlisted?, StatusNotAllowed(id, entry.executionClass));
    if !final && id == E01 {
      return;
    }
    if entry.status == Pass {
      all := CheckPass(all, ctx, id, entry);
    }
    all := AppendIf(all, entry.reason == "", NoReason(id, entry.executionClass));
  }

  method CheckScenario(problems: seq<Problem>, ctx: Context, s: Scenario, final: bool) returns (all: seq<Problem>)
    ensures all == problems + ScenarioProblems(ctx, s, final)
  {
    hide EntryProblems, WorstStatus;
    all := problems;
    for i := 0 to |s.classes|
      invariant all + EntriesProblems(ctx, s.id, s.classes[i..], final)
             == problems + EntriesProblems(ctx, s.id, s.classes, final)
    {
      assert s.classes[i..][1..] == s.classes[i + 1..];
      all := CheckEntry(all, ctx, s.id, s.classes[i], final);
    }
    assert s.classes[|s.classes|..] == [];
    assert all == problems + EntriesProblems(ctx, s.id, s.classes, final);
    var worst := FindWorst(Statuses(s.classes));
    all := AppendIf(all, final && s.status != worst, StatusDoesNotFollow(s.id));
  }

  method CheckStructure(ctx: Context, report: Report, final: bool) returns (problems: seq<Problem>)
    ensures problems == StructuralProblems(ctx, report, final)
  {
    hide ScenarioProblems, Shape;
    problems := ctx.fields;
    problems := AppendIf(problems, final && report.verdict.OtherVerdict?, VerdictNotAllowed);
    problems := AppendIf(problems, ctx.mode.OtherMode?, UnknownMode);
    problems := problems + ctx.inputs;
    problems := AppendIf(problems, Shape(report.scenarios) != ctx.benchmark, OtherShape);
    problems := CheckScenarios(problems, ctx, report.scenarios, final);
    if ctx.mode == Offline {
      problems := AppendIf(problems, report.verdict == FullPass, ClaimsFullPass);
      problems := problems + ctx.offline;
    }
    problems := problems + ctx.closing;
  }

  method CheckScenarios(problems: seq<Problem>, ctx: Context, scenarios: seq<Scenario>, final: bool)
    returns (all: seq<Problem>)
    ensures all == problems + ScenariosProblems(ctx, scenarios, final)
  {
    hide ScenarioProblems;
    all := problems;
    for i := 0 to |scenarios|
      invariant all + ScenariosProblems(ctx, scenarios[i..], final)
             == problems + ScenariosProblems(ctx, scenarios, final)
    {
      assert scenarios[i..][1..] == scenarios[i + 1..];
      all := CheckScenario(all, ctx, scenarios[i], final);
    }
    assert scenarios[|scenarios|..] == [];
  }

  method ReconcileClasses(problems: seq<Problem>, ctx: Context, id: string, classes: seq<Entry>)
    returns (all: seq<Problem>)
    ensures all == problems + ClassesReconcile(ctx, id, classes)
  {
    all := problems;
    for i := 0 to |classes|
      invariant all + ClassesReconcile(ctx, id, classes[i..]) == problems + ClassesReconcile(ctx, id, classes)
    {
      assert classes[i..][1..] == classes[i + 1..];
      var entry := classes[i];
      var key := (id, entry.executionClass);
      if key in ctx.derived {
        if entry.status != ctx.derived[key].status {
          all := all + [StatusDiffers(id, entry.executionClass)];
        } else if multiset(entry.evidence) != multiset(ctx.derived[key].evidence) {
          all := all + [EvidenceDiffers(id, entry.executionClass)];
        }
      }
    }
    assert classes[|classes|..] == [];
  }

  method Reconcile(ctx: Context, scenarios: seq<Scenario>) returns (problems: seq<Problem>)
    ensures problems == ctx.artifacts + ScenariosReconcile(ctx, scenarios)
  {
    hide ClassesReconcile;
    problems := ctx.artifacts;
    for i := 0 to |scenarios|
      invariant problems + ScenariosReconcile(ctx, scenarios[i..]) == ctx.artifacts + ScenariosReconcile(ctx, scenarios)
    {
      assert scenarios[i..][1..] == scenarios[i + 1..];
      if scenarios[i].id == E01 {
        continue;
      }
      problems := ReconcileClasses(problems, ctx, scenarios[i].id, scenarios[i].classes);
    }
    assert scenarios[|scenarios|..] == [];
  }

  method ListUnblockedClasses(problems: seq<Problem>, id: string, classes: seq<Entry>) returns (all: seq<Problem>)
    ensures all == problems + NotBlockedClasses(id, classes)
  {
    all := problems;
    for k := 0 to |classes|
      invariant all + NotBlockedClasses(id, classes[k..]) == problems + NotBlockedClasses(id, classes)
    {
      assert classes[k..][1..] == classes[k + 1..];
      all := AppendIf(all, classes[k].status != Blocked, NotBlocked(id));
    }
    assert classes[|classes|..] == [];
  }

  method ListUnblocked(problems: seq<Problem>, scenarios: seq<Scenario>) returns (all: seq<Problem>)
    ensures all == problems + NotBlockedScenarios(scenarios)
  {
    hide NotBlockedClasses;
    all := problems;
    for i := 0 to |scenarios|
      invariant all + NotBlockedScenarios(scenarios[i..]) == problems + NotBlockedScenarios(scenarios)
    {
      assert scenarios[i..][1..] == scenarios[i + 1..];
      all := ListUnblockedClasses(all, scenarios[i].id, scenarios[i].classes);
    }
    assert scenarios[|scenarios|..] == [];
  }

  method FindE01(scenarios: seq<Scenario>) returns (status: Option<Status>)
    ensures status == FirstE01(scenarios)
  {
    for i := 0 to |scenarios|
      invariant FirstE01(scenarios[i..]) == FirstE01(scenarios)
    {
      assert scenarios[i..][1..] == scenarios[i + 1..];
      if scenarios[i].id == E01 {
        return Some(scenarios[i].status);
      }
    }
    assert scenarios[|scenarios|..] == [];
    return None;
  }

  method ValidateReport(ctx: Context, report: Report, final: bool) returns (problems: seq<Problem>)
    ensures problems == Validate(ctx, report, final)
  {
    hide StructuralProblems, ScenariosReconcile, NotBlockedScenarios, FirstE01, DecideVerdict;
    problems := CheckStructure(ctx, report, final);
    if ctx.blocked {
      problems := problems + ctx.artifacts;
      problems := AppendIf(problems, ctx.commands, CommandsWhileBlocked);
      problems := ListUnblocked(problems, report.scenarios);
      problems := AppendIf(problems, report.verdict != BlockedVerdict, BlockedVerdictDiffers);
      return;
    }
    var more := Reconcile(ctx, report.scenarios);
    problems := problems + more;
    ghost var found := StructuralProblems(ctx, report, final) + ctx.artifacts + ScenariosReconcile(ctx, report.scenarios);
    assert problems == found;
    if !final {
      return;
    }
    var e01 := FindE01(report.scenarios);
    problems := AppendIf(problems, e01 == Some(Pass) && problems != [], E01PassedWithProblems);
    problems := AppendIf(problems, e01 == Some(Fail) && problems == [], E01FailedWithoutProblems);
    problems := AppendIf(problems, report.verdict != DecideVerdict(ctx.mode, report.scenarios, ctx.live),
                         VerdictDoesNotFollow);
    assert problems == found + OwnProblems(ctx, report, found);
  }

  /** The report of a run, changed in place until it is written. */
  class Document {
    const ctx: Context
    var scenarios: seq<Scenario>
    var verdict: Verdict
    var validation: Option<seq<Problem>>

    function Model(): Report
      reads this
    {
      Report(scenarios, verdict, validation)
    }

    constructor (ctx: Context, scenarios: seq<Scenario>)
      ensures this.ctx == ctx && Model() == Report(scenarios, BlockedVerdict, None)
    {
      this.ctx, this.scenarios, verdict, validation := ctx, scenarios, BlockedVerdict, None;
    }

    /** `_decide_e01`: every E01 has a class to decide. */
    method DecideE01() returns (problems: seq<Problem>)
      requires forall s :: s in scenarios && s.id == E01 ==> s.classes != []
      modifies this
      ensures problems == Validate(ctx, old(Model()), false)
      ensures Model() == Decided(ctx, old(Model()))
    {
      hide Validate, DecideVerdict, Decimal;
      problems := ValidateReport(ctx, Model(), false);
      for i := 0 to |scenarios|
        invariant |scenarios| == |old(scenarios)| && verdict == old(verdict) && validation == old(validation)
        invariant forall k :: 0 <= k < i ==> scenarios[k] == DecideScenario(old(scenarios)[k], problems)
        invariant forall k :: i <= k < |scenarios| ==> scenarios[k] == old(scenarios)[k]
      {
        var s := scenarios[i];
        if s.id != E01 {
          continue;
        }
        assert s in old(scenarios);
        var entry := s.classes[0];
        if problems != [] {
          entry := entry.(status := Fail, reason := Decimal(|problems|) + FAIL_REASON, evidence := []);
        } else {
          entry := entry.(status := Pass, reason := PASS_REASON, evidence := [VALIDATION]);
        }
        s := s.(classes := s.classes[0 := entry], status := entry.status);
        scenarios := scenarios[i := s];
      }
      assert scenarios == DecideScenarios(old(scenarios), problems);
      verdict := DecideVerdict(ctx.mode, scenarios, ctx.live);
    }

    /** The tail of `run`. */
    method Finish()
      requires !ctx.blocked ==> forall s :: s in scenarios && s.id == E01 ==> s.classes != []
      modifies this
      ensures Model() == Written(ctx, old(Model()))
    {
      hide Validate, Decided;
      if !ctx.blocked {
        var _ := DecideE01();
      }
      var problems := ValidateReport(ctx, Model(), true);
      validation := Some(problems);
      if !ctx.blocked && problems != [] && verdict != FailVerdict {
        verdict := FailVerdict;
      }
    }
  }
}
