/**
 The written acceptance report is a fixed point of validation (runner.py, `_decide_e01`, the tail
 of `run`, and `validate`; report_validation.py, `validate_report`).
 */
module AcceptanceResults {
  import opened AcceptanceReport
  import opened Options

  // -- What a run builds --------------------------------------------------------------------------

  /** A scenario as the assessment builds it; E01 has one class, which is not a live one. */
  predicate Built(ctx: Context, s: Scenario)
  {
    && s.status == WorstStatus(Statuses(s.classes))
    && (s.id == E01 ==> |s.classes| == 1 && !s.classes[0].status.Unlisted? && s.classes[0].executionClass !in ctx.live)
  }

  predicate Draft(ctx: Context, draft: Report)
  {
    draft.verdict == BlockedVerdict && forall s :: s in draft.scenarios ==> Built(ctx, s)
  }

  // -- Deciding E01 changes no other finding ------------------------------------------------------

  lemma {:induction false} FinalIsDraftElsewhere(ctx: Context, id: string, classes: seq<Entry>)
    requires id != E01
    ensures EntriesProblems(ctx, id, classes, true) == EntriesProblems(ctx, id, classes, false)
  {
    if classes != [] {
      FinalIsDraftElsewhere(ctx, id, classes[1..]);
    }
  }

  lemma KindOfValidation()
    ensures Kind(VALIDATION) == "validation"
  {
    KindIs("validation", "report");
    assert "validation" + ":" + "report" == VALIDATION;
  }

  lemma {:induction false} KindIs(kind: string, rest: string)
    requires ':' !in kind
    ensures Kind(kind + ":" + rest) == kind
  {
    var reference := kind + ":" + rest;
    if kind != "" {
      KindIs(kind[1..], rest);
      assert reference[0] == kind[0] && kind[0] in kind;
      assert reference[1..] == kind[1..] + ":" + rest;
    }
  }

  lemma OneClass(entry: Entry)
    ensures WorstStatus(Statuses([entry])) == if entry.status.Unlisted? then NotRun else entry.status
  {
    assert Statuses([entry]) == [entry.status];
  }

  /** The entry the run writes for E01 has no problems of its own. */
  lemma DecidedEntryIsGood(ctx: Context, entry: Entry, problems: seq<Problem>)
    requires entry.executionClass !in ctx.live
    ensures EntryProblems(ctx, E01, DecideEntry(entry, problems), true) == []
  {
    hide Kind;
    if problems == [] {
      KindOfValidation();
      var none: seq<string> := [];
      assert [VALIDATION][1..] == none;
      assert ReferenceProblems(ctx, E01, DecideEntry(entry, problems), [VALIDATION]) == [];
    } else {
      assert |FAIL_REASON| > 0;
    }
  }

  lemma ScenarioKeepsProblems(ctx: Context, s: Scenario, problems: seq<Problem>)
    requires Built(ctx, s)
    ensures ScenarioProblems(ctx, DecideScenario(s, problems), true) == ScenarioProblems(ctx, s, false)
  {
    hide EntryProblems, DecideEntry;
    if s.id != E01 {
      FinalIsDraftElsewhere(ctx, s.id, s.classes);
    } else {
      var entry := DecideEntry(s.classes[0], problems);
      var decided := DecideScenario(s, problems);
      assert decided.classes == [entry] && s.classes == [s.classes[0]];
      OneClass(entry);
      DecidedStatus(s.classes[0], problems);
      DecidedEntryIsGood(ctx, s.classes[0], problems);
      DraftEntryIsGood(ctx, s.classes[0]);
      OneEntry(ctx, E01, entry, true);
      OneEntry(ctx, E01, s.classes[0], false);
    }
  }

  lemma DecidedStatus(entry: Entry, problems: seq<Problem>)
    ensures DecideEntry(entry, problems).status == if problems == [] then Pass else Fail
  {
  }

  lemma DraftEntryIsGood(ctx: Context, entry: Entry)
    requires !entry.status.Unlisted?
    ensures EntryProblems(ctx, E01, entry, false) == []
  {
  }

  lemma OneEntry(ctx: Context, id: string, entry: Entry, final: bool)
    ensures EntriesProblems(ctx, id, [entry], final) == EntryProblems(ctx, id, entry, final)
  {
    var none: seq<Entry> := [];
    assert [entry][1..] == none;
    assert EntriesProblems(ctx, id, none, final) == [];
  }

  lemma {:induction false} ScenariosKeepProblems(ctx: Context, scenarios: seq<Scenario>, problems: seq<Problem>)
    requires forall s :: s in scenarios ==> Built(ctx, s)
    ensures var decided := DecideScenarios(scenarios, problems);
            && ScenariosProblems(ctx, decided, true) == ScenariosProblems(ctx, scenarios, false)
            && ScenariosReconcile(ctx, decided) == ScenariosReconcile(ctx, scenarios)
            && Shape(decided) == Shape(scenarios)
  {
    hide ScenarioProblems, Built;
    if scenarios != [] {
      ScenarioKeepsProblems(ctx, scenarios[0], problems);
      ScenariosKeepProblems(ctx, scenarios[1..], problems);
      var decided := DecideScenarios(scenarios, problems);
      assert decided[1..] == DecideScenarios(scenarios[1..], problems);
      KeepsNames(scenarios[0], problems);
    }
  }

  lemma KeepsNames(s: Scenario, problems: seq<Problem>)
    ensures ClassNames(DecideScenario(s, problems).classes) == ClassNames(s.classes)
    ensures DecideScenario(s, problems).id == s.id
  {
    if s.id == E01 && s.classes != [] {
      assert s.classes[0 := DecideEntry(s.classes[0], problems)][1..] == s.classes[1..];
    }
  }

  lemma {:induction false} DecidedE01(ctx: Context, scenarios: seq<Scenario>, problems: seq<Problem>)
    requires forall s :: s in scenarios ==> Built(ctx, s)
    ensures var status := FirstE01(DecideScenarios(scenarios, problems));
            status.Some? ==> status.value == if problems == [] then Pass else Fail
  {
    if scenarios != [] {
      DecidedE01(ctx, scenarios[1..], problems);
      assert Built(ctx, scenarios[0]);
    }
  }

  // -- The draft decides ----------------------------------------------------------------------------

  /** For every run that was not blocked: the final validation finds exactly what the draft
      validation found, every E01 passes exactly if that is nothing, and the verdict follows from
      the classes. */
  lemma DraftDecides(ctx: Context, draft: Report)
    requires !ctx.blocked && Draft(ctx, draft)
    ensures var problems, report := Validate(ctx, draft, false), Decided(ctx, draft);
            && Validate(ctx, report, true) == problems
            && report.verdict == DecideVerdict(ctx.mode, report.scenarios, ctx.live)
            && (forall s :: s in report.scenarios && s.id == E01 ==>
                  |s.classes| == 1 && s.status == s.classes[0].status == if problems == [] then Pass else Fail)
  {
    hide ScenariosProblems, ScenariosReconcile, Shape, FirstE01, DecideEntry, WorstStatus, Statuses;
    var problems, report := Validate(ctx, draft, false), Decided(ctx, draft);
    ScenariosKeepProblems(ctx, draft.scenarios, problems);
    DecidedE01(ctx, draft.scenarios, problems);
    assert OwnProblems(ctx, report, problems) == [];
    forall i | 0 <= i < |report.scenarios| && report.scenarios[i].id == E01
      ensures var s := report.scenarios[i];
              |s.classes| == 1 && s.status == s.classes[0].status == if problems == [] then Pass else Fail
    {
      assert Built(ctx, draft.scenarios[i]);
      DecidedStatus(draft.scenarios[i].classes[0], problems);
    }
  }

  // -- The written report ---------------------------------------------------------------------------

  /** Whether a required scenario is E01 itself or has a failed class, as the draft stands. */
  predicate RequiredFailure(draft: Report)
  {
    exists s :: s in draft.scenarios && s.required && (s.id == E01 || AnyFailed(s.classes))
  }

  lemma AnyFailedConcat(a: seq<Entry>, b: seq<Entry>)
    ensures AnyFailed(a + b) <==> AnyFailed(a) || AnyFailed(b)
  {
    assert forall i :: 0 <= i < |a| ==> (a + b)[i] == a[i];
    assert forall i :: 0 <= i < |b| ==> (a + b)[|a| + i] == b[i];
  }

  /** Some required class failed exactly if a required scenario has a failed class. */
  lemma {:induction false} RequiredIs(scenarios: seq<Scenario>)
    ensures AnyFailed(Required(scenarios)) <==> exists s :: s in scenarios && s.required && AnyFailed(s.classes)
  {
    hide AnyFailed;
    if scenarios == [] {
      NothingFailed();
    } else {
      var first, rest := scenarios[0], scenarios[1..];
      NothingFailed();
      RequiredIs(rest);
      AnyFailedConcat(if first.required then first.classes else [], Required(rest));
      assert forall s :: s in scenarios <==> s == first || s in rest;
    }
  }

  lemma NothingFailed()
    ensures !AnyFailed([])
  {
  }

  /** Deciding a run with problems fails every E01 and leaves the other scenarios alone. */
  lemma DecidedFails(ctx: Context, s: Scenario, problems: seq<Problem>)
    requires Built(ctx, s) && problems != []
    ensures DecideScenario(s, problems).required == s.required
    ensures AnyFailed(DecideScenario(s, problems).classes) <==> s.id == E01 || AnyFailed(s.classes)
  {
    hide WorstStatus, Statuses;
    var decided := DecideScenario(s, problems);
    if s.id == E01 {
      assert decided.classes[0].status == Fail;
    }
  }

  /** Once E01 is decided, a required class has failed exactly if the draft says so. */
  lemma DraftTells(ctx: Context, draft: Report, problems: seq<Problem>)
    requires Draft(ctx, draft) && problems != []
    ensures AnyFailed(Required(DecideScenarios(draft.scenarios, problems))) <==> RequiredFailure(draft)
  {
    hide AnyFailed, Required, DecideScenario, Built;
    var scenarios := draft.scenarios;
    var decided := DecideScenarios(scenarios, problems);
    RequiredIs(decided);
    forall i | 0 <= i < |scenarios|
      ensures decided[i].required == scenarios[i].required
      ensures AnyFailed(decided[i].classes) <==> scenarios[i].id == E01 || AnyFailed(scenarios[i].classes)
    {
      DecidedFails(ctx, scenarios[i], problems);
    }
    if RequiredFailure(draft) {
      var i :| 0 <= i < |scenarios| && scenarios[i].required && (scenarios[i].id == E01 || AnyFailed(scenarios[i].classes));
      assert decided[i] in decided;
    }
    if exists s :: s in decided && s.required && AnyFailed(s.classes) {
      var i :| 0 <= i < |decided| && decided[i].required && AnyFailed(decided[i].classes);
      assert scenarios[i] in scenarios;
    }
  }

  /** The written report records the draft's problems, fails if there are any, and validates again
      to exactly what it records if and only if there are none, E01 is required, or a required
      class of the draft failed. In the remaining case the verdict was overruled after the
      validation, which a second validation reports. */
  lemma FixedPointExactly(ctx: Context, draft: Report)
    requires !ctx.blocked && Draft(ctx, draft)
    ensures var problems, written := Validate(ctx, draft, false), Written(ctx, draft);
            && written.validation == Some(problems)
            && (problems != [] ==> written.verdict == FailVerdict)
            && (Revalidate(ctx, written) == problems <==> problems == [] || RequiredFailure(draft))
            && (problems != [] && !RequiredFailure(draft) ==>
                  Revalidate(ctx, written) == problems + [VerdictDoesNotFollow, RecordedDiffers])
  {
    hide Validate, FirstE01, DecideScenarios, Required, RequiredFailure, AnyFailed, Draft;
    DraftDecides(ctx, draft);
    var problems, report, written := Validate(ctx, draft, false), Decided(ctx, draft), Written(ctx, draft);
    if problems != [] {
      DraftTells(ctx, draft, problems);
    }
    if problems == [] || RequiredFailure(draft) {
      assert written == report.(validation := Some(problems));
      SameValidation(ctx, report, written);
      assert problems + [] == problems;
    } else {
      E01IsNotPassed(ctx, draft, problems);
      OverruledVerdict(ctx, report, problems);
      SameValidation(ctx, report.(verdict := FailVerdict), written);
      assert (problems + [VerdictDoesNotFollow]) + [RecordedDiffers] == problems + [VerdictDoesNotFollow, RecordedDiffers];
    }
  }

  lemma E01IsNotPassed(ctx: Context, draft: Report, problems: seq<Problem>)
    requires Draft(ctx, draft) && problems != []
    ensures FirstE01(DecideScenarios(draft.scenarios, problems)) != Some(Pass)
  {
    hide FirstE01, DecideScenarios, Built;
    DecidedE01(ctx, draft.scenarios, problems);
  }

  /** The recorded result is not itself validated. */
  lemma SameValidation(ctx: Context, a: Report, b: Report)
    requires a.scenarios == b.scenarios && a.verdict == b.verdict
    ensures Validate(ctx, a, true) == Validate(ctx, b, true)
  {
    hide StructuralProblems, ScenariosReconcile, NotBlockedScenarios, OwnProblems;
    SameStructure(ctx, a, b);
    forall found
      ensures OwnProblems(ctx, a, found) == OwnProblems(ctx, b, found)
    {
      SameOwn(ctx, a, b, found);
    }
  }

  lemma SameStructure(ctx: Context, a: Report, b: Report)
    requires a.scenarios == b.scenarios && a.verdict == b.verdict
    ensures StructuralProblems(ctx, a, true) == StructuralProblems(ctx, b, true)
  {
    hide ScenariosProblems, Shape;
  }

  lemma SameOwn(ctx: Context, a: Report, b: Report, found: seq<Problem>)
    requires a.scenarios == b.scenarios && a.verdict == b.verdict
    ensures OwnProblems(ctx, a, found) == OwnProblems(ctx, b, found)
  {
    hide FirstE01, DecideVerdict;
  }

  lemma OverruledVerdict(ctx: Context, report: Report, problems: seq<Problem>)
    requires !ctx.blocked && Validate(ctx, report, true) == problems != []
    requires report.verdict == DecideVerdict(ctx.mode, report.scenarios, ctx.live) != FailVerdict
    requires FirstE01(report.scenarios) != Some(Pass)
    ensures Validate(ctx, report.(verdict := FailVerdict), true) == problems + [VerdictDoesNotFollow]
  {
    hide StructuralProblems, ScenariosReconcile, FirstE01, DecideVerdict;
    var failed := report.(verdict := FailVerdict);
    var found := StructuralProblems(ctx, report, true) + ctx.artifacts + ScenariosReconcile(ctx, report.scenarios);
    FailIsAllowed(ctx, report);
    if found == [] {
      assert OwnProblems(ctx, report, found) == problems;
    }
    assert OwnProblems(ctx, failed, found) == OwnProblems(ctx, report, found) + [VerdictDoesNotFollow];
  }

  /** A decided verdict and the failing one are equally good for the structure. */
  lemma FailIsAllowed(ctx: Context, report: Report)
    requires report.verdict == DecideVerdict(ctx.mode, report.scenarios, ctx.live)
    ensures StructuralProblems(ctx, report.(verdict := FailVerdict), true) == StructuralProblems(ctx, report, true)
  {
    hide ScenariosProblems, Shape, Required, AnyFailed;
  }

  /** Where E01 is a required scenario, as in the pinned benchmark, every unblocked run writes a
      fixed point: validating it again gives the recorded problems, and its verdict follows from
      its classes. */
  lemma RequiredE01IsFixedPoint(ctx: Context, draft: Report, i: nat)
    requires !ctx.blocked && Draft(ctx, draft)
    requires i < |draft.scenarios| && draft.scenarios[i].id == E01 && draft.scenarios[i].required
    ensures var problems, written := Validate(ctx, draft, false), Written(ctx, draft);
            && written.validation == Some(problems) && Revalidate(ctx, written) == problems
            && written.verdict == DecideVerdict(ctx.mode, written.scenarios, ctx.live)
            && written.scenarios[i].status == if problems == [] then Pass else Fail
  {
    hide Validate, Required, Built;
    var problems, report := Validate(ctx, draft, false), Decided(ctx, draft);
    DraftDecides(ctx, draft);
    FixedPointExactly(ctx, draft);
    assert draft.scenarios[i] in draft.scenarios;
    assert report.scenarios[i] == DecideScenario(draft.scenarios[i], problems);
    assert report.scenarios[i] in report.scenarios;
    if problems != [] {
      DraftTells(ctx, draft, problems);
    }
  }

  /** A blocked run records what it finds in the report it writes, and finds it again. */
  lemma BlockedIsFixedPoint(ctx: Context, draft: Report)
    requires ctx.blocked
    ensures Written(ctx, draft).validation == Some(Revalidate(ctx, Written(ctx, draft)))
  {
    hide Validate;
    SameValidation(ctx, draft, Written(ctx, draft));
    assert Validate(ctx, draft, true) + [] == Validate(ctx, draft, true);
  }

  /** A report that claims a pass has no problems and no failed required class. */
  lemma PassMeansValid(ctx: Context, draft: Report)
    requires !ctx.blocked && Draft(ctx, draft)
    requires Written(ctx, draft).verdict == FullPass || Written(ctx, draft).verdict == OfflinePass
    ensures Revalidate(ctx, Written(ctx, draft)) == []
    ensures forall e :: e in Required(Written(ctx, draft).scenarios) ==>
              e.status == Pass || (ctx.mode != Live && e.executionClass in ctx.live && e.status != Fail)
  {
    hide Validate, Required, Draft;
    DraftDecides(ctx, draft);
    FixedPointExactly(ctx, draft);
  }

  // -- An optional E01 --------------------------------------------------------------------------------

  /** With an E01 that is not required, every run that finds problems while no required class
      failed writes a report whose recorded result a second validation contradicts. */
  lemma OptionalE01IsNoFixedPoint(ctx: Context, draft: Report)
    requires !ctx.blocked && Draft(ctx, draft) && Validate(ctx, draft, false) != []
    requires forall s :: s in draft.scenarios && s.required ==> s.id != E01 && !AnyFailed(s.classes)
    ensures Revalidate(ctx, Written(ctx, draft)) ==
            Written(ctx, draft).validation.value + [VerdictDoesNotFollow, RecordedDiffers]
  {
    hide Validate, Revalidate, Written, AnyFailed, Built;
    FixedPointExactly(ctx, draft);
  }

  /** Such a run: E01 alone, optional, in a report that lacks a field. */
  const OPTIONAL: Scenario := Scenario(E01, false, NotRun, [Entry("evidence_validation", NotRun, "pending", [])])

  const OPTIONAL_DRAFT: Report := Report([OPTIONAL], BlockedVerdict, None)

  const MISSING_FIELD: Context :=
    Context(Offline, {}, [], false, false, [Stated("missing field")], [], [], [], _ => None, [], map[])

  lemma OptionalE01Instance()
    ensures Draft(MISSING_FIELD, OPTIONAL_DRAFT)
    ensures Revalidate(MISSING_FIELD, Written(MISSING_FIELD, OPTIONAL_DRAFT))
         == Validate(MISSING_FIELD, OPTIONAL_DRAFT, false) + [VerdictDoesNotFollow, RecordedDiffers]
  {
    hide WorstStatus, ScenariosProblems, ScenariosReconcile, Shape, Revalidate, Written;
    OneClass(OPTIONAL.classes[0]);
    assert Built(MISSING_FIELD, OPTIONAL);
    assert MISSING_FIELD.fields[0] in Validate(MISSING_FIELD, OPTIONAL_DRAFT, false);
    OptionalE01IsNoFixedPoint(MISSING_FIELD, OPTIONAL_DRAFT);
    FixedPointExactly(MISSING_FIELD, OPTIONAL_DRAFT);
  }
}
