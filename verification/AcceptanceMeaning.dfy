/**
 What the acceptance report's statuses, verdicts and empty problem lists mean
 (scripts/dual_track_acceptance: assessment.py, `worst_status` and `decide_verdict`;
 report_validation.py, `validate_report`; runner.py, the tail of `run`).
 */
module AcceptanceMeaning {
  import opened AcceptanceReport
  import opened AcceptanceResults
  import opened Options

  // -- Statuses -----------------------------------------------------------------------------------

  /** How bad a listed status is. */
  function Severity(status: Status): nat
  {
    match status
    case Pass => 1
    case Blocked => 2
    case NotRun => 3
    case Fail => 4
    case Unlisted(_) => 0
  }

  /** The status of a scenario is the worst of its classes, and not run if none has a listed one. */
  lemma WorstIsWorst(statuses: seq<Status>)
    ensures var worst := WorstStatus(statuses);
            && !worst.Unlisted?
            && (forall s :: s in statuses ==> Severity(s) <= Severity(worst))
            && (worst in statuses || (worst == NotRun && forall s :: s in statuses ==> s.Unlisted?))
  {
  }

  // -- Verdicts -----------------------------------------------------------------------------------

  lemma {:induction false} RequiredAre(scenarios: seq<Scenario>, e: Entry)
    ensures e in Required(scenarios) <==> exists s :: s in scenarios && s.required && e in s.classes
  {
    if scenarios != [] {
      RequiredAre(scenarios[1..], e);
      assert forall s :: s in scenarios <==> s == scenarios[0] || s in scenarios[1..];
    }
  }

  /** A run with these scenarios fails: a class of a required scenario failed. */
  ghost predicate Fails(scenarios: seq<Scenario>)
  {
    exists s, e :: s in scenarios && s.required && e in s.classes && e.status == Fail
  }

  /** It passes in full: it is live and every class of every required scenario passed. */
  ghost predicate PassesLive(mode: Mode, scenarios: seq<Scenario>)
  {
    mode == Live && forall s, e :: s in scenarios && s.required && e in s.classes ==> e.status == Pass
  }

  /** It passes offline: it is not live, nothing required failed, some required class needs no live
      run, and all of those passed. */
  ghost predicate PassesOffline(mode: Mode, scenarios: seq<Scenario>, live: set<string>)
  {
    && mode != Live && !Fails(scenarios)
    && (exists s, e :: s in scenarios && s.required && e in s.classes && e.executionClass !in live)
    && (forall s, e :: s in scenarios && s.required && e in s.classes && e.executionClass !in live ==> e.status == Pass)
  }

  /** The verdict, exactly. */
  lemma VerdictExactly(mode: Mode, scenarios: seq<Scenario>, live: set<string>)
    ensures var verdict := DecideVerdict(mode, scenarios, live);
            && (verdict == FailVerdict <==> Fails(scenarios))
            && (verdict == FullPass <==> PassesLive(mode, scenarios))
            && (verdict == OfflinePass <==> PassesOffline(mode, scenarios, live))
            && (verdict == BlockedVerdict <==>
                  !Fails(scenarios) && !PassesLive(mode, scenarios) && !PassesOffline(mode, scenarios, live))
  {
    hide Required, Fails, PassesLive, PassesOffline, AnyFailed;
    FailsIs(scenarios);
    LiveIs(mode, scenarios);
    OfflineIs(mode, scenarios, live);
    NotBoth(mode, scenarios);
  }

  /** The classes of the required scenarios, both ways. */
  lemma RequiredMembers(scenarios: seq<Scenario>)
    ensures forall s, e :: s in scenarios && s.required && e in s.classes ==> e in Required(scenarios)
    ensures forall e :: e in Required(scenarios) ==> exists s :: s in scenarios && s.required && e in s.classes
  {
    hide Required;
    forall e
      ensures e in Required(scenarios) <==> exists s :: s in scenarios && s.required && e in s.classes
    {
      RequiredAre(scenarios, e);
    }
  }

  lemma FailsIs(scenarios: seq<Scenario>)
    ensures Fails(scenarios) <==> AnyFailed(Required(scenarios))
  {
    hide Required;
    RequiredMembers(scenarios);
    var entries := Required(scenarios);
    if AnyFailed(entries) {
      var i :| 0 <= i < |entries| && entries[i].status == Fail;
      assert entries[i] in entries;
    }
    if Fails(scenarios) {
      var s, e :| s in scenarios && s.required && e in s.classes && e.status == Fail;
      assert e in entries;
    }
  }

  ghost predicate AllPassed(entries: seq<Entry>)
  {
    forall i :: 0 <= i < |entries| ==> entries[i].status == Pass
  }

  lemma LiveIs(mode: Mode, scenarios: seq<Scenario>)
    ensures PassesLive(mode, scenarios) <==> mode == Live && AllPassed(Required(scenarios))
  {
    hide Required;
    RequiredMembers(scenarios);
    var entries := Required(scenarios);
    if PassesLive(mode, scenarios) {
      forall i | 0 <= i < |entries|
        ensures entries[i].status == Pass
      {
        assert entries[i] in entries;
        var s :| s in scenarios && s.required && entries[i] in s.classes;
      }
      assert AllPassed(entries);
    }
    if AllPassed(entries) {
      forall s, e | s in scenarios && s.required && e in s.classes
        ensures e.status == Pass
      {
        assert e in entries;
        var i :| 0 <= i < |entries| && entries[i] == e;
      }
      assert mode == Live ==> PassesLive(mode, scenarios);
    }
  }

  lemma OfflineIs(mode: Mode, scenarios: seq<Scenario>, live: set<string>)
    ensures var entries := Required(scenarios);
            PassesOffline(mode, scenarios, live) <==>
            && mode != Live && !Fails(scenarios)
            && (exists i :: 0 <= i < |entries| && entries[i].executionClass !in live)
            && (forall i :: 0 <= i < |entries| && entries[i].executionClass !in live ==> entries[i].status == Pass)
  {
    hide Required, Fails;
    RequiredMembers(scenarios);
    var entries := Required(scenarios);
    if PassesOffline(mode, scenarios, live) {
      var s, e :| s in scenarios && s.required && e in s.classes && e.executionClass !in live;
      assert e in entries;
      forall i | 0 <= i < |entries| && entries[i].executionClass !in live
        ensures entries[i].status == Pass
      {
        assert entries[i] in entries;
        var t :| t in scenarios && t.required && entries[i] in t.classes;
      }
    }
    if (exists i :: 0 <= i < |entries| && entries[i].executionClass !in live)
       && (forall i :: 0 <= i < |entries| && entries[i].executionClass !in live ==> entries[i].status == Pass) {
      var i :| 0 <= i < |entries| && entries[i].executionClass !in live;
      assert entries[i] in entries;
      var s :| s in scenarios && s.required && entries[i] in s.classes;
      forall t, e | t in scenarios && t.required && e in t.classes && e.executionClass !in live
        ensures e.status == Pass
      {
        assert e in entries;
      }
    }
  }

  lemma NotBoth(mode: Mode, scenarios: seq<Scenario>)
    ensures PassesLive(mode, scenarios) ==> !Fails(scenarios)
  {
  }

  /** The verdict of a written report, exactly. An unblocked run with problems fails. One without is
      failed, passed in full or passed offline by its classes, and blocked otherwise. */
  lemma WrittenVerdict(ctx: Context, draft: Report)
    requires !ctx.blocked && Draft(ctx, draft)
    ensures var problems, written := Validate(ctx, draft, false), Written(ctx, draft);
            && (problems != [] ==> written.verdict == FailVerdict)
            && (problems == [] ==>
                  && (written.verdict == FailVerdict <==> Fails(written.scenarios))
                  && (written.verdict == FullPass <==> PassesLive(ctx.mode, written.scenarios))
                  && (written.verdict == OfflinePass <==> PassesOffline(ctx.mode, written.scenarios, ctx.live))
                  && (written.verdict == BlockedVerdict <==>
                        && !Fails(written.scenarios) && !PassesLive(ctx.mode, written.scenarios)
                        && !PassesOffline(ctx.mode, written.scenarios, ctx.live)))
  {
    hide Validate, Draft, DecideVerdict, Fails, PassesLive, PassesOffline;
    DraftDecides(ctx, draft);
    VerdictExactly(ctx.mode, Written(ctx, draft).scenarios, ctx.live);
  }

  /** The scenarios of a written report are those of the draft; only the class of an E01 is decided. */
  lemma WrittenScenarios(ctx: Context, draft: Report, i: nat)
    requires !ctx.blocked && Draft(ctx, draft) && i < |draft.scenarios|
    ensures var s, problems := draft.scenarios[i], Validate(ctx, draft, false);
            && |Written(ctx, draft).scenarios| == |draft.scenarios|
            && (var w := Written(ctx, draft).scenarios[i];
                && w.id == s.id && w.required == s.required
                && (s.id != E01 ==> w == s)
                && (s.id == E01 ==>
                      && |w.classes| == 1 && w.classes[0].executionClass == s.classes[0].executionClass
                      && w.status == w.classes[0].status == (if problems == [] then Pass else Fail)
                      && w.classes[0].reason != ""
                      && w.classes[0].evidence == if problems == [] then ["validation:report"] else []))
  {
    hide Validate, WorstStatus, Statuses;
    assert Built(ctx, draft.scenarios[i]);
  }

  // -- What a valid report is -----------------------------------------------------------------------

  /** A class that is well formed: a listed status, a reason, and for a pass evidence that is all
      good and no live class in an offline run. */
  ghost predicate FormalEntry(ctx: Context, e: Entry)
  {
    && !e.status.Unlisted? && e.reason != ""
    && (e.status == Pass ==>
          && e.evidence != []
          && (forall r :: r in e.evidence ==> Kind(r) == "validation" || ctx.refused(r) == None)
          && !(ctx.mode == Offline && e.executionClass in ctx.live))
  }

  ghost predicate FormalScenario(ctx: Context, s: Scenario)
  {
    && s.status == WorstStatus(Statuses(s.classes))
    && forall e :: e in s.classes ==> FormalEntry(ctx, e)
  }

  /** A class that has the status and the evidence that the artifacts give. */
  ghost predicate DerivedEntry(ctx: Context, id: string, e: Entry)
  {
    (id, e.executionClass) in ctx.derived ==>
      && e.status == ctx.derived[(id, e.executionClass)].status
      && multiset(e.evidence) == multiset(ctx.derived[(id, e.executionClass)].evidence)
  }

  /** The scenarios and their classes are the benchmark's. */
  ghost predicate SameShape(scenarios: seq<Scenario>, benchmark: seq<(string, seq<string>)>)
  {
    && |scenarios| == |benchmark|
    && forall i :: 0 <= i < |scenarios| ==>
         && scenarios[i].id == benchmark[i].0 && |scenarios[i].classes| == |benchmark[i].1|
         && forall k :: 0 <= k < |scenarios[i].classes| ==> scenarios[i].classes[k].executionClass == benchmark[i].1[k]
  }

  lemma {:induction false} ReferencesAre(ctx: Context, id: string, e: Entry, references: seq<string>)
    ensures ReferenceProblems(ctx, id, e, references) == [] <==>
            forall r :: r in references ==> Kind(r) == "validation" || ctx.refused(r) == None
  {
    hide Kind;
    if references != [] {
      ReferencesAre(ctx, id, e, references[1..]);
      assert forall r :: r in references <==> r == references[0] || r in references[1..];
    }
  }

  lemma {:induction false} EntriesAre(ctx: Context, id: string, classes: seq<Entry>)
    ensures EntriesProblems(ctx, id, classes, true) == [] <==> forall e :: e in classes ==> FormalEntry(ctx, e)
    ensures ClassesReconcile(ctx, id, classes) == [] <==> forall e :: e in classes ==> DerivedEntry(ctx, id, e)
    ensures NotBlockedClasses(id, classes) == [] <==> forall e :: e in classes ==> e.status == Blocked
  {
    hide EntryProblems, EntryReconciles, FormalEntry, DerivedEntry;
    if classes != [] {
      EntriesAre(ctx, id, classes[1..]);
      EntryIs(ctx, id, classes[0]);
      assert forall e :: e in classes <==> e == classes[0] || e in classes[1..];
    }
  }

  lemma EntryIs(ctx: Context, id: string, e: Entry)
    ensures EntryProblems(ctx, id, e, true) == [] <==> FormalEntry(ctx, e)
    ensures EntryReconciles(ctx, id, e) == [] <==> DerivedEntry(ctx, id, e)
  {
    hide ReferenceProblems;
    ReferencesAre(ctx, id, e, e.evidence);
  }

  lemma {:induction false} ScenariosAre(ctx: Context, scenarios: seq<Scenario>)
    ensures ScenariosProblems(ctx, scenarios, true) == [] <==> forall s :: s in scenarios ==> FormalScenario(ctx, s)
    ensures ScenariosReconcile(ctx, scenarios) == [] <==>
            forall s :: s in scenarios && s.id != E01 ==> forall e :: e in s.classes ==> DerivedEntry(ctx, s.id, e)
    ensures NotBlockedScenarios(scenarios) == [] <==>
            forall s :: s in scenarios ==> forall e :: e in s.classes ==> e.status == Blocked
  {
    hide EntriesProblems, ClassesReconcile, NotBlockedClasses, FormalEntry, DerivedEntry, WorstStatus, Statuses;
    if scenarios != [] {
      var first, rest := scenarios[0], scenarios[1..];
      ScenariosAre(ctx, rest);
      EntriesAre(ctx, first.id, first.classes);
      assert forall s :: s in scenarios <==> s == first || s in rest;
    }
  }

  lemma {:induction false} NamesAre(classes: seq<Entry>, names: seq<string>)
    ensures ClassNames(classes) == names <==>
            |classes| == |names| && forall k :: 0 <= k < |classes| ==> classes[k].executionClass == names[k]
  {
    if classes != [] {
      if names != [] {
        NamesAre(classes[1..], names[1..]);
        assert names == [names[0]] + names[1..];
      }
    }
  }

  lemma {:induction false} ShapeIs(scenarios: seq<Scenario>, benchmark: seq<(string, seq<string>)>)
    ensures Shape(scenarios) == benchmark <==> SameShape(scenarios, benchmark)
  {
    if scenarios != [] {
      if benchmark != [] {
        ShapeIs(scenarios[1..], benchmark[1..]);
        NamesAre(scenarios[0].classes, benchmark[0].1);
        assert benchmark == [benchmark[0]] + benchmark[1..];
      }
    }
  }

  /** A report that is well formed: the parts a run never changes are good, mode and verdict are
      allowed, scenarios and classes are the benchmark's, and every scenario is well formed. */
  ghost predicate FormalReport(ctx: Context, report: Report)
  {
    && ctx.fields == [] && ctx.inputs == [] && ctx.closing == []
    && (ctx.mode == Offline ==> ctx.offline == [] && report.verdict != FullPass)
    && !ctx.mode.OtherMode? && !report.verdict.OtherVerdict?
    && SameShape(report.scenarios, ctx.benchmark)
    && forall s :: s in report.scenarios ==> FormalScenario(ctx, s)
  }

  lemma StructureExactly(ctx: Context, report: Report)
    ensures StructuralProblems(ctx, report, true) == [] <==> FormalReport(ctx, report)
  {
    hide ScenariosProblems, Shape, SameShape, FormalScenario;
    ScenariosAre(ctx, report.scenarios);
    ShapeIs(report.scenarios, ctx.benchmark);
  }

  /** A valid report, exactly. Validation of an unblocked report finds nothing if and only if it is
      well formed, the artifacts load, every class but E01's is as they give it, E01 did not fail,
      and the verdict follows from the classes. */
  lemma ValidExactly(ctx: Context, report: Report)
    requires !ctx.blocked
    ensures Validate(ctx, report, true) == [] <==>
            && FormalReport(ctx, report) && ctx.artifacts == []
            && (forall s :: s in report.scenarios && s.id != E01 ==>
                  forall e :: e in s.classes ==> DerivedEntry(ctx, s.id, e))
            && FirstE01(report.scenarios) != Some(Fail)
            && report.verdict == DecideVerdict(ctx.mode, report.scenarios, ctx.live)
  {
    hide StructuralProblems, FormalReport, ScenariosReconcile, DerivedEntry, FirstE01, DecideVerdict;
    StructureExactly(ctx, report);
    ScenariosAre(ctx, report.scenarios);
  }

  /** A valid blocked report, exactly: well formed, its artifacts load, it ran no command, and every
      class and the verdict are blocked. */
  lemma BlockedExactly(ctx: Context, report: Report)
    requires ctx.blocked
    ensures Validate(ctx, report, true) == [] <==>
            && FormalReport(ctx, report) && ctx.artifacts == [] && !ctx.commands
            && (forall s :: s in report.scenarios ==> forall e :: e in s.classes ==> e.status == Blocked)
            && report.verdict == BlockedVerdict
  {
    hide StructuralProblems, FormalReport, NotBlockedScenarios;
    StructureExactly(ctx, report);
    ScenariosAre(ctx, report.scenarios);
  }
}
