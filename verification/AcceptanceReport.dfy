/**
 The acceptance report that records its own validation (scripts/dual_track_acceptance: the
 precedence of statuses and the verdict in assessment.py, the validation in
 report_validation.py, and scenario E01 in runner.py).
 */
module AcceptanceReport {
  import opened Options
  import opened Text

  // -- Statuses and verdicts --------------------------------------------------------------------

  /** A status of the fixed list, or any other text a report may hold. */
  datatype Status = Pass | Fail | Blocked | NotRun | Unlisted(text: string)

  datatype Verdict = FullPass | OfflinePass | FailVerdict | BlockedVerdict | NotRunVerdict | OtherVerdict(text: string)

  datatype Mode = Offline | Live | OtherMode(text: string)

  /** `worst_status`. */
  function WorstStatus(statuses: seq<Status>): Status
  {
    if Fail in statuses then Fail
    else if NotRun in statuses then NotRun
    else if Blocked in statuses then Blocked
    else if Pass in statuses then Pass
    else NotRun
  }

  datatype Entry = Entry(executionClass: string, status: Status, reason: string, evidence: seq<string>)

  datatype Scenario = Scenario(id: string, required: bool, status: Status, classes: seq<Entry>)

  function Statuses(classes: seq<Entry>): (statuses: seq<Status>)
    ensures |statuses| == |classes| && forall i :: 0 <= i < |classes| ==> statuses[i] == classes[i].status
  {
    if classes == [] then [] else [classes[0].status] + Statuses(classes[1..])
  }

  /** The classes of the required scenarios. */
  function Required(scenarios: seq<Scenario>): seq<Entry>
  {
    if scenarios == [] then []
    else (if scenarios[0].required then scenarios[0].classes else []) + Required(scenarios[1..])
  }

  predicate AnyFailed(entries: seq<Entry>)
  {
    exists i :: 0 <= i < |entries| && entries[i].status == Fail
  }

  /** `decide_verdict`. */
  function DecideVerdict(mode: Mode, scenarios: seq<Scenario>, live: set<string>): Verdict
  {
    var entries := Required(scenarios);
    if AnyFailed(entries) then FailVerdict
    else if mode == Live then
      if forall i :: 0 <= i < |entries| ==> entries[i].status == Pass then FullPass else BlockedVerdict
    else if (exists i :: 0 <= i < |entries| && entries[i].executionClass !in live)
            && (forall i :: 0 <= i < |entries| && entries[i].executionClass !in live ==> entries[i].status == Pass)
    then OfflinePass
    else BlockedVerdict
  }

  // -- Problems ---------------------------------------------------------------------------------

  datatype Problem =
    | Stated(text: string)
    | VerdictNotAllowed
    | UnknownMode
    | OtherShape
    | StatusNotAllowed(id: string, executionClass: string)
    | PassWithoutEvidence(id: string, executionClass: string)
    | BadReference(id: string, executionClass: string, text: string)
    | LivePassedOffline(id: string, executionClass: string)
    | NoReason(id: string, executionClass: string)
    | StatusDoesNotFollow(id: string)
    | ClaimsFullPass
    | CommandsWhileBlocked
    | NotBlocked(id: string)
    | BlockedVerdictDiffers
    | StatusDiffers(id: string, executionClass: string)
    | EvidenceDiffers(id: string, executionClass: string)
    | E01PassedWithProblems
    | E01FailedWithoutProblems
    | VerdictDoesNotFollow
    | RecordedDiffers

  datatype Derived = Derived(status: Status, evidence: seq<string>)

  /** What a report is validated against, and the parts of it that a run never changes after they
      are built: the problems found in those parts, whether a cited reference is refused, and the
      statuses the artifacts give. */
  datatype Context = Context(
    mode: Mode,
    live: set<string>,
    benchmark: seq<(string, seq<string>)>,
    blocked: bool,
    commands: bool,
    fields: seq<Problem>,
    inputs: seq<Problem>,
    offline: seq<Problem>,
    closing: seq<Problem>,
    refused: string -> Option<string>,
    artifacts: seq<Problem>,
    derived: map<(string, string), Derived>)

  datatype Report = Report(scenarios: seq<Scenario>, verdict: Verdict, validation: Option<seq<Problem>>)

  const E01 := "E01"

  // -- Structure --------------------------------------------------------------------------------

  /** The part of a reference before its first colon. */
  function Kind(reference: string): string
  {
    if reference == "" || reference[0] == ':' then "" else [reference[0]] + Kind(reference[1..])
  }

  /** `_reference_problems`: a reference to the validation itself is always good. */
  function ReferenceProblem(ctx: Context, reference: string): Option<string>
  {
    if Kind(reference) == "validation" then None else ctx.refused(reference)
  }

  function ReferenceProblems(ctx: Context, id: string, entry: Entry, references: seq<string>): seq<Problem>
  {
    if references == [] then []
    else
      var first := ReferenceProblem(ctx, references[0]);
      (if first.Some? then [BadReference(id, entry.executionClass, first.value)] else [])
      + ReferenceProblems(ctx, id, entry, references[1..])
  }

  function PassProblems(ctx: Context, id: string, entry: Entry): seq<Problem>
  {
    (if entry.evidence == [] then [PassWithoutEvidence(id, entry.executionClass)] else [])
    + ReferenceProblems(ctx, id, entry, entry.evidence)
    + (if ctx.mode == Offline && entry.executionClass in ctx.live
       then [LivePassedOffline(id, entry.executionClass)] else [])
  }

  function EntryProblems(ctx: Context, id: string, entry: Entry, final: bool): seq<Problem>
  {
    (if entry.status.Unlisted? then [StatusNotAllowed(id, entry.executionClass)] else [])
    + if !final && id == E01 then []
      else (if entry.status == Pass then PassProblems(ctx, id, entry) else [])
           + (if entry.reason == "" then [NoReason(id, entry.executionClass)] else [])
  }

  function EntriesProblems(ctx: Context, id: string, classes: seq<Entry>, final: bool): seq<Problem>
  {
    if classes == [] then []
    else EntryProblems(ctx, id, classes[0], final) + EntriesProblems(ctx, id, classes[1..], final)
  }

  function ScenarioProblems(ctx: Context, s: Scenario, final: bool): seq<Problem>
  {
    EntriesProblems(ctx, s.id, s.classes, final)
    + if final && s.status != WorstStatus(Statuses(s.classes)) then [StatusDoesNotFollow(s.id)] else []
  }

  function ScenariosProblems(ctx: Context, scenarios: seq<Scenario>, final: bool): seq<Problem>
  {
    if scenarios == [] then []
    else ScenarioProblems(ctx, scenarios[0], final) + ScenariosProblems(ctx, scenarios[1..], final)
  }

  function ClassNames(classes: seq<Entry>): seq<string>
  {
    if classes == [] then [] else [classes[0].executionClass] + ClassNames(classes[1..])
  }

  /** The ids and classes of the scenarios, to compare with the benchmark. */
  function Shape(scenarios: seq<Scenario>): seq<(string, seq<string>)>
  {
    if scenarios == [] then [] else [(scenarios[0].id, ClassNames(scenarios[0].classes))] + Shape(scenarios[1..])
  }

  /** `structural_problems`. */
  function StructuralProblems(ctx: Context, report: Report, final: bool): seq<Problem>
  {
    ctx.fields
    + (if final && report.verdict.OtherVerdict? then [VerdictNotAllowed] else [])
    + (if ctx.mode.OtherMode? then [UnknownMode] else [])
    + ctx.inputs
    + (if Shape(report.scenarios) != ctx.benchmark then [OtherShape] else [])
    + ScenariosProblems(ctx, report.scenarios, final)
    + (if ctx.mode == Offline then (if report.verdict == FullPass then [ClaimsFullPass] else []) + ctx.offline else [])
    + ctx.closing
  }

  // -- Reconciliation -----------------------------------------------------------------------------

  function EntryReconciles(ctx: Context, id: string, entry: Entry): seq<Problem>
  {
    var key := (id, entry.executionClass);
    if key !in ctx.derived then []
    else if entry.status != ctx.derived[key].status then [StatusDiffers(id, entry.executionClass)]
    else if multiset(entry.evidence) != multiset(ctx.derived[key].evidence)
    then [EvidenceDiffers(id, entry.executionClass)]
    else []
  }

  function ClassesReconcile(ctx: Context, id: string, classes: seq<Entry>): seq<Problem>
  {
    if classes == [] then [] else EntryReconciles(ctx, id, classes[0]) + ClassesReconcile(ctx, id, classes[1..])
  }

  function ScenariosReconcile(ctx: Context, scenarios: seq<Scenario>): seq<Problem>
  {
    if scenarios == [] then []
    else (if scenarios[0].id == E01 then [] else ClassesReconcile(ctx, scenarios[0].id, scenarios[0].classes))
         + ScenariosReconcile(ctx, scenarios[1..])
  }

  // -- Validation ---------------------------------------------------------------------------------

  function NotBlockedClasses(id: string, classes: seq<Entry>): seq<Problem>
  {
    if classes == [] then []
    else (if classes[0].status != Blocked then [NotBlocked(id)] else []) + NotBlockedClasses(id, classes[1..])
  }

  function NotBlockedScenarios(scenarios: seq<Scenario>): seq<Problem>
  {
    if scenarios == [] then []
    else NotBlockedClasses(scenarios[0].id, scenarios[0].classes) + NotBlockedScenarios(scenarios[1..])
  }

  function FirstE01(scenarios: seq<Scenario>): Option<Status>
  {
    if scenarios == [] then None
    else if scenarios[0].id == E01 then Some(scenarios[0].status)
    else FirstE01(scenarios[1..])
  }

  /** What E01 and the verdict add, given the problems found so far. */
  function OwnProblems(ctx: Context, report: Report, found: seq<Problem>): seq<Problem>
  {
    var e01 := FirstE01(report.scenarios);
    (if e01 == Some(Pass) && found != [] then [E01PassedWithProblems] else [])
    + (if e01 == Some(Fail) && found == [] then [E01FailedWithoutProblems] else [])
    + (if report.verdict != DecideVerdict(ctx.mode, report.scenarios, ctx.live) then [VerdictDoesNotFollow] else [])
  }

  /** `validate_report`. */
  function Validate(ctx: Context, report: Report, final: bool): seq<Problem>
  {
    var structural := StructuralProblems(ctx, report, final);
    if ctx.blocked then
      structural + ctx.artifacts
      + (if ctx.commands then [CommandsWhileBlocked] else [])
      + NotBlockedScenarios(report.scenarios)
      + (if report.verdict != BlockedVerdict then [BlockedVerdictDiffers] else [])
    else
      var found := structural + ctx.artifacts + ScenariosReconcile(ctx, report.scenarios);
      if final then found + OwnProblems(ctx, report, found) else found
  }

  // -- The run --------------------------------------------------------------------------------------

  const PASS_REASON := "re-derived from the run"
  const FAIL_REASON := " validation problems"
  const VALIDATION := "validation:report"

  /** E01's first class as the draft's problems decide it. */
  function DecideEntry(entry: Entry, problems: seq<Problem>): Entry
  {
    if problems != [] then
      entry.(status := Fail, reason := Decimal(|problems|) + FAIL_REASON, evidence := [])
    else entry.(status := Pass, reason := PASS_REASON, evidence := [VALIDATION])
  }

  function DecideScenario(s: Scenario, problems: seq<Problem>): Scenario
  {
    if s.id != E01 || s.classes == [] then s
    else
      var entry := DecideEntry(s.classes[0], problems);
      s.(classes := s.classes[0 := entry], status := entry.status)
  }

  function DecideScenarios(scenarios: seq<Scenario>, problems: seq<Problem>): (decided: seq<Scenario>)
    ensures |decided| == |scenarios|
    ensures forall i :: 0 <= i < |scenarios| ==> decided[i] == DecideScenario(scenarios[i], problems)
  {
    if scenarios == [] then []
    else [DecideScenario(scenarios[0], problems)] + DecideScenarios(scenarios[1..], problems)
  }

  /** `_decide_e01`. */
  function Decided(ctx: Context, draft: Report): Report
  {
    var scenarios := DecideScenarios(draft.scenarios, Validate(ctx, draft, false));
    draft.(scenarios := scenarios, verdict := DecideVerdict(ctx.mode, scenarios, ctx.live))
  }

  /** The tail of `run`: the report as it is written. */
  function Written(ctx: Context, draft: Report): Report
  {
    var report := if ctx.blocked then draft else Decided(ctx, draft);
    var problems := Validate(ctx, report, true);
    report.(validation := Some(problems),
            verdict := if !ctx.blocked && problems != [] then FailVerdict else report.verdict)
  }

  /** `validate`: the problems of a written report, among them a recorded result that differs. */
  function Revalidate(ctx: Context, report: Report): seq<Problem>
  {
    var problems := Validate(ctx, report, true);
    problems + if report.validation != Some(problems) then [RecordedDiffers] else []
  }
}
