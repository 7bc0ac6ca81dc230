/** The feature pipeline (`FeatureOrchestrator.process_feature` in
    agents/sdlc/feature_orchestrator.py): optional planning, building, code
    review, UI review when UI files were created, optional testing and QA,
    each validation phase with its own fix loop, and a compact result that is
    SUCCESS, PARTIAL when findings are left open, or FAILED.

    Every collaborator is an input: the planner's and builder's results, each
    validator's first verdict, and the script of rounds each fix loop is
    driven by. The run's duration is not modelled. */
module FeatureOrchestrator {
  import opened Wrappers
  import opened Text
  import opened Findings
  import opened FeatureFixLoop
  import Builder
  import Reviewer
  import UIReviewer
  import Tester
  import QA
  import Orchestrator

  /** `FeatureStatus`. */
  datatype FeatureStatus = Pending | InProgress | Success | Partial | Failed

  /** `FeatureResult`, without `duration_ms`. */
  datatype FeatureResult = FeatureResult(
    featureName: string,
    status: FeatureStatus,
    phases: seq<PhaseResult>,
    filesCreated: seq<string>,
    filesModified: seq<string>,
    testFiles: seq<string>,
    remainingIssues: seq<Finding>,
    assumptions: seq<string>,
    error: Option<string>)

  // ----- UI files -----

  /** The substrings that mark a (lower-cased) path as a UI file. */
  const UiIndicators: seq<string> :=
    [".tsx", ".jsx", "component", "page", "view", "/ui/", "/components/", "/pages/"]

  /** Some string of `marks` occurs in `s`. */
  predicate AnyContained(s: string, marks: seq<string>)
    decreases |marks|
  {
    |marks| > 0 && (Contains(s, marks[0]) || AnyContained(s, marks[1..]))
  }

  /** `_is_ui_file(path)` */
  predicate IsUiFile(path: string) {
    AnyContained(Lower(path), UiIndicators)
  }

  lemma {:induction false} AnyContainedIff(s: string, marks: seq<string>)
    ensures AnyContained(s, marks) <==> exists i :: 0 <= i < |marks| && Contains(s, marks[i])
    decreases |marks|
  {
    if |marks| > 0 {
      AnyContainedIff(s, marks[1..]);
      assert forall i :: 1 <= i < |marks| ==> marks[i] == marks[1..][i - 1];
    }
  }

  /** A path is a UI file exactly when its lower-case form contains one of
      the indicators, anywhere in it. */
  lemma UiFileIff(path: string)
    ensures IsUiFile(path) <==> exists i :: 0 <= i < |UiIndicators| && Contains(Lower(path), UiIndicators[i])
  {
    AnyContainedIff(Lower(path), UiIndicators);
  }

  /** Lower-casing leaves a string without upper-case letters in place. */
  lemma LowerSplice(a: string, m: string, b: string)
    requires forall k :: 0 <= k < |m| ==> !IsUpperLetter(m[k])
    ensures Lower(a + m + b) == Lower(a) + m + Lower(b)
  {
  }

  /** The test is a substring test, not a suffix test: an indicator spliced
      anywhere into a path makes it a UI file, whatever surrounds it. */
  lemma IndicatorAnywhere(a: string, i: nat, b: string)
    requires i < |UiIndicators|
    ensures IsUiFile(a + UiIndicators[i] + b)
  {
    var m := UiIndicators[i];
    assert forall k :: 0 <= k < |m| ==> !IsUpperLetter(m[k]);
    LowerSplice(a, m, b);
    ContainsSpliced(Lower(a), m, Lower(b));
    UiFileIff(a + m + b);
  }

  /** The test ignores case: an upper-cased path is a UI file exactly when
      the path is. */
  lemma UiFileIgnoresCase(path: string)
    ensures IsUiFile(Upper(path)) <==> IsUiFile(path)
  {
    assert Lower(Upper(path)) == Lower(path);
  }

  /** `[f for f in files if _is_ui_file(f)]` */
  function UiFiles(files: seq<string>): (r: seq<string>)
    ensures forall f :: f in r <==> f in files && IsUiFile(f)
    ensures |r| <= |files|
    decreases |files|
  {
    if |files| == 0 then []
    else (if IsUiFile(files[0]) then [files[0]] else []) + UiFiles(files[1..])
  }

  // ----- bookkeeping over the phase records -----

  /** The phase labels of the records, in order. */
  function Names(ps: seq<PhaseResult>): (r: seq<string>)
    ensures |r| == |ps|
  {
    if |ps| == 0 then [] else Names(ps[..|ps| - 1]) + [ps[|ps| - 1].phase]
  }

  /** Findings found but not fixed, summed over the records. */
  function Outstanding(ps: seq<PhaseResult>): int {
    if |ps| == 0 then 0
    else Outstanding(ps[..|ps| - 1]) + ps[|ps| - 1].issuesFound - ps[|ps| - 1].issuesFixed
  }

  /** The open findings are exactly what the records count as found and not fixed. */
  predicate Balanced(res: FeatureResult) {
    |res.remainingIssues| == Outstanding(res.phases)
  }

  /** A record names the files its phase was handed: the builder's files,
      the review's and QA's, only the UI files, or the test files. */
  predicate RecordHanded(p: PhaseResult, created: seq<string>, modified: seq<string>, testFiles: seq<string>) {
    && (p.phase == "building" ==> p.filesAffected == created + modified)
    && (p.phase == "code_review" ==> p.filesAffected == modified + created)
    && (p.phase == "ui_review" ==> p.filesAffected == UiFiles(created))
    && (p.phase == "testing" ==> p.filesAffected == testFiles)
    && (p.phase == "qa" ==> p.filesAffected == created + modified)
  }

  /** Every record names the files its phase was handed. */
  predicate Handed(ps: seq<PhaseResult>, created: seq<string>, modified: seq<string>, testFiles: seq<string>) {
    forall i :: 0 <= i < |ps| ==> RecordHanded(ps[i], created, modified, testFiles)
  }

  /** What the collaborators of one `process_feature` call return. */
  datatype FeatureInputs = FeatureInputs(
    plan: Orchestrator.PlannerResult,
    build: Builder.BuilderResult,
    review: Reviewer.ReviewResult,
    reviewScript: seq<FeatureRound>,
    ui: UIReviewer.UIReviewResult,
    uiScript: seq<FeatureRound>,
    test: Tester.TesterResult,
    testScript: seq<FeatureRound>,
    qa: QA.QAResult,
    qaScript: seq<FeatureRound>)

  /** How a call ended: with its result, or with a fix loop out of script in
      the named phase (the result so far, the phase not yet recorded). */
  datatype FeatureRun =
    | Reported(result: FeatureResult)
    | Stalled(result: FeatureResult, phase: string)

  // ----- one validation phase -----

  /** A validation phase's record and the findings it leaves open, or a fix
      loop that ran out of script. */
  datatype Checked = Checked(record: PhaseResult, remaining: seq<Finding>) | CheckStalled

  /** A validation phase: the record counts the verdict's findings, and the
      loop runs only when the verdict asks for fixes and lists some. */
  function CheckPhase(phase: string, files: seq<string>, fixRequired: bool, findings: seq<Finding>,
                      script: seq<FeatureRound>): (c: Checked)
    ensures !fixRequired || |findings| == 0 ==> c == Checked(NewPhase(phase, files), [])
    ensures c.CheckStalled? ==> fixRequired && |findings| > 0
    ensures c.Checked? ==>
      && c.record.phase == phase && c.record.success && c.record.error == None
      && c.record.filesAffected == files
      && c.record.issuesFound == (if fixRequired && |findings| > 0 then |findings| else 0)
      && c.record.issuesFixed + |c.remaining| == c.record.issuesFound
  {
    var record := NewPhase(phase, files);
    if fixRequired && |findings| > 0 then
      var r := RunFeatureFixLoop(record.(issuesFound := |findings|), findings, script);
      if r.Returned? then Checked(r.record, r.remaining) else CheckStalled
    else Checked(record, [])
  }

  /** The result once a phase's open findings and record are added. */
  function Extend(res: FeatureResult, c: Checked): (r: FeatureResult)
    requires c.Checked?
    ensures Names(r.phases) == Names(res.phases) + [c.record.phase]
    ensures c.record.issuesFixed + |c.remaining| == c.record.issuesFound && Balanced(res) ==> Balanced(r)
    ensures r.status == res.status && r.error == res.error && r.featureName == res.featureName
  {
    var r := res.(remainingIssues := res.remainingIssues + c.remaining, phases := res.phases + [c.record]);
    assert r.phases[..|r.phases| - 1] == res.phases;
    r
  }

  // ----- the phase labels of a run that gets to the end -----

  function QaNames(): seq<string> {
    ["qa"]
  }

  function TestNames(skipTests: bool): seq<string> {
    (if skipTests then [] else ["testing"]) + QaNames()
  }

  function UiNames(ui: bool, skipTests: bool): seq<string> {
    (if ui then ["ui_review"] else []) + TestNames(skipTests)
  }

  function ReviewNames(ui: bool, skipTests: bool): seq<string> {
    ["code_review"] + UiNames(ui, skipTests)
  }

  function BuildNames(ui: bool, skipTests: bool): seq<string> {
    ["building"] + ReviewNames(ui, skipTests)
  }

  /** The phase labels of a run that reaches QA. */
  function FeatureNames(planned: bool, ui: bool, skipTests: bool): seq<string> {
    (if planned then ["planning"] else []) + BuildNames(ui, skipTests)
  }

  /** A result returned after QA: PARTIAL exactly when findings are left open,
      with the builder's files, the test files and no error. */
  predicate Finalized(res: FeatureResult, r: FeatureResult, created: seq<string>, modified: seq<string>,
                      testFiles: seq<string>) {
    && r.status == (if |r.remainingIssues| > 0 then Partial else Success)
    && r.filesCreated == created && r.filesModified == modified && r.testFiles == testFiles
    && r.assumptions == [] && r.error == res.error && r.featureName == res.featureName
  }

  /** The test files a run reports: none when testing is skipped. */
  function TestFilesOf(skipTests: bool, io: FeatureInputs): seq<string> {
    if skipTests then [] else io.test.testFiles
  }

  /** A run from `res` that is reported appends records labelled `names`,
      keeps the open findings balanced and the handed files right, and ends
      finalized. */
  ghost predicate Continues(res: FeatureResult, r: FeatureRun, names: seq<string>,
                            created: seq<string>, modified: seq<string>, testFiles: seq<string>) {
    r.Reported? ==>
      && Names(r.result.phases) == Names(res.phases) + names
      && (Balanced(res) ==> Balanced(r.result))
      && (Handed(res.phases, created, modified, testFiles) ==> Handed(r.result.phases, created, modified, testFiles))
      && Finalized(res, r.result, created, modified, testFiles)
  }

  /** A phase whose record is right, followed by a run that continues, is a
      run that continues from before the phase. */
  lemma Chain(res: FeatureResult, c: Checked, r: FeatureRun, tail: seq<string>,
              created: seq<string>, modified: seq<string>, testFiles: seq<string>)
    requires c.Checked? && c.record.issuesFixed + |c.remaining| == c.record.issuesFound
    requires RecordHanded(c.record, created, modified, testFiles)
    requires Continues(Extend(res, c), r, tail, created, modified, testFiles)
    ensures Continues(res, r, [c.record.phase] + tail, created, modified, testFiles)
  {
    var res1 := Extend(res, c);
    if r.Reported? {
      ConcatAssoc(Names(res.phases), [c.record.phase], tail);
      if Handed(res.phases, created, modified, testFiles) {
        assert forall i :: 0 <= i < |res1.phases| ==> RecordHanded(res1.phases[i], created, modified, testFiles) by {
          forall i | 0 <= i < |res1.phases|
            ensures RecordHanded(res1.phases[i], created, modified, testFiles)
          {
            if i < |res.phases| {
              assert res1.phases[i] == res.phases[i];
            }
          }
        }
      }
    }
  }

  // ----- the phases, each handing on to the next -----

  /** Phase 6, QA, then the final status. */
  function QaStage(res: FeatureResult, created: seq<string>, modified: seq<string>, testFiles: seq<string>,
                   io: FeatureInputs): (r: FeatureRun)
    ensures Continues(res, r, QaNames(), created, modified, testFiles)
  {
    var c := CheckPhase("qa", created + modified, io.qa.fixRequired, io.qa.findings, io.qaScript);
    if c.CheckStalled? then Stalled(res, "qa")
    else
      var res1 := Extend(res, c);
      var r := Reported(res1.(filesCreated := created, filesModified := modified, testFiles := testFiles,
                              assumptions := [], status := if |res1.remainingIssues| > 0 then Partial else Success));
      assert Handed(res.phases, created, modified, testFiles) ==> Handed(res1.phases, created, modified, testFiles) by {
        if Handed(res.phases, created, modified, testFiles) {
          forall i | 0 <= i < |res1.phases|
            ensures RecordHanded(res1.phases[i], created, modified, testFiles)
          {
            if i < |res.phases| {
              assert res1.phases[i] == res.phases[i];
            }
          }
        }
      }
      r
  }

  /** Phase 5, testing, unless skipped: the tester's files are the test files. */
  function TestStage(res: FeatureResult, created: seq<string>, modified: seq<string>, skipTests: bool,
                     io: FeatureInputs): (r: FeatureRun)
    ensures Continues(res, r, TestNames(skipTests), created, modified, TestFilesOf(skipTests, io))
  {
    if skipTests then
      var r := QaStage(res, created, modified, [], io);
      assert TestNames(true) == QaNames();
      r
    else
      var testFiles := io.test.testFiles;
      var c := CheckPhase("testing", testFiles, io.test.fixRequired, io.test.findings, io.testScript);
      if c.CheckStalled? then Stalled(res, "testing")
      else
        var r := QaStage(Extend(res, c), created, modified, testFiles, io);
        Chain(res, c, r, QaNames(), created, modified, testFiles);
        r
  }

  /** Phase 4, UI review, only when some created file is a UI file, and then
      of those files alone. */
  function UiStage(res: FeatureResult, created: seq<string>, modified: seq<string>, skipTests: bool,
                   io: FeatureInputs): (r: FeatureRun)
    ensures Continues(res, r, UiNames(|UiFiles(created)| > 0, skipTests), created, modified, TestFilesOf(skipTests, io))
  {
    var ui := UiFiles(created);
    if |ui| > 0 then
      var c := CheckPhase("ui_review", ui, io.ui.fixRequired, io.ui.findings, io.uiScript);
      if c.CheckStalled? then Stalled(res, "ui_review")
      else
        var r := TestStage(Extend(res, c), created, modified, skipTests, io);
        Chain(res, c, r, TestNames(skipTests), created, modified, TestFilesOf(skipTests, io));
        r
    else
      var r := TestStage(res, created, modified, skipTests, io);
      assert UiNames(false, skipTests) == TestNames(skipTests);
      r
  }

  /** Phase 3, code review of the modified and created files. */
  function ReviewStage(res: FeatureResult, created: seq<string>, modified: seq<string>, skipTests: bool,
                       io: FeatureInputs): (r: FeatureRun)
    ensures Continues(res, r, ReviewNames(|UiFiles(created)| > 0, skipTests), created, modified, TestFilesOf(skipTests, io))
  {
    var c := CheckPhase("code_review", modified + created, io.review.fixRequired, io.review.findings, io.reviewScript);
    if c.CheckStalled? then Stalled(res, "code_review")
    else
      var r := UiStage(Extend(res, c), created, modified, skipTests, io);
      Chain(res, c, r, UiNames(|UiFiles(created)| > 0, skipTests), created, modified, TestFilesOf(skipTests, io));
      r
  }

  /** Phase 2, building: a failed build is recorded, then the run fails. */
  function BuildStage(res: FeatureResult, skipTests: bool, io: FeatureInputs): (r: FeatureRun)
    ensures !io.build.success ==>
      r == Reported(res.(phases := res.phases + [FailedPhase("building", io.build.error)], status := Failed,
                         error := Some("Building failed: " + Orchestrator.Show(io.build.error))))
    ensures io.build.success ==>
      Continues(res, r, BuildNames(|UiFiles(io.build.filesCreated)| > 0, skipTests),
                io.build.filesCreated, io.build.filesModified, TestFilesOf(skipTests, io))
  {
    if !io.build.success then
      Reported(res.(phases := res.phases + [FailedPhase("building", io.build.error)], status := Failed,
                    error := Some("Building failed: " + Orchestrator.Show(io.build.error))))
    else
      var created := io.build.filesCreated;
      var modified := io.build.filesModified;
      var c := Checked(NewPhase("building", created + modified), []);
      var r := ReviewStage(Extend(res, c), created, modified, skipTests, io);
      Chain(res, c, r, ReviewNames(|UiFiles(created)| > 0, skipTests), created, modified, TestFilesOf(skipTests, io));
      r
  }

  /** Planning runs unless it is to be skipped and a non-empty spec was given. */
  predicate RunsPlanning(spec: Option<string>, skipPlanning: bool) {
    !skipPlanning || spec.GetOr("") == ""
  }

  /** The result before any phase. */
  function Started(name: string): FeatureResult {
    FeatureResult(name, InProgress, [], [], [], [], [], [], None)
  }

  /** The record of a planning phase that succeeded. */
  function PlanningRecord(plan: Orchestrator.PlannerResult): PhaseResult {
    PhaseResult("planning", true, 0, 0, 0, plan.filesToModify + plan.filesToCreate, None)
  }

  /** `process_feature(feature_name, description, spec, skip_planning,
      skip_tests)` against the collaborators' results; the description only
      reaches the planner. */
  function ProcessFeature(name: string, spec: Option<string>, skipPlanning: bool, skipTests: bool,
                          io: FeatureInputs): (r: FeatureRun)
    ensures RunsPlanning(spec, skipPlanning) && !io.plan.success ==>
      r == Reported(Started(name).(phases := [FailedPhase("planning", io.plan.error)], status := Failed,
                                   error := Some("Planning failed: " + Orchestrator.Show(io.plan.error))))
    ensures (io.plan.success || !RunsPlanning(spec, skipPlanning)) && !io.build.success ==>
      r == Reported(Started(name).(
             phases := (if RunsPlanning(spec, skipPlanning) then [PlanningRecord(io.plan)] else [])
                       + [FailedPhase("building", io.build.error)],
             status := Failed,
             error := Some("Building failed: " + Orchestrator.Show(io.build.error))))
    ensures (io.plan.success || !RunsPlanning(spec, skipPlanning)) && io.build.success ==>
      && Continues(Started(name), r, FeatureNames(RunsPlanning(spec, skipPlanning), |UiFiles(io.build.filesCreated)| > 0, skipTests),
                   io.build.filesCreated, io.build.filesModified, TestFilesOf(skipTests, io))
      && (r.Reported? ==> Balanced(r.result) && Handed(r.result.phases, io.build.filesCreated, io.build.filesModified, TestFilesOf(skipTests, io)))
  {
    var res := Started(name);
    if RunsPlanning(spec, skipPlanning) then
      var plan := io.plan;
      if !plan.success then
        Reported(res.(phases := [FailedPhase("planning", plan.error)], status := Failed,
                      error := Some("Planning failed: " + Orchestrator.Show(plan.error))))
      else
        var c := Checked(PlanningRecord(plan), []);
        var r := BuildStage(Extend(res, c), skipTests, io);
        if io.build.success then
          var ui := |UiFiles(io.build.filesCreated)| > 0;
          Chain(res, c, r, BuildNames(ui, skipTests), io.build.filesCreated, io.build.filesModified, TestFilesOf(skipTests, io));
          r
        else
          assert Extend(res, c).phases == [PlanningRecord(plan)];
          r
    else
      var r := BuildStage(res, skipTests, io);
      if io.build.success then
        var ui := |UiFiles(io.build.filesCreated)| > 0;
        assert FeatureNames(false, ui, skipTests) == BuildNames(ui, skipTests);
        r
      else
        assert res.phases + [FailedPhase("building", io.build.error)] == [] + [FailedPhase("building", io.build.error)];
        r
  }

  /** Planning is skipped only when asked to and a non-empty spec is given. */
  lemma PlanningSkipped(spec: Option<string>, skipPlanning: bool)
    ensures !RunsPlanning(spec, skipPlanning) <==> skipPlanning && spec.Some? && spec.value != ""
  {
  }

  /** The labels of a run that reaches QA name each optional phase exactly
      when its condition holds, and the three fixed phases always. */
  lemma FeatureNamesMembers(planned: bool, ui: bool, skipTests: bool)
    ensures var names := FeatureNames(planned, ui, skipTests);
      && ("planning" in names <==> planned)
      && ("ui_review" in names <==> ui)
      && ("testing" in names <==> !skipTests)
      && "building" in names && "code_review" in names && "qa" in names
  {
    var test: seq<string> := if skipTests then [] else ["testing"];
    var uiPart: seq<string> := if ui then ["ui_review"] else [];
    var plan: seq<string> := if planned then ["planning"] else [];
    assert FeatureNames(planned, ui, skipTests) == plan + (["building"] + (["code_review"] + (uiPart + (test + ["qa"]))));
  }

  /** Some created file is a UI file exactly when the UI file list is non-empty. */
  lemma SomeUiFile(created: seq<string>)
    ensures |UiFiles(created)| > 0 <==> exists f :: f in created && IsUiFile(f)
  {
    if |UiFiles(created)| > 0 {
      assert UiFiles(created)[0] in UiFiles(created);
    }
  }

  /** Which phases a run that gets past building goes through: planning iff
      it is not skipped, UI review iff some created file is a UI file,
      testing iff it is not skipped; building, code review and QA always. */
  lemma PhasesThatRun(name: string, spec: Option<string>, skipPlanning: bool, skipTests: bool, io: FeatureInputs)
    requires io.plan.success || !RunsPlanning(spec, skipPlanning)
    requires io.build.success
    requires ProcessFeature(name, spec, skipPlanning, skipTests, io).Reported?
    ensures var names := Names(ProcessFeature(name, spec, skipPlanning, skipTests, io).result.phases);
      && ("planning" in names <==> RunsPlanning(spec, skipPlanning))
      && ("ui_review" in names <==> exists f :: f in io.build.filesCreated && IsUiFile(f))
      && ("testing" in names <==> !skipTests)
      && "building" in names && "code_review" in names && "qa" in names
  {
    FeatureNamesMembers(RunsPlanning(spec, skipPlanning), |UiFiles(io.build.filesCreated)| > 0, skipTests);
    SomeUiFile(io.build.filesCreated);
  }

  /** The UI phase of a run reviews created UI files and nothing else. */
  lemma UiReviewsUiFiles(name: string, spec: Option<string>, skipPlanning: bool, skipTests: bool, io: FeatureInputs,
                         i: nat)
    requires io.plan.success || !RunsPlanning(spec, skipPlanning)
    requires io.build.success
    requires ProcessFeature(name, spec, skipPlanning, skipTests, io).Reported?
    requires i < |ProcessFeature(name, spec, skipPlanning, skipTests, io).result.phases|
    requires ProcessFeature(name, spec, skipPlanning, skipTests, io).result.phases[i].phase == "ui_review"
    ensures forall f :: f in ProcessFeature(name, spec, skipPlanning, skipTests, io).result.phases[i].filesAffected <==>
      f in io.build.filesCreated && IsUiFile(f)
  {
    var r := ProcessFeature(name, spec, skipPlanning, skipTests, io);
    assert RecordHanded(r.result.phases[i], io.build.filesCreated, io.build.filesModified, TestFilesOf(skipTests, io));
  }

  // ----- the compact summary -----

  /** `status_emoji[status]` */
  function StatusMark(s: FeatureStatus): string {
    match s
    case Success => "\U{2705}"
    case Partial => "\U{26A0}\U{FE0F}"
    case Failed => "\U{274C}"
    case Pending => "\U{23F3}"
    case InProgress => "\U{1F504}"
  }

  /** `status.value.upper()` */
  function StatusWord(s: FeatureStatus): string {
    match s
    case Success => "SUCCESS"
    case Partial => "PARTIAL"
    case Failed => "FAILED"
    case Pending => "PENDING"
    case InProgress => "IN_PROGRESS"
  }

  /** `str(i)` for any integer. */
  function IntToString(i: int): string {
    if i < 0 then "-" + NatToString(-i) else NatToString(i)
  }

  /** The bracketed fix-loop detail of a phase line, shown only after a fix loop. */
  function Detail(p: PhaseResult): (d: string)
    ensures d == "" <==> p.fixLoops == 0
  {
    if p.fixLoops > 0 then
      " (" + NatToString(p.fixLoops) + " fix loops, " + IntToString(p.issuesFixed) + "/"
      + NatToString(p.issuesFound) + " fixed)"
    else ""
  }

  /** The line of one phase in the agent chain. */
  function PhaseLine(p: PhaseResult): string {
    "- " + (if p.success then "\U{2705}" else "\U{274C}") + " " + p.phase + Detail(p)
  }

  /** `- item` for each item. */
  function Bullets(items: seq<string>): (r: seq<string>)
    ensures |r| == |items|
    ensures forall k :: 0 <= k < |items| ==> r[k] == "- " + items[k]
  {
    seq(|items|, k requires 0 <= k < |items| => "- " + items[k])
  }

  /** A titled list, left out entirely when it has no items. */
  function Section(title: string, items: seq<string>): (r: seq<string>)
    ensures |r| == SectionSize(|items|)
  {
    if |items| == 0 then [] else ["", title] + Bullets(items)
  }

  /** The `k`-th item's line follows the blank line and the title. */
  lemma SectionItem(title: string, items: seq<string>, k: nat)
    requires k < |items|
    ensures Section(title, items)[k + 2] == "- " + items[k]
  {
  }

  /** How an open finding is listed: id, problem and location. */
  function IssueText(f: Finding): string {
    f.id + ": " + f.problem + " at " + f.location
  }

  function IssueTexts(fs: seq<Finding>): (r: seq<string>)
    ensures |r| == |fs|
    ensures forall k :: 0 <= k < |fs| ==> r[k] == IssueText(fs[k])
  {
    seq(|fs|, k requires 0 <= k < |fs| => IssueText(fs[k]))
  }

  function PhaseLines(ps: seq<PhaseResult>): (r: seq<string>)
    ensures |r| == |ps|
    ensures forall k :: 0 <= k < |ps| ==> r[k] == PhaseLine(ps[k])
  {
    seq(|ps|, k requires 0 <= k < |ps| => PhaseLine(ps[k]))
  }

  /** The four header lines. */
  function Header(r: FeatureResult): seq<string> {
    ["## Feature: " + r.featureName, "### Status: " + StatusMark(r.status) + " " + StatusWord(r.status), "",
     "### Agent Chain:"]
  }

  /** The header, the agent chain, and the created-file and test-file sections. */
  function Leading(r: FeatureResult): seq<string> {
    Header(r) + PhaseLines(r.phases)
    + Section("### Erstellte Dateien:", r.filesCreated) + Section("### Test-Dateien:", r.testFiles)
  }

  /** The section of open findings. */
  function IssueSection(r: FeatureResult): seq<string> {
    Section("### Verbleibende Issues:", IssueTexts(r.remainingIssues))
  }

  /** The assumptions section and the duration. */
  function Trailing(r: FeatureResult, durationMs: nat): seq<string> {
    Section("### Annahmen:", r.assumptions) + ["", "### Dauer: " + NatToString(durationMs) + "ms"]
  }

  /** The lines `to_summary` joins, given the run's duration in milliseconds. */
  function SummaryLines(r: FeatureResult, durationMs: nat): seq<string> {
    Leading(r) + IssueSection(r) + Trailing(r, durationMs)
  }

  /** `to_summary()` */
  function ToSummary(r: FeatureResult, durationMs: nat): string {
    Join(SummaryLines(r, durationMs), "\n")
  }

  /** Lines a section takes for `n` items. */
  function SectionSize(n: nat): nat {
    if n == 0 then 0 else n + 2
  }

  /** The summary has a header, one line per phase right after it, a titled
      section for each non-empty list and nothing for an empty one, and the
      duration at the end. */
  lemma SummaryShape(r: FeatureResult, durationMs: nat)
    ensures var lines := SummaryLines(r, durationMs);
      && |lines| == 4 + |r.phases| + SectionSize(|r.filesCreated|) + SectionSize(|r.testFiles|)
                   + SectionSize(|r.remainingIssues|) + SectionSize(|r.assumptions|) + 2
      && (forall k :: 0 <= k < |r.phases| ==> lines[4 + k] == PhaseLine(r.phases[k]))
  {
    var lines := SummaryLines(r, durationMs);
    var head := Header(r) + PhaseLines(r.phases);
    forall k | 0 <= k < |r.phases|
      ensures lines[4 + k] == PhaseLine(r.phases[k])
    {
      assert lines[4 + k] == Leading(r)[4 + k] == head[4 + k];
    }
  }

  /** A line that starts with `- ` and an id puts the id in the joined text. */
  lemma JoinedLineContains(lines: seq<string>, n: nat, id: string, rest: string)
    requires n < |lines| && lines[n] == "- " + id + rest
    ensures Contains(Join(lines, "\n"), id)
  {
    var a, b := JoinSplit(lines, n, "\n");
    ContainsSpliced("- ", id, rest);
    ContainsWithin(a, lines[n], b, id);
  }

  /** Where the `k`-th open finding's line sits among the summary lines. */
  lemma IssueLineAt(r: FeatureResult, durationMs: nat, k: nat) returns (n: nat)
    requires k < |r.remainingIssues|
    ensures n < |SummaryLines(r, durationMs)|
    ensures SummaryLines(r, durationMs)[n] == "- " + IssueText(r.remainingIssues[k])
  {
    var issues := IssueSection(r);
    n := |Leading(r)| + 2 + k;
    SectionItem("### Verbleibende Issues:", IssueTexts(r.remainingIssues), k);
    assert SummaryLines(r, durationMs)[n] == issues[2 + k];
  }

  /** Every open finding is listed in the summary by its id. */
  lemma SummaryListsOpenFindings(r: FeatureResult, durationMs: nat, k: nat)
    requires k < |r.remainingIssues|
    ensures Contains(ToSummary(r, durationMs), r.remainingIssues[k].id)
  {
    var f := r.remainingIssues[k];
    var n := IssueLineAt(r, durationMs, k);
    ConcatAssoc("- ", f.id, ": " + f.problem + " at " + f.location);
    JoinedLineContains(SummaryLines(r, durationMs), n, f.id, ": " + f.problem + " at " + f.location);
  }
}
