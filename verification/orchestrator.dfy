/** The task pipeline of the SDLC orchestrator (`SDLCOrchestrator.process_task`,
    `move_to_stage` and `_build_fix_spec` in agents/sdlc/orchestrator.py):
    plan, build, review with a fix loop, UI review with a fix loop when files
    were created, test with a fix loop, QA with a fix loop, then ship.

    Every collaborator is an input: the planner's and builder's results, the
    merged result of each parallel validation, and the script of rounds each
    fix loop is driven by. The status trace lists every status the task is
    given, in order, which is what `_emit_status` reports. */
module Orchestrator {
  import opened Wrappers
  import opened Text
  import opened Findings
  import opened FixLoop
  import Builder
  import Reviewer
  import ParallelValidator

  /** `TaskStatus`. */
  datatype TaskStatus =
    | Todo | Planning | Building | Reviewing | UiReviewing | Testing | QaChecking
    | Shipped | Failed | Partial

  /** `PlannerResult` (agents/sdlc/agents/planner.py), the planner's output. */
  datatype PlannerResult = PlannerResult(
    spec: string,
    filesToModify: seq<string>,
    filesToCreate: seq<string>,
    success: bool,
    error: Option<string>)

  /** `Task`, without its timestamps. */
  datatype Task = Task(
    id: string,
    title: string,
    description: string,
    status: TaskStatus,
    spec: string,
    filesModified: seq<string>,
    filesCreated: seq<string>,
    testFiles: seq<string>,
    reviewStatus: Option<Reviewer.ReviewStatus>,
    reviewSummary: string,
    fixLoopStats: seq<FixLoopStats>,
    error: Option<string>)

  /** Python's `str()` of an optional message. */
  function Show(m: Option<string>): string {
    match m
    case None => "None"
    case Some(s) => s
  }

  /** What the collaborators of one `process_task` call return. */
  datatype TaskInputs = TaskInputs(
    plan: PlannerResult,
    build: Builder.BuilderResult,
    review: ParallelValidator.MergedResult,
    reviewScript: seq<Round>,
    ui: ParallelValidator.MergedResult,
    uiScript: seq<Round>,
    test: ParallelValidator.MergedResult,
    testScript: seq<Round>,
    qa: ParallelValidator.MergedResult,
    qaScript: seq<Round>)

  /** How a call ended: the id was unknown (nothing changed), a fix loop's
      script ran out in the named phase, or the task was returned. */
  datatype TaskRun =
    | Missing
    | Stalled(task: Task, trace: seq<TaskStatus>, phase: string)
    | Done(task: Task, trace: seq<TaskStatus>)

  /** The error text of a QA phase that left `n` findings open. */
  function ResidualMessage(n: nat): string {
    "QA: " + NatToString(n) + " issues remaining after max loops"
  }

  /** An error that reports a positive number of open QA findings. */
  ghost predicate IsResidual(error: Option<string>) {
    error.Some? && exists n: nat :: n > 0 && error.value == ResidualMessage(n)
  }

  // ----- the status trace -----

  /** The statuses from QA on, ending in `last`. */
  function QaTrace(last: TaskStatus): seq<TaskStatus> {
    [QaChecking, last]
  }

  /** The statuses from testing on. */
  function TestTrace(last: TaskStatus): seq<TaskStatus> {
    [Testing] + QaTrace(last)
  }

  /** The statuses from the UI phase on; UI_REVIEWING only when `ui`. */
  function UiTrace(ui: bool, last: TaskStatus): seq<TaskStatus> {
    (if ui then [UiReviewing] else []) + TestTrace(last)
  }

  /** The statuses from code review on. */
  function ReviewTrace(ui: bool, last: TaskStatus): seq<TaskStatus> {
    [Reviewing] + UiTrace(ui, last)
  }

  /** The statuses from building on. */
  function BuildTrace(ui: bool, last: TaskStatus): seq<TaskStatus> {
    [Building] + ReviewTrace(ui, last)
  }

  /** Every status of a run that gets past review, ending in `last`. */
  function FullTrace(ui: bool, last: TaskStatus): seq<TaskStatus> {
    [Planning] + BuildTrace(ui, last)
  }

  /** The statuses of a run that ships, with or without the UI phase. */
  lemma ShippedTrace(ui: bool)
    ensures FullTrace(ui, Shipped) ==
      [Planning, Building, Reviewing] + (if ui then [UiReviewing] else []) + [Testing, QaChecking, Shipped]
  {
  }

  /** A run that gets past review ended SHIPPED with the task's own error
      untouched and the review approved, or PARTIAL with the open QA count. */
  ghost predicate Landed(t: Task, r: TaskRun) {
    r.Done? ==>
      && (r.task.status == Shipped || r.task.status == Partial)
      && (r.task.status == Shipped ==> r.task.reviewStatus == Some(Reviewer.Approved) && r.task.error == t.error)
      && (r.task.status == Partial ==> IsResidual(r.task.error))
  }

  /** The `except` branch: FAILED, with the exception text. */
  function Fail(t: Task, trace: seq<TaskStatus>, message: string): (r: TaskRun)
    ensures r.Done? && r.task.status == Failed && r.task.error == Some(message)
    ensures r.trace == trace + [Failed]
  {
    Done(t.(status := Failed, error := Some(message)), trace + [Failed])
  }

  // ----- fix loops inside the pipeline -----

  /** A phase's fix loop: not started, ended, or out of script. */
  datatype LoopEnd = NotRun | Ended(exit: Exit) | Unended

  /** The loop runs only when the merged result asks for fixes and lists some;
      it ends FIXED or returns findings. */
  function PhaseLoop(phase: string, merged: ParallelValidator.MergedResult, script: seq<Round>): (e: LoopEnd)
    ensures e.NotRun? <==> !merged.fixRequired || |merged.findings| == 0
    ensures e.Ended? ==> e.exit.result == Fixed || |e.exit.remaining| > 0
  {
    if merged.fixRequired && |merged.findings| > 0 then
      var r := RunFixLoop(phase, merged.findings, script);
      if r.Finished? then Ended(r.exit) else Unended
    else NotRun
  }

  /** The task once the loop's stats record, if any, is appended. */
  function Recorded(t: Task, e: LoopEnd): (r: Task)
    ensures r == t.(fixLoopStats := r.fixLoopStats)
    ensures t.fixLoopStats <= r.fixLoopStats && |r.fixLoopStats| <= |t.fixLoopStats| + 1
  {
    if e.Ended? && e.exit.stats.Some? then t.(fixLoopStats := t.fixLoopStats + [e.exit.stats.value]) else t
  }

  // ----- what each phase's loop decides -----

  /** The QA phase's loop. */
  function QaLoop(io: TaskInputs): LoopEnd {
    PhaseLoop("qa", io.qa, io.qaScript)
  }

  /** The QA loop returned findings still open: `if remaining:`. */
  predicate QaOpen(io: TaskInputs) {
    QaLoop(io).Ended? && |QaLoop(io).exit.remaining| > 0
  }

  /** The QA loop did not run, or it left nothing open. */
  predicate QaClear(io: TaskInputs) {
    QaLoop(io).NotRun? || (QaLoop(io).Ended? && |QaLoop(io).exit.remaining| == 0)
  }

  /** How many findings the QA loop left open. */
  function OpenCount(io: TaskInputs): nat {
    if QaLoop(io).Ended? then |QaLoop(io).exit.remaining| else 0
  }

  /** The code-review loop ended FAILED. */
  predicate ReviewLoopFailed(io: TaskInputs) {
    var e := PhaseLoop("code_review", io.review, io.reviewScript);
    e.Ended? && e.exit.result == LoopFailed
  }

  /** The testing loop did not run out of script. */
  predicate PastTests(io: TaskInputs) {
    !PhaseLoop("testing", io.test, io.testScript).Unended?
  }

  /** The UI loop, when it runs (`ui`), and the testing loop did not run out of script. */
  predicate PastUi(io: TaskInputs, ui: bool) {
    (ui ==> !PhaseLoop("ui_review", io.ui, io.uiScript).Unended?) && PastTests(io)
  }

  /** The review succeeded, its loop neither failed nor ran out of script, and
      the later loops up to QA did not run out of script either. */
  predicate PastReview(io: TaskInputs, ui: bool) {
    && io.review.success
    && !PhaseLoop("code_review", io.review, io.reviewScript).Unended?
    && !ReviewLoopFailed(io)
    && PastUi(io, ui)
  }

  /** Planning and building succeeded and the run reaches QA. */
  predicate ReachesQa(io: TaskInputs) {
    io.plan.success && io.build.success && PastReview(io, |io.build.filesCreated| > 0)
  }

  /** A run that ends PARTIAL or SHIPPED ends as the QA loop decided. */
  predicate EndsAsQaSays(io: TaskInputs, r: TaskRun) {
    && (r.Done? && r.task.status == Partial ==>
          QaOpen(io) && r.task.error == Some(ResidualMessage(OpenCount(io))))
    && (r.Done? && r.task.status == Shipped ==> QaClear(io))
  }

  /** Once QA is reached, the QA loop decides: PARTIAL with the open count
      when findings remain, SHIPPED when none do. */
  predicate QaDecides(io: TaskInputs, r: TaskRun) {
    && (QaOpen(io) ==>
          r.Done? && r.task.status == Partial && r.task.error == Some(ResidualMessage(OpenCount(io))))
    && (QaClear(io) ==> r.Done? && r.task.status == Shipped)
  }

  // ----- the phases, each handing on to the next -----

  /** Phase 6, QA, then SHIPPED, or PARTIAL when findings are left open. */
  function QaPhase(t: Task, trace: seq<TaskStatus>, io: TaskInputs): (r: TaskRun)
    ensures !r.Missing? && Landed(t, r)
    ensures r.Done? ==> r.trace == trace + QaTrace(r.task.status) && r.task.filesCreated == t.filesCreated
    ensures var e := PhaseLoop("qa", io.qa, io.qaScript);
      e.Ended? && |e.exit.remaining| > 0 ==>
        r.Done? && r.task.status == Partial && r.task.error == Some(ResidualMessage(|e.exit.remaining|))
    ensures var e := PhaseLoop("qa", io.qa, io.qaScript);
      e.NotRun? || (e.Ended? && |e.exit.remaining| == 0) ==> r.Done? && r.task.status == Shipped
    ensures PhaseLoop("qa", io.qa, io.qaScript).Unended? <==> r.Stalled?
    ensures EndsAsQaSays(io, r)
  {
    var t1 := t.(status := QaChecking);
    var e := PhaseLoop("qa", io.qa, io.qaScript);
    if e.Unended? then Stalled(t1, trace + [QaChecking], "qa")
    else
      var t2 := Recorded(t1, e);
      if e.Ended? && |e.exit.remaining| > 0 then
        var n := |e.exit.remaining|;
        assert IsResidual(Some(ResidualMessage(n)));
        Done(t2.(status := Partial, error := Some(ResidualMessage(n))), trace + QaTrace(Partial))
      else
        Done(t2.(status := Shipped, reviewStatus := Some(Reviewer.Approved)), trace + QaTrace(Shipped))
  }

  /** Phase 5, testing; the loop's outcome is not consulted. */
  function TestPhase(t: Task, trace: seq<TaskStatus>, io: TaskInputs): (r: TaskRun)
    ensures !r.Missing? && Landed(t, r)
    ensures r.Done? ==> r.trace == trace + TestTrace(r.task.status) && r.task.filesCreated == t.filesCreated
    ensures EndsAsQaSays(io, r)
    ensures PastTests(io) ==> QaDecides(io, r)
  {
    var t1 := t.(status := Testing, testFiles := []);
    var e := PhaseLoop("testing", io.test, io.testScript);
    if e.Unended? then Stalled(t1, trace + [Testing], "testing")
    else
      var r := QaPhase(Recorded(t1, e), trace + [Testing], io);
      if r.Done? then
        ConcatAssoc(trace, [Testing], QaTrace(r.task.status));
        r
      else r
  }

  /** Phase 4, UI review, only when files were created; the loop's outcome is
      not consulted. */
  function UiPhase(t: Task, trace: seq<TaskStatus>, io: TaskInputs): (r: TaskRun)
    ensures !r.Missing? && Landed(t, r)
    ensures r.Done? ==>
      r.trace == trace + UiTrace(|t.filesCreated| > 0, r.task.status) && r.task.filesCreated == t.filesCreated
    ensures EndsAsQaSays(io, r)
    ensures PastUi(io, |t.filesCreated| > 0) ==> QaDecides(io, r)
  {
    if |t.filesCreated| > 0 then
      var t1 := t.(status := UiReviewing);
      var e := PhaseLoop("ui_review", io.ui, io.uiScript);
      if e.Unended? then Stalled(t1, trace + [UiReviewing], "ui_review")
      else
        var r := TestPhase(Recorded(t1, e), trace + [UiReviewing], io);
        if r.Done? then
          ConcatAssoc(trace, [UiReviewing], TestTrace(r.task.status));
          r
        else r
    else
      var r := TestPhase(t, trace, io);
      if r.Done? then
        assert UiTrace(false, r.task.status) == TestTrace(r.task.status);
        r
      else r
  }

  /** Phase 3, code review: a failed merge or a FAILED fix loop ends the task. */
  function ReviewPhase(t: Task, trace: seq<TaskStatus>, io: TaskInputs): (r: TaskRun)
    ensures !r.Missing?
    ensures r.Done? && r.task.status == Failed ==>
      r.trace == trace + [Reviewing, Failed]
      && (r.task.error == Some("Review failed: " + Show(io.review.error))
          || r.task.error == Some("Code review fix-loop failed"))
    ensures r.Done? && r.task.status != Failed ==>
      && Landed(t, r)
      && r.trace == trace + ReviewTrace(|t.filesCreated| > 0, r.task.status)
      && r.task.filesCreated == t.filesCreated
    ensures !io.review.success ==>
      r == Done(t.(status := Failed, error := Some("Review failed: " + Show(io.review.error))),
                trace + [Reviewing, Failed])
    ensures io.review.success && ReviewLoopFailed(io) ==>
      && r.Done? && r.task.status == Failed && r.task.error == Some("Code review fix-loop failed")
      && r.trace == trace + [Reviewing, Failed]
    ensures EndsAsQaSays(io, r)
    ensures PastReview(io, |t.filesCreated| > 0) ==> QaDecides(io, r)
  {
    var t1 := t.(status := Reviewing);
    var trace1 := trace + [Reviewing];
    if !io.review.success then
      var r := Fail(t1, trace1, "Review failed: " + Show(io.review.error));
      assert trace1 + [Failed] == trace + [Reviewing, Failed];
      r
    else
      var e := PhaseLoop("code_review", io.review, io.reviewScript);
      if e.Unended? then Stalled(t1, trace1, "code_review")
      else
        var t2 := Recorded(t1, e);
        if e.Ended? && e.exit.result == LoopFailed then
          var r := Fail(t2, trace1, "Code review fix-loop failed");
          assert trace1 + [Failed] == trace + [Reviewing, Failed];
          r
        else
          var r := UiPhase(t2, trace1, io);
          if r.Done? then
            ConcatAssoc(trace, [Reviewing], UiTrace(|t.filesCreated| > 0, r.task.status));
            r
          else r
  }

  /** Phase 2, building: the builder's file lists replace the planner's. */
  function BuildPhase(t: Task, trace: seq<TaskStatus>, io: TaskInputs): (r: TaskRun)
    ensures !r.Missing?
    ensures !io.build.success ==>
      r == Done(t.(status := Failed, error := Some("Building failed: " + Show(io.build.error))),
                trace + [Building, Failed])
    ensures io.build.success && r.Done? && r.task.status == Failed ==>
      r.trace == trace + [Building, Reviewing, Failed]
    ensures io.build.success && r.Done? && r.task.status != Failed ==>
      && Landed(t, r)
      && r.trace == trace + BuildTrace(|io.build.filesCreated| > 0, r.task.status)
      && r.task.filesCreated == io.build.filesCreated
    ensures io.build.success && !io.review.success ==>
      && r.Done? && r.task.status == Failed && r.task.error == Some("Review failed: " + Show(io.review.error))
    ensures io.build.success && io.review.success && ReviewLoopFailed(io) ==>
      && r.Done? && r.task.status == Failed && r.task.error == Some("Code review fix-loop failed")
    ensures EndsAsQaSays(io, r)
    ensures io.build.success && PastReview(io, |io.build.filesCreated| > 0) ==> QaDecides(io, r)
  {
    var t1 := t.(status := Building);
    if !io.build.success then
      var r := Fail(t1, trace + [Building], "Building failed: " + Show(io.build.error));
      assert trace + [Building] + [Failed] == trace + [Building, Failed];
      r
    else
      var t2 := t1.(filesModified := io.build.filesModified, filesCreated := io.build.filesCreated);
      var r := ReviewPhase(t2, trace + [Building], io);
      if r.Done? && r.task.status == Failed then
        assert trace + [Building] + [Reviewing, Failed] == trace + [Building, Reviewing, Failed];
        r
      else if r.Done? then
        ConcatAssoc(trace, [Building], ReviewTrace(|io.build.filesCreated| > 0, r.task.status));
        r
      else r
  }

  /** Phase 1, planning: the planner's spec and file lists go on the task. */
  function PlanPhase(t: Task, io: TaskInputs): (r: TaskRun)
    ensures !r.Missing?
    ensures !io.plan.success ==>
      r == Done(t.(status := Failed, error := Some("Planning failed: " + Show(io.plan.error))), [Planning, Failed])
    ensures r.Done? && r.task.status == Failed ==>
      r.trace == [Planning, Failed] || r.trace == [Planning, Building, Failed]
      || r.trace == [Planning, Building, Reviewing, Failed]
    ensures r.Done? && r.task.status != Failed ==>
      && Landed(t, r)
      && r.trace == FullTrace(|io.build.filesCreated| > 0, r.task.status)
    ensures io.plan.success && !io.build.success ==>
      && r.Done? && r.task.status == Failed && r.task.error == Some("Building failed: " + Show(io.build.error))
      && r.trace == [Planning, Building, Failed]
    ensures io.plan.success && io.build.success && !io.review.success ==>
      && r.Done? && r.task.status == Failed && r.task.error == Some("Review failed: " + Show(io.review.error))
      && r.trace == [Planning, Building, Reviewing, Failed]
    ensures io.plan.success && io.build.success && io.review.success && ReviewLoopFailed(io) ==>
      && r.Done? && r.task.status == Failed && r.task.error == Some("Code review fix-loop failed")
      && r.trace == [Planning, Building, Reviewing, Failed]
    ensures EndsAsQaSays(io, r)
    ensures ReachesQa(io) ==> QaDecides(io, r)
  {
    var t1 := t.(status := Planning);
    if !io.plan.success then Fail(t1, [Planning], "Planning failed: " + Show(io.plan.error))
    else
      var r := BuildPhase(t1.(spec := io.plan.spec, filesModified := io.plan.filesToModify,
                              filesCreated := io.plan.filesToCreate), [Planning], io);
      if r.Done? && r.task.status == Failed && !io.build.success then
        assert [Planning] + [Building, Failed] == [Planning, Building, Failed];
        r
      else if r.Done? && r.task.status == Failed then
        assert [Planning] + [Building, Reviewing, Failed] == [Planning, Building, Reviewing, Failed];
        r
      else r
  }

  /** `process_task(task_id)` against the collaborators' results: an unknown
      id raises before anything changes. */
  function ProcessTask(tasks: map<string, Task>, taskId: string, io: TaskInputs): (r: TaskRun)
    ensures r.Missing? <==> taskId !in tasks
    ensures taskId in tasks ==> r == PlanPhase(tasks[taskId], io)
  {
    if taskId !in tasks then Missing else PlanPhase(tasks[taskId], io)
  }

  /** How a task run ends: FAILED only in planning, building or code review,
      with the statuses up to there; otherwise SHIPPED after the full
      sequence of statuses, or PARTIAL in its place with the QA residue.
      Once the run reaches QA, PARTIAL comes exactly from findings the QA loop
      left open, with their number in the error, and SHIPPED exactly from none. */
  lemma TaskOutcomes(tasks: map<string, Task>, taskId: string, io: TaskInputs)
    requires taskId in tasks
    ensures ProcessTask(tasks, taskId, io).Done? ==>
      var r := ProcessTask(tasks, taskId, io);
      && (r.task.status == Shipped || r.task.status == Partial || r.task.status == Failed)
      && (r.task.status == Failed ==>
            r.trace == [Planning, Failed] || r.trace == [Planning, Building, Failed]
            || r.trace == [Planning, Building, Reviewing, Failed])
      && (r.task.status == Shipped ==>
            r.trace == FullTrace(|io.build.filesCreated| > 0, Shipped)
            && r.task.reviewStatus == Some(Reviewer.Approved) && r.task.error == tasks[taskId].error)
      && (r.task.status == Partial ==>
            r.trace == FullTrace(|io.build.filesCreated| > 0, Partial) && IsResidual(r.task.error))
    ensures ProcessTask(tasks, taskId, io).Done? && ProcessTask(tasks, taskId, io).task.status == Partial ==>
      QaOpen(io) && ProcessTask(tasks, taskId, io).task.error == Some(ResidualMessage(OpenCount(io)))
    ensures ProcessTask(tasks, taskId, io).Done? && ProcessTask(tasks, taskId, io).task.status == Shipped ==>
      QaClear(io)
    ensures ReachesQa(io) && QaOpen(io) ==>
      && ProcessTask(tasks, taskId, io).Done?
      && ProcessTask(tasks, taskId, io).task.status == Partial
      && ProcessTask(tasks, taskId, io).task.error == Some(ResidualMessage(OpenCount(io)))
    ensures ReachesQa(io) && QaClear(io) ==>
      ProcessTask(tasks, taskId, io).Done? && ProcessTask(tasks, taskId, io).task.status == Shipped
  {
  }

  /** A failed plan ends the task FAILED right after PLANNING. */
  lemma PlanningFailure(tasks: map<string, Task>, taskId: string, io: TaskInputs)
    requires taskId in tasks && !io.plan.success
    ensures ProcessTask(tasks, taskId, io).task.status == Failed
    ensures ProcessTask(tasks, taskId, io).task.error == Some("Planning failed: " + Show(io.plan.error))
    ensures ProcessTask(tasks, taskId, io).trace == [Planning, Failed]
  {
  }

  /** A failed build ends the task FAILED right after BUILDING. */
  lemma BuildingFailure(tasks: map<string, Task>, taskId: string, io: TaskInputs)
    requires taskId in tasks && io.plan.success && !io.build.success
    ensures ProcessTask(tasks, taskId, io).task.status == Failed
    ensures ProcessTask(tasks, taskId, io).task.error == Some("Building failed: " + Show(io.build.error))
    ensures ProcessTask(tasks, taskId, io).trace == [Planning, Building, Failed]
  {
  }

  /** A failed merged review ends the task FAILED right after REVIEWING. */
  lemma ReviewFailure(tasks: map<string, Task>, taskId: string, io: TaskInputs)
    requires taskId in tasks && io.plan.success && io.build.success && !io.review.success
    ensures ProcessTask(tasks, taskId, io).task.status == Failed
    ensures ProcessTask(tasks, taskId, io).task.error == Some("Review failed: " + Show(io.review.error))
    ensures ProcessTask(tasks, taskId, io).trace == [Planning, Building, Reviewing, Failed]
  {
  }

  /** A code-review fix loop that ends FAILED ends the task FAILED. */
  lemma ReviewLoopFailure(tasks: map<string, Task>, taskId: string, io: TaskInputs)
    requires taskId in tasks && io.plan.success && io.build.success && io.review.success
    requires ReviewLoopFailed(io)
    ensures ProcessTask(tasks, taskId, io).task.status == Failed
    ensures ProcessTask(tasks, taskId, io).task.error == Some("Code review fix-loop failed")
    ensures ProcessTask(tasks, taskId, io).trace == [Planning, Building, Reviewing, Failed]
  {
  }

  /** A clean pipeline, in which every validation succeeds without asking for
      fixes, ships with no loop stats added; the UI phase appears exactly when
      files were created. */
  lemma CleanPipelineShips(tasks: map<string, Task>, taskId: string, io: TaskInputs)
    requires taskId in tasks
    requires io.plan.success && io.build.success && io.review.success
    requires !io.review.fixRequired && !io.ui.fixRequired && !io.test.fixRequired && !io.qa.fixRequired
    ensures ProcessTask(tasks, taskId, io).Done?
    ensures ProcessTask(tasks, taskId, io).task.status == Shipped
    ensures ProcessTask(tasks, taskId, io).trace == FullTrace(|io.build.filesCreated| > 0, Shipped)
    ensures ProcessTask(tasks, taskId, io).task.fixLoopStats == tasks[taskId].fixLoopStats
  {
    var t := tasks[taskId].(status := Planning);
    var t1 := t.(spec := io.plan.spec, filesModified := io.plan.filesToModify, filesCreated := io.plan.filesToCreate);
    var t2 := t1.(status := Building).(filesModified := io.build.filesModified, filesCreated := io.build.filesCreated);
    var t3 := t2.(status := Reviewing);
    var t4 := if |t3.filesCreated| > 0 then t3.(status := UiReviewing) else t3;
    var t5 := t4.(status := Testing, testFiles := []);
    var t6 := t5.(status := QaChecking);
    assert QaPhase(t5, [], io).task == t6.(status := Shipped, reviewStatus := Some(Reviewer.Approved));
  }

  /** Two sets of inputs that differ at most in the `success` flags of the
      UI, test and QA merges. */
  predicate SameButSuccess(a: TaskInputs, b: TaskInputs) {
    && a.plan == b.plan && a.build == b.build && a.review == b.review
    && a.reviewScript == b.reviewScript && a.uiScript == b.uiScript
    && a.testScript == b.testScript && a.qaScript == b.qaScript
    && a.ui.fixRequired == b.ui.fixRequired && a.ui.findings == b.ui.findings
    && a.test.fixRequired == b.test.fixRequired && a.test.findings == b.test.findings
    && a.qa.fixRequired == b.qa.fixRequired && a.qa.findings == b.qa.findings
  }

  lemma LaterPhasesIgnoreSuccess(t: Task, trace: seq<TaskStatus>, a: TaskInputs, b: TaskInputs)
    requires SameButSuccess(a, b)
    ensures QaPhase(t, trace, a) == QaPhase(t, trace, b)
    ensures TestPhase(t, trace, a) == TestPhase(t, trace, b)
  {
    assert PhaseLoop("qa", a.qa, a.qaScript) == PhaseLoop("qa", b.qa, b.qaScript);
    assert PhaseLoop("testing", a.test, a.testScript) == PhaseLoop("testing", b.test, b.testScript);
    var t1 := t.(status := Testing, testFiles := []);
    var e := PhaseLoop("testing", a.test, a.testScript);
    assert QaPhase(Recorded(t1, e), trace + [Testing], a) == QaPhase(Recorded(t1, e), trace + [Testing], b);
  }

  lemma UiPhaseIgnoresSuccess(t: Task, trace: seq<TaskStatus>, a: TaskInputs, b: TaskInputs)
    requires SameButSuccess(a, b)
    ensures UiPhase(t, trace, a) == UiPhase(t, trace, b)
  {
    assert PhaseLoop("ui_review", a.ui, a.uiScript) == PhaseLoop("ui_review", b.ui, b.uiScript);
    var e := PhaseLoop("ui_review", a.ui, a.uiScript);
    LaterPhasesIgnoreSuccess(Recorded(t.(status := UiReviewing), e), trace + [UiReviewing], a, b);
    LaterPhasesIgnoreSuccess(t, trace, a, b);
  }

  /** The `success` flags of the UI, test and QA merges are never read. */
  lemma MergedSuccessIgnored(tasks: map<string, Task>, taskId: string, io: TaskInputs, ui: bool, test: bool, qa: bool)
    ensures ProcessTask(tasks, taskId, io.(ui := io.ui.(success := ui), test := io.test.(success := test),
                                           qa := io.qa.(success := qa)))
            == ProcessTask(tasks, taskId, io)
  {
    var other := io.(ui := io.ui.(success := ui), test := io.test.(success := test), qa := io.qa.(success := qa));
    if taskId in tasks {
      PlanPhaseIgnoresSuccess(tasks[taskId], other, io);
    }
  }

  lemma ReviewPhaseIgnoresSuccess(t: Task, trace: seq<TaskStatus>, a: TaskInputs, b: TaskInputs)
    requires SameButSuccess(a, b)
    ensures ReviewPhase(t, trace, a) == ReviewPhase(t, trace, b)
  {
    var e := PhaseLoop("code_review", a.review, a.reviewScript);
    UiPhaseIgnoresSuccess(Recorded(t.(status := Reviewing), e), trace + [Reviewing], a, b);
  }

  lemma BuildPhaseIgnoresSuccess(t: Task, trace: seq<TaskStatus>, a: TaskInputs, b: TaskInputs)
    requires SameButSuccess(a, b)
    ensures BuildPhase(t, trace, a) == BuildPhase(t, trace, b)
  {
    var t2 := t.(status := Building).(filesModified := a.build.filesModified, filesCreated := a.build.filesCreated);
    ReviewPhaseIgnoresSuccess(t2, trace + [Building], a, b);
  }

  lemma PlanPhaseIgnoresSuccess(t: Task, a: TaskInputs, b: TaskInputs)
    requires SameButSuccess(a, b)
    ensures PlanPhase(t, a) == PlanPhase(t, b)
  {
    var t1 := t.(status := Planning).(spec := a.plan.spec, filesModified := a.plan.filesToModify,
                                      filesCreated := a.plan.filesToCreate);
    BuildPhaseIgnoresSuccess(t1, [Planning], a, b);
  }

  // ----- move_to_stage -----

  /** What `move_to_stage` did: raised, updated the task, or ran the pipeline. */
  datatype Moved = MoveRaised(message: string) | MovedTo(task: Task) | Processed(run: TaskRun)

  /** `move_to_stage(task_id, stage)`: `build` is the builder's result when
      that stage runs, `io` the pipeline's inputs when `plan` runs. The
      review, test and QA stages run their agent but keep nothing of it. */
  function MoveToStage(tasks: map<string, Task>, taskId: string, stage: string,
                       build: Builder.BuilderResult, io: TaskInputs): (r: Moved)
    ensures taskId !in tasks ==> r == MoveRaised("Task " + taskId + " not found")
    ensures taskId in tasks && stage != "build" && stage != "review" ==> !r.MoveRaised?
    ensures taskId in tasks && stage == "build" ==>
      (r.MoveRaised? <==> tasks[taskId].spec == "")
    ensures taskId in tasks && stage == "review" ==>
      (r.MoveRaised? <==> |tasks[taskId].filesModified| == 0 && |tasks[taskId].filesCreated| == 0)
    ensures taskId in tasks && r.MovedTo? ==>
      r.task == tasks[taskId].(status := r.task.status, filesModified := r.task.filesModified,
                               filesCreated := r.task.filesCreated)
    ensures taskId in tasks && stage == "build" && r.MovedTo? ==>
      r.task.status == Building && r.task.filesCreated == build.filesCreated
      && r.task.filesModified == build.filesModified
    ensures taskId in tasks && stage in {"review", "test", "qa"} && r.MovedTo? ==>
      r.task == tasks[taskId].(status := if stage == "review" then Reviewing
                                         else if stage == "test" then Testing else QaChecking)
    ensures taskId in tasks && stage !in {"plan", "build", "review", "test", "qa"} ==>
      r == MovedTo(tasks[taskId])
    ensures r.Processed? <==> taskId in tasks && stage == "plan"
  {
    if taskId !in tasks then MoveRaised("Task " + taskId + " not found")
    else
      var t := tasks[taskId];
      if stage == "plan" then Processed(ProcessTask(tasks, taskId, io))
      else if stage == "build" then
        if t.spec == "" then MoveRaised("No spec available - run planning first")
        else MovedTo(t.(status := Building, filesModified := build.filesModified,
                        filesCreated := build.filesCreated))
      else if stage == "review" then
        if |t.filesModified| == 0 && |t.filesCreated| == 0 then
          MoveRaised("No files to review - run build first")
        else MovedTo(t.(status := Reviewing))
      else if stage == "test" then MovedTo(t.(status := Testing))
      else if stage == "qa" then MovedTo(t.(status := QaChecking))
      else MovedTo(t)
  }

  // ----- _build_fix_spec -----

  /** The heading that names a finding in a fix spec. */
  function FixHeading(f: Finding): string {
    "## Fix Required: " + f.id
  }

  /** The lines under a finding's heading. */
  function FixDetails(f: Finding): string {
    "\n- Location: " + f.location + "\n- Problem: " + f.problem
    + "\n- Fix Instruction: " + f.fixInstruction + "\n- Fix Code: " + f.fixCode + "\n"
  }

  /** One finding's block: its heading, then its details. */
  function FixBlock(f: Finding): string {
    "\n" + FixHeading(f) + FixDetails(f)
  }

  /** The blocks of all findings, one after the other. */
  function FixBlocks(fs: seq<Finding>): string
    decreases |fs|
  {
    if |fs| == 0 then "" else FixBlock(fs[0]) + FixBlocks(fs[1..])
  }

  const FixPreamble: string := "\n# FIX REQUIRED\n\nApply the following fixes to the implementation:\n\n"
  const ContextHeading: string := "\n\n## Original Context\n"
  const FixClosing: string :=
    "...\n\n## Instructions\n1. Apply each fix exactly as specified\n2. Do not make other changes\n3. Verify the fix resolves the issue\n"

  /** `_build_fix_spec(original_spec, findings)`: the builder's instructions,
      a block per finding, then the first 1000 characters of the spec. */
  function FixSpec(spec: string, fs: seq<Finding>): string {
    FixPreamble + FixBlocks(fs) + (ContextHeading + Take(spec, 1000) + FixClosing)
  }

  /** Every finding gets its own `## Fix Required: <id>` heading. */
  lemma {:induction false} BlocksNameEveryFinding(fs: seq<Finding>, i: nat)
    requires i < |fs|
    ensures Contains(FixBlocks(fs), FixHeading(fs[i]))
    decreases |fs|
  {
    var b0, rest := FixBlock(fs[0]), FixBlocks(fs[1..]);
    assert FixBlocks(fs) == b0 + rest;
    if i == 0 {
      ContainsSpliced("\n", FixHeading(fs[0]), FixDetails(fs[0]));
      ContainsWithin("", b0, rest, FixHeading(fs[0]));
      assert "" + b0 + rest == b0 + rest;
    } else {
      BlocksNameEveryFinding(fs[1..], i - 1);
      assert fs[1..][i - 1] == fs[i];
      ContainsWithin(b0, rest, "", FixHeading(fs[i]));
      assert b0 + rest + "" == b0 + rest;
    }
  }

  /** The fix spec names every finding and carries the spec's first 1000 characters. */
  lemma FixSpecComplete(spec: string, fs: seq<Finding>)
    ensures forall i :: 0 <= i < |fs| ==> Contains(FixSpec(spec, fs), FixHeading(fs[i]))
    ensures Contains(FixSpec(spec, fs), Take(spec, 1000))
  {
    var tail := ContextHeading + Take(spec, 1000) + FixClosing;
    forall i | 0 <= i < |fs|
      ensures Contains(FixSpec(spec, fs), FixHeading(fs[i]))
    {
      BlocksNameEveryFinding(fs, i);
      ContainsWithin(FixPreamble, FixBlocks(fs), tail, FixHeading(fs[i]));
    }
    ContainsSpliced(FixPreamble + FixBlocks(fs) + ContextHeading, Take(spec, 1000), FixClosing);
    ConcatAssoc(FixPreamble + FixBlocks(fs), ContextHeading + Take(spec, 1000), FixClosing);
    ConcatAssoc(FixPreamble + FixBlocks(fs), ContextHeading, Take(spec, 1000));
  }
}
