/** The four per-phase fix loops of the feature orchestrator
    (`_run_fix_loop`, `_run_ui_fix_loop`, `_run_test_fix_loop` and
    `_run_qa_fix_loop` in agents/sdlc/feature_orchestrator.py). They share the
    deadlock rule of the task loop but call no debugger, never look at the
    builder's result, and keep their bookkeeping in the phase's `PhaseResult`.
    The four differ only in the validator they call and the phase label they
    emit, so one definition models them all; the validator's verdict comes
    from the script. */
module FeatureFixLoop {
  import opened Wrappers
  import opened Findings
  import opened FixLoop
  import Builder

  /** `PhaseResult`. */
  datatype PhaseResult = PhaseResult(
    phase: string,
    success: bool,
    fixLoops: nat,
    issuesFound: nat,
    issuesFixed: int,
    filesAffected: seq<string>,
    error: Option<string>)

  /** A successful phase record before any loop has run. */
  function NewPhase(phase: string, files: seq<string>): PhaseResult {
    PhaseResult(phase, true, 0, 0, 0, files, None)
  }

  /** A failed phase record, as appended before planning or building raises. */
  function FailedPhase(phase: string, error: Option<string>): PhaseResult {
    PhaseResult(phase, false, 0, 0, 0, [], error)
  }

  /** One pass: what the builder returned (never inspected) and the validator's verdict. */
  datatype FeatureRound = FeatureRound(build: Builder.BuilderResult, validation: Verdict)

  /** The loop's local variables and the phase record it updates. */
  datatype FeatureState = FeatureState(
    current: seq<Finding>,
    history: seq<set<string>>,
    loopCount: nat,
    record: PhaseResult)

  /** A loop that returned a list after `fixes` passes, or one whose script ran out. */
  datatype FeatureRun =
    | Returned(remaining: seq<Finding>, record: PhaseResult, fixes: nat)
    | ScriptEnded(state: FeatureState)

  /** The loop from state `s` against the script. */
  function Loop(s: FeatureState, script: seq<FeatureRound>): (r: FeatureRun)
    ensures |s.current| == 0 ==> r == Returned([], s.record, 0)
    ensures r.Returned? ==> r.fixes <= |script|
    ensures r.Returned? ==>
      && r.record.phase == s.record.phase && r.record.success == s.record.success
      && r.record.issuesFound == s.record.issuesFound
      && r.record.filesAffected == s.record.filesAffected && r.record.error == s.record.error
    ensures r.Returned? && r.fixes == 0 ==> r.record == s.record
    ensures r.Returned? && r.fixes > 0 ==> r.record.fixLoops == s.loopCount + r.fixes
    ensures r.Returned? && |r.remaining| > 0 ==>
      r.record.issuesFixed + |r.remaining| == s.record.issuesFixed + |s.current|
    ensures s.record.issuesFixed + |s.current| == s.record.issuesFound && r.Returned? ==>
      r.record.issuesFixed + |r.remaining| == r.record.issuesFound
    decreases |script|
  {
    if |s.current| == 0 then Returned([], s.record, 0)
    else
      var ids := IdSet(s.current);
      if Deadlocked(s.history, ids) then Returned(s.current, s.record, 0)
      else if |script| == 0 then ScriptEnded(s)
      else
        var v := script[0].validation;
        if !v.fixRequired then
          Returned([], s.record.(fixLoops := s.loopCount + 1, issuesFixed := s.record.issuesFound), 1)
        else
          var r := Loop(Pass(s, v), script[1..]);
          if r.Returned? then Returned(r.remaining, r.record, r.fixes + 1) else r
  }

  /** The state after a pass whose verdict still asks for fixes: the verdict's
      findings become current, and the fixed count moves by the difference. */
  function Pass(s: FeatureState, v: Verdict): (t: FeatureState)
    ensures t.record.issuesFixed + |t.current| == s.record.issuesFixed + |s.current|
  {
    FeatureState(v.findings, s.history + [IdSet(s.current)], s.loopCount + 1,
                 s.record.(fixLoops := s.loopCount + 1,
                           issuesFixed := s.record.issuesFixed + |s.current| - |v.findings|))
  }

  /** A run one pass longer: one more fix counted when it returned. */
  function Wrap(r: FeatureRun): FeatureRun {
    if r.Returned? then Returned(r.remaining, r.record, r.fixes + 1) else r
  }

  /** A pass that continues hands the rest of the script to the next state. */
  lemma PassUnfolds(s: FeatureState, script: seq<FeatureRound>)
    requires |s.current| > 0 && !Deadlocked(s.history, IdSet(s.current))
    requires |script| > 0 && script[0].validation.fixRequired
    ensures Loop(s, script) == Wrap(Loop(Pass(s, script[0].validation), script[1..]))
  {
  }

  /** `_run_*fix_loop(findings, ..., phase_result)`. */
  function RunFeatureFixLoop(record: PhaseResult, findings: seq<Finding>, script: seq<FeatureRound>): (r: FeatureRun)
    ensures |findings| == 0 ==> r == Returned([], record, 0)
    ensures r.Returned? && r.fixes > 0 ==> r.record.fixLoops == r.fixes
    ensures record.issuesFixed + |findings| == record.issuesFound && r.Returned? ==>
      r.record.issuesFixed + |r.remaining| == r.record.issuesFound
  {
    Loop(FeatureState(findings, [], 0, record), script)
  }

  /** A clean verdict ends the loop with nothing left and overwrites the
      fixed count with the found count, whatever came before. */
  lemma CleanVerdict(s: FeatureState, script: seq<FeatureRound>)
    requires |s.current| > 0 && !LastThreeEqual(s.history, IdSet(s.current))
    requires |script| > 0 && !script[0].validation.fixRequired
    ensures Loop(s, script) == Returned([], s.record.(fixLoops := s.loopCount + 1, issuesFixed := s.record.issuesFound), 1)
  {
    DeadlockRule(s.history, IdSet(s.current));
  }

  /** Replacing every builder result leaves the run unchanged: only the
      verdicts matter, so a failed fix does not end the loop. */
  lemma {:induction false} BuildIgnored(s: FeatureState, script: seq<FeatureRound>, other: seq<FeatureRound>)
    requires |other| == |script|
    requires forall i :: 0 <= i < |script| ==> other[i].validation == script[i].validation
    ensures Loop(s, other) == Loop(s, script)
    decreases |script|
  {
    if |s.current| > 0 && !Deadlocked(s.history, IdSet(s.current)) && |script| > 0 {
      var v := script[0].validation;
      assert other[0].validation == v;
      if v.fixRequired {
        var rest, restOther := script[1..], other[1..];
        assert forall i :: 0 <= i < |rest| ==> restOther[i].validation == rest[i].validation by {
          forall i | 0 <= i < |rest|
            ensures restOther[i].validation == rest[i].validation
          {
            assert rest[i] == script[i + 1] && restOther[i] == other[i + 1];
          }
        }
        BuildIgnored(Pass(s, v), rest, restOther);
        PassUnfolds(s, script);
        PassUnfolds(s, other);
      }
    }
  }

  /** The task loop's script in which every fix succeeded with these verdicts. */
  function TaskScript(script: seq<FeatureRound>): (r: seq<Round>)
    ensures |r| == |script|
    ensures forall i :: 0 <= i < |r| ==> r[i] == FixApplied(script[i].validation)
  {
    seq(|script|, i requires 0 <= i < |script| => FixApplied(script[i].validation))
  }

  /** When every fix succeeds, a feature loop returns exactly what the task
      loop returns from the same findings and history, after as many passes. */
  lemma {:induction false} AgreesWithTaskLoop(phase: string, ls: LoopState, s: FeatureState, script: seq<FeatureRound>)
    requires ls.current == s.current && ls.history == s.history && ls.loopCount == s.loopCount
    ensures FixLoop.Loop(phase, ls, TaskScript(script)).Finished? <==> Loop(s, script).Returned?
    ensures Loop(s, script).Returned? ==>
      && FixLoop.Loop(phase, ls, TaskScript(script)).exit.remaining == Loop(s, script).remaining
      && FixLoop.Loop(phase, ls, TaskScript(script)).fixes == Loop(s, script).fixes
    decreases |script|
  {
    var task := TaskScript(script);
    DeadlockRule(s.history, IdSet(s.current));
    if |s.current| > 0 && !Deadlocked(s.history, IdSet(s.current)) && |script| > 0 {
      var v := script[0].validation;
      assert task[0] == FixApplied(v);
      if v.fixRequired {
        var t := Attempt(phase, ls, task[0]).state;
        assert task[1..] == TaskScript(script[1..]);
        AgreesWithTaskLoop(phase, t, Pass(s, v), script[1..]);
        NextUnfolds(phase, ls, task, t);
        PassUnfolds(s, script);
      }
    }
  }

  /** Three passes whose verdicts keep the initial id-set: the loop returns
      the third verdict's findings and records three fix loops. */
  lemma StuckPhase(record: PhaseResult, findings: seq<Finding>, script: seq<FeatureRound>)
    requires |findings| > 0
    requires |script| >= 3
    requires forall i :: 0 <= i < 3 ==>
      script[i].validation.fixRequired && IdSet(script[i].validation.findings) == IdSet(findings)
    ensures RunFeatureFixLoop(record, findings, script).Returned?
    ensures RunFeatureFixLoop(record, findings, script).remaining == script[2].validation.findings
    ensures RunFeatureFixLoop(record, findings, script).record.fixLoops == 3
  {
    var task := TaskScript(script);
    StuckFindings("", findings, task);
    AgreesWithTaskLoop("", Start(findings), FeatureState(findings, [], 0, record), script);
  }
}
