/** The fix loop of the SDLC orchestrator (`SDLCOrchestrator._run_fix_loop` in
    agents/sdlc/orchestrator.py): fix the current findings, re-validate, and
    go round again until nothing is left, the debugger gives up, or the same
    id-set signature has come back three times in a row.

    The loop has no bound of its own, so the collaborators' answers are a
    finite script of rounds; a run that exhausts its script is `Unfinished`. */
module FixLoop {
  import opened Wrappers
  import opened Findings
  import opened AgentIO
  import Reviewer
  import Debugger

  /** `FixLoopResult`. */
  datatype FixLoopResult = Fixed | MaxLoopsReached | LoopFailed

  /** `FixLoopStats`: one record per loop that ended by validation or deadlock. */
  datatype FixLoopStats = FixLoopStats(
    phase: string,
    loopsRun: nat,
    issuesFixed: int,
    issuesRemaining: nat,
    maxLoopsReached: bool)

  /** `MAX_IDENTICAL_LOOPS`. */
  const MaxIdenticalLoops: nat := 3

  // ----- the deadlock rule -----

  /** `previous_finding_ids[-3:]`: the last three signatures, or all of them. */
  function Recent(history: seq<set<string>>): (r: seq<set<string>>)
    ensures |r| == if |history| < MaxIdenticalLoops then |history| else MaxIdenticalLoops
    ensures forall i :: 0 <= i < |r| ==> r[i] == history[|history| - |r| + i]
  {
    if |history| <= MaxIdenticalLoops then history
    else history[|history| - MaxIdenticalLoops..]
  }

  /** How many signatures of `s` equal `ids`. */
  function CountEqual(s: seq<set<string>>, ids: set<string>): (n: nat)
    ensures n <= |s|
    decreases |s|
  {
    if |s| == 0 then 0
    else CountEqual(s[..|s| - 1], ids) + (if s[|s| - 1] == ids then 1 else 0)
  }

  /** The count reaches the length only when every signature matches. */
  lemma {:induction false} CountEqualAll(s: seq<set<string>>, ids: set<string>)
    ensures CountEqual(s, ids) == |s| <==> forall i :: 0 <= i < |s| ==> s[i] == ids
    decreases |s|
  {
    if |s| > 0 {
      var init := s[..|s| - 1];
      CountEqualAll(init, ids);
      assert forall i :: 0 <= i < |init| ==> init[i] == s[i];
      if s[|s| - 1] != ids {
        assert CountEqual(s, ids) <= |init|;
      }
    }
  }

  /** The test `identical_count >= MAX_IDENTICAL_LOOPS`. */
  predicate Deadlocked(history: seq<set<string>>, ids: set<string>) {
    CountEqual(Recent(history), ids) >= MaxIdenticalLoops
  }

  /** The rule spelt out: the three most recent signatures all equal `ids`. */
  predicate LastThreeEqual(history: seq<set<string>>, ids: set<string>) {
    |history| >= 3 && history[|history| - 1] == ids && history[|history| - 2] == ids
    && history[|history| - 3] == ids
  }

  /** The counting test is exactly the three-signature rule; older history is
      never consulted. */
  lemma DeadlockRule(history: seq<set<string>>, ids: set<string>)
    ensures Deadlocked(history, ids) <==> LastThreeEqual(history, ids)
  {
    var r := Recent(history);
    CountEqualAll(r, ids);
    if |history| >= 3 {
      assert r[0] == history[|history| - 3] && r[1] == history[|history| - 2];
      assert r[2] == history[|history| - 1];
    }
  }

  // ----- one pass of the loop -----

  /** What a validator or the debugger reported: its `fix_required` flag and findings. */
  datatype Verdict = Verdict(fixRequired: bool, findings: seq<Finding>)

  /** The collaborators' answers in one pass: either the fix failed and the
      debugger's analysis follows, or the fix succeeded and the validator's
      verdict follows. */
  datatype Round = FixFailed(diagnosis: Verdict) | FixApplied(validation: Verdict)

  /** The loop's local variables. */
  datatype LoopState = LoopState(
    current: seq<Finding>,
    history: seq<set<string>>,
    loopCount: nat,
    issuesFixed: int)

  /** The state on entry. */
  function Start(initial: seq<Finding>): LoopState {
    LoopState(initial, [], 0, 0)
  }

  /** How the loop returned: the result, the findings it returns, and the
      stats record it appended to the task, if any. */
  datatype Exit = Exit(result: FixLoopResult, remaining: seq<Finding>, stats: Option<FixLoopStats>)

  datatype Step = Stop(exit: Exit) | Next(state: LoopState)

  /** The tests at the top of an iteration, before anything is called: the
      `while` condition and the deadlock check. */
  function Entry(phase: string, s: LoopState): (r: Option<Exit>)
    ensures r == None <==> |s.current| > 0 && !LastThreeEqual(s.history, IdSet(s.current))
    ensures |s.current| == 0 ==> r == Some(Exit(Fixed, [], None))
    ensures |s.current| > 0 && r.Some? ==>
      && r.value.result == MaxLoopsReached && r.value.remaining == s.current
      && r.value.stats == Some(FixLoopStats(phase, s.loopCount + 1, s.issuesFixed, |s.current|, true))
  {
    DeadlockRule(s.history, IdSet(s.current));
    if |s.current| == 0 then Some(Exit(Fixed, [], None))
    else if Deadlocked(s.history, IdSet(s.current)) then
      Some(Exit(MaxLoopsReached, s.current,
                Some(FixLoopStats(phase, s.loopCount + 1, s.issuesFixed, |s.current|, true))))
    else None
  }

  /** The rest of an iteration, once the entry tests have passed: record the
      signature, fix, then either consult the debugger or re-validate. */
  function Attempt(phase: string, s: LoopState, round: Round): (r: Step)
    requires Entry(phase, s) == None
    ensures r.Next? ==>
      && r.state.loopCount == s.loopCount + 1
      && r.state.history == s.history + [IdSet(s.current)]
    ensures round.FixFailed? ==>
      && (r.Next? <==> round.diagnosis.fixRequired && |round.diagnosis.findings| > 0)
      && (r.Next? ==> r.state.current == round.diagnosis.findings
                      && r.state.issuesFixed == s.issuesFixed)
      && (r.Stop? ==> r.exit == Exit(LoopFailed, s.current, None))
    ensures round.FixApplied? ==>
      && (r.Stop? <==> !round.validation.fixRequired)
      && (r.Stop? ==> r.exit == Exit(Fixed, [],
            Some(FixLoopStats(phase, s.loopCount + 1, s.issuesFixed + |s.current|, 0, false))))
      && (r.Next? ==> r.state.current == round.validation.findings
                      && r.state.issuesFixed + |r.state.current| == s.issuesFixed + |s.current|)
  {
    var count := s.loopCount + 1;
    var history := s.history + [IdSet(s.current)];
    match round
    case FixFailed(d) =>
      if d.fixRequired && |d.findings| > 0 then Next(LoopState(d.findings, history, count, s.issuesFixed))
      else Stop(Exit(LoopFailed, s.current, None))
    case FixApplied(v) =>
      if !v.fixRequired then
        Stop(Exit(Fixed, [], Some(FixLoopStats(phase, count, s.issuesFixed + |s.current|, 0, false))))
      else
        Next(LoopState(v.findings, history, count, s.issuesFixed + |s.current| - |v.findings|))
  }

  // ----- the whole loop -----

  /** A loop that returned after consuming `fixes` rounds, or one whose script
      ran out while it still had findings to fix. */
  datatype Run = Finished(exit: Exit, fixes: nat) | Unfinished(state: LoopState)

  /** Whether `e` was the deadlock exit. */
  function DeadlockBonus(e: Exit): nat {
    if e.result == MaxLoopsReached then 1 else 0
  }

  /** The loop from state `s` against the script. */
  function Loop(phase: string, s: LoopState, script: seq<Round>): (r: Run)
    ensures |s.current| == 0 ==> r == Finished(Exit(Fixed, [], None), 0)
    ensures r.Finished? ==> r.fixes <= |script|
    ensures r.Finished? && r.exit.result == Fixed ==> r.exit.remaining == []
    ensures r.Finished? && r.exit.result != Fixed ==> |r.exit.remaining| > 0
    ensures r.Finished? && r.exit.result == LoopFailed ==> r.exit.stats == None
    ensures r.Finished? && r.exit.stats.Some? ==>
      && r.exit.stats.value.phase == phase
      && (r.exit.stats.value.maxLoopsReached <==> r.exit.result == MaxLoopsReached)
      && r.exit.stats.value.issuesRemaining == |r.exit.remaining|
      && r.exit.stats.value.loopsRun == s.loopCount + r.fixes + DeadlockBonus(r.exit)
    ensures r.Finished? && r.exit.result == MaxLoopsReached ==> r.exit.stats.Some?
    ensures r.Unfinished? ==> |r.state.current| > 0 && r.state.loopCount == s.loopCount + |script|
    decreases |script|
  {
    match Entry(phase, s)
    case Some(e) => Finished(e, 0)
    case None =>
      if |script| == 0 then Unfinished(s)
      else
        match Attempt(phase, s, script[0])
        case Stop(e) => Finished(e, 1)
        case Next(t) =>
          var r := Loop(phase, t, script[1..]);
          if r.Finished? then Finished(r.exit, r.fixes + 1) else r
  }

  /** `_run_fix_loop(phase, initial, ...)` against a script of rounds. */
  function RunFixLoop(phase: string, initial: seq<Finding>, script: seq<Round>): (r: Run)
    ensures |initial| == 0 ==> r == Finished(Exit(Fixed, [], None), 0)
    ensures r.Finished? && r.exit.stats.Some? ==>
      r.exit.stats.value.loopsRun == r.fixes + DeadlockBonus(r.exit)
  {
    Loop(phase, Start(initial), script)
  }

  // ----- properties of whole runs -----

  /** A validator that still asks for fixes but lists none ends the loop at
      the next entry as FIXED, returning nothing and appending no stats. */
  lemma EmptyValidationEnds(phase: string, s: LoopState, rest: seq<Round>)
    requires Entry(phase, s) == None
    ensures Loop(phase, s, [FixApplied(Verdict(true, []))] + rest)
            == Finished(Exit(Fixed, [], None), 1)
  {
    var script := [FixApplied(Verdict(true, []))] + rest;
    assert script[0] == FixApplied(Verdict(true, [])) && script[1..] == rest;
  }

  /** Fixes that always succeed while the validator keeps reporting the same
      non-empty id-set: three fixes run and the fourth entry is the deadlock. */
  lemma StuckFindings(phase: string, initial: seq<Finding>, script: seq<Round>)
    requires |initial| > 0
    requires |script| >= 3
    requires forall i :: 0 <= i < 3 ==>
      script[i].FixApplied? && script[i].validation.fixRequired
      && IdSet(script[i].validation.findings) == IdSet(initial)
    ensures RunFixLoop(phase, initial, script).Finished?
    ensures RunFixLoop(phase, initial, script).fixes == 3
    ensures RunFixLoop(phase, initial, script).exit.result == MaxLoopsReached
    ensures RunFixLoop(phase, initial, script).exit.remaining == script[2].validation.findings
    ensures RunFixLoop(phase, initial, script).exit.stats.value.loopsRun == 4
  {
    var ids := IdSet(initial);
    var s0 := Start(initial);
    IdSetEmpty(initial);
    var s1 := StuckStep(phase, s0, script[0], ids);
    var s2 := StuckStep(phase, s1, script[1], ids);
    var s3 := StuckStep(phase, s2, script[2], ids);
    assert s3.history == [ids, ids, ids];
    IdSetEmpty(s3.current);
    assert Loop(phase, s3, script[3..]) == Finished(Entry(phase, s3).value, 0);
    NextUnfolds(phase, s2, script[2..], s3);
    assert script[2..][1..] == script[3..];
    NextUnfolds(phase, s1, script[1..], s2);
    assert script[1..][1..] == script[2..];
    NextUnfolds(phase, s0, script, s1);
  }

  /** A pass that continues hands the rest of the script to the next state. */
  lemma NextUnfolds(phase: string, s: LoopState, script: seq<Round>, t: LoopState)
    requires Entry(phase, s) == None && |script| > 0
    requires Attempt(phase, s, script[0]) == Next(t)
    ensures Loop(phase, s, script) == Wrap(Loop(phase, t, script[1..]))
  {
  }

  /** A run one pass longer: one more fix counted when it returned. */
  function Wrap(r: Run): Run {
    if r.Finished? then Finished(r.exit, r.fixes + 1) else r
  }

  /** One pass of a stuck loop: the fix succeeded, the validator returned a
      batch with signature `ids`, and the loop carries on with it. */
  lemma StuckStep(phase: string, s: LoopState, round: Round, ids: set<string>) returns (t: LoopState)
    requires |s.current| > 0 && IdSet(s.current) == ids
    requires |s.history| < 3 && forall i :: 0 <= i < |s.history| ==> s.history[i] == ids
    requires round.FixApplied? && round.validation.fixRequired && IdSet(round.validation.findings) == ids
    ensures Entry(phase, s) == None
    ensures Attempt(phase, s, round) == Next(t)
    ensures t.current == round.validation.findings && |t.current| > 0 && IdSet(t.current) == ids
    ensures t.history == s.history + [ids] && t.loopCount == s.loopCount + 1
  {
    IdSetEmpty(s.current);
    IdSetEmpty(round.validation.findings);
    t := Attempt(phase, s, round).state;
  }

  /** With fixes that always succeed, the count of fixed issues plus the
      findings still open never changes: a FIXED exit reports every issue
      found as fixed. */
  lemma {:induction false} FixedAccountsForAll(phase: string, s: LoopState, script: seq<Round>)
    requires forall i :: 0 <= i < |script| ==> script[i].FixApplied?
    ensures Loop(phase, s, script).Finished? && Loop(phase, s, script).exit.stats.Some? ==>
      Loop(phase, s, script).exit.stats.value.issuesFixed
        + Loop(phase, s, script).exit.stats.value.issuesRemaining
      == s.issuesFixed + |s.current|
    decreases |script|
  {
    if Entry(phase, s) == None && |script| > 0 {
      var step := Attempt(phase, s, script[0]);
      if step.Next? {
        FixedAccountsForAll(phase, step.state, script[1..]);
      }
    }
  }

  /** The FIXED stats of a loop whose every fix succeeded, and whose validator
      never asked for fixes without naming any, count all of the initial
      findings as fixed. */
  lemma AllInitialFixed(phase: string, initial: seq<Finding>, script: seq<Round>)
    requires forall i :: 0 <= i < |script| ==> script[i].FixApplied?
    requires forall i :: 0 <= i < |script| ==>
      script[i].validation.fixRequired ==> |script[i].validation.findings| > 0
    requires RunFixLoop(phase, initial, script).Finished?
    requires RunFixLoop(phase, initial, script).exit.result == Fixed
    requires |initial| > 0
    ensures RunFixLoop(phase, initial, script).exit.stats.Some?
    ensures RunFixLoop(phase, initial, script).exit.stats.value.issuesFixed == |initial|
  {
    FixedAccountsForAll(phase, Start(initial), script);
    FixedHasStats(phase, Start(initial), script);
  }

  /** Some applied fix was re-validated as needing fixes but listing none. */
  ghost predicate EmptyAsk(script: seq<Round>) {
    exists i :: 0 <= i < |script| && script[i].FixApplied?
      && script[i].validation.fixRequired && |script[i].validation.findings| == 0
  }

  /** An empty ask later in the script is an empty ask of the script. */
  lemma EmptyAskLater(script: seq<Round>)
    requires |script| > 0 && EmptyAsk(script[1..])
    ensures EmptyAsk(script)
  {
    var i :| 0 <= i < |script[1..]| && script[1..][i].FixApplied?
             && script[1..][i].validation.fixRequired && |script[1..][i].validation.findings| == 0;
    assert script[i + 1] == script[1..][i];
  }

  /** Every fix of the script succeeded. */
  predicate AllApplied(script: seq<Round>) {
    forall i :: 0 <= i < |script| ==> script[i].FixApplied?
  }

  lemma AllAppliedRest(script: seq<Round>)
    requires |script| > 0 && AllApplied(script)
    ensures script[0].FixApplied? && AllApplied(script[1..])
  {
    assert forall i :: 0 <= i < |script[1..]| ==> script[1..][i] == script[i + 1];
  }

  /** Only the empty-batch exit is FIXED without stats, and with fixes that
      always succeed the batch empties only through a verdict. */
  lemma {:induction false} FixedHasStats(phase: string, s: LoopState, script: seq<Round>)
    requires AllApplied(script)
    requires |s.current| > 0
    requires Loop(phase, s, script).Finished? && Loop(phase, s, script).exit.result == Fixed
    ensures Loop(phase, s, script).exit.stats.Some? || EmptyAsk(script)
    decreases |script|
  {
    assert Entry(phase, s) == None && |script| > 0;
    assert script[0].FixApplied?;
    var step := Attempt(phase, s, script[0]);
    if step.Next? {
      var t := step.state;
      NextUnfolds(phase, s, script, t);
      if |t.current| > 0 {
        AllAppliedRest(script);
        FixedHasStats(phase, t, script[1..]);
        if EmptyAsk(script[1..]) {
          EmptyAskLater(script);
        }
      } else {
        assert script[0].validation.fixRequired && |script[0].validation.findings| == 0;
        assert EmptyAsk(script);
      }
    }
  }

  // ----- collaborators that raised -----

  /** The verdict a decoder result stands for. */
  function ReviewVerdict(r: Reviewer.ReviewResult): Verdict {
    Verdict(r.fixRequired, r.findings)
  }

  function DebugVerdict(r: Debugger.DebugResult): Verdict {
    Verdict(r.fixRequired, r.findings)
  }

  /** A debugger that raised reports `fix_required` but no findings, so a failed
      fix followed by a crashed analysis ends the loop FAILED. */
  lemma CrashedDiagnosisFails(phase: string, s: LoopState, message: string)
    requires Entry(phase, s) == None
    ensures Attempt(phase, s, FixFailed(DebugVerdict(Debugger.AnalyzeFailure(Raised(message)))))
            == Stop(Exit(LoopFailed, s.current, None))
  {
  }

  /** A re-review that raised carries `fix_required = False`, so the loop
      takes it for a clean validation and reports every open finding fixed. */
  lemma CrashedReviewCountsAsFixed(phase: string, s: LoopState, message: string)
    requires Entry(phase, s) == None
    ensures Attempt(phase, s, FixApplied(ReviewVerdict(Reviewer.ValidateFix(Raised(message))))).Stop?
    ensures Attempt(phase, s, FixApplied(ReviewVerdict(Reviewer.ValidateFix(Raised(message))))).exit.result
            == Fixed
  {
  }
}
