/** The QA agent's reading of its response (`QAAgent.check` and
    `validate_fix` in agents/sdlc/agents/qa.py): the fix marker, the QA status,
    the four issue lists and the findings, which never carry fix code. */
module QA {
  import opened Wrappers
  import opened Text
  import opened Findings
  import opened AgentIO
  import opened FindingScanner
  import opened Sections

  datatype QAStatus = Passed | Failed | Partial

  datatype QAResult = QAResult(
    status: QAStatus,
    fixRequired: bool,
    consoleErrors: seq<string>,
    runtimeErrors: seq<string>,
    performanceIssues: seq<string>,
    uxIssues: seq<string>,
    findings: seq<Finding>,
    summary: string,
    success: bool,
    error: Option<string>)

  /** The result of a run that raised: the dataclass defaults (status PASSED),
      unsuccessful, carrying the exception text. */
  function Failure(message: string): QAResult {
    QAResult(Passed, false, [], [], [], [], [], "", false, Some(message))
  }

  /** The QA findings scanner opens on FINDINGS only and has no `fix_code` field. */
  const QADialect: Dialect :=
    Dialect(["FINDINGS"], FieldsWithoutFixCode,
            Defaults("qa-issue-", "major", "Unknown QA issue", "Review and fix"))

  /** An explicit QA status wins, PASSED first; without one the fix marker decides. */
  function StatusOf(text: string, fix: bool): (s: QAStatus)
    ensures s == Passed <==>
      Mentions(text, "QA_STATUS: PASSED") || (!Mentions(text, "QA_STATUS: PARTIAL") && !fix)
    ensures s == Partial <==>
      !Mentions(text, "QA_STATUS: PASSED") && Mentions(text, "QA_STATUS: PARTIAL")
    ensures s == Failed <==>
      !Mentions(text, "QA_STATUS: PASSED") && !Mentions(text, "QA_STATUS: PARTIAL") && fix
  {
    if Mentions(text, "QA_STATUS: PASSED") then Passed
    else if Mentions(text, "QA_STATUS: PARTIAL") then Partial
    else if fix then Failed
    else Passed
  }

  /** The findings of a flagged response: never any fix code. */
  function FlaggedFindings(text: string, fix: bool): (r: seq<Finding>)
    ensures r == (if fix then ParseFindings(QADialect, text) else [])
    ensures forall i :: 0 <= i < |r| ==> r[i].fixCode == ""
  {
    if fix then ParseFindings(QADialect, text) else []
  }

  /** `check`, given what the agent run produced. */
  function Check(reply: Reply): (r: QAResult)
    ensures r.success <==> reply.Completed?
    ensures reply.Raised? ==> r == Failure(reply.message)
    ensures reply.Completed? ==>
      var text := ResponseText(reply.blocks);
      && r.summary == text && r.error == None
      && (r.fixRequired <==> Mentions(text, FixFlag))
      && r.status == StatusOf(text, r.fixRequired)
      && r.findings == (if r.fixRequired then ParseFindings(QADialect, text) else [])
      && r.consoleErrors == ParseBullets(text, "CONSOLE_ERRORS", false)
      && r.runtimeErrors == ParseBullets(text, "RUNTIME_ERRORS", false)
      && r.performanceIssues == ParseBullets(text, "PERFORMANCE_ISSUES", false)
      && r.uxIssues == ParseBullets(text, "UX_ISSUES", false)
    ensures forall i :: 0 <= i < |r.findings| ==> r.findings[i].fixCode == ""
  {
    match reply
    case Raised(message) => Failure(message)
    case Completed(blocks) =>
      var text := ResponseText(blocks);
      var fix := Mentions(text, FixFlag);
      QAResult(StatusOf(text, fix), fix,
               ParseBullets(text, "CONSOLE_ERRORS", false),
               ParseBullets(text, "RUNTIME_ERRORS", false),
               ParseBullets(text, "PERFORMANCE_ISSUES", false),
               ParseBullets(text, "UX_ISSUES", false),
               FlaggedFindings(text, fix), text, true, None)
  }

  /** `validate_fix`: status, marker and findings; the issue lists stay empty. */
  function ValidateFix(reply: Reply): (r: QAResult)
    ensures r.success <==> reply.Completed?
    ensures reply.Raised? ==> r == Failure(reply.message)
    ensures reply.Completed? ==>
      var text := ResponseText(reply.blocks);
      && r.summary == text && r.error == None
      && (r.fixRequired <==> Mentions(text, FixFlag))
      && r.status == StatusOf(text, r.fixRequired)
      && r.findings == (if r.fixRequired then ParseFindings(QADialect, text) else [])
      && r.consoleErrors == [] && r.runtimeErrors == []
      && r.performanceIssues == [] && r.uxIssues == []
    ensures forall i :: 0 <= i < |r.findings| ==> r.findings[i].fixCode == ""
  {
    match reply
    case Raised(message) => Failure(message)
    case Completed(blocks) =>
      var text := ResponseText(blocks);
      var fix := Mentions(text, FixFlag);
      QAResult(StatusOf(text, fix), fix, [], [], [], [],
               FlaggedFindings(text, fix), text, true, None)
  }

  /** A flagged report of QA issues without fix code reads back as those
      issues, and, carrying no status of its own, as FAILED. */
  lemma ReportedIssues(fs: seq<Finding>)
    requires AllEncodable(QADialect, fs)
    requires !Mentions(RenderFindings(QADialect, [FixFlag], fs), "QA_STATUS: PASSED")
    requires !Mentions(RenderFindings(QADialect, [FixFlag], fs), "QA_STATUS: PARTIAL")
    ensures ValidateFix(TextReply(RenderFindings(QADialect, [FixFlag], fs))).findings == fs
    ensures ValidateFix(TextReply(RenderFindings(QADialect, [FixFlag], fs))).status == Failed
  {
    FindingsFirstReadable(QADialect);
    FlaggedReport(QADialect, fs);
    TextReplyText(RenderFindings(QADialect, [FixFlag], fs));
  }

  /** A rendered list of console errors reads back as those errors. */
  lemma ConsoleErrorsRoundTrip(items: seq<string>)
    requires forall i :: 0 <= i < |items| ==> BulletItem("CONSOLE_ERRORS", items[i])
    ensures Check(TextReply(RenderBullets("CONSOLE_ERRORS", items))).consoleErrors == items
  {
    BulletsRoundTrip("CONSOLE_ERRORS", false, items);
    TextReplyText(RenderBullets("CONSOLE_ERRORS", items));
  }
}
