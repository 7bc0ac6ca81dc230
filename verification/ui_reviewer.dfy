/** The UI reviewer agent's reading of its response (`UIReviewerAgent.review`
    and `validate_fix` in agents/sdlc/agents/ui_reviewer.py): the fix marker
    alone decides the status; the findings and three issue lists follow. */
module UIReviewer {
  import opened Wrappers
  import opened Text
  import opened Findings
  import opened AgentIO
  import opened FindingScanner
  import opened Sections
  import Reviewer

  /** `UIReviewResult`: the reviewer's result plus the screenshot and the
      visual, layout and accessibility lists. */
  datatype UIReviewResult = UIReviewResult(
    status: Reviewer.ReviewStatus,
    fixRequired: bool,
    summary: string,
    findings: seq<Finding>,
    suggestions: seq<string>,
    success: bool,
    error: Option<string>,
    screenshotPath: string,
    visualIssues: seq<string>,
    layoutIssues: seq<string>,
    accessibilityIssues: seq<string>)

  /** The result of a run that raised: the dataclass defaults (status PENDING,
      no screenshot), unsuccessful, carrying the exception text. */
  function Failure(message: string): UIReviewResult {
    UIReviewResult(Reviewer.Pending, false, "", [], [], false, Some(message), "", [], [], [])
  }

  /** The UI reviewer's findings scanner opens on FINDINGS only. */
  const UIDialect: Dialect :=
    Dialect(["FINDINGS"], AllFields,
            Defaults("ui-issue-", "major", "Unknown UI issue", "Review and fix manually"))

  /** NEEDS_CHANGES exactly when a fix is required. */
  function StatusFor(fix: bool): (s: Reviewer.ReviewStatus)
    ensures s == Reviewer.NeedsChanges <==> fix
    ensures s == Reviewer.Approved <==> !fix
  {
    if fix then Reviewer.NeedsChanges else Reviewer.Approved
  }

  /** `review`, given the screenshot path it was called with and what the run produced. */
  function Review(reply: Reply, screenshotPath: string): (r: UIReviewResult)
    ensures r.success <==> reply.Completed?
    ensures reply.Raised? ==> r == Failure(reply.message)
    ensures reply.Completed? ==>
      var text := ResponseText(reply.blocks);
      && r.summary == text && r.error == None && r.screenshotPath == screenshotPath
      && (r.fixRequired <==> Mentions(text, FixFlag))
      && (r.status == Reviewer.NeedsChanges <==> r.fixRequired)
      && (r.status == Reviewer.Approved <==> !r.fixRequired)
      && r.findings == (if r.fixRequired then ParseFindings(UIDialect, text) else [])
      && r.suggestions == []
      && r.visualIssues == ParseBullets(text, "VISUAL_ISSUES", false)
      && r.layoutIssues == ParseBullets(text, "LAYOUT_ISSUES", false)
      && r.accessibilityIssues == ParseBullets(text, "ACCESSIBILITY_ISSUES", false)
  {
    match reply
    case Raised(message) => Failure(message)
    case Completed(blocks) =>
      var text := ResponseText(blocks);
      var fix := Mentions(text, FixFlag);
      UIReviewResult(StatusFor(fix), fix, text,
                     if fix then ParseFindings(UIDialect, text) else [],
                     [], true, None, screenshotPath,
                     ParseBullets(text, "VISUAL_ISSUES", false),
                     ParseBullets(text, "LAYOUT_ISSUES", false),
                     ParseBullets(text, "ACCESSIBILITY_ISSUES", false))
  }

  /** `validate_fix`: marker, status and findings; the lists stay empty. */
  function ValidateFix(reply: Reply, screenshotPath: string): (r: UIReviewResult)
    ensures r.success <==> reply.Completed?
    ensures reply.Raised? ==> r == Failure(reply.message)
    ensures reply.Completed? ==>
      var text := ResponseText(reply.blocks);
      && r.summary == text && r.error == None && r.screenshotPath == screenshotPath
      && (r.fixRequired <==> Mentions(text, FixFlag))
      && (r.status == Reviewer.NeedsChanges <==> r.fixRequired)
      && (r.status == Reviewer.Approved <==> !r.fixRequired)
      && r.findings == (if r.fixRequired then ParseFindings(UIDialect, text) else [])
      && r.visualIssues == [] && r.layoutIssues == [] && r.accessibilityIssues == []
  {
    match reply
    case Raised(message) => Failure(message)
    case Completed(blocks) =>
      var text := ResponseText(blocks);
      var fix := Mentions(text, FixFlag);
      UIReviewResult(StatusFor(fix), fix, text,
                     if fix then ParseFindings(UIDialect, text) else [],
                     [], true, None, screenshotPath, [], [], [])
  }

  /** A flagged report of UI issues reads back as those issues, with the
      status NEEDS_CHANGES. */
  lemma ReportedIssues(fs: seq<Finding>, screenshotPath: string)
    requires AllEncodable(UIDialect, fs)
    ensures Review(TextReply(RenderFindings(UIDialect, [FixFlag], fs)), screenshotPath).findings == fs
    ensures Review(TextReply(RenderFindings(UIDialect, [FixFlag], fs)), screenshotPath).status
            == Reviewer.NeedsChanges
  {
    FindingsFirstReadable(UIDialect);
    FlaggedReport(UIDialect, fs);
    TextReplyText(RenderFindings(UIDialect, [FixFlag], fs));
  }

  /** A rendered list of layout issues reads back as those issues. */
  lemma LayoutIssuesRoundTrip(items: seq<string>, screenshotPath: string)
    requires forall i :: 0 <= i < |items| ==> BulletItem("LAYOUT_ISSUES", items[i])
    ensures Review(TextReply(RenderBullets("LAYOUT_ISSUES", items)), screenshotPath).layoutIssues == items
  {
    BulletsRoundTrip("LAYOUT_ISSUES", false, items);
    TextReplyText(RenderBullets("LAYOUT_ISSUES", items));
  }
}
