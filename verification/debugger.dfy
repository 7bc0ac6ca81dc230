/** The debugger agent's reading of its response (`DebuggerAgent.debug` and
    `analyze_failure` in agents/sdlc/agents/debugger.py): the analysis status,
    the fix marker, the root-cause paragraph, the numbered or bulleted lists,
    and the findings. */
module Debugger {
  import opened Wrappers
  import opened Text
  import opened Findings
  import opened AgentIO
  import opened FindingScanner
  import opened Sections

  datatype DebugStatus = RootCauseFound | NeedsMoreInfo | Inconclusive

  datatype DebugResult = DebugResult(
    status: DebugStatus,
    fixRequired: bool,
    rootCause: string,
    affectedFiles: seq<string>,
    stackTrace: string,
    findings: seq<Finding>,
    investigationSteps: seq<string>,
    summary: string,
    success: bool,
    error: Option<string>)

  /** The result of a run that raised: the dataclass defaults, among them
      `fix_required = True`, unsuccessful, carrying the exception text. */
  function Failure(message: string): DebugResult {
    DebugResult(Inconclusive, true, "", [], "", [], [], "", false, Some(message))
  }

  /** The debugger's findings scanner opens on FINDINGS only. */
  const DebugDialect: Dialect :=
    Dialect(["FINDINGS"], AllFields,
            Defaults("debug-", "critical", "Unknown error", "Investigate and fix"))

  const RootCauseName: string := "ROOT_CAUSE"
  const StepsName: string := "INVESTIGATION_STEPS"
  const FilesName: string := "AFFECTED_FILES"

  /** The status markers, tested in order of precedence. */
  function StatusOf(text: string): (s: DebugStatus)
    ensures s == RootCauseFound <==> Mentions(text, "ROOT_CAUSE_FOUND")
    ensures s == NeedsMoreInfo <==>
      !Mentions(text, "ROOT_CAUSE_FOUND") && Mentions(text, "NEEDS_MORE_INFO")
    ensures s == Inconclusive <==>
      !Mentions(text, "ROOT_CAUSE_FOUND") && !Mentions(text, "NEEDS_MORE_INFO")
  {
    if Mentions(text, "ROOT_CAUSE_FOUND") then RootCauseFound
    else if Mentions(text, "NEEDS_MORE_INFO") then NeedsMoreInfo
    else Inconclusive
  }

  /** `debug`, given the stack trace it was called with and what the run produced. */
  function Debug(reply: Reply, stackTrace: string): (r: DebugResult)
    ensures r.success <==> reply.Completed?
    ensures reply.Raised? ==> r == Failure(reply.message) && r.fixRequired
    ensures reply.Completed? ==>
      var text := ResponseText(reply.blocks);
      && r.summary == text && r.error == None && r.stackTrace == stackTrace
      && r.status == StatusOf(text)
      && (r.fixRequired <==> Mentions(text, FixFlag))
      && r.findings == (if r.fixRequired then ParseFindings(DebugDialect, text) else [])
      && r.rootCause == ParseProse(text, RootCauseName)
      && r.investigationSteps == ParseBullets(text, StepsName, true)
      && r.affectedFiles == ParseBullets(text, FilesName, true)
  {
    match reply
    case Raised(message) => Failure(message)
    case Completed(blocks) =>
      var text := ResponseText(blocks);
      var fix := Mentions(text, FixFlag);
      DebugResult(StatusOf(text), fix, ParseProse(text, RootCauseName),
                  ParseBullets(text, FilesName, true), stackTrace,
                  if fix then ParseFindings(DebugDialect, text) else [],
                  ParseBullets(text, StepsName, true), text, true, None)
  }

  /** `analyze_failure`: status, marker, root cause and findings only. */
  function AnalyzeFailure(reply: Reply): (r: DebugResult)
    ensures r.success <==> reply.Completed?
    ensures reply.Raised? ==> r == Failure(reply.message)
    ensures reply.Completed? ==>
      var text := ResponseText(reply.blocks);
      && r.summary == text && r.error == None && r.stackTrace == ""
      && r.status == StatusOf(text)
      && (r.fixRequired <==> Mentions(text, FixFlag))
      && r.findings == (if r.fixRequired then ParseFindings(DebugDialect, text) else [])
      && r.rootCause == ParseProse(text, RootCauseName)
      && r.investigationSteps == [] && r.affectedFiles == []
  {
    match reply
    case Raised(message) => Failure(message)
    case Completed(blocks) =>
      var text := ResponseText(blocks);
      var fix := Mentions(text, FixFlag);
      DebugResult(StatusOf(text), fix, ParseProse(text, RootCauseName), [], "",
                  if fix then ParseFindings(DebugDialect, text) else [],
                  [], text, true, None)
  }

  /** A flagged report of findings reads back as those findings. */
  lemma ReportedCause(fs: seq<Finding>, stackTrace: string)
    requires AllEncodable(DebugDialect, fs)
    ensures Debug(TextReply(RenderFindings(DebugDialect, [FixFlag], fs)), stackTrace).fixRequired
    ensures Debug(TextReply(RenderFindings(DebugDialect, [FixFlag], fs)), stackTrace).findings == fs
  {
    FindingsFirstReadable(DebugDialect);
    FlaggedReport(DebugDialect, fs);
    TextReplyText(RenderFindings(DebugDialect, [FixFlag], fs));
  }

  /** A rendered list of investigation steps reads back as those steps. */
  lemma StepsRoundTrip(items: seq<string>, stackTrace: string)
    requires forall i :: 0 <= i < |items| ==> BulletItem(StepsName, items[i])
    ensures Debug(TextReply(RenderBullets(StepsName, items)), stackTrace).investigationSteps == items
  {
    BulletsRoundTrip(StepsName, true, items);
    TextReplyText(RenderBullets(StepsName, items));
  }

  /** A root-cause paragraph reads back as its lines joined with blanks. */
  lemma RootCauseRoundTrip(parts: seq<string>, stackTrace: string)
    requires forall i :: 0 <= i < |parts| ==> ProsePart(parts[i])
    ensures Debug(TextReply(Join(ProseSection(RootCauseName, parts), "\n")), stackTrace).rootCause
            == Join(parts, " ")
  {
    NameShape(RootCauseName);
    var text := Join(ProseSection(RootCauseName, parts), "\n");
    ProseRoundTrip(RootCauseName, parts);
    TextReplyText(text);
    DebugProse(TextReply(text), stackTrace);
  }

  lemma NameShape(name: string)
    requires name == RootCauseName || name == StepsName || name == FilesName
    ensures |name| > 0 && Unpadded(name) && '\n' !in name
  {
  }

  /** The root cause is read off the response text. */
  lemma DebugProse(reply: Reply, stackTrace: string)
    requires reply.Completed?
    ensures Debug(reply, stackTrace).rootCause == ParseProse(ResponseText(reply.blocks), RootCauseName)
  {
  }

  /** Only items numbered `1.` are collected: a line `2. ...` (or any other
      digit but 1) that neither names the section nor is a heading or a `- `
      item is skipped. */
  lemma LaterNumbersSkipped(name: string, raw: string)
    requires |Strip(raw)| >= 2 && IsDigit(Strip(raw)[0]) && Strip(raw)[0] != '1'
    requires Strip(raw)[1] == '.'
    requires !Contains(Upper(Strip(raw)), Upper(name))
    ensures BulletKind(name, true, raw) == Ignored
  {
    var s := Strip(raw);
    assert !StartsWith(s, "#") && !StartsWith(s, "- ") && !StartsWith(s, "1.") by {
      assert s[..1] != "#" && s[..2] != "- " && s[..2] != "1.";
    }
  }
}
