/** The reviewer agent's reading of its response (`ReviewerAgent.review` and
    `validate_fix` in agents/sdlc/agents/reviewer.py): the status and
    `fix_required` markers, the findings and the suggestions. */
module Reviewer {
  import opened Wrappers
  import opened Text
  import opened Findings
  import opened AgentIO
  import opened FindingScanner
  import opened Sections

  datatype ReviewStatus = Approved | NeedsChanges | Pending

  datatype ReviewResult = ReviewResult(
    status: ReviewStatus,
    fixRequired: bool,
    summary: string,
    findings: seq<Finding>,
    suggestions: seq<string>,
    success: bool,
    error: Option<string>)

  /** The result of a run that raised: the dataclass defaults, unsuccessful,
      carrying the exception text. */
  function Failure(message: string): ReviewResult {
    ReviewResult(Pending, false, "", [], [], false, Some(message))
  }

  /** The reviewer's findings scanner opens on FINDINGS or ISSUES. */
  const ReviewDialect: Dialect :=
    Dialect(["FINDINGS", "ISSUES"], AllFields,
            Defaults("issue-", "major", "Unknown issue", "Review and fix manually"))

  const SuggestionsName: string := "SUGGESTIONS"

  /** The second marker `review` tests for approval can only occur where the
      first does. */
  lemma ApprovedMarkerSubsumes(text: string)
    ensures Mentions(text, "### STATUS: APPROVED") ==> Mentions(text, "STATUS: APPROVED")
  {
    if Mentions(text, "### STATUS: APPROVED") {
      assert "### " + "STATUS: APPROVED" == "### STATUS: APPROVED";
      ContainsTail(Upper(text), "### ", "STATUS: APPROVED");
    }
  }

  /** The status `review` reads: either approval marker, else NEEDS_CHANGES. */
  function StatusOf(text: string): (s: ReviewStatus)
    ensures s == Approved <==> Mentions(text, "STATUS: APPROVED")
    ensures s == NeedsChanges <==> !Mentions(text, "STATUS: APPROVED") && Mentions(text, "NEEDS_CHANGES")
  {
    ApprovedMarkerSubsumes(text);
    if Mentions(text, "STATUS: APPROVED") || Mentions(text, "### STATUS: APPROVED") then Approved
    else if Mentions(text, "NEEDS_CHANGES") then NeedsChanges
    else Pending
  }

  /** The explicit marker, TRUE tested first; without one, the status decides. */
  function FixRequiredOf(text: string, status: ReviewStatus): bool {
    if Mentions(text, "FIX_REQUIRED: TRUE") then true
    else if Mentions(text, "FIX_REQUIRED: FALSE") then false
    else status == NeedsChanges
  }

  /** `ReviewerAgent.review`, given what the agent run produced. */
  function Review(reply: Reply): (r: ReviewResult)
    ensures r.success <==> reply.Completed?
    ensures reply.Raised? ==> r == Failure(reply.message)
    ensures reply.Completed? ==>
      var text := ResponseText(reply.blocks);
      && r.summary == text && r.error == None
      && r.status == StatusOf(text)
      && (r.status == Approved <==> Mentions(text, "STATUS: APPROVED"))
      && (r.fixRequired <==>
            Mentions(text, "FIX_REQUIRED: TRUE")
            || (!Mentions(text, "FIX_REQUIRED: FALSE") && r.status == NeedsChanges))
      && r.findings == (if r.fixRequired then ParseFindings(ReviewDialect, text) else [])
      && r.suggestions == ParseBullets(text, SuggestionsName, false)
  {
    match reply
    case Raised(message) => Failure(message)
    case Completed(blocks) =>
      var text := ResponseText(blocks);
      var status := StatusOf(text);
      var fix := FixRequiredOf(text, status);
      ReviewResult(status, fix, text,
                   if fix then ParseFindings(ReviewDialect, text) else [],
                   ParseBullets(text, SuggestionsName, false), true, None)
  }

  /** `ReviewerAgent.validate_fix`: only the TRUE marker counts, and it alone
      decides the status. */
  function ValidateFix(reply: Reply): (r: ReviewResult)
    ensures r.success <==> reply.Completed?
    ensures reply.Raised? ==> r == Failure(reply.message)
    ensures reply.Completed? ==>
      var text := ResponseText(reply.blocks);
      && r.summary == text && r.error == None && r.suggestions == []
      && (r.fixRequired <==> Mentions(text, "FIX_REQUIRED: TRUE"))
      && (r.status == NeedsChanges <==> r.fixRequired)
      && (r.status == Approved <==> !r.fixRequired)
      && r.findings == (if r.fixRequired then ParseFindings(ReviewDialect, text) else [])
  {
    match reply
    case Raised(message) => Failure(message)
    case Completed(blocks) =>
      var text := ResponseText(blocks);
      var fix := Mentions(text, "FIX_REQUIRED: TRUE");
      ReviewResult(if fix then NeedsChanges else Approved, fix, text,
                   if fix then ParseFindings(ReviewDialect, text) else [], [], true, None)
  }

  // ----- A review written in the format the prompt asks for -----

  function StatusLine(fix: bool): string {
    "### STATUS: " + (if fix then "NEEDS_CHANGES" else "APPROVED")
  }

  function FlagLine(fix: bool): string {
    "### FIX_REQUIRED: " + (if fix then "TRUE" else "FALSE")
  }

  /** The lines before the findings heading: status, flag, suggestions. */
  function ReviewLines(fix: bool, items: seq<string>): seq<string> {
    [StatusLine(fix), FlagLine(fix)] + BulletSection(SuggestionsName, items)
  }

  /** A review response: status, flag, suggestions, then the findings. */
  function RenderReview(fix: bool, fs: seq<Finding>, items: seq<string>): string {
    RenderFindings(ReviewDialect, ReviewLines(fix, items), fs)
  }

  /** Free text that carries none of the markers the reviewer looks for. */
  predicate Plain(line: string) {
    && !Mentions(line, "STATUS: APPROVED") && !Mentions(line, "FIX_REQUIRED: TRUE")
    && !Mentions(line, "FINDINGS") && !Mentions(line, "ISSUES") && !Mentions(line, SuggestionsName)
  }

  /** What a rendered review must satisfy to read back as itself. */
  predicate Renderable(fs: seq<Finding>, items: seq<string>) {
    && AllEncodable(ReviewDialect, fs)
    && (forall i :: 0 <= i < |items| ==> BulletItem(SuggestionsName, items[i]))
    && (forall k :: 0 <= k < |items| ==> Plain("- " + items[k]))
    && (forall k :: 0 <= k < |RenderAll(ReviewDialect, fs)| ==> Plain(RenderAll(ReviewDialect, fs)[k]))
  }

  lemma ReadableReview()
    ensures Readable(ReviewDialect)
  {
    ContainsSpliced("## ", "FINDINGS", "");
    assert "## " + "FINDINGS" + "" == Header;
  }

  lemma SuggestionsNameShape()
    ensures Upper(SuggestionsName) == SuggestionsName
    ensures |SuggestionsName| > 0 && Unpadded(SuggestionsName) && '\n' !in SuggestionsName
  {
    UpperFixed(SuggestionsName);
  }

  /** The suggestions heading does not read as a findings trigger. */
  lemma SuggestionsHeadingNoIssues()
    ensures !Contains("### " + SuggestionsName, "ISSUES")
  {
    var s := "### " + SuggestionsName;
    assert s[..11] == "### SUGGEST";
    FirstCharAbsent(s, "ISSUES", 11);
  }

  /** The lines of a rendered review. */
  function ReviewText(fix: bool, fs: seq<Finding>, items: seq<string>): seq<string> {
    ReviewLines(fix, items) + [Header] + RenderAll(ReviewDialect, fs)
  }

  /** A property of every fixed line, item line and finding line holds of
      every line of the review. */
  lemma EveryReviewLine(fix: bool, fs: seq<Finding>, items: seq<string>, P: string -> bool)
    requires P(StatusLine(fix)) && P(FlagLine(fix)) && P("### " + SuggestionsName) && P(Header)
    requires forall k :: 0 <= k < |items| ==> P("- " + items[k])
    requires forall k :: 0 <= k < |RenderAll(ReviewDialect, fs)| ==> P(RenderAll(ReviewDialect, fs)[k])
    ensures forall k :: 0 <= k < |ReviewText(fix, fs, items)| ==> P(ReviewText(fix, fs, items)[k])
  {
    var lines := ReviewText(fix, fs, items);
    var n := |items|;
    var rest := RenderAll(ReviewDialect, fs);
    forall k | 0 <= k < |lines|
      ensures P(lines[k])
    {
      if k == 0 {
        assert lines[k] == StatusLine(fix);
      } else if k == 1 {
        assert lines[k] == FlagLine(fix);
      } else if k == 2 {
        assert lines[k] == "### " + SuggestionsName;
      } else if k < 3 + n {
        assert lines[k] == ItemLines(items)[k - 3] == "- " + items[k - 3];
      } else if k == 3 + n {
        assert lines[k] == Header;
      } else {
        assert lines[k] == rest[k - 4 - n];
      }
    }
  }

  /** A property of every fixed line and item line holds of every line
      before the findings heading. */
  lemma EveryLeadingLine(fix: bool, items: seq<string>, P: string -> bool)
    requires P(StatusLine(fix)) && P(FlagLine(fix)) && P("### " + SuggestionsName)
    requires forall k :: 0 <= k < |items| ==> P("- " + items[k])
    ensures forall k :: 0 <= k < |ReviewLines(fix, items)| ==> P(ReviewLines(fix, items)[k])
  {
    var lines := ReviewLines(fix, items);
    forall k | 0 <= k < |lines|
      ensures P(lines[k])
    {
      if k == 0 {
        assert lines[k] == StatusLine(fix);
      } else if k == 1 {
        assert lines[k] == FlagLine(fix);
      } else if k == 2 {
        assert lines[k] == "### " + SuggestionsName;
      } else {
        assert lines[k] == ItemLines(items)[k - 3] == "- " + items[k - 3];
      }
    }
  }

  /** The characters the status lines lack. */
  lemma NeedsChangesLineChars()
    ensures Upper(StatusLine(true)) == StatusLine(true)
    ensures '\n' !in StatusLine(true) && 'F' !in StatusLine(true) && 'I' !in StatusLine(true)
    ensures 'P' !in StatusLine(true)
  {
    UpperFixed(StatusLine(true));
  }

  lemma ApprovedLineChars()
    ensures Upper(StatusLine(false)) == StatusLine(false)
    ensures '\n' !in StatusLine(false) && 'F' !in StatusLine(false) && 'I' !in StatusLine(false)
  {
    UpperFixed(StatusLine(false));
  }

  lemma StatusLineChars(fix: bool)
    ensures Upper(StatusLine(fix)) == StatusLine(fix)
    ensures '\n' !in StatusLine(fix) && 'F' !in StatusLine(fix) && 'I' !in StatusLine(fix)
    ensures fix ==> 'P' !in StatusLine(fix)
  {
    if fix {
      NeedsChangesLineChars();
    } else {
      ApprovedLineChars();
    }
  }

  /** An upper-case line without 'F' and 'I' mentions none of these markers. */
  lemma WithoutFI(l: string)
    requires Upper(l) == l && 'F' !in l && 'I' !in l
    ensures !Mentions(l, SuggestionsName) && !Mentions(l, "FIX_REQUIRED: TRUE")
    ensures !Mentions(l, "FINDINGS") && !Mentions(l, "ISSUES")
  {
    CapsLineSilent(l, SuggestionsName, 'I');
    CapsLineSilent(l, "FIX_REQUIRED: TRUE", 'F');
    CapsLineSilent(l, "FINDINGS", 'F');
    CapsLineSilent(l, "ISSUES", 'I');
  }

  lemma StatusLineSilent(fix: bool)
    ensures '\n' !in StatusLine(fix)
    ensures !Mentions(StatusLine(fix), SuggestionsName) && !Mentions(StatusLine(fix), "FIX_REQUIRED: TRUE")
    ensures !Mentions(StatusLine(fix), "FINDINGS") && !Mentions(StatusLine(fix), "ISSUES")
    ensures fix ==> !Mentions(StatusLine(fix), "STATUS: APPROVED")
  {
    StatusLineChars(fix);
    WithoutFI(StatusLine(fix));
    if fix {
      CapsLineSilent(StatusLine(fix), "STATUS: APPROVED", 'P');
    }
  }

  lemma StatusLineMentions(fix: bool)
    ensures fix ==> Mentions(StatusLine(fix), "NEEDS_CHANGES")
    ensures !fix ==> Mentions(StatusLine(fix), "STATUS: APPROVED")
  {
    StatusLineChars(fix);
    if fix {
      MarkerLineMentions("### STATUS: ", "NEEDS_CHANGES");
    } else {
      assert "### " + "STATUS: APPROVED" == StatusLine(fix);
      MarkerLineMentions("### ", "STATUS: APPROVED");
    }
  }

  /** The characters the flag lines lack. */
  lemma TrueFlagChars()
    ensures Upper(FlagLine(true)) == FlagLine(true)
    ensures '\n' !in FlagLine(true) && 'G' !in FlagLine(true) && 'P' !in FlagLine(true)
    ensures 'N' !in FlagLine(true) && 'S' !in FlagLine(true)
  {
    UpperFixed(FlagLine(true));
  }

  lemma FalseFlagChars()
    ensures Upper(FlagLine(false)) == FlagLine(false)
    ensures '\n' !in FlagLine(false) && 'G' !in FlagLine(false) && 'P' !in FlagLine(false)
    ensures 'T' !in FlagLine(false)
  {
    UpperFixed(FlagLine(false));
  }

  lemma FlagLineChars(fix: bool)
    ensures Upper(FlagLine(fix)) == FlagLine(fix)
    ensures '\n' !in FlagLine(fix) && 'G' !in FlagLine(fix) && 'P' !in FlagLine(fix)
    ensures fix ==> 'N' !in FlagLine(fix) && 'S' !in FlagLine(fix)
    ensures !fix ==> 'T' !in FlagLine(fix)
  {
    if fix {
      TrueFlagChars();
    } else {
      FalseFlagChars();
    }
  }

  lemma FlagLineSilent(fix: bool)
    ensures '\n' !in FlagLine(fix)
    ensures !Mentions(FlagLine(fix), SuggestionsName) && !Mentions(FlagLine(fix), "STATUS: APPROVED")
    ensures fix ==> !Mentions(FlagLine(fix), "FINDINGS") && !Mentions(FlagLine(fix), "ISSUES")
    ensures !fix ==> !Mentions(FlagLine(fix), "FIX_REQUIRED: TRUE")
  {
    var l := FlagLine(fix);
    FlagLineChars(fix);
    CapsLineSilent(l, SuggestionsName, 'G');
    CapsLineSilent(l, "STATUS: APPROVED", 'P');
    if fix {
      CapsLineSilent(l, "FINDINGS", 'N');
      CapsLineSilent(l, "ISSUES", 'S');
    } else {
      CapsLineSilent(l, "FIX_REQUIRED: TRUE", 'T');
    }
  }

  lemma FlagLineMentions()
    ensures Mentions(FlagLine(true), "FIX_REQUIRED: TRUE")
  {
    FlagLineChars(true);
    assert "### " + "FIX_REQUIRED: TRUE" == FlagLine(true);
    MarkerLineMentions("### ", "FIX_REQUIRED: TRUE");
  }

  /** The characters the two headings lack. */
  lemma SuggestionsHeadingChars()
    ensures Upper("### " + SuggestionsName) == "### " + SuggestionsName
    ensures '\n' !in "### " + SuggestionsName && 'P' !in "### " + SuggestionsName && 'F' !in "### " + SuggestionsName
  {
    UpperFixed("### " + SuggestionsName);
  }

  lemma HeaderChars()
    ensures Upper(Header) == Header
    ensures '\n' !in Header && 'P' !in Header && 'T' !in Header && 'U' !in Header
  {
    UpperFixed(Header);
  }

  lemma SuggestionsHeadingSilent()
    ensures '\n' !in "### " + SuggestionsName
    ensures !Mentions("### " + SuggestionsName, "STATUS: APPROVED")
    ensures !Mentions("### " + SuggestionsName, "FIX_REQUIRED: TRUE")
    ensures !Mentions("### " + SuggestionsName, "FINDINGS")
    ensures !Mentions("### " + SuggestionsName, "ISSUES")
  {
    var h := "### " + SuggestionsName;
    SuggestionsHeadingChars();
    CapsLineSilent(h, "STATUS: APPROVED", 'P');
    CapsLineSilent(h, "FIX_REQUIRED: TRUE", 'F');
    CapsLineSilent(h, "FINDINGS", 'F');
    SuggestionsHeadingNoIssues();
  }

  lemma HeaderSilent()
    ensures '\n' !in Header
    ensures !Mentions(Header, "STATUS: APPROVED") && !Mentions(Header, "FIX_REQUIRED: TRUE")
    ensures !Mentions(Header, SuggestionsName)
  {
    HeaderChars();
    CapsLineSilent(Header, "STATUS: APPROVED", 'P');
    CapsLineSilent(Header, "FIX_REQUIRED: TRUE", 'T');
    CapsLineSilent(Header, SuggestionsName, 'U');
  }

  lemma HeaderCloses()
    ensures ClosesSection(Header)
  {
    StripUnpadded(Header);
  }

  /** A rendered review splits back into its lines. */
  lemma ReviewTextLines(fix: bool, fs: seq<Finding>, items: seq<string>)
    requires Renderable(fs, items)
    ensures NoBreaks(ReviewText(fix, fs, items))
    ensures Lines(Join(ReviewText(fix, fs, items), "\n")) == ReviewText(fix, fs, items)
  {
    StatusLineSilent(fix);
    FlagLineSilent(fix);
    SuggestionsHeadingSilent();
    HeaderSilent();
    RenderAllLines(ReviewDialect, fs);
    forall k | 0 <= k < |items|
      ensures '\n' !in "- " + items[k]
    {
      assert BulletItem(SuggestionsName, items[k]);
    }
    EveryReviewLine(fix, fs, items, l => '\n' !in l);
    LinesOfJoin(ReviewText(fix, fs, items));
  }

  /** No line of a rendered review mentions `w` beyond the fixed lines that do. */
  lemma ReviewSilent(fix: bool, fs: seq<Finding>, items: seq<string>, w: string)
    requires Renderable(fs, items)
    requires w in ["STATUS: APPROVED", "FIX_REQUIRED: TRUE", "FINDINGS", "ISSUES", SuggestionsName]
    requires !Mentions(StatusLine(fix), w) && !Mentions(FlagLine(fix), w)
    requires !Mentions("### " + SuggestionsName, w) && !Mentions(Header, w)
    ensures Silent(ReviewText(fix, fs, items), w)
  {
    EveryReviewLine(fix, fs, items, l => !Mentions(l, w));
  }

  /** A review asking for a fix nowhere mentions approval. */
  lemma NoApprovalMarker(fs: seq<Finding>, items: seq<string>)
    requires Renderable(fs, items)
    ensures !Mentions(Join(ReviewText(true, fs, items), "\n"), "STATUS: APPROVED")
  {
    StatusLineSilent(true);
    FlagLineSilent(true);
    SuggestionsHeadingSilent();
    HeaderSilent();
    ReviewSilent(true, fs, items, "STATUS: APPROVED");
    UnmentionedLines(ReviewText(true, fs, items), "STATUS: APPROVED");
  }

  /** An approving review nowhere carries the TRUE marker. */
  lemma NoTrueMarker(fs: seq<Finding>, items: seq<string>)
    requires Renderable(fs, items)
    ensures !Mentions(Join(ReviewText(false, fs, items), "\n"), "FIX_REQUIRED: TRUE")
  {
    StatusLineSilent(false);
    FlagLineSilent(false);
    SuggestionsHeadingSilent();
    HeaderSilent();
    ReviewSilent(false, fs, items, "FIX_REQUIRED: TRUE");
    UnmentionedLines(ReviewText(false, fs, items), "FIX_REQUIRED: TRUE");
  }

  /** The status a rendered review reads as. */
  lemma StatusOfReview(fix: bool, fs: seq<Finding>, items: seq<string>)
    requires Renderable(fs, items)
    ensures StatusOf(Join(ReviewText(fix, fs, items), "\n")) == if fix then NeedsChanges else Approved
  {
    var lines := ReviewText(fix, fs, items);
    assert lines[0] == StatusLine(fix);
    StatusLineMentions(fix);
    if fix {
      NoApprovalMarker(fs, items);
      MentionedByLine(lines, 0, "\n", "NEEDS_CHANGES");
    } else {
      MentionedByLine(lines, 0, "\n", "STATUS: APPROVED");
    }
  }

  /** A rendered review carries the TRUE marker exactly when it asks for a fix. */
  lemma FlagOfReview(fix: bool, fs: seq<Finding>, items: seq<string>)
    requires Renderable(fs, items)
    ensures Mentions(Join(ReviewText(fix, fs, items), "\n"), "FIX_REQUIRED: TRUE") <==> fix
  {
    var lines := ReviewText(fix, fs, items);
    if fix {
      assert lines[1] == FlagLine(fix);
      FlagLineMentions();
      MentionedByLine(lines, 1, "\n", "FIX_REQUIRED: TRUE");
    } else {
      NoTrueMarker(fs, items);
    }
  }

  /** The lines before the findings heading of a review asking for a fix
      open no findings section. */
  lemma LeadingPreamble(items: seq<string>)
    requires forall i :: 0 <= i < |items| ==> BulletItem(SuggestionsName, items[i])
    requires forall k :: 0 <= k < |items| ==> Plain("- " + items[k])
    ensures Preamble(ReviewDialect, ReviewLines(true, items))
  {
    var pre := ReviewLines(true, items);
    StatusLineSilent(true);
    FlagLineSilent(true);
    SuggestionsHeadingSilent();
    EveryLeadingLine(true, items, l => '\n' !in l);
    EveryLeadingLine(true, items, l => !Mentions(l, "FINDINGS"));
    EveryLeadingLine(true, items, l => !Mentions(l, "ISSUES"));
    SilentPreamble(ReviewDialect, pre);
  }

  /** A review asking for a fix reads back its findings. */
  lemma FindingsOfReview(fs: seq<Finding>, items: seq<string>)
    requires Renderable(fs, items)
    ensures ParseFindings(ReviewDialect, Join(ReviewText(true, fs, items), "\n")) == fs
  {
    ReadableReview();
    LeadingPreamble(items);
    RoundTrip(ReviewDialect, ReviewLines(true, items), fs);
  }

  /** The status and flag lines do not name the suggestions section. */
  lemma LeadingQuiet(fix: bool)
    ensures Quiet(SuggestionsName, [StatusLine(fix), FlagLine(fix)])
  {
    SuggestionsNameShape();
    StatusLineSilent(fix);
    FlagLineSilent(fix);
    SilentUnnamed(SuggestionsName, [StatusLine(fix), FlagLine(fix)]);
  }

  /** The findings heading and plain finding lines do not name the
      suggestions section. */
  lemma TrailingQuiet(fs: seq<Finding>)
    requires AllEncodable(ReviewDialect, fs)
    requires forall k :: 0 <= k < |RenderAll(ReviewDialect, fs)| ==> Plain(RenderAll(ReviewDialect, fs)[k])
    ensures Quiet(SuggestionsName, [Header] + RenderAll(ReviewDialect, fs))
  {
    var rest := RenderAll(ReviewDialect, fs);
    SuggestionsNameShape();
    HeaderSilent();
    RenderAllLines(ReviewDialect, fs);
    NoBreaksAppend([Header], rest);
    assert Silent(rest, SuggestionsName) by {
      forall k | 0 <= k < |rest|
        ensures !Mentions(rest[k], SuggestionsName)
      {
        assert Plain(rest[k]);
      }
    }
    SilentAppend([Header], rest, SuggestionsName);
    SilentUnnamed(SuggestionsName, [Header] + rest);
  }

  /** A rendered review reads back its suggestions. */
  lemma SuggestionsOfReview(fix: bool, fs: seq<Finding>, items: seq<string>)
    requires Renderable(fs, items)
    ensures ParseBullets(Join(ReviewText(fix, fs, items), "\n"), SuggestionsName, false) == items
  {
    var before := [StatusLine(fix), FlagLine(fix)];
    var after := [Header] + RenderAll(ReviewDialect, fs);
    LeadingQuiet(fix);
    TrailingQuiet(fs);
    HeaderCloses();
    SuggestionsAmid(before, items, after);
    ConcatAssoc(before + BulletSection(SuggestionsName, items), [Header], RenderAll(ReviewDialect, fs));
  }

  lemma SuggestionsAmid(before: seq<string>, items: seq<string>, after: seq<string>)
    requires forall i :: 0 <= i < |items| ==> BulletItem(SuggestionsName, items[i])
    requires Quiet(SuggestionsName, before) && Quiet(SuggestionsName, after)
    requires |after| > 0 ==> ClosesSection(after[0])
    ensures ParseBullets(Join(before + BulletSection(SuggestionsName, items) + after, "\n"), SuggestionsName, false) == items
  {
    SuggestionsNameShape();
    SectionAmid(SuggestionsName, false, before, items, after);
  }

  /** A review written in the prompt's format reads back as what it says:
      its status, its flag, its findings when a fix is asked for, and its
      suggestions. */
  lemma ReviewRoundTrip(fix: bool, fs: seq<Finding>, items: seq<string>)
    requires Renderable(fs, items)
    ensures Review(TextReply(RenderReview(fix, fs, items))) ==
      ReviewResult(if fix then NeedsChanges else Approved, fix, RenderReview(fix, fs, items),
                   if fix then fs else [], items, true, None)
  {
    var text := RenderReview(fix, fs, items);
    assert text == Join(ReviewText(fix, fs, items), "\n");
    TextReplyText(text);
    StatusOfReview(fix, fs, items);
    FlagOfReview(fix, fs, items);
    if fix {
      FindingsOfReview(fs, items);
    }
    SuggestionsOfReview(fix, fs, items);
  }

  /** The re-validation reads the same rendered review by its flag alone. */
  lemma ValidateRoundTrip(fix: bool, fs: seq<Finding>, items: seq<string>)
    requires Renderable(fs, items)
    ensures ValidateFix(TextReply(RenderReview(fix, fs, items))) ==
      ReviewResult(if fix then NeedsChanges else Approved, fix, RenderReview(fix, fs, items),
                   if fix then fs else [], [], true, None)
  {
    var text := RenderReview(fix, fs, items);
    assert text == Join(ReviewText(fix, fs, items), "\n");
    TextReplyText(text);
    FlagOfReview(fix, fs, items);
    if fix {
      FindingsOfReview(fs, items);
    }
  }
}
