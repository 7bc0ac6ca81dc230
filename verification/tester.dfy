/** The tester agent's reading of its response (`TesterAgent` in
    agents/sdlc/agents/tester.py): the fix marker, the test counts, the test
    files it wrote, and the failures it reports as findings. */
module Tester {
  import opened Wrappers
  import opened Text
  import opened Findings
  import opened AgentIO
  import opened FindingScanner

  datatype TesterResult = TesterResult(
    fixRequired: bool,
    testsRun: nat,
    testsPassed: nat,
    testsFailed: nat,
    findings: seq<Finding>,
    testFiles: seq<string>,
    summary: string,
    success: bool,
    error: Option<string>)

  /** The result of a run that raised: the dataclass defaults, unsuccessful,
      carrying the exception text. */
  function Failure(message: string): TesterResult {
    TesterResult(false, 0, 0, 0, [], [], "", false, Some(message))
  }

  /** The tester's findings scanner opens on FINDINGS only, and names its
      findings after failed tests. */
  const TesterDialect: Dialect :=
    Dialect(["FINDINGS"], AllFields,
            Defaults("test-fail-", "critical", "Test failed", "Fix the failing test"))

  // ----- `re.search(r'<Label>:\s*(\d+)', response, re.IGNORECASE)` -----

  /** The key (given in lower case) occurs at `k`, ignoring case. */
  predicate KeyAt(s: string, key: string, k: nat) {
    k + |key| <= |s| && Lower(s[k..k + |key|]) == key
  }

  /** The end of the run of whitespace starting at `j` (`\s*`, greedy). */
  function SpaceEnd(s: string, j: nat): (r: nat)
    requires j <= |s|
    ensures j <= r <= |s|
    ensures forall i :: j <= i < r ==> IsSpace(s[i])
    ensures r == |s| || !IsSpace(s[r])
    decreases |s| - j
  {
    if j < |s| && IsSpace(s[j]) then SpaceEnd(s, j + 1) else j
  }

  /** The end of the run of digits starting at `j` (`\d+`, greedy). */
  function DigitEnd(s: string, j: nat): (r: nat)
    requires j <= |s|
    ensures j <= r <= |s|
    ensures forall i :: j <= i < r ==> IsDigit(s[i])
    ensures r == |s| || !IsDigit(s[r])
    decreases |s| - j
  {
    if j < |s| && IsDigit(s[j]) then DigitEnd(s, j + 1) else j
  }

  /** The pattern matches at `k`: the key, optional whitespace, a digit.
      Backtracking into `\s*` cannot help, since giving back whitespace puts
      a whitespace character where the first digit must be. */
  predicate MatchAt(s: string, key: string, k: nat) {
    && KeyAt(s, key, k)
    && var j := SpaceEnd(s, k + |key|);
       j < |s| && IsDigit(s[j])
  }

  /** The leftmost match at or after `k`: what `re.search` finds. */
  function SearchFrom(s: string, key: string, k: nat): (r: Option<nat>)
    requires k <= |s|
    ensures r.Some? ==> k <= r.value <= |s| && MatchAt(s, key, r.value)
    ensures r.Some? ==> forall i :: k <= i < r.value ==> !MatchAt(s, key, i)
    ensures r.None? ==> forall i :: k <= i <= |s| ==> !MatchAt(s, key, i)
    decreases |s| - k
  {
    if MatchAt(s, key, k) then Some(k)
    else if k == |s| then None
    else SearchFrom(s, key, k + 1)
  }

  /** `int(match.group(1))`, or 0 without a match. */
  function CountOf(s: string, key: string): nat {
    match SearchFrom(s, key, 0)
    case None => 0
    case Some(k) =>
      var j := SpaceEnd(s, k + |key|);
      DigitsValue(s[j..DigitEnd(s, j)])
  }

  /** Without a match the count is 0. */
  lemma UnmatchedCount(s: string, key: string)
    requires forall i :: 0 <= i <= |s| ==> !MatchAt(s, key, i)
    ensures CountOf(s, key) == 0
  {
  }

  /** A count line as the tester is asked to print it: the key as written,
      a blank, the number. */
  function CountLine(written: string, n: nat): string {
    written + " " + NatToString(n)
  }

  /** A count line after text in which the key's first letter never occurs
      reads back as its number. */
  lemma LabelledCount(pre: string, written: string, key: string, n: nat, post: string)
    requires |key| > 0 && Lower(written) == key
    requires forall i :: 0 <= i < |pre| ==> LowerChar(pre[i]) != key[0]
    requires |post| == 0 || !IsDigit(post[0])
    ensures CountOf(pre + CountLine(written, n) + post, key) == n
  {
    var digits := NatToString(n);
    var s := pre + CountLine(written, n) + post;
    LineSplit(pre, written, digits, post);
    var k := |pre|;
    var j := k + |key| + 1;
    MatchAfter(s, pre, written, key, digits, post);
    NoEarlierMatch(s, pre, key);
    SearchSkips(s, key, 0, k);
    DigitRunEnds(s, j, digits, post);
    assert s[j..j + |digits|] == digits;
    NatToStringRoundTrip(n);
  }

  lemma LineSplit(pre: string, written: string, digits: string, post: string)
    ensures pre + (written + " " + digits) + post == pre + written + " " + digits + post
  {
  }

  /** The pattern matches where the written key starts, its digits right
      after the blank. */
  lemma MatchAfter(s: string, pre: string, written: string, key: string, digits: string, post: string)
    requires s == pre + written + " " + digits + post
    requires Lower(written) == key && |digits| > 0 && IsDigit(digits[0])
    ensures MatchAt(s, key, |pre|) && SpaceEnd(s, |pre| + |key|) == |pre| + |key| + 1
  {
    var k := |pre|;
    var j := k + |key| + 1;
    assert s[k..k + |key|] == written;
    assert s[k + |key|] == ' ';
    assert s[j] == digits[0];
    assert SpaceEnd(s, j) == j;
  }

  /** No match starts inside text that lacks the key's first letter. */
  lemma NoEarlierMatch(s: string, pre: string, key: string)
    requires |key| > 0 && |pre| <= |s| && s[..|pre|] == pre
    requires forall i :: 0 <= i < |pre| ==> LowerChar(pre[i]) != key[0]
    ensures forall i :: 0 <= i < |pre| ==> !MatchAt(s, key, i)
  {
    forall i | 0 <= i < |pre|
      ensures !KeyAt(s, key, i)
    {
      if i + |key| <= |s| {
        assert s[i] == pre[i];
        assert Lower(s[i..i + |key|])[0] == LowerChar(pre[i]);
      }
    }
  }

  /** A run of digits followed by a non-digit (or nothing) ends where it seems to. */
  lemma DigitRunEnds(s: string, j: nat, digits: string, post: string)
    requires j + |digits| + |post| == |s|
    requires s[j..j + |digits|] == digits && s[j + |digits|..] == post
    requires forall i :: 0 <= i < |digits| ==> IsDigit(digits[i])
    requires |post| == 0 || !IsDigit(post[0])
    ensures DigitEnd(s, j) == j + |digits|
    decreases |digits|
  {
    if |digits| > 0 {
      assert s[j] == digits[0];
      DigitRunEnds(s, j + 1, digits[1..], post);
    } else if |post| > 0 {
      assert s[j] == post[0];
    }
  }

  /** The search steps over positions without a match. */
  lemma {:induction false} SearchSkips(s: string, key: string, from: nat, k: nat)
    requires from <= k <= |s| && MatchAt(s, key, k)
    requires forall i :: from <= i < k ==> !MatchAt(s, key, i)
    ensures SearchFrom(s, key, from) == Some(k)
    decreases k - from
  {
    if from < k {
      SearchSkips(s, key, from + 1, k);
    }
  }

  /** `_parse_test_counts`: the three counts, the total falling back to
      passed plus failed when it reads as zero. */
  function TestCounts(text: string): (r: (nat, nat, nat))
    ensures r.1 == CountOf(text, "passed:") && r.2 == CountOf(text, "failed:")
    ensures CountOf(text, "total:") > 0 ==> r.0 == CountOf(text, "total:")
    ensures CountOf(text, "total:") == 0 ==> r.0 == r.1 + r.2
  {
    var total := CountOf(text, "total:");
    var passed := CountOf(text, "passed:");
    var failed := CountOf(text, "failed:");
    if total == 0 && (passed > 0 || failed > 0) then (passed + failed, passed, failed)
    else (total, passed, failed)
  }

  /** The summary block the tester is asked to print. */
  function CountsText(total: nat, passed: nat, failed: nat): string {
    CountLine("Total:", total) + "\n" + CountLine("Passed:", passed) + "\n" + CountLine("Failed:", failed)
  }

  /** Digits never read as the first letter of a key. */
  lemma DigitsWithout(n: nat, c: char)
    requires IsLowerLetter(c)
    ensures forall i :: 0 <= i < |NatToString(n)| ==> LowerChar(NatToString(n)[i]) != c
  {
  }

  /** A count line lacks every letter its key lacks, digits aside. */
  lemma LineWithout(written: string, n: nat, c: char)
    requires IsLowerLetter(c)
    requires forall i :: 0 <= i < |written| ==> LowerChar(written[i]) != c
    ensures forall i :: 0 <= i < |CountLine(written, n) + "\n"| ==> LowerChar((CountLine(written, n) + "\n")[i]) != c
  {
    DigitsWithout(n, c);
    var l := CountLine(written, n) + "\n";
    forall i | 0 <= i < |l| ensures LowerChar(l[i]) != c {
      if i < |written| { assert l[i] == written[i]; }
      else if |written| + 1 <= i < |l| - 1 { assert l[i] == NatToString(n)[i - |written| - 1]; }
    }
  }

  lemma HeadSplit(a: string, b: string, c: string, d: string, e: string)
    ensures a + b + c + d + e == "" + a + (b + c + d + e)
  {
  }

  lemma TailSplit(a: string, b: string, c: string, d: string)
    ensures a + b + c + d == a + (b + c) + d + ""
  {
  }

  lemma TotalRead(total: nat, passed: nat, failed: nat)
    ensures CountOf(CountsText(total, passed, failed), "total:") == total
  {
    var post := "\n" + CountLine("Passed:", passed) + "\n" + CountLine("Failed:", failed);
    HeadSplit(CountLine("Total:", total), "\n", CountLine("Passed:", passed), "\n", CountLine("Failed:", failed));
    LabelledCount("", "Total:", "total:", total, post);
  }

  lemma PassedRead(total: nat, passed: nat, failed: nat)
    ensures CountOf(CountsText(total, passed, failed), "passed:") == passed
  {
    var pre := CountLine("Total:", total) + "\n";
    ConcatAssoc(pre + CountLine("Passed:", passed), "\n", CountLine("Failed:", failed));
    LineWithout("Total:", total, 'p');
    LabelledCount(pre, "Passed:", "passed:", passed, "\n" + CountLine("Failed:", failed));
  }

  lemma FailedRead(total: nat, passed: nat, failed: nat)
    ensures CountOf(CountsText(total, passed, failed), "failed:") == failed
  {
    var a := CountLine("Total:", total) + "\n";
    var b := CountLine("Passed:", passed) + "\n";
    TailSplit(a, CountLine("Passed:", passed), "\n", CountLine("Failed:", failed));
    LineWithout("Total:", total, 'f');
    LineWithout("Passed:", passed, 'f');
    forall i | 0 <= i < |a + b| ensures LowerChar((a + b)[i]) != 'f' {
      if i >= |a| { assert (a + b)[i] == b[i - |a|]; }
    }
    LabelledCount(a + b, "Failed:", "failed:", failed, "");
  }

  /** Reading back the printed summary gives its counts, the total replaced by
      passed plus failed when it is zero. */
  lemma CountsRoundTrip(total: nat, passed: nat, failed: nat)
    ensures TestCounts(CountsText(total, passed, failed)) ==
      (if total == 0 then passed + failed else total, passed, failed)
  {
    TotalRead(total, passed, failed);
    PassedRead(total, passed, failed);
    FailedRead(total, passed, failed);
    CountsFrom(CountsText(total, passed, failed), total, passed, failed);
  }

  lemma CountsFrom(text: string, total: nat, passed: nat, failed: nat)
    requires CountOf(text, "total:") == total
    requires CountOf(text, "passed:") == passed && CountOf(text, "failed:") == failed
    ensures TestCounts(text) == (if total == 0 then passed + failed else total, passed, failed)
  {
  }

  /** The key is not anchored to a word: "Subtotal: 5" reads as a total of 5. */
  lemma SubtotalCounts()
    ensures CountOf("Subtotal: 5", "total:") == 5
  {
    assert NatToString(5) == "5";
    assert "Subtotal: 5" == "Sub" + CountLine("total:", 5) + "";
    LabelledCount("Sub", "total:", "total:", 5, "");
  }

  // ----- Test files written during the run -----

  /** A `Write` tool call with a non-empty path whose lower case contains "test". */
  predicate WritesTestFile(b: Block) {
    b.ToolUse? && b.name == "Write" && b.filePath != "" && Contains(Lower(b.filePath), "test")
  }

  /** `test_files_created`: the test-file paths, in call order. */
  function TestFiles(blocks: seq<Block>): (r: seq<string>)
    ensures |r| <= |blocks|
    ensures forall p :: p in r <==>
      exists i :: 0 <= i < |blocks| && WritesTestFile(blocks[i]) && blocks[i].filePath == p
    decreases |blocks|
  {
    if |blocks| == 0 then []
    else
      var rest := TestFiles(blocks[1..]);
      assert forall i :: 1 <= i < |blocks| ==> blocks[i] == blocks[1..][i - 1];
      if WritesTestFile(blocks[0]) then [blocks[0].filePath] + rest else rest
  }

  // ----- The three entry points -----

  /** What `run_tests` and `validate_fix` read from a completed response. */
  function Decode(text: string, files: seq<string>): TesterResult {
    var fix := Mentions(text, FixFlag);
    var counts := TestCounts(text);
    TesterResult(fix, counts.0, counts.1, counts.2,
                 if fix then ParseFindings(TesterDialect, text) else [],
                 files, text, true, None)
  }

  /** `create_and_run_tests`, given what the agent run produced. */
  function CreateAndRunTests(reply: Reply): (r: TesterResult)
    ensures r.success <==> reply.Completed?
    ensures reply.Raised? ==> r == Failure(reply.message)
    ensures reply.Completed? ==>
      var text := ResponseText(reply.blocks);
      && r.summary == text && r.error == None
      && (r.fixRequired <==> Mentions(text, FixFlag))
      && r.findings == (if r.fixRequired then ParseFindings(TesterDialect, text) else [])
      && (r.testsRun, r.testsPassed, r.testsFailed) == TestCounts(text)
      && (forall p :: p in r.testFiles <==>
            exists i :: 0 <= i < |reply.blocks| && WritesTestFile(reply.blocks[i])
                        && reply.blocks[i].filePath == p)
  {
    match reply
    case Raised(message) => Failure(message)
    case Completed(blocks) => Decode(ResponseText(blocks), TestFiles(blocks))
  }

  /** `run_tests`: the same reading, without tracking test files. */
  function RunTests(reply: Reply): (r: TesterResult)
    ensures r.success <==> reply.Completed?
    ensures reply.Raised? ==> r == Failure(reply.message)
    ensures reply.Completed? ==>
      var text := ResponseText(reply.blocks);
      && r.summary == text && r.error == None && r.testFiles == []
      && (r.fixRequired <==> Mentions(text, FixFlag))
      && r.findings == (if r.fixRequired then ParseFindings(TesterDialect, text) else [])
      && (r.testsRun, r.testsPassed, r.testsFailed) == TestCounts(text)
  {
    match reply
    case Raised(message) => Failure(message)
    case Completed(blocks) => Decode(ResponseText(blocks), [])
  }

  /** `validate_fix`: reads the re-run exactly as `run_tests` does. */
  function ValidateFix(reply: Reply): (r: TesterResult)
    ensures r.success <==> reply.Completed?
    ensures reply.Raised? ==> r == Failure(reply.message)
    ensures reply.Completed? ==>
      var text := ResponseText(reply.blocks);
      && r.summary == text && r.error == None && r.testFiles == []
      && (r.fixRequired <==> Mentions(text, FixFlag))
      && r.findings == (if r.fixRequired then ParseFindings(TesterDialect, text) else [])
      && (r.testsRun, r.testsPassed, r.testsFailed) == TestCounts(text)
  {
    RunTests(reply)
  }

  /** A flagged report of failures reads back as those failures. */
  lemma ReportedFailures(fs: seq<Finding>)
    requires AllEncodable(TesterDialect, fs)
    ensures RunTests(TextReply(RenderFindings(TesterDialect, [FixFlag], fs))).fixRequired
    ensures RunTests(TextReply(RenderFindings(TesterDialect, [FixFlag], fs))).findings == fs
  {
    FindingsFirstReadable(TesterDialect);
    FlaggedReport(TesterDialect, fs);
    TextReplyText(RenderFindings(TesterDialect, [FixFlag], fs));
  }
}
