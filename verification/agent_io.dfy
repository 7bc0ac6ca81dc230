/** What an agent run hands back to the code that scans it. The agent runtime
    itself (the streamed `query` call) is outside the model: a run is either the
    sequence of content blocks it produced or the text of the exception it
    raised. */
module AgentIO {
  import opened Text

  /** A content block: a tool call (name and its `file_path` input, "" when the
      input has none) or a piece of response text. */
  datatype Block = ToolUse(name: string, filePath: string) | TextBlock(text: string)

  /** A finished agent run, or the exception that ended it. */
  datatype Reply = Completed(blocks: seq<Block>) | Raised(message: string)

  /** `"".join(block.text for text blocks)`: the full response the scanners read. */
  function ResponseText(blocks: seq<Block>): string {
    if |blocks| == 0 then ""
    else
      (match blocks[0]
       case TextBlock(t) => t
       case ToolUse(_, _) => "")
      + ResponseText(blocks[1..])
  }

  /** `word in text.upper()`: how every agent reads its status markers. */
  predicate Mentions(text: string, word: string) {
    Contains(Upper(text), word)
  }

  /** A marker on one line of a multi-line text is mentioned by the text. */
  lemma MentionedByLine(lines: seq<string>, k: nat, sep: string, word: string)
    requires k < |lines| && Mentions(lines[k], word)
    ensures Mentions(Join(lines, sep), word)
  {
    var a, b := JoinSplit(lines, k, sep);
    UpperAppend(a + lines[k], b);
    UpperAppend(a, lines[k]);
    ContainsWithin(Upper(a), Upper(lines[k]), Upper(b), word);
  }

  /** A line in upper case that ends with a word mentions that word. */
  lemma MarkerLineMentions(marker: string, word: string)
    requires Upper(marker + word) == marker + word
    ensures Mentions(marker + word, word)
  {
    ContainsSpliced(marker, word, "");
    assert marker + word + "" == marker + word;
  }

  /** A marker mentioned by the stripped line is mentioned by the line. */
  lemma MentionsStripped(line: string, word: string)
    requires Mentions(Strip(line), word)
    ensures Mentions(line, word)
  {
    var t := Strip(line);
    StripShape(line);
    var j := |line| - |TrimStart(line)|;
    var a, b := line[..j], line[j + |t|..];
    assert line == a + t + b;
    UpperAppend(a + t, b);
    UpperAppend(a, t);
    ContainsWithin(Upper(a), Upper(t), Upper(b), word);
  }

  /** A marker without line breaks that no line mentions is not mentioned by
      the lines joined with line breaks. */
  lemma {:induction false} UnmentionedLines(lines: seq<string>, word: string)
    requires |word| > 0 && '\n' !in word
    requires Silent(lines, word)
    ensures !Mentions(Join(lines, "\n"), word)
    decreases |lines|
  {
    if |lines| == 0 {
      MissingCharNotContained(Upper(""), word, word[0]);
    } else if |lines| > 1 {
      var rest := Join(lines[1..], "\n");
      UnmentionedLines(lines[1..], word);
      UpperAppend(lines[0] + "\n", rest);
      UpperAppend(lines[0], "\n");
      assert Upper("\n") == ['\n'];
      if Mentions(Join(lines, "\n"), word) {
        ContainsAcross(Upper(lines[0]), '\n', Upper(rest), word);
      }
    }
  }

  /** No line mentions `word`. */
  predicate Silent(lines: seq<string>, word: string) {
    forall k :: 0 <= k < |lines| ==> !Mentions(lines[k], word)
  }

  lemma SilentAppend(a: seq<string>, b: seq<string>, word: string)
    requires Silent(a, word) && Silent(b, word)
    ensures Silent(a + b, word)
  {
    forall k | 0 <= k < |a + b|
      ensures !Mentions((a + b)[k], word)
    {
      if k < |a| {
        assert (a + b)[k] == a[k];
      } else {
        assert (a + b)[k] == b[k - |a|];
      }
    }
  }

  /** A line in upper case lacking a character of `word` does not mention it. */
  lemma CapsLineSilent(line: string, word: string, c: char)
    requires Upper(line) == line && c in word && c !in line
    ensures !Mentions(line, word)
  {
    MissingCharNotContained(line, word, c);
  }

  /** A reply carrying a single piece of text. */
  function TextReply(text: string): Reply {
    Completed([TextBlock(text)])
  }

  /** The response text of a single-text reply is that text. */
  lemma TextReplyText(text: string)
    ensures ResponseText(TextReply(text).blocks) == text
  {
    assert TextReply(text).blocks[1..] == [];
  }

  /** The marker every validating agent reads as "a fix is required". */
  const FixFlag: string := "FIX_REQUIRED: TRUE"

  lemma FixFlagShape()
    ensures Upper(FixFlag) == FixFlag
    ensures '\n' !in FixFlag && 'S' !in FixFlag && 'G' !in FixFlag
  {
    UpperFixed(FixFlag);
  }

  /** A text whose lines include the marker line mentions the marker. */
  lemma FlagLineMentioned(lines: seq<string>)
    requires |lines| > 0 && lines[0] == FixFlag
    ensures Mentions(Join(lines, "\n"), FixFlag)
  {
    FixFlagShape();
    assert "" + FixFlag == FixFlag;
    MarkerLineMentions("", FixFlag);
    MentionedByLine(lines, 0, "\n", FixFlag);
  }
}
