/** The echo agent's text transformation (`echo_transform` in
    agents/echo/agent.py) and the echo tool built on it (`echo_tool` in
    agents/echo/tools.py): optionally reverse, then upper-case, then repeat
    the text with single spaces between the copies. */
module Echo {
  import opened Wrappers
  import opened Text

  /** Step one: `text[::-1]` when asked. */
  function Reversed(text: string, reverse: bool): string {
    if reverse then Reverse(text) else text
  }

  /** Step two: `text.upper()` when asked. */
  function Uppercased(text: string, uppercase: bool): string {
    if uppercase then Upper(text) else text
  }

  /** Step three: `((text + " ") * repeat).strip()` when `repeat > 1`. */
  function Repeated(text: string, repeat: int): string {
    if repeat > 1 then Strip(Repeat(text + " ", repeat)) else text
  }

  /** `echo_transform(text, reverse, uppercase, repeat)` */
  function EchoTransform(text: string, reverse: bool, uppercase: bool, repeat: int): (r: string)
    ensures !reverse && !uppercase && repeat <= 1 ==> r == text
    ensures !reverse && !uppercase ==> r == Repeated(text, repeat)
    ensures repeat <= 1 ==> |r| == |text|
  {
    Repeated(Uppercased(Reversed(text, reverse), uppercase), repeat)
  }

  /** The transforms apply one after another, reverse first, then upper-case,
      then repeat: each call with a single flag feeds the next. */
  lemma TransformOrder(text: string, reverse: bool, uppercase: bool, repeat: int)
    ensures EchoTransform(text, reverse, uppercase, repeat) ==
      EchoTransform(EchoTransform(EchoTransform(text, reverse, false, 1), false, uppercase, 1), false, false, repeat)
  {
  }

  /** Echoing reversed text reversed gives the original text back. */
  lemma ReverseTwice(text: string)
    ensures EchoTransform(EchoTransform(text, true, false, 1), true, false, 1) == text
  {
    ReverseInvolution(text);
  }

  /** Upper-casing and reversing commute, so their order is unobservable. */
  lemma UpperReverseCommute(text: string)
    ensures Upper(Reverse(text)) == Reverse(Upper(text))
  {
  }

  /** `n` copies of `t` with single spaces between them. */
  function Copies(t: string, n: nat): (r: string)
    requires n >= 1
    ensures |r| == n * |t| + n - 1
  {
    if n == 1 then t else t + " " + Copies(t, n - 1)
  }

  /** `(t + " ") * n` is the spaced copies with one blank at the end. */
  lemma {:induction false} RepeatIsCopies(t: string, n: nat)
    requires n >= 1
    ensures Repeat(t + " ", n) == Copies(t, n) + " "
    decreases n
  {
    if n > 1 {
      RepeatIsCopies(t, n - 1);
      ConcatAssoc(t + " ", Copies(t, n - 1), " ");
    }
  }

  /** The spaced copies of an unpadded non-empty text start and end with it. */
  lemma {:induction false} CopiesUnpadded(t: string, n: nat)
    requires n >= 1 && |t| > 0 && Unpadded(t)
    ensures Unpadded(Copies(t, n)) && |Copies(t, n)| > 0
    decreases n
  {
    if n > 1 {
      CopiesUnpadded(t, n - 1);
      var c := Copies(t, n - 1);
      assert Copies(t, n) == t + " " + c;
      assert Copies(t, n)[0] == t[0];
      assert Copies(t, n)[|Copies(t, n)| - 1] == c[|c| - 1];
    }
  }

  /** Stripping drops one trailing blank after a non-empty unpadded string. */
  lemma StripBeforeBlank(u: string)
    requires |u| > 0 && Unpadded(u)
    ensures Strip(u + " ") == u
  {
    assert TrimStart(u + " ") == u + " ";
    assert (u + " ")[..|u|] == u;
    assert TrimEnd(u + " ") == TrimEnd(u);
    StripUnpadded(u);
  }

  /** For a non-empty text without surrounding whitespace, repeating gives
      `n` copies with single spaces between them, `n·|t| + n − 1` characters. */
  lemma RepeatUnpadded(t: string, n: int)
    requires n > 1 && |t| > 0 && Unpadded(t)
    ensures Repeated(t, n) == Copies(t, n)
    ensures |Repeated(t, n)| == n * |t| + n - 1
  {
    RepeatIsCopies(t, n);
    CopiesUnpadded(t, n);
    StripBeforeBlank(Copies(t, n));
  }

  /** Stripping drops one blank on each side of a non-empty unpadded string. */
  lemma StripBlanks(w: string)
    requires |w| > 0 && Unpadded(w)
    ensures Strip(" " + w + " ") == w
  {
    assert (" " + w + " ")[1..] == w + " ";
    assert TrimStart(" " + w + " ") == TrimStart(w + " ");
    StripBeforeBlank(w);
  }

  /** The final strip also eats the text's own edge whitespace: repeating
      " u" twice gives "u  u", with two blanks between the copies and none
      in front. */
  lemma RepeatEatsEdges(u: string)
    requires |u| > 0 && Unpadded(u)
    ensures EchoTransform(" " + u, false, false, 2) == u + "  " + u
  {
    var t := " " + u;
    RepeatIsCopies(t, 2);
    var w := u + "  " + u;
    assert Copies(t, 2) == t + " " + t;
    assert " " + " " == "  ";
    calc {
      Copies(t, 2) + " ";
      " " + u + " " + (" " + u) + " ";
      { ConcatAssoc(" " + u + " ", " ", u); }
      " " + u + " " + " " + u + " ";
      " " + (u + (" " + " ") + u) + " ";
    }
    assert w[0] == u[0] && w[|w| - 1] == u[|u| - 1];
    StripBlanks(w);
  }

  // ----- the tool -----

  /** The tool's arguments, each possibly missing. */
  datatype EchoArgs = EchoArgs(
    text: Option<string>,
    reverse: Option<bool>,
    uppercase: Option<bool>,
    repeat: Option<int>)

  /** One content item of a tool response. */
  datatype ContentItem = ContentItem(kind: string, text: string)

  /** The transform log: each applied transform, in application order. */
  function TransformLog(reverse: bool, uppercase: bool, repeat: int): (log: seq<string>)
    ensures ("reversed" in log <==> reverse) && ("uppercased" in log <==> uppercase)
    ensures |log| == (if reverse then 1 else 0) + (if uppercase then 1 else 0) + (if repeat > 1 then 1 else 0)
    ensures reverse ==> log[0] == "reversed"
    ensures repeat > 1 ==> log[|log| - 1] == "repeated " + NatToString(repeat) + "x"
  {
    (if reverse then ["reversed"] else [])
    + (if uppercase then ["uppercased"] else [])
    + (if repeat > 1 then ["repeated " + NatToString(repeat) + "x"] else [])
  }

  /** `", ".join(transforms) if transforms else "none"` */
  function TransformInfo(log: seq<string>): string {
    if |log| == 0 then "none" else Join(log, ", ")
  }

  /** `echo_tool(args)`: one text item reporting the transforms and the result.
      The tool carries its own copy of the transformation and its own
      transform list; the contract states that both agree with
      `EchoTransform` and `TransformLog`. */
  function EchoTool(args: EchoArgs): (r: seq<ContentItem>)
    ensures |r| == 1 && r[0].kind == "text"
    ensures var text := args.text.GetOr("");
      var reverse := args.reverse.GetOr(false);
      var uppercase := args.uppercase.GetOr(false);
      var repeat := args.repeat.GetOr(1);
      r[0].text == "Echo Result (transforms: " + TransformInfo(TransformLog(reverse, uppercase, repeat)) + "):\n"
                   + EchoTransform(text, reverse, uppercase, repeat)
  {
    var text := args.text.GetOr("");
    var reverse := args.reverse.GetOr(false);
    var uppercase := args.uppercase.GetOr(false);
    var repeat := args.repeat.GetOr(1);
    // the result, updated by each requested transform in turn
    var result := text;
    var result := if reverse then Reverse(result) else result;
    var result := if uppercase then Upper(result) else result;
    var result := if repeat > 1 then Strip(Repeat(result + " ", repeat)) else result;
    // the transform list, appended to in the same order
    var transforms: seq<string> := [];
    var transforms := if reverse then transforms + ["reversed"] else transforms;
    var transforms := if uppercase then transforms + ["uppercased"] else transforms;
    var transforms := if repeat > 1 then transforms + ["repeated " + NatToString(repeat) + "x"] else transforms;
    var info := if |transforms| > 0 then Join(transforms, ", ") else "none";
    assert result == EchoTransform(text, reverse, uppercase, repeat);
    assert transforms == TransformLog(reverse, uppercase, repeat);
    [ContentItem("text", "Echo Result (transforms: " + info + "):\n" + result)]
  }

  /** With no arguments the tool echoes the empty text and reports no transform. */
  lemma ToolDefaults()
    ensures EchoTool(EchoArgs(None, None, None, None)) == [ContentItem("text", "Echo Result (transforms: none):\n")]
  {
    assert TransformLog(false, false, 1) == [];
    assert EchoTransform("", false, false, 1) == "";
    assert "Echo Result (transforms: " + "none" + "):\n" + "" == "Echo Result (transforms: none):\n";
  }

  /** The tool reports "none" exactly when nothing was applied, and then its
      result is the text itself. */
  lemma ToolNoneIff(args: EchoArgs)
    ensures var reverse := args.reverse.GetOr(false);
      var uppercase := args.uppercase.GetOr(false);
      var repeat := args.repeat.GetOr(1);
      var info := TransformInfo(TransformLog(reverse, uppercase, repeat));
      && (info == "none" <==> !reverse && !uppercase && repeat <= 1)
      && (info == "none" ==> EchoTool(args)[0].text == "Echo Result (transforms: none):\n" + args.text.GetOr(""))
  {
    var reverse := args.reverse.GetOr(false);
    var uppercase := args.uppercase.GetOr(false);
    var repeat := args.repeat.GetOr(1);
    var log := TransformLog(reverse, uppercase, repeat);
    if |log| > 0 {
      assert |log[0]| > 0 && (log[0][0] == 'r' || log[0][0] == 'u');
      JoinHead(log, ", ");
      assert Join(log, ", ")[0] != "none"[0];
    }
  }

  /** A join starts with the first character of its first part. */
  lemma JoinHead(parts: seq<string>, sep: string)
    requires |parts| > 0 && |parts[0]| > 0
    ensures |Join(parts, sep)| > 0 && Join(parts, sep)[0] == parts[0][0]
  {
  }
}
