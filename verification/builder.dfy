/** The builder agent's bookkeeping of the files it touched (`BuilderAgent.build`
    in agents/sdlc/agents/builder.py): every `Write` call with a path counts as
    a created file, every `Edit` call with a path as a modified one, and each
    list is made duplicate-free. */
module Builder {
  import opened Wrappers
  import opened AgentIO

  datatype BuilderResult = BuilderResult(
    filesModified: seq<string>,
    filesCreated: seq<string>,
    summary: string,
    success: bool,
    error: Option<string>)

  /** The result of a run that raised: no files, unsuccessful, the exception text. */
  function Failure(message: string): BuilderResult {
    BuilderResult([], [], "", false, Some(message))
  }

  predicate Distinct(s: seq<string>) {
    forall i, j :: 0 <= i < j < |s| ==> s[i] != s[j]
  }

  /** A call to `tool` with a non-empty `file_path`. */
  predicate Touches(b: Block, tool: string, path: string) {
    b.ToolUse? && b.name == tool && b.filePath == path && path != ""
  }

  /** The paths of the calls to `tool` that carry one, in call order, repeats kept. */
  function Paths(blocks: seq<Block>, tool: string): (r: seq<string>)
    ensures forall p :: p in r <==> exists i :: 0 <= i < |blocks| && Touches(blocks[i], tool, p)
    decreases |blocks|
  {
    if |blocks| == 0 then []
    else
      var rest := Paths(blocks[1..], tool);
      assert forall i :: 1 <= i < |blocks| ==> blocks[i] == blocks[1..][i - 1];
      if blocks[0].ToolUse? && blocks[0].name == tool && blocks[0].filePath != "" then
        [blocks[0].filePath] + rest
      else rest
  }

  /** `list(set(paths))`. Python leaves the order unspecified; the model keeps
      the first appearance of each path, and no contract depends on it. */
  function Dedup(s: seq<string>): (r: seq<string>)
    ensures forall p :: p in r <==> p in s
    ensures Distinct(r)
    ensures |r| <= |s|
    decreases |s|
  {
    if |s| == 0 then []
    else
      var rest := Dedup(s[..|s| - 1]);
      if s[|s| - 1] in rest then rest else rest + [s[|s| - 1]]
  }

  /** `build`, given what the agent run produced. */
  function Build(reply: Reply): (r: BuilderResult)
    ensures r.success <==> reply.Completed?
    ensures reply.Raised? ==> r == Failure(reply.message)
    ensures reply.Completed? ==>
      && r.summary == ResponseText(reply.blocks) && r.error == None
      && Distinct(r.filesCreated) && Distinct(r.filesModified)
      && (forall p :: p in r.filesCreated <==>
            exists i :: 0 <= i < |reply.blocks| && Touches(reply.blocks[i], "Write", p))
      && (forall p :: p in r.filesModified <==>
            exists i :: 0 <= i < |reply.blocks| && Touches(reply.blocks[i], "Edit", p))
  {
    match reply
    case Raised(message) => Failure(message)
    case Completed(blocks) =>
      BuilderResult(Dedup(Paths(blocks, "Edit")), Dedup(Paths(blocks, "Write")),
                    ResponseText(blocks), true, None)
  }

  /** Paths of a concatenation of runs are the paths of each run in turn. */
  lemma {:induction false} PathsAppend(a: seq<Block>, b: seq<Block>, tool: string)
    ensures Paths(a + b, tool) == Paths(a, tool) + Paths(b, tool)
    decreases |a|
  {
    if |a| > 0 {
      assert (a + b)[1..] == a[1..] + b;
      PathsAppend(a[1..], b, tool);
    } else {
      assert a + b == b;
    }
  }

  /** A further text block, or a call to any other tool, or one without a
      path, leaves both file lists as they were. */
  lemma IgnoredCall(blocks: seq<Block>, b: Block)
    requires !(b.ToolUse? && (b.name == "Write" || b.name == "Edit") && b.filePath != "")
    ensures Build(Completed(blocks + [b])).filesCreated == Build(Completed(blocks)).filesCreated
    ensures Build(Completed(blocks + [b])).filesModified == Build(Completed(blocks)).filesModified
  {
    PathsAppend(blocks, [b], "Write");
    PathsAppend(blocks, [b], "Edit");
    assert Paths([b], "Write") == [] && Paths([b], "Edit") == [];
    assert Paths(blocks, "Write") + [] == Paths(blocks, "Write");
    assert Paths(blocks, "Edit") + [] == Paths(blocks, "Edit");
  }
}
