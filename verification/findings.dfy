/** The finding record every validating agent reports (agents/sdlc/agents/reviewer.py,
    class `Finding`) and the id-set signature the fix loops compare. */
module Findings {

  /** One reported defect. All fields are free text in the source; `severity`
      is conventionally one of critical, major or minor. */
  datatype Finding = Finding(
    id: string,
    severity: string,
    location: string,
    problem: string,
    fixInstruction: string,
    fixCode: string,
    fixAgent: string)

  /** `{f.id for f in findings}`: the signature a fix loop uses to recognise
      that a batch of findings did not change. */
  function IdSet(fs: seq<Finding>): set<string> {
    set f | f in fs :: f.id
  }

  /** The signature is empty exactly for an empty batch. */
  lemma IdSetEmpty(fs: seq<Finding>)
    ensures IdSet(fs) == {} <==> |fs| == 0
  {
    if |fs| > 0 {
      assert fs[0].id in IdSet(fs);
    }
  }
}
