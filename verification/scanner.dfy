/** The line scanners the agents use to read findings and bulleted sections
    out of free-text responses. The five agents (reviewer, tester, debugger, QA,
    UI reviewer) each carry a near-copy of `_parse_findings`/`_create_finding`;
    here there is one scanner parameterised by a `Dialect` that holds the
    per-agent differences, and each agent module instantiates it. */
module FindingScanner {
  import opened Text
  import opened Findings
  import opened Wrappers
  import opened AgentIO

  /** The finding fields a `- name: value` line can set. */
  datatype Field = Id | Severity | Location | Problem | FixInstruction | FixCode | FixAgent

  function FieldName(f: Field): string {
    match f
    case Id => "id"
    case Severity => "severity"
    case Location => "location"
    case Problem => "problem"
    case FixInstruction => "fix_instruction"
    case FixCode => "fix_code"
    case FixAgent => "fix_agent"
  }

  /** The fields collected so far for one finding (the source's `current_finding` dict). */
  type Record = map<Field, string>

  /** Values `_create_finding` uses for absent fields that differ between agents;
      the id default is `idPrefix` followed by the zero-padded record index. */
  datatype Defaults = Defaults(idPrefix: string, severity: string, problem: string, fixInstruction: string)

  /** The per-agent choices: the upper-case words whose presence in a line opens
      the findings section, the field lines recognised (in the order they are
      tested) and the defaults. */
  datatype Dialect = Dialect(triggers: seq<string>, fields: seq<Field>, defaults: Defaults)

  const AllFields: seq<Field> := [Id, Severity, Location, Problem, FixInstruction, FixCode, FixAgent]

  /** The QA agent has no `fix_code` branch. */
  const FieldsWithoutFixCode: seq<Field> := [Id, Severity, Location, Problem, FixInstruction, FixAgent]

  /** `line.startswith('- name:') or line.startswith('name:')` */
  predicate IsFieldLine(line: string, f: Field) {
    StartsWith(line, "- " + FieldName(f) + ":") || StartsWith(line, FieldName(f) + ":")
  }

  /** The first field (in testing order) whose line prefix `line` carries. */
  function MatchField(fields: seq<Field>, line: string): (r: Option<Field>)
    ensures r.Some? ==> r.value in fields && IsFieldLine(line, r.value)
    ensures r.None? ==> forall f :: f in fields ==> !IsFieldLine(line, f)
  {
    if |fields| == 0 then None
    else if IsFieldLine(line, fields[0]) then Some(fields[0])
    else MatchField(fields[1..], line)
  }

  lemma FieldLineHasColon(line: string, f: Field)
    requires IsFieldLine(line, f)
    ensures ':' in line
  {
    var p := if StartsWith(line, "- " + FieldName(f) + ":") then "- " + FieldName(f) + ":" else FieldName(f) + ":";
    assert line[|p| - 1] == p[|p| - 1] == ':';
  }

  /** `line.split(':', 1)[1].strip()` */
  function FieldValue(line: string): string
    requires ':' in line
  {
    Strip(AfterFirst(line, ':'))
  }

  /** Some trigger word occurs in the upper-cased line. */
  predicate EntersSection(d: Dialect, upperLine: string) {
    AnyContained(upperLine, d.triggers)
  }

  /** `any(w in line for w in words)` */
  predicate AnyContained(line: string, words: seq<string>)
    decreases |words|
  {
    |words| > 0 && (Contains(line, words[0]) || AnyContained(line, words[1..]))
  }

  lemma {:induction false} AnyContainedIff(line: string, words: seq<string>)
    ensures AnyContained(line, words) <==> exists k :: 0 <= k < |words| && Contains(line, words[k])
    decreases |words|
  {
    if |words| > 0 {
      AnyContainedIff(line, words[1..]);
      if AnyContained(line, words[1..]) {
        var k :| 0 <= k < |words[1..]| && Contains(line, words[1..][k]);
        assert Contains(line, words[k + 1]);
      }
      if exists k :: 0 <= k < |words| && Contains(line, words[k]) {
        var k :| 0 <= k < |words| && Contains(line, words[k]);
        if k > 0 {
          assert Contains(line, words[1..][k - 1]);
        }
      }
    }
  }

  /** What a line is, independently of where the scan stands. */
  datatype LineKind =
    | Trigger                               // contains a trigger word (upper-cased)
    | Heading                               // starts with `#` and lacks FINDING
    | FieldLine(field: Field, value: string) // a recognised `- name: value` line
    | Other

  /** The classification `_parse_findings` applies to each stripped line, in
      the order it tests: trigger words, then the closing heading, then the
      field prefixes. */
  function Kind(d: Dialect, raw: string): (k: LineKind)
    ensures k.Trigger? <==> EntersSection(d, Upper(Strip(raw)))
    ensures k.Heading? ==> StartsWith(Strip(raw), "#")
    ensures k.FieldLine? ==> k.field in d.fields && IsFieldLine(Strip(raw), k.field)
    ensures k.Other? ==> forall f :: f in d.fields ==> !IsFieldLine(Strip(raw), f)
  {
    var line := Strip(raw);
    if EntersSection(d, Upper(line)) then Trigger
    else if StartsWith(line, "#") && !Contains(Upper(line), "FINDING") then Heading
    else
      match MatchField(d.fields, line)
      case None => Other
      case Some(f) =>
        FieldLineHasColon(line, f);
        FieldLine(f, FieldValue(line))
  }

  /** The scanner's loop variables: the section flag, `current_finding`, and the
      records already flushed (whose count is the source's `finding_count`). */
  datatype ScanState = ScanState(inSection: bool, current: Record, flushed: seq<Record>)

  const Initial: ScanState := ScanState(false, map[], [])

  /** The records flushed so far followed by the pending one, if any. */
  function Flushed(st: ScanState): seq<Record> {
    st.flushed + (if st.current != map[] then [st.current] else [])
  }

  /** One iteration of the `for line in lines` loop of `_parse_findings`:
      field lines count only inside the section; an id line flushes the
      pending record (when non-empty) and starts a new one. */
  function Step(st: ScanState, k: LineKind): ScanState {
    match k
    case Trigger => st.(inSection := true)
    case Heading => st.(inSection := false)
    case Other => st
    case FieldLine(f, v) =>
      if !st.inSection then st
      else if f == Id then ScanState(true, map[Id := v], Flushed(st))
      else st.(current := st.current[f := v])
  }

  function Scan(st: ScanState, kinds: seq<LineKind>): ScanState
    decreases |kinds|
  {
    if |kinds| == 0 then st else Scan(Step(st, kinds[0]), kinds[1..])
  }

  /** Scanning a concatenation scans the parts one after the other. */
  lemma {:induction false} ScanAppend(st: ScanState, a: seq<LineKind>, b: seq<LineKind>)
    ensures Scan(st, a + b) == Scan(Scan(st, a), b)
    decreases |a|
  {
    if |a| == 0 {
      assert a + b == b;
    } else {
      assert (a + b)[0] == a[0] && (a + b)[1..] == a[1..] + b;
      ScanAppend(Step(st, a[0]), a[1..], b);
    }
  }

  /** The classification of each line, in order. */
  function Kinds(d: Dialect, lines: seq<string>): (r: seq<LineKind>)
    ensures |r| == |lines|
  {
    MapLines(l => Kind(d, l), lines)
  }

  lemma KindAt(d: Dialect, lines: seq<string>, i: nat)
    requires i < |lines|
    ensures Kinds(d, lines)[i] == Kind(d, lines[i])
  {
    MapLinesAt(l => Kind(d, l), lines, i);
  }

  /** The dicts `_parse_findings` hands to `_create_finding`, in order. */
  function Records(d: Dialect, text: string): seq<Record> {
    Flushed(Scan(Initial, Kinds(d, Lines(text))))
  }

  function FieldOr(rec: Record, f: Field, default: string): string {
    if f in rec then rec[f] else default
  }

  /** `_create_finding(data, index)`: the recorded fields, defaults for the rest. */
  function CreateFinding(d: Dialect, rec: Record, index: nat): (r: Finding)
    ensures Id !in rec ==> r.id == d.defaults.idPrefix + Pad3(index)
    ensures FixCode !in rec ==> r.fixCode == ""
    ensures Location !in rec ==> r.location == "unknown"
    ensures FixAgent !in rec ==> r.fixAgent == "builder"
    ensures Severity !in rec ==> r.severity == d.defaults.severity
    ensures Problem !in rec ==> r.problem == d.defaults.problem
    ensures FixInstruction !in rec ==> r.fixInstruction == d.defaults.fixInstruction
    ensures forall f :: f in rec ==> FieldOf(r, f) == rec[f]
  {
    Finding(
      FieldOr(rec, Id, d.defaults.idPrefix + Pad3(index)),
      FieldOr(rec, Severity, d.defaults.severity),
      FieldOr(rec, Location, "unknown"),
      FieldOr(rec, Problem, d.defaults.problem),
      FieldOr(rec, FixInstruction, d.defaults.fixInstruction),
      FieldOr(rec, FixCode, ""),
      FieldOr(rec, FixAgent, "builder"))
  }

  /** The value of one field of a finding. */
  function FieldOf(x: Finding, f: Field): string {
    match f
    case Id => x.id
    case Severity => x.severity
    case Location => x.location
    case Problem => x.problem
    case FixInstruction => x.fixInstruction
    case FixCode => x.fixCode
    case FixAgent => x.fixAgent
  }

  /** `_parse_findings(response)` */
  function ParseFindings(d: Dialect, text: string): (r: seq<Finding>)
    ensures |r| == |Records(d, text)|
    ensures forall i :: 0 <= i < |r| ==> r[i] == CreateFinding(d, Records(d, text)[i], i)
    // one finding per id line inside the section, plus one for field lines before the first
    ensures |r| == CountOpens(false, Kinds(d, Lines(text)))
                   + (if LeadingOrphan(false, Kinds(d, Lines(text))) then 1 else 0)
    // no trigger line, no findings
    ensures Untriggered(d, text) ==> r == []
    // every finding after the first was started by an id line and carries its value
    ensures forall i :: 0 < i < |r| ==> Id in Records(d, text)[i] && r[i].id == Records(d, text)[i][Id]
    // only the first finding can take the default id, which is then the prefix and "000"
    ensures |r| > 0 && Id !in Records(d, text)[0] ==> r[0].id == d.defaults.idPrefix + "000"
    // a field the dialect does not read keeps its default
    ensures FixCode !in d.fields ==> forall i :: 0 <= i < |r| ==> r[i].fixCode == ""
  {
    var recs := Records(d, text);
    RecordCount(d, text);
    NoTriggerNoRecords(d, text);
    RecordsWellShaped(d, text);
    Pad3Zero();
    seq(|recs|, i requires 0 <= i < |recs| => CreateFinding(d, recs[i], i))
  }

  // ----- Properties of one line -----

  /** A line whose upper-case form contains a trigger opens the section and is
      never read as a field line: the pending and flushed records are untouched. */
  lemma TriggerLineEnters(d: Dialect, st: ScanState, raw: string)
    requires EntersSection(d, Upper(Strip(raw)))
    ensures Step(st, Kind(d, raw)) == st.(inSection := true)
  {
  }

  /** Outside the section nothing but a trigger line has any effect. */
  lemma OutsideIgnored(d: Dialect, st: ScanState, raw: string)
    requires !st.inSection && !EntersSection(d, Upper(Strip(raw)))
    ensures Step(st, Kind(d, raw)) == st
  {
  }

  /** A `#` line (that is no trigger line) whose upper-case form lacks FINDING
      closes the section and changes nothing else. */
  lemma HeadingLeaves(d: Dialect, st: ScanState, raw: string)
    requires !EntersSection(d, Upper(Strip(raw)))
    requires StartsWith(Strip(raw), "#") && !Contains(Upper(Strip(raw)), "FINDING")
    ensures Step(st, Kind(d, raw)) == st.(inSection := false)
  {
  }

  /** Inside the section, an id line flushes the pending record (if non-empty)
      and starts a new one holding only the id; another recognised field line
      overwrites that field of the pending record with the text after the
      first ':', stripped. The first matching field in testing order wins. */
  lemma FieldLineEffect(d: Dialect, st: ScanState, raw: string, f: Field)
    requires st.inSection && !EntersSection(d, Upper(Strip(raw)))
    requires !StartsWith(Strip(raw), "#")
    requires MatchField(d.fields, Strip(raw)) == Some(f)
    ensures ':' in Strip(raw)
    ensures f == Id ==>
      Step(st, Kind(d, raw)) == ScanState(true, map[Id := FieldValue(Strip(raw))], Flushed(st))
    ensures f != Id ==>
      Step(st, Kind(d, raw)) == st.(current := st.current[f := FieldValue(Strip(raw))])
  {
    FieldLineHasColon(Strip(raw), f);
    assert Kind(d, raw) == FieldLine(f, FieldValue(Strip(raw)));
  }

  // ----- How many findings a response yields -----

  /** Whether the section is open after a line of kind `k`. */
  function InSectionAfter(k: LineKind, inSection: bool): bool {
    match k
    case Trigger => true
    case Heading => false
    case _ => inSection
  }

  /** The number of id lines the scan meets inside the section. */
  function CountOpens(inSection: bool, kinds: seq<LineKind>): nat
    decreases |kinds|
  {
    if |kinds| == 0 then 0
    else
      (if inSection && kinds[0].FieldLine? && kinds[0].field == Id then 1 else 0)
      + CountOpens(InSectionAfter(kinds[0], inSection), kinds[1..])
  }

  /** Inside the section, some non-id field line comes before the first id line. */
  predicate LeadingOrphan(inSection: bool, kinds: seq<LineKind>)
    decreases |kinds|
  {
    if |kinds| == 0 then false
    else if inSection && kinds[0].FieldLine? then kinds[0].field != Id
    else LeadingOrphan(InSectionAfter(kinds[0], inSection), kinds[1..])
  }

  lemma {:induction false} ScanCount(st: ScanState, kinds: seq<LineKind>)
    ensures |Flushed(Scan(st, kinds))| ==
      |Flushed(st)| + CountOpens(st.inSection, kinds)
      + (if st.current == map[] && LeadingOrphan(st.inSection, kinds) then 1 else 0)
    decreases |kinds|
  {
    if |kinds| > 0 {
      var k := kinds[0];
      var st1 := Step(st, k);
      assert st1.inSection == InSectionAfter(k, st.inSection);
      ScanCount(st1, kinds[1..]);
      if st.inSection && k.FieldLine? {
        assert k.field in st1.current;
        if k.field == Id {
          assert |Flushed(st1)| == |Flushed(st)| + 1;
        } else {
          assert |Flushed(st1)| == |st.flushed| + 1;
        }
      } else {
        assert st1.current == st.current && st1.flushed == st.flushed;
      }
    }
  }

  /** One record per id line inside the section, plus one when field lines
      precede the first id line. */
  lemma RecordCount(d: Dialect, text: string)
    ensures |Records(d, text)| ==
      CountOpens(false, Kinds(d, Lines(text)))
      + (if LeadingOrphan(false, Kinds(d, Lines(text))) then 1 else 0)
  {
    ScanCount(Initial, Kinds(d, Lines(text)));
  }

  // ----- Which fields a finding can take from its defaults -----

  /** Every record after the first starts at an id line, and the fields of
      every record are fields of the dialect. */
  predicate WellShaped(d: Dialect, st: ScanState) {
    && (forall i :: 0 < i < |st.flushed| ==> Id in st.flushed[i])
    && (|st.flushed| > 0 ==> Id in st.current)
    && (forall i, f :: 0 <= i < |st.flushed| && f in st.flushed[i] ==> f in d.fields)
    && (forall f :: f in st.current ==> f in d.fields)
  }

  /** Every field line names a field of the dialect. */
  predicate KindsOf(d: Dialect, kinds: seq<LineKind>) {
    forall i :: 0 <= i < |kinds| && kinds[i].FieldLine? ==> kinds[i].field in d.fields
  }

  lemma {:induction false} ScanWellShaped(d: Dialect, st: ScanState, kinds: seq<LineKind>)
    requires WellShaped(d, st) && KindsOf(d, kinds)
    ensures WellShaped(d, Scan(st, kinds))
    decreases |kinds|
  {
    if |kinds| > 0 {
      var st1 := Step(st, kinds[0]);
      assert WellShaped(d, st1);
      assert KindsOf(d, kinds[1..]) by {
        forall i | 0 <= i < |kinds[1..]| && kinds[1..][i].FieldLine?
          ensures kinds[1..][i].field in d.fields
        {
          assert kinds[1..][i] == kinds[i + 1];
        }
      }
      ScanWellShaped(d, st1, kinds[1..]);
    }
  }

  lemma KindsAreOf(d: Dialect, lines: seq<string>)
    ensures KindsOf(d, Kinds(d, lines))
  {
    forall i | 0 <= i < |lines| && Kinds(d, lines)[i].FieldLine?
      ensures Kinds(d, lines)[i].field in d.fields
    {
      KindAt(d, lines, i);
    }
  }

  lemma RecordsWellShaped(d: Dialect, text: string)
    ensures forall i :: 0 < i < |Records(d, text)| ==> Id in Records(d, text)[i]
    ensures forall i, f :: 0 <= i < |Records(d, text)| && f in Records(d, text)[i] ==> f in d.fields
  {
    KindsAreOf(d, Lines(text));
    ScanWellShaped(d, Initial, Kinds(d, Lines(text)));
  }

  lemma Pad3Zero()
    ensures Pad3(0) == "000"
  {
    assert NatToString(0) == "0";
    assert Repeat("0", 2) == "00";
  }

  // ----- Round trip: rendering findings and reading them back -----

  /** The heading the prompts ask agents to put above their findings. */
  const Header: string := "## FINDINGS"

  /** One field line; an empty value is written without the blank after ':'. */
  function RenderField(f: Field, v: string): string {
    "- " + FieldName(f) + ":" + (if v == "" then "" else " " + v)
  }

  /** The fields written for one finding, id first; `fix_code` only when the
      dialect reads it. */
  function RenderOrder(d: Dialect): (r: seq<Field>)
    ensures |r| > 0 && r[0] == Id
    ensures forall i :: 0 < i < |r| ==> r[i] != Id
  {
    [Id, Severity, Location, Problem, FixInstruction]
    + (if FixCode in d.fields then [FixCode] else [])
    + [FixAgent]
  }

  /** The lines of `x`'s fields listed in `order`. */
  function RenderFields(x: Finding, order: seq<Field>): (r: seq<string>)
    ensures |r| == |order|
    ensures forall i :: 0 <= i < |order| ==> r[i] == RenderField(order[i], FieldOf(x, order[i]))
    decreases |order|
  {
    if |order| == 0 then [] else [RenderField(order[0], FieldOf(x, order[0]))] + RenderFields(x, order[1..])
  }

  function RenderFinding(d: Dialect, x: Finding): (r: seq<string>)
    ensures |r| == |RenderOrder(d)|
  {
    RenderFields(x, RenderOrder(d))
  }

  function RenderAll(d: Dialect, fs: seq<Finding>): seq<string>
    decreases |fs|
  {
    if |fs| == 0 then [] else RenderFinding(d, fs[0]) + RenderAll(d, fs[1..])
  }

  /** A response holding the lines `pre`, then the heading and the field
      lines of `fs`. */
  function RenderFindings(d: Dialect, pre: seq<string>, fs: seq<Finding>): string {
    Join(pre + [Header] + RenderAll(d, fs), "\n")
  }

  /** Lines that may precede the findings: single lines that open no section. */
  predicate Preamble(d: Dialect, pre: seq<string>) {
    forall k :: 0 <= k < |pre| ==> '\n' !in pre[k] && !EntersSection(d, Upper(Strip(pre[k])))
  }

  /** Single lines none of which mentions a trigger word form a preamble. */
  lemma SilentPreamble(d: Dialect, pre: seq<string>)
    requires NoBreaks(pre)
    requires forall j :: 0 <= j < |d.triggers| ==> Silent(pre, d.triggers[j])
    ensures Preamble(d, pre)
  {
    forall k | 0 <= k < |pre|
      ensures !EntersSection(d, Upper(Strip(pre[k])))
    {
      AnyContainedIff(Upper(Strip(pre[k])), d.triggers);
      if EntersSection(d, Upper(Strip(pre[k]))) {
        var j :| 0 <= j < |d.triggers| && Contains(Upper(Strip(pre[k])), d.triggers[j]);
        MentionsStripped(pre[k], d.triggers[j]);
      }
    }
  }

  /** The dialect opens its section at the heading and reads every field
      `RenderOrder` writes. */
  predicate Readable(d: Dialect) {
    EntersSection(d, Header) && ReadsRendered(d)
  }

  /** The heading is a trigger line for a dialect with a trigger inside it. */
  lemma HeaderKind(d: Dialect)
    requires EntersSection(d, Header)
    ensures Kinds(d, [Header]) == [Trigger]
  {
    StripUnpadded(Header);
    assert Upper(Header) == Header;
    assert Kind(d, Header) == Trigger;
  }

  /** A dialect whose first trigger is FINDINGS and that reads every rendered
      field can read rendered findings. */
  lemma FindingsFirstReadable(d: Dialect)
    requires |d.triggers| > 0 && d.triggers[0] == "FINDINGS" && ReadsRendered(d)
    ensures Readable(d)
  {
    ContainsSpliced("## ", "FINDINGS", "");
    assert "## " + "FINDINGS" + "" == Header;
  }

  /** The dialect reads every field `RenderOrder` writes. */
  predicate ReadsRendered(d: Dialect) {
    && Id in d.fields && Severity in d.fields && Location in d.fields
    && Problem in d.fields && FixInstruction in d.fields && FixAgent in d.fields
  }

  /** A value that survives a field line: one line, no edge whitespace. */
  predicate Clean(v: string) {
    '\n' !in v && Unpadded(v)
  }

  /** A finding the dialect can read back: clean values, no field line that
      reads as a trigger line, and an empty `fix_code` when the dialect
      ignores that field. */
  predicate Encodable(d: Dialect, x: Finding) {
    && (forall f :: f in RenderOrder(d) ==> Clean(FieldOf(x, f)))
    && (forall f :: f in RenderOrder(d) ==> !EntersSection(d, Upper(RenderField(f, FieldOf(x, f)))))
    && (FixCode !in d.fields ==> x.fixCode == "")
  }

  /** Every finding of the list is encodable. */
  predicate AllEncodable(d: Dialect, fs: seq<Finding>) {
    forall i :: 0 <= i < |fs| ==> Encodable(d, fs[i])
  }

  lemma AllEncodableRest(d: Dialect, fs: seq<Finding>)
    requires |fs| > 0 && AllEncodable(d, fs)
    ensures Encodable(d, fs[0]) && AllEncodable(d, fs[1..])
  {
    assert forall i :: 0 <= i < |fs[1..]| ==> fs[1..][i] == fs[i + 1];
  }

  /** Field names are non-empty, colon- and newline-free, and start with a
      letter. */
  lemma FieldNameChars(f: Field)
    ensures |FieldName(f)| > 0 && IsLowerLetter(FieldName(f)[0])
    ensures ':' !in FieldName(f) && '\n' !in FieldName(f)
  {
  }

  /** Distinct fields have distinct names. */
  lemma FieldNameInjective(f: Field, g: Field)
    ensures f != g ==> FieldName(f) != FieldName(g)
  {
  }

  /** Two colon-free names both followed by ':' at the start of a line are equal. */
  lemma ColonPrefixesAgree(line: string, n1: string, n2: string)
    requires ':' !in n1 && ':' !in n2
    requires StartsWith(line, n1 + ":") && StartsWith(line, n2 + ":")
    ensures n1 == n2
  {
    assert forall i :: 0 <= i < |n1| ==> line[i] == n1[i];
    assert forall i :: 0 <= i < |n2| ==> line[i] == n2[i];
    assert line[|n1|] == ':' && line[|n2|] == ':';
    assert n1 == line[..|n1|] && n2 == line[..|n2|];
  }

  /** The rendered line of `f` carries no other field's prefix. */
  lemma PrefixUnique(line: string, f: Field, g: Field)
    requires StartsWith(line, "- " + FieldName(f) + ":")
    requires IsFieldLine(line, g)
    ensures f == g
  {
    FieldNameChars(f);
    FieldNameChars(g);
    FieldNameInjective(f, g);
    var n1, n2 := FieldName(f), FieldName(g);
    assert line[0] == '-';
    assert !StartsWith(line, n2 + ":") by {
      assert (n2 + ":")[0] == n2[0];
    }
    assert StartsWith(line, "- " + n2 + ":");
    assert "- " + n1 + ":" == "- " + (n1 + ":") && "- " + n2 + ":" == "- " + (n2 + ":");
    StartsWithRest(line, "- ", n1 + ":");
    StartsWithRest(line, "- ", n2 + ":");
    ColonPrefixesAgree(line[2..], n1, n2);
  }

  lemma {:induction false} MatchFieldFinds(fields: seq<Field>, line: string, f: Field)
    requires f in fields && IsFieldLine(line, f)
    requires forall g :: g in fields && g != f ==> !IsFieldLine(line, g)
    ensures MatchField(fields, line) == Some(f)
    decreases |fields|
  {
    if fields[0] != f {
      MatchFieldFinds(fields[1..], line, f);
    }
  }

  /** A rendered field line is its own strip and carries its field's prefix. */
  lemma RenderFieldShape(f: Field, v: string)
    requires Clean(v)
    ensures Strip(RenderField(f, v)) == RenderField(f, v)
    ensures StartsWith(RenderField(f, v), "- " + FieldName(f) + ":")
    ensures !StartsWith(RenderField(f, v), "#")
    ensures '\n' !in RenderField(f, v)
  {
    var line := RenderField(f, v);
    var p := "- " + FieldName(f) + ":";
    FieldNameChars(f);
    assert line == p + (if v == "" then "" else " " + v);
    StripUnpadded(line);
    assert line[0] == '-';
  }

  /** The text after the first ':' of a rendered field line, stripped, is the value. */
  lemma RenderFieldValue(f: Field, v: string)
    requires Clean(v)
    ensures ':' in RenderField(f, v) && FieldValue(RenderField(f, v)) == v
  {
    var line := RenderField(f, v);
    var p := "- " + FieldName(f) + ":";
    FieldNameChars(f);
    assert line == p + (if v == "" then "" else " " + v);
    assert p[..|p| - 1] == "- " + FieldName(f);
    AfterFirstPrefix(line, p, ':');
    assert line[|p|..] == (if v == "" then "" else " " + v);
    if v != "" {
      StripAfterBlank(v);
    }
  }

  /** A rendered field line matches its own field and no other. */
  lemma RenderFieldMatch(fields: seq<Field>, f: Field, v: string)
    requires f in fields && Clean(v)
    ensures MatchField(fields, RenderField(f, v)) == Some(f)
  {
    var line := RenderField(f, v);
    RenderFieldShape(f, v);
    forall g | g in fields && g != f
      ensures !IsFieldLine(line, g)
    {
      if IsFieldLine(line, g) {
        PrefixUnique(line, f, g);
      }
    }
    MatchFieldFinds(fields, line, f);
  }

  /** A rendered field line is classified as that field with that value. */
  lemma RenderFieldKind(d: Dialect, f: Field, v: string)
    requires f in d.fields && Clean(v)
    requires !EntersSection(d, Upper(RenderField(f, v)))
    ensures Kind(d, RenderField(f, v)) == FieldLine(f, v)
  {
    RenderFieldShape(f, v);
    RenderFieldMatch(d.fields, f, v);
    RenderFieldValue(f, v);
  }

  /** The line kinds of `x`'s fields listed in `order`. */
  function FieldKinds(x: Finding, order: seq<Field>): (r: seq<LineKind>)
    ensures |r| == |order|
    ensures forall i :: 0 <= i < |order| ==> r[i] == FieldLine(order[i], FieldOf(x, order[i]))
    decreases |order|
  {
    if |order| == 0 then [] else [FieldLine(order[0], FieldOf(x, order[0]))] + FieldKinds(x, order[1..])
  }

  /** `m` with the fields in `order` set to `x`'s values, left to right. */
  function Overlay(m: Record, x: Finding, order: seq<Field>): Record
    decreases |order|
  {
    if |order| == 0 then m else Overlay(m[order[0] := FieldOf(x, order[0])], x, order[1..])
  }

  /** Every value recorded is `x`'s value for that field. */
  predicate Agrees(m: Record, x: Finding) {
    forall f :: f in m ==> m[f] == FieldOf(x, f)
  }

  lemma {:induction false} OverlayContents(m: Record, x: Finding, order: seq<Field>)
    requires Agrees(m, x)
    ensures Agrees(Overlay(m, x, order), x)
    ensures forall f :: f in Overlay(m, x, order) <==> f in m || f in order
    decreases |order|
  {
    if |order| > 0 {
      OverlayContents(m[order[0] := FieldOf(x, order[0])], x, order[1..]);
    }
  }

  /** Non-id field lines inside the section only set fields of the pending record. */
  lemma {:induction false} ScanFieldLines(st: ScanState, x: Finding, order: seq<Field>)
    requires st.inSection
    requires forall i :: 0 <= i < |order| ==> order[i] != Id
    ensures Scan(st, FieldKinds(x, order)) == st.(current := Overlay(st.current, x, order))
    decreases |order|
  {
    if |order| > 0 {
      var kinds := FieldKinds(x, order);
      assert kinds[1..] == FieldKinds(x, order[1..]);
      ScanFieldLines(Step(st, kinds[0]), x, order[1..]);
    }
  }

  /** The pending record a rendered finding leaves behind. */
  function RecordOf(d: Dialect, x: Finding): Record {
    Overlay(map[], x, RenderOrder(d))
  }

  lemma KindsOfFields(d: Dialect, x: Finding, order: seq<Field>)
    requires forall f :: f in order ==> f in d.fields && Clean(FieldOf(x, f))
    requires forall f :: f in order ==> !EntersSection(d, Upper(RenderField(f, FieldOf(x, f))))
    ensures Kinds(d, RenderFields(x, order)) == FieldKinds(x, order)
  {
    var lines := RenderFields(x, order);
    forall i | 0 <= i < |order|
      ensures Kinds(d, lines)[i] == FieldKinds(x, order)[i]
    {
      assert order[i] in order;
      KindAt(d, lines, i);
      RenderFieldKind(d, order[i], FieldOf(x, order[i]));
    }
  }

  lemma KindsOfFinding(d: Dialect, x: Finding)
    requires ReadsRendered(d) && Encodable(d, x)
    ensures Kinds(d, RenderFinding(d, x)) == FieldKinds(x, RenderOrder(d))
  {
    RenderOrderRead(d);
    KindsOfFields(d, x, RenderOrder(d));
  }

  /** A dialect that reads the rendered fields reads every field written. */
  lemma RenderOrderRead(d: Dialect)
    requires ReadsRendered(d)
    ensures forall f :: f in RenderOrder(d) ==> f in d.fields
  {
    var order := RenderOrder(d);
    forall f | f in order
      ensures f in d.fields
    {
      var i :| 0 <= i < |order| && order[i] == f;
    }
  }

  /** An id line followed by other field lines, read inside the section,
      flushes the pending record and leaves the new one pending. */
  lemma ScanFindingKinds(st: ScanState, x: Finding, order: seq<Field>)
    requires st.inSection && |order| > 0 && order[0] == Id
    requires forall i :: 0 < i < |order| ==> order[i] != Id
    ensures Scan(st, FieldKinds(x, order)) == ScanState(true, Overlay(map[], x, order), Flushed(st))
  {
    var kinds := FieldKinds(x, order);
    assert kinds[1..] == FieldKinds(x, order[1..]);
    var st1 := ScanState(true, map[Id := x.id], Flushed(st));
    assert Step(st, kinds[0]) == st1;
    ScanFieldLines(st1, x, order[1..]);
  }

  /** Reading one rendered finding inside the section flushes the pending
      record and leaves the finding's record pending. */
  lemma ScanOneFinding(d: Dialect, st: ScanState, x: Finding)
    requires ReadsRendered(d) && Encodable(d, x) && st.inSection
    ensures Scan(st, Kinds(d, RenderFinding(d, x))) == ScanState(true, RecordOf(d, x), Flushed(st))
  {
    KindsOfFinding(d, x);
    ScanFindingKinds(st, x, RenderOrder(d));
  }

  function RecordsOf(d: Dialect, fs: seq<Finding>): (r: seq<Record>)
    ensures |r| == |fs|
  {
    seq(|fs|, i requires 0 <= i < |fs| => RecordOf(d, fs[i]))
  }

  lemma KindsAppend(d: Dialect, a: seq<string>, b: seq<string>)
    ensures Kinds(d, a + b) == Kinds(d, a) + Kinds(d, b)
  {
    MapLinesAppend(l => Kind(d, l), a, b);
  }

  lemma KindsJoin(d: Dialect, a: seq<string>, b: seq<string>, ka: seq<LineKind>, kb: seq<LineKind>)
    requires Kinds(d, a) == ka && Kinds(d, b) == kb
    ensures Kinds(d, a + b) == ka + kb
  {
    MapLinesJoin(l => Kind(d, l), a, b, ka, kb);
  }

  /** The line kinds of several findings' fields, one finding after another. */
  function FindingsKinds(order: seq<Field>, fs: seq<Finding>): seq<LineKind>
    decreases |fs|
  {
    if |fs| == 0 then [] else FieldKinds(fs[0], order) + FindingsKinds(order, fs[1..])
  }

  /** The pending records of findings rendered with the fields in `order`,
      one per finding. */
  function Overlays(order: seq<Field>, fs: seq<Finding>): (r: seq<Record>)
    ensures |r| == |fs|
    decreases |fs|
  {
    if |fs| == 0 then [] else [Overlay(map[], fs[0], order)] + Overlays(order, fs[1..])
  }

  lemma {:induction false} OverlaysAt(order: seq<Field>, fs: seq<Finding>, i: nat)
    requires i < |fs|
    ensures Overlays(order, fs)[i] == Overlay(map[], fs[i], order)
    decreases i
  {
    if i > 0 {
      OverlaysAt(order, fs[1..], i - 1);
    }
  }

  /** Inside the section, each finding's lines flush the previous record. */
  lemma {:induction false} ScanFindingsKinds(st: ScanState, order: seq<Field>, fs: seq<Finding>)
    requires st.inSection && |order| > 0 && order[0] == Id
    requires forall i :: 0 < i < |order| ==> order[i] != Id
    ensures Flushed(Scan(st, FindingsKinds(order, fs))) == Flushed(st) + Overlays(order, fs)
    decreases |fs|
  {
    if |fs| == 0 {
      assert Flushed(st) + [] == Flushed(st);
    } else {
      var k0, rest := FieldKinds(fs[0], order), FindingsKinds(order, fs[1..]);
      assert FindingsKinds(order, fs) == k0 + rest;
      ScanAppend(st, k0, rest);
      ScanFindingKinds(st, fs[0], order);
      var o := Overlay(map[], fs[0], order);
      var st1 := ScanState(true, o, Flushed(st));
      OverlayContents(map[], fs[0], order);
      assert Id in o;
      assert Flushed(st1) == Flushed(st) + [o];
      ScanFindingsKinds(st1, order, fs[1..]);
      assert Overlays(order, fs) == [o] + Overlays(order, fs[1..]);
      ConcatAssoc(Flushed(st), [o], Overlays(order, fs[1..]));
    }
  }

  lemma {:induction false} KindsOfAll(d: Dialect, fs: seq<Finding>)
    requires ReadsRendered(d)
    requires AllEncodable(d, fs)
    ensures Kinds(d, RenderAll(d, fs)) == FindingsKinds(RenderOrder(d), fs)
    decreases |fs|
  {
    if |fs| == 0 {
      assert Kinds(d, RenderAll(d, fs)) == [];
    } else {
      var order := RenderOrder(d);
      AllEncodableRest(d, fs);
      KindsOfFinding(d, fs[0]);
      KindsOfAll(d, fs[1..]);
      KindsJoin(d, RenderFinding(d, fs[0]), RenderAll(d, fs[1..]), FieldKinds(fs[0], order), FindingsKinds(order, fs[1..]));
      assert RenderAll(d, fs) == RenderFinding(d, fs[0]) + RenderAll(d, fs[1..]);
      assert FindingsKinds(order, fs) == FieldKinds(fs[0], order) + FindingsKinds(order, fs[1..]);
    }
  }

  lemma {:induction false} RenderAllLines(d: Dialect, fs: seq<Finding>)
    ensures forall k :: 0 <= k < |RenderAll(d, fs)| ==> '\n' !in RenderAll(d, fs)[k]
    requires AllEncodable(d, fs)
    decreases |fs|
  {
    if |fs| > 0 {
      AllEncodableRest(d, fs);
      RenderAllLines(d, fs[1..]);
      var a, b := RenderFinding(d, fs[0]), RenderAll(d, fs[1..]);
      assert RenderAll(d, fs) == a + b;
      forall k | 0 <= k < |a + b|
        ensures '\n' !in (a + b)[k]
      {
        if k < |a| {
          RenderFindingLine(d, fs[0], k);
        } else {
          assert (a + b)[k] == b[k - |a|];
        }
      }
    }
  }

  /** Each rendered line of an encodable finding is a single line. */
  lemma RenderFindingLine(d: Dialect, x: Finding, k: nat)
    requires Encodable(d, x) && k < |RenderFinding(d, x)|
    ensures '\n' !in RenderFinding(d, x)[k]
  {
    var order := RenderOrder(d);
    assert order[k] in order;
    RenderFieldShape(order[k], FieldOf(x, order[k]));
  }

  /** The finding `_create_finding` builds from a rendered record is the
      rendered finding. */
  lemma CreateRecordOf(d: Dialect, x: Finding, index: nat)
    requires FixCode !in d.fields ==> x.fixCode == ""
    ensures CreateFinding(d, RecordOf(d, x), index) == x
  {
    var order := RenderOrder(d);
    var rec := RecordOf(d, x);
    OverlayContents(map[], x, order);
    assert Id in order && Severity in order && Location in order && Problem in order;
    assert FixInstruction in order && FixAgent in order;
    assert rec[Id] == x.id && rec[Severity] == x.severity && rec[Location] == x.location;
    assert rec[Problem] == x.problem && rec[FixInstruction] == x.fixInstruction;
    assert rec[FixAgent] == x.fixAgent;
    if FixCode in d.fields {
      assert FixCode in order;
      assert rec[FixCode] == x.fixCode;
    } else {
      assert FixCode !in rec;
    }
  }

  /** The rendered response splits back into the heading and the field lines. */
  lemma LinesOfRendered(d: Dialect, pre: seq<string>, fs: seq<Finding>)
    requires Preamble(d, pre)
    requires AllEncodable(d, fs)
    ensures Lines(RenderFindings(d, pre, fs)) == pre + [Header] + RenderAll(d, fs)
  {
    var lines := pre + [Header] + RenderAll(d, fs);
    RenderAllLines(d, fs);
    assert forall k :: 0 <= k < |lines| ==> '\n' !in lines[k] by {
      forall k | 0 <= k < |lines|
        ensures '\n' !in lines[k]
      {
        if k < |pre| {
          assert lines[k] == pre[k];
        } else if k > |pre| {
          assert lines[k] == RenderAll(d, fs)[k - |pre| - 1];
        }
      }
    }
    SplitOnJoin(lines, '\n');
  }

  /** Lines before the first trigger line leave the scan where it started. */
  lemma {:induction false} PreambleIgnored(kinds: seq<LineKind>)
    requires Trigger !in kinds
    ensures Scan(Initial, kinds) == Initial
    decreases |kinds|
  {
    if |kinds| > 0 {
      assert Step(Initial, kinds[0]) == Initial;
      assert Trigger !in kinds[1..];
      PreambleIgnored(kinds[1..]);
    }
  }

  lemma PreambleKinds(d: Dialect, pre: seq<string>)
    requires Preamble(d, pre)
    ensures Trigger !in Kinds(d, pre)
  {
    forall k | 0 <= k < |pre|
      ensures Kinds(d, pre)[k] != Trigger
    {
      KindAt(d, pre, k);
    }
  }

  /** The kinds of the lines of a rendered response. */
  lemma KindsOfRendered(d: Dialect, pre: seq<string>, fs: seq<Finding>)
    requires Readable(d)
    requires AllEncodable(d, fs)
    ensures Kinds(d, pre + [Header] + RenderAll(d, fs)) ==
      Kinds(d, pre) + ([Trigger] + FindingsKinds(RenderOrder(d), fs))
  {
    var kp, kf := Kinds(d, pre), FindingsKinds(RenderOrder(d), fs);
    HeaderKind(d);
    KindsOfAll(d, fs);
    KindsJoin(d, pre, [Header], kp, [Trigger]);
    KindsJoin(d, pre + [Header], RenderAll(d, fs), kp + [Trigger], kf);
    assert (kp + [Trigger]) + kf == kp + ([Trigger] + kf);
  }

  /** A preamble without trigger lines, the heading and rendered findings
      scan to the findings' records. */
  lemma ScanReport(pk: seq<LineKind>, order: seq<Field>, fs: seq<Finding>)
    requires Trigger !in pk
    requires |order| > 0 && order[0] == Id
    requires forall i :: 0 < i < |order| ==> order[i] != Id
    ensures Flushed(Scan(Initial, pk + ([Trigger] + FindingsKinds(order, fs)))) == Overlays(order, fs)
  {
    var fk := FindingsKinds(order, fs);
    ScanAppend(Initial, pk, [Trigger] + fk);
    PreambleIgnored(pk);
    var st := ScanState(true, map[], []);
    assert Step(Initial, Trigger) == st;
    assert ([Trigger] + fk)[1..] == fk;
    ScanFindingsKinds(st, order, fs);
  }

  /** The records scanned from a rendered response are the findings' records. */
  lemma RecordsOfRendered(d: Dialect, pre: seq<string>, fs: seq<Finding>)
    requires Readable(d) && Preamble(d, pre)
    requires AllEncodable(d, fs)
    ensures Records(d, RenderFindings(d, pre, fs)) == RecordsOf(d, fs)
  {
    LinesOfRendered(d, pre, fs);
    KindsOfRendered(d, pre, fs);
    PreambleKinds(d, pre);
    ScanReport(Kinds(d, pre), RenderOrder(d), fs);
    forall i | 0 <= i < |fs|
      ensures Overlays(RenderOrder(d), fs)[i] == RecordsOf(d, fs)[i]
    {
      OverlaysAt(RenderOrder(d), fs, i);
    }
  }

  /** No line of the response holds a trigger word. */
  predicate Untriggered(d: Dialect, text: string) {
    forall k :: 0 <= k < |Lines(text)| ==> !EntersSection(d, Upper(Strip(Lines(text)[k])))
  }

  /** A response without any trigger line yields no records. */
  lemma NoTriggerNoRecords(d: Dialect, text: string)
    ensures Untriggered(d, text) ==> Records(d, text) == []
  {
    if Untriggered(d, text) {
      var kinds := Kinds(d, Lines(text));
      assert Trigger !in kinds by {
        forall k | 0 <= k < |kinds|
          ensures kinds[k] != Trigger
        {
          KindAt(d, Lines(text), k);
        }
      }
      PreambleIgnored(kinds);
    }
  }

  /** Reading back rendered findings recovers them exactly, in order, whatever
      section-free lines precede them. */
  lemma RoundTrip(d: Dialect, pre: seq<string>, fs: seq<Finding>)
    requires Readable(d) && Preamble(d, pre)
    requires AllEncodable(d, fs)
    ensures ParseFindings(d, RenderFindings(d, pre, fs)) == fs
  {
    RecordsOfRendered(d, pre, fs);
    var recs := Records(d, RenderFindings(d, pre, fs));
    forall i | 0 <= i < |fs|
      ensures CreateFinding(d, recs[i], i) == fs[i]
    {
      CreateRecordOf(d, fs[i], i);
    }
  }

  /** A report that opens with the fix marker and then lists findings under
      the heading is flagged and reads back as those findings, for every
      dialect whose triggers all contain an 'S' (FINDINGS and ISSUES do). */
  lemma FlaggedReport(d: Dialect, fs: seq<Finding>)
    requires Readable(d)
    requires forall j :: 0 <= j < |d.triggers| ==> 'S' in d.triggers[j]
    requires AllEncodable(d, fs)
    ensures Mentions(RenderFindings(d, [FixFlag], fs), FixFlag)
    ensures ParseFindings(d, RenderFindings(d, [FixFlag], fs)) == fs
  {
    FixFlagShape();
    forall j | 0 <= j < |d.triggers|
      ensures Silent([FixFlag], d.triggers[j])
    {
      CapsLineSilent(FixFlag, d.triggers[j], 'S');
    }
    SilentPreamble(d, [FixFlag]);
    RoundTrip(d, [FixFlag], fs);
    FlagLineMentioned([FixFlag] + [Header] + RenderAll(d, fs));
  }
}
