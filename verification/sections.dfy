/** The section readers the agents use besides the findings scanner: bulleted
    lists under a named heading (`_parse_section` of the QA, UI-review and
    debugger agents, and the reviewer's suggestions loop) and the debugger's
    free-text section (`_parse_single_section`). */
module Sections {
  import opened Text
  import opened AgentIO

  /** What a line is to a bulleted-section reader. */
  datatype BulletLine =
    | Opener              // names the section (case-insensitively)
    | Closer              // starts with `#`
    | Bullet(text: string) // a list item, marker removed
    | Ignored

  /** The classification `_parse_section` applies to each stripped line.
      With `numbered` (the debugger's variant) a line starting `1.` is an item
      too, holding the stripped text after its first '.'. */
  function BulletKind(name: string, numbered: bool, raw: string): BulletLine {
    var s := Strip(raw);
    if Contains(Upper(s), Upper(name)) then Opener
    else if StartsWith(s, "#") then Closer
    else if StartsWith(s, "- ") then Bullet(s[2..])
    else if numbered && StartsWith(s, "1.") then Bullet(NumberedText(s))
    else Ignored
  }

  /** The stripped text after the first '.' of a line starting `1.`. */
  function NumberedText(s: string): string
    requires StartsWith(s, "1.")
  {
    assert s[1] == '.';
    Strip(AfterFirst(s, '.'))
  }

  /** The items collected from classified lines, given whether the section is open. */
  function CollectBullets(inSection: bool, kinds: seq<BulletLine>): seq<string>
    decreases |kinds|
  {
    if |kinds| == 0 then []
    else
      match kinds[0]
      case Opener => CollectBullets(true, kinds[1..])
      case Closer => CollectBullets(false, kinds[1..])
      case Bullet(t) => (if inSection then [t] else []) + CollectBullets(inSection, kinds[1..])
      case Ignored => CollectBullets(inSection, kinds[1..])
  }

  /** The classification of each line, in order. */
  function BulletKinds(name: string, numbered: bool, lines: seq<string>): (r: seq<BulletLine>)
    ensures |r| == |lines|
  {
    MapLines(l => BulletKind(name, numbered, l), lines)
  }

  /** `_parse_section(response, name)` */
  function ParseBullets(text: string, name: string, numbered: bool): seq<string> {
    CollectBullets(false, BulletKinds(name, numbered, Lines(text)))
  }

  /** Every item collected comes from an item line. */
  lemma {:induction false} CollectedAreBullets(inSection: bool, kinds: seq<BulletLine>)
    ensures forall t :: t in CollectBullets(inSection, kinds) ==> Bullet(t) in kinds
    decreases |kinds|
  {
    if |kinds| > 0 {
      CollectedAreBullets(if kinds[0].Opener? then true else if kinds[0].Closer? then false else inSection, kinds[1..]);
    }
  }

  /** Before any opener nothing is collected. */
  lemma {:induction false} NoOpenerNoBullets(kinds: seq<BulletLine>)
    requires Opener !in kinds
    ensures CollectBullets(false, kinds) == []
    decreases |kinds|
  {
    if |kinds| > 0 {
      assert kinds[0] != Opener;
      assert Opener !in kinds[1..];
      NoOpenerNoBullets(kinds[1..]);
    }
  }

  /** None of the lines names the section `name`. */
  predicate Unnamed(name: string, lines: seq<string>) {
    forall k :: 0 <= k < |lines| ==> !Contains(Upper(Strip(lines[k])), Upper(name))
  }

  /** A line that ends whatever section is open: a heading. */
  predicate ClosesSection(line: string) {
    StartsWith(Strip(line), "#")
  }

  /** A line that does not name the section is no opener; a heading is a closer. */
  lemma UnnamedLineKind(name: string, numbered: bool, line: string)
    requires !Contains(Upper(Strip(line)), Upper(name))
    ensures BulletKind(name, numbered, line) != Opener
    ensures ClosesSection(line) ==> BulletKind(name, numbered, line) == Closer
  {
  }

  /** Lines that do not name the section are never openers; a heading among
      them is a closer. */
  lemma UnnamedKinds(name: string, numbered: bool, lines: seq<string>)
    requires Unnamed(name, lines)
    ensures Opener !in BulletKinds(name, numbered, lines)
    ensures |lines| > 0 && ClosesSection(lines[0]) ==> BulletKinds(name, numbered, lines)[0] == Closer
  {
    var kinds := BulletKinds(name, numbered, lines);
    forall k | 0 <= k < |lines|
      ensures kinds[k] != Opener
      ensures k == 0 && ClosesSection(lines[0]) ==> kinds[0] == Closer
    {
      MapLinesAt(l => BulletKind(name, numbered, l), lines, k);
      UnnamedLineKind(name, numbered, lines[k]);
    }
  }

  /** Lines that do not mention the upper-cased name do not name the section. */
  lemma SilentUnnamed(name: string, lines: seq<string>)
    requires Silent(lines, Upper(name))
    ensures Unnamed(name, lines)
  {
    forall k | 0 <= k < |lines|
      ensures !Contains(Upper(Strip(lines[k])), Upper(name))
    {
      if Contains(Upper(Strip(lines[k])), Upper(name)) {
        MentionsStripped(lines[k], Upper(name));
      }
    }
  }

  /** A response in which no line names the section yields no items. */
  lemma UnnamedSectionEmpty(text: string, name: string, numbered: bool)
    requires Unnamed(name, Lines(text))
    ensures ParseBullets(text, name, numbered) == []
  {
    UnnamedKinds(name, numbered, Lines(text));
    NoOpenerNoBullets(BulletKinds(name, numbered, Lines(text)));
  }

  /** A heading line `### name` for an unpadded non-empty name opens the section. */
  lemma HeadingOpens(name: string, numbered: bool)
    requires |name| > 0 && Unpadded(name)
    ensures BulletKind(name, numbered, "### " + name) == Opener
  {
    StripUnpadded("### " + name);
    ContainsUpperSuffix("### ", name);
  }

  /** An item that reads back as itself: one non-empty unpadded line whose
      bullet line does not name the section. */
  predicate BulletItem(name: string, item: string) {
    && |item| > 0 && Unpadded(item) && '\n' !in item
    && !Contains(Upper("- " + item), Upper(name))
  }

  lemma BulletLineKind(name: string, numbered: bool, item: string)
    requires BulletItem(name, item)
    ensures BulletKind(name, numbered, "- " + item) == Bullet(item)
  {
    var line := "- " + item;
    StripUnpadded(line);
    assert StartsWith(line, "- ");
    assert line[2..] == item;
  }

  /** One `- ` line per item. */
  function ItemLines(items: seq<string>): (r: seq<string>)
    ensures |r| == |items|
    ensures forall k :: 0 <= k < |items| ==> r[k] == "- " + items[k]
    decreases |items|
  {
    if |items| == 0 then [] else ["- " + items[0]] + ItemLines(items[1..])
  }

  /** The lines of a bulleted section: a heading, then one `- ` line per item. */
  function BulletSection(name: string, items: seq<string>): seq<string> {
    ["### " + name] + ItemLines(items)
  }

  /** A response that is just one bulleted section. */
  function RenderBullets(name: string, items: seq<string>): string {
    Join(BulletSection(name, items), "\n")
  }

  /** The classification of a run of item lines. */
  function BulletRun(items: seq<string>): (r: seq<BulletLine>)
    ensures |r| == |items|
    decreases |items|
  {
    if |items| == 0 then [] else [Bullet(items[0])] + BulletRun(items[1..])
  }

  lemma BulletKindsAppend(name: string, numbered: bool, a: seq<string>, b: seq<string>)
    ensures BulletKinds(name, numbered, a + b) == BulletKinds(name, numbered, a) + BulletKinds(name, numbered, b)
  {
    MapLinesAppend(l => BulletKind(name, numbered, l), a, b);
  }

  lemma BulletKindsJoin(name: string, numbered: bool, a: seq<string>, b: seq<string>, ka: seq<BulletLine>, kb: seq<BulletLine>)
    requires BulletKinds(name, numbered, a) == ka && BulletKinds(name, numbered, b) == kb
    ensures BulletKinds(name, numbered, a + b) == ka + kb
  {
    MapLinesJoin(l => BulletKind(name, numbered, l), a, b, ka, kb);
  }

  lemma HeadingKinds(name: string, numbered: bool)
    requires |name| > 0 && Unpadded(name)
    ensures BulletKinds(name, numbered, ["### " + name]) == [Opener]
  {
    HeadingOpens(name, numbered);
    MapLinesAt(l => BulletKind(name, numbered, l), ["### " + name], 0);
  }

  lemma {:induction false} BulletRunAt(items: seq<string>, k: nat)
    requires k < |items|
    ensures BulletRun(items)[k] == Bullet(items[k])
    decreases k
  {
    if k > 0 {
      BulletRunAt(items[1..], k - 1);
    }
  }

  lemma ItemKinds(name: string, numbered: bool, items: seq<string>)
    requires forall i :: 0 <= i < |items| ==> BulletItem(name, items[i])
    ensures BulletKinds(name, numbered, ItemLines(items)) == BulletRun(items)
  {
    var lines := ItemLines(items);
    forall k | 0 <= k < |items|
      ensures BulletKinds(name, numbered, lines)[k] == BulletRun(items)[k]
    {
      MapLinesAt(l => BulletKind(name, numbered, l), lines, k);
      BulletLineKind(name, numbered, items[k]);
      BulletRunAt(items, k);
    }
  }

  lemma KindsOfSection(name: string, numbered: bool, items: seq<string>)
    requires |name| > 0 && Unpadded(name)
    requires forall i :: 0 <= i < |items| ==> BulletItem(name, items[i])
    ensures BulletKinds(name, numbered, BulletSection(name, items)) == [Opener] + BulletRun(items)
  {
    HeadingKinds(name, numbered);
    ItemKinds(name, numbered, items);
    BulletKindsJoin(name, numbered, ["### " + name], ItemLines(items), [Opener], BulletRun(items));
  }

  /** Lines that open nothing leave a closed reader closed. */
  lemma {:induction false} ClosedPrefix(a: seq<BulletLine>, b: seq<BulletLine>)
    requires Opener !in a
    ensures CollectBullets(false, a + b) == CollectBullets(false, b)
    decreases |a|
  {
    if |a| == 0 {
      assert a + b == b;
    } else {
      assert (a + b)[0] == a[0] && (a + b)[1..] == a[1..] + b;
      assert Opener !in a[1..];
      ClosedPrefix(a[1..], b);
    }
  }

  /** An open reader collects a run of items in order. */
  lemma {:induction false} OpenRun(items: seq<string>, rest: seq<BulletLine>)
    ensures CollectBullets(true, BulletRun(items) + rest) == items + CollectBullets(true, rest)
    decreases |items|
  {
    var k := BulletRun(items) + rest;
    if |items| == 0 {
      assert k == rest;
    } else {
      assert k[0] == Bullet(items[0]);
      assert k[1..] == BulletRun(items[1..]) + rest;
      calc {
        CollectBullets(true, k);
        [items[0]] + CollectBullets(true, BulletRun(items[1..]) + rest);
        { OpenRun(items[1..], rest); }
        [items[0]] + (items[1..] + CollectBullets(true, rest));
        { assert items == [items[0]] + items[1..]; }
        items + CollectBullets(true, rest);
      }
    }
  }

  /** The concatenated lines of a response split back into the same lines. */
  lemma LinesAround(before: seq<string>, mid: seq<string>, after: seq<string>)
    requires |mid| > 0 && NoBreaks(before) && NoBreaks(mid) && NoBreaks(after)
    ensures Lines(Join(before + mid + after, "\n")) == before + mid + after
  {
    NoBreaksAppend(before, mid);
    NoBreaksAppend(before + mid, after);
    LinesOfJoin(before + mid + after);
  }

  /** Single lines none of which names the section `name`. */
  predicate Quiet(name: string, lines: seq<string>) {
    NoBreaks(lines) && Unnamed(name, lines)
  }

  /** The lines of a section never hold a line break. */
  lemma BulletSectionLines(name: string, items: seq<string>)
    requires '\n' !in name
    requires forall i :: 0 <= i < |items| ==> BulletItem(name, items[i])
    ensures |BulletSection(name, items)| > 0
    ensures NoBreaks(BulletSection(name, items))
  {
    var mid := BulletSection(name, items);
    forall k | 0 <= k < |mid|
      ensures '\n' !in mid[k]
    {
      if k > 0 {
        assert mid[k] == "- " + items[k - 1];
      }
    }
  }

  /** The classified lines of a bulleted section between other lines. */
  lemma SectionKinds(name: string, numbered: bool, before: seq<string>, mid: seq<string>, after: seq<string>, items: seq<string>)
    requires BulletKinds(name, numbered, mid) == [Opener] + BulletRun(items)
    ensures BulletKinds(name, numbered, before + mid + after) ==
      BulletKinds(name, numbered, before) + ([Opener] + (BulletRun(items) + BulletKinds(name, numbered, after)))
  {
    MapLinesAmid(l => BulletKind(name, numbered, l), before, mid, after);
  }

  /** A closed reader meeting lines that open nothing, then an opener and a
      run of items, then a closer or the end, collects exactly the run. */
  lemma CollectAmid(kb: seq<BulletLine>, items: seq<string>, ka: seq<BulletLine>)
    requires Opener !in kb && Opener !in ka
    requires |ka| > 0 ==> ka[0] == Closer
    ensures CollectBullets(false, kb + ([Opener] + (BulletRun(items) + ka))) == items
  {
    ClosedPrefix(kb, [Opener] + (BulletRun(items) + ka));
    OpenRun(items, ka);
    if |ka| > 0 {
      NoOpenerNoBullets(ka[1..]);
    } else {
      assert items + [] == items;
    }
  }

  /** A bulleted section reads back as its items in order, wherever it stands
      among lines that do not name it, provided a heading (or the end of the
      response) follows it. */
  lemma SectionAmid(name: string, numbered: bool, before: seq<string>, items: seq<string>, after: seq<string>)
    requires |name| > 0 && Unpadded(name) && '\n' !in name
    requires forall i :: 0 <= i < |items| ==> BulletItem(name, items[i])
    requires Quiet(name, before) && Quiet(name, after)
    requires |after| > 0 ==> ClosesSection(after[0])
    ensures ParseBullets(Join(before + BulletSection(name, items) + after, "\n"), name, numbered) == items
  {
    var mid := BulletSection(name, items);
    var lines := before + mid + after;
    BulletSectionLines(name, items);
    LinesAround(before, mid, after);
    var kb := BulletKinds(name, numbered, before);
    var ka := BulletKinds(name, numbered, after);
    KindsOfSection(name, numbered, items);
    SectionKinds(name, numbered, before, mid, after, items);
    UnnamedKinds(name, numbered, before);
    UnnamedKinds(name, numbered, after);
    CollectAmid(kb, items, ka);
  }

  /** Reading back a rendered bulleted section recovers its items in order. */
  lemma BulletsRoundTrip(name: string, numbered: bool, items: seq<string>)
    requires |name| > 0 && Unpadded(name) && '\n' !in name
    requires forall i :: 0 <= i < |items| ==> BulletItem(name, items[i])
    ensures ParseBullets(RenderBullets(name, items), name, numbered) == items
  {
    SectionAmid(name, numbered, [], items, []);
    assert [] + BulletSection(name, items) + [] == BulletSection(name, items);
  }

  // ----- The debugger's free-text section -----

  /** What a line is to `_parse_single_section`. */
  datatype ProseLine =
    | ProseOpener          // names the section and contains '#'
    | ProseCloser          // starts with `#`
    | Prose(text: string)  // any other non-blank line, stripped
    | Blank

  function ProseKind(name: string, raw: string): ProseLine {
    var s := Strip(raw);
    if Contains(Upper(s), Upper(name)) && Contains(s, "#") then ProseOpener
    else if StartsWith(s, "#") then ProseCloser
    else if s != "" then Prose(s)
    else Blank
  }

  function CollectProse(inSection: bool, kinds: seq<ProseLine>): seq<string>
    decreases |kinds|
  {
    if |kinds| == 0 then []
    else
      match kinds[0]
      case ProseOpener => CollectProse(true, kinds[1..])
      case ProseCloser => CollectProse(false, kinds[1..])
      case Prose(t) => (if inSection then [t] else []) + CollectProse(inSection, kinds[1..])
      case Blank => CollectProse(inSection, kinds[1..])
  }

  function ProseKinds(name: string, lines: seq<string>): (r: seq<ProseLine>)
    ensures |r| == |lines|
  {
    MapLines(l => ProseKind(name, l), lines)
  }

  /** `_parse_single_section(response, name)`: the section's non-blank lines,
      stripped and joined with single blanks. */
  function ParseProse(text: string, name: string): string {
    Join(CollectProse(false, ProseKinds(name, Lines(text))), " ")
  }

  /** A paragraph line that reads back as itself: non-empty, unpadded, one
      line, and free of '#'. */
  predicate ProsePart(p: string) {
    |p| > 0 && Unpadded(p) && '\n' !in p && '#' !in p
  }

  /** The lines of a free-text section: a heading, then its paragraph lines. */
  function ProseSection(name: string, parts: seq<string>): seq<string> {
    ["## " + name] + parts
  }

  function ProseRun(parts: seq<string>): (r: seq<ProseLine>)
    ensures |r| == |parts|
    decreases |parts|
  {
    if |parts| == 0 then [] else [Prose(parts[0])] + ProseRun(parts[1..])
  }

  /** A heading `## name` for an unpadded non-empty name opens the prose section. */
  lemma ProseHeadingOpens(name: string)
    requires |name| > 0 && Unpadded(name)
    ensures ProseKind(name, "## " + name) == ProseOpener
  {
    var h := "## " + name;
    StripUnpadded(h);
    ContainsUpperSuffix("## ", name);
    assert StartsWith(h, "#");
  }

  lemma ProsePartKind(name: string, p: string)
    requires ProsePart(p)
    ensures ProseKind(name, p) == Prose(p)
  {
    StripUnpadded(p);
    MissingCharNotContained(p, "#", '#');
    assert !StartsWith(p, "#") by {
      assert p[0] in p;
    }
  }

  lemma ProseKindsAppend(name: string, a: seq<string>, b: seq<string>)
    ensures ProseKinds(name, a + b) == ProseKinds(name, a) + ProseKinds(name, b)
  {
    MapLinesAppend(l => ProseKind(name, l), a, b);
  }

  lemma ProseKindsJoin(name: string, a: seq<string>, b: seq<string>, ka: seq<ProseLine>, kb: seq<ProseLine>)
    requires ProseKinds(name, a) == ka && ProseKinds(name, b) == kb
    ensures ProseKinds(name, a + b) == ka + kb
  {
    MapLinesJoin(l => ProseKind(name, l), a, b, ka, kb);
  }

  lemma ProseHeadingKinds(name: string)
    requires |name| > 0 && Unpadded(name)
    ensures ProseKinds(name, ["## " + name]) == [ProseOpener]
  {
    ProseHeadingOpens(name);
    MapLinesAt(l => ProseKind(name, l), ["## " + name], 0);
  }

  lemma {:induction false} PartKinds(name: string, parts: seq<string>)
    requires forall i :: 0 <= i < |parts| ==> ProsePart(parts[i])
    ensures ProseKinds(name, parts) == ProseRun(parts)
    decreases |parts|
  {
    if |parts| > 0 {
      ProsePartKind(name, parts[0]);
      PartKinds(name, parts[1..]);
    }
  }

  lemma KindsOfProseSection(name: string, parts: seq<string>)
    requires |name| > 0 && Unpadded(name)
    requires forall i :: 0 <= i < |parts| ==> ProsePart(parts[i])
    ensures ProseKinds(name, ProseSection(name, parts)) == [ProseOpener] + ProseRun(parts)
  {
    ProseHeadingKinds(name);
    PartKinds(name, parts);
    ProseKindsJoin(name, ["## " + name], parts, [ProseOpener], ProseRun(parts));
  }

  /** Lines that do not name the section never open it; a heading among them
      closes it. */
  lemma UnnamedProseLineKind(name: string, line: string)
    requires !Contains(Upper(Strip(line)), Upper(name))
    ensures ProseKind(name, line) != ProseOpener
    ensures ClosesSection(line) ==> ProseKind(name, line) == ProseCloser
  {
  }

  lemma UnnamedProseKinds(name: string, lines: seq<string>)
    requires Unnamed(name, lines)
    ensures ProseOpener !in ProseKinds(name, lines)
    ensures |lines| > 0 && ClosesSection(lines[0]) ==> ProseKinds(name, lines)[0] == ProseCloser
  {
    var kinds := ProseKinds(name, lines);
    forall k | 0 <= k < |lines|
      ensures kinds[k] != ProseOpener
      ensures k == 0 && ClosesSection(lines[0]) ==> kinds[0] == ProseCloser
    {
      MapLinesAt(l => ProseKind(name, l), lines, k);
      UnnamedProseLineKind(name, lines[k]);
    }
  }

  lemma {:induction false} ProseClosedPrefix(a: seq<ProseLine>, b: seq<ProseLine>)
    requires ProseOpener !in a
    ensures CollectProse(false, a + b) == CollectProse(false, b)
    decreases |a|
  {
    if |a| == 0 {
      assert a + b == b;
    } else {
      assert (a + b)[0] == a[0] && (a + b)[1..] == a[1..] + b;
      assert ProseOpener !in a[1..];
      ProseClosedPrefix(a[1..], b);
    }
  }

  lemma {:induction false} ProseOpenRun(parts: seq<string>, rest: seq<ProseLine>)
    ensures CollectProse(true, ProseRun(parts) + rest) == parts + CollectProse(true, rest)
    decreases |parts|
  {
    var k := ProseRun(parts) + rest;
    if |parts| == 0 {
      assert k == rest;
    } else {
      assert k[0] == Prose(parts[0]);
      assert k[1..] == ProseRun(parts[1..]) + rest;
      calc {
        CollectProse(true, k);
        [parts[0]] + CollectProse(true, ProseRun(parts[1..]) + rest);
        { ProseOpenRun(parts[1..], rest); }
        [parts[0]] + (parts[1..] + CollectProse(true, rest));
        { assert parts == [parts[0]] + parts[1..]; }
        parts + CollectProse(true, rest);
      }
    }
  }

  lemma {:induction false} NoProseOpener(kinds: seq<ProseLine>)
    requires ProseOpener !in kinds
    ensures CollectProse(false, kinds) == []
    decreases |kinds|
  {
    if |kinds| > 0 {
      assert ProseOpener !in kinds[1..];
      NoProseOpener(kinds[1..]);
    }
  }

  /** The lines of a section never hold a line break. */
  lemma ProseSectionLines(name: string, parts: seq<string>)
    requires '\n' !in name
    requires forall i :: 0 <= i < |parts| ==> ProsePart(parts[i])
    ensures |ProseSection(name, parts)| > 0
    ensures NoBreaks(ProseSection(name, parts))
  {
    var mid := ProseSection(name, parts);
    forall k | 0 <= k < |mid|
      ensures '\n' !in mid[k]
    {
      if k > 0 {
        assert mid[k] == parts[k - 1];
      }
    }
  }

  lemma ProseSectionKinds(name: string, before: seq<string>, mid: seq<string>, after: seq<string>, parts: seq<string>)
    requires ProseKinds(name, mid) == [ProseOpener] + ProseRun(parts)
    ensures ProseKinds(name, before + mid + after) ==
      ProseKinds(name, before) + ([ProseOpener] + (ProseRun(parts) + ProseKinds(name, after)))
  {
    MapLinesAmid(l => ProseKind(name, l), before, mid, after);
  }

  lemma CollectProseAmid(kb: seq<ProseLine>, parts: seq<string>, ka: seq<ProseLine>)
    requires ProseOpener !in kb && ProseOpener !in ka
    requires |ka| > 0 ==> ka[0] == ProseCloser
    ensures CollectProse(false, kb + ([ProseOpener] + (ProseRun(parts) + ka))) == parts
  {
    ProseClosedPrefix(kb, [ProseOpener] + (ProseRun(parts) + ka));
    ProseOpenRun(parts, ka);
    if |ka| > 0 {
      NoProseOpener(ka[1..]);
    } else {
      assert parts + [] == parts;
    }
  }

  /** A free-text section reads back as its lines joined with blanks, wherever
      it stands among lines that do not name it, provided a heading (or the
      end of the response) follows it. */
  lemma ProseAmid(name: string, before: seq<string>, parts: seq<string>, after: seq<string>)
    requires |name| > 0 && Unpadded(name) && '\n' !in name
    requires forall i :: 0 <= i < |parts| ==> ProsePart(parts[i])
    requires Quiet(name, before) && Quiet(name, after)
    requires |after| > 0 ==> ClosesSection(after[0])
    ensures ParseProse(Join(before + ProseSection(name, parts) + after, "\n"), name) == Join(parts, " ")
  {
    var mid := ProseSection(name, parts);
    ProseSectionLines(name, parts);
    LinesAround(before, mid, after);
    var kb := ProseKinds(name, before);
    var ka := ProseKinds(name, after);
    KindsOfProseSection(name, parts);
    ProseSectionKinds(name, before, mid, after, parts);
    UnnamedProseKinds(name, before);
    UnnamedProseKinds(name, after);
    CollectProseAmid(kb, parts, ka);
  }

  /** Reading back a response that is one free-text section yields its lines
      joined with blanks. */
  lemma ProseRoundTrip(name: string, parts: seq<string>)
    requires |name| > 0 && Unpadded(name) && '\n' !in name
    requires forall i :: 0 <= i < |parts| ==> ProsePart(parts[i])
    ensures ParseProse(Join(ProseSection(name, parts), "\n"), name) == Join(parts, " ")
  {
    var lines := ProseSection(name, parts);
    assert [] + lines + [] == lines;
    ProseAmid(name, [], parts, []);
  }
}
