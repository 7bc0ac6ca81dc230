/** The string operations the Python source relies on (`str.strip`, `str.upper`,
    `str.lower`, `in`, `startswith`, `split`, slicing, `str.join`, `%03d`, `int`),
    restricted to ASCII: upper/lower-casing changes only `a`-`z`/`A`-`Z`, and
    whitespace and digits are the ASCII ones. */
module Text {

  /** Python's `str.isspace()` on ASCII: tab, newline, vertical tab, form feed,
      carriage return, the separators 0x1C-0x1F, and space. */
  predicate IsSpace(c: char) {
    c == ' ' || (9 <= c as int <= 13) || (28 <= c as int <= 31)
  }

  predicate IsDigit(c: char) {
    '0' <= c <= '9'
  }

  predicate IsLowerLetter(c: char) {
    'a' <= c <= 'z'
  }

  predicate IsUpperLetter(c: char) {
    'A' <= c <= 'Z'
  }

  function UpperChar(c: char): char {
    if IsLowerLetter(c) then (c as int - 32) as char else c
  }

  function LowerChar(c: char): char {
    if IsUpperLetter(c) then (c as int + 32) as char else c
  }

  /** `s.upper()` */
  function Upper(s: string): (r: string)
    ensures |r| == |s|
    ensures forall i :: 0 <= i < |s| ==> r[i] == UpperChar(s[i])
  {
    seq(|s|, i requires 0 <= i < |s| => UpperChar(s[i]))
  }

  /** `s.lower()` */
  function Lower(s: string): (r: string)
    ensures |r| == |s|
    ensures forall i :: 0 <= i < |s| ==> r[i] == LowerChar(s[i])
  {
    seq(|s|, i requires 0 <= i < |s| => LowerChar(s[i]))
  }

  /** Upper-casing is idempotent: no character of an upper-cased string is a
      lower-case letter any more. */
  lemma UpperIdempotent(s: string)
    ensures Upper(Upper(s)) == Upper(s)
  {
  }

  /** Upper-casing distributes over concatenation. */
  lemma UpperAppend(a: string, b: string)
    ensures Upper(a + b) == Upper(a) + Upper(b)
  {
  }

  /** A string without lower-case letters is its own upper-case form. */
  lemma UpperFixed(s: string)
    requires forall i :: 0 <= i < |s| ==> !IsLowerLetter(s[i])
    ensures Upper(s) == s
  {
  }

  /** `s.lstrip()` */
  function TrimStart(s: string): (r: string)
    ensures |r| <= |s| && r == s[|s| - |r|..]
    ensures |r| > 0 ==> !IsSpace(r[0])
    ensures forall i :: 0 <= i < |s| - |r| ==> IsSpace(s[i])
    decreases |s|
  {
    if |s| > 0 && IsSpace(s[0]) then TrimStart(s[1..]) else s
  }

  /** `s.rstrip()` */
  function TrimEnd(s: string): (r: string)
    ensures |r| <= |s| && r == s[..|r|]
    ensures |r| > 0 ==> !IsSpace(r[|r| - 1])
    ensures forall i :: |r| <= i < |s| ==> IsSpace(s[i])
    decreases |s|
  {
    if |s| > 0 && IsSpace(s[|s| - 1]) then TrimEnd(s[..|s| - 1]) else s
  }

  /** `s.strip()` */
  function Strip(s: string): string {
    TrimEnd(TrimStart(s))
  }

  /** The strip of a string is an infix of it that neither starts nor ends
      with whitespace. */
  lemma StripShape(s: string)
    ensures |Strip(s)| <= |s| && Unpadded(Strip(s))
    ensures OccursAt(s, Strip(s), |s| - |TrimStart(s)|)
  {
    TrimmedUnpadded(TrimStart(s));
    TrimmedOccurs(s, TrimStart(s), TrimEnd(TrimStart(s)));
  }

  /** Trimming the end of a string that does not start with whitespace
      leaves it unpadded. */
  lemma TrimmedUnpadded(t: string)
    requires |t| > 0 ==> !IsSpace(t[0])
    ensures Unpadded(TrimEnd(t))
  {
    var r := TrimEnd(t);
    if |r| > 0 {
      assert r[0] == t[0];
    }
  }

  /** A prefix of a suffix of `s` occurs in `s` where the suffix starts. */
  lemma TrimmedOccurs(s: string, t: string, r: string)
    requires |t| <= |s| && t == s[|s| - |t|..]
    requires |r| <= |t| && r == t[..|r|]
    ensures OccursAt(s, r, |s| - |t|)
  {
    var k := |s| - |t|;
    assert s[k..k + |r|] == s[k..][..|r|];
  }

  /** A string starting with `a + b` continues with `b` after `a`. */
  lemma StartsWithRest(s: string, a: string, b: string)
    requires StartsWith(s, a + b)
    ensures StartsWith(s[|a|..], b)
  {
    assert s[|a|..][..|b|] == s[..|a| + |b|][|a|..];
    assert (a + b)[|a|..] == b;
  }

  /** Neither starts nor ends with whitespace. */
  predicate Unpadded(s: string) {
    |s| > 0 ==> !IsSpace(s[0]) && !IsSpace(s[|s| - 1])
  }

  /** A string that neither starts nor ends with whitespace is its own strip. */
  lemma StripUnpadded(s: string)
    requires Unpadded(s)
    ensures Strip(s) == s
  {
  }

  /** Stripping removes one leading blank in front of an unpadded string. */
  lemma StripAfterBlank(s: string)
    requires Unpadded(s)
    ensures Strip(" " + s) == s
  {
    assert (" " + s)[1..] == s;
    assert TrimStart(" " + s) == TrimStart(s);
  }

  /** `s.startswith(p)` */
  predicate StartsWith(s: string, p: string) {
    |p| <= |s| && s[..|p|] == p
  }

  /** `sub in s` */
  predicate Contains(s: string, sub: string)
    decreases |s|
  {
    StartsWith(s, sub) || (|s| > 0 && Contains(s[1..], sub))
  }

  /** `sub` occurs in `s` starting at index `i`. */
  predicate OccursAt(s: string, sub: string, i: int) {
    0 <= i && i + |sub| <= |s| && s[i..i + |sub|] == sub
  }

  /** `Contains` is the substring relation. */
  lemma {:induction false} ContainsIff(s: string, sub: string)
    ensures Contains(s, sub) <==> exists i :: OccursAt(s, sub, i)
    decreases |s|
  {
    if StartsWith(s, sub) {
      assert OccursAt(s, sub, 0);
    } else if |s| > 0 {
      ContainsIff(s[1..], sub);
      if Contains(s[1..], sub) {
        var i :| OccursAt(s[1..], sub, i);
        assert OccursAt(s, sub, i + 1) by {
          assert s[i + 1..i + 1 + |sub|] == s[1..][i..i + |sub|];
        }
      }
      if exists i :: OccursAt(s, sub, i) {
        var i :| OccursAt(s, sub, i);
        assert i != 0;
        assert OccursAt(s[1..], sub, i - 1) by {
          assert s[1..][i - 1..i - 1 + |sub|] == s[i..i + |sub|];
        }
      }
    }
  }

  /** A string contains every string spliced into it. */
  lemma ContainsSpliced(a: string, sub: string, b: string)
    ensures Contains(a + sub + b, sub)
  {
    var s := a + sub + b;
    assert OccursAt(s, sub, |a|);
    ContainsIff(s, sub);
  }

  /** A text containing `p + w` contains `w`. */
  lemma ContainsTail(s: string, p: string, w: string)
    requires Contains(s, p + w)
    ensures Contains(s, w)
  {
    ContainsIff(s, p + w);
    var i :| OccursAt(s, p + w, i);
    assert s[i + |p|..i + |p| + |w|] == (p + w)[|p|..];
    assert OccursAt(s, w, i + |p|);
    ContainsIff(s, w);
  }

  /** A word whose first character is missing from the part of `s` where an
      occurrence could start does not occur in `s`. */
  lemma FirstCharAbsent(s: string, w: string, n: nat)
    requires |w| > 0 && n <= |s| && |s| - |w| < n && w[0] !in s[..n]
    ensures !Contains(s, w)
  {
    forall i | 0 <= i <= |s| - |w|
      ensures !OccursAt(s, w, i)
    {
      assert s[i] == s[..n][i];
    }
    ContainsIff(s, w);
  }

  /** An occurrence of a word without `c` in `a + [c] + b` lies in `a` or in `b`. */
  lemma ContainsAcross(a: string, c: char, b: string, w: string)
    requires c !in w && Contains(a + [c] + b, w)
    ensures Contains(a, w) || Contains(b, w)
  {
    var s := a + [c] + b;
    ContainsIff(s, w);
    var i :| OccursAt(s, w, i);
    assert s[|a|] == c;
    assert forall j :: i <= j < i + |w| ==> s[j] == w[j - i];
    if i + |w| <= |a| {
      assert a[i..i + |w|] == s[i..i + |w|];
      assert OccursAt(a, w, i);
      ContainsIff(a, w);
    } else if i > |a| {
      assert s[|a| + 1..] == b;
      assert b[i - |a| - 1..i - |a| - 1 + |w|] == s[i..i + |w|];
      assert OccursAt(b, w, i - |a| - 1);
      ContainsIff(b, w);
    }
  }

  /** Upper-cased, a string ending in `w` contains upper-cased `w`. */
  lemma ContainsUpperSuffix(p: string, w: string)
    ensures Contains(Upper(p + w), Upper(w))
  {
    UpperAppend(p, w);
    ContainsSpliced(Upper(p), Upper(w), "");
    assert Upper(p) + Upper(w) + "" == Upper(p + w);
  }

  /** Text around a string keeps whatever it contains. */
  lemma ContainsWithin(a: string, m: string, b: string, sub: string)
    requires Contains(m, sub)
    ensures Contains(a + m + b, sub)
  {
    ContainsIff(m, sub);
    var i :| OccursAt(m, sub, i);
    var s := a + m + b;
    assert s[|a| + i..|a| + i + |sub|] == m[i..i + |sub|];
    assert OccursAt(s, sub, |a| + i);
    ContainsIff(s, sub);
  }

  /** A string lacking one of the characters of `sub` does not contain it. */
  lemma MissingCharNotContained(s: string, sub: string, c: char)
    requires c in sub && c !in s
    ensures !Contains(s, sub)
  {
    ContainsIff(s, sub);
  }

  /** The position of the first `c` in `s` (`s.index(c)`). */
  function FirstIndex(s: string, c: char): (i: nat)
    requires c in s
    ensures i < |s| && s[i] == c
    ensures forall j :: 0 <= j < i ==> s[j] != c
    decreases |s|
  {
    if s[0] == c then 0
    else
      var k := FirstIndex(s[1..], c);
      assert forall j :: 1 <= j < k + 1 ==> s[j] == s[1..][j - 1];
      k + 1
  }

  /** The text after the first occurrence of `c` (`s.split(c, 1)[1]`). */
  function AfterFirst(s: string, c: char): (r: string)
    requires c in s
    ensures |r| < |s| && r == s[|s| - |r|..]
    ensures s[|s| - |r| - 1] == c && c !in s[..|s| - |r| - 1]
  {
    var i := FirstIndex(s, c);
    assert forall j :: 0 <= j < i ==> s[..i][j] == s[j];
    s[i + 1..]
  }

  /** The text after a prefix that ends with the first `c` of the string. */
  lemma AfterFirstPrefix(s: string, p: string, c: char)
    requires StartsWith(s, p) && |p| > 0 && p[|p| - 1] == c && c !in p[..|p| - 1]
    ensures c in s && AfterFirst(s, c) == s[|p|..]
  {
    assert s[|p| - 1] == c;
    var i := FirstIndex(s, c);
    assert i == |p| - 1;
  }

  /** `s.split(c)`: the maximal pieces between occurrences of `c`. */
  function SplitOn(s: string, c: char): (r: seq<string>)
    ensures |r| >= 1
    ensures forall k :: 0 <= k < |r| ==> c !in r[k]
    decreases |s|
  {
    if |s| == 0 then [""]
    else
      var rest := SplitOn(s[1..], c);
      if s[0] == c then [""] + rest
      else [[s[0]] + rest[0]] + rest[1..]
  }

  /** `text.split('\n')` */
  function Lines(text: string): (r: seq<string>)
    ensures |r| >= 1
  {
    SplitOn(text, '\n')
  }

  /** Each part of a join sits between two pieces of the joined text. */
  lemma {:induction false} JoinSplit(parts: seq<string>, k: nat, sep: string) returns (a: string, b: string)
    requires k < |parts|
    ensures Join(parts, sep) == a + parts[k] + b
    decreases k
  {
    if |parts| == 1 {
      a, b := "", "";
    } else if k == 0 {
      a, b := "", sep + Join(parts[1..], sep);
    } else {
      var a', b' := JoinSplit(parts[1..], k - 1, sep);
      a, b := parts[0] + sep + a', b';
    }
  }

  /** `sep.join(parts)` */
  function Join(parts: seq<string>, sep: string): string {
    if |parts| == 0 then ""
    else if |parts| == 1 then parts[0]
    else parts[0] + sep + Join(parts[1..], sep)
  }

  /** Splitting and joining with the same separator character round-trips. */
  lemma {:induction false} JoinSplitOn(s: string, c: char)
    ensures Join(SplitOn(s, c), [c]) == s
    decreases |s|
  {
    if |s| > 0 {
      var rest := SplitOn(s[1..], c);
      JoinSplitOn(s[1..], c);
      if s[0] == c {
        assert SplitOn(s, c) == [""] + rest;
        assert Join([""] + rest, [c]) == "" + [c] + Join(rest, [c]);
      } else {
        assert SplitOn(s, c) == [[s[0]] + rest[0]] + rest[1..];
        if |rest| == 1 {
          assert Join(rest, [c]) == rest[0];
        } else {
          assert Join(rest, [c]) == rest[0] + [c] + Join(rest[1..], [c]);
          assert ([[s[0]] + rest[0]] + rest[1..])[1..] == rest[1..];
        }
      }
    }
  }

  /** A string free of `c` splits into itself alone. */
  lemma {:induction false} SplitOnFree(a: string, c: char)
    requires c !in a
    ensures SplitOn(a, c) == [a]
    decreases |a|
  {
    if |a| > 0 {
      SplitOnFree(a[1..], c);
      assert [a[0]] + a[1..] == a;
    }
  }

  /** Splitting at the first separator peels off the first piece. */
  lemma {:induction false} SplitOnFirst(a: string, c: char, b: string)
    requires c !in a
    ensures SplitOn(a + [c] + b, c) == [a] + SplitOn(b, c)
    decreases |a|
  {
    var s := a + [c] + b;
    if |a| == 0 {
      assert s[1..] == b;
    } else {
      assert s[1..] == a[1..] + [c] + b;
      SplitOnFirst(a[1..], c, b);
      assert [a[0]] + a[1..] == a;
    }
  }

  /** Joining separator-free pieces and splitting again gives the pieces back. */
  lemma {:induction false} SplitOnJoin(parts: seq<string>, c: char)
    requires |parts| > 0
    requires forall k :: 0 <= k < |parts| ==> c !in parts[k]
    ensures SplitOn(Join(parts, [c]), c) == parts
    decreases |parts|
  {
    if |parts| == 1 {
      SplitOnFree(parts[0], c);
    } else {
      SplitOnJoin(parts[1..], c);
      SplitOnFirst(parts[0], c, Join(parts[1..], [c]));
      assert [parts[0]] + parts[1..] == parts;
    }
  }

  /** Lines none of which holds a line break. */
  predicate NoBreaks(lines: seq<string>) {
    forall k :: 0 <= k < |lines| ==> '\n' !in lines[k]
  }

  lemma NoBreaksAppend(a: seq<string>, b: seq<string>)
    requires NoBreaks(a) && NoBreaks(b)
    ensures NoBreaks(a + b)
  {
    forall k | 0 <= k < |a + b|
      ensures '\n' !in (a + b)[k]
    {
      if k < |a| {
        assert (a + b)[k] == a[k];
      } else {
        assert (a + b)[k] == b[k - |a|];
      }
    }
  }

  /** Joining lines without breaks and splitting the result into lines gives
      them back. */
  lemma LinesOfJoin(lines: seq<string>)
    requires |lines| > 0 && NoBreaks(lines)
    ensures Lines(Join(lines, "\n")) == lines
  {
    SplitOnJoin(lines, '\n');
  }

  /** `[f(line) for line in lines]` */
  function MapLines<T>(f: string -> T, lines: seq<string>): (r: seq<T>)
    ensures |r| == |lines|
  {
    seq(|lines|, i requires 0 <= i < |lines| => f(lines[i]))
  }

  lemma MapLinesAppend<T>(f: string -> T, a: seq<string>, b: seq<string>)
    ensures MapLines(f, a + b) == MapLines(f, a) + MapLines(f, b)
  {
    var l := MapLines(f, a + b);
    var r := MapLines(f, a) + MapLines(f, b);
    forall i | 0 <= i < |a + b|
      ensures l[i] == r[i]
    {
      if i < |a| {
        assert (a + b)[i] == a[i];
      } else {
        assert (a + b)[i] == b[i - |a|];
      }
    }
  }

  lemma MapLinesAt<T>(f: string -> T, lines: seq<string>, i: nat)
    requires i < |lines|
    ensures MapLines(f, lines)[i] == f(lines[i])
  {
  }

  lemma ConcatAssoc<T>(a: seq<T>, b: seq<T>, c: seq<T>)
    ensures a + b + c == a + (b + c)
  {
  }

  /** Mapping two runs whose images are known. */
  lemma MapLinesJoin<T>(f: string -> T, a: seq<string>, b: seq<string>, ka: seq<T>, kb: seq<T>)
    requires MapLines(f, a) == ka && MapLines(f, b) == kb
    ensures MapLines(f, a + b) == ka + kb
  {
    MapLinesAppend(f, a, b);
  }

  /** Mapping three runs of lines one after another. */
  lemma MapLinesAmid<T>(f: string -> T, before: seq<string>, mid: seq<string>, after: seq<string>)
    ensures MapLines(f, before + mid + after) == MapLines(f, before) + (MapLines(f, mid) + MapLines(f, after))
  {
    MapLinesAppend(f, before + mid, after);
    MapLinesAppend(f, before, mid);
  }

  /** `s[:n]` */
  function Take(s: string, n: nat): (r: string)
    ensures |r| == if |s| <= n then |s| else n
    ensures StartsWith(s, r)
  {
    if |s| <= n then s else s[..n]
  }

  /** `s[::-1]` */
  function Reverse(s: string): (r: string)
    ensures |r| == |s|
    ensures forall i :: 0 <= i < |s| ==> r[i] == s[|s| - 1 - i]
  {
    seq(|s|, i requires 0 <= i < |s| => s[|s| - 1 - i])
  }

  /** Reversing twice gives the original string back. */
  lemma ReverseInvolution(s: string)
    ensures Reverse(Reverse(s)) == s
  {
  }

  /** `s * n` */
  function Repeat(s: string, n: nat): (r: string)
    ensures |r| == n * |s|
  {
    if n == 0 then "" else s + Repeat(s, n - 1)
  }

  function DigitChar(d: nat): char
    requires d < 10
  {
    ('0' as int + d) as char
  }

  function DigitValue(c: char): nat
    requires IsDigit(c)
  {
    c as int - '0' as int
  }

  /** `str(n)` for a natural number: its decimal digits. */
  function NatToString(n: nat): (r: string)
    ensures |r| > 0
    ensures forall i :: 0 <= i < |r| ==> IsDigit(r[i])
    decreases n
  {
    if n < 10 then [DigitChar(n)] else NatToString(n / 10) + [DigitChar(n % 10)]
  }

  /** `int(s)` for a non-empty run of ASCII digits. */
  function DigitsValue(s: string): nat
    requires forall i :: 0 <= i < |s| ==> IsDigit(s[i])
    decreases |s|
  {
    if |s| == 0 then 0 else DigitsValue(s[..|s| - 1]) * 10 + DigitValue(s[|s| - 1])
  }

  /** Formatting a number in decimal and parsing it back gives the number. */
  lemma {:induction false} NatToStringRoundTrip(n: nat)
    ensures DigitsValue(NatToString(n)) == n
    decreases n
  {
    if n >= 10 {
      NatToStringRoundTrip(n / 10);
      var s := NatToString(n);
      assert s[..|s| - 1] == NatToString(n / 10);
    }
  }

  /** Leading zeros do not change the value of a digit string. */
  lemma {:induction false} LeadingZeros(z: nat, s: string)
    requires forall i :: 0 <= i < |s| ==> IsDigit(s[i])
    ensures forall i :: 0 <= i < |Repeat("0", z) + s| ==> IsDigit((Repeat("0", z) + s)[i])
    ensures DigitsValue(Repeat("0", z) + s) == DigitsValue(s)
    decreases |s|
  {
    var t := Repeat("0", z) + s;
    ZerosAreDigits(z);
    if |s| == 0 {
      assert t == Repeat("0", z);
      ZerosValue(z);
    } else {
      LeadingZeros(z, s[..|s| - 1]);
      assert t[..|t| - 1] == Repeat("0", z) + s[..|s| - 1];
    }
  }

  lemma {:induction false} ZerosAreDigits(z: nat)
    ensures forall i :: 0 <= i < |Repeat("0", z)| ==> Repeat("0", z)[i] == '0'
  {
    if z > 0 {
      ZerosAreDigits(z - 1);
      assert Repeat("0", z) == "0" + Repeat("0", z - 1);
    }
  }

  lemma {:induction false} ZerosValue(z: nat)
    ensures forall i :: 0 <= i < |Repeat("0", z)| ==> IsDigit(Repeat("0", z)[i])
    ensures DigitsValue(Repeat("0", z)) == 0
    decreases z
  {
    ZerosAreDigits(z);
    if z > 0 {
      var t := Repeat("0", z);
      ZerosValue(z - 1);
      ZerosAreDigits(z - 1);
      assert t[..|t| - 1] == Repeat("0", z - 1) by {
        assert forall i :: 0 <= i < z - 1 ==> t[i] == '0' && Repeat("0", z - 1)[i] == '0';
      }
    }
  }

  /** `f"{n:03d}"`: decimal digits left-padded with zeros to width three. */
  function Pad3(n: nat): (r: string)
    ensures |r| >= 3
    ensures forall i :: 0 <= i < |r| ==> IsDigit(r[i])
    ensures DigitsValue(r) == n
  {
    var d := NatToString(n);
    NatToStringRoundTrip(n);
    if |d| >= 3 then d
    else
      LeadingZeros(3 - |d|, d);
      Repeat("0", 3 - |d|) + d
  }
}
