/**
 The changelog assembler (`scripts/changelog-assemble.py`) and the guard that reads its output
 (`sections` in `scripts/changelog-released-immutable.py`).
 */
module Changelog {
  import opened Basics
  import opened Lines

  /** The code points `str.strip` removes. */
  predicate PyBlank(c: char) {
    '\t' <= c <= '\r' || '\U{001C}' <= c <= ' ' || c == '\U{0085}' || c == '\U{00A0}' || c == '\U{1680}'
    || '\U{2000}' <= c <= '\U{200A}' || c == '\U{2028}' || c == '\U{2029}' || c == '\U{202F}'
    || c == '\U{205F}' || c == '\U{3000}'
  }

  function Strip(s: string): string {
    Trim(s, PyBlank)
  }

  function RStrip(s: string): string {
    TrimRight(s, PyBlank)
  }

  predicate IsHeading(line: string) {
    "## " <= line
  }

  function NormalizeVersion(v: string): string {
    if "v" <= v then v else "v" + v
  }

  // ---- headings and sections, by line ----

  /** The first line from `i` on that is `target`, or `|lines|`. */
  function LineFrom(lines: seq<string>, target: string, i: nat): (k: nat)
    requires i <= |lines|
    ensures i <= k <= |lines| && (k < |lines| ==> lines[k] == target)
    ensures forall j | i <= j < k :: lines[j] != target
    decreases |lines| - i
  {
    if i == |lines| || lines[i] == target then i else LineFrom(lines, target, i + 1)
  }

  /** The first heading from `i` on, or `|lines|`. */
  function HeadingFrom(lines: seq<string>, i: nat): (k: nat)
    requires i <= |lines|
    ensures i <= k <= |lines| && (k < |lines| ==> IsHeading(lines[k]))
    ensures forall j | i <= j < k :: !IsHeading(lines[j])
    decreases |lines| - i
  {
    if i == |lines| || IsHeading(lines[i]) then i else HeadingFrom(lines, i + 1)
  }

  datatype Bounds = Bounds(start: nat, end: nat)

  function BoundsOf(lines: seq<string>, heading: string): (b: Option<Bounds>)
    ensures b.Some? ==> b.value.start < b.value.end <= |lines|
  {
    var start := LineFrom(lines, "## " + heading, 0);
    if start == |lines| then None else Some(Bounds(start, HeadingFrom(lines, start + 1)))
  }

  method SectionBounds(lines: seq<string>, heading: string) returns (b: Option<Bounds>)
    ensures b == BoundsOf(lines, heading)
  {
    var start := 0;
    while start < |lines| && lines[start] != "## " + heading
      invariant start <= |lines| && LineFrom(lines, "## " + heading, 0) == LineFrom(lines, "## " + heading, start)
    {
      start := start + 1;
    }
    if start == |lines| {
      return None;
    }
    var end := start + 1;
    while end < |lines| && !IsHeading(lines[end])
      invariant end <= |lines| && HeadingFrom(lines, start + 1) == HeadingFrom(lines, end)
    {
      end := end + 1;
    }
    return Some(Bounds(start, end));
  }

  /** A heading of the version itself, or of the version and a space or tab. */
  predicate Names(line: string, version: string) {
    var needle := "## " + version;
    line == needle || (needle <= line && |needle| < |line| && (line[|needle|] == ' ' || line[|needle|] == '\t'))
  }

  method VersionHeadingPresent(lines: seq<string>, version: string) returns (present: bool)
    ensures present <==> exists k | 0 <= k < |lines| :: Names(lines[k], version)
  {
    var i := 0;
    while i < |lines|
      invariant 0 <= i <= |lines| && forall k | 0 <= k < i :: !Names(lines[k], version)
    {
      var needle := "## " + version;
      if lines[i] == needle {
        assert Names(lines[i], version);
        return true;
      }
      if needle <= lines[i] && |needle| < |lines[i]| && (lines[i][|needle|] == ' ' || lines[i][|needle|] == '\t') {
        assert Names(lines[i], version);
        return true;
      }
      i := i + 1;
    }
    return false;
  }

  // ---- assemble ----

  function JoinParts(parts: seq<string>): string
    decreases |parts|
  {
    if parts == [] then "" else if |parts| == 1 then parts[0] else parts[0] + "\n\n" + JoinParts(parts[1..])
  }

  /** The legacy body, unless it is blank, and then the fragments. */
  function Parts(legacy: string, fragments: seq<string>): seq<string> {
    if Strip(legacy) != "" then [Strip(legacy)] + fragments else fragments
  }

  function Content(legacy: string, fragments: seq<string>): string {
    Strip(JoinParts(Parts(legacy, fragments)))
  }

  function Heading(version: string, date: string): string {
    "## " + version + " -- " + date
  }

  function NewSection(version: string, date: string, content: string): seq<string> {
    [Heading(version, date), ""] + (if content != "" then [content] else []) + [""]
  }

  predicate Present(lines: seq<string>, version: string) {
    exists k | 0 <= k < |lines| :: Names(lines[k], version)
  }

  function Assembled(text: string, fragments: seq<string>, version: string, date: string): Result<string> {
    var lines := Split(text);
    var v := NormalizeVersion(version);
    var bounds := BoundsOf(lines, "Unreleased");
    if Present(lines, v) || bounds.None? then Threw
    else
      var legacy := Join(lines[bounds.value.start + 1..bounds.value.end]);
      Ok(Join(lines[..bounds.value.start + 1] + [""] + NewSection(v, date, Content(legacy, fragments)) + lines[bounds.value.end..]))
  }

  lemma AssembledOk(text: string, fragments: seq<string>, version: string, date: string, b: Bounds)
    requires !Present(Split(text), NormalizeVersion(version)) && BoundsOf(Split(text), "Unreleased") == Some(b)
    ensures var lines := Split(text);
            var content := Content(Join(lines[b.start + 1..b.end]), fragments);
            Assembled(text, fragments, version, date) ==
            Ok(Join(lines[..b.start + 1] + [""] + NewSection(NormalizeVersion(version), date, content) + lines[b.end..]))
  {
    hide Split, Join, Present, NewSection, Content, NormalizeVersion;
  }

  lemma AssembledRefuses(text: string, fragments: seq<string>, version: string, date: string)
    requires Present(Split(text), NormalizeVersion(version)) || BoundsOf(Split(text), "Unreleased").None?
    ensures Assembled(text, fragments, version, date) == Threw
  {
    hide Split, Join, Present, NewSection, Content, NormalizeVersion;
  }

  /** A refusal writes nothing and is `Threw`; its message is not modelled. */
  method Assemble(text: string, fragments: seq<string>, version: string, date: string) returns (r: Result<string>)
    ensures r == Assembled(text, fragments, version, date)
  {
    hide Split, Join, BoundsOf, Heading, NormalizeVersion, Strip, JoinParts, Assembled;
    var lines := Split(text);
    var v := NormalizeVersion(version);
    var present := VersionHeadingPresent(lines, v);
    if present {
      AssembledRefuses(text, fragments, version, date);
      return Threw;
    }
    var bounds := SectionBounds(lines, "Unreleased");
    if bounds.None? {
      AssembledRefuses(text, fragments, version, date);
      return Threw;
    }
    hide Present;
    AssembledOk(text, fragments, version, date, bounds.value);
    var body := Join(lines[bounds.value.start + 1..bounds.value.end]);
    var legacy := Strip(body);
    var parts: seq<string> := [];
    if legacy != "" {
      parts := parts + [legacy];
    }
    parts := parts + fragments;
    assert parts == Parts(body, fragments);
    var content := Strip(JoinParts(parts));
    var newSection := [Heading(v, date), ""];
    if content != "" {
      newSection := newSection + [content];
    }
    newSection := newSection + [""];
    assert newSection == NewSection(v, date, content);
    return Ok(Join(lines[..bounds.value.start + 1] + [""] + newSection + lines[bounds.value.end..]));
  }

  // ---- the guard's reading ----

  predicate IsWord(c: char) {
    IsDigit(c) || 'A' <= c <= 'Z' || 'a' <= c <= 'z' || c == '_'
  }

  function DigitCount(s: string): (n: nat)
    ensures n <= |s|
  {
    if s != "" && IsDigit(s[0]) then 1 + DigitCount(s[1..]) else 0
  }

  /** The end of the digits that start at `i`. */
  function PastNumber(s: string, i: nat): (end: nat)
    requires i <= |s|
    ensures i <= end <= |s|
  {
    i + DigitCount(s[i..])
  }

  /** `v\d+\.\d+\.\d+\b` at the start of `s`; the boundary makes the third number take all its digits. */
  function VersionAt(s: string): (v: Option<string>)
    ensures v.Some? ==> v.value <= s
  {
    if s == "" || s[0] != 'v' then None
    else
      var a := PastNumber(s, 1);
      if a == 1 || a == |s| || s[a] != '.' then None
      else
        var b := PastNumber(s, a + 1);
        if b == a + 1 || b == |s| || s[b] != '.' then None
        else
          var c := PastNumber(s, b + 1);
          if c == b + 1 || (c < |s| && IsWord(s[c])) then None else Some(s[..c])
  }

  /** HEADING: the version a line announces to the guard. */
  function VersionOf(line: string): (v: Option<string>)
    ensures v.Some? ==> IsHeading(line)
  {
    if IsHeading(line) then VersionAt(line[3..]) else None
  }

  datatype Section = Section(version: string, body: string)

  /** The lines before the first heading. */
  function UntilHeading(lines: seq<string>): seq<string> {
    if lines == [] || IsHeading(lines[0]) then [] else [lines[0]] + UntilHeading(lines[1..])
  }

  /** Every released section, in order: its version, and its text up to the next heading. */
  function SectionList(lines: seq<string>): seq<Section> {
    if lines == [] then []
    else
      var rest := SectionList(lines[1..]);
      match VersionOf(lines[0])
      case None => rest
      case Some(v) => [Section(v, RStrip(Join([lines[0]] + UntilHeading(lines[1..]))))] + rest
  }

  /** The dictionary `sections` builds: the last section of a version wins. */
  function ToMap(list: seq<Section>): map<string, string> {
    if list == [] then map[] else ToMap(list[..|list| - 1])[list[|list| - 1].version := list[|list| - 1].body]
  }

  function Versions(list: seq<Section>): (vs: seq<string>)
    ensures |vs| == |list|
  {
    seq(|list|, k requires 0 <= k < |list| => list[k].version)
  }

  /** The versions announced again, in order. */
  function Duplicates(versions: seq<string>): seq<string> {
    if versions == [] then []
    else
      var last := |versions| - 1;
      Duplicates(versions[..last]) + if versions[last] in versions[..last] then [versions[last]] else []
  }

  lemma {:induction false} UntilIsUpTo(lines: seq<string>, i: nat)
    requires i <= |lines|
    ensures UntilHeading(lines[i..]) == lines[i..HeadingFrom(lines, i)]
    decreases |lines| - i
  {
    if i < |lines| && !IsHeading(lines[i]) {
      UntilIsUpTo(lines, i + 1);
      assert lines[i..][1..] == lines[i + 1..] && lines[i..][0] == lines[i];
    }
  }

  /** What the i-th line adds to the list. */
  function SectionAt(lines: seq<string>, i: nat): seq<Section>
    requires i < |lines|
  {
    match VersionOf(lines[i])
    case None => []
    case Some(v) => [Section(v, RStrip(Join(lines[i..HeadingFrom(lines, i + 1)])))]
  }

  lemma SectionListStep(lines: seq<string>, i: nat)
    requires i < |lines|
    ensures SectionList(lines[i..]) == SectionAt(lines, i) + SectionList(lines[i + 1..])
  {
    UntilIsUpTo(lines, i + 1);
    hide VersionOf, RStrip, Join, UntilHeading;
    assert lines[i..][1..] == lines[i + 1..] && lines[i..][0] == lines[i];
    assert [lines[i]] + lines[i + 1..HeadingFrom(lines, i + 1)] == lines[i..HeadingFrom(lines, i + 1)];
  }

  /** Where the loop of `sections` stands before line `i`. */
  ghost predicate SectionsAt(lines: seq<string>, i: nat, list: seq<Section>) {
    i <= |lines| && SectionList(lines) == list + SectionList(lines[i..])
  }

  lemma SectionsStart(lines: seq<string>)
    ensures SectionsAt(lines, 0, [])
  {
    hide SectionList;
    assert lines[0..] == lines && [] + SectionList(lines) == SectionList(lines);
  }

  lemma Associates<T>(a: seq<T>, b: seq<T>, c: seq<T>)
    ensures a + (b + c) == (a + b) + c
  {
  }

  lemma SectionsStep(lines: seq<string>, i: nat, list: seq<Section>)
    requires i < |lines| && SectionsAt(lines, i, list)
    ensures SectionsAt(lines, i + 1, list + SectionAt(lines, i))
  {
    hide SectionList, SectionAt;
    SectionListStep(lines, i);
    Associates(list, SectionAt(lines, i), SectionList(lines[i + 1..]));
  }

  lemma SectionsEnd(lines: seq<string>, list: seq<Section>)
    requires SectionsAt(lines, |lines|, list)
    ensures list == SectionList(lines)
  {
    assert lines[|lines|..] == [] && list + [] == list;
  }

  lemma OneMore(list: seq<Section>, section: Section)
    ensures var more := list + [section];
            && ToMap(more) == ToMap(list)[section.version := section.body]
            && Versions(more) == Versions(list) + [section.version]
            && Duplicates(Versions(more)) == Duplicates(Versions(list)) + if section.version in Versions(list) then [section.version] else []
  {
    var more := list + [section];
    assert more[..|more| - 1] == list;
    assert Versions(more) == Versions(list) + [section.version];
    assert Versions(more)[..|more| - 1] == Versions(list);
  }

  /** The guard's `sections`: a dictionary of bodies and the versions announced more than once. */
  method Sections(text: string) returns (bodies: map<string, string>, duplicates: seq<string>)
    ensures var list := SectionList(Split(text));
            bodies == ToMap(list) && duplicates == Duplicates(Versions(list))
  {
    hide SectionList, SectionAt, SectionsAt, Duplicates, ToMap, Versions, Split, VersionOf, RStrip, Join, HeadingFrom;
    var lines := Split(text);
    bodies, duplicates := map[], [];
    var seen: seq<string> := [];
    ghost var list: seq<Section> := [];
    var i := 0;
    SectionsStart(lines);
    Nothing();
    while i < |lines|
      invariant 0 <= i <= |lines| && SectionsAt(lines, i, list)
      invariant bodies == ToMap(list) && seen == Versions(list) && duplicates == Duplicates(seen)
    {
      SectionsStep(lines, i, list);
      var version := VersionOf(lines[i]);
      SectionAtIs(lines, i);
      if version.Some? {
        if version.value in seen {
          duplicates := duplicates + [version.value];
        }
        seen := seen + [version.value];
        var end := i + 1;
        while end < |lines| && !IsHeading(lines[end])
          invariant i < end <= |lines| && HeadingFrom(lines, i + 1) == HeadingFrom(lines, end)
        {
          HeadingFromStep(lines, end);
          end := end + 1;
        }
        HeadingFromStep(lines, end);
        var body := RStrip(Join(lines[i..end]));
        bodies := bodies[version.value := body];
        OneMore(list, Section(version.value, body));
        list := list + [Section(version.value, body)];
      } else {
        assert list + [] == list;
      }
      i := i + 1;
    }
    SectionsEnd(lines, list);
  }

  lemma Nothing()
    ensures ToMap([]) == map[] && Versions([]) == [] && Duplicates([]) == []
  {
  }

  lemma SectionAtIs(lines: seq<string>, i: nat)
    requires i < |lines|
    ensures SectionAt(lines, i) == if VersionOf(lines[i]).None? then []
                                   else [Section(VersionOf(lines[i]).value, RStrip(Join(lines[i..HeadingFrom(lines, i + 1)])))]
  {
  }

  lemma HeadingFromStep(lines: seq<string>, i: nat)
    requires i <= |lines|
    ensures HeadingFrom(lines, i) == if i == |lines| || IsHeading(lines[i]) then i else HeadingFrom(lines, i + 1)
  {
  }

  // ---- what the guard reads in an assembled file ----

  predicate EndsSection(lines: seq<string>) {
    lines == [] || IsHeading(lines[0])
  }

  lemma {:induction false} UntilOfSum(a: seq<string>, b: seq<string>)
    requires EndsSection(b)
    ensures UntilHeading(a + b) == UntilHeading(a)
  {
    if a == [] {
      assert a + b == b;
    } else {
      assert (a + b)[1..] == a[1..] + b;
      UntilOfSum(a[1..], b);
    }
  }

  /** Text that begins with a heading adds its own sections and leaves those before it alone. */
  lemma {:induction false} SectionsOfSum(a: seq<string>, b: seq<string>)
    requires EndsSection(b)
    ensures SectionList(a + b) == SectionList(a) + SectionList(b)
  {
    if a == [] {
      assert a + b == b;
    } else {
      assert (a + b)[1..] == a[1..] + b && (a + b)[0] == a[0];
      SectionsOfSum(a[1..], b);
      UntilOfSum(a[1..], b);
      hide VersionOf, RStrip, Join, UntilHeading, EndsSection;
    }
  }

  lemma {:induction false} NoHeadingNoSection(lines: seq<string>)
    requires forall k | 0 <= k < |lines| :: !IsHeading(lines[k])
    ensures SectionList(lines) == [] && UntilHeading(lines) == lines
  {
    if lines != [] {
      hide VersionOf, RStrip, Join;
      assert forall k | 1 <= k < |lines| :: lines[1..][k - 1] == lines[k];
      NoHeadingNoSection(lines[1..]);
      assert VersionOf(lines[0]).None?;
    }
  }

  const UNRELEASED: string := "## Unreleased"

  lemma UnreleasedIsNoVersion()
    ensures "## " + "Unreleased" == UNRELEASED && IsHeading(UNRELEASED) && VersionOf(UNRELEASED) == None
  {
    assert UNRELEASED[..3] == "## " && UNRELEASED[3..][0] == 'U';
  }

  /** The lines of the new section, the multi-line content taken apart. */
  function Block(version: string, date: string, content: string): seq<string> {
    [Heading(version, date), ""] + (if content != "" then Split(content) else []) + [""]
  }

  /** The file split where the assembler splits it: up to the Unreleased heading, its body, and the rest. */
  ghost predicate Cut(lines: seq<string>, before: seq<string>, body: seq<string>, after: seq<string>) {
    && lines == before + [UNRELEASED] + body + after
    && (forall k | 0 <= k < |body| :: !IsHeading(body[k]))
    && EndsSection(after)
  }

  lemma CutAtBounds(lines: seq<string>, b: Bounds)
    requires BoundsOf(lines, "Unreleased") == Some(b)
    ensures Cut(lines, lines[..b.start], lines[b.start + 1..b.end], lines[b.end..])
    ensures lines[..b.start + 1] == lines[..b.start] + [UNRELEASED]
  {
    UnreleasedIsNoVersion();
    hide IsHeading;
    assert lines[b.start] == UNRELEASED;
    var body := lines[b.start + 1..b.end];
    forall k | 0 <= k < |body| ensures !IsHeading(body[k]) { assert body[k] == lines[b.start + 1 + k]; }
  }

  /** The sections of a file are those before its Unreleased heading and those after its body. */
  lemma SectionsOfCut(lines: seq<string>, before: seq<string>, body: seq<string>, after: seq<string>)
    requires Cut(lines, before, body, after)
    ensures SectionList(lines) == SectionList(before) + SectionList(after)
  {
    UnreleasedIsNoVersion();
    var tail := [UNRELEASED] + (body + after);
    assert lines == before + tail;
    SectionsOfSum(before, tail);
    assert tail[1..] == body + after && tail[0] == UNRELEASED;
    assert SectionList(tail) == SectionList(body + after) by { hide VersionOf, RStrip, Join, UntilHeading; }
    NoHeadingNoSection(body);
    SectionsOfSum(body, after);
    hide SectionList;
    assert [] + SectionList(after) == SectionList(after);
  }

  lemma HeadingIsHeading(version: string, date: string)
    ensures IsHeading(Heading(version, date))
  {
    assert Heading(version, date)[..3] == "## ";
  }

  lemma SplitAssembled(front: seq<string>, version: string, date: string, content: string, after: seq<string>)
    requires AllOneLine(front) && AllOneLine(after) && OneLine(version) && OneLine(date)
    ensures Split(Join(front + [""] + NewSection(version, date, content) + after))
         == front + [""] + Block(version, date, content) + after
  {
    var section := NewSection(version, date, content);
    SplitOfParts(front + [""] + section + after);
    FlatOfSum(front + [""] + section, after);
    FlatOfSum(front + [""], section);
    FlatOfLines(after);
    assert AllOneLine(front + [""]);
    FlatOfLines(front + [""]);
    FlatOfSection(version, date, content);
    hide Split, Join, Flat, NewSection, Block;
  }

  lemma FlatOfSection(version: string, date: string, content: string)
    requires OneLine(version) && OneLine(date)
    ensures Flat(NewSection(version, date, content)) == Block(version, date, content)
  {
    var heading := Heading(version, date);
    assert OneLine(heading);
    assert AllOneLine([heading, ""]) && AllOneLine([""]);
    FlatOfLines([heading, ""]);
    FlatOfLines([""]);
    hide Split, Heading;
    var middle := if content != "" then [content] else [];
    FlatOfSum([heading, ""] + middle, [""]);
    FlatOfSum([heading, ""], middle);
    if content != "" {
      assert [content][1..] == [] && Split(content) + Flat([]) == Split(content);
    }
  }

  lemma NormalOneLine(version: string)
    requires OneLine(version)
    ensures OneLine(NormalizeVersion(version))
  {
  }

  lemma SliceOneLine(lines: seq<string>, i: nat, j: nat)
    requires AllOneLine(lines) && i <= j <= |lines|
    ensures AllOneLine(lines[i..j]) && (i == 0 ==> AllOneLine(lines[..j])) && (j == |lines| ==> AllOneLine(lines[i..]))
  {
  }

  /** A successful run: the file up to its Unreleased heading, the new block, and the file from the next heading on. */
  lemma AssembledAt(text: string, fragments: seq<string>, version: string, date: string) returns (b: Bounds, content: string)
    requires OneLine(version) && OneLine(date)
    requires Assembled(text, fragments, version, date).Ok?
    ensures BoundsOf(Split(text), "Unreleased") == Some(b) && b.start < b.end <= |Split(text)|
    ensures content == Content(Join(Split(text)[b.start + 1..b.end]), fragments)
    ensures Split(Assembled(text, fragments, version, date).value)
         == Split(text)[..b.start + 1] + [""] + Block(NormalizeVersion(version), date, content) + Split(text)[b.end..]
  {
    hide *;
    var lines, v := Split(text), NormalizeVersion(version);
    if Present(lines, v) || BoundsOf(lines, "Unreleased").None? { AssembledRefuses(text, fragments, version, date); }
    NormalOneLine(version);
    SplitGivesLines(text);
    b := BoundsOf(lines, "Unreleased").value;
    AssembledOk(text, fragments, version, date, b);
    content := Content(Join(lines[b.start + 1..b.end]), fragments);
    SliceOneLine(lines, 0, b.start + 1);
    SliceOneLine(lines, b.end, |lines|);
    SplitAssembled(lines[..b.start + 1], v, date, content, lines[b.end..]);
  }

  /**
   Every old section is read back byte for byte and in order, and what the new block reads as stands
   between those that were before the Unreleased heading and those that were after it.
   */
  lemma OldSectionsKept(text: string, fragments: seq<string>, version: string, date: string)
    returns (b: Bounds, content: string, before: seq<Section>, after: seq<Section>)
    requires OneLine(version) && OneLine(date)
    requires Assembled(text, fragments, version, date).Ok?
    ensures BoundsOf(Split(text), "Unreleased") == Some(b) && b.start < b.end <= |Split(text)|
    ensures content == Content(Join(Split(text)[b.start + 1..b.end]), fragments)
    ensures SectionList(Split(text)) == before + after
    ensures SectionList(Split(Assembled(text, fragments, version, date).value))
         == before + SectionList(Block(NormalizeVersion(version), date, content)) + after
  {
    hide *;
    b, content := AssembledAt(text, fragments, version, date);
    var lines := Split(text);
    CutAtBounds(lines, b);
    var front, body, back := lines[..b.start], lines[b.start + 1..b.end], lines[b.end..];
    SectionsOfCut(lines, front, body, back);
    CutEnds(lines, front, body, back);
    SectionsWithBlock(front, NormalizeVersion(version), date, content, back);
    before, after := SectionList(front), SectionList(back);
  }

  lemma CutEnds(lines: seq<string>, before: seq<string>, body: seq<string>, after: seq<string>)
    requires Cut(lines, before, body, after)
    ensures EndsSection(after)
  {
  }

  lemma SectionsWithBlock(front: seq<string>, version: string, date: string, content: string, back: seq<string>)
    requires EndsSection(back)
    ensures var block := Block(version, date, content);
            SectionList(front + [UNRELEASED] + [""] + block + back) == SectionList(front) + SectionList(block) + SectionList(back)
  {
    var block := Block(version, date, content);
    assert block[0] == Heading(version, date);
    HeadingIsHeading(version, date);
    hide Heading, SectionList;
    var lines := front + [UNRELEASED] + [""] + (block + back);
    assert lines == front + [UNRELEASED] + [""] + block + back;
    assert !IsHeading("");
    assert Cut(lines, front, [""], block + back);
    SectionsOfCut(lines, front, [""], block + back);
    SectionsOfSum(block, back);
    hide Block;
    Associates(SectionList(front), SectionList(block), SectionList(back));
  }

  // ---- the new section ----

  predicate IsVersion(v: string) {
    VersionAt(v) == Some(v)
  }

  lemma {:induction false} DigitsStopAt(s: string, x: string)
    requires x == "" || !IsDigit(x[0])
    ensures DigitCount(s + x) == DigitCount(s)
  {
    if s == "" {
      assert s + x == x;
    } else {
      assert (s + x)[1..] == s[1..] + x;
      DigitsStopAt(s[1..], x);
    }
  }

  lemma NumberKept(v: string, x: string, i: nat)
    requires i <= |v| && (x == "" || !IsDigit(x[0]))
    ensures PastNumber(v + x, i) == PastNumber(v, i)
  {
    assert (v + x)[i..] == v[i..] + x;
    DigitsStopAt(v[i..], x);
  }

  /** A version is read back from any text that goes on with no word character. */
  lemma VersionReadBack(v: string, x: string)
    requires IsVersion(v) && x != "" && !IsWord(x[0])
    ensures VersionAt(v + x) == Some(v)
  {
    var a := PastNumber(v, 1);
    var b := PastNumber(v, a + 1);
    var c := PastNumber(v, b + 1);
    NumberKept(v, x, 1);
    NumberKept(v, x, a + 1);
    NumberKept(v, x, b + 1);
    assert c == |v| && (v + x)[c] == x[0];
    hide PastNumber, IsDigit, IsWord;
    assert (v + x)[..c] == v;
  }

  lemma HeadingReads(v: string, x: string)
    requires IsVersion(v) && x != "" && !IsWord(x[0])
    ensures VersionOf("## " + v + x) == Some(v)
  {
    VersionReadBack(v, x);
    hide VersionAt;
    var line := "## " + v + x;
    assert line[..3] == "## " && line[3..] == v + x;
  }

  lemma VersionOfNewHeading(v: string, date: string)
    requires IsVersion(v)
    ensures VersionOf(Heading(v, date)) == Some(v)
  {
    HeadingReads(v, " -- " + date);
    hide VersionOf, IsVersion;
    assert Heading(v, date) == "## " + v + (" -- " + date);
  }

  /** Trailing blanks do not matter, and text that ends with something else stays. */
  lemma {:induction false} RStripBlanks(s: string, blanks: string)
    requires forall k | 0 <= k < |blanks| :: PyBlank(blanks[k])
    ensures RStrip(s + blanks) == RStrip(s)
    decreases |blanks|
  {
    if blanks == "" {
      assert s + blanks == s;
    } else {
      var last := |blanks| - 1;
      assert (s + blanks)[..|s| + last] == s + blanks[..last];
      RStripBlanks(s, blanks[..last]);
    }
  }

  /** No line of the content reads as a heading. */
  predicate NoHeadingIn(content: string) {
    forall k | 0 <= k < |Split(content)| :: !IsHeading(Split(content)[k])
  }

  /** The section the release is meant to have. */
  function Intended(version: string, date: string, content: string): Section {
    Section(version, RStrip(Heading(version, date) + "\n\n" + content))
  }

  function ContentLines(content: string): seq<string> {
    if content != "" then Split(content) else []
  }

  lemma SectionListHead(line: string, rest: seq<string>, version: string)
    requires VersionOf(line) == Some(version)
    ensures SectionList([line] + rest) == [Section(version, RStrip(Join([line] + UntilHeading(rest))))] + SectionList(rest)
  {
    hide VersionOf, RStrip, Join, UntilHeading;
    assert ([line] + rest)[1..] == rest && ([line] + rest)[0] == line;
  }

  lemma BlockSections(version: string, date: string, content: string)
    requires IsVersion(version)
    ensures var heading, rest := Heading(version, date), [""] + ContentLines(content) + [""];
            SectionList(Block(version, date, content)) ==
            [Section(version, RStrip(Join([heading] + UntilHeading(rest))))] + SectionList(rest)
  {
    hide *;
    VersionOfNewHeading(version, date);
    BlockIs(version, date, content);
    SectionListHead(Heading(version, date), [""] + ContentLines(content) + [""], version);
  }

  lemma BlockIs(version: string, date: string, content: string)
    ensures Block(version, date, content) == [Heading(version, date)] + ([""] + ContentLines(content) + [""])
  {
    hide Heading, Split;
  }

  lemma JoinedBlock(heading: string, content: string)
    ensures RStrip(Join([heading] + ([""] + ContentLines(content) + [""]))) == RStrip(heading + "\n\n" + content)
  {
    hide RStrip, Split;
    if content == "" {
      assert [heading] + ([""] + [] + [""]) == [heading, "", ""];
      assert [heading, "", ""][1..] == ["", ""] && ["", ""][1..] == [""];
      assert Join([heading, "", ""]) == heading + "\n" + ("" + "\n" + "");
      assert heading + "\n" + ("" + "\n" + "") == heading + "\n\n" + content;
    } else {
      JoinOfSplit(content);
      hide Join;
      JoinOfSum([heading, ""], Split(content) + [""]);
      JoinOfSum(Split(content), [""]);
      JoinOfTwo(heading);
      var all := [heading] + ([""] + ContentLines(content) + [""]);
      assert all == [heading, ""] + (Split(content) + [""]);
      assert Join(all) == (heading + "\n") + "\n" + (content + "\n" + "");
      assert Join(all) == (heading + "\n\n" + content) + "\n";
      RStripBlanks(heading + "\n\n" + content, "\n");
    }
  }

  lemma JoinOfTwo(heading: string)
    ensures Join([heading, ""]) == heading + "\n" && Join([""]) == ""
  {
    assert [heading, ""][1..] == [""];
    assert heading + "\n" + "" == heading + "\n";
  }

  /** Content whose ends `strip` has cleaned. */
  predicate Stripped(content: string) {
    content == "" || !PyBlank(content[|content| - 1])
  }

  lemma ContentIsStripped(legacy: string, fragments: seq<string>)
    ensures Stripped(Content(legacy, fragments))
  {
    hide JoinParts, Parts;
  }

  lemma HeadlessContent(content: string)
    requires NoHeadingIn(content)
    ensures forall k | 0 <= k < |[""] + ContentLines(content) + [""]| :: !IsHeading(([""] + ContentLines(content) + [""])[k])
  {
    hide Split;
  }

  lemma {:induction false} UntilStops(lines: seq<string>, k: nat)
    requires k < |lines| && IsHeading(lines[k])
    ensures |UntilHeading(lines)| <= k && UntilHeading(lines) <= lines
  {
    if k > 0 && !IsHeading(lines[0]) { UntilStops(lines[1..], k - 1); }
  }

  lemma WholeJoined(heading: string, content: string)
    ensures Join([heading, ""] + Split(content)) == heading + "\n\n" + content
  {
    JoinOfSplit(content);
    JoinOfSum([heading, ""], Split(content));
    JoinOfTwo(heading);
    hide Join, Split;
    assert (heading + "\n") + "\n" + content == heading + "\n\n" + content;
  }

  lemma KeptPrefix(heading: string, lines: seq<string>, k: nat) returns (n: nat)
    requires k < |lines| && IsHeading(lines[k])
    ensures 0 < n < |[heading, ""] + lines| && [heading] + UntilHeading([""] + lines + [""]) == ([heading, ""] + lines)[..n]
  {
    var rest := [""] + lines + [""];
    assert rest[k + 1] == lines[k];
    UntilStops(rest, k + 1);
    hide IsHeading, UntilHeading;
    n := |UntilHeading(rest)| + 1;
    assert UntilHeading(rest) == rest[..n - 1];
  }

  lemma RStripKeeps(s: string)
    ensures |RStrip(s)| <= |s| && (s != "" && !PyBlank(s[|s| - 1]) ==> RStrip(s) == s)
  {
  }

  /** Cutting content off at one of its lines leaves less text than the section is meant to have. */
  lemma CutShort(heading: string, content: string, k: nat)
    requires content != "" && Stripped(content)
    requires k < |Split(content)| && IsHeading(Split(content)[k])
    ensures RStrip(Join([heading] + UntilHeading([""] + ContentLines(content) + [""]))) != RStrip(heading + "\n\n" + content)
  {
    hide Split, IsHeading, Join, UntilHeading, RStrip;
    var whole := [heading, ""] + Split(content);
    var n := KeptPrefix(heading, Split(content), k);
    ShorterPrefix(whole, n);
    WholeJoined(heading, content);
    var full := heading + "\n\n" + content;
    assert full[|full| - 1] == content[|content| - 1];
    RStripKeeps(full);
    RStripKeeps(Join(whole[..n]));
  }

  lemma ShorterPrefix(lines: seq<string>, n: nat)
    requires 0 < n < |lines|
    ensures |Join(lines[..n])| < |Join(lines)|
  {
    JoinOfSum(lines[..n], lines[n..]);
    assert lines[..n] + lines[n..] == lines;
  }

  /**
   The new block reads to the guard as exactly the section it is meant to be, if and only if no line of the
   stripped content starts with `## `.
   */
  lemma NewSectionExactly(version: string, date: string, content: string)
    requires IsVersion(version) && Stripped(content)
    ensures SectionList(Block(version, date, content)) == [Intended(version, date, content)] <==> NoHeadingIn(content)
  {
    BlockSections(version, date, content);
    if NoHeadingIn(content) {
      HeadlessContent(content);
      hide *;
      NoHeadingNoSection([""] + ContentLines(content) + [""]);
      JoinedBlock(Heading(version, date), content);
      IntendedIs(version, date, content);
    } else {
      hide *;
      var k := HeadingLine(content);
      CutShort(Heading(version, date), content, k);
      IntendedIs(version, date, content);
      var found := SectionList(Block(version, date, content));
      assert found[0] != Intended(version, date, content);
    }
  }

  lemma IntendedIs(version: string, date: string, content: string)
    ensures Intended(version, date, content) == Section(version, RStrip(Heading(version, date) + "\n\n" + content))
  {
  }

  lemma HeadingLine(content: string) returns (k: nat)
    requires !NoHeadingIn(content)
    ensures content != "" && k < |Split(content)| && IsHeading(Split(content)[k])
  {
    k :| 0 <= k < |Split(content)| && IsHeading(Split(content)[k]);
  }

  /**
   The guard reads an assembled file as the old sections, unchanged, with exactly the intended new one put in
   after those above the Unreleased heading, if and only if no line of the stripped content starts with `## `.
   */
  lemma ReleaseReadBackExactly(text: string, fragments: seq<string>, version: string, date: string)
    returns (b: Bounds, content: string, before: seq<Section>, after: seq<Section>)
    requires OneLine(version) && OneLine(date) && IsVersion(NormalizeVersion(version))
    requires Assembled(text, fragments, version, date).Ok?
    ensures BoundsOf(Split(text), "Unreleased") == Some(b) && b.start < b.end <= |Split(text)|
    ensures content == Content(Join(Split(text)[b.start + 1..b.end]), fragments)
    ensures SectionList(Split(text)) == before + after
    ensures var intended := Intended(NormalizeVersion(version), date, content);
            SectionList(Split(Assembled(text, fragments, version, date).value)) == before + [intended] + after <==> NoHeadingIn(content)
  {
    hide *;
    b, content, before, after := OldSectionsKept(text, fragments, version, date);
    ContentIsStripped(Join(Split(text)[b.start + 1..b.end]), fragments);
    NewSectionExactly(NormalizeVersion(version), date, content);
    Cancels(before, SectionList(Block(NormalizeVersion(version), date, content)), [Intended(NormalizeVersion(version), date, content)], after);
  }

  lemma Cancels<T>(a: seq<T>, b: seq<T>, c: seq<T>, d: seq<T>)
    ensures a + b + d == a + c + d <==> b == c
  {
    if a + b + d == a + c + d {
      assert |b| == |c|;
      forall k | 0 <= k < |b| ensures b[k] == c[k] { assert (a + b + d)[|a| + k] == (a + c + d)[|a| + k]; }
    }
  }

  // ---- running again, and the guard's dictionary ----

  /** A second run for a version that was just promoted refuses, whatever the fragments and the date. */
  lemma SecondRunRefuses(text: string, fragments: seq<string>, version: string, date: string,
                         more: seq<string>, later: string)
    requires OneLine(version) && OneLine(date)
    requires Assembled(text, fragments, version, date).Ok?
    ensures Assembled(Assembled(text, fragments, version, date).value, more, version, later) == Threw
  {
    hide *;
    var b, content := AssembledAt(text, fragments, version, date);
    var v := NormalizeVersion(version);
    var after := Split(Assembled(text, fragments, version, date).value);
    HeadingNames(v, date);
    BlockIs(v, date, content);
    assert after[b.start + 2] == Heading(v, date);
    IsPresent(after, v, b.start + 2);
    AssembledRefuses(Assembled(text, fragments, version, date).value, more, version, later);
  }

  lemma HeadingNames(version: string, date: string)
    ensures Names(Heading(version, date), version)
  {
    assert Heading(version, date) == "## " + version + (" -- " + date);
  }

  lemma IsPresent(lines: seq<string>, version: string, k: nat)
    requires k < |lines| && Names(lines[k], version)
    ensures Present(lines, version)
  {
    hide Names;
  }

  /** What is left under the Unreleased heading is one empty line, so another release starts with no legacy text. */
  lemma EmptiesUnreleased(text: string, fragments: seq<string>, version: string, date: string)
    requires OneLine(version) && OneLine(date)
    requires Assembled(text, fragments, version, date).Ok?
    ensures var lines := Split(Assembled(text, fragments, version, date).value);
            var b := BoundsOf(lines, "Unreleased");
            b.Some? && b == BoundsOf(Split(text), "Unreleased").(value := Bounds(b.value.start, b.value.start + 2))
            && lines[b.value.start + 1..b.value.end] == [""]
  {
    hide *;
    var b, content := AssembledAt(text, fragments, version, date);
    var lines, v := Split(text), NormalizeVersion(version);
    var block := Block(v, date, content);
    var after := lines[..b.start + 1] + [""] + block + lines[b.end..];
    FirstLine(lines, b);
    BlockIs(v, date, content);
    HeadingIsHeading(v, date);
    PutUnder(lines[..b.start + 1], block, lines[b.end..]);
    BoundsFound(after, b.start);
    assert after[b.start + 1..b.start + 2] == [""];
  }

  lemma PutUnder(head: seq<string>, block: seq<string>, rest: seq<string>)
    requires block != []
    ensures var after := head + [""] + block + rest;
            && |after| >= |head| + 2 && after[|head|] == "" && after[|head| + 1] == block[0]
            && forall j | 0 <= j < |head| :: after[j] == head[j]
  {
  }

  lemma FirstLine(lines: seq<string>, b: Bounds)
    requires BoundsOf(lines, "Unreleased") == Some(b)
    ensures b.start < |lines| && lines[b.start] == "## " + "Unreleased"
    ensures forall j | 0 <= j < b.start :: lines[j] != "## " + "Unreleased"
  {
  }

  lemma {:induction false} LineFromIs(lines: seq<string>, target: string, i: nat, k: nat)
    requires i <= k < |lines| && lines[k] == target && forall j | i <= j < k :: lines[j] != target
    ensures LineFrom(lines, target, i) == k
    decreases k - i
  {
    if i < k { LineFromIs(lines, target, i + 1, k); }
  }

  lemma BoundsFound(lines: seq<string>, start: nat)
    requires start + 2 < |lines| && lines[start] == "## " + "Unreleased" && lines[start + 1] == "" && IsHeading(lines[start + 2])
    requires forall j | 0 <= j < start :: lines[j] != "## " + "Unreleased"
    ensures BoundsOf(lines, "Unreleased") == Some(Bounds(start, start + 2))
  {
    LineFromIs(lines, "## " + "Unreleased", 0, start);
    assert !IsHeading("");
  }

  /**
   When the assembler refuses, line by line: when some line is the heading of the version, alone or with a space or a tab
   after it, or when no line is the Unreleased heading.
   */
  lemma RefusesExactly(text: string, fragments: seq<string>, version: string, date: string)
    ensures var lines, needle := Split(text), "## " + (if "v" <= version then version else "v" + version);
            Assembled(text, fragments, version, date).Threw? <==>
            || (exists k :: 0 <= k < |lines| && needle <= lines[k]
                            && (|lines[k]| == |needle| || lines[k][|needle|] == ' ' || lines[k][|needle|] == '\t'))
            || "## Unreleased" !in lines
  {
    var lines, v := Split(text), NormalizeVersion(version);
    hide Split, Join, NewSection, Content, LineFrom;
    assert "## " + "Unreleased" == "## Unreleased";
    if BoundsOf(lines, "Unreleased").Some? {
      assert lines[LineFrom(lines, "## " + "Unreleased", 0)] == "## Unreleased";
    }
    PresentSpelled(lines, v);
    hide Present, BoundsOf;
  }

  lemma PresentSpelled(lines: seq<string>, v: string)
    ensures Present(lines, v)
            <==> (exists k :: 0 <= k < |lines| && "## " + v <= lines[k]
                              && (|lines[k]| == |"## " + v| || lines[k][|"## " + v|] == ' ' || lines[k][|"## " + v|] == '\t'))
  {
  }

  predicate NumberAt(s: string, i: nat, j: nat) {
    i < j <= |s| && forall m | i <= m < j :: '0' <= s[m] <= '9'
  }

  /** A version as the guard reads it: `v`, three numbers with dots between them, and no word character after them. */
  predicate VersionEnds(s: string, i: nat, j: nat, k: nat) {
    && s != "" && s[0] == 'v'
    && NumberAt(s, 1, i) && i < |s| && s[i] == '.' && NumberAt(s, i + 1, j) && j < |s| && s[j] == '.' && NumberAt(s, j + 1, k)
    && (k < |s| ==> !('0' <= s[k] <= '9' || 'A' <= s[k] <= 'Z' || 'a' <= s[k] <= 'z' || s[k] == '_'))
  }

  lemma {:induction false} DigitCountSpelled(s: string)
    ensures var n := DigitCount(s); (forall m | 0 <= m < n :: '0' <= s[m] <= '9') && (n < |s| ==> !('0' <= s[n] <= '9'))
  {
    if s != "" && IsDigit(s[0]) {
      DigitCountSpelled(s[1..]);
      forall m | 0 <= m < DigitCount(s) ensures '0' <= s[m] <= '9' { if m > 0 { assert s[1..][m - 1] == s[m]; } }
    }
  }

  lemma PastNumberSpelled(s: string, i: nat)
    requires i <= |s|
    ensures var j := PastNumber(s, i); (i < j ==> NumberAt(s, i, j)) && (j < |s| ==> !('0' <= s[j] <= '9'))
  {
    DigitCountSpelled(s[i..]);
    var j := PastNumber(s, i);
    forall m | i <= m < j ensures '0' <= s[m] <= '9' { assert s[i..][m - i] == s[m]; }
    if j < |s| { assert s[i..][j - i] == s[j]; }
  }

  /** A number ends where the next character is no digit. */
  lemma NumberEnds(s: string, i: nat, n: nat)
    requires NumberAt(s, i, n) && (n < |s| ==> !('0' <= s[n] <= '9'))
    ensures PastNumber(s, i) == n
  {
    PastNumberSpelled(s, i);
    hide PastNumber;
  }

  lemma WordSpelled(c: char)
    ensures IsWord(c) <==> '0' <= c <= '9' || 'A' <= c <= 'Z' || 'a' <= c <= 'z' || c == '_'
  {
  }

  /** Which text the guard takes a version from, and which version. */
  lemma VersionSpelledOut(s: string)
    ensures forall i: nat, j: nat, k: nat | VersionEnds(s, i, j, k) :: VersionAt(s) == Some(s[..k])
    ensures VersionAt(s).Some? ==> exists i: nat, j: nat, k: nat :: VersionEnds(s, i, j, k) && VersionAt(s) == Some(s[..k])
  {
    hide VersionAt;
    if VersionAt(s).Some? { var i, j, k := VersionParts(s); }
    forall i: nat, j: nat, k: nat | VersionEnds(s, i, j, k)
      ensures VersionAt(s) == Some(s[..k])
    {
      VersionFromParts(s, i, j, k);
    }
  }

  lemma VersionParts(s: string) returns (i: nat, j: nat, k: nat)
    requires VersionAt(s).Some?
    ensures VersionEnds(s, i, j, k) && VersionAt(s) == Some(s[..k])
  {
    hide PastNumber, NumberAt, IsWord;
    i := PastNumber(s, 1);
    j := PastNumber(s, i + 1);
    k := PastNumber(s, j + 1);
    PastNumberSpelled(s, 1);
    PastNumberSpelled(s, i + 1);
    PastNumberSpelled(s, j + 1);
    if k < |s| { WordSpelled(s[k]); }
  }

  lemma VersionFromParts(s: string, i: nat, j: nat, k: nat)
    requires VersionEnds(s, i, j, k)
    ensures VersionAt(s) == Some(s[..k])
  {
    NumberOrder(s, i, j, k);
    hide PastNumber, NumberAt, IsWord;
    NumberEnds(s, 1, i);
    NumberEnds(s, i + 1, j);
    NumberEnds(s, j + 1, k);
    if k < |s| { WordSpelled(s[k]); }
  }

  lemma NumberOrder(s: string, i: nat, j: nat, k: nat)
    requires VersionEnds(s, i, j, k)
    ensures 1 < i && i + 1 < j && j + 1 < k <= |s|
  {
  }

  // ---- what the released section holds ----

  /** Each fragment stands whole at its place. */
  predicate Pieces(joined: string, fragments: seq<string>, at: seq<nat>) {
    |at| == |fragments|
    && forall k | 0 <= k < |at| :: at[k] + |fragments[k]| <= |joined| && joined[at[k]..at[k] + |fragments[k]|] == fragments[k]
  }

  predicate GapAt(joined: string, fragments: seq<string>, at: seq<nat>, k: nat)
    requires k + 1 < |at| && |at| == |fragments|
  {
    at[k + 1] == at[k] + |fragments[k]| + 2 <= |joined| && joined[at[k] + |fragments[k]|..at[k + 1]] == "\n\n"
  }

  /** Between one fragment and the next there is one empty line and nothing else. */
  predicate Gaps(joined: string, fragments: seq<string>, at: seq<nat>) {
    |at| == |fragments| && forall k | 0 <= k < |at| - 1 :: GapAt(joined, fragments, at, k)
  }

  /**
   `joined` is the legacy text, when there is any, and then every fragment, whole and in order, each set off by one
   empty line: `at[k]` is where the k-th fragment starts.
   */
  predicate LaidOut(joined: string, legacy: string, fragments: seq<string>, at: seq<nat>) {
    && Pieces(joined, fragments, at) && Gaps(joined, fragments, at)
    && legacy <= joined
    && (at == [] ==> joined == legacy)
    && (at != [] && legacy == "" ==> at[0] == 0)
    && (at != [] && legacy != "" ==> at[0] == |legacy| + 2 <= |joined| && joined[|legacy|..at[0]] == "\n\n")
    && (at != [] ==> at[|at| - 1] + |fragments[|at| - 1]| == |joined|)
  }

  lemma JoinFront(part: string, parts: seq<string>)
    requires parts != []
    ensures JoinParts([part] + parts) == part + "\n\n" + JoinParts(parts)
  {
    assert ([part] + parts)[1..] == parts;
  }

  function Shifted(at: seq<nat>, shift: nat): (r: seq<nat>)
    ensures |r| == |at| && forall k | 0 <= k < |at| :: r[k] == at[k] + shift
  {
    seq(|at|, k requires 0 <= k < |at| => at[k] + shift)
  }

  lemma ShiftedText(head: string, text: string, i: nat, j: nat)
    requires i <= j <= |text|
    ensures (head + text)[|head| + i..|head| + j] == text[i..j]
  {
  }

  /** The fragments alone. */
  lemma {:induction false} FragmentsLaidOut(fragments: seq<string>) returns (at: seq<nat>)
    ensures LaidOut(JoinParts(fragments), "", fragments, at)
    decreases |fragments|
  {
    if |fragments| <= 1 {
      at := seq(|fragments|, _ => 0);
    } else {
      var head, rest := fragments[0], fragments[1..];
      var later := FragmentsLaidOut(rest);
      assert fragments == [head] + rest;
      JoinFront(head, rest);
      at := [0] + Shifted(later, |head| + 2);
      FirstLaidOut(head, rest, later, JoinParts(rest));
    }
  }

  lemma PiecesMoved(start: string, text: string, fragments: seq<string>, later: seq<nat>)
    requires Pieces(text, fragments, later)
    ensures Pieces(start + text, fragments, Shifted(later, |start|))
  {
    var joined, at := start + text, Shifted(later, |start|);
    hide Shifted;
    forall k | 0 <= k < |at|
      ensures joined[at[k]..at[k] + |fragments[k]|] == fragments[k]
    {
      ShiftedText(start, text, later[k], later[k] + |fragments[k]|);
    }
  }

  lemma GapsMoved(start: string, text: string, fragments: seq<string>, later: seq<nat>)
    requires Gaps(text, fragments, later)
    ensures Gaps(start + text, fragments, Shifted(later, |start|))
  {
    var joined, at := start + text, Shifted(later, |start|);
    hide Shifted;
    forall k | 0 <= k < |at| - 1
      ensures GapAt(joined, fragments, at, k)
    {
      assert GapAt(text, fragments, later, k);
      ShiftedText(start, text, later[k] + |fragments[k]|, later[k + 1]);
    }
  }

  lemma PieceBefore(joined: string, head: string, rest: seq<string>, moved: seq<nat>)
    requires Pieces(joined, rest, moved) && head <= joined
    ensures Pieces(joined, [head] + rest, [0] + moved)
  {
    var at, all := [0] + moved, [head] + rest;
    forall k | 0 <= k < |at|
      ensures at[k] + |all[k]| <= |joined| && joined[at[k]..at[k] + |all[k]|] == all[k]
    {
      if k > 0 { assert at[k] == moved[k - 1] && all[k] == rest[k - 1]; }
    }
  }

  lemma GapBefore(joined: string, head: string, rest: seq<string>, moved: seq<nat>)
    requires Gaps(joined, rest, moved) && moved != [] && moved[0] == |head| + 2 <= |joined| && joined[|head|..|head| + 2] == "\n\n"
    ensures Gaps(joined, [head] + rest, [0] + moved)
  {
    forall k | 0 <= k < |moved|
      ensures GapAt(joined, [head] + rest, [0] + moved, k)
    {
      if k > 0 { assert GapAt(joined, rest, moved, k - 1); }
    }
    hide GapAt;
  }

  lemma HeadThen(head: string, text: string)
    ensures var joined := head + "\n\n" + text;
            head <= joined && |head| + 2 <= |joined| && joined[|head|..|head| + 2] == "\n\n" && |head + "\n\n"| == |head| + 2
  {
  }

  lemma FirstLaidOut(head: string, rest: seq<string>, later: seq<nat>, text: string)
    requires rest != [] && LaidOut(text, "", rest, later) && |later| == |rest|
    ensures LaidOut(head + "\n\n" + text, "", [head] + rest, [0] + Shifted(later, |head| + 2))
  {
    hide Pieces, Gaps;
    var joined, moved := head + "\n\n" + text, Shifted(later, |head| + 2);
    HeadThen(head, text);
    PiecesMoved(head + "\n\n", text, rest, later);
    GapsMoved(head + "\n\n", text, rest, later);
    PieceBefore(joined, head, rest, moved);
    GapBefore(joined, head, rest, moved);
  }

  lemma LegacyLaidOut(legacy: string, fragments: seq<string>, later: seq<nat>, text: string)
    requires legacy != "" && fragments != [] && LaidOut(text, "", fragments, later) && |later| == |fragments|
    ensures LaidOut(legacy + "\n\n" + text, legacy, fragments, Shifted(later, |legacy| + 2))
  {
    hide Pieces, Gaps;
    HeadThen(legacy, text);
    PiecesMoved(legacy + "\n\n", text, fragments, later);
    GapsMoved(legacy + "\n\n", text, fragments, later);
  }

  /** The parts the assembler joins. */
  lemma PartsLaidOut(legacy: string, fragments: seq<string>) returns (at: seq<nat>)
    ensures LaidOut(JoinParts(Parts(legacy, fragments)), Strip(legacy), fragments, at)
  {
    var text := Strip(legacy);
    at := FragmentsLaidOut(fragments);
    if text != "" {
      if fragments == [] {
        assert Parts(legacy, fragments) == [text];
      } else {
        JoinFront(text, fragments);
        LegacyLaidOut(text, fragments, at, JoinParts(fragments));
        at := Shifted(at, |text| + 2);
      }
    }
  }

  lemma StripIsBetween(s: string)
    ensures Between(s, |s| - |TrimLeft(s, PyBlank)|, Strip(s), PyBlank)
  {
    hide TrimLeft, TrimRight, PyBlank;
    TrimIsBetween(s, PyBlank);
  }

  /** Stripping cuts nothing off a piece that begins and ends with something else than a blank. */
  lemma PieceStays(s: string, lead: nat, core: string, i: nat, j: nat)
    requires Between(s, lead, core, PyBlank) && i < j <= |s| && !PyBlank(s[i]) && !PyBlank(s[j - 1])
    ensures lead <= i && j <= lead + |core| && core[i - lead..j - lead] == s[i..j]
  {
    hide PyBlank;
    assert lead <= i && j <= lead + |core|;
    assert core == s[lead..lead + |core|];
    forall k | i <= k < j ensures core[k - lead] == s[k] { }
  }

  /** A text as `strip` leaves it, and not empty. */
  predicate Trimmed(s: string) {
    s != "" && !PyBlank(s[0]) && !PyBlank(s[|s| - 1])
  }

  lemma JoinedAround(head: seq<string>, section: seq<string>, rest: seq<string>)
    requires head != [] && section != []
    ensures Join(head + [""] + section + rest)
         == Join(head) + "\n" + "\n" + Join(section) + if rest == [] then "" else "\n" + Join(rest)
  {
    JoinOfSum(head, [""]);
    JoinOfSum(head + [""], section);
    assert Join([""]) == "";
    hide Join;
    assert Join(head) + "\n" + "" == Join(head) + "\n";
    if rest != [] {
      JoinOfSum(head + [""] + section, rest);
      assert Join(head) + "\n" + "\n" + Join(section) + ("\n" + Join(rest)) == Join(head) + "\n" + "\n" + Join(section) + "\n" + Join(rest);
    } else {
      assert head + [""] + section + rest == head + [""] + section;
    }
  }

  lemma SectionJoined(version: string, date: string, content: string)
    ensures Join(NewSection(version, date, content))
         == "## " + version + " -- " + date + "\n" + (if content != "" then "\n" + content else "") + "\n"
  {
    var heading := "## " + version + " -- " + date;
    assert Heading(version, date) == heading;
    hide Heading;
    JoinOfTwo(heading);
    if content != "" {
      var section := [heading, ""] + [content] + [""];
      assert NewSection(version, date, content) == section;
      JoinOfSum([heading, ""] + [content], [""]);
      JoinOfSum([heading, ""], [content]);
      assert Join([content]) == content;
    } else {
      assert NewSection(version, date, content) == [heading, ""] + [""];
      JoinOfSum([heading, ""], [""]);
    }
  }

  /**
   The assembled text, spelled out: everything up to the Unreleased heading, an empty line, the heading line of the
   release, an empty line, the release's text, an empty line, and everything from the next heading on. The release's text
   is what `strip` leaves of the legacy text, itself stripped, and of all fragments laid out after it.
   */
  lemma ReleaseSpelled(text: string, fragments: seq<string>, version: string, date: string)
    returns (start: nat, end: nat, skipped: nat, legacy: string, joined: string, at: seq<nat>, lead: nat, content: string)
    requires Assembled(text, fragments, version, date).Ok?
    ensures Unreleased(Split(text), start, end) && Between(Join(Split(text)[start + 1..end]), skipped, legacy, PyBlank)
    ensures LaidOut(joined, legacy, fragments, at) && Between(joined, lead, content, PyBlank)
    ensures var lines := Split(text);
            Assembled(text, fragments, version, date).value ==
            Join(lines[..start + 1]) + "\n" + "\n"
            + ("## " + (if "v" <= version then version else "v" + version) + " -- " + date + "\n"
               + (if content != "" then "\n" + content else "") + "\n")
            + if lines[end..] == [] then "" else "\n" + Join(lines[end..])
  {
    hide *;
    var lines, v := Split(text), NormalizeVersion(version);
    if Present(lines, v) || BoundsOf(lines, "Unreleased").None? { AssembledRefuses(text, fragments, version, date); }
    var bounds := BoundsOf(lines, "Unreleased").value;
    start, end := bounds.start, bounds.end;
    BoundsSpelled(lines, bounds);
    AssembledOk(text, fragments, version, date, bounds);
    var body := Join(lines[start + 1..end]);
    legacy, skipped := Strip(body), |body| - |TrimLeft(body, PyBlank)|;
    StripIsBetween(body);
    joined := JoinParts(Parts(body, fragments));
    at := PartsLaidOut(body, fragments);
    StripIsBetween(joined);
    ContentIs(body, fragments);
    lead, content := |joined| - |TrimLeft(joined, PyBlank)|, Strip(joined);
    VersionSpelled(version);
    SectionJoined(v, date, content);
    NewSectionSome(v, date, content);
    JoinedAround(lines[..start + 1], NewSection(v, date, content), lines[end..]);
  }

  /** The lines from the first `## Unreleased` to the next heading, or to the end. */
  predicate Unreleased(lines: seq<string>, start: nat, end: nat) {
    && start < end <= |lines| && lines[start] == "## Unreleased" && (forall i | 0 <= i < start :: lines[i] != "## Unreleased")
    && (forall i | start < i < end :: !("## " <= lines[i])) && (end < |lines| ==> "## " <= lines[end])
  }

  lemma BoundsSpelled(lines: seq<string>, b: Bounds)
    requires BoundsOf(lines, "Unreleased") == Some(b)
    ensures Unreleased(lines, b.start, b.end)
  {
    assert "## " + "Unreleased" == "## Unreleased";
  }

  lemma VersionSpelled(version: string)
    ensures NormalizeVersion(version) == if "v" <= version then version else "v" + version
  {
  }

  lemma NewSectionSome(version: string, date: string, content: string)
    ensures NewSection(version, date, content) != []
  {
  }

  /**
   So no fragment is lost or cut: each one that `strip` has cleaned, as they are read from their files, stands whole in
   the release's text, and so does the legacy text, which comes first.
   */
  lemma FragmentsKept(joined: string, legacy: string, fragments: seq<string>, at: seq<nat>, lead: nat, content: string, k: nat)
    requires LaidOut(joined, legacy, fragments, at) && Between(joined, lead, content, PyBlank)
    ensures Trimmed(legacy) ==> lead == 0 && legacy <= content
    ensures k < |fragments| && Trimmed(fragments[k]) ==>
              lead <= at[k] && at[k] - lead + |fragments[k]| <= |content|
              && content[at[k] - lead..at[k] - lead + |fragments[k]|] == fragments[k]
  {
    hide PyBlank, Between, Gaps, Trimmed;
    if Trimmed(legacy) { WholePiece(joined, lead, content, 0, legacy); }
    if k < |fragments| && Trimmed(fragments[k]) { WholePiece(joined, lead, content, at[k], fragments[k]); }
  }

  lemma WholePiece(s: string, lead: nat, core: string, i: nat, piece: string)
    requires Between(s, lead, core, PyBlank) && Trimmed(piece) && i + |piece| <= |s| && s[i..i + |piece|] == piece
    ensures lead <= i && i - lead + |piece| <= |core| && core[i - lead..i - lead + |piece|] == piece
  {
    hide PyBlank, Between;
    assert piece[0] == s[i] && piece[|piece| - 1] == s[i + |piece| - 1];
    PieceStays(s, lead, core, i, i + |piece|);
  }

  /** And with nothing else but clean pieces the release's text is all of them and no more. */
  lemma NothingStripped(joined: string, legacy: string, fragments: seq<string>, at: seq<nat>, lead: nat, content: string)
    requires LaidOut(joined, legacy, fragments, at) && Between(joined, lead, content, PyBlank)
    requires (legacy == "" || Trimmed(legacy)) && forall k | 0 <= k < |fragments| :: Trimmed(fragments[k])
    ensures lead == 0 && content == joined
  {
    hide PyBlank;
    if joined != "" {
      if legacy != "" {
        assert joined[0] == legacy[0];
      } else {
        assert joined[at[0]..at[0] + |fragments[0]|][0] == joined[0];
      }
      if fragments == [] {
        assert joined[|joined| - 1] == legacy[|legacy| - 1];
      } else {
        var last := |at| - 1;
        assert joined[at[last]..at[last] + |fragments[last]|][|fragments[last]| - 1] == joined[|joined| - 1];
      }
      PieceStays(joined, lead, content, 0, |joined|);
    }
  }

  /**
   What the guard reads of it: the old sections with one of that version among them, whose text is the heading line, an
   empty line and the release's text, if and only if no line of that text starts with `## `.
   */
  lemma GuardReadsRelease(text: string, fragments: seq<string>, version: string, date: string)
    returns (legacy: string, joined: string, at: seq<nat>, lead: nat, content: string, before: seq<Section>, after: seq<Section>)
    requires OneLine(version) && OneLine(date) && IsVersion(NormalizeVersion(version))
    requires Assembled(text, fragments, version, date).Ok?
    ensures LaidOut(joined, legacy, fragments, at) && Between(joined, lead, content, PyBlank)
    ensures SectionList(Split(text)) == before + after
    ensures var v := if "v" <= version then version else "v" + version;
            SectionList(Split(Assembled(text, fragments, version, date).value))
            == before + [Section(v, RStrip("## " + v + " -- " + date + "\n\n" + content))] + after
            <==> forall k | 0 <= k < |Split(content)| :: !("## " <= Split(content)[k])
  {
    hide *;
    var b: Bounds;
    b, content, before, after := ReleaseReadBackExactly(text, fragments, version, date);
    var body := Join(Split(text)[b.start + 1..b.end]);
    legacy, joined := Strip(body), JoinParts(Parts(body, fragments));
    at := PartsLaidOut(body, fragments);
    StripIsBetween(joined);
    lead := |joined| - |TrimLeft(joined, PyBlank)|;
    ContentIs(body, fragments);
    SpelledIntended(version, date, content);
    HeadlessIs(content);
  }

  lemma ContentIs(legacy: string, fragments: seq<string>)
    ensures Content(legacy, fragments) == Strip(JoinParts(Parts(legacy, fragments)))
  {
  }

  lemma HeadlessIs(content: string)
    ensures NoHeadingIn(content) <==> forall k | 0 <= k < |Split(content)| :: !("## " <= Split(content)[k])
  {
    hide Split;
  }

  lemma SpelledIntended(version: string, date: string, content: string)
    ensures var v := if "v" <= version then version else "v" + version;
            Intended(NormalizeVersion(version), date, content) == Section(v, RStrip("## " + v + " -- " + date + "\n\n" + content))
  {
    hide RStrip;
  }

  // ---- one dictionary entry more ----

  function SetOf(versions: seq<string>): set<string> {
    set v | v in versions
  }

  lemma SetGrows(front: seq<string>, last: string)
    ensures SetOf(front + [last]) == SetOf(front) + {last}
    ensures |SetOf(front + [last])| == |SetOf(front)| + if last in front then 0 else 1
  {
    assert SetOf(front + [last]) == SetOf(front) + {last};
    assert last in front ==> SetOf(front) + {last} == SetOf(front);
  }

  lemma {:induction false} DuplicateCount(versions: seq<string>)
    ensures |Duplicates(versions)| == |versions| - |SetOf(versions)|
    decreases |versions|
  {
    if versions == [] {
      assert SetOf(versions) == {};
    } else {
      var front, last := versions[..|versions| - 1], versions[|versions| - 1];
      DuplicateCount(front);
      SetGrows(front, last);
      assert versions == front + [last];
      hide SetOf;
    }
  }

  /** The dictionary has exactly the versions announced, each with the text of its last section. */
  lemma {:induction false} LastSectionWins(list: seq<Section>, k: nat)
    requires k < |list| && forall j | k < j < |list| :: list[j].version != list[k].version
    ensures list[k].version in ToMap(list) && ToMap(list)[list[k].version] == list[k].body
  {
    if k < |list| - 1 {
      assert list[..|list| - 1][k] == list[k];
      LastSectionWins(list[..|list| - 1], k);
    }
  }

  /** A version is reported as a duplicate exactly when it was announced at two places or more. */
  lemma {:induction false} DuplicatesSpelled(versions: seq<string>, v: string)
    ensures v in Duplicates(versions) <==> exists i, j :: 0 <= i < j < |versions| && versions[i] == versions[j] == v
  {
    if versions != [] {
      var n := |versions| - 1;
      DuplicatesSpelled(versions[..n], v);
      assert forall k | 0 <= k < n :: versions[..n][k] == versions[k];
      if v in Duplicates(versions[..n]) {
        var i, j :| 0 <= i < j < n && versions[..n][i] == versions[..n][j] == v;
        assert versions[i] == versions[j] == v;
      }
      if i, j :| 0 <= i < j < |versions| && versions[i] == versions[j] == v {
        assert versions[..n][i] == v;
        if j < n { assert versions[..n][i] == versions[..n][j] == v; }
      }
      if versions[n] in versions[..n] {
        var i :| 0 <= i < n && versions[..n][i] == versions[n];
        assert versions[i] == versions[n];
      }
    }
  }

  lemma VersionsOfSum(a: seq<Section>, b: seq<Section>)
    ensures Versions(a + b) == Versions(a) + Versions(b)
  {
  }

  function VersionSet(list: seq<Section>): set<string> {
    SetOf(Versions(list))
  }

  lemma {:induction false} KeysAreVersions(list: seq<Section>)
    ensures ToMap(list).Keys == VersionSet(list)
    decreases |list|
  {
    if list != [] {
      var front, last := list[..|list| - 1], list[|list| - 1];
      KeysAreVersions(front);
      OneMore(front, last);
      assert list == front + [last];
      hide ToMap;
      assert VersionSet(list) == VersionSet(front) + {last.version};
    }
  }

  /** A section of a new version, put in anywhere, leaves every old look-up and the duplicates as they were. */
  lemma {:induction false} FreshSectionAdds(before: seq<Section>, added: Section, after: seq<Section>)
    requires added.version !in Versions(before + after)
    ensures ToMap(before + [added] + after) == ToMap(before + after)[added.version := added.body]
    ensures Duplicates(Versions(before + [added] + after)) == Duplicates(Versions(before + after))
    decreases |after|
  {
    hide *;
    if after == [] {
      assert before + [added] + after == before + [added] && before + after == before;
      OneMore(before, added);
    } else {
      var rest, last := after[..|after| - 1], after[|after| - 1];
      assert after == rest + [last];
      FreshBefore(before, added, rest, last);
      FreshSectionAdds(before, added, rest);
      OneMore(before + [added] + rest, last);
      OneMore(before + rest, last);
      Associates(before + [added], rest, [last]);
      Associates(before, rest, [last]);
      Overwritten(ToMap(before + rest), added.version, added.body, last.version, last.body);
    }
  }

  lemma Overwritten(m: map<string, string>, v: string, body: string, w: string, other: string)
    requires v != w
    ensures m[v := body][w := other] == m[w := other][v := body]
  {
  }

  lemma {:induction false} FreshBefore(before: seq<Section>, added: Section, rest: seq<Section>, last: Section)
    requires added.version !in Versions(before + (rest + [last]))
    ensures added.version !in Versions(before + rest) && added.version != last.version
    ensures last.version in Versions(before + [added] + rest) <==> last.version in Versions(before + rest)
  {
    assert before + (rest + [last]) == (before + rest) + [last];
    VersionsOfSum(before + rest, [last]);
    VersionsOfSum(before, rest);
    VersionsOfSum(before + [added], rest);
    VersionsOfSum(before, [added]);
    assert Versions([last]) == [last.version] && Versions([added]) == [added.version];
  }

  /**
   Putting sections in, of which the first is of version `v`: the dictionary only gains the intended entry and
   the duplicates stay, exactly when the intended section alone was put in and its version was not there.
   */
  lemma {:induction false} GainsOneEntryExactly(before: seq<Section>, added: seq<Section>, after: seq<Section>, intended: Section)
    requires added != [] && added[0].version == intended.version
    ensures (&& ToMap(before + added + after) == ToMap(before + after)[intended.version := intended.body]
             && Duplicates(Versions(before + added + after)) == Duplicates(Versions(before + after)))
            <==> added == [intended] && intended.version !in Versions(before + after)
  {
    var old_, new_, v := before + after, before + added + after, intended.version;
    if added == [intended] && v !in Versions(old_) {
      FreshSectionAdds(before, intended, after);
    }
    if ToMap(new_) == ToMap(old_)[v := intended.body] && Duplicates(Versions(new_)) == Duplicates(Versions(old_)) {
      assert v in VersionSet(old_) ==> VersionSet(old_) + {v} == VersionSet(old_);
      KeysAreVersions(old_);
      KeysAreVersions(new_);
      DuplicateCount(Versions(old_));
      DuplicateCount(Versions(new_));
      hide ToMap, Duplicates, Versions;
      assert VersionSet(new_) == VersionSet(old_) + {v};
      assert |new_| == |old_| + |added|;
      assert v !in VersionSet(old_) && |added| == 1;
      FreshSectionAdds(before, added[0], after);
      assert [added[0]] == added;
      assert ToMap(new_)[v] == added[0].body == intended.body;
    }
  }

  /**
   What the guard reports of an assembled file: the old dictionary with just the intended entry put in, and the
   old duplicates, if and only if no line of the stripped content starts with `## ` and the guard did not read
   the new version anywhere in the old file.
   */
  lemma {:induction false} GuardReportExactly(text: string, fragments: seq<string>, version: string, date: string)
    returns (b: Bounds, content: string)
    requires OneLine(version) && OneLine(date) && IsVersion(NormalizeVersion(version))
    requires Assembled(text, fragments, version, date).Ok?
    ensures BoundsOf(Split(text), "Unreleased") == Some(b) && b.start < b.end <= |Split(text)|
    ensures content == Content(Join(Split(text)[b.start + 1..b.end]), fragments)
    ensures var was, now_ := SectionList(Split(text)), SectionList(Split(Assembled(text, fragments, version, date).value));
            var v, intended := NormalizeVersion(version), Intended(NormalizeVersion(version), date, content);
            (ToMap(now_) == ToMap(was)[v := intended.body] && Duplicates(Versions(now_)) == Duplicates(Versions(was)))
            <==> NoHeadingIn(content) && v !in Versions(was)
  {
    hide *;
    var before, after;
    b, content, before, after := OldSectionsKept(text, fragments, version, date);
    var v := NormalizeVersion(version);
    ContentIsStripped(Join(Split(text)[b.start + 1..b.end]), fragments);
    NewSectionExactly(v, date, content);
    BlockSections(v, date, content);
    IntendedIs(v, date, content);
    GainsOneEntryExactly(before, SectionList(Block(v, date, content)), after, Intended(v, date, content));
  }

  /**
   The refusal is narrower than the guard's reading: of the headings that read as a version to the guard, the
   assembler notices those that go on with a space, a tab or nothing.
   */
  lemma RefusalNoticesExactly(line: string, v: string)
    requires VersionOf(line) == Some(v)
    ensures Names(line, v) <==> |line| == 3 + |v| || line[3 + |v|] == ' ' || line[3 + |v|] == '\t'
  {
    assert line == "## " + line[3..] && v <= line[3..];
    assert line[..3 + |v|] == "## " + v;
    if |line| == 3 + |v| { assert line == line[..3 + |v|]; }
  }

  // ---- two changelogs ----

  const RC_HEADING: string := "## " + "v1.2.3" + "-rc1"

  lemma PlainVersion()
    ensures IsVersion("v1.2.3") && VersionOf(RC_HEADING) == Some("v1.2.3")
  {
    PlainVersionAt("v1.2.3");
    hide VersionOf, IsVersion;
    HeadingReads("v1.2.3", "-rc1");
  }

  lemma PlainVersionAt(v: string)
    requires |v| == 6 && v[0] == 'v' && v[2] == v[4] == '.' && IsDigit(v[1]) && IsDigit(v[3]) && IsDigit(v[5])
    ensures IsVersion(v)
  {
    OneDigit(v, 1);
    OneDigit(v, 3);
    OneDigit(v, 5);
    hide PastNumber;
    assert v[..6] == v;
  }

  lemma OneDigit(s: string, i: nat)
    requires i < |s| && IsDigit(s[i]) && (i + 1 < |s| ==> !IsDigit(s[i + 1]))
    ensures PastNumber(s, i) == i + 1
  {
    var t := s[i..];
    assert t[1..] == s[i + 1..];
    assert DigitCount(t[1..]) == 0;
  }

  const RC_LINES: seq<string> := ["## Unreleased", RC_HEADING]

  /** A release candidate's heading reads as its version to the guard, and the assembler promotes that version all the same. */
  lemma CandidateSlipsThrough()
    ensures "v1.2.3" in Versions(SectionList(Split(Join(RC_LINES))))
    ensures Assembled(Join(RC_LINES), [], "v1.2.3", "2026-01-01").Ok?
  {
    hide *;
    LinesOfCandidate();
    NotPresent();
    AssembledOk(Join(RC_LINES), [], "v1.2.3", "2026-01-01", BoundsOf(RC_LINES, "Unreleased").value);
    ReadsCandidate();
  }

  lemma LinesOfCandidate()
    ensures Split(Join(RC_LINES)) == RC_LINES
  {
    assert AllOneLine(RC_LINES);
    SplitOfJoin(RC_LINES);
  }

  lemma NotPresent()
    ensures !Present(RC_LINES, NormalizeVersion("v1.2.3")) && BoundsOf(RC_LINES, "Unreleased").Some?
    ensures NormalizeVersion("v1.2.3") == "v1.2.3"
  {
    PlainVersion();
    UnreleasedIsNoVersion();
    hide VersionOf, IsVersion;
    RefusalNoticesExactly(RC_HEADING, "v1.2.3");
    assert "v1.2.3"[..1] == "v";
    assert ("## " + "v1.2.3")[3] == 'v' && "## Unreleased"[3] == 'U';
  }

  lemma ReadsCandidate()
    ensures "v1.2.3" in Versions(SectionList(RC_LINES))
  {
    PlainVersion();
    UnreleasedIsNoVersion();
    hide VersionOf, RStrip, Join, UntilHeading;
    var lines := RC_LINES;
    assert lines[1..] == [RC_HEADING] + [];
    SectionListHead(RC_HEADING, [], "v1.2.3");
    var list := SectionList(lines);
    assert list == SectionList(lines[1..]);
    assert Versions(list)[0] == list[0].version == "v1.2.3";
  }

  /** Any indented heading line is prose where it stands; `strip` brings it to the margin of the new section. */
  lemma StripMakesAHeading(line: string)
    requires IsHeading(line) && OneLine(line) && !PyBlank(line[|line| - 1])
    ensures !IsHeading(" " + line) && Content(" " + line, []) == line && !NoHeadingIn(Content(" " + line, []))
  {
    assert line[0] == '#' && (" " + line)[0] == ' ';
    StripsOneSpace(line);
    StripsNothing(line);
    HeadingAlone(line);
    hide *;
    ContentOfOne(" " + line, line);
  }

  lemma ContentOfOne(legacy: string, line: string)
    requires Strip(legacy) == line != "" && Strip(line) == line
    ensures Content(legacy, []) == line
  {
    hide Strip;
    assert Parts(legacy, []) == [line];
  }

  lemma HeadingAlone(line: string)
    requires IsHeading(line) && OneLine(line)
    ensures !NoHeadingIn(line)
  {
    SplitOneLine(line);
    hide Split;
    assert Split(line)[0] == line;
  }

  lemma StripsNothing(s: string)
    requires s != "" && !PyBlank(s[0]) && !PyBlank(s[|s| - 1])
    ensures Strip(s) == s
  {
    assert TrimLeft(s, PyBlank) == s && TrimRight(s, PyBlank) == s;
  }

  lemma StripsOneSpace(s: string)
    requires s != "" && !PyBlank(s[0]) && !PyBlank(s[|s| - 1])
    ensures Strip(" " + s) == s
  {
    StripsNothing(s);
    assert (" " + s)[1..] == s && PyBlank((" " + s)[0]);
    assert TrimLeft(" " + s, PyBlank) == TrimLeft(s, PyBlank) == s;
  }
}
