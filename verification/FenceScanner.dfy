/**
 The scanner that blanks code out of a pull request body (`strip_code` in `scripts/pr-body-guard.py`): fenced
 blocks line by line first, then inline spans.
 */
module FenceScanner {
  import opened Lines

  function LeadingSpaces(line: string): (k: nat)
    ensures k <= |line|
  {
    if line != "" && line[0] == ' ' then 1 + LeadingSpaces(line[1..]) else 0
  }

  /** FENCE_LINE: at most three spaces, then at least three backticks. */
  predicate IsFence(line: string) {
    var k := LeadingSpaces(line);
    k <= 3 && k + 3 <= |line| && line[k..k + 3] == "```"
  }

  /** A fence, character by character: up to three spaces and then three backticks, whatever follows. */
  lemma FenceSpelled(line: string)
    ensures IsFence(line) <==> exists k :: FenceAfter(line, k)
  {
    hide IsFence, FenceAfter;
    if IsFence(line) { FenceIsAfter(line); }
    if k :| FenceAfter(line, k) { AfterIsFence(line, k); }
  }

  lemma ThreeBackticks(line: string, k: nat)
    requires k + 3 <= |line|
    ensures line[k..k + 3] == "```" <==> line[k] == line[k + 1] == line[k + 2] == '`'
  {
    assert line[k..k + 3] == [line[k], line[k + 1], line[k + 2]];
  }

  lemma FenceIsAfter(line: string)
    requires IsFence(line)
    ensures FenceAfter(line, LeadingSpaces(line))
  {
    SpacesLead(line);
    var k := LeadingSpaces(line);
    hide LeadingSpaces;
    ThreeBackticks(line, k);
  }

  lemma AfterIsFence(line: string, k: int)
    requires FenceAfter(line, k)
    ensures IsFence(line)
  {
    SpacesLead(line);
    var n := LeadingSpaces(line);
    hide LeadingSpaces;
    assert n == k;
    ThreeBackticks(line, n);
  }

  predicate FenceAfter(line: string, k: int) {
    0 <= k <= 3 && k + 3 <= |line| && (forall i | 0 <= i < k :: line[i] == ' ') && line[k] == line[k + 1] == line[k + 2] == '`'
  }

  lemma {:induction false} SpacesLead(line: string)
    ensures var n := LeadingSpaces(line); (forall i | 0 <= i < n :: line[i] == ' ') && (n < |line| ==> line[n] != ' ')
  {
    if line != "" && line[0] == ' ' {
      SpacesLead(line[1..]);
      forall i | 0 <= i < LeadingSpaces(line) ensures line[i] == ' ' { if i > 0 { assert line[1..][i - 1] == line[i]; } }
    }
  }

  /** The fence lines, in order. */
  function Fences(lines: seq<string>): seq<nat>
    decreases |lines|
  {
    if lines == [] then []
    else
      var last := |lines| - 1;
      Fences(lines[..last]) + if IsFence(lines[last]) then [last] else []
  }

  /** The m-th pair: the fence numbered 2m and the next one. */
  predicate InPair(fences: seq<nat>, m: nat, i: nat) {
    2 * m + 1 < |fences| && fences[2 * m] <= i <= fences[2 * m + 1]
  }

  predicate InSomePair(fences: seq<nat>, i: nat) {
    exists m | 0 <= m < |fences| :: InPair(fences, m, i)
  }

  predicate Blanked(lines: seq<string>, i: nat) {
    InSomePair(Fences(lines), i)
  }

  /** Every paired line blanked, every other line kept. */
  function Scrubbed(lines: seq<string>): (r: seq<string>)
    ensures |r| == |lines|
  {
    seq(|lines|, i requires 0 <= i < |lines| => if Blanked(lines, i) then " " else lines[i])
  }

  // ---- the scan ----

  lemma {:induction false} FencesBelow(lines: seq<string>)
    ensures forall k | 0 <= k < |Fences(lines)| :: Fences(lines)[k] < |lines|
    decreases |lines|
  {
    hide IsFence;
    if lines != [] { FencesBelow(lines[..|lines| - 1]); }
  }

  /** The fences of a prefix come first; the others stand past it. */
  lemma {:induction false} FencesGrow(lines: seq<string>, n: nat)
    requires n <= |lines|
    ensures Fences(lines[..n]) <= Fences(lines)
    ensures forall k | |Fences(lines[..n])| <= k < |Fences(lines)| :: n <= Fences(lines)[k]
    decreases |lines|
  {
    hide IsFence;
    if n < |lines| {
      assert lines[..|lines| - 1][..n] == lines[..n];
      FencesGrow(lines[..|lines| - 1], n);
    } else {
      assert lines[..n] == lines;
    }
  }

  /** From `first` up to `limit` no line is a fence, so the count stays. */
  lemma {:induction false} NoFenceBetween(lines: seq<string>, first: nat, limit: nat)
    requires first <= limit <= |lines| && forall j | first <= j < limit :: !IsFence(lines[j])
    ensures Fences(lines[..limit]) == Fences(lines[..first])
    decreases limit
  {
    hide IsFence;
    if first < limit {
      assert lines[..limit][..limit - 1] == lines[..limit - 1] && lines[..limit][limit - 1] == lines[limit - 1];
      NoFenceBetween(lines, first, limit - 1);
    }
  }

  lemma FenceAt(lines: seq<string>, i: nat)
    requires i < |lines| && IsFence(lines[i])
    ensures Fences(lines[..i + 1]) == Fences(lines[..i]) + [i]
  {
    assert lines[..i + 1][..i] == lines[..i];
  }

  /** A list of fences that is `before` and then only fences past `i` has no pair around `i`, when `before` is even. */
  lemma NoPairAround(f: seq<nat>, before: seq<nat>, i: nat)
    requires before <= f && |before| % 2 == 0
    requires forall k | 0 <= k < |before| :: before[k] < i
    requires forall k | |before| <= k < |f| :: i < f[k]
    ensures !InSomePair(f, i)
  {
    forall m | 0 <= m < |f| ensures !InPair(f, m, i) {
      if 2 * m + 1 < |before| { assert f[2 * m + 1] == before[2 * m + 1]; }
    }
  }

  /** With an even number of fences before `i` and none at `i`, line `i` is in no pair. */
  lemma PlainKept(lines: seq<string>, i: nat)
    requires i < |lines| && !IsFence(lines[i]) && |Fences(lines[..i])| % 2 == 0
    ensures !Blanked(lines, i)
  {
    NoFenceBetween(lines, i, i + 1);
    FencesGrow(lines, i + 1);
    FencesBelow(lines[..i]);
    hide IsFence, Fences, InPair, InSomePair;
    NoPairAround(Fences(lines), Fences(lines[..i]), i);
  }

  /** From an even-numbered fence to the next one, every line is in that pair. */
  lemma PairBlanked(lines: seq<string>, i: nat, close: nat)
    requires i < close < |lines| && IsFence(lines[i]) && IsFence(lines[close])
    requires forall j | i < j < close :: !IsFence(lines[j])
    requires |Fences(lines[..i])| % 2 == 0
    ensures forall k | i <= k <= close :: Blanked(lines, k)
    ensures Fences(lines[..close + 1]) == Fences(lines[..i]) + [i, close]
  {
    FenceAt(lines, i);
    NoFenceBetween(lines, i + 1, close);
    FenceAt(lines, close);
    FencesGrow(lines, close + 1);
    hide IsFence, Fences, InSomePair;
    PairAround(Fences(lines), Fences(lines[..i]), i, close);
  }

  lemma PairAround(f: seq<nat>, before: seq<nat>, i: nat, close: nat)
    requires before + [i, close] <= f && |before| % 2 == 0
    ensures forall k | i <= k <= close :: InSomePair(f, k)
  {
    var n := |before|;
    assert f[n] == (before + [i, close])[n] == i && f[n + 1] == (before + [i, close])[n + 1] == close;
    forall k | i <= k <= close ensures InSomePair(f, k) { assert InPair(f, n / 2, k); }
  }

  /** After an even-numbered last fence nothing is blanked, that fence's line included. */
  lemma UnpairedKept(lines: seq<string>, i: nat, k: nat)
    requires i <= k < |lines| && IsFence(lines[i]) && forall j | i < j < |lines| :: !IsFence(lines[j])
    requires |Fences(lines[..i])| % 2 == 0
    ensures !Blanked(lines, k)
  {
    FenceAt(lines, i);
    NoFenceBetween(lines, i + 1, |lines|);
    assert lines[..|lines|] == lines;
    FencesBelow(lines[..i]);
    hide IsFence, Fences, InSomePair;
    LastIsOpen(Fences(lines), Fences(lines[..i]), i, k);
  }

  lemma LastIsOpen(f: seq<nat>, before: seq<nat>, i: nat, k: nat)
    requires f == before + [i] && |before| % 2 == 0 && i <= k
    requires forall n | 0 <= n < |before| :: before[n] < i
    ensures !InSomePair(f, k)
  {
    forall m | 0 <= m < |f| ensures !InPair(f, m, k) {
      if 2 * m + 1 < |f| { assert f[2 * m + 1] == before[2 * m + 1]; }
    }
  }

  /** Fence `u` opens a block that no later fence closes. */
  ghost predicate Unpaired(lines: seq<string>, u: nat) {
    u < |lines| && IsFence(lines[u]) && |Fences(lines[..u])| % 2 == 0 && forall j | u < j < |lines| :: !IsFence(lines[j])
  }

  /** Where the scan stands before line `i`: between pairs, or past the fence that never closes. */
  ghost predicate ScanAt(lines: seq<string>, i: nat) {
    i <= |lines| && (|Fences(lines[..i])| % 2 == 0 || exists u | 0 <= u < i :: Unpaired(lines, u))
  }

  lemma ScanStarts(lines: seq<string>)
    ensures ScanAt(lines, 0)
  {
    assert lines[..0] == [];
  }

  /** A line that opens no closed block is kept, and the scan moves on by one. */
  lemma KeepsLine(lines: seq<string>, i: nat)
    requires i < |lines| && ScanAt(lines, i)
    requires IsFence(lines[i]) ==> forall j | i < j < |lines| :: !IsFence(lines[j])
    ensures !Blanked(lines, i) && ScanAt(lines, i + 1)
  {
    hide IsFence, Blanked, Fences;
    if |Fences(lines[..i])| % 2 == 0 {
      if IsFence(lines[i]) {
        assert Unpaired(lines, i);
        UnpairedKept(lines, i, i);
      } else {
        PlainKept(lines, i);
        NoFenceBetween(lines, i, i + 1);
      }
    } else {
      var u :| 0 <= u < i && Unpaired(lines, u);
      UnpairedKept(lines, u, i);
    }
  }

  lemma BlanksBlock(lines: seq<string>, i: nat, close: nat)
    requires ScanAt(lines, i) && i < close < |lines| && IsFence(lines[i]) && IsFence(lines[close])
    requires forall j | i < j < close :: !IsFence(lines[j])
    ensures forall k | i <= k <= close :: Blanked(lines, k)
    ensures ScanAt(lines, close + 1)
  {
    hide IsFence, Blanked, Fences;
    PairBlanked(lines, i, close);
  }

  /** The first pass of `strip_code`: it blanks exactly the paired lines. */
  method BlankFences(lines: seq<string>) returns (output: seq<string>)
    ensures output == Scrubbed(lines)
  {
    hide IsFence, Blanked, ScanAt;
    output := [];
    var i := 0;
    ScanStarts(lines);
    while i < |lines|
      invariant 0 <= i <= |lines| && |output| == i && ScanAt(lines, i)
      invariant forall k | 0 <= k < i :: output[k] == if Blanked(lines, k) then " " else lines[k]
    {
      if IsFence(lines[i]) {
        var j := i + 1;
        while j < |lines| && !IsFence(lines[j])
          invariant i < j <= |lines|
          invariant forall k | i < k < j :: !IsFence(lines[k])
        {
          j := j + 1;
        }
        if j < |lines| {
          BlanksBlock(lines, i, j);
          output := output + seq(j - i + 1, _ => " ");
          i := j + 1;
          continue;
        }
      }
      KeepsLine(lines, i);
      output := output + [lines[i]];
      i := i + 1;
    }
  }

  // ---- inline spans ----

  /** The first backtick or newline in `s`, or `|s|`. */
  function NextStop(s: string): (k: nat)
    ensures k <= |s| && (k < |s| ==> s[k] == '`' || s[k] == '\n')
    ensures forall j | 0 <= j < k :: s[j] != '`' && s[j] != '\n'
  {
    if s == "" || s[0] == '`' || s[0] == '\n' then 0 else 1 + NextStop(s[1..])
  }

  /** What one match, or one character that starts none, turns into, and how much text it takes. */
  datatype Taken = Taken(text: string, length: nat)

  function Take(s: string): (t: Taken)
    requires s != ""
    ensures 0 < t.length <= |s|
  {
    var end := NextStop(s[1..]) + 1;
    if s[0] == '`' && end < |s| && s[end] == '`' then Taken(" ", end + 1) else Taken(s[..1], 1)
  }

  /** Replacing every leftmost backtick, non-backtick run, backtick of one line by a space. */
  function Inline(s: string): string
    decreases |s|
  {
    if s == "" then "" else Take(s).text + Inline(s[Take(s).length..])
  }

  function InlineAll(lines: seq<string>): (r: seq<string>)
    ensures |r| == |lines|
  {
    if lines == [] then [] else [Inline(lines[0])] + InlineAll(lines[1..])
  }

  lemma Rest(line: string, n: nat)
    requires OneLine(line) && n <= |line|
    ensures OneLine(line[n..]) && OneLine(line[..n])
  {
    assert forall k | 0 <= k < |line| :: line[k] in line;
  }

  lemma TakeBeforeNewline(line: string, text: string)
    requires OneLine(line) && line != ""
    ensures Take(line + "\n" + text) == Take(line)
  {
    var whole := line + "\n" + text;
    assert whole[1..] == line[1..] + "\n" + text && whole[..1] == line[..1];
    Rest(line, 1);
    StopBeforeNewline(line[1..], text);
    hide NextStop;
    assert NextStop(line[1..]) <= |line| - 1;
  }

  /** A span never reaches over a newline. */
  lemma {:induction false} InlineAtNewline(line: string, text: string)
    requires OneLine(line)
    ensures Inline(line + "\n" + text) == Inline(line) + "\n" + Inline(text)
    decreases |line|
  {
    var whole := line + "\n" + text;
    if line == "" {
      assert whole == "\n" + text && whole[1..] == text && "" + "\n" + Inline(text) == "\n" + Inline(text);
    } else {
      var n := Take(line).length;
      TakeBeforeNewline(line, text);
      Rest(line, n);
      InlineAtNewline(line[n..], text);
      hide Take;
      assert whole[n..] == line[n..] + "\n" + text;
      RegroupFour(Take(line).text, Inline(line[n..]), "\n", Inline(text));
    }
  }

  lemma RegroupFour(a: string, b: string, c: string, d: string)
    ensures a + (b + c + d) == (a + b) + c + d
  {
  }

  lemma {:induction false} StopBeforeNewline(line: string, text: string)
    requires OneLine(line)
    ensures NextStop(line + "\n" + text) == NextStop(line)
  {
    var whole := line + "\n" + text;
    if line != "" {
      assert whole[1..] == line[1..] + "\n" + text && line[0] in line;
      Rest(line, 1);
      StopBeforeNewline(line[1..], text);
    }
  }

  predicate Free(s: string) {
    forall k | 0 <= k < |s| :: s[k] != '`'
  }

  /** Text before the first backtick stays as it is. */
  lemma {:induction false} InlineAfter(a: string, c: string)
    requires Free(a)
    ensures Inline(a + c) == a + Inline(c)
    decreases |a|
  {
    if a == "" {
      assert a + c == c;
    } else {
      var whole := a + c;
      assert whole[0] == a[0] && whole[1..] == a[1..] + c && whole[..1] == a[..1];
      InlineAfter(a[1..], c);
      hide NextStop;
      assert a[..1] + (a[1..] + Inline(c)) == a + Inline(c);
    }
  }

  lemma {:induction false} StopAfter(b: string, c: string)
    requires Free(b) && OneLine(b) && (c == "" || c[0] == '`' || c[0] == '\n')
    ensures NextStop(b + c) == |b|
    decreases |b|
  {
    if b == "" {
      assert b + c == c;
    } else {
      assert (b + c)[0] == b[0] && (b + c)[1..] == b[1..] + c && b[0] in b;
      Rest(b, 1);
      StopAfter(b[1..], c);
    }
  }

  /**
   What the inline pass does, character by character. Text without a backtick stays; the first backtick and the next one
   on its line go, with all that stands between, and leave a space; a backtick with none after it on its line
   stays, and so does the text up to the end of that line.
   */
  lemma InlineSpelled(a: string, b: string, c: string)
    requires Free(a) && Free(b) && OneLine(b)
    ensures Inline(a) == a
    ensures Inline(a + "`" + b + "`" + c) == a + " " + Inline(c)
    ensures Inline(a + "`" + b) == a + "`" + b
    ensures Inline(a + "`" + b + "\n" + c) == a + "`" + b + "\n" + Inline(c)
  {
    hide Inline;
    InlineNothing();
    InlineAfter(a, "");
    assert a + "" == a;
    SpanGoes(b, c);
    InlineAfter(a, "`" + b + "`" + c);
    assert a + ("`" + b + "`" + c) == a + "`" + b + "`" + c;
    assert a + (" " + Inline(c)) == a + " " + Inline(c);
    LoneAtEnd(a, b);
    LoneAtNewline(a, b, c);
  }

  lemma LoneAtEnd(a: string, b: string)
    requires Free(a) && Free(b) && OneLine(b)
    ensures Inline(a + "`" + b) == a + "`" + b
  {
    hide Inline;
    InlineNothing();
    LoneStays(b, "");
    InlineAfter(b, "");
    assert b + "" == b && "`" + b + "" == "`" + b;
    InlineAfter(a, "`" + b);
    assert a + ("`" + b) == a + "`" + b;
  }

  lemma LoneAtNewline(a: string, b: string, c: string)
    requires Free(a) && Free(b) && OneLine(b)
    ensures Inline(a + "`" + b + "\n" + c) == a + "`" + b + "\n" + Inline(c)
  {
    hide Inline;
    LoneStays(b, "\n" + c);
    InlineAfter(b + "\n", c);
    assert b + ("\n" + c) == b + "\n" + c;
    InlineAfter(a, "`" + b + ("\n" + c));
    assert a + ("`" + b + ("\n" + c)) == a + "`" + b + "\n" + c;
    assert a + ("`" + (b + "\n" + Inline(c))) == a + "`" + b + "\n" + Inline(c);
  }

  lemma InlineNothing()
    ensures Inline("") == ""
  {
  }

  lemma SpanGoes(b: string, c: string)
    requires Free(b) && OneLine(b)
    ensures Inline("`" + b + "`" + c) == " " + Inline(c)
  {
    var whole := "`" + b + "`" + c;
    assert whole[1..] == b + ("`" + c);
    StopAfter(b, "`" + c);
    assert whole[|b| + 1] == '`' && whole[|b| + 2..] == c;
    hide NextStop;
  }

  lemma LoneStays(b: string, rest: string)
    requires Free(b) && OneLine(b) && (rest == "" || rest[0] == '\n')
    ensures Inline("`" + b + rest) == "`" + Inline(b + rest)
  {
    var whole := "`" + b + rest;
    assert whole[1..] == b + rest && whole[..1] == "`";
    StopAfter(b, rest);
    hide NextStop;
  }

  /** The inline pass works line by line, so it keeps the line count. */
  lemma {:induction false} InlinePerLine(lines: seq<string>)
    requires lines != [] && AllOneLine(lines)
    ensures Inline(Join(lines)) == Join(InlineAll(lines))
    decreases |lines|
  {
    if |lines| == 1 {
      assert InlineAll(lines)[0] == Inline(lines[0]);
    } else {
      InlineAtNewline(lines[0], Join(lines[1..]));
      InlinePerLine(lines[1..]);
      assert InlineAll(lines)[1..] == InlineAll(lines[1..]);
    }
  }

  // ---- the whole of strip_code ----

  function Stripped(body: string): string {
    Join(InlineAll(Scrubbed(Split(body))))
  }

  lemma ScrubbedLines(lines: seq<string>)
    requires AllOneLine(lines)
    ensures AllOneLine(Scrubbed(lines))
  {
    hide Blanked;
  }

  method StripCode(body: string) returns (r: string)
    ensures r == Stripped(body)
  {
    var lines := Split(body);
    var output := BlankFences(lines);
    SplitGivesLines(body);
    ScrubbedLines(lines);
    InlinePerLine(output);
    hide *;
    return Inline(Join(output));
  }

  function Backticks(s: string): nat {
    if s == "" then 0 else (if s[0] == '`' then 1 else 0) + Backticks(s[1..])
  }

  lemma {:induction false} BackticksOfSum(a: string, b: string)
    ensures Backticks(a + b) == Backticks(a) + Backticks(b)
  {
    if a == "" {
      assert a + b == b;
    } else {
      assert (a + b)[1..] == a[1..] + b;
      BackticksOfSum(a[1..], b);
    }
  }

  lemma {:induction false} StopHasNoBackticks(s: string)
    ensures Backticks(s[..NextStop(s)]) == 0
  {
    if s != "" && NextStop(s) > 0 {
      StopHasNoBackticks(s[1..]);
      assert s[..NextStop(s)][1..] == s[1..][..NextStop(s[1..])] && s[..NextStop(s)][0] == s[0];
    }
  }

  /** A match takes two backticks and leaves none; a lone backtick has none after it on its line. */
  lemma TakeBackticks(line: string)
    requires OneLine(line) && line != ""
    ensures var t := Take(line);
            && OneLine(t.text) && Backticks(line) == Backticks(line[..t.length]) + Backticks(line[t.length..])
            && (Backticks(t.text) == 0 || Backticks(line[t.length..]) == 0)
            && Backticks(t.text) <= 1 && Backticks(t.text) % 2 == Backticks(line[..t.length]) % 2
            && (t.text == line[..t.length] || Backticks(line[..t.length]) == 2)
  {
    var t := Take(line);
    assert line[..t.length] + line[t.length..] == line;
    BackticksOfSum(line[..t.length], line[t.length..]);
    Rest(line, 1);
    var end := NextStop(line[1..]) + 1;
    StopHasNoBackticks(line[1..]);
    if end < |line| { assert line[end] in line; }
    hide NextStop;
    if line[0] == '`' && end < |line| {
      assert line[..end + 1] == line[..1] + line[1..][..end - 1] + line[end..end + 1];
      BackticksOfSum(line[..1] + line[1..][..end - 1], line[end..end + 1]);
      BackticksOfSum(line[..1], line[1..][..end - 1]);
    } else if line[0] == '`' {
      assert line[1..][..end - 1] == line[1..];
    }
  }

  /** After the inline pass a line is still one line, with one backtick when it had an odd number, else none. */
  lemma {:induction false} InlineLeavesOne(line: string)
    requires OneLine(line)
    ensures OneLine(Inline(line)) && Backticks(Inline(line)) == Backticks(line) % 2
    decreases |line|
  {
    if line != "" {
      var t := Take(line);
      TakeBackticks(line);
      Rest(line, t.length);
      InlineLeavesOne(line[t.length..]);
      BackticksOfSum(t.text, Inline(line[t.length..]));
      hide Take, Backticks, OneLine;
      OneLineSum(t.text, Inline(line[t.length..]));
      Parity(Backticks(t.text), Backticks(line[..t.length]), Backticks(line[t.length..]));
    }
  }

  lemma OneLineSum(a: string, b: string)
    requires OneLine(a) && OneLine(b)
    ensures OneLine(a + b)
  {
  }

  lemma Parity(kept: nat, taken: nat, rest: nat)
    requires kept == 0 || rest == 0
    requires kept <= 1 && kept % 2 == taken % 2
    ensures kept + rest % 2 == (taken + rest) % 2
  {
  }

  /** The stripped body has the body's number of lines, and no line of it holds two backticks. */
  lemma StripKeepsLineCount(body: string)
    ensures |Split(Stripped(body))| == |Split(body)|
    ensures forall k | 0 <= k < |Split(body)| :: Backticks(Split(Stripped(body))[k]) <= 1
  {
    var lines := Scrubbed(Split(body));
    SplitGivesLines(body);
    ScrubbedLines(Split(body));
    InlineAllLines(lines);
    SplitOfJoin(InlineAll(lines));
  }

  lemma {:induction false} InlineAllLines(lines: seq<string>)
    requires AllOneLine(lines)
    ensures AllOneLine(InlineAll(lines))
    ensures forall k | 0 <= k < |lines| :: Backticks(InlineAll(lines)[k]) <= 1
  {
    if lines != [] {
      InlineLeavesOne(lines[0]);
      assert forall k | 1 <= k < |lines| :: lines[1..][k - 1] == lines[k];
      InlineAllLines(lines[1..]);
    }
  }

  lemma {:induction false} InlineIdentity(line: string)
    requires OneLine(line) && Backticks(line) <= 1
    ensures Inline(line) == line
    decreases |line|
  {
    if line != "" {
      var t := Take(line);
      TakeBackticks(line);
      Rest(line, t.length);
      InlineIdentity(line[t.length..]);
      hide Take, Backticks, OneLine;
      assert line[..t.length] + line[t.length..] == line;
    }
  }

  lemma FenceHasThree(line: string)
    requires IsFence(line)
    ensures Backticks(line) >= 3
  {
    var k := LeadingSpaces(line);
    assert line == line[..k] + (line[k..k + 3] + line[k + 3..]);
    BackticksOfSum(line[..k], line[k..k + 3] + line[k + 3..]);
    BackticksOfSum(line[k..k + 3], line[k + 3..]);
    hide LeadingSpaces;
    assert "```"[1..] == "``" && "``"[1..] == "`" && "`"[1..] == "";
  }

  lemma {:induction false} NothingToBlank(lines: seq<string>)
    requires AllOneLine(lines) && forall k | 0 <= k < |lines| :: Backticks(lines[k]) <= 1
    ensures InlineAll(lines) == lines && Fences(lines) == []
    decreases |lines|
  {
    if lines != [] {
      var last := |lines| - 1;
      InlineIdentities(lines);
      if IsFence(lines[last]) { FenceHasThree(lines[last]); }
      hide Backticks, IsFence;
      NothingToBlank(lines[..last]);
    }
  }

  lemma {:induction false} InlineIdentities(lines: seq<string>)
    requires AllOneLine(lines) && forall k | 0 <= k < |lines| :: Backticks(lines[k]) <= 1
    ensures InlineAll(lines) == lines
  {
    if lines != [] {
      InlineIdentity(lines[0]);
      hide Backticks, Inline;
      assert forall k | 1 <= k < |lines| :: lines[1..][k - 1] == lines[k];
      InlineIdentities(lines[1..]);
    }
  }

  /** Blanking a blanked body changes nothing. */
  lemma StripIdempotent(body: string)
    ensures Stripped(Stripped(body)) == Stripped(body)
  {
    var lines := Scrubbed(Split(body));
    SplitGivesLines(body);
    ScrubbedLines(Split(body));
    InlineAllLines(lines);
    var inlined := InlineAll(lines);
    SplitOfJoin(inlined);
    NothingToBlank(inlined);
    hide Backticks, Inline, InlineAll, Fences, Split, Join;
    assert Scrubbed(inlined) == inlined;
  }
}
