/** Splitting a text at its newlines and joining it back, as Python's `split("\n")` and `"\n".join` do. */
module Lines {
  function Split(text: string): (lines: seq<string>)
    ensures lines != []
    decreases |text|
  {
    if text == "" then [""] else Push(text[0], Split(text[1..]))
  }

  /** One more character before the first of `lines`. */
  function Push(c: char, lines: seq<string>): (r: seq<string>)
    requires lines != []
    ensures r != []
  {
    if c == '\n' then [""] + lines else [[c] + lines[0]] + lines[1..]
  }

  function Join(lines: seq<string>): string
    decreases |lines|
  {
    if lines == [] then "" else if |lines| == 1 then lines[0] else lines[0] + "\n" + Join(lines[1..])
  }

  predicate OneLine(s: string) {
    '\n' !in s
  }

  predicate AllOneLine(lines: seq<string>) {
    forall k | 0 <= k < |lines| :: OneLine(lines[k])
  }

  lemma {:induction false} SplitGivesLines(text: string)
    ensures AllOneLine(Split(text))
    decreases |text|
  {
    if text != "" { SplitGivesLines(text[1..]); }
  }

  lemma JoinOfPush(c: char, lines: seq<string>)
    requires lines != []
    ensures Join(Push(c, lines)) == [c] + Join(lines)
  {
    var r := Push(c, lines);
    if c == '\n' {
      assert r[1..] == lines && "" + "\n" + Join(lines) == [c] + Join(lines);
    } else if |lines| > 1 {
      assert r[1..] == lines[1..];
      assert ([c] + lines[0]) + "\n" + Join(lines[1..]) == [c] + (lines[0] + "\n" + Join(lines[1..]));
    }
  }

  lemma {:induction false} JoinOfSplit(text: string)
    ensures Join(Split(text)) == text
    decreases |text|
  {
    if text != "" {
      JoinOfSplit(text[1..]);
      JoinOfPush(text[0], Split(text[1..]));
      hide Join, Push;
      assert [text[0]] + text[1..] == text;
    }
  }

  lemma PushOfSum(c: char, a: seq<string>, b: seq<string>)
    requires a != []
    ensures Push(c, a + b) == Push(c, a) + b
  {
  }

  lemma {:induction false} SplitOfSum(a: string, b: string)
    ensures Split(a + "\n" + b) == Split(a) + Split(b)
    decreases |a|
  {
    var whole := a + "\n" + b;
    if a == "" {
      assert whole == "\n" + b && whole[1..] == b;
    } else {
      assert whole[1..] == a[1..] + "\n" + b && whole[0] == a[0];
      SplitOfSum(a[1..], b);
      PushOfSum(a[0], Split(a[1..]), Split(b));
      hide Push;
    }
  }

  lemma {:induction false} SplitOneLine(line: string)
    requires OneLine(line)
    ensures Split(line) == [line]
    decreases |line|
  {
    if line != "" {
      assert OneLine(line[1..]) by { assert forall k | 1 <= k < |line| :: line[k] in line; }
      SplitOneLine(line[1..]);
      assert line[0] in line && [line[0]] + line[1..] == line;
    }
  }

  lemma {:induction false} SplitOfJoin(lines: seq<string>)
    requires lines != [] && AllOneLine(lines)
    ensures Split(Join(lines)) == lines
    decreases |lines|
  {
    SplitOneLine(lines[0]);
    if |lines| > 1 {
      SplitOfJoin(lines[1..]);
      SplitOfSum(lines[0], Join(lines[1..]));
    }
  }

  /** The lines of parts that may themselves hold several lines. */
  function Flat(parts: seq<string>): seq<string> {
    if parts == [] then [] else Split(parts[0]) + Flat(parts[1..])
  }

  lemma {:induction false} SplitOfParts(parts: seq<string>)
    requires parts != []
    ensures Split(Join(parts)) == Flat(parts)
    decreases |parts|
  {
    if |parts| == 1 {
      assert Split(parts[0]) + Flat([]) == Split(parts[0]);
    } else {
      SplitOfParts(parts[1..]);
      SplitOfSum(parts[0], Join(parts[1..]));
    }
  }

  lemma {:induction false} FlatOfSum(a: seq<string>, b: seq<string>)
    ensures Flat(a + b) == Flat(a) + Flat(b)
  {
    if a == [] {
      assert a + b == b;
    } else {
      assert (a + b)[1..] == a[1..] + b;
      FlatOfSum(a[1..], b);
    }
  }

  lemma {:induction false} FlatOfLines(lines: seq<string>)
    requires AllOneLine(lines)
    ensures Flat(lines) == lines
  {
    if lines != [] {
      SplitOneLine(lines[0]);
      FlatOfLines(lines[1..]);
    }
  }

  lemma {:induction false} JoinOfSum(a: seq<string>, b: seq<string>)
    requires a != [] && b != []
    ensures Join(a + b) == Join(a) + "\n" + Join(b)
    decreases |a|
  {
    if |a| == 1 {
      assert (a + b)[1..] == b;
    } else {
      assert (a + b)[1..] == a[1..] + b;
      JoinOfSum(a[1..], b);
      assert a[0] + "\n" + (Join(a[1..]) + "\n" + Join(b)) == (a[0] + "\n" + Join(a[1..])) + "\n" + Join(b);
    }
  }
}
