/**
 The rewrite of the version tag pattern (`TAG_RE` in `public/onboarding-checks.js`): the form that replaced
 `^v?\d+\.\d+\.\d+[A-Za-z0-9.-]*$` accepts the same strings, and reads each of them in one way only.
 */
module TagRegex {
  datatype Class = Is(c: char) | Digit | Tail | TailStart

  datatype Regex = Empty | One(class_: Class) | Then(first: Regex, second: Regex) | Either(left: Regex, right: Regex) | Star(body: Regex)

  predicate IsLetter(c: char) {
    'A' <= c <= 'Z' || 'a' <= c <= 'z'
  }

  predicate InClass(c: char, k: Class) {
    match k
    case Is(d) => c == d
    case Digit => '0' <= c <= '9'
    case Tail => IsLetter(c) || '0' <= c <= '9' || c == '.' || c == '-'
    case TailStart => IsLetter(c) || c == '.' || c == '-'
  }

  /** The whole of `s` matches `r`. */
  ghost predicate Matches(r: Regex, s: string)
    decreases r, |s|
  {
    match r
    case Empty => s == ""
    case One(k) => |s| == 1 && InClass(s[0], k)
    case Then(a, b) => exists n | 0 <= n <= |s| :: Matches(a, s[..n]) && Matches(b, s[n..])
    case Either(a, b) => Matches(a, s) || Matches(b, s)
    case Star(a) => s == "" || exists n | 0 < n <= |s| :: Matches(a, s[..n]) && Matches(r, s[n..])
  }

  function Plus(r: Regex): Regex {
    Then(r, Star(r))
  }

  function Maybe(r: Regex): Regex {
    Either(Empty, r)
  }

  const DOT: Regex := One(Is('.'))
  const DIGITS: Regex := Plus(One(Digit))

  /** `v?\d+\.\d+\.` */
  const HEAD: Regex := Then(Maybe(One(Is('v'))), Then(DIGITS, Then(DOT, Then(DIGITS, DOT))))

  /** `[A-Za-z0-9.-]*`, and `(?:[A-Za-z.-][A-Za-z0-9.-]*)?`. */
  const OLD_TAIL: Regex := Star(One(Tail))
  const NEW_TAIL: Regex := Maybe(Then(One(TailStart), Star(One(Tail))))

  const OLD_TAG: Regex := Then(HEAD, Then(DIGITS, OLD_TAIL))
  const NEW_TAG: Regex := Then(HEAD, Then(DIGITS, NEW_TAIL))

  // ---- runs of one class ----

  predicate AllOf(s: string, k: Class) {
    forall i | 0 <= i < |s| :: InClass(s[i], k)
  }

  lemma {:induction false} StarIsRun(s: string, k: Class)
    ensures Matches(Star(One(k)), s) <==> AllOf(s, k)
    decreases |s|
  {
    if s != "" {
      StarIsRun(s[1..], k);
      if AllOf(s, k) {
        assert forall i | 1 <= i < |s| :: s[1..][i - 1] == s[i];
        assert Matches(One(k), s[..1]);
      }
      if Matches(Star(One(k)), s) {
        var n :| 0 < n <= |s| && Matches(One(k), s[..n]) && Matches(Star(One(k)), s[n..]);
        assert n == 1 && s[0] == s[..n][0];
        assert forall i | 1 <= i < |s| :: s[i] == s[1..][i - 1];
      }
    }
  }

  lemma PlusIsRun(s: string, k: Class)
    ensures Matches(Plus(One(k)), s) <==> s != "" && AllOf(s, k)
  {
    if s != "" {
      StarIsRun(s[1..], k);
      assert forall i | 1 <= i < |s| :: s[i] == s[1..][i - 1];
      if AllOf(s, k) { assert Matches(One(k), s[..1]) && Matches(Star(One(k)), s[1..]); }
    }
    if Matches(Plus(One(k)), s) {
      var n :| 0 <= n <= |s| && Matches(One(k), s[..n]) && Matches(Star(One(k)), s[n..]);
      assert n == 1 && s[..n][0] == s[0];
    }
  }

  predicate NewTailText(s: string) {
    s == "" || (InClass(s[0], TailStart) && AllOf(s[1..], Tail))
  }

  lemma NewTailIs(s: string)
    ensures Matches(NEW_TAIL, s) <==> NewTailText(s)
  {
    var inner := Then(One(TailStart), Star(One(Tail)));
    if s != "" {
      StarIsRun(s[1..], Tail);
      if NewTailText(s) { assert Matches(One(TailStart), s[..1]) && Matches(Star(One(Tail)), s[1..]); }
    }
    if Matches(inner, s) {
      var n :| 0 <= n <= |s| && Matches(One(TailStart), s[..n]) && Matches(Star(One(Tail)), s[n..]);
      assert n == 1 && s[..n][0] == s[0];
    }
  }

  // ---- one language ----

  /** How many digits `s` starts with. */
  function DigitRun(s: string): (n: nat)
    ensures n <= |s| && (n < |s| ==> !InClass(s[n], Digit))
    ensures AllOf(s[..n], Digit)
  {
    if s != "" && InClass(s[0], Digit) then 1 + DigitRun(s[1..]) else 0
  }

  /** Digits then a tail, cut anywhere, is all the digits there are and then a tail led by no digit. */
  lemma TailsAgree(s: string)
    ensures Matches(Then(DIGITS, OLD_TAIL), s) <==> Matches(Then(DIGITS, NEW_TAIL), s)
  {
    var m := DigitRun(s);
    if Matches(Then(DIGITS, OLD_TAIL), s) {
      var n :| 0 <= n <= |s| && Matches(DIGITS, s[..n]) && Matches(OLD_TAIL, s[n..]);
      PlusIsRun(s[..n], Digit);
      StarIsRun(s[n..], Tail);
      RunIsMaximal(s, n);
      PlusIsRun(s[..m], Digit);
      NewTailAfterRun(s, n);
      NewTailIs(s[m..]);
      assert Matches(DIGITS, s[..m]) && Matches(NEW_TAIL, s[m..]);
    }
    if Matches(Then(DIGITS, NEW_TAIL), s) {
      var n :| 0 <= n <= |s| && Matches(DIGITS, s[..n]) && Matches(NEW_TAIL, s[n..]);
      NewTailIs(s[n..]);
      OldTailOfNew(s[n..]);
      StarIsRun(s[n..], Tail);
      assert Matches(DIGITS, s[..n]) && Matches(OLD_TAIL, s[n..]);
    }
  }

  lemma RunIsMaximal(s: string, n: nat)
    requires n <= |s| && AllOf(s[..n], Digit)
    ensures n <= DigitRun(s)
  {
    assert forall i | 0 <= i < n :: s[i] == s[..n][i];
  }

  lemma NewTailAfterRun(s: string, n: nat)
    requires n <= DigitRun(s) && AllOf(s[n..], Tail)
    ensures NewTailText(s[DigitRun(s)..])
  {
    var m := DigitRun(s);
    if m < |s| {
      assert s[n..][m - n] == s[m] && s[m..][0] == s[m];
      assert forall i | 0 <= i < |s| - m - 1 :: s[m..][1..][i] == s[n..][m + 1 - n + i];
    }
  }

  lemma OldTailOfNew(s: string)
    requires NewTailText(s)
    ensures AllOf(s, Tail)
  {
    if s != "" { assert forall i | 1 <= i < |s| :: s[i] == s[1..][i - 1]; }
  }

  /** The rewrite accepts exactly the strings the old form accepts. */
  lemma SameLanguage(s: string)
    ensures Matches(OLD_TAG, s) <==> Matches(NEW_TAG, s)
  {
    forall n | 0 <= n <= |s|
      ensures Matches(Then(DIGITS, OLD_TAIL), s[n..]) <==> Matches(Then(DIGITS, NEW_TAIL), s[n..])
    {
      TailsAgree(s[n..]);
    }
    SameAfter(HEAD, Then(DIGITS, OLD_TAIL), Then(DIGITS, NEW_TAIL), s);
  }

  lemma SameAfter(head: Regex, a: Regex, b: Regex, s: string)
    requires forall n | 0 <= n <= |s| :: Matches(a, s[n..]) <==> Matches(b, s[n..])
    ensures Matches(Then(head, a), s) <==> Matches(Then(head, b), s)
  {
  }

  // ---- one reading ----

  /** `s` read as a head, the third digit run `s[a..b]` and a tail. */
  ghost predicate Reading(tail: Regex, s: string, a: nat, b: nat) {
    a <= b <= |s| && Matches(HEAD, s[..a]) && Matches(DIGITS, s[a..b]) && Matches(tail, s[b..])
  }

  function Dots(s: string): nat {
    if s == "" then 0 else (if s[0] == '.' then 1 else 0) + Dots(s[1..])
  }

  lemma {:induction false} DotsOfSum(a: string, b: string)
    ensures Dots(a + b) == Dots(a) + Dots(b)
  {
    if a == "" {
      assert a + b == b;
    } else {
      assert (a + b)[1..] == a[1..] + b;
      DotsOfSum(a[1..], b);
    }
  }

  lemma {:induction false} NoDotsInRun(s: string)
    requires AllOf(s, Digit)
    ensures Dots(s) == 0
  {
    if s != "" {
      assert s[0] != '.';
      assert forall i | 1 <= i < |s| :: s[1..][i - 1] == s[i];
      NoDotsInRun(s[1..]);
    }
  }

  lemma DotsOfThen(s: string, n: nat)
    requires n <= |s|
    ensures Dots(s) == Dots(s[..n]) + Dots(s[n..])
  {
    assert s[..n] + s[n..] == s;
    DotsOfSum(s[..n], s[n..]);
  }

  lemma DigitsThen(r: Regex, s: string) returns (n: nat)
    requires Matches(Then(DIGITS, r), s)
    ensures n <= |s| && Matches(r, s[n..]) && Dots(s) == Dots(s[n..])
  {
    n :| 0 <= n <= |s| && Matches(DIGITS, s[..n]) && Matches(r, s[n..]);
    PlusIsRun(s[..n], Digit);
    NoDotsInRun(s[..n]);
    DotsOfThen(s, n);
  }

  lemma MaybeV(s: string)
    requires Matches(Maybe(One(Is('v'))), s)
    ensures Dots(s) == 0
  {
    assert Matches(Empty, s) || Matches(One(Is('v')), s);
    if s != "" { assert s[0] == 'v' && s[1..] == ""; }
  }

  lemma DotThen(r: Regex, s: string)
    requires Matches(Then(DOT, r), s)
    ensures s != "" && Matches(r, s[1..]) && Dots(s) == 1 + Dots(s[1..])
  {
    var n :| 0 <= n <= |s| && Matches(DOT, s[..n]) && Matches(r, s[n..]);
    assert n == 1 && s[..n][0] == s[0];
  }

  lemma DigitsDot(s: string)
    requires Matches(Then(DIGITS, DOT), s)
    ensures Dots(s) == 1 && s != "" && s[|s| - 1] == '.'
  {
    var n := DigitsThen(DOT, s);
    assert |s[n..]| == 1 && s[n..][0] == '.' && s[n..][1..] == "";
  }

  /** A head has exactly two dots, the second at its end. */
  lemma HeadDots(s: string)
    requires Matches(HEAD, s)
    ensures Dots(s) == 2 && s != "" && s[|s| - 1] == '.'
  {
    var end := Then(DIGITS, DOT);
    var n :| 0 <= n <= |s| && Matches(Maybe(One(Is('v'))), s[..n]) && Matches(Then(DIGITS, Then(DOT, end)), s[n..]);
    hide Matches, Dots;
    DotsOfThen(s, n);
    MaybeV(s[..n]);
    var x := s[n..];
    var j := DigitsThen(Then(DOT, end), x);
    DotThen(end, x[j..]);
    DigitsDot(x[j..][1..]);
    assert x[j..][1..] == s[n + j + 1..];
  }

  lemma {:induction false} LastDot(s: string)
    requires s != "" && s[|s| - 1] == '.'
    ensures Dots(s) >= 1
  {
    if |s| > 1 { LastDot(s[1..]); }
  }

  lemma HeadEndsOnce(s: string, a: nat, b: nat)
    requires a <= b <= |s| && Matches(HEAD, s[..a]) && Matches(HEAD, s[..b])
    ensures a == b
  {
    HeadDots(s[..a]);
    HeadDots(s[..b]);
    DotsOfThen(s[..b], a);
    assert s[..b][..a] == s[..a];
    var rest := s[..b][a..];
    if rest != "" { LastDot(rest); }
  }

  lemma HeadsAgree(s: string, a: nat, b: nat)
    requires a <= |s| && b <= |s| && Matches(HEAD, s[..a]) && Matches(HEAD, s[..b])
    ensures a == b
  {
    if a <= b { HeadEndsOnce(s, a, b); } else { HeadEndsOnce(s, b, a); }
  }

  /** In the new form the third digit run, and so the whole reading, is uniquely determined. */
  lemma OneReading(s: string, a: nat, b: nat, c: nat, d: nat)
    requires Reading(NEW_TAIL, s, a, b) && Reading(NEW_TAIL, s, c, d)
    ensures a == c && b == d
  {
    HeadsAgree(s, a, c);
    RunEnds(s, a, b);
    RunEnds(s, c, d);
  }

  /** A reading's digit run takes all the digits there are. */
  lemma RunEnds(s: string, a: nat, b: nat)
    requires Reading(NEW_TAIL, s, a, b)
    ensures b == a + DigitRun(s[a..])
  {
    PlusIsRun(s[a..b], Digit);
    NewTailIs(s[b..]);
    assert s[a..][..b - a] == s[a..b];
    RunIsMaximal(s[a..], b - a);
    var m := DigitRun(s[a..]);
    assert forall i | 0 <= i < m :: s[a..][..m][i] == s[a + i];
  }

  /** In the old form every shorter digit run reads as well. */
  lemma OldReadings(s: string, a: nat, b: nat, c: nat)
    requires Reading(NEW_TAIL, s, a, b) && a < c <= b
    ensures Reading(OLD_TAIL, s, a, c)
  {
    PlusIsRun(s[a..b], Digit);
    NewTailIs(s[b..]);
    OldTailOfNew(s[b..]);
    assert forall i | 0 <= i < c - a :: s[a..c][i] == s[a..b][i];
    PlusIsRun(s[a..c], Digit);
    assert forall i | 0 <= i < |s| - c :: s[c..][i] == if i < b - c then s[a..b][c - a + i] else s[b..][i - (b - c)];
    StarIsRun(s[c..], Tail);
  }

  /** And nothing else does. */
  lemma OldReadingsAreShorter(s: string, a: nat, b: nat, c: nat, d: nat)
    requires Reading(NEW_TAIL, s, a, b) && Reading(OLD_TAIL, s, c, d)
    ensures c == a && a < d <= b
  {
    HeadsAgree(s, a, c);
    PlusIsRun(s[c..d], Digit);
    RunEnds(s, a, b);
    assert s[a..][..d - a] == s[a..d];
    RunIsMaximal(s[a..], d - a);
  }

  /** The old form reads a tag in more than one way exactly when its third number has two digits or more. */
  lemma AmbiguousExactly(s: string, a: nat, b: nat)
    requires Reading(NEW_TAIL, s, a, b)
    ensures (exists c, d, e, f :: Reading(OLD_TAIL, s, c, d) && Reading(OLD_TAIL, s, e, f) && (c, d) != (e, f)) <==> b - a >= 2
  {
    if b - a >= 2 {
      OldReadings(s, a, b, a + 1);
      OldReadings(s, a, b, b);
    } else {
      forall c, d, e, f | Reading(OLD_TAIL, s, c, d) && Reading(OLD_TAIL, s, e, f)
        ensures (c, d) == (e, f)
      {
        OldReadingsAreShorter(s, a, b, c, d);
        OldReadingsAreShorter(s, a, b, e, f);
      }
    }
  }

  /** Every accepted tag has such a reading. */
  lemma HasReading(s: string) returns (a: nat, b: nat)
    requires Matches(NEW_TAG, s)
    ensures Reading(NEW_TAIL, s, a, b)
  {
    a :| 0 <= a <= |s| && Matches(HEAD, s[..a]) && Matches(Then(DIGITS, NEW_TAIL), s[a..]);
    var rest := s[a..];
    var n :| 0 <= n <= |rest| && Matches(DIGITS, rest[..n]) && Matches(NEW_TAIL, rest[n..]);
    b := a + n;
    assert rest[..n] == s[a..b] && rest[n..] == s[b..];
  }

  // ---- the accepted tags, character by character ----

  predicate DigitsAt(s: string, i: nat, j: nat) {
    i < j <= |s| && forall m | i <= m < j :: '0' <= s[m] <= '9'
  }

  /** Three numbers with dots between them, the first from `v` on, and then letters, digits, dots and dashes. */
  predicate TagAt(s: string, v: nat, i: nat, j: nat, k: nat) {
    && v <= 1 && (v == 1 ==> s != "" && s[0] == 'v')
    && DigitsAt(s, v, i) && i < |s| && s[i] == '.'
    && DigitsAt(s, i + 1, j) && j < |s| && s[j] == '.'
    && DigitsAt(s, j + 1, k)
    && forall m | k <= m < |s| ::
         'A' <= s[m] <= 'Z' || 'a' <= s[m] <= 'z' || '0' <= s[m] <= '9' || s[m] == '.' || s[m] == '-'
  }

  lemma DigitsAre(s: string, i: nat, j: nat)
    requires i <= j <= |s|
    ensures Matches(DIGITS, s[i..j]) <==> DigitsAt(s, i, j)
  {
    PlusIsRun(s[i..j], Digit);
    assert forall m | i <= m < j :: s[i..j][m - i] == s[m];
    hide Matches;
    if DigitsAt(s, i, j) { assert AllOf(s[i..j], Digit); }
    if AllOf(s[i..j], Digit) && i < j {
      forall m | i <= m < j ensures '0' <= s[m] <= '9' { assert InClass(s[i..j][m - i], Digit); }
    }
  }

  lemma TailIs(s: string, k: nat)
    requires k <= |s|
    ensures Matches(OLD_TAIL, s[k..]) <==> forall m | k <= m < |s| ::
              'A' <= s[m] <= 'Z' || 'a' <= s[m] <= 'z' || '0' <= s[m] <= '9' || s[m] == '.' || s[m] == '-'
  {
    StarIsRun(s[k..], Tail);
    hide Matches;
    assert forall m | k <= m < |s| :: s[k..][m - k] == s[m];
    if AllOf(s[k..], Tail) {
      forall m | k <= m < |s| ensures InClass(s[m], Tail) { assert InClass(s[k..][m - k], Tail); }
    }
  }

  lemma ThenCut(a: Regex, b: Regex, s: string, i: nat, n: nat)
    requires i <= n <= |s| && Matches(a, s[i..n]) && Matches(b, s[n..])
    ensures Matches(Then(a, b), s[i..])
  {
    assert s[i..][..n - i] == s[i..n] && s[i..][n - i..] == s[n..];
  }

  lemma CutThen(a: Regex, b: Regex, s: string, i: nat) returns (n: nat)
    requires i <= |s| && Matches(Then(a, b), s[i..])
    ensures i <= n <= |s| && Matches(a, s[i..n]) && Matches(b, s[n..])
  {
    var m :| 0 <= m <= |s[i..]| && Matches(a, s[i..][..m]) && Matches(b, s[i..][m..]);
    n := i + m;
    assert s[i..][..m] == s[i..n] && s[i..][m..] == s[n..];
  }

  /** Which strings are tags: exactly those, under either pattern. */
  lemma TagSpelled(s: string)
    ensures Matches(OLD_TAG, s) <==> exists v, i, j, k :: TagAt(s, v, i, j, k)
    ensures Matches(NEW_TAG, s) <==> exists v, i, j, k :: TagAt(s, v, i, j, k)
  {
    SameLanguage(s);
    if Matches(OLD_TAG, s) { var v, i, j, k := TagParts(s); }
    if v, i, j, k :| TagAt(s, v, i, j, k) { TagFromParts(s, v, i, j, k); }
  }

  lemma OneCharacter(s: string, i: nat, n: nat, c: char)
    requires i <= n <= |s|
    ensures Matches(One(Is(c)), s[i..n]) <==> n == i + 1 && s[i] == c
  {
  }

  lemma MaybeCharacter(s: string, n: nat, c: char)
    requires n <= |s|
    ensures Matches(Maybe(One(Is(c))), s[0..n]) <==> n == 0 || (n == 1 && s[0] == c)
  {
    OneCharacter(s, 0, n, c);
    assert n == 0 <==> s[0..n] == "";
  }

  lemma TagParts(s: string) returns (v: nat, i: nat, j: nat, k: nat)
    requires Matches(OLD_TAG, s)
    ensures TagAt(s, v, i, j, k)
  {
    hide Matches;
    assert s[0..] == s;
    var h := CutThen(HEAD, Then(DIGITS, OLD_TAIL), s, 0);
    k := CutThen(DIGITS, OLD_TAIL, s, h);
    v, i, j := HeadParts(s[..h]);
    assert s[0..h] == s[..h];
    DigitsAre(s, h, k);
    TailIs(s, k);
    assert forall m | 0 <= m < h :: s[..h][m] == s[m];
  }

  /** The head is its two numbers and their dots. */
  predicate HeadAt(s: string, v: nat, i: nat, j: nat) {
    && v <= 1 && (v == 1 ==> s != "" && s[0] == 'v')
    && DigitsAt(s, v, i) && i < |s| && s[i] == '.' && DigitsAt(s, i + 1, j) && j + 1 == |s| && s[j] == '.'
  }

  lemma HeadParts(s: string) returns (v: nat, i: nat, j: nat)
    requires Matches(HEAD, s)
    ensures HeadAt(s, v, i, j)
  {
    hide Matches;
    assert s[0..] == s;
    v := CutThen(Maybe(One(Is('v'))), Then(DIGITS, Then(DOT, Then(DIGITS, DOT))), s, 0);
    i := CutThen(DIGITS, Then(DOT, Then(DIGITS, DOT)), s, v);
    var d := CutThen(DOT, Then(DIGITS, DOT), s, i);
    j := CutThen(DIGITS, DOT, s, d);
    assert s[j..|s|] == s[j..];
    MaybeCharacter(s, v, 'v');
    DigitsAre(s, v, i);
    OneCharacter(s, i, d, '.');
    DigitsAre(s, d, j);
    OneCharacter(s, j, |s|, '.');
  }

  lemma TagFromParts(s: string, v: nat, i: nat, j: nat, k: nat)
    requires TagAt(s, v, i, j, k)
    ensures Matches(OLD_TAG, s)
  {
    hide Matches;
    var h := s[..j + 1];
    assert forall m | 0 <= m <= j :: h[m] == s[m];
    HeadFromParts(h, v, i, j);
    DigitsAre(s, j + 1, k);
    TailIs(s, k);
    ThenCut(DIGITS, OLD_TAIL, s, j + 1, k);
    assert s[0..j + 1] == h && s[0..] == s;
    ThenCut(HEAD, Then(DIGITS, OLD_TAIL), s, 0, j + 1);
  }

  lemma HeadFromParts(s: string, v: nat, i: nat, j: nat)
    requires HeadAt(s, v, i, j)
    ensures Matches(HEAD, s)
  {
    hide Matches;
    assert s[j..|s|] == s[j..] && s[0..] == s;
    OneCharacter(s, j, |s|, '.');
    DigitsAre(s, i + 1, j);
    ThenCut(DIGITS, DOT, s, i + 1, j);
    OneCharacter(s, i, i + 1, '.');
    ThenCut(DOT, Then(DIGITS, DOT), s, i, i + 1);
    DigitsAre(s, v, i);
    ThenCut(DIGITS, Then(DOT, Then(DIGITS, DOT)), s, v, i);
    MaybeCharacter(s, v, 'v');
    ThenCut(Maybe(One(Is('v'))), Then(DIGITS, Then(DOT, Then(DIGITS, DOT))), s, 0, v);
  }
}
