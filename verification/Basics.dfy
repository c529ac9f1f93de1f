/** Failure-carrying results and plain string operations shared by the models. */
module Basics {
  datatype Option<+T> = None | Some(value: T)

  datatype Result<+T> = Ok(value: T) | Threw

  function Min(a: int, b: int): int {
    if a < b then a else b
  }

  function Max(a: int, b: int): int {
    if a < b then b else a
  }

  predicate IsDigit(c: char) {
    '0' <= c <= '9'
  }

  /** The JavaScript `<` on strings: lexicographic by code unit. */
  predicate LexLess(a: string, b: string) {
    b != "" && (a == "" || a[0] < b[0] || (a[0] == b[0] && LexLess(a[1..], b[1..])))
  }

  lemma LexIrreflexive(a: string)
    ensures !LexLess(a, a)
  {
  }

  /** A shared prefix never decides a comparison. */
  lemma {:induction false} LexSharedPrefix(p: string, x: string, y: string)
    ensures LexLess(p + x, p + y) <==> LexLess(x, y)
  {
    if p == "" {
      assert p + x == x && p + y == y;
    } else {
      assert (p + x)[1..] == p[1..] + x && (p + y)[1..] == p[1..] + y;
      LexSharedPrefix(p[1..], x, y);
    }
  }

  /** Heads of equal length that are ordered decide the comparison, whatever follows. */
  lemma {:induction false} LexDecidedByHead(a: string, b: string, x: string, y: string)
    requires |a| == |b| && LexLess(a, b)
    ensures LexLess(a + x, b + y)
  {
    assert (a + x)[0] == a[0] && (b + y)[0] == b[0];
    assert (a + x)[1..] == a[1..] + x && (b + y)[1..] == b[1..] + y;
    if a[0] == b[0] {
      LexDecidedByHead(a[1..], b[1..], x, y);
    }
  }

  lemma {:induction false} LexAsymmetric(a: string, b: string)
    requires LexLess(a, b)
    ensures !LexLess(b, a)
  {
    if a != "" && a[0] == b[0] {
      LexAsymmetric(a[1..], b[1..]);
    }
  }

  /** `s` without its leading run of blanks. */
  function TrimLeft(s: string, blank: char -> bool): (r: string)
    ensures |r| <= |s| && r == s[|s| - |r|..]
    ensures r == "" || !blank(r[0])
  {
    if s != "" && blank(s[0]) then TrimLeft(s[1..], blank) else s
  }

  /** `s` without its trailing run of blanks. */
  function TrimRight(s: string, blank: char -> bool): (r: string)
    ensures r <= s
    ensures r == "" || !blank(r[|r| - 1])
  {
    if s != "" && blank(s[|s| - 1]) then TrimRight(s[..|s| - 1], blank) else s
  }

  function Trim(s: string, blank: char -> bool): (r: string)
    ensures r == "" || (!blank(r[0]) && !blank(r[|r| - 1]))
  {
    TrimRight(TrimLeft(s, blank), blank)
  }

  /** `core` is what is left of `s` between a leading and a trailing run of blanks, `lead` characters in. */
  predicate Between(s: string, lead: nat, core: string, blank: char -> bool) {
    && lead + |core| <= |s| && s[lead..lead + |core|] == core
    && (forall i | 0 <= i < lead :: blank(s[i])) && (forall i | lead + |core| <= i < |s| :: blank(s[i]))
    && (core == "" || (!blank(core[0]) && !blank(core[|core| - 1])))
  }

  lemma {:induction false} LeftBlanks(s: string, blank: char -> bool)
    ensures var r := TrimLeft(s, blank); forall i | 0 <= i < |s| - |r| :: blank(s[i])
    decreases |s|
  {
    if s != "" && blank(s[0]) {
      LeftBlanks(s[1..], blank);
      var r := TrimLeft(s, blank);
      forall i | 0 <= i < |s| - |r| ensures blank(s[i]) { if i > 0 { assert s[1..][i - 1] == s[i]; } }
    }
  }

  lemma {:induction false} RightBlanks(s: string, blank: char -> bool)
    ensures var r := TrimRight(s, blank); forall i | |r| <= i < |s| :: blank(s[i])
    decreases |s|
  {
    if s != "" && blank(s[|s| - 1]) { RightBlanks(s[..|s| - 1], blank); }
  }

  lemma TwoTrims(s: string, t: string, core: string, blank: char -> bool)
    requires |t| <= |s| && t == s[|s| - |t|..] && core <= t
    requires (forall i | 0 <= i < |s| - |t| :: blank(s[i])) && (forall i | |core| <= i < |t| :: blank(t[i]))
    requires core == "" || (!blank(core[0]) && !blank(core[|core| - 1]))
    ensures Between(s, |s| - |t|, core, blank)
  {
    var lead := |s| - |t|;
    assert s[lead..lead + |core|] == t[..|core|];
    forall i | lead + |core| <= i < |s| ensures blank(s[i]) { assert s[i] == t[i - lead]; }
  }

  /** What trimming keeps, over the text itself. */
  lemma TrimIsBetween(s: string, blank: char -> bool)
    ensures Between(s, |s| - |TrimLeft(s, blank)|, Trim(s, blank), blank)
  {
    hide TrimLeft, TrimRight;
    var t := TrimLeft(s, blank);
    var core := TrimRight(t, blank);
    LeftBlanks(s, blank);
    RightBlanks(t, blank);
    assert core == "" || (core[0] == t[0] && !blank(t[0]));
    hide Between;
    TwoTrims(s, t, core, blank);
  }

  /** Something is left exactly when not everything is blank. */
  lemma SomeLeft(s: string, lead: nat, core: string, blank: char -> bool)
    requires Between(s, lead, core, blank)
    ensures core != "" <==> exists k :: 0 <= k < |s| && !blank(s[k])
  {
    if core != "" { assert s[lead] == core[0]; }
  }

  /** The code units `String.prototype.trim` removes (section 22.1.3.32.1 of ECMA-262). */
  predicate JsBlank(c: char) {
    '\t' <= c <= '\r' || c == ' ' || c == '\U{00A0}' || c == '\U{1680}'
    || '\U{2000}' <= c <= '\U{200A}' || c == '\U{2028}' || c == '\U{2029}' || c == '\U{202F}'
    || c == '\U{205F}' || c == '\U{3000}' || c == '\U{FEFF}'
  }

  function JsTrim(s: string): (r: string) {
    Trim(s, JsBlank)
  }
}
