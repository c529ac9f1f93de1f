/**
 The SQL comment stripper (`stripSqlComments` in `src/migrate.ts`) against an independent lexer that knows
 doubled quotes as escapes and comments as gaps between tokens.
 */
module SqlComments {
  import opened Basics

  /** `indexOf`: the first place of `c` in `s`, or `|s|` when there is none. */
  function IndexOf(s: string, c: char): (k: nat)
    ensures k <= |s| && (k < |s| ==> s[k] == c)
  {
    if s == "" || s[0] == c then 0 else 1 + IndexOf(s[1..], c)
  }

  /** The first place of the closing star-slash in `s`, or `|s|` when there is none. */
  function IndexOfClose(s: string): (k: nat)
    ensures k <= |s| && (k < |s| ==> k + 1 < |s| && s[k] == '*' && s[k + 1] == '/')
  {
    if |s| < 2 then |s| else if s[0] == '*' && s[1] == '/' then 0 else 1 + IndexOfClose(s[1..])
  }

  predicate IsQuote(c: char) {
    c == '\'' || c == '"' || c == '`' || c == '['
  }

  function Closer(c: char): char {
    if c == '[' then ']' else c
  }

  datatype Head = End | Quote | LineComment | BlockComment | Other

  /** What the text `s` starts with. */
  function HeadOf(s: string): Head {
    if s == "" then End
    else if IsQuote(s[0]) then Quote
    else if |s| >= 2 && s[0] == '-' && s[1] == '-' then LineComment
    else if |s| >= 2 && s[0] == '/' && s[1] == '*' then BlockComment
    else Other
  }

  /** What starts a quote or a comment, character by character, and where each of them ends: at the first place it can. */
  lemma HeadSpelled(s: string, c: char)
    ensures HeadOf(s) == End <==> s == ""
    ensures HeadOf(s) == Quote <==> s != "" && (s[0] == '\'' || s[0] == '"' || s[0] == '`' || s[0] == '[')
    ensures HeadOf(s) == LineComment <==> "--" <= s
    ensures HeadOf(s) == BlockComment <==> "/*" <= s
    ensures s != "" && HeadOf(s) == Quote ==> Closer(s[0]) == if s[0] == '[' then ']' else s[0]
    ensures IndexOf(s, c) <= |s| && (forall j | 0 <= j < IndexOf(s, c) :: s[j] != c) && (IndexOf(s, c) < |s| ==> s[IndexOf(s, c)] == c)
    ensures IndexOfClose(s) <= |s| && forall j | 0 <= j < IndexOfClose(s) && j + 1 < |s| :: !(s[j] == '*' && s[j + 1] == '/')
    ensures IndexOfClose(s) < |s| ==> "*/" <= s[IndexOfClose(s)..]
  {
    FirstPlace(s, c);
    NoCloseBefore(s);
    hide IndexOf, IndexOfClose;
    if |s| >= 2 { assert s[..2] == [s[0], s[1]]; }
  }

  lemma {:induction false} FirstPlace(s: string, c: char)
    ensures forall j | 0 <= j < IndexOf(s, c) :: s[j] != c
  {
    if s != "" && s[0] != c {
      FirstPlace(s[1..], c);
      forall j | 0 <= j < IndexOf(s, c) ensures s[j] != c { if j > 0 { assert s[1..][j - 1] == s[j]; } }
    }
  }

  lemma {:induction false} NoCloseBefore(s: string)
    ensures forall j | 0 <= j < IndexOfClose(s) && j + 1 < |s| :: !(s[j] == '*' && s[j + 1] == '/')
  {
    if |s| >= 2 && !(s[0] == '*' && s[1] == '/') {
      NoCloseBefore(s[1..]);
      forall j | 0 <= j < IndexOfClose(s) && j + 1 < |s| ensures !(s[j] == '*' && s[j + 1] == '/') {
        if j > 0 { assert s[1..][j - 1] == s[j] && s[1..][j] == s[j + 1]; }
      }
    }
  }

  function Prepend(head: string, rest: Option<string>): Option<string> {
    if rest.Some? then Some(head + rest.value) else None
  }

  /** What is left of the text from some cursor on; `None` when a quote or block comment never ends. */
  function Scan(s: string): Option<string>
    decreases |s|
  {
    match HeadOf(s)
    case End => Some("")
    case Quote =>
      var end := IndexOf(s[1..], Closer(s[0])) + 1;
      if end == |s| then None else Prepend(s[..end + 1], Scan(s[end + 1..]))
    case LineComment =>
      var end := IndexOf(s[2..], '\n') + 2;
      if end == |s| then Some("") else Scan(s[end..])
    case BlockComment =>
      var end := IndexOfClose(s[2..]) + 2;
      if end == |s| then None else Prepend(" ", Scan(s[end + 2..]))
    case Other => Prepend(s[..1], Scan(s[1..]))
  }

  function Strip(sql: string): string {
    if Scan(sql).Some? then JsTrim(Scan(sql).value) else sql
  }

  // ---- the loop ----

  lemma ScanQuote(s: string, i: nat)
    requires i < |s| && IsQuote(s[i])
    ensures var end := i + 1 + IndexOf(s[i + 1..], Closer(s[i]));
            Scan(s[i..]) == if end == |s| then None else Prepend(s[i..end + 1], Scan(s[end + 1..]))
  {
    hide IndexOf, Prepend;
    assert s[i..][1..] == s[i + 1..];
    var end := i + 1 + IndexOf(s[i + 1..], Closer(s[i]));
    if end < |s| { assert s[i..][..end + 1 - i] == s[i..end + 1] && s[i..][end + 1 - i..] == s[end + 1..]; }
  }

  lemma ScanLineComment(s: string, i: nat)
    requires i + 1 < |s| && s[i] == '-' && s[i + 1] == '-'
    ensures var end := i + 2 + IndexOf(s[i + 2..], '\n');
            Scan(s[i..]) == if end == |s| then Some("") else Scan(s[end..])
  {
    hide IndexOf, Prepend;
    assert s[i..][2..] == s[i + 2..];
    var end := i + 2 + IndexOf(s[i + 2..], '\n');
    assert s[i..][end - i..] == s[end..];
  }

  lemma ScanBlockComment(s: string, i: nat)
    requires i + 1 < |s| && s[i] == '/' && s[i + 1] == '*'
    ensures var end := i + 2 + IndexOfClose(s[i + 2..]);
            Scan(s[i..]) == if end == |s| then None else Prepend(" ", Scan(s[end + 2..]))
  {
    hide IndexOfClose, Prepend;
    assert s[i..][2..] == s[i + 2..];
    var end := i + 2 + IndexOfClose(s[i + 2..]);
    if end < |s| { assert s[i..][end + 2 - i..] == s[end + 2..]; }
  }

  lemma ScanOther(s: string, i: nat)
    requires i < |s| && HeadOf(s[i..]) == Other
    ensures Scan(s[i..]) == Prepend([s[i]], Scan(s[i + 1..]))
  {
    hide Prepend;
    assert s[i..][..1] == [s[i]] && s[i..][1..] == s[i + 1..];
  }

  lemma PrependTwice(a: string, b: string, rest: Option<string>)
    ensures Prepend(a, Prepend(b, rest)) == Prepend(a + b, rest)
  {
    if rest.Some? { assert a + (b + rest.value) == (a + b) + rest.value; }
  }

  lemma PrependNothing(a: string, rest: Option<string>)
    ensures Prepend("", rest) == rest && Prepend(a, Some("")) == Some(a)
  {
    assert a + "" == a;
    if rest.Some? { assert "" + rest.value == rest.value; }
  }

  /** The loop has written `output` for the text before `i`. */
  ghost predicate Reached(sql: string, output: string, i: nat) {
    i <= |sql| && Scan(sql) == Prepend(output, Scan(sql[i..]))
  }

  lemma AtStart(sql: string)
    ensures Reached(sql, "", 0)
  {
    hide Scan;
    PrependNothing("", Scan(sql));
    assert sql[0..] == sql;
  }

  lemma AtEnd(sql: string, output: string, i: nat)
    requires Reached(sql, output, i) && Scan(sql[i..]) == Some("")
    ensures Strip(sql) == JsTrim(output)
  {
    hide JsTrim, Scan;
    PrependNothing(output, None);
  }

  lemma QuoteStep(sql: string, output: string, i: nat)
    requires Reached(sql, output, i) && i < |sql| && IsQuote(sql[i])
    ensures var end := i + 1 + IndexOf(sql[i + 1..], Closer(sql[i]));
            if end == |sql| then Strip(sql) == sql else Reached(sql, output + sql[i..end + 1], end + 1)
  {
    ScanQuote(sql, i);
    hide Scan, IndexOf, Closer, IsQuote, JsTrim;
    var end := i + 1 + IndexOf(sql[i + 1..], Closer(sql[i]));
    if end < |sql| { PrependTwice(output, sql[i..end + 1], Scan(sql[end + 1..])); }
  }

  lemma LineCommentStep(sql: string, output: string, i: nat)
    requires Reached(sql, output, i) && i + 1 < |sql| && sql[i] == '-' && sql[i + 1] == '-'
    ensures var end := i + 2 + IndexOf(sql[i + 2..], '\n');
            if end == |sql| then Strip(sql) == JsTrim(output) else Reached(sql, output, end)
  {
    ScanLineComment(sql, i);
    hide Scan, IndexOf, JsTrim;
    var end := i + 2 + IndexOf(sql[i + 2..], '\n');
    if end == |sql| { AtEnd(sql, output, i); }
  }

  lemma BlockCommentStep(sql: string, output: string, i: nat)
    requires Reached(sql, output, i) && i + 1 < |sql| && sql[i] == '/' && sql[i + 1] == '*'
    ensures var end := i + 2 + IndexOfClose(sql[i + 2..]);
            if end == |sql| then Strip(sql) == sql else Reached(sql, output + " ", end + 2)
  {
    ScanBlockComment(sql, i);
    hide Scan, IndexOfClose, JsTrim;
    var end := i + 2 + IndexOfClose(sql[i + 2..]);
    if end < |sql| { PrependTwice(output, " ", Scan(sql[end + 2..])); }
  }

  lemma OtherStep(sql: string, output: string, i: nat)
    requires Reached(sql, output, i) && i < |sql| && !IsQuote(sql[i])
    requires !(i + 1 < |sql| && sql[i] == '-' && sql[i + 1] == '-') && !(i + 1 < |sql| && sql[i] == '/' && sql[i + 1] == '*')
    ensures Reached(sql, output + [sql[i]], i + 1)
  {
    assert HeadOf(sql[i..]) == Other;
    ScanOther(sql, i);
    hide Scan, HeadOf;
    PrependTwice(output, [sql[i]], Scan(sql[i + 1..]));
  }

  /** The loop of `stripSqlComments`: a cursor over the input and a growing output. */
  method StripSqlComments(sql: string) returns (r: string)
    ensures r == Strip(sql)
  {
    hide *;
    AtStart(sql);
    var output := "";
    var i := 0;
    while i < |sql|
      invariant 0 <= i <= |sql| && Reached(sql, output, i)
    {
      if IsQuote(sql[i]) {
        QuoteStep(sql, output, i);
        var end := i + 1 + IndexOf(sql[i + 1..], Closer(sql[i]));
        if end == |sql| {
          return sql;
        }
        output := output + sql[i..end + 1];
        i := end + 1;
      } else if i + 1 < |sql| && sql[i] == '-' && sql[i + 1] == '-' {
        LineCommentStep(sql, output, i);
        var end := i + 2 + IndexOf(sql[i + 2..], '\n');
        if end == |sql| {
          return JsTrim(output);
        }
        i := end;
      } else if i + 1 < |sql| && sql[i] == '/' && sql[i + 1] == '*' {
        BlockCommentStep(sql, output, i);
        var end := i + 2 + IndexOfClose(sql[i + 2..]);
        if end == |sql| {
          return sql;
        }
        output := output + " ";
        i := end + 2;
      } else {
        OtherStep(sql, output, i);
        output := output + [sql[i]];
        i := i + 1;
      }
    }
    ScanEnd(sql, i);
    AtEnd(sql, output, i);
    return JsTrim(output);
  }

  lemma ScanEnd(sql: string, i: nat)
    requires i == |sql|
    ensures Scan(sql[i..]) == Some("")
  {
  }

  // ---- the lexer ----

  datatype Piece = Plain(c: char) | Quoted(text: string) | Blank | Comment

  /** Where the literal opened just before `s` ends; a doubled closing quote belongs to the literal. */
  function LiteralEnd(s: string, q: char, doubles: bool): (r: Option<nat>)
    ensures r.Some? ==> 0 < r.value <= |s|
    ensures r.Some? && doubles && r.value < |s| ==> s[r.value] != q
  {
    if s == "" then None
    else if s[0] != q then Past(1, LiteralEnd(s[1..], q, doubles))
    else if doubles && |s| > 1 && s[1] == q then Past(2, LiteralEnd(s[2..], q, doubles))
    else Some(1)
  }

  function Past(n: nat, end: Option<nat>): Option<nat> {
    if end.Some? then Some(n + end.value) else None
  }

  function FirstLiteral(s: string): (r: Option<nat>)
    requires s != ""
    ensures r.Some? ==> 0 < r.value < |s|
  {
    LiteralEnd(s[1..], Closer(s[0]), s[0] != '[')
  }

  function Cons(p: Piece, rest: Option<seq<Piece>>): Option<seq<Piece>> {
    if rest.Some? then Some([p] + rest.value) else None
  }

  /** The pieces of `s` for a lexer whose whitespace is `ws`; `None` when a quote or block comment never ends. */
  function Lex(s: string, ws: set<char>): Option<seq<Piece>>
    decreases |s|
  {
    match HeadOf(s)
    case End => Some([])
    case Quote =>
      (match FirstLiteral(s)
       case None => None
       case Some(n) => Cons(Quoted(s[..n + 1]), Lex(s[n + 1..], ws)))
    case LineComment => Cons(Comment, Lex(s[IndexOf(s[2..], '\n') + 2..], ws))
    case BlockComment =>
      var end := IndexOfClose(s[2..]) + 2;
      if end == |s| then None else Cons(Comment, Lex(s[end + 2..], ws))
    case Other => Cons(PieceOf(s[0], ws), Lex(s[1..], ws))
  }

  function PieceOf(c: char, ws: set<char>): Piece {
    if c in ws then Blank else Plain(c)
  }

  predicate IsGap(p: Piece) {
    p == Blank || p == Comment
  }

  /** Put `p` before tokens: a gap counts once, and not at all at the end. */
  function Join(p: Piece, rest: seq<Piece>): seq<Piece> {
    if !IsGap(p) then [p] + rest
    else if rest == [] || rest[0] == Blank then rest
    else [Blank] + rest
  }

  function Collapse(pieces: seq<Piece>): seq<Piece> {
    if pieces == [] then [] else Join(pieces[0], Collapse(pieces[1..]))
  }

  /**
   The token sequence: the pieces with every run of blanks and comments made one gap, and no gap at either
   end. Two texts with the same tokens read the same to any lexer that uses gaps only to separate tokens.
   */
  function Tokens(pieces: seq<Piece>): seq<Piece> {
    var tokens := Collapse(pieces);
    if tokens != [] && tokens[0] == Blank then tokens[1..] else tokens
  }

  /** A lexer's whitespace: the separators the stripper leaves, and nothing `trim` would keep. */
  ghost predicate Whitespace(ws: set<char>) {
    ' ' in ws && '\n' in ws && forall c | c in ws :: JsBlank(c)
  }

  // ---- quotes ----

  /** A literal ends at the first closing quote, unless that one is doubled. */
  ghost predicate ByRuns(s: string, q: char, doubles: bool) {
    var k := IndexOf(s, q);
    LiteralEnd(s, q, doubles) ==
    if k == |s| then None
    else if doubles && k + 1 < |s| && s[k + 1] == q then Past(k + 2, LiteralEnd(s[k + 2..], q, doubles))
    else Some(k + 1)
  }

  lemma {:induction false} LiteralByRuns(s: string, q: char, doubles: bool)
    ensures ByRuns(s, q, doubles)
  {
    if s != "" && s[0] != q {
      LiteralByRuns(s[1..], q, doubles);
      RunsOneLater(s, q, doubles);
    }
  }

  lemma RunsOneLater(s: string, q: char, doubles: bool)
    requires s != "" && s[0] != q && ByRuns(s[1..], q, doubles)
    ensures ByRuns(s, q, doubles)
  {
    assert IndexOf(s, q) == 1 + IndexOf(s[1..], q);
    assert LiteralEnd(s, q, doubles) == Past(1, LiteralEnd(s[1..], q, doubles));
    hide IndexOf, LiteralEnd;
    var k := IndexOf(s[1..], q);
    if k + 2 < |s| { assert s[1..][k + 2..] == s[k + 3..] && s[1..][k + 1] == s[k + 2]; }
  }

  /** The first closing quote, relative to the whole text. */
  function FirstClose(s: string): (end: nat)
    requires s != ""
    ensures 0 < end <= |s|
  {
    IndexOf(s[1..], Closer(s[0])) + 1
  }

  predicate Doubled(s: string)
    requires s != ""
  {
    var end := FirstClose(s);
    s[0] != '[' && end + 1 < |s| && s[end + 1] == Closer(s[0])
  }

  lemma LiteralOfRuns(s: string)
    requires HeadOf(s) == Quote
    ensures var end := FirstClose(s);
            if Doubled(s) then
              HeadOf(s[end + 1..]) == Quote && FirstLiteral(s) == Past(end + 1, FirstLiteral(s[end + 1..]))
            else FirstLiteral(s) == if end == |s| then None else Some(end)
  {
    LiteralByRuns(s[1..], Closer(s[0]), s[0] != '[');
    hide LiteralEnd;
    var end := FirstClose(s);
    if Doubled(s) { assert s[end + 1..][1..] == s[1..][end + 1..]; }
  }

  /** What is left copies the literal `s` starts with, or refuses with it. */
  ghost predicate CopiesLiteral(s: string)
    requires s != ""
  {
    match FirstLiteral(s)
    case None => Scan(s).None?
    case Some(n) => Scan(s) == Prepend(s[..n + 1], Scan(s[n + 1..]))
  }

  /** The stripper's runs, put together, copy exactly the literals the lexer reads. */
  lemma {:induction false} ScanCopiesLiteral(s: string)
    requires HeadOf(s) == Quote
    ensures CopiesLiteral(s)
    decreases |s|
  {
    LiteralOfRuns(s);
    ScanOpen(s);
    hide *;
    if Doubled(s) {
      var end := FirstClose(s);
      ScanCopiesLiteral(s[end + 1..]);
      CopiesOneMore(s, end, s[end + 1..]);
    } else {
      CopiesLast(s);
    }
  }

  lemma CopiesLast(s: string)
    requires s != "" && FirstLiteral(s) == if FirstClose(s) == |s| then None else Some(FirstClose(s))
    requires Scan(s) == if FirstClose(s) == |s| then None else Prepend(s[..FirstClose(s) + 1], Scan(s[FirstClose(s) + 1..]))
    ensures CopiesLiteral(s)
  {
    hide Scan, FirstLiteral, FirstClose;
  }

  lemma CopiesOneMore(s: string, end: nat, rest: string)
    requires end + 1 < |s| && rest == s[end + 1..] && CopiesLiteral(rest)
    requires FirstLiteral(s) == Past(end + 1, FirstLiteral(rest)) && Scan(s) == Prepend(s[..end + 1], Scan(rest))
    ensures CopiesLiteral(s)
  {
    hide Scan, FirstLiteral;
    if FirstLiteral(rest).Some? {
      JoinRuns(s, end, FirstLiteral(rest).value);
    }
  }

  lemma ScanOpen(s: string)
    requires HeadOf(s) == Quote
    ensures var end := FirstClose(s);
            && Scan(s) == (if end == |s| then None else Prepend(s[..end + 1], Scan(s[end + 1..])))
            && (Doubled(s) ==> end + 1 < |s|)
  {
    hide Prepend;
  }

  lemma JoinRuns(s: string, end: nat, n: nat)
    requires end + n + 2 <= |s|
    ensures Prepend(s[..end + 1], Prepend(s[end + 1..][..n + 1], Scan(s[end + 1..][n + 1..])))
         == Prepend(s[..end + n + 2], Scan(s[end + n + 2..]))
  {
    hide Scan, Prepend;
    assert s[..end + 1] + s[end + 1..][..n + 1] == s[..end + n + 2];
    assert s[end + 1..][n + 1..] == s[end + n + 2..];
    PrependTwice(s[..end + 1], s[end + 1..][..n + 1], Scan(s[end + n + 2..]));
  }

  /** A literal ends at the same place whatever follows it, short of one more closing quote. */
  lemma {:induction false} LiteralIsLocal(s: string, q: char, doubles: bool, t: string)
    requires LiteralEnd(s, q, doubles).Some?
    requires var n := LiteralEnd(s, q, doubles).value;
             n <= |t| && s[..n] == t[..n] && (doubles && n < |t| ==> t[n] != q)
    ensures LiteralEnd(t, q, doubles) == LiteralEnd(s, q, doubles)
  {
    var n := LiteralEnd(s, q, doubles).value;
    assert s[0] == s[..n][0] == t[0];
    if n > 1 { assert s[1] == s[..n][1] == t[1]; }
    if s[0] != q {
      assert s[1..][..n - 1] == s[..n][1..] && t[1..][..n - 1] == t[..n][1..];
      LiteralIsLocal(s[1..], q, doubles, t[1..]);
    } else if doubles && |s| > 1 && s[1] == q {
      assert s[2..][..n - 2] == s[..n][2..] && t[2..][..n - 2] == t[..n][2..];
      LiteralIsLocal(s[2..], q, doubles, t[2..]);
    }
  }

  // ---- stripping and lexing ----

  /** What is left starts as the text did, or with the separator a comment left behind. */
  lemma ScanFirst(s: string)
    requires Scan(s).Some? && Scan(s).value != ""
    ensures Scan(s).value[0] == s[0] || Scan(s).value[0] == ' ' || Scan(s).value[0] == '\n'
  {
    if HeadOf(s) == LineComment {
      var end := IndexOf(s[2..], '\n') + 2;
      assert HeadOf(s[end..]) == Other;
    }
  }

  /** No comment begins where a kept character meets what is left of the rest. */
  lemma OtherStaysOther(s: string)
    requires HeadOf(s) == Other && Scan(s[1..]).Some?
    ensures HeadOf(s[..1] + Scan(s[1..]).value) == Other
  {
    if Scan(s[1..]).value != "" { ScanFirst(s[1..]); }
  }

  /** The lexer reads a literal off the stripped text just as it did off the text. */
  lemma LiteralKept(s: string, n: nat, rest: string, ws: set<char>)
    requires HeadOf(s) == Quote && FirstLiteral(s) == Some(n)
    requires rest == "" || (n + 1 < |s| && (rest[0] == s[n + 1] || rest[0] == ' ' || rest[0] == '\n'))
    ensures Lex(s[..n + 1] + rest, ws) == Cons(Quoted(s[..n + 1]), Lex(rest, ws))
  {
    var kept := s[..n + 1] + rest;
    assert kept[0] == s[0] && kept[1..][..n] == s[1..][..n];
    LiteralIsLocal(s[1..], Closer(s[0]), s[0] != '[', kept[1..]);
    hide LiteralEnd;
    assert kept[..n + 1] == s[..n + 1] && kept[n + 1..] == rest;
  }

  /** Before trimming: the stripped text lexes exactly when the text does, to the same tokens and no comment. */
  ghost predicate KeepsTokens(s: string, ws: set<char>) {
    && (Scan(s).Some? <==> Lex(s, ws).Some?)
    && (Scan(s).Some? ==>
          && Lex(Scan(s).value, ws).Some? && Comment !in Lex(Scan(s).value, ws).value
          && Collapse(Lex(Scan(s).value, ws).value) == Collapse(Lex(s, ws).value))
  }

  lemma KeepsAtQuote(s: string, ws: set<char>)
    requires HeadOf(s) == Quote && (FirstLiteral(s).Some? ==> KeepsTokens(s[FirstLiteral(s).value + 1..], ws))
    ensures KeepsTokens(s, ws)
  {
    ScanCopiesLiteral(s);
    assert CopiesLiteral(s);
    if FirstLiteral(s).Some? {
      var n := FirstLiteral(s).value;
      if Scan(s[n + 1..]).Some? {
        var rest := Scan(s[n + 1..]).value;
        if rest != "" { ScanFirst(s[n + 1..]); }
        LiteralKept(s, n, rest, ws);
      }
      hide Scan, FirstLiteral;
    }
  }

  lemma KeepsAtLineComment(s: string, ws: set<char>)
    requires HeadOf(s) == LineComment && Whitespace(ws)
    requires KeepsTokens(s[IndexOf(s[2..], '\n') + 2..], ws)
    ensures KeepsTokens(s, ws)
  {
    var end := IndexOf(s[2..], '\n') + 2;
    if end < |s| {
      assert HeadOf(s[end..]) == Other;
    }
  }

  lemma KeepsAtBlockComment(s: string, ws: set<char>)
    requires HeadOf(s) == BlockComment && Whitespace(ws)
    requires IndexOfClose(s[2..]) + 2 < |s| ==> KeepsTokens(s[IndexOfClose(s[2..]) + 4..], ws)
    ensures KeepsTokens(s, ws)
  {
    var end := IndexOfClose(s[2..]) + 2;
    if end < |s| && Scan(s).Some? {
      var rest := Scan(s[end + 2..]).value;
      assert (" " + rest)[1..] == rest && HeadOf(" " + rest) == Other;
    }
  }

  lemma KeepsAtOther(s: string, ws: set<char>)
    requires HeadOf(s) == Other && KeepsTokens(s[1..], ws)
    ensures KeepsTokens(s, ws)
  {
    if Scan(s).Some? {
      OtherStaysOther(s);
      assert (s[..1] + Scan(s[1..]).value)[1..] == Scan(s[1..]).value;
    }
  }

  lemma {:induction false} ScanKeepsTokens(s: string, ws: set<char>)
    requires Whitespace(ws)
    ensures KeepsTokens(s, ws)
    decreases |s|
  {
    hide KeepsTokens, IndexOf, IndexOfClose, FirstLiteral, Whitespace;
    match HeadOf(s)
    case End => KeepsAtEnd(ws);
    case Quote =>
      if FirstLiteral(s).Some? { ScanKeepsTokens(s[FirstLiteral(s).value + 1..], ws); }
      KeepsAtQuote(s, ws);
    case LineComment =>
      ScanKeepsTokens(s[IndexOf(s[2..], '\n') + 2..], ws);
      KeepsAtLineComment(s, ws);
    case BlockComment =>
      if IndexOfClose(s[2..]) + 2 < |s| { ScanKeepsTokens(s[IndexOfClose(s[2..]) + 4..], ws); }
      KeepsAtBlockComment(s, ws);
    case Other =>
      ScanKeepsTokens(s[1..], ws);
      KeepsAtOther(s, ws);
  }

  lemma KeepsAtEnd(ws: set<char>)
    ensures KeepsTokens("", ws)
  {
  }

  // ---- trimming ----

  predicate AllBlank(s: string) {
    forall k | 0 <= k < |s| :: JsBlank(s[k])
  }

  predicate AllIn(s: string, ws: set<char>) {
    forall k | 0 <= k < |s| :: s[k] in ws
  }

  function PiecesOf(run: string, ws: set<char>): seq<Piece> {
    if run == "" then [] else [PieceOf(run[0], ws)] + PiecesOf(run[1..], ws)
  }

  function Before(pieces: seq<Piece>, rest: Option<seq<Piece>>): Option<seq<Piece>> {
    if rest.Some? then Some(pieces + rest.value) else None
  }

  lemma BlankHead(run: string, s: string, ws: set<char>)
    requires AllBlank(run) && run != ""
    ensures Lex(run + s, ws) == Cons(PieceOf(run[0], ws), Lex(run[1..] + s, ws)) && AllBlank(run[1..])
  {
    assert (run + s)[1..] == run[1..] + s;
    assert JsBlank(run[0]) && HeadOf(run + s) == Other;
    assert forall k | 0 <= k < |run| - 1 :: run[1..][k] == run[k + 1];
    hide Cons, PieceOf;
  }

  lemma ConsBefore(p: Piece, pieces: seq<Piece>, rest: Option<seq<Piece>>)
    ensures Cons(p, Before(pieces, rest)) == Before([p] + pieces, rest)
  {
    if rest.Some? { assert [p] + (pieces + rest.value) == ([p] + pieces) + rest.value; }
  }

  lemma {:induction false} LexAfterBlanks(run: string, s: string, ws: set<char>)
    requires AllBlank(run)
    ensures Lex(run + s, ws) == Before(PiecesOf(run, ws), Lex(s, ws))
  {
    if run == "" {
      assert run + s == s;
      if Lex(s, ws).Some? { assert [] + Lex(s, ws).value == Lex(s, ws).value; }
    } else {
      BlankHead(run, s, ws);
      hide Lex, HeadOf, AllBlank;
      LexAfterBlanks(run[1..], s, ws);
      ConsBefore(PieceOf(run[0], ws), PiecesOf(run[1..], ws), Lex(s, ws));
    }
  }

  /** Text without comments lexes the same when blanks follow it. */
  ghost predicate BlanksApart(s: string, run: string, ws: set<char>) {
    Lex(s + run, ws).Some? && Comment !in Lex(s + run, ws).value ==>
      Lex(s, ws).Some? && Lex(s + run, ws).value == Lex(s, ws).value + PiecesOf(run, ws)
  }

  lemma QuoteThenBlanks(s: string, run: string, ws: set<char>)
    requires AllBlank(run) && s != "" && HeadOf(s) == Quote && FirstLiteral(s + run).Some?
    ensures FirstLiteral(s) == FirstLiteral(s + run)
  {
    var n := FirstLiteral(s + run).value;
    LiteralCloses((s + run)[1..], Closer(s[0]), s[0] != '[');
    assert (s + run)[n] == Closer(s[0]) && !JsBlank(Closer(s[0]));
    assert n < |s|;
    assert (s + run)[1..][..n] == s[1..][..n];
    LiteralIsLocal((s + run)[1..], Closer(s[0]), s[0] != '[', s[1..]);
  }

  lemma {:induction false} LiteralCloses(s: string, q: char, doubles: bool)
    requires LiteralEnd(s, q, doubles).Some?
    ensures s[LiteralEnd(s, q, doubles).value - 1] == q
  {
    if s[0] != q {
      LiteralCloses(s[1..], q, doubles);
    } else if doubles && |s| > 1 && s[1] == q {
      LiteralCloses(s[2..], q, doubles);
    }
  }

  /** Putting the head piece back. */
  lemma ConsApart(p: Piece, s: string, run: string, ws: set<char>, whole: Option<seq<Piece>>, front: Option<seq<Piece>>)
    requires BlanksApart(s, run, ws) && whole == Cons(p, Lex(s + run, ws)) && front == Cons(p, Lex(s, ws))
    requires whole.Some? && Comment !in whole.value
    ensures front.Some? && whole.value == front.value + PiecesOf(run, ws)
  {
    hide Lex, PiecesOf;
    TailHasNone(p, Lex(s + run, ws).value);
    ConsAssociates(p, Lex(s, ws).value, PiecesOf(run, ws));
  }

  lemma ConsAssociates(p: Piece, a: seq<Piece>, b: seq<Piece>)
    ensures [p] + (a + b) == ([p] + a) + b
  {
  }

  lemma ApartAtQuote(s: string, run: string, ws: set<char>)
    requires AllBlank(run) && s != "" && HeadOf(s) == Quote
    requires FirstLiteral(s + run).Some? && FirstLiteral(s).Some? ==> BlanksApart(s[FirstLiteral(s).value + 1..], run, ws)
    ensures BlanksApart(s, run, ws)
  {
    var whole := Lex(s + run, ws);
    assert HeadOf(s + run) == Quote;
    if whole.Some? && Comment !in whole.value {
      QuoteThenBlanks(s, run, ws);
      var n := FirstLiteral(s).value;
      hide FirstLiteral, AllBlank, HeadOf, PiecesOf, BlanksApart;
      assert (s + run)[n + 1..] == s[n + 1..] + run && (s + run)[..n + 1] == s[..n + 1];
      ConsApart(Quoted(s[..n + 1]), s[n + 1..], run, ws, whole, Lex(s, ws));
    }
  }

  lemma ApartAtOther(s: string, run: string, ws: set<char>)
    requires AllBlank(run) && s != "" && HeadOf(s) != Quote && BlanksApart(s[1..], run, ws)
    ensures BlanksApart(s, run, ws)
  {
    var whole := Lex(s + run, ws);
    if whole.Some? && Comment !in whole.value {
      assert HeadOf(s + run) == Other by { assert whole.value[0] != Comment; }
      assert HeadOf(s) == Other;
      hide AllBlank, HeadOf, PiecesOf;
      assert (s + run)[1..] == s[1..] + run;
      ConsApart(PieceOf(s[0], ws), s[1..], run, ws, whole, Lex(s, ws));
    }
  }

  lemma ApartAtEnd(run: string, ws: set<char>)
    requires AllBlank(run)
    ensures BlanksApart("", run, ws)
  {
    assert "" + run == run == run + "";
    LexAfterBlanks(run, "", ws);
  }

  lemma {:induction false} LexBeforeBlanks(s: string, run: string, ws: set<char>)
    requires AllBlank(run)
    ensures BlanksApart(s, run, ws)
    decreases |s|
  {
    hide *;
    if s == "" {
      ApartAtEnd(run, ws);
    } else if HeadOf(s) == Quote {
      if FirstLiteral(s).Some? { LexBeforeBlanks(s[FirstLiteral(s).value + 1..], run, ws); }
      ApartAtQuote(s, run, ws);
    } else {
      LexBeforeBlanks(s[1..], run, ws);
      ApartAtOther(s, run, ws);
    }
  }

  // ---- gaps and weight ----

  predicate AllGaps(pieces: seq<Piece>) {
    forall k | 0 <= k < |pieces| :: IsGap(pieces[k])
  }

  /** How many pieces are no gap. */
  function Weight(pieces: seq<Piece>): nat {
    if pieces == [] then 0 else (if IsGap(pieces[0]) then 0 else 1) + Weight(pieces[1..])
  }

  lemma {:induction false} WeightOfSum(a: seq<Piece>, b: seq<Piece>)
    ensures Weight(a + b) == Weight(a) + Weight(b)
  {
    if a == [] {
      assert a + b == b;
    } else {
      assert (a + b)[1..] == a[1..] + b;
      WeightOfSum(a[1..], b);
    }
  }

  lemma {:induction false} TokensWeigh(pieces: seq<Piece>)
    ensures Weight(Collapse(pieces)) == Weight(pieces) == Weight(Tokens(pieces))
  {
    if pieces != [] {
      TokensWeigh(pieces[1..]);
      var rest := Collapse(pieces[1..]);
      assert ([pieces[0]] + rest)[1..] == rest && ([Blank] + rest)[1..] == rest;
    }
  }

  lemma {:induction false} GapsBefore(gaps: seq<Piece>, pieces: seq<Piece>)
    requires AllGaps(gaps)
    ensures Tokens(gaps + pieces) == Tokens(pieces)
  {
    if gaps == [] {
      assert gaps + pieces == pieces;
    } else {
      assert (gaps + pieces)[1..] == gaps[1..] + pieces;
      GapsBefore(gaps[1..], pieces);
      var rest := Collapse(gaps[1..] + pieces);
      assert ([Blank] + rest)[1..] == rest;
    }
  }

  lemma {:induction false} GapsAfter(pieces: seq<Piece>, gaps: seq<Piece>)
    requires AllGaps(gaps)
    ensures Collapse(pieces + gaps) == Collapse(pieces)
    decreases |pieces| + |gaps|
  {
    if pieces == [] {
      assert pieces + gaps == gaps;
      if gaps != [] {
        assert [] + gaps[1..] == gaps[1..];
        GapsAfter([], gaps[1..]);
      }
    } else {
      assert (pieces + gaps)[1..] == pieces[1..] + gaps;
      GapsAfter(pieces[1..], gaps);
    }
  }

  lemma {:induction false} RunWeighs(run: string, ws: set<char>)
    ensures AllIn(run, ws) ==> AllGaps(PiecesOf(run, ws))
    ensures AllIn(run, ws) <==> Weight(PiecesOf(run, ws)) == 0
  {
    if run != "" {
      RunWeighs(run[1..], ws);
      if AllIn(run, ws) { assert run[0] in ws && AllIn(run[1..], ws); }
      if run[0] in ws && AllIn(run[1..], ws) {
        forall k | 0 <= k < |run| ensures run[k] in ws { if k > 0 { assert run[k] == run[1..][k - 1]; } }
      }
    }
  }

  /** Taking blanks off both ends keeps the tokens exactly when the lexer counts them all as whitespace. */
  lemma EndsOff(left: seq<Piece>, middle: seq<Piece>, right: seq<Piece>)
    requires Weight(left) == 0 ==> AllGaps(left)
    requires Weight(right) == 0 ==> AllGaps(right)
    ensures Tokens(middle) == Tokens(left + (middle + right)) <==> Weight(left) == 0 && Weight(right) == 0
  {
    WeightOfSum(left, middle + right);
    WeightOfSum(middle, right);
    TokensWeigh(middle);
    TokensWeigh(left + (middle + right));
    if Weight(left) == 0 && Weight(right) == 0 {
      GapsBefore(left, middle + right);
      GapsAfter(middle, right);
    }
  }

  lemma {:induction false} TrimLeftDropsBlanks(s: string)
    ensures AllBlank(s[..|s| - |TrimLeft(s, JsBlank)|])
  {
    if s != "" && JsBlank(s[0]) {
      TrimLeftDropsBlanks(s[1..]);
      var n := |s| - |TrimLeft(s, JsBlank)|;
      forall k | 0 <= k < n ensures JsBlank(s[..n][k]) { if k > 0 { assert s[1..][..n - 1][k - 1] == s[k]; } }
    }
  }

  lemma {:induction false} TrimRightDropsBlanks(s: string)
    ensures AllBlank(s[|TrimRight(s, JsBlank)|..])
  {
    if s != "" && JsBlank(s[|s| - 1]) {
      TrimRightDropsBlanks(s[..|s| - 1]);
      var n := |TrimRight(s, JsBlank)|;
      forall k | 0 <= k < |s| - n ensures JsBlank(s[n..][k]) {
        if k < |s| - n - 1 { assert s[..|s| - 1][n..][k] == s[n..][k]; }
      }
    }
  }

  function LeftEnd(s: string): string {
    s[..|s| - |TrimLeft(s, JsBlank)|]
  }

  function RightEnd(s: string): string {
    TrimLeft(s, JsBlank)[|JsTrim(s)|..]
  }

  lemma TrimParts(s: string)
    ensures s == LeftEnd(s) + (JsTrim(s) + RightEnd(s)) && AllBlank(LeftEnd(s)) && AllBlank(RightEnd(s))
  {
    var left := TrimLeft(s, JsBlank);
    TrimLeftDropsBlanks(s);
    TrimRightDropsBlanks(left);
    JsTrimIs(s);
    hide TrimLeft, TrimRight, JsTrim, AllBlank;
    PrefixAndRest(left, JsTrim(s));
    SuffixAndRest(s, left);
  }

  lemma JsTrimIs(s: string)
    ensures JsTrim(s) == TrimRight(TrimLeft(s, JsBlank), JsBlank) && JsTrim(s) <= TrimLeft(s, JsBlank)
  {
  }

  lemma PrefixAndRest(s: string, p: string)
    requires p <= s
    ensures s == p + s[|p|..]
  {
  }

  lemma SuffixAndRest(s: string, t: string)
    requires |t| <= |s| && t == s[|s| - |t|..]
    ensures s == s[..|s| - |t|] + t
  {
  }

  // ---- what the stripper promises ----

  /** The text that `trim` takes off either end is whitespace to the lexer too. */
  predicate CleanEnds(s: string, ws: set<char>) {
    AllIn(LeftEnd(s), ws) && AllIn(RightEnd(s), ws)
  }

  lemma TrimKeepsTokensExactly(s: string, ws: set<char>)
    requires Lex(s, ws).Some? && Comment !in Lex(s, ws).value
    ensures Lex(JsTrim(s), ws).Some? && Comment !in Lex(JsTrim(s), ws).value
    ensures Tokens(Lex(JsTrim(s), ws).value) == Tokens(Lex(s, ws).value) <==> CleanEnds(s, ws)
  {
    TrimParts(s);
    var left, middle, right := LeftEnd(s), JsTrim(s), RightEnd(s);
    LexAfterBlanks(left, middle + right, ws);
    LexBeforeBlanks(middle, right, ws);
    RunWeighs(left, ws);
    RunWeighs(right, ws);
    hide Lex, Tokens, JsTrim, PiecesOf, AllIn, AllGaps, Weight, LeftEnd, RightEnd, AllBlank;
    var p, q := PiecesOf(left, ws), Lex(middle + right, ws).value;
    assert forall k | 0 <= k < |q| :: q[k] == (p + q)[|p| + k];
    assert BlanksApart(middle, right, ws);
    var m := Lex(middle, ws).value;
    assert forall k | 0 <= k < |m| :: m[k] == q[k];
    EndsOff(p, m, PiecesOf(right, ws));
  }

  /**
   For every input that terminates its quotes and block comments, and any lexer's whitespace: the output
   has no comment, and it has the input's tokens exactly when `trim` took nothing off the ends that the
   lexer does not count as whitespace.
   */
  lemma TokensKeptExactly(sql: string, ws: set<char>)
    requires Whitespace(ws) && Lex(sql, ws).Some?
    ensures Scan(sql).Some? && Lex(Strip(sql), ws).Some? && Comment !in Lex(Strip(sql), ws).value
    ensures Tokens(Lex(Strip(sql), ws).value) == Tokens(Lex(sql, ws).value) <==> CleanEnds(Scan(sql).value, ws)
  {
    ScanKeepsTokens(sql, ws);
    TrimKeepsTokensExactly(Scan(sql).value, ws);
  }

  function JsWhitespace(): (ws: set<char>)
    ensures Whitespace(ws)
  {
    set c: char | JsBlank(c)
  }

  /** With the whitespace of `trim` itself the tokens are always kept. */
  lemma TokensKept(sql: string)
    requires Lex(sql, JsWhitespace()).Some?
    ensures Lex(Strip(sql), JsWhitespace()).Some?
    ensures Tokens(Lex(Strip(sql), JsWhitespace()).value) == Tokens(Lex(sql, JsWhitespace()).value)
  {
    TokensKeptExactly(sql, JsWhitespace());
    TrimParts(Scan(sql).value);
  }

  /** A quote or block comment that never ends returns the input unchanged; stripper and lexer agree on which inputs those are. */
  lemma UnterminatedUnchanged(sql: string, ws: set<char>)
    requires Whitespace(ws)
    ensures Lex(sql, ws).None? ==> Strip(sql) == sql
    ensures Lex(sql, ws).None? <==> Scan(sql).None?
  {
    ScanKeepsTokens(sql, ws);
  }

  /** Without comments there is nothing to strip, as far as the rest goes. */
  lemma NothingAtQuote(s: string, ws: set<char>)
    requires HeadOf(s) == Quote && Lex(s, ws).Some? && Comment !in Lex(s, ws).value
    ensures FirstLiteral(s).Some?
    ensures var rest := s[FirstLiteral(s).value + 1..];
            && Lex(rest, ws).Some? && Comment !in Lex(rest, ws).value
            && (Scan(rest) == Some(rest) ==> Scan(s) == Some(s))
  {
    ScanCopiesLiteral(s);
    assert CopiesLiteral(s);
    hide Scan, FirstLiteral, HeadOf;
    var n := FirstLiteral(s).value;
    TailHasNone(Quoted(s[..n + 1]), Lex(s[n + 1..], ws).value);
    assert s[..n + 1] + s[n + 1..] == s;
  }

  lemma NothingAtOther(s: string, ws: set<char>)
    requires HeadOf(s) != Quote && s != "" && Lex(s, ws).Some? && Comment !in Lex(s, ws).value
    ensures Lex(s[1..], ws).Some? && Comment !in Lex(s[1..], ws).value
    ensures Scan(s[1..]) == Some(s[1..]) ==> Scan(s) == Some(s)
  {
    assert HeadOf(s) == Other by { assert Lex(s, ws).value[0] != Comment; }
    TailHasNone(PieceOf(s[0], ws), Lex(s[1..], ws).value);
    assert s[..1] + s[1..] == s;
  }

  lemma {:induction false} NothingToStrip(s: string, ws: set<char>)
    requires Lex(s, ws).Some? && Comment !in Lex(s, ws).value
    ensures Scan(s) == Some(s)
    decreases |s|
  {
    hide *;
    if s == "" {
      ScanEnd(s, 0);
      assert s[0..] == s;
    } else if HeadOf(s) == Quote {
      NothingAtQuote(s, ws);
      NothingToStrip(s[FirstLiteral(s).value + 1..], ws);
    } else {
      NothingAtOther(s, ws);
      NothingToStrip(s[1..], ws);
    }
  }

  lemma TailHasNone(p: Piece, rest: seq<Piece>)
    requires Comment !in [p] + rest
    ensures Comment !in rest
  {
    assert forall k | 0 <= k < |rest| :: rest[k] == ([p] + rest)[k + 1];
  }

  lemma {:induction false} TrimTwice(s: string)
    ensures JsTrim(JsTrim(s)) == JsTrim(s)
  {
    var t := JsTrim(s);
    if t != "" { assert TrimLeft(t, JsBlank) == t && TrimRight(t, JsBlank) == t; }
  }

  /** Stripping twice is stripping once, on every input. */
  lemma StripIdempotent(sql: string)
    ensures Strip(Strip(sql)) == Strip(sql)
  {
    if Scan(sql).Some? {
      var ws := JsWhitespace();
      ScanKeepsTokens(sql, ws);
      TokensKeptExactly(sql, ws);
      NothingToStrip(Strip(sql), ws);
      TrimTwice(Scan(sql).value);
    }
  }

  /** Text that neither is empty nor starts with whitespace has a token. */
  lemma HasToken(s: string, ws: set<char>)
    requires Whitespace(ws) && s != "" && !JsBlank(s[0])
    requires Lex(s, ws).Some? && Comment !in Lex(s, ws).value
    ensures Tokens(Lex(s, ws).value) != []
  {
    var pieces := Lex(s, ws).value;
    assert pieces != [] && pieces[0] != Comment;
    assert !IsGap(pieces[0]);
  }

  /** The runner's test for a file with nothing to run: the stripped text is empty exactly when there are no tokens. */
  lemma EmptyExactlyWithoutTokens(sql: string)
    requires Lex(sql, JsWhitespace()).Some?
    ensures Strip(sql) == "" <==> Tokens(Lex(sql, JsWhitespace()).value) == []
  {
    var ws := JsWhitespace();
    TokensKept(sql);
    TokensKeptExactly(sql, ws);
    assert Lex("", ws) == Some([]);
    if Strip(sql) != "" {
      TrimmedStart(Scan(sql).value);
      hide Lex, Tokens, Strip, JsBlank;
      HasToken(Strip(sql), ws);
    }
  }

  lemma TrimmedStart(s: string)
    ensures JsTrim(s) == "" || !JsBlank(JsTrim(s)[0])
  {
  }

  predicate IsOrdinary(c: char) {
    !IsQuote(c) && c != '-' && c != '/'
  }

  lemma {:induction false} OrdinaryScans(s: string)
    requires forall k | 0 <= k < |s| :: IsOrdinary(s[k])
    ensures Scan(s) == Some(s)
  {
    if s != "" {
      assert forall k | 0 <= k < |s| - 1 :: s[1..][k] == s[k + 1];
      OrdinaryScans(s[1..]);
      assert s[..1] + s[1..] == s;
    }
  }

  /** A character that begins nothing and is no whitespace comes back as it is. */
  lemma PlainTextStays(s: string)
    requires |s| == 1 && IsOrdinary(s[0]) && !JsBlank(s[0])
    ensures Strip(s) == s
  {
    OrdinaryScans(s);
    hide Scan;
  }

  /** A no-break space before the statement is taken off, and to a lexer that counts it as text that is a token lost. */
  lemma NoBreakSpaceGoes(ws: set<char>)
    requires Whitespace(ws) && '\U{00A0}' !in ws
    ensures Lex("\U{00A0}x", ws).Some? && Lex(Strip("\U{00A0}x"), ws).Some?
    ensures Tokens(Lex(Strip("\U{00A0}x"), ws).value) != Tokens(Lex("\U{00A0}x", ws).value)
  {
    var s := "\U{00A0}x";
    OrdinaryScans(s);
    ScanKeepsTokens(s, ws);
    LeftEndOfOneBlank(s);
    hide Scan, Lex, LeftEnd, RightEnd, Tokens;
    TokensKeptExactly(s, ws);
    assert LeftEnd(s)[0] !in ws;
  }

  lemma LeftEndOfOneBlank(s: string)
    requires |s| == 2 && JsBlank(s[0]) && !JsBlank(s[1])
    ensures LeftEnd(s) == [s[0]]
  {
    assert TrimLeft(s[1..], JsBlank) == s[1..] by { assert s[1..][0] == s[1]; }
    assert TrimLeft(s, JsBlank) == s[1..];
  }
}
