/** What the tokeniser guarantees: locality, composition, exact spans, re-lexing. */
module SqlLexing {
  import opened Text
  import opened SqlLexer

  /** Reading `s` ends outside every quote and comment. */
  predicate Closed(s: string)
    decreases |s|
  {
    s == "" || (Munch(s).span.closed && Closed(Drop(s, Munch(s).span.len)))
  }

  /** The kind of the last lexeme of `s`, none when that is a blank or a comment. */
  function LastKind(s: string): Option<TokenKind>
    decreases |s|
  {
    if s == "" then None
    else
      var m := Munch(s);
      if m.span.len >= |s| then m.kind else LastKind(Drop(s, m.span.len))
  }

  predicate EndsInNumber(s: string) {
    LastKind(s) == Some(Number)
  }

  predicate EndsInWord(s: string) {
    LastKind(s) == Some(Word)
  }

  /** Characters that end whatever is before them, outside quotes and comments. */
  predicate Breaks(c: char) {
    IsAsciiSpace(c) || c == ';' || c == ',' || c == '(' || c == ')'
  }

  predicate EndsInDash(s: string) {
    s != "" && s[|s| - 1] == '-'
  }

  /** `b` can follow `a` without joining or extending the last lexeme of `a`. */
  predicate Seam(a: string, b: string) {
    || b == "" || Breaks(b[0]) || b[0] == '/'
    || (b[0] == '.' && !EndsInNumber(a))
    || (b[0] == '-' && !EndsInDash(a))
    || (IsSpace(b[0]) && !EndsInWord(a))
  }

  /** `b` leaves the first lexeme of `a` as it is. */
  predicate Holds(a: string, b: string)
    requires a != ""
  {
    b != "" ==>
      && b[0] != '\'' && b[0] != '"' && b[0] != '$' && !IsTagChar(b[0])
      && (Munch(a).span.len >= |a| ==>
            && (Munch(a).kind == Some(Word) ==> !IsWordChar(b[0]))
            && (Munch(a).kind == Some(Number) ==> !IsNumberChar(b[0]))
            && (EndsInDash(a) ==> b[0] != '-')
            && b[0] != '*')
  }

  // --- each scanner reads the same whatever follows its terminator ---

  lemma {:induction false} LineLocal(s: string, b: string)
    requires LineSpan(s).closed
    ensures LineSpan(s + b) == LineSpan(s)
  {
    if s[0] != '\n' {
      assert (s + b)[1..] == s[1..] + b;
      LineLocal(s[1..], b);
    }
  }

  lemma {:induction false} BlockLocal(s: string, b: string, depth: nat)
    requires BlockSpan(s, depth).closed
    ensures BlockSpan(s + b, depth) == BlockSpan(s, depth)
    decreases |s|
  {
    assert (s + b)[1..] == s[1..] + b;
    if |s| >= 2 {
      assert (s + b)[2..] == s[2..] + b;
    }
    if StartsWith2(s, '/', '*') {
      BlockLocal(s[2..], b, depth + 1);
    } else if StartsWith2(s, '*', '/') {
      if depth > 1 {
        BlockLocal(s[2..], b, depth - 1);
      }
    } else {
      BlockLocal(s[1..], b, depth);
    }
  }

  lemma {:induction false} QuoteLocal(s: string, b: string, q: char)
    requires QuoteSpan(s, q).closed && (b == "" || b[0] != q)
    ensures QuoteSpan(s + b, q) == QuoteSpan(s, q)
    decreases |s|
  {
    assert (s + b)[1..] == s[1..] + b;
    if s[0] == q {
      if |s| >= 2 && s[1] == q {
        assert (s + b)[2..] == s[2..] + b;
        QuoteLocal(s[2..], b, q);
      }
    } else {
      QuoteLocal(s[1..], b, q);
    }
  }

  lemma {:induction false} EscapeLocal(s: string, b: string)
    requires EscapeSpan(s).closed && (b == "" || b[0] != '\'')
    ensures EscapeSpan(s + b) == EscapeSpan(s)
    decreases |s|
  {
    assert (s + b)[1..] == s[1..] + b;
    if |s| >= 2 {
      assert (s + b)[2..] == s[2..] + b;
    }
    if s[0] == '\\' || (s[0] == '\'' && |s| >= 2 && s[1] == '\'') {
      EscapeLocal(s[2..], b);
    } else if s[0] != '\'' {
      EscapeLocal(s[1..], b);
    }
  }

  lemma {:induction false} TagRunLocal(s: string, b: string)
    requires b == "" || !IsTagChar(b[0])
    ensures TagRun(s + b) == TagRun(s)
  {
    if s == "" {
      assert s + b == b;
    } else if IsTagChar(s[0]) {
      assert (s + b)[1..] == s[1..] + b;
      TagRunLocal(s[1..], b);
    }
  }

  lemma {:induction false} NumberRunLocal(s: string, b: string)
    requires NumberRun(s) < |s| || b == "" || !IsNumberChar(b[0])
    ensures NumberRun(s + b) == NumberRun(s)
  {
    if s == "" {
      assert s + b == b;
    } else if IsNumberChar(s[0]) {
      assert (s + b)[1..] == s[1..] + b;
      NumberRunLocal(s[1..], b);
    }
  }

  lemma {:induction false} WordRunLocal(s: string, b: string)
    requires WordRun(s) < |s| || b == "" || !IsWordChar(b[0])
    ensures WordRun(s + b) == WordRun(s)
  {
    if s == "" {
      assert s + b == b;
    } else if IsWordChar(s[0]) {
      assert (s + b)[1..] == s[1..] + b;
      WordRunLocal(s[1..], b);
    }
  }

  lemma TagLengthLocal(s: string, b: string)
    requires s != ""
    requires b == "" || (!IsTagChar(b[0]) && b[0] != '$')
    ensures TagLength(s + b) == TagLength(s)
  {
    assert (s + b)[1..] == s[1..] + b;
    TagRunLocal(s[1..], b);
    if |s| == 1 {
      assert TagRun(s[1..]) == 0;
    }
  }

  lemma DollarLocal(s: string, b: string)
    requires s != "" && TagLength(s) > 0 && TagLength(s + b) == TagLength(s)
    requires DollarSpan(s).closed
    ensures DollarSpan(s + b) == DollarSpan(s)
  {
    var k := TagLength(s);
    assert (s + b)[k..] == s[k..] + b && (s + b)[..k] == s[..k];
    IndexOfLocal(s[k..], b, s[..k]);
  }

  /** A closed first lexeme does not depend on what comes after a seam. */
  lemma MunchLocal(a: string, b: string)
    requires a != "" && Munch(a).span.closed && Seam(a, b)
    ensures Munch(a + b) == Munch(a)
  {
    SeamHolds(a, b);
    MunchHolds(a, b);
  }

  lemma SeamHolds(a: string, b: string)
    requires a != "" && Seam(a, b)
    ensures Holds(a, b)
  {
    hide Munch;
  }

  lemma MunchHolds(a: string, b: string)
    requires a != "" && Munch(a).span.closed && Holds(a, b)
    ensures Munch(a + b) == Munch(a)
  {
    if Munch(a).kind == None {
      TriviaLocal(a, b);
    } else if StartsEscape(a) || a[0] == '"' || a[0] == '\'' {
      QuotesLocal(a, b);
    } else if IsDigit(a[0]) || IsWordStart(a[0]) {
      RunLocal(a, b);
    } else {
      MarkLocal(a, b);
    }
  }

  lemma MarkLocal(a: string, b: string)
    requires a != "" && Munch(a).span.closed && Holds(a, b)
    requires Munch(a).kind.Some?
    requires !IsDigit(a[0]) && !IsWordStart(a[0]) && a[0] != '"' && a[0] != '\''
    ensures Munch(a + b) == Munch(a)
  {
    TagLengthLocal(a, b);
    if TagLength(a) > 0 {
      DollarLocal(a, b);
    }
  }

  // Munch, case by case.

  predicate StartsEscape(s: string) {
    StartsWith2(s, 'E', '\'') || StartsWith2(s, 'e', '\'')
  }

  lemma MunchQuoted(s: string)
    requires s != "" && (s[0] == '\'' || s[0] == '"')
    ensures Munch(s) == Lexeme(Some(if s[0] == '"' then Ident else Str), Extend(1, QuoteSpan(s[1..], s[0])))
  {
  }

  lemma MunchEscape(s: string)
    requires StartsEscape(s)
    ensures Munch(s) == Lexeme(Some(Str), Extend(2, EscapeSpan(s[2..])))
  {
  }

  lemma MunchNumber(s: string)
    requires s != "" && IsDigit(s[0])
    ensures Munch(s) == Lexeme(Some(Number), Span(1 + NumberRun(s[1..]), true))
  {
  }

  lemma MunchWord(s: string)
    requires s != "" && IsWordStart(s[0]) && !IsSpace(s[0]) && !StartsEscape(s)
    ensures Munch(s) == Lexeme(Some(Word), Span(1 + WordRun(s[1..]), true))
  {
  }

  lemma QuotesLocal(a: string, b: string)
    requires a != "" && Munch(a).span.closed && Holds(a, b)
    requires StartsEscape(a) || a[0] == '"' || a[0] == '\''
    ensures Munch(a + b) == Munch(a)
  {
    hide Munch;
    if StartsEscape(a) {
      assert (a + b)[2..] == a[2..] + b;
      MunchEscape(a);
      MunchEscape(a + b);
      EscapeLocal(a[2..], b);
    } else {
      assert (a + b)[1..] == a[1..] + b;
      MunchQuoted(a);
      MunchQuoted(a + b);
      QuoteLocal(a[1..], b, a[0]);
    }
  }

  lemma RunLocal(a: string, b: string)
    requires a != "" && Holds(a, b)
    requires IsDigit(a[0]) || (IsWordStart(a[0]) && !IsSpace(a[0]) && !StartsEscape(a))
    ensures Munch(a + b) == Munch(a)
  {
    hide Munch;
    assert (a + b)[1..] == a[1..] + b;
    if IsDigit(a[0]) {
      MunchNumber(a);
      MunchNumber(a + b);
      NumberRunLocal(a[1..], b);
    } else {
      MunchWord(a);
      MunchWord(a + b);
      WordRunLocal(a[1..], b);
    }
  }

  /** A closed blank or comment does not depend on what follows it at all. */
  lemma TriviaLocal(a: string, b: string)
    requires a != "" && Munch(a).span.closed && Munch(a).kind == None
    ensures Munch(a + b) == Munch(a)
  {
    if |a| >= 2 {
      assert (a + b)[2..] == a[2..] + b;
    }
    if IsSpace(a[0]) {
    } else if StartsWith2(a, '-', '-') {
      LineLocal(a[2..], b);
    } else {
      BlockLocal(a[2..], b, 1);
    }
  }

  // --- composition ---

  lemma LexNil(at: nat)
    ensures LexFrom("", at) == []
  {
  }

  lemma LexHead(s: string, at: nat)
    requires s != ""
    ensures LexFrom(s, at)
         == Emit(Munch(s), s, at) + LexFrom(Drop(s, Munch(s).span.len), at + Munch(s).span.len)
  {
    hide Munch, Emit;
  }

  lemma EmitLocal(m: Lexeme, a: string, b: string, at: nat)
    requires m.span.len <= |a|
    ensures Emit(m, a + b, at) == Emit(m, a, at)
  {
    assert (a + b)[..m.span.len] == a[..m.span.len];
  }

  /** What one step over `a` leaves when `b` follows. */
  lemma StepOver(a: string, b: string, at: nat)
    requires a != "" && Munch(a).span.closed && Munch(a + b) == Munch(a)
    ensures LexFrom(a + b, at)
         == Emit(Munch(a), a, at)
            + LexFrom(Drop(a, Munch(a).span.len) + b, at + Munch(a).span.len)
  {
    hide Munch, Emit;
    var n := Munch(a).span.len;
    LexHead(a + b, at);
    EmitLocal(Munch(a), a, b, at);
    assert Drop(a + b, n) == Drop(a, n) + b;
  }

  /**
   * Lexing composes: past a seam, the tokens of `a + b` are those of `a` and then
   * those of `b` moved by the length of `a`.
   */
  lemma {:induction false} Compose(a: string, b: string, at: nat)
    requires Closed(a) && Seam(a, b)
    ensures LexFrom(a + b, at) == LexFrom(a, at) + LexFrom(b, at + |a|)
    decreases |a|
  {
    hide LexFrom, Munch, Emit;
    if a == "" {
      assert a + b == b;
      LexNil(at);
    } else {
      var n := Munch(a).span.len;
      MunchLocal(a, b);
      StepOver(a, b, at);
      LexHead(a, at);
      Compose(Drop(a, n), b, at + n);
      Associative(Emit(Munch(a), a, at), LexFrom(Drop(a, n), at + n), LexFrom(b, at + |a|));
    }
  }

  lemma TokensAre(s: string)
    ensures Tokens(s) == LexFrom(s, 0)
  {
    hide LexFrom;
  }

  lemma BreaksSeam(a: string, b: string)
    requires b == "" || IsAsciiSpace(b[0]) || b[0] == ';' || b[0] == ',' || b[0] == '(' || b[0] == ')'
    ensures Seam(a, b)
  {
    hide EndsInNumber;
  }

  lemma {:induction false} ClosedCompose(a: string, b: string)
    requires Closed(a) && Seam(a, b)
    ensures Closed(a + b) == Closed(b)
    decreases |a|
  {
    hide Munch;
    if a == "" {
      assert a + b == b;
    } else {
      var n := Munch(a).span.len;
      MunchLocal(a, b);
      assert Drop(a + b, n) == Drop(a, n) + b;
      ClosedCompose(Drop(a, n), b);
    }
  }

  /** Closed blanks and comments vanish, whatever follows them. */
  lemma {:induction false} ComposeTrivia(m: string, b: string, at: nat)
    requires Closed(m) && LexFrom(m, at) == []
    ensures LexFrom(m + b, at) == LexFrom(b, at + |m|)
    decreases |m|
  {
    hide LexFrom, Munch, Upper;
    if m == "" {
      assert m + b == b;
    } else {
      var n := Munch(m).span.len;
      LexHead(m, at);
      TriviaLocal(m, b);
      StepOver(m, b, at);
      ComposeTrivia(Drop(m, n), b, at + n);
    }
  }

  function Moved(t: Token, d: int): Token
    requires 0 <= t.start + d && 0 <= t.end + d
  {
    t.(start := t.start + d, end := t.end + d)
  }

  function Shift(ts: seq<Token>, d: nat): (r: seq<Token>)
    ensures |r| == |ts|
  {
    seq(|ts|, i requires 0 <= i < |ts| => Moved(ts[i], d))
  }

  lemma {:induction false} LexShift(s: string, at: nat, d: nat)
    ensures LexFrom(s, at + d) == Shift(LexFrom(s, at), d)
    decreases |s|
  {
    hide LexFrom, Munch, Emit, Shift;
    if s == "" {
      LexNil(at);
      LexNil(at + d);
      ShiftAppend([], [], d);
    } else {
      var m := Munch(s);
      LexHead(s, at);
      LexHead(s, at + d);
      LexShift(Drop(s, m.span.len), at + m.span.len, d);
      EmitShift(m, s, at, d);
      ShiftAppend(Emit(m, s, at), LexFrom(Drop(s, m.span.len), at + m.span.len), d);
    }
  }

  lemma EmitShift(m: Lexeme, s: string, at: nat, d: nat)
    ensures Emit(m, s, at + d) == Shift(Emit(m, s, at), d)
  {
    hide Upper;
  }

  lemma ShiftAppend(x: seq<Token>, y: seq<Token>, d: nat)
    ensures Shift(x + y, d) == Shift(x, d) + Shift(y, d)
    ensures x == [] ==> Shift(x, d) == []
  {
  }

  /** What a token is, apart from where it stands. */
  datatype Shape = Shape(kind: TokenKind, value: string)

  function Shapes(ts: seq<Token>): (r: seq<Shape>)
    ensures |r| == |ts|
  {
    seq(|ts|, i requires 0 <= i < |ts| => Shape(ts[i].kind, ts[i].value))
  }

  lemma ShapesAnywhere(s: string, at: nat)
    ensures Shapes(LexFrom(s, at)) == Shapes(Tokens(s))
  {
    hide LexFrom;
    LexShift(s, 0, at);
    assert Shapes(Shift(LexFrom(s, 0), at)) == Shapes(LexFrom(s, 0));
  }

  lemma ShapesAppend(x: seq<Token>, y: seq<Token>)
    ensures Shapes(x + y) == Shapes(x) + Shapes(y)
  {
  }

  lemma BlankIsTrivia(m: string)
    requires |m| == 1 && IsSpace(m[0])
    ensures Closed(m) && Tokens(m) == []
  {
    assert Munch(m) == Lexeme(None, Span(1, true));
    hide LexFrom, Munch;
    LexHead(m, 0);
    LexNil(1);
    assert Drop(m, 1) == "";
  }

  lemma Separated(a: string, m: string, b: string)
    requires Closed(a) && Closed(m) && Tokens(m) == []
    requires m != "" && Seam(a, m)
    ensures Shapes(Tokens(a + m + b)) == Shapes(Tokens(a)) + Shapes(Tokens(b))
  {
    hide LexFrom, Munch, Closed, Shapes, EndsInNumber;
    assert a + m + b == a + (m + b) && (m + b)[0] == m[0];
    Compose(a, m + b, 0);
    LexShift(m, 0, |a|);
    ComposeTrivia(m, b, |a|);
    ShapesAnywhere(b, |a| + |m|);
    ShapesAppend(Tokens(a), LexFrom(b, |a| + |m|));
  }

  lemma WordsOnly(s: string)
    requires forall i | 0 <= i < |s| :: IsWordChar(s[i])
    ensures WordRun(s) == |s|
  {
  }

  predicate IsWord(s: string) {
    && s != "" && IsWordStart(s[0]) && !IsSpace(s[0])
    && forall i | 0 <= i < |s| :: IsWordChar(s[i])
  }

  lemma LexOne(s: string, at: nat)
    requires s != "" && Munch(s).span == Span(|s|, true) && Munch(s).kind.Some?
    ensures Closed(s)
    ensures LexFrom(s, at) == [MakeToken(Munch(s).kind.value, s, at, at + |s|)]
  {
    hide LexFrom, Munch, Upper;
    LexHead(s, at);
    LexNil(at + |s|);
    assert Drop(s, |s|) == "" && Take(s, |s|) == s;
  }

  lemma OneWord(s: string, at: nat)
    requires IsWord(s)
    ensures Closed(s) && LexFrom(s, at) == [Token(Word, Upper(s), at, at + |s|)]
  {
    hide LexFrom, Munch, Upper;
    MunchWord(s);
    WordsOnly(s[1..]);
    LexOne(s, at);
  }

  // --- cutting a text after a lexeme ---

  lemma DropOfTake(s: string, j: nat, k: nat)
    requires k <= j <= |s|
    ensures s[..j][k..] == s[k..][..j - k]
  {
  }

  lemma {:induction false} LineCut(s: string, j: nat)
    requires LineSpan(s).len <= j <= |s|
    ensures LineSpan(s[..j]).len == LineSpan(s).len
  {
    if s != "" && s[0] != '\n' {
      DropOfTake(s, j, 1);
      LineCut(s[1..], j - 1);
    }
  }

  /** One step into a block comment. */
  lemma BlockIs(s: string, depth: nat)
    ensures BlockSpan(s, depth) ==
      if s == "" then Span(0, false)
      else if StartsWith2(s, '/', '*') then Extend(2, BlockSpan(s[2..], depth + 1))
      else if StartsWith2(s, '*', '/') then
        if depth <= 1 then Span(2, true) else Extend(2, BlockSpan(s[2..], depth - 1))
      else Extend(1, BlockSpan(s[1..], depth))
  {
  }

  lemma {:induction false} BlockCut(s: string, depth: nat, j: nat)
    requires BlockSpan(s, depth).len <= j <= |s|
    ensures BlockSpan(s[..j], depth) == BlockSpan(s, depth)
    decreases |s|
  {
    hide BlockSpan;
    BlockIs(s, depth);
    BlockIs(s[..j], depth);
    if StartsWith2(s, '/', '*') {
      DropOfTake(s, j, 2);
      BlockCut(s[2..], depth + 1, j - 2);
    } else if StartsWith2(s, '*', '/') {
      if depth > 1 {
        DropOfTake(s, j, 2);
        BlockCut(s[2..], depth - 1, j - 2);
      }
    } else if s != "" {
      DropOfTake(s, j, 1);
      BlockCut(s[1..], depth, j - 1);
    }
  }

  lemma {:induction false} QuoteCut(s: string, q: char, j: nat)
    requires QuoteSpan(s, q).len <= j <= |s|
    ensures QuoteSpan(s[..j], q) == QuoteSpan(s, q)
    decreases |s|
  {
    if s != "" && s[0] == q {
      if |s| >= 2 && s[1] == q {
        DropOfTake(s, j, 2);
        QuoteCut(s[2..], q, j - 2);
      }
    } else if s != "" {
      DropOfTake(s, j, 1);
      QuoteCut(s[1..], q, j - 1);
    }
  }

  lemma {:induction false} EscapeCut(s: string, j: nat)
    requires EscapeSpan(s).len <= j <= |s|
    ensures EscapeSpan(s[..j]) == EscapeSpan(s)
    decreases |s|
  {
    if s == "" {
    } else if s[0] == '\\' || (s[0] == '\'' && |s| >= 2 && s[1] == '\'') {
      DropOfTake(s, j, 2);
      EscapeCut(s[2..], j - 2);
    } else if s[0] != '\'' {
      DropOfTake(s, j, 1);
      EscapeCut(s[1..], j - 1);
    }
  }

  lemma {:induction false} TagRunCut(s: string, j: nat)
    requires j <= |s|
    ensures TagRun(s[..j]) == if TagRun(s) <= j then TagRun(s) else j
  {
    if j > 0 && IsTagChar(s[0]) {
      DropOfTake(s, j, 1);
      TagRunCut(s[1..], j - 1);
    }
  }

  lemma TagLengthCut(s: string, j: nat)
    requires 1 <= j <= |s| && (TagLength(s) > 0 ==> TagLength(s) <= j)
    ensures TagLength(s[..j]) == TagLength(s)
  {
    DropOfTake(s, j, 1);
    TagRunCut(s[1..], j - 1);
  }

  lemma {:induction false} IndexOfCut(s: string, pattern: string, j: nat)
    requires match IndexOf(s, pattern) case Some(i) => i + |pattern| <= j <= |s| case None => j == |s|
    ensures IndexOf(s[..j], pattern) == IndexOf(s, pattern)
  {
    if IndexOf(s, pattern).Some? {
      assert s[..j][..|pattern|] == s[..|pattern|];
      if !(pattern <= s) {
        DropOfTake(s, j, 1);
        IndexOfCut(s[1..], pattern, j - 1);
      }
    } else {
      assert s[..j] == s;
    }
  }

  lemma {:induction false} NumberRunCut(s: string, j: nat)
    requires NumberRun(s) <= j <= |s|
    ensures NumberRun(s[..j]) == NumberRun(s)
  {
    if s != "" && IsNumberChar(s[0]) {
      DropOfTake(s, j, 1);
      NumberRunCut(s[1..], j - 1);
    }
  }

  lemma {:induction false} WordRunCut(s: string, j: nat)
    requires WordRun(s) <= j <= |s|
    ensures WordRun(s[..j]) == WordRun(s)
  {
    if s != "" && IsWordChar(s[0]) {
      DropOfTake(s, j, 1);
      WordRunCut(s[1..], j - 1);
    }
  }

  lemma DollarCut(s: string, j: nat)
    requires s != "" && TagLength(s) > 0 && DollarSpan(s).len <= j <= |s|
    ensures TagLength(s[..j]) == TagLength(s) && DollarSpan(s[..j]) == DollarSpan(s)
  {
    var k := TagLength(s);
    IndexOfFirst(s[k..], s[..k]);
    TagLengthCut(s, j);
    DropOfTake(s, j, k);
    assert s[..j][..k] == s[..k];
    IndexOfCut(s[k..], s[..k], j - k);
  }

  /** Cut anywhere past its end, the first lexeme is read as before. */
  lemma MunchCut(s: string, j: nat)
    requires s != "" && Munch(s).span.len <= j <= |s|
    ensures Munch(s[..j]).kind == Munch(s).kind
    ensures Munch(s[..j]).span.len == Munch(s).span.len
    ensures Munch(s).kind.Some? ==> Munch(s[..j]) == Munch(s)
  {
    if Munch(s).kind == None {
      TriviaCut(s, j);
    } else if StartsEscape(s) || s[0] == '"' || s[0] == '\'' {
      QuotesCut(s, j);
    } else if IsDigit(s[0]) || IsWordStart(s[0]) {
      RunCut(s, j);
    } else {
      MarkCut(s, j);
    }
  }

  lemma TriviaCut(s: string, j: nat)
    requires s != "" && Munch(s).span.len <= j <= |s| && Munch(s).kind == None
    ensures Munch(s[..j]).kind == None
    ensures Munch(s[..j]).span.len == Munch(s).span.len
  {
    if IsSpace(s[0]) {
    } else if StartsWith2(s, '-', '-') {
      assert j >= 2;
      DropOfTake(s, j, 2);
      LineCut(s[2..], j - 2);
    } else {
      assert j >= 2;
      DropOfTake(s, j, 2);
      BlockCut(s[2..], 1, j - 2);
    }
  }

  lemma QuotesCut(s: string, j: nat)
    requires s != "" && Munch(s).span.len <= j <= |s|
    requires StartsEscape(s) || s[0] == '"' || s[0] == '\''
    ensures Munch(s[..j]) == Munch(s)
  {
    hide Munch;
    if StartsEscape(s) {
      MunchEscape(s);
      MunchEscape(s[..j]);
      DropOfTake(s, j, 2);
      EscapeCut(s[2..], j - 2);
    } else {
      MunchQuoted(s);
      MunchQuoted(s[..j]);
      DropOfTake(s, j, 1);
      QuoteCut(s[1..], s[0], j - 1);
    }
  }

  lemma RunCut(s: string, j: nat)
    requires s != "" && Munch(s).span.len <= j <= |s|
    requires IsDigit(s[0]) || (IsWordStart(s[0]) && !IsSpace(s[0]) && !StartsEscape(s))
    ensures Munch(s[..j]) == Munch(s)
  {
    hide Munch;
    DropOfTake(s, j, 1);
    if IsDigit(s[0]) {
      MunchNumber(s);
      MunchNumber(s[..j]);
      NumberRunCut(s[1..], j - 1);
    } else {
      MunchWord(s);
      MunchWord(s[..j]);
      WordRunCut(s[1..], j - 1);
    }
  }

  lemma MarkCut(s: string, j: nat)
    requires s != "" && Munch(s).span.len <= j <= |s| && Munch(s).kind.Some?
    requires !IsDigit(s[0]) && !IsWordStart(s[0]) && s[0] != '"' && s[0] != '\''
    ensures Munch(s[..j]) == Munch(s)
  {
    if TagLength(s) > 0 {
      DollarCut(s, j);
    } else {
      TagLengthCut(s, j);
    }
  }

  // --- re-lexing ---

  /** The source of each token of `s`, one blank after each; blanks and comments dropped. */
  function Spaced(s: string): string
    decreases |s|
  {
    if s == "" then ""
    else
      var m := Munch(s);
      (if m.kind.Some? then Take(s, m.span.len) + " " else "") + Spaced(Drop(s, m.span.len))
  }

  lemma SpacedHead(s: string)
    requires s != ""
    ensures Spaced(s) == (if Munch(s).kind.Some? then Take(s, Munch(s).span.len) + " " else "")
                         + Spaced(Drop(s, Munch(s).span.len))
  {
    hide Munch;
  }

  lemma {:induction false} SpacedRelexes(s: string)
    requires Closed(s)
    ensures Closed(Spaced(s))
    ensures Shapes(Tokens(Spaced(s))) == Shapes(Tokens(s))
    decreases |s|
  {
    hide LexFrom, Munch, Spaced, Emit;
    if s == "" {
      SpacedNil();
    } else {
      var n := Munch(s).span.len;
      SpacedHead(s);
      SpacedRelexes(Drop(s, n));
      if Munch(s).kind.Some? {
        RespellToken(s, Spaced(Drop(s, n)));
      } else {
        RespellTrivia(s);
        assert "" + Spaced(Drop(s, n)) == Spaced(Drop(s, n));
      }
    }
  }

  lemma RespellToken(s: string, r: string)
    requires s != "" && Munch(s).span.closed && Munch(s).kind.Some? && Closed(r)
    requires Shapes(Tokens(r)) == Shapes(Tokens(Drop(s, Munch(s).span.len)))
    ensures Closed(Take(s, Munch(s).span.len) + " " + r)
    ensures Shapes(Tokens(Take(s, Munch(s).span.len) + " " + r)) == Shapes(Tokens(s))
  {
    hide LexFrom, Munch, Emit, Upper, Shapes;
    var m := Munch(s);
    var x, rest := Take(s, m.span.len), Drop(s, m.span.len);
    LexHead(s, 0);
    ShapesAnywhere(rest, m.span.len);
    ShapesAppend(Emit(m, s, 0), LexFrom(rest, m.span.len));
    EmitWhole(m, s);
    MunchCut(s, m.span.len);
    LexOne(x, 0);
    BlankBetween(x, r);
  }

  lemma BlankBetween(x: string, r: string)
    requires Closed(x) && Closed(r)
    ensures Closed(x + " " + r)
    ensures Shapes(Tokens(x + " " + r)) == Shapes(Tokens(x)) + Shapes(Tokens(r))
  {
    hide LexFrom, Munch, Shapes;
    BlankIsTrivia(" ");
    Separated(x, " ", r);
    ClosedCompose(x, " " + r);
    ClosedTrivia(" ", r);
    assert x + " " + r == x + (" " + r);
  }

  lemma RespellTrivia(s: string)
    requires s != "" && Munch(s).span.closed && Munch(s).kind.None?
    ensures Shapes(Tokens(s)) == Shapes(Tokens(Drop(s, Munch(s).span.len)))
  {
    hide LexFrom, Munch, Emit;
    var m := Munch(s);
    LexHead(s, 0);
    EmitWhole(m, s);
    ShapesAnywhere(Drop(s, m.span.len), m.span.len);
    assert [] + LexFrom(Drop(s, m.span.len), m.span.len) == LexFrom(Drop(s, m.span.len), m.span.len);
  }

  lemma SpacedNil()
    ensures Spaced("") == ""
  {
  }

  lemma EmitWhole(m: Lexeme, s: string)
    requires m.span.len <= |s|
    ensures m.kind.None? ==> Emit(m, s, 0) == []
    ensures m.kind.Some? ==> Emit(m, s, 0) == [MakeToken(m.kind.value, s[..m.span.len], 0, m.span.len)]
  {
  }

  lemma {:induction false} ClosedTrivia(m: string, b: string)
    requires |m| == 1 && IsSpace(m[0])
    ensures Closed(m + b) == Closed(b)
  {
    assert Munch(m + b) == Lexeme(None, Span(1, true));
    hide Munch;
    assert Drop(m + b, 1) == b;
  }

  // --- spans ---

  /**
   * From `at` on, `sql` is a gap that holds only blanks and comments, then the
   * first token, then again a gap, and so on to the end. A token's value is its
   * own source. Only an `E'...'` string cut off after a backslash ends past the text.
   */
  predicate Tiles(sql: string, at: nat, ts: seq<Token>)
    decreases |ts|
  {
    if ts == [] then Tokens(Drop(sql, at)) == []
    else
      var t := ts[0];
      && at <= t.start < |sql| && t.start < t.end
      && Tokens(sql[at..t.start]) == []
      && t == MakeToken(t.kind, Slice(sql, t.start, t.end), t.start, t.end)
      && (t.end <= |sql| || (t.end == |sql| + 1 && EndsInBackslashOfEString(sql, t)))
      && Tiles(sql, t.end, ts[1..])
  }

  predicate EndsInBackslashOfEString(sql: string, t: Token) {
    t.kind == Str && t.start < |sql| && StartsEscape(sql[t.start..]) && sql[|sql| - 1] == '\\'
  }

  lemma {:induction false} OvershootIsBackslash(s: string)
    requires EscapeSpan(s).len == |s| + 1
    ensures s != "" && s[|s| - 1] == '\\'
    decreases |s|
  {
    if s[0] == '\\' {
      if |s| > 1 {
        OvershootIsBackslash(s[2..]);
      }
    } else if s[0] == '\'' {
      OvershootIsBackslash(s[2..]);
    } else {
      OvershootIsBackslash(s[1..]);
    }
  }

  lemma MunchOvershoot(s: string)
    requires s != "" && Munch(s).span.len == |s| + 1
    ensures Munch(s).kind == Some(Str) && StartsEscape(s) && s[|s| - 1] == '\\'
  {
    if StartsEscape(s) {
      MunchEscape(s);
      OvershootIsBackslash(s[2..]);
    }
  }

  /** Spans are in order, disjoint, and cover everything but blanks and comments. */
  lemma {:induction false} SpansTile(sql: string, at: nat)
    ensures Tiles(sql, at, LexFrom(Drop(sql, at), at))
    decreases |sql| - at
  {
    hide LexFrom, Munch, Tiles, Emit;
    var s := Drop(sql, at);
    if s == "" {
      LexNil(at);
      TilesEnd(sql, at);
    } else {
      var m := Munch(s);
      LexHead(s, at);
      assert Drop(s, m.span.len) == Drop(sql, at + m.span.len);
      SpansTile(sql, at + m.span.len);
      if m.kind.Some? {
        TilesToken(sql, at);
      } else {
        TilesTrivia(sql, at, LexFrom(Drop(s, m.span.len), at + m.span.len));
      }
    }
  }

  lemma TilesEnd(sql: string, at: nat)
    requires at >= |sql|
    ensures Tiles(sql, at, [])
  {
  }

  lemma TilesToken(sql: string, at: nat)
    requires at < |sql|
    requires var m := Munch(sql[at..]);
      m.kind.Some? && Tiles(sql, at + m.span.len, LexFrom(Drop(sql, at + m.span.len), at + m.span.len))
    ensures var m := Munch(sql[at..]);
      Tiles(sql, at, Emit(m, sql[at..], at) + LexFrom(Drop(sql, at + m.span.len), at + m.span.len))
  {
    hide LexFrom, Munch, Tiles, MakeToken;
    var m := Munch(sql[at..]);
    var end := at + m.span.len;
    var t := MakeToken(m.kind.value, Slice(sql, at, end), at, end);
    LexNil(0);
    TokenShape(m.kind.value, Slice(sql, at, end), at, end);
    if end > |sql| {
      MunchOvershoot(sql[at..]);
    }
    EmitSlice(m, sql, at);
    TilesCons(sql, at, t, LexFrom(Drop(sql, end), end));
  }

  lemma TokenShape(kind: TokenKind, text: string, start: nat, end: nat)
    ensures var t := MakeToken(kind, text, start, end); t.kind == kind && t.start == start && t.end == end
  {
    hide Upper;
  }

  lemma EmitSlice(m: Lexeme, sql: string, at: nat)
    requires at < |sql| && m.kind.Some?
    ensures Emit(m, sql[at..], at) == [MakeToken(m.kind.value, Slice(sql, at, at + m.span.len), at, at + m.span.len)]
  {
    hide MakeToken;
    assert Take(sql[at..], m.span.len) == Slice(sql, at, at + m.span.len);
  }

  lemma TilesCons(sql: string, at: nat, t: Token, ts: seq<Token>)
    requires at == t.start < |sql| && t.start < t.end && Tokens("") == []
    requires t == MakeToken(t.kind, Slice(sql, t.start, t.end), t.start, t.end)
    requires t.end <= |sql| || (t.end == |sql| + 1 && EndsInBackslashOfEString(sql, t))
    requires Tiles(sql, t.end, ts)
    ensures Tiles(sql, at, [t] + ts)
  {
    hide LexFrom, MakeToken;
    assert sql[at..at] == "";
    assert ([t] + ts)[1..] == ts;
  }

  lemma TilesTrivia(sql: string, at: nat, ts: seq<Token>)
    requires at < |sql|
    requires Munch(sql[at..]).kind.None? && Tiles(sql, at + Munch(sql[at..]).span.len, ts)
    ensures Tiles(sql, at, Emit(Munch(sql[at..]), sql[at..], at) + ts)
  {
    hide LexFrom, Munch, Tokens, MakeToken;
    var s := sql[at..];
    var n := Munch(s).span.len;
    assert Emit(Munch(s), s, at) + ts == ts;
    if ts == [] {
      if n > |s| {
        MunchOvershoot(s);
      }
      assert s[..|s|] == s;
      assert Drop(sql, at + n) == Drop(s, n);
      TriviaThenNothing(s, |s|);
    } else {
      var j := ts[0].start - at;
      assert sql[at..ts[0].start] == s[..j];
      assert Drop(s[..j], n) == sql[at + n..ts[0].start];
      TriviaThenNothing(s, j);
    }
  }

  lemma TriviaThenNothing(s: string, j: nat)
    requires s != "" && Munch(s).kind.None? && j <= |s|
    requires Munch(s).span.len <= j && Tokens(Drop(s[..j], Munch(s).span.len)) == []
    ensures Tokens(s[..j]) == []
  {
    hide LexFrom, Munch;
    var n := Munch(s).span.len;
    MunchCut(s, j);
    LexHead(s[..j], 0);
    LexShift(Drop(s[..j], n), 0, n);
    EmitNone(Munch(s[..j]), s[..j]);
  }

  lemma EmitNone(m: Lexeme, s: string)
    requires m.kind.None?
    ensures Emit(m, s, 0) == []
  {
  }

  /** In particular the spans are pairwise disjoint and increasing. */
  lemma {:induction false} SpansOrdered(sql: string, at: nat, ts: seq<Token>, j: nat, k: nat)
    requires Tiles(sql, at, ts) && j < k < |ts|
    ensures at <= ts[j].start < ts[j].end <= ts[k].start < |sql|
    decreases |ts|
  {
    hide Tokens, MakeToken;
    if j == 0 {
      if k > 1 {
        SpansOrdered(sql, ts[0].end, ts[1..], 0, k - 1);
      }
    } else {
      SpansOrdered(sql, ts[0].end, ts[1..], j - 1, k - 1);
    }
  }
}
