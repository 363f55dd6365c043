/** Gaps between tokens: when blanks and comments there leave the tokens alone, and what happens when they do not. */
module SqlGaps {
  import opened Text
  import opened SqlLexer
  import opened SqlLexing

  /** Text that only holds blanks and comments, all of them ended. */
  predicate IsGap(m: string) {
    Closed(m) && Tokens(m) == [] && m != ""
  }

  /**
   * When a gap may stand after `a`: no blank outside ASCII after a word, of which it would
   * be a character, and no line comment after a dash, with which it would start.
   */
  predicate GapFits(a: string, m: string)
    requires m != ""
  {
    && !(EndsInWord(a) && IsSpace(m[0]) && !IsAsciiSpace(m[0]))
    && !(EndsInDash(a) && m[0] == '-')
  }

  lemma GapStarts(m: string)
    requires IsGap(m)
    ensures Munch(m).kind == None && Munch(m).span.closed
    ensures IsSpace(m[0]) || StartsWith2(m, '-', '-') || StartsWith2(m, '/', '*')
  {
    LexHead(m, 0);
  }

  lemma FittingGapIsSeam(a: string, m: string)
    requires IsGap(m) && GapFits(a, m)
    ensures Seam(a, m)
  {
    hide Munch, LexFrom, LastKind, Closed;
    GapStarts(m);
  }

  /** Any lexeme but the last is the same when a gap and more come after the text. */
  lemma InnerHolds(a: string, m: string, b: string)
    requires a != "" && Munch(a).span.len < |a| && IsGap(m)
    ensures Holds(a, m + b)
  {
    hide Munch, LexFrom, Closed;
    GapStarts(m);
  }

  lemma {:induction false} UpperAppend(x: string, y: string)
    ensures Upper(x + y) == Upper(x) + Upper(y) && |Upper(y)| >= |y|
    decreases |x|, |y|
  {
    if x == "" {
      assert x + y == y;
      if y != "" {
        UpperAppend("", y[1..]);
        assert "" + y[1..] == y[1..];
      }
    } else {
      assert (x + y)[0] == x[0] && (x + y)[1..] == x[1..] + y;
      UpperAppend(x[1..], y);
      Associative(UpperChar(x[0]), Upper(x[1..]), Upper(y));
    }
  }

  lemma {:induction false} WordRunOn(s: string, t: string)
    requires WordRun(s) == |s| && t != "" && IsWordChar(t[0])
    ensures WordRun(s + t) > |s|
  {
    if s == "" {
      assert s + t == t;
    } else {
      assert (s + t)[1..] == s[1..] + t;
      WordRunOn(s[1..], t);
    }
  }

  /** A word with a word character after it is a longer word. */
  lemma WordRunsOn(a: string, t: string)
    requires a != "" && Munch(a).kind == Some(Word) && Munch(a).span.len >= |a| && t != "" && IsWordChar(t[0])
    requires t[0] != '\'' && !IsAsciiSpace(t[0])
    ensures Munch(a + t).kind == Some(Word) && Munch(a + t).span.len > |a| && Munch(a + t).span.closed
  {
    assert IsWordStart(a[0]) && !IsSpace(a[0]) && !StartsEscape(a);
    assert (a + t)[1..] == a[1..] + t;
    hide Munch;
    MunchWord(a);
    MunchWord(a + t);
    WordRunOn(a[1..], t);
  }

  lemma HeadDiffers(x: Shape, xs: seq<Shape>, y: Shape, rest: seq<Shape>)
    requires x != y
    ensures [x] + xs != [y] + rest
  {
    assert ([x] + xs)[0] == x && ([y] + rest)[0] == y;
  }

  lemma PrefixDiffers(e: seq<Shape>, x: seq<Shape>, y: seq<Shape>, rest: seq<Shape>)
    requires x != y + rest
    ensures e + x != (e + y) + rest
  {
    Associative(e, y, rest);
    assert (e + x)[|e|..] == x && (e + (y + rest))[|e|..] == y + rest;
  }

  lemma LongerWord(a: string, t: string, n: nat, at: nat)
    requires |a| < n <= |a + t|
    ensures Upper(Take(a + t, n)) != Upper(a)
  {
    var extra := t[..n - |a|];
    assert Take(a + t, n) == a + extra;
    UpperAppend(a, extra);
  }

  /** A word swallows a blank that is one of its characters: the tokens are not those of the parts. */
  lemma {:induction false} WordJoins(a: string, m: string, b: string, at: nat, rest: seq<Shape>)
    requires Closed(a) && IsGap(m) && EndsInWord(a) && IsSpace(m[0]) && !IsAsciiSpace(m[0])
    ensures Shapes(LexFrom(a + (m + b), at)) != Shapes(LexFrom(a, at)) + rest
    decreases |a|
  {
    hide LexFrom, Munch, Emit, Shapes, Upper, IsSpace, IsAsciiSpace;
    var t, n := m + b, Munch(a).span.len;
    LexHead(a, at);
    if n >= |a| {
      LastIsWord(a);
      NonAsciiIsWordChar(m[0]);
      WordRunsOn(a, t);
      LexHead(a + t, at);
      LexNil(at + n);
      assert Drop(a, n) == "";
      var k := Munch(a + t).span.len;
      WordShape(a, at, n);
      WordShape(a + t, at, k);
      LongerWord(a, t, k, at);
      assert Emit(Munch(a), a, at) + [] == Emit(Munch(a), a, at);
      ShapesAppend(Emit(Munch(a + t), a + t, at), LexFrom(Drop(a + t, k), at + k));
      HeadDiffers(Shape(Word, Upper(Take(a + t, k))), Shapes(LexFrom(Drop(a + t, k), at + k)), Shape(Word, Upper(a)), rest);
    } else {
      InnerHolds(a, m, b);
      MunchHolds(a, t);
      StepOver(a, t, at);
      LastKindDrop(a);
      WordJoins(Drop(a, n), m, b, at + n, rest);
      ShapesAppend(Emit(Munch(a), a, at), LexFrom(Drop(a, n) + t, at + n));
      ShapesAppend(Emit(Munch(a), a, at), LexFrom(Drop(a, n), at + n));
      PrefixDiffers(Shapes(Emit(Munch(a), a, at)), Shapes(LexFrom(Drop(a, n) + t, at + n)),
                    Shapes(LexFrom(Drop(a, n), at + n)), rest);
    }
  }

  lemma LastIsWord(a: string)
    requires a != "" && Closed(a) && EndsInWord(a) && Munch(a).span.len >= |a|
    ensures Munch(a).kind == Some(Word) && Take(a, Munch(a).span.len) == a
  {
    hide Munch;
    assert a[..|a|] == a;
  }

  lemma LastKindDrop(a: string)
    requires a != "" && Munch(a).span.len < |a|
    ensures LastKind(Drop(a, Munch(a).span.len)) == LastKind(a)
    ensures EndsInDash(Drop(a, Munch(a).span.len)) == EndsInDash(a)
  {
    hide Munch;
  }

  lemma NonAsciiIsWordChar(c: char)
    requires IsSpace(c) && !IsAsciiSpace(c)
    ensures IsWordChar(c) && c != '\''
  {
  }

  lemma WordShape(s: string, at: nat, n: nat)
    requires s != "" && Munch(s).kind == Some(Word) && Munch(s).span.len == n
    ensures Shapes(Emit(Munch(s), s, at)) == [Shape(Word, Upper(Take(s, n)))]
    ensures |Emit(Munch(s), s, at)| == 1
  {
    hide Munch, Upper;
  }

  // --- a lexeme that ends in a dash is the dash ---

  lemma {:induction false} QuoteEnds(s: string, q: char)
    requires QuoteSpan(s, q).closed && QuoteSpan(s, q).len == |s|
    ensures s != "" && s[|s| - 1] == q
    decreases |s|
  {
    if s[0] == q {
      if |s| >= 2 && s[1] == q {
        QuoteEnds(s[2..], q);
      }
    } else {
      QuoteEnds(s[1..], q);
    }
  }

  lemma {:induction false} EscapeEnds(s: string)
    requires EscapeSpan(s).closed && EscapeSpan(s).len == |s|
    ensures s != "" && s[|s| - 1] == '\''
    decreases |s|
  {
    if s[0] == '\\' || (s[0] == '\'' && |s| >= 2 && s[1] == '\'') {
      EscapeEnds(s[2..]);
    } else if s[0] != '\'' {
      EscapeEnds(s[1..]);
    }
  }

  lemma {:induction false} BlockEnds(s: string, depth: nat)
    requires BlockSpan(s, depth).closed && BlockSpan(s, depth).len == |s|
    ensures s != "" && s[|s| - 1] == '/'
    decreases |s|
  {
    if StartsWith2(s, '/', '*') {
      BlockEnds(s[2..], depth + 1);
    } else if StartsWith2(s, '*', '/') {
      if depth > 1 {
        BlockEnds(s[2..], depth - 1);
      }
    } else {
      BlockEnds(s[1..], depth);
    }
  }

  lemma {:induction false} LineNeverEnds(s: string)
    ensures LineSpan(s).closed ==> LineSpan(s).len < |s|
  {
    if s != "" {
      LineNeverEnds(s[1..]);
    }
  }

  lemma {:induction false} RunsHaveNoDash(s: string)
    ensures WordRun(s) == |s| ==> '-' !in s
    ensures NumberRun(s) == |s| ==> '-' !in s
  {
    if s != "" {
      RunsHaveNoDash(s[1..]);
    }
  }

  lemma DollarEnds(s: string)
    requires s != "" && TagLength(s) > 0 && DollarSpan(s).closed && DollarSpan(s).len == |s|
    ensures s[|s| - 1] == '$'
  {
    var k := TagLength(s);
    var tag, rest := s[..k], s[k..];
    IndexOfFirst(rest, tag);
    var i := IndexOf(rest, tag).value;
    assert rest[i..][..k] == tag && rest[i..][k - 1] == rest[i + k - 1] == s[|s| - 1];
    assert tag[k - 1] == '$';
  }

  /** What a lexeme of two or more characters can be. */
  lemma LongLexeme(a: string)
    requires |a| > 1 && Munch(a).span.closed && Munch(a).span.len == |a| && Munch(a).kind != None
    ensures
      || (TagLength(a) > 0 && Munch(a) == Lexeme(Some(Str), DollarSpan(a)))
      || StartsEscape(a) || a[0] == '"' || a[0] == '\''
      || IsDigit(a[0]) || (IsWordStart(a[0]) && !IsSpace(a[0]) && !StartsEscape(a))
  {
  }

  lemma LongLexemeEnds(a: string)
    requires |a| > 1 && Munch(a).span.closed && Munch(a).span.len == |a| && Munch(a).kind != None
    ensures !EndsInDash(a)
  {
    hide Munch, TagLength, DollarSpan, WordRun, NumberRun;
    LongLexeme(a);
    var rest := a[1..];
    assert a[|a| - 1] == rest[|rest| - 1] && rest[|rest| - 1] in rest;
    if TagLength(a) > 0 && Munch(a) == Lexeme(Some(Str), DollarSpan(a)) {
      DollarEnds(a);
    } else if StartsEscape(a) {
      MunchEscape(a);
      EscapeEnds(a[2..]);
    } else if a[0] == '"' || a[0] == '\'' {
      MunchQuoted(a);
      QuoteEnds(rest, a[0]);
    } else {
      RunsHaveNoDash(rest);
      if IsDigit(a[0]) {
        MunchNumber(a);
      } else {
        MunchWord(a);
      }
    }
  }

  lemma DashIsALexeme(a: string)
    requires a != "" && Munch(a).span.closed && Munch(a).span.len == |a| && EndsInDash(a)
    ensures a == "-" && Munch(a) == Lexeme(Some(Punct), Span(1, true))
  {
    if |a| > 1 {
      hide Munch;
      if Munch(a).kind == None {
        TriviaEnds(a);
      } else {
        LongLexemeEnds(a);
      }
    }
  }

  lemma TriviaEnds(a: string)
    requires |a| > 1 && Munch(a).span.closed && Munch(a).span.len == |a| && Munch(a).kind == None
    ensures a[|a| - 1] == '/'
  {
    LineNeverEnds(a[2..]);
    if StartsWith2(a, '/', '*') {
      BlockEnds(a[2..], 1);
    }
  }

  // --- a line comment takes a dash before it along ---

  lemma DashStartsComment(m: string, b: string)
    requires StartsWith2(m, '-', '-') && Munch(m).span.closed
    ensures Munch("-" + (m + b)).kind == None && Munch("-" + (m + b)).span == Extend(1, Munch(m + b).span)
    ensures Munch(m + b).kind == None
  {
    var t := m + b;
    assert ("-" + t)[2..] == t[1..] && t[1..][1..] == t[2..];
  }

  lemma OneDash(t: string, at: nat)
    requires t != "" && Munch(t).kind == None
    requires Munch("-" + t).kind == None && Munch("-" + t).span == Extend(1, Munch(t).span)
    ensures LexFrom("-" + t, at) == LexFrom(t, at + 1)
  {
    hide LexFrom, Munch;
    LexHead("-" + t, at);
    LexHead(t, at + 1);
    assert Drop("-" + t, Munch("-" + t).span.len) == Drop(t, Munch(t).span.len);
  }

  lemma GapThen(m: string, b: string, at: nat)
    requires IsGap(m)
    ensures Shapes(LexFrom(m + b, at)) == Shapes(Tokens(b))
  {
    hide LexFrom, Munch, Closed, Shapes;
    LexShift(m, 0, at);
    ComposeTrivia(m, b, at);
    ShapesAnywhere(b, at + |m|);
  }

  const DASH := Shape(Punct, "-")

  lemma LoneDashIsLost(m: string, b: string, at: nat)
    requires IsGap(m) && m[0] == '-'
    ensures Shapes(LexFrom("-" + (m + b), at)) == Shapes(Tokens(b)) && Shapes(LexFrom("-", at)) == [DASH]
  {
    hide LexFrom, Munch, Emit, Tokens, Closed, Shapes;
    GapStarts(m);
    DashOnly(m);
    DashStartsComment(m, b);
    OneDash(m + b, at);
    GapThen(m, b, at + 1);
    DashToken(at);
  }

  lemma DashToken(at: nat)
    ensures Shapes(LexFrom("-", at)) == [DASH]
  {
    assert Munch("-") == Lexeme(Some(Punct), Span(1, true));
    hide LexFrom, Munch;
    LexHead("-", at);
    LexNil(at + 1);
    assert Drop("-", 1) == "" && Take("-", 1) == "-";
  }

  lemma FrontAppend(x: seq<Shape>, y: seq<Shape>, z: seq<Shape>)
    requires y != []
    ensures (x + y)[|x + y| - 1] == y[|y| - 1]
    ensures (x + y)[..|x + y| - 1] + z == x + (y[..|y| - 1] + z)
  {
    assert (x + y)[..|x + y| - 1] == x + y[..|y| - 1];
  }

  /** The dash is lost: what is read is what comes before it and what comes after the comment. */
  lemma {:induction false} DashIsLost(a: string, m: string, b: string, at: nat)
    requires Closed(a) && IsGap(m) && EndsInDash(a) && m[0] == '-'
    ensures var ts := Shapes(LexFrom(a, at));
            && ts != [] && ts[|ts| - 1] == DASH
            && Shapes(LexFrom(a + (m + b), at)) == ts[..|ts| - 1] + Shapes(Tokens(b))
    decreases |a|
  {
    hide LexFrom, Munch, Emit, Tokens, IsGap, Shapes;
    if Munch(a).span.len >= |a| {
      DashIsALexeme(a);
      LoneDashIsLost(m, b, at);
      assert [DASH][..0] + Shapes(Tokens(b)) == Shapes(Tokens(b));
    } else {
      var t, n := m + b, Munch(a).span.len;
      LexHead(a, at);
      InnerHolds(a, m, b);
      MunchHolds(a, t);
      StepOver(a, t, at);
      LastKindDrop(a);
      DashIsLost(Drop(a, n), m, b, at + n);
      ShapesAppend(Emit(Munch(a), a, at), LexFrom(Drop(a, n), at + n));
      ShapesAppend(Emit(Munch(a), a, at), LexFrom(Drop(a, n) + t, at + n));
      FrontAppend(Shapes(Emit(Munch(a), a, at)), Shapes(LexFrom(Drop(a, n), at + n)), Shapes(Tokens(b)));
    }
  }

  lemma DashOnly(m: string)
    requires m != "" && m[0] == '-' && (IsSpace(m[0]) || StartsWith2(m, '-', '-') || StartsWith2(m, '/', '*'))
    ensures StartsWith2(m, '-', '-')
  {
  }

  // --- the exact condition ---

  lemma FittingGap(a: string, m: string, b: string)
    requires Closed(a) && IsGap(m) && GapFits(a, m)
    ensures Shapes(Tokens(a + m + b)) == Shapes(Tokens(a)) + Shapes(Tokens(b))
  {
    hide Closed, Tokens, LastKind, Shapes;
    FittingGapIsSeam(a, m);
    Separated(a, m, b);
  }

  /**
   * Between two texts, a run of blanks and comments leaves the kinds and values of the tokens
   * on both sides as they are exactly when it fits: it is no blank outside ASCII after a word
   * and no line comment after a dash.
   */
  lemma GapsKeepTokensIff(a: string, m: string, b: string)
    requires Closed(a) && IsGap(m)
    ensures Shapes(Tokens(a + m + b)) == Shapes(Tokens(a)) + Shapes(Tokens(b)) <==> GapFits(a, m)
  {
    hide Closed, LexFrom, LastKind, IsGap;
    GapNotEmpty(m);
    assert a + m + b == a + (m + b);
    if GapFits(a, m) {
      FittingGap(a, m, b);
    } else if EndsInDash(a) && m[0] == '-' {
      DashIsLost(a, m, b, 0);
    } else {
      WordJoins(a, m, b, 0, Shapes(Tokens(b)));
    }
  }

  lemma GapNotEmpty(m: string)
    requires IsGap(m)
    ensures m != ""
  {
  }

  /** A fitting gap reads as one space. */
  lemma GapsReadAsOneSpace(a: string, m: string, b: string)
    requires Closed(a) && IsGap(m) && GapFits(a, m)
    ensures Shapes(Tokens(a + m + b)) == Shapes(Tokens(a + " " + b))
  {
    hide Closed, Tokens, LastKind, Shapes;
    BlankIsTrivia(" ");
    FittingGap(a, m, b);
    FittingGap(a, " ", b);
  }

  /** A no-break space between two words joins them. */
  lemma NoBreakSpaceJoinsWords()
    ensures IsGap("\U{00A0}") && EndsInWord("a")
    ensures Shapes(Tokens("a" + "\U{00A0}" + "b")) != Shapes(Tokens("a")) + Shapes(Tokens("b"))
  {
    hide LexFrom, Upper;
    BlankIsTrivia("\U{00A0}");
    OneWord("a", 0);
    assert Munch("a") == Lexeme(Some(Word), Span(1, true));
    hide Munch;
    GapsKeepTokensIff("a", "\U{00A0}", "b");
  }

  /** But it separates two numbers. */
  lemma NoBreakSpaceParts()
    ensures Shapes(Tokens("1" + "\U{00A0}" + "2")) == Shapes(Tokens("1")) + Shapes(Tokens("2"))
  {
    hide LexFrom, Upper;
    BlankIsTrivia("\U{00A0}");
    assert Munch("1") == Lexeme(Some(Number), Span(1, true));
    assert Drop("1", 1) == "";
    hide Munch;
    GapsKeepTokensIff("1", "\U{00A0}", "2");
  }

  /** A line comment right after a dash: the number alone is read. */
  lemma CommentAfterDash()
    ensures IsGap("--\n") && Shapes(Tokens("-")) == [DASH]
    ensures Shapes(Tokens("-" + "--\n" + "1")) == Shapes(Tokens("1"))
  {
    hide LexFrom, Upper;
    var comment := "--\n";
    assert comment[2..] == "\n" && comment[1..] == "-\n";
    assert LineSpan("\n") == Span(0, true);
    assert Munch(comment) == Lexeme(None, Span(2, true));
    assert Munch("\n") == Lexeme(None, Span(1, true));
    assert Munch("-") == Lexeme(Some(Punct), Span(1, true));
    assert Drop(comment, 2) == "\n" && Drop("\n", 1) == "" && Drop("-", 1) == "";
    hide Munch;
    LexHead(comment, 0);
    LexHead("\n", 2);
    LexNil(3);
    LoneDashIsLost(comment, "1", 0);
    assert "-" + comment + "1" == "-" + (comment + "1");
  }
}
