/** The statement splitter of packages/sql-guard/src/lex.ts. */
module SqlSplit {
  import opened Text
  import opened SqlLexer
  import opened SqlLexing

  /** `sql` is the verbatim source, trimmed. */
  datatype Statement = Statement(sql: string, tokens: seq<Token>, start: nat, end: nat)

  predicate IsPunct(t: Token, value: string) {
    t.kind == Punct && t.value == value
  }

  function Cut(sql: string, lo: nat, hi: nat): string {
    if lo <= hi && lo <= |sql| then Take(sql[lo..], hi - lo) else ""
  }

  /** The statement made of `toks`, unless there is none. */
  function Pushed(sql: string, toks: seq<Token>, end: nat): seq<Statement> {
    if toks == [] then []
    else
      var text := Trim(Cut(sql, toks[0].start, end));
      if text == "" then [] else [Statement(text, toks, toks[0].start, end)]
  }

  // --- specification: a fold over the tokens ---

  /** Statements complete so far, parenthesis depth, and tokens since the last cut. */
  datatype Progress = Progress(out: seq<Statement>, depth: nat, pending: seq<Token>)

  function Advance(sql: string, p: Progress, t: Token): Progress {
    if IsPunct(t, "(") then Progress(p.out, p.depth + 1, p.pending + [t])
    else if IsPunct(t, ")") then Progress(p.out, if p.depth > 0 then p.depth - 1 else 0, p.pending + [t])
    else if IsPunct(t, ";") && p.depth == 0 then Progress(p.out + Pushed(sql, p.pending, t.start), 0, [])
    else Progress(p.out, p.depth, p.pending + [t])
  }

  function Run(sql: string, toks: seq<Token>, p: Progress): Progress {
    if toks == [] then p
    else Advance(sql, Run(sql, toks[..|toks| - 1], p), toks[|toks| - 1])
  }

  const START := Progress([], 0, [])

  function Finished(sql: string, p: Progress): seq<Statement> {
    p.out + Pushed(sql, p.pending, |sql|)
  }

  function Statements(sql: string): seq<Statement> {
    Finished(sql, Run(sql, Tokens(sql), START))
  }

  /** The parenthesis depth at the end of `sql`, as the splitter counts it. */
  function FinalDepth(sql: string): nat {
    Run(sql, Tokens(sql), START).depth
  }

  method Split(sql: string) returns (out: seq<Statement>)
    ensures out == Statements(sql)
  {
    hide Tokens, Pushed, Run;
    var tokens := Lex(sql);
    out := [];
    var depth: nat, from := 0, 0;
    RunNil(sql, START);
    for k := 0 to |tokens|
      invariant from <= k
      invariant Progress(out, depth, tokens[from..k]) == Run(sql, tokens[..k], START)
    {
      var t := tokens[k];
      RunSnoc(sql, tokens, k, START);
      assert tokens[from..k + 1] == tokens[from..k] + [t];
      if IsPunct(t, "(") {
        depth := depth + 1;
      } else if IsPunct(t, ")") {
        depth := if depth > 0 then depth - 1 else 0;
      } else if IsPunct(t, ";") && depth == 0 {
        out := out + Pushed(sql, tokens[from..k], t.start);
        from := k + 1;
      }
    }
    assert tokens[..|tokens|] == tokens && tokens[from..|tokens|] == tokens[from..];
    if from < |tokens| {
      out := out + Pushed(sql, tokens[from..], |sql|);
    } else {
      assert Pushed(sql, [], |sql|) == [] by { PushedNone(sql, |sql|); }
    }
  }

  lemma RunNil(sql: string, p: Progress)
    ensures Run(sql, [], p) == p
  {
  }

  lemma RunSnoc(sql: string, toks: seq<Token>, k: nat, p: Progress)
    requires k < |toks|
    ensures Run(sql, toks[..k + 1], p) == Advance(sql, Run(sql, toks[..k], p), toks[k])
  {
    hide Advance;
    assert toks[..k + 1][..k] == toks[..k];
  }

  lemma PushedNone(sql: string, end: nat)
    ensures Pushed(sql, [], end) == []
  {
  }

  // --- the splitter distributes over a top-level semicolon ---

  lemma {:induction false} RunAppend(sql: string, x: seq<Token>, y: seq<Token>, p: Progress)
    ensures Run(sql, x + y, p) == Run(sql, y, Run(sql, x, p))
  {
    hide Advance;
    if y == [] {
      assert x + y == x;
    } else {
      assert (x + y)[..|x + y| - 1] == x + y[..|y| - 1];
      RunAppend(sql, x, y[..|y| - 1], p);
    }
  }

  /** A run over tokens that start inside `a` reads nothing past `a`. */
  lemma {:induction false} RunInside(a: string, b: string, toks: seq<Token>, p: Progress)
    requires forall t | t in toks :: t.start <= |a|
    ensures Run(a + b, toks, p) == Run(a, toks, p)
  {
    if toks != [] {
      var front, last := toks[..|toks| - 1], toks[|toks| - 1];
      RunInside(a, b, front, p);
      PushedInside(a, b, Run(a, front, p).pending, last.start);
    }
  }

  lemma PushedInside(a: string, b: string, toks: seq<Token>, end: nat)
    requires end <= |a|
    ensures Pushed(a + b, toks, end) == Pushed(a, toks, end)
  {
    hide Trim;
    if toks != [] && toks[0].start <= end {
      assert (a + b)[toks[0].start..][..end - toks[0].start] == a[toks[0].start..][..end - toks[0].start];
    }
  }

  /** A statement that stands `d` characters further right. */
  function MovedStatement(s: Statement, d: nat): Statement {
    Statement(s.sql, Shift(s.tokens, d), s.start + d, s.end + d)
  }

  function MovedStatements(ss: seq<Statement>, d: nat): (r: seq<Statement>)
    ensures |r| == |ss|
  {
    seq(|ss|, i requires 0 <= i < |ss| => MovedStatement(ss[i], d))
  }

  lemma PushedMoved(a: string, b: string, toks: seq<Token>, end: nat)
    ensures Pushed(a + b, Shift(toks, |a|), end + |a|) == MovedStatements(Pushed(b, toks, end), |a|)
  {
    hide Trim;
    if toks != [] {
      var lo := toks[0].start;
      assert Cut(a + b, lo + |a|, end + |a|) == Cut(b, lo, end) by {
        if lo <= end && lo <= |b| {
          assert (a + b)[lo + |a|..] == b[lo..];
        }
      }
    }
  }

  function MovedProgress(out: seq<Statement>, p: Progress, d: nat): Progress {
    Progress(out + MovedStatements(p.out, d), p.depth, Shift(p.pending, d))
  }

  lemma {:induction false} RunMoved(a: string, b: string, toks: seq<Token>, out: seq<Statement>)
    ensures Run(a + b, Shift(toks, |a|), Progress(out, 0, []))
         == MovedProgress(out, Run(b, toks, START), |a|)
  {
    hide Pushed, MovedStatement;
    var p := Progress(out, 0, []);
    if toks == [] {
      assert Shift(toks, |a|) == [];
      assert out + MovedStatements([], |a|) == out;
    } else {
      var n := |toks| - 1;
      var front, last, r := toks[..n], toks[n], Run(b, toks[..n], START);
      RunMoved(a, b, front, out);
      assert Shift(toks, |a|)[..n] == Shift(front, |a|);
      assert Shift(r.pending + [last], |a|) == Shift(r.pending, |a|) + [Moved(last, |a|)];
      if IsPunct(last, ";") && r.depth == 0 {
        PushedMoved(a, b, r.pending, last.start);
        MovedAppend(r.out, Pushed(b, r.pending, last.start), |a|);
        Associative(out, MovedStatements(r.out, |a|), MovedStatements(Pushed(b, r.pending, last.start), |a|));
      }
    }
  }

  lemma MovedAppend(x: seq<Statement>, y: seq<Statement>, d: nat)
    ensures MovedStatements(x + y, d) == MovedStatements(x, d) + MovedStatements(y, d)
  {
  }

  lemma TilesStartInside(sql: string, at: nat, ts: seq<Token>)
    requires Tiles(sql, at, ts)
    ensures forall t | t in ts :: t.start < |sql|
    decreases |ts|
  {
    hide Tokens, MakeToken;
    if ts != [] {
      TilesStartInside(sql, ts[0].end, ts[1..]);
    }
  }

  lemma TokensStartInside(sql: string)
    ensures forall t | t in Tokens(sql) :: t.start < |sql|
  {
    hide Tiles, LexFrom;
    SpansTile(sql, 0);
    TilesStartInside(sql, 0, Tokens(sql));
  }

  lemma SemicolonToken(b: string, at: nat)
    ensures LexFrom(";" + b, at) == [Token(Punct, ";", at, at + 1)] + LexFrom(b, at + 1)
    ensures Closed(";" + b) == Closed(b)
  {
    var s := ";" + b;
    assert Munch(s) == Lexeme(Some(Punct), Span(1, true));
    hide Munch;
    assert Drop(s, 1) == b && Take(s, 1) == ";";
  }

  lemma TokensAroundSemicolon(a: string, b: string)
    requires Closed(a)
    ensures Tokens(a + (";" + b)) == Tokens(a) + ([Token(Punct, ";", |a|, |a| + 1)] + Shift(Tokens(b), |a| + 1))
  {
    hide *;
    ComposeSemicolon(a, b);
    AfterSemicolon(b, |a|);
  }

  lemma AfterSemicolon(b: string, at: nat)
    ensures LexFrom(";" + b, at) == [Token(Punct, ";", at, at + 1)] + Shift(Tokens(b), at + 1)
  {
    hide *;
    SemicolonToken(b, at);
    LexShift(b, 0, at + 1);
    TokensAre(b);
  }

  lemma ComposeSemicolon(a: string, b: string)
    requires Closed(a)
    ensures Tokens(a + (";" + b)) == Tokens(a) + LexFrom(";" + b, |a|)
  {
    hide *;
    var rest := ";" + b;
    BreaksSeam(a, rest);
    Compose(a, rest, 0);
    TokensAre(a);
    TokensAre(a + rest);
  }

  /**
   * When `a` ends outside quotes, comments and parentheses, the statements of
   * `a;b` are those of `a` and then those of `b`, moved.
   */
  lemma SplitDistributes(a: string, b: string)
    requires Closed(a) && FinalDepth(a) == 0
    ensures Statements(a + ";" + b) == Statements(a) + MovedStatements(Statements(b), |a| + 1)
  {
    hide *;
    var s, head := a + (";" + b), a + ";";
    assert s == head + b;
    var semi, moved := [Token(Punct, ";", |a|, |a| + 1)], Shift(Tokens(b), |a| + 1);
    TokensAroundSemicolon(a, b);
    RunAppend(s, Tokens(a), semi + moved, START);
    RunAppend(s, semi, moved, Run(s, Tokens(a), START));
    AcrossSemicolon(a, b);
    FinishMoved(head, b, Statements(a));
    StatementsAre(s, Run(s, moved, Progress(Statements(a), 0, [])));
  }

  lemma StatementsAre(s: string, p: Progress)
    requires Run(s, Tokens(s), START) == p
    ensures Statements(s) == Finished(s, p)
  {
    hide Tokens, Run, Finished;
  }

  lemma FinishMoved(a: string, b: string, out: seq<Statement>)
    ensures Finished(a + b, Run(a + b, Shift(Tokens(b), |a|), Progress(out, 0, [])))
         == out + MovedStatements(Statements(b), |a|)
  {
    hide *;
    var r := Run(b, Tokens(b), START);
    RunMoved(a, b, Tokens(b), out);
    FinishedMoved(a, b, out, r);
    StatementsAre(b, r);
  }

  lemma FinishedMoved(a: string, b: string, out: seq<Statement>, r: Progress)
    ensures Finished(a + b, MovedProgress(out, r, |a|)) == out + MovedStatements(Finished(b, r), |a|)
  {
    hide Pushed, Shift, MovedStatements;
    PushedMoved(a, b, r.pending, |b|);
    MovedAppend(r.out, Pushed(b, r.pending, |b|), |a|);
    Associative(out, MovedStatements(r.out, |a|), MovedStatements(Pushed(b, r.pending, |b|), |a|));
  }

  lemma AcrossSemicolon(a: string, b: string)
    requires FinalDepth(a) == 0
    ensures Run(a + (";" + b), [Token(Punct, ";", |a|, |a| + 1)], Run(a + (";" + b), Tokens(a), START))
         == Progress(Statements(a), 0, [])
  {
    hide Tokens, Pushed;
    TokensStartInside(a);
    RunInside(a, ";" + b, Tokens(a), START);
    PushedInside(a, ";" + b, Run(a, Tokens(a), START).pending, |a|);
  }
}
