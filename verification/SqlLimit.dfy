/** Appending a LIMIT: when `withLimit` does what it is for. */
module SqlLimit {
  import opened Text
  import opened SqlLexer
  import opened SqlLexing
  import opened SqlSplit
  import opened SqlGuard
  import opened SqlScripts
  import opened SqlNames
  import opened SqlDrops

  /** `sql.replace(/;\s*$/, '')`: a semicolon that only blanks follow goes, with them. */
  function WithoutSemicolon(sql: string): string {
    var t := TrimEnd(sql);
    if t != "" && t[|t| - 1] == ';' then t[..|t| - 1] else sql
  }

  function WithLimit(sql: string, limit: nat): string {
    WithoutSemicolon(sql) + (" LIMIT " + Decimal(limit))
  }

  /** A semicolon at the end goes, with the blanks after it, and the limit is written in its place. */
  lemma WithLimitStrips(base: string, blanks: string, n: nat)
    requires Blank(blanks)
    ensures WithLimit(base + (";" + blanks), n) == base + (" LIMIT " + Decimal(n))
  {
    hide Decimal, IsSpace, TrimEnd;
    assert base + (";" + blanks) == (base + ";") + blanks;
    SemicolonIsSolid(base);
    TrimEndDrops(base + ";", blanks);
    assert (base + ";")[..|base|] == base;
  }

  lemma SemicolonIsSolid(base: string)
    ensures !IsSpace((base + ";")[|base + ";"| - 1])
  {
  }

  /** Any other text is kept whole. */
  lemma WithLimitKeeps(solid: string, blanks: string, n: nat)
    requires Blank(blanks) && (solid == "" || (!IsSpace(solid[|solid| - 1]) && solid[|solid| - 1] != ';'))
    ensures WithLimit(solid + blanks, n) == solid + blanks + (" LIMIT " + Decimal(n))
  {
    hide Decimal, IsSpace, TrimEnd;
    TrimEndDrops(solid, blanks);
  }

  // --- text that cannot end a quote or a comment ---

  predicate Inert(b: string) {
    forall i | 0 <= i < |b| :: b[i] !in {'\'', '"', '\n', '*', '/', '$', '\\'}
  }

  lemma {:induction false} LineStaysOpen(s: string, b: string)
    requires !LineSpan(s).closed && Inert(b)
    ensures !LineSpan(s + b).closed
    decreases |s| + |b|
  {
    if s == "" {
      assert s + b == b;
      if b != "" {
        LineStaysOpen("", b[1..]);
        assert "" + b[1..] == b[1..];
      }
    } else {
      assert (s + b)[1..] == s[1..] + b;
      LineStaysOpen(s[1..], b);
    }
  }

  lemma {:induction false} BlockStaysOpen(s: string, b: string, depth: nat)
    requires !BlockSpan(s, depth).closed && Inert(b)
    ensures !BlockSpan(s + b, depth).closed
    decreases |s|
  {
    if s == "" {
      assert s + b == b;
      InertIsOpen(b, depth);
    } else if StartsWith2(s, '/', '*') {
      assert (s + b)[2..] == s[2..] + b;
      BlockStaysOpen(s[2..], b, depth + 1);
    } else if StartsWith2(s, '*', '/') {
      assert (s + b)[2..] == s[2..] + b;
      BlockStaysOpen(s[2..], b, depth - 1);
    } else {
      hide Inert;
      BlockMiddle(s, b);
      BlockStaysOpen(s[1..], b, depth);
    }
  }

  lemma {:induction false} InertIsOpen(b: string, depth: nat)
    requires Inert(b)
    ensures !BlockSpan(b, depth).closed
  {
    if b != "" {
      InertIsOpen(b[1..], depth);
    }
  }

  /** No comment mark straddles the place where an inert tail begins. */
  lemma BlockMiddle(s: string, b: string)
    requires s != "" && Inert(b) && !StartsWith2(s, '/', '*') && !StartsWith2(s, '*', '/')
    ensures !StartsWith2(s + b, '/', '*') && !StartsWith2(s + b, '*', '/')
    ensures s + b != "" && (s + b)[1..] == s[1..] + b
  {
    assert |s| == 1 && b != "" ==> (s + b)[1] == b[0];
  }

  lemma {:induction false} QuoteStaysOpen(s: string, b: string, q: char)
    requires !QuoteSpan(s, q).closed && Inert(b) && (q == '\'' || q == '"')
    ensures !QuoteSpan(s + b, q).closed
    decreases |s| + |b|
  {
    if s == "" {
      assert s + b == b;
      if b != "" {
        QuoteStaysOpen("", b[1..], q);
        assert "" + b[1..] == b[1..];
      }
    } else if s[0] == q {
      assert (s + b)[2..] == s[2..] + b;
      QuoteStaysOpen(s[2..], b, q);
    } else {
      assert (s + b)[1..] == s[1..] + b;
      QuoteStaysOpen(s[1..], b, q);
    }
  }

  lemma {:induction false} EscapeStaysOpen(s: string, b: string)
    requires !EscapeSpan(s).closed && Inert(b)
    ensures !EscapeSpan(s + b).closed
    decreases |s| + |b|
  {
    if s == "" {
      assert s + b == b;
      if b != "" {
        EscapeStaysOpen("", b[1..]);
        assert "" + b[1..] == b[1..];
      }
    } else if |s| == 1 && s[0] == '\\' {
      if b != "" {
        assert (s + b)[2..] == "" + b[1..];
        EscapeStaysOpen("", b[1..]);
      } else {
        assert s + b == s;
      }
    } else if s[0] == '\\' || s[0] == '\'' {
      assert (s + b)[2..] == s[2..] + b;
      EscapeStaysOpen(s[2..], b);
    } else {
      assert (s + b)[1..] == s[1..] + b;
      EscapeStaysOpen(s[1..], b);
    }
  }

  lemma InertTail(rest: string, b: string)
    requires Inert(b)
    ensures forall j | |rest| <= j < |rest + b| :: (rest + b)[j] != '$'
  {
  }

  /** Where a text that ends in `$` occurs, no inert character stands under its end. */
  lemma EndsInside(rest: string, b: string, tag: string, i: nat)
    requires Inert(b) && tag != "" && tag[|tag| - 1] == '$' && OccursAt(rest + b, tag, i)
    ensures OccursAt(rest, tag, i)
  {
    var s, end := rest + b, i + |tag|;
    assert s[i..][..|tag|] == tag && s[i..][|tag| - 1] == s[end - 1];
    InertTail(rest, b);
    assert rest[i..][..|tag|] == s[i..][..|tag|];
  }

  lemma TagEnds(s: string)
    requires TagLength(s) > 0
    ensures s[TagLength(s) - 1] == '$'
  {
  }

  lemma DollarStaysOpen(s: string, b: string)
    requires s != "" && TagLength(s) > 0 && TagLength(s + b) == TagLength(s)
    requires !DollarSpan(s).closed && Inert(b)
    ensures !DollarSpan(s + b).closed
  {
    hide Inert, OccursAt;
    var k := TagLength(s);
    var tag, rest := s[..k], s[k..];
    assert (s + b)[k..] == rest + b && (s + b)[..k] == tag;
    IndexOfFirst(rest, tag);
    IndexOfFirst(rest + b, tag);
    TagEnds(s);
    if IndexOf(rest + b, tag).Some? {
      EndsInside(rest, b, tag, IndexOf(rest + b, tag).value);
    }
  }

  /** An open first lexeme swallows an inert tail that starts with a blank. */
  lemma MunchStaysOpen(a: string, b: string)
    requires a != "" && !Munch(a).span.closed && Inert(b) && b != "" && b[0] == ' '
    ensures Munch(a + b).kind == Munch(a).kind && !Munch(a + b).span.closed
  {
    hide Inert;
    if |a| >= 2 {
      assert (a + b)[2..] == a[2..] + b;
    }
    assert (a + b)[1..] == a[1..] + b;
    TagLengthLocal(a, b);
    if StartsWith2(a, '-', '-') {
      LineStaysOpen(a[2..], b);
    } else if StartsWith2(a, '/', '*') {
      BlockStaysOpen(a[2..], b, 1);
    } else if TagLength(a) > 0 {
      DollarStaysOpen(a, b);
    } else if StartsEscape(a) {
      EscapeStaysOpen(a[2..], b);
    } else {
      QuoteStaysOpen(a[1..], b, a[0]);
    }
  }

  lemma {:induction false} OpenTextSwallows(a: string, b: string, at: nat)
    requires !Closed(a) && Inert(b) && b != "" && b[0] == ' '
    ensures |LexFrom(a + b, at)| == |LexFrom(a, at)|
    decreases |a|
  {
    hide LexFrom, Munch, Emit, Inert;
    var m := Munch(a);
    LexHead(a, at);
    if m.span.closed {
      BreaksSeam(a, b);
      MunchLocal(a, b);
      StepOver(a, b, at);
      OpenTextSwallows(Drop(a, m.span.len), b, at + m.span.len);
    } else {
      MunchStaysOpen(a, b);
      LexHead(a + b, at);
      assert Drop(a, m.span.len) == "" && Drop(a + b, Munch(a + b).span.len) == "";
      LexNil(at + m.span.len);
      LexNil(at + Munch(a + b).span.len);
      EmitCount(m, a, Munch(a + b), a + b, at);
    }
  }

  lemma EmitCount(m: Lexeme, s: string, m': Lexeme, s': string, at: nat)
    requires m.kind == m'.kind
    ensures |Emit(m, s, at)| == |Emit(m', s', at)|
  {
  }

  // --- the tokens of the appended text ---

  lemma {:induction false} DigitsRun(s: string)
    requires forall i | 0 <= i < |s| :: IsDigit(s[i])
    ensures NumberRun(s) == |s|
  {
    if s != "" {
      DigitsRun(s[1..]);
    }
  }

  lemma DigitsAreOneToken(d: string, at: nat)
    requires d != "" && forall i | 0 <= i < |d| :: IsDigit(d[i])
    ensures Closed(d) && LexFrom(d, at) == [Token(Number, d, at, at + |d|)]
  {
    hide LexFrom, Munch;
    MunchNumber(d);
    DigitsRun(d[1..]);
    LexOne(d, at);
  }

  function LimitTokens(at: nat, d: string): seq<Token> {
    [Token(Word, "LIMIT", at + 1, at + 6), Token(Number, d, at + 7, at + 7 + |d|)]
  }

  lemma LimitIsItself()
    ensures Upper("LIMIT") == "LIMIT" && IsWord("LIMIT")
  {
    assert Upper("IMIT") == "IMIT" by {
      assert Upper("MIT") == "MIT" by {
        assert Upper("IT") == "IT" by {
          assert Upper("T") == "T";
        }
      }
    }
  }

  lemma BlankThen(rest: string, at: nat)
    ensures LexFrom(" " + rest, at) == LexFrom(rest, at + 1)
    ensures Closed(" " + rest) == Closed(rest)
  {
    hide LexFrom, Munch;
    BlankIsTrivia(" ");
    LexShift(" ", 0, at);
    ComposeTrivia(" ", rest, at);
    ClosedTrivia(" ", rest);
  }

  lemma LimitTextLexes(d: string, at: nat)
    requires d != "" && forall i | 0 <= i < |d| :: IsDigit(d[i])
    ensures LexFrom(" LIMIT " + d, at) == LimitTokens(at, d)
  {
    hide LexFrom, Munch, Closed, Upper;
    LimitIsItself();
    OneWord("LIMIT", at + 1);
    DigitsAreOneToken(d, at + 7);
    BlankThen(d, at + 6);
    BreaksSeam("LIMIT", " " + d);
    Compose("LIMIT", " " + d, at + 1);
    BlankThen("LIMIT" + (" " + d), at);
    assert " LIMIT " + d == " " + ("LIMIT" + (" " + d));
  }

  lemma LimitTextIsInert(d: string)
    requires forall i | 0 <= i < |d| :: IsDigit(d[i])
    ensures Inert(" LIMIT " + d)
  {
    var s := " LIMIT " + d;
    forall i | 0 <= i < |s| ensures s[i] !in {'\'', '"', '\n', '*', '/', '$', '\\'} {
      if i >= 7 {
        assert s[i] == d[i - 7];
      }
    }
  }

  // --- the statement a text ends with ---

  lemma {:induction false} LexStartsSolid(sql: string, at: nat)
    ensures forall t | t in LexFrom(Drop(sql, at), at) :: t.start < |sql| && !IsSpace(sql[t.start])
    decreases |sql| - at
  {
    hide LexFrom, Munch, Emit, IsSpace;
    var s := Drop(sql, at);
    if s == "" {
      LexNil(at);
    } else {
      var m := Munch(s);
      LexHead(s, at);
      assert Drop(s, m.span.len) == Drop(sql, at + m.span.len);
      LexStartsSolid(sql, at + m.span.len);
      EmitStart(m, s, at);
    }
  }

  lemma EmitStart(m: Lexeme, s: string, at: nat)
    requires s != "" && m == Munch(s)
    ensures forall t | t in Emit(m, s, at) :: t.start == at && !IsSpace(s[0])
  {
    hide Upper;
  }

  lemma {:induction false} PendingAreTokens(sql: string, toks: seq<Token>)
    ensures forall t | t in Run(sql, toks, START).pending :: t in toks
  {
    hide Pushed, IsPunct;
    if toks != [] {
      PendingAreTokens(sql, toks[..|toks| - 1]);
    }
  }

  lemma PushedOne(sql: string, toks: seq<Token>)
    requires toks != [] && toks[0].start < |sql| && !IsSpace(sql[toks[0].start])
    ensures |Pushed(sql, toks, |sql|)| == 1 && Pushed(sql, toks, |sql|)[0].tokens == toks
  {
    var text := Cut(sql, toks[0].start, |sql|);
    assert text == sql[toks[0].start..];
    assert TrimStart(text) == text;
    TrimKeepsSolid(text);
  }

  lemma TrimKeepsSolid(s: string)
    requires s != "" && !IsSpace(s[0])
    ensures TrimEnd(s) != ""
  {
  }

  // --- depth of the statement in progress ---

  function BarePieces(ts: seq<Token>): (r: seq<Piece>)
    ensures |r| == |ts|
  {
    seq(|ts|, i requires 0 <= i < |ts| => Piece(ts[i].kind, ts[i].value, ""))
  }

  /** The same kinds and values. */
  predicate Alike(ps: seq<Piece>, qs: seq<Piece>) {
    |ps| == |qs| && forall i | 0 <= i < |ps| :: ps[i].kind == qs[i].kind && ps[i].value == qs[i].value
  }

  lemma {:induction false} DepthAlike(ps: seq<Piece>, qs: seq<Piece>, k: nat)
    requires k <= |ps| && k <= |qs| && Alike(ps[..k], qs[..k])
    ensures Depth(ps, 0, k) == Depth(qs, 0, k)
    decreases k
  {
    if k > 0 {
      assert ps[..k][..k - 1] == ps[..k - 1] && qs[..k][..k - 1] == qs[..k - 1];
      assert ps[..k][k - 1] == ps[k - 1] && qs[..k][k - 1] == qs[k - 1];
      DepthAlike(ps, qs, k - 1);
    }
  }

  lemma DepthPrefix(ps: seq<Piece>, p: Piece)
    ensures Depth(ps + [p], 0, |ps|) == Depth(ps, 0, |ps|)
  {
    assert (ps + [p])[..|ps|] == ps && ps[..|ps|] == ps;
    DepthAlike(ps + [p], ps, |ps|);
  }

  lemma BareSnoc(ts: seq<Token>, t: Token)
    ensures BarePieces(ts + [t]) == BarePieces(ts) + [Piece(t.kind, t.value, "")]
  {
  }

  lemma DepthSnoc(ps: seq<Piece>, p: Piece)
    ensures var d := Depth(ps, 0, |ps|);
            Depth(ps + [p], 0, |ps| + 1)
              == if IsMark(p, "(") then d + 1 else if IsMark(p, ")") then (if d > 0 then d - 1 else 0) else d
  {
    DepthPrefix(ps, p);
  }

  /** The splitter's depth is the guard's depth of the statement in progress. */
  lemma {:induction false} RunDepth(sql: string, toks: seq<Token>)
    ensures var r := Run(sql, toks, START); r.depth == Depth(BarePieces(r.pending), 0, |r.pending|)
  {
    hide Pushed, Depth, BarePieces;
    if toks != [] {
      var front, t := toks[..|toks| - 1], toks[|toks| - 1];
      RunDepth(sql, front);
      var pending := Run(sql, front, START).pending;
      BareSnoc(pending, t);
      DepthSnoc(BarePieces(pending), Piece(t.kind, t.value, ""));
    }
    NoDepth();
  }

  lemma NoDepth()
    ensures Depth(BarePieces([]), 0, 0) == 0
  {
  }

  // --- the rewritten script ---

  function Base(sql: string): string {
    WithoutSemicolon(sql)
  }

  /** The last token is a semicolon that the rewrite does not strip. */
  predicate EndsInSemicolon(s: string) {
    var ts := Tokens(s);
    ts != [] && IsPunct(ts[|ts| - 1], ";")
  }

  lemma RewrittenTokens(base: string, d: string)
    requires Closed(base) && d != "" && forall i | 0 <= i < |d| :: IsDigit(d[i])
    ensures Tokens(base + (" LIMIT " + d)) == Tokens(base) + LimitTokens(|base|, d)
  {
    hide *;
    LimitTextLexes(d, |base|);
    ComposeLimit(base, d);
  }

  lemma ComposeLimit(base: string, d: string)
    requires Closed(base)
    ensures Tokens(base + (" LIMIT " + d)) == Tokens(base) + LexFrom(" LIMIT " + d, |base|)
  {
    hide LexFrom, Munch, Closed, Tokens, EndsInNumber, Breaks, Seam;
    var b := " LIMIT " + d;
    assert b[0] == ' ';
    BreaksSeam(base, b);
    Compose(base, b, 0);
    TokensAre(base);
    TokensAre(base + b);
  }

  lemma RunLimitTokens(sql: string, p: Progress, at: nat, d: string)
    ensures Run(sql, LimitTokens(at, d), p) == Progress(p.out, p.depth, p.pending + LimitTokens(at, d))
  {
    hide Pushed, Run, IsPunct;
    var ts := LimitTokens(at, d);
    RunSnoc(sql, ts, 0, p);
    RunSnoc(sql, ts, 1, p);
    RunNil(sql, p);
    assert ts[..0] == [] && ts[..1] == [ts[0]] && ts[..2] == ts;
    NotMarks(ts[0]);
    NotMarks(ts[1]);
    assert (p.pending + [ts[0]]) + [ts[1]] == p.pending + ts;
  }

  lemma NotMarks(t: Token)
    requires t.kind != Punct
    ensures !IsPunct(t, "(") && !IsPunct(t, ")") && !IsPunct(t, ";")
  {
  }

  /** Past a clean end, the rewrite extends the statement in progress. */
  lemma RewrittenStatements(base: string, d: string)
    requires Closed(base) && d != "" && forall i | 0 <= i < |d| :: IsDigit(d[i])
    ensures var w, p := base + (" LIMIT " + d), Run(base, Tokens(base), START);
            && |Statements(w)| == |p.out| + 1
            && Statements(w)[|p.out|].tokens == p.pending + LimitTokens(|base|, d)
  {
    hide Tokens, Pushed, Run, Closed, LimitTokens, IsSpace;
    var b := " LIMIT " + d;
    var w, p := base + b, Run(base, Tokens(base), START);
    RewrittenTokens(base, d);
    TokensStartInside(base);
    RunAppend(w, Tokens(base), LimitTokens(|base|, d), START);
    RunInside(base, b, Tokens(base), START);
    RunLimitTokens(w, p, |base|, d);
    PendingStartsSolid(base, d);
    PushedOne(w, p.pending + LimitTokens(|base|, d));
  }

  lemma PendingStartsSolid(base: string, d: string)
    ensures var w, ts := base + (" LIMIT " + d), Run(base, Tokens(base), START).pending + LimitTokens(|base|, d);
            ts != [] && ts[0].start < |w| && !IsSpace(w[ts[0].start])
  {
    hide LexFrom, Run;
    var w, p := base + (" LIMIT " + d), Run(base, Tokens(base), START).pending;
    LexStartsSolid(base, 0);
    PendingAreTokens(base, Tokens(base));
    assert Drop(base, 0) == base;
    if p == [] {
      assert w[|base| + 1] == 'L';
    } else {
      assert p[0] in Tokens(base);
    }
  }

  // --- limitable or not ---

  lemma LimitableAlike(ps: seq<Piece>, qs: seq<Piece>)
    requires Alike(ps, qs)
    ensures IsLimitable(ps) == IsLimitable(qs)
  {
    hide Depth, EndsLimitable;
    forall k | 0 <= k < |ps| ensures TopLevel(ps, k) == TopLevel(qs, k) {
      DepthAlike(ps, qs, k);
    }
  }

  lemma PiecesAlike(s: Statement)
    ensures Alike(Pieces(s), BarePieces(s.tokens))
  {
    hide Shown;
  }

  lemma LimitEnds()
    ensures EndsLimitable("LIMIT")
  {
  }

  /** After LIMIT and a number, a statement is limitable only if they are inside parentheses. */
  lemma {:induction false} LimitedIsLimitable(ts: seq<Token>, at: nat, d: string)
    requires ts != [] && IsLimitable(BarePieces(ts))
    ensures IsLimitable(BarePieces(ts + LimitTokens(at, d))) == (Depth(BarePieces(ts), 0, |ts|) != 0)
  {
    hide Depth, EndsLimitable;
    var ps, qs := BarePieces(ts), BarePieces(ts + LimitTokens(at, d));
    forall k | 0 <= k <= |ts| ensures Depth(qs, 0, k) == Depth(ps, 0, k) {
      assert qs[..k] == ps[..k];
      DepthAlike(qs, ps, k);
    }
    LimitEnds();
    assert qs[|ts|].value == "LIMIT" && qs[|ts|].kind == Word;
    assert qs[|ts| + 1].kind == Number;
    assert forall k | 0 <= k < |ts| :: qs[k] == ps[k];
    assert TopLevel(qs, |ts|) == (Depth(ps, 0, |ts|) == 0);
  }

  // --- the exact condition ---

  lemma {:induction false} SemicolonPushes(sql: string, toks: seq<Token>)
    requires toks != [] && Run(sql, toks, START).depth == 0
    ensures (Run(sql, toks, START).pending == []) == IsPunct(toks[|toks| - 1], ";")
  {
    hide Pushed, IsPunct, Run;
    RunSnoc(sql, toks, |toks| - 1, START);
    assert toks[..|toks|] == toks;
    OnePunct(toks[|toks| - 1]);
  }

  lemma OnePunct(t: Token)
    ensures IsPunct(t, ";") ==> !IsPunct(t, "(") && !IsPunct(t, ")")
  {
    assert ";"[0] != "("[0] && ";"[0] != ")"[0];
  }

  /** `LIMIT n` reaches the statement: its tokens are appended and it can take no second one. */
  predicate LimitTakesEffect(sql: string, n: nat) {
    var base, w := Base(sql), WithLimit(sql, n);
    && Tokens(w) == Tokens(base) + LimitTokens(|base|, Decimal(n))
    && |Statements(w)| == 1
    && !IsLimitable(Pieces(Statements(w)[0]))
  }

  /** What has to hold of the text before the appended LIMIT. */
  predicate EndsCleanly(base: string) {
    Closed(base) && FinalDepth(base) == 0 && !EndsInSemicolon(base)
  }

  lemma SingleStatement(base: string)
    requires |Statements(base)| == 1
    ensures var p := Run(base, Tokens(base), START);
            if p.pending == [] then |p.out| == 1
            else p.out == [] ==> Statements(base)[0].tokens == p.pending
    ensures Tokens(base) != []
  {
    hide Tokens;
    RunNil(base, START);
  }

  lemma PendingCounts(base: string)
    ensures var p := Run(base, Tokens(base), START);
            p.pending != [] ==> |Statements(base)| == |p.out| + 1
  {
    hide LexFrom, Run, IsSpace, Pushed;
    var p := Run(base, Tokens(base), START);
    LexStartsSolid(base, 0);
    assert Drop(base, 0) == base;
    PendingAreTokens(base, Tokens(base));
    if p.pending != [] {
      assert p.pending[0] in Tokens(base);
      PushedOne(base, p.pending);
    }
  }

  lemma CleanLimit(sql: string, n: nat)
    requires |Statements(Base(sql))| == 1 && IsLimitable(Pieces(Statements(Base(sql))[0]))
    requires EndsCleanly(Base(sql))
    ensures LimitTakesEffect(sql, n)
    ensures Statements(WithLimit(sql, n))[0].tokens
         == Statements(Base(sql))[0].tokens + LimitTokens(|Base(sql)|, Decimal(n))
  {
    hide Tokens, Run, Statements, Closed, LimitTokens, IsLimitable, Pieces, WithoutSemicolon, Depth, BarePieces, Decimal;
    var base, d := Base(sql), Decimal(n);
    var p := Run(base, Tokens(base), START);
    SingleStatement(base);
    SemicolonPushes(base, Tokens(base));
    PendingCounts(base);
    RewrittenTokens(base, d);
    RewrittenStatements(base, d);
    RunDepth(base, Tokens(base));
    LimitedAgainst(Statements(base)[0], Statements(WithLimit(sql, n))[0], |base|, d);
  }

  lemma LimitedAgainst(s: Statement, s': Statement, at: nat, d: string)
    requires s.tokens != [] && s'.tokens == s.tokens + LimitTokens(at, d) && IsLimitable(Pieces(s))
    ensures IsLimitable(Pieces(s')) == (Depth(BarePieces(s.tokens), 0, |s.tokens|) != 0)
  {
    hide LimitTokens, IsLimitable, Pieces, Depth, BarePieces, Alike;
    PiecesAlike(s);
    PiecesAlike(s');
    LimitableAlike(Pieces(s), BarePieces(s.tokens));
    LimitableAlike(Pieces(s'), BarePieces(s'.tokens));
    LimitedIsLimitable(s.tokens, at, d);
  }

  lemma UncleanLimit(sql: string, n: nat)
    requires |Statements(Base(sql))| == 1 && IsLimitable(Pieces(Statements(Base(sql))[0]))
    requires !EndsCleanly(Base(sql))
    ensures !LimitTakesEffect(sql, n)
  {
    hide Tokens, Run, Statements, Closed, LimitTokens, IsLimitable, Pieces, WithoutSemicolon, Depth, BarePieces, Decimal;
    var base, d := Base(sql), Decimal(n);
    var w, p := WithLimit(sql, n), Run(base, Tokens(base), START);
    if !Closed(base) {
      SwallowedCount(base, d);
    } else {
      SingleStatement(base);
      PendingCounts(base);
      RewrittenStatements(base, d);
      RunDepth(base, Tokens(base));
      if p.pending == [] {
        assert |Statements(w)| == 2;
      } else {
        if p.depth == 0 {
          SemicolonPushes(base, Tokens(base));
        }
        LimitedAgainst(Statements(base)[0], Statements(w)[0], |base|, d);
      }
    }
  }

  lemma SwallowedCount(base: string, d: string)
    requires !Closed(base) && forall i | 0 <= i < |d| :: IsDigit(d[i])
    ensures |Tokens(base + (" LIMIT " + d))| == |Tokens(base)|
    ensures |LimitTokens(|base|, d)| == 2
  {
    hide LexFrom, Closed, Inert;
    LimitTextIsInert(d);
    OpenTextSwallows(base, " LIMIT " + d, 0);
  }

  // --- the rewrite as a caller meets it ---

  lemma {:induction false} BlanksLexToNothing(blanks: string, at: nat)
    requires forall i | 0 <= i < |blanks| :: IsSpace(blanks[i])
    ensures LexFrom(blanks, at) == []
    decreases |blanks|
  {
    hide LexFrom, IsSpace;
    if blanks == "" {
      LexNil(at);
    } else {
      assert Munch(blanks) == Lexeme(None, Span(1, true));
      hide Munch;
      LexHead(blanks, at);
      BlanksLexToNothing(blanks[1..], at + 1);
    }
  }

  lemma BlanksAreNoStatement(blanks: string)
    requires forall i | 0 <= i < |blanks| :: IsSpace(blanks[i])
    ensures Statements(blanks) == []
  {
    hide IsSpace, LexFrom;
    BlanksLexToNothing(blanks, 0);
    RunNil(blanks, START);
    PushedNone(blanks, |blanks|);
  }

  /** The semicolon that goes, and the blanks after it, end no other statement. */
  lemma StrippingKeepsStatements(sql: string)
    requires Closed(Base(sql)) && FinalDepth(Base(sql)) == 0
    ensures Statements(sql) == Statements(Base(sql))
  {
    hide Closed, FinalDepth, Statements, IsSpace;
    var t, base := TrimEnd(sql), Base(sql);
    if base != sql {
      var blanks := sql[|t|..];
      assert sql == base + ";" + blanks;
      forall i | 0 <= i < |blanks| ensures IsSpace(blanks[i]) {
        assert blanks[i] == sql[|t| + i];
      }
      SplitDistributes(base, blanks);
      BlanksAreNoStatement(blanks);
    }
  }

  lemma WholeIsLimitable(sql: string)
    requires |Statements(sql)| == 1
    ensures Classify(sql).limitable.Some? == IsLimitable(Pieces(Statements(sql)[0]))
  {
    hide Statements, IsLimitable, Pieces, Worst, Dangerous, AllNames, Distinct, OwnsTransaction, DangerOf;
  }

  lemma LimitableIsOne(sql: string)
    requires Classify(sql).limitable.Some?
    ensures |Statements(sql)| == 1
  {
    hide Statements, ClassifyOne, Worst, Dangerous, AllNames, Distinct, OwnsTransaction;
  }

  /** A semicolon inside parentheses is one more token of the statement. */
  lemma SemicolonInside(base: string, blanks: string)
    requires Closed(base) && FinalDepth(base) != 0 && forall i | 0 <= i < |blanks| :: IsSpace(blanks[i])
    ensures var p, sql := Run(base, Tokens(base), START), base + (";" + blanks);
            Statements(sql) == p.out + Pushed(sql, p.pending + [Token(Punct, ";", |base|, |base| + 1)], |sql|)
  {
    hide Tokens, LexFrom, Closed, Pushed, IsSpace, Run;
    var p, sql := Run(base, Tokens(base), START), base + (";" + blanks);
    var semi := Token(Punct, ";", |base|, |base| + 1);
    TokensAroundSemicolon(base, blanks);
    BlanksLexToNothing(blanks, 0);
    TokensAre(blanks);
    assert Shift(Tokens(blanks), |base| + 1) == [];
    assert [semi] + [] == [semi];
    TokensStartInside(base);
    RunAppend(sql, Tokens(base), [semi], START);
    RunInside(base, ";" + blanks, Tokens(base), START);
    RunSnoc(sql, [semi], 0, p);
    RunNil(sql, p);
    assert [semi][..0] == [] && [semi][..1] == [semi];
    OnePunct(semi);
  }

  /** Fewer tokens, and still nothing that excludes a LIMIT. */
  lemma LimitableFront(ts: seq<Token>, t: Token)
    requires ts != [] && IsLimitable(BarePieces(ts + [t]))
    ensures IsLimitable(BarePieces(ts))
  {
    hide Depth, EndsLimitable;
    var ps, qs := BarePieces(ts), BarePieces(ts + [t]);
    forall k | 0 <= k < |ts| ensures qs[k] == ps[k] && TopLevel(qs, k) == TopLevel(ps, k) {
      assert qs[..k] == ps[..k];
      DepthAlike(qs, ps, k);
    }
  }

  lemma StatementLimitable(s: Statement)
    ensures IsLimitable(Pieces(s)) == IsLimitable(BarePieces(s.tokens))
  {
    hide IsLimitable, Pieces, BarePieces, Alike;
    PiecesAlike(s);
    LimitableAlike(Pieces(s), BarePieces(s.tokens));
  }

  lemma PendingInside(base: string)
    requires FinalDepth(base) != 0
    ensures Run(base, Tokens(base), START).pending != []
  {
    hide Tokens, Run;
    RunDepth(base, Tokens(base));
    NoDepth();
  }

  lemma PushedAre(sql: string, toks: seq<Token>, end: nat)
    ensures |Pushed(sql, toks, end)| <= 1 && forall s | s in Pushed(sql, toks, end) :: s.tokens == toks
  {
    hide Trim, Cut;
  }

  /** Inside parentheses too, the base of one limitable statement is one. */
  lemma BaseInside(base: string, blanks: string)
    requires Closed(base) && FinalDepth(base) != 0 && forall i | 0 <= i < |blanks| :: IsSpace(blanks[i])
    requires var sql := base + (";" + blanks); |Statements(sql)| == 1 && IsLimitable(Pieces(Statements(sql)[0]))
    ensures |Statements(base)| == 1 && IsLimitable(Pieces(Statements(base)[0]))
  {
    hide Tokens, Closed, Pushed, IsSpace, Run, IsLimitable, Pieces, BarePieces, FinalDepth, Statements;
    var sql, p := base + (";" + blanks), Run(base, Tokens(base), START);
    var all := p.pending + [Token(Punct, ";", |base|, |base| + 1)];
    SemicolonInside(base, blanks);
    PendingInside(base);
    PendingCounts(base);
    PendingGoesOn(base, ";" + blanks, all);
    PushedAre(sql, all, |sql|);
    assert p.out == [];
    SingleStatement(base);
    StatementLimitable(Statements(sql)[0]);
    StatementLimitable(Statements(base)[0]);
    LimitableFront(p.pending, Token(Punct, ";", |base|, |base| + 1));
  }

  /** The statement in progress is one, whatever else joins it. */
  lemma PendingGoesOn(base: string, b: string, all: seq<Token>)
    requires Run(base, Tokens(base), START).pending != [] && Run(base, Tokens(base), START).pending <= all
    ensures |Pushed(base + b, all, |base + b|)| == 1
  {
    hide LexFrom, Run, IsSpace, Pushed;
    var p := Run(base, Tokens(base), START).pending;
    LexStartsSolid(base, 0);
    assert Drop(base, 0) == base;
    PendingAreTokens(base, Tokens(base));
    assert p[0] in Tokens(base) && all[0] == p[0] && (base + b)[p[0].start] == base[p[0].start];
    PushedOne(base + b, all);
  }

  /** What the guard says of a script it says of the text before the semicolon that goes. */
  lemma BaseIsLimitable(sql: string)
    requires Classify(sql).limitable.Some? && Closed(Base(sql))
    ensures |Statements(Base(sql))| == 1 && IsLimitable(Pieces(Statements(Base(sql))[0]))
  {
    hide Classify, Closed, FinalDepth, Statements, IsLimitable, Pieces, IsSpace;
    LimitableIsOne(sql);
    WholeIsLimitable(sql);
    var t, base := TrimEnd(sql), Base(sql);
    if FinalDepth(base) == 0 {
      StrippingKeepsStatements(sql);
    } else if base != sql {
      var blanks := sql[|t|..];
      assert sql == base + (";" + blanks);
      forall i | 0 <= i < |blanks| ensures IsSpace(blanks[i]) {
        assert blanks[i] == sql[|t| + i];
      }
      BaseInside(base, blanks);
    }
  }

  /**
   * For a script that the guard offers a LIMIT, the rewrite is right exactly when the text before it ends
   * outside quotes, comments and parentheses and not in a semicolon.
   */
  lemma LimitTakesEffectIff(sql: string, n: nat)
    requires Classify(sql).limitable.Some?
    ensures LimitTakesEffect(sql, n) <==> EndsCleanly(Base(sql))
  {
    hide Classify, Closed, FinalDepth, Statements, IsLimitable, Pieces, Tokens, LimitTokens, Base, Decimal, EndsInSemicolon;
    if !Closed(Base(sql)) {
      SwallowedCount(Base(sql), Decimal(n));
      RewrittenIs(sql, n);
    } else {
      BaseIsLimitable(sql);
      if EndsCleanly(Base(sql)) {
        CleanLimit(sql, n);
      } else {
        UncleanLimit(sql, n);
      }
    }
  }

  lemma RewrittenIs(sql: string, n: nat)
    ensures WithLimit(sql, n) == Base(sql) + (" LIMIT " + Decimal(n))
  {
    hide WithoutSemicolon, Decimal;
  }

  /**
   * What the rewrite is for: a script the guard calls limitable, whose text ends
   * cleanly, stays one statement with the same tokens and `LIMIT n` after them,
   * and no LIMIT is offered for the result.
   */
  lemma WithLimitIsRight(sql: string, n: nat)
    requires Classify(sql).limitable.Some? && EndsCleanly(Base(sql))
    ensures var w := WithLimit(sql, n);
            && |Statements(sql)| == |Statements(w)| == 1
            && Statements(w)[0].tokens == Statements(sql)[0].tokens + LimitTokens(|Base(sql)|, Decimal(n))
            && Classify(w).limitable == None
  {
    hide Statements, Closed, Classify, FinalDepth, Tokens, IsLimitable, Pieces, LimitTokens, WithLimit, Base, Decimal, EndsInSemicolon;
    StrippingKeepsStatements(sql);
    LimitableIsOne(sql);
    WholeIsLimitable(sql);
    CleanLimit(sql, n);
    WholeIsLimitable(WithLimit(sql, n));
  }

  // --- how it fails ---

  lemma {:induction false} OneLineIsOpen(s: string)
    requires '\n' !in s
    ensures !LineSpan(s).closed
  {
    if s != "" {
      OneLineIsOpen(s[1..]);
    }
  }

  lemma CommentIsOpen(c: string)
    requires '\n' !in c
    ensures !Closed(" --" + c)
  {
    var s := " --" + c;
    assert s[1..] == "--" + c && ("--" + c)[2..] == c;
    OneLineIsOpen(c);
    assert Munch(s) == Lexeme(None, Span(1, true));
    assert !Munch("--" + c).span.closed;
  }

  /**
   * Where it fails: every statement text that ends in a `--` comment, which the
   * splitter keeps in the text, takes the LIMIT into the comment, and not one
   * token is added.
   */
  lemma CommentTakesLimit(sql: string, a: string, c: string, n: nat)
    requires Closed(a) && '\n' !in c && Base(sql) == a + (" --" + c)
    ensures !EndsCleanly(Base(sql))
    ensures |Tokens(WithLimit(sql, n))| == |Tokens(Base(sql))|
  {
    hide Closed, Tokens, FinalDepth, LimitTokens, Decimal, WithoutSemicolon;
    CommentIsOpen(c);
    BreaksSeam(a, " --" + c);
    ClosedCompose(a, " --" + c);
    SwallowedCount(Base(sql), Decimal(n));
  }
}
