/** The SQL tokeniser of packages/sql-guard/src/lex.ts. */
module SqlLexer {
  import opened Text

  datatype TokenKind = Word | Punct | Str | Ident | Number

  datatype Token = Token(kind: TokenKind, value: string, start: nat, end: nat)

  predicate IsWordStart(c: char) {
    IsLetter(c) || c == '_' || c as int > 127
  }

  predicate IsWordChar(c: char) {
    IsLetter(c) || IsDigit(c) || c == '_' || c == '$' || c as int > 127
  }

  predicate IsTagStart(c: char) {
    IsLetter(c) || c == '_'
  }

  predicate IsTagChar(c: char) {
    IsLetter(c) || IsDigit(c) || c == '_'
  }

  predicate IsNumberChar(c: char) {
    IsDigit(c) || c == '.' || c == '_'
  }

  // --- specification: one lexeme at a time, on the text still to be read ---

  /** How far a construct reaches, and whether its terminator was found. */
  datatype Span = Span(len: nat, closed: bool)

  function Extend(n: nat, s: Span): Span {
    Span(n + s.len, s.closed)
  }

  /** A line comment, up to but not including the newline that ends it. */
  function LineSpan(s: string): (r: Span)
    ensures r.len <= |s| && (!r.closed ==> r.len == |s|)
  {
    if s == "" then Span(0, false)
    else if s[0] == '\n' then Span(0, true)
    else Extend(1, LineSpan(s[1..]))
  }

  /** The rest of a block comment that is `depth` levels deep. */
  function BlockSpan(s: string, depth: nat): (r: Span)
    ensures r.len <= |s| && (!r.closed ==> r.len == |s|)
    decreases |s|
  {
    if s == "" then Span(0, false)
    else if |s| >= 2 && s[0] == '/' && s[1] == '*' then Extend(2, BlockSpan(s[2..], depth + 1))
    else if |s| >= 2 && s[0] == '*' && s[1] == '/' then
      if depth <= 1 then Span(2, true) else Extend(2, BlockSpan(s[2..], depth - 1))
    else Extend(1, BlockSpan(s[1..], depth))
  }

  /** The rest of a literal quoted by `q`, where a doubled `q` stands for itself. */
  function QuoteSpan(s: string, q: char): (r: Span)
    ensures r.len <= |s| && (!r.closed ==> r.len == |s|)
    decreases |s|
  {
    if s == "" then Span(0, false)
    else if s[0] == q then
      if |s| >= 2 && s[1] == q then Extend(2, QuoteSpan(s[2..], q)) else Span(1, true)
    else Extend(1, QuoteSpan(s[1..], q))
  }

  /** The rest of an `E'...'` string. A trailing backslash steps one past the end. */
  function EscapeSpan(s: string): (r: Span)
    ensures r.len <= |s| + 1
    ensures if r.closed then r.len <= |s| else r.len >= |s|
    decreases |s|
  {
    if s == "" then Span(0, false)
    else if s[0] == '\\' then
      if |s| == 1 then Span(2, false) else Extend(2, EscapeSpan(s[2..]))
    else if s[0] == '\'' then
      if |s| >= 2 && s[1] == '\'' then Extend(2, EscapeSpan(s[2..])) else Span(1, true)
    else Extend(1, EscapeSpan(s[1..]))
  }

  function TagRun(s: string): (n: nat)
    ensures n <= |s|
  {
    if s != "" && IsTagChar(s[0]) then 1 + TagRun(s[1..]) else 0
  }

  /** The length of the opening `$tag$` that `s` begins with, 0 when it begins with none. */
  function TagLength(s: string): (n: nat)
    ensures n <= |s| && n != 1
  {
    if |s| >= 2 && s[0] == '$' && s[1] == '$' then 2
    else if |s| >= 2 && s[0] == '$' && IsTagStart(s[1]) then
      var k := 1 + TagRun(s[1..]);
      if k < |s| && s[k] == '$' then k + 1 else 0
    else 0
  }

  function DollarSpan(s: string): (r: Span)
    requires TagLength(s) > 0
    ensures 2 <= r.len <= |s| && (!r.closed ==> r.len == |s|)
  {
    var k := TagLength(s);
    match IndexOf(s[k..], s[..k])
    case None => Span(|s|, false)
    case Some(i) =>
      IndexOfFirst(s[k..], s[..k]);
      Span(k + i + k, true)
  }

  function NumberRun(s: string): (n: nat)
    ensures n <= |s|
  {
    if s != "" && IsNumberChar(s[0]) then 1 + NumberRun(s[1..]) else 0
  }

  function WordRun(s: string): (n: nat)
    ensures n <= |s|
  {
    if s != "" && IsWordChar(s[0]) then 1 + WordRun(s[1..]) else 0
  }

  /** One lexeme: no kind for blanks and comments, which leave no token. */
  datatype Lexeme = Lexeme(kind: Option<TokenKind>, span: Span)

  predicate StartsWith2(s: string, c: char, d: char) {
    |s| >= 2 && s[0] == c && s[1] == d
  }

  /** The lexeme that the non-empty `s` begins with. */
  function Munch(s: string): (m: Lexeme)
    requires s != ""
    ensures 1 <= m.span.len <= |s| + 1
    ensures if m.span.closed then m.span.len <= |s| else m.span.len >= |s|
  {
    var c := s[0];
    if IsSpace(c) then Lexeme(None, Span(1, true))
    else if StartsWith2(s, '-', '-') then Lexeme(None, Extend(2, LineSpan(s[2..])))
    else if StartsWith2(s, '/', '*') then Lexeme(None, Extend(2, BlockSpan(s[2..], 1)))
    else if TagLength(s) > 0 then Lexeme(Some(Str), DollarSpan(s))
    else if StartsWith2(s, 'E', '\'') || StartsWith2(s, 'e', '\'') then
      Lexeme(Some(Str), Extend(2, EscapeSpan(s[2..])))
    else if c == '\'' then Lexeme(Some(Str), Extend(1, QuoteSpan(s[1..], '\'')))
    else if c == '"' then Lexeme(Some(Ident), Extend(1, QuoteSpan(s[1..], '"')))
    else if IsDigit(c) then Lexeme(Some(Number), Span(1 + NumberRun(s[1..]), true))
    else if IsWordStart(c) then Lexeme(Some(Word), Span(1 + WordRun(s[1..]), true))
    else Lexeme(Some(Punct), Span(1, true))
  }

  function MakeToken(kind: TokenKind, text: string, start: nat, end: nat): Token {
    Token(kind, if kind == Word then Upper(text) else text, start, end)
  }

  /** The token a lexeme leaves, if any. */
  function Emit(m: Lexeme, s: string, at: nat): seq<Token> {
    match m.kind
    case None => []
    case Some(kind) => [MakeToken(kind, Take(s, m.span.len), at, at + m.span.len)]
  }

  /** The tokens of `s` when it is the rest of a text whose first `at` characters are read. */
  function LexFrom(s: string, at: nat): seq<Token>
    decreases |s|
  {
    if s == "" then []
    else
      var m := Munch(s);
      Emit(m, s, at) + LexFrom(Drop(s, m.span.len), at + m.span.len)
  }

  function Tokens(sql: string): seq<Token> {
    LexFrom(sql, 0)
  }

  // --- the lexer itself ---

  method SkipLine(sql: string, from: nat) returns (i: nat)
    requires from <= |sql|
    ensures i == from + LineSpan(sql[from..]).len
  {
    i := from;
    while i < |sql| && sql[i] != '\n'
      invariant from <= i <= |sql|
      invariant LineSpan(sql[from..]).len == (i - from) + LineSpan(sql[i..]).len
    {
      assert sql[i..][1..] == sql[i + 1..];
      i := i + 1;
    }
  }

  method SkipBlock(sql: string, from: nat) returns (i: nat)
    requires from + 2 <= |sql| && sql[from] == '/' && sql[from + 1] == '*'
    ensures i == from + 2 + BlockSpan(sql[from + 2..], 1).len
  {
    var depth := 0;
    i := from;
    while i < |sql|
      invariant from <= i <= |sql|
      invariant if depth == 0 then i == from else
                  && depth > 0 && from + 2 <= i
                  && 2 + BlockSpan(sql[from + 2..], 1).len == (i - from) + BlockSpan(sql[i..], depth).len
    {
      if i + 1 < |sql| && sql[i] == '/' && sql[i + 1] == '*' {
        assert sql[i..][2..] == sql[i + 2..];
        depth, i := depth + 1, i + 2;
        continue;
      }
      if i + 1 < |sql| && sql[i] == '*' && sql[i + 1] == '/' {
        assert sql[i..][2..] == sql[i + 2..];
        depth, i := depth - 1, i + 2;
        if depth == 0 {
          break;
        }
        continue;
      }
      assert sql[i..][1..] == sql[i + 1..];
      i := i + 1;
    }
  }

  method SkipQuoted(sql: string, from: nat, q: char) returns (i: nat)
    requires from < |sql| && sql[from] == q
    ensures i == from + 1 + QuoteSpan(sql[from + 1..], q).len
  {
    i := from + 1;
    while i < |sql|
      invariant from + 1 <= i <= |sql|
      invariant 1 + QuoteSpan(sql[from + 1..], q).len == (i - from) + QuoteSpan(sql[i..], q).len
    {
      if sql[i] == q {
        if i + 1 < |sql| && sql[i + 1] == q {
          assert sql[i..][2..] == sql[i + 2..];
          i := i + 2;
          continue;
        }
        i := i + 1;
        break;
      }
      assert sql[i..][1..] == sql[i + 1..];
      i := i + 1;
    }
  }

  method SkipEscaped(sql: string, from: nat) returns (i: nat)
    requires from + 2 <= |sql| && sql[from + 1] == '\''
    ensures i == from + 2 + EscapeSpan(sql[from + 2..]).len
  {
    i := from + 2;
    ghost var rest := sql[i..];
    while i < |sql|
      invariant from + 2 <= i <= |sql| + 1 && rest == Drop(sql, i)
      invariant 2 + EscapeSpan(sql[from + 2..]).len == (i - from) + EscapeSpan(rest).len
    {
      if sql[i] == '\\' {
        i, rest := i + 2, Drop(rest, 2);
        continue;
      }
      if sql[i] == '\'' {
        if i + 1 < |sql| && sql[i + 1] == '\'' {
          i, rest := i + 2, rest[2..];
          continue;
        }
        i := i + 1;
        break;
      }
      i, rest := i + 1, rest[1..];
    }
  }

  method SkipNumber(sql: string, from: nat) returns (i: nat)
    requires from < |sql|
    ensures i == from + 1 + NumberRun(sql[from + 1..])
  {
    i := from + 1;
    while i < |sql| && IsNumberChar(sql[i])
      invariant from + 1 <= i <= |sql|
      invariant 1 + NumberRun(sql[from + 1..]) == (i - from) + NumberRun(sql[i..])
    {
      assert sql[i..][1..] == sql[i + 1..];
      i := i + 1;
    }
  }

  method SkipWord(sql: string, from: nat) returns (i: nat)
    requires from < |sql| && IsWordStart(sql[from])
    ensures i == from + 1 + WordRun(sql[from + 1..])
  {
    i := from;
    assert sql[from..][1..] == sql[from + 1..];
    while i < |sql| && IsWordChar(sql[i])
      invariant from <= i <= |sql|
      invariant WordRun(sql[from..]) == (i - from) + WordRun(sql[i..])
    {
      assert sql[i..][1..] == sql[i + 1..];
      i := i + 1;
    }
  }

  /** `sql.slice(start, end)`, where `end` may lie one past the end of the text. */
  function Slice(sql: string, start: nat, end: nat): string
    requires start <= end && start <= |sql|
  {
    Take(sql[start..], end - start)
  }

  /** One turn of the lexer's loop: what starts at `start`, and where it ends. */
  method Step(sql: string, start: nat) returns (kind: Option<TokenKind>, i: nat)
    requires start < |sql|
    ensures kind == Munch(sql[start..]).kind
    ensures i == start + Munch(sql[start..]).span.len
  {
    var c := sql[start];
    ghost var rest := sql[start..];
    assert rest[1..] == sql[start + 1..];
    assert start + 2 <= |sql| ==> rest[2..] == sql[start + 2..];
    if IsSpace(c) {
      return None, start + 1;
    }
    if c == '-' && start + 1 < |sql| && sql[start + 1] == '-' {
      i := SkipLine(sql, start);
      assert rest[1..][1..] == rest[2..];
      assert LineSpan(rest) == Extend(2, LineSpan(rest[2..]));
      return None, i;
    }
    if c == '/' && start + 1 < |sql| && sql[start + 1] == '*' {
      i := SkipBlock(sql, start);
      return None, i;
    }
    if c == '$' {
      var tag := TagLength(sql[start..]);
      if tag > 0 {
        var open := sql[start..start + tag];
        assert rest[..tag] == open && rest[tag..] == sql[start + tag..];
        var close := IndexOf(sql[start + tag..], open);
        i := if close.None? then |sql| else start + tag + close.value + tag;
        return Some(Str), i;
      }
    }
    if (c == 'E' || c == 'e') && start + 1 < |sql| && sql[start + 1] == '\'' {
      i := SkipEscaped(sql, start);
      return Some(Str), i;
    }
    if c == '\'' {
      i := SkipQuoted(sql, start, '\'');
      return Some(Str), i;
    }
    if c == '"' {
      i := SkipQuoted(sql, start, '"');
      return Some(Ident), i;
    }
    if IsDigit(c) {
      i := SkipNumber(sql, start);
      return Some(Number), i;
    }
    if IsWordStart(c) {
      i := SkipWord(sql, start);
      return Some(Word), i;
    }
    return Some(Punct), start + 1;
  }

  /** Having emitted `out`, the tokens still owed are those of `sql[at..]`. */
  ghost predicate Owes(sql: string, out: seq<Token>, at: nat) {
    out + LexFrom(Drop(sql, at), at) == Tokens(sql)
  }

  lemma OwesStep(sql: string, out: seq<Token>, start: nat, end: nat)
    requires start < |sql| && end == start + Munch(sql[start..]).span.len
    requires Owes(sql, out, start)
    ensures Owes(sql, out + Emit(Munch(sql[start..]), sql[start..], start), end)
  {
    hide Munch, Emit;
    assert Drop(sql[start..], end - start) == Drop(sql, end);
  }

  method Lex(sql: string) returns (out: seq<Token>)
    ensures out == Tokens(sql)
  {
    out := [];
    var i: nat := 0;
    while i < |sql|
      invariant Owes(sql, out, i)
      decreases |sql| - i
    {
      hide LexFrom, Munch, Upper, Owes;
      OwesStep(sql, out, i, i + Munch(sql[i..]).span.len);
      var start := i;
      var kind: Option<TokenKind>;
      kind, i := Step(sql, start);
      if kind.Some? {
        out := out + [MakeToken(kind.value, Slice(sql, start, i), start, i)];
      } else {
        assert out + [] == out;
      }
    }
  }
}
