/** What can be written as one lexeme: literals, identifiers, numbers, words and comments, each by its own form. */
module SqlForms {
  import opened Text
  import opened SqlLexer
  import opened SqlLexing
  import opened SqlSplit
  import opened SqlGuard
  import opened SqlScripts
  import opened SqlDrops

  /** The whole of `s` is one closed token. */
  predicate OneToken(s: string, kind: TokenKind) {
    Closed(s) && Tokens(s) == [Token(kind, s, 0, |s|)]
  }

  /** The whole of `s` is one token that is never closed. */
  predicate OpenToken(s: string, kind: TokenKind) {
    !Closed(s) && Tokens(s) == [Token(kind, s, 0, |s|)]
  }

  lemma MunchOne(s: string, kind: TokenKind)
    requires s != "" && kind != Word && Munch(s) == Lexeme(Some(kind), Span(|s|, true))
    ensures OneToken(s, kind)
  {
    hide LexFrom, Munch, Upper;
    LexOne(s, 0);
  }

  lemma MunchOpen(s: string, kind: TokenKind)
    requires s != "" && kind != Word && Munch(s) == Lexeme(Some(kind), Span(|s|, false))
    ensures OpenToken(s, kind)
  {
    hide LexFrom, Munch, Upper;
    LexHead(s, 0);
    LexNil(|s|);
    assert Drop(s, |s|) == "" && Take(s, |s|) == s;
  }

  // --- dollar quotes ---

  predicate IsLetterOrUnderscore(c: char) {
    'a' <= c <= 'z' || 'A' <= c <= 'Z' || c == '_'
  }

  /** Nothing, or a letter or underscore and then letters, digits and underscores. */
  predicate IsTag(tag: string) {
    && (tag != "" ==> IsLetterOrUnderscore(tag[0]))
    && forall i | 0 <= i < |tag| :: IsLetterOrUnderscore(tag[i]) || '0' <= tag[i] <= '9'
  }

  function Delimiter(tag: string): string {
    "$" + (tag + "$")
  }

  /** `pattern` stands in `s` at `|before|` and nowhere sooner. */
  predicate FirstAt(s: string, pattern: string, i: nat) {
    OccursAt(s, pattern, i) && forall j | 0 <= j < i :: !OccursAt(s, pattern, j)
  }

  lemma {:induction false} TagRunIs(tag: string, rest: string)
    requires forall i | 0 <= i < |tag| :: IsTagChar(tag[i])
    requires rest != "" && !IsTagChar(rest[0])
    ensures TagRun(tag + rest) == |tag|
  {
    if tag == "" {
      assert tag + rest == rest;
    } else {
      assert (tag + rest)[1..] == tag[1..] + rest;
      TagRunIs(tag[1..], rest);
    }
  }

  lemma DelimiterLength(tag: string, rest: string)
    requires IsTag(tag)
    ensures TagLength(Delimiter(tag) + rest) == |tag| + 2
  {
    var s := Delimiter(tag) + rest;
    assert s[1..] == tag + ("$" + rest);
    if tag != "" {
      assert s[1] == tag[0];
      TagRunIs(tag, "$" + rest);
      assert s[1 + |tag|] == '$';
    }
  }

  lemma DollarMunch(tag: string, rest: string)
    requires IsTag(tag)
    ensures var s := Delimiter(tag) + rest;
            && TagLength(s) == |tag| + 2 && Munch(s) == Lexeme(Some(Str), DollarSpan(s))
            && s[..|tag| + 2] == Delimiter(tag) && s[|tag| + 2..] == rest
  {
    hide DollarSpan;
    DelimiterLength(tag, rest);
    assert (Delimiter(tag) + rest)[0] == '$';
  }

  lemma FirstIsIndex(s: string, pattern: string, i: nat)
    requires FirstAt(s, pattern, i)
    ensures IndexOf(s, pattern) == Some(i)
  {
    hide OccursAt;
    IndexOfFirst(s, pattern);
  }

  /** A dollar quote, tagged or not, is one literal up to the first place where its delimiter stands again. */
  lemma DollarQuoteIsOneToken(tag: string, body: string)
    requires IsTag(tag) && FirstAt(body + Delimiter(tag), Delimiter(tag), |body|)
    ensures OneToken(Delimiter(tag) + (body + Delimiter(tag)), Str)
  {
    hide FirstAt, Munch;
    var rest := body + Delimiter(tag);
    var s := Delimiter(tag) + rest;
    DollarMunch(tag, rest);
    FirstIsIndex(rest, Delimiter(tag), |body|);
    MunchOne(s, Str);
  }

  /** And with no such place it takes the rest of the text. */
  lemma OpenDollarQuote(tag: string, body: string)
    requires IsTag(tag) && forall j: nat :: !OccursAt(body, Delimiter(tag), j)
    ensures OpenToken(Delimiter(tag) + body, Str)
  {
    hide Munch, OccursAt;
    var s := Delimiter(tag) + body;
    DollarMunch(tag, body);
    IndexOfFirst(body, Delimiter(tag));
    MunchOpen(s, Str);
  }

  /** A dollar sign that begins no delimiter is a mark. */
  lemma LoneDollar(s: string)
    requires s != "" && s[0] == '$' && forall tag | IsTag(tag) :: !(Delimiter(tag) <= s)
    ensures Munch(s) == Lexeme(Some(Punct), Span(1, true))
  {
    if TagLength(s) > 0 {
      TagOf(s);
    }
  }

  /** What is read as a delimiter is one. */
  lemma TagOf(s: string)
    requires TagLength(s) > 0
    ensures var k := TagLength(s); IsTag(s[1..k - 1]) && s[..k] == Delimiter(s[1..k - 1])
  {
    var k := TagLength(s);
    TagRunChars(s[1..]);
    assert s[..k] == [s[0]] + (s[1..k - 1] + [s[k - 1]]);
  }

  lemma {:induction false} TagRunChars(s: string)
    ensures forall i | 0 <= i < TagRun(s) :: IsTagChar(s[i])
  {
    if s != "" && IsTagChar(s[0]) {
      TagRunChars(s[1..]);
    }
  }

  // --- strings ---

  /** What may stand between the quotes of a literal: a character, a quote written twice, or a backslash and any character. */
  datatype Item = Plain(c: char) | Twice | Escape(c: char)

  function ItemText(i: Item, q: char): string {
    match i
    case Plain(c) => [c]
    case Twice => [q, q]
    case Escape(c) => ['\\', c]
  }

  function ItemsText(items: seq<Item>, q: char): string {
    if items == [] then "" else ItemText(items[0], q) + ItemsText(items[1..], q)
  }

  /** Items of an ordinary literal: a backslash means nothing in it. */
  predicate PlainItems(items: seq<Item>, q: char) {
    forall i | 0 <= i < |items| :: !items[i].Escape? && items[i] != Plain(q)
  }

  /** Items of an escape string. */
  predicate EscapeItems(items: seq<Item>) {
    forall i | 0 <= i < |items| :: items[i] != Plain('\'') && items[i] != Plain('\\')
  }

  lemma {:induction false} PlainItemsRead(items: seq<Item>, q: char, rest: string)
    requires PlainItems(items, q)
    ensures QuoteSpan(ItemsText(items, q) + rest, q) == Extend(|ItemsText(items, q)|, QuoteSpan(rest, q))
  {
    var s := ItemsText(items, q) + rest;
    if items == [] {
      assert s == rest;
    } else {
      assert s[|ItemText(items[0], q)|..] == ItemsText(items[1..], q) + rest;
      PlainItemsRead(items[1..], q, rest);
    }
  }

  lemma {:induction false} EscapeItemsRead(items: seq<Item>, rest: string)
    requires EscapeItems(items)
    ensures EscapeSpan(ItemsText(items, '\'') + rest) == Extend(|ItemsText(items, '\'')|, EscapeSpan(rest))
  {
    var s := ItemsText(items, '\'') + rest;
    if items == [] {
      assert s == rest;
    } else {
      assert s[|ItemText(items[0], '\'')|..] == ItemsText(items[1..], '\'') + rest;
      EscapeItemsRead(items[1..], rest);
    }
  }

  function Quoted(items: seq<Item>, q: char): string {
    [q] + (ItemsText(items, q) + [q])
  }

  lemma QuotedMunch(items: seq<Item>, q: char, rest: string)
    requires PlainItems(items, q) && (q == '\'' || q == '"')
    ensures Munch([q] + (ItemsText(items, q) + rest)).kind == Some(if q == '"' then Ident else Str)
    ensures Munch([q] + (ItemsText(items, q) + rest)).span == Extend(1 + |ItemsText(items, q)|, QuoteSpan(rest, q))
  {
    hide QuoteSpan, ItemsText;
    var s := [q] + (ItemsText(items, q) + rest);
    PlainItemsRead(items, q, rest);
    assert s[1..] == ItemsText(items, q) + rest;
  }

  /** A literal, or an identifier in double quotes, is one token whatever its items are. */
  lemma QuotedIsOneToken(items: seq<Item>, q: char)
    requires PlainItems(items, q) && (q == '\'' || q == '"')
    ensures OneToken(Quoted(items, q), if q == '"' then Ident else Str)
  {
    hide Munch, ItemsText;
    QuotedMunch(items, q, [q]);
    MunchOne(Quoted(items, q), if q == '"' then Ident else Str);
  }

  lemma OpenQuoted(items: seq<Item>, q: char)
    requires PlainItems(items, q) && (q == '\'' || q == '"')
    ensures OpenToken([q] + ItemsText(items, q), if q == '"' then Ident else Str)
  {
    hide Munch, ItemsText;
    QuotedMunch(items, q, "");
    assert ItemsText(items, q) + "" == ItemsText(items, q);
    MunchOpen([q] + ItemsText(items, q), if q == '"' then Ident else Str);
  }

  lemma EscapeMunch(e: char, items: seq<Item>, rest: string)
    requires EscapeItems(items) && (e == 'E' || e == 'e')
    ensures Munch([e, '\''] + (ItemsText(items, '\'') + rest))
         == Lexeme(Some(Str), Extend(2 + |ItemsText(items, '\'')|, EscapeSpan(rest)))
  {
    hide EscapeSpan, ItemsText;
    var s := [e, '\''] + (ItemsText(items, '\'') + rest);
    EscapeItemsRead(items, rest);
    assert s[2..] == ItemsText(items, '\'') + rest;
  }

  /** An escape string is one literal, whatever its backslashes stand before. */
  lemma EscapeStringIsOneToken(e: char, items: seq<Item>)
    requires EscapeItems(items) && (e == 'E' || e == 'e')
    ensures OneToken([e] + Quoted(items, '\''), Str)
  {
    hide Munch, ItemsText;
    EscapeMunch(e, items, "'");
    assert [e] + Quoted(items, '\'') == [e, '\''] + (ItemsText(items, '\'') + "'");
    MunchOne([e] + Quoted(items, '\''), Str);
  }

  lemma OpenEscapeString(e: char, items: seq<Item>)
    requires EscapeItems(items) && (e == 'E' || e == 'e')
    ensures OpenToken([e, '\''] + ItemsText(items, '\''), Str)
  {
    hide Munch, ItemsText;
    EscapeMunch(e, items, "");
    assert ItemsText(items, '\'') + "" == ItemsText(items, '\'');
    MunchOpen([e, '\''] + ItemsText(items, '\''), Str);
  }

  // --- numbers, words and marks ---

  predicate IsDecimal(c: char) {
    '0' <= c <= '9'
  }

  lemma {:induction false} NumberRunIs(s: string)
    requires forall i | 0 <= i < |s| :: IsDecimal(s[i]) || s[i] == '.' || s[i] == '_'
    ensures NumberRun(s) == |s|
  {
    if s != "" {
      NumberRunIs(s[1..]);
    }
  }

  /** A digit and any digits, points and underscores after it. */
  lemma NumberIsOneToken(s: string)
    requires s != "" && IsDecimal(s[0])
    requires forall i | 0 <= i < |s| :: IsDecimal(s[i]) || s[i] == '.' || s[i] == '_'
    ensures OneToken(s, Number)
  {
    NumberRunIs(s[1..]);
    assert Munch(s) == Lexeme(Some(Number), Span(|s|, true));
    hide Munch;
    MunchOne(s, Number);
  }

  /** Letters of any script and underscores, and after the first also digits and dollar signs. */
  lemma WordIsOneToken(s: string)
    requires s != "" && !IsSpace(s[0]) && (IsLetterOrUnderscore(s[0]) || s[0] as int > 127)
    requires forall i | 0 <= i < |s| :: IsLetterOrUnderscore(s[i]) || s[i] as int > 127 || IsDecimal(s[i]) || s[i] == '$'
    ensures Closed(s) && Tokens(s) == [Token(Word, Upper(s), 0, |s|)]
  {
    hide LexFrom, Munch, Upper;
    OneWord(s, 0);
  }

  predicate GoesOnWord(c: char) {
    IsLetterOrUnderscore(c) || c as int > 127 || IsDecimal(c) || c == '$'
  }

  lemma {:induction false} WordRunEnds(s: string, rest: string)
    requires (forall i | 0 <= i < |s| :: GoesOnWord(s[i])) && (rest != "" ==> !GoesOnWord(rest[0]))
    ensures WordRun(s + rest) == |s|
  {
    if s == "" {
      assert s + rest == rest;
    } else {
      assert (s + rest)[1..] == s[1..] + rest;
      WordRunEnds(s[1..], rest);
    }
  }

  /** A word ends before the first character that cannot be in one; only an E before a quote is no word. */
  lemma WordEnds(s: string, rest: string, at: nat)
    requires s != "" && !IsSpace(s[0]) && (IsLetterOrUnderscore(s[0]) || s[0] as int > 127)
    requires (forall i | 0 <= i < |s| :: GoesOnWord(s[i])) && (rest != "" ==> !GoesOnWord(rest[0]))
    requires !((s == "E" || s == "e") && rest != "" && rest[0] == '\'')
    ensures LexFrom(s + rest, at) == [Token(Word, Upper(s), at, at + |s|)] + LexFrom(rest, at + |s|)
  {
    hide Upper, LexFrom;
    var t := s + rest;
    assert t[0] == s[0] && t[1..] == s[1..] + rest;
    WordRunEnds(s[1..], rest);
    assert |t| >= 2 ==> t[1] == if |s| > 1 then s[1] else rest[0];
    assert Munch(t) == Lexeme(Some(Word), Span(|s|, true));
    hide Munch;
    LexHead(t, at);
    assert Drop(t, |s|) == rest && Take(t, |s|) == s;
  }

  lemma {:induction false} NumberRunEnds(s: string, rest: string)
    requires forall i | 0 <= i < |s| :: IsDecimal(s[i]) || s[i] == '.' || s[i] == '_'
    requires rest != "" ==> !IsDecimal(rest[0]) && rest[0] != '.' && rest[0] != '_'
    ensures NumberRun(s + rest) == |s|
  {
    if s == "" {
      assert s + rest == rest;
    } else {
      assert (s + rest)[1..] == s[1..] + rest;
      NumberRunEnds(s[1..], rest);
    }
  }

  /** A number ends before the first character that is no digit, point or underscore. */
  lemma NumberEnds(s: string, rest: string, at: nat)
    requires s != "" && IsDecimal(s[0])
    requires forall i | 0 <= i < |s| :: IsDecimal(s[i]) || s[i] == '.' || s[i] == '_'
    requires rest != "" ==> !IsDecimal(rest[0]) && rest[0] != '.' && rest[0] != '_'
    ensures LexFrom(s + rest, at) == [Token(Number, s, at, at + |s|)] + LexFrom(rest, at + |s|)
  {
    hide Upper, LexFrom;
    var t := s + rest;
    assert t[0] == s[0] && t[1..] == s[1..] + rest;
    NumberRunEnds(s[1..], rest);
    assert Munch(t) == Lexeme(Some(Number), Span(|s|, true));
    hide Munch;
    LexHead(t, at);
    assert Drop(t, |s|) == rest && Take(t, |s|) == s;
  }

  /** Any other character is a token of its own. */
  lemma MarkIsOneToken(c: char)
    requires c as int <= 127 && !IsSpace(c) && !IsLetterOrUnderscore(c) && !IsDecimal(c) && c != '\'' && c != '"'
    ensures OneToken([c], Punct)
  {
    assert Munch([c]) == Lexeme(Some(Punct), Span(1, true));
    hide Munch;
    MunchOne([c], Punct);
  }

  // --- comments ---

  /** The whole of `s` is a comment, or a blank: it is closed and leaves nothing. */
  predicate NoToken(s: string) {
    Closed(s) && Tokens(s) == []
  }

  lemma {:induction false} LineRuns(text: string, rest: string)
    requires '\n' !in text
    ensures LineSpan(text + rest) == Extend(|text|, LineSpan(rest))
  {
    if text == "" {
      assert text + rest == rest;
    } else {
      assert (text + rest)[1..] == text[1..] + rest;
      LineRuns(text[1..], rest);
    }
  }

  /** A line comment ends with its line. */
  lemma LineCommentIsNoToken(text: string)
    requires '\n' !in text
    ensures NoToken("--" + (text + "\n"))
  {
    var s := "--" + (text + "\n");
    LineRuns(text, "\n");
    assert s[2..] == text + "\n" && Drop(s, |text| + 2) == "\n";
    assert Munch(s) == Lexeme(None, Span(|text| + 2, true));
    BlankIsTrivia("\n");
    hide LexFrom, Munch;
    LexHead(s, 0);
    LexShift("\n", 0, |text| + 2);
  }

  /** What follows the opening of a block comment: characters and comments, up to its end. */
  datatype Inside = End | Char(c: char, rest: Inside) | Nested(inner: Inside, rest: Inside)

  function InsideText(x: Inside): string {
    match x
    case End => "*/"
    case Char(c, rest) => [c] + InsideText(rest)
    case Nested(inner, rest) => "/*" + (InsideText(inner) + InsideText(rest))
  }

  /** No character makes, with the one that follows it, an opening or an end that is not meant. */
  predicate NoAccident(x: Inside) {
    match x
    case End => true
    case Char(c, rest) =>
      NoAccident(rest) && (c == '/' ==> InsideText(rest)[..1] != "*") && (c == '*' ==> InsideText(rest)[..1] != "/")
    case Nested(inner, rest) => NoAccident(inner) && NoAccident(rest)
  }

  lemma CharIsRead(c: char, rest: Inside, after: string, depth: nat)
    requires NoAccident(Char(c, rest))
    ensures BlockSpan(InsideText(Char(c, rest)) + after, depth) == Extend(1, BlockSpan(InsideText(rest) + after, depth))
  {
    hide BlockSpan;
    var s := InsideText(Char(c, rest)) + after;
    BlockIs(s, depth);
    InsideIsLong(rest);
    assert s[1..] == InsideText(rest) + after && s[1] == InsideText(rest)[0];
  }

  lemma EndIsRead(after: string, depth: nat)
    requires depth >= 1
    ensures BlockSpan("*/" + after, depth) == if depth == 1 then Span(2, true) else Extend(2, BlockSpan(after, depth - 1))
  {
    hide BlockSpan;
    BlockIs("*/" + after, depth);
    assert ("*/" + after)[2..] == after;
  }

  lemma NestedIsRead(inner: Inside, rest: Inside, after: string, depth: nat)
    ensures BlockSpan(InsideText(Nested(inner, rest)) + after, depth)
         == Extend(2, BlockSpan(InsideText(inner) + (InsideText(rest) + after), depth + 1))
  {
    hide BlockSpan;
    var s := InsideText(Nested(inner, rest)) + after;
    BlockIs(s, depth);
    assert s[2..] == InsideText(inner) + (InsideText(rest) + after);
  }

  lemma {:induction false} InsideIsRead(x: Inside, after: string, depth: nat)
    requires NoAccident(x) && depth >= 1
    ensures BlockSpan(InsideText(x) + after, depth)
         == if depth == 1 then Span(|InsideText(x)|, true) else Extend(|InsideText(x)|, BlockSpan(after, depth - 1))
    decreases x
  {
    hide BlockSpan;
    match x {
      case End =>
        EndIsRead(after, depth);
      case Char(c, rest) =>
        CharIsRead(c, rest, after, depth);
        InsideIsRead(rest, after, depth);
      case Nested(inner, rest) =>
        NestedIsRead(inner, rest, after, depth);
        InsideIsRead(inner, InsideText(rest) + after, depth + 1);
        InsideIsRead(rest, after, depth);
    }
  }

  lemma InsideIsLong(x: Inside)
    ensures |InsideText(x)| >= 2
  {
  }

  lemma CommentMunch(x: Inside)
    requires NoAccident(x)
    ensures Munch("/*" + InsideText(x)) == Lexeme(None, Span(|InsideText(x)| + 2, true))
  {
    hide BlockSpan;
    var s := "/*" + InsideText(x);
    InsideIsRead(x, "", 1);
    assert s[2..] == InsideText(x) == InsideText(x) + "";
  }

  /** A block comment with comments nested in it ends where its own nesting does. */
  lemma BlockCommentIsNoToken(x: Inside)
    requires NoAccident(x)
    ensures NoToken("/*" + InsideText(x))
  {
    hide LexFrom, Munch, InsideText;
    var s := "/*" + InsideText(x);
    CommentMunch(x);
    assert |s| == |InsideText(x)| + 2 && Drop(s, |s|) == "";
    assert Closed("");
    LexHead(s, 0);
    LexNil(|s|);
  }

  // --- in a script ---

  lemma ShiftOne(t: Token, n: nat)
    ensures Shift([t], n) == [Moved(t, n)] && Shift([], n) == []
  {
  }

  lemma TokenFurther(x: string, kind: TokenKind, n: nat)
    requires OneToken(x, kind)
    ensures Closed(x) && LexFrom(x, n) == [Moved(Token(kind, x, 0, |x|), n)]
  {
    hide LexFrom, Munch, Closed, Shift;
    LexShift(x, 0, n);
    ShiftOne(Token(kind, x, 0, |x|), n);
  }

  /** After a blank, what is one token on its own is one more token, and what is none is none. */
  lemma OneMoreToken(a: string, x: string, kind: TokenKind)
    requires Closed(a) && OneToken(x, kind)
    ensures Closed(a + (" " + x))
    ensures Tokens(a + (" " + x)) == Tokens(a) + [Moved(Token(kind, x, 0, |x|), |a| + 1)]
  {
    hide *;
    TokenFurther(x, kind, |a| + 1);
    AfterBlank(a, x);
  }

  lemma NoMoreTokens(a: string, x: string)
    requires Closed(a) && NoToken(x)
    ensures Closed(a + (" " + x)) && Tokens(a + (" " + x)) == Tokens(a)
  {
    hide LexFrom, Munch, Closed, Shift;
    AfterBlank(a, x);
    LexShift(x, 0, |a| + 1);
    ShiftOne(Token(Str, x, 0, |x|), |a| + 1);
    assert Tokens(a) + [] == Tokens(a);
  }

  lemma AfterBlank(a: string, x: string)
    requires Closed(a) && Closed(x)
    ensures Closed(a + (" " + x)) && Tokens(a + (" " + x)) == Tokens(a) + LexFrom(x, |a| + 1)
  {
    hide LexFrom, Munch, Closed;
    assert (" " + x)[0] == ' ' && Breaks(' ');
    BreaksSeam(a, " " + x);
    Compose(a, " " + x, 0);
    ClosedCompose(a, " " + x);
    BlankIsTrivia(" ");
    LexShift(" ", 0, |a|);
    ComposeTrivia(" ", x, |a|);
    ClosedTrivia(" ", x);
  }

  /** A text that begins with a token does so with anything after a blank. */
  lemma StillStarts(a: string, b: string)
    requires StartsWithToken(a) && Closed(a)
    ensures StartsWithToken(a + (" " + b))
  {
    hide Munch;
    assert (" " + b)[0] == ' ' && Breaks(' ');
    BreaksSeam(a, " " + b);
    MunchLocal(a, " " + b);
  }

  /**
   * What stands in a literal is not code: the text before it and the literal are one statement, decided by the
   * tokens before it and one more, whatever statements, names and marks the literal holds.
   */
  lemma LiteralIsNotCode(a: string, x: string, kind: TokenKind)
    requires Closed(a) && StartsWithToken(a) && (forall t | t in Tokens(a) :: !IsPunct(t, ";"))
    requires OneToken(x, kind) && kind != Punct && EndsSolid(x)
    ensures Statements(a + (" " + x))
         == [Statement(a + (" " + x), Tokens(a) + [Moved(Token(kind, x, 0, |x|), |a| + 1)], 0, |a| + 1 + |x|)]
  {
    hide LexFrom, Munch, Closed, StartsWithToken, Statements;
    var s, t := a + (" " + x), Moved(Token(kind, x, 0, |x|), |a| + 1);
    OneMoreToken(a, x, kind);
    StillStarts(a, x);
    assert s[|s| - 1] == x[|x| - 1];
    WholeStatement(s);
  }
}
