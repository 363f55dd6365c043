/** Printing names into statements and reading them back through the guard. */
module SqlNames {
  import opened Text
  import opened SqlLexer
  import opened SqlLexing
  import opened SqlSplit
  import opened SqlGuard
  import opened SqlScripts

  // --- a name as it can be written ---

  /** An unquoted word, or the body of a quoted identifier. */
  datatype Part = Bare(word: string) | Quoted(body: string)

  function Doubled(body: string): string {
    if body == "" then ""
    else (if body[0] == '"' then "\"\"" else [body[0]]) + Doubled(body[1..])
  }

  function PartText(p: Part): string {
    match p
    case Bare(w) => w
    case Quoted(body) => "\"" + (Doubled(body) + "\"")
  }

  /** A name that is the same without quotes: lower-case letters, digits, underscores and dollars, and no digit or dollar first. */
  predicate NeedsNoQuotes(body: string) {
    && body != "" && ('a' <= body[0] <= 'z' || body[0] == '_')
    && forall c | c in body :: 'a' <= c <= 'z' || '0' <= c <= '9' || c == '_' || c == '$'
  }

  lemma PlainNameIff(body: string)
    ensures IsPlainName(body) <==> NeedsNoQuotes(body)
  {
    assert IsPlainName(body) ==> forall i | 0 <= i < |body| :: IsPlainChar(body[i]);
    assert NeedsNoQuotes(body) ==> forall i | 0 <= i < |body| :: body[i] in body;
  }

  /** Verbatim, except that quotes which mean nothing are dropped. */
  function PartShown(p: Part): string {
    match p
    case Bare(w) => w
    case Quoted(body) => if NeedsNoQuotes(body) then body else PartText(p)
  }

  predicate PartOk(p: Part) {
    p.Bare? ==> IsWord(p.word) && !IsSpace(p.word[|p.word| - 1])
  }

  function PartPiece(p: Part): Piece {
    match p
    case Bare(w) => Piece(Word, Upper(w), w)
    case Quoted(_) => Piece(Ident, PartText(p), ShownIdent(PartText(p)))
  }

  type Name = ps: seq<Part> | |ps| > 0 witness [Bare("")]

  predicate NameOk(n: Name) {
    forall p | p in n :: PartOk(p)
  }

  function TailText(ps: seq<Part>): string {
    if ps == [] then "" else "." + (PartText(ps[0]) + TailText(ps[1..]))
  }

  function NameText(n: Name): string {
    PartText(n[0]) + TailText(n[1..])
  }

  function PartsShown(ps: seq<Part>): (r: seq<string>)
    ensures |r| == |ps|
  {
    if ps == [] then [] else [PartShown(ps[0])] + PartsShown(ps[1..])
  }

  function NameShown(n: Name): string {
    Join(PartsShown(n), ".")
  }

  // --- lexing one part ---

  lemma {:induction false} QuoteReadsDoubled(body: string, rest: string)
    requires rest == "" || rest[0] != '"'
    ensures QuoteSpan(Doubled(body) + ("\"" + rest), '"') == Span(|Doubled(body)| + 1, true)
  {
    var s := Doubled(body) + ("\"" + rest);
    if body == "" {
      assert s == "\"" + rest;
    } else if body[0] == '"' {
      assert s[2..] == Doubled(body[1..]) + ("\"" + rest);
      QuoteReadsDoubled(body[1..], rest);
    } else {
      assert s[1..] == Doubled(body[1..]) + ("\"" + rest);
      QuoteReadsDoubled(body[1..], rest);
    }
  }

  /** A quoted identifier is one token, whatever its body holds. */
  lemma QuotedIsOneToken(body: string)
    ensures var s := PartText(Quoted(body));
            && Closed(s) && !EndsInNumber(s)
            && Tokens(s) == [Token(Ident, s, 0, |s|)]
  {
    var s := PartText(Quoted(body));
    QuoteReadsDoubled(body, "");
    assert s[1..] == Doubled(body) + ("\"" + "");
    hide LexFrom, Munch;
    MunchQuoted(s);
    LexOne(s, 0);
    assert Drop(s, |s|) == "";
  }

  lemma BareIsOneToken(w: string)
    requires IsWord(w)
    ensures Closed(w) && !EndsInNumber(w)
    ensures Tokens(w) == [Token(Word, Upper(w), 0, |w|)]
  {
    hide LexFrom, Munch, Upper;
    OneWord(w, 0);
    MunchWord(w);
    WordsOnly(w[1..]);
  }

  lemma ShownIsPart(p: Part)
    requires p.Quoted?
    ensures ShownIdent(PartText(p)) == PartShown(p)
  {
    var s := PartText(p);
    var inner := s[1..|s| - 1];
    assert inner == Doubled(p.body);
    PlainNameIff(p.body);
    hide NeedsNoQuotes;
    if IsPlainName(p.body) {
      PlainIsNotDoubled(p.body);
    } else {
      DoubledPlain(p.body);
    }
  }

  lemma {:induction false} PlainIsNotDoubled(body: string)
    requires forall i | 0 <= i < |body| :: IsPlainChar(body[i])
    ensures Doubled(body) == body
  {
    if body != "" {
      assert IsPlainChar(body[0]);
      PlainIsNotDoubled(body[1..]);
    }
  }

  lemma DoubledPlain(body: string)
    requires !IsPlainName(body)
    ensures !IsPlainName(Doubled(body))
  {
    if IsPlainName(Doubled(body)) {
      DoubledPlainChars(body);
      PlainIsNotDoubled(body);
    }
  }

  lemma {:induction false} DoubledPlainChars(body: string)
    requires forall i | 0 <= i < |Doubled(body)| :: IsPlainChar(Doubled(body)[i])
    ensures forall i | 0 <= i < |body| :: IsPlainChar(body[i])
  {
    if body != "" {
      var d := Doubled(body);
      assert IsPlainChar(d[0]);
      assert d[1..] == Doubled(body[1..]);
      DoubledPlainChars(body[1..]);
    }
  }

  lemma PartView(p: Part)
    requires PartOk(p)
    ensures Closed(PartText(p)) && !EndsInNumber(PartText(p))
    ensures View(PartText(p)) == [PartPiece(p)]
    ensures PartPiece(p).shown == PartShown(p)
  {
    hide Tokens, Closed, EndsInNumber, ShownIdent, Upper, Doubled;
    var s := PartText(p);
    match p {
      case Bare(w) =>
        BareIsOneToken(w);
        assert Cut(w, 0, |w|) == w;
      case Quoted(body) =>
        QuotedIsOneToken(body);
        ShownIsPart(p);
    }
  }

  // --- marks and blanks in front of a text ---

  predicate IsLoneMark(c: char) {
    c == '.' || c == ',' || c == ';' || c == '(' || c == ')' || c == '*'
  }

  lemma MarkClosed(c: char, rest: string)
    requires IsLoneMark(c)
    ensures Closed([c] + rest) == Closed(rest)
  {
    var s := [c] + rest;
    assert Munch(s) == Lexeme(Some(Punct), Span(1, true));
    hide Munch;
    assert Drop(s, 1) == rest;
  }

  lemma MarkTokens(c: char, rest: string)
    requires IsLoneMark(c)
    ensures Tokens([c] + rest) == [Token(Punct, [c], 0, 1)] + LexFrom(rest, 1)
  {
    var s := [c] + rest;
    assert Munch(s) == Lexeme(Some(Punct), Span(1, true));
    hide Munch, LexFrom;
    LexHead(s, 0);
    assert Drop(s, 1) == rest && Take(s, 1) == [c];
  }

  lemma MarkFirst(c: char, rest: string)
    requires IsLoneMark(c)
    ensures Closed([c] + rest) == Closed(rest)
    ensures View([c] + rest) == [Piece(Punct, [c], [c])] + View(rest)
  {
    hide Closed, Tokens, LexFrom, ShownIdent, ViewOf;
    var s := [c] + rest;
    MarkClosed(c, rest);
    MarkTokens(c, rest);
    ViewOfAppend(s, [Token(Punct, [c], 0, 1)], LexFrom(rest, 1));
    LexShift(rest, 0, 1);
    TokensAre(rest);
    ViewOfMoved([c], rest, Tokens(rest));
    OneMarkView(c, rest);
  }

  lemma OneMarkView(c: char, rest: string)
    ensures ViewOf([c] + rest, [Token(Punct, [c], 0, 1)]) == [Piece(Punct, [c], [c])]
  {
    assert Cut([c] + rest, 0, 1) == [c];
  }

  lemma BlankFirst(rest: string)
    ensures Closed(" " + rest) == Closed(rest)
    ensures View(" " + rest) == View(rest)
  {
    hide LexFrom, Munch, ViewOf;
    ClosedTrivia(" ", rest);
    BlankIsTrivia(" ");
    ComposeTrivia(" ", rest, 0);
    LexShift(rest, 0, 1);
    ViewOfMoved(" ", rest, Tokens(rest));
  }

  const DOT := Piece(Punct, ".", ".")
  const COMMA := Piece(Punct, ",", ",")

  function TailPieces(ps: seq<Part>): seq<Piece> {
    if ps == [] then [] else [DOT, PartPiece(ps[0])] + TailPieces(ps[1..])
  }

  function NamePieces(n: Name): seq<Piece> {
    [PartPiece(n[0])] + TailPieces(n[1..])
  }

  /** The pieces of a name followed by anything that breaks off words. */
  lemma {:induction false} TailView(ps: seq<Part>, rest: string)
    requires forall p | p in ps :: PartOk(p)
    requires rest == "" || Breaks(rest[0])
    ensures Closed(TailText(ps) + rest) == Closed(rest)
    ensures View(TailText(ps) + rest) == TailPieces(ps) + View(rest)
  {
    hide Closed, View, PartOk, PartText, PartPiece;
    if ps == [] {
      assert TailText(ps) + rest == rest;
      assert [] + View(rest) == View(rest);
    } else {
      TailView(ps[1..], rest);
      TailStep(ps, rest);
    }
  }

  lemma TailStep(ps: seq<Part>, rest: string)
    requires ps != [] && PartOk(ps[0]) && (rest == "" || Breaks(rest[0]))
    requires View(TailText(ps[1..]) + rest) == TailPieces(ps[1..]) + View(rest)
    ensures Closed(TailText(ps) + rest) == Closed(TailText(ps[1..]) + rest)
    ensures View(TailText(ps) + rest) == TailPieces(ps) + View(rest)
  {
    hide Closed, View, PartOk, PartText, PartPiece, TailPieces, Breaks;
    var after := TailText(ps[1..]) + rest;
    var x := PartText(ps[0]);
    TailTextStep(ps, rest);
    MarkFirst('.', x + after);
    TailStarts(ps[1..], rest);
    PartThen(ps[0], after);
    TailPiecesStep(ps, View(rest));
  }

  lemma TailTextStep(ps: seq<Part>, rest: string)
    requires ps != []
    ensures TailText(ps) + rest == ['.'] + (PartText(ps[0]) + (TailText(ps[1..]) + rest))
  {
    hide PartText;
  }

  lemma TailPiecesStep(ps: seq<Part>, v: seq<Piece>)
    requires ps != []
    ensures [DOT] + ([PartPiece(ps[0])] + (TailPieces(ps[1..]) + v)) == TailPieces(ps) + v
  {
    hide PartPiece;
  }

  lemma PartThen(p: Part, after: string)
    requires PartOk(p) && (after == "" || Breaks(after[0]) || after[0] == '.')
    ensures Closed(PartText(p) + after) == Closed(after)
    ensures View(PartText(p) + after) == [PartPiece(p)] + View(after)
  {
    hide Closed, EndsInNumber, View, PartText, PartPiece, Breaks;
    PartView(p);
    ViewCompose(PartText(p), after);
    ClosedCompose(PartText(p), after);
  }

  lemma NameView(n: Name, rest: string)
    requires NameOk(n) && (rest == "" || Breaks(rest[0]))
    ensures Closed(NameText(n) + rest) == Closed(rest)
    ensures View(NameText(n) + rest) == NamePieces(n) + View(rest)
  {
    hide Closed, View, PartOk, PartText, PartPiece;
    TailView(n[1..], rest);
    TailStarts(n[1..], rest);
    PartThen(n[0], TailText(n[1..]) + rest);
    assert NameText(n) + rest == PartText(n[0]) + (TailText(n[1..]) + rest);
    Associative([PartPiece(n[0])], TailPieces(n[1..]), View(rest));
  }

  lemma TailStarts(ps: seq<Part>, rest: string)
    ensures var s := TailText(ps) + rest; ps == [] || s[0] == '.'
    ensures ps == [] ==> TailText(ps) + rest == rest
  {
  }

  // --- reading names back ---

  lemma {:induction false} DottedTailReads(all: seq<Piece>, i: nat, ps: seq<Part>, post: seq<Piece>)
    requires i <= |all| && all[i..] == TailPieces(ps) + post
    requires post == [] || !IsMark(post[0], ".")
    requires forall p | p in ps :: PartOk(p)
    ensures DottedTail(all, i) == (PartsShown(ps), i + |TailPieces(ps)|)
    decreases |ps|
  {
    hide PartOk, PartPiece;
    if ps == [] {
      assert all[i..] == post;
      assert i < |all| ==> all[i] == post[0];
    } else {
      assert all[i] == all[i..][0] && all[i + 1] == all[i..][1];
      assert all[i + 2..] == all[i..][2..] == TailPieces(ps[1..]) + post;
      PartIsName(ps[0]);
      DottedTailReads(all, i + 2, ps[1..], post);
    }
  }

  lemma PartIsName(p: Part)
    requires PartOk(p)
    ensures IsName(PartPiece(p)) && PartPiece(p).shown == PartShown(p)
  {
    hide Upper, ShownIdent;
    PartView(p);
  }

  lemma DottedNameReads(all: seq<Piece>, i: nat, n: Name, post: seq<Piece>)
    requires i <= |all| && all[i..] == NamePieces(n) + post
    requires post == [] || !IsMark(post[0], ".")
    requires NameOk(n)
    ensures DottedName(all, i) == Some(Dotted(NameShown(n), i + |NamePieces(n)|))
  {
    hide PartOk, PartPiece, DottedTail, Join;
    assert all[i] == all[i..][0] && all[i + 1..] == all[i..][1..] == TailPieces(n[1..]) + post;
    PartIsName(n[0]);
    DottedTailReads(all, i + 1, n[1..], post);
  }

  function ListPieces(ns: seq<Name>): seq<Piece>
    requires |ns| > 0
  {
    if |ns| == 1 then NamePieces(ns[0]) else NamePieces(ns[0]) + ([COMMA] + ListPieces(ns[1..]))
  }

  function NamesShown(ns: seq<Name>): (r: seq<string>)
    ensures |r| == |ns|
  {
    if ns == [] then [] else [NameShown(ns[0])] + NamesShown(ns[1..])
  }

  lemma {:induction false} NamesFromReads(all: seq<Piece>, i: nat, ns: seq<Name>, post: seq<Piece>)
    requires |ns| > 0 && i <= |all| && all[i..] == ListPieces(ns) + post
    requires post == [] || (!IsMark(post[0], ".") && !IsMark(post[0], ","))
    requires forall n | n in ns :: NameOk(n)
    ensures NamesFrom(all, i) == NamesShown(ns)
    decreases |ns|
  {
    hide NamePieces, NameOk, DottedName, NameShown, NamesFrom;
    var k := |NamePieces(ns[0])|;
    NamesStep(all, i);
    if |ns| == 1 {
      DottedNameReads(all, i, ns[0], post);
      assert i + k < |all| ==> all[i + k] == all[i..][k] == post[0];
      assert NamesShown(ns) == [NameShown(ns[0])] + NamesShown([]);
    } else {
      var more := [COMMA] + (ListPieces(ns[1..]) + post);
      Regroup(NamePieces(ns[0]), COMMA, ListPieces(ns[1..]), post);
      DottedNameReads(all, i, ns[0], more);
      SplitAt(all, i, NamePieces(ns[0]), COMMA, ListPieces(ns[1..]) + post);
      NamesFromReads(all, i + k + 1, ns[1..], post);
    }
  }

  lemma Regroup<T>(x: seq<T>, c: T, y: seq<T>, z: seq<T>)
    ensures (x + ([c] + y)) + z == x + ([c] + (y + z))
  {
  }

  lemma SplitAt<T>(all: seq<T>, i: nat, x: seq<T>, c: T, y: seq<T>)
    requires i <= |all| && all[i..] == x + ([c] + y)
    ensures i + |x| < |all| && all[i + |x|] == c && all[i + |x| + 1..] == y
  {
    assert all[i + |x|] == all[i..][|x|];
    assert all[i + |x| + 1..] == all[i..][|x| + 1..];
  }

  lemma NamesStep(ps: seq<Piece>, i: nat)
    ensures DottedName(ps, i).Some? ==>
              var got := DottedName(ps, i).value;
              NamesFrom(ps, i) == [got.name]
                + (if got.next < |ps| && IsMark(ps[got.next], ",") then NamesFrom(ps, got.next + 1) else [])
  {
    hide DottedName;
  }

  function ListText(ns: seq<Name>): string
    requires |ns| > 0
  {
    if |ns| == 1 then NameText(ns[0]) else NameText(ns[0]) + (", " + ListText(ns[1..]))
  }

  lemma {:induction false} ListView(ns: seq<Name>, rest: string)
    requires |ns| > 0 && forall n | n in ns :: NameOk(n)
    requires rest == "" || Breaks(rest[0])
    ensures Closed(ListText(ns) + rest) == Closed(rest)
    ensures View(ListText(ns) + rest) == ListPieces(ns) + View(rest)
    decreases |ns|
  {
    hide Closed, View, NameText, NamePieces, NameOk;
    if |ns| == 1 {
      NameView(ns[0], rest);
    } else {
      var tail := ListText(ns[1..]) + rest;
      var after := [','] + (" " + tail);
      assert ListText(ns) + rest == NameText(ns[0]) + after;
      ListView(ns[1..], rest);
      NameView(ns[0], after);
      MarkFirst(',', " " + tail);
      BlankFirst(tail);
      assert NamePieces(ns[0]) + ([COMMA] + (ListPieces(ns[1..]) + View(rest)))
          == (NamePieces(ns[0]) + ([COMMA] + ListPieces(ns[1..]))) + View(rest);
    }
  }
}
