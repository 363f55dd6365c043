/** What the guard asks to be typed back for printed DROP statements. */
module SqlDrops {
  import opened Text
  import opened SqlLexer
  import opened SqlLexing
  import opened SqlSplit
  import opened SqlGuard
  import opened SqlScripts
  import opened SqlNames

  // --- a text that is one statement ---

  lemma {:induction false} RunWithoutSemicolon(sql: string, toks: seq<Token>)
    requires forall t | t in toks :: !IsPunct(t, ";")
    ensures Run(sql, toks, START).out == [] && Run(sql, toks, START).pending == toks
  {
    hide Pushed, IsPunct, Run;
    if toks == [] {
      RunNil(sql, START);
    } else {
      var front, last := toks[..|toks| - 1], toks[|toks| - 1];
      RunWithoutSemicolon(sql, front);
      assert toks == front + [last];
      assert last in toks;
      RunSnoc(sql, toks, |toks| - 1, START);
      assert toks[..|toks|] == toks;
      KeepsPending(sql, Run(sql, front, START), last);
    }
  }

  lemma KeepsPending(sql: string, p: Progress, t: Token)
    requires !IsPunct(t, ";")
    ensures Advance(sql, p, t).out == p.out && Advance(sql, p, t).pending == p.pending + [t]
  {
    hide Pushed, IsPunct;
  }

  /** It ends in a character that `trim` keeps. */
  predicate EndsSolid(s: string) {
    s != "" && !IsSpace(s[|s| - 1])
  }

  predicate StartsWithToken(s: string) {
    s != "" && Munch(s).kind.Some?
  }

  lemma TokenStartIsSolid(s: string)
    requires StartsWithToken(s)
    ensures !IsSpace(s[0])
    ensures Tokens(s) != [] && Tokens(s)[0].start == 0
  {
    assert !IsSpace(s[0]);
    hide Munch, Upper, LexFrom;
    LexHead(s, 0);
  }

  lemma WholeStatement(s: string)
    requires StartsWithToken(s) && EndsSolid(s)
    requires forall t | t in Tokens(s) :: !IsPunct(t, ";")
    ensures Statements(s) == [Statement(s, Tokens(s), 0, |s|)]
  {
    hide Tokens, Munch, Run;
    TokenStartIsSolid(s);
    RunWithoutSemicolon(s, Tokens(s));
    assert Cut(s, 0, |s|) == s;
    assert Trim(s) == s;
    assert [] + [Statement(s, Tokens(s), 0, |s|)] == [Statement(s, Tokens(s), 0, |s|)];
  }

  predicate NoSemicolon(ps: seq<Piece>) {
    forall p | p in ps :: !IsMark(p, ";")
  }

  lemma ClassifyWhole(s: string)
    requires StartsWithToken(s) && EndsSolid(s) && NoSemicolon(View(s))
    ensures Classify(s) == ScriptOf([ClassifiedAs(s, View(s))])
  {
    hide Tokens, Munch, ScriptOf, ClassifiedAs, ShownIdent, Statements;
    forall t | t in Tokens(s) ensures !IsPunct(t, ";") {
      var i :| 0 <= i < |Tokens(s)| && Tokens(s)[i] == t;
      assert View(s)[i] in View(s);
    }
    WholeStatement(s);
    assert Pieces(Statement(s, Tokens(s), 0, |s|)) == View(s);
    assert ClassifyEach(Statements(s)) == [ClassifiedAs(s, View(s))];
  }

  lemma ScriptOfOne(c: Classified)
    ensures var script := ScriptOf([c]);
            && script.statements == [c] && script.danger == c.danger
            && script.namesToType == Distinct(c.names)
            && script.ownsTransaction == c.transactionControl
            && script.limitable == (if c.limitable then Some(c) else None)
  {
    hide Distinct;
    var cs := [c];
    assert cs[..0] == [];
    assert AllNames(cs) == AllNames([]) + c.names == c.names;
    assert Worst(cs) == Max(Worst([]), c.danger) == c.danger;
    assert OwnsTransaction(cs) == cs[0].transactionControl;
  }

  // --- leading words ---

  function WordsText(ws: seq<string>, rest: string): string {
    if ws == [] then rest else ws[0] + (" " + WordsText(ws[1..], rest))
  }

  function WordPiece(w: string): Piece {
    Piece(Word, Upper(w), w)
  }

  function WordPieces(ws: seq<string>): (r: seq<Piece>)
    ensures |r| == |ws|
    ensures forall i | 0 <= i < |ws| :: r[i] == WordPiece(ws[i])
  {
    if ws == [] then [] else [WordPiece(ws[0])] + WordPieces(ws[1..])
  }

  predicate AllWords(ws: seq<string>) {
    forall w | w in ws :: IsWord(w)
  }

  lemma WordThen(w: string, after: string)
    requires IsWord(w) && (after == "" || Breaks(after[0]))
    ensures Closed(w + after) == Closed(after)
    ensures View(w + after) == [WordPiece(w)] + View(after)
  {
    hide Closed, EndsInNumber, Tokens, Upper, IsWord, ViewOf;
    BareIsOneToken(w);
    ViewCompose(w, after);
    ClosedCompose(w, after);
    OneWordView(w);
  }

  lemma OneWordView(w: string)
    ensures ViewOf(w, [Token(Word, Upper(w), 0, |w|)]) == [WordPiece(w)]
  {
    hide Upper;
    assert Cut(w, 0, |w|) == w;
  }

  lemma {:induction false} WordsView(ws: seq<string>, rest: string)
    requires AllWords(ws)
    ensures Closed(WordsText(ws, rest)) == Closed(rest)
    ensures View(WordsText(ws, rest)) == WordPieces(ws) + View(rest)
  {
    hide Closed, View, IsWord, Upper, Breaks;
    if ws == [] {
      assert [] + View(rest) == View(rest);
    } else {
      var tail := WordsText(ws[1..], rest);
      WordsView(ws[1..], rest);
      BlankBreaks(tail);
      WordThen(ws[0], " " + tail);
      BlankFirst(tail);
      Associative([WordPiece(ws[0])], WordPieces(ws[1..]), View(rest));
    }
  }

  lemma BlankBreaks(tail: string)
    ensures (" " + tail)[0] == ' ' && Breaks(' ')
  {
  }

  lemma WordStartsToken(w: string, rest: string)
    requires IsWord(w)
    ensures StartsWithToken(w + (" " + rest))
    ensures EndsSolid(rest) ==> EndsSolid(w + (" " + rest))
  {
    hide Munch;
    var s := w + (" " + rest);
    assert s[0] == w[0] && s[1] == if |w| > 1 then w[1] else ' ';
    assert |w| > 1 ==> IsWordChar(w[1]);
    assert s[1] != '\'';
    MunchWord(s);
  }

  lemma {:induction false} WordsEndSolid(ws: seq<string>, rest: string)
    requires EndsSolid(rest)
    ensures EndsSolid(WordsText(ws, rest))
  {
    hide IsSpace;
    if ws != [] {
      WordsEndSolid(ws[1..], rest);
    }
  }

  lemma {:induction false} SkipReads(all: seq<Piece>, i: nat, end: nat)
    requires i <= end <= |all|
    requires forall j | i <= j < end :: all[j].kind == Word && IsSkip(all[j].value)
    requires end == |all| || !(all[end].kind == Word && IsSkip(all[end].value))
    ensures SkipFrom(all, i) == end
    decreases end - i
  {
    hide IsSkip;
    if i < end {
      SkipReads(all, i + 1, end);
    }
  }

  // --- solid ends and semicolon-free pieces of names ---

  lemma PartEndsSolid(p: Part)
    requires PartOk(p)
    ensures EndsSolid(PartText(p))
  {
  }

  lemma {:induction false} TailEndsSolid(ps: seq<Part>)
    requires ps != [] && forall p | p in ps :: PartOk(p)
    ensures EndsSolid(TailText(ps))
  {
    hide PartOk, PartText, IsSpace;
    PartEndsSolid(ps[0]);
    if |ps| > 1 {
      TailEndsSolid(ps[1..]);
    }
  }

  lemma NameEndsSolid(n: Name)
    requires NameOk(n)
    ensures EndsSolid(NameText(n))
  {
    hide PartOk, PartText, IsSpace;
    PartEndsSolid(n[0]);
    if |n| > 1 {
      TailEndsSolid(n[1..]);
    }
  }

  lemma {:induction false} ListEndsSolid(ns: seq<Name>)
    requires |ns| > 0 && forall n | n in ns :: NameOk(n)
    ensures EndsSolid(ListText(ns))
  {
    hide NameOk, NameText, IsSpace;
    NameEndsSolid(ns[0]);
    if |ns| > 1 {
      ListEndsSolid(ns[1..]);
    }
  }

  lemma {:induction false} TailHasNoSemicolon(ps: seq<Part>)
    ensures NoSemicolon(TailPieces(ps))
  {
    hide PartText, Upper, ShownIdent;
    if ps != [] {
      TailHasNoSemicolon(ps[1..]);
    }
  }

  lemma NameHasNoSemicolon(n: Name)
    ensures NoSemicolon(NamePieces(n))
  {
    hide PartText, Upper, ShownIdent;
    TailHasNoSemicolon(n[1..]);
  }

  lemma {:induction false} ListHasNoSemicolon(ns: seq<Name>)
    requires |ns| > 0
    ensures NoSemicolon(ListPieces(ns))
  {
    hide NamePieces;
    NameHasNoSemicolon(ns[0]);
    if |ns| > 1 {
      ListHasNoSemicolon(ns[1..]);
    }
  }

  lemma WordsHaveNoSemicolon(ws: seq<string>)
    ensures NoSemicolon(WordPieces(ws))
  {
    hide Upper;
  }

  lemma NoSemicolonAppend(x: seq<Piece>, y: seq<Piece>)
    requires NoSemicolon(x) && NoSemicolon(y)
    ensures NoSemicolon(x + y)
  {
  }

  // --- DROP TABLE / DROP SCHEMA ---

  /** `DROP TABLE`, `drop schema if exists`, …: a command and words to skip. */
  predicate HeadOk(ws: seq<string>, command: string) {
    && |ws| >= 2 && AllWords(ws)
    && Upper(ws[0]) == command
    && forall i | 1 <= i < |ws| :: IsSkip(Upper(ws[i]))
  }

  /** An unquoted first word in the skip set would be read as part of the command. */
  predicate StartsList(n: Name) {
    n[0].Bare? ==> !IsSkip(Upper(n[0].word))
  }

  /** Nothing, or one trailing word such as CASCADE. */
  datatype Ending = NoEnding | Trailing(word: string)

  predicate EndingOk(e: Ending) {
    e.Trailing? ==> IsWord(e.word) && !IsSpace(e.word[|e.word| - 1])
  }

  function EndingText(e: Ending): string {
    match e
    case NoEnding => ""
    case Trailing(w) => " " + w
  }

  function EndingPieces(e: Ending): seq<Piece> {
    match e
    case NoEnding => []
    case Trailing(w) => [WordPiece(w)]
  }

  function DropText(ws: seq<string>, ns: seq<Name>, e: Ending): string
    requires |ns| > 0
  {
    WordsText(ws, ListText(ns) + EndingText(e))
  }

  function DropPieces(ws: seq<string>, ns: seq<Name>, e: Ending): seq<Piece>
    requires |ns| > 0
  {
    WordPieces(ws) + (ListPieces(ns) + EndingPieces(e))
  }

  lemma EndingView(e: Ending)
    requires EndingOk(e)
    ensures Closed(EndingText(e)) && View(EndingText(e)) == EndingPieces(e)
    ensures EndingText(e) == "" || Breaks(EndingText(e)[0])
    ensures NoSemicolon(EndingPieces(e))
  {
    hide IsWord, Upper;
    if e.Trailing? {
      EndingWordView(e.word);
    } else {
      EmptyView();
    }
  }

  lemma EmptyView()
    ensures Closed("") && View("") == []
  {
    LexNil(0);
  }

  lemma EndingWordView(w: string)
    requires IsWord(w)
    ensures Closed(" " + w) && View(" " + w) == [WordPiece(w)]
  {
    hide Closed, View, Upper, IsWord;
    EmptyView();
    WordThen(w, "");
    assert w + "" == w;
    BlankFirst(w);
    assert [WordPiece(w)] + [] == [WordPiece(w)];
  }

  lemma DropView(ws: seq<string>, ns: seq<Name>, e: Ending)
    requires |ns| > 0 && AllWords(ws) && EndingOk(e) && forall n | n in ns :: NameOk(n)
    ensures View(DropText(ws, ns, e)) == DropPieces(ws, ns, e)
    ensures NoSemicolon(DropPieces(ws, ns, e))
  {
    hide *;
    EndingView(e);
    ListView(ns, EndingText(e));
    WordsView(ws, ListText(ns) + EndingText(e));
    DropUnfolds(ws, ns, e);
    WordsHaveNoSemicolon(ws);
    ListHasNoSemicolon(ns);
    NoSemicolonAppend(ListPieces(ns), EndingPieces(e));
    NoSemicolonAppend(WordPieces(ws), ListPieces(ns) + EndingPieces(e));
  }

  lemma DropUnfolds(ws: seq<string>, ns: seq<Name>, e: Ending)
    requires |ns| > 0
    ensures DropText(ws, ns, e) == WordsText(ws, ListText(ns) + EndingText(e))
    ensures DropPieces(ws, ns, e) == WordPieces(ws) + (ListPieces(ns) + EndingPieces(e))
  {
    hide WordsText, ListText, EndingText, WordPieces, ListPieces, EndingPieces;
  }

  lemma DropIsOneStatement(ws: seq<string>, ns: seq<Name>, e: Ending)
    requires |ns| > 0 && |ws| >= 1 && AllWords(ws) && EndingOk(e) && forall n | n in ns :: NameOk(n)
    ensures StartsWithToken(DropText(ws, ns, e)) && EndsSolid(DropText(ws, ns, e))
  {
    hide StartsWithToken, NameOk, IsWord, ListText, IsSpace;
    var rest := ListText(ns) + EndingText(e);
    ListEndsSolid(ns);
    if e.NoEnding? {
      assert rest == ListText(ns);
    } else {
      assert rest[|rest| - 1] == e.word[|e.word| - 1] by { WordNotEmpty(e.word); }
    }
    WordsEndSolid(ws, rest);
    WordStartsToken(ws[0], WordsText(ws[1..], rest));
  }

  lemma WordNotEmpty(w: string)
    requires IsWord(w)
    ensures w != ""
  {
  }

  lemma HeadThenList(ws: seq<string>, ns: seq<Name>, post: seq<Piece>, all: seq<Piece>)
    requires |ns| > 0 && |ws| >= 1 && all == WordPieces(ws) + (ListPieces(ns) + post)
    requires forall i | 1 <= i < |ws| :: IsSkip(Upper(ws[i]))
    requires StartsList(ns[0])
    ensures NameListStart(all) == |ws| && all[|ws|..] == ListPieces(ns) + post
  {
    hide IsSkip, Upper, PartText, ShownIdent, TailPieces;
    assert all[|ws|] == PartPiece(ns[0][0]) by {
      assert ListPieces(ns)[0] == NamePieces(ns[0])[0];
    }
    SkipReads(all, 1, |ws|);
  }

  /**
   * Every name of a printed DROP TABLE or DROP SCHEMA list is asked for, in order,
   * as written but without redundant quotes; a trailing CASCADE is not a name.
   */
  lemma DropAsksForEveryName(ws: seq<string>, ns: seq<Name>, e: Ending)
    requires HeadOk(ws, "DROP") && (Upper(ws[1]) == "TABLE" || Upper(ws[1]) == "SCHEMA")
    requires |ns| > 0 && StartsList(ns[0]) && EndingOk(e) && forall n | n in ns :: NameOk(n)
    ensures var script := Classify(DropText(ws, ns, e));
            && |script.statements| == 1
            && script.danger == TypeName
            && script.statements[0].names == NamesShown(ns)
            && script.namesToType == Distinct(NamesShown(ns))
  {
    hide *;
    var s, all := DropText(ws, ns, e), DropPieces(ws, ns, e);
    HeadFacts(ws, "DROP");
    DropView(ws, ns, e);
    DropIsOneStatement(ws, ns, e);
    ClassifyWhole(s);
    ScriptOfOne(ClassifiedAs(s, all));
    DropPiecesAskForEveryName(ws, ns, e);
    ClassifiedFacts(s, all);
  }

  lemma HeadFacts(ws: seq<string>, command: string)
    requires HeadOk(ws, command)
    ensures |ws| >= 2 && AllWords(ws)
  {
  }

  lemma ClassifiedFacts(s: string, all: seq<Piece>)
    ensures var c, v := ClassifiedAs(s, all), DangerOf(all);
            c.danger == v.danger && c.names == v.names && c.subject == v.subject
    ensures ClassifiedAs(s, all).limitable == IsLimitable(all)
  {
    hide DangerOf, IsLimitable;
  }

  lemma DropPiecesAskForEveryName(ws: seq<string>, ns: seq<Name>, e: Ending)
    requires HeadOk(ws, "DROP") && (Upper(ws[1]) == "TABLE" || Upper(ws[1]) == "SCHEMA")
    requires |ns| > 0 && StartsList(ns[0]) && forall n | n in ns :: NameOk(n)
    ensures DangerOf(DropPieces(ws, ns, e)) == Verdict(TypeName, Some(NameShown(ns[0])), NamesShown(ns))
  {
    hide Upper, IsSkip, ListPieces, NameOk, NamesFrom, NameListStart, NameShown, StartsList, IsWord, DangerOf;
    var all := DropPieces(ws, ns, e);
    HeadThenList(ws, ns, EndingPieces(e), all);
    NamesFromReads(all, |ws|, ns, EndingPieces(e));
    assert all[0] == WordPiece(ws[0]) && all[1] == WordPiece(ws[1]);
    DropDanger(all);
  }

  lemma DropDanger(all: seq<Piece>)
    requires WordAt(all, 0, "DROP") && (WordAt(all, 1, "TABLE") || WordAt(all, 1, "SCHEMA"))
    ensures DangerOf(all)
         == Verdict(if ObjectNames(all) == [] then Confirm else TypeName, ObjectName(all), ObjectNames(all))
  {
    hide ObjectNames;
  }
}
