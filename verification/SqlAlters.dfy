/** What the guard asks to be typed back for printed ALTER statements, and which of them it reads as safe. */
module SqlAlters {
  import opened Text
  import opened SqlLexer
  import opened SqlLexing
  import opened SqlSplit
  import opened SqlGuard
  import opened SqlScripts
  import opened SqlNames
  import opened SqlDrops

  // --- actions and their text ---

  /** An action that drops what `name` names, perhaps with a CASCADE, or any other action, given by its text. */
  datatype Action = Dropping(words: seq<string>, name: Name, ending: Ending) | Keep(text: string)

  function Uppers(ws: seq<string>): (r: seq<string>)
    ensures |r| == |ws|
  {
    seq(|ws|, i requires 0 <= i < |ws| => Upper(ws[i]))
  }

  predicate DropsColumn(head: seq<string>) {
    || head == ["DROP"]
    || head == ["DROP", "COLUMN"]
    || head == ["DROP", "IF", "EXISTS"]
    || head == ["DROP", "COLUMN", "IF", "EXISTS"]
  }

  predicate DropsConstraint(head: seq<string>) {
    head == ["DROP", "CONSTRAINT"] || head == ["DROP", "CONSTRAINT", "IF", "EXISTS"]
  }

  /** What may follow DROP without the loss of a column. */
  const HARMLESS := ["DEFAULT", "NOT", "IDENTITY", "EXPRESSION", "GENERATED", "CLUSTER", "OIDS", "STATISTICS"]

  lemma HarmlessWords()
    ensures forall w :: IsDropNotColumn(w) <==> w in HARMLESS
  {
  }

  /** Whether `w`, written unquoted right after `head`, is read as a name. */
  predicate ReadsAsName(head: seq<string>, w: string) {
    && (|head| < 3 ==> w != "IF" && w != "EXISTS")
    && (|head| == 1 ==> w != "COLUMN" && w != "CONSTRAINT" && w !in HARMLESS)
  }

  /** A chunk is one action: no comma outside parentheses, which balance, and no semicolon. */
  predicate OneAction(q: seq<Piece>) {
    && q != [] && NoSemicolon(q) && !IsMark(q[0], ".")
    && ActionsUpTo(q, 0, |q|) == [0] && Depth(q, 0, |q|) == 0
  }

  /** An action that destroys nothing: it does not drop, or drops a default and the like. */
  predicate Harmless(q: seq<Piece>) {
    WordAt(q, 0, "DROP") ==> |q| > 1 && q[1].kind == Word && q[1].value in HARMLESS
  }

  /** The text of the action is one action. */
  predicate ActionFits(a: Action) {
    match a
    case Dropping(words, name, ending) =>
      AllWords(words) && NameOk(name) && EndingOk(ending) && (DropsColumn(Uppers(words)) || DropsConstraint(Uppers(words)))
    case Keep(text) =>
      Closed(text) && EndsSolid(text) && OneAction(View(text))
  }

  /** And it is read for what it is: a dropped name as a name, and the rest as dropping nothing. */
  predicate ActionReadable(a: Action) {
    match a
    case Dropping(words, name, _) => name[0].Bare? ==> ReadsAsName(Uppers(words), Upper(name[0].word))
    case Keep(text) => Harmless(View(text))
  }

  predicate ActionOk(a: Action) {
    ActionFits(a) && ActionReadable(a)
  }

  lemma OkFits(actions: seq<Action>)
    requires forall a | a in actions :: ActionOk(a)
    ensures forall a | a in actions :: ActionFits(a)
  {
    hide ActionFits, ActionReadable;
  }

  function ActionText(a: Action): string {
    match a
    case Dropping(words, name, ending) => WordsText(words, NameText(name) + EndingText(ending))
    case Keep(text) => text
  }

  function ActionPieces(a: Action): seq<Piece> {
    match a
    case Dropping(words, name, ending) => WordPieces(words) + (NamePieces(name) + EndingPieces(ending))
    case Keep(text) => View(text)
  }

  function ActionEffects(a: Action): Effects {
    match a
    case Dropping(words, name, _) =>
      if DropsColumn(Uppers(words)) then Effects([NameShown(name)], [], false)
      else Effects([], [NameShown(name)], false)
    case Keep(_) => NO_EFFECT
  }

  function Plus(e: Effects, f: Effects): Effects {
    Effects(e.columns + f.columns, e.constraints + f.constraints, e.unnamed || f.unnamed)
  }

  function ActionsEffects(actions: seq<Action>): Effects {
    if actions == [] then NO_EFFECT else Plus(ActionEffects(actions[0]), ActionsEffects(actions[1..]))
  }

  function ActionsText(actions: seq<Action>): string
    requires |actions| > 0
  {
    if |actions| == 1 then ActionText(actions[0])
    else ActionText(actions[0]) + (", " + ActionsText(actions[1..]))
  }

  function ActionsPieces(actions: seq<Action>): seq<Piece>
    requires |actions| > 0
  {
    if |actions| == 1 then ActionPieces(actions[0])
    else ActionPieces(actions[0]) + ([COMMA] + ActionsPieces(actions[1..]))
  }

  lemma {:induction false} WordsThen(ws: seq<string>, a: string, b: string)
    ensures WordsText(ws, a + b) == WordsText(ws, a) + b
  {
    if ws != [] {
      WordsThen(ws[1..], a, b);
      assert ws[0] + (" " + (WordsText(ws[1..], a) + b)) == (ws[0] + (" " + WordsText(ws[1..], a))) + b;
    }
  }

  lemma EndingThen(e: Ending, rest: string)
    requires EndingOk(e) && (rest == "" || Breaks(rest[0]))
    ensures View(EndingText(e) + rest) == EndingPieces(e) + View(rest)
    ensures Closed(EndingText(e) + rest) == Closed(rest)
    ensures EndingText(e) + rest == "" || Breaks((EndingText(e) + rest)[0])
  {
    hide Closed, View, IsWord, Upper, EndsInNumber;
    match e {
      case NoEnding =>
        assert "" + rest == rest;
        assert [] + View(rest) == View(rest);
      case Trailing(w) =>
        WordThen(w, rest);
        BlankFirst(w + rest);
        BlankBreaks(w + rest);
        assert (" " + w) + rest == " " + (w + rest);
    }
  }

  lemma ActionView(a: Action, rest: string)
    requires ActionFits(a) && (rest == "" || Breaks(rest[0]))
    ensures Closed(ActionText(a) + rest) == Closed(rest)
    ensures View(ActionText(a) + rest) == ActionPieces(a) + View(rest)
  {
    hide Closed, View, NameText, NamePieces, NameOk, WordPieces, WordsText, Breaks, EndsInNumber, EndingText, EndingPieces;
    hide Uppers, DropsColumn, DropsConstraint, IsWord, EndingOk;
    match a {
      case Dropping(words, name, ending) =>
        EndingThen(ending, rest);
        NameView(name, EndingText(ending) + rest);
        WordsView(words, NameText(name) + (EndingText(ending) + rest));
        WordsThen(words, NameText(name) + EndingText(ending), rest);
        Associative(NameText(name), EndingText(ending), rest);
        DroppingPieces(words, name, ending, View(rest));
      case Keep(text) =>
        KeepView(text, rest);
    }
  }

  lemma DroppingPieces(words: seq<string>, name: Name, ending: Ending, post: seq<Piece>)
    ensures ActionPieces(Dropping(words, name, ending)) + post
         == WordPieces(words) + (NamePieces(name) + (EndingPieces(ending) + post))
  {
    hide WordPieces, NamePieces, EndingPieces;
    Associative(NamePieces(name), EndingPieces(ending), post);
    Associative(WordPieces(words), NamePieces(name) + EndingPieces(ending), post);
  }

  lemma KeepView(text: string, rest: string)
    requires Closed(text) && (rest == "" || Breaks(rest[0]))
    ensures Closed(text + rest) == Closed(rest)
    ensures View(text + rest) == View(text) + View(rest)
  {
    hide Closed, View, EndsInNumber, Breaks;
    ViewCompose(text, rest);
    ClosedCompose(text, rest);
  }

  lemma {:induction false} ActionsView(actions: seq<Action>)
    requires |actions| > 0 && forall a | a in actions :: ActionFits(a)
    ensures View(ActionsText(actions)) == ActionsPieces(actions)
  {
    hide Closed, View, ActionText, ActionPieces, ActionFits;
    if |actions| == 1 {
      ActionView(actions[0], "");
      EmptyView();
      assert ActionText(actions[0]) + "" == ActionText(actions[0]);
      assert ActionPieces(actions[0]) + [] == ActionPieces(actions[0]);
    } else {
      ActionsView(actions[1..]);
      CommaView(ActionsText(actions[1..]));
      ActionView(actions[0], ", " + ActionsText(actions[1..]));
    }
  }

  lemma CommaView(tail: string)
    ensures var s := ", " + tail; Breaks(s[0]) && View(s) == [COMMA] + View(tail)
  {
    hide View;
    assert ", " + tail == [','] + (" " + tail);
    MarkFirst(',', " " + tail);
    BlankFirst(tail);
  }

  // Depth and action starts depend only on the pieces from `from` on.

  predicate At(all: seq<Piece>, from: nat, x: seq<Piece>) {
    from + |x| <= |all| && forall i | 0 <= i < |x| :: all[from + i] == x[i]
  }

  lemma AtSlice(all: seq<Piece>, from: nat, x: seq<Piece>, post: seq<Piece>)
    requires from <= |all| && all[from..] == x + post
    ensures At(all, from, x) && from + |x| + |post| == |all|
  {
    forall i | 0 <= i < |x| ensures all[from + i] == x[i] {
      assert all[from + i] == all[from..][i];
    }
  }

  lemma {:induction false} DepthShift(all: seq<Piece>, from: nat, x: seq<Piece>, k: nat)
    requires At(all, from, x) && k <= |x|
    ensures Depth(all, from, from + k) == Depth(x, 0, k)
    decreases k
  {
    hide IsMark;
    if k > 0 {
      DepthShift(all, from, x, k - 1);
      assert all[from + (k - 1)] == x[k - 1];
    }
  }

  lemma {:induction false} OneActionShift(all: seq<Piece>, from: nat, x: seq<Piece>, k: nat)
    requires At(all, from, x) && k <= |x|
    requires ActionsUpTo(x, 0, |x|) == [0]
    ensures ActionsUpTo(all, from, from + k) == [from]
    decreases k
  {
    hide IsMark, Depth, ActionsUpTo;
    if k == 0 {
      ActionsStart(all, from);
    } else {
      OneActionShift(all, from, x, k - 1);
      DepthShift(all, from, x, k - 1);
      AtIndex(all, from, x, k - 1);
      NoCommaAt(x, |x|, k - 1);
      ActionsSkip(all, from, from + (k - 1));
    }
  }

  lemma AtIndex(all: seq<Piece>, from: nat, x: seq<Piece>, k: nat)
    requires At(all, from, x) && k < |x|
    ensures from + |x| <= |all| && all[from + k] == x[k]
  {
  }

  lemma ActionsStart(all: seq<Piece>, from: nat)
    requires from <= |all|
    ensures ActionsUpTo(all, from, from) == [from]
  {
  }

  lemma ActionsSkip(all: seq<Piece>, from: nat, end: nat)
    requires from <= end < |all| && !(Depth(all, from, end) == 0 && IsMark(all[end], ","))
    ensures ActionsUpTo(all, from, end + 1) == ActionsUpTo(all, from, end)
  {
    hide Depth, IsMark;
  }

  lemma {:induction false} NoCommaAt(x: seq<Piece>, end: nat, k: nat)
    requires k < end <= |x| && |ActionsUpTo(x, 0, end)| == 1
    ensures !(Depth(x, 0, k) == 0 && IsMark(x[k], ","))
    ensures |ActionsUpTo(x, 0, k)| == 1
    decreases end
  {
    hide IsMark, Depth;
    ActionsNonEmpty(x, 0, end - 1);
    if k < end - 1 {
      NoCommaAt(x, end - 1, k);
    }
  }

  lemma {:induction false} ActionsNonEmpty(x: seq<Piece>, from: nat, end: nat)
    requires from <= end <= |x|
    ensures |ActionsUpTo(x, from, end)| >= 1
    decreases end
  {
    hide IsMark, Depth;
    if end > from {
      ActionsNonEmpty(x, from, end - 1);
    }
  }

  /** Past a comma at depth zero, depth and starts are counted afresh. */
  lemma {:induction false} DepthAfresh(all: seq<Piece>, from: nat, mid: nat, k: nat)
    requires from <= mid <= k <= |all| && Depth(all, from, mid) == 0
    ensures Depth(all, from, k) == Depth(all, mid, k)
    decreases k
  {
    hide IsMark;
    if k > mid {
      DepthAfresh(all, from, mid, k - 1);
    }
  }

  lemma {:induction false} ActionsAfresh(all: seq<Piece>, from: nat, mid: nat, end: nat)
    requires from < mid <= end <= |all| && Depth(all, from, mid) == 0
    requires Depth(all, from, mid - 1) == 0 && IsMark(all[mid - 1], ",")
    ensures ActionsUpTo(all, from, end) == ActionsUpTo(all, from, mid - 1) + ActionsUpTo(all, mid, end)
    decreases end
  {
    hide IsMark, Depth;
    if end > mid {
      ActionsAfresh(all, from, mid, end - 1);
      DepthAfresh(all, from, mid, end - 1);
      Associative(ActionsUpTo(all, from, mid - 1), ActionsUpTo(all, mid, end - 1),
                  if Depth(all, mid, end - 1) == 0 && IsMark(all[end - 1], ",") then [end] else []);
    }
  }

  function StartsOf(actions: seq<Action>, from: nat): seq<nat>
    requires |actions| > 0
  {
    if |actions| == 1 then [from]
    else [from] + StartsOf(actions[1..], from + |ActionPieces(actions[0])| + 1)
  }

  lemma {:induction false} TailIsPlain(ps: seq<Part>)
    ensures forall p | p in TailPieces(ps) :: !IsMark(p, "(") && !IsMark(p, ")") && !IsMark(p, ",")
  {
    hide PartText, Upper, ShownIdent;
    if ps != [] {
      TailIsPlain(ps[1..]);
    }
  }

  lemma {:induction false} PlainIsOneAction(q: seq<Piece>, k: nat)
    requires forall p | p in q :: !IsMark(p, "(") && !IsMark(p, ")") && !IsMark(p, ",")
    requires k <= |q|
    ensures ActionsUpTo(q, 0, k) == [0] && Depth(q, 0, k) == 0
  {
    hide IsMark;
    if k > 0 {
      PlainIsOneAction(q, k - 1);
      assert q[k - 1] in q;
    }
  }

  lemma DroppingIsPlain(a: Action)
    requires a.Dropping? && ActionFits(a)
    ensures NoSemicolon(ActionPieces(a))
    ensures forall p | p in ActionPieces(a) :: !IsMark(p, "(") && !IsMark(p, ")") && !IsMark(p, ",")
  {
    hide View, NameOk, Uppers, DropsColumn, DropsConstraint, IsWord, Upper, PartText, ShownIdent, TailPieces;
    hide Closed, EndsSolid, EndingOk;
    TailIsPlain(a.name[1..]);
    NameHasNoSemicolon(a.name);
    WordsHaveNoSemicolon(a.words);
    NoSemicolonAppend(NamePieces(a.name), EndingPieces(a.ending));
    NoSemicolonAppend(WordPieces(a.words), NamePieces(a.name) + EndingPieces(a.ending));
  }

  lemma ActionIsOne(a: Action)
    requires ActionFits(a)
    ensures OneAction(ActionPieces(a))
  {
    hide View, NameOk, Uppers, IsWord, Upper, PartText, ShownIdent, TailPieces;
    hide Closed, EndsSolid, EndingOk, NoSemicolon;
    if a.Dropping? {
      DroppingIsPlain(a);
      var q := ActionPieces(a);
      PlainIsOneAction(q, |q|);
    }
  }

  lemma {:induction false} ActionsFirst(actions: seq<Action>)
    requires |actions| > 0 && ActionFits(actions[0])
    ensures ActionsPieces(actions) != [] && !IsMark(ActionsPieces(actions)[0], ".")
  {
    hide ActionFits, ActionPieces, IsMark, ActionsUpTo, Depth, NoSemicolon;
    ActionIsOne(actions[0]);
  }

  /** The guard finds each action where it starts. */
  lemma {:induction false} ActionsStarts(all: seq<Piece>, from: nat, actions: seq<Action>)
    requires |actions| > 0 && forall a | a in actions :: ActionFits(a)
    requires from <= |all| && all[from..] == ActionsPieces(actions)
    ensures ActionsUpTo(all, from, |all|) == StartsOf(actions, from)
    decreases |actions|
  {
    hide ActionFits, ActionPieces, IsMark, ActionsUpTo, Depth, At, NoSemicolon;
    var x := ActionPieces(actions[0]);
    var k, mid := |x|, from + |x| + 1;
    ActionIsOne(actions[0]);
    if |actions| == 1 {
      assert all[from..] == x + [];
      AtSlice(all, from, x, []);
      OneActionShift(all, from, x, k);
    } else {
      AtSlice(all, from, x, [COMMA] + ActionsPieces(actions[1..]));
      SplitAt(all, from, x, COMMA, ActionsPieces(actions[1..]));
      OneActionShift(all, from, x, k);
      DepthShift(all, from, x, k);
      CommaKeepsDepth(all, from, mid);
      ActionsAfresh(all, from, mid, |all|);
      ActionsStarts(all, mid, actions[1..]);
    }
  }

  lemma CommaKeepsDepth(all: seq<Piece>, from: nat, mid: nat)
    requires from < mid <= |all| && all[mid - 1] == COMMA && Depth(all, from, mid - 1) == 0
    ensures Depth(all, from, mid) == 0 && IsMark(all[mid - 1], ",")
  {
  }

  lemma DropActionReads(all: seq<Piece>, from: nat, words: seq<string>, name: Name, ending: Ending, post: seq<Piece>, e: Effects)
    requires ActionOk(Dropping(words, name, ending))
    requires from <= |all| && all[from..] == WordPieces(words) + (NamePieces(name) + post)
    requires post == [] || !IsMark(post[0], ".")
    ensures WithAction(e, all, from) == Plus(e, ActionEffects(Dropping(words, name, ending)))
  {
    hide NamePieces, NameShown, DottedName, NameOk, IsWord, IsName, AlterDropAt, WordAt, WordPieces, AllWords, NameAt;
    hide DropsColumn, DropsConstraint, ReadsAsName, Uppers, PartPiece, HeadAt, EndingOk;
    var k, h := from + |words|, Uppers(words);
    DropFurther(all, from, WordPieces(words), NamePieces(name) + post);
    NameHead(all, k, name, post);
    WordsFirst(all, from, words, NamePieces(name) + post);
    AlterDropReads(all, from, h, name);
    DottedNameReads(all, k, name, post);
    NameAtIs(all, k);
    assert e.columns + [] == e.columns && e.constraints + [] == e.constraints;
  }

  lemma NameAtIs(all: seq<Piece>, k: nat)
    ensures DottedName(all, k).Some? ==> NameAt(all, k) == Some(DottedName(all, k).value.name)
  {
    hide DottedName;
  }

  lemma WordsFirst(all: seq<Piece>, from: nat, words: seq<string>, post: seq<Piece>)
    requires from <= |all| && all[from..] == WordPieces(words) + post
    ensures HeadAt(all, from, Uppers(words))
  {
    hide *;
    forall i | 0 <= i < |words| ensures from + i < |all| && IsWordPiece(all[from + i], Uppers(words)[i]) {
      WordIndex(all, from, words, post, i);
    }
    HeadAtAll(all, from, Uppers(words));
  }

  lemma HeadAtAll(all: seq<Piece>, from: nat, h: seq<string>)
    requires forall i | 0 <= i < |h| :: from + i < |all| && IsWordPiece(all[from + i], h[i])
    ensures HeadAt(all, from, h)
  {
    hide IsWordPiece;
  }

  lemma WordIndex(all: seq<Piece>, from: nat, words: seq<string>, post: seq<Piece>, i: nat)
    requires from <= |all| && all[from..] == WordPieces(words) + post && i < |words|
    ensures from + i < |all| && IsWordPiece(all[from + i], Uppers(words)[i])
  {
    hide Upper, WordPieces;
    AtSlice(all, from, WordPieces(words), post);
    WordPieceIs(words, i);
  }

  lemma WordPieceIs(words: seq<string>, i: nat)
    requires i < |words|
    ensures WordPieces(words)[i].kind == Word && WordPieces(words)[i].value == Uppers(words)[i]
  {
    hide Upper;
  }

  lemma DropFurther<T>(all: seq<T>, from: nat, x: seq<T>, y: seq<T>)
    requires from <= |all| && all[from..] == x + y
    ensures from + |x| <= |all| && all[from + |x|..] == y
  {
    assert all[from + |x|..] == all[from..][|x|..];
  }

  lemma NameHead(all: seq<Piece>, k: nat, name: Name, post: seq<Piece>)
    requires k <= |all| && all[k..] == NamePieces(name) + post
    ensures k < |all| && all[k] == PartPiece(name[0])
  {
    hide TailPieces, PartPiece;
    assert all[k] == all[k..][0];
  }

  predicate HeadAt(all: seq<Piece>, from: nat, h: seq<string>) {
    forall i | 0 <= i < |h| :: from + i < |all| && IsWordPiece(all[from + i], h[i])
  }

  lemma HeadValue(all: seq<Piece>, from: nat, h: seq<string>, i: nat)
    requires HeadAt(all, from, h) && i < |h|
    ensures from + i < |all| && all[from + i].kind == Word && all[from + i].value == h[i]
  {
    var v := h[i];
    assert from + i < |all| && IsWordPiece(all[from + i], v);
  }

  /** A drop head followed by a name is read as dropping that name. */
  lemma AlterDropReads(all: seq<Piece>, from: nat, h: seq<string>, name: Name)
    requires DropsColumn(h) || DropsConstraint(h)
    requires from + |h| < |all| && all[from + |h|] == PartPiece(name[0])
    requires HeadAt(all, from, h)
    requires name[0].Bare? ==> ReadsAsName(h, Upper(name[0].word))
    ensures WordAt(all, from, "DROP")
    ensures AlterDropAt(all, from)
         == if DropsColumn(h) then Column(NameAt(all, from + |h|)) else Constraint(NameAt(all, from + |h|))
  {
    hide Upper, PartText, ShownIdent, NameAt, HeadAt;
    var k := from + |h|;
    NotKeyword(all[k], h, name[0]);
    HeadValue(all, from, h, 0);
    KeywordsDiffer();
    if |h| == 1 {
      assert PastIfExists(all, from + 1) == k;
    } else if |h| == 2 {
      HeadValue(all, from, h, 1);
      assert PastIfExists(all, from + 2) == k;
    } else if |h| == 3 {
      HeadValue(all, from, h, 1);
      HeadValue(all, from, h, 2);
      assert !IsDropNotColumn("IF");
      assert PastIfExists(all, from + 1) == k;
    } else {
      HeadValue(all, from, h, 1);
      HeadValue(all, from, h, 2);
      HeadValue(all, from, h, 3);
      assert PastIfExists(all, from + 2) == k;
    }
  }

  lemma KeywordsDiffer()
    ensures "IF" != "COLUMN" && "IF" != "CONSTRAINT" && "COLUMN" != "CONSTRAINT" && "IF" != "EXISTS"
  {
    assert "IF"[0] != "COLUMN"[0] && "COLUMN"[1] == 'O' && "COLUMN"[2] != "CONSTRAINT"[2] && "IF"[0] != "EXISTS"[0];
  }

  lemma NotKeyword(p: Piece, h: seq<string>, part: Part)
    requires p == PartPiece(part)
    requires part.Bare? ==> ReadsAsName(h, Upper(part.word))
    ensures p.kind == Word && |h| < 3 ==> p.value != "IF" && p.value != "EXISTS"
    ensures p.kind == Word && |h| == 1 ==>
              p.value != "COLUMN" && p.value != "CONSTRAINT" && !IsDropNotColumn(p.value)
  {
    hide Upper, PartText, ShownIdent, IsDropNotColumn;
    HarmlessWords();
  }

  lemma KeepActionReads(all: seq<Piece>, from: nat, q: seq<Piece>, post: seq<Piece>, e: Effects)
    requires q != [] && Harmless(q) && from <= |all| && all[from..] == q + post
    ensures WithAction(e, all, from) == e
  {
    hide NameAt, IsDropNotColumn;
    HarmlessWords();
    AtSlice(all, from, q, post);
    assert all[from + 0] == q[0];
    if WordAt(q, 0, "DROP") {
      assert all[from + 1] == q[1];
      NotColumnWords(q[1].value);
    }
  }

  lemma NotColumnWords(w: string)
    requires IsDropNotColumn(w)
    ensures w != "COLUMN" && w != "CONSTRAINT"
  {
  }

  lemma ActionReads(all: seq<Piece>, from: nat, a: Action, post: seq<Piece>, e: Effects)
    requires ActionOk(a) && from <= |all| && all[from..] == ActionPieces(a) + post
    requires post == [] || post[0] == COMMA
    ensures WithAction(e, all, from) == Plus(e, ActionEffects(a))
  {
    hide NamePieces, WordPieces, NameOk, Uppers, DropsColumn, DropsConstraint, ReadsAsName, IsWord, WithAction;
    hide View, Harmless, EndsSolid, Closed, NameShown, ActionsUpTo, Depth, NoSemicolon, EndingOk, Upper;
    match a {
      case Dropping(words, name, ending) =>
        DroppingPieces(words, name, ending, post);
        DropActionReads(all, from, words, name, ending, EndingPieces(ending) + post, e);
      case Keep(text) =>
        KeepActionReads(all, from, View(text), post, e);
        assert e.columns + [] == e.columns && e.constraints + [] == e.constraints;
    }
  }

  lemma {:induction false} ActionsRead(all: seq<Piece>, done: seq<nat>, from: nat, actions: seq<Action>)
    requires |actions| > 0 && forall a | a in actions :: ActionOk(a)
    requires from <= |all| && all[from..] == ActionsPieces(actions)
    ensures EffectsOf(all, done + StartsOf(actions, from)) == Plus(EffectsOf(all, done), ActionsEffects(actions))
    decreases |actions|
  {
    hide ActionOk, ActionPieces, WithAction, ActionEffects, Plus;
    var x := ActionPieces(actions[0]);
    EffectsSnoc(all, done, from);
    if |actions| == 1 {
      assert all[from..] == x + [];
      ActionReads(all, from, actions[0], [], EffectsOf(all, done));
      PlusNone(ActionEffects(actions[0]));
      assert ActionsEffects(actions[1..]) == NO_EFFECT;
    } else {
      var more := [COMMA] + ActionsPieces(actions[1..]);
      ActionReads(all, from, actions[0], more, EffectsOf(all, done));
      SplitAt(all, from, x, COMMA, ActionsPieces(actions[1..]));
      ActionsRead(all, done + [from], from + |x| + 1, actions[1..]);
      Associative(done, [from], StartsOf(actions[1..], from + |x| + 1));
      PlusAssociative(EffectsOf(all, done), ActionEffects(actions[0]), ActionsEffects(actions[1..]));
    }
  }

  lemma EffectsSnoc(all: seq<Piece>, done: seq<nat>, from: nat)
    ensures EffectsOf(all, done + [from]) == WithAction(EffectsOf(all, done), all, from)
  {
    hide WithAction;
    assert (done + [from])[..|done + [from]| - 1] == done;
  }

  lemma PlusAssociative(e: Effects, f: Effects, g: Effects)
    ensures Plus(Plus(e, f), g) == Plus(e, Plus(f, g))
  {
    Associative(e.columns, f.columns, g.columns);
    Associative(e.constraints, f.constraints, g.constraints);
  }

  lemma PlusNone(e: Effects)
    ensures Plus(e, NO_EFFECT) == e && Plus(NO_EFFECT, e) == e
  {
    assert e.columns + [] == e.columns && e.constraints + [] == e.constraints;
    assert [] + e.columns == e.columns && [] + e.constraints == e.constraints;
  }

  function AlterText(ws: seq<string>, t: Name, actions: seq<Action>): string
    requires |actions| > 0
  {
    WordsText(ws, NameText(t) + (" " + ActionsText(actions)))
  }

  function AlterPieces(ws: seq<string>, t: Name, actions: seq<Action>): seq<Piece>
    requires |actions| > 0
  {
    WordPieces(ws) + (NamePieces(t) + ActionsPieces(actions))
  }

  lemma AlterView(ws: seq<string>, t: Name, actions: seq<Action>)
    requires AllWords(ws) && NameOk(t) && |actions| > 0 && forall a | a in actions :: ActionFits(a)
    ensures View(AlterText(ws, t, actions)) == AlterPieces(ws, t, actions)
  {
    hide *;
    var tail := ActionsText(actions);
    ActionsView(actions);
    BlankFirst(tail);
    BlankBreaks(tail);
    NameView(t, " " + tail);
    WordsView(ws, NameText(t) + (" " + tail));
    AlterUnfolds(ws, t, actions);
  }

  lemma AlterUnfolds(ws: seq<string>, t: Name, actions: seq<Action>)
    requires |actions| > 0
    ensures AlterText(ws, t, actions) == WordsText(ws, NameText(t) + (" " + ActionsText(actions)))
    ensures AlterPieces(ws, t, actions) == WordPieces(ws) + (NamePieces(t) + ActionsPieces(actions))
  {
    hide WordsText, NameText, ActionsText, WordPieces, NamePieces, ActionsPieces;
  }

  lemma {:induction false} ActionsHaveNoSemicolon(actions: seq<Action>)
    requires |actions| > 0 && forall a | a in actions :: ActionFits(a)
    ensures NoSemicolon(ActionsPieces(actions))
  {
    hide ActionFits, ActionPieces, ActionsUpTo, Depth;
    ActionIsOne(actions[0]);
    if |actions| > 1 {
      ActionsHaveNoSemicolon(actions[1..]);
    }
  }

  lemma EndingEndsSolid(s: string, e: Ending)
    requires EndsSolid(s) && EndingOk(e)
    ensures EndsSolid(s + EndingText(e))
  {
    hide IsWord, IsSpace;
    if e.Trailing? {
      WordNotEmpty(e.word);
      assert (s + EndingText(e))[|s + EndingText(e)| - 1] == e.word[|e.word| - 1];
    } else {
      assert s + "" == s;
    }
  }

  lemma ActionEndsSolid(a: Action)
    requires ActionFits(a)
    ensures EndsSolid(ActionText(a))
  {
    hide Closed, View, Uppers, DropsColumn, DropsConstraint, NameOk, NameText, IsSpace, IsWord, OneAction, Harmless;
    if a.Dropping? {
      NameEndsSolid(a.name);
      EndingEndsSolid(NameText(a.name), a.ending);
      WordsEndSolid(a.words, NameText(a.name) + EndingText(a.ending));
    }
  }

  lemma {:induction false} ActionsEndSolid(actions: seq<Action>)
    requires |actions| > 0 && forall a | a in actions :: ActionFits(a)
    ensures EndsSolid(ActionsText(actions))
  {
    hide ActionFits, ActionText, IsSpace;
    ActionEndsSolid(actions[0]);
    if |actions| > 1 {
      ActionsEndSolid(actions[1..]);
    }
  }

  lemma AlterIsOneStatement(ws: seq<string>, t: Name, actions: seq<Action>)
    requires |ws| >= 1 && AllWords(ws) && NameOk(t) && |actions| > 0 && forall a | a in actions :: ActionFits(a)
    ensures StartsWithToken(AlterText(ws, t, actions)) && EndsSolid(AlterText(ws, t, actions))
    ensures NoSemicolon(AlterPieces(ws, t, actions))
  {
    hide StartsWithToken, NameOk, IsWord, NameText, ActionsText, ActionFits, IsSpace, NamePieces, ActionsPieces, WordPieces;
    var rest := NameText(t) + (" " + ActionsText(actions));
    ActionsEndSolid(actions);
    WordsEndSolid(ws, rest);
    WordStartsToken(ws[0], WordsText(ws[1..], rest));
    WordsHaveNoSemicolon(ws);
    NameHasNoSemicolon(t);
    ActionsHaveNoSemicolon(actions);
    NoSemicolonAppend(NamePieces(t), ActionsPieces(actions));
    NoSemicolonAppend(WordPieces(ws), NamePieces(t) + ActionsPieces(actions));
  }

  lemma HeadThenName(ws: seq<string>, t: Name, post: seq<Piece>, all: seq<Piece>)
    requires |ws| >= 1 && all == WordPieces(ws) + (NamePieces(t) + post)
    requires forall i | 1 <= i < |ws| :: IsSkip(Upper(ws[i]))
    requires StartsList(t)
    ensures NameListStart(all) == |ws| && all[|ws|..] == NamePieces(t) + post
  {
    hide IsSkip, Upper, PartText, ShownIdent, TailPieces;
    assert all[|ws|] == PartPiece(t[0]);
    SkipReads(all, 1, |ws|);
  }

  /** On the pieces of a printed ALTER, the guard sees exactly what its actions drop. */
  lemma AlterPiecesDropTheseColumns(ws: seq<string>, t: Name, actions: seq<Action>)
    requires HeadOk(ws, "ALTER") && NameOk(t) && StartsList(t)
    requires |actions| > 0 && forall a | a in actions :: ActionOk(a)
    ensures var all := AlterPieces(ws, t, actions);
            EffectsOf(all, AlterActions(all)) == ActionsEffects(actions)
  {
    hide *;
    var all := AlterPieces(ws, t, actions);
    var post, from := ActionsPieces(actions), |ws| + |NamePieces(t)|;
    OkFits(actions);
    AlterActionsStart(ws, t, actions);
    ActionsRead(all, [], from, actions);
    assert [] + StartsOf(actions, from) == StartsOf(actions, from);
    PlusNone(ActionsEffects(actions));
    NothingYet(all);
  }

  lemma AlterActionsStart(ws: seq<string>, t: Name, actions: seq<Action>)
    requires HeadOk(ws, "ALTER") && NameOk(t) && StartsList(t)
    requires |actions| > 0 && forall a | a in actions :: ActionFits(a)
    ensures var all, from := AlterPieces(ws, t, actions), |ws| + |NamePieces(t)|;
            && from <= |all| && all[from..] == ActionsPieces(actions)
            && AlterActions(all) == StartsOf(actions, from)
  {
    hide *;
    var all := AlterPieces(ws, t, actions);
    var post, from := ActionsPieces(actions), |ws| + |NamePieces(t)|;
    AlterUnfolds(ws, t, actions);
    HeadSkips(ws, "ALTER");
    HeadThenName(ws, t, post, all);
    ActionsFirst(actions);
    DottedNameReads(all, |ws|, t, post);
    DropFurther(all, |ws|, NamePieces(t), post);
    ActionsStarts(all, from, actions);
    AlterActionsAre(all);
  }

  lemma HeadSkips(ws: seq<string>, command: string)
    requires HeadOk(ws, command)
    ensures |ws| >= 2 && forall i | 1 <= i < |ws| :: IsSkip(Upper(ws[i]))
  {
    hide Upper, IsSkip, IsWord;
  }

  lemma AlterActionsAre(all: seq<Piece>)
    requires DottedName(all, NameListStart(all)).Some?
    ensures AlterActions(all) == ActionsUpTo(all, DottedName(all, NameListStart(all)).value.next, |all|)
  {
    hide DottedName, NameListStart, ActionsUpTo;
  }

  lemma NothingYet(all: seq<Piece>)
    ensures EffectsOf(all, []) == NO_EFFECT
  {
  }

  lemma AlterDanger(all: seq<Piece>)
    requires WordAt(all, 0, "ALTER")
    ensures DangerOf(all) == AlterVerdict(all)
  {
    hide AlterVerdict;
    assert "ALTER"[0] == 'A';
  }

  /** Column drops demand their names; constraint drops a confirmation; the rest nothing. */
  function ExpectedDanger(e: Effects): Danger {
    if e.columns != [] then TypeName else if e.constraints != [] then Confirm else Safe
  }

  lemma {:induction false} NothingUnnamed(actions: seq<Action>)
    ensures !ActionsEffects(actions).unnamed
  {
    hide NameShown, Uppers, DropsColumn;
    if actions != [] {
      NothingUnnamed(actions[1..]);
    }
  }

  /** A printed ALTER is one statement, weighed by its pieces. */
  lemma AlterIsWhole(ws: seq<string>, t: Name, actions: seq<Action>)
    requires HeadOk(ws, "ALTER") && NameOk(t) && |actions| > 0 && forall a | a in actions :: ActionFits(a)
    ensures var script, v := Classify(AlterText(ws, t, actions)), DangerOf(AlterPieces(ws, t, actions));
            && |script.statements| == 1
            && script.danger == v.danger && script.statements[0].names == v.names
            && script.namesToType == Distinct(v.names)
    ensures WordAt(AlterPieces(ws, t, actions), 0, "ALTER")
  {
    hide *;
    var s, all := AlterText(ws, t, actions), AlterPieces(ws, t, actions);
    HeadFacts(ws, "ALTER");
    AlterView(ws, t, actions);
    AlterIsOneStatement(ws, t, actions);
    ClassifyWhole(s);
    ScriptOfOne(ClassifiedAs(s, all));
    ClassifiedFacts(s, all);
    AlterLeads(ws, t, actions);
  }

  /**
   * A printed ALTER asks for exactly the dropped columns, in order, with or without a CASCADE; dropping a
   * default, a NOT NULL and the like contributes none, and neither does any other action, whatever it holds
   * in parentheses, quotes or comments.
   */
  lemma AlterAsksForDroppedColumns(ws: seq<string>, t: Name, actions: seq<Action>)
    requires HeadOk(ws, "ALTER") && NameOk(t) && StartsList(t)
    requires |actions| > 0 && forall a | a in actions :: ActionOk(a)
    ensures var script, e := Classify(AlterText(ws, t, actions)), ActionsEffects(actions);
            && |script.statements| == 1
            && script.statements[0].names == e.columns
            && script.namesToType == Distinct(e.columns)
            && script.danger == ExpectedDanger(e)
  {
    hide *;
    var all := AlterPieces(ws, t, actions);
    OkFits(actions);
    AlterIsWhole(ws, t, actions);
    AlterDanger(all);
    AlterPiecesDropTheseColumns(ws, t, actions);
    NothingUnnamed(actions);
    AlterVerdictIs(all, ActionsEffects(actions));
  }

  lemma AlterVerdictIs(all: seq<Piece>, e: Effects)
    requires EffectsOf(all, AlterActions(all)) == e && !e.unnamed
    ensures AlterVerdict(all).danger == ExpectedDanger(e) && AlterVerdict(all).names == e.columns
  {
    hide EffectsOf, AlterActions, ObjectName;
  }

  lemma AlterLeads(ws: seq<string>, t: Name, actions: seq<Action>)
    requires HeadOk(ws, "ALTER") && |actions| > 0
    ensures WordAt(AlterPieces(ws, t, actions), 0, "ALTER")
  {
    hide Upper, IsWord, IsSkip, NamePieces, ActionsPieces;
    assert AlterPieces(ws, t, actions)[0] == WordPieces(ws)[0] == WordPiece(ws[0]);
  }

  // --- which rung an ALTER reaches ---

  /** The action at `at` drops something that the guard weighs. */
  predicate Weighed(ps: seq<Piece>, at: nat) {
    WordAt(ps, at, "DROP") && !(at + 1 < |ps| && ps[at + 1].kind == Word && ps[at + 1].value in HARMLESS)
  }

  /** The action at `at` drops a column whose name the guard can read. */
  predicate NamesColumn(ps: seq<Piece>, at: nat) {
    && Weighed(ps, at) && !WordAt(ps, at + 1, "CONSTRAINT")
    && NameAt(ps, PastIfExists(ps, if WordAt(ps, at + 1, "COLUMN") then at + 2 else at + 1)).Some?
  }

  lemma ActionRung(e: Effects, ps: seq<Piece>, at: nat)
    ensures WithAction(e, ps, at).columns != [] <==> e.columns != [] || NamesColumn(ps, at)
    ensures WithAction(e, ps, at) == NO_EFFECT <==> e == NO_EFFECT && !Weighed(ps, at)
  {
    hide NameAt, PastIfExists, IsDropNotColumn;
    HarmlessWords();
    if at + 1 < |ps| && IsDropNotColumn(ps[at + 1].value) {
      NotColumnWords(ps[at + 1].value);
    }
    KeywordsDiffer();
  }

  lemma {:induction false} EffectsRung(ps: seq<Piece>, starts: seq<nat>)
    ensures EffectsOf(ps, starts) == NO_EFFECT <==> forall at | at in starts :: !Weighed(ps, at)
    ensures EffectsOf(ps, starts).columns != [] <==> exists at | at in starts :: NamesColumn(ps, at)
  {
    hide Weighed, NamesColumn, WithAction;
    if starts != [] {
      var front, last := starts[..|starts| - 1], starts[|starts| - 1];
      EffectsRung(ps, front);
      ActionRung(EffectsOf(ps, front), ps, last);
      assert starts == front + [last];
    }
  }

  /**
   * Which rung any ALTER reaches: names are asked for exactly when some action drops a column by a name that
   * can be read, and nothing is asked exactly when every action either does not begin with DROP or goes on
   * with one of the words that make a DROP harmless.
   */
  lemma AlterRungIff(ps: seq<Piece>)
    requires WordAt(ps, 0, "ALTER")
    ensures DangerOf(ps).danger == TypeName <==> exists at | at in AlterActions(ps) :: NamesColumn(ps, at)
    ensures DangerOf(ps).danger == Safe <==> forall at | at in AlterActions(ps) :: !Weighed(ps, at)
  {
    hide *;
    AlterDanger(ps);
    EffectsRung(ps, AlterActions(ps));
    AlterRungOf(ps);
  }

  lemma AlterRungOf(ps: seq<Piece>)
    ensures var v, e := AlterVerdict(ps), EffectsOf(ps, AlterActions(ps));
            && (v.danger == TypeName <==> e.columns != [])
            && (v.danger == Safe <==> e == NO_EFFECT)
  {
    hide EffectsOf, AlterActions, ObjectName;
  }

  // --- which rung any statement reaches ---

  /** A DROP TABLE or DROP SCHEMA with a name that can be read. */
  predicate DropsNamedObjects(ps: seq<Piece>) {
    && WordAt(ps, 0, "DROP") && (WordAt(ps, 1, "TABLE") || WordAt(ps, 1, "SCHEMA"))
    && NameAt(ps, NameListStart(ps)).Some?
  }

  predicate DropsNamedColumn(ps: seq<Piece>) {
    WordAt(ps, 0, "ALTER") && exists at | at in AlterActions(ps) :: NamesColumn(ps, at)
  }

  /** A statement that costs nothing to run: nothing is dropped, emptied, rewritten whole or exposed. */
  predicate Unremarked(ps: seq<Piece>) {
    && !WordAt(ps, 0, "DROP") && !WordAt(ps, 0, "TRUNCATE")
    && (WordAt(ps, 0, "ALTER") ==> forall at | at in AlterActions(ps) :: !Weighed(ps, at))
    && (WordAt(ps, 0, "GRANT") ==> GrantsOnSchema(ps) || forall k | 0 <= k < |ps| :: ExposedBy(ps, k).None?)
    && (WordAt(ps, 0, "DELETE") || WordAt(ps, 0, "UPDATE") ==> HasTopLevelWhere(ps))
  }

  /**
   * Every statement's rung: names are asked for exactly for a named table, schema or column that is dropped,
   * and nothing is asked exactly for a statement that drops, empties, rewrites whole and exposes nothing.
   */
  lemma RungIff(ps: seq<Piece>)
    ensures DangerOf(ps).danger == TypeName <==> DropsNamedObjects(ps) || DropsNamedColumn(ps)
    ensures DangerOf(ps).danger == Safe <==> Unremarked(ps)
  {
    hide EffectsOf, AlterActions, GranteeOf, GrantTarget, HasTopLevelWhere, Weighed, NamesColumn, NameListStart;
    hide ExposedBy, GrantsOnSchema, NamesFrom, DottedName, AlterVerdict;
    CommandsDiffer(ps);
    if WordAt(ps, 0, "ALTER") {
      AlterRungIff(ps);
    } else if WordAt(ps, 0, "GRANT") {
      GrantConfirmedIff(ps);
    } else {
      NamesStart(ps);
    }
  }

  lemma NamesStart(ps: seq<Piece>)
    ensures ObjectNames(ps) != [] <==> NameAt(ps, NameListStart(ps)).Some?
  {
    hide DottedName, NameListStart;
  }

  /** A statement begins with one command. */
  lemma CommandsDiffer(ps: seq<Piece>)
    ensures forall w: string | w != "" :: WordAt(ps, 0, w) <==> Lead(ps) == w
    ensures "DROP" != "DELETE" && "ALTER" != "DROP" && "GRANT" != "ALTER" && "GRANT" != "DROP" && "UPDATE" != "DELETE"
    ensures "TRUNCATE" !in {"DROP", "ALTER", "GRANT", "DELETE", "UPDATE"} && "GRANT" !in {"DELETE", "UPDATE"}
    ensures "ALTER" !in {"DELETE", "UPDATE"} && "DROP" != "UPDATE"
  {
    assert "DROP"[0] == 'D' && "DELETE"[1] == 'E' && "DROP"[1] == 'R' && "ALTER"[0] == 'A' && "GRANT"[0] == 'G';
    assert "UPDATE"[0] == 'U' && "TRUNCATE"[0] == 'T' && "DELETE"[0] == 'D';
  }

  // --- drops that are read as something else ---

  /** `words` and then `w` alone, as one action: what the guard makes of a column called `w`. */
  function LoneDrop(words: seq<string>, w: string): Action {
    Dropping(words, [Bare(w)], NoEnding)
  }

  lemma LoneDropAt(ps: seq<Piece>, from: nat, h: seq<string>, w: string)
    requires DropsColumn(h) && |ps| == from + |h| + 1 && HeadAt(ps, from, h) && ps[from + |h|] == WordPiece(w)
    requires !ReadsAsName(h, Upper(w))
    ensures WordAt(ps, from, "DROP")
    ensures Weighed(ps, from) <==> !(|h| == 1 && Upper(w) in HARMLESS)
    ensures !NamesColumn(ps, from)
  {
    hide Upper, HeadAt;
    HeadValue(ps, from, h, 0);
    KeywordsDiffer();
    if |h| == 2 {
      HeadValue(ps, from, h, 1);
    }
    assert forall i | i >= |ps| :: NameAt(ps, i) == None;
  }

  /**
   * A column written unquoted after `DROP`, `DROP COLUMN` and the like is asked for by name exactly if it is
   * none of the words the guard looks for there; the drop goes unremarked exactly if, after a bare `DROP`, it
   * is one of the words that make a DROP harmless.
   */
  lemma LoneDropReadIff(ws: seq<string>, t: Name, words: seq<string>, w: string)
    requires HeadOk(ws, "ALTER") && NameOk(t) && StartsList(t)
    requires AllWords(words) && DropsColumn(Uppers(words)) && PartOk(Bare(w))
    ensures var script, named := Classify(AlterText(ws, t, [LoneDrop(words, w)])), ReadsAsName(Uppers(words), Upper(w));
            && (script.namesToType == [w] <==> named)
            && (script.danger == TypeName <==> named)
            && (script.danger == Safe <==> |words| == 1 && Upper(w) in HARMLESS)
  {
    hide *;
    var a := LoneDrop(words, w);
    LoneDropFits(words, w);
    if ReadsAsName(Uppers(words), Upper(w)) {
      AlterAsksForDroppedColumns(ws, t, [a]);
      LoneDropEffect(words, w);
      DistinctOne(w);
      ReadsNotHarmless(words, w);
    } else {
      var ps, from := AlterPieces(ws, t, [a]), |ws| + |NamePieces(t)|;
      AlterIsWhole(ws, t, [a]);
      AlterActionsStart(ws, t, [a]);
      LoneDropPlace(ps, from, words, w);
      LoneDropAt(ps, from, Uppers(words), w);
      AlterRungIff(ps);
      NamelessBelow(ps);
    }
  }

  lemma LoneDropFits(words: seq<string>, w: string)
    requires AllWords(words) && DropsColumn(Uppers(words)) && PartOk(Bare(w))
    ensures var a := LoneDrop(words, w);
            ActionFits(a) && (ReadsAsName(Uppers(words), Upper(w)) ==> ActionOk(a))
  {
    hide Upper, IsWord, ReadsAsName, DropsConstraint, DropsColumn, Uppers;
  }

  lemma LoneDropEffect(words: seq<string>, w: string)
    requires DropsColumn(Uppers(words))
    ensures ActionsEffects([LoneDrop(words, w)]) == Effects([w], [], false)
    ensures ExpectedDanger(Effects([w], [], false)) == TypeName
  {
    hide Upper, DropsColumn;
    assert NameShown([Bare(w)]) == w;
    assert ActionsEffects([LoneDrop(words, w)][1..]) == NO_EFFECT;
    PlusNone(ActionEffects(LoneDrop(words, w)));
  }

  lemma DistinctOne(w: string)
    ensures Distinct([w]) == [w] && Distinct([]) == []
  {
    assert [w][..0] == [];
  }

  lemma ReadsNotHarmless(words: seq<string>, w: string)
    ensures ReadsAsName(Uppers(words), Upper(w)) ==> !(|words| == 1 && Upper(w) in HARMLESS)
  {
    hide Upper, IsDropNotColumn;
  }

  lemma LoneDropPlace(ps: seq<Piece>, from: nat, words: seq<string>, w: string)
    requires from <= |ps| && ps[from..] == ActionsPieces([LoneDrop(words, w)])
    ensures |ps| == from + |Uppers(words)| + 1 && HeadAt(ps, from, Uppers(words))
    ensures ps[from + |Uppers(words)|] == WordPiece(w)
    ensures StartsOf([LoneDrop(words, w)], from) == [from] && |Uppers(words)| == |words|
  {
    hide Upper, HeadAt;
    var x, n := ActionPieces(LoneDrop(words, w)), [WordPiece(w)];
    assert NamePieces([Bare(w)]) + EndingPieces(NoEnding) == n;
    assert ps[from..] == WordPieces(words) + n;
    WordsFirst(ps, from, words, n);
    AtSlice(ps, from, WordPieces(words) + n, []);
  }

  lemma NamelessBelow(ps: seq<Piece>)
    requires WordAt(ps, 0, "ALTER") && DangerOf(ps).danger != TypeName
    ensures DangerOf(ps).names == [] && Distinct([]) == []
  {
    hide EffectsOf, AlterActions, ObjectName;
    AlterDanger(ps);
  }

  /** A `*` after the table hides any drop: the action then begins with a mark, so nothing at all is asked. */
  lemma StarHidesDrop(ws: seq<string>, t: Name, a: Action)
    requires HeadOk(ws, "ALTER") && NameOk(t) && StartsList(t) && a.Dropping? && ActionFits(a)
    ensures var script := Classify(AlterText(ws, t, [Keep("* " + ActionText(a))]));
            script.danger == Safe && script.namesToType == []
  {
    hide *;
    var star := Keep("* " + ActionText(a));
    StarIsAction(a);
    AlterAsksForDroppedColumns(ws, t, [star]);
    KeepsNothing(star.text);
    DistinctOne("");
  }

  lemma KeepsNothing(text: string)
    ensures ActionsEffects([Keep(text)]) == NO_EFFECT && ExpectedDanger(NO_EFFECT) == Safe && NO_EFFECT.columns == []
  {
    assert ActionsEffects([Keep(text)][1..]) == NO_EFFECT;
    PlusNone(NO_EFFECT);
  }

  lemma StarIsAction(a: Action)
    requires a.Dropping? && ActionFits(a)
    ensures ActionOk(Keep("* " + ActionText(a)))
  {
    hide Closed, View, ActionFits, ActionText, ActionPieces, IsSpace, Depth, ActionsUpTo;
    var star := Piece(Punct, "*", "*");
    var q := [star] + ActionPieces(a);
    assert View("* " + ActionText(a)) == q && Closed("* " + ActionText(a)) by {
      ActionView(a, "");
      EmptyView();
      assert ActionText(a) + "" == ActionText(a) && ActionPieces(a) + [] == ActionPieces(a);
      BlankFirst(ActionText(a));
      MarkFirst('*', " " + ActionText(a));
      assert "* " + ActionText(a) == ['*'] + (" " + ActionText(a));
    }
    ActionEndsSolid(a);
    DroppingIsPlain(a);
    PlainIsOneAction(q, |q|);
    assert ActionFits(Keep("* " + ActionText(a))) by {
      StarFits("* " + ActionText(a), q);
    }
    assert Harmless(q);
  }

  lemma StarFits(text: string, q: seq<Piece>)
    requires Closed(text) && EndsSolid(text) && View(text) == q && OneAction(q)
    ensures ActionFits(Keep(text))
  {
    hide Closed, View, EndsSolid, OneAction;
  }

  lemma {:induction false} CapitalsStay(w: string)
    requires forall i | 0 <= i < |w| :: IsUpper(w[i])
    ensures Upper(w) == w
  {
    if w != "" {
      CapitalsStay(w[1..]);
      assert [w[0]] + w[1..] == w;
    }
  }

  lemma CapitalsAreAWord(w: string)
    requires w != "" && forall i | 0 <= i < |w| :: IsUpper(w[i])
    ensures IsWord(w) && Upper(w) == w
  {
    hide Upper;
    CapitalsStay(w);
  }

  lemma LetterIsAName(c: char)
    requires IsLower(c)
    ensures NameOk([Bare([c])]) && |Upper([c])| == 1
  {
    assert IsWord([c]);
    assert Upper([c]) == UpperChar(c) + Upper([c][1..]);
  }

  lemma AlterHead()
    ensures HeadOk(["ALTER", "TABLE"], "ALTER")
    ensures AllWords(["DROP", "COLUMN"]) && Uppers(["DROP", "COLUMN"]) == ["DROP", "COLUMN"]
  {
    hide IsWord, Upper;
    CapitalsAreAWord("ALTER");
    CapitalsAreAWord("TABLE");
    CapitalsAreAWord("DROP");
    CapitalsAreAWord("COLUMN");
  }

  lemma LetterIsNotSkipped(w: string)
    requires |w| == 1
    ensures !IsSkip(w)
  {
  }

  lemma TwoWords(v: string, w: string, rest: string)
    ensures WordsText([v, w], rest) == v + (" " + (w + (" " + rest)))
  {
    var one := [w];
    assert [v, w][1..] == one && one[1..] == [];
    assert WordsText(one, rest) == w + (" " + WordsText([], rest));
  }

  lemma PlainDropText(c: Name)
    requires c == [Bare("a")]
    ensures ActionText(Dropping(["DROP", "COLUMN"], c, NoEnding)) == "DROP COLUMN a"
  {
    hide WordsText;
    assert NameText(c) + "" == "a";
    TwoWords("DROP", "COLUMN", "a");
    assert "COLUMN" + (" " + "a") == "COLUMN a";
    assert "DROP" + (" " + "COLUMN a") == "DROP COLUMN a";
  }

  lemma StarredText(t: Name, x: string)
    requires t == [Bare("t")]
    ensures AlterText(["ALTER", "TABLE"], t, [Keep(x)]) == "ALTER TABLE t " + x
  {
    hide WordsText;
    assert NameText(t) == "t";
    TwoWords("ALTER", "TABLE", "t" + (" " + x));
    assert "TABLE" + (" " + ("t" + (" " + x))) == "TABLE t " + x;
    assert "ALTER" + (" " + ("TABLE t " + x)) == "ALTER TABLE t " + x;
  }

  /** The plainest form of it. */
  lemma StarredDropIsSafe()
    ensures Classify("ALTER TABLE t " + "* DROP COLUMN a").danger == Safe
  {
    hide Classify, HeadOk, AllWords, Upper, NameOk, IsSkip, ActionText, AlterText;
    var t, c := [Bare("t")], [Bare("a")];
    AlterHead();
    LetterIsAName('t');
    LetterIsAName('a');
    LetterIsNotSkipped(Upper("t"));
    PlainDropText(c);
    StarredText(t, "* DROP COLUMN a");
    assert "* " + "DROP COLUMN a" == "* DROP COLUMN a";
    StarHidesDrop(["ALTER", "TABLE"], t, Dropping(["DROP", "COLUMN"], c, NoEnding));
  }
}
