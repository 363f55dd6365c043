/** The guard over whole scripts: classification distributes over semicolons. */
module SqlScripts {
  import opened Text
  import opened SqlLexer
  import opened SqlLexing
  import opened SqlSplit
  import opened SqlGuard

  lemma MovedStatementClassifiesAlike(s: Statement, d: nat)
    ensures ClassifyOne(MovedStatement(s, d)) == ClassifyOne(s)
  {
    hide ShownIdent, ClassifiedAs;
    assert Pieces(MovedStatement(s, d)) == Pieces(s);
  }

  lemma MovedClassifyAlike(ss: seq<Statement>, d: nat)
    ensures ClassifyEach(MovedStatements(ss, d)) == ClassifyEach(ss)
  {
    hide ClassifyOne, MovedStatement;
    forall i | 0 <= i < |ss| ensures ClassifyOne(MovedStatements(ss, d)[i]) == ClassifyOne(ss[i]) {
      MovedStatementClassifiesAlike(ss[i], d);
    }
  }

  lemma ClassifyEachAppend(x: seq<Statement>, y: seq<Statement>)
    ensures ClassifyEach(x + y) == ClassifyEach(x) + ClassifyEach(y)
  {
    hide ClassifyOne;
  }

  lemma {:induction false} WorstAppend(x: seq<Classified>, y: seq<Classified>)
    ensures Worst(x + y) == Max(Worst(x), Worst(y))
  {
    if y == [] {
      assert x + y == x;
    } else {
      assert (x + y)[..|x + y| - 1] == x + y[..|y| - 1];
      WorstAppend(x, y[..|y| - 1]);
    }
  }

  lemma {:induction false} DangerousAppend(x: seq<Classified>, y: seq<Classified>)
    ensures Dangerous(x + y) == Dangerous(x) + Dangerous(y)
  {
    if y == [] {
      assert x + y == x;
    } else {
      assert (x + y)[..|x + y| - 1] == x + y[..|y| - 1];
      DangerousAppend(x, y[..|y| - 1]);
    }
  }

  lemma {:induction false} AllNamesAppend(x: seq<Classified>, y: seq<Classified>)
    ensures AllNames(x + y) == AllNames(x) + AllNames(y)
  {
    if y == [] {
      assert x + y == x;
    } else {
      assert (x + y)[..|x + y| - 1] == x + y[..|y| - 1];
      AllNamesAppend(x, y[..|y| - 1]);
      Associative(AllNames(x), AllNames(y[..|y| - 1]), y[|y| - 1].names);
    }
  }

  lemma OwnsAppend(x: seq<Classified>, y: seq<Classified>)
    ensures OwnsTransaction(x + y) == (OwnsTransaction(x) || OwnsTransaction(y))
  {
    if OwnsTransaction(x) {
      var i :| 0 <= i < |x| && x[i].transactionControl;
      assert (x + y)[i].transactionControl;
    }
    if OwnsTransaction(y) {
      var i :| 0 <= i < |y| && y[i].transactionControl;
      assert (x + y)[|x| + i].transactionControl;
    }
  }

  /** The elements of `ys` that are not in `xs`, in order. */
  function Without(ys: seq<string>, xs: seq<string>): seq<string> {
    if ys == [] then []
    else Without(ys[..|ys| - 1], xs) + (if ys[|ys| - 1] in xs then [] else [ys[|ys| - 1]])
  }

  lemma {:induction false} DistinctAppend(x: seq<string>, y: seq<string>)
    ensures Distinct(x + y) == Distinct(x) + Without(Distinct(y), x)
  {
    if y == [] {
      assert x + y == x;
    } else {
      var front, last := y[..|y| - 1], y[|y| - 1];
      assert (x + y)[..|x + y| - 1] == x + front;
      DistinctAppend(x, front);
      if last !in front {
        var d := Distinct(front);
        assert (d + [last])[..|d + [last]| - 1] == d;
        Associative(Distinct(x), Without(d, x), [last]);
      }
    }
  }

  /** What the guard owes a script made of two, from what it says of each. */
  function Combined(a: Script, b: Script): Script {
    Script(
      a.statements + b.statements,
      Max(a.danger, b.danger),
      a.dangerous + b.dangerous,
      a.namesToType + Without(b.namesToType, a.namesToType),
      a.ownsTransaction || b.ownsTransaction,
      if a.statements == [] then b.limitable else if b.statements == [] then a.limitable else None)
  }

  lemma {:induction false} WithoutSame(ys: seq<string>, x: seq<string>, z: seq<string>)
    requires forall s :: s in x <==> s in z
    ensures Without(ys, x) == Without(ys, z)
  {
    if ys != [] {
      WithoutSame(ys[..|ys| - 1], x, z);
    }
  }

  lemma ScriptOfAppend(x: seq<Classified>, y: seq<Classified>)
    ensures ScriptOf(x + y) == Combined(ScriptOf(x), ScriptOf(y))
  {
    hide Worst, Dangerous, AllNames, Distinct, Without, OwnsTransaction;
    WorstAppend(x, y);
    DangerousAppend(x, y);
    AllNamesAppend(x, y);
    DistinctAppend(AllNames(x), AllNames(y));
    WithoutSame(Distinct(AllNames(y)), AllNames(x), Distinct(AllNames(x)));
    OwnsAppend(x, y);
    if x == [] {
      assert x + y == y;
    } else if y == [] {
      assert x + y == x;
    }
  }

  /**
   * `classify` distributes over `;`: when `a` ends outside quotes, comments and
   * parentheses, a script `a;b` has the statements of both in order, the worse
   * danger, the union of the names to type, and either's transaction control.
   */
  lemma ClassifyDistributes(a: string, b: string)
    requires Closed(a) && FinalDepth(a) == 0
    ensures Classify(a + ";" + b) == Combined(Classify(a), Classify(b))
  {
    hide Statements, ClassifyEach, MovedStatements, ScriptOf, Combined, Closed, FinalDepth;
    SplitDistributes(a, b);
    ClassifyEachAppend(Statements(a), MovedStatements(Statements(b), |a| + 1));
    MovedClassifyAlike(Statements(b), |a| + 1);
    ScriptOfAppend(ClassifyEach(Statements(a)), ClassifyEach(Statements(b)));
  }

  // --- the pieces of a text ---

  /** The pieces of a whole text, as a statement with exactly that text has them. */
  function ViewOf(text: string, ts: seq<Token>): (r: seq<Piece>)
    ensures |r| == |ts|
  {
    seq(|ts|, i requires 0 <= i < |ts| =>
      Piece(ts[i].kind, ts[i].value,
            if ts[i].kind == Ident then ShownIdent(ts[i].value) else Cut(text, ts[i].start, ts[i].end)))
  }

  function View(text: string): seq<Piece> {
    ViewOf(text, Tokens(text))
  }

  lemma ViewOfAppend(text: string, x: seq<Token>, y: seq<Token>)
    ensures ViewOf(text, x + y) == ViewOf(text, x) + ViewOf(text, y)
  {
    hide ShownIdent, Cut;
  }

  lemma ViewOfInside(a: string, b: string, ts: seq<Token>)
    requires forall t | t in ts :: t.end <= |a|
    ensures ViewOf(a + b, ts) == ViewOf(a, ts)
  {
    hide ShownIdent;
    forall i | 0 <= i < |ts| ensures Cut(a + b, ts[i].start, ts[i].end) == Cut(a, ts[i].start, ts[i].end) {
      var t := ts[i];
      assert t in ts;
      if t.start <= t.end {
        assert (a + b)[t.start..][..t.end - t.start] == a[t.start..][..t.end - t.start];
      }
    }
  }

  lemma ViewOfMoved(a: string, b: string, ts: seq<Token>)
    ensures ViewOf(a + b, Shift(ts, |a|)) == ViewOf(b, ts)
  {
    hide ShownIdent;
    forall i | 0 <= i < |ts| ensures Cut(a + b, ts[i].start + |a|, ts[i].end + |a|) == Cut(b, ts[i].start, ts[i].end) {
      if ts[i].start <= |b| {
        assert (a + b)[ts[i].start + |a|..] == b[ts[i].start..];
      }
    }
  }

  lemma {:induction false} ClosedEndsInside(s: string, at: nat)
    requires Closed(s)
    ensures forall t | t in LexFrom(s, at) :: t.end <= at + |s|
    decreases |s|
  {
    hide LexFrom, Munch, Emit;
    if s == "" {
      LexNil(at);
    } else {
      var m := Munch(s);
      LexHead(s, at);
      EmitEnd(m, s, at);
      ClosedEndsInside(Drop(s, m.span.len), at + m.span.len);
    }
  }

  lemma EmitEnd(m: Lexeme, s: string, at: nat)
    ensures forall t | t in Emit(m, s, at) :: t.end == at + m.span.len
  {
    hide Upper;
  }

  /** Pieces compose where tokens do. */
  lemma ViewCompose(a: string, b: string)
    requires Closed(a) && Seam(a, b)
    ensures View(a + b) == View(a) + View(b)
  {
    hide LexFrom, Closed, Seam, ViewOf, Shift;
    Compose(a, b, 0);
    LexShift(b, 0, |a|);
    ClosedEndsInside(a, 0);
    ViewOfAppend(a + b, Tokens(a), LexFrom(b, |a|));
    ViewOfInside(a, b, Tokens(a));
    ViewOfMoved(a, b, Tokens(b));
  }

  // --- what the answer means ---

  /** Names are asked for exactly on the top rung. */
  lemma NamesIffTypeName(ps: seq<Piece>)
    ensures DangerOf(ps).danger == TypeName <==> DangerOf(ps).names != []
  {
    hide ObjectNames, EffectsOf, AlterActions, GranteeOf, GrantTarget, HasTopLevelWhere, Lead, ObjectName;
  }

  lemma ClassifiedNames(s: Statement)
    ensures ClassifyOne(s).danger == TypeName <==> ClassifyOne(s).names != []
  {
    hide DangerOf, Pieces, IsLimitable, ControlsTransaction, Lead;
    NamesIffTypeName(Pieces(s));
  }

  lemma {:induction false} WorstIffNames(cs: seq<Classified>)
    requires forall c | c in cs :: c.danger == TypeName <==> c.names != []
    ensures Worst(cs) == TypeName <==> AllNames(cs) != []
    ensures Worst(cs) == Safe <==> Dangerous(cs) == []
  {
    if cs != [] {
      assert cs[|cs| - 1] in cs;
      WorstIffNames(cs[..|cs| - 1]);
    }
  }

  /** A script needs names typed exactly when it is on the top rung, and lists dangers exactly when it is not safe. */
  lemma TopRungIffNames(sql: string)
    ensures Classify(sql).danger == TypeName <==> Classify(sql).namesToType != []
    ensures Classify(sql).danger == Safe <==> Classify(sql).dangerous == []
  {
    hide ClassifyOne, Statements, Distinct, Worst, AllNames, Dangerous, OwnsTransaction;
    var cs := ClassifyEach(Statements(sql));
    forall c | c in cs ensures c.danger == TypeName <==> c.names != [] {
      var i :| 0 <= i < |cs| && cs[i] == c;
      ClassifiedNames(Statements(sql)[i]);
    }
    WorstIffNames(cs);
    DistinctNonEmpty(AllNames(cs));
  }

  lemma DistinctNonEmpty(xs: seq<string>)
    ensures Distinct(xs) == [] <==> xs == []
  {
    if xs != [] {
      assert xs[0] in xs;
    }
  }

  lemma {:induction false} FirstExposedIs(ps: seq<Piece>, k: nat)
    requires k <= |ps|
    ensures match FirstExposed(ps, k)
            case None => forall j | k <= j < |ps| :: ExposedBy(ps, j).None?
            case Some(to) => exists j | k <= j < |ps| :: ExposedBy(ps, j) == Some(to)
                               && forall i | k <= i < j :: ExposedBy(ps, i).None?
    decreases |ps| - k
  {
    hide ExposedBy;
    if k < |ps| && ExposedBy(ps, k).None? {
      FirstExposedIs(ps, k + 1);
    }
  }

  /** A grant is confirmed exactly when it is not on a schema and some role after TO exposes rows. */
  lemma GrantConfirmedIff(ps: seq<Piece>)
    requires Lead(ps) == "GRANT"
    ensures DangerOf(ps).danger == Confirm
       <==> !GrantsOnSchema(ps) && exists k | 0 <= k < |ps| :: ExposedBy(ps, k).Some?
  {
    hide ExposedBy, GrantsOnSchema, GrantTarget, ObjectName;
    FirstExposedIs(ps, 0);
  }
}
