/** Parentheses, counted: which tokens stand inside them, and what that decides. */
module SqlParens {
  import opened Text
  import opened SqlLexer
  import opened SqlLexing
  import opened SqlSplit
  import opened SqlGuard
  import opened SqlScripts
  import opened SqlLimit

  // --- inside parentheses ---

  /** How many of the pieces from `j` up to `k` are the mark. */
  function Count(ps: seq<Piece>, mark: string, j: nat, k: nat): nat
    requires j <= k <= |ps|
    decreases k
  {
    if k == j then 0 else Count(ps, mark, j, k - 1) + if ps[k - 1].kind == Punct && ps[k - 1].value == mark then 1 else 0
  }

  /** A parenthesis opens at `j` and up to `k` as many have never been closed as opened since. */
  predicate OpenedAt(ps: seq<Piece>, j: nat, k: nat)
    requires k <= |ps|
  {
    && j < k && ps[j].kind == Punct && ps[j].value == "("
    && forall m | j < m <= k :: Count(ps, "(", j, m) > Count(ps, ")", j, m)
  }

  predicate InParens(ps: seq<Piece>, k: nat)
    requires k <= |ps|
  {
    exists j | 0 <= j < k :: OpenedAt(ps, j, k)
  }

  lemma MarksDiffer(p: Piece)
    ensures !(IsMark(p, "(") && IsMark(p, ")"))
  {
    assert "("[0] != ")"[0];
  }

  lemma DepthIs(ps: seq<Piece>, k: nat)
    requires k < |ps|
    ensures var d := Depth(ps, 0, k);
            Depth(ps, 0, k + 1) == if IsMark(ps[k], "(") then d + 1 else if IsMark(ps[k], ")") then (if d > 0 then d - 1 else 0) else d
  {
  }

  lemma CountIs(ps: seq<Piece>, mark: string, j: nat, k: nat)
    requires j <= k < |ps|
    ensures Count(ps, mark, j, k + 1) == Count(ps, mark, j, k) + if IsMark(ps[k], mark) then 1 else 0
    ensures Count(ps, mark, j, j) == 0
  {
  }

  /** While a parenthesis opened at `j` is open, the depth is at least what has been opened since. */
  lemma {:induction false} OpenIsDeep(ps: seq<Piece>, j: nat, k: nat)
    requires k <= |ps| && OpenedAt(ps, j, k)
    ensures Depth(ps, 0, k) >= Count(ps, "(", j, k) - Count(ps, ")", j, k)
    decreases k
  {
    hide Depth, Count;
    MarksDiffer(ps[k - 1]);
    DepthIs(ps, k - 1);
    CountIs(ps, "(", j, k - 1);
    CountIs(ps, ")", j, k - 1);
    if k - 1 > j {
      OpenIsDeep(ps, j, k - 1);
    }
  }

  /** Where the depth is not zero, a parenthesis has been open ever since it last was. */
  lemma {:induction false} DeepIsOpen(ps: seq<Piece>, k: nat) returns (j: nat)
    requires k <= |ps| && Depth(ps, 0, k) > 0
    ensures j < k && OpenedAt(ps, j, k) && Depth(ps, 0, k) == Count(ps, "(", j, k) - Count(ps, ")", j, k)
    decreases k
  {
    hide Depth, Count;
    DepthNone(ps);
    MarksDiffer(ps[k - 1]);
    DepthIs(ps, k - 1);
    if Depth(ps, 0, k - 1) == 0 {
      j := k - 1;
    } else {
      j := DeepIsOpen(ps, k - 1);
    }
    CountIs(ps, "(", j, k - 1);
    CountIs(ps, ")", j, k - 1);
  }

  lemma DepthNone(ps: seq<Piece>)
    ensures Depth(ps, 0, 0) == 0
  {
  }

  /** The guard's depth is above zero exactly inside parentheses. */
  lemma TopLevelIff(ps: seq<Piece>, k: nat)
    requires k <= |ps|
    ensures TopLevel(ps, k) <==> !InParens(ps, k)
  {
    hide Depth, Count;
    if Depth(ps, 0, k) > 0 {
      var j := DeepIsOpen(ps, k);
    }
    forall j | 0 <= j < k && OpenedAt(ps, j, k) ensures Depth(ps, 0, k) > 0 {
      OpenIsDeep(ps, j, k);
    }
  }

  /** The word stands outside parentheses. */
  predicate Outside(ps: seq<Piece>, k: nat, word: string)
    requires k < |ps|
  {
    ps[k].kind == Word && ps[k].value == word && !InParens(ps, k)
  }

  // --- what it decides ---

  /** It begins with one of the words. */
  predicate Begins(ps: seq<Piece>, words: seq<string>) {
    ps != [] && ps[0].kind == Word && ps[0].value in words
  }

  /** A SELECT that may take a LIMIT: seven words stand only inside parentheses. */
  predicate PlainSelect(ps: seq<Piece>) {
    && Begins(ps, ["SELECT"])
    && forall k | 0 <= k < |ps| && ps[k].kind == Word
         && ps[k].value in ["LIMIT", "FETCH", "OFFSET", "UNION", "INTERSECT", "EXCEPT", "INTO"] :: InParens(ps, k)
  }

  lemma LimitableIff(ps: seq<Piece>)
    ensures IsLimitable(ps) <==> PlainSelect(ps)
  {
    hide InParens, Depth, EndsLimitable;
    forall k | 0 <= k < |ps| ensures TopLevel(ps, k) <==> !InParens(ps, k) {
      TopLevelIff(ps, k);
    }
    SevenWords();
    assert "SELECT" != "";
  }

  lemma SevenWords()
    ensures forall w :: EndsLimitable(w) <==> w in ["LIMIT", "FETCH", "OFFSET", "UNION", "INTERSECT", "EXCEPT", "INTO"]
  {
  }

  /**
   * Over all texts: a LIMIT is offered exactly for a script of one statement that begins with SELECT and has
   * none of the seven words outside parentheses, and it is offered for that statement.
   */
  lemma LimitOfferedIff(sql: string)
    ensures Classify(sql).limitable.Some? <==> |Statements(sql)| == 1 && PlainSelect(Pieces(Statements(sql)[0]))
    ensures Classify(sql).limitable.Some? ==> Classify(sql).limitable.value.sql == Statements(sql)[0].sql
  {
    hide IsLimitable, PlainSelect, Pieces, Statements, DangerOf, Worst, Dangerous, AllNames, Distinct, OwnsTransaction;
    if |Statements(sql)| == 1 {
      LimitableIff(Pieces(Statements(sql)[0]));
    }
  }

  lemma WhereIff(ps: seq<Piece>)
    ensures HasTopLevelWhere(ps) <==> exists k | 0 <= k < |ps| :: Outside(ps, k, "WHERE")
  {
    hide InParens, Depth;
    forall k | 0 <= k < |ps| ensures TopLevel(ps, k) && IsWordPiece(ps[k], "WHERE") <==> Outside(ps, k, "WHERE") {
      TopLevelIff(ps, k);
    }
  }

  /** A DELETE or UPDATE is qualified exactly by a WHERE outside parentheses. */
  lemma QualifiedIff(ps: seq<Piece>)
    requires Begins(ps, ["DELETE", "UPDATE"])
    ensures DangerOf(ps).danger == if exists k | 0 <= k < |ps| :: Outside(ps, k, "WHERE") then Safe else Confirm
  {
    hide Outside, HasTopLevelWhere, ObjectName, EffectsOf, GranteeOf, GrantTarget, ObjectNames, AlterActions;
    WhereIff(ps);
    CommandLetters();
  }

  lemma CommandLetters()
    ensures "DELETE" !in ["DROP", "ALTER", "GRANT", "TRUNCATE"] && "UPDATE" !in ["DROP", "ALTER", "GRANT", "TRUNCATE"]
  {
    assert "DELETE"[1] == 'E' && "DROP"[1] == 'R' && "UPDATE"[0] == 'U';
    assert "ALTER"[0] == 'A' && "GRANT"[0] == 'G' && "TRUNCATE"[0] == 'T' && "DELETE"[0] == 'D' && "DROP"[0] == 'D';
  }

  /** A script looks after its own transaction exactly if some statement begins with one of six words. */
  lemma OwnsTransactionIff(sql: string)
    ensures Classify(sql).ownsTransaction <==>
      exists s | s in Statements(sql) :: Begins(Pieces(s), ["BEGIN", "COMMIT", "ROLLBACK", "START", "END", "SAVEPOINT"])
  {
    hide Pieces, Statements, DangerOf, Worst, Dangerous, AllNames, Distinct, IsLimitable, ControlsTransaction, Begins;
    var ss := Statements(sql);
    var cs := ClassifyEach(ss);
    forall i | 0 <= i < |ss|
      ensures cs[i].transactionControl <==>
        Begins(Pieces(ss[i]), ["BEGIN", "COMMIT", "ROLLBACK", "START", "END", "SAVEPOINT"])
    {
      SixWords(Pieces(ss[i]));
    }
    assert OwnsTransaction(cs) <==> exists i | 0 <= i < |ss| :: cs[i].transactionControl;
  }

  lemma SixWords(ps: seq<Piece>)
    ensures ControlsTransaction(Lead(ps)) <==> Begins(ps, ["BEGIN", "COMMIT", "ROLLBACK", "START", "END", "SAVEPOINT"])
  {
  }

  // --- grants ---

  /** A role that exposes rows: everyone, or the anonymous one, unquoted in any case or quoted in lower case. */
  predicate ExposingRole(p: Piece) {
    || (p.kind == Word && p.value in ["PUBLIC", "ANON"])
    || (p.kind == Ident && p.value == "\"anon\"")
  }

  predicate OnSchemaAt(ps: seq<Piece>, i: nat) {
    i + 1 < |ps| && ps[i].kind == Word && ps[i].value == "ON" && ps[i + 1].kind == Word && ps[i + 1].value == "SCHEMA"
  }

  /** An exposing role stands outside parentheses after a TO that does. */
  predicate GrantsTo(ps: seq<Piece>, j: nat, k: nat) {
    j < k < |ps| && Outside(ps, j, "TO") && ExposingRole(ps[k]) && !InParens(ps, k)
  }

  lemma ExposedIff(ps: seq<Piece>, k: nat)
    requires k < |ps|
    ensures ExposedBy(ps, k).Some? <==> exists j | 0 <= j < k :: GrantsTo(ps, j, k)
  {
    hide InParens, Depth;
    TopLevelIff(ps, k);
    forall j | 0 <= j < k ensures TopLevel(ps, j) && IsWordPiece(ps[j], "TO") <==> Outside(ps, j, "TO") {
      TopLevelIff(ps, j);
    }
    assert AfterTo(ps, k) ==> exists j | 0 <= j < k :: Outside(ps, j, "TO");
    assert ExposedBy(ps, k).Some? <==> TopLevel(ps, k) && AfterTo(ps, k) && ExposingRole(ps[k]);
    if AfterTo(ps, k) && ExposingRole(ps[k]) && !InParens(ps, k) {
      var j :| 0 <= j < k && Outside(ps, j, "TO");
      assert GrantsTo(ps, j, k);
    }
    forall j | 0 <= j < k && GrantsTo(ps, j, k) ensures AfterTo(ps, k) {
      assert TopLevel(ps, j) && IsWordPiece(ps[j], "TO");
    }
  }

  /** A GRANT is confirmed exactly when it is not on a schema and an exposing role follows TO. */
  lemma GrantExposesIff(ps: seq<Piece>)
    requires Begins(ps, ["GRANT"])
    ensures DangerOf(ps).danger ==
      if (forall i | 0 <= i < |ps| :: !OnSchemaAt(ps, i)) && (exists j, k | 0 <= j < k < |ps| :: GrantsTo(ps, j, k))
      then Confirm else Safe
  {
    hide GrantsTo, ExposedBy, GrantTarget, ObjectName;
    GrantConfirmedIff(ps);
    SchemaIff(ps);
    GrantIsLow(ps);
    forall k | 0 <= k < |ps| ensures ExposedBy(ps, k).Some? <==> exists j | 0 <= j < k :: GrantsTo(ps, j, k) {
      ExposedIff(ps, k);
    }
    if k :| 0 <= k < |ps| && ExposedBy(ps, k).Some? {
      var j :| 0 <= j < k && GrantsTo(ps, j, k);
    }
    forall j, k | 0 <= j < k < |ps| && GrantsTo(ps, j, k) ensures exists i | 0 <= i < |ps| :: ExposedBy(ps, i).Some? {
      assert ExposedBy(ps, k).Some?;
    }
  }

  lemma SchemaIff(ps: seq<Piece>)
    ensures GrantsOnSchema(ps) <==> exists i | 0 <= i < |ps| :: OnSchemaAt(ps, i)
  {
    if GrantsOnSchema(ps) {
      var i :| 0 <= i < |ps| - 1 && IsWordPiece(ps[i], "ON") && IsWordPiece(ps[i + 1], "SCHEMA");
      assert OnSchemaAt(ps, i);
    }
    if i :| 0 <= i < |ps| && OnSchemaAt(ps, i) {
      assert IsWordPiece(ps[i], "ON") && IsWordPiece(ps[i + 1], "SCHEMA");
    }
  }

  lemma GrantIsLow(ps: seq<Piece>)
    requires Lead(ps) == "GRANT"
    ensures DangerOf(ps).danger != TypeName
  {
    hide GranteeOf, GrantTarget, ObjectName;
  }

  // --- noise before names ---

  const NOISE := [
    "TABLE", "SCHEMA", "VIEW", "MATERIALIZED", "INDEX", "SEQUENCE", "FUNCTION", "PROCEDURE", "TRIGGER", "TYPE", "DOMAIN",
    "EXTENSION", "DATABASE", "ROLE", "USER", "POLICY", "PUBLICATION", "SUBSCRIPTION", "CONCURRENTLY", "IF", "EXISTS", "NOT",
    "ONLY", "FROM"]

  predicate Among(ps: seq<Piece>, words: seq<string>, k: nat) {
    k < |ps| && ps[k].kind == Word && ps[k].value in words
  }

  /** Past the words of the list, and no further. */
  predicate Past(ps: seq<Piece>, words: seq<string>, i: nat, end: nat) {
    i <= end && (forall k | i <= k < end :: Among(ps, words, k)) && !Among(ps, words, end)
  }

  lemma {:induction false} SkipIs(ps: seq<Piece>, i: nat)
    ensures Past(ps, NOISE, i, SkipFrom(ps, i))
    decreases |ps| - i
  {
    hide IsSkip;
    NoiseWords();
    if i < |ps| && ps[i].kind == Word && IsSkip(ps[i].value) {
      SkipIs(ps, i + 1);
    }
  }

  lemma NoiseWords()
    ensures forall w :: IsSkip(w) <==> w in NOISE
  {
  }

  lemma GrantNoiseWords()
    ensures forall w :: IsGrantNoise(w) <==> w in ["ALL", "TABLES", "SEQUENCES", "FUNCTIONS", "ROUTINES", "IN"]
  {
  }

  const GRANT_NOISE := NOISE + ["ALL", "TABLES", "SEQUENCES", "FUNCTIONS", "ROUTINES", "IN"]

  lemma {:induction false} GrantSkipIs(ps: seq<Piece>, i: nat)
    ensures Past(ps, GRANT_NOISE, i, NoiseFrom(ps, i))
    decreases |ps| - i
  {
    hide IsSkip, IsGrantNoise;
    NoiseWords();
    GrantNoiseWords();
    assert forall w :: w in GRANT_NOISE <==> w in NOISE || w in ["ALL", "TABLES", "SEQUENCES", "FUNCTIONS", "ROUTINES", "IN"];
    if i < |ps| && ps[i].kind == Word && (IsSkip(ps[i].value) || IsGrantNoise(ps[i].value)) {
      GrantSkipIs(ps, i + 1);
    }
  }

  predicate Named(p: Piece) {
    p.kind == Word || p.kind == Ident
  }

  /** Words or quoted identifiers from `i` up to `next`, with a point between each two, and no further part after it. */
  predicate IsDotted(ps: seq<Piece>, i: nat, next: nat) {
    && i < next <= |ps| && (next - i) % 2 == 1
    && (forall j | i <= j < next :: if (j - i) % 2 == 0 then Named(ps[j]) else ps[j].kind == Punct && ps[j].value == ".")
    && !(next + 1 < |ps| && ps[next].kind == Punct && ps[next].value == "." && Named(ps[next + 1]))
  }

  lemma {:induction false} DottedTailIs(ps: seq<Piece>, i: nat)
    requires i < |ps| && Named(ps[i])
    ensures IsDotted(ps, i, DottedTail(ps, i + 1).1)
    decreases |ps| - i
  {
    if i + 2 < |ps| && IsMark(ps[i + 1], ".") && IsName(ps[i + 2]) {
      DottedTailIs(ps, i + 2);
      var next := DottedTail(ps, i + 1).1;
      assert next == DottedTail(ps, i + 3).1;
      forall j | i <= j < next
        ensures if (j - i) % 2 == 0 then Named(ps[j]) else ps[j].kind == Punct && ps[j].value == "."
      {
        assert j >= i + 2 ==> (j - (i + 2)) % 2 == (j - i) % 2;
      }
    }
  }

  /** A name is read exactly where a word or a quoted identifier stands, as far as its points and parts go. */
  lemma NameIff(ps: seq<Piece>, i: nat)
    ensures NameAt(ps, i).Some? <==> i < |ps| && Named(ps[i])
    ensures DottedName(ps, i).Some? ==> IsDotted(ps, i, DottedName(ps, i).value.next)
  {
    if i < |ps| && Named(ps[i]) {
      DottedTailIs(ps, i);
    }
  }

  /** The object of any statement but an exposing GRANT is the name that follows the noise after the command. */
  lemma SubjectIs(ps: seq<Piece>, start: nat)
    requires Past(ps, NOISE, 1, start) && !(Begins(ps, ["GRANT"]) && DangerOf(ps).danger == Confirm)
    ensures DangerOf(ps).subject == NameAt(ps, start)
  {
    hide Past, DottedName, EffectsOf, AlterActions, GranteeOf, GrantTarget, HasTopLevelWhere, NamesFrom;
    SkipIs(ps, 1);
    PastIsOne(ps, NOISE, 1, start, SkipFrom(ps, 1));
    FirstName(ps);
  }

  lemma FirstName(ps: seq<Piece>)
    ensures ObjectName(ps) == NameAt(ps, NameListStart(ps))
  {
    hide DottedName;
  }

  lemma PastIsOne(ps: seq<Piece>, words: seq<string>, i: nat, x: nat, y: nat)
    requires Past(ps, words, i, x) && Past(ps, words, i, y)
    ensures x == y
  {
    hide Among;
  }

  /** The object of an exposing GRANT is the name past the noise after the first ON outside parentheses. */
  lemma GrantSubjectIs(ps: seq<Piece>, on: nat, start: nat)
    requires on < |ps| && Outside(ps, on, "ON") && forall i | 0 <= i < on :: !Outside(ps, i, "ON")
    requires Begins(ps, ["GRANT"]) && DangerOf(ps).danger == Confirm && Past(ps, GRANT_NOISE, on + 1, start)
    ensures DangerOf(ps).subject ==
      match NameAt(ps, start)
      case None => None
      case Some(name) =>
        Some(if on + 1 < |ps| && ps[on + 1].kind == Word && ps[on + 1].value == "ALL" then "everything in " + name else name)
  {
    hide Outside, Past, DottedName, GranteeOf, NoiseFrom, TopLevel;
    GrantSkipIs(ps, on + 1);
    PastIsOne(ps, GRANT_NOISE, on + 1, start, NoiseFrom(ps, on + 1));
    forall i | 0 <= i <= on ensures TopLevelOn(ps, i) <==> Outside(ps, i, "ON") {
      OnIff(ps, i);
    }
    FirstOn(ps, 0, on);
  }

  lemma OnIff(ps: seq<Piece>, i: nat)
    requires i < |ps|
    ensures TopLevelOn(ps, i) <==> Outside(ps, i, "ON")
  {
    hide InParens, Depth;
    TopLevelIff(ps, i);
  }

  lemma {:induction false} FirstOn(ps: seq<Piece>, k: nat, on: nat)
    requires k <= on < |ps| && TopLevelOn(ps, on) && forall i | k <= i < on :: !TopLevelOn(ps, i)
    ensures GrantTargetFrom(ps, k) == GrantObject(ps, on)
    decreases on - k
  {
    hide TopLevelOn, GrantObject;
    if k < on {
      FirstOn(ps, k + 1, on);
    }
  }
}
