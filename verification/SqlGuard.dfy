/**
 * The destructive-statement guard of packages/sql-guard/src/index.ts: what a
 * statement costs to run, which names must be typed back, and whether it can take
 * a LIMIT. Each function here says what is decided; the methods are the loops.
 */
module SqlGuard {
  import opened Text
  import opened SqlLexer
  import opened SqlSplit

  // --- a statement as the guard reads it ---

  /** A token, with the spelling that a confirmation shows. */
  datatype Piece = Piece(kind: TokenKind, value: string, shown: string)

  predicate IsPlainChar(c: char) {
    IsLower(c) || IsDigit(c) || c == '_' || c == '$'
  }

  predicate IsPlainName(s: string) {
    && s != "" && (IsLower(s[0]) || s[0] == '_')
    && forall i | 0 <= i < |s| :: IsPlainChar(s[i])
  }

  /** Quotes that do no work: dropping them leaves the same name. */
  predicate RedundantlyQuoted(v: string) {
    |v| >= 2 && v[0] == '"' && v[|v| - 1] == '"' && IsPlainName(v[1..|v| - 1])
  }

  function ShownIdent(v: string): string {
    if RedundantlyQuoted(v) then v[1..|v| - 1] else v
  }

  function Shown(s: Statement, t: Token): string {
    if t.kind == Ident then ShownIdent(t.value)
    else if s.start <= t.start && s.start <= t.end then Cut(s.sql, t.start - s.start, t.end - s.start)
    else ""
  }

  function Pieces(s: Statement): (r: seq<Piece>)
    ensures |r| == |s.tokens|
  {
    seq(|s.tokens|, i requires 0 <= i < |s.tokens| =>
      Piece(s.tokens[i].kind, s.tokens[i].value, Shown(s, s.tokens[i])))
  }

  predicate IsWordPiece(p: Piece, value: string) {
    p.kind == Word && p.value == value
  }

  predicate IsMark(p: Piece, value: string) {
    p.kind == Punct && p.value == value
  }

  predicate IsName(p: Piece) {
    p.kind == Word || p.kind == Ident
  }

  predicate WordAt(ps: seq<Piece>, i: nat, value: string) {
    i < |ps| && IsWordPiece(ps[i], value)
  }

  function Lead(ps: seq<Piece>): string {
    if ps != [] && ps[0].kind == Word then ps[0].value else ""
  }

  /** Parenthesis depth before `k`, counted from `from` and never below zero. */
  function Depth(ps: seq<Piece>, from: nat, k: nat): nat
    requires from <= k <= |ps|
    decreases k
  {
    if k == from then 0
    else
      var d := Depth(ps, from, k - 1);
      if IsMark(ps[k - 1], "(") then d + 1
      else if IsMark(ps[k - 1], ")") then if d > 0 then d - 1 else 0
      else d
  }

  predicate TopLevel(ps: seq<Piece>, k: nat)
    requires k <= |ps|
  {
    Depth(ps, 0, k) == 0
  }

  predicate HasTopLevelWhere(ps: seq<Piece>) {
    exists k | 0 <= k < |ps| :: TopLevel(ps, k) && IsWordPiece(ps[k], "WHERE")
  }

  /** Noise skipped in front of a list of names. */
  predicate IsSkip(w: string) {
    w in {
      "TABLE", "SCHEMA", "VIEW", "MATERIALIZED", "INDEX", "SEQUENCE", "FUNCTION",
      "PROCEDURE", "TRIGGER", "TYPE", "DOMAIN", "EXTENSION", "DATABASE", "ROLE",
      "USER", "POLICY", "PUBLICATION", "SUBSCRIPTION", "CONCURRENTLY",
      "IF", "EXISTS", "NOT", "ONLY", "FROM"
    }
  }

  predicate IsGrantNoise(w: string) {
    w in {"ALL", "TABLES", "SEQUENCES", "FUNCTIONS", "ROUTINES", "IN"}
  }

  /** After `DROP` in an ALTER, these announce a change that loses no column. */
  predicate IsDropNotColumn(w: string) {
    w in {"DEFAULT", "NOT", "IDENTITY", "EXPRESSION", "GENERATED", "CLUSTER", "OIDS", "STATISTICS"}
  }

  predicate EndsLimitable(w: string) {
    w in {"LIMIT", "FETCH", "OFFSET", "UNION", "INTERSECT", "EXCEPT", "INTO"}
  }

  predicate ControlsTransaction(w: string) {
    w in {"BEGIN", "COMMIT", "ROLLBACK", "START", "END", "SAVEPOINT"}
  }

  // --- names ---

  /** The further parts of a dotted name, from the piece `j` on, and what comes after. */
  function DottedTail(ps: seq<Piece>, j: nat): (seq<string>, nat)
    decreases |ps| - j
  {
    if j + 1 < |ps| && IsMark(ps[j], ".") && IsName(ps[j + 1]) then
      var (parts, next) := DottedTail(ps, j + 2);
      ([ps[j + 1].shown] + parts, next)
    else ([], j)
  }

  lemma DottedTailEnds(ps: seq<Piece>, j: nat)
    requires j <= |ps|
    ensures j <= DottedTail(ps, j).1 <= |ps|
    decreases |ps| - j
  {
  }

  datatype Dotted = Dotted(name: string, next: nat)

  function DottedName(ps: seq<Piece>, i: nat): (r: Option<Dotted>)
    ensures r.Some? ==> i < r.value.next <= |ps|
  {
    if i < |ps| && IsName(ps[i]) then
      var (parts, next) := DottedTail(ps, i + 1);
      DottedTailEnds(ps, i + 1);
      Some(Dotted(Join([ps[i].shown] + parts, "."), next))
    else None
  }

  function SkipFrom(ps: seq<Piece>, i: nat): nat
    decreases |ps| - i
  {
    if i < |ps| && ps[i].kind == Word && IsSkip(ps[i].value) then SkipFrom(ps, i + 1) else i
  }

  function NameListStart(ps: seq<Piece>): nat {
    SkipFrom(ps, 1)
  }

  /** The comma list of names that starts at `i`. */
  function NamesFrom(ps: seq<Piece>, i: nat): seq<string>
    decreases |ps| - i
  {
    match DottedName(ps, i)
    case None => []
    case Some(got) =>
      [got.name] + (if got.next < |ps| && IsMark(ps[got.next], ",") then NamesFrom(ps, got.next + 1) else [])
  }

  function ObjectNames(ps: seq<Piece>): seq<string> {
    NamesFrom(ps, NameListStart(ps))
  }

  function ObjectName(ps: seq<Piece>): Option<string> {
    if ObjectNames(ps) == [] then None else Some(ObjectNames(ps)[0])
  }

  // --- ALTER ---

  /** Where the actions begin: at `from`, and after every comma outside parentheses before `end`. */
  function ActionsUpTo(ps: seq<Piece>, from: nat, end: nat): seq<nat>
    requires from <= end <= |ps|
    decreases end
  {
    if end == from then [from]
    else
      ActionsUpTo(ps, from, end - 1)
      + (if Depth(ps, from, end - 1) == 0 && IsMark(ps[end - 1], ",") then [end] else [])
  }

  function AlterActions(ps: seq<Piece>): seq<nat> {
    match DottedName(ps, NameListStart(ps))
    case None => []
    case Some(named) => ActionsUpTo(ps, named.next, |ps|)
  }

  datatype AlterDrop = Column(name: Option<string>) | Constraint(name: Option<string>) | Other

  function NameAt(ps: seq<Piece>, i: nat): Option<string> {
    match DottedName(ps, i)
    case None => None
    case Some(got) => Some(got.name)
  }

  /** Where the name of a `DROP` action stands, past `IF` and `EXISTS`. */
  function PastIfExists(ps: seq<Piece>, m: nat): nat {
    var m' := if WordAt(ps, m, "IF") then m + 1 else m;
    if WordAt(ps, m', "EXISTS") then m' + 1 else m'
  }

  /** One `DROP …` action, from its `DROP` at `at`. */
  function AlterDropAt(ps: seq<Piece>, at: nat): AlterDrop {
    if WordAt(ps, at + 1, "COLUMN") then Column(NameAt(ps, PastIfExists(ps, at + 2)))
    else if WordAt(ps, at + 1, "CONSTRAINT") then Constraint(NameAt(ps, PastIfExists(ps, at + 2)))
    else if at + 1 < |ps| && ps[at + 1].kind == Word && IsDropNotColumn(ps[at + 1].value) then Other
    else Column(NameAt(ps, PastIfExists(ps, at + 1)))
  }

  /** The toll of an action list; `unnamed` when something dropped has no readable name. */
  datatype Effects = Effects(columns: seq<string>, constraints: seq<string>, unnamed: bool)

  const NO_EFFECT := Effects([], [], false)

  function WithAction(e: Effects, ps: seq<Piece>, at: nat): Effects {
    if !WordAt(ps, at, "DROP") then e
    else
      match AlterDropAt(ps, at)
      case Other => e
      case Column(None) => e.(unnamed := true)
      case Constraint(None) => e.(unnamed := true)
      case Column(Some(name)) => e.(columns := e.columns + [name])
      case Constraint(Some(name)) => e.(constraints := e.constraints + [name])
  }

  function EffectsOf(ps: seq<Piece>, starts: seq<nat>): Effects {
    if starts == [] then NO_EFFECT
    else WithAction(EffectsOf(ps, starts[..|starts| - 1]), ps, starts[|starts| - 1])
  }

  // --- GRANT ---

  function NoiseFrom(ps: seq<Piece>, j: nat): nat
    decreases |ps| - j
  {
    if j < |ps| && ps[j].kind == Word && (IsSkip(ps[j].value) || IsGrantNoise(ps[j].value))
    then NoiseFrom(ps, j + 1) else j
  }

  /** What follows the `ON` at `on`. */
  function GrantObject(ps: seq<Piece>, on: nat): Option<string> {
    match NameAt(ps, NoiseFrom(ps, on + 1))
    case None => None
    case Some(name) => Some(if WordAt(ps, on + 1, "ALL") then "everything in " + name else name)
  }

  predicate TopLevelOn(ps: seq<Piece>, k: nat)
    requires k < |ps|
  {
    TopLevel(ps, k) && IsWordPiece(ps[k], "ON")
  }

  function GrantTargetFrom(ps: seq<Piece>, k: nat): Option<string>
    requires k <= |ps|
    decreases |ps| - k
  {
    if k == |ps| then None
    else if TopLevelOn(ps, k) then GrantObject(ps, k)
    else GrantTargetFrom(ps, k + 1)
  }

  function GrantTarget(ps: seq<Piece>): Option<string> {
    GrantTargetFrom(ps, 0)
  }

  datatype Grantee = Anon | Public

  predicate GrantsOnSchema(ps: seq<Piece>) {
    exists i | 0 <= i < |ps| - 1 :: IsWordPiece(ps[i], "ON") && IsWordPiece(ps[i + 1], "SCHEMA")
  }

  predicate AfterTo(ps: seq<Piece>, k: nat)
    requires k <= |ps|
  {
    exists j | 0 <= j < k :: TopLevel(ps, j) && IsWordPiece(ps[j], "TO")
  }

  /** Whether the piece `k` names a role that exposes rows, and which. */
  function ExposedBy(ps: seq<Piece>, k: nat): Option<Grantee>
    requires k < |ps|
  {
    if !TopLevel(ps, k) || !AfterTo(ps, k) then None
    else if IsWordPiece(ps[k], "PUBLIC") then Some(Public)
    else if IsWordPiece(ps[k], "ANON") then Some(Anon)
    else if ps[k].kind == Ident && ps[k].value == "\"anon\"" then Some(Anon)
    else None
  }

  function FirstExposed(ps: seq<Piece>, k: nat): Option<Grantee>
    requires k <= |ps|
    decreases |ps| - k
  {
    if k == |ps| then None
    else if ExposedBy(ps, k).Some? then ExposedBy(ps, k)
    else FirstExposed(ps, k + 1)
  }

  function GranteeOf(ps: seq<Piece>): Option<Grantee> {
    if GrantsOnSchema(ps) then None else FirstExposed(ps, 0)
  }

  // --- the ladder ---

  datatype Danger = Safe | Confirm | TypeName

  datatype Verdict = Verdict(danger: Danger, subject: Option<string>, names: seq<string>)

  function DropVerdict(ps: seq<Piece>): Verdict {
    if WordAt(ps, 1, "TABLE") || WordAt(ps, 1, "SCHEMA") then
      Verdict(if ObjectNames(ps) == [] then Confirm else TypeName, ObjectName(ps), ObjectNames(ps))
    else Verdict(Confirm, ObjectName(ps), [])
  }

  function AlterVerdict(ps: seq<Piece>): Verdict {
    var e := EffectsOf(ps, AlterActions(ps));
    if e.columns != [] then Verdict(TypeName, ObjectName(ps), e.columns)
    else if e.constraints != [] || e.unnamed then Verdict(Confirm, ObjectName(ps), [])
    else Verdict(Safe, ObjectName(ps), [])
  }

  function GrantVerdict(ps: seq<Piece>): Verdict {
    if GranteeOf(ps).None? then Verdict(Safe, ObjectName(ps), []) else Verdict(Confirm, GrantTarget(ps), [])
  }

  function DangerOf(ps: seq<Piece>): Verdict {
    var command := Lead(ps);
    if command == "DROP" then DropVerdict(ps)
    else if command == "ALTER" then AlterVerdict(ps)
    else if command == "GRANT" then GrantVerdict(ps)
    else if command == "TRUNCATE" then Verdict(Confirm, ObjectName(ps), [])
    else if command == "DELETE" || command == "UPDATE" then
      Verdict(if HasTopLevelWhere(ps) then Safe else Confirm, ObjectName(ps), [])
    else Verdict(Safe, ObjectName(ps), [])
  }

  predicate IsLimitable(ps: seq<Piece>) {
    && Lead(ps) == "SELECT"
    && forall k | 0 <= k < |ps| :: TopLevel(ps, k) && ps[k].kind == Word ==> !EndsLimitable(ps[k].value)
  }

  // --- scripts ---

  datatype Classified = Classified(
    sql: string, command: string, danger: Danger, subject: Option<string>, names: seq<string>,
    limitable: bool, transactionControl: bool)

  function ClassifiedAs(sql: string, ps: seq<Piece>): Classified {
    var v := DangerOf(ps);
    Classified(sql, Lead(ps), v.danger, v.subject, v.names, IsLimitable(ps), ControlsTransaction(Lead(ps)))
  }

  function ClassifyOne(s: Statement): Classified {
    ClassifiedAs(s.sql, Pieces(s))
  }

  function ClassifyEach(ss: seq<Statement>): (r: seq<Classified>)
    ensures |r| == |ss|
  {
    seq(|ss|, i requires 0 <= i < |ss| => ClassifyOne(ss[i]))
  }

  function Rank(d: Danger): nat {
    match d
    case Safe => 0
    case Confirm => 1
    case TypeName => 2
  }

  function Max(d: Danger, e: Danger): Danger {
    if Rank(e) > Rank(d) then e else d
  }

  function Worst(cs: seq<Classified>): Danger {
    if cs == [] then Safe else Max(Worst(cs[..|cs| - 1]), cs[|cs| - 1].danger)
  }

  function Dangerous(cs: seq<Classified>): seq<Classified> {
    if cs == [] then []
    else Dangerous(cs[..|cs| - 1]) + (if cs[|cs| - 1].danger != Safe then [cs[|cs| - 1]] else [])
  }

  function AllNames(cs: seq<Classified>): seq<string> {
    if cs == [] then [] else AllNames(cs[..|cs| - 1]) + cs[|cs| - 1].names
  }

  predicate OwnsTransaction(cs: seq<Classified>) {
    exists i | 0 <= i < |cs| :: cs[i].transactionControl
  }

  datatype Script = Script(
    statements: seq<Classified>, danger: Danger, dangerous: seq<Classified>,
    namesToType: seq<string>, ownsTransaction: bool, limitable: Option<Classified>)

  function ScriptOf(cs: seq<Classified>): Script {
    Script(cs, Worst(cs), Dangerous(cs), Distinct(AllNames(cs)), OwnsTransaction(cs),
           if |cs| == 1 && cs[0].limitable then Some(cs[0]) else None)
  }

  function Classify(sql: string): Script {
    ScriptOf(ClassifyEach(Statements(sql)))
  }
}
