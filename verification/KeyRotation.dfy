/**
 * Signing-key rotation: services/worker/src/key-rotation.ts. A command reads first
 * and then writes; a crash may stop it after any of its writes. Commands are serial.
 */
module KeyRotation {
  import opened Text
  import Secrets

  type Kid = string

  datatype Pair = Pair(kid: Kid, publicPem: string, privatePem: string)

  datatype Status = Next | Retiring | Retired

  /** A row of `project_signing_keys`, by kid. */
  datatype KeyRow = KeyRow(pem: string, status: Status)

  /**
   * `made` and `signed` are history: every pair generated, and every pair whose
   * private half has ever been the signing key.
   */
  datatype State = State(
    table: Secrets.Table, rows: map<Kid, KeyRow>, apiKeys: set<string>, made: set<Pair>, signed: set<Pair>)

  const PRIVATE := "JWT_PRIVATE_KEY"
  const PUBLIC := "JWT_PUBLIC_KEY"
  const KID := "JWT_KID"
  const ANON := "ANON_KEY"
  const SERVICE := "SERVICE_ROLE_KEY"

  function PrivateKeyName(kid: Kid): string {
    PRIVATE + "_" + Upper(kid)
  }

  predicate IsKidChar(c: char) {
    IsLower(c) || IsDigit(c) || c == '_'
  }

  /** The table's check on a kid. */
  predicate KidOk(kid: Kid) {
    4 <= |kid| <= 64 && forall i | 0 <= i < |kid| :: IsKidChar(kid[i])
  }

  /** Lower-case letters, digits and underscores, one at least. */
  predicate KidText(kid: Kid) {
    kid != "" && forall c | c in kid :: 'a' <= c <= 'z' || '0' <= c <= '9' || c == '_'
  }

  /** The check: such a text of four to sixty-four characters. */
  lemma KidOkIff(kid: Kid)
    ensures KidOk(kid) <==> 4 <= |kid| <= 64 && KidText(kid)
  {
    assert KidOk(kid) ==> forall i | 0 <= i < |kid| :: IsKidChar(kid[i]);
    assert KidText(kid) ==> forall i | 0 <= i < |kid| :: kid[i] in kid;
  }

  lemma {:induction false} UpperKeepsLength(s: string)
    requires forall i | 0 <= i < |s| :: IsKidChar(s[i])
    ensures |Upper(s)| == |s|
  {
    if s != "" {
      UpperKeepsLength(s[1..]);
    }
  }

  lemma {:induction false} UpperInjective(s: string, t: string)
    requires forall i | 0 <= i < |s| :: IsKidChar(s[i])
    requires forall i | 0 <= i < |t| :: IsKidChar(t[i])
    requires Upper(s) == Upper(t)
    ensures s == t
  {
    UpperKeepsLength(s);
    UpperKeepsLength(t);
    if s != "" {
      assert Upper(s)[0] == UpperChar(s[0])[0] && Upper(t)[0] == UpperChar(t[0])[0];
      assert Upper(s)[1..] == Upper(s[1..]) && Upper(t)[1..] == Upper(t[1..]);
      UpperInjective(s[1..], t[1..]);
      assert s == [s[0]] + s[1..] && t == [t[0]] + t[1..];
    }
  }

  /** Two kids never share the name their private halves are kept under. */
  lemma NamesInjective(k: Kid, l: Kid)
    requires KidOk(k) && KidOk(l) && k != l
    ensures PrivateKeyName(k) != PrivateKeyName(l)
  {
    hide Upper;
    if PrivateKeyName(k) == PrivateKeyName(l) {
      var n := |PRIVATE + "_"|;
      assert PrivateKeyName(k)[n..] == Upper(k) && PrivateKeyName(l)[n..] == Upper(l);
      UpperInjective(k, l);
      assert false;
    }
  }

  /** Nor is it the name of anything else the rotation writes. */
  lemma NamesApart(k: Kid)
    requires KidOk(k)
    ensures PrivateKeyName(k) !in {PRIVATE, PUBLIC, KID, ANON, SERVICE}
  {
    hide Upper;
    UpperKeepsLength(k);
    assert |PrivateKeyName(k)| >= 20;
    assert |SERVICE| == 16;
  }

  // --- writes ---

  datatype Write =
    | PutSecret(name: string, value: string)
    | ReplaceSecret(name: string, value: string)
    | MarkRetiring(kid: Kid, pem: string)
    | InsertNext(kid: Kid, pem: string)
    | DeleteRow(kid: Kid)
    | MarkRetired(kid: Kid)
    | AddApiKey(token: string)
    | PurgeSecrets(aged: map<string, set<nat>>)

  ghost function Secret(s: State, name: string): Option<string> {
    Secrets.Get(s.table, name)
  }

  predicate SomeNext(rows: map<Kid, KeyRow>) {
    exists k | k in rows :: rows[k].status == Next
  }

  /** One write; none when the database refuses it. */
  ghost function Apply(s: State, w: Write): Option<State> {
    match w
    case PutSecret(name, value) =>
      (match Secrets.Put(s.table, name, value)
       case Ok(t) => Some(s.(table := t))
       case UniqueViolation => None)
    case ReplaceSecret(name, value) =>
      Some(s.(table := Secrets.Replace(s.table, name, value),
              signed := s.signed + if name == PRIVATE then set x | x in s.made && x.privatePem == value else {}))
    case MarkRetiring(kid, pem) =>
      Some(s.(rows := s.rows[kid := KeyRow(if kid in s.rows then s.rows[kid].pem else pem, Retiring)]))
    case InsertNext(kid, pem) =>
      if kid in s.rows || SomeNext(s.rows) then None else Some(s.(rows := s.rows[kid := KeyRow(pem, Next)]))
    case DeleteRow(kid) => Some(s.(rows := s.rows - {kid}))
    case MarkRetired(kid) =>
      Some(if kid in s.rows then s.(rows := s.rows[kid := s.rows[kid].(status := Retired)]) else s)
    case AddApiKey(token) => Some(s.(apiKeys := s.apiKeys + {token}))
    case PurgeSecrets(aged) => Some(s.(table := Secrets.Purge(s.table, aged)))
  }

  /** The writes in order; a refused one ends the command. */
  ghost function Perform(s: State, ws: seq<Write>): State
    decreases |ws|
  {
    if ws == [] then s
    else
      match Apply(s, ws[0])
      case None => s
      case Some(s') => Perform(s', ws[1..])
  }

  // --- commands ---

  datatype Tokens = Tokens(anon: string, service: string)

  datatype Command =
    | Begin(pair: Pair)
    | CutOver(ready: bool, tokens: Tokens)
    | Retire(kid: Kid, due: bool)
    | Purge(aged: map<string, set<nat>>)

  ghost function NextKid(rows: map<Kid, KeyRow>): Option<Kid> {
    if SomeNext(rows) then
      var k :| k in rows && rows[k].status == Next;
      Some(k)
    else None
  }

  function Remint(t: Tokens): seq<Write> {
    [ReplaceSecret(ANON, t.anon), AddApiKey(t.anon), ReplaceSecret(SERVICE, t.service), AddApiKey(t.service)]
  }

  /** The six writes that move the signing key from one pair to the next. */
  function Switch(oldKid: Kid, oldPem: string, oldPrivate: string, newKid: Kid, newPem: string, newPrivate: string): seq<Write> {
    [MarkRetiring(oldKid, oldPem), PutSecret(PrivateKeyName(oldKid), oldPrivate), ReplaceSecret(PRIVATE, newPrivate),
     ReplaceSecret(PUBLIC, newPem), ReplaceSecret(KID, newKid), DeleteRow(newKid)]
  }

  /** `if (oldPriv)`: a project without a private half skips one write. */
  ghost function CutOverPlan(s: State, kid: Kid, t: Tokens): Option<seq<Write>>
    requires kid in s.rows
  {
    var pub, was, half := Secret(s, PUBLIC), Secret(s, KID), Secret(s, PrivateKeyName(kid));
    if pub.None? || was.None? || half.None? then None
    else
      match Secret(s, PRIVATE)
      case Some(private) => Some(Switch(was.value, pub.value, private, kid, s.rows[kid].pem, half.value) + Remint(t))
      case None =>
        var ws := Switch(was.value, pub.value, "", kid, s.rows[kid].pem, half.value);
        Some([ws[0]] + ws[2..] + Remint(t))
  }

  /** What a command will write, from what it reads; none when it refuses or has nothing to do. */
  ghost function Plan(s: State, c: Command): Option<seq<Write>> {
    match c
    case Begin(pair) =>
      if SomeNext(s.rows) then None
      else Some([PutSecret(PrivateKeyName(pair.kid), pair.privatePem), InsertNext(pair.kid, pair.publicPem)])
    case CutOver(ready, tokens) =>
      (match NextKid(s.rows)
       case None => None
       case Some(kid) => if kid in s.rows && ready then CutOverPlan(s, kid, tokens) else None)
    case Retire(kid, due) =>
      if kid !in s.rows || s.rows[kid].status == Retired then None
      else if s.rows[kid].status == Retiring && !due then None
      else Some([MarkRetired(kid)])
    case Purge(aged) => Some([PurgeSecrets(aged)])
  }

  /** A pair like none before it. */
  ghost predicate Fresh(s: State, p: Pair) {
    && KidOk(p.kid) && p.kid !in s.rows && Secret(s, PrivateKeyName(p.kid)).None?
    && forall x | x in s.made :: x.kid != p.kid && x.publicPem != p.publicPem && x.privatePem != p.privatePem
  }

  /** The pair is generated before anything is written. */
  function Generated(s: State, c: Command): State {
    if c.Begin? then s.(made := s.made + {c.pair}) else s
  }

  /** A command, stopped after at most `j` writes. */
  ghost function Step(s: State, c: Command, j: nat): State {
    match Plan(s, c)
    case None => s
    case Some(ws) => Perform(Generated(s, c), Take(ws, j))
  }

  // --- what verifiers accept ---

  datatype Published = Published(kid: Kid, pem: string, status: Option<Status>)

  /** `publishedKeys`, as a set: the signing key's entry has no row status. */
  ghost function PublishedKeys(s: State): set<Published> {
    (if Secret(s, PUBLIC).Some? && Secret(s, KID).Some?
     then {Published(Secret(s, KID).value, Secret(s, PUBLIC).value, None)} else {})
    + set k | k in s.rows && s.rows[k].status != Retired :: Published(k, s.rows[k].pem, Some(s.rows[k].status))
  }

  ghost predicate Accepted(s: State, pem: string) {
    exists p | p in PublishedKeys(s) :: p.pem == pem
  }

  lemma AcceptedIff(s: State, pem: string)
    ensures Accepted(s, pem) <==>
      || (Secret(s, PUBLIC) == Some(pem) && Secret(s, KID).Some?)
      || (exists k | k in s.rows :: s.rows[k].status != Retired && s.rows[k].pem == pem)
  {
    if Secret(s, PUBLIC) == Some(pem) && Secret(s, KID).Some? {
      assert Published(Secret(s, KID).value, pem, None) in PublishedKeys(s);
    }
    if k :| k in s.rows && s.rows[k].status != Retired && s.rows[k].pem == pem {
      assert Published(k, pem, Some(s.rows[k].status)) in PublishedKeys(s);
    }
  }

  // --- the invariant ---

  /** No two pairs share a part. */
  predicate MadeOk(made: set<Pair>) {
    && (forall x | x in made :: KidOk(x.kid))
    && forall x, y | x in made && y in made ::
         x.kid == y.kid || x.publicPem == y.publicPem || x.privatePem == y.privatePem ==> x == y
  }

  /** Each row holds its own pair's public half. */
  predicate RowsOk(rows: map<Kid, KeyRow>, made: set<Pair>) {
    && (forall k | k in rows :: exists x | x in made :: x.kid == k && rows[k].pem == x.publicPem)
    && (forall k, l | k in rows && l in rows && rows[k].status == Next && rows[l].status == Next :: k == l)
  }

  /** The name has a first version and none after it, so no purge can touch it. */
  ghost predicate First(t: Secrets.Table, name: string) {
    Secrets.Top(Secrets.Rows(t, name)) == 1
  }

  /** Each stored half is its own pair's, and stored under version 1. */
  ghost predicate HalvesOk(s: State) {
    forall x | x in s.made ::
      var name := PrivateKeyName(x.kid);
      Secret(s, name).None? || (Secret(s, name) == Some(x.privatePem) && First(s.table, name))
  }

  /** Every pair that ever signed is on show or has a row. */
  predicate Covered(s: State, y: Pair) {
    forall w | w in s.signed :: w == y || w.kid in s.rows
  }

  /** `x` signs, `y` is shown as the signing key's public half, `z` gives its kid. */
  ghost predicate InvAt(s: State, x: Pair, y: Pair, z: Pair) {
    && Secrets.Wf(s.table) && MadeOk(s.made) && RowsOk(s.rows, s.made) && HalvesOk(s) && Covered(s, y)
    && s.signed <= s.made && x in s.signed && y in s.made && z in s.made
    && Secret(s, PRIVATE) == Some(x.privatePem)
    && Secret(s, PUBLIC) == Some(y.publicPem)
    && Secret(s, KID) == Some(z.kid)
    && (y == z || y.kid in s.rows)
    && (z.kid in s.rows || y == z)
    && (Secret(s, PrivateKeyName(z.kid)).None? ==> x == z)
    && (x != y ==> Secret(s, PrivateKeyName(x.kid)).Some?)
  }

  /** Each public half that ever signed is accepted, unless its own kid was retired. */
  ghost predicate NothingLost(s: State) {
    forall w | w in s.signed :: Accepted(s, w.publicPem) || (w.kid in s.rows && s.rows[w.kid].status == Retired)
  }

  lemma InvNothingLost(s: State, x: Pair, y: Pair, z: Pair)
    requires InvAt(s, x, y, z)
    ensures NothingLost(s)
  {
    hide Accepted, Secret, HalvesOk, PrivateKeyName;
    forall w | w in s.signed ensures Accepted(s, w.publicPem) || (w.kid in s.rows && s.rows[w.kid].status == Retired) {
      AcceptedIff(s, w.publicPem);
      if w != y {
        RowIsOwn(s.rows, s.made, w);
      }
    }
  }

  lemma RowIsOwn(rows: map<Kid, KeyRow>, made: set<Pair>, w: Pair)
    requires MadeOk(made) && RowsOk(rows, made) && w in made && w.kid in rows
    ensures rows[w.kid].pem == w.publicPem
  {
  }

  // --- the secrets under a write ---

  lemma PutSecretIs(s: State, name: string, value: string)
    requires Secrets.Wf(s.table) && (Secret(s, name).None? || First(s.table, name))
    ensures var s' := Apply(s, PutSecret(name, value));
            && s'.Some? && Secrets.Wf(s'.value.table) && s'.value == s.(table := s'.value.table)
            && (forall m :: Secret(s'.value, m)
                  == if m == name && Secret(s, name).None? then Some(value) else Secret(s, m))
            && First(s'.value.table, name)
            && (forall m | m != name :: Secrets.Rows(s'.value.table, m) == Secrets.Rows(s.table, m))
  {
    hide Secrets.Wf, Secrets.Get, Secrets.HasActive, Secrets.Top;
    Secrets.PutFirst(s.table, name, value);
    Secrets.PutSucceedsIff(s.table, name, value);
    Secrets.PutWf(s.table, name, value);
  }

  lemma ReplaceSecretIs(s: State, name: string, value: string)
    requires Secrets.Wf(s.table)
    ensures var s' := Apply(s, ReplaceSecret(name, value));
            && s'.Some? && Secrets.Wf(s'.value.table)
            && s'.value == s.(table := s'.value.table, signed := s'.value.signed)
            && (name != PRIVATE ==> s'.value.signed == s.signed)
            && (forall m :: Secret(s'.value, m) == if m == name then Some(value) else Secret(s, m))
            && (forall m | m != name :: Secrets.Rows(s'.value.table, m) == Secrets.Rows(s.table, m))
  {
    hide Secrets.Wf, Secrets.Get, Secrets.Top;
    Secrets.ReplaceWf(s.table, name, value);
    forall m ensures Secrets.Get(Secrets.Replace(s.table, name, value), m)
      == if m == name then Some(value) else Secrets.Get(s.table, m)
    {
      Secrets.ReplaceGet(s.table, name, value, m);
    }
  }
}
