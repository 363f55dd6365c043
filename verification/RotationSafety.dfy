/** No key that ever signed is lost, whatever write a rotation crashes after. */
module RotationSafety {
  import opened Text
  import Secrets
  import opened KeyRotation

  /** `q` waits as the incoming pair: published by a row, its private half stored. */
  ghost predicate Incoming(s: State, q: Pair) {
    && q in s.made && q.kid in s.rows && s.rows[q.kid] == KeyRow(q.publicPem, Next)
    && Secret(s, PrivateKeyName(q.kid)) == Some(q.privatePem)
  }

  /** The writes of a switch from a state where `x`, `y` and `z` are in place. */
  function Moves(x: Pair, y: Pair, z: Pair, q: Pair): (r: seq<Write>)
    ensures |r| == 6
  {
    Switch(z.kid, y.publicPem, x.privatePem, q.kid, q.publicPem, q.privatePem)
  }

  // --- the state after each write of a switch ---

  function Outgoing(rows: map<Kid, KeyRow>, y: Pair, z: Pair): map<Kid, KeyRow> {
    rows[z.kid := KeyRow(if z.kid in rows then rows[z.kid].pem else y.publicPem, Retiring)]
  }

  function RowsAt(rows: map<Kid, KeyRow>, i: nat, y: Pair, z: Pair, q: Pair): map<Kid, KeyRow> {
    if i == 0 then rows else if i < 6 then Outgoing(rows, y, z) else Outgoing(rows, y, z) - {q.kid}
  }

  ghost function SecretAt(s: State, i: nat, x: Pair, z: Pair, q: Pair, m: string): Option<string> {
    if m == PRIVATE && i >= 3 then Some(q.privatePem)
    else if m == PUBLIC && i >= 4 then Some(q.publicPem)
    else if m == KID && i >= 5 then Some(q.kid)
    else if m == PrivateKeyName(z.kid) && i >= 2 && Secret(s, m).None? then Some(x.privatePem)
    else Secret(s, m)
  }

  /** `t` is what `s` becomes after the first `i` writes. */
  ghost predicate At(s: State, t: State, i: nat, x: Pair, y: Pair, z: Pair, q: Pair) {
    && Secrets.Wf(t.table) && t.made == s.made
    && t.signed == s.signed + (if i >= 3 then {q} else {})
    && t.rows == RowsAt(s.rows, i, y, z, q)
    && (forall m :: Secret(t, m) == SecretAt(s, i, x, z, q, m))
    && Kept(s, t) && (i >= 2 ==> First(t.table, PrivateKeyName(z.kid)))
  }

  /** First versions stay where they are, except under the names a switch replaces. */
  ghost predicate Kept(s: State, t: State) {
    forall m | m !in {PRIVATE, PUBLIC, KID, ANON, SERVICE} ::
      First(s.table, m) ==> First(t.table, m)
  }

  lemma HalfOk(s: State, w: Pair)
    requires HalvesOk(s) && w in s.made
    ensures var name := PrivateKeyName(w.kid);
            Secret(s, name).None? || (Secret(s, name) == Some(w.privatePem) && First(s.table, name))
  {
    hide Secret;
  }

  /** The facts of the invariant that the steps of a switch use. */
  lemma InvFacts(s: State, x: Pair, y: Pair, z: Pair)
    requires InvAt(s, x, y, z)
    ensures Secrets.Wf(s.table) && MadeOk(s.made) && HalvesOk(s) && KidOk(z.kid) && z in s.made
  {
    hide Secret, Secrets.Wf, RowsOk, HalvesOk, Covered;
  }

  lemma AtStart(s: State, x: Pair, y: Pair, z: Pair, q: Pair)
    requires Secrets.Wf(s.table)
    ensures At(s, s, 0, x, y, z, q)
  {
    hide Secret, Secrets.Wf;
    assert s.signed + {} == s.signed;
  }

  lemma AtMark(s: State, t: State, x: Pair, y: Pair, z: Pair, q: Pair)
    requires At(s, t, 0, x, y, z, q)
    ensures Apply(t, Moves(x, y, z, q)[0]).Some? && At(s, Apply(t, Moves(x, y, z, q)[0]).value, 1, x, y, z, q)
  {
    hide Secrets.Wf, Secrets.Get, PrivateKeyName;
    forall m ensures SecretAt(s, 1, x, z, q, m) == SecretAt(s, 0, x, z, q, m) {
    }
  }

  lemma AtPut(s: State, t: State, x: Pair, y: Pair, z: Pair, q: Pair)
    requires At(s, t, 1, x, y, z, q) && HalvesOk(s) && z in s.made && KidOk(z.kid)
    ensures Apply(t, Moves(x, y, z, q)[1]).Some? && At(s, Apply(t, Moves(x, y, z, q)[1]).value, 2, x, y, z, q)
  {
    hide Secrets.Wf, Secret, Secrets.Put, PrivateKeyName, HalvesOk;
    var name := PrivateKeyName(z.kid);
    NamesApart(z.kid);
    HalfOk(s, z);
    assert Secret(t, name) == SecretAt(s, 1, x, z, q, name);
    PutSecretIs(t, name, x.privatePem);
    var t' := Apply(t, Moves(x, y, z, q)[1]).value;
    forall m ensures Secret(t', m) == SecretAt(s, 2, x, z, q, m) {
      assert Secret(t, m) == SecretAt(s, 1, x, z, q, m);
    }
  }

  lemma AtReplace(s: State, t: State, i: nat, x: Pair, y: Pair, z: Pair, q: Pair)
    requires 2 <= i < 5 && At(s, t, i, x, y, z, q) && MadeOk(s.made) && q in s.made && KidOk(z.kid)
    ensures Apply(t, Moves(x, y, z, q)[i]).Some? && At(s, Apply(t, Moves(x, y, z, q)[i]).value, i + 1, x, y, z, q)
  {
    hide Secrets.Wf, Secret, Secrets.Replace, PrivateKeyName;
    NamesApart(z.kid);
    assert |PRIVATE| == 15 && |PUBLIC| == 14 && |KID| == 7;
    var name := if i == 2 then PRIVATE else if i == 3 then PUBLIC else KID;
    var value := if i == 2 then q.privatePem else if i == 3 then q.publicPem else q.kid;
    assert Moves(x, y, z, q)[i] == ReplaceSecret(name, value);
    ReplaceSecretIs(t, name, value);
    var t' := Apply(t, ReplaceSecret(name, value)).value;
    if i == 2 {
      assert (set w | w in t.made && w.privatePem == value) == {q};
    }
    forall m ensures Secret(t', m) == SecretAt(s, i + 1, x, z, q, m) {
      assert Secret(t, m) == SecretAt(s, i, x, z, q, m);
    }
  }

  lemma AtDelete(s: State, t: State, x: Pair, y: Pair, z: Pair, q: Pair)
    requires At(s, t, 5, x, y, z, q)
    ensures Apply(t, Moves(x, y, z, q)[5]).Some? && At(s, Apply(t, Moves(x, y, z, q)[5]).value, 6, x, y, z, q)
  {
    hide Secrets.Wf, Secrets.Get, PrivateKeyName;
    forall m ensures SecretAt(s, 6, x, z, q, m) == SecretAt(s, 5, x, z, q, m) {
    }
  }

  lemma AtStep(s: State, t: State, i: nat, x: Pair, y: Pair, z: Pair, q: Pair)
    requires i < 6 && InvAt(s, x, y, z) && q in s.made && At(s, t, i, x, y, z, q)
    ensures Apply(t, Moves(x, y, z, q)[i]).Some? && At(s, Apply(t, Moves(x, y, z, q)[i]).value, i + 1, x, y, z, q)
  {
    hide At, Apply, InvAt, Moves, Secrets.Wf, MadeOk, HalvesOk, KidOk;
    InvFacts(s, x, y, z);
    if i == 0 {
      AtMark(s, t, x, y, z, q);
    } else if i == 1 {
      AtPut(s, t, x, y, z, q);
    } else if i < 5 {
      AtReplace(s, t, i, x, y, z, q);
    } else {
      AtDelete(s, t, x, y, z, q);
    }
  }

  // --- the invariant after each write of a switch ---

  function Pick(late: bool, q: Pair, p: Pair): Pair {
    if late then q else p
  }

  lemma OutgoingOk(rows: map<Kid, KeyRow>, made: set<Pair>, y: Pair, z: Pair)
    requires RowsOk(rows, made) && z in made && (z.kid in rows || y == z)
    ensures RowsOk(Outgoing(rows, y, z), made)
  {
    var rows' := Outgoing(rows, y, z);
    forall k | k in rows' ensures exists w | w in made :: w.kid == k && rows'[k].pem == w.publicPem {
      if k in rows {
        assert rows'[k].pem == rows[k].pem;
      }
    }
  }

  lemma WithoutOk(rows: map<Kid, KeyRow>, made: set<Pair>, k: Kid)
    requires RowsOk(rows, made)
    ensures RowsOk(rows - {k}, made)
  {
  }

  lemma AtRowsOk(s: State, t: State, i: nat, x: Pair, y: Pair, z: Pair, q: Pair)
    requires i <= 6 && InvAt(s, x, y, z) && At(s, t, i, x, y, z, q)
    ensures RowsOk(t.rows, t.made)
  {
    hide Secret, Secrets.Wf, HalvesOk, PrivateKeyName, RowsOk, Outgoing, MadeOk, Covered, Kept;
    OutgoingOk(s.rows, s.made, y, z);
    WithoutOk(Outgoing(s.rows, y, z), s.made, q.kid);
  }

  lemma AtRows(s: State, t: State, i: nat, x: Pair, y: Pair, z: Pair, q: Pair)
    requires i <= 6 && InvAt(s, x, y, z) && Incoming(s, q) && At(s, t, i, x, y, z, q)
    ensures Covered(t, Pick(i >= 4, q, y))
    ensures i <= 5 ==> q.kid in t.rows
    ensures 1 <= i <= 5 ==> z.kid in t.rows
    ensures forall k | k in s.rows && k != q.kid :: k in t.rows
  {
    hide Secret, Secrets.Wf, HalvesOk, PrivateKeyName, RowsOk, Kept, SecretAt;
  }

  lemma AtHalves(s: State, t: State, i: nat, x: Pair, y: Pair, z: Pair, q: Pair)
    requires i <= 6 && InvAt(s, x, y, z) && At(s, t, i, x, y, z, q)
    ensures HalvesOk(t)
    ensures i >= 2 ==> Secret(t, PrivateKeyName(z.kid)).Some?
    ensures forall w | w in s.made && Secret(s, PrivateKeyName(w.kid)).Some? :: Secret(t, PrivateKeyName(w.kid)).Some?
  {
    hide Secret, Secrets.Wf, PrivateKeyName, RowsOk, Covered, HalvesOk;
    forall w | w in t.made
      ensures HalfIn(t, w) && (Secret(s, PrivateKeyName(w.kid)).Some? ==> Secret(t, PrivateKeyName(w.kid)).Some?)
    {
      NamesApart(w.kid);
      HalfOk(s, w);
      var name := PrivateKeyName(w.kid);
      assert Secret(t, name) == SecretAt(s, i, x, z, q, name);
      if w != z {
        NamesInjective(w.kid, z.kid);
      }
    }
    assert HalvesOk(t) by { HalvesFrom(t); }
    assert Secret(t, PrivateKeyName(z.kid)) == SecretAt(s, i, x, z, q, PrivateKeyName(z.kid));
    NamesApart(z.kid);
  }

  ghost predicate HalfIn(s: State, w: Pair) {
    var name := PrivateKeyName(w.kid);
    Secret(s, name).None? || (Secret(s, name) == Some(w.privatePem) && First(s.table, name))
  }

  lemma HalvesFrom(s: State)
    requires forall w | w in s.made :: HalfIn(s, w)
    ensures HalvesOk(s)
  {
    hide Secret, PrivateKeyName;
    forall x | x in s.made ensures
      var name := PrivateKeyName(x.kid);
      Secret(s, name).None? || (Secret(s, name) == Some(x.privatePem) && First(s.table, name))
    {
      assert HalfIn(s, x);
    }
  }

  lemma AtInv(s: State, t: State, i: nat, x: Pair, y: Pair, z: Pair, q: Pair)
    requires i <= 6 && InvAt(s, x, y, z) && Incoming(s, q) && At(s, t, i, x, y, z, q)
    ensures InvAt(t, Pick(i >= 3, q, x), Pick(i >= 4, q, y), Pick(i >= 5, q, z))
  {
    hide Secret, Secrets.Wf, HalvesOk, RowsOk, Covered, PrivateKeyName, RowsAt, MadeOk, Kept;
    AtRowsOk(s, t, i, x, y, z, q);
    AtRows(s, t, i, x, y, z, q);
    AtHalves(s, t, i, x, y, z, q);
    assert |PRIVATE| == 15 && |PUBLIC| == 14 && |KID| == 7;
    assert Secret(t, PRIVATE) == SecretAt(s, i, x, z, q, PRIVATE);
    assert Secret(t, PUBLIC) == SecretAt(s, i, x, z, q, PUBLIC);
    assert Secret(t, KID) == SecretAt(s, i, x, z, q, KID);
    InvFacts(s, x, y, z);
    NamesApart(z.kid);
  }

  // --- a switch as one command performs it ---

  ghost predicate AllApply(s: State, ws: seq<Write>)
    decreases |ws|
  {
    ws == [] || (Apply(s, ws[0]).Some? && AllApply(Apply(s, ws[0]).value, ws[1..]))
  }

  lemma {:induction false} PerformThen(s: State, a: seq<Write>, b: seq<Write>)
    requires AllApply(s, a)
    ensures Perform(s, a + b) == Perform(Perform(s, a), b)
    decreases |a|
  {
    hide Apply;
    if a == [] {
      assert a + b == b;
    } else {
      assert (a + b)[0] == a[0] && (a + b)[1..] == a[1..] + b;
      PerformThen(Apply(s, a[0]).value, a[1..], b);
    }
  }

  lemma {:induction false} SwitchFrom(s: State, t: State, i: nat, j: nat, x: Pair, y: Pair, z: Pair, q: Pair)
    requires i <= j <= 6 && InvAt(s, x, y, z) && q in s.made && At(s, t, i, x, y, z, q)
    ensures AllApply(t, Moves(x, y, z, q)[i..j])
    ensures At(s, Perform(t, Moves(x, y, z, q)[i..j]), j, x, y, z, q)
    decreases j - i
  {
    hide At, Apply, InvAt, Moves;
    var ws := Moves(x, y, z, q)[i..j];
    if i < j {
      AtStep(s, t, i, x, y, z, q);
      var t' := Apply(t, ws[0]).value;
      assert ws[0] == Moves(x, y, z, q)[i] && ws[1..] == Moves(x, y, z, q)[i + 1..j];
      SwitchFrom(s, t', i + 1, j, x, y, z, q);
    }
  }

  /** The first `j` writes of a switch. */
  lemma SwitchTo(s: State, j: nat, x: Pair, y: Pair, z: Pair, q: Pair)
    requires j <= 6 && InvAt(s, x, y, z) && q in s.made
    ensures AllApply(s, Moves(x, y, z, q)[..j])
    ensures At(s, Perform(s, Moves(x, y, z, q)[..j]), j, x, y, z, q)
  {
    hide At, Apply, InvAt, Moves, AllApply, Perform, Secrets.Wf;
    InvFacts(s, x, y, z);
    AtStart(s, x, y, z, q);
    SwitchFrom(s, s, 0, j, x, y, z, q);
    assert Moves(x, y, z, q)[0..j] == Moves(x, y, z, q)[..j];
  }

  predicate IsRemint(w: Write) {
    w.AddApiKey? || (w.ReplaceSecret? && w.name in {ANON, SERVICE})
  }

  /** Minting API keys touches neither the signing key nor what is published. */
  lemma RemintStep(s: State, w: Write, x: Pair, y: Pair, z: Pair)
    requires IsRemint(w) && InvAt(s, x, y, z)
    ensures Apply(s, w).Some? && InvAt(Apply(s, w).value, x, y, z)
    ensures var t := Apply(s, w).value; t.rows == s.rows && forall m | m !in {ANON, SERVICE} :: Secret(t, m) == Secret(s, m)
  {
    hide Secret, Secrets.Wf, HalvesOk, RowsOk, PrivateKeyName, MadeOk, Secrets.Replace;
    InvFacts(s, x, y, z);
    var t := Apply(s, w).value;
    assert |PRIVATE| == 15 && |PUBLIC| == 14 && |KID| == 7 && |ANON| == 8 && |SERVICE| == 16;
    if w.ReplaceSecret? {
      ReplaceSecretIs(s, w.name, w.value);
      RemintHalves(s, t, x, y, z);
    } else {
      assert forall m :: Secret(t, m) == Secret(s, m) by { SameTable(s, t); }
      RemintHalves(s, t, x, y, z);
    }
    NamesApart(z.kid);
    KidOfSigner(s, x, y, z);
    NamesApart(x.kid);
  }

  lemma KidOfSigner(s: State, x: Pair, y: Pair, z: Pair)
    requires InvAt(s, x, y, z)
    ensures x in s.made && KidOk(x.kid)
  {
    hide Secret, Secrets.Wf, HalvesOk, RowsOk, Covered, PrivateKeyName;
  }

  lemma SameTable(s: State, t: State)
    requires s.table == t.table
    ensures forall m :: Secret(t, m) == Secret(s, m)
  {
  }

  lemma RemintHalves(s: State, t: State, x: Pair, y: Pair, z: Pair)
    requires InvAt(s, x, y, z) && t.made == s.made
    requires forall m | m !in {ANON, SERVICE} ::
      Secret(t, m) == Secret(s, m) && Secrets.Rows(t.table, m) == Secrets.Rows(s.table, m)
    ensures HalvesOk(t)
  {
    hide Secret, Secrets.Wf, HalvesOk, RowsOk, PrivateKeyName, Covered, Secrets.Rows;
    forall w | w in t.made ensures HalfIn(t, w) {
      NamesApart(w.kid);
      HalfOk(s, w);
    }
    HalvesFrom(t);
  }

  lemma {:induction false} RemintKeeps(s: State, ws: seq<Write>, x: Pair, y: Pair, z: Pair)
    requires InvAt(s, x, y, z) && forall i | 0 <= i < |ws| :: IsRemint(ws[i])
    ensures InvAt(Perform(s, ws), x, y, z)
    ensures Perform(s, ws).rows == s.rows
    ensures forall m | m !in {ANON, SERVICE} :: Secret(Perform(s, ws), m) == Secret(s, m)
    decreases |ws|
  {
    hide InvAt, Apply, IsRemint, Secret;
    if ws != [] {
      RemintStep(s, ws[0], x, y, z);
      RemintKeeps(Apply(s, ws[0]).value, ws[1..], x, y, z);
    }
  }

  /** Once the API keys are minted, each name holds its own token, and both are registered. */
  ghost predicate Minted(s: State, t: State, tokens: Tokens) {
    && Secret(t, ANON) == Some(tokens.anon) && Secret(t, SERVICE) == Some(tokens.service)
    && t.apiKeys == s.apiKeys + {tokens.anon, tokens.service}
  }

  lemma RemintMints(s: State, tokens: Tokens)
    requires Secrets.Wf(s.table)
    ensures var t := Perform(s, Remint(tokens));
            && Minted(s, t, tokens) && Secrets.Wf(t.table) && t.rows == s.rows
            && forall m | m !in {ANON, SERVICE} :: Secret(t, m) == Secret(s, m)
  {
    hide Secrets.Wf, Secret, Secrets.Replace;
    assert |ANON| == 8 && |SERVICE| == 16;
    ReplaceSecretIs(s, ANON, tokens.anon);
    var s1 := Apply(s, ReplaceSecret(ANON, tokens.anon)).value;
    var s2 := Apply(s1, AddApiKey(tokens.anon)).value;
    SameTable(s1, s2);
    ReplaceSecretIs(s2, SERVICE, tokens.service);
    var s3 := Apply(s2, ReplaceSecret(SERVICE, tokens.service)).value;
    var s4 := Apply(s3, AddApiKey(tokens.service)).value;
    SameTable(s3, s4);
    PerformFour(s, ReplaceSecret(ANON, tokens.anon), AddApiKey(tokens.anon),
                ReplaceSecret(SERVICE, tokens.service), AddApiKey(tokens.service));
  }

  lemma PerformFour(s: State, a: Write, b: Write, c: Write, d: Write)
    requires Apply(s, a).Some? && Apply(Apply(s, a).value, b).Some?
    requires Apply(Apply(Apply(s, a).value, b).value, c).Some?
    requires Apply(Apply(Apply(Apply(s, a).value, b).value, c).value, d).Some?
    ensures Perform(s, [a, b, c, d]) == Apply(Apply(Apply(Apply(s, a).value, b).value, c).value, d).value
  {
    hide Apply;
    var s1 := Apply(s, a).value;
    var s2 := Apply(s1, b).value;
    var s3 := Apply(s2, c).value;
    assert [a, b, c, d][1..] == [b, c, d] && [b, c, d][1..] == [c, d] && [c, d][1..] == [d] && [d][1..] == [];
    assert Perform(s3, [d]) == Perform(Apply(s3, d).value, []);
    assert Perform(s2, [c, d]) == Perform(s3, [d]);
    assert Perform(s1, [b, c, d]) == Perform(s2, [c, d]);
  }

  /** Only minting registers API keys. */
  lemma {:induction false} SwitchKeepsApiKeys(s: State, ws: seq<Write>)
    requires forall i | 0 <= i < |ws| :: !ws[i].AddApiKey?
    ensures Perform(s, ws).apiKeys == s.apiKeys
    decreases |ws|
  {
    hide Secrets.Put, Secrets.Replace, Secrets.Purge, SomeNext;
    if ws != [] && Apply(s, ws[0]).Some? {
      SwitchKeepsApiKeys(Apply(s, ws[0]).value, ws[1..]);
    }
  }

  // --- commands ---

  lemma IncomingIs(s: State, x: Pair, y: Pair, z: Pair, ready: bool, tokens: Tokens) returns (q: Pair)
    requires InvAt(s, x, y, z) && Plan(s, CutOver(ready, tokens)).Some?
    ensures Incoming(s, q) && Plan(s, CutOver(ready, tokens)) == Some(Moves(x, y, z, q) + Remint(tokens))
  {
    hide Secret, Secrets.Wf, HalvesOk, PrivateKeyName, Covered, Remint, MadeOk;
    var kid := NextKid(s.rows).value;
    q :| q in s.made && q.kid == kid && s.rows[kid].pem == q.publicPem;
    HalfOk(s, q);
  }

  lemma PlanSplits(a: seq<Write>, b: seq<Write>, j: nat)
    ensures Take(a + b, j) == if j <= |a| then a[..j] else a + Take(b, j - |a|)
  {
  }

  lemma RemintIsRemint(t: Tokens, j: nat)
    ensures forall i | 0 <= i < |Take(Remint(t), j)| :: IsRemint(Take(Remint(t), j)[i])
  {
  }

  /** A cut-over stopped after `j` writes. */
  lemma CutOverKeeps(s: State, ready: bool, tokens: Tokens, j: nat, x: Pair, y: Pair, z: Pair, q: Pair)
    requires InvAt(s, x, y, z) && Incoming(s, q)
    requires Plan(s, CutOver(ready, tokens)) == Some(Moves(x, y, z, q) + Remint(tokens))
    ensures InvAt(Step(s, CutOver(ready, tokens), j), Pick(j >= 3, q, x), Pick(j >= 4, q, y), Pick(j >= 5, q, z))
  {
    hide InvAt, Moves, Perform, Incoming, Plan, At, AllApply, Remint, IsRemint, Take;
    var a, b := Moves(x, y, z, q), Remint(tokens);
    PlanSplits(a, b, j);
    IncomingMade(s, q);
    if j <= 6 {
      SwitchTo(s, j, x, y, z, q);
      AtInv(s, Perform(s, a[..j]), j, x, y, z, q);
    } else {
      SwitchTo(s, 6, x, y, z, q);
      assert a[..6] == a;
      AtInv(s, Perform(s, a), 6, x, y, z, q);
      PerformThen(s, a, Take(b, j - 6));
      RemintIsRemint(tokens, j - 6);
      RemintKeeps(Perform(s, a), Take(b, j - 6), q, q, q);
    }
  }

  lemma IncomingMade(s: State, q: Pair)
    requires Incoming(s, q)
    ensures q in s.made
  {
    hide Secret, PrivateKeyName;
  }
}
