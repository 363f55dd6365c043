/** The three rotation commands as they are written: reads, then one write after another. */
module RotationCommands {
  import opened Text
  import Secrets
  import SecretRuns
  import opened KeyRotation
  import opened RotationSafety
  import opened RotationRuns

  lemma PerformSnoc(s: State, ws: seq<Write>, w: Write)
    requires AllApply(s, ws) && Apply(Perform(s, ws), w).Some?
    ensures AllApply(s, ws + [w]) && Perform(s, ws + [w]) == Apply(Perform(s, ws), w).value
  {
    hide Apply, AllApply, Perform;
    PerformThen(s, ws, [w]);
    PerformOne(Perform(s, ws), w);
    AllApplySnoc(s, ws, w);
  }

  lemma {:induction false} AllApplySnoc(s: State, ws: seq<Write>, w: Write)
    requires AllApply(s, ws) && Apply(Perform(s, ws), w).Some?
    ensures AllApply(s, ws + [w])
    decreases |ws|
  {
    hide Apply;
    if ws == [] {
      assert ws + [w] == [w] && [w][1..] == [];
    } else {
      assert (ws + [w])[1..] == ws[1..] + [w];
      AllApplySnoc(Apply(s, ws[0]).value, ws[1..], w);
    }
  }

  class Project {
    const secrets: SecretRuns.SecretStore
    var rows: map<Kid, KeyRow>
    var apiKeys: set<string>
    ghost var made: set<Pair>
    ghost var signed: set<Pair>

    constructor (secrets: SecretRuns.SecretStore)
      ensures this.secrets == secrets && rows == map[] && apiKeys == {} && made == {} && signed == {}
    {
      this.secrets := secrets;
      rows, apiKeys, made, signed := map[], {}, {}, {};
    }

    ghost function View(): State
      reads this, secrets
    {
      State(secrets.table, rows, apiKeys, made, signed)
    }

    method PutSecret(name: string, value: string) returns (ok: bool)
      requires Secrets.Wf(secrets.table)
      modifies secrets
      ensures Secrets.Wf(secrets.table)
      ensures Apply(old(View()), Write.PutSecret(name, value)) == if ok then Some(View()) else None
      ensures !ok ==> View() == old(View())
    {
      hide Secrets.Put, Secrets.Get, Secrets.Wf;
      ok := secrets.Put(name, value);
    }

    method ReplaceSecret(name: string, value: string)
      requires Secrets.Wf(secrets.table)
      modifies secrets, this`signed
      ensures Secrets.Wf(secrets.table)
      ensures Apply(old(View()), Write.ReplaceSecret(name, value)) == Some(View())
    {
      hide Secrets.Replace, Secrets.Get, Secrets.Wf, Secrets.Top;
      if name == PRIVATE {
        signed := signed + set x | x in made && x.privatePem == value;
      } else {
        assert signed + {} == signed;
      }
      var _, _ := secrets.Replace(name, value);
    }

    /** The upsert: a row that is there keeps its public half. */
    method MarkRetiring(kid: Kid, pem: string)
      modifies this`rows
      ensures Apply(old(View()), Write.MarkRetiring(kid, pem)) == Some(View())
    {
      hide Secrets.Get;
      if kid in rows {
        rows := rows[kid := rows[kid].(status := Retiring)];
      } else {
        rows := rows[kid := KeyRow(pem, Retiring)];
      }
    }

    method AddApiKey(token: string)
      modifies this`apiKeys
      ensures Apply(old(View()), Write.AddApiKey(token)) == Some(View())
    {
      hide Secrets.Get;
      apiKeys := apiKeys + {token};
    }

    /** Mint both API keys under the key that signs now. */
    method Remint(tokens: Tokens)
      requires Secrets.Wf(secrets.table)
      modifies secrets, this`signed, this`apiKeys
      ensures Secrets.Wf(secrets.table)
      ensures View() == Perform(old(View()), KeyRotation.Remint(tokens))
    {
      hide Secrets.Wf, Apply, AllApply, Perform;
      ghost var start, done := View(), [];
      AllApplyNil(start);
      ReplaceSecret(ANON, tokens.anon);
      done := Logged(start, done, Write.ReplaceSecret(ANON, tokens.anon), View());
      AddApiKey(tokens.anon);
      done := Logged(start, done, Write.AddApiKey(tokens.anon), View());
      ReplaceSecret(SERVICE, tokens.service);
      done := Logged(start, done, Write.ReplaceSecret(SERVICE, tokens.service), View());
      AddApiKey(tokens.service);
      done := Logged(start, done, Write.AddApiKey(tokens.service), View());
      assert done == KeyRotation.Remint(tokens);
    }

    /** The writes of the switch, in their order; without a private half to keep, one is left out. */
    method Switch(oldKid: Kid, oldPem: string, oldPrivate: Option<string>, kid: Kid, pem: string, private: string) returns (ok: bool)
      requires Secrets.Wf(secrets.table)
      modifies this`rows, this`signed, secrets
      ensures Secrets.Wf(secrets.table)
      ensures var ws := SwitchWrites(oldKid, oldPem, oldPrivate, kid, pem, private);
              && (ok ==> AllApply(old(View()), ws) && View() == Perform(old(View()), ws))
              && (!ok ==> AllApply(old(View()), ws[..1]) && View() == Perform(old(View()), ws[..1])
                          && Apply(View(), ws[1]).None?)
    {
      hide Secrets.Wf, Apply, AllApply, Perform;
      ghost var start, done := View(), [];
      ghost var ws := SwitchWrites(oldKid, oldPem, oldPrivate, kid, pem, private);
      AllApplyNil(start);
      MarkRetiring(oldKid, oldPem);
      done := Logged(start, done, Write.MarkRetiring(oldKid, oldPem), View());
      assert done == ws[..1];
      ok := true;
      if oldPrivate.Some? {
        ok := PutSecret(PrivateKeyName(oldKid), oldPrivate.value);
        if !ok {
          return;
        }
        done := Logged(start, done, Write.PutSecret(PrivateKeyName(oldKid), oldPrivate.value), View());
      }
      ReplaceSecret(PRIVATE, private);
      done := Logged(start, done, Write.ReplaceSecret(PRIVATE, private), View());
      ReplaceSecret(PUBLIC, pem);
      done := Logged(start, done, Write.ReplaceSecret(PUBLIC, pem), View());
      ReplaceSecret(KID, kid);
      done := Logged(start, done, Write.ReplaceSecret(KID, kid), View());
      DeleteRow(kid);
      done := Logged(start, done, Write.DeleteRow(kid), View());
      assert done == ws;
    }

    /** Begin, undisturbed: a waiting key is returned as it is, else the new one is stored and then published. */
    method Begin(pair: Pair, ghost x: Pair, ghost y: Pair, ghost z: Pair) returns (kid: Kid, created: bool)
      requires InvAt(View(), x, y, z) && Fresh(View(), pair)
      modifies this, secrets
      ensures created == !SomeNext(old(rows))
      ensures InvAt(View(), x, y, z) && kid in rows && rows[kid].status == Next
      ensures !created ==> View() == old(View())
      ensures created ==> kid == pair.kid && View() == Perform(Generated(old(View()), Command.Begin(pair)),
                                                              Plan(old(View()), Command.Begin(pair)).value)
      ensures created ==> Incoming(View(), pair)
    {
      hide Secrets.Wf, Apply, Perform, InvAt, Fresh, Secrets.Get, PrivateKeyName;
      ghost var start := View();
      InvFacts(start, x, y, z);
      if k :| k in rows && rows[k].status == Next {
        return k, false;
      }
      GeneratedKeeps(start, pair, x, y, z);
      FreshFacts(start, pair, x, y, z);
      FreshRow(start, pair);
      made := made + {pair};
      StoredKeeps(View(), pair, x, y, z);
      StoredIs(View(), pair, x, y, z);
      ghost var put, insert := Write.PutSecret(PrivateKeyName(pair.kid), pair.privatePem), InsertNext(pair.kid, pair.publicPem);
      PerformTwo(View(), put, insert, 2);
      assert Take([put, insert], 2) == [put, insert];
      var ok := PutSecret(PrivateKeyName(pair.kid), pair.privatePem);
      InsertedKeeps(View(), pair, x, y, z);
      InsertIs(View(), pair);
      rows := rows[pair.kid := KeyRow(pair.publicPem, Next)];
      return pair.kid, true;
    }

    /** Retire a waiting key, or a retiring one that is due; any other is kept, and the answer is false. */
    method Retire(kid: Kid, due: bool) returns (retired: bool)
      modifies this`rows
      ensures retired == (kid in old(rows)
                && (old(rows)[kid].status == Next || (old(rows)[kid].status == Retiring && due)))
      ensures rows == if retired then old(rows)[kid := KeyRow(old(rows)[kid].pem, Retired)] else old(rows)
      ensures retired == Plan(old(View()), Command.Retire(kid, due)).Some?
      ensures View() == Step(old(View()), Command.Retire(kid, due), 1)
    {
      hide Secrets.Get, Perform;
      ghost var start := View();
      assert Take([MarkRetired(kid)], 1) == [MarkRetired(kid)];
      PerformOne(start, MarkRetired(kid));
      if kid !in rows || rows[kid].status == Retired || (rows[kid].status == Retiring && !due) {
        return false;
      }
      rows := rows[kid := rows[kid].(status := Retired)];
      return true;
    }

    method DeleteRow(kid: Kid)
      modifies this`rows
      ensures Apply(old(View()), Write.DeleteRow(kid)) == Some(View())
    {
      hide Secrets.Get;
      rows := rows - {kid};
    }

    /**
     * Cut-over, undisturbed: it refuses exactly when the plan is empty, and then changes nothing; otherwise it
     * writes what is planned, up to a write that the database refuses.
     */
    method CutOver(ready: bool, tokens: Tokens) returns (done: Progress)
      requires Secrets.Wf(secrets.table) && OneNext(rows)
      modifies this, secrets
      ensures var plan := Plan(old(View()), Command.CutOver(ready, tokens));
              && done.Refused? == plan.None?
              && (plan.None? ==> View() == old(View()))
              && (plan.Some? ==> View() == Perform(old(View()), plan.value))
              && done.Done? == (plan.Some? && AllApply(old(View()), plan.value))
      ensures done.Done? ==> Minted(old(View()), View(), tokens)
      ensures done.Done? ==> Switched(old(View()), View(), done.kid)
    {
      hide Secrets.Wf, Apply, AllApply, Perform, Plan, KeyRotation.Remint, KeyRotation.Switch, Secrets.Get, SwitchWrites;
      hide PrivateKeyName, Secrets.Rows;
      ghost var start := View();
      NextOrNone(start, ready, tokens);
      if !ready {
        return Refused;
      }
      if kid :| kid in rows && rows[kid].status == Next {
        var oldPrivate := secrets.Read(PRIVATE);
        var oldPem := secrets.Read(PUBLIC);
        var oldKid := secrets.Read(KID);
        var private := secrets.Read(PrivateKeyName(kid));
        PlanFromReads(start, kid, tokens);
        if oldPem.None? || oldKid.None? || private.None? {
          return Refused;
        }
        ghost var rowPem := rows[kid].pem;
        ghost var ws := SwitchWrites(oldKid.value, oldPem.value, oldPrivate, kid, rowPem, private.value);
        ghost var mint := KeyRotation.Remint(tokens);
        var ok := Switch(oldKid.value, oldPem.value, oldPrivate, kid, rows[kid].pem, private.value);
        if !ok {
          assert ws == ws[..1] + ([ws[1]] + ws[2..]) && ws + mint == ws[..1] + ([ws[1]] + (ws[2..] + mint));
          PerformStopsAt(start, ws[..1], ws[1], ws[2..] + mint);
          return Stopped;
        }
        PerformThen(start, ws, mint);
        SwitchLeaves(start, oldKid.value, oldPem.value, oldPrivate, kid, rowPem, private.value);
        RemintApplies(View(), tokens);
        RemintMints(View(), tokens);
        WritesKeepApiKeys(start, oldKid.value, oldPem.value, oldPrivate, kid, rowPem, private.value);
        assert |PRIVATE| == 15 && |PUBLIC| == 14 && |KID| == 7 && |ANON| == 8 && |SERVICE| == 16;
        AllApplyThen(start, ws, mint);
        Remint(tokens);
        return Done(kid);
      }
      return Refused;
    }
  }

  /**
   * The key of `kid` has become the signing key: its stored half signs, its public half and kid are shown, its
   * row is gone, and the row of the key before it is kept as retiring.
   */
  ghost predicate Switched(s: State, t: State, kid: Kid) {
    && kid in s.rows && s.rows[kid].status == Next && Secret(s, KID).Some?
    && Secret(t, PRIVATE) == Secret(s, PrivateKeyName(kid))
    && Secret(t, PUBLIC) == Some(s.rows[kid].pem) && Secret(t, KID) == Some(kid)
    && var before := Secret(s, KID).value;
       && t.rows.Keys == s.rows.Keys + {before} - {kid}
       && (before != kid ==> t.rows[before].status == Retiring)
       && (before != kid && before !in s.rows ==> Some(t.rows[before].pem) == Secret(s, PUBLIC))
       && (forall k | k in t.rows && k != before :: t.rows[k] == s.rows[k])
  }

  /** The last writes of a switch. */
  lemma SwitchEnds(s: State, kid: Kid, pem: string, private: string)
    requires Secrets.Wf(s.table)
    ensures var u := Perform(s, [ReplaceSecret(PRIVATE, private), ReplaceSecret(PUBLIC, pem), ReplaceSecret(KID, kid), DeleteRow(kid)]);
            && Secrets.Wf(u.table) && u.rows == s.rows - {kid}
            && Secret(u, PRIVATE) == Some(private) && Secret(u, PUBLIC) == Some(pem) && Secret(u, KID) == Some(kid)
  {
    hide Secrets.Wf, Secret, Secrets.Replace;
    assert |PRIVATE| == 15 && |PUBLIC| == 14 && |KID| == 7;
    ReplaceSecretIs(s, PRIVATE, private);
    var s1 := Apply(s, ReplaceSecret(PRIVATE, private)).value;
    ReplaceSecretIs(s1, PUBLIC, pem);
    var s2 := Apply(s1, ReplaceSecret(PUBLIC, pem)).value;
    ReplaceSecretIs(s2, KID, kid);
    var s3 := Apply(s2, ReplaceSecret(KID, kid)).value;
    SameTable(s3, Apply(s3, DeleteRow(kid)).value);
    PerformFour(s, ReplaceSecret(PRIVATE, private), ReplaceSecret(PUBLIC, pem), ReplaceSecret(KID, kid), DeleteRow(kid));
  }

  lemma PutKeepsWf(s: State, name: string, value: string)
    requires Secrets.Wf(s.table) && Apply(s, PutSecret(name, value)).Some?
    ensures var t := Apply(s, PutSecret(name, value)).value; Secrets.Wf(t.table) && t.rows == s.rows
  {
    hide Secrets.Wf, Secrets.Put;
    Secrets.PutWf(s.table, name, value);
  }

  /** What a switch that went through leaves, in whatever project. */
  lemma SwitchLeaves(s: State, oldKid: Kid, oldPem: string, oldPrivate: Option<string>, kid: Kid, pem: string, private: string)
    requires Secrets.Wf(s.table) && AllApply(s, SwitchWrites(oldKid, oldPem, oldPrivate, kid, pem, private))
    ensures var u := Perform(s, SwitchWrites(oldKid, oldPem, oldPrivate, kid, pem, private));
            && Secrets.Wf(u.table)
            && u.rows == s.rows[oldKid := KeyRow(if oldKid in s.rows then s.rows[oldKid].pem else oldPem, Retiring)] - {kid}
            && Secret(u, PRIVATE) == Some(private) && Secret(u, PUBLIC) == Some(pem) && Secret(u, KID) == Some(kid)
  {
    hide Secrets.Wf, Secret, Secrets.Put, Secrets.Replace, PrivateKeyName, Perform, AllApply;
    var mark, last := MarkRetiring(oldKid, oldPem),
      [ReplaceSecret(PRIVATE, private), ReplaceSecret(PUBLIC, pem), ReplaceSecret(KID, kid), DeleteRow(kid)];
    var ws := SwitchWrites(oldKid, oldPem, oldPrivate, kid, pem, private);
    var s1 := Apply(s, mark).value;
    FirstApplies(s, ws);
    if oldPrivate.Some? {
      var put := PutSecret(PrivateKeyName(oldKid), oldPrivate.value);
      assert ws[1..] == [put] + last && ws[1..][1..] == last;
      FirstApplies(s1, ws[1..]);
      PutKeepsWf(s1, PrivateKeyName(oldKid), oldPrivate.value);
      SwitchEnds(Apply(s1, put).value, kid, pem, private);
    } else {
      assert ws[1..] == last;
      SwitchEnds(s1, kid, pem, private);
    }
  }

  lemma FirstApplies(s: State, ws: seq<Write>)
    requires ws != [] && AllApply(s, ws)
    ensures Apply(s, ws[0]).Some? && AllApply(Apply(s, ws[0]).value, ws[1..])
    ensures Perform(s, ws) == Perform(Apply(s, ws[0]).value, ws[1..])
  {
    hide Apply;
  }

  lemma WritesKeepApiKeys(s: State, oldKid: Kid, oldPem: string, oldPrivate: Option<string>, kid: Kid, pem: string, private: string)
    ensures Perform(s, SwitchWrites(oldKid, oldPem, oldPrivate, kid, pem, private)).apiKeys == s.apiKeys
  {
    hide Perform;
    SwitchKeepsApiKeys(s, SwitchWrites(oldKid, oldPem, oldPrivate, kid, pem, private));
  }

  /** How a cut-over ends: done, refused before it wrote, or stopped by the database. */
  datatype Progress = Done(kid: Kid) | Refused | Stopped

  /** The unique index: one key at a time waits. */
  predicate OneNext(rows: map<Kid, KeyRow>) {
    forall k, l | k in rows && l in rows && rows[k].status == Next && rows[l].status == Next :: k == l
  }

  function SwitchWrites(oldKid: Kid, oldPem: string, oldPrivate: Option<string>, kid: Kid, pem: string, private: string): (r: seq<Write>)
    ensures |r| >= 5
  {
    match oldPrivate
    case Some(half) => KeyRotation.Switch(oldKid, oldPem, half, kid, pem, private)
    case None =>
      var ws := KeyRotation.Switch(oldKid, oldPem, "", kid, pem, private);
      [ws[0]] + ws[2..]
  }

  lemma PlanFromReads(s: State, kid: Kid, tokens: Tokens)
    requires OneNext(s.rows) && kid in s.rows && s.rows[kid].status == Next
    ensures var pub, was, half := Secret(s, PUBLIC), Secret(s, KID), Secret(s, PrivateKeyName(kid));
            Plan(s, Command.CutOver(true, tokens)) ==
              if pub.None? || was.None? || half.None? then None
              else Some(SwitchWrites(was.value, pub.value, Secret(s, PRIVATE), kid, s.rows[kid].pem, half.value)
                        + KeyRotation.Remint(tokens))
  {
    hide Secret, PrivateKeyName, KeyRotation.Remint, KeyRotation.Switch;
  }

  lemma {:induction false} PerformStopsAt(s: State, a: seq<Write>, w: Write, b: seq<Write>)
    requires AllApply(s, a) && Apply(Perform(s, a), w).None?
    ensures Perform(s, a + ([w] + b)) == Perform(s, a) && !AllApply(s, a + ([w] + b))
    decreases |a|
  {
    hide Apply;
    if a == [] {
      assert a + ([w] + b) == [w] + b;
      PerformStops(s, w, b);
    } else {
      assert (a + ([w] + b))[0] == a[0] && (a + ([w] + b))[1..] == a[1..] + ([w] + b);
      PerformStopsAt(Apply(s, a[0]).value, a[1..], w, b);
    }
  }

  lemma {:induction false} AllApplyThen(s: State, a: seq<Write>, b: seq<Write>)
    requires AllApply(s, a)
    ensures AllApply(s, a + b) == AllApply(Perform(s, a), b)
    decreases |a|
  {
    hide Apply;
    if a == [] {
      assert a + b == b;
    } else {
      assert (a + b)[0] == a[0] && (a + b)[1..] == a[1..] + b;
      AllApplyThen(Apply(s, a[0]).value, a[1..], b);
    }
  }

  /** Replacing a secret and adding an API key are never refused. */
  lemma {:induction false} NeverRefused(s: State, ws: seq<Write>)
    requires forall i | 0 <= i < |ws| :: ws[i].AddApiKey? || ws[i].ReplaceSecret?
    ensures AllApply(s, ws)
    decreases |ws|
  {
    hide Secrets.Replace;
    if ws != [] {
      NeverRefused(Apply(s, ws[0]).value, ws[1..]);
    }
  }

  lemma RemintApplies(s: State, tokens: Tokens)
    ensures AllApply(s, KeyRotation.Remint(tokens))
  {
    hide Apply, AllApply;
    NeverRefused(s, KeyRotation.Remint(tokens));
  }

  /** From a state that a rotation can reach, nothing stops a cut-over. */
  lemma CutOverNeverStops(s: State, ready: bool, tokens: Tokens, x: Pair, y: Pair, z: Pair)
    requires InvAt(s, x, y, z) && Plan(s, Command.CutOver(ready, tokens)).Some?
    ensures OneNext(s.rows) && AllApply(s, Plan(s, Command.CutOver(ready, tokens)).value)
  {
    hide InvAt, Incoming, Moves, Apply, AllApply, Perform, At, Plan, KeyRotation.Remint;
    var q := IncomingIs(s, x, y, z, ready, tokens);
    SwitchNeverStops(s, x, y, z, q);
    RemintApplies(Perform(s, Moves(x, y, z, q)), tokens);
    AllApplyThen(s, Moves(x, y, z, q), KeyRotation.Remint(tokens));
    InvOneNext(s, x, y, z);
  }

  lemma InvOneNext(s: State, x: Pair, y: Pair, z: Pair)
    requires InvAt(s, x, y, z)
    ensures OneNext(s.rows)
  {
    hide Secret, Secrets.Wf, HalvesOk, Covered, PrivateKeyName, MadeOk;
  }

  /** One more write is on record. */
  ghost function Logged(start: State, done: seq<Write>, w: Write, now: State): (r: seq<Write>)
    requires AllApply(start, done) && Apply(Perform(start, done), w) == Some(now)
    ensures r == done + [w] && AllApply(start, r) && Perform(start, r) == now
  {
    PerformSnoc(start, done, w);
    done + [w]
  }

  lemma AllApplyNil(s: State)
    ensures AllApply(s, []) && Perform(s, []) == s
  {
  }

  lemma NextOrNone(s: State, ready: bool, tokens: Tokens)
    ensures !ready || !SomeNext(s.rows) ==> Plan(s, Command.CutOver(ready, tokens)).None?
  {
    hide CutOverPlan;
  }

  /** No write of a switch is ever refused. */
  lemma SwitchNeverStops(s: State, x: Pair, y: Pair, z: Pair, q: Pair)
    requires InvAt(s, x, y, z) && Incoming(s, q)
    ensures var ws := Moves(x, y, z, q);
            AllApply(s, ws) && AllApply(s, ws[..1]) && Apply(Perform(s, ws[..1]), ws[1]).Some?
  {
    hide InvAt, Incoming, Moves, Apply, AllApply, Perform, At;
    var ws := Moves(x, y, z, q);
    IncomingMade(s, q);
    SwitchTo(s, 1, x, y, z, q);
    AtStep(s, Perform(s, ws[..1]), 1, x, y, z, q);
    SwitchTo(s, 6, x, y, z, q);
    assert ws[..6] == ws;
  }

  lemma FreshRow(s: State, p: Pair)
    requires Fresh(s, p)
    ensures p.kid !in s.rows
  {
    hide Secret, PrivateKeyName, KidOk;
  }

  lemma StoredIs(s: State, p: Pair, x: Pair, y: Pair, z: Pair)
    requires InvAt(s, x, y, z) && Secret(s, PrivateKeyName(p.kid)).None?
    ensures var t := Apply(s, Write.PutSecret(PrivateKeyName(p.kid), p.privatePem));
            t.Some? && Secret(t.value, PrivateKeyName(p.kid)) == Some(p.privatePem)
  {
    hide InvAt, Secret, PrivateKeyName, Apply, Secrets.Wf;
    InvFacts(s, x, y, z);
    PutSecretIs(s, PrivateKeyName(p.kid), p.privatePem);
  }

  lemma InsertIs(s: State, p: Pair)
    requires p.kid !in s.rows && !SomeNext(s.rows)
    ensures Apply(s, InsertNext(p.kid, p.publicPem)) == Some(s.(rows := s.rows[p.kid := KeyRow(p.publicPem, Next)]))
  {
  }
}
