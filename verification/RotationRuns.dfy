/** Every run of begin, cut-over and retire with a crash after any write, and the replay of a crashed cut-over. */
module RotationRuns {
  import opened Text
  import Secrets
  import opened KeyRotation
  import opened RotationSafety

  // --- begin ---

  lemma GeneratedKeeps(s: State, p: Pair, x: Pair, y: Pair, z: Pair)
    requires InvAt(s, x, y, z) && Fresh(s, p)
    ensures InvAt(s.(made := s.made + {p}), x, y, z)
  {
    hide Secret, Secrets.Wf, PrivateKeyName, KidOk, Covered, HalvesOk;
    var t := s.(made := s.made + {p});
    SameTable(s, t);
    forall w | w in t.made ensures HalfIn(t, w) {
      if w != p {
        HalfOk(s, w);
      }
    }
    HalvesFrom(t);
    assert Covered(t, y) by { SameCover(s, t, y); }
  }

  lemma SameCover(s: State, t: State, y: Pair)
    requires Covered(s, y) && t.signed == s.signed && forall k | k in s.rows :: k in t.rows
    ensures Covered(t, y)
  {
  }

  lemma StoredKeeps(s: State, p: Pair, x: Pair, y: Pair, z: Pair)
    requires InvAt(s, x, y, z) && p in s.made && Secret(s, PrivateKeyName(p.kid)).None? && p != z
    ensures var t := Apply(s, PutSecret(PrivateKeyName(p.kid), p.privatePem));
            t.Some? && InvAt(t.value, x, y, z) && t.value.rows == s.rows && t.value.made == s.made
  {
    hide Secret, Secrets.Wf, PrivateKeyName, RowsOk, KidOk, Covered, HalvesOk, Secrets.Put;
    var name := PrivateKeyName(p.kid);
    PutSecretIs(s, name, p.privatePem);
    var t := Apply(s, PutSecret(name, p.privatePem)).value;
    NamesApart(p.kid);
    NamesInjective(p.kid, z.kid);
    forall w | w in t.made ensures HalfIn(t, w) {
      HalfOk(s, w);
      if w != p {
        NamesInjective(w.kid, p.kid);
      }
    }
    HalvesFrom(t);
    SameCover(s, t, y);
  }

  lemma InsertedKeeps(s: State, p: Pair, x: Pair, y: Pair, z: Pair)
    requires InvAt(s, x, y, z) && p in s.made
    ensures var t := Apply(s, InsertNext(p.kid, p.publicPem)); t.Some? ==> InvAt(t.value, x, y, z)
  {
    hide Secret, Secrets.Wf, PrivateKeyName, HalvesOk, MadeOk, Covered;
    var t := Apply(s, InsertNext(p.kid, p.publicPem));
    if t.Some? {
      SameTable(s, t.value);
      SameCover(s, t.value, y);
      SameHalves(s, t.value);
    }
  }

  lemma SameHalves(s: State, t: State)
    requires HalvesOk(s) && t.table == s.table && t.made == s.made
    ensures HalvesOk(t)
  {
    hide Secret, PrivateKeyName;
    SameTable(s, t);
    forall w | w in t.made ensures HalfIn(t, w) {
      HalfOk(s, w);
    }
    HalvesFrom(t);
  }

  lemma BeginKeeps(s: State, p: Pair, j: nat, x: Pair, y: Pair, z: Pair)
    requires InvAt(s, x, y, z) && Fresh(s, p)
    ensures InvAt(Step(s, Begin(p), j), x, y, z)
  {
    hide InvAt, Fresh, Secret, PrivateKeyName, Apply;
    var g := s.(made := s.made + {p});
    GeneratedKeeps(s, p, x, y, z);
    FreshFacts(s, p, x, y, z);
    SameTable(s, g);
    StoredKeeps(g, p, x, y, z);
    var put, insert := PutSecret(PrivateKeyName(p.kid), p.privatePem), InsertNext(p.kid, p.publicPem);
    InsertedKeeps(Apply(g, put).value, p, x, y, z);
    PerformTwo(g, put, insert, j);
  }

  /** While a key waits, begin writes nothing. */
  lemma BeginWaits(s: State, p: Pair, k: Kid, j: nat)
    requires k in s.rows && s.rows[k].status == Next
    ensures Step(s, Begin(p), j) == s
  {
  }

  lemma FreshFacts(s: State, p: Pair, x: Pair, y: Pair, z: Pair)
    requires InvAt(s, x, y, z) && Fresh(s, p)
    ensures Secret(s, PrivateKeyName(p.kid)).None? && p != z
  {
    hide Secret, Secrets.Wf, PrivateKeyName, RowsOk, Covered, HalvesOk;
  }

  lemma PerformTwo(s: State, v: Write, w: Write, j: nat)
    requires Apply(s, v).Some?
    ensures var t := Apply(s, v).value;
            Perform(s, Take([v, w], j))
              == if j == 0 then s else if j == 1 || Apply(t, w).None? then t else Apply(t, w).value
  {
    hide Apply;
    var t := Apply(s, v).value;
    PerformOne(s, v);
    PerformOne(t, w);
    if j == 0 {
      assert Take([v, w], j) == [];
    } else if j == 1 {
      assert Take([v, w], j) == [v];
    } else {
      assert Take([v, w], j) == [v, w] && [v, w][1..] == [w];
    }
  }

  lemma PerformOne(s: State, w: Write)
    ensures Perform(s, []) == s
    ensures Perform(s, [w]) == if Apply(s, w).None? then s else Apply(s, w).value
  {
    hide Apply;
    assert [w][1..] == [];
    if Apply(s, w).Some? {
      assert Perform(Apply(s, w).value, []) == Apply(s, w).value;
    }
  }

  // --- retire ---

  lemma RetireIs(s: State, kid: Kid, due: bool, j: nat)
    ensures Step(s, Retire(kid, due), j) == s
         || (kid in s.rows && Step(s, Retire(kid, due), j) == s.(rows := s.rows[kid := s.rows[kid].(status := Retired)]))
  {
    var w := MarkRetired(kid);
    assert Take([w], j) == if j == 0 then [] else [w];
    PerformOne(s, w);
  }

  lemma RetiredKeeps(s: State, kid: Kid, x: Pair, y: Pair, z: Pair)
    requires InvAt(s, x, y, z) && kid in s.rows
    ensures InvAt(s.(rows := s.rows[kid := s.rows[kid].(status := Retired)]), x, y, z)
  {
    hide Secret, Secrets.Wf, PrivateKeyName, HalvesOk, MadeOk, Covered;
    var t := s.(rows := s.rows[kid := s.rows[kid].(status := Retired)]);
    SameTable(s, t);
    SameCover(s, t, y);
    SameHalves(s, t);
  }

  // --- purge ---

  lemma PurgeIs(s: State, aged: map<string, set<nat>>, j: nat)
    ensures Step(s, Purge(aged), j) == if j == 0 then s else s.(table := Secrets.Purge(s.table, aged))
  {
    hide Secrets.Purge;
    var w := PurgeSecrets(aged);
    assert Take([w], j) == if j == 0 then [] else [w];
    PerformOne(s, w);
  }

  /** A purge takes away no secret, and no first version that is the only one. */
  lemma PurgedSecrets(s: State, aged: map<string, set<nat>>)
    requires Secrets.Wf(s.table)
    ensures var t := s.(table := Secrets.Purge(s.table, aged));
            Secrets.Wf(t.table) && forall m :: Secret(t, m) == Secret(s, m) && First(t.table, m) == First(s.table, m)
  {
    hide Secrets.Wf, Secrets.Get, Secrets.Top, Secrets.Purge, Secrets.Rows;
    var t := s.(table := Secrets.Purge(s.table, aged));
    Secrets.PurgeWf(s.table, aged);
    forall m ensures Secret(t, m) == Secret(s, m) && First(t.table, m) == First(s.table, m) {
      Secrets.PurgeGet(s.table, aged, m);
    }
  }

  lemma PurgeKeeps(s: State, aged: map<string, set<nat>>, j: nat, x: Pair, y: Pair, z: Pair)
    requires InvAt(s, x, y, z)
    ensures InvAt(Step(s, Purge(aged), j), x, y, z) && Step(s, Purge(aged), j).rows == s.rows
    ensures forall m :: Secret(Step(s, Purge(aged), j), m) == Secret(s, m)
  {
    hide Secret, Secrets.Wf, PrivateKeyName, HalvesOk, MadeOk, Covered, RowsOk, First, Step, Secrets.Purge;
    InvFacts(s, x, y, z);
    PurgeIs(s, aged, j);
    PurgedSecrets(s, aged);
    var t := Step(s, Purge(aged), j);
    assert HalvesOk(t) && Covered(t, y) by {
      SameCover(s, t, y);
      forall w | w in t.made ensures HalfIn(t, w) {
        HalfOk(s, w);
      }
      HalvesFrom(t);
    }
  }

  // --- runs ---

  datatype Act = Act(command: Command, writes: nat)

  ghost function Run(s: State, acts: seq<Act>): State {
    if acts == [] then s
    else
      var last := acts[|acts| - 1];
      Step(Run(s, acts[..|acts| - 1]), last.command, last.writes)
  }

  /** Every generated pair is fresh when it is generated. */
  ghost predicate FreshRun(s: State, acts: seq<Act>) {
    acts != [] ==>
      && FreshRun(s, acts[..|acts| - 1])
      && var last := acts[|acts| - 1].command;
         last.Begin? ==> Fresh(Run(s, acts[..|acts| - 1]), last.pair)
  }

  lemma StepKeeps(s: State, c: Command, j: nat, x: Pair, y: Pair, z: Pair) returns (x': Pair, y': Pair, z': Pair)
    requires InvAt(s, x, y, z) && (c.Begin? ==> Fresh(s, c.pair))
    ensures InvAt(Step(s, c, j), x', y', z')
  {
    hide InvAt, Fresh, Plan, Moves, Incoming, Perform;
    x', y', z' := x, y, z;
    match c
    case Begin(p) => BeginKeeps(s, p, j, x, y, z);
    case CutOver(ready, tokens) =>
      if Plan(s, c).Some? {
        var q := IncomingIs(s, x, y, z, ready, tokens);
        CutOverKeeps(s, ready, tokens, j, x, y, z, q);
        x', y', z' := Pick(j >= 3, q, x), Pick(j >= 4, q, y), Pick(j >= 5, q, z);
      }
    case Retire(kid, due) =>
      RetireIs(s, kid, due, j);
      if kid in s.rows {
        RetiredKeeps(s, kid, x, y, z);
      }
    case Purge(aged) => PurgeKeeps(s, aged, j, x, y, z);
  }

  lemma {:induction false} RunKeeps(s: State, acts: seq<Act>, x: Pair, y: Pair, z: Pair)
    returns (x': Pair, y': Pair, z': Pair)
    requires InvAt(s, x, y, z) && FreshRun(s, acts)
    ensures InvAt(Run(s, acts), x', y', z')
    decreases |acts|
  {
    hide InvAt, Step, Fresh;
    x', y', z' := x, y, z;
    if acts != [] {
      var last := acts[|acts| - 1];
      x', y', z' := RunKeeps(s, acts[..|acts| - 1], x, y, z);
      x', y', z' := StepKeeps(Run(s, acts[..|acts| - 1]), last.command, last.writes, x', y', z');
    }
  }

  /** A project as provisioning leaves it: one pair, signing, and no rotation. */
  ghost predicate Provisioned(s: State, p: Pair) {
    && Secrets.Wf(s.table) && KidOk(p.kid) && s.rows == map[] && s.made == {p} && s.signed == {p}
    && Secret(s, PRIVATE) == Some(p.privatePem) && Secret(s, PUBLIC) == Some(p.publicPem) && Secret(s, KID) == Some(p.kid)
    && Secret(s, PrivateKeyName(p.kid)).None?
  }

  lemma ProvisionedInv(s: State, p: Pair)
    requires Provisioned(s, p)
    ensures InvAt(s, p, p, p)
  {
    hide Secret, Secrets.Wf, PrivateKeyName, KidOk;
  }

  /**
   * Over every run, with a crash after any single write: every pair that has ever been
   * the signing key has its public half accepted by verifiers until its own kid is retired.
   */
  lemma NoSigningKeyLost(s: State, p: Pair, acts: seq<Act>)
    requires Provisioned(s, p) && FreshRun(s, acts)
    ensures NothingLost(Run(s, acts))
  {
    hide *;
    ProvisionedInv(s, p);
    var x, y, z := RunKeeps(s, acts, p, p, p);
    InvNothingLost(Run(s, acts), x, y, z);
  }

  // --- the key that signs now ---

  ghost predicate SignerShown(s: State, x: Pair, y: Pair) {
    x == y || (x.kid in s.rows && s.rows[x.kid].status != Retired)
  }

  /** What verifiers accept includes the public half of the key that signs now. */
  ghost predicate SignerAccepted(s: State) {
    exists x | x in s.made :: Secret(s, PRIVATE) == Some(x.privatePem) && Accepted(s, x.publicPem)
  }

  lemma ShownIffAccepted(s: State, x: Pair, y: Pair, z: Pair)
    requires InvAt(s, x, y, z)
    ensures SignerShown(s, x, y) <==> SignerAccepted(s)
  {
    hide Accepted, Secret, HalvesOk, PrivateKeyName, Secrets.Wf;
    AcceptedIff(s, x.publicPem);
    if x.kid in s.rows {
      RowIsOwn(s.rows, s.made, x);
    }
    if SignerAccepted(s) {
      var w :| w in s.made && Secret(s, PRIVATE) == Some(w.privatePem) && Accepted(s, w.publicPem);
      assert w == x;
      if x != y {
        var k :| k in s.rows && s.rows[k].status != Retired && s.rows[k].pem == x.publicPem;
        assert k == x.kid;
      }
    }
  }

  /**
   * Retiring this kid would leave the signing key unpublished: its private half already
   * signs while its public half is not yet the one on show.
   */
  ghost predicate HalfDone(s: State, kid: Kid) {
    && kid in s.rows && Secret(s, PrivateKeyName(kid)).Some?
    && Secret(s, PrivateKeyName(kid)) == Secret(s, PRIVATE) && Secret(s, PUBLIC) != Some(s.rows[kid].pem)
  }

  lemma HalfDoneIs(s: State, kid: Kid, x: Pair, y: Pair, z: Pair)
    requires InvAt(s, x, y, z)
    ensures HalfDone(s, kid) <==> kid == x.kid && x != y
  {
    hide Secret, PrivateKeyName, Secrets.Wf, HalvesOk;
    if kid in s.rows {
      var w :| w in s.made && w.kid == kid && s.rows[kid].pem == w.publicPem;
      HalfOk(s, w);
    }
    HalfOk(s, x);
  }

  /** The retirement of a key keeps the signing key accepted exactly when the kid is not half cut over. */
  lemma RetireKeepsSignerIff(s: State, kid: Kid, due: bool, x: Pair, y: Pair, z: Pair)
    requires InvAt(s, x, y, z) && SignerAccepted(s) && Plan(s, Retire(kid, due)).Some?
    ensures SignerAccepted(Step(s, Retire(kid, due), 1)) <==> !HalfDone(s, kid)
  {
    hide InvAt, SignerAccepted, HalfDone;
    var t := s.(rows := s.rows[kid := s.rows[kid].(status := Retired)]);
    var w := MarkRetired(kid);
    assert Take([w], 1) == [w];
    PerformOne(s, w);
    assert Step(s, Retire(kid, due), 1) == t;
    RetiredKeeps(s, kid, x, y, z);
    HalfDoneIs(s, kid, x, y, z);
    ShownIffAccepted(s, x, y, z);
    ShownIffAccepted(t, x, y, z);
  }

  // --- runs that keep the signer accepted ---

  /** No retirement hits a key that is half cut over. */
  ghost predicate CarefulRun(s: State, acts: seq<Act>) {
    acts != [] ==>
      && CarefulRun(s, acts[..|acts| - 1])
      && var last := acts[|acts| - 1].command;
         last.Retire? ==> !HalfDone(Run(s, acts[..|acts| - 1]), last.kid)
  }

  lemma AtShown(s: State, t: State, i: nat, x: Pair, y: Pair, z: Pair, q: Pair)
    requires i <= 6 && InvAt(s, x, y, z) && Incoming(s, q) && At(s, t, i, x, y, z, q) && SignerShown(s, x, y)
    ensures SignerShown(t, Pick(i >= 3, q, x), Pick(i >= 4, q, y))
  {
    hide Secret, PrivateKeyName, RowsOk, MadeOk, HalvesOk, Covered, Kept, SecretAt;
  }

  lemma CutOverShown(s: State, ready: bool, tokens: Tokens, j: nat, x: Pair, y: Pair, z: Pair, q: Pair)
    requires InvAt(s, x, y, z) && Incoming(s, q) && SignerShown(s, x, y)
    requires Plan(s, CutOver(ready, tokens)) == Some(Moves(x, y, z, q) + Remint(tokens))
    ensures SignerShown(Step(s, CutOver(ready, tokens), j), Pick(j >= 3, q, x), Pick(j >= 4, q, y))
  {
    hide InvAt, Moves, Perform, Incoming, Plan, At, AllApply, Remint, IsRemint, Take, SignerShown, Secret;
    var a, b := Moves(x, y, z, q), Remint(tokens);
    PlanSplits(a, b, j);
    IncomingMade(s, q);
    if j <= 6 {
      SwitchTo(s, j, x, y, z, q);
      AtShown(s, Perform(s, a[..j]), j, x, y, z, q);
    } else {
      SameShown(Step(s, CutOver(ready, tokens), j), q);
    }
  }

  lemma SameShown(s: State, q: Pair)
    ensures SignerShown(s, q, q)
  {
  }

  lemma BeginRows(s: State, p: Pair, j: nat)
    ensures forall k | k in s.rows :: k in Step(s, Begin(p), j).rows && Step(s, Begin(p), j).rows[k] == s.rows[k]
  {
    hide Secrets.Put, Perform, SomeNext;
    var put, insert := PutSecret(PrivateKeyName(p.kid), p.privatePem), InsertNext(p.kid, p.publicPem);
    var g := s.(made := s.made + {p});
    if Apply(g, put).Some? {
      PerformTwo(g, put, insert, j);
    } else if j > 0 {
      PerformStops(g, put, Take([put, insert], j)[1..]);
      assert Take([put, insert], j) == [put] + Take([put, insert], j)[1..];
    } else {
      assert Take([put, insert], j) == [];
      PerformOne(g, put);
    }
  }

  lemma PerformStops(s: State, w: Write, ws: seq<Write>)
    requires Apply(s, w).None?
    ensures Perform(s, [w] + ws) == s
  {
    hide Apply;
    assert ([w] + ws)[0] == w;
  }

  lemma StepShown(s: State, c: Command, j: nat, x: Pair, y: Pair, z: Pair) returns (x': Pair, y': Pair, z': Pair)
    requires InvAt(s, x, y, z) && (c.Begin? ==> Fresh(s, c.pair)) && SignerShown(s, x, y)
    requires c.Retire? ==> !HalfDone(s, c.kid)
    ensures InvAt(Step(s, c, j), x', y', z') && SignerShown(Step(s, c, j), x', y')
  {
    hide InvAt, Fresh, Plan, Moves, Incoming, Perform, HalfDone;
    x', y', z' := x, y, z;
    match c
    case Begin(p) =>
      BeginKeeps(s, p, j, x, y, z);
      BeginRows(s, p, j);
    case CutOver(ready, tokens) =>
      if Plan(s, c).Some? {
        var q := IncomingIs(s, x, y, z, ready, tokens);
        CutOverKeeps(s, ready, tokens, j, x, y, z, q);
        CutOverShown(s, ready, tokens, j, x, y, z, q);
        x', y', z' := Pick(j >= 3, q, x), Pick(j >= 4, q, y), Pick(j >= 5, q, z);
      }
    case Retire(kid, due) =>
      RetireIs(s, kid, due, j);
      HalfDoneIs(s, kid, x, y, z);
      if kid in s.rows {
        RetiredKeeps(s, kid, x, y, z);
      }
    case Purge(aged) => PurgeKeeps(s, aged, j, x, y, z);
  }

  lemma {:induction false} RunShown(s: State, acts: seq<Act>, x: Pair, y: Pair, z: Pair)
    returns (x': Pair, y': Pair, z': Pair)
    requires InvAt(s, x, y, z) && FreshRun(s, acts) && CarefulRun(s, acts) && SignerShown(s, x, y)
    ensures InvAt(Run(s, acts), x', y', z') && SignerShown(Run(s, acts), x', y')
    decreases |acts|
  {
    hide InvAt, Step, Fresh, HalfDone, SignerShown;
    x', y', z' := x, y, z;
    if acts != [] {
      var last := acts[|acts| - 1];
      x', y', z' := RunShown(s, acts[..|acts| - 1], x, y, z);
      x', y', z' := StepShown(Run(s, acts[..|acts| - 1]), last.command, last.writes, x', y', z');
    }
  }

  /** If no half cut-over is retired, verifiers always accept the key that signs now. */
  lemma SignerAlwaysAccepted(s: State, p: Pair, acts: seq<Act>)
    requires Provisioned(s, p) && FreshRun(s, acts) && CarefulRun(s, acts)
    ensures SignerAccepted(Run(s, acts))
  {
    hide *;
    ProvisionedInv(s, p);
    SameShown(s, p);
    var x, y, z := RunShown(s, acts, p, p, p);
    ShownIffAccepted(Run(s, acts), x, y, z);
  }

  // --- replay ---

  /** The same rows and the same secrets. */
  ghost predicate Same(s: State, t: State) {
    s.rows == t.rows && forall m :: Secret(s, m) == Secret(t, m)
  }

  /** What a finished switch leaves: the incoming pair signs and is shown, and its row is gone. */
  lemma SwitchedTriple(s: State, x: Pair, y: Pair, z: Pair, q: Pair)
    requires InvAt(s, x, y, z) && Incoming(s, q)
    ensures var t := Perform(s, Moves(x, y, z, q));
            && Secret(t, PRIVATE) == Some(q.privatePem) && Secret(t, PUBLIC) == Some(q.publicPem)
            && Secret(t, KID) == Some(q.kid) && t.rows == Outgoing(s.rows, y, z) - {q.kid}
  {
    hide InvAt, Secret, Perform, Moves, PrivateKeyName, Secrets.Wf, Kept, AllApply;
    IncomingMade(s, q);
    SwitchTo(s, 6, x, y, z, q);
    var t := Perform(s, Moves(x, y, z, q));
    assert Moves(x, y, z, q)[..6] == Moves(x, y, z, q);
    assert |PRIVATE| == 15 && |PUBLIC| == 14 && |KID| == 7;
    assert Secret(t, PRIVATE) == SecretAt(s, 6, x, z, q, PRIVATE);
    assert Secret(t, PUBLIC) == SecretAt(s, 6, x, z, q, PUBLIC);
    assert Secret(t, KID) == SecretAt(s, 6, x, z, q, KID);
  }

  /** After a crash the incoming pair still waits, unless it is the outgoing one too. */
  lemma StillIncoming(s: State, t: State, j: nat, x: Pair, y: Pair, z: Pair, q: Pair)
    requires j <= 5 && InvAt(s, x, y, z) && Incoming(s, q) && z.kid != q.kid && At(s, t, j, x, y, z, q)
    ensures Incoming(t, q)
  {
    hide Secret, Secrets.Wf, HalvesOk, RowsOk, Covered, Kept, PrivateKeyName, MadeOk;
    InvFacts(s, x, y, z);
    QKid(s, x, y, z, q);
    NamesApart(q.kid);
    NamesInjective(q.kid, z.kid);
    var name := PrivateKeyName(q.kid);
    assert Secret(t, name) == SecretAt(s, j, x, z, q, name);
  }

  lemma QKid(s: State, x: Pair, y: Pair, z: Pair, q: Pair)
    requires InvAt(s, x, y, z) && Incoming(s, q)
    ensures KidOk(q.kid)
  {
    hide Secret, Secrets.Wf, HalvesOk, RowsOk, Covered, PrivateKeyName, KidOk;
  }

  /** Where two half-done switches end. */
  lemma ReplayRows(s: State, t: State, j: nat, x: Pair, y: Pair, z: Pair, q: Pair)
    requires j <= 5 && InvAt(s, x, y, z) && Incoming(s, q) && z.kid != q.kid && At(s, t, j, x, y, z, q)
    ensures Outgoing(t.rows, Pick(j >= 4, q, y), Pick(j >= 5, q, z)) - {q.kid} == Outgoing(s.rows, y, z) - {q.kid}
  {
    hide Secret, Secrets.Wf, HalvesOk, RowsOk, Covered, Kept, PrivateKeyName, MadeOk, SecretAt;
  }

  lemma ReplaySecrets(s: State, t: State, j: nat, x: Pair, y: Pair, z: Pair, q: Pair, m: string)
    requires j <= 5 && InvAt(s, x, y, z) && Incoming(s, q) && z.kid != q.kid && At(s, t, j, x, y, z, q)
    ensures SecretAt(t, 6, Pick(j >= 3, q, x), Pick(j >= 5, q, z), q, m) == SecretAt(s, 6, x, z, q, m)
  {
    hide Secret, Secrets.Wf, HalvesOk, RowsOk, Covered, Kept, PrivateKeyName, MadeOk, RowsAt;
    InvFacts(s, x, y, z);
    QKid(s, x, y, z, q);
    NamesApart(q.kid);
    NamesApart(z.kid);
    NamesInjective(q.kid, z.kid);
    assert Secret(t, m) == SecretAt(s, j, x, z, q, m);
  }

  /** A switch that crashed before the row was deleted, and was run again, ends as if it had not crashed. */
  lemma ReplaySwitch(s: State, j: nat, x: Pair, y: Pair, z: Pair, q: Pair)
    requires j <= 5 && InvAt(s, x, y, z) && Incoming(s, q) && z.kid != q.kid
    ensures var t := Perform(s, Moves(x, y, z, q)[..j]);
            var x', y', z' := Pick(j >= 3, q, x), Pick(j >= 4, q, y), Pick(j >= 5, q, z);
            && InvAt(t, x', y', z') && Incoming(t, q)
            && Same(Perform(t, Moves(x', y', z', q)), Perform(s, Moves(x, y, z, q)))
  {
    hide InvAt, Secret, Perform, Moves, PrivateKeyName, Secrets.Wf, Kept, AllApply, Incoming, SecretAt, Outgoing;
    var t := Perform(s, Moves(x, y, z, q)[..j]);
    var x', y', z' := Pick(j >= 3, q, x), Pick(j >= 4, q, y), Pick(j >= 5, q, z);
    IncomingMade(s, q);
    SwitchTo(s, j, x, y, z, q);
    AtInv(s, t, j, x, y, z, q);
    StillIncoming(s, t, j, x, y, z, q);
    IncomingMade(t, q);
    SwitchTo(s, 6, x, y, z, q);
    SwitchTo(t, 6, x', y', z', q);
    assert Moves(x, y, z, q)[..6] == Moves(x, y, z, q) && Moves(x', y', z', q)[..6] == Moves(x', y', z', q);
    var u, v := Perform(t, Moves(x', y', z', q)), Perform(s, Moves(x, y, z, q));
    ReplayRows(s, t, j, x, y, z, q);
    forall m ensures Secret(u, m) == Secret(v, m) {
      ReplaySecrets(s, t, j, x, y, z, q, m);
      assert Secret(u, m) == SecretAt(t, 6, x', z', q, m);
      assert Secret(v, m) == SecretAt(s, 6, x, z, q, m);
    }
  }

  // --- stored before published ---

  /** Every key that waits to sign has its private half stored. */
  ghost predicate NextStored(s: State) {
    forall k | k in s.rows && s.rows[k].status == Next :: Secret(s, PrivateKeyName(k)).Some?
  }

  lemma BeginStored(s: State, p: Pair, j: nat, x: Pair, y: Pair, z: Pair)
    requires InvAt(s, x, y, z) && Fresh(s, p) && NextStored(s)
    ensures NextStored(Step(s, Begin(p), j))
  {
    hide InvAt, Fresh, Secret, PrivateKeyName, Apply;
    var g := s.(made := s.made + {p});
    var put, insert := PutSecret(PrivateKeyName(p.kid), p.privatePem), InsertNext(p.kid, p.publicPem);
    GeneratedKeeps(s, p, x, y, z);
    FreshFacts(s, p, x, y, z);
    SameTable(s, g);
    PutStored(g, p, x, y, z);
    InsertStored(Apply(g, put).value, p);
    PerformTwo(g, put, insert, j);
  }

  lemma PutStored(s: State, p: Pair, x: Pair, y: Pair, z: Pair)
    requires InvAt(s, x, y, z) && Secret(s, PrivateKeyName(p.kid)).None? && NextStored(s)
    ensures var t := Apply(s, PutSecret(PrivateKeyName(p.kid), p.privatePem));
            t.Some? && NextStored(t.value) && Secret(t.value, PrivateKeyName(p.kid)).Some?
  {
    hide InvAt, Secret, PrivateKeyName, Apply, Secrets.Wf;
    InvFacts(s, x, y, z);
    PutSecretIs(s, PrivateKeyName(p.kid), p.privatePem);
  }

  lemma InsertStored(s: State, p: Pair)
    requires NextStored(s) && Secret(s, PrivateKeyName(p.kid)).Some?
    ensures var t := Apply(s, InsertNext(p.kid, p.publicPem)); t.Some? ==> NextStored(t.value)
  {
    hide Secrets.Get, PrivateKeyName;
  }

  /** A key that waits after some writes of a switch waited before it, and halves do not vanish. */
  lemma SwitchStored(s: State, t: State, i: nat, x: Pair, y: Pair, z: Pair, q: Pair)
    requires i <= 6 && InvAt(s, x, y, z) && At(s, t, i, x, y, z, q) && NextStored(s)
    ensures NextStored(t)
  {
    hide Secret, Secrets.Wf, HalvesOk, PrivateKeyName, Covered, Kept, SecretAt, MadeOk;
    AtHalves(s, t, i, x, y, z, q);
    forall k | k in t.rows && t.rows[k].status == Next ensures Secret(t, PrivateKeyName(k)).Some? {
      assert k in s.rows && s.rows[k].status == Next;
      var w :| w in s.made && w.kid == k && s.rows[k].pem == w.publicPem;
    }
  }

  lemma RemintStored(s: State, t: State, x: Pair, y: Pair, z: Pair)
    requires InvAt(s, x, y, z) && NextStored(s) && t.rows == s.rows
    requires forall m | m !in {ANON, SERVICE} :: Secret(t, m) == Secret(s, m)
    ensures NextStored(t)
  {
    hide Secret, Secrets.Wf, HalvesOk, PrivateKeyName, Covered;
    forall k | k in t.rows && t.rows[k].status == Next ensures Secret(t, PrivateKeyName(k)).Some? {
      var w :| w in s.made && w.kid == k && s.rows[k].pem == w.publicPem;
      NamesApart(k);
    }
  }

  lemma CutOverStored(s: State, ready: bool, tokens: Tokens, j: nat, x: Pair, y: Pair, z: Pair, q: Pair)
    requires InvAt(s, x, y, z) && Incoming(s, q) && NextStored(s)
    requires Plan(s, CutOver(ready, tokens)) == Some(Moves(x, y, z, q) + Remint(tokens))
    ensures NextStored(Step(s, CutOver(ready, tokens), j))
  {
    hide InvAt, Moves, Perform, Incoming, Plan, At, AllApply, Remint, IsRemint, Take, NextStored, Secret;
    var a, b := Moves(x, y, z, q), Remint(tokens);
    PlanSplits(a, b, j);
    IncomingMade(s, q);
    var i := if j <= 6 then j else 6;
    SwitchTo(s, i, x, y, z, q);
    SwitchStored(s, Perform(s, a[..i]), i, x, y, z, q);
    if j > 6 {
      assert a[..6] == a;
      AtInv(s, Perform(s, a), 6, x, y, z, q);
      PerformThen(s, a, Take(b, j - 6));
      RemintIsRemint(tokens, j - 6);
      RemintKeeps(Perform(s, a), Take(b, j - 6), q, q, q);
      RemintStored(Perform(s, a), Perform(Perform(s, a), Take(b, j - 6)), q, q, q);
    }
  }

  lemma RetireStored(s: State, kid: Kid, due: bool, j: nat)
    requires NextStored(s)
    ensures NextStored(Step(s, Retire(kid, due), j))
  {
    hide Secrets.Get, PrivateKeyName, Step;
    RetireIs(s, kid, due, j);
  }

  lemma PurgeStored(s: State, aged: map<string, set<nat>>, j: nat, x: Pair, y: Pair, z: Pair)
    requires InvAt(s, x, y, z) && NextStored(s)
    ensures NextStored(Step(s, Purge(aged), j))
  {
    hide InvAt, Step, Secret, PrivateKeyName;
    PurgeKeeps(s, aged, j, x, y, z);
  }

  lemma {:induction false} RunStored(s: State, acts: seq<Act>, x: Pair, y: Pair, z: Pair)
    returns (x': Pair, y': Pair, z': Pair)
    requires InvAt(s, x, y, z) && FreshRun(s, acts) && NextStored(s)
    ensures InvAt(Run(s, acts), x', y', z') && NextStored(Run(s, acts))
    decreases |acts|
  {
    hide InvAt, Step, Fresh, NextStored, Plan, Moves, Incoming, Remint;
    x', y', z' := x, y, z;
    if acts != [] {
      var front, last := acts[..|acts| - 1], acts[|acts| - 1];
      var u, v, w := RunStored(s, front, x, y, z);
      var t := Run(s, front);
      x', y', z' := StepKeeps(t, last.command, last.writes, u, v, w);
      match last.command
      case Begin(p) => BeginStored(t, p, last.writes, u, v, w);
      case CutOver(ready, tokens) =>
        if Plan(t, last.command).Some? {
          var q := IncomingIs(t, u, v, w, ready, tokens);
          CutOverStored(t, ready, tokens, last.writes, u, v, w, q);
        } else {
          NoPlan(t, last.command, last.writes);
        }
      case Retire(kid, due) => RetireStored(t, kid, due, last.writes);
      case Purge(aged) => PurgeStored(t, aged, last.writes, u, v, w);
    }
  }

  lemma NoPlan(s: State, c: Command, j: nat)
    requires Plan(s, c).None?
    ensures Step(s, c, j) == s
  {
    hide Plan;
  }

  /** Store-then-publish: in every run a published key that waits can start signing, its private half being stored. */
  lemma StoredBeforePublished(s: State, p: Pair, acts: seq<Act>)
    requires Provisioned(s, p) && FreshRun(s, acts)
    ensures NextStored(Run(s, acts))
  {
    hide *;
    ProvisionedInv(s, p);
    NoneWaiting(s, p);
    var x, y, z := RunStored(s, acts, p, p, p);
  }

  lemma NoneWaiting(s: State, p: Pair)
    requires Provisioned(s, p)
    ensures NextStored(s)
  {
    hide Secret, PrivateKeyName, Secrets.Wf, KidOk;
  }
}
