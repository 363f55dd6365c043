/** When a crashed cut-over can be run again, and where it then ends. */
module RotationReplay {
  import opened Text
  import Secrets
  import opened KeyRotation
  import opened RotationSafety
  import opened RotationRuns

  const ALL := 10

  lemma NextIs(s: State, q: Pair, x: Pair, y: Pair, z: Pair)
    requires InvAt(s, x, y, z) && Incoming(s, q)
    ensures NextKid(s.rows) == Some(q.kid)
  {
    hide Secret, Secrets.Wf, HalvesOk, Covered, PrivateKeyName, MadeOk;
  }

  /** With an incoming pair the plan is its switch and the new API keys. */
  lemma PlanIs(s: State, tokens: Tokens, x: Pair, y: Pair, z: Pair, q: Pair)
    requires InvAt(s, x, y, z) && Incoming(s, q)
    ensures Plan(s, CutOver(true, tokens)) == Some(Moves(x, y, z, q) + Remint(tokens))
  {
    hide Secret, Secrets.Wf, HalvesOk, Covered, PrivateKeyName, MadeOk, RowsOk, NextKid, Remint, Switch;
    NextIs(s, q, x, y, z);
  }

  /** What a whole cut-over leaves is what its switch leaves, but for the API keys. */
  lemma WholeIs(s: State, tokens: Tokens, x: Pair, y: Pair, z: Pair, q: Pair)
    requires InvAt(s, x, y, z) && Incoming(s, q)
    ensures var t, u := Step(s, CutOver(true, tokens), ALL), Perform(s, Moves(x, y, z, q));
            && t.rows == u.rows && (forall m | m !in {ANON, SERVICE} :: Secret(t, m) == Secret(u, m))
            && Minted(s, t, tokens)
  {
    hide InvAt, Moves, Perform, Incoming, Plan, At, AllApply, IsRemint, Secret;
    var a, b := Moves(x, y, z, q), Remint(tokens);
    PlanIs(s, tokens, x, y, z, q);
    IncomingMade(s, q);
    SwitchTo(s, 6, x, y, z, q);
    assert a[..6] == a;
    AtInv(s, Perform(s, a), 6, x, y, z, q);
    PerformThen(s, a, b);
    assert Take(a + b, ALL) == a + b && Take(b, 4) == b;
    RemintIsRemint(tokens, 4);
    RemintKeeps(Perform(s, a), b, q, q, q);
    InvFacts(Perform(s, a), q, q, q);
    RemintMints(Perform(s, a), tokens);
    MovesKeepApiKeys(s, x, y, z, q);
  }

  lemma MovesKeepApiKeys(s: State, x: Pair, y: Pair, z: Pair, q: Pair)
    ensures Perform(s, Moves(x, y, z, q)).apiKeys == s.apiKeys
  {
    hide Perform;
    SwitchKeepsApiKeys(s, Moves(x, y, z, q));
  }

  lemma SamePublished(s: State, t: State)
    requires s.rows == t.rows && Secret(s, PUBLIC) == Secret(t, PUBLIC) && Secret(s, KID) == Secret(t, KID)
    ensures PublishedKeys(s) == PublishedKeys(t)
  {
    hide Secret;
  }

  lemma PrefixIs(s: State, tokens: Tokens, j: nat, x: Pair, y: Pair, z: Pair, q: Pair)
    requires j <= 6 && InvAt(s, x, y, z) && Incoming(s, q)
    ensures Step(s, CutOver(true, tokens), j) == Perform(s, Moves(x, y, z, q)[..j])
  {
    hide InvAt, Moves, Perform, Incoming, Plan, Remint, Take;
    PlanIs(s, tokens, x, y, z, q);
    PlanSplits(Moves(x, y, z, q), Remint(tokens), j);
  }

  /**
   * Crash-replay: a cut-over that crashed at any write up to the row's deletion, and was
   * run again, reaches the same signing key, the same stored halves and the same
   * published keys as one that did not crash, and each leaves the tokens it was given.
   */
  lemma CutOverReplays(s: State, j: nat, first: Tokens, second: Tokens, x: Pair, y: Pair, z: Pair, q: Pair)
    requires InvAt(s, x, y, z) && Incoming(s, q) && Secret(s, KID) != Some(q.kid) && j <= 5
    ensures var crashed := Step(s, CutOver(true, first), j);
            var replayed, uninterrupted := Step(crashed, CutOver(true, second), ALL), Step(s, CutOver(true, first), ALL);
            && Plan(crashed, CutOver(true, second)).Some?
            && replayed.rows == uninterrupted.rows
            && (forall m | m !in {ANON, SERVICE} :: Secret(replayed, m) == Secret(uninterrupted, m))
            && PublishedKeys(replayed) == PublishedKeys(uninterrupted)
            && Minted(crashed, replayed, second) && Minted(s, uninterrupted, first)
  {
    hide InvAt, Secret, Perform, Moves, PrivateKeyName, Incoming, Step, Plan, Remint;
    NamedKid(s, x, y, z);
    PrefixIs(s, first, j, x, y, z, q);
    ReplaySwitch(s, j, x, y, z, q);
    var crashed := Step(s, CutOver(true, first), j);
    var x', y', z' := Pick(j >= 3, q, x), Pick(j >= 4, q, y), Pick(j >= 5, q, z);
    PlanIs(crashed, second, x', y', z', q);
    WholeIs(s, first, x, y, z, q);
    WholeIs(crashed, second, x', y', z', q);
    assert |PUBLIC| == 14 && |KID| == 7 && |ANON| == 8 && |SERVICE| == 16;
    SamePublished(Step(crashed, CutOver(true, second), ALL), Step(s, CutOver(true, first), ALL));
  }

  lemma NamedKid(s: State, x: Pair, y: Pair, z: Pair)
    requires InvAt(s, x, y, z)
    ensures Secret(s, KID) == Some(z.kid)
  {
    hide Secret, Secrets.Wf, HalvesOk, Covered, PrivateKeyName, MadeOk, RowsOk;
  }

  lemma NoNext(s: State, tokens: Tokens)
    requires !SomeNext(s.rows)
    ensures Plan(s, CutOver(true, tokens)).None?
  {
  }

  lemma NextGone(s: State, t: State, j: nat, x: Pair, y: Pair, z: Pair, q: Pair)
    requires 1 <= j <= 6 && InvAt(s, x, y, z) && Incoming(s, q) && At(s, t, j, x, y, z, q)
    requires j == 6 || z.kid == q.kid
    ensures !SomeNext(t.rows)
  {
    hide Secret, Secrets.Wf, HalvesOk, Covered, PrivateKeyName, MadeOk, Kept, SecretAt;
  }

  /** Minting brings no row back. */
  lemma MintingNext(s: State, tokens: Tokens, j: nat, x: Pair, y: Pair, z: Pair, q: Pair)
    requires 6 <= j && InvAt(s, x, y, z) && Incoming(s, q)
    ensures !SomeNext(Step(s, CutOver(true, tokens), j).rows)
  {
    hide InvAt, Secret, Perform, Moves, PrivateKeyName, Incoming, Plan, At, AllApply, Remint, IsRemint, Take, SomeNext;
    var a, b := Moves(x, y, z, q), Remint(tokens);
    IncomingMade(s, q);
    PlanIs(s, tokens, x, y, z, q);
    PlanSplits(a, b, j);
    SwitchTo(s, 6, x, y, z, q);
    assert a[..6] == a;
    NextGone(s, Perform(s, a), 6, x, y, z, q);
    AtInv(s, Perform(s, a), 6, x, y, z, q);
    if j > 6 {
      PerformThen(s, a, Take(b, j - 6));
      RemintIsRemint(tokens, j - 6);
      RemintKeeps(Perform(s, a), Take(b, j - 6), q, q, q);
    }
  }

  /**
   * A cut-over stopped after any of its writes can be run again exactly when it stopped before the deletion
   * and did not start from a state that an earlier crash had left with the incoming kid already in place.
   */
  lemma ReplayableIff(s: State, j: nat, first: Tokens, second: Tokens, x: Pair, y: Pair, z: Pair, q: Pair)
    requires InvAt(s, x, y, z) && Incoming(s, q) && 1 <= j
    ensures Plan(Step(s, CutOver(true, first), j), CutOver(true, second)).Some?
       <==> j <= 5 && Secret(s, KID) != Some(q.kid)
  {
    hide InvAt, Secret, Perform, Moves, PrivateKeyName, Incoming, Step, Plan, At, AllApply;
    NamedKid(s, x, y, z);
    IncomingMade(s, q);
    if j > 5 {
      MintingNext(s, first, j, x, y, z, q);
      NoNext(Step(s, CutOver(true, first), j), second);
    } else if z.kid != q.kid {
      CutOverReplays(s, j, first, second, x, y, z, q);
    } else {
      PrefixIs(s, first, j, x, y, z, q);
      SwitchTo(s, j, x, y, z, q);
      NextGone(s, Step(s, CutOver(true, first), j), j, x, y, z, q);
      NoNext(Step(s, CutOver(true, first), j), second);
    }
  }

  /** A crash right after the deletion leaves the old API keys in place, and no command to mint the new ones. */
  lemma CrashAfterDeletion(s: State, first: Tokens, second: Tokens, x: Pair, y: Pair, z: Pair, q: Pair)
    requires InvAt(s, x, y, z) && Incoming(s, q)
    ensures var t := Step(s, CutOver(true, first), 6);
            && Secret(t, PRIVATE) == Some(q.privatePem)
            && Secret(t, ANON) == Secret(s, ANON) && Secret(t, SERVICE) == Secret(s, SERVICE)
            && Plan(t, CutOver(true, second)).None?
  {
    hide InvAt, Secret, Perform, Moves, PrivateKeyName, Incoming, Step, Plan, AllApply, Secrets.Wf, Kept, KidOk, MadeOk, HalvesOk;
    ReplayableIff(s, 6, first, second, x, y, z, q);
    IncomingMade(s, q);
    InvFacts(s, x, y, z);
    NamesApart(z.kid);
    PrefixIs(s, first, 6, x, y, z, q);
    SwitchTo(s, 6, x, y, z, q);
    var t := Step(s, CutOver(true, first), 6);
    assert |PRIVATE| == 15 && |PUBLIC| == 14 && |KID| == 7 && |ANON| == 8 && |SERVICE| == 16;
    assert Secret(t, PRIVATE) == SecretAt(s, 6, x, z, q, PRIVATE);
    assert Secret(t, ANON) == SecretAt(s, 6, x, z, q, ANON);
    assert Secret(t, SERVICE) == SecretAt(s, 6, x, z, q, SERVICE);
  }

  // --- a retirement that leaves the signer out ---

  /** After a begin that was not cut off, the new pair waits. */
  lemma BegunIncoming(s: State, p: Pair, q: Pair)
    requires Provisioned(s, p) && Fresh(s, q)
    ensures var t := Step(s, Begin(q), 2); Incoming(t, q) && t.rows == map[q.kid := KeyRow(q.publicPem, Next)]
  {
    hide Secret, PrivateKeyName, Secrets.Put, Secrets.Wf;
    ProvisionedInv(s, p);
    GeneratedKeeps(s, q, p, p, p);
    FreshFacts(s, q, p, p, p);
    var g := s.(made := s.made + {q});
    SameTable(s, g);
    var put, insert := PutSecret(PrivateKeyName(q.kid), q.privatePem), InsertNext(q.kid, q.publicPem);
    PutSecretIs(g, PrivateKeyName(q.kid), q.privatePem);
    PerformTwo(g, put, insert, 2);
    SameTable(Apply(g, put).value, Step(s, Begin(q), 2));
  }

  /** A cut-over cut off after its third write: the new key signs, the old one is still shown, the row still waits. */
  lemma HalfCutOver(s: State, tokens: Tokens, x: Pair, q: Pair)
    requires InvAt(s, x, x, x) && Incoming(s, q) && x.kid != q.kid && s.rows == map[q.kid := KeyRow(q.publicPem, Next)]
    ensures var t := Step(s, CutOver(true, tokens), 3);
            && InvAt(t, q, x, x) && q.kid in t.rows && t.rows[q.kid].status == Next
  {
    hide InvAt, Secret, Perform, Moves, PrivateKeyName, Incoming, Step, Plan, AllApply, SecretAt, Kept, Secrets.Wf;
    IncomingMade(s, q);
    PrefixIs(s, tokens, 3, x, x, x, q);
    SwitchTo(s, 3, x, x, x, q);
    AtInv(s, Step(s, CutOver(true, tokens), 3), 3, x, x, x, q);
  }

  /**
   * The condition on retirements is needed: after provisioning, a begin, a cut-over that crashed after three
   * writes, and the retirement of the kid that still waits, the key that signs is not accepted.
   */
  lemma RetiredHalfWayIsLost(s: State, p: Pair, q: Pair, tokens: Tokens, due: bool)
    requires Provisioned(s, p) && Fresh(s, q)
    ensures var acts := [Act(Begin(q), 2), Act(CutOver(true, tokens), 3), Act(Retire(q.kid, due), 1)];
            FreshRun(s, acts) && !SignerAccepted(Run(s, acts))
  {
    hide InvAt, Secret, PrivateKeyName, Incoming, Step, SignerAccepted, HalfDone, Fresh;
    var a, b, c := Act(Begin(q), 2), Act(CutOver(true, tokens), 3), Act(Retire(q.kid, due), 1);
    ThreeActs(s, a, b, c);
    var s1 := Step(s, Begin(q), 2);
    var s2 := Step(s1, CutOver(true, tokens), 3);
    ProvisionedInv(s, p);
    BeginKeeps(s, q, 2, p, p, p);
    BegunIncoming(s, p, q);
    FreshKid(s, p, q);
    HalfCutOver(s1, tokens, p, q);
    HalfDoneIs(s2, q.kid, q, p, p);
    ShownIffAccepted(s2, q, p, p);
    RetirePlanned(s2, q.kid, due);
    RetireKeepsSignerIff(s2, q.kid, due, q, p, p);
  }

  lemma FreshKid(s: State, p: Pair, q: Pair)
    requires Provisioned(s, p) && Fresh(s, q)
    ensures p.kid != q.kid
  {
    hide Secret, PrivateKeyName, Secrets.Wf;
  }

  lemma RetirePlanned(s: State, kid: Kid, due: bool)
    requires kid in s.rows && s.rows[kid].status == Next
    ensures Plan(s, Retire(kid, due)).Some?
  {
  }

  lemma ThreeActs(s: State, a: Act, b: Act, c: Act)
    ensures Run(s, [a, b, c]) == Step(Step(Step(s, a.command, a.writes), b.command, b.writes), c.command, c.writes)
    ensures FreshRun(s, [a, b, c]) || b.command.Begin? || c.command.Begin?
         || (a.command.Begin? && !Fresh(s, a.command.pair))
  {
    hide Step, Fresh;
    var abc, ab, one := [a, b, c], [a, b], [a];
    assert abc[..2] == ab && ab[..1] == one && one[..0] == [];
    assert Run(s, []) == s && FreshRun(s, []);
    assert Run(s, one) == Step(s, a.command, a.writes);
    assert Run(s, ab) == Step(Run(s, one), b.command, b.writes);
    assert (a.command.Begin? ==> Fresh(s, a.command.pair)) ==> FreshRun(s, one);
    assert !b.command.Begin? && FreshRun(s, one) ==> FreshRun(s, ab);
  }

  /** Such a project exists. */
  lemma ProvisionedExists() returns (s: State, p: Pair, q: Pair)
    ensures Provisioned(s, p) && Fresh(s, q)
  {
    hide Upper, Secrets.Put, Secrets.Wf, Secrets.Get, Apply, PrivateKeyName;
    p, q := Pair("keyone", "public one", "private one"), Pair("keytwo", "public two", "private two");
    var empty := State(map[], map[], {}, {p}, {p});
    NothingStored(empty);
    PutSecretIs(empty, PRIVATE, p.privatePem);
    var s1 := Apply(empty, PutSecret(PRIVATE, p.privatePem)).value;
    assert |PRIVATE| == 15 && |PUBLIC| == 14 && |KID| == 7;
    PutSecretIs(s1, PUBLIC, p.publicPem);
    var s2 := Apply(s1, PutSecret(PUBLIC, p.publicPem)).value;
    PutSecretIs(s2, KID, p.kid);
    s := Apply(s2, PutSecret(KID, p.kid)).value;
    assert KidOk(p.kid) && KidOk(q.kid);
    NamesApart(p.kid);
    NamesApart(q.kid);
    assert p.kid[3] != q.kid[3] && p.publicPem[7] != q.publicPem[7] && p.privatePem[8] != q.privatePem[8];
  }

  lemma NothingStored(s: State)
    requires s.table == map[]
    ensures Secrets.Wf(s.table) && forall m :: Secret(s, m) == None
  {
  }
}
