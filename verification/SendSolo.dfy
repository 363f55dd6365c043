/** One caller alone, and the gate as it is written. */
module SendSolo {
  import opened Text
  import opened Sets
  import opened SendGate
  import opened SendCaps

  // --- one caller alone ---

  function Left(p: Phase): nat {
    match p
    case Bumping(i) => if i < 4 then 20 - i else 0
    case Adding => 15
    case Counting => 14
    case Rolling(j, _, _) => if j < 4 then 10 - j else 0
    case Done(_) => 0
    case Crashed => 0
  }

  lemma AdvanceProgress(s: Store, c: Call)
    requires CallOk(c) && !c.phase.Done? && !c.phase.Crashed?
    ensures Left(Advance(s, c).1.phase) < Left(c.phase)
  {
    hide Keys, KeysBetween, LimitOf, NameOf, Count;
  }

  /** A call run to its end with no one in between. */
  function Finish(s: Store, c: Call): (Store, Call)
    requires CallOk(c)
    decreases Left(c.phase)
  {
    if c.phase.Done? || c.phase.Crashed? then (s, c)
    else
      AdvanceOk(s, c);
      AdvanceProgress(s, c);
      var (s', c') := Advance(s, c);
      Finish(s', c')
  }

  lemma FinishStep(s: Store, c: Call)
    requires CallOk(c) && !c.phase.Done? && !c.phase.Crashed?
    ensures CallOk(Advance(s, c).1) && Left(Advance(s, c).1.phase) < Left(c.phase)
    ensures Finish(s, c) == Finish(Advance(s, c).0, Advance(s, c).1)
  {
    hide CallOk, Advance, Left;
    AdvanceOk(s, c);
    AdvanceProgress(s, c);
  }

  /** The call ends in order, and the counters move by exactly what it still holds. */
  lemma {:induction false} FinishConserves(s: Store, c: Call, k: Key)
    requires CallOk(c) && !c.phase.Crashed?
    ensures var (s', c') := Finish(s, c);
            && CallOk(c') && c'.phase.Done? && c'.lost == c.lost && c'.args == c.args
            && Count(s', k) - Count(s, k) == Unit(c'.held, k) - Unit(c.held, k)
    decreases Left(c.phase)
  {
    if !c.phase.Done? {
      hide CallOk, Advance, Left, Count, Finish;
      FinishStep(s, c);
      AdvanceConserves(s, c, k);
      AdvanceKeeps(s, c);
      FinishConserves(Advance(s, c).0, Advance(s, c).1, k);
    }
  }

  lemma AdvanceKeeps(s: Store, c: Call)
    ensures var c' := Advance(s, c).1; c'.lost == c.lost && c'.args == c.args && (c'.phase.Crashed? ==> c.phase.Crashed?)
  {
    hide Keys, LimitOf, NameOf, Count;
  }

  /** The first counter, from `i` on, that has no room for one more. */
  function FirstOver(s: Store, a: Args, i: nat): Option<nat>
    requires i <= 4
    decreases 4 - i
  {
    if i == 4 then None
    else if Count(s, Keys(a)[i]) + 1 > LimitOf(a.caps, Keys(a)[i]) then Some(i)
    else FirstOver(s, a, i + 1)
  }

  function Broadens(s: Store, a: Args): bool {
    a.recipient !in Seen(s, BucketOf(a)) && |Seen(s, BucketOf(a))| >= a.caps.distinctRecipientsPerDay
  }

  /** What a call alone answers once nothing suppresses it and the first `i` counters had room. */
  function Budgeted(s: Store, a: Args, i: nat): Verdict
    requires i <= 4
  {
    match FirstOver(s, a, i)
    case Some(j) => if j < 4 then Limited(NameOf(Keys(a)[j])) else Allowed
    case None => if Broadens(s, a) then Limited(DistinctRecipientsPerDay) else Allowed
  }

  function Answer(s: Store, a: Args): Verdict {
    if a.globally then SuppressedGlobally else if a.locally then SuppressedLocally else Budgeted(s, a, 0)
  }

  /** Between `s` and `s'` the recipient sets change, if at all, by this call's recipient. */
  ghost predicate SeenGrows(s: Store, s': Store, a: Args, grows: bool) {
    forall b :: Seen(s', b) == if grows && b == BucketOf(a) then Seen(s, b) + {a.recipient} else Seen(s, b)
  }

  /** The recipient set afterwards: refusal by the distinct cap leaves the recipient in it. */
  function SeenAfter(s: Store, a: Args, b: Bucket): set<Recipient> {
    if b == BucketOf(a) && !a.globally && !a.locally && FirstOver(s, a, 0).None?
    then Seen(s, b) + {a.recipient} else Seen(s, b)
  }

  lemma {:induction false} FinishRolling(s: Store, c: Call)
    requires CallOk(c) && c.phase.Rolling?
    ensures Finish(s, c).1.phase == Done(Limited(c.phase.cap)) && Finish(s, c).0.seen == s.seen
    decreases Left(c.phase)
  {
    hide CallOk, Left, Finish, Keys;
    FinishStep(s, c);
    RollingShape(c);
    if c.phase.j + 1 < c.phase.n {
      FinishRolling(Advance(s, c).0, Advance(s, c).1);
    } else {
      FinishDone(Advance(s, c).0, Advance(s, c).1);
    }
  }

  lemma RollingShape(c: Call)
    requires CallOk(c) && c.phase.Rolling?
    ensures c.phase.j < c.phase.n <= 4
  {
    hide KeysBetween;
  }

  lemma FinishDone(s: Store, c: Call)
    requires CallOk(c) && c.phase.Done?
    ensures Finish(s, c) == (s, c)
  {
    hide CallOk;
  }

  lemma FinishCounting(s: Store, c: Call)
    requires CallOk(c) && c.phase.Counting?
    ensures Finish(s, c).0.seen == s.seen
    ensures Finish(s, c).1.phase == Done(
      if |Seen(s, BucketOf(c.args))| > c.args.caps.distinctRecipientsPerDay then Limited(DistinctRecipientsPerDay)
      else Allowed)
  {
    FinishStep(s, c);
    hide CallOk, Finish, Left;
    var (s', c') := Advance(s, c);
    if c'.phase.Done? {
      FinishDone(s', c');
    } else {
      FinishRolling(s', c');
    }
  }

  lemma AddedSeen(s: Store, b: Bucket, r: Recipient)
    ensures forall b' :: Seen(Added(s, b, r), b') == if b' == b then Seen(s, b) + {r} else Seen(s, b')
  {
  }

  lemma FinishAdding(s: Store, c: Call)
    requires CallOk(c) && c.phase.Adding?
    ensures Finish(s, c).1.phase == Done(if Broadens(s, c.args) then Limited(DistinctRecipientsPerDay) else Allowed)
    ensures SeenGrows(s, Finish(s, c).0, c.args, true)
  {
    FinishStep(s, c);
    var (s', c') := Advance(s, c);
    hide CallOk, Finish, Left;
    var b, r := BucketOf(c.args), c.args.recipient;
    if r in Seen(s, b) {
      FinishDone(s', c');
      assert Seen(s, b) + {r} == Seen(s, b);
    } else {
      FinishCounting(s', c');
      AddedSeen(s, b, r);
      assert |Seen(s, b) + {r}| == |Seen(s, b)| + 1;
    }
  }

  lemma {:induction false} FirstOverLater(s: Store, a: Args, i: nat, j: nat)
    requires i < j <= 4
    ensures FirstOver(Bumped(s, Keys(a)[i], 1), a, j) == FirstOver(s, a, j)
    decreases 4 - j
  {
    hide Keys;
    if j < 4 {
      assert Keys(a)[i] != Keys(a)[j];
      FirstOverLater(s, a, i, j + 1);
    }
  }

  lemma BumpedSeen(s: Store, s': Store, k: Key, a: Args)
    requires s' == Bumped(s, k, 1)
    ensures SeenGrows(s, s', a, false) && s'.seen == s.seen && Broadens(s', a) == Broadens(s, a)
    ensures forall t: Store, grows :: SeenGrows(s', t, a, grows) == SeenGrows(s, t, a, grows)
    ensures forall t: Store | t.seen == s.seen :: SeenGrows(s, t, a, false)
  {
  }

  lemma {:induction false} FinishBumping(s: Store, c: Call)
    requires CallOk(c) && c.phase.Bumping?
    ensures Finish(s, c).1.phase == Done(Budgeted(s, c.args, c.phase.i))
    ensures SeenGrows(s, Finish(s, c).0, c.args, FirstOver(s, c.args, c.phase.i).None?)
    decreases Left(c.phase)
  {
    BumpingShape(c);
    FinishStep(s, c);
    hide CallOk, Finish, Keys, LimitOf, NameOf, SeenGrows, Broadens;
    var i := c.phase.i;
    var (s', c') := Advance(s, c);
    FirstOverLater(s, c.args, i, i + 1);
    BumpedSeen(s, s', Keys(c.args)[i], c.args);
    if c'.phase.Rolling? {
      FinishRolling(s', c');
    } else if i < 3 {
      FinishBumping(s', c');
    } else {
      FinishAdding(s', c');
    }
  }

  lemma BumpingShape(c: Call)
    requires CallOk(c) && c.phase.Bumping?
    ensures c.phase.i < 4
  {
    hide KeysBetween;
  }

  /** One call run alone: its answer, its effect on the recipient set, and its units. */
  lemma AloneIsAnswer(s: Store, a: Args)
    ensures CallOk(Begin(a)) && Finish(s, Begin(a)).1.phase == Done(Answer(s, a))
    ensures forall b :: Seen(Finish(s, Begin(a)).0, b) == SeenAfter(s, a, b)
  {
    BeginOk(a);
    if a.globally || a.locally {
      FinishDone(s, Begin(a));
    } else {
      FinishBumping(s, Begin(a));
    }
  }

  /** An allowed call takes one unit of each of its four counters; any refusal leaves every counter as it was. */
  lemma AloneCounts(s: Store, a: Args, k: Key)
    ensures CallOk(Begin(a))
    ensures Count(Finish(s, Begin(a)).0, k)
      == Count(s, k) + (if Answer(s, a) == Allowed && k in Keys(a) then 1 else 0)
  {
    hide Finish, Answer, CallOk, Count, Keys;
    BeginOk(a);
    AloneIsAnswer(s, a);
    FinishConserves(s, Begin(a), k);
    BeginLost(a);
    HolderIffAllowed(Finish(s, Begin(a)).1, k);
  }

  lemma BeginLost(a: Args)
    ensures !Begin(a).lost && !Begin(a).phase.Crashed? && Begin(a).args == a && Begin(a).held == {}
  {
  }

  /** Alone, a call is allowed exactly when nothing suppresses it and every budget has room. */
  lemma AllowedIff(s: Store, a: Args)
    ensures Answer(s, a) == Allowed <==>
      && !a.globally && !a.locally
      && (forall i | 0 <= i < 4 :: Count(s, Keys(a)[i]) < LimitOf(a.caps, Keys(a)[i]))
      && (a.recipient in Seen(s, BucketOf(a)) || |Seen(s, BucketOf(a))| < a.caps.distinctRecipientsPerDay)
  {
    FirstOverIs(s, a, 0);
  }

  lemma {:induction false} FirstOverIs(s: Store, a: Args, i: nat)
    requires i <= 4
    ensures match FirstOver(s, a, i)
            case Some(j) => i <= j < 4 && Count(s, Keys(a)[j]) >= LimitOf(a.caps, Keys(a)[j])
              && forall k | i <= k < j :: Count(s, Keys(a)[k]) < LimitOf(a.caps, Keys(a)[k])
            case None => forall k | i <= k < 4 :: Count(s, Keys(a)[k]) < LimitOf(a.caps, Keys(a)[k])
    decreases 4 - i
  {
    hide Keys, LimitOf, Count;
    if i < 4 {
      FirstOverIs(s, a, i + 1);
    }
  }

  /**
   * Where the distinct cap falls short: a new recipient refused by it is in the set,
   * so the very next attempt is allowed, one recipient past the cap.
   */
  lemma SecondAttemptPasses(s: Store, a: Args)
    requires Answer(s, a) == Limited(DistinctRecipientsPerDay)
    ensures CallOk(Begin(a))
    ensures var s' := Finish(s, Begin(a)).0;
            && Answer(s', a) == Allowed
            && |Seen(s', BucketOf(a))| > a.caps.distinctRecipientsPerDay
  {
    hide Finish, Count, CallOk, Keys, Begin;
    BeginOk(a);
    var s', b := Finish(s, Begin(a)).0, BucketOf(a);
    AloneIsAnswer(s, a);
    FirstOverIs(s, a, 0);
    DistinctMeans(s, a);
    forall k ensures Count(s', k) == Count(s, k) {
      AloneCounts(s, a, k);
    }
    assert Seen(s', b) == Seen(s, b) + {a.recipient};
    AllowedIff(s', a);
  }

  lemma DistinctMeans(s: Store, a: Args)
    requires Answer(s, a) == Limited(DistinctRecipientsPerDay)
    ensures !a.globally && !a.locally && FirstOver(s, a, 0).None? && Broadens(s, a)
    ensures |Seen(s, BucketOf(a)) + {a.recipient}| == |Seen(s, BucketOf(a))| + 1
  {
  }

  // --- the gate as written ---

  class Redis {
    var counts: map<Key, int>
    var seen: map<Bucket, set<Recipient>>

    ghost function Held(): Store
      reads this
    {
      Store(counts, seen)
    }

    constructor ()
      ensures Held() == EMPTY.store
    {
      counts, seen := map[], map[];
    }

    method Incr(k: Key) returns (n: int)
      modifies this`counts
      ensures Held() == Bumped(old(Held()), k, 1) && n == Count(Held(), k)
    {
      n := (if k in counts then counts[k] else 0) + 1;
      counts := counts[k := n];
    }

    method Decr(k: Key)
      modifies this`counts
      ensures Held() == Bumped(old(Held()), k, -1)
    {
      counts := counts[k := (if k in counts then counts[k] else 0) - 1];
    }

    method PfAdd(b: Bucket, r: Recipient) returns (changed: bool)
      modifies this`seen
      ensures changed == (r !in Seen(old(Held()), b))
      ensures Held() == if changed then Added(old(Held()), b, r) else old(Held())
    {
      var already := if b in seen then seen[b] else {};
      changed := r !in already;
      if changed {
        seen := seen[b := already + {r}];
      }
    }

    method PfCount(b: Bucket) returns (n: nat)
      ensures n == |Seen(Held(), b)|
    {
      n := if b in seen then |seen[b]| else 0;
    }

    /** Return every unit spent. */
    method Rollback(spent: seq<Key>)
      requires forall i, j | 0 <= i < j < |spent| :: spent[i] != spent[j]
      modifies this`counts
      ensures Spent(Held(), old(Held()), spent) && seen == old(seen)
    {
      for i := 0 to |spent|
        invariant Spent(Held(), old(Held()), spent[..i])
      {
        assert spent[..i + 1] == spent[..i] + [spent[i]];
        Decr(spent[i]);
      }
      assert spent[..|spent|] == spent;
    }

    /** Increment the counter `i`, remember it, compare. */
    method Bump(a: Args, i: nat, spent: seq<Key>, ghost before: Store) returns (over: bool, spent': seq<Key>)
      requires i < 4 && spent == Keys(a)[..i] && Spent(before, Held(), spent)
      requires FirstOver(before, a, 0) == FirstOver(before, a, i)
      modifies this`counts
      ensures spent' == Keys(a)[..i + 1] && Spent(before, Held(), spent') && seen == old(seen)
      ensures FirstOver(before, a, 0) == if over then Some(i) else FirstOver(before, a, i + 1)
    {
      hide Keys, LimitOf;
      var k := Keys(a)[i];
      assert Count(Held(), k) == Count(before, k);
      var n := Incr(k);
      spent' := spent + [k];
      over := n > LimitOf(a.caps, k);
    }

    /** The four increments, stopping at the first over its limit; and their rollback. */
    method Spend(a: Args) returns (over: Option<CapName>, spent: seq<Key>)
      modifies this`counts
      ensures seen == old(seen)
      ensures match FirstOver(old(Held()), a, 0)
              case Some(i) => i < 4 && over == Some(NameOf(Keys(a)[i])) && Spent(old(Held()), Held(), [])
              case None => over == None && spent == Keys(a) && Spent(old(Held()), Held(), Keys(a))
    {
      hide Count, Keys, Spent, NameOf, LimitOf, FirstOver;
      ghost var before := Held();
      NothingSpent(before);
      FirstOverEnd(before, a);
      var full;
      full, spent := Bump(a, 0, [], before);
      if !full {
        full, spent := Bump(a, 1, spent, before);
      }
      if !full {
        full, spent := Bump(a, 2, spent, before);
      }
      if !full {
        full, spent := Bump(a, 3, spent, before);
      }
      if full {
        ghost var mid := Held();
        assert spent[|spent| - 1] == Keys(a)[|spent| - 1];
        Rollback(spent);
        SpentBack(before, mid, Held(), spent);
        over := Some(NameOf(spent[|spent| - 1]));
      } else {
        assert Keys(a)[..4] == Keys(a);
        over := None;
      }
    }

    /** The gate. Its answer is that of a call alone, and so is its effect on the store. */
    method CheckAndConsume(a: Args) returns (v: Verdict)
      modifies this
      ensures v == Answer(old(Held()), a)
      ensures Spent(old(Held()), Held(), if v == Allowed then Keys(a) else [])
      ensures SeenGrows(old(Held()), Held(), a, !a.globally && !a.locally && FirstOver(old(Held()), a, 0).None?)
    {
      hide Count, Keys, Seen, SeenGrows, Spent, FirstOver, NameOf;
      ghost var before := Held();
      NothingSpent(before);
      SameSeen(before, before, a);
      if a.globally {
        return SuppressedGlobally;
      }
      if a.locally {
        return SuppressedLocally;
      }
      var over, spent := Spend(a);
      ghost var mid := Held();
      SameSeen(before, mid, a);
      if over.Some? {
        return Limited(over.value);
      }
      var added := PfAdd(BucketOf(a), a.recipient);
      AddedGrows(before, mid, a);
      SpentSeen(before, mid, Held(), Keys(a));
      if added {
        var distinct := PfCount(BucketOf(a));
        if distinct > a.caps.distinctRecipientsPerDay {
          ghost var full := Held();
          Rollback(spent);
          SpentBack(before, full, Held(), spent);
          SameSeenGrows(before, full, Held(), a);
          return Limited(DistinctRecipientsPerDay);
        }
      }
      return Allowed;
    }
  }

  /** Nothing is spent but the units of `spent`. */
  ghost predicate Spent(before: Store, after: Store, spent: seq<Key>) {
    forall k :: Count(after, k) == Count(before, k) + (if k in spent then 1 else 0)
  }

  lemma FirstOverEnd(s: Store, a: Args)
    ensures FirstOver(s, a, 4) == None
  {
  }

  lemma NothingSpent(s: Store)
    ensures Spent(s, s, [])
  {
  }

  lemma SpentBack(before: Store, mid: Store, after: Store, spent: seq<Key>)
    requires Spent(before, mid, spent) && Spent(after, mid, spent)
    ensures Spent(before, after, [])
  {
    hide Count;
    forall k ensures Count(after, k) == Count(before, k) {
      assert Count(mid, k) == Count(before, k) + (if k in spent then 1 else 0);
    }
  }

  lemma SpentSeen(before: Store, mid: Store, after: Store, spent: seq<Key>)
    requires Spent(before, mid, spent) && after.counts == mid.counts
    ensures Spent(before, after, spent)
  {
    forall k ensures Count(after, k) == Count(mid, k) {
    }
  }

  lemma SameSeen(before: Store, after: Store, a: Args)
    requires after.seen == before.seen
    ensures SeenGrows(before, after, a, false)
  {
  }

  lemma SameSeenGrows(before: Store, mid: Store, after: Store, a: Args)
    requires SeenGrows(before, mid, a, true) && after.seen == mid.seen
    ensures SeenGrows(before, after, a, true)
  {
    forall b ensures Seen(after, b) == Seen(mid, b) {
    }
  }

  /** Adding the recipient grows the set to where the distinct cap is compared. */
  lemma AddedGrows(before: Store, mid: Store, a: Args)
    requires mid.seen == before.seen
    ensures a.recipient in Seen(mid, BucketOf(a)) ==> SeenGrows(before, mid, a, true)
    ensures var s := Added(mid, BucketOf(a), a.recipient);
            && s.counts == mid.counts
            && SeenGrows(before, s, a, true)
            && (a.recipient !in Seen(mid, BucketOf(a)) ==> |Seen(s, BucketOf(a))| == |Seen(before, BucketOf(a))| + 1)
            && Broadens(before, a) == Broadens(mid, a)
  {
    AddedSeen(mid, BucketOf(a), a.recipient);
    if a.recipient in Seen(mid, BucketOf(a)) {
      assert Seen(mid, BucketOf(a)) + {a.recipient} == Seen(mid, BucketOf(a));
    }
  }
}
