/** What any interleaving of the send gate's callers keeps. */
module SendCaps {
  import opened Text
  import opened Sets
  import opened SendGate

  function Unit(held: set<Key>, k: Key): int {
    if k in held then 1 else 0
  }

  lemma HeldBetween(a: Args, i: nat, n: nat)
    requires i < 4 && n <= 4
    ensures Keys(a)[i] in KeysBetween(a, 0, n) <==> i < n
    ensures forall j: nat | j <= i < n :: Keys(a)[i] in KeysBetween(a, j, n)
  {
  }

  /** Each Redis call moves a counter by what its caller gains or gives back. */
  lemma AdvanceConserves(s: Store, c: Call, k: Key)
    requires CallOk(c)
    ensures var (s', c') := Advance(s, c);
            Count(s', k) - Count(s, k) == Unit(c'.held, k) - Unit(c.held, k)
  {
    hide Keys, KeysBetween, LimitOf, NameOf;
    match c.phase
    case Bumping(i) => HeldBetween(c.args, i, i);
    case Rolling(j, n, _) => HeldBetween(c.args, j, n);
    case _ =>
  }

  lemma HoldersUpdate(calls: map<CallId, Call>, id: CallId, c: Call, k: Key)
    ensures |Holders(calls[id := c], k)|
         == |Holders(calls, k)| + Unit(c.held, k) - (if id in calls then Unit(calls[id].held, k) else 0)
  {
    var before, after := Holders(calls, k), Holders(calls[id := c], k);
    if k in c.held {
      assert after == before + {id};
    } else {
      assert after == before - {id};
    }
  }

  lemma AdvanceBalanced(s: State, id: CallId)
    requires Balanced(s) && id in s.calls
    ensures Balanced(Step(s, Next(id)))
  {
    hide CallOk, Count, Holders, Advance;
    AdvanceOk(s.store, s.calls[id]);
    forall k ensures Count(Step(s, Next(id)).store, k) == |Holders(Step(s, Next(id)).calls, k)| {
      AdvanceConserves(s.store, s.calls[id], k);
      HoldersUpdate(s.calls, id, Advance(s.store, s.calls[id]).1, k);
    }
  }

  lemma LoseOk(c: Call)
    requires CallOk(c)
    ensures CallOk(LoseUnit(c)) && LoseUnit(c).held == c.held
  {
    hide Keys, KeysBetween;
    if c.phase.Rolling? {
      BetweenSteps(c.args, c.phase.j, c.phase.n);
      BetweenSteps(c.args, 0, c.phase.n);
    }
  }

  /** A decrement that fails is passed over: the unit stays held, and the refusal goes on to the next or ends. */
  lemma LostUnitStays(c: Call)
    requires CallOk(c) && c.phase.Rolling?
    ensures var j, n, d := c.phase.j, c.phase.n, LoseUnit(c);
            && j < 4 && Keys(c.args)[j] in d.held && d.held == c.held && d.lost
            && d.phase == if j + 1 < n then Rolling(j + 1, n, c.phase.cap) else Done(Limited(c.phase.cap))
  {
  }

  lemma CrashOk(c: Call)
    requires CallOk(c) && !c.phase.Done?
    ensures CallOk(c.(phase := Crashed))
  {
  }

  lemma SameHeldBalanced(s: State, id: CallId, c: Call)
    requires Balanced(s) && CallOk(c) && c.held == if id in s.calls then s.calls[id].held else {}
    ensures Balanced(s.(calls := s.calls[id := c]))
  {
    hide CallOk, Count, Holders;
    forall k ensures Count(s.store, k) == |Holders(s.calls[id := c], k)| {
      HoldersUpdate(s.calls, id, c, k);
    }
  }

  lemma BeginOk(a: Args)
    ensures CallOk(Begin(a)) && Begin(a).held == {}
  {
    assert KeysBetween(a, 0, 0) == {};
  }

  lemma StepBalanced(s: State, e: Event)
    requires Balanced(s)
    ensures Balanced(Step(s, e))
  {
    hide CallOk, Count, Holders, Advance, LoseUnit, Begin, Balanced;
    if e.Start? {
      BeginOk(e.args);
      if e.id !in s.calls {
        SameHeldBalanced(s, e.id, Begin(e.args));
      }
    } else if e.id in s.calls {
      BalancedCall(s, e.id);
      var c := s.calls[e.id];
      match e
      case Next(id) => AdvanceBalanced(s, id);
      case Lose(id) =>
        LoseOk(c);
        SameHeldBalanced(s, id, LoseUnit(c));
      case Crash(id) =>
        if !c.phase.Done? {
          CrashOk(c);
          SameHeldBalanced(s, id, c.(phase := Crashed));
        } else {
          SameHeldBalanced(s, id, c);
        }
    }
  }

  lemma BalancedCall(s: State, id: CallId)
    requires Balanced(s) && id in s.calls
    ensures CallOk(s.calls[id])
  {
    hide CallOk, Count, Holders;
  }

  /** In every run, with crashes and lost decrements: each counter is the number of units held. */
  lemma {:induction false} RunBalanced(s: State, es: seq<Event>)
    requires Balanced(s)
    ensures Balanced(Run(s, es))
  {
    hide Balanced, Step;
    if es != [] {
      RunBalanced(s, es[..|es| - 1]);
      StepBalanced(Run(s, es[..|es| - 1]), es[|es| - 1]);
    }
  }

  lemma EmptyBalanced()
    ensures Balanced(EMPTY)
  {
  }

  // --- the caps ---

  /** The caller has taken `k` within its limit and has not been refused since. */
  predicate Passed(c: Call, k: Key) {
    k in c.held && (c.phase.Bumping? || c.phase.Adding? || c.phase.Counting? || c.phase == Done(Allowed))
  }

  function Passers(calls: map<CallId, Call>, k: Key): set<CallId> {
    set id | id in calls && Passed(calls[id], k)
  }

  /** The calls that were told they may send and count against `k`. */
  function AllowedOn(calls: map<CallId, Call>, k: Key): set<CallId> {
    set id | id in calls && calls[id].phase == Done(Allowed) && k in Keys(calls[id].args)
  }

  predicate LimitWithin(a: Args, k: Key, m: nat) {
    k in Keys(a) ==> LimitOf(a.caps, k) <= m
  }

  predicate LimitsWithin(calls: map<CallId, Call>, k: Key, m: nat) {
    forall id | id in calls :: LimitWithin(calls[id].args, k, m)
  }

  lemma PassedBefore(s: Store, c: Call, k: Key)
    requires CallOk(c) && Passed(Advance(s, c).1, k)
    ensures Passed(c, k) || (k in Keys(c.args) && Count(Advance(s, c).0, k) <= LimitOf(c.args.caps, k))
  {
    hide LimitOf, NameOf, KeysBetween;
  }

  lemma PassersUpdate(calls: map<CallId, Call>, id: CallId, c: Call, k: Key)
    requires Passed(c, k) ==> id in calls && Passed(calls[id], k)
    ensures |Passers(calls[id := c], k)| <= |Passers(calls, k)|
  {
    hide Passed;
    SubsetSize(Passers(calls[id := c], k), Passers(calls, k));
  }

  lemma PassersHold(calls: map<CallId, Call>, k: Key)
    ensures |Passers(calls, k)| <= |Holders(calls, k)|
  {
    SubsetSize(Passers(calls, k), Holders(calls, k));
  }

  lemma NextCapped(s: State, id: CallId, k: Key, m: nat)
    requires Balanced(s) && id in s.calls && LimitsWithin(s.calls, k, m) && |Passers(s.calls, k)| <= m
    ensures |Passers(Step(s, Next(id)).calls, k)| <= m
  {
    hide CallOk, Count, Holders, Advance, Passed, Passers, LimitOf, Keys;
    var c, s' := s.calls[id], Step(s, Next(id));
    var (store, c') := Advance(s.store, c);
    AdvanceBalanced(s, id);
    if Passed(c', k) {
      PassedBefore(s.store, c, k);
    }
    if Passed(c', k) && !Passed(c, k) {
      assert LimitWithin(c.args, k, m);
      PassersHold(s'.calls, k);
      assert Count(s'.store, k) == |Holders(s'.calls, k)|;
    } else {
      PassersUpdate(s.calls, id, c', k);
    }
  }

  lemma QuietCapped(s: State, e: Event, k: Key)
    requires !e.Next?
    ensures |Passers(Step(s, e).calls, k)| <= |Passers(s.calls, k)|
  {
    hide Passers, Keys;
    if e.Start? {
      PassersUpdate(s.calls, e.id, Begin(e.args), k);
    } else if e.id in s.calls {
      var c := s.calls[e.id];
      PassersUpdate(s.calls, e.id, LoseUnit(c), k);
      PassersUpdate(s.calls, e.id, if c.phase.Done? then c else c.(phase := Crashed), k);
    }
  }

  predicate StartsWithin(es: seq<Event>, k: Key, m: nat) {
    forall i | 0 <= i < |es| :: es[i].Start? ==> LimitWithin(es[i].args, k, m)
  }

  lemma AdvanceArgs(s: Store, c: Call)
    ensures Advance(s, c).1.args == c.args
  {
    hide Keys, LimitOf, NameOf;
  }

  lemma StepLimits(s: State, e: Event, k: Key, m: nat)
    requires LimitsWithin(s.calls, k, m) && (e.Start? ==> LimitWithin(e.args, k, m))
    ensures LimitsWithin(Step(s, e).calls, k, m)
  {
    hide LimitWithin, Advance;
    if e.Next? && e.id in s.calls {
      AdvanceArgs(s.store, s.calls[e.id]);
    }
  }

  lemma {:induction false} RunCapped(s: State, es: seq<Event>, k: Key, m: nat)
    requires Balanced(s) && LimitsWithin(s.calls, k, m) && |Passers(s.calls, k)| <= m && StartsWithin(es, k, m)
    ensures LimitsWithin(Run(s, es).calls, k, m) && |Passers(Run(s, es).calls, k)| <= m
  {
    hide Balanced, LimitsWithin, LimitWithin, Passers, Step;
    if es != [] {
      var front, e := es[..|es| - 1], es[|es| - 1];
      RunCapped(s, front, k, m);
      RunBalanced(s, front);
      StepLimits(Run(s, front), e, k, m);
      if e.Next? {
        StepStays(Run(s, front), e);
        if e.id in Run(s, front).calls {
          NextCapped(Run(s, front), e.id, k, m);
        }
      } else {
        QuietCapped(Run(s, front), e, k);
      }
    }
  }

  lemma StepStays(s: State, e: Event)
    ensures e.Next? && e.id !in s.calls ==> Step(s, e) == s
  {
  }

  lemma AllowedPassed(s: State, k: Key)
    requires Balanced(s)
    ensures AllowedOn(s.calls, k) <= Passers(s.calls, k)
  {
    hide Keys;
    forall id | id in AllowedOn(s.calls, k) ensures id in Passers(s.calls, k) {
      assert CallOk(s.calls[id]);
    }
  }

  /**
   * However callers interleave, crash or lose decrements, no counter key ever
   * admits more sends than the largest limit any caller brought for it.
   */
  lemma AllowedWithinCap(es: seq<Event>, k: Key, m: nat)
    requires StartsWithin(es, k, m)
    ensures |AllowedOn(Run(EMPTY, es).calls, k)| <= m
  {
    hide Balanced, LimitWithin, Passed, Step, Run, AllowedOn;
    EmptyBalanced();
    EmptyCapped(k);
    RunCapped(EMPTY, es, k, m);
    RunBalanced(EMPTY, es);
    AllowedPassed(Run(EMPTY, es), k);
    SubsetSize(AllowedOn(Run(EMPTY, es).calls, k), Passers(Run(EMPTY, es).calls, k));
  }

  lemma EmptyCapped(k: Key)
    ensures Passers(EMPTY.calls, k) == {}
  {
  }

  /** Crashes and lost decrements only ever under-send: a counter is never below the sends it admitted. */
  lemma NeverBelowAllowed(es: seq<Event>, k: Key)
    ensures Count(Run(EMPTY, es).store, k) >= |AllowedOn(Run(EMPTY, es).calls, k)|
  {
    hide CallOk, Count, AllowedOn, Run, Holders, Passers;
    EmptyBalanced();
    RunBalanced(EMPTY, es);
    var s := Run(EMPTY, es);
    AllowedPassed(s, k);
    SubsetSize(AllowedOn(s.calls, k), Passers(s.calls, k));
    PassersHold(s.calls, k);
  }

  predicate Quiescent(s: State) {
    forall id | id in s.calls :: s.calls[id].phase.Done? && !s.calls[id].lost
  }

  /** Once every call has finished without a crash or a lost decrement, the counter is exactly the allowed sends. */
  lemma QuiescentExact(es: seq<Event>, k: Key)
    requires Quiescent(Run(EMPTY, es))
    ensures Count(Run(EMPTY, es).store, k) == |AllowedOn(Run(EMPTY, es).calls, k)|
  {
    hide Count, Run, Keys;
    EmptyBalanced();
    RunBalanced(EMPTY, es);
    var s := Run(EMPTY, es);
    forall id | id in s.calls ensures id in Holders(s.calls, k) <==> id in AllowedOn(s.calls, k) {
      HolderIffAllowed(s.calls[id], k);
    }
    assert Holders(s.calls, k) == AllowedOn(s.calls, k);
  }

  lemma HolderIffAllowed(c: Call, k: Key)
    requires CallOk(c) && c.phase.Done? && !c.lost
    ensures k in c.held <==> c.phase == Done(Allowed) && k in Keys(c.args)
  {
    hide Keys;
  }

  // --- a mail-bomb spares the project ---

  predicate RecipientCap(cap: CapName) {
    cap == PerRecipientPerHour || cap == PerRecipientPerDay
  }

  predicate ProjectKey(k: Key) {
    k.ProjectHour? || k.ProjectDay?
  }

  predicate HoldsProject(held: set<Key>) {
    exists k | k in held :: ProjectKey(k)
  }

  /** Before its recipient caps have passed, and once one of them has refused, a call holds nothing of the project's. */
  predicate Spares(c: Call) {
    match c.phase
    case Bumping(i) => i <= 2 ==> !HoldsProject(c.held)
    case Rolling(_, _, cap) => RecipientCap(cap) ==> !HoldsProject(c.held)
    case Done(Limited(cap)) => RecipientCap(cap) ==> !HoldsProject(c.held)
    case _ => true
  }

  lemma AdvanceSpares(s: Store, c: Call)
    requires CallOk(c) && Spares(c)
    ensures Spares(Advance(s, c).1)
  {
    hide LimitOf, KeysBetween, Count;
  }

  lemma StepSpares(s: State, e: Event)
    requires Balanced(s) && forall id | id in s.calls :: Spares(s.calls[id])
    ensures forall id | id in Step(s, e).calls :: Spares(Step(s, e).calls[id])
  {
    hide CallOk, Count, Holders, Advance, HoldsProject, RecipientCap;
    if e.Next? && e.id in s.calls {
      BalancedCall(s, e.id);
      AdvanceSpares(s.store, s.calls[e.id]);
    }
    if e.Start? {
      BeginSpares(e.args);
    }
  }

  lemma BeginSpares(a: Args)
    ensures Spares(Begin(a))
  {
  }

  /** In every run a call that a recipient cap refuses never holds a unit of its project's budget. */
  lemma {:induction false} MailBombSparesProject(es: seq<Event>, id: CallId)
    ensures id in Run(EMPTY, es).calls ==> Spares(Run(EMPTY, es).calls[id])
    decreases |es|
  {
    hide Balanced, Step, Spares;
    if es != [] {
      var front := es[..|es| - 1];
      EmptyBalanced();
      RunBalanced(EMPTY, front);
      forall i | i in Run(EMPTY, front).calls ensures Spares(Run(EMPTY, front).calls[i]) {
        MailBombSparesProject(front, i);
      }
      StepSpares(Run(EMPTY, front), es[|es| - 1]);
    }
  }
}
