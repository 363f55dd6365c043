/** The distinct-recipient cap: what it bounds over all runs, and how a retry gets past it. */
module SendRecipients {
  import opened Text
  import opened Sets
  import opened SendGate
  import opened SendCaps
  import opened SendSolo

  // --- first attempts ---

  /** Recipients of the bucket whose first attempt was admitted. */
  function FirstTimers(calls: map<CallId, Call>, b: Bucket): set<Recipient> {
    set id | id in calls && calls[id].phase == Done(Allowed) && calls[id].added && BucketOf(calls[id].args) == b
      :: calls[id].args.recipient
  }

  /** Whoever a call has added is in the set, and no call of the bucket brought a larger cap. */
  predicate Recorded(s: State, b: Bucket, m: nat) {
    forall id | id in s.calls && BucketOf(s.calls[id].args) == b ::
      && s.calls[id].args.caps.distinctRecipientsPerDay <= m
      && (s.calls[id].added ==> s.calls[id].args.recipient in Seen(s.store, b))
  }

  lemma FirstTimersSeen(s: State, b: Bucket, m: nat)
    requires Recorded(s, b, m)
    ensures FirstTimers(s.calls, b) <= Seen(s.store, b)
  {
    hide Seen;
  }

  /** Advancing keeps the arguments, only ever adds to the set, and adds what it says it added. */
  lemma AdvanceSeen(s: Store, c: Call, b: Bucket)
    requires CallOk(c)
    ensures var (s', c') := Advance(s, c);
            && c'.args == c.args && Seen(s, b) <= Seen(s', b)
            && (c'.added && !c.added ==> c.args.recipient in Seen(s', BucketOf(c.args)))
            && (c'.phase == Done(Allowed) && c'.added && c != c' ==>
                  s' == s && |Seen(s, BucketOf(c.args))| <= c.args.caps.distinctRecipientsPerDay)
  {
    hide LimitOf, NameOf, Count, KeysBetween;
  }

  lemma NextRecorded(s: State, id: CallId, b: Bucket, m: nat)
    requires Recorded(s, b, m) && id in s.calls && CallOk(s.calls[id])
    ensures Recorded(Step(s, Next(id)), b, m)
  {
    hide Advance, CallOk, Seen, BucketOf;
    AdvanceSeen(s.store, s.calls[id], b);
  }

  lemma OtherFirstTimers(calls: map<CallId, Call>, id: CallId, c: Call, b: Bucket)
    requires c.phase == Done(Allowed) && c.added && BucketOf(c.args) == b ==> id in calls && calls[id] == c
    ensures |FirstTimers(calls[id := c], b)| <= |FirstTimers(calls, b)|
  {
    hide BucketOf;
    SubsetSize(FirstTimers(calls[id := c], b), FirstTimers(calls, b));
  }

  lemma NextFirstTimers(s: State, id: CallId, b: Bucket, m: nat)
    requires Recorded(s, b, m) && id in s.calls && CallOk(s.calls[id]) && |FirstTimers(s.calls, b)| <= m
    ensures |FirstTimers(Step(s, Next(id)).calls, b)| <= m
  {
    hide Advance, CallOk, Seen, FirstTimers, BucketOf, Recorded;
    var c, s' := s.calls[id], Step(s, Next(id));
    var (store, c') := Advance(s.store, c);
    AdvanceSeen(s.store, c, b);
    if c'.phase == Done(Allowed) && c'.added && c != c' && BucketOf(c.args) == b {
      CapOf(s, id, b, m);
      NextRecorded(s, id, b, m);
      FirstTimersSeen(s', b, m);
      SubsetSize(FirstTimers(s'.calls, b), Seen(store, b));
    } else {
      OtherFirstTimers(s.calls, id, c', b);
    }
  }

  lemma CapOf(s: State, id: CallId, b: Bucket, m: nat)
    requires Recorded(s, b, m) && id in s.calls && BucketOf(s.calls[id].args) == b
    ensures s.calls[id].args.caps.distinctRecipientsPerDay <= m
  {
    hide Seen, BucketOf;
  }

  predicate CapWithin(a: Args, b: Bucket, m: nat) {
    BucketOf(a) == b ==> a.caps.distinctRecipientsPerDay <= m
  }

  lemma QuietFirstTimers(s: State, e: Event, b: Bucket, m: nat)
    requires Recorded(s, b, m) && !e.Next? && (e.Start? ==> CapWithin(e.args, b, m))
    ensures Recorded(Step(s, e), b, m)
    ensures |FirstTimers(Step(s, e).calls, b)| <= |FirstTimers(s.calls, b)|
  {
    hide FirstTimers, Seen, BucketOf;
    if e.Start? {
      OtherFirstTimers(s.calls, e.id, Begin(e.args), b);
    } else if e.id in s.calls {
      var c := s.calls[e.id];
      OtherFirstTimers(s.calls, e.id, LoseUnit(c), b);
      OtherFirstTimers(s.calls, e.id, if c.phase.Done? then c else c.(phase := Crashed), b);
    }
  }

  predicate CapsWithin(es: seq<Event>, b: Bucket, m: nat) {
    forall i | 0 <= i < |es| :: es[i].Start? ==> CapWithin(es[i].args, b, m)
  }

  lemma {:induction false} RunFirstTimers(s: State, es: seq<Event>, b: Bucket, m: nat)
    requires Balanced(s) && Recorded(s, b, m) && |FirstTimers(s.calls, b)| <= m && CapsWithin(es, b, m)
    ensures Recorded(Run(s, es), b, m) && |FirstTimers(Run(s, es).calls, b)| <= m
  {
    hide Balanced, CapWithin, Recorded, FirstTimers, Step;
    if es != [] {
      var front, e := es[..|es| - 1], es[|es| - 1];
      RunFirstTimers(s, front, b, m);
      RunBalanced(s, front);
      if !e.Next? {
        QuietFirstTimers(Run(s, front), e, b, m);
      } else if e.id in Run(s, front).calls {
        BalancedCall(Run(s, front), e.id);
        NextRecorded(Run(s, front), e.id, b, m);
        NextFirstTimers(Run(s, front), e.id, b, m);
      } else {
        StepStays(Run(s, front), e);
      }
    }
  }

  /** What the distinct cap does bound: the recipients admitted at their first attempt of the day. */
  lemma FirstTimersWithinCap(es: seq<Event>, b: Bucket, m: nat)
    requires CapsWithin(es, b, m)
    ensures |FirstTimers(Run(EMPTY, es).calls, b)| <= m
  {
    hide Balanced, CapWithin, Run;
    EmptyBalanced();
    assert FirstTimers(EMPTY.calls, b) == {};
    RunFirstTimers(EMPTY, es, b, m);
  }

  // --- everyone who was admitted ---

  /** The recipients of the bucket that some call was told it may send to. */
  function AllowedRecipients(calls: map<CallId, Call>, b: Bucket): set<Recipient> {
    set id | id in calls && calls[id].phase == Done(Allowed) && BucketOf(calls[id].args) == b :: calls[id].args.recipient
  }

  /** The call put its recipient into the set and was not told it may send: refused, crashed, or not there yet. */
  predicate AddedInVain(c: Call) {
    c.added && c.phase != Done(Allowed)
  }

  predicate ForRecipient(c: Call, b: Bucket, r: Recipient) {
    BucketOf(c.args) == b && c.args.recipient == r
  }

  /** The recipients admitted by a later call although the call that added them was not. */
  function Bypassed(calls: map<CallId, Call>, b: Bucket): set<Recipient> {
    set id, j | id in calls && j in calls && calls[id].phase == Done(Allowed) && AddedInVain(calls[j])
      && BucketOf(calls[id].args) == b && ForRecipient(calls[j], b, calls[id].args.recipient)
      :: calls[id].args.recipient
  }

  /** Everyone in the set was added by a call. */
  predicate AddedBySome(s: State, b: Bucket) {
    forall r | r in Seen(s.store, b) :: exists id | id in s.calls :: s.calls[id].added && ForRecipient(s.calls[id], b, r)
  }

  /** And by one only. */
  predicate AddedOnce(calls: map<CallId, Call>, b: Bucket) {
    forall id, j | id in calls && j in calls && calls[id].added && calls[j].added
      && BucketOf(calls[id].args) == b && ForRecipient(calls[j], b, calls[id].args.recipient) :: id == j
  }

  /** Whoever was added or admitted is in the set. */
  predicate AdmittedSeen(s: State, b: Bucket) {
    forall id | id in s.calls && BucketOf(s.calls[id].args) == b && (s.calls[id].added || s.calls[id].phase == Done(Allowed)) ::
      s.calls[id].args.recipient in Seen(s.store, b)
  }

  predicate Attributed(s: State, b: Bucket) {
    AddedBySome(s, b) && AddedOnce(s.calls, b) && AdmittedSeen(s, b)
  }

  /** One call's step, as the recipient set of `b` sees it. */
  lemma AdvanceAdds(s: Store, c: Call, b: Bucket)
    requires CallOk(c)
    ensures var (s', c') := Advance(s, c);
            && c'.args == c.args
            && (c'.added != c.added ==> c'.added && c.args.recipient !in Seen(s, BucketOf(c.args)))
            && Seen(s', b) == (if c'.added != c.added && BucketOf(c.args) == b then Seen(s, b) + {c.args.recipient} else Seen(s, b))
  {
    hide LimitOf, NameOf, Count, KeysBetween;
  }

  /** What a step may do to one call, as far as the recipient set of `b` goes. */
  predicate Recipiently(s: Store, c: Call, s': Store, c': Call, b: Bucket) {
    && c'.args == c.args && (c.added ==> c'.added)
    && Seen(s', b) == (if c'.added != c.added && BucketOf(c.args) == b then Seen(s, b) + {c.args.recipient} else Seen(s, b))
    && (c'.added != c.added && BucketOf(c.args) == b ==> c.args.recipient !in Seen(s, b))
    && (c'.phase == Done(Allowed) && BucketOf(c.args) == b ==> c.args.recipient in Seen(s', b))
  }

  lemma UpdatedBySome(s: State, id: CallId, store: Store, c: Call, b: Bucket)
    requires id in s.calls && AddedBySome(s, b) && Recipiently(s.store, s.calls[id], store, c, b)
    ensures AddedBySome(State(store, s.calls[id := c]), b)
  {
    hide Seen, BucketOf;
    var t := State(store, s.calls[id := c]);
    forall r | r in Seen(t.store, b) ensures exists j | j in t.calls :: t.calls[j].added && ForRecipient(t.calls[j], b, r) {
      if r in Seen(s.store, b) {
        var j :| j in s.calls && s.calls[j].added && ForRecipient(s.calls[j], b, r);
        assert t.calls[j].added && ForRecipient(t.calls[j], b, r);
      } else {
        assert t.calls[id].added && ForRecipient(t.calls[id], b, r);
      }
    }
  }

  lemma UpdatedAttributed(s: State, id: CallId, store: Store, c: Call, b: Bucket)
    requires id in s.calls && Attributed(s, b) && Recipiently(s.store, s.calls[id], store, c, b)
    ensures Attributed(State(store, s.calls[id := c]), b)
  {
    hide Seen, BucketOf;
    UpdatedBySome(s, id, store, c, b);
  }

  /** Whoever a step admits is in the set by then. */
  lemma AdvanceAdmits(s: Store, c: Call, b: Bucket)
    requires CallOk(c)
    requires BucketOf(c.args) == b && (c.added || c.phase == Done(Allowed)) ==> c.args.recipient in Seen(s, b)
    ensures var (s', c') := Advance(s, c);
            c'.phase == Done(Allowed) && BucketOf(c.args) == b ==> c.args.recipient in Seen(s', b)
  {
    hide LimitOf, NameOf, Count, KeysBetween;
  }

  lemma NextRecipiently(s: State, id: CallId, b: Bucket)
    requires id in s.calls && CallOk(s.calls[id]) && AdmittedSeen(s, b)
    ensures var (store, c) := Advance(s.store, s.calls[id]); Recipiently(s.store, s.calls[id], store, c, b)
  {
    hide Seen, BucketOf, Advance, CallOk;
    AdvanceAdds(s.store, s.calls[id], b);
    AdvanceAdmits(s.store, s.calls[id], b);
  }

  lemma BegunAttributed(s: State, id: CallId, a: Args, b: Bucket)
    requires Attributed(s, b) && id !in s.calls
    ensures Attributed(s.(calls := s.calls[id := Begin(a)]), b)
  {
    hide Seen, BucketOf;
    var t := s.(calls := s.calls[id := Begin(a)]);
    forall r | r in Seen(t.store, b) ensures exists j | j in t.calls :: t.calls[j].added && ForRecipient(t.calls[j], b, r) {
      var j :| j in s.calls && s.calls[j].added && ForRecipient(s.calls[j], b, r);
      assert t.calls[j].added && ForRecipient(t.calls[j], b, r);
    }
  }

  /** A lost decrement or a crash admits and adds no one. */
  lemma QuietRecipiently(s: State, id: CallId, c: Call, b: Bucket)
    requires id in s.calls && AdmittedSeen(s, b) && c.args == s.calls[id].args && c.added == s.calls[id].added
    requires c.phase == Done(Allowed) ==> s.calls[id].phase == Done(Allowed)
    ensures Recipiently(s.store, s.calls[id], s.store, c, b)
  {
    hide Seen, BucketOf;
  }

  lemma StepAttributed(s: State, e: Event, b: Bucket)
    requires Balanced(s) && Attributed(s, b)
    ensures Attributed(Step(s, e), b)
  {
    hide Seen, BucketOf, CallOk, Advance, Balanced, AddedBySome, AddedOnce, AdmittedSeen, Recipiently, Begin, LoseUnit;
    if e.Start? {
      if e.id !in s.calls {
        BegunAttributed(s, e.id, e.args, b);
      }
    } else if e.id in s.calls {
      var c := s.calls[e.id];
      match e
      case Next(id) =>
        BalancedCall(s, id);
        NextRecipiently(s, id, b);
        UpdatedAttributed(s, id, Advance(s.store, c).0, Advance(s.store, c).1, b);
      case Lose(id) =>
        LoseKeeps(c);
        QuietRecipiently(s, id, LoseUnit(c), b);
        UpdatedAttributed(s, id, s.store, LoseUnit(c), b);
      case Crash(id) =>
        var d := if c.phase.Done? then c else c.(phase := Crashed);
        QuietRecipiently(s, id, d, b);
        UpdatedAttributed(s, id, s.store, d, b);
    }
  }

  lemma LoseKeeps(c: Call)
    ensures LoseUnit(c).args == c.args && LoseUnit(c).added == c.added
    ensures LoseUnit(c).phase == Done(Allowed) ==> c.phase == Done(Allowed)
  {
  }

  lemma {:induction false} RunAttributed(es: seq<Event>, b: Bucket)
    ensures Balanced(Run(EMPTY, es)) && Attributed(Run(EMPTY, es), b)
    decreases |es|
  {
    hide Balanced, Attributed, Step;
    EmptyBalanced();
    RunBalanced(EMPTY, es);
    if es == [] {
      EmptyAttributed(b);
    } else {
      RunAttributed(es[..|es| - 1], b);
      StepAttributed(Run(EMPTY, es[..|es| - 1]), es[|es| - 1], b);
    }
  }

  lemma EmptyAttributed(b: Bucket)
    ensures Attributed(EMPTY, b)
  {
  }

  // --- how many were admitted ---

  lemma AdmittedAre(s: State, b: Bucket)
    requires Attributed(s, b)
    ensures AllowedRecipients(s.calls, b) == FirstTimers(s.calls, b) + Bypassed(s.calls, b)
    ensures FirstTimers(s.calls, b) !! Bypassed(s.calls, b)
  {
    hide Seen, BucketOf;
    var first, late := FirstTimers(s.calls, b), Bypassed(s.calls, b);
    forall r | r in AllowedRecipients(s.calls, b) ensures r in first + late {
      var id :| id in s.calls && s.calls[id].phase == Done(Allowed) && ForRecipient(s.calls[id], b, r);
      assert r in Seen(s.store, b);
      var j :| j in s.calls && s.calls[j].added && ForRecipient(s.calls[j], b, r);
      if s.calls[j].phase != Done(Allowed) {
        assert AddedInVain(s.calls[j]);
      }
    }
    forall r | r in first ensures r !in late {
      var id :| id in s.calls && s.calls[id].phase == Done(Allowed) && s.calls[id].added && ForRecipient(s.calls[id], b, r);
      forall j | j in s.calls && AddedInVain(s.calls[j]) ensures !ForRecipient(s.calls[j], b, r) {
      }
    }
  }

  /**
   * In every run the recipients admitted number exactly those admitted at their first attempt, which the
   * cap bounds, and those a later call got in after the call that added them was turned away.
   */
  lemma AdmittedCount(es: seq<Event>, b: Bucket, m: nat)
    requires CapsWithin(es, b, m)
    ensures var calls := Run(EMPTY, es).calls;
            && |AllowedRecipients(calls, b)| == |FirstTimers(calls, b)| + |Bypassed(calls, b)|
            && |FirstTimers(calls, b)| <= m
  {
    hide Run, CapsWithin, FirstTimers, Bypassed, AllowedRecipients, Attributed, Balanced;
    RunAttributed(es, b);
    AdmittedAre(Run(EMPTY, es), b);
    FirstTimersWithinCap(es, b, m);
  }

  // --- when the cap bounds them all ---

  /** The call is over and did not add its recipient in vain. */
  predicate Settled(c: Call) {
    (c.phase.Done? || c.phase.Crashed?) && !AddedInVain(c)
  }

  /** Calls for one recipient of the bucket do not overlap, and none was admitted beside one that added it in vain. */
  predicate Serial(calls: map<CallId, Call>, b: Bucket) {
    forall id, j | id in calls && j in calls && id != j
      && BucketOf(calls[id].args) == b && ForRecipient(calls[j], b, calls[id].args.recipient) ::
      && (Settled(calls[id]) || Settled(calls[j]))
      && !(calls[id].phase == Done(Allowed) && AddedInVain(calls[j]))
  }

  /** A call starts only once every earlier one for its recipient has settled. */
  predicate StartsAfter(s: State, e: Event, b: Bucket) {
    e.Start? && e.id !in s.calls && BucketOf(e.args) == b ==>
      forall j | j in s.calls && ForRecipient(s.calls[j], b, e.args.recipient) :: Settled(s.calls[j])
  }

  predicate SerialStarts(es: seq<Event>, b: Bucket) {
    forall i | 0 <= i < |es| :: StartsAfter(Run(EMPTY, es[..i]), es[i], b)
  }

  lemma UpdatedSerial(s: State, id: CallId, store: Store, c: Call, b: Bucket)
    requires id in s.calls && Serial(s.calls, b) && AdmittedSeen(s, b) && Recipiently(s.store, s.calls[id], store, c, b)
    requires Settled(s.calls[id]) ==> c == s.calls[id]
    ensures Serial(s.calls[id := c], b)
  {
    hide Seen, BucketOf;
  }

  lemma SettledStays(s: Store, c: Call)
    requires Settled(c)
    ensures Advance(s, c).1 == c && LoseUnit(c) == c && (!c.phase.Done? ==> c.(phase := Crashed) == c)
  {
  }

  lemma StepSerial(s: State, e: Event, b: Bucket)
    requires Balanced(s) && AdmittedSeen(s, b) && Serial(s.calls, b) && StartsAfter(s, e, b)
    ensures Serial(Step(s, e).calls, b)
  {
    if e.Start? {
      hide Seen, BucketOf, Balanced;
    } else if e.id in s.calls {
      hide Seen, BucketOf, CallOk, Advance, Balanced, AdmittedSeen, Recipiently, Serial, Settled, LoseUnit, StartsAfter;
      var c := s.calls[e.id];
      if Settled(c) {
        SettledStays(s.store, c);
      }
      match e
      case Next(id) =>
        BalancedCall(s, id);
        NextRecipiently(s, id, b);
        UpdatedSerial(s, id, Advance(s.store, c).0, Advance(s.store, c).1, b);
      case Lose(id) =>
        LoseKeeps(c);
        QuietRecipiently(s, id, LoseUnit(c), b);
        UpdatedSerial(s, id, s.store, LoseUnit(c), b);
      case Crash(id) =>
        var d := if c.phase.Done? then c else c.(phase := Crashed);
        QuietRecipiently(s, id, d, b);
        UpdatedSerial(s, id, s.store, d, b);
    }
  }

  lemma {:induction false} RunSerial(es: seq<Event>, b: Bucket)
    requires SerialStarts(es, b)
    ensures Serial(Run(EMPTY, es).calls, b)
    decreases |es|
  {
    hide Balanced, AddedBySome, AddedOnce, AdmittedSeen, Serial, Step, StartsAfter;
    if es == [] {
      EmptySerial(b);
    } else {
      var front := es[..|es| - 1];
      assert forall i | 0 <= i < |front| :: front[..i] == es[..i];
      RunSerial(front, b);
      RunAttributed(front, b);
      StepSerial(Run(EMPTY, front), es[|es| - 1], b);
    }
  }

  lemma EmptySerial(b: Bucket)
    ensures Serial(EMPTY.calls, b)
  {
  }

  /**
   * Where calls for one recipient follow one another, and none starts after one that was refused or cut off
   * once it had added the recipient, everyone admitted in the day is within the cap.
   */
  lemma AllowedWithinDistinctCap(es: seq<Event>, b: Bucket, m: nat)
    requires CapsWithin(es, b, m) && SerialStarts(es, b)
    ensures |AllowedRecipients(Run(EMPTY, es).calls, b)| <= m
  {
    hide Run, CapsWithin, FirstTimers, AllowedRecipients, SerialStarts, Settled;
    RunSerial(es, b);
    AdmittedCount(es, b, m);
    NoneBypassed(Run(EMPTY, es).calls, b);
  }

  lemma NoneBypassed(calls: map<CallId, Call>, b: Bucket)
    requires Serial(calls, b)
    ensures Bypassed(calls, b) == {}
  {
    hide BucketOf, Settled;
  }

  // --- runs that pass the cap ---

  lemma {:induction false} RunAppend(s: State, xs: seq<Event>, ys: seq<Event>)
    ensures Run(s, xs + ys) == Run(Run(s, xs), ys)
    decreases |ys|
  {
    hide Step;
    if ys == [] {
      assert xs + ys == xs;
    } else {
      var front := ys[..|ys| - 1];
      assert (xs + ys)[..|xs + ys| - 1] == xs + front;
      RunAppend(s, xs, front);
    }
  }

  lemma RunOne(s: State, e: Event)
    ensures Run(s, [e]) == Step(s, e)
  {
    hide Step;
    assert Run(s, [e][..0]) == s;
  }

  /** A begun call can be run to its end with no one in between. */
  lemma {:induction false} FinishRuns(s: State, id: CallId) returns (es: seq<Event>)
    requires id in s.calls && CallOk(s.calls[id])
    ensures Run(s, es) == State(Finish(s.store, s.calls[id]).0, s.calls[id := Finish(s.store, s.calls[id]).1])
    ensures forall i | 0 <= i < |es| :: es[i].Next?
    decreases Left(s.calls[id].phase)
  {
    hide CallOk, Advance, Left, Run;
    var c := s.calls[id];
    if c.phase.Done? || c.phase.Crashed? {
      es := [];
      RunNone(s);
      assert s.calls[id := c] == s.calls;
    } else {
      FinishStep(s.store, c);
      var (store, c') := Advance(s.store, c);
      var t := State(store, s.calls[id := c']);
      hide Finish;
      var rest := FinishRuns(t, id);
      es := [Next(id)] + rest;
      RunAppend(s, [Next(id)], rest);
      RunOne(s, Next(id));
      var d := Finish(store, c').1;
      assert t.calls[id := d] == s.calls[id := d];
    }
  }

  lemma RunNone(s: State)
    ensures Run(s, []) == s
  {
  }

  /** Only `a` starts in these events. */
  predicate OnlyStarts(es: seq<Event>, a: Args) {
    forall i | 0 <= i < |es| :: es[i].Next? || (es[i].Start? && es[i].args == a)
  }

  /** One more call, made once every other has stopped moving: it ends with the answer of a call alone. */
  lemma Attempt(s: State, id: CallId, a: Args) returns (es: seq<Event>)
    requires id !in s.calls
    ensures var t := Run(s, es);
            && t.calls.Keys == s.calls.Keys + {id} && (forall j | j in s.calls :: t.calls[j] == s.calls[j])
            && t.calls[id].phase == Done(Answer(s.store, a)) && t.calls[id].args == a
            && (forall b :: Seen(t.store, b) == SeenAfter(s.store, a, b))
            && (forall k :: Count(t.store, k)
                  == Count(s.store, k) + (if Answer(s.store, a) == Allowed && k in Keys(a) then 1 else 0))
    ensures OnlyStarts(es, a)
  {
    hide Run, Finish, Answer, SeenAfter, Seen, Count, Keys, CallOk, Advance, Begin;
    var begun := s.(calls := s.calls[id := Begin(a)]);
    BeginOk(a);
    BeginLost(a);
    var rest := FinishRuns(begun, id);
    es := [Start(id, a)] + rest;
    RunAppend(s, [Start(id, a)], rest);
    RunOne(s, Start(id, a));
    AloneIsAnswer(s.store, a);
    forall k ensures Count(Run(s, es).store, k)
        == Count(s.store, k) + (if Answer(s.store, a) == Allowed && k in Keys(a) then 1 else 0) {
      AloneCounts(s.store, a, k);
      FinishConserves(s.store, Begin(a), k);
    }
    FinishConserves(s.store, Begin(a), Keys(a)[0]);
  }

  /** The arguments of the witnesses: one project and day, roomy counters, and a cap on distinct recipients. */
  function Sending(r: Recipient, cap: nat): Args {
    Args("shop", r, Caps(9, 9, cap, 9, 9), false, false, "noon", "monday")
  }

  const MONDAY := Bucket("shop", "monday")

  ghost predicate FewCounted(s: Store, n: int) {
    forall k :: Count(s, k) <= n
  }

  lemma RoomyAnswer(s: Store, r: Recipient, cap: nat)
    requires FewCounted(s, 8)
    ensures Answer(s, Sending(r, cap)) == (
      if r in Seen(s, MONDAY) || |Seen(s, MONDAY)| < cap then Allowed else Limited(DistinctRecipientsPerDay))
    ensures SeenAfter(s, Sending(r, cap), MONDAY) == Seen(s, MONDAY) + {r}
  {
    hide Count, Seen, Keys;
    FirstOverIs(s, Sending(r, cap), 0);
    assert |Seen(s, MONDAY) + {r}| == |Seen(s, MONDAY)| + if r in Seen(s, MONDAY) then 0 else 1 by {
      assert r in Seen(s, MONDAY) ==> Seen(s, MONDAY) + {r} == Seen(s, MONDAY);
    }
  }

  lemma Trial(s: State, id: CallId, r: Recipient, cap: nat, n: nat) returns (es: seq<Event>)
    requires id !in s.calls && n <= 8 && FewCounted(s.store, n)
    ensures var t := Run(s, es);
            && t.calls.Keys == s.calls.Keys + {id} && (forall j | j in s.calls :: t.calls[j] == s.calls[j])
            && t.calls[id].args == Sending(r, cap)
            && t.calls[id].phase == Done(
                 if r in Seen(s.store, MONDAY) || |Seen(s.store, MONDAY)| < cap then Allowed
                 else Limited(DistinctRecipientsPerDay))
            && FewCounted(t.store, n + 1) && Seen(t.store, MONDAY) == Seen(s.store, MONDAY) + {r}
    ensures OnlyStarts(es, Sending(r, cap))
  {
    hide Run, Answer, SeenAfter, Seen, Count, Keys, Sending;
    es := Attempt(s, id, Sending(r, cap));
    RoomyAnswer(s.store, r, cap);
  }

  lemma OnlyWithin(es: seq<Event>, r: Recipient, cap: nat)
    requires OnlyStarts(es, Sending(r, cap))
    ensures CapsWithin(es, MONDAY, cap)
  {
  }

  /**
   * With a cap of one recipient, two are admitted: the second is refused, is in the set all the same,
   * and is let through when it is tried again.
   */
  lemma RetryPassesTheCap() returns (es: seq<Event>)
    ensures CapsWithin(es, MONDAY, 1)
    ensures var calls := Run(EMPTY, es).calls;
            && calls.Keys == {0, 1, 2}
            && calls[0].phase == Done(Allowed) && calls[0].args == Sending("ann", 1)
            && calls[1].phase == Done(Limited(DistinctRecipientsPerDay)) && calls[1].args == Sending("bob", 1)
            && calls[2].phase == Done(Allowed) && calls[2].args == Sending("bob", 1)
    ensures AllowedRecipients(Run(EMPTY, es).calls, MONDAY) == {"ann", "bob"}
    ensures |AllowedRecipients(Run(EMPTY, es).calls, MONDAY)| == 2
  {
    hide *;
    EmptyStore();
    assert "ann" != "bob";
    var one := Trial(EMPTY, 0, "ann", 1, 0);
    var s1 := Run(EMPTY, one);
    assert Seen(s1.store, MONDAY) == {"ann"};
    var two := Trial(s1, 1, "bob", 1, 1);
    var s2 := Run(s1, two);
    assert Seen(s2.store, MONDAY) == {"ann", "bob"};
    var three := Trial(s2, 2, "bob", 1, 2);
    RunAppend(EMPTY, one, two);
    RunAppend(EMPTY, one + two, three);
    es := one + two + three;
    OnlyWithin(one, "ann", 1);
    OnlyWithin(two, "bob", 1);
    OnlyWithin(three, "bob", 1);
    WithinAppend(one, two, 1);
    WithinAppend(one + two, three, 1);
    AllowedAre(Run(EMPTY, es).calls);
  }

  lemma WithinAppend(xs: seq<Event>, ys: seq<Event>, m: nat)
    requires CapsWithin(xs, MONDAY, m) && CapsWithin(ys, MONDAY, m)
    ensures CapsWithin(xs + ys, MONDAY, m)
  {
    hide CapWithin;
  }

  lemma AllowedAre(calls: map<CallId, Call>)
    requires calls.Keys == {0, 1, 2} && calls[0].args == Sending("ann", 1)
    requires calls[1].args == calls[2].args == Sending("bob", 1)
    requires calls[0].phase == calls[2].phase == Done(Allowed) && calls[1].phase == Done(Limited(DistinctRecipientsPerDay))
    ensures AllowedRecipients(calls, MONDAY) == {"ann", "bob"}
  {
    assert 0 in calls && 2 in calls;
  }

  lemma EmptyStore()
    ensures FewCounted(EMPTY.store, 0) && Seen(EMPTY.store, MONDAY) == {} && EMPTY.calls.Keys == {}
  {
  }

  lemma SendingMonday(r: Recipient, cap: nat)
    ensures BucketOf(Sending(r, cap)) == MONDAY && Sending(r, cap).recipient == r && CapWithin(Sending(r, cap), MONDAY, cap)
  {
  }

  /**
   * Waiting for refusals is not enough if two calls overlap: both of these start before either adds the
   * recipient, and under a cap of none the second is admitted.
   */
  lemma OverlapPassesTheCap() returns (es: seq<Event>)
    ensures CapsWithin(es, MONDAY, 0)
    ensures 2 <= |es| && es[0].Start? && es[1].Start? && forall i | 2 <= i < |es| :: es[i].Next?
    ensures AllowedRecipients(Run(EMPTY, es).calls, MONDAY) == {"ann"}
  {
    hide *;
    var a := Sending("ann", 0);
    var s0 := State(EMPTY.store, map[0 := Begin(a), 1 := Begin(a)]);
    var first, second := OverlapEnds(a, s0);
    es := [Start(0, a), Start(1, a)] + (first + second);
    StartBoth(a);
    RunAppend(s0, first, second);
    RunAppend(EMPTY, [Start(0, a), Start(1, a)], first + second);
    SendingMonday("ann", 0);
    BothOnly(es, a);
    OnlyWithin(es, "ann", 0);
    OneAdmitted(Run(EMPTY, es).calls, a);
  }

  lemma StartBoth(a: Args)
    ensures Run(EMPTY, [Start(0, a), Start(1, a)]) == State(EMPTY.store, map[0 := Begin(a), 1 := Begin(a)])
  {
    hide Begin, Run;
    RunOne(EMPTY, Start(0, a));
    RunOne(Run(EMPTY, [Start(0, a)]), Start(1, a));
    RunAppend(EMPTY, [Start(0, a)], [Start(1, a)]);
    assert [Start(0, a)] + [Start(1, a)] == [Start(0, a), Start(1, a)];
  }

  lemma BothOnly(es: seq<Event>, a: Args)
    requires 2 <= |es| && es[0] == Start(0, a) && es[1] == Start(1, a) && forall i | 2 <= i < |es| :: es[i].Next?
    ensures OnlyStarts(es, a)
  {
  }

  lemma OneAdmitted(calls: map<CallId, Call>, a: Args)
    requires a.recipient == "ann" && BucketOf(a) == MONDAY && calls.Keys == {0, 1}
    requires calls[0].args == calls[1].args == a && calls[1].phase == Done(Allowed)
    ensures AllowedRecipients(calls, MONDAY) == {"ann"}
  {
    assert 1 in calls;
  }

  /** The first of two begun calls is refused by a cap of none; the second then finds the recipient and passes. */
  lemma OverlapEnds(a: Args, s0: State) returns (first: seq<Event>, second: seq<Event>)
    requires a == Sending("ann", 0) && s0 == State(EMPTY.store, map[0 := Begin(a), 1 := Begin(a)])
    ensures var calls := Run(Run(s0, first), second).calls;
            calls.Keys == {0, 1} && calls[0].args == calls[1].args == a && calls[1].phase == Done(Allowed)
    ensures forall i | 0 <= i < |first| :: first[i].Next?
    ensures forall i | 0 <= i < |second| :: second[i].Next?
  {
    hide Run, Answer, SeenAfter, Seen, Count, Keys, Sending, Finish, CallOk, Begin, Advance;
    EmptyStore();
    BeginOk(a);
    BeginLost(a);
    first := FinishRuns(s0, 0);
    RoomyAnswer(EMPTY.store, "ann", 0);
    SecondAttemptPasses(EMPTY.store, a);
    FinishConserves(EMPTY.store, Begin(a), Keys(a)[0]);
    var s1 := Run(s0, first);
    second := FinishRuns(s1, 1);
    AloneIsAnswer(s1.store, a);
    FinishConserves(s1.store, Begin(a), Keys(a)[0]);
  }
}
