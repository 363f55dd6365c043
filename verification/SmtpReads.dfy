/**
 * Reads and replies over a whole conversation of packages/email/src/smtp.ts: callers ask at any time, give up
 * when their timer fires, and the stream arrives in any pieces and may break.
 */
module SmtpReads {
  import opened Text
  import opened Smtp

  datatype Event = Chunk(text: string) | Ask | TimeOut(read: Waiter) | Break

  /** `late`: the reads whose timer fired while they were in the queue, where they stay. */
  datatype Talk = Talk(session: Session, asked: nat, late: set<Waiter>)

  const SILENCE := Talk(FRESH, 0, {})

  function Step(t: Talk, e: Event): Talk {
    match e
    case Chunk(text) => t.(session := OnData(t.session, text))
    case Ask => t.(session := Awaited(t.session, t.asked), asked := t.asked + 1)
    case TimeOut(read) => if read in t.session.waiters then t.(late := t.late + {read}) else t
    case Break => t.(session := Broken(t.session))
  }

  function Run(es: seq<Event>): Talk {
    if es == [] then SILENCE else Step(Run(es[..|es| - 1]), es[|es| - 1])
  }

  // --- every read is accounted for ---

  function Readers(rs: seq<Resolved>): (r: seq<Waiter>)
    ensures |r| == |rs|
  {
    seq(|rs|, i requires 0 <= i < |rs| => rs[i].waiter)
  }

  function Upto(n: nat): (r: seq<Waiter>)
    ensures |r| == n
  {
    seq(n, i requires 0 <= i < n => i)
  }

  /** Reads are answered in the order they were made, then turned away, or still wait. */
  predicate Orderly(t: Talk) {
    && Readers(t.session.resolved) + t.session.rejected + t.session.waiters == Upto(t.asked)
    && (if t.session.failed then t.session.waiters == [] else t.session.rejected == [])
  }

  lemma DeliverOrderly(s: Session, r: Reply)
    requires if s.failed then s.waiters == [] else s.rejected == []
    ensures var t := Deliver(s, r);
            && t.failed == s.failed && t.rejected == s.rejected && (s.failed ==> t.waiters == [])
            && Readers(t.resolved) + t.rejected + t.waiters == Readers(s.resolved) + s.rejected + s.waiters
  {
    if s.waiters != [] {
      var t := Deliver(s, r);
      assert Readers(t.resolved) == Readers(s.resolved) + [s.waiters[0]];
      assert s.waiters == [s.waiters[0]] + t.waiters && t.rejected == [];
    }
  }

  lemma {:induction false} DeliverAllOrderly(s: Session, rs: seq<Reply>)
    requires if s.failed then s.waiters == [] else s.rejected == []
    ensures var t := DeliverAll(s, rs);
            && t.failed == s.failed && t.rejected == s.rejected && (s.failed ==> t.waiters == [])
            && Readers(t.resolved) + t.rejected + t.waiters == Readers(s.resolved) + s.rejected + s.waiters
  {
    hide Deliver, Readers;
    if rs != [] {
      DeliverAllOrderly(s, rs[..|rs| - 1]);
      DeliverOrderly(DeliverAll(s, rs[..|rs| - 1]), rs[|rs| - 1]);
    }
  }

  lemma StepOrderly(t: Talk, e: Event)
    requires Orderly(t)
    ensures Orderly(Step(t, e))
  {
    hide Drain, DeliverAll;
    var s := t.session;
    match e
    case Chunk(text) => DeliverAllOrderly(s, Drain(s.buffer + text).replies);
    case Ask => assert Upto(t.asked + 1) == Upto(t.asked) + [t.asked];
    case TimeOut(_) =>
    case Break =>
  }

  lemma {:induction false} RunOrderly(es: seq<Event>)
    ensures Orderly(Run(es))
  {
    hide Orderly, Step;
    if es == [] {
      SilenceOrderly();
    } else {
      RunOrderly(es[..|es| - 1]);
      StepOrderly(Run(es[..|es| - 1]), es[|es| - 1]);
    }
  }

  lemma SilenceOrderly()
    ensures Orderly(SILENCE)
  {
  }

  // --- and so is every reply ---

  /** All that has arrived. */
  function Stream(es: seq<Event>): string {
    if es == [] then ""
    else
      var e := es[|es| - 1];
      Stream(es[..|es| - 1]) + (if e.Chunk? then e.text else "")
  }

  function Replies(es: seq<Event>): seq<Reply> {
    Drain(Stream(es)).replies
  }

  /** Every reply went to a read or was dropped, and while none was dropped the reply of each number went to that read. */
  predicate Told(s: Session, rs: seq<Reply>) {
    && |s.resolved| + |s.dropped| == |rs|
    && (s.dropped == [] ==> forall i | 0 <= i < |s.resolved| :: s.resolved[i].reply == rs[i])
  }

  lemma DeliverTold(s: Session, rs: seq<Reply>, r: Reply)
    requires Told(s, rs)
    ensures Told(Deliver(s, r), rs + [r])
  {
  }

  lemma {:induction false} DeliverAllTold(s: Session, rs: seq<Reply>, more: seq<Reply>)
    requires Told(s, rs)
    ensures Told(DeliverAll(s, more), rs + more)
  {
    hide Deliver, Told;
    if more == [] {
      assert rs + more == rs;
    } else {
      var n := |more| - 1;
      DeliverAllTold(s, rs, more[..n]);
      DeliverTold(DeliverAll(s, more[..n]), rs + more[..n], more[n]);
      assert rs + more == rs + more[..n] + [more[n]];
    }
  }

  /** In every run the buffer is what the stream leaves unread, and the replies are those of the stream. */
  lemma {:induction false} RunTold(es: seq<Event>)
    ensures Run(es).session.buffer == Drain(Stream(es)).rest && Told(Run(es).session, Replies(es))
  {
    hide Drain, DeliverAll, Told;
    if es == [] {
      NothingIsDry();
      SilenceTold();
    } else {
      var front, e := es[..|es| - 1], es[|es| - 1];
      RunTold(front);
      var s := Run(front).session;
      if e.Chunk? {
        DrainAppend(Stream(front), e.text);
        var more := Drain(s.buffer + e.text).replies;
        DeliverAllTold(s, Replies(front), more);
        SameTold(DeliverAll(s, more), OnData(s, e.text), Replies(es));
      } else {
        assert Stream(front) + "" == Stream(front);
        SameTold(s, Run(es).session, Replies(es));
      }
    }
  }

  lemma SameTold(s: Session, t: Session, rs: seq<Reply>)
    requires Told(s, rs) && t.resolved == s.resolved && t.dropped == s.dropped
    ensures Told(t, rs)
  {
  }

  lemma SilenceTold()
    ensures Told(FRESH, [])
  {
  }

  // --- what a caller is told ---

  datatype Outcome = Answer(reply: Reply) | TimedOut | Rejected | Waiting

  /** What the promise of read `k` came to: its timer, its reply or the failure, whichever was first. */
  function OutcomeOf(t: Talk, k: Waiter): Outcome {
    if k in t.late then TimedOut
    else if k < |t.session.resolved| then Answer(t.session.resolved[k].reply)
    else if k in t.session.rejected then Rejected
    else Waiting
  }

  /**
   * While no reply has been dropped, the read of each number is told the reply of that number, however the
   * stream was cut up and whenever the reads were made. A read that timed out is the only exception, and as
   * it keeps its place in the queue it takes its own reply with it and shifts no one else's.
   */
  lemma ReadsGetTheirReplies(es: seq<Event>, k: nat)
    requires Run(es).session.dropped == [] && k < |Replies(es)|
    ensures k < Run(es).asked && |Run(es).session.resolved| == |Replies(es)|
    ensures Run(es).session.resolved[k] == Resolved(k, Replies(es)[k])
    ensures OutcomeOf(Run(es), k) == if k in Run(es).late then TimedOut else Answer(Replies(es)[k])
  {
    hide Run, Replies;
    RunTold(es);
    RunOrderly(es);
    ToldSize(Run(es).session, Replies(es));
    ReaderAt(Run(es), k);
  }

  lemma ReaderAt(t: Talk, k: nat)
    requires Orderly(t) && k < |t.session.resolved|
    ensures k < t.asked && t.session.resolved[k].waiter == k
  {
    var all := Readers(t.session.resolved) + t.session.rejected + t.session.waiters;
    assert all[k] == Readers(t.session.resolved)[k] && Upto(t.asked)[k] == k;
  }

  // --- when a reply is dropped ---

  predicate HasBreak(es: seq<Event>) {
    exists e | e in es :: e.Break?
  }

  function Asks(es: seq<Event>): nat {
    if es == [] then 0 else Asks(es[..|es| - 1]) + if es[|es| - 1].Ask? then 1 else 0
  }

  /** Before each chunk enough reads were made for the replies it completes, and it completes none after a failure. */
  predicate AskedInTime(es: seq<Event>) {
    forall n | 0 < n <= |es| :: InTime(es[..n])
  }

  /** The last event keeps to that. */
  predicate InTime(es: seq<Event>)
    requires es != []
  {
    |Replies(es)| <= if HasBreak(es) then |Replies(es[..|es| - 1])| else Asks(es)
  }

  lemma {:induction false} RunCounts(es: seq<Event>)
    ensures Run(es).asked == Asks(es) && Run(es).session.failed == HasBreak(es)
  {
    hide Drain;
    if es != [] {
      var front := es[..|es| - 1];
      RunCounts(front);
      assert es == front + [es[|es| - 1]];
      var s := Run(front).session;
      if es[|es| - 1].Chunk? {
        DataKeeps(s, es[|es| - 1].text);
      }
    }
  }

  lemma DataKeeps(s: Session, text: string)
    ensures OnData(s, text).failed == s.failed
  {
    KeepsFailed(s, Drain(s.buffer + text).replies);
  }

  lemma {:induction false} KeepsFailed(s: Session, rs: seq<Reply>)
    ensures DeliverAll(s, rs).failed == s.failed
  {
    if rs != [] {
      KeepsFailed(s, rs[..|rs| - 1]);
    }
  }

  lemma ChunkDrops(t: Talk, rs: seq<Reply>, text: string)
    requires Orderly(t) && t.session.dropped == [] && |t.session.resolved| == |rs|
    ensures var more := Drain(t.session.buffer + text).replies;
            OnData(t.session, text).dropped == [] <==> |rs + more| <= if t.session.failed then |rs| else t.asked
  {
    hide Drain;
    DroppedIff(t.session, text);
    var more := Drain(t.session.buffer + text).replies;
    assert |rs + more| == |rs| + |more|;
    assert |t.session.resolved| + |t.session.rejected| + |t.session.waiters| == |Readers(t.session.resolved) + t.session.rejected + t.session.waiters| == t.asked;
  }

  lemma {:induction false} DropsStay(s: Session, rs: seq<Reply>)
    requires s.dropped != []
    ensures DeliverAll(s, rs).dropped != []
  {
    if rs != [] {
      DropsStay(s, rs[..|rs| - 1]);
    }
  }

  lemma ToldSize(s: Session, rs: seq<Reply>)
    requires Told(s, rs) && s.dropped == []
    ensures |s.resolved| == |rs|
  {
  }

  lemma AskedSize(t: Talk)
    requires Orderly(t) && !t.session.failed
    ensures |t.session.resolved| <= t.asked
  {
    assert |Readers(t.session.resolved) + t.session.rejected + t.session.waiters| == t.asked;
  }

  /** One more event: nothing has been dropped exactly when nothing had been and it keeps in time. */
  lemma StepDrops(es: seq<Event>)
    requires es != []
    ensures Run(es).session.dropped == [] <==> Run(es[..|es| - 1]).session.dropped == [] && InTime(es)
  {
    hide Drain, DeliverAll, Orderly, Told;
    var front, e := es[..|es| - 1], es[|es| - 1];
    var t := Run(front);
    RunTold(front);
    RunOrderly(front);
    RunCounts(front);
    RunCounts(es);
    if t.session.dropped == [] {
      ToldSize(t.session, Replies(front));
      if e.Chunk? {
        DrainAppend(Stream(front), e.text);
        ChunkDrops(t, Replies(front), e.text);
      } else {
        assert Stream(front) + "" == Stream(front);
        if !t.session.failed {
          AskedSize(t);
        }
      }
    } else if e.Chunk? {
      DropsStay(t.session, Drain(t.session.buffer + e.text).replies);
    }
  }

  /** No reply of a conversation is lost exactly when the reads keep ahead of the replies. */
  lemma {:induction false} NothingDroppedIff(es: seq<Event>)
    ensures Run(es).session.dropped == [] <==> AskedInTime(es)
  {
    hide Run, InTime;
    if es == [] {
      NothingYet();
    } else {
      var front := es[..|es| - 1];
      NothingDroppedIff(front);
      StepDrops(es);
      assert forall n | 0 < n <= |front| :: front[..n] == es[..n];
      assert es[..|es|] == es;
    }
  }

  lemma NothingYet()
    ensures Run([]) == SILENCE
  {
  }

  /** A reply that comes before anyone asks is lost, and the next one is told to the read it was not meant for. */
  lemma EarlyReplyShifts(m: Message, n: Message)
    requires WellFormed(m.code, m.lines) && WellFormed(n.code, n.lines)
    ensures var t := Run([Chunk(Serialise(m.code, m.lines)), Ask, Chunk(Serialise(n.code, n.lines))]);
            && t.session.dropped == [ReplyTo(m)]
            && OutcomeOf(t, 0) == Answer(ReplyTo(n))
  {
    hide Drain, Serialise, Join;
    var x, y := Chunk(Serialise(m.code, m.lines)), Chunk(Serialise(n.code, n.lines));
    OneReply(m);
    OneReply(n);
    assert "" + x.text == x.text && "" + y.text == y.text;
    NothingYet();
    RunOn([], x);
    RunOn([x], Ask);
    RunOn([x, Ask], y);
    assert [] + [x] == [x] && [x] + [Ask] == [x, Ask] && [x, Ask] + [y] == [x, Ask, y];
    DeliverTwo(FRESH, ReplyTo(m));
    assert Run([x]) == Talk(FRESH.(dropped := [ReplyTo(m)]), 0, {});
    DeliverTwo(Run([x, Ask]).session, ReplyTo(n));
  }

  lemma RunOn(es: seq<Event>, e: Event)
    ensures Run(es + [e]) == Step(Run(es), e)
  {
    hide Step;
    assert (es + [e])[..|es|] == es;
  }

  /** The reply that a message is read as. */
  function ReplyTo(m: Message): Reply {
    Reply(m.code, Join(m.lines, "\n"))
  }

  lemma OneReply(m: Message)
    requires WellFormed(m.code, m.lines)
    ensures Drain(Serialise(m.code, m.lines)) == Drained([ReplyTo(m)], "")
  {
    hide TakeLines, Serialise, Join;
    ReplyRoundTrip(m.code, m.lines, "");
    NothingIsDry();
    assert Serialise(m.code, m.lines) + "" == Serialise(m.code, m.lines);
  }

  lemma DeliverTwo(s: Session, r: Reply)
    ensures DeliverAll(s, [r]) == Deliver(s, r)
  {
    assert [r][..0] == [];
  }

  /** A greeting that nobody waits for yet. */
  lemma EarlyGreetingIsDropped()
    ensures OnData(FRESH, "220 hi\r\n").dropped == [Reply("220", "hi")]
  {
    hide Drain, WellFormed, Serialise;
    var m := Message("220", ["hi"]);
    GreetingIs(m);
    OneReply(m);
    assert "" + "220 hi\r\n" == "220 hi\r\n";
    DeliverTwo(FRESH, ReplyTo(m));
  }

  lemma GreetingIs(m: Message)
    requires m == Message("220", ["hi"])
    ensures WellFormed(m.code, m.lines) && Serialise(m.code, m.lines) == "220 hi\r\n"
  {
  }
}
