/** The five caps one by one: which counter each is compared with, over all runs and for one call alone. */
module SendLimits {
  import opened Text
  import opened Sets
  import opened SendGate
  import opened SendCaps
  import opened SendSolo

  // --- one call alone ---

  predicate RecipientHourRoom(s: Store, a: Args) {
    Count(s, RecipientHour(a.project, a.recipient, a.hour)) < a.caps.perRecipientPerHour
  }

  predicate RecipientDayRoom(s: Store, a: Args) {
    Count(s, RecipientDay(a.project, a.recipient, a.day)) < a.caps.perRecipientPerDay
  }

  predicate ProjectHourRoom(s: Store, a: Args) {
    Count(s, ProjectHour(a.project, a.hour)) < a.caps.perHour
  }

  predicate ProjectDayRoom(s: Store, a: Args) {
    Count(s, ProjectDay(a.project, a.day)) < a.caps.perDay
  }

  predicate DistinctRoom(s: Store, a: Args) {
    var today := Seen(s, Bucket(a.project, a.day));
    a.recipient in today || |today| < a.caps.distinctRecipientsPerDay
  }

  /** What a call alone is told: the first cap without room in this order, and allowed if every one has room. */
  lemma AnswerIs(s: Store, a: Args)
    ensures Answer(s, a) ==
      if a.globally then SuppressedGlobally
      else if a.locally then SuppressedLocally
      else if !RecipientHourRoom(s, a) then Limited(PerRecipientPerHour)
      else if !RecipientDayRoom(s, a) then Limited(PerRecipientPerDay)
      else if !ProjectHourRoom(s, a) then Limited(PerHour)
      else if !ProjectDayRoom(s, a) then Limited(PerDay)
      else if !DistinctRoom(s, a) then Limited(DistinctRecipientsPerDay)
      else Allowed
  {
    FirstOverIs(s, a, 0);
  }

  // --- all runs ---

  /** The calls told they may send to the recipient within the hour's window. */
  function ToRecipientInHour(calls: map<CallId, Call>, p: Project, r: Recipient, hour: string): set<CallId> {
    set id | id in calls && calls[id].phase == Done(Allowed)
      && calls[id].args.project == p && calls[id].args.recipient == r && calls[id].args.hour == hour
  }

  function ToRecipientInDay(calls: map<CallId, Call>, p: Project, r: Recipient, day: string): set<CallId> {
    set id | id in calls && calls[id].phase == Done(Allowed)
      && calls[id].args.project == p && calls[id].args.recipient == r && calls[id].args.day == day
  }

  function OfProjectInHour(calls: map<CallId, Call>, p: Project, hour: string): set<CallId> {
    set id | id in calls && calls[id].phase == Done(Allowed) && calls[id].args.project == p && calls[id].args.hour == hour
  }

  function OfProjectInDay(calls: map<CallId, Call>, p: Project, day: string): set<CallId> {
    set id | id in calls && calls[id].phase == Done(Allowed) && calls[id].args.project == p && calls[id].args.day == day
  }

  /** In every run a recipient is sent at most as many mails within an hour as perRecipientPerHour allows. */
  lemma RecipientHourCap(es: seq<Event>, p: Project, r: Recipient, hour: string, m: nat)
    requires forall i | 0 <= i < |es| && es[i].Start? ::
      var a := es[i].args; a.project == p && a.recipient == r && a.hour == hour ==> a.caps.perRecipientPerHour <= m
    ensures |ToRecipientInHour(Run(EMPTY, es).calls, p, r, hour)| <= m
  {
    hide Run;
    var k := RecipientHour(p, r, hour);
    AllowedWithinCap(es, k, m);
    assert ToRecipientInHour(Run(EMPTY, es).calls, p, r, hour) == AllowedOn(Run(EMPTY, es).calls, k);
  }

  /** Within a day, as perRecipientPerDay allows. */
  lemma RecipientDayCap(es: seq<Event>, p: Project, r: Recipient, day: string, m: nat)
    requires forall i | 0 <= i < |es| && es[i].Start? ::
      var a := es[i].args; a.project == p && a.recipient == r && a.day == day ==> a.caps.perRecipientPerDay <= m
    ensures |ToRecipientInDay(Run(EMPTY, es).calls, p, r, day)| <= m
  {
    hide Run;
    var k := RecipientDay(p, r, day);
    AllowedWithinCap(es, k, m);
    assert ToRecipientInDay(Run(EMPTY, es).calls, p, r, day) == AllowedOn(Run(EMPTY, es).calls, k);
  }

  /** A project sends at most as many within an hour as perHour allows. */
  lemma ProjectHourCap(es: seq<Event>, p: Project, hour: string, m: nat)
    requires forall i | 0 <= i < |es| && es[i].Start? ::
      var a := es[i].args; a.project == p && a.hour == hour ==> a.caps.perHour <= m
    ensures |OfProjectInHour(Run(EMPTY, es).calls, p, hour)| <= m
  {
    hide Run;
    var k := ProjectHour(p, hour);
    AllowedWithinCap(es, k, m);
    assert OfProjectInHour(Run(EMPTY, es).calls, p, hour) == AllowedOn(Run(EMPTY, es).calls, k);
  }

  /** And within a day, as perDay allows. */
  lemma ProjectDayCap(es: seq<Event>, p: Project, day: string, m: nat)
    requires forall i | 0 <= i < |es| && es[i].Start? ::
      var a := es[i].args; a.project == p && a.day == day ==> a.caps.perDay <= m
    ensures |OfProjectInDay(Run(EMPTY, es).calls, p, day)| <= m
  {
    hide Run;
    var k := ProjectDay(p, day);
    AllowedWithinCap(es, k, m);
    assert OfProjectInDay(Run(EMPTY, es).calls, p, day) == AllowedOn(Run(EMPTY, es).calls, k);
  }

  /** However calls interleave, one is turned away by the cap whose own counter it has just overrun. */
  lemma RefusedByItsCounter(s: Store, c: Call)
    requires CallOk(c) && !c.phase.Rolling? && Advance(s, c).1.phase.Rolling?
    ensures var (s', c', a) := (Advance(s, c).0, Advance(s, c).1, c.args);
            match c'.phase.cap
            case PerRecipientPerHour =>
              Count(s', RecipientHour(a.project, a.recipient, a.hour)) > a.caps.perRecipientPerHour
            case PerRecipientPerDay =>
              Count(s', RecipientDay(a.project, a.recipient, a.day)) > a.caps.perRecipientPerDay
            case PerHour => Count(s', ProjectHour(a.project, a.hour)) > a.caps.perHour
            case PerDay => Count(s', ProjectDay(a.project, a.day)) > a.caps.perDay
            case DistinctRecipientsPerDay =>
              c.added && |Seen(s', Bucket(a.project, a.day))| > a.caps.distinctRecipientsPerDay
  {
    hide KeysBetween, Count;
  }
}
