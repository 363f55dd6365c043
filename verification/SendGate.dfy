/**
 * The send gate of packages/email/src/gate.ts: increment, compare, roll back.
 * Each Redis call is one step; any number of callers take steps in any order,
 * may stop between two of them, and may have a decrement rejected.
 */
module SendGate {
  import opened Text

  type Project = string
  type Recipient = string

  /** The four counters of a send, by bucket. The recipient is the hashed address. */
  datatype Key =
    | RecipientHour(project: Project, recipient: Recipient, window: string)
    | RecipientDay(project: Project, recipient: Recipient, window: string)
    | ProjectHour(project: Project, window: string)
    | ProjectDay(project: Project, window: string)

  datatype Caps = Caps(
    perHour: nat, perDay: nat, distinctRecipientsPerDay: nat, perRecipientPerHour: nat, perRecipientPerDay: nat)

  datatype CapName = PerRecipientPerHour | PerRecipientPerDay | PerHour | PerDay | DistinctRecipientsPerDay

  datatype Args = Args(
    project: Project, recipient: Recipient, caps: Caps, globally: bool, locally: bool, hour: string, day: string)

  datatype Bucket = Bucket(project: Project, day: string)

  /** What Redis holds: counters, and the day's distinct recipients. */
  datatype Store = Store(counts: map<Key, int>, seen: map<Bucket, set<Recipient>>)

  function Count(s: Store, k: Key): int {
    if k in s.counts then s.counts[k] else 0
  }

  function Seen(s: Store, b: Bucket): set<Recipient> {
    if b in s.seen then s.seen[b] else {}
  }

  function BucketOf(a: Args): Bucket {
    Bucket(a.project, a.day)
  }

  /** In the order in which the gate increments them. */
  function Keys(a: Args): (r: seq<Key>)
    ensures |r| == 4 && forall i, j | 0 <= i < j < 4 :: r[i] != r[j]
  {
    [RecipientHour(a.project, a.recipient, a.hour), RecipientDay(a.project, a.recipient, a.day),
     ProjectHour(a.project, a.hour), ProjectDay(a.project, a.day)]
  }

  function LimitOf(c: Caps, k: Key): nat {
    match k
    case RecipientHour(_, _, _) => c.perRecipientPerHour
    case RecipientDay(_, _, _) => c.perRecipientPerDay
    case ProjectHour(_, _) => c.perHour
    case ProjectDay(_, _) => c.perDay
  }

  function NameOf(k: Key): CapName {
    match k
    case RecipientHour(_, _, _) => PerRecipientPerHour
    case RecipientDay(_, _, _) => PerRecipientPerDay
    case ProjectHour(_, _) => PerHour
    case ProjectDay(_, _) => PerDay
  }

  datatype Verdict = Allowed | SuppressedGlobally | SuppressedLocally | Limited(cap: CapName)

  // --- one caller ---

  /** Where a caller stands; `Rolling(j, n, cap)` still has to return the units `j` to `n`. */
  datatype Phase =
    | Bumping(i: nat)
    | Adding
    | Counting
    | Rolling(j: nat, n: nat, cap: CapName)
    | Done(verdict: Verdict)
    | Crashed

  /** `held`: units taken and not returned. `lost`: a decrement was rejected. `added`: its recipient was new. */
  datatype Call = Call(args: Args, phase: Phase, held: set<Key>, lost: bool, added: bool)

  function Begin(a: Args): Call {
    Call(a, if a.globally then Done(SuppressedGlobally) else if a.locally then Done(SuppressedLocally) else Bumping(0),
         {}, false, false)
  }

  function Bumped(s: Store, k: Key, delta: int): Store {
    s.(counts := s.counts[k := Count(s, k) + delta])
  }

  function Added(s: Store, b: Bucket, r: Recipient): Store {
    s.(seen := s.seen[b := Seen(s, b) + {r}])
  }

  function AfterRolling(j: nat, n: nat, cap: CapName): Phase {
    if j + 1 < n then Rolling(j + 1, n, cap) else Done(Limited(cap))
  }

  /** The next Redis call of one caller. */
  function Advance(s: Store, c: Call): (Store, Call) {
    var keys := Keys(c.args);
    match c.phase
    case Bumping(i) =>
      if i >= 4 then (s, c)
      else
        var s', held := Bumped(s, keys[i], 1), c.held + {keys[i]};
        (s', c.(held := held, phase :=
          if Count(s', keys[i]) > LimitOf(c.args.caps, keys[i]) then Rolling(0, i + 1, NameOf(keys[i]))
          else if i < 3 then Bumping(i + 1)
          else Adding))
    case Adding =>
      if c.args.recipient in Seen(s, BucketOf(c.args)) then (s, c.(phase := Done(Allowed)))
      else (Added(s, BucketOf(c.args), c.args.recipient), c.(phase := Counting, added := true))
    case Counting =>
      (s, c.(phase := if |Seen(s, BucketOf(c.args))| > c.args.caps.distinctRecipientsPerDay
                      then Rolling(0, 4, DistinctRecipientsPerDay) else Done(Allowed)))
    case Rolling(j, n, cap) =>
      if j >= 4 then (s, c)
      else (Bumped(s, keys[j], -1), c.(held := c.held - {keys[j]}, phase := AfterRolling(j, n, cap)))
    case Done(_) => (s, c)
    case Crashed => (s, c)
  }

  /** When a decrement fails the gate goes on, and the unit stays counted. */
  function LoseUnit(c: Call): Call {
    if c.phase.Rolling? then c.(lost := true, phase := AfterRolling(c.phase.j, c.phase.n, c.phase.cap)) else c
  }

  // --- any number of callers ---

  type CallId = nat

  datatype State = State(store: Store, calls: map<CallId, Call>)

  datatype Event = Start(id: CallId, args: Args) | Next(id: CallId) | Lose(id: CallId) | Crash(id: CallId)

  const EMPTY := State(Store(map[], map[]), map[])

  function Step(s: State, e: Event): State {
    if e.Start? then
      if e.id in s.calls then s else s.(calls := s.calls[e.id := Begin(e.args)])
    else if e.id !in s.calls then s
    else
      var c := s.calls[e.id];
      match e
      case Next(id) =>
        var (store, c') := Advance(s.store, c);
        State(store, s.calls[id := c'])
      case Lose(id) => s.(calls := s.calls[id := LoseUnit(c)])
      case Crash(id) => s.(calls := s.calls[id := if c.phase.Done? then c else c.(phase := Crashed)])
  }

  function Run(s: State, es: seq<Event>): State {
    if es == [] then s else Step(Run(s, es[..|es| - 1]), es[|es| - 1])
  }

  // --- what a caller holds ---

  function KeysBetween(a: Args, j: nat, n: nat): set<Key>
    requires n <= 4
  {
    set i | j <= i < n :: Keys(a)[i]
  }

  predicate CallOk(c: Call) {
    match c.phase
    case Bumping(i) => i < 4 && c.held == KeysBetween(c.args, 0, i) && !c.lost && !c.added
    case Adding => c.held == KeysBetween(c.args, 0, 4) && !c.lost && !c.added
    case Counting => c.held == KeysBetween(c.args, 0, 4) && !c.lost && c.added
    case Rolling(j, n, _) =>
      && j < n <= 4
      && KeysBetween(c.args, j, n) <= c.held <= KeysBetween(c.args, 0, n)
      && (!c.lost ==> c.held == KeysBetween(c.args, j, n))
    case Done(Allowed) => c.held == KeysBetween(c.args, 0, 4) && !c.lost
    case Done(Limited(_)) => c.held <= KeysBetween(c.args, 0, 4) && (!c.lost ==> c.held == {})
    case Done(_) => c.held == {} && !c.lost
    case Crashed => c.held <= KeysBetween(c.args, 0, 4)
  }

  function Holders(calls: map<CallId, Call>, k: Key): set<CallId> {
    set id | id in calls && k in calls[id].held
  }

  /** Every counter is the number of callers that hold a unit of it. */
  ghost predicate Balanced(s: State) {
    && (forall id | id in s.calls :: CallOk(s.calls[id]))
    && (forall k :: Count(s.store, k) == |Holders(s.calls, k)|)
  }

  lemma BetweenSteps(a: Args, j: nat, n: nat)
    requires j < n <= 4
    ensures KeysBetween(a, j, n) == KeysBetween(a, j + 1, n) + {Keys(a)[j]}
    ensures KeysBetween(a, j, n) == KeysBetween(a, j, n - 1) + {Keys(a)[n - 1]}
    ensures Keys(a)[j] !in KeysBetween(a, j + 1, n) && Keys(a)[n - 1] !in KeysBetween(a, j, n - 1)
    ensures KeysBetween(a, 0, n) <= KeysBetween(a, 0, 4) && KeysBetween(a, n, n) == {}
  {
    hide Keys;
  }

  lemma AdvanceOk(s: Store, c: Call)
    requires CallOk(c)
    ensures CallOk(Advance(s, c).1)
  {
    hide Keys, KeysBetween, LimitOf, NameOf;
    match c.phase
    case Bumping(i) => BetweenSteps(c.args, 0, i + 1);
      if i < 3 {
        BetweenSteps(c.args, 0, i + 1);
      }
    case Rolling(j, n, _) => BetweenSteps(c.args, j, n); BetweenSteps(c.args, 0, n);
    case _ =>
  }
}
