/** Runs of the secret store: puts, replacements, purges, and `ensure` in its three separate statements. */
module SecretRuns {
  import opened Text
  import opened Secrets

  /** Where a caller of `ensure` stands. */
  datatype Task =
    | Idle
    | Missed(name: Name, generated: string)
    | Lost(name: Name)
    | Returned(name: Name, value: string, created: bool)
    | Vanished(name: Name)

  /** A version number of a name, and ever after the value it was sealed with. */
  datatype Slot = Slot(name: Name, version: nat)

  type Worker = nat

  datatype State = State(table: Table, ever: map<Slot, string>, tasks: map<Worker, Task>)

  /** `Replacing` is `replace` and `rotate`; one that loses a race aborts, and is then no event. */
  datatype Event =
    | Putting(name: Name, value: string)
    | Replacing(name: Name, value: string)
    | Purging(aged: map<Name, set<nat>>)
    | Reading(w: Worker, name: Name, generated: string)
    | Inserting(w: Worker)
    | Rereading(w: Worker)
    | Crash(w: Worker)

  const EMPTY := State(map[], map[], map[])

  function TaskOf(s: State, w: Worker): Task {
    if w in s.tasks then s.tasks[w] else Idle
  }

  function WithTask(s: State, w: Worker, t: Task): State {
    s.(tasks := s.tasks[w := t])
  }

  function Inserted(s: State, n: Name, value: string): State {
    var (t, inserted) := Insert(s.table, n, value);
    if inserted then s.(table := t, ever := s.ever[Slot(n, 1) := value]) else s
  }

  ghost function Answer(t: Table, n: Name, missing: Task): Task {
    match Get(t, n)
    case Some(v) => Returned(n, v, false)
    case None => missing
  }

  ghost function Step(s: State, e: Event): State {
    match e
    case Putting(n, value) => if Put(s.table, n, value).Ok? then Inserted(s, n, value) else s
    case Replacing(n, value) =>
      s.(table := Replace(s.table, n, value), ever := s.ever[Slot(n, Top(Rows(s.table, n)) + 1) := value])
    case Purging(aged) => s.(table := Purge(s.table, aged))
    case Reading(w, n, generated) =>
      if TaskOf(s, w).Idle? then WithTask(s, w, Answer(s.table, n, Missed(n, generated))) else s
    case Inserting(w) =>
      (match TaskOf(s, w)
       case Missed(n, generated) =>
         WithTask(Inserted(s, n, generated), w,
           if Insert(s.table, n, generated).1 then Returned(n, generated, true) else Lost(n))
       case _ => s)
    case Rereading(w) =>
      (match TaskOf(s, w)
       case Lost(n) => WithTask(s, w, Answer(s.table, n, Vanished(n)))
       case _ => s)
    case Crash(w) => WithTask(s, w, Idle)
  }

  ghost function Run(s: State, es: seq<Event>): State {
    if es == [] then s else Step(Run(s, es[..|es| - 1]), es[|es| - 1])
  }

  // --- the invariant ---

  /** Every version ever used is at most the highest now. */
  ghost predicate Bounded(t: Table, ever: map<Slot, string>) {
    forall slot | slot in ever :: 1 <= slot.version <= Top(Rows(t, slot.name))
  }

  /** Every row holds what its version was sealed with. */
  predicate Sealed(t: Table, ever: map<Slot, string>) {
    forall n | n in t :: forall v | v in t[n] :: Slot(n, v) in ever && ever[Slot(n, v)] == t[n][v].value
  }

  ghost predicate Remembered(t: Table, ever: map<Slot, string>) {
    Bounded(t, ever) && Sealed(t, ever)
  }

  ghost predicate TaskOk(t: Table, ever: map<Slot, string>, task: Task) {
    match task
    case Lost(n) => Get(t, n).Some?
    case Vanished(_) => false
    case Returned(n, _, created) => created ==> Slot(n, 1) in ever
    case _ => true
  }

  predicate Created(task: Task, n: Name) {
    task.Returned? && task.created && task.name == n
  }

  ghost predicate OneCreator(tasks: map<Worker, Task>) {
    forall w, w', n | w in tasks && w' in tasks && Created(tasks[w], n) && Created(tasks[w'], n) :: w == w'
  }

  ghost predicate Inv(s: State) {
    && Wf(s.table) && Remembered(s.table, s.ever) && OneCreator(s.tasks)
    && forall w | w in s.tasks :: TaskOk(s.table, s.ever, s.tasks[w])
  }

  /** The version a step writes, if it writes one. */
  ghost function Written(s: State, e: Event): Option<Slot> {
    match e
    case Putting(n, value) =>
      if Put(s.table, n, value).Ok? && Insert(s.table, n, value).1 then Some(Slot(n, 1)) else None
    case Replacing(n, value) => Some(Slot(n, Top(Rows(s.table, n)) + 1))
    case Inserting(w) =>
      if TaskOf(s, w).Missed? && Insert(s.table, TaskOf(s, w).name, TaskOf(s, w).generated).1
      then Some(Slot(TaskOf(s, w).name, 1)) else None
    case _ => None
  }

  lemma InsertedIsNew(t: Table, ever: map<Slot, string>, n: Name, value: string)
    requires Wf(t) && Remembered(t, ever) && Insert(t, n, value).1
    ensures Rows(t, n) == map[] && Slot(n, 1) !in ever
  {
    hide Top, Get, Remembered, WfRows;
    RowsWf(t, n);
    ActiveIsTop(Rows(t, n));
    EmptyNeverUsed(t, ever, n);
  }

  lemma EmptyNeverUsed(t: Table, ever: map<Slot, string>, n: Name)
    requires Remembered(t, ever) && Rows(t, n) == map[]
    ensures Slot(n, 1) !in ever
  {
    assert Top(Rows(t, n)) == 0;
    hide Top, Sealed;
    var slot := Slot(n, 1);
    assert slot in ever ==> slot.version <= Top(Rows(t, slot.name));
  }

  /** Writing one new version of a name, its other rows keeping their values. */
  lemma WriteRemembered(t: Table, ever: map<Slot, string>, n: Name, vs: Versions, version: nat, value: string)
    requires Remembered(t, ever)
    requires version in vs && vs[version].value == value && 1 <= version <= Top(vs) && Top(Rows(t, n)) <= Top(vs)
    requires forall v | v in vs && v != version :: v in Rows(t, n) && Rows(t, n)[v].value == vs[v].value
    ensures Remembered(t[n := vs], ever[Slot(n, version) := value])
  {
    hide Top;
    WriteBounded(t, ever, n, vs, version, value);
    WriteSealed(t, ever, n, vs, version, value);
  }

  lemma WriteBounded(t: Table, ever: map<Slot, string>, n: Name, vs: Versions, version: nat, value: string)
    requires Bounded(t, ever) && 1 <= version <= Top(vs) && Top(Rows(t, n)) <= Top(vs)
    ensures Bounded(t[n := vs], ever[Slot(n, version) := value])
  {
    hide Top;
  }

  lemma WriteSealed(t: Table, ever: map<Slot, string>, n: Name, vs: Versions, version: nat, value: string)
    requires Sealed(t, ever) && version in vs && vs[version].value == value
    requires forall v | v in vs && v != version :: v in Rows(t, n) && Rows(t, n)[v].value == vs[v].value
    ensures Sealed(t[n := vs], ever[Slot(n, version) := value])
  {
    var t': Table := t[n := vs];
    var ever' := ever[Slot(n, version) := value];
    forall m | m in t' ensures forall v | v in t'[m] :: Slot(m, v) in ever' && ever'[Slot(m, v)] == t'[m][v].value {
      forall v | v in t'[m] ensures Slot(m, v) in ever' && ever'[Slot(m, v)] == t'[m][v].value {
        if m == n && v != version {
          assert v in Rows(t, n);
        }
      }
    }
  }

  lemma InsertedKeeps(s: State, n: Name, value: string)
    requires Wf(s.table) && Remembered(s.table, s.ever)
    ensures var s' := Inserted(s, n, value); Wf(s'.table) && Remembered(s'.table, s'.ever)
  {
    hide Top, Get, WfRows, Remembered, Wf;
    InsertWf(s.table, n, value);
    if Insert(s.table, n, value).1 {
      InsertedIsNew(s.table, s.ever, n, value);
      var vs: Versions := map[1 := Row(value, Active)];
      TopIs(vs, 1);
      EmptyTop(Rows(s.table, n));
      WriteRemembered(s.table, s.ever, n, vs, 1, value);
    }
  }

  lemma EmptyTop(vs: Versions)
    requires vs == map[]
    ensures Top(vs) == 0
  {
  }

  lemma ReplaceKeeps(s: State, n: Name, value: string)
    requires Wf(s.table) && Remembered(s.table, s.ever)
    ensures var s' := Step(s, Replacing(n, value)); Wf(s'.table) && Remembered(s'.table, s'.ever)
  {
    hide Top, Get, WfRows, Remembered, Wf;
    ReplaceWf(s.table, n, value);
    var vs, version := Rows(s.table, n), Top(Rows(s.table, n)) + 1;
    var vs' := Demoted(vs)[version := Row(value, Active)];
    assert Replace(s.table, n, value) == s.table[n := vs'];
    WriteRemembered(s.table, s.ever, n, vs', version, value);
  }

  lemma PurgeKeeps(t: Table, ever: map<Slot, string>, aged: map<Name, set<nat>>)
    requires Wf(t) && Remembered(t, ever)
    ensures Wf(Purge(t, aged)) && Remembered(Purge(t, aged), ever)
  {
    hide Top, Get, WfRows, Wf;
    PurgeWf(t, aged);
    forall slot | slot in ever ensures 1 <= slot.version <= Top(Rows(Purge(t, aged), slot.name)) {
      PurgeGet(t, aged, slot.name);
    }
  }

  /** The tables of the next state satisfy what the tables of this one do. */
  lemma TablesKept(s: State, e: Event)
    requires Wf(s.table) && Remembered(s.table, s.ever)
    ensures Wf(Step(s, e).table) && Remembered(Step(s, e).table, Step(s, e).ever)
  {
    hide Wf, Remembered, Replace, Purge, Insert, Put, Get;
    match e
    case Putting(n, value) => InsertedKeeps(s, n, value);
    case Replacing(n, value) => ReplaceKeeps(s, n, value);
    case Purging(aged) => PurgeKeeps(s.table, s.ever, aged);
    case Inserting(w) =>
      if TaskOf(s, w).Missed? {
        InsertedKeeps(s, TaskOf(s, w).name, TaskOf(s, w).generated);
      }
    case _ =>
  }

  /** Nothing that is ever written is forgotten, and a version is written at most once. */
  lemma NoVersionReused(s: State, e: Event)
    requires Wf(s.table) && Remembered(s.table, s.ever)
    ensures Written(s, e).Some? ==> Written(s, e).value !in s.ever && Written(s, e).value in Step(s, e).ever
    ensures forall slot | slot in s.ever :: slot in Step(s, e).ever && Step(s, e).ever[slot] == s.ever[slot]
  {
    hide Wf, Remembered, Get, Top, Put, Purge, Insert;
    match e
    case Putting(n, value) =>
      if Insert(s.table, n, value).1 {
        InsertedIsNew(s.table, s.ever, n, value);
      }
    case Replacing(n, value) => NextIsNew(s.table, s.ever, n);
    case Inserting(w) =>
      if TaskOf(s, w).Missed? && Insert(s.table, TaskOf(s, w).name, TaskOf(s, w).generated).1 {
        InsertedIsNew(s.table, s.ever, TaskOf(s, w).name, TaskOf(s, w).generated);
      }
    case _ =>
  }

  lemma NextIsNew(t: Table, ever: map<Slot, string>, n: Name)
    requires Remembered(t, ever)
    ensures Slot(n, Top(Rows(t, n)) + 1) !in ever
  {
    hide Top, Sealed;
    var slot := Slot(n, Top(Rows(t, n)) + 1);
    assert slot in ever ==> slot.version <= Top(Rows(t, slot.name));
  }

  /** A name that has a value keeps having one, and only a replacement of that name changes it. */
  lemma ValueKept(s: State, e: Event, n: Name)
    requires Wf(s.table) && Get(s.table, n).Some?
    ensures Get(Step(s, e).table, n).Some?
    ensures !(e.Replacing? && e.name == n) ==> Get(Step(s, e).table, n) == Get(s.table, n)
  {
    hide Wf, Replace, Purge, Insert, Put, Get;
    match e
    case Putting(m, value) => InsertGet(s.table, m, value, n);
    case Replacing(m, value) => ReplaceGet(s.table, m, value, n);
    case Purging(aged) => PurgeGet(s.table, aged, n);
    case Inserting(w) =>
      if TaskOf(s, w).Missed? {
        InsertGet(s.table, TaskOf(s, w).name, TaskOf(s, w).generated, n);
      }
    case _ =>
  }

  /** A caller's own step leaves it in order. */
  lemma OwnTaskOk(s: State, e: Event, w: Worker)
    requires Inv(s) && (e.Reading? || e.Inserting? || e.Rereading? || e.Crash?) && e.w == w
    ensures TaskOk(Step(s, e).table, Step(s, e).ever, TaskOf(Step(s, e), w))
  {
    hide Wf, Remembered, Insert, Get, OneCreator;
    TaskHeld(s, w);
    if e.Inserting? && TaskOf(s, w).Missed? {
      InsertGet(s.table, TaskOf(s, w).name, TaskOf(s, w).generated, TaskOf(s, w).name);
    }
  }

  lemma TaskHeld(s: State, w: Worker)
    requires Inv(s)
    ensures TaskOk(s.table, s.ever, TaskOf(s, w))
  {
    hide Wf, Remembered, Get, OneCreator;
  }

  lemma OthersTaskOk(s: State, e: Event, t: Task)
    requires Inv(s) && TaskOk(s.table, s.ever, t)
    ensures TaskOk(Step(s, e).table, Step(s, e).ever, t)
  {
    hide Wf, Remembered, Step, Get, OneCreator;
    if t.Lost? {
      ValueKept(s, e, t.name);
    }
    NoVersionReused(s, e);
  }

  /** Only the worker that steps changes its task, and no worker comes from nowhere. */
  lemma TasksStep(s: State, e: Event)
    ensures var actor := if e.Reading? || e.Inserting? || e.Rereading? || e.Crash? then Some(e.w) else None;
            forall w | w in Step(s, e).tasks :: Some(w) == actor || (w in s.tasks && Step(s, e).tasks[w] == s.tasks[w])
    ensures e.Inserting? && TaskOf(Step(s, e), e.w) != TaskOf(s, e.w) && TaskOf(Step(s, e), e.w).Returned?
      ==> Written(s, e) == Some(Slot(TaskOf(Step(s, e), e.w).name, 1))
    ensures (e.Reading? || e.Rereading? || e.Crash?) && TaskOf(Step(s, e), e.w) != TaskOf(s, e.w)
      ==> !(TaskOf(Step(s, e), e.w).Returned? && TaskOf(Step(s, e), e.w).created)
  {
    hide Get, Insert, Put, Replace, Purge;
  }

  lemma CreatorsKept(s: State, e: Event)
    requires Inv(s)
    ensures OneCreator(Step(s, e).tasks)
  {
    hide Wf, Remembered, Step, Written, Get;
    TasksStep(s, e);
    NoVersionReused(s, e);
    var s' := Step(s, e);
    forall w, w', n | w in s'.tasks && w' in s'.tasks && Created(s'.tasks[w], n) && Created(s'.tasks[w'], n)
      ensures w == w'
    {
      CreatorUsed(s, w, n);
      CreatorUsed(s, w', n);
    }
  }

  lemma CreatorUsed(s: State, w: Worker, n: Name)
    requires Inv(s)
    ensures w in s.tasks && Created(s.tasks[w], n) ==> Slot(n, 1) in s.ever
  {
    hide Wf, Remembered, Get, OneCreator;
  }

  lemma StepInv(s: State, e: Event)
    requires Inv(s)
    ensures Inv(Step(s, e))
  {
    hide Wf, Remembered, Step, OneCreator, TaskOk;
    TablesKept(s, e);
    CreatorsKept(s, e);
    TasksStep(s, e);
    var s' := Step(s, e);
    forall w | w in s'.tasks ensures TaskOk(s'.table, s'.ever, s'.tasks[w]) {
      if w in s.tasks && s'.tasks[w] == s.tasks[w] {
        OthersTaskOk(s, e, s.tasks[w]);
      } else {
        OwnTaskOk(s, e, w);
      }
    }
  }

  lemma {:induction false} RunInv(s: State, es: seq<Event>)
    requires Inv(s)
    ensures Inv(Run(s, es))
  {
    hide Inv, Step;
    if es != [] {
      RunInv(s, es[..|es| - 1]);
      StepInv(Run(s, es[..|es| - 1]), es[|es| - 1]);
    }
  }

  lemma EmptyInv()
    ensures Inv(EMPTY)
  {
  }

  /**
   * In every run: one active row per name, the highest version ever used of it; and the
   * "vanished" failure of `ensure` is unreachable.
   */
  lemma ActiveIsHighestEver(es: seq<Event>, n: Name, v: nat)
    requires v in Rows(Run(EMPTY, es).table, n) && Rows(Run(EMPTY, es).table, n)[v].state == Active
    ensures forall u: nat | Slot(n, u) in Run(EMPTY, es).ever :: u <= v
    ensures forall u | u in Rows(Run(EMPTY, es).table, n) && u != v :: Rows(Run(EMPTY, es).table, n)[u].state == Retiring
  {
    hide Run, Top, OneCreator, TaskOk, Get;
    EmptyInv();
    RunInv(EMPTY, es);
    var t, ever := Run(EMPTY, es).table, Run(EMPTY, es).ever;
    RowsWf(t, n);
    assert v == Top(Rows(t, n));
    forall u: nat | Slot(n, u) in ever ensures u <= v {
      assert Slot(n, u).version <= Top(Rows(t, Slot(n, u).name));
    }
  }

  lemma VanishedIsUnreachable(es: seq<Event>, w: Worker)
    ensures !TaskOf(Run(EMPTY, es), w).Vanished?
  {
    hide Run, Wf, Remembered, OneCreator;
    EmptyInv();
    RunInv(EMPTY, es);
    TaskHeld(Run(EMPTY, es), w);
  }

  // --- callers of `ensure` agree ---

  predicate NoReplacing(es: seq<Event>, n: Name) {
    forall i | 0 <= i < |es| :: !(es[i].Replacing? && es[i].name == n)
  }

  /** Whoever has its answer has the active value. */
  ghost predicate Agreed(s: State, n: Name) {
    forall w | w in s.tasks && s.tasks[w].Returned? && s.tasks[w].name == n :: Get(s.table, n) == Some(s.tasks[w].value)
  }

  lemma OwnAnswer(s: State, e: Event, w: Worker)
    requires Inv(s) && (e.Reading? || e.Inserting? || e.Rereading? || e.Crash?) && e.w == w
    ensures var t := TaskOf(Step(s, e), w);
            t.Returned? && t != TaskOf(s, w) ==> Get(Step(s, e).table, t.name) == Some(t.value)
  {
    hide Wf, Remembered, Insert, Get, OneCreator, TaskOk;
    if e.Inserting? && TaskOf(s, w).Missed? {
      InsertGet(s.table, TaskOf(s, w).name, TaskOf(s, w).generated, TaskOf(s, w).name);
    }
  }

  lemma StepAgreed(s: State, e: Event, n: Name)
    requires Inv(s) && Agreed(s, n) && !(e.Replacing? && e.name == n)
    ensures Agreed(Step(s, e), n)
  {
    hide Wf, Remembered, OneCreator, TaskOk, Step, Get, Written;
    var s' := Step(s, e);
    TasksStep(s, e);
    if Get(s.table, n).Some? {
      ValueKept(s, e, n);
    }
    forall w | w in s'.tasks && s'.tasks[w].Returned? && s'.tasks[w].name == n
      ensures Get(s'.table, n) == Some(s'.tasks[w].value)
    {
      if !(w in s.tasks && s'.tasks[w] == s.tasks[w]) {
        OwnAnswer(s, e, w);
      }
    }
  }

  lemma {:induction false} RunAgreed(s: State, es: seq<Event>, n: Name)
    requires Inv(s) && Agreed(s, n) && NoReplacing(es, n)
    ensures Agreed(Run(s, es), n)
  {
    hide Inv, Step, Agreed;
    if es != [] {
      RunAgreed(s, es[..|es| - 1], n);
      RunInv(s, es[..|es| - 1]);
      StepAgreed(Run(s, es[..|es| - 1]), es[|es| - 1], n);
    }
  }

  /** Concurrent callers converge: with no rotation of the name, all answers are equal and one caller created it. */
  lemma EnsureConverges(es: seq<Event>, n: Name, w: Worker, w': Worker)
    requires NoReplacing(es, n)
    requires var a, b := TaskOf(Run(EMPTY, es), w), TaskOf(Run(EMPTY, es), w');
             a.Returned? && b.Returned? && a.name == n && b.name == n
    ensures var a, b := TaskOf(Run(EMPTY, es), w), TaskOf(Run(EMPTY, es), w');
            a.value == b.value && Get(Run(EMPTY, es).table, n) == Some(a.value)
            && (a.created && b.created ==> w == w')
  {
    hide Run, Wf, Remembered, TaskOk, Get;
    EmptyInv();
    RunInv(EMPTY, es);
    RunAgreed(EMPTY, es, n);
    assert Created(TaskOf(Run(EMPTY, es), w), n) == TaskOf(Run(EMPTY, es), w).created;
    assert Created(TaskOf(Run(EMPTY, es), w'), n) == TaskOf(Run(EMPTY, es), w').created;
  }

  /** No version number is ever written twice, purged or not. */
  lemma NeverReused(es: seq<Event>, e: Event)
    ensures var s := Run(EMPTY, es);
            Written(s, e).Some? ==> Written(s, e).value !in s.ever && Written(s, e).value in Step(s, e).ever
  {
    hide Run, Step, Written, Wf, Remembered, OneCreator, TaskOk;
    EmptyInv();
    RunInv(EMPTY, es);
    NoVersionReused(Run(EMPTY, es), e);
  }

  // --- the store, changed in place ---

  class SecretStore {
    var table: Table

    constructor ()
      ensures table == map[]
    {
      table := map[];
    }

    method FindActive(n: Name) returns (version: Option<nat>)
      requires Wf(table)
      ensures match version
              case None => Rows(table, n) == map[] && Get(table, n) == None
              case Some(v) =>
                && v in Rows(table, n) && v == Top(Rows(table, n)) && Rows(table, n)[v].state == Active
                && Get(table, n) == Some(Rows(table, n)[v].value)
    {
      hide Top, Get, WfRows, HasActive;
      RowsWf(table, n);
      GetIs(table, n);
      ActiveIsTop(Rows(table, n));
      TopWhenActive(Rows(table, n));
      var vs := Rows(table, n);
      if v :| v in vs && vs[v].state == Active {
        return Some(v);
      }
      return None;
    }

    /** `get`. */
    method Read(n: Name) returns (value: Option<string>)
      requires Wf(table)
      ensures value == Get(table, n)
    {
      hide Top, Get, Wf;
      var version := FindActive(n);
      value := if version.Some? then Some(Rows(table, n)[version.value].value) else None;
    }

    /** `put`; false when the insert breaks the one-active index. */
    method Put(n: Name, value: string) returns (ok: bool)
      requires Wf(table)
      modifies this
      ensures Wf(table)
      ensures Secrets.Put(old(table), n, value) == if ok then Ok(table) else UniqueViolation
      ensures ok == (Get(old(table), n).None? || 1 in Rows(old(table), n))
      ensures !ok ==> table == old(table)
      ensures forall m :: Get(table, m) == if m == n && Get(old(table), n).None? then Some(value) else Get(old(table), m)
    {
      hide Get, Wf, HasActive;
      PutWf(table, n, value);
      PutSucceedsIff(table, n, value);
      var vs := Rows(table, n);
      if 1 in vs {
        PutIs(table, n, value);
        return true;
      }
      var version := FindActive(n);
      PutIs(table, n, value);
      if version.Some? {
        return false;
      }
      table := table[n := vs[1 := Row(value, Active)]];
      return true;
    }

    /** `replace`, and `rotate` with a generated value: demote the active row, then insert the next version. */
    method Replace(n: Name, value: string) returns (previous: Option<string>, version: nat)
      requires Wf(table)
      modifies this
      ensures Wf(table) && table == Secrets.Replace(old(table), n, value)
      ensures previous == Get(old(table), n)
      ensures version == Top(Rows(old(table), n)) + 1
      ensures Get(table, n) == Some(value)
    {
      hide Get, Wf, WfRows, Top;
      ghost var was := table;
      ReplaceWf(table, n, value);
      ReplaceGet(table, n, value, n);
      GetIs(table, n) by { RowsWf(table, n); }
      var active := FindActive(n);
      var vs := Rows(table, n);
      version := 1;
      previous := None;
      if active.Some? {
        previous := Some(vs[active.value].value);
        version := active.value + 1;
        table := table[n := Demoted(vs)];
      } else {
        EmptyTop(vs);
        assert Demoted(vs) == vs;
      }
      assert Rows(table, n) == Demoted(vs);
      table := table[n := Rows(table, n)[version := Row(value, Active)]];
      assert table == Secrets.Replace(was, n, value);
    }

    /** `ensure`, undisturbed. */
    method Ensure(n: Name, generated: string) returns (value: string, created: bool)
      requires Wf(table)
      modifies this
      ensures Wf(table) && table == Insert(old(table), n, generated).0
      ensures Get(table, n) == Some(value) && created == Get(old(table), n).None?
      ensures value == if created then generated else Get(old(table), n).value
    {
      hide Get, Wf, Top;
      InsertWf(table, n, generated);
      InsertGet(table, n, generated, n);
      PutIs(table, n, generated);
      var existing := Read(n);
      if existing.Some? {
        return existing.value, false;
      }
      RowsWf(table, n);
      table := table[n := Rows(table, n)[1 := Row(generated, Active)]];
      return generated, true;
    }

    method PurgeRetired(aged: map<Name, set<nat>>)
      requires Wf(table)
      modifies this
      ensures Wf(table) && table == Purge(old(table), aged)
      ensures forall n :: Get(table, n) == Get(old(table), n)
    {
      hide Get, Wf;
      PurgeWf(table, aged);
      forall n ensures Get(Purge(table, aged), n) == Get(table, n) {
        PurgeGet(table, aged, n);
      }
      table := Purge(table, aged);
    }
  }

  lemma TopWhenActive(vs: Versions)
    requires WfRows(vs)
    ensures forall v | v in vs :: vs[v].state == Active <==> v == Top(vs)
  {
    hide Top;
  }

  /** What both inserts do, by whether the name has rows. */
  lemma PutIs(t: Table, n: Name, value: string)
    requires Wf(t)
    ensures Get(t, n).None? ==> Rows(t, n) == map[] && Insert(t, n, value) == (t[n := map[1 := Row(value, Active)]], true)
    ensures Get(t, n).Some? ==> Insert(t, n, value) == (t, false)
  {
    hide Get, Top, WfRows, Wf;
    InsertGet(t, n, value, n);
    RowsWf(t, n);
    GetIs(t, n);
    ActiveIsTop(Rows(t, n));
  }
}
