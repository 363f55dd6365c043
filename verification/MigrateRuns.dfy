/** Any number of migration runners over one database, interleaved, each free to crash at any statement. */
module MigrateRuns {
  import opened Text
  import opened Migrate

  /** What a committed migration leaves in `schema_migrations`. */
  datatype Record = Record(name: string, checksum: string)

  type Rows = map<Version, Record>

  type Runner = nat

  datatype Failure = Drift | Unknown | Sql(version: Version)

  datatype Report = Report(applied: seq<string>, skipped: seq<string>)

  /** `at` is the number of files done with; `seen` is the rows as read under the lock. */
  datatype Phase =
    | Waiting
    | Locked
    | Applying(seen: Rows, at: nat, report: Report)
    | InTransaction(seen: Rows, at: nat, report: Report)
    | Returned(report: Report)
    | Failed(failure: Failure)
    | Crashed

  /** `committed`: what this runner has committed, for the record. */
  datatype Run = Run(files: seq<File>, phase: Phase, committed: seq<Version>)

  /** `history`: the migrations whose SQL has committed, in order. */
  datatype State = State(rows: Rows, history: seq<File>, lock: Option<Runner>, runs: map<Runner, Run>)

  datatype Event =
    | Start(r: Runner, files: seq<File>)
    | Acquire(r: Runner)
    | ReadRows(r: Runner)
    | Advance(r: Runner)
    | Commit(r: Runner, ok: bool)
    | Crash(r: Runner)

  const EMPTY := State(map[], [], None, map[])

  function RecordOf(f: File): Record {
    Record(f.name, f.checksum)
  }

  /** An applied migration whose file has changed. */
  predicate Drifted(rows: Rows, files: seq<File>) {
    exists i | 0 <= i < |files| :: files[i].version in rows && rows[files[i].version].checksum != files[i].checksum
  }

  /** An applied migration that has no file. */
  predicate HasUnknown(rows: Rows, files: seq<File>) {
    exists v | v in rows :: v !in Versions(files)
  }

  function With(s: State, r: Runner, phase: Phase): State
    requires r in s.runs
  {
    s.(runs := s.runs[r := s.runs[r].(phase := phase)])
  }

  /** Leaving the function, however it ends, unlocks. */
  function Leave(s: State, r: Runner, phase: Phase): State
    requires r in s.runs
  {
    With(s, r, phase).(lock := if s.lock == Some(r) then None else s.lock)
  }

  function ReadStep(s: State, r: Runner): State
    requires r in s.runs
  {
    var files := s.runs[r].files;
    if Drifted(s.rows, files) then Leave(s, r, Failed(Drift))
    else if HasUnknown(s.rows, files) then Leave(s, r, Failed(Unknown))
    else With(s, r, Applying(s.rows, 0, Report([], [])))
  }

  /** The next file: skip it, or begin its transaction; past the last one, return. */
  function AdvanceStep(s: State, r: Runner, seen: Rows, at: nat, report: Report): State
    requires r in s.runs
  {
    var files := s.runs[r].files;
    if at >= |files| then Leave(s, r, Returned(report))
    else if files[at].version in seen then
      With(s, r, Applying(seen, at + 1, report.(skipped := report.skipped + [files[at].filename])))
    else With(s, r, InTransaction(seen, at, report))
  }

  /** The SQL and the row commit together; a failure rolls both back. */
  function CommitStep(s: State, r: Runner, ok: bool, seen: Rows, at: nat, report: Report): State
    requires r in s.runs
  {
    var files := s.runs[r].files;
    if at >= |files| then s
    else
      var f := files[at];
      if !ok || f.version in s.rows then Leave(s, r, Failed(Sql(f.version)))
      else
        State(s.rows[f.version := RecordOf(f)], s.history + [f], s.lock,
              s.runs[r := Run(files, Applying(seen, at + 1, report.(applied := report.applied + [f.filename])),
                              s.runs[r].committed + [f.version])])
  }

  function Step(s: State, e: Event): State {
    if e.Start? then
      if e.r in s.runs then s else s.(runs := s.runs[e.r := Run(e.files, Waiting, [])])
    else if e.r !in s.runs then s
    else
      match (e, s.runs[e.r].phase)
      case (Acquire(r), Waiting) => if s.lock.None? then With(s, r, Locked).(lock := Some(r)) else s
      case (ReadRows(r), Locked) => ReadStep(s, r)
      case (Advance(r), Applying(seen, at, report)) => AdvanceStep(s, r, seen, at, report)
      case (Commit(r, ok), InTransaction(seen, at, report)) => CommitStep(s, r, ok, seen, at, report)
      case (Crash(r), phase) => if phase.Returned? || phase.Failed? then s else Leave(s, r, Crashed)
      case _ => s
  }

  function RunAll(s: State, es: seq<Event>): State {
    if es == [] then s else Step(RunAll(s, es[..|es| - 1]), es[|es| - 1])
  }

  // --- what every run keeps ---

  /** Each version's SQL has committed at most once, and exactly when its row is there with its checksum. */
  predicate Recorded(rows: Rows, history: seq<File>) {
    && (forall i, j | 0 <= i < j < |history| :: history[i].version != history[j].version)
    && (forall i | 0 <= i < |history| :: history[i].version in rows && rows[history[i].version] == RecordOf(history[i]))
    && (forall v | v in rows :: exists i | 0 <= i < |history| :: history[i].version == v)
  }

  predicate Inside(phase: Phase) {
    phase.Locked? || phase.Applying? || phase.InTransaction?
  }

  /** What the lock holder knows: no one else has changed the table since it read it. */
  predicate UpTo(rows: Rows, seen: Rows, files: seq<File>, at: nat) {
    && at <= |files| && !Drifted(seen, files) && !HasUnknown(seen, files)
    && (forall v | v in seen :: v in rows && rows[v] == seen[v])
    && (forall v | v in rows :: v in seen || exists i | 0 <= i < at :: files[i].version == v)
    && (forall i | 0 <= i < at :: files[i].version in rows && rows[files[i].version].checksum == files[i].checksum)
  }

  predicate RunOk(s: State, r: Runner)
    requires r in s.runs
  {
    var run := s.runs[r];
    && (Inside(run.phase) ==> s.lock == Some(r))
    && (run.phase.Waiting? || run.phase.Locked? || run.phase == Failed(Drift) || run.phase == Failed(Unknown)
        ==> run.committed == [])
    && (run.phase.Applying? ==> UpTo(s.rows, run.phase.seen, run.files, run.phase.at))
    && (run.phase.InTransaction? ==>
          UpTo(s.rows, run.phase.seen, run.files, run.phase.at) && run.phase.at < |run.files|
          && run.files[run.phase.at].version !in run.phase.seen)
  }

  predicate Inv(s: State) {
    Recorded(s.rows, s.history) && forall r | r in s.runs :: RunOk(s, r)
  }

  lemma RecordedCommit(rows: Rows, history: seq<File>, f: File)
    requires Recorded(rows, history) && f.version !in rows
    ensures Recorded(rows[f.version := RecordOf(f)], history + [f])
  {
    var rows', history' := rows[f.version := RecordOf(f)], history + [f];
    forall v | v in rows' ensures exists i | 0 <= i < |history'| :: history'[i].version == v {
      if v == f.version {
        assert history'[|history|] == f;
      } else {
        var i :| 0 <= i < |history| && history[i].version == v;
        assert history'[i].version == v;
      }
    }
  }

  /** A runner that steps leaves the others' claims in order, unless it holds the lock and commits. */
  lemma OthersOk(s: State, s': State, r: Runner, o: Runner)
    requires Inv(s) && r in s.runs && o in s.runs && o != r && o in s'.runs && s'.runs[o] == s.runs[o]
    requires s'.rows == s.rows || s.lock == Some(r)
    requires s'.lock == s.lock || s.lock == Some(r) || s.lock == None
    ensures RunOk(s', o)
  {
    hide UpTo, Recorded;
    assert RunOk(s, o);
  }

  lemma UpToStart(rows: Rows, files: seq<File>)
    requires !Drifted(rows, files) && !HasUnknown(rows, files)
    ensures UpTo(rows, rows, files, 0)
  {
    hide Drifted, HasUnknown;
  }

  lemma UpToSkip(rows: Rows, seen: Rows, files: seq<File>, at: nat)
    requires UpTo(rows, seen, files, at) && at < |files| && files[at].version in seen
    ensures UpTo(rows, seen, files, at + 1)
  {
    hide HasUnknown;
    assert rows[files[at].version].checksum == files[at].checksum;
  }

  lemma UpToCommit(rows: Rows, seen: Rows, files: seq<File>, at: nat)
    requires UpTo(rows, seen, files, at) && at < |files| && files[at].version !in rows
    ensures UpTo(rows[files[at].version := RecordOf(files[at])], seen, files, at + 1)
  {
    hide HasUnknown, Drifted;
  }

  lemma OwnOk(s: State, e: Event)
    requires Inv(s) && !e.Start? && e.r in s.runs
    ensures e.r in Step(s, e).runs && RunOk(Step(s, e), e.r)
  {
    hide UpTo, Recorded, Drifted, HasUnknown;
    assert RunOk(s, e.r);
    var run := s.runs[e.r];
    match (e, run.phase)
    case (ReadRows(r), Locked) =>
      if !Drifted(s.rows, run.files) && !HasUnknown(s.rows, run.files) {
        UpToStart(s.rows, run.files);
      }
    case (Advance(r), Applying(seen, at, report)) =>
      if at < |run.files| && run.files[at].version in seen {
        UpToSkip(s.rows, seen, run.files, at);
      }
    case (Commit(r, ok), InTransaction(seen, at, report)) =>
      if ok && run.files[at].version !in s.rows {
        UpToCommit(s.rows, seen, run.files, at);
      }
    case _ =>
  }

  /** The lock holder commits one migration that was not applied. */
  ghost predicate Committed(s: State, s': State, r: Runner) {
    && r in s.runs && s.lock == Some(r)
    && exists f: File ::
         f.version !in s.rows && s'.rows == s.rows[f.version := RecordOf(f)] && s'.history == s.history + [f]
  }

  /** The shape of a step: one run changes, the table only in the lock holder's commit. */
  lemma StepShape(s: State, e: Event)
    requires Inv(s)
    ensures var s' := Step(s, e);
            && (forall o | o in s.runs && o != e.r :: o in s'.runs && s'.runs[o] == s.runs[o])
            && (forall o | o in s'.runs && o != e.r :: o in s.runs)
            && ((s'.rows == s.rows && s'.history == s.history) || Committed(s, s', e.r))
            && (s'.lock == s.lock || s.lock == Some(e.r) || s.lock == None)
            && (e.Start? && e.r !in s.runs ==> s'.runs[e.r] == Run(e.files, Waiting, []) && s'.lock == s.lock)
  {
    hide UpTo, Recorded, Drifted, HasUnknown;
    if e.r in s.runs {
      assert RunOk(s, e.r);
    }
  }

  lemma StepInv(s: State, e: Event)
    requires Inv(s)
    ensures Inv(Step(s, e))
  {
    hide Step, Recorded, UpTo;
    StepShape(s, e);
    var s' := Step(s, e);
    if s'.rows != s.rows {
      var f: File :| f.version !in s.rows && s'.rows == s.rows[f.version := RecordOf(f)] && s'.history == s.history + [f];
      RecordedCommit(s.rows, s.history, f);
    }
    forall o | o in s'.runs ensures RunOk(s', o) {
      if o != e.r {
        if e.r in s.runs {
          OthersOk(s, s', e.r, o);
        } else {
          StartOthers(s, e, o);
        }
      } else if e.Start? {
        StartOwn(s, e);
      } else {
        NoGhosts(s, e);
        OwnOk(s, e);
      }
    }
  }

  lemma StartOthers(s: State, e: Event, o: Runner)
    requires Inv(s) && e.r !in s.runs && o in s.runs && o != e.r
    ensures o in Step(s, e).runs && RunOk(Step(s, e), o)
  {
    hide UpTo, Recorded;
    assert RunOk(s, o);
  }

  lemma StartOwn(s: State, e: Event)
    requires Inv(s) && e.Start?
    ensures e.r in Step(s, e).runs && RunOk(Step(s, e), e.r)
  {
    hide UpTo, Recorded;
    if e.r in s.runs {
      assert RunOk(s, e.r);
    }
  }

  lemma NoGhosts(s: State, e: Event)
    requires !e.Start?
    ensures e.r in Step(s, e).runs ==> e.r in s.runs
  {
    hide Drifted, HasUnknown;
  }

  lemma {:induction false} RunsInv(s: State, es: seq<Event>)
    requires Inv(s)
    ensures Inv(RunAll(s, es))
  {
    hide Inv, Step;
    if es != [] {
      RunsInv(s, es[..|es| - 1]);
      StepInv(RunAll(s, es[..|es| - 1]), es[|es| - 1]);
    }
  }

  lemma EmptyInv()
    ensures Inv(EMPTY)
  {
  }

  /**
   * In every interleaving, with crashes: a version's SQL commits at most once, and exactly
   * when its row exists with its checksum; and at most one runner is past the lock.
   */
  lemma AtMostOnce(es: seq<Event>)
    ensures var s := RunAll(EMPTY, es);
            && Recorded(s.rows, s.history)
            && forall r, q | r in s.runs && q in s.runs && Inside(s.runs[r].phase) && Inside(s.runs[q].phase) :: r == q
  {
    hide RunAll, Recorded, UpTo;
    EmptyInv();
    RunsInv(EMPTY, es);
    var s := RunAll(EMPTY, es);
    forall r, q | r in s.runs && q in s.runs && Inside(s.runs[r].phase) && Inside(s.runs[q].phase) ensures r == q {
      assert RunOk(s, r) && RunOk(s, q);
    }
  }

  /** Drift or an unknown version refuses the run before it applies anything. */
  lemma RefusalAppliesNothing(es: seq<Event>, r: Runner)
    requires r in RunAll(EMPTY, es).runs
    requires RunAll(EMPTY, es).runs[r].phase in {Failed(Drift), Failed(Unknown)}
    ensures RunAll(EMPTY, es).runs[r].committed == []
  {
    hide RunAll, Recorded, UpTo;
    EmptyInv();
    RunsInv(EMPTY, es);
    assert RunOk(RunAll(EMPTY, es), r);
  }

  /** The applied set is the file set, checksum for checksum. */
  predicate Matches(rows: Rows, files: seq<File>) {
    && (forall v | v in rows :: v in Versions(files))
    && (forall i | 0 <= i < |files| :: files[i].version in rows && rows[files[i].version].checksum == files[i].checksum)
  }

  lemma UpToEnd(rows: Rows, seen: Rows, files: seq<File>)
    requires UpTo(rows, seen, files, |files|)
    ensures Matches(rows, files)
  {
    hide Drifted;
    forall v | v in rows ensures v in Versions(files) {
      if v !in seen {
        var i :| 0 <= i < |files| && files[i].version == v;
        assert Versions(files)[i] == v;
      }
    }
  }

  /** At the moment a run returns normally, the database has exactly its files applied. */
  lemma ReturnMeansApplied(es: seq<Event>, r: Runner)
    requires var s, s' := RunAll(EMPTY, es), Step(RunAll(EMPTY, es), Advance(r));
             r in s.runs && s.runs[r].phase.Applying? && s'.runs[r].phase.Returned?
    ensures var s' := Step(RunAll(EMPTY, es), Advance(r)); Matches(s'.rows, s'.runs[r].files) && s'.lock == None
  {
    hide RunAll, Recorded, Matches, UpTo;
    EmptyInv();
    RunsInv(EMPTY, es);
    var s := RunAll(EMPTY, es);
    assert RunOk(s, r);
    var phase := s.runs[r].phase;
    UpToBound(s.rows, phase.seen, s.runs[r].files, phase.at);
    assert phase.at == |s.runs[r].files|;
    UpToEnd(s.rows, phase.seen, s.runs[r].files);
  }

  lemma UpToBound(rows: Rows, seen: Rows, files: seq<File>, at: nat)
    requires UpTo(rows, seen, files, at)
    ensures at <= |files|
  {
    hide Drifted, HasUnknown;
  }

  /**
   * An edited migration is drift: a runner that reads the table with a file whose version was applied from a
   * text that does not read the same fails, and the lock is free again.
   */
  lemma EditedFileIsDrift(s: State, r: Runner, f: File, g: File)
    requires Inv(s) && r in s.runs && s.runs[r].phase.Locked?
    requires f in s.history && g in s.runs[r].files && g.version == f.version
    requires f.checksum == Checksum(f.sql) && g.checksum == Checksum(g.sql) && ReadAsLf(f.sql) != ReadAsLf(g.sql)
    ensures Step(s, ReadRows(r)).runs[r].phase == Failed(Drift) && Step(s, ReadRows(r)).lock == None
  {
    hide Checksum, ReadAsLf, UpTo, HasUnknown;
    ChecksumsAgreeIff(f.sql, g.sql);
    var files := s.runs[r].files;
    var i :| 0 <= i < |files| && files[i] == g;
    assert s.rows[f.version] == RecordOf(f);
    assert files[i].version in s.rows && s.rows[files[i].version].checksum != files[i].checksum;
    assert RunOk(s, r);
  }

  // --- one runner alone ---

  class Database {
    var rows: Rows
    ghost var history: seq<File>

    constructor ()
      ensures rows == map[] && history == []
    {
      rows, history := map[], [];
    }

    /** `failing` are the versions whose SQL the database refuses. */
    method RunMigrations(files: seq<File>, failing: set<Version>) returns (end: Phase)
      requires Migrate.Distinct(Versions(files))
      modifies this
      ensures EndsAs(end, old(rows), old(history), rows, history, files, failing)
    {
      hide Matches, UpTo, Drifted, HasUnknown, StoppedAt, Pending, Present;
      if Drifted(rows, files) {
        return Failed(Drift);
      }
      if HasUnknown(rows, files) {
        return Failed(Unknown);
      }
      ghost var was := history;
      var seen := rows;
      var applied, skipped := [], [];
      UpToStart(rows, files);
      StoppedFirst(rows, history, files, failing);
      for k := 0 to |files|
        invariant UpTo(rows, seen, files, k)
        invariant StoppedAt(seen, was, rows, history, files[..k], failing)
        invariant applied == Filenames(Pending(seen, files[..k])) && skipped == Filenames(Present(seen, files[..k]))
      {
        PendingSnoc(seen, files, k);
        StoppedNext(seen, was, rows, history, files, k, failing);
        if files[k].version in seen {
          UpToSkip(rows, seen, files, k);
          skipped := skipped + [files[k].filename];
          continue;
        }
        if files[k].version in failing {
          return Failed(Sql(files[k].version));
        }
        NotYet(rows, seen, files, k);
        UpToCommit(rows, seen, files, k);
        rows := rows[files[k].version := RecordOf(files[k])];
        history := history + [files[k]];
        applied := applied + [files[k].filename];
      }
      assert files[..|files|] == files;
      UpToEnd(rows, seen, files);
      return Returned(Report(applied, skipped));
    }
  }

  /**
   * How a run over `files` ends: refused with nothing changed, for drift or an unknown version; stopped at a file
   * that fails, with exactly the pending ones before it applied and recorded; or with all of them.
   */
  predicate EndsAs(
    end: Phase, before: Rows, was: seq<File>, rows: Rows, history: seq<File>, files: seq<File>, failing: set<Version>)
  {
    match end
    case Failed(Drift) => Drifted(before, files) && rows == before && history == was
    case Failed(Unknown) => !Drifted(before, files) && HasUnknown(before, files) && rows == before && history == was
    case Failed(Sql(v)) =>
      && !Drifted(before, files) && !HasUnknown(before, files) && v in failing && v !in before
      && exists k | 0 <= k < |files| && files[k].version == v :: StoppedAt(before, was, rows, history, files[..k], failing)
    case Returned(report) =>
      && !Drifted(before, files) && !HasUnknown(before, files) && Matches(rows, files)
      && StoppedAt(before, was, rows, history, files, failing)
      && report == Report(Filenames(Pending(before, files)), Filenames(Present(before, files)))
    case _ => false
  }

  /** The table with a row for each of the files. */
  function WithRecords(rows: Rows, fs: seq<File>): Rows {
    if fs == [] then rows
    else
      var f := fs[|fs| - 1];
      WithRecords(rows, fs[..|fs| - 1])[f.version := RecordOf(f)]
  }

  /** Exactly the pending ones of `done` were applied, each with its row, and none of them fails. */
  predicate StoppedAt(before: Rows, was: seq<File>, rows: Rows, history: seq<File>, done: seq<File>, failing: set<Version>) {
    && history == was + Pending(before, done)
    && rows == WithRecords(before, Pending(before, done))
    && forall f | f in Pending(before, done) :: f.version !in failing
  }

  lemma StoppedFirst(before: Rows, was: seq<File>, files: seq<File>, failing: set<Version>)
    ensures StoppedAt(before, was, before, was, files[..0], failing)
    ensures Pending(before, files[..0]) == [] && Present(before, files[..0]) == []
  {
    assert was + [] == was;
  }

  /** The next file, skipped or applied. */
  lemma StoppedNext(before: Rows, was: seq<File>, rows: Rows, history: seq<File>, files: seq<File>, k: nat, failing: set<Version>)
    requires k < |files| && StoppedAt(before, was, rows, history, files[..k], failing)
    ensures var f := files[k];
            if f.version in before then StoppedAt(before, was, rows, history, files[..k + 1], failing)
            else f.version !in failing ==>
              StoppedAt(before, was, rows[f.version := RecordOf(f)], history + [f], files[..k + 1], failing)
  {
    hide Pending, Present;
    PendingSnoc(before, files, k);
    var p, f := Pending(before, files[..k]), files[k];
    if f.version in before {
      assert p + [] == p;
    } else {
      assert (p + [f])[..|p|] == p && was + (p + [f]) == was + p + [f];
    }
  }

  /** The files not applied yet, in order; and those that are. */
  function Pending(rows: Rows, files: seq<File>): seq<File> {
    if files == [] then []
    else
      var f := files[|files| - 1];
      Pending(rows, files[..|files| - 1]) + (if f.version in rows then [] else [f])
  }

  function Present(rows: Rows, files: seq<File>): seq<File> {
    if files == [] then []
    else
      var f := files[|files| - 1];
      Present(rows, files[..|files| - 1]) + (if f.version in rows then [f] else [])
  }

  lemma PendingSnoc(rows: Rows, files: seq<File>, k: nat)
    requires k < |files|
    ensures Pending(rows, files[..k + 1]) == Pending(rows, files[..k]) + (if files[k].version in rows then [] else [files[k]])
    ensures Present(rows, files[..k + 1]) == Present(rows, files[..k]) + (if files[k].version in rows then [files[k]] else [])
  {
    assert files[..k + 1][..k] == files[..k];
  }

  lemma NotYet(rows: Rows, seen: Rows, files: seq<File>, k: nat)
    requires UpTo(rows, seen, files, k) && k < |files| && files[k].version !in seen && Migrate.Distinct(Versions(files))
    ensures files[k].version !in rows
  {
    hide Drifted, HasUnknown;
    forall i | 0 <= i < k ensures files[i].version != files[k].version {
      assert Versions(files)[i] != Versions(files)[k];
    }
  }

  /** A run over a database that has exactly its files applied applies nothing. */
  lemma {:induction false} RerunAppliesNothing(rows: Rows, files: seq<File>, k: nat)
    requires Matches(rows, files) && k <= |files|
    ensures !Drifted(rows, files) && !HasUnknown(rows, files)
    ensures Pending(rows, files[..k]) == [] && Present(rows, files[..k]) == files[..k]
    decreases k
  {
    if k > 0 {
      RerunAppliesNothing(rows, files, k - 1);
      PendingSnoc(rows, files, k - 1);
      assert files[..k] == files[..k - 1] + [files[k - 1]];
    }
  }
}
