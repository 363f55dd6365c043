/** A runner with no other at work: the steps of the protocol end as the function that it is written as. */
module MigrateAlone {
  import opened Text
  import opened Migrate
  import opened MigrateRuns

  lemma {:induction false} RunAppend(s: State, xs: seq<Event>, ys: seq<Event>)
    ensures RunAll(s, xs + ys) == RunAll(RunAll(s, xs), ys)
    decreases |ys|
  {
    hide Step;
    if ys == [] {
      assert xs + ys == xs;
    } else {
      var front := ys[..|ys| - 1];
      assert (xs + ys)[..|xs + ys| - 1] == xs + front;
      RunAppend(s, xs, front);
    }
  }

  lemma RunOne(s: State, e: Event)
    ensures RunAll(s, [e]) == Step(s, e)
  {
    hide Step;
    assert RunAll(s, [e][..0]) == s;
  }

  /** The runner `r` is past `k` files, having applied what was pending of them. */
  predicate Under(s: State, r: Runner, was: seq<File>, files: seq<File>, failing: set<Version>, seen: Rows, k: nat) {
    && r in s.runs && s.runs[r].files == files && s.lock == Some(r) && k <= |files|
    && s.runs[r].phase == Applying(seen, k, Report(Filenames(Pending(seen, files[..k])), Filenames(Present(seen, files[..k]))))
    && UpTo(s.rows, seen, files, k) && StoppedAt(seen, was, s.rows, s.history, files[..k], failing)
  }

  /** The events of one file. */
  lemma OneFile(s: State, r: Runner, was: seq<File>, files: seq<File>, failing: set<Version>, seen: Rows, k: nat)
    returns (es: seq<Event>)
    requires Under(s, r, was, files, failing, seen, k) && k < |files| && Migrate.Distinct(Versions(files))
    ensures var t := RunAll(s, es);
            if files[k].version in seen || files[k].version !in failing then Under(t, r, was, files, failing, seen, k + 1)
            else
              && r in t.runs && t.runs[r].phase == Failed(Sql(files[k].version)) && t.lock == None
              && t.rows == s.rows && t.history == s.history
  {
    hide UpTo, StoppedAt, Pending, Present, RunAll;
    var f := files[k];
    PendingSnoc(seen, files, k);
    StoppedNext(seen, was, s.rows, s.history, files, k, failing);
    RunOne(s, Advance(r));
    var u := Step(s, Advance(r));
    if f.version in seen {
      es := [Advance(r)];
      UpToSkip(s.rows, seen, files, k);
    } else {
      var ok := f.version !in failing;
      es := [Advance(r)] + [Commit(r, ok)];
      RunAppend(s, [Advance(r)], [Commit(r, ok)]);
      RunOne(u, Commit(r, ok));
      NotYet(s.rows, seen, files, k);
      if ok {
        UpToCommit(s.rows, seen, files, k);
      }
    }
  }

  lemma {:induction false} Rest(s: State, r: Runner, was: seq<File>, files: seq<File>, failing: set<Version>, seen: Rows, k: nat)
    returns (es: seq<Event>)
    requires Under(s, r, was, files, failing, seen, k) && Migrate.Distinct(Versions(files))
    ensures var t := RunAll(s, es);
            && r in t.runs && t.lock == None
            && EndsAs(t.runs[r].phase, seen, was, t.rows, t.history, files, failing)
    decreases |files| - k
  {
    hide UpTo, StoppedAt, Pending, Present, RunAll, Drifted, HasUnknown, Matches;
    NotRefused(s, seen, files, k);
    if k == |files| {
      es := [Advance(r)];
      RunOne(s, Advance(r));
      assert files[..k] == files;
      UpToEnd(s.rows, seen, files);
    } else {
      var first := OneFile(s, r, was, files, failing, seen, k);
      var u := RunAll(s, first);
      if files[k].version in seen || files[k].version !in failing {
        var rest := Rest(u, r, was, files, failing, seen, k + 1);
        es := first + rest;
        RunAppend(s, first, rest);
      } else {
        es := first;
      }
    }
  }

  lemma NotRefused(s: State, seen: Rows, files: seq<File>, k: nat)
    requires UpTo(s.rows, seen, files, k)
    ensures !Drifted(seen, files) && !HasUnknown(seen, files)
  {
    hide Drifted, HasUnknown;
  }

  /** Run with no one in between, a new runner waits for no one, ends as the function does, and frees the lock. */
  lemma AloneEnds(s: State, r: Runner, files: seq<File>, failing: set<Version>) returns (es: seq<Event>)
    requires r !in s.runs && s.lock == None && Migrate.Distinct(Versions(files))
    ensures var t := RunAll(s, es);
            && r in t.runs && t.lock == None
            && EndsAs(t.runs[r].phase, s.rows, s.history, t.rows, t.history, files, failing)
  {
    hide UpTo, StoppedAt, Pending, Present, RunAll, Drifted, HasUnknown, Matches;
    var head := [Start(r, files)] + [Acquire(r)] + [ReadRows(r)];
    RunOne(s, Start(r, files));
    RunAppend(s, [Start(r, files)], [Acquire(r)]);
    RunOne(Step(s, Start(r, files)), Acquire(r));
    RunAppend(s, [Start(r, files)] + [Acquire(r)], [ReadRows(r)]);
    RunOne(Step(Step(s, Start(r, files)), Acquire(r)), ReadRows(r));
    var u := RunAll(s, head);
    if Drifted(s.rows, files) || HasUnknown(s.rows, files) {
      es := head;
    } else {
      UpToStart(s.rows, files);
      StoppedFirst(s.rows, s.history, files, failing);
      NoNames();
      assert files[..0] == [];
      var rest := Rest(u, r, s.history, files, failing, s.rows, 0);
      es := head + rest;
      RunAppend(s, head, rest);
    }
  }

  lemma NoNames()
    ensures Filenames([]) == []
  {
  }
}
