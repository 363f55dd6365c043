/**
 * The versioned secrets of one project: packages/secrets/src/index.ts over the table
 * of migrations/20260831110000_t5e_credentials.sql. Encryption is the identity here.
 */
module Secrets {
  import opened Text
  import opened Sets

  type Name = string

  datatype RowState = Active | Retiring

  datatype Row = Row(value: string, state: RowState)

  /** The rows of one name, by version: `(name, version)` is unique. */
  type Versions = map<nat, Row>

  type Table = map<Name, Versions>

  function Rows(t: Table, n: Name): Versions {
    if n in t then t[n] else map[]
  }

  predicate HasActive(vs: Versions) {
    exists v | v in vs :: vs[v].state == Active
  }

  /** The highest version, or 0: `COALESCE(max(version), 0)`. */
  ghost function Top(vs: Versions): (r: nat)
    ensures forall v | v in vs :: v <= r
    ensures if vs == map[] then r == 0 else r in vs
    decreases |vs|
  {
    if vs == map[] then 0
    else
      var v := AnyOf(vs.Keys);
      var rest := Top(vs - {v});
      assert forall w | w in vs :: w == v || w in vs - {v};
      if rest > v then rest else v
  }

  lemma TopIs(vs: Versions, v: nat)
    requires v in vs && forall w | w in vs :: w <= v
    ensures Top(vs) == v
  {
  }

  // --- operations ---

  ghost function Get(t: Table, n: Name): Option<string> {
    var vs := Rows(t, n);
    if HasActive(vs) then
      var v :| v in vs && vs[v].state == Active;
      Some(vs[v].value)
    else None
  }

  datatype Outcome<T> = Ok(value: T) | UniqueViolation

  /** `INSERT … ON CONFLICT (project_id, name, version) DO NOTHING` of version 1, active. */
  function Put(t: Table, n: Name, value: string): Outcome<Table> {
    var vs := Rows(t, n);
    if 1 in vs then Ok(t)
    else if HasActive(vs) then UniqueViolation
    else Ok(t[n := vs[1 := Row(value, Active)]])
  }

  /** `ensure`'s insert, which any conflict turns into nothing; and whether it inserted. */
  function Insert(t: Table, n: Name, value: string): (Table, bool) {
    var vs := Rows(t, n);
    if 1 in vs || HasActive(vs) then (t, false) else (t[n := vs[1 := Row(value, Active)]], true)
  }

  function Demoted(vs: Versions): (r: Versions)
    ensures r.Keys == vs.Keys
  {
    map v | v in vs :: if vs[v].state == Active then vs[v].(state := Retiring) else vs[v]
  }

  /** `replace`, and `rotate` with a generated value: demote, then insert one past the highest version. */
  ghost function Replace(t: Table, n: Name, value: string): Table {
    var vs := Rows(t, n);
    t[n := Demoted(vs)[Top(vs) + 1 := Row(value, Active)]]
  }

  /** Which retiring rows are old enough is the clock's choice. */
  function PurgeVersions(vs: Versions, aged: set<nat>): Versions {
    map v | v in vs && !(vs[v].state == Retiring && v in aged) :: vs[v]
  }

  function Purge(t: Table, aged: map<Name, set<nat>>): Table {
    map n | n in t :: if n in aged then PurgeVersions(t[n], aged[n]) else t[n]
  }

  // --- the invariant ---

  /** A name with rows has exactly one active row, and it is the highest version. */
  ghost predicate WfRows(vs: Versions) {
    forall v | v in vs :: v >= 1 && (vs[v].state == Active <==> v == Top(vs))
  }

  ghost predicate Wf(t: Table) {
    forall n | n in t :: WfRows(t[n])
  }

  lemma ActiveIsTop(vs: Versions)
    requires WfRows(vs)
    ensures HasActive(vs) <==> vs != map[]
    ensures HasActive(vs) ==> vs[Top(vs)].state == Active
  {
    hide Top;
    if vs != map[] {
      assert vs[Top(vs)].state == Active;
    }
  }

  lemma GetIs(t: Table, n: Name)
    requires WfRows(Rows(t, n))
    ensures Get(t, n) == if Rows(t, n) == map[] then None else Some(Rows(t, n)[Top(Rows(t, n))].value)
  {
    hide Top, Rows;
    ActiveIsTop(Rows(t, n));
  }

  /** Never two active rows. */
  lemma OneActive(t: Table, n: Name, v: nat, w: nat)
    requires Wf(t) && v in Rows(t, n) && w in Rows(t, n)
    requires Rows(t, n)[v].state == Active && Rows(t, n)[w].state == Active
    ensures v == w && forall u | u in Rows(t, n) :: u <= v
  {
    hide Top;
    assert WfRows(Rows(t, n));
  }

  lemma FirstVersionWf(vs: Versions, value: string)
    requires vs == map[]
    ensures WfRows(vs[1 := Row(value, Active)])
  {
    TopIs(vs[1 := Row(value, Active)], 1);
  }

  lemma RowsWf(t: Table, n: Name)
    requires Wf(t)
    ensures WfRows(Rows(t, n))
  {
    hide Top;
  }

  lemma InsertWf(t: Table, n: Name, value: string)
    requires Wf(t)
    ensures Wf(Insert(t, n, value).0)
  {
    hide WfRows, HasActive;
    RowsWf(t, n);
    ActiveIsTop(Rows(t, n));
    FirstVersionWf(map[], value);
  }

  lemma PutWf(t: Table, n: Name, value: string)
    requires Wf(t)
    ensures Put(t, n, value).Ok? ==> Wf(Put(t, n, value).value) && Put(t, n, value).value == Insert(t, n, value).0
  {
    InsertWf(t, n, value);
  }

  lemma ReplaceWf(t: Table, n: Name, value: string)
    requires Wf(t)
    ensures Wf(Replace(t, n, value))
    ensures Top(Rows(Replace(t, n, value), n)) == Top(Rows(t, n)) + 1
  {
    hide Top;
    var vs, vs' := Rows(t, n), Rows(Replace(t, n, value), n);
    RowsWf(t, n);
    TopIs(vs', Top(vs) + 1);
    forall v | v in vs' ensures v >= 1 && (vs'[v].state == Active <==> v == Top(vs')) {
      assert v == Top(vs) + 1 || v in vs;
    }
  }

  lemma PurgeRowsWf(vs: Versions, aged: set<nat>)
    requires WfRows(vs)
    ensures WfRows(PurgeVersions(vs, aged))
    ensures Top(PurgeVersions(vs, aged)) == Top(vs)
    ensures PurgeVersions(vs, aged) == map[] <==> vs == map[]
    ensures vs != map[] ==> Top(vs) in PurgeVersions(vs, aged) && PurgeVersions(vs, aged)[Top(vs)] == vs[Top(vs)]
  {
    hide Top;
    var vs' := PurgeVersions(vs, aged);
    if vs != map[] {
      assert vs[Top(vs)].state == Active;
      TopIs(vs', Top(vs));
    } else {
      assert vs' == map[];
    }
  }

  lemma PurgeWf(t: Table, aged: map<Name, set<nat>>)
    requires Wf(t)
    ensures Wf(Purge(t, aged))
  {
    hide WfRows, PurgeVersions;
    forall n | n in Purge(t, aged) ensures WfRows(Purge(t, aged)[n]) {
      if n in aged {
        PurgeRowsWf(t[n], aged[n]);
      }
    }
  }

  // --- what each operation does to the active value ---

  /** Create-if-absent: an existing value stays, and so does every other name. */
  lemma InsertGet(t: Table, n: Name, value: string, m: Name)
    requires Wf(t)
    ensures Get(Insert(t, n, value).0, m) == if m == n && Get(t, n).None? then Some(value) else Get(t, m)
    ensures Insert(t, n, value).1 == Get(t, n).None?
  {
    hide WfRows, HasActive, Get, Top;
    var t' := Insert(t, n, value).0;
    InsertWf(t, n, value);
    RowsWf(t, n);
    RowsWf(t, m);
    RowsWf(t', m);
    ActiveIsTop(Rows(t, n));
    GetIs(t, n);
    GetIs(t, m);
    GetIs(t', m);
    TopIs(map[1 := Row(value, Active)], 1);
  }

  /**
   * `put` is said to succeed silently on an existing name. It does exactly when the
   * name is new or its first version has not been purged; otherwise the insert
   * breaks the one-active index and the call fails.
   */
  lemma PutSucceedsIff(t: Table, n: Name, value: string)
    requires Wf(t)
    ensures Put(t, n, value).Ok? <==> (Get(t, n).None? || 1 in Rows(t, n))
    ensures Put(t, n, value).Ok? ==>
      forall m :: Get(Put(t, n, value).value, m) == if m == n && Get(t, n).None? then Some(value) else Get(t, m)
  {
    hide WfRows, Get, Top;
    RowsWf(t, n);
    GetIs(t, n);
    ActiveIsTop(Rows(t, n));
    PutWf(t, n, value);
    forall m ensures Get(Insert(t, n, value).0, m) == if m == n && Get(t, n).None? then Some(value) else Get(t, m) {
      InsertGet(t, n, value, m);
    }
  }

  /** A name that is new, or has a first version only, has a first version only once it is put. */
  lemma PutFirst(t: Table, n: Name, value: string)
    requires Wf(t) && (Get(t, n).None? || Top(Rows(t, n)) == 1)
    ensures Put(t, n, value).Ok? && Top(Rows(Put(t, n, value).value, n)) == 1
  {
    hide WfRows, Get, Top;
    RowsWf(t, n);
    GetIs(t, n);
    ActiveIsTop(Rows(t, n));
    TopIn(Rows(t, n));
    if Get(t, n).None? {
      TopIs(map[1 := Row(value, Active)], 1);
      assert Rows(t, n)[1 := Row(value, Active)] == map[1 := Row(value, Active)];
    }
  }

  lemma TopIn(vs: Versions)
    ensures vs != map[] ==> Top(vs) in vs
    ensures vs == map[] ==> Top(vs) == 0
  {
  }

  lemma ReplaceGet(t: Table, n: Name, value: string, m: Name)
    requires Wf(t)
    ensures Get(Replace(t, n, value), m) == if m == n then Some(value) else Get(t, m)
  {
    hide WfRows, HasActive, Get, Top;
    ReplaceWf(t, n, value);
    RowsWf(t, m);
    RowsWf(Replace(t, n, value), m);
    GetIs(t, m);
    GetIs(Replace(t, n, value), m);
  }

  lemma PurgeGet(t: Table, aged: map<Name, set<nat>>, m: Name)
    requires Wf(t)
    ensures Get(Purge(t, aged), m) == Get(t, m)
    ensures Top(Rows(Purge(t, aged), m)) == Top(Rows(t, m))
  {
    hide WfRows, HasActive, Get, Top, PurgeVersions;
    PurgeWf(t, aged);
    RowsWf(t, m);
    RowsWf(Purge(t, aged), m);
    GetIs(t, m);
    GetIs(Purge(t, aged), m);
    if m in t && m in aged {
      PurgeRowsWf(t[m], aged[m]);
    }
  }

  /** After a first replacement and a purge of the demoted row, `put` on the name fails. */
  lemma PutFailsAfterPurge(n: Name, a: string, b: string, c: string)
    ensures var t := Purge(Replace(Replace(map[], n, a), n, b), map[n := {1}]);
            Put(t, n, c) == UniqueViolation
  {
    hide Top;
    var t1: Table := Replace(map[], n, a);
    assert Wf(map[]);
    ReplaceWf(map[], n, a);
    TopIs(Rows(t1, n), Top(Rows(t1, n)));
    var t2: Table := Replace(t1, n, b);
    assert Top(Rows(t1, n)) == 1 && Rows(t2, n)[2] == Row(b, Active) && Rows(t2, n)[1] == Row(a, Retiring);
    var vs := Rows(Purge(t2, map[n := {1}]), n);
    assert 1 !in vs && vs[2] == Row(b, Active);
  }
}
