/**
 * Destroying a backup repository: services/worker/src/repo-destroy.ts over a store that may refuse any key of
 * a batch and fail any request, while others write to it.
 */
module RepoDestroy {
  import opened Text
  import opened Sets
  import opened ObjectStore

  /** `repo_path` without its leading slash, and closed by one. */
  function PrefixOf(path: string): string {
    (if path != "" && path[0] == '/' then path[1..] else path) + "/"
  }

  const PROJECTS := "projects/"

  function RepoPathFor(project: string): string {
    "/" + (PROJECTS + project)
  }

  predicate NoSlash(s: string) {
    '/' !in s
  }

  lemma PrefixIs(project: string)
    ensures PrefixOf(RepoPathFor(project)) == PROJECTS + (project + "/")
  {
    assert RepoPathFor(project)[1..] == PROJECTS + project;
  }

  lemma {:induction false} SlashEnds(a: string, b: string, s: string, t: string)
    requires NoSlash(a) && NoSlash(b) && a + "/" + s == b + "/" + t
    ensures a == b
  {
    var x, y := a + "/" + s, b + "/" + t;
    assert x[0] == if a == "" then '/' else a[0];
    assert y[0] == if b == "" then '/' else b[0];
    assert (a != "" ==> a[0] in a) && (b != "" ==> b[0] in b);
    if a != "" {
      assert x[1..] == a[1..] + "/" + s && y[1..] == b[1..] + "/" + t;
      SlashEnds(a[1..], b[1..], s, t);
      assert a == [a[0]] + a[1..] && b == [b[0]] + b[1..];
    }
  }

  /** Two projects' prefixes have no key in common, even when one id begins the other. */
  lemma PrefixesApart(a: string, b: string, key: Key)
    requires NoSlash(a) && NoSlash(b)
    requires PrefixOf(RepoPathFor(a)) <= key && PrefixOf(RepoPathFor(b)) <= key
    ensures a == b
  {
    PrefixIs(a);
    PrefixIs(b);
    var n, rest := |PROJECTS|, key[|PROJECTS|..];
    assert key == PROJECTS + (a + "/") + key[n + |a| + 1..] && key == PROJECTS + (b + "/") + key[n + |b| + 1..];
    assert rest == a + "/" + key[n + |a| + 1..] && rest == b + "/" + key[n + |b| + 1..];
    SlashEnds(a, b, key[n + |a| + 1..], key[n + |b| + 1..]);
  }

  /** The keys outside the prefix. */
  function Beside(keys: set<Key>, prefix: string): set<Key> {
    set k | k in keys && !(prefix <= k)
  }

  const ROUNDS := 200

  // --- what a stretch of requests removes ---

  /** Each request from `i` on removes only keys under the prefix. */
  ghost predicate Spares(history: seq<Moment>, i: nat, prefix: string) {
    forall n | i <= n < |history| :: OnlyUnder(history[n], prefix)
  }

  predicate OnlyUnder(m: Moment, prefix: string) {
    m.after <= m.before && forall k | k in m.before && k !in m.after :: prefix <= k
  }

  lemma TakesOn(h: seq<Moment>, h': seq<Moment>, i: nat, a: set<Key>, b: set<Key>, c: set<Key>)
    requires i <= |h| && h <= h' && a <= c && b <= c && TakesSince(h, i, a) && TakesSince(h', |h|, b)
    ensures TakesSince(h', i, c)
  {
    forall n | i <= n < |h'| ensures Takes(h'[n], c) {
      if n < |h| {
        assert h'[n] == h[n] && Takes(h[n], a);
      }
    }
  }

  lemma SparesOn(h: seq<Moment>, h': seq<Moment>, i: nat, prefix: string, ks: set<Key>)
    requires i <= |h| && h <= h' && Spares(h, i, prefix) && TakesSince(h', |h|, ks) && forall k | k in ks :: prefix <= k
    ensures Spares(h', i, prefix)
  {
    forall n | i <= n < |h'| ensures OnlyUnder(h'[n], prefix) {
      if n < |h| {
        assert h'[n] == h[n] && OnlyUnder(h[n], prefix);
      } else {
        assert Takes(h'[n], ks);
        forall k | k in h'[n].before && k !in h'[n].after ensures prefix <= k {
          assert k in h'[n].before - h'[n].after;
        }
      }
    }
  }

  lemma SparesNone(history: seq<Moment>, prefix: string)
    ensures Spares(history, |history|, prefix)
  {
  }

  lemma NoKeys()
    ensures forall ks: seq<Key> :: KeysOf(ks[..0]) == {}
  {
  }

  lemma DownEarlier(down: nat -> bool, i: nat, j: nat, n: nat)
    requires i <= j
    ensures DownSince(down, j, n) ==> DownSince(down, i, n)
  {
  }

  lemma DownOn(down: nat -> bool, i: nat, j: nat, n: nat, m: nat)
    requires i <= j <= n <= m && DownSince(down, j, n)
    ensures DownSince(down, i, m)
  {
  }

  lemma KeysInside(ks: seq<Key>, i: nat, j: nat)
    requires i <= j <= |ks|
    ensures KeysOf(ks[..j]) == KeysOf(ks[..i]) + KeysOf(ks[i..j]) && KeysOf(ks[i..j]) <= KeysOf(ks)
    ensures Unrepeated(ks) ==> Unrepeated(ks[i..j])
  {
    assert ks[..j] == ks[..i] + ks[i..j] && ks == ks[..j] + ks[j..];
    KeysAppend(ks[..i], ks[i..j]);
    KeysAppend(ks[..j], ks[j..]);
  }

  /** Everything a listing returned is under its prefix. */
  lemma ListedUnder(history: seq<Moment>, i: nat, prefix: string, ks: seq<Key>)
    requires Listed(history, i, prefix, ks)
    ensures Unrepeated(ks) && forall k | k in KeysOf(ks) :: prefix <= k
  {
    hide KeysOf, Ascending, Unrepeated;
    forall k | k in KeysOf(ks) ensures prefix <= k {
      assert Sometime(history, i, prefix, k);
    }
  }

  /** A key under the prefix was met at some request from `i` on. */
  ghost predicate Met(history: seq<Moment>, i: nat, prefix: string) {
    exists n | i <= n < |history| :: Under(history[n].before, prefix) != {}
  }

  lemma ListedMet(history: seq<Moment>, i: nat, j: nat, prefix: string, ks: seq<Key>)
    requires i <= j && Listed(history, j, prefix, ks) && ks != []
    ensures Met(history, i, prefix)
  {
    hide Ascending, Unrepeated;
    assert ks[0] in KeysOf(ks);
    assert Sometime(history, j, prefix, ks[0]);
    var n :| j <= n < |history| && ks[0] in history[n].before;
    assert ks[0] in Under(history[n].before, prefix);
  }
  lemma SweptBeside(before: set<Key>, after: set<Key>, prefix: string)
    requires before - Under(before, prefix) <= after <= before
    ensures Beside(after, prefix) == Beside(before, prefix)
  {
  }

  lemma SweptUnder(before: set<Key>, after: set<Key>, prefix: string)
    requires after == before - Under(before, prefix)
    ensures Under(after, prefix) == {}
  {
  }

  function Prefix(project: string): string {
    PrefixOf(RepoPathFor(project))
  }

  /** Emptying one project's prefix keeps another's. */
  lemma OtherUnder(before: set<Key>, after: set<Key>, a: string, b: string)
    requires NoSlash(a) && NoSlash(b) && a != b && Beside(after, Prefix(a)) == Beside(before, Prefix(a)) && after <= before
    ensures Under(after, Prefix(b)) == Under(before, Prefix(b))
  {
    hide Prefix;
    forall k | k in Under(before, Prefix(b)) ensures k in after {
      Apart(a, b, k);
      assert k in Beside(before, Prefix(a));
    }
  }

  lemma Apart(a: string, b: string, k: Key)
    requires NoSlash(a) && NoSlash(b) && a != b && Prefix(b) <= k
    ensures !(Prefix(a) <= k)
  {
    hide PrefixOf, RepoPathFor, NoSlash;
    if Prefix(a) <= k {
      PrefixesApart(a, b, k);
      assert false;
    }
  }

  /** The prefix was once empty at a request from `i` on. */
  ghost predicate ProvedEmpty(history: seq<Moment>, i: nat, prefix: string) {
    exists n | i <= n < |history| :: Under(history[n].before, prefix) == {}
  }

  lemma ListedEmpty(h: seq<Moment>, i: nat, prefix: string)
    requires i < |h| && Listed(h, |h| - 1, prefix, [])
    ensures ProvedEmpty(h, i, prefix)
  {
  }

  lemma EmptyOn(h: seq<Moment>, h': seq<Moment>, i: nat, prefix: string)
    requires h <= h' && ProvedEmpty(h, i, prefix)
    ensures ProvedEmpty(h', i, prefix)
  {
    hide Under;
    var n :| i <= n < |h| && Under(h[n].before, prefix) == {};
    assert h'[n] == h[n];
  }

  lemma MetOn(h: seq<Moment>, h': seq<Moment>, i: nat, j: nat, prefix: string)
    requires i <= j && h <= h' && Met(h, j, prefix)
    ensures Met(h', i, prefix)
  {
    hide Under;
    var n :| j <= n < |h| && Under(h[n].before, prefix) != {};
    assert h'[n] == h[n];
  }

  /** No request from `i` on removes a key of the project. */
  ghost predicate Untouched(history: seq<Moment>, i: nat, q: string) {
    forall n | i <= n < |history| :: Under(history[n].after, Prefix(q)) == Under(history[n].before, Prefix(q))
  }

  lemma UntouchedOn(h: seq<Moment>, h': seq<Moment>, i: nat, p: string, q: string)
    requires NoSlash(p) && NoSlash(q) && p != q
    requires i <= |h| && h <= h' && Untouched(h, i, q) && Spares(h', |h|, Prefix(p))
    ensures Untouched(h', i, q)
  {
    hide Prefix, NoSlash;
    forall n | i <= n < |h'| ensures Under(h'[n].after, Prefix(q)) == Under(h'[n].before, Prefix(q)) {
      if n < |h| {
        assert h'[n] == h[n];
      } else {
        SparedKeys(h'[n], p, q);
      }
    }
  }

  lemma SparedKeys(m: Moment, p: string, q: string)
    requires NoSlash(p) && NoSlash(q) && p != q && OnlyUnder(m, Prefix(p))
    ensures Under(m.after, Prefix(q)) == Under(m.before, Prefix(q))
  {
    hide Prefix, NoSlash;
    forall k | k in Under(m.before, Prefix(q)) ensures k in m.after {
      Apart(p, q, k);
    }
  }

  /** The sweep over the repositories that are due, and what it records of each. */
  class Sweeper {
    const store: Store
    var destroyedAt: map<string, nat>

    constructor (store: Store)
      ensures this.store == store && destroyedAt == map[]
    {
      this.store := store;
      destroyedAt := map[];
    }

    /** One batch and the retry of its residue. */
    method DeleteAll(batch: seq<Key>) returns (deleted: Option<nat>)
      requires store.Valid() && Unrepeated(batch) && |batch| <= BATCH
      modifies store`keys, store`requests, store`history
      ensures store.Valid() && old(store.history) <= store.history
      ensures TakesSince(store.history, old(store.requests), KeysOf(batch))
      ensures deleted.Some? ==> deleted.value == |batch|
      ensures deleted.None? ==> DownSince(store.down, old(store.requests), store.requests)
      ensures store.Quiet() ==> old(store.keys) - KeysOf(batch) <= store.keys <= old(store.keys)
      ensures store.Quiet() && deleted.Some? ==> store.keys == old(store.keys) - KeysOf(batch)
    {
      hide KeysOf, Takes;
      var failed := store.DeleteBatch(batch);
      if failed.None? {
        assert store.down(store.requests - 1);
        return None;
      }
      DistinctCount(batch);
      DistinctCount(failed.value);
      SubsetSize(KeysOf(failed.value), KeysOf(batch));
      var count := |batch| - |failed.value|;
      ghost var after := store.keys;
      NoKeys();
      for i := 0 to |failed.value|
        invariant store.Valid() && old(store.history) <= store.history
        invariant TakesSince(store.history, old(store.requests), KeysOf(batch))
        invariant count == |batch| - |failed.value| + i
        invariant KeysOf(failed.value[..i]) <= KeysOf(failed.value)
        invariant store.Quiet() ==> store.keys == after - KeysOf(failed.value[..i])
      {
        KeysSnoc(failed.value, i);
        KeysInside(failed.value, 0, i + 1);
        ghost var earlier := store.history;
        var ok := store.DeleteObject(failed.value[i]);
        TakesOn(earlier, store.history, old(store.requests), KeysOf(batch), {failed.value[i]}, KeysOf(batch));
        if !ok {
          assert store.down(store.requests - 1);
          return None;
        }
        count := count + 1;
      }
      assert failed.value[..|failed.value|] == failed.value;
      return Some(count);
    }

    /** One round: every listed key, a thousand at a time. */
    method Sweep(ks: seq<Key>) returns (deleted: Option<nat>)
      requires store.Valid() && Unrepeated(ks)
      modifies store`keys, store`requests, store`history
      ensures store.Valid() && old(store.history) <= store.history
      ensures TakesSince(store.history, old(store.requests), KeysOf(ks))
      ensures deleted.Some? ==> deleted.value == |ks|
      ensures deleted.None? ==> DownSince(store.down, old(store.requests), store.requests)
      ensures store.Quiet() ==> old(store.keys) - KeysOf(ks) <= store.keys <= old(store.keys)
      ensures store.Quiet() && deleted.Some? ==> store.keys == old(store.keys) - KeysOf(ks)
    {
      hide KeysOf, Takes;
      var i, count := 0, 0;
      NoKeys();
      while i < |ks|
        invariant i <= |ks| && count == i
        invariant store.Valid() && old(store.history) <= store.history
        invariant TakesSince(store.history, old(store.requests), KeysOf(ks))
        invariant store.Quiet() ==> store.keys == old(store.keys) - KeysOf(ks[..i])
        decreases |ks| - i
      {
        var j := if i + BATCH <= |ks| then i + BATCH else |ks|;
        KeysInside(ks, i, j);
        KeysInside(ks, 0, j);
        ghost var earlier := store.history;
        var done := DeleteAll(ks[i..j]);
        TakesOn(earlier, store.history, old(store.requests), KeysOf(ks), KeysOf(ks[i..j]), KeysOf(ks));
        if done.None? {
          return None;
        }
        i, count := j, count + done.value;
      }
      assert ks[..|ks|] == ks;
      return Some(count);
    }

    /** A listing between the requests of one destruction, which began at the request `from`. */
    method ListUnder(prefix: string, ghost from: nat) returns (r: Option<seq<Key>>)
      requires store.Valid() && from <= store.requests && Spares(store.history, from, prefix)
      modifies store`keys, store`requests, store`history
      ensures store.Valid() && old(store.history) <= store.history && store.requests > old(store.requests)
      ensures Spares(store.history, from, prefix)
      ensures r.Some? ==> Listed(store.history, old(store.requests), prefix, r.value)
      ensures r.Some? && r.value == [] ==> store.requests == old(store.requests) + 1
      ensures r.None? ==> DownSince(store.down, from, store.requests) || Met(store.history, from, prefix)
      ensures store.Quiet() ==> store.keys == old(store.keys)
      ensures store.Quiet() && r.Some? ==>
        KeysOf(r.value) == Under(store.keys, prefix) && |r.value| == |Under(store.keys, prefix)| <= LISTABLE
      ensures store.Quiet() && r.None? && !DownSince(store.down, from, store.requests) ==>
        |Under(store.keys, prefix)| > LISTABLE
    {
      hide KeysOf, Takes, Under, OnlyUnder, DownSince, Spares;
      r := store.List(prefix);
      SparesOn(old(store.history), store.history, from, prefix, {});
      if r.None? {
        DownEarlier(store.down, from, old(store.requests), store.requests);
      } else {
        DistinctCount(r.value);
      }
    }

    /**
     * Empty a prefix and prove it. Some count means, whoever else writes: the last request was a listing of
     * the prefix, and nothing was there. With no other writer the count is the number of keys there were, and
     * unless a request fails it comes back exactly when a listing can hold them all.
     */
    method Destroy(prefix: string) returns (deleted: Option<nat>)
      requires store.Valid()
      modifies store`keys, store`requests, store`history
      ensures store.Valid() && old(store.history) <= store.history && store.requests > old(store.requests)
      ensures Spares(store.history, old(store.requests), prefix)
      ensures deleted.Some? ==> Listed(store.history, store.requests - 1, prefix, [])
      ensures deleted.None? ==>
        DownSince(store.down, old(store.requests), store.requests) || Met(store.history, old(store.requests), prefix)
      ensures store.Quiet() ==>
        store.keys <= old(store.keys) && Beside(store.keys, prefix) == Beside(old(store.keys), prefix)
      ensures store.Quiet() && deleted.Some? ==>
        && Under(store.keys, prefix) == {} && deleted.value == |Under(old(store.keys), prefix)|
        && deleted.value <= LISTABLE
      ensures store.Quiet() && !DownSince(store.down, old(store.requests), store.requests) ==>
        deleted.Some? == (|Under(old(store.keys), prefix)| <= LISTABLE)
    {
      hide KeysOf, Takes, Under, Beside, Listed, OnlyUnder, DownSince, Spares, Met, Follows, Unrepeated, TakesSince;
      ghost var from := store.requests;
      var count := 0;
      SparesNone(store.history, prefix);
      for round := 0 to ROUNDS
        invariant store.Valid() && old(store.history) <= store.history
        invariant Spares(store.history, from, prefix)
        invariant store.Quiet() ==>
          store.keys <= old(store.keys) && Beside(store.keys, prefix) == Beside(old(store.keys), prefix)
        invariant store.Quiet() && round == 0 ==> store.keys == old(store.keys) && count == 0
        invariant store.Quiet() && round > 0 ==>
          Under(store.keys, prefix) == {} && count == |Under(old(store.keys), prefix)| <= LISTABLE
      {
        ghost var began := store.requests;
        var keys := ListUnder(prefix, from);
        if keys.None? {
          return None;
        }
        if |keys.value| == 0 {
          break;
        }
        ListedUnder(store.history, began, prefix, keys.value);
        ghost var before, earlier := store.keys, store.history;
        var done := Sweep(keys.value);
        SparesOn(earlier, store.history, from, prefix, KeysOf(keys.value));
        if store.Quiet() {
          SweptBeside(before, store.keys, prefix);
        }
        if done.None? {
          DownOn(store.down, from, |earlier|, store.requests, store.requests);
          return None;
        }
        if store.Quiet() {
          SweptUnder(before, store.keys, prefix);
        }
        count := count + done.value;
      }
      ghost var last := store.requests;
      var remaining := ListUnder(prefix, from);
      if remaining.None? {
        return None;
      }
      if |remaining.value| > 0 {
        ListedMet(store.history, from, last, prefix, remaining.value);
        return None;
      }
      return Some(count);
    }

    /**
     * The sweep. Whoever else writes, a repository is marked only if its prefix was listed empty once the
     * sweep had begun, and no other project loses a key. With no other writer the count recorded is the
     * number of keys the repository had and none is left, and unless a request fails the repositories marked
     * are exactly those that a listing can hold.
     */
    method ScanOnce(due: seq<string>) returns (destroyed: nat, failed: nat)
      requires store.Valid() && Unrepeated(due) && forall p | p in due :: NoSlash(p) && p !in destroyedAt
      modifies this`destroyedAt, store`keys, store`requests, store`history
      ensures store.Valid() && old(store.history) <= store.history && destroyed + failed == |due|
      ensures forall p | p in destroyedAt :: p in due || (p in old(destroyedAt) && destroyedAt[p] == old(destroyedAt)[p])
      ensures forall p | p in due && p in destroyedAt :: ProvedEmpty(store.history, old(store.requests), Prefix(p))
      ensures forall p | p in due && p !in destroyedAt ::
        DownSince(store.down, old(store.requests), store.requests) || Met(store.history, old(store.requests), Prefix(p))
      ensures forall q | q !in due && NoSlash(q) :: Untouched(store.history, old(store.requests), q)
      ensures store.Quiet() ==> Swept(due, destroyedAt, old(store.keys), store.keys)
      ensures store.Quiet() && !DownSince(store.down, old(store.requests), store.requests) ==>
        MarkedIff(due, destroyedAt, old(store.keys))
    {
      hide Prefix, NoSlash, Under, Beside, Spares, Met, DownSince, ProvedEmpty, Untouched, Listed, Swept, MarkedIff;
      ghost var from := store.requests;
      destroyed, failed := 0, 0;
      NothingSwept(due, destroyedAt, store.history, store.keys);
      for i := 0 to |due|
        invariant store.Valid() && old(store.history) <= store.history && destroyed + failed == i
        invariant forall p | p in destroyedAt ::
          p in due[..i] || (p in old(destroyedAt) && destroyedAt[p] == old(destroyedAt)[p])
        invariant forall p | p in due[..i] && p in destroyedAt :: ProvedEmpty(store.history, from, Prefix(p))
        invariant forall p | p in due[..i] && p !in destroyedAt ::
          DownSince(store.down, from, store.requests) || Met(store.history, from, Prefix(p))
        invariant forall q | q !in due[..i] && NoSlash(q) :: Untouched(store.history, from, q)
        invariant store.Quiet() ==> Swept(due[..i], destroyedAt, old(store.keys), store.keys)
        invariant store.Quiet() && !DownSince(store.down, from, store.requests) ==>
          MarkedIff(due[..i], destroyedAt, old(store.keys))
      {
        var p := due[i];
        assert p in due && p !in due[..i] && due[..i + 1] == due[..i] + [p];
        ghost var before, earlier, marked := store.keys, store.history, destroyedAt;
        var deleted := Destroy(Prefix(p));
        OthersOn(earlier, store.history, from, due[..i], p);
        DownLater(store.down, from, |earlier|, store.requests);
        if deleted.Some? {
          destroyedAt := destroyedAt[p := deleted.value];
          destroyed := destroyed + 1;
          ListedEmpty(store.history, from, Prefix(p));
        } else {
          failed := failed + 1;
          LaterMet(earlier, store.history, from, |earlier|, Prefix(p));
        }
        if store.Quiet() {
          SweptOne(due[..i], marked, destroyedAt, old(store.keys), before, store.keys, p);
          if !DownSince(store.down, from, store.requests) {
            MarkedOne(due[..i], marked, destroyedAt, old(store.keys), before, p);
          }
        }
      }
      assert due[..|due|] == due;
    }
  }

  lemma LaterMet(h: seq<Moment>, h': seq<Moment>, i: nat, j: nat, prefix: string)
    requires i <= j
    ensures Met(h', j, prefix) ==> Met(h', i, prefix)
  {
    if Met(h', j, prefix) {
      MetOn(h', h', i, j, prefix);
    }
  }

  /** What held of the repositories before this one still does. */
  lemma OthersOn(h: seq<Moment>, h': seq<Moment>, i: nat, done: seq<string>, p: string)
    requires i <= |h| && h <= h' && NoSlash(p) && p !in done && Spares(h', |h|, Prefix(p))
    requires forall q | q !in done && NoSlash(q) :: Untouched(h, i, q)
    ensures forall q | q !in done + [p] && NoSlash(q) :: Untouched(h', i, q)
    ensures forall q | ProvedEmpty(h, i, Prefix(q)) :: ProvedEmpty(h', i, Prefix(q))
    ensures forall q | Met(h, i, Prefix(q)) :: Met(h', i, Prefix(q))
  {
    hide Prefix, NoSlash, Untouched, ProvedEmpty, Met, Spares;
    forall q | q !in done + [p] && NoSlash(q) ensures Untouched(h', i, q) {
      assert p in done + [p] && q !in done;
      UntouchedOn(h, h', i, p, q);
    }
    forall q | ProvedEmpty(h, i, Prefix(q)) ensures ProvedEmpty(h', i, Prefix(q)) {
      EmptyOn(h, h', i, Prefix(q));
    }
    forall q | Met(h, i, Prefix(q)) ensures Met(h', i, Prefix(q)) {
      MetOn(h, h', i, i, Prefix(q));
    }
  }

  lemma DownLater(down: nat -> bool, i: nat, j: nat, n: nat)
    requires i <= j <= n
    ensures DownSince(down, i, j) || DownSince(down, j, n) ==> DownSince(down, i, n)
  {
  }

  // --- a sweep with no other writer ---

  /** The repositories swept and marked are empty and counted; every other project has the keys it had. */
  ghost predicate Swept(done: seq<string>, marked: map<string, nat>, before: set<Key>, keys: set<Key>) {
    && keys <= before
    && (forall p | p in done && p in marked :: Under(keys, Prefix(p)) == {} && marked[p] == |Under(before, Prefix(p))|)
    && (forall q | q !in done && NoSlash(q) :: Under(keys, Prefix(q)) == Under(before, Prefix(q)))
  }

  /** The repositories marked are those that a listing can hold. */
  predicate MarkedIff(done: seq<string>, marked: map<string, nat>, before: set<Key>) {
    forall p | p in done :: p in marked <==> |Under(before, Prefix(p))| <= LISTABLE
  }

  lemma NothingSwept(due: seq<string>, marked: map<string, nat>, history: seq<Moment>, keys: set<Key>)
    ensures Swept(due[..0], marked, keys, keys) && MarkedIff(due[..0], marked, keys)
    ensures forall q :: Untouched(history, |history|, q)
  {
    hide Under, Prefix;
  }

  lemma SweptOne(done: seq<string>, marked: map<string, nat>, marked': map<string, nat>,
                 first: set<Key>, before: set<Key>, keys: set<Key>, p: string)
    requires NoSlash(p) && p !in done && p !in marked && (marked' == marked || (p in marked' && marked' == marked[p := marked'[p]]))
    requires (forall q | q in done :: NoSlash(q)) && Swept(done, marked, first, before)
    requires keys <= before && Beside(keys, Prefix(p)) == Beside(before, Prefix(p))
    requires p in marked' ==> Under(keys, Prefix(p)) == {} && marked'[p] == |Under(before, Prefix(p))|
    ensures Swept(done + [p], marked', first, keys) && Under(before, Prefix(p)) == Under(first, Prefix(p))
  {
    hide Under, Prefix, NoSlash, Beside;
    forall q | q != p && NoSlash(q) ensures Under(keys, Prefix(q)) == Under(before, Prefix(q)) {
      OtherUnder(before, keys, p, q);
    }
  }

  lemma MarkedOne(done: seq<string>, marked: map<string, nat>, marked': map<string, nat>,
                  first: set<Key>, before: set<Key>, p: string)
    requires NoSlash(p) && p !in done && p !in marked && (marked' == marked || (p in marked' && marked' == marked[p := marked'[p]]))
    requires MarkedIff(done, marked, first) && Under(before, Prefix(p)) == Under(first, Prefix(p))
    requires p in marked' <==> |Under(before, Prefix(p))| <= LISTABLE
    ensures MarkedIff(done + [p], marked', first)
  {
    hide Under, Prefix, NoSlash;
  }
}
