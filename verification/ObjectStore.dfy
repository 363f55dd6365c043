/**
 * The object store of packages/s3/src/index.ts as its clients meet it: one request after another, each of
 * which may fail, with any other writer at work between two of them.
 */
module ObjectStore {
  import opened Text
  import opened Sets
  import S3Xml

  type Key = string

  function Under(keys: set<Key>, prefix: string): set<Key> {
    set k | k in keys && prefix <= k
  }

  predicate Unrepeated(ks: seq<Key>) {
    forall i, j | 0 <= i < j < |ks| :: ks[i] != ks[j]
  }

  predicate Ascending(ks: seq<Key>) {
    forall i, j | 0 <= i < j < |ks| :: Precedes(ks[i], ks[j])
  }

  function KeysOf(ks: seq<Key>): set<Key> {
    set i | 0 <= i < |ks| :: ks[i]
  }

  // --- sequences of keys ---

  lemma {:induction false} DistinctCount(ks: seq<Key>)
    requires Unrepeated(ks)
    ensures |KeysOf(ks)| == |ks|
  {
    if ks == [] {
      assert KeysOf(ks) == {};
    } else {
      var n := |ks| - 1;
      DistinctCount(ks[..n]);
      assert KeysOf(ks) == KeysOf(ks[..n]) + {ks[n]};
    }
  }

  lemma KeysAppend(x: seq<Key>, y: seq<Key>)
    ensures KeysOf(x + y) == KeysOf(x) + KeysOf(y)
  {
    forall k | k in KeysOf(x) ensures k in KeysOf(x + y) {
      var a :| 0 <= a < |x| && x[a] == k;
      assert (x + y)[a] == k;
    }
    forall k | k in KeysOf(y) ensures k in KeysOf(x + y) {
      var a :| 0 <= a < |y| && y[a] == k;
      assert (x + y)[a + |x|] == k;
    }
    forall k | k in KeysOf(x + y) ensures k in KeysOf(x) + KeysOf(y) {
      var a :| 0 <= a < |x + y| && (x + y)[a] == k;
      assert if a < |x| then x[a] == k else y[a - |x|] == k;
    }
  }

  lemma KeysSnoc(ks: seq<Key>, i: nat)
    requires i < |ks|
    ensures KeysOf(ks[..i + 1]) == KeysOf(ks[..i]) + {ks[i]}
    ensures Unrepeated(ks) ==> ks[i] !in KeysOf(ks[..i])
  {
    assert ks[..i + 1] == ks[..i] + [ks[i]];
    KeysAppend(ks[..i], [ks[i]]);
    KeysOne(ks[i]);
  }

  lemma KeysOne(k: Key)
    ensures KeysOf([k]) == {k}
  {
    assert [k][0] == k;
  }

  lemma Appended(ks: seq<Key>, k: Key)
    requires Unrepeated(ks) && k !in KeysOf(ks)
    ensures Unrepeated(ks + [k]) && KeysOf(ks + [k]) == KeysOf(ks) + {k}
  {
    KeysAppend(ks, [k]);
    KeysOne(k);
  }

  lemma AscendingUnrepeated(ks: seq<Key>)
    requires Ascending(ks)
    ensures Unrepeated(ks)
  {
    forall i, j | 0 <= i < j < |ks| ensures ks[i] != ks[j] {
      PrecedesTotal(ks[i], ks[j]);
    }
  }

  /** `x`, then `y`, all of which comes after the end of `x`. */
  lemma AscendingAppend(x: seq<Key>, y: seq<Key>)
    requires Ascending(x) && Ascending(y)
    requires x != [] ==> forall k | k in KeysOf(y) :: Precedes(x[|x| - 1], k)
    ensures Ascending(x + y)
  {
    forall i, j | 0 <= i < |x| && 0 <= j < |y| ensures Precedes(x[i], y[j]) {
      assert y[j] in KeysOf(y);
      if i < |x| - 1 {
        PrecedesTransitive(x[i], x[|x| - 1], y[j]);
      }
    }
  }

  // --- pages ---

  const BATCH := 1000

  /** The most keys that a listing can return before it gives up. */
  const LISTABLE := S3Xml.PAGE_LIMIT * BATCH

  predicate After(token: Option<Key>, k: Key) {
    token.None? || Precedes(token.value, k)
  }

  function Rest(keys: set<Key>, prefix: string, token: Option<Key>): set<Key> {
    set k | k in Under(keys, prefix) && After(token, k)
  }

  function Token(got: seq<Key>): Option<Key> {
    if got == [] then None else Some(got[|got| - 1])
  }

  /** The first of `rest` in order: all of it, or a full page with more behind. */
  predicate IsPage(ks: seq<Key>, more: bool, rest: set<Key>) {
    && Ascending(ks) && KeysOf(ks) <= rest && |ks| <= BATCH
    && (if more
        then |ks| == BATCH && KeysOf(ks) != rest && forall k | k in rest && k !in KeysOf(ks) :: After(Token(ks), k)
        else KeysOf(ks) == rest)
  }

  predicate IsLeast(k: Key, keys: set<Key>) {
    k in keys && forall j | j in keys :: j == k || Precedes(k, j)
  }

  lemma {:induction false} HasLeast(keys: set<Key>)
    requires keys != {}
    ensures exists k :: IsLeast(k, keys)
    decreases keys
  {
    var k := AnyOf(keys);
    if keys == {k} {
      assert IsLeast(k, keys);
    } else {
      var others := keys - {k};
      HasLeast(others);
      var l :| IsLeast(l, others);
      PrecedesTotal(k, l);
      if Precedes(k, l) {
        forall j | j in keys ensures j == k || Precedes(k, j) {
          if j != k && j != l {
            PrecedesTransitive(k, l, j);
          }
        }
        assert IsLeast(k, keys);
      } else {
        assert IsLeast(l, keys);
      }
    }
  }

  // --- requests ---

  /** The keys when a request arrives, and once it is answered. */
  datatype Moment = Moment(before: set<Key>, after: set<Key>)

  /** The request removes nothing outside `ks`. */
  predicate Takes(m: Moment, ks: set<Key>) {
    m.after <= m.before && m.before - m.after <= ks
  }

  ghost predicate Follows(history: seq<Moment>, n: nat, writes: (nat, set<Key>) -> set<Key>)
    requires 0 < n < |history|
  {
    history[n].before == writes(n, history[n - 1].after)
  }

  /** The key is under the prefix and there at every request from `i` on. */
  ghost predicate Throughout(history: seq<Moment>, i: nat, prefix: string, k: Key) {
    prefix <= k && forall n | i <= n < |history| :: k in history[n].before
  }

  ghost predicate Sometime(history: seq<Moment>, i: nat, prefix: string, k: Key) {
    prefix <= k && exists n | i <= n < |history| :: k in history[n].before
  }

  /** Requests from `i` on remove at most `ks`. */
  ghost predicate TakesSince(history: seq<Moment>, i: nat, ks: set<Key>) {
    forall n | i <= n < |history| :: Takes(history[n], ks)
  }

  ghost predicate DownSince(down: nat -> bool, i: nat, n: nat) {
    exists r | i <= r < n :: down(r)
  }

  /**
   * The store. Before its n-th request others turn the keys into `writes(n, keys)`; `refuses(n)` is what it
   * would refuse of a batch and `down(n)` says that the request fails: any pattern of these is allowed.
   */
  class Store {
    var keys: set<Key>
    var requests: nat
    ghost var history: seq<Moment>
    const writes: (nat, set<Key>) -> set<Key>
    const refuses: nat -> set<Key>
    const down: nat -> bool

    constructor (keys: set<Key>, writes: (nat, set<Key>) -> set<Key>, refuses: nat -> set<Key>, down: nat -> bool)
      ensures Valid() && this.keys == keys && this.requests == 0
      ensures this.writes == writes && this.refuses == refuses && this.down == down
    {
      this.keys, this.requests, this.history := keys, 0, [];
      this.writes, this.refuses, this.down := writes, refuses, down;
    }

    ghost predicate Valid()
      reads this
    {
      && |history| == requests
      && (forall n | 0 < n < |history| :: Follows(history, n, writes))
      && (requests > 0 ==> keys == history[requests - 1].after)
    }

    /** No one else writes. */
    ghost predicate Quiet() {
      forall n, ks :: writes(n, ks) == ks
    }

    /** One request that removes `gone`. */
    method Request(gone: set<Key>)
      requires Valid()
      modifies this`keys, this`requests, this`history
      ensures Valid() && requests == old(requests) + 1
      ensures var m := Moment(writes(old(requests), old(keys)), keys);
              history == old(history) + [m] && keys == m.before - gone && (Quiet() ==> m.before == old(keys))
    {
      keys := writes(requests, keys);
      ghost var before := keys;
      keys := keys - gone;
      requests := requests + 1;
      history := history + [Moment(before, keys)];
      forall n | 0 < n < |history| ensures Follows(history, n, writes) {
        if n < |old(history)| {
          assert Follows(old(history), n, writes);
        }
      }
    }

    /** One page of a listing: the keys after the token, and whether there are more. */
    method Page(prefix: string, token: Option<Key>) returns (r: Option<(seq<Key>, bool)>)
      requires Valid()
      modifies this`keys, this`requests, this`history
      ensures Valid() && requests == old(requests) + 1 && r.None? == down(old(requests))
      ensures history == old(history) + [Moment(keys, keys)] && (Quiet() ==> keys == old(keys))
      ensures r.Some? ==> IsPage(r.value.0, r.value.1, Rest(keys, prefix, token))
    {
      Request({});
      assert history[requests - 1].before - {} == history[requests - 1].before;
      if down(requests - 1) {
        return None;
      }
      var ks, more := FirstOf(Rest(keys, prefix, token));
      return Some((ks, more));
    }

    /** Remove one key; one that is gone already counts as removed. */
    method DeleteObject(k: Key) returns (ok: bool)
      requires Valid()
      modifies this`keys, this`requests, this`history
      ensures Valid() && requests == old(requests) + 1 && ok == !down(old(requests))
      ensures old(history) <= history && TakesSince(history, old(requests), {k})
      ensures Quiet() ==> keys == if ok then old(keys) - {k} else old(keys)
    {
      ok := !down(requests);
      Request(if ok then {k} else {});
    }

    /**
     * Remove up to a thousand keys and return those that the store refused; none when the request fails or
     * there are more keys than one request may carry. No keys need no request.
     */
    method DeleteBatch(batch: seq<Key>) returns (failed: Option<seq<Key>>)
      requires Valid() && Unrepeated(batch)
      modifies this`keys, this`requests, this`history
      ensures Valid() && requests == old(requests) + if 0 < |batch| <= BATCH then 1 else 0
      ensures failed.None? == (|batch| > BATCH || (batch != [] && down(old(requests))))
      ensures failed.Some? ==> Unrepeated(failed.value) && KeysOf(failed.value) <= KeysOf(batch)
      ensures old(history) <= history && TakesSince(history, old(requests), KeysOf(batch))
      ensures Quiet() ==> keys == old(keys) - if failed.Some? then KeysOf(batch) - KeysOf(failed.value) else {}
    {
      if batch == [] {
        return Some([]);
      }
      if |batch| > BATCH {
        return None;
      }
      if down(requests) {
        Request({});
        return None;
      }
      var out, gone := Refused(batch, refuses(requests));
      Request(gone);
      return Some(out);
    }

    /**
     * The listing of a prefix, page by page: its keys in order, each of them there at some page, and none missed
     * that was there at every page. None when a request fails or the pages do not end.
     */
    method List(prefix: string) returns (r: Option<seq<Key>>)
      requires Valid()
      modifies this`keys, this`requests, this`history
      ensures Valid() && requests > old(requests)
      ensures old(history) <= history && TakesSince(history, old(requests), {})
      ensures r.Some? ==> Listed(history, old(requests), prefix, r.value)
      ensures r.None? && !DownSince(down, old(requests), requests) ==>
        requests == old(requests) + S3Xml.PAGE_LIMIT && Under(history[requests - 1].before, prefix) != {}
      ensures Quiet() ==> keys == old(keys)
      ensures Quiet() && r.Some? ==> KeysOf(r.value) == Under(keys, prefix) && |r.value| <= LISTABLE
      ensures Quiet() && r.None? && !DownSince(down, old(requests), requests) ==> |Under(keys, prefix)| > LISTABLE
    {
      hide Under, Rest, Token, IsPage, KeysOf, Throughout, Sometime, Takes;
      var got := [];
      ghost var from := requests;
      NoneRead();
      for page := 0 to S3Xml.PAGE_LIMIT
        invariant Valid() && requests == from + page && old(history) <= history
        invariant TakesSince(history, from, {}) && Ascending(got) && |got| == BATCH * page
        invariant page == 0 || Reached(history, from, prefix, got)
        invariant page > 0 ==> Rest(history[requests - 1].before, prefix, Token(got)) != {}
        invariant Quiet() ==> keys == old(keys) && forall n | from <= n < requests :: history[n].before == keys
      {
        ghost var earlier := history;
        var r := Page(prefix, Token(got));
        assert history[..requests - 1] == earlier;
        NothingTaken(keys);
        if r.None? {
          assert down(requests - 1);
          return None;
        }
        OnePage(history, from, prefix, got, r.value.0, r.value.1);
        PageSize(r.value.0, r.value.1, Rest(keys, prefix, Token(got)));
        got := got + r.value.0;
        if !r.value.1 {
          AscendingUnrepeated(got);
          if Quiet() {
            SteadyListing(history, from, prefix, got, keys);
          }
          return Some(got);
        }
      }
      RestUnder(history[requests - 1].before, prefix, got);
      if Quiet() {
        LongListing(history, from, prefix, got, keys);
      }
      return None;
    }
  }

  /** Everything read from the request `i` on was there at some request. */
  ghost predicate Sound(history: seq<Moment>, i: nat, prefix: string, got: seq<Key>) {
    forall k | k in KeysOf(got) :: Sometime(history, i, prefix, k)
  }

  /** Everything that was there at every request from `i` on has been read. */
  ghost predicate Complete(history: seq<Moment>, i: nat, prefix: string, got: seq<Key>) {
    forall k | Throughout(history, i, prefix, k) :: k in KeysOf(got)
  }

  /** What a listing has read so far is sound, and complete up to its token. */
  ghost predicate Reached(history: seq<Moment>, i: nat, prefix: string, got: seq<Key>) {
    && Sound(history, i, prefix, got)
    && (forall k | Throughout(history, i, prefix, k) :: k in KeysOf(got) || After(Token(got), k))
  }

  /** What a whole listing says. An empty one took a single page, at which nothing was there. */
  ghost predicate Listed(history: seq<Moment>, i: nat, prefix: string, got: seq<Key>) {
    && Ascending(got) && Unrepeated(got)
    && Sound(history, i, prefix, got) && Complete(history, i, prefix, got)
    && (got == [] ==> |history| == i + 1 && Under(history[i].before, prefix) == {})
  }

  method FirstOf(rest: set<Key>) returns (ks: seq<Key>, more: bool)
    ensures IsPage(ks, more, rest)
  {
    var left := rest;
    ks := [];
    while left != {} && |ks| < BATCH
      invariant Ascending(ks) && |ks| <= BATCH && KeysOf(ks) <= rest && left == rest - KeysOf(ks)
      invariant forall k | k in left :: After(Token(ks), k)
      decreases left
    {
      HasLeast(left);
      var k :| IsLeast(k, left);
      KeysAppend(ks, [k]);
      KeysOne(k);
      AscendingAppend(ks, [k]);
      ks, left := ks + [k], left - {k};
    }
    more := left != {};
    assert rest == KeysOf(ks) + left;
  }

  /** What the store refuses of a batch, and what it removes. */
  method Refused(batch: seq<Key>, refused: set<Key>) returns (out: seq<Key>, gone: set<Key>)
    requires Unrepeated(batch)
    ensures Unrepeated(out) && KeysOf(out) == KeysOf(batch) * refused && gone == KeysOf(batch) - refused
  {
    out, gone := [], {};
    assert KeysOf(batch[..0]) == {};
    for i := 0 to |batch|
      invariant Unrepeated(out) && KeysOf(out) == KeysOf(batch[..i]) * refused && gone == KeysOf(batch[..i]) - refused
    {
      KeysSnoc(batch, i);
      if batch[i] in refused {
        Appended(out, batch[i]);
        out := out + [batch[i]];
      } else {
        gone := gone + {batch[i]};
      }
    }
    assert batch[..|batch|] == batch;
  }

  lemma NothingTaken(keys: set<Key>)
    ensures Takes(Moment(keys, keys), {})
  {
  }

  lemma NoneRead()
    ensures Ascending([]) && Token([]) == None
  {
  }

  lemma PageSize(ks: seq<Key>, more: bool, rest: set<Key>)
    requires IsPage(ks, more, rest)
    ensures |ks| <= BATCH && (more ==> |ks| == BATCH)
  {
  }

  /** One more page, of the keys there at the last request. */
  lemma OnePage(history: seq<Moment>, i: nat, prefix: string, got: seq<Key>, ks: seq<Key>, more: bool)
    requires i < |history| && Ascending(got)
    requires var n := |history| - 1;
             && (if i == n then got == [] else Reached(history[..n], i, prefix, got))
             && IsPage(ks, more, Rest(history[n].before, prefix, Token(got)))
    ensures Ascending(got + ks) && Sound(history, i, prefix, got + ks)
    ensures more ==> Reached(history, i, prefix, got + ks)
    ensures more ==> Rest(history[|history| - 1].before, prefix, Token(got + ks)) != {}
    ensures !more ==> Complete(history, i, prefix, got + ks)
    ensures i == |history| - 1 && got + ks == [] ==> Under(history[i].before, prefix) == {}
  {
    var n := |history| - 1;
    AscendingAfter(got, ks, history[n].before, prefix);
    OnePageSound(history, i, prefix, got, ks, more);
    OnePageComplete(history, i, prefix, got, ks, more);
    if more {
      SomeRest(history[n].before, prefix, got, ks);
    }
    if i == n && ks == [] {
      EmptyPage(history[n].before, prefix, ks, more);
    }
  }

  lemma AscendingAfter(got: seq<Key>, ks: seq<Key>, keys: set<Key>, prefix: string)
    requires Ascending(got) && Ascending(ks) && KeysOf(ks) <= Rest(keys, prefix, Token(got))
    ensures Ascending(got + ks)
  {
    hide Ascending;
    AscendingAppend(got, ks);
  }

  lemma EmptyPage(keys: set<Key>, prefix: string, ks: seq<Key>, more: bool)
    requires ks == [] && IsPage(ks, more, Rest(keys, prefix, None))
    ensures Under(keys, prefix) == {}
  {
    assert KeysOf(ks) == {};
    assert Rest(keys, prefix, None) == Under(keys, prefix);
  }

  lemma SomeRest(keys: set<Key>, prefix: string, got: seq<Key>, ks: seq<Key>)
    requires IsPage(ks, true, Rest(keys, prefix, Token(got)))
    ensures Rest(keys, prefix, Token(got + ks)) != {}
  {
    var rest := Rest(keys, prefix, Token(got));
    assert rest == KeysOf(ks) + (rest - KeysOf(ks));
    var k := AnyOf(rest - KeysOf(ks));
    assert (got + ks)[|got + ks| - 1] == ks[|ks| - 1];
    assert k in Rest(keys, prefix, Token(got + ks));
  }

  lemma OnePageSound(history: seq<Moment>, i: nat, prefix: string, got: seq<Key>, ks: seq<Key>, more: bool)
    requires i < |history|
    requires var n := |history| - 1;
             && (if i == n then got == [] else Sound(history[..n], i, prefix, got))
             && IsPage(ks, more, Rest(history[n].before, prefix, Token(got)))
    ensures Sound(history, i, prefix, got + ks)
  {
    var n := |history| - 1;
    KeysAppend(got, ks);
    forall k | k in KeysOf(got + ks) ensures Sometime(history, i, prefix, k) {
      if k in KeysOf(ks) {
        assert k in history[n].before;
      } else {
        assert Sometime(history[..n], i, prefix, k);
        var m :| i <= m < n && k in history[..n][m].before;
        assert k in history[m].before;
      }
    }
  }

  lemma OnePageComplete(history: seq<Moment>, i: nat, prefix: string, got: seq<Key>, ks: seq<Key>, more: bool)
    requires i < |history|
    requires var n := |history| - 1;
             && (if i == n then got == [] else Reached(history[..n], i, prefix, got))
             && IsPage(ks, more, Rest(history[n].before, prefix, Token(got)))
    ensures forall k | Throughout(history, i, prefix, k) ::
      k in KeysOf(got + ks) || (more && After(Token(got + ks), k))
  {
    hide Sound;
    var n := |history| - 1;
    KeysAppend(got, ks);
    assert ks != [] ==> (got + ks)[|got + ks| - 1] == ks[|ks| - 1];
    forall k | Throughout(history, i, prefix, k) ensures k in KeysOf(got + ks) || (more && After(Token(got + ks), k)) {
      if i < n {
        assert Throughout(history[..n], i, prefix, k);
      }
      assert k in history[n].before;
    }
  }

  lemma RestUnder(keys: set<Key>, prefix: string, got: seq<Key>)
    requires Rest(keys, prefix, Token(got)) != {}
    ensures Under(keys, prefix) != {}
  {
  }

  /** While nobody writes, a listing is what is there. */
  lemma SteadyListing(history: seq<Moment>, i: nat, prefix: string, got: seq<Key>, keys: set<Key>)
    requires i < |history| && forall n | i <= n < |history| :: history[n].before == keys
    requires Sound(history, i, prefix, got) && Complete(history, i, prefix, got)
    ensures KeysOf(got) == Under(keys, prefix)
  {
    forall k | k in KeysOf(got) ensures k in Under(keys, prefix) {
      assert Sometime(history, i, prefix, k);
    }
    forall k | k in Under(keys, prefix) ensures k in KeysOf(got) {
      assert Throughout(history, i, prefix, k);
    }
  }

  lemma LongListing(history: seq<Moment>, i: nat, prefix: string, got: seq<Key>, keys: set<Key>)
    requires i < |history| && forall n | i <= n < |history| :: history[n].before == keys
    requires Sound(history, i, prefix, got) && Ascending(got) && Rest(keys, prefix, Token(got)) != {}
    ensures |got| < |Under(keys, prefix)|
  {
    AscendingUnrepeated(got);
    DistinctCount(got);
    var k :| k in Rest(keys, prefix, Token(got));
    forall j | j in KeysOf(got) ensures j in Under(keys, prefix) - {k} {
      assert Sometime(history, i, prefix, j);
      NotAfterItself(got, j);
    }
    SubsetSize(KeysOf(got), Under(keys, prefix) - {k});
  }

  lemma NotAfterItself(got: seq<Key>, k: Key)
    requires Ascending(got) && k in KeysOf(got)
    ensures !After(Token(got), k)
  {
    var j :| 0 <= j < |got| && got[j] == k;
    PrecedesTotal(k, got[|got| - 1]);
  }
}
