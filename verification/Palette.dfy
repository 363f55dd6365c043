/** The command palette's matcher and its highlighting: apps/dashboard/src/components/CommandPalette.tsx. */
module Palette {
  import opened Text

  /** Lower-casing of one character, exact for ASCII. */
  function LowerChar(c: char): char {
    if IsUpper(c) then (c as int + 32) as char else c
  }

  function Lower(s: string): (r: string)
    ensures |r| == |s| && forall i | 0 <= i < |s| :: r[i] == LowerChar(s[i])
  {
    seq(|s|, i requires 0 <= i < |s| => LowerChar(s[i]))
  }

  /** The same character, or one letter in both cases. */
  predicate SameLetter(c: char, d: char) {
    || c == d
    || ('A' <= c <= 'Z' && d as int - c as int == 'a' as int - 'A' as int)
    || ('A' <= d <= 'Z' && c as int - d as int == 'a' as int - 'A' as int)
  }

  /** Two texts are alike to the matcher exactly when they differ in nothing but the case of letters. */
  lemma LowerIff(s: string, t: string)
    ensures Lower(s) == Lower(t) <==> |s| == |t| && forall i | 0 <= i < |s| :: SameLetter(s[i], t[i])
  {
    if |s| == |t| {
      forall i | 0 <= i < |s| ensures Lower(s)[i] == Lower(t)[i] <==> SameLetter(s[i], t[i]) {
      }
    }
  }

  // --- the greedy match ---

  /** `h.indexOf(c, at)`. */
  function FindFrom(h: string, c: char, at: nat): Option<nat>
    decreases |h| - at
  {
    if at >= |h| then None else if h[at] == c then Some(at) else FindFrom(h, c, at + 1)
  }

  lemma {:induction false} FindFirst(h: string, c: char, at: nat)
    ensures match FindFrom(h, c, at)
            case Some(i) => at <= i < |h| && h[i] == c && forall j | at <= j < i :: h[j] != c
            case None => forall j | at <= j < |h| :: h[j] != c
    decreases |h| - at
  {
    if at < |h| && h[at] != c {
      FindFirst(h, c, at + 1);
    }
  }

  /** Each character of the query at its first place from where the last one left off. */
  function Greedy(h: string, n: string, at: nat): Option<seq<nat>>
    decreases |n|
  {
    if n == "" then Some([])
    else
      match FindFrom(h, n[0], at)
      case None => None
      case Some(i) =>
        match Greedy(h, n[1..], i + 1)
        case None => None
        case Some(more) => Some([i] + more)
  }

  /** `n` found in `h` at increasing places from `at` on. */
  predicate Embeds(e: seq<nat>, h: string, n: string, at: nat) {
    && |e| == |n|
    && (forall i | 0 <= i < |e| :: at <= e[i] < |h| && h[e[i]] == n[i])
    && (forall i, j | 0 <= i < j < |e| :: e[i] < e[j])
  }

  predicate Leftmost(e: seq<nat>, f: seq<nat>) {
    |e| == |f| && forall i | 0 <= i < |e| :: e[i] <= f[i]
  }

  lemma EmbedsTail(e: seq<nat>, h: string, n: string, at: nat, from: nat)
    requires Embeds(e, h, n, at) && n != "" && from <= e[0] + 1
    ensures Embeds(e[1..], h, n[1..], from)
  {
  }

  lemma EmbedsCons(i: nat, e: seq<nat>, h: string, n: string, at: nat)
    requires n != "" && at <= i < |h| && h[i] == n[0] && Embeds(e, h, n[1..], i + 1)
    ensures Embeds([i] + e, h, n, at)
  {
  }

  /** What is found is an embedding, and no other embedding is anywhere to its left. */
  lemma {:induction false} GreedyIsLeftmost(h: string, n: string, at: nat)
    ensures Greedy(h, n, at).Some? ==> Embeds(Greedy(h, n, at).value, h, n, at)
    ensures forall e | Embeds(e, h, n, at) :: Greedy(h, n, at).Some? && Leftmost(Greedy(h, n, at).value, e)
    decreases |n|
  {
    if n != "" {
      FindFirst(h, n[0], at);
      var found := FindFrom(h, n[0], at);
      if found.Some? {
        GreedyIsLeftmost(h, n[1..], found.value + 1);
      }
      hide FindFrom, Embeds;
      var g := Greedy(h, n, at);
      if g.Some? {
        EmbedsCons(found.value, g.value[1..], h, n, at);
        assert g.value == [found.value] + g.value[1..];
      }
      forall e | Embeds(e, h, n, at) ensures g.Some? && Leftmost(g.value, e) {
        FirstPlace(e, h, n, at);
        EmbedsTail(e, h, n, at, found.value + 1);
      }
    }
  }

  lemma FirstPlace(e: seq<nat>, h: string, n: string, at: nat)
    requires Embeds(e, h, n, at) && n != ""
    ensures e != [] && FindFrom(h, n[0], at).Some? && FindFrom(h, n[0], at).value <= e[0]
  {
    FindFirst(h, n[0], at);
  }

  /** The query is a subsequence of the text. */
  ghost predicate IsSubsequence(n: string, h: string) {
    exists e :: Embeds(e, h, n, 0)
  }

  // --- points ---

  predicate BreaksWord(c: char) {
    IsSpace(c) || c == '.' || c == '/' || c == '_' || c == '-'
  }

  function HitPoints(h: string, at: nat, i: nat): nat {
    (if i == 0 || (i - 1 < |h| && BreaksWord(h[i - 1])) then 3 else 1) + (if i == at then 1 else 0)
  }

  /** The points of a list of hits: word starts, and hits right after the one before. */
  function Points(h: string, hits: seq<nat>): nat {
    if hits == [] then 0
    else
      var k := |hits| - 1;
      Points(h, hits[..k]) + HitPoints(h, if k == 0 then 0 else hits[k - 1] + 1, hits[k])
  }

  lemma {:induction false} PointsBounds(h: string, hits: seq<nat>)
    ensures |hits| <= Points(h, hits) <= 4 * |hits|
  {
    hide BreaksWord;
    if hits != [] {
      PointsBounds(h, hits[..|hits| - 1]);
    }
  }

  /** It is at the front, or after a blank, a point, a slash, an underscore or a hyphen. */
  predicate StartsWord(h: string, i: nat) {
    i == 0 || (i - 1 < |h| && (IsSpace(h[i - 1]) || h[i - 1] in ['.', '/', '_', '-']))
  }

  /** The hit is right after the one before; the first, at the front. */
  predicate GoesOn(hits: seq<nat>, k: nat)
    requires k < |hits|
  {
    hits[k] == if k == 0 then 0 else hits[k - 1] + 1
  }

  function WordStarts(h: string, hits: seq<nat>): set<nat> {
    set k | 0 <= k < |hits| && StartsWord(h, hits[k])
  }

  function Consecutive(hits: seq<nat>): set<nat> {
    set k | 0 <= k < |hits| && GoesOn(hits, k)
  }

  lemma HitPointsAre(h: string, hits: seq<nat>, k: nat)
    requires k < |hits|
    ensures HitPoints(h, if k == 0 then 0 else hits[k - 1] + 1, hits[k])
         == 1 + (if StartsWord(h, hits[k]) then 2 else 0) + (if GoesOn(hits, k) then 1 else 0)
  {
    hide IsSpace;
  }

  /** A hit is worth one point, two more if it starts a word, and one more if it goes on from the one before. */
  lemma {:induction false} PointsAre(h: string, hits: seq<nat>)
    ensures Points(h, hits) == |hits| + 2 * |WordStarts(h, hits)| + |Consecutive(hits)|
  {
    hide StartsWord, HitPoints;
    if hits == [] {
      assert WordStarts(h, hits) == {} && Consecutive(hits) == {};
    } else {
      var k := |hits| - 1;
      PointsAre(h, hits[..k]);
      HitPointsAre(h, hits, k);
      LastHit(h, hits);
    }
  }

  lemma LastHit(h: string, hits: seq<nat>)
    requires hits != []
    ensures var k := |hits| - 1;
            && |WordStarts(h, hits)| == |WordStarts(h, hits[..k])| + (if StartsWord(h, hits[k]) then 1 else 0)
            && |Consecutive(hits)| == |Consecutive(hits[..k])| + (if GoesOn(hits, k) then 1 else 0)
  {
    hide StartsWord, GoesOn;
    var k := |hits| - 1;
    forall i | 0 <= i < k ensures GoesOn(hits[..k], i) == GoesOn(hits, i) {
      SameSoFar(hits, i);
    }
    var w, c := WordStarts(h, hits[..k]), Consecutive(hits[..k]);
    assert WordStarts(h, hits) == if StartsWord(h, hits[k]) then w + {k} else w;
    assert Consecutive(hits) == if GoesOn(hits, k) then c + {k} else c;
  }

  lemma SameSoFar(hits: seq<nat>, i: nat)
    requires i < |hits| - 1
    ensures GoesOn(hits[..|hits| - 1], i) == GoesOn(hits, i)
  {
  }

  datatype Scored = Scored(points: nat, hits: seq<nat>)

  /** The part of the match still to be made, after the hits so far. */
  predicate Continues(h: string, n: string, hits: seq<nat>, k: nat, at: nat) {
    k <= |n| && Greedy(h, n, 0) ==
      match Greedy(h, n[k..], at)
      case None => None
      case Some(more) => Some(hits + more)
  }

  lemma ContinuesOne(h: string, n: string, hits: seq<nat>, k: nat, at: nat)
    requires Continues(h, n, hits, k, at) && k < |n|
    ensures match FindFrom(h, n[k], at)
            case None => Greedy(h, n, 0).None?
            case Some(i) => Continues(h, n, hits + [i], k + 1, i + 1)
  {
    hide FindFrom;
    assert n[k..][1..] == n[k + 1..];
    var found := FindFrom(h, n[k], at);
    if found.Some? && Greedy(h, n[k + 1..], found.value + 1).Some? {
      var more := Greedy(h, n[k + 1..], found.value + 1).value;
      assert hits + ([found.value] + more) == hits + [found.value] + more;
    }
  }

  lemma ContinuesNone(h: string, n: string)
    ensures Continues(h, n, [], 0, 0)
  {
    assert n[0..] == n;
    if Greedy(h, n, 0).Some? {
      assert [] + Greedy(h, n, 0).value == Greedy(h, n, 0).value;
    }
  }

  lemma ContinuesEnd(h: string, n: string, hits: seq<nat>, at: nat)
    requires Continues(h, n, hits, |n|, at)
    ensures Greedy(h, n, 0) == Some(hits)
  {
    assert n[|n|..] == "";
    assert hits + [] == hits;
  }

  /** Null exactly when the query is no subsequence; otherwise its leftmost places and their points. */
  method Score(haystack: string, needle: string) returns (r: Option<Scored>)
    ensures r.Some? <==> IsSubsequence(Lower(needle), Lower(haystack))
    ensures r.Some? ==>
      && Embeds(r.value.hits, Lower(haystack), Lower(needle), 0)
      && (forall e | Embeds(e, Lower(haystack), Lower(needle), 0) :: Leftmost(r.value.hits, e))
      && r.value.points == Points(Lower(haystack), r.value.hits)
  {
    hide Continues, Embeds, Leftmost, FindFrom, HitPoints, Greedy, IsSpace;
    var h, n := Lower(haystack), Lower(needle);
    GreedyIsLeftmost(h, n, 0);
    ContinuesNone(h, n);
    if needle == "" {
      ContinuesEnd(h, n, [], 0);
      return Some(Scored(0, []));
    }
    var hits, points, at := [], 0, 0;
    for k := 0 to |n|
      invariant Continues(h, n, hits, k, at) && points == Points(h, hits)
      invariant at == if hits == [] then 0 else hits[|hits| - 1] + 1
    {
      ContinuesOne(h, n, hits, k, at);
      FindFirst(h, n[k], at);
      var found := FindFrom(h, n[k], at);
      if found.None? {
        return None;
      }
      assert (hits + [found.value])[..|hits|] == hits;
      points := points + HitPoints(h, at, found.value);
      hits, at := hits + [found.value], found.value + 1;
    }
    ContinuesEnd(h, n, hits, at);
    return Some(Scored(points, hits));
  }

  // --- highlighting ---

  datatype Run = Run(on: bool, text: string)

  datatype Rendered = Plain(text: string) | Runs(runs: seq<Run>)

  function Shown(runs: seq<Run>): string {
    if runs == [] then "" else Shown(runs[..|runs| - 1]) + runs[|runs| - 1].text
  }

  function Repeat(b: bool, n: nat): (r: seq<bool>)
    ensures |r| == n && forall i | 0 <= i < n :: r[i] == b
  {
    seq(n, i => b)
  }

  /** For each character shown, whether it is marked. */
  function Marks(runs: seq<Run>): (r: seq<bool>) {
    if runs == [] then [] else Marks(runs[..|runs| - 1]) + Repeat(runs[|runs| - 1].on, |runs[|runs| - 1].text|)
  }

  /** No run is empty, and no two in a row are alike. */
  predicate Alternate(runs: seq<Run>) {
    && (forall i | 0 <= i < |runs| :: runs[i].text != "")
    && (forall i | 0 <= i < |runs| - 1 :: runs[i].on != runs[i + 1].on)
  }

  function MarkedAt(text: string, hits: seq<nat>): (r: seq<bool>)
    ensures |r| == |text|
  {
    seq(|text|, i requires 0 <= i < |text| => i in hits)
  }

  function Extended(runs: seq<Run>, on: bool, c: char): seq<Run> {
    if runs != [] && runs[|runs| - 1].on == on
    then runs[..|runs| - 1] + [Run(on, runs[|runs| - 1].text + [c])]
    else runs + [Run(on, [c])]
  }

  lemma ShownSnoc(runs: seq<Run>, r: Run)
    ensures Shown(runs + [r]) == Shown(runs) + r.text
    ensures Marks(runs + [r]) == Marks(runs) + Repeat(r.on, |r.text|)
  {
    hide Repeat;
    assert (runs + [r])[..|runs|] == runs;
  }

  lemma RepeatSnoc(b: bool, n: nat)
    ensures Repeat(b, n + 1) == Repeat(b, n) + [b]
    ensures Repeat(b, 0) == []
  {
  }

  lemma ExtendedAlternates(runs: seq<Run>, on: bool, c: char)
    requires Alternate(runs)
    ensures Alternate(Extended(runs, on, c))
  {
  }

  lemma ExtendedIs(runs: seq<Run>, on: bool, c: char)
    requires Alternate(runs)
    ensures var r := Extended(runs, on, c);
            Alternate(r) && Shown(r) == Shown(runs) + [c] && Marks(r) == Marks(runs) + [on]
  {
    hide Shown, Marks, Repeat, Alternate;
    ExtendedAlternates(runs, on, c);
    if runs != [] && runs[|runs| - 1].on == on {
      var front, last := runs[..|runs| - 1], runs[|runs| - 1];
      assert runs == front + [last];
      ShownSnoc(front, last);
      ShownSnoc(front, Run(on, last.text + [c]));
      RepeatSnoc(on, |last.text|);
      AppendOne(Shown(front), last.text, c);
      AppendOne(Marks(front), Repeat(on, |last.text|), on);
    } else {
      ShownSnoc(runs, Run(on, [c]));
      RepeatSnoc(on, 0);
      assert [] + [on] == [on];
    }
  }

  lemma AppendOne<T>(x: seq<T>, y: seq<T>, z: T)
    ensures x + (y + [z]) == x + y + [z]
  {
  }

  // --- the runs are the only ones ---

  lemma AlternateFront(runs: seq<Run>)
    requires Alternate(runs) && runs != []
    ensures Alternate(runs[..|runs| - 1]) && runs[|runs| - 1].text != ""
    ensures |runs| >= 2 ==> runs[|runs| - 2].on != runs[|runs| - 1].on
  {
  }

  /** The last run is as long as the last stretch of equal marks. */
  lemma LastRun(runs: seq<Run>)
    requires Alternate(runs) && runs != []
    ensures var k, m, r := |runs| - 1, Marks(runs), runs[|runs| - 1];
            && 1 <= |r.text| <= |m|
            && (forall i | |m| - |r.text| <= i < |m| :: m[i] == r.on)
            && (|r.text| < |m| ==> m[|m| - |r.text| - 1] != r.on)
            && m[..|m| - |r.text|] == Marks(runs[..k])
  {
    hide Alternate;
    var front, r := runs[..|runs| - 1], runs[|runs| - 1];
    AlternateFront(runs);
    var m := Marks(front);
    assert Marks(runs) == m + Repeat(r.on, |r.text|);
    if |m| > 0 {
      assert |front| >= 1;
      AlternateFront(front);
      var p := front[|front| - 1];
      assert m == Marks(front[..|front| - 1]) + Repeat(p.on, |p.text|);
      assert m[|m| - 1] == p.on;
    }
  }

  lemma LastRuns(x: seq<Run>, y: seq<Run>)
    requires Alternate(x) && Alternate(y) && Shown(x) == Shown(y) && Marks(x) == Marks(y) && x != [] && y != []
    ensures x[|x| - 1] == y[|y| - 1]
    ensures Shown(x[..|x| - 1]) == Shown(y[..|y| - 1]) && Marks(x[..|x| - 1]) == Marks(y[..|y| - 1])
  {
    hide Alternate, Marks;
    var r, q := x[|x| - 1], y[|y| - 1];
    LastRun(x);
    LastRun(y);
    SameLength(Marks(x), |r.text|, |q.text|, r.on, q.on);
    SameTail(Shown(x[..|x| - 1]), r.text, Shown(y[..|y| - 1]), q.text);
  }

  lemma EmptyTogether(x: seq<Run>, y: seq<Run>)
    requires Alternate(x) && Alternate(y) && Marks(x) == Marks(y)
    ensures x == [] <==> y == []
  {
    hide Alternate, Marks;
    NoRuns();
    if x != [] {
      LastRun(x);
    }
    if y != [] {
      LastRun(y);
    }
  }

  /** Alternating runs that show the same text with the same marks are the same runs. */
  lemma {:induction false} RunsUnique(x: seq<Run>, y: seq<Run>)
    requires Alternate(x) && Alternate(y) && Shown(x) == Shown(y) && Marks(x) == Marks(y)
    ensures x == y
    decreases |x|
  {
    hide Alternate, Shown, Marks;
    EmptyTogether(x, y);
    if x != [] {
      var xs, ys := x[..|x| - 1], y[..|y| - 1];
      LastRuns(x, y);
      AlternateFront(x);
      AlternateFront(y);
      RunsUnique(xs, ys);
      assert x == xs + [x[|x| - 1]] && y == ys + [y[|y| - 1]];
    }
  }

  lemma SameTail(a: string, b: string, c: string, d: string)
    requires a + b == c + d && |b| == |d|
    ensures a == c && b == d
  {
    assert a == (a + b)[..|a|] && c == (c + d)[..|a|];
    assert b == (a + b)[|a|..] && d == (c + d)[|a|..];
  }

  /** The length of the last stretch is determined by the marks. */
  lemma SameLength(m: seq<bool>, j: nat, k: nat, b: bool, c: bool)
    requires 1 <= j <= |m| && 1 <= k <= |m|
    requires forall i | |m| - j <= i < |m| :: m[i] == b
    requires forall i | |m| - k <= i < |m| :: m[i] == c
    requires (j < |m| ==> m[|m| - j - 1] != b) && (k < |m| ==> m[|m| - k - 1] != c)
    ensures j == k && b == c
  {
    assert m[|m| - 1] == b && m[|m| - 1] == c;
  }

  /** The runs alternate, show the text, and mark exactly the hits. */
  method Highlight(text: string, hits: seq<nat>) returns (r: Rendered)
    ensures match r
            case Plain(t) => hits == [] && t == text
            case Runs(runs) => hits != [] && Alternate(runs) && Shown(runs) == text && Marks(runs) == MarkedAt(text, hits)
  {
    hide Shown, Marks, Alternate;
    if |hits| == 0 {
      return Plain(text);
    }
    var runs := [];
    NoRuns();
    for i := 0 to |text|
      invariant Alternate(runs) && Shown(runs) == text[..i] && Marks(runs) == MarkedAt(text, hits)[..i]
    {
      var on := i in hits;
      ExtendedIs(runs, on, text[i]);
      assert text[..i + 1] == text[..i] + [text[i]];
      assert MarkedAt(text, hits)[..i + 1] == MarkedAt(text, hits)[..i] + [on];
      if |runs| > 0 && runs[|runs| - 1].on == on {
        runs := runs[..|runs| - 1] + [Run(on, runs[|runs| - 1].text + [text[i]])];
      } else {
        runs := runs + [Run(on, [text[i]])];
      }
    }
    assert text[..|text|] == text && MarkedAt(text, hits)[..|text|] == MarkedAt(text, hits);
    return Runs(runs);
  }

  lemma NoRuns()
    ensures Alternate([]) && Shown([]) == "" && Marks([]) == []
  {
  }

  /** A hit that starts a word beats any hit that does not. */
  lemma WordStartBeatsMiddle(h: string, at: nat, i: nat, at': nat, j: nat)
    requires i == 0 || (i - 1 < |h| && BreaksWord(h[i - 1]))
    requires 0 < j <= |h| && !BreaksWord(h[j - 1])
    ensures HitPoints(h, at, i) > HitPoints(h, at', j)
  {
    hide BreaksWord;
  }
}
