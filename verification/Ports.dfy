/** The two port searches of services/worker/src/placement.ts. */
module Ports {
  import opened Text
  import opened Sets

  datatype Range = Range(lo: int, hi: int)

  function Width(r: Range): nat {
    if r.lo <= r.hi then r.hi - r.lo + 1 else 0
  }

  predicate InRange(p: int, r: Range) {
    r.lo <= p <= r.hi
  }

  /** The least port from `p` on that is not taken. */
  function FreeFrom(taken: set<int>, p: int, hi: int): Option<int>
    decreases hi - p
  {
    if p > hi then None else if p !in taken then Some(p) else FreeFrom(taken, p + 1, hi)
  }

  function FreePort(taken: set<int>, r: Range): Option<int> {
    FreeFrom(taken, r.lo, r.hi)
  }

  /** The least `p`, two steps apart from the first, with `p` and `p + 1` free. */
  function FreePairFrom(taken: set<int>, p: int, hi: int): Option<int>
    decreases hi - p
  {
    if p + 1 > hi then None
    else if p !in taken && p + 1 !in taken then Some(p)
    else FreePairFrom(taken, p + 2, hi)
  }

  function FreePair(taken: set<int>, r: Range): Option<int> {
    FreePairFrom(taken, r.lo, r.hi)
  }

  method PickPort(used: set<int>, r: Range) returns (port: Option<int>)
    ensures port == FreePort(used, r)
  {
    var p := r.lo;
    while p <= r.hi
      invariant FreePort(used, r) == FreeFrom(used, p, r.hi)
      decreases r.hi - p
    {
      if p !in used {
        return Some(p);
      }
      p := p + 1;
    }
    port := None;
  }

  method PickPortPair(used: set<int>, r: Range) returns (port: Option<int>)
    ensures port == FreePair(used, r)
  {
    var p := r.lo;
    while p + 1 <= r.hi
      invariant FreePair(used, r) == FreePairFrom(used, p, r.hi)
      decreases r.hi - p
    {
      if p !in used && p + 1 !in used {
        return Some(p);
      }
      p := p + 2;
    }
    port := None;
  }

  /** `pickPort` is the least free port of the range, and fails only on a full range. */
  lemma {:induction false} FreeFromLeast(taken: set<int>, p: int, hi: int)
    ensures match FreeFrom(taken, p, hi)
            case Some(q) => p <= q <= hi && q !in taken && forall k | p <= k < q :: k in taken
            case None => forall k | p <= k <= hi :: k in taken
    decreases hi - p
  {
    if p <= hi && p in taken {
      FreeFromLeast(taken, p + 1, hi);
    }
  }

  /** Where a pair may start: an even distance from the start of the range, and inside it. */
  predicate Slot(p: int, r: Range) {
    r.lo <= p && p + 1 <= r.hi && (p - r.lo) % 2 == 0
  }

  lemma {:induction false} FreePairLeast(taken: set<int>, p: int, r: Range)
    requires r.lo <= p && (p - r.lo) % 2 == 0
    ensures match FreePairFrom(taken, p, r.hi)
            case Some(q) => Slot(q, r) && p <= q && q !in taken && q + 1 !in taken
                            && forall k | p <= k < q && Slot(k, r) :: k in taken || k + 1 in taken
            case None => forall k | p <= k && Slot(k, r) :: k in taken || k + 1 in taken
    decreases r.hi - p
  {
    if p + 1 <= r.hi && (p in taken || p + 1 in taken) {
      FreePairLeast(taken, p + 2, r);
      assert forall k | p <= k && Slot(k, r) :: k == p || p + 2 <= k;
    }
  }

  // --- counting ---

  function Interval(lo: int, n: nat): (r: set<int>)
    ensures forall k :: k in r <==> lo <= k < lo + n
    ensures |r| == n
  {
    if n == 0 then {}
    else
      var rest := Interval(lo, n - 1);
      assert lo + n - 1 !in rest;
      rest + {lo + n - 1}
  }

  /** Ports in use, all of them in the range: the search fails iff there are as many as the range is wide. */
  lemma FullIffWidth(taken: set<int>, r: Range)
    requires forall p | p in taken :: InRange(p, r)
    ensures FreePort(taken, r).None? <==> |taken| == Width(r)
    ensures |taken| <= Width(r)
  {
    var all := Interval(r.lo, Width(r));
    FreeFromLeast(taken, r.lo, r.hi);
    assert taken <= all;
    SubsetSize(taken, all);
    match FreePort(taken, r)
    case Some(q) => assert q in all;
    case None => assert taken == all;
  }

  /** The ports that pairs at `starts` occupy. */
  function PairPorts(starts: set<int>): set<int> {
    starts + set p | p in starts :: p + 1
  }

  /** Which slot, counted from the start of the range. */
  function SlotNumber(p: int, r: Range): int {
    (p - r.lo) / 2
  }

  function SlotNumbers(starts: set<int>, r: Range): set<int> {
    set p | p in starts :: SlotNumber(p, r)
  }

  lemma SlotNumberInjective(p: int, q: int, r: Range)
    requires Slot(p, r) && Slot(q, r) && p != q
    ensures SlotNumber(p, r) != SlotNumber(q, r)
  {
    assert p - r.lo == 2 * SlotNumber(p, r) && q - r.lo == 2 * SlotNumber(q, r);
  }

  lemma {:induction false} SlotNumbersCount(starts: set<int>, r: Range)
    requires forall p | p in starts :: Slot(p, r)
    ensures |SlotNumbers(starts, r)| == |starts|
  {
    hide Slot, SlotNumber;
    if starts == {} {
      assert SlotNumbers(starts, r) == {};
    } else {
      var p := AnyOf(starts);
      var rest := starts - {p};
      SlotNumbersCount(rest, r);
      assert SlotNumbers(starts, r) == SlotNumbers(rest, r) + {SlotNumber(p, r)};
      forall q | q in rest ensures SlotNumber(q, r) != SlotNumber(p, r) {
        SlotNumberInjective(p, q, r);
      }
    }
  }

  /** A slot is blocked only by the pair that starts there: pairs never interleave. */
  lemma PairsDoNotInterleave(starts: set<int>, p: int, r: Range)
    requires forall q | q in starts :: Slot(q, r)
    requires Slot(p, r)
    ensures (p in PairPorts(starts) || p + 1 in PairPorts(starts)) <==> p in starts
  {
    assert !Slot(p - 1, r) && !Slot(p + 1, r);
  }

  /**
   * Pairs at distinct slots: the pair search fails exactly when half the range's
   * width, rounded down, is already held.
   */
  lemma PairsFullIffHalf(starts: set<int>, r: Range)
    requires forall p | p in starts :: Slot(p, r)
    ensures FreePair(PairPorts(starts), r).None? <==> |starts| == Width(r) / 2
    ensures |starts| <= Width(r) / 2
  {
    hide Slot, SlotNumber, PairPorts;
    var all, numbers := Interval(0, Width(r) / 2), SlotNumbers(starts, r);
    FreePairFromStart(starts, r);
    SlotNumbersCount(starts, r);
    forall k | k in numbers ensures k in all {
      var p :| p in starts && k == SlotNumber(p, r);
      SlotNumberBound(p, r);
    }
    SubsetSize(numbers, all);
    if FreePair(PairPorts(starts), r).None? {
      forall k | k in all ensures k in numbers {
        AllSlotsHeld(starts, k, r);
      }
      assert numbers == all;
    } else {
      FreeSlotUncounted(starts, FreePair(PairPorts(starts), r).value, r);
    }
  }

  lemma FreePairFromStart(starts: set<int>, r: Range)
    requires forall p | p in starts :: Slot(p, r)
    ensures match FreePair(PairPorts(starts), r)
            case Some(p) => Slot(p, r) && p !in starts
            case None => forall p | Slot(p, r) :: p in PairPorts(starts) || p + 1 in PairPorts(starts)
  {
    FreePairLeast(PairPorts(starts), r.lo, r);
  }

  lemma SlotNumberBound(p: int, r: Range)
    requires Slot(p, r)
    ensures 0 <= SlotNumber(p, r) < Width(r) / 2
  {
  }

  lemma AllSlotsHeld(starts: set<int>, k: int, r: Range)
    requires forall p | p in starts :: Slot(p, r)
    requires forall p | Slot(p, r) :: p in PairPorts(starts) || p + 1 in PairPorts(starts)
    requires 0 <= k < Width(r) / 2
    ensures k in SlotNumbers(starts, r)
  {
    var p := r.lo + 2 * k;
    assert Slot(p, r);
    PairsDoNotInterleave(starts, p, r);
    assert SlotNumber(p, r) == k;
  }

  lemma FreeSlotUncounted(starts: set<int>, p: int, r: Range)
    requires forall q | q in starts :: Slot(q, r)
    requires Slot(p, r) && p !in starts
    ensures SlotNumber(p, r) !in SlotNumbers(starts, r) && 0 <= SlotNumber(p, r) < Width(r) / 2
  {
    forall q | q in starts ensures SlotNumber(q, r) != SlotNumber(p, r) {
      SlotNumberInjective(p, q, r);
    }
  }
}
