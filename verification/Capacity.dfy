/** What a project books and which nodes can take it: services/worker/src/placement.ts. */
module Capacity {
  import opened Text

  // --- plans ---

  function PlanRamMb(plan: string): (r: nat)
    ensures r > 0
  {
    if plan == "pro" || plan == "team" then 1024 else if plan == "enterprise" then 2048 else 350
  }

  function PlanDiskCapMb(plan: string): (r: nat)
    ensures r > 0
  {
    if plan == "pro" || plan == "team" then 8192 else if plan == "enterprise" then 32768 else 500
  }

  function CeilDiv(a: nat, b: nat): (r: nat)
    requires b > 0
    ensures r * b >= a && (r == 0 || (r - 1) * b < a)
  {
    (a + b - 1) / b
  }

  /** The quota: the cap and a fifth more. */
  function QuotaMb(capMb: nat): nat {
    CeilDiv(capMb * 6, 5)
  }

  /** The quota in whole gigabytes. */
  function DiskGb(capMb: nat): (r: nat)
    ensures r >= 1
  {
    var gb := CeilDiv(QuotaMb(capMb), 1024);
    if gb > 1 then gb else 1
  }

  datatype Booking = Booking(ramMb: int, diskGb: int)

  function BookingFor(plan: string): (r: Booking)
    ensures r.ramMb > 0 && r.diskGb > 0
  {
    Booking(PlanRamMb(plan), DiskGb(PlanDiskCapMb(plan)))
  }

  /** The booking is the least number of gigabytes, one at least, that holds the cap and a fifth more. */
  lemma BookingCoversQuota(capMb: nat)
    ensures 5 * (1024 * DiskGb(capMb)) >= 6 * capMb && DiskGb(capMb) * 1024 >= QuotaMb(capMb)
    ensures DiskGb(capMb) > 1 ==> 5 * (1024 * (DiskGb(capMb) - 1)) < 6 * capMb
    ensures 5 * QuotaMb(capMb) >= 6 * capMb && (QuotaMb(capMb) > 0 ==> 5 * (QuotaMb(capMb) - 1) < 6 * capMb)
  {
  }

  /** What a project of each plan books; one of a plan that is not known books as a free one. */
  lemma PlansBook(plan: string)
    ensures BookingFor("enterprise") == Booking(2048, 39)
    ensures BookingFor("pro") == BookingFor("team") == Booking(1024, 10)
    ensures plan !in {"pro", "team", "enterprise"} ==> BookingFor(plan) == Booking(350, 1)
    ensures PlanDiskCapMb("enterprise") == 4 * PlanDiskCapMb("pro") == 4 * PlanDiskCapMb("team") == 32 * 1024
    ensures plan !in {"pro", "team", "enterprise"} ==> PlanDiskCapMb(plan) == 500
  {
    assert |"pro"| == 3 && |"team"| == 4 && |"enterprise"| == 10;
  }

  // --- nodes ---

  datatype Node = Node(
    hostname: string, region: string, active: bool,
    ramTotal: int, ramReserved: int, diskTotal: int, diskReserved: int)

  /** 85 % of `total`, rounded down: where placement stops. */
  function Ceiling(total: int): int {
    total * 17 / 20
  }

  lemma CeilingGrows(total: int, total': int)
    requires total <= total'
    ensures Ceiling(total) <= Ceiling(total')
  {
  }

  /** Room for both axes under the ceiling. */
  predicate Room(n: Node, b: Booking) {
    && Ceiling(n.ramTotal) - n.ramReserved >= b.ramMb
    && Ceiling(n.diskTotal) - n.diskReserved >= b.diskGb
  }

  /** Room is up to and including 85 % of both totals. */
  lemma RoomIff(n: Node, b: Booking)
    ensures Room(n, b) <==>
      && 20 * (n.ramReserved + b.ramMb) <= 17 * n.ramTotal
      && 20 * (n.diskReserved + b.diskGb) <= 17 * n.diskTotal
  {
  }

  /** A booking of nothing on either axis is refused, and any other is answered by the room there is. */
  lemma FitsIff(n: Node, b: Booking)
    ensures Fits(n, b).Refused? <==> !(b.ramMb > 0 && b.diskGb > 0)
    ensures Fits(n, b).Ok? ==> Fits(n, b).value == Room(n, b)
  {
    hide Room;
  }

  datatype Outcome<T> = Ok(value: T) | Refused

  /** And so for RAM alone. */
  lemma CanFitIff(n: Node, ramMb: int)
    ensures CanFit(n, ramMb) == if ramMb <= 0 then Refused else Ok(20 * (n.ramReserved + ramMb) <= 17 * n.ramTotal)
  {
  }

  function Fits(n: Node, b: Booking): Outcome<bool> {
    if b.ramMb <= 0 || b.diskGb <= 0 then Refused else Ok(Room(n, b))
  }

  function CanFit(n: Node, ramMb: int): Outcome<bool> {
    if ramMb <= 0 then Refused else Ok(Ceiling(n.ramTotal) - n.ramReserved >= ramMb)
  }

  datatype Fill = Finite(ratio: real) | Infinite

  function AxisFill(total: int, reserved: int): Fill {
    if total > 0 then Finite(reserved as real / (total as real * 0.85)) else Infinite
  }

  /** The larger of the RAM and disk fractions of the ceiling. */
  function FillRatio(n: Node): Fill {
    var ram, disk := AxisFill(n.ramTotal, n.ramReserved), AxisFill(n.diskTotal, n.diskReserved);
    if ram.Infinite? || disk.Infinite? then Infinite
    else if ram.ratio >= disk.ratio then ram
    else disk
  }

  lemma RoomIsFinite(n: Node, b: Booking)
    requires Room(n, b) && b.ramMb > 0 && b.diskGb > 0 && n.ramReserved >= 0 && n.diskReserved >= 0
    ensures FillRatio(n).Finite?
  {
  }

  // --- ranking ---

  /** The comparison the sort uses puts `x` strictly ahead of `y`; `Precedes` stands in for `localeCompare`. */
  predicate Ahead(x: Node, y: Node) {
    var fx, fy := FillRatio(x), FillRatio(y);
    if fx.Finite? && fy.Finite? then
      fx.ratio < fy.ratio || (fx.ratio == fy.ratio && Precedes(x.hostname, y.hostname))
    else fx.Finite? && fy.Infinite?
  }

  lemma AheadTransitive(x: Node, y: Node, z: Node)
    requires Ahead(x, y) && Ahead(y, z)
    ensures Ahead(x, z)
  {
    hide FillRatio, Precedes;
    if Precedes(x.hostname, y.hostname) && Precedes(y.hostname, z.hostname) {
      PrecedesTransitive(x.hostname, y.hostname, z.hostname);
    }
  }

  lemma AheadTotal(x: Node, y: Node)
    requires FillRatio(x).Finite? && FillRatio(y).Finite?
    ensures Ahead(x, y) || Ahead(y, x) || x.hostname == y.hostname
    ensures !(Ahead(x, y) && Ahead(y, x))
  {
    hide FillRatio, Precedes;
    PrecedesTotal(x.hostname, y.hostname);
  }

  type NodeId = string

  /** A node and its id, as the snapshot query returns it. */
  datatype Candidate = Candidate(id: NodeId, node: Node)

  predicate HostnamesApart(cs: seq<Candidate>) {
    forall i, j | 0 <= i < j < |cs| :: cs[i].node.hostname != cs[j].node.hostname
  }

  predicate Rankable(cs: seq<Candidate>) {
    && (forall c | c in cs :: FillRatio(c.node).Finite?)
    && HostnamesApart(cs)
  }

  function Insert(c: Candidate, cs: seq<Candidate>): (r: seq<Candidate>)
    ensures multiset(r) == multiset(cs) + multiset{c}
  {
    if cs == [] then [c]
    else
      assert cs == [cs[0]] + cs[1..];
      if Ahead(c.node, cs[0].node) then [c] + cs else [cs[0]] + Insert(c, cs[1..])
  }

  function Fitting(cs: seq<Candidate>, b: Booking): (r: seq<Candidate>)
    ensures forall c :: c in r <==> c in cs && Room(c.node, b)
  {
    if cs == [] then [] else
      (if Room(cs[0].node, b) then [cs[0]] else []) + Fitting(cs[1..], b)
  }

  function Sorted(cs: seq<Candidate>): (r: seq<Candidate>)
    ensures multiset(r) == multiset(cs)
  {
    if cs == [] then []
    else
      assert cs == cs[..|cs| - 1] + [cs[|cs| - 1]];
      Insert(cs[|cs| - 1], Sorted(cs[..|cs| - 1]))
  }

  /** The candidates with room, by increasing fill. */
  function RankNodes(cs: seq<Candidate>, b: Booking): Outcome<seq<Candidate>> {
    if cs != [] && (b.ramMb <= 0 || b.diskGb <= 0) then Refused else Ok(Sorted(Fitting(cs, b)))
  }

  predicate InOrder(cs: seq<Candidate>) {
    forall i, j | 0 <= i < j < |cs| :: Ahead(cs[i].node, cs[j].node)
  }

  lemma {:induction false} InsertInOrder(c: Candidate, cs: seq<Candidate>)
    requires InOrder(cs) && FillRatio(c.node).Finite?
    requires forall x | x in cs :: FillRatio(x.node).Finite? && x.node.hostname != c.node.hostname
    ensures InOrder(Insert(c, cs))
  {
    hide FillRatio, Ahead;
    if cs != [] {
      var r := Insert(c, cs);
      if Ahead(c.node, cs[0].node) {
        forall j | 1 <= j < |r| ensures Ahead(c.node, r[j].node) {
          if j > 1 {
            AheadTransitive(c.node, cs[0].node, cs[j - 1].node);
          }
        }
      } else {
        InsertInOrder(c, cs[1..]);
        AheadTotal(c.node, cs[0].node);
        var rest := Insert(c, cs[1..]);
        forall x | x in rest ensures Ahead(cs[0].node, x.node) {
          assert x in multiset(rest);
          assert x == c || x in cs[1..];
        }
      }
    }
  }

  lemma {:induction false} SortedInOrder(cs: seq<Candidate>)
    requires Rankable(cs)
    ensures InOrder(Sorted(cs))
  {
    hide FillRatio, Ahead;
    if cs != [] {
      var front, last := cs[..|cs| - 1], cs[|cs| - 1];
      SortedInOrder(front);
      forall x | x in Sorted(front)
        ensures FillRatio(x.node).Finite? && x.node.hostname != last.node.hostname
      {
        assert x in multiset(Sorted(front));
        assert x in front;
      }
      InsertInOrder(last, Sorted(front));
    }
  }

  lemma HeadsAgree(x: seq<Candidate>, y: seq<Candidate>)
    requires InOrder(x) && InOrder(y) && x != [] && y != []
    requires x[0] in y && y[0] in x && FillRatio(x[0].node).Finite? && FillRatio(y[0].node).Finite?
    ensures x[0] == y[0]
  {
    hide FillRatio, Ahead;
    AheadTotal(x[0].node, y[0].node);
  }

  lemma SameTails(x: seq<Candidate>, y: seq<Candidate>)
    requires multiset(x) == multiset(y) && x != [] && y != [] && x[0] == y[0]
    ensures multiset(x[1..]) == multiset(y[1..])
  {
    assert x == [x[0]] + x[1..] && y == [y[0]] + y[1..];
    assert multiset(x[1..]) == multiset(x) - multiset{x[0]};
    assert multiset(y[1..]) == multiset(y) - multiset{y[0]};
  }

  /** An ordered list is determined by its members: whatever else sorts them agrees. */
  lemma {:induction false} OrderUnique(x: seq<Candidate>, y: seq<Candidate>)
    requires InOrder(x) && InOrder(y) && multiset(x) == multiset(y)
    requires forall c | c in x :: FillRatio(c.node).Finite?
    ensures x == y
    decreases |x|
  {
    hide FillRatio, Ahead;
    assert |multiset(x)| == |x| && |multiset(y)| == |y|;
    if x != [] {
      assert x[0] in multiset(y) && y[0] in multiset(x);
      HeadsAgree(x, y);
      SameTails(x, y);
      OrderUnique(x[1..], y[1..]);
      assert x == [x[0]] + x[1..] && y == [y[0]] + y[1..];
    }
  }

  lemma {:induction false} FittingDistinct(cs: seq<Candidate>, b: Booking)
    requires HostnamesApart(cs)
    ensures HostnamesApart(Fitting(cs, b))
  {
    hide Room;
    if cs != [] {
      FittingDistinct(cs[1..], b);
      var r := Fitting(cs[1..], b);
      forall x | x in r ensures x.node.hostname != cs[0].node.hostname {
        assert x in cs[1..];
      }
    }
  }

  lemma {:induction false} FittingMultiset(cs: seq<Candidate>, ds: seq<Candidate>, b: Booking)
    requires multiset(cs) == multiset(ds)
    ensures multiset(Fitting(cs, b)) == multiset(Fitting(ds, b))
  {
    forall c: Candidate ensures multiset(Fitting(cs, b))[c] == multiset(Fitting(ds, b))[c] {
      FittingCount(cs, b, c);
      FittingCount(ds, b, c);
    }
  }

  lemma {:induction false} FittingCount(cs: seq<Candidate>, b: Booking, c: Candidate)
    ensures multiset(Fitting(cs, b))[c] == if Room(c.node, b) then multiset(cs)[c] else 0
  {
    hide Room;
    if cs != [] {
      FittingCount(cs[1..], b, c);
      assert cs == [cs[0]] + cs[1..];
    }
  }

  /** A snapshot as the database can return it: hostnames are unique, reservations not negative. */
  predicate Snapshot(cs: seq<Candidate>) {
    && (forall c | c in cs :: c.node.ramReserved >= 0 && c.node.diskReserved >= 0)
    && HostnamesApart(cs)
  }

  /** The ranking is exactly the fitting nodes, strictly ordered. */
  lemma RankingIsOrdered(cs: seq<Candidate>, b: Booking)
    requires Snapshot(cs) && b.ramMb > 0 && b.diskGb > 0
    ensures var r := RankNodes(cs, b);
            && r.Ok? && InOrder(r.value)
            && (forall c :: c in r.value <==> c in cs && Room(c.node, b))
  {
    hide FillRatio, Room, Ahead;
    var fitting := Fitting(cs, b);
    forall c | c in fitting ensures FillRatio(c.node).Finite? {
      RoomIsFinite(c.node, b);
    }
    FittingDistinct(cs, b);
    SortedInOrder(fitting);
    forall c: Candidate ensures c in Sorted(fitting) <==> c in fitting {
      assert c in Sorted(fitting) <==> c in multiset(Sorted(fitting));
    }
  }

  /** The ranking does not depend on the order in which the query returned the nodes. */
  lemma RankingIsReproducible(cs: seq<Candidate>, ds: seq<Candidate>, b: Booking)
    requires Snapshot(cs) && Snapshot(ds) && multiset(cs) == multiset(ds)
    requires b.ramMb > 0 && b.diskGb > 0
    ensures RankNodes(cs, b) == RankNodes(ds, b)
  {
    hide FillRatio, Room, Ahead, InOrder;
    RankingIsOrdered(cs, b);
    RankingIsOrdered(ds, b);
    FittingMultiset(cs, ds, b);
    forall c | c in Sorted(Fitting(cs, b)) ensures FillRatio(c.node).Finite? {
      RoomIsFinite(c.node, b);
    }
    OrderUnique(Sorted(Fitting(cs, b)), Sorted(Fitting(ds, b)));
  }

  /** The fill of a node is the maximum over its two axes. */
  lemma FillIsTheWorse(n: Node)
    requires n.ramTotal > 0 && n.diskTotal > 0
    ensures var ram, disk := AxisFill(n.ramTotal, n.ramReserved), AxisFill(n.diskTotal, n.diskReserved);
            && FillRatio(n).Finite? && (FillRatio(n) == ram || FillRatio(n) == disk)
            && FillRatio(n).ratio >= ram.ratio && FillRatio(n).ratio >= disk.ratio
  {
  }

  lemma QuotientAtMostOne(x: real, c: real)
    requires c > 0.0 && x <= c
    ensures x / c <= 1.0
  {
    var q := x / c;
    assert q * c == x;
    assert (q - 1.0) * c == x - c;
    NotPositive(q - 1.0, c);
  }

  lemma NotPositive(a: real, c: real)
    requires c > 0.0 && a * c <= 0.0
    ensures a <= 0.0
  {
  }

  lemma AxisBelowOne(total: int, reserved: int)
    requires total > 0 && reserved <= Ceiling(total)
    ensures AxisFill(total, reserved).ratio <= 1.0
  {
    assert reserved * 20 <= total * 17;
    QuotientAtMostOne(reserved as real, total as real * 0.85);
  }

  /** A ratio of 1 is the placement stop: a node with room for a booking is at most at 1 once it is booked. */
  lemma RoomStopsAtOne(n: Node, b: Booking)
    requires n.ramTotal > 0 && n.diskTotal > 0 && Room(n, b)
    ensures FillRatio(n.(ramReserved := n.ramReserved + b.ramMb, diskReserved := n.diskReserved + b.diskGb)).ratio <= 1.0
  {
    hide Ceiling;
    AxisBelowOne(n.ramTotal, n.ramReserved + b.ramMb);
    AxisBelowOne(n.diskTotal, n.diskReserved + b.diskGb);
  }

  // --- emptiest first, in whole numbers ---

  /** One axis of a node: how much of it is reserved. */
  datatype Share = Share(reserved: int, total: int)

  function RamShare(n: Node): Share {
    Share(n.ramReserved, n.ramTotal)
  }

  function DiskShare(n: Node): Share {
    Share(n.diskReserved, n.diskTotal)
  }

  /** Of two shares of positive totals, the first is strictly the smaller fraction. */
  predicate Less(x: Share, y: Share) {
    x.reserved * y.total < y.reserved * x.total
  }

  /** The larger of the two fractions of `x` is strictly below the larger of those of `y`. */
  predicate Emptier(x: Node, y: Node) {
    || (Less(RamShare(x), RamShare(y)) && Less(DiskShare(x), RamShare(y)))
    || (Less(RamShare(x), DiskShare(y)) && Less(DiskShare(x), DiskShare(y)))
  }

  /** Emptier, or as empty and first by name. */
  predicate Before(x: Node, y: Node) {
    Emptier(x, y) || (!Emptier(y, x) && Precedes(x.hostname, y.hostname))
  }

  predicate Positive(n: Node) {
    n.ramTotal > 0 && n.diskTotal > 0
  }

  lemma ScaledLess(a: real, c: real, b: real, d: real)
    requires c > 0.0 && d > 0.0 && a * d < b * c
    ensures a / c < b / d
  {
    var x, y := a / c, b / d;
    assert a == x * c && b == y * d;
    assert (x - y) * (c * d) == a * d - b * c;
    if x >= y {
      NotNegative(x - y, c * d);
    }
  }

  lemma NotNegative(x: real, y: real)
    requires x >= 0.0 && y >= 0.0
    ensures x * y >= 0.0
  {
  }

  lemma ScaledEqual(a: real, c: real, b: real, d: real)
    requires c > 0.0 && d > 0.0 && a * d == b * c
    ensures a / c == b / d
  {
    var x, y := a / c, b / d;
    assert a == x * c && b == y * d;
    assert (x - y) * (c * d) == 0.0;
  }

  lemma AxisLess(x: Share, y: Share)
    requires x.total > 0 && y.total > 0
    ensures AxisFill(x.total, x.reserved).ratio < AxisFill(y.total, y.reserved).ratio <==> Less(x, y)
  {
    var a, b := x.reserved as real, y.reserved as real;
    var c, d := x.total as real * 0.85, y.total as real * 0.85;
    assert a * d == (x.reserved * y.total) as real * 0.85 && b * c == (y.reserved * x.total) as real * 0.85;
    if x.reserved * y.total < y.reserved * x.total {
      ScaledLess(a, c, b, d);
    } else if x.reserved * y.total > y.reserved * x.total {
      ScaledLess(b, d, a, c);
    } else {
      ScaledEqual(a, c, b, d);
    }
  }

  /**
   * Of two nodes with positive totals, the ranking puts first the one whose larger fraction of RAM or disk is
   * strictly the smaller, and between equal ones the hostname decides.
   */
  lemma AheadIffBefore(x: Node, y: Node)
    requires Positive(x) && Positive(y)
    ensures Ahead(x, y) <==> Before(x, y)
  {
    hide AxisFill, Less, Precedes;
    BothFinite(x);
    BothFinite(y);
    AxisLess(RamShare(x), RamShare(y));
    AxisLess(RamShare(x), DiskShare(y));
    AxisLess(DiskShare(x), RamShare(y));
    AxisLess(DiskShare(x), DiskShare(y));
    AxisLess(RamShare(y), RamShare(x));
    AxisLess(RamShare(y), DiskShare(x));
    AxisLess(DiskShare(y), RamShare(x));
    AxisLess(DiskShare(y), DiskShare(x));
  }

  lemma BothFinite(n: Node)
    requires Positive(n)
    ensures AxisFill(n.ramTotal, n.ramReserved).Finite? && AxisFill(n.diskTotal, n.diskReserved).Finite?
  {
  }

  lemma RoomIsPositive(n: Node, b: Booking)
    requires Room(n, b) && b.ramMb > 0 && b.diskGb > 0 && n.ramReserved >= 0 && n.diskReserved >= 0
    ensures Positive(n)
  {
  }

  predicate Ascending(cs: seq<Candidate>) {
    forall i, j | 0 <= i < j < |cs| :: Before(cs[i].node, cs[j].node)
  }

  /** The ranking is exactly the fitting nodes, emptiest first. */
  lemma RankingIsEmptiestFirst(cs: seq<Candidate>, b: Booking)
    requires Snapshot(cs) && b.ramMb > 0 && b.diskGb > 0
    ensures var r := RankNodes(cs, b);
            && r.Ok? && Ascending(r.value)
            && (forall c :: c in r.value <==> c in cs && Room(c.node, b))
  {
    hide Room, Ahead, Before, RankNodes;
    RankingIsOrdered(cs, b);
    var r := RankNodes(cs, b).value;
    forall i, j | 0 <= i < j < |r| ensures Before(r[i].node, r[j].node) {
      RoomIsPositive(r[i].node, b);
      RoomIsPositive(r[j].node, b);
      AheadIffBefore(r[i].node, r[j].node);
    }
  }
}
