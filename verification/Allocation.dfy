/** An undisturbed allocation, reconciliation, and the registry that is updated in place. */
module Allocation {
  import opened Text
  import opened Sets
  import opened Capacity
  import opened Ports
  import opened Placement
  import opened PlacementSafety

  // --- an undisturbed allocation ---

  lemma {:induction false} CandidatesAre(db: Db, order: seq<NodeId>, stale: set<NodeId>)
    ensures forall c | c in CandidatesOf(db, order, stale) ::
      c.id in order && c.id !in stale && c.id in db.nodes && c.node == db.nodes[c.id]
    ensures forall id | id in order && id !in stale && id in db.nodes ::
      Candidate(id, db.nodes[id]) in CandidatesOf(db, order, stale)
  {
    if order != [] {
      CandidatesAre(db, order[1..], stale);
      assert order == [order[0]] + order[1..];
    }
  }

  lemma {:induction false} CandidatesDistinct(db: Db, order: seq<NodeId>, stale: set<NodeId>)
    requires HostnamesUnique(db) && forall i, j | 0 <= i < j < |order| :: order[i] != order[j]
    ensures HostnamesApart(CandidatesOf(db, order, stale))
  {
    if order != [] {
      CandidatesDistinct(db, order[1..], stale);
      CandidatesAre(db, order[1..], stale);
      hide CandidatesOf;
      var rest := CandidatesOf(db, order[1..], stale);
      forall c | c in rest && order[0] in db.nodes ensures c.node.hostname != db.nodes[order[0]].hostname {
      }
      CandidatesHead(db, order, stale);
    }
  }

  lemma CandidatesHead(db: Db, order: seq<NodeId>, stale: set<NodeId>)
    requires order != []
    ensures CandidatesOf(db, order, stale)
         == (if order[0] in db.nodes && order[0] !in stale then [Candidate(order[0], db.nodes[order[0]])] else [])
            + CandidatesOf(db, order[1..], stale)
  {
  }

  /** The snapshot's live nodes with room for the project. */
  predicate Eligible(db: Db, cfg: Config, project: ProjectId, region: string, stale: set<NodeId>, id: NodeId) {
    && id in db.nodes && id !in stale && db.nodes[id].active && db.nodes[id].region == region
    && Room(db.nodes[id], BookingFor(PlanOf(cfg, project)))
  }

  lemma ReservedNonNegative(db: Db)
    requires Accounts(db)
    ensures forall id | id in db.nodes :: db.nodes[id].ramReserved >= 0 && db.nodes[id].diskReserved >= 0
  {
    forall id | id in db.nodes ensures db.nodes[id].ramReserved >= 0 && db.nodes[id].diskReserved >= 0 {
      assert Reserved(db.nodes[id], Ram) == Sum(db.rows, id, Ram);
      assert Reserved(db.nodes[id], Disk) == Sum(db.rows, id, Disk);
    }
  }

  lemma SnapshotHolds(db: Db, cs: seq<Candidate>)
    requires forall c | c in cs :: c.id in db.nodes && c.node == db.nodes[c.id]
    requires HostnamesApart(cs)
    requires forall id | id in db.nodes :: db.nodes[id].ramReserved >= 0 && db.nodes[id].diskReserved >= 0
    ensures Snapshot(cs)
  {
    forall c | c in cs ensures c.node.ramReserved >= 0 && c.node.diskReserved >= 0 {
      assert c.id in db.nodes;
    }
  }

  lemma RankedAreEligible(s: State, cfg: Config, project: ProjectId, region: string, order: seq<NodeId>, stale: set<NodeId>)
    requires Accounts(s.db) && HostnamesUnique(s.db) && IsSnapshot(s.db, region, order)
    ensures var r := RankNodes(CandidatesOf(s.db, order, stale), BookingFor(PlanOf(cfg, project)));
            && r.Ok? && Ascending(r.value)
            && (forall c | c in r.value :: Eligible(s.db, cfg, project, region, stale, c.id) && c.node == s.db.nodes[c.id])
            && (forall id | Eligible(s.db, cfg, project, region, stale, id) :: Candidate(id, s.db.nodes[id]) in r.value)
  {
    hide Accounts, Room, Ascending, CandidatesOf, RankNodes;
    CandidatesAre(s.db, order, stale);
    CandidatesDistinct(s.db, order, stale);
    ReservedNonNegative(s.db);
    SnapshotHolds(s.db, CandidatesOf(s.db, order, stale));
    RankingIsEmptiestFirst(CandidatesOf(s.db, order, stale), BookingFor(PlanOf(cfg, project)));
  }

  /**
   * With no one in between, the first candidate tried is the emptiest eligible node
   * and its re-check passes; with no eligible node the attempt ends at once.
   */
  lemma UndisturbedAllocation(
    s: State, cfg: Config, w: Worker, project: ProjectId, region: string, order: seq<NodeId>, stale: set<NodeId>)
    requires Good(s.db, cfg) && IsSnapshot(s.db, region, order) && TaskOf(s, w) == Checked(project, region)
    ensures var s' := Step(s, cfg, Rank(w, order, stale));
            match TaskOf(s', w)
            case Idle => forall id :: !Eligible(s.db, cfg, project, region, stale, id)
            case Checked(_, _) => false
            case Walking(p, queue) =>
              && p == project && queue != [] && Eligible(s.db, cfg, project, region, stale, queue[0])
              && !TryNode(s'.db, cfg, project, queue[0]).1.NextCandidate?
              && forall id | Eligible(s.db, cfg, project, region, stale, id) && id != queue[0] ::
                   Before(s.db.nodes[queue[0]], s.db.nodes[id])
  {
    hide RankNodes, Accounts, PortsOk, HostnamesUnique, PlansAgree, IsSnapshot, Before, Room, NewRow, CandidatesOf;
    RankedAreEligible(s, cfg, project, region, order, stale);
    var ranked := RankNodes(CandidatesOf(s.db, order, stale), BookingFor(PlanOf(cfg, project))).value;
    if ranked == [] {
      forall id ensures !Eligible(s.db, cfg, project, region, stale, id) {
      }
    } else {
      assert ranked[0] in ranked;
      forall id | Eligible(s.db, cfg, project, region, stale, id) && id != ranked[0].id
        ensures Before(s.db.nodes[ranked[0].id], s.db.nodes[id])
      {
        assert Candidate(id, s.db.nodes[id]) in ranked;
      }
    }
  }

  /** The table's own check, reserved at most total, is a backstop that never fires. */
  lemma BackstopNeverFires(db: Db, id: NodeId)
    requires UnderCeiling(db) && id in db.nodes && db.nodes[id].ramTotal >= 0
    ensures db.nodes[id].ramReserved <= db.nodes[id].ramTotal
  {
    assert Reserved(db.nodes[id], Ram) <= Limit(db.nodes[id], Ram);
  }

  // --- what a transaction does, in its own terms ---

  /** A port of the range that no one on the node has. */
  predicate HasFree(taken: set<int>, r: Range) {
    exists p :: r.lo <= p <= r.hi && p !in taken
  }

  /** Two neighbouring ports that no one on the node has, the first at an even distance from the start. */
  ghost predicate HasFreePair(taken: set<int>, r: Range) {
    exists p :: Slot(p, r) && p !in taken && p + 1 !in taken
  }

  lemma FreeIff(taken: set<int>, r: Range)
    ensures FreePort(taken, r).Some? <==> HasFree(taken, r)
    ensures FreePair(taken, r).Some? <==> HasFreePair(taken, r)
  {
    FreeFromLeast(taken, r.lo, r.hi);
    FreePairLeast(taken, r.lo, r);
  }

  /** A try places the project exactly when the node is active and has room, there are ports, and there is no row yet. */
  lemma TryPlacesIff(db: Db, cfg: Config, project: ProjectId, id: NodeId)
    ensures TryNode(db, cfg, project, id).1.Placed? <==>
      && id in db.nodes && db.nodes[id].active && Room(db.nodes[id], BookingFor(PlanOf(cfg, project)))
      && project !in db.rows
      && HasFree(PgPorts(db.rows, id), cfg.ranges.pg) && HasFree(PoolerPorts(db.rows, id), cfg.ranges.pooler)
      && HasFreePair(PostgrestPorts(db.rows, id), cfg.ranges.postgrest)
  {
    hide HasFree, HasFreePair, Room, FreePort, FreePair;
    FreeIff(PgPorts(db.rows, id), cfg.ranges.pg);
    FreeIff(PoolerPorts(db.rows, id), cfg.ranges.pooler);
    FreeIff(PostgrestPorts(db.rows, id), cfg.ranges.postgrest);
  }

  /** The row of a placed project books what its plan does, and a project of no known plan books as a free one. */
  lemma PlacedBooks(db: Db, cfg: Config, project: ProjectId, id: NodeId)
    requires TryNode(db, cfg, project, id).1.Placed?
    ensures var (t, attempt) := TryNode(db, cfg, project, id);
            var plan := if project in cfg.plans then cfg.plans[project] else "free";
            && id in db.nodes && t.rows == db.rows[project := attempt.row] && attempt.row.node == id
            && attempt.row.ramBooked == BookingFor(plan).ramMb && DiskGb(attempt.row.capMb) == BookingFor(plan).diskGb
            && t.nodes == db.nodes[id := db.nodes[id].(
                 ramReserved := db.nodes[id].ramReserved + BookingFor(plan).ramMb,
                 diskReserved := db.nodes[id].diskReserved + BookingFor(plan).diskGb)]
  {
    hide Room, FreePort, FreePair;
  }

  /** A worker whose candidate has no room any more goes on to the next, and in any other case is done. */
  lemma WalkGoesOn(s: State, cfg: Config, w: Worker, project: ProjectId, queue: seq<NodeId>)
    requires TaskOf(s, w) == Walking(project, queue) && queue != []
    ensures var t, attempt := Step(s, cfg, Try(w)), TryNode(s.db, cfg, project, queue[0]).1;
            && (attempt.NextCandidate? ==> t.db == s.db && TaskOf(t, w) == Walking(project, queue[1..]))
            && (!attempt.NextCandidate? ==> TaskOf(t, w) == Idle)
            && (attempt.Placed? ==> project in t.db.rows && t.db.rows[project].node == queue[0])
            && forall v | v != w :: TaskOf(t, v) == TaskOf(s, v)
  {
    hide Room, NewRow;
    if TryNode(s.db, cfg, project, queue[0]).1.Placed? {
      PlacedNode(s.db, cfg, project, queue[0]);
    }
  }

  lemma PlacedNode(db: Db, cfg: Config, project: ProjectId, id: NodeId)
    requires TryNode(db, cfg, project, id).1.Placed?
    ensures project in TryNode(db, cfg, project, id).0.rows && TryNode(db, cfg, project, id).0.rows[project].node == id
  {
    PlacedBooks(db, cfg, project, id);
  }

  /**
   * A registration adds an active, empty node, or gives a known one its new totals and leaves the rest; it is
   * refused for a hostname of another node, for no RAM, and for less RAM than is reserved.
   */
  lemma RegisterIs(db: Db, id: NodeId, hostname: string, region: string, ramTotal: int, diskTotal: int)
    ensures var t := Register(db, id, hostname, region, ramTotal, diskTotal);
            var known := id in db.nodes;
            var refused := || ramTotal < 1 || (exists j | j in db.nodes :: j != id && db.nodes[j].hostname == hostname)
                           || (known && (db.nodes[id].hostname != hostname || ramTotal < db.nodes[id].ramReserved));
            && t.rows == db.rows
            && (refused ==> t == db)
            && (!refused ==> t.nodes.Keys == db.nodes.Keys + {id} && (forall j | j in db.nodes && j != id :: t.nodes[j] == db.nodes[j]))
            && (!refused && known ==> t.nodes[id] == db.nodes[id].(ramTotal := ramTotal, diskTotal := diskTotal))
            && (!refused && !known ==> t.nodes[id] == Node(hostname, region, true, ramTotal, 0, diskTotal, 0))
  {
  }

  /** Cordoning changes one flag; a node goes exactly when no row is on it. */
  lemma CordonAndRemove(db: Db, id: NodeId, active: bool)
    ensures var t := SetActive(db, id, active);
            && t.rows == db.rows && t.nodes.Keys == db.nodes.Keys
            && (forall j | j in db.nodes :: t.nodes[j] == if j == id then db.nodes[j].(active := active) else db.nodes[j])
    ensures DeleteNode(db, id).rows == db.rows
    ensures DeleteNode(db, id).nodes == if exists p | p in db.rows :: db.rows[p].node == id then db.nodes else db.nodes - {id}
  {
  }

  /** Every region has a snapshot. */
  lemma SnapshotExists(db: Db, region: string) returns (order: seq<NodeId>)
    ensures IsSnapshot(db, region, order)
  {
    order := Listing(set id | id in db.nodes && db.nodes[id].active && db.nodes[id].region == region);
  }

  lemma {:induction false} Listing(ids: set<NodeId>) returns (order: seq<NodeId>)
    ensures forall id :: id in order <==> id in ids
    ensures forall i, j | 0 <= i < j < |order| :: order[i] != order[j]
  {
    if ids == {} {
      order := [];
    } else {
      var id := AnyOf(ids);
      var rest := Listing(ids - {id});
      order := [id] + rest;
    }
  }

  // --- reconciliation ---

  function Planned(rows: map<ProjectId, Row>, cfg: Config, id: NodeId): map<ProjectId, nat> {
    map p | p in rows && rows[p].node == id :: PlanRamMb(PlanOf(cfg, p))
  }

  /** services/worker/src/reconcile.ts recomputes a node's RAM from the plans of its rows. */
  ghost function Reconciled(db: Db, cfg: Config, id: NodeId): Db {
    if id in db.nodes
    then db.(nodes := db.nodes[id := db.nodes[id].(ramReserved := Total(Planned(db.rows, cfg, id)))])
    else db
  }

  lemma {:induction false} TotalDominates(m: map<ProjectId, nat>, m': map<ProjectId, nat>)
    requires m.Keys == m'.Keys && forall k | k in m :: m[k] <= m'[k]
    ensures Total(m) <= Total(m')
    ensures Total(m) == Total(m') ==> m == m'
    decreases |m|
  {
    if m == map[] {
      assert m' == map[];
    } else {
      var k := AnyOf(m.Keys);
      TotalRemove(m, k);
      TotalRemove(m', k);
      TotalDominates(m - {k}, m' - {k});
      hide Total;
      if Total(m) == Total(m') {
        assert m[k] == m'[k];
        assert m == (m - {k})[k := m[k]] && m' == (m' - {k})[k := m'[k]];
      }
    }
  }

  predicate Paused(db: Db, p: ProjectId, id: NodeId) {
    p in db.rows && db.rows[p].node == id && db.rows[p].ramBooked == 0
  }

  /** The repair changes nothing exactly when no project on the node is paused. */
  lemma ReconcileNoopIff(db: Db, cfg: Config, id: NodeId)
    requires Good(db, cfg) && id in db.nodes
    ensures Reconciled(db, cfg, id) == db <==> forall p :: !Paused(db, p, id)
    ensures Accounts(Reconciled(db, cfg, id)) <==> forall p :: !Paused(db, p, id)
  {
    hide PortsOk, HostnamesUnique, Total, PlanRamMb;
    var booked, planned := Column(db.rows, id, Ram), Planned(db.rows, cfg, id);
    assert Reserved(db.nodes[id], Ram) == Sum(db.rows, id, Ram);
    TotalDominates(booked, planned);
    assert booked == planned <==> forall p :: !Paused(db, p, id) by {
      PlannedWhenNonePaused(db, cfg, id);
    }
    assert Reconciled(db, cfg, id).nodes[id].ramReserved == Total(planned);
    if Accounts(Reconciled(db, cfg, id)) {
      assert Reserved(Reconciled(db, cfg, id).nodes[id], Ram) == Sum(db.rows, id, Ram);
    }
    if Total(planned) == Total(booked) {
      assert db.nodes[id := db.nodes[id]] == db.nodes;
    }
  }

  lemma PlannedWhenNonePaused(db: Db, cfg: Config, id: NodeId)
    requires PlansAgree(db, cfg)
    ensures Column(db.rows, id, Ram) == Planned(db.rows, cfg, id) <==> forall p :: !Paused(db, p, id)
  {
    var booked, planned := Column(db.rows, id, Ram), Planned(db.rows, cfg, id);
    if p :| Paused(db, p, id) {
      assert booked[p] == 0 && planned[p] > 0;
    } else {
      forall p | p in booked ensures booked[p] == planned[p] {
        assert !Paused(db, p, id);
      }
    }
  }

  /** Pausing any project on a node makes the repair book again what the pause returned. */
  lemma PausedIsRebooked(db: Db, cfg: Config, p: ProjectId)
    requires Good(db, cfg) && p in db.rows && db.rows[p].ramBooked > 0
    ensures var t, id := ReleaseRam(db, p).0, db.rows[p].node;
            Good(t, cfg) && id in t.nodes && Reconciled(t, cfg, id) != t && !Accounts(Reconciled(t, cfg, id))
  {
    hide PortsOk, HostnamesUnique, Reconciled, PlansAgree;
    var t, id := ReleaseRam(db, p).0, db.rows[p].node;
    ReleaseGood(db, cfg, p);
    assert Paused(t, p, id);
    ReconcileNoopIff(t, cfg, id);
  }

  /** The smallest case: one node, and on it one paused row. */
  lemma OnePausedRow() returns (db: Db, cfg: Config)
    ensures db.nodes.Keys == {"n"} && db.rows.Keys == {"p"} && Paused(db, "p", "n")
    ensures Good(db, cfg) && Reconciled(db, cfg, "n") != db
  {
    var row := Row("n", 0, 500, 5000, 6000, None, None);
    db := Db(map["n" := Node("host", "eu", true, 1000, 0, 100, 1)], map["p" := row]);
    cfg := Config(Ranges(Range(5000, 5000), Range(6000, 6000), Range(7000, 7001)), map[]);
    hide Total, Reconciled;
    assert Good(db, cfg) by {
      forall axis ensures Reserved(db.nodes["n"], axis) == Sum(db.rows, "n", axis) {
        NothingBooked("n", axis);
        assert db.rows == map[]["p" := row];
        SumInsert(map[], "p", row, "n", axis);
      }
    }
    assert Paused(db, "p", "n");
    ReconcileNoopIff(db, cfg, "n");
  }

  lemma NothingBooked(id: NodeId, axis: Axis)
    ensures Sum(map[], id, axis) == 0
  {
    assert Column(map[], id, axis) == map[];
  }

  // --- what one call undoes ---

  lemma CreditUndoesBooking(n: Node, ramMb: nat, diskGb: nat)
    requires n.ramReserved >= 0 && n.diskReserved >= 0
    ensures Credited(Booked(n, ramMb, diskGb), ramMb, diskGb) == n
  {
  }

  /** Deleting a placement that was just made restores both tables. */
  lemma ReleaseUndoesPlacement(db: Db, cfg: Config, project: ProjectId, id: NodeId)
    requires Accounts(db) && TryNode(db, cfg, project, id).1.Placed?
    ensures ReleaseNode(TryNode(db, cfg, project, id).0, project).0 == db
  {
    hide Accounts, Room, FreePort, FreePair, PgPorts, PoolerPorts, PostgrestPorts, Booked, Credited, DiskGb;
    var (db', attempt) := TryNode(db, cfg, project, id);
    var b := BookingFor(PlanOf(cfg, project));
    ReservedNonNegative(db);
    CreditUndoesBooking(db.nodes[id], b.ramMb, b.diskGb);
    assert attempt.row.ramBooked == b.ramMb && DiskGb(attempt.row.capMb) == b.diskGb;
    assert db'.rows - {project} == db.rows;
    assert db'.nodes[id := db.nodes[id]] == db.nodes;
  }

  /** Resuming a project whose node no one booked in the meantime restores both tables. */
  lemma ResumeUndoesPause(db: Db, cfg: Config, project: ProjectId)
    requires Good(db, cfg) && UnderCeiling(db) && project in db.rows && db.rows[project].ramBooked > 0
    ensures BookRam(ReleaseRam(db, project).0, cfg, project).0 == db
  {
    hide Accounts, PortsOk, HostnamesUnique, Ceiling, PlanRamMb;
    var row := db.rows[project];
    AccountsNodes(db, project);
    NeverClips(db, project);
    var n, db' := db.nodes[row.node], ReleaseRam(db, project).0;
    assert Reserved(n, Ram) <= Limit(n, Ram);
    assert db'.nodes[row.node] == n.(ramReserved := n.ramReserved - row.ramBooked);
    assert db'.rows[project := row] == db.rows && db'.nodes[row.node := n] == db.nodes;
  }

  // --- the tables, updated in place ---

  datatype Allocated = Replayed(row: Row) | Fresh(id: NodeId, row: Row) | NoRoom | NoPorts

  class Registry {
    var nodes: map<NodeId, Node>
    var rows: map<ProjectId, Row>
    const cfg: Config

    ghost function Tables(): Db
      reads this
    {
      Db(nodes, rows)
    }

    constructor (cfg: Config)
      ensures this.cfg == cfg && Tables() == EMPTY.db
    {
      this.cfg := cfg;
      nodes, rows := map[], map[];
    }

    method Release(project: ProjectId) returns (released: bool, freedMb: nat)
      requires Accounts(Tables())
      modifies this
      ensures Tables() == ReleaseNode(old(Tables()), project).0
      ensures Accounts(Tables())
      ensures released == (project in old(rows)) && freedMb == if released then old(rows)[project].ramBooked else 0
    {
      hide Accounts, DiskGb;
      ReleaseNodeAccounts(Tables(), project);
      if project !in rows {
        return false, 0;
      }
      AccountsNodes(Tables(), project);
      ReservedNonNegative(Tables());
      var row := rows[project];
      rows := rows - {project};
      if row.ramBooked > 0 {
        nodes := nodes[row.node := nodes[row.node].(ramReserved := Greatest(0, nodes[row.node].ramReserved - row.ramBooked))];
      }
      nodes := nodes[row.node := nodes[row.node].(diskReserved := Greatest(0, nodes[row.node].diskReserved - DiskGb(row.capMb)))];
      return true, row.ramBooked;
    }

    method Pause(project: ProjectId) returns (released: bool, freedMb: nat)
      requires Accounts(Tables())
      modifies this
      ensures Tables() == ReleaseRam(old(Tables()), project).0
      ensures Accounts(Tables())
      ensures released == (project in old(rows) && old(rows)[project].ramBooked > 0)
      ensures freedMb == if released then old(rows)[project].ramBooked else 0
    {
      hide Accounts;
      ReleaseRamAccounts(Tables(), project);
      if project !in rows || rows[project].ramBooked == 0 {
        return false, 0;
      }
      AccountsNodes(Tables(), project);
      ReservedNonNegative(Tables());
      var row := rows[project];
      rows := rows[project := row.(ramBooked := 0)];
      nodes := nodes[row.node := nodes[row.node].(ramReserved := Greatest(0, nodes[row.node].ramReserved - row.ramBooked))];
      return true, row.ramBooked;
    }

    method Resume(project: ProjectId) returns (r: Rebook)
      requires Accounts(Tables())
      modifies this
      ensures (Tables(), r) == BookRam(old(Tables()), cfg, project)
      ensures Accounts(Tables())
    {
      hide Accounts, Ceiling, PlanRamMb;
      BookRamAccounts(Tables(), cfg, project);
      if project !in rows {
        return NoRow;
      }
      AccountsNodes(Tables(), project);
      var row, ram := rows[project], PlanRamMb(PlanOf(cfg, project));
      if row.ramBooked > 0 {
        return AlreadyBooked(row.ramBooked);
      }
      if CanFit(nodes[row.node], ram) != Ok(true) {
        return NoCapacity;
      }
      rows := rows[project := row.(ramBooked := ram)];
      nodes := nodes[row.node := nodes[row.node].(ramReserved := nodes[row.node].ramReserved + ram)];
      return Rebooked(ram);
    }

    /** The ports on the chosen node, then the two writes of the transaction. */
    method Book(project: ProjectId, id: NodeId) returns (row: Option<Row>)
      requires project !in rows && id in nodes && nodes[id].active
      requires Room(nodes[id], BookingFor(PlanOf(cfg, project)))
      modifies this
      ensures Tables() == TryNode(old(Tables()), cfg, project, id).0
      ensures TryNode(old(Tables()), cfg, project, id).1 == if row.Some? then Placed(row.value) else Aborted
    {
      hide Room, FreePort, FreePair, PgPorts, PoolerPorts, PostgrestPorts, DiskGb;
      var port := PickPort(PgPorts(rows, id), cfg.ranges.pg);
      var pooler := PickPort(PoolerPorts(rows, id), cfg.ranges.pooler);
      var pair := PickPortPair(PostgrestPorts(rows, id), cfg.ranges.postgrest);
      if port.None? || pooler.None? || pair.None? {
        return None;
      }
      var plan := PlanOf(cfg, project);
      row := Some(Row(id, PlanRamMb(plan), PlanDiskCapMb(plan), port.value, pooler.value, pair, Some(pair.value + 1)));
      rows := rows[project := row.value];
      nodes := nodes[id := Booked(nodes[id], PlanRamMb(plan), DiskGb(PlanDiskCapMb(plan)))];
    }

    /** The walk over the ranking: the first candidate that is still active and still fits. */
    method PickNode(project: ProjectId, queue: seq<NodeId>) returns (found: Option<NodeId>)
      ensures match found
              case Some(id) =>
                (exists k | 0 <= k < |queue| :: queue[k] == id
                   && forall j | 0 <= j < k :: TryNode(Tables(), cfg, project, queue[j]).1.NextCandidate?)
                && id in nodes && nodes[id].active && Room(nodes[id], BookingFor(PlanOf(cfg, project)))
              case None => forall j | 0 <= j < |queue| :: TryNode(Tables(), cfg, project, queue[j]).1.NextCandidate?
    {
      hide Room, NewRow;
      var want := BookingFor(PlanOf(cfg, project));
      for k := 0 to |queue|
        invariant forall j | 0 <= j < k :: TryNode(Tables(), cfg, project, queue[j]).1.NextCandidate?
      {
        var id := queue[k];
        if id in nodes && nodes[id].active && Fits(nodes[id], want) == Ok(true) {
          return Some(id);
        }
      }
      found := None;
    }

    method Allocate(project: ProjectId, region: string, order: seq<NodeId>, stale: set<NodeId>) returns (r: Allocated)
      requires Good(Tables(), cfg) && IsSnapshot(Tables(), region, order)
      modifies this
      ensures Good(Tables(), cfg)
      ensures match r
              case Replayed(row) => Tables() == old(Tables()) && project in rows && row == rows[project]
              case NoRoom => Tables() == old(Tables()) && project !in rows
                && forall id :: !Eligible(Tables(), cfg, project, region, stale, id)
              case NoPorts => Tables() == old(Tables()) && project !in rows
                && exists id :: Eligible(Tables(), cfg, project, region, stale, id)
                     && TryNode(Tables(), cfg, project, id).1.Aborted?
              case Fresh(id, row) =>
                && (Tables(), Placed(row)) == TryNode(old(Tables()), cfg, project, id)
                && Eligible(old(Tables()), cfg, project, region, stale, id)
                && forall j | Eligible(old(Tables()), cfg, project, region, stale, j) && j != id ::
                     Before(old(nodes)[id], old(nodes)[j])
    {
      hide Good, IsSnapshot, Before, NewRow, RankNodes, CandidatesOf, Accounts, HostnamesUnique, Ascending, Room;
      if project in rows {
        return Replayed(rows[project]);
      }
      ghost var was := Tables();
      GoodParts(was, cfg);
      RankedAreEligible(State(was, map[]), cfg, project, region, order, stale);
      var ranked := RankNodes(CandidatesOf(Db(nodes, rows), order, stale), BookingFor(PlanOf(cfg, project)));
      var queue := Ids(ranked.value);
      var found := PickNode(project, queue);
      if found.None? {
        NothingEligible(was, cfg, project, region, stale, ranked.value);
        return NoRoom;
      }
      FirstIsEmptiest(was, cfg, project, region, stale, ranked.value, found.value);
      TryGood(was, cfg, project, found.value);
      var row := Book(project, found.value);
      if row.None? {
        return NoPorts;
      }
      return Fresh(found.value, row.value);
    }
  }

  lemma GoodParts(db: Db, cfg: Config)
    requires Good(db, cfg)
    ensures Accounts(db) && HostnamesUnique(db)
  {
    hide Accounts, HostnamesUnique, PortsOk, PlansAgree;
  }

  lemma IdsHold(cs: seq<Candidate>, c: Candidate)
    requires c in cs
    ensures exists j | 0 <= j < |cs| :: Ids(cs)[j] == c.id
  {
    var j :| 0 <= j < |cs| && cs[j] == c;
    assert Ids(cs)[j] == c.id;
  }

  lemma NothingEligible(
    db: Db, cfg: Config, project: ProjectId, region: string, stale: set<NodeId>, ranked: seq<Candidate>)
    requires forall id | Eligible(db, cfg, project, region, stale, id) :: Candidate(id, db.nodes[id]) in ranked
    requires forall j | 0 <= j < |ranked| :: TryNode(db, cfg, project, Ids(ranked)[j]).1.NextCandidate?
    ensures forall id :: !Eligible(db, cfg, project, region, stale, id)
  {
    hide NewRow, Room;
    forall id ensures !Eligible(db, cfg, project, region, stale, id) {
      assert Eligible(db, cfg, project, region, stale, id) ==> exists j | 0 <= j < |ranked| :: Ids(ranked)[j] == id by {
        if Eligible(db, cfg, project, region, stale, id) {
          IdsHold(ranked, Candidate(id, db.nodes[id]));
        }
      }
    }
  }

  lemma FirstIsEmptiest(
    db: Db, cfg: Config, project: ProjectId, region: string, stale: set<NodeId>, ranked: seq<Candidate>, found: NodeId)
    requires Ascending(ranked)
    requires forall c | c in ranked :: Eligible(db, cfg, project, region, stale, c.id) && c.node == db.nodes[c.id]
    requires forall id | Eligible(db, cfg, project, region, stale, id) :: Candidate(id, db.nodes[id]) in ranked
    requires exists k | 0 <= k < |ranked| :: Ids(ranked)[k] == found
               && forall j | 0 <= j < k :: TryNode(db, cfg, project, Ids(ranked)[j]).1.NextCandidate?
    ensures Eligible(db, cfg, project, region, stale, found)
    ensures forall id | Eligible(db, cfg, project, region, stale, id) && id != found :: Before(db.nodes[found], db.nodes[id])
  {
    hide NewRow, Room, Before;
    assert ranked[0] in ranked && Ids(ranked)[0] == ranked[0].id;
    assert ranked[0].id == found;
    forall id | Eligible(db, cfg, project, region, stale, id) && id != found ensures Before(db.nodes[found], db.nodes[id]) {
      assert Candidate(id, db.nodes[id]) in ranked;
    }
  }
}
