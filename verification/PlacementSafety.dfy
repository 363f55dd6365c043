/** What every run of placement keeps: the accounts, the ceiling, and the ports. */
module PlacementSafety {
  import opened Text
  import opened Sets
  import opened Capacity
  import opened Ports
  import opened Placement

  // --- ports ---

  predicate RowPorts(row: Row, ranges: Ranges) {
    && InRange(row.port, ranges.pg)
    && InRange(row.pooler, ranges.pooler)
    && match row.postgrest
       case None => row.postgrestAdmin.None?
       case Some(api) => Slot(api, ranges.postgrest) && row.postgrestAdmin == Some(api + 1)
  }

  predicate NoClash(r: Row, q: Row) {
    && r.port != q.port
    && r.pooler != q.pooler
    && (r.postgrest.Some? ==> r.postgrest != q.postgrest)
  }

  predicate PortsOk(rows: map<ProjectId, Row>, ranges: Ranges) {
    && (forall p | p in rows :: RowPorts(rows[p], ranges))
    && (forall p, q | p in rows && q in rows && p != q && rows[p].node == rows[q].node :: NoClash(rows[p], rows[q]))
  }

  lemma NewRowPorts(db: Db, cfg: Config, project: ProjectId, id: NodeId)
    requires PortsOk(db.rows, cfg.ranges) && NewRow(db, cfg, project, id).Some?
    ensures var row := NewRow(db, cfg, project, id).value;
            && RowPorts(row, cfg.ranges)
            && forall q | q in db.rows && db.rows[q].node == id :: NoClash(row, db.rows[q]) && NoClash(db.rows[q], row)
  {
    hide PlanRamMb, PlanDiskCapMb, RowPorts;
    var row, r := NewRow(db, cfg, project, id).value, cfg.ranges;
    FreeFromLeast(PgPorts(db.rows, id), r.pg.lo, r.pg.hi);
    FreeFromLeast(PoolerPorts(db.rows, id), r.pooler.lo, r.pooler.hi);
    FreePairLeast(PostgrestPorts(db.rows, id), r.postgrest.lo, r.postgrest);
    NewRowInRange(row, r);
    forall q | q in db.rows && db.rows[q].node == id ensures NoClash(row, db.rows[q]) && NoClash(db.rows[q], row) {
      assert db.rows[q].port in PgPorts(db.rows, id);
      assert db.rows[q].pooler in PoolerPorts(db.rows, id);
      assert db.rows[q].postgrest.Some? ==> db.rows[q].postgrest.value in PostgrestPorts(db.rows, id);
    }
  }

  lemma NewRowInRange(row: Row, r: Ranges)
    requires InRange(row.port, r.pg) && InRange(row.pooler, r.pooler) && row.postgrest.Some?
    requires Slot(row.postgrest.value, r.postgrest) && row.postgrestAdmin == Some(row.postgrest.value + 1)
    ensures RowPorts(row, r)
  {
  }

  lemma TryPorts(db: Db, cfg: Config, project: ProjectId, id: NodeId)
    requires PortsOk(db.rows, cfg.ranges)
    ensures PortsOk(TryNode(db, cfg, project, id).0.rows, cfg.ranges)
  {
    hide RowPorts, NoClash, NewRow, Room;
    if TryNode(db, cfg, project, id).1.Placed? {
      NewRowPorts(db, cfg, project, id);
      NewRowNode(db, cfg, project, id);
    }
  }

  lemma NewRowNode(db: Db, cfg: Config, project: ProjectId, id: NodeId)
    requires NewRow(db, cfg, project, id).Some?
    ensures var row := NewRow(db, cfg, project, id).value;
            row.node == id && row.ramBooked == PlanRamMb(PlanOf(cfg, project))
  {
  }

  lemma SamePorts(rows: map<ProjectId, Row>, rows': map<ProjectId, Row>, ranges: Ranges)
    requires PortsOk(rows, ranges)
    requires forall p | p in rows' :: p in rows && rows'[p] == rows[p].(ramBooked := rows'[p].ramBooked)
    ensures PortsOk(rows', ranges)
  {
    hide Slot, InRange;
  }

  lemma RowsKept(db: Db, cfg: Config, project: ProjectId)
    requires PortsOk(db.rows, cfg.ranges)
    ensures PortsOk(ReleaseNode(db, project).0.rows, cfg.ranges)
    ensures PortsOk(ReleaseRam(db, project).0.rows, cfg.ranges)
    ensures PortsOk(BookRam(db, cfg, project).0.rows, cfg.ranges)
  {
    hide PortsOk, DiskGb, Ceiling, Credited, Booked;
    SamePorts(db.rows, ReleaseNode(db, project).0.rows, cfg.ranges);
    SamePorts(db.rows, ReleaseRam(db, project).0.rows, cfg.ranges);
    SamePorts(db.rows, BookRam(db, cfg, project).0.rows, cfg.ranges);
  }

  datatype Listener = Pg | Pooler | Api | Admin

  function PortOf(row: Row, l: Listener): Option<int> {
    match l
    case Pg => Some(row.port)
    case Pooler => Some(row.pooler)
    case Api => row.postgrest
    case Admin => row.postgrestAdmin
  }

  function RangeOf(ranges: Ranges, l: Listener): Range {
    match l
    case Pg => ranges.pg
    case Pooler => ranges.pooler
    case Api => ranges.postgrest
    case Admin => ranges.postgrest
  }

  predicate Apart(r: Range, q: Range) {
    r.hi < q.lo || q.hi < r.lo
  }

  predicate Disjoint(ranges: Ranges) {
    Apart(ranges.pg, ranges.pooler) && Apart(ranges.pg, ranges.postgrest) && Apart(ranges.pooler, ranges.postgrest)
  }

  lemma PortInRange(row: Row, ranges: Ranges, l: Listener)
    requires RowPorts(row, ranges) && PortOf(row, l).Some?
    ensures InRange(PortOf(row, l).value, RangeOf(ranges, l))
  {
  }

  lemma SameRangePorts(r: Row, q: Row, ranges: Ranges, l: Listener, m: Listener)
    requires RowPorts(r, ranges) && RowPorts(q, ranges) && NoClash(r, q)
    requires RangeOf(ranges, l) == RangeOf(ranges, m) && (l == m || (l in {Api, Admin} && m in {Api, Admin}))
    requires PortOf(r, l).Some? && PortOf(q, m).Some?
    ensures PortOf(r, l) != PortOf(q, m)
  {
  }

  /** On a node no two listeners share a port, whichever projects they belong to. */
  lemma ListenersDistinct(
    rows: map<ProjectId, Row>, ranges: Ranges, p: ProjectId, q: ProjectId, l: Listener, m: Listener)
    requires PortsOk(rows, ranges) && Disjoint(ranges)
    requires p in rows && q in rows && rows[p].node == rows[q].node && (p != q || l != m)
    requires PortOf(rows[p], l).Some? && PortOf(rows[q], m).Some?
    ensures PortOf(rows[p], l) != PortOf(rows[q], m)
  {
    hide RowPorts;
    PortInRange(rows[p], ranges, l);
    PortInRange(rows[q], ranges, m);
    if l == m || (l in {Api, Admin} && m in {Api, Admin}) {
      if p != q {
        SameRangePorts(rows[p], rows[q], ranges, l, m);
      } else {
        AdminIsNext(rows[p], ranges);
      }
    }
  }

  lemma AdminIsNext(row: Row, ranges: Ranges)
    requires RowPorts(row, ranges)
    ensures row.postgrest.Some? == row.postgrestAdmin.Some?
    ensures row.postgrest.Some? ==> row.postgrestAdmin.value == row.postgrest.value + 1
  {
  }

  // --- exhaustion, counted in rows ---

  function Image(m: map<ProjectId, int>): set<int> {
    set p | p in m :: m[p]
  }

  lemma {:induction false} ImageCount(m: map<ProjectId, int>)
    requires forall p, q | p in m && q in m && p != q :: m[p] != m[q]
    ensures |Image(m)| == |m|
    decreases |m|
  {
    if m == map[] {
      assert Image(m) == {};
    } else {
      var p := AnyOf(m.Keys);
      var rest := m - {p};
      ImageCount(rest);
      hide Image;
      ImageInsert(rest, m, p);
      assert |m| == |rest| + 1 by { KeysInsert(rest, m, p); }
    }
  }

  lemma KeysInsert(rest: map<ProjectId, int>, m: map<ProjectId, int>, p: ProjectId)
    requires p in m && rest == m - {p}
    ensures |m| == |rest| + 1
  {
    assert m.Keys == rest.Keys + {p};
    assert |m.Keys| == |m| && |rest.Keys| == |rest|;
  }

  lemma ImageInsert(rest: map<ProjectId, int>, m: map<ProjectId, int>, p: ProjectId)
    requires p in m && rest == m - {p} && forall q | q in m && q != p :: m[p] != m[q]
    ensures |Image(m)| == |Image(rest)| + 1
  {
    forall x | x in Image(m) ensures x in Image(rest) + {m[p]} {
      var q :| q in m && m[q] == x;
      assert q == p || q in rest;
    }
    forall x | x in Image(rest) ensures x in Image(m) {
      var q :| q in rest && rest[q] == x;
      assert q in m;
    }
    assert m[p] in Image(m);
    assert Image(m) == Image(rest) + {m[p]};
  }

  function PairColumn(rows: map<ProjectId, Row>, id: NodeId): map<ProjectId, int> {
    map p | p in rows && rows[p].node == id && rows[p].postgrest.Some? :: rows[p].postgrest.value
  }

  function PortColumn(rows: map<ProjectId, Row>, id: NodeId): map<ProjectId, int> {
    map p | p in rows && rows[p].node == id :: rows[p].port
  }

  function HoldPairs(rows: map<ProjectId, Row>, id: NodeId): set<ProjectId> {
    set p | p in rows && rows[p].node == id && rows[p].postgrest.Some?
  }

  function RowsOn(rows: map<ProjectId, Row>, id: NodeId): set<ProjectId> {
    set p | p in rows && rows[p].node == id
  }

  lemma AdminIffApi(rows: map<ProjectId, Row>, ranges: Ranges, id: NodeId, a: int)
    requires PortsOk(rows, ranges)
    ensures a in ApiPorts(rows, id) <==> a + 1 in AdminPorts(rows, id)
    ensures a in ApiPorts(rows, id) ==> Slot(a, ranges.postgrest)
  {
    hide Slot, InRange, NoClash;
    if a in ApiPorts(rows, id) {
      var p :| p in rows && rows[p].node == id && rows[p].postgrest == Some(a);
      assert rows[p].postgrestAdmin == Some(a + 1);
    }
    if a + 1 in AdminPorts(rows, id) {
      var p :| p in rows && rows[p].node == id && rows[p].postgrestAdmin == Some(a + 1);
      assert rows[p].postgrest == Some(a);
    }
  }

  lemma PostgrestAreSlots(rows: map<ProjectId, Row>, ranges: Ranges, id: NodeId)
    requires PortsOk(rows, ranges)
    ensures PostgrestPorts(rows, id) == PairPorts(ApiPorts(rows, id))
    ensures forall a | a in ApiPorts(rows, id) :: Slot(a, ranges.postgrest)
  {
    hide Slot, PortsOk, ApiPorts, AdminPorts;
    var api, admin := ApiPorts(rows, id), AdminPorts(rows, id);
    forall a ensures a in api <==> a + 1 in admin {
      AdminIffApi(rows, ranges, id, a);
    }
    forall a | a in api ensures Slot(a, ranges.postgrest) {
      AdminIffApi(rows, ranges, id, a);
    }
    assert admin == set a | a in api :: a + 1 by {
      forall x | x in admin ensures x - 1 in api {
        assert x - 1 + 1 == x;
      }
    }
  }

  lemma ColumnImages(rows: map<ProjectId, Row>, id: NodeId)
    ensures Image(PairColumn(rows, id)) == ApiPorts(rows, id)
    ensures Image(PortColumn(rows, id)) == PgPorts(rows, id)
  {
    var pairs, ports := PairColumn(rows, id), PortColumn(rows, id);
    forall x ensures x in Image(pairs) <==> x in ApiPorts(rows, id) {
      if x in ApiPorts(rows, id) {
        var p :| p in rows && rows[p].node == id && rows[p].postgrest == Some(x);
        assert p in pairs;
      }
    }
    forall x ensures x in Image(ports) <==> x in PgPorts(rows, id) {
      if x in PgPorts(rows, id) {
        var p :| p in rows && rows[p].node == id && rows[p].port == x;
        assert p in ports;
      }
    }
  }

  lemma HoldersCount(rows: map<ProjectId, Row>, ranges: Ranges, id: NodeId)
    requires PortsOk(rows, ranges)
    ensures |ApiPorts(rows, id)| == |HoldPairs(rows, id)|
    ensures |PgPorts(rows, id)| == |RowsOn(rows, id)|
  {
    hide RowPorts, ApiPorts, PgPorts, Image;
    var pairs, ports := PairColumn(rows, id), PortColumn(rows, id);
    ImageCount(pairs);
    ImageCount(ports);
    ColumnImages(rows, id);
    assert pairs.Keys == HoldPairs(rows, id) && |pairs.Keys| == |pairs|;
    assert ports.Keys == RowsOn(rows, id) && |ports.Keys| == |ports|;
  }

  /** An allocation finds no PostgREST pair exactly when half the range's width of rows hold one. */
  lemma PairsExhaustedIff(rows: map<ProjectId, Row>, ranges: Ranges, id: NodeId)
    requires PortsOk(rows, ranges)
    ensures FreePair(PostgrestPorts(rows, id), ranges.postgrest).None?
       <==> |HoldPairs(rows, id)| == Width(ranges.postgrest) / 2
    ensures |HoldPairs(rows, id)| <= Width(ranges.postgrest) / 2
  {
    hide *;
    PostgrestAreSlots(rows, ranges, id);
    HoldersCount(rows, ranges, id);
    PairsFullIffHalf(ApiPorts(rows, id), ranges.postgrest);
  }

  /** And no Postgres port exactly when the range is full of rows. */
  lemma PortsExhaustedIff(rows: map<ProjectId, Row>, ranges: Ranges, id: NodeId)
    requires PortsOk(rows, ranges)
    ensures FreePort(PgPorts(rows, id), ranges.pg).None? <==> |RowsOn(rows, id)| == Width(ranges.pg)
  {
    hide Slot, NoClash, FreePort, Width;
    HoldersCount(rows, ranges, id);
    FullIffWidth(PgPorts(rows, id), ranges.pg);
  }

  // --- hostnames and plans ---

  predicate HostnamesUnique(db: Db) {
    forall i, j | i in db.nodes && j in db.nodes && i != j :: db.nodes[i].hostname != db.nodes[j].hostname
  }

  /** A row books its plan's RAM, or none while the project is paused. */
  predicate PlansAgree(db: Db, cfg: Config) {
    forall p | p in db.rows :: db.rows[p].ramBooked == 0 || db.rows[p].ramBooked == PlanRamMb(PlanOf(cfg, p))
  }

  ghost predicate Good(db: Db, cfg: Config) {
    Accounts(db) && PortsOk(db.rows, cfg.ranges) && HostnamesUnique(db) && PlansAgree(db, cfg)
  }

  lemma TryGood(db: Db, cfg: Config, project: ProjectId, id: NodeId)
    requires Good(db, cfg)
    ensures Good(TryNode(db, cfg, project, id).0, cfg)
  {
    hide Accounts, PortsOk, NewRow, Room;
    TryAccounts(db, cfg, project, id);
    TryPorts(db, cfg, project, id);
    if NewRow(db, cfg, project, id).Some? {
      NewRowNode(db, cfg, project, id);
    }
  }

  lemma ReleaseGood(db: Db, cfg: Config, project: ProjectId)
    requires Good(db, cfg)
    ensures Good(ReleaseNode(db, project).0, cfg)
    ensures Good(ReleaseRam(db, project).0, cfg)
  {
    hide Accounts, PortsOk, DiskGb;
    ReleaseNodeAccounts(db, project);
    ReleaseRamAccounts(db, project);
    RowsKept(db, cfg, project);
  }

  lemma BookGood(db: Db, cfg: Config, project: ProjectId)
    requires Good(db, cfg)
    ensures Good(BookRam(db, cfg, project).0, cfg)
  {
    hide Accounts, PortsOk, DiskGb, CanFit;
    BookRamAccounts(db, cfg, project);
    RowsKept(db, cfg, project);
  }

  lemma NodesGood(db: Db, cfg: Config, id: NodeId, hostname: string, region: string, ramTotal: int, diskTotal: int, active: bool)
    requires Good(db, cfg)
    ensures Good(Register(db, id, hostname, region, ramTotal, diskTotal), cfg)
    ensures Good(SetActive(db, id, active), cfg)
    ensures Good(DeleteNode(db, id), cfg)
  {
    hide Accounts, PortsOk;
    NodesAccounts(db, id, hostname, region, ramTotal, diskTotal, active);
  }

  lemma CheckDb(s: State, cfg: Config, w: Worker, project: ProjectId, region: string)
    ensures Step(s, cfg, Check(w, project, region)).db == s.db
  {
  }

  lemma RankDb(s: State, cfg: Config, w: Worker, order: seq<NodeId>, stale: set<NodeId>)
    ensures Step(s, cfg, Rank(w, order, stale)).db == s.db
  {
    hide RankNodes, IsSnapshot;
  }

  lemma TryDb(s: State, cfg: Config, w: Worker)
    ensures Step(s, cfg, Try(w)).db
         == if TaskOf(s, w).Walking? && TaskOf(s, w).queue != []
            then TryNode(s.db, cfg, TaskOf(s, w).project, TaskOf(s, w).queue[0]).0 else s.db
  {
    hide TryNode;
  }

  /** The database after each of the events that are one transaction. */
  function Transacted(db: Db, cfg: Config, e: Event): Db
    requires !e.Check? && !e.Rank? && !e.Try?
  {
    match e
    case Crash(w) => db
    case Release(project) => ReleaseNode(db, project).0
    case Pause(project) => ReleaseRam(db, project).0
    case Resume(project) => BookRam(db, cfg, project).0
    case Heartbeat(id, hostname, region, ramTotal, diskTotal) =>
      Register(db, id, hostname, region, ramTotal, diskTotal)
    case Cordon(id, active) => SetActive(db, id, active)
    case Remove(id) => DeleteNode(db, id)
  }

  lemma OtherDb(s: State, cfg: Config, e: Event)
    requires !e.Check? && !e.Rank? && !e.Try?
    ensures Step(s, cfg, e).db == Transacted(s.db, cfg, e)
  {
    hide ReleaseNode, ReleaseRam, BookRam, Register, DeleteNode;
  }

  lemma TransactedGood(db: Db, cfg: Config, e: Event)
    requires Good(db, cfg) && !e.Check? && !e.Rank? && !e.Try?
    ensures Good(Transacted(db, cfg, e), cfg)
  {
    hide Good, ReleaseNode, ReleaseRam, BookRam, Register, DeleteNode, SetActive;
    match e
    case Crash(w) =>
    case Release(project) => ReleaseGood(db, cfg, project);
    case Pause(project) => ReleaseGood(db, cfg, project);
    case Resume(project) => BookGood(db, cfg, project);
    case Heartbeat(id, hostname, region, ramTotal, diskTotal) =>
      NodesGood(db, cfg, id, hostname, region, ramTotal, diskTotal, true);
    case Cordon(id, active) => NodesGood(db, cfg, id, "", "", 0, 0, active);
    case Remove(id) => NodesGood(db, cfg, id, "", "", 0, 0, true);
  }

  lemma StepGood(s: State, cfg: Config, e: Event)
    requires Good(s.db, cfg)
    ensures Good(Step(s, cfg, e).db, cfg)
  {
    hide *;
    match e
    case Check(w, project, region) => CheckDb(s, cfg, w, project, region);
    case Rank(w, order, stale) => RankDb(s, cfg, w, order, stale);
    case Try(w) =>
      TryDb(s, cfg, w);
      if TaskOf(s, w).Walking? && TaskOf(s, w).queue != [] {
        TryGood(s.db, cfg, TaskOf(s, w).project, TaskOf(s, w).queue[0]);
      }
    case _ =>
      OtherDb(s, cfg, e);
      TransactedGood(s.db, cfg, e);
  }

  /**
   * Over every interleaving, with crashes: reservations are what the rows book,
   * ports are apart and paired, hostnames are unique, bookings are plan or nothing.
   */
  lemma {:induction false} RunGood(s: State, cfg: Config, es: seq<Event>)
    requires Good(s.db, cfg)
    ensures Good(Run(s, cfg, es).db, cfg)
  {
    hide Good, Step;
    if es != [] {
      RunGood(s, cfg, es[..|es| - 1]);
      StepGood(Run(s, cfg, es[..|es| - 1]), cfg, es[|es| - 1]);
    }
  }

  // --- the ceiling ---

  /** A registration that lowers no total. */
  predicate Steady(db: Db, e: Event) {
    e.Heartbeat? ==>
      && e.diskTotal >= 0
      && (e.id in db.nodes ==> e.ramTotal >= db.nodes[e.id].ramTotal && e.diskTotal >= db.nodes[e.id].diskTotal)
  }

  predicate SteadyRun(s: State, cfg: Config, es: seq<Event>) {
    es != [] ==> SteadyRun(s, cfg, es[..|es| - 1]) && Steady(Run(s, cfg, es[..|es| - 1]).db, es[|es| - 1])
  }

  lemma CreditedIsLess(n: Node, ramMb: nat, diskGb: nat)
    requires n.ramReserved >= ramMb && n.diskReserved >= diskGb
    ensures Credited(n, ramMb, diskGb) == n.(ramReserved := n.ramReserved - ramMb, diskReserved := n.diskReserved - diskGb)
  {
  }

  lemma ReleaseUnderCeiling(db: Db, project: ProjectId)
    requires Accounts(db) && UnderCeiling(db)
    ensures UnderCeiling(ReleaseNode(db, project).0) && UnderCeiling(ReleaseRam(db, project).0)
  {
    hide Accounts, Credited, DiskGb, Ceiling;
    if project in db.rows {
      var row := db.rows[project];
      AccountsNodes(db, project);
      NeverClips(db, project);
      CreditedIsLess(db.nodes[row.node], row.ramBooked, DiskGb(row.capMb));
      CreditedIsLess(db.nodes[row.node], row.ramBooked, 0);
      assert Reserved(db.nodes[row.node], Ram) <= Limit(db.nodes[row.node], Ram);
      assert Reserved(db.nodes[row.node], Disk) <= Limit(db.nodes[row.node], Disk);
    }
  }

  lemma AccountsNodes(db: Db, project: ProjectId)
    requires Accounts(db) && project in db.rows
    ensures db.rows[project].node in db.nodes
    ensures 0 <= db.nodes[db.rows[project].node].diskReserved
  {
    hide DiskGb;
    assert Reserved(db.nodes[db.rows[project].node], Disk) == Sum(db.rows, db.rows[project].node, Disk);
  }

  lemma BookUnderCeiling(db: Db, cfg: Config, project: ProjectId)
    requires UnderCeiling(db)
    ensures UnderCeiling(BookRam(db, cfg, project).0)
  {
    hide Ceiling;
    var (db', r) := BookRam(db, cfg, project);
    if r.Rebooked? {
      var id := db.rows[project].node;
      assert Reserved(db.nodes[id], Disk) <= Limit(db.nodes[id], Disk);
      assert CanFit(db.nodes[id], r.ramMb) == Ok(true);
      assert Reserved(db'.nodes[id], Ram) <= Limit(db'.nodes[id], Ram);
      assert Reserved(db'.nodes[id], Disk) <= Limit(db'.nodes[id], Disk);
      forall j, axis | j in db'.nodes ensures Reserved(db'.nodes[j], axis) <= Limit(db'.nodes[j], axis) {
        if j == id {
          assert axis == Ram || axis == Disk;
        } else {
          assert db'.nodes[j] == db.nodes[j];
        }
      }
    }
  }

  lemma HeartbeatUnderCeiling(db: Db, e: Event)
    requires UnderCeiling(db) && e.Heartbeat? && Steady(db, e)
    ensures UnderCeiling(Register(db, e.id, e.hostname, e.region, e.ramTotal, e.diskTotal))
  {
    hide HostTaken;
    if e.id in db.nodes {
      var n := db.nodes[e.id];
      CeilingGrows(n.ramTotal, e.ramTotal);
      CeilingGrows(n.diskTotal, e.diskTotal);
      assert Reserved(n, Ram) <= Limit(n, Ram);
      assert Reserved(n, Disk) <= Limit(n, Disk);
    }
  }

  lemma NodesUnderCeiling(db: Db, id: NodeId, active: bool)
    requires UnderCeiling(db)
    ensures UnderCeiling(SetActive(db, id, active)) && UnderCeiling(DeleteNode(db, id))
  {
    hide Ceiling;
    if id in db.nodes {
      var n := db.nodes[id];
      assert Reserved(n, Ram) <= Limit(n, Ram);
      assert Reserved(n, Disk) <= Limit(n, Disk);
    }
  }

  lemma TransactedUnderCeiling(db: Db, cfg: Config, e: Event)
    requires Accounts(db) && UnderCeiling(db) && Steady(db, e) && !e.Check? && !e.Rank? && !e.Try?
    ensures UnderCeiling(Transacted(db, cfg, e))
  {
    hide Accounts, UnderCeiling, ReleaseNode, ReleaseRam, BookRam, Register, DeleteNode, SetActive, Steady;
    match e
    case Crash(w) =>
    case Release(project) => ReleaseUnderCeiling(db, project);
    case Pause(project) => ReleaseUnderCeiling(db, project);
    case Resume(project) => BookUnderCeiling(db, cfg, project);
    case Heartbeat(_, _, _, _, _) => HeartbeatUnderCeiling(db, e);
    case Cordon(id, active) => NodesUnderCeiling(db, id, active);
    case Remove(id) => NodesUnderCeiling(db, id, true);
  }

  lemma StepUnderCeiling(s: State, cfg: Config, e: Event)
    requires Accounts(s.db) && UnderCeiling(s.db) && Steady(s.db, e)
    ensures UnderCeiling(Step(s, cfg, e).db)
  {
    hide *;
    match e
    case Check(w, project, region) => CheckDb(s, cfg, w, project, region);
    case Rank(w, order, stale) => RankDb(s, cfg, w, order, stale);
    case Try(w) =>
      TryDb(s, cfg, w);
      if TaskOf(s, w).Walking? && TaskOf(s, w).queue != [] {
        TryUnderCeiling(s.db, cfg, TaskOf(s, w).project, TaskOf(s, w).queue[0]);
      }
    case _ =>
      OtherDb(s, cfg, e);
      TransactedUnderCeiling(s.db, cfg, e);
  }

  /** No interleaving of stale rankings books a node past 85 % of either axis. */
  lemma {:induction false} RunUnderCeiling(s: State, cfg: Config, es: seq<Event>)
    requires Good(s.db, cfg) && UnderCeiling(s.db) && SteadyRun(s, cfg, es)
    ensures UnderCeiling(Run(s, cfg, es).db)
  {
    hide Accounts, PortsOk, HostnamesUnique, PlansAgree, UnderCeiling, Step, Steady;
    if es != [] {
      RunUnderCeiling(s, cfg, es[..|es| - 1]);
      RunGood(s, cfg, es[..|es| - 1]);
      StepUnderCeiling(Run(s, cfg, es[..|es| - 1]), cfg, es[|es| - 1]);
    }
  }

  /** A known node's new totals keep it under the ceiling exactly when they still cover what is reserved. */
  lemma ShrinkingIsTheOnlyWay(db: Db, id: NodeId, region: string, ramTotal: int, diskTotal: int)
    requires HostnamesUnique(db) && UnderCeiling(db) && id in db.nodes
    requires ramTotal > 0 && ramTotal >= db.nodes[id].ramReserved
    ensures var n := db.nodes[id];
            UnderCeiling(Register(db, id, n.hostname, region, ramTotal, diskTotal))
            <==> n.ramReserved <= Ceiling(ramTotal) && n.diskReserved <= Ceiling(diskTotal)
  {
    hide Ceiling;
    var db' := Register(db, id, db.nodes[id].hostname, region, ramTotal, diskTotal);
    assert db'.nodes[id].ramTotal == ramTotal && db'.nodes[id].diskTotal == diskTotal;
    if UnderCeiling(db') {
      assert Reserved(db'.nodes[id], Ram) <= Limit(db'.nodes[id], Ram);
      assert Reserved(db'.nodes[id], Disk) <= Limit(db'.nodes[id], Disk);
    }
  }

  lemma EmptyIsGood(cfg: Config)
    ensures Good(EMPTY.db, cfg) && UnderCeiling(EMPTY.db)
  {
  }
}
