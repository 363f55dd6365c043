/**
 * Placing projects on nodes: services/worker/src/placement.ts. The tables, what
 * each transaction does to them, and workers that interleave between transactions.
 */
module Placement {
  import opened Text
  import opened Sets
  import opened Capacity
  import opened Ports

  type ProjectId = string

  /** One row of `project_databases`. The PostgREST columns are null on old rows. */
  datatype Row = Row(
    node: NodeId, ramBooked: nat, capMb: nat, port: int, pooler: int,
    postgrest: Option<int>, postgrestAdmin: Option<int>)

  datatype Db = Db(nodes: map<NodeId, Node>, rows: map<ProjectId, Row>)

  datatype Ranges = Ranges(pg: Range, pooler: Range, postgrest: Range)

  /** The configured port ranges and every project's plan. */
  datatype Config = Config(ranges: Ranges, plans: map<ProjectId, string>)

  function PlanOf(cfg: Config, project: ProjectId): string {
    if project in cfg.plans then cfg.plans[project] else "free"
  }

  // --- ports in use on a node ---

  function PgPorts(rows: map<ProjectId, Row>, id: NodeId): set<int> {
    set p | p in rows && rows[p].node == id :: rows[p].port
  }

  function PoolerPorts(rows: map<ProjectId, Row>, id: NodeId): set<int> {
    set p | p in rows && rows[p].node == id :: rows[p].pooler
  }

  function ApiPorts(rows: map<ProjectId, Row>, id: NodeId): set<int> {
    set p | p in rows && rows[p].node == id && rows[p].postgrest.Some? :: rows[p].postgrest.value
  }

  function AdminPorts(rows: map<ProjectId, Row>, id: NodeId): set<int> {
    set p | p in rows && rows[p].node == id && rows[p].postgrestAdmin.Some? :: rows[p].postgrestAdmin.value
  }

  function PostgrestPorts(rows: map<ProjectId, Row>, id: NodeId): set<int> {
    ApiPorts(rows, id) + AdminPorts(rows, id)
  }

  // --- transactions ---

  function Booked(n: Node, ramMb: int, diskGb: int): Node {
    n.(ramReserved := n.ramReserved + ramMb, diskReserved := n.diskReserved + diskGb)
  }

  function Greatest(x: int, y: int): int {
    if x >= y then x else y
  }

  function Credited(n: Node, ramMb: int, diskGb: int): Node {
    n.(ramReserved := Greatest(0, n.ramReserved - ramMb), diskReserved := Greatest(0, n.diskReserved - diskGb))
  }

  /** The row an allocation writes, or nothing when a range is exhausted. */
  function NewRow(db: Db, cfg: Config, project: ProjectId, id: NodeId): Option<Row> {
    var port := FreePort(PgPorts(db.rows, id), cfg.ranges.pg);
    var pooler := FreePort(PoolerPorts(db.rows, id), cfg.ranges.pooler);
    var pair := FreePair(PostgrestPorts(db.rows, id), cfg.ranges.postgrest);
    var plan := PlanOf(cfg, project);
    if port.Some? && pooler.Some? && pair.Some? then
      Some(Row(id, PlanRamMb(plan), PlanDiskCapMb(plan), port.value, pooler.value, pair, Some(pair.value + 1)))
    else None
  }

  datatype Attempt = Placed(row: Row) | NextCandidate | Aborted

  /** What happens under the candidate's row lock: re-check, book, commit; or fall through; or roll back. */
  function TryNode(db: Db, cfg: Config, project: ProjectId, id: NodeId): (Db, Attempt) {
    var b := BookingFor(PlanOf(cfg, project));
    if id !in db.nodes || !db.nodes[id].active || !Room(db.nodes[id], b) then (db, NextCandidate)
    else
      match NewRow(db, cfg, project, id)
      case None => (db, Aborted)
      case Some(row) =>
        if project in db.rows then (db, Aborted)
        else (Db(db.nodes[id := Booked(db.nodes[id], b.ramMb, b.diskGb)], db.rows[project := row]), Placed(row))
  }

  function ReleaseNode(db: Db, project: ProjectId): (Db, Option<nat>) {
    if project !in db.rows then (db, None)
    else
      var row := db.rows[project];
      var nodes := if row.node in db.nodes
        then db.nodes[row.node := Credited(db.nodes[row.node], row.ramBooked, DiskGb(row.capMb))] else db.nodes;
      (Db(nodes, db.rows - {project}), Some(row.ramBooked))
  }

  function ReleaseRam(db: Db, project: ProjectId): (Db, Option<nat>) {
    if project !in db.rows || db.rows[project].ramBooked == 0 then (db, None)
    else
      var row := db.rows[project];
      var nodes := if row.node in db.nodes
        then db.nodes[row.node := Credited(db.nodes[row.node], row.ramBooked, 0)] else db.nodes;
      (Db(nodes, db.rows[project := row.(ramBooked := 0)]), Some(row.ramBooked))
  }

  datatype Rebook = NoRow | AlreadyBooked(ramMb: nat) | NoCapacity | Rebooked(ramMb: nat)

  /** The booking is read under the node's lock. */
  function BookRam(db: Db, cfg: Config, project: ProjectId): (Db, Rebook) {
    if project !in db.rows || db.rows[project].node !in db.nodes then (db, NoRow)
    else
      var row, ram := db.rows[project], PlanRamMb(PlanOf(cfg, project));
      if row.ramBooked > 0 then (db, AlreadyBooked(row.ramBooked))
      else if CanFit(db.nodes[row.node], ram) != Ok(true) then (db, NoCapacity)
      else
        (Db(db.nodes[row.node := Booked(db.nodes[row.node], ram, 0)], db.rows[project := row.(ramBooked := ram)]),
         Rebooked(ram))
  }

  predicate HostTaken(db: Db, hostname: string, id: NodeId) {
    exists j | j in db.nodes :: j != id && db.nodes[j].hostname == hostname
  }

  /**
   * Registration of the node known as `id`: totals are overwritten, the region and
   * status of a known node are not. The table refuses a RAM total below what is reserved.
   */
  function Register(db: Db, id: NodeId, hostname: string, region: string, ramTotal: int, diskTotal: int): Db {
    if HostTaken(db, hostname, id) || ramTotal <= 0 then db
    else if id !in db.nodes then db.(nodes := db.nodes[id := Node(hostname, region, true, ramTotal, 0, diskTotal, 0)])
    else if db.nodes[id].hostname != hostname || db.nodes[id].ramReserved > ramTotal then db
    else db.(nodes := db.nodes[id := db.nodes[id].(ramTotal := ramTotal, diskTotal := diskTotal)])
  }

  function SetActive(db: Db, id: NodeId, active: bool): Db {
    if id in db.nodes then db.(nodes := db.nodes[id := db.nodes[id].(active := active)]) else db
  }

  /** A node with placements cannot be deleted (`ON DELETE RESTRICT`). */
  function DeleteNode(db: Db, id: NodeId): Db {
    if exists p | p in db.rows :: db.rows[p].node == id then db else db.(nodes := db.nodes - {id})
  }

  // --- workers between transactions ---

  datatype Task =
    | Idle
    | Checked(project: ProjectId, region: string)
    | Walking(project: ProjectId, queue: seq<NodeId>)

  type Worker = nat

  datatype State = State(db: Db, tasks: map<Worker, Task>)

  function TaskOf(s: State, w: Worker): Task {
    if w in s.tasks then s.tasks[w] else Idle
  }

  function WithTask(s: State, w: Worker, t: Task): State {
    s.(tasks := s.tasks[w := t])
  }

  datatype Event =
    | Check(w: Worker, project: ProjectId, region: string)
    | Rank(w: Worker, order: seq<NodeId>, stale: set<NodeId>)
    | Try(w: Worker)
    | Crash(w: Worker)
    | Release(project: ProjectId)
    | Pause(project: ProjectId)
    | Resume(project: ProjectId)
    | Heartbeat(id: NodeId, hostname: string, region: string, ramTotal: int, diskTotal: int)
    | Cordon(id: NodeId, active: bool)
    | Remove(id: NodeId)

  /** The unlocked snapshot, in the order the query happened to return it. */
  predicate IsSnapshot(db: Db, region: string, order: seq<NodeId>) {
    && (forall id | id in order :: id in db.nodes && db.nodes[id].active && db.nodes[id].region == region)
    && (forall id | id in db.nodes :: db.nodes[id].active && db.nodes[id].region == region ==> id in order)
    && (forall i, j | 0 <= i < j < |order| :: order[i] != order[j])
  }

  function CandidatesOf(db: Db, order: seq<NodeId>, stale: set<NodeId>): (r: seq<Candidate>) {
    if order == [] then []
    else
      (if order[0] in db.nodes && order[0] !in stale then [Candidate(order[0], db.nodes[order[0]])] else [])
      + CandidatesOf(db, order[1..], stale)
  }

  function Ids(cs: seq<Candidate>): (r: seq<NodeId>)
    ensures |r| == |cs|
  {
    seq(|cs|, i requires 0 <= i < |cs| => cs[i].id)
  }

  function RankStep(s: State, cfg: Config, w: Worker, order: seq<NodeId>, stale: set<NodeId>): State {
    match TaskOf(s, w)
    case Checked(project, region) =>
      if !IsSnapshot(s.db, region, order) then s
      else
        (match RankNodes(CandidatesOf(s.db, order, stale), BookingFor(PlanOf(cfg, project)))
         case Refused => WithTask(s, w, Idle)
         case Ok(ranked) => WithTask(s, w, if ranked == [] then Idle else Walking(project, Ids(ranked))))
    case _ => s
  }

  function TryStep(s: State, cfg: Config, w: Worker): State {
    match TaskOf(s, w)
    case Walking(project, queue) =>
      if queue == [] then WithTask(s, w, Idle)
      else
        var (db, attempt) := TryNode(s.db, cfg, project, queue[0]);
        WithTask(s.(db := db), w, if attempt.NextCandidate? then Walking(project, queue[1..]) else Idle)
    case _ => s
  }

  function Step(s: State, cfg: Config, e: Event): State {
    match e
    case Check(w, project, region) =>
      if TaskOf(s, w).Idle? && project !in s.db.rows then WithTask(s, w, Checked(project, region)) else s
    case Rank(w, order, stale) => RankStep(s, cfg, w, order, stale)
    case Try(w) => TryStep(s, cfg, w)
    case Crash(w) => WithTask(s, w, Idle)
    case Release(project) => s.(db := ReleaseNode(s.db, project).0)
    case Pause(project) => s.(db := ReleaseRam(s.db, project).0)
    case Resume(project) => s.(db := BookRam(s.db, cfg, project).0)
    case Heartbeat(id, hostname, region, ramTotal, diskTotal) =>
      s.(db := Register(s.db, id, hostname, region, ramTotal, diskTotal))
    case Cordon(id, active) => s.(db := SetActive(s.db, id, active))
    case Remove(id) => s.(db := DeleteNode(s.db, id))
  }

  function Run(s: State, cfg: Config, es: seq<Event>): State {
    if es == [] then s else Step(Run(s, cfg, es[..|es| - 1]), cfg, es[|es| - 1])
  }

  const EMPTY := State(Db(map[], map[]), map[])

  // --- what rows add up to ---

  datatype Axis = Ram | Disk

  function Amount(row: Row, axis: Axis): nat {
    match axis
    case Ram => row.ramBooked
    case Disk => DiskGb(row.capMb)
  }

  function Reserved(n: Node, axis: Axis): int {
    match axis
    case Ram => n.ramReserved
    case Disk => n.diskReserved
  }

  function Limit(n: Node, axis: Axis): int {
    match axis
    case Ram => Ceiling(n.ramTotal)
    case Disk => Ceiling(n.diskTotal)
  }

  function Column(rows: map<ProjectId, Row>, id: NodeId, axis: Axis): map<ProjectId, nat> {
    map p | p in rows && rows[p].node == id :: Amount(rows[p], axis)
  }

  ghost function Total(m: map<ProjectId, nat>): nat
    decreases |m|
  {
    if m == map[] then 0
    else
      var k := AnyOf(m.Keys);
      m[k] + Total(m - {k})
  }

  ghost function Sum(rows: map<ProjectId, Row>, id: NodeId, axis: Axis): nat {
    Total(Column(rows, id, axis))
  }

  /** Reservations are exactly what the rows book, and every row's node exists. */
  ghost predicate Accounts(db: Db) {
    && (forall p | p in db.rows :: db.rows[p].node in db.nodes)
    && (forall id, axis | id in db.nodes :: Reserved(db.nodes[id], axis) == Sum(db.rows, id, axis))
  }

  predicate UnderCeiling(db: Db) {
    forall id, axis | id in db.nodes :: Reserved(db.nodes[id], axis) <= Limit(db.nodes[id], axis)
  }

  lemma {:induction false} TotalRemove(m: map<ProjectId, nat>, k: ProjectId)
    requires k in m
    ensures Total(m) == m[k] + Total(m - {k})
    decreases |m|
  {
    var j := AnyOf(m.Keys);
    if j != k {
      TotalRemove(m - {j}, k);
      TotalRemove(m - {k}, j);
      assert m - {j} - {k} == m - {k} - {j};
    }
  }

  lemma SumInsert(rows: map<ProjectId, Row>, p: ProjectId, row: Row, id: NodeId, axis: Axis)
    requires p !in rows
    ensures Sum(rows[p := row], id, axis)
         == Sum(rows, id, axis) + (if row.node == id then Amount(row, axis) else 0)
  {
    hide Amount, Total;
    var before, after := Column(rows, id, axis), Column(rows[p := row], id, axis);
    if row.node == id {
      assert after == before[p := Amount(row, axis)];
      TotalRemove(after, p);
      assert after - {p} == before;
    } else {
      assert after == before;
    }
  }

  lemma SumRemove(rows: map<ProjectId, Row>, p: ProjectId, id: NodeId, axis: Axis)
    requires p in rows
    ensures Sum(rows, id, axis)
         == Sum(rows - {p}, id, axis) + (if rows[p].node == id then Amount(rows[p], axis) else 0)
  {
    hide Sum, Amount;
    assert (rows - {p})[p := rows[p]] == rows;
    SumInsert(rows - {p}, p, rows[p], id, axis);
  }

  lemma SumUpdate(rows: map<ProjectId, Row>, p: ProjectId, row: Row, id: NodeId, axis: Axis)
    requires p in rows && row.node == rows[p].node
    ensures Sum(rows[p := row], id, axis) + (if row.node == id then Amount(rows[p], axis) else 0)
         == Sum(rows, id, axis) + (if row.node == id then Amount(row, axis) else 0)
  {
    hide Sum, Amount;
    SumRemove(rows, p, id, axis);
    assert (rows - {p})[p := row] == rows[p := row];
    SumInsert(rows - {p}, p, row, id, axis);
  }

  lemma {:induction false} SumNowhere(rows: map<ProjectId, Row>, id: NodeId, axis: Axis)
    requires forall p | p in rows :: rows[p].node != id
    ensures Sum(rows, id, axis) == 0
  {
    assert Column(rows, id, axis) == map[];
  }

  // --- the invariants, transaction by transaction ---

  lemma TryAccounts(db: Db, cfg: Config, project: ProjectId, id: NodeId)
    requires Accounts(db)
    ensures Accounts(TryNode(db, cfg, project, id).0)
  {
    hide Sum, Room, PgPorts, PoolerPorts, PostgrestPorts, FreePort, FreePair, DiskGb;
    var (db', attempt) := TryNode(db, cfg, project, id);
    if attempt.Placed? {
      forall j, axis | j in db'.nodes ensures Reserved(db'.nodes[j], axis) == Sum(db'.rows, j, axis) {
        SumInsert(db.rows, project, attempt.row, j, axis);
      }
    }
  }

  lemma TryUnderCeiling(db: Db, cfg: Config, project: ProjectId, id: NodeId)
    requires UnderCeiling(db)
    ensures UnderCeiling(TryNode(db, cfg, project, id).0)
  {
    hide PgPorts, PoolerPorts, PostgrestPorts, FreePort, FreePair, DiskGb, Ceiling;
    var (db', attempt) := TryNode(db, cfg, project, id);
    if attempt.Placed? {
      forall j, axis | j in db'.nodes ensures Reserved(db'.nodes[j], axis) <= Limit(db'.nodes[j], axis) {
      }
    }
  }

  /** `GREATEST(0, …)` never clips: what a row gives back is there to give. */
  lemma NeverClips(db: Db, project: ProjectId)
    requires Accounts(db) && project in db.rows
    ensures var row := db.rows[project];
            && db.nodes[row.node].ramReserved >= row.ramBooked
            && db.nodes[row.node].diskReserved >= DiskGb(row.capMb)
  {
    hide Sum, DiskGb;
    var row := db.rows[project];
    assert Reserved(db.nodes[row.node], Ram) == Sum(db.rows, row.node, Ram);
    assert Reserved(db.nodes[row.node], Disk) == Sum(db.rows, row.node, Disk);
    SumRemove(db.rows, project, row.node, Ram);
    SumRemove(db.rows, project, row.node, Disk);
  }

  lemma ReleaseNodeAccounts(db: Db, project: ProjectId)
    requires Accounts(db)
    ensures Accounts(ReleaseNode(db, project).0)
  {
    hide Sum, DiskGb;
    if project in db.rows {
      NeverClips(db, project);
      var db' := ReleaseNode(db, project).0;
      forall j, axis | j in db'.nodes ensures Reserved(db'.nodes[j], axis) == Sum(db'.rows, j, axis) {
        SumRemove(db.rows, project, j, axis);
      }
    }
  }

  lemma ReleaseRamAccounts(db: Db, project: ProjectId)
    requires Accounts(db)
    ensures Accounts(ReleaseRam(db, project).0)
  {
    hide Sum, DiskGb;
    if project in db.rows {
      NeverClips(db, project);
      var db' := ReleaseRam(db, project).0;
      forall j, axis | j in db'.nodes ensures Reserved(db'.nodes[j], axis) == Sum(db'.rows, j, axis) {
        SumUpdate(db.rows, project, db.rows[project].(ramBooked := 0), j, axis);
      }
    }
  }

  lemma BookRamAccounts(db: Db, cfg: Config, project: ProjectId)
    requires Accounts(db)
    ensures Accounts(BookRam(db, cfg, project).0)
  {
    hide Sum, DiskGb, Ceiling;
    var (db', r) := BookRam(db, cfg, project);
    if r.Rebooked? {
      forall j, axis | j in db'.nodes ensures Reserved(db'.nodes[j], axis) == Sum(db'.rows, j, axis) {
        SumUpdate(db.rows, project, db.rows[project].(ramBooked := r.ramMb), j, axis);
      }
    }
  }

  lemma NodesAccounts(db: Db, id: NodeId, hostname: string, region: string, ramTotal: int, diskTotal: int, active: bool)
    requires Accounts(db)
    ensures Accounts(Register(db, id, hostname, region, ramTotal, diskTotal))
    ensures Accounts(SetActive(db, id, active))
    ensures Accounts(DeleteNode(db, id))
  {
    hide Sum, HostTaken;
    if id !in db.nodes {
      SumNowhere(db.rows, id, Ram);
      SumNowhere(db.rows, id, Disk);
      var db' := Register(db, id, hostname, region, ramTotal, diskTotal);
      forall j, axis | j in db'.nodes ensures Reserved(db'.nodes[j], axis) == Sum(db'.rows, j, axis) {
      }
    }
  }
}
