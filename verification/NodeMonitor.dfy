/**
 The keep-alive failure detector with its master/standby switch. Clock readings, database outcomes and file
 outcomes are parameters; a tick reads the clock once per listed node.
 */
module NodeMonitor {
  type NodeId = string

  datatype NodeRow = NodeRow(
    roles: seq<string>,
    hostName: string,
    alive: bool,
    dnsAlive: bool,
    dhcpAlive: bool,
    cpuRatio: string,
    memRatio: string,
    master: string,
    controllerIp: string,
    startTime: int,
    vip: string)

  /** What a handler captures when it is built. */
  datatype Config = Config(timeout: int, masterIp: string, ip: string, startTime: int)

  /** `master` is the live setting, `file` the one in the configuration file. */
  datatype Monitor = Monitor(master: string, file: string, lastTime: map<NodeId, int>, nodes: map<NodeId, NodeRow>)

  /** Outcome of one transaction: done, rolled back after its body ran, or never begun. */
  datatype Write = Committed | RolledBack | NotBegun

  /** Writing truncates the file first, so a failure half-way can leave another setting, `left`, in it. */
  datatype FileWrite = Written | Unchanged | Partial(left: string)

  datatype FileIo = FileIo(readOk: bool, write: FileWrite, reloadOk: bool)

  datatype RegisterReq = RegisterReq(ip: NodeId, hostName: string, roles: seq<string>, master: string)

  datatype KeepAliveReq = KeepAliveReq(
    ip: NodeId, roles: seq<string>, cpu: string, mem: string, dns: bool, dhcp: bool, master: string, vip: string)

  datatype Visit = Visit(id: NodeId, now: int, write: Write)

  datatype Op =
    | Register(reg: RegisterReq, regWrite: Write)
    | KeepAlive(req: KeepAliveReq, write: Write)
    | Tick(visits: seq<Visit>)
    | MasterUp(upIp: string, upIo: FileIo)
    | MasterDown(downIp: string, downIo: FileIo)

  datatype Timed = Timed(at: int, op: Op)

  // ---------- specification of each operation ----------

  function Inserted(c: Config, r: RegisterReq): NodeRow {
    NodeRow(r.roles, r.hostName, false, false, false, "", "", "", c.ip, c.startTime, "")
  }

  function Reregistered(c: Config, row: NodeRow, r: RegisterReq): NodeRow {
    row.(roles := r.roles, hostName := r.hostName, master := r.master, controllerIp := c.ip, startTime := c.startTime)
  }

  function AfterRegister(c: Config, m: Monitor, r: RegisterReq, w: Write): Monitor {
    if m.master != "" || !w.Committed? then m
    else m.(nodes := m.nodes[r.ip := if r.ip in m.nodes then Reregistered(c, m.nodes[r.ip], r) else Inserted(c, r)])
  }

  function Refreshed(c: Config, row: NodeRow, r: KeepAliveReq): NodeRow {
    NodeRow(r.roles, row.hostName, true, r.dns, r.dhcp, r.cpu, r.mem, r.master, c.ip, c.startTime, r.vip)
  }

  /** The time is recorded inside the transaction body, so it stays even when the update is rolled back. */
  function AfterKeepAlive(c: Config, m: Monitor, r: KeepAliveReq, w: Write, now: int): Monitor {
    if m.master != "" || w.NotBegun? then m
    else m.(lastTime := m.lastTime[r.ip := now],
            nodes := if w.Committed? && r.ip in m.nodes then m.nodes[r.ip := Refreshed(c, m.nodes[r.ip], r)]
                     else m.nodes)
  }

  /** Go's zero value stands for a node that has not reported since start-up. */
  function LastSeen(lastTime: map<NodeId, int>, id: NodeId): int {
    if id in lastTime then lastTime[id] else 0
  }

  function MarkedDead(c: Config, row: NodeRow): NodeRow {
    row.(alive := false, cpuRatio := "0", memRatio := "0", dhcpAlive := false, dnsAlive := false,
         startTime := c.startTime, vip := "")
  }

  function AfterVisit(c: Config, m: Monitor, v: Visit): Monitor {
    if v.id in m.nodes && v.now - LastSeen(m.lastTime, v.id) > c.timeout && v.write.Committed?
    then m.(nodes := m.nodes[v.id := MarkedDead(c, m.nodes[v.id])])
    else m
  }

  function AfterVisits(c: Config, m: Monitor, visits: seq<Visit>): Monitor
    decreases |visits|
  {
    if visits == [] then m else AfterVisits(c, AfterVisit(c, m, visits[0]), visits[1..])
  }

  function AfterTick(c: Config, m: Monitor, visits: seq<Visit>): Monitor {
    if m.master == "" then AfterVisits(c, m, visits) else m
  }

  function FileAfter(file: string, master: string, write: FileWrite): string {
    match write
    case Written => master
    case Unchanged => file
    case Partial(left) => left
  }

  function AfterMasterOper(m: Monitor, master: string, io: FileIo): Monitor {
    if !io.readOk then m
    else
      var file := FileAfter(m.file, master, io.write);
      m.(file := file, master := if io.reloadOk then file else master)
  }

  function After(c: Config, m: Monitor, t: Timed): Monitor {
    match t.op
    case Register(r, w) => AfterRegister(c, m, r, w)
    case KeepAlive(r, w) => AfterKeepAlive(c, m, r, w, t.at)
    case Tick(visits) => AfterTick(c, m, visits)
    case MasterUp(ip, io) => if ip == c.masterIp then AfterMasterOper(m, ip, io) else m
    case MasterDown(ip, io) => if ip == c.masterIp then AfterMasterOper(m, "", io) else m
  }

  function Run(c: Config, m: Monitor, ops: seq<Timed>): Monitor
    decreases |ops|
  {
    if ops == [] then m else Run(c, After(c, m, ops[0]), ops[1..])
  }

  // ---------- the handler ----------

  class NodeTable {
    var rows: map<NodeId, NodeRow>

    constructor (rows: map<NodeId, NodeRow>)
      ensures this.rows == rows
    {
      this.rows := rows;
    }
  }

  class NodeMonitorHandler {
    const conf: Config
    const db: NodeTable
    var master: string
    var file: string
    var lastTime: map<NodeId, int>

    constructor (timeout: int, master: string, ip: string, startTime: int, db: NodeTable)
      ensures conf == Config(timeout, master, ip, startTime) && this.db == db
      ensures Abstract() == Monitor(master, master, map[], db.rows)
    {
      this.conf := Config(timeout, master, ip, startTime);
      this.db := db;
      this.master, this.file, this.lastTime := master, master, map[];
    }

    ghost function Abstract(): Monitor
      reads this, db
    {
      Monitor(master, file, lastTime, db.rows)
    }

    method Register(req: RegisterReq, write: Write)
      modifies db
      ensures Abstract() == AfterRegister(conf, old(Abstract()), req, write)
    {
      if master == "" && write.Committed? {
        if req.ip in db.rows {
          var row := db.rows[req.ip];
          db.rows := db.rows[req.ip := row.(roles := req.roles, hostName := req.hostName, master := req.master,
                                            controllerIp := conf.ip, startTime := conf.startTime)];
        } else {
          db.rows := db.rows[req.ip := NodeRow(req.roles, req.hostName, false, false, false, "", "", "",
                                               conf.ip, conf.startTime, "")];
        }
      }
    }

    method KeepAlive(req: KeepAliveReq, now: int, write: Write)
      modifies this`lastTime, db
      ensures Abstract() == AfterKeepAlive(conf, old(Abstract()), req, write, now)
    {
      if master == "" && !write.NotBegun? {
        if write.Committed? && req.ip in db.rows {
          db.rows := db.rows[req.ip := db.rows[req.ip].(
            roles := req.roles, alive := true, cpuRatio := req.cpu, memRatio := req.mem, dnsAlive := req.dns,
            dhcpAlive := req.dhcp, master := req.master, controllerIp := conf.ip, startTime := conf.startTime,
            vip := req.vip)];
        }
        lastTime := lastTime[req.ip := now];
      }
    }

    /** One turn of the CheckAlive loop; `visits` are the listed rows, each with its clock reading and write outcome. */
    method CheckAliveTick(visits: seq<Visit>)
      modifies db
      ensures Abstract() == AfterTick(conf, old(Abstract()), visits)
    {
      if master == "" {
        assert visits[0..] == visits;
        for i := 0 to |visits|
          invariant master == old(master) && file == old(file) && lastTime == old(lastTime)
          invariant AfterVisits(conf, Abstract(), visits[i..]) == AfterVisits(conf, old(Abstract()), visits)
        {
          var v := visits[i];
          assert visits[i..][1..] == visits[i + 1..];
          var seen := if v.id in lastTime then lastTime[v.id] else 0;
          if v.now - seen > conf.timeout && v.write.Committed? && v.id in db.rows {
            db.rows := db.rows[v.id := db.rows[v.id].(
              alive := false, cpuRatio := "0", memRatio := "0", dhcpAlive := false, dnsAlive := false,
              startTime := conf.startTime, vip := "")];
          }
        }
      }
    }

    method MasterUp(ip: string, io: FileIo)
      modifies this`master, this`file
      ensures Abstract() == After(conf, old(Abstract()), Timed(0, Op.MasterUp(ip, io)))
    {
      if ip == conf.masterIp {
        MasterOper(ip, io);
      }
    }

    method MasterDown(ip: string, io: FileIo)
      modifies this`master, this`file
      ensures Abstract() == After(conf, old(Abstract()), Timed(0, Op.MasterDown(ip, io)))
    {
      if ip == conf.masterIp {
        MasterOper("", io);
      }
    }

    method MasterOper(newMaster: string, io: FileIo)
      modifies this`master, this`file
      ensures Abstract() == AfterMasterOper(old(Abstract()), newMaster, io)
    {
      if !io.readOk {
        return;
      }
      master := newMaster;
      match io.write {
        case Written => file := master;
        case Unchanged =>
        case Partial(left) => file := left;
      }
      if io.reloadOk {
        master := file;
      }
    }
  }

  // ---------- master/standby ----------

  /** The master setting, live and stored, is empty or the address captured at construction. */
  predicate KnownMaster(c: Config, m: Monitor) {
    m.master in {"", c.masterIp} && m.file in {"", c.masterIp}
  }

  /** A master switch that leaves neither setting but a third one in the file. */
  predicate Spoils(c: Config, t: Timed) {
    && ChangesMaster(c, t)
    && var io := if t.op.MasterUp? then t.op.upIo else t.op.downIo;
       io.readOk && io.write.Partial? && io.write.left !in {"", c.masterIp}
  }

  /** A step leaves the two known settings exactly unless it half-writes the file to a third one. */
  lemma {:induction false} KnownMasterUnlessSpoiled(c: Config, m: Monitor, t: Timed)
    requires KnownMaster(c, m)
    ensures KnownMaster(c, After(c, m, t)) <==> !Spoils(c, t)
  {
    if t.op.Tick? {
      VisitsKeepTimes(c, m, t.op.visits);
    }
  }

  /**
   Whichever reads, writes and reloads fail, over every run without such a half-written file the master setting is
   empty or the captured address.
   */
  lemma {:induction false} MasterIsEmptyOrCaptured(c: Config, m: Monitor, ops: seq<Timed>)
    requires KnownMaster(c, m) && forall t :: t in ops ==> !Spoils(c, t)
    ensures KnownMaster(c, Run(c, m, ops))
    decreases |ops|
  {
    if ops == [] {
    } else {
      assert ops[0] in ops;
      KnownMasterUnlessSpoiled(c, m, ops[0]);
      MasterIsEmptyOrCaptured(c, After(c, m, ops[0]), ops[1..]);
    }
  }

  /** A half-written address that is reloaded makes an active controller a standby of nobody. */
  lemma {:induction false} HalfWrittenMaster(c: Config, m: Monitor, left: string)
    requires m.master == "" && left !in {"", c.masterIp}
    ensures var t := After(c, m, Timed(0, MasterDown(c.masterIp, FileIo(true, Partial(left), true))));
      t.master == left && forall v :: After(c, t, Timed(0, Tick(v))) == t
  {
  }

  predicate ChangesMaster(c: Config, t: Timed) {
    || (t.op.MasterUp? && t.op.upIp == c.masterIp)
    || (t.op.MasterDown? && t.op.downIp == c.masterIp)
  }

  /** A standby controller ignores registrations, keep-alives and ticks until the master is switched. */
  lemma {:induction false} StandbyIsFrozen(c: Config, m: Monitor, ops: seq<Timed>)
    requires m.master != "" && forall t :: t in ops ==> !ChangesMaster(c, t)
    ensures Run(c, m, ops) == m
    decreases |ops|
  {
    if ops == [] {
    } else {
      assert ops[0] in ops;
      StandbyIsFrozen(c, m, ops[1..]);
    }
  }

  lemma {:induction false} ActiveStaysActive(c: Config, m: Monitor, ops: seq<Timed>)
    requires m.master == "" && forall t :: t in ops ==> !ChangesMaster(c, t)
    ensures Run(c, m, ops).master == ""
    decreases |ops|
  {
    if ops == [] {
    } else {
      assert ops[0] in ops;
      if ops[0].op.Tick? {
        VisitsKeepTimes(c, m, ops[0].op.visits);
      }
      ActiveStaysActive(c, After(c, m, ops[0]), ops[1..]);
    }
  }

  // ---------- what each operation writes ----------

  /** A committed keep-alive puts every reported value into the node's row, keeps its host name, touches no other. */
  lemma {:induction false} KeepAliveWritesReport(c: Config, m: Monitor, req: KeepAliveReq, now: int)
    requires m.master == "" && req.ip in m.nodes
    ensures var n := After(c, m, Timed(now, KeepAlive(req, Committed)));
      && n.nodes.Keys == m.nodes.Keys
      && (forall id :: id in m.nodes && id != req.ip ==> n.nodes[id] == m.nodes[id])
      && n.lastTime == m.lastTime[req.ip := now] && n.master == m.master && n.file == m.file
      && var row := n.nodes[req.ip];
         && row.alive && row.dnsAlive == req.dns && row.dhcpAlive == req.dhcp
         && row.cpuRatio == req.cpu && row.memRatio == req.mem && row.vip == req.vip
         && row.roles == req.roles && row.master == req.master
         && row.controllerIp == c.ip && row.startTime == c.startTime
         && row.hostName == m.nodes[req.ip].hostName
  {
  }

  /**
   Otherwise no row changes: the report time alone is recorded when the transaction body ran, be it rolled back or
   for an unknown node, and not even that when it never began or the controller is standby.
   */
  lemma {:induction false} KeepAliveWithoutRow(c: Config, m: Monitor, req: KeepAliveReq, w: Write, now: int)
    requires !w.Committed? || req.ip !in m.nodes || m.master != ""
    ensures After(c, m, Timed(now, KeepAlive(req, w)))
         == if m.master == "" && !w.NotBegun? then m.(lastTime := m.lastTime[req.ip := now]) else m
  {
  }

  /** A committed registration inserts a row without any report, or rewrites who the node is and keeps its status. */
  lemma {:induction false} RegisterWritesIdentity(c: Config, m: Monitor, r: RegisterReq, at: int)
    requires m.master == ""
    ensures var n := After(c, m, Timed(at, Register(r, Committed)));
      && n.nodes.Keys == m.nodes.Keys + {r.ip}
      && (forall id :: id in m.nodes && id != r.ip ==> n.nodes[id] == m.nodes[id])
      && n.lastTime == m.lastTime && n.master == m.master && n.file == m.file
      && var row := n.nodes[r.ip];
         && row.roles == r.roles && row.hostName == r.hostName
         && row.controllerIp == c.ip && row.startTime == c.startTime
         && (r.ip !in m.nodes ==>
              && !row.alive && !row.dnsAlive && !row.dhcpAlive
              && row.cpuRatio == row.memRatio == row.vip == row.master == "")
         && (r.ip in m.nodes ==>
              var was := m.nodes[r.ip];
              && row.master == r.master && row.alive == was.alive
              && row.dnsAlive == was.dnsAlive && row.dhcpAlive == was.dhcpAlive
              && row.cpuRatio == was.cpuRatio && row.memRatio == was.memRatio && row.vip == was.vip)
  {
  }

  /** A registration that does not commit, or reaches a standby, changes nothing. */
  lemma {:induction false} RegisterWithoutCommit(c: Config, m: Monitor, r: RegisterReq, w: Write, at: int)
    requires !w.Committed? || m.master != ""
    ensures After(c, m, Timed(at, Register(r, w))) == m
  {
  }

  /** The switch as a caller sees it: what the live and the stored setting are for each file outcome. */
  lemma {:induction false} SwitchSetsMaster(c: Config, m: Monitor, at: int, ip: string, io: FileIo)
    ensures var up, down := After(c, m, Timed(at, MasterUp(ip, io))), After(c, m, Timed(at, MasterDown(ip, io)));
      && up.nodes == down.nodes == m.nodes && up.lastTime == down.lastTime == m.lastTime
      && (ip != c.masterIp || !io.readOk ==> up == m && down == m)
      && (ip == c.masterIp && io.readOk ==>
           && (io.write.Written? ==> up.master == up.file == ip && down.master == down.file == "")
           && (io.write.Unchanged? ==> up.file == down.file == m.file)
           && (io.write.Partial? ==> up.file == down.file == io.write.left)
           && (io.reloadOk ==> up.master == up.file && down.master == down.file)
           && (!io.reloadOk ==> up.master == ip && down.master == ""))
  {
  }

  // ---------- a single tick ----------

  lemma {:induction false} VisitsKeepTimes(c: Config, m: Monitor, visits: seq<Visit>)
    ensures var n := AfterVisits(c, m, visits);
      n.lastTime == m.lastTime && n.master == m.master && n.file == m.file && n.nodes.Keys == m.nodes.Keys
    decreases |visits|
  {
    if visits == [] {
    } else {
      VisitsKeepTimes(c, AfterVisit(c, m, visits[0]), visits[1..]);
    }
  }

  predicate Overdue(c: Config, m: Monitor, v: Visit) {
    v.now - LastSeen(m.lastTime, v.id) > c.timeout
  }

  /** A tick takes a row to dead exactly when some committed visit to it finds it overdue. */
  lemma {:induction false} DeadAfterVisits(c: Config, m: Monitor, visits: seq<Visit>, id: NodeId)
    requires id in m.nodes
    ensures id in AfterVisits(c, m, visits).nodes
    ensures AfterVisits(c, m, visits).nodes[id].alive
       <==> m.nodes[id].alive && !exists v :: v in visits && v.id == id && v.write.Committed? && Overdue(c, m, v)
    decreases |visits|
  {
    if visits == [] {
    } else {
      DeadAfterVisits(c, AfterVisit(c, m, visits[0]), visits[1..], id);
      assert forall v :: v in visits <==> v == visits[0] || v in visits[1..];
    }
  }

  /** A row marked dead: status cleared, identity kept. */
  predicate ClearedFrom(c: Config, row: NodeRow, before: NodeRow) {
    && !row.alive && !row.dnsAlive && !row.dhcpAlive
    && row.cpuRatio == "0" && row.memRatio == "0" && row.vip == "" && row.startTime == c.startTime
    && row.roles == before.roles && row.hostName == before.hostName
    && row.master == before.master && row.controllerIp == before.controllerIp
  }

  /** A tick clears the status of a row exactly when some committed visit finds it overdue, else keeps the row whole. */
  lemma {:induction false} TickClearsOverdue(c: Config, m: Monitor, visits: seq<Visit>, id: NodeId)
    requires m.master == "" && id in m.nodes
    ensures id in AfterTick(c, m, visits).nodes
    ensures var row := AfterTick(c, m, visits).nodes[id];
      if exists v :: v in visits && v.id == id && v.write.Committed? && v.now - LastSeen(m.lastTime, id) > c.timeout
      then ClearedFrom(c, row, m.nodes[id])
      else row == m.nodes[id]
    decreases |visits|
  {
    if visits == [] {
    } else {
      var v := visits[0];
      TickClearsOverdue(c, AfterVisit(c, m, v), visits[1..], id);
      assert forall u :: u in visits <==> u == v || u in visits[1..];
    }
  }

  /** The tick visits every row of the table and its writes succeed. */
  predicate FullTick(m: Monitor, visits: seq<Visit>) {
    && (forall v :: v in visits ==> v.write.Committed?)
    && (forall id :: id in m.nodes ==> exists v :: v in visits && v.id == id)
  }

  /** Right after a full tick of an active controller every row still alive has reported within the timeout. */
  lemma {:induction false} AliveMeansRecent(c: Config, m: Monitor, visits: seq<Visit>, v: Visit)
    requires m.master == "" && FullTick(m, visits) && v in visits && v.id in m.nodes
    ensures v.id in AfterTick(c, m, visits).nodes
    ensures AfterTick(c, m, visits).nodes[v.id].alive
        ==> v.now - LastSeen(AfterTick(c, m, visits).lastTime, v.id) <= c.timeout
  {
    DeadAfterVisits(c, m, visits, v.id);
    VisitsKeepTimes(c, m, visits);
  }

  /** Register shares the read lock with a tick; on a table without deletions the two commute, so a tick is atomic. */
  lemma {:induction false} RegisterCommutesWithVisit(c: Config, m: Monitor, r: RegisterReq, w: Write, v: Visit)
    requires v.id in m.nodes
    ensures AfterVisit(c, AfterRegister(c, m, r, w), v) == AfterRegister(c, AfterVisit(c, m, v), r, w)
  {
    if m.master == "" && w.Committed? && Overdue(c, m, v) && v.write.Committed? && r.ip != v.id {
      assert m.nodes[r.ip := Inserted(c, r)][v.id := MarkedDead(c, m.nodes[v.id])]
          == m.nodes[v.id := MarkedDead(c, m.nodes[v.id])][r.ip := Inserted(c, r)];
    }
  }

  // ---------- timed runs ----------

  /** All clock readings of `t` lie in [from, to]. */
  predicate Within(t: Timed, from: int, to: int) {
    from <= t.at <= to && (t.op.Tick? ==> forall v :: v in t.op.visits ==> t.at <= v.now <= to)
  }

  /**
   Accuracy: a node that was alive and seen at `seen` stays alive as long as no clock reading passes
   `seen + timeout`, through any mix of ticks, registrations, keep-alives and master switches.
   */
  lemma {:induction false} NoFalseAlarm(c: Config, m: Monitor, ops: seq<Timed>, id: NodeId, seen: int)
    requires id in m.nodes && m.nodes[id].alive && LastSeen(m.lastTime, id) >= seen
    requires forall t :: t in ops ==> Within(t, seen, seen + c.timeout)
    ensures id in Run(c, m, ops).nodes && Run(c, m, ops).nodes[id].alive
    decreases |ops|
  {
    if ops == [] {
    } else {
      var t := ops[0];
      assert t in ops;
      assert Within(t, seen, seen + c.timeout);
      if t.op.Tick? {
        DeadAfterVisits(c, m, t.op.visits, id);
        VisitsKeepTimes(c, m, t.op.visits);
      }
      assert forall u :: u in ops[1..] ==> u in ops;
      NoFalseAlarm(c, After(c, m, t), ops[1..], id, seen);
    }
  }

  /** A keep-alive an active controller stores keeps its node alive for the whole timeout. */
  lemma {:induction false} ReportBuysTimeout(c: Config, m: Monitor, req: KeepAliveReq, now: int, ops: seq<Timed>)
    requires m.master == "" && req.ip in m.nodes
    requires forall t :: t in ops ==> Within(t, now, now + c.timeout)
    ensures var n := Run(c, m, [Timed(now, KeepAlive(req, Committed))] + ops);
      req.ip in n.nodes && n.nodes[req.ip].alive
  {
    var report := Timed(now, KeepAlive(req, Committed));
    assert ([report] + ops)[1..] == ops;
    NoFalseAlarm(c, After(c, m, report), ops, req.ip, now);
  }

  predicate Reports(t: Timed, id: NodeId) {
    t.op.KeepAlive? && t.op.req.ip == id
  }

  predicate SameStatus(a: NodeRow, b: NodeRow) {
    && a.alive == b.alive && a.dnsAlive == b.dnsAlive && a.dhcpAlive == b.dhcpAlive
    && a.cpuRatio == b.cpuRatio && a.memRatio == b.memRatio && a.vip == b.vip
  }

  lemma {:induction false} StatusStays(c: Config, m: Monitor, ops: seq<Timed>, id: NodeId, seen: int)
    requires id in m.nodes && LastSeen(m.lastTime, id) >= seen
    requires forall t :: t in ops ==> Within(t, seen, seen + c.timeout) && !Reports(t, id)
    ensures id in Run(c, m, ops).nodes && SameStatus(Run(c, m, ops).nodes[id], m.nodes[id])
    decreases |ops|
  {
    if ops == [] {
    } else {
      var t := ops[0];
      assert t in ops;
      assert Within(t, seen, seen + c.timeout);
      if t.op.Tick? && m.master == "" {
        TickClearsOverdue(c, m, t.op.visits, id);
        VisitsKeepTimes(c, m, t.op.visits);
      }
      assert forall u :: u in ops[1..] ==> u in ops;
      StatusStays(c, After(c, m, t), ops[1..], id, seen);
    }
  }

  /** What a stored keep-alive reported is what the row shows for the whole timeout, until the node reports again. */
  lemma {:induction false} ReportStaysVisible(c: Config, m: Monitor, req: KeepAliveReq, now: int, ops: seq<Timed>)
    requires m.master == "" && req.ip in m.nodes
    requires forall t :: t in ops ==> Within(t, now, now + c.timeout) && !Reports(t, req.ip)
    ensures var n := Run(c, m, [Timed(now, KeepAlive(req, Committed))] + ops);
      && req.ip in n.nodes
      && var row := n.nodes[req.ip];
         && row.alive && row.dnsAlive == req.dns && row.dhcpAlive == req.dhcp
         && row.cpuRatio == req.cpu && row.memRatio == req.mem && row.vip == req.vip
  {
    var report := Timed(now, KeepAlive(req, Committed));
    KeepAliveWritesReport(c, m, req, now);
    assert ([report] + ops)[1..] == ops;
    StatusStays(c, After(c, m, report), ops, req.ip, now);
  }

  /** Without a keep-alive of its own a node keeps its last time, stays in the table, and once dead stays dead. */
  lemma {:induction false} SilentStays(c: Config, m: Monitor, ops: seq<Timed>, id: NodeId)
    requires id in m.nodes && forall t :: t in ops ==> !Reports(t, id)
    ensures var n := Run(c, m, ops);
      && id in n.nodes
      && LastSeen(n.lastTime, id) == LastSeen(m.lastTime, id)
      && (!m.nodes[id].alive ==> !n.nodes[id].alive)
    decreases |ops|
  {
    if ops == [] {
    } else {
      var t := ops[0];
      assert t in ops;
      if t.op.Tick? {
        DeadAfterVisits(c, m, t.op.visits, id);
        VisitsKeepTimes(c, m, t.op.visits);
      }
      SilentStays(c, After(c, m, t), ops[1..], id);
    }
  }

  lemma {:induction false} RunConcat(c: Config, m: Monitor, a: seq<Timed>, b: seq<Timed>)
    ensures Run(c, m, a + b) == Run(c, Run(c, m, a), b)
    decreases |a|
  {
    if a == [] {
      assert a + b == b;
    } else {
      assert (a + b)[1..] == a[1..] + b;
      RunConcat(c, After(c, m, a[0]), a[1..], b);
    }
  }

  /** The ticker fires at least once in every interval of length `timeout` that starts in [from, to]. */
  ghost predicate TicksEvery(c: Config, ops: seq<Timed>, from: int, to: int) {
    forall x :: from <= x <= to ==> TicksWithin(ops, x, c.timeout)
  }

  ghost predicate TicksWithin(ops: seq<Timed>, after: int, length: int) {
    exists i :: 0 <= i < |ops| && ops[i].op.Tick? && after < ops[i].at <= after + length
  }

  /** Every tick of the run, in the state it starts from, covers the whole table and reads no clock before it began. */
  ghost predicate TicksSucceed(c: Config, m: Monitor, ops: seq<Timed>) {
    forall i :: 0 <= i < |ops| && ops[i].op.Tick? ==>
      FullTick(Run(c, m, ops[..i]), ops[i].op.visits) && forall v :: v in ops[i].op.visits ==> ops[i].at <= v.now
  }

  /**
   Completeness: an active controller declares a node that is silent since `k` dead with a tick that starts no
   later than k + 2 * timeout, and the node is dead in every later state.
   */
  lemma {:induction false} SilenceIsDetected(c: Config, m: Monitor, ops: seq<Timed>, id: NodeId, k: int)
      returns (i: nat)
    requires c.timeout >= 0 && m.master == "" && id in m.nodes && LastSeen(m.lastTime, id) <= k
    requires forall t :: t in ops ==> !Reports(t, id) && !ChangesMaster(c, t)
    requires TicksEvery(c, ops, k, k + c.timeout) && TicksSucceed(c, m, ops)
    ensures i < |ops| && ops[i].op.Tick? && ops[i].at <= k + 2 * c.timeout
    ensures forall j :: i < j <= |ops| ==>
      id in Run(c, m, ops[..j]).nodes && !Run(c, m, ops[..j]).nodes[id].alive
  {
    assert TicksWithin(ops, k + c.timeout, c.timeout);
    i :| 0 <= i < |ops| && ops[i].op.Tick? && k + c.timeout < ops[i].at <= k + 2 * c.timeout;
    var before := Run(c, m, ops[..i]);
    SilentStays(c, m, ops[..i], id);
    ActiveStaysActive(c, m, ops[..i]);
    var v :| v in ops[i].op.visits && v.id == id;
    DeadAfterVisits(c, before, ops[i].op.visits, id);
    assert Overdue(c, before, v);
    forall j | i < j <= |ops|
      ensures id in Run(c, m, ops[..j]).nodes && !Run(c, m, ops[..j]).nodes[id].alive
    {
      RunThrough(c, m, ops, i, j);
      SilentStays(c, After(c, before, ops[i]), ops[i + 1..j], id);
    }
  }

  lemma {:induction false} RunThrough(c: Config, m: Monitor, ops: seq<Timed>, i: nat, j: nat)
    requires i < j <= |ops|
    ensures Run(c, m, ops[..j]) == Run(c, After(c, Run(c, m, ops[..i]), ops[i]), ops[i + 1..j])
  {
    assert ops[..j] == ops[..i] + ([ops[i]] + ops[i + 1..j]);
    RunConcat(c, m, ops[..i], [ops[i]] + ops[i + 1..j]);
    assert ([ops[i]] + ops[i + 1..j])[1..] == ops[i + 1..j];
  }

  lemma {:induction false} OneVisit(c: Config, m: Monitor, v: Visit)
    ensures AfterVisits(c, m, [v]) == AfterVisit(c, m, v)
  {
    assert [v][1..] == [];
  }

  /** The bound is reached: ticks at k + timeout and k + 2 * timeout, and only the second one notices. */
  lemma {:induction false} DetectionBoundIsTight(c: Config, m: Monitor, id: NodeId, k: int)
    requires c.timeout > 0 && m.master == "" && m.nodes.Keys == {id} && m.nodes[id].alive
    requires id in m.lastTime && m.lastTime[id] == k
    ensures var first := Timed(k + c.timeout, Tick([Visit(id, k + c.timeout, Committed)]));
      var second := Timed(k + 2 * c.timeout, Tick([Visit(id, k + 2 * c.timeout, Committed)]));
      && Run(c, m, [first]) == m
      && id in Run(c, m, [first, second]).nodes && !Run(c, m, [first, second]).nodes[id].alive
  {
    var first := Timed(k + c.timeout, Tick([Visit(id, k + c.timeout, Committed)]));
    var second := Timed(k + 2 * c.timeout, Tick([Visit(id, k + 2 * c.timeout, Committed)]));
    assert [first, second][1..] == [second];
    OneVisit(c, m, first.op.visits[0]);
    assert After(c, m, first) == m;
    DeadAfterVisits(c, m, second.op.visits, id);
    assert second.op.visits[0] in second.op.visits;
    assert Run(c, m, [second]) == After(c, m, second);
  }

  /**
   A fresh handler knows no report times: its first full tick at a time past the timeout declares every node
   dead that has not reported to this process, whatever the table said before.
   */
  lemma {:induction false} RestartForgetsReports(c: Config, m: Monitor, visits: seq<Visit>, id: NodeId)
    requires m.master == "" && id in m.nodes && id !in m.lastTime && FullTick(m, visits)
    requires forall v :: v in visits ==> v.now > c.timeout
    ensures id in AfterTick(c, m, visits).nodes && !AfterTick(c, m, visits).nodes[id].alive
  {
    DeadAfterVisits(c, m, visits, id);
  }
}
