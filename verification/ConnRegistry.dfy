/** The engine server's connection registry as a value: the connection table, the
    per-user wraps and the delay queue, and the effect of each manager method. */
module ConnRegistry {
  import opened Basics

  type ConnId = string
  type Uid = string
  type Time = int

  datatype Level = Master | Slave
  datatype ConnState = Opened | Authed | Closing | Closed

  datatype Config = Config(
    maxSlaveConns: nat,
    masterTypes: set<nat>,
    authTimeout: nat,
    pingInterval: nat,
    pingLostTimes: nat)

  /** What the manager knows of one connection; uid is "" until it is authenticated. */
  datatype Conn = Conn(uid: Uid, level: Level, state: ConnState, lastPing: Option<Time>)

  /** A user's connections, and the same by level. */
  datatype Wrap = Wrap(conns: seq<ConnId>, master: seq<ConnId>, slave: seq<ConnId>)

  datatype Check = AuthCheck | PingCheck
  datatype Item = Item(kind: Check, connId: ConnId, expire: Time)

  /** A connection to drop, as ModifyAfterAuthed reports it. */
  datatype HandleItem = HandleItem(connId: ConnId, silence: bool)

  function ItemIds(items: seq<HandleItem>): set<ConnId> {
    set i | i in items :: i.connId
  }

  datatype Registry = Registry(conns: map<ConnId, Conn>, wraps: map<Uid, Wrap>, queue: seq<Item>)

  function LevelOf(cfg: Config, ctype: nat): Level {
    if ctype in cfg.masterTypes then Master else Slave
  }

  function NewWrap(id: ConnId, level: Level): Wrap {
    Wrap([id], if level == Master then [id] else [], if level == Slave then [id] else [])
  }

  /** AddWhenOpened. */
  function Open(cfg: Config, r: Registry, id: ConnId, now: Time): Registry {
    r.(conns := r.conns[id := Conn("", Slave, Opened, None)],
       queue := r.queue + [Item(AuthCheck, id, now + cfg.authTimeout)])
  }

  /** The wrap half of ModifyAfterAuthed when the user already has one: a master
      replaces the one in the master slot, a slave pushes out the earliest when the
      limit is passed. */
  function Join(cfg: Config, w: Wrap, id: ConnId, level: Level): (Wrap, seq<HandleItem>) {
    var conns := w.conns + [id];
    if level == Master then
      if w.master != [] then
        (Wrap(RemoveFirst(conns, w.master[0]), [id], w.slave), [HandleItem(w.master[0], false)])
      else (Wrap(conns, [id], w.slave), [])
    else
      var slave := w.slave + [id];
      if |slave| > cfg.maxSlaveConns then
        (Wrap(RemoveFirst(conns, slave[0]), w.master, slave[1..]), [HandleItem(slave[0], true)])
      else (Wrap(conns, w.master, slave), [])
  }

  predicate CanAuth(r: Registry, id: ConnId) {
    id in r.conns && r.conns[id].state == Opened
  }

  function JoinUser(cfg: Config, r: Registry, id: ConnId, uid: Uid, level: Level): (Wrap, seq<HandleItem>) {
    if uid in r.wraps then Join(cfg, r.wraps[uid], id, level) else (NewWrap(id, level), [])
  }

  /** ModifyAfterAuthed. */
  function Auth(cfg: Config, r: Registry, id: ConnId, uid: Uid, ctype: nat, now: Time): (Registry, seq<HandleItem>) {
    if !CanAuth(r, id) then (r, [])
    else
      var level := LevelOf(cfg, ctype);
      var (wrap, items) := JoinUser(cfg, r, id, uid, level);
      (Registry(r.conns[id := Conn(uid, level, Authed, Some(now))],
                r.wraps[uid := wrap],
                r.queue + [Item(PingCheck, id, now + cfg.pingInterval)]),
       items)
  }

  function LeaveWrap(w: Wrap, id: ConnId, level: Level): Wrap {
    Wrap(RemoveFirst(w.conns, id),
         if level == Master then [] else w.master,
         if level == Master then w.slave else RemoveFirst(w.slave, id))
  }

  /** CleanAfterConnClosed. The master slot is emptied whoever holds it. */
  function Clean(r: Registry, id: ConnId): Registry {
    if id !in r.conns then r
    else
      var c := r.conns[id];
      var conns := r.conns - {id};
      if c.uid == "" || c.uid !in r.wraps then r.(conns := conns)
      else
        var w := LeaveWrap(r.wraps[c.uid], id, c.level);
        r.(conns := conns, wraps := if w.conns == [] then r.wraps - {c.uid} else r.wraps[c.uid := w])
  }

  /** ModifyAfterPingSuccess. */
  function Ping(r: Registry, id: ConnId, now: Time): Registry {
    if id in r.conns then r.(conns := r.conns[id := r.conns[id].(lastPing := Some(now))]) else r
  }

  predicate OverThreshold(cfg: Config, lastPing: Time, now: Time) {
    lastPing + cfg.pingInterval * cfg.pingLostTimes < now
  }

  /** execAuthExpireCheckTask on an item just taken from the queue. */
  function ExecAuthCheck(r: Registry, id: ConnId): Registry {
    if CanAuth(r, id) then r.(conns := r.conns - {id}) else r
  }

  /** execPingExpireCheckTask on an item just taken from the queue. A killed
      connection stays in the tables until its close event cleans it. */
  function ExecPingCheck(cfg: Config, r: Registry, id: ConnId, now: Time): Registry {
    if id !in r.conns || r.conns[id].lastPing.None? then r
    else if OverThreshold(cfg, r.conns[id].lastPing.value, now) then
      if r.conns[id].state == Authed then r.(conns := r.conns[id := r.conns[id].(state := Closed)]) else r
    else r.(queue := r.queue + [Item(PingCheck, id, now + cfg.pingInterval)])
  }

  /** The delay queue hands out item i. */
  function Take(r: Registry, i: nat): Registry
    requires i < |r.queue|
  {
    r.(queue := r.queue[..i] + r.queue[i + 1..])
  }

  function Fire(cfg: Config, r: Registry, i: nat, now: Time): Registry
    requires i < |r.queue|
  {
    var item := r.queue[i];
    if item.kind == AuthCheck then ExecAuthCheck(Take(r, i), item.connId)
    else ExecPingCheck(cfg, Take(r, i), item.connId, now)
  }
}
