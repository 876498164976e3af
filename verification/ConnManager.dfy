/** The engine server's connection manager with its objects: a connection table, a
    wrap per user that lists the same connection objects in all and by level, and a
    delay queue. Each method is one method-atomic step; its contract says it changes
    what the objects show exactly as the function of ConnRegistry does. */
module ConnManager {
  import opened Basics
  import opened ConnRegistry
  import opened RegistryRuns

  class ClientConn {
    const connId: ConnId
    var uid: Uid
    var ctype: nat
    var clevel: Level
    var state: ConnState
    var lastPingTime: Option<Time>

    constructor (connId: ConnId)
      ensures this.connId == connId && Value() == Conn("", Slave, Opened, None)
    {
      this.connId := connId;
      uid, ctype, clevel, state, lastPingTime := "", 0, Slave, Opened, None;
    }

    ghost function Value(): Conn
      reads this
    {
      Conn(uid, clevel, state, lastPingTime)
    }
  }

  function Ids(s: seq<ClientConn>): seq<ConnId> {
    seq(|s|, i requires 0 <= i < |s| => s[i].connId)
  }

  /** Drops the first connection with this id, keeping the order of the rest. */
  function Without(s: seq<ClientConn>, id: ConnId): (r: seq<ClientConn>)
    ensures Ids(r) == RemoveFirst(Ids(s), id)
    ensures forall c :: c in r ==> c in s
  {
    if s == [] then []
    else
      assert Ids(s)[1..] == Ids(s[1..]);
      if s[0].connId == id then s[1..]
      else
        assert Ids([s[0]] + Without(s[1..], id)) == [s[0].connId] + Ids(Without(s[1..], id));
        [s[0]] + Without(s[1..], id)
  }

  lemma IdsSnoc(s: seq<ClientConn>, c: ClientConn)
    ensures Ids(s + [c]) == Ids(s) + [c.connId]
  {
  }

  class ClientConnWrap {
    ghost const owner: Uid
    var conns: seq<ClientConn>
    var level2conn: map<Level, seq<ClientConn>>

    ghost predicate Shows(w: Wrap)
      reads this
    {
      && Master in level2conn && Slave in level2conn
      && Ids(conns) == w.conns && Ids(level2conn[Master]) == w.master && Ids(level2conn[Slave]) == w.slave
    }

    ghost function Objects(): set<ClientConn>
      reads this
      requires Master in level2conn && Slave in level2conn
    {
      (set c | c in conns) + (set c | c in level2conn[Master]) + (set c | c in level2conn[Slave])
    }

    constructor (conn: ClientConn, clevel: Level, ghost owner: Uid)
      ensures this.owner == owner && Shows(NewWrap(conn.connId, clevel)) && Objects() <= {conn}
    {
      this.owner := owner;
      conns := [conn];
      level2conn := map[Master := if clevel == Master then [conn] else [],
                        Slave := if clevel == Slave then [conn] else []];
    }

    /** A user's further connection: the lock section of ModifyAfterAuthed when the
        wrap already exists. */
    method Add(conn: ClientConn, clevel: Level, cfg: Config, ghost w: Wrap) returns (items: seq<HandleItem>)
      requires Shows(w) && cfg.maxSlaveConns >= 1
      modifies this
      ensures Shows(Join(cfg, w, conn.connId, clevel).0) && items == Join(cfg, w, conn.connId, clevel).1
      ensures Objects() <= old(Objects()) + {conn}
    {
      items := [];
      IdsSnoc(conns, conn);
      conns := conns + [conn];
      if clevel == Master {
        var oldConns := level2conn[Master];
        if |oldConns| > 0 {
          var oldMaster := oldConns[0];
          conns := Without(conns, oldMaster.connId);
          items := [HandleItem(oldMaster.connId, false)];
        }
        level2conn := level2conn[Master := [conn]];
      } else {
        IdsSnoc(level2conn[Slave], conn);
        var slaves := level2conn[Slave] + [conn];
        level2conn := level2conn[Slave := slaves];
        if |slaves| > cfg.maxSlaveConns {
          var earliest := slaves[0];
          assert Ids(slaves)[1..] == Ids(slaves[1..]);
          level2conn := level2conn[Slave := slaves[1..]];
          conns := Without(conns, earliest.connId);
          items := [HandleItem(earliest.connId, true)];
        }
      }
    }

    /** The lock section of CleanAfterConnClosed. */
    method Remove(connId: ConnId, clevel: Level, ghost w: Wrap)
      requires Shows(w)
      modifies this
      ensures Shows(LeaveWrap(w, connId, clevel)) && Objects() <= old(Objects())
    {
      conns := Without(conns, connId);
      if clevel == Master {
        level2conn := level2conn[Master := []];
      } else {
        level2conn := level2conn[Slave := Without(level2conn[Slave], connId)];
      }
    }
  }

  class ConnManager {
    const cfg: Config
    var uid2conn: map<Uid, ClientConnWrap>
    var connId2conn: map<ConnId, ClientConn>
    var dq: seq<Item>
    ghost var reg: Registry           // what the objects show
    ghost var Repr: set<object>

    twostate predicate Grown()
      reads this
    {
      old(Repr) <= Repr && forall o :: o in Repr && o !in old(Repr) ==> fresh(o)
    }

    ghost predicate ConnShown(id: ConnId)
      reads this, Repr
      requires id in connId2conn && id in reg.conns
    {
      var c := connId2conn[id];
      c in Repr && c.connId == id && c.Value() == reg.conns[id]
    }

    /** The wrap shows its user's connections, and whatever it lists that is in the
        connection table is the very object there. */
    ghost predicate WrapShown(u: Uid)
      reads this, Repr
      requires u in uid2conn && u in reg.wraps
    {
      var x := uid2conn[u];
      && x in Repr && x.owner == u && x.Shows(reg.wraps[u])
      && forall c :: c in x.Objects() && c.connId in connId2conn ==> connId2conn[c.connId] == c
    }

    ghost predicate Valid()
      reads this, Repr
    {
      && this in Repr && cfg.maxSlaveConns >= 1 && dq == reg.queue
      && connId2conn.Keys == reg.conns.Keys && uid2conn.Keys == reg.wraps.Keys
      && (forall id :: id in connId2conn ==> ConnShown(id))
      && (forall u :: u in uid2conn ==> WrapShown(u))
    }

    constructor (cfg: Config)
      requires cfg.maxSlaveConns >= 1
      ensures Valid() && fresh(Repr) && this.cfg == cfg && reg == START.reg
    {
      this.cfg := cfg;
      uid2conn, connId2conn, dq := map[], map[], [];
      reg := START.reg;
      Repr := {this};
    }

    /** The objects a wrap lists carry the ids it shows. */
    lemma ListedIds(u: Uid, c: ClientConn)
      requires Valid() && u in uid2conn && c in uid2conn[u].Objects()
      ensures ListedBy(reg.wraps[u], c.connId)
    {
      assert WrapShown(u);
      var x, w := uid2conn[u], reg.wraps[u];
      assert forall i :: 0 <= i < |x.conns| ==> x.conns[i].connId == w.conns[i];
      assert forall i :: 0 <= i < |x.level2conn[Master]| ==> x.level2conn[Master][i].connId == w.master[i];
      assert forall i :: 0 <= i < |x.level2conn[Slave]| ==> x.level2conn[Slave][i].connId == w.slave[i];
    }

    /** In every state of a run, each connection object a wrap lists is the one
        registered under its id. */
    lemma WrapsListRegisteredObjects(t: Tracked, u: Uid, c: ClientConn)
      requires Valid() && reg == t.reg && Inv(cfg, t) && u in uid2conn && c in uid2conn[u].Objects()
      ensures c.connId in connId2conn && connId2conn[c.connId] == c
    {
      ListedIds(u, c);
      WrapIdsRegistered(cfg, t, u);
      assert WrapShown(u);
    }

    /** Only the fields of one connection object changed, and reg says so. */
    twostate lemma ConnWritten(new id: ConnId)
      requires old(Valid()) && dq == reg.queue && Repr == old(Repr)
      requires connId2conn == old(connId2conn) && uid2conn == old(uid2conn)
      requires reg.wraps == old(reg.wraps) && reg.conns.Keys == old(reg.conns.Keys)
      requires forall d :: d in reg.conns && d != id ==> reg.conns[d] == old(reg.conns[d])
      requires id in connId2conn ==> connId2conn[id].Value() == reg.conns[id]
      requires forall o :: o in old(Repr) && o != this && (id in connId2conn ==> o != connId2conn[id]) ==> unchanged(o)
      ensures Valid()
    {
      forall d | d in connId2conn ensures ConnShown(d) {
        assert old(ConnShown(d)) && (id in connId2conn ==> old(ConnShown(id)));
      }
      forall u | u in uid2conn ensures WrapShown(u) {
        assert old(WrapShown(u));
      }
    }

    method AddWhenOpened(connId: ConnId, now: Time)
      requires Valid() && FreshIn(reg, connId)
      modifies Repr
      ensures Valid() && Grown()
      ensures reg == Open(cfg, old(reg), connId, now)
    {
      forall u, c | u in uid2conn && c in uid2conn[u].Objects() ensures c.connId != connId {
        ListedIds(u, c);
      }
      var conn := new ClientConn(connId);
      connId2conn := connId2conn[connId := conn];
      dq := dq + [Item(AuthCheck, connId, now + cfg.authTimeout)];
      reg := Open(cfg, reg, connId, now);
      Repr := Repr + {conn};
      forall id | id in connId2conn ensures ConnShown(id) {
        assert id != connId ==> old(ConnShown(id));
      }
      forall u | u in uid2conn ensures WrapShown(u) {
        assert old(WrapShown(u));
      }
    }

    /** A wrap that was not touched shows what it showed. */
    twostate lemma WrapStays(new v: Uid)
      requires v in old(uid2conn) && v in old(reg.wraps) && old(WrapShown(v)) && old(Repr) <= Repr
      requires v in uid2conn && uid2conn[v] == old(uid2conn)[v] && unchanged(uid2conn[v])
      requires v in reg.wraps && reg.wraps[v] == old(reg.wraps)[v]
      requires connId2conn == old(connId2conn)
      ensures WrapShown(v)
    {
    }

    /** Only user u's wrap changed (it may have come or gone), and reg says so. */
    twostate lemma WrapWritten(new u: Uid)
      requires old(Valid()) && this in Repr && dq == reg.queue && old(Repr) <= Repr
      requires connId2conn == old(connId2conn) && reg.conns == old(reg.conns)
      requires uid2conn.Keys == reg.wraps.Keys && (u in uid2conn ==> WrapShown(u))
      requires forall v :: v != u ==> (v in uid2conn <==> v in old(uid2conn))
      requires forall v :: v != u && v in uid2conn ==>
                 uid2conn[v] == old(uid2conn)[v] && reg.wraps[v] == old(reg.wraps)[v]
      requires forall o :: o in old(Repr) && o != this && (u in old(uid2conn) ==> o != old(uid2conn)[u]) ==>
                 unchanged(o)
      ensures Valid()
    {
      forall id | id in connId2conn ensures ConnShown(id) {
        assert old(ConnShown(id));
      }
      forall v | v in uid2conn && v != u ensures WrapShown(v) {
        assert old(WrapShown(v)) && (u in old(uid2conn) ==> old(WrapShown(u)));
        WrapStays(v);
      }
    }

    /** Files a connection under a user who has others. */
    method AddToWrap(conn: ClientConn, uid: Uid, clevel: Level) returns (items: seq<HandleItem>)
      requires Valid() && conn.connId in connId2conn && connId2conn[conn.connId] == conn && uid in uid2conn
      modifies Repr
      ensures Valid() && Repr == old(Repr) && connId2conn == old(connId2conn)
      ensures var (w, out) := Join(cfg, old(reg.wraps)[uid], conn.connId, clevel);
              reg == old(reg).(wraps := old(reg.wraps)[uid := w]) && items == out
    {
      var wrap := uid2conn[uid];
      assert WrapShown(uid);
      ghost var next := Join(cfg, reg.wraps[uid], conn.connId, clevel).0;
      items := wrap.Add(conn, clevel, cfg, reg.wraps[uid]);
      reg := reg.(wraps := reg.wraps[uid := next]);
      WrapWritten(uid);
    }

    /** Files a connection under a user who has no other. */
    method AddNewWrap(conn: ClientConn, uid: Uid, clevel: Level)
      requires Valid() && conn.connId in connId2conn && connId2conn[conn.connId] == conn && uid !in uid2conn
      modifies this
      ensures Valid() && Grown() && connId2conn == old(connId2conn)
      ensures reg == old(reg).(wraps := old(reg.wraps)[uid := NewWrap(conn.connId, clevel)])
    {
      var wrap := new ClientConnWrap(conn, clevel, uid);
      uid2conn := uid2conn[uid := wrap];
      Repr := Repr + {wrap};
      reg := reg.(wraps := reg.wraps[uid := NewWrap(conn.connId, clevel)]);
      WrapWritten(uid);
    }

    /** Files a connection under its user. */
    method AddToUser(conn: ClientConn, uid: Uid, clevel: Level) returns (items: seq<HandleItem>)
      requires Valid() && conn.connId in connId2conn && connId2conn[conn.connId] == conn
      modifies Repr
      ensures Valid() && Grown()
      ensures var (w, out) := JoinUser(cfg, old(reg), conn.connId, uid, clevel);
              reg == old(reg).(wraps := old(reg.wraps)[uid := w]) && items == out
    {
      if uid in uid2conn {
        items := AddToWrap(conn, uid, clevel);
      } else {
        items := [];
        AddNewWrap(conn, uid, clevel);
      }
    }

    /** Queues a check. */
    method Offer(item: Item)
      requires Valid()
      modifies this
      ensures Valid() && Repr == old(Repr)
      ensures reg == old(reg).(queue := old(reg.queue) + [item])
    {
      dq := dq + [item];
      reg := reg.(queue := dq);
      ConnWritten("");
    }

    /** Writes what authentication settles about the connection. */
    method SetAuthed(conn: ClientConn, uid: Uid, ctype: nat, now: Time)
      requires Valid() && conn.connId in connId2conn && connId2conn[conn.connId] == conn
      modifies Repr
      ensures Valid() && Repr == old(Repr) && connId2conn == old(connId2conn) && uid2conn == old(uid2conn)
      ensures conn.clevel == LevelOf(cfg, ctype)
      ensures var c := Conn(uid, LevelOf(cfg, ctype), Authed, Some(now));
              reg == old(reg).(conns := old(reg.conns)[conn.connId := c])
    {
      assert ConnShown(conn.connId);
      conn.state := Authed;
      conn.uid, conn.ctype, conn.clevel := uid, ctype, LevelOf(cfg, ctype);
      conn.lastPingTime := Some(now);
      reg := reg.(conns := reg.conns[conn.connId := conn.Value()]);
      ConnWritten(conn.connId);
    }

    /** The lock section that follows a won exchange of the connection's state. */
    method FileAuthed(conn: ClientConn, uid: Uid, ctype: nat, now: Time) returns (items: seq<HandleItem>)
      requires Valid() && conn.connId in connId2conn && connId2conn[conn.connId] == conn
      modifies Repr
      ensures Valid() && Grown()
      ensures (reg, items) == AuthLocked(cfg, old(reg), conn.connId, uid, ctype, now)
    {
      SetAuthed(conn, uid, ctype, now);
      items := AddToUser(conn, uid, conn.clevel);
    }

    method ModifyAfterAuthed(connId: ConnId, uid: Uid, ctype: nat, now: Time) returns (items: seq<HandleItem>)
      requires Valid() && uid != ""
      modifies Repr
      ensures Valid() && Grown()
      ensures (reg, items) == Auth(cfg, old(reg), connId, uid, ctype, now)
    {
      items := [];
      if connId in connId2conn {
        var conn := connId2conn[connId];
        assert ConnShown(connId);
        if conn.state == Opened {
          AuthIsLockedThenQueued(cfg, reg, connId, uid, ctype, now);
          items := FileAuthed(conn, uid, ctype, now);
          Offer(Item(PingCheck, connId, now + cfg.pingInterval));
        }
      }
    }

    /** Takes a closed connection out of its user's wrap. */
    method RemoveFromUser(connId: ConnId, uid: Uid, clevel: Level)
      requires Valid() && uid in uid2conn
      modifies Repr
      ensures Valid() && Repr == old(Repr)
      ensures var w := LeaveWrap(old(reg.wraps)[uid], connId, clevel);
              reg == old(reg).(wraps := if w.conns == [] then old(reg.wraps) - {uid} else old(reg.wraps)[uid := w])
    {
      var wrap := uid2conn[uid];
      assert WrapShown(uid);
      ghost var w := LeaveWrap(reg.wraps[uid], connId, clevel);
      wrap.Remove(connId, clevel, reg.wraps[uid]);
      assert |wrap.conns| == |Ids(wrap.conns)| == |w.conns|;
      if |wrap.conns| == 0 {
        uid2conn := uid2conn - {uid};
        reg := reg.(wraps := reg.wraps - {uid});
      } else {
        reg := reg.(wraps := reg.wraps[uid := w]);
      }
      WrapWritten(uid);
    }

    method CleanAfterConnClosed(connId: ConnId)
      requires Valid()
      modifies Repr
      ensures Valid() && Repr == old(Repr)
      ensures reg == Clean(old(reg), connId)
    {
      if connId !in connId2conn {
        return;
      }
      var conn := connId2conn[connId];
      assert ConnShown(connId);
      connId2conn := connId2conn - {connId};
      reg := reg.(conns := reg.conns - {connId});
      forall id | id in connId2conn ensures ConnShown(id) {
        assert old(ConnShown(id));
      }
      forall u | u in uid2conn ensures WrapShown(u) {
        assert old(WrapShown(u));
      }
      if conn.uid != "" && conn.uid in uid2conn {
        RemoveFromUser(connId, conn.uid, conn.clevel);
      }
    }

    method ModifyAfterPingSuccess(connId: ConnId, now: Time)
      requires Valid()
      modifies Repr
      ensures Valid() && Repr == old(Repr)
      ensures reg == Ping(old(reg), connId, now)
    {
      reg := Ping(reg, connId, now);
      if connId in connId2conn {
        assert old(ConnShown(connId));
        connId2conn[connId].lastPingTime := Some(now);
      }
      ConnWritten(connId);
    }

    method ExecAuthExpireCheckTask(connId: ConnId)
      requires Valid()
      modifies Repr
      ensures Valid() && Repr == old(Repr)
      ensures reg == ExecAuthCheck(old(reg), connId)
    {
      if connId !in connId2conn {
        return;
      }
      var conn := connId2conn[connId];
      assert ConnShown(connId);
      if conn.state == Opened {
        conn.state := Closing;
        conn.state := Closed;
        connId2conn := connId2conn - {connId};
        reg := ExecAuthCheck(reg, connId);
        forall id | id in connId2conn ensures ConnShown(id) {
          assert old(ConnShown(id));
        }
        forall u | u in uid2conn ensures WrapShown(u) {
          assert old(WrapShown(u));
        }
      }
    }

    method ExecPingExpireCheckTask(connId: ConnId, now: Time)
      requires Valid()
      modifies Repr
      ensures Valid() && Repr == old(Repr)
      ensures reg == ExecPingCheck(cfg, old(reg), connId, now)
    {
      if connId !in connId2conn {
        return;
      }
      var conn := connId2conn[connId];
      assert ConnShown(connId);
      if conn.lastPingTime.Some? {
        reg := ExecPingCheck(cfg, reg, connId, now);
        if OverThreshold(cfg, conn.lastPingTime.value, now) {
          if conn.state == Authed {
            conn.state := Closing;
            conn.state := Closed;
          }
        } else {
          dq := dq + [Item(PingCheck, connId, now + cfg.pingInterval)];
        }
        ConnWritten(connId);
      }
    }

    /** The taker's turn: the queue hands out its i-th check, which is due, and the
        taker runs it. */
    method TakeAndRun(i: nat, now: Time)
      requires Valid() && i < |dq| && dq[i].expire <= now
      modifies Repr
      ensures Valid() && Repr == old(Repr)
      ensures reg == Fire(cfg, old(reg), i, now)
    {
      var item := dq[i];
      dq := dq[..i] + dq[i + 1..];
      reg := Take(reg, i);
      ConnWritten(item.connId);
      if item.kind == AuthCheck {
        ExecAuthExpireCheckTask(item.connId);
      } else {
        ExecPingExpireCheckTask(item.connId, now);
      }
    }

    method GetUserConns(uid: Uid) returns (conns: seq<ClientConn>)
      requires Valid()
      ensures Ids(conns) == if uid in reg.wraps then reg.wraps[uid].conns else []
      ensures forall c :: c in conns && c.connId in connId2conn ==> connId2conn[c.connId] == c
    {
      conns := [];
      if uid in uid2conn {
        assert WrapShown(uid);
        conns := uid2conn[uid].conns;
      }
    }

    /** The connections of every user in uids who has any. */
    method GetUsersConns(uids: seq<Uid>) returns (m: map<Uid, seq<ClientConn>>)
      requires Valid()
      ensures forall u :: u in m <==> u in uids && u in reg.wraps && reg.wraps[u].conns != []
      ensures forall u :: u in m ==> u in reg.wraps && Ids(m[u]) == reg.wraps[u].conns
    {
      m := map[];
      for i := 0 to |uids|
        invariant forall u :: u in m <==> u in uids[..i] && u in reg.wraps && reg.wraps[u].conns != []
        invariant forall u :: u in m ==> u in reg.wraps && Ids(m[u]) == reg.wraps[u].conns
      {
        var conns := GetUserConns(uids[i]);
        assert |conns| == |Ids(conns)|;
        if |conns| > 0 {
          m := m[uids[i] := conns];
        }
        assert uids[..i + 1] == uids[..i] + [uids[i]];
      }
      assert uids[..|uids|] == uids;
    }
  }

  /** Authentication's lock section, before the ping check is queued. */
  ghost function AuthLocked(cfg: Config, r: Registry, id: ConnId, uid: Uid, ctype: nat, now: Time)
    : (Registry, seq<HandleItem>)
  {
    var (w, items) := JoinUser(cfg, r, id, uid, LevelOf(cfg, ctype));
    (Registry(r.conns[id := Conn(uid, LevelOf(cfg, ctype), Authed, Some(now))], r.wraps[uid := w], r.queue), items)
  }

  lemma AuthIsLockedThenQueued(cfg: Config, r: Registry, id: ConnId, uid: Uid, ctype: nat, now: Time)
    requires CanAuth(r, id)
    ensures var locked := AuthLocked(cfg, r, id, uid, ctype, now);
            var queue := r.queue + [Item(PingCheck, id, now + cfg.pingInterval)];
            Auth(cfg, r, id, uid, ctype, now) == (locked.0.(queue := queue), locked.1)
  {
  }

  predicate ListedBy(w: Wrap, id: ConnId) {
    id in w.conns || id in w.master || id in w.slave
  }

  /** An id the registry holds nowhere. */
  ghost predicate FreshIn(r: Registry, id: ConnId) {
    id !in r.conns && forall u :: u in r.wraps ==> !ListedBy(r.wraps[u], id)
  }

  /** A user's wrap lists registered connections only. */
  lemma WrapIdsRegistered(cfg: Config, t: Tracked, u: Uid)
    requires Inv(cfg, t) && u in t.reg.wraps
    ensures forall id :: ListedBy(t.reg.wraps[u], id) ==> id in t.reg.conns
  {
    assert UserOk(cfg, t, u);
    FilterElements(t.log, Alive(t, u));
    FilterElements(t.log, Alive(t, u) * AtLevel(t, Slave));
  }

  /** Along every run, an id never used before is held nowhere: what opening asks. */
  lemma {:induction false} UnusedIdsAreFresh(cfg: Config, acts: seq<Action>, id: ConnId)
    requires cfg.maxSlaveConns >= 1
    ensures var t := Run(cfg, START, acts); id !in t.used ==> FreshIn(t.reg, id)
  {
    RunKeeps(cfg, acts);
    var t := Run(cfg, START, acts);
    forall u | u in t.reg.wraps && id !in t.used ensures !ListedBy(t.reg.wraps[u], id) {
      WrapIdsRegistered(cfg, t, u);
    }
  }
}
