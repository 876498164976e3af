/** Runs of the registry with the history its promises speak of: the order of
    authentications, who was evicted, and which ids were ever used. */
module RegistryRuns {
  import opened Basics
  import opened ConnRegistry

  /** The registry and its history. */
  datatype Tracked = Tracked(reg: Registry, log: seq<ConnId>, evicted: set<ConnId>, used: set<ConnId>)

  datatype Action =
    | Opens(id: ConnId, now: Time)
    | Authenticates(id: ConnId, uid: Uid, ctype: nat, now: Time)
    | Closes(id: ConnId)
    | Pings(id: ConnId, now: Time)
    | Fires(i: nat, now: Time)

  const START := Tracked(Registry(map[], map[], []), [], {}, {})

  predicate Enabled(t: Tracked, a: Action) {
    match a
    case Opens(id, _) => id !in t.used                       // connection ids are fresh
    case Authenticates(_, uid, _, _) => uid != ""
    case Closes(_) => true
    case Pings(_, _) => true
    case Fires(i, now) => i < |t.reg.queue| && t.reg.queue[i].expire <= now
  }

  function Step(cfg: Config, t: Tracked, a: Action): Tracked
    requires Enabled(t, a)
  {
    match a
    case Opens(id, now) => t.(reg := Open(cfg, t.reg, id, now), used := t.used + {id})
    case Authenticates(id, uid, ctype, now) =>
      if !CanAuth(t.reg, id) then t
      else
        var (reg, items) := Auth(cfg, t.reg, id, uid, ctype, now);
        t.(reg := reg, log := t.log + [id], evicted := t.evicted + set i | i in items :: i.connId)
    case Closes(id) => t.(reg := Clean(t.reg, id))
    case Pings(id, now) => t.(reg := Ping(t.reg, id, now))
    case Fires(i, now) => t.(reg := Fire(cfg, t.reg, i, now))
  }

  function Do(cfg: Config, t: Tracked, a: Action): Tracked {
    if Enabled(t, a) then Step(cfg, t, a) else t
  }

  function Run(cfg: Config, t: Tracked, acts: seq<Action>): Tracked {
    if acts == [] then t else Do(cfg, Run(cfg, t, acts[..|acts| - 1]), acts[|acts| - 1])
  }

  // ---- what history says the wraps should be --------------------------------

  /** The connections of user u that are registered and were not evicted. */
  function Alive(t: Tracked, u: Uid): set<ConnId> {
    set id | id in t.reg.conns && u != "" && t.reg.conns[id].uid == u && id !in t.evicted
  }

  function AtLevel(t: Tracked, level: Level): set<ConnId> {
    set id | id in t.reg.conns && t.reg.conns[id].level == level
  }

  /** The surviving connections of u, earliest authentication first. */
  function Survivors(t: Tracked, u: Uid): seq<ConnId> {
    Filter(t.log, Alive(t, u))
  }

  function SurvivorsAt(t: Tracked, u: Uid, level: Level): seq<ConnId> {
    Filter(t.log, Alive(t, u) * AtLevel(t, level))
  }

  ghost predicate HistoryOk(t: Tracked) {
    && NoDup(t.log)
    && (forall id :: id in t.log ==> id in t.used)
    && (forall id :: id in t.reg.conns ==> id in t.used)
    && (forall id :: id in t.evicted ==> id in t.log)
  }

  ghost predicate ConnOk(t: Tracked, id: ConnId)
    requires id in t.reg.conns
  {
    var c := t.reg.conns[id];
    && c.state != Closing
    && (c.state == Opened <==> c.uid == "") && (c.state == Opened <==> id !in t.log)
    && (c.state != Opened ==> c.lastPing.Some?)
  }

  /** What a wrap must be, given its user's surviving connections. */
  ghost predicate WrapOk(cfg: Config, log: seq<ConnId>, w: Wrap, alive: set<ConnId>,
                         masters: set<ConnId>, slaves: set<ConnId>) {
    && w.conns == Filter(log, alive)
    && w.slave == Filter(log, alive * slaves)
    && |w.slave| <= cfg.maxSlaveConns
    && |w.master| <= 1
    && forall m :: m in w.master ==> m in alive && m in masters
  }

  ghost predicate UserOk(cfg: Config, t: Tracked, u: Uid) {
    && (u in t.reg.wraps <==> Alive(t, u) != {})
    && (u in t.reg.wraps ==>
          WrapOk(cfg, t.log, t.reg.wraps[u], Alive(t, u), AtLevel(t, Master), AtLevel(t, Slave)))
  }

  ghost predicate Inv(cfg: Config, t: Tracked) {
    && HistoryOk(t)
    && (forall id :: id in t.reg.conns ==> ConnOk(t, id))
    && (forall u :: UserOk(cfg, t, u))
  }

  lemma AliveLogged(t: Tracked, u: Uid)
    requires forall id :: id in t.reg.conns ==> ConnOk(t, id)
    ensures forall id :: id in Alive(t, u) ==> id in t.log
  {
    forall id | id in Alive(t, u) ensures id in t.log {
      assert ConnOk(t, id);
    }
  }

  /** A user whose survivors and levels did not change keeps its wrap. */
  lemma UserUntouched(cfg: Config, t: Tracked, t': Tracked, u: Uid)
    requires UserOk(cfg, t, u) && Alive(t', u) == Alive(t, u)
    requires u in t.reg.wraps <==> u in t'.reg.wraps
    requires u in t.reg.wraps ==> t'.reg.wraps[u] == t.reg.wraps[u]
    requires Filter(t'.log, Alive(t, u)) == Filter(t.log, Alive(t, u))
    requires Filter(t'.log, Alive(t', u) * AtLevel(t', Slave)) == Filter(t.log, Alive(t, u) * AtLevel(t, Slave))
    requires Alive(t, u) * AtLevel(t', Master) == Alive(t, u) * AtLevel(t, Master)
    ensures UserOk(cfg, t', u)
  {
    if u in t.reg.wraps {
      forall m | m in t'.reg.wraps[u].master ensures m in Alive(t', u) && m in AtLevel(t', Master) {
        assert m in Alive(t, u) && m in AtLevel(t, Master);
        assert m in Alive(t, u) * AtLevel(t, Master);
      }
    }
  }

  /** A user with the same log, wrap and connections, up to state and ping time. */
  lemma UserSameWrap(cfg: Config, t: Tracked, t': Tracked, u: Uid)
    requires UserOk(cfg, t, u) && t'.log == t.log
    requires u in t.reg.wraps <==> u in t'.reg.wraps
    requires u in t.reg.wraps ==> t'.reg.wraps[u] == t.reg.wraps[u]
    requires Alive(t', u) == Alive(t, u)
    requires forall id :: id in Alive(t, u) ==> id in t'.reg.conns && t'.reg.conns[id].level == t.reg.conns[id].level
    ensures UserOk(cfg, t', u)
  {
    assert Alive(t', u) * AtLevel(t', Slave) == Alive(t, u) * AtLevel(t, Slave);
    assert Alive(t, u) * AtLevel(t', Master) == Alive(t, u) * AtLevel(t, Master);
    UserUntouched(cfg, t, t', u);
  }

  lemma OpenKeeps(cfg: Config, t: Tracked, id: ConnId, now: Time)
    requires Inv(cfg, t) && id !in t.used
    ensures Inv(cfg, Step(cfg, t, Opens(id, now)))
  {
    var t' := Step(cfg, t, Opens(id, now));
    forall n | n in t'.reg.conns ensures ConnOk(t', n) {
      if n != id { assert ConnOk(t, n); }
    }
    forall u ensures UserOk(cfg, t', u) {
      assert UserOk(cfg, t, u);
      assert Alive(t', u) == Alive(t, u);
      UserSameWrap(cfg, t, t', u);
    }
  }

  /** Steps that leave every wrap, level and binding alone. */
  lemma QuietKeeps(cfg: Config, t: Tracked, t': Tracked)
    requires Inv(cfg, t)
    requires t'.log == t.log && t'.evicted == t.evicted && t'.used == t.used && t'.reg.wraps == t.reg.wraps
    requires forall id :: id in t'.reg.conns ==>
               && id in t.reg.conns && ConnOk(t', id)
               && t'.reg.conns[id].uid == t.reg.conns[id].uid && t'.reg.conns[id].level == t.reg.conns[id].level
    requires forall id :: id in t.reg.conns && id !in t'.reg.conns ==> t.reg.conns[id].uid == ""
    ensures Inv(cfg, t')
  {
    forall u ensures UserOk(cfg, t', u) {
      assert UserOk(cfg, t, u);
      assert Alive(t', u) == Alive(t, u);
      UserSameWrap(cfg, t, t', u);
    }
  }

  /** Levels before and after id joins: id lies on one side, nobody else moves. */
  ghost predicate LevelsExtend(alive: set<ConnId>, masters: set<ConnId>, slaves: set<ConnId>,
                               masters': set<ConnId>, slaves': set<ConnId>, id: ConnId, level: Level) {
    && masters' !! slaves' && masters !! slaves
    && (if level == Master then id in masters' else id in slaves')
    && (forall x :: x in alive ==> (x in slaves' <==> x in slaves) && (x in masters' <==> x in masters))
  }

  lemma JoinMasterOk(cfg: Config, log: seq<ConnId>, w: Wrap, alive: set<ConnId>,
                     masters: set<ConnId>, slaves: set<ConnId>, masters': set<ConnId>, slaves': set<ConnId>, id: ConnId)
    requires NoDup(log) && id !in log && (forall x :: x in alive ==> x in log)
    requires WrapOk(cfg, log, w, alive, masters, slaves)
    requires LevelsExtend(alive, masters, slaves, masters', slaves', id, Master)
    ensures var (w', items) := Join(cfg, w, id, Master);
            && WrapOk(cfg, log + [id], w', alive + {id} - ItemIds(items), masters', slaves')
            && items == (if w.master == [] then [] else [HandleItem(w.master[0], false)])
            && ItemIds(items) <= alive
  {
    var (w', items) := Join(cfg, w, id, Master);
    var log', gone := log + [id], ItemIds(items);
    var alive' := alive + {id} - gone;
    FilterSnoc(log, id, alive + {id});
    FilterSameOn(log, alive + {id}, alive);
    if w.master != [] {
      var prev := w.master[0];
      assert items == [HandleItem(prev, false)] && gone == {prev};
      assert prev in w.master;
      assert NoDup(log');
      RemoveFirstFilter(log', alive + {id}, prev);
    } else {
      assert alive' == alive + {id};
    }
    FilterSnoc(log, id, alive' * slaves');
    FilterSameOn(log, alive' * slaves', alive * slaves);
  }

  lemma JoinSlaveOk(cfg: Config, log: seq<ConnId>, w: Wrap, alive: set<ConnId>,
                    masters: set<ConnId>, slaves: set<ConnId>,
                    masters': set<ConnId>, slaves': set<ConnId>, id: ConnId)
    requires cfg.maxSlaveConns >= 1
    requires NoDup(log) && id !in log && (forall x :: x in alive ==> x in log)
    requires WrapOk(cfg, log, w, alive, masters, slaves)
    requires LevelsExtend(alive, masters, slaves, masters', slaves', id, Slave)
    ensures var (w', items) := Join(cfg, w, id, Slave);
            && WrapOk(cfg, log + [id], w', alive + {id} - ItemIds(items), masters', slaves')
            && items == (if |w.slave| < cfg.maxSlaveConns then [] else [HandleItem(w.slave[0], true)])
            && ItemIds(items) <= alive
  {
    var (w', items) := Join(cfg, w, id, Slave);
    var log', gone := log + [id], ItemIds(items);
    var all := alive + {id};
    assert NoDup(log');
    FilterSnoc(log, id, all);
    FilterSameOn(log, all, alive);
    FilterSnoc(log, id, all * slaves');
    FilterSameOn(log, all * slaves', alive * slaves);
    var slave := w.slave + [id];
    assert slave == Filter(log', all * slaves');
    if |slave| > cfg.maxSlaveConns {
      var first := slave[0];
      assert items == [HandleItem(first, true)] && gone == {first};
      assert first == w.slave[0] && first in w.slave;
      FilterElements(log, alive * slaves);
      RemoveFirstFilter(log', all, first);
      RemoveFirstFilter(log', all * slaves', first);
      assert RemoveFirst(slave, first) == slave[1..];
      assert all * slaves' - {first} == (all - gone) * slaves';
    } else {
      assert all - gone == all;
    }
  }

  lemma NewWrapOk(cfg: Config, log: seq<ConnId>, masters: set<ConnId>, slaves: set<ConnId>, id: ConnId, level: Level)
    requires cfg.maxSlaveConns >= 1 && masters !! slaves
    requires id !in log && (if level == Master then id in masters else id in slaves)
    ensures WrapOk(cfg, log + [id], NewWrap(id, level), {id}, masters, slaves)
  {
    FilterSnoc(log, id, {id});
    FilterSnoc(log, id, {id} * slaves);
    FilterNone(log, {id});
    FilterNone(log, {id} * slaves);
  }

  /** The wrap a user has once id has joined, given the levels after. */
  lemma JoinUserOk(cfg: Config, t: Tracked, id: ConnId, uid: Uid, level: Level,
                   masters: set<ConnId>, slaves: set<ConnId>)
    requires NoDup(t.log) && UserOk(cfg, t, uid) && cfg.maxSlaveConns >= 1 && id !in t.log
    requires forall x :: x in Alive(t, uid) ==> x in t.log
    requires LevelsExtend(Alive(t, uid), AtLevel(t, Master), AtLevel(t, Slave), masters, slaves, id, level)
    ensures var (wrap, items) := JoinUser(cfg, t.reg, id, uid, level);
            && WrapOk(cfg, t.log + [id], wrap, Alive(t, uid) + {id} - ItemIds(items), masters, slaves)
            && ItemIds(items) <= Alive(t, uid)
  {
    if uid !in t.reg.wraps {
      NewWrapOk(cfg, t.log, masters, slaves, id, level);
      var (_, items) := JoinUser(cfg, t.reg, id, uid, level);
      assert items == [] && ItemIds(items) == {};
      assert Alive(t, uid) + {id} - ItemIds(items) == {id};
    } else if level == Master {
      JoinMasterOk(cfg, t.log, t.reg.wraps[uid], Alive(t, uid), AtLevel(t, Master), AtLevel(t, Slave),
                   masters, slaves, id);
    } else {
      JoinSlaveOk(cfg, t.log, t.reg.wraps[uid], Alive(t, uid), AtLevel(t, Master), AtLevel(t, Slave),
                  masters, slaves, id);
    }
  }

  /** Who survives an authentication: one user gains id and loses what was evicted. */
  lemma AuthSurvivors(cfg: Config, t: Tracked, t': Tracked, id: ConnId, uid: Uid, gone: set<ConnId>)
    requires uid != "" && id in t.reg.conns && t.reg.conns[id].uid == ""
    requires id in t'.reg.conns && t'.reg.conns[id].uid == uid
    requires t'.reg.conns.Keys == t.reg.conns.Keys && t'.evicted == t.evicted + gone && id !in t.evicted
    requires forall n :: n in t.reg.conns && n != id ==> t'.reg.conns[n] == t.reg.conns[n]
    requires gone <= Alive(t, uid)
    ensures Alive(t', uid) == Alive(t, uid) + {id} - gone && id !in Alive(t, uid)
    ensures forall v :: v != uid ==> Alive(t', v) == Alive(t, v)
  {
    forall v | v != uid ensures Alive(t', v) == Alive(t, v) {
      forall n | n in gone ensures n !in Alive(t, v) {
        assert n in Alive(t, uid);
      }
    }
  }

  /** The tables and the history after an authentication. */
  lemma AuthTables(cfg: Config, t: Tracked, id: ConnId, uid: Uid, ctype: nat, now: Time)
    requires uid != "" && CanAuth(t.reg, id)
    ensures var t' := Step(cfg, t, Authenticates(id, uid, ctype, now));
            var (w, items) := JoinUser(cfg, t.reg, id, uid, LevelOf(cfg, ctype));
            && t'.reg.wraps == t.reg.wraps[uid := w] && t'.log == t.log + [id]
            && t'.reg.conns == t.reg.conns[id := Conn(uid, LevelOf(cfg, ctype), Authed, Some(now))]
            && t'.evicted == t.evicted + ItemIds(items)
            && Auth(cfg, t.reg, id, uid, ctype, now).1 == items
  {
  }

  /** Authenticating touches the survivors of one user only. */
  lemma AuthAlive(cfg: Config, t: Tracked, id: ConnId, uid: Uid, ctype: nat, now: Time)
    requires Inv(cfg, t) && cfg.maxSlaveConns >= 1 && uid != "" && CanAuth(t.reg, id)
    ensures var (wrap, items) := JoinUser(cfg, t.reg, id, uid, LevelOf(cfg, ctype));
            var t' := Step(cfg, t, Authenticates(id, uid, ctype, now));
            && Alive(t', uid) == Alive(t, uid) + {id} - ItemIds(items)
            && ItemIds(items) <= Alive(t, uid)
            && WrapOk(cfg, t'.log, wrap, Alive(t', uid), AtLevel(t', Master), AtLevel(t', Slave))
            && (forall v :: v != uid ==> Alive(t', v) == Alive(t, v))
            && id !in Alive(t, uid) && id !in t.log
  {
    AuthTables(cfg, t, id, uid, ctype, now);
    AuthAliveIn(cfg, t, Step(cfg, t, Authenticates(id, uid, ctype, now)), id, uid, LevelOf(cfg, ctype), now);
  }

  lemma AuthAliveIn(cfg: Config, t: Tracked, t': Tracked, id: ConnId, uid: Uid, level: Level, now: Time)
    requires Inv(cfg, t) && cfg.maxSlaveConns >= 1 && uid != "" && CanAuth(t.reg, id)
    requires t'.log == t.log + [id]
    requires t'.reg.conns == t.reg.conns[id := Conn(uid, level, Authed, Some(now))]
    requires t'.evicted == t.evicted + ItemIds(JoinUser(cfg, t.reg, id, uid, level).1)
    ensures var (wrap, items) := JoinUser(cfg, t.reg, id, uid, level);
            && Alive(t', uid) == Alive(t, uid) + {id} - ItemIds(items)
            && ItemIds(items) <= Alive(t, uid)
            && WrapOk(cfg, t'.log, wrap, Alive(t', uid), AtLevel(t', Master), AtLevel(t', Slave))
            && (forall v :: v != uid ==> Alive(t', v) == Alive(t, v))
            && id !in Alive(t, uid) && id !in t.log
  {
    assert ConnOk(t, id) && UserOk(cfg, t, uid);
    AliveLogged(t, uid);
    LevelsAfter(t, t', id, uid, level, now);
    JoinUserOk(cfg, t, id, uid, level, AtLevel(t', Master), AtLevel(t', Slave));
    AuthSurvivors(cfg, t, t', id, uid, ItemIds(JoinUser(cfg, t.reg, id, uid, level).1));
  }

  lemma LevelsAfter(t: Tracked, t': Tracked, id: ConnId, uid: Uid, level: Level, now: Time)
    requires uid != "" && id in t.reg.conns && t.reg.conns[id].uid == ""
    requires t'.reg.conns == t.reg.conns[id := Conn(uid, level, Authed, Some(now))]
    ensures LevelsExtend(Alive(t, uid), AtLevel(t, Master), AtLevel(t, Slave),
                         AtLevel(t', Master), AtLevel(t', Slave), id, level)
  {
  }

  lemma AuthLevels(cfg: Config, t: Tracked, id: ConnId, uid: Uid, ctype: nat, now: Time, ids: set<ConnId>)
    requires uid != "" && CanAuth(t.reg, id) && id !in ids
    ensures var t' := Step(cfg, t, Authenticates(id, uid, ctype, now));
            forall level :: ids * AtLevel(t', level) == ids * AtLevel(t, level)
  {
    AuthTables(cfg, t, id, uid, ctype, now);
  }

  lemma AuthOthers(cfg: Config, t: Tracked, id: ConnId, uid: Uid, ctype: nat, now: Time, u: Uid)
    requires Inv(cfg, t) && cfg.maxSlaveConns >= 1 && uid != "" && CanAuth(t.reg, id) && u != uid
    ensures UserOk(cfg, Step(cfg, t, Authenticates(id, uid, ctype, now)), u)
  {
    var t' := Step(cfg, t, Authenticates(id, uid, ctype, now));
    AuthAlive(cfg, t, id, uid, ctype, now);
    assert UserOk(cfg, t, u) && ConnOk(t, id);
    AliveLogged(t, u);
    FilterSnoc(t.log, id, Alive(t, u));
    FilterSnoc(t.log, id, Alive(t, u) * AtLevel(t', Slave));
    AuthLevels(cfg, t, id, uid, ctype, now, Alive(t, u));
    UserUntouched(cfg, t, t', u);
  }

  lemma AuthHistory(cfg: Config, t: Tracked, t': Tracked, id: ConnId, uid: Uid)
    requires Inv(cfg, t) && id in t.reg.conns && id !in t.log && uid != ""
    requires t'.log == t.log + [id] && t'.used == t.used && t'.evicted <= t.evicted + Alive(t, uid)
    requires t'.reg.conns.Keys == t.reg.conns.Keys
    requires t'.reg.conns[id].state == Authed && t'.reg.conns[id].uid == uid && t'.reg.conns[id].lastPing.Some?
    requires forall n :: n in t.reg.conns && n != id ==> t'.reg.conns[n] == t.reg.conns[n]
    ensures HistoryOk(t') && forall n :: n in t'.reg.conns ==> ConnOk(t', n)
  {
    AliveLogged(t, uid);
    forall n | n in t'.reg.conns ensures ConnOk(t', n) {
      assert n != id ==> ConnOk(t, n);
    }
  }

  lemma AuthSameUser(cfg: Config, t: Tracked, id: ConnId, uid: Uid, ctype: nat, now: Time)
    requires Inv(cfg, t) && cfg.maxSlaveConns >= 1 && uid != "" && CanAuth(t.reg, id)
    ensures UserOk(cfg, Step(cfg, t, Authenticates(id, uid, ctype, now)), uid)
  {
    AuthAlive(cfg, t, id, uid, ctype, now);
    assert id in Alive(Step(cfg, t, Authenticates(id, uid, ctype, now)), uid);
  }

  /** Only connections that were alive are evicted. */
  lemma AuthEvictsAlive(cfg: Config, t: Tracked, id: ConnId, uid: Uid, level: Level)
    requires Inv(cfg, t) && cfg.maxSlaveConns >= 1 && uid in t.reg.wraps
    ensures ItemIds(Join(cfg, t.reg.wraps[uid], id, level).1) <= Alive(t, uid)
  {
    var w := t.reg.wraps[uid];
    assert UserOk(cfg, t, uid);
    FilterElements(t.log, Alive(t, uid) * AtLevel(t, Slave));
    assert w.slave != [] ==> w.slave[0] in w.slave && (w.slave + [id])[0] == w.slave[0];
    assert w.master != [] ==> w.master[0] in w.master;
  }

  lemma AuthBooks(cfg: Config, t: Tracked, id: ConnId, uid: Uid, ctype: nat, now: Time)
    requires Inv(cfg, t) && cfg.maxSlaveConns >= 1 && uid != "" && CanAuth(t.reg, id)
    ensures var t' := Step(cfg, t, Authenticates(id, uid, ctype, now));
            HistoryOk(t') && forall n :: n in t'.reg.conns ==> ConnOk(t', n)
  {
    assert ConnOk(t, id);
    if uid in t.reg.wraps {
      AuthEvictsAlive(cfg, t, id, uid, LevelOf(cfg, ctype));
    }
    AuthHistory(cfg, t, Step(cfg, t, Authenticates(id, uid, ctype, now)), id, uid);
  }

  lemma AuthKeeps(cfg: Config, t: Tracked, id: ConnId, uid: Uid, ctype: nat, now: Time)
    requires Inv(cfg, t) && cfg.maxSlaveConns >= 1 && uid != ""
    ensures Inv(cfg, Step(cfg, t, Authenticates(id, uid, ctype, now)))
  {
    if CanAuth(t.reg, id) {
      AuthSameUser(cfg, t, id, uid, ctype, now);
      AuthBooks(cfg, t, id, uid, ctype, now);
      forall u | u != uid ensures UserOk(cfg, Step(cfg, t, Authenticates(id, uid, ctype, now)), u) {
        AuthOthers(cfg, t, id, uid, ctype, now, u);
      }
    }
  }

  /** Leaving a wrap takes the connection out of both lists. */
  lemma LeaveOk(cfg: Config, log: seq<ConnId>, w: Wrap, alive: set<ConnId>, masters: set<ConnId>, slaves: set<ConnId>,
                masters': set<ConnId>, slaves': set<ConnId>, id: ConnId, level: Level)
    requires NoDup(log) && WrapOk(cfg, log, w, alive, masters, slaves)
    requires masters !! slaves && masters' == masters - {id} && slaves' == slaves - {id}
    requires if level == Master then id in masters else id in slaves
    ensures WrapOk(cfg, log, LeaveWrap(w, id, level), alive - {id}, masters', slaves')
  {
    RemoveFirstFilter(log, alive, id);
    RemoveFirstFilter(log, alive * slaves, id);
    assert (alive - {id}) * slaves' == alive * slaves - {id};
    if level == Master {
      FilterSameOn(log, alive * slaves - {id}, alive * slaves);
    } else {
      RemoveFirstShorter(w.slave, id);
    }
  }

  lemma RemoveFirstShorter<T>(s: seq<T>, x: T)
    ensures |RemoveFirst(s, x)| <= |s|
  {
  }

  lemma CleanAlive(cfg: Config, t: Tracked, id: ConnId)
    requires Inv(cfg, t) && id in t.reg.conns
    ensures var t' := Step(cfg, t, Closes(id));
            && (forall v :: Alive(t', v) == Alive(t, v) - {id})
            && (forall v :: v != t.reg.conns[id].uid ==> id !in Alive(t, v))
            && AtLevel(t', Master) == AtLevel(t, Master) - {id} && AtLevel(t', Slave) == AtLevel(t, Slave) - {id}
  {
  }

  lemma CleanKeeps(cfg: Config, t: Tracked, id: ConnId)
    requires Inv(cfg, t)
    ensures Inv(cfg, Step(cfg, t, Closes(id)))
  {
    var t' := Step(cfg, t, Closes(id));
    if id in t.reg.conns {
      var c := t.reg.conns[id];
      CleanAlive(cfg, t, id);
      forall n | n in t'.reg.conns ensures ConnOk(t', n) {
        assert ConnOk(t, n);
      }
      forall u ensures UserOk(cfg, t', u) {
        assert UserOk(cfg, t, u);
        if u == c.uid && u in t.reg.wraps {
          LeaveOk(cfg, t.log, t.reg.wraps[u], Alive(t, u), AtLevel(t, Master), AtLevel(t, Slave),
                  AtLevel(t', Master), AtLevel(t', Slave), id, c.level);
          AliveLogged(t', u);
          FilterElements(t.log, Alive(t', u));
          var left := Filter(t.log, Alive(t', u));
          assert left != [] ==> left[0] in left;
        } else {
          assert Alive(t', u) == Alive(t, u);
          UserSameWrap(cfg, t, t', u);
        }
      }
    }
  }

  lemma FireKeeps(cfg: Config, t: Tracked, i: nat, now: Time)
    requires Inv(cfg, t) && i < |t.reg.queue|
    ensures Inv(cfg, t.(reg := Fire(cfg, t.reg, i, now)))
  {
    var t' := t.(reg := Fire(cfg, t.reg, i, now));
    forall n | n in t'.reg.conns ensures ConnOk(t', n) {
      assert ConnOk(t, n);
    }
    forall n | n in t.reg.conns && n !in t'.reg.conns ensures t.reg.conns[n].uid == "" {
      assert ConnOk(t, n);
    }
    QuietKeeps(cfg, t, t');
  }

  lemma PingKeeps(cfg: Config, t: Tracked, id: ConnId, now: Time)
    requires Inv(cfg, t)
    ensures Inv(cfg, t.(reg := Ping(t.reg, id, now)))
  {
    var t' := t.(reg := Ping(t.reg, id, now));
    forall n | n in t'.reg.conns ensures ConnOk(t', n) {
      assert ConnOk(t, n);
    }
    QuietKeeps(cfg, t, t');
  }

  lemma StepKeeps(cfg: Config, t: Tracked, a: Action)
    requires Inv(cfg, t) && cfg.maxSlaveConns >= 1 && Enabled(t, a)
    ensures Inv(cfg, Step(cfg, t, a))
  {
    match a
    case Opens(id, now) => OpenKeeps(cfg, t, id, now);
    case Authenticates(id, uid, ctype, now) => AuthKeeps(cfg, t, id, uid, ctype, now);
    case Closes(id) => CleanKeeps(cfg, t, id);
    case Pings(id, now) => PingKeeps(cfg, t, id, now);
    case Fires(i, now) => FireKeeps(cfg, t, i, now);
  }

  lemma {:induction false} RunKeeps(cfg: Config, acts: seq<Action>)
    requires cfg.maxSlaveConns >= 1
    ensures Inv(cfg, Run(cfg, START, acts))
  {
    if acts == [] {
      forall u ensures UserOk(cfg, START, u) {
        assert Alive(START, u) == {};
      }
    } else {
      RunKeeps(cfg, acts[..|acts| - 1]);
      var before, a := Run(cfg, START, acts[..|acts| - 1]), acts[|acts| - 1];
      if Enabled(before, a) {
        StepKeeps(cfg, before, a);
      }
    }
  }
}
