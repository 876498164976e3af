/** The registry's promises over every run of opens, authentications, closes, pings
    and delay-queue checks, with a limit of at least one slave. */
module RegistryTheorems {
  import opened Basics
  import opened Traces
  import opened ConnRegistry
  import opened RegistryRuns

  // ---- the indexes -----------------------------------------------------------

  /** A user has a wrap exactly while it has a registered connection that was not
      evicted. The wrap's conns are exactly those, once each, in authentication
      order, all of them in the connection table under that user; its slave list is
      the slaves among them in the same order, within the limit; its master slot
      holds at most one connection, a master among them. */
  lemma {:induction false} IndexesAgree(cfg: Config, acts: seq<Action>, u: Uid)
    requires cfg.maxSlaveConns >= 1
    ensures var t := Run(cfg, START, acts);
            && (u in t.reg.wraps <==>
                  exists id :: id in t.reg.conns && u != "" && t.reg.conns[id].uid == u && id !in t.evicted)
            && (u in t.reg.wraps ==>
                  var w := t.reg.wraps[u];
                  && w.conns == Survivors(t, u) && w.conns != [] && NoDup(w.conns)
                  && (forall id :: id in w.conns ==> id in t.reg.conns && t.reg.conns[id].uid == u)
                  && w.slave == Filter(w.conns, AtLevel(t, Slave)) && |w.slave| <= cfg.maxSlaveConns
                  && |w.master| <= 1
                  && (forall m :: m in w.master ==> m in w.conns && t.reg.conns[m].level == Master))
  {
    RunKeeps(cfg, acts);
    var t := Run(cfg, START, acts);
    assert UserOk(cfg, t, u);
    AliveLogged(t, u);
    FilterElements(t.log, Alive(t, u));
    FilterNoDup(t.log, Alive(t, u));
    FilterTwice(t.log, Alive(t, u), AtLevel(t, Slave));
    if u in t.reg.wraps {
      var id :| id in Alive(t, u);
      assert id in t.reg.wraps[u].conns;
    }
    assert forall id :: id in Alive(t, u) <==>
             id in t.reg.conns && u != "" && t.reg.conns[id].uid == u && id !in t.evicted;
  }

  /** A connection killed by the authentication timeout, or never authenticated, is
      in no user's wrap. */
  lemma {:induction false} UnauthenticatedInNoWrap(cfg: Config, acts: seq<Action>, u: Uid, id: ConnId)
    requires cfg.maxSlaveConns >= 1
    requires var t := Run(cfg, START, acts); id !in t.log
    ensures var t := Run(cfg, START, acts); u in t.reg.wraps ==> id !in t.reg.wraps[u].conns
  {
    RunKeeps(cfg, acts);
    var t := Run(cfg, START, acts);
    assert UserOk(cfg, t, u);
    FilterElements(t.log, Alive(t, u));
  }

  // ---- slaves are a bounded queue --------------------------------------------

  /** The queue of a user without a wrap is empty. */
  function SlavesOf(r: Registry, u: Uid): seq<ConnId> {
    if u in r.wraps then r.wraps[u].slave else []
  }

  lemma JoinSlaveShape(cfg: Config, r: Registry, id: ConnId, uid: Uid)
    requires cfg.maxSlaveConns >= 1 && |SlavesOf(r, uid)| <= cfg.maxSlaveConns
    ensures var (w, items) := JoinUser(cfg, r, id, uid, Slave);
            var queue := SlavesOf(r, uid);
            if |queue| == cfg.maxSlaveConns then
              items == [HandleItem(queue[0], true)] && w.slave == queue[1..] + [id]
            else items == [] && w.slave == queue + [id]
  {
    var queue := SlavesOf(r, uid);
    if |queue| == cfg.maxSlaveConns {
      assert (queue + [id])[0] == queue[0];
      assert (queue + [id])[1..] == queue[1..] + [id];
    }
  }

  lemma SlavesAreSurvivors(cfg: Config, t: Tracked, u: Uid)
    requires Inv(cfg, t)
    ensures SlavesOf(t.reg, u) == SurvivorsAt(t, u, Slave) && |SlavesOf(t.reg, u)| <= cfg.maxSlaveConns
  {
    assert UserOk(cfg, t, u);
    if u !in t.reg.wraps {
      FilterNone(t.log, Alive(t, u) * AtLevel(t, Slave));
    }
  }

  /** Slaves behave as a first-in first-out queue of limited length with deletions:
      a slave's authentication appends it; when the queue was full the earliest
      surviving slave leaves it, leaves the user's connections, and is the one
      connection reported, silently. */
  lemma {:induction false} SlaveEvictionIsFifo(cfg: Config, acts: seq<Action>, id: ConnId, uid: Uid, ctype: nat,
                                               now: Time)
    requires cfg.maxSlaveConns >= 1 && uid != "" && ctype !in cfg.masterTypes
    requires CanAuth(Run(cfg, START, acts).reg, id)
    ensures var t := Run(cfg, START, acts);
            var t' := Step(cfg, t, Authenticates(id, uid, ctype, now));
            var items := Auth(cfg, t.reg, id, uid, ctype, now).1;
            var queue, queue' := SurvivorsAt(t, uid, Slave), SurvivorsAt(t', uid, Slave);
            && |queue| <= cfg.maxSlaveConns
            && (if |queue| == cfg.maxSlaveConns then
                  items == [HandleItem(queue[0], true)] && queue' == queue[1..] + [id]
                  && queue[0] !in Survivors(t', uid)
                else items == [] && queue' == queue + [id])
            && uid in t'.reg.wraps && t'.reg.wraps[uid].slave == queue'
  {
    RunKeeps(cfg, acts);
    var t := Run(cfg, START, acts);
    FifoStep(cfg, t, id, uid, ctype, now);
  }

  lemma FifoStep(cfg: Config, t: Tracked, id: ConnId, uid: Uid, ctype: nat, now: Time)
    requires Inv(cfg, t) && cfg.maxSlaveConns >= 1 && uid != "" && ctype !in cfg.masterTypes && CanAuth(t.reg, id)
    ensures var t' := Step(cfg, t, Authenticates(id, uid, ctype, now));
            var items := Auth(cfg, t.reg, id, uid, ctype, now).1;
            var queue, queue' := SurvivorsAt(t, uid, Slave), SurvivorsAt(t', uid, Slave);
            && |queue| <= cfg.maxSlaveConns
            && (if |queue| == cfg.maxSlaveConns then
                  items == [HandleItem(queue[0], true)] && queue' == queue[1..] + [id]
                  && queue[0] !in Survivors(t', uid)
                else items == [] && queue' == queue + [id])
            && uid in t'.reg.wraps && t'.reg.wraps[uid].slave == queue'
  {
    var t' := Step(cfg, t, Authenticates(id, uid, ctype, now));
    var (w, items) := JoinUser(cfg, t.reg, id, uid, Slave);
    var queue := SurvivorsAt(t, uid, Slave);
    SlavesAreSurvivors(cfg, t, uid);
    JoinSlaveShape(cfg, t.reg, id, uid);
    AuthTables(cfg, t, id, uid, ctype, now);
    AuthAlive(cfg, t, id, uid, ctype, now);
    assert w.slave == SurvivorsAt(t', uid, Slave);
    if |queue| == cfg.maxSlaveConns {
      assert items[0] in items;
      assert queue[0] in ItemIds(items);
      FilterElements(t'.log, Alive(t', uid));
    }
  }

  /** A close takes exactly that connection out of its user's queue. */
  lemma {:induction false} SlaveCloseDeletes(cfg: Config, acts: seq<Action>, id: ConnId, u: Uid)
    requires cfg.maxSlaveConns >= 1
    ensures var t := Run(cfg, START, acts);
            var t' := Step(cfg, t, Closes(id));
            SurvivorsAt(t', u, Slave) == RemoveFirst(SurvivorsAt(t, u, Slave), id)
  {
    RunKeeps(cfg, acts);
    var t := Run(cfg, START, acts);
    var t' := Step(cfg, t, Closes(id));
    var queue := Alive(t, u) * AtLevel(t, Slave);
    RemoveFirstFilter(t.log, queue, id);
    if id in t.reg.conns {
      CleanAlive(cfg, t, id);
      assert Alive(t', u) * AtLevel(t', Slave) == queue - {id};
    } else {
      assert queue - {id} == queue;
    }
  }

  // ---- the master slot ---------------------------------------------------------

  /** The master slot holds exactly the masters among the user's connections. */
  ghost predicate MasterSynced(t: Tracked) {
    forall u :: u in t.reg.wraps ==> t.reg.wraps[u].master == SurvivorsAt(t, u, Master)
  }

  /** The close event of an already replaced master while its user's slot is taken. */
  ghost predicate StaleMasterCloses(t: Tracked, a: Action) {
    && a.Closes? && a.id in t.reg.conns && t.reg.conns[a.id].level == Master
    && var u := t.reg.conns[a.id].uid;
       u in t.reg.wraps && a.id !in t.reg.wraps[u].conns && t.reg.wraps[u].master != []
  }

  /** Steps that keep wraps and survivors keep the slots as they are, synced or not. */
  lemma QuietSync(t: Tracked, t': Tracked)
    requires t'.log == t.log && t'.reg.wraps == t.reg.wraps
    requires forall u :: Alive(t', u) == Alive(t, u)
    requires forall u, id :: id in Alive(t, u) ==> (id in AtLevel(t', Master) <==> id in AtLevel(t, Master))
    ensures MasterSynced(t') <==> MasterSynced(t)
    ensures forall u :: SurvivorsAt(t', u, Master) == SurvivorsAt(t, u, Master)
  {
    forall u ensures SurvivorsAt(t', u, Master) == SurvivorsAt(t, u, Master) {
      assert Alive(t', u) * AtLevel(t', Master) == Alive(t, u) * AtLevel(t, Master);
    }
  }

  lemma LevelsAfterAuth(cfg: Config, t: Tracked, id: ConnId, uid: Uid, ctype: nat, now: Time)
    requires uid != "" && CanAuth(t.reg, id)
    ensures var t' := Step(cfg, t, Authenticates(id, uid, ctype, now));
            && (forall n, l :: n != id ==> (n in AtLevel(t', l) <==> n in AtLevel(t, l)))
            && (forall l :: id in AtLevel(t', l) <==> l == if ctype in cfg.masterTypes then Master else Slave)
  {
  }

  /** After a user's connection joins, its slot holds its surviving masters. */
  lemma JoinSync(cfg: Config, t: Tracked, id: ConnId, uid: Uid, ctype: nat, now: Time)
    requires Inv(cfg, t) && cfg.maxSlaveConns >= 1 && uid != "" && CanAuth(t.reg, id) && MasterSynced(t)
    ensures var t' := Step(cfg, t, Authenticates(id, uid, ctype, now));
            uid in t'.reg.wraps && t'.reg.wraps[uid].master == SurvivorsAt(t', uid, Master)
  {
    var t' := Step(cfg, t, Authenticates(id, uid, ctype, now));
    AuthTables(cfg, t, id, uid, ctype, now);
    LevelsAfterAuth(cfg, t, id, uid, ctype, now);
    AuthAlive(cfg, t, id, uid, ctype, now);
    JoinSyncIn(cfg, t, id, uid, LevelOf(cfg, ctype), Alive(t', uid), AtLevel(t', Master));
    FilterSnoc(t.log, id, Alive(t', uid) * AtLevel(t', Master));
  }

  /** The new slot is what the surviving masters come to, in terms of the sets after. */
  lemma JoinSyncIn(cfg: Config, t: Tracked, id: ConnId, uid: Uid, level: Level,
                   alive: set<ConnId>, masters: set<ConnId>)
    requires Inv(cfg, t) && cfg.maxSlaveConns >= 1 && MasterSynced(t) && id !in t.log && id !in Alive(t, uid)
    requires alive == Alive(t, uid) + {id} - ItemIds(JoinUser(cfg, t.reg, id, uid, level).1)
    requires ItemIds(JoinUser(cfg, t.reg, id, uid, level).1) <= Alive(t, uid)
    requires forall n :: n != id ==> (n in masters <==> n in AtLevel(t, Master))
    requires id in masters <==> level == Master
    ensures JoinUser(cfg, t.reg, id, uid, level).0.master
         == Filter(t.log, alive * masters) + if id in alive * masters then [id] else []
  {
    var after := alive * masters;
    if uid !in t.reg.wraps {
      assert Alive(t, uid) == {} by { assert UserOk(cfg, t, uid); }
      FilterNone(t.log, after);
    } else if level == Master {
      MastersOf(cfg, t, uid);
      FilterNone(t.log, after);
    } else {
      SlaveJoinsOnlySlaves(cfg, t, id, uid);
      FilterSameOn(t.log, after, Alive(t, uid) * AtLevel(t, Master));
    }
  }

  lemma MastersOf(cfg: Config, t: Tracked, u: Uid)
    requires Inv(cfg, t) && MasterSynced(t) && u in t.reg.wraps
    ensures forall x :: x in Alive(t, u) && x in AtLevel(t, Master) ==> t.reg.wraps[u].master == [x]
  {
    assert UserOk(cfg, t, u);
    AliveLogged(t, u);
    FilterElements(t.log, Alive(t, u) * AtLevel(t, Master));
    var m := t.reg.wraps[u].master;
    forall x | x in Alive(t, u) && x in AtLevel(t, Master) ensures m == [x] {
      assert x in m;
    }
  }

  /** A slave that joins leaves the slot alone and pushes out slaves only. */
  lemma SlaveJoinsOnlySlaves(cfg: Config, t: Tracked, id: ConnId, uid: Uid)
    requires Inv(cfg, t) && cfg.maxSlaveConns >= 1 && uid in t.reg.wraps
    ensures var (w, items) := Join(cfg, t.reg.wraps[uid], id, Slave);
            && w.master == t.reg.wraps[uid].master
            && (forall x :: x in ItemIds(items) ==> x in AtLevel(t, Slave))
  {
    var queue := t.reg.wraps[uid].slave;
    assert UserOk(cfg, t, uid);
    FilterElements(t.log, Alive(t, uid) * AtLevel(t, Slave));
    assert queue != [] ==> queue[0] in queue && (queue + [id])[0] == queue[0];
  }

  lemma AuthSyncs(cfg: Config, t: Tracked, id: ConnId, uid: Uid, ctype: nat, now: Time)
    requires Inv(cfg, t) && cfg.maxSlaveConns >= 1 && uid != "" && CanAuth(t.reg, id) && MasterSynced(t)
    ensures MasterSynced(Step(cfg, t, Authenticates(id, uid, ctype, now)))
  {
    var t' := Step(cfg, t, Authenticates(id, uid, ctype, now));
    JoinSync(cfg, t, id, uid, ctype, now);
    AuthTables(cfg, t, id, uid, ctype, now);
    LevelsAfterAuth(cfg, t, id, uid, ctype, now);
    AuthAlive(cfg, t, id, uid, ctype, now);
    forall u | u in t'.reg.wraps && u != uid ensures t'.reg.wraps[u].master == SurvivorsAt(t', u, Master) {
      var after := Alive(t', u) * AtLevel(t', Master);
      FilterSnoc(t.log, id, after);
      assert ConnOk(t, id);
      FilterSameOn(t.log, after, Alive(t, u) * AtLevel(t, Master));
    }
  }

  /** Closing a connection that is no master, or no user's, keeps every slot synced. */
  lemma CloseOthersSync(cfg: Config, t: Tracked, id: ConnId, u: Uid)
    requires Inv(cfg, t) && MasterSynced(t) && id in t.reg.conns && u in t.reg.wraps
    requires t.reg.conns[id].uid != u || t.reg.conns[id].level == Slave
    ensures var t' := Step(cfg, t, Closes(id));
            SurvivorsAt(t', u, Master) == SurvivorsAt(t, u, Master)
  {
    var t' := Step(cfg, t, Closes(id));
    CleanAlive(cfg, t, id);
    FilterSameOn(t.log, Alive(t', u) * AtLevel(t', Master), Alive(t, u) * AtLevel(t, Master));
  }

  /** Closing a master empties its user's slot; that is right exactly when the slot
      held it or nothing. */
  lemma CloseMasterSync(cfg: Config, t: Tracked, id: ConnId, u: Uid)
    requires Inv(cfg, t) && MasterSynced(t) && id in t.reg.conns && u in t.reg.wraps
    requires t.reg.conns[id].uid == u && t.reg.conns[id].level == Master
    ensures var t' := Step(cfg, t, Closes(id));
            && (u in t'.reg.wraps ==> t'.reg.wraps[u].master == [])
            && (SurvivorsAt(t', u, Master) == [] <==> !StaleMasterCloses(t, Closes(id)))
            && (StaleMasterCloses(t, Closes(id)) ==> u in t'.reg.wraps)
  {
    var t' := Step(cfg, t, Closes(id));
    var w := t.reg.wraps[u];
    var before := Alive(t, u) * AtLevel(t, Master);
    assert UserOk(cfg, t, u);
    CleanAlive(cfg, t, id);
    assert Alive(t', u) * AtLevel(t', Master) == before - {id};
    RemoveFirstFilter(t.log, before, id);
    AliveLogged(t, u);
    FilterElements(t.log, Alive(t, u));
    FilterElements(t.log, before);
    if id in w.conns {
      MastersOf(cfg, t, u);
      assert w.master == [id];
    } else {
      RemoveFirstAbsent(w.master, id);
      RemoveFirstAbsent(w.conns, id);
      assert w.conns != [] by {
        var x :| x in Alive(t, u);
        assert x in w.conns;
      }
    }
  }

  lemma CloseSyncs(cfg: Config, t: Tracked, id: ConnId)
    requires Inv(cfg, t) && MasterSynced(t) && id in t.reg.conns
    ensures MasterSynced(Step(cfg, t, Closes(id))) <==> !StaleMasterCloses(t, Closes(id))
  {
    var t' := Step(cfg, t, Closes(id));
    var c := t.reg.conns[id];
    forall u | u in t'.reg.wraps && (c.uid != u || c.level == Slave)
      ensures t'.reg.wraps[u].master == SurvivorsAt(t', u, Master)
    {
      CloseOthersSync(cfg, t, id, u);
    }
    if c.level == Master && c.uid in t.reg.wraps {
      CloseMasterSync(cfg, t, id, c.uid);
    }
  }

  /** The one step that breaks the agreement is the close of an already replaced
      master while its user's slot is taken. */
  lemma OnlyStaleClosesBreakTheSlot(cfg: Config, t: Tracked, a: Action)
    requires Inv(cfg, t) && cfg.maxSlaveConns >= 1 && Enabled(t, a) && MasterSynced(t)
    ensures MasterSynced(Step(cfg, t, a)) <==> !StaleMasterCloses(t, a)
  {
    match a
    case Opens(id, now) => QuietSync(t, Step(cfg, t, a));
    case Authenticates(id, uid, ctype, now) =>
      if CanAuth(t.reg, id) {
        AuthSyncs(cfg, t, id, uid, ctype, now);
      }
    case Closes(id) =>
      if id in t.reg.conns {
        CloseSyncs(cfg, t, id);
      }
    case Pings(id, now) => QuietSync(t, Step(cfg, t, a));
    case Fires(i, now) =>
      var item := t.reg.queue[i];
      assert item.connId in t.reg.conns ==> ConnOk(t, item.connId);
      QuietSync(t, Step(cfg, t, a));
  }

  /** The states a run from the start passes. */
  function Path(cfg: Config, acts: seq<Action>): (path: seq<Tracked>)
    ensures |path| == |acts| + 1 && forall k :: 0 <= k <= |acts| ==> path[k] == Run(cfg, START, acts[..k])
  {
    seq(|acts| + 1, k requires 0 <= k <= |acts| => Run(cfg, START, acts[..k]))
  }

  lemma PathStep(cfg: Config, acts: seq<Action>, k: nat)
    requires cfg.maxSlaveConns >= 1 && k < |acts|
    ensures Inv(cfg, Path(cfg, acts)[k]) && Path(cfg, acts)[k + 1] == Do(cfg, Path(cfg, acts)[k], acts[k])
  {
    RunKeeps(cfg, acts[..k]);
    assert acts[..k + 1][..k] == acts[..k];
  }

  ghost predicate SyncedAllAlong(cfg: Config, acts: seq<Action>) {
    AllAlong(Path(cfg, acts), t => MasterSynced(t))
  }

  /** No replaced master is closed while its successor is registered. */
  ghost predicate NoStaleClose(cfg: Config, acts: seq<Action>) {
    Never(Path(cfg, acts), acts, (t, a) => StaleMasterCloses(t, a))
  }

  lemma DoSyncs(cfg: Config, t: Tracked, a: Action)
    requires Inv(cfg, t) && cfg.maxSlaveConns >= 1 && MasterSynced(t)
    ensures MasterSynced(Do(cfg, t, a)) <==> !StaleMasterCloses(t, a)
  {
    if Enabled(t, a) {
      OnlyStaleClosesBreakTheSlot(cfg, t, a);
    }
  }

  /** Over a whole run: the slots agree all along exactly when no replaced master is
      closed while its successor is registered. */
  lemma {:induction false} SlotAgreesUntilAStaleClose(cfg: Config, acts: seq<Action>)
    requires cfg.maxSlaveConns >= 1
    ensures SyncedAllAlong(cfg, acts) <==> NoStaleClose(cfg, acts)
  {
    var path := Path(cfg, acts);
    forall k | 0 <= k < |acts| && MasterSynced(path[k])
      ensures MasterSynced(path[k + 1]) <==> !StaleMasterCloses(path[k], acts[k])
    {
      PathStep(cfg, acts, k);
      DoSyncs(cfg, path[k], acts[k]);
    }
    AllAlongIffNever(path, acts, t => MasterSynced(t), (t, a) => StaleMasterCloses(t, a));
  }

  // ---- how many masters survive ------------------------------------------------------

  function MasterSlot(r: Registry, u: Uid): seq<ConnId> {
    if u in r.wraps then r.wraps[u].master else []
  }

  /** The surviving masters of a user whose connection joins: the slot's holder goes, and
      is the one connection reported, not silently; a new master comes last. */
  lemma MastersAfterAuth(cfg: Config, t: Tracked, id: ConnId, uid: Uid, ctype: nat, now: Time)
    requires Inv(cfg, t) && cfg.maxSlaveConns >= 1 && uid != "" && CanAuth(t.reg, id)
    ensures var t' := Step(cfg, t, Authenticates(id, uid, ctype, now));
            var was, slot := SurvivorsAt(t, uid, Master), MasterSlot(t.reg, uid);
            SurvivorsAt(t', uid, Master)
            == if ctype !in cfg.masterTypes then was
               else (if slot == [] then was else RemoveFirst(was, slot[0])) + [id]
    ensures ctype in cfg.masterTypes ==>
              var slot := MasterSlot(t.reg, uid);
              Auth(cfg, t.reg, id, uid, ctype, now).1 == if slot == [] then [] else [HandleItem(slot[0], false)]
  {
    var t', level := Step(cfg, t, Authenticates(id, uid, ctype, now)), LevelOf(cfg, ctype);
    var before, after := Alive(t, uid) * AtLevel(t, Master), Alive(t', uid) * AtLevel(t', Master);
    AuthTables(cfg, t, id, uid, ctype, now);
    LevelsAfterAuth(cfg, t, id, uid, ctype, now);
    AuthAlive(cfg, t, id, uid, ctype, now);
    FilterSnoc(t.log, id, after);
    var slot := MasterSlot(t.reg, uid);
    if level == Slave {
      if uid in t.reg.wraps {
        SlaveJoinsOnlySlaves(cfg, t, id, uid);
      }
      FilterSameOn(t.log, after, before);
    } else if slot == [] {
      FilterSameOn(t.log, after, before);
    } else {
      FilterSameOn(t.log, after, before - {slot[0]});
      RemoveFirstFilter(t.log, before, slot[0]);
    }
  }

  lemma OtherMastersAfterAuth(cfg: Config, t: Tracked, id: ConnId, uid: Uid, ctype: nat, now: Time, u: Uid)
    requires Inv(cfg, t) && cfg.maxSlaveConns >= 1 && uid != "" && CanAuth(t.reg, id) && u != uid
    ensures SurvivorsAt(Step(cfg, t, Authenticates(id, uid, ctype, now)), u, Master) == SurvivorsAt(t, u, Master)
  {
    var t' := Step(cfg, t, Authenticates(id, uid, ctype, now));
    AuthTables(cfg, t, id, uid, ctype, now);
    LevelsAfterAuth(cfg, t, id, uid, ctype, now);
    AuthAlive(cfg, t, id, uid, ctype, now);
    assert ConnOk(t, id);
    FilterSnoc(t.log, id, Alive(t', u) * AtLevel(t', Master));
    FilterSameOn(t.log, Alive(t', u) * AtLevel(t', Master), Alive(t, u) * AtLevel(t, Master));
  }

  lemma MastersAfterClose(cfg: Config, t: Tracked, id: ConnId, u: Uid)
    requires Inv(cfg, t)
    ensures SurvivorsAt(Step(cfg, t, Closes(id)), u, Master) == RemoveFirst(SurvivorsAt(t, u, Master), id)
  {
    var t', before := Step(cfg, t, Closes(id)), Alive(t, u) * AtLevel(t, Master);
    RemoveFirstFilter(t.log, before, id);
    if id in t.reg.conns {
      CleanAlive(cfg, t, id);
      assert Alive(t', u) * AtLevel(t', Master) == before - {id};
    } else {
      assert before - {id} == before;
    }
  }

  /** A master authenticates for u beside a surviving master that the slot lost. */
  ghost predicate JoinsBesideAMaster(cfg: Config, t: Tracked, a: Action, u: Uid) {
    && a.Authenticates? && a.uid == u && u != "" && CanAuth(t.reg, a.id) && a.ctype in cfg.masterTypes
    && SurvivorsAt(t, u, Master) != [] && MasterSlot(t.reg, u) == []
  }

  /** A slot that is taken holds a surviving master. */
  lemma SlotSurvives(cfg: Config, t: Tracked, u: Uid)
    requires Inv(cfg, t) && MasterSlot(t.reg, u) != []
    ensures MasterSlot(t.reg, u)[0] in SurvivorsAt(t, u, Master)
  {
    assert UserOk(cfg, t, u);
    AliveLogged(t, u);
    FilterElements(t.log, Alive(t, u) * AtLevel(t, Master));
  }

  lemma AuthLeavesOneMaster(cfg: Config, t: Tracked, id: ConnId, uid: Uid, ctype: nat, now: Time, u: Uid)
    requires Inv(cfg, t) && cfg.maxSlaveConns >= 1 && uid != "" && |SurvivorsAt(t, u, Master)| <= 1
    ensures var a := Authenticates(id, uid, ctype, now);
            |SurvivorsAt(Step(cfg, t, a), u, Master)| <= 1 <==> !JoinsBesideAMaster(cfg, t, a, u)
  {
    if CanAuth(t.reg, id) {
      if u != uid {
        OtherMastersAfterAuth(cfg, t, id, uid, ctype, now, u);
      } else {
        MastersAfterAuth(cfg, t, id, uid, ctype, now);
        var was, slot := SurvivorsAt(t, u, Master), MasterSlot(t.reg, u);
        if slot != [] {
          SlotSurvives(cfg, t, u);
          assert was == [slot[0]] && RemoveFirst(was, slot[0]) == [];
        }
      }
    }
  }

  /** From a state in which a user has at most one surviving master, a step makes two if
      and only if it is a master's authentication beside a surviving master while the
      slot is empty. */
  lemma OneMasterUnlessTheSlotLostIt(cfg: Config, t: Tracked, a: Action, u: Uid)
    requires Inv(cfg, t) && cfg.maxSlaveConns >= 1 && Enabled(t, a) && |SurvivorsAt(t, u, Master)| <= 1
    ensures |SurvivorsAt(Step(cfg, t, a), u, Master)| <= 1 <==> !JoinsBesideAMaster(cfg, t, a, u)
  {
    match a
    case Opens(id, now) => QuietSync(t, Step(cfg, t, a));
    case Authenticates(id, uid, ctype, now) => AuthLeavesOneMaster(cfg, t, id, uid, ctype, now, u);
    case Closes(id) => MastersAfterClose(cfg, t, id, u);
    case Pings(id, now) => QuietSync(t, Step(cfg, t, a));
    case Fires(i, now) =>
      var item := t.reg.queue[i];
      assert item.connId in t.reg.conns ==> ConnOk(t, item.connId);
      QuietSync(t, Step(cfg, t, a));
  }

  ghost predicate OneMasterAllAlong(cfg: Config, acts: seq<Action>, u: Uid) {
    AllAlong(Path(cfg, acts), t => |SurvivorsAt(t, u, Master)| <= 1)
  }

  ghost predicate NeverBesideAMaster(cfg: Config, acts: seq<Action>, u: Uid) {
    Never(Path(cfg, acts), acts, (t, a) => JoinsBesideAMaster(cfg, t, a, u))
  }

  /** Over a whole run: a user has at most one master at every point if and only if no
      master ever joins beside one that the slot lost. */
  lemma {:induction false} OneMasterIff(cfg: Config, acts: seq<Action>, u: Uid)
    requires cfg.maxSlaveConns >= 1
    ensures OneMasterAllAlong(cfg, acts, u) <==> NeverBesideAMaster(cfg, acts, u)
  {
    var path := Path(cfg, acts);
    forall k | 0 <= k < |acts| && |SurvivorsAt(path[k], u, Master)| <= 1
      ensures |SurvivorsAt(path[k + 1], u, Master)| <= 1 <==> !JoinsBesideAMaster(cfg, path[k], acts[k], u)
    {
      PathStep(cfg, acts, k);
      if Enabled(path[k], acts[k]) {
        OneMasterUnlessTheSlotLostIt(cfg, path[k], acts[k], u);
      }
    }
    AllAlongIffNever(path, acts, t => |SurvivorsAt(t, u, Master)| <= 1, (t, a) => JoinsBesideAMaster(cfg, t, a, u));
  }

  lemma {:induction false} SplitByLevel(log: seq<ConnId>, alive: set<ConnId>, masters: set<ConnId>, slaves: set<ConnId>)
    requires masters !! slaves && alive <= masters + slaves
    ensures |Filter(log, alive)| == |Filter(log, alive * masters)| + |Filter(log, alive * slaves)|
  {
    if log != [] {
      SplitByLevel(log[..|log| - 1], alive, masters, slaves);
    }
  }

  /** Without stale closes a user holds at most one master, and in all at most one
      connection more than the slave limit. */
  lemma {:induction false} AtMostOneMaster(cfg: Config, acts: seq<Action>, u: Uid)
    requires cfg.maxSlaveConns >= 1
    requires NoStaleClose(cfg, acts)
    ensures var t := Run(cfg, START, acts);
            |SurvivorsAt(t, u, Master)| <= 1 && |Survivors(t, u)| <= cfg.maxSlaveConns + 1
  {
    var t := Run(cfg, START, acts);
    RunKeeps(cfg, acts);
    SlotAgreesUntilAStaleClose(cfg, acts);
    assert acts[..|acts|] == acts && MasterSynced(Path(cfg, acts)[|acts|]);
    assert UserOk(cfg, t, u);
    SlavesAreSurvivors(cfg, t, u);
    SplitByLevel(t.log, Alive(t, u), AtLevel(t, Master), AtLevel(t, Slave));
    if u !in t.reg.wraps {
      FilterNone(t.log, Alive(t, u) * AtLevel(t, Master));
    }
  }

  // ---- and the limit does fail without that hypothesis --------------------------

  const THREE_MASTERS: seq<Action> := [
    Opens("a", 0), Authenticates("a", "u", 0, 0),
    Opens("b", 0), Authenticates("b", "u", 0, 0),
    Closes("a"),
    Opens("c", 0), Authenticates("c", "u", 0, 0)]

  /** A connection opens and authenticates at once. */
  lemma Arrival(cfg: Config, t: Tracked, id: ConnId, uid: Uid, ctype: nat)
    requires id !in t.used && uid != ""
    ensures var t' := Do(cfg, Do(cfg, t, Opens(id, 0)), Authenticates(id, uid, ctype, 0));
            && t'.reg.wraps == t.reg.wraps[uid := JoinUser(cfg, t.reg, id, uid, LevelOf(cfg, ctype)).0]
            && t'.reg.conns == t.reg.conns[id := Conn(uid, LevelOf(cfg, ctype), Authed, Some(0))]
            && t'.used == t.used + {id}
  {
    var t1 := Do(cfg, t, Opens(id, 0));
    assert CanAuth(t1.reg, id) && t1.reg.wraps == t.reg.wraps;
    assert JoinUser(cfg, t1.reg, id, uid, LevelOf(cfg, ctype)) == JoinUser(cfg, t.reg, id, uid, LevelOf(cfg, ctype));
  }

  lemma RunAt(cfg: Config, acts: seq<Action>, k: nat)
    requires k < |acts|
    ensures Run(cfg, START, acts[..0]) == START
    ensures Run(cfg, START, acts[..k + 1]) == Do(cfg, Run(cfg, START, acts[..k]), acts[k])
  {
    assert acts[..k + 1][..k] == acts[..k];
  }

  lemma MasterReplaced(cfg: Config)
    requires 0 in cfg.masterTypes
    ensures var t := Run(cfg, START, THREE_MASTERS[..4]);
            && t.used == {"a", "b"} && t.reg.wraps == map["u" := Wrap(["b"], ["b"], [])]
            && t.reg.conns == map["a" := Conn("u", Master, Authed, Some(0)), "b" := Conn("u", Master, Authed, Some(0))]
  {
    var s := THREE_MASTERS;
    RunAt(cfg, s, 0);
    RunAt(cfg, s, 1);
    RunAt(cfg, s, 2);
    RunAt(cfg, s, 3);
    Arrival(cfg, START, "a", "u", 0);
    Arrival(cfg, Run(cfg, START, s[..2]), "b", "u", 0);
    assert RemoveFirst(["a", "b"], "a") == ["b"] by {
      assert ["a", "b"][1..] == ["b"];
    }
    assert ["a"] + ["b"] == ["a", "b"];
  }

  /** The first master is replaced by the second; its close empties the slot; a third
      master then joins unopposed, and the user holds two masters. */
  lemma TwoMastersAfterAStaleClose(cfg: Config)
    requires 0 in cfg.masterTypes
    ensures var t := Run(cfg, START, THREE_MASTERS);
            && "u" in t.reg.wraps && t.reg.wraps["u"].conns == ["b", "c"] && t.reg.wraps["u"].master == ["c"]
            && (forall id :: id in ["b", "c"] ==> id in t.reg.conns && t.reg.conns[id].level == Master)
  {
    var s := THREE_MASTERS;
    MasterReplaced(cfg);
    var t4, t5 := Run(cfg, START, s[..4]), Run(cfg, START, s[..5]);
    RunAt(cfg, s, 4);
    RemoveFirstAbsent(["b"], "a");
    assert t5.used == t4.used && t5.reg.wraps == map["u" := Wrap(["b"], [], [])];
    assert t5.reg.conns == map["b" := Conn("u", Master, Authed, Some(0))];
    RunAt(cfg, s, 5);
    RunAt(cfg, s, 6);
    Arrival(cfg, t5, "c", "u", 0);
    assert ["b"] + ["c"] == ["b", "c"];
    assert s[..7] == s;
  }
}
