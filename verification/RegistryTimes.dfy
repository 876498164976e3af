/** The registry's clock promises in terms of what happened: when a connection opened,
    when it was last heard of, and when it was last checked. */
module RegistryTimes {
  import opened Basics
  import opened ConnRegistry
  import opened RegistryRuns
  import opened RegistryMonitor

  /** The instant each connection opened, of its latest sign of life (its authentication or
      a ping), and of its latest check (its authentication or a ping check). */
  datatype Past = Past(openedAt: map<ConnId, Time>, heardAt: map<ConnId, Time>, checkedAt: map<ConnId, Time>)

  /** One more action that is taken. */
  function Noted(s: Timed, p: Past, a: TimedAction): Past {
    match a
    case Does(Opens(id, now)) => p.(openedAt := p.openedAt[id := now])
    case Does(Authenticates(id, _, _, now)) =>
      if CanAuth(s.at.reg, id) then p.(heardAt := p.heardAt[id := now], checkedAt := p.checkedAt[id := now]) else p
    case Does(Pings(id, now)) =>
      if id in s.at.reg.conns then p.(heardAt := p.heardAt[id := now]) else p
    case Does(Fires(i, now)) =>
      if i < |s.at.reg.queue| && s.at.reg.queue[i].kind == PingCheck then
        p.(checkedAt := p.checkedAt[s.at.reg.queue[i].connId := now])
      else p
    case _ => p
  }

  function PastOf(cfg: Config, lag: nat, start: Time, acts: seq<TimedAction>): Past {
    if acts == [] then Past(map[], map[], map[])
    else
      var init, a := acts[..|acts| - 1], acts[|acts| - 1];
      var s := TimedRun(cfg, lag, start, init);
      var p := PastOf(cfg, lag, start, init);
      if TimedEnabled(lag, s, a) then Noted(s, p, a) else p
  }

  // ---- what the tables and the queue say of the past --------------------------------

  ghost predicate ConnDated(s: Timed, p: Past, id: ConnId)
    requires id in s.at.reg.conns
  {
    && id in p.openedAt
    && s.at.reg.conns[id].lastPing == if id in p.heardAt then Some(p.heardAt[id]) else None
  }

  /** An authentication check falls due a timeout after the opening, a ping check an
      interval after the latest check. */
  ghost predicate ItemDated(cfg: Config, p: Past, item: Item) {
    match item.kind
    case AuthCheck => item.connId in p.openedAt && item.expire == p.openedAt[item.connId] + cfg.authTimeout
    case PingCheck => item.connId in p.checkedAt && item.expire == p.checkedAt[item.connId] + cfg.pingInterval
  }

  ghost predicate Dated(cfg: Config, s: Timed, p: Past) {
    && p.openedAt.Keys <= s.at.used && p.heardAt.Keys <= s.at.used
    && (forall id :: id in s.at.reg.conns ==> ConnDated(s, p, id))
    && (forall item :: item in s.at.reg.queue ==> ItemDated(cfg, p, item))
  }

  /** A check in the queue is for a connection that was opened. */
  lemma AuthCheckIsUsed(t: Tracked, item: Item)
    requires item in t.reg.queue && item.kind == AuthCheck && Monitored(t, item.connId)
    ensures item.connId in t.used
  {
    var i :| 0 <= i < |t.reg.queue| && t.reg.queue[i] == item;
    CountWithout(t.reg.queue, i, AuthCheck, item.connId);
  }

  lemma {:induction false} CountAt(q: seq<Item>, i: nat, kind: Check, id: ConnId)
    requires i < |q| && IsFor(q[i], kind, id)
    ensures Count(q, kind, id) >= 1
  {
    CountWithout(q, i, kind, id);
  }

  /** No other check of the same kind is queued for the connection. */
  lemma OnlyCheck(t: Tracked, i: nat, item: Item)
    requires i < |t.reg.queue| && Monitored(t, item.connId) && item in Take(t.reg, i).queue
    ensures item.kind != t.reg.queue[i].kind || item.connId != t.reg.queue[i].connId
  {
    var q := Take(t.reg, i).queue;
    var j :| 0 <= j < |q| && q[j] == item;
    CountWithout(t.reg.queue, i, item.kind, item.connId);
    CountAt(q, j, item.kind, item.connId);
  }

  lemma OpensDated(cfg: Config, lag: nat, s: Timed, p: Past, id: ConnId)
    requires TimedInv(cfg, lag, s) && Dated(cfg, s, p) && id !in s.at.used
    ensures var a := Opens(id, s.clock);
            Dated(cfg, s.(at := Step(cfg, s.at, a)), Noted(s, p, Does(a)))
  {
    var s', p' := s.(at := Step(cfg, s.at, Opens(id, s.clock))), Noted(s, p, Does(Opens(id, s.clock)));
    forall n | n in s'.at.reg.conns ensures ConnDated(s', p', n) {
      assert n != id ==> ConnDated(s, p, n);
    }
    forall item | item in s'.at.reg.queue ensures ItemDated(cfg, p', item) {
      if item in s.at.reg.queue {
        assert ItemDated(cfg, p, item);
        if item.kind == AuthCheck {
          AuthCheckIsUsed(s.at, item);
        }
      }
    }
  }

  lemma AuthDated(cfg: Config, lag: nat, s: Timed, p: Past, id: ConnId, uid: Uid, ctype: nat)
    requires TimedInv(cfg, lag, s) && Dated(cfg, s, p) && uid != "" && CanAuth(s.at.reg, id)
    ensures var a := Authenticates(id, uid, ctype, s.clock);
            Dated(cfg, s.(at := Step(cfg, s.at, a)), Noted(s, p, Does(a)))
  {
    var a := Authenticates(id, uid, ctype, s.clock);
    var s', p' := s.(at := Step(cfg, s.at, a)), Noted(s, p, Does(a));
    AuthTables(cfg, s.at, id, uid, ctype, s.clock);
    assert s'.at.reg.queue == s.at.reg.queue + [Item(PingCheck, id, s.clock + cfg.pingInterval)];
    assert ConnOk(s.at, id);
    forall n | n in s'.at.reg.conns ensures ConnDated(s', p', n) {
      assert ConnDated(s, p, n);
    }
    forall item | item in s'.at.reg.queue ensures ItemDated(cfg, p', item) {
      if item in s.at.reg.queue {
        assert ItemDated(cfg, p, item);
        if item.kind == PingCheck {
          PingCheckIsLogged(s.at, item);
        }
      }
    }
  }

  lemma FiresDated(cfg: Config, lag: nat, s: Timed, p: Past, i: nat)
    requires TimedInv(cfg, lag, s) && Dated(cfg, s, p) && i < |s.at.reg.queue|
    ensures var a := Fires(i, s.clock);
            Dated(cfg, s.(at := s.at.(reg := Fire(cfg, s.at.reg, i, s.clock))), Noted(s, p, Does(a)))
  {
    var fired := s.at.reg.queue[i];
    var s' := s.(at := s.at.(reg := Fire(cfg, s.at.reg, i, s.clock)));
    var p' := Noted(s, p, Does(Fires(i, s.clock)));
    forall n | n in s'.at.reg.conns ensures ConnDated(s', p', n) {
      assert ConnDated(s, p, n);
    }
    forall item | item in s'.at.reg.queue ensures ItemDated(cfg, p', item) {
      if item in Take(s.at.reg, i).queue {
        assert item in s.at.reg.queue && ItemDated(cfg, p, item);
        OnlyCheck(s.at, i, item);
      } else {
        assert item == Item(PingCheck, fired.connId, s.clock + cfg.pingInterval);
      }
    }
  }

  lemma OtherDated(cfg: Config, s: Timed, p: Past, a: Action)
    requires Dated(cfg, s, p) && Enabled(s.at, a) && AtInstant(a, s.clock)
    requires Inv(cfg, s.at)
    requires a.Closes? || a.Pings?
    ensures Dated(cfg, s.(at := Step(cfg, s.at, a)), Noted(s, p, Does(a)))
  {
    var s', p' := s.(at := Step(cfg, s.at, a)), Noted(s, p, Does(a));
    forall n | n in s'.at.reg.conns ensures ConnDated(s', p', n) {
      assert ConnDated(s, p, n);
    }
    forall item | item in s'.at.reg.queue ensures ItemDated(cfg, p', item) {
      assert ItemDated(cfg, p, item);
    }
  }

  lemma StepDated(cfg: Config, lag: nat, s: Timed, p: Past, a: Action)
    requires TimedInv(cfg, lag, s) && Dated(cfg, s, p) && Enabled(s.at, a) && AtInstant(a, s.clock)
    ensures Dated(cfg, s.(at := Step(cfg, s.at, a)), Noted(s, p, Does(a)))
  {
    match a
    case Opens(id, _) => OpensDated(cfg, lag, s, p, id);
    case Authenticates(id, uid, ctype, _) =>
      if CanAuth(s.at.reg, id) {
        AuthDated(cfg, lag, s, p, id, uid, ctype);
      } else {
        assert s.(at := s.at) == s;
      }
    case Fires(i, _) => FiresDated(cfg, lag, s, p, i);
    case _ => OtherDated(cfg, s, p, a);
  }

  lemma {:induction false} RunDated(cfg: Config, lag: nat, start: Time, acts: seq<TimedAction>)
    requires cfg.maxSlaveConns >= 1
    ensures TimedInv(cfg, lag, TimedRun(cfg, lag, start, acts))
    ensures Dated(cfg, TimedRun(cfg, lag, start, acts), PastOf(cfg, lag, start, acts))
  {
    TimedRunKeeps(cfg, lag, start, acts);
    if acts != [] {
      var init, a := acts[..|acts| - 1], acts[|acts| - 1];
      RunDated(cfg, lag, start, init);
      var s := TimedRun(cfg, lag, start, init);
      if TimedEnabled(lag, s, a) && a.Does? {
        StepDated(cfg, lag, s, PastOf(cfg, lag, start, init), a.a);
      }
    }
  }

  // ---- signs of life ---------------------------------------------------------------

  /** Over every timed run: the last ping time of a registered connection is the instant of
      its latest sign of life, and there is none before the first. An authenticated one has
      given one. */
  lemma {:induction false} LastPingIsTheLatestSign(cfg: Config, lag: nat, start: Time, acts: seq<TimedAction>,
                                                   id: ConnId)
    requires cfg.maxSlaveConns >= 1
    ensures var s, p := TimedRun(cfg, lag, start, acts), PastOf(cfg, lag, start, acts);
            id in s.at.reg.conns ==>
              && (id in p.heardAt ==> s.at.reg.conns[id].lastPing == Some(p.heardAt[id]))
              && (id !in p.heardAt ==> s.at.reg.conns[id].lastPing == None && s.at.reg.conns[id].state == Opened)
  {
    RunDated(cfg, lag, start, acts);
    var s, p := TimedRun(cfg, lag, start, acts), PastOf(cfg, lag, start, acts);
    if id in s.at.reg.conns {
      assert ConnDated(s, p, id) && ConnOk(s.at, id);
    }
  }

  /** A connection is authenticated for at most one interval, the lost pings and the
      queue's lag after its latest sign of life: a silent one has left that state by
      then. */
  lemma {:induction false} SilentConnectionsAreClosed(cfg: Config, lag: nat, start: Time, acts: seq<TimedAction>,
                                                      id: ConnId)
    requires cfg.maxSlaveConns >= 1
    ensures var s, p := TimedRun(cfg, lag, start, acts), PastOf(cfg, lag, start, acts);
            id in s.at.reg.conns && s.at.reg.conns[id].state == Authed ==>
              id in p.heardAt && s.clock <= p.heardAt[id] + cfg.pingInterval * (cfg.pingLostTimes + 1) + lag
  {
    LastPingIsTheLatestSign(cfg, lag, start, acts, id);
    SilentConnectionsAreDropped(cfg, lag, start, acts, id);
  }

  /** The connection's latest sign of life, if it gave one, is no older than the tolerated
      silence. */
  ghost predicate Heard(cfg: Config, lag: nat, start: Time, acts: seq<TimedAction>, id: ConnId) {
    var s, p := TimedRun(cfg, lag, start, acts), PastOf(cfg, lag, start, acts);
    id in p.heardAt ==> s.clock <= p.heardAt[id] + cfg.pingInterval * cfg.pingLostTimes
  }

  /** A connection that is never silent for longer than tolerated, from its authentication
      on, is never closed by a ping check: while registered it is waiting or
      authenticated. */
  lemma {:induction false} PingedConnectionsAreKept(cfg: Config, lag: nat, start: Time, acts: seq<TimedAction>,
                                                    id: ConnId)
    requires cfg.maxSlaveConns >= 1
    requires forall k :: 0 <= k <= |acts| ==> Heard(cfg, lag, start, acts[..k], id)
    ensures var r := TimedRun(cfg, lag, start, acts).at.reg;
            id in r.conns ==> r.conns[id].state == Opened || r.conns[id].state == Authed
  {
    forall k | 0 <= k <= |acts| ensures Lively(cfg, TimedRun(cfg, lag, start, acts[..k]), id) {
      LastPingIsTheLatestSign(cfg, lag, start, acts[..k], id);
      assert Heard(cfg, lag, start, acts[..k], id);
    }
    LivelyConnectionsAreKept(cfg, lag, start, acts, id);
  }

  // ---- the authentication timeout ----------------------------------------------------

  /** A connection that has not authenticated is in the table for at most the timeout and
      the queue's lag after it opened. */
  lemma {:induction false} UnauthenticatedAreDropped(cfg: Config, lag: nat, start: Time, acts: seq<TimedAction>,
                                                     id: ConnId)
    requires cfg.maxSlaveConns >= 1
    ensures var s, p := TimedRun(cfg, lag, start, acts), PastOf(cfg, lag, start, acts);
            id in s.at.reg.conns ==>
              id in p.openedAt && (s.at.reg.conns[id].state == Opened ==>
                                     s.clock <= p.openedAt[id] + cfg.authTimeout + lag)
  {
    RunDated(cfg, lag, start, acts);
    var s, p := TimedRun(cfg, lag, start, acts), PastOf(cfg, lag, start, acts);
    if id in s.at.reg.conns {
      assert ConnDated(s, p, id) && Monitored(s.at, id);
      if s.at.reg.conns[id].state == Opened {
        CountFinds(s.at.reg.queue, AuthCheck, id);
        var i :| 0 <= i < |s.at.reg.queue| && IsFor(s.at.reg.queue[i], AuthCheck, id);
        var item := s.at.reg.queue[i];
        assert ItemInTime(cfg, lag, s, item) && ItemDated(cfg, p, item);
      }
    }
  }

  /** What an action that is neither the connection's close nor its authentication can do
      to it, and when. */
  ghost predicate OnlyInTime(cfg: Config, s: Timed, p: Past, r: Registry, id: ConnId)
    requires id in s.at.reg.conns
  {
    var was := s.at.reg.conns[id].state;
    && (id !in r.conns ==> was == Opened && id in p.openedAt && s.clock >= p.openedAt[id] + cfg.authTimeout)
    && (id in r.conns && r.conns[id].state != was ==>
          && was == Authed && r.conns[id].state == Closed && id in p.heardAt && id in p.checkedAt
          && s.clock > p.heardAt[id] + cfg.pingInterval * cfg.pingLostTimes
          && s.clock >= p.checkedAt[id] + cfg.pingInterval)
  }

  lemma StepInTime(cfg: Config, lag: nat, s: Timed, p: Past, a: TimedAction, id: ConnId)
    requires TimedInv(cfg, lag, s) && Dated(cfg, s, p) && id in s.at.reg.conns
    requires a != Does(Closes(id)) && !(a.Does? && a.a.Authenticates? && a.a.id == id)
    ensures OnlyInTime(cfg, s, p, TimedDo(cfg, lag, s, a).at.reg, id)
  {
    assert ConnDated(s, p, id) && ConnOk(s.at, id);
    if TimedEnabled(lag, s, a) && a.Does? {
      match a.a
      case Opens(_, _) =>
      case Authenticates(n, uid, ctype, now) =>
        if CanAuth(s.at.reg, n) {
          AuthTables(cfg, s.at, n, uid, ctype, now);
        }
      case Closes(_) =>
      case Pings(_, _) =>
      case Fires(i, _) => assert ItemDated(cfg, p, s.at.reg.queue[i]);
    }
  }

  /** Over every timed run, only two things happen to a connection but its own close and
      authentication: one that has not authenticated is dropped, not before the timeout
      after its opening; an authenticated one is closed, not before it was silent for longer
      than tolerated, nor within an interval of its latest check. */
  lemma {:induction false} NothingHappensEarly(cfg: Config, lag: nat, start: Time, acts: seq<TimedAction>,
                                               a: TimedAction, id: ConnId)
    requires cfg.maxSlaveConns >= 1 && id in TimedRun(cfg, lag, start, acts).at.reg.conns
    requires a != Does(Closes(id)) && !(a.Does? && a.a.Authenticates? && a.a.id == id)
    ensures OnlyInTime(cfg, TimedRun(cfg, lag, start, acts), PastOf(cfg, lag, start, acts),
                       TimedRun(cfg, lag, start, acts + [a]).at.reg, id)
  {
    RunDated(cfg, lag, start, acts);
    assert (acts + [a])[..|acts|] == acts;
    StepInTime(cfg, lag, TimedRun(cfg, lag, start, acts), PastOf(cfg, lag, start, acts), a, id);
  }
}
