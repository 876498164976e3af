/** The delay queue over every run: no check is lost or doubled, and, with clocks,
    what the ping checks promise. */
module RegistryMonitor {
  import opened Basics
  import opened ConnRegistry
  import opened RegistryRuns

  // ---- counting queued checks ----------------------------------------------------

  function Count(q: seq<Item>, kind: Check, id: ConnId): nat {
    if q == [] then 0
    else Count(q[..|q| - 1], kind, id) + if IsFor(q[|q| - 1], kind, id) then 1 else 0
  }

  predicate IsFor(item: Item, kind: Check, id: ConnId) {
    item.kind == kind && item.connId == id
  }

  lemma CountSnoc(q: seq<Item>, item: Item, kind: Check, id: ConnId)
    ensures Count(q + [item], kind, id) == Count(q, kind, id) + if IsFor(item, kind, id) then 1 else 0
  {
    assert (q + [item])[..|q|] == q;
  }

  lemma {:induction false} CountWithout(q: seq<Item>, i: nat, kind: Check, id: ConnId)
    requires i < |q|
    ensures Count(q[..i] + q[i + 1..], kind, id) == Count(q, kind, id) - if IsFor(q[i], kind, id) then 1 else 0
  {
    var init, last := q[..|q| - 1], q[|q| - 1];
    if i == |init| {
      assert q[..i] + q[i + 1..] == init;
    } else {
      CountWithout(init, i, kind, id);
      assert q[..i] + q[i + 1..] == (init[..i] + init[i + 1..]) + [last];
      CountSnoc(init[..i] + init[i + 1..], last, kind, id);
    }
  }

  lemma {:induction false} CountFinds(q: seq<Item>, kind: Check, id: ConnId)
    requires Count(q, kind, id) >= 1
    ensures exists i :: 0 <= i < |q| && IsFor(q[i], kind, id)
  {
    var n := |q| - 1;
    if IsFor(q[n], kind, id) {
    } else {
      CountFinds(q[..n], kind, id);
      var i :| 0 <= i < n && IsFor(q[..n][i], kind, id);
      assert IsFor(q[i], kind, id);
    }
  }

  // ---- no check is lost or doubled -------------------------------------------------

  ghost predicate Monitored(t: Tracked, id: ConnId) {
    && Count(t.reg.queue, AuthCheck, id) <= (if id in t.used then 1 else 0)
    && Count(t.reg.queue, PingCheck, id) <= (if id in t.log then 1 else 0)
    && (id in t.reg.conns && t.reg.conns[id].state == Opened ==> Count(t.reg.queue, AuthCheck, id) == 1)
    && (id in t.reg.conns && t.reg.conns[id].state == Authed ==> Count(t.reg.queue, PingCheck, id) == 1)
  }

  /** What firing item i leaves in the queue, counted. */
  lemma FireCounts(cfg: Config, r: Registry, i: nat, now: Time, kind: Check, id: ConnId)
    requires i < |r.queue|
    ensures var r' := Fire(cfg, r, i, now);
            && Count(r'.queue, kind, id) <= Count(r.queue, kind, id)
            && (!IsFor(r.queue[i], kind, id) ==> Count(r'.queue, kind, id) == Count(r.queue, kind, id))
            && (kind == PingCheck && id in r'.conns && r'.conns[id].state == Authed && r'.conns[id].lastPing.Some? ==>
                  Count(r'.queue, kind, id) == Count(r.queue, kind, id))
  {
    CountWithout(r.queue, i, kind, id);
    CountSnoc(Take(r, i).queue, Item(PingCheck, r.queue[i].connId, now + cfg.pingInterval), kind, id);
  }

  lemma FireMonitored(cfg: Config, t: Tracked, i: nat, now: Time, id: ConnId)
    requires i < |t.reg.queue| && Monitored(t, id)
    requires id in t.reg.conns ==> ConnOk(t, id)
    ensures Monitored(t.(reg := Fire(cfg, t.reg, i, now)), id)
  {
    FireCounts(cfg, t.reg, i, now, AuthCheck, id);
    FireCounts(cfg, t.reg, i, now, PingCheck, id);
    var conns, conns' := t.reg.conns, Fire(cfg, t.reg, i, now).conns;
    assert id in conns' ==> id in conns && conns'[id].lastPing == conns[id].lastPing;
    assert id in conns' && conns'[id].state != Closed ==> conns'[id].state == conns[id].state;
    if IsFor(t.reg.queue[i], AuthCheck, id) {
      assert id in conns' ==> conns'[id].state != Opened;
    }
  }

  /** A step that queues one check for n and settles n's state keeps the count right. */
  lemma QueueMonitored(t: Tracked, t': Tracked, item: Item, id: ConnId)
    requires Monitored(t, id) && t'.reg.queue == t.reg.queue + [item]
    requires t.used <= t'.used && (forall x :: x in t.log ==> x in t'.log)
    requires item.connId != id ==>
               && (id in t'.reg.conns <==> id in t.reg.conns)
               && (id in t.reg.conns ==> t'.reg.conns[id] == t.reg.conns[id])
    requires item == Item(AuthCheck, id, item.expire) ==>
               id !in t.used && id in t'.used && id in t'.reg.conns && t'.reg.conns[id].state == Opened
    requires item == Item(PingCheck, id, item.expire) ==>
               id !in t.log && id in t'.log && id in t'.reg.conns && t'.reg.conns[id].state == Authed
    ensures Monitored(t', id)
  {
    CountSnoc(t.reg.queue, item, AuthCheck, id);
    CountSnoc(t.reg.queue, item, PingCheck, id);
  }

  lemma AuthMonitored(cfg: Config, t: Tracked, n: ConnId, uid: Uid, ctype: nat, now: Time, id: ConnId)
    requires uid != "" && CanAuth(t.reg, n) && n !in t.log && Monitored(t, id)
    ensures Monitored(Step(cfg, t, Authenticates(n, uid, ctype, now)), id)
  {
    var t' := Step(cfg, t, Authenticates(n, uid, ctype, now));
    QueueMonitored(t, t', Item(PingCheck, n, now + cfg.pingInterval), id);
  }

  lemma StepMonitored(cfg: Config, t: Tracked, a: Action, id: ConnId)
    requires Inv(cfg, t) && Enabled(t, a) && Monitored(t, id)
    ensures Monitored(Step(cfg, t, a), id)
  {
    match a
    case Opens(n, now) =>
      QueueMonitored(t, Step(cfg, t, a), Item(AuthCheck, n, now + cfg.authTimeout), id);
    case Authenticates(n, uid, ctype, now) =>
      if CanAuth(t.reg, n) {
        assert ConnOk(t, n);
        AuthMonitored(cfg, t, n, uid, ctype, now, id);
      }
    case Closes(n) =>
    case Pings(n, now) =>
    case Fires(i, now) =>
      assert id in t.reg.conns ==> ConnOk(t, id);
      FireMonitored(cfg, t, i, now, id);
  }

  /** Over every run: no connection ever has two checks of one kind queued, a
      registered connection still to authenticate has exactly one authentication
      check queued, and a registered authenticated one exactly one ping check. */
  lemma {:induction false} ChecksAreConserved(cfg: Config, acts: seq<Action>, id: ConnId)
    requires cfg.maxSlaveConns >= 1
    ensures var t := Run(cfg, START, acts);
            && Count(t.reg.queue, AuthCheck, id) <= 1 && Count(t.reg.queue, PingCheck, id) <= 1
            && (id in t.reg.conns && t.reg.conns[id].state == Opened ==> Count(t.reg.queue, AuthCheck, id) == 1)
            && (id in t.reg.conns && t.reg.conns[id].state == Authed ==> Count(t.reg.queue, PingCheck, id) == 1)
            && Monitored(t, id)
  {
    if acts != [] {
      var n := |acts| - 1;
      ChecksAreConserved(cfg, acts[..n], id);
      RunKeeps(cfg, acts[..n]);
      var before := Run(cfg, START, acts[..n]);
      if Enabled(before, acts[n]) {
        StepMonitored(cfg, before, acts[n], id);
      }
    }
  }

  // ---- with clocks -----------------------------------------------------------------

  /** The registry at an instant. Manager methods run at the current instant; time
      advances while no queued check is more than lag overdue. */
  datatype Timed = Timed(at: Tracked, clock: Time)

  datatype TimedAction = Does(a: Action) | Tick(until: Time)

  predicate AtInstant(a: Action, clock: Time) {
    match a
    case Opens(_, now) => now == clock
    case Authenticates(_, _, _, now) => now == clock
    case Closes(_) => true
    case Pings(_, now) => now == clock
    case Fires(_, now) => now == clock
  }

  predicate TimedEnabled(lag: nat, s: Timed, a: TimedAction) {
    match a
    case Does(act) => Enabled(s.at, act) && AtInstant(act, s.clock)
    case Tick(until) => s.clock <= until && forall item :: item in s.at.reg.queue ==> until <= item.expire + lag
  }

  function TimedStep(cfg: Config, lag: nat, s: Timed, a: TimedAction): Timed
    requires TimedEnabled(lag, s, a)
  {
    match a
    case Does(act) => s.(at := Step(cfg, s.at, act))
    case Tick(until) => s.(clock := until)
  }

  function TimedDo(cfg: Config, lag: nat, s: Timed, a: TimedAction): Timed {
    if TimedEnabled(lag, s, a) then TimedStep(cfg, lag, s, a) else s
  }

  function TimedRun(cfg: Config, lag: nat, start: Time, acts: seq<TimedAction>): Timed {
    if acts == [] then Timed(START, start)
    else TimedDo(cfg, lag, TimedRun(cfg, lag, start, acts[..|acts| - 1]), acts[|acts| - 1])
  }

  ghost predicate ItemInTime(cfg: Config, lag: nat, s: Timed, item: Item) {
    && s.clock <= item.expire + lag
    && (item.kind == PingCheck && item.connId in s.at.reg.conns && s.at.reg.conns[item.connId].state == Authed
        && s.at.reg.conns[item.connId].lastPing.Some? ==>
          item.expire <= s.at.reg.conns[item.connId].lastPing.value
                         + cfg.pingInterval * cfg.pingLostTimes + cfg.pingInterval)
  }

  ghost predicate TimedInv(cfg: Config, lag: nat, s: Timed) {
    && Inv(cfg, s.at)
    && (forall id :: Monitored(s.at, id))
    && (forall item :: item in s.at.reg.queue ==> ItemInTime(cfg, lag, s, item))
    && (forall id :: id in s.at.reg.conns && s.at.reg.conns[id].lastPing.Some? ==>
          s.at.reg.conns[id].lastPing.value <= s.clock)
  }

  /** Two steps cannot both have queued a ping check for a connection: a ping check in
      the queue is for a connection that authenticated. */
  lemma PingCheckIsLogged(t: Tracked, item: Item)
    requires item in t.reg.queue && item.kind == PingCheck && Monitored(t, item.connId)
    ensures item.connId in t.log
  {
    var i :| 0 <= i < |t.reg.queue| && t.reg.queue[i] == item;
    CountWithout(t.reg.queue, i, PingCheck, item.connId);
  }

  lemma FireInTime(cfg: Config, lag: nat, s: Timed, i: nat)
    requires TimedInv(cfg, lag, s) && i < |s.at.reg.queue|
    ensures var at' := s.at.(reg := Fire(cfg, s.at.reg, i, s.clock));
            forall item :: item in at'.reg.queue ==> ItemInTime(cfg, lag, s.(at := at'), item)
  {
    var fired := s.at.reg.queue[i];
    var at' := s.at.(reg := Fire(cfg, s.at.reg, i, s.clock));
    assert ItemInTime(cfg, lag, s, fired);
    forall item | item in at'.reg.queue ensures ItemInTime(cfg, lag, s.(at := at'), item) {
      if item in s.at.reg.queue {
        assert ItemInTime(cfg, lag, s, item);
      } else {
        assert item == Item(PingCheck, fired.connId, s.clock + cfg.pingInterval);
      }
    }
  }

  lemma AuthInTime(cfg: Config, lag: nat, s: Timed, id: ConnId, uid: Uid, ctype: nat)
    requires TimedInv(cfg, lag, s) && uid != "" && CanAuth(s.at.reg, id)
    ensures var at' := Step(cfg, s.at, Authenticates(id, uid, ctype, s.clock));
            forall item :: item in at'.reg.queue ==> ItemInTime(cfg, lag, s.(at := at'), item)
  {
    var at' := Step(cfg, s.at, Authenticates(id, uid, ctype, s.clock));
    assert ConnOk(s.at, id);
    assert at'.reg.queue == s.at.reg.queue + [Item(PingCheck, id, s.clock + cfg.pingInterval)];
    assert at'.reg.conns == s.at.reg.conns[id := Conn(uid, LevelOf(cfg, ctype), Authed, Some(s.clock))];
    assert cfg.pingInterval * cfg.pingLostTimes >= 0;
    forall item | item in at'.reg.queue ensures ItemInTime(cfg, lag, s.(at := at'), item) {
      if item in s.at.reg.queue {
        assert ItemInTime(cfg, lag, s, item);
        if item.kind == PingCheck {
          PingCheckIsLogged(s.at, item);
        }
      }
    }
  }

  lemma OtherInTime(cfg: Config, lag: nat, s: Timed, a: Action)
    requires TimedInv(cfg, lag, s) && (a.Opens? || a.Closes? || a.Pings?)
    requires Enabled(s.at, a) && AtInstant(a, s.clock)
    ensures var at' := Step(cfg, s.at, a);
            forall item :: item in at'.reg.queue ==> ItemInTime(cfg, lag, s.(at := at'), item)
  {
    var at' := Step(cfg, s.at, a);
    forall item | item in at'.reg.queue ensures ItemInTime(cfg, lag, s.(at := at'), item) {
      if item in s.at.reg.queue {
        assert ItemInTime(cfg, lag, s, item);
      }
    }
  }

  lemma ActionInTime(cfg: Config, lag: nat, s: Timed, a: Action)
    requires TimedInv(cfg, lag, s) && cfg.maxSlaveConns >= 1 && Enabled(s.at, a) && AtInstant(a, s.clock)
    ensures TimedInv(cfg, lag, s.(at := Step(cfg, s.at, a)))
  {
    StepKeeps(cfg, s.at, a);
    forall id ensures Monitored(Step(cfg, s.at, a), id) {
      StepMonitored(cfg, s.at, a, id);
    }
    match a
    case Authenticates(id, uid, ctype, _) =>
      if CanAuth(s.at.reg, id) {
        AuthInTime(cfg, lag, s, id, uid, ctype);
      }
    case Fires(i, _) => FireInTime(cfg, lag, s, i);
    case _ => OtherInTime(cfg, lag, s, a);
  }

  lemma {:induction false} TimedRunKeeps(cfg: Config, lag: nat, start: Time, acts: seq<TimedAction>)
    requires cfg.maxSlaveConns >= 1
    ensures TimedInv(cfg, lag, TimedRun(cfg, lag, start, acts))
  {
    if acts == [] {
      RunKeeps(cfg, []);
    } else {
      var n := |acts| - 1;
      TimedRunKeeps(cfg, lag, start, acts[..n]);
      var s := TimedRun(cfg, lag, start, acts[..n]);
      if TimedEnabled(lag, s, acts[n]) {
        match acts[n]
        case Does(a) => ActionInTime(cfg, lag, s, a);
        case Tick(until) =>
          forall item | item in s.at.reg.queue ensures ItemInTime(cfg, lag, s.(clock := until), item) {
            assert ItemInTime(cfg, lag, s, item);
          }
      }
    }
  }

  /** A connection is authenticated for at most one interval, the lost pings and the
      queue's lag after its last ping: a silent one has left that state by then. */
  lemma {:induction false} SilentConnectionsAreDropped(cfg: Config, lag: nat, start: Time, acts: seq<TimedAction>,
                                                       id: ConnId)
    requires cfg.maxSlaveConns >= 1
    ensures var s := TimedRun(cfg, lag, start, acts);
            id in s.at.reg.conns && s.at.reg.conns[id].state == Authed ==>
              && s.at.reg.conns[id].lastPing.Some?
              && s.clock <= s.at.reg.conns[id].lastPing.value + cfg.pingInterval * (cfg.pingLostTimes + 1) + lag
  {
    TimedRunKeeps(cfg, lag, start, acts);
    var s := TimedRun(cfg, lag, start, acts);
    if id in s.at.reg.conns && s.at.reg.conns[id].state == Authed {
      assert ConnOk(s.at, id) && Monitored(s.at, id);
      CountFinds(s.at.reg.queue, PingCheck, id);
      var i :| 0 <= i < |s.at.reg.queue| && IsFor(s.at.reg.queue[i], PingCheck, id);
      assert ItemInTime(cfg, lag, s, s.at.reg.queue[i]);
      assert cfg.pingInterval * (cfg.pingLostTimes + 1) == cfg.pingInterval * cfg.pingLostTimes + cfg.pingInterval;
    }
  }

  /** The connection's last ping is no older than the tolerated silence. */
  ghost predicate Lively(cfg: Config, s: Timed, id: ConnId) {
    id in s.at.reg.conns && s.at.reg.conns[id].lastPing.Some? ==>
      s.clock <= s.at.reg.conns[id].lastPing.value + cfg.pingInterval * cfg.pingLostTimes
  }

  /** A connection whose last ping is never older than the tolerated silence is never
      closed by a ping check: while registered it is waiting or authenticated. */
  lemma {:induction false} LivelyConnectionsAreKept(cfg: Config, lag: nat, start: Time, acts: seq<TimedAction>,
                                                    id: ConnId)
    requires cfg.maxSlaveConns >= 1
    requires forall k :: 0 <= k <= |acts| ==> Lively(cfg, TimedRun(cfg, lag, start, acts[..k]), id)
    ensures var r := TimedRun(cfg, lag, start, acts).at.reg;
            id in r.conns ==> r.conns[id].state == Opened || r.conns[id].state == Authed
  {
    if acts != [] {
      var n := |acts| - 1;
      var init := acts[..n];
      assert forall k :: 0 <= k <= n ==> init[..k] == acts[..k];
      forall k | 0 <= k <= |init| ensures Lively(cfg, TimedRun(cfg, lag, start, init[..k]), id) {
        assert Lively(cfg, TimedRun(cfg, lag, start, acts[..k]), id);
      }
      LivelyConnectionsAreKept(cfg, lag, start, init, id);
      var s := TimedRun(cfg, lag, start, init);
      assert Lively(cfg, s, id) by { assert init[..n] == init; }
      KeptByStep(cfg, lag, s, acts[n], id);
    }
  }

  lemma KeptByStep(cfg: Config, lag: nat, s: Timed, a: TimedAction, id: ConnId)
    requires Lively(cfg, s, id)
    requires id in s.at.reg.conns ==> s.at.reg.conns[id].state == Opened || s.at.reg.conns[id].state == Authed
    ensures var r := TimedDo(cfg, lag, s, a).at.reg;
            id in r.conns ==> r.conns[id].state == Opened || r.conns[id].state == Authed
  {
  }

  // ---- time can always pass -----------------------------------------------------------

  function Due(q: seq<Item>, clock: Time): nat {
    if q == [] then 0 else Due(q[..|q| - 1], clock) + if q[|q| - 1].expire <= clock then 1 else 0
  }

  lemma {:induction false} DueWithout(q: seq<Item>, i: nat, clock: Time)
    requires i < |q| && q[i].expire <= clock
    ensures Due(q[..i] + q[i + 1..], clock) == Due(q, clock) - 1
  {
    var init, last := q[..|q| - 1], q[|q| - 1];
    if i == |init| {
      assert q[..i] + q[i + 1..] == init;
    } else {
      DueWithout(init, i, clock);
      assert (q[..i] + q[i + 1..])[..|q| - 2] == init[..i] + init[i + 1..];
    }
  }

  lemma FireLessDue(cfg: Config, r: Registry, i: nat, clock: Time)
    requires cfg.pingInterval >= 1 && i < |r.queue| && r.queue[i].expire <= clock
    ensures Due(Fire(cfg, r, i, clock).queue, clock) < Due(r.queue, clock)
  {
    DueWithout(r.queue, i, clock);
    var rest := Take(r, i).queue;
    var again := Item(PingCheck, r.queue[i].connId, clock + cfg.pingInterval);
    assert (rest + [again])[..|rest|] == rest;
  }

  function TimedFrom(cfg: Config, lag: nat, s: Timed, acts: seq<TimedAction>): Timed
    decreases |acts|
  {
    if acts == [] then s else TimedFrom(cfg, lag, TimedDo(cfg, lag, s, acts[0]), acts[1..])
  }

  /** The clock is never stuck: running the checks that are due, each once, always
      leads to a state in which time may pass. */
  lemma {:induction false} TimeCanPass(cfg: Config, lag: nat, s: Timed) returns (acts: seq<TimedAction>)
    requires cfg.pingInterval >= 1
    ensures forall a :: a in acts ==> a.Does? && a.a.Fires?
    ensures var s' := TimedFrom(cfg, lag, s, acts);
            s'.clock == s.clock && TimedEnabled(lag, s', Tick(s.clock + 1))
    decreases Due(s.at.reg.queue, s.clock)
  {
    var q := s.at.reg.queue;
    if i :| 0 <= i < |q| && q[i].expire <= s.clock {
      var a := Does(Fires(i, s.clock));
      FireLessDue(cfg, s.at.reg, i, s.clock);
      var rest := TimeCanPass(cfg, lag, TimedDo(cfg, lag, s, a));
      acts := [a] + rest;
      assert acts[1..] == rest;
    } else {
      acts := [];
    }
  }
}
