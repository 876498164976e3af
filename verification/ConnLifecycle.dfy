/** One connection under every interleaving of the manager's threads, cut at each
    compare-and-swap, store, table operation and lock section. Any number of
    authentications (with any users), expiry checks and close events may run at once;
    other connections may evict this one from a wrap at any time. */
module ConnLifecycle {
  import opened ConnRegistry

  datatype Life = Life(
    state: ConnState,
    path: seq<ConnState>,        // every state so far, in order
    uid: Uid,                    // "" until bound
    bound: set<Uid>,             // every user it was ever bound to
    registered: bool,
    authWins: nat,               // exchanges won by authentications
    expiryWins: nat,             // exchanges won by authentication expiry
    filing: seq<Uid>,            // authentications past their exchange, before their lock section
    storing: nat,                // checks past their exchange, before storing Closed
    cleaning: nat,               // close events past the table, before reading the user
    leaving: seq<Uid>,           // close events past the user check, before their lock section
    wraps: multiset<Uid>,        // the users whose wrap lists it, with repetitions
    evicted: bool,               // another connection has pushed it out of a wrap
    early: bool)                 // a close event found no user to leave

  const BORN := Life(Opened, [Opened], "", {}, true, 0, 0, [], 0, 0, [], multiset{}, false, false)

  datatype Action =
    | AuthExchange(u: Uid)
    | AuthFile(i: nat)
    | ExpiryExchange
    | PingExchange
    | StoreClosed
    | ExpiryDelete
    | CloseTake
    | CloseReadUser
    | CloseLeave(i: nat)
    | Evicted(u: Uid)

  function Drop<T>(s: seq<T>, i: nat): seq<T>
    requires i < |s|
  {
    s[..i] + s[i + 1..]
  }

  /** One action; an action with nothing to do changes nothing. */
  function Do(l: Life, a: Action): Life {
    match a
    case AuthExchange(u) =>
      if u != "" && l.state == Opened then
        l.(state := Authed, path := l.path + [Authed], authWins := l.authWins + 1, filing := l.filing + [u])
      else l
    case AuthFile(i) =>
      if i < |l.filing| then
        var u := l.filing[i];
        l.(uid := u, bound := l.bound + {u}, wraps := l.wraps + multiset{u}, filing := Drop(l.filing, i))
      else l
    case ExpiryExchange =>
      if l.state == Opened then
        l.(state := Closing, path := l.path + [Closing], expiryWins := l.expiryWins + 1, storing := l.storing + 1)
      else l
    case PingExchange =>
      if l.state == Authed then l.(state := Closing, path := l.path + [Closing], storing := l.storing + 1) else l
    case StoreClosed =>
      if l.storing > 0 then l.(state := Closed, path := l.path + [Closed], storing := l.storing - 1) else l
    case ExpiryDelete =>
      if l.expiryWins > 0 then l.(registered := false) else l
    case CloseTake =>
      if l.registered then l.(registered := false, cleaning := l.cleaning + 1) else l
    case CloseReadUser =>
      if l.cleaning == 0 then l
      else if l.uid == "" then l.(cleaning := l.cleaning - 1, early := true)
      else l.(cleaning := l.cleaning - 1, leaving := l.leaving + [l.uid])
    case CloseLeave(i) =>
      if i < |l.leaving| then
        l.(leaving := Drop(l.leaving, i), wraps := l.wraps - multiset{l.leaving[i]})
      else l
    case Evicted(u) => l.(wraps := l.wraps - multiset{u}, evicted := l.evicted || u in l.wraps)
  }

  function Run(acts: seq<Action>): Life {
    if acts == [] then BORN else Do(Run(acts[..|acts| - 1]), acts[|acts| - 1])
  }

  const AUTHED_PATH := [Opened, Authed, Closing, Closed]
  const EXPIRED_PATH := [Opened, Closing, Closed]

  ghost predicate Inv(l: Life) {
    StatesOk(l) && BindingOk(l) && LeavingOk(l)
  }

  /** The path that leads to a state, with or without an authentication. */
  function PathTo(state: ConnState, authed: bool): seq<ConnState> {
    match state
    case Opened => [Opened]
    case Authed => [Opened, Authed]
    case Closing => if authed then [Opened, Authed, Closing] else [Opened, Closing]
    case Closed => if authed then AUTHED_PATH else EXPIRED_PATH
  }

  ghost predicate StatesOk(l: Life) {
    && l.path == PathTo(l.state, l.authWins == 1)
    && l.authWins + l.expiryWins == (if l.state == Opened then 0 else 1)
    && (l.state == Authed ==> l.authWins == 1)
    && l.storing == (if l.state == Closing then 1 else 0)
  }

  ghost predicate BindingOk(l: Life) {
    && |l.filing| + |l.bound| == l.authWins <= 1
    && "" !in l.filing && l.bound == (if l.uid == "" then {} else {l.uid})
    && (l.wraps == multiset{} || (l.uid != "" && l.wraps == multiset{l.uid}))
  }

  ghost predicate LeavingOk(l: Life) {
    && l.cleaning + |l.leaving| + (if l.early then 1 else 0) <= (if l.registered then 0 else 1)
    && (l.leaving != [] ==> l.uid != "" && l.leaving == [l.uid])
    && (l.evicted ==> l.uid != "")
    && (!l.registered && l.cleaning == 0 && l.leaving == [] && !l.early ==> l.uid != "" || l.expiryWins > 0)
    && (l.wraps == multiset{} <==>
          l.uid == "" || l.evicted ||
          (!l.registered && l.cleaning == 0 && l.leaving == [] && !l.early))
  }

  lemma PathGrows(authed: bool)
    ensures PathTo(Opened, false) + [Authed] == PathTo(Authed, true)
    ensures PathTo(Opened, false) + [Closing] == PathTo(Closing, false)
    ensures PathTo(Authed, true) + [Closing] == PathTo(Closing, true)
    ensures PathTo(Closing, authed) + [Closed] == PathTo(Closed, authed)
  {
  }

  /** The actions that neither win nor store leave the state alone. */
  lemma StateUntouched(l: Life, a: Action)
    requires !a.AuthExchange? && !a.ExpiryExchange? && !a.PingExchange? && !a.StoreClosed?
    ensures var l' := Do(l, a);
            && l'.state == l.state && l'.path == l.path && l'.storing == l.storing
            && l'.authWins == l.authWins && l'.expiryWins == l.expiryWins
  {
  }

  lemma StateMoved(l: Life, a: Action)
    requires StatesOk(l) && (a.AuthExchange? || a.ExpiryExchange? || a.PingExchange? || a.StoreClosed?)
    ensures StatesOk(Do(l, a))
  {
    PathGrows(l.authWins == 1);
  }

  lemma StatesKept(l: Life, a: Action)
    requires StatesOk(l)
    ensures StatesOk(Do(l, a))
  {
    if a.AuthExchange? || a.ExpiryExchange? || a.PingExchange? || a.StoreClosed? {
      StateMoved(l, a);
    } else {
      StateUntouched(l, a);
    }
  }

  lemma FileBindingKept(l: Life, i: nat)
    requires StatesOk(l) && BindingOk(l) && i < |l.filing|
    ensures BindingOk(Do(l, AuthFile(i)))
  {
    var u, l' := l.filing[i], Do(l, AuthFile(i));
    assert u in l.filing && |l.bound| == 0 && l.uid == "";
    assert l'.bound == {u} && l'.filing == [] && l'.wraps == multiset{u};
  }

  lemma WinBindingKept(l: Life, u: Uid)
    requires StatesOk(l) && BindingOk(l)
    ensures BindingOk(Do(l, AuthExchange(u)))
  {
    assert u != "" && l.state == Opened ==> l.filing == [] && Do(l, AuthExchange(u)).filing == [u];
  }

  lemma LeaveBindingKept(l: Life, a: Action)
    requires BindingOk(l) && (a.Evicted? || a.CloseLeave?)
    ensures BindingOk(Do(l, a))
  {
    if a.Evicted? {
      WrapsLose(l.wraps, l.uid, a.u);
    } else if a.i < |l.leaving| {
      WrapsLose(l.wraps, l.uid, l.leaving[a.i]);
    }
  }

  lemma BindingKept(l: Life, a: Action)
    requires StatesOk(l) && BindingOk(l)
    ensures BindingOk(Do(l, a))
  {
    match a
    case AuthExchange(u) => WinBindingKept(l, u);
    case AuthFile(i) =>
      if i < |l.filing| {
        FileBindingKept(l, i);
      }
    case Evicted(_) => LeaveBindingKept(l, a);
    case CloseLeave(_) => LeaveBindingKept(l, a);
    case _ =>
  }

  lemma WrapsLose(wraps: multiset<Uid>, uid: Uid, u: Uid)
    requires wraps == multiset{} || wraps == multiset{uid}
    ensures wraps - multiset{u} == if u == uid then multiset{} else wraps
  {
  }

  lemma FileLeavingKept(l: Life, i: nat)
    requires StatesOk(l) && BindingOk(l) && LeavingOk(l) && i < |l.filing|
    ensures LeavingOk(Do(l, AuthFile(i)))
  {
    assert l.filing[i] in l.filing && |l.bound| == 0;
    assert l.uid == "" && l.wraps == multiset{} && l.filing[i] in Do(l, AuthFile(i)).wraps;
  }

  lemma CloseLeavingKept(l: Life, i: nat)
    requires BindingOk(l) && LeavingOk(l) && i < |l.leaving|
    ensures LeavingOk(Do(l, CloseLeave(i)))
  {
    var l' := Do(l, CloseLeave(i));
    assert l.leaving[i] == l.uid && l'.leaving == [] && l'.wraps == multiset{};
  }

  lemma EvictedLeavingKept(l: Life, u: Uid)
    requires BindingOk(l) && LeavingOk(l)
    ensures LeavingOk(Do(l, Evicted(u)))
  {
    var l' := Do(l, Evicted(u));
    if u in l.wraps {
      assert u == l.uid && l'.wraps == multiset{};
    } else {
      assert l'.wraps == l.wraps;
    }
  }

  lemma LeavingKept(l: Life, a: Action)
    requires StatesOk(l) && BindingOk(l) && LeavingOk(l)
    ensures LeavingOk(Do(l, a))
  {
    match a
    case AuthFile(i) =>
      if i < |l.filing| {
        FileLeavingKept(l, i);
      }
    case CloseLeave(i) =>
      if i < |l.leaving| {
        CloseLeavingKept(l, i);
      }
    case Evicted(u) => EvictedLeavingKept(l, u);
    case _ => assert Do(l, a).wraps == l.wraps && Do(l, a).uid == l.uid && Do(l, a).evicted == l.evicted;
  }

  lemma StepKeeps(l: Life, a: Action)
    requires Inv(l)
    ensures Inv(Do(l, a))
  {
    StatesKept(l, a);
    BindingKept(l, a);
    LeavingKept(l, a);
  }

  lemma {:induction false} RunKeeps(acts: seq<Action>)
    ensures Inv(Run(acts))
  {
    if acts == [] {
      assert Run(acts) == BORN;
      BornOk(BORN);
    } else {
      RunKeeps(acts[..|acts| - 1]);
      StepKeeps(Run(acts[..|acts| - 1]), acts[|acts| - 1]);
    }
  }

  lemma BornOk(l: Life)
    requires l.state == Opened && |l.path| == 1 && l.path[0] == Opened && l.uid == "" && l.bound == {} && l.registered
    requires l.authWins == l.expiryWins == l.storing == l.cleaning == 0 && l.filing == [] && l.leaving == []
    requires l.wraps == multiset{} && !l.evicted && !l.early
    ensures Inv(l) && NothingStranded(l)
  {
    assert l.path == PathTo(Opened, false);
  }

  /** The moves a state may make. */
  predicate Moves(from: ConnState, to: ConnState) {
    match from
    case Opened => to == Authed || to == Closing
    case Authed => to == Closing
    case Closing => to == Closed
    case Closed => false
  }

  /** States only move from Opened to Authed or Closing, from Authed to Closing and from
      Closing to Closed, one state at a time; Authed is on the way exactly when an
      authentication won. */
  lemma {:induction false} StatesOnlyMoveForward(acts: seq<Action>)
    ensures var l := Run(acts);
            && l.path != [] && l.path[0] == Opened && l.path[|l.path| - 1] == l.state
            && (forall i :: 0 < i < |l.path| ==> Moves(l.path[i - 1], l.path[i]))
            && (Authed in l.path <==> l.authWins == 1)
  {
    RunKeeps(acts);
  }

  /** At most one thread ever wins the connection out of Opened: one authentication,
      or one expiry check, never both. */
  lemma {:induction false} AuthAndExpiryNeverBothWin(acts: seq<Action>)
    ensures Run(acts).authWins + Run(acts).expiryWins <= 1
  {
    RunKeeps(acts);
  }

  /** A connection killed by the authentication timeout is in no user's wrap, and no
      authentication is on its way to put it there. */
  lemma {:induction false} ExpiredConnectionsAreInNoWrap(acts: seq<Action>)
    ensures var l := Run(acts);
            l.expiryWins > 0 ==> l.wraps == multiset{} && l.filing == [] && l.bound == {}
  {
    RunKeeps(acts);
  }

  /** It is bound to at most one user in its life and listed at most once, by that
      user's wrap only. */
  lemma {:induction false} BoundToOneUser(acts: seq<Action>)
    ensures var l := Run(acts);
            && |l.bound| <= 1 && (l.wraps == multiset{} || l.wraps == multiset(l.bound))
            && (l.bound != {} ==> l.bound == {l.uid})
  {
    RunKeeps(acts);
  }

  /** The binding never changes once made, whatever runs afterwards. */
  lemma {:induction false} BindingIsForGood(acts: seq<Action>, more: seq<Action>)
    ensures Run(acts).uid != "" ==> Run(acts + more).uid == Run(acts).uid
  {
    if more == [] {
      assert acts + more == acts;
    } else {
      var n := |more| - 1;
      BindingIsForGood(acts, more[..n]);
      var before := acts + more[..n];
      assert acts + more == before + [more[n]];
      RunSnoc(before, more[n]);
      BindingStays(before, more[n]);
    }
  }

  lemma {:induction false} BindingStays(acts: seq<Action>, a: Action)
    ensures Run(acts).uid != "" ==> Do(Run(acts), a).uid == Run(acts).uid
  {
    RunKeeps(acts);
  }

  /** A winning expiry check's deletion and a close event take a connection out of the
      table; nothing else does, and nothing puts it back. */
  lemma TableStep(l: Life, a: Action)
    ensures Do(l, a).registered <==> l.registered && a != CloseTake && !(a == ExpiryDelete && l.expiryWins > 0)
  {
  }

  /** So it is out for good, whatever runs afterwards. */
  lemma {:induction false} TakenOutForGood(acts: seq<Action>, more: seq<Action>)
    requires !Run(acts).registered
    ensures !Run(acts + more).registered
  {
    if more == [] {
      assert acts + more == acts;
    } else {
      var n := |more| - 1;
      TakenOutForGood(acts, more[..n]);
      assert acts + more == acts + more[..n] + [more[n]];
      RunSnoc(acts + more[..n], more[n]);
      TableStep(Run(acts + more[..n]), more[n]);
    }
  }

  // ---- the gap between the exchange and the lock section --------------------------

  /** No thread is between two of its steps. */
  predicate AtRest(l: Life) {
    l.filing == [] && l.storing == 0 && l.cleaning == 0 && l.leaving == []
  }

  /** Where a connection that has left the table may still be listed: only when its
      close event looked for its user before the winning authentication filed it, and
      then always, unless another connection pushed it out. */
  lemma {:induction false} ListedAfterCloseIffReadTooEarly(acts: seq<Action>)
    ensures var l := Run(acts);
            AtRest(l) && !l.registered && !l.evicted ==>
              (l.wraps != multiset{} <==> l.early && l.uid != "")
  {
    RunKeeps(acts);
  }

  lemma RunSnoc(acts: seq<Action>, a: Action)
    ensures Run(acts + [a]) == Do(Run(acts), a)
  {
    assert (acts + [a])[..|acts|] == acts;
  }

  /** It does happen. */
  lemma CloseBeforeFilingStrands(u: Uid) returns (acts: seq<Action>)
    requires u != ""
    ensures AtRest(Run(acts)) && !Run(acts).registered && Run(acts).wraps == multiset{u}
  {
    RunSnoc([], AuthExchange(u));
    acts := [] + [AuthExchange(u)];
    RunSnoc(acts, CloseTake);
    acts := acts + [CloseTake];
    RunSnoc(acts, CloseReadUser);
    acts := acts + [CloseReadUser];
    assert Run(acts).filing == [u];
    RunSnoc(acts, AuthFile(0));
    acts := acts + [AuthFile(0)];
  }

  // ---- methods that run one at a time ------------------------------------------------

  /** The manager's methods, as they reach this connection. */
  datatype Method = Authenticate(u: Uid) | AuthExpiry | PingExpiry | Close | PushedOut(u: Uid)

  /** A method's steps in a row; one that misses the connection in the table has none. */
  function Call(l: Life, m: Method): Life {
    if m.PushedOut? then Do(l, Evicted(m.u))
    else if !l.registered then l
    else match m
      case Authenticate(u) => Do(Do(l, AuthExchange(u)), AuthFile(0))
      case AuthExpiry => Do(Do(Do(l, ExpiryExchange), StoreClosed), ExpiryDelete)
      case PingExpiry => Do(Do(l, PingExchange), StoreClosed)
      case Close => Do(Do(Do(l, CloseTake), CloseReadUser), CloseLeave(0))
      case PushedOut(_) => l
  }

  function Calls(ms: seq<Method>): Life {
    if ms == [] then BORN else Call(Calls(ms[..|ms| - 1]), ms[|ms| - 1])
  }

  lemma CloseInARow(l: Life)
    requires Inv(l) && AtRest(l) && l.registered
    ensures var l' := Do(Do(Do(l, CloseTake), CloseReadUser), CloseLeave(0));
            Inv(l') && AtRest(l') && l'.wraps == multiset{}
  {
    var taken := Do(l, CloseTake);
    StepKeeps(l, CloseTake);
    var seen := Do(taken, CloseReadUser);
    StepKeeps(taken, CloseReadUser);
    assert seen.leaving == if l.uid == "" then [] else [l.uid];
    StepKeeps(seen, CloseLeave(0));
  }

  lemma AuthInARow(l: Life, u: Uid)
    requires Inv(l) && AtRest(l) && l.registered
    ensures var l' := Do(Do(l, AuthExchange(u)), AuthFile(0));
            Inv(l') && AtRest(l') && l'.registered
  {
    StepKeeps(l, AuthExchange(u));
    StepKeeps(Do(l, AuthExchange(u)), AuthFile(0));
  }

  lemma ExpiryInARow(l: Life)
    requires Inv(l) && AtRest(l) && l.registered
    ensures var l' := Do(Do(Do(l, ExpiryExchange), StoreClosed), ExpiryDelete);
            Inv(l') && AtRest(l') && (l'.wraps != multiset{} ==> l'.registered)
    ensures var p := Do(Do(l, PingExchange), StoreClosed);
            Inv(p) && AtRest(p) && p.registered
  {
    StepKeeps(l, ExpiryExchange);
    StepKeeps(Do(l, ExpiryExchange), StoreClosed);
    StepKeeps(Do(Do(l, ExpiryExchange), StoreClosed), ExpiryDelete);
    StepKeeps(l, PingExchange);
    StepKeeps(Do(l, PingExchange), StoreClosed);
  }

  ghost predicate NothingStranded(l: Life) {
    Inv(l) && AtRest(l) && (l.wraps != multiset{} ==> l.registered)
  }

  lemma PushedOutInARow(l: Life, u: Uid)
    requires NothingStranded(l)
    ensures NothingStranded(Do(l, Evicted(u)))
  {
    StepKeeps(l, Evicted(u));
    if l.wraps == multiset{} {
      assert Do(l, Evicted(u)).wraps == multiset{};
    }
  }

  lemma CallKeeps(l: Life, m: Method)
    requires NothingStranded(l)
    ensures NothingStranded(Call(l, m))
  {
    if m.PushedOut? {
      PushedOutInARow(l, m.u);
    } else if l.registered {
      match m
      case Authenticate(u) => AuthInARow(l, u);
      case AuthExpiry => ExpiryInARow(l);
      case PingExpiry => ExpiryInARow(l);
      case Close => CloseInARow(l);
    }
  }

  /** When methods do not interleave, a listed connection is always registered: the
      stranding needs the gap. */
  lemma {:induction false} MethodsInARowStrandNothing(ms: seq<Method>)
    ensures NothingStranded(Calls(ms))
  {
    if ms == [] {
      assert Calls(ms) == BORN;
      BornOk(BORN);
    } else {
      MethodsInARowStrandNothing(ms[..|ms| - 1]);
      CallKeeps(Calls(ms[..|ms| - 1]), ms[|ms| - 1]);
    }
  }
}
