/** One-to-one conversations at rest. When a load runs through, a clear-unread runs
    through, and no publish is lost, the memory copy catches up with Redis as soon as
    every publish result has been processed, in whatever order, whatever runs between
    the sections of a result; and the unread counts are right exactly where the newest
    number was the last to be written, or there is nothing left to read. */
module ConvRest {
  import opened Basics
  import opened ConvValues
  import opened ConvProtocol
  import opened ConvSafety
  import opened ConvTheorems
  import opened ConvArrival
  import opened ConvAgreement
  import opened ConvUnread

  /** What may run between two users a and b: single protocol actions, and two groups
      that run through. */
  datatype Macro =
    | SendFrom(m: MsgId, fromA: bool)      // lookup, and the whole load when there is one
    | ClearUnread(u: Uid)                  // script and memory
    | One(act: Action)

  /** The actions that run on their own: numbering, handing over, each section of a
      publish result, a send given up before its number, a stored message. */
  predicate Single(act: Action) {
    act.Issue? || act.PublishOk? || act.AckConversation? || act.AckMember? || act.Abort? || act.Stored?
  }

  function Arrival(a: Uid, b: Uid, m: MsgId, fromA: bool): Action {
    Arrive(m, if fromA then a else b, [if fromA then b else a])
  }

  /** The protocol actions a group stands for; those a cached conversation does not need
      are not enabled and do nothing. */
  function Script(a: Uid, b: Uid, mac: Macro): seq<Action> {
    match mac
    case SendFrom(m, fromA) =>
      [Arrival(a, b, m, fromA), Lookup(m, Fine), ReadTree(m), SyncConversation(m)]
      + ([SyncMember(m), SyncMember(m)] + [SyncMember(m)])
    case ClearUnread(u) => [ClearRedis(0, u), ClearMemory(0)]
    case One(act) => if Single(act) then [act] else []
  }

  function Trace(a: Uid, b: Uid, macs: seq<Macro>): seq<Action> {
    if macs == [] then [] else Trace(a, b, macs[..|macs| - 1]) + Script(a, b, macs[|macs| - 1])
  }

  function MStep(s: State, a: Uid, b: Uid, mac: Macro): State {
    Run(s, Script(a, b, mac))
  }

  /** A grouped run is one particular interleaving of the protocol. */
  function MRun(s: State, a: Uid, b: Uid, macs: seq<Macro>): State {
    Run(s, Trace(a, b, macs))
  }

  lemma MRunSnoc(s: State, a: Uid, b: Uid, macs: seq<Macro>, mac: Macro)
    ensures MRun(s, a, b, macs + [mac]) == MStep(MRun(s, a, b, macs), a, b, mac)
  {
    assert (macs + [mac])[..|macs|] == macs;
    RunAppend(s, Trace(a, b, macs), Script(a, b, mac));
  }

  /** A server that has just started: nothing cached, nothing running. */
  ghost predicate JustStarted(s: State, a: Uid, b: Uid) {
    && Inv(s) && s.kind == P2p && a != b
    && s.mem.None? && s.mebs == map[] && s.clears == map[]
    && s.rows in {[], [a, b], [b, a]}
    && forall m :: m in s.sends ==> Finished(s.sends[m].phase)
  }

  predicate Finished(p: Phase) {
    p.Acked? || p.Lost? || p.Refused?
  }

  /** No number is on its way to memory. */
  ghost predicate Quiet(s: State) {
    forall m :: m in s.sends ==> !Flying(s.sends[m].phase)
  }

  // ---- the invariant ------------------------------------------------------

  predicate Between(sd: Send, a: Uid, b: Uid) {
    (sd.sender == a && sd.to == [b]) || (sd.sender == b && sd.to == [a])
  }

  /** A running send's number is newer than every lost one, and its result goes to the
      receiver, then to the sender. */
  ghost predicate SendShape(a: Uid, b: Uid, base: nat, sd: Send) {
    if Finished(sd.phase) then sd.phase.Lost? ==> sd.phase.num <= base
    else
      && Between(sd, a, b)
      && (sd.phase.Issuing? || (Flying(sd.phase) && sd.phase.num > base))
      && (sd.phase.AckingMebs? ==> sd.phase.left in {sd.to + [sd.sender], [sd.sender], []})
  }

  ghost predicate CalmShape(s: State, a: Uid, b: Uid, base: nat) {
    && s.kind == P2p && a != b && s.clears == map[] && base <= StoreSeq(s)
    && s.rows in {[], [a, b], [b, a]}
    && (forall m :: m in s.sends ==> SendShape(a, b, base, s.sends[m]))
    && (s.mem.None? ==> s.mebs == map[] && forall m :: m in s.sends ==> Finished(s.sends[m].phase))
    && (s.mem.Some? ==> s.mebs.Keys == {a, b} == s.mem.value.members)
  }

  /** Between two groups everything is in memory or on its way. */
  ghost predicate Calm(s: State, a: Uid, b: Uid, base: nat) {
    Inv(s) && Arrives(s) && CalmShape(s, a, b, base)
  }

  predicate BroughtSeq(s: State, m: MsgId) {
    m in s.sends && (s.sends[m].phase.AckingMebs? || s.sends[m].phase.Acked?)
  }

  /** A result being processed is the only one, and the newest so far. */
  ghost predicate OneByOne(s: State) {
    forall m, n :: m in s.sends && s.sends[m].phase.AckingMebs? && BroughtSeq(s, n) && n != m ==>
      s.sends[n].phase.Acked? && s.sends[n].phase.num < s.sends[m].phase.num
  }

  ghost predicate CountsArrive(s: State) {
    forall u :: UnreadArrives(s, u)
  }

  // ---- the groups, action by action ------------------------------------------

  /** The rest of a load, from the moment the conversation is cached. */
  function LoadThrough(s: State, m: MsgId): State {
    var s1 := Do(Do(s, ReadTree(m)), SyncConversation(m));
    Do(Do(Do(s1, SyncMember(m)), SyncMember(m)), SyncMember(m))
  }

  lemma SendScript(s: State, a: Uid, b: Uid, m: MsgId, fromA: bool)
    ensures MStep(s, a, b, SendFrom(m, fromA)) == LoadThrough(Do(Do(s, Arrival(a, b, m, fromA)), Lookup(m, Fine)), m)
  {
    var arrive := Arrival(a, b, m, fromA);
    RunFour(s, arrive, Lookup(m, Fine), ReadTree(m), SyncConversation(m));
    var s4 := Do(Do(Do(Do(s, arrive), Lookup(m, Fine)), ReadTree(m)), SyncConversation(m));
    RunTwo(s4, SyncMember(m), SyncMember(m));
    RunOne(Do(Do(s4, SyncMember(m)), SyncMember(m)), SyncMember(m));
    RunAppend(s4, [SyncMember(m), SyncMember(m)], [SyncMember(m)]);
    RunAppend(s, [arrive, Lookup(m, Fine), ReadTree(m), SyncConversation(m)],
              [SyncMember(m), SyncMember(m)] + [SyncMember(m)]);
  }

  lemma ClearScript(s: State, a: Uid, b: Uid, u: Uid)
    ensures MStep(s, a, b, ClearUnread(u)) == Do(Do(s, ClearRedis(0, u)), ClearMemory(0))
  {
    RunTwo(s, ClearRedis(0, u), ClearMemory(0));
  }

  lemma OneScript(s: State, a: Uid, b: Uid, act: Action)
    ensures MStep(s, a, b, One(act)) == if Single(act) then Do(s, act) else s
  {
    if Single(act) {
      RunOne(s, act);
    }
  }

  lemma InvDo(s: State, act: Action)
    requires Inv(s)
    ensures Inv(Do(s, act))
  {
    if Enabled(s, act) {
      StepKeeps(s, act);
    }
  }

  // ---- what each group does ------------------------------------------------

  /** A send over a cached conversation only waits for its number. */
  lemma SendCached(s: State, a: Uid, b: Uid, m: MsgId, fromA: bool)
    requires s.kind == P2p && s.mem.Some? && m !in s.sends
    ensures MStep(s, a, b, SendFrom(m, fromA)) == Do(Do(s, Arrival(a, b, m, fromA)), Lookup(m, Fine))
         == s.(sends := s.sends[m := Send(if fromA then a else b, [if fromA then b else a], Issuing)])
  {
    SendScript(s, a, b, m, fromA);
    var sd := Send(if fromA then a else b, [if fromA then b else a], Arrived);
    var s1 := Do(s, Arrival(a, b, m, fromA));
    assert s1.sends[m] == sd;
    var s2 := Do(s1, Lookup(m, Fine));
    assert s2 == s.(sends := s.sends[m := sd.(phase := Issuing)]);
  }

  lemma LoadEffect(s: State, m: MsgId, x: Uid, y: Uid)
    requires m in s.sends && s.sends[m].phase == Loading([x, y]) && x != y
    requires s.kind == P2p && s.mem.Some? && s.mem.value.msgSeq <= StoreSeq(s) && s.mebs == map[]
    ensures var t := TreeOf(s);
            LoadThrough(s, m) == At(s, m, Issuing).(
              mem := Some(s.mem.value.(msgSeq := t.msgSeq, lastActiveTs := t.lastActiveTs)),
              mebs := map[x := LoadMeb(t, x), y := LoadMeb(t, y)])
  {
    var sd, t := s.sends[m], TreeOf(s);
    var s3 := Do(s, ReadTree(m));
    assert s3 == s.(sends := s.sends[m := sd.(phase := Loaded([x, y], t))]);
    var s4 := Do(s3, SyncConversation(m));
    assert s4.sends == s.sends[m := sd.(phase := SyncingMebs([x, y], t))];
    var s5 := Do(s4, SyncMember(m));
    assert [x, y][1..] == [y];
    assert s5.sends == s.sends[m := sd.(phase := SyncingMebs([y], t))];
    var s6 := Do(s5, SyncMember(m));
    assert [y][1..] == [];
    assert s6.sends == s.sends[m := sd.(phase := SyncingMebs([], t))];
    assert s6.mebs == map[x := LoadMeb(t, x), y := LoadMeb(t, y)];
    var s7 := Do(s6, SyncMember(m));
    assert s7.sends == s.sends[m := sd.(phase := Issuing)];
  }

  ghost predicate JustCached(s: State, s': State, m: MsgId, a: Uid, b: Uid) {
    && m in s.sends && s'.rows in {[a, b], [b, a]}
    && s'.sends == s.sends[m := s.sends[m].(phase := Loading(s'.rows))]
    && s'.mem == Some(NewConv({a, b})) && s'.mebs == map[] && s'.kind == s.kind == P2p && s'.clears == s.clears
    && StoreSeq(s') == StoreSeq(s) && forall u :: StoreBrowse(s', u) == StoreBrowse(s, u)
  }

  /** The first lookup after a start caches the conversation over the same store. */
  lemma FirstLookup(s: State, m: MsgId, a: Uid, b: Uid)
    requires Inv(s) && s.kind == P2p && s.mem.None? && a != b && s.mebs == map[]
    requires s.rows in {[], [a, b], [b, a]}
    requires m in s.sends && s.sends[m].phase == Arrived && Between(s.sends[m], a, b)
    ensures JustCached(s, DoLookup(s, m, Fine), m, a, b)
  {
    var sd := s.sends[m];
    assert P2pMembers(sd) == {a, b};
    if s.rows == [] {
      CreateZeroesNothing(s, m);
      assert NewItems(sd) in {[a, b], [b, a]};
    }
  }

  ghost predicate FreshlyLoaded(s: State, s': State, a: Uid, b: Uid) {
    && s'.rows in {[a, b], [b, a]} && s'.kind == s.kind && s'.clears == s.clears
    && s'.mem.Some? && s'.mem.value.members == {a, b} && s'.mem.value.msgSeq == StoreSeq(s) == StoreSeq(s')
    && s'.mebs.Keys == {a, b}
    && (forall u :: StoreBrowse(s', u) == StoreBrowse(s, u))
    && s'.mebs[a] == LoadMeb(TreeOf(s'), a) && s'.mebs[b] == LoadMeb(TreeOf(s'), b)
  }

  lemma LoadsFresh(s: State, s2: State, m: MsgId, a: Uid, b: Uid)
    requires a != b && JustCached(s, s2, m, a, b)
    ensures FreshlyLoaded(s, LoadThrough(s2, m), a, b)
    ensures LoadThrough(s2, m).sends == s.sends[m := s.sends[m].(phase := Issuing)]
  {
    var rows := s2.rows;
    assert rows == [rows[0], rows[1]];
    LoadEffect(s2, m, rows[0], rows[1]);
    FreshFrom(s, s2, LoadThrough(s2, m), m, a, b, rows[0], rows[1]);
  }

  lemma FreshFrom(s: State, s2: State, s': State, m: MsgId, a: Uid, b: Uid, x: Uid, y: Uid)
    requires a != b && JustCached(s, s2, m, a, b) && ((x == a && y == b) || (x == b && y == a))
    requires s'.rows == s2.rows && s'.kind == s2.kind && s'.clears == s2.clears && s'.tree == s2.tree
    requires s'.mem.Some? && s'.mem.value.members == {a, b} && s'.mem.value.msgSeq == StoreSeq(s2)
    requires s'.mebs == map[x := LoadMeb(TreeOf(s2), x), y := LoadMeb(TreeOf(s2), y)]
    ensures FreshlyLoaded(s, s', a, b)
  {
    forall u ensures StoreBrowse(s', u) == StoreBrowse(s, u) {
      assert StoreBrowse(s2, u) == StoreBrowse(s, u);
    }
  }

  /** A send that finds nothing cached looks up and loads. */
  lemma SendLooksUp(s: State, a: Uid, b: Uid, m: MsgId, fromA: bool)
    requires Inv(s) && s.kind == P2p && s.mem.None? && m !in s.sends
    ensures var sd := Send(if fromA then a else b, [if fromA then b else a], Arrived);
            var s1 := s.(sends := s.sends[m := sd]);
            Inv(s1) && MStep(s, a, b, SendFrom(m, fromA)) == LoadThrough(DoLookup(s1, m, Fine), m)
  {
    var sd := Send(if fromA then a else b, [if fromA then b else a], Arrived);
    var arrive := Arrival(a, b, m, fromA);
    SendScript(s, a, b, m, fromA);
    InvDo(s, arrive);
    assert Do(s, arrive) == s.(sends := s.sends[m := sd]);
  }

  lemma LookupLoads(s: State, m: MsgId, a: Uid, b: Uid)
    requires Inv(s) && s.kind == P2p && s.mem.None? && a != b && s.mebs == map[]
    requires s.rows in {[], [a, b], [b, a]}
    requires m in s.sends && s.sends[m].phase == Arrived && Between(s.sends[m], a, b)
    ensures var s' := LoadThrough(DoLookup(s, m, Fine), m);
            FreshlyLoaded(s, s', a, b) && s'.sends == s.sends[m := s.sends[m].(phase := Issuing)]
  {
    FirstLookup(s, m, a, b);
    LoadsFresh(s, DoLookup(s, m, Fine), m, a, b);
  }

  lemma FreshOver(s: State, s1: State, s': State, a: Uid, b: Uid)
    requires FreshlyLoaded(s1, s', a, b) && s1.kind == s.kind && s1.clears == s.clears && s1.tree == s.tree
    ensures FreshlyLoaded(s, s', a, b)
  {
    forall u ensures StoreBrowse(s', u) == StoreBrowse(s, u) {
      assert StoreBrowse(s', u) == StoreBrowse(s1, u);
    }
  }

  /** The first send after a start loads exactly what the store holds. */
  lemma SendLoads(s: State, a: Uid, b: Uid, m: MsgId, fromA: bool)
    requires Inv(s) && s.kind == P2p && s.mem.None? && m !in s.sends && a != b
    requires s.rows in {[], [a, b], [b, a]} && s.mebs == map[]
    ensures var s' := MStep(s, a, b, SendFrom(m, fromA));
            && s'.sends == s.sends[m := Send(if fromA then a else b, [if fromA then b else a], Issuing)]
            && FreshlyLoaded(s, s', a, b)
  {
    var sd := Send(if fromA then a else b, [if fromA then b else a], Arrived);
    var s1 := s.(sends := s.sends[m := sd]);
    SendLooksUp(s, a, b, m, fromA);
    LookupLoads(s1, m, a, b);
    FreshOver(s, s1, MStep(s, a, b, SendFrom(m, fromA)), a, b);
  }

  lemma ClearEffect(s: State, a: Uid, b: Uid, u: Uid)
    requires s.clears == map[] && s.tree.Some?
    ensures MStep(s, a, b, ClearUnread(u)) == s.(
              tree := Some(ClearInTree(s.tree.value, u)),
              mebs := if u in s.mebs then s.mebs[u := Meb(StoreSeq(s), 0)] else s.mebs)
  {
    ClearScript(s, a, b, u);
    var s1 := Do(s, ClearRedis(0, u));
    assert s1.clears == map[0 := Clear(u, StoreSeq(s))];
    assert s1.clears - {0} == map[];
  }

  // ---- what single actions and groups keep ------------------------------------

  /** An action that loses nothing keeps everything there or coming. */
  lemma KeepsWhole(s: State, act: Action)
    requires Inv(s) && Arrives(s) && !(Enabled(s, act) && Loses(s, act))
    ensures Inv(Do(s, act)) && Arrives(Do(s, act))
  {
    InvDo(s, act);
    if Enabled(s, act) {
      ArrivesStep(s, act);
    }
  }

  lemma KeepsCounts(s: State, act: Action)
    requires Inv(s) && CountsArrive(s) && forall u :: !(Enabled(s, act) && LosesUnread(s, act, u))
    ensures CountsArrive(Do(s, act))
  {
    if Enabled(s, act) {
      forall u ensures UnreadArrives(Step(s, act), u) {
        assert !LosesUnread(s, act, u);
        UnreadStep(s, act, u);
      }
    }
  }

  lemma MovedShape(s: State, s': State, a: Uid, b: Uid, base: nat, m: MsgId)
    requires CalmShape(s, a, b, base) && s.mem.Some? && StoreSeq(s) <= StoreSeq(s')
    requires s'.kind == s.kind && s'.clears == s.clears && s'.rows == s.rows
    requires s'.mem.Some? && s'.mem.value.members == s.mem.value.members && s'.mebs.Keys == s.mebs.Keys
    requires m in s'.sends && s'.sends == s.sends[m := s'.sends[m]] && SendShape(a, b, base, s'.sends[m])
    ensures CalmShape(s', a, b, base)
  {
  }

  lemma SingleSend(s: State, a: Uid, b: Uid, base: nat, act: Action)
    requires CalmShape(s, a, b, base) && Single(act) && !act.Stored? && Enabled(s, act)
    ensures s.mem.Some? && SendShape(a, b, base, Step(s, act).sends[act.m])
  {
    var sd := s.sends[act.m];
    assert SendShape(a, b, base, sd);
    assert (sd.to + [sd.sender])[1..] == [sd.sender] && [sd.sender][1..] == [];
  }

  lemma SingleMoves(s: State, act: Action)
    requires Single(act) && !act.Stored? && Enabled(s, act) && s.mem.Some?
    ensures var s' := Step(s, act);
            && s'.kind == s.kind && s'.clears == s.clears && s'.rows == s.rows && StoreSeq(s) <= StoreSeq(s')
            && s'.mem.Some? && s'.mem.value.members == s.mem.value.members && s'.mebs.Keys == s.mebs.Keys
            && act.m in s'.sends && s'.sends == s.sends[act.m := s'.sends[act.m]]
  {
  }

  lemma SingleShape(s: State, a: Uid, b: Uid, base: nat, act: Action)
    requires CalmShape(s, a, b, base) && Single(act) && Enabled(s, act)
    ensures CalmShape(Step(s, act), a, b, base)
  {
    if !act.Stored? {
      SingleSend(s, a, b, base, act);
      SingleMoves(s, act);
      MovedShape(s, Step(s, act), a, b, base, act.m);
    }
  }

  /** The result of a send goes to both entries. */
  lemma SingleLoses(s: State, a: Uid, b: Uid, base: nat, act: Action)
    requires CalmShape(s, a, b, base) && Single(act) && Enabled(s, act)
    ensures !Loses(s, act)
    ensures forall u :: LosesUnread(s, act, u) ==> act.AckMember?
  {
    if act.Abort? || act.Issue? {
      assert SendShape(a, b, base, s.sends[act.m]);
    }
  }

  /** The newest message is on its way unless a result has brought it. */
  lemma NewestFlies(s: State, a: Uid, b: Uid, base: nat, m: MsgId, u: Uid)
    requires Inv(s) && CalmShape(s, a, b, base) && OneByOne(s) && u in {a, b}
    requires m in s.sends && s.sends[m].phase.AckingMebs? && s.sends[m].phase.num < StoreSeq(s)
    ensures NewestComes(s, u)
  {
    var n := s.issued[StoreSeq(s) - 1];
    assert n in s.sends && Number(s.sends[n].phase) == Some(StoreSeq(s));
    assert SendShape(a, b, base, s.sends[n]) && SendShape(a, b, base, s.sends[m]);
    assert !BroughtSeq(s, n);
    assert BringsNewest(s, n, u);
  }

  lemma SingleKeepsCounts(s: State, a: Uid, b: Uid, base: nat, act: Action)
    requires Inv(s) && CalmShape(s, a, b, base) && Single(act) && Enabled(s, act) && OneByOne(s) && CountsArrive(s)
    ensures CountsArrive(Step(s, act))
  {
    forall u ensures !LosesUnread(s, act, u) {
      SingleLoses(s, a, b, base, act);
      if act.AckMember? && LosesUnread(s, act, u) {
        NewestFlies(s, a, b, base, act.m, u);
      }
    }
    KeepsCounts(s, act);
  }

  /** The next result starts when the one before is through, and its number is above
      every number processed before. */
  ghost predicate NextInOrder(s: State, m: MsgId) {
    m in s.sends && s.sends[m].phase.InFlight? ==>
      forall n :: BroughtSeq(s, n) ==> s.sends[n].phase.Acked? && s.sends[n].phase.num < s.sends[m].phase.num
  }

  lemma SingleInOrder(s: State, act: Action)
    requires Single(act) && Enabled(s, act) && OneByOne(s) && (act.AckConversation? ==> NextInOrder(s, act.m))
    ensures OneByOne(Step(s, act))
  {
    if !act.Stored? {
      MovedInOrder(s, Step(s, act), act.m);
    }
  }

  lemma MovedInOrder(s: State, s': State, m: MsgId)
    requires OneByOne(s) && m in s.sends && m in s'.sends && s'.sends == s.sends[m := s'.sends[m]]
    requires BroughtSeq(s, m) ==>
               s.sends[m].phase.AckingMebs? && BroughtSeq(s', m) && s'.sends[m].phase.num == s.sends[m].phase.num
    requires BroughtSeq(s', m) && !BroughtSeq(s, m) ==>
               s.sends[m].phase.InFlight? && s'.sends[m].phase.num == s.sends[m].phase.num && NextInOrder(s, m)
    ensures OneByOne(s')
  {
    forall x, n | x in s'.sends && s'.sends[x].phase.AckingMebs? && BroughtSeq(s', n) && n != x
      ensures s'.sends[n].phase.Acked? && s'.sends[n].phase.num < s'.sends[x].phase.num
    {
      assert n != m ==> BroughtSeq(s, n);
    }
  }

  lemma CalmOne(s: State, a: Uid, b: Uid, base: nat, act: Action)
    requires Calm(s, a, b, base) && Single(act)
    ensures Calm(Do(s, act), a, b, base)
    ensures CountsArrive(s) && OneByOne(s) && (act.AckConversation? ==> NextInOrder(s, act.m)) ==>
              CountsArrive(Do(s, act)) && OneByOne(Do(s, act))
  {
    if Enabled(s, act) {
      SingleLoses(s, a, b, base, act);
      KeepsWhole(s, act);
      SingleShape(s, a, b, base, act);
      if CountsArrive(s) && OneByOne(s) && (act.AckConversation? ==> NextInOrder(s, act.m)) {
        SingleKeepsCounts(s, a, b, base, act);
        SingleInOrder(s, act);
      }
    }
  }

  // ---- a send ------------------------------------------------------------------

  /** A message already known changes nothing. */
  lemma KnownSend(s: State, a: Uid, b: Uid, base: nat, m: MsgId, fromA: bool)
    requires CalmShape(s, a, b, base) && m in s.sends
    ensures MStep(s, a, b, SendFrom(m, fromA)) == s
  {
    SendScript(s, a, b, m, fromA);
    assert SendShape(a, b, base, s.sends[m]);
    PastLoading(s, a, b, m, fromA);
  }

  /** A send past its load takes none of these actions. */
  lemma PastLoading(s: State, a: Uid, b: Uid, m: MsgId, fromA: bool)
    requires m in s.sends
    requires Finished(s.sends[m].phase) || s.sends[m].phase.Issuing? || Flying(s.sends[m].phase)
    ensures Do(s, Arrival(a, b, m, fromA)) == s && Do(s, Lookup(m, Fine)) == s && Do(s, ReadTree(m)) == s
    ensures Do(s, SyncConversation(m)) == s && Do(s, SyncMember(m)) == s
  {
  }

  lemma CachedSend(s: State, a: Uid, b: Uid, base: nat, m: MsgId, fromA: bool)
    requires Calm(s, a, b, base) && s.mem.Some? && m !in s.sends
    ensures var s' := MStep(s, a, b, SendFrom(m, fromA));
            Calm(s', a, b, base) && (CountsArrive(s) && OneByOne(s) ==> CountsArrive(s') && OneByOne(s'))
  {
    SendCached(s, a, b, m, fromA);
    var arrive := Arrival(a, b, m, fromA);
    var s1 := Do(s, arrive);
    KeepsWhole(s, arrive);
    KeepsWhole(s1, Lookup(m, Fine));
    if CountsArrive(s) {
      KeepsCounts(s, arrive);
      KeepsCounts(s1, Lookup(m, Fine));
    }
  }

  lemma LoadedArrives(s: State, s': State, a: Uid, b: Uid)
    requires FreshlyLoaded(s, s', a, b)
    ensures Arrives(s') && CountsArrive(s')
  {
    assert LoadMeb(TreeOf(s'), a).browse == StoreBrowse(s', a) && LoadMeb(TreeOf(s'), b).browse == StoreBrowse(s', b);
    forall u ensures EntryArrives(s', u) && BrowseArrives(s', u) && UnreadArrives(s', u) {
    }
  }

  lemma FirstSend(s: State, a: Uid, b: Uid, base: nat, m: MsgId, fromA: bool)
    requires Calm(s, a, b, base) && s.mem.None? && m !in s.sends
    ensures var s' := MStep(s, a, b, SendFrom(m, fromA));
            Calm(s', a, b, base) && CountsArrive(s') && OneByOne(s')
  {
    SendLoads(s, a, b, m, fromA);
    var s' := MStep(s, a, b, SendFrom(m, fromA));
    RunKeeps(s, Script(a, b, SendFrom(m, fromA)));
    LoadedArrives(s, s', a, b);
  }

  // ---- a clear-unread ------------------------------------------------------------

  /** Redis answers msg_seq, and no entry is ahead of it. */
  lemma ClearLoses(s: State, u: Uid)
    requires Inv(s) && s.clears == map[]
    ensures !Loses(s, ClearRedis(0, u)) && forall v :: !LosesUnread(s, ClearRedis(0, u), v)
    ensures var s1, act := Do(s, ClearRedis(0, u)), ClearMemory(0);
            !(Enabled(s1, act) && Loses(s1, act)) && forall v :: !(Enabled(s1, act) && LosesUnread(s1, act, v))
  {
    if u in s.mebs {
      assert MebOk(s, u, s.mebs[u]) && Browse(TreeOf(s), u) <= StoreSeq(s);
    }
  }

  lemma ClearShape(s: State, a: Uid, b: Uid, base: nat, u: Uid)
    requires CalmShape(s, a, b, base)
    ensures var s' := MStep(s, a, b, ClearUnread(u)); CalmShape(s', a, b, base) && s'.sends == s.sends
  {
    ClearScript(s, a, b, u);
    if s.tree.Some? {
      ClearEffect(s, a, b, u);
    }
  }

  lemma CalmClear(s: State, a: Uid, b: Uid, base: nat, u: Uid)
    requires Calm(s, a, b, base)
    ensures var s' := MStep(s, a, b, ClearUnread(u));
            Calm(s', a, b, base) && (CountsArrive(s) && OneByOne(s) ==> CountsArrive(s') && OneByOne(s'))
  {
    ClearShape(s, a, b, base, u);
    ClearScript(s, a, b, u);
    ClearLoses(s, u);
    var s1 := Do(s, ClearRedis(0, u));
    KeepsWhole(s, ClearRedis(0, u));
    KeepsWhole(s1, ClearMemory(0));
    if CountsArrive(s) {
      KeepsCounts(s, ClearRedis(0, u));
      KeepsCounts(s1, ClearMemory(0));
    }
  }

  ghost predicate StepInOrder(s: State, mac: Macro) {
    mac.One? && mac.act.AckConversation? ==> NextInOrder(s, mac.act.m)
  }

  lemma CalmStep(s: State, a: Uid, b: Uid, base: nat, mac: Macro)
    requires Calm(s, a, b, base)
    ensures Calm(MStep(s, a, b, mac), a, b, base)
    ensures CountsArrive(s) && OneByOne(s) && StepInOrder(s, mac) ==>
              CountsArrive(MStep(s, a, b, mac)) && OneByOne(MStep(s, a, b, mac))
  {
    match mac
    case SendFrom(m, fromA) =>
      if m in s.sends {
        KnownSend(s, a, b, base, m, fromA);
      } else if s.mem.Some? {
        CachedSend(s, a, b, base, m, fromA);
      } else {
        FirstSend(s, a, b, base, m, fromA);
      }
    case ClearUnread(u) => CalmClear(s, a, b, base, u);
    case One(act) =>
      OneScript(s, a, b, act);
      if Single(act) {
        CalmOne(s, a, b, base, act);
      }
  }

  // ---- the theorem ----------------------------------------------------------

  /** Publish results are processed one after the other, in increasing number order. */
  ghost predicate ResultsInOrder(s: State, a: Uid, b: Uid, macs: seq<Macro>) {
    forall i :: 0 <= i < |macs| ==> StepInOrder(MRun(s, a, b, macs[..i]), macs[i])
  }

  lemma StartIsCalm(s: State, a: Uid, b: Uid)
    requires JustStarted(s, a, b)
    ensures Calm(s, a, b, StoreSeq(s)) && CountsArrive(s) && OneByOne(s)
  {
    UncachedArrives(s);
    forall m | m in s.sends && s.sends[m].phase.Lost? ensures s.sends[m].phase.num <= StoreSeq(s) {
      assert Number(s.sends[m].phase).value <= |s.issued|;
    }
  }

  lemma InOrderSnoc(s: State, a: Uid, b: Uid, macs: seq<Macro>, mac: Macro)
    requires ResultsInOrder(s, a, b, macs + [mac])
    ensures ResultsInOrder(s, a, b, macs) && StepInOrder(MRun(s, a, b, macs), mac)
  {
    var all, n := macs + [mac], |macs|;
    forall i | 0 <= i < n ensures StepInOrder(MRun(s, a, b, macs[..i]), macs[i]) {
      assert all[..i] == macs[..i] && all[i] == macs[i];
      assert StepInOrder(MRun(s, a, b, all[..i]), all[i]);
    }
    assert StepInOrder(MRun(s, a, b, all[..n]), all[n]);
    assert all[..n] == macs;
  }

  lemma {:induction false} CalmRun(s: State, a: Uid, b: Uid, macs: seq<Macro>)
    requires JustStarted(s, a, b)
    ensures Calm(MRun(s, a, b, macs), a, b, StoreSeq(s))
    ensures ResultsInOrder(s, a, b, macs) ==> CountsArrive(MRun(s, a, b, macs)) && OneByOne(MRun(s, a, b, macs))
  {
    if macs == [] {
      StartIsCalm(s, a, b);
    } else {
      var shorter, last := macs[..|macs| - 1], macs[|macs| - 1];
      assert macs == shorter + [last];
      CalmRun(s, a, b, shorter);
      MRunSnoc(s, a, b, shorter, last);
      CalmStep(MRun(s, a, b, shorter), a, b, StoreSeq(s), last);
      if ResultsInOrder(s, a, b, macs) {
        InOrderSnoc(s, a, b, shorter, last);
      }
    }
  }

  /** At rest, calm means agreement. */
  lemma CalmAtRest(r: State, a: Uid, b: Uid, base: nat)
    requires Calm(r, a, b, base) && r.mem.Some? && Quiet(r)
    ensures r.mem.value.msgSeq == StoreSeq(r) && r.mebs.Keys == {a, b}
    ensures forall u :: u in {a, b} ==> r.mebs[u].browse == StoreBrowse(r, u)
    ensures CountsArrive(r) ==> forall u :: u in {a, b} ==> r.mebs[u].unread == StoreUnread(TreeOf(r), u)
  {
    assert AtRest(r) by {
      assert forall m :: m in r.sends ==> SendShape(a, b, base, r.sends[m]);
    }
    RestAgrees(r);
    if CountsArrive(r) {
      forall u | u in {a, b} ensures r.mebs[u].unread == StoreUnread(TreeOf(r), u) {
        assert UnreadArrives(r, u);
      }
    }
  }

  /** With every number processed, memory and Redis agree on MsgSeq and on both browse
      positions whatever the order of the results and whatever ran between their
      sections. An unread count is the one recomputed from Redis if and only if its user
      has seen everything or the newest number is the one last written to the entry; so
      it is when the results came one by one in increasing order. */
  lemma {:induction false} CacheEqualsSourceAtRest(s: State, a: Uid, b: Uid, macs: seq<Macro>, r: State)
    requires JustStarted(s, a, b) && r == MRun(s, a, b, macs)
    requires r.mem.Some? && Quiet(r)
    ensures r.mem.value.msgSeq == StoreSeq(r) && r.mebs.Keys == {a, b}
    ensures forall u :: u in {a, b} ==> r.mebs[u].browse == StoreBrowse(r, u)
    ensures forall u :: u in {a, b} ==>
              (r.mebs[u].unread == StoreUnread(TreeOf(r), u) <==>
               StoreBrowse(r, u) == StoreSeq(r) || LastWritten(s, Trace(a, b, macs), u) == StoreSeq(r))
    ensures ResultsInOrder(s, a, b, macs) ==> forall u :: u in {a, b} ==> r.mebs[u].unread == StoreUnread(TreeOf(r), u)
  {
    CalmRun(s, a, b, macs);
    CalmAtRest(r, a, b, StoreSeq(s));
    forall u | u in {a, b}
      ensures r.mebs[u].unread == StoreUnread(TreeOf(r), u) <==>
              StoreBrowse(r, u) == StoreSeq(r) || LastWritten(s, Trace(a, b, macs), u) == StoreSeq(r)
    {
      UnreadRightIff(s, Trace(a, b, macs), r, u);
    }
  }
}
