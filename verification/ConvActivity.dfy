/** LastActiveTs and LastMsgId in memory against Redis. Results and events join them,
    loads overwrite them; only a group's load brings LastMsgId. For both fields, the exact
    steps that leave memory behind Redis or take it ahead, and over whole runs when
    exactly the two agree at rest. */
module ConvActivity {
  import opened Basics
  import opened Traces
  import opened ConvValues
  import opened ConvProtocol
  import opened ConvSafety
  import opened ConvArrival
  import opened ConvAgreement
  import opened ConvNewest

  datatype Field = LastActive | LastId

  /** What the cached conversation shows. */
  function Cached(f: Field, c: Conv): int {
    match f
    case LastActive => c.lastActiveTs
    case LastId => c.lastMsgId
  }

  function InTree(f: Field, t: Tree): int {
    match f
    case LastActive => t.lastActiveTs
    case LastId => t.lastMsgId
  }

  function InRedis(f: Field, s: State): int {
    InTree(f, TreeOf(s))
  }

  /** Loads write the field. */
  predicate Loads(f: Field, s: State) {
    f == LastActive || s.kind == Group
  }

  /** The send is still to bring what Redis has: by its result, or by its load. */
  predicate BringsField(f: Field, s: State, m: MsgId) {
    m in s.sends && match s.sends[m].phase
                    case Publishing(q, _) => q == StoreSeq(s)
                    case InFlight(q, _) => q == StoreSeq(s)
                    case Loading(_) => Loads(f, s)
                    case Loaded(_, snap) => Loads(f, s) && snap.msgSeq == StoreSeq(s)
                    case _ => false
  }

  ghost predicate Comes(f: Field, s: State) {
    exists m :: BringsField(f, s, m)
  }

  ghost predicate OnlyComing(f: Field, s: State, m: MsgId) {
    BringsField(f, s, m) && forall n :: BringsField(f, s, n) ==> n == m
  }

  /** Memory is not behind Redis, or something is still to bring it. */
  ghost predicate NotBehind(f: Field, s: State) {
    s.mem.Some? ==> Cached(f, s.mem.value) >= InRedis(f, s) || Comes(f, s)
  }

  ghost predicate NotAhead(f: Field, s: State) {
    s.mem.Some? ==> Cached(f, s.mem.value) <= InRedis(f, s)
  }

  /** The value a result or an event joins into the cached conversation. */
  function Told(f: Field, s: State, a: Action): Option<int> {
    match a
    case AckConversation(m) =>
      if m in s.sends && s.sends[m].phase.InFlight? then
        Some(if f == LastActive then s.sends[m].phase.ts else m)
      else None
    case Stored(msg) => if f == LastId then Some(msg.id) else None
    case GroupEventSent(id, ts) => Some(if f == LastActive then ts else id)
    case _ => None
  }

  /** A load whose counters are not older than the conversation's writes its own value. */
  predicate Writes(f: Field, s: State, a: Action) {
    && a.SyncConversation? && a.m in s.sends && s.sends[a.m].phase.Loaded? && Loads(f, s)
    && s.mem.Some? && s.mem.value.msgSeq <= s.sends[a.m].phase.snap.msgSeq
  }

  function Written(f: Field, s: State, a: Action): int
    requires Writes(f, s, a)
  {
    InTree(f, s.sends[a.m].phase.snap)
  }

  // ---- behind -----------------------------------------------------------------------

  /** The step leaves memory behind: an older load with nothing newer on its way, the loss
      of the one result or load on its way, or a conversation cached without a load that
      writes the field. */
  ghost predicate FallsBehind(f: Field, s: State, a: Action) {
    match a
    case SyncConversation(_) => Writes(f, s, a) && Written(f, s, a) < InRedis(f, s) && !Comes(f, s)
    case PublishFail(m) => LosesOnly(f, s, m)
    case FlightLost(m) => LosesOnly(f, s, m)
    case Abort(m) => LosesOnly(f, s, m)
    case Lookup(_, o) =>
      && s.mem.None? && !o.ReadErr? && InRedis(f, s) > 0
      && if s.rows != [] then !Loads(f, s) else s.kind == Group
    case UpsertGroup(_) => s.mem.None? && InRedis(f, s) > 0
    case _ => false
  }

  ghost predicate LosesOnly(f: Field, s: State, m: MsgId) {
    s.mem.Some? && Cached(f, s.mem.value) < InRedis(f, s) && OnlyComing(f, s, m)
  }

  predicate CatchesUp(f: Field, s: State, a: Action) {
    match a
    case Issue(_, _) => true
    case Restart => true
    case SyncConversation(_) => Writes(f, s, a) && Written(f, s, a) >= InRedis(f, s)
    case _ => s.mem.Some? && Told(f, s, a).Some? && Told(f, s, a).value >= InRedis(f, s)
  }

  lemma BehindSame(f: Field, s: State, s': State)
    requires s.mem.Some? <==> s'.mem.Some?
    requires s.mem.Some? ==> Cached(f, s'.mem.value) == Cached(f, s.mem.value)
    requires InRedis(f, s') == InRedis(f, s) && forall m :: BringsField(f, s', m) <==> BringsField(f, s, m)
    ensures NotBehind(f, s') <==> NotBehind(f, s)
  {
  }

  lemma UncachedComesNothing(f: Field, s: State)
    requires Inv(s) && s.mem.None?
    ensures !Comes(f, s)
  {
    forall m | m in s.sends ensures !BringsField(f, s, m) {
      assert PhaseOk(s, s.sends[m]);
    }
  }

  lemma LookupBehind(f: Field, s: State, m: MsgId, o: LookupOutcome)
    requires Inv(s) && Current(s) && Enabled(s, Lookup(m, o))
    ensures NotBehind(f, DoLookup(s, m, o)) <==> NotBehind(f, s) && !FallsBehind(f, s, Lookup(m, o))
  {
    if s.mem.Some? {
      CachedLookup(f, s, m, o);
    } else {
      FirstLookup(f, s, m, o);
    }
  }

  lemma CachedLookup(f: Field, s: State, m: MsgId, o: LookupOutcome)
    requires Enabled(s, Lookup(m, o)) && s.mem.Some?
    ensures NotBehind(f, DoLookup(s, m, o)) <==> NotBehind(f, s)
  {
    var s' := DoLookup(s, m, o);
    assert s' == At(s, m, Issuing);
    MovedBehind(f, s, s', m);
  }

  /** A lookup that finds nothing cached. */
  lemma FirstLookup(f: Field, s: State, m: MsgId, o: LookupOutcome)
    requires Inv(s) && Current(s) && Enabled(s, Lookup(m, o)) && s.mem.None?
    ensures NotBehind(f, DoLookup(s, m, o)) <==> !FallsBehind(f, s, Lookup(m, o))
  {
    var s' := DoLookup(s, m, o);
    LookupNewest(s, m, o);
    LookupShape(s, m, o);
    UncachedComesNothing(f, s);
    LookupStarts(f, s, m, o);
    if BringsField(f, s', m) {
    } else {
      assert forall n :: !BringsField(f, s', n);
    }
  }

  /** What a lookup that finds nothing cached caches, and whether a load follows. */
  lemma LookupStarts(f: Field, s: State, m: MsgId, o: LookupOutcome)
    requires Inv(s) && Current(s) && Enabled(s, Lookup(m, o)) && s.mem.None?
    ensures var s' := DoLookup(s, m, o);
            && m in s'.sends && (s'.mem.Some? ==> Cached(f, s'.mem.value) == 0)
            && (FallsBehind(f, s, Lookup(m, o)) <==>
                  s'.mem.Some? && InRedis(f, s) > 0 && !BringsField(f, s', m))
  {
    if Creates(s, m) {
      CreateZeroesNothing(s, m);
    }
  }

  lemma ResultBehind(f: Field, s: State, m: MsgId)
    requires Inv(s) && Current(s) && Enabled(s, AckConversation(m))
    ensures NotBehind(f, DoAckConversation(s, m)) <==> NotBehind(f, s) || CatchesUp(f, s, AckConversation(m))
  {
    var s' := DoAckConversation(s, m);
    assert PhaseOk(s, s.sends[m]) && Carries(s, m);
    if s.sends[m].phase.num == StoreSeq(s) {
      assert BringsField(f, s, m);
    } else {
      assert forall n :: BringsField(f, s', n) <==> BringsField(f, s, n);
    }
  }

  lemma LoadBehind(f: Field, s: State, m: MsgId)
    requires Inv(s) && Current(s) && Enabled(s, SyncConversation(m))
    ensures var a := SyncConversation(m);
            NotBehind(f, DoSyncConversation(s, m)) <==> (NotBehind(f, s) && !FallsBehind(f, s, a)) || CatchesUp(f, s, a)
  {
    var s' := DoSyncConversation(s, m);
    assert PhaseOk(s, s.sends[m]) && Carries(s, m);
    if Loads(f, s) && s.sends[m].phase.snap.msgSeq == StoreSeq(s) {
      assert BringsField(f, s, m);
    } else {
      assert forall n :: BringsField(f, s', n) <==> BringsField(f, s, n);
      assert Comes(f, s') <==> Comes(f, s);
    }
  }

  /** One send stops bringing anything. */
  lemma GoneBehind(f: Field, s: State, s': State, m: MsgId)
    requires m in s.sends && m in s'.sends && s' == s.(sends := s.sends[m := s'.sends[m]])
    requires s'.sends[m].phase.Lost? || s'.sends[m].phase.Refused?
    ensures NotBehind(f, s') <==> NotBehind(f, s) && !LosesOnly(f, s, m)
  {
    assert forall n :: BringsField(f, s', n) <==> BringsField(f, s, n) && n != m;
    if n :| BringsField(f, s, n) && n != m {
      assert BringsField(f, s', n);
    }
  }

  /** Stored messages and the group-created event's result. */
  lemma ToldBehind(f: Field, s: State, a: Action)
    requires Enabled(s, a) && (a.Stored? || a.GroupEventSent?)
    ensures NotBehind(f, Step(s, a)) <==> NotBehind(f, s) || CatchesUp(f, s, a)
  {
    var s' := Step(s, a);
    assert forall n :: BringsField(f, s', n) <==> BringsField(f, s, n);
    assert Comes(f, s') <==> Comes(f, s);
  }

  lemma UpsertBehind(f: Field, s: State, members: seq<Uid>)
    requires Inv(s) && Enabled(s, UpsertGroup(members))
    ensures NotBehind(f, DoUpsertGroup(s, members)) <==> NotBehind(f, s) && !FallsBehind(f, s, UpsertGroup(members))
  {
    var s' := DoUpsertGroup(s, members);
    assert forall n :: BringsField(f, s', n) <==> BringsField(f, s, n);
    if s.mem.None? {
      UncachedComesNothing(f, s);
    } else {
      BehindSame(f, s, s');
    }
  }

  /** A send that moves and brings what it did. */
  lemma MovedBehind(f: Field, s: State, s': State, m: MsgId)
    requires m in s'.sends && s' == s.(sends := s.sends[m := s'.sends[m]], mebs := s'.mebs)
    requires BringsField(f, s', m) <==> BringsField(f, s, m)
    ensures NotBehind(f, s') <==> NotBehind(f, s)
  {
    forall n ensures BringsField(f, s', n) <==> BringsField(f, s, n) {
    }
    BehindSame(f, s, s');
  }

  lemma QuietBehind(f: Field, s: State, a: Action)
    requires Enabled(s, a) && (a.ClearRedis? || a.ClearMemory? || a.ClearLost? || a.CommitGroup?)
    ensures NotBehind(f, Step(s, a)) <==> NotBehind(f, s)
  {
    var s' := Step(s, a);
    assert s'.sends == s.sends && s'.kind == s.kind && StoreSeq(s') == StoreSeq(s);
    assert forall n :: BringsField(f, s', n) <==> BringsField(f, s, n);
    BehindSame(f, s, s');
  }

  /** Exactly when memory is not behind Redis, or about to catch up, after a step. */
  lemma BehindStep(f: Field, s: State, a: Action)
    requires Inv(s) && Current(s) && Enabled(s, a)
    ensures NotBehind(f, Step(s, a)) <==> (NotBehind(f, s) && !FallsBehind(f, s, a)) || CatchesUp(f, s, a)
  {
    var s' := Step(s, a);
    match a
    case Lookup(m, o) => LookupBehind(f, s, m, o);
    case Issue(m, _) => assert BringsField(f, s', m);
    case AckConversation(m) => ResultBehind(f, s, m);
    case SyncConversation(m) => LoadBehind(f, s, m);
    case PublishFail(m) => GoneBehind(f, s, s', m);
    case FlightLost(m) => GoneBehind(f, s, s', m);
    case Abort(m) => GoneBehind(f, s, s', m);
    case Stored(_) => ToldBehind(f, s, a);
    case GroupEventSent(_, _) => ToldBehind(f, s, a);
    case UpsertGroup(members) => UpsertBehind(f, s, members);
    case Restart =>
    case _ => NothingBehind(f, s, a);
  }

  lemma NothingBehind(f: Field, s: State, a: Action)
    requires Enabled(s, a)
    requires a.Arrive? || a.ReadTree? || a.SyncMember? || a.PublishOk? || a.AckMember?
          || a.ClearRedis? || a.ClearMemory? || a.ClearLost? || a.CommitGroup?
    ensures NotBehind(f, Step(s, a)) <==> NotBehind(f, s)
  {
    if a.ClearRedis? || a.ClearMemory? || a.ClearLost? || a.CommitGroup? {
      QuietBehind(f, s, a);
    } else {
      MovedBehind(f, s, Step(s, a), a.m);
    }
  }

  // ---- ahead ------------------------------------------------------------------------

  /** What the number puts into Redis. */
  function Given(f: Field, m: MsgId, ts: int): int {
    match f
    case LastActive => ts
    case LastId => m
  }

  /** The step takes memory ahead of Redis: a number whose value is older than the one
      shown, a result, event or load with a newer one than Redis', or a conversation cached
      over a negative one. */
  predicate GoesAhead(f: Field, s: State, a: Action) {
    match a
    case Issue(m, ts) => s.mem.Some? && Cached(f, s.mem.value) > Given(f, m, ts)
    case SyncConversation(_) => Writes(f, s, a) && Written(f, s, a) > InRedis(f, s)
    case Lookup(_, o) =>
      s.mem.None? && !o.ReadErr? && InRedis(f, s) < 0 && (s.rows != [] || s.kind == Group)
    case UpsertGroup(_) => s.mem.None? && InRedis(f, s) < 0
    case _ => s.mem.Some? && Told(f, s, a).Some? && Told(f, s, a).value > InRedis(f, s)
  }

  predicate IsMet(f: Field, s: State, a: Action) {
    match a
    case Issue(m, ts) => s.mem.Some? ==> Cached(f, s.mem.value) <= Given(f, m, ts)
    case SyncConversation(_) => Writes(f, s, a) && Written(f, s, a) <= InRedis(f, s)
    case Restart => true
    case _ => false
  }

  lemma LookupAhead(f: Field, s: State, m: MsgId, o: LookupOutcome)
    requires Inv(s) && Current(s) && Enabled(s, Lookup(m, o))
    ensures NotAhead(f, DoLookup(s, m, o)) <==> NotAhead(f, s) && !GoesAhead(f, s, Lookup(m, o))
  {
    LookupNewest(s, m, o);
    if Creates(s, m) {
      CreateZeroesNothing(s, m);
    }
  }

  /** Results, loads, stored messages and the group-created event. */
  lemma WrittenAhead(f: Field, s: State, a: Action)
    requires Enabled(s, a) && (a.SyncConversation? || a.AckConversation? || a.Stored? || a.GroupEventSent?)
    ensures NotAhead(f, Step(s, a)) <==> (NotAhead(f, s) && !GoesAhead(f, s, a)) || IsMet(f, s, a)
  {
  }

  lemma QuietAhead(f: Field, s: State, a: Action)
    requires Enabled(s, a) && !a.Lookup? && !a.Issue? && !a.UpsertGroup? && !a.Restart?
    requires !a.SyncConversation? && !a.AckConversation? && !a.Stored? && !a.GroupEventSent?
    ensures NotAhead(f, Step(s, a)) <==> NotAhead(f, s)
  {
    if a.ClearRedis? || a.ClearMemory? || a.ClearLost? || a.CommitGroup? {
    } else {
      assert Step(s, a).mem == s.mem && Step(s, a).tree == s.tree;
    }
  }

  /** Exactly when memory is not ahead of Redis after a step. */
  lemma AheadStep(f: Field, s: State, a: Action)
    requires Inv(s) && Current(s) && Enabled(s, a)
    ensures NotAhead(f, Step(s, a)) <==> (NotAhead(f, s) && !GoesAhead(f, s, a)) || IsMet(f, s, a)
  {
    match a
    case Lookup(m, o) => LookupAhead(f, s, m, o);
    case Issue(_, _) =>
    case SyncConversation(_) => WrittenAhead(f, s, a);
    case AckConversation(_) => WrittenAhead(f, s, a);
    case Stored(_) => WrittenAhead(f, s, a);
    case GroupEventSent(_, _) => WrittenAhead(f, s, a);
    case UpsertGroup(_) =>
    case Restart =>
    case _ => QuietAhead(f, s, a);
  }

  // ---- over runs, and at rest ----------------------------------------------------------

  ghost predicate BehindMadeGood(f: Field, s: State, acts: seq<Action>) {
    MadeGood(s, acts, (x, a) => FallsBehind(f, x, a), (x, a) => CatchesUp(f, x, a))
  }

  ghost predicate AheadMadeGood(f: Field, s: State, acts: seq<Action>) {
    MadeGood(s, acts, (x, a) => GoesAhead(f, x, a), (x, a) => IsMet(f, x, a))
  }

  lemma {:induction false} HoldsIffCurrent(s: State, acts: seq<Action>, holds: State -> bool,
                                           loses: (State, Action) -> bool, restores: (State, Action) -> bool)
    requires Inv(s) && Current(s) && holds(s)
    requires forall x, a :: !(loses(x, a) && restores(x, a))
    requires forall x, a :: Inv(x) && Current(x) && Enabled(x, a) ==>
               (holds(Step(x, a)) <==> (holds(x) && !loses(x, a)) || restores(x, a))
    ensures holds(Run(s, acts)) <==> MadeGood(s, acts, loses, restores)
  {
    var path := Path(s, acts);
    PathEnds(s, acts);
    forall k | 0 <= k < |acts|
      ensures var x, a := path[k], acts[k];
              holds(path[k + 1]) <==>
              (holds(x) && !(Enabled(x, a) && loses(x, a))) || (Enabled(x, a) && restores(x, a))
    {
      PathStep(s, acts, k);
      CurrentRun(s, acts[..k]);
    }
    HoldsIffRenewed(path, acts, holds, (x, a) => Enabled(x, a) && loses(x, a),
                    (x, a) => Enabled(x, a) && restores(x, a));
  }

  lemma {:induction false} BehindIffRenewed(f: Field, s: State, acts: seq<Action>)
    requires Inv(s) && Current(s) && NotBehind(f, s)
    ensures NotBehind(f, Run(s, acts)) <==> BehindMadeGood(f, s, acts)
  {
    forall x, a | Inv(x) && Current(x) && Enabled(x, a)
      ensures NotBehind(f, Step(x, a)) <==> (NotBehind(f, x) && !FallsBehind(f, x, a)) || CatchesUp(f, x, a)
    {
      BehindStep(f, x, a);
    }
    HoldsIffCurrent(s, acts, x => NotBehind(f, x), (x, a) => FallsBehind(f, x, a), (x, a) => CatchesUp(f, x, a));
  }

  lemma {:induction false} AheadIffRenewed(f: Field, s: State, acts: seq<Action>)
    requires Inv(s) && Current(s) && NotAhead(f, s)
    ensures NotAhead(f, Run(s, acts)) <==> AheadMadeGood(f, s, acts)
  {
    forall x, a | Inv(x) && Current(x) && Enabled(x, a)
      ensures NotAhead(f, Step(x, a)) <==> (NotAhead(f, x) && !GoesAhead(f, x, a)) || IsMet(f, x, a)
    {
      AheadStep(f, x, a);
    }
    HoldsIffCurrent(s, acts, x => NotAhead(f, x), (x, a) => GoesAhead(f, x, a), (x, a) => IsMet(f, x, a));
  }

  /** The cached conversation shows Redis' time of last activity and id of the newest
      message. */
  ghost predicate FieldAgrees(f: Field, s: State) {
    s.mem.Some? ==> Cached(f, s.mem.value) == InRedis(f, s)
  }

  lemma RestShows(f: Field, r: State)
    requires AtRest(r)
    ensures FieldAgrees(f, r) <==> NotBehind(f, r) && NotAhead(f, r)
  {
    assert forall m :: !BringsField(f, r, m);
  }

  /** After any run of any interleaving, at rest: the cached LastActiveTs is Redis'
      last_active_ts, and the cached LastMsgId Redis' last_msg_id, if and only if each step
      that left it behind, and each that took it ahead, was made good by a later one. */
  lemma {:induction false} FieldAgreesAtRestIff(f: Field, s: State, acts: seq<Action>, r: State)
    requires Inv(s) && Current(s) && NotBehind(f, s) && NotAhead(f, s) && r == Run(s, acts) && AtRest(r)
    ensures FieldAgrees(f, r) <==> BehindMadeGood(f, s, acts) && AheadMadeGood(f, s, acts)
  {
    BehindIffRenewed(f, s, acts);
    AheadIffRenewed(f, s, acts);
    RestShows(f, r);
  }

  /** All that memory shows of Redis: the numbers, the entries, the positions and the two
      fields. */
  ghost predicate AgreesFully(s: State) {
    Agrees(s) && forall f :: FieldAgrees(f, s)
  }

  /** An empty system, or a server that has just started over any store that a run left. */
  lemma UncachedShowsNothing(f: Field, s: State)
    requires s.mem.None?
    ensures NotBehind(f, s) && NotAhead(f, s)
  {
  }

  /** After any run from a server that has just started: at rest memory agrees with Redis
      on everything it shows of it if and only if everything a step cost was made good. */
  lemma {:induction false} AgreesFullyAtRestIff(s: State, acts: seq<Action>, r: State)
    requires Inv(s) && Current(s) && s.mem.None? && r == Run(s, acts) && AtRest(r)
    ensures AgreesFully(r) <==>
            && SeqRenewed(s, acts) && (forall u :: EntryRenewed(s, acts, u) && BrowseRenewed(s, acts, u))
            && forall f :: BehindMadeGood(f, s, acts) && AheadMadeGood(f, s, acts)
  {
    UncachedArrives(s);
    AgreesAtRestIff(s, acts, r);
    forall f ensures FieldAgrees(f, r) <==> BehindMadeGood(f, s, acts) && AheadMadeGood(f, s, acts) {
      UncachedShowsNothing(f, s);
      FieldAgreesAtRestIff(f, s, acts, r);
    }
  }

  // ---- what one load brings --------------------------------------------------------------

  lemma LoadSteps(s: State, m: MsgId)
    requires s.mem.None? && s.rows != [] && m in s.sends && s.sends[m].phase == Arrived
    ensures var r := Do(Do(Do(s, Lookup(m, Fine)), ReadTree(m)), SyncConversation(m));
            && r.tree == s.tree && r.mem.Some?
            && r.mem.value.msgSeq == StoreSeq(s) && r.mem.value.lastActiveTs == TreeOf(s).lastActiveTs
            && r.mem.value.lastMsgId == if s.kind == Group then TreeOf(s).lastMsgId else 0
  {
    var s1 := DoLookup(s, m, Fine);
    assert s1 == Do(s, Lookup(m, Fine)) && s1.sends[m].phase == Loading(s.rows);
    var s2 := Do(s1, ReadTree(m));
    assert s2.sends[m].phase == Loaded(s.rows, TreeOf(s)) && s2.mem == s1.mem;
  }

  /** Over any store that has rows, a load by itself shows Redis' msg_seq and time of last
      activity, and only a group's shows the id of the newest message: a one-to-one chat
      shows zero until a result or an event. */
  lemma LoadShows(s: State, m: MsgId)
    requires s.mem.None? && s.rows != [] && m in s.sends && s.sends[m].phase == Arrived
    ensures var r := Run(s, [Lookup(m, Fine), ReadTree(m), SyncConversation(m)]);
            && r.mem.Some? && r.mem.value.msgSeq == StoreSeq(r)
            && FieldAgrees(LastActive, r) && (s.kind == Group ==> FieldAgrees(LastId, r))
            && (s.kind == P2p ==> r.mem.value.lastMsgId == 0)
  {
    LoadSteps(s, m);
    var read, load := [Lookup(m, Fine), ReadTree(m)], [Lookup(m, Fine), ReadTree(m), SyncConversation(m)];
    RunTwo(s, Lookup(m, Fine), ReadTree(m));
    RunSnoc(s, read, SyncConversation(m));
    assert read + [SyncConversation(m)] == load;
  }
}
