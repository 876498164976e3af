/** What memory lacks of the store, and what is still to bring it, section by section.
    For MsgSeq, for the existence of entries and for browse positions, the exact steps
    that lose something and the exact steps that restore it, whatever else is running
    and whatever fails. */
module ConvArrival {
  import opened ConvValues
  import opened ConvProtocol
  import opened ConvSafety

  // ---- browse positions ------------------------------------------------------

  /** The send has a number and its result will still reach u's entry. */
  predicate Reaches(sd: Send, u: Uid) {
    match sd.phase
    case Publishing(_, _) => u == sd.sender || u in sd.to
    case InFlight(_, _) => u == sd.sender || u in sd.to
    case AckingMebs(_, _, left) => u in left
    case _ => false
  }

  datatype Carrier = BySend(m: MsgId) | ByClear(k: nat)

  /** c is still to write Redis' browse position into u's entry. */
  predicate Brings(s: State, c: Carrier, u: Uid) {
    match c
    case BySend(m) =>
      && m in s.sends && s.sends[m].sender == u && Reaches(s.sends[m], u)
      && s.sends[m].phase.num == StoreBrowse(s, u)
    case ByClear(k) => k in s.clears && s.clears[k] == Clear(u, StoreBrowse(s, u))
  }

  ghost predicate Carried(s: State, u: Uid) {
    exists c :: Brings(s, c, u)
  }

  /** u's entry, if there is one, has Redis' browse position or something is still to
      bring it. */
  ghost predicate BrowseArrives(s: State, u: Uid) {
    u in s.mebs ==> s.mebs[u].browse == StoreBrowse(s, u) || Carried(s, u)
  }

  /** The step costs u's entry Redis' browse position: a clear-unread whose number is
      older than the entry, a load whose snapshot is older than Redis, or a new entry at
      zero, with nothing on its way; or the loss of the one publish or the one answer on its way. */
  ghost predicate LosesBrowse(s: State, a: Action, u: Uid) {
    match a
    case ClearMemory(k) =>
      && u in s.mebs && k in s.clears && s.clears[k].uid == u && s.clears[k].num < s.mebs[u].browse
      && !Carried(s, u)
    case SyncMember(m) =>
      && m in s.sends && s.sends[m].phase.SyncingMebs? && s.sends[m].phase.items != []
      && s.sends[m].phase.items[0] == u && Browse(s.sends[m].phase.snap, u) < StoreBrowse(s, u)
      && !Carried(s, u)
    case UpsertGroup(members) =>
      u in members && u !in s.mebs && StoreBrowse(s, u) > 0 && !Carried(s, u)
    case PublishFail(m) => OnlyBringer(s, BySend(m), u)
    case FlightLost(m) => OnlyBringer(s, BySend(m), u)
    case ClearLost(k) => OnlyBringer(s, ByClear(k), u)
    case _ => false
  }

  /** The entry lags and c is the one thing on its way. */
  ghost predicate OnlyBringer(s: State, c: Carrier, u: Uid) {
    && u in s.mebs && s.mebs[u].browse < StoreBrowse(s, u)
    && Brings(s, c, u) && forall d :: Brings(s, d, u) ==> d == c
  }

  /** The step sets the position right again: the user's own next number, the user's
      next clear-unread, a load with a current snapshot, or a restart. */
  predicate RestoresBrowse(s: State, a: Action, u: Uid) {
    match a
    case Issue(m, _) => m in s.sends && s.sends[m].sender == u
    case ClearRedis(_, v) => v == u
    case SyncMember(m) =>
      && m in s.sends && s.sends[m].phase.SyncingMebs? && s.sends[m].phase.items != []
      && s.sends[m].phase.items[0] == u && Browse(s.sends[m].phase.snap, u) == StoreBrowse(s, u)
    case Restart => true
    case _ => false
  }

  /** Same entry, same position in Redis, same carriers. */
  lemma BrowseSame(s: State, s': State, u: Uid)
    requires u in s.mebs <==> u in s'.mebs
    requires u in s.mebs ==> s'.mebs[u].browse == s.mebs[u].browse
    requires StoreBrowse(s', u) == StoreBrowse(s, u)
    requires forall c :: Brings(s', c, u) <==> Brings(s, c, u)
    ensures BrowseArrives(s', u) <==> BrowseArrives(s, u)
  {
  }

  /** A send that moves keeping whether its result will reach u carries what it did. */
  lemma SendMovedBrowse(s: State, s': State, m: MsgId, u: Uid)
    requires m in s'.sends && s'.sends == s.sends[m := s'.sends[m]]
    requires s'.tree == s.tree && s'.clears == s.clears
    requires u in s.mebs <==> u in s'.mebs
    requires u in s.mebs ==> s'.mebs[u].browse == s.mebs[u].browse
    requires m in s.sends ==> s'.sends[m].sender == s.sends[m].sender
    requires s'.sends[m].sender == u ==> (Reaches(s'.sends[m], u) <==> m in s.sends && Reaches(s.sends[m], u))
    requires m in s.sends && Reaches(s'.sends[m], u) && Reaches(s.sends[m], u) ==>
               s'.sends[m].phase.num == s.sends[m].phase.num
    ensures BrowseArrives(s', u) <==> BrowseArrives(s, u)
  {
    forall c ensures Brings(s', c, u) <==> Brings(s, c, u) {
    }
    BrowseSame(s, s', u);
  }

  lemma LookupBrowse(s: State, m: MsgId, o: LookupOutcome, u: Uid)
    requires Inv(s) && Enabled(s, Lookup(m, o))
    ensures BrowseArrives(DoLookup(s, m, o), u) <==> BrowseArrives(s, u)
  {
    var s' := DoLookup(s, m, o);
    LookupShape(s, m, o);
    LookupForward(s, m, o);
    if Creates(s, m) {
      CreateZeroesNothing(s, m);
    }
    assert StoreBrowse(s', u) == StoreBrowse(s, u);
    BrowseSame(s, s', u);
  }

  lemma IssueBrowse(s: State, m: MsgId, ts: int, u: Uid)
    requires Inv(s) && Enabled(s, Issue(m, ts))
    ensures BrowseArrives(DoIssue(s, m, ts), u) <==> BrowseArrives(s, u) || s.sends[m].sender == u
  {
    var s' := DoIssue(s, m, ts);
    if s.sends[m].sender == u {
      assert Brings(s', BySend(m), u);
    } else {
      BrowseSame(s, s', u);
    }
  }

  lemma ClearRedisBrowse(s: State, k: nat, v: Uid, u: Uid)
    requires Inv(s) && Enabled(s, ClearRedis(k, v))
    ensures BrowseArrives(DoClearRedis(s, k, v), u) <==> BrowseArrives(s, u) || v == u
  {
    var s' := DoClearRedis(s, k, v);
    if v == u {
      assert Brings(s', ByClear(k), u);
    } else {
      BrowseSame(s, s', u);
    }
  }

  lemma ClearMemoryBrowse(s: State, k: nat, u: Uid)
    requires Inv(s) && Enabled(s, ClearMemory(k))
    ensures BrowseArrives(DoClearMemory(s, k), u) <==> BrowseArrives(s, u) && !LosesBrowse(s, ClearMemory(k), u)
  {
    var s' := DoClearMemory(s, k);
    if s.clears[k].uid == u && u in s.mebs {
      assert MebOk(s, u, s.mebs[u]);
      if s.clears[k].num < StoreBrowse(s, u) {
        assert forall c :: Brings(s', c, u) <==> Brings(s, c, u);
        assert Carried(s', u) <==> Carried(s, u);
      } else {
        assert Brings(s, ByClear(k), u);
      }
    } else {
      assert u in s.mebs ==> (forall c :: Brings(s', c, u) <==> Brings(s, c, u));
      if u in s.mebs {
        BrowseSame(s, s', u);
      }
    }
  }

  lemma SyncMemberBrowse(s: State, m: MsgId, u: Uid)
    requires Inv(s) && Enabled(s, SyncMember(m))
    ensures BrowseArrives(DoSyncMember(s, m), u) <==>
            (BrowseArrives(s, u) && !LosesBrowse(s, SyncMember(m), u)) || RestoresBrowse(s, SyncMember(m), u)
  {
    var s', p := DoSyncMember(s, m), s.sends[m].phase;
    assert PhaseOk(s, s.sends[m]);
    assert forall c :: Brings(s', c, u) <==> Brings(s, c, u);
    if p.items != [] && p.items[0] == u {
      assert Browse(p.snap, u) <= Browse(TreeOf(s), u);
      assert Carried(s', u) <==> Carried(s, u);
    } else {
      BrowseSame(s, s', u);
    }
  }

  /** A send's result reaches its own sender's entry. */
  lemma AckSenderBrowse(s: State, m: MsgId, u: Uid)
    requires Inv(s) && Enabled(s, AckMember(m)) && s.sends[m].sender == u && u in s.mebs
    requires s.sends[m].phase.left != [] && s.sends[m].phase.left[0] == u
    ensures BrowseArrives(DoAckMember(s, m), u) <==> BrowseArrives(s, u)
  {
    var s' := DoAckMember(s, m);
    assert PhaseOk(s, s.sends[m]) && MebOk(s, u, s.mebs[u]);
    if s.sends[m].phase.num == StoreBrowse(s, u) {
      assert Brings(s, BySend(m), u);
    } else {
      assert forall c :: Brings(s', c, u) <==> Brings(s, c, u);
      assert Carried(s', u) <==> Carried(s, u);
    }
  }

  lemma AckOtherBrowse(s: State, m: MsgId, u: Uid)
    requires Enabled(s, AckMember(m)) && u in s.mebs
    requires s.sends[m].sender != u || s.sends[m].phase.left == [] || s.sends[m].phase.left[0] != u
    ensures BrowseArrives(DoAckMember(s, m), u) <==> BrowseArrives(s, u)
  {
    var left := s.sends[m].phase.left;
    assert left != [] ==> (forall x :: x in left <==> x == left[0] || x in left[1..]);
    SendMovedBrowse(s, DoAckMember(s, m), m, u);
  }

  lemma AckMemberBrowse(s: State, m: MsgId, u: Uid)
    requires Inv(s) && Enabled(s, AckMember(m))
    ensures BrowseArrives(DoAckMember(s, m), u) <==> BrowseArrives(s, u)
  {
    var sd := s.sends[m];
    if u in s.mebs {
      if sd.sender == u && sd.phase.left != [] && sd.phase.left[0] == u {
        AckSenderBrowse(s, m, u);
      } else {
        AckOtherBrowse(s, m, u);
      }
    }
  }

  lemma UpsertGroupBrowse(s: State, members: seq<Uid>, u: Uid)
    requires Inv(s) && Enabled(s, UpsertGroup(members))
    ensures BrowseArrives(DoUpsertGroup(s, members), u) <==>
            BrowseArrives(s, u) && !LosesBrowse(s, UpsertGroup(members), u)
  {
    var s' := DoUpsertGroup(s, members);
    assert forall c :: Brings(s', c, u) <==> Brings(s, c, u);
    assert Carried(s', u) <==> Carried(s, u);
  }

  lemma LossBrowse(s: State, s': State, m: MsgId, u: Uid)
    requires Inv(s) && m in s.sends && Number(s.sends[m].phase).Some? && s' == At(s, m, Lost(s.sends[m].phase.num))
    ensures BrowseArrives(s', u) <==> BrowseArrives(s, u) && !OnlyBringer(s, BySend(m), u)
  {
    BringerGone(s, s', BySend(m), u);
  }

  lemma AnswerLostBrowse(s: State, k: nat, u: Uid)
    requires Inv(s) && Enabled(s, ClearLost(k))
    ensures BrowseArrives(Step(s, ClearLost(k)), u) <==> BrowseArrives(s, u) && !OnlyBringer(s, ByClear(k), u)
  {
    BringerGone(s, Step(s, ClearLost(k)), ByClear(k), u);
  }

  /** One carrier is gone, and nothing else has changed. */
  lemma BringerGone(s: State, s': State, gone: Carrier, u: Uid)
    requires Inv(s) && s'.mebs == s.mebs && s'.tree == s.tree
    requires forall c :: Brings(s', c, u) <==> Brings(s, c, u) && c != gone
    ensures BrowseArrives(s', u) <==> BrowseArrives(s, u) && !OnlyBringer(s, gone, u)
  {
    assert u in s.mebs ==> MebOk(s, u, s.mebs[u]);
    if c :| Brings(s, c, u) && c != gone {
      assert Brings(s', c, u);
    }
  }

  lemma MovedBrowse(s: State, a: Action, u: Uid)
    requires Enabled(s, a)
    requires a.Arrive? || a.ReadTree? || a.SyncConversation? || a.Abort? || a.PublishOk? || a.AckConversation?
    ensures BrowseArrives(Step(s, a), u) <==> BrowseArrives(s, u)
  {
    SendMovedBrowse(s, Step(s, a), a.m, u);
  }

  lemma EventBrowse(s: State, a: Action, u: Uid)
    requires Enabled(s, a) && (a.Stored? || a.CommitGroup? || a.GroupEventSent?)
    ensures BrowseArrives(Step(s, a), u) <==> BrowseArrives(s, u)
  {
    var s' := Step(s, a);
    assert forall c :: Brings(s', c, u) <==> Brings(s, c, u);
    BrowseSame(s, s', u);
  }

  /** Exactly when a user's position is right or on its way after a step. */
  lemma BrowseStep(s: State, a: Action, u: Uid)
    requires Inv(s) && Enabled(s, a)
    ensures BrowseArrives(Step(s, a), u) <==>
            (BrowseArrives(s, u) && !LosesBrowse(s, a, u)) || RestoresBrowse(s, a, u)
  {
    match a
    case Lookup(m, o) => LookupBrowse(s, m, o, u);
    case Issue(m, ts) => IssueBrowse(s, m, ts, u);
    case ClearRedis(k, v) => ClearRedisBrowse(s, k, v, u);
    case ClearMemory(k) => ClearMemoryBrowse(s, k, u);
    case ClearLost(k) => AnswerLostBrowse(s, k, u);
    case SyncMember(m) => SyncMemberBrowse(s, m, u);
    case AckMember(m) => AckMemberBrowse(s, m, u);
    case UpsertGroup(members) => UpsertGroupBrowse(s, members, u);
    case PublishFail(m) => LossBrowse(s, Step(s, a), m, u);
    case FlightLost(m) => LossBrowse(s, Step(s, a), m, u);
    case Stored(_) => EventBrowse(s, a, u);
    case CommitGroup(_) => EventBrowse(s, a, u);
    case GroupEventSent(_, _) => EventBrowse(s, a, u);
    case Restart =>
    case _ => MovedBrowse(s, a, u);
  }

  // ---- the cached MsgSeq -------------------------------------------------------

  /** The send is still to bring Redis' msg_seq: by its result, or by its load. */
  predicate BringsSeq(s: State, m: MsgId) {
    m in s.sends && match s.sends[m].phase
                    case Publishing(q, _) => q == StoreSeq(s)
                    case InFlight(q, _) => q == StoreSeq(s)
                    case Loading(_) => true
                    case Loaded(_, snap) => snap.msgSeq == StoreSeq(s)
                    case _ => false
  }

  ghost predicate SeqComes(s: State) {
    exists m :: BringsSeq(s, m)
  }

  ghost predicate SeqArrives(s: State) {
    s.mem.Some? ==> s.mem.value.msgSeq == StoreSeq(s) || SeqComes(s)
  }

  ghost predicate OnlySeqBringer(s: State, m: MsgId) {
    && s.mem.Some? && s.mem.value.msgSeq < StoreSeq(s)
    && BringsSeq(s, m) && forall n :: BringsSeq(s, n) ==> n == m
  }

  /** The step costs memory Redis' msg_seq: the one publish or load on its way is lost
      or given up, or a conversation with numbers is cached without a load. */
  ghost predicate LosesSeq(s: State, a: Action) {
    match a
    case PublishFail(m) => OnlySeqBringer(s, m)
    case FlightLost(m) => OnlySeqBringer(s, m)
    case Abort(m) => OnlySeqBringer(s, m)
    case Lookup(_, o) => s.mem.None? && s.kind == Group && s.rows == [] && !o.ReadErr? && StoreSeq(s) > 0
    case UpsertGroup(_) => s.mem.None? && StoreSeq(s) > 0
    case _ => false
  }

  predicate RestoresSeq(a: Action) {
    a.Issue? || a.Restart?
  }

  lemma SeqSame(s: State, s': State)
    requires s.mem.Some? <==> s'.mem.Some?
    requires s.mem.Some? ==> s'.mem.value.msgSeq == s.mem.value.msgSeq
    requires StoreSeq(s') == StoreSeq(s) && forall m :: BringsSeq(s', m) <==> BringsSeq(s, m)
    ensures SeqArrives(s') <==> SeqArrives(s)
  {
  }

  /** Without a cached conversation nothing is on its way. */
  lemma UncachedBringsNothing(s: State)
    requires Inv(s) && s.mem.None?
    ensures forall m :: !BringsSeq(s, m)
  {
    forall m | m in s.sends ensures !BringsSeq(s, m) {
      assert PhaseOk(s, s.sends[m]);
    }
  }

  lemma LookupSeq(s: State, m: MsgId, o: LookupOutcome)
    requires Inv(s) && Enabled(s, Lookup(m, o))
    ensures SeqArrives(DoLookup(s, m, o)) <==> SeqArrives(s) && !LosesSeq(s, Lookup(m, o))
  {
    var s' := DoLookup(s, m, o);
    LookupShape(s, m, o);
    LookupForward(s, m, o);
    if s.mem.Some? {
      assert forall n :: BringsSeq(s', n) <==> BringsSeq(s, n);
      SeqSame(s, s');
    } else {
      UncachedBringsNothing(s);
      if s'.sends[m].phase.Loading? {
        assert BringsSeq(s', m);
      } else {
        assert forall n :: !BringsSeq(s', n);
      }
    }
  }

  lemma ResultSeq(s: State, m: MsgId)
    requires Inv(s) && Enabled(s, AckConversation(m))
    ensures SeqArrives(DoAckConversation(s, m)) <==> SeqArrives(s)
  {
    var s' := DoAckConversation(s, m);
    assert PhaseOk(s, s.sends[m]) && Browse(TreeOf(s), s.sends[m].sender) <= StoreSeq(s);
    if s.sends[m].phase.num == StoreSeq(s) {
      assert BringsSeq(s, m);
    } else {
      assert forall n :: BringsSeq(s', n) <==> BringsSeq(s, n);
    }
  }

  lemma LoadSeq(s: State, m: MsgId)
    requires Inv(s) && Enabled(s, SyncConversation(m))
    ensures SeqArrives(DoSyncConversation(s, m)) <==> SeqArrives(s)
  {
    var s' := DoSyncConversation(s, m);
    assert PhaseOk(s, s.sends[m]);
    if s.sends[m].phase.snap.msgSeq == StoreSeq(s) {
      assert BringsSeq(s, m);
    } else {
      assert forall n :: BringsSeq(s', n) <==> BringsSeq(s, n);
    }
  }

  /** One send stops bringing anything. */
  lemma GoneSeq(s: State, s': State, m: MsgId)
    requires Inv(s) && m in s.sends && m in s'.sends && s' == s.(sends := s.sends[m := s'.sends[m]])
    requires s'.sends[m].phase.Lost? || s'.sends[m].phase.Refused?
    ensures SeqArrives(s') <==> SeqArrives(s) && !OnlySeqBringer(s, m)
  {
    assert forall n :: BringsSeq(s', n) <==> BringsSeq(s, n) && n != m;
    if n :| BringsSeq(s, n) && n != m {
      assert BringsSeq(s', n);
    }
  }

  /** Exactly when MsgSeq is right or on its way after a step. */
  lemma SeqStep(s: State, a: Action)
    requires Inv(s) && Enabled(s, a)
    ensures SeqArrives(Step(s, a)) <==> (SeqArrives(s) && !LosesSeq(s, a)) || RestoresSeq(a)
  {
    var s' := Step(s, a);
    match a
    case Lookup(m, o) => LookupSeq(s, m, o);
    case Issue(m, _) => assert BringsSeq(s', m);
    case AckConversation(m) => ResultSeq(s, m);
    case SyncConversation(m) => LoadSeq(s, m);
    case PublishFail(m) => GoneSeq(s, s', m);
    case FlightLost(m) => GoneSeq(s, s', m);
    case Abort(m) => GoneSeq(s, s', m);
    case UpsertGroup(_) =>
      assert forall n :: BringsSeq(s', n) <==> BringsSeq(s, n);
      if s.mem.None? {
        UncachedBringsNothing(s);
      }
    case Restart =>
    case _ => QuietSeq(s, a);
  }

  lemma QuietSeq(s: State, a: Action)
    requires Enabled(s, a)
    requires a.Arrive? || a.ReadTree? || a.SyncMember? || a.PublishOk? || a.AckMember?
          || a.ClearRedis? || a.ClearMemory? || a.ClearLost? || a.Stored? || a.CommitGroup? || a.GroupEventSent?
    ensures SeqArrives(Step(s, a)) <==> SeqArrives(s)
  {
    if a.Arrive? || a.ReadTree? || a.SyncMember? || a.PublishOk? || a.AckMember? {
      SendMovedSeq(s, Step(s, a), a.m);
    } else {
      assert Step(s, a).sends == s.sends;
      SeqSame(s, Step(s, a));
    }
  }

  lemma SendMovedSeq(s: State, s': State, m: MsgId)
    requires m in s'.sends && s'.sends == s.sends[m := s'.sends[m]]
    requires s'.tree == s.tree && s'.mem == s.mem && (BringsSeq(s', m) <==> BringsSeq(s, m))
    ensures SeqArrives(s') <==> SeqArrives(s)
  {
    forall n ensures BringsSeq(s', n) <==> BringsSeq(s, n) {
    }
    SeqSame(s, s');
  }

  // ---- the entries ---------------------------------------------------------------

  /** The send's load is still to write u's entry. */
  predicate LoadsEntry(s: State, m: MsgId, u: Uid) {
    m in s.sends && match s.sends[m].phase
                    case Loading(items) => u in items
                    case Loaded(items, _) => u in items
                    case SyncingMebs(items, _) => u in items
                    case _ => false
  }

  ghost predicate EntryComes(s: State, u: Uid) {
    exists m :: LoadsEntry(s, m, u)
  }

  /** Once the conversation is cached, every owner of a row has an entry or is about to
      get one. */
  ghost predicate EntryArrives(s: State, u: Uid) {
    s.mem.Some? && u in s.rows ==> u in s.mebs || EntryComes(s, u)
  }

  /** The step leaves u without the entry: the load is given up, or rows are committed
      over a cached conversation. */
  ghost predicate LosesEntry(s: State, a: Action, u: Uid) {
    match a
    case Abort(m) =>
      && s.mem.Some? && u in s.rows && u !in s.mebs
      && LoadsEntry(s, m, u) && forall n :: LoadsEntry(s, n, u) ==> n == m
    case CommitGroup(members) =>
      s.mem.Some? && u in members && u !in s.mebs && !EntryComes(s, u)
    case _ => false
  }

  predicate RestoresEntry(s: State, a: Action, u: Uid) {
    match a
    case SyncMember(m) =>
      && m in s.sends && s.sends[m].phase.SyncingMebs? && s.sends[m].phase.items != []
      && s.sends[m].phase.items[0] == u
    case UpsertGroup(_) => true
    case Restart => true
    case _ => false
  }

  lemma EntrySame(s: State, s': State, u: Uid)
    requires s'.rows == s.rows && (s.mem.Some? <==> s'.mem.Some?) && (u in s'.mebs <==> u in s.mebs)
    requires forall m :: LoadsEntry(s', m, u) <==> LoadsEntry(s, m, u)
    ensures EntryArrives(s', u) <==> EntryArrives(s, u)
  {
  }

  lemma LookupEntry(s: State, m: MsgId, o: LookupOutcome, u: Uid)
    requires Enabled(s, Lookup(m, o))
    ensures EntryArrives(DoLookup(s, m, o), u) <==> EntryArrives(s, u)
  {
    var s' := DoLookup(s, m, o);
    if s.mem.Some? {
      assert forall n :: LoadsEntry(s', n, u) <==> LoadsEntry(s, n, u);
      EntrySame(s, s', u);
    } else if s'.mem.Some? && u in s'.rows {
      assert LoadsEntry(s', m, u);
    }
  }

  lemma AbortEntry(s: State, m: MsgId, u: Uid)
    requires Enabled(s, Abort(m))
    ensures EntryArrives(Step(s, Abort(m)), u) <==> EntryArrives(s, u) && !LosesEntry(s, Abort(m), u)
  {
    var s' := Step(s, Abort(m));
    assert forall n :: LoadsEntry(s', n, u) <==> LoadsEntry(s, n, u) && n != m;
    if n :| LoadsEntry(s, n, u) && n != m {
      assert LoadsEntry(s', n, u);
    }
  }

  lemma SyncMemberEntry(s: State, m: MsgId, u: Uid)
    requires Enabled(s, SyncMember(m))
    ensures EntryArrives(DoSyncMember(s, m), u) <==> EntryArrives(s, u) || RestoresEntry(s, SyncMember(m), u)
  {
    var s', items := DoSyncMember(s, m), s.sends[m].phase.items;
    if items == [] || items[0] != u {
      assert items != [] ==> (forall x :: x in items <==> x == items[0] || x in items[1..]);
      assert forall n :: LoadsEntry(s', n, u) <==> LoadsEntry(s, n, u);
      EntrySame(s, s', u);
    }
  }

  lemma QuietEntry(s: State, a: Action, u: Uid)
    requires Enabled(s, a)
    requires !a.Lookup? && !a.Abort? && !a.SyncMember? && !a.CommitGroup? && !a.UpsertGroup? && !a.Restart?
    ensures EntryArrives(Step(s, a), u) <==> EntryArrives(s, u)
  {
    if a.ClearRedis? || a.ClearMemory? || a.ClearLost? || a.Stored? || a.GroupEventSent? {
      assert Step(s, a).sends == s.sends;
      EntrySame(s, Step(s, a), u);
    } else {
      MovedEntry(s, Step(s, a), a.m, u);
    }
  }

  /** A send that moves within its load, or outside it. */
  lemma MovedEntry(s: State, s': State, m: MsgId, u: Uid)
    requires m in s'.sends && s'.sends == s.sends[m := s'.sends[m]] && s'.rows == s.rows
    requires (s.mem.Some? <==> s'.mem.Some?) && (u in s'.mebs <==> u in s.mebs)
    requires LoadsEntry(s', m, u) <==> LoadsEntry(s, m, u)
    ensures EntryArrives(s', u) <==> EntryArrives(s, u)
  {
    forall n ensures LoadsEntry(s', n, u) <==> LoadsEntry(s, n, u) {
    }
    EntrySame(s, s', u);
  }

  /** Exactly when a row's owner has an entry, or is about to, after a step. */
  lemma EntryStep(s: State, a: Action, u: Uid)
    requires Inv(s) && Enabled(s, a)
    ensures EntryArrives(Step(s, a), u) <==>
            (EntryArrives(s, u) && !LosesEntry(s, a, u)) || RestoresEntry(s, a, u)
  {
    match a
    case Lookup(m, o) => LookupEntry(s, m, o, u);
    case Abort(m) => AbortEntry(s, m, u);
    case SyncMember(m) => SyncMemberEntry(s, m, u);
    case CommitGroup(_) =>
      assert forall n :: LoadsEntry(Step(s, a), n, u) <==> LoadsEntry(s, n, u);
    case UpsertGroup(_) =>
    case Restart =>
    case _ => QuietEntry(s, a, u);
  }
}
