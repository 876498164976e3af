/** What every step of the conversation protocol keeps, and what therefore holds
    over every interleaving. */
module ConvSafety {
  import opened Basics
  import opened ConvValues
  import opened ConvProtocol

  ghost predicate Behind(a: Tree, b: Tree) {
    a.msgSeq <= b.msgSeq && forall u :: Browse(a, u) <= Browse(b, u)
  }

  ghost predicate TreeInv(s: State) {
    forall u :: Browse(TreeOf(s), u) <= TreeOf(s).msgSeq
  }

  /** Numbers and messages match one to one. */
  ghost predicate LedgerInv(s: State) {
    && StoreSeq(s) == |s.issued|
    && (forall k :: 0 <= k < |s.issued| ==>
          s.issued[k] in s.sends && Number(s.sends[s.issued[k]].phase) == Some(k + 1))
    && (forall m :: m in s.sends && Number(s.sends[m].phase).Some? ==>
          var q := Number(s.sends[m].phase).value;
          1 <= q <= |s.issued| && s.issued[q - 1] == m)
  }

  ghost predicate MemInv(s: State) {
    s.mem.Some? ==> 0 <= s.mem.value.msgSeq <= StoreSeq(s)
  }

  ghost predicate MebOk(s: State, u: Uid, m: Meb) {
    && s.mem.Some?
    && 0 <= m.browse <= StoreBrowse(s, u)
    && UnreadBounded(m, s.mem.value.msgSeq)
  }

  ghost predicate MebInv(s: State) {
    forall u :: u in s.mebs ==> MebOk(s, u, s.mebs[u])
  }

  ghost predicate PhaseOk(s: State, sd: Send) {
    match sd.phase
    case Loading(_) => s.mem.Some?
    case Loaded(_, snap) => s.mem.Some? && Behind(snap, TreeOf(s))
    case SyncingMebs(_, snap) => s.mem.Some? && Behind(snap, TreeOf(s)) && snap.msgSeq <= s.mem.value.msgSeq
    case Issuing => s.mem.Some?
    case Publishing(q, _) => s.mem.Some? && q <= StoreBrowse(s, sd.sender)
    case InFlight(q, _) => s.mem.Some? && q <= StoreBrowse(s, sd.sender)
    case AckingMebs(q, _, _) => s.mem.Some? && q <= StoreBrowse(s, sd.sender) && q <= s.mem.value.msgSeq
    case _ => true
  }

  ghost predicate SendInv(s: State) {
    forall m :: m in s.sends ==> PhaseOk(s, s.sends[m])
  }

  ghost predicate ClearInv(s: State) {
    forall k :: k in s.clears ==> s.clears[k].num <= StoreBrowse(s, s.clears[k].uid)
  }

  /** A one-to-one conversation that is cached or has issued numbers has rows. */
  ghost predicate RowInv(s: State) {
    s.kind == P2p ==> (s.issued != [] || s.mem.Some? ==> s.rows != [])
  }

  ghost predicate KeptInv(s: State) {
    s.mem.Some? ==> s.mem.value.recent == LastN(s.kept, s.cap)
  }

  ghost predicate Inv(s: State) {
    TreeInv(s) && LedgerInv(s) && MemInv(s) && MebInv(s) && SendInv(s) && ClearInv(s) && RowInv(s) && KeptInv(s)
  }

  /** Nothing the store or the cached conversation counts ever goes back. */
  ghost predicate Forward(s: State, s': State) {
    && Behind(TreeOf(s), TreeOf(s'))
    && (s.mem.Some? ==> s'.mem.Some? && s.mem.value.msgSeq <= s'.mem.value.msgSeq)
    && s.issued <= s'.issued
  }

  lemma PhaseOkForward(s: State, s': State, sd: Send)
    requires PhaseOk(s, sd) && Forward(s, s')
    ensures PhaseOk(s', sd)
  {
    assert StoreBrowse(s, sd.sender) <= StoreBrowse(s', sd.sender);
    if sd.phase.Loaded? || sd.phase.SyncingMebs? {
      forall u ensures Browse(sd.phase.snap, u) <= Browse(TreeOf(s'), u) {
        assert Browse(sd.phase.snap, u) <= Browse(TreeOf(s), u);
      }
    }
  }

  /** A step that changes one send's phase and moves the rest only forward. */
  lemma SendInvForward(s: State, s': State, m: MsgId)
    requires SendInv(s) && Forward(s, s')
    requires m in s'.sends && PhaseOk(s', s'.sends[m])
    requires forall n :: n in s'.sends && n != m ==> n in s.sends && s.sends[n] == s'.sends[n]
    ensures SendInv(s')
  {
    forall n | n in s'.sends ensures PhaseOk(s', s'.sends[n]) {
      if n != m {
        PhaseOkForward(s, s', s.sends[n]);
      }
    }
  }

  lemma SendInvSame(s: State, s': State)
    requires SendInv(s) && Forward(s, s') && s'.sends == s.sends
    ensures SendInv(s')
  {
    forall n | n in s'.sends ensures PhaseOk(s', s'.sends[n]) {
      PhaseOkForward(s, s', s.sends[n]);
    }
  }

  lemma MebInvForward(s: State, s': State)
    requires MebInv(s) && Forward(s, s') && s'.mebs == s.mebs
    ensures MebInv(s')
  {
    forall u | u in s'.mebs ensures MebOk(s', u, s'.mebs[u]) {
      assert MebOk(s, u, s.mebs[u]);
      assert StoreBrowse(s, u) <= StoreBrowse(s', u);
    }
  }

  lemma ClearInvForward(s: State, s': State)
    requires ClearInv(s) && Forward(s, s') && s'.clears == s.clears
    ensures ClearInv(s')
  {
    forall k | k in s'.clears ensures s'.clears[k].num <= StoreBrowse(s', s'.clears[k].uid) {
      assert StoreBrowse(s, s.clears[k].uid) <= StoreBrowse(s', s.clears[k].uid);
    }
  }

  /** The ledger only looks at numbers. */
  lemma LedgerSameNumbers(s: State, s': State, m: MsgId)
    requires LedgerInv(s) && s'.issued == s.issued && StoreSeq(s') == StoreSeq(s)
    requires m in s.sends && m in s'.sends && Number(s.sends[m].phase) == Number(s'.sends[m].phase)
    requires s'.sends.Keys == s.sends.Keys
    requires forall n :: n in s.sends && n != m ==> s.sends[n] == s'.sends[n]
    ensures LedgerInv(s')
  {
    forall k | 0 <= k < |s'.issued|
      ensures s'.issued[k] in s'.sends && Number(s'.sends[s'.issued[k]].phase) == Some(k + 1)
    {
      assert s.issued[k] in s.sends && Number(s.sends[s.issued[k]].phase) == Some(k + 1);
    }
  }

  /** Creating the conversation zeroes a tree that has never issued a number. */
  lemma CreateZeroesNothing(s: State, m: MsgId)
    requires Inv(s) && Creates(s, m)
    ensures StoreSeq(s) == 0
    ensures var t := ZeroInto(TreeOf(s), NewItems(s.sends[m]));
            t.msgSeq == 0 && forall u :: Browse(t, u) == 0 == Browse(TreeOf(s), u)
  {
    var t := ZeroInto(TreeOf(s), NewItems(s.sends[m]));
    forall u ensures Browse(t, u) == 0 == Browse(TreeOf(s), u) {
      assert Browse(TreeOf(s), u) <= TreeOf(s).msgSeq;
    }
  }

  /** A lookup moves the send, and either leaves the rest alone, caches the
      conversation over a store it does not touch, or zeroes an unused tree. */
  lemma LookupForward(s: State, m: MsgId, o: LookupOutcome)
    requires Inv(s) && Enabled(s, Lookup(m, o))
    ensures Forward(s, DoLookup(s, m, o))
    ensures StoreSeq(DoLookup(s, m, o)) == StoreSeq(s)
    ensures TreeInv(DoLookup(s, m, o)) && MemInv(DoLookup(s, m, o)) && RowInv(DoLookup(s, m, o))
    ensures KeptInv(DoLookup(s, m, o))
  {
    if Creates(s, m) {
      CreateZeroesNothing(s, m);
    }
  }

  lemma LookupShape(s: State, m: MsgId, o: LookupOutcome)
    requires Inv(s) && Enabled(s, Lookup(m, o))
    ensures var s' := DoLookup(s, m, o);
            && m in s'.sends && s'.sends == s.sends[m := s'.sends[m]] && PhaseOk(s', s'.sends[m])
            && Number(s'.sends[m].phase).None?
            && s'.mebs == s.mebs && s'.issued == s.issued && s'.clears == s.clears
  {
    LookupPhase(s, m, o);
  }

  /** A lookup ends refused, before its number, or about to load what is cached. */
  lemma LookupPhase(s: State, m: MsgId, o: LookupOutcome)
    requires Enabled(s, Lookup(m, o))
    ensures var s' := DoLookup(s, m, o);
            && m in s'.sends && Number(s'.sends[m].phase).None? && PhaseOk(s', s'.sends[m])
  {
  }

  lemma LookupKeeps(s: State, m: MsgId, o: LookupOutcome)
    requires Inv(s) && Enabled(s, Lookup(m, o))
    ensures Inv(DoLookup(s, m, o)) && Forward(s, DoLookup(s, m, o))
  {
    LookupForward(s, m, o);
    LookupShape(s, m, o);
    LookedUpKeeps(s, DoLookup(s, m, o), m);
  }

  lemma LookedUpKeeps(s: State, s': State, m: MsgId)
    requires Inv(s) && Forward(s, s') && m in s.sends && s.sends[m].phase == Arrived
    requires m in s'.sends && s'.sends == s.sends[m := s'.sends[m]] && PhaseOk(s', s'.sends[m])
    requires Number(s'.sends[m].phase).None? && StoreSeq(s') == StoreSeq(s)
    requires s'.mebs == s.mebs && s'.issued == s.issued && s'.clears == s.clears
    requires TreeInv(s') && MemInv(s') && RowInv(s') && KeptInv(s')
    ensures Inv(s')
  {
    SendInvForward(s, s', m);
    LedgerSameNumbers(s, s', m);
    MebInvForward(s, s');
    ClearInvForward(s, s');
  }

  lemma SyncConversationKeeps(s: State, m: MsgId)
    requires Inv(s) && Enabled(s, SyncConversation(m))
    ensures Inv(DoSyncConversation(s, m)) && Forward(s, DoSyncConversation(s, m))
  {
    var s' := DoSyncConversation(s, m);
    assert PhaseOk(s, s.sends[m]);
    SendInvForward(s, s', m);
  }

  lemma SyncMemberKeeps(s: State, m: MsgId)
    requires Inv(s) && Enabled(s, SyncMember(m))
    ensures Inv(DoSyncMember(s, m)) && Forward(s, DoSyncMember(s, m))
  {
    var s' := DoSyncMember(s, m);
    var p := s.sends[m].phase;
    assert PhaseOk(s, s.sends[m]);
    SendInvForward(s, s', m);
    LedgerSameNumbers(s, s', m);
    forall u | u in s'.mebs ensures MebOk(s', u, s'.mebs[u]) {
      if p.items != [] && u == p.items[0] {
        assert Browse(p.snap, u) <= Browse(TreeOf(s), u);
      } else {
        assert MebOk(s, u, s.mebs[u]);
      }
    }
  }

  lemma IssueForward(s: State, m: MsgId, ts: int)
    requires Inv(s) && Enabled(s, Issue(m, ts))
    ensures var s' := DoIssue(s, m, ts);
            Forward(s, s') && TreeInv(s') && MemInv(s') && PhaseOk(s', s'.sends[m])
  {
    var s' := DoIssue(s, m, ts);
    assert PhaseOk(s, s.sends[m]);
    forall u ensures Browse(TreeOf(s), u) <= Browse(TreeOf(s'), u) <= TreeOf(s').msgSeq {
      assert Browse(TreeOf(s), u) <= TreeOf(s).msgSeq;
    }
  }

  lemma IssueLedger(s: State, m: MsgId, ts: int)
    requires Inv(s) && Enabled(s, Issue(m, ts))
    ensures LedgerInv(DoIssue(s, m, ts))
  {
    var s' := DoIssue(s, m, ts);
    forall k | 0 <= k < |s'.issued|
      ensures s'.issued[k] in s'.sends && Number(s'.sends[s'.issued[k]].phase) == Some(k + 1)
    {
      if k < |s.issued| {
        assert s.issued[k] in s.sends && Number(s.sends[s.issued[k]].phase) == Some(k + 1);
      }
    }
  }

  lemma IssueKeeps(s: State, m: MsgId, ts: int)
    requires Inv(s) && Enabled(s, Issue(m, ts))
    ensures Inv(DoIssue(s, m, ts)) && Forward(s, DoIssue(s, m, ts))
  {
    var s' := DoIssue(s, m, ts);
    IssueForward(s, m, ts);
    IssueLedger(s, m, ts);
    SendInvForward(s, s', m);
    MebInvForward(s, s');
    ClearInvForward(s, s');
    assert RowInv(s') by {
      assert PhaseOk(s, s.sends[m]);
    }
  }

  lemma ArriveKeeps(s: State, m: MsgId, sender: Uid, to: seq<Uid>)
    requires Inv(s) && m !in s.sends
    ensures var s' := s.(sends := s.sends[m := Send(sender, to, Arrived)]); Inv(s') && Forward(s, s')
  {
    var s' := s.(sends := s.sends[m := Send(sender, to, Arrived)]);
    SendInvForward(s, s', m);
    MebInvForward(s, s');
    forall k | 0 <= k < |s'.issued|
      ensures s'.issued[k] in s'.sends && Number(s'.sends[s'.issued[k]].phase) == Some(k + 1)
    {
      assert s.issued[k] in s.sends && Number(s.sends[s.issued[k]].phase) == Some(k + 1);
    }
  }

  /** Moving one send to a phase with the same number touches nothing else. */
  lemma PhaseMoveKeeps(s: State, m: MsgId, p: Phase)
    requires Inv(s) && m in s.sends
    requires PhaseOk(s, s.sends[m].(phase := p)) && Number(p) == Number(s.sends[m].phase)
    ensures Inv(At(s, m, p)) && Forward(s, At(s, m, p))
  {
    var s' := At(s, m, p);
    PhaseOkForward(s, s', s'.sends[m]);
    SendInvForward(s, s', m);
    MebInvForward(s, s');
    LedgerSameNumbers(s, s', m);
  }

  /** The steps that only move one send from one phase to the next. */
  lemma PhaseStepKeeps(s: State, a: Action)
    requires Inv(s) && Enabled(s, a)
    requires a.ReadTree? || a.Abort? || a.PublishOk? || a.PublishFail? || a.FlightLost?
    ensures Inv(Step(s, a)) && Forward(s, Step(s, a))
  {
    assert PhaseOk(s, s.sends[a.m]);
    PhaseMoveKeeps(s, a.m, Step(s, a).sends[a.m].phase);
  }

  lemma AckConversationForward(s: State, m: MsgId)
    requires Inv(s) && Enabled(s, AckConversation(m))
    ensures var s' := DoAckConversation(s, m);
            && Forward(s, s') && MemInv(s') && KeptInv(s') && RowInv(s') && PhaseOk(s', s'.sends[m])
            && s'.sends == s.sends[m := s'.sends[m]] && Number(s'.sends[m].phase) == Number(s.sends[m].phase)
            && s'.tree == s.tree && s'.mebs == s.mebs && s'.issued == s.issued && s'.clears == s.clears
  {
    assert PhaseOk(s, s.sends[m]) && Browse(TreeOf(s), s.sends[m].sender) <= StoreSeq(s);
  }

  lemma AckConversationKeeps(s: State, m: MsgId)
    requires Inv(s) && Enabled(s, AckConversation(m))
    ensures Inv(DoAckConversation(s, m)) && Forward(s, DoAckConversation(s, m))
  {
    AckConversationForward(s, m);
    AckedConversationKeeps(s, DoAckConversation(s, m), m);
  }

  lemma AckedConversationKeeps(s: State, s': State, m: MsgId)
    requires Inv(s) && Forward(s, s') && MemInv(s') && KeptInv(s') && RowInv(s')
    requires m in s.sends && m in s'.sends && PhaseOk(s', s'.sends[m])
    requires s'.sends == s.sends[m := s'.sends[m]] && Number(s'.sends[m].phase) == Number(s.sends[m].phase)
    requires s'.tree == s.tree && s'.mebs == s.mebs && s'.issued == s.issued && s'.clears == s.clears
    ensures Inv(s')
  {
    SendInvForward(s, s', m);
    LedgerSameNumbers(s, s', m);
    MebInvForward(s, s');
    ClearInvForward(s, s');
  }

  /** An acked number never lifts an unread count above the unseen range. */
  lemma AckMebOk(s: State, u: Uid, m: Meb, a: Ack)
    requires MebOk(s, u, m) && 0 <= a.num <= s.mem.value.msgSeq && a.num <= StoreBrowse(s, a.sender)
    ensures MebOk(s, u, AckMeb(m, a, u))
  {
  }

  lemma MebInvUpdate(s: State, s': State, v: Uid)
    requires MebInv(s) && s'.mem == s.mem && s'.tree == s.tree
    requires v in s'.mebs && MebOk(s', v, s'.mebs[v])
    requires forall u :: u in s'.mebs && u != v ==> u in s.mebs && s.mebs[u] == s'.mebs[u]
    ensures MebInv(s')
  {
    forall u | u in s'.mebs ensures MebOk(s', u, s'.mebs[u]) {
      if u != v {
        assert MebOk(s, u, s.mebs[u]);
      }
    }
  }

  /** A step that moves one send without touching its number, and rewrites entries. */
  lemma MemberStepKeeps(s: State, s': State, m: MsgId)
    requires Inv(s) && m in s.sends && m in s'.sends
    requires s' == s.(sends := s.sends[m := s'.sends[m]], mebs := s'.mebs)
    requires Number(s'.sends[m].phase) == Number(s.sends[m].phase) && PhaseOk(s', s'.sends[m]) && MebInv(s')
    ensures Inv(s') && Forward(s, s')
  {
    SendInvForward(s, s', m);
    LedgerSameNumbers(s, s', m);
  }

  lemma AckMemberShape(s: State, m: MsgId)
    requires Inv(s) && Enabled(s, AckMember(m))
    ensures var s' := DoAckMember(s, m);
            && s' == s.(sends := s.sends[m := s'.sends[m]], mebs := s'.mebs)
            && Number(s'.sends[m].phase) == Number(s.sends[m].phase) && PhaseOk(s', s'.sends[m])
            && Forward(s, s')
  {
    assert PhaseOk(s, s.sends[m]);
  }

  lemma AckMemberKeeps(s: State, m: MsgId)
    requires Inv(s) && Enabled(s, AckMember(m))
    ensures Inv(DoAckMember(s, m)) && Forward(s, DoAckMember(s, m))
  {
    AckMemberShape(s, m);
    AckedMebInv(s, DoAckMember(s, m), m);
    MemberStepKeeps(s, DoAckMember(s, m), m);
  }

  /** Acknowledging touches at most one entry, and rightly. */
  lemma AckedMebInv(s: State, s': State, m: MsgId)
    requires Inv(s) && Enabled(s, AckMember(m)) && s' == DoAckMember(s, m) && Forward(s, s')
    ensures MebInv(s')
  {
    if s'.mebs == s.mebs {
      MebInvForward(s, s');
    } else {
      var u := s.sends[m].phase.left[0];
      AckMebOk(s, u, s.mebs[u], AckOf(s, m));
      MebInvUpdate(s, s', u);
    }
  }

  lemma ClearRedisForward(s: State, k: nat, u: Uid)
    requires Inv(s) && Enabled(s, ClearRedis(k, u))
    ensures Forward(s, DoClearRedis(s, k, u)) && TreeInv(DoClearRedis(s, k, u))
  {
    var s' := DoClearRedis(s, k, u);
    forall v ensures Browse(TreeOf(s), v) <= Browse(TreeOf(s'), v) <= TreeOf(s').msgSeq {
      assert Browse(TreeOf(s), v) <= TreeOf(s).msgSeq;
    }
  }

  lemma ClearRedisKeeps(s: State, k: nat, u: Uid)
    requires Inv(s) && Enabled(s, ClearRedis(k, u))
    ensures Inv(DoClearRedis(s, k, u)) && Forward(s, DoClearRedis(s, k, u))
  {
    var s' := DoClearRedis(s, k, u);
    ClearRedisForward(s, k, u);
    SendInvSame(s, s');
    MebInvForward(s, s');
    forall n | n in s'.clears ensures s'.clears[n].num <= StoreBrowse(s', s'.clears[n].uid) {
      if n != k {
        assert StoreBrowse(s, s.clears[n].uid) <= StoreBrowse(s', s.clears[n].uid);
      }
    }
  }

  lemma ClearMemoryKeeps(s: State, k: nat)
    requires Inv(s) && Enabled(s, ClearMemory(k))
    ensures Inv(DoClearMemory(s, k)) && Forward(s, DoClearMemory(s, k))
  {
    var s' := DoClearMemory(s, k);
    SendInvSame(s, s');
    forall v | v in s'.mebs ensures MebOk(s', v, s'.mebs[v]) {
      assert MebOk(s, v, s.mebs[v]);
    }
  }

  lemma ClearLostKeeps(s: State, k: nat)
    requires Inv(s) && Enabled(s, ClearLost(k))
    ensures Inv(Step(s, ClearLost(k))) && Forward(s, Step(s, ClearLost(k)))
  {
    var s' := Step(s, ClearLost(k));
    SendInvSame(s, s');
    MebInvForward(s, s');
  }

  /** Stored messages and group events touch only the cached conversation. */
  lemma EventKeeps(s: State, a: Action)
    requires Inv(s) && (a.Stored? || a.GroupEventSent?)
    ensures Inv(Step(s, a)) && Forward(s, Step(s, a))
  {
    var s' := Step(s, a);
    SendInvSame(s, s');
    forall v | v in s'.mebs ensures MebOk(s', v, s'.mebs[v]) {
      assert MebOk(s, v, s.mebs[v]);
    }
    if a.Stored? && s.mem.Some? {
      LastNSlides(s.kept, a.msg, s.cap);
    }
  }

  lemma CommitGroupKeeps(s: State, members: seq<Uid>)
    requires Inv(s) && Enabled(s, CommitGroup(members))
    ensures Inv(s.(rows := members)) && Forward(s, s.(rows := members))
  {
    var s' := s.(rows := members);
    SendInvSame(s, s');
    MebInvForward(s, s');
  }

  lemma UpsertGroupKeeps(s: State, members: seq<Uid>)
    requires Inv(s) && Enabled(s, UpsertGroup(members))
    ensures Inv(DoUpsertGroup(s, members)) && Forward(s, DoUpsertGroup(s, members))
  {
    var s' := DoUpsertGroup(s, members);
    SendInvSame(s, s');
    forall v | v in s'.mebs ensures MebOk(s', v, s'.mebs[v]) {
      if v in s.mebs {
        assert MebOk(s, v, s.mebs[v]);
      }
    }
  }

  lemma RestartKeeps(s: State)
    requires Inv(s)
    ensures Inv(Step(s, Restart))
    ensures TreeOf(Step(s, Restart)) == TreeOf(s) && Step(s, Restart).issued == s.issued
  {
    var s' := Step(s, Restart);
    forall m | m in s'.sends ensures PhaseOk(s', s'.sends[m]) {
    }
    forall m | m in s.sends
      ensures m in s'.sends && Number(s'.sends[m].phase) == Number(s.sends[m].phase)
    {
    }
  }

  lemma StepKeeps(s: State, a: Action)
    requires Inv(s) && Enabled(s, a)
    ensures Inv(Step(s, a))
    ensures !a.Restart? ==> Forward(s, Step(s, a))
    ensures Behind(TreeOf(s), TreeOf(Step(s, a)))
  {
    match a
    case Arrive(m, sender, to) => ArriveKeeps(s, m, sender, to);
    case Lookup(m, o) => LookupKeeps(s, m, o);
    case SyncConversation(m) => SyncConversationKeeps(s, m);
    case SyncMember(m) => SyncMemberKeeps(s, m);
    case Issue(m, ts) => IssueKeeps(s, m, ts);
    case AckConversation(m) => AckConversationKeeps(s, m);
    case AckMember(m) => AckMemberKeeps(s, m);
    case ClearRedis(k, u) => ClearRedisKeeps(s, k, u);
    case ClearMemory(k) => ClearMemoryKeeps(s, k);
    case ClearLost(k) => ClearLostKeeps(s, k);
    case Stored(_) => EventKeeps(s, a);
    case GroupEventSent(_, _) => EventKeeps(s, a);
    case CommitGroup(members) => CommitGroupKeeps(s, members);
    case UpsertGroup(members) => UpsertGroupKeeps(s, members);
    case Restart => RestartKeeps(s);
    case _ => PhaseStepKeeps(s, a);
  }

  lemma {:induction false} RunKeeps(s: State, acts: seq<Action>)
    requires Inv(s)
    ensures Inv(Run(s, acts))
  {
    if acts != [] {
      RunKeeps(s, acts[..|acts| - 1]);
      var before, a := Run(s, acts[..|acts| - 1]), acts[|acts| - 1];
      if Enabled(before, a) {
        StepKeeps(before, a);
      }
    }
  }
}
