/** What an entry's unread count is, exactly, after any run; and when it is the count
    Redis would give. */
module ConvUnread {
  import opened Basics
  import opened ConvValues
  import opened ConvProtocol
  import opened ConvSafety
  import opened ConvTheorems
  import opened ConvArrival
  import opened ConvAgreement

  // ---- a formula for the count ---------------------------------------------------

  /** The number behind the last write to u's entry: a load's msg_seq, a result's
      number, a clear-unread's answer, or zero when a group's creation made the entry. */
  function Written(s: State, a: Action, u: Uid, before: nat): nat
    requires Enabled(s, a)
  {
    match a
    case SyncMember(m) =>
      var p := s.sends[m].phase;
      if p.items != [] && p.items[0] == u then p.snap.msgSeq else before
    case AckMember(m) =>
      var p := s.sends[m].phase;
      if p.left != [] && p.left[0] == u && u in s.mebs then p.num else before
    case ClearMemory(k) => if s.clears[k].uid == u && u in s.mebs then s.clears[k].num else before
    case UpsertGroup(members) => if u in members && u !in s.mebs then 0 else before
    case _ => before
  }

  function LastWritten(s: State, acts: seq<Action>, u: Uid): nat {
    if acts == [] then 0
    else
      var init, a := acts[..|acts| - 1], acts[|acts| - 1];
      if Enabled(Run(s, init), a) then Written(Run(s, init), a, u, LastWritten(s, init, u))
      else LastWritten(s, init, u)
  }

  /** The entry counts from the number last written to it. */
  ghost predicate CountsFrom(s: State, u: Uid, n: nat) {
    n <= StoreSeq(s) && (u in s.mebs ==> s.mebs[u].unread == Clamp(n - s.mebs[u].browse))
  }

  lemma LoadCounts(s: State, m: MsgId, u: Uid, n: nat)
    requires Inv(s) && Enabled(s, SyncMember(m)) && CountsFrom(s, u, n)
    ensures CountsFrom(DoSyncMember(s, m), u, Written(s, SyncMember(m), u, n))
  {
    assert PhaseOk(s, s.sends[m]);
  }

  lemma ResultCounts(s: State, m: MsgId, u: Uid, n: nat)
    requires Inv(s) && Enabled(s, AckMember(m)) && CountsFrom(s, u, n)
    ensures CountsFrom(DoAckMember(s, m), u, Written(s, AckMember(m), u, n))
  {
    assert PhaseOk(s, s.sends[m]) && Browse(TreeOf(s), s.sends[m].sender) <= StoreSeq(s);
  }

  lemma ClearCounts(s: State, k: nat, u: Uid, n: nat)
    requires Inv(s) && Enabled(s, ClearMemory(k)) && CountsFrom(s, u, n)
    ensures CountsFrom(DoClearMemory(s, k), u, Written(s, ClearMemory(k), u, n))
  {
    assert Browse(TreeOf(s), s.clears[k].uid) <= StoreSeq(s);
  }

  lemma UpsertCounts(s: State, members: seq<Uid>, u: Uid, n: nat)
    requires CountsFrom(s, u, n)
    ensures CountsFrom(DoUpsertGroup(s, members), u, if u in members && u !in s.mebs then 0 else n)
  {
  }

  lemma MebsStay(s: State, a: Action)
    requires Enabled(s, a)
    requires !a.SyncMember? && !a.AckMember? && !a.ClearMemory? && !a.UpsertGroup? && !a.Restart?
    ensures Step(s, a).mebs == s.mebs
  {
  }

  lemma QuietCounts(s: State, a: Action, u: Uid, n: nat)
    requires Inv(s) && Enabled(s, a) && CountsFrom(s, u, n)
    requires !a.SyncMember? && !a.AckMember? && !a.ClearMemory? && !a.UpsertGroup?
    ensures CountsFrom(Step(s, a), u, n)
  {
    StepKeeps(s, a);
    if !a.Restart? {
      MebsStay(s, a);
    }
  }

  lemma WrittenCounts(s: State, a: Action, u: Uid, n: nat)
    requires Inv(s) && Enabled(s, a) && CountsFrom(s, u, n)
    ensures CountsFrom(Step(s, a), u, Written(s, a, u, n))
  {
    match a
    case SyncMember(m) => LoadCounts(s, m, u, n);
    case AckMember(m) => ResultCounts(s, m, u, n);
    case ClearMemory(k) => ClearCounts(s, k, u, n);
    case UpsertGroup(members) => UpsertCounts(s, members, u, n);
    case _ => QuietCounts(s, a, u, n);
  }

  lemma {:induction false} CountsAlong(s: State, acts: seq<Action>, u: Uid)
    requires Inv(s) && u !in s.mebs
    ensures CountsFrom(Run(s, acts), u, LastWritten(s, acts, u))
  {
    if acts != [] {
      var init, a := acts[..|acts| - 1], acts[|acts| - 1];
      CountsAlong(s, init, u);
      RunKeeps(s, init);
      if Enabled(Run(s, init), a) {
        WrittenCounts(Run(s, init), a, u, LastWritten(s, init, u));
      }
    }
  }

  /** After any run of any interleaving, an entry's unread count is the number last
      written to it less its browse position, or zero. */
  lemma {:induction false} UnreadFormula(s: State, acts: seq<Action>, u: Uid)
    requires Inv(s) && u !in s.mebs
    ensures var r := Run(s, acts);
            && LastWritten(s, acts, u) <= StoreSeq(r)
            && (u in r.mebs ==> r.mebs[u].unread == Clamp(LastWritten(s, acts, u) - r.mebs[u].browse))
  {
    CountsAlong(s, acts, u);
  }

  /** Where the browse positions agree, the cached count is the one Redis would give if
      and only if the user has seen everything or the newest number is the one last
      written to the entry. */
  lemma {:induction false} UnreadRightIff(s: State, acts: seq<Action>, r: State, u: Uid)
    requires Inv(s) && u !in s.mebs && r == Run(s, acts)
    requires u in r.mebs && r.mebs[u].browse == StoreBrowse(r, u)
    ensures r.mebs[u].unread == StoreUnread(TreeOf(r), u) <==>
            StoreBrowse(r, u) == StoreSeq(r) || LastWritten(s, acts, u) == StoreSeq(r)
  {
    UnreadFormula(s, acts, u);
    RunKeeps(s, acts);
    assert Browse(TreeOf(r), u) <= TreeOf(r).msgSeq;
  }

  // ---- when the newest number is lost to an entry -------------------------------------

  /** The newest number's result is still to reach u's entry. */
  predicate BringsNewest(s: State, m: MsgId, u: Uid) {
    m in s.sends && Reaches(s.sends[m], u) && s.sends[m].phase.num == StoreSeq(s)
  }

  ghost predicate NewestComes(s: State, u: Uid) {
    exists m :: BringsNewest(s, m, u)
  }

  /** The entry counts up to msg_seq from its own position, or the newest number is
      still to reach it. */
  ghost predicate UnreadArrives(s: State, u: Uid) {
    u in s.mebs ==> s.mebs[u].unread == Clamp(StoreSeq(s) - s.mebs[u].browse) || NewestComes(s, u)
  }

  /** The step leaves the entry with an older count: it writes an older number into an
      entry that lags, with the newest number through; or it takes the newest number
      away from the entry. */
  ghost predicate LosesUnread(s: State, a: Action, u: Uid) {
    match a
    case AckMember(m) =>
      && m in s.sends && s.sends[m].phase.AckingMebs? && s.sends[m].phase.left != []
      && s.sends[m].phase.left[0] == u && u in s.mebs
      && s.sends[m].phase.num < StoreSeq(s) && s.mebs[u].browse < StoreSeq(s) && !NewestComes(s, u)
    case SyncMember(m) =>
      && m in s.sends && s.sends[m].phase.SyncingMebs? && s.sends[m].phase.items != []
      && s.sends[m].phase.items[0] == u && s.sends[m].phase.snap.msgSeq < StoreSeq(s)
      && Browse(s.sends[m].phase.snap, u) < StoreSeq(s) && !NewestComes(s, u)
    case ClearMemory(k) =>
      && k in s.clears && s.clears[k].uid == u && u in s.mebs && s.clears[k].num < StoreSeq(s) && !NewestComes(s, u)
    case UpsertGroup(members) => u in members && u !in s.mebs && StoreSeq(s) > 0 && !NewestComes(s, u)
    case Issue(m, _) => m in s.sends && u in s.mebs && u != s.sends[m].sender && u !in s.sends[m].to
    case PublishFail(m) => TakesNewest(s, m, u)
    case FlightLost(m) => TakesNewest(s, m, u)
    case _ => false
  }

  ghost predicate TakesNewest(s: State, m: MsgId, u: Uid) {
    u in s.mebs && BringsNewest(s, m, u) && s.mebs[u].unread != Clamp(StoreSeq(s) - s.mebs[u].browse)
  }

  lemma UnreadSame(s: State, s': State, u: Uid)
    requires u in s.mebs <==> u in s'.mebs
    requires u in s.mebs ==> s'.mebs[u] == s.mebs[u]
    requires StoreSeq(s') == StoreSeq(s) && forall m :: BringsNewest(s', m, u) <==> BringsNewest(s, m, u)
    ensures UnreadArrives(s', u) <==> UnreadArrives(s, u)
  {
  }

  /** A send that moves keeping whether its result will reach u. */
  lemma SendMovedUnread(s: State, s': State, m: MsgId, u: Uid)
    requires m in s'.sends && s'.sends == s.sends[m := s'.sends[m]]
    requires StoreSeq(s') == StoreSeq(s) && (u in s.mebs <==> u in s'.mebs)
    requires u in s.mebs ==> s'.mebs[u] == s.mebs[u]
    requires BringsNewest(s', m, u) <==> BringsNewest(s, m, u)
    ensures UnreadArrives(s', u) <==> UnreadArrives(s, u)
  {
    forall n ensures BringsNewest(s', n, u) <==> BringsNewest(s, n, u) {
    }
    UnreadSame(s, s', u);
  }

  lemma LookupUnread(s: State, m: MsgId, o: LookupOutcome, u: Uid)
    requires Inv(s) && Enabled(s, Lookup(m, o)) && UnreadArrives(s, u)
    ensures UnreadArrives(DoLookup(s, m, o), u)
  {
    LookupShape(s, m, o);
    LookupForward(s, m, o);
    SendMovedUnread(s, DoLookup(s, m, o), m, u);
  }

  /** Numbers already given are below the one being issued. */
  lemma IssueUnread(s: State, m: MsgId, ts: int, u: Uid)
    requires Inv(s) && Enabled(s, Issue(m, ts)) && UnreadArrives(s, u)
    ensures UnreadArrives(DoIssue(s, m, ts), u) <==> !LosesUnread(s, Issue(m, ts), u)
  {
    var s' := DoIssue(s, m, ts);
    if u == s.sends[m].sender || u in s.sends[m].to {
      assert BringsNewest(s', m, u);
    } else if u in s.mebs {
      assert MebOk(s, u, s.mebs[u]) && Browse(TreeOf(s), u) <= StoreSeq(s);
      forall n ensures !BringsNewest(s', n, u) {
        if n in s.sends && n != m && Number(s.sends[n].phase).Some? {
          assert Number(s.sends[n].phase).value <= |s.issued|;
        }
      }
    }
  }

  lemma ResultUnread(s: State, m: MsgId, u: Uid)
    requires Inv(s) && Enabled(s, AckMember(m)) && UnreadArrives(s, u)
    ensures UnreadArrives(DoAckMember(s, m), u) <==> !LosesUnread(s, AckMember(m), u)
  {
    var s', sd := DoAckMember(s, m), s.sends[m];
    var left := sd.phase.left;
    assert PhaseOk(s, sd) && Browse(TreeOf(s), sd.sender) <= StoreSeq(s);
    if left != [] && left[0] == u && u in s.mebs {
      ReachedUnread(s, m, u);
    } else {
      assert left != [] ==> (forall x :: x in left <==> x == left[0] || x in left[1..]);
      if u in s.mebs {
        SendMovedUnread(s, s', m, u);
      }
    }
  }

  lemma ReachedUnread(s: State, m: MsgId, u: Uid)
    requires Inv(s) && Enabled(s, AckMember(m)) && UnreadArrives(s, u)
    requires u in s.mebs && s.sends[m].phase.left != [] && s.sends[m].phase.left[0] == u
    requires s.sends[m].phase.num <= StoreSeq(s)
    ensures UnreadArrives(DoAckMember(s, m), u) <==> !LosesUnread(s, AckMember(m), u)
  {
    var s' := DoAckMember(s, m);
    if s.sends[m].phase.num < StoreSeq(s) {
      forall n ensures BringsNewest(s', n, u) <==> BringsNewest(s, n, u) {
      }
      assert NewestComes(s', u) <==> NewestComes(s, u);
    }
  }

  lemma LoadUnread(s: State, m: MsgId, u: Uid)
    requires Inv(s) && Enabled(s, SyncMember(m)) && UnreadArrives(s, u)
    ensures UnreadArrives(DoSyncMember(s, m), u) <==> !LosesUnread(s, SyncMember(m), u)
  {
    var s', p := DoSyncMember(s, m), s.sends[m].phase;
    assert PhaseOk(s, s.sends[m]);
    forall n ensures BringsNewest(s', n, u) <==> BringsNewest(s, n, u) {
    }
    assert NewestComes(s', u) <==> NewestComes(s, u);
    if p.items == [] || p.items[0] != u {
      UnreadSame(s, s', u);
    }
  }

  lemma ClearUnreadCount(s: State, k: nat, u: Uid)
    requires Inv(s) && Enabled(s, ClearMemory(k)) && UnreadArrives(s, u)
    ensures UnreadArrives(DoClearMemory(s, k), u) <==> !LosesUnread(s, ClearMemory(k), u)
  {
    var s' := DoClearMemory(s, k);
    assert NewestComes(s', u) <==> NewestComes(s, u) by {
      assert forall n :: BringsNewest(s', n, u) <==> BringsNewest(s, n, u);
    }
    assert Browse(TreeOf(s), u) <= StoreSeq(s);
  }

  lemma UpsertUnread(s: State, members: seq<Uid>, u: Uid)
    requires UnreadArrives(s, u)
    ensures UnreadArrives(DoUpsertGroup(s, members), u) <==> !LosesUnread(s, UpsertGroup(members), u)
  {
    var s' := DoUpsertGroup(s, members);
    assert NewestComes(s', u) <==> NewestComes(s, u) by {
      assert forall n :: BringsNewest(s', n, u) <==> BringsNewest(s, n, u);
    }
  }

  /** A number is held by one message only, so that losing it is for good. */
  lemma LossUnread(s: State, s': State, m: MsgId, u: Uid)
    requires Inv(s) && m in s.sends && Number(s.sends[m].phase).Some? && s' == At(s, m, Lost(s.sends[m].phase.num))
    requires UnreadArrives(s, u)
    ensures UnreadArrives(s', u) <==> !TakesNewest(s, m, u)
  {
    forall n ensures BringsNewest(s', n, u) <==> BringsNewest(s, n, u) && n != m {
    }
    if n :| BringsNewest(s, n, u) && n != m {
      assert BringsNewest(s', n, u);
      if BringsNewest(s, m, u) {
        NumbersAreUnique(s, m, n);
      }
    }
  }

  lemma QuietUnread(s: State, a: Action, u: Uid)
    requires Enabled(s, a) && UnreadArrives(s, u)
    requires a.Arrive? || a.ReadTree? || a.SyncConversation? || a.Abort? || a.PublishOk? || a.AckConversation?
          || a.ClearRedis? || a.ClearLost? || a.Stored? || a.CommitGroup? || a.GroupEventSent? || a.Restart?
    ensures UnreadArrives(Step(s, a), u)
  {
    if a.Arrive? || a.ReadTree? || a.SyncConversation? || a.Abort? || a.PublishOk? || a.AckConversation? {
      SendMovedUnread(s, Step(s, a), a.m, u);
    } else if !a.Restart? {
      assert Step(s, a).sends == s.sends;
      UnreadSame(s, Step(s, a), u);
    }
  }

  /** From a state in which an entry's count is up to date or about to be, a step keeps
      it so if and only if it does not lose the newest number to it. */
  lemma UnreadStep(s: State, a: Action, u: Uid)
    requires Inv(s) && Enabled(s, a) && UnreadArrives(s, u)
    ensures UnreadArrives(Step(s, a), u) <==> !LosesUnread(s, a, u)
  {
    match a
    case Lookup(m, o) => LookupUnread(s, m, o, u);
    case Issue(m, ts) => IssueUnread(s, m, ts, u);
    case AckMember(m) => ResultUnread(s, m, u);
    case SyncMember(m) => LoadUnread(s, m, u);
    case ClearMemory(k) => ClearUnreadCount(s, k, u);
    case UpsertGroup(members) => UpsertUnread(s, members, u);
    case PublishFail(m) => LossUnread(s, Step(s, a), m, u);
    case FlightLost(m) => LossUnread(s, Step(s, a), m, u);
    case _ => QuietUnread(s, a, u);
  }

  ghost predicate UnreadAllAlong(s: State, acts: seq<Action>, u: Uid) {
    Holds(s, acts, x => UnreadArrives(x, u))
  }

  ghost predicate NewestNeverLost(s: State, acts: seq<Action>, u: Uid) {
    NoneTaken(s, acts, (x, a) => LosesUnread(x, a, u))
  }

  /** Over whole runs of any interleaving the count is up to date or about to be at
      every point if and only if no step loses the newest number to the entry. */
  lemma {:induction false} UnreadUnlessLost(s: State, acts: seq<Action>, u: Uid)
    requires Inv(s) && UnreadArrives(s, u)
    ensures UnreadAllAlong(s, acts, u) <==> NewestNeverLost(s, acts, u)
  {
    forall x, a | Inv(x) && Enabled(x, a) && UnreadArrives(x, u)
      ensures UnreadArrives(Step(x, a), u) <==> !LosesUnread(x, a, u)
    {
      UnreadStep(x, a, u);
    }
    HoldsIffNoneTaken(s, acts, x => UnreadArrives(x, u), (x, a) => LosesUnread(x, a, u));
  }
}
