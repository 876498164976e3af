/** The whole manager: every conversation's sections interleaved over one memory. Seen
    through any conversation a run of the manager is a run of the protocol, so that what
    is proved per conversation holds of the whole memory. */
module ConvSystem {
  import opened Basics
  import opened ConvValues
  import opened ConvMemory
  import opened ConvProtocol
  import opened ConvSafety
  import opened ConvTheorems
  import opened ConvProjection

  /** The memory, and beside it what each conversation has in the stores and under way. */
  datatype World = World(mem: Mem, convs: map<ConvId, State>)

  /** A conversation nobody has touched is as it was at first. */
  function StateAt(kinds: ConvId -> Kind, cap: nat, w: World, c: ConvId): State {
    if c in w.convs then w.convs[c] else Init(kinds(c), cap)
  }

  /** What an action of conversation c makes of the memory: the manager's section where
      it is one, nothing where it is the store's or the queue's. */
  function Effect(m: Mem, c: ConvId, s: State, a: Action): Mem
    requires Enabled(s, a) && !a.Restart?
  {
    match a
    case Lookup(id, o) =>
      if LookupRefused(s, id, o) then m
      else AddConv(m, c, NewConv(if s.kind == P2p then P2pMembers(s.sends[id]) else set u | u in s.rows))
    case SyncMember(id) =>
      var p := s.sends[id].phase;
      if p.items == [] then m else PutMeb(m, p.items[0], c, LoadMeb(p.snap, p.items[0]))
    case AckMember(id) =>
      var left := s.sends[id].phase.left;
      if left == [] then m else MapMeb(m, left[0], c, e => AckMeb(e, AckOf(s, id), left[0]))
    case ClearMemory(k) => MapMeb(m, s.clears[k].uid, c, e => ClearMeb(e, s.clears[k].num))
    case UpsertGroup(members) => AddMebs(AddConv(m, c, NewConv(set u | u in members)), c, members)
    case SyncConversation(_) => MapConv(m, c, SectionOf(s, a))
    case AckConversation(_) => MapConv(m, c, SectionOf(s, a))
    case Stored(_) => MapConv(m, c, SectionOf(s, a))
    case GroupEventSent(_, _) => MapConv(m, c, SectionOf(s, a))
    case _ => m
  }

  /** One action of one conversation; a restart is one of all of them. */
  function WorldDo(kinds: ConvId -> Kind, cap: nat, w: World, c: ConvId, a: Action): World {
    if a.Restart? then World(Mem(map[], map[]), map d | d in w.convs :: DoRestart(w.convs[d]))
    else
      var s := StateAt(kinds, cap, w, c);
      if Enabled(s, a) then World(Effect(w.mem, c, s, a), w.convs[c := Step(s, a)]) else w
  }

  function WorldRun(kinds: ConvId -> Kind, cap: nat, acts: seq<(ConvId, Action)>): World {
    if acts == [] then World(Mem(map[], map[]), map[])
    else
      var last := acts[|acts| - 1];
      WorldDo(kinds, cap, WorldRun(kinds, cap, acts[..|acts| - 1]), last.0, last.1)
  }

  /** The actions a conversation sees of a run. */
  function ActsOf(acts: seq<(ConvId, Action)>, c: ConvId): seq<Action> {
    if acts == [] then []
    else
      var last := acts[|acts| - 1];
      ActsOf(acts[..|acts| - 1], c) + if last.0 == c || last.1.Restart? then [last.1] else []
  }

  /** Each action, seen in the memory, is the protocol's step of its conversation, and
      nothing of any other. */
  lemma EffectIsAStep(m: Mem, c: ConvId, s: State, a: Action)
    requires Shows(m, c, s) && Enabled(s, a) && !a.Restart?
    ensures Shows(Effect(m, c, s, a), c, Step(s, a)) && SameElsewhere(m, Effect(m, c, s, a), c)
  {
    match a
    case Lookup(id, o) => LookupIsAStep(m, c, s, id, o);
    case SyncMember(id) => SyncEffect(m, c, s, id);
    case AckMember(id) => AckEffect(m, c, s, id);
    case ClearMemory(k) => ClearIsAStep(m, c, s, k);
    case UpsertGroup(members) => UpsertGroupIsAStep(m, c, s, members);
    case SyncConversation(_) => ConvSectionsAreSteps(m, c, s, a);
    case AckConversation(_) => ConvSectionsAreSteps(m, c, s, a);
    case Stored(_) => ConvSectionsAreSteps(m, c, s, a);
    case GroupEventSent(_, _) => ConvSectionsAreSteps(m, c, s, a);
    case _ => OutsideMemory(s, a);
  }

  lemma OutsideMemory(s: State, a: Action)
    requires Enabled(s, a)
    requires a.Arrive? || a.ReadTree? || a.Abort? || a.Issue? || a.PublishOk? || a.PublishFail? || a.FlightLost?
          || a.ClearRedis? || a.ClearLost? || a.CommitGroup?
    ensures Step(s, a).mem == s.mem && Step(s, a).mebs == s.mebs
  {
  }

  lemma SyncEffect(m: Mem, c: ConvId, s: State, id: MsgId)
    requires Shows(m, c, s) && Enabled(s, SyncMember(id))
    ensures var m' := Effect(m, c, s, SyncMember(id)); Shows(m', c, DoSyncMember(s, id)) && SameElsewhere(m, m', c)
  {
    var p := s.sends[id].phase;
    if p.items != [] {
      PutMebProjects(m, p.items[0], c, LoadMeb(p.snap, p.items[0]));
    }
  }

  lemma AckEffect(m: Mem, c: ConvId, s: State, id: MsgId)
    requires Shows(m, c, s) && Enabled(s, AckMember(id))
    ensures var m' := Effect(m, c, s, AckMember(id)); Shows(m', c, DoAckMember(s, id)) && SameElsewhere(m, m', c)
  {
    var left := s.sends[id].phase.left;
    if left != [] {
      MapMebProjects(m, left[0], c, e => AckMeb(e, AckOf(s, id), left[0]));
    }
  }

  ghost predicate AllShown(kinds: ConvId -> Kind, cap: nat, w: World) {
    forall c :: Shows(w.mem, c, StateAt(kinds, cap, w, c))
  }

  lemma WorldStepShows(kinds: ConvId -> Kind, cap: nat, w: World, c: ConvId, a: Action)
    requires AllShown(kinds, cap, w)
    ensures AllShown(kinds, cap, WorldDo(kinds, cap, w, c, a))
  {
    var w', s := WorldDo(kinds, cap, w, c, a), StateAt(kinds, cap, w, c);
    if !a.Restart? && Enabled(s, a) {
      EffectIsAStep(w.mem, c, s, a);
      forall d ensures Shows(w'.mem, d, StateAt(kinds, cap, w', d)) {
        assert Shows(w.mem, d, StateAt(kinds, cap, w, d));
        assert d != c ==> StateAt(kinds, cap, w', d) == StateAt(kinds, cap, w, d);
      }
    }
  }

  lemma StateAfter(kinds: ConvId -> Kind, cap: nat, w: World, c: ConvId, a: Action, d: ConvId)
    ensures StateAt(kinds, cap, WorldDo(kinds, cap, w, c, a), d)
         == if d == c || a.Restart? then Do(StateAt(kinds, cap, w, d), a) else StateAt(kinds, cap, w, d)
  {
    if a.Restart? && d !in w.convs {
      var s := Init(kinds(d), cap);
      assert DoRestart(s).sends == s.sends;
    }
  }

  /** After any run of the manager, sections of all conversations in any order, the memory
      shows at every conversation what the protocol's run of that conversation's own
      actions comes to. */
  lemma {:induction false} ManagerRunsAreProtocolRuns(kinds: ConvId -> Kind, cap: nat, acts: seq<(ConvId, Action)>,
                                                      c: ConvId)
    ensures Shows(WorldRun(kinds, cap, acts).mem, c, Run(Init(kinds(c), cap), ActsOf(acts, c)))
  {
    ShownAlong(kinds, cap, acts);
    StateIsRun(kinds, cap, acts, c);
    assert Shows(WorldRun(kinds, cap, acts).mem, c, StateAt(kinds, cap, WorldRun(kinds, cap, acts), c));
  }

  lemma {:induction false} ShownAlong(kinds: ConvId -> Kind, cap: nat, acts: seq<(ConvId, Action)>)
    ensures AllShown(kinds, cap, WorldRun(kinds, cap, acts))
  {
    if acts != [] {
      var init, last := acts[..|acts| - 1], acts[|acts| - 1];
      ShownAlong(kinds, cap, init);
      WorldStepShows(kinds, cap, WorldRun(kinds, cap, init), last.0, last.1);
    }
  }

  lemma {:induction false} StateIsRun(kinds: ConvId -> Kind, cap: nat, acts: seq<(ConvId, Action)>, c: ConvId)
    ensures StateAt(kinds, cap, WorldRun(kinds, cap, acts), c) == Run(Init(kinds(c), cap), ActsOf(acts, c))
  {
    if acts != [] {
      var init, last := acts[..|acts| - 1], acts[|acts| - 1];
      StateIsRun(kinds, cap, init, c);
      StateAfter(kinds, cap, WorldRun(kinds, cap, init), last.0, last.1, c);
      RunSnoc(Init(kinds(c), cap), ActsOf(init, c), last.1);
      assert ActsOf(init, c) + [] == ActsOf(init, c);
    }
  }

  /** One conversation of the memory is behind its store, and its entries hang on it. */
  ghost predicate BehindStore(m: Mem, c: ConvId, s: State) {
    && (c in m.convs ==> 0 <= m.convs[c].msgSeq <= StoreSeq(s))
    && forall u :: HasEntry(m, u, c) ==>
         var e := m.wraps[u].items[c];
         && c in m.convs && 0 <= e.browse <= StoreBrowse(s, u) <= StoreSeq(s)
         && 0 <= e.unread <= Clamp(m.convs[c].msgSeq - e.browse)
  }

  lemma ShownIsBehind(m: Mem, c: ConvId, s: State)
    requires Shows(m, c, s) && Inv(s)
    ensures BehindStore(m, c, s)
  {
    forall u | HasEntry(m, u, c) ensures u in s.mebs && s.mebs[u] == m.wraps[u].items[c] && MebOk(s, u, s.mebs[u]) {
      assert u in Entries(m, c);
    }
    forall u ensures StoreBrowse(s, u) <= StoreSeq(s) {
      assert Browse(TreeOf(s), u) <= TreeOf(s).msgSeq;
    }
  }

  /** So over every run of the manager: cached MsgSeq and browse positions are never ahead
      of the conversation's store, every entry's conversation is cached, and its count is
      within what the conversation shows as unseen. */
  lemma {:induction false} WholeMemoryIsBehind(kinds: ConvId -> Kind, cap: nat, acts: seq<(ConvId, Action)>, c: ConvId)
    ensures BehindStore(WorldRun(kinds, cap, acts).mem, c, Run(Init(kinds(c), cap), ActsOf(acts, c)))
  {
    ManagerRunsAreProtocolRuns(kinds, cap, acts, c);
    InitHolds(kinds(c), cap);
    RunKeeps(Init(kinds(c), cap), ActsOf(acts, c));
    ShownIsBehind(WorldRun(kinds, cap, acts).mem, c, Run(Init(kinds(c), cap), ActsOf(acts, c)));
  }

  // ---- the order of a user's list -------------------------------------------------------

  lemma {:induction false} AddMebsOrder(m: Mem, c: ConvId, uids: seq<Uid>, u: Uid)
    ensures WrapOf(m, u).order <= WrapOf(AddMebs(m, c, uids), u).order
  {
    if uids != [] {
      AddMebsOrder(m, c, uids[..|uids| - 1], u);
    }
  }

  lemma EffectOrder(m: Mem, c: ConvId, s: State, a: Action, u: Uid)
    requires Enabled(s, a) && !a.Restart?
    ensures WrapOf(m, u).order <= WrapOf(Effect(m, c, s, a), u).order
  {
    match a
    case UpsertGroup(members) => AddMebsOrder(AddConv(m, c, NewConv(set x | x in members)), c, members, u);
    case _ =>
  }

  /** A user's list keeps its order and only grows at its end, over every run of the manager
      up to a restart. */
  lemma {:induction false} ListsGrowAtTheEnd(kinds: ConvId -> Kind, cap: nat, acts: seq<(ConvId, Action)>, i: nat,
                                             u: Uid)
    requires i <= |acts| && forall k :: i <= k < |acts| ==> !acts[k].1.Restart?
    ensures WrapOf(WorldRun(kinds, cap, acts[..i]).mem, u).order <= WrapOf(WorldRun(kinds, cap, acts).mem, u).order
    decreases |acts|
  {
    if i == |acts| {
      assert acts[..i] == acts;
    } else {
      var init, last := acts[..|acts| - 1], acts[|acts| - 1];
      ListsGrowAtTheEnd(kinds, cap, init, i, u);
      assert init[..i] == acts[..i];
      var w := WorldRun(kinds, cap, init);
      var s := StateAt(kinds, cap, w, last.0);
      if Enabled(s, last.1) {
        EffectOrder(w.mem, last.0, s, last.1, u);
      }
    }
  }
}
