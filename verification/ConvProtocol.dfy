/** The sequencing and unread protocol of one conversation, as a transition
    system with one step per lock section, Lua script or publish outcome.
    Every other conversation's state is disjoint from this one's (see
    ConvProjection), so one conversation is the unit of the protocol. */
module ConvProtocol {
  import opened Basics
  import opened ConvValues

  datatype Kind = P2p | Group

  /** Where one send stands. Each constructor is the point between two atomic
      sections of p2pConvHandle / groupConvHandle / receiveMqSendAsyncResult. */
  datatype Phase =
    | Arrived                                                // nothing done yet
    | Loading(items: seq<Uid>)                               // cached the conversation, tree not read
    | Loaded(items: seq<Uid>, snap: Tree)                    // tree read, conversation not synced
    | SyncingMebs(items: seq<Uid>, snap: Tree)               // conversation synced, these items left
    | Issuing                                                // about to run the script
    | Publishing(num: nat, ts: int)                          // numbered, not handed to the queue
    | InFlight(num: nat, ts: int)                            // handed to the queue
    | AckingMebs(num: nat, ts: int, left: seq<Uid>)          // conversation acked, these members left
    | Acked(num: nat)
    | Lost(num: nat)                                         // numbered, never acknowledged here
    | Refused                                                // ended without a number

  datatype Send = Send(sender: Uid, to: seq<Uid>, phase: Phase)

  /** A clear-unread that has run its script and not yet touched memory. */
  datatype Clear = Clear(uid: Uid, num: nat)

  datatype State = State(
    kind: Kind,
    cap: nat,                     // msgCap
    rows: seq<Uid>,               // owners in t_conv_item
    tree: Option<Tree>,           // the Redis hash
    mem: Option<Conv>,            // convId2items[convId]
    mebs: map<Uid, Meb>,          // entries of the uid wraps for this conversation
    sends: map<MsgId, Send>,
    clears: map<nat, Clear>,
    issued: seq<MsgId>,           // history: issued[k - 1] got number k
    kept: seq<Msg>)               // history: stored since the conversation entered memory

  /** How the lookup section's database and RPC calls turn out. */
  datatype LookupOutcome = Fine | ReadErr | UsersErr | WriteErr | TreeErr(applied: bool)

  datatype Action =
    | Arrive(m: MsgId, sender: Uid, to: seq<Uid>)
    | Lookup(m: MsgId, outcome: LookupOutcome)
    | ReadTree(m: MsgId)
    | SyncConversation(m: MsgId)
    | SyncMember(m: MsgId)
    | Abort(m: MsgId)
    | Issue(m: MsgId, ts: int)
    | PublishOk(m: MsgId)
    | PublishFail(m: MsgId)
    | FlightLost(m: MsgId)
    | AckConversation(m: MsgId)
    | AckMember(m: MsgId)
    | ClearRedis(k: nat, u: Uid)
    | ClearMemory(k: nat)
    | ClearLost(k: nat)           // the script ran, its answer did not arrive
    | Stored(msg: Msg)
    | CommitGroup(members: seq<Uid>)
    | UpsertGroup(members: seq<Uid>)
    | GroupEventSent(id: MsgId, ts: int)
    | Restart

  function Init(kind: Kind, cap: nat): State {
    State(kind, cap, [], None, None, map[], map[], map[], [], [])
  }

  function TreeOf(s: State): Tree {
    if s.tree.Some? then s.tree.value else EMPTY_TREE
  }

  /** msg_seq as the store would answer it. */
  function StoreSeq(s: State): nat {
    TreeOf(s).msgSeq
  }

  function StoreBrowse(s: State, u: Uid): nat {
    Browse(TreeOf(s), u)
  }

  function At(s: State, m: MsgId, p: Phase): State
    requires m in s.sends
  {
    s.(sends := s.sends[m := s.sends[m].(phase := p)])
  }

  /** The number a send holds, if it has been given one. */
  function Number(p: Phase): Option<nat> {
    match p
    case Publishing(q, _) => Some(q)
    case InFlight(q, _) => Some(q)
    case AckingMebs(q, _, _) => Some(q)
    case Acked(q) => Some(q)
    case Lost(q) => Some(q)
    case _ => None
  }

  /** A message to nobody else: building the rows looks for another user and finds none,
      which ends the handler before anything is written. */
  predicate ToOneself(sd: Send) {
    sd.to == [] || sd.to[0] == sd.sender
  }

  /** The items UpsertConv writes for a new one-to-one conversation. */
  function NewItems(sd: Send): seq<Uid>
    requires !ToOneself(sd)
  {
    [sd.sender, sd.to[0]]
  }

  function P2pMembers(sd: Send): set<Uid> {
    {sd.sender} + set u | u in sd.to
  }

  // ---- one function per section -----------------------------------------

  /** Takes the create branch of p2pConvHandle's lookup. */
  predicate Creates(s: State, m: MsgId) {
    && m in s.sends && s.sends[m].phase == Arrived
    && s.mem.None? && s.rows == [] && s.kind == P2p && !ToOneself(s.sends[m])
  }

  function DoLookup(s: State, m: MsgId, o: LookupOutcome): State
    requires m in s.sends
  {
    var sd := s.sends[m];
    if s.mem.Some? then At(s, m, Issuing)
    else if o.ReadErr? then At(s, m, Refused)
    else if s.rows != [] then
      var members := if s.kind == P2p then P2pMembers(sd) else set u | u in s.rows;
      At(s, m, Loading(s.rows)).(mem := Some(NewConv(members)), kept := [])
    else if s.kind == Group then
      At(s, m, Issuing).(mem := Some(NewConv({})), kept := [])
    else if ToOneself(sd) then At(s, m, Refused)
    else
      var items := NewItems(sd);
      var zeroed := Some(ZeroInto(TreeOf(s), items));
      match o
      case Fine =>
        At(s, m, Loading(items)).(rows := items, tree := zeroed,
                                  mem := Some(NewConv(P2pMembers(sd))), kept := [])
      case TreeErr(applied) =>
        At(s, m, Refused).(rows := items, tree := if applied then zeroed else s.tree)
      case _ => At(s, m, Refused)
  }

  function DoSyncConversation(s: State, m: MsgId): State
    requires m in s.sends && s.sends[m].phase.Loaded?
  {
    var p := s.sends[m].phase;
    var s' := At(s, m, SyncingMebs(p.items, p.snap));
    if s.mem.Some? then s'.(mem := Some(SyncConv(s.mem.value, p.snap, s.kind == Group))) else s'
  }

  function DoSyncMember(s: State, m: MsgId): State
    requires m in s.sends && s.sends[m].phase.SyncingMebs?
  {
    var p := s.sends[m].phase;
    if p.items == [] then At(s, m, Issuing)
    else
      At(s, m, SyncingMebs(p.items[1..], p.snap)).(
        mebs := s.mebs[p.items[0] := LoadMeb(p.snap, p.items[0])])
  }

  function DoIssue(s: State, m: MsgId, ts: int): State
    requires m in s.sends
  {
    var t := IssueNumber(TreeOf(s), s.sends[m].sender, m, ts);
    At(s, m, Publishing(t.msgSeq, ts)).(tree := Some(t), issued := s.issued + [m])
  }

  function AckOf(s: State, m: MsgId): Ack
    requires m in s.sends && (s.sends[m].phase.InFlight? || s.sends[m].phase.AckingMebs?)
  {
    var sd := s.sends[m];
    Ack(sd.phase.num, m, sd.phase.ts, sd.sender)
  }

  function DoAckConversation(s: State, m: MsgId): State
    requires m in s.sends && s.sends[m].phase.InFlight?
  {
    var sd := s.sends[m];
    var s' := At(s, m, AckingMebs(sd.phase.num, sd.phase.ts, sd.to + [sd.sender]));
    if s.mem.Some? then s'.(mem := Some(AckConv(s.mem.value, AckOf(s, m)))) else s'
  }

  function DoAckMember(s: State, m: MsgId): State
    requires m in s.sends && s.sends[m].phase.AckingMebs?
  {
    var p := s.sends[m].phase;
    if p.left == [] then At(s, m, Acked(p.num))
    else
      var u := p.left[0];
      var s' := At(s, m, AckingMebs(p.num, p.ts, p.left[1..]));
      if u in s.mebs then s'.(mebs := s.mebs[u := AckMeb(s.mebs[u], AckOf(s, m), u)]) else s'
  }

  function DoClearRedis(s: State, k: nat, u: Uid): State
    requires s.tree.Some?
  {
    s.(tree := Some(ClearInTree(s.tree.value, u)), clears := s.clears[k := Clear(u, s.tree.value.msgSeq)])
  }

  function DoClearMemory(s: State, k: nat): State
    requires k in s.clears
  {
    var c := s.clears[k];
    var s' := s.(clears := s.clears - {k});
    if c.uid in s.mebs then s'.(mebs := s.mebs[c.uid := ClearMeb(s.mebs[c.uid], c.num)]) else s'
  }

  function DoStored(s: State, msg: Msg): State {
    if s.mem.Some? then s.(mem := Some(StoreMsg(s.mem.value, msg, s.cap)), kept := s.kept + [msg]) else s
  }

  /** UpsertGroupChatConv, which keeps what is there. */
  function DoUpsertGroup(s: State, members: seq<Uid>): State {
    s.(mem := if s.mem.Some? then s.mem else Some(NewConv(set u | u in members)),
       kept := if s.mem.Some? then s.kept else [],
       mebs := map u | u in s.mebs.Keys + (set i | i in members) :: if u in s.mebs then s.mebs[u] else Meb(0, 0))
  }

  /** The process dies: the copy and every running operation are gone. */
  function DoRestart(s: State): State {
    s.(mem := None, mebs := map[], clears := map[], kept := [],
       sends := map m | m in s.sends :: s.sends[m].(phase := AfterCrash(s.sends[m].phase)))
  }

  function AfterCrash(p: Phase): Phase {
    match p
    case Publishing(q, _) => Lost(q)
    case InFlight(q, _) => Lost(q)
    case AckingMebs(q, _, _) => Lost(q)
    case Acked(q) => Acked(q)
    case Lost(q) => Lost(q)
    case _ => Refused
  }

  predicate BeforeNumber(p: Phase) {
    p.Arrived? || p.Loading? || p.Loaded? || p.SyncingMebs? || p.Issuing?
  }

  predicate Enabled(s: State, a: Action) {
    match a
    case Arrive(m, _, to) => m !in s.sends && (s.kind == P2p ==> |to| == 1)
    case Lookup(m, _) => m in s.sends && s.sends[m].phase == Arrived
    case ReadTree(m) => m in s.sends && s.sends[m].phase.Loading?
    case SyncConversation(m) => m in s.sends && s.sends[m].phase.Loaded?
    case SyncMember(m) => m in s.sends && s.sends[m].phase.SyncingMebs?
    case Abort(m) => m in s.sends && BeforeNumber(s.sends[m].phase)
    case Issue(m, _) => m in s.sends && s.sends[m].phase == Issuing
    case PublishOk(m) =>
      // a receiver outside the cached members is an error after the number was issued
      && m in s.sends && s.sends[m].phase.Publishing?
      && (s.kind == P2p ==> s.mem.Some? && s.sends[m].to != [] && s.sends[m].to[0] in s.mem.value.members)
    case PublishFail(m) => m in s.sends && s.sends[m].phase.Publishing?
    case FlightLost(m) => m in s.sends && s.sends[m].phase.InFlight?
    case AckConversation(m) => m in s.sends && s.sends[m].phase.InFlight?
    case AckMember(m) => m in s.sends && s.sends[m].phase.AckingMebs?
    case ClearRedis(k, _) => k !in s.clears && s.tree.Some?   // the script fails on a missing hash
    case ClearMemory(k) => k in s.clears
    case ClearLost(k) => k in s.clears
    case Stored(_) => true
    case CommitGroup(members) => s.kind == Group && s.rows == [] && members != []
    case UpsertGroup(members) =>
      // after the commit: those asked for, with repeats, of whom the users found got rows
      s.kind == Group && s.rows != [] && forall u :: u in s.rows ==> u in members
    case GroupEventSent(_, _) => true
    case Restart => true
  }

  function Step(s: State, a: Action): State
    requires Enabled(s, a)
  {
    match a
    case Arrive(m, sender, to) => s.(sends := s.sends[m := Send(sender, to, Arrived)])
    case Lookup(m, o) => DoLookup(s, m, o)
    case ReadTree(m) => At(s, m, Loaded(s.sends[m].phase.items, TreeOf(s)))
    case SyncConversation(m) => DoSyncConversation(s, m)
    case SyncMember(m) => DoSyncMember(s, m)
    case Abort(m) => At(s, m, Refused)
    case Issue(m, ts) => DoIssue(s, m, ts)
    case PublishOk(m) => At(s, m, InFlight(s.sends[m].phase.num, s.sends[m].phase.ts))
    case PublishFail(m) => At(s, m, Lost(s.sends[m].phase.num))
    case FlightLost(m) => At(s, m, Lost(s.sends[m].phase.num))
    case AckConversation(m) => DoAckConversation(s, m)
    case AckMember(m) => DoAckMember(s, m)
    case ClearRedis(k, u) => DoClearRedis(s, k, u)
    case ClearMemory(k) => DoClearMemory(s, k)
    case ClearLost(k) => s.(clears := s.clears - {k})
    case Stored(msg) => DoStored(s, msg)
    case CommitGroup(members) => s.(rows := members)
    case UpsertGroup(members) => DoUpsertGroup(s, members)
    case GroupEventSent(id, ts) =>
      if s.mem.Some? then s.(mem := Some(CreatedEventSent(s.mem.value, id, ts))) else s
    case Restart => DoRestart(s)
  }

  /** An action that is not enabled when its turn comes does nothing. */
  function Do(s: State, a: Action): State {
    if Enabled(s, a) then Step(s, a) else s
  }

  /** Any interleaving of actions. */
  function Run(s: State, acts: seq<Action>): State {
    if acts == [] then s else Do(Run(s, acts[..|acts| - 1]), acts[|acts| - 1])
  }

  lemma RunSnoc(s: State, acts: seq<Action>, a: Action)
    ensures Run(s, acts + [a]) == Do(Run(s, acts), a)
  {
    assert (acts + [a])[..|acts|] == acts;
  }

  lemma {:induction false} RunAppend(s: State, x: seq<Action>, y: seq<Action>)
    ensures Run(s, x + y) == Run(Run(s, x), y)
  {
    if y == [] {
      assert x + y == x;
    } else {
      var init, last := y[..|y| - 1], y[|y| - 1];
      RunAppend(s, x, init);
      assert x + y == (x + init) + [last];
      RunSnoc(s, x + init, last);
      assert y == init + [last];
      RunSnoc(Run(s, x), init, last);
    }
  }

  lemma RunOne(s: State, a: Action)
    ensures Run(s, [a]) == Do(s, a)
  {
    RunSnoc(s, [], a);
    assert [] + [a] == [a];
  }

  lemma RunTwo(s: State, a1: Action, a2: Action)
    ensures Run(s, [a1, a2]) == Do(Do(s, a1), a2)
  {
    RunOne(s, a1);
    RunSnoc(s, [a1], a2);
    assert [a1] + [a2] == [a1, a2];
  }

  lemma RunFour(s: State, a1: Action, a2: Action, a3: Action, a4: Action)
    ensures Run(s, [a1, a2, a3, a4]) == Do(Do(Do(Do(s, a1), a2), a3), a4)
  {
    RunTwo(s, a1, a2);
    RunTwo(Do(Do(s, a1), a2), a3, a4);
    RunAppend(s, [a1, a2], [a3, a4]);
    assert [a1, a2] + [a3, a4] == [a1, a2, a3, a4];
  }

  /** One more action at the end of a run. */
  lemma RunDo(s: State, acts: seq<Action>, act: Action) returns (longer: seq<Action>)
    ensures longer == acts + [act] && Run(s, longer) == Do(Run(s, acts), act)
  {
    longer := acts + [act];
    RunSnoc(s, acts, act);
  }
}
