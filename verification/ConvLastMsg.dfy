/** The last message a conversation shows, over every run of the protocol. It is kept
    beside LastMsgId, the newest id known, which a group load overwrites with the
    store's: for each promise the exact steps that end it, and over whole runs. */
module ConvLastMsg {
  import opened Basics
  import opened ConvValues
  import opened ConvProtocol
  import opened ConvSafety
  import opened ConvAgreement

  /** The id of the message shown, if any. */
  function Shown(s: State): Option<MsgId> {
    if s.mem.Some? && s.mem.value.lastMsg.Some? then Some(s.mem.value.lastMsg.value.id) else None
  }

  /** The message shown is no newer than the newest id known. */
  predicate Known(s: State) {
    Shown(s).Some? ==> Shown(s).value <= s.mem.value.lastMsgId
  }

  /** A group load whose counters are not older than the conversation's takes the
      snapshot's last_msg_id, whatever was stored since. */
  predicate Overwrites(s: State, a: Action) {
    && a.SyncConversation? && a.m in s.sends && s.sends[a.m].phase.Loaded? && s.kind == Group
    && s.mem.Some? && s.mem.value.msgSeq <= s.sends[a.m].phase.snap.msgSeq
  }

  function SnapId(s: State, a: Action): MsgId
    requires Overwrites(s, a)
  {
    s.sends[a.m].phase.snap.lastMsgId
  }

  // ---- the newest id known ---------------------------------------------------------

  predicate LosesKnown(s: State, a: Action) {
    Overwrites(s, a) && Shown(s).Some? && SnapId(s, a) < Shown(s).value
  }

  /** An id as new as the message shown is learnt, a message is shown anew, or the copy
      is gone. */
  predicate RestoresKnown(s: State, a: Action) {
    match a
    case AckConversation(m) => Shown(s).Some? && Shown(s).value <= m
    case GroupEventSent(id, _) => Shown(s).Some? && Shown(s).value <= id
    case Stored(msg) => s.mem.Some? && s.mem.value.lastMsgId <= msg.id
    case SyncConversation(_) => Overwrites(s, a) && Shown(s).Some? && Shown(s).value <= SnapId(s, a)
    case Restart => true
    case _ => false
  }

  /** A step that leaves the conversation alone, or caches a new one. */
  lemma ConvUntouched(s: State, a: Action)
    requires Enabled(s, a)
    requires !a.SyncConversation? && !a.AckConversation? && !a.Stored? && !a.GroupEventSent? && !a.Restart?
    ensures s.mem.Some? ==> Step(s, a).mem == s.mem && Step(s, a).kept == s.kept
    ensures s.mem.None? ==> Shown(Step(s, a)).None? && (Step(s, a).mem.Some? ==> Step(s, a).kept == [])
  {
    match a
    case Lookup(m, o) =>
    case UpsertGroup(_) =>
    case AckMember(m) =>
    case _ =>
  }

  /** Exactly when the message shown is no newer than the newest id known after a step. */
  lemma KnownStep(s: State, a: Action)
    requires Enabled(s, a)
    ensures Known(Step(s, a)) <==> (Known(s) && !LosesKnown(s, a)) || RestoresKnown(s, a)
  {
    match a
    case SyncConversation(_) =>
    case AckConversation(_) =>
    case Stored(_) =>
    case GroupEventSent(_, _) =>
    case Restart =>
    case _ => ConvUntouched(s, a);
  }

  ghost predicate KnownRenewed(s: State, acts: seq<Action>) {
    MadeGood(s, acts, (x, a) => LosesKnown(x, a), (x, a) => RestoresKnown(x, a))
  }

  /** After any run the message shown is no newer than the newest id known if and only if
      each group load that went behind it was made good. */
  lemma {:induction false} KnownIffRenewed(s: State, acts: seq<Action>)
    requires Inv(s) && Known(s)
    ensures Known(Run(s, acts)) <==> KnownRenewed(s, acts)
  {
    forall x, a | Inv(x) && Enabled(x, a)
      ensures Known(Step(x, a)) <==> (Known(x) && !LosesKnown(x, a)) || RestoresKnown(x, a)
    {
      KnownStep(x, a);
    }
    HoldsIffMadeGood(s, acts, x => Known(x), (x, a) => LosesKnown(x, a), (x, a) => RestoresKnown(x, a));
  }

  // ---- the message shown never goes back ---------------------------------------------

  ghost predicate NotOlder(x: Option<MsgId>, y: Option<MsgId>) {
    x.Some? ==> y.Some? && x.value <= y.value
  }

  /** A message older than the one shown is stored where its id passes for new. */
  predicate ShowsOlder(s: State, a: Action) {
    a.Stored? && Shown(s).Some? && s.mem.value.lastMsgId <= a.msg.id < Shown(s).value
  }

  /** Exactly when a step takes the message shown back: not where its id is known. */
  lemma ShownStep(s: State, a: Action)
    requires Enabled(s, a) && !a.Restart?
    ensures NotOlder(Shown(s), Shown(Step(s, a))) <==> !ShowsOlder(s, a)
    ensures Known(s) ==> !ShowsOlder(s, a)
  {
    match a
    case SyncConversation(_) =>
    case AckConversation(_) =>
    case Stored(_) =>
    case GroupEventSent(_, _) =>
    case _ => ConvUntouched(s, a);
  }

  /** Between any two points of the run without a restart between them the message shown
      does not go back. */
  ghost predicate NeverBack(s: State, acts: seq<Action>) {
    forall i, j :: 0 <= i <= j <= |acts| && Restart !in acts[i..j] ==>
      NotOlder(Shown(Path(s, acts)[i]), Shown(Path(s, acts)[j]))
  }

  ghost predicate NoneOlder(s: State, acts: seq<Action>) {
    NoneTaken(s, acts, (x, a) => ShowsOlder(x, a))
  }

  lemma NotBackAt(s: State, acts: seq<Action>, k: nat)
    requires Inv(s) && NoneOlder(s, acts) && k < |acts| && !acts[k].Restart?
    ensures NotOlder(Shown(Path(s, acts)[k]), Shown(Path(s, acts)[k + 1]))
  {
    PathStep(s, acts, k);
    var before := Path(s, acts)[k];
    if Enabled(before, acts[k]) {
      ShownStep(before, acts[k]);
    }
  }

  lemma {:induction false} NotBackBetween(path: seq<State>, i: nat, j: nat)
    requires i <= j < |path|
    requires forall k :: i <= k < j ==> NotOlder(Shown(path[k]), Shown(path[k + 1]))
    ensures NotOlder(Shown(path[i]), Shown(path[j]))
    decreases j
  {
    if i < j {
      NotBackBetween(path, i, j - 1);
      assert NotOlder(Shown(path[j - 1]), Shown(path[j - 1 + 1]));
    }
  }

  lemma {:induction false} NotBackOver(s: State, acts: seq<Action>, i: nat, j: nat)
    requires Inv(s) && NoneOlder(s, acts) && i <= j <= |acts| && Restart !in acts[i..j]
    ensures NotOlder(Shown(Path(s, acts)[i]), Shown(Path(s, acts)[j]))
  {
    var path := Path(s, acts);
    forall k | i <= k < j ensures NotOlder(Shown(path[k]), Shown(path[k + 1])) {
      assert acts[i..j][k - i] == acts[k];
      NotBackAt(s, acts, k);
    }
    NotBackBetween(path, i, j);
  }

  lemma {:induction false} BackAt(s: State, acts: seq<Action>, k: nat)
    requires Inv(s) && NeverBack(s, acts) && k < |acts| && Enabled(Path(s, acts)[k], acts[k])
    ensures !ShowsOlder(Path(s, acts)[k], acts[k])
  {
    PathStep(s, acts, k);
    if ShowsOlder(Path(s, acts)[k], acts[k]) {
      assert acts[k..k + 1] == [acts[k]];
      ShownStep(Path(s, acts)[k], acts[k]);
    }
  }

  /** Over any run the message shown never goes back between restarts if and only if no
      message older than it is ever stored where its id passes for new. */
  lemma {:induction false} NeverBackIff(s: State, acts: seq<Action>)
    requires Inv(s)
    ensures NeverBack(s, acts) <==> NoneOlder(s, acts)
  {
    var path := Path(s, acts);
    if NoneOlder(s, acts) {
      forall i, j | 0 <= i <= j <= |acts| && Restart !in acts[i..j] ensures NotOlder(Shown(path[i]), Shown(path[j])) {
        NotBackOver(s, acts, i, j);
      }
    }
    if NeverBack(s, acts) {
      forall k | 0 <= k < |acts| && Enabled(path[k], acts[k]) ensures !ShowsOlder(path[k], acts[k]) {
        BackAt(s, acts, k);
      }
    }
  }

  lemma KindStays(s: State, a: Action)
    ensures Do(s, a).kind == s.kind
  {
  }

  lemma {:induction false} KnownAlong(s: State, acts: seq<Action>, k: nat)
    requires Inv(s) && Known(s) && NoneTaken(s, acts, (x, a) => LosesKnown(x, a)) && k <= |acts|
    ensures Known(Path(s, acts)[k])
  {
    PathEnds(s, acts);
    if k > 0 {
      KnownAlong(s, acts, k - 1);
      PathStep(s, acts, k - 1);
      var before := Path(s, acts)[k - 1];
      if Enabled(before, acts[k - 1]) {
        KnownStep(before, acts[k - 1]);
      }
    }
  }

  lemma {:induction false} KindAlong(s: State, acts: seq<Action>, k: nat)
    requires Inv(s) && k <= |acts|
    ensures Path(s, acts)[k].kind == s.kind
  {
    PathEnds(s, acts);
    if k > 0 {
      KindAlong(s, acts, k - 1);
      PathStep(s, acts, k - 1);
      KindStays(Path(s, acts)[k - 1], acts[k - 1]);
    }
  }

  /** Over every run of a one-to-one chat, and over every run of a group in which no load
      goes behind the message shown, that message never goes back between restarts. */
  lemma {:induction false} LastMsgNeverOlder(s: State, acts: seq<Action>)
    requires Inv(s) && Known(s)
    requires s.kind == P2p || NoneTaken(s, acts, (x, a) => LosesKnown(x, a))
    ensures NeverBack(s, acts)
    ensures forall k :: 0 <= k <= |acts| ==> Known(Path(s, acts)[k])
  {
    var path := Path(s, acts);
    forall k | 0 <= k <= |acts| ensures path[k].kind == s.kind {
      KindAlong(s, acts, k);
    }
    assert NoneTaken(s, acts, (x, a) => LosesKnown(x, a));
    forall k | 0 <= k <= |acts| ensures Known(path[k]) {
      KnownAlong(s, acts, k);
    }
    forall k | 0 <= k < |acts| && Enabled(path[k], acts[k]) ensures !ShowsOlder(path[k], acts[k]) {
      if !acts[k].Restart? {
        ShownStep(path[k], acts[k]);
      }
    }
    NeverBackIff(s, acts);
  }

  // ---- the message shown is the largest stored -----------------------------------------

  /** No stored message is newer than the newest id known, and the message shown is a
      stored one: the one with that id exactly when it was stored. */
  ghost predicate Largest(s: State) {
    s.mem.Some? ==>
      var top := s.mem.value.lastMsgId;
      && (forall m :: m in s.kept ==> m.id <= top)
      && (s.mem.value.lastMsg.Some? ==> s.mem.value.lastMsg.value in s.kept)
      && (Shown(s) == Some(top) <==> exists m :: m in s.kept && m.id == top)
  }

  /** The load's last_msg_id is older than a stored message, or is that of a stored one
      that is not shown. */
  ghost predicate LosesLargest(s: State, a: Action) {
    && Overwrites(s, a)
    && var id := SnapId(s, a);
       exists m :: m in s.kept && (m.id > id || (m.id == id && Shown(s) != Some(id)))
  }

  lemma StoredLargest(s: State, msg: Msg)
    requires Largest(s)
    ensures Largest(DoStored(s, msg))
  {
    if s.mem.Some? {
      var s' := DoStored(s, msg);
      assert s'.kept[|s.kept|] == msg;
      assert forall m :: m in s'.kept <==> m in s.kept || m == msg;
    }
  }

  /** From a state in which the message shown is the largest stored, a step keeps it so
      if and only if it is no such load. */
  lemma LargestStep(s: State, a: Action)
    requires Enabled(s, a) && Largest(s)
    ensures Largest(Step(s, a)) <==> !LosesLargest(s, a)
  {
    match a
    case SyncConversation(_) =>
    case AckConversation(_) =>
    case Stored(msg) => StoredLargest(s, msg);
    case GroupEventSent(_, _) =>
    case Restart =>
    case _ => ConvUntouched(s, a);
  }

  ghost predicate LargestAllAlong(s: State, acts: seq<Action>) {
    Holds(s, acts, x => Largest(x))
  }

  ghost predicate NeverBehindStored(s: State, acts: seq<Action>) {
    NoneTaken(s, acts, (x, a) => LosesLargest(x, a))
  }

  /** Over whole runs, from a server that has just started, at every point the message
      shown is the largest stored, or the newest id known is not stored yet, if and only
      if no group load goes behind what was stored. */
  lemma {:induction false} LastMsgIsTheLargestStored(s: State, acts: seq<Action>)
    requires Inv(s) && s.mem.None?
    ensures LargestAllAlong(s, acts) <==> NeverBehindStored(s, acts)
  {
    forall x, a | Inv(x) && Enabled(x, a) && Largest(x) ensures Largest(Step(x, a)) <==> !LosesLargest(x, a) {
      LargestStep(x, a);
    }
    HoldsIffNoneTaken(s, acts, x => Largest(x), (x, a) => LosesLargest(x, a));
  }

  /** In a one-to-one chat it always is. */
  lemma {:induction false} P2pShowsTheLargestStored(s: State, acts: seq<Action>)
    requires Inv(s) && s.mem.None? && s.kind == P2p
    ensures LargestAllAlong(s, acts)
  {
    forall k | 0 <= k < |acts| ensures Path(s, acts)[k].kind == P2p {
      KindAlong(s, acts, k);
    }
    assert NeverBehindStored(s, acts);
    LastMsgIsTheLargestStored(s, acts);
  }

  // ---- a group load that goes behind --------------------------------------------------------

  /** A group's first send has cached the conversation and read the store when message x
      is stored. */
  ghost predicate StoredDuringLoad(r: State, m: MsgId, x: Msg) {
    && r.kind == Group && r.mem.Some? && r.mem.value.msgSeq == 0 && r.mem.value.lastMsg == Some(x)
    && m in r.sends && r.sends[m].phase.Loaded? && r.sends[m].phase.snap == EMPTY_TREE
  }

  /** A group's rows and its first send. */
  ghost predicate GroupSend(r: State, a: Uid, b: Uid, m: MsgId) {
    && r.kind == Group && r.rows == [a, b] && r.mem.None? && r.tree.None?
    && m in r.sends && r.sends[m] == Send(a, [b], Arrived)
  }

  lemma GroupArrived(s: State, a: Uid, b: Uid, m: MsgId) returns (acts: seq<Action>, r: State)
    requires s == Init(Group, s.cap)
    ensures r == Run(s, acts) && GroupSend(r, a, b, m) && Restart !in acts
  {
    acts := [CommitGroup([a, b]), Arrive(m, a, [b])];
    RunTwo(s, CommitGroup([a, b]), Arrive(m, a, [b]));
    r := Run(s, acts);
  }

  ghost predicate NothingRead(r: State, m: MsgId) {
    && r.kind == Group && r.mem.Some? && r.mem.value.msgSeq == 0 && r.mem.value.lastMsgId == 0
    && m in r.sends && r.sends[m].phase.Loaded? && r.sends[m].phase.snap == EMPTY_TREE
  }

  lemma StoredThen(s: State, m: MsgId, x: Msg) returns (r: State)
    requires NothingRead(s, m) && x.id > 0
    ensures r == Do(s, Stored(x)) && StoredDuringLoad(r, m, x)
  {
    r := DoStored(s, x);
  }

  /** That send's lookup and its reading of the store. */
  lemma GroupRead(s: State, a: Uid, b: Uid, m: MsgId) returns (r: State)
    requires GroupSend(s, a, b, m)
    ensures r == Do(Do(s, Lookup(m, Fine)), ReadTree(m)) && NothingRead(r, m)
  {
    var s1 := DoLookup(s, m, Fine);
    r := Do(s1, ReadTree(m));
  }

  lemma ReachStored(cap: nat, a: Uid, b: Uid, m: MsgId, x: Msg) returns (acts: seq<Action>, r: State)
    requires x.id > 0
    ensures r == Run(Init(Group, cap), acts) && StoredDuringLoad(r, m, x) && Restart !in acts
  {
    var s := Init(Group, cap);
    var first, s1 := GroupArrived(s, a, b, m);
    var read := GroupRead(s1, a, b, m);
    r := StoredThen(read, m, x);
    RunTwo(s1, Lookup(m, Fine), ReadTree(m));
    var more := RunDo(s1, [Lookup(m, Fine), ReadTree(m)], Stored(x));
    RunAppend(s, first, more);
    acts := first + more;
  }

  lemma LoadedAndStored(r: State, m: MsgId, x: Msg, y: Msg) returns (r1: State, r2: State)
    requires StoredDuringLoad(r, m, x) && 0 < y.id < x.id
    ensures r1 == Do(r, SyncConversation(m)) && LosesKnown(r, SyncConversation(m)) && !Known(r1)
    ensures r2 == Do(r1, Stored(y)) && Shown(r1) == Some(x.id) && Shown(r2) == Some(y.id)
  {
    r1 := DoSyncConversation(r, m);
    r2 := DoStored(r1, y);
  }

  /** A message stored between a group load's reading and its writing is taken back by an
      older one stored after it, with no restart. */
  lemma GroupLoadTakesLastMsgBack(cap: nat, a: Uid, b: Uid, m: MsgId, x: Msg, y: Msg)
    returns (acts: seq<Action>, i: nat)
    requires 0 < y.id < x.id
    ensures Restart !in acts && i <= |acts|
    ensures Shown(Run(Init(Group, cap), acts[..i])) == Some(x.id) && Shown(Run(Init(Group, cap), acts)) == Some(y.id)
  {
    var s := Init(Group, cap);
    var before, r := ReachStored(cap, a, b, m, x);
    var r1, r2 := LoadedAndStored(r, m, x, y);
    RunTwo(r, SyncConversation(m), Stored(y));
    RunAppend(s, before, [SyncConversation(m), Stored(y)]);
    acts, i := before + [SyncConversation(m), Stored(y)], |before|;
    assert acts[..i] == before;
  }
}
