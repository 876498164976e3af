/** The manager's sections, seen through one conversation, are the steps of the
    protocol; seen through any other conversation they do nothing. So what
    ConvTheorems proves per conversation holds of the manager's whole memory. */
module ConvProjection {
  import opened Basics
  import opened ConvValues
  import opened ConvMemory
  import opened ConvProtocol

  function ConvAt(m: Mem, c: ConvId): Option<Conv> {
    if c in m.convs then Some(m.convs[c]) else None
  }

  function Entries(m: Mem, c: ConvId): map<Uid, Meb> {
    map u | u in m.wraps && c in m.wraps[u].items :: m.wraps[u].items[c]
  }

  /** The manager's memory shows protocol state s at conversation c. */
  ghost predicate Shows(m: Mem, c: ConvId, s: State) {
    ConvAt(m, c) == s.mem && Entries(m, c) == s.mebs
  }

  /** Nothing changed away from conversation c. */
  ghost predicate SameElsewhere(m: Mem, m': Mem, c: ConvId) {
    forall d :: d != c ==> ConvAt(m', d) == ConvAt(m, d) && Entries(m', d) == Entries(m, d)
  }

  lemma PutMebProjects(m: Mem, u: Uid, c: ConvId, e: Meb)
    ensures Entries(PutMeb(m, u, c, e), c) == Entries(m, c)[u := e]
    ensures ConvAt(PutMeb(m, u, c, e), c) == ConvAt(m, c)
    ensures SameElsewhere(m, PutMeb(m, u, c, e), c)
  {
    var m' := PutMeb(m, u, c, e);
    assert Entries(m', c) == Entries(m, c)[u := e];
    forall d | d != c ensures Entries(m', d) == Entries(m, d) {
    }
  }

  lemma MapConvProjects(m: Mem, c: ConvId, f: Conv -> Conv)
    ensures Entries(MapConv(m, c, f), c) == Entries(m, c)
    ensures ConvAt(MapConv(m, c, f), c) == if c in m.convs then Some(f(m.convs[c])) else None
    ensures SameElsewhere(m, MapConv(m, c, f), c)
  {
  }

  lemma MapMebProjects(m: Mem, u: Uid, c: ConvId, f: Meb -> Meb)
    ensures Entries(MapMeb(m, u, c, f), c)
         == if u in Entries(m, c) then Entries(m, c)[u := f(Entries(m, c)[u])] else Entries(m, c)
    ensures ConvAt(MapMeb(m, u, c, f), c) == ConvAt(m, c) && SameElsewhere(m, MapMeb(m, u, c, f), c)
  {
    if HasEntry(m, u, c) {
      PutMebProjects(m, u, c, f(m.wraps[u].items[c]));
    }
  }

  /** The conversation sections: load, publish result, stored message, group event. */
  function SectionOf(s: State, a: Action): Conv -> Conv
    requires Enabled(s, a) && (a.SyncConversation? || a.AckConversation? || a.Stored? || a.GroupEventSent?)
  {
    match a
    case SyncConversation(id) => (c: Conv) => SyncConv(c, s.sends[id].phase.snap, s.kind == Group)
    case AckConversation(id) => (c: Conv) => AckConv(c, AckOf(s, id))
    case Stored(msg) => (c: Conv) => StoreMsg(c, msg, s.cap)
    case GroupEventSent(id, ts) => (c: Conv) => CreatedEventSent(c, id, ts)
  }

  /** Each of them is a protocol step of its conversation and touches no other. */
  lemma ConvSectionsAreSteps(m: Mem, c: ConvId, s: State, a: Action)
    requires Shows(m, c, s) && Enabled(s, a)
    requires a.SyncConversation? || a.AckConversation? || a.Stored? || a.GroupEventSent?
    ensures var m' := MapConv(m, c, SectionOf(s, a)); Shows(m', c, Step(s, a)) && SameElsewhere(m, m', c)
  {
    MapConvProjects(m, c, SectionOf(s, a));
  }

  lemma SyncMemberIsAStep(m: Mem, c: ConvId, s: State, id: MsgId)
    requires Shows(m, c, s) && id in s.sends && s.sends[id].phase.SyncingMebs? && s.sends[id].phase.items != []
    ensures var p := s.sends[id].phase;
            Shows(PutMeb(m, p.items[0], c, LoadMeb(p.snap, p.items[0])), c, Do(s, SyncMember(id)))
    ensures var p := s.sends[id].phase;
            Do(s, SyncMember(id)).sends[id] == s.sends[id].(phase := SyncingMebs(p.items[1..], p.snap))
  {
    var p := s.sends[id].phase;
    PutMebProjects(m, p.items[0], c, LoadMeb(p.snap, p.items[0]));
  }

  lemma AckMemberIsAStep(m: Mem, c: ConvId, s: State, id: MsgId)
    requires Shows(m, c, s) && id in s.sends && s.sends[id].phase.AckingMebs? && s.sends[id].phase.left != []
    ensures var u := s.sends[id].phase.left[0];
            Shows(MapMeb(m, u, c, e => AckMeb(e, AckOf(s, id), u)), c, Do(s, AckMember(id)))
    ensures var p := s.sends[id].phase;
            Do(s, AckMember(id)).sends[id] == s.sends[id].(phase := AckingMebs(p.num, p.ts, p.left[1..]))
  {
    var u := s.sends[id].phase.left[0];
    MapMebProjects(m, u, c, e => AckMeb(e, AckOf(s, id), u));
  }

  /** After k items of a load the memory shows the protocol's state, and nothing else has
      changed. */
  ghost predicate LoadedTo(m: Mem, c: ConvId, r: State, id: MsgId, sd: Send, k: nat)
    requires sd.phase.SyncingMebs? && k <= |sd.phase.items|
  {
    var items, snap := sd.phase.items, sd.phase.snap;
    && id in r.sends && r.sends[id] == sd.(phase := SyncingMebs(items[k..], snap))
    && Shows(PutLoaded(m, items[..k], c, snap), c, r) && SameElsewhere(m, PutLoaded(m, items[..k], c, snap), c)
  }

  /** The member loop of a load is one protocol step per item. */
  lemma {:induction false} SyncMembersIsSteps(m: Mem, c: ConvId, s: State, id: MsgId, n: nat)
    returns (acts: seq<Action>)
    requires Shows(m, c, s) && id in s.sends && s.sends[id].phase.SyncingMebs?
    requires n <= |s.sends[id].phase.items|
    ensures acts == seq(n, i => SyncMember(id)) && LoadedTo(m, c, Run(s, acts), id, s.sends[id], n)
  {
    acts := [];
    if n > 0 {
      var shorter := SyncMembersIsSteps(m, c, s, id, n - 1);
      LoadedNext(m, c, Run(s, shorter), id, s.sends[id], n - 1);
      RunSnoc(s, shorter, SyncMember(id));
      acts := shorter + [SyncMember(id)];
    }
  }

  lemma LoadedNext(m: Mem, c: ConvId, r: State, id: MsgId, sd: Send, k: nat)
    requires sd.phase.SyncingMebs? && k < |sd.phase.items| && LoadedTo(m, c, r, id, sd, k)
    ensures LoadedTo(m, c, Do(r, SyncMember(id)), id, sd, k + 1)
  {
    var items, snap := sd.phase.items, sd.phase.snap;
    SyncNext(PutLoaded(m, items[..k], c, snap), c, r, id, items, k, snap);
    PutLoadedNext(m, items, k, c, snap);
  }

  lemma SyncNext(m: Mem, c: ConvId, s: State, id: MsgId, items: seq<Uid>, k: nat, snap: Tree)
    requires Shows(m, c, s) && k < |items| && id in s.sends && s.sends[id].phase == SyncingMebs(items[k..], snap)
    ensures var s', m' := Do(s, SyncMember(id)), PutMeb(m, items[k], c, LoadMeb(snap, items[k]));
            && id in s'.sends && s'.sends[id] == s.sends[id].(phase := SyncingMebs(items[k + 1..], snap))
            && Shows(m', c, s') && SameElsewhere(m, m', c)
  {
    assert items[k..][0] == items[k] && items[k..][1..] == items[k + 1..];
    SyncMemberIsAStep(m, c, s, id);
    PutMebProjects(m, items[k], c, LoadMeb(snap, items[k]));
  }

  /** The member loop of a publish result is one protocol step per member. */
  lemma {:induction false} AckMembersIsSteps(m: Mem, c: ConvId, s: State, id: MsgId, n: nat) returns (acts: seq<Action>)
    requires Shows(m, c, s) && id in s.sends && s.sends[id].phase.AckingMebs?
    requires n <= |s.sends[id].phase.left|
    ensures acts == seq(n, i => AckMember(id)) && id in Run(s, acts).sends
    ensures var p := s.sends[id].phase;
            && Run(s, acts).sends[id] == s.sends[id].(phase := AckingMebs(p.num, p.ts, p.left[n..]))
            && Shows(AckMebs(m, c, AckOf(s, id), p.left[..n]), c, Run(s, acts))
            && SameElsewhere(m, AckMebs(m, c, AckOf(s, id), p.left[..n]), c)
  {
    var p, ack := s.sends[id].phase, AckOf(s, id);
    acts := [];
    if n > 0 {
      var shorter := AckMembersIsSteps(m, c, s, id, n - 1);
      var before, m' := Run(s, shorter), AckMebs(m, c, ack, p.left[..n - 1]);
      var u := p.left[n - 1];
      AckMemberIsAStep(m', c, before, id);
      assert AckOf(before, id) == ack;
      MapMebProjects(m', u, c, e => AckMeb(e, ack, u));
      MapMebProjects(m', u, c, e => AckMeb(e, AckOf(before, id), u));
      RunSnoc(s, shorter, AckMember(id));
      acts := shorter + [AckMember(id)];
      assert p.left[..n][..n - 1] == p.left[..n - 1];
      assert p.left[n - 1..][1..] == p.left[n..];
    }
  }

  /** Clear-unread's memory half is a protocol step. */
  lemma ClearIsAStep(m: Mem, c: ConvId, s: State, k: nat)
    requires Shows(m, c, s) && k in s.clears
    ensures var f := MapMeb(m, s.clears[k].uid, c, e => ClearMeb(e, s.clears[k].num));
            Shows(f, c, Step(s, ClearMemory(k))) && SameElsewhere(m, f, c)
  {
    MapMebProjects(m, s.clears[k].uid, c, e => ClearMeb(e, s.clears[k].num));
  }

  /** The lookup ends without caching. */
  predicate LookupRefused(s: State, id: MsgId, o: LookupOutcome)
    requires id in s.sends
  {
    s.mem.None? && (o.ReadErr? || (s.rows == [] && s.kind == P2p && (!o.Fine? || ToOneself(s.sends[id]))))
  }

  /** A lookup caches the conversation exactly when the protocol does. */
  lemma LookupIsAStep(m: Mem, c: ConvId, s: State, id: MsgId, o: LookupOutcome)
    requires Shows(m, c, s) && Enabled(s, Lookup(id, o))
    ensures var sd, s' := s.sends[id], Step(s, Lookup(id, o));
            var refused := LookupRefused(s, id, o);
            var members := if s.kind == P2p then P2pMembers(sd) else set u | u in s.rows;
            var m' := if refused then m else AddConv(m, c, NewConv(members));
            && (refused <==> s'.sends[id].phase == Refused)
            && Shows(m', c, s') && SameElsewhere(m, m', c)
  {
    if s.kind == Group && s.rows == [] {
      assert (set u | u in s.rows) == {};
    }
  }

  /** One member of it. */
  lemma AddMebProjects(m: Mem, c: ConvId, u: Uid)
    ensures var m' := if HasEntry(m, u, c) then m else PutMeb(m, u, c, Meb(0, 0));
            && Entries(m', c) == (if u in Entries(m, c) then Entries(m, c) else Entries(m, c)[u := Meb(0, 0)])
            && ConvAt(m', c) == ConvAt(m, c) && SameElsewhere(m, m', c)
  {
    assert HasEntry(m, u, c) <==> u in Entries(m, c);
    PutMebProjects(m, u, c, Meb(0, 0));
  }

  /** The entries with a zero one for each who lacks one. */
  function ZeroMissing(mebs: map<Uid, Meb>, uids: seq<Uid>): map<Uid, Meb> {
    map u | u in mebs.Keys + (set i | i in uids) :: if u in mebs then mebs[u] else Meb(0, 0)
  }

  lemma ZeroMissingNext(mebs: map<Uid, Meb>, uids: seq<Uid>, u: Uid)
    ensures var z := ZeroMissing(mebs, uids);
            ZeroMissing(mebs, uids + [u]) == if u in z then z else z[u := Meb(0, 0)]
  {
    assert forall i :: i in uids + [u] <==> i in uids || i == u;
  }

  /** The member loop of a group creation adds the missing zero entries. */
  lemma {:induction false} AddMebsProjects(m: Mem, c: ConvId, uids: seq<Uid>)
    ensures Entries(AddMebs(m, c, uids), c) == ZeroMissing(Entries(m, c), uids)
    ensures ConvAt(AddMebs(m, c, uids), c) == ConvAt(m, c) && SameElsewhere(m, AddMebs(m, c, uids), c)
  {
    if uids == [] {
      assert ZeroMissing(Entries(m, c), []) == Entries(m, c);
    } else {
      var init, u := uids[..|uids| - 1], uids[|uids| - 1];
      assert uids == init + [u];
      AddMebsProjects(m, c, init);
      ZeroMissingNext(Entries(m, c), init, u);
      AddMebProjects(AddMebs(m, c, init), c, u);
    }
  }

  /** Caching a created group chat is a protocol step; the commit of its rows, the step
      before, is none of the manager's. */
  lemma UpsertGroupIsAStep(m: Mem, c: ConvId, s: State, members: seq<Uid>)
    requires Shows(m, c, s) && Enabled(s, UpsertGroup(members))
    ensures var m' := AddMebs(AddConv(m, c, NewConv(set u | u in members)), c, members);
            Shows(m', c, Step(s, UpsertGroup(members))) && SameElsewhere(m, m', c)
  {
    var added := AddConv(m, c, NewConv(set u | u in members));
    assert Entries(added, c) == Entries(m, c);
    AddMebsProjects(added, c, members);
    forall d | d != c ensures Entries(added, d) == Entries(m, d) {
    }
  }
}
