/** The in-memory half of the topic server's conversation manager, with its objects
    and its indexes: a conversation map, and per user a wrap that lists entries and
    indexes the same entry objects by conversation. Each method is one lock section
    or one handler loop; its contract ties the new state to ConvMemory. */
module ConvManager {
  import opened Basics
  import opened ConvValues
  import opened ConvMemory
  import opened ConvProtocol

  /** One row of a user's conversation list. */
  datatype ConvListItem = ConvListItem(id: ConvId, msgSeq: int, lastMsg: Option<Msg>, browse: int, unread: int)

  /** The row shows the conversation and the user's entry for it. */
  ghost predicate Lists(row: ConvListItem, m: Mem, u: Uid, c: ConvId) {
    && c in m.convs && HasEntry(m, u, c) && row.id == c
    && row.msgSeq == m.convs[c].msgSeq && row.lastMsg == m.convs[c].lastMsg
    && row.browse == m.wraps[u].items[c].browse && row.unread == m.wraps[u].items[c].unread
  }

  /** The unread counts of exactly the users in uids who have an entry. */
  ghost predicate UnreadOf(unread: map<Uid, int>, m: Mem, c: ConvId, uids: seq<Uid>) {
    && (forall u :: u in unread <==> u in uids && HasEntry(m, u, c))
    && (forall u :: u in unread && HasEntry(m, u, c) ==> unread[u] == m.wraps[u].items[c].unread)
  }

  class Conversation {
    const id: ConvId
    var members: set<Uid>
    var msgSeq: int
    var lastMsgId: MsgId
    var lastActiveTs: int
    var lastMsg: Option<Msg>
    var recentlyMsgs: seq<Msg>

    constructor (id: ConvId, members: set<Uid>)
      ensures this.id == id && Value() == NewConv(members)
    {
      this.id := id;
      this.members := members;
      msgSeq, lastMsgId, lastActiveTs := 0, 0, 0;
      lastMsg, recentlyMsgs := None, [];
    }

    ghost function Value(): Conv
      reads this
    {
      Conv(members, msgSeq, lastMsgId, lastActiveTs, lastMsg, recentlyMsgs)
    }
  }

  class MemberConv {
    const id: ConvId
    ghost const owner: Uid
    var browseMsgSeq: int
    var unreadCount: int

    constructor (id: ConvId, ghost owner: Uid, browse: int, unread: int)
      ensures this.id == id && this.owner == owner && Value() == Meb(browse, unread)
    {
      this.id := id;
      this.owner := owner;
      browseMsgSeq, unreadCount := browse, unread;
    }

    ghost function Value(): Meb
      reads this
    {
      Meb(browseMsgSeq, unreadCount)
    }
  }

  class MemberConvWrap {
    ghost const owner: Uid
    ghost var entries: set<MemberConv>   // the entry objects of this wrap
    var convItems: seq<MemberConv>
    var convId2Item: map<ConvId, MemberConv>

    constructor (ghost owner: Uid)
      ensures this.owner == owner && entries == {} && Holds(EMPTY_WRAP)
    {
      this.owner := owner;
      convItems, convId2Item, entries := [], map[], {};
    }

    /** The list and the index hold the same entry objects, once each, and they
        show w. */
    ghost predicate Holds(w: Wrap)
      reads this, entries
    {
      && WrapOk(w) && |w.order| == |convItems| && convId2Item.Keys == w.items.Keys
      && (forall i :: 0 <= i < |w.order| ==> w.order[i] in convId2Item && convItems[i] == convId2Item[w.order[i]])
      && (forall c :: c in convId2Item ==> convId2Item[c] in entries)
      && (forall c :: c in convId2Item ==> convId2Item[c].id == c && convId2Item[c].Value() == w.items[c])
      && (forall e :: e in entries ==> e.owner == owner)
    }

    /** Creates an entry object and appends it to the list and the index. */
    method Append(convId: ConvId, browse: int, unread: int, ghost w: Wrap) returns (e: MemberConv)
      requires Holds(w) && convId !in convId2Item
      modifies this
      ensures fresh(e) && e.id == convId && e.owner == owner && e.Value() == Meb(browse, unread)
      ensures entries == old(entries) + {e} && Holds(PutInWrap(w, convId, Meb(browse, unread)))
    {
      e := new MemberConv(convId, owner, browse, unread);
      convId2Item := convId2Item[convId := e];
      convItems := convItems + [e];
      entries := entries + {e};
      PutInWrapOk(w, convId, e.Value());
    }
  }

  /** A wrap whose objects are untouched still holds what it held. */
  twostate lemma WrapFrame(new x: MemberConvWrap, new w: Wrap)
    requires old(allocated(x)) && old(x.Holds(w)) && unchanged(x) && unchanged(x.entries)
    ensures x.Holds(w)
  {
  }

  /** Writing one entry object changes the wrap by that entry. */
  twostate lemma WrapTouched(new x: MemberConvWrap, new w: Wrap, new c: ConvId)
    requires old(allocated(x)) && old(x.Holds(w)) && unchanged(x) && c in x.convId2Item
    requires forall e :: e in x.entries && e != x.convId2Item[c] ==> unchanged(e)
    ensures x.Holds(PutInWrap(w, c, x.convId2Item[c].Value()))
  {
    forall d | d in x.convId2Item && d != c ensures x.convId2Item[d].Value() == w.items[d] {
      assert old(x.convId2Item[d].id == d && x.convId2Item[c].id == c && x.convId2Item[d] in x.entries);
      assert x.convId2Item[d] in x.entries && x.convId2Item[d] != x.convId2Item[c];
    }
    PutInWrapOk(w, c, x.convId2Item[c].Value());
  }

  class ConvManager {
    const msgCap: nat
    var convId2items: map<ConvId, Conversation>
    var uid2convItems: map<Uid, MemberConvWrap>
    ghost var mem: Mem              // what the objects show
    ghost var Repr: set<object>

    /** Repr only gains new objects. */
    twostate predicate Grown()
      reads this
    {
      old(Repr) <= Repr && forall o :: o in Repr && o !in old(Repr) ==> fresh(o)
    }

    ghost predicate ConvsShown()
      reads this, Repr
    {
      && convId2items.Keys == mem.convs.Keys
      && (forall c :: c in convId2items ==> convId2items[c] in Repr)
      && (forall c :: c in convId2items ==> convId2items[c].id == c && convId2items[c].Value() == mem.convs[c])
    }

    ghost predicate WrapShown(u: Uid)
      reads this, Repr
      requires u in uid2convItems && u in mem.wraps
    {
      var x := uid2convItems[u];
      x in Repr && x.owner == u && x.entries <= Repr && x.Holds(mem.wraps[u])
    }

    ghost predicate WrapsShown()
      reads this, Repr
    {
      && uid2convItems.Keys == mem.wraps.Keys
      && forall u :: u in uid2convItems ==> WrapShown(u)
    }

    ghost predicate Valid()
      reads this, Repr
    {
      this in Repr && MemOk(mem) && ConvsShown() && WrapsShown()
    }

    constructor (msgCap: nat)
      ensures Valid() && fresh(Repr) && this.msgCap == msgCap && mem == Mem(map[], map[])
    {
      this.msgCap := msgCap;
      convId2items, uid2convItems := map[], map[];
      mem := Mem(map[], map[]);
      Repr := {this};
    }

    // ---- frames: what one changed object changes in what is shown ----------

    /** A user whose wrap and entries lie outside the touched objects shows what
        it showed. */
    twostate lemma OtherWrap(new v: Uid, new touched: set<object>)
      requires v in old(uid2convItems) && v in old(mem.wraps) && old(WrapShown(v))
      requires v in uid2convItems && uid2convItems[v] == old(uid2convItems[v])
      requires v in mem.wraps && mem.wraps[v] == old(mem.wraps[v])
      requires old(Repr) <= Repr
      requires forall o :: o in old(Repr) && o !in touched ==> unchanged(o)
      requires old(uid2convItems[v]) !in touched && old(uid2convItems[v].entries) !! touched
      ensures WrapShown(v)
    {
      var x := uid2convItems[v];
      assert old(x.Holds(mem.wraps[v]));
      WrapFrame(x, mem.wraps[v]);
    }

    /** Only conversation c changed, and mem says so. */
    twostate predicate OnlyConvChanged(new c: ConvId)
      reads this, Repr
    {
      && old(Valid()) && c in convId2items && Repr == old(Repr)
      && convId2items == old(convId2items) && uid2convItems == old(uid2convItems)
      && (forall o :: o in old(Repr) && o != this && o != convId2items[c] ==> unchanged(o))
      && mem == old(mem).(convs := old(mem.convs)[c := convId2items[c].Value()])
    }

    twostate lemma ConvTouchedWrap(new c: ConvId, new v: Uid)
      requires OnlyConvChanged(c) && v in uid2convItems
      ensures v in mem.wraps && WrapShown(v)
    {
      assert old(WrapShown(v));
      OtherWrap(v, {this, convId2items[c]});
    }

    twostate lemma ConvTouchedConvs(new c: ConvId)
      requires OnlyConvChanged(c)
      ensures ConvsShown()
    {
      forall d | d in convId2items && d != c ensures convId2items[d].Value() == mem.convs[d] {
        assert old(convId2items[d].id == d && convId2items[c].id == c);
      }
    }

    twostate lemma ConvTouched(new c: ConvId)
      requires OnlyConvChanged(c)
      ensures Valid()
    {
      ConvTouchedConvs(c);
      forall v | v in uid2convItems ensures v in mem.wraps && WrapShown(v) {
        ConvTouchedWrap(c, v);
      }
    }

    /** Only user u's wrap and entries changed (or were added), and mem says so. */
    twostate predicate OnlyUserChanged(new u: Uid, new touched: set<object>)
      reads this, Repr, touched
    {
      && old(Valid()) && old(Repr) <= Repr && this in touched
      && convId2items == old(convId2items) && u in uid2convItems && u in mem.wraps
      && uid2convItems == old(uid2convItems)[u := uid2convItems[u]]
      && (forall o :: o in old(Repr) && o !in touched ==> unchanged(o))
      && (forall c :: c in convId2items ==> convId2items[c] !in touched)
      && (forall v :: v in old(uid2convItems) && v != u ==>
            old(uid2convItems[v]) !in touched && old(uid2convItems[v].entries) !! touched)
      && mem == old(mem).(wraps := old(mem.wraps)[u := mem.wraps[u]]) && MemOk(mem)
    }

    twostate lemma UserTouched(new u: Uid, new touched: set<object>)
      requires OnlyUserChanged(u, touched) && this in Repr && WrapShown(u)
      ensures Valid()
    {
      forall v | v in uid2convItems && v != u ensures v in mem.wraps && WrapShown(v) {
        assert old(WrapShown(v));
        OtherWrap(v, touched);
      }
    }

    /** Two users' wraps are two objects. */
    twostate lemma WrapsApart(new u: Uid, new v: Uid)
      requires old(Valid()) && u in old(uid2convItems) && v in old(uid2convItems) && u != v
      ensures old(uid2convItems[v]) != old(uid2convItems[u])
    {
      assert old(WrapShown(u)) && old(WrapShown(v));
    }

    /** Only the wrap object of user u changed, and mem says so. */
    twostate predicate OnlyWrapChanged(new u: Uid)
      reads this, Repr
    {
      && old(Valid()) && old(Repr) <= Repr && MemOk(mem)
      && convId2items == old(convId2items) && uid2convItems == old(uid2convItems)
      && u in uid2convItems && u in mem.wraps
      && mem == old(mem).(wraps := old(mem.wraps)[u := mem.wraps[u]])
      && forall o :: o in old(Repr) && o != this && o != uid2convItems[u] ==> unchanged(o)
    }

    twostate lemma WrapChangedOther(new u: Uid, new v: Uid)
      requires OnlyWrapChanged(u) && v in uid2convItems && v != u
      ensures v in mem.wraps && WrapShown(v)
    {
      assert old(WrapShown(v));
      WrapsApart(u, v);
      OtherWrap(v, {this, uid2convItems[u]});
    }

    twostate lemma WrapChanged(new u: Uid)
      requires OnlyWrapChanged(u) && this in Repr && WrapShown(u)
      ensures Valid()
    {
      forall v | v in uid2convItems && v != u ensures v in mem.wraps && WrapShown(v) {
        WrapChangedOther(u, v);
      }
    }

    /** A user's wrap lists no other user's entry. */
    twostate lemma EntryApart(new v: Uid, new e: MemberConv)
      requires old(Valid()) && v in old(uid2convItems) && e.owner != v
      ensures e !in old(uid2convItems[v].entries)
    {
      assert old(WrapShown(v));
    }

    /** Only one entry object of user u changed, and mem says so. */
    twostate predicate OnlyEntryChanged(new u: Uid, new e: MemberConv)
      reads this, Repr
    {
      && old(Valid()) && Repr == old(Repr) && MemOk(mem)
      && convId2items == old(convId2items) && uid2convItems == old(uid2convItems)
      && u in uid2convItems && u in mem.wraps
      && mem == old(mem).(wraps := old(mem.wraps)[u := mem.wraps[u]])
      && e.owner == u
      && forall o :: o in old(Repr) && o != this && o != e ==> unchanged(o)
    }

    twostate lemma EntryChangedOther(new u: Uid, new e: MemberConv, new v: Uid)
      requires OnlyEntryChanged(u, e) && v in uid2convItems && v != u
      ensures v in mem.wraps && WrapShown(v)
    {
      assert old(WrapShown(v));
      EntryApart(v, e);
      OtherWrap(v, {this, e});
    }

    twostate lemma EntryChanged(new u: Uid, new e: MemberConv)
      requires OnlyEntryChanged(u, e) && WrapShown(u)
      ensures Valid()
    {
      forall v | v in uid2convItems && v != u ensures v in mem.wraps && WrapShown(v) {
        EntryChangedOther(u, e, v);
      }
    }

    /** The step a write makes: one entry object has new counters, mem follows. */
    twostate predicate EntryWritten(new u: Uid, new c: ConvId, new x: MemberConvWrap, new e: MemberConv)
      reads this, e, Repr
    {
      && old(Valid()) && Repr == old(Repr)
      && convId2items == old(convId2items) && uid2convItems == old(uid2convItems)
      && u in uid2convItems && x == uid2convItems[u] && x in old(Repr)
      && c in old(x.convId2Item) && e == old(x.convId2Item[c]) && e.owner == u
      && mem == PutMeb(old(mem), u, c, e.Value())
      && forall o :: o in old(Repr) && o != this && o != e ==> unchanged(o)
    }

    twostate lemma EntryWrittenShows(new u: Uid, new c: ConvId, new x: MemberConvWrap, new e: MemberConv)
      requires EntryWritten(u, c, x, e)
      ensures WrapShown(u)
    {
      assert old(WrapShown(u));
      WrapTouched(x, old(mem.wraps[u]), c);
    }

    twostate lemma EntryWrittenValid(new u: Uid, new c: ConvId, new x: MemberConvWrap, new e: MemberConv)
      requires EntryWritten(u, c, x, e)
      ensures Valid()
    {
      EntryWrittenShows(u, c, x, e);
      assert old(WrapShown(u));
      PutMebOk(old(mem), u, c, e.Value());
      EntryChanged(u, e);
    }

    /** The step an append makes: one wrap lists one more entry object, mem follows. */
    twostate predicate EntryAdded(new u: Uid, new c: ConvId, new x: MemberConvWrap, new e: MemberConv)
      reads this, x, e, Repr
    {
      && old(Valid()) && Repr == old(Repr) + {e}
      && convId2items == old(convId2items) && uid2convItems == old(uid2convItems)
      && c in convId2items && u in uid2convItems && x == uid2convItems[u] && x.owner == u
      && x.entries == old(x.entries) + {e} && mem == PutMeb(old(mem), u, c, e.Value())
      && forall o :: o in old(Repr) && o != this && o != x ==> unchanged(o)
    }

    twostate lemma AddedIsWrapChange(new u: Uid, new c: ConvId, new x: MemberConvWrap, new e: MemberConv)
      requires EntryAdded(u, c, x, e)
      ensures OnlyWrapChanged(u) && this in Repr && x in Repr && x.entries <= Repr
      ensures mem.wraps[u] == PutInWrap(old(mem.wraps[u]), c, e.Value())
    {
      assert old(WrapShown(u));
      PutMebOk(old(mem), u, c, e.Value());
    }

    twostate lemma EntryAppended(new u: Uid, new c: ConvId, new x: MemberConvWrap, new e: MemberConv)
      requires EntryAdded(u, c, x, e)
      ensures x.Holds(PutInWrap(WrapOf(old(mem), u), c, e.Value())) ==> Valid()
    {
      AddedIsWrapChange(u, c, x, e);
      if x.Holds(PutInWrap(WrapOf(old(mem), u), c, e.Value())) {
        WrapChanged(u);
      }
    }

    // ---- conversation sections ----------------------------------------------

    /** The conversation half of a load. */
    method SyncConversation(convId: ConvId, snap: Tree, group: bool)
      requires Valid()
      modifies Repr
      ensures Valid() && Repr == old(Repr)
      ensures mem == MapConv(old(mem), convId, c => SyncConv(c, snap, group))
    {
      if convId in convId2items {
        var conv := convId2items[convId];
        if conv.msgSeq <= snap.msgSeq {
          conv.msgSeq := snap.msgSeq;
          conv.lastActiveTs := snap.lastActiveTs;
          if group {
            conv.lastMsgId := snap.lastMsgId;
          }
        }
        mem := MapConv(mem, convId, c => SyncConv(c, snap, group));
        ConvTouched(convId);
      }
    }

    /** The conversation half of a publish result. */
    method AckConversation(convId: ConvId, ack: Ack)
      requires Valid()
      modifies Repr
      ensures Valid() && Repr == old(Repr)
      ensures mem == MapConv(old(mem), convId, c => AckConv(c, ack))
    {
      if convId in convId2items {
        var conv := convId2items[convId];
        if ack.msgId > conv.lastMsgId {
          conv.lastMsgId := ack.msgId;
        }
        if ack.num > conv.msgSeq {
          conv.msgSeq := ack.num;
        }
        if ack.ts > conv.lastActiveTs {
          conv.lastActiveTs := ack.ts;
        }
        mem := MapConv(mem, convId, c => AckConv(c, ack));
        ConvTouched(convId);
      }
    }

    /** The group-created event was published. */
    method UpdateGroupChatAfterCreatedEventSent(convId: ConvId, msgId: MsgId, activeTs: int)
      requires Valid()
      modifies Repr
      ensures Valid() && Repr == old(Repr)
      ensures mem == MapConv(old(mem), convId, c => CreatedEventSent(c, msgId, activeTs))
    {
      if convId in convId2items {
        var conv := convId2items[convId];
        if msgId > conv.lastMsgId {
          conv.lastMsgId := msgId;
        }
        if activeTs > conv.lastActiveTs {
          conv.lastActiveTs := activeTs;
        }
        mem := MapConv(mem, convId, c => CreatedEventSent(c, msgId, activeTs));
        ConvTouched(convId);
      }
    }

    /** Takes messages from the front until the queue fits. */
    method Trimmed(all: seq<Msg>) returns (queue: seq<Msg>)
      ensures queue == LastN(all, msgCap)
    {
      queue := all;
      while |queue| > msgCap
        invariant |queue| <= |all| && queue == all[|all| - |queue|..]
        invariant |all| >= msgCap ==> |queue| >= msgCap
        invariant |all| < msgCap ==> queue == all
      {
        queue := queue[1..];
      }
    }

    /** The conversation half of a stored-message event: the newest message by id,
        and the bounded queue trimmed from the front. */
    method StoreMessage(convId: ConvId, msg: Msg) returns (last: Option<Msg>, activeTs: int)
      requires Valid()
      modifies Repr
      ensures Valid() && Repr == old(Repr)
      ensures mem == MapConv(old(mem), convId, c => StoreMsg(c, msg, msgCap))
      ensures last.Some? <==> convId in old(mem).convs && msg.id >= old(mem).convs[convId].lastMsgId
      ensures last.Some? ==> last == Some(msg) && activeTs == old(mem).convs[convId].lastActiveTs
    {
      last, activeTs := None, 0;
      if convId in convId2items {
        var conv := convId2items[convId];
        if msg.id >= conv.lastMsgId {
          conv.lastMsgId := msg.id;
          conv.lastMsg := Some(msg);
          last, activeTs := Some(msg), conv.lastActiveTs;
        }
        conv.recentlyMsgs := Trimmed(conv.recentlyMsgs + [msg]);
        mem := MapConv(mem, convId, c => StoreMsg(c, msg, msgCap));
        ConvTouched(convId);
      }
    }

    /** Caches a new conversation object. */
    method AddConversation(convId: ConvId, members: set<Uid>)
      requires Valid() && convId !in convId2items
      modifies this
      ensures Valid() && Grown()
      ensures mem == AddConv(old(mem), convId, NewConv(members))
    {
      var conv := new Conversation(convId, members);
      convId2items := convId2items[convId := conv];
      mem := AddConv(mem, convId, NewConv(members));
      Repr := Repr + {conv};
      forall v | v in uid2convItems ensures v in mem.wraps && WrapShown(v) {
        assert old(WrapShown(v));
        OtherWrap(v, {this});
      }
    }

    /** The lookup section of a one-to-one send: what is cached wins; otherwise the
        rows are loaded or the conversation is created. Returns the items whose
        tree is to be loaded next, none when there is nothing to load. */
    method LookupP2p(convId: ConvId, sender: Uid, receiver: Uid, rows: seq<Uid>, outcome: LookupOutcome)
      returns (refused: bool, items: seq<Uid>)
      requires Valid()
      modifies this
      ensures Valid() && Grown()
      ensures mem == if refused then old(mem) else AddConv(old(mem), convId, NewConv({sender, receiver}))
      ensures refused <==>
                && convId !in old(mem).convs
                && (outcome.ReadErr? || (rows == [] && (!outcome.Fine? || sender == receiver)))
      ensures items == if refused || convId in old(mem).convs then []
                       else if rows != [] then rows
                       else NewItems(Send(sender, [receiver], Arrived))
    {
      refused, items := false, [];
      if convId in convId2items {
        return;
      }
      if outcome.ReadErr? || (rows == [] && (!outcome.Fine? || sender == receiver)) {
        refused := true;
        return;
      }
      items := if rows != [] then rows else [sender, receiver];
      AddConversation(convId, {sender, receiver});
    }

    /** The lookup section of a group send: without rows an empty conversation is
        cached and nothing is loaded. */
    method LookupGroup(convId: ConvId, rows: seq<Uid>, readFailed: bool)
      returns (refused: bool, items: seq<Uid>)
      requires Valid()
      modifies this
      ensures Valid() && Grown()
      ensures mem == if refused then old(mem) else AddConv(old(mem), convId, NewConv(set u | u in rows))
      ensures refused <==> convId !in old(mem).convs && readFailed
      ensures items == if refused || convId in old(mem).convs then [] else rows
    {
      refused, items := false, [];
      if convId !in convId2items {
        if readFailed {
          refused := true;
          return;
        }
        items := rows;
        AddConversation(convId, set u | u in rows);
      }
    }

    // ---- member sections ------------------------------------------------------

    /** Creates a user's wrap when the user has none. */
    method EnsureWrap(uid: Uid)
      requires Valid()
      modifies this
      ensures Valid() && Grown() && uid in uid2convItems
      ensures mem == WithWrap(old(mem), uid)
    {
      if uid !in uid2convItems {
        var wrap := new MemberConvWrap(uid);
        uid2convItems := uid2convItems[uid := wrap];
        mem := mem.(wraps := mem.wraps[uid := EMPTY_WRAP]);
        Repr := Repr + {wrap};
        UserTouched(uid, {this});
      }
    }

    /** The writes of an append: the entry goes into the wrap, and mem follows. */
    method AppendTo(wrap: MemberConvWrap, uid: Uid, convId: ConvId, browse: int, unread: int, ghost w: Wrap)
      returns (mebConv: MemberConv)
      requires wrap.Holds(w) && convId !in wrap.convId2Item
      modifies this`mem, this`Repr, wrap
      ensures fresh(mebConv) && mebConv.Value() == Meb(browse, unread)
      ensures wrap.entries == old(wrap.entries) + {mebConv}
      ensures wrap.Holds(PutInWrap(w, convId, Meb(browse, unread)))
      ensures mem == PutMeb(old(mem), uid, convId, Meb(browse, unread)) && Repr == old(Repr) + {mebConv}
    {
      mem := PutMeb(mem, uid, convId, Meb(browse, unread));
      mebConv := wrap.Append(convId, browse, unread, w);
      Repr := Repr + {mebConv};
    }

    /** Appends a new entry for a conversation the user has no entry for. */
    method AppendEntry(uid: Uid, convId: ConvId, browse: int, unread: int) returns (mebConv: MemberConv)
      requires Valid() && convId in convId2items
      requires uid in uid2convItems && convId !in uid2convItems[uid].convId2Item
      modifies this`mem, this`Repr, uid2convItems[uid]
      ensures Valid() && fresh(mebConv) && Repr == old(Repr) + {mebConv}
      ensures mem == PutMeb(old(mem), uid, convId, Meb(browse, unread))
    {
      assert WrapShown(uid);
      mebConv := AppendTo(uid2convItems[uid], uid, convId, browse, unread, mem.wraps[uid]);
      EntryAppended(uid, convId, uid2convItems[uid], mebConv);
    }

    /** The writes of an update: two counters, and mem follows. */
    method WriteTo(mebConv: MemberConv, uid: Uid, convId: ConvId, browse: int, unread: int)
      modifies this`mem, mebConv
      ensures mebConv.Value() == Meb(browse, unread) && mem == PutMeb(old(mem), uid, convId, Meb(browse, unread))
    {
      mebConv.browseMsgSeq := browse;
      mebConv.unreadCount := unread;
      mem := PutMeb(mem, uid, convId, Meb(browse, unread));
    }

    /** Overwrites the two counters of an entry that is there. */
    method WriteEntry(uid: Uid, convId: ConvId, browse: int, unread: int)
      requires Valid() && uid in uid2convItems && convId in uid2convItems[uid].convId2Item
      modifies this, uid2convItems[uid].convId2Item[convId]
      ensures Valid() && Repr == old(Repr)
      ensures mem == PutMeb(old(mem), uid, convId, Meb(browse, unread))
    {
      var wrap := uid2convItems[uid];
      assert WrapShown(uid);
      var mebConv := wrap.convId2Item[convId];
      WriteTo(mebConv, uid, convId, browse, unread);
      EntryWrittenValid(uid, convId, wrap, mebConv);
    }

    /** Sets the entry of a user who has a wrap. */
    method PutEntry(uid: Uid, convId: ConvId, browse: int, unread: int)
      requires Valid() && convId in convId2items && uid in uid2convItems
      modifies Repr
      ensures Valid() && Grown()
      ensures mem == PutMeb(old(mem), uid, convId, Meb(browse, unread))
    {
      assert WrapShown(uid);
      if convId in uid2convItems[uid].convId2Item {
        WriteEntry(uid, convId, browse, unread);
      } else {
        var _ := AppendEntry(uid, convId, browse, unread);
      }
    }

    /** The member half of a load, one user. */
    method SyncMember(convId: ConvId, uid: Uid, browse: int, unread: int)
      requires Valid() && convId in convId2items
      modifies Repr
      ensures Valid() && Grown()
      ensures mem == PutMeb(old(mem), uid, convId, Meb(browse, unread))
    {
      EnsureWrap(uid);
      PutEntry(uid, convId, browse, unread);
      WithWrapAbsorbed(old(mem), uid, convId, Meb(browse, unread));
    }

    /** What a snapshot makes of one user's counters. */
    static method LoadedCounters(snap: Tree, uid: Uid) returns (browse: int, unread: int)
      ensures Meb(browse, unread) == LoadMeb(snap, uid)
    {
      browse := Browse(snap, uid);
      unread := snap.msgSeq - browse;
      if unread < 0 {
        unread := 0;
      }
    }

    /** The member loop of a load. */
    method SyncMembers(convId: ConvId, items: seq<Uid>, snap: Tree)
      requires Valid() && convId in convId2items
      modifies Repr
      ensures Valid() && Grown()
      ensures mem == PutLoaded(old(mem), items, convId, snap)
    {
      ghost var before := mem;
      for i := 0 to |items|
        invariant Valid() && Grown() && convId in convId2items
        invariant mem == PutLoaded(before, items[..i], convId, snap)
      {
        var browse, unread := LoadedCounters(snap, items[i]);
        PutLoadedNext(before, items, i, convId, snap);
        SyncMember(convId, items[i], browse, unread);
      }
      assert items[..|items|] == items;
    }

    /** A user's entry for a conversation, null when there is none. */
    method FindEntry(convId: ConvId, uid: Uid) returns (item: MemberConv?)
      requires Valid()
      ensures item != null <==> HasEntry(mem, uid, convId)
      ensures item != null ==> item.Value() == mem.wraps[uid].items[convId]
      ensures item != null ==> uid in uid2convItems && convId in uid2convItems[uid].convId2Item
                               && item == uid2convItems[uid].convId2Item[convId]
                               && uid2convItems[uid] in Repr && item in Repr
    {
      item := null;
      if uid in uid2convItems {
        assert WrapShown(uid);
        if convId in uid2convItems[uid].convId2Item {
          item := uid2convItems[uid].convId2Item[convId];
        }
      }
    }

    /** The member half of a publish result, one user. */
    method AckMember(convId: ConvId, ack: Ack, uid: Uid)
      requires Valid()
      modifies Repr
      ensures Valid() && Repr == old(Repr)
      ensures mem == MapMeb(old(mem), uid, convId, e => AckMeb(e, ack, uid))
    {
      var item := FindEntry(convId, uid);
      if item != null {
        var browse, unread := AckedCounters(item, ack, uid);
        WriteEntry(uid, convId, browse, unread);
      }
    }

    /** What a publish result makes of one entry's counters. */
    static method AckedCounters(item: MemberConv, ack: Ack, uid: Uid) returns (browse: int, unread: int)
      ensures Meb(browse, unread) == AckMeb(item.Value(), ack, uid)
    {
      browse, unread := item.browseMsgSeq, 0;
      if uid == ack.sender {
        if ack.num > browse {
          browse := ack.num;
        }
      } else {
        unread := ack.num - browse;
        if unread < 0 {
          unread := 0;
        }
      }
    }

    /** One successful publish result: the conversation, then every member with the
        sender last. */
    method OnPublished(convId: ConvId, ack: Ack, members: seq<Uid>)
      requires Valid()
      modifies Repr
      ensures Valid() && Repr == old(Repr)
      ensures mem == AckMebs(MapConv(old(mem), convId, c => AckConv(c, ack)), convId, ack, members + [ack.sender])
    {
      AckConversation(convId, ack);
      ghost var start := mem;
      var uids := members + [ack.sender];
      for i := 0 to |uids|
        invariant Valid() && Repr == old(Repr)
        invariant mem == AckMebs(start, convId, ack, uids[..i])
      {
        AckMember(convId, ack, uids[i]);
        assert uids[..i + 1][..i] == uids[..i];
      }
      assert uids[..|uids|] == uids;
    }

    /** The memory half of clear-unread, with the number Redis answered. */
    method ClearUnread(convId: ConvId, uid: Uid, num: int)
      requires Valid()
      modifies Repr
      ensures Valid() && Repr == old(Repr)
      ensures mem == MapMeb(old(mem), uid, convId, e => ClearMeb(e, num))
    {
      var item := FindEntry(convId, uid);
      if item != null {
        WriteEntry(uid, convId, num, 0);
      }
    }

    /** Gives a user a zero entry unless there is one. */
    method AddMember(convId: ConvId, uid: Uid)
      requires Valid() && convId in convId2items
      modifies Repr
      ensures Valid() && Grown()
      ensures mem == if HasEntry(old(mem), uid, convId) then old(mem) else PutMeb(old(mem), uid, convId, Meb(0, 0))
    {
      EnsureWrap(uid);
      assert WrapShown(uid);
      WithWrapAbsorbed(old(mem), uid, convId, Meb(0, 0));
      if convId !in uid2convItems[uid].convId2Item {
        PutEntry(uid, convId, 0, 0);
      }
    }

    /** Gives every member an entry, keeping what is already there. */
    method AddMembers(convId: ConvId, members: seq<Uid>)
      requires Valid() && convId in convId2items
      modifies Repr
      ensures Valid() && Grown()
      ensures mem == AddMebs(old(mem), convId, members)
    {
      ghost var start := mem;
      for i := 0 to |members|
        invariant Valid() && Grown() && convId in convId2items
        invariant mem == AddMebs(start, convId, members[..i])
      {
        AddMebsNext(start, convId, members, i);
        AddMember(convId, members[i]);
      }
      assert members[..|members|] == members;
    }

    /** A group chat was created: cache the conversation and give every member an
        entry, keeping what is already there. */
    method UpsertGroupChatConv(convId: ConvId, members: seq<Uid>)
      requires Valid()
      modifies Repr
      ensures Valid() && Grown()
      ensures mem == AddMebs(AddConv(old(mem), convId, NewConv(set u | u in members)), convId, members)
    {
      if convId !in convId2items {
        AddConversation(convId, set u | u in members);
      }
      AddMembers(convId, members);
    }

    // ---- reading ----------------------------------------------------------------

    /** A stored-message event: the conversation section, then the unread counts of
        the sender and the receivers who have an entry. */
    method OnMsgStored(convId: ConvId, msg: Msg, receivers: seq<Uid>)
      returns (last: Option<Msg>, activeTs: int, unread: map<Uid, int>)
      requires Valid()
      modifies Repr
      ensures Valid() && Repr == old(Repr)
      ensures mem == MapConv(old(mem), convId, c => StoreMsg(c, msg, msgCap))
      ensures last.Some? <==> convId in old(mem).convs && msg.id >= old(mem).convs[convId].lastMsgId
      ensures last.Some? ==> last == Some(msg) && activeTs == old(mem).convs[convId].lastActiveTs
      ensures UnreadOf(unread, mem, convId, [msg.sender] + receivers)
    {
      last, activeTs := StoreMessage(convId, msg);
      unread := ReadUnread(convId, [msg.sender] + receivers);
    }

    method ReadUnread(convId: ConvId, uids: seq<Uid>) returns (unread: map<Uid, int>)
      requires Valid()
      ensures UnreadOf(unread, mem, convId, uids)
    {
      unread := map[];
      for i := 0 to |uids|
        invariant UnreadOf(unread, mem, convId, uids[..i])
      {
        var count := UnreadOfUser(uids[i], convId);
        assert uids[..i + 1] == uids[..i] + [uids[i]];
        if count.Some? {
          unread := unread[uids[i] := count.value];
        }
      }
      assert uids[..|uids|] == uids;
    }

    method UnreadOfUser(uid: Uid, convId: ConvId) returns (count: Option<int>)
      requires Valid()
      ensures count == if HasEntry(mem, uid, convId) then Some(mem.wraps[uid].items[convId].unread) else None
    {
      var item := FindEntry(convId, uid);
      count := if item == null then None else Some(item.unreadCount);
    }

    /** A user's conversation list in list order. A row would be missing where a
        listed conversation is not cached; none ever is. */
    method ConvList(uid: Uid) returns (rows: seq<Option<ConvListItem>>, found: bool)
      requires Valid()
      ensures found <==> WrapOf(mem, uid).order != []
      ensures |rows| == |WrapOf(mem, uid).order|
      ensures forall i :: 0 <= i < |rows| ==>
                rows[i].Some? && Lists(rows[i].value, mem, uid, WrapOf(mem, uid).order[i])
    {
      rows, found := [], false;
      if uid in uid2convItems {
        assert WrapShown(uid);
        var items := uid2convItems[uid].convItems;
        ghost var order := mem.wraps[uid].order;
        found := |items| > 0;
        for i := 0 to |items|
          invariant |rows| == i
          invariant forall k :: 0 <= k < i ==> rows[k].Some? && Lists(rows[k].value, mem, uid, order[k])
        {
          var item := items[i];
          assert order[i] in mem.wraps[uid].items && item.id == order[i];
          if item.id in convId2items {
            var conv := convId2items[item.id];
            var row := ConvListItem(item.id, conv.msgSeq, conv.lastMsg, item.browseMsgSeq, item.unreadCount);
            rows := rows + [Some(row)];
          } else {
            rows := rows + [None];
          }
        }
      }
    }
  }
}
