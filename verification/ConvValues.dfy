/** One conversation as the topic server and Redis see it: the in-memory copy,
    the per-user entry, the Redis tree, and the pure effect of every atomic
    section on them. The protocol (ConvProtocol) and the imperative manager
    (ConvManager) share these definitions. */
module ConvValues {
  import opened Basics

  type Uid = string
  type ConvId = string
  type MsgId = int

  datatype Msg = Msg(id: MsgId, num: int, sender: Uid, content: string)

  /** The in-memory conversation. */
  datatype Conv = Conv(
    members: set<Uid>,
    msgSeq: int,
    lastMsgId: MsgId,
    lastActiveTs: int,
    lastMsg: Option<Msg>,
    recent: seq<Msg>)

  /** One user's in-memory entry for a conversation. */
  datatype Meb = Meb(browse: int, unread: int)

  /** The Redis hash of a conversation; a user without a browse field reads as 0. */
  datatype Tree = Tree(msgSeq: nat, lastMsgId: MsgId, lastActiveTs: int, browse: map<Uid, nat>)

  /** What a successful publish reports back. */
  datatype Ack = Ack(num: int, msgId: MsgId, ts: int, sender: Uid)

  const EMPTY_TREE := Tree(0, 0, 0, map[])

  function Browse(t: Tree, u: Uid): nat {
    if u in t.browse then t.browse[u] else 0
  }

  // ---- the store -------------------------------------------------------

  /** convTreeLuaScript: one more number, and the sender has seen it. */
  function IssueNumber(t: Tree, sender: Uid, msgId: MsgId, ts: int): Tree {
    Tree(t.msgSeq + 1, msgId, ts, t.browse[sender := t.msgSeq + 1])
  }

  /** clearUnreadLuaScript: the reader has seen every number issued so far. */
  function ClearInTree(t: Tree, u: Uid): Tree {
    t.(browse := t.browse[u := t.msgSeq])
  }

  /** UpsertConv's HMSET: zero counters, a zero browse field per item. */
  function ZeroInto(t: Tree, items: seq<Uid>): Tree {
    Tree(0, 0, 0, map u | u in t.browse.Keys + (set i | i in items) :: if u in items then 0 else t.browse[u])
  }

  /** The unread count SyncHotConvList recomputes from the store. */
  function StoreUnread(t: Tree, u: Uid): int {
    Clamp(t.msgSeq - Browse(t, u))
  }

  // ---- the copy --------------------------------------------------------

  function NewConv(members: set<Uid>): Conv {
    Conv(members, 0, 0, 0, None, [])
  }

  /** The conversation half of a load; only the group path takes last_msg_id. */
  function SyncConv(c: Conv, snap: Tree, group: bool): Conv {
    if c.msgSeq <= snap.msgSeq then
      c.(msgSeq := snap.msgSeq,
         lastActiveTs := snap.lastActiveTs,
         lastMsgId := if group then snap.lastMsgId else c.lastMsgId)
    else c
  }

  /** The member half of a load. */
  function LoadMeb(snap: Tree, u: Uid): Meb {
    Meb(Browse(snap, u), Clamp(snap.msgSeq - Browse(snap, u)))
  }

  /** The conversation half of a successful publish result. */
  function AckConv(c: Conv, a: Ack): Conv {
    c.(lastMsgId := Max(c.lastMsgId, a.msgId),
       msgSeq := Max(c.msgSeq, a.num),
       lastActiveTs := Max(c.lastActiveTs, a.ts))
  }

  /** The member half of a successful publish result. */
  function AckMeb(m: Meb, a: Ack, u: Uid): Meb {
    if u == a.sender then Meb(Max(m.browse, a.num), 0)
    else m.(unread := Clamp(a.num - m.browse))
  }

  /** The in-memory half of clear-unread, with the number Redis answered. */
  function ClearMeb(m: Meb, num: int): Meb {
    Meb(num, 0)
  }

  /** A stored-message event. */
  function StoreMsg(c: Conv, m: Msg, cap: nat): Conv {
    var c' := if m.id >= c.lastMsgId then c.(lastMsgId := m.id, lastMsg := Some(m)) else c;
    c'.(recent := LastN(c.recent + [m], cap))
  }

  /** The group-created event's publish result. */
  function CreatedEventSent(c: Conv, msgId: MsgId, ts: int): Conv {
    c.(lastMsgId := Max(c.lastMsgId, msgId), lastActiveTs := Max(c.lastActiveTs, ts))
  }

  // ---- facts about single sections --------------------------------------

  /** Whatever the order of loads, acks and clears, an entry's unread count is
      bounded by what the conversation shows as unseen. */
  ghost predicate UnreadBounded(m: Meb, msgSeq: int) {
    0 <= m.unread <= Clamp(msgSeq - m.browse)
  }

  lemma LastNSlides<T>(s: seq<T>, x: T, n: nat)
    ensures LastN(LastN(s, n) + [x], n) == LastN(s + [x], n)
  {
  }
}
