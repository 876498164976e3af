/** The topic server's whole in-memory copy as a value: every conversation, and per
    user the ordered list of that user's entries. Each function is the effect of one
    section of the manager on it. */
module ConvMemory {
  import opened Basics
  import opened ConvValues

  /** A user's entries: the list order, and the entry of each listed conversation. */
  datatype Wrap = Wrap(order: seq<ConvId>, items: map<ConvId, Meb>)

  datatype Mem = Mem(convs: map<ConvId, Conv>, wraps: map<Uid, Wrap>)

  const EMPTY_WRAP := Wrap([], map[])

  /** A user's list and index hold the same conversations, once each. */
  ghost predicate WrapOk(w: Wrap) {
    NoDup(w.order) && forall c :: c in w.items <==> c in w.order
  }

  ghost predicate MemOk(m: Mem) {
    forall u :: u in m.wraps ==> WrapOk(m.wraps[u]) && forall c :: c in m.wraps[u].items ==> c in m.convs
  }

  function WrapOf(m: Mem, u: Uid): Wrap {
    if u in m.wraps then m.wraps[u] else EMPTY_WRAP
  }

  function HasEntry(m: Mem, u: Uid, c: ConvId): bool {
    u in m.wraps && c in m.wraps[u].items
  }

  function PutInWrap(w: Wrap, c: ConvId, e: Meb): Wrap {
    Wrap(if c in w.items then w.order else w.order + [c], w.items[c := e])
  }

  lemma PutInWrapOk(w: Wrap, c: ConvId, e: Meb)
    requires WrapOk(w)
    ensures WrapOk(PutInWrap(w, c, e))
  {
    var w' := PutInWrap(w, c, e);
    if c !in w.items {
      forall d ensures d in w'.order <==> d in w.order || d == c {
        assert w'.order[|w.order|] == c;
        if d in w.order {
          var i :| 0 <= i < |w.order| && w.order[i] == d;
          assert w'.order[i] == d;
        }
      }
    }
  }

  /** Sets an entry, appending it to the user's list when it is new. */
  function PutMeb(m: Mem, u: Uid, c: ConvId, e: Meb): Mem {
    m.(wraps := m.wraps[u := PutInWrap(WrapOf(m, u), c, e)])
  }

  lemma PutMebOk(m: Mem, u: Uid, c: ConvId, e: Meb)
    requires MemOk(m) && c in m.convs
    ensures MemOk(PutMeb(m, u, c, e))
  {
    assert WrapOk(WrapOf(m, u));
    PutInWrapOk(WrapOf(m, u), c, e);
  }

  /** An empty wrap is as good as none. */
  function WithWrap(m: Mem, u: Uid): Mem {
    m.(wraps := m.wraps[u := WrapOf(m, u)])
  }

  lemma WithWrapAbsorbed(m: Mem, u: Uid, c: ConvId, e: Meb)
    ensures PutMeb(WithWrap(m, u), u, c, e) == PutMeb(m, u, c, e)
    ensures u in m.wraps ==> WithWrap(m, u) == m
  {
    var w := PutInWrap(WrapOf(m, u), c, e);
    assert m.wraps[u := WrapOf(m, u)][u := w] == m.wraps[u := w];
  }

  function PutLoaded(m: Mem, items: seq<Uid>, c: ConvId, snap: Tree): Mem {
    if items == [] then m
    else
      var u := items[|items| - 1];
      PutMeb(PutLoaded(m, items[..|items| - 1], c, snap), u, c, LoadMeb(snap, u))
  }

  lemma PutLoadedNext(m: Mem, items: seq<Uid>, i: nat, c: ConvId, snap: Tree)
    requires i < |items|
    ensures PutLoaded(m, items[..i + 1], c, snap)
         == PutMeb(PutLoaded(m, items[..i], c, snap), items[i], c, LoadMeb(snap, items[i]))
  {
    assert items[..i + 1][..i] == items[..i];
  }

  /** Changes a conversation that is there. */
  function MapConv(m: Mem, c: ConvId, f: Conv -> Conv): Mem {
    if c in m.convs then m.(convs := m.convs[c := f(m.convs[c])]) else m
  }

  /** Changes an entry that is there. */
  function MapMeb(m: Mem, u: Uid, c: ConvId, f: Meb -> Meb): Mem {
    if HasEntry(m, u, c) then PutMeb(m, u, c, f(m.wraps[u].items[c])) else m
  }

  function AckMebs(m: Mem, c: ConvId, a: Ack, uids: seq<Uid>): Mem {
    if uids == [] then m
    else
      var u := uids[|uids| - 1];
      MapMeb(AckMebs(m, c, a, uids[..|uids| - 1]), u, c, e => AckMeb(e, a, u))
  }

  /** UpsertGroupChatConv's member loop: adds the missing entries, keeps the others. */
  function AddMebs(m: Mem, c: ConvId, uids: seq<Uid>): Mem {
    if uids == [] then m
    else
      var m' := AddMebs(m, c, uids[..|uids| - 1]);
      var u := uids[|uids| - 1];
      if HasEntry(m', u, c) then m' else PutMeb(m', u, c, Meb(0, 0))
  }

  lemma AddMebsNext(m: Mem, c: ConvId, uids: seq<Uid>, i: nat)
    requires i < |uids|
    ensures var m' := AddMebs(m, c, uids[..i]);
            AddMebs(m, c, uids[..i + 1]) == if HasEntry(m', uids[i], c) then m' else PutMeb(m', uids[i], c, Meb(0, 0))
  {
    assert uids[..i + 1][..i] == uids[..i];
  }

  function AddConv(m: Mem, c: ConvId, v: Conv): Mem {
    if c in m.convs then m else m.(convs := m.convs[c := v])
  }
}
