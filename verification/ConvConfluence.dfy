/** Publish results may reach the cached conversation in any order and more than once.
    The counters they leave behind do not depend on it. */
module ConvConfluence {
  import opened Basics
  import opened ConvValues

  function FoldAcks(c: Conv, acks: seq<Ack>): Conv {
    if acks == [] then c else AckConv(FoldAcks(c, acks[..|acks| - 1]), acks[|acks| - 1])
  }

  /** One user's entry under a series of publish results. */
  function FoldMeb(m: Meb, acks: seq<Ack>, u: Uid): Meb {
    if acks == [] then m else AckMeb(FoldMeb(m, acks[..|acks| - 1], u), acks[|acks| - 1], u)
  }

  /** x is the start joined with the maximum of xs. */
  ghost predicate Joins(x: int, start: int, xs: set<int>) {
    start <= x && (forall y :: y in xs ==> y <= x) && (x == start || x in xs)
  }

  lemma JoinIsUnique(x: int, y: int, start: int, xs: set<int>)
    requires Joins(x, start, xs) && Joins(y, start, xs)
    ensures x == y
  {
  }

  lemma JoinOne(x: int, start: int, xs: set<int>, y: int)
    requires Joins(x, start, xs)
    ensures Joins(Max(x, y), start, xs + {y})
  {
  }

  lemma {:induction false} AcksJoin(c: Conv, acks: seq<Ack>)
    ensures var r := FoldAcks(c, acks);
            && Joins(r.msgSeq, c.msgSeq, set a | a in acks :: a.num)
            && Joins(r.lastMsgId, c.lastMsgId, set a | a in acks :: a.msgId)
            && Joins(r.lastActiveTs, c.lastActiveTs, set a | a in acks :: a.ts)
            && r.members == c.members && r.lastMsg == c.lastMsg && r.recent == c.recent
  {
    if acks != [] {
      var init, last := acks[..|acks| - 1], acks[|acks| - 1];
      AcksJoin(c, init);
      assert forall a :: a in acks <==> a in init || a == last;
      assert (set a | a in acks :: a.num) == (set a | a in init :: a.num) + {last.num};
      assert (set a | a in acks :: a.msgId) == (set a | a in init :: a.msgId) + {last.msgId};
      assert (set a | a in acks :: a.ts) == (set a | a in init :: a.ts) + {last.ts};
      var r := FoldAcks(c, init);
      JoinOne(r.msgSeq, c.msgSeq, set a | a in init :: a.num, last.num);
      JoinOne(r.lastMsgId, c.lastMsgId, set a | a in init :: a.msgId, last.msgId);
      JoinOne(r.lastActiveTs, c.lastActiveTs, set a | a in init :: a.ts, last.ts);
    }
  }

  /** The same acks in any order and any multiplicity give the same conversation. */
  lemma AcksConfluent(c: Conv, x: seq<Ack>, y: seq<Ack>)
    requires forall a :: a in x <==> a in y
    ensures FoldAcks(c, x) == FoldAcks(c, y)
  {
    AcksJoin(c, x);
    AcksJoin(c, y);
    assert (set a | a in x :: a.num) == (set a | a in y :: a.num);
    assert (set a | a in x :: a.msgId) == (set a | a in y :: a.msgId);
    assert (set a | a in x :: a.ts) == (set a | a in y :: a.ts);
    var r, s := FoldAcks(c, x), FoldAcks(c, y);
    JoinIsUnique(r.msgSeq, s.msgSeq, c.msgSeq, set a | a in x :: a.num);
    JoinIsUnique(r.lastMsgId, s.lastMsgId, c.lastMsgId, set a | a in x :: a.msgId);
    JoinIsUnique(r.lastActiveTs, s.lastActiveTs, c.lastActiveTs, set a | a in x :: a.ts);
  }

  /** A user's browse position joins the numbers of the user's own sends only. */
  lemma {:induction false} BrowseJoins(m: Meb, acks: seq<Ack>, u: Uid)
    ensures Joins(FoldMeb(m, acks, u).browse, m.browse, set a | a in acks && a.sender == u :: a.num)
  {
    if acks != [] {
      var init, last := acks[..|acks| - 1], acks[|acks| - 1];
      BrowseJoins(m, init, u);
      assert forall a :: a in acks <==> a in init || a == last;
      if last.sender == u {
        assert (set a | a in acks && a.sender == u :: a.num)
            == (set a | a in init && a.sender == u :: a.num) + {last.num};
      } else {
        assert (set a | a in acks && a.sender == u :: a.num) == (set a | a in init && a.sender == u :: a.num);
      }
    }
  }

  lemma BrowseConfluent(m: Meb, x: seq<Ack>, y: seq<Ack>, u: Uid)
    requires forall a :: a in x <==> a in y
    ensures FoldMeb(m, x, u).browse == FoldMeb(m, y, u).browse
  {
    BrowseJoins(m, x, u);
    BrowseJoins(m, y, u);
    assert (set a | a in x && a.sender == u :: a.num) == (set a | a in y && a.sender == u :: a.num);
  }
}
