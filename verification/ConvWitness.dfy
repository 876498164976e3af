/** Runs that show what the conditions of ConvRest and ConvAgreement are there for:
    results out of order, and a clear-unread cut in two. */
module ConvWitness {
  import opened Basics
  import opened ConvValues
  import opened ConvProtocol
  import opened ConvSafety
  import opened ConvArrival
  import opened ConvAgreement
  import opened ConvActivity
  import opened ConvRest

  // ---- single actions and whole results, in a row ---------------------------------

  function Processed(s: State, m: MsgId): State {
    Do(Do(Do(Do(s, AckConversation(m)), AckMember(m)), AckMember(m)), AckMember(m))
  }

  lemma HandOverEffect(s: State, m: MsgId)
    requires s.mem.Some? && m in s.sends && s.sends[m].phase.Publishing?
    requires s.sends[m].to != [] && s.sends[m].to[0] in s.mem.value.members
    ensures Do(s, PublishOk(m)) == At(s, m, InFlight(s.sends[m].phase.num, s.sends[m].phase.ts))
  {
  }

  /** The member sections of a result, in a row. */
  lemma MembersEffect(s: State, m: MsgId, x: Uid, y: Uid)
    requires m in s.sends && s.sends[m].phase.AckingMebs? && s.sends[m].phase.left == [x, y]
    requires x != y && x in s.mebs && y in s.mebs
    ensures var p, ack := s.sends[m].phase, AckOf(s, m);
            Do(Do(Do(s, AckMember(m)), AckMember(m)), AckMember(m))
            == At(s, m, Acked(p.num)).(mebs := s.mebs[x := AckMeb(s.mebs[x], ack, x)][y := AckMeb(s.mebs[y], ack, y)])
  {
    var sd, p := s.sends[m], s.sends[m].phase;
    var s2 := Do(s, AckMember(m));
    assert [x, y][1..] == [y];
    assert s2.sends == s.sends[m := sd.(phase := AckingMebs(p.num, p.ts, [y]))];
    var s3 := Do(s2, AckMember(m));
    assert [y][1..] == [];
    assert s3.sends == s.sends[m := sd.(phase := AckingMebs(p.num, p.ts, []))];
    assert Do(s3, AckMember(m)).sends == s.sends[m := sd.(phase := Acked(p.num))];
  }

  lemma ProcessEffect(s: State, a: Uid, b: Uid, m: MsgId)
    requires m in s.sends && s.sends[m].phase.InFlight? && s.mem.Some?
    requires a != b && s.mebs.Keys == {a, b}
    requires Between(s.sends[m], a, b)
    ensures Processed(s, m) == At(s, m, Acked(s.sends[m].phase.num)).(
              mem := Some(AckConv(s.mem.value, AckOf(s, m))),
              mebs := map[a := AckMeb(s.mebs[a], AckOf(s, m), a), b := AckMeb(s.mebs[b], AckOf(s, m), b)])
  {
    var sd, ack := s.sends[m], AckOf(s, m);
    var x, y := sd.to[0], sd.sender;
    var s1 := DoAckConversation(s, m);
    assert sd.to + [sd.sender] == [x, y];
    MembersEffect(s1, m, x, y);
    assert s.sends[m := s1.sends[m]][m := sd.(phase := Acked(ack.num))] == s.sends[m := sd.(phase := Acked(ack.num))];
    assert s.mebs[x := AckMeb(s.mebs[x], ack, x)][y := AckMeb(s.mebs[y], ack, y)]
        == map[a := AckMeb(s.mebs[a], ack, a), b := AckMeb(s.mebs[b], ack, b)];
  }

  lemma ThenSend(s: State, a: Uid, b: Uid, macs: seq<Macro>, m: MsgId, fromA: bool) returns (more: seq<Macro>)
    ensures MRun(s, a, b, more) == MStep(MRun(s, a, b, macs), a, b, SendFrom(m, fromA))
  {
    more := macs + [SendFrom(m, fromA)];
    MRunSnoc(s, a, b, macs, SendFrom(m, fromA));
  }

  lemma ThenOne(s: State, a: Uid, b: Uid, macs: seq<Macro>, act: Action) returns (more: seq<Macro>)
    requires Single(act)
    ensures more == macs + [One(act)] && MRun(s, a, b, more) == Do(MRun(s, a, b, macs), act)
  {
    more := macs + [One(act)];
    MRunSnoc(s, a, b, macs, One(act));
    OneScript(MRun(s, a, b, macs), a, b, act);
  }

  lemma ThenProcess(s: State, a: Uid, b: Uid, macs: seq<Macro>, m: MsgId) returns (more: seq<Macro>)
    ensures MRun(s, a, b, more) == Processed(MRun(s, a, b, macs), m)
    ensures |more| > |macs| && more[..|macs|] == macs && more[|macs|] == One(AckConversation(m))
  {
    more := ThenOne(s, a, b, macs, AckConversation(m));
    more := ThenOne(s, a, b, more, AckMember(m));
    more := ThenOne(s, a, b, more, AckMember(m));
    more := ThenOne(s, a, b, more, AckMember(m));
  }

  lemma RunProcessed(s: State, acts: seq<Action>, m: MsgId) returns (longer: seq<Action>)
    ensures Run(s, longer) == Processed(Run(s, acts), m)
  {
    longer := RunDo(s, acts, AckConversation(m));
    longer := RunDo(s, longer, AckMember(m));
    longer := RunDo(s, longer, AckMember(m));
    longer := RunDo(s, longer, AckMember(m));
  }

  // ---- the starting point of both witnesses ---------------------------------------

  /** A cached conversation of a and b in which nobody has read anything. */
  ghost predicate Fresh(r: State, a: Uid, b: Uid) {
    && r.kind == P2p && r.mem.Some? && r.mem.value.members == {a, b} && r.mem.value.msgSeq == 0
    && r.clears == map[] && r.mebs == map[a := Meb(0, 0), b := Meb(0, 0)] && r.rows in {[a, b], [b, a]}
  }

  lemma FirstLoaded(s: State, a: Uid, b: Uid) returns (r: State)
    requires a != b && Inv(s) && s == Init(P2p, s.cap)
    ensures r == MStep(s, a, b, SendFrom(1, true)) && Fresh(r, a, b)
    ensures r.sends == map[1 := Send(a, [b], Issuing)]
    ensures StoreSeq(r) == 0 && StoreBrowse(r, a) == StoreBrowse(r, b) == 0
  {
    SendLoads(s, a, b, 1, true);
    r := MStep(s, a, b, SendFrom(1, true));
    assert StoreBrowse(r, a) == StoreBrowse(s, a) && StoreBrowse(r, b) == StoreBrowse(s, b);
    assert LoadMeb(TreeOf(r), a) == LoadMeb(TreeOf(r), b) == Meb(0, 0);
  }

  ghost predicate OneNumbered(r: State, a: Uid, b: Uid) {
    && Fresh(r, a, b) && r.sends == map[1 := Send(a, [b], Publishing(1, 0))]
    && StoreSeq(r) == 1 && StoreBrowse(r, a) == 1 && StoreBrowse(r, b) == 0
  }

  lemma FirstNumber(s: State, a: Uid, b: Uid) returns (r: State)
    requires a != b && Fresh(s, a, b) && s.sends == map[1 := Send(a, [b], Issuing)]
    requires StoreSeq(s) == 0 && StoreBrowse(s, a) == StoreBrowse(s, b) == 0
    ensures r == Do(s, Issue(1, 0)) && OneNumbered(r, a, b)
  {
    r := DoIssue(s, 1, 0);
    assert r.sends == map[1 := Send(a, [b], Publishing(1, 0))];
  }

  /** a's first message to b, numbered. */
  lemma FirstMessage(cap: nat, a: Uid, b: Uid) returns (macs: seq<Macro>, r: State)
    requires a != b
    ensures JustStarted(Init(P2p, cap), a, b)
    ensures r == MRun(Init(P2p, cap), a, b, macs) && OneNumbered(r, a, b)
  {
    var s := Init(P2p, cap);
    var s1 := FirstLoaded(s, a, b);
    r := FirstNumber(s1, a, b);
    macs := [];
    macs := ThenSend(s, a, b, macs, 1, true);
    macs := ThenOne(s, a, b, macs, Issue(1, 0));
  }

  /** A message over a cached conversation, sent and numbered. */
  lemma SendAndNumber(s: State, a: Uid, b: Uid, m: MsgId, fromA: bool) returns (r: State)
    requires s.kind == P2p && s.mem.Some? && m !in s.sends
    ensures r == Do(MStep(s, a, b, SendFrom(m, fromA)), Issue(m, 0))
    ensures var me, other := if fromA then a else b, if fromA then b else a;
            r == s.(sends := s.sends[m := Send(me, [other], Publishing(StoreSeq(s) + 1, 0))],
                    tree := Some(IssueNumber(TreeOf(s), me, m, 0)), issued := s.issued + [m])
  {
    SendCached(s, a, b, m, fromA);
    r := DoIssue(MStep(s, a, b, SendFrom(m, fromA)), m, 0);
    var me, other := if fromA then a else b, if fromA then b else a;
    assert r.sends == s.sends[m := Send(me, [other], Publishing(StoreSeq(s) + 1, 0))];
  }

  // ---- results out of order ---------------------------------------------------------

  /** Two messages from a to b, numbered 1 and 2. */
  ghost predicate Two(r: State, a: Uid, b: Uid, p1: Phase, p2: Phase) {
    && Fresh(r, a, b) && r.sends == map[1 := Send(a, [b], p1), 2 := Send(a, [b], p2)]
    && StoreSeq(r) == 2 && StoreBrowse(r, a) == 2 && StoreBrowse(r, b) == 0
  }

  lemma TwoNumbered(cap: nat, a: Uid, b: Uid) returns (macs: seq<Macro>, r: State)
    requires a != b
    ensures r == MRun(Init(P2p, cap), a, b, macs) && Two(r, a, b, Publishing(1, 0), Publishing(2, 0))
    ensures JustStarted(Init(P2p, cap), a, b)
  {
    var s := Init(P2p, cap);
    var x, s1 := FirstMessage(cap, a, b);
    r := SendAndNumber(s1, a, b, 2, true);
    x := ThenSend(s, a, b, x, 2, true);
    macs := ThenOne(s, a, b, x, Issue(2, 0));
  }

  /** Their handlers hand over number 2 before number 1. */
  lemma TwoHandedOver(s: State, a: Uid, b: Uid) returns (mid: State, r: State)
    requires a != b && Two(s, a, b, Publishing(1, 0), Publishing(2, 0))
    ensures mid == Do(s, PublishOk(2)) && r == Do(mid, PublishOk(1)) && Two(r, a, b, InFlight(1, 0), InFlight(2, 0))
  {
    HandOverEffect(s, 2);
    mid := Do(s, PublishOk(2));
    HandOverEffect(mid, 1);
    r := Do(mid, PublishOk(1));
    assert r.sends == map[1 := Send(a, [b], InFlight(1, 0)), 2 := Send(a, [b], InFlight(2, 0))];
  }

  lemma TwoMessages(cap: nat, a: Uid, b: Uid) returns (macs: seq<Macro>, r: State)
    requires a != b
    ensures r == MRun(Init(P2p, cap), a, b, macs) && Two(r, a, b, InFlight(1, 0), InFlight(2, 0))
    ensures JustStarted(Init(P2p, cap), a, b)
  {
    var s := Init(P2p, cap);
    var x, s1 := TwoNumbered(cap, a, b);
    var mid, s2 := TwoHandedOver(s1, a, b);
    x := ThenOne(s, a, b, x, PublishOk(2));
    macs := ThenOne(s, a, b, x, PublishOk(1));
    r := s2;
  }

  /** The results come in the order of handing over: that of number 2 ... */
  lemma SecondProcessed(s: State, a: Uid, b: Uid) returns (r: State)
    requires a != b && Two(s, a, b, InFlight(1, 0), InFlight(2, 0))
    ensures r == Processed(s, 2) && r.mem.Some? && r.clears == map[] && r.tree == s.tree
    ensures r.sends == map[1 := Send(a, [b], InFlight(1, 0)), 2 := Send(a, [b], Acked(2))]
    ensures r.mebs == map[a := Meb(2, 0), b := Meb(0, 2)]
  {
    ProcessEffect(s, a, b, 2);
    r := Processed(s, 2);
  }

  /** ... and then that of number 1. */
  lemma FirstProcessed(s: State, a: Uid, b: Uid) returns (r: State)
    requires a != b && s.mem.Some? && s.clears == map[]
    requires s.sends == map[1 := Send(a, [b], InFlight(1, 0)), 2 := Send(a, [b], Acked(2))]
    requires s.mebs == map[a := Meb(2, 0), b := Meb(0, 2)]
    ensures r == Processed(s, 1) && r.mem.Some? && r.clears == map[] && r.tree == s.tree
    ensures r.sends == map[1 := Send(a, [b], Acked(1)), 2 := Send(a, [b], Acked(2))]
    ensures r.mebs == map[a := Meb(2, 0), b := Meb(0, 1)]
  {
    ProcessEffect(s, a, b, 1);
    r := Processed(s, 1);
  }

  /** A result that starts with an older number than one before it is out of order. */
  lemma OlderNumberIsLate(s: State, a: Uid, b: Uid, macs: seq<Macro>, i: nat, m: MsgId, n: MsgId)
    requires i < |macs| && macs[i] == One(AckConversation(m))
    requires var q := MRun(s, a, b, macs[..i]);
             && m in q.sends && q.sends[m].phase.InFlight? && BroughtSeq(q, n)
             && q.sends[m].phase.num <= q.sends[n].phase.num
    ensures !ResultsInOrder(s, a, b, macs)
  {
    assert !StepInOrder(MRun(s, a, b, macs[..i]), macs[i]);
  }

  /** Both results are through, number 2's first. */
  ghost predicate Miscounted(r: State, a: Uid, b: Uid) {
    && r.sends == map[1 := Send(a, [b], Acked(1)), 2 := Send(a, [b], Acked(2))]
    && r.mem.Some? && r.mebs == map[a := Meb(2, 0), b := Meb(0, 1)] && StoreSeq(r) == 2 && StoreBrowse(r, b) == 0
  }

  lemma MiscountedShows(r: State, a: Uid, b: Uid)
    requires a != b && Miscounted(r, a, b)
    ensures Quiet(r) && r.mebs.Keys == {a, b} && r.mebs[b].unread == 1 && StoreUnread(TreeOf(r), b) == 2
  {
  }

  /** The run, and where in it the older number's result starts. */
  lemma BackwardsRun(cap: nat, a: Uid, b: Uid) returns (macs: seq<Macro>, i: nat)
    requires a != b
    ensures JustStarted(Init(P2p, cap), a, b) && Miscounted(MRun(Init(P2p, cap), a, b, macs), a, b)
    ensures i < |macs| && macs[i] == One(AckConversation(1))
    ensures MRun(Init(P2p, cap), a, b, macs[..i]).sends
         == map[1 := Send(a, [b], InFlight(1, 0)), 2 := Send(a, [b], Acked(2))]
  {
    var s := Init(P2p, cap);
    var x, s1 := TwoMessages(cap, a, b);
    var s2 := SecondProcessed(s1, a, b);
    var s3 := FirstProcessed(s2, a, b);
    var y := ThenProcess(s, a, b, x, 2);
    macs := ThenProcess(s, a, b, y, 1);
    i := |y|;
  }

  /** Two messages to b, numbered 1 and 2, handed to the queue 2 before 1, their results
      processed in that order and each in one piece: everything is acknowledged, browse
      and MsgSeq agree with Redis, and b's unread count says 1 where Redis says 2. */
  lemma OutOfOrderAcksMiscount(cap: nat, a: Uid, b: Uid) returns (macs: seq<Macro>)
    requires a != b
    ensures JustStarted(Init(P2p, cap), a, b) && !ResultsInOrder(Init(P2p, cap), a, b, macs)
    ensures var r := MRun(Init(P2p, cap), a, b, macs);
            && Quiet(r) && r.mem.Some? && r.mebs.Keys == {a, b}
            && r.mebs[b].unread == 1 && StoreUnread(TreeOf(r), b) == 2
  {
    var i;
    macs, i := BackwardsRun(cap, a, b);
    MiscountedShows(MRun(Init(P2p, cap), a, b, macs), a, b);
    OlderNumberIsLate(Init(P2p, cap), a, b, macs, i, 1, 2);
  }

  // ---- a clear-unread cut in two ------------------------------------------------------

  ghost predicate HalfCleared(r: State, a: Uid, b: Uid) {
    && r.kind == P2p && r.mem.Some? && r.mem.value.members == {a, b}
    && r.sends == map[1 := Send(a, [b], Acked(1))] && r.clears == map[0 := Clear(b, 1)]
    && r.mebs == map[a := Meb(1, 0), b := Meb(0, 1)] && StoreSeq(r) == 1
  }

  lemma OneAcked(s: State, a: Uid, b: Uid) returns (acts: seq<Action>, r: State)
    requires a != b && OneNumbered(s, a, b)
    ensures r == Run(s, acts) && r.kind == P2p && r.mem.Some? && r.mem.value.members == {a, b}
    ensures r.sends == map[1 := Send(a, [b], Acked(1))] && r.clears == map[] && r.tree == s.tree
    ensures r.mebs == map[a := Meb(1, 0), b := Meb(0, 1)]
  {
    HandOverEffect(s, 1);
    var s1 := Do(s, PublishOk(1));
    assert s1.sends == map[1 := Send(a, [b], InFlight(1, 0))];
    ProcessEffect(s1, a, b, 1);
    var x := RunDo(s, [], PublishOk(1));
    acts := RunProcessed(s, x, 1);
    r := Processed(s1, 1);
    assert r.sends == map[1 := Send(a, [b], Acked(1))];
  }

  /** b's clear-unread runs its script after a's message was acknowledged. */
  lemma ReachHalfCleared(s: State, a: Uid, b: Uid) returns (acts: seq<Action>, r: State)
    requires a != b && OneNumbered(s, a, b)
    ensures r == Run(s, acts) && HalfCleared(r, a, b)
  {
    var x, s1 := OneAcked(s, a, b);
    acts := RunDo(s, x, ClearRedis(0, b));
    r := DoClearRedis(s1, 0, b);
  }

  ghost predicate SecondInFlight(r: State, a: Uid, b: Uid) {
    && r.mem.Some? && r.clears == map[0 := Clear(b, 1)]
    && r.sends == map[1 := Send(a, [b], Acked(1)), 2 := Send(b, [a], InFlight(2, 0))]
    && r.mebs == map[a := Meb(1, 0), b := Meb(0, 1)] && StoreBrowse(r, b) == 2
  }

  /** b then sends message 2 ... */
  lemma ReachSecond(s: State, a: Uid, b: Uid) returns (acts: seq<Action>, r: State)
    requires a != b && HalfCleared(s, a, b)
    ensures r == Run(s, acts) && SecondInFlight(r, a, b)
  {
    var s1 := SendAndNumber(s, a, b, 2, false);
    HandOverEffect(s1, 2);
    r := Do(s1, PublishOk(2));
    assert r.sends == map[1 := Send(a, [b], Acked(1)), 2 := Send(b, [a], InFlight(2, 0))];
    var x := RunDo(s, Script(a, b, SendFrom(2, false)), Issue(2, 0));
    acts := RunDo(s, x, PublishOk(2));
  }

  ghost predicate SecondAcked(r: State, a: Uid, b: Uid) {
    && r.mem.Some? && r.clears == map[0 := Clear(b, 1)]
    && r.sends == map[1 := Send(a, [b], Acked(1)), 2 := Send(b, [a], Acked(2))]
    && r.mebs == map[a := Meb(1, 1), b := Meb(2, 0)] && StoreBrowse(r, b) == 2
  }

  lemma AckSecond(s: State, a: Uid, b: Uid) returns (r: State)
    requires a != b && SecondInFlight(s, a, b)
    ensures r == Processed(s, 2) && SecondAcked(r, a, b)
  {
    ProcessEffect(s, a, b, 2);
    r := Processed(s, 2);
    assert r.sends == map[1 := Send(a, [b], Acked(1)), 2 := Send(b, [a], Acked(2))];
  }

  lemma ClearLate(s: State, a: Uid, b: Uid) returns (r: State)
    requires a != b && SecondAcked(s, a, b)
    ensures r == Do(s, ClearMemory(0)) && AtRest(r) && LeftBehind(r, b)
    ensures (forall m :: m in r.sends ==> r.sends[m].phase.Acked?) && r.mebs[b].browse == 1 && StoreBrowse(r, b) == 2
  {
    r := DoClearMemory(s, 0);
    assert s.clears - {0} == map[];
    assert forall c :: !Brings(r, c, b);
  }

  /** ... which is acknowledged before the clear touches memory. */
  lemma ReachEnd(s: State, a: Uid, b: Uid) returns (acts: seq<Action>, r: State)
    requires a != b && SecondInFlight(s, a, b)
    ensures r == Run(s, acts) && AtRest(r) && LeftBehind(r, b)
    ensures (forall m :: m in r.sends ==> r.sends[m].phase.Acked?) && r.mebs[b].browse == 1 && StoreBrowse(r, b) == 2
  {
    var s1 := AckSecond(s, a, b);
    r := ClearLate(s1, a, b);
    var x := RunProcessed(s, [], 2);
    acts := RunDo(s, x, ClearMemory(0));
  }

  /** A clear-unread whose memory half runs after a later acknowledgement takes the
      cached browse position back: nothing is lost or in flight, yet memory is left
      behind Redis. */
  lemma SplitClearLeavesBrowseBehind(cap: nat, a: Uid, b: Uid) returns (acts: seq<Action>)
    requires a != b
    ensures var r := Run(Init(P2p, cap), acts);
            && AtRest(r) && (forall m :: m in r.sends ==> r.sends[m].phase.Acked?)
            && LeftBehind(r, b) && r.mebs[b].browse == 1 && StoreBrowse(r, b) == 2
  {
    var s := Init(P2p, cap);
    var first, s1 := FirstMessage(cap, a, b);
    var x1 := Trace(a, b, first);
    var x2, s2 := ReachHalfCleared(s1, a, b);
    var x3, s3 := ReachSecond(s2, a, b);
    var x4, s4 := ReachEnd(s3, a, b);
    RunAppend(s, x1, x2);
    RunAppend(s, x1 + x2, x3);
    RunAppend(s, x1 + x2 + x3, x4);
    acts := x1 + x2 + x3 + x4;
  }

  // ---- a load given up after caching --------------------------------------------------

  /** A restarted server over a store with number 1 of a and b. */
  ghost predicate Restarted(r: State, a: Uid, b: Uid) {
    && r.kind == P2p && r.rows in {[a, b], [b, a]} && r.mem.None? && r.mebs == map[] && r.clears == map[]
    && r.sends == map[1 := Send(a, [b], Lost(1))] && StoreSeq(r) == 1
  }

  lemma RestartEffect(s: State, a: Uid, b: Uid) returns (r: State)
    requires OneNumbered(s, a, b)
    ensures r == Do(s, Restart) && Restarted(r, a, b)
  {
    r := DoRestart(s);
    assert r.sends == map[1 := Send(a, [b], Lost(1))];
  }

  /** The next send caches the conversation and fails to read the store. */
  lemma GivenUp(s: State, a: Uid, b: Uid) returns (acts: seq<Action>, r: State)
    requires a != b && Restarted(s, a, b)
    ensures r == Run(s, acts) && r.clears == map[] && r.mem.Some? && r.mem.value.msgSeq == 0 && StoreSeq(r) == 1
    ensures r.sends == map[1 := Send(a, [b], Lost(1)), 2 := Send(a, [b], Refused)]
    ensures r.rows == s.rows && r.mebs == map[]
  {
    var s1 := s.(sends := s.sends[2 := Send(a, [b], Arrived)]);
    var s2 := DoLookup(s1, 2, Fine);
    r := At(s2, 2, Refused);
    assert s2.sends[2].phase.Loading?;
    assert r.sends == map[1 := Send(a, [b], Lost(1)), 2 := Send(a, [b], Refused)];
    RunTwo(s, Arrive(2, a, [b]), Lookup(2, Fine));
    acts := RunDo(s, [Arrive(2, a, [b]), Lookup(2, Fine)], Abort(2));
  }

  lemma NothingCached(r: State, a: Uid, b: Uid)
    requires r.clears == map[] && r.mem.Some? && r.mem.value.msgSeq == 0 && StoreSeq(r) == 1
    requires r.sends == map[1 := Send(a, [b], Lost(1)), 2 := Send(a, [b], Refused)]
    requires r.rows in {[a, b], [b, a]} && r.mebs == map[]
    ensures AtRest(r) && !Agrees(r) && a in r.rows && b in r.rows
  {
  }

  /** A one-to-one chat with a number and rows: after a restart the first send's load
      fails once the conversation is cached, and everything rests with MsgSeq 0 beside
      msg_seq 1 and no entry for either user. */
  lemma GivenUpLoadLeavesNothing(cap: nat, a: Uid, b: Uid) returns (acts: seq<Action>)
    requires a != b
    ensures var r := Run(Init(P2p, cap), acts);
            && AtRest(r) && !Agrees(r) && r.mem.Some? && r.mem.value.msgSeq == 0 && StoreSeq(r) == 1
            && a in r.rows && b in r.rows && r.mebs == map[]
  {
    var s := Init(P2p, cap);
    var first, s1 := FirstMessage(cap, a, b);
    var s2 := RestartEffect(s1, a, b);
    var x := RunDo(s, Trace(a, b, first), Restart);
    var y, r := GivenUp(s2, a, b);
    NothingCached(r, a, b);
    RunAppend(s, x, y);
    acts := x + y;
  }

  // ---- the two other fields ----------------------------------------------------------------

  /** Two users' chat over which nothing is cached or under way. */
  ghost predicate StoredChat(s: State) {
    && Inv(s) && s.kind == P2p && s.mem.None? && s.mebs == map[] && AtRest(s)
    && |s.rows| == 2 && s.rows[0] != s.rows[1]
  }

  /** What a load that ran through leaves. */
  ghost predicate LoadedOver(s: State, r: State, x: Uid, y: Uid) {
    && r.tree == s.tree && r.rows == s.rows && r.clears == s.clears && r.mem.Some?
    && r.mem.value.msgSeq == StoreSeq(s) && r.mem.value.lastActiveTs == TreeOf(s).lastActiveTs
    && r.mem.value.lastMsgId == 0
    && r.mebs == map[x := LoadMeb(TreeOf(s), x), y := LoadMeb(TreeOf(s), y)]
  }

  lemma LookedUp(s: State, m: MsgId)
    requires s.kind == P2p && s.mem.None? && s.rows != [] && m in s.sends
    ensures DoLookup(s, m, Fine)
         == At(s, m, Loading(s.rows)).(mem := Some(NewConv(P2pMembers(s.sends[m]))), kept := [])
  {
  }

  lemma LoadedRows(s: State, m: MsgId, x: Uid, y: Uid)
    requires s.kind == P2p && s.mem.None? && s.mebs == map[] && m in s.sends && s.rows == [x, y] && x != y
    ensures var r := LoadThrough(DoLookup(s, m, Fine), m);
            LoadedOver(s, r, x, y) && r.sends == s.sends[m := s.sends[m].(phase := Issuing)]
  {
    var s2 := DoLookup(s, m, Fine);
    LookedUp(s, m);
    LoadEffect(s2, m, x, y);
  }

  lemma LoadedSame(s: State, s1: State, r: State, x: Uid, y: Uid)
    requires LoadedOver(s1, r, x, y) && s1.tree == s.tree && s1.rows == s.rows && s1.clears == s.clears
    ensures LoadedOver(s, r, x, y)
  {
  }

  lemma LoadedFrom(s: State, a: Uid, b: Uid, m: MsgId, fromA: bool)
    requires StoredChat(s) && m !in s.sends
    ensures var r := MStep(s, a, b, SendFrom(m, fromA));
            && LoadedOver(s, r, s.rows[0], s.rows[1])
            && r.sends == s.sends[m := Send(if fromA then a else b, [if fromA then b else a], Issuing)]
  {
    var sd := Send(if fromA then a else b, [if fromA then b else a], Arrived);
    SendLooksUp(s, a, b, m, fromA);
    LoadedWith(s, MStep(s, a, b, SendFrom(m, fromA)), m, sd);
  }

  lemma LoadedWith(s: State, r: State, m: MsgId, sd: Send)
    requires s.kind == P2p && s.mem.None? && s.mebs == map[] && |s.rows| == 2 && s.rows[0] != s.rows[1]
    requires r == LoadThrough(DoLookup(s.(sends := s.sends[m := sd]), m, Fine), m)
    ensures LoadedOver(s, r, s.rows[0], s.rows[1]) && r.sends == s.sends[m := sd.(phase := Issuing)]
  {
    var s1 := s.(sends := s.sends[m := sd]);
    LoadedPair(s1, r, m);
    LoadedSame(s, s1, r, s.rows[0], s.rows[1]);
    assert s1.sends[m := sd.(phase := Issuing)] == s.sends[m := sd.(phase := Issuing)];
  }

  lemma LoadedPair(s: State, r: State, m: MsgId)
    requires s.kind == P2p && s.mem.None? && s.mebs == map[] && m in s.sends
    requires |s.rows| == 2 && s.rows[0] != s.rows[1] && r == LoadThrough(DoLookup(s, m, Fine), m)
    ensures LoadedOver(s, r, s.rows[0], s.rows[1]) && r.sends == s.sends[m := s.sends[m].(phase := Issuing)]
  {
    assert s.rows == [s.rows[0], s.rows[1]];
    LoadedRows(s, m, s.rows[0], s.rows[1]);
  }

  /** A one-to-one chat that was loaded and rests shows everything Redis has but the id of
      the newest message, for which it shows zero. */
  lemma LoadedChatLacksLastId(s: State, a: Uid, b: Uid, m: MsgId, fromA: bool)
    requires StoredChat(s) && m !in s.sends && TreeOf(s).lastMsgId != 0
    ensures var r := MStep(s, a, b, SendFrom(m, fromA));
            && AtRest(r) && Agrees(r) && FieldAgrees(LastActive, r) && !FieldAgrees(LastId, r)
            && r.mem.Some? && r.mem.value.lastMsgId == 0
  {
    LoadedFrom(s, a, b, m, fromA);
  }

  /** Two users' chat that is cached and at rest. */
  ghost predicate Resting(s: State, a: Uid, b: Uid) {
    && s.kind == P2p && a != b && AtRest(s) && s.mem.Some? && s.mem.value.members == {a, b} && s.mebs.Keys == {a, b}
  }

  lemma NumberedAt(s: State, a: Uid, b: Uid, m: MsgId, ts: int) returns (acts: seq<Action>, r: State)
    requires Resting(s, a, b) && m !in s.sends
    ensures r == Run(s, acts) && r.mem == s.mem && r.mebs == s.mebs && r.clears == s.clears
    ensures r.sends == s.sends[m := Send(a, [b], InFlight(StoreSeq(s) + 1, ts))]
    ensures r.tree == Some(IssueNumber(TreeOf(s), a, m, ts))
  {
    SendCached(s, a, b, m, true);
    var s1 := MStep(s, a, b, SendFrom(m, true));
    var s2 := DoIssue(s1, m, ts);
    HandOverEffect(s2, m);
    r := Do(s2, PublishOk(m));
    assert r.sends == s.sends[m := Send(a, [b], InFlight(StoreSeq(s) + 1, ts))];
    var x := RunDo(s, Script(a, b, SendFrom(m, true)), Issue(m, ts));
    acts := RunDo(s, x, PublishOk(m));
  }

  lemma AcknowledgedAt(s: State, a: Uid, b: Uid, m: MsgId) returns (r: State)
    requires m in s.sends && s.sends[m].phase.InFlight? && s.sends[m].sender == a && s.sends[m].to == [b]
    requires a != b && s.mem.Some? && s.mebs.Keys == {a, b}
    ensures r == Processed(s, m) && r.tree == s.tree && r.clears == s.clears && r.mem.Some?
    ensures r.mem.value.lastActiveTs == Max(s.mem.value.lastActiveTs, s.sends[m].phase.ts)
    ensures r.sends == s.sends[m := s.sends[m].(phase := Acked(s.sends[m].phase.num))]
  {
    ProcessEffect(s, a, b, m);
    r := Processed(s, m);
  }

  /** From any chat at rest, a message that is numbered with an older time than the one
      shown and acknowledged leaves it at rest with a time Redis no longer has. */
  lemma OlderTimeEndsAhead(s: State, a: Uid, b: Uid, m: MsgId, ts: int) returns (acts: seq<Action>)
    requires Resting(s, a, b) && m !in s.sends && ts < s.mem.value.lastActiveTs
    ensures var r := Run(s, acts);
            && AtRest(r) && !FieldAgrees(LastActive, r) && r.mem.Some?
            && r.mem.value.lastActiveTs == s.mem.value.lastActiveTs && TreeOf(r).lastActiveTs == ts
  {
    var x, s1 := NumberedAt(s, a, b, m, ts);
    var r := AcknowledgedAt(s1, a, b, m);
    acts := RunProcessed(s, x, m);
  }
}
