/** The protocol's promises, over every run from an empty system. */
module ConvTheorems {
  import opened Basics
  import opened ConvValues
  import opened ConvProtocol
  import opened ConvSafety

  // ---- the ledger ---------------------------------------------------------

  function AckedNumbers(s: State): set<nat> {
    set m | m in s.sends && s.sends[m].phase.Acked? :: s.sends[m].phase.num
  }

  function LostNumbers(s: State): set<nat> {
    set m | m in s.sends && s.sends[m].phase.Lost? :: s.sends[m].phase.num
  }

  predicate Flying(p: Phase) {
    p.Publishing? || p.InFlight? || p.AckingMebs?
  }

  function FlyingNumbers(s: State): set<nat> {
    set m | m in s.sends && Flying(s.sends[m].phase) :: s.sends[m].phase.num
  }

  /** Two different messages never hold the same number. */
  lemma NumbersAreUnique(s: State, m: MsgId, n: MsgId)
    requires LedgerInv(s) && m in s.sends && n in s.sends
    requires Number(s.sends[m].phase).Some? && Number(s.sends[m].phase) == Number(s.sends[n].phase)
    ensures m == n
  {
    var q := Number(s.sends[m].phase).value;
    assert s.issued[q - 1] == m;
  }

  lemma InitHolds(kind: Kind, cap: nat)
    ensures Inv(Init(kind, cap))
  {
  }

  /** Over every interleaving of sends, losses, acks in any order, loads, clears
      and restarts: the numbers issued are exactly 1..msg_seq, each to its own
      message, and each of those messages is acked, in flight or lost, never two
      of these at once. */
  lemma {:induction false} LedgerOverRuns(kind: Kind, cap: nat, acts: seq<Action>)
    ensures var s := Run(Init(kind, cap), acts);
            && StoreSeq(s) == |s.issued| && NoDup(s.issued)
            && (forall m :: m in s.issued <==> m in s.sends && Number(s.sends[m].phase).Some?)
            && (forall q: nat :: q in AckedNumbers(s) + FlyingNumbers(s) + LostNumbers(s) <==> 1 <= q <= StoreSeq(s))
            && AckedNumbers(s) !! FlyingNumbers(s) !! LostNumbers(s)
  {
    InitHolds(kind, cap);
    RunKeeps(Init(kind, cap), acts);
    var s := Run(Init(kind, cap), acts);
    forall i, j | 0 <= i < j < |s.issued| ensures s.issued[i] != s.issued[j] {
      assert Number(s.sends[s.issued[i]].phase) == Some(i + 1);
      assert Number(s.sends[s.issued[j]].phase) == Some(j + 1);
    }
    forall m | m in s.sends && Number(s.sends[m].phase).Some? ensures m in s.issued {
      var q := Number(s.sends[m].phase).value;
      assert s.issued[q - 1] == m;
    }
    forall q: nat | 1 <= q <= StoreSeq(s)
      ensures q in AckedNumbers(s) + FlyingNumbers(s) + LostNumbers(s)
    {
      var m := s.issued[q - 1];
      assert Number(s.sends[m].phase) == Some(q - 1 + 1);
    }
    FatesAreDisjoint(s);
  }

  lemma FatesAreDisjoint(s: State)
    requires LedgerInv(s)
    ensures AckedNumbers(s) !! FlyingNumbers(s) !! LostNumbers(s)
  {
    forall m, n | m in s.sends && n in s.sends && Number(s.sends[m].phase).Some?
                  && Number(s.sends[m].phase) == Number(s.sends[n].phase)
      ensures m == n
    {
      NumbersAreUnique(s, m, n);
    }
  }

  /** UpsertConv's write of zero never hits a tree that has issued a number, not
      even after restarts or a create that failed half way. */
  lemma {:induction false} UpsertNeverHitsIssuedNumbers(kind: Kind, cap: nat, acts: seq<Action>, m: MsgId)
    requires Creates(Run(Init(kind, cap), acts), m)
    ensures var s := Run(Init(kind, cap), acts);
            && s.issued == [] && StoreSeq(s) == 0
            && forall u :: Browse(ZeroInto(TreeOf(s), NewItems(s.sends[m])), u) == StoreBrowse(s, u)
  {
    InitHolds(kind, cap);
    RunKeeps(Init(kind, cap), acts);
    CreateZeroesNothing(Run(Init(kind, cap), acts), m);
  }

  // ---- memory against the store -------------------------------------------

  /** In-memory MsgSeq <= msg_seq, in-memory browse <= Redis browse <= msg_seq. */
  lemma {:induction false} MemoryNeverAhead(kind: Kind, cap: nat, acts: seq<Action>)
    ensures var s := Run(Init(kind, cap), acts);
            && (s.mem.Some? ==> 0 <= s.mem.value.msgSeq <= StoreSeq(s))
            && (forall u :: u in s.mebs ==> 0 <= s.mebs[u].browse <= StoreBrowse(s, u))
            && (forall u :: StoreBrowse(s, u) <= StoreSeq(s))
  {
    InitHolds(kind, cap);
    RunKeeps(Init(kind, cap), acts);
    var s := Run(Init(kind, cap), acts);
    forall u | u in s.mebs ensures 0 <= s.mebs[u].browse <= StoreBrowse(s, u) {
      assert MebOk(s, u, s.mebs[u]);
    }
    forall u ensures StoreBrowse(s, u) <= StoreSeq(s) {
      assert Browse(TreeOf(s), u) <= TreeOf(s).msgSeq;
    }
  }

  /** Every member entry exists beside its conversation, and its unread count is
      between zero and what the conversation shows as unseen. */
  lemma {:induction false} UnreadAlwaysBounded(kind: Kind, cap: nat, acts: seq<Action>)
    ensures var s := Run(Init(kind, cap), acts);
            forall u :: u in s.mebs ==>
              s.mem.Some? && 0 <= s.mebs[u].unread <= Clamp(s.mem.value.msgSeq - s.mebs[u].browse)
  {
    InitHolds(kind, cap);
    RunKeeps(Init(kind, cap), acts);
    var s := Run(Init(kind, cap), acts);
    forall u | u in s.mebs ensures MebOk(s, u, s.mebs[u]) {
    }
  }

  /** RecentlyMsgs is the last min(n, msgCap) of the n messages stored since the
      conversation entered memory. */
  lemma {:induction false} RecentIsTheTail(kind: Kind, cap: nat, acts: seq<Action>)
    ensures var s := Run(Init(kind, cap), acts);
            s.mem.Some? ==>
              && |s.mem.value.recent| == (if |s.kept| < s.cap then |s.kept| else s.cap)
              && s.mem.value.recent == s.kept[|s.kept| - |s.mem.value.recent|..]
  {
    InitHolds(kind, cap);
    RunKeeps(Init(kind, cap), acts);
  }

  // ---- nothing goes back --------------------------------------------------

  /** Along any run the store's counters and the issued ledger only grow, and
      without a restart the cached MsgSeq only grows too. */
  lemma {:induction false} CountersNeverDecrease(kind: Kind, cap: nat, acts: seq<Action>, i: nat)
    requires i <= |acts|
    ensures var s, s' := Run(Init(kind, cap), acts[..i]), Run(Init(kind, cap), acts);
            && StoreSeq(s) <= StoreSeq(s') && s.issued <= s'.issued
            && (forall u :: StoreBrowse(s, u) <= StoreBrowse(s', u))
            && (s.mem.Some? && Restart !in acts[i..] ==>
                  s'.mem.Some? && s.mem.value.msgSeq <= s'.mem.value.msgSeq)
    decreases |acts|
  {
    var init := Init(kind, cap);
    if i == |acts| {
      assert acts[..i] == acts;
    } else {
      var shorter, a := acts[..|acts| - 1], acts[|acts| - 1];
      CountersNeverDecrease(kind, cap, shorter, i);
      assert shorter[..i] == acts[..i];
      assert acts[i..] == shorter[i..] + [a];
      InitHolds(kind, cap);
      RunKeeps(init, shorter);
      var s, before := Run(init, acts[..i]), Run(init, shorter);
      if Enabled(before, a) {
        StepKeeps(before, a);
        if a.Restart? {
          RestartKeeps(before);
        }
        forall u ensures StoreBrowse(s, u) <= StoreBrowse(Step(before, a), u) {
          assert StoreBrowse(s, u) <= StoreBrowse(before, u);
          assert Browse(TreeOf(before), u) <= Browse(TreeOf(Step(before, a)), u);
        }
      }
    }
  }

  // ---- rows ------------------------------------------------------------------

  /** A creation whose tree was not written leaves its rows, sender first, and nothing
      cached: the next send does not create again, it loads them. */
  lemma FailedCreateIsLoadedNext(s: State, m: MsgId, applied: bool, n: MsgId, o: LookupOutcome)
    requires Creates(s, m) && n in s.sends && n != m && s.sends[n].phase == Arrived && !o.ReadErr?
    ensures var r := Do(s, Lookup(m, TreeErr(applied)));
            && r.sends[m].phase == Refused && r.mem.None? && !Creates(r, n)
            && Do(r, Lookup(n, o)).sends[n].phase == Loading([s.sends[m].sender, s.sends[m].to[0]])
  {
    var r := DoLookup(s, m, TreeErr(applied));
    assert r == Do(s, Lookup(m, TreeErr(applied))) && r.sends[n] == s.sends[n];
  }

  lemma RowsKept(s: State, a: Action)
    requires s.rows != []
    ensures Do(s, a).rows == s.rows
  {
  }

  /** Rows are never written over. */
  lemma {:induction false} RowsStay(s: State, acts: seq<Action>)
    requires s.rows != []
    ensures Run(s, acts).rows == s.rows
  {
    if acts != [] {
      RowsStay(s, acts[..|acts| - 1]);
      RowsKept(Run(s, acts[..|acts| - 1]), acts[|acts| - 1]);
    }
  }

  // ---- who a message goes out to --------------------------------------------

  /** A numbered one-to-one message is handed to the queue exactly if its receiver is a
      member of the cached conversation. */
  lemma OnlyMembersAreSentTo(s: State, m: MsgId)
    requires s.kind == P2p && m in s.sends && s.sends[m].phase.Publishing? && |s.sends[m].to| == 1
    ensures Do(s, PublishOk(m)) != s <==> s.mem.Some? && s.sends[m].to[0] in s.mem.value.members
    ensures Do(s, PublishOk(m)) != s ==> Do(s, PublishOk(m)).sends[m].phase.InFlight?
  {
    if Enabled(s, PublishOk(m)) {
      assert Do(s, PublishOk(m)).sends[m].phase != s.sends[m].phase;
    }
  }

  /** The number has gone to a message whose receiver is no member: it is held or lost. */
  predicate ToAnOutsider(s: State, m: MsgId, q: nat, ts: int) {
    m in s.sends && s.kind == P2p &&
    (s.sends[m].phase == Lost(q)
     || (&& s.sends[m].phase == Publishing(q, ts) && s.mem.Some? && |s.sends[m].to| == 1
         && s.sends[m].to[0] !in s.mem.value.members))
  }

  /** Who is a member when the conversation enters memory: sender and receiver of a
      one-to-one chat, the owners of a group's rows, or those a creation names. */
  lemma MembersWhenCached(s: State, a: Action)
    requires Enabled(s, a) && s.mem.None? && Step(s, a).mem.Some?
    ensures forall u :: u in Step(s, a).mem.value.members <==>
              || (a.UpsertGroup? && u in a.members)
              || (a.Lookup? && s.kind == Group && u in s.rows)
              || (a.Lookup? && s.kind == P2p && (u == s.sends[a.m].sender || u in s.sends[a.m].to))
  {
  }

  /** And so it stays until a restart. */
  lemma MembersStay(s: State, a: Action)
    requires Enabled(s, a) && s.mem.Some? && !a.Restart?
    ensures Step(s, a).kind == s.kind
    ensures Step(s, a).mem.Some? && Step(s, a).mem.value.members == s.mem.value.members
  {
  }

  lemma {:induction false} MembersStayCached(s: State, acts: seq<Action>)
    requires s.mem.Some? && Restart !in acts
    ensures Run(s, acts).mem.Some? && Run(s, acts).mem.value.members == s.mem.value.members
  {
    if acts != [] {
      var init, a := acts[..|acts| - 1], acts[|acts| - 1];
      MembersStayCached(s, init);
      if Enabled(Run(s, init), a) {
        MembersStay(Run(s, init), a);
      }
    }
  }

  /** The send an action moves. */
  function Moved(a: Action): Option<MsgId> {
    match a
    case Arrive(m, _, _) => Some(m)
    case Lookup(m, _) => Some(m)
    case ReadTree(m) => Some(m)
    case SyncConversation(m) => Some(m)
    case SyncMember(m) => Some(m)
    case Abort(m) => Some(m)
    case Issue(m, _) => Some(m)
    case PublishOk(m) => Some(m)
    case PublishFail(m) => Some(m)
    case FlightLost(m) => Some(m)
    case AckConversation(m) => Some(m)
    case AckMember(m) => Some(m)
    case _ => None
  }

  /** A section moves one send. */
  ghost predicate OneMoves(s: State, s': State, n: MsgId) {
    n in s'.sends && s'.sends == s.sends[n := s'.sends[n]]
  }

  lemma LookupMoves(s: State, n: MsgId, o: LookupOutcome)
    requires n in s.sends
    ensures OneMoves(s, DoLookup(s, n, o), n)
  {
  }

  lemma LoadMoves(s: State, n: MsgId)
    requires n in s.sends
    ensures s.sends[n].phase.Loaded? ==> OneMoves(s, DoSyncConversation(s, n), n)
    ensures s.sends[n].phase.SyncingMebs? ==> OneMoves(s, DoSyncMember(s, n), n)
  {
  }

  lemma ResultMoves(s: State, n: MsgId)
    requires n in s.sends
    ensures s.sends[n].phase.InFlight? ==> OneMoves(s, DoAckConversation(s, n), n)
    ensures s.sends[n].phase.AckingMebs? ==> OneMoves(s, DoAckMember(s, n), n)
  {
  }

  lemma OthersStay(s: State, a: Action, m: MsgId)
    requires Enabled(s, a) && m in s.sends && !a.Restart? && Moved(a) != Some(m)
    ensures m in Step(s, a).sends && Step(s, a).sends[m] == s.sends[m]
  {
    match a
    case Lookup(n, o) => LookupMoves(s, n, o);
    case SyncConversation(n) => LoadMoves(s, n);
    case SyncMember(n) => LoadMoves(s, n);
    case AckConversation(n) => ResultMoves(s, n);
    case AckMember(n) => ResultMoves(s, n);
    case _ =>
  }

  lemma SendStays(s: State, a: Action, m: MsgId)
    requires Enabled(s, a) && m in s.sends && !a.Restart?
    requires s.sends[m].phase.Lost? || (s.sends[m].phase.Publishing? && a != PublishOk(m) && a != PublishFail(m))
    ensures m in Step(s, a).sends && Step(s, a).sends[m] == s.sends[m]
  {
    assert Moved(a) != Some(m);
    OthersStay(s, a, m);
  }

  lemma OutsiderStep(s: State, a: Action, m: MsgId, q: nat, ts: int)
    requires Enabled(s, a) && ToAnOutsider(s, m, q, ts)
    ensures ToAnOutsider(Step(s, a), m, q, ts)
  {
    if a.Restart? || a == PublishFail(m) {
    } else {
      SendStays(s, a, m);
      if s.mem.Some? {
        MembersStay(s, a);
      }
    }
  }

  /** A one-to-one message numbered for somebody who is no member of the cached
      conversation never goes out: whatever runs, it ends lost. */
  lemma {:induction false} OutsidersAreNeverSentTo(s: State, acts: seq<Action>, m: MsgId, q: nat, ts: int)
    requires ToAnOutsider(s, m, q, ts)
    ensures ToAnOutsider(Run(s, acts), m, q, ts)
  {
    if acts != [] {
      var init, a := acts[..|acts| - 1], acts[|acts| - 1];
      OutsidersAreNeverSentTo(s, init, m, q, ts);
      if Enabled(Run(s, init), a) {
        OutsiderStep(Run(s, init), a, m, q, ts);
      }
    }
  }
}
