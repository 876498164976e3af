/** What Redis keeps beside the numbers, the id of the newest message and the time of the
    last activity, are those of the message that was given the newest number, over every
    run; and whatever send or snapshot holds that number carries them. */
module ConvNewest {
  import opened Basics
  import opened ConvValues
  import opened ConvProtocol
  import opened ConvSafety

  // ---- Redis has the newest number's id and time ------------------------------------

  datatype Stamp = Stamp(id: MsgId, ts: int)

  /** The message and the time of every number given in the run, in order. */
  function Given(s: State, acts: seq<Action>): seq<Stamp> {
    if acts == [] then []
    else
      var init, a := acts[..|acts| - 1], acts[|acts| - 1];
      Given(s, init) + if a.Issue? && Enabled(Run(s, init), a) then [Stamp(a.m, a.ts)] else []
  }

  ghost predicate HasNewest(s: State, given: seq<Stamp>) {
    && |given| == StoreSeq(s) == |s.issued|
    && (forall k :: 0 <= k < |given| ==> given[k].id == s.issued[k])
    && if given == [] then Newest(s, 0, 0) else Newest(s, given[|given| - 1].id, given[|given| - 1].ts)
  }

  predicate Newest(s: State, id: MsgId, ts: int) {
    TreeOf(s).lastMsgId == id && TreeOf(s).lastActiveTs == ts
  }

  lemma LookupNewest(s: State, m: MsgId, o: LookupOutcome)
    requires Inv(s) && Enabled(s, Lookup(m, o)) && (StoreSeq(s) == 0 ==> Newest(s, 0, 0))
    ensures StoreSeq(DoLookup(s, m, o)) == StoreSeq(s) && DoLookup(s, m, o).issued == s.issued
    ensures Newest(DoLookup(s, m, o), TreeOf(s).lastMsgId, TreeOf(s).lastActiveTs)
  {
    if Creates(s, m) {
      CreateZeroesNothing(s, m);
    }
  }

  /** Only a number changes what Redis has as newest. */
  lemma SameNewest(s: State, a: Action)
    requires Inv(s) && Enabled(s, a) && !a.Issue? && (StoreSeq(s) == 0 ==> Newest(s, 0, 0))
    ensures StoreSeq(Step(s, a)) == StoreSeq(s) && Step(s, a).issued == s.issued
    ensures Newest(Step(s, a), TreeOf(s).lastMsgId, TreeOf(s).lastActiveTs)
  {
    if a.Lookup? {
      LookupNewest(s, a.m, a.outcome);
    } else if !a.ClearRedis? {
      TreeUntouched(s, a);
    }
  }

  lemma TreeUntouched(s: State, a: Action)
    requires Enabled(s, a) && !a.Lookup? && !a.Issue? && !a.ClearRedis?
    ensures Step(s, a).tree == s.tree && Step(s, a).issued == s.issued
  {
  }

  lemma HasNewestStep(s: State, a: Action, given: seq<Stamp>)
    requires Inv(s) && Enabled(s, a) && HasNewest(s, given)
    ensures HasNewest(Step(s, a), given + if a.Issue? then [Stamp(a.m, a.ts)] else [])
  {
    if !a.Issue? {
      SameNewest(s, a);
      assert given + [] == given;
    }
  }

  lemma {:induction false} HasNewestRun(kind: Kind, cap: nat, acts: seq<Action>)
    ensures HasNewest(Run(Init(kind, cap), acts), Given(Init(kind, cap), acts))
  {
    var start := Init(kind, cap);
    if acts != [] {
      var init, a := acts[..|acts| - 1], acts[|acts| - 1];
      HasNewestRun(kind, cap, init);
      RunKeeps(start, init);
      if Enabled(Run(start, init), a) {
        HasNewestStep(Run(start, init), a, Given(start, init));
      }
    }
  }

  /** After any run Redis' last_msg_id and last_active_ts are the id and the time of the
      message that was given the newest number, and zero before the first. */
  lemma {:induction false} RedisHasTheNewest(kind: Kind, cap: nat, acts: seq<Action>)
    ensures var s, given := Run(Init(kind, cap), acts), Given(Init(kind, cap), acts);
            && |given| == StoreSeq(s) == |s.issued|
            && (forall k :: 0 <= k < |given| ==> given[k].id == s.issued[k])
            && (given == [] ==> TreeOf(s).lastMsgId == 0 && TreeOf(s).lastActiveTs == 0)
            && (given != [] ==>
                  && TreeOf(s).lastMsgId == s.issued[|s.issued| - 1]
                  && TreeOf(s).lastActiveTs == given[|given| - 1].ts)
  {
    HasNewestRun(kind, cap, acts);
    HasNewestSays(Run(Init(kind, cap), acts), Given(Init(kind, cap), acts));
  }

  lemma HasNewestSays(s: State, given: seq<Stamp>)
    requires HasNewest(s, given)
    ensures |given| == StoreSeq(s) == |s.issued| && forall k :: 0 <= k < |given| ==> given[k].id == s.issued[k]
    ensures given == [] ==> TreeOf(s).lastMsgId == 0 && TreeOf(s).lastActiveTs == 0
    ensures given != [] ==> TreeOf(s).lastMsgId == s.issued[|s.issued| - 1]
                            && TreeOf(s).lastActiveTs == given[|given| - 1].ts
  {
  }

  // ---- the newest number's message carries the same -----------------------------------

  /** A send that holds the newest number carries Redis' id and time, and so does a
      snapshot as new as Redis. */
  ghost predicate Carries(s: State, m: MsgId)
    requires m in s.sends
  {
    match s.sends[m].phase
    case Publishing(q, ts) => q == StoreSeq(s) ==> Newest(s, m, ts)
    case InFlight(q, ts) => q == StoreSeq(s) ==> Newest(s, m, ts)
    case AckingMebs(q, ts, _) => q == StoreSeq(s) ==> Newest(s, m, ts)
    case Loaded(_, snap) => snap.msgSeq == StoreSeq(s) ==> Newest(s, snap.lastMsgId, snap.lastActiveTs)
    case SyncingMebs(_, snap) => snap.msgSeq == StoreSeq(s) ==> Newest(s, snap.lastMsgId, snap.lastActiveTs)
    case _ => true
  }

  ghost predicate Current(s: State) {
    && (StoreSeq(s) == 0 ==> Newest(s, 0, 0))
    && forall m :: m in s.sends ==> Carries(s, m)
  }

  /** A number that is older than the newest, or a snapshot that is, carries nothing. */
  lemma OldNumber(s: State, m: MsgId)
    requires Inv(s) && m in s.sends
    ensures Number(s.sends[m].phase).Some? ==> Number(s.sends[m].phase).value <= StoreSeq(s)
    ensures s.sends[m].phase.Loaded? || s.sends[m].phase.SyncingMebs? ==> s.sends[m].phase.snap.msgSeq <= StoreSeq(s)
  {
    assert PhaseOk(s, s.sends[m]);
  }

  lemma IssueCurrent(s: State, m: MsgId, ts: int)
    requires Inv(s) && Current(s) && Enabled(s, Issue(m, ts))
    ensures Current(DoIssue(s, m, ts))
  {
    var s' := DoIssue(s, m, ts);
    forall n | n in s'.sends && n != m ensures Carries(s', n) {
      OldNumber(s, n);
    }
  }

  lemma LookupCarries(s: State, m: MsgId, o: LookupOutcome)
    requires Enabled(s, Lookup(m, o))
    ensures var s' := DoLookup(s, m, o);
            m in s'.sends && s'.sends == s.sends[m := s'.sends[m]] && Carries(s', m)
  {
  }

  predicate Moves(a: Action) {
    || a.Arrive? || a.ReadTree? || a.SyncConversation? || a.SyncMember? || a.Abort?
    || a.PublishOk? || a.PublishFail? || a.FlightLost? || a.AckConversation? || a.AckMember?
  }

  /** Where a send goes it carries what it did. */
  lemma MovedCarries(s: State, a: Action)
    requires Enabled(s, a) && Moves(a) && (a.m in s.sends ==> Carries(s, a.m))
    ensures var s' := Step(s, a);
            && s'.tree == s.tree && a.m in s'.sends && s'.sends == s.sends[a.m := s'.sends[a.m]] && Carries(s', a.m)
  {
    if a.SyncConversation? || a.SyncMember? {
      LoadCarries(s, a);
    } else if a.AckConversation? || a.AckMember? {
      ResultCarries(s, a);
    }
  }

  lemma LoadCarries(s: State, a: Action)
    requires Enabled(s, a) && (a.SyncConversation? || a.SyncMember?) && Carries(s, a.m)
    ensures var s' := Step(s, a);
            && s'.tree == s.tree && a.m in s'.sends && s'.sends == s.sends[a.m := s'.sends[a.m]] && Carries(s', a.m)
  {
  }

  lemma ResultCarries(s: State, a: Action)
    requires Enabled(s, a) && (a.AckConversation? || a.AckMember?) && Carries(s, a.m)
    ensures var s' := Step(s, a);
            && s'.tree == s.tree && a.m in s'.sends && s'.sends == s.sends[a.m := s'.sends[a.m]] && Carries(s', a.m)
  {
  }

  lemma CurrentSends(s: State, s': State, m: MsgId)
    requires Current(s) && m in s'.sends && s'.sends == s.sends[m := s'.sends[m]] && Carries(s', m)
    requires StoreSeq(s') == StoreSeq(s) && Newest(s', TreeOf(s).lastMsgId, TreeOf(s).lastActiveTs)
    ensures Current(s')
  {
    forall n | n in s'.sends && n != m ensures Carries(s', n) {
      assert Carries(s, n);
    }
  }

  lemma CurrentStep(s: State, a: Action)
    requires Inv(s) && Current(s) && Enabled(s, a)
    ensures Current(Step(s, a))
  {
    if a.Issue? {
      IssueCurrent(s, a.m, a.ts);
    } else {
      SameNewest(s, a);
      if a.Lookup? {
        LookupCarries(s, a.m, a.outcome);
        CurrentSends(s, Step(s, a), a.m);
      } else if Moves(a) {
        MovedCarries(s, a);
        CurrentSends(s, Step(s, a), a.m);
      } else {
        OtherCurrent(s, a);
      }
    }
  }

  lemma OtherCurrent(s: State, a: Action)
    requires Current(s) && Enabled(s, a) && !a.Issue? && !a.Lookup? && !Moves(a)
    requires StoreSeq(Step(s, a)) == StoreSeq(s)
    requires Newest(Step(s, a), TreeOf(s).lastMsgId, TreeOf(s).lastActiveTs)
    ensures Current(Step(s, a))
  {
    var s' := Step(s, a);
    forall n | n in s'.sends ensures Carries(s', n) {
      assert Carries(s, n);
      assert s'.sends[n] == s.sends[n] || a.Restart?;
    }
  }

  lemma {:induction false} CurrentRun(s: State, acts: seq<Action>)
    requires Inv(s) && Current(s)
    ensures Current(Run(s, acts))
  {
    if acts != [] {
      var init, a := acts[..|acts| - 1], acts[|acts| - 1];
      CurrentRun(s, init);
      RunKeeps(s, init);
      if Enabled(Run(s, init), a) {
        CurrentStep(Run(s, init), a);
      }
    }
  }

  /** So it is over every run from an empty system. */
  lemma {:induction false} CurrentOverRuns(kind: Kind, cap: nat, acts: seq<Action>)
    ensures Current(Run(Init(kind, cap), acts))
  {
    CurrentRun(Init(kind, cap), acts);
  }
}
