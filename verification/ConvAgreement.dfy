/** Memory against Redis over whole runs of any interleaving: memory has, or is about
    to get, everything Redis has all along exactly when no step loses any of it; and at
    rest that is agreement. */
module ConvAgreement {
  import opened Basics
  import opened Traces
  import opened ConvValues
  import opened ConvProtocol
  import opened ConvSafety
  import opened ConvArrival

  /** The conversation's MsgSeq, its entries and their positions are there or coming. */
  ghost predicate Arrives(s: State) {
    SeqArrives(s) && forall u :: EntryArrives(s, u) && BrowseArrives(s, u)
  }

  /** The step loses one of them. */
  ghost predicate Loses(s: State, a: Action) {
    LosesSeq(s, a) || exists u :: LosesEntry(s, a, u) || LosesBrowse(s, a, u)
  }

  lemma ArrivesStep(s: State, a: Action)
    requires Inv(s) && Enabled(s, a) && Arrives(s)
    ensures Arrives(Step(s, a)) <==> !Loses(s, a)
  {
    SeqStep(s, a);
    forall u
      ensures EntryArrives(Step(s, a), u) <==> !LosesEntry(s, a, u)
      ensures BrowseArrives(Step(s, a), u) <==> !LosesBrowse(s, a, u)
    {
      EntryStep(s, a, u);
      BrowseStep(s, a, u);
    }
  }

  // ---- over runs -----------------------------------------------------------------

  /** The states a run passes. */
  function Path(s: State, acts: seq<Action>): (path: seq<State>)
    ensures |path| == |acts| + 1 && forall k :: 0 <= k <= |acts| ==> path[k] == Run(s, acts[..k])
  {
    seq(|acts| + 1, k requires 0 <= k <= |acts| => Run(s, acts[..k]))
  }

  lemma PathStep(s: State, acts: seq<Action>, k: nat)
    requires Inv(s) && k < |acts|
    ensures Inv(Path(s, acts)[k]) && Path(s, acts)[k + 1] == Do(Path(s, acts)[k], acts[k])
  {
    RunKeeps(s, acts[..k]);
    assert acts[..k + 1] == acts[..k] + [acts[k]];
    RunSnoc(s, acts[..k], acts[k]);
  }

  lemma {:induction false} PathEnds(s: State, acts: seq<Action>)
    ensures Path(s, acts)[0] == s && Path(s, acts)[|acts|] == Run(s, acts)
  {
    assert acts[..0] == [] && acts[..|acts|] == acts;
  }

  /** Every point of the run has the property. */
  ghost predicate Holds(s: State, acts: seq<Action>, holds: State -> bool) {
    AllAlong(Path(s, acts), holds)
  }

  /** No step taken is one of these. */
  ghost predicate NoneTaken(s: State, acts: seq<Action>, p: (State, Action) -> bool) {
    Never(Path(s, acts), acts, (x, a) => Enabled(x, a) && p(x, a))
  }

  /** Every step taken that loses is followed by a step taken that restores. */
  ghost predicate MadeGood(s: State, acts: seq<Action>, loses: (State, Action) -> bool,
                           restores: (State, Action) -> bool) {
    Renewed(Path(s, acts), acts, (x, a) => Enabled(x, a) && loses(x, a), (x, a) => Enabled(x, a) && restores(x, a))
  }

  lemma {:induction false} HoldsIffNoneTaken(s: State, acts: seq<Action>, holds: State -> bool,
                                             p: (State, Action) -> bool)
    requires Inv(s) && holds(s)
    requires forall x, a :: Inv(x) && Enabled(x, a) && holds(x) ==> (holds(Step(x, a)) <==> !p(x, a))
    ensures Holds(s, acts, holds) <==> NoneTaken(s, acts, p)
  {
    var path := Path(s, acts);
    PathEnds(s, acts);
    forall k | 0 <= k < |acts| && holds(path[k])
      ensures holds(path[k + 1]) <==> !(Enabled(path[k], acts[k]) && p(path[k], acts[k]))
    {
      PathStep(s, acts, k);
    }
    AllAlongIffNever(path, acts, holds, (x, a) => Enabled(x, a) && p(x, a));
  }

  lemma {:induction false} HoldsIffMadeGood(s: State, acts: seq<Action>, holds: State -> bool,
                                            loses: (State, Action) -> bool, restores: (State, Action) -> bool)
    requires Inv(s) && holds(s)
    requires forall x, a :: !(loses(x, a) && restores(x, a))
    requires forall x, a :: Inv(x) && Enabled(x, a) ==>
               (holds(Step(x, a)) <==> (holds(x) && !loses(x, a)) || restores(x, a))
    ensures holds(Run(s, acts)) <==> MadeGood(s, acts, loses, restores)
  {
    var path := Path(s, acts);
    PathEnds(s, acts);
    forall k | 0 <= k < |acts|
      ensures var x, a := path[k], acts[k];
              holds(path[k + 1]) <==>
              (holds(x) && !(Enabled(x, a) && loses(x, a))) || (Enabled(x, a) && restores(x, a))
    {
      PathStep(s, acts, k);
    }
    HoldsIffRenewed(path, acts, holds, (x, a) => Enabled(x, a) && loses(x, a),
                    (x, a) => Enabled(x, a) && restores(x, a));
  }

  ghost predicate ArrivesAllAlong(s: State, acts: seq<Action>) {
    Holds(s, acts, x => Arrives(x))
  }

  ghost predicate NothingLost(s: State, acts: seq<Action>) {
    NoneTaken(s, acts, (x, a) => Loses(x, a))
  }

  /** From any state in which everything is there or coming, such as a system or a
      server that has just started: it is so all along if and only if no step loses any
      of it. */
  lemma {:induction false} ArrivesUnlessLost(s: State, acts: seq<Action>)
    requires Inv(s) && Arrives(s)
    ensures ArrivesAllAlong(s, acts) <==> NothingLost(s, acts)
  {
    forall x, a | Inv(x) && Enabled(x, a) && Arrives(x) ensures Arrives(Step(x, a)) <==> !Loses(x, a) {
      ArrivesStep(x, a);
    }
    HoldsIffNoneTaken(s, acts, x => Arrives(x), (x, a) => Loses(x, a));
  }

  // ---- at rest ---------------------------------------------------------------------

  /** No load, no number and no clear-unread is on its way. */
  ghost predicate AtRest(s: State) {
    && s.clears == map[]
    && forall m :: m in s.sends ==>
         var p := s.sends[m].phase;
         p.Arrived? || p.Issuing? || p.Acked? || p.Lost? || p.Refused?
  }

  /** Memory shows what Redis and the rows hold. */
  ghost predicate Agrees(s: State) {
    s.mem.Some? ==>
      && s.mem.value.msgSeq == StoreSeq(s)
      && (forall u :: u in s.rows ==> u in s.mebs)
      && (forall u :: u in s.mebs ==> s.mebs[u].browse == StoreBrowse(s, u))
  }

  /** At rest, there or coming means there. */
  lemma RestAgrees(s: State)
    requires Inv(s) && AtRest(s)
    ensures Agrees(s) <==> Arrives(s)
  {
    assert forall m :: !BringsSeq(s, m);
    assert forall c, u :: !Brings(s, c, u);
    assert forall m, u :: !LoadsEntry(s, m, u);
    assert forall u :: u in s.mebs ==> MebOk(s, u, s.mebs[u]);
    if Agrees(s) {
      forall u ensures EntryArrives(s, u) && BrowseArrives(s, u) {
      }
    }
    if Arrives(s) && s.mem.Some? {
      forall u | u in s.rows ensures u in s.mebs {
        assert EntryArrives(s, u);
      }
      forall u | u in s.mebs ensures s.mebs[u].browse == StoreBrowse(s, u) {
        assert BrowseArrives(s, u);
      }
    }
  }

  /** An empty system, and a server that has just started over any store, lack nothing. */
  lemma UncachedArrives(s: State)
    requires Inv(s) && s.mem.None?
    ensures Arrives(s)
  {
    forall u ensures EntryArrives(s, u) && BrowseArrives(s, u) {
      assert u in s.mebs ==> MebOk(s, u, s.mebs[u]);
    }
  }

  // ---- at rest, exactly --------------------------------------------------------------

  ghost predicate BrowseRenewed(s: State, acts: seq<Action>, u: Uid) {
    MadeGood(s, acts, (x, a) => LosesBrowse(x, a, u), (x, a) => RestoresBrowse(x, a, u))
  }

  ghost predicate EntryRenewed(s: State, acts: seq<Action>, u: Uid) {
    MadeGood(s, acts, (x, a) => LosesEntry(x, a, u), (x, a) => RestoresEntry(x, a, u))
  }

  ghost predicate SeqRenewed(s: State, acts: seq<Action>) {
    MadeGood(s, acts, (x, a) => LosesSeq(x, a), (x, a) => RestoresSeq(a))
  }

  lemma {:induction false} BrowseIffRenewed(s: State, acts: seq<Action>, u: Uid)
    requires Inv(s) && BrowseArrives(s, u)
    ensures BrowseArrives(Run(s, acts), u) <==> BrowseRenewed(s, acts, u)
  {
    forall x, a | Inv(x) && Enabled(x, a)
      ensures BrowseArrives(Step(x, a), u) <==>
              (BrowseArrives(x, u) && !LosesBrowse(x, a, u)) || RestoresBrowse(x, a, u)
    {
      BrowseStep(x, a, u);
    }
    HoldsIffMadeGood(s, acts, x => BrowseArrives(x, u), (x, a) => LosesBrowse(x, a, u),
                     (x, a) => RestoresBrowse(x, a, u));
  }

  lemma {:induction false} EntryIffRenewed(s: State, acts: seq<Action>, u: Uid)
    requires Inv(s) && EntryArrives(s, u)
    ensures EntryArrives(Run(s, acts), u) <==> EntryRenewed(s, acts, u)
  {
    forall x, a | Inv(x) && Enabled(x, a)
      ensures EntryArrives(Step(x, a), u) <==> (EntryArrives(x, u) && !LosesEntry(x, a, u)) || RestoresEntry(x, a, u)
    {
      EntryStep(x, a, u);
    }
    HoldsIffMadeGood(s, acts, x => EntryArrives(x, u), (x, a) => LosesEntry(x, a, u),
                     (x, a) => RestoresEntry(x, a, u));
  }

  lemma {:induction false} SeqIffRenewed(s: State, acts: seq<Action>)
    requires Inv(s) && SeqArrives(s)
    ensures SeqArrives(Run(s, acts)) <==> SeqRenewed(s, acts)
  {
    forall x, a | Inv(x) && Enabled(x, a)
      ensures SeqArrives(Step(x, a)) <==> (SeqArrives(x) && !LosesSeq(x, a)) || RestoresSeq(a)
    {
      SeqStep(x, a);
    }
    HoldsIffMadeGood(s, acts, x => SeqArrives(x), (x, a) => LosesSeq(x, a), (x, a) => RestoresSeq(a));
  }

  /** After any run of any interleaving, with losses, failed loads and restarts: at rest
      memory agrees with Redis and the rows if and only if everything a step lost was
      restored by a later one. */
  lemma {:induction false} AgreesAtRestIff(s: State, acts: seq<Action>, r: State)
    requires Inv(s) && Arrives(s) && r == Run(s, acts) && AtRest(r)
    ensures Agrees(r) <==> SeqRenewed(s, acts) && forall u :: EntryRenewed(s, acts, u) && BrowseRenewed(s, acts, u)
  {
    RunKeeps(s, acts);
    RestAgrees(r);
    SeqIffRenewed(s, acts);
    forall u
      ensures BrowseArrives(r, u) <==> BrowseRenewed(s, acts, u)
      ensures EntryArrives(r, u) <==> EntryRenewed(s, acts, u)
    {
      BrowseIffRenewed(s, acts, u);
      EntryIffRenewed(s, acts, u);
    }
  }

  // ---- how long a lost position stays lost ---------------------------------------------

  /** No load is running. */
  ghost predicate NoLoad(s: State) {
    forall m :: m in s.sends ==>
      !s.sends[m].phase.Loading? && !s.sends[m].phase.Loaded? && !s.sends[m].phase.SyncingMebs?
  }

  /** A numbered message of the user's own, the user's clear-unread, or a restart. */
  predicate OwnOrRestart(s: State, a: Action, u: Uid) {
    match a
    case Issue(m, _) => m in s.sends && s.sends[m].sender == u
    case ClearRedis(_, v) => v == u
    case Restart => true
    case _ => false
  }

  /** u's entry is behind Redis and nothing is on its way to it. */
  ghost predicate LeftBehind(s: State, u: Uid) {
    s.mem.Some? && NoLoad(s) && u in s.mebs && !BrowseArrives(s, u)
  }

  /** No load starts over a cached conversation. */
  lemma NoLoadStep(s: State, a: Action)
    requires Enabled(s, a) && s.mem.Some? && NoLoad(s)
    ensures NoLoad(Step(s, a))
  {
    match a
    case Lookup(m, o) => assert Step(s, a) == At(s, m, Issuing);
    case Restart =>
    case _ =>
  }

  /** A conversation that is cached with no load running is not loaded again before a
      restart, whatever is sent. */
  lemma {:induction false} NoLoadUntilRestart(s: State, acts: seq<Action>)
    requires Inv(s) && s.mem.Some? && NoLoad(s) && Restart !in acts
    ensures Run(s, acts).mem.Some? && NoLoad(Run(s, acts))
  {
    if acts != [] {
      var init, a := acts[..|acts| - 1], acts[|acts| - 1];
      NoLoadUntilRestart(s, init);
      RunKeeps(s, init);
      if Enabled(Run(s, init), a) {
        NoLoadStep(Run(s, init), a);
        StepKeeps(Run(s, init), a);
      }
    }
  }

  /** Entries only go with a restart. */
  lemma EntryStays(s: State, a: Action, u: Uid)
    requires Enabled(s, a) && u in s.mebs && !a.Restart?
    ensures u in Step(s, a).mebs
  {
  }

  lemma LostStep(s: State, a: Action, u: Uid)
    requires Inv(s) && Enabled(s, a) && NoLoad(s) && !BrowseArrives(s, u)
    ensures BrowseArrives(Step(s, a), u) <==> OwnOrRestart(s, a, u)
  {
    BrowseStep(s, a, u);
  }

  lemma LeftBehindStep(s: State, a: Action, u: Uid)
    requires Inv(s) && Enabled(s, a) && LeftBehind(s, u)
    ensures LeftBehind(Step(s, a), u) <==> !OwnOrRestart(s, a, u)
  {
    LostStep(s, a, u);
    if !a.Restart? {
      NoLoadStep(s, a);
      EntryStays(s, a, u);
      StepKeeps(s, a);
    }
  }

  /** A position that was lost stays lost through every other message, result and
      clear-unread, until the user's own next number or clear-unread or a restart. */
  lemma {:induction false} LostUntilOwnOrRestart(s: State, acts: seq<Action>, u: Uid)
    requires Inv(s) && LeftBehind(s, u)
    requires forall k :: 0 <= k < |acts| ==>
               !(Enabled(Run(s, acts[..k]), acts[k]) && OwnOrRestart(Run(s, acts[..k]), acts[k], u))
    ensures LeftBehind(Run(s, acts), u)
    ensures Run(s, acts).mebs[u].browse < StoreBrowse(Run(s, acts), u)
  {
    RunKeeps(s, acts);
    if acts != [] {
      var n := |acts| - 1;
      var init := acts[..n];
      assert forall k :: 0 <= k < n ==> init[..k] == acts[..k];
      LostUntilOwnOrRestart(s, init, u);
      RunKeeps(s, init);
      var before := Run(s, init);
      if Enabled(before, acts[n]) {
        assert !OwnOrRestart(Run(s, acts[..n]), acts[n], u);
        LeftBehindStep(before, acts[n], u);
      }
    }
    var r := Run(s, acts);
    assert MebOk(r, u, r.mebs[u]);
  }

  lemma LostAnswerEffect(s: State, k: nat, u: Uid)
    requires s.clears == map[] && s.tree.Some?
    ensures Do(Do(s, ClearRedis(k, u)), ClearLost(k)) == s.(tree := Some(ClearInTree(s.tree.value, u)))
  {
    var s1 := DoClearRedis(s, k, u);
    assert s1.clears - {k} == map[];
  }

  /** A clear-unread whose script ran and whose answer did not arrive, from a state at
      rest and in agreement: memory still agrees if and only if the user's entry had
      nothing to clear. Otherwise the entry is left behind. */
  lemma LostAnswerDisagrees(s: State, k: nat, u: Uid)
    requires Inv(s) && AtRest(s) && Agrees(s) && s.tree.Some?
    ensures var r := Do(Do(s, ClearRedis(k, u)), ClearLost(k));
            && AtRest(r) && (Agrees(r) <==> u !in s.mebs || s.mebs[u].browse == StoreSeq(s))
            && (!Agrees(r) ==> LeftBehind(r, u))
  {
    LostAnswerEffect(s, k, u);
    var r := Do(Do(s, ClearRedis(k, u)), ClearLost(k));
    assert forall v :: StoreBrowse(r, v) == if v == u then StoreSeq(s) else StoreBrowse(s, v);
    if u in s.mebs {
      assert MebOk(s, u, s.mebs[u]) && Browse(TreeOf(s), u) <= StoreSeq(s);
      assert forall c :: !Brings(r, c, u);
    }
  }
}
