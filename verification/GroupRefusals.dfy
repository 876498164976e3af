/** Who may change a group and who may send to it: what a removal half does to the removed,
    how long it lasts, what a load makes of a row, and whose changes are taken. */
module GroupRefusals {
  import opened Basics
  import opened Traces
  import opened GroupCache

  // ---- the removed are refused -------------------------------------------------------

  /** The cache has u as a removed member. */
  predicate KickedOut(g: Group, u: Uid) {
    g.cache.Some? && u in g.cache.value.mebs && g.cache.value.mebs[u].state == MebKicked
  }

  /** What u is told on sending, if the group is cached. */
  function Answer(g: Group, u: Uid, now: int): Option<SendError>
    requires g.cache.Some?
  {
    Refusal(CanSend(g.cache.value, u), now)
  }

  /** The cache half of a removal, in any state of a normal group: each removed user who is
      in the member map is from then on refused as removed, at any time, keeps role and
      mute, and is in nobody's fan-out; everybody else is as before. */
  lemma RemovalHalfRefuses(g: Group, i: nat, ok: bool, u: Uid, now: int)
    requires i < |g.pending| && g.pending[i].Removed? && g.cache.Some? && g.cache.value.state == GrpNormal
    requires u in g.cache.value.mebs
    ensures var g' := DoSettle(g, i, ok);
            && g'.cache.Some? && g'.cache.value.mebs.Keys == g.cache.value.mebs.Keys
            && (u in g.pending[i].uids ==>
                  && Answer(g', u, now) == Some(BeKicked)
                  && g'.cache.value.mebs[u].role == g.cache.value.mebs[u].role
                  && g'.cache.value.mebs[u].forbiddenAt == g.cache.value.mebs[u].forbiddenAt
                  && forall v :: u !in CanSend(g'.cache.value, v).forward)
            && (u !in g.pending[i].uids ==>
                  && g'.cache.value.mebs[u] == g.cache.value.mebs[u]
                  && Answer(g', u, now) == Answer(g, u, now))
  {
  }

  // ---- how long ----------------------------------------------------------------------

  /** The half of an addition of u or of the creation, or a server stop. */
  predicate TakesBack(g: Group, a: Action, u: Uid) {
    match a
    case Settle(i, ok) =>
      i < |g.pending| && (match g.pending[i]
                          case Created(_) => ok
                          case Added(mebs) => u in mebs
                          case Removed(_) => false)
    case Restart => true
    case _ => false
  }

  /** The half of a removal of u, who is in the member map. */
  predicate Kicks(g: Group, a: Action, u: Uid) {
    && a.Settle? && a.i < |g.pending| && g.pending[a.i].Removed? && u in g.pending[a.i].uids
    && g.cache.Some? && u in g.cache.value.mebs
  }

  /** Exactly when u is a removed member after a step. */
  lemma KickedStep(g: Group, a: Action, u: Uid)
    ensures KickedOut(Do(g, a), u) <==> (KickedOut(g, u) && !TakesBack(g, a, u)) || Kicks(g, a, u)
  {
    match a
    case Settle(i, ok) =>
      if i < |g.pending| {
        KickedSettle(g, g.pending[i], ok, u);
      }
    case _ =>
  }

  lemma KickedSettle(g: Group, h: Half, ok: bool, u: Uid)
    ensures KickedOut(Settled(g, h, ok), u) <==>
            match h
            case Created(_) => KickedOut(g, u) && !ok
            case Added(mebs) => KickedOut(g, u) && u !in mebs
            case Removed(uids) =>
              KickedOut(g, u) || (g.cache.Some? && u in g.cache.value.mebs && u in uids)
  {
    if h.Added? {
      var l := DoLoad(g, ok);
      assert KickedOut(l, u) <==> KickedOut(g, u);
      if l.cache.Some? {
        AddedMebs(l.cache.value.mebs, h.mebs);
      }
    }
  }

  /** The states a run from g passes. */
  function Along(g: Group, acts: seq<Action>): (path: seq<Group>)
    ensures |path| == |acts| + 1 && forall k :: 0 <= k <= |acts| ==> path[k] == From(g, acts[..k])
  {
    seq(|acts| + 1, k requires 0 <= k <= |acts| => From(g, acts[..k]))
  }

  lemma AlongStep(g: Group, acts: seq<Action>, k: nat)
    requires k < |acts|
    ensures Along(g, acts)[0] == g && Along(g, acts)[k + 1] == Do(Along(g, acts)[k], acts[k])
  {
    assert acts[..k + 1][..k] == acts[..k] && acts[..0] == [];
  }

  ghost predicate KickedAllAlong(g: Group, acts: seq<Action>, u: Uid) {
    AllAlong(Along(g, acts), x => KickedOut(x, u))
  }

  ghost predicate NeverTakenBack(g: Group, acts: seq<Action>, u: Uid) {
    Never(Along(g, acts), acts, (x, a) => TakesBack(x, a, u))
  }

  /** Once removed from the cache, over every run of overlapping handlers, u stays a removed
      member, and so is refused, at every point if and only if no half of an addition of u
      or of the creation is taken and the server does not stop. */
  lemma {:induction false} RefusedUntilTakenBack(g: Group, acts: seq<Action>, u: Uid)
    requires KickedOut(g, u)
    ensures KickedAllAlong(g, acts, u) <==> NeverTakenBack(g, acts, u)
    ensures NeverTakenBack(g, acts, u) ==>
              var r := From(g, acts);
              r.cache.Some? && (r.cache.value.state == GrpNormal ==> forall now :: Answer(r, u, now) == Some(BeKicked))
  {
    var path := Along(g, acts);
    assert acts[..0] == [];
    forall k | 0 <= k < |acts| && KickedOut(path[k], u)
      ensures KickedOut(path[k + 1], u) <==> !TakesBack(path[k], acts[k], u)
    {
      AlongStep(g, acts, k);
      KickedStep(path[k], acts[k], u);
    }
    AllAlongIffNever(path, acts, x => KickedOut(x, u), (x, a) => TakesBack(x, a, u));
    assert acts[..|acts|] == acts && path[|acts|] == From(g, acts);
  }

  /** The last half that settled u was a removal. */
  ghost predicate RemovedLast(g: Group, acts: seq<Action>, u: Uid) {
    RestoredLast(Along(g, acts), acts, (x, a) => TakesBack(x, a, u), (x, a) => Kicks(x, a, u))
  }

  /** After any run from a state in which u is no removed member, such as a server that has
      just started, u is one if and only if the last half that settled u was a removal. */
  lemma {:induction false} KickedIffRemovedLast(g: Group, acts: seq<Action>, u: Uid)
    requires !KickedOut(g, u)
    ensures KickedOut(From(g, acts), u) <==> RemovedLast(g, acts, u)
  {
    var path := Along(g, acts);
    assert acts[..0] == [] && acts[..|acts|] == acts;
    forall k | 0 <= k < |acts|
      ensures KickedOut(path[k + 1], u) <==>
              (KickedOut(path[k], u) && !TakesBack(path[k], acts[k], u)) || Kicks(path[k], acts[k], u)
    {
      AlongStep(g, acts, k);
      KickedStep(path[k], acts[k], u);
    }
    HoldsIffRestoredLast(path, acts, x => KickedOut(x, u), (x, a) => TakesBack(x, a, u), (x, a) => Kicks(x, a, u));
  }

  // ---- what a load makes of a row ------------------------------------------------------

  /** After a load a send is refused as the tables say: by the group's state, or by the mute
      in the sender's row. A removed member is not in the cache then, and is no longer
      refused: the message goes out to nobody. */
  lemma RefusedByTheRow(g: Group, u: Uid, now: int)
    requires g.cache.None? && g.table.Some?
    ensures var g', t := DoLoad(g, true), g.table.value;
            && g'.cache.Some?
            && (Answer(g', u, now) == Some(GroupForbidden) <==> t.state == GrpFrozen)
            && (Answer(g', u, now) == Some(GroupDismissed) <==> t.state == GrpDismissed)
            && (Answer(g', u, now) == Some(SenderForbidden) <==>
                  t.state == GrpNormal && RowNormal(g, u) && t.rows[u].forbiddenAt > now)
            && (RowNormal(g, u) ==> u in g'.cache.value.mebs && g'.cache.value.mebs[u].role == t.rows[u].role)
            && (t.state == GrpNormal && !RowNormal(g, u) ==>
                  Answer(g', u, now) == None && CanSend(g'.cache.value, u).forward == {})
  {
  }

  /** Those a half puts in are members without a mute, and are not refused in a normal
      group. */
  lemma PutInMaySend(g: Group, i: nat, u: Uid, now: int)
    requires i < |g.pending| && now >= 0
    requires match g.pending[i]
             case Created(roles) => u in roles
             case Added(mebs) => u in mebs && g.cache.Some? && g.cache.value.state == GrpNormal
             case Removed(_) => false
    ensures var g' := DoSettle(g, i, true);
            && g'.cache.Some? && u in g'.cache.value.mebs && Answer(g', u, now) == None
            && g'.cache.value.mebs[u].role == (if g.pending[i].Created? then g.pending[i].roles[u] else Ordinary)
            && forall v :: v in g'.cache.value.mebs && v != u ==> u in CanSend(g'.cache.value, v).forward
  {
    if g.pending[i].Added? {
      AddedMebs(g.cache.value.mebs, g.pending[i].mebs);
    }
  }

  // ---- who may change the group ----------------------------------------------------------

  /** Only an owner or a manager who is a normal member adds or removes members. Anyone
      else's request changes nothing; so does a removal of nobody normal. */
  lemma OnlyManagersChange(g: Group, op: Uid, uids: seq<Uid>)
    ensures var may := RowNormal(g, op) && g.table.value.rows[op].role in {Owner, Manager};
            && (Do(g, AddTx(op, uids)) == g <==> !may)
            && (Do(g, RemoveTx(op, uids)) == g <==> !may || forall u :: u in uids ==> !RowNormal(g, u))
  {
    if g.table.Some? {
      var gone := Removable(g.table.value.rows, uids);
      assert forall u :: u in gone <==> u in uids && RowNormal(g, u);
    }
  }

  /** A creation makes a normal group of exactly those named, the owner its owner and the
      others ordinary, all normal and unmuted; its half tells the cache the same. */
  lemma CreationRoles(owner: Uid, members: seq<Uid>, u: Uid)
    ensures var g := Do(Start(None), CreateTx(owner, members));
            && g.table.Some? && g.table.value.state == GrpNormal
            && (u in g.table.value.rows <==> u in members)
            && (u in members ==>
                  g.table.value.rows[u] == Row(if u == owner then Owner else Ordinary, MebNormal, 0))
            && |g.pending| == 1 && g.pending[0].Created? && g.pending[0].roles.Keys == g.table.value.rows.Keys
            && (u in members ==> g.pending[0].roles[u] == if u == owner then Owner else Ordinary)
  {
    CreatedRows(owner, members);
  }

  /** A permitted removal marks the rows of exactly the requested normal members as removed
      and keeps their role and mute. */
  lemma RemovedRows(g: Group, op: Uid, uids: seq<Uid>, u: Uid)
    requires g.table.Some? && MayManage(g.table.value, op) && u in g.table.value.rows
    ensures var row, g' := g.table.value.rows[u], Do(g, RemoveTx(op, uids));
            && g'.table.Some? && g'.table.value.rows.Keys == g.table.value.rows.Keys
            && g'.table.value.rows[u]
               == if u in uids && row.state == MebNormal then Row(row.role, MebKicked, row.forbiddenAt) else row
  {
    var gone := Removable(g.table.value.rows, uids);
    assert forall v :: v in gone <==> v in uids && RowNormal(g, v);
  }
}
