/** The topic server's group cache with its objects: a group map, and per group a
    member map of item objects whose state is changed in place. The tables are read
    through what a load finds. */
module GroupManager {
  import opened Basics
  import opened GroupCache

  type GrpNo = string

  class GroupMebItem {
    ghost const group: GrpNo
    ghost const owner: Uid
    var role: Role
    var state: MebState
    var forbiddenAt: int

    constructor (ghost group: GrpNo, ghost owner: Uid, m: Meb)
      ensures this.group == group && this.owner == owner && Value() == m
    {
      this.group, this.owner := group, owner;
      role, state, forbiddenAt := m.role, m.state, m.forbiddenAt;
    }

    ghost function Value(): Meb
      reads this
    {
      Meb(role, state, forbiddenAt)
    }
  }

  class GroupInfo {
    const groupNo: GrpNo
    var state: GrpState
    var meb2item: map<Uid, GroupMebItem>
    ghost var items: set<GroupMebItem>   // the item objects of this group

    constructor (groupNo: GrpNo, state: GrpState, meb2item: map<Uid, GroupMebItem>, ghost items: set<GroupMebItem>)
      ensures this.groupNo == groupNo && this.state == state && this.meb2item == meb2item && this.items == items
    {
      this.groupNo, this.state, this.meb2item, this.items := groupNo, state, meb2item, items;
    }

    ghost predicate Shows(info: Info)
      reads this, items
    {
      && state == info.state && meb2item.Keys == info.mebs.Keys
      && (forall u :: u in meb2item ==> meb2item[u] in items)
      && (forall u :: u in meb2item ==> meb2item[u].owner == u && meb2item[u].Value() == info.mebs[u])
      && (forall m :: m in items ==> m.group == groupNo)
    }

    /** The report for a sender: the scan of the member map. */
    method ReportFor(sender: Uid, ghost info: Info) returns (r: CanSendInfo, forward: seq<Uid>)
      requires Shows(info)
      ensures r == CanSend(info, sender)
      ensures NoDup(forward) && forall u :: u in forward <==> u in r.forward
    {
      if state != GrpNormal {
        return CanSendInfo(state, false, MebUnset, 0, {}), [];
      }
      if sender !in meb2item {
        return CanSendInfo(GrpUnset, true, MebUnset, 0, {}), [];
      }
      var item := meb2item[sender];
      forward := [];
      var left := meb2item.Keys;
      while left != {}
        invariant left <= meb2item.Keys && NoDup(forward)
        invariant forall u :: u in forward <==>
                    u in meb2item && u !in left && u != sender && info.mebs[u].state == MebNormal
        decreases |left|
      {
        var u :| u in left;
        left := left - {u};
        if u != sender && meb2item[u].state == MebNormal {
          forward := forward + [u];
        }
      }
      r := CanSendInfo(state, false, item.state, item.forbiddenAt, set u | u in forward);
      assert r.forward == CanSend(info, sender).forward;
    }

    /** New items for these members, over whatever the map held. */
    method PutNew(added: seq<Uid>, ghost info: Info)
      requires Shows(info)
      modifies this
      ensures Shows(info.(mebs := AddTo(info.mebs, added)))
      ensures forall m :: m in items && m !in old(items) ==> fresh(m)
    {
      ghost var now := info.mebs;
      var i := 0;
      while i < |added|
        invariant i <= |added| && now == AddTo(info.mebs, added[..i])
        invariant Shows(info.(mebs := now))
        invariant forall m :: m in items && m !in old(items) ==> fresh(m)
      {
        var item := new GroupMebItem(groupNo, added[i], Meb(Ordinary, MebNormal, 0));
        meb2item := meb2item[added[i] := item];
        items := items + {item};
        assert added[..i + 1][..i] == added[..i];
        now := now[added[i] := item.Value()];
        i := i + 1;
      }
      assert added[..|added|] == added;
    }

    method KickOne(u: Uid, ghost info: Info)
      requires Shows(info)
      modifies items
      ensures Shows(info.(mebs := KickFrom(info.mebs, {u})))
    {
      if u in meb2item {
        meb2item[u].state := MebKicked;
      }
    }

    /** Marks those of uids who are in the map, in place. */
    method Kick(uids: seq<Uid>, ghost info: Info)
      requires Shows(info)
      modifies items
      ensures Shows(info.(mebs := KickFrom(info.mebs, set u | u in uids)))
    {
      ghost var now := info.mebs;
      assert KickFrom(now, {}) == now;
      var i := 0;
      while i < |uids|
        invariant i <= |uids| && now == KickFrom(info.mebs, set u | u in uids[..i])
        invariant Shows(info.(mebs := now))
      {
        KickOne(uids[i], info.(mebs := now));
        assert uids[..i + 1] == uids[..i] + [uids[i]];
        now := KickFrom(now, {uids[i]});
        i := i + 1;
      }
      assert uids[..|uids|] == uids;
    }
  }

  /** A group whose objects are untouched shows what it showed. */
  twostate lemma InfoFrame(new x: GroupInfo, new info: Info)
    requires old(allocated(x)) && old(x.Shows(info)) && unchanged(x) && unchanged(x.items)
    ensures x.Shows(info)
  {
  }

  // ---- what each section makes of everything shown --------------------------------

  /** A load: cached wins, otherwise what the tables answer, if they do. */
  function LoadedInfos(infos: map<GrpNo, Info>, g: GrpNo, found: Option<Table>): map<GrpNo, Info> {
    if g in infos || found.None? then infos else infos[g := Loaded(found.value)]
  }

  function AddedInfos(infos: map<GrpNo, Info>, g: GrpNo, found: Option<Table>, added: seq<Uid>): map<GrpNo, Info> {
    var l := LoadedInfos(infos, g, found);
    if g in l then l[g := l[g].(mebs := AddTo(l[g].mebs, added))] else l
  }

  function RemovedInfos(infos: map<GrpNo, Info>, g: GrpNo, gone: set<Uid>): map<GrpNo, Info> {
    if g in infos then infos[g := infos[g].(mebs := KickFrom(infos[g].mebs, gone))] else infos
  }

  class GroupManager {
    var grpNo2info: map<GrpNo, GroupInfo>
    ghost var infos: map<GrpNo, Info>    // what the objects show
    ghost var Repr: set<object>

    twostate predicate Grown()
      reads this
    {
      old(Repr) <= Repr && forall o :: o in Repr && o !in old(Repr) ==> fresh(o)
    }

    ghost predicate Shown(g: GrpNo)
      reads this, Repr
      requires g in grpNo2info && g in infos
    {
      var x := grpNo2info[g];
      x in Repr && x.groupNo == g && x.items <= Repr && x.Shows(infos[g])
    }

    ghost predicate Valid()
      reads this, Repr
    {
      this in Repr && grpNo2info.Keys == infos.Keys && forall g :: g in grpNo2info ==> Shown(g)
    }

    constructor ()
      ensures Valid() && fresh(Repr) && infos == map[]
    {
      grpNo2info, infos := map[], map[];
      Repr := {this};
    }

    /** Only group g's objects changed, and infos says so. */
    twostate lemma GroupWritten(new g: GrpNo)
      requires old(Valid()) && this in Repr && old(Repr) <= Repr && g in grpNo2info && g in infos && Shown(g)
      requires grpNo2info == old(grpNo2info)[g := grpNo2info[g]] && infos == old(infos)[g := infos[g]]
      requires forall o :: o in old(Repr) && o != this
                           && (g in old(grpNo2info) ==> o != old(grpNo2info)[g] && o !in old(grpNo2info[g].items)) ==>
                             unchanged(o)
      ensures Valid()
    {
      forall h | h in grpNo2info && h != g ensures Shown(h) {
        assert old(Shown(h)) && (g in old(grpNo2info) ==> old(Shown(g)));
        InfoFrame(grpNo2info[h], infos[h]);
      }
    }

    /** Item objects for the members of a group. */
    method NewItems(grpNo: GrpNo, mebs: map<Uid, Meb>)
      returns (meb2item: map<Uid, GroupMebItem>, ghost items: set<GroupMebItem>)
      ensures meb2item.Keys == mebs.Keys && forall u :: u in meb2item ==> meb2item[u] in items
      ensures forall u :: u in meb2item ==> meb2item[u].owner == u && meb2item[u].Value() == mebs[u]
      ensures forall m :: m in items ==> fresh(m) && m.group == grpNo
    {
      meb2item, items := map[], {};
      var left := mebs.Keys;
      while left != {}
        invariant left <= mebs.Keys && meb2item.Keys == mebs.Keys - left
        invariant forall u :: u in meb2item ==> meb2item[u] in items
        invariant forall u :: u in meb2item ==> meb2item[u].owner == u && meb2item[u].Value() == mebs[u]
        invariant forall m :: m in items ==> fresh(m) && m.group == grpNo
        decreases |left|
      {
        var u :| u in left;
        left := left - {u};
        var item := new GroupMebItem(grpNo, u, mebs[u]);
        meb2item, items := meb2item[u := item], items + {item};
      }
    }

    method NewGroup(grpNo: GrpNo, info: Info) returns (x: GroupInfo)
      ensures fresh(x) && fresh(x.items) && x.groupNo == grpNo && x.Shows(info)
    {
      var meb2item, items := NewItems(grpNo, info.mebs);
      x := new GroupInfo(grpNo, info.state, meb2item, items);
    }

    /** Puts a new group object, over whatever was cached. */
    method PutInfo(grpNo: GrpNo, info: Info)
      requires Valid()
      modifies this
      ensures Valid() && Grown() && infos == old(infos)[grpNo := info]
    {
      var x := NewGroup(grpNo, info);
      grpNo2info := grpNo2info[grpNo := x];
      infos := infos[grpNo := info];
      Repr := Repr + {x} + x.items;
      GroupWritten(grpNo);
    }

    method OnGroupCreated(grpNo: GrpNo, roles: map<Uid, Role>)
      requires Valid()
      modifies this
      ensures Valid() && Grown() && infos == old(infos)[grpNo := NewInfo(roles)]
    {
      PutInfo(grpNo, NewInfo(roles));
    }

    /** Finds the group or loads it; found is what the tables answer, if they do. */
    method InitGroupInfoLazy(grpNo: GrpNo, found: Option<Table>) returns (ok: bool)
      requires Valid()
      modifies this
      ensures Valid() && Grown() && ok == (grpNo in infos)
      ensures infos == LoadedInfos(old(infos), grpNo, found)
    {
      if grpNo in grpNo2info {
        return true;
      }
      if found.None? {
        return false;
      }
      PutInfo(grpNo, Loaded(found.value));
      ok := true;
    }

    method OnSendMsgInGroup(grpNo: GrpNo, found: Option<Table>, sender: Uid)
      returns (ok: bool, r: CanSendInfo, forward: seq<Uid>)
      requires Valid()
      modifies this
      ensures Valid() && Grown() && ok == (grpNo in infos)
      ensures infos == LoadedInfos(old(infos), grpNo, found)
      ensures ok ==> grpNo in infos && r == CanSend(infos[grpNo], sender)
      ensures ok ==> NoDup(forward) && forall u :: u in forward <==> u in r.forward
    {
      ok := InitGroupInfoLazy(grpNo, found);
      r, forward := CanSendInfo(GrpUnset, false, MebUnset, 0, {}), [];
      if ok {
        assert Shown(grpNo);
        r, forward := grpNo2info[grpNo].ReportFor(sender, infos[grpNo]);
      }
    }

    /** The cache half of adding members; the count includes removed members. */
    method OnGroupMebAdded(grpNo: GrpNo, found: Option<Table>, added: seq<Uid>) returns (ok: bool, count: nat)
      requires Valid()
      modifies Repr
      ensures Valid() && Grown() && ok == (grpNo in infos)
      ensures infos == AddedInfos(old(infos), grpNo, found, added)
      ensures grpNo in infos ==> count == |infos[grpNo].mebs|
    {
      count := 0;
      ok := InitGroupInfoLazy(grpNo, found);
      if ok {
        count := AddMembers(grpNo, added);
      }
    }

    method AddMembers(grpNo: GrpNo, added: seq<Uid>) returns (count: nat)
      requires Valid() && grpNo in infos
      modifies Repr
      ensures Valid() && Grown()
      ensures infos == old(infos)[grpNo := old(infos)[grpNo].(mebs := AddTo(old(infos)[grpNo].mebs, added))]
      ensures count == |infos[grpNo].mebs|
    {
      assert Shown(grpNo);
      var x := grpNo2info[grpNo];
      x.PutNew(added, infos[grpNo]);
      infos := infos[grpNo := infos[grpNo].(mebs := AddTo(infos[grpNo].mebs, added))];
      Repr := Repr + x.items;
      count := |x.meb2item.Keys|;
      assert x.meb2item.Keys == infos[grpNo].mebs.Keys;
      GroupWritten(grpNo);
      assert |infos[grpNo].mebs| == |infos[grpNo].mebs.Keys|;
    }

    /** The cache half of removing members; a group not cached is left alone. */
    method OnGroupMebRemoved(grpNo: GrpNo, uids: seq<Uid>)
      requires Valid()
      modifies Repr
      ensures Valid() && Repr == old(Repr)
      ensures infos == RemovedInfos(old(infos), grpNo, set u | u in uids)
    {
      if grpNo in grpNo2info {
        assert Shown(grpNo);
        var x := grpNo2info[grpNo];
        x.Kick(uids, infos[grpNo]);
        infos := infos[grpNo := infos[grpNo].(mebs := KickFrom(infos[grpNo].mebs, set u | u in uids))];
        GroupWritten(grpNo);
      }
    }

    /** Everyone in the member map, removed members included. */
    method GetGroupMebUids(grpNo: GrpNo, found: Option<Table>) returns (uids: set<Uid>)
      requires Valid()
      modifies this
      ensures Valid() && Grown() && infos == LoadedInfos(old(infos), grpNo, found)
      ensures uids == if grpNo in infos then infos[grpNo].mebs.Keys else {}
    {
      var ok := InitGroupInfoLazy(grpNo, found);
      uids := {};
      if ok {
        assert Shown(grpNo);
        uids := grpNo2info[grpNo].meb2item.Keys;
      }
    }
  }

  // ---- the manager makes the steps of GroupCache -----------------------------------------

  /** What the manager holds of one group. */
  function CacheOf(infos: map<GrpNo, Info>, g: GrpNo): Option<Info> {
    if g in infos then Some(infos[g]) else None
  }

  /** What the tables answer when the calls to them work, or nothing. */
  function Found(group: Group, ok: bool): Option<Table> {
    if ok then group.table else None
  }

  /** The effect of InitGroupInfoLazy on the group asked for is a load step, and other
      groups are untouched. */
  lemma LazyLoadIsALoad(infos: map<GrpNo, Info>, g: GrpNo, group: Group, ok: bool)
    requires CacheOf(infos, g) == group.cache
    ensures var infos' := LoadedInfos(infos, g, Found(group, ok));
            && CacheOf(infos', g) == DoLoad(group, ok).cache
            && forall h :: h != g ==> CacheOf(infos', h) == CacheOf(infos, h)
  {
  }

  /** What the manager makes of a handler's cache half. */
  function HalfInfos(infos: map<GrpNo, Info>, g: GrpNo, group: Group, half: Half, ok: bool): map<GrpNo, Info> {
    match half
    case Created(roles) => if ok then infos[g := NewInfo(roles)] else infos
    case Added(mebs) => AddedInfos(infos, g, Found(group, ok), mebs)
    case Removed(uids) => RemovedInfos(infos, g, uids)
  }

  /** The cache halves of the handlers, as the manager makes them, are settle steps of
      the group, whether what they need from outside works or not, and leave the other
      groups alone. */
  lemma CacheHalvesAreSettles(infos: map<GrpNo, Info>, g: GrpNo, group: Group, i: nat, ok: bool)
    requires CacheOf(infos, g) == group.cache && i < |group.pending|
    ensures var infos' := HalfInfos(infos, g, group, group.pending[i], ok);
            && CacheOf(infos', g) == DoSettle(group, i, ok).cache
            && forall h :: h != g ==> CacheOf(infos', h) == CacheOf(infos, h)
  {
    LazyLoadIsALoad(infos, g, group, ok);
  }
}
