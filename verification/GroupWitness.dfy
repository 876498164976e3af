/** Runs of a group that end with a wrong fan-out: a removed member added again, handlers
    that overlap, and a removal whose handler ended early. */
module GroupWitness {
  import opened Basics
  import opened GroupCache

  function Runs(g: Group, a1: Action, a2: Action): Group {
    Do(Do(g, a1), a2)
  }

  lemma FromNext(g: Group, acts: seq<Action>, a: Action) returns (longer: seq<Action>)
    ensures longer == acts + [a] && From(g, longer) == Do(From(g, acts), a)
  {
    longer := acts + [a];
    assert longer[..|acts|] == acts;
  }

  /** A group of its owner o and member u, both normal in the table. */
  ghost predicate Founded(g: Group, o: Uid, u: Uid) {
    && g.table == Some(Table(GrpNormal, map[o := Row(Owner, MebNormal, 0), u := Row(Ordinary, MebNormal, 0)]))
    && g.last == map[o := In, u := In] && g.back == {} && g.wiped == {}
  }

  ghost predicate Cached(g: Group, o: Uid, u: Uid) {
    && Founded(g, o, u) && g.pending == []
    && g.cache == Some(Info(GrpNormal, map[o := Meb(Owner, MebNormal, 0), u := Meb(Ordinary, MebNormal, 0)]))
  }

  lemma Found(o: Uid, u: Uid) returns (g: Group)
    requires o != u
    ensures g == Do(Start(None), CreateTx(o, [o, u])) && Founded(g, o, u) && g.cache.None?
    ensures g.pending == [Created(map[o := Owner, u := Ordinary])]
  {
    g := Do(Start(None), CreateTx(o, [o, u]));
    CreatedRows(o, [o, u]);
    var rows := CreateRows(o, [o, u]);
    assert rows == map[o := Row(Owner, MebNormal, 0), u := Row(Ordinary, MebNormal, 0)];
    assert (map x | x in rows :: rows[x].role) == map[o := Owner, u := Ordinary];
  }

  lemma FoundAndCached(o: Uid, u: Uid) returns (acts: seq<Action>, g: Group)
    requires o != u
    ensures g == Run(None, acts) && Cached(g, o, u)
  {
    var g1 := Found(o, u);
    var x := FromNext(Start(None), [], CreateTx(o, [o, u]));
    acts := FromNext(Start(None), x, Settle(0, true));
    g := Do(g1, Settle(0, true));
    var roles := map[o := Owner, u := Ordinary];
    assert NewInfo(roles).mebs == map[o := Meb(Owner, MebNormal, 0), u := Meb(Ordinary, MebNormal, 0)];
    assert (set v | v in roles && !RowNormal(g1, v)) == {};
    assert (set v | v in g1.table.value.rows && RowNormal(g1, v) && v !in roles) == {};
    assert g.pending == [];
  }

  /** u is removed in the table; the half is pending. */
  lemma Removes(g: Group, o: Uid, u: Uid) returns (r: Group)
    requires o != u && Cached(g, o, u)
    ensures r == Do(g, RemoveTx(o, [u])) && r.pending == [Removed({u})] && r.cache == g.cache
    ensures r.table == Some(Table(GrpNormal, map[o := Row(Owner, MebNormal, 0), u := Row(Ordinary, MebKicked, 0)]))
    ensures r.last == map[o := In, u := Out] && r.back == {} && r.wiped == {}
  {
    var rows := g.table.value.rows;
    assert Removable(rows, [u]) == {u};
    assert KickRows(rows, {u}) == map[o := Row(Owner, MebNormal, 0), u := Row(Ordinary, MebKicked, 0)];
    r := Do(g, RemoveTx(o, [u]));
    assert r.last == map[o := In, u := Out];
  }

  /** The row is removed and the cache has u as normal, for good: the permitted removal
      finds nothing to remove. */
  ghost predicate CannotBeRemoved(g: Group, o: Uid, u: Uid) {
    && g.pending == [] && CachedNormal(g, u) && u in g.back
    && g.table.Some? && MayManage(g.table.value, o) && Do(g, RemoveTx(o, [u])) == g
  }

  lemma NothingToRemove(g: Group, o: Uid, u: Uid)
    requires g.table.Some? && MayManage(g.table.value, o) && !RowNormal(g, u)
    ensures Do(g, RemoveTx(o, [u])) == g
  {
    assert Removable(g.table.value.rows, [u]) == {};
  }

  lemma RemovedThenAdded(g: Group, o: Uid, u: Uid) returns (r: Group)
    requires o != u && g.pending == [Removed({u})] && g.cache.Some? && u in g.cache.value.mebs
    requires g.table == Some(Table(GrpNormal, map[o := Row(Owner, MebNormal, 0), u := Row(Ordinary, MebKicked, 0)]))
    requires g.last == map[o := In, u := Out] && g.back == {} && g.wiped == {}
    ensures r == Runs(Do(g, Settle(0, true)), AddTx(o, [u]), Settle(0, true))
    ensures CannotBeRemoved(r, o, u) && LastIn(r, u)
  {
    var g1 := Do(g, Settle(0, true));
    assert g1.pending == [];
    AddedRows(g1.table.value.rows, [u]);
    var g2 := Do(g1, AddTx(o, [u]));
    assert g2.pending == [Added([u])] && g2.table == g1.table;
    r := Do(g2, Settle(0, true));
    AddedMebs(g2.cache.value.mebs, [u]);
    NothingToRemove(r, o, u);
  }

  /** A member is removed and added again, handler by handler: the cache has the member in
      as the last change says, and no removal will work again. */
  lemma ReaddedCannotBeRemoved(o: Uid, u: Uid) returns (acts: seq<Action>)
    requires o != u
    ensures CannotBeRemoved(Run(None, acts), o, u) && LastIn(Run(None, acts), u)
  {
    var x, g := FoundAndCached(o, u);
    var g1 := Removes(g, o, u);
    var g2 := RemovedThenAdded(g1, o, u);
    x := FromNext(Start(None), x, RemoveTx(o, [u]));
    x := FromNext(Start(None), x, Settle(0, true));
    x := FromNext(Start(None), x, AddTx(o, [u]));
    acts := FromNext(Start(None), x, Settle(0, true));
  }

  /** A member is removed and the handler ends before its cache half: the member stays in
      the fan-out, and no removal will work again. */
  lemma DroppedRemovalStays(o: Uid, u: Uid) returns (acts: seq<Action>)
    requires o != u
    ensures CannotBeRemoved(Run(None, acts), o, u) && !LastIn(Run(None, acts), u)
  {
    var x, g := FoundAndCached(o, u);
    var g1 := Removes(g, o, u);
    var r := Do(g1, Drop(0));
    assert r.pending == [];
    NothingToRemove(r, o, u);
    x := FromNext(Start(None), x, RemoveTx(o, [u]));
    acts := FromNext(Start(None), x, Drop(0));
  }

  // ---- overlapping handlers -------------------------------------------------------------

  /** v is added to the table; the half is pending behind the others. */
  lemma Adds(g: Group, o: Uid, u: Uid, v: Uid) returns (r: Group)
    requires o != u && v !in {o, u} && Founded(g, o, u)
    ensures r == Do(g, AddTx(o, [v])) && r.pending == g.pending + [Added([v])] && r.cache == g.cache
    ensures r.table == Some(Table(GrpNormal, map[o := Row(Owner, MebNormal, 0), u := Row(Ordinary, MebNormal, 0),
                                                 v := Row(Ordinary, MebNormal, 0)]))
    ensures r.last == map[o := In, u := In, v := In] && r.back == {} && r.wiped == {}
  {
    AddedRows(g.table.value.rows, [v]);
    r := Do(g, AddTx(o, [v]));
  }

  lemma AddedThenRemoved(g: Group, o: Uid, u: Uid, v: Uid) returns (r: Group)
    requires o != u && v !in {o, u} && Cached(g, o, u)
    ensures r == Runs(g, AddTx(o, [v]), RemoveTx(o, [v])) && r.pending == [Added([v]), Removed({v})]
    ensures r.cache == g.cache && !RowNormal(r, v) && r.table.Some? && MayManage(r.table.value, o)
    ensures v in r.table.value.rows && v in r.last && !LastIn(r, v) && r.back == {}
  {
    var g1 := Adds(g, o, u, v);
    assert Removable(g1.table.value.rows, [v]) == {v};
    r := Do(g1, RemoveTx(o, [v]));
  }

  /** The removal's half comes first and finds nobody, the addition's puts v in. */
  lemma Overtaken(g: Group, o: Uid, v: Uid) returns (r: Group)
    requires g.pending == [Added([v]), Removed({v})] && g.cache.Some? && g.back == {}
    requires g.table.Some? && MayManage(g.table.value, o) && !RowNormal(g, v) && !LastIn(g, v)
    ensures r == Runs(g, Settle(1, true), Settle(0, true)) && CannotBeRemoved(r, o, v) && !LastIn(r, v)
  {
    var g1 := Do(g, Settle(1, true));
    assert g1.pending == [Added([v])];
    r := Do(g1, Settle(0, true));
    assert r.pending == [];
    AddedMebs(g1.cache.value.mebs, [v]);
    NothingToRemove(r, o, v);
  }

  /** Two handlers overlap: v is added and then removed, and the cache halves come the
      other way round. The removed member stays in the fan-out and cannot be removed. */
  lemma OvertakenAdditionStays(o: Uid, u: Uid, v: Uid) returns (acts: seq<Action>)
    requires o != u && v !in {o, u}
    ensures CannotBeRemoved(Run(None, acts), o, v) && !LastIn(Run(None, acts), v)
  {
    var x, g := FoundAndCached(o, u);
    var g1 := AddedThenRemoved(g, o, u, v);
    var g2 := Overtaken(g1, o, v);
    x := FromNext(Start(None), x, AddTx(o, [v]));
    x := FromNext(Start(None), x, RemoveTx(o, [v]));
    x := FromNext(Start(None), x, Settle(1, true));
    acts := FromNext(Start(None), x, Settle(0, true));
  }

  /** A creation half that comes after v was added leaves v, a normal member by the table
      and by the last change, out of the fan-out. */
  lemma LateCreationLeavesOut(o: Uid, u: Uid, v: Uid) returns (acts: seq<Action>)
    requires o != u && v !in {o, u}
    ensures var g := Run(None, acts);
            g.pending == [] && g.cache.Some? && RowNormal(g, v) && LastIn(g, v) && !CachedNormal(g, v)
  {
    var g0 := Found(o, u);
    var g1 := Adds(g0, o, u, v);
    var g2 := Do(g1, Settle(1, true));
    assert g2.pending == [Created(map[o := Owner, u := Ordinary])];
    var g3 := Do(g2, Settle(0, true));
    assert g3.pending == [];
    var x := FromNext(Start(None), [], CreateTx(o, [o, u]));
    x := FromNext(Start(None), x, AddTx(o, [v]));
    x := FromNext(Start(None), x, Settle(1, true));
    acts := FromNext(Start(None), x, Settle(0, true));
  }
}
