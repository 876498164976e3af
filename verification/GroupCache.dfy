/** One group: its rows in the member table, the topic server's cached copy, and the
    handlers that change the one and then the other. Any number of handlers run at
    once, their cache halves in any order; sends, which load the cache when it is
    missing, fall anywhere. */
module GroupCache {
  import opened Basics
  import opened Traces

  type Uid = string

  datatype Role = Owner | Manager | Ordinary
  datatype GrpState = GrpUnset | GrpNormal | GrpFrozen | GrpDismissed
  datatype MebState = MebUnset | MebNormal | MebKicked

  /** A row of the member table. A new row is in the normal state. */
  datatype Row = Row(role: Role, state: MebState, forbiddenAt: int)
  datatype Table = Table(state: GrpState, rows: map<Uid, Row>)

  datatype Meb = Meb(role: Role, state: MebState, forbiddenAt: int)
  datatype Info = Info(state: GrpState, mebs: map<Uid, Meb>)

  /** The half of a handler that is still to come: its change to the cache. */
  datatype Half = Created(roles: map<Uid, Role>) | Added(mebs: seq<Uid>) | Removed(uids: set<Uid>)

  datatype Change = In | Out

  datatype Group = Group(
    table: Option<Table>,
    cache: Option<Info>,
    pending: seq<Half>,
    last: map<Uid, Change>,    // each user's last effective change
    back: set<Uid>,            // removed members the cache was told to add or never told to remove
    wiped: set<Uid>)           // normal members it was never told of or a late creation left out

  datatype Action =
    | CreateTx(owner: Uid, members: seq<Uid>)
    | AddTx(op: Uid, mebs: seq<Uid>)
    | RemoveTx(op: Uid, uids: seq<Uid>)
    | Settle(i: nat, ok: bool) // a handler's cache half; ok: what it needs from outside works
    | Drop(i: nat)             // a handler that ends before its cache half, its change committed
    | Load(ok: bool)           // a send or a listing finds the cache or loads it
    | Restart

  // ---- the table ---------------------------------------------------------------

  /** insert … on duplicate key update: an existing row keeps its role and state. */
  function Upsert(rows: map<Uid, Row>, u: Uid, role: Role): map<Uid, Row> {
    if u in rows then rows else rows[u := Row(role, MebNormal, 0)]
  }

  function RoleOf(owner: Uid, u: Uid): Role {
    if u == owner then Owner else Ordinary
  }

  /** CreateGroupChat's rows. */
  function CreateRows(owner: Uid, members: seq<Uid>): map<Uid, Row> {
    if members == [] then map[]
    else
      var u := members[|members| - 1];
      Upsert(CreateRows(owner, members[..|members| - 1]), u, RoleOf(owner, u))
  }

  function AddRows(rows: map<Uid, Row>, mebs: seq<Uid>): map<Uid, Row> {
    if mebs == [] then rows
    else Upsert(AddRows(rows, mebs[..|mebs| - 1]), mebs[|mebs| - 1], Ordinary)
  }

  /** The requested members RemoveMembers finds: those in the normal state. */
  function Removable(rows: map<Uid, Row>, uids: seq<Uid>): set<Uid> {
    set u | u in uids && u in rows && rows[u].state == MebNormal
  }

  function KickRows(rows: map<Uid, Row>, gone: set<Uid>): map<Uid, Row> {
    map u | u in rows :: if u in gone then rows[u].(state := MebKicked) else rows[u]
  }

  /** GetRoleInGroup and the check on it: a normal member, manager or above. */
  predicate MayManage(t: Table, op: Uid) {
    op in t.rows && t.rows[op].state == MebNormal && t.rows[op].role != Ordinary
  }

  // ---- the cache ---------------------------------------------------------------

  /** What a load builds: FindGroupItems returns normal members only. */
  function Loaded(t: Table): Info {
    Info(t.state, map u | u in t.rows && t.rows[u].state == MebNormal ::
                    Meb(t.rows[u].role, MebNormal, t.rows[u].forbiddenAt))
  }

  function NewInfo(roles: map<Uid, Role>): Info {
    Info(GrpNormal, map u | u in roles :: Meb(roles[u], MebNormal, 0))
  }

  function AddTo(mebs: map<Uid, Meb>, added: seq<Uid>): map<Uid, Meb> {
    if added == [] then mebs
    else AddTo(mebs, added[..|added| - 1])[added[|added| - 1] := Meb(Ordinary, MebNormal, 0)]
  }

  function KickFrom(mebs: map<Uid, Meb>, gone: set<Uid>): map<Uid, Meb> {
    map u | u in mebs :: if u in gone then mebs[u].(state := MebKicked) else mebs[u]
  }

  predicate CachedNormal(g: Group, u: Uid) {
    g.cache.Some? && u in g.cache.value.mebs && g.cache.value.mebs[u].state == MebNormal
  }

  predicate RowNormal(g: Group, u: Uid) {
    g.table.Some? && u in g.table.value.rows && g.table.value.rows[u].state == MebNormal
  }

  // ---- the steps ---------------------------------------------------------------

  function DoLoad(g: Group, ok: bool): Group {
    if g.cache.None? && g.table.Some? && ok then g.(cache := Some(Loaded(g.table.value))) else g
  }

  function DoCreateTx(g: Group, owner: Uid, members: seq<Uid>): Group {
    if g.table.Some? then g
    else
      var rows := CreateRows(owner, members);
      g.(table := Some(Table(GrpNormal, rows)),
         pending := g.pending + [Created(map u | u in rows :: rows[u].role)],
         last := map u | u in rows :: In)
  }

  function DoAddTx(g: Group, op: Uid, mebs: seq<Uid>): Group {
    if g.table.None? || !MayManage(g.table.value, op) then g
    else
      var rows := AddRows(g.table.value.rows, mebs);
      g.(table := Some(g.table.value.(rows := rows)),
         pending := g.pending + [Added(mebs)],
         last := map u | u in rows :: if u in mebs || u !in g.last then In else g.last[u])
  }

  function DoRemoveTx(g: Group, op: Uid, uids: seq<Uid>): Group {
    if g.table.None? || !MayManage(g.table.value, op) then g
    else
      var rows := g.table.value.rows;
      var gone := Removable(rows, uids);
      if gone == {} then g
      else
        g.(table := Some(g.table.value.(rows := KickRows(rows, gone))),
           pending := g.pending + [Removed(gone)],
           last := map u | u in g.last :: if u in gone then Out else g.last[u],
           wiped := g.wiped - gone)
  }

  /** The pending halves without half i. */
  function Rest(g: Group, i: nat): seq<Half>
    requires i < |g.pending|
  {
    g.pending[..i] + g.pending[i + 1..]
  }

  /** What a half does to the cache. */
  function Settled(g: Group, h: Half, ok: bool): Group {
    match h
    case Created(roles) =>
      if !ok then g
      else
        g.(cache := Some(NewInfo(roles)),
           back := (set u | u in roles && !RowNormal(g, u)),
           wiped := if g.table.None? then {} else set u | u in g.table.value.rows && RowNormal(g, u) && u !in roles)
    case Added(mebs) =>
      var l := DoLoad(g, ok);
      if l.cache.None? then l
      else
        l.(cache := Some(l.cache.value.(mebs := AddTo(l.cache.value.mebs, mebs))),
           back := l.back + (set u | u in mebs && !RowNormal(l, u)),
           wiped := l.wiped - set u | u in mebs)
    case Removed(uids) =>
      if g.cache.None? then g
      else g.(cache := Some(g.cache.value.(mebs := KickFrom(g.cache.value.mebs, uids))), back := g.back - uids)
  }

  function DoSettle(g: Group, i: nat, ok: bool): Group {
    if i < |g.pending| then Settled(g, g.pending[i], ok).(pending := Rest(g, i)) else g
  }

  /** A half that never comes: the commit's answer is lost, or the handler ends. */
  function Dropped(g: Group, h: Half): Group {
    match h
    case Created(_) => g
    case Added(mebs) =>
      if g.cache.None? then g
      else g.(wiped := g.wiped + set u | u in mebs && RowNormal(g, u) && !CachedNormal(g, u))
    case Removed(uids) => g.(back := g.back + set u | u in uids && CachedNormal(g, u))
  }

  function DoDrop(g: Group, i: nat): Group {
    if i < |g.pending| then Dropped(g, g.pending[i]).(pending := Rest(g, i)) else g
  }

  function Do(g: Group, a: Action): Group {
    match a
    case CreateTx(owner, members) => DoCreateTx(g, owner, members)
    case AddTx(op, mebs) => DoAddTx(g, op, mebs)
    case RemoveTx(op, uids) => DoRemoveTx(g, op, uids)
    case Settle(i, ok) => DoSettle(g, i, ok)
    case Drop(i) => DoDrop(g, i)
    case Load(ok) => DoLoad(g, ok)
    case Restart => g.(cache := None, pending := [], back := {}, wiped := {})
  }

  /** A group as a server finds it when it starts. */
  function Start(table: Option<Table>): Group {
    Group(table, None, [],
          if table.None? then map[]
          else map u | u in table.value.rows :: if table.value.rows[u].state == MebNormal then In else Out,
          {}, {})
  }

  /** What becomes of a group under any interleaving. */
  function From(g: Group, acts: seq<Action>): Group {
    if acts == [] then g else Do(From(g, acts[..|acts| - 1]), acts[|acts| - 1])
  }

  function Run(table: Option<Table>, acts: seq<Action>): Group {
    From(Start(table), acts)
  }

  // ---- the invariant ---------------------------------------------------------------

  /** The half is about to say whether u is in. */
  predicate Concerns(h: Half, u: Uid) {
    match h
    case Created(_) => false
    case Added(mebs) => u in mebs
    case Removed(uids) => u in uids
  }

  /** Some pending half is about u. */
  ghost predicate Unsettled(g: Group, u: Uid) {
    exists h :: h in g.pending && Concerns(h, u)
  }

  ghost predicate TableOk(g: Group) {
    && (g.table.None? ==> g.last == map[] && g.cache.None? && g.pending == [])
    && (g.table.Some? ==> g.last.Keys == g.table.value.rows.Keys)
    && (forall u :: RowNormal(g, u) ==> u in g.last && g.last[u] == In)
    && (forall u :: u in g.back ==> !RowNormal(g, u) && CachedNormal(g, u) && u in g.last)
    && (forall u :: u in g.wiped ==> RowNormal(g, u) && !CachedNormal(g, u))
    && (g.cache.None? ==> g.back == {} && g.wiped == {})
  }

  ghost predicate HalfOk(g: Group, h: Half) {
    g.table.Some? &&
    match h
    case Created(roles) => g.table.value.state == GrpNormal && forall u :: u in roles ==> u in g.last
    case Added(mebs) => forall u :: u in mebs ==> u in g.last
    case Removed(uids) => forall u :: u in uids ==> u in g.last && !RowNormal(g, u)
  }

  ghost predicate PendingOk(g: Group) {
    forall h :: h in g.pending ==> HalfOk(g, h)
  }

  /** Who is normal in the cache, as the histories have it. */
  ghost predicate Shown(g: Group, u: Uid) {
    (RowNormal(g, u) && u !in g.wiped) || u in g.back
  }

  /** A half is still to tell the cache of u's addition, or of u's removal. */
  ghost predicate Coming(g: Group, u: Uid) {
    exists h :: h in g.pending && h.Added? && u in h.mebs
  }

  ghost predicate Going(g: Group, u: Uid) {
    exists h :: h in g.pending && h.Removed? && u in h.uids
  }

  /** The cache shows what the histories say, or a half is still to see to it. */
  ghost predicate ShownOrComing(g: Group, u: Uid) {
    && (CachedNormal(g, u) && !Shown(g, u) ==> Going(g, u))
    && (!CachedNormal(g, u) && Shown(g, u) ==> Coming(g, u))
  }

  ghost predicate CacheOk(g: Group) {
    g.cache.Some? ==>
      && g.table.Some? && g.cache.value.state == g.table.value.state
      && (forall u :: ShownOrComing(g, u))
      && (forall u :: u in g.cache.value.mebs ==> u in g.last)
  }

  ghost predicate Inv(g: Group) {
    TableOk(g) && PendingOk(g) && CacheOk(g)
  }

  lemma {:induction false} CreatedRows(owner: Uid, members: seq<Uid>)
    ensures forall u :: u in CreateRows(owner, members) <==> u in members
    ensures forall u :: u in members ==> CreateRows(owner, members)[u] == Row(RoleOf(owner, u), MebNormal, 0)
  {
    if members != [] {
      CreatedRows(owner, members[..|members| - 1]);
      assert members == members[..|members| - 1] + [members[|members| - 1]];
    }
  }

  lemma {:induction false} AddedRows(rows: map<Uid, Row>, mebs: seq<Uid>)
    ensures var rows' := AddRows(rows, mebs);
            && (forall u :: u in rows' <==> u in rows || u in mebs)
            && (forall u :: u in rows' ==> rows'[u] == if u in rows then rows[u] else Row(Ordinary, MebNormal, 0))
  {
    if mebs != [] {
      AddedRows(rows, mebs[..|mebs| - 1]);
      assert mebs == mebs[..|mebs| - 1] + [mebs[|mebs| - 1]];
    }
  }

  lemma {:induction false} AddedMebs(mebs: map<Uid, Meb>, added: seq<Uid>)
    ensures var mebs' := AddTo(mebs, added);
            && (forall u :: u in mebs' <==> u in mebs || u in added)
            && (forall u :: u in mebs' ==> mebs'[u] == if u in added then Meb(Ordinary, MebNormal, 0) else mebs[u])
  {
    if added != [] {
      AddedMebs(mebs, added[..|added| - 1]);
      assert added == added[..|added| - 1] + [added[|added| - 1]];
    }
  }

  lemma PendingMore(g: Group, g': Group, h: Half, u: Uid)
    requires g'.pending == g.pending + [h]
    ensures Unsettled(g', u) <==> Unsettled(g, u) || Concerns(h, u)
    ensures Coming(g', u) <==> Coming(g, u) || (h.Added? && u in h.mebs)
    ensures Going(g', u) <==> Going(g, u) || (h.Removed? && u in h.uids)
  {
    assert forall x :: x in g'.pending <==> x in g.pending || x == h;
  }

  lemma PendingLess(g: Group, g': Group, i: nat, u: Uid)
    requires i < |g.pending| && g'.pending == Rest(g, i)
    ensures Unsettled(g, u) <==> Unsettled(g', u) || Concerns(g.pending[i], u)
    ensures Coming(g, u) <==> Coming(g', u) || (g.pending[i].Added? && u in g.pending[i].mebs)
    ensures Going(g, u) <==> Going(g', u) || (g.pending[i].Removed? && u in g.pending[i].uids)
    ensures forall h :: h in g'.pending ==> h in g.pending
  {
    assert g.pending == g.pending[..i] + [g.pending[i]] + g.pending[i + 1..];
    assert forall x :: x in g.pending <==> x in g'.pending || x == g.pending[i];
  }

  lemma CreateKeeps(g: Group, owner: Uid, members: seq<Uid>)
    requires Inv(g)
    ensures Inv(DoCreateTx(g, owner, members))
  {
    CreatedRows(owner, members);
  }

  /** What adding does to the rows and the history. */
  lemma AddTable(g: Group, op: Uid, mebs: seq<Uid>)
    requires TableOk(g) && g.table.Some? && MayManage(g.table.value, op)
    ensures var g' := DoAddTx(g, op, mebs);
            && g'.table.Some? && g'.last.Keys == g'.table.value.rows.Keys == g.last.Keys + (set u | u in mebs)
            && (forall u :: u in g'.last ==>
                  if u in mebs then g'.last[u] == In else u in g.last && g'.last[u] == g.last[u])
            && (forall u :: RowNormal(g', u) <==> RowNormal(g, u) || (u in mebs && u !in g.last))
            && TableOk(g')
  {
    AddedRows(g.table.value.rows, mebs);
  }

  lemma AddKeeps(g: Group, op: Uid, mebs: seq<Uid>)
    requires Inv(g)
    ensures Inv(DoAddTx(g, op, mebs))
  {
    if g.table.Some? && MayManage(g.table.value, op) {
      var g' := DoAddTx(g, op, mebs);
      AddTable(g, op, mebs);
      forall h | h in g'.pending ensures HalfOk(g', h) {
        assert h in g.pending ==> HalfOk(g, h);
      }
      forall u | g.cache.Some? ensures ShownOrComing(g', u) {
        assert ShownOrComing(g, u);
        PendingMore(g, g', Added(mebs), u);
      }
    }
  }

  /** What removing does to the rows and the history. */
  lemma RemoveTable(g: Group, op: Uid, uids: seq<Uid>)
    requires TableOk(g) && g.table.Some? && MayManage(g.table.value, op)
    ensures var g', gone := DoRemoveTx(g, op, uids), Removable(g.table.value.rows, uids);
            && TableOk(g') && g'.table.Some? && g'.table.value.state == g.table.value.state
            && g'.last.Keys == g.last.Keys && gone <= g.last.Keys
            && (forall u :: u in g'.last ==> g'.last[u] == if u in gone then Out else g.last[u])
            && (forall u :: RowNormal(g', u) <==> RowNormal(g, u) && u !in gone)
            && g'.back == g.back && g'.wiped == g.wiped - gone
            && g'.pending == if gone == {} then g.pending else g.pending + [Removed(gone)]
  {
  }

  lemma RemoveKeeps(g: Group, op: Uid, uids: seq<Uid>)
    requires Inv(g)
    ensures Inv(DoRemoveTx(g, op, uids))
  {
    if g.table.Some? && MayManage(g.table.value, op) {
      var g', gone := DoRemoveTx(g, op, uids), Removable(g.table.value.rows, uids);
      RemoveTable(g, op, uids);
      forall h | h in g'.pending ensures HalfOk(g', h) {
        assert h in g.pending ==> HalfOk(g, h);
      }
      forall u | g.cache.Some? ensures ShownOrComing(g', u) {
        assert ShownOrComing(g, u);
        if gone != {} {
          PendingMore(g, g', Removed(gone), u);
        }
      }
    }
  }

  lemma LoadKeeps(g: Group, ok: bool)
    requires Inv(g)
    ensures Inv(DoLoad(g, ok))
    ensures forall u :: RowNormal(DoLoad(g, ok), u) == RowNormal(g, u) && Unsettled(DoLoad(g, ok), u) == Unsettled(g, u)
  {
    var g' := DoLoad(g, ok);
    assert g'.pending == g.pending && g'.table == g.table;
    forall h | h in g'.pending ensures HalfOk(g', h) {
      assert HalfOk(g, h);
    }
  }

  /** Who is normal in the cache after a half. */
  lemma HalfShows(g: Group, h: Half, ok: bool, u: Uid)
    requires Inv(g) && HalfOk(g, h)
    ensures var g', l := Settled(g, h, ok), DoLoad(g, ok);
            match h
            case Created(roles) =>
              if ok then CachedNormal(g', u) <==> u in roles else g' == g
            case Added(mebs) =>
              if l.cache.Some? then CachedNormal(g', u) <==> u in mebs || CachedNormal(l, u) else g' == g
            case Removed(uids) =>
              if g.cache.Some? then CachedNormal(g', u) <==> CachedNormal(g, u) && u !in uids else g' == g
  {
    var l := DoLoad(g, ok);
    if h.Added? && l.cache.Some? {
      AddedMebs(l.cache.value.mebs, h.mebs);
    }
  }

  lemma SettledTable(g: Group, h: Half, ok: bool)
    requires Inv(g) && HalfOk(g, h)
    ensures var g' := Settled(g, h, ok);
            && TableOk(g') && g'.table == g.table && g'.last == g.last && g'.pending == g.pending
            && (g.cache.Some? ==> g'.cache.Some?)
            && (g'.cache.Some? ==> g'.cache.value.state == g'.table.value.state
                                   && forall u :: u in g'.cache.value.mebs ==> u in g'.last)
  {
    LoadKeeps(g, ok);
    var l := DoLoad(g, ok);
    if h.Added? && l.cache.Some? {
      AddedMebs(l.cache.value.mebs, h.mebs);
    }
  }

  lemma SettledShown(g: Group, i: nat, ok: bool, u: Uid)
    requires Inv(g) && i < |g.pending| && HalfOk(g, g.pending[i]) && DoSettle(g, i, ok).cache.Some?
    ensures ShownOrComing(DoSettle(g, i, ok), u)
  {
    var h, l := g.pending[i], DoLoad(g, ok);
    HalfShows(g, h, ok, u);
    LoadKeeps(g, ok);
    PendingLess(g, DoSettle(g, i, ok), i, u);
    assert g.cache.Some? ==> ShownOrComing(g, u);
    assert l.cache.Some? ==> ShownOrComing(l, u);
    assert Coming(l, u) <==> Coming(g, u);
    assert Going(l, u) <==> Going(g, u);
  }

  lemma SettleKeeps(g: Group, i: nat, ok: bool)
    requires Inv(g)
    ensures Inv(DoSettle(g, i, ok))
  {
    if i < |g.pending| {
      var h, g' := g.pending[i], DoSettle(g, i, ok);
      assert h in g.pending && HalfOk(g, h);
      SettledTable(g, h, ok);
      PendingLess(g, g', i, "");
      forall x | x in g'.pending ensures HalfOk(g', x) {
        assert HalfOk(g, x);
      }
      forall u | g'.cache.Some? ensures ShownOrComing(g', u) {
        SettledShown(g, i, ok, u);
      }
    }
  }

  lemma DropKeeps(g: Group, i: nat)
    requires Inv(g)
    ensures Inv(DoDrop(g, i))
  {
    if i < |g.pending| {
      var h, g' := g.pending[i], DoDrop(g, i);
      assert h in g.pending && HalfOk(g, h);
      PendingLess(g, g', i, "");
      assert forall u :: RowNormal(g', u) == RowNormal(g, u) && CachedNormal(g', u) == CachedNormal(g, u);
      forall x | x in g'.pending ensures HalfOk(g', x) {
        assert HalfOk(g, x);
      }
      forall u | g'.cache.Some? ensures ShownOrComing(g', u) {
        assert ShownOrComing(g, u);
        PendingLess(g, g', i, u);
      }
    }
  }

  lemma StepKeeps(g: Group, a: Action)
    requires Inv(g)
    ensures Inv(Do(g, a))
  {
    match a
    case CreateTx(owner, members) => CreateKeeps(g, owner, members);
    case AddTx(op, mebs) => AddKeeps(g, op, mebs);
    case RemoveTx(op, uids) => RemoveKeeps(g, op, uids);
    case Settle(i, ok) => SettleKeeps(g, i, ok);
    case Drop(i) => DropKeeps(g, i);
    case Load(ok) => LoadKeeps(g, ok);
    case Restart =>
      assert forall u :: RowNormal(Do(g, a), u) == RowNormal(g, u);
  }

  /** With no half pending about u the cache shows what the histories say. */
  lemma SettledIsShown(g: Group, u: Uid)
    requires Inv(g) && g.cache.Some? && !Unsettled(g, u)
    ensures CachedNormal(g, u) <==> Shown(g, u)
  {
    assert ShownOrComing(g, u);
    assert Coming(g, u) ==> exists h :: h in g.pending && Concerns(h, u);
    assert Going(g, u) ==> exists h :: h in g.pending && Concerns(h, u);
  }

  lemma {:induction false} FromKeeps(g: Group, acts: seq<Action>)
    requires Inv(g)
    ensures Inv(From(g, acts))
  {
    if acts != [] {
      FromKeeps(g, acts[..|acts| - 1]);
      StepKeeps(From(g, acts[..|acts| - 1]), acts[|acts| - 1]);
    }
  }

  lemma StartHolds(table: Option<Table>)
    ensures Inv(Start(table))
  {
  }

  lemma {:induction false} RunKeeps(table: Option<Table>, acts: seq<Action>)
    ensures Inv(Run(table, acts))
  {
    StartHolds(table);
    FromKeeps(Start(table), acts);
  }

  // ---- who a message fans out to ------------------------------------------------------

  /** What OnSendMsgInGroup reports; a field the code leaves out is unset. */
  datatype CanSendInfo = CanSendInfo(
    grpState: GrpState,
    notInGroup: bool,
    mebState: MebState,
    forbiddenAt: int,
    forward: set<Uid>)

  function CanSend(info: Info, sender: Uid): CanSendInfo {
    if info.state != GrpNormal then CanSendInfo(info.state, false, MebUnset, 0, {})
    else if sender !in info.mebs then CanSendInfo(GrpUnset, true, MebUnset, 0, {})
    else
      CanSendInfo(info.state, false, info.mebs[sender].state, info.mebs[sender].forbiddenAt,
                  set u | u in info.mebs && u != sender && info.mebs[u].state == MebNormal)
  }

  datatype SendError = GroupForbidden | GroupDismissed | NotInGroup | BeKicked | SenderForbidden

  /** canSendMsgInGroup. */
  function Refusal(i: CanSendInfo, now: int): Option<SendError> {
    if i.grpState != GrpNormal then
      if i.grpState == GrpFrozen then Some(GroupForbidden)
      else if i.grpState == GrpDismissed then Some(GroupDismissed)
      else None
    else if i.notInGroup then Some(NotInGroup)
    else if i.mebState != MebNormal then
      if i.mebState == MebKicked then Some(BeKicked) else None
    else if i.forbiddenAt > now then Some(SenderForbidden)
    else None
  }

  /** Whether a send is refused, and why. A sender who is not in a normal group is
      never refused: the report leaves the group state unset, so the check for
      membership is not reached, and the message goes out to nobody. */
  lemma RefusedExactlyWhen(info: Info, sender: Uid, now: int)
    ensures var refusal := Refusal(CanSend(info, sender), now);
            && (refusal == Some(GroupForbidden) <==> info.state == GrpFrozen)
            && (refusal == Some(GroupDismissed) <==> info.state == GrpDismissed)
            && (refusal == Some(BeKicked) <==>
                  info.state == GrpNormal && sender in info.mebs && info.mebs[sender].state == MebKicked)
            && (refusal == Some(SenderForbidden) <==>
                  && info.state == GrpNormal && sender in info.mebs && info.mebs[sender].state == MebNormal
                  && info.mebs[sender].forbiddenAt > now)
            && refusal != Some(NotInGroup)
            && (info.state == GrpNormal && sender !in info.mebs ==>
                  refusal == None && CanSend(info, sender).forward == {})
  {
  }

  /** Over every run of overlapping handlers: a sender present in a normal group reaches
      of the other members no pending half is about exactly those who are normal in the
      table, unless their addition never reached the cache or a late creation half wiped
      them out, and those removed whose removal never reached it or whom it was told to
      add while they were removed. */
  lemma {:induction false} FansOutTo(table: Option<Table>, acts: seq<Action>, sender: Uid)
    requires var g := Run(table, acts);
             g.cache.Some? && g.cache.value.state == GrpNormal && sender in g.cache.value.mebs
    ensures var g := Run(table, acts);
            var forward := CanSend(g.cache.value, sender).forward;
            && sender !in forward
            && forall u :: !Unsettled(g, u) ==>
                 (u in forward <==> u != sender && ((RowNormal(g, u) && u !in g.wiped) || u in g.back))
  {
    RunKeeps(table, acts);
    var g := Run(table, acts);
    assert forall u :: u in CanSend(g.cache.value, sender).forward <==> u != sender && CachedNormal(g, u);
    forall u | !Unsettled(g, u) ensures CachedNormal(g, u) <==> Shown(g, u) {
      SettledIsShown(g, u);
    }
  }

  /** Between handlers the cache agrees with the table on who is normal exactly when it
      was never told to add a removed member or left untold of a removal, and never left
      untold of an addition or wiped by a late creation half. */
  lemma {:induction false} CacheIsTheTableIff(table: Option<Table>, acts: seq<Action>)
    requires Run(table, acts).pending == [] && Run(table, acts).cache.Some?
    ensures var g := Run(table, acts);
            (forall u :: CachedNormal(g, u) <==> RowNormal(g, u)) <==> g.back == {} && g.wiped == {}
  {
    RunKeeps(table, acts);
    var g := Run(table, acts);
    forall u ensures CachedNormal(g, u) <==> Shown(g, u) {
      SettledIsShown(g, u);
    }
    if u :| u in g.back {
      assert CachedNormal(g, u) && !RowNormal(g, u);
    } else if u :| u in g.wiped {
      assert !CachedNormal(g, u) && RowNormal(g, u);
    }
  }

  // ---- the last change decides, exactly while nothing is lost ----------------------------

  predicate LastIn(g: Group, u: Uid) {
    u in g.last && g.last[u] == In
  }

  /** The cache has u in or out as u's last change says, or a half about u is to come. */
  ghost predicate Follows(g: Group, u: Uid) {
    g.cache.Some? ==> Unsettled(g, u) || (CachedNormal(g, u) <==> LastIn(g, u))
  }

  /** The load this step makes, if any, reads u as removed though added since. */
  ghost predicate LoadsStale(g: Group, ok: bool, u: Uid) {
    g.cache.None? && g.table.Some? && ok && LastIn(g, u) && !RowNormal(g, u)
  }

  /** The half's last word on u is not u's last change: a half overtaken by a later one,
      a creation half after a later change, a half that never comes, or a load of the rows
      behind an added member whose row stayed removed. */
  ghost predicate LosesChange(g: Group, a: Action, u: Uid) {
    match a
    case Load(ok) => LoadsStale(g, ok, u) && !Unsettled(g, u)
    case Settle(i, ok) =>
      i < |g.pending| && !Unsettled(DoSettle(g, i, ok), u) &&
      (match g.pending[i]
       case Created(roles) => ok && (u in roles) != LastIn(g, u)
       case Added(mebs) =>
         (g.cache.Some? || ok) && if u in mebs then !LastIn(g, u) else LoadsStale(g, ok, u)
       case Removed(uids) => g.cache.Some? && u in uids && LastIn(g, u))
    case Drop(i) =>
      && i < |g.pending| && g.cache.Some? && Concerns(g.pending[i], u) && !Unsettled(DoDrop(g, i), u)
      && CachedNormal(g, u) != LastIn(g, u)
    case _ => false
  }

  /** The step sets it right: a new change of u, a half that says what u's last change
      says, or a server stop. */
  ghost predicate RestoresChange(g: Group, a: Action, u: Uid) {
    match a
    case AddTx(op, mebs) => g.table.Some? && MayManage(g.table.value, op) && u in mebs
    case RemoveTx(op, uids) =>
      g.table.Some? && MayManage(g.table.value, op) && u in Removable(g.table.value.rows, uids)
    case Settle(i, ok) =>
      i < |g.pending| &&
      (match g.pending[i]
       case Created(roles) => ok && ((u in roles) == LastIn(g, u))
       case Added(mebs) => u in mebs && LastIn(g, u)
       case Removed(uids) => u in uids && !LastIn(g, u))
    case Restart => true
    case _ => false
  }

  lemma LoadFollows(g: Group, ok: bool, u: Uid)
    requires Inv(g)
    ensures Follows(DoLoad(g, ok), u) <==> Follows(g, u) && !(LoadsStale(g, ok, u) && !Unsettled(g, u))
  {
    LoadKeeps(g, ok);
  }

  lemma SettleFollows(g: Group, i: nat, ok: bool, u: Uid)
    requires Inv(g) && i < |g.pending|
    ensures var a := Settle(i, ok);
            Follows(DoSettle(g, i, ok), u) <==> (Follows(g, u) && !LosesChange(g, a, u)) || RestoresChange(g, a, u)
  {
    var h, g' := g.pending[i], DoSettle(g, i, ok);
    assert h in g.pending && HalfOk(g, h);
    SettledTable(g, h, ok);
    HalfShows(g, h, ok, u);
    PendingLess(g, g', i, u);
    LoadFollows(g, ok, u);
  }

  lemma AddFollows(g: Group, op: Uid, mebs: seq<Uid>, u: Uid)
    requires Inv(g)
    ensures Follows(DoAddTx(g, op, mebs), u) <==> Follows(g, u) || RestoresChange(g, AddTx(op, mebs), u)
  {
    if g.table.Some? && MayManage(g.table.value, op) {
      AddTable(g, op, mebs);
      PendingMore(g, DoAddTx(g, op, mebs), Added(mebs), u);
    }
  }

  lemma RemoveFollows(g: Group, op: Uid, uids: seq<Uid>, u: Uid)
    requires Inv(g)
    ensures Follows(DoRemoveTx(g, op, uids), u) <==> Follows(g, u) || RestoresChange(g, RemoveTx(op, uids), u)
  {
    if g.table.Some? && MayManage(g.table.value, op) {
      RemoveTable(g, op, uids);
      var gone := Removable(g.table.value.rows, uids);
      if gone != {} {
        PendingMore(g, DoRemoveTx(g, op, uids), Removed(gone), u);
      }
    }
  }

  lemma DropFollows(g: Group, i: nat, u: Uid)
    requires i < |g.pending|
    ensures Follows(DoDrop(g, i), u) <==> Follows(g, u) && !LosesChange(g, Drop(i), u)
  {
    PendingLess(g, DoDrop(g, i), i, u);
  }

  /** Exactly when the cache follows u's last change, or is about to, after a step. */
  lemma LastChangeStep(g: Group, a: Action, u: Uid)
    requires Inv(g)
    ensures Follows(Do(g, a), u) <==> (Follows(g, u) && !LosesChange(g, a, u)) || RestoresChange(g, a, u)
  {
    match a
    case CreateTx(_, _) =>
    case AddTx(op, mebs) => AddFollows(g, op, mebs, u);
    case RemoveTx(op, uids) => RemoveFollows(g, op, uids, u);
    case Settle(i, ok) =>
      if i < |g.pending| {
        SettleFollows(g, i, ok, u);
      }
    case Drop(i) =>
      if i < |g.pending| {
        DropFollows(g, i, u);
      }
    case Load(ok) => LoadFollows(g, ok, u);
    case Restart =>
  }

  /** The states a run passes. */
  function Path(table: Option<Table>, acts: seq<Action>): (path: seq<Group>)
    ensures |path| == |acts| + 1 && forall k :: 0 <= k <= |acts| ==> path[k] == Run(table, acts[..k])
  {
    seq(|acts| + 1, k requires 0 <= k <= |acts| => Run(table, acts[..k]))
  }

  lemma PathStep(table: Option<Table>, acts: seq<Action>, k: nat)
    requires k < |acts|
    ensures Inv(Path(table, acts)[k]) && Path(table, acts)[k + 1] == Do(Path(table, acts)[k], acts[k])
  {
    RunKeeps(table, acts[..k]);
    assert acts[..k + 1][..k] == acts[..k];
  }

  ghost predicate ChangesMadeGood(table: Option<Table>, acts: seq<Action>, u: Uid) {
    Renewed(Path(table, acts), acts, (g, a) => LosesChange(g, a, u), (g, a) => RestoresChange(g, a, u))
  }

  lemma {:induction false} FollowsIff(table: Option<Table>, acts: seq<Action>, u: Uid)
    ensures Follows(Run(table, acts), u) <==> ChangesMadeGood(table, acts, u)
  {
    var path := Path(table, acts);
    assert acts[..0] == [] && acts[..|acts|] == acts;
    forall k | 0 <= k < |acts|
      ensures !(LosesChange(path[k], acts[k], u) && RestoresChange(path[k], acts[k], u))
      ensures Follows(path[k + 1], u) <==>
              (Follows(path[k], u) && !LosesChange(path[k], acts[k], u)) || RestoresChange(path[k], acts[k], u)
    {
      PathStep(table, acts, k);
      LastChangeStep(path[k], acts[k], u);
    }
    HoldsIffRenewed(path, acts, g => Follows(g, u), (g, a) => LosesChange(g, a, u), (g, a) => RestoresChange(g, a, u));
  }

  /** Between handlers, after any run: a sender present in a normal group reaches u, or
      not, as u's last change says, if and only if every step that lost a change of u was
      made good by a later one. */
  lemma {:induction false} FanOutIsTheLastChangeIff(table: Option<Table>, acts: seq<Action>, sender: Uid, u: Uid)
    requires var g := Run(table, acts);
             && g.pending == [] && g.cache.Some? && g.cache.value.state == GrpNormal && sender in g.cache.value.mebs
             && u != sender
    ensures var g := Run(table, acts);
            (u in CanSend(g.cache.value, sender).forward <==> u in g.last && g.last[u] == In)
            <==> ChangesMadeGood(table, acts, u)
  {
    FollowsIff(table, acts, u);
    var g := Run(table, acts);
    assert u in CanSend(g.cache.value, sender).forward <==> CachedNormal(g, u);
  }

  // ---- removal ------------------------------------------------------------------------------

  /** Between handlers, a permitted removal takes a member out of the fan-out exactly when
      the table still has it as normal: one who came back cannot be removed again. */
  lemma {:induction false} RemovalWorksIffRowIsNormal(table: Option<Table>, acts: seq<Action>, op: Uid,
                                                      uids: seq<Uid>, u: Uid)
    requires var g := Run(table, acts);
             && g.pending == [] && g.table.Some? && MayManage(g.table.value, op)
             && u in uids && CachedNormal(g, u)
    ensures var g := Run(table, acts);
            CachedNormal(DoSettle(DoRemoveTx(g, op, uids), 0, true), u) <==> u in g.back
    ensures var g := Run(table, acts);
            u in g.back <==> !RowNormal(g, u)
  {
    RunKeeps(table, acts);
    var g := Run(table, acts);
    SettledIsShown(g, u);
    RemovalSettled(g, op, uids, u);
  }

  lemma RemovalSettled(g: Group, op: Uid, uids: seq<Uid>, u: Uid)
    requires g.pending == [] && g.table.Some? && MayManage(g.table.value, op) && u in uids && CachedNormal(g, u)
    ensures CachedNormal(DoSettle(DoRemoveTx(g, op, uids), 0, true), u) <==> !RowNormal(g, u)
  {
    var gone := Removable(g.table.value.rows, uids);
    assert u in gone <==> RowNormal(g, u);
    if gone != {} {
      assert DoRemoveTx(g, op, uids).pending == [Removed(gone)];
    }
  }

  /** u's row is removed, and no creation or removal half is pending that could touch u. */
  ghost predicate Stuck(g: Group, u: Uid) {
    && g.table.Some? && u in g.table.value.rows && !RowNormal(g, u)
    && forall h :: h in g.pending ==> h.Added? || (h.Removed? && u !in h.uids)
  }

  lemma AddStuck(g: Group, op: Uid, mebs: seq<Uid>, u: Uid)
    requires Stuck(g, u)
    ensures Stuck(DoAddTx(g, op, mebs), u)
  {
    AddedRows(g.table.value.rows, mebs);
  }

  lemma StuckStep(g: Group, a: Action, u: Uid)
    requires Stuck(g, u)
    ensures Stuck(Do(g, a), u)
    ensures u in g.back && !a.Restart? ==> u in Do(g, a).back
  {
    match a
    case AddTx(op, mebs) => AddStuck(g, op, mebs, u);
    case Settle(i, ok) =>
      if i < |g.pending| {
        assert g.pending[i] in g.pending;
        PendingLess(g, Do(g, a), i, u);
      }
    case Drop(i) =>
      if i < |g.pending| {
        PendingLess(g, Do(g, a), i, u);
      }
    case _ =>
  }

  /** And so it stays, whatever runs, until the server stops. */
  lemma {:induction false} CameBackUntilAStop(g: Group, acts: seq<Action>, u: Uid)
    requires Inv(g) && g.pending == [] && u in g.back && Restart !in acts
    ensures u in From(g, acts).back && Stuck(From(g, acts), u)
  {
    if acts != [] {
      CameBackUntilAStop(g, acts[..|acts| - 1], u);
      StuckStep(From(g, acts[..|acts| - 1]), acts[|acts| - 1], u);
    }
  }

  /** No pending half would bring u back. */
  ghost predicate Gone(g: Group, u: Uid) {
    Stuck(g, u) && !CachedNormal(g, u) && forall h :: h in g.pending ==> !Concerns(h, u)
  }

  lemma GoneStep(g: Group, a: Action, u: Uid)
    requires Gone(g, u) && (a.AddTx? ==> u !in a.mebs)
    ensures Gone(Do(g, a), u)
  {
    StuckStep(g, a, u);
    match a
    case RemoveTx(op, uids) =>
    case Settle(i, ok) =>
      if i < |g.pending| {
        GoneSettle(g, i, ok, u);
      }
    case Drop(i) =>
      if i < |g.pending| {
        PendingLess(g, Do(g, a), i, u);
      }
    case _ =>
  }

  lemma GoneSettle(g: Group, i: nat, ok: bool, u: Uid)
    requires Gone(g, u) && i < |g.pending|
    ensures !CachedNormal(DoSettle(g, i, ok), u)
    ensures forall h :: h in DoSettle(g, i, ok).pending ==> !Concerns(h, u)
  {
    var h := g.pending[i];
    assert h in g.pending;
    PendingLess(g, DoSettle(g, i, ok), i, u);
    var l := DoLoad(g, ok);
    if h.Added? && l.cache.Some? {
      AddedMebs(l.cache.value.mebs, h.mebs);
    }
  }

  /** A server stop takes the one who came back out of the group: whatever runs after it,
      loads included, u is not normal in the cache until added once more. */
  lemma {:induction false} CameBackLostByAStop(g: Group, acts: seq<Action>, u: Uid)
    requires Inv(g) && u in g.back && forall a :: a in acts ==> a.AddTx? ==> u !in a.mebs
    ensures !CachedNormal(From(Do(g, Restart), acts), u)
    ensures Gone(From(Do(g, Restart), acts), u)
  {
    if acts == [] {
      assert !RowNormal(g, u);
    } else {
      CameBackLostByAStop(g, acts[..|acts| - 1], u);
      GoneStep(From(Do(g, Restart), acts[..|acts| - 1]), acts[|acts| - 1], u);
    }
  }
}
