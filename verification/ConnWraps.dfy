/** All connections of one user under every interleaving of authentications and close
    events, with the user's wrap as an object that a close event fetches before its lock
    section and works on inside it. A wrap that runs empty is deleted under the user's
    name, whichever wrap is there by then. */
module ConnWraps {
  import opened Basics
  import opened Traces
  import opened ConnRegistry

  datatype Conns = Conns(
    objects: seq<Wrap>,            // every wrap made for the user, in order
    current: Option<nat>,          // the one found under the user's name
    used: set<ConnId>,
    registered: set<ConnId>,       // in the connection table
    filing: map<ConnId, Level>,    // past a won exchange, before the lock section
    filed: map<ConnId, Level>,     // past it
    evicted: set<ConnId>,
    cleaning: set<ConnId>,         // closed, before looking for the user and its wrap
    leaving: map<ConnId, nat>,     // holding the wrap found, before the lock section
    gone: set<ConnId>)             // filed, and closed through

  datatype Action =
    | Opens(id: ConnId)
    | Wins(id: ConnId, level: Level)
    | Files(id: ConnId)
    | CloseTakes(id: ConnId)
    | CloseReads(id: ConnId)
    | CloseLeaves(id: ConnId)

  const NOBODY := Conns([], None, {}, {}, map[], map[], {}, {}, map[], {})

  predicate Enabled(s: Conns, a: Action) {
    match a
    case Opens(id) => id !in s.used
    case Wins(id, _) => id in s.used && id !in s.filing && id !in s.filed   // the exchange is won once
    case Files(id) => id in s.filing
    case CloseTakes(id) => id in s.registered
    case CloseReads(id) => id in s.cleaning
    case CloseLeaves(id) => id in s.leaving && s.leaving[id] < |s.objects| && id in s.filed
  }

  function DoFile(cfg: Config, s: Conns, id: ConnId): Conns
    requires id in s.filing
  {
    var level := s.filing[id];
    var f := s.(filing := s.filing - {id}, filed := s.filed[id := level]);
    if s.current.None? || s.current.value >= |s.objects| then
      f.(objects := s.objects + [NewWrap(id, level)], current := Some(|s.objects|))
    else
      var (w, items) := Join(cfg, s.objects[s.current.value], id, level);
      f.(objects := s.objects[s.current.value := w], evicted := s.evicted + ItemIds(items))
  }

  /** The wrap a close event leaves behind. */
  function Left(s: Conns, id: ConnId): Wrap
    requires Enabled(s, CloseLeaves(id))
  {
    LeaveWrap(s.objects[s.leaving[id]], id, s.filed[id])
  }

  function DoLeave(s: Conns, id: ConnId): Conns
    requires Enabled(s, CloseLeaves(id))
  {
    var w := Left(s, id);
    s.(objects := s.objects[s.leaving[id] := w], leaving := s.leaving - {id}, gone := s.gone + {id},
       current := if w.conns == [] then None else s.current)
  }

  function Step(cfg: Config, s: Conns, a: Action): Conns
    requires Enabled(s, a)
  {
    match a
    case Opens(id) => s.(used := s.used + {id}, registered := s.registered + {id})
    case Wins(id, level) => s.(filing := s.filing[id := level])
    case Files(id) => DoFile(cfg, s, id)
    case CloseTakes(id) => s.(registered := s.registered - {id}, cleaning := s.cleaning + {id})
    case CloseReads(id) =>
      var c := s.(cleaning := s.cleaning - {id});
      if id !in s.filed then c                                       // not bound yet: nothing to leave
      else if s.current.None? then c.(gone := s.gone + {id})
      else c.(leaving := s.leaving[id := s.current.value])
    case CloseLeaves(id) => DoLeave(s, id)
  }

  function Do(cfg: Config, s: Conns, a: Action): Conns {
    if Enabled(s, a) then Step(cfg, s, a) else s
  }

  function Run(cfg: Config, acts: seq<Action>): Conns {
    if acts == [] then NOBODY else Do(cfg, Run(cfg, acts[..|acts| - 1]), acts[|acts| - 1])
  }

  // ---- the invariant ---------------------------------------------------------------

  /** x is listed by wrap i, and its close, if one is under way, holds that wrap. */
  ghost predicate MemberOk(s: Conns, x: ConnId, i: nat) {
    x in s.filed && x !in s.evicted && x !in s.gone && (x in s.leaving ==> s.leaving[x] == i)
  }

  ghost predicate CurrentOk(s: Conns) {
    s.current.Some? ==>
      var i := s.current.value;
      && i == |s.objects| - 1 && s.objects[i].conns != [] && NoDup(s.objects[i].conns)
      && (forall x :: x in s.objects[i].conns ==> MemberOk(s, x, i))
      && (forall x :: x in s.objects[i].master + s.objects[i].slave ==> x in s.filed)
  }

  ghost predicate HistoryOk(s: Conns) {
    && (forall x :: x in s.filing ==> x in s.used && x !in s.filed)
    && (forall x :: x in s.filed ==> x in s.used)
    && (forall x :: x in s.evicted || x in s.gone || x in s.leaving ==> x in s.filed)
    && (forall x :: x in s.registered || x in s.cleaning ==> x in s.used && x !in s.gone && x !in s.leaving)
    && s.registered !! s.cleaning
    && (forall x :: x in s.leaving ==> s.leaving[x] < |s.objects| && x !in s.gone)
  }

  ghost predicate Inv(s: Conns) {
    CurrentOk(s) && HistoryOk(s)
  }

  /** Taking x out of a list without repeats takes out x and nothing else. */
  lemma {:induction false} Without<T>(s: seq<T>, x: T)
    requires NoDup(s)
    ensures NoDup(RemoveFirst(s, x)) && forall y :: y in RemoveFirst(s, x) <==> y in s && y != x
    ensures |RemoveFirst(s, x)| == if x in s then |s| - 1 else |s|
  {
    if s != [] {
      assert s == [s[0]] + s[1..];
      var rest := RemoveFirst(s[1..], x);
      Without(s[1..], x);
      assert s[0] !in s[1..];
      if s[0] != x {
        assert RemoveFirst(s, x) == [s[0]] + rest;
        assert forall i, j :: 0 <= i < j < |rest| ==> rest[i] != rest[j];
      }
    }
  }

  /** What joining does to the list: the new connection comes last, and whoever is pushed
      out, at most one, is in it no more. */
  lemma JoinList(cfg: Config, w: Wrap, id: ConnId, level: Level)
    requires w.conns != [] && NoDup(w.conns) && id !in w.conns
    ensures var (w', items) := Join(cfg, w, id, level);
            && w'.conns != [] && NoDup(w'.conns)
            && (forall x :: x in w'.conns <==> x in w.conns + [id] && x !in ItemIds(items))
            && (forall x :: x in ItemIds(items) + (set y | y in w'.master + w'.slave) ==>
                  x in w.master + w.slave + [id])
  {
    var conns := w.conns + [id];
    assert NoDup(conns);
    if level == Master {
      if w.master != [] {
        Without(conns, w.master[0]);
      }
    } else {
      var slave := w.slave + [id];
      if |slave| > cfg.maxSlaveConns {
        Without(conns, slave[0]);
        assert forall x :: x in slave[1..] ==> x in slave;
        assert slave[0] in slave;
      }
    }
  }

  lemma NewWrapFiles(cfg: Config, s: Conns, id: ConnId)
    requires Inv(s) && id in s.filing && s.current.None?
    ensures Inv(DoFile(cfg, s, id))
  {
  }

  lemma JoinFiles(cfg: Config, s: Conns, id: ConnId)
    requires Inv(s) && id in s.filing && s.current.Some?
    ensures Inv(DoFile(cfg, s, id))
  {
    var i := s.current.value;
    assert id !in s.objects[i].conns by {
      assert id in s.objects[i].conns ==> MemberOk(s, id, i);
    }
    JoinList(cfg, s.objects[i], id, s.filing[id]);
    var s' := DoFile(cfg, s, id);
    assert s'.evicted == s.evicted + ItemIds(Join(cfg, s.objects[i], id, s.filing[id]).1);
    forall x | x in s'.objects[i].conns ensures MemberOk(s', x, i) {
      assert x != id ==> MemberOk(s, x, i);
    }
  }

  lemma LeaveKeeps(cfg: Config, s: Conns, id: ConnId)
    requires Inv(s) && Enabled(s, CloseLeaves(id))
    ensures Inv(DoLeave(s, id))
  {
    var s', j := DoLeave(s, id), s.leaving[id];
    if s'.current.Some? {
      var i := s.current.value;
      if i == j {
        Without(s.objects[i].conns, id);
        WithinWithout(s.objects[i].slave, id);
      }
      forall x | x in s'.objects[i].conns ensures MemberOk(s', x, i) {
        assert MemberOk(s, x, i);
        assert i != j ==> x != id;
      }
    }
  }

  lemma {:induction false} WithinWithout<T>(s: seq<T>, x: T)
    ensures forall y :: y in RemoveFirst(s, x) ==> y in s
  {
    if s != [] {
      WithinWithout(s[1..], x);
    }
  }

  lemma StepKeeps(cfg: Config, s: Conns, a: Action)
    requires Inv(s) && Enabled(s, a)
    ensures Inv(Step(cfg, s, a))
  {
    match a
    case Files(id) =>
      if s.current.None? {
        NewWrapFiles(cfg, s, id);
      } else {
        JoinFiles(cfg, s, id);
      }
    case CloseLeaves(id) => LeaveKeeps(cfg, s, id);
    case CloseReads(id) => ReadKeeps(cfg, s, id);
    case _ => QuietKeeps(cfg, s, a);
  }

  lemma ReadKeeps(cfg: Config, s: Conns, id: ConnId)
    requires Inv(s) && id in s.cleaning
    ensures Inv(Step(cfg, s, CloseReads(id)))
  {
    var s' := Step(cfg, s, CloseReads(id));
    if s'.current.Some? {
      var i := s.current.value;
      forall x | x in s'.objects[i].conns ensures MemberOk(s', x, i) {
        assert MemberOk(s, x, i);
      }
    }
  }

  lemma QuietKeeps(cfg: Config, s: Conns, a: Action)
    requires Inv(s) && Enabled(s, a) && (a.Opens? || a.Wins? || a.CloseTakes?)
    ensures Inv(Step(cfg, s, a))
  {
    var s' := Step(cfg, s, a);
    if s'.current.Some? {
      var i := s.current.value;
      forall x | x in s'.objects[i].conns ensures MemberOk(s', x, i) {
        assert MemberOk(s, x, i);
      }
    }
  }

  lemma {:induction false} RunKeeps(cfg: Config, acts: seq<Action>)
    ensures Inv(Run(cfg, acts))
  {
    if acts != [] {
      RunKeeps(cfg, acts[..|acts| - 1]);
      if Enabled(Run(cfg, acts[..|acts| - 1]), acts[|acts| - 1]) {
        StepKeeps(cfg, Run(cfg, acts[..|acts| - 1]), acts[|acts| - 1]);
      }
    }
  }

  // ---- who is listed ---------------------------------------------------------------------

  /** x was filed, not pushed out, and its close is not through. */
  predicate Live(s: Conns, x: ConnId) {
    x in s.filed && x !in s.evicted && x !in s.gone
  }

  /** The wrap found under the user's name lists x, and is the one x's close holds. */
  predicate Listed(s: Conns, x: ConnId) {
    && s.current.Some? && s.current.value < |s.objects| && x in s.objects[s.current.value].conns
    && (x in s.leaving ==> s.leaving[x] == s.current.value)
  }

  ghost predicate AllListed(s: Conns) {
    forall x :: Live(s, x) ==> Listed(s, x)
  }

  /** A close runs its wrap empty while another wrap is under the user's name. */
  predicate DeletesAnother(s: Conns, a: Action) {
    && a.CloseLeaves? && Enabled(s, a) && Left(s, a.id).conns == []
    && s.current.Some? && s.current.value != s.leaving[a.id]
  }

  /** Only the late close of an evicted connection can do that. */
  lemma OnlyEvictedDeleteAnother(s: Conns, a: Action)
    requires Inv(s) && AllListed(s) && DeletesAnother(s, a)
    ensures a.id in s.evicted
  {
    assert Live(s, a.id) ==> Listed(s, a.id);
  }

  lemma FileLists(cfg: Config, s: Conns, id: ConnId)
    requires Inv(s) && id in s.filing && AllListed(s)
    ensures AllListed(DoFile(cfg, s, id))
  {
    var s' := DoFile(cfg, s, id);
    if s.current.Some? {
      var i := s.current.value;
      assert id in s.objects[i].conns ==> MemberOk(s, id, i);
      JoinList(cfg, s.objects[i], id, s.filing[id]);
      assert s'.evicted == s.evicted + ItemIds(Join(cfg, s.objects[i], id, s.filing[id]).1);
    }
    forall x | Live(s', x) ensures Listed(s', x) {
      assert x != id ==> Live(s, x);
    }
  }

  lemma LeaveLists(cfg: Config, s: Conns, id: ConnId)
    requires Inv(s) && Enabled(s, CloseLeaves(id)) && AllListed(s)
    ensures AllListed(DoLeave(s, id)) <==> !DeletesAnother(s, CloseLeaves(id))
  {
    var s', j := DoLeave(s, id), s.leaving[id];
    if DeletesAnother(s, CloseLeaves(id)) {
      var x := s.objects[s.current.value].conns[0];
      assert MemberOk(s, x, s.current.value);
      assert Live(s', x);
    } else {
      if s.current == Some(j) {
        Without(s.objects[j].conns, id);
      }
      forall x | Live(s', x) ensures Listed(s', x) {
        assert Live(s, x) && x != id;
      }
    }
  }

  lemma QuietLists(cfg: Config, s: Conns, a: Action)
    requires Inv(s) && Enabled(s, a) && !a.Files? && !a.CloseLeaves? && AllListed(s)
    ensures AllListed(Step(cfg, s, a))
  {
    var s' := Step(cfg, s, a);
    forall x | Live(s', x) ensures Listed(s', x) {
      assert Live(s, x);
    }
  }

  /** From a state in which every live connection is listed, a step keeps it so if and
      only if it is no close that runs an outdated wrap empty while there is a new one. */
  lemma ListedStep(cfg: Config, s: Conns, a: Action)
    requires Inv(s) && Enabled(s, a) && AllListed(s)
    ensures AllListed(Step(cfg, s, a)) <==> !DeletesAnother(s, a)
  {
    match a
    case Files(id) => FileLists(cfg, s, id);
    case CloseLeaves(id) => LeaveLists(cfg, s, id);
    case _ => QuietLists(cfg, s, a);
  }

  function Path(cfg: Config, acts: seq<Action>): (path: seq<Conns>)
    ensures |path| == |acts| + 1 && forall k :: 0 <= k <= |acts| ==> path[k] == Run(cfg, acts[..k])
  {
    seq(|acts| + 1, k requires 0 <= k <= |acts| => Run(cfg, acts[..k]))
  }

  lemma PathStep(cfg: Config, acts: seq<Action>, k: nat)
    requires k < |acts|
    ensures Inv(Path(cfg, acts)[k]) && Path(cfg, acts)[k + 1] == Do(cfg, Path(cfg, acts)[k], acts[k])
  {
    RunKeeps(cfg, acts[..k]);
    assert acts[..k + 1][..k] == acts[..k];
  }

  ghost predicate ListedAllAlong(cfg: Config, acts: seq<Action>) {
    AllAlong(Path(cfg, acts), s => AllListed(s))
  }

  ghost predicate NoneDeletesAnother(cfg: Config, acts: seq<Action>) {
    Never(Path(cfg, acts), acts, (s, a) => DeletesAnother(s, a))
  }

  /** Over every interleaving: each connection that was filed, not pushed out and not
      closed through is listed at every point if and only if no close runs an outdated
      wrap empty while there is a new one. */
  lemma {:induction false} ListedUnlessAnotherIsDeleted(cfg: Config, acts: seq<Action>)
    ensures ListedAllAlong(cfg, acts) <==> NoneDeletesAnother(cfg, acts)
  {
    var path := Path(cfg, acts);
    assert acts[..0] == [] && AllListed(NOBODY);
    forall k | 0 <= k < |acts| && AllListed(path[k])
      ensures AllListed(path[k + 1]) <==> !DeletesAnother(path[k], acts[k])
    {
      PathStep(cfg, acts, k);
      if Enabled(path[k], acts[k]) {
        ListedStep(cfg, path[k], acts[k]);
      }
    }
    AllAlongIffNever(path, acts, s => AllListed(s), (s, a) => DeletesAnother(s, a));
  }

  // ---- a run in which one does ---------------------------------------------------------------

  lemma RunNext(cfg: Config, acts: seq<Action>, a: Action) returns (longer: seq<Action>)
    ensures longer == acts + [a] && Run(cfg, longer) == Do(cfg, Run(cfg, acts), a)
  {
    longer := acts + [a];
    assert longer[..|acts|] == acts;
  }

  /** A master opens, wins its exchange and is filed. */
  function Arrives(cfg: Config, s: Conns, id: ConnId): Conns {
    Do(cfg, Do(cfg, Do(cfg, s, Opens(id)), Wins(id, Master)), Files(id))
  }

  lemma RunArrives(cfg: Config, acts: seq<Action>, id: ConnId) returns (longer: seq<Action>)
    ensures Run(cfg, longer) == Arrives(cfg, Run(cfg, acts), id)
  {
    longer := RunNext(cfg, acts, Opens(id));
    longer := RunNext(cfg, longer, Wins(id, Master));
    longer := RunNext(cfg, longer, Files(id));
  }

  /** It closes, up to its lock section. */
  function Closing(cfg: Config, s: Conns, id: ConnId): Conns {
    Do(cfg, Do(cfg, s, CloseTakes(id)), CloseReads(id))
  }

  lemma RunClosing(cfg: Config, acts: seq<Action>, id: ConnId) returns (longer: seq<Action>)
    ensures Run(cfg, longer) == Closing(cfg, Run(cfg, acts), id)
  {
    longer := RunNext(cfg, acts, CloseTakes(id));
    longer := RunNext(cfg, longer, CloseReads(id));
  }

  /** a's close holds the first wrap, from which b has pushed a out. */
  ghost predicate Replaced(s: Conns, a: ConnId, b: ConnId) {
    && s.objects == [Wrap([b], [b], [])] && s.current == Some(0) && s.used == {a, b}
    && a in s.filed && s.filed[a] == Master && b in s.filed && s.filed[b] == Master && b in s.registered
    && s.leaving == map[a := 0] && s.filing == map[] && s.evicted == {a} && s.gone == {} && s.cleaning == {}
    && s.filed.Keys == {a, b}
  }

  lemma FirstHeld(cfg: Config, a: ConnId) returns (s: Conns)
    ensures s == Closing(cfg, Arrives(cfg, NOBODY, a), a)
    ensures s.objects == [Wrap([a], [a], [])] && s.current == Some(0) && s.used == {a} && s.filed == map[a := Master]
    ensures s.leaving == map[a := 0] && s.filing == map[] && s.evicted == {} && s.gone == {} && s.cleaning == {}
    ensures s.registered == {}
  {
    var s1 := Arrives(cfg, NOBODY, a);
    assert s1.filing == map[] && s1.registered == {a};
    s := Closing(cfg, s1, a);
  }

  lemma Replace(cfg: Config, s: Conns, a: ConnId, b: ConnId) returns (r: Conns)
    requires a != b && s.objects == [Wrap([a], [a], [])] && s.current == Some(0) && s.used == {a}
    requires s.filed == map[a := Master] && s.registered == {} && s.cleaning == {}
    requires s.leaving == map[a := 0] && s.filing == map[] && s.evicted == {} && s.gone == {}
    ensures r == Arrives(cfg, s, b) && Replaced(r, a, b)
  {
    assert RemoveFirst([a, b], a) == [b] by {
      assert [a, b][1..] == [b];
    }
    assert [a] + [b] == [a, b];
    r := Arrives(cfg, s, b);
    assert r.filing == map[];
    assert ItemIds([HandleItem(a, false)]) == {a};
  }

  /** b's close runs the first wrap empty, and c gets a new one. */
  ghost predicate NewWrapOf(s: Conns, a: ConnId, c: ConnId) {
    && |s.objects| == 2 && s.objects[0].conns == [] && s.objects[1] == NewWrap(c, Master) && s.current == Some(1)
    && a in s.leaving && s.leaving[a] == 0 && a in s.filed && Live(s, c) && c in s.registered
  }

  lemma Renew(cfg: Config, s: Conns, a: ConnId, b: ConnId, c: ConnId) returns (r: Conns)
    requires a != b && c !in {a, b} && Replaced(s, a, b)
    ensures r == Arrives(cfg, Do(cfg, Closing(cfg, s, b), CloseLeaves(b)), c) && NewWrapOf(r, a, c)
  {
    var s1 := Closing(cfg, s, b);
    assert s1.leaving == map[a := 0, b := 0];
    var s2 := Do(cfg, s1, CloseLeaves(b));
    assert RemoveFirst([b], b) == [];
    assert s2.current.None? && s2.objects[0].conns == [];
    r := Arrives(cfg, s2, c);
  }

  lemma DeleteNew(cfg: Config, s: Conns, a: ConnId, c: ConnId) returns (r: Conns)
    requires NewWrapOf(s, a, c)
    ensures r == Do(cfg, s, CloseLeaves(a)) && DeletesAnother(s, CloseLeaves(a))
    ensures r.current.None? && c in r.registered && (a != c ==> Live(r, c)) && !Listed(r, c)
  {
    r := Do(cfg, s, CloseLeaves(a));
  }

  /** Three masters of one user: a's close fetches the wrap, b replaces a and closes, c
      comes and gets a new wrap, and then a's close deletes it. c is authenticated and
      registered, and the user has no wrap. */
  lemma LateCloseDeletesANewWrap(cfg: Config, a: ConnId, b: ConnId, c: ConnId) returns (acts: seq<Action>)
    requires a != b && c !in {a, b}
    ensures var s := Run(cfg, acts); s.current.None? && c in s.registered && Live(s, c) && !Listed(s, c)
  {
    var s1 := FirstHeld(cfg, a);
    var s2 := Replace(cfg, s1, a, b);
    var s3 := Renew(cfg, s2, a, b, c);
    var s4 := DeleteNew(cfg, s3, a, c);
    acts := RunArrives(cfg, [], a);
    acts := RunClosing(cfg, acts, a);
    acts := RunArrives(cfg, acts, b);
    acts := RunClosing(cfg, acts, b);
    acts := RunNext(cfg, acts, CloseLeaves(b));
    acts := RunArrives(cfg, acts, c);
    acts := RunNext(cfg, acts, CloseLeaves(a));
  }
}
