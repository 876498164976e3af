/** Traces of any transition system: the states passed, one more than the actions. What
    a step property comes to over a whole trace. */
module Traces {

  ghost predicate AllAlong<S>(path: seq<S>, holds: S -> bool) {
    forall k :: 0 <= k < |path| ==> holds(path[k])
  }

  ghost predicate Never<S, A>(path: seq<S>, acts: seq<A>, p: (S, A) -> bool)
    requires |path| == |acts| + 1
  {
    forall k :: 0 <= k < |acts| ==> !p(path[k], acts[k])
  }

  /** What exactly the steps in p end holds all along if and only if there are none. */
  lemma {:induction false} AllAlongIffNever<S, A>(path: seq<S>, acts: seq<A>, holds: S -> bool, p: (S, A) -> bool)
    requires |path| == |acts| + 1 && holds(path[0])
    requires forall k :: 0 <= k < |acts| && holds(path[k]) ==> (holds(path[k + 1]) <==> !p(path[k], acts[k]))
    ensures AllAlong(path, holds) <==> Never(path, acts, p)
  {
    if acts != [] {
      var n := |acts| - 1;
      var before := path[..n + 1];
      AllAlongIffNever(before, acts[..n], holds, p);
      assert AllAlong(path, holds) <==> AllAlong(before, holds) && holds(path[n + 1]) by {
        assert forall k :: 0 <= k <= n ==> before[k] == path[k];
      }
      assert Never(path, acts, p) <==> Never(before, acts[..n], p) && !p(path[n], acts[n]) by {
        assert forall k :: 0 <= k < n ==> before[k] == path[k] && acts[..n][k] == acts[k];
      }
      assert AllAlong(before, holds) ==> holds(before[n]);
    }
  }

  /** Every step that loses is followed by a step that restores. */
  ghost predicate Renewed<S, A>(path: seq<S>, acts: seq<A>, loses: (S, A) -> bool, restores: (S, A) -> bool)
    requires |path| == |acts| + 1
  {
    forall k :: 0 <= k < |acts| && loses(path[k], acts[k]) ==>
      exists j :: k < j < |acts| && restores(path[j], acts[j])
  }

  lemma RenewedSnoc<S, A>(path: seq<S>, acts: seq<A>, loses: (S, A) -> bool, restores: (S, A) -> bool)
    requires |path| == |acts| + 1 && acts != []
    requires var n := |acts| - 1; !(loses(path[n], acts[n]) && restores(path[n], acts[n]))
    ensures var n := |acts| - 1;
            Renewed(path, acts, loses, restores) <==>
            || (Renewed(path[..n + 1], acts[..n], loses, restores) && !loses(path[n], acts[n]))
            || restores(path[n], acts[n])
  {
    var n := |acts| - 1;
    var before, init := path[..n + 1], acts[..n];
    assert forall k :: 0 <= k < n ==> before[k] == path[k] && init[k] == acts[k];
    if Renewed(path, acts, loses, restores) && !restores(path[n], acts[n]) {
      forall k | 0 <= k < n && loses(before[k], init[k])
        ensures exists j :: k < j < n && restores(before[j], init[j])
      {
        var j :| k < j < |acts| && restores(path[j], acts[j]);
        assert restores(before[j], init[j]);
      }
    }
    if Renewed(before, init, loses, restores) && !loses(path[n], acts[n]) {
      forall k | 0 <= k < |acts| && loses(path[k], acts[k])
        ensures exists j :: k < j < |acts| && restores(path[j], acts[j])
      {
        var j :| k < j < n && restores(before[j], init[j]);
        assert restores(path[j], acts[j]);
      }
    }
  }

  /** What loses ends and restores brings back holds in the end if and only if every
      loss was made good. */
  lemma {:induction false} HoldsIffRenewed<S, A>(path: seq<S>, acts: seq<A>, holds: S -> bool,
                                                 loses: (S, A) -> bool, restores: (S, A) -> bool)
    requires |path| == |acts| + 1 && holds(path[0])
    requires forall k :: 0 <= k < |acts| ==> !(loses(path[k], acts[k]) && restores(path[k], acts[k]))
    requires forall k :: 0 <= k < |acts| ==>
               (holds(path[k + 1]) <==> (holds(path[k]) && !loses(path[k], acts[k])) || restores(path[k], acts[k]))
    ensures holds(path[|acts|]) <==> Renewed(path, acts, loses, restores)
  {
    if acts != [] {
      var n := |acts| - 1;
      var before, init := path[..n + 1], acts[..n];
      assert forall k :: 0 <= k <= n ==> before[k] == path[k];
      assert forall k :: 0 <= k < n ==> init[k] == acts[k];
      HoldsIffRenewed(before, init, holds, loses, restores);
      RenewedSnoc(path, acts, loses, restores);
    }
  }

  /** Some step restores and none after it loses. */
  ghost predicate RestoredLast<S, A>(path: seq<S>, acts: seq<A>, loses: (S, A) -> bool, restores: (S, A) -> bool)
    requires |path| == |acts| + 1
  {
    exists k :: 0 <= k < |acts| && restores(path[k], acts[k]) && NoneAfter(path, acts, k, loses)
  }

  ghost predicate NoneAfter<S, A>(path: seq<S>, acts: seq<A>, k: nat, loses: (S, A) -> bool)
    requires |path| == |acts| + 1
  {
    forall j :: k < j < |acts| ==> !loses(path[j], acts[j])
  }

  lemma RestoredSnoc<S, A>(path: seq<S>, acts: seq<A>, loses: (S, A) -> bool, restores: (S, A) -> bool)
    requires |path| == |acts| + 1 && acts != []
    ensures var n := |acts| - 1;
            RestoredLast(path, acts, loses, restores) <==>
            || (RestoredLast(path[..n + 1], acts[..n], loses, restores) && !loses(path[n], acts[n]))
            || restores(path[n], acts[n])
  {
    var n := |acts| - 1;
    var before, init := path[..n + 1], acts[..n];
    assert forall k :: 0 <= k < n ==> before[k] == path[k] && init[k] == acts[k];
    if RestoredLast(path, acts, loses, restores) && !restores(path[n], acts[n]) {
      var k :| 0 <= k < |acts| && restores(path[k], acts[k]) && NoneAfter(path, acts, k, loses);
      assert restores(before[k], init[k]) && NoneAfter(before, init, k, loses);
    }
    if RestoredLast(before, init, loses, restores) && !loses(path[n], acts[n]) {
      var k :| 0 <= k < n && restores(before[k], init[k]) && NoneAfter(before, init, k, loses);
      assert restores(path[k], acts[k]) && NoneAfter(path, acts, k, loses);
    }
    if restores(path[n], acts[n]) {
      assert NoneAfter(path, acts, n, loses);
    }
  }

  /** What restores brings and loses ends holds in the end, from where it does not, if and
      only if the last step that mattered restored it. */
  lemma {:induction false} HoldsIffRestoredLast<S, A>(path: seq<S>, acts: seq<A>, holds: S -> bool,
                                                      loses: (S, A) -> bool, restores: (S, A) -> bool)
    requires |path| == |acts| + 1 && !holds(path[0])
    requires forall k :: 0 <= k < |acts| ==>
               (holds(path[k + 1]) <==> (holds(path[k]) && !loses(path[k], acts[k])) || restores(path[k], acts[k]))
    ensures holds(path[|acts|]) <==> RestoredLast(path, acts, loses, restores)
  {
    if acts != [] {
      var n := |acts| - 1;
      var before, init := path[..n + 1], acts[..n];
      assert forall k :: 0 <= k <= n ==> before[k] == path[k];
      assert forall k :: 0 <= k < n ==> init[k] == acts[k];
      HoldsIffRestoredLast(before, init, holds, loses, restores);
      RestoredSnoc(path, acts, loses, restores);
    }
  }
}
