/** Small shared vocabulary: optional values, clamping, and order-preserving
    sequence operations with the lemmas the other modules need. */
module Basics {

  datatype Option<+T> = None | Some(value: T)

  function Max(a: int, b: int): int {
    if a < b then b else a
  }

  /** The clamp applied to every unread difference. */
  function Clamp(n: int): int {
    if n < 0 then 0 else n
  }

  ghost predicate NoDup<T>(s: seq<T>) {
    forall i, j :: 0 <= i < j < |s| ==> s[i] != s[j]
  }

  /** Drops the first occurrence of x, keeping the order of the rest. */
  function RemoveFirst<T(==)>(s: seq<T>, x: T): seq<T> {
    if s == [] then []
    else if s[0] == x then s[1..]
    else [s[0]] + RemoveFirst(s[1..], x)
  }

  /** Keeps the elements that lie in keep, in order. */
  function Filter<T(==)>(s: seq<T>, keep: set<T>): seq<T> {
    if s == [] then []
    else Filter(s[..|s| - 1], keep) + if s[|s| - 1] in keep then [s[|s| - 1]] else []
  }

  /** The last n elements, or all of them when there are fewer. */
  function LastN<T>(s: seq<T>, n: nat): seq<T> {
    if |s| <= n then s else s[|s| - n..]
  }

  lemma {:induction false} FilterElements<T>(s: seq<T>, keep: set<T>)
    ensures forall x :: x in Filter(s, keep) <==> x in s && x in keep
  {
    if s != [] {
      FilterElements(s[..|s| - 1], keep);
      assert s == s[..|s| - 1] + [s[|s| - 1]];
    }
  }

  lemma {:induction false} FilterNoDup<T>(s: seq<T>, keep: set<T>)
    requires NoDup(s)
    ensures NoDup(Filter(s, keep))
  {
    if s != [] {
      FilterNoDup(s[..|s| - 1], keep);
      FilterElements(s[..|s| - 1], keep);
    }
  }

  lemma {:induction false} FilterSameOn<T>(s: seq<T>, a: set<T>, b: set<T>)
    requires forall x :: x in s ==> (x in a <==> x in b)
    ensures Filter(s, a) == Filter(s, b)
  {
    if s != [] {
      FilterSameOn(s[..|s| - 1], a, b);
    }
  }

  lemma {:induction false} FilterNone<T>(s: seq<T>, keep: set<T>)
    requires forall x :: x in s ==> x !in keep
    ensures Filter(s, keep) == []
  {
    if s != [] {
      FilterNone(s[..|s| - 1], keep);
    }
  }

  lemma {:induction false} FilterTwice<T>(s: seq<T>, a: set<T>, b: set<T>)
    ensures Filter(Filter(s, a), b) == Filter(s, a * b)
  {
    if s != [] {
      var init, last := s[..|s| - 1], s[|s| - 1];
      FilterTwice(init, a, b);
      if last in a {
        FilterSnoc(Filter(init, a), last, b);
      } else {
        assert Filter(s, a) == Filter(init, a);
      }
    }
  }

  lemma FilterSnoc<T>(s: seq<T>, x: T, keep: set<T>)
    ensures Filter(s + [x], keep) == Filter(s, keep) + if x in keep then [x] else []
  {
    assert (s + [x])[..|s|] == s;
  }

  lemma {:induction false} RemoveFirstSnoc<T>(s: seq<T>, x: T, y: T)
    ensures RemoveFirst(s + [y], x)
         == if x in s then RemoveFirst(s, x) + [y] else if x == y then s else s + [y]
  {
    if s == [] {
      assert s + [y] == [y];
      assert [y][1..] == [];
    } else if s[0] == x {
      assert (s + [y])[1..] == s[1..] + [y];
    } else {
      assert (s + [y])[1..] == s[1..] + [y];
      RemoveFirstSnoc(s[1..], x, y);
      assert s == [s[0]] + s[1..];
    }
  }

  lemma {:induction false} RemoveFirstAbsent<T>(s: seq<T>, x: T)
    requires x !in s
    ensures RemoveFirst(s, x) == s
  {
    if s != [] {
      RemoveFirstAbsent(s[1..], x);
    }
  }

  /** On a duplicate-free sequence, dropping x from a filtered copy is the same
      as filtering with x taken out of the set. */
  lemma {:induction false} RemoveFirstFilter<T>(s: seq<T>, keep: set<T>, x: T)
    requires NoDup(s)
    ensures RemoveFirst(Filter(s, keep), x) == Filter(s, keep - {x})
  {
    if s != [] {
      var init, last := s[..|s| - 1], s[|s| - 1];
      RemoveFirstFilter(init, keep, x);
      FilterElements(init, keep);
      if last in keep {
        RemoveFirstSnoc(Filter(init, keep), x, last);
        if x == last {
          RemoveFirstAbsent(Filter(init, keep), x);
        } else if x !in Filter(init, keep) {
          RemoveFirstAbsent(Filter(init, keep), x);
        }
      } else {
        assert Filter(s, keep) == Filter(init, keep);
        assert Filter(s, keep - {x}) == Filter(init, keep - {x});
      }
    }
  }
}
