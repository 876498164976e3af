/** Conversation ids: "p2p:" and the two users in string order, or "grp:" and the
    group number. */
module ConvIds {
  import opened ConvValues

  /** Go's string order. */
  predicate Leq(a: string, b: string) {
    a == "" || (b != "" && (a[0] < b[0] || (a[0] == b[0] && Leq(a[1..], b[1..]))))
  }

  lemma {:induction false} LeqIsTotalOrder(a: string, b: string)
    ensures Leq(a, b) || Leq(b, a)
    ensures Leq(a, b) && Leq(b, a) ==> a == b
  {
    if a != "" && b != "" && a[0] == b[0] {
      LeqIsTotalOrder(a[1..], b[1..]);
      assert a == [a[0]] + a[1..] && b == [b[0]] + b[1..];
    }
  }

  /** a is a beginning of b, or smaller where they first differ. */
  ghost predicate Before(a: string, b: string) {
    a <= b || exists k :: 0 <= k < |a| && k < |b| && a[..k] == b[..k] && a[k] < b[k]
  }

  lemma {:induction false} LeqIsLexicographic(a: string, b: string)
    ensures Leq(a, b) <==> Before(a, b)
  {
    if a != "" && b != "" {
      if a[0] == b[0] {
        LeqIsLexicographic(a[1..], b[1..]);
        BeforeTail(a, b);
      } else {
        assert a[..0] == b[..0];
      }
    }
  }

  lemma BeforeTail(a: string, b: string)
    requires a != "" && b != "" && a[0] == b[0]
    ensures Before(a, b) <==> Before(a[1..], b[1..])
  {
    if k :| 0 <= k < |a| && k < |b| && a[..k] == b[..k] && a[k] < b[k] {
      assert a[1..][..k - 1] == a[..k][1..] && b[1..][..k - 1] == b[..k][1..];
      assert a[1..][k - 1] < b[1..][k - 1];
    }
    if k :| 0 <= k < |a[1..]| && k < |b[1..]| && a[1..][..k] == b[1..][..k] && a[1..][k] < b[1..][k] {
      assert a[..k + 1] == [a[0]] + a[1..][..k] && b[..k + 1] == [b[0]] + b[1..][..k];
      assert a[k + 1] < b[k + 1];
    }
    assert a <= b <==> a[1..] <= b[1..] by {
      assert a == [a[0]] + a[1..] && b == [b[0]] + b[1..];
    }
  }

  function Joined(a: Uid, b: Uid): string {
    "p2p:" + (a + ":" + b)
  }

  /** generateP2pConvId. */
  function P2pConvId(sender: Uid, receiver: Uid): string {
    if Leq(sender, receiver) then Joined(sender, receiver) else Joined(receiver, sender)
  }

  /** Whoever sends, the user who comes first in string order is named first. */
  lemma SmallerUserFirst(a: Uid, b: Uid)
    requires Before(a, b)
    ensures P2pConvId(a, b) == P2pConvId(b, a) == "p2p:" + a + ":" + b
  {
    LeqIsLexicographic(a, b);
    LeqIsTotalOrder(a, b);
    assert "p2p:" + (a + ":" + b) == "p2p:" + a + ":" + b;
  }

  function GroupConvId(grpNo: string): string {
    "grp:" + grpNo
  }

  /** A group's id is its number behind four characters, so that groups have different
      ids. */
  lemma GroupIdsIdentify(g: string, h: string)
    ensures GroupConvId(g)[..4] == "grp:" && GroupConvId(g)[4..] == g
    ensures GroupConvId(g) == GroupConvId(h) <==> g == h
  {
    assert GroupConvId(g)[4..] == g && GroupConvId(h)[4..] == h;
  }

  /** The first colon of c:d comes no earlier than the end of c. */
  lemma ColonComesLater(a: string, b: string, c: string, d: string)
    requires ':' !in c && a + ":" + b == c + ":" + d
    ensures |c| <= |a|
  {
    assert (a + ":" + b)[|a|] == ':';
    assert forall i :: 0 <= i < |c| ==> (c + ":" + d)[i] == c[i] && c[i] in c;
  }

  /** Two colon-separated texts whose first halves have no colon are equal in both
      halves. */
  lemma ColonSplits(a: string, b: string, c: string, d: string)
    requires ':' !in a && ':' !in c && a + ":" + b == c + ":" + d
    ensures a == c && b == d
  {
    ColonComesLater(a, b, c, d);
    ColonComesLater(c, d, a, b);
    var s, t := a + ":" + b, c + ":" + d;
    assert s[..|a|] == a && t[..|c|] == c;
    assert s[|a| + 1..] == b && t[|c| + 1..] == d;
  }

  /** Both directions of a private chat have one id, no group shares it, and two pairs
      of users share it only when they are the same pair, for users without a colon in
      their name. */
  lemma P2pIdsIdentifyPairs(a: Uid, b: Uid, c: Uid, d: Uid, grpNo: string)
    ensures P2pConvId(a, b) == P2pConvId(b, a) && P2pConvId(a, b) != GroupConvId(grpNo)
    ensures ':' !in a && ':' !in b && ':' !in c && ':' !in d ==>
              (P2pConvId(a, b) == P2pConvId(c, d) <==> (a == c && b == d) || (a == d && b == c))
  {
    LeqIsTotalOrder(a, b);
    LeqIsTotalOrder(c, d);
    assert P2pConvId(a, b)[0] == 'p' && GroupConvId(grpNo)[0] == 'g';
    if ':' !in a && ':' !in b && ':' !in c && ':' !in d && P2pConvId(a, b) == P2pConvId(c, d) {
      var (x, y) := if Leq(a, b) then (a, b) else (b, a);
      var (z, w) := if Leq(c, d) then (c, d) else (d, c);
      assert Joined(x, y)[4..] == x + ":" + y && Joined(z, w)[4..] == z + ":" + w;
      ColonSplits(x, y, z, w);
    }
  }

  // ---- exactly which names are safe -------------------------------------------

  /** A name of at least so many characters, all from the alphabet. */
  predicate Name(alphabet: set<char>, shortest: nat, s: string) {
    |s| >= shortest && forall i :: 0 <= i < |s| ==> s[i] in alphabet
  }

  ghost predicate IdsIdentify(alphabet: set<char>, shortest: nat) {
    forall a, b, c, d ::
      && Name(alphabet, shortest, a) && Name(alphabet, shortest, b)
      && Name(alphabet, shortest, c) && Name(alphabet, shortest, d)
      && P2pConvId(a, b) == P2pConvId(c, d)
      ==> (a == c && b == d) || (a == d && b == c)
  }

  function Colons(n: nat): (s: string)
    ensures |s| == n && forall i :: 0 <= i < n ==> s[i] == ':'
  {
    seq(n, _ => ':')
  }

  lemma {:induction false} ColonsInOrder(m: nat, n: nat)
    requires m <= n
    ensures Leq(Colons(m), Colons(n))
  {
    if m > 0 {
      ColonsInOrder(m - 1, n - 1);
      assert Colons(m)[1..] == Colons(m - 1) && Colons(n)[1..] == Colons(n - 1);
    }
  }

  /** k and k + 2 colons make the same id as k + 1 and k + 1. */
  lemma ColonsCollide(k: nat)
    ensures P2pConvId(Colons(k), Colons(k + 2)) == P2pConvId(Colons(k + 1), Colons(k + 1))
  {
    ColonsInOrder(k, k + 2);
    ColonsInOrder(k + 1, k + 1);
    assert Colons(k) + ":" + Colons(k + 2) == Colons(k + 1) + ":" + Colons(k + 1);
  }

  /** Over the names of any alphabet, however short or long they have to be, the ids of
      private chats identify the unordered pair of users if and only if the alphabet has
      no colon. */
  lemma IdsIdentifyIffNoColon(alphabet: set<char>, shortest: nat)
    ensures IdsIdentify(alphabet, shortest) <==> ':' !in alphabet
  {
    if ':' in alphabet {
      var k := shortest;
      assert Name(alphabet, k, Colons(k)) && Name(alphabet, k, Colons(k + 1)) && Name(alphabet, k, Colons(k + 2));
      ColonsCollide(k);
      assert |Colons(k)| != |Colons(k + 1)|;
    } else {
      forall a, b, c, d |
        && Name(alphabet, shortest, a) && Name(alphabet, shortest, b)
        && Name(alphabet, shortest, c) && Name(alphabet, shortest, d) && P2pConvId(a, b) == P2pConvId(c, d)
        ensures (a == c && b == d) || (a == d && b == c)
      {
        P2pIdsIdentifyPairs(a, b, c, d, "");
      }
    }
  }
}
