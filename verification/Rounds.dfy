// The order of turns in the loops of the parallel rules: a list of entries that is walked again
// and again, each visit either leaving the entry in its place or erasing it.
module Rounds {

  // The entries of s in keep, in their order.
  ghost function Keep(s: seq<nat>, keep: nat -> bool): seq<nat> {
    if s == [] then []
    else Keep(s[..|s| - 1], keep) + if keep(s[|s| - 1]) then [s[|s| - 1]] else []
  }

  lemma {:induction false} KeepSame(s: seq<nat>, p: nat -> bool, q: nat -> bool)
    requires forall i :: 0 <= i < |s| ==> p(s[i]) == q(s[i])
    ensures Keep(s, p) == Keep(s, q)
    decreases |s|
  {
    if s != [] {
      KeepSame(s[..|s| - 1], p, q);
    }
  }

  lemma {:induction false} KeepAll(s: seq<nat>, p: nat -> bool)
    requires forall i :: 0 <= i < |s| ==> p(s[i])
    ensures Keep(s, p) == s
    decreases |s|
  {
    if s != [] {
      KeepAll(s[..|s| - 1], p);
    }
  }

  lemma {:induction false} KeepNone(s: seq<nat>, p: nat -> bool)
    requires forall i :: 0 <= i < |s| ==> !p(s[i])
    ensures Keep(s, p) == []
    decreases |s|
  {
    if s != [] {
      KeepNone(s[..|s| - 1], p);
    }
  }

  ghost predicate Distinct(s: seq<nat>) {
    forall i, j :: 0 <= i < j < |s| ==> s[i] != s[j]
  }

  // Taking one entry out of a list of distinct entries.
  lemma {:induction false} KeepWithout(s: seq<nat>, p: nat -> bool, q: nat -> bool, at: nat)
    requires Distinct(s) && at < |Keep(s, p)|
    requires forall i :: 0 <= i < |s| ==> q(s[i]) == (p(s[i]) && s[i] != Keep(s, p)[at])
    ensures Keep(s, q) == Keep(s, p)[..at] + Keep(s, p)[at + 1..]
    decreases |s|
  {
    var n := |s| - 1;
    var l, l' := Keep(s, p), Keep(s[..n], p);
    if p(s[n]) && at == |l| - 1 {
      assert l[at] == s[n];
      KeepSame(s[..n], p, q);
      assert l[..at] + l[at + 1..] == l';
    } else {
      KeepIn(s[..n], p, at);
      KeepWithout(s[..n], p, q, at);
      assert l[..at] == l'[..at];
      assert l[at + 1..] == l'[at + 1..] + if p(s[n]) then [s[n]] else [];
    }
  }

  lemma {:induction false} KeepIn(s: seq<nat>, p: nat -> bool, at: nat)
    requires at < |Keep(s, p)|
    ensures Keep(s, p)[at] in s && p(Keep(s, p)[at])
    decreases |s|
  {
    var n := |s| - 1;
    if at < |Keep(s[..n], p)| {
      KeepIn(s[..n], p, at);
    }
  }

  lemma {:induction false} KeepMember(s: seq<nat>, p: nat -> bool, w: nat)
    ensures w in Keep(s, p) <==> w in s && p(w)
    decreases |s|
  {
    if s != [] {
      KeepMember(s[..|s| - 1], p, w);
    }
  }

  lemma {:induction false} KeepDistinct(s: seq<nat>, p: nat -> bool)
    requires Distinct(s)
    ensures Distinct(Keep(s, p))
    decreases |s|
  {
    if s != [] {
      var n := |s| - 1;
      KeepDistinct(s[..n], p);
      KeepMember(s[..n], p, s[n]);
    }
  }

  // The iteration order of the hash table over the places 0..n-1.
  ghost predicate IsOrder(order: seq<nat>, n: nat) {
    Distinct(order) && forall w: nat :: w in order <==> w < n
  }

  // The entries still in todo, in that order.
  ghost predicate Listed(order: seq<nat>, todo: set<nat>, live: seq<nat>) {
    && live == Keep(order, (w: nat) => w in todo)
    && (forall w :: w in live <==> w in todo)
    && forall w :: w in todo ==> w in order
  }

  // All places are in the table at first.
  lemma ListedFirst(order: seq<nat>, n: nat, todo: set<nat>)
    requires IsOrder(order, n) && forall w: nat :: w in todo <==> w < n
    ensures Listed(order, todo, order)
  {
    forall i | 0 <= i < |order| ensures order[i] in todo {
      assert order[i] in order;
    }
    KeepAll(order, (w: nat) => w in todo);
  }

  function Erase(live: seq<nat>, it: nat): seq<nat>
    requires it < |live|
  {
    live[..it] + live[it + 1..]
  }

  lemma EntryErased(order: seq<nat>, todo: set<nat>, live: seq<nat>, it: nat)
    requires Distinct(order) && Listed(order, todo, live) && it < |live|
    ensures Listed(order, todo - {live[it]}, Erase(live, it))
    ensures Erase(live, it)[it..] == live[it..][1..]
  {
    var todo', live' := todo - {live[it]}, Erase(live, it);
    KeepWithout(order, (v: nat) => v in todo, (v: nat) => v in todo', it);
    forall v ensures v in live' <==> v in todo' {
      KeepMember(order, (v: nat) => v in todo', v);
    }
  }

  // a stands before b in the order.
  ghost predicate Before(order: seq<nat>, a: nat, b: nat) {
    exists x, y :: 0 <= x < y < |order| && order[x] == a && order[y] == b
  }

  lemma BeforeOnce(order: seq<nat>, a: nat, b: nat)
    requires Distinct(order)
    ensures !(Before(order, a, b) && Before(order, b, a))
  {}

  lemma {:induction false} KeepBefore(s: seq<nat>, p: nat -> bool, x: nat, y: nat)
    requires x < y < |Keep(s, p)|
    ensures Before(s, Keep(s, p)[x], Keep(s, p)[y])
    decreases |s|
  {
    var n := |s| - 1;
    var l, l' := Keep(s, p), Keep(s[..n], p);
    if y < |l'| {
      KeepBefore(s[..n], p, x, y);
      var i, j :| 0 <= i < j < n && s[..n][i] == l'[x] && s[..n][j] == l'[y];
      assert s[i] == l[x] && s[j] == l[y];
    } else {
      KeepIn(s[..n], p, x);
      var i :| 0 <= i < n && s[..n][i] == l'[x];
      assert s[i] == l[x] && s[n] == l[y];
    }
  }

  // What stands on either side of an entry kept.
  lemma KeepSides(s: seq<nat>, p: nat -> bool, at: nat, v: nat)
    requires Distinct(s) && at < |Keep(s, p)| && v != Keep(s, p)[at]
    ensures v in Keep(s, p)[..at] ==> Before(s, v, Keep(s, p)[at])
    ensures v in Keep(s, p)[at + 1..] ==> Before(s, Keep(s, p)[at], v)
    ensures v in Keep(s, p) <==> v in Keep(s, p)[..at] || v in Keep(s, p)[at + 1..]
  {
    var l := Keep(s, p);
    if v in l[..at] {
      var x :| 0 <= x < at && l[..at][x] == v;
      KeepBefore(s, p, x, at);
    }
    if v in l[at + 1..] {
      var x :| 0 <= x < |l| - at - 1 && l[at + 1..][x] == v;
      KeepBefore(s, p, at, at + 1 + x);
    }
    assert l == l[..at] + [l[at]] + l[at + 1..];
  }

  ghost function Count(s: seq<nat>, v: nat): nat {
    if s == [] then 0 else Count(s[..|s| - 1], v) + if s[|s| - 1] == v then 1 else 0
  }

  lemma {:induction false} CountJoin(a: seq<nat>, b: seq<nat>, v: nat)
    ensures Count(a + b, v) == Count(a, v) + Count(b, v)
    decreases |b|
  {
    if b == [] {
      assert a + b == a;
    } else {
      assert (a + b)[..|a + b| - 1] == a + b[..|b| - 1];
      CountJoin(a, b[..|b| - 1], v);
    }
  }

  lemma {:induction false} CountNone(s: seq<nat>, v: nat)
    requires v !in s
    ensures Count(s, v) == 0
    decreases |s|
  {
    if s != [] {
      CountNone(s[..|s| - 1], v);
    }
  }

  lemma {:induction false} CountOnce(s: seq<nat>, v: nat)
    requires Distinct(s)
    ensures Count(s, v) == if v in s then 1 else 0
    decreases |s|
  {
    if s != [] {
      var n := |s| - 1;
      CountOnce(s[..n], v);
      assert s == s[..n] + [s[n]];
      assert s[n] !in s[..n];
    }
  }
}
