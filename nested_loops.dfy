// The shapes of the loops that build lists by appending: an enumerate() comprehension, a loop
// that appends for the items a test admits, and two such loops nested, with what each appends
// and in which order.
module NestedLoops {
  /** [f(i, xs[i]) for i, x in enumerate(xs)] */
  function MapIndexed<X, Y>(f: (nat, X) -> Y, xs: seq<X>): (ys: seq<Y>)
    ensures |ys| == |xs| && forall i :: 0 <= i < |xs| ==> ys[i] == f(i, xs[i])
  {
    seq(|xs|, i requires 0 <= i < |xs| => f(i, xs[i]))
  }

  lemma MapIndexedSnoc<X, Y>(f: (nat, X) -> Y, xs: seq<X>, n: nat)
    requires n < |xs|
    ensures MapIndexed(f, xs[..n + 1]) == MapIndexed(f, xs[..n]) + [f(n, xs[n])]
  {
    var a, b := MapIndexed(f, xs[..n + 1]), MapIndexed(f, xs[..n]) + [f(n, xs[n])];
    forall j | 0 <= j < |a| ensures a[j] == b[j] {
      assert xs[..n + 1][j] == xs[j];
    }
  }

  /** [make(r, g, l, x) for l, x in enumerate(xs) if keep(x)]: the inner loop's appends for group r. */
  function Picked<G, X, Y>(keep: X -> bool, make: (nat, G, nat, X) -> Y, r: nat, g: G, xs: seq<X>): seq<Y>
  {
    if xs == [] then []
    else
      var n := |xs| - 1;
      Picked(keep, make, r, g, xs[..n]) + if keep(xs[n]) then [make(r, g, n, xs[n])] else []
  }

  /** The appends of the nested loops over the groups gs and their items. */
  function PickedAll<G, X, Y>(items: G -> seq<X>, keep: X -> bool, make: (nat, G, nat, X) -> Y, gs: seq<G>): seq<Y>
  {
    if gs == [] then []
    else
      var n := |gs| - 1;
      PickedAll(items, keep, make, gs[..n]) + Picked(keep, make, n, gs[n], items(gs[n]))
  }

  lemma PickedSnoc<G, X, Y>(keep: X -> bool, make: (nat, G, nat, X) -> Y, r: nat, g: G, xs: seq<X>, l: nat)
    requires l < |xs|
    ensures Picked(keep, make, r, g, xs[..l + 1]) == Picked(keep, make, r, g, xs[..l]) + if keep(xs[l]) then [make(r, g, l, xs[l])] else []
  {
    assert xs[..l + 1][..l] == xs[..l];
  }

  lemma PickedAllSnoc<G, X, Y>(items: G -> seq<X>, keep: X -> bool, make: (nat, G, nat, X) -> Y, gs: seq<G>, r: nat)
    requires r < |gs|
    ensures PickedAll(items, keep, make, gs[..r + 1]) == PickedAll(items, keep, make, gs[..r]) + Picked(keep, make, r, gs[r], items(gs[r]))
  {
    assert gs[..r + 1][..r] == gs[..r];
  }

  /** Position a comes before position b in (group, item) order. */
  predicate Before(a: (nat, nat), b: (nat, nat))
  {
    a.0 < b.0 || (a.0 == b.0 && a.1 < b.1)
  }

  /** The appends for one group: one per item that keep admits, in item order. */
  lemma {:induction false} PickedIndexed<G, X, Y>(keep: X -> bool, make: (nat, G, nat, X) -> Y, r: nat, g: G, xs: seq<X>)
      returns (ls: seq<nat>)
    ensures var ys := Picked(keep, make, r, g, xs);
      && |ls| == |ys|
      && (forall k :: 0 <= k < |ls| ==> ls[k] < |xs| && keep(xs[ls[k]]) && ys[k] == make(r, g, ls[k], xs[ls[k]]))
      && (forall k, k' :: 0 <= k < k' < |ls| ==> ls[k] < ls[k'])
      && (forall l :: 0 <= l < |xs| && keep(xs[l]) ==> l in ls)
  {
    if xs == [] {
      ls := [];
    } else {
      var n := |xs| - 1;
      var pre := xs[..n];
      ls := PickedIndexed(keep, make, r, g, pre);
      assert forall l :: 0 <= l < n ==> pre[l] == xs[l];
      if keep(xs[n]) {
        ls := ls + [n];
      }
    }
  }

  /** Item p.1 of group p.0 exists, is admitted, and y was made from it. */
  ghost predicate PickedAt<G, X, Y>(items: G -> seq<X>, keep: X -> bool, make: (nat, G, nat, X) -> Y, gs: seq<G>, p: (nat, nat), y: Y)
  {
    p.0 < |gs| && p.1 < |items(gs[p.0])| && keep(items(gs[p.0])[p.1]) && y == make(p.0, gs[p.0], p.1, items(gs[p.0])[p.1])
  }

  /** The appends of the nested loops: one per admitted item, in (group, item) order. */
  lemma {:induction false} PickedAllIndexed<G, X, Y>(items: G -> seq<X>, keep: X -> bool, make: (nat, G, nat, X) -> Y, gs: seq<G>)
      returns (pos: seq<(nat, nat)>)
    ensures var ys := PickedAll(items, keep, make, gs);
      && |pos| == |ys|
      && (forall k :: 0 <= k < |pos| ==> PickedAt(items, keep, make, gs, pos[k], ys[k]))
      && (forall k, k' :: 0 <= k < k' < |pos| ==> Before(pos[k], pos[k']))
      && (forall r, l :: 0 <= r < |gs| && 0 <= l < |items(gs[r])| && keep(items(gs[r])[l]) ==> (r, l) in pos)
  {
    if gs == [] {
      pos := [];
    } else {
      var n := |gs| - 1;
      var pos0 := PickedAllIndexed(items, keep, make, gs[..n]);
      var ls := PickedIndexed(keep, make, n, gs[n], items(gs[n]));
      pos := pos0 + Tagged(n, ls);
      PickedAllEntries(items, keep, make, gs, pos0, ls);
      PickedAllOrdered(items, keep, make, gs, pos0, ls);
      PickedAllComplete(items, keep, make, gs, pos0, ls);
    }
  }

  /** (n, l) for each l of ls. */
  function Tagged(n: nat, ls: seq<nat>): (ps: seq<(nat, nat)>)
    ensures |ps| == |ls| && forall k :: 0 <= k < |ls| ==> ps[k] == (n, ls[k])
  {
    seq(|ls|, k requires 0 <= k < |ls| => (n, ls[k]))
  }

  lemma PickedAllEntries<G, X, Y>(items: G -> seq<X>, keep: X -> bool, make: (nat, G, nat, X) -> Y, gs: seq<G>,
                                  pos0: seq<(nat, nat)>, ls: seq<nat>)
    requires gs != []
    requires var ys0 := PickedAll(items, keep, make, gs[..|gs| - 1]);
      |pos0| == |ys0| && forall k :: 0 <= k < |pos0| ==> PickedAt(items, keep, make, gs[..|gs| - 1], pos0[k], ys0[k])
    requires var n := |gs| - 1; var yl := Picked(keep, make, n, gs[n], items(gs[n]));
      |ls| == |yl| && forall k :: 0 <= k < |ls| ==>
        ls[k] < |items(gs[n])| && keep(items(gs[n])[ls[k]]) && yl[k] == make(n, gs[n], ls[k], items(gs[n])[ls[k]])
    ensures var ys, pos := PickedAll(items, keep, make, gs), pos0 + Tagged(|gs| - 1, ls);
      |pos| == |ys| && forall k :: 0 <= k < |pos| ==> PickedAt(items, keep, make, gs, pos[k], ys[k])
  {
    var n := |gs| - 1;
    var pre := gs[..n];
    var ys0, yl := PickedAll(items, keep, make, pre), Picked(keep, make, n, gs[n], items(gs[n]));
    var ys, pos := PickedAll(items, keep, make, gs), pos0 + Tagged(n, ls);
    assert ys == ys0 + yl;
    forall k | 0 <= k < |pos| ensures PickedAt(items, keep, make, gs, pos[k], ys[k]) {
      if k < |pos0| {
        assert PickedAt(items, keep, make, pre, pos0[k], ys0[k]);
        assert pre[pos0[k].0] == gs[pos0[k].0];
      } else {
        assert ys[k] == yl[k - |pos0|];
      }
    }
  }

  lemma PickedAllOrdered<G, X, Y>(items: G -> seq<X>, keep: X -> bool, make: (nat, G, nat, X) -> Y, gs: seq<G>,
                                  pos0: seq<(nat, nat)>, ls: seq<nat>)
    requires gs != []
    requires var ys0 := PickedAll(items, keep, make, gs[..|gs| - 1]);
      |pos0| == |ys0| && forall k :: 0 <= k < |pos0| ==> PickedAt(items, keep, make, gs[..|gs| - 1], pos0[k], ys0[k])
    requires forall k, k' :: 0 <= k < k' < |pos0| ==> Before(pos0[k], pos0[k'])
    requires forall k, k' :: 0 <= k < k' < |ls| ==> ls[k] < ls[k']
    ensures var pos := pos0 + Tagged(|gs| - 1, ls);
      forall k, k' :: 0 <= k < k' < |pos| ==> Before(pos[k], pos[k'])
  {
    var n := |gs| - 1;
    var pos := pos0 + Tagged(n, ls);
    var ys0 := PickedAll(items, keep, make, gs[..n]);
    forall k, k' | 0 <= k < k' < |pos| ensures Before(pos[k], pos[k']) {
      if k' < |pos0| {
        assert pos[k] == pos0[k] && pos[k'] == pos0[k'];
      } else if k < |pos0| {
        assert PickedAt(items, keep, make, gs[..n], pos0[k], ys0[k]);
        assert pos[k] == pos0[k] && pos[k'].0 == n;
      } else {
        assert pos[k] == (n, ls[k - |pos0|]) && pos[k'] == (n, ls[k' - |pos0|]);
      }
    }
  }

  lemma PickedAllComplete<G, X, Y>(items: G -> seq<X>, keep: X -> bool, make: (nat, G, nat, X) -> Y, gs: seq<G>,
                                   pos0: seq<(nat, nat)>, ls: seq<nat>)
    requires gs != []
    requires var pre := gs[..|gs| - 1];
      forall r, l :: 0 <= r < |pre| && 0 <= l < |items(pre[r])| && keep(items(pre[r])[l]) ==> (r, l) in pos0
    requires var n := |gs| - 1; forall l :: 0 <= l < |items(gs[n])| && keep(items(gs[n])[l]) ==> l in ls
    ensures var pos := pos0 + Tagged(|gs| - 1, ls);
      forall r, l :: 0 <= r < |gs| && 0 <= l < |items(gs[r])| && keep(items(gs[r])[l]) ==> (r, l) in pos
  {
    var n := |gs| - 1;
    var pre := gs[..n];
    var pos := pos0 + Tagged(n, ls);
    forall r, l | 0 <= r < |gs| && 0 <= l < |items(gs[r])| && keep(items(gs[r])[l])
      ensures (r, l) in pos
    {
      if r < n {
        assert pre[r] == gs[r];
        var k :| 0 <= k < |pos0| && pos0[k] == (r, l);
        assert pos[k] == (r, l);
      } else {
        var k :| 0 <= k < |ls| && ls[k] == l;
        assert pos[|pos0| + k] == (r, l);
      }
    }
  }

  /** What the nested loops have appended after the first r groups begins what they append in all. */
  lemma {:induction false} PickedAllPrefix<G, X, Y>(items: G -> seq<X>, keep: X -> bool, make: (nat, G, nat, X) -> Y, gs: seq<G>, r: nat)
    requires r <= |gs|
    ensures var ys0, ys := PickedAll(items, keep, make, gs[..r]), PickedAll(items, keep, make, gs);
      |ys0| <= |ys| && ys0 == ys[..|ys0|]
    decreases |gs|
  {
    if r < |gs| {
      var n := |gs| - 1;
      assert gs[..n][..r] == gs[..r];
      PickedAllPrefix(items, keep, make, gs[..n], r);
    } else {
      assert gs[..r] == gs;
    }
  }
}
