/** Results collected in an order of completion. */
module Gathering {
  import opened Options

  /** The results of `out` in the given order, those of nothing left out. */
  function Gather<T>(order: seq<nat>, out: nat -> Option<T>): seq<T> {
    if order == [] then []
    else
      var before := Gather(order[..|order| - 1], out);
      match out(order[|order| - 1])
      case None => before
      case Some(x) => before + [x]
  }

  function Indices(n: nat): seq<nat> {
    seq(n, i => i)
  }

  /** Every index below `n` exactly once. */
  ghost predicate IsOrder(order: seq<nat>, n: nat) {
    multiset(order) == multiset(Indices(n))
  }

  lemma OrderMembers(order: seq<nat>, n: nat)
    requires IsOrder(order, n)
    ensures forall i :: i in order <==> 0 <= i < n
  {
    forall i
      ensures i in order <==> 0 <= i < n
    {
      assert i in order <==> i in multiset(order);
      assert i in Indices(n) <==> i in multiset(Indices(n));
      if 0 <= i < n {
        assert Indices(n)[i] == i;
      }
    }
  }

  lemma {:induction false} GatherConcat<T>(a: seq<nat>, b: seq<nat>, out: nat -> Option<T>)
    ensures Gather(a + b, out) == Gather(a, out) + Gather(b, out)
  {
    if b == [] {
      assert a + b == a;
    } else {
      var init := b[..|b| - 1];
      assert (a + b)[..|a + b| - 1] == a + init;
      GatherConcat(a, init, out);
    }
  }

  /** Collecting in another order permutes the results. */
  lemma {:induction false} GatherPermutes<T>(a: seq<nat>, b: seq<nat>, out: nat -> Option<T>)
    requires multiset(a) == multiset(b)
    ensures multiset(Gather(a, out)) == multiset(Gather(b, out))
  {
    if a == [] {
      assert |multiset(b)| == 0;
    } else {
      var init, last := a[..|a| - 1], a[|a| - 1];
      assert a == init + [last];
      assert last in multiset(b);
      var k :| 0 <= k < |b| && b[k] == last;
      var left, right := b[..k], b[k + 1..];
      assert b == left + [last] + right;
      assert multiset(a) == multiset(init) + multiset{last};
      assert multiset(b) == multiset(left) + multiset{last} + multiset(right);
      assert multiset(left + right) == multiset(left) + multiset(right);
      assert multiset(init) == multiset(a) - multiset{last};
      assert multiset(left + right) == multiset(b) - multiset{last};
      assert multiset(init) == multiset(left + right);
      GatherPermutes(init, left + right, out);
      GatherConcat(init, [last], out);
      GatherConcat(left + [last], right, out);
      GatherConcat(left, [last], out);
      GatherConcat(left, right, out);
    }
  }

  lemma {:induction false} GatherAgrees<T>(order: seq<nat>, out: nat -> Option<T>, other: nat -> Option<T>)
    requires forall i | i in order :: out(i) == other(i)
    ensures Gather(order, out) == Gather(order, other)
  {
    if order != [] {
      assert order == order[..|order| - 1] + [order[|order| - 1]];
      GatherAgrees(order[..|order| - 1], out, other);
    }
  }

  lemma {:induction false} Gathered<T>(order: seq<nat>, out: nat -> Option<T>, x: T)
    ensures x in Gather(order, out) <==> exists i :: i in order && out(i) == Some(x)
  {
    if order != [] {
      assert order == order[..|order| - 1] + [order[|order| - 1]];
      Gathered(order[..|order| - 1], out, x);
      assert order[|order| - 1] in order;
    }
  }
}
