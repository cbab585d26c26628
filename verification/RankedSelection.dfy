/**
 * Stable ranking and first match, for any key order: what
 * `sorted(items, key=..., reverse=True)` followed by "take the first that
 * works" selects.
 */
module RankedSelection {

  datatype RankKey = RankKey(tier: nat, verified: nat, available: nat, online: nat, reachable: nat, current: nat)

  /** The order Python puts on six-tuples. */
  predicate Below(a: RankKey, b: RankKey) {
    if a.tier != b.tier then a.tier < b.tier
    else if a.verified != b.verified then a.verified < b.verified
    else if a.available != b.available then a.available < b.available
    else if a.online != b.online then a.online < b.online
    else if a.reachable != b.reachable then a.reachable < b.reachable
    else a.current < b.current
  }

  /** Puts `x` in front of the first item that does not rank above it. */
  function Insert<T>(x: T, ranked: seq<T>, key: T -> RankKey): (r: seq<T>)
    ensures |r| == |ranked| + 1
    ensures multiset(r) == multiset(ranked) + multiset{x}
  {
    if ranked == [] then [x]
    else if Below(key(x), key(ranked[0])) then
      assert ranked == [ranked[0]] + ranked[1..];
      [ranked[0]] + Insert(x, ranked[1..], key)
    else [x] + ranked
  }

  /** `sorted(items, key=key, reverse=True)`: descending, equal keys in their original order. */
  function Ranked<T>(items: seq<T>, key: T -> RankKey): (r: seq<T>)
    ensures multiset(r) == multiset(items)
    ensures |r| == |items|
  {
    if items == [] then []
    else
      assert items == [items[0]] + items[1..];
      Insert(items[0], Ranked(items[1..], key), key)
  }

  /** The index of the first item satisfying `ok`, or the length. */
  function FirstIndex<T>(items: seq<T>, ok: T -> bool): (k: nat)
    ensures k <= |items|
    ensures forall i | 0 <= i < k :: !ok(items[i])
    ensures k < |items| ==> ok(items[k])
  {
    if items == [] then 0 else if ok(items[0]) then 0 else 1 + FirstIndex(items[1..], ok)
  }

  /** Item `i` satisfies `ok`, has the highest key among those that do, and is the earliest of them. */
  ghost predicate IsBest<T>(items: seq<T>, key: T -> RankKey, ok: T -> bool, i: nat)
    requires i < |items|
  {
    && ok(items[i])
    && forall j | 0 <= j < |items| && ok(items[j]) ::
         Below(key(items[j]), key(items[i])) || (key(items[j]) == key(items[i]) && i <= j)
  }

  predicate Descending<T>(items: seq<T>, key: T -> RankKey) {
    forall i, j | 0 <= i < j < |items| :: !Below(key(items[i]), key(items[j]))
  }

  lemma {:induction false} InsertKeepsOrder<T>(x: T, ranked: seq<T>, key: T -> RankKey)
    requires Descending(ranked, key)
    ensures Descending(Insert(x, ranked, key), key)
  {
    if ranked != [] && Below(key(x), key(ranked[0])) {
      var rest := Insert(x, ranked[1..], key);
      InsertKeepsOrder(x, ranked[1..], key);
      forall k | 0 <= k < |rest|
        ensures !Below(key(ranked[0]), key(rest[k]))
      {
        assert rest[k] in multiset(ranked[1..]) + multiset{x};
        if rest[k] != x {
          assert rest[k] in ranked[1..];
        }
      }
    }
  }

  lemma {:induction false} RankedIsDescending<T>(items: seq<T>, key: T -> RankKey)
    ensures Descending(Ranked(items, key), key)
  {
    if items != [] {
      RankedIsDescending(items[1..], key);
      InsertKeepsOrder(items[0], Ranked(items[1..], key), key);
    }
  }

  /** Inserting an item makes it the first match unless one ranked above it already matches. */
  lemma {:induction false} FirstAfterInsert<T>(x: T, ranked: seq<T>, key: T -> RankKey, ok: T -> bool)
    requires Descending(ranked, key)
    ensures
      var k, k' := FirstIndex(ranked, ok), FirstIndex(Insert(x, ranked, key), ok);
      && (k' <= |ranked| <==> k < |ranked| || ok(x))
      && (k' <= |ranked| ==>
            Insert(x, ranked, key)[k'] ==
            if ok(x) && (k == |ranked| || !Below(key(x), key(ranked[k]))) then x else ranked[k])
  {
    if ranked != [] && Below(key(x), key(ranked[0])) {
      FirstAfterInsert(x, ranked[1..], key, ok);
      FirstIndexOfCons(ranked[0], Insert(x, ranked[1..], key), ok);
      FirstIndexOfCons(ranked[0], ranked[1..], ok);
      assert ranked == [ranked[0]] + ranked[1..];
    } else {
      FirstIndexOfCons(x, ranked, ok);
      var k := FirstIndex(ranked, ok);
      if 0 < k < |ranked| {
        NotBelowIsTransitive(key(x), key(ranked[0]), key(ranked[k]));
      }
    }
  }

  lemma FirstIndexOfCons<T>(x: T, rest: seq<T>, ok: T -> bool)
    ensures FirstIndex([x] + rest, ok) == if ok(x) then 0 else 1 + FirstIndex(rest, ok)
  {
    assert ([x] + rest)[1..] == rest;
  }

  lemma NotBelowIsTransitive(a: RankKey, b: RankKey, c: RankKey)
    requires !Below(a, b) && !Below(b, c)
    ensures !Below(a, c)
  {
  }

  /** How the first match changes when one more item is put in front of the input. */
  lemma FirstOfCons<T>(items: seq<T>, key: T -> RankKey, ok: T -> bool, before: nat, after: nat)
    requires items != []
    requires before == FirstIndex(Ranked(items[1..], key), ok)
    requires after == FirstIndex(Ranked(items, key), ok)
    ensures after == |items| <==> before == |items| - 1 && !ok(items[0])
    ensures after < |items| ==>
      Ranked(items, key)[after] ==
      if before == |items| - 1
         || (ok(items[0]) && !Below(key(items[0]), key(Ranked(items[1..], key)[before])))
      then items[0] else Ranked(items[1..], key)[before]
  {
    RankedIsDescending(items[1..], key);
    FirstAfterInsert(items[0], Ranked(items[1..], key), key, ok);
  }

  /** The first match in rank order is the best match in the original order. */
  lemma {:induction false} FirstRankedIsBest<T>(items: seq<T>, key: T -> RankKey, ok: T -> bool) returns (i: nat)
    ensures FirstIndex(Ranked(items, key), ok) == |items| ==> forall j | 0 <= j < |items| :: !ok(items[j])
    ensures FirstIndex(Ranked(items, key), ok) < |items| ==>
      && i < |items|
      && items[i] == Ranked(items, key)[FirstIndex(Ranked(items, key), ok)]
      && IsBest(items, key, ok, i)
  {
    i := 0;
    if items != [] {
      var before, after := FirstIndex(Ranked(items[1..], key), ok), FirstIndex(Ranked(items, key), ok);
      i := FirstRankedIsBest(items[1..], key, ok);
      FirstOfCons(items, key, ok, before, after);
      if before < |items| - 1 {
        BestOfCons(items, key, ok, i);
        i := if ok(items[0]) && !Below(key(items[0]), key(items[i + 1])) then 0 else i + 1;
      } else {
        BestOfConsAlone(items, key, ok);
        i := 0;
      }
    }
  }

  lemma BestOfCons<T>(items: seq<T>, key: T -> RankKey, ok: T -> bool, i: nat)
    requires i + 1 < |items| && IsBest(items[1..], key, ok, i)
    ensures IsBest(items, key, ok, if ok(items[0]) && !Below(key(items[0]), key(items[i + 1])) then 0 else i + 1)
  {
    assert items[1..][i] == items[i + 1];
    forall j | 0 < j < |items| && ok(items[j])
      ensures Below(key(items[j]), key(items[i + 1])) || (key(items[j]) == key(items[i + 1]) && i + 1 <= j)
    {
      assert items[j] == items[1..][j - 1];
    }
  }

  lemma BestOfConsAlone<T>(items: seq<T>, key: T -> RankKey, ok: T -> bool)
    requires items != [] && forall i | 0 <= i < |items| - 1 :: !ok(items[1..][i])
    ensures ok(items[0]) ==> IsBest(items, key, ok, 0)
    ensures forall i | 0 < i < |items| :: !ok(items[i])
  {
    forall j | 0 < j < |items|
      ensures !ok(items[j])
    {
      assert items[j] == items[1..][j - 1];
    }
  }

  // -------------------------------------------------------------- filtering

  /** The items satisfying `p`, in their original order. */
  function Filter<T(!new)>(items: seq<T>, p: T -> bool): (r: seq<T>)
    ensures forall x :: x in r <==> x in items && p(x)
  {
    if items == [] then []
    else
      assert items == [items[0]] + items[1..];
      if p(items[0]) then [items[0]] + Filter(items[1..], p) else Filter(items[1..], p)
  }

  /** No other item satisfying `p` and `ok` ranks above `x`. */
  ghost predicate IsTop<T(!new)>(items: seq<T>, p: T -> bool, ok: T -> bool, key: T -> RankKey, x: T) {
    && x in items && p(x) && ok(x)
    && forall y | y in items && p(y) && ok(y) :: !Below(key(x), key(y))
  }

  /** Filtering, ranking and taking the first match finds a top item, or shows there is no match. */
  lemma FirstOfFilteredIsTop<T(!new)>(items: seq<T>, p: T -> bool, ok: T -> bool, key: T -> RankKey)
    ensures
      var ranked := Ranked(Filter(items, p), key);
      var k := FirstIndex(ranked, ok);
      && (k == |ranked| ==> forall x | x in items && p(x) :: !ok(x))
      && (k < |ranked| ==> IsTop(items, p, ok, key, ranked[k]))
  {
    var kept := Filter(items, p);
    var ranked := Ranked(kept, key);
    var k := FirstIndex(ranked, ok);
    var i := FirstRankedIsBest(kept, key, ok);
    if k < |ranked| {
      forall y | y in items && p(y) && ok(y)
        ensures !Below(key(ranked[k]), key(y))
      {
        assert y in kept;
        var j :| 0 <= j < |kept| && kept[j] == y;
      }
    } else {
      forall x | x in items && p(x)
        ensures !ok(x)
      {
        assert x in kept;
      }
    }
  }
}
