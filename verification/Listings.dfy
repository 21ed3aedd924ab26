// Listings of a set of texts, each once: how a loop goes over the keys of a dictionary; and sets of
// elements and of indices, with their sizes.
module Listings {
  /** `order` names each element of `s` once. */
  ghost predicate Lists(order: seq<string>, s: set<string>) {
    && (forall q :: q in order <==> q in s)
    && (forall i, j :: 0 <= i < j < |order| ==> order[i] != order[j])
  }

  method Listed(s: set<string>) returns (order: seq<string>)
    ensures Lists(order, s)
  {
    order := [];
    var left := s;
    while left != {}
      invariant left <= s && Lists(order, s - left)
    {
      var q :| q in left;
      order, left := order + [q], left - {q};
    }
  }

  lemma ListedTail(order: seq<string>, s: set<string>)
    requires Lists(order, s) && order != []
    ensures order[0] in s && Lists(order[1..], s - {order[0]})
  {
    assert order == [order[0]] + order[1..];
    assert forall q :: q in order <==> q == order[0] || q in order[1..];
  }

  lemma {:induction false} ListedSize(order: seq<string>, s: set<string>)
    requires Lists(order, s)
    ensures |order| == |s|
  {
    if order == [] {
      assert s == {};
    } else {
      ListedTail(order, s);
      ListedSize(order[1..], s - {order[0]});
    }
  }

  lemma ListsNext(order: seq<string>, keys: set<string>, i: nat, done: set<string>)
    requires Lists(order, keys) && i < |order| && Lists(order[..i], done)
    ensures order[i] in keys && order[i] !in done && done + {order[i]} <= keys
    ensures Lists(order[..i + 1], done + {order[i]})
    ensures |done + {order[i]}| == |done| + 1
  {
    assert order[..i + 1] == order[..i] + [order[i]];
  }

  lemma ListsAll(order: seq<string>, keys: set<string>, done: set<string>)
    requires Lists(order, keys) && Lists(order[..|order|], done)
    ensures done == keys
  {
    assert order[..|order|] == order;
  }

  lemma ListsAppend(order: seq<string>, keys: set<string>, k: string)
    requires Lists(order, keys)
    ensures Lists(if k in keys then order else order + [k], keys + {k})
  {
  }

  // ----- Elements and sizes

  function Elements<T(==, !new)>(s: seq<T>): (all: set<T>)
    ensures forall x :: x in all <==> x in s
  {
    if s == [] then {} else Elements(s[..|s| - 1]) + {s[|s| - 1]}
  }

  lemma {:induction false} ElementsSize<T(!new)>(s: seq<T>)
    ensures |Elements(s)| <= |s|
  {
    if s != [] {
      ElementsSize(s[..|s| - 1]);
    }
  }

  lemma {:induction false} DistinctSize<T(!new)>(s: seq<T>)
    requires forall i, j :: 0 <= i < j < |s| ==> s[i] != s[j]
    ensures |Elements(s)| == |s|
  {
    if s != [] {
      DistinctSize(s[..|s| - 1]);
    }
  }

  lemma SubsetSize<T>(s: set<T>, t: set<T>)
    requires s <= t
    ensures |s| <= |t|
  {
    assert t == s + (t - s);
  }

  function Indices(count: nat): (s: set<nat>)
    ensures |s| == count && forall i: nat :: i in s <==> i < count
  {
    if count == 0 then {} else Indices(count - 1) + {count - 1}
  }
}
