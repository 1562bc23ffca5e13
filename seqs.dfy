/** Sequence helpers standing in for Swift's `first(where:)`, `firstIndex(where:)`
    and `sorted(by:)`. */
module Seqs {
  import opened Wrappers

  /** Position of the first element satisfying `P`, as `firstIndex(where:)` finds it. */
  function FirstIndex<T>(s: seq<T>, P: T -> bool): (r: Option<nat>)
    ensures r.Some? ==> r.value < |s| && P(s[r.value])
    ensures r.Some? ==> forall j :: 0 <= j < r.value ==> !P(s[j])
    ensures r.None? <==> forall j :: 0 <= j < |s| ==> !P(s[j])
  {
    if s == [] then None
    else if P(s[0]) then Some(0)
    else match FirstIndex(s[1..], P)
      case None => None
      case Some(i) => Some(i + 1)
  }

  /** The first element satisfying `P`, as `first(where:)` finds it. */
  function First<T>(s: seq<T>, P: T -> bool): (r: Option<T>)
    ensures r.Some? <==> FirstIndex(s, P).Some?
    ensures r.Some? ==> r.value == s[FirstIndex(s, P).value] && P(r.value)
  {
    match FirstIndex(s, P)
    case None => None
    case Some(i) => Some(s[i])
  }

  /** Any position that satisfies `P` with no earlier one is the one `FirstIndex` finds. */
  lemma FirstIndexUnique<T>(s: seq<T>, P: T -> bool, i: nat)
    requires i < |s| && P(s[i])
    requires forall j :: 0 <= j < i ==> !P(s[j])
    ensures FirstIndex(s, P) == Some(i)
  {
  }

  ghost predicate SortedBy<T>(s: seq<T>, key: T -> int) {
    forall i, j :: 0 <= i < j < |s| ==> key(s[i]) <= key(s[j])
  }

  /** Inserts `x` before the first element whose key is not smaller, keeping ties in order. */
  function Insert<T>(x: T, s: seq<T>, key: T -> int): (r: seq<T>)
    requires SortedBy(s, key)
    ensures multiset(r) == multiset(s) + multiset{x}
    ensures SortedBy(r, key)
  {
    if s == [] then [x]
    else if key(x) <= key(s[0]) then [x] + s
    else
      var t := Insert(x, s[1..], key);
      assert s == [s[0]] + s[1..];
      assert forall k :: 0 <= k < |t| ==> key(s[0]) <= key(t[k]) by {
        forall k | 0 <= k < |t| ensures key(s[0]) <= key(t[k]) {
          assert t[k] in multiset(t);
          assert t[k] == x || t[k] in multiset(s[1..]);
        }
      }
      [s[0]] + t
  }

  /** Insertion sort by an integer key: a sorted permutation of the input. */
  function SortBy<T>(s: seq<T>, key: T -> int): (r: seq<T>)
    ensures multiset(r) == multiset(s)
    ensures SortedBy(r, key)
    ensures |r| == |s|
  {
    if s == [] then []
    else
      assert s == [s[0]] + s[1..];
      Insert(s[0], SortBy(s[1..], key), key)
  }

  /** `map`: `f` applied to each element, in order. */
  function Map<T, U>(s: seq<T>, f: T -> U): (r: seq<U>)
    ensures |r| == |s| && forall i :: 0 <= i < |s| ==> r[i] == f(s[i])
  {
    seq(|s|, i requires 0 <= i < |s| => f(s[i]))
  }

  /** Every element's image is in the map, and every element of the map is an image. */
  lemma MapMembers<T, U>(s: seq<T>, f: T -> U)
    ensures forall x :: x in s ==> f(x) in Map(s, f)
    ensures forall y :: y in Map(s, f) ==> exists x :: x in s && y == f(x)
  {
    forall x | x in s ensures f(x) in Map(s, f) {
      var i :| 0 <= i < |s| && s[i] == x;
      assert Map(s, f)[i] == f(x);
    }
  }

  lemma MapAppend<T, U>(a: seq<T>, b: seq<T>, f: T -> U)
    ensures Map(a + b, f) == Map(a, f) + Map(b, f)
  {
  }

  /** Mapping removes the mapped element where the position is removed. */
  lemma MapSplit<T, U>(t: seq<T>, k: nat, f: T -> U)
    requires k < |t|
    ensures multiset(Map(t, f)) == multiset(Map(t[..k] + t[k + 1..], f)) + multiset{f(t[k])}
  {
    MapAppend(t[..k] + [t[k]], t[k + 1..], f);
    MapAppend(t[..k], [t[k]], f);
    assert t[..k] + [t[k]] + t[k + 1..] == t;
    MapAppend(t[..k], t[k + 1..], f);
    assert Map([t[k]], f) == [f(t[k])];
  }

  lemma MapCons<T, U>(s: seq<T>, f: T -> U)
    requires s != []
    ensures multiset(Map(s, f)) == multiset(Map(s[1..], f)) + multiset{f(s[0])}
  {
    assert Map(s, f) == [f(s[0])] + Map(s[1..], f);
  }

  /** Removing position `k` removes one occurrence of `t[k]`. */
  lemma RemoveAt<T>(t: seq<T>, k: nat)
    requires k < |t|
    ensures multiset(t[..k] + t[k + 1..]) == multiset(t) - multiset{t[k]}
  {
    assert t == t[..k] + [t[k]] + t[k + 1..];
  }

  lemma PositionOf<T>(x: T, t: seq<T>) returns (k: nat)
    requires x in multiset(t)
    ensures k < |t| && t[k] == x
  {
    k :| 0 <= k < |t| && t[k] == x;
  }

  /** The first element of `s` occurs in its permutation `t` at some `k`, and
      removing it there leaves a permutation of the rest of `s`. */
  lemma MatchFirst<T>(s: seq<T>, t: seq<T>) returns (k: nat)
    requires s != [] && multiset(s) == multiset(t)
    ensures k < |t| && t[k] == s[0]
    ensures multiset(t[..k] + t[k + 1..]) == multiset(s[1..])
  {
    assert s == [s[0]] + s[1..];
    assert s[0] in multiset(s);
    k := PositionOf(s[0], t);
    RemoveAt(t, k);
  }

  /** Mapping two permutations of each other gives permutations of each other. */
  lemma {:induction false} MapPermutation<T, U>(s: seq<T>, t: seq<T>, f: T -> U)
    requires multiset(s) == multiset(t)
    ensures multiset(Map(s, f)) == multiset(Map(t, f))
    decreases |s|
  {
    if s == [] {
      assert |multiset(t)| == 0;
      assert t == [];
    } else {
      var k := MatchFirst(s, t);
      var rest := t[..k] + t[k + 1..];
      MapPermutation(s[1..], rest, f);
      MapCons(s, f);
      MapSplit(t, k, f);
    }
  }
}
