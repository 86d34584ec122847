/** Ordering as the database performs it for `orderBy`: a permutation of the
    selected rows that is sorted under a total preorder. Rows that the order
    ranks equal may come out in any order; insertion sort is one such
    permutation, and only the two defining properties are relied upon. */
module Sorting {

  /** `le` is total and transitive: a ranking that may have ties. */
  ghost predicate IsTotalPreorder<T(!new)>(le: (T, T) -> bool) {
    && (forall a, b :: le(a, b) || le(b, a))
    && (forall a, b, c :: le(a, b) && le(b, c) ==> le(a, c))
  }

  predicate SortedBy<T>(s: seq<T>, le: (T, T) -> bool) {
    forall i, j :: 0 <= i < j < |s| ==> le(s[i], s[j])
  }

  function InsertBy<T(!new)>(x: T, s: seq<T>, le: (T, T) -> bool): (r: seq<T>)
    requires IsTotalPreorder(le) && SortedBy(s, le)
    ensures SortedBy(r, le)
    ensures multiset(r) == multiset(s) + multiset{x}
  {
    if s == [] then [x]
    else if le(x, s[0]) then [x] + s
    else
      var rest := InsertBy(x, s[1..], le);
      InsertBehindHead(x, s, rest, le);
      [s[0]] + rest
  }

  /** When `x` goes behind the head of `s`, every row it is inserted among
      ranks no lower than that head, so the head can stay in front. */
  lemma InsertBehindHead<T(!new)>(x: T, s: seq<T>, rest: seq<T>, le: (T, T) -> bool)
    requires IsTotalPreorder(le) && SortedBy(s, le) && s != [] && !le(x, s[0])
    requires SortedBy(rest, le) && multiset(rest) == multiset(s[1..]) + multiset{x}
    ensures SortedBy([s[0]] + rest, le)
    ensures multiset([s[0]] + rest) == multiset(s) + multiset{x}
  {
    assert s == [s[0]] + s[1..];
    forall k | 0 <= k < |rest|
      ensures le(s[0], rest[k])
    {
      assert rest[k] in multiset(rest);
      if rest[k] != x {
        assert rest[k] in multiset(s[1..]);
        var j :| 0 <= j < |s[1..]| && s[1..][j] == rest[k];
        assert s[j + 1] == rest[k];
      }
    }
    var r := [s[0]] + rest;
    forall i, j | 0 <= i < j < |r|
      ensures le(r[i], r[j])
    {
      assert r[j] == rest[j - 1];
      if i > 0 {
        assert r[i] == rest[i - 1];
      }
    }
  }

  /** The rows of `s` in an order sorted under `le`. */
  function SortBy<T(!new)>(s: seq<T>, le: (T, T) -> bool): (r: seq<T>)
    requires IsTotalPreorder(le)
    ensures SortedBy(r, le)
    ensures multiset(r) == multiset(s)
  {
    if s == [] then []
    else
      assert s == [s[0]] + s[1..];
      InsertBy(s[0], SortBy(s[1..], le), le)
  }

  /** A permutation has the same elements. */
  lemma PermutationMembers<T>(a: seq<T>, b: seq<T>, x: T)
    requires multiset(a) == multiset(b)
    ensures x in a <==> x in b
  {
    assert x in a <==> x in multiset(a);
    assert x in b <==> x in multiset(b);
  }

  predicate KeysDistinct<T, K(==)>(s: seq<T>, key: T -> K) {
    forall i, j :: 0 <= i < j < |s| ==> key(s[i]) != key(s[j])
  }

  /** If `key` tells the rows of `a` apart, it tells apart the rows of every
      permutation of `a`. */
  lemma {:induction false} PermutationKeepsKeysDistinct<T, K>(a: seq<T>, b: seq<T>, key: T -> K)
    requires multiset(a) == multiset(b)
    requires KeysDistinct(a, key)
    ensures KeysDistinct(b, key)
    decreases |b|
  {
    if b != [] {
      var k := MatchHead(a, b);
      var a' := RemoveAt(a, k);
      RemoveAtKeepsKeysDistinct(a, k, key);
      PermutationKeepsKeysDistinct(a', b[1..], key);
      RemovedKeyIsFresh(a, k, b[1..], key);
      forall i, j | 0 <= i < j < |b|
        ensures key(b[i]) != key(b[j])
      {
        assert b[j] == b[1..][j - 1];
        if i > 0 {
          assert b[i] == b[1..][i - 1];
        }
      }
    }
  }

  /** The first element of a permutation `b` of `a` occurs in `a` at some
      position `k`, and what remains of both is again a permutation. */
  lemma MatchHead<T>(a: seq<T>, b: seq<T>) returns (k: nat)
    requires multiset(a) == multiset(b) && b != []
    ensures k < |a| && a[k] == b[0] && multiset(RemoveAt(a, k)) == multiset(b[1..])
  {
    assert b[0] in multiset(a);
    var p :| 0 <= p < |a| && a[p] == b[0];
    k := p;
    assert b == [b[0]] + b[1..];
  }

  /** The key of a removed row differs from the keys of all that remain. */
  lemma RemovedKeyIsFresh<T, K>(a: seq<T>, k: nat, b: seq<T>, key: T -> K)
    requires k < |a| && KeysDistinct(a, key)
    requires multiset(RemoveAt(a, k)) == multiset(b)
    ensures forall j :: 0 <= j < |b| ==> key(a[k]) != key(b[j])
  {
    var a' := RemoveAt(a, k);
    forall j | 0 <= j < |b|
      ensures key(a[k]) != key(b[j])
    {
      assert b[j] in multiset(a');
      var p :| 0 <= p < |a'| && a'[p] == b[j];
      var p0 := if p < k then p else p + 1;
      assert a[p0] == b[j] && p0 != k;
    }
  }

  function RemoveAt<T>(a: seq<T>, k: nat): (r: seq<T>)
    requires k < |a|
    ensures |r| == |a| - 1
    ensures forall p :: 0 <= p < |r| ==> r[p] == a[if p < k then p else p + 1]
    ensures multiset(r) == multiset(a) - multiset{a[k]}
  {
    assert a == a[..k] + [a[k]] + a[k + 1..];
    a[..k] + a[k + 1..]
  }

  lemma RemoveAtKeepsKeysDistinct<T, K>(a: seq<T>, k: nat, key: T -> K)
    requires k < |a| && KeysDistinct(a, key)
    ensures KeysDistinct(RemoveAt(a, k), key)
  {
    var r := RemoveAt(a, k);
    forall i, j | 0 <= i < j < |r|
      ensures key(r[i]) != key(r[j])
    {
      var i0 := if i < k then i else i + 1;
      var j0 := if j < k then j else j + 1;
      assert r[i] == a[i0] && r[j] == a[j0] && i0 < j0;
    }
  }
}
