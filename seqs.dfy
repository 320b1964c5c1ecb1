/** Sequence helpers for the engine's arrays: `$.each` searches and `splice(index, 1)`. */
module Seqs {
  import opened Wrappers

  /** Position of the first element equal to `x` (the `$.each` search that stops at the first match). */
  function IndexOf<T(==)>(s: seq<T>, x: T): (r: Option<nat>)
    ensures r.None? <==> x !in s
    ensures r.Some? ==> r.value < |s| && s[r.value] == x && x !in s[..r.value]
  {
    if s == [] then None
    else if s[0] == x then Some(0)
    else match IndexOf(s[1..], x)
      case None => None
      case Some(k) =>
        assert s[1..][..k] == s[1..k + 1];
        assert s[..k + 1] == [s[0]] + s[1..k + 1];
        Some(k + 1)
  }

  /** The first occurrence is the only position with `x` there and nowhere before. */
  lemma IndexOfUnique<T>(s: seq<T>, x: T, j: nat)
    requires j < |s| && s[j] == x && x !in s[..j]
    ensures IndexOf(s, x) == Some(j)
  {
  }

  /** The `$.each` search itself: walk the list and stop at the first element equal to `x`. */
  method Find<T(==)>(s: seq<T>, x: T) returns (r: Option<nat>)
    ensures r == IndexOf(s, x)
  {
    var i := 0;
    while i < |s|
      invariant 0 <= i <= |s|
      invariant x !in s[..i]
    {
      if s[i] == x {
        return Some(i);
      }
      assert s[..i + 1] == s[..i] + [s[i]];
      i := i + 1;
    }
    assert s[..i] == s;
    return None;
  }

  /** `splice(k, 1)`: drop the element at position `k`, keeping the order of the others. */
  function RemoveAt<T>(s: seq<T>, k: nat): (r: seq<T>)
    requires k < |s|
    ensures |r| == |s| - 1
    ensures forall i :: 0 <= i < k ==> r[i] == s[i]
    ensures forall i :: k <= i < |r| ==> r[i] == s[i + 1]
  {
    s[..k] + s[k + 1..]
  }

  /** Remove the first occurrence of `x`, or nothing when `x` does not occur. */
  function RemoveFirst<T(==)>(s: seq<T>, x: T): seq<T>
  {
    match IndexOf(s, x)
    case None => s
    case Some(k) => RemoveAt(s, k)
  }

  /** Removing the first occurrence takes exactly one copy of `x` out of the multiset and
      leaves every other element in its relative order. */
  lemma RemoveFirstSpec<T>(s: seq<T>, x: T)
    ensures x !in s ==> RemoveFirst(s, x) == s
    ensures x in s ==> multiset(RemoveFirst(s, x)) == multiset(s) - multiset{x}
    ensures x in s ==> exists k :: 0 <= k < |s| && s[k] == x && x !in s[..k] &&
                                  RemoveFirst(s, x) == s[..k] + s[k + 1..]
  {
    if x in s {
      var k := IndexOf(s, x).value;
      assert s == s[..k] + [x] + s[k + 1..];
      calc {
        multiset(s);
        multiset(s[..k]) + multiset{x} + multiset(s[k + 1..]);
        multiset(RemoveFirst(s, x)) + multiset{x};
      }
    }
  }

  /** An element other than `x` occurs in the result exactly when it occurs in `s`. */
  lemma RemoveFirstMembers<T>(s: seq<T>, x: T, y: T)
    requires y != x
    ensures y in RemoveFirst(s, x) <==> y in s
  {
    RemoveFirstSpec(s, x);
    if x in s {
      assert multiset(RemoveFirst(s, x))[y] == multiset(s)[y];
    }
  }

  /** Dropping a position before the end commutes with appending. */
  lemma RemoveAtAppend<T>(s: seq<T>, k: nat, t: seq<T>)
    requires k < |s|
    ensures RemoveAt(s, k) + t == RemoveAt(s + t, k)
    ensures (s + t)[k] == s[k]
  {
    assert s[..k] == (s + t)[..k];
    assert s[k + 1..] + t == (s + t)[k + 1..];
  }
}
