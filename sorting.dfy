/**
 * `Array.prototype.sort` with a "newest first" comparator, as both the post
 * reader and the social feed use it. Only what every correct sort promises is
 * stated: the result is a rearrangement of the input and no element is strictly
 * below a later one. The order among ties is left open, because the source's
 * comparators do not fix it.
 */
module Sorting {

  /** `lt(x, y)`: `x` ranks strictly below `y`. A strict weak order: asymmetric,
      and "not below" chains. */
  ghost predicate StrictWeakOrder<T(!new)>(lt: (T, T) -> bool) {
    && (forall x, y :: lt(x, y) ==> !lt(y, x))
    && (forall x, y, z :: !lt(x, y) && !lt(y, z) ==> !lt(x, z))
  }

  /** Non-increasing: no element ranks strictly below an element after it. */
  ghost predicate Descending<T>(s: seq<T>, lt: (T, T) -> bool) {
    forall i, j :: 0 <= i < j < |s| ==> !lt(s[i], s[j])
  }

  /** Sorts `a` in place, highest rank first (insertion sort by adjacent swaps). */
  method SortInPlace<T(!new)>(a: array<T>, lt: (T, T) -> bool)
    requires StrictWeakOrder(lt)
    modifies a
    ensures Descending(a[..], lt)
    ensures multiset(a[..]) == old(multiset(a[..]))
  {
    var i := 0;
    while i < a.Length
      invariant 0 <= i <= a.Length
      invariant forall p, q :: 0 <= p < q < i ==> !lt(a[p], a[q])
      invariant multiset(a[..]) == old(multiset(a[..]))
    {
      Insert(a, i, lt);
      i := i + 1;
    }
  }

  /** Moves `a[i]` down into the descending prefix `a[..i]`, making `a[..i + 1]` descending. */
  method Insert<T(!new)>(a: array<T>, i: nat, lt: (T, T) -> bool)
    requires StrictWeakOrder(lt)
    requires i < a.Length
    requires forall p, q :: 0 <= p < q < i ==> !lt(a[p], a[q])
    modifies a
    ensures forall p, q :: 0 <= p < q <= i ==> !lt(a[p], a[q])
    ensures multiset(a[..i + 1]) == old(multiset(a[..i + 1]))
    ensures a[i + 1..] == old(a[i + 1..])
    ensures multiset(a[..]) == old(multiset(a[..]))
  {
    var j := i;
    while j > 0 && lt(a[j - 1], a[j])
      invariant 0 <= j <= i
      invariant forall p, q :: 0 <= p < q <= i && p != j && q != j ==> !lt(a[p], a[q])
      invariant forall q :: j < q <= i ==> lt(a[q], a[j])
      invariant multiset(a[..i + 1]) == old(multiset(a[..i + 1]))
      invariant a[i + 1..] == old(a[i + 1..])
    {
      a[j - 1], a[j] := a[j], a[j - 1];
      j := j - 1;
    }
    assert a[..] == a[..i + 1] + a[i + 1..];
    assert old(a[..]) == old(a[..i + 1]) + old(a[i + 1..]);
  }

  /** Sorts a copy of `s`, highest rank first. */
  method SortDescending<T(!new)>(s: seq<T>, lt: (T, T) -> bool) returns (r: seq<T>)
    requires StrictWeakOrder(lt)
    ensures multiset(r) == multiset(s)
    ensures |r| == |s|
    ensures Descending(r, lt)
  {
    var a := new T[|s|](i requires 0 <= i < |s| => s[i]);
    assert a[..] == s;
    SortInPlace(a, lt);
    r := a[..];
    assert |r| == |multiset(r)| == |multiset(s)| == |s|;
  }
}
