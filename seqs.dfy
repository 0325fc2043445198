/**
 * The array idioms the blog's JavaScript leans on, as functions on sequences:
 * `filter`, `flatMap` over lists, and `Array.from(new Set(xs))`.
 */
module Seqs {
  import opened Wrappers

  predicate NoDuplicates<T(==)>(s: seq<T>) {
    forall i, j :: 0 <= i < j < |s| ==> s[i] != s[j]
  }

  /** `s.filter(f)`: the elements that satisfy `f`, in their original order. */
  function Filter<T(!new)>(s: seq<T>, f: T -> bool): (r: seq<T>)
    ensures |r| <= |s|
    ensures forall i :: 0 <= i < |r| ==> f(r[i])
    ensures forall x :: x in r <==> x in s && f(x)
  {
    if s == [] then [] else (if f(s[0]) then [s[0]] else []) + Filter(s[1..], f)
  }

  /** Filtering with a condition every element meets changes nothing. */
  lemma {:induction false} FilterKeepsAll<T(!new)>(s: seq<T>, f: T -> bool)
    requires forall i :: 0 <= i < |s| ==> f(s[i])
    ensures Filter(s, f) == s
  {
    if s != [] {
      FilterKeepsAll(s[1..], f);
      assert s == [s[0]] + s[1..];
    }
  }

  /** Two filters in a row are one filter by the conjunction of their conditions. */
  lemma {:induction false} FilterTwice<T(!new)>(s: seq<T>, f: T -> bool, g: T -> bool, h: T -> bool)
    requires forall x :: h(x) == (f(x) && g(x))
    ensures Filter(Filter(s, f), g) == Filter(s, h)
  {
    if s != [] {
      FilterTwice(s[1..], f, g, h);
      if f(s[0]) {
        assert Filter(s, f) == [s[0]] + Filter(s[1..], f);
        assert ([s[0]] + Filter(s[1..], f))[1..] == Filter(s[1..], f);
      } else {
        assert Filter(s, f) == Filter(s[1..], f);
      }
    }
  }

  /** The concatenation of a list of lists, as `flatMap` builds it. */
  function Flatten<T>(xss: seq<seq<T>>): (r: seq<T>)
    ensures |xss| == 0 ==> r == []
  {
    if xss == [] then [] else xss[0] + Flatten(xss[1..])
  }

  /** Exactly the elements of the inner lists are in the flattening. */
  lemma {:induction false} InFlatten<T>(xss: seq<seq<T>>, x: T)
    ensures x in Flatten(xss) <==> exists i :: 0 <= i < |xss| && x in xss[i]
  {
    if xss != [] {
      InFlatten(xss[1..], x);
      if x in Flatten(xss[1..]) {
        var i :| 0 <= i < |xss[1..]| && x in xss[1..][i];
        assert x in xss[i + 1];
      }
      if exists i :: 0 <= i < |xss| && x in xss[i] {
        var i :| 0 <= i < |xss| && x in xss[i];
        if i > 0 {
          assert x in xss[1..][i - 1];
        }
      }
    }
  }

  /** The position of the first occurrence of `x` in `s`. */
  function IndexOf<T(==)>(s: seq<T>, x: T): (k: nat)
    requires x in s
    ensures k < |s| && s[k] == x && x !in s[..k]
  {
    if s[0] == x then 0 else 1 + IndexOf(s[1..], x)
  }

  lemma {:induction false} IndexOfPrefix<T>(s: seq<T>, n: nat, x: T)
    requires n <= |s| && x in s[..n]
    ensures IndexOf(s, x) == IndexOf(s[..n], x)
  {
    if s[0] != x {
      assert s[..n][1..] == s[1..][..n - 1];
      IndexOfPrefix(s[1..], n - 1, x);
    }
  }

  /** `Array.from(new Set(xs))`: each value once, at the place where it first occurs. */
  function Distinct<T(==,!new)>(xs: seq<T>): (r: seq<T>)
    ensures NoDuplicates(r)
    ensures forall x :: x in r <==> x in xs
  {
    if xs == [] then []
    else
      var d := Distinct(xs[..|xs| - 1]);
      var last := xs[|xs| - 1];
      assert forall x :: x in xs <==> x in xs[..|xs| - 1] || x == last by {
        assert xs == xs[..|xs| - 1] + [last];
      }
      if last in d then d else d + [last]
  }

  /** The values of a `Set` come out in order of first appearance. */
  lemma {:induction false} DistinctFirstAppearanceOrder<T(!new)>(xs: seq<T>)
    ensures forall i, j :: 0 <= i < j < |Distinct(xs)| ==> IndexOf(xs, Distinct(xs)[i]) < IndexOf(xs, Distinct(xs)[j])
  {
    if xs != [] {
      var n := |xs| - 1;
      var pre := xs[..n];
      var d := Distinct(pre);
      DistinctFirstAppearanceOrder(pre);
      PrefixIndices(xs, n, d);
      var r := Distinct(xs);
      if xs[n] !in d {
        LastIndex(xs);
        assert r == d + [xs[n]];
        forall i, j | 0 <= i < j < |r| ensures IndexOf(xs, r[i]) < IndexOf(xs, r[j]) {
          assert r[i] == d[i];
          if j < |d| {
            assert r[j] == d[j];
          }
        }
      } else {
        assert r == d;
      }
    }
  }

  /** Values met in the first `n` elements keep their first position, which lies below `n`. */
  lemma PrefixIndices<T>(xs: seq<T>, n: nat, d: seq<T>)
    requires n <= |xs|
    requires forall x :: x in d ==> x in xs[..n]
    ensures forall x :: x in d ==> IndexOf(xs, x) == IndexOf(xs[..n], x) < n
  {
    forall x | x in d ensures IndexOf(xs, x) == IndexOf(xs[..n], x) < n {
      IndexOfPrefix(xs, n, x);
    }
  }

  /** A last element that did not occur before first occurs at the end. */
  lemma LastIndex<T>(xs: seq<T>)
    requires xs != [] && xs[|xs| - 1] !in xs[..|xs| - 1]
    ensures IndexOf(xs, xs[|xs| - 1]) == |xs| - 1
  {
  }

  /** The number of times `x` occurs in `s` is at most one when `s` has no duplicates. */
  lemma {:induction false} NoDuplicatesCount<T>(s: seq<T>, x: T)
    requires NoDuplicates(s)
    ensures multiset(s)[x] <= 1
  {
    if s != [] {
      assert s == [s[0]] + s[1..];
      NoDuplicatesCount(s[1..], x);
      if s[0] == x {
        assert x !in s[1..];
      }
    }
  }

  /** A rearrangement of a list without duplicates has no duplicates either. */
  lemma PermutationNoDuplicates<T>(a: seq<T>, b: seq<T>)
    requires multiset(a) == multiset(b) && NoDuplicates(a)
    ensures NoDuplicates(b)
  {
    forall i, j | 0 <= i < j < |b| ensures b[i] != b[j] {
      if b[i] == b[j] {
        var x := b[i];
        assert b == b[..j] + b[j..];
        assert x in b[..j] && x in b[j..];
        assert multiset(b)[x] == multiset(b[..j])[x] + multiset(b[j..])[x];
        NoDuplicatesCount(a, x);
        assert false;
      }
    }
  }

  /** `s.filter(f)[0]`: the head of the filtered list, `None` (undefined) when it is empty. */
  function FirstWhere<T(!new)>(s: seq<T>, f: T -> bool): (r: Option<T>)
    ensures r.None? <==> forall i :: 0 <= i < |s| ==> !f(s[i])
    ensures r.Some? ==> exists k :: 0 <= k < |s| && s[k] == r.value && f(s[k]) && forall i :: 0 <= i < k ==> !f(s[i])
  {
    var kept := Filter(s, f);
    FilterEmpty(s, f);
    if kept == [] then None
    else
      FilterHead(s, f);
      Some(kept[0])
  }

  /** A filter leaves nothing exactly when no element passes it. */
  lemma FilterEmpty<T(!new)>(s: seq<T>, f: T -> bool)
    ensures Filter(s, f) == [] <==> forall i :: 0 <= i < |s| ==> !f(s[i])
  {
    if Filter(s, f) != [] {
      assert Filter(s, f)[0] in Filter(s, f);
    } else {
      forall i | 0 <= i < |s| ensures !f(s[i]) {
        assert s[i] in s;
      }
    }
  }

  /** The head of a filtered list is the first element that passes the filter. */
  lemma {:induction false} FilterHead<T(!new)>(s: seq<T>, f: T -> bool)
    requires Filter(s, f) != []
    ensures exists k :: 0 <= k < |s| && s[k] == Filter(s, f)[0] && f(s[k]) && forall i :: 0 <= i < k ==> !f(s[i])
  {
    if f(s[0]) {
      assert Filter(s, f)[0] == s[0];
    } else {
      assert Filter(s, f) == Filter(s[1..], f);
      FilterHead(s[1..], f);
      var k :| 0 <= k < |s[1..]| && s[1..][k] == Filter(s, f)[0] && f(s[1..][k])
               && forall i :: 0 <= i < k ==> !f(s[1..][i]);
      assert s[k + 1] == Filter(s, f)[0];
      forall i | 0 <= i < k + 1 ensures !f(s[i]) {
        if i > 0 {
          assert s[i] == s[1..][i - 1];
        }
      }
    }
  }

  /** Filtering keeps a list free of duplicates. */
  lemma {:induction false} FilterNoDuplicates<T(!new)>(s: seq<T>, f: T -> bool)
    requires NoDuplicates(s)
    ensures NoDuplicates(Filter(s, f))
  {
    if s != [] {
      FilterNoDuplicates(s[1..], f);
      forall k | 0 <= k < |s[1..]| ensures s[1..][k] != s[0] {
        assert s[1..][k] == s[k + 1];
      }
      assert s[0] !in Filter(s[1..], f);
    }
  }

  /** Filters by conditions that agree everywhere give the same list. */
  lemma {:induction false} FilterExt<T(!new)>(s: seq<T>, f: T -> bool, g: T -> bool)
    requires forall x :: f(x) == g(x)
    ensures Filter(s, f) == Filter(s, g)
  {
    if s != [] {
      FilterExt(s[1..], f, g);
    }
  }

  lemma AppendAssoc<T>(a: seq<T>, b: seq<T>, c: seq<T>)
    ensures a + b + c == a + (b + c)
  {
  }
}
