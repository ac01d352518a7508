/**
  In-place sorting. `ExchangeSort` is the exchange sort the operator writes out by
  hand for prefixes and role names; with a byte order on keys it also stands for the
  library calls `sort.Strings` and `sort.Slice`, of whose result only what its
  contract says is used.
 */
module Sorting {
  import opened Strings

  /** A total preorder: what a comparison function handed to a sort must be. */
  ghost predicate TotalPreorder<T(!new)>(leq: (T, T) -> bool) {
    && (forall x, y :: leq(x, y) || leq(y, x))
    && (forall x, y, z :: leq(x, y) && leq(y, z) ==> leq(x, z))
  }

  ghost predicate Antisymmetric<T(!new)>(leq: (T, T) -> bool) {
    forall x, y :: leq(x, y) && leq(y, x) ==> x == y
  }

  ghost predicate Sorted<T>(s: seq<T>, leq: (T, T) -> bool) {
    forall i, j :: 0 <= i < j < |s| ==> leq(s[i], s[j])
  }

  /** The byte order of strings is an order a sort may use. */
  lemma LeqIsOrder()
    ensures TotalPreorder(Leq) && Antisymmetric(Leq)
  {
    forall x, y ensures Leq(x, y) || Leq(y, x) { LeqTotal(x, y); }
    forall x, y | Leq(x, y) && Leq(y, x) ensures x == y { LeqAntisymmetric(x, y); }
    forall x, y, z | Leq(x, y) && Leq(y, z) ensures Leq(x, z) { LeqTransitive(x, y, z); }
  }

  method ExchangeSort<T(!new)>(a: array<T>, leq: (T, T) -> bool)
    requires TotalPreorder(leq)
    modifies a
    ensures Sorted(a[..], leq)
    ensures multiset(a[..]) == multiset(old(a[..]))
    ensures forall x :: x in a[..] <==> x in old(a[..])
  {
    var i := 0;
    while i < a.Length
      invariant 0 <= i <= a.Length
      invariant forall k, l :: 0 <= k < i && k < l < a.Length ==> leq(a[k], a[l])
      invariant multiset(a[..]) == multiset(old(a[..]))
    {
      var j := i + 1;
      while j < a.Length
        invariant i + 1 <= j <= a.Length
        invariant forall k, l :: 0 <= k < i && k < l < a.Length ==> leq(a[k], a[l])
        invariant forall l :: i <= l < j ==> leq(a[i], a[l])
        invariant multiset(a[..]) == multiset(old(a[..]))
      {
        if !leq(a[i], a[j]) {
          Swap(a, i, j);
        }
        j := j + 1;
      }
      i := i + 1;
    }
    forall x ensures x in a[..] <==> x in old(a[..]) {
      SameElements(a[..], old(a[..]), x);
    }
  }

  lemma SameElements<T>(s: seq<T>, t: seq<T>, x: T)
    requires multiset(s) == multiset(t)
    ensures x in s <==> x in t
  {
    assert x in s <==> x in multiset(s);
    assert x in t <==> x in multiset(t);
  }

  method Swap<T>(a: array<T>, i: int, j: int)
    requires 0 <= i < j < a.Length
    modifies a
    ensures a[i] == old(a[j]) && a[j] == old(a[i])
    ensures forall k :: 0 <= k < a.Length && k != i && k != j ==> a[k] == old(a[k])
    ensures multiset(a[..]) == multiset(old(a[..]))
  {
    a[i], a[j] := a[j], a[i];
  }

  lemma FirstIsLeast<T(!new)>(s: seq<T>, x: T, leq: (T, T) -> bool)
    requires TotalPreorder(leq) && Sorted(s, leq) && x in s
    ensures leq(s[0], x)
  {
    assert leq(x, x);
  }

  lemma SameFirst<T(!new)>(a: seq<T>, b: seq<T>, leq: (T, T) -> bool)
    requires TotalPreorder(leq) && Antisymmetric(leq) && Sorted(a, leq) && Sorted(b, leq)
    requires a != [] && b != [] && multiset(a) == multiset(b)
    ensures a[0] == b[0]
  {
    hide TotalPreorder, Sorted;
    assert a[0] in multiset(b) && b[0] in multiset(a);
    FirstIsLeast(a, b[0], leq);
    FirstIsLeast(b, a[0], leq);
  }

  lemma SortedTail<T(!new)>(s: seq<T>, leq: (T, T) -> bool)
    requires s != [] && Sorted(s, leq)
    ensures Sorted(s[1..], leq) && multiset(s[1..]) == multiset(s) - multiset{s[0]}
  {
    assert s == [s[0]] + s[1..];
  }

  /** A sorted rearrangement under an antisymmetric order is unique. */
  lemma {:induction false} SortedUnique<T(!new)>(a: seq<T>, b: seq<T>, leq: (T, T) -> bool)
    requires TotalPreorder(leq) && Antisymmetric(leq)
    requires Sorted(a, leq) && Sorted(b, leq)
    requires multiset(a) == multiset(b)
    ensures a == b
  {
    hide TotalPreorder, Antisymmetric, Sorted;
    assert |multiset(a)| == |multiset(b)|;
    if a == [] {
    } else {
      SameFirst(a, b, leq);
      SortedTail(a, leq);
      SortedTail(b, leq);
      SortedUnique(a[1..], b[1..], leq);
      assert a == [a[0]] + a[1..] && b == [b[0]] + b[1..];
    }
  }
}
