/**
  Editing the resource list of a kustomization file
  (network_policy_kustomization_simple.go): add or remove one path in the list, then
  sort, then drop duplicates.

  Main results: every result is strictly sorted, so edits are operations on a set; a
  removal on a list that was not written by the operator takes one copy only.
 */
module Kustomization {
  import opened Strings
  import opened Sorting

  ghost predicate StrictlySorted(s: seq<string>) {
    Sorted(s, Leq) && Distinct(s)
  }

  datatype Edit = Add(path: string) | Remove(path: string)

  /** What an edit keeps or brings: a path removed stays if it was listed more than once. */
  predicate Holds(resources: seq<string>, e: Edit, x: string) {
    match e
    case Add(path) => x in resources || x == path
    case Remove(path) => x in resources && (x != path || multiset(resources)[path] >= 2)
  }

  ghost predicate IsResult(result: seq<string>, resources: seq<string>, e: Edit) {
    StrictlySorted(result) && forall x :: x in result <==> Holds(resources, e, x)
  }

  // ---------- the operator's method ----------

  method UpdateResources(resources: seq<string>, e: Edit) returns (result: seq<string>)
    ensures IsResult(result, resources, e)
  {
    var edited := Splice(resources, e);
    LeqIsOrder();
    var a := new string[|edited|](i requires 0 <= i < |edited| => edited[i]);
    assert a[..] == edited;
    ExchangeSort(a, Leq);
    result := Deduplicate(a[..]);
  }

  /** The first occurrence is found; it is cut out, or the path is appended if there is none. */
  method Splice(resources: seq<string>, e: Edit) returns (edited: seq<string>)
    ensures forall x :: x in edited <==> Holds(resources, e, x)
  {
    edited := resources;
    var found := false;
    for i := 0 to |resources|
      invariant !found && edited == resources
      invariant e.path !in resources[..i]
    {
      if resources[i] == e.path {
        found := true;
        if e.Remove? {
          edited := resources[..i] + resources[i + 1..];
          RemoveFirst(resources, i);
        }
        break;
      }
    }
    assert !found ==> resources[..|resources|] == resources;
    if e.Add? && !found {
      edited := edited + [e.path];
    }
  }

  lemma RemoveFirst(s: seq<string>, i: nat)
    requires i < |s|
    ensures var t := s[..i] + s[i + 1..];
            forall x :: x in t <==> x in s && (x != s[i] || multiset(s)[s[i]] >= 2)
  {
    var t := s[..i] + s[i + 1..];
    assert s == s[..i] + [s[i]] + s[i + 1..];
    assert multiset(s) == multiset(t) + multiset{s[i]};
    forall x
      ensures x in t <==> x in s && (x != s[i] || multiset(s)[s[i]] >= 2)
    {
      assert x in t <==> x in multiset(t);
    }
  }

  method Deduplicate(sorted: seq<string>) returns (unique: seq<string>)
    requires Sorted(sorted, Leq)
    ensures StrictlySorted(unique)
    ensures forall x :: x in unique <==> x in sorted
  {
    unique := [];
    var seen: map<string, bool> := map[];
    for i := 0 to |sorted|
      invariant forall x :: x in seen <==> x in sorted[..i]
      invariant forall x :: x in unique <==> x in sorted[..i]
      invariant StrictlySorted(unique)
    {
      var res := sorted[i];
      if res !in seen {
        seen := seen[res := true];
        forall k | 0 <= k < |unique|
          ensures Leq(unique[k], res) && unique[k] != res
        {
          assert unique[k] in unique;
        }
        unique := unique + [res];
      }
    }
    assert sorted[..|sorted|] == sorted;
  }

  // ---------- edits are set operations ----------

  /** A strictly sorted list is its set. */
  lemma StrictlySortedUnique(s: seq<string>, t: seq<string>)
    requires StrictlySorted(s) && StrictlySorted(t) && Elements(s) == Elements(t)
    ensures s == t
  {
    forall x: string
      ensures multiset(s)[x] == multiset(t)[x]
    {
      DistinctMultiset(s, x);
      DistinctMultiset(t, x);
      assert x in s <==> x in Elements(s);
      assert x in t <==> x in Elements(t);
    }
    LeqIsOrder();
    SortedUnique(s, t, Leq);
  }

  function Apply(s: set<string>, e: Edit): set<string> {
    match e
    case Add(path) => s + {path}
    case Remove(path) => s - {path}
  }

  function ApplyAll(s: set<string>, edits: seq<Edit>): set<string> {
    if edits == [] then s else Apply(ApplyAll(s, edits[..|edits| - 1]), edits[|edits| - 1])
  }

  /** On a list without repetitions, an edit is the set operation; on any list, adding is. */
  lemma EditRefinesSet(resources: seq<string>, e: Edit, result: seq<string>)
    requires IsResult(result, resources, e)
    requires e.Add? || multiset(resources)[e.path] <= 1
    ensures Elements(result) == Apply(Elements(resources), e)
  {
    forall x
      ensures x in Elements(result) <==> x in Apply(Elements(resources), e)
    {
      assert x in result <==> Holds(resources, e, x);
    }
  }

  /** A removal removes the path exactly if the list held it at most once. */
  lemma RemovalIsExact(resources: seq<string>, path: string, result: seq<string>)
    requires IsResult(result, resources, Remove(path))
    ensures path !in result <==> multiset(resources)[path] <= 1
  {
    assert path in result <==> Holds(resources, Remove(path), path);
  }

  /** `lists` is a history: each list the result of the next edit on the one before. */
  ghost predicate History(lists: seq<seq<string>>, edits: seq<Edit>) {
    && |lists| == |edits| + 1
    && forall i :: 0 <= i < |edits| ==> IsResult(lists[i + 1], lists[i], edits[i])
  }

  /** From a list the operator wrote, any history of edits is the run of set operations. */
  lemma {:induction false} HistoryRefinesSet(lists: seq<seq<string>>, edits: seq<Edit>)
    requires History(lists, edits) && StrictlySorted(lists[0])
    ensures StrictlySorted(lists[|edits|])
    ensures Elements(lists[|edits|]) == ApplyAll(Elements(lists[0]), edits)
  {
    if edits == [] {
    } else {
      var n := |edits| - 1;
      HistoryRefinesSet(lists[..n + 1], edits[..n]);
      assert IsResult(lists[n + 1], lists[n], edits[n]);
      DistinctMultiset(lists[n], edits[n].path);
      EditRefinesSet(lists[n], edits[n], lists[n + 1]);
    }
  }

  /** Adding a fresh path and removing it again restores the list, and so does the reverse on a listed one. */
  lemma AddRemoveUndo(lists: seq<seq<string>>, path: string)
    requires |lists| == 3 && StrictlySorted(lists[0])
    requires History(lists, if path in lists[0] then [Remove(path), Add(path)] else [Add(path), Remove(path)])
    ensures lists[2] == lists[0]
  {
    var edits := if path in lists[0] then [Remove(path), Add(path)] else [Add(path), Remove(path)];
    HistoryRefinesSet(lists, edits);
    assert edits[..1] == [edits[0]] && edits[..1][..0] == [];
    assert ApplyAll(Elements(lists[0]), edits) == Apply(Apply(Elements(lists[0]), edits[0]), edits[1]);
    assert Elements(lists[2]) == Elements(lists[0]);
    StrictlySortedUnique(lists[2], lists[0]);
  }
}
