/**
  The operator's calls one by one. Most writes are checked by the API server against the
  version that was read, or fail if the object exists, so reading, judging and writing are
  one step. Three are not: the purge deletes what it judged in a list, the recreation of an
  account's RoleBinding deletes what it judged when it read it, and the cleanup of a
  deleted CR reads a listed namespace again and marks it without judging it again. Other
  CRs may act between the judgement and the write.

  Main results: a claim is safe from everything judged after it was made, in every
  interleaving of any number of operations; whatever was judged before, only a deletion of
  its key ends a claim on a RoleBinding, and only a mark a claim on a namespace. Which
  claims the three operations put in danger is the subject of module LateClaims.
 */
module Interleavings {
  import opened Strings
  import opened Cluster
  import opened Ownership
  import opened RoleBindings
  import opened ConfigMap
  import opened ConfigMapPass
  import opened Cleanup
  import opened ServiceAccounts
  import opened Runs

  // ---------- moves ----------

  datatype Move =
    | Act(action: Action)                                                      // an operation with nobody in between
    | Drop(owner: Owner, key: Key)                                             // a deletion, whatever is there
    | MarkNs(owner: Owner, name: string, now: NonEmpty)                        // read afresh and marked
    | MarkRb(owner: Owner, key: Key, seen: RoleBinding, now: NonEmpty)         // marked, if still as listed
    | Make(owner: Owner, op: Operator, entry: Entry)                           // created, if not there

  function Mover(m: Move): Owner {
    if m.Act? then m.action.owner else m.owner
  }

  function Advance(s: State, m: Move): State {
    match m
    case Act(a) => Step(s, a)
    case Drop(_, k) => Without(s, {k})
    case MarkNs(_, n, now) => MarkNamespace(s, n, now)
    case MarkRb(_, k, seen, now) => MarkBinding(s, k, seen, now)
    case Make(o, op, e) =>
      if e.BindingKey() in s.roleBindings then s else WithBinding(s, e.BindingKey(), NewBinding(e, op, o))
  }

  function Interleave(s: State, moves: seq<Move>): State {
    if moves == [] then s else Advance(Interleave(s, moves[..|moves| - 1]), moves[|moves| - 1])
  }

  lemma InterleaveOneMore(s: State, moves: seq<Move>, m: Move)
    ensures Interleave(s, moves + [m]) == Advance(Interleave(s, moves), m)
  {
    assert (moves + [m])[..|moves|] == moves;
  }

  lemma {:induction false} InterleaveConcat(s: State, before: seq<Move>, after: seq<Move>)
    ensures Interleave(s, before + after) == Interleave(Interleave(s, before), after)
  {
    if after == [] {
      assert before + after == before;
    } else {
      var n := |after| - 1;
      assert (before + after)[..|before + after| - 1] == before + after[..n];
      InterleaveConcat(s, before, after[..n]);
    }
  }

  ghost predicate ByOthers(moves: seq<Move>, o: Owner) {
    forall m :: m in moves ==> Mover(m) != o
  }

  // ---------- judgements ----------

  /** What the mover saw in state `s` entitles it to the move. */
  predicate Judged(s: State, m: Move) {
    match m
    case Drop(o, k) => k in s.roleBindings && CanTakeOwnership(s.roleBindings[k].annotations, o)
    case MarkNs(o, n, _) => n in s.namespaces && IsOwnedBy(s.namespaces[n].annotations, o)
    case MarkRb(o, k, seen, _) => k in s.roleBindings && s.roleBindings[k] == seen && IsOwnedBy(seen.annotations, o)
    case _ => true
  }

  ghost predicate WarrantedAt(s: State, moves: seq<Move>, i: nat)
    requires i < |moves|
  {
    exists j :: 0 <= j <= i && Judged(Interleave(s, moves[..j]), moves[i])
  }

  /** Every move was judged somewhere in these moves, at the latest when it is made. */
  ghost predicate Warranted(s: State, moves: seq<Move>) {
    forall i :: 0 <= i < |moves| ==> WarrantedAt(s, moves, i)
  }

  lemma AllJudgedAtStart(s: State, moves: seq<Move>)
    requires forall m :: m in moves ==> Judged(s, m)
    ensures Warranted(s, moves)
  {
    forall i | 0 <= i < |moves|
      ensures WarrantedAt(s, moves, i)
    {
      assert moves[..0] == [] && moves[i] in moves;
      assert Judged(Interleave(s, moves[..0]), moves[i]);
    }
  }

  // ---------- first owner wins ----------

  /** A move judged while the claim held, and made while it holds, leaves the object alone. */
  lemma MoveKeepsBinding(q: State, p: State, m: Move, k: Key, o: Owner)
    requires ClaimsBinding(q, k, o) && ClaimsBinding(p, k, o) && Mover(m) != o && Judged(q, m)
    ensures SameBinding(p, Advance(p, m), k)
  {
    hide Step, NewBinding;
    LiveClaimExcludesOthers(q.roleBindings[k].annotations, o, Mover(m));
    match m
    case Act(a) => ForeignStepKeepsBinding(p, a, k, o);
    case Drop(_, _) =>
    case MarkNs(_, _, _) =>
    case MarkRb(_, _, _, _) =>
    case Make(_, _, _) =>
  }

  lemma MoveKeepsNamespace(q: State, p: State, m: Move, n: string, o: Owner)
    requires ClaimsNamespace(q, n, o) && ClaimsNamespace(p, n, o) && Mover(m) != o && Judged(q, m)
    ensures SameNamespace(p, Advance(p, m), n)
  {
    hide Step, NewBinding;
    LiveClaimExcludesOthers(q.namespaces[n].annotations, o, Mover(m));
    match m
    case Act(a) => ForeignStepKeepsNamespace(p, a, n, o);
    case Drop(_, _) =>
    case MarkNs(_, _, _) =>
    case MarkRb(_, _, _, _) =>
    case Make(_, _, _) =>
  }

  lemma {:induction false} BindingKept(s: State, moves: seq<Move>, n: nat, k: Key, o: Owner)
    requires ClaimsBinding(s, k, o) && ByOthers(moves, o) && Warranted(s, moves) && n <= |moves|
    ensures SameBinding(s, Interleave(s, moves[..n]), k)
  {
    hide Advance, Judged;
    if n == 0 {
      assert moves[..0] == [];
    } else {
      var m := moves[n - 1];
      assert WarrantedAt(s, moves, n - 1) && m in moves;
      var j :| 0 <= j <= n - 1 && Judged(Interleave(s, moves[..j]), m);
      BindingKept(s, moves, j, k, o);
      BindingKept(s, moves, n - 1, k, o);
      assert moves[..n][..n - 1] == moves[..n - 1];
      MoveKeepsBinding(Interleave(s, moves[..j]), Interleave(s, moves[..n - 1]), m, k, o);
    }
  }

  lemma {:induction false} NamespaceKept(s: State, moves: seq<Move>, i: nat, n: string, o: Owner)
    requires ClaimsNamespace(s, n, o) && ByOthers(moves, o) && Warranted(s, moves) && i <= |moves|
    ensures SameNamespace(s, Interleave(s, moves[..i]), n)
  {
    hide Advance, Judged;
    if i == 0 {
      assert moves[..0] == [];
    } else {
      var m := moves[i - 1];
      assert WarrantedAt(s, moves, i - 1) && m in moves;
      var j :| 0 <= j <= i - 1 && Judged(Interleave(s, moves[..j]), m);
      NamespaceKept(s, moves, j, n, o);
      NamespaceKept(s, moves, i - 1, n, o);
      assert moves[..i][..i - 1] == moves[..i - 1];
      MoveKeepsNamespace(Interleave(s, moves[..j]), Interleave(s, moves[..i - 1]), m, n, o);
    }
  }

  /**
    First owner wins, call by call: while an object carries a live, fully stamped claim of
    `o`, no interleaving of others' operations that judge after the claim was made changes
    anything about it, however many of them are under way at once.
   */
  lemma FirstOwnerWins(s: State, moves: seq<Move>, o: Owner)
    requires ByOthers(moves, o) && Warranted(s, moves)
    ensures forall k :: ClaimsBinding(s, k, o) ==> SameBinding(s, Interleave(s, moves), k)
    ensures forall n :: ClaimsNamespace(s, n, o) ==> SameNamespace(s, Interleave(s, moves), n)
  {
    hide Interleave, Warranted;
    assert moves[..|moves|] == moves;
    forall k | ClaimsBinding(s, k, o)
      ensures SameBinding(s, Interleave(s, moves), k)
    {
      BindingKept(s, moves, |moves|, k, o);
    }
    forall n | ClaimsNamespace(s, n, o)
      ensures SameNamespace(s, Interleave(s, moves), n)
    {
      NamespaceKept(s, moves, |moves|, n, o);
    }
  }

  // ---------- handing over ----------

  lemma OwnMoveBinding(p: State, m: Move, k: Key, o: Owner)
    requires ClaimsBinding(p, k, o) && Mover(m) == o
    ensures ClaimsBinding(Advance(p, m), k, o) || BindingGivenUp(Advance(p, m), k, o)
    ensures m.MarkNs? || m.Make? ==> ClaimsBinding(Advance(p, m), k, o)
  {
    hide Step, NewBinding;
    if m.Act? {
      OwnStepBinding(p, m.action, k, o);
    }
  }

  lemma OwnMoveNamespace(p: State, m: Move, n: string, o: Owner)
    requires ClaimsNamespace(p, n, o) && Mover(m) == o
    ensures || ClaimsNamespace(Advance(p, m), n, o)
            || (NamespaceGivenUp(Advance(p, m), n, o) && (m.MarkNs? || (m.Act? && m.action.OrphanAll?)))
  {
    hide Step, NewBinding;
    if m.Act? {
      OwnStepNamespace(p, m.action, n, o);
    }
  }

  lemma FirstLoss(s: State, moves: seq<Move>, k: Key, o: Owner) returns (i: nat)
    requires ClaimsBinding(s, k, o) && !ClaimsBinding(Interleave(s, moves), k, o)
    ensures i < |moves| && !ClaimsBinding(Interleave(s, moves[..i + 1]), k, o)
    ensures forall j :: 0 <= j <= i ==> ClaimsBinding(Interleave(s, moves[..j]), k, o)
  {
    hide Advance, ClaimsBinding;
    assert moves[..0] == [] && moves[..|moves|] == moves;
    i := 0;
    while ClaimsBinding(Interleave(s, moves[..i + 1]), k, o)
      invariant i < |moves|
      invariant forall j :: 0 <= j <= i ==> ClaimsBinding(Interleave(s, moves[..j]), k, o)
      decreases |moves| - i
    {
      i := i + 1;
    }
  }

  lemma FirstLossNs(s: State, moves: seq<Move>, n: string, o: Owner) returns (i: nat)
    requires ClaimsNamespace(s, n, o) && !ClaimsNamespace(Interleave(s, moves), n, o)
    ensures i < |moves| && !ClaimsNamespace(Interleave(s, moves[..i + 1]), n, o)
    ensures forall j :: 0 <= j <= i ==> ClaimsNamespace(Interleave(s, moves[..j]), n, o)
  {
    hide Advance, ClaimsNamespace;
    assert moves[..0] == [] && moves[..|moves|] == moves;
    i := 0;
    while ClaimsNamespace(Interleave(s, moves[..i + 1]), n, o)
      invariant i < |moves|
      invariant forall j :: 0 <= j <= i ==> ClaimsNamespace(Interleave(s, moves[..j]), n, o)
      decreases |moves| - i
    {
      i := i + 1;
    }
  }

  /** If a claim is lost in moves judged since it was made, its owner itself gave it up first. */
  lemma HandoverNeeded(s: State, moves: seq<Move>, k: Key, o: Owner) returns (i: nat)
    requires ClaimsBinding(s, k, o) && !ClaimsBinding(Interleave(s, moves), k, o) && Warranted(s, moves)
    ensures i < |moves| && Mover(moves[i]) == o && !moves[i].MarkNs? && !moves[i].Make?
    ensures ClaimsBinding(Interleave(s, moves[..i]), k, o) && BindingGivenUp(Interleave(s, moves[..i + 1]), k, o)
  {
    hide Advance, Judged;
    i := FirstLoss(s, moves, k, o);
    assert moves[..i + 1][..i] == moves[..i];
    var p := Interleave(s, moves[..i]);
    if Mover(moves[i]) != o {
      assert WarrantedAt(s, moves, i);
      var j :| 0 <= j <= i && Judged(Interleave(s, moves[..j]), moves[i]);
      MoveKeepsBinding(Interleave(s, moves[..j]), p, moves[i], k, o);
    } else {
      OwnMoveBinding(p, moves[i], k, o);
    }
  }

  lemma NamespaceHandoverNeeded(s: State, moves: seq<Move>, n: string, o: Owner) returns (i: nat)
    requires ClaimsNamespace(s, n, o) && !ClaimsNamespace(Interleave(s, moves), n, o) && Warranted(s, moves)
    ensures i < |moves| && Mover(moves[i]) == o && (moves[i].MarkNs? || (moves[i].Act? && moves[i].action.OrphanAll?))
    ensures ClaimsNamespace(Interleave(s, moves[..i]), n, o) && NamespaceGivenUp(Interleave(s, moves[..i + 1]), n, o)
  {
    hide Advance, Judged;
    i := FirstLossNs(s, moves, n, o);
    assert moves[..i + 1][..i] == moves[..i];
    var p := Interleave(s, moves[..i]);
    if Mover(moves[i]) != o {
      assert WarrantedAt(s, moves, i);
      var j :| 0 <= j <= i && Judged(Interleave(s, moves[..j]), moves[i]);
      MoveKeepsNamespace(Interleave(s, moves[..j]), p, moves[i], n, o);
    } else {
      OwnMoveNamespace(p, moves[i], n, o);
    }
  }

  // ---------- which writes end a claim ----------

  /** Not made by `o`, and if it marks a RoleBinding as listed, listed as its mover's own. */
  predicate Foreign(m: Move, o: Owner) {
    match m
    case Act(a) => a.owner != o
    case Make(owner, _, _) => owner != o
    case MarkRb(owner, _, seen, _) => owner != o && IsOwnedBy(seen.annotations, owner)
    case _ => true
  }

  lemma ForeignMoveBinding(p: State, m: Move, k: Key, o: Owner)
    requires Foreign(m, o)
    ensures ClaimsBinding(Advance(p, m), k, o) <==> ClaimsBinding(p, k, o) && !(m.Drop? && m.key == k)
    ensures ClaimsBinding(Advance(p, m), k, o) ==> SameBinding(p, Advance(p, m), k)
  {
    hide Step;
    if m.Act? {
      if ClaimsBinding(p, k, o) {
        ForeignStepKeepsBinding(p, m.action, k, o);
      } else {
        ForeignStepMakesNoClaim(p, m.action, k, o);
      }
    }
  }

  lemma ForeignMoveNamespace(p: State, m: Move, n: string, o: Owner)
    requires Foreign(m, o) && ClaimsNamespace(p, n, o)
    ensures SameNamespace(p, Advance(p, m), n) <==> !(m.MarkNs? && m.name == n)
  {
    hide Step, NewBinding;
    if m.Act? {
      ForeignStepKeepsNamespace(p, m.action, n, o);
    }
  }

  lemma ForeignMoveMakesNoClaim(p: State, m: Move, n: string, o: Owner)
    requires Foreign(m, o) && !ClaimsNamespace(p, n, o)
    ensures !ClaimsNamespace(Advance(p, m), n, o)
  {
    hide Step, NewBinding;
    if m.Act? {
      ForeignStepMakesNoNamespaceClaim(p, m.action, n, o);
    }
  }

  /** The same for namespaces, which a mark ends. */
  lemma {:induction false} NamespaceClaimOutlives(s: State, moves: seq<Move>, n: string, o: Owner)
    requires ClaimsNamespace(s, n, o) && forall m :: m in moves ==> Foreign(m, o)
    ensures ClaimsNamespace(Interleave(s, moves), n, o) <==> forall m :: m in moves && m.MarkNs? ==> m.name != n
    ensures ClaimsNamespace(Interleave(s, moves), n, o) ==> SameNamespace(s, Interleave(s, moves), n)
  {
    hide Advance, Foreign, ClaimsNamespace;
    if moves == [] {
    } else {
      var last := |moves| - 1;
      assert moves == moves[..last] + [moves[last]];
      NamespaceClaimOutlives(s, moves[..last], n, o);
      var p := Interleave(s, moves[..last]);
      if ClaimsNamespace(p, n, o) {
        ForeignMoveNamespace(p, moves[last], n, o);
        ClaimGoesWithObject(p, Advance(p, moves[last]), n, o, moves[last]);
      } else {
        ForeignMoveMakesNoClaim(p, moves[last], n, o);
      }
    }
  }

  lemma ClaimGoesWithObject(p: State, q: State, n: string, o: Owner, m: Move)
    requires ClaimsNamespace(p, n, o) && q == Advance(p, m)
    requires SameNamespace(p, q, n) <==> !(m.MarkNs? && m.name == n)
    ensures ClaimsNamespace(q, n, o) <==> SameNamespace(p, q, n)
  {
    hide Step, NewBinding;
  }

  /** Among others' moves, judged or not, a live claim is ended by a deletion of its key and by nothing else. */
  lemma {:induction false} ClaimOutlives(s: State, moves: seq<Move>, k: Key, o: Owner)
    requires ClaimsBinding(s, k, o) && forall m :: m in moves ==> Foreign(m, o)
    ensures ClaimsBinding(Interleave(s, moves), k, o) <==> forall m :: m in moves && m.Drop? ==> m.key != k
    ensures ClaimsBinding(Interleave(s, moves), k, o) ==> SameBinding(s, Interleave(s, moves), k)
  {
    hide Advance, Foreign, ClaimsBinding;
    if moves == [] {
    } else {
      var n := |moves| - 1;
      assert moves == moves[..n] + [moves[n]];
      ClaimOutlives(s, moves[..n], k, o);
      ForeignMoveBinding(Interleave(s, moves[..n]), moves[n], k, o);
    }
  }
}
