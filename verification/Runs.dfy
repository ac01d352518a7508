/**
  PermissionBinder CRs as competing owners: any number of CRs, reconciled by any number
  of operator instances, take the operator's steps on one cluster in any order, and any
  API call may fail.

  Here each step is a whole operation with nobody in between; what changes when the calls
  of several operations mix is the subject of module Interleavings.

  Main results: the first owner wins over every run; a claim passes on only after its
  owner gave it up; ServiceAccount RoleBindings stay out of every cleanup.
 */
module Runs {
  import opened Strings
  import opened Cluster
  import opened Ownership
  import opened RoleBindings
  import opened ConfigMap
  import opened Cleanup
  import opened ServiceAccounts
  import opened ConfigMapPass

  // ---------- steps and runs ----------

  datatype Action =
    | ClaimNs(op: Operator, owner: Owner, name: string, now: NonEmpty, api: Api)
    | BindGroup(op: Operator, owner: Owner, want: Want, now: NonEmpty, api: Api)
    | BindAccount(op: Operator, owner: Owner, entry: Entry, answer: AccountAnswer)
    | OrphanAll(op: Operator, owner: Owner, now: NonEmpty, orphanAnswers: OrphanAnswers)
    | PurgeObsolete(op: Operator, owner: Owner, spec: Spec, purgeAnswers: PurgeAnswers)

  function Step(s: State, a: Action): State {
    match a
    case ClaimNs(op, o, name, now, api) => EnsureNamespace(s, name, op, o, now, api).0
    case BindGroup(op, o, w, now, api) => Bind(s, w, op, o, now, api).0
    case BindAccount(op, o, e, answer) => ProcessEntry(s, e, op, o, answer).0
    case OrphanAll(op, o, now, answers) => Orphan(s, op, o, now, answers)
    case PurgeObsolete(op, o, spec, answers) => Purge(s, Context(op, o, spec), answers).0
  }

  function Run(s: State, run: seq<Action>): State {
    if run == [] then s else Step(Run(s, run[..|run| - 1]), run[|run| - 1])
  }

  ghost predicate RunBy(run: seq<Action>, o: Owner) {
    forall a :: a in run ==> a.owner == o
  }

  ghost predicate RunByOthers(run: seq<Action>, o: Owner) {
    forall a :: a in run ==> a.owner != o
  }

  lemma {:induction false} RunConcat(s: State, r1: seq<Action>, r2: seq<Action>)
    ensures Run(s, r1 + r2) == Run(Run(s, r1), r2)
  {
    if r2 == [] {
      assert r1 + r2 == r1;
    } else {
      assert (r1 + r2)[..|r1 + r2| - 1] == r1 + r2[..|r2| - 1];
      RunConcat(s, r1, r2[..|r2| - 1]);
    }
  }

  // ---------- passes are runs ----------

  /** A whitelist pass, whatever fails on the way, is a run of its CR's steps. */
  lemma {:induction false} PassIsRun(s: State, ws: Wants, x: Context, answers: Answers) returns (run: seq<Action>)
    ensures RunBy(run, x.owner) && Run(s, run) == ProcessWants(s, ws, x, answers).0
  {
    hide EnsureNamespace, Bind, ProcessEntry, Orphan, Purge;
    if ws == [] {
      run := [];
    } else {
      var n := |ws| - 1;
      run := PassIsRun(s, ws[..n], x, answers);
      if ws[n].Some? {
        var w := ws[n].value;
        var p := Run(s, run);
        var claim := ClaimNs(x.op, x.owner, w.namespace, answers(n).now, answers(n).namespaceApi);
        var ok := EnsureNamespace(p, w.namespace, x.op, x.owner, answers(n).now, answers(n).namespaceApi).1;
        var steps := [claim];
        assert Run(p, steps) == Step(p, claim) by { assert steps[..0] == []; }
        if ok {
          var bind := BindGroup(x.op, x.owner, w, answers(n).now, answers(n).bindingApi);
          assert (steps + [bind])[..1] == steps;
          steps := steps + [bind];
        }
        RunConcat(s, run, steps);
        run := run + steps;
      }
    }
  }

  lemma {:induction false} AccountsAreRun(s: State, namespace: string, names: seq<string>, x: Context,
                                          a: AccountAnswers)
    returns (run: seq<Action>)
    requires forall n :: n in names ==> n in x.spec.serviceAccountMapping
    ensures RunBy(run, x.owner) && Run(s, run) == ProcessNames(s, namespace, names, x, a).0
  {
    hide EnsureNamespace, Bind, ProcessEntry, Orphan, Purge;
    if names == [] {
      run := [];
    } else {
      var n := |names| - 1;
      run := AccountsAreRun(s, namespace, names[..n], x, a);
      if ProcessNames(s, namespace, names[..n], x, a).2 {
        var e := EntryFor(x, namespace, names[n]);
        var step := BindAccount(x.op, x.owner, e, a(e.BindingKey()));
        assert (run + [step])[..|run|] == run;
        run := run + [step];
      }
    }
  }

  lemma {:induction false} VisitsAreRun(s: State, visits: seq<Visit>, x: Context, a: AccountAnswers)
    returns (run: seq<Action>)
    requires Known(visits, x.spec.serviceAccountMapping)
    ensures RunBy(run, x.owner) && Run(s, run) == ProcessVisits(s, visits, x, a).0
  {
    hide ProcessNames;
    if visits == [] {
      run := [];
    } else {
      var n := |visits| - 1;
      run := VisitsAreRun(s, visits[..n], x, a);
      var more := AccountsAreRun(Run(s, run), visits[n].namespace, visits[n].names, x, a);
      RunConcat(s, run, more);
      run := run + more;
    }
  }

  // ---------- claims ----------

  predicate ClaimsBinding(s: State, k: Key, o: Owner) {
    k in s.roleBindings && LiveClaim(s.roleBindings[k].annotations, o)
  }

  predicate ClaimsNamespace(s: State, n: string, o: Owner) {
    n in s.namespaces && LiveClaim(s.namespaces[n].annotations, o)
  }

  lemma ForeignEntryKeepsBinding(s: State, e: Entry, op: Operator, owner: Owner, a: AccountAnswer, k: Key)
    requires k in s.roleBindings && !CanTakeOwnership(s.roleBindings[k].annotations, owner)
    ensures SameBinding(s, ProcessEntry(s, e, op, owner, a).0, k)
  {
    hide CanTakeOwnership, UpToDate, NewBinding;
  }

  lemma ForeignStepKeepsBinding(s: State, a: Action, k: Key, o: Owner)
    requires ClaimsBinding(s, k, o) && a.owner != o
    ensures SameBinding(s, Step(s, a), k)
  {
    LiveClaimExcludesOthers(s.roleBindings[k].annotations, o, a.owner);
    hide ProcessEntry, Overwrite, ClaimNamespace, CanTakeOwnership, IsOwnedBy, MarkOrphaned;
    match a
    case ClaimNs(_, _, _, _, _) =>
    case BindGroup(_, _, _, _, _) =>
    case BindAccount(op, owner, e, answer) => ForeignEntryKeepsBinding(s, e, op, owner, answer, k);
    case OrphanAll(_, _, _, _) =>
    case PurgeObsolete(_, _, _, _) =>
  }

  lemma ForeignStepKeepsNamespace(s: State, a: Action, n: string, o: Owner)
    requires ClaimsNamespace(s, n, o) && a.owner != o
    ensures SameNamespace(s, Step(s, a), n)
  {
    LiveClaimExcludesOthers(s.namespaces[n].annotations, o, a.owner);
  }

  /**
    First owner wins: while an object carries a live, fully stamped claim of `o`, no run
    of other CRs changes anything about it, whatever they do and in whatever order.
   */
  lemma {:induction false} FirstOwnerWins(s: State, run: seq<Action>, o: Owner)
    requires RunByOthers(run, o)
    ensures forall k :: ClaimsBinding(s, k, o) ==> SameBinding(s, Run(s, run), k)
    ensures forall n :: ClaimsNamespace(s, n, o) ==> SameNamespace(s, Run(s, run), n)
  {
    hide Step;
    if run == [] {
    } else {
      var init, last := run[..|run| - 1], run[|run| - 1];
      FirstOwnerWins(s, init, o);
      var p := Run(s, init);
      forall k | ClaimsBinding(s, k, o)
        ensures SameBinding(s, Run(s, run), k)
      {
        assert SameBinding(s, p, k);
        ForeignStepKeepsBinding(p, last, k, o);
      }
      forall n | ClaimsNamespace(s, n, o)
        ensures SameNamespace(s, Run(s, run), n)
      {
        assert SameNamespace(s, p, n);
        ForeignStepKeepsNamespace(p, last, n, o);
      }
    }
  }

  /** Given up: gone, or still stamped but marked as orphaned. */
  predicate BindingGivenUp(s: State, k: Key, o: Owner) {
    k in s.roleBindings ==>
      StampedBy(s.roleBindings[k].annotations, o) && Get(s.roleBindings[k].annotations, OrphanedAtKey) != ""
  }

  predicate NamespaceGivenUp(s: State, n: string, o: Owner) {
    && n in s.namespaces
    && StampedBy(s.namespaces[n].annotations, o) && Get(s.namespaces[n].annotations, OrphanedAtKey) != ""
  }

  lemma OwnEntryBinding(s: State, e: Entry, op: Operator, a: AccountAnswer, k: Key, o: Owner)
    requires ClaimsBinding(s, k, o)
    ensures var t := ProcessEntry(s, e, op, o, a).0; ClaimsBinding(t, k, o) || BindingGivenUp(t, k, o)
  {
    hide UpToDate;
  }

  lemma OwnStepBinding(s: State, a: Action, k: Key, o: Owner)
    requires ClaimsBinding(s, k, o) && a.owner == o
    ensures ClaimsBinding(Step(s, a), k, o) || BindingGivenUp(Step(s, a), k, o)
  {
    hide ProcessEntry, Overwrite, ClaimNamespace, BindingRefused, NamespaceRefused, ManagesBinding;
    match a
    case ClaimNs(_, _, _, _, _) =>
    case BindGroup(op, _, w, now, _) => OverwriteLooks(OldBinding(s, w.Key()), w, op, o, now);
    case BindAccount(op, _, e, answer) => OwnEntryBinding(s, e, op, answer, k, o);
    case OrphanAll(_, _, _, _) =>
    case PurgeObsolete(_, _, _, _) =>
  }

  lemma OwnStepNamespace(s: State, a: Action, n: string, o: Owner)
    requires ClaimsNamespace(s, n, o) && a.owner == o
    ensures ClaimsNamespace(Step(s, a), n, o) || (a.OrphanAll? && NamespaceGivenUp(Step(s, a), n, o))
  {
    match a
    case ClaimNs(_, _, _, _, _) => hide ProcessEntry, Bind, Orphan, Purge;
    case BindGroup(_, _, _, _, _) => hide ProcessEntry, EnsureNamespace, Orphan, Purge, Overwrite;
    case BindAccount(_, _, _, _) => hide Bind, EnsureNamespace, Orphan, Purge, UpToDate, BindingRefused;
    case OrphanAll(_, _, _, _) => hide Bind, EnsureNamespace, ProcessEntry, Purge;
    case PurgeObsolete(_, _, _, _) => hide Bind, EnsureNamespace, ProcessEntry, Orphan;
  }

  /**
    A RoleBinding leaves the hands of its stamped owner in no run without a step of that
    owner that deletes it or marks it as orphaned while it still holds the claim.
   */
  lemma {:induction false} TransferNeedsHandover(s: State, run: seq<Action>, k: Key, o: Owner) returns (i: nat)
    requires ClaimsBinding(s, k, o) && !ClaimsBinding(Run(s, run), k, o)
    ensures i < |run| && run[i].owner == o
    ensures ClaimsBinding(Run(s, run[..i]), k, o) && BindingGivenUp(Run(s, run[..i + 1]), k, o)
    ensures run[i].OrphanAll? || run[i].PurgeObsolete? || run[i].BindAccount?
  {
    hide Step;
    var n := |run| - 1;
    var p := Run(s, run[..n]);
    if ClaimsBinding(p, k, o) {
      i := n;
      assert run[..i + 1] == run;
      if run[n].owner != o {
        ForeignStepKeepsBinding(p, run[n], k, o);
      } else {
        OwnStepBinding(p, run[n], k, o);
        if run[n].ClaimNs? || run[n].BindGroup? {
          UpsertsKeepClaims(p, run[n], k, o);
        }
      }
    } else {
      i := TransferNeedsHandover(s, run[..n], k, o);
      assert run[..n][..i] == run[..i] && run[..n][..i + 1] == run[..i + 1];
    }
  }

  lemma UpsertsKeepClaims(s: State, a: Action, k: Key, o: Owner)
    requires ClaimsBinding(s, k, o) && a.owner == o && (a.ClaimNs? || a.BindGroup?)
    ensures ClaimsBinding(Step(s, a), k, o)
  {}

  /** Namespaces are never deleted, so there the owner must have orphaned it, by being deleted itself. */
  lemma {:induction false} NamespaceTransferNeedsOrphaning(s: State, run: seq<Action>, name: string, o: Owner)
    returns (i: nat)
    requires ClaimsNamespace(s, name, o) && !ClaimsNamespace(Run(s, run), name, o)
    ensures i < |run| && run[i].owner == o && run[i].OrphanAll?
    ensures ClaimsNamespace(Run(s, run[..i]), name, o) && NamespaceGivenUp(Run(s, run[..i + 1]), name, o)
  {
    hide Step;
    var n := |run| - 1;
    var p := Run(s, run[..n]);
    if ClaimsNamespace(p, name, o) {
      i := n;
      assert run[..i + 1] == run;
      if run[n].owner != o {
        ForeignStepKeepsNamespace(p, run[n], name, o);
      } else {
        OwnStepNamespace(p, run[n], name, o);
      }
    } else {
      i := NamespaceTransferNeedsOrphaning(s, run[..n], name, o);
      assert run[..n][..i] == run[..i] && run[..n][..i + 1] == run[..i + 1];
    }
  }

  // ---------- what no run ever does ----------

  lemma EntryNeverDeletes(s: State, e: Entry, op: Operator, o: Owner, a: AccountAnswer)
    ensures var t := ProcessEntry(s, e, op, o, a).0;
            && t.namespaces == s.namespaces
            && forall k :: k in s.serviceAccounts ==>
                 k in t.serviceAccounts && t.serviceAccounts[k] == s.serviceAccounts[k]
  {
    hide NewBinding, Restamped, BindingRefused, UpToDate, NewAccount;
  }

  lemma StepNeverDeletes(s: State, a: Action)
    ensures s.namespaces.Keys <= Step(s, a).namespaces.Keys
    ensures forall k :: k in s.serviceAccounts ==>
              k in Step(s, a).serviceAccounts && Step(s, a).serviceAccounts[k] == s.serviceAccounts[k]
  {
    hide ProcessEntry, Overwrite, ClaimNamespace, BindingRefused, NamespaceRefused, ManagesBinding;
    match a
    case ClaimNs(_, _, _, _, _) =>
    case BindGroup(_, _, _, _, _) =>
    case BindAccount(op, o, e, answer) => EntryNeverDeletes(s, e, op, o, answer);
    case OrphanAll(_, _, _, _) =>
    case PurgeObsolete(_, _, _, _) =>
  }

  /** Safe mode: no run deletes a namespace, and none touches a ServiceAccount that exists. */
  lemma {:induction false} RunNeverDeletes(s: State, run: seq<Action>)
    ensures s.namespaces.Keys <= Run(s, run).namespaces.Keys
    ensures forall k :: k in s.serviceAccounts ==>
              k in Run(s, run).serviceAccounts && Run(s, run).serviceAccounts[k] == s.serviceAccounts[k]
  {
    hide Step;
    if run == [] {
    } else {
      RunNeverDeletes(s, run[..|run| - 1]);
      StepNeverDeletes(Run(s, run[..|run| - 1]), run[|run| - 1]);
    }
  }

  predicate Unlabelled(s: State, k: Key) {
    k in s.roleBindings ==> ManagedByLabel !in s.roleBindings[k].labels
  }

  lemma BindKeepsUnlabelled(s: State, w: Want, op: Operator, o: Owner, now: NonEmpty, api: Api, namespace: string,
                            name: string)
    requires !AccountLike(namespace) && Unlabelled(s, AccountBindingKey(namespace, name))
    ensures Unlabelled(Bind(s, w, op, o, now, api).0, AccountBindingKey(namespace, name))
  {
    hide Overwrite, AccountLike;
    if w.Key() == AccountBindingKey(namespace, name) {
      CollisionMeansAccountLike(namespace, w.role, name);
    }
  }

  lemma EntryKeepsUnlabelled(s: State, e: Entry, op: Operator, o: Owner, a: AccountAnswer, k: Key)
    requires Unlabelled(s, k)
    ensures Unlabelled(ProcessEntry(s, e, op, o, a).0, k)
  {
    hide BindingRefused, UpToDate;
  }

  lemma StepKeepsUnlabelled(s: State, a: Action, namespace: string, name: string)
    requires !AccountLike(namespace) && Unlabelled(s, AccountBindingKey(namespace, name))
    ensures Unlabelled(Step(s, a), AccountBindingKey(namespace, name))
  {
    hide AccountLike, AccountBindingKey, ProcessEntry, Bind, Stamp;
    match a
    case ClaimNs(_, _, _, _, _) =>
    case BindGroup(op, o, w, now, api) => BindKeepsUnlabelled(s, w, op, o, now, api, namespace, name);
    case BindAccount(op, o, e, answer) => EntryKeepsUnlabelled(s, e, op, o, answer, AccountBindingKey(namespace, name));
    case OrphanAll(_, _, _, _) =>
    case PurgeObsolete(_, _, _, _) =>
  }

  /**
    Outside namespaces named "sa" or "sa-...", a ServiceAccount's RoleBinding never
    enters the set a cleanup lists, for any operator instance and any CR: it is never
    orphaned and never purged.
   */
  lemma {:induction false} AccountsNeverListed(s: State, run: seq<Action>, namespace: string, name: string,
                                               op: Operator, o: Owner)
    requires !AccountLike(namespace) && Unlabelled(s, AccountBindingKey(namespace, name))
    ensures Unlabelled(Run(s, run), AccountBindingKey(namespace, name))
    ensures !ManagesBinding(Run(s, run), AccountBindingKey(namespace, name), op, o)
  {
    hide Step;
    if run == [] {
    } else {
      AccountsNeverListed(s, run[..|run| - 1], namespace, name, op, o);
      StepKeepsUnlabelled(Run(s, run[..|run| - 1]), run[|run| - 1], namespace, name);
    }
  }

  /**
    The other side of it: deleting a CR hands over nothing it made for accounts. Those
    claims are never marked as orphaned, so no CR but one of the same two names can
    take them, in any run of whole operations.
   */
  lemma AccountsOutliveOwner(s: State, op: Operator, o: Owner, now: NonEmpty, a: OrphanAnswers, run: seq<Action>,
                             k: Key)
    requires ClaimsBinding(s, k, o) && Unlabelled(s, k) && RunByOthers(run, o)
    ensures SameBinding(s, Run(Orphan(s, op, o, now, a), run), k)
    ensures forall o2 :: o2 != o ==> BindingRefused(Run(Orphan(s, op, o, now, a), run), k, o2)
  {
    hide Run;
    var t := Orphan(s, op, o, now, a);
    assert k in t.roleBindings && t.roleBindings[k] == s.roleBindings[k];
    FirstOwnerWins(t, run, o);
    assert ClaimsBinding(t, k, o);
    var after := Run(t, run);
    assert SameBinding(t, after, k);
    assert k in after.roleBindings && after.roleBindings[k] == s.roleBindings[k];
    forall o2 | o2 != o
      ensures BindingRefused(Run(t, run), k, o2)
    {
      LiveClaimExcludesOthers(s.roleBindings[k].annotations, o, o2);
    }
  }

  // ---------- nobody claims for somebody else ----------

  lemma EntryMakesNoClaim(s: State, e: Entry, op: Operator, owner: Owner, a: AccountAnswer, k: Key, o: Owner)
    requires !ClaimsBinding(s, k, o) && owner != o
    ensures !ClaimsBinding(ProcessEntry(s, e, op, owner, a).0, k, o)
  {
    hide BindingRefused, UpToDate;
  }

  /** Nobody can make a live claim for somebody else. */
  lemma ForeignStepMakesNoClaim(s: State, a: Action, k: Key, o: Owner)
    requires !ClaimsBinding(s, k, o) && a.owner != o
    ensures !ClaimsBinding(Step(s, a), k, o)
  {
    hide ProcessEntry, Overwrite, ClaimNamespace, BindingRefused, NamespaceRefused, ManagesBinding;
    match a
    case ClaimNs(_, _, _, _, _) =>
    case BindGroup(op, owner, w, now, _) => OverwriteLooks(OldBinding(s, w.Key()), w, op, owner, now);
    case BindAccount(op, owner, e, answer) => EntryMakesNoClaim(s, e, op, owner, answer, k, o);
    case OrphanAll(_, _, _, _) =>
    case PurgeObsolete(_, _, _, _) =>
  }

  lemma ClaimedIsStamped(ns: Namespace, op: Operator, o: Owner, now: NonEmpty)
    ensures StampedBy(ClaimNamespace(ns, op, o, now).annotations, o)
  {}

  lemma ForeignStepMakesNoNamespaceClaim(s: State, a: Action, n: string, o: Owner)
    requires !ClaimsNamespace(s, n, o) && a.owner != o
    ensures !ClaimsNamespace(Step(s, a), n, o)
  {
    hide ProcessEntry, Bind, ClaimNamespace, NamespaceRefused, ManagesNamespace;
    match a
    case ClaimNs(op, owner, name, now, _) => ClaimedIsStamped(OldNamespace(s, name), op, owner, now);
    case BindGroup(op, owner, w, now, api) => BindPreserves(s, w, op, owner, now, api);
    case BindAccount(op, owner, e, answer) => EntryNeverDeletes(s, e, op, owner, answer);
    case OrphanAll(_, _, _, _) =>
    case PurgeObsolete(_, _, _, _) =>
  }
}
