/**
  Deleting one CR and recreating it under another name (reconciliation_cleanup.go), with
  whole passes on both sides: whitelist and accounts.

  Main result: exactly which of the RoleBindings a CR reported are handed over.
 */
module Migration {
  import opened Strings
  import opened Cluster
  import opened Ownership
  import opened RoleBindings
  import opened ConfigMap
  import opened ServiceAccounts
  import opened ConfigMapPass
  import opened Cleanup

  /** No account's RoleBinding is the same object, or one that is finds it as it wants it. */
  predicate LeftToGroup(s: State, k: Key, x: Context)
    requires k in s.roleBindings
  {
    forall n :: n in x.spec.serviceAccountMapping && AccountBindingKey(k.namespace, n) == k ==>
      UpToDate(s.roleBindings[k], EntryFor(x, k.namespace, n))
  }

  /** The object is there, is reported by the new CR, and is what it was but for stamp and orphan marks. */
  predicate HandedOver(before: State, after: State, reported: seq<Key>, k: Key, o2: Owner) {
    && k in before.roleBindings && k in after.roleBindings && k in reported
    && after.roleBindings[k] == before.roleBindings[k].(annotations := Restamp(before.roleBindings[k].annotations, o2))
  }

  /** What the visits leave of a RoleBinding that its CR has just made as a group's. */
  lemma AfterVisits(s: State, visits: seq<Visit>, x: Context, acc: AccountAnswers, k: Key)
    requires AccountsSucceed(acc) && Complete(visits, Visited(visits), x.spec.serviceAccountMapping)
    requires x.spec.serviceAccountMapping != map[] ==> k.namespace in Visited(visits)
    requires k in s.roleBindings && LiveClaim(s.roleBindings[k].annotations, x.owner)
    ensures var t := ProcessVisits(s, visits, x, acc).0;
            if LeftToGroup(s, k, x) then SameBinding(s, t, k)
            else k in t.roleBindings && LiveClaim(t.roleBindings[k].annotations, x.owner)
                 && Get(t.roleBindings[k].labels, ManagedByLabel) == ""
  {
    hide ProcessVisits, AccountName, Enumerates;
    if n :| n in x.spec.serviceAccountMapping && AccountBindingKey(k.namespace, n) == k {
      VisitsReach(s, visits, x, acc, k.namespace, n);
      forall m | m in x.spec.serviceAccountMapping && AccountBindingKey(k.namespace, m) == k
        ensures m == n
      {
        BindingKeyInjective(k.namespace, m, n);
      }
    } else {
      VisitsFrame(s, visits, x, acc, k);
    }
  }

  /** An orphaned object that was desired is adopted, whichever line of the same whitelist decides. */
  lemma Adopted(t: State, ws: Wants, x: Context, o2: Owner, answers: Answers, now: NonEmpty, a: OrphanAnswers, k: Key)
    requires AllSucceed(answers) && AllOrphaned(a) && Consistent(ws, x.spec.roleMapping)
    requires LastFor(ws, k).Some? && k in t.roleBindings
    requires Desired(t.roleBindings[k], LastFor(ws, k).value, x.op, x.owner)
    ensures var (s3, reported) := ProcessWants(Orphan(t, x.op, x.owner, now, a), ws, x.(owner := o2), answers);
            HandedOver(t, s3, reported, k, o2) && Desired(s3.roleBindings[k], LastFor(ws, k).value, x.op, o2)
  {
    hide ProcessWants, Overwrite;
    var w, x2 := LastFor(ws, k).value, x.(owner := o2);
    var u := Orphan(t, x.op, x.owner, now, a);
    OrphanedEntry(t, x.op, x.owner, now, a, k);
    assert !Blocked(u, w, x2);
    BindingAfterPass(u, ws, x2, answers, k);
    AdoptBinding(t.roleBindings[k], w, x.op, x.owner, o2, now, answers(FirstFor(ws, k)).now);
    ReportedByPass(u, ws, x2, answers);
    ReportsHas(u, ws, x2, w);
    OverwriteIsDesired(u.roleBindings[k], w, x.op, o2, answers(FirstFor(ws, k)).now);
  }

  lemma OverwriteIsDesired(rb: RoleBinding, w: Want, op: Operator, o: Owner, now: NonEmpty)
    ensures Desired(Overwrite(rb, w, op, o, now), w, op, o)
  {}

  /** What cleanup does not list stays claimed, and the new CR neither touches nor reports it. */
  lemma NotAdopted(t: State, ws: Wants, x: Context, o2: Owner, answers: Answers, now: NonEmpty, a: OrphanAnswers,
                   k: Key)
    requires AllSucceed(answers) && Consistent(ws, x.spec.roleMapping) && o2 != x.owner
    requires k in t.roleBindings && LiveClaim(t.roleBindings[k].annotations, x.owner)
    requires Get(t.roleBindings[k].labels, ManagedByLabel) == ""
    ensures k !in ProcessWants(Orphan(t, x.op, x.owner, now, a), ws, x.(owner := o2), answers).1
  {
    hide ProcessWants;
    var x2 := x.(owner := o2);
    var u := Orphan(t, x.op, x.owner, now, a);
    assert u.roleBindings[k] == t.roleBindings[k];
    LiveClaimExcludesOthers(t.roleBindings[k].annotations, x.owner, o2);
    ReportedByPass(u, ws, x2, answers);
    assert BindingRefused(u, k, o2);
    if k in Reports(u, ws, x2) {
      var w := ReportsWitness(u, ws, x2, k);
      assert false;
    }
  }

  /**
    A CR processes a ConfigMap and is deleted; another CR with the same spec processes the
    same ConfigMap. A RoleBinding the first reported is handed over exactly if the first
    CR's own accounts had left it to its group.
   */
  lemma MigrationExactly(s: State, ws: Wants, x: Context, o2: Owner, answers1: Answers, answers2: Answers,
                         visits1: seq<Visit>, visits2: seq<Visit>, acc: AccountAnswers,
                         now: NonEmpty, a: OrphanAnswers, k: Key)
    requires AllSucceed(answers1) && AllSucceed(answers2) && AccountsSucceed(acc) && AllOrphaned(a)
    requires Consistent(ws, x.spec.roleMapping) && o2 != x.owner
    requires k in ProcessWants(s, ws, x, answers1).1
    requires Complete(visits1, NamespacesOf(ProcessWants(s, ws, x, answers1).1), x.spec.serviceAccountMapping)
    requires var t := ProcessVisits(ProcessWants(s, ws, x, answers1).0, visits1, x, acc).0;
             var reported := ProcessWants(Orphan(t, x.op, x.owner, now, a), ws, x.(owner := o2), answers2).1;
             Complete(visits2, NamespacesOf(reported), x.spec.serviceAccountMapping)
    ensures var s1 := ProcessWants(s, ws, x, answers1).0;
            var t := ProcessVisits(s1, visits1, x, acc).0;
            var (s3, reported) := ProcessWants(Orphan(t, x.op, x.owner, now, a), ws, x.(owner := o2), answers2);
            k in s1.roleBindings &&
            (HandedOver(t, ProcessVisits(s3, visits2, x.(owner := o2), acc).0, reported, k, o2)
             <==> LeftToGroup(s1, k, x))
  {
    hide ProcessWants, ProcessVisits, Orphan, LeftToGroup, Desired;
    var x2 := x.(owner := o2);
    var (s1, reported1) := ProcessWants(s, ws, x, answers1);
    ReportedDesired(s, ws, x, answers1, k);
    assert k.namespace in NamespacesOf(reported1);
    DesiredIsLive(s1.roleBindings[k], LastFor(ws, k).value, x.op, x.owner);
    AfterVisits(s1, visits1, x, acc, k);
    var t := ProcessVisits(s1, visits1, x, acc).0;
    var (s3, reported) := ProcessWants(Orphan(t, x.op, x.owner, now, a), ws, x2, answers2);
    if LeftToGroup(s1, k, x) {
      Adopted(t, ws, x, o2, answers2, now, a, k);
      assert k.namespace in NamespacesOf(reported);
      DesiredIsLive(s3.roleBindings[k], LastFor(ws, k).value, x.op, o2);
      SameContent(s1, s3, x, o2, k, LastFor(ws, k).value);
      AfterVisits(s3, visits2, x2, acc, k);
    } else {
      NotAdopted(t, ws, x, o2, answers2, now, a, k);
    }
  }

  lemma ReportedDesired(s: State, ws: Wants, x: Context, answers: Answers, k: Key)
    requires AllSucceed(answers) && Consistent(ws, x.spec.roleMapping) && k in ProcessWants(s, ws, x, answers).1
    ensures var s1 := ProcessWants(s, ws, x, answers).0;
            LastFor(ws, k).Some? && k in s1.roleBindings
            && Desired(s1.roleBindings[k], LastFor(ws, k).value, x.op, x.owner)
  {
    hide ProcessWants, Desired, Overwrite;
    ReportedByPass(s, ws, x, answers);
    var w0 := ReportsWitness(s, ws, x, k);
    HasLast(ws, w0);
    var w := LastFor(ws, k).value;
    BlockedTogether(s, ws, x, w, w0);
    BindingAfterPass(s, ws, x, answers, k);
    FulfilledIsDesired(s, ProcessWants(s, ws, x, answers).0, w, x, answers(FirstFor(ws, k)).now);
  }

  lemma DesiredIsLive(rb: RoleBinding, w: Want, op: Operator, o: Owner)
    ensures Desired(rb, w, op, o) ==>
              LiveClaim(rb.annotations, o) && rb.subjects == w.Subjects() && rb.roleRef == w.RoleRef()
  {}

  lemma SameContent(s1: State, s3: State, x: Context, o2: Owner, k: Key, w: Want)
    requires k in s1.roleBindings && k in s3.roleBindings
    requires Desired(s1.roleBindings[k], w, x.op, x.owner) && Desired(s3.roleBindings[k], w, x.op, o2)
    ensures LeftToGroup(s1, k, x) <==> LeftToGroup(s3, k, x.(owner := o2))
  {
    assert forall n :: n in x.spec.serviceAccountMapping ==>
      EntryFor(x, k.namespace, n) == EntryFor(x.(owner := o2), k.namespace, n);
  }
}
