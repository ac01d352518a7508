/**
  When a whole pass over a ConfigMap has nothing left to do (reconciliation_configmap.go,
  service_account_helper.go).

  Main result: a condition on the cluster alone that holds exactly if a pass, whatever
  the orders and the times, would change no object.
 */
module SettledPass {
  import opened Strings
  import opened Cluster
  import opened Ownership
  import opened RoleBindings
  import opened ConfigMap
  import opened ServiceAccounts
  import opened ConfigMapPass

  // ---------- the condition ----------

  predicate NamespaceSettled(s: State, n: string, x: Context) {
    NamespaceRefused(s, n, x.owner) || (n in s.namespaces && DesiredNamespace(s.namespaces[n], x.op, x.owner))
  }

  /** A RoleBinding only lines ask for: the last of them is blocked, or has what it wants. */
  predicate BindingSettled(s: State, ws: Wants, x: Context, k: Key) {
    LastFor(ws, k).Some? && !Blocked(s, LastFor(ws, k).value, x) ==>
      k in s.roleBindings && Desired(s.roleBindings[k], LastFor(ws, k).value, x.op, x.owner)
  }

  /** A RoleBinding an entry works on, after the lines have had their turn. */
  predicate EntrySettled(s: State, ws: Wants, x: Context, e: Entry) {
    var k := e.BindingKey();
    && k in s.roleBindings
    && (if LastFor(ws, k).Some? && !Blocked(s, LastFor(ws, k).value, x) then
          var w := LastFor(ws, k).value;
          if w.group == e.account && w.clusterRole == e.role then Desired(s.roleBindings[k], w, x.op, x.owner)
          else s.roleBindings[k] == NewBinding(e, x.op, x.owner)
        else
          || BindingRefused(s, k, x.owner)
          || (UpToDate(s.roleBindings[k], e) && StampedBy(s.roleBindings[k].annotations, x.owner)))
  }

  /** Some entry of a visited namespace has its RoleBinding under the key. */
  predicate HasEntry(namespaces: set<string>, x: Context, k: Key) {
    k.namespace in namespaces && exists n :: n in x.spec.serviceAccountMapping && AccountBindingKey(k.namespace, n) == k
  }

  ghost predicate EntriesSettled(s: State, ws: Wants, x: Context) {
    forall m, n :: m in NamespacesOf(Reports(s, ws, x)) && n in x.spec.serviceAccountMapping ==>
      EntryFor(x, m, n).AccountKey() in s.serviceAccounts && EntrySettled(s, ws, x, EntryFor(x, m, n))
  }

  ghost predicate Settled(s: State, ws: Wants, x: Context) {
    && (forall n :: Asks(ws, n) ==> NamespaceSettled(s, n, x))
    && (forall k :: !HasEntry(NamespacesOf(Reports(s, ws, x)), x, k) ==> BindingSettled(s, ws, x, k))
    && EntriesSettled(s, ws, x)
  }

  // ---------- what a pass keeps ----------

  lemma NamespaceKept(s: State, ws: Wants, x: Context, answers: Answers, n: string)
    requires AllSucceed(answers)
    ensures SameNamespace(s, ProcessWants(s, ws, x, answers).0, n) <==> Asks(ws, n) ==> NamespaceSettled(s, n, x)
  {
    hide ProcessWants, ClaimNamespace, DesiredNamespace, Asks, CanTakeOwnership;
    NamespaceAfterPass(s, ws, x, answers, n);
    if Asks(ws, n) {
      DesiredNamespaceIsFixpoint(OldNamespace(s, n), x.op, x.owner, answers(FirstAsks(ws, n)).now);
    }
  }

  lemma BindingKept(s: State, ws: Wants, x: Context, answers: Answers, k: Key)
    requires AllSucceed(answers) && Consistent(ws, x.spec.roleMapping)
    ensures SameBinding(s, ProcessWants(s, ws, x, answers).0, k) <==> BindingSettled(s, ws, x, k)
  {
    hide ProcessWants, Overwrite, Desired, Blocked;
    BindingAfterPass(s, ws, x, answers, k);
    if LastFor(ws, k).Some? {
      DesiredIsFixpoint(OldBinding(s, k), LastFor(ws, k).value, x.op, x.owner, answers(FirstFor(ws, k)).now);
    }
  }

  /** Where lines change nothing or are blocked, an entry keeps what is refused or as it wants it. */
  lemma GoalKept(s: State, e: Entry, op: Operator, o: Owner)
    ensures e.BindingKey() in s.roleBindings && Goal(s, e, op, o) == s.roleBindings[e.BindingKey()]
            <==> e.BindingKey() in s.roleBindings
                 && (BindingRefused(s, e.BindingKey(), o)
                     || (UpToDate(s.roleBindings[e.BindingKey()], e)
                         && StampedBy(s.roleBindings[e.BindingKey()].annotations, o)))
  {
    hide CanTakeOwnership;
    var k := e.BindingKey();
    if k in s.roleBindings {
      assert UpToDate(NewBinding(e, op, o), e) && StampedBy(NewBinding(e, op, o).annotations, o);
      assert StampedBy(Restamped(s.roleBindings[k], o).annotations, o);
    }
  }

  /** What an entry makes of a RoleBinding a line has just written. */
  lemma GoalOfWritten(s1: State, w: Want, e: Entry, rb: RoleBinding, op: Operator, o: Owner, now: NonEmpty)
    requires e.BindingKey() in s1.roleBindings && s1.roleBindings[e.BindingKey()] == Overwrite(rb, w, op, o, now)
    ensures Goal(s1, e, op, o) == if w.group == e.account && w.clusterRole == e.role then Overwrite(rb, w, op, o, now)
                                  else NewBinding(e, op, o)
  {
    hide Overwrite;
    OverwriteLooks(rb, w, op, o, now);
  }

  lemma EntryKept(s: State, ws: Wants, x: Context, answers: Answers, e: Entry)
    requires AllSucceed(answers) && Consistent(ws, x.spec.roleMapping)
    ensures var s1, k := ProcessWants(s, ws, x, answers).0, e.BindingKey();
            k in s.roleBindings && Goal(s1, e, x.op, x.owner) == s.roleBindings[k] <==> EntrySettled(s, ws, x, e)
  {
    hide ProcessWants, Overwrite, Desired, Blocked, Goal, NewBinding, UpToDate, BindingRefused;
    var s1, k := ProcessWants(s, ws, x, answers).0, e.BindingKey();
    BindingAfterPass(s, ws, x, answers, k);
    if LastFor(ws, k).Some? && !Blocked(s, LastFor(ws, k).value, x) {
      var w, now := LastFor(ws, k).value, answers(FirstFor(ws, k)).now;
      GoalOfWritten(s1, w, e, OldBinding(s, k), x.op, x.owner, now);
      DesiredIsFixpoint(OldBinding(s, k), w, x.op, x.owner, now);
    } else {
      GoalDependsOnKey(s, s1, e, x.op, x.owner);
      GoalKept(s, e, x.op, x.owner);
    }
  }

  /** One RoleBinding through a whole pass. */
  lemma KeyKept(s: State, ws: Wants, x: Context, answers: Answers, visits: seq<Visit>, a: AccountAnswers, k: Key)
    requires AllSucceed(answers) && AccountsSucceed(a) && Consistent(ws, x.spec.roleMapping)
    requires Complete(visits, NamespacesOf(Reports(s, ws, x)), x.spec.serviceAccountMapping)
    ensures var t := ProcessVisits(ProcessWants(s, ws, x, answers).0, visits, x, a).0;
            && (!HasEntry(NamespacesOf(Reports(s, ws, x)), x, k) ==>
                  (SameBinding(s, t, k) <==> BindingSettled(s, ws, x, k)))
            && (forall n :: n in x.spec.serviceAccountMapping && k.namespace in NamespacesOf(Reports(s, ws, x))
                            && AccountBindingKey(k.namespace, n) == k ==>
                  (SameBinding(s, t, k) <==> EntrySettled(s, ws, x, EntryFor(x, k.namespace, n))))
  {
    hide ProcessWants, ProcessVisits, BindingSettled, EntrySettled, Goal, AccountName, Enumerates, Reports;
    var s1 := ProcessWants(s, ws, x, answers).0;
    if !HasEntry(NamespacesOf(Reports(s, ws, x)), x, k) {
      VisitsFrame(s1, visits, x, a, k);
      BindingKept(s, ws, x, answers, k);
    }
    forall n | n in x.spec.serviceAccountMapping && k.namespace in NamespacesOf(Reports(s, ws, x))
               && AccountBindingKey(k.namespace, n) == k
      ensures SameBinding(s, ProcessVisits(s1, visits, x, a).0, k)
              <==> EntrySettled(s, ws, x, EntryFor(x, k.namespace, n))
    {
      VisitsReach(s1, visits, x, a, k.namespace, n);
      EntryKept(s, ws, x, answers, EntryFor(x, k.namespace, n));
    }
  }

  ghost predicate AccountsThere(s: State, namespaces: set<string>, x: Context) {
    forall m, n :: m in namespaces && n in x.spec.serviceAccountMapping ==>
      EntryFor(x, m, n).AccountKey() in s.serviceAccounts
  }

  lemma AccountsKept(s: State, s1: State, visits: seq<Visit>, namespaces: set<string>, x: Context, a: AccountAnswers)
    requires s1.serviceAccounts == s.serviceAccounts && AccountsSucceed(a)
    requires Complete(visits, namespaces, x.spec.serviceAccountMapping)
    ensures ProcessVisits(s1, visits, x, a).0.serviceAccounts == s.serviceAccounts <==> AccountsThere(s, namespaces, x)
  {
    hide ProcessVisits, AccountName, Enumerates, Goal;
    if AccountsThere(s, namespaces, x) {
      VisitsKeepAccounts(s1, visits, x, a);
    }
    if ProcessVisits(s1, visits, x, a).0.serviceAccounts == s.serviceAccounts {
      forall m, n | m in namespaces && n in x.spec.serviceAccountMapping
        ensures EntryFor(x, m, n).AccountKey() in s.serviceAccounts
      {
        VisitsReach(s1, visits, x, a, m, n);
      }
    }
  }

  /**
    A pass with good calls, in whatever orders and at whatever times, leaves every object
    as it is exactly if the cluster is settled.
   */
  lemma PassKeepsExactly(s: State, ws: Wants, x: Context, answers: Answers, visits: seq<Visit>, a: AccountAnswers)
    requires AllSucceed(answers) && AccountsSucceed(a) && Consistent(ws, x.spec.roleMapping)
    requires Complete(visits, NamespacesOf(Reports(s, ws, x)), x.spec.serviceAccountMapping)
    ensures ProcessVisits(ProcessWants(s, ws, x, answers).0, visits, x, a).0 == s <==> Settled(s, ws, x)
  {
    hide ProcessWants, ProcessVisits, NamespaceSettled, BindingSettled, EntrySettled, HasEntry, AccountName, Asks;
    hide Enumerates, Reports;
    var s1 := ProcessWants(s, ws, x, answers).0;
    var t := ProcessVisits(s1, visits, x, a).0;
    var namespaces := NamespacesOf(Reports(s, ws, x));
    ReportedByPass(s, ws, x, answers);
    VisitsFrame(s1, visits, x, a, Key("", ""));
    AccountsKept(s, s1, visits, namespaces, x, a);
    forall n
      ensures SameNamespace(s, t, n) <==> Asks(ws, n) ==> NamespaceSettled(s, n, x)
    {
      NamespaceKept(s, ws, x, answers, n);
    }
    forall k
      ensures !HasEntry(namespaces, x, k) ==> (SameBinding(s, t, k) <==> BindingSettled(s, ws, x, k))
    {
      KeyKept(s, ws, x, answers, visits, a, k);
    }
    forall m, n | m in namespaces && n in x.spec.serviceAccountMapping
      ensures SameBinding(s, t, AccountBindingKey(m, n)) <==> EntrySettled(s, ws, x, EntryFor(x, m, n))
    {
      KeyKept(s, ws, x, answers, visits, a, AccountBindingKey(m, n));
    }
    if Settled(s, ws, x) {
      forall k
        ensures SameBinding(s, t, k)
      {
        KeySettled(s, ws, x, k);
      }
      SameEverywhere(s, t);
    }
  }

  /** Every RoleBinding falls under one of the two clauses. */
  lemma KeySettled(s: State, ws: Wants, x: Context, k: Key)
    requires Settled(s, ws, x)
    ensures var namespaces := NamespacesOf(Reports(s, ws, x));
            || (!HasEntry(namespaces, x, k) && BindingSettled(s, ws, x, k))
            || (exists n :: n in x.spec.serviceAccountMapping && k.namespace in namespaces
                            && k == AccountBindingKey(k.namespace, n)
                            && EntrySettled(s, ws, x, EntryFor(x, k.namespace, n)))
  {
    hide BindingSettled, EntrySettled, Reports, AccountName, Asks, NamespaceSettled;
    var namespaces := NamespacesOf(Reports(s, ws, x));
    if HasEntry(namespaces, x, k) {
      var n :| n in x.spec.serviceAccountMapping && AccountBindingKey(k.namespace, n) == k;
      assert EntrySettled(s, ws, x, EntryFor(x, k.namespace, n));
    }
  }

  // ---------- a pass settles the cluster ----------

  /** An order of visits there can be. */
  lemma SomeVisits(namespaces: set<string>, mapping: map<string, string>) returns (visits: seq<Visit>)
    ensures Complete(visits, namespaces, mapping)
  {
    var names := ListOf(mapping.Keys);
    if mapping == map[] {
      visits := [];
    } else {
      var list := ListOf(namespaces);
      visits := seq(|list|, i requires 0 <= i < |list| => Visit(list[i], names));
      assert Visited(visits) == namespaces by {
        forall m | m in namespaces ensures m in Visited(visits) {
          var i :| 0 <= i < |list| && list[i] == m;
          assert visits[i] in visits;
        }
      }
    }
  }

  /** After a pass without clash nothing is left to do. */
  lemma PassSettles(s: State, ws: Wants, x: Context, answers: Answers, visits: seq<Visit>, a: AccountAnswers)
    requires AllSucceed(answers) && AccountsSucceed(a) && Consistent(ws, x.spec.roleMapping)
    requires Complete(visits, NamespacesOf(Reports(s, ws, x)), x.spec.serviceAccountMapping)
    requires ClashFree(s, ws, x)
    ensures var t := ProcessVisits(ProcessWants(s, ws, x, answers).0, visits, x, a).0;
            Settled(t, ws, x) && Reports(t, ws, x) == Reports(s, ws, x)
  {
    hide ProcessWants, ProcessVisits, ClashFree, Reports, Settled, Enumerates;
    var t := ProcessVisits(ProcessWants(s, ws, x, answers).0, visits, x, a).0;
    ReportedByPass(s, ws, x, answers);
    ReportedByPass(t, ws, x, answers);
    var visits2 := SomeVisits(NamespacesOf(Reports(t, ws, x)), x.spec.serviceAccountMapping);
    PassIsIdempotent(s, ws, x, answers, answers, visits, visits2, a);
    PassKeepsExactly(t, ws, x, answers, visits2, a);
  }

  // ---------- two instances, one CR ----------

  /**
    What is settled for one instance is not for another with its own managed-by value, if
    a line is not blocked: two such instances that reconcile one CR undo each other's
    passes for ever.
   */
  lemma InstancesMustAgree(s: State, ws: Wants, x: Context, op: Operator, w: Want)
    requires Settled(s, ws, x) && Consistent(ws, x.spec.roleMapping) && Some(w) in ws && !Blocked(s, w, x)
    requires op.managedBy != x.op.managedBy && op.rule == x.op.rule
    ensures !Settled(s, ws, x.(op := op))
  {
    hide Reports, AccountName, Blocked, NamespaceSettled, Asks;
    var x2, k := x.(op := op), w.Key();
    assert forall v :: Blocked(s, v, x) <==> Blocked(s, v, x2) by { SameRule(s, x, op); }
    ReportsDependOnOwnerAndRule(s, ws, x, op);
    HasLast(ws, w);
    BlockedTogether(s, ws, x, LastFor(ws, k).value, w);
    if HasEntry(NamespacesOf(Reports(s, ws, x)), x, k) {
      var n :| n in x.spec.serviceAccountMapping && AccountBindingKey(k.namespace, n) == k;
      var e := EntryFor(x, k.namespace, n);
      assert EntrySettled(s, ws, x, e);
      assert NewBinding(e, x.op, x.owner).annotations[CreatedByKey] == x.op.managedBy;
      assert NewBinding(e, op, x.owner).annotations[CreatedByKey] == op.managedBy;
      assert !EntrySettled(s, ws, x2, EntryFor(x2, k.namespace, n));
    } else {
      assert BindingSettled(s, ws, x, k);
      assert !BindingSettled(s, ws, x2, k);
    }
  }

  lemma SameRule(s: State, x: Context, op: Operator)
    requires op.rule == x.op.rule
    ensures forall v :: Blocked(s, v, x) <==> Blocked(s, v, x.(op := op))
  {}

  lemma {:induction false} ReportsDependOnOwnerAndRule(s: State, ws: Wants, x: Context, op: Operator)
    requires op.rule == x.op.rule
    ensures Reports(s, ws, x) == Reports(s, ws, x.(op := op))
  {
    hide Blocked;
    if ws == [] {
    } else {
      SameRule(s, x, op);
      ReportsDependOnOwnerAndRule(s, ws[..|ws| - 1], x, op);
    }
  }
}
