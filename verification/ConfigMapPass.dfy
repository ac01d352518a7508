/**
  A whole pass over a ConfigMap (reconciliation_configmap.go): the whitelist, then the
  ServiceAccounts of every namespace in which a RoleBinding was reported, namespaces and
  entries in whatever order Go's maps yield them.

  Main result: exactly when the whole pass is idempotent.
 */
module ConfigMapPass {
  import opened Strings
  import opened Cluster
  import opened Ownership
  import opened RoleBindings
  import opened ConfigMap
  import opened ServiceAccounts

  /** One namespace and the order in which its entries were met. */
  datatype Visit = Visit(namespace: string, names: seq<string>)

  ghost predicate Known(visits: seq<Visit>, mapping: map<string, string>) {
    forall v :: v in visits ==> forall n :: n in v.names ==> n in mapping
  }

  function ProcessVisits(s: State, visits: seq<Visit>, x: Context, a: AccountAnswers): (State, seq<Key>)
    requires Known(visits, x.spec.serviceAccountMapping)
  {
    if visits == [] then (s, [])
    else
      var n := |visits| - 1;
      var (s1, before) := ProcessVisits(s, visits[..n], x, a);
      var (s2, processed, ok) := ProcessNames(s1, visits[n].namespace, visits[n].names, x, a);
      (s2, if ok then before + processed else before)
  }

  function NamespacesOf(keys: seq<Key>): set<string> {
    set k | k in keys :: k.namespace
  }

  function Visited(visits: seq<Visit>): set<string> {
    set v | v in visits :: v.namespace
  }

  ghost predicate NamespacesDistinct(visits: seq<Visit>) {
    forall i, j :: 0 <= i < j < |visits| ==> visits[i].namespace != visits[j].namespace
  }

  /** Each namespace once, and in each every entry once. */
  ghost predicate Complete(visits: seq<Visit>, namespaces: set<string>, mapping: map<string, string>) {
    && Known(visits, mapping)
    && NamespacesDistinct(visits)
    && Visited(visits) == (if mapping == map[] then {} else namespaces)
    && forall v :: v in visits ==> Enumerates(v.names, mapping)
  }

  method ProcessConfigMap(c: Client, data: map<string, string>, x: Context, answers: Answers, a: AccountAnswers)
    returns (bindings: seq<Key>, accounts: seq<Key>, ghost visits: seq<Visit>)
    modifies c
    ensures Known(visits, x.spec.serviceAccountMapping)
    ensures bindings == ProcessWants(old(c.state), WhitelistWants(data, x.spec), x, answers).1
    ensures (c.state, accounts)
            == ProcessVisits(ProcessWants(old(c.state), WhitelistWants(data, x.spec), x, answers).0, visits, x, a)
    ensures NamespacesDistinct(visits)
    ensures Visited(visits) == if x.spec.serviceAccountMapping == map[] then {} else NamespacesOf(bindings)
    ensures AccountsSucceed(a) ==> Complete(visits, NamespacesOf(bindings), x.spec.serviceAccountMapping)
  {
    hide ProcessWants, WhitelistWants, ProcessNames;
    bindings := ProcessWhitelist(c, data, x, answers);
    visits, accounts := [], [];
    if |x.spec.serviceAccountMapping| > 0 {
      accounts, visits := VisitNamespaces(c, NamespacesOf(bindings), x, a);
    } else {
      assert x.spec.serviceAccountMapping == map[];
    }
  }

  method VisitNamespaces(c: Client, namespaces: set<string>, x: Context, a: AccountAnswers)
    returns (accounts: seq<Key>, ghost visits: seq<Visit>)
    modifies c
    ensures Known(visits, x.spec.serviceAccountMapping) && NamespacesDistinct(visits)
    ensures Visited(visits) == namespaces
    ensures (c.state, accounts) == ProcessVisits(old(c.state), visits, x, a)
    ensures AccountsSucceed(a) ==> forall v :: v in visits ==> Enumerates(v.names, x.spec.serviceAccountMapping)
  {
    hide ProcessNames, Enumerates, ProcessVisits, Visited, NamespacesDistinct;
    EmptyVisits(c.state, x, a);
    visits, accounts := [], [];
    var todo := namespaces;
    while todo != {}
      invariant todo <= namespaces
      invariant Known(visits, x.spec.serviceAccountMapping) && NamespacesDistinct(visits)
      invariant Visited(visits) == namespaces - todo
      invariant AccountsSucceed(a) ==> forall v :: v in visits ==> Enumerates(v.names, x.spec.serviceAccountMapping)
      invariant (c.state, accounts) == ProcessVisits(old(c.state), visits, x, a)
      decreases |todo|
    {
      var namespace :| namespace in todo;
      todo := todo - {namespace};
      ghost var before := c.state;
      var processed, ok, names := ProcessServiceAccounts(c, namespace, x, a);
      if AccountsSucceed(a) && !ok {
        NamesDone(before, namespace, names, x, a);
      }
      ExtendVisits(old(c.state), visits, Visit(namespace, names), x, a);
      visits := visits + [Visit(namespace, names)];
      if ok {
        accounts := accounts + processed;
      }
    }
  }

  lemma EmptyVisits(s: State, x: Context, a: AccountAnswers)
    ensures Visited([]) == {} && NamespacesDistinct([]) && ProcessVisits(s, [], x, a) == (s, [])
  {}

  lemma ExtendVisits(s: State, visits: seq<Visit>, v: Visit, x: Context, a: AccountAnswers)
    requires Known(visits, x.spec.serviceAccountMapping)
    requires forall n :: n in v.names ==> n in x.spec.serviceAccountMapping
    ensures Known(visits + [v], x.spec.serviceAccountMapping)
    ensures Visited(visits + [v]) == Visited(visits) + {v.namespace}
    ensures NamespacesDistinct(visits) && v.namespace !in Visited(visits) ==> NamespacesDistinct(visits + [v])
    ensures var (s1, before) := ProcessVisits(s, visits, x, a);
            var (s2, processed, ok) := ProcessNames(s1, v.namespace, v.names, x, a);
            ProcessVisits(s, visits + [v], x, a) == (s2, if ok then before + processed else before)
  {
    hide ProcessNames;
    assert (visits + [v])[..|visits|] == visits;
    assert forall u :: u in visits ==> u.namespace in Visited(visits);
  }

  /** With calls that succeed, the loop over the entries is not cut short. */
  lemma {:induction false} NamesDone(s: State, namespace: string, names: seq<string>, x: Context, a: AccountAnswers)
    requires forall n :: n in names ==> n in x.spec.serviceAccountMapping
    requires AccountsSucceed(a)
    ensures ProcessNames(s, namespace, names, x, a).2
  {
    hide ProcessEntry;
    if names == [] {
    } else {
      var n := |names| - 1;
      NamesDone(s, namespace, names[..n], x, a);
      var e := EntryFor(x, namespace, names[n]);
      EntryEffect(ProcessNames(s, namespace, names[..n], x, a).0, e, x.op, x.owner, e.BindingKey());
    }
  }

  // ---------- whitelist and accounts do not meet ----------

  /** Namespaces in which an account's RoleBinding could carry the name of a group's. */
  predicate AccountLike(namespace: string) {
    namespace == "sa" || "sa-" <= namespace
  }

  lemma CollisionMeansAccountLike(namespace: string, role: string, name: string)
    requires namespace + "-" + role == "sa-" + namespace + "-" + name
    ensures AccountLike(namespace)
  {
    var l, r := namespace + "-" + role, "sa-" + namespace + "-" + name;
    assert r[0] == 's' && r[1] == 'a' && r[2] == '-';
    if |namespace| >= 3 {
      assert namespace[..3] == l[..3] == r[..3] == "sa-";
    } else {
      assert l[|namespace|] == '-';
    }
  }

  // ---------- what the visits leave behind ----------

  /** What visiting leaves alone: namespaces, and every RoleBinding that is no entry's of a visited namespace. */
  lemma {:induction false} VisitsFrame(s: State, visits: seq<Visit>, x: Context, a: AccountAnswers, k: Key)
    requires Known(visits, x.spec.serviceAccountMapping) && AccountsSucceed(a)
    requires forall v :: v in visits ==> Enumerates(v.names, x.spec.serviceAccountMapping)
    ensures var t := ProcessVisits(s, visits, x, a).0;
            && t.namespaces == s.namespaces
            && s.serviceAccounts.Keys <= t.serviceAccounts.Keys
            && ((forall m, n :: m in Visited(visits) && n in x.spec.serviceAccountMapping ==>
                   k != AccountBindingKey(m, n))
                  ==> SameBinding(s, t, k))
  {
    hide ProcessNames;
    if visits == [] {
    } else {
      var n := |visits| - 1;
      VisitsFrame(s, visits[..n], x, a, k);
      var p := ProcessVisits(s, visits[..n], x, a).0;
      var v := visits[n];
      assert v in visits && v.namespace in Visited(visits);
      forall u | u in visits[..n]
        ensures u.namespace in Visited(visits)
      {
        assert u in visits;
      }
      NamesEffect(p, v.namespace, v.names, x, a, k);
      NamesReported(p, v.namespace, v.names, x, a);
    }
  }

  /** Each entry of a visited namespace ends with its account, and with the RoleBinding it makes of what it found. */
  lemma {:induction false} VisitsReach(s: State, visits: seq<Visit>, x: Context, a: AccountAnswers, m: string,
                                       name: string)
    requires Known(visits, x.spec.serviceAccountMapping) && AccountsSucceed(a) && NamespacesDistinct(visits)
    requires forall v :: v in visits ==> Enumerates(v.names, x.spec.serviceAccountMapping)
    requires m in Visited(visits) && name in x.spec.serviceAccountMapping
    ensures var t := ProcessVisits(s, visits, x, a).0;
            var e := EntryFor(x, m, name);
            && e.AccountKey() in t.serviceAccounts
            && e.BindingKey() in t.roleBindings
            && t.roleBindings[e.BindingKey()] == Goal(s, e, x.op, x.owner)
  {
    hide ProcessNames, Goal, AccountName, Enumerates, Distinct, BindingRefused;
    var n := |visits| - 1;
    var init := visits[..n];
    var p := ProcessVisits(s, init, x, a).0;
    var v := visits[n];
    var e := EntryFor(x, m, name);
    assert v in visits;
    forall u | u in init
      ensures u in visits
    {}
    EnumeratesAll(v.names, x.spec.serviceAccountMapping);
    NamesEffect(p, v.namespace, v.names, x, a, e.BindingKey());
    if v.namespace == m {
      AccountsConverge(p, m, v.names, x, a, name);
      assert m !in Visited(init);
      VisitsFrame(s, init, x, a, e.BindingKey());
      GoalDependsOnKey(s, p, e, x.op, x.owner);
    } else {
      var u :| u in visits && u.namespace == m;
      assert u in init;
      VisitsReach(s, init, x, a, m, name);
      NamesReported(p, v.namespace, v.names, x, a);
    }
  }

  /** How often each account is reported does not depend on any order. */
  lemma {:induction false} VisitsReport(s: State, visits: seq<Visit>, x: Context, a: AccountAnswers, k: Key)
    requires Known(visits, x.spec.serviceAccountMapping) && AccountsSucceed(a) && NamespacesDistinct(visits)
    requires forall v :: v in visits ==> Enumerates(v.names, x.spec.serviceAccountMapping)
    ensures multiset(ProcessVisits(s, visits, x, a).1)[k]
            == if k.namespace in Visited(visits) then |Asking(s, k.namespace, x, k.name)| else 0
  {
    hide ProcessNames, Enumerates, Distinct, Asking, ReportedAccounts, AccountName;
    if visits == [] {
      assert ProcessVisits(s, visits, x, a).1 == [];
    } else {
      var n := |visits| - 1;
      var init, v := visits[..n], visits[n];
      assert visits == init + [v];
      var p := ProcessVisits(s, init, x, a).0;
      assert v in visits;
      VisitsReport(s, init, x, a, k);
      EnumeratesAll(v.names, x.spec.serviceAccountMapping);
      NamesReported(p, v.namespace, v.names, x, a);
      NamesEffect(p, v.namespace, v.names, x, a, k);
      ReportedOften(p, v.namespace, v.names, x, k);
      assert v.namespace !in Visited(init);
      AskingKept(s, init, x, a, v, k.name);
      assert Visited(visits) == Visited(init) + {v.namespace};
    }
  }

  lemma AskingKept(s: State, init: seq<Visit>, x: Context, a: AccountAnswers, v: Visit, account: string)
    requires Known(init, x.spec.serviceAccountMapping) && AccountsSucceed(a) && v.namespace !in Visited(init)
    requires forall v :: v in init ==> Enumerates(v.names, x.spec.serviceAccountMapping)
    requires Enumerates(v.names, x.spec.serviceAccountMapping)
    ensures Asking(ProcessVisits(s, init, x, a).0, v.namespace, x, account) * Elements(v.names)
            == Asking(s, v.namespace, x, account)
  {
    hide ProcessVisits, AccountName;
    forall n | n in x.spec.serviceAccountMapping
      ensures SameBinding(s, ProcessVisits(s, init, x, a).0, AccountBindingKey(v.namespace, n))
    {
      VisitsFrame(s, init, x, a, AccountBindingKey(v.namespace, n));
    }
  }

  lemma {:induction false} ReportsOfNamespace(s: State, namespace: string, names: seq<string>, x: Context,
                                              a: AccountAnswers)
    requires forall n :: n in names ==> n in x.spec.serviceAccountMapping
    ensures forall k :: k in ProcessNames(s, namespace, names, x, a).1 ==> k.namespace == namespace
  {
    hide ProcessEntry;
    if names == [] {
    } else {
      ReportsOfNamespace(s, namespace, names[..|names| - 1], x, a);
    }
  }

  /** No account is reported in a namespace whose visit failed, whatever it had made there before. */
  lemma {:induction false} FailedVisitReportsNothing(s: State, visits: seq<Visit>, x: Context, a: AccountAnswers,
                                                     i: nat)
    requires Known(visits, x.spec.serviceAccountMapping) && NamespacesDistinct(visits) && i < |visits|
    requires !ProcessNames(ProcessVisits(s, visits[..i], x, a).0, visits[i].namespace, visits[i].names, x, a).2
    ensures forall k :: k in ProcessVisits(s, visits, x, a).1 ==> k.namespace != visits[i].namespace
  {
    hide ProcessNames;
    var n := |visits| - 1;
    var init := visits[..n];
    var p := ProcessVisits(s, init, x, a).0;
    if i == n {
      ReportsAreVisited(s, init, x, a);
    } else {
      ReportsOfNamespace(p, visits[n].namespace, visits[n].names, x, a);
      assert init[..i] == visits[..i];
      FailedVisitReportsNothing(s, init, x, a, i);
    }
  }

  lemma {:induction false} ReportsAreVisited(s: State, visits: seq<Visit>, x: Context, a: AccountAnswers)
    requires Known(visits, x.spec.serviceAccountMapping)
    ensures forall k :: k in ProcessVisits(s, visits, x, a).1 ==>
              exists i :: 0 <= i < |visits| && visits[i].namespace == k.namespace
  {
    hide ProcessNames;
    if visits == [] {
    } else {
      var n := |visits| - 1;
      ReportsAreVisited(s, visits[..n], x, a);
      ReportsOfNamespace(ProcessVisits(s, visits[..n], x, a).0, visits[n].namespace, visits[n].names, x, a);
      forall k | k in ProcessVisits(s, visits, x, a).1
        ensures exists i :: 0 <= i < |visits| && visits[i].namespace == k.namespace
      {
        if k in ProcessVisits(s, visits[..n], x, a).1 {
          var i :| 0 <= i < n && visits[..n][i].namespace == k.namespace;
          assert visits[i].namespace == k.namespace;
        } else {
          assert visits[n].namespace == k.namespace;
        }
      }
    }
  }

  lemma {:induction false} NamesKeepAccounts(s: State, namespace: string, names: seq<string>, x: Context,
                                             a: AccountAnswers)
    requires forall n :: n in names ==> n in x.spec.serviceAccountMapping
    requires forall n :: n in names ==> EntryFor(x, namespace, n).AccountKey() in s.serviceAccounts
    ensures ProcessNames(s, namespace, names, x, a).0.serviceAccounts == s.serviceAccounts
  {
    hide AccountName, BindingRefused, UpToDate;
    if names == [] {
    } else {
      NamesKeepAccounts(s, namespace, names[..|names| - 1], x, a);
    }
  }

  /** Accounts that exist are left as they are. */
  lemma {:induction false} VisitsKeepAccounts(s: State, visits: seq<Visit>, x: Context, a: AccountAnswers)
    requires Known(visits, x.spec.serviceAccountMapping)
    requires forall m, n :: m in Visited(visits) && n in x.spec.serviceAccountMapping ==>
               EntryFor(x, m, n).AccountKey() in s.serviceAccounts
    ensures ProcessVisits(s, visits, x, a).0.serviceAccounts == s.serviceAccounts
  {
    hide ProcessNames;
    if visits == [] {
    } else {
      var n := |visits| - 1;
      assert visits[n].namespace in Visited(visits);
      forall v | v in visits[..n]
        ensures v.namespace in Visited(visits)
      {
        assert v in visits;
      }
      VisitsKeepAccounts(s, visits[..n], x, a);
      NamesKeepAccounts(ProcessVisits(s, visits[..n], x, a).0, visits[n].namespace, visits[n].names, x, a);
    }
  }

  // ---------- when the whole pass is idempotent ----------

  /**
    The RoleBinding of `w`'s group and that of the account `name` are one object, roleRefs
    cannot change, and the account takes the object to a roleRef that turns the fate of
    `w` around: from fulfilled to blocked, or from blocked to fulfilled.
   */
  predicate Clash(s: State, w: Want, name: string, x: Context)
    requires name in x.spec.serviceAccountMapping
  {
    var e := EntryFor(x, w.namespace, name);
    && x.op.rule.Immutable?
    && e.BindingKey() == w.Key()
    && !BindingRefused(s, w.Key(), x.owner)
    && (if BindingStuck(s, w, x.op) then !UpToDate(s.roleBindings[w.Key()], e) && e.role == w.clusterRole
        else e.role != w.clusterRole)
  }

  ghost predicate ClashFree(s: State, ws: Wants, x: Context) {
    forall w, n ::
      (Some(w) in ws && n in x.spec.serviceAccountMapping && w.namespace in NamespacesOf(Reports(s, ws, x)))
      ==> !Clash(s, w, n, x)
  }

  /** Away from namespaces named "sa" or "sa-..." there is no clash. */
  lemma PlainNamespacesNeverClash(s: State, ws: Wants, x: Context)
    requires forall k :: k in Reports(s, ws, x) ==> !AccountLike(k.namespace)
    ensures ClashFree(s, ws, x)
  {
    forall w, n | Some(w) in ws && n in x.spec.serviceAccountMapping && w.namespace in NamespacesOf(Reports(s, ws, x))
      ensures !Clash(s, w, n, x)
    {
      if AccountBindingKey(w.namespace, n) == w.Key() {
        CollisionMeansAccountLike(w.namespace, w.role, n);
      }
    }
  }

  /** What the account makes of an object turns a want around exactly when they clash. */
  lemma ClashDecides(s: State, t: State, w: Want, name: string, x: Context)
    requires name in x.spec.serviceAccountMapping
    requires var e := EntryFor(x, w.namespace, name);
             && e.BindingKey() == w.Key() && w.Key() in t.roleBindings
             && t.roleBindings[w.Key()] == Goal(s, e, x.op, x.owner)
    ensures (Blocked(t, w, x) <==> Blocked(s, w, x)) <==> !Clash(s, w, name, x)
  {}

  /** The whitelist pass neither makes nor removes a clash. */
  lemma ClashAfterPass(s: State, ws: Wants, x: Context, answers: Answers, w: Want, name: string)
    requires AllSucceed(answers) && Consistent(ws, x.spec.roleMapping) && Some(w) in ws
    requires name in x.spec.serviceAccountMapping
    ensures Clash(ProcessWants(s, ws, x, answers).0, w, name, x) <==> Clash(s, w, name, x)
  {
    hide Overwrite, ProcessWants, AccountName;
    BindingAfterPass(s, ws, x, answers, w.Key());
    BlockedStays(s, ws, x, answers, w);
    HasLast(ws, w);
    KeyDeterminesRole(LastFor(ws, w.Key()).value, w);
    BlockedStays(s, ws, x, answers, LastFor(ws, w.Key()).value);
  }

  /** After whitelist and visits, a want is blocked as before unless some account clashes with it. */
  lemma BlockedAfterVisits(s: State, ws: Wants, x: Context, answers: Answers, visits: seq<Visit>, a: AccountAnswers,
                           w: Want)
    requires AllSucceed(answers) && AccountsSucceed(a) && Consistent(ws, x.spec.roleMapping) && Some(w) in ws
    requires Complete(visits, NamespacesOf(Reports(s, ws, x)), x.spec.serviceAccountMapping)
    ensures var t := ProcessVisits(ProcessWants(s, ws, x, answers).0, visits, x, a).0;
            (Blocked(t, w, x) <==> Blocked(s, w, x))
            <==> forall n :: n in x.spec.serviceAccountMapping && w.namespace in Visited(visits) ==> !Clash(s, w, n, x)
  {
    hide ProcessWants, ProcessVisits, Goal, Clash, AccountName;
    var s1 := ProcessWants(s, ws, x, answers).0;
    var t := ProcessVisits(s1, visits, x, a).0;
    var k := w.Key();
    BlockedStays(s, ws, x, answers, w);
    if n :| n in x.spec.serviceAccountMapping && w.namespace in Visited(visits)
            && AccountBindingKey(w.namespace, n) == k {
      VisitsReach(s1, visits, x, a, w.namespace, n);
      ClashDecides(s1, t, w, n, x);
      ClashAfterPass(s, ws, x, answers, w, n);
      forall m | m in x.spec.serviceAccountMapping
        ensures m != n ==> !Clash(s, w, m, x)
      {
        ClashMeansSameKey(s, w, m, x);
        if AccountBindingKey(w.namespace, m) == k {
          BindingKeyInjective(w.namespace, m, n);
        }
      }
    } else {
      VisitsFrame(s1, visits, x, a, k);
      assert SameBinding(s1, t, k);
      forall m | m in x.spec.serviceAccountMapping
        ensures w.namespace in Visited(visits) ==> !Clash(s, w, m, x)
      {
        ClashMeansSameKey(s, w, m, x);
      }
    }
  }

  lemma ClashMeansSameKey(s: State, w: Want, name: string, x: Context)
    requires name in x.spec.serviceAccountMapping
    ensures Clash(s, w, name, x) ==> AccountBindingKey(w.namespace, name) == w.Key()
  {}

  /** A key is reported exactly if its wants are not blocked. */
  lemma {:induction false} ReportedUnlessBlocked(s: State, ws: Wants, x: Context, w: Want)
    requires Consistent(ws, x.spec.roleMapping) && w.role in x.spec.roleMapping
    requires w.clusterRole == x.spec.roleMapping[w.role]
    ensures w.Key() in Reports(s, ws, x) <==> !Blocked(s, w, x) && LastFor(ws, w.Key()).Some?
  {
    if ws == [] {
    } else {
      var n := |ws| - 1;
      ReportedUnlessBlocked(s, ws[..n], x, w);
      if ws[n].Some? && ws[n].value.Key() == w.Key() {
        assert Some(ws[n].value) in ws;
        KeyDeterminesRole(ws[n].value, w);
      }
    }
  }

  /** An account's outcome is not changed by whatever the second pass does to its RoleBinding in between. */
  lemma GoalAgain(s: State, ws: Wants, x: Context, answers1: Answers, answers2: Answers, t: State, e: Entry)
    requires AllSucceed(answers1) && AllSucceed(answers2) && Consistent(ws, x.spec.roleMapping)
    requires var s1, k := ProcessWants(s, ws, x, answers1).0, e.BindingKey();
             && k in t.roleBindings && t.roleBindings[k] == Goal(s1, e, x.op, x.owner)
             && forall w :: Some(w) in ws && w.Key() == k ==> (Blocked(t, w, x) <==> Blocked(s, w, x))
    ensures Goal(ProcessWants(t, ws, x, answers2).0, e, x.op, x.owner) == t.roleBindings[e.BindingKey()]
  {
    hide ProcessWants, Overwrite, AccountName;
    var s1, k := ProcessWants(s, ws, x, answers1).0, e.BindingKey();
    var s2 := ProcessWants(t, ws, x, answers2).0;
    BindingAfterPass(s, ws, x, answers1, k);
    BindingAfterPass(t, ws, x, answers2, k);
    if LastFor(ws, k).Some? && !Blocked(t, LastFor(ws, k).value, x) {
      var w := LastFor(ws, k).value;
      var now1, now2 := answers1(FirstFor(ws, k)).now, answers2(FirstFor(ws, k)).now;
      OverwriteLooks(OldBinding(s, k), w, x.op, x.owner, now1);
      OverwriteLooks(OldBinding(t, k), w, x.op, x.owner, now2);
      OverwriteOverwrite(OldBinding(s, k), w, w, x.op, x.owner, now1, now2);
    }
  }

  lemma OverwriteLooks(rb: RoleBinding, w: Want, op: Operator, o: Owner, now: NonEmpty)
    ensures var d := Overwrite(rb, w, op, o, now);
            && d.subjects == w.Subjects() && d.roleRef == w.RoleRef() && LiveClaim(d.annotations, o)
  {}

  /**
    A second whole pass, in any other order of namespaces and entries and at a later
    time, leaves every object as it is and reports the same RoleBindings and, in some
    order, the same accounts exactly if no group's RoleBinding clashes with an account's.
   */
  lemma PassIsIdempotent(s: State, ws: Wants, x: Context, answers1: Answers, answers2: Answers,
                         visits1: seq<Visit>, visits2: seq<Visit>, a: AccountAnswers)
    requires AllSucceed(answers1) && AllSucceed(answers2) && AccountsSucceed(a) && Consistent(ws, x.spec.roleMapping)
    requires Complete(visits1, NamespacesOf(ProcessWants(s, ws, x, answers1).1), x.spec.serviceAccountMapping)
    requires var t := ProcessVisits(ProcessWants(s, ws, x, answers1).0, visits1, x, a).0;
             Complete(visits2, NamespacesOf(ProcessWants(t, ws, x, answers2).1), x.spec.serviceAccountMapping)
    ensures var (s1, reported) := ProcessWants(s, ws, x, answers1);
            var t := ProcessVisits(s1, visits1, x, a).0;
            var (s2, reported2) := ProcessWants(t, ws, x, answers2);
            (reported2 == reported && ProcessVisits(s2, visits2, x, a).0 == t
             && multiset(ProcessVisits(s2, visits2, x, a).1) == multiset(ProcessVisits(s1, visits1, x, a).1))
            <==> ClashFree(s, ws, x)
  {
    hide ProcessWants, ProcessVisits, Clash, Blocked;
    var (s1, reported) := ProcessWants(s, ws, x, answers1);
    ReportedByPass(s, ws, x, answers1);
    var t := ProcessVisits(s1, visits1, x, a).0;
    ReportedByPass(t, ws, x, answers2);
    forall w | Some(w) in ws
      ensures (Blocked(t, w, x) <==> Blocked(s, w, x))
              <==> forall n :: n in x.spec.serviceAccountMapping && w.namespace in Visited(visits1) ==>
                     !Clash(s, w, n, x)
    {
      BlockedAfterVisits(s, ws, x, answers1, visits1, a, w);
    }
    if ClashFree(s, ws, x) {
      assert forall w :: Some(w) in ws ==> (Blocked(t, w, x) <==> Blocked(s, w, x));
      ReportsDependOnBlocked(s, t, ws, x);
      SecondPassSettles(s, ws, x, answers1, answers2, visits1, visits2, a);
      SameAccountsReported(s1, t, ws, x, answers2, visits1, visits2, a);
    } else {
      var w, n :| Some(w) in ws && n in x.spec.serviceAccountMapping
                  && w.namespace in NamespacesOf(Reports(s, ws, x)) && Clash(s, w, n, x);
      HasLast(ws, w);
      ReportedUnlessBlocked(s, ws, x, w);
      ReportedUnlessBlocked(t, ws, x, w);
    }
  }

  /** Whether an account's RoleBinding is refused is the same in the second pass. */
  lemma RefusalKept(s1: State, t: State, ws: Wants, x: Context, answers2: Answers, e: Entry)
    requires AllSucceed(answers2) && Consistent(ws, x.spec.roleMapping)
    requires var k := e.BindingKey(); k in t.roleBindings && t.roleBindings[k] == Goal(s1, e, x.op, x.owner)
    ensures var s2 := ProcessWants(t, ws, x, answers2).0;
            BindingRefused(s2, e.BindingKey(), x.owner) <==> BindingRefused(s1, e.BindingKey(), x.owner)
  {
    hide ProcessWants, Overwrite, UpToDate, AccountName;
    var k := e.BindingKey();
    BindingAfterPass(t, ws, x, answers2, k);
    if LastFor(ws, k).Some? && !Blocked(t, LastFor(ws, k).value, x) {
      OverwriteLooks(OldBinding(t, k), LastFor(ws, k).value, x.op, x.owner, answers2(FirstFor(ws, k)).now);
    }
  }

  lemma SameAccountsReported(s1: State, t: State, ws: Wants, x: Context, answers2: Answers,
                             visits1: seq<Visit>, visits2: seq<Visit>, a: AccountAnswers)
    requires AllSucceed(answers2) && AccountsSucceed(a) && Consistent(ws, x.spec.roleMapping)
    requires Complete(visits1, Visited(visits1), x.spec.serviceAccountMapping)
    requires Complete(visits2, Visited(visits1), x.spec.serviceAccountMapping)
    requires t == ProcessVisits(s1, visits1, x, a).0
    ensures multiset(ProcessVisits(ProcessWants(t, ws, x, answers2).0, visits2, x, a).1)
            == multiset(ProcessVisits(s1, visits1, x, a).1)
  {
    hide ProcessWants, ProcessVisits, Goal, AccountName, Enumerates, BindingRefused;
    var s2 := ProcessWants(t, ws, x, answers2).0;
    assert Visited(visits2) == Visited(visits1);
    forall k: Key
      ensures multiset(ProcessVisits(s2, visits2, x, a).1)[k] == multiset(ProcessVisits(s1, visits1, x, a).1)[k]
    {
      VisitsReport(s1, visits1, x, a, k);
      VisitsReport(s2, visits2, x, a, k);
      if k.namespace in Visited(visits1) {
        forall n | n in x.spec.serviceAccountMapping
          ensures BindingRefused(s2, AccountBindingKey(k.namespace, n), x.owner)
                  <==> BindingRefused(s1, AccountBindingKey(k.namespace, n), x.owner)
        {
          VisitsReach(s1, visits1, x, a, k.namespace, n);
          RefusalKept(s1, t, ws, x, answers2, EntryFor(x, k.namespace, n));
        }
        assert Asking(s1, k.namespace, x, k.name) == Asking(s2, k.namespace, x, k.name);
      }
    }
  }

  lemma SecondPassSettles(s: State, ws: Wants, x: Context, answers1: Answers, answers2: Answers,
                          visits1: seq<Visit>, visits2: seq<Visit>, a: AccountAnswers)
    requires AllSucceed(answers1) && AllSucceed(answers2) && AccountsSucceed(a) && Consistent(ws, x.spec.roleMapping)
    requires var namespaces := NamespacesOf(Reports(s, ws, x));
             && Complete(visits1, namespaces, x.spec.serviceAccountMapping)
             && Complete(visits2, namespaces, x.spec.serviceAccountMapping)
    requires var t := ProcessVisits(ProcessWants(s, ws, x, answers1).0, visits1, x, a).0;
             forall w :: Some(w) in ws ==> (Blocked(t, w, x) <==> Blocked(s, w, x))
    ensures var t := ProcessVisits(ProcessWants(s, ws, x, answers1).0, visits1, x, a).0;
            ProcessVisits(ProcessWants(t, ws, x, answers2).0, visits2, x, a).0 == t
  {
    hide ProcessWants, ProcessVisits, Blocked, Goal, AccountName;
    var s1 := ProcessWants(s, ws, x, answers1).0;
    var t := ProcessVisits(s1, visits1, x, a).0;
    var s2 := ProcessWants(t, ws, x, answers2).0;
    var t2 := ProcessVisits(s2, visits2, x, a).0;
    ReportedByPass(t, ws, x, answers2);
    forall m, n | m in Visited(visits2) && n in x.spec.serviceAccountMapping
      ensures EntryFor(x, m, n).AccountKey() in t.serviceAccounts
    {
      VisitsReach(s1, visits1, x, a, m, n);
    }
    VisitsKeepAccounts(s2, visits2, x, a);
    forall k: Key
      ensures SameBinding(t, t2, k)
    {
      SecondPassSettlesBinding(s, ws, x, answers1, answers2, visits1, visits2, a, k);
    }
    forall n: string
      ensures SameNamespace(t, t2, n)
    {
      VisitsFrame(s1, visits1, x, a, Key("", ""));
      VisitsFrame(s2, visits2, x, a, Key("", ""));
      NamespaceUntouched(s1, t, ws, x, answers2, n);
      SecondPassSameNamespace(s, ws, x, answers1, answers2, n);
    }
    SameEverywhere(t, t2);
  }

  lemma SecondPassSettlesBinding(s: State, ws: Wants, x: Context, answers1: Answers, answers2: Answers,
                                 visits1: seq<Visit>, visits2: seq<Visit>, a: AccountAnswers, k: Key)
    requires AllSucceed(answers1) && AllSucceed(answers2) && AccountsSucceed(a) && Consistent(ws, x.spec.roleMapping)
    requires var namespaces := NamespacesOf(Reports(s, ws, x));
             && Complete(visits1, namespaces, x.spec.serviceAccountMapping)
             && Complete(visits2, namespaces, x.spec.serviceAccountMapping)
    requires var t := ProcessVisits(ProcessWants(s, ws, x, answers1).0, visits1, x, a).0;
             forall w :: Some(w) in ws ==> (Blocked(t, w, x) <==> Blocked(s, w, x))
    ensures var t := ProcessVisits(ProcessWants(s, ws, x, answers1).0, visits1, x, a).0;
            SameBinding(t, ProcessVisits(ProcessWants(t, ws, x, answers2).0, visits2, x, a).0, k)
  {
    hide ProcessWants, ProcessVisits, Blocked, Goal, AccountName;
    var s1 := ProcessWants(s, ws, x, answers1).0;
    var t := ProcessVisits(s1, visits1, x, a).0;
    var s2 := ProcessWants(t, ws, x, answers2).0;
    if m, n :| m in Visited(visits1) && n in x.spec.serviceAccountMapping && k == AccountBindingKey(m, n) {
      VisitsReach(s1, visits1, x, a, m, n);
      VisitsReach(s2, visits2, x, a, m, n);
      GoalAgain(s, ws, x, answers1, answers2, t, EntryFor(x, m, n));
    } else {
      VisitsFrame(s1, visits1, x, a, k);
      VisitsFrame(s2, visits2, x, a, k);
      PassAfterVisits(s, ws, x, answers1, answers2, t, k);
    }
  }

  lemma PassAfterVisits(s: State, ws: Wants, x: Context, answers1: Answers, answers2: Answers, t: State, k: Key)
    requires AllSucceed(answers1) && AllSucceed(answers2) && Consistent(ws, x.spec.roleMapping)
    requires LastFor(ws, k).Some? ==> SameBinding(ProcessWants(s, ws, x, answers1).0, t, k)
    ensures SameBinding(t, ProcessWants(t, ws, x, answers2).0, k)
  {
    hide ProcessWants, Overwrite;
    var s1 := ProcessWants(s, ws, x, answers1).0;
    BindingAfterPass(t, ws, x, answers2, k);
    if LastFor(ws, k).Some? {
      var w := LastFor(ws, k).value;
      BindingAfterPass(s1, ws, x, answers2, k);
      SecondPassSameBinding(s, ws, x, answers1, answers2, k);
      assert Blocked(t, w, x) <==> Blocked(s1, w, x);
    }
  }

  lemma NamespaceUntouched(s1: State, t: State, ws: Wants, x: Context, answers: Answers, n: string)
    requires AllSucceed(answers) && s1.namespaces == t.namespaces
    ensures SameNamespace(ProcessWants(s1, ws, x, answers).0, ProcessWants(t, ws, x, answers).0, n)
  {
    hide ProcessWants, ClaimNamespace;
    NamespaceAfterPass(s1, ws, x, answers, n);
    NamespaceAfterPass(t, ws, x, answers, n);
  }

  /**
    The condition can fail: in a namespace named "sa" a group's and an account's
    RoleBinding may be one object, each with a ClusterRole of its own.
   */
  lemma ClashExample(op: Operator, o: Owner)
    requires op.rule.Immutable?
    ensures !ClashFree(State(map[], map[], map[]), [Some(Want("sa", "sa-x", "DEV-sa-sa-x", "edit"))],
                       Context(op, o, Spec(map["sa-x" := "edit"], ["DEV"], [], map["x" := "view"], "account")))
  {
    var w := Want("sa", "sa-x", "DEV-sa-sa-x", "edit");
    var x := Context(op, o, Spec(map["sa-x" := "edit"], ["DEV"], [], map["x" := "view"], "account"));
    var s := State(map[], map[], map[]);
    var ws := [Some(w)];
    hide AccountName;
    assert AccountBindingKey("sa", "x") == w.Key();
    assert Clash(s, w, "x", x);
    assert ws[..0] == [];
    assert Reports(s, ws, x) == [w.Key()];
    assert w.Key() in Reports(s, ws, x) && w.namespace in NamespacesOf(Reports(s, ws, x));
    assert Some(w) in ws;
  }
}
