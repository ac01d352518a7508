/**
  ServiceAccounts and their RoleBindings, one pair for each entry of the mapping
  (service_account_helper.go). Go yields the entries in any order; a failed call stops
  the loop. A RoleBinding that is out of date is deleted and created again, because the
  API server does not let its roleRef change.

  Main results: the RoleBindings end the same in every order; exactly which of them end
  as their entries want them, and exactly which with a claim that shuts out others; what
  is refused stays untouched and unreported.
 */
module ServiceAccounts {
  import opened Strings
  import opened Cluster
  import opened Ownership
  import opened RoleBindings
  import opened ConfigMap

  // ---------- names and objects ----------

  function AccountName(pattern: string, namespace: string, name: string): string {
    var p := if pattern == "" then "{namespace}-sa-{name}" else pattern;
    ReplaceAll(ReplaceAll(p, "{namespace}", namespace), "{name}", name)
  }

  function AccountBindingKey(namespace: string, name: string): Key {
    Key(namespace, "sa-" + namespace + "-" + name)
  }

  /** One entry of the mapping, for one namespace: what it asks for. */
  datatype Entry = Entry(namespace: string, name: string, role: string, account: string) {
    function BindingKey(): Key { AccountBindingKey(namespace, name) }
    function AccountKey(): Key { Key(namespace, account) }
  }

  function EntryFor(x: Context, namespace: string, name: string): Entry
    requires name in x.spec.serviceAccountMapping
  {
    Entry(namespace, name, x.spec.serviceAccountMapping[name],
          AccountName(x.spec.serviceAccountNamingPattern, namespace, name))
  }

  function NewAccount(e: Entry, op: Operator, o: Owner): ServiceAccount {
    ServiceAccount(
      map[CreatedByKey := op.managedBy, SATypeKey := e.name, RoleKey := e.role,
          BinderKey := o.name, BinderNamespaceKey := o.namespace],
      map[AppManagedBy := op.managedBy, AppComponent := e.name, AppName := o.name])
  }

  /** It carries no managed-by label, so the cleanups never list it. */
  function NewBinding(e: Entry, op: Operator, o: Owner): RoleBinding {
    RoleBinding(
      map[CreatedByKey := op.managedBy, ServiceAccountKey := e.account, SATypeKey := e.name,
          BinderKey := o.name, BinderNamespaceKey := o.namespace],
      map[AppManagedBy := op.managedBy, AppComponent := "service-account-binding", AppName := o.name],
      [Subject("ServiceAccount", "", e.account, e.namespace)],
      ClusterRoleRef(e.role))
  }

  /** The test the loop makes: two names, whatever kinds they are names of. */
  predicate UpToDate(rb: RoleBinding, e: Entry) {
    && rb.roleRef.name == e.role
    && rb.subjects != [] && rb.subjects[0].name == e.account
  }

  function Restamped(rb: RoleBinding, o: Owner): RoleBinding {
    rb.(annotations := rb.annotations[BinderKey := o.name][BinderNamespaceKey := o.namespace])
  }

  // ---------- one entry ----------

  datatype AccountAnswer = AccountAnswer(
    getAccountOk: bool, createAccountOk: bool, getBindingOk: bool, writeBindingOk: bool, recreateOk: bool)

  const ACCOUNT_ALL_GOOD := AccountAnswer(true, true, true, true, true)

  datatype EntryResult = Done | PassedOver | Aborted

  function WithAccount(s: State, e: Entry, op: Operator, o: Owner): State {
    if e.AccountKey() in s.serviceAccounts then s
    else s.(serviceAccounts := s.serviceAccounts[e.AccountKey() := NewAccount(e, op, o)])
  }

  function WithBinding(s: State, k: Key, rb: RoleBinding): State {
    s.(roleBindings := s.roleBindings[k := rb])
  }

  function BindAccount(s: State, e: Entry, op: Operator, o: Owner, a: AccountAnswer): (State, EntryResult) {
    var k := e.BindingKey();
    if !a.getBindingOk then (s, Aborted)
    else if k !in s.roleBindings then
      if a.writeBindingOk then (WithBinding(s, k, NewBinding(e, op, o)), Done) else (s, Aborted)
    else if BindingRefused(s, k, o) then (s, PassedOver)
    else if UpToDate(s.roleBindings[k], e) then
      if StampedBy(s.roleBindings[k].annotations, o) then (s, Done)
      else if a.writeBindingOk then (WithBinding(s, k, Restamped(s.roleBindings[k], o)), Done)
      else (s, Aborted)
    else if !a.writeBindingOk then (s, Aborted)
    else if a.recreateOk then (WithBinding(s, k, NewBinding(e, op, o)), Done)
    // Deleted, and the creation that should follow failed.
    else (s.(roleBindings := s.roleBindings - {k}), Aborted)
  }

  function ProcessEntry(s: State, e: Entry, op: Operator, o: Owner, a: AccountAnswer): (State, EntryResult) {
    if !a.getAccountOk || (e.AccountKey() !in s.serviceAccounts && !a.createAccountOk) then (s, Aborted)
    else BindAccount(WithAccount(s, e, op, o), e, op, o, a)
  }

  method ProcessServiceAccount(c: Client, e: Entry, op: Operator, o: Owner, a: AccountAnswer) returns (r: EntryResult)
    modifies c
    ensures (c.state, r) == ProcessEntry(old(c.state), e, op, o, a)
  {
    if !a.getAccountOk {
      return Aborted;
    }
    if e.AccountKey() !in c.state.serviceAccounts {
      var created := c.CreateServiceAccount(e.AccountKey(), NewAccount(e, op, o), a.createAccountOk);
      if !created {
        return Aborted;
      }
    }
    var k := e.BindingKey();
    if !a.getBindingOk {
      return Aborted;
    }
    if k !in c.state.roleBindings {
      var created := c.CreateRoleBinding(k, Request(NewBinding(e, op, o)), a.writeBindingOk);
      return if created then Done else Aborted;
    }
    var rb := c.state.roleBindings[k];
    if !CanTakeOwnership(rb.annotations, o) {
      return PassedOver;
    }
    var needsUpdate := false;
    if rb.roleRef.name != e.role {
      needsUpdate := true;
    }
    if |rb.subjects| == 0 || rb.subjects[0].name != e.account {
      needsUpdate := true;
    }
    var stampOutdated := Get(rb.annotations, BinderNamespaceKey) != o.namespace
                         || Get(rb.annotations, BinderKey) != o.name;
    if !needsUpdate && stampOutdated {
      rb := rb.(annotations := rb.annotations[BinderKey := o.name]);
      rb := rb.(annotations := rb.annotations[BinderNamespaceKey := o.namespace]);
      var updated := c.UpdateRoleBinding(k, Request(rb), op.rule, a.writeBindingOk);
      if !updated {
        return Aborted;
      }
    }
    if needsUpdate {
      var deleted := c.DeleteRoleBinding(k, a.writeBindingOk);
      if !deleted {
        return Aborted;
      }
      ghost var without := c.state;
      var created := c.CreateRoleBinding(k, Request(NewBinding(e, op, o)), a.recreateOk);
      assert created ==> c.state.roleBindings == old(c.state).roleBindings[k := NewBinding(e, op, o)];
      if !created {
        return Aborted;
      }
    }
    return Done;
  }

  // ---------- one namespace ----------

  type AccountAnswers = Key -> AccountAnswer

  function ProcessNames(s: State, namespace: string, names: seq<string>, x: Context, a: AccountAnswers)
    : (State, seq<Key>, bool)
    requires forall n :: n in names ==> n in x.spec.serviceAccountMapping
  {
    if names == [] then (s, [], true)
    else
      var n := |names| - 1;
      var (s1, processed, ok) := ProcessNames(s, namespace, names[..n], x, a);
      if !ok then (s1, processed, false)
      else
        var e := EntryFor(x, namespace, names[n]);
        var (s2, r) := ProcessEntry(s1, e, x.op, x.owner, a(e.BindingKey()));
        (s2, if r.Done? then processed + [e.AccountKey()] else processed, !r.Aborted?)
  }

  /** An order in which a Go map may yield its keys. */
  predicate Enumerates(names: seq<string>, mapping: map<string, string>) {
    Distinct(names) && Elements(names) == mapping.Keys
  }

  /** `names` is the order in which the map happened to yield its keys, as far as the loop came. */
  method ProcessServiceAccounts(c: Client, namespace: string, x: Context, a: AccountAnswers)
    returns (processed: seq<Key>, ok: bool, ghost names: seq<string>)
    modifies c
    ensures forall n :: n in names ==> n in x.spec.serviceAccountMapping
    ensures (c.state, processed, ok) == ProcessNames(old(c.state), namespace, names, x, a)
    ensures ok ==> Enumerates(names, x.spec.serviceAccountMapping)
  {
    hide ProcessEntry;
    processed, ok, names := [], true, [];
    var todo := x.spec.serviceAccountMapping.Keys;
    while todo != {}
      invariant todo <= x.spec.serviceAccountMapping.Keys
      invariant Distinct(names)
      invariant forall n :: n in names <==> n in x.spec.serviceAccountMapping.Keys - todo
      invariant ok && (c.state, processed, ok) == ProcessNames(old(c.state), namespace, names, x, a)
      decreases |todo|
    {
      var name :| name in todo;
      assert name !in names;
      todo := todo - {name};
      var e := EntryFor(x, namespace, name);
      assert (names + [name])[..|names|] == names;
      names := names + [name];
      var r := ProcessServiceAccount(c, e, x.op, x.owner, a(e.BindingKey()));
      if r.Aborted? {
        ok := false;
        return;
      }
      if r.Done? {
        processed := processed + [e.AccountKey()];
      }
    }
  }

  // ---------- convergence ----------

  ghost predicate AccountsSucceed(a: AccountAnswers) {
    forall k :: a(k) == ACCOUNT_ALL_GOOD
  }

  /** The RoleBinding an entry ends with, whatever the order. */
  function Goal(s: State, e: Entry, op: Operator, o: Owner): RoleBinding {
    var k := e.BindingKey();
    if k !in s.roleBindings then NewBinding(e, op, o)
    else if BindingRefused(s, k, o) then s.roleBindings[k]
    else if UpToDate(s.roleBindings[k], e) then
      if StampedBy(s.roleBindings[k].annotations, o) then s.roleBindings[k] else Restamped(s.roleBindings[k], o)
    else NewBinding(e, op, o)
  }

  lemma BindingKeyInjective(namespace: string, m: string, n: string)
    requires AccountBindingKey(namespace, m) == AccountBindingKey(namespace, n)
    ensures m == n
  {
    var p := "sa-" + namespace + "-";
    assert m == (p + m)[|p|..] && n == (p + n)[|p|..];
  }

  lemma EntryEffect(s: State, e: Entry, op: Operator, o: Owner, k: Key)
    ensures var (t, r) := ProcessEntry(s, e, op, o, ACCOUNT_ALL_GOOD);
            && !r.Aborted? && (r.Done? <==> !BindingRefused(s, e.BindingKey(), o))
            && t.namespaces == s.namespaces
            && t.serviceAccounts.Keys == s.serviceAccounts.Keys + {e.AccountKey()}
            && (if k == e.BindingKey() then k in t.roleBindings && t.roleBindings[k] == Goal(s, e, op, o)
                else SameBinding(s, t, k))
  {}

  lemma GoalDependsOnKey(s: State, t: State, e: Entry, op: Operator, o: Owner)
    requires SameBinding(s, t, e.BindingKey())
    ensures Goal(s, e, op, o) == Goal(t, e, op, o)
    ensures BindingRefused(s, e.BindingKey(), o) <==> BindingRefused(t, e.BindingKey(), o)
  {}

  lemma {:induction false} NamesEffect(s: State, namespace: string, names: seq<string>, x: Context, a: AccountAnswers,
                                       k: Key)
    requires forall n :: n in names ==> n in x.spec.serviceAccountMapping
    requires AccountsSucceed(a) && Distinct(names)
    ensures var (t, processed, ok) := ProcessNames(s, namespace, names, x, a);
            && ok && t.namespaces == s.namespaces
            && ((forall n :: n in names ==> k != AccountBindingKey(namespace, n)) ==> SameBinding(s, t, k))
            && (forall n :: n in names && k == AccountBindingKey(namespace, n) ==>
                  k in t.roleBindings && t.roleBindings[k] == Goal(s, EntryFor(x, namespace, n), x.op, x.owner))
  {
    hide ProcessEntry, Goal;
    if names == [] {
    } else {
      var n := |names| - 1;
      var init := names[..n];
      NamesEffect(s, namespace, init, x, a, k);
      var p := ProcessNames(s, namespace, init, x, a).0;
      var e := EntryFor(x, namespace, names[n]);
      EntryEffect(p, e, x.op, x.owner, k);
      if k == e.BindingKey() {
        forall m | m in init
          ensures k != AccountBindingKey(namespace, m)
        {
          if k == AccountBindingKey(namespace, m) {
            BindingKeyInjective(namespace, m, names[n]);
          }
        }
        GoalDependsOnKey(s, p, e, x.op, x.owner);
        forall m | m in names && k == AccountBindingKey(namespace, m)
          ensures m == names[n]
        {
          BindingKeyInjective(namespace, m, names[n]);
        }
      }
    }
  }

  /** The reports: the accounts of the entries that are not refused, in the order met. */
  function ReportedAccounts(s: State, namespace: string, names: seq<string>, x: Context): seq<Key>
    requires forall n :: n in names ==> n in x.spec.serviceAccountMapping
  {
    if names == [] then []
    else
      var n := |names| - 1;
      var e := EntryFor(x, namespace, names[n]);
      ReportedAccounts(s, namespace, names[..n], x)
      + (if BindingRefused(s, e.BindingKey(), x.owner) then [] else [e.AccountKey()])
  }

  lemma {:induction false} NamesReported(s: State, namespace: string, names: seq<string>, x: Context, a: AccountAnswers)
    requires forall n :: n in names ==> n in x.spec.serviceAccountMapping
    requires AccountsSucceed(a) && Distinct(names)
    ensures var (t, processed, ok) := ProcessNames(s, namespace, names, x, a);
            && processed == ReportedAccounts(s, namespace, names, x)
            && t.serviceAccounts.Keys
               == s.serviceAccounts.Keys + set n | n in names :: EntryFor(x, namespace, n).AccountKey()
  {
    hide ProcessEntry, AccountName, Goal, BindingRefused;
    if names == [] {
    } else {
      var n := |names| - 1;
      var init := names[..n];
      assert names == init + [names[n]];
      NamesReported(s, namespace, init, x, a);
      var p := ProcessNames(s, namespace, init, x, a).0;
      var e := EntryFor(x, namespace, names[n]);
      EntryEffect(p, e, x.op, x.owner, e.BindingKey());
      forall m | m in init
        ensures e.BindingKey() != AccountBindingKey(namespace, m)
      {
        if e.BindingKey() == AccountBindingKey(namespace, m) {
          BindingKeyInjective(namespace, m, names[n]);
        }
      }
      NamesEffect(s, namespace, init, x, a, e.BindingKey());
      GoalDependsOnKey(s, p, e, x.op, x.owner);
    }
  }

  /** The entries that ask for an account and are not refused. */
  function Asking(s: State, namespace: string, x: Context, account: string): set<string> {
    set n | n in x.spec.serviceAccountMapping
            && EntryFor(x, namespace, n).account == account
            && !BindingRefused(s, AccountBindingKey(namespace, n), x.owner)
  }

  lemma OneMoreAsks(asking: set<string>, init: seq<string>, last: string)
    requires last !in init
    ensures |asking * Elements(init + [last])| == |asking * Elements(init)| + (if last in asking then 1 else 0)
  {
    assert Elements(init + [last]) == Elements(init) + {last};
    assert asking * Elements(init + [last]) == asking * Elements(init) + asking * {last};
    assert asking * {last} == if last in asking then {last} else {};
  }

  /** How often an account is reported: once for each entry that asks for it and is not refused. */
  lemma {:induction false} ReportedOften(s: State, namespace: string, names: seq<string>, x: Context, k: Key)
    requires Distinct(names) && forall n :: n in names ==> n in x.spec.serviceAccountMapping
    ensures multiset(ReportedAccounts(s, namespace, names, x))[k]
            == if k.namespace == namespace then |Asking(s, namespace, x, k.name) * Elements(names)| else 0
  {
    hide AccountName, BindingRefused;
    if names == [] {
      assert Asking(s, namespace, x, k.name) * Elements(names) == {};
    } else {
      var n := |names| - 1;
      var init, last := names[..n], names[n];
      assert names == init + [last] && last !in init;
      ReportedOften(s, namespace, init, x, k);
      OneMoreAsks(Asking(s, namespace, x, k.name), init, last);
    }
  }

  /** What an entry is for: the account bound to the ClusterRole, and the CR stamped on it. */
  predicate Granted(rb: RoleBinding, e: Entry, o: Owner) {
    && rb.roleRef == ClusterRoleRef(e.role)
    && rb.subjects != [] && rb.subjects[0] == Subject("ServiceAccount", "", e.account, e.namespace)
    && StampedBy(rb.annotations, o)
  }

  /** It passes the test on names, though it binds something else or to something else. */
  predicate Namesake(rb: RoleBinding, e: Entry) {
    && UpToDate(rb, e)
    && !(rb.roleRef == ClusterRoleRef(e.role)
         && rb.subjects[0] == Subject("ServiceAccount", "", e.account, e.namespace))
  }

  /** All but the two annotations of the stamp is as it was. */
  ghost predicate KeptButStamp(before: RoleBinding, after: RoleBinding) {
    && after.(annotations := map[]) == before.(annotations := map[])
    && after.annotations - {BinderKey, BinderNamespaceKey} == before.annotations - {BinderKey, BinderNamespaceKey}
  }

  /**
    For every order, each entry that is not refused ends with its account, and with a
    stamped RoleBinding that passes the test on names. It grants what the entry asks for
    exactly if what was there was no namesake, which keeps its roleRef and its subjects.
   */
  lemma AccountsConverge(s: State, namespace: string, names: seq<string>, x: Context, a: AccountAnswers, name: string)
    requires Enumerates(names, x.spec.serviceAccountMapping) && AccountsSucceed(a)
    requires name in x.spec.serviceAccountMapping
    ensures var (t, processed, ok) := ProcessNames(s, namespace, names, x, a);
            var e := EntryFor(x, namespace, name);
            var k := e.BindingKey();
            && ok && e.AccountKey() in t.serviceAccounts
            && k in t.roleBindings
            && (if BindingRefused(s, k, x.owner) then t.roleBindings[k] == s.roleBindings[k]
                else
                  && e.AccountKey() in processed
                  && UpToDate(t.roleBindings[k], e) && StampedBy(t.roleBindings[k].annotations, x.owner)
                  && (Granted(t.roleBindings[k], e, x.owner)
                      <==> !(k in s.roleBindings && Namesake(s.roleBindings[k], e)))
                  && (k in s.roleBindings && UpToDate(s.roleBindings[k], e) ==>
                        KeptButStamp(s.roleBindings[k], t.roleBindings[k])))
  {
    hide ProcessNames, AccountName, Goal, UpToDate, Namesake, Granted, KeptButStamp, BindingRefused, AccountBindingKey;
    NamesEffect(s, namespace, names, x, a, AccountBindingKey(namespace, name));
    NamesReported(s, namespace, names, x, a);
    EnumeratesAll(names, x.spec.serviceAccountMapping);
    GoalGrants(s, EntryFor(x, namespace, name), x.op, x.owner);
    if !BindingRefused(s, AccountBindingKey(namespace, name), x.owner) {
      ReportsAsking(s, namespace, names, x, name);
    }
  }

  lemma GoalGrants(s: State, e: Entry, op: Operator, o: Owner)
    ensures var k, goal := e.BindingKey(), Goal(s, e, op, o);
            if BindingRefused(s, k, o) then k in s.roleBindings && goal == s.roleBindings[k]
            else
              && UpToDate(goal, e) && StampedBy(goal.annotations, o)
              && (Granted(goal, e, o) <==> !(k in s.roleBindings && Namesake(s.roleBindings[k], e)))
              && (k in s.roleBindings && UpToDate(s.roleBindings[k], e) ==> KeptButStamp(s.roleBindings[k], goal))
  {
    hide CanTakeOwnership;
  }

  lemma {:induction false} ReportsAsking(s: State, namespace: string, names: seq<string>, x: Context, name: string)
    requires forall n :: n in names ==> n in x.spec.serviceAccountMapping
    requires name in names && !BindingRefused(s, AccountBindingKey(namespace, name), x.owner)
    ensures EntryFor(x, namespace, name).AccountKey() in ReportedAccounts(s, namespace, names, x)
  {
    hide AccountName, BindingRefused;
    var n := |names| - 1;
    if names[n] != name {
      assert names == names[..n] + [names[n]];
      ReportsAsking(s, namespace, names[..n], x, name);
    }
  }

  /** A RoleBinding nobody claims, of a Role and a Group: it is stamped, and the account reported, without any right. */
  lemma NamesakeExample(op: Operator, o: Owner, a: AccountAnswers)
    requires AccountsSucceed(a)
    ensures var x := Context(op, o, Spec(map[], [], [], map["deploy" := "edit"], ""));
            var e := EntryFor(x, "shop", "deploy");
            var other := RoleBinding(map[], map[], [Subject("Group", RBAC_GROUP, e.account, "")],
                                     RoleRef(RBAC_GROUP, "Role", "edit"));
            var (t, processed, ok) :=
              ProcessNames(State(map[], map[e.BindingKey() := other], map[]), "shop", ["deploy"], x, a);
            && ok && processed == [e.AccountKey()]
            && e.BindingKey() in t.roleBindings && t.roleBindings[e.BindingKey()] == Restamped(other, o)
            && !Granted(t.roleBindings[e.BindingKey()], e, o)
  {
    hide AccountName;
    var x := Context(op, o, Spec(map[], [], [], map["deploy" := "edit"], ""));
    var e := EntryFor(x, "shop", "deploy");
    var other := RoleBinding(map[], map[], [Subject("Group", RBAC_GROUP, e.account, "")],
                             RoleRef(RBAC_GROUP, "Role", "edit"));
    var s := State(map[], map[e.BindingKey() := other], map[]);
    assert ["deploy"][..0] == [];
    assert ProcessNames(s, "shop", ["deploy"][..0], x, a) == (s, [], true);
  }

  /** Marked as orphaned by the cleanup of a CR that was deleted. */
  predicate Marked(rb: RoleBinding) {
    Get(rb.annotations, OrphanedAtKey) != ""
  }

  /**
    The stamp alone is no claim: a marked RoleBinding that passes the test on names is
    stamped and stays marked. These, and no others that are not refused, end without a
    live claim, and then any CR may take them.
   */
  lemma AccountsClaimExactly(s: State, namespace: string, names: seq<string>, x: Context, a: AccountAnswers,
                             name: string)
    requires Enumerates(names, x.spec.serviceAccountMapping) && AccountsSucceed(a)
    requires name in x.spec.serviceAccountMapping
    requires !BindingRefused(s, AccountBindingKey(namespace, name), x.owner)
    ensures var t := ProcessNames(s, namespace, names, x, a).0;
            var e := EntryFor(x, namespace, name);
            var k := e.BindingKey();
            && k in t.roleBindings
            && (LiveClaim(t.roleBindings[k].annotations, x.owner)
                <==> !(k in s.roleBindings && UpToDate(s.roleBindings[k], e) && Marked(s.roleBindings[k])))
            && (!LiveClaim(t.roleBindings[k].annotations, x.owner) ==>
                  forall o :: CanTakeOwnership(t.roleBindings[k].annotations, o))
  {
    hide ProcessNames, AccountName;
    NamesEffect(s, namespace, names, x, a, AccountBindingKey(namespace, name));
    EnumeratesAll(names, x.spec.serviceAccountMapping);
  }

  // ---------- what is written ----------

  /** The RoleBinding of an account, in full. */
  function WrittenBinding(namespace: string, name: string, role: string, account: string, op: Operator, o: Owner)
    : RoleBinding
  {
    RoleBinding(
      map[CreatedByKey := op.managedBy, SATypeKey := name, ServiceAccountKey := account,
          BinderKey := o.name, BinderNamespaceKey := o.namespace],
      map[AppManagedBy := op.managedBy, AppComponent := "service-account-binding", AppName := o.name],
      [Subject("ServiceAccount", "", account, namespace)],
      RoleRef("rbac.authorization.k8s.io", "ClusterRole", role))
  }

  function WrittenAccount(name: string, role: string, op: Operator, o: Owner): ServiceAccount {
    ServiceAccount(
      map[CreatedByKey := op.managedBy, SATypeKey := name, RoleKey := role,
          BinderKey := o.name, BinderNamespaceKey := o.namespace],
      map[AppManagedBy := op.managedBy, AppComponent := name, AppName := o.name])
  }

  /**
    What a pass writes for a mapping entry, told from name, role, naming pattern and
    namespace alone: the RoleBinding "sa-namespace-name", where there was none or one that
    may be taken and is of another role or first subject; and the account of the pattern's
    name, where there was none, for an entry that asks for it.
   */
  lemma AccountsWritten(s: State, namespace: string, names: seq<string>, x: Context, a: AccountAnswers, name: string)
    requires Enumerates(names, x.spec.serviceAccountMapping) && AccountsSucceed(a)
    requires name in x.spec.serviceAccountMapping
    ensures var t := ProcessNames(s, namespace, names, x, a).0;
            var mapping, pattern := x.spec.serviceAccountMapping, x.spec.serviceAccountNamingPattern;
            var role, account := mapping[name], AccountName(pattern, namespace, name);
            var k, ak := Key(namespace, "sa-" + namespace + "-" + name), Key(namespace, account);
            && k in t.roleBindings && ak in t.serviceAccounts
            && (k !in s.roleBindings
                || (CanTakeOwnership(s.roleBindings[k].annotations, x.owner)
                    && (s.roleBindings[k].roleRef.name != role
                        || s.roleBindings[k].subjects == [] || s.roleBindings[k].subjects[0].name != account)) ==>
                  t.roleBindings[k] == WrittenBinding(namespace, name, role, account, x.op, x.owner))
            && (ak in s.serviceAccounts ==> t.serviceAccounts[ak] == s.serviceAccounts[ak])
            && (ak !in s.serviceAccounts ==>
                  exists n :: n in mapping && AccountName(pattern, namespace, n) == account
                              && t.serviceAccounts[ak] == WrittenAccount(n, mapping[n], x.op, x.owner))
  {
    hide ProcessNames, AccountName, Goal, NewAccount, WrittenBinding, WrittenAccount, CanTakeOwnership, Creator;
    var e := EntryFor(x, namespace, name);
    EnumeratesAll(names, x.spec.serviceAccountMapping);
    NamesEffect(s, namespace, names, x, a, e.BindingKey());
    NamesReported(s, namespace, names, x, a);
    AccountsAfter(s, namespace, names, x, a, e.AccountKey());
    GoalIsWritten(s, e, x.op, x.owner);
    if e.AccountKey() !in s.serviceAccounts {
      var n := Creator(namespace, names, x, e.account).value;
      NewAccountIsWritten(EntryFor(x, namespace, n), x.op, x.owner);
    }
  }

  lemma GoalIsWritten(s: State, e: Entry, op: Operator, o: Owner)
    ensures var k := Key(e.namespace, "sa-" + e.namespace + "-" + e.name);
            && k == e.BindingKey()
            && (k !in s.roleBindings
                || (CanTakeOwnership(s.roleBindings[k].annotations, o)
                    && (s.roleBindings[k].roleRef.name != e.role
                        || s.roleBindings[k].subjects == [] || s.roleBindings[k].subjects[0].name != e.account)) ==>
                  Goal(s, e, op, o) == WrittenBinding(e.namespace, e.name, e.role, e.account, op, o))
  {
    hide CanTakeOwnership;
  }

  lemma NewAccountIsWritten(e: Entry, op: Operator, o: Owner)
    ensures NewAccount(e, op, o) == WrittenAccount(e.name, e.role, op, o)
  {}

  /**
    An entry fails exactly if one of the calls it needs does; it loses its RoleBinding exactly
    if the last one does.
   */
  lemma EntryFailsExactly(s: State, e: Entry, op: Operator, o: Owner, a: AccountAnswer)
    ensures var (t, r) := ProcessEntry(s, e, op, o, a);
            var k := e.BindingKey();
            var accountFails := !a.getAccountOk || (e.AccountKey() !in s.serviceAccounts && !a.createAccountOk);
            var free := !accountFails && a.getBindingOk && !BindingRefused(s, k, o);
            var stale := k in s.roleBindings && !UpToDate(s.roleBindings[k], e);
            var writes := k !in s.roleBindings || stale || !StampedBy(s.roleBindings[k].annotations, o);
            && (r.PassedOver? <==> !accountFails && a.getBindingOk && BindingRefused(s, k, o))
            && (r.Aborted? <==>
                  accountFails || !a.getBindingOk
                  || (free && writes && !a.writeBindingOk)
                  || (free && stale && !a.recreateOk))
            && (accountFails ==> t == s)
            && (k in s.roleBindings ==> (k !in t.roleBindings <==> free && stale && a.writeBindingOk && !a.recreateOk))
  {
    hide UpToDate, StampedBy, CanTakeOwnership, NewBinding;
  }

  /** After the first entry that fails, no later one has any effect or is reported. */
  lemma {:induction false} StopsAtFailure(s: State, namespace: string, names: seq<string>, x: Context,
                                          a: AccountAnswers,
                                          n: nat)
    requires forall name :: name in names ==> name in x.spec.serviceAccountMapping
    requires n <= |names| && !ProcessNames(s, namespace, names[..n], x, a).2
    ensures ProcessNames(s, namespace, names, x, a) == ProcessNames(s, namespace, names[..n], x, a)
  {
    hide ProcessEntry;
    if n == |names| {
      assert names[..n] == names;
    } else {
      var init := names[..|names| - 1];
      assert init[..n] == names[..n];
      StopsAtFailure(s, namespace, init, x, a, n);
    }
  }

  // ---------- how far the order shows ----------

  /** The entry met first, among those whose account has the given name. */
  function Creator(namespace: string, names: seq<string>, x: Context, account: string): (r: Option<string>)
    requires forall n :: n in names ==> n in x.spec.serviceAccountMapping
    ensures r.Some? ==> r.value in names && EntryFor(x, namespace, r.value).account == account
    ensures r.None? ==> forall n :: n in names ==> EntryFor(x, namespace, n).account != account
  {
    if names == [] then None
    else
      var n := |names| - 1;
      var before := Creator(namespace, names[..n], x, account);
      if before.Some? then before
      else if EntryFor(x, namespace, names[n]).account == account then Some(names[n])
      else None
  }

  /**
    The account under a key once the entries are done: what was there, else what the first entry
    asking for it made.
   */
  function AccountMade(s: State, namespace: string, names: seq<string>, x: Context, k: Key): Option<ServiceAccount>
    requires forall n :: n in names ==> n in x.spec.serviceAccountMapping
  {
    if k in s.serviceAccounts then Some(s.serviceAccounts[k])
    else if k.namespace != namespace then None
    else match Creator(namespace, names, x, k.name)
      case None => None
      case Some(n) => Some(NewAccount(EntryFor(x, namespace, n), x.op, x.owner))
  }

  function Account(s: State, k: Key): Option<ServiceAccount> {
    if k in s.serviceAccounts then Some(s.serviceAccounts[k]) else None
  }

  lemma EntryAccount(s: State, e: Entry, op: Operator, o: Owner, k: Key)
    ensures Account(ProcessEntry(s, e, op, o, ACCOUNT_ALL_GOOD).0, k)
            == (if k in s.serviceAccounts then Account(s, k)
                else if k == e.AccountKey() then Some(NewAccount(e, op, o)) else None)
  {
    hide NewAccount, NewBinding, Restamped, UpToDate, BindingRefused;
  }

  lemma {:induction false} AccountsAfter(s: State, namespace: string, names: seq<string>, x: Context,
                                         a: AccountAnswers, k: Key)
    requires forall n :: n in names ==> n in x.spec.serviceAccountMapping
    requires AccountsSucceed(a) && Distinct(names)
    ensures Account(ProcessNames(s, namespace, names, x, a).0, k) == AccountMade(s, namespace, names, x, k)
  {
    hide ProcessEntry, NewAccount, AccountName;
    if names == [] {
    } else {
      var n := |names| - 1;
      var init := names[..n];
      AccountsAfter(s, namespace, init, x, a, k);
      NamesEffect(s, namespace, init, x, a, k.(namespace := namespace));
      EntryAccount(ProcessNames(s, namespace, init, x, a).0, EntryFor(x, namespace, names[n]), x.op, x.owner, k);
    }
  }

  /**
    Two orders always lead to the same RoleBindings. They lead to the same cluster exactly
    if, for each account that is yet to be made, the entry met first is the same.
   */
  lemma AccountsConfluent(s: State, namespace: string, names1: seq<string>, names2: seq<string>, x: Context,
                          a: AccountAnswers)
    requires Enumerates(names1, x.spec.serviceAccountMapping) && Enumerates(names2, x.spec.serviceAccountMapping)
    requires AccountsSucceed(a)
    ensures var t1, t2 := ProcessNames(s, namespace, names1, x, a).0, ProcessNames(s, namespace, names2, x, a).0;
            && t1.roleBindings == t2.roleBindings
            && t1.namespaces == t2.namespaces
            && (t1 == t2 <==>
                  forall account :: Key(namespace, account) !in s.serviceAccounts ==>
                    Creator(namespace, names1, x, account) == Creator(namespace, names2, x, account))
  {
    hide ProcessNames, Goal, AccountName, AccountsSucceed, NewAccount, Creator, Enumerates;
    EnumeratesAll(names1, x.spec.serviceAccountMapping);
    EnumeratesAll(names2, x.spec.serviceAccountMapping);
    var t1, t2 := ProcessNames(s, namespace, names1, x, a).0, ProcessNames(s, namespace, names2, x, a).0;
    SameBindingsInAnyOrder(s, namespace, names1, names2, x, a);
    forall k: Key
      ensures Account(t1, k) == AccountMade(s, namespace, names1, x, k)
      ensures Account(t2, k) == AccountMade(s, namespace, names2, x, k)
    {
      AccountsAfter(s, namespace, names1, x, a, k);
      AccountsAfter(s, namespace, names2, x, a, k);
    }
    if t1 == t2 {
      forall account | Key(namespace, account) !in s.serviceAccounts
        ensures Creator(namespace, names1, x, account) == Creator(namespace, names2, x, account)
      {
        assert Account(t1, Key(namespace, account)) == Account(t2, Key(namespace, account));
        AccountTellsCreator(s, namespace, names1, names2, x, account);
      }
    }
    if forall account :: Key(namespace, account) !in s.serviceAccounts ==>
         Creator(namespace, names1, x, account) == Creator(namespace, names2, x, account) {
      forall k: Key
        ensures Account(t1, k) == Account(t2, k)
      {
        assert k == Key(k.namespace, k.name);
      }
      SameAccounts(t1, t2);
    }
  }

  lemma SameAccounts(s: State, t: State)
    requires forall k :: Account(s, k) == Account(t, k)
    ensures s.serviceAccounts == t.serviceAccounts
  {
    assert forall k :: k in s.serviceAccounts ==> Account(s, k) == Account(t, k);
    assert forall k :: k in t.serviceAccounts ==> Account(s, k) == Account(t, k);
  }

  /** An account names the entry it was made for. */
  lemma AccountTellsCreator(s: State, namespace: string, names1: seq<string>, names2: seq<string>, x: Context,
                            account: string)
    requires forall n :: (n in names1 ==> n in x.spec.serviceAccountMapping)
                         && (n in names2 ==> n in x.spec.serviceAccountMapping)
    requires var k := Key(namespace, account);
             k !in s.serviceAccounts
             && AccountMade(s, namespace, names1, x, k) == AccountMade(s, namespace, names2, x, k)
    ensures Creator(namespace, names1, x, account) == Creator(namespace, names2, x, account)
  {
    hide Creator, AccountName;
    var c1, c2 := Creator(namespace, names1, x, account), Creator(namespace, names2, x, account);
    if c1.Some? && c2.Some? {
      var a1 := NewAccount(EntryFor(x, namespace, c1.value), x.op, x.owner);
      var a2 := NewAccount(EntryFor(x, namespace, c2.value), x.op, x.owner);
      assert a1.annotations[SATypeKey] == c1.value && a2.annotations[SATypeKey] == c2.value;
    }
  }

  lemma EnumeratesAll(names: seq<string>, mapping: map<string, string>)
    requires Enumerates(names, mapping)
    ensures Distinct(names) && forall n :: n in names <==> n in mapping
  {
    assert forall n :: n in names <==> n in Elements(names);
  }

  lemma SameBindingsInAnyOrder(s: State, namespace: string, names1: seq<string>, names2: seq<string>, x: Context,
                               a: AccountAnswers)
    requires Enumerates(names1, x.spec.serviceAccountMapping) && Enumerates(names2, x.spec.serviceAccountMapping)
    requires AccountsSucceed(a)
    ensures var t1, t2 := ProcessNames(s, namespace, names1, x, a).0, ProcessNames(s, namespace, names2, x, a).0;
            t1.roleBindings == t2.roleBindings && t1.namespaces == t2.namespaces
  {
    hide ProcessNames, Goal, AccountName, AccountsSucceed, Enumerates;
    EnumeratesAll(names1, x.spec.serviceAccountMapping);
    EnumeratesAll(names2, x.spec.serviceAccountMapping);
    var t1, t2 := ProcessNames(s, namespace, names1, x, a).0, ProcessNames(s, namespace, names2, x, a).0;
    forall k: Key
      ensures SameBinding(t1, t2, k)
    {
      NamesEffect(s, namespace, names1, x, a, k);
      NamesEffect(s, namespace, names2, x, a, k);
    }
    NamesEffect(s, namespace, names1, x, a, Key("", ""));
    NamesEffect(s, namespace, names2, x, a, Key("", ""));
    assert t1.roleBindings == t2.roleBindings by {
      assert forall k :: k in t1.roleBindings ==> SameBinding(t1, t2, k);
      assert forall k :: k in t2.roleBindings ==> SameBinding(t1, t2, k);
    }
  }

  /** No two entries ask for one account that is yet to be made. */
  ghost predicate NoSharedAccount(s: State, namespace: string, x: Context) {
    forall m, n :: m in x.spec.serviceAccountMapping && n in x.spec.serviceAccountMapping && m != n
                   && EntryFor(x, namespace, m).account == EntryFor(x, namespace, n).account
      ==> EntryFor(x, namespace, m).AccountKey() in s.serviceAccounts
  }

  ghost predicate OrderNeverShows(s: State, namespace: string, x: Context, a: AccountAnswers) {
    forall names1, names2 ::
      Enumerates(names1, x.spec.serviceAccountMapping) && Enumerates(names2, x.spec.serviceAccountMapping) ==>
        ProcessNames(s, namespace, names1, x, a).0 == ProcessNames(s, namespace, names2, x, a).0
  }

  /** The keys of the mapping in an order that starts with a given one. */
  lemma OrderFrom(mapping: map<string, string>, first: string) returns (names: seq<string>)
    requires first in mapping
    ensures Enumerates(names, mapping) && names[0] == first
  {
    var rest := ListOf(mapping.Keys - {first});
    names := [first] + rest;
    assert Elements(names) == mapping.Keys by {
      assert forall n :: n in names <==> n == first || n in rest;
    }
  }

  lemma {:induction false} FirstIsCreator(namespace: string, names: seq<string>, x: Context)
    requires names != [] && forall n :: n in names ==> n in x.spec.serviceAccountMapping
    ensures Creator(namespace, names, x, EntryFor(x, namespace, names[0]).account) == Some(names[0])
  {
    hide AccountName;
    var n := |names| - 1;
    if n == 0 {
      assert names[..n] == [];
    } else {
      assert names[..n][0] == names[0];
      FirstIsCreator(namespace, names[..n], x);
    }
  }

  lemma SharedAccountShows(s: State, namespace: string, x: Context, a: AccountAnswers, m: string, n: string)
    requires AccountsSucceed(a) && m in x.spec.serviceAccountMapping && n in x.spec.serviceAccountMapping && m != n
    requires EntryFor(x, namespace, m).account == EntryFor(x, namespace, n).account
    requires EntryFor(x, namespace, m).AccountKey() !in s.serviceAccounts
    ensures !OrderNeverShows(s, namespace, x, a)
  {
    hide ProcessNames, Creator, AccountName, AccountsSucceed, Enumerates;
    var names1 := OrderFrom(x.spec.serviceAccountMapping, m);
    var names2 := OrderFrom(x.spec.serviceAccountMapping, n);
    EnumeratesAll(names1, x.spec.serviceAccountMapping);
    EnumeratesAll(names2, x.spec.serviceAccountMapping);
    FirstIsCreator(namespace, names1, x);
    FirstIsCreator(namespace, names2, x);
    AccountsConfluent(s, namespace, names1, names2, x, a);
  }

  /**
    Whether Go's iteration order can show at all, before any order is picked: all orders
    lead to one cluster exactly if no two entries share an account that is yet to be made.
   */
  lemma OrderNeverShowsExactly(s: State, namespace: string, x: Context, a: AccountAnswers)
    requires AccountsSucceed(a)
    ensures OrderNeverShows(s, namespace, x, a) <==> NoSharedAccount(s, namespace, x)
  {
    hide ProcessNames, Creator, AccountName, AccountsSucceed;
    if NoSharedAccount(s, namespace, x) {
      forall names1, names2 | Enumerates(names1, x.spec.serviceAccountMapping)
                              && Enumerates(names2, x.spec.serviceAccountMapping)
        ensures ProcessNames(s, namespace, names1, x, a).0 == ProcessNames(s, namespace, names2, x, a).0
      {
        EnumeratesAll(names1, x.spec.serviceAccountMapping);
        EnumeratesAll(names2, x.spec.serviceAccountMapping);
        AccountsConfluent(s, namespace, names1, names2, x, a);
      }
    } else {
      var m, n :| m in x.spec.serviceAccountMapping && n in x.spec.serviceAccountMapping && m != n
                  && EntryFor(x, namespace, m).account == EntryFor(x, namespace, n).account
                  && EntryFor(x, namespace, m).AccountKey() !in s.serviceAccounts;
      SharedAccountShows(s, namespace, x, a, m, n);
    }
  }

  /** A pattern that names neither entry nor namespace, and two entries. */
  lemma SharedAccountExample(op: Operator, o: Owner, a: AccountAnswers)
    requires AccountsSucceed(a)
    ensures var x := Context(op, o, Spec(map[], [], [], map["build" := "edit", "view" := "view"], "account"));
            !OrderNeverShows(State(map[], map[], map[]), "shop", x, a)
  {
    hide ProcessNames, AccountsSucceed, ReplaceAll, OrderNeverShows;
    var x := Context(op, o, Spec(map[], [], [], map["build" := "edit", "view" := "view"], "account"));
    TooShort("account", "{namespace}", "shop");
    assert "account" == "account" + "";
    ReplaceAllSkips("account", "", "{name}", "build");
    ReplaceAllSkips("account", "", "{name}", "view");
    TooShort("", "{name}", "build");
    TooShort("", "{name}", "view");
    SharedAccountShows(State(map[], map[], map[]), "shop", x, a, "build", "view");
  }

  // ---------- what a naming pattern means ----------

  /** A pattern, piece by piece: literal text and the two placeholders. */
  datatype Piece = Text(text: string) | NamespaceHere | NameHere

  /** The pieces one after the other, with the namespace and the name in their places. */
  function Filled(pieces: seq<Piece>, namespace: string, name: string): string {
    if pieces == [] then ""
    else
      (match pieces[0]
       case Text(text) => text
       case NamespaceHere => namespace
       case NameHere => name) + Filled(pieces[1..], namespace, name)
  }

  /** The pattern itself, with the placeholders in their places. */
  function Pattern(pieces: seq<Piece>): string {
    Filled(pieces, "{namespace}", "{name}")
  }

  ghost predicate NoBraces(pieces: seq<Piece>) {
    forall p :: p in pieces && p.Text? ==> '{' !in p.text
  }

  lemma NameIsNotNamespace(rest: string, namespace: string)
    ensures ReplaceAll("{name}" + rest, "{namespace}", namespace)
            == "{name}" + ReplaceAll(rest, "{namespace}", namespace)
  {
    var s := "{name}" + rest;
    assert s[5] == '}' && "{namespace}"[5] == 's';
    assert s[1..] == "name}" + rest;
    ReplaceAllSkips("name}", rest, "{namespace}", namespace);
    var tail := ReplaceAll(rest, "{namespace}", namespace);
    assert ReplaceAll(s, "{namespace}", namespace) == ['{'] + ReplaceAll(s[1..], "{namespace}", namespace) by {
      if |s| < |"{namespace}"| {
        TooShort(s, "{namespace}", namespace);
        TooShort(s[1..], "{namespace}", namespace);
        assert s == ['{'] + s[1..];
      }
    }
    assert ['{'] + ("name}" + tail) == "{name}" + tail;
  }

  /** The first substitution: only the namespaces are in. */
  lemma {:induction false} NamespacesIn(pieces: seq<Piece>, namespace: string)
    requires NoBraces(pieces)
    ensures ReplaceAll(Pattern(pieces), "{namespace}", namespace) == Filled(pieces, namespace, "{name}")
  {
    hide ReplaceAll;
    if pieces == [] {
      TooShort("", "{namespace}", namespace);
    } else {
      var rest := Pattern(pieces[1..]);
      assert pieces[0] in pieces && forall p :: p in pieces[1..] ==> p in pieces;
      NamespacesIn(pieces[1..], namespace);
      match pieces[0]
      case Text(text) => ReplaceAllSkips(text, rest, "{namespace}", namespace);
      case NamespaceHere => ReplaceAllHits(rest, "{namespace}", namespace);
      case NameHere => NameIsNotNamespace(rest, namespace);
    }
  }

  lemma {:induction false} NamesIn(pieces: seq<Piece>, namespace: string, name: string)
    requires NoBraces(pieces) && '{' !in namespace
    ensures ReplaceAll(Filled(pieces, namespace, "{name}"), "{name}", name) == Filled(pieces, namespace, name)
  {
    hide ReplaceAll;
    if pieces == [] {
      TooShort("", "{name}", name);
    } else {
      var rest := Filled(pieces[1..], namespace, "{name}");
      assert pieces[0] in pieces && forall p :: p in pieces[1..] ==> p in pieces;
      NamesIn(pieces[1..], namespace, name);
      match pieces[0]
      case Text(text) => ReplaceAllSkips(text, rest, "{name}", name);
      case NamespaceHere => ReplaceAllSkips(namespace, rest, "{name}", name);
      case NameHere => ReplaceAllHits(rest, "{name}", name);
    }
  }

  /**
    For every pattern that is set, with placeholders in any number and order between
    pieces of text without braces: namespace and name stand in their places.
   */
  lemma PatternFilled(pieces: seq<Piece>, namespace: string, name: string)
    requires NoBraces(pieces) && Pattern(pieces) != "" && '{' !in namespace
    ensures AccountName(Pattern(pieces), namespace, name) == Filled(pieces, namespace, name)
  {
    hide ReplaceAll, Filled;
    NamespacesIn(pieces, namespace);
    NamesIn(pieces, namespace, name);
  }

  lemma OnePiece(p: Piece, rest: seq<Piece>, namespace: string, name: string)
    ensures Filled([p] + rest, namespace, name)
            == (if p.Text? then p.text else if p.NamespaceHere? then namespace else name)
               + Filled(rest, namespace, name)
  {
    assert ([p] + rest)[1..] == rest;
  }

  lemma NoPieces(namespace: string, name: string)
    ensures Filled([], namespace, name) == ""
  {}

  /** Three patterns: text first, nothing but the placeholders and a dash, and the namespace last. */
  lemma PatternExamples(namespace: string, name: string)
    requires '{' !in namespace
    ensures AccountName("sa-{namespace}-{name}", namespace, name) == "sa-" + namespace + "-" + name
    ensures AccountName("{namespace}-{name}", namespace, name) == namespace + "-" + name
    ensures AccountName("{name}-{namespace}", namespace, name) == name + "-" + namespace
  {
    hide AccountName, Filled;
    TwoPlaces("sa-", NamespaceHere, NameHere, namespace, name);
    TwoPlaces("", NamespaceHere, NameHere, namespace, name);
    TwoPlaces("", NameHere, NamespaceHere, namespace, name);
    assert "sa-" + "{namespace}" + "-" + "{name}" == "sa-{namespace}-{name}";
    assert "" + "{namespace}" + "-" + "{name}" == "{namespace}-{name}";
    assert "" + "{name}" + "-" + "{namespace}" == "{name}-{namespace}";
    assert "" + namespace == namespace && "" + name == name;
  }

  function Placed(p: Piece, namespace: string, name: string): string {
    if p.NamespaceHere? then namespace else name
  }

  lemma TwoPlaces(text: string, a: Piece, b: Piece, namespace: string, name: string)
    requires '{' !in namespace && '{' !in text && !a.Text? && !b.Text?
    ensures AccountName(text + Placed(a, "{namespace}", "{name}") + "-"
                        + Placed(b, "{namespace}", "{name}"), namespace, name)
            == text + Placed(a, namespace, name) + "-" + Placed(b, namespace, name)
  {
    hide AccountName, Filled;
    var pieces := [Text(text)] + ([a] + ([Text("-")] + ([b] + [])));
    FillsTwoPlaces(text, a, b, "{namespace}", "{name}");
    FillsTwoPlaces(text, a, b, namespace, name);
    PatternFilled(pieces, namespace, name);
  }

  lemma FillsTwoPlaces(text: string, a: Piece, b: Piece, namespace: string, name: string)
    requires !a.Text? && !b.Text?
    ensures Filled([Text(text)] + ([a] + ([Text("-")] + ([b] + []))), namespace, name)
            == text + Placed(a, namespace, name) + "-" + Placed(b, namespace, name)
  {
    hide Filled;
    NoPieces(namespace, name);
    OnePiece(b, [], namespace, name);
    OnePiece(Text("-"), [b] + [], namespace, name);
    OnePiece(a, [Text("-")] + ([b] + []), namespace, name);
    OnePiece(Text(text), [a] + ([Text("-")] + ([b] + [])), namespace, name);
    var tail := Placed(b, namespace, name);
    assert text + (Placed(a, namespace, name) + ("-" + tail)) == text + Placed(a, namespace, name) + "-" + tail;
    assert tail + "" == tail;
  }

  /** Under the default pattern, written out or left empty, the names come out as the pattern says. */
  lemma DefaultName(namespace: string, name: string)
    requires '{' !in namespace
    ensures AccountName("", namespace, name) == namespace + "-sa-" + name
    ensures AccountName("{namespace}-sa-{name}", namespace, name) == namespace + "-sa-" + name
  {
    hide ReplaceAll;
    var ns, nm := "{namespace}", "{name}";
    assert "{namespace}-sa-{name}" == ns + "-sa-{name}";
    ReplaceAllHits("-sa-{name}", ns, namespace);
    assert "-sa-{name}" == "-sa-" + "{name}";
    ReplaceAllSkips("-sa-", "{name}", ns, namespace);
    assert ReplaceAll("{name}", ns, namespace) == "{name}" by { TooShort("{name}", ns, namespace); }
    var middle := namespace + "-sa-";
    assert namespace + ("-sa-" + "{name}") == middle + "{name}";
    ReplaceAllSkips(middle, "{name}", nm, name);
    assert "{name}" == nm + "";
    ReplaceAllHits("", nm, name);
    assert ReplaceAll("", nm, name) == "" by { TooShort("", nm, name); }
    assert name + "" == name;
  }

  lemma TooShort(s: string, pattern: string, replacement: string)
    requires |s| < |pattern|
    ensures ReplaceAll(s, pattern, replacement) == s
  {}

  /** So there no two entries share an account, and no order shows at all. */
  lemma DefaultNamesConfluent(s: State, namespace: string, names1: seq<string>, names2: seq<string>, x: Context,
                              a: AccountAnswers)
    requires x.spec.serviceAccountNamingPattern == "" && '{' !in namespace
    requires Enumerates(names1, x.spec.serviceAccountMapping) && Enumerates(names2, x.spec.serviceAccountMapping)
    requires AccountsSucceed(a)
    ensures ProcessNames(s, namespace, names1, x, a).0 == ProcessNames(s, namespace, names2, x, a).0
  {
    hide ProcessNames, AccountName, Creator, Enumerates, AccountsSucceed;
    EnumeratesAll(names1, x.spec.serviceAccountMapping);
    EnumeratesAll(names2, x.spec.serviceAccountMapping);
    forall account
      ensures Creator(namespace, names1, x, account) == Creator(namespace, names2, x, account)
    {
      var c1, c2 := Creator(namespace, names1, x, account), Creator(namespace, names2, x, account);
      if c1.Some? && c2.Some? {
        DefaultName(namespace, c1.value);
        DefaultName(namespace, c2.value);
        var p := namespace + "-sa-";
        assert (p + c1.value)[|p|..] == c1.value && (p + c2.value)[|p|..] == c2.value;
      }
    }
    AccountsConfluent(s, namespace, names1, names2, x, a);
  }
}
