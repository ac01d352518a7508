/**
  Taking over one namespace or one RoleBinding (reconciliation_rolebindings.go).

  The methods edit the fetched object field by field under a `needsUpdate` flag, as the
  operator does. They are proved against a simpler form: pass the ownership gate, then
  write the desired object, whatever was there. The lemmas are about that form.
 */
module RoleBindings {
  import opened Strings
  import opened Cluster
  import opened Ownership

  // ---------- the desired objects ----------

  /** Annotations once `o` has claimed an object: orphan marks gone, stamp set, creation time kept. */
  function Stamp(a: Annotations, op: Operator, o: Owner, now: NonEmpty): Annotations {
    var unmarked := if Get(a, OrphanedAtKey) != "" then a - {OrphanedAtKey, OrphanedByKey} else a;
    var stamped := unmarked[ManagedByKey := op.managedBy][BinderKey := o.name][BinderNamespaceKey := o.namespace];
    if Get(stamped, CreatedAtKey) == "" then stamped[CreatedAtKey := now] else stamped
  }

  function Labelled(l: Labels, op: Operator): Labels {
    l[ManagedByLabel := op.managedBy]
  }

  const NO_NAMESPACE := Namespace(map[], map[])

  function ClaimNamespace(ns: Namespace, op: Operator, o: Owner, now: NonEmpty): Namespace {
    Namespace(Stamp(ns.annotations, op, o, now), Labelled(ns.labels, op))
  }

  /** What a whitelist line asks for: a group bound to a role in a namespace. */
  datatype Want = Want(namespace: string, role: NonEmpty, group: string, clusterRole: string) {
    function Key(): Key {
      Cluster.Key(namespace, namespace + "-" + role)
    }
    /** The subjects as the operator writes them: no apiGroup. */
    function Requested(): seq<Subject> {
      [Subject("Group", "", group, "")]
    }
    function Subjects(): (stored: seq<StoredSubject>)
      ensures stored == AllDefaulted(Requested())
    {
      [Subject("Group", RBAC_GROUP, group, "")]
    }
    function RoleRef(): RoleRef {
      ClusterRoleRef(clusterRole)
    }
  }

  const NO_BINDING := RoleBinding(map[], map[], [], ClusterRoleRef(""))

  /** The desired RoleBinding, written over `rb`. */
  function Overwrite(rb: RoleBinding, w: Want, op: Operator, o: Owner, now: NonEmpty): RoleBinding {
    RoleBinding(Stamp(rb.annotations, op, o, now)[RoleKey := w.role], Labelled(rb.labels, op), w.Subjects(),
                w.RoleRef())
  }

  /** Nothing about `rb` is left to be done for `w`. */
  predicate Desired(rb: RoleBinding, w: Want, op: Operator, o: Owner) {
    && LiveClaim(rb.annotations, o)
    && Get(rb.annotations, ManagedByKey) == op.managedBy
    && Get(rb.annotations, RoleKey) == w.role
    && Get(rb.annotations, CreatedAtKey) != ""
    && Get(rb.labels, ManagedByLabel) == op.managedBy
    && rb.subjects == w.Subjects()
    && rb.roleRef == w.RoleRef()
  }

  /**
    The operator compares the subjects it would write, without apiGroup, with the stored
    ones. They are never equal: however well a RoleBinding is in order, it is written.
   */
  lemma NeverUpToDate(rb: RoleBinding, w: Want)
    ensures rb.subjects != w.Requested()
  {
    assert |rb.subjects| > 0 ==> rb.subjects[0] != w.Requested()[0];
  }

  lemma DesiredIsFixpoint(rb: RoleBinding, w: Want, op: Operator, o: Owner, now: NonEmpty)
    ensures Desired(rb, w, op, o) <==> Overwrite(rb, w, op, o, now) == rb
  {
    var d := Overwrite(rb, w, op, o, now);
    if d == rb {
      assert rb.annotations == d.annotations && rb.labels == d.labels;
    }
    if Desired(rb, w, op, o) {
      assert d.annotations == rb.annotations;
      assert d.labels == rb.labels;
    }
  }

  predicate DesiredNamespace(ns: Namespace, op: Operator, o: Owner) {
    && LiveClaim(ns.annotations, o)
    && Get(ns.annotations, ManagedByKey) == op.managedBy
    && Get(ns.annotations, CreatedAtKey) != ""
    && Get(ns.labels, ManagedByLabel) == op.managedBy
  }

  lemma DesiredNamespaceIsFixpoint(ns: Namespace, op: Operator, o: Owner, now: NonEmpty)
    ensures DesiredNamespace(ns, op, o) <==> ClaimNamespace(ns, op, o, now) == ns
  {
    var d := ClaimNamespace(ns, op, o, now);
    if d == ns {
      assert ns.annotations == d.annotations && ns.labels == d.labels;
    }
    if DesiredNamespace(ns, op, o) {
      assert d.annotations == ns.annotations;
      assert d.labels == ns.labels;
    }
  }

  // ---------- gate, then write ----------

  function OldNamespace(s: State, name: string): Namespace {
    if name in s.namespaces then s.namespaces[name] else NO_NAMESPACE
  }

  function OldBinding(s: State, key: Key): RoleBinding {
    if key in s.roleBindings then s.roleBindings[key] else NO_BINDING
  }

  predicate NamespaceRefused(s: State, name: string, o: Owner) {
    name in s.namespaces && !CanTakeOwnership(s.namespaces[name].annotations, o)
  }

  predicate BindingRefused(s: State, key: Key, o: Owner) {
    key in s.roleBindings && !CanTakeOwnership(s.roleBindings[key].annotations, o)
  }

  /** The write the API server turns down because roleRef may not change. */
  predicate BindingStuck(s: State, w: Want, op: Operator) {
    w.Key() in s.roleBindings && !UpdateAllowed(op.rule, s.roleBindings[w.Key()].roleRef, w.RoleRef())
  }

  function EnsureNamespace(s: State, name: string, op: Operator, o: Owner, now: NonEmpty, api: Api): (State, bool) {
    var wanted := ClaimNamespace(OldNamespace(s, name), op, o, now);
    if !api.getOk then (s, false)
    else if NamespaceRefused(s, name, o) then (s, true)
    else if name in s.namespaces && wanted == s.namespaces[name] then (s, true)
    else if !api.writeOk then (s, false)
    else (s.(namespaces := s.namespaces[name := wanted]), true)
  }

  datatype Outcome = Managed | Refused | Failed

  function Bind(s: State, w: Want, op: Operator, o: Owner, now: NonEmpty, api: Api): (State, Outcome) {
    var key := w.Key();
    var wanted := Overwrite(OldBinding(s, key), w, op, o, now);
    if !api.getOk then (s, Failed)
    else if BindingRefused(s, key, o) then (s, Refused)
    else if !api.writeOk || BindingStuck(s, w, op) then (s, Failed)
    else (s.(roleBindings := s.roleBindings[key := wanted]), Managed)
  }

  // ---------- the operator's methods ----------

  method EnsureNamespaceExists(c: Client, name: string, op: Operator, o: Owner, now: NonEmpty, api: Api)
    returns (ok: bool)
    modifies c
    ensures (c.state, ok) == EnsureNamespace(old(c.state), name, op, o, now, api)
  {
    if !api.getOk {
      return false;
    }
    if name !in c.state.namespaces {
      var created := Namespace(
        map[ManagedByKey := op.managedBy, CreatedAtKey := now, BinderKey := o.name, BinderNamespaceKey := o.namespace],
        map[ManagedByLabel := op.managedBy]);
      assert created.annotations == Stamp(map[], op, o, now);
      ok := c.WriteNamespace(name, created, api.writeOk);
      return;
    }
    var annotations := c.state.namespaces[name].annotations;
    var labels := c.state.namespaces[name].labels;
    if !CanTakeOwnership(annotations, o) {
      return true;
    }
    DesiredNamespaceIsFixpoint(c.state.namespaces[name], op, o, now);
    var needsUpdate := false;
    if Get(annotations, OrphanedAtKey) != "" {
      annotations := annotations - {OrphanedAtKey, OrphanedByKey};
      needsUpdate := true;
    }
    ghost var unmarked := annotations;
    if Get(annotations, ManagedByKey) != op.managedBy {
      annotations := annotations[ManagedByKey := op.managedBy];
      needsUpdate := true;
    }
    assert annotations == unmarked[ManagedByKey := op.managedBy];
    if Get(annotations, BinderKey) != o.name {
      annotations := annotations[BinderKey := o.name];
      needsUpdate := true;
    }
    assert annotations == unmarked[ManagedByKey := op.managedBy][BinderKey := o.name];
    if Get(annotations, BinderNamespaceKey) != o.namespace {
      annotations := annotations[BinderNamespaceKey := o.namespace];
      needsUpdate := true;
    }
    assert annotations
           == unmarked[ManagedByKey := op.managedBy][BinderKey := o.name][BinderNamespaceKey := o.namespace];
    if Get(annotations, CreatedAtKey) == "" {
      annotations := annotations[CreatedAtKey := now];
      needsUpdate := true;
    }
    if Get(labels, ManagedByLabel) != op.managedBy {
      labels := labels[ManagedByLabel := op.managedBy];
      needsUpdate := true;
    }
    assert annotations == Stamp(c.state.namespaces[name].annotations, op, o, now);
    assert labels == Labelled(c.state.namespaces[name].labels, op);
    ok := true;
    if needsUpdate {
      ok := c.WriteNamespace(name, Namespace(annotations, labels), api.writeOk);
    }
  }

  method CreateRoleBinding(c: Client, w: Want, op: Operator, o: Owner, now: NonEmpty, api: Api)
    returns (managed: bool, err: bool)
    modifies c
    ensures (c.state, if err then Failed else if managed then Managed else Refused)
            == Bind(old(c.state), w, op, o, now, api)
    ensures err ==> !managed
  {
    var key := w.Key();
    if !api.getOk {
      return false, true;
    }
    if key !in c.state.roleBindings {
      var created := BindingRequest(
        map[ManagedByKey := op.managedBy, CreatedAtKey := now, BinderKey := o.name,
            BinderNamespaceKey := o.namespace, RoleKey := w.role],
        map[ManagedByLabel := op.managedBy], w.Requested(), w.RoleRef());
      assert created.annotations == Stamp(map[], op, o, now)[RoleKey := w.role];
      managed := c.CreateRoleBinding(key, created, api.writeOk);
      return managed, !managed;
    }
    var existing := Request(c.state.roleBindings[key]);
    if !CanTakeOwnership(existing.annotations, o) {
      return false, false;
    }
    NeverUpToDate(c.state.roleBindings[key], w);
    var needsUpdate := false;
    var orphaned := Get(existing.annotations, OrphanedAtKey) != "";
    if existing.roleRef != w.RoleRef() { needsUpdate := true; }
    if existing.subjects != w.Requested() { needsUpdate := true; }
    if Get(existing.annotations, ManagedByKey) != op.managedBy { needsUpdate := true; }
    if Get(existing.annotations, BinderKey) != o.name { needsUpdate := true; }
    if Get(existing.annotations, BinderNamespaceKey) != o.namespace { needsUpdate := true; }
    if Get(existing.annotations, RoleKey) != w.role { needsUpdate := true; }
    if Get(existing.annotations, CreatedAtKey) == "" { needsUpdate := true; }
    if Get(existing.labels, ManagedByLabel) != op.managedBy { needsUpdate := true; }
    if orphaned { needsUpdate := true; }
    if !needsUpdate {
      return true, false;
    }
    existing := existing.(subjects := w.Requested(), roleRef := w.RoleRef());
    var annotations := existing.annotations;
    if orphaned {
      annotations := annotations - {OrphanedAtKey, OrphanedByKey};
    }
    annotations := annotations[ManagedByKey := op.managedBy];
    annotations := annotations[BinderKey := o.name];
    annotations := annotations[BinderNamespaceKey := o.namespace];
    annotations := annotations[RoleKey := w.role];
    if Get(annotations, CreatedAtKey) == "" {
      annotations := annotations[CreatedAtKey := now];
    }
    existing := existing.(annotations := annotations, labels := existing.labels[ManagedByLabel := op.managedBy]);
    assert existing.Stored() == Overwrite(c.state.roleBindings[key], w, op, o, now) by {
      assert annotations == Overwrite(c.state.roleBindings[key], w, op, o, now).annotations;
    }
    managed := c.UpdateRoleBinding(key, existing, op.rule, api.writeOk);
    err := !managed;
  }

  // ---------- what the simple form promises ----------

  /** `managed` is the truth about the stored object, exactly when both calls succeed. */
  lemma ManagedMeansDesired(s: State, w: Want, op: Operator, o: Owner, now: NonEmpty, api: Api)
    ensures var (s', r) := Bind(s, w, op, o, now, api);
            r.Managed? <==>
              && w.Key() in s'.roleBindings && Desired(s'.roleBindings[w.Key()], w, op, o)
              && api == ALL_GOOD
  {
    DesiredIsFixpoint(OldBinding(s, w.Key()), w, op, o, now);
    assert Desired(Overwrite(OldBinding(s, w.Key()), w, op, o, now), w, op, o);
  }

  /** What a managed RoleBinding reads afterwards, field by field, whatever it read before. */
  lemma BindWrites(s: State, w: Want, op: Operator, o: Owner, now: NonEmpty, api: Api)
    ensures var (t, r) := Bind(s, w, op, o, now, api);
            var k := Cluster.Key(w.namespace, w.namespace + "-" + w.role);
            var was := OldBinding(s, k).annotations;
            (t != s ==> r.Managed?) &&
            (r.Managed? ==>
               && k in t.roleBindings
               && var rb := t.roleBindings[k];
                  && Get(rb.annotations, ManagedByKey) == op.managedBy
                  && Get(rb.annotations, BinderKey) == o.name
                  && Get(rb.annotations, BinderNamespaceKey) == o.namespace
                  && Get(rb.annotations, RoleKey) == w.role
                  && Get(rb.annotations, CreatedAtKey)
                     == (if Get(was, CreatedAtKey) == "" then now else Get(was, CreatedAtKey))
                  && Get(rb.annotations, OrphanedAtKey) == ""
                  && (Get(was, OrphanedAtKey) != "" ==> Get(rb.annotations, OrphanedByKey) == "")
                  && Get(rb.labels, ManagedByLabel) == op.managedBy
                  && rb.subjects == [Subject("Group", "rbac.authorization.k8s.io", w.group, "")]
                  && rb.roleRef == RoleRef("rbac.authorization.k8s.io", "ClusterRole", w.clusterRole))
  {}

  /** Of the exchanges that change nothing, those refused by the gate are told from those that failed. */
  lemma RefusedExactly(s: State, w: Want, op: Operator, o: Owner, now: NonEmpty, api: Api)
    ensures var (t, r) := Bind(s, w, op, o, now, api);
            && (r.Refused? <==> api.getOk && BindingRefused(s, w.Key(), o))
            && (!r.Managed? ==> t == s)
  {
    hide Overwrite, CanTakeOwnership;
  }

  /** The same for a namespace: field by field, and when the exchange fails. */
  lemma ClaimWrites(s: State, name: string, op: Operator, o: Owner, now: NonEmpty, api: Api)
    ensures var (t, ok) := EnsureNamespace(s, name, op, o, now, api);
            var was := OldNamespace(s, name).annotations;
            && (NamespaceRefused(s, name, o) || !ok ==> t == s)
            && (ok && !NamespaceRefused(s, name, o) ==>
                  && name in t.namespaces
                  && var ns := t.namespaces[name];
                     && Get(ns.annotations, ManagedByKey) == op.managedBy
                     && Get(ns.annotations, BinderKey) == o.name
                     && Get(ns.annotations, BinderNamespaceKey) == o.namespace
                     && Get(ns.annotations, CreatedAtKey)
                        == (if Get(was, CreatedAtKey) == "" then now else Get(was, CreatedAtKey))
                     && Get(ns.annotations, OrphanedAtKey) == ""
                     && (Get(was, OrphanedAtKey) != "" ==> Get(ns.annotations, OrphanedByKey) == "")
                     && Get(ns.labels, ManagedByLabel) == op.managedBy)
  {}

  /** Keys of annotations the operator never writes on a group RoleBinding. */
  predicate Foreign(k: AnnotationKey) {
    k !in {ManagedByKey, CreatedAtKey, BinderKey, BinderNamespaceKey, RoleKey, OrphanedAtKey, OrphanedByKey}
  }

  /** What an update leaves alone in the object it writes. */
  ghost predicate KeepsForeign(before: RoleBinding, after: RoleBinding) {
    && (forall a :: Foreign(a) ==> (a in after.annotations <==> a in before.annotations))
    && (forall a :: Foreign(a) && a in before.annotations ==> after.annotations[a] == before.annotations[a])
    && (forall l :: l != ManagedByLabel ==> (l in after.labels <==> l in before.labels))
    && (forall l :: l != ManagedByLabel && l in before.labels ==> after.labels[l] == before.labels[l])
    && (Get(before.annotations, CreatedAtKey) != "" ==>
          Get(after.annotations, CreatedAtKey) == Get(before.annotations, CreatedAtKey))
  }

  lemma OverwriteKeepsForeign(rb: RoleBinding, w: Want, op: Operator, o: Owner, now: NonEmpty)
    ensures KeepsForeign(rb, Overwrite(rb, w, op, o, now))
  {
    var d := Overwrite(rb, w, op, o, now);
    forall a | Foreign(a)
      ensures a in d.annotations <==> a in rb.annotations
      ensures a in rb.annotations ==> d.annotations[a] == rb.annotations[a]
    {}
  }

  /** An update touches one object, and in it only what is the operator's. */
  lemma BindPreserves(s: State, w: Want, op: Operator, o: Owner, now: NonEmpty, api: Api)
    ensures var s' := Bind(s, w, op, o, now, api).0;
            && s'.namespaces == s.namespaces && s'.serviceAccounts == s.serviceAccounts
            && s'.roleBindings - {w.Key()} == s.roleBindings - {w.Key()}
            && (w.Key() in s.roleBindings ==>
                  && w.Key() in s'.roleBindings
                  && KeepsForeign(s.roleBindings[w.Key()], s'.roleBindings[w.Key()])
                  && (op.rule.Immutable? ==> s'.roleBindings[w.Key()].roleRef == s.roleBindings[w.Key()].roleRef))
  {
    OverwriteKeepsForeign(OldBinding(s, w.Key()), w, op, o, now);
  }

  /** Writing twice is writing the second time; the first write's creation time stays. */
  lemma OverwriteOverwrite(rb: RoleBinding, w1: Want, w2: Want, op: Operator, o: Owner, t1: NonEmpty, t2: NonEmpty)
    ensures Overwrite(Overwrite(rb, w1, op, o, t1), w2, op, o, t2) == Overwrite(rb, w2, op, o, t1)
  {
    var once := Overwrite(rb, w1, op, o, t1);
    var twice := Overwrite(once, w2, op, o, t2);
    assert twice.annotations == Overwrite(rb, w2, op, o, t1).annotations;
    assert twice.labels == Overwrite(rb, w2, op, o, t1).labels;
  }

  lemma ClaimClaim(ns: Namespace, op: Operator, o: Owner, t1: NonEmpty, t2: NonEmpty)
    ensures ClaimNamespace(ClaimNamespace(ns, op, o, t1), op, o, t2) == ClaimNamespace(ns, op, o, t1)
  {
    assert DesiredNamespace(ClaimNamespace(ns, op, o, t1), op, o);
    DesiredNamespaceIsFixpoint(ClaimNamespace(ns, op, o, t1), op, o, t2);
  }

  /** Key and role determine each other, so two lines for one RoleBinding agree on its role. */
  lemma KeyDeterminesRole(w1: Want, w2: Want)
    requires w1.Key() == w2.Key()
    ensures w1.namespace == w2.namespace && w1.role == w2.role
  {
    var n := |w1.namespace| + 1;
    assert w1.Key().name[n..] == w1.role && w2.Key().name[n..] == w2.role;
  }
}
