/**
  The two cleanups (reconciliation_cleanup.go): marking everything a deleted CR managed
  as orphaned, and purging RoleBindings whose role or prefix is gone from the spec.

  Main results: the purge never undoes the whitelist pass and leaves nothing obsolete;
  deleting a CR and processing the same whitelist under another CR hands everything over.
 */
module Cleanup {
  import opened Strings
  import opened Cluster
  import opened Ownership
  import opened RoleBindings
  import opened ConfigMap
  import Whitelist

  // ---------- what a CR manages ----------

  predicate ManagesBinding(s: State, k: Key, op: Operator, o: Owner) {
    && k in s.roleBindings
    && Get(s.roleBindings[k].labels, ManagedByLabel) == op.managedBy
    && IsOwnedBy(s.roleBindings[k].annotations, o)
  }

  predicate ManagesNamespace(s: State, n: string, op: Operator, o: Owner) {
    && n in s.namespaces
    && Get(s.namespaces[n].labels, ManagedByLabel) == op.managedBy
    && IsOwnedBy(s.namespaces[n].annotations, o)
  }

  function ManagedBindings(s: State, op: Operator, o: Owner): set<Key> {
    set k | k in s.roleBindings && ManagesBinding(s, k, op, o)
  }

  function ManagedNamespaces(s: State, op: Operator, o: Owner): set<string> {
    set n | n in s.namespaces && ManagesNamespace(s, n, op, o)
  }

  /** The managed RoleBindings as one list call returns them. */
  function Listing(s: State, op: Operator, o: Owner): map<Key, RoleBinding> {
    map k | k in ManagedBindings(s, op, o) :: s.roleBindings[k]
  }

  // ---------- orphaning ----------

  function MarkOrphaned(a: Annotations, now: NonEmpty): Annotations {
    a[OrphanedAtKey := now][OrphanedByKey := ORPHANED_BY_DELETION]
  }

  /** Whether each list call and each single update succeeds. */
  datatype OrphanAnswers = OrphanAnswers(
    listBindingsOk: bool, bindingOk: Key -> bool, listNamespacesOk: bool, namespaceOk: string -> bool)

  function OrphanedBindings(s: State, ks: set<Key>, now: NonEmpty): map<Key, RoleBinding> {
    map k | k in s.roleBindings ::
      if k in ks then s.roleBindings[k].(annotations := MarkOrphaned(s.roleBindings[k].annotations, now))
      else s.roleBindings[k]
  }

  function OrphanedNamespaces(s: State, ns: set<string>, now: NonEmpty): map<string, Namespace> {
    map n | n in s.namespaces ::
      if n in ns then s.namespaces[n].(annotations := MarkOrphaned(s.namespaces[n].annotations, now))
      else s.namespaces[n]
  }

  function MarkedBindings(s: State, op: Operator, o: Owner, a: OrphanAnswers): set<Key> {
    set k | k in ManagedBindings(s, op, o) && a.listBindingsOk && a.bindingOk(k)
  }

  function MarkedNamespaces(s: State, op: Operator, o: Owner, a: OrphanAnswers): set<string> {
    set n | n in ManagedNamespaces(s, op, o) && a.listNamespacesOk && a.namespaceOk(n)
  }

  function Orphan(s: State, op: Operator, o: Owner, now: NonEmpty, a: OrphanAnswers): State {
    s.(roleBindings := OrphanedBindings(s, MarkedBindings(s, op, o, a), now),
       namespaces := OrphanedNamespaces(s, MarkedNamespaces(s, op, o, a), now))
  }

  // ---------- the loops, with others in between ----------

  /** What others do to the cluster before the call that concerns one object, and before the namespaces are listed. */
  datatype Meanwhile = Meanwhile(
    binding: Key -> (State -> State), listing: State -> State, namespace: string -> (State -> State))

  const NOBODY := Meanwhile(k => s => s, s => s, n => s => s)

  /** An update of the object as it was listed: the resource version sees to it that nobody came in between. */
  function MarkBinding(s: State, k: Key, seen: RoleBinding, now: NonEmpty): State {
    if k in s.roleBindings && s.roleBindings[k] == seen
    then s.(roleBindings := s.roleBindings[k := seen.(annotations := MarkOrphaned(seen.annotations, now))])
    else s
  }

  /** The namespace is read again and marked as it is then, whoever owns it by now. */
  function MarkNamespace(s: State, n: string, now: NonEmpty): State {
    if n in s.namespaces
    then s.(namespaces := s.namespaces[
              n := s.namespaces[n].(annotations := MarkOrphaned(s.namespaces[n].annotations, now))])
    else s
  }

  function MarkBindings(s: State, listed: map<Key, RoleBinding>, order: seq<Key>, now: NonEmpty, ok: Key -> bool,
                        meanwhile: Meanwhile): State
  {
    if order == [] then s
    else
      var n := |order| - 1;
      var k := order[n];
      var t := meanwhile.binding(k)(MarkBindings(s, listed, order[..n], now, ok, meanwhile));
      if k in listed && ok(k) then MarkBinding(t, k, listed[k], now) else t
  }

  lemma OneMoreMarkBinding(s: State, listed: map<Key, RoleBinding>, order: seq<Key>, now: NonEmpty, ok: Key -> bool,
                           meanwhile: Meanwhile, k: Key)
    requires k in listed
    ensures var t := meanwhile.binding(k)(MarkBindings(s, listed, order, now, ok, meanwhile));
            MarkBindings(s, listed, order + [k], now, ok, meanwhile)
            == if ok(k) then MarkBinding(t, k, listed[k], now) else t
  {
    assert (order + [k])[..|order|] == order;
  }

  function MarkNamespaces(s: State, order: seq<string>, now: NonEmpty, ok: string -> bool,
                          meanwhile: Meanwhile): State {
    if order == [] then s
    else
      var n := |order| - 1;
      var t := meanwhile.namespace(order[n])(MarkNamespaces(s, order[..n], now, ok, meanwhile));
      if ok(order[n]) then MarkNamespace(t, order[n], now) else t
  }

  lemma OneMoreMarkNamespace(s: State, order: seq<string>, now: NonEmpty, ok: string -> bool, meanwhile: Meanwhile,
                             n: string)
    ensures var t := meanwhile.namespace(n)(MarkNamespaces(s, order, now, ok, meanwhile));
            MarkNamespaces(s, order + [n], now, ok, meanwhile) == if ok(n) then MarkNamespace(t, n, now) else t
  {
    assert (order + [n])[..|order|] == order;
  }

  method CleanupManagedResources(c: Client, op: Operator, o: Owner, now: NonEmpty, a: OrphanAnswers,
                                 meanwhile: Meanwhile)
    returns (ghost bindings: seq<Key>, ghost names: seq<string>)
    modifies c
    ensures Lists(bindings, if a.listBindingsOk then Listing(old(c.state), op, o).Keys else {})
    ensures var s1 := meanwhile.listing(
                        MarkBindings(old(c.state), Listing(old(c.state), op, o), bindings, now, a.bindingOk,
                                     meanwhile));
            && Lists(names, if a.listNamespacesOk then ManagedNamespaces(s1, op, o) else {})
            && c.state == MarkNamespaces(s1, names, now, a.namespaceOk, meanwhile)
  {
    bindings := OrphanBindings(c, op, o, now, a, meanwhile);
    c.Interfere(meanwhile.listing(c.state));
    names := OrphanNamespaces(c, op, o, now, a, meanwhile);
  }

  method OrphanBindings(c: Client, op: Operator, o: Owner, now: NonEmpty, a: OrphanAnswers, meanwhile: Meanwhile)
    returns (ghost order: seq<Key>)
    modifies c
    ensures Lists(order, if a.listBindingsOk then Listing(old(c.state), op, o).Keys else {})
    ensures c.state == MarkBindings(old(c.state), Listing(old(c.state), op, o), order, now, a.bindingOk, meanwhile)
  {
    hide MarkBindings, ManagesBinding;
    order := [];
    assert c.state == MarkBindings(c.state, Listing(c.state, op, o), [], now, a.bindingOk, meanwhile) by {
      NothingMarked(c.state, Listing(c.state, op, o), now, a, meanwhile);
    }
    if !a.listBindingsOk {
      return;
    }
    var listed := Listing(c.state, op, o);
    var todo := listed.Keys;
    while todo != {}
      invariant todo <= listed.Keys
      invariant Lists(order, listed.Keys - todo)
      invariant c.state == MarkBindings(old(c.state), listed, order, now, a.bindingOk, meanwhile)
      decreases |todo|
    {
      var k :| k in todo;
      ListOneMore(order, k);
      OneMoreMarkBinding(old(c.state), listed, order, now, a.bindingOk, meanwhile, k);
      todo := todo - {k};
      order := order + [k];
      c.Interfere(meanwhile.binding(k)(c.state));
      var rb := listed[k];
      rb := rb.(annotations := rb.annotations[OrphanedAtKey := now]);
      rb := rb.(annotations := rb.annotations[OrphanedByKey := ORPHANED_BY_DELETION]);
      if k in c.state.roleBindings && c.state.roleBindings[k] == listed[k] {
        var _ := c.UpdateRoleBinding(k, Request(rb), op.rule, a.bindingOk(k));
      }
    }
  }

  lemma ListOneMore<T>(list: seq<T>, x: T)
    requires Distinct(list) && x !in Elements(list)
    ensures Lists(list + [x], Elements(list) + {x})
  {}

  lemma NothingMarked(s: State, listed: map<Key, RoleBinding>, now: NonEmpty, a: OrphanAnswers, meanwhile: Meanwhile)
    ensures MarkBindings(s, listed, [], now, a.bindingOk, meanwhile) == s
    ensures MarkNamespaces(s, [], now, a.namespaceOk, meanwhile) == s
  {}

  method OrphanNamespaces(c: Client, op: Operator, o: Owner, now: NonEmpty, a: OrphanAnswers, meanwhile: Meanwhile)
    returns (ghost order: seq<string>)
    modifies c
    ensures Lists(order, if a.listNamespacesOk then ManagedNamespaces(old(c.state), op, o) else {})
    ensures c.state == MarkNamespaces(old(c.state), order, now, a.namespaceOk, meanwhile)
  {
    hide MarkNamespaces, ManagesNamespace;
    order := [];
    NothingMarked(c.state, map[], now, a, meanwhile);
    if !a.listNamespacesOk {
      return;
    }
    var listed := ManagedNamespaces(c.state, op, o);
    var todo := listed;
    while todo != {}
      invariant todo <= listed
      invariant Lists(order, listed - todo)
      invariant c.state == MarkNamespaces(old(c.state), order, now, a.namespaceOk, meanwhile)
      decreases |todo|
    {
      var n :| n in todo;
      ListOneMore(order, n);
      OneMoreMarkNamespace(old(c.state), order, now, a.namespaceOk, meanwhile, n);
      todo := todo - {n};
      order := order + [n];
      c.Interfere(meanwhile.namespace(n)(c.state));
      if n !in c.state.namespaces {
        continue;
      }
      var ns := c.state.namespaces[n];
      ns := ns.(annotations := ns.annotations[OrphanedAtKey := now]);
      ns := ns.(annotations := ns.annotations[OrphanedByKey := ORPHANED_BY_DELETION]);
      var _ := c.WriteNamespace(n, ns, a.namespaceOk(n));
    }
  }

  // ---------- undisturbed, the loops orphan exactly what was listed ----------

  lemma {:induction false} MarkedBindingsAlone(s: State, op: Operator, o: Owner, order: seq<Key>, now: NonEmpty,
                                               ok: Key -> bool)
    requires Distinct(order) && forall k :: k in order ==> k in Listing(s, op, o)
    ensures MarkBindings(s, Listing(s, op, o), order, now, ok, NOBODY)
         == s.(roleBindings := OrphanedBindings(s, (set k | k in order && ok(k)), now))
  {
    hide Listing, MarkOrphaned, OrphanedBindings;
    if order == [] {
      NoneMarked(s, now);
      assert (set k | k in order && ok(k)) == {};
    } else {
      var n := |order| - 1;
      var init, k := order[..n], order[n];
      assert order == init + [k] && k !in init;
      MarkedBindingsAlone(s, op, o, init, now, ok);
      ListedAsStored(s, op, o, k);
      StillAsStored(s, (set j | j in init && ok(j)), k, now);
      if ok(k) {
        assert (set j | j in order && ok(j)) == (set j | j in init && ok(j)) + {k};
        OneMoreBinding(s, (set j | j in init && ok(j)), k, now);
      } else {
        assert (set j | j in order && ok(j)) == (set j | j in init && ok(j));
      }
    }
  }

  lemma NoneMarked(s: State, now: NonEmpty)
    ensures OrphanedBindings(s, {}, now) == s.roleBindings
  {}

  lemma StillAsStored(s: State, marked: set<Key>, k: Key, now: NonEmpty)
    requires k in s.roleBindings && k !in marked
    ensures var t := OrphanedBindings(s, marked, now); k in t && t[k] == s.roleBindings[k]
  {}

  lemma ListedAsStored(s: State, op: Operator, o: Owner, k: Key)
    requires k in Listing(s, op, o)
    ensures k in s.roleBindings && Listing(s, op, o)[k] == s.roleBindings[k]
  {}

  lemma OneMoreBinding(s: State, marked: set<Key>, k: Key, now: NonEmpty)
    requires k in s.roleBindings && k !in marked
    ensures OrphanedBindings(s, marked + {k}, now)
         == OrphanedBindings(s, marked, now)[
              k := s.roleBindings[k].(annotations := MarkOrphaned(s.roleBindings[k].annotations, now))]
  {}

  lemma {:induction false} MarkedNamespacesAlone(s: State, order: seq<string>, now: NonEmpty, ok: string -> bool)
    requires Distinct(order) && forall n :: n in order ==> n in s.namespaces
    ensures MarkNamespaces(s, order, now, ok, NOBODY)
         == s.(namespaces := OrphanedNamespaces(s, (set n | n in order && ok(n)), now))
  {
    if order == [] {
      assert s.namespaces == OrphanedNamespaces(s, {}, now);
      assert (set n | n in order && ok(n)) == {};
    } else {
      var last := |order| - 1;
      var init, n := order[..last], order[last];
      assert order == init + [n] && n !in init;
      MarkedNamespacesAlone(s, init, now, ok);
      assert (set j | j in order && ok(j)) == (set j | j in init && ok(j)) + (if ok(n) then {n} else {});
      if ok(n) {
        OneMoreNamespace(s, (set j | j in init && ok(j)), n, now);
      }
    }
  }

  lemma OneMoreNamespace(s: State, marked: set<string>, n: string, now: NonEmpty)
    requires n in s.namespaces && n !in marked
    ensures OrphanedNamespaces(s, marked + {n}, now)
         == OrphanedNamespaces(s, marked, now)[
              n := s.namespaces[n].(annotations := MarkOrphaned(s.namespaces[n].annotations, now))]
  {}

  lemma BindingsAlone(s: State, op: Operator, o: Owner, now: NonEmpty, a: OrphanAnswers, order: seq<Key>)
    requires Lists(order, if a.listBindingsOk then Listing(s, op, o).Keys else {})
    ensures MarkBindings(s, Listing(s, op, o), order, now, a.bindingOk, NOBODY)
         == s.(roleBindings := OrphanedBindings(s, MarkedBindings(s, op, o, a), now))
  {
    hide MarkBindings, OrphanedBindings, ManagesBinding;
    assert forall k :: k in order <==> k in Elements(order);
    assert Listing(s, op, o).Keys == ManagedBindings(s, op, o);
    MarkedBindingsAlone(s, op, o, order, now, a.bindingOk);
    assert (set k | k in order && a.bindingOk(k)) == MarkedBindings(s, op, o, a);
  }

  lemma NamespacesAlone(s: State, op: Operator, o: Owner, now: NonEmpty, a: OrphanAnswers, order: seq<string>)
    requires Lists(order, if a.listNamespacesOk then ManagedNamespaces(s, op, o) else {})
    ensures MarkNamespaces(s, order, now, a.namespaceOk, NOBODY)
         == s.(namespaces := OrphanedNamespaces(s, MarkedNamespaces(s, op, o, a), now))
  {
    hide MarkNamespaces, OrphanedNamespaces, ManagesNamespace;
    assert forall n :: n in order <==> n in Elements(order);
    MarkedNamespacesAlone(s, order, now, a.namespaceOk);
    assert (set n | n in order && a.namespaceOk(n)) == MarkedNamespaces(s, op, o, a);
  }

  /** With nobody in between, the cleanup marks exactly the managed objects whose update succeeds. */
  lemma CleanupAlone(s: State, op: Operator, o: Owner, now: NonEmpty, a: OrphanAnswers, bindings: seq<Key>,
                     names: seq<string>)
    requires Lists(bindings, if a.listBindingsOk then Listing(s, op, o).Keys else {})
    requires var s1 := MarkBindings(s, Listing(s, op, o), bindings, now, a.bindingOk, NOBODY);
             Lists(names, if a.listNamespacesOk then ManagedNamespaces(s1, op, o) else {})
    ensures var s1 := MarkBindings(s, Listing(s, op, o), bindings, now, a.bindingOk, NOBODY);
            MarkNamespaces(s1, names, now, a.namespaceOk, NOBODY) == Orphan(s, op, o, now, a)
  {
    hide MarkBindings, MarkNamespaces, MarkOrphaned, Lists, OrphanedBindings;
    BindingsAlone(s, op, o, now, a, bindings);
    var s1 := MarkBindings(s, Listing(s, op, o), bindings, now, a.bindingOk, NOBODY);
    NamespacesAlone(s1, op, o, now, a, names);
    assert MarkedNamespaces(s1, op, o, a) == MarkedNamespaces(s, op, o, a);
  }

  // ---------- purging ----------

  function ResolvedRole(k: Key, rb: RoleBinding, mapping: map<string, string>): string {
    if Get(rb.annotations, RoleKey) != "" then Get(rb.annotations, RoleKey)
    else Whitelist.ExtractRole(k.name, mapping)
  }

  predicate RoleGone(k: Key, rb: RoleBinding, spec: Spec) {
    var role := ResolvedRole(k, rb, spec.roleMapping);
    role != "" && role !in spec.roleMapping
  }

  predicate PrefixGone(rb: RoleBinding, spec: Spec) {
    rb.subjects != [] && forall p :: p in spec.prefixes ==> !(p + "-" <= rb.subjects[0].name)
  }

  datatype PurgeAnswers = PurgeAnswers(listOk: bool, roleDeleteOk: Key -> bool, prefixDeleteOk: Key -> bool)

  /** What the first and the second loop over a listing delete. */
  function RoleVictims(listed: map<Key, RoleBinding>, spec: Spec, ok: Key -> bool): set<Key> {
    set k | k in listed && RoleGone(k, listed[k], spec) && ok(k)
  }

  function PrefixVictims(listed: map<Key, RoleBinding>, spec: Spec, ok: Key -> bool): set<Key> {
    set k | k in listed && PrefixGone(listed[k], spec) && ok(k)
  }

  function Without(s: State, ks: set<Key>): State {
    s.(roleBindings := s.roleBindings - ks)
  }

  function Purge(s: State, x: Context, a: PurgeAnswers): (State, bool) {
    if !a.listOk then (s, false)
    else
      var listed := Listing(s, x.op, x.owner);
      (Without(Without(s, RoleVictims(listed, x.spec, a.roleDeleteOk)),
               PrefixVictims(listed, x.spec, a.prefixDeleteOk)), true)
  }

  method ReconcileAllManagedResources(c: Client, x: Context, a: PurgeAnswers) returns (ok: bool)
    modifies c
    ensures (c.state, ok) == Purge(old(c.state), x, a)
  {
    if !a.listOk {
      return false;
    }
    var listed := Listing(c.state, x.op, x.owner);
    DeleteGoneRoles(c, listed, x.spec, a.roleDeleteOk);
    DeleteGonePrefixes(c, listed, x.spec, a.prefixDeleteOk);
    ok := true;
  }

  /** The objects are judged as listed; they are not read again before they are deleted. */
  method DeleteGoneRoles(c: Client, listed: map<Key, RoleBinding>, spec: Spec, ok: Key -> bool)
    modifies c
    ensures c.state == Without(old(c.state), RoleVictims(listed, spec, ok))
  {
    hide Without;
    NoneGone(c.state);
    ghost var gone: set<Key> := {};
    var todo := listed.Keys;
    while todo != {}
      invariant todo <= listed.Keys
      invariant gone == set k | k in RoleVictims(listed, spec, ok) && k !in todo
      invariant c.state == Without(old(c.state), gone)
      decreases |todo|
    {
      var k :| k in todo;
      todo := todo - {k};
      var role := Get(listed[k].annotations, RoleKey);
      if role == "" {
        role := Whitelist.ExtractRoleFromRoleBindingName(k.name, spec.roleMapping);
      }
      if role != "" && role !in spec.roleMapping {
        var _ := c.DeleteRoleBinding(k, ok(k));
        if ok(k) {
          OneMoreGone(old(c.state), gone, k);
          gone := gone + {k};
        }
      }
    }
    assert gone == RoleVictims(listed, spec, ok);
  }

  lemma NoneGone(s: State)
    ensures Without(s, {}) == s
  {}

  lemma OneMoreGone(s: State, gone: set<Key>, k: Key)
    ensures var t := Without(s, gone); t.(roleBindings := t.roleBindings - {k}) == Without(s, gone + {k})
  {
    assert s.roleBindings - (gone + {k}) == (s.roleBindings - gone) - {k};
  }

  method MatchesAnyPrefix(groupName: string, prefixes: seq<string>) returns (found: bool)
    ensures found <==> exists p :: p in prefixes && p + "-" <= groupName
  {
    found := false;
    for i := 0 to |prefixes|
      invariant !found && forall j :: 0 <= j < i ==> !(prefixes[j] + "-" <= groupName)
    {
      if prefixes[i] + "-" <= groupName {
        return true;
      }
    }
  }

  method DeleteGonePrefixes(c: Client, listed: map<Key, RoleBinding>, spec: Spec, ok: Key -> bool)
    modifies c
    ensures c.state == Without(old(c.state), PrefixVictims(listed, spec, ok))
  {
    hide Without;
    NoneGone(c.state);
    ghost var gone: set<Key> := {};
    var todo := listed.Keys;
    while todo != {}
      invariant todo <= listed.Keys
      invariant gone == set k | k in PrefixVictims(listed, spec, ok) && k !in todo
      invariant c.state == Without(old(c.state), gone)
      decreases |todo|
    {
      var k :| k in todo;
      todo := todo - {k};
      if |listed[k].subjects| > 0 {
        var matchesAnyPrefix := MatchesAnyPrefix(listed[k].subjects[0].name, spec.prefixes);
        if !matchesAnyPrefix {
          var _ := c.DeleteRoleBinding(k, ok(k));
          if ok(k) {
            OneMoreGone(old(c.state), gone, k);
            gone := gone + {k};
          }
        }
      }
    }
    assert gone == PrefixVictims(listed, spec, ok);
  }

  // ---------- the purge and the whitelist pass ----------

  /** A want as the parser makes them: its role is known, recoverable from the name, and its group has a prefix. */
  ghost predicate Genuine(w: Want, spec: Spec) {
    && w.role in spec.roleMapping
    && Whitelist.ExtractRole(w.Key().name, spec.roleMapping) == w.role
    && exists p :: p in spec.prefixes && p + "-" <= w.group
  }

  lemma WhitelistWantsGenuine(data: map<string, string>, spec: Spec, w: Want)
    requires Some(w) in WhitelistWants(data, spec)
    ensures Genuine(w, spec)
  {
    var lines := Split(data[WHITELIST_KEY], '\n');
    var i :| 0 <= i < |lines| && LineWants(lines, spec)[i] == Some(w);
    LineWantPrefixed(lines[i], spec);
    Whitelist.ParserAndExtractorAgree(w.group, spec.prefixes, spec.roleMapping);
  }

  /** Whatever calls fail, a reported RoleBinding ends as some line of the whitelist wants it. */
  lemma {:induction false} ReportedIsDesired(s: State, ws: Wants, x: Context, answers: Answers, k: Key)
    returns (w: Want)
    requires k in ProcessWants(s, ws, x, answers).1
    ensures var t := ProcessWants(s, ws, x, answers).0;
            && Some(w) in ws && w.Key() == k
            && k in t.roleBindings && Desired(t.roleBindings[k], w, x.op, x.owner)
  {
    hide EnsureNamespace, Bind, Desired;
    var n := |ws| - 1;
    var init := ws[..n];
    var (p, before) := ProcessWants(s, init, x, answers);
    if ws[n].Some? && k in ProcessLine(p, ws[n], x, answers(n)).1 {
      w := ws[n].value;
      var p1 := EnsureNamespace(p, w.namespace, x.op, x.owner, answers(n).now, answers(n).namespaceApi).0;
      ManagedMeansDesired(p1, w, x.op, x.owner, answers(n).now, answers(n).bindingApi);
    } else {
      w := ReportedIsDesired(s, init, x, answers, k);
      if ws[n].Some? {
        LaterLineKeeps(p, w, ws[n].value, x, answers(n));
        if ws[n].value.Key() == k && !Desired(ProcessWants(s, ws, x, answers).0.roleBindings[k], w, x.op, x.owner) {
          w := ws[n].value;
        }
      }
    }
  }

  /** A later line leaves a desired RoleBinding as it is, or makes it what that line wants. */
  lemma LaterLineKeeps(p: State, w: Want, w2: Want, x: Context, a: Answer)
    requires w.Key() in p.roleBindings && Desired(p.roleBindings[w.Key()], w, x.op, x.owner)
    ensures var t := ProcessWant(p, w2, x, a).0;
            && w.Key() in t.roleBindings
            && (Desired(t.roleBindings[w.Key()], w, x.op, x.owner)
                || (w2.Key() == w.Key() && Desired(t.roleBindings[w.Key()], w2, x.op, x.owner)))
  {
    var p1 := EnsureNamespace(p, w2.namespace, x.op, x.owner, a.now, a.namespaceApi).0;
    assert p1.roleBindings == p.roleBindings;
    DesiredIsFixpoint(OldBinding(p1, w2.Key()), w2, x.op, x.owner, a.now);
  }

  /**
    Cleanup never undoes creation: under one spec, no RoleBinding the whitelist pass
    reported is deleted, even if somebody strips its role annotation in between, and
    whatever calls fail on the way.
   */
  lemma PurgeKeepsReported(s: State, data: map<string, string>, x: Context, answers: Answers, k: Key,
                           stripped: bool, a: PurgeAnswers)
    requires k in ProcessWants(s, WhitelistWants(data, x.spec), x, answers).1
    ensures var t := ProcessWants(s, WhitelistWants(data, x.spec), x, answers).0;
            && k in t.roleBindings
            && var rb := t.roleBindings[k];
               var u := if stripped
                        then t.(roleBindings := t.roleBindings[k := rb.(annotations := rb.annotations - {RoleKey})])
                        else t;
               SameBinding(u, Purge(u, x, a).0, k)
  {
    hide ProcessWants;
    var ws := WhitelistWants(data, x.spec);
    var w := ReportedIsDesired(s, ws, x, answers, k);
    WhitelistWantsGenuine(data, x.spec, w);
    assert w.Subjects()[0].name == w.group;
  }

  /**
    Told from annotation and name alone: the annotation, if there is one, is no role of the
    mapping; if there is none, no role of the mapping ends the name, and what follows the
    name's last dash is not empty.
   */
  ghost predicate NamesNoRole(name: string, rb: RoleBinding, mapping: map<string, string>) {
    var annotated := Get(rb.annotations, RoleKey);
    if annotated != "" then annotated !in mapping
    else
      && (forall role :: role in mapping ==> !HasSuffix(name, "-" + role))
      && (exists last :: last != "" && '-' !in last && HasSuffix(name, "-" + last))
  }

  lemma RoleGoneExactly(k: Key, rb: RoleBinding, spec: Spec)
    ensures RoleGone(k, rb, spec) <==> NamesNoRole(k.name, rb, spec.roleMapping)
  {
    if Get(rb.annotations, RoleKey) == "" {
      Whitelist.ExtractRoleSpec(k.name, spec.roleMapping);
      LastSegmentIs(k.name);
      if role :| role in spec.roleMapping && HasSuffix(k.name, "-" + role) {
        assert Whitelist.Ends(k.name, role);
      } else {
        Whitelist.UnendedIsLast(k.name, spec.roleMapping);
      }
    }
  }

  lemma LastSegmentIs(name: string)
    ensures var last := Whitelist.LastSegment(name);
            && '-' !in last
            && forall x :: x != "" && '-' !in x ==> (HasSuffix(name, "-" + x) <==> x == last)
  {
    SplitLast(name, '-');
    var parts := Split(name, '-');
    var last := parts[|parts| - 1];
    forall x | x != "" && '-' !in x && HasSuffix(name, "-" + x)
      ensures x == Whitelist.LastSegment(name)
    {
      OneLastSegment(name, x, last, |parts| > 1);
    }
  }

  /** Two tails without a dash, each after a dash, are one; and a name with such a tail has a dash. */
  lemma OneLastSegment(name: string, x: string, last: string, cut: bool)
    requires '-' !in x && HasSuffix(name, "-" + x) && '-' !in last
    requires if cut then HasSuffix(name, "-" + last) else name == last
    ensures cut && x == last
  {
    var i := |name| - |x| - 1;
    assert name[i..] == "-" + x;
    assert name[i] == name[i..][0] == '-';
    assert name[i + 1..] == name[i..][1..] == x;
    if cut {
      var j := |name| - |last| - 1;
      assert name[j..] == "-" + last;
      assert name[j] == name[j..][0] == '-';
      assert name[j + 1..] == name[j..][1..] == last;
    }
  }

  /** A RoleBinding with subjects whose first one's name starts with no prefix and a dash. */
  ghost predicate HasNoPrefix(rb: RoleBinding, prefixes: seq<string>) {
    rb.subjects != [] && !exists p :: p in prefixes && p + "-" <= rb.subjects[0].name
  }

  /**
    Exactly what a purge deletes, whatever calls fail: of the RoleBindings the CR manages,
    those that name no role, if their deletion in the first loop succeeds, and those
    without a prefix, if their deletion in the second does. Nothing else changes.
   */
  lemma PurgeIsExact(s: State, x: Context, a: PurgeAnswers, k: Key)
    requires k in s.roleBindings
    ensures var (t, ok) := Purge(s, x, a);
            && (ok <==> a.listOk)
            && (k in t.roleBindings ==> t.roleBindings[k] == s.roleBindings[k])
            && t.namespaces == s.namespaces && t.serviceAccounts == s.serviceAccounts
            && (k !in t.roleBindings <==>
                  && a.listOk && ManagesBinding(s, k, x.op, x.owner)
                  && ((NamesNoRole(k.name, s.roleBindings[k], x.spec.roleMapping) && a.roleDeleteOk(k))
                      || (HasNoPrefix(s.roleBindings[k], x.spec.prefixes) && a.prefixDeleteOk(k))))
  {
    hide Whitelist.ExtractRole, RoleGone, NamesNoRole, ManagesBinding;
    RoleGoneExactly(k, s.roleBindings[k], x.spec);
  }

  /** A managed RoleBinding without role annotation is judged by its name, and goes when its role is gone. */
  lemma JudgedByName(op: Operator, o: Owner, created: NonEmpty)
    ensures var k := Key("shop", "shop-admin");
            var rb := RoleBinding(map[BinderKey := o.name, BinderNamespaceKey := o.namespace, CreatedAtKey := created],
                                  map[ManagedByLabel := op.managedBy],
                                  [Subject("Group", RBAC_GROUP, "DEV-shop-admin", "")],
                                  ClusterRoleRef("cluster-admin"));
            var x := Context(op, o, Spec(map["view" := "view"], ["DEV"], [], map[], ""));
            Purge(State(map[], map[k := rb], map[]), x, PurgeAnswers(true, k => true, k => true))
            == (State(map[], map[], map[]), true)
  {
    hide Whitelist.ExtractRole, RoleGone, NamesNoRole;
    var k := Key("shop", "shop-admin");
    var rb := RoleBinding(map[BinderKey := o.name, BinderNamespaceKey := o.namespace, CreatedAtKey := created],
                          map[ManagedByLabel := op.managedBy],
                          [Subject("Group", RBAC_GROUP, "DEV-shop-admin", "")], ClusterRoleRef("cluster-admin"));
    var x := Context(op, o, Spec(map["view" := "view"], ["DEV"], [], map[], ""));
    var s, a := State(map[], map[k := rb], map[]), PurgeAnswers(true, k => true, k => true);
    PurgeIsExact(s, x, a, k);
    assert NamesNoRole(k.name, rb, x.spec.roleMapping) by { AdminIsGone(rb); }
    assert Purge(s, x, a).0.roleBindings == map[];
  }

  lemma AdminIsGone(rb: RoleBinding)
    requires Get(rb.annotations, RoleKey) == ""
    ensures NamesNoRole("shop-admin", rb, map["view" := "view"])
  {
    assert "shop-admin"[5..] != "-view";
    assert "shop-admin"[4..] == "-" + "admin";
    assert HasSuffix("shop-admin", "-" + "admin");
  }

  // ---------- deleting one CR, recreating another ----------

  /** Orphaning deletes nothing and revokes nothing, whatever calls fail. */
  lemma OrphanPreserves(s: State, op: Operator, o: Owner, now: NonEmpty, a: OrphanAnswers)
    ensures var t := Orphan(s, op, o, now, a);
            && t.roleBindings.Keys == s.roleBindings.Keys && t.namespaces.Keys == s.namespaces.Keys
            && t.serviceAccounts == s.serviceAccounts
            && (forall k :: k in s.roleBindings ==>
                  && t.roleBindings[k].subjects == s.roleBindings[k].subjects
                  && t.roleBindings[k].roleRef == s.roleBindings[k].roleRef
                  && t.roleBindings[k].labels == s.roleBindings[k].labels)
  {}

  /**
    What orphaning writes, annotation by annotation: time and origin of the mark, on the
    objects the CR manages whose calls succeed; every other annotation stays.
   */
  lemma OrphanWrites(s: State, op: Operator, o: Owner, now: NonEmpty, a: OrphanAnswers, k: Key, n: string)
    ensures var t := Orphan(s, op, o, now, a);
            && (k in s.roleBindings ==>
                  && k in t.roleBindings
                  && var was, after := s.roleBindings[k].annotations, t.roleBindings[k].annotations;
                     if ManagesBinding(s, k, op, o) && a.listBindingsOk && a.bindingOk(k)
                     then MarkedBy(was, after, now) else after == was)
            && (n in s.namespaces ==>
                  && n in t.namespaces
                  && var was, after := s.namespaces[n].annotations, t.namespaces[n].annotations;
                     if ManagesNamespace(s, n, op, o) && a.listNamespacesOk && a.namespaceOk(n)
                     then MarkedBy(was, after, now) else after == was)
  {
    hide ManagesBinding, ManagesNamespace;
  }

  ghost predicate MarkedBy(was: Annotations, after: Annotations, now: NonEmpty) {
    && Get(after, OrphanedAtKey) == now
    && Get(after, OrphanedByKey) == "permission-binder-deletion"
    && forall key :: key !in {OrphanedAtKey, OrphanedByKey} ==> Get(after, key) == Get(was, key)
  }

  /** The same annotations under a new owner, without orphan marks. */
  function Restamp(a: Annotations, o: Owner): Annotations {
    (a - {OrphanedAtKey, OrphanedByKey})[BinderKey := o.name][BinderNamespaceKey := o.namespace]
  }

  lemma AdoptBinding(rb: RoleBinding, w: Want, op: Operator, o: Owner, o2: Owner, orphaned: NonEmpty, now: NonEmpty)
    requires Desired(rb, w, op, o)
    ensures Overwrite(rb.(annotations := MarkOrphaned(rb.annotations, orphaned)), w, op, o2, now)
            == rb.(annotations := Restamp(rb.annotations, o2))
  {
    var d := Overwrite(rb.(annotations := MarkOrphaned(rb.annotations, orphaned)), w, op, o2, now);
    assert d.annotations == Restamp(rb.annotations, o2);
    assert d.labels == rb.labels;
  }

  lemma AdoptNamespace(ns: Namespace, op: Operator, o: Owner, o2: Owner, orphaned: NonEmpty, now: NonEmpty)
    requires DesiredNamespace(ns, op, o)
    ensures ClaimNamespace(ns.(annotations := MarkOrphaned(ns.annotations, orphaned)), op, o2, now)
            == ns.(annotations := Restamp(ns.annotations, o2))
  {
    var d := ClaimNamespace(ns.(annotations := MarkOrphaned(ns.annotations, orphaned)), op, o2, now);
    assert d.annotations == Restamp(ns.annotations, o2);
    assert d.labels == ns.labels;
  }

  ghost predicate AllOrphaned(a: OrphanAnswers) {
    && a.listBindingsOk && a.listNamespacesOk
    && (forall k :: a.bindingOk(k)) && (forall n :: a.namespaceOk(n))
  }

  lemma {:induction false} ReportsWitness(s: State, ws: Wants, x: Context, k: Key) returns (w: Want)
    requires k in Reports(s, ws, x)
    ensures Some(w) in ws && w.Key() == k && !Blocked(s, w, x)
  {
    var n := |ws| - 1;
    if k in Reports(s, ws[..n], x) {
      w := ReportsWitness(s, ws[..n], x, k);
    } else {
      w := ws[n].value;
    }
  }

  lemma {:induction false} ReportsHas(s: State, ws: Wants, x: Context, w: Want)
    requires Some(w) in ws && !Blocked(s, w, x)
    ensures w.Key() in Reports(s, ws, x)
  {
    var n := |ws| - 1;
    if ws[n] != Some(w) {
      assert ws == ws[..n] + [ws[n]];
      ReportsHas(s, ws[..n], x, w);
    }
  }

  /**
    Orphan, then adopt: after `o` has processed a whitelist and was deleted, another CR
    with the same spec that processes the same whitelist reports every RoleBinding that
    `o` reported, and each is the object it was, restamped, without orphan marks.
   */
  lemma MigrationOfBindings(s: State, ws: Wants, x: Context, o2: Owner, answers1: Answers, answers2: Answers,
                            now: NonEmpty, a: OrphanAnswers, k: Key)
    requires AllSucceed(answers1) && AllSucceed(answers2) && AllOrphaned(a) && Consistent(ws, x.spec.roleMapping)
    requires k in ProcessWants(s, ws, x, answers1).1
    ensures var s1 := ProcessWants(s, ws, x, answers1).0;
            var (s3, reported3) := ProcessWants(Orphan(s1, x.op, x.owner, now, a), ws, x.(owner := o2), answers2);
            && k in s1.roleBindings && k in s3.roleBindings && k in reported3
            && s3.roleBindings[k] == s1.roleBindings[k].(annotations := Restamp(s1.roleBindings[k].annotations, o2))
  {
    hide ProcessWants;
    var x2 := x.(owner := o2);
    var s1 := ProcessWants(s, ws, x, answers1).0;
    var s2 := Orphan(s1, x.op, x.owner, now, a);
    ReportedByPass(s, ws, x, answers1);
    var w0 := ReportsWitness(s, ws, x, k);
    BindingAfterPass(s, ws, x, answers1, k);
    HasLast(ws, w0);
    var w := LastFor(ws, k).value;
    KeyDeterminesRole(w0, w);
    var created := answers1(FirstFor(ws, k)).now;
    FulfilledIsDesired(s, s1, w, x, created);
    var rb := s1.roleBindings[k];
    OrphanedEntry(s1, x.op, x.owner, now, a, k);
    assert !Blocked(s2, w, x2);
    BindingAfterPass(s2, ws, x2, answers2, k);
    AdoptBinding(rb, w, x.op, x.owner, o2, now, answers2(FirstFor(ws, k)).now);
    ReportedByPass(s2, ws, x2, answers2);
    ReportsHas(s2, ws, x2, w);
  }

  lemma FulfilledIsDesired(s: State, t: State, w: Want, x: Context, created: NonEmpty)
    requires Fulfilled(s, t, w.Key(), w, x, created)
    ensures Desired(t.roleBindings[w.Key()], w, x.op, x.owner)
    ensures ManagesBinding(t, w.Key(), x.op, x.owner)
  {}

  lemma OrphanedEntry(s: State, op: Operator, o: Owner, now: NonEmpty, a: OrphanAnswers, k: Key)
    requires AllOrphaned(a) && ManagesBinding(s, k, op, o)
    ensures var t := Orphan(s, op, o, now, a);
            && k in t.roleBindings
            && t.roleBindings[k] == s.roleBindings[k].(annotations := MarkOrphaned(s.roleBindings[k].annotations, now))
  {}

  /** The same for the namespaces `o` claimed. */
  lemma MigrationOfNamespaces(s: State, ws: Wants, x: Context, o2: Owner, answers1: Answers, answers2: Answers,
                              now: NonEmpty, a: OrphanAnswers, name: string)
    requires AllSucceed(answers1) && AllSucceed(answers2) && AllOrphaned(a)
    requires Asks(ws, name) && !NamespaceRefused(s, name, x.owner)
    ensures var s1 := ProcessWants(s, ws, x, answers1).0;
            var s3 := ProcessWants(Orphan(s1, x.op, x.owner, now, a), ws, x.(owner := o2), answers2).0;
            && name in s1.namespaces && name in s3.namespaces
            && s3.namespaces[name] == s1.namespaces[name].(annotations := Restamp(s1.namespaces[name].annotations, o2))
  {
    hide ProcessWants;
    var x2 := x.(owner := o2);
    var s1 := ProcessWants(s, ws, x, answers1).0;
    var s2 := Orphan(s1, x.op, x.owner, now, a);
    NamespaceAfterPass(s, ws, x, answers1, name);
    var ns := s1.namespaces[name];
    assert DesiredNamespace(ns, x.op, x.owner) && ManagesNamespace(s1, name, x.op, x.owner);
    assert s2.namespaces[name] == ns.(annotations := MarkOrphaned(ns.annotations, now));
    NamespaceAfterPass(s2, ws, x2, answers2, name);
    AdoptNamespace(ns, x.op, x.owner, o2, now, answers2(FirstAsks(ws, name)).now);
  }
}
