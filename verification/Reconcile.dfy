/**
  The reconcile loop of one PermissionBinder CR (reconciliation_main.go) and the event
  filter that decides what wakes it (predicates.go).

  Main results: the loop comes to rest; exactly when a skipped pass tells the truth about
  what the cluster was last touched by, and exactly when it omits nothing; a deleted CR
  leaves only after its cleanup was tried, and exactly what the cleanup could not mark
  stays claimed.
 */
module Reconcile {
  import opened Strings
  import opened Cluster
  import opened Ownership
  import opened RoleBindings
  import opened ConfigMap
  import opened ServiceAccounts
  import opened ConfigMapPass
  import opened SettledPass
  import opened Cleanup
  import opened Runs
  import opened RoleMappingHash
  import NetworkPolicyStatus
  import Interleavings

  const FINALIZER := "permission-binder.io/finalizer"

  // ---------- the objects ----------

  /** The "Processed" condition; its message is made of the two counts. */
  datatype Condition = Condition(isTrue: bool, bindings: nat, accounts: nat)

  datatype Status = Status(
    bindings: seq<Key>, accounts: seq<Key>, configMapVersion: string, roleMappingHash: string,
    condition: Option<Condition>)

  /** The CR; the status entries of NetworkPolicies are kept apart from the rest of its status. */
  datatype Binder = Binder(
    deleting: bool, finalizers: seq<string>, generation: nat, spec: Spec, configMap: Key, status: Status,
    policies: NetworkPolicyStatus.Entries)

  datatype ConfigMapObject = ConfigMapObject(version: NonEmpty, data: map<string, string>)

  /** What the loop of the CR named `owner` sees and changes. */
  datatype World = World(owner: Owner, binder: Option<Binder>, configMaps: map<Key, ConfigMapObject>, cluster: State)

  function RemoveString(slice: seq<string>, s: string): seq<string> {
    if slice == [] then []
    else
      var n := |slice| - 1;
      RemoveString(slice[..n], s) + (if slice[n] != s then [slice[n]] else [])
  }

  method RemoveStringFrom(slice: seq<string>, s: string) returns (result: seq<string>)
    ensures result == RemoveString(slice, s)
  {
    result := [];
    for i := 0 to |slice|
      invariant result == RemoveString(slice[..i], s)
    {
      assert slice[..i + 1][..i] == slice[..i];
      if slice[i] != s {
        result := result + [slice[i]];
      }
    }
    assert slice[..|slice|] == slice;
  }

  /** Every copy of the string goes, every other string stays as often as it was there. */
  lemma {:induction false} RemoveStringKeepsOthers(slice: seq<string>, s: string)
    ensures multiset(RemoveString(slice, s)) == multiset(slice)[s := 0]
  {
    if slice == [] {
    } else {
      var n := |slice| - 1;
      assert slice == slice[..n] + [slice[n]];
      RemoveStringKeepsOthers(slice[..n], s);
    }
  }

  lemma {:induction false} RemoveStringInOrder(slice: seq<string>, more: seq<string>, s: string)
    ensures RemoveString(slice + more, s) == RemoveString(slice, s) + RemoveString(more, s)
  {
    if more == [] {
      assert slice + more == slice;
    } else {
      var n := |more| - 1;
      assert (slice + more)[..|slice + more| - 1] == slice + more[..n];
      RemoveStringInOrder(slice, more[..n], s);
    }
  }

  // ---------- the instance and the circumstances of a pass ----------

  datatype Instance = Instance(op: Operator, reconcileNamespaces: seq<string>, hash: Hash)

  predicate Reconciles(r: Instance, namespace: string) {
    r.reconcileNamespaces == [] || namespace in r.reconcileNamespaces
  }

  /**
    How the outside behaves during one pass: which calls succeed, and what others do to
    the CR between its two reads. A CR edited after a read makes the write that follows
    from that read fail, so a successful write means nobody came in between.

    `afterPolicies` is the CR as the NetworkPolicy section leaves it, in the cluster and
    in the operator's hands: the section writes status entries through fresh copies, and a
    fresh copy brings along what others edited before it. It is the identity where
    NetworkPolicies are not enabled. The section touches nothing else of this model.
   */
  datatype Circumstances = Circumstances(
    getOk: bool, updateOk: bool, orphan: OrphanAnswers, purge: PurgeAnswers, refetchOk: bool,
    between: Binder -> Binder, getConfigMapOk: bool, afterPolicies: Binder -> Binder, statusOk: bool, now: NonEmpty,
    answers: Answers, accountAnswers: AccountAnswers)

  /** The result of processing the ConfigMap: cluster, RoleBindings and accounts reported. */
  datatype Work = Work(cluster: State, bindings: seq<Key>, accounts: seq<Key>)

  datatype Event =
    | Ignored
    | Failure
    | OrphanedAndReleased
    | FinalizerAdded
    | NoConfigMap
    | Skipped
    | Processed(version: string, mapping: map<string, string>, recorded: bool)

  // ---------- one pass ----------

  function Released(b: Binder): Option<Binder> {
    var rest := RemoveString(b.finalizers, FINALIZER);
    if rest == [] then None else Some(b.(finalizers := rest))
  }

  ghost function Changed(b: Binder, r: Instance): bool {
    b.status.roleMappingHash != Digest(b.spec.roleMapping, r.hash)
  }

  function NewStatus(work: Work, version: string, hash: string): Status {
    Status(work.bindings, work.accounts, version, hash,
           Some(Condition(true, |work.bindings|, |work.accounts|)))
  }

  ghost function Finish(w: World, b: Binder, version: string, changed: bool, firstHash: string,
                        c: Circumstances, work: Work): (World, Event)
  {
    var b2 := c.afterPolicies(b);
    var status := NewStatus(work, version, if changed then firstHash else b2.status.roleMappingHash);
    var done := w.(binder := Some(b2), cluster := work.cluster);
    if status == b2.status then (done, Processed(version, b.spec.roleMapping, true))
    else if c.statusOk then (done.(binder := Some(b2.(status := status))), Processed(version, b.spec.roleMapping, true))
    else (done, Processed(version, b.spec.roleMapping, false))
  }

  ghost function SecondHalf(w: World, b: Binder, changed1: bool, firstHash: string, r: Instance,
                            c: Circumstances, work: Work): (World, Event)
  {
    var changed := changed1 && Changed(b, r);
    if !c.getConfigMapOk then (w, Failure)
    else if b.configMap !in w.configMaps then (w, NoConfigMap)
    else
      var version := w.configMaps[b.configMap].version;
      if b.status.configMapVersion == version && !changed then (w, Skipped)
      else Finish(w, b, version, changed, firstHash, c, work)
  }

  ghost function Pass(w: World, r: Instance, c: Circumstances, work: Work): (World, Event) {
    if !Reconciles(r, w.owner.namespace) then (w, Ignored)
    else if !c.getOk then (w, Failure)
    else if w.binder.None? then (w, Ignored)
    else
      var b := w.binder.value;
      if b.deleting then
        if FINALIZER !in b.finalizers then (w, Ignored)
        else
          var cleaned := w.(cluster := Orphan(w.cluster, r.op, w.owner, c.now, c.orphan));
          if c.updateOk then (cleaned.(binder := Released(b)), OrphanedAndReleased) else (cleaned, Failure)
      else if FINALIZER !in b.finalizers then
        if c.updateOk then (w.(binder := Some(b.(finalizers := b.finalizers + [FINALIZER]))), FinalizerAdded)
        else (w, Failure)
      else
        var changed := Changed(b, r);
        var (cluster1, ok) :=
          if changed then Purge(w.cluster, Context(r.op, w.owner, b.spec), c.purge) else (w.cluster, true);
        if !ok then (w, Failure)
        else
          var w1 := w.(cluster := cluster1);
          if !c.refetchOk then (w1, Failure)
          else
            var b2 := c.between(b);
            SecondHalf(w1.(binder := Some(b2)), b2, changed, Digest(b.spec.roleMapping, r.hash), r, c, work)
  }

  /** The cluster the ConfigMap is processed on: purged first, if the first read saw the mapping changed. */
  ghost function StartOfWork(w: World, r: Instance, c: Circumstances): State {
    if w.binder.Some? && Changed(w.binder.value, r)
    then Purge(w.cluster, Context(r.op, w.owner, w.binder.value.spec), c.purge).0
    else w.cluster
  }

  /** `work` is a result ProcessConfigMap can have from cluster `s`. */
  ghost predicate IsWork(s: State, x: Context, data: map<string, string>, c: Circumstances, work: Work) {
    exists visits ::
      && Known(visits, x.spec.serviceAccountMapping) && NamespacesDistinct(visits)
      && var (s1, bindings) := ProcessWants(s, WhitelistWants(data, x.spec), x, c.answers);
         && Visited(visits) == (if x.spec.serviceAccountMapping == map[] then {} else NamespacesOf(bindings))
         && (AccountsSucceed(c.accountAnswers) ==>
               Complete(visits, NamespacesOf(bindings), x.spec.serviceAccountMapping))
         && (work.cluster, work.bindings, work.accounts)
            == (ProcessVisits(s1, visits, x, c.accountAnswers).0, bindings,
                ProcessVisits(s1, visits, x, c.accountAnswers).1)
  }

  /** The status lists what was reported, with the two counts, as the work of a ConfigMap version. */
  predicate Shows(status: Status, work: Work, version: string) {
    && status.bindings == work.bindings
    && status.accounts == work.accounts
    && status.configMapVersion == version
    && status.condition.Some? && status.condition.value.isTrue
    && status.condition.value.bindings == |work.bindings|
    && status.condition.value.accounts == |work.accounts|
  }

  lemma WorkIs(s: State, x: Context, data: map<string, string>, c: Circumstances, work: Work, visits: seq<Visit>)
    requires Known(visits, x.spec.serviceAccountMapping) && NamespacesDistinct(visits)
    requires var (s1, bindings) := ProcessWants(s, WhitelistWants(data, x.spec), x, c.answers);
             && Visited(visits) == (if x.spec.serviceAccountMapping == map[] then {} else NamespacesOf(bindings))
             && (AccountsSucceed(c.accountAnswers) ==>
                   Complete(visits, NamespacesOf(bindings), x.spec.serviceAccountMapping))
             && (work.cluster, work.bindings, work.accounts)
                == (ProcessVisits(s1, visits, x, c.accountAnswers).0, bindings,
                    ProcessVisits(s1, visits, x, c.accountAnswers).1)
    ensures IsWork(s, x, data, c, work)
  {}

  lemma StatusShows(status: Status, work: Work, version: string)
    requires && status.bindings == work.bindings && status.accounts == work.accounts
             && status.configMapVersion == version
             && status.condition == Some(Condition(true, |work.bindings|, |work.accounts|))
    ensures Shows(status, work, version)
  {}

  /** The API server's view of one CR and of the ConfigMaps, beside the cluster client. */
  class Server {
    const owner: Owner
    const client: Client
    var binder: Option<Binder>
    var configMaps: map<Key, ConfigMapObject>

    constructor (w: World)
      ensures GetWorld() == w
      ensures fresh(client)
    {
      owner := w.owner;
      client := new Client(w.cluster);
      binder := w.binder;
      configMaps := w.configMaps;
    }

    function GetWorld(): World
      reads this, client
    {
      World(owner, binder, configMaps, client.state)
    }

    /** One reconcile; `work` is what ProcessConfigMap returned, if it was called. */
    method Reconcile(r: Instance, c: Circumstances) returns (event: Event, ghost work: Work)
      modifies this, client
      ensures (GetWorld(), event) == Pass(old(GetWorld()), r, c, work)
      ensures configMaps == old(configMaps)
      ensures event.Processed? ==>
                && old(binder).Some?
                && var b := c.between(old(binder).value);
                   b.configMap in configMaps
                   && IsWork(StartOfWork(old(GetWorld()), r, c), Context(r.op, owner, b.spec),
                             configMaps[b.configMap].data, c, work)
      ensures event.Processed? && event.recorded ==> binder.Some? && Shows(binder.value.status, work, event.version)
    {
      work := Work(client.state, [], []);
      if !Reconciles(r, owner.namespace) {
        return Ignored, work;
      }
      if !c.getOk {
        return Failure, work;
      }
      if binder.None? {
        return Ignored, work;
      }
      var permissionBinder := binder.value;
      if permissionBinder.deleting {
        if FINALIZER in permissionBinder.finalizers {
          ghost var s := client.state;
          ghost var bindings, names := CleanupManagedResources(client, r.op, owner, c.now, c.orphan, NOBODY);
          CleanupAlone(s, r.op, owner, c.now, c.orphan, bindings, names);
          if !c.updateOk {
            return Failure, work;
          }
          var finalizers := RemoveStringFrom(permissionBinder.finalizers, FINALIZER);
          // The API server drops a deleted object once its last finalizer is gone.
          binder := if finalizers == [] then None else Some(permissionBinder.(finalizers := finalizers));
          return OrphanedAndReleased, work;
        }
        return Ignored, work;
      }
      if FINALIZER !in permissionBinder.finalizers {
        if !c.updateOk {
          return Failure, work;
        }
        permissionBinder := permissionBinder.(finalizers := permissionBinder.finalizers + [FINALIZER]);
        binder := Some(permissionBinder);
        return FinalizerAdded, work;
      }
      var changed, currentHash := HasRoleMappingChanged(
        permissionBinder.spec.roleMapping, permissionBinder.status.roleMappingHash, r.hash);
      if changed {
        var ok := ReconcileAllManagedResources(client, Context(r.op, owner, permissionBinder.spec), c.purge);
        if !ok {
          return Failure, work;
        }
      }
      if !c.refetchOk {
        return Failure, work;
      }
      binder := Some(c.between(permissionBinder));
      event, work := ReconcileConfigMap(r, c, changed, currentHash);
    }

    /** The second half, from the second read on. */
    method ReconcileConfigMap(r: Instance, c: Circumstances, changed1: bool, currentHash: NonEmpty)
      returns (event: Event, ghost work: Work)
      requires binder.Some?
      modifies this, client
      ensures (GetWorld(), event) == SecondHalf(old(GetWorld()), old(binder).value, changed1, currentHash, r, c, work)
      ensures configMaps == old(configMaps)
      ensures event.Processed? ==>
                && old(binder).value.configMap in configMaps
                && IsWork(old(client.state), Context(r.op, owner, old(binder).value.spec),
                          configMaps[old(binder).value.configMap].data, c, work)
      ensures event.Processed? && event.recorded ==> binder.Some? && Shows(binder.value.status, work, event.version)
    {
      hide ProcessWants, WhitelistWants, ProcessVisits, Shows, IsWork, Complete, Visited, NamespacesOf, Digest;
      var permissionBinder := binder.value;
      work := Work(client.state, [], []);
      if !c.getConfigMapOk {
        return Failure, work;
      }
      if permissionBinder.configMap !in configMaps {
        return NoConfigMap, work;
      }
      var configMap := configMaps[permissionBinder.configMap];
      var roleMappingChanged, hash := changed1, currentHash;
      var changedAfterRefetch, hashAfterRefetch := HasRoleMappingChanged(
        permissionBinder.spec.roleMapping, permissionBinder.status.roleMappingHash, r.hash);
      if roleMappingChanged && !changedAfterRefetch {
        roleMappingChanged := false;
        hash := hashAfterRefetch;
      }
      if permissionBinder.status.configMapVersion == configMap.version && !roleMappingChanged {
        return Skipped, work;
      }
      var x := Context(r.op, owner, permissionBinder.spec);
      ghost var s := client.state;
      var bindings, accounts, visits := ProcessConfigMap(client, configMap.data, x, c.answers, c.accountAnswers);
      work := Work(client.state, bindings, accounts);
      WorkIs(s, x, configMap.data, c, work, visits);
      event := Processed(configMap.version, permissionBinder.spec.roleMapping, true);
      permissionBinder := c.afterPolicies(permissionBinder);
      binder := Some(permissionBinder);
      var newHash := if roleMappingChanged then hash else permissionBinder.status.roleMappingHash;
      var statusChanged := false;
      if permissionBinder.status.bindings != bindings { statusChanged := true; }
      if permissionBinder.status.accounts != accounts { statusChanged := true; }
      if permissionBinder.status.configMapVersion != configMap.version { statusChanged := true; }
      if permissionBinder.status.roleMappingHash != newHash { statusChanged := true; }
      if permissionBinder.status.condition != Some(Condition(true, |bindings|, |accounts|)) { statusChanged := true; }
      if statusChanged {
        if !c.statusOk {
          return event.(recorded := false), work;
        }
        binder := Some(permissionBinder.(status := Status(
          bindings, accounts, configMap.version, newHash, Some(Condition(true, |bindings|, |accounts|)))));
      }
      StatusShows(binder.value.status, work, configMap.version);
    }
  }

  // ---------- what a pass does when, and what it shows afterwards ----------

  /** The stages a pass has come through when it has both reads, the purge if it is due, and the ConfigMap. */
  ghost predicate ReachesConfigMap(w: World, r: Instance, c: Circumstances) {
    && (r.reconcileNamespaces == [] || w.owner.namespace in r.reconcileNamespaces)
    && c.getOk && w.binder.Some?
    && !w.binder.value.deleting && FINALIZER in w.binder.value.finalizers
    && (w.binder.value.status.roleMappingHash != Digest(w.binder.value.spec.roleMapping, r.hash) ==> c.purge.listOk)
    && c.refetchOk && c.getConfigMapOk
    && c.between(w.binder.value).configMap in w.configMaps
  }

  /** The ConfigMap has another version than the recorded one, or both reads see another hash than theirs. */
  ghost predicate HasWork(w: World, r: Instance, c: Circumstances)
    requires ReachesConfigMap(w, r, c)
  {
    var b1 := w.binder.value;
    var b2 := c.between(b1);
    || b2.status.configMapVersion != w.configMaps[b2.configMap].version
    || (b1.status.roleMappingHash != Digest(b1.spec.roleMapping, r.hash)
        && b2.status.roleMappingHash != Digest(b2.spec.roleMapping, r.hash))
  }

  /**
    When a pass processes, when it skips, and when it has nothing to do with the CR, told
    from CR, ConfigMaps and calls alone.
   */
  lemma StagesExactly(w: World, r: Instance, c: Circumstances, work: Work)
    ensures var event := Pass(w, r, c, work).1;
            && (event.Processed? <==> ReachesConfigMap(w, r, c) && HasWork(w, r, c))
            && (event.Skipped? <==> ReachesConfigMap(w, r, c) && !HasWork(w, r, c))
            && (event.Ignored? <==>
                  || (r.reconcileNamespaces != [] && w.owner.namespace !in r.reconcileNamespaces)
                  || (c.getOk && w.binder.None?)
                  || (c.getOk && w.binder.value.deleting && FINALIZER !in w.binder.value.finalizers))
  {
    hide Digest, Purge, Orphan, Released;
    if w.binder.Some? {
      PurgeSucceeds(w.cluster, Context(r.op, w.owner, w.binder.value.spec), c.purge);
    }
  }

  /** The read at the start of a pass finds the CR, and the instance reconciles it. */
  ghost predicate Finds(w: World, r: Instance, c: Circumstances) {
    (r.reconcileNamespaces == [] || w.owner.namespace in r.reconcileNamespaces) && c.getOk && w.binder.Some?
  }

  /** The other stages, with all they change: the finalizer goes on once, and off only of a deleted CR. */
  lemma FinalizersExactly(w: World, r: Instance, c: Circumstances, work: Work)
    ensures var (t, event) := Pass(w, r, c, work);
            && (event.FinalizerAdded? <==>
                  Finds(w, r, c) && !w.binder.value.deleting && FINALIZER !in w.binder.value.finalizers && c.updateOk)
            && (event.FinalizerAdded? ==>
                  t == w.(binder := Some(w.binder.value.(finalizers := w.binder.value.finalizers + [FINALIZER]))))
            && (event.OrphanedAndReleased? <==>
                  Finds(w, r, c) && w.binder.value.deleting && FINALIZER in w.binder.value.finalizers && c.updateOk)
            && (event.NoConfigMap? ==>
                  Finds(w, r, c) && c.between(w.binder.value).configMap !in w.configMaps && c.getConfigMapOk)
            && (!Finds(w, r, c) ==> t == w)
  {
    hide Digest, Purge, Orphan, Released;
  }

  /** What a processing leaves in the status, told field by field; if it is not recorded, what the others left. */
  lemma StatusAfter(w: World, r: Instance, c: Circumstances, work: Work)
    ensures var (t, event) := Pass(w, r, c, work);
            event.Processed? ==>
              && w.binder.Some? && t.binder.Some?
              && (if event.recorded then Shows(t.binder.value.status, work, event.version)
                  else t.binder.value.status == c.afterPolicies(c.between(w.binder.value)).status)
  {
    hide Digest, Purge, Orphan, Released;
  }

  /**
    With good calls on the cluster, the status after a recorded processing lists the
    RoleBindings of the lines that were not blocked, in line order, and each account as
    often as entries of reported namespaces ask for it and are not refused.
   */
  lemma StatusTellsReports(w: World, r: Instance, c: Circumstances, work: Work, k: Key)
    requires var event := Pass(w, r, c, work).1; event.Processed? && event.recorded
    requires ReachesConfigMap(w, r, c)
    requires var b := c.between(w.binder.value);
             IsWork(StartOfWork(w, r, c), Context(r.op, w.owner, b.spec), w.configMaps[b.configMap].data, c, work)
    requires AllSucceed(c.answers) && AccountsSucceed(c.accountAnswers)
    ensures var t := Pass(w, r, c, work).0;
            var b := c.between(w.binder.value);
            var x, ws := Context(r.op, w.owner, b.spec), WhitelistWants(w.configMaps[b.configMap].data, b.spec);
            var s := StartOfWork(w, r, c);
            && t.binder.Some?
            && var status := t.binder.value.status;
               && status.bindings == Reports(s, ws, x)
               && multiset(status.accounts)[k]
                  == (if k.namespace in NamespacesOf(Reports(s, ws, x))
                      then |Asking(ProcessWants(s, ws, x, c.answers).0, k.namespace, x, k.name)| else 0)
               && status.condition == Some(Condition(true, |status.bindings|, |status.accounts|))
  {
    StatusAfter(w, r, c, work);
    var b := c.between(w.binder.value);
    var data := w.configMaps[b.configMap].data;
    hide Pass, StartOfWork, WhitelistWants, ReachesConfigMap;
    WorkReports(StartOfWork(w, r, c), Context(r.op, w.owner, b.spec), data, c, work, k);
  }

  lemma WorkReports(s: State, x: Context, data: map<string, string>, c: Circumstances, work: Work, k: Key)
    requires IsWork(s, x, data, c, work) && AllSucceed(c.answers) && AccountsSucceed(c.accountAnswers)
    ensures var ws := WhitelistWants(data, x.spec);
            && work.bindings == Reports(s, ws, x)
            && multiset(work.accounts)[k]
               == (if k.namespace in NamespacesOf(Reports(s, ws, x))
                   then |Asking(ProcessWants(s, ws, x, c.answers).0, k.namespace, x, k.name)| else 0)
  {
    hide ProcessWants, ProcessVisits, Enumerates, Reports, LineWant, AccountName, BindingRefused;
    var ws := WhitelistWants(data, x.spec);
    WhitelistWantsConsistent(data, x.spec);
    ReportedByPass(s, ws, x, c.answers);
    var (s1, bindings) := ProcessWants(s, ws, x, c.answers);
    var visits :|
      && Known(visits, x.spec.serviceAccountMapping) && NamespacesDistinct(visits)
      && Complete(visits, NamespacesOf(bindings), x.spec.serviceAccountMapping)
      && work.accounts == ProcessVisits(s1, visits, x, c.accountAnswers).1;
    CompleteReport(s1, visits, NamespacesOf(bindings), x, c.accountAnswers, k);
  }

  lemma CompleteReport(s: State, visits: seq<Visit>, namespaces: set<string>, x: Context, a: AccountAnswers, k: Key)
    requires Complete(visits, namespaces, x.spec.serviceAccountMapping) && AccountsSucceed(a)
    ensures multiset(ProcessVisits(s, visits, x, a).1)[k]
            == if k.namespace in namespaces then |Asking(s, k.namespace, x, k.name)| else 0
  {
    hide ProcessVisits, Enumerates, AccountName;
    VisitsReport(s, visits, x, a, k);
    if x.spec.serviceAccountMapping == map[] {
      assert Asking(s, k.namespace, x, k.name) == {};
    }
  }

  // ---------- what wakes the loop ----------

  /** The filter on update events of the CR. */
  predicate UpdateWakes(r: Instance, namespace: string, before: Binder, after: Binder) {
    && Reconciles(r, namespace)
    && (before.generation != after.generation
        || before.deleting != after.deleting
        || |before.finalizers| != |after.finalizers|)
  }

  /** Whether a pass brings about another one: by its own write, by an error, or by asking for it. */
  predicate WakesItself(r: Instance, before: World, after: World, event: Event) {
    || event.Failure? || event.NoConfigMap? || (event.Processed? && !event.recorded)
    || (before.binder.Some? && after.binder.Some?
        && UpdateWakes(r, before.owner.namespace, before.binder.value, after.binder.value))
  }

  /**
    The deletion of a CR wakes the loop of an instance that reconciles its namespace, and a
    change of status alone never does.
   */
  lemma DeletionWakes(r: Instance, namespace: string, before: Binder, after: Binder)
    ensures UpdateWakes(r, namespace, before, before.(deleting := !before.deleting))
            <==> r.reconcileNamespaces == [] || namespace in r.reconcileNamespaces
    ensures after == before.(status := after.status, policies := after.policies) ==>
              !UpdateWakes(r, namespace, before, after)
  {}

  // ---------- coming to rest ----------

  /** The pass's own calls succeed and nobody else edits the CR; single lines, accounts and deletions may still fail. */
  ghost predicate Calm(c: Circumstances) {
    && c.getOk && c.updateOk && c.purge.listOk && c.refetchOk && c.getConfigMapOk && c.statusOk
    && forall b :: c.between(b) == b && c.afterPolicies(b) == b.(policies := c.afterPolicies(b).policies)
  }

  predicate Live(w: World, r: Instance) {
    && Reconciles(r, w.owner.namespace)
    && w.binder.Some? && !w.binder.value.deleting && w.binder.value.configMap in w.configMaps
  }

  /** The status says what the loop would do now has been done. */
  ghost predicate AtRest(w: World, r: Instance) {
    && Live(w, r)
    && FINALIZER in w.binder.value.finalizers
    && w.binder.value.status.configMapVersion == w.configMaps[w.binder.value.configMap].version
    && !Changed(w.binder.value, r)
  }

  lemma RestIsStable(w: World, r: Instance, c: Circumstances, work: Work)
    requires AtRest(w, r) && Calm(c)
    ensures Pass(w, r, c, work) == (w, Skipped)
  {}

  lemma FirstPass(w: World, r: Instance, c: Circumstances, work: Work)
    requires Live(w, r) && Calm(c)
    ensures var (t, event) := Pass(w, r, c, work);
            && Live(t, r)
            && (if FINALIZER !in w.binder.value.finalizers
                then event == FinalizerAdded && FINALIZER in t.binder.value.finalizers && WakesItself(r, w, t, event)
                else
                  && (event == Skipped || (event.Processed? && event.recorded))
                  && AtRest(t, r) && !WakesItself(r, w, t, event))
  {
    hide Digest, Purge, SecondHalf, UpdateWakes, Live, AtRest, Released, Calm;
    CalmIs(c);
    LiveIs(w, r);
    var b := w.binder.value;
    if FINALIZER !in b.finalizers {
      LiveIs(w.(binder := Some(b.(finalizers := b.finalizers + [FINALIZER]))), r);
      assert UpdateWakes(r, w.owner.namespace, b, b.(finalizers := b.finalizers + [FINALIZER])) by {
        MoreFinalizersWake(r, w, b);
      }
    } else {
      var changed := Changed(b, r);
      var cluster := if changed then Purge(w.cluster, Context(r.op, w.owner, b.spec), c.purge).0 else w.cluster;
      PurgeSucceeds(w.cluster, Context(r.op, w.owner, b.spec), c.purge);
      LiveIs(w.(cluster := cluster), r);
      SecondHalfRests(w.(cluster := cluster), b, r, c, work);
    }
  }

  lemma LiveIs(w: World, r: Instance)
    ensures Live(w, r) <==> Reconciles(r, w.owner.namespace) && w.binder.Some? && !w.binder.value.deleting
                            && w.binder.value.configMap in w.configMaps
  {}

  lemma CalmIs(c: Circumstances)
    requires Calm(c)
    ensures c.getOk && c.updateOk && c.purge.listOk && c.refetchOk && forall b :: c.between(b) == b
  {}

  lemma PurgeSucceeds(s: State, x: Context, a: PurgeAnswers)
    ensures Purge(s, x, a).1 <==> a.listOk
  {}

  lemma MoreFinalizersWake(r: Instance, w: World, b: Binder)
    requires Reconciles(r, w.owner.namespace)
    ensures UpdateWakes(r, w.owner.namespace, b, b.(finalizers := b.finalizers + [FINALIZER]))
  {}

  /** The second half of a calm pass ends at rest, by skipping or by a recorded processing. */
  lemma SecondHalfRests(w: World, b: Binder, r: Instance, c: Circumstances, work: Work)
    requires Live(w, r) && w.binder == Some(b) && FINALIZER in b.finalizers && Calm(c)
    ensures var (t, event) := SecondHalf(w, b, Changed(b, r), Digest(b.spec.roleMapping, r.hash), r, c, work);
            && (event == Skipped || (event.Processed? && event.recorded))
            && Live(t, r) && AtRest(t, r)
            && !UpdateWakes(r, w.owner.namespace, b, t.binder.value) && t.owner == w.owner
  {
    hide Digest, Purge, Reconciles;
  }

  datatype Turn = Turn(circumstances: Circumstances, work: Work)

  ghost function WorldAfter(w: World, r: Instance, turns: seq<Turn>): World {
    if turns == [] then w
    else
      var n := |turns| - 1;
      Pass(WorldAfter(w, r, turns[..n]), r, turns[n].circumstances, turns[n].work).0
  }

  ghost function EventOf(w: World, r: Instance, turns: seq<Turn>, i: nat): Event
    requires i < |turns|
  {
    Pass(WorldAfter(w, r, turns[..i]), r, turns[i].circumstances, turns[i].work).1
  }

  ghost predicate AllCalm(turns: seq<Turn>) {
    forall t :: t in turns ==> Calm(t.circumstances)
  }

  /**
    The loop comes to rest: however often a live CR is reconciled, the finalizer is added
    in the first pass or never, at most one pass processes, it is the one after that or
    the first, and every later pass is skipped and changes nothing; even when single lines,
    accounts or deletions failed in the one that processed: they are not tried again.
   */
  lemma {:induction false} LoopQuiesces(w: World, r: Instance, turns: seq<Turn>, i: nat)
    requires Live(w, r) && AllCalm(turns) && i < |turns|
    ensures var unfinalized := FINALIZER !in w.binder.value.finalizers;
            var event := EventOf(w, r, turns, i);
            var before, after := WorldAfter(w, r, turns[..i]), WorldAfter(w, r, turns[..i + 1]);
            && (event == FinalizerAdded <==> unfinalized && i == 0)
            && (event.Processed? ==> event.recorded && i == (if unfinalized then 1 else 0))
            && (i > (if unfinalized then 1 else 0) ==> event == Skipped && after == before)
            && (WakesItself(r, before, after, event) <==> unfinalized && i == 0)
            && Live(after, r) && (!unfinalized || i > 0 ==> AtRest(after, r))
            && (unfinalized && i == 0 ==> FINALIZER in after.binder.value.finalizers)
  {
    hide Pass, AtRest, WakesItself, Calm, Reconciles;
    assert turns[i] in turns;
    var before := WorldAfter(w, r, turns[..i]);
    assert turns[..i + 1][..i] == turns[..i];
    var after := Pass(before, r, turns[i].circumstances, turns[i].work).0;
    assert WorldAfter(w, r, turns[..i + 1]) == after;
    if i > 0 {
      LoopQuiesces(w, r, turns, i - 1);
    }
    FirstPass(before, r, turns[i].circumstances, turns[i].work);
    if AtRest(before, r) {
      RestIsStable(before, r, turns[i].circumstances, turns[i].work);
    }
  }

  // ---------- skipping is sound ----------

  /** What the last recorded processing used. */
  datatype Last = Last(version: string, mapping: map<string, string>)

  /** Others may edit the CR's spec and the ConfigMaps between passes, but not the status. */
  datatype Move =
    | Edit(spec: Spec, configMap: Key, generation: nat, deleting: bool, configMaps: map<Key, ConfigMapObject>)
    | Turned(turn: Turn)

  ghost function Advance(w: World, last: Option<Last>, r: Instance, m: Move): (World, Option<Last>) {
    match m
    case Edit(spec, cm, g, d, cms) =>
      var b := if w.binder.Some?
               then Some(w.binder.value.(spec := spec, configMap := cm, generation := g,
                                         deleting := w.binder.value.deleting || d))
               else None;
      (w.(binder := b, configMaps := cms), last)
    case Turned(t) =>
      var (w2, event) := Pass(w, r, t.circumstances, t.work);
      (w2, if event.Processed? && event.recorded then Some(Last(event.version, event.mapping)) else last)
  }

  ghost function Play(w: World, last: Option<Last>, r: Instance, moves: seq<Move>): (World, Option<Last>) {
    if moves == [] then (w, last)
    else
      var n := |moves| - 1;
      var (w1, last1) := Play(w, last, r, moves[..n]);
      Advance(w1, last1, r, moves[n])
  }

  /**
    Nobody else writes the status, and the two reads agree on the hash of the mapping, or
    the second is back at the recorded one. In between others may edit what they like.
   */
  ghost predicate HashesAgree(b: Binder, r: Instance, c: Circumstances) {
    var b2 := c.between(b);
    && b2.status == b.status && c.afterPolicies(b2).status == b2.status
    && (Digest(b.spec.roleMapping, r.hash) == Digest(b2.spec.roleMapping, r.hash)
        || b.status.roleMappingHash == Digest(b2.spec.roleMapping, r.hash))
  }

  ghost predicate AgreesOn(w: World, r: Instance, m: Move) {
    m.Turned? && w.binder.Some? ==> HashesAgree(w.binder.value, r, m.turn.circumstances)
  }

  /** At every pass of the history. */
  ghost predicate Agreeing(w: World, r: Instance, moves: seq<Move>) {
    forall n :: 0 <= n < |moves| ==> AgreesOn(Play(w, None, r, moves[..n]).0, r, moves[n])
  }

  /** The status tells the truth about the last recorded processing. */
  ghost predicate Truthful(w: World, last: Option<Last>, r: Instance) {
    w.binder.Some? ==>
      var st := w.binder.value.status;
      && (st.configMapVersion != "" ==> last.Some? && st.configMapVersion == last.value.version)
      && (st.roleMappingHash != "" ==> last.Some? && st.roleMappingHash == Digest(last.value.mapping, r.hash))
  }

  lemma AdvanceTruthful(w: World, last: Option<Last>, r: Instance, m: Move)
    requires Truthful(w, last, r) && AgreesOn(w, r, m)
    ensures var (w2, last2) := Advance(w, last, r, m); Truthful(w2, last2, r)
  {
    if m.Turned? {
      hide Purge, Orphan, Released, Finish, Changed, Reconciles;
      TurnTruthful(w, last, r, m.turn);
    }
  }

  lemma TurnTruthful(w: World, last: Option<Last>, r: Instance, t: Turn)
    requires Truthful(w, last, r) && (w.binder.Some? ==> HashesAgree(w.binder.value, r, t.circumstances))
    ensures var (w2, event) := Pass(w, r, t.circumstances, t.work);
            Truthful(w2, if event.Processed? && event.recorded then Some(Last(event.version, event.mapping))
                         else last, r)
  {
    hide Purge, Orphan, Reconciles, Digest;
  }

  lemma {:induction false} PlayTruthful(w: World, r: Instance, moves: seq<Move>)
    requires Truthful(w, None, r) && Agreeing(w, r, moves)
    ensures var (w2, last) := Play(w, None, r, moves); Truthful(w2, last, r)
  {
    hide Advance, Truthful, AgreesOn;
    if moves == [] {
    } else {
      var n := |moves| - 1;
      forall i | 0 <= i < n
        ensures AgreesOn(Play(w, None, r, moves[..n][..i]).0, r, moves[..n][i])
      {
        assert moves[..n][..i] == moves[..i];
      }
      PlayTruthful(w, r, moves[..n]);
      var (w1, last1) := Play(w, None, r, moves[..n]);
      AdvanceTruthful(w1, last1, r, moves[n]);
    }
  }

  /**
    From a CR that was never processed, after any history of passes, failures and edits
    whose recording passes record the truth (see RecordIsExact): a pass is skipped only if
    the last recorded processing used this very ConfigMap version and a mapping of the
    present hash. What passes did that recorded nothing is another matter, see
    SkipTellsTruthExactly.
   */
  lemma SkipIsSound(w: World, r: Instance, moves: seq<Move>, turn: Turn)
    requires w.binder.Some? ==>
               w.binder.value.status.configMapVersion == "" && w.binder.value.status.roleMappingHash == ""
    requires Agreeing(w, r, moves) && AgreesOn(Play(w, None, r, moves).0, r, Turned(turn))
    ensures var (w1, last) := Play(w, None, r, moves);
            var (w2, event) := Pass(w1, r, turn.circumstances, turn.work);
            event.Skipped? ==>
              && last.Some? && w2.binder.Some? && w2.binder.value.configMap in w2.configMaps
              && last.value.version == w2.configMaps[w2.binder.value.configMap].version
              && Digest(last.value.mapping, r.hash) == Digest(w2.binder.value.spec.roleMapping, r.hash)
  {
    hide Pass, Play, Agreeing;
    PlayTruthful(w, r, moves);
    var (w1, last) := Play(w, None, r, moves);
    SkipIsTruthful(w1, last, r, turn);
  }

  lemma SkipIsTruthful(w: World, last: Option<Last>, r: Instance, turn: Turn)
    requires Truthful(w, last, r) && AgreesOn(w, r, Turned(turn))
    ensures var (w2, event) := Pass(w, r, turn.circumstances, turn.work);
            event.Skipped? ==>
              && last.Some? && w2.binder.Some? && w2.binder.value.configMap in w2.configMaps
              && last.value.version == w2.configMaps[w2.binder.value.configMap].version
              && Digest(last.value.mapping, r.hash) == Digest(w2.binder.value.spec.roleMapping, r.hash)
  {
    hide Purge, Orphan, Digest;
  }

  /**
    Without the proviso: what a completed pass records is the hash of the mapping it used
    exactly if the two reads agree on the hash, or the second is back at the recorded one.
   */
  lemma RecordIsExact(w: World, r: Instance, c: Circumstances, work: Work)
    requires w.binder.Some? && c.between(w.binder.value).status == w.binder.value.status
    requires c.afterPolicies(c.between(w.binder.value)).status == w.binder.value.status
    ensures var (t, event) := Pass(w, r, c, work);
            event.Processed? && event.recorded ==>
              var first, second := w.binder.value.spec.roleMapping, c.between(w.binder.value).spec.roleMapping;
              && t.binder.Some? && event.mapping == second
              && (t.binder.value.status.roleMappingHash == Digest(second, r.hash) <==>
                    || Digest(first, r.hash) == Digest(second, r.hash)
                    || w.binder.value.status.roleMappingHash == Digest(second, r.hash))
  {}

  /**
    A mapping edited between the reads and then edited back: the next pass is skipped,
    though the other mapping was processed.
   */
  lemma StaleSkip(w: World, r: Instance, c1: Circumstances, c2: Circumstances, work1: Work, work2: Work,
                  other: map<string, string>)
    requires Live(w, r) && FINALIZER in w.binder.value.finalizers && Calm(c2)
    requires c1.getOk && c1.purge.listOk && c1.refetchOk && c1.getConfigMapOk && c1.statusOk
    requires var b := w.binder.value;
             && c1.between(b) == b.(spec := b.spec.(roleMapping := other))
             && c1.afterPolicies(c1.between(b)) == c1.between(b)
             && b.status.roleMappingHash == ""
             && Digest(other, r.hash) != Digest(b.spec.roleMapping, r.hash)
    ensures var b := w.binder.value;
            var (w1, event1) := Pass(w, r, c1, work1);
            && event1.Processed? && event1.recorded && event1.mapping == other
            && w1.binder.Some?
            && var back := w1.(binder := Some(w1.binder.value.(spec := b.spec)));
               Pass(back, r, c2, work2) == (back, Skipped)
  {}

  // ---------- what the cluster was last touched by ----------

  /** What a pass did to the cluster: it processed a ConfigMap, or it purged or orphaned and went no further. */
  datatype Touch = Worked(version: string, mapping: map<string, string>) | Disturbed

  ghost function TouchedBy(w: World, r: Instance, t: Turn): Option<Touch> {
    if !Reconciles(r, w.owner.namespace) || !t.circumstances.getOk || w.binder.None? then None
    else
      var b := w.binder.value;
      if b.deleting then if FINALIZER in b.finalizers then Some(Disturbed) else None
      else if FINALIZER !in b.finalizers then None
      else match Pass(w, r, t.circumstances, t.work).1
           case Processed(version, mapping, _) => Some(Worked(version, mapping))
           case _ => if Changed(b, r) && t.circumstances.purge.listOk then Some(Disturbed) else None
  }

  /** No other pass changes anything in the cluster. */
  lemma UntouchedKeepsCluster(w: World, r: Instance, t: Turn)
    requires TouchedBy(w, r, t).None?
    ensures Pass(w, r, t.circumstances, t.work).0.cluster == w.cluster
  {
    hide Digest, Orphan;
  }

  ghost function TouchedAt(w: World, r: Instance, m: Move): Option<Touch> {
    if m.Turned? then TouchedBy(w, r, m.turn) else None
  }

  ghost function LastTouch(w: World, r: Instance, moves: seq<Move>): Option<Touch> {
    if moves == [] then None
    else
      var n := |moves| - 1;
      var touch := TouchedAt(Play(w, None, r, moves[..n]).0, r, moves[n]);
      if touch.Some? then touch else LastTouch(w, r, moves[..n])
  }

  /** The pass went through to the end, its status write included, and its two reads agree as RecordIsExact asks. */
  ghost predicate Tells(w: World, r: Instance, m: Move) {
    && m.Turned? && w.binder.Some?
    && var event := Pass(w, r, m.turn.circumstances, m.turn.work).1;
       event.Processed? && event.recorded && HashesAgree(w.binder.value, r, m.turn.circumstances)
  }

  /** The last pass that touched the cluster is one that tells. */
  ghost predicate LastTouchTells(w: World, r: Instance, moves: seq<Move>) {
    moves != [] &&
    var n := |moves| - 1;
    var world := Play(w, None, r, moves[..n]).0;
    if TouchedAt(world, r, moves[n]).Some? then Tells(world, r, moves[n]) else LastTouchTells(w, r, moves[..n])
  }

  /** Nobody else writes the status. */
  ghost predicate StatusKept(c: Circumstances) {
    forall b :: c.between(b).status == b.status && c.afterPolicies(b).status == b.status
  }

  /** The status names what the cluster was last touched by exactly if that pass told. */
  ghost predicate Accurate(w: World, touch: Option<Touch>, tells: bool, r: Instance) {
    w.binder.Some? ==>
      var st := w.binder.value.status;
      match touch
      case None => st.configMapVersion == "" && st.roleMappingHash == "" && !tells
      case Some(Disturbed) => !tells
      case Some(Worked(version, mapping)) =>
        tells <==> st.configMapVersion == version && st.roleMappingHash == Digest(mapping, r.hash)
  }

  lemma AccurateAfterMove(w: World, touch: Option<Touch>, tells: bool, last: Option<Last>, r: Instance, m: Move)
    requires Accurate(w, touch, tells, r) && (m.Turned? ==> StatusKept(m.turn.circumstances))
    ensures var now := TouchedAt(w, r, m);
            Accurate(Advance(w, last, r, m).0, if now.Some? then now else touch,
                     if now.Some? then Tells(w, r, m) else tells, r)
  {
    hide Digest, Purge, Orphan;
    if m.Turned? {
      TurnIsAccurate(w, touch, tells, r, m.turn);
    }
  }

  lemma TurnIsAccurate(w: World, touch: Option<Touch>, tells: bool, r: Instance, t: Turn)
    requires Accurate(w, touch, tells, r) && StatusKept(t.circumstances)
    ensures var now := TouchedBy(w, r, t);
            Accurate(Pass(w, r, t.circumstances, t.work).0, if now.Some? then now else touch,
                     if now.Some? then Tells(w, r, Turned(t)) else tells, r)
  {
    hide Digest, Purge, Orphan, Reconciles;
  }

  ghost predicate AllStatusKept(moves: seq<Move>) {
    forall m :: m in moves && m.Turned? ==> StatusKept(m.turn.circumstances)
  }

  lemma {:induction false} HistoryIsAccurate(w: World, r: Instance, moves: seq<Move>)
    requires Accurate(w, None, false, r) && AllStatusKept(moves)
    ensures Accurate(Play(w, None, r, moves).0, LastTouch(w, r, moves), LastTouchTells(w, r, moves), r)
  {
    hide Accurate, Advance, TouchedAt, Tells, StatusKept;
    if moves == [] {
    } else {
      var n := |moves| - 1;
      assert forall m :: m in moves[..n] ==> m in moves;
      HistoryIsAccurate(w, r, moves[..n]);
      var (w1, last) := Play(w, None, r, moves[..n]);
      assert moves[n] in moves;
      AccurateAfterMove(w1, LastTouch(w, r, moves[..n]), LastTouchTells(w, r, moves[..n]), last, r, moves[n]);
    }
  }

  /**
    The last pass that touched the cluster processed the present ConfigMap version with a
    mapping of the present hash.
   */
  ghost predicate UpToDateWith(touch: Option<Touch>, w: World, r: Instance) {
    && w.binder.Some? && w.binder.value.configMap in w.configMaps
    && touch.Some? && touch.value.Worked?
    && touch.value.version == w.configMaps[w.binder.value.configMap].version
    && Digest(touch.value.mapping, r.hash) == Digest(w.binder.value.spec.roleMapping, r.hash)
  }

  /**
    From a CR that was never processed, after any history whatever, failures anywhere
    included: a pass whose reads agree and that is skipped tells the truth about the last
    pass that touched the cluster exactly if that one went through and recorded what it
    used. A pass may itself have purged before it is skipped; then it is the one asked.
   */
  lemma SkipTellsTruthExactly(w: World, r: Instance, moves: seq<Move>, turn: Turn)
    requires w.binder.Some? ==>
               w.binder.value.status.configMapVersion == "" && w.binder.value.status.roleMappingHash == ""
    requires AllStatusKept(moves) && StatusKept(turn.circumstances)
    requires AgreesOn(Play(w, None, r, moves).0, r, Turned(turn))
    ensures var (w2, event) := Pass(Play(w, None, r, moves).0, r, turn.circumstances, turn.work);
            var all := moves + [Turned(turn)];
            event.Skipped? ==> (UpToDateWith(LastTouch(w, r, all), w2, r) <==> LastTouchTells(w, r, all))
  {
    hide Pass, StatusKept, TouchedBy, Tells, AgreesOn;
    var all := moves + [Turned(turn)];
    assert all[..|moves|] == moves;
    HistoryIsAccurate(w, r, moves);
    SkippedTurn(Play(w, None, r, moves).0, LastTouch(w, r, moves), LastTouchTells(w, r, moves), r, turn);
  }

  lemma SkippedTurn(w: World, touch: Option<Touch>, tells: bool, r: Instance, t: Turn)
    requires Accurate(w, touch, tells, r) && StatusKept(t.circumstances) && AgreesOn(w, r, Turned(t))
    ensures var (w2, event) := Pass(w, r, t.circumstances, t.work);
            var now := TouchedBy(w, r, t);
            event.Skipped? ==>
              (UpToDateWith(if now.Some? then now else touch, w2, r)
               <==> if now.Some? then Tells(w, r, Turned(t)) else tells)
  {
    hide Digest, Purge, Orphan, Reconciles;
  }

  /** A skip compares with what was recorded exactly if the reads agree. */
  lemma SkipComparesRecorded(w: World, r: Instance, t: Turn)
    requires w.binder.Some? && StatusKept(t.circumstances)
    ensures var (w2, event) := Pass(w, r, t.circumstances, t.work);
            event.Skipped? ==>
              && w2.binder.Some? && w2.binder.value.configMap in w2.configMaps
              && w2.binder.value.status.configMapVersion == w2.configMaps[w2.binder.value.configMap].version
              && (w2.binder.value.status.roleMappingHash == Digest(w2.binder.value.spec.roleMapping, r.hash)
                  <==> HashesAgree(w.binder.value, r, t.circumstances))
  {
    hide Digest, Purge, Orphan, Reconciles;
  }

  /** The CR of a world at rest, with another role mapping. */
  ghost function Edited(w: World, other: map<string, string>): World
    requires w.binder.Some?
  {
    w.(binder := Some(w.binder.value.(spec := w.binder.value.spec.(roleMapping := other))))
  }

  /** A pass under an edited mapping whose status write fails; the edit is taken back; the next pass is skipped. */
  lemma UnrecordedThenSkipped(w: World, r: Instance, c1: Circumstances, c2: Circumstances, work1: Work, work2: Work,
                              other: map<string, string>)
    requires AtRest(w, r) && Calm(c1.(statusOk := true)) && !c1.statusOk && Calm(c2)
    requires Digest(other, r.hash) != Digest(w.binder.value.spec.roleMapping, r.hash)
    requires forall b :: c1.afterPolicies(b) == b
    ensures var edited := Edited(w, other);
            var (w1, event) := Pass(edited, r, c1, work1);
            && event == Processed(w.configMaps[w.binder.value.configMap].version, other, false)
            && w1 == edited.(cluster := work1.cluster)
            && HashesAgree(edited.binder.value, r, c1)
            && var back := w1.(binder := w.binder);
               Pass(back, r, c2, work2) == (back, Skipped) && HashesAgree(w.binder.value, r, c2)
  {
    hide Digest, Purge;
    PurgeSucceeds(w.cluster, Context(r.op, w.owner, Edited(w, other).binder.value.spec), c1.purge);
  }

  /**
    A purge under an edited mapping, then a read that fails; the edit is taken back; nothing
    restores what was purged.
   */
  lemma PurgedThenSkipped(w: World, r: Instance, c1: Circumstances, c2: Circumstances, work1: Work, work2: Work,
                          other: map<string, string>)
    requires AtRest(w, r) && c1.getOk && c1.purge.listOk && !c1.refetchOk && Calm(c2)
    requires Digest(other, r.hash) != Digest(w.binder.value.spec.roleMapping, r.hash)
    ensures var edited := Edited(w, other);
            var purged := Purge(w.cluster, Context(r.op, w.owner, edited.binder.value.spec), c1.purge).0;
            && Pass(edited, r, c1, work1) == (edited.(cluster := purged), Failure)
            && var back := w.(cluster := purged);
               Pass(back, r, c2, work2) == (back, Skipped) && HashesAgree(w.binder.value, r, c2)
  {
    hide Digest, Purge;
    PurgeSucceeds(w.cluster, Context(r.op, w.owner, Edited(w, other).binder.value.spec), c1.purge);
  }

  /** The edit is taken back between the reads: one pass purges under the edited mapping and is skipped. */
  lemma PurgedAndSkipped(w: World, r: Instance, c: Circumstances, work: Work, other: map<string, string>)
    requires AtRest(w, r) && c.getOk && c.purge.listOk && c.refetchOk && c.getConfigMapOk
    requires Digest(other, r.hash) != Digest(w.binder.value.spec.roleMapping, r.hash)
    requires c.between(Edited(w, other).binder.value) == w.binder.value
    ensures var edited := Edited(w, other);
            var purged := Purge(w.cluster, Context(r.op, w.owner, edited.binder.value.spec), c.purge).0;
            Pass(edited, r, c, work) == (w.(cluster := purged), Skipped)
  {
    hide Digest, Purge;
    PurgeSucceeds(w.cluster, Context(r.op, w.owner, Edited(w, other).binder.value.spec), c.purge);
  }

  // ---------- what a skip leaves undone ----------

  /** The CR with an edited spec; the API server counts the edit in the generation. */
  ghost function Respecified(w: World, spec: Spec): World
    requires w.binder.Some?
  {
    w.(binder := Some(w.binder.value.(spec := spec, generation := w.binder.value.generation + 1)))
  }

  /** An edit of anything but the role mapping wakes the loop, and the pass it wakes is skipped. */
  lemma EditGoesUnseen(w: World, r: Instance, spec: Spec, c: Circumstances, work: Work)
    requires AtRest(w, r) && Calm(c) && spec.roleMapping == w.binder.value.spec.roleMapping
    ensures var edited := Respecified(w, spec);
            && UpdateWakes(r, w.owner.namespace, w.binder.value, edited.binder.value)
            && AtRest(edited, r) && Pass(edited, r, c, work) == (edited, Skipped)
  {
    RestIsStable(Respecified(w, spec), r, c, work);
  }

  /** What the loop would process now. */
  ghost function Lines(w: World): Wants
    requires w.binder.Some? && w.binder.value.configMap in w.configMaps
  {
    WhitelistWants(w.configMaps[w.binder.value.configMap].data, w.binder.value.spec)
  }

  ghost function ContextNow(w: World, r: Instance): Context
    requires w.binder.Some?
  {
    Context(r.op, w.owner, w.binder.value.spec)
  }

  /**
    Whatever happened before: the processing that a skipped pass omits would, with good
    calls and in every order, have left the cluster as it is exactly if the cluster is
    settled for the present ConfigMap and the present spec.
   */
  lemma SkipOmitsNothingExactly(w: World, r: Instance, c: Circumstances, work: Work, good: Circumstances, omitted: Work)
    requires Pass(w, r, c, work).1 == Skipped
    requires AllSucceed(good.answers) && AccountsSucceed(good.accountAnswers)
    requires var t := Pass(w, r, c, work).0;
             && t.binder.Some? && t.binder.value.configMap in t.configMaps
             && IsWork(t.cluster, ContextNow(t, r), t.configMaps[t.binder.value.configMap].data, good, omitted)
    ensures var t := Pass(w, r, c, work).0;
            omitted.cluster == t.cluster <==> Settled(t.cluster, Lines(t), ContextNow(t, r))
  {
    hide Pass, ProcessWants, ProcessVisits, Settled, WhitelistWants, Enumerates, Reports, LineWant;
    var t := Pass(w, r, c, work).0;
    var x := ContextNow(t, r);
    WorkKeepsExactly(t.cluster, x, t.configMaps[t.binder.value.configMap].data, good, omitted);
  }

  lemma WorkKeepsExactly(s: State, x: Context, data: map<string, string>, good: Circumstances, work: Work)
    requires AllSucceed(good.answers) && AccountsSucceed(good.accountAnswers) && IsWork(s, x, data, good, work)
    ensures work.cluster == s <==> Settled(s, WhitelistWants(data, x.spec), x)
  {
    hide ProcessWants, ProcessVisits, Settled, Enumerates, Reports, LineWant;
    var ws := WhitelistWants(data, x.spec);
    WhitelistWantsConsistent(data, x.spec);
    ReportedByPass(s, ws, x, good.answers);
    var visits :|
      && Known(visits, x.spec.serviceAccountMapping) && NamespacesDistinct(visits)
      && var (s1, bindings) := ProcessWants(s, WhitelistWants(data, x.spec), x, good.answers);
         && (AccountsSucceed(good.accountAnswers) ==>
               Complete(visits, NamespacesOf(bindings), x.spec.serviceAccountMapping))
         && (work.cluster, work.bindings, work.accounts)
            == (ProcessVisits(s1, visits, x, good.accountAnswers).0, bindings,
                ProcessVisits(s1, visits, x, good.accountAnswers).1);
    PassKeepsExactly(s, ws, x, good.answers, visits, good.accountAnswers);
  }

  /** Accounts added to the mapping of a CR at rest are not made: the pass is skipped with work left to do. */
  lemma AddedAccountsAreOmitted(w: World, r: Instance, spec: Spec, c: Circumstances, work: Work, k: Key, name: string)
    requires AtRest(w, r) && Calm(c) && spec.roleMapping == w.binder.value.spec.roleMapping
    requires var edited := Respecified(w, spec);
             && k in Reports(w.cluster, Lines(edited), ContextNow(edited, r))
             && name in spec.serviceAccountMapping
             && EntryFor(ContextNow(edited, r), k.namespace, name).AccountKey() !in w.cluster.serviceAccounts
    ensures var edited := Respecified(w, spec);
            && Pass(edited, r, c, work) == (edited, Skipped)
            && !Settled(edited.cluster, Lines(edited), ContextNow(edited, r))
  {
    hide Reports, WhitelistWants, AccountName;
    EditGoesUnseen(w, r, spec, c, work);
    var edited := Respecified(w, spec);
    assert k.namespace in NamespacesOf(Reports(w.cluster, Lines(edited), ContextNow(edited, r)));
  }

  // ---------- deletion ----------

  /** The CR is deleted and its finalizer is still there. */
  predicate Leaving(w: World) {
    w.binder.Some? && w.binder.value.deleting && FINALIZER in w.binder.value.finalizers
  }

  /**
    The finalizer of a deleted CR goes in a pass that has just tried to orphan what the CR
    manages, and in no other. Of the objects not marked before, exactly those are still
    unmarked then whose list call or own update failed; the finalizer goes all the same.
   */
  lemma OrphanedBeforeReleased(w: World, r: Instance, c: Circumstances, work: Work)
    requires Leaving(w)
    ensures var (t, event) := Pass(w, r, c, work);
            && (t.binder.None? || FINALIZER !in t.binder.value.finalizers ==>
                  event == OrphanedAndReleased && t.cluster == Orphan(w.cluster, r.op, w.owner, c.now, c.orphan))
            && (event == OrphanedAndReleased && t.binder.Some? ==>
                  multiset(t.binder.value.finalizers) == multiset(w.binder.value.finalizers)[FINALIZER := 0])
  {
    RemoveStringKeepsOthers(w.binder.value.finalizers, FINALIZER);
  }

  lemma UnmarkedExactly(w: World, r: Instance, c: Circumstances, work: Work)
    requires Leaving(w) && Pass(w, r, c, work).1 == OrphanedAndReleased
    ensures var t := Pass(w, r, c, work).0.cluster;
            && (forall k :: ManagesBinding(w.cluster, k, r.op, w.owner) ==>
                  && k in t.roleBindings
                  && (Get(t.roleBindings[k].annotations, OrphanedAtKey) == "" <==>
                        Get(w.cluster.roleBindings[k].annotations, OrphanedAtKey) == ""
                        && !(c.orphan.listBindingsOk && c.orphan.bindingOk(k)))
                  && (!(c.orphan.listBindingsOk && c.orphan.bindingOk(k)) ==> SameBinding(w.cluster, t, k)))
            && (forall n :: ManagesNamespace(w.cluster, n, r.op, w.owner) ==>
                  && n in t.namespaces
                  && (Get(t.namespaces[n].annotations, OrphanedAtKey) == "" <==>
                        Get(w.cluster.namespaces[n].annotations, OrphanedAtKey) == ""
                        && !(c.orphan.listNamespacesOk && c.orphan.namespaceOk(n)))
                  && (!(c.orphan.listNamespacesOk && c.orphan.namespaceOk(n)) ==> SameNamespace(w.cluster, t, n)))
  {
    hide Purge, Finish, SecondHalf, Digest;
    assert Pass(w, r, c, work).0.cluster == Orphan(w.cluster, r.op, w.owner, c.now, c.orphan);
  }

  /**
    What was left unmarked with a live stamped claim is claimed for good, as the CR is
    gone: in every interleaving of others' operations that judge after the release, the
    object stays as it is and every other CR is refused.
   */
  lemma UnmarkedIsDead(w: World, r: Instance, c: Circumstances, work: Work, moves: seq<Interleavings.Move>, k: Key)
    requires Leaving(w) && Pass(w, r, c, work).1 == OrphanedAndReleased
    requires ManagesBinding(w.cluster, k, r.op, w.owner) && ClaimsBinding(w.cluster, k, w.owner)
    requires !(c.orphan.listBindingsOk && c.orphan.bindingOk(k))
    requires var t := Pass(w, r, c, work).0.cluster;
             Interleavings.ByOthers(moves, w.owner) && Interleavings.Warranted(t, moves)
    ensures var later := Interleavings.Interleave(Pass(w, r, c, work).0.cluster, moves);
            && SameBinding(w.cluster, later, k)
            && forall o2 :: o2 != w.owner ==> BindingRefused(later, k, o2)
  {
    UnmarkedExactly(w, r, c, work);
    hide Pass, Interleavings.Interleave, Interleavings.Warranted;
    var t := Pass(w, r, c, work).0.cluster;
    var later := Interleavings.Interleave(t, moves);
    assert SameBinding(w.cluster, t, k);
    Interleavings.FirstOwnerWins(t, moves, w.owner);
    assert ClaimsBinding(t, k, w.owner);
    assert SameBinding(t, later, k);
    DeadRefuses(w.cluster, later, k, w.owner);
  }

  lemma DeadRefuses(s: State, t: State, k: Key, o: Owner)
    requires ClaimsBinding(s, k, o) && SameBinding(s, t, k)
    ensures forall o2 :: o2 != o ==> BindingRefused(t, k, o2)
  {
    forall o2 | o2 != o
      ensures BindingRefused(t, k, o2)
    {
      LiveClaimExcludesOthers(s.roleBindings[k].annotations, o, o2);
    }
  }

  lemma UnmarkedNamespaceIsDead(w: World, r: Instance, c: Circumstances, work: Work, moves: seq<Interleavings.Move>,
                                n: string)
    requires Leaving(w) && Pass(w, r, c, work).1 == OrphanedAndReleased
    requires ManagesNamespace(w.cluster, n, r.op, w.owner) && ClaimsNamespace(w.cluster, n, w.owner)
    requires !(c.orphan.listNamespacesOk && c.orphan.namespaceOk(n))
    requires var t := Pass(w, r, c, work).0.cluster;
             Interleavings.ByOthers(moves, w.owner) && Interleavings.Warranted(t, moves)
    ensures var later := Interleavings.Interleave(Pass(w, r, c, work).0.cluster, moves);
            && SameNamespace(w.cluster, later, n)
            && forall o2 :: o2 != w.owner ==> NamespaceRefused(later, n, o2)
  {
    UnmarkedExactly(w, r, c, work);
    hide Pass, Interleavings.Interleave, Interleavings.Warranted;
    var t := Pass(w, r, c, work).0.cluster;
    var later := Interleavings.Interleave(t, moves);
    assert SameNamespace(w.cluster, t, n);
    Interleavings.FirstOwnerWins(t, moves, w.owner);
    assert ClaimsNamespace(t, n, w.owner);
    assert SameNamespace(t, later, n);
    forall o2 | o2 != w.owner
      ensures NamespaceRefused(later, n, o2)
    {
      LiveClaimExcludesOthers(w.cluster.namespaces[n].annotations, w.owner, o2);
    }
  }

  /**
    Whatever was judged before the release too: only a deletion of the RoleBinding, or a
    mark on the namespace, both pending since before, can end such a claim.
   */
  lemma UnmarkedEndsExactly(w: World, r: Instance, c: Circumstances, work: Work, moves: seq<Interleavings.Move>)
    requires Leaving(w) && Pass(w, r, c, work).1 == OrphanedAndReleased
    requires forall m :: m in moves ==> Interleavings.Foreign(m, w.owner)
    ensures var later := Interleavings.Interleave(Pass(w, r, c, work).0.cluster, moves);
            && (forall k :: ManagesBinding(w.cluster, k, r.op, w.owner) && ClaimsBinding(w.cluster, k, w.owner)
                            && !(c.orphan.listBindingsOk && c.orphan.bindingOk(k)) ==>
                  (SameBinding(w.cluster, later, k) <==> forall m :: m in moves && m.Drop? ==> m.key != k))
            && (forall n :: ManagesNamespace(w.cluster, n, r.op, w.owner) && ClaimsNamespace(w.cluster, n, w.owner)
                            && !(c.orphan.listNamespacesOk && c.orphan.namespaceOk(n)) ==>
                  (SameNamespace(w.cluster, later, n) <==> forall m :: m in moves && m.MarkNs? ==> m.name != n))
  {
    UnmarkedExactly(w, r, c, work);
    hide Pass, Interleavings.Interleave, Interleavings.Foreign;
    var t := Pass(w, r, c, work).0.cluster;
    var later := Interleavings.Interleave(t, moves);
    forall k | ManagesBinding(w.cluster, k, r.op, w.owner) && ClaimsBinding(w.cluster, k, w.owner)
               && !(c.orphan.listBindingsOk && c.orphan.bindingOk(k))
      ensures SameBinding(w.cluster, later, k) <==> forall m :: m in moves && m.Drop? ==> m.key != k
    {
      assert SameBinding(w.cluster, t, k);
      Interleavings.ClaimOutlives(t, moves, k, w.owner);
    }
    forall n | ManagesNamespace(w.cluster, n, r.op, w.owner) && ClaimsNamespace(w.cluster, n, w.owner)
               && !(c.orphan.listNamespacesOk && c.orphan.namespaceOk(n))
      ensures SameNamespace(w.cluster, later, n) <==> forall m :: m in moves && m.MarkNs? ==> m.name != n
    {
      assert SameNamespace(w.cluster, t, n);
      Interleavings.NamespaceClaimOutlives(t, moves, n, w.owner);
    }
  }

  /** One failed list call is enough: the CR is released and nothing is marked. */
  lemma ReleasedUnmarkedExample(w: World, r: Instance, c: Circumstances, work: Work)
    requires Leaving(w) && w.binder.value.finalizers == [FINALIZER]
    requires Reconciles(r, w.owner.namespace) && c.getOk && c.updateOk
    requires !c.orphan.listBindingsOk && !c.orphan.listNamespacesOk
    ensures var (t, event) := Pass(w, r, c, work);
            event == OrphanedAndReleased && t.binder.None? && t.cluster == w.cluster
  {
    assert [FINALIZER][..0] == [];
    assert RemoveString([FINALIZER], FINALIZER) == [];
    var t := Orphan(w.cluster, r.op, w.owner, c.now, c.orphan);
    assert t.roleBindings == w.cluster.roleBindings && t.namespaces == w.cluster.namespaces;
  }

  /** After that the CR's loop never touches the cluster again. */
  lemma ReleasedIsQuiet(w: World, r: Instance, c: Circumstances, work: Work)
    requires w.binder.None? || (w.binder.value.deleting && FINALIZER !in w.binder.value.finalizers)
    ensures Pass(w, r, c, work).0 == w
  {}
}
