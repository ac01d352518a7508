/**
  The part of the Kubernetes API the operator works on: namespaces, RoleBindings and
  ServiceAccounts with their annotations and labels, and a client that reads and writes
  them one object at a time.

  Whether a call to the API server succeeds is an input (`Api`): a failed call leaves
  the cluster as it was.
 */
module Cluster {
  import opened Strings

  // ---------- metadata ----------

  /** Annotation keys: those the operator itself writes, and everybody else's. */
  datatype AnnotationKey =
    | ManagedByKey | CreatedAtKey | BinderKey | BinderNamespaceKey | RoleKey
    | OrphanedAtKey | OrphanedByKey
    | CreatedByKey | SATypeKey | ServiceAccountKey
    | OtherKey(name: string)

  datatype LabelKey = ManagedByLabel | AppManagedBy | AppComponent | AppName | OtherLabel(name: string)

  type Annotations = map<AnnotationKey, string>
  type Labels = map<LabelKey, string>

  /** Go's map read: a missing key reads as the empty string; a nil map reads like an empty one. */
  function Get<K(==)>(m: map<K, string>, key: K): string {
    if key in m then m[key] else ""
  }

  const ORPHANED_BY_DELETION := "permission-binder-deletion"
  const RBAC_GROUP := "rbac.authorization.k8s.io"

  type NonEmpty = s: string | s != "" witness "x"

  // ---------- objects ----------

  /** Objects inside a namespace are known by namespace and name. */
  datatype Key = Key(namespace: string, name: string)

  datatype Namespace = Namespace(annotations: Annotations, labels: Labels)

  datatype Subject = Subject(kind: string, apiGroup: string, name: string, namespace: string)

  /** As the Kubernetes API for rbac/v1 stores it: a group or user without apiGroup is given one. */
  function Defaulted(s: Subject): (r: StoredSubject) {
    if s.kind in {"Group", "User"} && s.apiGroup == "" then s.(apiGroup := RBAC_GROUP) else s
  }

  type StoredSubject = s: Subject | s.kind in {"Group", "User"} ==> s.apiGroup != ""
    witness Subject("ServiceAccount", "", "", "")

  function AllDefaulted(subjects: seq<Subject>): (stored: seq<StoredSubject>)
    ensures |stored| == |subjects| && forall i :: 0 <= i < |stored| ==> stored[i] == Defaulted(subjects[i])
  {
    seq(|subjects|, i requires 0 <= i < |subjects| => Defaulted(subjects[i]))
  }

  datatype RoleRef = RoleRef(apiGroup: string, kind: string, name: string)

  /** A RoleBinding as it is stored. */
  datatype RoleBinding = RoleBinding(
    annotations: Annotations, labels: Labels, subjects: seq<StoredSubject>, roleRef: RoleRef)

  /** A RoleBinding as the operator sends it. */
  datatype BindingRequest = BindingRequest(
    annotations: Annotations, labels: Labels, subjects: seq<Subject>, roleRef: RoleRef)
  {
    function Stored(): RoleBinding {
      RoleBinding(annotations, labels, AllDefaulted(subjects), roleRef)
    }
  }

  function Request(rb: RoleBinding): (r: BindingRequest)
    ensures r.Stored() == rb
  {
    BindingRequest(rb.annotations, rb.labels, rb.subjects, rb.roleRef)
  }

  datatype ServiceAccount = ServiceAccount(annotations: Annotations, labels: Labels)

  datatype State = State(
    namespaces: map<string, Namespace>,
    roleBindings: map<Key, RoleBinding>,
    serviceAccounts: map<Key, ServiceAccount>)

  function ClusterRoleRef(name: string): RoleRef {
    RoleRef(RBAC_GROUP, "ClusterRole", name)
  }

  // ---------- owners and operator instances ----------

  /** A PermissionBinder CR. Kubernetes gives every CR of a namespaced kind both names. */
  datatype Owner = Owner(name: NonEmpty, namespace: NonEmpty)

  /** Whether the API server lets an update change a RoleBinding's roleRef. */
  datatype RoleRefRule = Mutable | Immutable

  /** One operator instance: its managed-by value, and the API server's rule it works under. */
  datatype Operator = Operator(managedBy: NonEmpty, rule: RoleRefRule)

  // ---------- calls ----------

  /** The answers of the API server during one get-then-write exchange. */
  datatype Api = Api(getOk: bool, writeOk: bool)

  const ALL_GOOD := Api(true, true)

  predicate UpdateAllowed(rule: RoleRefRule, was: RoleRef, wanted: RoleRef) {
    rule.Mutable? || was == wanted
  }

  /** The API client: each write is one call that happens or fails. */
  class Client {
    var state: State

    constructor (s: State)
      ensures state == s
    {
      state := s;
    }

    /** What others do between two calls of this client. */
    method Interfere(s: State)
      modifies this
      ensures state == s
    {
      state := s;
    }

    method WriteNamespace(name: string, obj: Namespace, ok: bool) returns (done: bool)
      modifies this
      ensures done == ok
      ensures state == if done then old(state).(namespaces := old(state).namespaces[name := obj]) else old(state)
    {
      if ok {
        state := state.(namespaces := state.namespaces[name := obj]);
      }
      done := ok;
    }

    method CreateRoleBinding(key: Key, obj: BindingRequest, ok: bool) returns (done: bool)
      requires key !in state.roleBindings
      modifies this
      ensures done == ok
      ensures state == if done then old(state).(roleBindings := old(state).roleBindings[key := obj.Stored()])
              else old(state)
    {
      if ok {
        state := state.(roleBindings := state.roleBindings[key := obj.Stored()]);
      }
      done := ok;
    }

    method UpdateRoleBinding(key: Key, obj: BindingRequest, rule: RoleRefRule, ok: bool) returns (done: bool)
      requires key in state.roleBindings
      modifies this
      ensures done == (ok && UpdateAllowed(rule, old(state).roleBindings[key].roleRef, obj.roleRef))
      ensures state == if done then old(state).(roleBindings := old(state).roleBindings[key := obj.Stored()])
              else old(state)
    {
      done := ok && UpdateAllowed(rule, state.roleBindings[key].roleRef, obj.roleRef);
      if done {
        state := state.(roleBindings := state.roleBindings[key := obj.Stored()]);
      }
    }

    /** Deletion carries no precondition: whatever is stored under the key goes. */
    method DeleteRoleBinding(key: Key, ok: bool) returns (done: bool)
      modifies this
      ensures done == (ok && key in old(state).roleBindings)
      ensures state == if ok then old(state).(roleBindings := old(state).roleBindings - {key}) else old(state)
    {
      done := ok && key in state.roleBindings;
      if ok {
        state := state.(roleBindings := state.roleBindings - {key});
      }
    }

    method CreateServiceAccount(key: Key, obj: ServiceAccount, ok: bool) returns (done: bool)
      requires key !in state.serviceAccounts
      modifies this
      ensures done == ok
      ensures state == if done then old(state).(serviceAccounts := old(state).serviceAccounts[key := obj])
              else old(state)
    {
      if ok {
        state := state.(serviceAccounts := state.serviceAccounts[key := obj]);
      }
      done := ok;
    }
  }
}
