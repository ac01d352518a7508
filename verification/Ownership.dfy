/**
  Who owns an object: the two tests on annotations that guard every write and every
  cleanup (reconciliation_cleanup.go), and what they say about a stamped claim.
 */
module Ownership {
  import opened Strings
  import opened Cluster

  /**
    The name must match, and the namespace too once it is stamped; a claim from before
    namespaces were stamped matches by name alone. (A nil map reads as an empty one,
    and an owner's name is never empty.)
   */
  predicate IsOwnedBy(a: Annotations, o: Owner) {
    && Get(a, BinderKey) == o.name
    && (Get(a, BinderNamespaceKey) == "" || Get(a, BinderNamespaceKey) == o.namespace)
  }

  predicate CanTakeOwnership(a: Annotations, o: Owner) {
    || Get(a, BinderKey) == ""
    || IsOwnedBy(a, o)
    || Get(a, OrphanedAtKey) != ""
  }

  /** Both ownership annotations name `o`. */
  predicate StampedBy(a: Annotations, o: Owner) {
    Get(a, BinderKey) == o.name && Get(a, BinderNamespaceKey) == o.namespace
  }

  /** A claim nobody else may touch: fully stamped and not orphan-marked. */
  predicate LiveClaim(a: Annotations, o: Owner) {
    StampedBy(a, o) && Get(a, OrphanedAtKey) == ""
  }

  predicate LegacyClaim(a: Annotations, o: Owner) {
    Get(a, BinderKey) == o.name && Get(a, BinderNamespaceKey) == ""
  }

  /** A live stamped claim shuts out every other CR, even one of the same name. */
  lemma LiveClaimExcludesOthers(a: Annotations, o: Owner, other: Owner)
    requires LiveClaim(a, o)
    ensures IsOwnedBy(a, other) <==> other == o
    ensures CanTakeOwnership(a, other) <==> other == o
  {
    if IsOwnedBy(a, other) {
      assert other == Owner(o.name, o.namespace);
    }
  }

  /** The gate refuses exactly a claim that is live and names somebody else. */
  lemma GateRefusesExactly(a: Annotations, o: Owner)
    ensures !CanTakeOwnership(a, o) <==>
            (&& Get(a, BinderKey) != "" && Get(a, OrphanedAtKey) == ""
             && !StampedBy(a, o) && !LegacyClaim(a, o))
  {
    if Get(a, BinderKey) == o.name {
      assert StampedBy(a, o) || LegacyClaim(a, o) <==> IsOwnedBy(a, o);
    }
  }
}
