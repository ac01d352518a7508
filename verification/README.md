# Permission binder: a verified model

The operator turns whitelist lines of a ConfigMap into namespaces, RoleBindings and
ServiceAccounts. Any number of PermissionBinder CRs, reconciled by any number of operator
instances, do so on one cluster and compete for its objects through ownership
annotations. Beside that the operator keeps NetworkPolicies in Git. This project models
those parts in Dafny and proves what they promise. `dafny verify dfyconfig.toml` checks it.

How it is built:

- `Strings`, `Sorting`: string functions, byte order, the exchange sort on an array.
- `Cluster`: objects with annotation and label maps, and a client whose calls may fail.
  Whether the API server lets an update change a roleRef is a parameter
  (`Mutable`, `Immutable`).
- `Ownership`, `RoleBindings`: the two ownership tests; taking over one object.
- `Whitelist`, `ConfigMap`, `ServiceAccounts`, `ConfigMapPass`: from a line to the
  cluster, and whole passes.
- `Cleanup`: orphaning on deletion, purging obsolete RoleBindings.
- `Runs`: all CRs' operations in any order, and what every run keeps.
- `Interleavings`, `LateClaims`: the same call by call, with many operations under way.
- `SettledPass`, `Rounds`: when a pass has nothing left to do, and what many CRs do that
  repeat theirs.
- `Migration`: deleting one CR and recreating it under another name.
- `RoleMappingHash`, `Reconcile`: change detection, the reconcile loop, the event filter.
- `NetworkPolicyStatus`, `NetworkPolicyWriters`, `NetworkPolicyDrift`,
  `NetworkPolicyPlanner`, `Kustomization`: the GitOps side.

Code that works step by step is a method here too, with its loop, on the state it
changes; each such method is proved equal to a function of the state before, and the
lemmas are about that function. A Go map is walked in an arbitrary order. Every call that
can fail has its outcome as an input, so a theorem without a premise on outcomes holds
for all of them.

What the proofs found that a maintainer should know:

- **Late writes.** Three writes are made without a check on what was judged before: the
  purge's deletions (two loops over one list), the deletion before an account's
  RoleBinding is made anew, and the marks on the namespaces of a deleted CR, which are
  read again but not judged again. A claim that another CR makes in between can be
  destroyed (`LateClaims.LateDeletionExample`, `LateClaims.LateMarkExample`), although the
  repository promises (README.md:22) that instances never delete each other's resources.
  A claim is safe from everything judged after it was made
  (`Interleavings.FirstOwnerWins`), and for each of the three it is known from the judged
  object alone exactly which claims are in danger (`LateClaims.SafeFromPurgeExactly`,
  `LateClaims.SafeFromRecreationExactly`, `LateClaims.SafeFromCleanupExactly`).
- **Released, but not orphaned.** If a list or an update fails during the cleanup of a
  deleted CR, the finalizer goes all the same. What was not marked stays claimed by a CR
  that is gone, and none but a CR of the same name and namespace can take it from then on
  (`Reconcile.UnmarkedExactly`, `Reconcile.UnmarkedIsDead`). Only a deletion of the
  RoleBinding, or a mark on the namespace, that another CR judged before the release and
  carries out late can still end such a claim (`Reconcile.UnmarkedEndsExactly`).
- **Dead claims of account RoleBindings.** They carry no managed-by label, so deleting a
  CR never orphans them, and again none but a CR of the same name and namespace can take
  them (`Runs.AccountsOutliveOwner`), late deletions aside.
- **Namesakes.** Whether an account's RoleBinding is up to date is told from two names. One
  of another kind, say of a Role and a Group, is stamped and reported, and the account has
  no rights (`ServiceAccounts.AccountsConverge`, `ServiceAccounts.NamesakeExample`).
- **Stamped, but no claim.** An account's RoleBinding that is marked as orphaned and up to
  date is stamped and stays marked. It shuts out nobody
  (`ServiceAccounts.AccountsClaimExactly`), and two CRs with such an account take it from
  each other for ever. Where each CR has one instance and no line clashes with its CR's
  own accounts, nothing else keeps CRs that repeat their passes from coming to rest
  (`Rounds.RestExactly`, `Rounds.FirstRoundDecides`, `Rounds.MarkingUnsettles`).
- **Two instances, one CR.** With different managed-by values they undo each other's
  passes, as the repository's README says (README.md:472-478,
  `SettledPass.InstancesMustAgree`).
- **Edits that go unseen.** An edit of the prefixes, the exclude list, the ServiceAccount
  mapping or the naming pattern wakes the loop and is skipped until the ConfigMap or the
  role mapping changes (`Reconcile.EditGoesUnseen`, `Reconcile.AddedAccountsAreOmitted`).
  Exactly when such a skip omits nothing is told by `Reconcile.SkipOmitsNothingExactly`.
- **The short cut that is never taken.** The wanted group subject has no apiGroup, the
  stored one has, so every line writes its RoleBinding in every pass
  (`RoleBindings.NeverUpToDate`).
- **Flicker.** Two lines for one RoleBinding with different groups take it from each
  other and give it back in every pass (`ConfigMap.StandsStillExactly`).
- **Stale skip.** Whether a pass is skipped is decided by what was recorded last, not by
  what was done to the cluster last. The two differ after a pass that purged or processed
  and then stopped short of its status write (`Reconcile.PurgedThenSkipped`,
  `Reconcile.UnrecordedThenSkipped`), after a pass that purged and was then skipped itself
  (`Reconcile.PurgedAndSkipped`), and when the mapping is edited between the two reads,
  as the hash recorded is that of the first and the mapping processed that of the second
  (`Reconcile.RecordIsExact`, `Reconcile.StaleSkip`). If the edit is then taken back, the
  cluster stays as it is until something else changes. There is no other way
  (`Reconcile.SkipTellsTruthExactly`).
- **Failures inside a pass are not retried.** A line, an account or a deletion that fails
  does not fail the pass, which records what it used like any other; every later pass is
  skipped until the ConfigMap or the mapping changes (`Reconcile.LoopQuiesces`, whose
  premise asks nothing of those calls).
- **Stuck roleRefs.** Where roleRef is immutable, a group's RoleBinding whose ClusterRole
  changes in the mapping stays blocked pass after pass and drops out of the report
  (`ConfigMap.BlockedStays`, `ConfigMap.ReportedByPass`).
- **Clashing names** in namespaces named `sa` or `sa-...` (`ConfigMapPass.PassIsIdempotent`,
  `Migration.MigrationExactly`).
- **Iteration order shows** in an account's annotations when a naming pattern gives two
  entries one account that is yet to be made (`ServiceAccounts.OrderNeverShowsExactly`);
  under the default pattern it never does (`ServiceAccounts.DefaultNamesConfluent`).
- **Ambiguous mapping text.** Every mapping of two entries or more shares its text, and
  so its hash, with another one (`RoleMappingHash.SharedTextExactly`); an edit between two
  such goes unseen. Where keys hold no "=" and values no ";" there is no such edit.
- **A namespace that returns** keeps the state "removed", and when it leaves again the old
  stamp counts (`NetworkPolicyStatus.ReturningStaysRemoved`,
  `NetworkPolicyStatus.LeavingAgainCountsOldStamp`).
- **Failed templates and backups** are made up for by the next plan, whatever the plan
  before (`NetworkPolicyPlanner.ReplanningRetries`).
- **Drift of a renamed policy.** A policy with a template annotation and another name than
  the template's is compared with another policy's file
  (`NetworkPolicyPlanner.DriftComparesOwnFile`). Whatever drift is found is only logged.
- **Absent is not empty for drift.** A spec without policy types, or a match expression
  without values, compares as drifted against one with an empty list
  (`NetworkPolicyDrift.NormalFormDecides`).
- **No file for some templates.** With backups off, a template whose policy is in the
  cluster already gets no file (`NetworkPolicyPlanner.PlanCovers`).
- **A removal** from a hand-written kustomization list takes one copy only
  (`Kustomization.RemovalIsExact`).
- The comments in `normalizeSelector` say that match expressions and their values are
  sorted. The code sorts neither: `sort.StringSlice` is a type conversion. The model
  follows the code and compares selectors as they are.

What is assumed: CR names and namespaces, the managed-by value, time stamps, resource
versions and hashes are non-empty strings; an update of an object read before fails if
the object changed in between, and a creation fails if the object exists, so those are
one step with the read and the judgement before them; a stored subject of kind Group or
User has an apiGroup, as the Kubernetes API for rbac/v1 gives it one. Properties of JSON
texts and hashes are premises where they are needed, and named there (`Faithful`,
`Injective`).

## Model

| member | source | states |
|---|---|---|
| Ownership.LiveClaimExcludesOthers | operator/internal/controller/reconciliation_cleanup.go:57-102 | While an object is fully stamped and not orphan-marked, both ownership tests answer yes for its owner and for nobody else, not even a CR of the same name in another namespace |
| Ownership.GateRefusesExactly | operator/internal/controller/reconciliation_cleanup.go:94-102 | The takeover gate refuses if and only if the claim is live and neither fully stamped by nor a legacy name-only claim of the asking CR |
| Runs.FirstOwnerWins | operator/internal/controller/reconciliation_cleanup.go:57-102 | With whole operations of other CRs one after the other, by any instances and with any failing calls, a live stamped claim keeps the whole object as it is (calls one by one: Interleavings.FirstOwnerWins) |
| Runs.TransferNeedsHandover | operator/internal/controller/reconciliation_cleanup.go:107-284 | With whole operations one after the other: if a stamped owner no longer holds a RoleBinding at the end, some operation of that owner deleted or orphan-marked it while it held it (calls one by one: Interleavings.HandoverNeeded) |
| Runs.NamespaceTransferNeedsOrphaning | operator/internal/controller/reconciliation_cleanup.go:137-158 | The same for namespaces, where only the owner's own orphaning does it (calls one by one: Interleavings.NamespaceHandoverNeeded) |
| Runs.RunNeverDeletes | operator/internal/controller/reconciliation_cleanup.go:104-162 | Safe mode over all runs: no namespace is ever deleted, and no existing ServiceAccount is deleted or changed |
| Runs.AccountsNeverListed | operator/internal/controller/service_account_helper.go:144-194 | Outside namespaces named sa or sa-..., an account's RoleBinding without the managed-by label never gets it in any run, so it stays out of the set every cleanup of every instance lists |
| Runs.AccountsOutliveOwner | operator/internal/controller/service_account_helper.go:214-236 | The other side: after its CR is deleted, such a RoleBinding keeps the claim and every other CR is refused, in every run |
| Runs.PassIsRun | operator/internal/controller/reconciliation_configmap.go:40-187 | A whitelist pass, with whatever calls failing, is a run of the CR's own steps, so the run theorems cover it |
| Runs.AccountsAreRun | operator/internal/controller/service_account_helper.go:45-349 | A pass over the ServiceAccount mapping of one namespace, cut short or not, is a run of the CR's own steps |
| Runs.VisitsAreRun | operator/internal/controller/reconciliation_configmap.go:137-180 | The account passes over all namespaces are together a run of the CR's own steps |
| Runs.ForeignStepMakesNoClaim | operator/internal/controller/reconciliation_cleanup.go:94-102 | No operation of one CR makes a live claim for another |
| Runs.ForeignStepMakesNoNamespaceClaim | operator/internal/controller/reconciliation_cleanup.go:94-102 | The same for namespaces |
| Interleavings.FirstOwnerWins | operator/internal/controller/reconciliation_cleanup.go:57-102 | Call by call, with any number of operations of other CRs under way at once: a live stamped claim keeps the whole object as it is, as long as every unconditional write among them was judged at some point after the claim was there |
| Interleavings.HandoverNeeded | operator/internal/controller/reconciliation_cleanup.go:107-284 | In such moves a RoleBinding claim is lost only if its owner itself deletes or marks the object first, while it still holds the claim |
| Interleavings.NamespaceHandoverNeeded | operator/internal/controller/reconciliation_cleanup.go:137-158 | In such moves a namespace claim is lost only if its owner itself marks the namespace first |
| Interleavings.ClaimOutlives | operator/internal/controller/reconciliation_cleanup.go:240-281 | Among others' moves, judged at whatever time, a live claim is ended by a deletion of its key and by nothing else |
| Interleavings.NamespaceClaimOutlives | operator/internal/controller/reconciliation_cleanup.go:137-158 | The same for namespaces, where a single late mark is what ends it |
| LateClaims.PurgeIsDrops | operator/internal/controller/reconciliation_cleanup.go:219-284 | Undisturbed, the first loop's deletions in any order and then the second's in any order equal the purge as one step, and each was judged when the list was made |
| LateClaims.SafeFromPurgeExactly | operator/internal/controller/reconciliation_cleanup.go:219-284 | Claims that others make on a RoleBinding at any point survive every schedule of the purge if and only if it is deleted in neither loop, or in one only and was listed with a live claim of the purging CR; for a key some line can ask for, with a roleRef that can be had |
| LateClaims.SafeFromPurgeExactlyForAccounts | operator/internal/controller/reconciliation_cleanup.go:219-284 | The same if and only if for every key of an account's RoleBinding, with no side condition |
| LateClaims.PurgeShelteredIsSafe | operator/internal/controller/reconciliation_cleanup.go:219-284 | The safe direction for every key whatsoever |
| LateClaims.OldClaimsOutlivePurge | operator/internal/controller/reconciliation_cleanup.go:219-284 | A claim another CR already held when the purge made its list is untouched, however the purge is interleaved with others' operations |
| LateClaims.LateDeletionExample | operator/internal/controller/reconciliation_cleanup.go:240-281 | A claim made after the listing is destroyed: a key obsolete by role and by prefix is deleted twice, the second time after another CR has bound it anew |
| LateClaims.SafeFromCleanupExactly | operator/internal/controller/reconciliation_cleanup.go:137-158 | Claims that others make on a namespace survive every schedule of a deleted CR's cleanup if and only if the namespace is not listed, or was listed with a live stamped claim of that CR |
| LateClaims.LateMarkExample | operator/internal/controller/reconciliation_cleanup.go:137-158 | The retry of a cleanup lists a namespace it has marked before, another CR adopts it, and the retry marks the new owner's live claim as orphaned |
| LateClaims.CleanupIsMoves | operator/internal/controller/reconciliation_cleanup.go:137-158 | The loop over the listed namespaces, with any operations of others before each fresh read, is such a sequence of moves |
| LateClaims.CleanupMovesAreScheduled | operator/internal/controller/reconciliation_cleanup.go:137-158 | And that sequence is a schedule: one mark for each listed namespace whose update succeeds |
| LateClaims.ListedMarkIsSafe | operator/internal/controller/reconciliation_cleanup.go:115-135 | Marking a RoleBinding as it was listed never meets another CR's live claim, whenever it happens |
| LateClaims.RecreateIsMoves | operator/internal/controller/service_account_helper.go:284-338 | Undisturbed, the deletion and the creation equal the account step as a whole |
| LateClaims.SafeFromRecreationExactly | operator/internal/controller/service_account_helper.go:213-338 | Claims on an account's RoleBinding survive every schedule of its recreation if and only if it was not read as takeable and out of date, or was read with a live claim of the recreating CR |
| RoleBindings.EnsureNamespaceExists | operator/internal/controller/reconciliation_rolebindings.go:36-133 | The field-by-field edits under needsUpdate have the same effect and result as passing the gate and then writing the claimed namespace, for every existing object and every failing call |
| RoleBindings.CreateRoleBinding | operator/internal/controller/reconciliation_rolebindings.go:167-333 | The diff and the edits have the effect of gate-then-unconditional-upsert of the desired RoleBinding, for every stored object, failing call and roleRef rule of the API server; the short cut is dead code, as subjects are stored with an apiGroup |
| RoleBindings.NeverUpToDate | operator/internal/controller/reconciliation_rolebindings.go:178-210 | The subject the operator compares with carries no apiGroup, every stored group subject does, so no stored RoleBinding ever passes as up to date |
| RoleBindings.DesiredIsFixpoint | operator/internal/controller/reconciliation_rolebindings.go:242-333 | A stored RoleBinding is stamped, un-orphaned and as wanted exactly when writing the desired object over it changes nothing |
| RoleBindings.DesiredNamespaceIsFixpoint | operator/internal/controller/reconciliation_rolebindings.go:80-133 | The same for namespaces |
| RoleBindings.ManagedMeansDesired | operator/internal/controller/reconciliation_rolebindings.go:162-333 | managed=true is returned if and only if both calls succeed and the stored object ends stamped, un-orphaned and as desired |
| RoleBindings.BindWrites | operator/internal/controller/reconciliation_rolebindings.go:162-333 | Field by field what a managed RoleBinding reads afterwards, whatever it read before: stamp, role, creation time (the old one, or now), no orphan mark, label, the group as only subject, the ClusterRole |
| RoleBindings.ClaimWrites | operator/internal/controller/reconciliation_rolebindings.go:36-133 | The same for a namespace, and that a refused or failed one is left as it is |
| RoleBindings.RefusedExactly | operator/internal/controller/reconciliation_rolebindings.go:223-240 | Of the exchanges that change nothing, exactly those with a good read that the gate turns down count as refused |
| RoleBindings.OverwriteKeepsForeign | operator/internal/controller/reconciliation_rolebindings.go:242-333 | Annotations and labels the operator does not own, and an existing creation time, survive an update |
| RoleBindings.BindPreserves | operator/internal/controller/reconciliation_rolebindings.go:167-333 | Nothing but the one RoleBinding changes, foreign metadata in it survives, and under an immutable roleRef its roleRef never changes |
| RoleBindings.OverwriteOverwrite | operator/internal/controller/reconciliation_rolebindings.go:242-333 | Two updates in a row equal the second alone, with the first one's creation time |
| RoleBindings.ClaimClaim | operator/internal/controller/reconciliation_rolebindings.go:36-133 | Claiming a namespace twice, at whatever times, equals claiming it once |
| RoleBindings.KeyDeterminesRole | operator/internal/controller/reconciliation_configmap.go:108-109 | Two whitelist lines that fall on one RoleBinding name the same namespace and role |
| Sorting.ExchangeSort | operator/internal/controller/reconciliation_configmap.go:231-239 | The in-place exchange sort returns a sorted permutation of its array, for every total preorder |
| Sorting.SortedUnique | operator/internal/controller/reconciliation_configmap.go:293-313 | A sorted rearrangement under an antisymmetric order is unique, so the order in which a map was read cannot show in it |
| Strings.LeqExactly | operator/internal/controller/reconciliation_configmap.go:293-301 | The byte order: one string is the start of the other, or the first byte in which they differ is the smaller |
| Strings.SplitJoins | operator/internal/controller/reconciliation_configmap.go:53-56 | The lines of a text hold no line end, and joined again they are the text |
| Strings.JoinSplits | operator/internal/controller/reconciliation_configmap.go:53-56 | And no others do that: lines that are joined are split again |
| Strings.TrimSpaceExactly | operator/internal/controller/reconciliation_configmap.go:57-62 | White space goes at both ends of a line, and nothing else does |
| Whitelist.ParsePermissionString | operator/internal/controller/reconciliation_configmap.go:254-290 | The scan over the role map, in any iteration order, finds the split read off the string itself: longest role, non-empty namespace |
| Whitelist.ParsePermissionStringWithPrefixes | operator/internal/controller/reconciliation_configmap.go:226-248 | Sorting the prefixes and trying them in turn finds the split at the last dash that ends a prefix under which the CN parses |
| Whitelist.ParseSpec | operator/internal/controller/reconciliation_configmap.go:226-290 | A CN parses if and only if under some configured prefix what is left ends with a role and is not a dash and a role alone; then it is prefix-namespace-role with the longest such prefix, the longest role key and a non-empty namespace |
| Whitelist.ParsesExactly | operator/internal/controller/reconciliation_configmap.go:254-290 | When one prefix parses, in terms of the CN alone: a longest role that takes all that is left makes the parse fail although a shorter one might leave a namespace |
| Whitelist.ParseIgnoresOrder | operator/internal/controller/reconciliation_configmap.go:226-248 | Order and repetition of the configured prefixes do not matter |
| Whitelist.ExtractCNRoundTrip | operator/internal/controller/reconciliation_configmap.go:191-212 | A trimmed CN without comma, written as the first component of a DN, is extracted again |
| Whitelist.ExtractCNExactly | operator/internal/controller/reconciliation_configmap.go:191-212 | A line has a CN if and only if it reads CN= somewhere; the CN is what stands between the first such place and the next comma or the end, trimmed |
| Whitelist.ExtractRoleFromRoleBindingName | operator/internal/controller/reconciliation_helpers.go:69-99 | Collecting, sorting by length and trying the roles gives the longest matching role in every map order, else the last dash-separated segment |
| Whitelist.ExtractRoleSpec | operator/internal/controller/reconciliation_helpers.go:69-99 | If some role of the mapping ends the name, the longest such is returned; otherwise the answer is empty or not in the mapping |
| Whitelist.ParserAndExtractorAgree | operator/internal/controller/reconciliation_helpers.go:69-99 | For every CN that parses, the extractor recovers the parsed role from the generated RoleBinding name |
| ConfigMap.LineWantPrefixed | operator/internal/controller/reconciliation_configmap.go:65-109 | The group bound for a line starts with one of the configured prefixes and a dash |
| ConfigMap.LineWantExactly | operator/internal/controller/reconciliation_configmap.go:57-109 | A line asks for something if and only if, trimmed, it is neither blank nor a comment, has a CN that is not in the exclude list, and the CN parses under some prefix; then the CN is the group and reads prefix-namespace-role, and the mapping gives the ClusterRole |
| ConfigMap.WantsOfLines | operator/internal/controller/reconciliation_configmap.go:48-56 | The requests of a pass are those of the lines of the whitelist.txt entry, one for each, in order |
| ConfigMap.ExcludedNeverBound | operator/internal/controller/reconciliation_configmap.go:74-80 | Whatever calls fail: each RoleBinding a pass changes ends with one subject, a group that is not in the exclude list and has a configured prefix |
| ConfigMap.NamespaceStopsLine | operator/internal/controller/reconciliation_configmap.go:100-123 | A line whose namespace call fails does nothing and is not reported; in every other case, a refused namespace included, its RoleBinding is tried as if there were no namespace |
| ConfigMap.ProcessWhitelistLine | operator/internal/controller/reconciliation_configmap.go:56-124 | One line's branches, from blank to reported, have the effect of the request read off the line; a refused namespace does not stop the RoleBinding |
| ConfigMap.ProcessWhitelist | operator/internal/controller/reconciliation_configmap.go:40-124 | The loop over the lines has the effect of the requests in line order, for every combination of failing calls |
| ConfigMap.BindingAfterPass | operator/internal/controller/reconciliation_configmap.go:54-123 | Closed form of a pass with good calls: each RoleBinding asked for and not blocked holds the last line's content with the creation time of the first; every other one is untouched |
| ConfigMap.NamespaceAfterPass | operator/internal/controller/reconciliation_configmap.go:100-105 | Each namespace asked for and not refused is claimed at the time of its first line; every other one is untouched |
| ConfigMap.ReportedByPass | operator/internal/controller/reconciliation_configmap.go:109-123 | The report lists, in line order, exactly the RoleBindings of lines that were not blocked at the start of the pass |
| ConfigMap.ReportsInOrder | operator/internal/controller/reconciliation_configmap.go:109-123 | What some lines report comes before what the lines after them report |
| ConfigMap.BlockedStays | operator/internal/controller/reconciliation_configmap.go:109-123 | A pass neither unblocks nor blocks any line of its own |
| ConfigMap.ProcessIsIdempotent | operator/internal/controller/reconciliation_configmap.go:40-127 | A second whitelist pass over the same lines with good calls, at a later time, leaves the whole cluster and the report as they are, even with refused objects and several lines for one RoleBinding |
| ConfigMap.StandsStillExactly | operator/internal/controller/reconciliation_configmap.go:54-127 | No line of a repeated pass moves anything if and only if no two unblocked lines bind different groups to one RoleBinding; otherwise every pass takes it from one group and gives it back |
| ConfigMap.QuietPass | operator/internal/controller/reconciliation_configmap.go:54-127 | Without such lines the cluster stands still at every line of the repeated pass, whatever calls fail in it |
| ServiceAccounts.ProcessServiceAccount | operator/internal/controller/service_account_helper.go:66-342 | Get, create, restamp, delete-and-recreate for one entry equal the entry's specified effect for every failing call, including the one that leaves the RoleBinding deleted |
| ServiceAccounts.ProcessServiceAccounts | operator/internal/controller/service_account_helper.go:45-349 | The loop over the mapping, in whatever order it is yielded, has the effect of the entries in that order and stops at the first failed call |
| ServiceAccounts.NamesEffect | operator/internal/controller/service_account_helper.go:66-342 | Whatever the order, each entry's RoleBinding ends as a function of what it was at the start alone, and nothing else changes |
| ServiceAccounts.NamesReported | operator/internal/controller/service_account_helper.go:340-349 | Exactly the entries whose RoleBinding is not refused are reported, and every entry has its account |
| ServiceAccounts.AccountsConverge | operator/internal/controller/service_account_helper.go:66-342 | In every order, each entry that is not refused ends with its account, reported, and with a stamped RoleBinding; that one grants what the entry asks for (roleRef and first subject in full) if and only if what was there was no namesake: same roleRef name and first subject name, but another kind, apiGroup or namespace. A namesake keeps its roleRef and subjects; a refused RoleBinding is untouched |
| ServiceAccounts.NamesakeExample | operator/internal/controller/service_account_helper.go:235-277 | Input: an unclaimed RoleBinding of a Role and a Group by the wanted names is stamped and its account reported, though the account gets no right |
| ServiceAccounts.AccountsClaimExactly | operator/internal/controller/service_account_helper.go:214-277 | An entry that is not refused ends with a live claim of its CR if and only if what was there was not both marked as orphaned and up to date by name; otherwise it is stamped but stays marked, and every CR may take it |
| ServiceAccounts.AccountsWritten | operator/internal/controller/service_account_helper.go:85-338 | In full what a pass writes for an entry, told from name, mapped role, naming pattern and namespace: the RoleBinding sa-namespace-name where there was none, or one that may be taken and has another role name or first subject name, and the account where there was none |
| ServiceAccounts.EntryFailsExactly | operator/internal/controller/service_account_helper.go:66-338 | An entry fails if and only if a call it needs does; it is left without its RoleBinding if and only if the old one was deleted and the creation after it fails |
| ServiceAccounts.StopsAtFailure | operator/internal/controller/service_account_helper.go:66-342 | After the first entry that fails, no later one has any effect or is reported |
| ServiceAccounts.AccountsAfter | operator/internal/controller/service_account_helper.go:66-138 | Whatever the order, an existing account is untouched and a missing one is made for the entry met first among those that ask for it |
| ServiceAccounts.AccountsConfluent | operator/internal/controller/service_account_helper.go:66-342 | Two iteration orders always end with the same RoleBindings, and with the same cluster if and only if each account yet to be made is met first through the same entry |
| ServiceAccounts.OrderNeverShowsExactly | operator/internal/controller/service_account_helper.go:66-342 | All iteration orders lead to one cluster if and only if no two entries share an account that is not yet in the namespace |
| ServiceAccounts.SharedAccountExample | operator/internal/controller/service_account_helper.go:24-39 | The pattern account with two entries: the order shows |
| ServiceAccounts.DefaultName | operator/internal/controller/service_account_helper.go:24-39 | Under the default pattern, left empty or written out, for a namespace without an opening brace, the name is namespace-sa-name |
| ServiceAccounts.PatternFilled | operator/internal/controller/service_account_helper.go:24-39 | For every pattern that is set, placeholders in any number and order between pieces of text without opening braces: the name is the pieces with namespace and name in their places |
| ServiceAccounts.PatternExamples | operator/internal/controller/service_account_helper.go:24-39 | The patterns sa-{namespace}-{name}, {namespace}-{name} and {name}-{namespace} |
| ServiceAccounts.DefaultNamesConfluent | operator/internal/controller/service_account_helper.go:24-39 | Under the default pattern no iteration order of the mapping shows in the cluster |
| ConfigMapPass.ProcessConfigMap | operator/internal/controller/reconciliation_configmap.go:40-187 | The whole pass is the whitelist pass followed by the accounts of every namespace with a reported RoleBinding, each visited once, for all answers; with good calls every entry of each is met once |
| ConfigMapPass.VisitNamespaces | operator/internal/controller/reconciliation_configmap.go:137-180 | Every namespace is visited once whatever the order; a failed namespace contributes no report and does not stop the others |
| ConfigMapPass.VisitsReach | operator/internal/controller/service_account_helper.go:66-342 | After all visits each entry of each visited namespace has its account and the RoleBinding determined by the state before the visits |
| ConfigMapPass.VisitsReport | operator/internal/controller/reconciliation_configmap.go:137-180 | An account is reported once for each entry of a visited namespace that asks for it and is not refused, whatever the orders |
| ConfigMapPass.FailedVisitReportsNothing | operator/internal/controller/reconciliation_configmap.go:155-178 | No account is reported in a namespace whose pass failed, whatever it had made there before |
| ConfigMapPass.VisitsFrame | operator/internal/controller/reconciliation_configmap.go:137-180 | The visits change no namespace and no RoleBinding that is not an entry's of a visited namespace |
| ConfigMapPass.CollisionMeansAccountLike | operator/internal/controller/service_account_helper.go:144-147 | A group's RoleBinding can carry an account's name only in a namespace named sa or sa-... |
| ConfigMapPass.BlockedAfterVisits | operator/internal/controller/reconciliation_configmap.go:40-187 | After whitelist and accounts a line is blocked as before if and only if no account entry clashes with it |
| ConfigMapPass.PassIsIdempotent | operator/internal/controller/reconciliation_configmap.go:40-187 | The whole pass repeated, in other orders and later, keeps every object, the RoleBindings reported and, up to order, the accounts reported if and only if no group's RoleBinding clashes with an account's over an immutable roleRef |
| ConfigMapPass.PlainNamespacesNeverClash | operator/internal/controller/service_account_helper.go:144-147 | No clash is possible unless a reported RoleBinding lies in a namespace named sa or sa-... |
| ConfigMapPass.ClashExample | operator/internal/controller/service_account_helper.go:144-147 | A whitelist line and an account entry in namespace sa that do clash |
| SettledPass.PassKeepsExactly | operator/internal/controller/reconciliation_configmap.go:40-187 | A pass with good calls, in whatever orders and at whatever times, changes no object if and only if the cluster is settled: a condition on the cluster, the lines and the spec alone, namespace by namespace, RoleBinding by RoleBinding and account by account |
| SettledPass.PassSettles | operator/internal/controller/reconciliation_configmap.go:40-187 | A pass without clash ends in a settled cluster and reports what it would report again |
| SettledPass.InstancesMustAgree | operator/internal/controller/reconciliation_rolebindings.go:105-124 | What is settled for one instance is not for another with its own managed-by value, as soon as one line is not blocked: two such instances that reconcile one CR undo each other's passes (README.md:472-478 of the repository warns of it) |
| Rounds.RestExactly | operator/internal/controller/reconciliation_configmap.go:40-187 | Any number of CRs, each repeating its pass with good calls and without clash, in any order: once each has had a turn, no turn of any of them would change an object if and only if no RoleBinding marked as orphaned is one that accounts of two CRs work on |
| Rounds.FirstRoundDecides | operator/internal/controller/reconciliation_configmap.go:40-187 | After that first round either no object ever changes again, or the CRs never come to rest |
| Rounds.MarkStays | operator/internal/controller/service_account_helper.go:214-277 | Once a CR has had a turn, its further turns leave every orphan mark where it is, and each takes the stamp of the marked RoleBindings its accounts work on |
| Rounds.UnmarkedComesToRest | operator/internal/controller/reconciliation_configmap.go:40-187 | Told from the cluster before: where no marked RoleBinding bears the name of accounts of two CRs, every first round in every order brings the cluster to rest |
| Rounds.ReportsKept | operator/internal/controller/reconciliation_configmap.go:109-123 | A turn of another CR changes nothing about what a CR that has had its turn reports: it blocks none of its lines and frees none |
| Rounds.MarkingUnsettles | operator/internal/controller/service_account_helper.go:214-277 | Input: two CRs at rest whose accounts want the same of a RoleBinding; it is marked as orphaned, and they take it from each other for ever |
| Cleanup.CleanupManagedResources | operator/internal/controller/reconciliation_cleanup.go:107-162 | The two loops with anything others do before any call, the second list call included: every listed RoleBinding is marked if still as listed, every listed namespace is read again and marked as it is then |
| Cleanup.OrphanBindings | operator/internal/controller/reconciliation_cleanup.go:115-135 | The loop over the listed RoleBindings, in any order and with anything others do in between, marks those still as listed whose update succeeds |
| Cleanup.OrphanNamespaces | operator/internal/controller/reconciliation_cleanup.go:137-158 | The loop over the listed namespaces reads each again, whatever others did meanwhile, and marks it without judging it again |
| Cleanup.CleanupAlone | operator/internal/controller/reconciliation_cleanup.go:107-162 | With nobody in between, exactly the managed objects whose update succeeds are marked, in every order, and nothing else changes |
| Cleanup.ReconcileAllManagedResources | operator/internal/controller/reconciliation_cleanup.go:219-284 | The two deletion loops delete exactly the listed RoleBindings with a gone role or a gone prefix whose deletion succeeded |
| Cleanup.DeleteGoneRoles | operator/internal/controller/reconciliation_cleanup.go:240-260 | The loop judges the role from the annotation, else from the name, and deletes exactly the known roles that are no longer mapped |
| Cleanup.DeleteGonePrefixes | operator/internal/controller/reconciliation_cleanup.go:262-281 | The loop deletes exactly the RoleBindings with subjects whose first subject has none of the prefixes |
| Cleanup.ReportedIsDesired | operator/internal/controller/reconciliation_configmap.go:109-123 | Whatever calls fail, each reported RoleBinding ends the pass desired, for some line that asked for it |
| Cleanup.WhitelistWantsGenuine | operator/internal/controller/reconciliation_configmap.go:84-109 | Each line's role is mapped and recoverable from the RoleBinding's name, and its group has a configured prefix |
| Cleanup.PurgeKeepsReported | operator/internal/controller/reconciliation_cleanup.go:219-284 | Cleanup never undoes creation: under one spec no RoleBinding just reported is deleted, even if its role annotation was stripped |
| Cleanup.PurgeIsExact | operator/internal/controller/reconciliation_cleanup.go:219-284 | Exactly what a purge deletes, whatever calls fail, told from annotation, name and subject alone: of the RoleBindings the CR manages, those whose role annotation is not in the mapping, or that have none and whose name ends with no mapped role but with a last dash and a non-empty segment, and those whose first subject has no prefix, each if its deletion in that loop succeeds |
| Cleanup.RoleGoneExactly | operator/internal/controller/reconciliation_cleanup.go:240-260 | What the first loop judges, without the extractor: a non-empty annotation decides by itself; without one a mapped role that ends the name keeps the RoleBinding, otherwise a non-empty segment after the last dash condemns it |
| Cleanup.JudgedByName | operator/internal/controller/reconciliation_cleanup.go:248-254 | Input: a managed RoleBinding shop/shop-admin without role annotation, admin no longer mapped, is deleted |
| Cleanup.OrphanWrites | operator/internal/controller/reconciliation_cleanup.go:113-161 | What orphaning writes, annotation by annotation: the time and the origin of the mark, on exactly the managed objects whose calls succeed; every other annotation stays |
| Cleanup.MigrationOfBindings | operator/internal/controller/reconciliation_cleanup.go:107-162 | Whitelist passes on both sides: each RoleBinding reported before is reported again under the new CR and is the object it was, restamped, without orphan marks |
| Cleanup.MigrationOfNamespaces | operator/internal/controller/reconciliation_cleanup.go:137-158 | The same for every namespace the first CR claimed |
| Migration.MigrationExactly | operator/internal/controller/reconciliation_cleanup.go:107-162 | Whole passes, accounts included, on both sides: a RoleBinding the first CR reported is handed over unchanged but for stamp and marks if and only if its own accounts had left it to its group |
| RoleMappingHash.RoleMappingText | operator/internal/controller/reconciliation_configmap.go:293-309 | In every iteration order of the map, the text written is the one canonical text |
| RoleMappingHash.KeyOrderUnique | operator/internal/controller/reconciliation_configmap.go:293-301 | There is exactly one order in which a mapping's keys can be written |
| RoleMappingHash.CanonicalDecodes | operator/internal/controller/reconciliation_configmap.go:303-309 | Without = in keys and ; in values, the canonical text decodes back to the mapping |
| RoleMappingHash.CanonicalInjective | operator/internal/controller/reconciliation_configmap.go:293-313 | Among mappings without = in keys and ; in values, equal texts mean equal mappings |
| RoleMappingHash.SharedTextExactly | operator/internal/controller/reconciliation_configmap.go:293-313 | A mapping shares its text with another one if and only if the text holds two =, that is, if it has two entries or more, or an entry with a = of its own |
| RoleMappingHash.AmbiguousExample | operator/internal/controller/reconciliation_configmap.go:303-309 | Two different mappings with one text, so an edit from one to the other goes unseen |
| RoleMappingHash.HasRoleMappingChanged | operator/internal/controller/reconciliation_configmap.go:317-328 | A change is reported if and only if the recorded hash is not that of the present mapping |
| Reconcile.RemoveStringFrom | operator/internal/controller/reconciliation_helpers.go:36-44 | The accumulating loop returns the list without the string, in order |
| Reconcile.RemoveStringKeepsOthers | operator/internal/controller/reconciliation_helpers.go:36-44 | Every copy of the string goes, every other string stays as often as it was there |
| Reconcile.Server.Reconcile | operator/internal/controller/reconciliation_main.go:127-497 | One reconcile is one transition of the state machine, for every failing call, every edit between the two reads and every effect of the NetworkPolicy section on the CR; a processing did process the ConfigMap and the spec of the second read, visiting each namespace of a reported RoleBinding once, and when it is recorded the status shows what it reported. Nobody else acts on the cluster during the pass (calls one by one: Interleavings, LateClaims) |
| Reconcile.Server.ReconcileConfigMap | operator/internal/controller/reconciliation_main.go:219-476 | The part from the second read on: re-check of the hash, skip test, processing, the CR as the NetworkPolicy section leaves it, and a status write only if one of the five fields differs from that CR |
| Reconcile.FirstPass | operator/internal/controller/reconciliation_main.go:188-284 | A pass of a live CR with good calls adds the finalizer and wakes itself, or leaves the CR at rest and does not wake itself |
| Reconcile.StagesExactly | operator/internal/controller/reconciliation_main.go:127-284 | When a pass processes, when it skips and when it ignores the CR, told from CR, ConfigMaps, the instance's list of namespaces and the calls alone |
| Reconcile.FinalizersExactly | operator/internal/controller/reconciliation_main.go:140-194 | The finalizer is added, with nothing else changed, if and only if the CR is found, not deleted and without it and the update succeeds; the release likewise |
| Reconcile.StatusAfter | operator/internal/controller/reconciliation_main.go:388-476 | After a recorded processing the status lists what was reported, RoleBindings and accounts each in their field, the version, and a true condition with the two counts; after one that is not recorded it is what the others left |
| Reconcile.StatusTellsReports | operator/internal/controller/reconciliation_main.go:292-476 | With good calls on the cluster, the status then lists the RoleBindings of exactly the lines that were not blocked, in line order, and each account as often as entries of reported namespaces ask for it and are not refused |
| Reconcile.DeletionWakes | operator/internal/controller/predicates.go:65-98 | Deletion wakes the loop of exactly the instances that reconcile the CR's namespace; a change of status alone never wakes it |
| Reconcile.LoopQuiesces | operator/internal/controller/reconciliation_main.go:188-476 | However often a live CR is reconciled, with or without NetworkPolicies: at most one finalizer pass, at most one processing pass right after, then only skips that change nothing; of the loop's own writes only the finalizer passes the event filter |
| Reconcile.SkipIsSound | operator/internal/controller/reconciliation_main.go:197-284 | After any history of passes, failures and edits whose recording passes meet RecordIsExact's condition, a skip means the last recorded processing used this ConfigMap version and a mapping of the present hash; what unrecorded passes did in between is SkipTellsTruthExactly's subject |
| Reconcile.RecordIsExact | operator/internal/controller/reconciliation_main.go:234-443 | A completed pass records the hash of the mapping it used if and only if the two reads agree on the hash or the second is back at the recorded one |
| Reconcile.StaleSkip | operator/internal/controller/reconciliation_main.go:234-284 | A mapping edited between the two reads of one pass and edited back: the pass processes the edited mapping and records the hash of the other, so the next pass is skipped |
| Reconcile.UntouchedKeepsCluster | operator/internal/controller/reconciliation_main.go:127-476 | A pass that neither processes nor starts a purge nor orphans leaves the cluster as it was |
| Reconcile.SkipTellsTruthExactly | operator/internal/controller/reconciliation_main.go:197-476 | Over every history, failures included: a skipped pass whose reads agree tells the truth about the last pass that touched the cluster (processed, recorded or not, or purged, or orphaned) if and only if that pass went through to the end, recorded, and its reads agreed |
| Reconcile.SkipComparesRecorded | operator/internal/controller/reconciliation_main.go:234-284 | A skipped pass stands on the present ConfigMap version, and on the present mapping's hash if and only if its two reads agree |
| Reconcile.UnrecordedThenSkipped | operator/internal/controller/reconciliation_main.go:272-476 | Inputs: a pass under an edited mapping whose status write alone fails, the edit taken back, then a skip, the cluster staying as the edited mapping made it |
| Reconcile.PurgedThenSkipped | operator/internal/controller/reconciliation_main.go:205-225 | Inputs: a purge under an edited mapping, a failed second read, the edit taken back, then a skip, what was purged staying gone |
| Reconcile.PurgedAndSkipped | operator/internal/controller/reconciliation_main.go:205-284 | Inputs: the edit is taken back between the reads, so that one pass purges under it and is then skipped |
| Reconcile.EditGoesUnseen | operator/internal/controller/reconciliation_main.go:276-284 | An edit of anything in the spec but the role mapping wakes the loop, and the pass it wakes is skipped |
| Reconcile.SkipOmitsNothingExactly | operator/internal/controller/reconciliation_main.go:276-284 | Whatever happened before: the processing that a skipped pass omits would, with good calls and in every order, have changed no object if and only if the cluster is settled for the present ConfigMap and spec |
| Reconcile.AddedAccountsAreOmitted | operator/internal/controller/reconciliation_main.go:276-284 | Input: accounts added to the mapping of a CR at rest are not made; the pass is skipped with work left to do |
| Reconcile.OrphanedBeforeReleased | operator/internal/controller/reconciliation_main.go:166-185 | The finalizer of a deleted CR goes only in a pass that has just tried its orphan-cleaning, and only that finalizer goes |
| Reconcile.UnmarkedExactly | operator/internal/controller/reconciliation_cleanup.go:113-161 | After the release a managed object is unmarked if and only if it was before and its list call or its own update failed; then it is as it was |
| Reconcile.UnmarkedIsDead | operator/internal/controller/reconciliation_cleanup.go:113-161 | A RoleBinding left so with a live stamped claim stays as it is and refuses every other CR, in every interleaving of others' operations that judge after the release; for those that judged before see UnmarkedEndsExactly |
| Reconcile.UnmarkedNamespaceIsDead | operator/internal/controller/reconciliation_cleanup.go:113-161 | The same for namespaces, again for operations that judge after the release |
| Reconcile.UnmarkedEndsExactly | operator/internal/controller/reconciliation_cleanup.go:113-161 | For others' operations judged at whatever time: such a RoleBinding stays as it is if and only if none of their deletions is of its key, such a namespace if and only if none of their marks is on it |
| Reconcile.ReleasedUnmarkedExample | operator/internal/controller/reconciliation_cleanup.go:113-161 | Failed list calls do not stop the release: the CR goes and nothing is marked |
| NetworkPolicyStatus.StatusStore.UpdateWithPR | operator/internal/controller/networkpolicy/network_policy_status.go:96-162 | The retry loop over a store that checks resource versions commits what the attempt-by-attempt specification says, and hands the caller the committed entries; on success the committed version carries the PR's fields over the version right before it, with the clock of one of three attempts |
| NetworkPolicyStatus.StatusStore.CleanupStatus | operator/internal/controller/networkpolicy/network_policy_status.go:190-261 | The same for the cleaning loop, with the cutoff fixed before the first attempt |
| NetworkPolicyStatus.StatusStore.CheckStalePRs | operator/internal/controller/networkpolicy/network_policy_status.go:264-305 | The loop that marks overdue PRs in the caller's copy and writes the whole copy at each commits what the write-by-write specification says; a failed write leaves its mark in the copy |
| NetworkPolicyStatus.StaleCopy | operator/internal/controller/networkpolicy/network_policy_status.go:281-301 | Whatever others commit, the copy is always one committed version with exactly the overdue entries met so far marked, and no committed version is lost |
| NetworkPolicyStatus.FindEntry | operator/internal/controller/networkpolicy/network_policy_status.go:30-37 | The first entry of the namespace is found, or none exists |
| NetworkPolicyStatus.EditEntry | operator/internal/controller/networkpolicy/network_policy_status.go:112-138 | The in-place edit of one entry, appended first if missing, is the specified update |
| NetworkPolicyStatus.CleanEntries | operator/internal/controller/networkpolicy/network_policy_status.go:222-245 | The collecting loop keeps, marks and drops as specified entry by entry |
| NetworkPolicyStatus.RetryLinearizable | operator/internal/controller/networkpolicy/network_policy_status.go:106-161 | With any concurrent commits and any stale reads, success is one atomic update of the very version it replaces, failure writes nothing, and others' versions all stay in order |
| NetworkPolicyStatus.NoEntryLost | operator/internal/controller/networkpolicy/network_policy_status.go:106-161 | The committed version agrees with the one right before it on every other namespace, so no concurrent writer's entry is lost |
| NetworkPolicyStatus.CommitsAreHistory | operator/internal/controller/networkpolicy/network_policy_status.go:96-261 | One call among writers whose commits are a history adds its version to that history |
| NetworkPolicyWriters.WritersMakeHistory | operator/internal/controller/networkpolicy/network_policy_status.go:106-161 | Any number of retry loops, and stale checks writing copies without a retry, mixed call by call, with any stale reads and failures: the committed versions are one history of updates; each success owns exactly one version, its update of the version right before; each version is a stale check's or has exactly one owner, and not both; who gives up owns none; no version has two entries for a namespace |
| NetworkPolicyWriters.OperatorsMakeHistory | operator/internal/controller/networkpolicy/network_policy_status.go:96-305 | With PR updates, cleanings and stale checks, for any namespaces, PRs, clocks, retentions and thresholds, that history needs no premise on the updates but that the first version has no two entries for a namespace |
| NetworkPolicyWriters.StaleWriteIsCall | operator/internal/controller/networkpolicy/network_policy_status.go:281-301 | Each write of the stale check's loop is such a call: its copy is a version it once read or wrote with the overdue entries so far marked, and it goes through only while that version is the latest |
| NetworkPolicyWriters.AttemptIsCalls | operator/internal/controller/networkpolicy/network_policy_status.go:109-160 | A writer's read and write among others' commits is one attempt of the retry loop as specified |
| NetworkPolicyStatus.PutPRSpec | operator/internal/controller/networkpolicy/network_policy_status.go:118-138 | A PR update changes the entry of its namespace alone, keeps entries unique, and leaves in that entry the given state, number, branch and URL, the first creation time and whatever else it held |
| NetworkPolicyStatus.PRWritten | operator/internal/controller/networkpolicy/network_policy_status.go:112-138 | Field by field what a PR update leaves in the entry of its namespace; the other entries keep their places and a new one comes last |
| NetworkPolicyStatus.CommittedPR | operator/internal/controller/networkpolicy/network_policy_status.go:96-162 | The same for a successful call, over the version right before the one it commits |
| NetworkPolicyStatus.SucceedsExactly | operator/internal/controller/networkpolicy/network_policy_status.go:106-161 | A call succeeds if and only if one of its first three rounds has a good read that is not stale, a good write, and nobody commits in between |
| NetworkPolicyStatus.KeptForDays | operator/internal/controller/networkpolicy/network_policy_status.go:198-245 | Retention in days of 86400 seconds, zero standing for 30: an entry of an absent namespace that is marked as removed is kept if and only if it was marked within so many days before the cleaning started |
| NetworkPolicyStatus.MarkedOnLeaving | operator/internal/controller/networkpolicy/network_policy_status.go:222-245 | Every other entry: those of present namespaces stay as they are, the rest are marked as removed at the attempt's clock with everything else kept |
| NetworkPolicyStatus.CleanInOrder | operator/internal/controller/networkpolicy/network_policy_status.go:222-245 | Cleaning keeps the order of entries |
| NetworkPolicyStatus.CleanSpec | operator/internal/controller/networkpolicy/network_policy_status.go:222-245 | Cleaning acts on each namespace's entry by itself and keeps entries unique |
| NetworkPolicyStatus.MarkStaleSpec | operator/internal/controller/networkpolicy/network_policy_status.go:281-301 | A stale check adds and drops no entry, changes the marked ones that are overdue alone, and keeps entries unique |
| NetworkPolicyStatus.StaleChecked | operator/internal/controller/networkpolicy/network_policy_status.go:281-301 | What the stale check leaves in each entry of its copy, whatever others commit and whichever writes fail: pr-stale instead of pr-created or pr-pending where the creation time lies before the cutoff, everything else as it was |
| NetworkPolicyStatus.StaleWritten | operator/internal/controller/networkpolicy/network_policy_status.go:281-301 | With good writes and nobody in between, that copy is what the store holds in the end |
| NetworkPolicyStatus.UniqueForever | operator/internal/controller/networkpolicy/network_policy_status.go:96-305 | Every history of PR updates, cleanings and stale checks keeps at most one entry for a namespace |
| NetworkPolicyStatus.EntryLifecycle | operator/internal/controller/networkpolicy/network_policy_status.go:198-245 | An entry whose namespace leaves is stamped once and kept with its PR fields at every cleaning before stamp plus retention, and dropped at the first one after |
| NetworkPolicyStatus.ReturningStaysRemoved | operator/internal/controller/networkpolicy/network_policy_status.go:222-245 | A namespace that comes back while its entry is kept: the entry stays as it is through a whole history in which the namespace is present if and only if every PR recorded for it writes back what is there and no stale check finds it overdue, which none does while it is marked removed |
| NetworkPolicyStatus.LeavingAgainCountsOldStamp | operator/internal/controller/networkpolicy/network_policy_status.go:228-236 | When it leaves again, the first cleaning keeps or drops the entry by the old stamp, as if it had never been back |
| NetworkPolicyStatus.SelectRemovedNamespaces | operator/internal/controller/networkpolicy/reconciliation_cleanup.go:65-71 | The loop selects, in order, the unlisted namespaces not yet marked as removed |
| NetworkPolicyStatus.SelectedExactly | operator/internal/controller/networkpolicy/reconciliation_cleanup.go:65-71 | A namespace is selected if and only if it is not in the current set and has an entry whose state is not removed |
| NetworkPolicyStatus.NothingRemovedAfterClean | operator/internal/controller/networkpolicy/reconciliation_cleanup.go:65-75 | Right after cleaning, that selection is empty for the same set of namespaces |
| NetworkPolicyDrift.NormalizeNetworkPolicySpec | operator/internal/controller/networkpolicy/network_policy_drift.go:38-55 | The normaliser returns a normal form: every rule sorted inside, then the rules sorted, selector and policy types as they are |
| NetworkPolicyDrift.NormalizeRules | operator/internal/controller/networkpolicy/network_policy_drift.go:91-157 | The copying loops sort ports and peers of every rule by text and then the rules |
| NetworkPolicyDrift.ViewsAgree | operator/internal/controller/networkpolicy/network_policy_drift.go:91-125 | Two views of sequences that match element by element agree on multiset equality: what lets sorted rules stand for rules |
| NetworkPolicyDrift.NormalFormKeepsRules | operator/internal/controller/networkpolicy/network_policy_drift.go:38-157 | A normal form has the selector, the policy types and, direction by direction, the rules of its spec, each with its ports and its peers |
| NetworkPolicyDrift.NormalFormDecides | operator/internal/controller/networkpolicy/network_policy_drift.go:38-157 | With injective texts, two normal forms are equal if and only if selector and policy types are equal and ingress and egress are equal as multisets of rules, each a multiset of ports and one of peers |
| NetworkPolicyDrift.CompareNetworkPolicyRules | operator/internal/controller/networkpolicy/network_policy_drift.go:159-170 | Specs equal in that sense always compare equal; with a collision-free hash only those do |
| NetworkPolicyPlanner.PlanFiles | operator/internal/controller/networkpolicy/reconciliation_single.go:178-294 | The loops over templates and cluster policies plan exactly the files of variants A, B and C, for every failing template and backup |
| NetworkPolicyPlanner.PlannedExactly | operator/internal/controller/networkpolicy/reconciliation_single.go:178-294 | A file is planned if and only if its path is networkpolicies/cluster/namespace/policy.yaml and not in Git, and it is a new policy of a template (namespace, dash, template name without .yaml) that the cluster does not have and whose template succeeds, or the backup of a policy the cluster has, with backups on and succeeding |
| NetworkPolicyPlanner.PlanOthers | operator/internal/controller/networkpolicy/reconciliation_single.go:256-294 | The nested loop plans exactly the policies no template stands for |
| NetworkPolicyPlanner.PlanIsConflictFree | operator/internal/controller/networkpolicy/reconciliation_single.go:178-294 | No path is planned twice, across all three variants, and none is in Git already |
| NetworkPolicyPlanner.DecideMerge | operator/internal/controller/networkpolicy/reconciliation_single.go:351-373 | Auto-merge is chosen if and only if it is enabled, something is planned and no planned file is a backup |
| NetworkPolicyPlanner.NewFilesComeFromTemplates | operator/internal/controller/networkpolicy/reconciliation_single.go:192-294 | A planned file is no backup if and only if it comes from a template whose policy the cluster does not have; backups are of cluster policies only, and only if backups are on |
| NetworkPolicyPlanner.PlanCovers | operator/internal/controller/networkpolicy/reconciliation_single.go:178-294 | With the plan in Git, a policy has its file there if and only if it had it, or a template makes it new, or backups are on and the cluster has it, the last two save for a failed template or backup |
| NetworkPolicyPlanner.ReplanningRetries | operator/internal/controller/networkpolicy/reconciliation_single.go:178-300 | Once the planned files are in Git, and with any part of the new policies in the cluster, a second plan under other outcomes holds exactly the files of the templates and backups that failed the first time and succeed now |
| NetworkPolicyPlanner.ReplanningPlansNothing | operator/internal/controller/networkpolicy/reconciliation_single.go:178-300 | So the second plan is empty if and only if nothing that failed the first time can be done now; in particular if the same templates and backups fail again |
| NetworkPolicyPlanner.RetryExample | operator/internal/controller/networkpolicy/reconciliation_single.go:192-225 | A template that fails once and succeeds the next time: the first plan is empty, the second is not |
| NetworkPolicyPlanner.DriftComparesOwnFile | operator/internal/controller/networkpolicy/network_policy_drift.go:226-237 | Drift detection compares a cluster policy with the file of its own name if and only if it has no template annotation or bears the name made from it; any other annotated policy is compared with the file of the policy its template names |
| NetworkPolicyPlanner.PlannedIsCompared | operator/internal/controller/networkpolicy/network_policy_drift.go:226-237 | Under the same condition, and no other, a planned file is the one drift detection compares its policy with |
| Kustomization.UpdateResources | operator/internal/controller/networkpolicy/network_policy_kustomization_simple.go:108-138 | Every result is strictly sorted and holds exactly what the edit leaves or adds, for any list |
| Kustomization.Splice | operator/internal/controller/networkpolicy/network_policy_kustomization_simple.go:108-124 | The loop cuts out the first occurrence or appends a missing path |
| Kustomization.Deduplicate | operator/internal/controller/networkpolicy/network_policy_kustomization_simple.go:129-138 | On a sorted list, what remains is strictly sorted and has the same elements |
| Kustomization.HistoryRefinesSet | operator/internal/controller/networkpolicy/network_policy_kustomization_simple.go:108-138 | From a strictly sorted list every sequence of edits is the sequence of set operations |
| Kustomization.AddRemoveUndo | operator/internal/controller/networkpolicy/network_policy_kustomization_simple.go:108-138 | Adding a fresh path and removing it, or removing a listed path and adding it, restores the list |

## Left out

- Inside one reconcile the NetworkPolicy section (`reconciliation_main.go` 305-387) is represented by what it does to the CR, as an input; its own workings are the subject of the NetworkPolicy modules.
- LDAP group creation, ClusterRole existence checks, metrics and logging: no effect on the state modelled.
- Git, provider and template processing I/O: the planner takes Git's paths, the template listing and the success of each template and backup as inputs. Whether a pull request is already open is not looked at.
- Exclusion patterns with regular expressions; whether a namespace is excluded from backup is an input.
- Batching, pacing and the periodic run over namespaces: slices and sleeps with only easy properties.
- `updateNetworkPolicyStatus`; parsing the stale-PR threshold (the cutoff is an input) and the time stamps it is compared with.
- Fetching and reading the compared file: drift detection is the choice of the path and the comparison of two specs.
- ConfigMap watch events; the event filter is modelled for the CR's own updates.
- SHA-256, JSON and YAML texts: functions given as parameters.
- Byte strings are sequences of characters; `TrimSpace` knows the ASCII white space only. `filepath.Join` does not clean its result.
- DN escapes of section 2.4 of RFC 4514: the code cuts at the first comma, and so does the model.
- Times are whole seconds and a retention day has 86400 of them; calendar days and time zones do not occur.
- Nil and empty slices or maps are the same thing here, except in the drift comparison, where policy types and requirement values tell them apart; elsewhere the code that tells them apart writes the status once more.
- Of the fields the API server fills in, only the apiGroup of subjects is modelled.
- What a pass reports are keys here instead of "namespace/name" strings, so splitting those strings again is not modelled.
- The message and transition time of the "Processed" condition: the message is represented by its two counts.
- Reconcile.Server.Reconcile: nobody else acts on the cluster during the pass; operations that mix call by call are the subject of `Interleavings` and `LateClaims`, which do not go through the reconcile loop.
- Reconcile.Server.ReconcileConfigMap: likewise.
- Rounds.RestExactly: its turns are passes with good calls and without a clash of a CR's lines with its own accounts (`ConfigMapPass.PassIsIdempotent` says exactly when there is none; `Rounds.PlainNeverClash`: never outside namespaces named `sa` or `sa-...`). The purge that comes before a CR's first pass is not part of a turn.
- Reconcile.LoopQuiesces: speaks of a CR whose ConfigMap exists; without one the code asks to be called again every minute.
- Reconcile.SkipIsSound: soundness is up to the hash, as the code has nothing else; equality of mappings follows where the hash is collision-free and `RoleMappingHash.CanonicalInjective` applies.
