/**
  Many CRs on one cluster, each processing its own ConfigMap again and again, in any order
  (reconciliation_configmap.go, reconciliation_rolebindings.go, service_account_helper.go).

  Main results: once every CR has had a turn, the cluster is at rest exactly if no
  RoleBinding marked as orphaned is one that accounts of two CRs work on; if it is at
  rest it stays so, and if it is not it never will be.

  A turn is a whole pass with good calls and nobody in between; what changes when calls
  mix is the subject of module Interleavings.
 */
module Rounds {
  import opened Strings
  import opened Cluster
  import opened Ownership
  import opened RoleBindings
  import opened ConfigMap
  import opened ServiceAccounts
  import opened ConfigMapPass
  import opened SettledPass
  import Cleanup

  // ---------- turns ----------

  /** A CR with the instance that reconciles it, and what the lines of its ConfigMap ask for. */
  datatype Binder = Binder(ws: Wants, x: Context)

  type Binders = seq<Binder>

  /** No two are the same CR. */
  ghost predicate Apart(bs: Binders) {
    && (forall i :: 0 <= i < |bs| ==> Consistent(bs[i].ws, bs[i].x.spec.roleMapping))
    && (forall i, j :: 0 <= i < j < |bs| ==> bs[i].x.owner != bs[j].x.owner)
  }

  datatype Turn = Turn(binder: nat, answers: Answers, visits: seq<Visit>, accountAnswers: AccountAnswers)

  ghost predicate Fits(bs: Binders, t: Turn) {
    t.binder < |bs| && Known(t.visits, bs[t.binder].x.spec.serviceAccountMapping)
  }

  ghost predicate AllFit(bs: Binders, turns: seq<Turn>) {
    forall i :: 0 <= i < |turns| ==> Fits(bs, turns[i])
  }

  function Reported(s: State, b: Binder): set<string> {
    NamespacesOf(Reports(s, b.ws, b.x))
  }

  function Process(s: State, b: Binder, t: Turn): State
    requires Known(t.visits, b.x.spec.serviceAccountMapping)
  {
    ProcessVisits(ProcessWants(s, b.ws, b.x, t.answers).0, t.visits, b.x, t.accountAnswers).0
  }

  /** A turn the loops can take from `s`: good calls, and every namespace they report visited. */
  ghost predicate Takes(s: State, b: Binder, t: Turn) {
    && AllSucceed(t.answers) && AccountsSucceed(t.accountAnswers)
    && Complete(t.visits, Reported(s, b), b.x.spec.serviceAccountMapping)
    && ClashFree(s, b.ws, b.x)
  }

  function After(s: State, bs: Binders, turns: seq<Turn>): State
    requires AllFit(bs, turns)
  {
    if turns == [] then s
    else
      var n := |turns| - 1;
      Process(After(s, bs, turns[..n]), bs[turns[n].binder], turns[n])
  }

  ghost predicate Possible(s: State, bs: Binders, turns: seq<Turn>)
    requires AllFit(bs, turns)
  {
    forall n :: 0 <= n < |turns| ==> Takes(After(s, bs, turns[..n]), bs[turns[n].binder], turns[n])
  }

  function Seen(turns: seq<Turn>): set<nat> {
    set i | 0 <= i < |turns| :: turns[i].binder
  }

  // ---------- one turn, seen by the others ----------

  /** The CR has an entry whose RoleBinding is under the key, in a namespace it reports. */
  predicate WorksOn(s: State, b: Binder, k: Key) {
    HasEntry(Reported(s, b), b.x, k)
  }

  /** The CR takes what it may. */
  predicate Taken(s: State, t: State, b: Binder, k: Key) {
    && !BindingRefused(s, k, b.x.owner)
    && k in t.roleBindings && LiveClaim(t.roleBindings[k].annotations, b.x.owner)
  }

  /** It puts its stamp on a marked RoleBinding, which stays marked. */
  predicate Passed(s: State, t: State, b: Binder, k: Key) {
    && k in s.roleBindings && k in t.roleBindings
    && Marked(s.roleBindings[k]) && t.roleBindings[k] == Restamped(s.roleBindings[k], b.x.owner)
    && WorksOn(s, b, k)
  }

  lemma WantsOnKey(s: State, b: Binder, answers: Answers, k: Key)
    requires AllSucceed(answers) && Consistent(b.ws, b.x.spec.roleMapping)
    ensures var s1 := ProcessWants(s, b.ws, b.x, answers).0; SameBinding(s, s1, k) || Taken(s, s1, b, k)
  {
    hide ProcessWants, Overwrite, CanTakeOwnership;
    BindingAfterPass(s, b.ws, b.x, answers, k);
    if LastFor(b.ws, k).Some? {
      OverwriteLooks(OldBinding(s, k), LastFor(b.ws, k).value, b.x.op, b.x.owner, answers(FirstFor(b.ws, k)).now);
    }
  }

  lemma GoalIs(s: State, e: Entry, op: Operator, o: Owner)
    ensures var k, goal := e.BindingKey(), Goal(s, e, op, o);
            || (k in s.roleBindings && goal == s.roleBindings[k])
            || (!BindingRefused(s, k, o) && LiveClaim(goal.annotations, o))
            || (k in s.roleBindings && Marked(s.roleBindings[k]) && goal == Restamped(s.roleBindings[k], o))
  {
    hide CanTakeOwnership, UpToDate;
  }

  lemma ProcessOnKey(s: State, b: Binder, t: Turn, k: Key)
    requires Takes(s, b, t) && Consistent(b.ws, b.x.spec.roleMapping)
    ensures var u := Process(s, b, t); SameBinding(s, u, k) || Taken(s, u, b, k) || Passed(s, u, b, k)
  {
    hide ProcessWants, ProcessVisits, ClashFree, Reports, Enumerates, Goal, AccountName, CanTakeOwnership;
    var s1 := ProcessWants(s, b.ws, b.x, t.answers).0;
    WantsOnKey(s, b, t.answers, k);
    if n :| n in b.x.spec.serviceAccountMapping && k.namespace in Visited(t.visits)
            && AccountBindingKey(k.namespace, n) == k {
      var e := EntryFor(b.x, k.namespace, n);
      VisitsReach(s1, t.visits, b.x, t.accountAnswers, k.namespace, n);
      GoalIs(s1, e, b.x.op, b.x.owner);
    } else {
      VisitsFrame(s1, t.visits, b.x, t.accountAnswers, k);
    }
  }

  /** What one turn of `c` may do under a key. */
  predicate Moves(s: State, t: State, c: Binder, k: Key) {
    SameBinding(s, t, k) || Taken(s, t, c, k) || Passed(s, t, c, k)
  }

  // ---------- what a turn leaves of others' work ----------

  lemma LiveKept(s: State, t: State, b: Binder, c: Binder, k: Key)
    requires b.x.owner != c.x.owner && Moves(s, t, c, k)
    requires k in s.roleBindings && LiveClaim(s.roleBindings[k].annotations, b.x.owner)
    ensures SameBinding(s, t, k)
  {
    LiveClaimExcludesOthers(s.roleBindings[k].annotations, b.x.owner, c.x.owner);
  }

  lemma BlockedKept(s: State, t: State, b: Binder, c: Binder, w: Want)
    requires b.x.owner != c.x.owner && Moves(s, t, c, w.Key()) && Blocked(s, w, b.x)
    ensures Blocked(t, w, b.x)
  {
    var k := w.Key();
    if Taken(s, t, c, k) {
      LiveClaimExcludesOthers(t.roleBindings[k].annotations, c.x.owner, b.x.owner);
    }
  }

  /** The last line for the key is there and not blocked. */
  predicate Wanted(s: State, b: Binder, k: Key) {
    LastFor(b.ws, k).Some? && !Blocked(s, LastFor(b.ws, k).value, b.x)
  }

  lemma BindingSettledKept(s: State, t: State, b: Binder, c: Binder, k: Key)
    requires b.x.owner != c.x.owner && Moves(s, t, c, k)
    requires BindingSettled(s, b.ws, b.x, k)
    ensures BindingSettled(t, b.ws, b.x, k)
  {
    hide Blocked, Taken, Passed;
    if LastFor(b.ws, k).Some? {
      if Wanted(s, b, k) {
        LiveKept(s, t, b, c, k);
      } else {
        BlockedKept(s, t, b, c, LastFor(b.ws, k).value);
      }
    }
  }

  /** A marked RoleBinding that passes the entry's test on names. */
  predicate Loose(s: State, b: Binder, e: Entry) {
    var k := e.BindingKey();
    k in s.roleBindings && Marked(s.roleBindings[k]) && UpToDate(s.roleBindings[k], e) && !Wanted(s, b, k)
  }

  lemma NewBindingIsLive(e: Entry, op: Operator, o: Owner)
    ensures LiveClaim(NewBinding(e, op, o).annotations, o)
  {}

  lemma EntryKeptByOthers(s: State, t: State, b: Binder, c: Binder, e: Entry)
    requires b.x.owner != c.x.owner && Moves(s, t, c, e.BindingKey())
    requires EntrySettled(s, b.ws, b.x, e) || Loose(s, b, e)
    ensures EntrySettled(t, b.ws, b.x, e) || Loose(t, b, e)
    ensures EntrySettled(s, b.ws, b.x, e) ==>
              EntrySettled(t, b.ws, b.x, e) || Passed(s, t, c, e.BindingKey())
  {
    hide Blocked, WorksOn, NewBinding, CanTakeOwnership;
    var k := e.BindingKey();
    NewBindingIsLive(e, b.x.op, b.x.owner);
    if k in s.roleBindings && LiveClaim(s.roleBindings[k].annotations, b.x.owner) {
      LiveKept(s, t, b, c, k);
      SameBlocked(s, t, b, k);
    } else {
      if LastFor(b.ws, k).Some? {
        BlockedKept(s, t, b, c, LastFor(b.ws, k).value);
      }
      if Taken(s, t, c, k) {
        LiveClaimExcludesOthers(t.roleBindings[k].annotations, c.x.owner, b.x.owner);
      }
      if BindingRefused(s, k, b.x.owner) {
        RefusedIsUnmarked(s, k, b.x.owner);
      }
    }
  }

  lemma RefusedIsUnmarked(s: State, k: Key, o: Owner)
    requires BindingRefused(s, k, o)
    ensures !Marked(s.roleBindings[k])
  {}

  lemma SameBlocked(s: State, t: State, b: Binder, k: Key)
    requires SameBinding(s, t, k)
    ensures Wanted(s, b, k) <==> Wanted(t, b, k)
  {}

  // ---------- what holds of every CR that has had a turn ----------

  ghost predicate SharedWith(s: State, bs: Binders, seen: set<nat>, i: nat, k: Key) {
    exists j :: j in seen && j < |bs| && j != i && WorksOn(s, bs[j], k)
  }

  /** Settled, but for marked RoleBindings that another CR's accounts work on as well. */
  ghost predicate Held(s: State, bs: Binders, seen: set<nat>, i: nat)
    requires i < |bs|
  {
    var b := bs[i];
    && (forall n :: Asks(b.ws, n) ==> NamespaceSettled(s, n, b.x))
    && (forall k :: !WorksOn(s, b, k) ==> BindingSettled(s, b.ws, b.x, k))
    && AccountsThere(s, Reported(s, b), b.x)
    && (forall m, n :: m in Reported(s, b) && n in b.x.spec.serviceAccountMapping ==>
          EntryHeld(s, bs, seen, i, EntryFor(b.x, m, n)))
  }

  ghost predicate EntryHeld(s: State, bs: Binders, seen: set<nat>, i: nat, e: Entry)
    requires i < |bs|
  {
    var b := bs[i];
    EntrySettled(s, b.ws, b.x, e) || (Loose(s, b, e) && SharedWith(s, bs, seen, i, e.BindingKey()))
  }

  ghost predicate AllHeld(s: State, bs: Binders, seen: set<nat>) {
    forall i :: i in seen ==> i < |bs| && Held(s, bs, seen, i)
  }

  /** Under the key of a line that is not blocked there is a claim of its CR. */
  lemma UnblockedIsClaimed(s: State, bs: Binders, seen: set<nat>, i: nat, k: Key)
    requires i < |bs| && Held(s, bs, seen, i) && Wanted(s, bs[i], k)
    ensures k in s.roleBindings && LiveClaim(s.roleBindings[k].annotations, bs[i].x.owner)
  {
    hide Blocked, Reports, AccountName, NamespaceSettled;
    var b := bs[i];
    if WorksOn(s, b, k) {
      var n :| n in b.x.spec.serviceAccountMapping && AccountBindingKey(k.namespace, n) == k;
      var e := EntryFor(b.x, k.namespace, n);
      assert EntryHeld(s, bs, seen, i, e);
      NewBindingIsLive(e, b.x.op, b.x.owner);
    } else {
      assert BindingSettled(s, b.ws, b.x, k);
    }
  }

  /** Another CR's turn changes nothing about what a CR reports. */
  lemma ReportsKept(s: State, bs: Binders, seen: set<nat>, i: nat, j: nat, t: Turn)
    requires Apart(bs) && i < |bs| && j < |bs| && i != j && Held(s, bs, seen, i) && Takes(s, bs[j], t)
    ensures Reports(Process(s, bs[j], t), bs[i].ws, bs[i].x) == Reports(s, bs[i].ws, bs[i].x)
  {
    TakesKnown(s, bs[j], t);
    hide Held, Takes, Process, Blocked, Moves, Reports;
    var u, b := Process(s, bs[j], t), bs[i];
    forall w | Some(w) in b.ws
      ensures Blocked(s, w, b.x) <==> Blocked(u, w, b.x)
    {
      var k := w.Key();
      ProcessMoves(s, bs[j], t, k);
      HasLast(b.ws, w);
      var last := LastFor(b.ws, k).value;
      BlockedTogether(s, b.ws, b.x, last, w);
      BlockedTogether(u, b.ws, b.x, last, w);
      if Blocked(s, last, b.x) {
        BlockedKept(s, u, b, bs[j], last);
      } else {
        UnblockedIsClaimed(s, bs, seen, i, k);
        LiveKept(s, u, b, bs[j], k);
        SameBlocked(s, u, b, k);
      }
    }
    ReportsDependOnBlocked(s, u, b.ws, b.x);
  }

  lemma ProcessMoves(s: State, b: Binder, t: Turn, k: Key)
    requires Takes(s, b, t) && Consistent(b.ws, b.x.spec.roleMapping)
    ensures Moves(s, Process(s, b, t), b, k)
  {
    hide Takes, Process, Taken, Passed;
    ProcessOnKey(s, b, t, k);
  }

  lemma NamespaceSettledKept(s: State, b: Binder, c: Binder, t: Turn, n: string)
    requires b.x.owner != c.x.owner && Takes(s, c, t) && NamespaceSettled(s, n, b.x)
    ensures NamespaceSettled(Process(s, c, t), n, b.x)
  {
    hide ProcessWants, ProcessVisits, ClashFree, ClaimNamespace, Asks, CanTakeOwnership, Reports, Enumerates;
    var s1 := ProcessWants(s, c.ws, c.x, t.answers).0;
    NamespaceAfterPass(s, c.ws, c.x, t.answers, n);
    VisitsFrame(s1, t.visits, c.x, t.accountAnswers, Key("", ""));
    if n in s.namespaces && LiveClaim(s.namespaces[n].annotations, b.x.owner) {
      LiveClaimExcludesOthers(s.namespaces[n].annotations, b.x.owner, c.x.owner);
    }
    if Asks(c.ws, n) && !NamespaceRefused(s, n, c.x.owner) {
      var now := t.answers(FirstAsks(c.ws, n)).now;
      ClaimedIsLive(OldNamespace(s, n), c.x.op, c.x.owner, now);
      LiveClaimExcludesOthers(s1.namespaces[n].annotations, c.x.owner, b.x.owner);
    }
  }

  lemma ClaimedIsLive(ns: Namespace, op: Operator, o: Owner, now: NonEmpty)
    ensures LiveClaim(ClaimNamespace(ns, op, o, now).annotations, o)
  {}

  lemma AccountsStay(s: State, b: Binder, t: Turn)
    requires Takes(s, b, t) && Consistent(b.ws, b.x.spec.roleMapping)
    ensures s.serviceAccounts.Keys <= Process(s, b, t).serviceAccounts.Keys
  {
    hide ProcessWants, ProcessVisits, ClashFree, Reports, Enumerates;
    ReportedByPass(s, b.ws, b.x, t.answers);
    VisitsFrame(ProcessWants(s, b.ws, b.x, t.answers).0, t.visits, b.x, t.accountAnswers, Key("", ""));
  }

  lemma TakesKnown(s: State, b: Binder, t: Turn)
    requires Takes(s, b, t)
    ensures Known(t.visits, b.x.spec.serviceAccountMapping)
  {}

  /** Every CR that has had a turn, and the one that has it now, report what they did. */
  lemma AllReportsKept(s: State, bs: Binders, seen: set<nat>, j: nat, t: Turn, i: nat)
    requires Apart(bs) && AllHeld(s, bs, seen) && j < |bs| && Takes(s, bs[j], t) && i in seen + {j}
    ensures i < |bs| && Reports(Process(s, bs[j], t), bs[i].ws, bs[i].x) == Reports(s, bs[i].ws, bs[i].x)
  {
    hide Held, Settled, Reports, ClashFree, ProcessWants, ProcessVisits, Enumerates;
    if i == j {
      PassSettles(s, bs[j].ws, bs[j].x, t.answers, t.visits, t.accountAnswers);
    } else {
      ReportsKept(s, bs, seen, i, j, t);
    }
  }

  lemma SharedKept(s: State, u: State, bs: Binders, seen: set<nat>, j: nat, i: nat, k: Key)
    requires forall l :: l in seen + {j} && l < |bs| ==> Reported(u, bs[l]) == Reported(s, bs[l])
    requires j < |bs| && i != j
    requires SharedWith(s, bs, seen, i, k) || WorksOn(s, bs[j], k)
    ensures SharedWith(u, bs, seen + {j}, i, k)
  {
    hide HasEntry, Reported;
    if WorksOn(s, bs[j], k) {
      assert WorksOn(u, bs[j], k) && j in seen + {j};
    } else {
      var l :| l in seen && l < |bs| && l != i && WorksOn(s, bs[l], k);
      assert WorksOn(u, bs[l], k) && l in seen + {j};
    }
  }

  lemma OthersTurnKeepsHeld(s: State, bs: Binders, seen: set<nat>, i: nat, j: nat, t: Turn)
    requires Apart(bs) && AllHeld(s, bs, seen) && i in seen && j < |bs| && i != j && Takes(s, bs[j], t)
    ensures Held(Process(s, bs[j], t), bs, seen + {j}, i)
  {
    TakesKnown(s, bs[j], t);
    hide Takes, Process, Moves, NamespaceSettled, BindingSettled, EntrySettled, Loose, SharedWith, AccountName;
    hide Reports, Asks, HasEntry;
    var u, b, c := Process(s, bs[j], t), bs[i], bs[j];
    forall l | l in seen + {j} && l < |bs|
      ensures Reported(u, bs[l]) == Reported(s, bs[l])
    {
      AllReportsKept(s, bs, seen, j, t, l);
    }
    AccountsStay(s, c, t);
    forall n | Asks(b.ws, n)
      ensures NamespaceSettled(u, n, b.x)
    {
      NamespaceSettledKept(s, b, c, t, n);
    }
    forall k | !WorksOn(u, b, k)
      ensures BindingSettled(u, b.ws, b.x, k)
    {
      assert !WorksOn(s, b, k);
      ProcessMoves(s, c, t, k);
      BindingSettledKept(s, u, b, c, k);
    }
    forall m, n | m in Reported(u, b) && n in b.x.spec.serviceAccountMapping
      ensures EntryHeld(u, bs, seen + {j}, i, EntryFor(b.x, m, n))
    {
      var e := EntryFor(b.x, m, n);
      assert EntryHeld(s, bs, seen, i, e);
      EntryHeldKept(s, bs, seen, i, j, t, e);
    }
  }

  lemma EntryHeldKept(s: State, bs: Binders, seen: set<nat>, i: nat, j: nat, t: Turn, e: Entry)
    requires Apart(bs) && i < |bs| && j < |bs| && i != j && Takes(s, bs[j], t)
    requires var u := Process(s, bs[j], t);
             forall l :: l in seen + {j} && l < |bs| ==> Reported(u, bs[l]) == Reported(s, bs[l])
    requires EntryHeld(s, bs, seen, i, e)
    ensures EntryHeld(Process(s, bs[j], t), bs, seen + {j}, i, e)
  {
    TakesKnown(s, bs[j], t);
    hide Takes, Process, Moves, EntrySettled, Loose, SharedWith, WorksOn, Reported;
    var u, k := Process(s, bs[j], t), e.BindingKey();
    ProcessMoves(s, bs[j], t, k);
    EntryKeptByOthers(s, u, bs[i], bs[j], e);
    if !EntrySettled(u, bs[i].ws, bs[i].x, e) {
      SharedKept(s, u, bs, seen, j, i, k);
    }
  }

  lemma SettledIsHeld(s: State, bs: Binders, seen: set<nat>, i: nat)
    requires i < |bs| && Settled(s, bs[i].ws, bs[i].x)
    ensures Held(s, bs, seen, i)
  {
    hide NamespaceSettled, BindingSettled, EntrySettled, Loose, SharedWith, AccountName, Reports, Asks;
  }

  lemma TurnKeepsHeld(s: State, bs: Binders, seen: set<nat>, j: nat, t: Turn)
    requires Apart(bs) && AllHeld(s, bs, seen) && j < |bs| && Takes(s, bs[j], t)
    ensures AllHeld(Process(s, bs[j], t), bs, seen + {j})
  {
    hide Held, Settled, ClashFree, ProcessWants, ProcessVisits, Enumerates;
    var u := Process(s, bs[j], t);
    forall i | i in seen + {j}
      ensures i < |bs| && Held(u, bs, seen + {j}, i)
    {
      if i == j {
        PassSettles(s, bs[j].ws, bs[j].x, t.answers, t.visits, t.accountAnswers);
        SettledIsHeld(u, bs, seen + {j}, j);
      } else {
        OthersTurnKeepsHeld(s, bs, seen, i, j, t);
      }
    }
  }

  lemma {:induction false} AlwaysHeld(s: State, bs: Binders, seen: set<nat>, turns: seq<Turn>)
    requires Apart(bs) && AllHeld(s, bs, seen) && AllFit(bs, turns) && Possible(s, bs, turns)
    ensures AllHeld(After(s, bs, turns), bs, seen + Seen(turns))
  {
    hide AllHeld, Takes, Process;
    if turns == [] {
      assert seen + Seen(turns) == seen;
    } else {
      var n := |turns| - 1;
      EarlierPossible(s, bs, turns);
      AlwaysHeld(s, bs, seen, turns[..n]);
      SeenGrows(turns);
      assert seen + Seen(turns) == seen + Seen(turns[..n]) + {turns[n].binder};
      TurnKeepsHeld(After(s, bs, turns[..n]), bs, seen + Seen(turns[..n]), turns[n].binder, turns[n]);
    }
  }

  lemma NobodyHeld(s: State, bs: Binders)
    ensures AllHeld(s, bs, {})
  {}

  lemma SeenGrows(turns: seq<Turn>)
    requires turns != []
    ensures Seen(turns) == Seen(turns[..|turns| - 1]) + {turns[|turns| - 1].binder}
  {
    var n := |turns| - 1;
    forall i | i in Seen(turns)
      ensures i in Seen(turns[..n]) + {turns[n].binder}
    {
      var l :| 0 <= l < |turns| && turns[l].binder == i;
      assert l < n ==> turns[..n][l] == turns[l];
    }
    forall i | i in Seen(turns[..n]) + {turns[n].binder}
      ensures i in Seen(turns)
    {
      if i != turns[n].binder {
        var l :| 0 <= l < n && turns[..n][l].binder == i;
        assert turns[l].binder == i;
      } else {
        assert turns[n].binder == i;
      }
    }
  }

  lemma EarlierPossible(s: State, bs: Binders, turns: seq<Turn>)
    requires AllFit(bs, turns) && Possible(s, bs, turns) && turns != []
    ensures Possible(s, bs, turns[..|turns| - 1])
  {
    hide Takes, After;
    var init := turns[..|turns| - 1];
    assert forall n :: 0 <= n <= |init| ==> init[..n] == turns[..n];
  }

  // ---------- rest ----------

  ghost predicate Everybody(bs: Binders, seen: set<nat>) {
    forall i: nat :: i < |bs| ==> i in seen
  }

  /** No turn of any CR would change anything. */
  ghost predicate AtRest(s: State, bs: Binders) {
    forall i :: 0 <= i < |bs| ==> Settled(s, bs[i].ws, bs[i].x)
  }

  /** Accounts of two CRs work on one RoleBinding that is marked as orphaned. */
  ghost predicate Contested(s: State, bs: Binders) {
    exists k, i: nat, j: nat :: IsContested(s, bs, k, i, j)
  }

  ghost predicate IsContested(s: State, bs: Binders, k: Key, i: nat, j: nat) {
    && k in s.roleBindings && Marked(s.roleBindings[k])
    && i < |bs| && j < |bs| && i != j && WorksOn(s, bs[i], k) && WorksOn(s, bs[j], k)
  }

  /** Where a CR is settled, a marked RoleBinding its accounts work on bears its stamp. */
  lemma SettledMarkIsStamped(s: State, b: Binder, k: Key)
    requires Settled(s, b.ws, b.x) && WorksOn(s, b, k) && k in s.roleBindings && Marked(s.roleBindings[k])
    ensures StampedBy(s.roleBindings[k].annotations, b.x.owner)
  {
    hide Reports, AccountName, NamespaceSettled, BindingSettled, Asks, Blocked, UpToDate;
    var n :| n in b.x.spec.serviceAccountMapping && AccountBindingKey(k.namespace, n) == k;
    var e := EntryFor(b.x, k.namespace, n);
    assert EntrySettled(s, b.ws, b.x, e);
    NewBindingIsLive(e, b.x.op, b.x.owner);
  }

  lemma HeldIsSettled(s: State, bs: Binders, seen: set<nat>, i: nat)
    requires i < |bs| && Held(s, bs, seen, i) && !Contested(s, bs)
    ensures Settled(s, bs[i].ws, bs[i].x)
  {
    hide NamespaceSettled, BindingSettled, EntrySettled, AccountName, Reports, Asks, Loose, SharedWith, Contested;
    var b := bs[i];
    forall m, n | m in Reported(s, b) && n in b.x.spec.serviceAccountMapping
      ensures EntrySettled(s, b.ws, b.x, EntryFor(b.x, m, n))
    {
      var e := EntryFor(b.x, m, n);
      assert EntryHeld(s, bs, seen, i, e);
      assert WorksOn(s, b, e.BindingKey());
      if !EntrySettled(s, b.ws, b.x, e) {
        SharedIsContested(s, bs, seen, i, e);
      }
    }
  }

  lemma SharedIsContested(s: State, bs: Binders, seen: set<nat>, i: nat, e: Entry)
    requires i < |bs| && Loose(s, bs[i], e) && WorksOn(s, bs[i], e.BindingKey())
    requires SharedWith(s, bs, seen, i, e.BindingKey())
    ensures Contested(s, bs)
  {
    var j :| j in seen && j < |bs| && j != i && WorksOn(s, bs[j], e.BindingKey());
    assert IsContested(s, bs, e.BindingKey(), i, j);
  }

  lemma RestOfHeld(s: State, bs: Binders, seen: set<nat>)
    requires Apart(bs) && AllHeld(s, bs, seen) && Everybody(bs, seen)
    ensures AtRest(s, bs) <==> !Contested(s, bs)
  {
    hide Held, Settled, WorksOn;
    if Contested(s, bs) {
      var k, i: nat, j: nat :| IsContested(s, bs, k, i, j);
      if AtRest(s, bs) {
        SettledMarkIsStamped(s, bs[i], k);
        SettledMarkIsStamped(s, bs[j], k);
        assert false;
      }
    } else {
      forall i: nat | i < |bs|
        ensures Settled(s, bs[i].ws, bs[i].x)
      {
        assert i in seen;
        HeldIsSettled(s, bs, seen, i);
      }
    }
  }

  /**
    Once every CR has had a turn, in whatever order and however often: no turn of any of
    them would change an object exactly if no marked RoleBinding is one that accounts of
    two CRs work on.
   */
  lemma RestExactly(s: State, bs: Binders, turns: seq<Turn>)
    requires Apart(bs) && AllFit(bs, turns) && Possible(s, bs, turns) && Everybody(bs, Seen(turns))
    ensures AtRest(After(s, bs, turns), bs) <==> !Contested(After(s, bs, turns), bs)
  {
    hide AllHeld, AtRest, Contested, Possible;
    NobodyHeld(s, bs);
    AlwaysHeld(s, bs, {}, turns);
    assert {} + Seen(turns) == Seen(turns);
    RestOfHeld(After(s, bs, turns), bs, Seen(turns));
  }

  // ---------- what comes after the first round ----------

  lemma {:induction false} RestStays(s: State, bs: Binders, more: seq<Turn>)
    requires Apart(bs) && AtRest(s, bs) && AllFit(bs, more) && Possible(s, bs, more)
    ensures After(s, bs, more) == s
  {
    hide Settled, ClashFree, ProcessWants, ProcessVisits, Reports, Enumerates;
    if more == [] {
    } else {
      var n := |more| - 1;
      EarlierPossible(s, bs, more);
      RestStays(s, bs, more[..n]);
      var t, b := more[n], bs[more[n].binder];
      assert Takes(After(s, bs, more[..n]), b, t);
      PassKeepsExactly(s, b.ws, b.x, t.answers, t.visits, t.accountAnswers);
    }
  }

  /** A turn of a CR leaves a mark where it is, and takes the stamp if its accounts work there. */
  lemma MarkStays(s: State, bs: Binders, seen: set<nat>, j: nat, t: Turn, k: Key)
    requires Apart(bs) && j < |bs| && Held(s, bs, seen, j) && Takes(s, bs[j], t)
    requires k in s.roleBindings && Marked(s.roleBindings[k])
    ensures var u := Process(s, bs[j], t);
            && k in u.roleBindings && Marked(u.roleBindings[k])
            && (WorksOn(s, bs[j], k) ==> StampedBy(u.roleBindings[k].annotations, bs[j].x.owner))
  {
    hide ProcessWants, ProcessVisits, ClashFree, Reports, Enumerates, Goal, AccountName, CanTakeOwnership, Blocked,
         UpToDate;
    hide NamespaceSettled, Asks;
    var b := bs[j];
    var s1 := ProcessWants(s, b.ws, b.x, t.answers).0;
    if Wanted(s, b, k) {
      UnblockedIsClaimed(s, bs, seen, j, k);
      assert false;
    }
    BindingAfterPass(s, b.ws, b.x, t.answers, k);
    assert SameBinding(s, s1, k);
    if WorksOn(s, b, k) {
      var n :| n in b.x.spec.serviceAccountMapping && AccountBindingKey(k.namespace, n) == k;
      var e := EntryFor(b.x, k.namespace, n);
      VisitsReach(s1, t.visits, b.x, t.accountAnswers, k.namespace, n);
      assert EntryHeld(s, bs, seen, j, e);
      LooseGoal(s1, e, b.x.op, b.x.owner);
    } else {
      VisitsFrame(s1, t.visits, b.x, t.accountAnswers, k);
    }
  }

  lemma LooseGoal(s: State, e: Entry, op: Operator, o: Owner)
    requires var k := e.BindingKey(); k in s.roleBindings && Marked(s.roleBindings[k])
    requires UpToDate(s.roleBindings[e.BindingKey()], e) || BindingRefused(s, e.BindingKey(), o)
    ensures var goal := Goal(s, e, op, o); Marked(goal) && StampedBy(goal.annotations, o)
  {}

  /** So a contest, once every CR has had a turn, never ends. */
  lemma {:induction false} ContestStays(s: State, bs: Binders, more: seq<Turn>, seen: set<nat>,
                                       k: Key, i: nat, j: nat)
    requires Apart(bs) && AllHeld(s, bs, seen) && Everybody(bs, seen) && IsContested(s, bs, k, i, j)
    requires AllFit(bs, more) && Possible(s, bs, more)
    ensures IsContested(After(s, bs, more), bs, k, i, j)
    ensures AllHeld(After(s, bs, more), bs, seen)
  {
    hide Held, Takes, HasEntry, Process;
    if more == [] {
    } else {
      var n := |more| - 1;
      EarlierPossible(s, bs, more);
      ContestStays(s, bs, more[..n], seen, k, i, j);
      var p, l := After(s, bs, more[..n]), more[n].binder;
      assert Takes(p, bs[l], more[n]);
      assert l in seen && i in seen && j in seen;
      MarkStays(p, bs, seen, l, more[n], k);
      AllReportsKept(p, bs, seen, l, more[n], i);
      AllReportsKept(p, bs, seen, l, more[n], j);
      TurnKeepsHeld(p, bs, seen, l, more[n]);
      assert seen + {l} == seen;
    }
  }

  /**
    The first round decides. Either no object changes ever after, or the CRs never come to
    rest, and each turn of a CR whose accounts work on a contested RoleBinding takes its
    stamp.
   */
  lemma FirstRoundDecides(s: State, bs: Binders, turns: seq<Turn>, more: seq<Turn>)
    requires Apart(bs) && AllFit(bs, turns) && Possible(s, bs, turns) && Everybody(bs, Seen(turns))
    requires AllFit(bs, more) && Possible(After(s, bs, turns), bs, more)
    ensures var t := After(s, bs, turns);
            if Contested(t, bs) then !AtRest(After(t, bs, more), bs) else After(t, bs, more) == t
  {
    hide AllHeld, AtRest, Possible, IsContested, After;
    var t := After(s, bs, turns);
    NobodyHeld(s, bs);
    AlwaysHeld(s, bs, {}, turns);
    assert {} + Seen(turns) == Seen(turns);
    RestOfHeld(t, bs, Seen(turns));
    if Contested(t, bs) {
      var k, i: nat, j: nat :| IsContested(t, bs, k, i, j);
      ContestStays(t, bs, more, Seen(turns), k, i, j);
      RestOfHeld(After(t, bs, more), bs, Seen(turns));
    } else {
      RestStays(t, bs, more);
    }
  }

  // ---------- before the first round ----------

  /** A turn marks nothing that was not marked. */
  lemma {:induction false} MarksAreOld(s: State, bs: Binders, turns: seq<Turn>, k: Key)
    requires Apart(bs) && AllFit(bs, turns) && Possible(s, bs, turns)
    requires var t := After(s, bs, turns); k in t.roleBindings && Marked(t.roleBindings[k])
    ensures k in s.roleBindings && Marked(s.roleBindings[k])
  {
    hide Takes, HasEntry, Process;
    if turns == [] {
    } else {
      var n := |turns| - 1;
      EarlierPossible(s, bs, turns);
      var p := After(s, bs, turns[..n]);
      assert Takes(p, bs[turns[n].binder], turns[n]);
      ProcessMoves(p, bs[turns[n].binder], turns[n], k);
      MarksAreOld(s, bs, turns[..n], k);
    }
  }

  predicate Names(b: Binder, k: Key) {
    exists n :: n in b.x.spec.serviceAccountMapping && AccountBindingKey(k.namespace, n) == k
  }

  lemma NamesContested(s: State, bs: Binders, k: Key, i: nat, j: nat)
    requires IsContested(s, bs, k, i, j)
    ensures Names(bs[i], k) && Names(bs[j], k)
  {}

  /**
    So where no marked RoleBinding bears the name of accounts of two CRs, above all where
    none is marked, every first round brings the cluster to rest.
   */
  lemma UnmarkedComesToRest(s: State, bs: Binders, turns: seq<Turn>)
    requires Apart(bs) && AllFit(bs, turns) && Possible(s, bs, turns) && Everybody(bs, Seen(turns))
    requires forall k, i, j ::
               (k in s.roleBindings && Marked(s.roleBindings[k]) && 0 <= i < |bs| && 0 <= j < |bs|
                && Names(bs[i], k) && Names(bs[j], k)) ==> i == j
    ensures AtRest(After(s, bs, turns), bs)
  {
    hide AtRest, Possible, After;
    RestExactly(s, bs, turns);
    var t := After(s, bs, turns);
    if Contested(t, bs) {
      var k, i: nat, j: nat :| IsContested(t, bs, k, i, j);
      NamesContested(t, bs, k, i, j);
      MarksAreOld(s, bs, turns, k);
    }
  }

  /** Lines that stay out of namespaces named "sa" or "sa-..." never clash, so every turn is possible. */
  lemma PlainNeverClash(s: State, b: Binder)
    requires forall w :: Some(w) in b.ws ==> !AccountLike(w.namespace)
    ensures ClashFree(s, b.ws, b.x)
  {
    forall k | k in Reports(s, b.ws, b.x)
      ensures !AccountLike(k.namespace)
    {
      var w := Cleanup.ReportsWitness(s, b.ws, b.x, k);
    }
    PlainNamespacesNeverClash(s, b.ws, b.x);
  }

  // ---------- an input that never comes to rest ----------

  function MarkedAt(s: State, k: Key, at: NonEmpty): State
    requires k in s.roleBindings
  {
    var rb := s.roleBindings[k];
    WithBinding(s, k, rb.(annotations := rb.annotations[OrphanedAtKey := at]))
  }

  /** The CR's entry under the key, if there is one, finds what it wants by name, and no line asks for it. */
  ghost predicate WantsAsIs(s: State, b: Binder, k: Key)
    requires k in s.roleBindings
  {
    && LastFor(b.ws, k).None?
    && forall n :: n in b.x.spec.serviceAccountMapping && AccountBindingKey(k.namespace, n) == k ==>
                     UpToDate(s.roleBindings[k], EntryFor(b.x, k.namespace, n))
  }

  lemma MarkKeepsReports(s: State, b: Binder, k: Key, at: NonEmpty)
    requires k in s.roleBindings && LastFor(b.ws, k).None?
    ensures Reports(MarkedAt(s, k, at), b.ws, b.x) == Reports(s, b.ws, b.x)
  {
    forall w | Some(w) in b.ws
      ensures Blocked(s, w, b.x) <==> Blocked(MarkedAt(s, k, at), w, b.x)
    {
      HasLast(b.ws, w);
    }
    ReportsDependOnBlocked(s, MarkedAt(s, k, at), b.ws, b.x);
  }

  lemma MarkKeepsHeld(s: State, bs: Binders, k: Key, at: NonEmpty, seen: set<nat>, i: nat)
    requires k in s.roleBindings && i < |bs| && Settled(s, bs[i].ws, bs[i].x) && WantsAsIs(s, bs[i], k)
    requires SharedWith(MarkedAt(s, k, at), bs, seen, i, k)
    ensures Held(MarkedAt(s, k, at), bs, seen, i)
  {
    hide Reports, AccountName, Asks, DesiredNamespace, SharedWith, Overwrite, Desired, UpToDate, NewBinding;
    var b, t := bs[i], MarkedAt(s, k, at);
    MarkKeepsReports(s, b, k, at);
    forall l | !WorksOn(t, b, l)
      ensures BindingSettled(t, b.ws, b.x, l)
    {
      assert BindingSettled(s, b.ws, b.x, l);
    }
    forall m, n | m in Reported(t, b) && n in b.x.spec.serviceAccountMapping
      ensures EntryHeld(t, bs, seen, i, EntryFor(b.x, m, n))
    {
      var e := EntryFor(b.x, m, n);
      assert EntrySettled(s, b.ws, b.x, e);
      if e.BindingKey() == k {
        MarkIsLoose(s, b, k, at, e);
      } else {
        assert EntrySettled(t, b.ws, b.x, e);
      }
    }
  }

  lemma MarkIsLoose(s: State, b: Binder, k: Key, at: NonEmpty, e: Entry)
    requires k in s.roleBindings && LastFor(b.ws, k).None? && e.BindingKey() == k && UpToDate(s.roleBindings[k], e)
    ensures Loose(MarkedAt(s, k, at), b, e)
  {}

  /**
    Two CRs at rest whose accounts want the same of a RoleBinding that one of them holds.
    It is marked as orphaned: from then on they take it from each other for ever.
   */
  lemma MarkingUnsettles(s: State, bs: Binders, k: Key, at: NonEmpty, more: seq<Turn>)
    requires |bs| == 2 && Apart(bs) && AtRest(s, bs) && k in s.roleBindings
    requires forall i :: 0 <= i < 2 ==> WorksOn(s, bs[i], k) && WantsAsIs(s, bs[i], k)
    requires AllFit(bs, more) && Possible(MarkedAt(s, k, at), bs, more)
    ensures !AtRest(After(MarkedAt(s, k, at), bs, more), bs)
  {
    hide Settled, Held, Possible, HasEntry, Reports, After;
    var t, seen: set<nat> := MarkedAt(s, k, at), {0, 1};
    MarkKeepsReports(s, bs[0], k, at);
    MarkKeepsReports(s, bs[1], k, at);
    assert WorksOn(t, bs[0], k) && WorksOn(t, bs[1], k);
    assert SharedWith(t, bs, seen, 0, k) && SharedWith(t, bs, seen, 1, k);
    MarkKeepsHeld(s, bs, k, at, seen, 0);
    MarkKeepsHeld(s, bs, k, at, seen, 1);
    ContestStays(t, bs, more, seen, k, 0, 1);
    RestOfHeld(After(t, bs, more), bs, seen);
  }
}
