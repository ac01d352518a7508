/**
  Claims made while an operation is under way. The purge of one CR, the cleanup of a
  deleted one and the recreation of an account's RoleBinding each judge objects first and
  write to them later without a check. For each of them, this module says of every object
  exactly whether claims that other CRs make on it at any point survive every schedule.

  The answer depends on what was judged: an object the operation will not write to is
  safe, and so is one whose live claim by the operation's own CR keeps others away until
  the one write has come. Everything else can be lost.
 */
module LateClaims {
  import opened Strings
  import opened Cluster
  import opened Ownership
  import opened RoleBindings
  import opened ConfigMap
  import opened ConfigMapPass
  import opened Cleanup
  import opened ServiceAccounts
  import opened Runs
  import opened Interleavings

  // ---------- schedules ----------

  function Own(moves: seq<Move>, o: Owner): seq<Move> {
    if moves == [] then []
    else
      var n := |moves| - 1;
      Own(moves[..n], o) + (if Mover(moves[n]) == o then [moves[n]] else [])
  }

  /** `o` makes the moves of `mine`, in order; the others do whole operations anywhere in between. */
  ghost predicate Schedule(moves: seq<Move>, mine: seq<Move>, o: Owner) {
    Own(moves, o) == mine && forall m :: m in moves && Mover(m) != o ==> m.Act?
  }

  lemma {:induction false} OwnCount(moves: seq<Move>, o: Owner, m: Move)
    requires Mover(m) == o
    ensures multiset(Own(moves, o))[m] == multiset(moves)[m]
  {
    if moves == [] {
    } else {
      var n := |moves| - 1;
      assert moves == moves[..n] + [moves[n]];
      OwnCount(moves[..n], o, m);
    }
  }

  lemma {:induction false} OwnConcat(before: seq<Move>, after: seq<Move>, o: Owner)
    ensures Own(before + after, o) == Own(before, o) + Own(after, o)
  {
    if after == [] {
      assert before + after == before;
    } else {
      var n := |after| - 1;
      assert (before + after)[..|before + after| - 1] == before + after[..n];
      OwnConcat(before, after[..n], o);
    }
  }

  lemma {:induction false} AllOwn(moves: seq<Move>, o: Owner)
    requires forall m :: m in moves ==> Mover(m) == o
    ensures Own(moves, o) == moves
  {
    if moves == [] {
    } else {
      var n := |moves| - 1;
      assert moves == moves[..n] + [moves[n]];
      AllOwn(moves[..n], o);
    }
  }

  /** The others' operation first, then all of one's own moves. */
  lemma OthersFirst(m: Move, mine: seq<Move>, o: Owner)
    requires m.Act? && Mover(m) != o && forall z :: z in mine ==> Mover(z) == o
    ensures Schedule([m] + mine, mine, o)
  {
    OwnConcat([m], mine, o);
    AllOwn(mine, o);
    assert [m][..0] == [];
    assert Own([m], o) == [];
  }

  /** The others' operation between two parts of one's own moves. */
  lemma OthersBetween(first: seq<Move>, m: Move, second: seq<Move>, o: Owner)
    requires m.Act? && Mover(m) != o && forall z :: z in first + second ==> Mover(z) == o
    ensures Schedule(first + ([m] + second), first + second, o)
  {
    assert forall z :: z in first ==> z in first + second;
    assert forall z :: z in second ==> z in first + second;
    OthersFirst(m, second, o);
    AllOwn(first, o);
    OwnConcat(first, [m] + second, o);
  }

  // ---------- claims that survive ----------

  /** Every claim that another CR holds at any point is left as it is by all that others do from there on. */
  ghost predicate BindingClaimsSurvive(s: State, moves: seq<Move>, k: Key, o: Owner) {
    forall p, o2 ::
      0 <= p <= |moves| && o2 != o && ClaimsBinding(Interleave(s, moves[..p]), k, o2) && ByOthers(moves[p..], o2)
      ==> SameBinding(Interleave(s, moves[..p]), Interleave(s, moves), k)
  }

  ghost predicate NamespaceClaimsSurvive(s: State, moves: seq<Move>, n: string, o: Owner) {
    forall p, o2 ::
      0 <= p <= |moves| && o2 != o && ClaimsNamespace(Interleave(s, moves[..p]), n, o2) && ByOthers(moves[p..], o2)
      ==> SameNamespace(Interleave(s, moves[..p]), Interleave(s, moves), n)
  }

  /** A move that cannot touch a live claim of `o` on the RoleBinding. */
  predicate SparesBinding(m: Move, k: Key, o: Owner) {
    match m
    case Act(a) => a.owner != o
    case Drop(_, key) => key != k
    case MarkRb(_, key, _, _) => key != k
    case _ => true
  }

  predicate SparesNamespace(m: Move, n: string, o: Owner) {
    match m
    case Act(a) => a.owner != o
    case MarkNs(_, name, _) => name != n
    case _ => true
  }

  lemma SparedOnce(s: State, m: Move, k: Key, o: Owner)
    requires ClaimsBinding(s, k, o) && SparesBinding(m, k, o)
    ensures SameBinding(s, Advance(s, m), k)
  {
    hide Step, NewBinding;
    if m.Act? {
      ForeignStepKeepsBinding(s, m.action, k, o);
    }
  }

  lemma SparedOnceNs(s: State, m: Move, n: string, o: Owner)
    requires ClaimsNamespace(s, n, o) && SparesNamespace(m, n, o)
    ensures SameNamespace(s, Advance(s, m), n)
  {
    hide Step, NewBinding;
    if m.Act? {
      ForeignStepKeepsNamespace(s, m.action, n, o);
    }
  }

  lemma {:induction false} Spared(s: State, moves: seq<Move>, k: Key, o: Owner)
    requires ClaimsBinding(s, k, o) && forall m :: m in moves ==> SparesBinding(m, k, o)
    ensures SameBinding(s, Interleave(s, moves), k)
  {
    hide Advance, SparesBinding;
    if moves == [] {
    } else {
      var n := |moves| - 1;
      assert moves == moves[..n] + [moves[n]];
      Spared(s, moves[..n], k, o);
      SparedOnce(Interleave(s, moves[..n]), moves[n], k, o);
    }
  }

  lemma {:induction false} SparedNs(s: State, moves: seq<Move>, n: string, o: Owner)
    requires ClaimsNamespace(s, n, o) && forall m :: m in moves ==> SparesNamespace(m, n, o)
    ensures SameNamespace(s, Interleave(s, moves), n)
  {
    hide Advance, SparesNamespace;
    if moves == [] {
    } else {
      var last := |moves| - 1;
      assert moves == moves[..last] + [moves[last]];
      SparedNs(s, moves[..last], n, o);
      SparedOnceNs(Interleave(s, moves[..last]), moves[last], n, o);
    }
  }

  // ---------- the two ways to be safe ----------

  /** `mine` writes to the RoleBinding at most once, and not at all unless `o` itself holds a live claim on it. */
  ghost predicate BindingSheltered(s: State, mine: seq<Move>, k: Key, o: Owner) {
    && (forall m :: m in mine ==> m.Drop? || m.Make?)
    && (forall m :: m in mine ==> Mover(m) == o)
    && multiset(mine)[Drop(o, k)] <= (if ClaimsBinding(s, k, o) then 1 else 0)
  }

  lemma ShelteredSurvives(s: State, mine: seq<Move>, moves: seq<Move>, k: Key, o: Owner)
    requires BindingSheltered(s, mine, k, o) && Schedule(moves, mine, o)
    ensures BindingClaimsSurvive(s, moves, k, o)
  {
    hide Interleave, ClaimsBinding, Schedule, SameBinding, BindingSheltered;
    forall p, o2 | 0 <= p <= |moves| && o2 != o && ClaimsBinding(Interleave(s, moves[..p]), k, o2)
                   && ByOthers(moves[p..], o2)
      ensures SameBinding(Interleave(s, moves[..p]), Interleave(s, moves), k)
    {
      assert moves == moves[..p] + moves[p..];
      ClaimSurvives(s, mine, moves[..p], moves[p..], k, o, o2);
    }
  }

  /** Once another's claim is there, the one write has been made. */
  lemma ClaimSurvives(s: State, mine: seq<Move>, before: seq<Move>, after: seq<Move>, k: Key, o: Owner, o2: Owner)
    requires BindingSheltered(s, mine, k, o) && Schedule(before + after, mine, o)
    requires o2 != o && ClaimsBinding(Interleave(s, before), k, o2) && ByOthers(after, o2)
    ensures SameBinding(Interleave(s, before), Interleave(s, before + after), k)
  {
    hide Interleave, ClaimsBinding, SameBinding, SparesBinding;
    MovesSpare(s, mine, before, after, k, o, o2);
    if ClaimsBinding(s, k, o) && Drop(o, k) !in before {
      Spared(s, before, k, o);
      BothClaim(s, Interleave(s, before), k, o, o2);
    }
    OwnCount(before + after, o, Drop(o, k));
    NoneAfter(before, after, Drop(o, k));
    Spared(Interleave(s, before), after, k, o2);
    InterleaveConcat(s, before, after);
  }

  lemma MovesSpare(s: State, mine: seq<Move>, before: seq<Move>, after: seq<Move>, k: Key, o: Owner, o2: Owner)
    requires BindingSheltered(s, mine, k, o) && Schedule(before + after, mine, o) && o2 != o && ByOthers(after, o2)
    ensures Drop(o, k) !in before ==> forall m :: m in before ==> SparesBinding(m, k, o)
    ensures Drop(o, k) !in after ==> forall m :: m in after ==> SparesBinding(m, k, o2)
  {
    MovesOf(before + after, mine, o);
    assert forall m :: m in before ==> m in before + after;
    assert forall m :: m in after ==> m in before + after;
  }

  lemma NoneAfter(before: seq<Move>, after: seq<Move>, m: Move)
    requires multiset(before + after)[m] <= (if m in before then 1 else 0)
    ensures m !in after
  {
    assert multiset(before + after)[m] == multiset(before)[m] + multiset(after)[m];
  }

  lemma MovesOf(moves: seq<Move>, mine: seq<Move>, o: Owner)
    requires Schedule(moves, mine, o)
    ensures forall m :: m in moves ==> if Mover(m) == o then m in mine else m.Act?
  {
    forall m | m in moves && Mover(m) == o
      ensures m in mine
    {
      OwnCount(moves, o, m);
      assert m in multiset(mine);
    }
  }

  lemma BothClaim(s: State, p: State, k: Key, o: Owner, o2: Owner)
    requires ClaimsBinding(s, k, o) && SameBinding(s, p, k) && ClaimsBinding(p, k, o2)
    ensures o == o2
  {}

  /** The same for marks on a namespace. */
  ghost predicate NamespaceSheltered(s: State, mine: seq<Move>, n: string, o: Owner, now: NonEmpty) {
    && (forall m :: m in mine ==> m.MarkNs? && m.owner == o && m.now == now)
    && multiset(mine)[MarkNs(o, n, now)] <= (if ClaimsNamespace(s, n, o) then 1 else 0)
  }

  lemma NamespaceShelteredSurvives(s: State, mine: seq<Move>, moves: seq<Move>, n: string, o: Owner, now: NonEmpty)
    requires NamespaceSheltered(s, mine, n, o, now) && Schedule(moves, mine, o)
    ensures NamespaceClaimsSurvive(s, moves, n, o)
  {
    hide Interleave, ClaimsNamespace, Schedule, SameNamespace, NamespaceSheltered;
    forall p, o2 | 0 <= p <= |moves| && o2 != o && ClaimsNamespace(Interleave(s, moves[..p]), n, o2)
                   && ByOthers(moves[p..], o2)
      ensures SameNamespace(Interleave(s, moves[..p]), Interleave(s, moves), n)
    {
      assert moves == moves[..p] + moves[p..];
      NamespaceClaimSurvives(s, mine, moves[..p], moves[p..], n, o, o2, now);
    }
  }

  lemma NamespaceClaimSurvives(s: State, mine: seq<Move>, before: seq<Move>, after: seq<Move>, n: string,
                               o: Owner, o2: Owner, now: NonEmpty)
    requires NamespaceSheltered(s, mine, n, o, now) && Schedule(before + after, mine, o)
    requires o2 != o && ClaimsNamespace(Interleave(s, before), n, o2) && ByOthers(after, o2)
    ensures SameNamespace(Interleave(s, before), Interleave(s, before + after), n)
  {
    hide Interleave, ClaimsNamespace, SameNamespace, SparesNamespace;
    MovesSpareNs(s, mine, before, after, n, o, o2, now);
    if ClaimsNamespace(s, n, o) && MarkNs(o, n, now) !in before {
      SparedNs(s, before, n, o);
      BothClaimNs(s, Interleave(s, before), n, o, o2);
    }
    OwnCount(before + after, o, MarkNs(o, n, now));
    NoneAfter(before, after, MarkNs(o, n, now));
    SparedNs(Interleave(s, before), after, n, o2);
    InterleaveConcat(s, before, after);
  }

  lemma MovesSpareNs(s: State, mine: seq<Move>, before: seq<Move>, after: seq<Move>, n: string,
                     o: Owner, o2: Owner, now: NonEmpty)
    requires NamespaceSheltered(s, mine, n, o, now) && Schedule(before + after, mine, o) && o2 != o
    requires ByOthers(after, o2)
    ensures MarkNs(o, n, now) !in before ==> forall m :: m in before ==> SparesNamespace(m, n, o)
    ensures MarkNs(o, n, now) !in after ==> forall m :: m in after ==> SparesNamespace(m, n, o2)
  {
    MovesOf(before + after, mine, o);
    assert forall m :: m in before ==> m in before + after;
    assert forall m :: m in after ==> m in before + after;
  }

  lemma BothClaimNs(s: State, p: State, n: string, o: Owner, o2: Owner)
    requires ClaimsNamespace(s, n, o) && SameNamespace(s, p, n) && ClaimsNamespace(p, n, o2)
    ensures o == o2
  {}

  // ---------- a rival ----------

  /** A CR of the same name in another namespace. */
  function Rival(o: Owner): (r: Owner)
    ensures r != o
  {
    var r := Owner(o.name, o.namespace + "x");
    assert |r.namespace| != |o.namespace|;
    r
  }

  /** What `o` may take, its rival may take too, unless it is a live stamped claim of `o`. */
  lemma RivalMayTake(a: Annotations, o: Owner)
    requires CanTakeOwnership(a, o) && !LiveClaim(a, o)
    ensures CanTakeOwnership(a, Rival(o))
  {}

  // ---------- the purge ----------

  function Drops(ks: seq<Key>, o: Owner): seq<Move> {
    seq(|ks|, i requires 0 <= i < |ks| => Drop(o, ks[i]))
  }

  lemma {:induction false} DropsCount(ks: seq<Key>, o: Owner, k: Key)
    ensures multiset(Drops(ks, o))[Drop(o, k)] == multiset(ks)[k]
  {
    if ks == [] {
    } else {
      var n := |ks| - 1;
      assert ks == ks[..n] + [ks[n]];
      assert Drops(ks, o) == Drops(ks[..n], o) + [Drop(o, ks[n])];
      DropsCount(ks[..n], o, k);
    }
  }

  lemma {:induction false} DropsRemove(s: State, ks: seq<Key>, o: Owner)
    ensures Interleave(s, Drops(ks, o)) == Without(s, Elements(ks))
  {
    hide Without;
    if ks == [] {
      NoneGone(s);
      assert Elements(ks) == {};
      assert Drops(ks, o) == [];
    } else {
      var n := |ks| - 1;
      assert ks == ks[..n] + [ks[n]];
      assert Drops(ks, o) == Drops(ks[..n], o) + [Drop(o, ks[n])];
      DropsRemove(s, ks[..n], o);
      InterleaveOneMore(s, Drops(ks[..n], o), Drop(o, ks[n]));
      WithoutTwice(s, Elements(ks[..n]), {ks[n]});
      assert Elements(ks) == Elements(ks[..n]) + {ks[n]};
    }
  }

  lemma WithoutTwice(s: State, a: set<Key>, b: set<Key>)
    ensures Without(Without(s, a), b) == Without(s, a + b)
  {
    assert s.roleBindings - (a + b) == (s.roleBindings - a) - b;
  }

  function Gone(s: State, x: Context, a: PurgeAnswers): set<Key> {
    RoleVictims(Listing(s, x.op, x.owner), x.spec, a.roleDeleteOk)
  }

  function Strayed(s: State, x: Context, a: PurgeAnswers): set<Key> {
    PrefixVictims(Listing(s, x.op, x.owner), x.spec, a.prefixDeleteOk)
  }

  /** Undisturbed, the two loops of deletions, each in any order, make up the purge. */
  lemma PurgeIsDrops(s: State, x: Context, a: PurgeAnswers, rs: seq<Key>, ps: seq<Key>)
    requires a.listOk && Lists(rs, Gone(s, x, a)) && Lists(ps, Strayed(s, x, a))
    ensures Interleave(s, Drops(rs, x.owner) + Drops(ps, x.owner)) == Purge(s, x, a).0
    ensures Warranted(s, Drops(rs, x.owner) + Drops(ps, x.owner))
  {
    hide RoleVictims, PrefixVictims, ManagesBinding;
    InterleaveConcat(s, Drops(rs, x.owner), Drops(ps, x.owner));
    DropsRemove(s, rs, x.owner);
    DropsRemove(Without(s, Gone(s, x, a)), ps, x.owner);
    forall m | m in Drops(rs, x.owner) + Drops(ps, x.owner)
      ensures Judged(s, m)
    {
      assert m.Drop? && m.owner == x.owner && (m.key in Elements(rs) || m.key in Elements(ps));
      VictimJudged(s, x, a, m.key);
    }
    AllJudgedAtStart(s, Drops(rs, x.owner) + Drops(ps, x.owner));
  }

  lemma VictimJudged(s: State, x: Context, a: PurgeAnswers, k: Key)
    requires k in Gone(s, x, a) || k in Strayed(s, x, a)
    ensures k in s.roleBindings && IsOwnedBy(s.roleBindings[k].annotations, x.owner)
    ensures Judged(s, Drop(x.owner, k))
  {}

  /** The first loop, then the second, each over its list in some order, others anywhere in between. */
  ghost predicate PurgeSchedule(s: State, x: Context, a: PurgeAnswers, moves: seq<Move>) {
    exists rs, ps ::
      && Lists(rs, Gone(s, x, a)) && Lists(ps, Strayed(s, x, a))
      && Schedule(moves, Drops(rs, x.owner) + Drops(ps, x.owner), x.owner)
  }

  ghost predicate SafeFromPurge(s: State, x: Context, a: PurgeAnswers, k: Key) {
    forall moves :: PurgeSchedule(s, x, a, moves) ==> BindingClaimsSurvive(s, moves, k, x.owner)
  }

  /**
    Not deleted at all, or deleted in one of the two loops only, and then listed with a live
    claim of the purging CR.
   */
  predicate PurgeShelters(s: State, x: Context, a: PurgeAnswers, k: Key) {
    || (k !in Gone(s, x, a) && k !in Strayed(s, x, a))
    || ((k !in Gone(s, x, a) || k !in Strayed(s, x, a)) && ClaimsBinding(s, k, x.owner))
  }

  lemma PurgeDropCount(s: State, x: Context, a: PurgeAnswers, rs: seq<Key>, ps: seq<Key>, k: Key)
    requires Lists(rs, Gone(s, x, a)) && Lists(ps, Strayed(s, x, a))
    ensures multiset(Drops(rs, x.owner) + Drops(ps, x.owner))[Drop(x.owner, k)]
            == (if k in Gone(s, x, a) then 1 else 0) + (if k in Strayed(s, x, a) then 1 else 0)
  {
    hide Gone, Strayed, Drops;
    DropsCount(rs, x.owner, k);
    DropsCount(ps, x.owner, k);
    DistinctMultiset(rs, k);
    DistinctMultiset(ps, k);
    assert k in rs <==> k in Elements(rs);
    assert k in ps <==> k in Elements(ps);
  }

  /** Sheltered keys are safe, whoever binds what. */
  lemma PurgeShelteredIsSafe(s: State, x: Context, a: PurgeAnswers, k: Key)
    requires PurgeShelters(s, x, a, k)
    ensures SafeFromPurge(s, x, a, k)
  {
    hide Gone, Strayed, BindingClaimsSurvive, ClaimsBinding;
    forall moves | PurgeSchedule(s, x, a, moves)
      ensures BindingClaimsSurvive(s, moves, k, x.owner)
    {
      var rs, ps :| Lists(rs, Gone(s, x, a)) && Lists(ps, Strayed(s, x, a))
                    && Schedule(moves, Drops(rs, x.owner) + Drops(ps, x.owner), x.owner);
      PurgeDropCount(s, x, a, rs, ps, k);
      ShelteredSurvives(s, Drops(rs, x.owner) + Drops(ps, x.owner), moves, k, x.owner);
    }
  }

  lemma DroppedIsGone(s: State, ks: seq<Key>, o: Owner, k: Key)
    requires k in Elements(ks) || k !in s.roleBindings
    ensures forall o2 :: !ClaimsBinding(Interleave(s, Drops(ks, o)), k, o2)
    ensures k !in Interleave(s, Drops(ks, o)).roleBindings
  {
    DropsRemove(s, ks, o);
  }

  /** A rival binds what it may take, if the roleRef can be had. */
  lemma RivalBinds(s: State, w: Want, op: Operator, o: Owner)
    requires !BindingRefused(s, w.Key(), Rival(o)) && !BindingStuck(s, w, op)
    ensures ClaimsBinding(Step(s, BindGroup(op, Rival(o), w, "x", ALL_GOOD)), w.Key(), Rival(o))
  {
    hide Overwrite;
    OverwriteLooks(OldBinding(s, w.Key()), w, op, Rival(o), "x");
  }

  /** Deleted twice: a claim made in between is lost. */
  lemma TwiceDeletedIsLost(s: State, x: Context, a: PurgeAnswers, w: Want) returns (moves: seq<Move>)
    requires w.Key() in Gone(s, x, a) && w.Key() in Strayed(s, x, a)
    ensures PurgeSchedule(s, x, a, moves) && !BindingClaimsSurvive(s, moves, w.Key(), x.owner)
  {
    hide Gone, Strayed, Interleave, Step, ClaimsBinding, Drops;
    var k, o := w.Key(), x.owner;
    var rs := ListOf(Gone(s, x, a));
    var ps := ListOf(Strayed(s, x, a));
    var first, second, bind := Drops(rs, o), Drops(ps, o), Act(BindGroup(x.op, Rival(o), w, "x", ALL_GOOD));
    DropsAreOwn(rs, o);
    DropsAreOwn(ps, o);
    OthersBetween(first, bind, second, o);
    moves := first + ([bind] + second);
    assert PurgeSchedule(s, x, a, moves);
    var p := |first| + 1;
    assert moves[..p] == first + [bind] && moves[p..] == second && moves == moves[..p] + moves[p..];
    DroppedIsGone(s, rs, o, k);
    InterleaveOneMore(s, first, bind);
    RivalBinds(Interleave(s, first), w, x.op, o);
    InterleaveConcat(s, moves[..p], second);
    DroppedIsGone(Interleave(s, moves[..p]), ps, o, k);
    LostSince(s, moves, p, k, o, Rival(o));
  }

  /** Deleted once, but not held by a live claim: a claim made before that is lost. */
  lemma UnheldIsLost(s: State, x: Context, a: PurgeAnswers, w: Want) returns (moves: seq<Move>)
    requires w.Key() in Gone(s, x, a) || w.Key() in Strayed(s, x, a)
    requires !ClaimsBinding(s, w.Key(), x.owner) && !BindingStuck(s, w, x.op)
    ensures PurgeSchedule(s, x, a, moves) && !BindingClaimsSurvive(s, moves, w.Key(), x.owner)
  {
    var k, o := w.Key(), x.owner;
    VictimJudged(s, x, a, k);
    RivalMayTake(s.roleBindings[k].annotations, o);
    hide Gone, Strayed, Interleave, Step, ClaimsBinding, Drops, BindingStuck;
    var rs := ListOf(Gone(s, x, a));
    var ps := ListOf(Strayed(s, x, a));
    var first, second, bind := Drops(rs, o), Drops(ps, o), Act(BindGroup(x.op, Rival(o), w, "x", ALL_GOOD));
    DropsAreOwn(rs, o);
    DropsAreOwn(ps, o);
    OthersFirst(bind, first + second, o);
    moves := [bind] + (first + second);
    assert PurgeSchedule(s, x, a, moves);
    assert moves[..1] == [bind] && moves[1..] == first + second && [] + [bind] == [bind];
    InterleaveOneMore(s, [], bind);
    InterleaveNothing(s);
    RivalBinds(s, w, x.op, o);
    var t := Interleave(s, moves[..1]);
    InterleaveConcat(s, moves[..1], first + second);
    InterleaveConcat(t, first, second);
    DroppedInEither(t, rs, ps, o, k);
    LostSince(s, moves, 1, k, o, Rival(o));
  }

  lemma InterleaveNothing(s: State)
    ensures Interleave(s, []) == s
  {}

  lemma DropsAreOwn(ks: seq<Key>, o: Owner)
    ensures forall m :: m in Drops(ks, o) ==> Mover(m) == o && m.Drop?
  {}

  lemma DroppedInEither(s: State, rs: seq<Key>, ps: seq<Key>, o: Owner, k: Key)
    requires k in Elements(rs) || k in Elements(ps)
    ensures forall o2 :: !ClaimsBinding(Interleave(Interleave(s, Drops(rs, o)), Drops(ps, o)), k, o2)
  {
    DropsRemove(s, rs, o);
    DropsRemove(Without(s, Elements(rs)), ps, o);
  }

  /** A claim held at some point, and an object not the same at the end. */
  lemma LostSince(s: State, moves: seq<Move>, p: nat, k: Key, o: Owner, o2: Owner)
    requires p <= |moves| && o2 != o && ClaimsBinding(Interleave(s, moves[..p]), k, o2)
    requires forall m :: m in moves[p..] ==> Mover(m) == o
    requires !ClaimsBinding(Interleave(s, moves), k, o2)
    ensures !BindingClaimsSurvive(s, moves, k, o)
  {
    assert ByOthers(moves[p..], o2);
  }

  /**
    Exactly which RoleBindings are safe from a purge under way. `w` is what another CR
    may want of the RoleBinding; if it is deleted once only, with a roleRef the API server
    allows there.
   */
  lemma SafeFromPurgeExactly(s: State, x: Context, a: PurgeAnswers, k: Key, w: Want)
    requires w.Key() == k && (BindingStuck(s, w, x.op) ==> k in Gone(s, x, a) && k in Strayed(s, x, a))
    ensures SafeFromPurge(s, x, a, k) <==> PurgeShelters(s, x, a, k)
  {
    hide Gone, Strayed, PurgeSchedule, BindingClaimsSurvive, ClaimsBinding, BindingStuck;
    if PurgeShelters(s, x, a, k) {
      PurgeShelteredIsSafe(s, x, a, k);
    } else if k in Gone(s, x, a) && k in Strayed(s, x, a) {
      var moves := TwiceDeletedIsLost(s, x, a, w);
    } else {
      var moves := UnheldIsLost(s, x, a, w);
    }
  }

  /**
    The same for the key of an account's RoleBinding, whether or not a line can ask for it
    too: there a CR with such an account takes what it may, whatever the roleRef.
   */
  lemma SafeFromPurgeExactlyForAccounts(s: State, x: Context, a: PurgeAnswers, namespace: string, name: string)
    ensures var k := AccountBindingKey(namespace, name);
            SafeFromPurge(s, x, a, k) <==> PurgeShelters(s, x, a, k)
  {
    hide Gone, Strayed, PurgeSchedule, BindingClaimsSurvive, ClaimsBinding, AccountBindingKey;
    var k := AccountBindingKey(namespace, name);
    if PurgeShelters(s, x, a, k) {
      PurgeShelteredIsSafe(s, x, a, k);
    } else if k in Gone(s, x, a) && k in Strayed(s, x, a) {
      var moves := AccountTwiceDeletedIsLost(s, x, a, namespace, name);
    } else {
      var moves := AccountUnheldIsLost(s, x, a, namespace, name);
    }
  }

  /** An entry whose RoleBinding is under the key and is not as it wants it. */
  function OtherEntry(s: State, namespace: string, name: string): (e: Entry)
    ensures e.BindingKey() == AccountBindingKey(namespace, name)
    ensures e.BindingKey() in s.roleBindings ==> !UpToDate(s.roleBindings[e.BindingKey()], e)
  {
    var k := AccountBindingKey(namespace, name);
    var role := if k in s.roleBindings then s.roleBindings[k].roleRef.name + "x" else "x";
    assert k in s.roleBindings ==> |role| != |s.roleBindings[k].roleRef.name|;
    Entry(namespace, name, role, "account")
  }

  lemma RivalTakesAccount(s: State, e: Entry, op: Operator, o: Owner)
    requires !BindingRefused(s, e.BindingKey(), Rival(o))
    requires e.BindingKey() in s.roleBindings ==> !UpToDate(s.roleBindings[e.BindingKey()], e)
    ensures ClaimsBinding(Step(s, Action.BindAccount(op, Rival(o), e, ACCOUNT_ALL_GOOD)), e.BindingKey(), Rival(o))
  {
    hide UpToDate;
  }

  lemma AccountTwiceDeletedIsLost(s: State, x: Context, a: PurgeAnswers, namespace: string, name: string)
    returns (moves: seq<Move>)
    requires var k := AccountBindingKey(namespace, name); k in Gone(s, x, a) && k in Strayed(s, x, a)
    ensures PurgeSchedule(s, x, a, moves)
    ensures !BindingClaimsSurvive(s, moves, AccountBindingKey(namespace, name), x.owner)
  {
    hide Gone, Strayed, Interleave, Step, ClaimsBinding, Drops, AccountBindingKey, UpToDate;
    var k, o := AccountBindingKey(namespace, name), x.owner;
    var rs := ListOf(Gone(s, x, a));
    var ps := ListOf(Strayed(s, x, a));
    var first, second := Drops(rs, o), Drops(ps, o);
    DroppedIsGone(s, rs, o, k);
    var e := OtherEntry(Interleave(s, first), namespace, name);
    var bind := Act(Action.BindAccount(x.op, Rival(o), e, ACCOUNT_ALL_GOOD));
    DropsAreOwn(rs, o);
    DropsAreOwn(ps, o);
    OthersBetween(first, bind, second, o);
    moves := first + ([bind] + second);
    assert PurgeSchedule(s, x, a, moves);
    var p := |first| + 1;
    assert moves[..p] == first + [bind] && moves[p..] == second && moves == moves[..p] + moves[p..];
    InterleaveOneMore(s, first, bind);
    RivalTakesAccount(Interleave(s, first), e, x.op, o);
    InterleaveConcat(s, moves[..p], second);
    DroppedIsGone(Interleave(s, moves[..p]), ps, o, k);
    LostSince(s, moves, p, k, o, Rival(o));
  }

  lemma AccountUnheldIsLost(s: State, x: Context, a: PurgeAnswers, namespace: string, name: string)
    returns (moves: seq<Move>)
    requires var k := AccountBindingKey(namespace, name);
             (k in Gone(s, x, a) || k in Strayed(s, x, a)) && !ClaimsBinding(s, k, x.owner)
    ensures PurgeSchedule(s, x, a, moves)
    ensures !BindingClaimsSurvive(s, moves, AccountBindingKey(namespace, name), x.owner)
  {
    var k, o := AccountBindingKey(namespace, name), x.owner;
    VictimJudged(s, x, a, k);
    RivalMayTake(s.roleBindings[k].annotations, o);
    var e := OtherEntry(s, namespace, name);
    RivalTakesAccount(s, e, x.op, o);
    hide Gone, Strayed, Interleave, Step, ClaimsBinding, Drops, AccountBindingKey, UpToDate;
    var rs := ListOf(Gone(s, x, a));
    var ps := ListOf(Strayed(s, x, a));
    var first, second := Drops(rs, o), Drops(ps, o);
    var bind := Act(Action.BindAccount(x.op, Rival(o), e, ACCOUNT_ALL_GOOD));
    DropsAreOwn(rs, o);
    DropsAreOwn(ps, o);
    OthersFirst(bind, first + second, o);
    moves := [bind] + (first + second);
    assert PurgeSchedule(s, x, a, moves);
    assert moves[..1] == [bind] && moves[1..] == first + second && [] + [bind] == [bind];
    InterleaveOneMore(s, [], bind);
    InterleaveNothing(s);
    var t := Interleave(s, moves[..1]);
    InterleaveConcat(s, moves[..1], first + second);
    InterleaveConcat(t, first, second);
    DroppedInEither(t, rs, ps, o, k);
    LostSince(s, moves, 1, k, o, Rival(o));
  }

  /** A claim another CR held when the purge made its list is untouched, however the purge is interleaved. */
  lemma OldClaimsOutlivePurge(s: State, x: Context, a: PurgeAnswers, moves: seq<Move>, k: Key, o: Owner)
    requires ClaimsBinding(s, k, o) && ByOthers(moves, o)
    requires forall m :: m in moves ==>
               m.Act? || (m.Drop? && m.owner == x.owner && (m.key in Gone(s, x, a) || m.key in Strayed(s, x, a)))
    ensures SameBinding(s, Interleave(s, moves), k)
  {
    hide Gone, Strayed, Interleave, Warranted, ClaimsBinding;
    forall m | m in moves
      ensures Judged(s, m)
    {
      if m.Drop? {
        VictimJudged(s, x, a, m.key);
        assert m == Drop(x.owner, m.key);
      }
    }
    AllJudgedAtStart(s, moves);
    Interleavings.FirstOwnerWins(s, moves, o);
  }

  /**
    A younger one need not be: a role and a prefix are dropped together, and another CR binds
    anew between the two loops.
   */
  lemma LateDeletionExample(op: Operator, o: Owner, o2: Owner, now: NonEmpty)
    requires o != o2
    ensures var w := Want("shop", "edit", "OLD-shop-edit", "edit");
            var x := Context(op, o, Spec(map["view" := "view"], ["NEW"], [], map[], ""));
            var a := PurgeAnswers(true, k => true, k => true);
            var s := State(map[], map[w.Key() := Overwrite(NO_BINDING, w, op, o, now)], map[]);
            var early := [Drop(o, w.Key()), Act(BindGroup(op, o2, w, now, ALL_GOOD))];
            && w.Key() in Gone(s, x, a) * Strayed(s, x, a)
            && ClaimsBinding(Interleave(s, early), w.Key(), o2)
            && w.Key() !in Interleave(s, early + [Drop(o, w.Key())]).roleBindings
  {
    hide Overwrite, Gone, Strayed, Interleave;
    var w := Want("shop", "edit", "OLD-shop-edit", "edit");
    var x := Context(op, o, Spec(map["view" := "view"], ["NEW"], [], map[], ""));
    var s := State(map[], map[w.Key() := Overwrite(NO_BINDING, w, op, o, now)], map[]);
    LateVictim(s, w, x, now);
    DeletedBoundDeleted(s, w, op, o, o2, now);
  }

  /** Deleted, bound anew by another CR, and deleted again. */
  lemma DeletedBoundDeleted(s: State, w: Want, op: Operator, o: Owner, o2: Owner, now: NonEmpty)
    ensures var k := w.Key();
            var early := [Drop(o, k), Act(BindGroup(op, o2, w, now, ALL_GOOD))];
            && ClaimsBinding(Interleave(s, early), k, o2)
            && k !in Interleave(s, early + [Drop(o, k)]).roleBindings
  {
    hide Bind, Step, Interleave;
    var k, bind := w.Key(), Act(BindGroup(op, o2, w, now, ALL_GOOD));
    InterleaveNothing(s);
    InterleaveOneMore(s, [], Drop(o, k));
    InterleaveOneMore(s, [] + [Drop(o, k)], bind);
    InterleaveOneMore(s, [] + [Drop(o, k)] + [bind], Drop(o, k));
    assert [] + [Drop(o, k)] + [bind] == [Drop(o, k), bind];
    BoundAfresh(Without(s, {k}), w, op, o2, now);
  }

  lemma BoundAfresh(s: State, w: Want, op: Operator, o: Owner, now: NonEmpty)
    requires w.Key() !in s.roleBindings
    ensures ClaimsBinding(Step(s, BindGroup(op, o, w, now, ALL_GOOD)), w.Key(), o)
  {
    ManagedMeansDesired(s, w, op, o, now, ALL_GOOD);
  }

  lemma LateVictim(s: State, w: Want, x: Context, now: NonEmpty)
    requires w == Want("shop", "edit", "OLD-shop-edit", "edit")
    requires x.spec == Spec(map["view" := "view"], ["NEW"], [], map[], "")
    requires w.Key() in s.roleBindings && s.roleBindings[w.Key()] == Overwrite(NO_BINDING, w, x.op, x.owner, now)
    ensures var a := PurgeAnswers(true, k => true, k => true);
            w.Key() in Gone(s, x, a) * Strayed(s, x, a)
  {
    var rb := s.roleBindings[w.Key()];
    assert ManagesBinding(s, w.Key(), x.op, x.owner);
    assert RoleGone(w.Key(), rb, x.spec);
    assert rb.subjects[0].name[0] == 'O' && ("NEW" + "-")[0] == 'N';
    assert PrefixGone(rb, x.spec);
  }

  // ---------- the cleanup of a deleted CR ----------

  function Marks(ns: seq<string>, o: Owner, now: NonEmpty): seq<Move> {
    seq(|ns|, i requires 0 <= i < |ns| => MarkNs(o, ns[i], now))
  }

  lemma {:induction false} MarksCount(ns: seq<string>, o: Owner, now: NonEmpty, n: string)
    ensures multiset(Marks(ns, o, now))[MarkNs(o, n, now)] == multiset(ns)[n]
  {
    if ns == [] {
    } else {
      var last := |ns| - 1;
      assert ns == ns[..last] + [ns[last]];
      assert Marks(ns, o, now) == Marks(ns[..last], o, now) + [MarkNs(o, ns[last], now)];
      MarksCount(ns[..last], o, now, n);
    }
  }

  lemma MarksAreOwn(ns: seq<string>, o: Owner, now: NonEmpty)
    ensures forall m :: m in Marks(ns, o, now) ==> Mover(m) == o && m.MarkNs? && m.now == now
  {}

  /** The loop over the listed namespaces, others anywhere in between. */
  ghost predicate CleanupSchedule(s: State, op: Operator, o: Owner, now: NonEmpty, a: OrphanAnswers, moves: seq<Move>) {
    exists ns :: Lists(ns, MarkedNamespaces(s, op, o, a)) && Schedule(moves, Marks(ns, o, now), o)
  }

  ghost predicate SafeFromCleanup(s: State, op: Operator, o: Owner, now: NonEmpty, a: OrphanAnswers, n: string) {
    forall moves :: CleanupSchedule(s, op, o, now, a, moves) ==> NamespaceClaimsSurvive(s, moves, n, o)
  }

  lemma MarkCount(s: State, op: Operator, o: Owner, now: NonEmpty, a: OrphanAnswers, ns: seq<string>, n: string)
    requires Lists(ns, MarkedNamespaces(s, op, o, a))
    ensures multiset(Marks(ns, o, now))[MarkNs(o, n, now)] == if n in MarkedNamespaces(s, op, o, a) then 1 else 0
  {
    hide MarkedNamespaces, Marks;
    MarksCount(ns, o, now, n);
    DistinctMultiset(ns, n);
    assert n in ns <==> n in Elements(ns);
  }

  lemma CleanupShelteredIsSafe(s: State, op: Operator, o: Owner, now: NonEmpty, a: OrphanAnswers, n: string)
    requires n !in MarkedNamespaces(s, op, o, a) || ClaimsNamespace(s, n, o)
    ensures SafeFromCleanup(s, op, o, now, a, n)
  {
    hide MarkedNamespaces, NamespaceClaimsSurvive, ClaimsNamespace, Schedule;
    forall moves | CleanupSchedule(s, op, o, now, a, moves)
      ensures NamespaceClaimsSurvive(s, moves, n, o)
    {
      var ns :| Lists(ns, MarkedNamespaces(s, op, o, a)) && Schedule(moves, Marks(ns, o, now), o);
      MarkCount(s, op, o, now, a, ns, n);
      MarksAreOwn(ns, o, now);
      NamespaceShelteredSurvives(s, Marks(ns, o, now), moves, n, o, now);
    }
  }

  /** Marked at the end, if it is there and among those to be marked. */
  lemma {:induction false} MarkedIsUnclaimed(s: State, ns: seq<string>, o: Owner, now: NonEmpty, n: string, o2: Owner)
    requires n in ns
    ensures !ClaimsNamespace(Interleave(s, Marks(ns, o, now)), n, o2)
  {
    hide Interleave;
    var last := |ns| - 1;
    assert ns == ns[..last] + [ns[last]];
    assert Marks(ns, o, now) == Marks(ns[..last], o, now) + [MarkNs(o, ns[last], now)];
    InterleaveOneMore(s, Marks(ns[..last], o, now), MarkNs(o, ns[last], now));
    if ns[last] != n {
      MarkedIsUnclaimed(s, ns[..last], o, now, n, o2);
    }
  }

  lemma RivalClaims(s: State, n: string, op: Operator, o: Owner)
    requires n in s.namespaces && CanTakeOwnership(s.namespaces[n].annotations, Rival(o))
    ensures ClaimsNamespace(Step(s, ClaimNs(op, Rival(o), n, "x", ALL_GOOD)), n, Rival(o))
  {}

  lemma ListedIsTakeable(s: State, op: Operator, o: Owner, a: OrphanAnswers, n: string)
    requires n in MarkedNamespaces(s, op, o, a) && !ClaimsNamespace(s, n, o)
    ensures n in s.namespaces && CanTakeOwnership(s.namespaces[n].annotations, Rival(o))
  {
    RivalMayTake(s.namespaces[n].annotations, o);
  }

  lemma LateMarkIsLost(s: State, op: Operator, o: Owner, now: NonEmpty, a: OrphanAnswers, n: string)
    returns (moves: seq<Move>)
    requires n in MarkedNamespaces(s, op, o, a) && !ClaimsNamespace(s, n, o)
    ensures CleanupSchedule(s, op, o, now, a, moves) && !NamespaceClaimsSurvive(s, moves, n, o)
  {
    hide MarkedNamespaces, Interleave, Step, ClaimsNamespace, Marks, Schedule;
    var ns := ListOf(MarkedNamespaces(s, op, o, a));
    var mine, claim := Marks(ns, o, now), Act(ClaimNs(op, Rival(o), n, "x", ALL_GOOD));
    MarksAreOwn(ns, o, now);
    OthersFirst(claim, mine, o);
    moves := [claim] + mine;
    assert CleanupSchedule(s, op, o, now, a, moves);
    assert moves[..1] == [claim] && moves[1..] == mine && [] + [claim] == [claim];
    InterleaveOneMore(s, [], claim);
    InterleaveNothing(s);
    ListedIsTakeable(s, op, o, a, n);
    RivalClaims(s, n, op, o);
    InterleaveConcat(s, moves[..1], mine);
    MarkedIsUnclaimed(Interleave(s, moves[..1]), ns, o, now, n, Rival(o));
    NamespaceLostSince(s, moves, 1, n, o, Rival(o));
  }

  lemma NamespaceLostSince(s: State, moves: seq<Move>, p: nat, n: string, o: Owner, o2: Owner)
    requires p <= |moves| && o2 != o && ClaimsNamespace(Interleave(s, moves[..p]), n, o2)
    requires forall m :: m in moves[p..] ==> Mover(m) == o
    requires !ClaimsNamespace(Interleave(s, moves), n, o2)
    ensures !NamespaceClaimsSurvive(s, moves, n, o)
  {
    assert ByOthers(moves[p..], o2);
  }

  /**
    Exactly which namespaces are safe from the cleanup of a deleted CR: those not listed
    (or whose update fails), and those listed with its live stamped claim. Not so one that
    an earlier, failed attempt has marked already, nor one with a claim by name only.
   */
  lemma SafeFromCleanupExactly(s: State, op: Operator, o: Owner, now: NonEmpty, a: OrphanAnswers, n: string)
    ensures SafeFromCleanup(s, op, o, now, a, n) <==> n !in MarkedNamespaces(s, op, o, a) || ClaimsNamespace(s, n, o)
  {
    hide MarkedNamespaces, CleanupSchedule, NamespaceClaimsSurvive, ClaimsNamespace;
    if n !in MarkedNamespaces(s, op, o, a) || ClaimsNamespace(s, n, o) {
      CleanupShelteredIsSafe(s, op, o, now, a, n);
    } else {
      var moves := LateMarkIsLost(s, op, o, now, a, n);
    }
  }

  /**
    The second attempt of a cleanup: a namespace it marked before is adopted, listed all the
    same, and marked again.
   */
  lemma LateMarkExample(op: Operator, o: Owner, o2: Owner, now: NonEmpty)
    requires o2 != o
    ensures var mine := NO_NAMESPACE.(annotations := map[BinderKey := o.name, BinderNamespaceKey := o.namespace,
                                                         OrphanedAtKey := now],
                                      labels := map[ManagedByLabel := op.managedBy]);
            var s := State(map["shop" := mine], map[], map[]);
            var adopt, mark := Act(ClaimNs(op, o2, "shop", now, ALL_GOOD)), MarkNs(o, "shop", now);
            && Judged(s, mark)
            && ClaimsNamespace(Interleave(s, [adopt]), "shop", o2)
            && var t := Interleave(s, [adopt, mark]);
               "shop" in t.namespaces && Get(t.namespaces["shop"].annotations, OrphanedAtKey) == now
  {
    var mine := NO_NAMESPACE.(annotations := map[BinderKey := o.name, BinderNamespaceKey := o.namespace,
                                                 OrphanedAtKey := now],
                              labels := map[ManagedByLabel := op.managedBy]);
    var s := State(map["shop" := mine], map[], map[]);
    var adopt, mark := Act(ClaimNs(op, o2, "shop", now, ALL_GOOD)), MarkNs(o, "shop", now);
    assert [] + [adopt] == [adopt] && [adopt] + [mark] == [adopt, mark];
    InterleaveNothing(s);
    InterleaveOneMore(s, [], adopt);
    InterleaveOneMore(s, [adopt], mark);
  }

  // ---------- the loops of the cleanup are such moves ----------

  /** The others' operations before each mark, and the mark if its update succeeds. */
  function CleanupMoves(order: seq<string>, o: Owner, now: NonEmpty, ok: string -> bool,
                        acts: string -> seq<Move>): seq<Move> {
    if order == [] then []
    else
      var n := |order| - 1;
      CleanupMoves(order[..n], o, now, ok, acts) + acts(order[n])
      + (if ok(order[n]) then [MarkNs(o, order[n], now)] else [])
  }

  lemma {:induction false} CleanupIsMoves(s: State, order: seq<string>, o: Owner, now: NonEmpty, ok: string -> bool,
                                          meanwhile: Meanwhile, acts: string -> seq<Move>)
    requires forall n, t :: meanwhile.namespace(n)(t) == Interleave(t, acts(n))
    ensures MarkNamespaces(s, order, now, ok, meanwhile) == Interleave(s, CleanupMoves(order, o, now, ok, acts))
  {
    hide Interleave, MarkNamespace;
    if order == [] {
      InterleaveNothing(s);
    } else {
      var n := |order| - 1;
      var before, act := CleanupMoves(order[..n], o, now, ok, acts), acts(order[n]);
      CleanupIsMoves(s, order[..n], o, now, ok, meanwhile, acts);
      InterleaveConcat(s, before, act);
      if ok(order[n]) {
        InterleaveOneMore(s, before + act, MarkNs(o, order[n], now));
      } else {
        assert before + act + [] == before + act;
      }
    }
  }

  lemma MoreOthers(before: seq<Move>, acts: seq<Move>, mine: seq<Move>, o: Owner)
    requires Schedule(before, mine, o) && forall m :: m in acts ==> m.Act? && Mover(m) != o
    ensures Schedule(before + acts, mine, o)
  {
    OwnConcat(before, acts, o);
    NoneOwn(acts, o);
  }

  lemma MoreOwn(before: seq<Move>, m: Move, mine: seq<Move>, o: Owner)
    requires Schedule(before, mine, o) && Mover(m) == o
    ensures Schedule(before + [m], mine + [m], o)
  {
    OwnConcat(before, [m], o);
    AllOwn([m], o);
  }

  /** Such a loop, over the listed namespaces with others' operations in between, is a schedule of the cleanup. */
  lemma {:induction false} CleanupMovesAreScheduled(order: seq<string>, o: Owner, now: NonEmpty, ok: string -> bool,
                                                    acts: string -> seq<Move>) returns (ns: seq<string>)
    requires Distinct(order)
    requires forall n, m :: m in acts(n) ==> m.Act? && Mover(m) != o
    ensures Distinct(ns) && forall n :: n in ns <==> n in order && ok(n)
    ensures Schedule(CleanupMoves(order, o, now, ok, acts), Marks(ns, o, now), o)
  {
    hide Schedule;
    if order == [] {
      ns := [];
      assert Schedule([], Marks(ns, o, now), o) by { NothingScheduled(o, now); }
    } else {
      var last := |order| - 1;
      var init, n := order[..last], order[last];
      assert order == init + [n] && n !in init;
      ns := CleanupMovesAreScheduled(init, o, now, ok, acts);
      var before := CleanupMoves(init, o, now, ok, acts);
      MoreOthers(before, acts(n), Marks(ns, o, now), o);
      if ok(n) {
        MoreOwn(before + acts(n), MarkNs(o, n, now), Marks(ns, o, now), o);
        assert Marks(ns + [n], o, now) == Marks(ns, o, now) + [MarkNs(o, n, now)];
        assert n !in ns;
        ns := ns + [n];
      } else {
        assert before + acts(n) + [] == before + acts(n);
      }
    }
  }

  lemma NothingScheduled(o: Owner, now: NonEmpty)
    ensures Schedule([], Marks([], o, now), o)
  {}

  lemma {:induction false} NoneOwn(moves: seq<Move>, o: Owner)
    requires forall m :: m in moves ==> Mover(m) != o
    ensures Own(moves, o) == []
  {
    if moves == [] {
    } else {
      assert moves == moves[..|moves| - 1] + [moves[|moves| - 1]];
      NoneOwn(moves[..|moves| - 1], o);
    }
  }

  /** A RoleBinding is marked only if it is still the object that was judged; that never meets another's live claim. */
  lemma ListedMarkIsSafe(s: State, m: Move, k: Key, o: Owner)
    requires ClaimsBinding(s, k, o) && m.MarkRb? && m.owner != o && IsOwnedBy(m.seen.annotations, m.owner)
    ensures SameBinding(s, Advance(s, m), k)
  {
    LiveClaimExcludesOthers(s.roleBindings[k].annotations, o, m.owner);
  }

  // ---------- the recreation of an account's RoleBinding ----------

  /** It was read as takeable and not as wanted, so it is going to be deleted and made anew. */
  predicate OutOfDate(s: State, e: Entry, o: Owner) {
    e.BindingKey() in s.roleBindings && !BindingRefused(s, e.BindingKey(), o)
    && !UpToDate(s.roleBindings[e.BindingKey()], e)
  }

  function RecreateMoves(s: State, e: Entry, op: Operator, o: Owner, recreateOk: bool): seq<Move> {
    if !OutOfDate(s, e, o) then []
    else if recreateOk then [Drop(o, e.BindingKey()), Make(o, op, e)]
    else [Drop(o, e.BindingKey())]
  }

  /** Undisturbed, the two calls make up the one step. */
  lemma RecreateIsMoves(s: State, e: Entry, op: Operator, o: Owner, a: AccountAnswer)
    requires OutOfDate(s, e, o) && a.getBindingOk && a.writeBindingOk
    ensures ServiceAccounts.BindAccount(s, e, op, o, a).0 == Interleave(s, RecreateMoves(s, e, op, o, a.recreateOk))
    ensures Warranted(s, RecreateMoves(s, e, op, o, a.recreateOk))
  {
    hide UpToDate, NewBinding;
    var drop, make := Drop(o, e.BindingKey()), Make(o, op, e);
    assert [] + [drop] == [drop] && [drop] + [make] == [drop, make];
    InterleaveNothing(s);
    InterleaveOneMore(s, [], drop);
    InterleaveOneMore(s, [drop], make);
    assert s.roleBindings[e.BindingKey() := NewBinding(e, op, o)]
        == (s.roleBindings - {e.BindingKey()})[e.BindingKey() := NewBinding(e, op, o)];
    AllJudgedAtStart(s, RecreateMoves(s, e, op, o, a.recreateOk));
  }

  ghost predicate SafeFromRecreation(s: State, e: Entry, op: Operator, o: Owner, recreateOk: bool) {
    forall moves :: Schedule(moves, RecreateMoves(s, e, op, o, recreateOk), o) ==>
      BindingClaimsSurvive(s, moves, e.BindingKey(), o)
  }

  lemma RivalRecreates(s: State, e: Entry, op: Operator, o: Owner)
    requires OutOfDate(s, e, o) && !ClaimsBinding(s, e.BindingKey(), o)
    ensures ClaimsBinding(Step(s, Action.BindAccount(op, Rival(o), e, ACCOUNT_ALL_GOOD)), e.BindingKey(), Rival(o))
  {
    RivalMayTake(s.roleBindings[e.BindingKey()].annotations, o);
  }

  lemma RecreatedIsLost(s: State, e: Entry, op: Operator, o: Owner, recreateOk: bool, o2: Owner)
    requires OutOfDate(s, e, o) && o2 != o
    ensures forall t :: !ClaimsBinding(Interleave(t, RecreateMoves(s, e, op, o, recreateOk)), e.BindingKey(), o2)
  {
    hide UpToDate;
    var drop, make := Drop(o, e.BindingKey()), Make(o, op, e);
    assert [] + [drop] == [drop] && [drop] + [make] == [drop, make];
    forall t: State
      ensures !ClaimsBinding(Interleave(t, RecreateMoves(s, e, op, o, recreateOk)), e.BindingKey(), o2)
    {
      InterleaveNothing(t);
      InterleaveOneMore(t, [], drop);
      InterleaveOneMore(t, [drop], make);
    }
  }

  lemma RecreationIsOwn(s: State, e: Entry, op: Operator, o: Owner, recreateOk: bool)
    ensures var k, mine := e.BindingKey(), RecreateMoves(s, e, op, o, recreateOk);
            && (forall m :: m in mine ==> Mover(m) == o)
            && (!OutOfDate(s, e, o) || ClaimsBinding(s, k, o) ==> BindingSheltered(s, mine, k, o))
  {
    hide OutOfDate, ClaimsBinding;
    var drop, make := Drop(o, e.BindingKey()), Make(o, op, e);
    assert multiset([drop, make])[drop] == 1;
  }

  /**
    Exactly when claims on an account's RoleBinding are safe from a recreation under way:
    when it was up to date or refused or missing, or was read with a live claim of the CR itself.
   */
  lemma SafeFromRecreationExactly(s: State, e: Entry, op: Operator, o: Owner, recreateOk: bool)
    ensures SafeFromRecreation(s, e, op, o, recreateOk) <==> !OutOfDate(s, e, o) || ClaimsBinding(s, e.BindingKey(), o)
  {
    hide BindingClaimsSurvive, ClaimsBinding, OutOfDate, Step, Interleave, RecreateMoves, BindingSheltered;
    var k, mine := e.BindingKey(), RecreateMoves(s, e, op, o, recreateOk);
    RecreationIsOwn(s, e, op, o, recreateOk);
    if !OutOfDate(s, e, o) || ClaimsBinding(s, k, o) {
      forall moves | Schedule(moves, mine, o)
        ensures BindingClaimsSurvive(s, moves, k, o)
      {
        ShelteredSurvives(s, mine, moves, k, o);
      }
    } else {
      var bind := Act(Action.BindAccount(op, Rival(o), e, ACCOUNT_ALL_GOOD));
      OthersFirst(bind, mine, o);
      var moves := [bind] + mine;
      assert moves[..1] == [bind] && moves[1..] == mine && [] + [bind] == [bind];
      InterleaveNothing(s);
      InterleaveOneMore(s, [], bind);
      RivalRecreates(s, e, op, o);
      InterleaveConcat(s, moves[..1], mine);
      RecreatedIsLost(s, e, op, o, recreateOk, Rival(o));
      LostSince(s, moves, 1, k, o, Rival(o));
    }
  }
}
