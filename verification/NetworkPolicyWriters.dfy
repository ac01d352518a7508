/**
  Any number of writers of status entries at once (network_policy_status.go): each runs
  the retry loop of its own update against the one store that checks resource versions,
  and their calls mix in any order. Every read may be answered with an old version. Beside
  them stale checks write whole copies that they never read again.

  Main result: whatever the schedule, the committed versions form one sequential history.
  Each successful writer owns exactly one version, the update of the version before it;
  every version after the first is a stale check's or has exactly one owner; a failed
  writer owns none.
 */
module NetworkPolicyWriters {
  import opened Strings
  import opened NetworkPolicyStatus

  /** What a writer has read and edited and not yet written. */
  datatype Pending = Pending(version: nat, entries: Entries)

  /** Where a writer is in its loop: the attempt it is at, what it holds, and the version it committed. */
  datatype Writer = Writer(attempt: nat, pending: Option<Pending>, committed: Option<nat>)

  /** `checked` are the versions that stale checks committed. */
  datatype System = System(log: seq<Entries>, writers: seq<Writer>, checked: set<nat>)

  /**
    One call of one writer. A read answers with any version; a write can fail by itself. A
    stale check writes its copy, which is some version with some entries marked.
   */
  datatype Call =
    | StaleWrite(version: nat, marked: set<string>, cutoff: int, ok: bool)
    | ReadFails(writer: nat)
    | Read(writer: nat, version: nat)
    | Write(writer: nat, ok: bool)

  predicate Running(w: Writer) {
    w.committed.None? && w.attempt < MAX_RETRIES
  }

  /** A call that the loop of that writer makes now. */
  predicate Enabled(sys: System, c: Call) {
    if c.StaleWrite? then c.version < |sys.log| else WriterEnabled(sys, c)
  }

  predicate WriterEnabled(sys: System, c: Call)
    requires !c.StaleWrite?
  {
    && c.writer < |sys.writers| && Running(sys.writers[c.writer])
    && (if c.Write? then sys.writers[c.writer].pending.Some? else sys.writers[c.writer].pending.None?)
    && (c.Read? ==> c.version < |sys.log|)
  }

  function Perform(sys: System, updates: seq<Update>, c: Call): System
    requires Enabled(sys, c) && |updates| == |sys.writers|
  {
    match c
    case StaleWrite(version, marked, cutoff, ok) =>
      if ok && version == |sys.log| - 1 then
        sys.(log := sys.log + [MarkStale(sys.log[version], marked, cutoff)], checked := sys.checked + {|sys.log|})
      else sys
    case ReadFails(i) =>
      var w := sys.writers[i];
      sys.(writers := sys.writers[i := w.(attempt := w.attempt + 1)])
    case Read(i, version) =>
      var w := sys.writers[i];
      sys.(writers := sys.writers[i := w.(pending := Some(Pending(version, updates[i](sys.log[version], w.attempt))))])
    case Write(i, ok) =>
      var w := sys.writers[i];
      if ok && w.pending.value.version == |sys.log| - 1 then
        sys.(log := sys.log + [w.pending.value.entries],
             writers := sys.writers[i := w.(pending := None, committed := Some(|sys.log|))])
      else sys.(writers := sys.writers[i := Writer(w.attempt + 1, None, None)])
  }

  /** A schedule: calls one after the other, each one its writer makes at that point. */
  ghost predicate Possible(initial: Entries, updates: seq<Update>, calls: seq<Call>)
    decreases |calls|, 0
  {
    calls == [] ||
    (&& Possible(initial, updates, calls[..|calls| - 1])
     && Enabled(After(initial, updates, calls[..|calls| - 1]), calls[|calls| - 1]))
  }

  function Start(initial: Entries, updates: seq<Update>): System {
    System([initial], seq(|updates|, i => Writer(0, None, None)), {})
  }

  ghost function After(initial: Entries, updates: seq<Update>, calls: seq<Call>): (sys: System)
    requires Possible(initial, updates, calls)
    ensures |sys.writers| == |updates|
    decreases |calls|, 1
  {
    if calls == [] then Start(initial, updates)
    else Perform(After(initial, updates, calls[..|calls| - 1]), updates, calls[|calls| - 1])
  }

  // ---------- the invariant ----------

  /** What a writer holds is its update of the version it read. */
  ghost predicate Faithful(sys: System, updates: seq<Update>, i: nat)
    requires i < |sys.writers| == |updates|
  {
    var w := sys.writers[i];
    && w.attempt <= MAX_RETRIES
    && (w.pending.Some? ==>
          && w.pending.value.version < |sys.log| && w.committed.None?
          && w.pending.value.entries == updates[i](sys.log[w.pending.value.version], w.attempt))
  }

  /** Version `v` is writer `i`'s update of the version before it. */
  ghost predicate Owns(sys: System, updates: seq<Update>, i: nat, v: nat)
    requires i < |sys.writers| == |updates|
  {
    && sys.writers[i].committed == Some(v) && 0 < v < |sys.log|
    && sys.log[v] == updates[i](sys.log[v - 1], sys.writers[i].attempt)
  }

  ghost predicate Owned(sys: System, updates: seq<Update>, v: nat)
    requires |sys.writers| == |updates|
  {
    exists i :: 0 <= i < |updates| && Owns(sys, updates, i, v)
  }

  /** Version `v` is the one before it with some overdue PRs marked. */
  ghost predicate Checked(sys: System, v: nat) {
    0 < v < |sys.log| && IsStaleCheck(sys.log[v - 1], sys.log[v])
  }

  ghost predicate IsStaleCheck(es: Entries, next: Entries) {
    exists h: Happening :: h.StaleCheck? && IsNext(es, h, next)
  }

  ghost predicate Good(sys: System, updates: seq<Update>) {
    && sys.log != [] && |sys.writers| == |updates|
    && (forall i :: 0 <= i < |updates| ==> Faithful(sys, updates, i))
    && (forall i :: 0 <= i < |updates| && sys.writers[i].committed.Some? ==>
          Owns(sys, updates, i, sys.writers[i].committed.value))
    && (forall v :: 0 < v < |sys.log| ==> if v in sys.checked then Checked(sys, v) else Owned(sys, updates, v))
    && (forall v :: v in sys.checked ==> 0 < v < |sys.log|)
    && (forall i :: 0 <= i < |updates| && sys.writers[i].committed.Some? ==>
          sys.writers[i].committed.value !in sys.checked)
    && (forall i, j :: 0 <= i < j < |updates| && sys.writers[i].committed.Some? ==>
          sys.writers[i].committed != sys.writers[j].committed)
  }

  lemma StartIsGood(initial: Entries, updates: seq<Update>)
    ensures Good(Start(initial, updates), updates)
  {}

  /** A version in the log stays there, so who owns what does not change when the log grows or others move. */
  lemma OwnsKept(sys: System, next: System, updates: seq<Update>, i: nat, v: nat)
    requires i < |updates| && |sys.writers| == |next.writers| == |updates|
    requires sys.log <= next.log && next.writers[i] == sys.writers[i] && Owns(sys, updates, i, v)
    ensures Owns(next, updates, i, v)
  {}

  lemma FaithfulKept(sys: System, next: System, updates: seq<Update>, i: nat)
    requires i < |updates| && |sys.writers| == |next.writers| == |updates|
    requires sys.log <= next.log && next.writers[i] == sys.writers[i] && Faithful(sys, updates, i)
    ensures Faithful(next, updates, i)
  {}

  lemma CheckedKept(sys: System, next: System, v: nat)
    requires sys.log <= next.log && Checked(sys, v)
    ensures Checked(next, v)
  {
    assert next.log[v - 1] == sys.log[v - 1] && next.log[v] == sys.log[v];
  }

  lemma StaleWriteIsGood(sys: System, updates: seq<Update>, c: Call)
    requires Good(sys, updates) && Enabled(sys, c) && c.StaleWrite?
    ensures Good(Perform(sys, updates, c), updates)
    ensures sys.log <= Perform(sys, updates, c).log
  {
    hide Owns, Faithful, Checked, MarkStale;
    var next := Perform(sys, updates, c);
    assert sys.log <= next.log;
    forall i | 0 <= i < |updates|
      ensures Faithful(next, updates, i)
      ensures next.writers[i].committed.Some? ==>
                Owns(next, updates, i, next.writers[i].committed.value)
                && next.writers[i].committed.value !in next.checked
    {
      FaithfulKept(sys, next, updates, i);
      CommittedInLog(sys, updates, i);
      if sys.writers[i].committed.Some? {
        OwnsKept(sys, next, updates, i, sys.writers[i].committed.value);
      }
    }
    forall v | 0 < v < |next.log|
      ensures if v in next.checked then Checked(next, v) else Owned(next, updates, v)
    {
      if v < |sys.log| {
        if v in sys.checked {
          CheckedKept(sys, next, v);
        } else {
          assert Owned(sys, updates, v);
          var i :| 0 <= i < |updates| && Owns(sys, updates, i, v);
          OwnsKept(sys, next, updates, i, v);
        }
      } else {
        NewlyChecked(sys, next, c.marked, c.cutoff);
      }
    }
  }

  lemma NewlyChecked(sys: System, next: System, marked: set<string>, cutoff: int)
    requires sys.log != [] && next.log == sys.log + [MarkStale(sys.log[|sys.log| - 1], marked, cutoff)]
    ensures Checked(next, |sys.log|)
  {
    var v := |sys.log|;
    assert IsNext(next.log[v - 1], StaleCheck(marked, cutoff), next.log[v]);
  }

  lemma PerformIsGood(sys: System, updates: seq<Update>, c: Call)
    requires Good(sys, updates) && Enabled(sys, c)
    ensures Good(Perform(sys, updates, c), updates)
    ensures sys.log <= Perform(sys, updates, c).log
  {
    if c.StaleWrite? {
      StaleWriteIsGood(sys, updates, c);
    } else {
      WriterCallIsGood(sys, updates, c);
    }
  }

  lemma WriterCallIsGood(sys: System, updates: seq<Update>, c: Call)
    requires Good(sys, updates) && Enabled(sys, c) && !c.StaleWrite?
    ensures Good(Perform(sys, updates, c), updates)
    ensures sys.log <= Perform(sys, updates, c).log
  {
    hide Owns, Faithful, Checked;
    var next := Perform(sys, updates, c);
    assert sys.log <= next.log;
    CallerIsGood(sys, updates, c);
    forall i | 0 <= i < |updates|
      ensures Faithful(next, updates, i)
      ensures next.writers[i].committed.Some? ==> Owns(next, updates, i, next.writers[i].committed.value)
    {
      if i != c.writer {
        FaithfulKept(sys, next, updates, i);
        if sys.writers[i].committed.Some? {
          OwnsKept(sys, next, updates, i, sys.writers[i].committed.value);
        }
      }
    }
    forall v | 0 < v < |next.log|
      ensures if v in next.checked then Checked(next, v) else Owned(next, updates, v)
    {
      if v < |sys.log| && v in sys.checked {
        CheckedKept(sys, next, v);
      } else if v < |sys.log| {
        assert Owned(sys, updates, v);
        var i :| 0 <= i < |updates| && Owns(sys, updates, i, v);
        OwnerCommitted(sys, updates, i, v);
        OwnsKept(sys, next, updates, i, v);
      } else {
        assert Owns(next, updates, c.writer, v);
      }
    }
    forall i, j | 0 <= i < j < |updates| && next.writers[i].committed.Some?
      ensures next.writers[i].committed != next.writers[j].committed
    {
      CommittedInLog(sys, updates, i);
      CommittedInLog(sys, updates, j);
    }
  }

  lemma CommittedInLog(sys: System, updates: seq<Update>, i: nat)
    requires Good(sys, updates) && i < |updates|
    ensures sys.writers[i].committed.Some? ==> sys.writers[i].committed.value < |sys.log|
  {
    if sys.writers[i].committed.Some? {
      assert Owns(sys, updates, i, sys.writers[i].committed.value);
    }
  }

  lemma OwnerCommitted(sys: System, updates: seq<Update>, i: nat, v: nat)
    requires i < |sys.writers| == |updates| && Owns(sys, updates, i, v)
    ensures sys.writers[i].committed == Some(v)
  {}

  lemma CallerIsGood(sys: System, updates: seq<Update>, c: Call)
    requires Good(sys, updates) && Enabled(sys, c) && !c.StaleWrite?
    ensures var next := Perform(sys, updates, c);
            && Faithful(next, updates, c.writer)
            && (next.writers[c.writer].committed.Some? ==>
                  && |next.log| == |sys.log| + 1
                  && next.writers[c.writer].committed == Some(|sys.log|)
                  && Owns(next, updates, c.writer, |sys.log|))
            && (next.writers[c.writer].committed.None? ==> next.log == sys.log)
  {
    assert Faithful(sys, updates, c.writer);
  }

  lemma {:induction false} AlwaysGood(initial: Entries, updates: seq<Update>, calls: seq<Call>)
    requires Possible(initial, updates, calls)
    ensures Good(After(initial, updates, calls), updates)
    ensures After(initial, updates, calls).log[0] == initial
  {
    hide Good, Enabled, Perform;
    if calls == [] {
      StartIsGood(initial, updates);
    } else {
      var n := |calls| - 1;
      AlwaysGood(initial, updates, calls[..n]);
      var sys := After(initial, updates, calls[..n]);
      PerformIsGood(sys, updates, calls[n]);
      assert sys.log != [] by { GoodLog(sys, updates); }
    }
  }

  lemma GoodLog(sys: System, updates: seq<Update>)
    requires Good(sys, updates)
    ensures sys.log != []
  {}

  // ---------- one history ----------

  /**
    Any number of writers at once make one sequential history. Each success owns exactly
    one version, the writer's update of the version right before it; each version after
    the first is a stale check of the one before it or has exactly one owner, and not both;
    who has used up its attempts owns none. And as the updates are the operator's, no
    version ever has two entries for a namespace.
   */
  lemma WritersMakeHistory(initial: Entries, updates: seq<Update>, calls: seq<Call>)
    requires Possible(initial, updates, calls)
    requires Unique(initial) && forall i :: 0 <= i < |updates| ==> Happens(updates[i])
    ensures var sys := After(initial, updates, calls);
            && IsHistory(sys.log)
            && (forall v :: 0 <= v < |sys.log| ==> Unique(sys.log[v]))
            && (forall v :: 0 < v < |sys.log| ==> if v in sys.checked then Checked(sys, v) else Owned(sys, updates, v))
            && (forall v, i :: 0 <= i < |updates| && Owns(sys, updates, i, v) ==> v !in sys.checked)
            && (forall v, i, j ::
                  (0 <= i < |updates| && 0 <= j < |updates| && Owns(sys, updates, i, v)
                   && Owns(sys, updates, j, v)) ==> i == j)
            && (forall i :: 0 <= i < |updates| && sys.writers[i].committed.Some? ==>
                  Owns(sys, updates, i, sys.writers[i].committed.value))
            && (forall i, v :: 0 <= i < |updates| && !Running(sys.writers[i]) && sys.writers[i].committed.None? ==>
                  !Owns(sys, updates, i, v))
  {
    hide Possible, Happen, Unique;
    AlwaysGood(initial, updates, calls);
    var sys := After(initial, updates, calls);
    forall v | 0 < v < |sys.log|
      ensures Follows(sys.log[v], sys.log[v - 1])
    {
      if v in sys.checked {
        assert Checked(sys, v);
        CheckedFollows(sys, v);
      } else {
        assert Owned(sys, updates, v);
        var i :| 0 <= i < |updates| && Owns(sys, updates, i, v);
        assert Happens(updates[i]);
        assert Follows(updates[i](sys.log[v - 1], sys.writers[i].attempt), sys.log[v - 1]);
      }
    }
    forall v | 0 <= v < |sys.log|
      ensures Unique(sys.log[v])
    {
      HistoryKeepsUnique(sys.log, v);
    }
  }

  lemma CheckedFollows(sys: System, v: nat)
    requires Checked(sys, v)
    ensures Follows(sys.log[v], sys.log[v - 1])
  {
    var es, next := sys.log[v - 1], sys.log[v];
    var h: Happening :| h.StaleCheck? && IsNext(es, h, next);
  }

  /**
    With the operator's own updates and stale checks, for any namespaces, PRs and clocks, the
    premise on updates holds.
   */
  lemma OperatorsMakeHistory(initial: Entries, updates: seq<Update>, calls: seq<Call>)
    requires Possible(initial, updates, calls) && Unique(initial)
    requires forall i :: 0 <= i < |updates| ==> IsOperators(updates[i])
    ensures var log := After(initial, updates, calls).log;
            IsHistory(log) && forall v :: 0 <= v < |log| ==> Unique(log[v])
  {
    hide Possible, Unique, IsHistory;
    forall i | 0 <= i < |updates|
      ensures Happens(updates[i])
    {
      OperatorsHappen(updates[i]);
    }
    WritersMakeHistory(initial, updates, calls);
  }

  /** The update of UpdateWithPR, or that of CleanupStatus. */
  ghost predicate IsOperators(update: Update) {
    || (exists namespace, pr, state, clock :: update == PRUpdate(namespace, pr, state, clock))
    || (exists current, clock, started, retention :: update == CleanFrom(current, clock, started, retention))
  }

  function CleanFrom(current: set<string>, clock: nat -> int, started: int, retention: int): Update {
    CleanUpdate(current, clock, started - retention)
  }

  lemma OperatorsHappen(update: Update)
    requires IsOperators(update)
    ensures Happens(update)
  {
    if namespace, pr, state, clock :| update == PRUpdate(namespace, pr, state, clock) {
      UpdatesHappen(namespace, pr, state, {}, 0, 0, clock);
    } else {
      var current, clock, started, retention :| update == CleanFrom(current, clock, started, retention);
      UpdatesHappen("", PullRequest(0, "", ""), "", current, started, retention, clock);
    }
  }

  // ---------- a stale check writes copies ----------

  /** Each write of a stale check, among others' commits, is such a call: its copy is a version with entries marked. */
  lemma StaleWriteIsCall(log: seq<Entries>, version: nat, n: nat, cutoff: int, rounds: nat -> StaleRound,
                         sys: System, updates: seq<Update>)
    requires version < |log| && n < |log[version]| && Unique(log[version]) && |sys.writers| == |updates|
    requires var (l, es, v) := StaleWrites(log, version, n, cutoff, rounds);
             IsStale(es[n], cutoff) && sys.log == l + rounds(n).meanwhile
    ensures var (l, es, v) := StaleWrites(log, version, n, cutoff, rounds);
            && |l[v]| == |log[version]|
            && var call := StaleWrite(v, Names(l[v][..n + 1]), cutoff, rounds(n).updateOk);
               Enabled(sys, call)
               && Perform(sys, updates, call).log == StaleWrites(log, version, n + 1, cutoff, rounds).0
  {
    hide MarkStale, Unique, Names, IsStale, MarkStaleEntry;
    StaleCopy(log, version, n, cutoff, rounds);
    var (l, es, v) := StaleWrites(log, version, n, cutoff, rounds);
    MarkStaleAt(l[v], n, cutoff);
    NotYetMarked(l[v], n, cutoff);
  }

  // ---------- a writer runs the retry loop ----------

  /** One attempt of a writer among the others: what the loop's own specification says of it. */
  lemma AttemptIsCalls(sys: System, mid: System, late: System, updates: seq<Update>, i: nat, round: Round)
    requires Good(sys, updates) && i < |updates| && Running(sys.writers[i]) && sys.writers[i].pending.None?
    requires round.getOk
    // Others commit, this writer reads, others commit again, this writer writes.
    requires Good(mid, updates) && mid.log == sys.log + round.before && mid.writers[i] == sys.writers[i]
    requires var read := Read(i, ReadVersion(mid.log, round.behind));
             && Enabled(mid, read)
             && var after := Perform(mid, updates, read);
                late.log == after.log + round.meanwhile && |late.writers| == |updates|
                && late.writers[i] == after.writers[i]
    ensures Enabled(late, Write(i, round.updateOk))
    ensures var next := Perform(late, updates, Write(i, round.updateOk));
            && late.log == LogAtWrite(sys.log, round)
            && next.log == (if Wins(sys.log, round)
                            then late.log + [updates[i](late.log[|late.log| - 1], sys.writers[i].attempt)]
                            else late.log)
            && (next.writers[i].committed.Some? <==> Wins(sys.log, round))
            && (!Wins(sys.log, round) ==> next.writers[i] == Writer(sys.writers[i].attempt + 1, None, None))
  {}
}
