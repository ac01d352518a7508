/**
  The status entries of NetworkPolicy management, one for each namespace, kept in the CR
  and written with a retry loop against a store that checks resource versions
  (network_policy_status.go), and the selection of removed namespaces
  (networkpolicy/reconciliation_cleanup.go).

  Main results: the retry loops are linearizable; the life of an entry over any run.
 */
module NetworkPolicyStatus {
  import opened Strings

  // ---------- entries ----------

  /** A time as text: absent, a time in seconds, or something that does not parse. */
  datatype TimeText = Absent | At(time: int) | Garbled

  datatype Entry = Entry(
    namespace: string, state: string, prNumber: Option<int>, prBranch: string, prURL: string,
    createdAt: TimeText, errorMessage: string, removedAt: TimeText)

  type Entries = seq<Entry>

  const REMOVED := "removed"
  const DAY := 86400
  const DEFAULT_RETENTION_DAYS := 30

  predicate Unique(es: Entries) {
    forall i, j :: 0 <= i < j < |es| ==> es[i].namespace != es[j].namespace
  }

  /** The position of the first entry for a namespace, or the length. */
  function Position(es: Entries, namespace: string): (i: nat)
    ensures i <= |es|
    ensures i < |es| ==> es[i].namespace == namespace
    ensures forall j :: 0 <= j < i ==> es[j].namespace != namespace
  {
    if es == [] || es[0].namespace == namespace then 0 else 1 + Position(es[1..], namespace)
  }

  function Lookup(es: Entries, namespace: string): Option<Entry> {
    var i := Position(es, namespace);
    if i < |es| then Some(es[i]) else None
  }

  lemma LookupIs(es: Entries, i: nat)
    requires Unique(es) && i < |es|
    ensures Lookup(es, es[i].namespace) == Some(es[i])
  {
    var p := Position(es, es[i].namespace);
    assert !(p < i) && !(i < p);
  }

  lemma LookupNone(es: Entries, namespace: string)
    ensures Lookup(es, namespace).None? <==> forall e :: e in es ==> e.namespace != namespace
  {
    if p: nat :| p < |es| && es[p].namespace == namespace {
      assert Position(es, namespace) <= p;
    }
  }

  // ---------- the three updates ----------

  datatype PullRequest = PullRequest(number: int, branch: string, url: string)

  function WithPR(e: Entry, pr: PullRequest, state: string, now: int): Entry {
    e.(state := state, prNumber := Some(pr.number), prBranch := pr.branch, prURL := pr.url,
       createdAt := if e.createdAt.Absent? then At(now) else e.createdAt)
  }

  function NewEntry(namespace: string, state: string): Entry {
    Entry(namespace, state, None, "", "", Absent, "", Absent)
  }

  function PutPR(es: Entries, namespace: string, pr: PullRequest, state: string, now: int): Entries {
    var i := Position(es, namespace);
    if i < |es| then es[i := WithPR(es[i], pr, state, now)]
    else es + [WithPR(NewEntry(namespace, state), pr, state, now)]
  }

  function RetentionSeconds(days: int): int {
    (if days == 0 then DEFAULT_RETENTION_DAYS else days) * DAY
  }

  /** What cleaning makes of one entry; None when it is dropped. */
  function CleanEntry(e: Entry, current: set<string>, now: int, cutoff: int): Option<Entry> {
    if e.namespace in current then Some(e)
    else if e.state == REMOVED then
      if e.removedAt.At? && e.removedAt.time > cutoff then Some(e) else None
    else Some(e.(state := REMOVED, removedAt := At(now)))
  }

  function Clean(es: Entries, current: set<string>, now: int, cutoff: int): Entries {
    if es == [] then []
    else
      var n := |es| - 1;
      match CleanEntry(es[n], current, now, cutoff)
      case None => Clean(es[..n], current, now, cutoff)
      case Some(e) => Clean(es[..n], current, now, cutoff) + [e]
  }

  /** A PR that has been open since before the cutoff. */
  predicate IsStale(e: Entry, cutoff: int) {
    e.state in {"pr-created", "pr-pending"} && e.createdAt.At? && e.createdAt.time < cutoff
  }

  function MarkStaleEntry(e: Entry, cutoff: int): Entry {
    if IsStale(e, cutoff) then e.(state := "pr-stale") else e
  }

  function MarkStale(es: Entries, marked: set<string>, cutoff: int): Entries {
    seq(|es|, i requires 0 <= i < |es| => if es[i].namespace in marked then MarkStaleEntry(es[i], cutoff) else es[i])
  }

  // ---------- a store that checks resource versions ----------

  /**
    What others do during one attempt, and how the calls go: versions committed before
    the read, how far behind the cache is that answers the read, versions committed
    between read and write.
   */
  datatype Round = Round(
    before: seq<Entries>, getOk: bool, behind: nat, meanwhile: seq<Entries>, updateOk: bool)

  type Update = (Entries, nat) -> Entries

  function PRUpdate(namespace: string, pr: PullRequest, state: string, clock: nat -> int): Update {
    (es: Entries, attempt: nat) => PutPR(es, namespace, pr, state, clock(attempt))
  }

  function CleanUpdate(current: set<string>, clock: nat -> int, cutoff: int): Update {
    (es: Entries, attempt: nat) => Clean(es, current, clock(attempt), cutoff)
  }

  const MAX_RETRIES := 3

  /** The version a read answers with, so many behind the latest. */
  function ReadVersion(log: seq<Entries>, behind: nat): nat
    requires log != []
  {
    if behind < |log| then |log| - 1 - behind else 0
  }

  function LogAtWrite(log: seq<Entries>, round: Round): seq<Entries> {
    if round.getOk then log + round.before + round.meanwhile else log + round.before
  }

  /** The write goes through: no call failed and the version read is still the latest. */
  predicate Wins(log: seq<Entries>, round: Round)
    requires log != []
  {
    round.getOk && round.updateOk && ReadVersion(log + round.before, round.behind) == |LogAtWrite(log, round)| - 1
  }

  /** The retry loop from one attempt on: the log of all committed versions, and success. */
  function Attempts(log: seq<Entries>, rounds: nat -> Round, attempt: nat, update: Update): (seq<Entries>, bool)
    requires log != [] && attempt <= MAX_RETRIES
    decreases MAX_RETRIES - attempt
  {
    if attempt == MAX_RETRIES then (log, false)
    else
      var round := rounds(attempt);
      var now := LogAtWrite(log, round);
      if Wins(log, round) then (now + [update(now[|now| - 1], attempt)], true)
      else Attempts(now, rounds, attempt + 1, update)
  }

  lemma OneAttempt(log: seq<Entries>, rounds: nat -> Round, attempt: nat, update: Update)
    requires log != [] && attempt < MAX_RETRIES
    ensures var now := LogAtWrite(log, rounds(attempt));
            Attempts(log, rounds, attempt, update)
            == (if Wins(log, rounds(attempt)) then (now + [update(now[|now| - 1], attempt)], true)
                else Attempts(now, rounds, attempt + 1, update))
  {}

  lemma NoMoreAttempts(log: seq<Entries>, rounds: nat -> Round, update: Update)
    requires log != []
    ensures Attempts(log, rounds, MAX_RETRIES, update) == (log, false)
  {}

  /** What others commit before one write of the stale check, and how the write goes. */
  datatype StaleRound = StaleRound(meanwhile: seq<Entries>, updateOk: bool)

  /**
    The stale check after its first `n` entries: the log, the caller's copy, and the
    version that copy goes back to. The copy is never read again; each entry found stale
    is marked in it and the whole of it written at once, and a failed write leaves the
    mark in the copy.
   */
  function StaleWrites(log: seq<Entries>, version: nat, n: nat, cutoff: int, rounds: nat -> StaleRound)
    : (r: (seq<Entries>, Entries, nat))
    requires version < |log| && n <= |log[version]|
    ensures r.2 < |r.0| && |r.1| == |log[version]|
  {
    if n == 0 then (log, log[version], version)
    else
      var (l, es, v) := StaleWrites(log, version, n - 1, cutoff, rounds);
      if !IsStale(es[n - 1], cutoff) then (l, es, v)
      else
        var marked := es[n - 1 := MarkStaleEntry(es[n - 1], cutoff)];
        var now := l + rounds(n - 1).meanwhile;
        if rounds(n - 1).updateOk && v == |now| - 1 then (now + [marked], marked, |now|) else (now, marked, v)
  }

  /** All versions ever committed; the resource version is the position. */
  class StatusStore {
    var log: seq<Entries>

    constructor (initial: Entries)
      ensures log == [initial]
    {
      log := [initial];
    }

    method Interfere(versions: seq<Entries>)
      modifies this
      ensures log == old(log) + versions
    {
      log := log + versions;
    }

    method ReadStatus(behind: nat) returns (version: nat, es: Entries)
      requires log != []
      ensures version == ReadVersion(log, behind) && version < |log| && es == log[version]
    {
      version := ReadVersion(log, behind);
      es := log[version];
    }

    method WriteStatus(version: nat, es: Entries, ok: bool) returns (done: bool)
      modifies this
      ensures done == (ok && version == |old(log)| - 1)
      ensures log == if done then old(log) + [es] else old(log)
    {
      done := ok && version == |log| - 1;
      if done {
        log := log + [es];
      }
    }

    method UpdateWithPR(namespace: string, pr: PullRequest, state: string, rounds: nat -> Round, clock: nat -> int)
      returns (ok: bool, result: Entries)
      requires log != []
      modifies this
      ensures (log, ok) == Attempts(old(log), rounds, 0, PRUpdate(namespace, pr, state, clock))
      ensures ok ==> log != [] && result == log[|log| - 1]
      ensures ok ==> CarriesPR(log, namespace, pr, state, clock)
    {
      hide PutPR, Attempts, CarriesPR;
      ghost var update := PRUpdate(namespace, pr, state, clock);
      result := [];
      var attempt := 0;
      while attempt < MAX_RETRIES
        invariant 0 <= attempt <= MAX_RETRIES && log != []
        invariant Attempts(old(log), rounds, 0, update) == Attempts(log, rounds, attempt, update)
      {
        var round := rounds(attempt);
        ghost var start := log;
        OneAttempt(log, rounds, attempt, update);
        Interfere(round.before);
        if !round.getOk {
          attempt := attempt + 1;
          continue;
        }
        var version, entries := ReadStatus(round.behind);
        entries := EditEntry(entries, namespace, pr, state, clock(attempt));
        assert entries == update(log[version], attempt);
        Interfere(round.meanwhile);
        assert log == LogAtWrite(start, round);
        var done := WriteStatus(version, entries, round.updateOk);
        if done {
          ghost var n := CommittedPR(old(log), rounds, namespace, pr, state, clock);
          return true, entries;
        }
        attempt := attempt + 1;
      }
      NoMoreAttempts(log, rounds, update);
      ok := false;
    }

    method CleanupStatus(current: set<string>, retentionDays: int, rounds: nat -> Round, clock: nat -> int,
                         started: int)
      returns (ok: bool, result: Entries)
      requires log != []
      modifies this
      ensures (log, ok) == Attempts(old(log), rounds, 0,
                                          CleanUpdate(current, clock, started - RetentionSeconds(retentionDays)))
      ensures ok ==> log != [] && result == log[|log| - 1]
    {
      hide Clean, Attempts;
      var days := retentionDays;
      if days == 0 {
        days := DEFAULT_RETENTION_DAYS;
      }
      var cutoff := started - days * DAY;
      ghost var update := CleanUpdate(current, clock, cutoff);
      result := [];
      var attempt := 0;
      while attempt < MAX_RETRIES
        invariant 0 <= attempt <= MAX_RETRIES && log != []
        invariant Attempts(old(log), rounds, 0, update) == Attempts(log, rounds, attempt, update)
      {
        var round := rounds(attempt);
        ghost var start := log;
        OneAttempt(log, rounds, attempt, update);
        Interfere(round.before);
        if !round.getOk {
          attempt := attempt + 1;
          continue;
        }
        var version, entries := ReadStatus(round.behind);
        var cleaned := CleanEntries(entries, current, clock(attempt), cutoff);
        assert cleaned == update(entries, attempt);
        Interfere(round.meanwhile);
        assert log == LogAtWrite(start, round);
        var done := WriteStatus(version, cleaned, round.updateOk);
        if done {
          return true, cleaned;
        }
        attempt := attempt + 1;
      }
      NoMoreAttempts(log, rounds, update);
      ok := false;
    }

    /** The caller hands over a copy read at some version; it is not read again. */
    method CheckStalePRs(version: nat, cutoff: int, rounds: nat -> StaleRound) returns (entries: Entries, at: nat)
      requires version < |log|
      modifies this
      ensures (log, entries, at) == StaleWrites(old(log), version, |old(log)[version]|, cutoff, rounds)
    {
      hide IsStale;
      entries, at := log[version], version;
      for i := 0 to |entries|
        invariant |entries| == |old(log)[version]|
        invariant (log, entries, at) == StaleWrites(old(log), version, i, cutoff, rounds)
      {
        if IsStale(entries[i], cutoff) {
          StaleIsMarked(entries[i], cutoff);
          entries := entries[i := entries[i].(state := "pr-stale")];
          Interfere(rounds(i).meanwhile);
          var done := WriteStatus(at, entries, rounds(i).updateOk);
          if done {
            at := |log| - 1;
          }
        }
      }
    }
  }

  // ---------- the stale check's copy ----------

  lemma StaleIsMarked(e: Entry, cutoff: int)
    requires IsStale(e, cutoff)
    ensures MarkStaleEntry(e, cutoff) == e.(state := "pr-stale")
  {}

  function Names(es: Entries): set<string> {
    set e | e in es :: e.namespace
  }

  lemma MarkStaleAt(es: Entries, n: nat, cutoff: int)
    requires Unique(es) && n < |es|
    ensures MarkStale(es, Names(es[..n + 1]), cutoff)
         == MarkStale(es, Names(es[..n]), cutoff)[n := MarkStaleEntry(es[n], cutoff)]
  {
    assert es[..n + 1] == es[..n] + [es[n]];
    assert Names(es[..n + 1]) == Names(es[..n]) + {es[n].namespace};
    forall i | 0 <= i < |es|
      ensures es[i].namespace in Names(es[..n + 1]) <==> es[i].namespace in Names(es[..n]) || i == n
    {}
  }

  lemma NamesKept(es: Entries, marked: set<string>, cutoff: int, n: nat)
    requires n <= |es|
    ensures Names(MarkStale(es, marked, cutoff)[..n]) == Names(es[..n])
    ensures Unique(es) ==> Unique(MarkStale(es, marked, cutoff))
  {
    var t := MarkStale(es, marked, cutoff);
    assert forall i :: 0 <= i < |es| ==> t[i].namespace == es[i].namespace;
    forall m | m in Names(es[..n])
      ensures m in Names(t[..n])
    {
      var i :| 0 <= i < n && es[..n][i].namespace == m;
      assert t[..n][i].namespace == m;
    }
    forall m | m in Names(t[..n])
      ensures m in Names(es[..n])
    {
      var i :| 0 <= i < n && t[..n][i].namespace == m;
      assert es[..n][i].namespace == m;
    }
  }

  lemma MarkStaleTwice(es: Entries, marked: set<string>, cutoff: int)
    ensures MarkStale(MarkStale(es, marked, cutoff), marked, cutoff) == MarkStale(es, marked, cutoff)
  {}

  /** Entry by entry, the copy is the version it goes back to with the entries looked at so far marked if stale. */
  lemma {:induction false} StaleCopy(log: seq<Entries>, version: nat, n: nat, cutoff: int, rounds: nat -> StaleRound)
    requires version < |log| && n <= |log[version]| && Unique(log[version])
    ensures var (l, es, v) := StaleWrites(log, version, n, cutoff, rounds);
            && log <= l && Unique(l[v]) && |l[v]| == |log[version]|
            && es == MarkStale(l[v], Names(l[v][..n]), cutoff)
  {
    hide MarkStale, Unique, Names, IsStale;
    if n == 0 {
      NothingStale(log[version], cutoff);
    } else {
      StaleCopy(log, version, n - 1, cutoff, rounds);
      var (l, es, v) := StaleWrites(log, version, n - 1, cutoff, rounds);
      var base := l[v];
      MarkStaleAt(base, n - 1, cutoff);
      NotYetMarked(base, n - 1, cutoff);
      var names := Names(base[..n]);
      NamesKept(base, names, cutoff, n);
      MarkStaleTwice(base, names, cutoff);
      MarkStaleLength(base, names, cutoff);
      if !IsStale(es[n - 1], cutoff) {
        assert MarkStaleEntry(base[n - 1], cutoff) == es[n - 1];
        assert es[n - 1 := es[n - 1]] == es;
      }
    }
  }

  lemma MarkStaleLength(es: Entries, marked: set<string>, cutoff: int)
    ensures |MarkStale(es, marked, cutoff)| == |es|
  {}

  lemma NothingStale(es: Entries, cutoff: int)
    ensures MarkStale(es, Names(es[..0]), cutoff) == es
  {
    assert Names(es[..0]) == {};
  }

  lemma NotYetMarked(es: Entries, n: nat, cutoff: int)
    requires Unique(es) && n < |es|
    ensures MarkStale(es, Names(es[..n]), cutoff)[n] == es[n]
  {
    assert es[n].namespace !in Names(es[..n]);
  }

  method FindEntry(es: Entries, namespace: string) returns (i: nat)
    ensures i == Position(es, namespace)
  {
    i := 0;
    while i < |es|
      invariant i <= |es| && forall j :: 0 <= j < i ==> es[j].namespace != namespace
    {
      if es[i].namespace == namespace {
        break;
      }
      i := i + 1;
    }
    var p := Position(es, namespace);
    assert !(p < i) && !(i < p);
  }

  /** Edits the entry of a namespace in place, adding it first if there is none. */
  method EditEntry(es: Entries, namespace: string, pr: PullRequest, state: string, now: int) returns (entries: Entries)
    ensures entries == PutPR(es, namespace, pr, state, now)
  {
    entries := es;
    var i := FindEntry(entries, namespace);
    if i == |entries| {
      entries := entries + [NewEntry(namespace, state)];
    }
    var status := entries[i];
    status := status.(state := state);
    status := status.(prNumber := Some(pr.number));
    status := status.(prBranch := pr.branch);
    status := status.(prURL := pr.url);
    if status.createdAt == Absent {
      status := status.(createdAt := At(now));
    }
    entries := entries[i := status];
  }

  method CleanEntries(es: Entries, current: set<string>, now: int, cutoff: int) returns (cleaned: Entries)
    ensures cleaned == Clean(es, current, now, cutoff)
  {
    cleaned := [];
    for i := 0 to |es|
      invariant cleaned == Clean(es[..i], current, now, cutoff)
    {
      assert es[..i + 1][..i] == es[..i];
      var e := es[i];
      if e.namespace in current {
        cleaned := cleaned + [e];
        continue;
      }
      if e.state == REMOVED {
        if e.removedAt.At? && e.removedAt.time > cutoff {
          cleaned := cleaned + [e];
        }
      } else {
        e := e.(state := REMOVED);
        e := e.(removedAt := At(now));
        cleaned := cleaned + [e];
      }
    }
    assert es[..|es|] == es;
  }

  // ---------- linearizability ----------

  /** The versions others commit up to and in round `n`, in order. */
  function Others(rounds: nat -> Round, n: nat): seq<Entries> {
    if n == 0 then []
    else
      var round := rounds(n - 1);
      Others(rounds, n - 1) + round.before + (if round.getOk then round.meanwhile else [])
  }

  lemma OneRound(log: seq<Entries>, start: seq<Entries>, rounds: nat -> Round, n: nat)
    requires log != [] && log == start + Others(rounds, n)
    ensures LogAtWrite(log, rounds(n)) == start + Others(rounds, n + 1)
    ensures LogAtWrite(log, rounds(n)) != []
  {}

  lemma {:induction false} AttemptsFrom(log: seq<Entries>, start: seq<Entries>, rounds: nat -> Round, attempt: nat,
                                        update: Update)
    returns (n: nat)
    requires log != [] && attempt <= MAX_RETRIES && log == start + Others(rounds, attempt)
    ensures var (log2, ok) := Attempts(log, rounds, attempt, update);
            && n <= MAX_RETRIES
            && (!ok ==> log2 == start + Others(rounds, MAX_RETRIES))
            && (ok ==>
                  && n < MAX_RETRIES && start + Others(rounds, n) != [] && Wins(start + Others(rounds, n), rounds(n))
                  && var seen := start + Others(rounds, n + 1);
                     seen != [] && log2 == seen + [update(seen[|seen| - 1], n)])
    decreases MAX_RETRIES - attempt
  {
    hide Attempts, ReadVersion, Others;
    n := attempt;
    if attempt == MAX_RETRIES {
      NoMoreAttempts(log, rounds, update);
    } else {
      OneAttempt(log, rounds, attempt, update);
      OneRound(log, start, rounds, attempt);
      if !Wins(log, rounds(attempt)) {
        n := AttemptsFrom(LogAtWrite(log, rounds(attempt)), start, rounds, attempt + 1, update);
      }
    }
  }

  /**
    Whatever others commit and however stale the reads are: a successful call appends
    exactly one version, the update of the very version it replaces; a failed call writes
    nothing; every version others committed stays, in order.
   */
  lemma RetryLinearizable(log: seq<Entries>, rounds: nat -> Round, update: Update) returns (n: nat)
    requires log != []
    ensures var (log2, ok) := Attempts(log, rounds, 0, update);
            && (!ok ==> log2 == log + Others(rounds, MAX_RETRIES))
            && (ok ==>
                  && n < MAX_RETRIES && Undisturbed(log, rounds, n)
                  && var seen := log + Others(rounds, n + 1);
                     log2 == seen + [update(seen[|seen| - 1], n)])
  {
    n := AttemptsFrom(log, log, rounds, 0, update);
    if Attempts(log, rounds, 0, update).1 {
      UndisturbedWins(log, rounds, n);
    }
  }

  /** One round with good calls, a fresh read and nobody in between is enough to succeed. */
  lemma QuietRoundSucceeds(log: seq<Entries>, rounds: nat -> Round, update: Update)
    requires log != []
    requires rounds(0).getOk && rounds(0).updateOk && rounds(0).behind == 0 && rounds(0).meanwhile == []
    ensures Attempts(log, rounds, 0, update).1
  {
    assert LogAtWrite(log, rounds(0)) == log + rounds(0).before;
  }

  /**
    When a call succeeds, told from the calls alone: one of the first three rounds has a
    good read and a good write, nobody commits between them, and the read is not stale
    (or there is but one version to read).
   */
  lemma SucceedsExactly(log: seq<Entries>, rounds: nat -> Round, update: Update)
    requires log != []
    ensures Attempts(log, rounds, 0, update).1
            <==> exists n: nat :: n < 3 && Undisturbed(log, rounds, n)
  {
    hide Attempts, Others;
    assert Others(rounds, 0) == [] by { NoOthers(rounds); }
    assert log + Others(rounds, 0) == log;
    OneAttempt(log, rounds, 0, update);
    OneRound(log, log, rounds, 0);
    UndisturbedWins(log, rounds, 0);
    var log1 := log + Others(rounds, 1);
    OneAttempt(log1, rounds, 1, update);
    OneRound(log1, log, rounds, 1);
    UndisturbedWins(log, rounds, 1);
    var log2 := log + Others(rounds, 2);
    OneAttempt(log2, rounds, 2, update);
    OneRound(log2, log, rounds, 2);
    UndisturbedWins(log, rounds, 2);
    NoMoreAttempts(log + Others(rounds, 3), rounds, update);
  }

  lemma NoOthers(rounds: nat -> Round)
    ensures Others(rounds, 0) == []
  {}

  predicate Undisturbed(log: seq<Entries>, rounds: nat -> Round, n: nat) {
    && rounds(n).getOk && rounds(n).updateOk && rounds(n).meanwhile == []
    && (rounds(n).behind == 0 || |log + Others(rounds, n) + rounds(n).before| == 1)
  }

  lemma UndisturbedWins(log: seq<Entries>, rounds: nat -> Round, n: nat)
    requires log != []
    ensures Wins(log + Others(rounds, n), rounds(n)) <==> Undisturbed(log, rounds, n)
  {
    hide Others;
  }

  // ---------- what one update does to each entry ----------

  /** The PR's fields and the state, the first creation time, and what the entry held of anything else. */
  ghost predicate Carries(e: Entry, was: Option<Entry>, pr: PullRequest, state: string, now: int) {
    && e.state == state
    && e.prNumber == Some(pr.number) && e.prBranch == pr.branch && e.prURL == pr.url
    && e.createdAt == (if was.None? || was.value.createdAt == Absent then At(now) else was.value.createdAt)
    && e.errorMessage == (if was.None? then "" else was.value.errorMessage)
    && e.removedAt == (if was.None? then Absent else was.value.removedAt)
  }

  /** The latest version carries the PR over the version right before it, with the clock of one of three attempts. */
  ghost predicate CarriesPR(log: seq<Entries>, namespace: string, pr: PullRequest, state: string, clock: nat -> int) {
    && |log| >= 2
    && Lookup(log[|log| - 1], namespace).Some?
    && exists n: nat :: n < 3 && Carries(Lookup(log[|log| - 1], namespace).value, Lookup(log[|log| - 2], namespace),
                                         pr, state, clock(n))
  }

  /** What a PR update leaves in the entry of its namespace, field by field. */
  lemma PRWritten(es: Entries, namespace: string, pr: PullRequest, state: string, now: int)
    ensures var written := Lookup(PutPR(es, namespace, pr, state, now), namespace);
            written.Some? && Carries(written.value, Lookup(es, namespace), pr, state, now)
    // The other entries keep their places; a new one comes last.
    ensures var t, i := PutPR(es, namespace, pr, state, now), Position(es, namespace);
            && |t| == (if i == |es| then |es| + 1 else |es|)
            && forall j :: 0 <= j < |es| && j != i ==> t[j] == es[j]
  {
    var i := Position(es, namespace);
    var t := PutPR(es, namespace, pr, state, now);
    assert t[i].namespace == namespace && forall j :: 0 <= j < i ==> t[j] == es[j];
    var p := Position(t, namespace);
    assert !(p < i) && !(i < p);
  }

  /**
    So a successful call commits exactly these fields, over the version right before the
    one it commits, with the clock of the attempt that went through.
   */
  lemma CommittedPR(log: seq<Entries>, rounds: nat -> Round, namespace: string, pr: PullRequest, state: string,
                    clock: nat -> int) returns (n: nat)
    requires log != [] && Attempts(log, rounds, 0, PRUpdate(namespace, pr, state, clock)).1
    ensures n < 3 && Undisturbed(log, rounds, n)
    ensures |Attempts(log, rounds, 0, PRUpdate(namespace, pr, state, clock)).0| == |log + Others(rounds, n + 1)| + 1
    ensures var log2 := Attempts(log, rounds, 0, PRUpdate(namespace, pr, state, clock)).0;
            && CarriesPR(log2, namespace, pr, state, clock)
            && |log2| >= 2
            && var written := Lookup(log2[|log2| - 1], namespace);
               written.Some? && Carries(written.value, Lookup(log2[|log2| - 2], namespace), pr, state, clock(n))
  {
    hide Attempts, Others, PutPR, Lookup;
    var update := PRUpdate(namespace, pr, state, clock);
    n := RetryLinearizable(log, rounds, update);
    var seen := log + Others(rounds, n + 1);
    PRWritten(seen[|seen| - 1], namespace, pr, state, clock(n));
  }

  /**
    What retention means, in days of 86400 seconds, zero for 30 of them: an entry of an
    absent namespace that is marked as removed is kept exactly if it was marked within so
    many days before the cleaning started.
   */
  lemma KeptForDays(es: Entries, current: set<string>, days: int, clock: nat -> int, started: int, attempt: nat,
                    e: Entry)
    requires Unique(es) && Lookup(es, e.namespace) == Some(e)
    requires e.namespace !in current && e.state == "removed"
    ensures var cleaned := CleanUpdate(current, clock, started - RetentionSeconds(days))(es, attempt);
            Lookup(cleaned, e.namespace)
            == if exists t :: e.removedAt == At(t) && started < t + (if days == 0 then 30 else days) * 24 * 60 * 60
               then Some(e) else None
  {
    hide Lookup, Clean;
    CleanSpec(es, current, clock(attempt), started - RetentionSeconds(days), e.namespace);
    if e.removedAt.At? {
      assert e.removedAt == At(e.removedAt.time);
    }
  }

  /**
    And what it does to every other entry: those of present namespaces stay, the rest are
    marked, at the attempt's clock.
   */
  lemma MarkedOnLeaving(es: Entries, current: set<string>, days: int, clock: nat -> int, started: int, attempt: nat,
                        e: Entry)
    requires Unique(es) && Lookup(es, e.namespace) == Some(e)
    requires e.namespace in current || e.state != "removed"
    ensures var cleaned := CleanUpdate(current, clock, started - RetentionSeconds(days))(es, attempt);
            Lookup(cleaned, e.namespace)
            == Some(if e.namespace in current then e
                    else Entry(e.namespace, "removed", e.prNumber, e.prBranch, e.prURL, e.createdAt, e.errorMessage,
                               At(clock(attempt))))
  {
    hide Lookup, Clean;
    CleanSpec(es, current, clock(attempt), started - RetentionSeconds(days), e.namespace);
  }

  /** What a stale check leaves in the copy, whatever others commit and whichever writes fail. */
  lemma StaleChecked(log: seq<Entries>, version: nat, cutoff: int, rounds: nat -> StaleRound, i: nat)
    requires version < |log| && i < |log[version]|
    ensures var e := log[version][i];
            var (l, es, v) := StaleWrites(log, version, |log[version]|, cutoff, rounds);
            && |es| == |log[version]|
            && es[i] == (if (e.state == "pr-created" || e.state == "pr-pending")
                            && (exists t :: e.createdAt == At(t) && t < cutoff)
                         then Entry(e.namespace, "pr-stale", e.prNumber, e.prBranch, e.prURL, e.createdAt,
                                    e.errorMessage, e.removedAt)
                         else e)
  {
    hide StaleWrites;
    StaleCopyAt(log, version, |log[version]|, cutoff, rounds, i);
    var e := log[version][i];
    if e.createdAt.At? {
      assert e.createdAt == At(e.createdAt.time);
    }
  }

  lemma {:induction false} StaleCopyAt(log: seq<Entries>, version: nat, n: nat, cutoff: int,
                                       rounds: nat -> StaleRound, i: nat)
    requires version < |log| && n <= |log[version]| && i < |log[version]|
    ensures StaleWrites(log, version, n, cutoff, rounds).1[i]
            == if i < n then MarkStaleEntry(log[version][i], cutoff) else log[version][i]
  {
    hide IsStale;
    if n == 0 {
    } else {
      StaleCopyAt(log, version, n - 1, cutoff, rounds, i);
      StaleCopyAt(log, version, n - 1, cutoff, rounds, n - 1);
    }
  }

  lemma PutPRSpec(es: Entries, namespace: string, pr: PullRequest, state: string, now: int, m: string)
    requires Unique(es)
    ensures var t := PutPR(es, namespace, pr, state, now);
            && Unique(t)
            && Lookup(t, m) == (if m != namespace then Lookup(es, m)
                                else Some(WithPR(Lookup(es, m).GetOr(NewEntry(m, state)), pr, state, now)))
            && (m == namespace ==> Carries(Lookup(t, m).value, Lookup(es, m), pr, state, now))
  {
    var t := PutPR(es, namespace, pr, state, now);
    var i := Position(es, namespace);
    LookupNone(es, m);
    LookupNone(t, m);
    var p := Position(es, m);
    if m == namespace {
      assert t[i].namespace == m;
      LookupIs(t, i);
    } else if p < |es| {
      assert t[p] == es[p];
      LookupIs(t, p);
      LookupIs(es, p);
    } else {
      forall e | e in t ensures e.namespace != m {
        var q :| 0 <= q < |t| && t[q] == e;
      }
    }
  }

  lemma MarkStaleSpec(es: Entries, marked: set<string>, cutoff: int, m: string)
    requires Unique(es)
    ensures var t := MarkStale(es, marked, cutoff);
            && Unique(t)
            && Lookup(t, m) == (match Lookup(es, m)
                                case None => None
                                case Some(e) => Some(if m in marked then MarkStaleEntry(e, cutoff) else e))
  {
    var t := MarkStale(es, marked, cutoff);
    assert forall i :: 0 <= i < |es| ==> t[i].namespace == es[i].namespace;
    var p, q := Position(es, m), Position(t, m);
    assert !(p < q) && !(q < p);
  }

  lemma {:induction false} CleanOrigin(es: Entries, current: set<string>, now: int, cutoff: int)
    ensures forall e :: e in Clean(es, current, now, cutoff) ==>
              exists o :: o in es && CleanEntry(o, current, now, cutoff) == Some(e)
  {
    if es == [] {
    } else {
      var n := |es| - 1;
      CleanOrigin(es[..n], current, now, cutoff);
      forall e | e in Clean(es, current, now, cutoff)
        ensures exists o :: o in es && CleanEntry(o, current, now, cutoff) == Some(e)
      {
        if e in Clean(es[..n], current, now, cutoff) {
          var o :| o in es[..n] && CleanEntry(o, current, now, cutoff) == Some(e);
          assert o in es;
        } else {
          assert es[n] in es && CleanEntry(es[n], current, now, cutoff) == Some(e);
        }
      }
    }
  }

  /** Cleaning keeps the order of entries. */
  lemma {:induction false} CleanInOrder(es: Entries, more: Entries, current: set<string>, now: int, cutoff: int)
    ensures Clean(es + more, current, now, cutoff)
            == Clean(es, current, now, cutoff) + Clean(more, current, now, cutoff)
  {
    if more == [] {
      assert es + more == es;
    } else {
      var n := |more| - 1;
      assert (es + more)[..|es + more| - 1] == es + more[..n];
      CleanInOrder(es, more[..n], current, now, cutoff);
    }
  }

  lemma CleanEntryNamespace(e: Entry, current: set<string>, now: int, cutoff: int)
    ensures var r := CleanEntry(e, current, now, cutoff); r.Some? ==> r.value.namespace == e.namespace
  {}

  /** The last entry's namespace is not found among the cleaned entries before it. */
  lemma CleanInitLacks(es: Entries, current: set<string>, now: int, cutoff: int)
    requires Unique(es) && es != []
    ensures var n := |es| - 1;
            && forall e :: e in Clean(es[..n], current, now, cutoff) ==> e.namespace != es[n].namespace
  {
    var n := |es| - 1;
    CleanOrigin(es[..n], current, now, cutoff);
    forall e | e in Clean(es[..n], current, now, cutoff)
      ensures e.namespace != es[n].namespace
    {
      var o :| o in es[..n] && CleanEntry(o, current, now, cutoff) == Some(e);
      CleanEntryNamespace(o, current, now, cutoff);
      var j :| 0 <= j < n && es[j] == o;
    }
  }

  lemma {:induction false} CleanSpec(es: Entries, current: set<string>, now: int, cutoff: int, m: string)
    requires Unique(es)
    ensures var t := Clean(es, current, now, cutoff);
            && Unique(t)
            && Lookup(t, m) == (match Lookup(es, m)
                                case None => None
                                case Some(e) => CleanEntry(e, current, now, cutoff))
  {
    hide CleanEntry, Lookup;
    if es == [] {
      LookupNone([], m);
    } else {
      var n := |es| - 1;
      var init, last := es[..n], es[n];
      CleanSpec(init, current, now, cutoff, m);
      CleanInitLacks(es, current, now, cutoff);
      CleanEntryNamespace(last, current, now, cutoff);
      var t0 := Clean(init, current, now, cutoff);
      LookupAppend(init, last, m);
      assert es == init + [last];
      if CleanEntry(last, current, now, cutoff).Some? {
        LookupAppend(t0, CleanEntry(last, current, now, cutoff).value, m);
      }
      if m == last.namespace {
        LookupNone(t0, m);
        LookupNone(init, m);
      }
    }
  }

  lemma LookupAppend(es: Entries, e: Entry, m: string)
    ensures Lookup(es + [e], m) == (if Lookup(es, m).Some? then Lookup(es, m)
                                    else if e.namespace == m then Some(e) else None)
  {
    var p, q := Position(es, m), Position(es + [e], m);
    assert (es + [e])[|es|] == e;
    assert forall j :: 0 <= j < |es| ==> (es + [e])[j] == es[j];
    if p < |es| {
      assert !(q < p) && !(p < q);
    } else {
      assert !(q < |es|);
    }
  }

  /**
    No concurrent writer's entry is lost: the version a PR update commits has, for every
    other namespace, what the version right before it has, whoever committed that one.
   */
  lemma NoEntryLost(log: seq<Entries>, rounds: nat -> Round, namespace: string, pr: PullRequest, state: string,
                    clock: nat -> int, m: string)
    requires log != [] && m != namespace
    ensures var (log2, ok) := Attempts(log, rounds, 0, PRUpdate(namespace, pr, state, clock));
            ok ==>
              && |log2| >= 2
              && (Unique(log2[|log2| - 2]) ==> Lookup(log2[|log2| - 1], m) == Lookup(log2[|log2| - 2], m))
              && Lookup(log2[|log2| - 1], namespace).Some?
  {
    hide Attempts, Others, PutPR, Unique, Lookup;
    var update := PRUpdate(namespace, pr, state, clock);
    var (log2, ok) := Attempts(log, rounds, 0, update);
    var n := RetryLinearizable(log, rounds, update);
    if ok {
      var seen := log + Others(rounds, n + 1);
      var es := seen[|seen| - 1];
      assert log2[|log2| - 2] == es && log2[|log2| - 1] == PutPR(es, namespace, pr, state, clock(n));
      if Unique(es) {
        PutPRSpec(es, namespace, pr, state, clock(n), m);
      }
      PutPRPuts(es, namespace, pr, state, clock(n));
    }
  }

  lemma PutPRPuts(es: Entries, namespace: string, pr: PullRequest, state: string, now: int)
    ensures Lookup(PutPR(es, namespace, pr, state, now), namespace).Some?
  {
    assert PutPR(es, namespace, pr, state, now)[Position(es, namespace)].namespace == namespace;
    LookupNone(PutPR(es, namespace, pr, state, now), namespace);
  }

  // ---------- removed namespaces ----------

  /** The namespaces whose removal is to be taken up, in entry order. */
  function RemovedSelection(es: Entries, current: set<string>): seq<string> {
    if es == [] then []
    else
      var n := |es| - 1;
      RemovedSelection(es[..n], current)
      + (if es[n].namespace !in current && es[n].state != REMOVED then [es[n].namespace] else [])
  }

  method SelectRemovedNamespaces(es: Entries, current: set<string>) returns (removed: seq<string>)
    ensures removed == RemovedSelection(es, current)
  {
    removed := [];
    for i := 0 to |es|
      invariant removed == RemovedSelection(es[..i], current)
    {
      assert es[..i + 1][..i] == es[..i];
      if es[i].namespace !in current && es[i].state != REMOVED {
        removed := removed + [es[i].namespace];
      }
    }
    assert es[..|es|] == es;
  }

  /** With good writes and nobody in between, the copy is what the store holds in the end. */
  lemma {:induction false} StaleWritten(log: seq<Entries>, n: nat, cutoff: int, rounds: nat -> StaleRound)
    requires log != [] && n <= |log[|log| - 1]|
    requires forall j :: rounds(j) == StaleRound([], true)
    ensures var (l, es, v) := StaleWrites(log, |log| - 1, n, cutoff, rounds); v == |l| - 1 && es == l[v]
  {
    if n == 0 {
    } else {
      StaleWritten(log, n - 1, cutoff, rounds);
      var l := StaleWrites(log, |log| - 1, n - 1, cutoff, rounds).0;
      assert l + [] == l;
    }
  }

  lemma {:induction false} SelectedInOrder(es: Entries, more: Entries, current: set<string>)
    ensures RemovedSelection(es + more, current) == RemovedSelection(es, current) + RemovedSelection(more, current)
  {
    if more == [] {
      assert es + more == es;
    } else {
      var n := |more| - 1;
      assert (es + more)[..|es + more| - 1] == es + more[..n];
      SelectedInOrder(es, more[..n], current);
    }
  }

  /** What is selected, told entry by entry. */
  lemma {:induction false} SelectedExactly(es: Entries, current: set<string>, m: string)
    ensures m in RemovedSelection(es, current)
            <==> m !in current && exists e :: e in es && e.namespace == m && e.state != "removed"
  {
    if es == [] {
    } else {
      var n := |es| - 1;
      assert es == es[..n] + [es[n]];
      SelectedExactly(es[..n], current, m);
      if m !in current && es[n].namespace == m && es[n].state != "removed" {
        assert es[n] in es;
      }
    }
  }

  lemma {:induction false} SelectionEmpty(es: Entries, current: set<string>)
    requires forall e :: e in es ==> e.namespace in current || e.state == REMOVED
    ensures RemovedSelection(es, current) == []
  {
    if es == [] {
    } else {
      assert es[|es| - 1] in es;
      SelectionEmpty(es[..|es| - 1], current);
    }
  }

  /** Right after cleaning, nothing is left to be taken up for the same set of namespaces. */
  lemma NothingRemovedAfterClean(es: Entries, current: set<string>, now: int, cutoff: int)
    ensures RemovedSelection(Clean(es, current, now, cutoff), current) == []
  {
    CleanOrigin(es, current, now, cutoff);
    SelectionEmpty(Clean(es, current, now, cutoff), current);
  }

  // ---------- the life of an entry ----------

  datatype Happening =
    | Put(namespace: string, pr: PullRequest, state: string, time: int)
    | Cleaning(current: set<string>, started: int, retention: int, stamp: int)
    | StaleCheck(marked: set<string>, cutoff: int)

  function Happen(es: Entries, h: Happening): Entries {
    match h
    case Put(namespace, pr, state, time) => PutPR(es, namespace, pr, state, time)
    case Cleaning(current, started, retention, stamp) => Clean(es, current, stamp, started - retention)
    case StaleCheck(marked, cutoff) => MarkStale(es, marked, cutoff)
  }

  function Live(es: Entries, hs: seq<Happening>): Entries {
    if hs == [] then es else Happen(Live(es, hs[..|hs| - 1]), hs[|hs| - 1])
  }

  lemma HappenKeepsUnique(es: Entries, h: Happening)
    requires Unique(es)
    ensures Unique(Happen(es, h))
  {
    match h
    case Put(namespace, pr, state, time) => PutPRSpec(es, namespace, pr, state, time, "");
    case Cleaning(current, started, retention, stamp) => CleanSpec(es, current, stamp, started - retention, "");
    case StaleCheck(marked, cutoff) => MarkStaleSpec(es, marked, cutoff, "");
  }

  /** Every history keeps one entry for each namespace at most. */
  lemma {:induction false} UniqueForever(es: Entries, hs: seq<Happening>)
    requires Unique(es)
    ensures Unique(Live(es, hs))
  {
    hide Unique, Happen;
    if hs == [] {
    } else {
      UniqueForever(es, hs[..|hs| - 1]);
      HappenKeepsUnique(Live(es, hs[..|hs| - 1]), hs[|hs| - 1]);
    }
  }

  // ---------- concurrent writers make one history ----------

  predicate IsNext(es: Entries, h: Happening, next: Entries) {
    next == Happen(es, h)
  }

  ghost predicate Follows(next: Entries, es: Entries) {
    exists h :: IsNext(es, h, next)
  }

  /** Every committed version is made from the one before it by one of the three updates. */
  ghost predicate IsHistory(log: seq<Entries>) {
    forall i :: 0 < i < |log| ==> Follows(log[i], log[i - 1])
  }

  ghost predicate Happens(update: Update) {
    forall es, attempt :: Follows(update(es, attempt), es)
  }

  lemma UpdatesHappen(namespace: string, pr: PullRequest, state: string, current: set<string>,
                      started: int, retention: int, clock: nat -> int)
    ensures Happens(PRUpdate(namespace, pr, state, clock))
    ensures Happens(CleanUpdate(current, clock, started - retention))
  {
    var put, clean := PRUpdate(namespace, pr, state, clock), CleanUpdate(current, clock, started - retention);
    forall es: Entries, attempt: nat
      ensures Follows(put(es, attempt), es)
    {
      assert IsNext(es, Put(namespace, pr, state, clock(attempt)), put(es, attempt));
    }
    forall es: Entries, attempt: nat
      ensures Follows(clean(es, attempt), es)
    {
      assert IsNext(es, Cleaning(current, started, retention, clock(attempt)), clean(es, attempt));
    }
  }

  lemma {:induction false} OthersGrow(rounds: nat -> Round, m: nat, n: nat)
    requires m <= n
    ensures Others(rounds, m) <= Others(rounds, n)
  {
    if m < n {
      OthersGrow(rounds, m, n - 1);
    }
  }

  /**
    Any number of writers at once still make one sequential history: if what the others
    commit around a call is a history, so is the log with the call's own version in it.
    In every version of it each namespace has one entry at most.
   */
  lemma CommitsAreHistory(log: seq<Entries>, rounds: nat -> Round, update: Update)
    requires log != [] && Unique(log[0]) && Happens(update)
    requires IsHistory(log + Others(rounds, MAX_RETRIES))
    ensures var log2 := Attempts(log, rounds, 0, update).0;
            && log <= log2 && IsHistory(log2)
            && forall i :: 0 <= i < |log2| ==> Unique(log2[i])
  {
    hide Attempts, Unique, Happen, Others, IsHistory, Happens;
    var (log2, ok) := Attempts(log, rounds, 0, update);
    var n := RetryLinearizable(log, rounds, update);
    if ok {
      var seen := log + Others(rounds, n + 1);
      OthersGrow(rounds, n + 1, MAX_RETRIES);
      assert log + Others(rounds, MAX_RETRIES)
          == seen + Others(rounds, MAX_RETRIES)[|Others(rounds, n + 1)|..];
      HistoryBefore(seen, Others(rounds, MAX_RETRIES)[|Others(rounds, n + 1)|..]);
      HistoryGrows(seen, n, update);
    }
    assert log2[0] == log[0];
    forall i | 0 <= i < |log2|
      ensures Unique(log2[i])
    {
      HistoryKeepsUnique(log2, i);
    }
  }

  lemma HistoryBefore(log: seq<Entries>, later: seq<Entries>)
    requires IsHistory(log + later)
    ensures IsHistory(log)
  {
    hide Happen;
    forall i | 0 < i < |log|
      ensures Follows(log[i], log[i - 1])
    {
      assert (log + later)[i] == log[i] && (log + later)[i - 1] == log[i - 1];
    }
  }

  lemma HistoryGrows(log: seq<Entries>, attempt: nat, update: Update)
    requires log != [] && IsHistory(log) && Happens(update)
    ensures IsHistory(log + [update(log[|log| - 1], attempt)])
  {
    hide Happen;
    var last := log[|log| - 1];
    assert Follows(update(last, attempt), last);
    var longer := log + [update(last, attempt)];
    forall i | 0 < i < |longer|
      ensures Follows(longer[i], longer[i - 1])
    {
      if i == |log| {
        assert longer[i] == update(last, attempt) && longer[i - 1] == last;
      } else {
        assert longer[i] == log[i] && longer[i - 1] == log[i - 1];
      }
    }
  }

  lemma {:induction false} HistoryKeepsUnique(log: seq<Entries>, i: nat)
    requires i < |log| && Unique(log[0]) && IsHistory(log)
    ensures Unique(log[i])
  {
    hide Unique, Happen;
    if i > 0 {
      HistoryKeepsUnique(log, i - 1);
      var es, next := log[i - 1], log[i];
      var h :| IsNext(es, h, next);
      HappenKeepsUnique(es, h);
    }
  }

  // ---------- how long an entry is kept ----------

  /** No PR is recorded for the namespace, and no cleaning finds it both outside the whitelist and past retention. */
  predicate LeftAlone(h: Happening, namespace: string, removed: int) {
    match h
    case Put(m, _, _, _) => m != namespace
    case Cleaning(current, started, retention, _) => namespace in current || started - retention < removed
    case StaleCheck(_, _) => true
  }

  lemma {:induction false} KeptWithinRetention(es: Entries, hs: seq<Happening>, e: Entry)
    requires Unique(es) && Lookup(es, e.namespace) == Some(e)
    requires e.state == REMOVED && e.removedAt.At?
    requires forall h :: h in hs ==> LeftAlone(h, e.namespace, e.removedAt.time)
    ensures Lookup(Live(es, hs), e.namespace) == Some(e)
  {
    hide Lookup, PutPR, Clean;
    if hs == [] {
    } else {
      var n := |hs| - 1;
      KeptWithinRetention(es, hs[..n], e);
      UniqueForever(es, hs[..n]);
      assert LeftAlone(hs[n], e.namespace, e.removedAt.time) by { assert hs[n] in hs; }
      match hs[n]
      case Put(namespace, pr, state, time) => PutPRSpec(Live(es, hs[..n]), namespace, pr, state, time, e.namespace);
      case Cleaning(current, started, retention, stamp) =>
        CleanSpec(Live(es, hs[..n]), current, stamp, started - retention, e.namespace);
      case StaleCheck(marked, cutoff) => MarkStaleSpec(Live(es, hs[..n]), marked, cutoff, e.namespace);
    }
  }

  /**
    When a namespace leaves the whitelist, the first cleaning stamps its entry and keeps
    everything else in it; the entry then stays exactly so through any history that leaves
    the namespace alone within retention; and the first cleaning at or past stamp plus
    retention drops it.
   */
  lemma EntryLifecycle(es: Entries, e: Entry, leave: Happening, hs: seq<Happening>, last: Happening)
    requires Unique(es) && Lookup(es, e.namespace) == Some(e) && e.state != REMOVED
    requires leave.Cleaning? && e.namespace !in leave.current
    requires forall h :: h in hs ==> LeftAlone(h, e.namespace, leave.stamp)
    requires last.Cleaning? && e.namespace !in last.current && leave.stamp + last.retention <= last.started
    ensures var stamped := e.(state := REMOVED, removedAt := At(leave.stamp));
            var t := Live(Happen(es, leave), hs);
            && Lookup(Happen(es, leave), e.namespace) == Some(stamped)
            && Lookup(t, e.namespace) == Some(stamped)
            && Lookup(Happen(t, last), e.namespace) == None
  {
    CleanSpec(es, leave.current, leave.stamp, leave.started - leave.retention, e.namespace);
    var es1 := Happen(es, leave);
    var stamped := e.(state := REMOVED, removedAt := At(leave.stamp));
    KeptWithinRetention(es1, hs, stamped);
    UniqueForever(es1, hs);
    CleanSpec(Live(es1, hs), last.current, last.stamp, last.started - last.retention, e.namespace);
  }

  /** A PR recorded for the entry's namespace, or a stale check of it, changes nothing in it. */
  predicate Rewrites(e: Entry, h: Happening) {
    && (h.Put? && h.namespace == e.namespace ==> WithPR(e, h.pr, h.state, h.time) == e)
    && (h.StaleCheck? && e.namespace in h.marked ==> !IsStale(e, h.cutoff))
  }

  /** No cleaning finds the namespace gone. */
  ghost predicate Present(hs: seq<Happening>, namespace: string) {
    forall h :: h in hs && h.Cleaning? ==> namespace in h.current
  }

  lemma HappenWhilePresent(es: Entries, e: Entry, h: Happening)
    requires Unique(es) && Lookup(es, e.namespace) == Some(e)
    requires h.Cleaning? ==> e.namespace in h.current
    ensures Lookup(Happen(es, h), e.namespace) == Some(e) <==> Rewrites(e, h)
  {
    hide Lookup, PutPR, Clean;
    match h
    case Put(namespace, pr, state, time) => PutPRSpec(es, namespace, pr, state, time, e.namespace);
    case Cleaning(current, started, retention, stamp) =>
      CleanSpec(es, current, stamp, started - retention, e.namespace);
    case StaleCheck(marked, cutoff) => MarkStaleSpec(es, marked, cutoff, e.namespace);
  }

  /**
    A namespace that comes back while its entry is still kept finds it marked as removed,
    and no cleaning resets that. The entry stays as it is through a whole history in which
    the namespace is present exactly if every PR recorded for it writes back what is there
    (and no stale check finds its PR overdue, which none does for an entry marked removed).
   */
  lemma {:induction false} ReturningStaysRemoved(es: Entries, hs: seq<Happening>, e: Entry)
    requires Unique(es) && Lookup(es, e.namespace) == Some(e) && Present(hs, e.namespace)
    ensures (forall n :: 0 <= n <= |hs| ==> Lookup(Live(es, hs[..n]), e.namespace) == Some(e))
            <==> forall h :: h in hs ==> Rewrites(e, h)
  {
    hide Lookup, PutPR, Clean, Happen, Rewrites, Unique;
    if hs == [] {
      assert hs[..0] == [];
    } else {
      var last := |hs| - 1;
      var init := hs[..last];
      assert hs == init + [hs[last]];
      assert forall h :: h in init ==> h in hs;
      ReturningStaysRemoved(es, init, e);
      assert forall n :: 0 <= n <= last ==> init[..n] == hs[..n];
      assert hs[..|hs|] == hs && hs[..last] == init;
      if Lookup(Live(es, init), e.namespace) == Some(e) {
        UniqueForever(es, init);
        HappenWhilePresent(Live(es, init), e, hs[last]);
      } else {
        assert Lookup(Live(es, hs[..last]), e.namespace) != Some(e);
      }
    }
  }

  lemma CleaningIsClean(es: Entries, h: Happening)
    requires h.Cleaning?
    ensures Happen(es, h) == Clean(es, h.current, h.stamp, h.started - h.retention)
  {}

  /**
    And when it leaves again, retention still counts from the old stamp: the first
    cleaning that finds it gone keeps or drops the entry as if it had never been back.
   */
  lemma LeavingAgainCountsOldStamp(es: Entries, hs: seq<Happening>, e: Entry, last: Happening)
    requires Unique(es) && Lookup(es, e.namespace) == Some(e) && e.state == REMOVED && e.removedAt.At?
    requires Present(hs, e.namespace) && forall h :: h in hs ==> Rewrites(e, h)
    requires last.Cleaning? && e.namespace !in last.current
    ensures Lookup(Happen(Live(es, hs), last), e.namespace)
            == if last.started - last.retention < e.removedAt.time then Some(e) else None
  {
    hide Lookup, PutPR, Clean, Happen, Rewrites, Unique;
    ReturningStaysRemoved(es, hs, e);
    assert hs[..|hs|] == hs;
    assert Happen(Live(es, hs), last)
           == Clean(Live(es, hs), last.current, last.stamp, last.started - last.retention) by {
      CleaningIsClean(Live(es, hs), last);
    }
    UniqueForever(es, hs);
    CleanSpec(Live(es, hs), last.current, last.stamp, last.started - last.retention, e.namespace);
  }
}
