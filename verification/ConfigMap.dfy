/**
  Processing the whitelist of a ConfigMap (reconciliation_configmap.go): every line that
  names a permission ensures its namespace and binds its group, and the pass reports the
  RoleBindings it manages.

  Main results: what a pass leaves behind, in closed form, and that a second pass over
  the same input changes nothing.
 */
module ConfigMap {
  import opened Strings
  import opened Cluster
  import opened Ownership
  import opened RoleBindings
  import Whitelist

  // ---------- from lines to wants ----------

  datatype Spec = Spec(
    roleMapping: map<string, string>,
    prefixes: seq<string>,
    excludeList: seq<string>,
    serviceAccountMapping: map<string, string>,
    serviceAccountNamingPattern: string)

  /** What one raw line asks for, if it is neither blank, comment, invalid nor excluded. */
  function LineWant(raw: string, spec: Spec): (w: Option<Want>)
    ensures w.Some? ==> w.value.role in spec.roleMapping && w.value.clusterRole == spec.roleMapping[w.value.role]
  {
    var line := TrimSpace(raw);
    if line == "" || line[0] == '#' then None
    else match Whitelist.ExtractCN(line)
      case None => None
      case Some(cn) =>
        if cn in spec.excludeList then None
        else
          Whitelist.ParseSpec(cn, spec.prefixes, spec.roleMapping);
          match Whitelist.Parse(cn, spec.prefixes, spec.roleMapping)
          case None => None
          case Some(p) => Some(Want(p.namespace, p.role, cn, spec.roleMapping[p.role]))
  }

  /** What the trimmed line must be to ask for something: no blank, no comment, with a CN that is not excluded. */
  ghost predicate Eligible(line: string, cn: string, spec: Spec) {
    line != "" && line[0] != '#' && Whitelist.ExtractCN(line) == Some(cn) && cn !in spec.excludeList
  }

  /**
    A line asks for something exactly if, trimmed, it is neither blank nor a comment, has a
    CN that is not in the exclude list, and the CN parses under some prefix. Then that CN
    is the group, and reads prefix, namespace and role, of which the mapping makes the
    ClusterRole.
   */
  lemma LineWantExactly(raw: string, spec: Spec)
    ensures LineWant(raw, spec).Some?
            <==> exists cn, p :: Eligible(TrimSpace(raw), cn, spec) && p in spec.prefixes
                                 && Whitelist.Parses(cn, p, spec.roleMapping)
    ensures LineWant(raw, spec).Some? ==>
              var w := LineWant(raw, spec).value;
              && Eligible(TrimSpace(raw), w.group, spec)
              && w.namespace != ""
              && w.role in spec.roleMapping && w.clusterRole == spec.roleMapping[w.role]
              && (exists p :: p in spec.prefixes && w.group == p + "-" + w.namespace + "-" + w.role)
  {
    hide Whitelist.Parse, Whitelist.ExtractCN, TrimSpace, Whitelist.Parses;
    var line := TrimSpace(raw);
    if Whitelist.ExtractCN(line).Some? {
      Whitelist.ParseSpec(Whitelist.ExtractCN(line).value, spec.prefixes, spec.roleMapping);
    }
  }

  type Wants = seq<Option<Want>>

  function LineWants(lines: seq<string>, spec: Spec): (ws: Wants)
    ensures |ws| == |lines|
  {
    seq(|lines|, i requires 0 <= i < |lines| => LineWant(lines[i], spec))
  }

  const WHITELIST_KEY := "whitelist.txt"

  function WhitelistWants(data: map<string, string>, spec: Spec): Wants {
    if WHITELIST_KEY in data then LineWants(Split(data[WHITELIST_KEY], '\n'), spec) else []
  }

  /** The requests are those of the lines of the "whitelist.txt" entry, one for each, in order. */
  lemma WantsOfLines(data: map<string, string>, spec: Spec, lines: seq<string>)
    requires "whitelist.txt" in data ==>
               && lines != [] && Join(lines, '\n') == data["whitelist.txt"]
               && forall line :: line in lines ==> '\n' !in line
    ensures var ws := WhitelistWants(data, spec);
            if "whitelist.txt" in data
            then |ws| == |lines| && forall i :: 0 <= i < |lines| ==> ws[i] == LineWant(lines[i], spec)
            else ws == []
  {
    hide LineWant, Split;
    if "whitelist.txt" in data {
      JoinSplits(lines, '\n');
    }
  }

  /** Every want takes its ClusterRole from the mapping. */
  ghost predicate Consistent(ws: Wants, mapping: map<string, string>) {
    forall w :: Some(w) in ws ==> w.role in mapping && w.clusterRole == mapping[w.role]
  }

  lemma WhitelistWantsConsistent(data: map<string, string>, spec: Spec)
    ensures Consistent(WhitelistWants(data, spec), spec.roleMapping)
  {}

  /** The group of a want is a CN that starts with one of the prefixes and a dash. */
  lemma LineWantPrefixed(raw: string, spec: Spec)
    ensures var w := LineWant(raw, spec);
            w.Some? ==> exists p :: p in spec.prefixes && p + "-" <= w.value.group
  {
    var w := LineWant(raw, spec);
    if w.Some? {
      hide Whitelist.Parse, Whitelist.ExtractCN, TrimSpace;
      Whitelist.ParsePrefixed(w.value.group, spec.prefixes, spec.roleMapping);
    }
  }

  // ---------- one pass ----------

  /** Who works: operator instance, CR, spec. */
  datatype Context = Context(op: Operator, owner: Owner, spec: Spec)

  datatype Answer = Answer(namespaceApi: Api, bindingApi: Api, now: NonEmpty)

  type Answers = nat -> Answer

  function ProcessWant(s: State, w: Want, x: Context, a: Answer): (State, seq<Key>) {
    var (s1, ok) := EnsureNamespace(s, w.namespace, x.op, x.owner, a.now, a.namespaceApi);
    if !ok then (s1, [])
    else
      // A refused namespace is no obstacle here: the binding is tried all the same.
      var (s2, r) := Bind(s1, w, x.op, x.owner, a.now, a.bindingApi);
      (s2, if r.Managed? then [w.Key()] else [])
  }

  function ProcessLine(s: State, want: Option<Want>, x: Context, a: Answer): (State, seq<Key>) {
    match want
    case None => (s, [])
    case Some(w) => ProcessWant(s, w, x, a)
  }

  function ProcessWants(s: State, ws: Wants, x: Context, answers: Answers): (State, seq<Key>) {
    if ws == [] then (s, [])
    else
      var n := |ws| - 1;
      var (s1, reported) := ProcessWants(s, ws[..n], x, answers);
      var (s2, more) := ProcessLine(s1, ws[n], x, answers(n));
      (s2, reported + more)
  }

  method ProcessWhitelistLine(c: Client, raw: string, x: Context, a: Answer) returns (processed: seq<Key>)
    modifies c
    ensures (c.state, processed) == ProcessLine(old(c.state), LineWant(raw, x.spec), x, a)
  {
    hide EnsureNamespace, Bind;
    var line := TrimSpace(raw);
    if line == "" || line[0] == '#' {
      return [];
    }
    var cn := Whitelist.ExtractCN(line);
    if cn.None? || cn.value in x.spec.excludeList {
      return [];
    }
    var parsed := Whitelist.ParsePermissionStringWithPrefixes(cn.value, x.spec.prefixes, x.spec.roleMapping);
    if parsed.None? {
      return [];
    }
    Whitelist.ParseSpec(cn.value, x.spec.prefixes, x.spec.roleMapping);
    var namespace, role := parsed.value.namespace, parsed.value.role;
    var ok := EnsureNamespaceExists(c, namespace, x.op, x.owner, a.now, a.namespaceApi);
    if !ok {
      return [];
    }
    var w := Want(namespace, role, cn.value, x.spec.roleMapping[role]);
    var managed, err := CreateRoleBinding(c, w, x.op, x.owner, a.now, a.bindingApi);
    if err || !managed {
      return [];
    }
    return [w.Key()];
  }

  method ProcessWhitelist(c: Client, data: map<string, string>, x: Context, answers: Answers)
    returns (processed: seq<Key>)
    modifies c
    ensures (c.state, processed) == ProcessWants(old(c.state), WhitelistWants(data, x.spec), x, answers)
  {
    hide ProcessLine, LineWant;
    processed := [];
    if WHITELIST_KEY !in data {
      return;
    }
    var lines := Split(data[WHITELIST_KEY], '\n');
    ghost var ws := LineWants(lines, x.spec);
    for i := 0 to |lines|
      invariant (c.state, processed) == ProcessWants(old(c.state), ws[..i], x, answers)
    {
      assert ws[..i + 1][..i] == ws[..i];
      var more := ProcessWhitelistLine(c, lines[i], x, answers(i));
      processed := processed + more;
    }
    assert ws[..|lines|] == ws;
  }

  // ---------- what a line does, call by call ----------

  /**
    A line whose namespace call fails does nothing and is not reported. In every other case,
    a refused namespace included, its RoleBinding is tried as if there were no namespace.
   */
  lemma NamespaceStopsLine(s: State, w: Want, x: Context, a: Answer)
    ensures var (t, reported) := ProcessWant(s, w, x, a);
            var settled := w.namespace in s.namespaces && DesiredNamespace(s.namespaces[w.namespace], x.op, x.owner);
            var refused := NamespaceRefused(s, w.namespace, x.owner);
            var fails := !a.namespaceApi.getOk || (!refused && !settled && !a.namespaceApi.writeOk);
            if fails then t == s && reported == []
            else
              var (u, r) := Bind(s, w, x.op, x.owner, a.now, a.bindingApi);
              t.roleBindings == u.roleBindings && (reported == [w.Key()] <==> r.Managed?)
  {
    hide Overwrite, ClaimNamespace, DesiredNamespace, CanTakeOwnership;
    DesiredNamespaceIsFixpoint(OldNamespace(s, w.namespace), x.op, x.owner, a.now);
  }

  /** Whatever calls fail: a RoleBinding that a pass changes binds the group of one of its requests, and it alone. */
  lemma {:induction false} ChangedByRequest(s: State, ws: Wants, x: Context, answers: Answers, k: Key)
    requires !SameBinding(s, ProcessWants(s, ws, x, answers).0, k)
    ensures var t := ProcessWants(s, ws, x, answers).0;
            k in t.roleBindings
            && exists w :: Some(w) in ws && w.Key() == k
                           && t.roleBindings[k].subjects == [Subject("Group", RBAC_GROUP, w.group, "")]
  {
    hide EnsureNamespace, Bind;
    var n := |ws| - 1;
    var init := ws[..n];
    if ws != [] {
      var p := ProcessWants(s, init, x, answers).0;
      assert forall w :: w in init ==> w in ws;
      if ws[n].Some? {
        LineTouches(p, ws[n].value, x, answers(n), k);
      }
      if SameBinding(p, ProcessWants(s, ws, x, answers).0, k) {
        ChangedByRequest(s, init, x, answers, k);
      } else {
        assert Some(ws[n].value) in ws;
      }
    }
  }

  lemma LineTouches(s: State, w: Want, x: Context, a: Answer, k: Key)
    ensures var t := ProcessWant(s, w, x, a).0;
            || SameBinding(s, t, k)
            || (w.Key() == k && k in t.roleBindings
                && t.roleBindings[k].subjects == [Subject("Group", RBAC_GROUP, w.group, "")])
  {
    hide Stamp;
  }

  /** So no pass binds a group of the exclude list, nor one without a configured prefix. */
  lemma ExcludedNeverBound(s: State, data: map<string, string>, x: Context, answers: Answers, k: Key)
    requires !SameBinding(s, ProcessWants(s, WhitelistWants(data, x.spec), x, answers).0, k)
    ensures var t := ProcessWants(s, WhitelistWants(data, x.spec), x, answers).0;
            && k in t.roleBindings && |t.roleBindings[k].subjects| == 1
            && var group := t.roleBindings[k].subjects[0].name;
               group !in x.spec.excludeList && exists p :: p in x.spec.prefixes && p + "-" <= group
  {
    hide ProcessWants, LineWant;
    var ws := WhitelistWants(data, x.spec);
    ChangedByRequest(s, ws, x, answers, k);
    var t := ProcessWants(s, ws, x, answers).0;
    var w :| Some(w) in ws && w.Key() == k
             && t.roleBindings[k].subjects == [Subject("Group", RBAC_GROUP, w.group, "")];
    var lines := Split(data[WHITELIST_KEY], '\n');
    var i :| 0 <= i < |lines| && LineWants(lines, x.spec)[i] == Some(w);
    LineWantExactly(lines[i], x.spec);
    LineWantPrefixed(lines[i], x.spec);
  }

  // ---------- what a pass leaves behind ----------

  ghost predicate AllSucceed(answers: Answers) {
    forall i :: answers(i).namespaceApi == ALL_GOOD && answers(i).bindingApi == ALL_GOOD
  }

  /** A want the pass cannot fulfil: somebody else's live claim, or a roleRef that may not change. */
  predicate Blocked(s: State, w: Want, x: Context) {
    BindingRefused(s, w.Key(), x.owner) || BindingStuck(s, w, x.op)
  }

  /** The last want for a RoleBinding decides its subject. */
  function LastFor(ws: Wants, k: Key): (r: Option<Want>)
    ensures r.Some? ==> r in ws && r.value.Key() == k
  {
    if ws == [] then None
    else
      var n := |ws| - 1;
      if ws[n].Some? && ws[n].value.Key() == k then ws[n] else LastFor(ws[..n], k)
  }

  function FirstFor(ws: Wants, k: Key): nat {
    if ws == [] || LastFor(ws[..|ws| - 1], k).None? then |ws| - (if ws == [] then 0 else 1)
    else FirstFor(ws[..|ws| - 1], k)
  }

  predicate Asks(ws: Wants, namespace: string) {
    exists i :: 0 <= i < |ws| && ws[i].Some? && ws[i].value.namespace == namespace
  }

  function FirstAsks(ws: Wants, namespace: string): nat {
    if ws == [] || !Asks(ws[..|ws| - 1], namespace) then |ws| - (if ws == [] then 0 else 1)
    else FirstAsks(ws[..|ws| - 1], namespace)
  }

  predicate SameBinding(s: State, t: State, k: Key) {
    (k in s.roleBindings <==> k in t.roleBindings)
    && (k in s.roleBindings ==> s.roleBindings[k] == t.roleBindings[k])
  }

  predicate SameNamespace(s: State, t: State, n: string) {
    (n in s.namespaces <==> n in t.namespaces)
    && (n in s.namespaces ==> s.namespaces[n] == t.namespaces[n])
  }

  /** The stored object holds the last want's content, created when the first want was met. */
  predicate Fulfilled(s: State, t: State, k: Key, w: Want, x: Context, created: NonEmpty) {
    && k in t.roleBindings
    && t.roleBindings[k] == Overwrite(OldBinding(s, k), w, x.op, x.owner, created)
  }

  /** One successful exchange about one want, seen from any key. */
  lemma BindEffect(s: State, w: Want, x: Context, now: NonEmpty, k: Key)
    ensures var (t, r) := Bind(s, w, x.op, x.owner, now, ALL_GOOD);
            if k != w.Key() then SameBinding(s, t, k)
            else if Blocked(s, w, x) then SameBinding(s, t, k) && !r.Managed?
            else Fulfilled(s, t, k, w, x, now) && r.Managed?
  {
    hide Stamp;
  }

  lemma WantEffect(s: State, w: Want, x: Context, a: Answer, k: Key)
    requires a.namespaceApi == ALL_GOOD && a.bindingApi == ALL_GOOD
    ensures var (t, reported) := ProcessWant(s, w, x, a);
            && (if k != w.Key() || Blocked(s, w, x) then SameBinding(s, t, k) else Fulfilled(s, t, k, w, x, a.now))
            && reported == (if Blocked(s, w, x) then [] else [w.Key()])
            && t.serviceAccounts == s.serviceAccounts
  {
    hide Stamp;
    var s1 := EnsureNamespace(s, w.namespace, x.op, x.owner, a.now, ALL_GOOD).0;
    assert s1.roleBindings == s.roleBindings;
    BindEffect(s1, w, x, a.now, k);
    BindEffect(s1, w, x, a.now, w.Key());
  }

  lemma NamespaceEffect(s: State, w: Want, x: Context, a: Answer, name: string)
    requires a.namespaceApi == ALL_GOOD
    ensures var t := ProcessWant(s, w, x, a).0;
            if name != w.namespace || NamespaceRefused(s, name, x.owner) then SameNamespace(s, t, name)
            else Claimed(s, t, name, x, a.now)
  {
    hide Stamp;
  }

  /** What the earlier lines left under a key does not change whether a later want is blocked. */
  lemma BlockedUnchanged(s: State, t: State, w0: Want, w: Want, x: Context, created: NonEmpty)
    requires w0.Key() == w.Key() && w0.clusterRole == w.clusterRole
    requires !Blocked(s, w0, x) && Fulfilled(s, t, w.Key(), w0, x, created)
    ensures !Blocked(s, w, x) && !Blocked(t, w, x)
  {}

  lemma FulfilledTwice(s: State, p: State, t: State, w0: Want, w: Want, x: Context, now0: NonEmpty, now: NonEmpty)
    requires w0.Key() == w.Key()
    requires Fulfilled(s, p, w.Key(), w0, x, now0) && Fulfilled(p, t, w.Key(), w, x, now)
    ensures Fulfilled(s, t, w.Key(), w, x, now0)
  {
    hide Stamp;
    OverwriteOverwrite(OldBinding(s, w.Key()), w0, w, x.op, x.owner, now0, now);
  }

  lemma {:induction false} BindingAfterPass(s: State, ws: Wants, x: Context, answers: Answers, k: Key)
    requires AllSucceed(answers) && Consistent(ws, x.spec.roleMapping)
    ensures var t := ProcessWants(s, ws, x, answers).0;
            match LastFor(ws, k)
            case None => SameBinding(s, t, k)
            case Some(w) =>
              if Blocked(s, w, x) then SameBinding(s, t, k)
              else Fulfilled(s, t, k, w, x, answers(FirstFor(ws, k)).now)
  {
    hide Overwrite, ClaimNamespace;
    if ws == [] {
    } else {
      var n := |ws| - 1;
      var init := ws[..n];
      BindingAfterPass(s, init, x, answers, k);
      var p := ProcessWants(s, init, x, answers).0;
      if ws[n].Some? {
        var w := ws[n].value;
        WantEffect(p, w, x, answers(n), k);
        if w.Key() == k && LastFor(init, k).Some? {
          var w0 := LastFor(init, k).value;
          KeyDeterminesRole(w0, w);
          assert Some(w0) in ws && Some(w) in ws;
          if !Blocked(s, w0, x) {
            var now0 := answers(FirstFor(init, k)).now;
            BlockedUnchanged(s, p, w0, w, x, now0);
            FulfilledTwice(s, p, ProcessWants(s, ws, x, answers).0, w0, w, x, now0, answers(n).now);
          }
        }
      }
    }
  }

  lemma AsksLast(ws: Wants, name: string)
    requires ws != []
    ensures var n := |ws| - 1;
            Asks(ws, name) <==> Asks(ws[..n], name) || (ws[n].Some? && ws[n].value.namespace == name)
  {
    var n := |ws| - 1;
    if i :| 0 <= i < |ws| && ws[i].Some? && ws[i].value.namespace == name && i < n {
      assert ws[..n][i] == ws[i];
    }
    if i :| 0 <= i < n && ws[..n][i].Some? && ws[..n][i].value.namespace == name {
      assert ws[i] == ws[..n][i];
    }
  }

  /** The namespace is claimed, at the time it was first asked for. */
  predicate Claimed(s: State, t: State, name: string, x: Context, created: NonEmpty) {
    && name in t.namespaces
    && t.namespaces[name] == ClaimNamespace(OldNamespace(s, name), x.op, x.owner, created)
  }

  lemma ClaimedTwice(s: State, p: State, t: State, name: string, x: Context, now0: NonEmpty, now: NonEmpty)
    requires Claimed(s, p, name, x, now0) && Claimed(p, t, name, x, now)
    ensures Claimed(s, t, name, x, now0)
  {
    hide Stamp;
    ClaimClaim(OldNamespace(s, name), x.op, x.owner, now0, now);
  }

  lemma ClaimedNotRefused(s: State, p: State, name: string, x: Context, now: NonEmpty)
    requires Claimed(s, p, name, x, now)
    ensures !NamespaceRefused(p, name, x.owner)
  {}

  lemma {:induction false} NamespaceAfterPass(s: State, ws: Wants, x: Context, answers: Answers, name: string)
    requires AllSucceed(answers)
    ensures var t := ProcessWants(s, ws, x, answers).0;
            if !Asks(ws, name) || NamespaceRefused(s, name, x.owner) then SameNamespace(s, t, name)
            else Claimed(s, t, name, x, answers(FirstAsks(ws, name)).now)
  {
    hide ClaimNamespace, ProcessWant;
    if ws == [] {
    } else {
      var n := |ws| - 1;
      var init := ws[..n];
      NamespaceAfterPass(s, init, x, answers, name);
      AsksLast(ws, name);
      var p := ProcessWants(s, init, x, answers).0;
      if ws[n].Some? {
        NamespaceEffect(p, ws[n].value, x, answers(n), name);
        if ws[n].value.namespace == name && Asks(init, name) && !NamespaceRefused(s, name, x.owner) {
          var now0 := answers(FirstAsks(init, name)).now;
          ClaimedNotRefused(s, p, name, x, now0);
          ClaimedTwice(s, p, ProcessWants(s, ws, x, answers).0, name, x, now0, answers(n).now);
        }
      }
    }
  }

  /** The keys of the wants that are not blocked, in line order. */
  function Reports(s: State, ws: Wants, x: Context): seq<Key> {
    if ws == [] then []
    else
      var n := |ws| - 1;
      Reports(s, ws[..n], x)
      + (if ws[n].Some? && !Blocked(s, ws[n].value, x) then [ws[n].value.Key()] else [])
  }

  /** Line order: what some lines report comes before what the lines after them report. */
  lemma {:induction false} ReportsInOrder(s: State, ws: Wants, more: Wants, x: Context)
    ensures Reports(s, ws + more, x) == Reports(s, ws, x) + Reports(s, more, x)
  {
    if more == [] {
      assert ws + more == ws;
    } else {
      var n := |more| - 1;
      assert (ws + more)[..|ws + more| - 1] == ws + more[..n];
      ReportsInOrder(s, ws, more[..n], x);
    }
  }

  lemma {:induction false} ReportedByPass(s: State, ws: Wants, x: Context, answers: Answers)
    requires AllSucceed(answers) && Consistent(ws, x.spec.roleMapping)
    ensures ProcessWants(s, ws, x, answers).1 == Reports(s, ws, x)
    ensures ProcessWants(s, ws, x, answers).0.serviceAccounts == s.serviceAccounts
  {
    hide Overwrite, ProcessWant;
    if ws == [] {
    } else {
      var n := |ws| - 1;
      var init := ws[..n];
      ReportedByPass(s, init, x, answers);
      var p := ProcessWants(s, init, x, answers).0;
      if ws[n].Some? {
        var w := ws[n].value;
        WantEffect(p, w, x, answers(n), w.Key());
        BindingAfterPass(s, init, x, answers, w.Key());
        if LastFor(init, w.Key()).Some? {
          var w0 := LastFor(init, w.Key()).value;
          KeyDeterminesRole(w0, w);
          assert Some(w0) in ws && Some(w) in ws;
          if !Blocked(s, w0, x) {
            BlockedUnchanged(s, p, w0, w, x, answers(FirstFor(init, w.Key())).now);
          }
        }
      }
    }
  }

  // ---------- idempotence ----------

  lemma BlockedStays(s: State, ws: Wants, x: Context, answers: Answers, w: Want)
    requires AllSucceed(answers) && Consistent(ws, x.spec.roleMapping) && Some(w) in ws
    ensures Blocked(ProcessWants(s, ws, x, answers).0, w, x) <==> Blocked(s, w, x)
  {
    hide Overwrite, ProcessWants;
    BindingAfterPass(s, ws, x, answers, w.Key());
    HasLast(ws, w);
    var w0 := LastFor(ws, w.Key()).value;
    KeyDeterminesRole(w0, w);
    if !Blocked(s, w0, x) {
      BlockedUnchanged(s, ProcessWants(s, ws, x, answers).0, w0, w, x, answers(FirstFor(ws, w.Key())).now);
    }
  }

  lemma {:induction false} HasLast(ws: Wants, w: Want)
    requires Some(w) in ws
    ensures LastFor(ws, w.Key()).Some?
  {
    var n := |ws| - 1;
    if ws[n] != Some(w) {
      assert ws == ws[..n] + [ws[n]];
      HasLast(ws[..n], w);
    }
  }

  lemma {:induction false} ReportsDependOnBlocked(s: State, t: State, ws: Wants, x: Context)
    requires forall w :: Some(w) in ws ==> (Blocked(s, w, x) <==> Blocked(t, w, x))
    ensures Reports(s, ws, x) == Reports(t, ws, x)
  {
    if ws == [] {
    } else {
      var n := |ws| - 1;
      ReportsDependOnBlocked(s, t, ws[..n], x);
      assert ws[n].Some? ==> Some(ws[n].value) in ws;
    }
  }

  lemma SecondPassSameBinding(s: State, ws: Wants, x: Context, answers1: Answers, answers2: Answers, k: Key)
    requires AllSucceed(answers1) && AllSucceed(answers2) && Consistent(ws, x.spec.roleMapping)
    ensures var s1 := ProcessWants(s, ws, x, answers1).0;
            SameBinding(s1, ProcessWants(s1, ws, x, answers2).0, k)
  {
    hide Overwrite, ProcessWants;
    var s1 := ProcessWants(s, ws, x, answers1).0;
    var s2 := ProcessWants(s1, ws, x, answers2).0;
    BindingAfterPass(s, ws, x, answers1, k);
    BindingAfterPass(s1, ws, x, answers2, k);
    if LastFor(ws, k).Some? {
      var w := LastFor(ws, k).value;
      if !Blocked(s, w, x) {
        var now1, now2 := answers1(FirstFor(ws, k)).now, answers2(FirstFor(ws, k)).now;
        BlockedUnchanged(s, s1, w, w, x, now1);
        FulfilledTwice(s, s1, s2, w, w, x, now1, now2);
      }
    }
  }

  lemma SecondPassSameNamespace(s: State, ws: Wants, x: Context, answers1: Answers, answers2: Answers, name: string)
    requires AllSucceed(answers1) && AllSucceed(answers2)
    ensures var s1 := ProcessWants(s, ws, x, answers1).0;
            SameNamespace(s1, ProcessWants(s1, ws, x, answers2).0, name)
  {
    hide ClaimNamespace, ProcessWants;
    var s1 := ProcessWants(s, ws, x, answers1).0;
    var s2 := ProcessWants(s1, ws, x, answers2).0;
    NamespaceAfterPass(s, ws, x, answers1, name);
    NamespaceAfterPass(s1, ws, x, answers2, name);
    if Asks(ws, name) && !NamespaceRefused(s, name, x.owner) {
      var now1, now2 := answers1(FirstAsks(ws, name)).now, answers2(FirstAsks(ws, name)).now;
      ClaimedNotRefused(s, s1, name, x, now1);
      ClaimedTwice(s, s1, s2, name, x, now1, now2);
    }
  }

  /**
    A second pass over the same lines changes no object and reports the same list, even
    with refused resources, with several lines for one RoleBinding, and at a later time.
   */
  lemma ProcessIsIdempotent(s: State, ws: Wants, x: Context, answers1: Answers, answers2: Answers)
    requires AllSucceed(answers1) && AllSucceed(answers2) && Consistent(ws, x.spec.roleMapping)
    ensures var (s1, reported1) := ProcessWants(s, ws, x, answers1);
            ProcessWants(s1, ws, x, answers2) == (s1, reported1)
  {
    var s1 := ProcessWants(s, ws, x, answers1).0;
    var s2 := ProcessWants(s1, ws, x, answers2).0;
    forall k: Key
      ensures SameBinding(s1, s2, k)
    {
      SecondPassSameBinding(s, ws, x, answers1, answers2, k);
    }
    forall n: string
      ensures SameNamespace(s1, s2, n)
    {
      SecondPassSameNamespace(s, ws, x, answers1, answers2, n);
    }
    ReportedByPass(s, ws, x, answers1);
    ReportedByPass(s1, ws, x, answers2);
    forall w | Some(w) in ws
      ensures Blocked(s, w, x) <==> Blocked(s1, w, x)
    {
      BlockedStays(s, ws, x, answers1, w);
    }
    ReportsDependOnBlocked(s, s1, ws, x);
    SameEverywhere(s1, s2);
  }

  // ---------- what happens in between ----------

  /** Two lines that are not blocked bind different groups to one RoleBinding. */
  ghost predicate Competing(s: State, ws: Wants, x: Context) {
    exists v, w :: Some(v) in ws && Some(w) in ws && v.Key() == w.Key() && v.group != w.group && !Blocked(s, w, x)
  }

  lemma BlockedTogether(s: State, ws: Wants, x: Context, v: Want, w: Want)
    requires Consistent(ws, x.spec.roleMapping) && Some(v) in ws && Some(w) in ws && v.Key() == w.Key()
    ensures v.role == w.role && v.clusterRole == w.clusterRole && v.namespace == w.namespace
    ensures Blocked(s, v, x) <==> Blocked(s, w, x)
  {
    KeyDeterminesRole(v, w);
  }

  /** Without competing lines no line of a later pass moves anything, whatever calls fail. */
  lemma QuietLine(s: State, ws: Wants, x: Context, answers: Answers, w: Want, a: Answer)
    requires AllSucceed(answers) && Consistent(ws, x.spec.roleMapping) && Some(w) in ws && !Competing(s, ws, x)
    ensures var t := ProcessWants(s, ws, x, answers).0; ProcessWant(t, w, x, a).0 == t
  {
    hide ProcessWants, Overwrite, ClaimNamespace;
    var t := ProcessWants(s, ws, x, answers).0;
    QuietNamespace(s, ws, x, answers, w, a);
    BlockedStays(s, ws, x, answers, w);
    if !Blocked(s, w, x) {
      HasLast(ws, w);
      var last := LastFor(ws, w.Key()).value;
      BlockedTogether(s, ws, x, last, w);
      assert last == w;
      BindingAfterPass(s, ws, x, answers, w.Key());
      var now := answers(FirstFor(ws, w.Key())).now;
      OverwriteOverwrite(OldBinding(s, w.Key()), w, w, x.op, x.owner, now, a.now);
      assert t.roleBindings[w.Key() := t.roleBindings[w.Key()]] == t.roleBindings;
    }
  }

  lemma {:induction false} AsksFor(ws: Wants, w: Want)
    requires Some(w) in ws
    ensures Asks(ws, w.namespace)
  {
    var i :| 0 <= i < |ws| && ws[i] == Some(w);
    assert ws[i].value.namespace == w.namespace;
  }

  lemma QuietNamespace(s: State, ws: Wants, x: Context, answers: Answers, w: Want, a: Answer)
    requires AllSucceed(answers) && Some(w) in ws
    ensures var t := ProcessWants(s, ws, x, answers).0;
            EnsureNamespace(t, w.namespace, x.op, x.owner, a.now, a.namespaceApi).0 == t
  {
    hide ProcessWants, ClaimNamespace;
    AsksFor(ws, w);
    NamespaceAfterPass(s, ws, x, answers, w.namespace);
    if !NamespaceRefused(s, w.namespace, x.owner) {
      var now := answers(FirstAsks(ws, w.namespace)).now;
      ClaimClaim(OldNamespace(s, w.namespace), x.op, x.owner, now, a.now);
    }
  }

  lemma {:induction false} QuietPass(s: State, ws: Wants, x: Context, answers1: Answers, answers2: Answers, n: nat)
    requires AllSucceed(answers1) && Consistent(ws, x.spec.roleMapping) && n <= |ws| && !Competing(s, ws, x)
    ensures var s1 := ProcessWants(s, ws, x, answers1).0; ProcessWants(s1, ws[..n], x, answers2).0 == s1
  {
    hide Competing, ProcessWant;
    var s1 := ProcessWants(s, ws, x, answers1).0;
    if n == 0 {
      assert ProcessWants(s1, ws[..0], x, answers2).0 == s1;
    } else {
      QuietPass(s, ws, x, answers1, answers2, n - 1);
      assert ws[..n][..n - 1] == ws[..n - 1];
      if ws[n - 1].Some? {
        assert Some(ws[n - 1].value) in ws;
        QuietLine(s, ws, x, answers1, ws[n - 1].value, answers2(n - 1));
      }
    }
  }

  /** In a repeated pass an unblocked line takes its RoleBinding back from a later one. */
  lemma OverwrittenLineMoves(s: State, ws: Wants, x: Context, answers1: Answers, answers2: Answers, i: nat)
    requires AllSucceed(answers1) && AllSucceed(answers2) && Consistent(ws, x.spec.roleMapping)
    requires i < |ws| && ws[i].Some? && !Blocked(s, ws[i].value, x)
    requires LastFor(ws, ws[i].value.Key()).Some? && LastFor(ws, ws[i].value.Key()).value.group != ws[i].value.group
    requires !Blocked(s, LastFor(ws, ws[i].value.Key()).value, x)
    ensures var s1 := ProcessWants(s, ws, x, answers1).0; ProcessWants(s1, ws[..i + 1], x, answers2).0 != s1
  {
    hide ProcessWants, Stamp;
    var u, n := ws[i].value, i + 1;
    var k := u.Key();
    var s1 := ProcessWants(s, ws, x, answers1).0;
    BindingAfterPass(s, ws, x, answers1, k);
    BlockedStays(s, ws, x, answers1, u);
    assert Consistent(ws[..n], x.spec.roleMapping) by {
      forall z | Some(z) in ws[..n] ensures Some(z) in ws {}
    }
    BindingAfterPass(s1, ws[..n], x, answers2, k);
    assert LastFor(ws[..n], k) == Some(u);
  }

  lemma CompetingLinesMove(s: State, ws: Wants, x: Context, answers1: Answers, answers2: Answers) returns (n: nat)
    requires AllSucceed(answers1) && AllSucceed(answers2) && Consistent(ws, x.spec.roleMapping) && Competing(s, ws, x)
    ensures n <= |ws|
    ensures var s1 := ProcessWants(s, ws, x, answers1).0; ProcessWants(s1, ws[..n], x, answers2).0 != s1
  {
    hide ProcessWants, Stamp;
    var v, w :| Some(v) in ws && Some(w) in ws && v.Key() == w.Key() && v.group != w.group && !Blocked(s, w, x);
    var k := w.Key();
    BlockedTogether(s, ws, x, v, w);
    HasLast(ws, w);
    var last := LastFor(ws, k).value;
    BlockedTogether(s, ws, x, last, w);
    var u := if v.group != last.group then v else w;
    var i :| 0 <= i < |ws| && ws[i] == Some(u);
    n := i + 1;
    OverwrittenLineMoves(s, ws, x, answers1, answers2, i);
  }

  /**
    A repeated pass ends where it began; this is when nothing moves meanwhile. If two
    unblocked lines compete for a RoleBinding, every pass takes it from one group and
    gives it back; without such lines the cluster stands still at every line.
   */
  lemma StandsStillExactly(s: State, ws: Wants, x: Context, answers1: Answers, answers2: Answers)
    requires AllSucceed(answers1) && AllSucceed(answers2) && Consistent(ws, x.spec.roleMapping)
    ensures (forall n :: 0 <= n <= |ws| ==>
               ProcessWants(ProcessWants(s, ws, x, answers1).0, ws[..n], x, answers2).0
               == ProcessWants(s, ws, x, answers1).0)
            <==> !Competing(s, ws, x)
  {
    hide ProcessWants, Competing;
    if Competing(s, ws, x) {
      var n := CompetingLinesMove(s, ws, x, answers1, answers2);
    } else {
      forall n | 0 <= n <= |ws|
        ensures ProcessWants(ProcessWants(s, ws, x, answers1).0, ws[..n], x, answers2).0
                == ProcessWants(s, ws, x, answers1).0
      {
        QuietPass(s, ws, x, answers1, answers2, n);
      }
    }
  }

  lemma SameEverywhere(s: State, t: State)
    requires forall k :: SameBinding(s, t, k)
    requires forall n :: SameNamespace(s, t, n)
    requires s.serviceAccounts == t.serviceAccounts
    ensures s == t
  {
    assert forall k :: k in s.roleBindings <==> k in t.roleBindings by {
      forall k: Key ensures k in s.roleBindings <==> k in t.roleBindings { assert SameBinding(s, t, k); }
    }
    assert s.roleBindings == t.roleBindings by {
      forall k | k in s.roleBindings ensures s.roleBindings[k] == t.roleBindings[k] { assert SameBinding(s, t, k); }
    }
    assert forall n :: n in s.namespaces <==> n in t.namespaces by {
      forall n: string ensures n in s.namespaces <==> n in t.namespaces { assert SameNamespace(s, t, n); }
    }
    assert s.namespaces == t.namespaces by {
      forall n | n in s.namespaces ensures s.namespaces[n] == t.namespaces[n] { assert SameNamespace(s, t, n); }
    }
  }
}
